/**
 The relay and the fan-out: from undispatched outbox rows to delivery rows, notifications
 and realtime frames, with racing relays, failed transactions and crashes after a commit.
 */
module FanOut {
  import opened Prelude
  import opened DeliveryStore

  datatype Subscription = Subscription(id: string, eventTypes: seq<string>)

  datatype OutboxEvent = OutboxEvent(id: string, isActivity: bool, eventType: string)

  /** A notification's unique key. */
  datatype Note = Note(user: UserId, eventId: string)

  const STATE_CHANGED := "activity.state_changed"
  const WILDCARD := "*"

  predicate Matches(eventTypes: seq<string>, eventType: string) {
    eventType in eventTypes || STATE_CHANGED in eventTypes || WILDCARD in eventTypes
  }

  // ---------------------------------------------------------------- matching

  function IdsOf(subs: seq<Subscription>): (ids: seq<string>)
    ensures |ids| == |subs| && forall i :: 0 <= i < |ids| ==> ids[i] == subs[i].id
  {
    seq(|subs|, i requires 0 <= i < |subs| => subs[i].id)
  }

  /** The matching subscriptions, each id once, in order. */
  function Selected(subs: seq<Subscription>, eventType: string): seq<Subscription> {
    if subs == [] then []
    else
      var before := Selected(subs[..|subs| - 1], eventType);
      var last := subs[|subs| - 1];
      if last.id in IdsOf(before) || !Matches(last.eventTypes, eventType) then before else before + [last]
  }

  lemma {:induction false} SelectedIsExact(subs: seq<Subscription>, eventType: string)
    ensures var matched := Selected(subs, eventType);
            && Distinct(IdsOf(matched))
            && (forall s :: s in matched ==> s in subs && Matches(s.eventTypes, eventType))
            && (forall s :: s in subs && Matches(s.eventTypes, eventType) ==> s.id in IdsOf(matched))
  {
    hide Matches;
    if subs != [] {
      var init, last := subs[..|subs| - 1], subs[|subs| - 1];
      SelectedIsExact(init, eventType);
      var before := Selected(init, eventType);
      assert subs == init + [last];
      assert IdsOf(before + [last]) == IdsOf(before) + [last.id];
    }
  }

  /** The loop of `selectMatchedSubscriptions`. */
  method SelectMatched(subs: seq<Subscription>, eventType: string) returns (matched: seq<Subscription>)
    ensures matched == Selected(subs, eventType)
    ensures Distinct(IdsOf(matched))
    ensures forall s :: s in matched ==>
              s in subs
              && (eventType in s.eventTypes || "activity.state_changed" in s.eventTypes || "*" in s.eventTypes)
    ensures forall s :: s in subs ==>
              (eventType in s.eventTypes || "activity.state_changed" in s.eventTypes || "*" in s.eventTypes ==>
                 s.id in IdsOf(matched))
  {
    var seen: set<string> := {};
    matched := [];
    for i := 0 to |subs|
      invariant matched == Selected(subs[..i], eventType)
      invariant forall id :: id in seen <==> id in IdsOf(matched)
    {
      assert subs[..i + 1][..i] == subs[..i];
      if subs[i].id in seen {
        continue;
      }
      if !Matches(subs[i].eventTypes, eventType) {
        continue;
      }
      assert IdsOf(matched + [subs[i]]) == IdsOf(matched) + [subs[i].id];
      seen := seen + {subs[i].id};
      matched := matched + [subs[i]];
    }
    assert subs[..|subs|] == subs;
    SelectedIsExact(subs, eventType);
  }

  /** What a dispatch matches: only activity events reach subscriptions. */
  function MatchedIds(event: OutboxEvent, subs: seq<Subscription>): seq<string> {
    if event.isActivity then IdsOf(Selected(subs, event.eventType)) else []
  }

  /** A subscription of that id listens to the event's own type, to every state change, or to everything. */
  predicate Wants(event: OutboxEvent, subs: seq<Subscription>, id: string) {
    && event.isActivity
    && exists s :: s in subs && s.id == id
                   && (event.eventType in s.eventTypes || "activity.state_changed" in s.eventTypes
                       || "*" in s.eventTypes)
  }

  lemma MatchedAreWanted(event: OutboxEvent, subs: seq<Subscription>, id: string)
    ensures id in MatchedIds(event, subs) <==> Wants(event, subs, id)
  {
    forall s: Subscription
      ensures Matches(s.eventTypes, event.eventType) <==>
                event.eventType in s.eventTypes || "activity.state_changed" in s.eventTypes || "*" in s.eventTypes
    {
    }
    hide Matches;
    if event.isActivity {
      var matched := Selected(subs, event.eventType);
      SelectedIsExact(subs, event.eventType);
      if id in IdsOf(matched) {
        var i :| 0 <= i < |matched| && IdsOf(matched)[i] == id;
        assert matched[i] in matched;
      }
    }
  }

  // ---------------------------------------------------------------- insert or ignore

  /** `INSERT ... ON CONFLICT DO NOTHING`, key by key, into a table with a unique key. */
  function Inserted<K(==)>(table: seq<K>, keys: seq<K>): seq<K> {
    if keys == [] then table
    else
      var before := Inserted(table, keys[..|keys| - 1]);
      var key := keys[|keys| - 1];
      if key in before then before else before + [key]
  }

  lemma {:induction false} InsertedIsExact<K>(table: seq<K>, keys: seq<K>)
    requires Distinct(table)
    ensures var after := Inserted(table, keys);
            && Distinct(after)
            && table <= after
            && (forall key :: key in after <==> key in table || key in keys)
            && (forall i :: |table| <= i < |after| ==> after[i] in keys && after[i] !in table)
  {
    if keys == [] {
    } else {
      var init := keys[..|keys| - 1];
      InsertedIsExact(table, init);
      assert keys == init + [keys[|keys| - 1]];
    }
  }

  // ---------------------------------------------------------------- the world

  /** One committed dispatch: its event, the bond's subscriptions it read and the users it notified. */
  datatype Commit = Commit(event: OutboxEvent, subs: seq<Subscription>, recipients: seq<UserId>)

  /**
   `commits` is auxiliary. `toEnqueue` and `toPublish` are what dispatchers hold
   between their commit and the queue or the realtime channel.
   */
  datatype World = World(
    deliveries: seq<PairKey>,
    notes: seq<Note>,
    dispatched: set<string>,
    toEnqueue: multiset<PairKey>,
    toPublish: multiset<Note>,
    frames: multiset<Note>,
    commits: seq<Commit>
  )

  datatype Step =
    /** A dispatch that commits; racing dispatches of one event commit one after the other. */
    | Commits(event: OutboxEvent, subs: seq<Subscription>, recipients: seq<UserId>)
    /** A dispatch whose transaction fails. */
    | Aborts(eventId: string)
    | Publishes(note: Note)
    | Enqueues(key: PairKey)
    /** A process dies holding some of what it had to publish and enqueue. */
    | Crashes(unpublished: multiset<Note>, unqueued: multiset<PairKey>)

  function PairsOf(eventId: string, matched: seq<string>): (pairs: seq<PairKey>)
    ensures |pairs| == |matched|
    ensures forall key :: key in pairs <==> key.eventId == eventId && key.subscriptionId in matched
  {
    var pairs := seq(|matched|, i requires 0 <= i < |matched| => PairKey(eventId, matched[i]));
    assert forall i :: 0 <= i < |matched| ==> pairs[i] == PairKey(eventId, matched[i]);
    pairs
  }

  function NotesOf(eventId: string, recipients: seq<UserId>): (notes: seq<Note>)
    ensures |notes| == |recipients|
    ensures forall note :: note in notes <==> note.eventId == eventId && note.user in recipients
  {
    var notes := seq(|recipients|, i requires 0 <= i < |recipients| => Note(recipients[i], eventId));
    assert forall i :: 0 <= i < |recipients| ==> notes[i] == Note(recipients[i], eventId);
    notes
  }

  /** The rows an insert-or-ignore really created. */
  function Created<K(==)>(table: seq<K>, keys: seq<K>): seq<K> {
    var after := Inserted(table, keys);
    if |after| < |table| then [] else after[|table|..]
  }

  function After(w: World, step: Step): World {
    match step
    case Commits(event, subs, recipients) =>
      var pairs := PairsOf(event.id, MatchedIds(event, subs));
      var notes := NotesOf(event.id, recipients);
      w.(deliveries := Inserted(w.deliveries, pairs),
         notes := Inserted(w.notes, notes),
         dispatched := w.dispatched + {event.id},
         toEnqueue := w.toEnqueue + multiset(Created(w.deliveries, pairs)),
         toPublish := w.toPublish + multiset(Created(w.notes, notes)),
         commits := w.commits + [Commit(event, subs, recipients)])
    case Aborts(_) => w
    case Publishes(note) =>
      if note in w.toPublish
      then w.(toPublish := w.toPublish - multiset{note}, frames := w.frames + multiset{note})
      else w
    case Enqueues(key) => w.(toEnqueue := w.toEnqueue - multiset{key})
    case Crashes(unpublished, unqueued) =>
      w.(toPublish := w.toPublish - unpublished, toEnqueue := w.toEnqueue - unqueued)
  }

  const EMPTY_WORLD := World([], [], {}, multiset{}, multiset{}, multiset{}, [])

  function RunFrom(w: World, steps: seq<Step>): World {
    if steps == [] then w else After(RunFrom(w, steps[..|steps| - 1]), steps[|steps| - 1])
  }

  function Run(steps: seq<Step>): World {
    RunFrom(EMPTY_WORLD, steps)
  }

  // ---------------------------------------------------------------- invariant

  predicate CommitKept(w: World, c: Commit) {
    && c.event.id in w.dispatched
    && (forall sub :: sub in MatchedIds(c.event, c.subs) ==> PairKey(c.event.id, sub) in w.deliveries)
    && (forall user :: user in c.recipients ==> Note(user, c.event.id) in w.notes)
  }

  predicate AsksFor(c: Commit, key: PairKey) {
    c.event.id == key.eventId && key.subscriptionId in MatchedIds(c.event, c.subs)
  }

  predicate CommitMade(w: World, key: PairKey) {
    exists i :: 0 <= i < |w.commits| && AsksFor(w.commits[i], key)
  }

  predicate NoteMade(w: World, note: Note) {
    exists i :: 0 <= i < |w.commits| && w.commits[i].event.id == note.eventId && note.user in w.commits[i].recipients
  }

  ghost predicate Inv(w: World) {
    && Distinct(w.deliveries) && Distinct(w.notes)
    && w.frames + w.toPublish <= multiset(w.notes)
    && w.toEnqueue <= multiset(w.deliveries)
    && (forall i :: 0 <= i < |w.commits| ==> CommitKept(w, w.commits[i]))
    && (forall key :: key in w.deliveries ==> CommitMade(w, key))
    && (forall note :: note in w.notes ==> NoteMade(w, note))
    && (forall id :: id in w.dispatched ==> exists i :: 0 <= i < |w.commits| && w.commits[i].event.id == id)
  }

  lemma GrownTable<K>(table: seq<K>, keys: seq<K>)
    requires Distinct(table)
    ensures multiset(Inserted(table, keys)) == multiset(table) + multiset(Created(table, keys))
  {
    InsertedIsExact(table, keys);
    var after := Inserted(table, keys);
    assert after == table + after[|table|..];
  }

  lemma CommitKeepsInv(w: World, event: OutboxEvent, subs: seq<Subscription>, recipients: seq<UserId>)
    requires Inv(w)
    ensures Inv(After(w, Commits(event, subs, recipients)))
  {
    hide Inserted;
    hide Created;
    hide Distinct;
    hide MatchedIds;
    hide CommitKept;
    hide CommitMade;
    hide NoteMade;
    var w' := After(w, Commits(event, subs, recipients));
    var pairs := PairsOf(event.id, MatchedIds(event, subs));
    var notes := NotesOf(event.id, recipients);
    InsertedIsExact(w.deliveries, pairs);
    InsertedIsExact(w.notes, notes);
    GrownTable(w.deliveries, pairs);
    GrownTable(w.notes, notes);
    CommitIsKept(w, w', Commit(event, subs, recipients));
    CommitIsMade(w, w', Commit(event, subs, recipients));
  }

  /** Tables that keep their rows and gain those of a new commit keep every commit. */
  lemma CommitIsKept(w: World, w': World, c: Commit)
    requires w'.commits == w.commits + [c] && c.event.id in w'.dispatched
    requires forall id :: id in w.dispatched ==> id in w'.dispatched
    requires forall key :: key in w.deliveries || AsksFor(c, key) ==> key in w'.deliveries
    requires forall note :: note in w.notes || (note.eventId == c.event.id && note.user in c.recipients) ==>
               note in w'.notes
    requires forall i :: 0 <= i < |w.commits| ==> CommitKept(w, w.commits[i])
    ensures forall i :: 0 <= i < |w'.commits| ==> CommitKept(w', w'.commits[i])
  {
    hide MatchedIds;
    assert CommitKept(w', c) by {
      forall sub | sub in MatchedIds(c.event, c.subs)
        ensures PairKey(c.event.id, sub) in w'.deliveries
      {
        assert AsksFor(c, PairKey(c.event.id, sub));
      }
    }
    forall i | 0 <= i < |w.commits|
      ensures CommitKept(w', w.commits[i])
    {
      assert CommitKept(w, w.commits[i]);
    }
  }

  /** Tables whose new rows are all a new commit's have a commit for every row. */
  lemma CommitIsMade(w: World, w': World, c: Commit)
    requires w'.commits == w.commits + [c]
    requires forall id :: id in w'.dispatched ==> id in w.dispatched || id == c.event.id
    requires forall key :: key in w'.deliveries ==> key in w.deliveries || AsksFor(c, key)
    requires forall note :: note in w'.notes ==>
               note in w.notes || (note.eventId == c.event.id && note.user in c.recipients)
    requires forall key :: key in w.deliveries ==> CommitMade(w, key)
    requires forall note :: note in w.notes ==> NoteMade(w, note)
    requires forall id :: id in w.dispatched ==> exists i :: 0 <= i < |w.commits| && w.commits[i].event.id == id
    ensures forall key :: key in w'.deliveries ==> CommitMade(w', key)
    ensures forall note :: note in w'.notes ==> NoteMade(w', note)
    ensures forall id :: id in w'.dispatched ==> exists i :: 0 <= i < |w'.commits| && w'.commits[i].event.id == id
  {
    hide AsksFor;
    var n := |w.commits|;
    assert w'.commits[n] == c && forall i :: 0 <= i < n ==> w'.commits[i] == w.commits[i];
    forall key | key in w'.deliveries
      ensures CommitMade(w', key)
    {
      if key in w.deliveries {
        var i :| 0 <= i < n && AsksFor(w.commits[i], key);
        assert AsksFor(w'.commits[i], key);
      } else {
        assert AsksFor(w'.commits[n], key);
      }
    }
    forall note | note in w'.notes
      ensures NoteMade(w', note)
    {
      if note in w.notes {
        var i :| 0 <= i < n && w.commits[i].event.id == note.eventId && note.user in w.commits[i].recipients;
        assert w'.commits[i].event.id == note.eventId;
      } else {
        assert w'.commits[n].event.id == note.eventId;
      }
    }
    forall id | id in w'.dispatched
      ensures exists i :: 0 <= i < |w'.commits| && w'.commits[i].event.id == id
    {
      if id in w.dispatched {
        var i :| 0 <= i < n && w.commits[i].event.id == id;
        assert w'.commits[i].event.id == id;
      } else {
        assert w'.commits[n].event.id == id;
      }
    }
  }

  lemma PublishKeepsInv(w: World, note: Note)
    requires Inv(w)
    ensures Inv(After(w, Publishes(note)))
  {
    hide CommitKept;
    hide CommitMade;
    hide NoteMade;
    hide Inserted;
    var w' := After(w, Publishes(note));
    assert w'.frames + w'.toPublish == w.frames + w.toPublish;
    QuietKeepsInv(w, w');
  }

  lemma StepKeepsInv(w: World, step: Step)
    requires Inv(w)
    ensures Inv(After(w, step))
  {
    hide CommitKept;
    hide CommitMade;
    hide NoteMade;
    hide Inserted;
    hide Created;
    match step
    case Commits(event, subs, recipients) => CommitKeepsInv(w, event, subs, recipients);
    case Aborts(_) =>
    case Publishes(note) => PublishKeepsInv(w, note);
    case Enqueues(_) => QuietKeepsInv(w, After(w, step));
    case Crashes(_, _) => QuietKeepsInv(w, After(w, step));
  }

  lemma QuietKeepsInv(w: World, w': World)
    requires Inv(w)
    requires w'.deliveries == w.deliveries && w'.notes == w.notes && w'.dispatched == w.dispatched
    requires w'.commits == w.commits && w'.toEnqueue <= w.toEnqueue
    requires w'.frames + w'.toPublish <= w.frames + w.toPublish
    ensures Inv(w')
  {
    hide Distinct;
    forall i | 0 <= i < |w'.commits|
      ensures CommitKept(w', w'.commits[i])
    {
      assert CommitKept(w, w.commits[i]);
    }
    forall key | key in w'.deliveries
      ensures CommitMade(w', key)
    {
      assert CommitMade(w, key);
    }
    forall note | note in w'.notes
      ensures NoteMade(w', note)
    {
      assert NoteMade(w, note);
    }
  }

  lemma {:induction false} RunFromKeepsInv(w: World, steps: seq<Step>)
    requires Inv(w)
    ensures Inv(RunFrom(w, steps))
  {
    hide Inv;
    hide After;
    if steps != [] {
      RunFromKeepsInv(w, steps[..|steps| - 1]);
      StepKeepsInv(RunFrom(w, steps[..|steps| - 1]), steps[|steps| - 1]);
    }
  }

  lemma RunInv(steps: seq<Step>)
    ensures Inv(Run(steps))
  {
    RunFromKeepsInv(EMPTY_WORLD, steps);
  }

  // ---------------------------------------------------------------- theorems

  lemma DistinctMultiplicity<K>(xs: seq<K>, x: K)
    requires Distinct(xs)
    ensures multiset(xs)[x] <= 1
  {
    if xs != [] {
      var init := xs[..|xs| - 1];
      assert xs == init + [xs[|xs| - 1]];
      DistinctMultiplicity(init, x);
      if xs[|xs| - 1] == x {
        assert x !in init;
      }
    }
  }

  /**
   Exactly one row per pair: in every run, whatever relays race and whatever crashes,
   one delivery per (event, subscription), one notification per (user, event), at most
   one frame per notification and none without one.
   */
  lemma OneRowPerPair(steps: seq<Step>, key: PairKey, note: Note)
    ensures var w := Run(steps);
            && multiset(w.deliveries)[key] <= 1
            && multiset(w.notes)[note] <= 1
            && w.frames[note] + w.toPublish[note] <= multiset(w.notes)[note]
            && w.toEnqueue[key] <= multiset(w.deliveries)[key]
  {
    RunInv(steps);
    DistinctMultiplicity(Run(steps).deliveries, key);
    DistinctMultiplicity(Run(steps).notes, note);
  }

  /**
   A committed dispatch leaves a row for each subscription it matched, a notification for
   each recipient and the event marked; and there is no row but for a matching subscription,
   and no notification but for a recipient, of a committed dispatch of its event.
   */
  lemma DispatchIsAllOrNothing(steps: seq<Step>, key: PairKey, note: Note)
    ensures var w := Run(steps);
            && (key in w.deliveries <==>
                  exists i, s :: 0 <= i < |w.commits| && w.commits[i].event.id == key.eventId
                                 && w.commits[i].event.isActivity
                                 && s in w.commits[i].subs && s.id == key.subscriptionId
                                 && (w.commits[i].event.eventType in s.eventTypes
                                     || "activity.state_changed" in s.eventTypes || "*" in s.eventTypes))
            && (note in w.notes <==>
                  exists i :: 0 <= i < |w.commits| && w.commits[i].event.id == note.eventId
                              && note.user in w.commits[i].recipients)
            && (forall id :: id in w.dispatched <==> exists i :: 0 <= i < |w.commits| && w.commits[i].event.id == id)
  {
    hide MatchedIds;
    hide Run;
    RunInv(steps);
    var w := Run(steps);
    forall i | 0 <= i < |w.commits|
      ensures CommitKept(w, w.commits[i])
      ensures AsksFor(w.commits[i], key) <==>
                w.commits[i].event.id == key.eventId && Wants(w.commits[i].event, w.commits[i].subs, key.subscriptionId)
    {
      MatchedAreWanted(w.commits[i].event, w.commits[i].subs, key.subscriptionId);
    }
    if key in w.deliveries {
      assert CommitMade(w, key);
      var i :| 0 <= i < |w.commits| && AsksFor(w.commits[i], key);
    }
    if note in w.notes {
      assert NoteMade(w, note);
    }
  }

  // ---------------------------------------------------------------- a dispatch as a run

  function Publications(notes: seq<Note>): seq<Step> {
    seq(|notes|, i requires 0 <= i < |notes| => Publishes(notes[i]))
  }

  function Enqueuings(keys: seq<PairKey>): seq<Step> {
    seq(|keys|, i requires 0 <= i < |keys| => Enqueues(keys[i]))
  }

  /** A dispatch that nothing interrupts: its commit, then its frames, then its jobs. */
  function DispatchSteps(w: World, event: OutboxEvent, subs: seq<Subscription>, recipients: seq<UserId>): seq<Step> {
    [Commits(event, subs, recipients)]
    + Publications(Created(w.notes, NotesOf(event.id, recipients)))
    + Enqueuings(Created(w.deliveries, PairsOf(event.id, MatchedIds(event, subs))))
  }

  lemma {:induction false} RunFromConcat(w: World, a: seq<Step>, b: seq<Step>)
    ensures RunFrom(w, a + b) == RunFrom(RunFrom(w, a), b)
  {
    hide After;
    if b == [] {
      assert a + b == a;
    } else {
      RunFromConcat(w, a, b[..|b| - 1]);
      assert (a + b)[..|a + b| - 1] == a + b[..|b| - 1];
    }
  }

  /** Taking some keys away one after the other takes them away together. */
  lemma TakenTogether<K>(all: multiset<K>, init: seq<K>, last: K)
    requires multiset(init + [last]) <= all
    ensures multiset(init) <= all && last in all - multiset(init)
    ensures all - multiset(init) - multiset{last} == all - multiset(init + [last])
    ensures multiset(init + [last]) == multiset(init) + multiset{last}
  {
    assert multiset(init + [last]) == multiset(init) + multiset{last};
  }

  lemma RunFromLast(w: World, steps: seq<Step>, step: Step)
    ensures RunFrom(w, steps + [step]) == After(RunFrom(w, steps), step)
  {
    hide After;
    assert (steps + [step])[..|steps|] == steps;
  }

  lemma NothingTaken(w: World)
    ensures RunFrom(w, []) == w
    ensures w.(toPublish := w.toPublish - multiset([]), frames := w.frames + multiset([])) == w
    ensures w.(toEnqueue := w.toEnqueue - multiset([])) == w
  {
    assert w.toPublish - multiset([]) == w.toPublish && w.frames + multiset([]) == w.frames;
    assert w.toEnqueue - multiset([]) == w.toEnqueue;
  }

  lemma {:induction false} PublishAll(w: World, notes: seq<Note>)
    requires multiset(notes) <= w.toPublish
    ensures RunFrom(w, Publications(notes))
         == w.(toPublish := w.toPublish - multiset(notes), frames := w.frames + multiset(notes))
  {
    hide RunFrom;
    hide After;
    if notes == [] {
      assert Publications(notes) == [];
      NothingTaken(w);
    } else {
      var init, last := notes[..|notes| - 1], notes[|notes| - 1];
      assert Publications(notes) == Publications(init) + [Publishes(last)];
      hide Publications;
      assert notes == init + [last];
      TakenTogether(w.toPublish, init, last);
      PublishAll(w, init);
      RunFromLast(w, Publications(init), Publishes(last));
      OneMoreFrame(w, init, last);
    }
  }

  lemma OneMoreFrame(w: World, init: seq<Note>, last: Note)
    requires multiset(init + [last]) <= w.toPublish
    ensures After(w.(toPublish := w.toPublish - multiset(init), frames := w.frames + multiset(init)), Publishes(last))
         == w.(toPublish := w.toPublish - multiset(init + [last]), frames := w.frames + multiset(init + [last]))
  {
    TakenTogether(w.toPublish, init, last);
    assert w.frames + multiset(init) + multiset{last} == w.frames + multiset(init + [last]);
  }

  lemma {:induction false} EnqueueAll(w: World, keys: seq<PairKey>)
    requires multiset(keys) <= w.toEnqueue
    ensures RunFrom(w, Enqueuings(keys)) == w.(toEnqueue := w.toEnqueue - multiset(keys))
  {
    hide RunFrom;
    hide After;
    if keys == [] {
      assert Enqueuings(keys) == [];
      NothingTaken(w);
    } else {
      var init, last := keys[..|keys| - 1], keys[|keys| - 1];
      assert Enqueuings(keys) == Enqueuings(init) + [Enqueues(last)];
      hide Enqueuings;
      assert keys == init + [last];
      TakenTogether(w.toEnqueue, init, last);
      EnqueueAll(w, init);
      RunFromLast(w, Enqueuings(init), Enqueues(last));
      OneMoreJob(w, init, last);
    }
  }

  lemma OneMoreJob(w: World, init: seq<PairKey>, last: PairKey)
    requires multiset(init + [last]) <= w.toEnqueue
    ensures After(w.(toEnqueue := w.toEnqueue - multiset(init)), Enqueues(last))
         == w.(toEnqueue := w.toEnqueue - multiset(init + [last]))
  {
    TakenTogether(w.toEnqueue, init, last);
  }

  lemma OneStepRun(w: World, step: Step)
    ensures RunFrom(w, [step]) == After(w, step)
  {
    assert [step][..0] == [];
    assert RunFrom(w, [step][..0]) == w;
  }

  function DispatchedWorld(w: World, event: OutboxEvent, subs: seq<Subscription>, recipients: seq<UserId>): World {
    RunFrom(w, DispatchSteps(w, event, subs, recipients))
  }

  /** What an uninterrupted dispatch comes to: its rows, its mark, and nothing left to publish or enqueue. */
  lemma DispatchRun(w: World, event: OutboxEvent, subs: seq<Subscription>, recipients: seq<UserId>)
    ensures var pairs, notes := PairsOf(event.id, MatchedIds(event, subs)), NotesOf(event.id, recipients);
            RunFrom(w, DispatchSteps(w, event, subs, recipients))
            == w.(deliveries := Inserted(w.deliveries, pairs),
                  notes := Inserted(w.notes, notes),
                  dispatched := w.dispatched + {event.id},
                  frames := w.frames + multiset(Created(w.notes, notes)),
                  commits := w.commits + [Commit(event, subs, recipients)])
  {
    hide RunFrom;
    hide Created;
    hide Inserted;
    hide MatchedIds;
    var keys := Created(w.deliveries, PairsOf(event.id, MatchedIds(event, subs)));
    var notes := Created(w.notes, NotesOf(event.id, recipients));
    var commit := Commits(event, subs, recipients);
    OneStepRun(w, commit);
    RunFromConcat(w, [commit], Publications(notes));
    RunFromConcat(w, [commit] + Publications(notes), Enqueuings(keys));
    var w1 := After(w, commit);
    PublishAll(w1, notes);
    var w2 := w1.(toPublish := w1.toPublish - multiset(notes), frames := w1.frames + multiset(notes));
    EnqueueAll(w2, keys);
    assert w1.toPublish - multiset(notes) == w.toPublish;
    assert w2.toEnqueue - multiset(keys) == w.toEnqueue;
  }

  // ---------------------------------------------------------------- as the program runs it

  /** What fails in one dispatch: nothing, or its transaction at some insert. */
  datatype Fate = Survives | RollsBack

  method MatchEvent(event: OutboxEvent, subs: seq<Subscription>) returns (ids: seq<string>)
    ensures ids == MatchedIds(event, subs)
  {
    if !event.isActivity {
      return [];
    }
    var matched := SelectMatched(subs, event.eventType);
    ids := IdsOf(matched);
  }

  /** The insert loop of a dispatch; `created` are the keys that were new. */
  method InsertEach<K(==)>(table: seq<K>, keys: seq<K>) returns (rows: seq<K>, created: seq<K>)
    ensures rows == Inserted(table, keys) && created == Created(table, keys)
  {
    rows, created := table, [];
    for i := 0 to |keys|
      invariant rows == Inserted(table, keys[..i])
      invariant rows == table + created
    {
      assert keys[..i + 1][..i] == keys[..i];
      if keys[i] !in rows {
        rows := rows + [keys[i]];
        created := created + [keys[i]];
      }
    }
    assert keys[..|keys|] == keys;
  }

  /** Whether one of the first `n` events, its dispatch committed, is for this pair. */
  predicate AnyDelivers(pending: seq<OutboxEvent>, subs: seq<seq<Subscription>>, fates: seq<Fate>, n: nat, key: PairKey)
    requires |subs| == |fates| == |pending| && n <= |pending|
  {
    exists i :: 0 <= i < n && fates[i].Survives? && pending[i].id == key.eventId
                && Wants(pending[i], subs[i], key.subscriptionId)
  }

  /** Whether one of the first `n` events, its dispatch committed, is for this user. */
  predicate AnyNotifies(pending: seq<OutboxEvent>, recipients: seq<seq<UserId>>, fates: seq<Fate>, n: nat, note: Note)
    requires |recipients| == |fates| == |pending| && n <= |pending|
  {
    exists i :: 0 <= i < n && fates[i].Survives? && pending[i].id == note.eventId && note.user in recipients[i]
  }

  /** The events among the first `n` whose dispatch committed. */
  function Marked(pending: seq<OutboxEvent>, fates: seq<Fate>, n: nat): set<string>
    requires |fates| == |pending| && n <= |pending|
  {
    set i | 0 <= i < n && fates[i].Survives? :: pending[i].id
  }

  lemma MarkedNext(pending: seq<OutboxEvent>, fates: seq<Fate>, n: nat)
    requires |fates| == |pending| && n < |pending|
    ensures Marked(pending, fates, n + 1)
         == Marked(pending, fates, n) + if fates[n].Survives? then {pending[n].id} else {}
  {
  }

  lemma DeliversNext(before: seq<PairKey>, rows: seq<PairKey>, rows': seq<PairKey>,
                     pending: seq<OutboxEvent>, subs: seq<seq<Subscription>>, fates: seq<Fate>, n: nat)
    requires |subs| == |fates| == |pending| && n < |pending|
    requires forall key :: key in rows <==> key in before || AnyDelivers(pending, subs, fates, n, key)
    requires forall key :: key in rows' <==>
               key in rows
               || (fates[n].Survives? && key.eventId == pending[n].id && Wants(pending[n], subs[n], key.subscriptionId))
    ensures forall key :: key in rows' <==> key in before || AnyDelivers(pending, subs, fates, n + 1, key)
  {
    hide Wants;
    forall key
      ensures key in rows' <==> key in before || AnyDelivers(pending, subs, fates, n + 1, key)
    {
      assert key in rows <==> key in before || AnyDelivers(pending, subs, fates, n, key);
    }
  }

  lemma NotifiesNext(before: seq<Note>, rows: seq<Note>, rows': seq<Note>,
                     pending: seq<OutboxEvent>, recipients: seq<seq<UserId>>, fates: seq<Fate>, n: nat)
    requires |recipients| == |fates| == |pending| && n < |pending|
    requires forall note :: note in rows <==> note in before || AnyNotifies(pending, recipients, fates, n, note)
    requires forall note :: note in rows' <==>
               note in rows || (fates[n].Survives? && note.eventId == pending[n].id && note.user in recipients[n])
    ensures forall note :: note in rows' <==> note in before || AnyNotifies(pending, recipients, fates, n + 1, note)
  {
    forall note
      ensures note in rows' <==> note in before || AnyNotifies(pending, recipients, fates, n + 1, note)
    {
      assert note in rows <==> note in before || AnyNotifies(pending, recipients, fates, n, note);
    }
  }

  lemma NobodyYet(pending: seq<OutboxEvent>, subs: seq<seq<Subscription>>, recipients: seq<seq<UserId>>,
                  fates: seq<Fate>)
    requires |subs| == |recipients| == |fates| == |pending|
    ensures forall key :: !AnyDelivers(pending, subs, fates, 0, key)
    ensures forall note :: !AnyNotifies(pending, recipients, fates, 0, note)
    ensures Marked(pending, fates, 0) == {}
  {
  }

  /** What a relay's tables show from outside: its world, and its queue and channel in order. */
  datatype Tables = Tables(world: World, queued: seq<PairKey>, frames: seq<Note>)

  /** Between two states of the tables every new row was queued and every new notification published. */
  predicate Grown(before: Tables, after: Tables) {
    && before.world.deliveries <= after.world.deliveries && before.world.notes <= after.world.notes
    && after.queued == before.queued + after.world.deliveries[|before.world.deliveries|..]
    && after.frames == before.frames + after.world.notes[|before.world.notes|..]
  }

  /** What one dispatch makes of the tables. */
  ghost predicate Dispatched(before: Tables, after: Tables, event: OutboxEvent, subs: seq<Subscription>,
                             recipients: seq<UserId>, fate: Fate)
  {
    && Grown(before, after)
    && after.world == (if fate.RollsBack? then After(before.world, Aborts(event.id))
                       else RunFrom(before.world, DispatchSteps(before.world, event, subs, recipients)))
    && after.world.dispatched == before.world.dispatched + (if fate.RollsBack? then {} else {event.id})
    && (forall key :: key in after.world.deliveries <==>
          key in before.world.deliveries
          || (fate.Survives? && key.eventId == event.id && Wants(event, subs, key.subscriptionId)))
    && (forall note :: note in after.world.notes <==>
          note in before.world.notes || (fate.Survives? && note.eventId == event.id && note.user in recipients))
  }

  /** What the first `n` events of a poll make of the tables. */
  ghost predicate Polled(before: Tables, after: Tables, steps: seq<Step>, pending: seq<OutboxEvent>,
                         subs: seq<seq<Subscription>>, recipients: seq<seq<UserId>>, fates: seq<Fate>, n: nat)
    requires |subs| == |recipients| == |fates| == |pending| && n <= |pending|
  {
    && Grown(before, after)
    && after.world == RunFrom(before.world, steps)
    && after.world.dispatched == before.world.dispatched + Marked(pending, fates, n)
    && (forall key :: key in after.world.deliveries <==>
          key in before.world.deliveries || AnyDelivers(pending, subs, fates, n, key))
    && (forall note :: note in after.world.notes <==>
          note in before.world.notes || AnyNotifies(pending, recipients, fates, n, note))
  }

  lemma PollStarts(t: Tables, pending: seq<OutboxEvent>, subs: seq<seq<Subscription>>, recipients: seq<seq<UserId>>,
                   fates: seq<Fate>)
    requires |subs| == |recipients| == |fates| == |pending|
    ensures Polled(t, t, [], pending, subs, recipients, fates, 0)
  {
    NobodyYet(pending, subs, recipients, fates);
    NoStepsRun(t.world);
  }

  lemma GrownTwice(a: Tables, b: Tables, c: Tables)
    requires Grown(a, b) && Grown(b, c)
    ensures Grown(a, c)
  {
    TailsJoin(a.world.deliveries, b.world.deliveries, c.world.deliveries);
    TailsJoin(a.world.notes, b.world.notes, c.world.notes);
  }

  /** One more event of a poll, as a run of the machine. */
  function StepsOf(w: World, event: OutboxEvent, subs: seq<Subscription>, recipients: seq<UserId>,
                   fate: Fate): seq<Step>
  {
    if fate.RollsBack? then [Aborts(event.id)] else DispatchSteps(w, event, subs, recipients)
  }

  lemma PollContinues(before: Tables, mid: Tables, after: Tables, steps: seq<Step>, pending: seq<OutboxEvent>,
                      subs: seq<seq<Subscription>>, recipients: seq<seq<UserId>>, fates: seq<Fate>, n: nat)
    requires |subs| == |recipients| == |fates| == |pending| && n < |pending|
    requires Polled(before, mid, steps, pending, subs, recipients, fates, n)
    requires Dispatched(mid, after, pending[n], subs[n], recipients[n], fates[n])
    ensures Polled(before, after, steps + StepsOf(mid.world, pending[n], subs[n], recipients[n], fates[n]),
                   pending, subs, recipients, fates, n + 1)
  {
    hide Wants;
    hide RunFrom;
    hide After;
    hide AnyDelivers;
    hide AnyNotifies;
    hide Marked;
    hide DispatchSteps;
    var more := StepsOf(mid.world, pending[n], subs[n], recipients[n], fates[n]);
    OneStepRun(mid.world, Aborts(pending[n].id));
    RunFromConcat(before.world, steps, more);
    MarkedNext(pending, fates, n);
    DeliversNext(before.world.deliveries, mid.world.deliveries, after.world.deliveries, pending, subs, fates, n);
    NotifiesNext(before.world.notes, mid.world.notes, after.world.notes, pending, recipients, fates, n);
    GrownTwice(before, mid, after);
    hide Grown;
  }

  class Relay {
    var deliveries: seq<PairKey>
    var notes: seq<Note>
    var dispatched: set<string>
    /** Jobs added and frames published after the commit, in order. */
    var queued: seq<PairKey>
    var frames: seq<Note>
    ghost var commits: seq<Commit>

    /** The relay between two dispatches, as a world in which it holds nothing back. */
    ghost function State(): World
      reads this
    {
      World(deliveries, notes, dispatched, multiset{}, multiset{}, multiset(frames), commits)
    }

    ghost predicate Valid()
      reads this
    {
      Inv(State())
    }

    constructor ()
      ensures Valid() && State() == EMPTY_WORLD && queued == [] && frames == []
    {
      deliveries, notes, dispatched, queued, frames, commits := [], [], {}, [], [], [];
    }

    ghost function View(): Tables
      reads this
    {
      Tables(State(), queued, frames)
    }

    /**
     The fan-out of one event; its inserts and its mark commit together or not at all. A
     dispatch is a run of the machine.
     */
    method Dispatch(event: OutboxEvent, subs: seq<Subscription>, recipients: seq<UserId>, fate: Fate)
      returns (count: nat)
      requires Valid()
      modifies this
      ensures Valid()
      ensures Dispatched(old(View()), View(), event, subs, recipients, fate)
      ensures count == |deliveries| - |old(deliveries)|
    {
      hide Inv;
      hide Inserted;
      hide Created;
      hide MatchedIds;
      hide DispatchedWorld;
      hide Dispatched;
      ghost var before := View();
      var matched := MatchEvent(event, subs);
      var pairs, noteKeys := PairsOf(event.id, matched), NotesOf(event.id, recipients);
      // The transaction works on its own copy of the tables.
      var rows, created := InsertEach(deliveries, pairs);
      var noteRows, createdNotes := InsertEach(notes, noteKeys);
      if fate.RollsBack? {
        AbortIsDispatched(before, event, subs, recipients);
        return 0;
      }
      CommitIsDispatched(before, event, subs, recipients);
      deliveries, notes, dispatched := rows, noteRows, dispatched + {event.id};
      frames := frames + createdNotes;
      queued := queued + created;
      commits := commits + [Commit(event, subs, recipients)];
      count := |created|;
    }

    /** One poll: each pending event on its own, a failed one left for the next poll. */
    method Poll(pending: seq<OutboxEvent>, subs: seq<seq<Subscription>>, recipients: seq<seq<UserId>>, fates: seq<Fate>)
      returns (count: nat, ghost steps: seq<Step>)
      requires Valid() && |subs| == |recipients| == |fates| == |pending|
      modifies this
      ensures Valid()
      ensures Polled(old(View()), View(), steps, pending, subs, recipients, fates, |pending|)
      ensures count == |deliveries| - |old(deliveries)|
    {
      hide Inv;
      hide Dispatched;
      hide Polled;
      PollStarts(View(), pending, subs, recipients, fates);
      count := 0;
      steps := [];
      for n := 0 to |pending|
        invariant Valid()
        invariant Polled(old(View()), View(), steps, pending, subs, recipients, fates, n)
        invariant count == |deliveries| - |old(deliveries)|
      {
        ghost var mid := View();
        var created := Dispatch(pending[n], subs[n], recipients[n], fates[n]);
        PollContinues(old(View()), mid, View(), steps, pending, subs, recipients, fates, n);
        steps := steps + StepsOf(mid.world, pending[n], subs[n], recipients[n], fates[n]);
        count := count + created;
      }
    }
  }

  lemma AbortIsDispatched(before: Tables, event: OutboxEvent, subs: seq<Subscription>, recipients: seq<UserId>)
    ensures Dispatched(before, before, event, subs, recipients, RollsBack)
  {
  }

  lemma CommitIsDispatched(before: Tables, event: OutboxEvent, subs: seq<Subscription>, recipients: seq<UserId>)
    requires Inv(before.world)
    ensures var w := before.world;
            var pairs, noteKeys := PairsOf(event.id, MatchedIds(event, subs)), NotesOf(event.id, recipients);
            var w' := DispatchedWorld(w, event, subs, recipients);
            var after := Tables(w', before.queued + Created(w.deliveries, pairs),
                                before.frames + Created(w.notes, noteKeys));
            && Inv(w') && Dispatched(before, after, event, subs, recipients, Survives)
            && w'.deliveries == Inserted(w.deliveries, pairs) && w'.notes == Inserted(w.notes, noteKeys)
            && w'.dispatched == w.dispatched + {event.id}
            && w'.toEnqueue == w.toEnqueue && w'.toPublish == w.toPublish
            && w'.frames == w.frames + multiset(Created(w.notes, noteKeys))
            && w'.commits == w.commits + [Commit(event, subs, recipients)]
            && w.deliveries <= w'.deliveries
            && |Created(w.deliveries, pairs)| == |w'.deliveries| - |w.deliveries|
  {
    hide Inv;
    hide Inserted;
    hide Wants;
    hide MatchedIds;
    hide RunFrom;
    hide After;
    hide DispatchSteps;
    hide Created;
    var w := before.world;
    DispatchAdds(w, event, subs, recipients);
    RunFromKeepsInv(w, DispatchSteps(w, event, subs, recipients));
    DispatchRun(w, event, subs, recipients);
  }

  lemma NoStepsRun(w: World)
    ensures RunFrom(w, []) == w
  {
  }

  lemma TailsJoin<K>(a: seq<K>, b: seq<K>, c: seq<K>)
    requires a <= b <= c
    ensures c[|a|..] == b[|a|..] + c[|b|..]
  {
  }

  /** The rows a dispatch adds, by what its event's subscriptions and recipients are. */
  lemma DispatchAdds(w: World, event: OutboxEvent, subs: seq<Subscription>, recipients: seq<UserId>)
    requires Inv(w)
    ensures var rows := Inserted(w.deliveries, PairsOf(event.id, MatchedIds(event, subs)));
            var noteRows := Inserted(w.notes, NotesOf(event.id, recipients));
            && w.deliveries <= rows && w.notes <= noteRows
            && Created(w.deliveries, PairsOf(event.id, MatchedIds(event, subs))) == rows[|w.deliveries|..]
            && Created(w.notes, NotesOf(event.id, recipients)) == noteRows[|w.notes|..]
            && (forall key :: key in rows <==>
                  key in w.deliveries || (key.eventId == event.id && Wants(event, subs, key.subscriptionId)))
            && (forall note :: note in noteRows <==>
                  note in w.notes || (note.eventId == event.id && note.user in recipients))
  {
    hide MatchedIds;
    hide Wants;
    hide Inserted;
    hide Distinct;
    hide CommitKept;
    hide CommitMade;
    hide NoteMade;
    InsertedIsExact(w.deliveries, PairsOf(event.id, MatchedIds(event, subs)));
    InsertedIsExact(w.notes, NotesOf(event.id, recipients));
    forall id: string {
      MatchedAreWanted(event, subs, id);
    }
  }
}

/**
 The per-host semaphore that bounds concurrent deliveries: at most `cap` slots per
 host, the rest waiting first-in first-out, and each release handing its slot on.
 */
module Limiter {
  import opened Prelude

  type Host = string

  /** A call of `acquire`, named by its number; its releaser carries the same name. */
  type Call = nat

  const DEFAULT_CAP: nat := 5

  /** The configured cap, or the default when it is absent or not positive. */
  function EffectiveCap(configured: Option<int>): (cap: nat)
    ensures cap >= 1
    ensures configured.Some? && configured.value > 0 ==> cap == configured.value
    ensures configured.None? || configured.value <= 0 ==> cap == 5
  {
    if configured.Some? && configured.value > 0 then configured.value else DEFAULT_CAP
  }

  // ---------------------------------------------------------------- one host, as a history

  /**
   What happened at one host: the calls in order of arrival, how many of them have
   been admitted, and which admitted ones have released.
   */
  datatype Lane = Lane(arrivals: seq<Call>, admitted: nat, released: set<Call>)

  const EMPTY_LANE := Lane([], 0, {})

  /** The queue a fair semaphore keeps: admission in arrival order, one more for each release. */
  predicate Fair(lane: Lane, cap: nat) {
    && Distinct(lane.arrivals)
    && lane.admitted <= |lane.arrivals|
    && lane.released <= Admitted(lane)
    && lane.admitted == Min(|lane.arrivals|, cap + |lane.released|)
  }

  function Admitted(lane: Lane): set<Call>
    requires lane.admitted <= |lane.arrivals|
  {
    FirstOf(lane.arrivals, lane.admitted)
  }

  function FirstOf(xs: seq<Call>, n: nat): set<Call>
    requires n <= |xs|
  {
    set i | 0 <= i < n :: xs[i]
  }

  /** The calls that hold a slot. */
  function Holders(lane: Lane): set<Call>
    requires lane.admitted <= |lane.arrivals|
  {
    Admitted(lane) - lane.released
  }

  lemma {:induction false} PrefixSetSize(xs: seq<Call>, n: nat)
    requires Distinct(xs) && n <= |xs|
    ensures |FirstOf(xs, n)| == n
  {
    if n == 0 {
      assert FirstOf(xs, n) == {};
    } else {
      PrefixSetSize(xs, n - 1);
      assert FirstOf(xs, n) == FirstOf(xs, n - 1) + {xs[n - 1]};
    }
  }

  lemma HolderCount(lane: Lane, cap: nat)
    requires Fair(lane, cap)
    ensures |Holders(lane)| == lane.admitted - |lane.released|
  {
    PrefixSetSize(lane.arrivals, lane.admitted);
    assert Admitted(lane) == Holders(lane) + lane.released;
  }

  /**
   In such a history the slots in use never exceed the cap, someone waits only when all
   are in use, and the arrival k places after the first `cap` is let in by release k + 1.
   */
  lemma FairIsConservative(lane: Lane, cap: nat, k: nat)
    requires Fair(lane, cap)
    ensures |Holders(lane)| <= cap
    ensures lane.admitted < |lane.arrivals| ==> |Holders(lane)| == cap
    ensures cap + k < |lane.arrivals| ==> (lane.arrivals[cap + k] in Admitted(lane) <==> |lane.released| >= k + 1)
  {
    HolderCount(lane, cap);
    if cap + k < |lane.arrivals| {
      var call := lane.arrivals[cap + k];
      assert call in Admitted(lane) <==> cap + k < lane.admitted;
    }
  }

  function Arrive(lane: Lane, call: Call, cap: nat): Lane {
    var grown := lane.(arrivals := lane.arrivals + [call]);
    if lane.admitted - |lane.released| < cap then grown.(admitted := |grown.arrivals|) else grown
  }

  function Leave(lane: Lane, call: Call): Lane {
    var gone := lane.(released := lane.released + {call});
    if lane.admitted < |lane.arrivals| then gone.(admitted := lane.admitted + 1) else gone
  }

  lemma ArriveKeepsFair(lane: Lane, call: Call, cap: nat)
    requires Fair(lane, cap) && call !in lane.arrivals
    ensures Fair(Arrive(lane, call, cap), cap)
  {
    var lane' := Arrive(lane, call, cap);
    assert Admitted(lane) <= Admitted(lane') by {
      forall c | c in Admitted(lane)
        ensures c in Admitted(lane')
      {
        var i :| 0 <= i < lane.admitted && lane.arrivals[i] == c;
        assert lane'.arrivals[i] == c;
      }
    }
  }

  lemma LeaveKeepsFair(lane: Lane, call: Call, cap: nat)
    requires Fair(lane, cap) && call in Holders(lane)
    ensures Fair(Leave(lane, call), cap)
  {
    var lane' := Leave(lane, call);
    assert Admitted(lane) <= Admitted(lane') by {
      forall c | c in Admitted(lane)
        ensures c in Admitted(lane')
      {
        var i :| 0 <= i < lane.admitted && lane.arrivals[i] == c;
        assert lane'.arrivals[i] == c;
      }
    }
    assert |lane'.released| == |lane.released| + 1;
  }

  // ---------------------------------------------------------------- as the program keeps it

  /** The closure `makeReleaser` returns: its host and its `released` flag. */
  datatype Releaser = Releaser(host: Host, released: bool)

  /** The limiter's own maps, the closures it has handed out, and the number of calls so far. */
  datatype Slots = Slots(
    cap: nat,
    active: map<Host, nat>,
    waiters: map<Host, seq<Call>>,
    releasers: map<Call, Releaser>,
    calls: nat
  )

  function Current(s: Slots, host: Host): nat {
    if host in s.active then s.active[host] else 0
  }

  function QueueAt(s: Slots, host: Host): seq<Call> {
    if host in s.waiters then s.waiters[host] else []
  }

  function Acquired(s: Slots, host: Host): Slots {
    var s' := s.(calls := s.calls + 1);
    if Current(s, host) < s.cap then
      s'.(active := s.active[host := Current(s, host) + 1],
          releasers := s.releasers[s.calls := Releaser(host, false)])
    else
      s'.(waiters := s.waiters[host := QueueAt(s, host) + [s.calls]])
  }

  function Released(s: Slots, call: Call): Slots
    requires call in s.releasers
  {
    var host := s.releasers[call].host;
    if s.releasers[call].released then s
    else
      var s' := s.(releasers := s.releasers[call := Releaser(host, true)]);
      if QueueAt(s, host) != [] then
        s'.(waiters := s.waiters[host := QueueAt(s, host)[1..]],
            releasers := s'.releasers[QueueAt(s, host)[0] := Releaser(host, false)])
      else
        var current: int := if host in s.active then s.active[host] else 1;
        s'.(active := s.active[host := Max(current - 1, 0)])
  }

  /** The history of each host, and the host of each call. */
  datatype History = History(lanes: map<Host, Lane>, origin: seq<Host>)

  function LaneOf(h: History, host: Host): Lane {
    if host in h.lanes then h.lanes[host] else EMPTY_LANE
  }

  /** A lane's calls are the host's own, and exactly the admitted ones hold a releaser. */
  predicate CallsKept(s: Slots, h: History, host: Host, lane: Lane) {
    forall i :: 0 <= i < |lane.arrivals| ==>
      var call := lane.arrivals[i];
      && call < |h.origin| && h.origin[call] == host
      && (call in s.releasers <==> i < lane.admitted)
      && (i < lane.admitted ==> s.releasers[call] == Releaser(host, call in lane.released))
  }

  /** The counter and the queue are what the history says. */
  predicate CountsKept(s: Slots, host: Host, lane: Lane)
    requires lane.admitted <= |lane.arrivals|
  {
    && Current(s, host) == lane.admitted - |lane.released|
    && QueueAt(s, host) == lane.arrivals[lane.admitted..]
  }

  predicate LaneKept(s: Slots, h: History, host: Host) {
    var lane := LaneOf(h, host);
    && Fair(lane, s.cap)
    && CountsKept(s, host, lane)
    && CallsKept(s, h, host, lane)
  }

  ghost predicate Inv(s: Slots, h: History) {
    && s.cap >= 1
    && |h.origin| == s.calls
    && (forall call :: call in s.releasers ==>
          call < s.calls && s.releasers[call].host == h.origin[call]
          && call in LaneOf(h, h.origin[call]).arrivals)
    && (forall host :: LaneKept(s, h, host))
  }

  /** A call changes nothing at the other hosts. */
  lemma OtherLaneKept(s: Slots, h: History, s': Slots, h': History, host: Host, other: Host)
    requires LaneKept(s, h, other) && other != host && s'.cap == s.cap
    requires LaneOf(h', other) == LaneOf(h, other) && h.origin <= h'.origin
    requires Current(s', other) == Current(s, other) && QueueAt(s', other) == QueueAt(s, other)
    requires forall call: Call :: call < |h.origin| && h.origin[call] != host ==>
               (call in s'.releasers <==> call in s.releasers)
               && (call in s.releasers ==> s'.releasers[call] == s.releasers[call])
    ensures LaneKept(s', h', other)
  {
  }

  function AfterAcquire(h: History, host: Host, call: Call, cap: nat): History {
    History(h.lanes[host := Arrive(LaneOf(h, host), call, cap)], h.origin + [host])
  }

  lemma AcquireKeepsCalls(s: Slots, h: History, host: Host)
    requires Inv(s, h) && CallsKept(s, h, host, LaneOf(h, host))
    requires LaneOf(h, host).admitted <= |LaneOf(h, host).arrivals|
    requires Current(s, host) == LaneOf(h, host).admitted - |LaneOf(h, host).released|
    requires Current(s, host) < s.cap ==> LaneOf(h, host).admitted == |LaneOf(h, host).arrivals|
    requires LaneOf(h, host).released <= Admitted(LaneOf(h, host))
    ensures CallsKept(Acquired(s, host), AfterAcquire(h, host, s.calls, s.cap), host,
                      Arrive(LaneOf(h, host), s.calls, s.cap))
  {
    hide LaneKept;
    hide Fair;
  }

  lemma AcquireKeepsCounts(s: Slots, host: Host, lane: Lane)
    requires lane.admitted <= |lane.arrivals| && CountsKept(s, host, lane)
    requires Current(s, host) < s.cap ==> lane.admitted == |lane.arrivals|
    ensures CountsKept(Acquired(s, host), host, Arrive(lane, s.calls, s.cap))
  {
  }

  lemma NewCallHasNoReleaser(s: Slots, h: History)
    requires Inv(s, h)
    ensures s.calls !in s.releasers
  {
    hide LaneKept;
  }

  lemma NewCallIsNew(s: Slots, h: History, host: Host)
    requires Inv(s, h) && CallsKept(s, h, host, LaneOf(h, host))
    ensures s.calls !in LaneOf(h, host).arrivals
  {
    hide LaneKept;
  }

  lemma AcquireKeepsLane(s: Slots, h: History, host: Host)
    requires Inv(s, h)
    ensures LaneKept(Acquired(s, host), AfterAcquire(h, host, s.calls, s.cap), host)
  {
    var lane := LaneOf(h, host);
    assert LaneKept(s, h, host);
    HolderCount(lane, s.cap);
    FairIsConservative(lane, s.cap, 0);
    AcquireKeepsCalls(s, h, host);
    AcquireKeepsCounts(s, host, lane);
    NewCallIsNew(s, h, host);
    ArriveKeepsFair(lane, s.calls, s.cap);
    hide Fair;
    hide CallsKept;
    hide CountsKept;
    hide Inv;
    hide Arrive;
    assert LaneOf(AfterAcquire(h, host, s.calls, s.cap), host) == Arrive(lane, s.calls, s.cap);
  }

  lemma AcquireKeepsInv(s: Slots, h: History, host: Host)
    requires Inv(s, h)
    ensures Inv(Acquired(s, host), AfterAcquire(h, host, s.calls, s.cap))
  {
    hide LaneKept;
    var s' := Acquired(s, host);
    var h' := AfterAcquire(h, host, s.calls, s.cap);
    forall other
      ensures LaneKept(s', h', other)
    {
      if other == host {
        AcquireKeepsLane(s, h, host);
      } else {
        OtherLaneKept(s, h, s', h', host, other);
      }
    }
  }

  function AfterRelease(h: History, s: Slots, call: Call): History
    requires call in s.releasers
  {
    var host := s.releasers[call].host;
    if s.releasers[call].released then h
    else h.(lanes := h.lanes[host := Leave(LaneOf(h, host), call)])
  }

  /** An unreleased releaser belongs to a holder. */
  lemma ReleaserIsHolder(s: Slots, h: History, call: Call)
    requires Inv(s, h) && call in s.releasers && !s.releasers[call].released
    ensures LaneKept(s, h, s.releasers[call].host)
    ensures call in Holders(LaneOf(h, s.releasers[call].host))
  {
    var host := s.releasers[call].host;
    var lane := LaneOf(h, host);
    assert LaneKept(s, h, host);
    var i :| 0 <= i < |lane.arrivals| && lane.arrivals[i] == call;
    assert i < lane.admitted;
  }

  /** A held slot is counted, so giving it back never meets the clamp at zero. */
  lemma HeldSlotIsCounted(s: Slots, h: History, call: Call)
    requires Inv(s, h) && call in s.releasers && !s.releasers[call].released
    ensures Current(s, s.releasers[call].host) >= 1
  {
    var lane := LaneOf(h, s.releasers[call].host);
    ReleaserIsHolder(s, h, call);
    HolderCount(lane, s.cap);
    assert |Holders(lane) - {call}| == |Holders(lane)| - 1;
  }

  lemma ReleaseKeepsCalls(s: Slots, h: History, call: Call, lane: Lane)
    requires call in s.releasers && !s.releasers[call].released
    requires lane.admitted <= |lane.arrivals| && Distinct(lane.arrivals)
    requires lane.released <= Admitted(lane)
    requires CallsKept(s, h, s.releasers[call].host, lane)
    requires QueueAt(s, s.releasers[call].host) == lane.arrivals[lane.admitted..]
    ensures CallsKept(Released(s, call), AfterRelease(h, s, call), s.releasers[call].host, Leave(lane, call))
  {
    if lane.admitted < |lane.arrivals| {
      assert QueueAt(s, s.releasers[call].host)[0] == lane.arrivals[lane.admitted];
      WaitingNotReleased(lane);
    }
  }

  lemma WaitingNotReleased(lane: Lane)
    requires Distinct(lane.arrivals) && lane.admitted < |lane.arrivals| && lane.released <= Admitted(lane)
    ensures lane.arrivals[lane.admitted] !in lane.released
  {
  }

  lemma ReleaseKeepsCounts(s: Slots, call: Call, lane: Lane)
    requires call in s.releasers && !s.releasers[call].released && call !in lane.released
    requires lane.admitted <= |lane.arrivals| && CountsKept(s, s.releasers[call].host, lane)
    requires Current(s, s.releasers[call].host) >= 1
    ensures CountsKept(Released(s, call), s.releasers[call].host, Leave(lane, call))
  {
    assert |lane.released + {call}| == |lane.released| + 1;
  }

  lemma ReleaseKeepsLane(s: Slots, h: History, call: Call)
    requires Inv(s, h) && call in s.releasers && !s.releasers[call].released
    ensures LaneKept(Released(s, call), AfterRelease(h, s, call), s.releasers[call].host)
  {
    var host := s.releasers[call].host;
    var lane := LaneOf(h, host);
    ReleaserIsHolder(s, h, call);
    HeldSlotIsCounted(s, h, call);
    LeaveKeepsFair(lane, call, s.cap);
    ReleaseKeepsCalls(s, h, call, lane);
    ReleaseKeepsCounts(s, call, lane);
    hide Fair;
    hide CallsKept;
    hide CountsKept;
    hide Inv;
    hide Leave;
    assert LaneOf(AfterRelease(h, s, call), host) == Leave(lane, call);
  }

  /** A release touches the releaser of its own call and that of the head of the host's queue. */
  lemma ReleaseTouches(s: Slots, h: History, call: Call)
    requires Inv(s, h) && call in s.releasers && !s.releasers[call].released
    ensures var host := s.releasers[call].host;
            var queue := QueueAt(s, host);
            var s' := Released(s, call);
            && s'.cap == s.cap && s'.calls == s.calls
            && s'.releasers == (if queue == [] then s.releasers[call := Releaser(host, true)]
                                else s.releasers[call := Releaser(host, true)][queue[0] := Releaser(host, false)])
            && (queue != [] ==> queue[0] != call && queue[0] !in s.releasers
                                && queue[0] < |h.origin| && h.origin[queue[0]] == host
                                && queue[0] in LaneOf(h, host).arrivals)
            && (forall other :: other != host ==>
                  Current(s', other) == Current(s, other) && QueueAt(s', other) == QueueAt(s, other))
  {
    var host := s.releasers[call].host;
    assert LaneKept(s, h, host);
    hide Inv;
    if QueueAt(s, host) != [] {
      NextInQueue(s, h, host);
    }
  }

  lemma ReleaseKeepsOthers(s: Slots, h: History, call: Call, other: Host)
    requires Inv(s, h) && call in s.releasers && !s.releasers[call].released && other != s.releasers[call].host
    ensures LaneKept(Released(s, call), AfterRelease(h, s, call), other)
  {
    var host := s.releasers[call].host;
    ReleaseTouches(s, h, call);
    assert h.origin[call] == host;
    assert LaneKept(s, h, other);
    hide Inv;
    hide LaneKept;
    hide Released;
    hide Current;
    hide QueueAt;
    OtherLaneKept(s, h, Released(s, call), AfterRelease(h, s, call), host, other);
  }

  lemma ReleaseKeepsOrigins(s: Slots, h: History, call: Call)
    requires Inv(s, h) && call in s.releasers && !s.releasers[call].released
    ensures var s', h' := Released(s, call), AfterRelease(h, s, call);
            && |h'.origin| == s'.calls
            && forall c :: c in s'.releasers ==>
                 c < s'.calls && s'.releasers[c].host == h'.origin[c] && c in LaneOf(h', h'.origin[c]).arrivals
  {
    ReleaseTouches(s, h, call);
    hide Released;
    hide LaneKept;
    hide QueueAt;
  }

  lemma ReleaseKeepsInv(s: Slots, h: History, call: Call)
    requires Inv(s, h) && call in s.releasers
    ensures Inv(Released(s, call), AfterRelease(h, s, call))
  {
    if !s.releasers[call].released {
      ReleaseTouches(s, h, call);
      ReleaseKeepsOrigins(s, h, call);
      hide Released;
      hide AfterRelease;
      hide LaneKept;
      forall other
        ensures LaneKept(Released(s, call), AfterRelease(h, s, call), other)
      {
        if other == s.releasers[call].host {
          ReleaseKeepsLane(s, h, call);
        } else {
          ReleaseKeepsOthers(s, h, call, other);
        }
      }
    }
  }

  lemma NextInQueue(s: Slots, h: History, host: Host)
    requires LaneKept(s, h, host) && QueueAt(s, host) != []
    ensures QueueAt(s, host)[0] in LaneOf(h, host).arrivals && QueueAt(s, host)[0] !in s.releasers
    ensures QueueAt(s, host)[0] < |h.origin| && h.origin[QueueAt(s, host)[0]] == host
  {
    var lane := LaneOf(h, host);
    assert QueueAt(s, host)[0] == lane.arrivals[lane.admitted];
  }

  // ---------------------------------------------------------------- every sequence of calls

  datatype Op = Acquire(host: Host) | Release(call: Call)

  /** Any sequence of acquires and of releaser calls, the same releaser any number of times. */
  function Run(cap: nat, ops: seq<Op>): (Slots, History) {
    if ops == [] then (Slots(cap, map[], map[], map[], 0), History(map[], []))
    else
      var (s, h) := Run(cap, ops[..|ops| - 1]);
      match ops[|ops| - 1]
      case Acquire(host) => (Acquired(s, host), AfterAcquire(h, host, s.calls, s.cap))
      case Release(call) =>
        if call in s.releasers then (Released(s, call), AfterRelease(h, s, call)) else (s, h)
  }

  lemma {:induction false} RunInv(cap: nat, ops: seq<Op>)
    requires cap >= 1
    ensures Inv(Run(cap, ops).0, Run(cap, ops).1) && Run(cap, ops).0.cap == cap
  {
    hide LaneKept;
    if ops == [] {
      forall host: Host
        ensures LaneKept(Slots(cap, map[], map[], map[], 0), History(map[], []), host)
      {
        EmptyLaneKept(cap, host);
      }
    } else {
      hide Inv;
      RunInv(cap, ops[..|ops| - 1]);
      var (s, h) := Run(cap, ops[..|ops| - 1]);
      match ops[|ops| - 1]
      case Acquire(host) => AcquireKeepsInv(s, h, host);
      case Release(call) =>
        if call in s.releasers {
          ReleaseKeepsInv(s, h, call);
        }
    }
  }

  lemma EmptyLaneKept(cap: nat, host: Host)
    ensures LaneKept(Slots(cap, map[], map[], map[], 0), History(map[], []), host)
  {
  }

  // ---------------------------------------------------------------- what the program hands out

  /** The calls that hold a releaser of this host and have not run it. */
  function HoldersAt(s: Slots, host: Host): set<Call> {
    set call | call in s.releasers && s.releasers[call] == Releaser(host, false)
  }

  /** The calls whose releaser of this host has run. */
  function GoneAt(s: Slots, host: Host): set<Call> {
    set call | call in s.releasers && s.releasers[call] == Releaser(host, true)
  }

  function AcquireCount(ops: seq<Op>): nat {
    if ops == [] then 0 else AcquireCount(ops[..|ops| - 1]) + if ops[|ops| - 1].Acquire? then 1 else 0
  }

  /** The calls that asked for a slot at a host, in order, by what was called alone. */
  function ArrivalsAt(ops: seq<Op>, host: Host): seq<Call> {
    if ops == [] then []
    else
      var earlier := ArrivalsAt(ops[..|ops| - 1], host);
      if ops[|ops| - 1] == Acquire(host) then earlier + [AcquireCount(ops[..|ops| - 1])] else earlier
  }

  /** The history of a run records just these arrivals. */
  lemma {:induction false} HistoryArrivals(cap: nat, ops: seq<Op>, host: Host)
    ensures Run(cap, ops).0.calls == AcquireCount(ops)
    ensures LaneOf(Run(cap, ops).1, host).arrivals == ArrivalsAt(ops, host)
  {
    if ops != [] {
      HistoryArrivals(cap, ops[..|ops| - 1], host);
      var (s, h) := Run(cap, ops[..|ops| - 1]);
      var op := ops[|ops| - 1];
      if op.Release? && op.call in s.releasers {
        assert Released(s, op.call).calls == s.calls;
      }
    }
  }

  /** The releasers the program handed out are the history's holders and leavers. */
  lemma ReleasersAreHistory(s: Slots, h: History, host: Host)
    requires Inv(s, h)
    ensures LaneKept(s, h, host)
    ensures HoldersAt(s, host) == Holders(LaneOf(h, host)) && GoneAt(s, host) == LaneOf(h, host).released
  {
    var lane := LaneOf(h, host);
    assert LaneKept(s, h, host);
    hide CountsKept;
    forall call
      ensures call in HoldersAt(s, host) <==> call in Holders(lane)
      ensures call in GoneAt(s, host) <==> call in lane.released
    {
      if call in s.releasers && s.releasers[call].host == host {
        assert call in lane.arrivals;
        var i :| 0 <= i < |lane.arrivals| && lane.arrivals[i] == call;
      }
      if call in Admitted(lane) {
        var i :| 0 <= i < lane.admitted && lane.arrivals[i] == call;
      }
    }
  }

  /**
   The limiter conserves slots: after any sequence of calls, at every host the count is
   the number of releasers handed out and not yet run, and at most the cap; calls wait only
   while it equals the cap; those that wait are the last to have arrived, in order; and an
   arrival has its releaser exactly when fewer came before it than the cap and the releasers
   run so far make together.
   */
  lemma LimiterConservesSlots(cap: nat, ops: seq<Op>, host: Host)
    requires cap >= 1
    ensures var s := Run(cap, ops).0;
            var arrivals := ArrivalsAt(ops, host);
            var admitted := |HoldersAt(s, host)| + |GoneAt(s, host)|;
            && Current(s, host) == |HoldersAt(s, host)| <= cap
            && (QueueAt(s, host) != [] ==> Current(s, host) == cap)
            && admitted <= |arrivals| && QueueAt(s, host) == arrivals[admitted..]
            && forall i :: 0 <= i < |arrivals| ==>
                 (arrivals[i] in s.releasers <==> i < cap + |GoneAt(s, host)|)
  {
    hide Run;
    hide Inv;
    hide HoldersAt;
    hide GoneAt;
    hide ArrivalsAt;
    hide LaneKept;
    RunInv(cap, ops);
    var (s, h) := Run(cap, ops);
    HistoryArrivals(cap, ops, host);
    ReleasersAreHistory(s, h, host);
    LaneConservesSlots(s, h, host);
  }

  lemma LaneConservesSlots(s: Slots, h: History, host: Host)
    requires LaneKept(s, h, host)
    ensures var lane := LaneOf(h, host);
            && lane.admitted <= |lane.arrivals|
            && Current(s, host) == |Holders(lane)| <= s.cap
            && lane.admitted == |Holders(lane)| + |lane.released|
            && (QueueAt(s, host) != [] ==> Current(s, host) == s.cap)
            && QueueAt(s, host) == lane.arrivals[lane.admitted..]
            && forall i :: 0 <= i < |lane.arrivals| ==>
                 (lane.arrivals[i] in s.releasers <==> i < s.cap + |lane.released|)
  {
    var lane := LaneOf(h, host);
    HolderCount(lane, s.cap);
    FairIsConservative(lane, s.cap, 0);
    hide Holders;
    hide Admitted;
    hide Distinct;
    forall i | 0 <= i < |lane.arrivals|
      ensures lane.arrivals[i] in s.releasers <==> i < s.cap + |lane.released|
    {
      assert lane.arrivals[i] in s.releasers <==> i < lane.admitted;
    }
  }

  lemma {:induction false} ArrivalsGrow(ops: seq<Op>, more: seq<Op>, host: Host)
    ensures ArrivalsAt(ops, host) <= ArrivalsAt(ops + more, host)
  {
    if more == [] {
      assert ops + more == ops;
    } else {
      ArrivalsGrow(ops, more[..|more| - 1], host);
      assert (ops + more)[..|ops + more| - 1] == ops + more[..|more| - 1];
    }
  }

  /**
   First come, first served: whoever stands at place `p` of a queue, counted from 0, has a
   releaser, at any later time, exactly when `p + 1` more releasers of the host have run.
   */
  lemma WaiterIsAdmittedInTurn(cap: nat, ops: seq<Op>, more: seq<Op>, host: Host, p: nat)
    requires cap >= 1 && p < |QueueAt(Run(cap, ops).0, host)|
    ensures var s, s' := Run(cap, ops).0, Run(cap, ops + more).0;
            QueueAt(s, host)[p] in s'.releasers <==> |GoneAt(s', host)| >= |GoneAt(s, host)| + p + 1
  {
    hide Run;
    hide ArrivalsAt;
    hide HoldersAt;
    hide GoneAt;
    LimiterConservesSlots(cap, ops, host);
    LimiterConservesSlots(cap, ops + more, host);
    ArrivalsGrow(ops, more, host);
    var s := Run(cap, ops).0;
    var i := cap + |GoneAt(s, host)| + p;
    assert QueueAt(s, host)[p] == ArrivalsAt(ops, host)[i] == ArrivalsAt(ops + more, host)[i];
  }

  /**
   The first call of a releaser passes its slot to the head of the queue and to no one else,
   or frees it when nobody waits; no other host notices.
   */
  lemma ReleaseHandsOver(cap: nat, ops: seq<Op>, call: Call)
    requires cap >= 1 && call in Run(cap, ops).0.releasers && !Run(cap, ops).0.releasers[call].released
    ensures var s := Run(cap, ops).0;
            var host := s.releasers[call].host;
            var queue := QueueAt(s, host);
            var s' := Released(s, call);
            && Current(s, host) >= 1
            && GoneAt(s', host) == GoneAt(s, host) + {call}
            && (queue != [] ==>
                  && queue[0] !in s.releasers && s'.releasers.Keys == s.releasers.Keys + {queue[0]}
                  && HoldersAt(s', host) == HoldersAt(s, host) - {call} + {queue[0]}
                  && QueueAt(s', host) == queue[1..] && Current(s', host) == Current(s, host))
            && (queue == [] ==>
                  && s'.releasers.Keys == s.releasers.Keys
                  && HoldersAt(s', host) == HoldersAt(s, host) - {call}
                  && QueueAt(s', host) == [] && Current(s', host) == Current(s, host) - 1)
            && (forall other :: other != host ==>
                  && HoldersAt(s', other) == HoldersAt(s, other) && GoneAt(s', other) == GoneAt(s, other)
                  && QueueAt(s', other) == QueueAt(s, other) && Current(s', other) == Current(s, other))
  {
    RunInv(cap, ops);
    var (s, h) := Run(cap, ops);
    hide Run;
    HeldSlotIsCounted(s, h, call);
    ReleaseTouches(s, h, call);
    ReleaseKeepsCounters(s, call);
    hide Inv;
    hide Released;
    hide Current;
    hide QueueAt;
    var host, s' := s.releasers[call].host, Released(s, call);
    var next := if QueueAt(s, host) == [] then None else Some(QueueAt(s, host)[0]);
    HoldersAfterRelease(s, s', call, next);
    forall other | other != host
      ensures HoldersAt(s', other) == HoldersAt(s, other) && GoneAt(s', other) == GoneAt(s, other)
    {
      OthersAfterRelease(s, s', call, next, other);
    }
    hide HoldersAt;
    hide GoneAt;
  }

  /** What running a releaser makes of the releasers, `next` being the head of the queue. */
  function RanReleaser(releasers: map<Call, Releaser>, call: Call, next: Option<Call>): map<Call, Releaser>
    requires call in releasers
  {
    var host := releasers[call].host;
    var ran := releasers[call := Releaser(host, true)];
    if next.Some? then ran[next.value := Releaser(host, false)] else ran
  }

  lemma HoldersAfterRelease(s: Slots, s': Slots, call: Call, next: Option<Call>)
    requires call in s.releasers && !s.releasers[call].released
    requires next.Some? ==> next.value !in s.releasers
    requires s'.releasers == RanReleaser(s.releasers, call, next)
    ensures var host := s.releasers[call].host;
            var added := if next.Some? then {next.value} else {};
            && s'.releasers.Keys == s.releasers.Keys + added
            && HoldersAt(s', host) == HoldersAt(s, host) - {call} + added
            && GoneAt(s', host) == GoneAt(s, host) + {call}
  {
  }

  lemma OthersAfterRelease(s: Slots, s': Slots, call: Call, next: Option<Call>, other: Host)
    requires call in s.releasers && other != s.releasers[call].host
    requires next.Some? ==> next.value !in s.releasers
    requires s'.releasers == RanReleaser(s.releasers, call, next)
    ensures HoldersAt(s', other) == HoldersAt(s, other) && GoneAt(s', other) == GoneAt(s, other)
  {
  }

  lemma ReleaseKeepsCounters(s: Slots, call: Call)
    requires call in s.releasers && !s.releasers[call].released && Current(s, s.releasers[call].host) >= 1
    ensures var host := s.releasers[call].host;
            var queue := QueueAt(s, host);
            var s' := Released(s, call);
            && QueueAt(s', host) == (if queue == [] then [] else queue[1..])
            && Current(s', host) == Current(s, host) - if queue == [] then 1 else 0
  {
  }

  /** A second call of a releaser changes nothing. */
  lemma ReleaseIsIdempotent(cap: nat, ops: seq<Op>, call: Call)
    requires cap >= 1 && call in Run(cap, ops).0.releasers
    ensures var s := Run(cap, ops).0;
            var once := Released(s, call);
            && call in once.releasers && Released(once, call) == once
            && (!s.releasers[call].released ==> Current(s, s.releasers[call].host) >= 1)
  {
    RunInv(cap, ops);
    var (s, h) := Run(cap, ops);
    if !s.releasers[call].released {
      HeldSlotIsCounted(s, h, call);
      ReleaseTouches(s, h, call);
    }
  }

  class EndpointLimiter {
    const cap: nat
    var active: map<Host, nat>
    var waiters: map<Host, seq<Call>>
    var releasers: map<Call, Releaser>
    var calls: nat
    ghost var history: History

    function State(): Slots
      reads this
    {
      Slots(cap, active, waiters, releasers, calls)
    }

    ghost predicate Valid()
      reads this
    {
      Inv(State(), history)
    }

    constructor (configured: Option<int>)
      ensures Valid() && State() == Slots(cap, map[], map[], map[], 0)
      ensures cap == if configured.Some? && configured.value > 0 then configured.value else 5
    {
      cap := EffectiveCap(configured);
      active, waiters, releasers, calls := map[], map[], map[], 0;
      history := History(map[], []);
      new;
      RunInv(cap, []);
    }

    /** The slots in use at a host: the releasers handed out there and not yet run. */
    method ActiveCount(host: Host) returns (count: nat)
      requires Valid()
      ensures count == |HoldersAt(State(), host)| <= cap
    {
      count := if host in active then active[host] else 0;
      ReleasersAreHistory(State(), history, host);
      HolderCount(LaneOf(history, host), cap);
    }

    /** Takes a slot when one is free, otherwise joins the end of the host's queue. */
    method AcquireSlot(host: Host) returns (call: Call, granted: bool)
      requires Valid()
      modifies this
      ensures Valid() && State() == Acquired(old(State()), host)
      ensures history == AfterAcquire(old(history), host, call, cap)
      ensures call == old(calls) && (granted <==> call in releasers)
    {
      hide Inv;
      hide AfterAcquire;
      NewCallHasNoReleaser(State(), history);
      AcquireKeepsInv(State(), history, host);
      history := AfterAcquire(history, host, calls, cap);
      call := calls;
      calls := calls + 1;
      var current := if host in active then active[host] else 0;
      if current < cap {
        active := active[host := current + 1];
        releasers := releasers[call := Releaser(host, false)];
        return call, true;
      }
      var queue := if host in waiters then waiters[host] else [];
      waiters := waiters[host := queue + [call]];
      return call, false;
    }

    /** Runs a releaser: hands the slot to the first waiter, or gives it back. */
    method ReleaseSlot(call: Call) returns (handedTo: Option<Call>)
      requires Valid() && call in releasers
      modifies this
      ensures Valid() && State() == Released(old(State()), call)
      ensures history == AfterRelease(old(history), old(State()), call)
      ensures handedTo == if old(releasers[call].released) || QueueAt(old(State()), old(releasers[call].host)) == []
                          then None else Some(QueueAt(old(State()), old(releasers[call].host))[0])
    {
      hide Inv;
      hide AfterRelease;
      ReleaseKeepsInv(State(), history, call);
      history := AfterRelease(history, State(), call);
      if releasers[call].released {
        return None;
      }
      var host := releasers[call].host;
      releasers := releasers[call := Releaser(host, true)];
      if host in waiters && waiters[host] != [] {
        var next := waiters[host][0];
        waiters := waiters[host := waiters[host][1..]];
        releasers := releasers[next := Releaser(host, false)];
        return Some(next);
      }
      var current: int := if host in active then active[host] else 1;
      active := active[host := Max(current - 1, 0)];
      return None;
    }
  }
}

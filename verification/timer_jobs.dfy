/** Timer job ids, and the queue that is keyed by them. */
module TimerJobs {
  import opened Prelude
  import opened ActivityModel
  import opened ActivityMachine
  import opened Text

  function KindName(kind: TimerKind): string {
    match kind
    case ResponseTimeout => "response-timeout"
    case Start => "start"
    case End => "end"
    case VerifyTimeout => "verify-timeout"
    case Sweep => "sweep"
  }

  function BuildTimerJobId(kind: TimerKind, id: ActivityId, version: nat): string {
    KindName(kind) + "--" + id + "--v" + Decimal(version)
  }

  /** Activity ids are UUIDs; all that matters here is that they have one length. */
  predicate IsUuid(id: ActivityId) {
    |id| == 36
  }

  lemma KindNamesDiffer(kind: TimerKind, kind': TimerKind, rest: string, rest': string)
    requires KindName(kind) + "--" + rest == KindName(kind') + "--" + rest'
    ensures kind == kind'
  {
    var s := KindName(kind) + "--" + rest;
    var s' := KindName(kind') + "--" + rest';
    assert s[0] == KindName(kind)[0] && s'[0] == KindName(kind')[0];
    assert s[1] == KindName(kind)[1] && s'[1] == KindName(kind')[1];
  }

  /** Jobs of different activities, kinds or versions never share an id. */
  lemma JobIdsAreDistinct(kind: TimerKind, id: ActivityId, version: nat,
                          kind': TimerKind, id': ActivityId, version': nat)
    requires IsUuid(id) && IsUuid(id')
    requires BuildTimerJobId(kind, id, version) == BuildTimerJobId(kind', id', version')
    ensures kind == kind' && id == id' && version == version'
  {
    hide KindName;
    var tail := "--v" + Decimal(version);
    var tail' := "--v" + Decimal(version');
    assert BuildTimerJobId(kind, id, version) == KindName(kind) + "--" + (id + tail);
    assert BuildTimerJobId(kind', id', version') == KindName(kind') + "--" + (id' + tail');
    KindNamesDiffer(kind, kind', id + tail, id' + tail');
    CutEqual(KindName(kind) + "--", id + tail, KindName(kind') + "--", id' + tail');
    CutEqual(id, tail, id', tail');
    CutEqual("--v", Decimal(version), "--v", Decimal(version'));
    DecimalRoundTrip(version);
    DecimalRoundTrip(version');
  }

  /** The delayed-job queue: job id to the instant its delay ends. */
  class TimerQueue {
    var jobs: map<string, Time>

    constructor ()
      ensures jobs == map[]
    {
      jobs := map[];
    }

    predicate Holds(id: ActivityId, key: JobKey)
      reads this
    {
      BuildTimerJobId(key.kind, id, key.version) in jobs
    }

    /** The producer's `enqueue`: adding an id the queue holds already changes nothing. */
    method Enqueue(kind: TimerKind, id: ActivityId, version: nat, target: Time, now: Time)
      requires IsUuid(id)
      modifies this
      ensures Holds(id, JobKey(kind, version))
      ensures forall id', key: JobKey :: IsUuid(id') && (id', key) != (id, JobKey(kind, version)) ==>
                Holds(id', key) == old(Holds(id', key))
      ensures forall jobId :: jobId in old(jobs) ==> jobId in jobs && jobs[jobId] == old(jobs)[jobId]
      ensures !old(Holds(id, JobKey(kind, version))) ==>
                target <= jobs[BuildTimerJobId(kind, id, version)] == Max(target, now)
    {
      var jobId := BuildTimerJobId(kind, id, version);
      forall id', key: JobKey | IsUuid(id') && BuildTimerJobId(key.kind, id', key.version) == jobId
        ensures id' == id && key == JobKey(kind, version)
      {
        JobIdsAreDistinct(key.kind, id', key.version, kind, id, version);
      }
      if jobId !in jobs {
        jobs := jobs[jobId := now + ComputeDelay(target, now)];
      }
    }

    /** The producer's `cancel`: removing an unknown id changes nothing. */
    method Cancel(kind: TimerKind, id: ActivityId, version: nat)
      requires IsUuid(id)
      modifies this
      ensures !Holds(id, JobKey(kind, version))
      ensures forall id', key: JobKey :: IsUuid(id') && (id', key) != (id, JobKey(kind, version)) ==>
                Holds(id', key) == old(Holds(id', key))
      ensures forall jobId :: jobId in jobs ==> jobId in old(jobs) && jobs[jobId] == old(jobs)[jobId]
    {
      var jobId := BuildTimerJobId(kind, id, version);
      forall id', key: JobKey | IsUuid(id') && BuildTimerJobId(key.kind, id', key.version) == jobId
        ensures id' == id && key == JobKey(kind, version)
      {
        JobIdsAreDistinct(key.kind, id', key.version, kind, id, version);
      }
      jobs := jobs - {jobId};
    }
  }
}

/** What every step of the service keeps.

    The heart is a hidden invariant: a job has at most one outstanding wake-up, and a waiting job
    that is listed in memory has exactly one, never due before its appointment, unless whoever was
    to hand it on died of an error. */
module LifecycleInvariant {
  import opened JobModel
  import opened Lifecycle

  // ------------------------------------------------------------------ wake-ups

  ghost function Owners(timers: seq<Timer>): (ids: seq<JobId>)
    ensures |ids| == |timers|
  {
    seq(|timers|, i requires 0 <= i < |timers| => timers[i].job)
  }

  /** The outstanding wake-ups of a job: request threads about to submit it, executor entries,
      timers, and the worker while it is inside its handler for the job. */
  ghost function Wakes(s: System, id: JobId): nat {
    (if id in s.submitting then 1 else 0) + multiset(s.queue)[id]
    + multiset(Owners(s.timers))[id] + (if Holds(s, id) then 1 else 0)
  }

  // ------------------------------------------------------------------ records

  /** Same record, except that the uploaded key is saved only by the next save. */
  ghost predicate SameRecord(a: Job, b: Job) {
    a.(uploaded := b.uploaded) == b
  }

  /** What is done was found in order, or a person approved it. */
  ghost predicate OutcomeOk(j: Job) {
    && (j.status.Done? ==> j.review == [] || j.reviewed.Approved?)
    && (j.status.Review? ==> j.review != [])
  }

  /** A postponement remembers when the first one was, and does not go on for ever. */
  ghost predicate DeferOk(cfg: Config, j: Job) {
    && j.deferredSince >= 0.0
    && (j.waiting.DeferWait? ==>
          j.deferredSince > 0.0 && j.notBefore <= j.deferredSince + cfg.deferMax + cfg.deferSec)
  }

  ghost predicate RecordOk(cfg: Config, j: Job) {
    && OutcomeOk(j) && DeferOk(cfg, j)
    && j.attempts <= cfg.maxAttempts
    && (j.status.Queued? ==> j.attempts < cfg.maxAttempts)
    && (j.status.Cancelled? ==> j.cancel)
    && j.finished >= 0.0 && (!Live(j) ==> j.finished > 0.0)
  }

  // ------------------------------------------------------------------ cancellation

  /** The worker has looked at the flag for the last time in this attempt.  A job that came
      without a bucket key is not looked at again after its last progress report. */
  ghost predicate InWindow(s: System, id: JobId) {
    && Holds(s, id)
    && (|| s.worker.Committing?
        || (s.worker.Working? && s.worker.last && id in s.heap && !s.heap[id].fromBucket))
  }

  /** Asked to stop, and not completed. */
  ghost predicate Condemned(j: Job) {
    j.cancel && !j.status.Done? && !j.status.Review?
  }

  /** Asked to stop while the worker has still to look at the flag before it completes anything. */
  ghost predicate Doomed(s: System, id: JobId) {
    && (id in s.heap ==> Condemned(s.heap[id]))
    && (id in s.disk ==> Condemned(s.disk[id]))
    && !InWindow(s, id)
  }

  // ------------------------------------------------------------------ the invariant

  ghost predicate PhaseOk(cfg: Config, s: System, j: Job) {
    var idle := (j.status.Queued? || j.status.Cancelled?) && j.attempts < cfg.maxAttempts;
    match s.worker
    case Idle => true
    case Picked(_) => idle && j.notBefore <= s.clock
    case Gated(_) => idle && j.notBefore <= s.clock
    case Deferring(_, at) => idle && j.notBefore <= s.clock && 0.0 < at <= s.clock
    case DeferSaved(_) => idle && j.notBefore <= s.clock + cfg.deferSec
    case Recorded(_) => Final(j) && j.notBefore == 0.0
    case Failing(_, _, _) => (j.status.Running? || Final(j)) && j.notBefore == 0.0
    case Requeuing(_) => idle && j.notBefore == 0.0
    case BackingOff(_, delay) => idle && j.notBefore <= s.clock + delay
    case Stopping(_) => j.status.Running? && j.notBefore == 0.0 && j.cancel
    case Uploaded(_) => j.status.Running? && j.notBefore == 0.0 && j.fromBucket
    case _ => j.status.Running? && j.notBefore == 0.0
  }

  /** The record of an unlisted job that was cancelled behind the object's back. */
  ghost predicate Detached(d: Job, j: Job) {
    && Live(j) && d.cancel && d.status == (if j.status.Queued? then Cancelled else Running)
    && d.attempts == j.attempts && d.review == j.review && d.reviewed == j.reviewed
  }

  ghost predicate RecordAgrees(s: System, id: JobId)
    requires id in s.heap
  {
    if id !in s.disk then id !in s.mem
    else SameRecord(s.disk[id], s.heap[id]) || (id !in s.mem && Detached(s.disk[id], s.heap[id]))
  }

  ghost predicate Standing(cfg: Config, s: System, id: JobId)
    requires id in s.heap
  {
    RecordOk(cfg, s.heap[id]) && RecordAgrees(s, id)
  }

  /** One wake-up for a job that waits, at most one for any other, and none for a lost one. */
  ghost predicate Awaited(cfg: Config, s: System, id: JobId)
    requires id in s.heap
  {
    var j := s.heap[id];
    && Wakes(s, id) <= (if id in s.lost then 0 else 1)
    && (Holds(s, id) ==> PhaseOk(cfg, s, j))
    && (j.status.Running? ==> j.notBefore == 0.0 && (Holds(s, id) || id in s.lost))
    && (j.status.Queued? && id in s.mem ==> Wakes(s, id) == 1 || id in s.lost)
    && (Wakes(s, id) == 1 && !Holds(s, id) ==>
          (j.status.Queued? || j.status.Cancelled?) && j.attempts < cfg.maxAttempts)
    && (id in s.submitting || id in s.queue ==> j.notBefore <= s.clock)
  }

  ghost predicate JobInv(cfg: Config, s: System, id: JobId) {
    && (id in s.heap || id in s.disk ==> id in s.used)
    && (id in s.mem ==> id in s.heap)
    && (id in s.disk ==> id in s.dirs && RecordOk(cfg, s.disk[id]))
    && (id !in s.heap ==> Wakes(s, id) == 0 && id !in s.lost && id !in s.deleting && id !in s.cancelling)
    && (id in s.sweeping ==> id in s.used && cfg.jobTtl != 0.0)
    && (id in s.disk && id !in s.heap ==> !Live(s.disk[id]) && !s.disk[id].status.Review?)
    && (id in s.heap ==> Standing(cfg, s, id) && Awaited(cfg, s, id))
  }

  /** A timer is due no earlier than the appointment of its job. */
  ghost predicate TimersOk(s: System) {
    forall k :: 0 <= k < |s.timers| ==>
      s.timers[k].job in s.heap && s.heap[s.timers[k].job].notBefore <= s.timers[k].due
  }

  ghost predicate Inv(cfg: Config, s: System) {
    && cfg.maxAttempts >= 1
    && s.clock > 0.0
    && TimersOk(s)
    && forall id :: JobInv(cfg, s, id)
  }

  // ------------------------------------------------------------------ counting

  lemma QueueTail(q: seq<JobId>, id: JobId)
    requires q != []
    ensures multiset(q)[id] == multiset(q[1..])[id] + (if q[0] == id then 1 else 0)
  {
    assert q == [q[0]] + q[1..];
  }

  lemma QueueSnoc(q: seq<JobId>, x: JobId, id: JobId)
    ensures multiset(q + [x])[id] == multiset(q)[id] + (if x == id then 1 else 0)
  {
  }

  lemma TimerSnoc(ts: seq<Timer>, t: Timer, id: JobId)
    ensures multiset(Owners(ts + [t]))[id] == multiset(Owners(ts))[id] + (if t.job == id then 1 else 0)
  {
    assert Owners(ts + [t]) == Owners(ts) + [t.job];
  }

  lemma TimerRemoved(ts: seq<Timer>, k: nat, id: JobId)
    requires k < |ts|
    ensures multiset(Owners(ts))[id]
         == multiset(Owners(ts[..k] + ts[k+1..]))[id] + (if ts[k].job == id then 1 else 0)
  {
    var os := Owners(ts);
    assert os == os[..k] + [os[k]] + os[k+1..];
    assert Owners(ts[..k] + ts[k+1..]) == os[..k] + os[k+1..];
  }

  lemma TimerOwner(ts: seq<Timer>, k: nat)
    requires k < |ts|
    ensures multiset(Owners(ts))[ts[k].job] >= 1
  {
    assert Owners(ts)[k] == ts[k].job;
  }

  lemma QueueHas(q: seq<JobId>, id: JobId)
    ensures id in q <==> multiset(q)[id] >= 1
  {
  }
}

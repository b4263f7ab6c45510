/** The shared, mutable job object, and what each region of the service does to it. */
module JobObjects {
  import opened JobModel

  class JobObject {
    const id: JobId
    const fromBucket: bool
    const created: real
    var status: Status
    var attempts: nat
    var cancel: bool
    var uploaded: bool
    var finished: real
    var notBefore: real
    var waiting: Waiting
    var deferredSince: real
    var review: seq<string>
    var reviewed: Decision

    constructor (id: JobId, fromBucket: bool, now: real)
      ensures this.id == id && Record() == Fresh(fromBucket, now)
    {
      this.id, this.fromBucket, created := id, fromBucket, now;
      status, attempts, cancel, uploaded := Queued, 0, false, false;
      finished, notBefore, waiting, deferredSince := 0.0, 0.0, NotWaiting, 0.0;
      review, reviewed := [], Undecided;
    }

    /** Read back from its record. */
    constructor Load(id: JobId, r: Job)
      ensures this.id == id && Record() == r
    {
      this.id, fromBucket, created := id, r.fromBucket, r.created;
      status, attempts, cancel, uploaded := r.status, r.attempts, r.cancel, r.uploaded;
      finished, notBefore, waiting, deferredSince := r.finished, r.notBefore, r.waiting, r.deferredSince;
      review, reviewed := r.review, r.reviewed;
    }

    function Record(): Job
      reads this
    {
      Job(status, attempts, cancel, fromBucket, uploaded, created, finished, notBefore, waiting,
          deferredSince, review, reviewed)
    }

    /** Any change at all; what a job came from and when it was created stays. */
    method Become(r: Job)
      requires r.fromBucket == fromBucket && r.created == created
      modifies this
      ensures Record() == r
    {
      status, attempts, cancel, uploaded := r.status, r.attempts, r.cancel, r.uploaded;
      finished, notBefore, waiting, deferredSince := r.finished, r.notBefore, r.waiting, r.deferredSince;
      review, reviewed := r.review, r.reviewed;
    }

    // What the regions do to the object.

    method Skip(now: real)
      modifies this
      ensures Record() == Skipped(old(Record()), now)
    {
      status := Cancelled;
      if finished == 0.0 {
        finished := now;
      }
    }

    method Postpone(cfg: Config, at: real)
      modifies this
      ensures Record() == Postponed(cfg, old(Record()), at)
    {
      if deferredSince == 0.0 {
        deferredSince := at;
      }
      var waited := at - deferredSince;
      if waited > cfg.deferMax {
        status, finished := Failed, at;
        waiting, notBefore := NotWaiting, 0.0;
      } else {
        status, waiting := Queued, DeferWait;
        notBefore := at + cfg.deferSec;
      }
    }

    method Begin()
      modifies this
      ensures Record() == Started(old(Record()))
    {
      status := Running;
      attempts := attempts + 1;
      notBefore, waiting, deferredSince := 0.0, NotWaiting, 0.0;
    }

    method Complete(needs: seq<string>, now: real)
      modifies this
      ensures Record() == Committed(old(Record()), needs, now)
      ensures review == needs && status == if needs == [] then Done else Review
    {
      review := needs;
      status := if needs != [] then Review else Done;
      finished := now;
    }

    method End(outcome: Status, now: real)
      modifies this
      ensures Record() == old(Record()).(status := outcome, finished := now)
    {
      status, finished := outcome, now;
    }

    method Fall(cfg: Config, permanent: bool, transient: bool, now: real) returns (retryable: bool)
      modifies this
      ensures retryable == Retries(cfg, old(Record()), permanent, transient)
      ensures Record() == Fallen(cfg, old(Record()), permanent, transient, now)
      ensures retryable == (!permanent && transient && old(attempts) < cfg.maxAttempts)
      ensures status == if retryable then Queued else Failed
    {
      retryable := !permanent && transient && attempts < cfg.maxAttempts;
      if retryable {
        status := Queued;
      } else {
        status, finished := Failed, now;
      }
    }

    method Wait(now: real, delay: real)
      modifies this
      ensures Record() == BackedOff(old(Record()), now, delay)
      ensures notBefore == now + delay && attempts == old(attempts)
    {
      notBefore, waiting := now + delay, RetryWait;
    }

    method FlagToStop(now: real)
      modifies this
      ensures Record() == Flagged(old(Record()), now)
    {
      cancel := true;
      if status == Queued {
        status, finished := Cancelled, now;
      }
    }

    method Decide(approve: bool, now: real)
      modifies this
      ensures Record() == Judged(old(Record()), approve, now)
    {
      status := if approve then Done else Failed;
      finished := now;
      reviewed := if approve then Approved else Rejected;
    }
  }
}

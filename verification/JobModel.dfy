/** One job record and what each locked region of the service does to it.

    A `Job` here is the part of the service's job record that its protocol reads or writes:
    texts, progress numbers and file paths are left out.  Every function below is one region the
    service runs under its job lock; which region may run when is the business of `Lifecycle`. */
module JobModel {

  type JobId = string

  datatype Status = Queued | Running | Review | Done | Failed | Cancelled

  datatype Waiting = NotWaiting | RetryWait | DeferWait

  /** The verdict of the person who looked at a job held for review. */
  datatype Decision = Undecided | Approved | Rejected

  datatype Job = Job(
    status: Status,
    attempts: nat,
    cancel: bool,          // asked to stop; the progress callback looks at it
    fromBucket: bool,      // the input has a bucket key, so the result is uploaded
    uploaded: bool,        // the key of the uploaded result is recorded
    created: real,
    finished: real,        // 0 until some ending is recorded
    notBefore: real,       // not to be taken from the queue earlier; 0 when nothing waits
    waiting: Waiting,
    deferredSince: real,   // 0 unless postponed
    review: seq<string>,   // why a person has to look
    reviewed: Decision)

  datatype Config = Config(
    maxAttempts: int,
    retryDelays: seq<real>,
    jitter: real,
    deferSec: real,
    deferMax: real,
    jobTtl: real,          // 0 turns sweeping off
    failedTtl: real,       // 0 keeps failed and cancelled jobs
    reviewTtl: real,       // 0 keeps jobs held for review
    queueMax: int)         // 0 for no limit

  predicate Live(j: Job) {
    j.status.Queued? || j.status.Running?
  }

  predicate Final(j: Job) {
    j.status.Done? || j.status.Failed? || j.status.Review?
  }

  function Fresh(fromBucket: bool, now: real): Job {
    Job(Queued, 0, false, fromBucket, false, now, 0.0, 0.0, NotWaiting, 0.0, [], Undecided)
  }

  /** A job that was cancelled while it waited is never started. */
  function Skipped(j: Job, now: real): Job {
    j.(status := Cancelled, finished := if j.finished != 0.0 then j.finished else now)
  }

  /** Postponed because a condition for starting is missing.  `at` was read before the lock. */
  function Postponed(cfg: Config, j: Job, at: real): Job {
    var since := if j.deferredSince == 0.0 then at else j.deferredSince;
    if at - since > cfg.deferMax then
      j.(deferredSince := since, status := Failed, finished := at, waiting := NotWaiting, notBefore := 0.0)
    else
      j.(deferredSince := since, status := Queued, waiting := DeferWait, notBefore := at + cfg.deferSec)
  }

  function Started(j: Job): Job {
    j.(status := Running, attempts := j.attempts + 1,
       notBefore := 0.0, waiting := NotWaiting, deferredSince := 0.0)
  }

  function Committed(j: Job, needs: seq<string>, now: real): Job {
    j.(review := needs, status := if needs != [] then Review else Done, finished := now)
  }

  function Stopped(j: Job, now: real): Job {
    j.(status := Cancelled, finished := now)
  }

  predicate Retries(cfg: Config, j: Job, permanent: bool, transient: bool) {
    !permanent && transient && j.attempts < cfg.maxAttempts
  }

  /** The first region of failure handling: back to the queue, or failed for good. */
  function Fallen(cfg: Config, j: Job, permanent: bool, transient: bool, now: real): Job {
    if Retries(cfg, j, permanent, transient) then j.(status := Queued)
    else j.(status := Failed, finished := now)
  }

  /** The second region: when the retry may be taken. */
  function BackedOff(j: Job, now: real, delay: real): Job {
    j.(notBefore := now + delay, waiting := RetryWait)
  }

  /** A retry delay is the configured one (the last one for late attempts), give or take the
      jitter, and never negative. */
  predicate IsBackoff(cfg: Config, attempts: nat, delay: real) {
    |cfg.retryDelays| > 0 &&
    var k := if attempts == 0 then 0 else attempts - 1;
    var base := cfg.retryDelays[if k < |cfg.retryDelays| then k else |cfg.retryDelays| - 1];
    IsInBand(base, cfg.jitter, delay)
  }

  predicate IsInBand(base: real, jitter: real, delay: real) {
    var part := Share(base, jitter);
    var a, b := AtLeastZero(base - part), AtLeastZero(base + part);
    a <= delay <= b || b <= delay <= a
  }

  function Share(base: real, part: real): real {
    base * part
  }

  function AtLeastZero(x: real): real {
    if x < 0.0 then 0.0 else x
  }

  /** A cancel request: what waits is cancelled at once, what runs is only flagged. */
  function Flagged(j: Job, now: real): Job {
    if j.status.Queued? then j.(cancel := true, status := Cancelled, finished := now)
    else j.(cancel := true)
  }

  function Judged(j: Job, approve: bool, now: real): Job {
    if approve then j.(status := Done, finished := now, reviewed := Approved)
    else j.(status := Failed, finished := now, reviewed := Rejected)
  }

  /** After a restart: a job that was running is lost, ... */
  function Interrupted(j: Job, now: real): Job {
    j.(status := Failed, finished := now)
  }

  /** ... a job that waited starts over, without its appointment. */
  function Resumed(j: Job): Job {
    j.(notBefore := 0.0, waiting := NotWaiting)
  }

  /** How long a record is kept; 0 means for ever. */
  function Ttl(cfg: Config, j: Job): real {
    match j.status
    case Review => cfg.reviewTtl
    case Failed => cfg.failedTtl
    case Cancelled => cfg.failedTtl
    case _ => cfg.jobTtl
  }

  predicate Expired(cfg: Config, j: Job, now: real) {
    cfg.jobTtl != 0.0 && Ttl(cfg, j) != 0.0 && j.finished != 0.0 && now - j.finished > Ttl(cfg, j)
  }
}

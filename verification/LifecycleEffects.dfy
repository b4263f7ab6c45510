/** What the regions do to a job, field by field: the numbers and limits of the configuration, and what
    stays as it was. */
module LifecycleEffects {
  import opened JobModel
  import opened Lifecycle
  import opened LifecycleInvariant
  import opened LifecycleTheorems

  /** The object, and the record when the folder is there, and nothing else. */
  ghost predicate BothBecome(s: System, t: System, id: JobId, k: Job) {
    && t.heap == s.heap[id := k] && t.mem == s.mem && t.dirs == s.dirs
    && t.disk == (if id in s.dirs then s.disk[id := k] else s.disk)
  }

  // ------------------------------------------------------------------ the worker

  /** The head of the queue is skipped when it was asked to stop: it is cancelled, and an ending it already
      had keeps its time.  An unlisted one is dropped, any other is taken as it is. */
  lemma PickTakesOrSkips(cfg: Config, s: System)
    requires CanMove(cfg, s, Pick)
    ensures var t, id := Moved(cfg, s, Pick), s.queue[0];
            && t.queue == s.queue[1..]
            && if id !in s.mem || id !in s.heap then t == s.(queue := s.queue[1..])
               else if s.heap[id].cancel || s.heap[id].status.Cancelled? then
                 var j := s.heap[id];
                 t.worker.Idle? && BothBecome(s, t, id, j.(status := Cancelled, finished := if j.finished != 0.0 then j.finished else s.clock))
               else t == s.(queue := s.queue[1..], worker := Picked(id))
  {
  }

  /** What may follow in the handler, phase by phase: exactly these steps. */
  lemma HandlerGoesOn(cfg: Config, s: System, m: Move)
    requires !s.worker.Idle? && s.worker.job in s.heap
    ensures var j := s.heap[s.worker.job];
            CanMove(cfg, s, m) <==>
            match s.worker
            case Picked(_) => m.Gate? || m.Die?
            case Gated(_) => m.LowDisk? || m.Start? || m.Die?
            case Deferring(_, _) => m.Defer? || m.Die?
            case DeferSaved(_) => m.Reschedule? || m.Die?
            case Launched(_) => m.SetUp? || m.Die?
            case Working(_, last) =>
              m.MakeDir? || m.Raise? || (if last then (if j.fromBucket then m.Upload? else m.Direct?) else m.Report?)
            case Uploaded(_) => m.LastLook? || m.Raise?
            case Committing(_) => m.Commit? || m.Raise?
            case Recorded(_) => m.Finish? || m.LateRaise?
            case Stopping(_) => m.Stop? || m.Die?
            case Failing(_, _, _) => m.Fall? || m.Die?
            case Requeuing(_) => m.Die? || (m.BackOff? && IsBackoff(cfg, j.attempts, m.delay))
            case BackingOff(_, _) => m.RetryLater? || m.Die?
            case Idle => false
  {
    match s.worker case _ =>
  }

  /** A job is postponed for the configured time exactly as long as its first postponement since it was
      last started lies no farther back than the limit; then it fails.  No attempt is used. */
  lemma PostponedExactlyWithinTheLimit(cfg: Config, s: System)
    requires CanMove(cfg, s, Defer)
    ensures var t, id := Moved(cfg, s, Defer), s.worker.job;
            var j, at := s.heap[id], s.worker.at;
            var since := if j.deferredSince == 0.0 then at else j.deferredSince;
            if at - since > cfg.deferMax then
              t.worker.Idle? && BothBecome(s, t, id, j.(status := Failed, finished := at, deferredSince := since,
                                                        waiting := NotWaiting, notBefore := 0.0))
            else
              t.worker == DeferSaved(id) && BothBecome(s, t, id, j.(status := Queued, deferredSince := since,
                                                                    waiting := DeferWait, notBefore := at + cfg.deferSec))
  {
  }

  /** A start uses one attempt, and with it the job's waiting is over: a later postponement is its first
      one again. */
  lemma StartEndsTheWaiting(cfg: Config, s: System)
    requires CanMove(cfg, s, Start)
    ensures var t, id := Moved(cfg, s, Start), s.worker.job;
            var j := s.heap[id];
            t.worker == Launched(id)
            && BothBecome(s, t, id, j.(status := Running, attempts := j.attempts + 1, notBefore := 0.0,
                                       waiting := NotWaiting, deferredSince := 0.0))
  {
  }

  /** A completed job carries the reasons found, and is done exactly when there are none. */
  lemma OutcomeIsRecorded(cfg: Config, s: System, needs: seq<string>)
    requires CanMove(cfg, s, Commit(needs))
    ensures var t, id := Moved(cfg, s, Commit(needs)), s.worker.job;
            t.worker == Recorded(id)
            && BothBecome(s, t, id, s.heap[id].(status := if needs == [] then Done else Review, review := needs,
                                                finished := s.clock))
  {
  }

  lemma StopIsRecorded(cfg: Config, s: System)
    requires CanMove(cfg, s, Stop)
    ensures var t, id := Moved(cfg, s, Stop), s.worker.job;
            t.worker.Idle? && BothBecome(s, t, id, s.heap[id].(status := Cancelled, finished := s.clock))
  {
  }

  /** An error inside the `try`, and one after the outcome was recorded, leads to the failure handling of its
      job, as what it is; nothing else changes.  Outside, the handler ends, and the job with it. */
  lemma ErrorIsHandled(cfg: Config, s: System, m: Move)
    requires CanMove(cfg, s, m) && (m.Raise? || m.LateRaise? || m.Die?)
    ensures m.Die? <==> s.worker.Picked? || s.worker.Gated? || s.worker.Deferring? || s.worker.DeferSaved? || s.worker.Launched?
                        || s.worker.Stopping? || s.worker.Failing? || s.worker.Requeuing? || s.worker.BackingOff?
    ensures m.LateRaise? <==> s.worker.Recorded?
    ensures Moved(cfg, s, m) ==
            if m.Die? then s.(worker := Idle, lost := s.lost + {s.worker.job})
            else s.(worker := Failing(s.worker.job, m.permanent, m.transient))
  {
  }

  /** After an error a job waits again exactly when the error may pass and an attempt is left. */
  lemma FailureIsRecorded(cfg: Config, s: System)
    requires CanMove(cfg, s, Fall)
    ensures var t, id := Moved(cfg, s, Fall), s.worker.job;
            var j := s.heap[id];
            if !s.worker.permanent && s.worker.transient && j.attempts < cfg.maxAttempts then
              t.worker == Requeuing(id) && BothBecome(s, t, id, j.(status := Queued))
            else t.worker.Idle? && BothBecome(s, t, id, j.(status := Failed, finished := s.clock))
  {
  }

  /** Which delay belongs to which attempt: the first one to the first, ..., and the last one to all
      attempts that there is no other for. */
  ghost predicate IsDelayFor(delays: seq<real>, attempts: nat, base: real) {
    && delays != []
    && (attempts <= 1 ==> base == delays[0])
    && (1 <= attempts <= |delays| ==> base == delays[attempts - 1])
    && (|delays| <= attempts ==> base == delays[|delays| - 1])
  }

  ghost function Size(x: real): real {
    if x < 0.0 then -x else x
  }

  lemma Band(base: real, jitter: real, delay: real)
    ensures var part := Size(Share(base, jitter));
            IsInBand(base, jitter, delay)
            <==> delay >= 0.0 && base - part <= delay && (delay <= base + part || delay == 0.0)
  {
    hide Share;
  }

  lemma BackoffOf(cfg: Config, attempts: nat, base: real, delay: real)
    requires IsDelayFor(cfg.retryDelays, attempts, base)
    ensures IsBackoff(cfg, attempts, delay) <==> IsInBand(base, cfg.jitter, delay)
  {
    hide IsInBand;
    var k, n := if attempts == 0 then 0 else attempts - 1, |cfg.retryDelays|;
    assert cfg.retryDelays[if k < n then k else n - 1] == base;
  }

  lemma ShareIs(base: real, jitter: real)
    ensures Share(base, jitter) == base * jitter
  {
  }

  /** A retry is made after that delay, give or take the configured part of it, and never before now. */
  lemma RetryDelay(cfg: Config, attempts: nat, base: real, delay: real)
    requires IsDelayFor(cfg.retryDelays, attempts, base)
    ensures var part := Size(base * cfg.jitter);
            IsBackoff(cfg, attempts, delay)
            <==> delay >= 0.0 && base - part <= delay && (delay <= base + part || delay == 0.0)
  {
    hide IsBackoff, IsInBand, IsDelayFor, Share;
    BackoffOf(cfg, attempts, base, delay);
    Band(base, cfg.jitter, delay);
    ShareIs(base, cfg.jitter);
  }

  lemma SomeDelay(cfg: Config, attempts: nat)
    requires |cfg.retryDelays| > 0
    ensures exists base :: IsDelayFor(cfg.retryDelays, attempts, base)
  {
    var n := |cfg.retryDelays|;
    assert IsDelayFor(cfg.retryDelays, attempts, cfg.retryDelays[if attempts <= 1 then 0 else if attempts <= n then attempts - 1 else n - 1]);
  }

  /** The appointment of a retry is that much later, and no attempt is used. */
  lemma RetryIsAppointed(cfg: Config, s: System, delay: real)
    requires CanMove(cfg, s, BackOff(delay))
    ensures IsBackoff(cfg, s.heap[s.worker.job].attempts, delay)
    ensures var t, id := Moved(cfg, s, BackOff(delay)), s.worker.job;
            t.worker == BackingOff(id, delay)
            && BothBecome(s, t, id, s.heap[id].(notBefore := s.clock + delay, waiting := RetryWait))
  {
  }

  /** The wake-up comes after the delay, not later: at once when there is none. */
  lemma WakeUpIsDueAfterTheDelay(cfg: Config, s: System, m: Move)
    requires CanMove(cfg, s, m) && (m.Reschedule? || m.RetryLater?)
    ensures var t, id := Moved(cfg, s, m), s.worker.job;
            var delay := if m.Reschedule? then cfg.deferSec else s.worker.delay;
            && t.worker.Idle? && t.heap == s.heap && t.disk == s.disk
            && if delay <= 0.0 then t.queue == s.queue + [id] && t.timers == s.timers
               else t.queue == s.queue && t.timers == s.timers + [Timer(id, s.clock + delay)]
  {
  }

  /** The pipeline makes the folder of its job, also when it was removed meanwhile; the next report writes the
      record again. */
  lemma FolderIsMadeAgain(cfg: Config, s: System, last: bool)
    requires CanMove(cfg, s, MakeDir) && CanMove(cfg, s, Report(last)) && !s.heap[s.worker.job].cancel
    ensures var t, id := Moved(cfg, s, MakeDir), s.worker.job;
            && t == s.(dirs := s.dirs + {id})
            && CanMove(cfg, t, Report(last)) && Moved(cfg, t, Report(last)).disk == s.disk[id := s.heap[id]]
  {
  }

  /** A progress report stops a job exactly when it is flagged; otherwise the object, with all that was noted
      in it, is saved. */
  lemma ReportLooksAndSaves(cfg: Config, s: System, last: bool)
    requires CanMove(cfg, s, Report(last))
    ensures var t, id := Moved(cfg, s, Report(last)), s.worker.job;
            if s.heap[id].cancel then t == s.(worker := Stopping(id))
            else t.worker == Working(id, last) && BothBecome(s, t, id, s.heap[id])
  {
  }

  /** After the last report a result of the bucket is uploaded, any other is not; the upload is noted in the
      object only, and only then the flag is looked at once more. */
  lemma UploadIsNoted(cfg: Config, s: System)
    requires s.worker.Working? && s.worker.last && s.worker.job in s.heap
    ensures var id := s.worker.job;
            if s.heap[id].fromBucket then
              && CanMove(cfg, s, Upload) && !CanMove(cfg, s, Direct)
              && Moved(cfg, s, Upload) == s.(heap := s.heap[id := s.heap[id].(uploaded := true)], worker := Uploaded(id))
              && var t := Moved(cfg, s, Upload);
                 && CanMove(cfg, t, LastLook)
                 && Moved(cfg, t, LastLook) == t.(worker := if s.heap[id].cancel then Stopping(id) else Committing(id))
            else
              && CanMove(cfg, s, Direct) && !CanMove(cfg, s, Upload)
              && Moved(cfg, s, Direct) == s.(worker := Committing(id))
  {
  }

  /** The clock of a postponement is read when the disk is found full. */
  lemma FullDiskReadsTheClock(cfg: Config, s: System)
    requires CanMove(cfg, s, LowDisk)
    ensures s.worker.Gated? && Moved(cfg, s, LowDisk) == s.(worker := Deferring(s.worker.job, s.clock))
  {
  }

  // ------------------------------------------------------------------ requests

  /** A job is accepted exactly while fewer wait than the limit says, and waits without an appointment. */
  lemma NewJobWaits(cfg: Config, s: System, id: JobId, fromBucket: bool)
    ensures CanHappen(cfg, s, Register(id, fromBucket))
            <==> id !in s.used && (cfg.queueMax == 0 || |set n | n in s.mem && n in s.heap && s.heap[n].status.Queued?| < cfg.queueMax)
    ensures CanHappen(cfg, s, Register(id, fromBucket)) ==>
              var t := Happened(cfg, s, Register(id, fromBucket));
              var j := Job(Queued, 0, false, fromBucket, false, s.clock, 0.0, 0.0, NotWaiting, 0.0, [], Undecided);
              && t.heap == s.heap[id := j] && t.disk == s.disk[id := j] && t.mem == s.mem + {id}
              && t.dirs == s.dirs + {id} && t.submitting == s.submitting + {id} && t.queue == s.queue
  {
    assert Waiters(s) == set n | n in s.mem && n in s.heap && s.heap[n].status.Queued?;
  }

  /** A cancel request ends what waits, and only flags what runs, or has ended since the check. */
  lemma CancelAsks(cfg: Config, s: System, id: JobId)
    requires CanHappen(cfg, s, CancelAct(id))
    ensures var j := s.heap[id];
            BothBecome(s, Happened(cfg, s, CancelAct(id)), id,
                       if j.status == Queued then j.(cancel := true, status := Cancelled, finished := s.clock)
                       else j.(cancel := true))
  {
  }

  lemma CancelOfARecord(cfg: Config, s: System, id: JobId)
    requires CanHappen(cfg, s, CancelOnDisk(id))
    ensures var t, j := Happened(cfg, s, CancelOnDisk(id)), s.disk[id];
            t == s.(disk := s.disk[id := if j.status == Queued then j.(cancel := true, status := Cancelled, finished := s.clock)
                                         else j.(cancel := true)])
  {
  }

  /** Cancel-all does so to every listed job that waits or runs, and to no other. */
  lemma CancelAllAsks(cfg: Config, s: System, id: JobId)
    requires CanHappen(cfg, s, CancelAll) && id in s.heap
    ensures var t, j := Happened(cfg, s, CancelAll), s.heap[id];
            && t.mem == s.mem && id in t.heap
            && t.heap[id] == (if id in s.mem && j.status == Queued then
                                j.(cancel := true, status := Cancelled, finished := s.clock)
                              else if id in s.mem && j.status == Running then j.(cancel := true)
                              else j)
  {
  }

  /** Whom the unlocked checks let through. */
  lemma ChecksLetThrough(cfg: Config, s: System, id: JobId)
    requires id in s.mem && id in s.heap
    ensures CanHappen(cfg, s, CancelCheck(id)) <==> s.heap[id].status in {Queued, Running}
    ensures CanHappen(cfg, s, DeleteCheck(id)) <==> s.heap[id].status in {Done, Failed, Cancelled}
  {
  }

  /** Of a job that memory has forgotten, the record is asked. */
  lemma ChecksLetThroughRecords(cfg: Config, s: System, id: JobId)
    requires id !in s.mem && id in s.disk
    ensures CanHappen(cfg, s, CancelOnDisk(id)) <==> s.disk[id].status in {Queued, Running}
    ensures CanHappen(cfg, s, DeleteOnDisk(id)) <==> s.disk[id].status in {Done, Failed, Cancelled}
  {
  }

  /** Every removal, by request or sweep, takes the job off the list, its record and its folder, and nothing
      else; who still holds the object keeps it. */
  lemma RemovalTakesAll(cfg: Config, s: System, id: JobId, e: Event)
    requires e in {DeleteAct(id), DeleteOnDisk(id), SweepAct(id)} && CanHappen(cfg, s, e)
    ensures var t := Happened(cfg, s, e);
            && t.heap == s.heap && t.queue == s.queue && t.timers == s.timers && t.worker == s.worker
            && t.mem == s.mem - {id} && t.dirs == s.dirs - {id} && id !in t.disk
            && forall other :: other != id ==> (other in t.disk <==> other in s.disk)
                                               && (other in s.disk ==> t.disk[other] == s.disk[other])
  {
  }

  /** A region that was checked for beforehand acts for those that were let through, and for no others; what it
      meets by then may have changed.  A verdict is checked in its own region, also for a job that was removed
      from the list since it was looked up. */
  lemma ActsFollowChecks(cfg: Config, s: System, id: JobId)
    ensures CanHappen(cfg, s, CancelCheck(id)) ==>
              CanHappen(cfg, Happened(cfg, s, CancelCheck(id)), CancelAct(id))
    ensures CanHappen(cfg, s, DeleteCheck(id)) ==>
              CanHappen(cfg, Happened(cfg, s, DeleteCheck(id)), DeleteAct(id))
    ensures CanHappen(cfg, s, SweepCheck(id)) ==>
              CanHappen(cfg, Happened(cfg, s, SweepCheck(id)), SweepAct(id))
    ensures id !in s.cancelling ==> !CanHappen(cfg, s, CancelAct(id))
    ensures id !in s.deleting ==> !CanHappen(cfg, s, DeleteAct(id))
    ensures id !in s.sweeping ==> !CanHappen(cfg, s, SweepAct(id))
    ensures forall approve :: CanHappen(cfg, s, Judge(id, approve)) <==> id in s.heap && s.heap[id].status == Review
  {
  }

  /** Whoever wakes a job puts it behind all others; a timer not before it is due. */
  lemma WakeUpsQueueUp(cfg: Config, s: System, id: JobId, k: nat)
    ensures CanHappen(cfg, s, Submit(id)) ==>
              Happened(cfg, s, Submit(id)) == s.(submitting := s.submitting - {id}, queue := s.queue + [id])
    ensures CanHappen(cfg, s, Fire(k)) ==>
              && k < |s.timers| && s.timers[k].due <= s.clock
              && var t := Happened(cfg, s, Fire(k));
                 && t.queue == s.queue + [s.timers[k].job] && |t.timers| == |s.timers| - 1
                 && (forall i :: 0 <= i < k ==> t.timers[i] == s.timers[i])
                 && (forall i :: k < i < |s.timers| ==> t.timers[i - 1] == s.timers[i])
  {
  }

  lemma VerdictIsRecorded(cfg: Config, s: System, id: JobId, approve: bool)
    requires CanHappen(cfg, s, Judge(id, approve))
    ensures s.heap[id].status == Review
    ensures BothBecome(s, Happened(cfg, s, Judge(id, approve)), id,
                       s.heap[id].(status := if approve then Done else Failed, finished := s.clock,
                                   reviewed := if approve then Approved else Rejected))
  {
  }

  /** A restart queues the records that wait, each once, the oldest first. */
  lemma OldestFirst(cfg: Config, s: System, order: seq<JobId>)
    requires CanHappen(cfg, s, Crash(order))
    ensures Happened(cfg, s, Crash(order)).queue == order
    ensures forall id :: id in order <==> id in s.disk && s.disk[id].status == Queued
    ensures forall i, k :: 0 <= i < k < |order| ==>
              order[i] != order[k] && order[i] in s.disk && order[k] in s.disk
              && s.disk[order[i]].created <= s.disk[order[k]].created
  {
  }

  // ------------------------------------------------------------------ how long a job is kept

  /** Exactly when a sweep finds a job to be over: sweeping is on, jobs that ended like it are kept for a
      time only, and its ending lies farther back. */
  lemma OverExactlyWhenItsTimeIs(cfg: Config, s: System, id: JobId)
    requires Listed(s, id)
    ensures CanHappen(cfg, s, SweepCheck(id)) ==> cfg.jobTtl != 0.0 && View(s, id).finished != 0.0
    ensures var j := View(s, id);
            cfg.jobTtl != 0.0 && j.finished != 0.0 ==>
              (CanHappen(cfg, s, SweepCheck(id))
               <==> if j.status == Failed || j.status == Cancelled then
                      cfg.failedTtl != 0.0 && s.clock - j.finished > cfg.failedTtl
                    else if j.status == Review then cfg.reviewTtl != 0.0 && s.clock - j.finished > cfg.reviewTtl
                    else s.clock - j.finished > cfg.jobTtl)
  {
  }

  /** Without a time for them, failed and cancelled jobs are never found to be over, however long ago they
      ended; nor are reviews; and nothing is when sweeping is off. */
  lemma KeptForEver(cfg: Config, s: System, id: JobId)
    requires Listed(s, id)
    ensures cfg.failedTtl == 0.0 && View(s, id).status in {Failed, Cancelled} ==> !CanHappen(cfg, s, SweepCheck(id))
    ensures cfg.reviewTtl == 0.0 && View(s, id).status == Review ==> !CanHappen(cfg, s, SweepCheck(id))
    ensures cfg.jobTtl == 0.0 ==> !CanHappen(cfg, s, SweepCheck(id))
  {
    OverExactlyWhenItsTimeIs(cfg, s, id);
  }
}

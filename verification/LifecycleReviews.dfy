/** Which jobs can still come under review, and be judged. */
module LifecycleReviews {
  import opened JobModel
  import opened Lifecycle
  import opened LifecycleInvariant
  import opened LifecycleSteps
  import opened LifecycleTheorems
  import opened LifecycleProgress
  import opened LifecycleOutcome

  ghost predicate CanBeJudged(cfg: Config, s: System, id: JobId) {
    exists t :: CanFollow(cfg, s, t) && CanHappen(cfg, t, Judge(id, true))
  }

  /** Some of the service's own steps, errors of the worker among them, lead to a review. */
  ghost predicate ComesToReview(cfg: Config, s: System, id: JobId) {
    exists t :: LeadsTo(cfg, s, t) && CanHappen(cfg, t, Judge(id, true))
  }

  lemma ReviewAfter(cfg: Config, s: System, m: Move, id: JobId)
    requires CanMove(cfg, s, m) && !s.worker.Idle? && ComesToReview(cfg, GoneOn(cfg, s, m), id)
    ensures ComesToReview(cfg, s, id)
  {
    var u := GoneOn(cfg, s, m);
    var t :| LeadsTo(cfg, u, t) && CanHappen(cfg, t, Judge(id, true));
    LeadsByStep(cfg, s, Work(m), t);
  }

  lemma ReviewFarther(cfg: Config, s: System, u: System, id: JobId)
    requires LeadsTo(cfg, s, u) && ComesToReview(cfg, u, id)
    ensures ComesToReview(cfg, s, id)
  {
    var t :| LeadsTo(cfg, u, t) && CanHappen(cfg, t, Judge(id, true));
    LeadsFarther(cfg, s, u, t);
  }

  lemma CommittingIsJudged(cfg: Config, s: System, id: JobId)
    requires s.worker == Committing(id) && id in s.heap
    ensures ComesToReview(cfg, s, id)
  {
    var m := Commit(["looks odd"]);
    LeadsToItself(cfg, GoneOn(cfg, s, m));
    ReviewAfter(cfg, s, m, id);
  }

  /** A running job past its last report is completed, with a reason to look at it. */
  lemma CompletedIsJudged(cfg: Config, s: System, id: JobId)
    requires s.worker == Working(id, true) && id in s.heap && !s.heap[id].cancel
    ensures ComesToReview(cfg, s, id)
  {
    if s.heap[id].fromBucket {
      var u := UploadStep(s);
      assert GoneOn(cfg, s, Upload) == u;
      CommittingIsJudged(cfg, GoneOn(cfg, u, LastLook), id);
      ReviewAfter(cfg, u, LastLook, id);
      ReviewAfter(cfg, s, Upload, id);
    } else {
      CommittingIsJudged(cfg, GoneOn(cfg, s, Direct), id);
      ReviewAfter(cfg, s, Direct, id);
    }
  }

  lemma StartedIsJudged(cfg: Config, s: System, id: JobId)
    requires s.worker == Launched(id) && id in s.heap && !s.heap[id].cancel
    ensures ComesToReview(cfg, s, id)
  {
    var w := GoneOn(cfg, s, SetUp);
    var r := ReportStep(w, true);
    assert GoneOn(cfg, w, Report(true)) == r;
    CompletedIsJudged(cfg, r, id);
    ReviewAfter(cfg, w, Report(true), id);
    ReviewAfter(cfg, s, SetUp, id);
  }

  lemma PickedIsJudged(cfg: Config, s: System, id: JobId)
    requires Inv(cfg, s) && s.worker == Picked(id) && id in s.heap && !s.heap[id].cancel
    ensures ComesToReview(cfg, s, id)
  {
    assert JobInv(cfg, s, id);
    var g := GateStep(s);
    assert GoneOn(cfg, s, Gate) == g;
    StartedIsJudged(cfg, GoneOn(cfg, g, Start), id);
    ReviewAfter(cfg, g, Start, id);
    ReviewAfter(cfg, s, Gate, id);
  }

  /** A job that waits again after a failure. */
  lemma RequeuedIsJudged(cfg: Config, s: System, id: JobId)
    requires Inv(cfg, s) && |cfg.retryDelays| > 0 && s.worker == Requeuing(id)
    requires id in s.mem && id in s.heap && s.heap[id].status.Queued? && !s.heap[id].cancel
    ensures ComesToReview(cfg, s, id)
  {
    var p, j := RetryArrives(cfg, s, id);
    ArrivedIsJudged(cfg, s, p, id);
  }

  lemma ArrivedIsJudged(cfg: Config, s: System, p: System, id: JobId)
    requires Inv(cfg, s) && CanManage(cfg, s, p)
    requires p.worker == Picked(id) && id in p.heap && !p.heap[id].cancel
    ensures ComesToReview(cfg, s, id)
  {
    ManagedLeads(cfg, s, p);
    LeadsFollows(cfg, s, p);
    FollowKeepsInv(cfg, s, p);
    PickedIsJudged(cfg, p, id);
    ReviewFarther(cfg, s, p, id);
  }

  lemma ReopenedIsJudged(cfg: Config, s: System, id: JobId)
    requires Inv(cfg, s) && |cfg.retryDelays| > 0 && id in s.mem && Reopenable(cfg, s, id) && !s.heap[id].cancel
    ensures ComesToReview(cfg, s, id)
  {
    assert JobInv(cfg, s, id);
    var u := LateErrorUndoesTheOutcome(cfg, s, id);
    FollowKeepsInv(cfg, s, u);
    RequeuedIsJudged(cfg, u, id);
    ReviewFarther(cfg, s, u, id);
  }

  /** Asked to stop, not under review, and not about to be completed. */
  ghost predicate Unreviewable(s: System, id: JobId) {
    Flagging(s, id) && Settles(s, id) && !InWindow(s, id)
  }

  ghost predicate Settles(s: System, id: JobId) {
    (id in s.heap ==> !s.heap[id].status.Review?) && (id in s.disk ==> !s.disk[id].status.Review?)
  }

  lemma PickKeepsUnreviewable(cfg: Config, s: System, id: JobId)
    requires Inv(cfg, s) && s.worker.Idle? && s.queue != [] && id in s.used && Unreviewable(s, id)
    ensures Unreviewable(PickStep(s), id)
  {
  }

  lemma HeldKeepsUnreviewable(cfg: Config, s: System, m: Move, id: JobId)
    requires Holding(cfg, s, m) && Holds(s, id) && Unreviewable(s, id)
    ensures Unreviewable(GoneOn(cfg, s, m), id)
  {
  }

  lemma MoveKeepsUnreviewable(cfg: Config, s: System, m: Move, id: JobId)
    requires Inv(cfg, s) && CanMove(cfg, s, m) && id in s.used && Unreviewable(s, id)
    ensures Unreviewable(Moved(cfg, s, m), id)
  {
    if s.worker.Idle? {
      PickKeepsUnreviewable(cfg, s, id);
    } else if Holds(s, id) {
      HeldKeepsUnreviewable(cfg, s, m, id);
    } else {
      OthersUntouched(cfg, s, m, id);
    }
  }

  lemma EventKeepsUnreviewable(cfg: Config, s: System, e: Event, id: JobId)
    requires Inv(cfg, s) && CanHappen(cfg, s, e) && id in s.used && Unreviewable(s, id)
    ensures Unreviewable(Happened(cfg, s, e), id)
  {
    assert JobInv(cfg, s, id);
  }

  /** A flagged job that is not under review never comes under review again. */
  lemma {:induction false} RunKeepsUnreviewable(cfg: Config, s: System, run: seq<Action>, id: JobId)
    requires Inv(cfg, s) && Legal(cfg, s, run) && id in s.used && Unreviewable(s, id)
    ensures Unreviewable(After(cfg, s, run), id)
    decreases |run|
  {
    if run != [] {
      match run[0] {
        case Work(m) => MoveKeepsUnreviewable(cfg, s, m, id);
        case Happen(e) => EventKeepsUnreviewable(cfg, s, e, id);
      }
      UsedGrows(cfg, s, run[0]);
      StepKeepsInv(cfg, s, run[0]);
      RunKeepsUnreviewable(cfg, Apply(cfg, s, run[0]), run[1..], id);
    }
  }

  lemma NeverJudgedAgain(cfg: Config, s: System, run: seq<Action>, id: JobId)
    requires Inv(cfg, s) && Legal(cfg, s, run) && id in s.mem && id in s.heap
    requires s.heap[id].status.Done? || s.heap[id].status.Failed?
    requires s.heap[id].cancel || !Reopenable(cfg, s, id)
    ensures !CanHappen(cfg, After(cfg, s, run), Judge(id, true))
  {
    assert JobInv(cfg, s, id);
    if s.heap[id].cancel {
      RunKeepsUnreviewable(cfg, s, run, id);
    } else {
      FinalIsSettled(cfg, s, id, {Done, Failed});
      RunKeepsShut(cfg, s, run, id, {Done, Failed});
    }
  }

  /** Exactly when a job that is done or failed, judged or not, can come to be judged after all. */
  lemma JudgedAgainExactlyWhenReopenable(cfg: Config, s: System, id: JobId)
    requires Reachable(cfg, s) && |cfg.retryDelays| > 0
    requires id in s.mem && id in s.heap
    requires s.heap[id].status.Done? || s.heap[id].status.Failed?
    ensures CanBeJudged(cfg, s, id) <==> Reopenable(cfg, s, id) && !s.heap[id].cancel
  {
    ReachableInv(cfg, s);
    if Reopenable(cfg, s, id) && !s.heap[id].cancel {
      ReopenedIsJudged(cfg, s, id);
      var t :| LeadsTo(cfg, s, t) && CanHappen(cfg, t, Judge(id, true));
      LeadsFollows(cfg, s, t);
    } else {
      forall t | CanFollow(cfg, s, t) ensures !CanHappen(cfg, t, Judge(id, true)) {
        var run :| Legal(cfg, s, run) && After(cfg, s, run) == t;
        NeverJudgedAgain(cfg, s, run, id);
      }
    }
  }

  // ------------------------------------------------------------------ until the next restart

  /** The job is just being postponed, and its first postponement lies farther back than the limit. */
  ghost predicate IsGivenUp(cfg: Config, s: System, id: JobId)
    requires id in s.heap
  {
    var since := s.heap[id].deferredSince;
    Holds(s, id) && s.worker.Deferring? && s.worker.at - (if since == 0.0 then s.worker.at else since) > cfg.deferMax
  }

  /** Nothing but a flag keeps the worker from completing this job. */
  ghost predicate MayBeCompleted(cfg: Config, s: System, id: JobId)
    requires id in s.heap
  {
    var j := s.heap[id];
    match j.status
    case Queued => id !in s.lost && !IsGivenUp(cfg, s, id)
    case Running =>
      Holds(s, id) && (s.worker.Failing? ==> !s.worker.permanent && s.worker.transient && j.attempts < cfg.maxAttempts)
    case _ => Reopenable(cfg, s, id)
  }

  /** Under review, or about to be completed, or on its way there without a flag. */
  ghost predicate Reviewable(cfg: Config, s: System, id: JobId) {
    && id in s.heap
    && (s.heap[id].status.Review? || InWindow(s, id) || (!s.heap[id].cancel && MayBeCompleted(cfg, s, id)))
  }

  // It comes to that ...

  lemma WindowIsJudged(cfg: Config, s: System, id: JobId)
    requires Inv(cfg, s) && id in s.heap && InWindow(s, id)
    ensures ComesToReview(cfg, s, id)
  {
    if s.worker.Committing? {
      CommittingIsJudged(cfg, s, id);
    } else {
      CommittingIsJudged(cfg, GoneOn(cfg, s, Direct), id);
      ReviewAfter(cfg, s, Direct, id);
    }
  }

  lemma FailedTryIsJudged(cfg: Config, s: System, id: JobId)
    requires Inv(cfg, s) && |cfg.retryDelays| > 0 && id in s.mem && id in s.heap && Holds(s, id) && s.worker.Failing?
    requires s.heap[id].status.Running? && !s.heap[id].cancel && MayBeCompleted(cfg, s, id)
    ensures ComesToReview(cfg, s, id)
  {
    var u := FallStep(cfg, s);
    assert GoneOn(cfg, s, Fall) == u;
    MoveKeepsInv(cfg, s, Fall);
    RequeuedIsJudged(cfg, u, id);
    ReviewAfter(cfg, s, Fall, id);
  }

  lemma RunningIsJudged(cfg: Config, s: System, id: JobId)
    requires Inv(cfg, s) && |cfg.retryDelays| > 0 && id in s.mem && id in s.heap
    requires s.heap[id].status.Running? && !s.heap[id].cancel && MayBeCompleted(cfg, s, id)
    ensures ComesToReview(cfg, s, id)
  {
    assert JobInv(cfg, s, id);
    match s.worker {
      case Launched(_) => StartedIsJudged(cfg, s, id);
      case Working(_, last) =>
        if last {
          CompletedIsJudged(cfg, s, id);
        } else {
          assert GoneOn(cfg, s, Report(true)) == ReportStep(s, true);
          CompletedIsJudged(cfg, ReportStep(s, true), id);
          ReviewAfter(cfg, s, Report(true), id);
        }
      case Uploaded(_) =>
        CommittingIsJudged(cfg, GoneOn(cfg, s, LastLook), id);
        ReviewAfter(cfg, s, LastLook, id);
      case Committing(_) => CommittingIsJudged(cfg, s, id);
      case Failing(_, _, _) => FailedTryIsJudged(cfg, s, id);
    }
  }

  lemma HandedOverIsJudged(cfg: Config, s: System, id: JobId, m: Move)
    requires Inv(cfg, s) && |cfg.retryDelays| > 0 && Holds(s, id) && id in s.mem && id in s.heap
    requires s.heap[id].status.Queued? && !s.heap[id].cancel
    requires if s.worker.DeferSaved? then m == Reschedule else s.worker.BackingOff? && m == RetryLater
    ensures ComesToReview(cfg, s, id)
  {
    var p := HandOverArrives(cfg, s, id, m);
    ArrivedIsJudged(cfg, s, p, id);
  }

  lemma PostponedIsJudged(cfg: Config, s: System, id: JobId)
    requires Inv(cfg, s) && |cfg.retryDelays| > 0 && Holds(s, id) && s.worker.Deferring? && id in s.mem && id in s.heap
    requires s.heap[id].status.Queued? && !s.heap[id].cancel && MayBeCompleted(cfg, s, id)
    ensures ComesToReview(cfg, s, id)
  {
    var u := DeferStep(cfg, s);
    assert GoneOn(cfg, s, Defer) == u;
    MoveKeepsInv(cfg, s, Defer);
    HandedOverIsJudged(cfg, u, id, Reschedule);
    ReviewAfter(cfg, s, Defer, id);
  }

  lemma WaitingIsJudged(cfg: Config, s: System, id: JobId)
    requires Inv(cfg, s) && |cfg.retryDelays| > 0 && id in s.mem && id in s.heap
    requires s.heap[id].status.Queued? && !s.heap[id].cancel && MayBeCompleted(cfg, s, id)
    ensures ComesToReview(cfg, s, id)
  {
    assert JobInv(cfg, s, id);
    if !Holds(s, id) {
      var p := WakeUpArrives(cfg, s, id);
      ArrivedIsJudged(cfg, s, p, id);
    } else {
      match s.worker {
        case Picked(_) => PickedIsJudged(cfg, s, id);
        case Gated(_) =>
          StartedIsJudged(cfg, GoneOn(cfg, s, Start), id);
          ReviewAfter(cfg, s, Start, id);
        case Deferring(_, _) => PostponedIsJudged(cfg, s, id);
        case DeferSaved(_) => HandedOverIsJudged(cfg, s, id, Reschedule);
        case Requeuing(_) => RequeuedIsJudged(cfg, s, id);
        case BackingOff(_, _) => HandedOverIsJudged(cfg, s, id, RetryLater);
      }
    }
  }

  lemma ReviewableIsJudged(cfg: Config, s: System, id: JobId)
    requires Inv(cfg, s) && |cfg.retryDelays| > 0 && id in s.mem && Reviewable(cfg, s, id)
    ensures ComesToReview(cfg, s, id)
  {
    assert JobInv(cfg, s, id);
    if s.heap[id].status.Review? {
      LeadsToItself(cfg, s);
    } else if InWindow(s, id) {
      WindowIsJudged(cfg, s, id);
    } else if s.heap[id].status.Queued? {
      WaitingIsJudged(cfg, s, id);
    } else if s.heap[id].status.Running? {
      RunningIsJudged(cfg, s, id);
    } else {
      ReopenedIsJudged(cfg, s, id);
    }
  }

  // ... and to nothing else.

  lemma PickStaysOut(cfg: Config, s: System, id: JobId)
    requires Inv(cfg, s) && s.worker.Idle? && s.queue != [] && !Reviewable(cfg, s, id)
    ensures !Reviewable(cfg, PickStep(s), id)
  {
    assert JobInv(cfg, s, id);
    QueueTail(s.queue, id);
  }

  lemma EarlyMoveStaysOut(cfg: Config, s: System, m: Move, id: JobId)
    requires Holding(cfg, s, m) && Holds(s, id) && !Reviewable(cfg, s, id)
    requires m.Gate? || m.LowDisk? || m.Defer? || m.Reschedule? || m.Start? || m.SetUp? || m.MakeDir? || m.Report?
    ensures !Reviewable(cfg, GoneOn(cfg, s, m), id)
  {
    assert JobInv(cfg, s, id);
  }

  lemma LateMoveStaysOut(cfg: Config, s: System, m: Move, id: JobId)
    requires Holding(cfg, s, m) && Holds(s, id) && !Reviewable(cfg, s, id)
    requires m.Upload? || m.LastLook? || m.Direct? || m.Commit? || m.Finish? || m.Stop? || m.LateRaise?
    ensures !Reviewable(cfg, GoneOn(cfg, s, m), id)
  {
    assert JobInv(cfg, s, id);
  }

  lemma FailingMoveStaysOut(cfg: Config, s: System, m: Move, id: JobId)
    requires Holding(cfg, s, m) && Holds(s, id) && !Reviewable(cfg, s, id)
    requires m.Raise? || m.Fall? || m.BackOff? || m.RetryLater? || m.Die?
    ensures !Reviewable(cfg, GoneOn(cfg, s, m), id)
  {
    assert JobInv(cfg, s, id);
  }

  lemma OtherMoveStaysOut(cfg: Config, s: System, m: Move, id: JobId)
    requires Holding(cfg, s, m) && !Holds(s, id) && !Reviewable(cfg, s, id)
    ensures !Reviewable(cfg, GoneOn(cfg, s, m), id)
  {
    assert JobInv(cfg, s, id);
    OthersUntouched(cfg, s, m, id);
    StepLoses(cfg, s, Work(m), id);
    hide GoneOn, CanGoOn;
    var t := GoneOn(cfg, s, m);
    assert t == Apply(cfg, s, Work(m));
  }

  lemma MoveStaysOut(cfg: Config, s: System, m: Move, id: JobId)
    requires Inv(cfg, s) && CanMove(cfg, s, m) && !Reviewable(cfg, s, id)
    ensures !Reviewable(cfg, Moved(cfg, s, m), id)
  {
    hide Reviewable, GoneOn, Inv;
    if s.worker.Idle? {
      PickStaysOut(cfg, s, id);
    } else if !Holds(s, id) {
      OtherMoveStaysOut(cfg, s, m, id);
    } else if m.Raise? || m.Fall? || m.BackOff? || m.RetryLater? || m.Die? {
      FailingMoveStaysOut(cfg, s, m, id);
    } else if m.Upload? || m.LastLook? || m.Direct? || m.Commit? || m.Finish? || m.Stop? || m.LateRaise? {
      LateMoveStaysOut(cfg, s, m, id);
    } else {
      EarlyMoveStaysOut(cfg, s, m, id);
    }
  }

  lemma EventStaysOut(cfg: Config, s: System, e: Event, id: JobId)
    requires Inv(cfg, s) && CanHappen(cfg, s, e) && !e.Crash? && id in s.used && !Reviewable(cfg, s, id)
    ensures !Reviewable(cfg, Happened(cfg, s, e), id) && !IsVerdictOn(Happen(e), id)
  {
    assert JobInv(cfg, s, id);
  }

  lemma {:induction false} RunStaysOut(cfg: Config, s: System, run: seq<Action>, id: JobId)
    requires Inv(cfg, s) && Legal(cfg, s, run) && WithoutCrash(run) && id in s.used && !Reviewable(cfg, s, id)
    ensures !Reviewable(cfg, After(cfg, s, run), id)
    ensures forall i :: 0 <= i < |run| ==> !IsVerdictOn(run[i], id)
    decreases |run|
  {
    if run != [] {
      hide Reviewable;
      CrashLater(run);
      match run[0] {
        case Work(m) => MoveStaysOut(cfg, s, m, id);
        case Happen(e) => EventStaysOut(cfg, s, e, id);
      }
      UsedGrows(cfg, s, run[0]);
      StepKeepsInv(cfg, s, run[0]);
      RunStaysOut(cfg, Apply(cfg, s, run[0]), run[1..], id);
      forall i | 0 <= i < |run| ensures !IsVerdictOn(run[i], id) {
        if i > 0 { assert run[i] == run[1..][i - 1]; }
      }
    }
  }

  /** A run of this process in which the job comes under review. */
  ghost predicate BringsToReview(cfg: Config, s: System, run: seq<Action>, id: JobId) {
    Legal(cfg, s, run) && WithoutCrash(run) && CanHappen(cfg, After(cfg, s, run), Judge(id, true))
  }

  /** Which listed jobs can come under review before the next restart: exactly those. */
  lemma ReviewedExactlyWhenReviewable(cfg: Config, s: System, id: JobId)
    requires Reachable(cfg, s) && |cfg.retryDelays| > 0 && id in s.mem
    ensures (exists run :: BringsToReview(cfg, s, run, id)) <==> Reviewable(cfg, s, id)
  {
    ReachableInv(cfg, s);
    assert JobInv(cfg, s, id);
    if Reviewable(cfg, s, id) {
      ReviewableIsJudged(cfg, s, id);
      var t :| LeadsTo(cfg, s, t) && CanHappen(cfg, t, Judge(id, true));
      var run :| Leads(cfg, s, run, t);
      LeadsKeepsList(cfg, s, run, t);
      assert BringsToReview(cfg, s, run, id);
    }
    forall run | BringsToReview(cfg, s, run, id) ensures Reviewable(cfg, s, id) {
      if !Reviewable(cfg, s, id) { RunStaysOut(cfg, s, run, id); }
    }
  }
}

/** When an outcome lasts.

    The handler catches every error, also one that comes after the outcome was recorded, so a finished
    job can be put back into the queue.  Each result here is stated with the exact condition under
    which it holds. */
module LifecycleOutcome {
  import opened JobModel
  import opened Lifecycle
  import opened LifecycleInvariant
  import opened LifecycleSteps
  import opened LifecycleTheorems
  import opened LifecycleProgress

  // ------------------------------------------------------------------ finished work

  /** The worker has still to leave the handler of this finished job, and an error there would be
      retried. */
  ghost predicate Reopenable(cfg: Config, s: System, id: JobId) {
    && Holds(s, id) && id in s.heap && Final(s.heap[id]) && s.heap[id].attempts < cfg.maxAttempts
    && (s.worker.Recorded? || (s.worker.Failing? && !s.worker.permanent && s.worker.transient))
  }

  /** Wherever the job is found, its status is one of `statuses`. */
  ghost predicate Settled(s: System, id: JobId, statuses: set<Status>) {
    && id in s.used
    && (id in s.heap ==> s.heap[id].status in statuses)
    && (id in s.disk ==> s.disk[id].status in statuses)
  }

  /** Sets of endings closed under the verdict of a review. */
  ghost predicate Endings(statuses: set<Status>) {
    && statuses <= {Done, Failed, Review}
    && (Review in statuses ==> Done in statuses && Failed in statuses)
  }

  /** What the worker may still do to a job that is settled. */
  ghost predicate Shut(cfg: Config, s: System, id: JobId, statuses: set<Status>) {
    && Settled(s, id, statuses) && Endings(statuses)
    && (Holds(s, id) ==> Failed in statuses && !Reopenable(cfg, s, id))
  }

  lemma FinalIsSettled(cfg: Config, s: System, id: JobId, statuses: set<Status>)
    requires Inv(cfg, s) && Listed(s, id)
    requires Endings(statuses) && View(s, id).status in statuses
    ensures Settled(s, id, statuses)
    ensures Holds(s, id) ==> id in s.heap && (s.worker.Recorded? || s.worker.Failing?)
  {
    assert JobInv(cfg, s, id);
  }

  lemma PickKeepsShut(cfg: Config, s: System, id: JobId, statuses: set<Status>)
    requires Inv(cfg, s) && s.worker.Idle? && s.queue != [] && Shut(cfg, s, id, statuses)
    ensures Shut(cfg, PickStep(s), id, statuses)
  {
    assert JobInv(cfg, s, id);
    QueueTail(s.queue, id);
  }

  lemma HeldKeepsShut(cfg: Config, s: System, m: Move, id: JobId, statuses: set<Status>)
    requires Holding(cfg, s, m) && Holds(s, id) && Shut(cfg, s, id, statuses)
    ensures Shut(cfg, GoneOn(cfg, s, m), id, statuses)
  {
    assert JobInv(cfg, s, id);
  }

  lemma MoveKeepsShut(cfg: Config, s: System, m: Move, id: JobId, statuses: set<Status>)
    requires Inv(cfg, s) && CanMove(cfg, s, m) && Shut(cfg, s, id, statuses)
    ensures Shut(cfg, Moved(cfg, s, m), id, statuses)
  {
    if s.worker.Idle? {
      PickKeepsShut(cfg, s, id, statuses);
    } else if Holds(s, id) {
      HeldKeepsShut(cfg, s, m, id, statuses);
    } else {
      OthersUntouched(cfg, s, m, id);
    }
  }

  lemma EventKeepsShut(cfg: Config, s: System, e: Event, id: JobId, statuses: set<Status>)
    requires Inv(cfg, s) && CanHappen(cfg, s, e) && Shut(cfg, s, id, statuses)
    ensures Shut(cfg, Happened(cfg, s, e), id, statuses)
  {
    assert JobInv(cfg, s, id);
  }

  lemma {:induction false} RunKeepsShut(cfg: Config, s: System, run: seq<Action>, id: JobId, statuses: set<Status>)
    requires Inv(cfg, s) && Legal(cfg, s, run) && Shut(cfg, s, id, statuses)
    ensures Shut(cfg, After(cfg, s, run), id, statuses)
    decreases |run|
  {
    if run != [] {
      match run[0] {
        case Work(m) => MoveKeepsShut(cfg, s, m, id, statuses);
        case Happen(e) => EventKeepsShut(cfg, s, e, id, statuses);
      }
      StepKeepsInv(cfg, s, run[0]);
      RunKeepsShut(cfg, Apply(cfg, s, run[0]), run[1..], id, statuses);
    }
  }

  /** A finished job is never taken up again, unless it can be reopened; and once the worker has let
      go of it, `done` stays `done` and `failed` stays `failed`.  All kinds of errors may happen. */
  lemma FinishedWorkIsNeverRestarted(cfg: Config, s: System, run: seq<Action>, id: JobId)
    requires Reachable(cfg, s) && Listed(s, id) && Final(View(s, id)) && !Reopenable(cfg, s, id)
    requires Legal(cfg, s, run)
    ensures var t := After(cfg, s, run);
            Listed(t, id) ==>
              Final(View(t, id))
              && (!Holds(s, id) && !View(s, id).status.Review? ==> View(t, id).status == View(s, id).status)
  {
    ReachableInv(cfg, s);
    FinalIsSettled(cfg, s, id, {Done, Failed, Review});
    RunKeepsShut(cfg, s, run, id, {Done, Failed, Review});
    if !Holds(s, id) && !View(s, id).status.Review? {
      var same := {View(s, id).status};
      FinalIsSettled(cfg, s, id, same);
      RunKeepsShut(cfg, s, run, id, same);
    }
  }

  /** After the failure region: waiting again, with everything else as it was. */
  ghost predicate Reopened(s: System, t: System, id: JobId)
    requires id in s.heap
  {
    && t.worker == Requeuing(id) && t.clock == s.clock && t.mem == s.mem && t.used == s.used
    && t.deleting == s.deleting && t.sweeping == s.sweeping
    && id in t.heap && t.heap[id] == s.heap[id].(status := Queued)
    && Listed(t, id) && SameRecord(View(t, id), t.heap[id])
  }

  /** The late error, unless it was raised already, and the failure region. */
  lemma ErrorIsTreated(cfg: Config, s: System, id: JobId, permanent: bool, transient: bool) returns (t: System)
    requires id in s.heap && (s.worker == Recorded(id) || s.worker == Failing(id, permanent, transient))
    ensures LeadsTo(cfg, s, t) && CanFollow(cfg, s, t)
    ensures t == FallStep(cfg, s.(worker := Failing(id, permanent, transient)))
  {
    var s1 := s.(worker := Failing(id, permanent, transient));
    t := FallStep(cfg, s1);
    LeadsToItself(cfg, t);
    assert Apply(cfg, s1, Work(Fall)) == t;
    LeadsByStep(cfg, s1, Work(Fall), t);
    if s.worker.Recorded? {
      assert Apply(cfg, s, Work(LateRaise(permanent, transient))) == s1;
      LeadsByStep(cfg, s, Work(LateRaise(permanent, transient)), t);
    } else {
      assert s1 == s;
    }
    LeadsFollows(cfg, s, t);
  }

  /** A late error that is retried undoes the outcome. */
  lemma LateErrorUndoesTheOutcome(cfg: Config, s: System, id: JobId) returns (t: System)
    requires Inv(cfg, s) && Listed(s, id) && Reopenable(cfg, s, id)
    ensures LeadsTo(cfg, s, t) && CanFollow(cfg, s, t) && Reopened(s, t, id)
  {
    assert JobInv(cfg, s, id);
    t := ErrorIsTreated(cfg, s, id, false, true);
    hide CanFollow, LeadsTo;
  }

  /** Exactly when finished work can be restarted. */
  lemma RestartedExactlyWhenReopenable(cfg: Config, s: System, id: JobId)
    requires Reachable(cfg, s) && Listed(s, id) && Final(View(s, id))
    ensures (exists t :: CanFollow(cfg, s, t) && Listed(t, id) && Live(View(t, id))) <==> Reopenable(cfg, s, id)
  {
    ReachableInv(cfg, s);
    if Reopenable(cfg, s, id) {
      var t := LateErrorUndoesTheOutcome(cfg, s, id);
    }
    forall t | CanFollow(cfg, s, t) && Listed(t, id) && !Reopenable(cfg, s, id) ensures !Live(View(t, id)) {
      var run :| Legal(cfg, s, run) && After(cfg, s, run) == t;
      FinishedWorkIsNeverRestarted(cfg, s, run, id);
    }
  }

  lemma FailureEndsTheJob(cfg: Config, s: System, id: JobId) returns (t: System)
    requires Inv(cfg, s) && Listed(s, id) && Final(View(s, id)) && Holds(s, id)
    ensures CanFollow(cfg, s, t) && Listed(t, id) && !View(t, id).status.Done?
  {
    assert JobInv(cfg, s, id);
    if s.worker.Recorded? {
      t := ErrorIsTreated(cfg, s, id, true, false);
    } else {
      t := ErrorIsTreated(cfg, s, id, s.worker.permanent, s.worker.transient);
    }
    hide CanFollow, LeadsTo;
  }

  /** Exactly when a done job stays done: when the worker has let go of it. */
  lemma DoneStaysExactlyWhenLetGo(cfg: Config, s: System, id: JobId)
    requires Reachable(cfg, s) && Listed(s, id) && View(s, id).status.Done?
    ensures (forall t :: CanFollow(cfg, s, t) && Listed(t, id) ==> View(t, id).status.Done?) <==> !Holds(s, id)
  {
    ReachableInv(cfg, s);
    if Holds(s, id) {
      var t := FailureEndsTheJob(cfg, s, id);
    }
    forall t | CanFollow(cfg, s, t) && Listed(t, id) && !Holds(s, id) ensures View(t, id).status.Done? {
      var run :| Legal(cfg, s, run) && After(cfg, s, run) == t;
      FinishedWorkIsNeverRestarted(cfg, s, run, id);
    }
  }

  // ------------------------------------------------------------------ the sweeper

  /** A sweeper is about to remove this job although it waits or runs and nobody asked it to stop. */
  ghost predicate SweptAlive(cfg: Config, s: System, id: JobId) {
    CanHappen(cfg, s, SweepAct(id)) && Listed(s, id) && Live(View(s, id)) && !View(s, id).cancel
  }

  /** A reopened job keeps the time of its ending, so a sweeper may find it to be over while it waits. */
  lemma ReopenedIsOver(cfg: Config, s: System, id: JobId) returns (t: System)
    requires Inv(cfg, s) && Listed(s, id) && Reopenable(cfg, s, id) && cfg.jobTtl != 0.0
    ensures CanFollow(cfg, s, t) && CanHappen(cfg, t, SweepCheck(id))
    ensures Live(View(t, id)) && View(t, id).cancel == View(s, id).cancel
    ensures t.worker == Requeuing(id) && t.mem == s.mem && id in t.heap && t.heap[id] == s.heap[id].(status := Queued)
  {
    assert JobInv(cfg, s, id);
    var u := LateErrorUndoesTheOutcome(cfg, s, id);
    var over := s.heap[id].finished + cfg.jobTtl - s.clock;
    var d := if over < 0.0 then 1.0 else over + 1.0;
    StepLast(cfg, s, u, Happen(Tick(d)));
    hide CanFollow, LeadsTo, Inv, Reopenable;
    t := Happened(cfg, u, Tick(d));
    assert View(t, id) == View(u, id);
  }

  lemma ReopenedIsSwept(cfg: Config, s: System, id: JobId) returns (t: System)
    requires Inv(cfg, s) && Listed(s, id) && Reopenable(cfg, s, id) && !View(s, id).cancel && cfg.jobTtl != 0.0
    ensures CanFollow(cfg, s, t) && SweptAlive(cfg, t, id)
  {
    var v := ReopenedIsOver(cfg, s, id);
    t := LookedAt(cfg, s, v, id);
  }

  lemma LookedAt(cfg: Config, s: System, u: System, id: JobId) returns (t: System)
    requires CanFollow(cfg, s, u) && CanHappen(cfg, u, SweepCheck(id))
    ensures CanFollow(cfg, s, t) && CanHappen(cfg, t, SweepAct(id)) && Listed(t, id) && View(t, id) == View(u, id)
  {
    t := Happened(cfg, u, SweepCheck(id));
    StepLast(cfg, s, u, Happen(SweepCheck(id)));
    assert View(t, id) == View(u, id);
  }

  /** The flag of a finished job is in its object and its record. */
  lemma FinalFlagIsSaved(cfg: Config, s: System, id: JobId)
    requires Inv(cfg, s) && Listed(s, id) && Final(View(s, id)) && View(s, id).cancel
    ensures id in s.used && Flagging(s, id)
  {
    assert JobInv(cfg, s, id);
  }

  /** Exactly when a finished job can be swept while it waits again. */
  lemma SweptAliveExactlyWhenReopenable(cfg: Config, s: System, id: JobId)
    requires Reachable(cfg, s) && Listed(s, id) && Final(View(s, id))
    ensures (exists t :: CanFollow(cfg, s, t) && SweptAlive(cfg, t, id))
            <==> Reopenable(cfg, s, id) && !View(s, id).cancel && cfg.jobTtl != 0.0
  {
    ReachableInv(cfg, s);
    if Reopenable(cfg, s, id) && !View(s, id).cancel && cfg.jobTtl != 0.0 {
      var t := ReopenedIsSwept(cfg, s, id);
    }
    forall t | CanFollow(cfg, s, t) && SweptAlive(cfg, t, id)
      ensures Reopenable(cfg, s, id) && !View(s, id).cancel && cfg.jobTtl != 0.0
    {
      RestartedExactlyWhenReopenable(cfg, s, id);
      FollowKeepsInv(cfg, s, t);
      assert JobInv(cfg, t, id);
      if View(s, id).cancel {
        FinalFlagIsSaved(cfg, s, id);
        var run :| Legal(cfg, s, run) && After(cfg, s, run) == t;
        FlagStays(cfg, s, run, id);
      }
    }
  }

  // ------------------------------------------------------------------ delete requests

  /** A delete request past its check meets a job that waits or runs and nobody asked to stop. */
  ghost predicate DeletedAlive(cfg: Config, s: System, id: JobId) {
    CanHappen(cfg, s, DeleteAct(id)) && id in s.mem && id in s.heap && Live(s.heap[id]) && !s.heap[id].cancel
  }

  /** Exactly when a delete request that was let through can come to remove a job at work: when at
      its check the worker had still to leave the handler, and nobody had asked to stop. */
  lemma DeletedAliveExactlyWhenReopenable(cfg: Config, s: System, id: JobId)
    requires Reachable(cfg, s) && CanHappen(cfg, s, DeleteCheck(id))
    ensures var checked := Happened(cfg, s, DeleteCheck(id));
            (exists t :: CanFollow(cfg, checked, t) && DeletedAlive(cfg, t, id))
            <==> Reopenable(cfg, s, id) && !s.heap[id].cancel
  {
    var checked := Happened(cfg, s, DeleteCheck(id));
    ReachableInv(cfg, s);
    assert JobInv(cfg, s, id);
    EventKeepsInv(cfg, s, DeleteCheck(id));
    assert Reopenable(cfg, checked, id) <==> Reopenable(cfg, s, id);
    if Reopenable(cfg, s, id) && !s.heap[id].cancel {
      var t := LateErrorUndoesTheOutcome(cfg, checked, id);
      assert DeletedAlive(cfg, t, id);
    } else {
      forall t | CanFollow(cfg, checked, t) ensures !DeletedAlive(cfg, t, id) {
        var run :| Legal(cfg, checked, run) && After(cfg, checked, run) == t;
        NeverDeletedAlive(cfg, checked, run, id);
      }
    }
  }

  lemma NeverDeletedAlive(cfg: Config, s: System, run: seq<Action>, id: JobId)
    requires Inv(cfg, s) && Legal(cfg, s, run) && id in s.mem && id in s.heap && !Live(s.heap[id])
    requires s.heap[id].cancel || (Final(s.heap[id]) && !Reopenable(cfg, s, id))
    ensures !DeletedAlive(cfg, After(cfg, s, run), id)
  {
    assert JobInv(cfg, s, id);
    if s.heap[id].cancel {
      FlagStays(cfg, s, run, id);
    } else {
      FinalIsSettled(cfg, s, id, {Done, Failed, Review});
      RunKeepsShut(cfg, s, run, id, {Done, Failed, Review});
    }
  }

  /** A request let through for a cancelled job only ever meets one that nobody can complete. */
  lemma DeletedCancelledIsDoomed(cfg: Config, s: System, run: seq<Action>, id: JobId)
    requires Reachable(cfg, s) && CanHappen(cfg, s, DeleteCheck(id)) && s.heap[id].status.Cancelled?
    requires Legal(cfg, Happened(cfg, s, DeleteCheck(id)), run)
    ensures Doomed(After(cfg, Happened(cfg, s, DeleteCheck(id)), run), id)
  {
    var checked := Happened(cfg, s, DeleteCheck(id));
    ReachableInv(cfg, s);
    assert JobInv(cfg, s, id);
    EventKeepsInv(cfg, s, DeleteCheck(id));
    RunKeepsDoomed(cfg, checked, run, id);
  }

  // ------------------------------------------------------------------ reviews

  ghost predicate IsVerdictOn(a: Action, id: JobId) {
    a.Happen? && a.event.Judge? && a.event.id == id
  }

  /** A job under review stays as it is, apart from its flag and the key of its result. */
  ghost predicate StillUnderReview(j: Job, k: Job) {
    j.(cancel := k.cancel, uploaded := k.uploaded) == k
  }

  ghost predicate ReviewGoesOn(s: System, t: System, id: JobId)
    requires Listed(s, id)
  {
    Listed(t, id) && StillUnderReview(View(s, id), View(t, id))
  }

  /** The steps that end a review without anybody's verdict: the failure region after a late error,
      and a removal, by request or by a sweeper, that was decided upon earlier. */
  ghost predicate Disrupts(s: System, a: Action, id: JobId) {
    (a == Work(Fall) && Holds(s, id)) || a == Happen(DeleteAct(id)) || a == Happen(SweepAct(id))
  }

  lemma PickSparesReview(cfg: Config, s: System, id: JobId)
    requires Inv(cfg, s) && s.worker.Idle? && s.queue != []
    requires Listed(s, id) && View(s, id).status.Review?
    ensures ReviewGoesOn(s, PickStep(s), id)
  {
    assert JobInv(cfg, s, id);
    QueueTail(s.queue, id);
  }

  lemma HeldSparesReview(cfg: Config, s: System, m: Move, id: JobId)
    requires Holding(cfg, s, m) && Holds(s, id) && Listed(s, id) && View(s, id).status.Review?
    ensures ReviewGoesOn(s, GoneOn(cfg, s, m), id) <==> !m.Fall?
  {
    assert JobInv(cfg, s, id);
  }

  lemma MoveSparesReview(cfg: Config, s: System, m: Move, id: JobId)
    requires Inv(cfg, s) && CanMove(cfg, s, m) && Listed(s, id) && View(s, id).status.Review?
    ensures ReviewGoesOn(s, Moved(cfg, s, m), id) <==> !Disrupts(s, Work(m), id)
  {
    if s.worker.Idle? {
      PickSparesReview(cfg, s, id);
    } else if Holds(s, id) {
      HeldSparesReview(cfg, s, m, id);
    } else {
      OthersUntouched(cfg, s, m, id);
    }
  }

  lemma CrashSparesReview(cfg: Config, s: System, order: seq<JobId>, id: JobId)
    requires Inv(cfg, s) && Listed(s, id) && View(s, id).status.Review?
    ensures ReviewGoesOn(s, Restarted(s, order), id)
  {
    assert JobInv(cfg, s, id);
  }

  lemma FlagsSpareReview(cfg: Config, s: System, e: Event, id: JobId)
    requires Inv(cfg, s) && CanHappen(cfg, s, e) && (e.CancelAll? || e.CancelAct? || e.CancelOnDisk?)
    requires Listed(s, id) && View(s, id).status.Review?
    ensures ReviewGoesOn(s, Happened(cfg, s, e), id)
  {
    assert JobInv(cfg, s, id);
  }

  lemma RequestSparesReview(cfg: Config, s: System, e: Event, id: JobId)
    requires Inv(cfg, s) && CanHappen(cfg, s, e)
    requires !e.Crash? && !e.CancelAll? && !e.CancelAct? && !e.CancelOnDisk?
    requires e != DeleteAct(id) && e != SweepAct(id)
    requires Listed(s, id) && View(s, id).status.Review?
    requires !IsVerdictOn(Happen(e), id)
    ensures ReviewGoesOn(s, Happened(cfg, s, e), id)
  {
    assert JobInv(cfg, s, id);
  }

  lemma EventSparesReview(cfg: Config, s: System, e: Event, id: JobId)
    requires Inv(cfg, s) && CanHappen(cfg, s, e) && Listed(s, id) && View(s, id).status.Review?
    requires !IsVerdictOn(Happen(e), id)
    ensures ReviewGoesOn(s, Happened(cfg, s, e), id) <==> !Disrupts(s, Happen(e), id)
  {
    if e != DeleteAct(id) && e != SweepAct(id) {
      match e {
        case Crash(order) => CrashSparesReview(cfg, s, order, id);
        case CancelAll => FlagsSpareReview(cfg, s, e, id);
        case CancelAct(_) => FlagsSpareReview(cfg, s, e, id);
        case CancelOnDisk(_) => FlagsSpareReview(cfg, s, e, id);
        case _ => RequestSparesReview(cfg, s, e, id);
      }
    }
  }

  /** What ends a review: a verdict, which is what the record then carries, and otherwise exactly the
      disruptions. */
  lemma ReviewEndsByVerdict(cfg: Config, s: System, a: Action, id: JobId)
    requires Reachable(cfg, s) && Enabled(cfg, s, a)
    requires Listed(s, id) && View(s, id).status.Review?
    ensures var t := Apply(cfg, s, a);
            if IsVerdictOn(a, id) then
              Listed(t, id) && SameRecord(View(t, id), Judged(View(s, id), a.event.approve, s.clock))
            else ReviewGoesOn(s, t, id) <==> !Disrupts(s, a, id)
  {
    ReachableInv(cfg, s);
    assert JobInv(cfg, s, id);
    match a {
      case Work(m) => MoveSparesReview(cfg, s, m, id);
      case Happen(e) =>
        if !IsVerdictOn(a, id) { EventSparesReview(cfg, s, e, id); }
    }
  }
}

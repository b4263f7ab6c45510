/** The sweepers look at a job without the lock, and remove it later: when they take one that was
    approved in between. */
module LifecycleSweeps {
  import opened JobModel
  import opened Lifecycle
  import opened LifecycleInvariant
  import opened LifecycleSteps
  import opened LifecycleTheorems
  import opened LifecycleProgress
  import opened LifecycleOutcome
  import opened LifecycleReviews

  /** A sweeper is about to remove a listed job that a person has approved. */
  ghost predicate TakesApproved(cfg: Config, s: System, id: JobId) {
    && CanHappen(cfg, s, SweepAct(id)) && id in s.mem && id in s.heap
    && s.heap[id].status.Done? && s.heap[id].reviewed.Approved?
  }

  /** From a sweeper's look at the job a run that brings no further look at it, in which the job is approved,
      and at whose end it is removed all the same: what was found to be over was not what was approved. */
  ghost predicate ApprovedInBetween(cfg: Config, looked: System, run: seq<Action>, id: JobId) {
    && Legal(cfg, looked, run) && Happen(SweepCheck(id)) !in run
    && Happen(Judge(id, true)) in run && TakesApproved(cfg, After(cfg, looked, run), id)
  }

  // ------------------------------------------------------------------ no other look, no restart

  lemma StepFindsNothing(cfg: Config, s: System, a: Action, id: JobId)
    requires Enabled(cfg, s, a) && a != Happen(SweepCheck(id)) && id in Apply(cfg, s, a).sweeping
    ensures id in s.sweeping && !IsCrash(a)
  {
  }

  /** A removal that is still to come was decided upon at the look. */
  lemma {:induction false} NoCrashInBetween(cfg: Config, s: System, run: seq<Action>, id: JobId)
    requires Legal(cfg, s, run) && Happen(SweepCheck(id)) !in run && id in After(cfg, s, run).sweeping
    ensures id in s.sweeping && WithoutCrash(run)
    decreases |run|
  {
    if run != [] {
      assert run[0] in run && forall a :: a in run[1..] ==> a in run;
      NoCrashInBetween(cfg, Apply(cfg, s, run[0]), run[1..], id);
      StepFindsNothing(cfg, s, run[0], id);
      CrashLater(run);
    }
  }

  lemma StepListsNothing(cfg: Config, s: System, a: Action, id: JobId)
    requires Enabled(cfg, s, a) && !IsCrash(a) && id in s.used && id in Apply(cfg, s, a).mem
    ensures id in s.mem
  {
  }

  lemma {:induction false} ListedBefore(cfg: Config, s: System, run: seq<Action>, id: JobId)
    requires Legal(cfg, s, run) && WithoutCrash(run) && id in s.used && id in After(cfg, s, run).mem
    ensures id in s.mem
    decreases |run|
  {
    if run != [] {
      CrashLater(run);
      UsedGrows(cfg, s, run[0]);
      ListedBefore(cfg, Apply(cfg, s, run[0]), run[1..], id);
      StepListsNothing(cfg, s, run[0], id);
    }
  }

  // ------------------------------------------------------------------ the exact condition

  lemma ApprovedIsTaken(cfg: Config, s: System, id: JobId)
    requires CanHappen(cfg, s, Judge(id, true)) && id in s.mem && id in s.sweeping
    ensures TakesApproved(cfg, Happened(cfg, s, Judge(id, true)), id)
  {
  }

  lemma NoLookInside(cfg: Config, s: System, run: seq<Action>, t: System, id: JobId)
    requires Leads(cfg, s, run, t)
    ensures Happen(SweepCheck(id)) !in run
  {
  }

  lemma ReviewableIsTaken(cfg: Config, s: System, id: JobId) returns (run: seq<Action>)
    requires Inv(cfg, s) && |cfg.retryDelays| > 0 && id in s.mem && id in s.sweeping && Reviewable(cfg, s, id)
    ensures ApprovedInBetween(cfg, s, run, id)
  {
    ReviewableIsJudged(cfg, s, id);
    hide Reviewable, Inv, CanHappen, Happened, TakesApproved;
    var t :| LeadsTo(cfg, s, t) && CanHappen(cfg, t, Judge(id, true));
    var before :| Leads(cfg, s, before, t);
    LeadsKeepsList(cfg, s, before, t);
    NoLookInside(cfg, s, before, t, id);
    ApprovedIsTaken(cfg, t, id);
    var approve := Happen(Judge(id, true));
    AfterSnoc(cfg, s, before, approve);
    run := before + [approve];
    assert run[|before|] == approve;
  }

  lemma TakenIsReviewable(cfg: Config, s: System, run: seq<Action>, id: JobId)
    requires Inv(cfg, s) && ApprovedInBetween(cfg, s, run, id)
    ensures id in s.mem && Reviewable(cfg, s, id)
  {
    assert JobInv(cfg, s, id);
    NoCrashInBetween(cfg, s, run, id);
    ListedBefore(cfg, s, run, id);
    var i :| 0 <= i < |run| && run[i] == Happen(Judge(id, true));
    if !Reviewable(cfg, s, id) {
      RunStaysOut(cfg, s, run, id);
      assert IsVerdictOn(run[i], id);
    }
  }

  lemma LookChangesNothing(cfg: Config, s: System, id: JobId)
    requires CanHappen(cfg, s, SweepCheck(id))
    ensures var looked := Happened(cfg, s, SweepCheck(id));
            && id in looked.sweeping && looked.mem == s.mem
            && (Reviewable(cfg, looked, id) <==> Reviewable(cfg, s, id))
  {
  }

  /** Exactly when a sweeper may remove a job that a person approves after the sweeper's look: when the job is
      listed in memory, and at that look under review, or on its way to one. */
  lemma SweepTakesApprovedExactlyWhen(cfg: Config, s: System, id: JobId)
    requires Reachable(cfg, s) && |cfg.retryDelays| > 0 && CanHappen(cfg, s, SweepCheck(id))
    ensures (exists run :: ApprovedInBetween(cfg, Happened(cfg, s, SweepCheck(id)), run, id))
            <==> id in s.mem && Reviewable(cfg, s, id)
    ensures View(s, id).status.Review? ==> cfg.reviewTtl != 0.0
  {
    var looked := Happened(cfg, s, SweepCheck(id));
    ReachableInv(cfg, s);
    EventKeepsInv(cfg, s, SweepCheck(id));
    LookChangesNothing(cfg, s, id);
    hide Reviewable, Inv;
    if id in s.mem && Reviewable(cfg, s, id) {
      var run := ReviewableIsTaken(cfg, looked, id);
    }
    forall run | ApprovedInBetween(cfg, looked, run, id) ensures id in s.mem && Reviewable(cfg, s, id) {
      TakenIsReviewable(cfg, looked, run, id);
    }
  }
}

/** Concrete runs: the theorems speak of states that do occur, and what they exclude does happen. */
module LifecycleWitness {
  import opened JobModel
  import opened Lifecycle
  import opened LifecycleInvariant
  import opened LifecycleSteps
  import opened LifecycleTheorems
  import opened LifecycleOutcome
  import opened LifecycleReviews
  import opened LifecycleSweeps

  lemma OneStepOn(cfg: Config, run: seq<Action>, s: System, a: Action)
    requires Reaches(cfg, run, s) && Enabled(cfg, s, a)
    ensures Reaches(cfg, run + [a], Apply(cfg, s, a))
  {
    AfterSnoc(cfg, Boot, run, a);
  }

  const ID: JobId := "a"

  /** A state with this one job, listed, recorded and in this phase. */
  ghost function Alone(j: Job, worker: Phase, submitting: set<JobId>, queue: seq<JobId>): System {
    System(1.0, {ID}, map[ID := j], {ID}, map[ID := j], {ID}, submitting, queue, [], worker, {}, {}, {}, {})
  }

  lemma Entering(cfg: Config, fromBucket: bool) returns (run: seq<Action>)
    requires cfg.queueMax >= 0
    ensures Reaches(cfg, run, Alone(Fresh(fromBucket, 1.0), Gated(ID), {}, []))
  {
    var j := Fresh(fromBucket, 1.0);
    run := [];
    assert Waiters(Boot) == {};
    OneStepOn(cfg, run, Boot, Happen(Register(ID, fromBucket)));
    run := run + [Happen(Register(ID, fromBucket))];
    assert RegisterStep(Boot, ID, fromBucket) == Alone(j, Idle, {ID}, []);
    OneStepOn(cfg, run, Alone(j, Idle, {ID}, []), Happen(Submit(ID)));
    run := run + [Happen(Submit(ID))];
    assert Happened(cfg, Alone(j, Idle, {ID}, []), Submit(ID)) == Alone(j, Idle, {}, [ID]);
    OneStepOn(cfg, run, Alone(j, Idle, {}, [ID]), Work(Pick));
    run := run + [Work(Pick)];
    assert PickStep(Alone(j, Idle, {}, [ID])) == Alone(j, Picked(ID), {}, []);
    OneStepOn(cfg, run, Alone(j, Picked(ID), {}, []), Work(Gate));
    run := run + [Work(Gate)];
    assert GateStep(Alone(j, Picked(ID), {}, [])) == Alone(j, Gated(ID), {}, []);
  }

  /** The running job, its result uploaded, which no save has recorded yet. */
  ghost function Uploading(worker: Phase): System {
    var j := Started(Fresh(true, 1.0));
    Alone(j.(uploaded := true), worker, {}, []).(disk := map[ID := j])
  }

  lemma Working(cfg: Config) returns (run: seq<Action>)
    requires cfg.queueMax >= 0
    ensures Reaches(cfg, run, Alone(Started(Fresh(true, 1.0)), Phase.Working(ID, true), {}, []))
  {
    var j := Started(Fresh(true, 1.0));
    run := Entering(cfg, true);
    var gated := Alone(Fresh(true, 1.0), Gated(ID), {}, []);
    OneStepOn(cfg, run, gated, Work(Start));
    run := run + [Work(Start)];
    assert GoneOn(cfg, gated, Start) == Alone(j, Launched(ID), {}, []);
    OneStepOn(cfg, run, Alone(j, Launched(ID), {}, []), Work(SetUp));
    run := run + [Work(SetUp)];
    OneStepOn(cfg, run, Alone(j, Phase.Working(ID, false), {}, []), Work(Report(true)));
    run := run + [Work(Report(true))];
    assert ReportStep(Alone(j, Phase.Working(ID, false), {}, []), true) == Alone(j, Phase.Working(ID, true), {}, []);
  }

  /** A completed job, the worker still in its handler. */
  ghost function Completed(needs: seq<string>): System {
    Alone(Committed(Started(Fresh(true, 1.0)).(uploaded := true), needs, 1.0), Recorded(ID), {}, [])
  }

  lemma Completing(cfg: Config, needs: seq<string>) returns (run: seq<Action>)
    requires cfg.queueMax >= 0
    ensures Reaches(cfg, run, Completed(needs))
  {
    run := Working(cfg);
    var w := Alone(Started(Fresh(true, 1.0)), Phase.Working(ID, true), {}, []);
    OneStepOn(cfg, run, w, Work(Upload));
    run := run + [Work(Upload)];
    assert UploadStep(w) == Uploading(Uploaded(ID));
    OneStepOn(cfg, run, Uploading(Uploaded(ID)), Work(LastLook));
    run := run + [Work(LastLook)];
    assert LastLookStep(Uploading(Uploaded(ID))) == Uploading(Committing(ID));
    OneStepOn(cfg, run, Uploading(Committing(ID)), Work(Commit(needs)));
    run := run + [Work(Commit(needs))];
    assert GoneOn(cfg, Uploading(Committing(ID)), Commit(needs)) == Completed(needs);
  }

  /** The handler of a waiting job dies at the gate: nothing will wake the job, and only the next start
      of the service puts it back. */
  lemma GateCanLoseAJob(cfg: Config) returns (s: System)
    requires cfg.maxAttempts >= 1 && cfg.queueMax >= 0
    ensures Reachable(cfg, s) && ID in s.mem && ID in s.heap && s.heap[ID].status.Queued? && s.worker.Idle?
    ensures ID in s.lost && Wakes(s, ID) == 0 && !Comes(s, ID)
    ensures CanHappen(cfg, s, Crash([ID])) && Wakes(Happened(cfg, s, Crash([ID])), ID) == 1
  {
    var run := Entering(cfg, true);
    var gated := Alone(Fresh(true, 1.0), Gated(ID), {}, []);
    OneStepOn(cfg, run, gated, Work(Die));
    s := gated.(worker := Idle, lost := {ID});
    assert GoneOn(cfg, gated, Die) == s;
    assert Reaches(cfg, run + [Work(Die)], s);
    NoJobIsStranded(cfg, s, ID);
    RestartRewakes(cfg, s, [ID], ID);
  }

  /** The handler of a job that was just started dies before its `try`: the job is listed as running, with
      nobody at work on it. */
  lemma StartedCanBeLost(cfg: Config) returns (s: System)
    requires cfg.maxAttempts >= 1 && cfg.queueMax >= 0
    ensures Reachable(cfg, s) && ID in s.mem && ID in s.heap && s.heap[ID].status.Running?
    ensures s.worker.Idle? && ID in s.lost
  {
    var run := Entering(cfg, true);
    var gated := Alone(Fresh(true, 1.0), Gated(ID), {}, []);
    OneStepOn(cfg, run, gated, Work(Start));
    run := run + [Work(Start)];
    var started := Alone(Started(Fresh(true, 1.0)), Launched(ID), {}, []);
    assert GoneOn(cfg, gated, Start) == started;
    OneStepOn(cfg, run, started, Work(Die));
    s := started.(worker := Idle, lost := {ID});
    assert GoneOn(cfg, started, Die) == s;
    assert Reaches(cfg, run + [Work(Die)], s);
  }

  /** A job gets done, and before the worker leaves the handler it can be reopened: every exception that
      `LifecycleOutcome` makes does occur. */
  lemma DoneIsReachable(cfg: Config) returns (s: System)
    requires cfg.maxAttempts >= 2 && cfg.queueMax >= 0
    ensures Reachable(cfg, s) && ID in s.mem && Listed(s, ID) && View(s, ID).status.Done? && !View(s, ID).cancel
    ensures Reopenable(cfg, s, ID)
  {
    var run := Completing(cfg, []);
    s := Completed([]);
    assert Reaches(cfg, run, s);
  }

  /** A done job is back in the queue, ... */
  lemma DoneCanBeUndone(cfg: Config) returns (s: System, t: System)
    requires cfg.maxAttempts >= 2 && cfg.queueMax >= 0
    ensures Reachable(cfg, s) && Listed(s, ID) && View(s, ID).status.Done?
    ensures CanFollow(cfg, s, t) && Listed(t, ID) && View(t, ID).status.Queued?
  {
    s := DoneIsReachable(cfg);
    ReachableInv(cfg, s);
    t := LateErrorUndoesTheOutcome(cfg, s, ID);
  }

  /** ... and while it waits there the sweeper may take it, though nobody asked to stop it. */
  lemma DoneCanBeSweptWhileItWaits(cfg: Config) returns (s: System, t: System)
    requires cfg.maxAttempts >= 2 && cfg.queueMax >= 0 && cfg.jobTtl != 0.0
    ensures Reachable(cfg, s) && Listed(s, ID) && View(s, ID).status.Done?
    ensures CanFollow(cfg, s, t) && SweptAlive(cfg, t, ID)
  {
    s := DoneIsReachable(cfg);
    ReachableInv(cfg, s);
    t := ReopenedIsSwept(cfg, s, ID);
  }

  /** A delete request let through for the done job comes to remove the waiting one. */
  lemma DoneCanBeDeletedWhileItWaits(cfg: Config) returns (s: System, t: System)
    requires cfg.maxAttempts >= 2 && cfg.queueMax >= 0
    ensures Reachable(cfg, s) && CanHappen(cfg, s, DeleteCheck(ID))
    ensures CanFollow(cfg, Happened(cfg, s, DeleteCheck(ID)), t) && DeletedAlive(cfg, t, ID)
  {
    s := DoneIsReachable(cfg);
    DeletedAliveExactlyWhenReopenable(cfg, s, ID);
    t :| CanFollow(cfg, Happened(cfg, s, DeleteCheck(ID)), t) && DeletedAlive(cfg, t, ID);
  }

  /** A job that a person approved is approved once more. */
  lemma ApprovedCanBeJudgedAgain(cfg: Config) returns (s: System)
    requires cfg.maxAttempts >= 2 && cfg.queueMax >= 0 && |cfg.retryDelays| > 0
    ensures Reachable(cfg, s) && ID in s.heap && s.heap[ID].status.Done? && s.heap[ID].reviewed.Approved?
    ensures CanBeJudged(cfg, s, ID)
  {
    var run := Completing(cfg, ["x"]);
    var r := Completed(["x"]);
    OneStepOn(cfg, run, r, Happen(Judge(ID, true)));
    s := Alone(Judged(r.heap[ID], true, 1.0), Recorded(ID), {}, []);
    assert Happened(cfg, r, Judge(ID, true)) == s;
    assert Reaches(cfg, run + [Happen(Judge(ID, true))], s);
    JudgedAgainExactlyWhenReopenable(cfg, s, ID);
  }

  /** A sweeper finds a review to be over, then the job is approved, and without any further look it is
      removed all the same, although its own time as a done job has only begun. */
  lemma ApprovedCanBeSwept(cfg: Config) returns (s: System, run: seq<Action>)
    requires cfg.maxAttempts >= 1 && cfg.queueMax >= 0 && cfg.jobTtl > 0.0 && cfg.reviewTtl > 0.0
    ensures Reachable(cfg, s) && CanHappen(cfg, s, SweepCheck(ID)) && View(s, ID).status.Review?
    ensures var looked := Happened(cfg, s, SweepCheck(ID));
            && ApprovedInBetween(cfg, looked, run, ID)
            && !Expired(cfg, View(After(cfg, looked, run), ID), After(cfg, looked, run).clock)
  {
    var before := Completing(cfg, ["x"]);
    var r := Completed(["x"]);
    var later := Happen(Tick(cfg.reviewTtl + 1.0));
    OneStepOn(cfg, before, r, later);
    s := r.(clock := r.clock + (cfg.reviewTtl + 1.0));
    assert Apply(cfg, r, later) == s;
    assert Reaches(cfg, before + [later], s);
    hide Reachable, Reaches;
    var looked := s.(sweeping := {ID});
    assert Happened(cfg, s, SweepCheck(ID)) == looked;
    run := [Happen(Judge(ID, true))];
    AfterSnoc(cfg, looked, [], run[0]);
    assert [] + run == run;
    var t := Put(looked, ID, Judged(s.heap[ID], true, s.clock));
    assert After(cfg, looked, run) == t;
  }

  lemma StillReachable(cfg: Config, s: System, t: System)
    requires Reachable(cfg, s) && CanFollow(cfg, s, t)
    ensures Reachable(cfg, t)
  {
    var run :| Reaches(cfg, run, s);
    RunThenFollows(cfg, Boot, run, t);
    var all :| Legal(cfg, Boot, all) && After(cfg, Boot, all) == t;
    assert Reaches(cfg, all, t);
  }

  lemma WaitsForARetry(cfg: Config, s: System, id: JobId)
    requires Reachable(cfg, s) && s.worker == Requeuing(id) && id in s.mem
    requires id in s.heap && s.heap[id].status.Queued? && !s.heap[id].cancel
    ensures Reviewable(cfg, s, id)
  {
    ReachableInv(cfg, s);
    assert JobInv(cfg, s, id);
  }

  /** The same happens to a job that waits again at the look, after a late error. */
  lemma WaitingCanBeSweptOnceApproved(cfg: Config) returns (s: System, run: seq<Action>)
    requires cfg.maxAttempts >= 2 && cfg.queueMax >= 0 && |cfg.retryDelays| > 0 && cfg.jobTtl != 0.0
    ensures Reachable(cfg, s) && CanHappen(cfg, s, SweepCheck(ID)) && View(s, ID).status.Queued?
    ensures ApprovedInBetween(cfg, Happened(cfg, s, SweepCheck(ID)), run, ID)
  {
    var done := DoneIsReachable(cfg);
    ReachableInv(cfg, done);
    s := ReopenedIsOver(cfg, done, ID);
    StillReachable(cfg, done, s);
    hide Reachable, CanFollow, ApprovedInBetween;
    WaitsForARetry(cfg, s, ID);
    SweepTakesApprovedExactlyWhen(cfg, s, ID);
    run :| ApprovedInBetween(cfg, Happened(cfg, s, SweepCheck(ID)), run, ID);
  }

  /** A cancelled job is started all the same when the request falls between its pick and its start:
      `cancelled` is not an ending the worker respects. */
  lemma CancelledCanBeStarted(cfg: Config) returns (s: System, t: System)
    requires cfg.maxAttempts >= 1 && cfg.queueMax >= 0
    ensures Reachable(cfg, s) && Listed(s, ID) && View(s, ID).status.Cancelled?
    ensures CanMove(cfg, s, Start) && t == Moved(cfg, s, Start) && Listed(t, ID) && View(t, ID).status.Running?
  {
    var j := Fresh(true, 1.0);
    var run := Entering(cfg, true);
    var gated := Alone(j, Gated(ID), {}, []);
    OneStepOn(cfg, run, gated, Happen(CancelCheck(ID)));
    var checked := gated.(cancelling := {ID});
    assert Happened(cfg, gated, CancelCheck(ID)) == checked;
    run := run + [Happen(CancelCheck(ID))];
    OneStepOn(cfg, run, checked, Happen(CancelAct(ID)));
    s := Put(checked, ID, Flagged(j, 1.0));
    assert Reaches(cfg, run + [Happen(CancelAct(ID))], s);
    t := Moved(cfg, s, Start);
  }
}

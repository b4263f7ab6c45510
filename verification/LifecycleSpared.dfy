/** What holds of a job as long as no error came after an outcome of this job was recorded; whatever
    errors there were on other jobs. */
module LifecycleSpared {
  import opened JobModel
  import opened Lifecycle
  import opened LifecycleInvariant
  import opened LifecycleSteps
  import opened LifecycleTheorems
  import opened LifecycleOutcome

  /** Verdict, reasons and status belong together. */
  ghost predicate VerdictOk(j: Job) {
    match j.status
    case Review => j.review != [] && j.reviewed.Undecided?
    case Done => if j.review == [] then j.reviewed.Undecided? else j.reviewed.Approved?
    case Failed => if j.review == [] then j.reviewed.Undecided? else j.reviewed.Rejected?
    case _ => j.review == [] && j.reviewed.Undecided?
  }

  ghost predicate RecordSound(j: Job) {
    VerdictOk(j) && (Live(j) && j.finished != 0.0 ==> j.cancel)
  }

  /** A job nobody may complete any more, and nobody is about to. */
  ghost predicate OutOfPlay(s: System, id: JobId)
    requires id in s.heap
  {
    Condemned(s.heap[id]) && !InWindow(s, id)
  }

  ghost predicate ObjectSound(cfg: Config, s: System, id: JobId)
    requires id in s.heap
  {
    var j := s.heap[id];
    && RecordSound(j)
    && (Live(j) && j.finished != 0.0 ==> !InWindow(s, id))
    && (id !in s.mem ==> Final(j) || OutOfPlay(s, id))
    && (id in s.deleting ==> j.status.Done? || j.status.Failed? || OutOfPlay(s, id))
    && (id in s.sweeping ==> Final(j) || OutOfPlay(s, id))
    && (id in s.sweeping && j.status.Review? ==> cfg.reviewTtl != 0.0)
    && (Holds(s, id) && s.worker.Failing? ==> j.status.Running?)
  }

  ghost predicate Sound(cfg: Config, s: System, id: JobId) {
    (id in s.heap ==> ObjectSound(cfg, s, id)) && (id in s.disk ==> RecordSound(s.disk[id]))
  }

  // ------------------------------------------------------------------ every step but the late error

  lemma PickKeepsSound(cfg: Config, s: System, id: JobId)
    requires Inv(cfg, s) && s.worker.Idle? && s.queue != [] && Sound(cfg, s, id)
    ensures Sound(cfg, PickStep(s), id)
  {
    assert JobInv(cfg, s, id);
    QueueTail(s.queue, id);
  }

  /** The moves that end with a report at most. */
  ghost predicate IsEarly(m: Move) {
    m.Gate? || m.LowDisk? || m.Defer? || m.Reschedule? || m.Start? || m.SetUp? || m.MakeDir? || m.Report?
  }

  lemma EarlyMoveKeepsSound(cfg: Config, s: System, m: Move, id: JobId)
    requires Holding(cfg, s, m) && Holds(s, id) && IsEarly(m) && Sound(cfg, s, id)
    ensures Sound(cfg, GoneOn(cfg, s, m), id)
  {
    assert JobInv(cfg, s, id);
  }

  /** Those of a failure. */
  ghost predicate IsFailing(m: Move) {
    m.Raise? || m.Fall? || m.BackOff? || m.RetryLater?
  }

  lemma FailingMoveKeepsSound(cfg: Config, s: System, m: Move, id: JobId)
    requires Holding(cfg, s, m) && Holds(s, id) && IsFailing(m) && Sound(cfg, s, id)
    ensures Sound(cfg, GoneOn(cfg, s, m), id)
  {
    assert JobInv(cfg, s, id);
  }

  lemma LateMoveKeepsSound(cfg: Config, s: System, m: Move, id: JobId)
    requires Holding(cfg, s, m) && Holds(s, id) && Sound(cfg, s, id)
    requires !IsEarly(m) && !IsFailing(m) && !m.LateRaise?
    ensures Sound(cfg, GoneOn(cfg, s, m), id)
  {
    assert JobInv(cfg, s, id);
  }

  lemma HeldKeepsSound(cfg: Config, s: System, m: Move, id: JobId)
    requires Holding(cfg, s, m) && Holds(s, id) && !m.LateRaise? && Sound(cfg, s, id)
    ensures Sound(cfg, GoneOn(cfg, s, m), id)
  {
    hide Holding, Sound, GoneOn;
    if IsEarly(m) {
      EarlyMoveKeepsSound(cfg, s, m, id);
    } else if IsFailing(m) {
      FailingMoveKeepsSound(cfg, s, m, id);
    } else {
      LateMoveKeepsSound(cfg, s, m, id);
    }
  }

  lemma MoveKeepsSound(cfg: Config, s: System, m: Move, id: JobId)
    requires Inv(cfg, s) && CanMove(cfg, s, m) && !RaisesLate(s, Work(m), id) && Sound(cfg, s, id)
    ensures Sound(cfg, Moved(cfg, s, m), id)
  {
    if s.worker.Idle? {
      PickKeepsSound(cfg, s, id);
    } else if Holds(s, id) {
      HeldKeepsSound(cfg, s, m, id);
    } else {
      OthersUntouched(cfg, s, m, id);
    }
  }

  lemma CrashKeepsSound(cfg: Config, s: System, order: seq<JobId>, id: JobId)
    requires Inv(cfg, s) && Sound(cfg, s, id)
    ensures Sound(cfg, Restarted(s, order), id)
  {
    assert JobInv(cfg, s, id);
  }

  lemma CancelAllKeepsSound(cfg: Config, s: System, id: JobId)
    requires Inv(cfg, s) && s.mem <= s.heap.Keys && Sound(cfg, s, id)
    ensures Sound(cfg, CancelAllStep(s), id)
  {
    assert JobInv(cfg, s, id);
  }

  lemma FlagsKeepSound(cfg: Config, s: System, e: Event, id: JobId)
    requires Inv(cfg, s) && CanHappen(cfg, s, e) && (e.CancelAct? || e.CancelOnDisk?) && Sound(cfg, s, id)
    ensures Sound(cfg, Happened(cfg, s, e), id)
  {
    assert JobInv(cfg, s, id);
  }

  lemma RemovalKeepsSound(cfg: Config, s: System, e: Event, id: JobId)
    requires Inv(cfg, s) && CanHappen(cfg, s, e) && Sound(cfg, s, id)
    requires e.DeleteCheck? || e.DeleteAct? || e.DeleteOnDisk? || e.SweepCheck? || e.SweepAct?
    ensures Sound(cfg, Happened(cfg, s, e), id)
  {
    assert JobInv(cfg, s, id);
  }

  lemma PassingEventKeepsSound(cfg: Config, s: System, e: Event, id: JobId)
    requires Inv(cfg, s) && CanHappen(cfg, s, e) && Sound(cfg, s, id)
    requires e.Tick? || e.Submit? || e.Abandon? || e.Fire? || e.CancelCheck?
    ensures Sound(cfg, Happened(cfg, s, e), id)
  {
  }

  lemma OtherEventKeepsSound(cfg: Config, s: System, e: Event, id: JobId)
    requires Inv(cfg, s) && CanHappen(cfg, s, e) && Sound(cfg, s, id)
    requires e.Register? || e.Judge?
    ensures Sound(cfg, Happened(cfg, s, e), id)
  {
    assert JobInv(cfg, s, id);
  }

  lemma EventKeepsSound(cfg: Config, s: System, e: Event, id: JobId)
    requires Inv(cfg, s) && CanHappen(cfg, s, e) && Sound(cfg, s, id)
    ensures Sound(cfg, Happened(cfg, s, e), id)
  {
    hide Sound, Inv;
    match e {
      case Crash(order) => CrashKeepsSound(cfg, s, order, id);
      case CancelAll => CancelAllKeepsSound(cfg, s, id);
      case CancelAct(_) => FlagsKeepSound(cfg, s, e, id);
      case CancelOnDisk(_) => FlagsKeepSound(cfg, s, e, id);
      case DeleteCheck(_) => RemovalKeepsSound(cfg, s, e, id);
      case DeleteAct(_) => RemovalKeepsSound(cfg, s, e, id);
      case DeleteOnDisk(_) => RemovalKeepsSound(cfg, s, e, id);
      case SweepCheck(_) => RemovalKeepsSound(cfg, s, e, id);
      case SweepAct(_) => RemovalKeepsSound(cfg, s, e, id);
      case Register(_, _) => OtherEventKeepsSound(cfg, s, e, id);
      case Judge(_, _) => OtherEventKeepsSound(cfg, s, e, id);
      case _ => PassingEventKeepsSound(cfg, s, e, id);
    }
  }

  lemma {:induction false} RunKeepsSound(cfg: Config, s: System, run: seq<Action>, id: JobId)
    requires Inv(cfg, s) && Legal(cfg, s, run) && Spares(cfg, s, run, id) && Sound(cfg, s, id)
    ensures Sound(cfg, After(cfg, s, run), id)
    decreases |run|
  {
    if run != [] {
      match run[0] {
        case Work(m) => MoveKeepsSound(cfg, s, m, id);
        case Happen(e) => EventKeepsSound(cfg, s, e, id);
      }
      StepKeepsInv(cfg, s, run[0]);
      RunKeepsSound(cfg, Apply(cfg, s, run[0]), run[1..], id);
    }
  }

  // ------------------------------------------------------------------ what follows

  /** Reached by a run without a late error on this job. */
  ghost predicate ReachedSparing(cfg: Config, s: System, id: JobId) {
    cfg.maxAttempts >= 1
    && exists run :: Reaches(cfg, run, s) && Spares(cfg, Boot, run, id)
  }

  lemma SparedIsSound(cfg: Config, s: System, id: JobId)
    requires ReachedSparing(cfg, s, id)
    ensures Inv(cfg, s) && Sound(cfg, s, id)
  {
    var run :| Reaches(cfg, run, s) && Spares(cfg, Boot, run, id);
    BootInv(cfg);
    RunKeepsInv(cfg, Boot, run);
    RunKeepsSound(cfg, Boot, run, id);
  }

  /** A job under review is undecided, a done one clean or approved, a rejected one failed, and nothing
      else carries reasons or a verdict. */
  lemma VerdictsAreConsistent(cfg: Config, s: System, id: JobId)
    requires ReachedSparing(cfg, s, id) && Listed(s, id)
    ensures VerdictOk(View(s, id))
  {
    SparedIsSound(cfg, s, id);
  }

  /** A delete request checks the status before it takes the lock; still it removes neither a job
      under review nor one the worker could complete. */
  lemma DeleteSparesWork(cfg: Config, s: System, id: JobId)
    requires ReachedSparing(cfg, s, id) && id in s.mem && CanHappen(cfg, s, DeleteAct(id))
    ensures id in s.heap && !s.heap[id].status.Review?
    ensures Live(s.heap[id]) ==> s.heap[id].cancel && !InWindow(s, id)
  {
    SparedIsSound(cfg, s, id);
    assert JobInv(cfg, s, id);
  }

  /** The sweeper looks at nothing but the time of an ending, and has no lock; still it removes no job
      the worker could complete, and one under review only when it is told to. */
  lemma SweepSparesWork(cfg: Config, s: System, id: JobId)
    requires ReachedSparing(cfg, s, id) && id in s.mem && CanHappen(cfg, s, SweepAct(id))
    ensures id in s.heap && (Live(s.heap[id]) ==> s.heap[id].cancel && !InWindow(s, id))
    ensures s.heap[id].status.Review? ==> cfg.reviewTtl != 0.0
  {
    SparedIsSound(cfg, s, id);
    assert JobInv(cfg, s, id);
  }

  /** Of the disruptions of a review only the sweeper's can happen, when it is told to take reviews. */
  lemma ReviewIsUndisturbed(cfg: Config, s: System, a: Action, id: JobId)
    requires ReachedSparing(cfg, s, id) && Enabled(cfg, s, a) && id in s.heap && s.heap[id].status.Review?
    ensures Disrupts(s, a, id) ==> a == Happen(SweepAct(id)) && cfg.reviewTtl != 0.0
  {
    SparedIsSound(cfg, s, id);
    assert JobInv(cfg, s, id);
  }

  // ------------------------------------------------------------------ one verdict

  /** Wherever the job is found, it carries this verdict. */
  ghost predicate DecidedAs(s: System, id: JobId, d: Decision) {
    && id in s.used
    && (id in s.heap ==> s.heap[id].reviewed == d)
    && (id in s.disk ==> s.disk[id].reviewed == d)
  }

  lemma MoveKeepsVerdict(cfg: Config, s: System, m: Move, id: JobId, d: Decision)
    requires Inv(cfg, s) && CanMove(cfg, s, m) && DecidedAs(s, id, d)
    ensures DecidedAs(Moved(cfg, s, m), id, d)
  {
    assert JobInv(cfg, s, id);
    MoveCarries(cfg, s, m, id);
  }

  lemma EventKeepsVerdict(cfg: Config, s: System, e: Event, id: JobId, d: Decision)
    requires Inv(cfg, s) && CanHappen(cfg, s, e) && Sound(cfg, s, id) && !d.Undecided? && DecidedAs(s, id, d)
    ensures DecidedAs(Happened(cfg, s, e), id, d) && !IsVerdictOn(Happen(e), id)
  {
    assert JobInv(cfg, s, id);
  }

  lemma {:induction false} RunKeepsVerdict(cfg: Config, s: System, run: seq<Action>, id: JobId, d: Decision)
    requires Inv(cfg, s) && Sound(cfg, s, id) && Legal(cfg, s, run) && Spares(cfg, s, run, id)
    requires !d.Undecided? && DecidedAs(s, id, d)
    ensures DecidedAs(After(cfg, s, run), id, d)
    ensures forall i :: 0 <= i < |run| ==> !IsVerdictOn(run[i], id)
    decreases |run|
  {
    if run != [] {
      match run[0] {
        case Work(m) =>
          MoveKeepsVerdict(cfg, s, m, id, d);
          MoveKeepsSound(cfg, s, m, id);
        case Happen(e) =>
          EventKeepsVerdict(cfg, s, e, id, d);
          EventKeepsSound(cfg, s, e, id);
      }
      StepKeepsInv(cfg, s, run[0]);
      RunKeepsVerdict(cfg, Apply(cfg, s, run[0]), run[1..], id, d);
      forall i | 0 <= i < |run| ensures !IsVerdictOn(run[i], id) {
        if i > 0 { assert run[i] == run[1..][i - 1]; }
      }
    }
  }

  /** A job is judged at most once: after a verdict no further one is taken in any run without a late
      error on it, and the recorded one never changes. */
  lemma JudgedAtMostOnce(cfg: Config, s: System, run: seq<Action>, id: JobId)
    requires ReachedSparing(cfg, s, id) && Listed(s, id) && !View(s, id).reviewed.Undecided?
    requires Legal(cfg, s, run) && Spares(cfg, s, run, id)
    ensures forall i :: 0 <= i < |run| ==> !IsVerdictOn(run[i], id)
    ensures var t := After(cfg, s, run);
            Listed(t, id) ==> View(t, id).reviewed == View(s, id).reviewed
  {
    SparedIsSound(cfg, s, id);
    assert JobInv(cfg, s, id);
    RunKeepsVerdict(cfg, s, run, id, View(s, id).reviewed);
  }
}

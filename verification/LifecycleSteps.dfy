/** Every step keeps the invariant, and so does every run. */
module LifecycleSteps {
  import opened JobModel
  import opened Lifecycle
  import opened LifecycleInvariant

  /** The step from `s` to `t` did nothing to job `id`, though time may have passed. */
  ghost predicate Bystander(s: System, t: System, id: JobId) {
    && s.clock <= t.clock
    && (id in s.heap <==> id in t.heap) && (id in s.heap ==> s.heap[id] == t.heap[id])
    && (id in s.disk <==> id in t.disk) && (id in s.disk ==> s.disk[id] == t.disk[id])
    && (id in s.mem <==> id in t.mem) && (id in s.dirs ==> id in t.dirs) && (id in s.used ==> id in t.used)
    && (id in t.submitting ==> id in s.submitting) && (id in t.queue ==> id in s.queue)
    && (id in t.deleting ==> id in s.deleting) && (id in t.cancelling ==> id in s.cancelling)
    && (id in t.sweeping ==> id in s.sweeping) && (id in t.lost <==> id in s.lost)
    && Wakes(s, id) == Wakes(t, id) && (Holds(s, id) <==> Holds(t, id))
    && (Holds(s, id) ==> s.worker == t.worker)
  }

  lemma BystanderKeeps(cfg: Config, s: System, t: System, id: JobId)
    requires JobInv(cfg, s, id) && Bystander(s, t, id)
    ensures JobInv(cfg, t, id)
  {
  }

  // ------------------------------------------------------------------ the worker goes on with its job

  /** The worker went on from `s` to `t` with the job it holds, changing only that job's object and
      record and its own phase. */
  ghost predicate WentOn(s: System, t: System) {
    && !s.worker.Idle? && s.worker.job in s.heap && s.worker.job in t.heap
    && var id := s.worker.job;
       && t == s.(heap := s.heap[id := t.heap[id]], disk := t.disk, dirs := t.dirs, worker := t.worker)
       && (t.dirs == s.dirs || t.dirs == s.dirs + {id})
       && (t.disk == s.disk || (id in s.dirs && t.disk == s.disk[id := t.heap[id]]))
       && (t.worker.Idle? || t.worker.job == id)
  }

  lemma WentOnKeeps(cfg: Config, s: System, t: System, id: JobId)
    requires JobInv(cfg, s, id) && WentOn(s, t)
    requires id == s.worker.job ==>
               Standing(cfg, t, id) && (if t.worker.Idle? then !Live(t.heap[id]) else PhaseOk(cfg, t, t.heap[id]))
    ensures JobInv(cfg, t, id)
  {
  }

  /** What has to be shown of a step inside the handler. */
  ghost predicate GoesWell(cfg: Config, s: System, t: System) {
    && WentOn(s, t)
    && Standing(cfg, t, s.worker.job)
    && (if t.worker.Idle? then !Live(t.heap[s.worker.job]) else PhaseOk(cfg, t, t.heap[s.worker.job]))
  }

  ghost predicate Holding(cfg: Config, s: System, m: Move) {
    Inv(cfg, s) && !s.worker.Idle? && s.worker.job in s.heap && CanGoOn(cfg, s, m)
  }

  /** Before the start: the appointment has come, ... */
  lemma GateGoesWell(cfg: Config, s: System, m: Move)
    requires Holding(cfg, s, m) && (m.Gate? || m.LowDisk? || m.Start?)
    ensures GoesWell(cfg, s, GoneOn(cfg, s, m))
  {
    assert JobInv(cfg, s, s.worker.job);
  }

  lemma PostponedIsOk(cfg: Config, j: Job, at: real)
    requires RecordOk(cfg, j) && at > 0.0 && (j.status.Queued? || j.status.Cancelled?) && j.attempts < cfg.maxAttempts
    ensures RecordOk(cfg, Postponed(cfg, j, at))
  {
  }

  /** ... or the job is postponed. */
  lemma DeferGoesWell(cfg: Config, s: System)
    requires Inv(cfg, s) && s.worker.Deferring? && s.worker.job in s.heap
    ensures GoesWell(cfg, s, DeferStep(cfg, s))
  {
    assert JobInv(cfg, s, s.worker.job);
    PostponedIsOk(cfg, s.heap[s.worker.job], s.worker.at);
    hide RecordOk;
  }

  lemma WorkGoesWell(cfg: Config, s: System, m: Move)
    requires Holding(cfg, s, m) && (m.SetUp? || m.MakeDir? || m.Report? || m.Upload? || m.LastLook? || m.Direct?)
    ensures GoesWell(cfg, s, GoneOn(cfg, s, m))
  {
    assert JobInv(cfg, s, s.worker.job);
  }

  lemma EndGoesWell(cfg: Config, s: System, m: Move)
    requires Holding(cfg, s, m) && (m.Commit? || m.Finish? || m.Stop?)
    ensures GoesWell(cfg, s, GoneOn(cfg, s, m))
  {
    assert JobInv(cfg, s, s.worker.job);
  }

  lemma FallGoesWell(cfg: Config, s: System)
    requires Inv(cfg, s) && s.worker.Failing? && s.worker.job in s.heap
    ensures GoesWell(cfg, s, FallStep(cfg, s))
  {
    assert JobInv(cfg, s, s.worker.job);
  }

  lemma FailureGoesWell(cfg: Config, s: System, m: Move)
    requires Holding(cfg, s, m) && (m.Raise? || m.LateRaise? || m.BackOff?)
    ensures GoesWell(cfg, s, GoneOn(cfg, s, m))
  {
    assert JobInv(cfg, s, s.worker.job);
  }

  lemma GoOnGoesWell(cfg: Config, s: System, m: Move)
    requires Holding(cfg, s, m) && !m.Reschedule? && !m.RetryLater? && !m.Die?
    ensures GoesWell(cfg, s, GoneOn(cfg, s, m))
  {
    if m.Defer? {
      DeferGoesWell(cfg, s);
    } else if m.Fall? {
      FallGoesWell(cfg, s);
    } else if m.Gate? || m.LowDisk? || m.Start? {
      GateGoesWell(cfg, s, m);
    } else if m.SetUp? || m.MakeDir? || m.Report? || m.Upload? || m.LastLook? || m.Direct? {
      WorkGoesWell(cfg, s, m);
    } else if m.Commit? || m.Finish? || m.Stop? {
      EndGoesWell(cfg, s, m);
    } else {
      FailureGoesWell(cfg, s, m);
    }
  }

  /** When the handler dies, the wake-up it was is gone. */
  lemma DeathKeeps(cfg: Config, s: System, id: JobId)
    requires Inv(cfg, s) && !s.worker.Idle? && s.worker.job in s.heap && Unguarded(s.worker)
    ensures JobInv(cfg, GoneOn(cfg, s, Die), id)
  {
    var t := GoneOn(cfg, s, Die);
    assert JobInv(cfg, s, id);
    assert Wakes(t, id) == Wakes(s, id) - (if Holds(s, id) then 1 else 0);
    if id in s.heap {
      assert Standing(cfg, t, id);
    }
  }

  /** Handing the held job over to the executor or to a timer keeps its one wake-up. */
  lemma HandOverWakes(s: System, delay: real, id: JobId)
    requires !s.worker.Idle?
    ensures var t := ScheduleAt(s, s.worker.job, delay).(worker := Idle);
            Wakes(t, id) == Wakes(s, id) && !Holds(t, id)
            && (id in t.queue ==> id in s.queue || (delay <= 0.0 && id == s.worker.job))
  {
    QueueSnoc(s.queue, s.worker.job, id);
    TimerSnoc(s.timers, Timer(s.worker.job, s.clock + delay), id);
  }

  lemma HandOverKeeps(cfg: Config, s: System, delay: real, id: JobId)
    requires Inv(cfg, s) && (s.worker.DeferSaved? || s.worker.BackingOff?) && s.worker.job in s.heap
    requires delay == if s.worker.DeferSaved? then cfg.deferSec else s.worker.delay
    ensures JobInv(cfg, ScheduleAt(s, s.worker.job, delay).(worker := Idle), id)
  {
    var t := ScheduleAt(s, s.worker.job, delay).(worker := Idle);
    assert JobInv(cfg, s, id);
    HandOverWakes(s, delay, id);
    if id in s.heap {
      assert Standing(cfg, t, id);
      assert Awaited(cfg, t, id);
    }
  }

  /** Whoever is at the head of the queue waits, or was cancelled while it waited. */
  lemma HeadIsAwaited(cfg: Config, s: System)
    requires Inv(cfg, s) && s.worker.Idle? && s.queue != []
    ensures s.queue[0] in s.heap && Wakes(s, s.queue[0]) == 1
  {
    QueueTail(s.queue, s.queue[0]);
    assert JobInv(cfg, s, s.queue[0]);
  }

  lemma PickKeepsHead(cfg: Config, s: System)
    requires Inv(cfg, s) && s.worker.Idle? && s.queue != []
    ensures JobInv(cfg, PickStep(s), s.queue[0])
  {
    var t, id := PickStep(s), s.queue[0];
    HeadIsAwaited(cfg, s);
    assert JobInv(cfg, s, id);
    QueueTail(s.queue, id);
    assert Standing(cfg, t, id);
  }

  lemma PickPassesOthers(s: System, id: JobId)
    requires s.worker.Idle? && s.queue != [] && id != s.queue[0]
    ensures Bystander(s, PickStep(s), id)
  {
    QueueTail(s.queue, id);
  }

  lemma PickKeeps(cfg: Config, s: System, id: JobId)
    requires Inv(cfg, s) && s.worker.Idle? && s.queue != []
    ensures JobInv(cfg, PickStep(s), id)
  {
    if id == s.queue[0] {
      PickKeepsHead(cfg, s);
    } else {
      PickPassesOthers(s, id);
      assert JobInv(cfg, s, id);
      BystanderKeeps(cfg, s, PickStep(s), id);
    }
  }

  // ------------------------------------------------------------------ everybody else

  lemma RegisterKeeps(cfg: Config, s: System, n: JobId, fromBucket: bool, id: JobId)
    requires Inv(cfg, s) && n !in s.used
    ensures JobInv(cfg, RegisterStep(s, n, fromBucket), id)
  {
    var t := RegisterStep(s, n, fromBucket);
    assert JobInv(cfg, s, id);
    if id == n {
      assert Wakes(t, id) == 1;
    } else {
      assert Bystander(s, t, id);
      BystanderKeeps(cfg, s, t, id);
    }
  }

  lemma TickKeeps(cfg: Config, s: System, d: real, id: JobId)
    requires Inv(cfg, s) && d > 0.0
    ensures JobInv(cfg, s.(clock := s.clock + d), id)
  {
    assert JobInv(cfg, s, id);
    assert Bystander(s, s.(clock := s.clock + d), id);
  }

  lemma SubmitKeeps(cfg: Config, s: System, n: JobId, id: JobId)
    requires Inv(cfg, s) && n in s.submitting
    ensures JobInv(cfg, s.(submitting := s.submitting - {n}, queue := s.queue + [n]), id)
  {
    var t := s.(submitting := s.submitting - {n}, queue := s.queue + [n]);
    assert JobInv(cfg, s, id);
    QueueSnoc(s.queue, n, id);
    assert Wakes(t, id) == Wakes(s, id);
    if id in s.heap {
      assert Standing(cfg, t, id);
    }
  }

  /** ... or the request thread dies, and its wake-up is gone. */
  lemma AbandonKeeps(cfg: Config, s: System, n: JobId, id: JobId)
    requires Inv(cfg, s) && n in s.submitting
    ensures JobInv(cfg, s.(submitting := s.submitting - {n}, lost := s.lost + {n}), id)
  {
    var t := s.(submitting := s.submitting - {n}, lost := s.lost + {n});
    assert JobInv(cfg, s, id);
    assert Wakes(t, id) == Wakes(s, id) - (if id == n then 1 else 0);
    if id in s.heap {
      assert Standing(cfg, t, id);
    }
  }

  lemma FireKeeps(cfg: Config, s: System, k: nat, id: JobId)
    requires Inv(cfg, s) && CanHappen(cfg, s, Fire(k))
    ensures JobInv(cfg, Happened(cfg, s, Fire(k)), id)
  {
    var t := Happened(cfg, s, Fire(k));
    assert JobInv(cfg, s, id);
    TimerOwner(s.timers, k);
    TimerRemoved(s.timers, k, id);
    QueueSnoc(s.queue, s.timers[k].job, id);
    assert Wakes(t, id) == Wakes(s, id);
    if id in s.heap {
      assert Standing(cfg, t, id);
    }
  }

  /** A step about one job that leaves every wake-up alone. */
  ghost predicate OnlyTouches(s: System, t: System, n: JobId) {
    && t == s.(heap := t.heap, mem := t.mem, disk := t.disk, dirs := t.dirs,
               cancelling := t.cancelling, deleting := t.deleting, sweeping := t.sweeping)
    && t.heap - {n} == s.heap - {n} && t.disk - {n} == s.disk - {n}
    && t.mem - {n} == s.mem - {n} && t.dirs - {n} == s.dirs - {n}
    && t.cancelling - {n} == s.cancelling - {n} && t.deleting - {n} == s.deleting - {n}
    && t.sweeping - {n} == s.sweeping - {n}
  }

  lemma OneJobKeeps(cfg: Config, s: System, t: System, n: JobId, id: JobId)
    requires JobInv(cfg, s, id) && JobInv(cfg, t, n) && OnlyTouches(s, t, n)
    ensures JobInv(cfg, t, id)
  {
    if id != n {
      assert id in t.heap <==> id in t.heap - {n};
      assert id in s.heap <==> id in s.heap - {n};
      assert id in t.disk <==> id in t.disk - {n};
      assert id in s.disk <==> id in s.disk - {n};
      assert id in t.mem <==> id in t.mem - {n};
      assert id in t.dirs <==> id in t.dirs - {n};
      assert id in t.cancelling <==> id in t.cancelling - {n};
      assert id in t.deleting <==> id in t.deleting - {n};
      assert id in t.sweeping <==> id in t.sweeping - {n};
      assert Bystander(s, t, id);
      BystanderKeeps(cfg, s, t, id);
    }
  }

  lemma RequestKeeps(cfg: Config, s: System, e: Event)
    requires Inv(cfg, s) && CanHappen(cfg, s, e)
    requires e.CancelCheck? || e.DeleteCheck? || e.SweepCheck? || e.CancelOnDisk?
    ensures JobInv(cfg, Happened(cfg, s, e), e.id)
  {
    assert JobInv(cfg, s, e.id);
  }

  lemma RemovalKeeps(cfg: Config, s: System, e: Event)
    requires Inv(cfg, s) && CanHappen(cfg, s, e) && (e.DeleteAct? || e.DeleteOnDisk? || e.SweepAct?)
    ensures JobInv(cfg, Happened(cfg, s, e), e.id)
  {
    assert JobInv(cfg, s, e.id);
  }

  lemma VerdictKeeps(cfg: Config, s: System, id: JobId, approve: bool)
    requires Inv(cfg, s) && CanHappen(cfg, s, Judge(id, approve))
    ensures JobInv(cfg, Put(s, id, Judged(s.heap[id], approve, s.clock)), id)
  {
    var t := Put(s, id, Judged(s.heap[id], approve, s.clock));
    assert JobInv(cfg, s, id);
    assert Wakes(t, id) == Wakes(s, id);
    assert Standing(cfg, t, id);
  }

  lemma FlagKeeps(cfg: Config, s: System, id: JobId)
    requires Inv(cfg, s) && id in s.heap
    ensures JobInv(cfg, Put(s, id, Flagged(s.heap[id], s.clock)), id)
  {
    var t := Put(s, id, Flagged(s.heap[id], s.clock));
    assert JobInv(cfg, s, id);
    assert Wakes(t, id) == Wakes(s, id);
    assert Standing(cfg, t, id);
  }

  ghost predicate IsOneJobEvent(e: Event) {
    || e.CancelCheck? || e.DeleteCheck? || e.CancelOnDisk? || e.DeleteAct? || e.DeleteOnDisk?
    || e.SweepCheck? || e.SweepAct? || e.CancelAct? || e.Judge?
  }

  lemma OneJobEventTouches(cfg: Config, s: System, e: Event)
    requires CanHappen(cfg, s, e) && IsOneJobEvent(e)
    ensures OnlyTouches(s, Happened(cfg, s, e), e.id)
  {
  }

  lemma OneJobEventKeeps(cfg: Config, s: System, e: Event, id: JobId)
    requires Inv(cfg, s) && CanHappen(cfg, s, e)
    requires IsOneJobEvent(e)
    ensures JobInv(cfg, Happened(cfg, s, e), id)
  {
    OneJobEventTouches(cfg, s, e);
    match e {
      case Judge(n, approve) => VerdictKeeps(cfg, s, n, approve);
      case CancelAct(n) => FlagKeeps(cfg, s, n);
      case CancelCheck(_) => RequestKeeps(cfg, s, e);
      case DeleteCheck(_) => RequestKeeps(cfg, s, e);
      case SweepCheck(_) => RequestKeeps(cfg, s, e);
      case CancelOnDisk(_) => RequestKeeps(cfg, s, e);
      case _ => RemovalKeeps(cfg, s, e);
    }
    assert JobInv(cfg, s, id);
    OneJobKeeps(cfg, s, Happened(cfg, s, e), e.id, id);
  }

  lemma CancelAllKeeps(cfg: Config, s: System, id: JobId)
    requires Inv(cfg, s) && CanHappen(cfg, s, CancelAll)
    ensures JobInv(cfg, CancelAllStep(s), id)
  {
    assert JobInv(cfg, s, id);
    assert Wakes(CancelAllStep(s), id) == Wakes(s, id);
  }

  // ------------------------------------------------------------------ restart

  /** A sequence without repetitions holds each of its elements once. */
  lemma DistinctOnce(q: seq<JobId>, id: JobId)
    requires forall i, k :: 0 <= i < k < |q| ==> q[i] != q[k]
    ensures multiset(q)[id] == if id in q then 1 else 0
  {
    if q != [] {
      QueueTail(q, id);
      DistinctOnce(q[1..], id);
    }
  }

  lemma CrashKeeps(cfg: Config, s: System, order: seq<JobId>, id: JobId)
    requires Inv(cfg, s) && ResumeOrder(s, order)
    ensures JobInv(cfg, Restarted(s, order), id)
  {
    assert JobInv(cfg, s, id);
    DistinctOnce(order, id);
    var t := Restarted(s, order);
    assert Owners(t.timers) == [];
    assert Wakes(t, id) == if id in order then 1 else 0;
    assert id in order <==> id in ToResume(s);
  }

  // ------------------------------------------------------------------ timers

  /** A job with a timer is not held by the worker. */
  lemma TimedIsNotHeld(cfg: Config, s: System, k: nat)
    requires Inv(cfg, s) && k < |s.timers|
    ensures s.timers[k].job in s.heap && !Holds(s, s.timers[k].job)
  {
    TimerOwner(s.timers, k);
    assert JobInv(cfg, s, s.timers[k].job);
  }

  lemma MoveTimersOk(cfg: Config, s: System, m: Move)
    requires Inv(cfg, s) && CanMove(cfg, s, m)
    ensures TimersOk(Moved(cfg, s, m))
  {
    var t := Moved(cfg, s, m);
    forall k | 0 <= k < |t.timers|
      ensures t.timers[k].job in t.heap && t.heap[t.timers[k].job].notBefore <= t.timers[k].due
    {
      if k < |s.timers| {
        TimedIsNotHeld(cfg, s, k);
        assert t.timers[k] == s.timers[k];
      } else {
        assert m.Reschedule? || m.RetryLater?;
        assert JobInv(cfg, s, s.worker.job);
      }
    }
  }

  lemma EventTimersOk(cfg: Config, s: System, e: Event)
    requires Inv(cfg, s) && CanHappen(cfg, s, e)
    ensures TimersOk(Happened(cfg, s, e))
  {
    var t := Happened(cfg, s, e);
    if !e.Crash? {
      forall k | 0 <= k < |t.timers|
        ensures t.timers[k].job in t.heap && t.heap[t.timers[k].job].notBefore <= t.timers[k].due
      {
        var i :| 0 <= i < |s.timers| && s.timers[i] == t.timers[k];
        assert JobInv(cfg, s, s.timers[i].job);
      }
    }
  }

  // ------------------------------------------------------------------ the invariant over runs

  lemma MoveKeepsInv(cfg: Config, s: System, m: Move)
    requires Inv(cfg, s) && CanMove(cfg, s, m)
    ensures Inv(cfg, Moved(cfg, s, m))
  {
    MoveTimersOk(cfg, s, m);
    forall id ensures JobInv(cfg, Moved(cfg, s, m), id) {
      assert JobInv(cfg, s, id);
      if s.worker.Idle? {
        PickKeeps(cfg, s, id);
      } else if m.Reschedule? {
        HandOverKeeps(cfg, s, cfg.deferSec, id);
      } else if m.RetryLater? {
        HandOverKeeps(cfg, s, s.worker.delay, id);
      } else if m.Die? {
        DeathKeeps(cfg, s, id);
      } else {
        GoOnGoesWell(cfg, s, m);
        WentOnKeeps(cfg, s, GoneOn(cfg, s, m), id);
      }
    }
  }

  lemma EventKeepsInv(cfg: Config, s: System, e: Event)
    requires Inv(cfg, s) && CanHappen(cfg, s, e)
    ensures Inv(cfg, Happened(cfg, s, e))
  {
    EventTimersOk(cfg, s, e);
    forall id ensures JobInv(cfg, Happened(cfg, s, e), id) {
      match e
      case Tick(d) => TickKeeps(cfg, s, d, id);
      case Register(n, fromBucket) => RegisterKeeps(cfg, s, n, fromBucket, id);
      case Submit(n) => SubmitKeeps(cfg, s, n, id);
      case Abandon(n) => AbandonKeeps(cfg, s, n, id);
      case Fire(k) => FireKeeps(cfg, s, k, id);
      case CancelAll => CancelAllKeeps(cfg, s, id);
      case Crash(order) => CrashKeeps(cfg, s, order, id);
      case _ => OneJobEventKeeps(cfg, s, e, id);
    }
  }

  /** One step, whoever takes it, keeps the invariant of every job. */
  lemma StepKeepsInv(cfg: Config, s: System, a: Action)
    requires Inv(cfg, s) && Enabled(cfg, s, a)
    ensures Inv(cfg, Apply(cfg, s, a))
  {
    match a
    case Work(m) => MoveKeepsInv(cfg, s, m);
    case Happen(e) => EventKeepsInv(cfg, s, e);
  }

  lemma BootInv(cfg: Config)
    requires cfg.maxAttempts >= 1
    ensures Inv(cfg, Boot)
  {
  }

  lemma {:induction false} RunKeepsInv(cfg: Config, s: System, run: seq<Action>)
    requires Inv(cfg, s) && Legal(cfg, s, run)
    ensures Inv(cfg, After(cfg, s, run))
    decreases |run|
  {
    if run != [] {
      StepKeepsInv(cfg, s, run[0]);
      RunKeepsInv(cfg, Apply(cfg, s, run[0]), run[1..]);
    }
  }
}

/** Any interleaving of all the threads, run on the objects.

    Which thread goes on is not up to the service, so the wishes of the scheduler are an input: what
    is not possible when its turn comes is passed over. */
module ServiceRuns {
  import opened JobModel
  import opened Lifecycle
  import opened LifecycleInvariant
  import opened LifecycleSteps
  import opened LifecycleTheorems
  import opened JobObjects
  import opened Service

  predicate CanGoOnWith(v: Server, m: Move)
    reads v, v.objects.Values
    requires !v.worker.Idle? && v.worker.job in v.objects
  {
    var w := v.worker;
    var j := v.objects[w.job];
    match m
    case Pick => false
    case Gate => w.Picked?
    case LowDisk => w.Gated?
    case Defer => w.Deferring?
    case Reschedule => w.DeferSaved?
    case Start => w.Gated?
    case SetUp => w.Launched?
    case MakeDir => w.Working?
    case Report(_) => w.Working? && !w.last
    case Upload => w.Working? && w.last && j.fromBucket
    case LastLook => w.Uploaded?
    case Direct => w.Working? && w.last && !j.fromBucket
    case Commit(_) => w.Committing?
    case Finish => w.Recorded?
    case LateRaise(_, _) => w.Recorded?
    case Raise(_, _) => w.Working? || w.Uploaded? || w.Committing?
    case Stop => w.Stopping?
    case Fall => w.Failing?
    case BackOff(delay) => w.Requeuing? && IsBackoff(v.cfg, j.attempts, delay)
    case RetryLater => w.BackingOff?
    case Die => !w.Working? && !w.Uploaded? && !w.Committing? && !w.Recorded?
  }

  /** Is it this thread's turn?  Looked up on the objects, and right. */
  predicate CanDoMove(v: Server, m: Move)
    reads v, v.objects.Values
    requires v.Valid()
    ensures CanDoMove(v, m) <==> CanMove(v.cfg, v.State(), m)
  {
    if v.worker.Idle? then m.Pick? && v.queue != []
    else v.worker.job in v.objects && CanGoOnWith(v, m)
  }

  predicate HasRoom(v: Server)
    reads v, v.objects.Values
    requires v.Valid()
    ensures HasRoom(v) <==> v.cfg.queueMax == 0 || |Waiters(v.State())| < v.cfg.queueMax
  {
    assert (set n | n in v.jobs && v.jobs[n].status == Queued) == Waiters(v.State());
    v.cfg.queueMax == 0 || |set n | n in v.jobs && v.jobs[n].status == Queued| < v.cfg.queueMax
  }

  predicate CanDoEvent(v: Server, e: Event)
    reads v, v.objects.Values
    requires v.Valid()
    ensures !e.Crash? ==> (CanDoEvent(v, e) <==> CanHappen(v.cfg, v.State(), e))
  {
    match e
    case Tick(d) => d > 0.0
    case Register(id, _) => id !in v.used && HasRoom(v)
    case Submit(id) => id in v.submitting
    case Abandon(id) => id in v.submitting
    case Fire(k) => k < |v.timers| && v.timers[k].due <= v.clock
    case CancelCheck(id) => id in v.jobs && Live(v.jobs[id].Record())
    case CancelAct(id) => id in v.cancelling && id in v.objects
    case CancelOnDisk(id) => id !in v.jobs && id in v.disk && Live(v.disk[id])
    case CancelAll => true
    case DeleteCheck(id) => id in v.jobs && !Live(v.jobs[id].Record()) && v.jobs[id].status != Review
    case DeleteAct(id) => id in v.deleting
    case DeleteOnDisk(id) => id !in v.jobs && id in v.disk && !Live(v.disk[id]) && v.disk[id].status != Review
    case Judge(id, _) => id in v.objects && v.objects[id].status == Review
    case SweepAct(id) => id in v.sweeping
    case SweepCheck(id) =>
      (match v.Find(id)
       case Missing => false
       case Found(j) => Expired(v.cfg, j, v.clock))
    case Crash(_) => true
  }

  // ------------------------------------------------------------------ one action

  /** The worker before and at its work. */
  method GoOnWorking(v: Server, m: Move)
    requires v.Ready(Work(m)) && !v.worker.Idle?
    requires m.Gate? || m.LowDisk? || m.Defer? || m.Start? || m.SetUp? || m.MakeDir? || m.Report? || m.Upload? || m.LastLook? || m.Direct?
    modifies v, v.objects.Values
    ensures v.Took(old(v.State()), Work(m)) && v.objects == old(v.objects)
  {
    hide Inv, Apply;
    var j := v.objects[v.worker.job];
    match m
    case Gate => var goOn := v.RunGate(j);
    case LowDisk => v.DecideToPostpone(j);
    case Defer => v.DeferJob(j, v.worker.at);
    case Start => v.StartJob(j);
    case SetUp => v.EnterGuard(j);
    case MakeDir => v.MakeFolder(j);
    case Report(last) => var stop := v.Progress(j, last);
    case Upload => v.RecordUpload(j);
    case LastLook => var stop := v.LastLookAt(j);
    case Direct => v.SkipUpload(j);
  }

  /** The worker at the end of its work. */
  method GoOnEnding(v: Server, m: Move)
    requires v.Ready(Work(m)) && !v.worker.Idle?
    requires m.Commit? || m.Finish? || m.LateRaise? || m.Raise? || m.Stop? || m.Die?
    modifies v, v.objects.Values
    ensures v.Took(old(v.State()), Work(m)) && v.objects == old(v.objects)
  {
    hide Inv, Apply;
    var j := v.objects[v.worker.job];
    match m
    case Commit(needs) => v.CommitJob(j, needs);
    case Finish => v.LeaveHandler(j);
    case LateRaise(p, t) => v.CatchLate(j, p, t);
    case Raise(p, t) => v.Catch(j, p, t);
    case Stop => v.StopJob(j);
    case Die => v.DieInHandler(j);
  }

  /** The worker after a failure, or a postponement. */
  method GoOnFailing(v: Server, m: Move)
    requires v.Ready(Work(m)) && !v.worker.Idle?
    requires m.Fall? || m.BackOff? || m.Reschedule? || m.RetryLater?
    modifies v, v.objects.Values
    ensures v.Took(old(v.State()), Work(m)) && v.objects == old(v.objects)
  {
    hide Inv, Apply;
    var j := v.objects[v.worker.job];
    match m
    case Fall => var retryable := v.FailOrRetry(j, v.worker.permanent, v.worker.transient);
    case BackOff(delay) => v.MakeAppointment(j, delay);
    case Reschedule => v.HandOver(v.worker.job, v.cfg.deferSec);
    case RetryLater => v.HandOver(v.worker.job, v.worker.delay);
  }

  method DoMove(v: Server, m: Move)
    requires v.Ready(Work(m))
    modifies v, v.objects.Values
    ensures v.Took(old(v.State()), Work(m)) && v.objects == old(v.objects)
  {
    hide Inv;
    if v.worker.Idle? {
      var j := v.RunPick();
    } else if m.Gate? || m.LowDisk? || m.Defer? || m.Start? || m.SetUp? || m.MakeDir? || m.Report? || m.Upload? || m.LastLook? || m.Direct? {
      GoOnWorking(v, m);
    } else if m.Fall? || m.BackOff? || m.Reschedule? || m.RetryLater? {
      GoOnFailing(v, m);
    } else {
      GoOnEnding(v, m);
    }
  }

  /** Time passes, a request thread submits its job or dies before that, a timer fires. */
  method Arrive(v: Server, e: Event)
    requires v.Ready(Happen(e)) && (e.Tick? || e.Submit? || e.Abandon? || e.Fire?)
    modifies v
    ensures v.Took(old(v.State()), Happen(e)) && v.objects == old(v.objects)
  {
    hide Inv;
    ghost var s := v.State();
    match e {
      case Tick(d) => v.clock := v.clock + d;
      case Submit(id) =>
        v.submitting := v.submitting - {id};
        v.queue := v.queue + [id];
      case Abandon(id) =>
        v.submitting := v.submitting - {id};
        v.lost := v.lost + {id};
      case Fire(k) =>
        v.queue := v.queue + [v.timers[k].job];
        v.timers := v.timers[..k] + v.timers[k + 1..];
    }
    assert v.Heap() == s.heap;
    v.StaysInOrder(s, Happen(e));
  }

  method RequestStop(v: Server, e: Event)
    requires v.Ready(Happen(e)) && (e.CancelCheck? || e.CancelAct? || e.CancelOnDisk? || e.CancelAll?)
    modifies v, v.objects.Values
    ensures v.Took(old(v.State()), Happen(e)) && v.objects == old(v.objects)
  {
    hide Inv, Apply;
    match e
    case CancelCheck(id) => var answer := v.CheckCancel(id);
    case CancelAct(id) => v.CancelJob(v.objects[id]);
    case CancelOnDisk(id) => v.CancelRecord(id);
    case CancelAll => var waiting, running := v.CancelEverything();
  }

  /** Another request. */
  method Request(v: Server, e: Event)
    requires v.Ready(Happen(e)) && (e.DeleteCheck? || e.DeleteAct? || e.DeleteOnDisk? || e.Judge?)
    modifies v, v.objects.Values
    ensures v.Took(old(v.State()), Happen(e)) && v.objects == old(v.objects)
  {
    hide Inv, Apply;
    match e
    case DeleteCheck(id) => var answer := v.CheckDelete(id);
    case DeleteAct(id) => v.DeleteRequested(id);
    case DeleteOnDisk(id) => v.DeleteRecord(id);
    case Judge(id, approve) => var accepted := v.ReviewJob(v.objects[id], approve);
  }

  /** One job of a sweep. */
  method SweepOne(v: Server, e: Event)
    requires v.Ready(Happen(e)) && (e.SweepCheck? || e.SweepAct?)
    modifies v, v.objects.Values
    ensures v.Took(old(v.State()), Happen(e)) && v.objects == old(v.objects)
  {
    hide Inv, Apply;
    match e
    case SweepCheck(id) => var over := v.LookOver(id, v.clock);
    case SweepAct(id) => v.RemoveSwept(id);
  }

  /** One action on the objects.  A crash chooses its own order of resumption among those that are
      possible. */
  method Perform(v: Server, a: Action) returns (ghost done: Action)
    requires v.Valid() && Inv(v.cfg, v.State())
    requires match a case Work(m) => CanMove(v.cfg, v.State(), m) case Happen(e) => e.Crash? || CanHappen(v.cfg, v.State(), e)
    modifies v, v.objects.Values
    ensures v.Took(old(v.State()), done)
    ensures if a.Happen? && a.event.Crash? then done.Happen? && done.event.Crash? else done == a
    ensures forall id :: id in v.objects ==> fresh(v.objects[id]) || (id in old(v.objects) && v.objects[id] == old(v.objects)[id])
  {
    hide Inv;
    done := a;
    match a
    case Work(m) => DoMove(v, m);
    case Happen(e) =>
      if e.Crash? {
        ghost var order := v.CrashAndRestart();
        done := Happen(Crash(order));
      } else if e.Register? {
        var accepted := v.Enqueue(e.id, e.fromBucket);
      } else if e.Tick? || e.Submit? || e.Abandon? || e.Fire? {
        Arrive(v, e);
      } else if e.CancelCheck? || e.CancelAct? || e.CancelOnDisk? || e.CancelAll? {
        RequestStop(v, e);
      } else if e.SweepCheck? || e.SweepAct? {
        SweepOne(v, e);
      } else {
        Request(v, e);
      }
  }

  // ------------------------------------------------------------------ whole runs

  predicate CanDo(v: Server, a: Action)
    reads v, v.objects.Values
    requires v.Valid()
  {
    match a
    case Work(m) => CanDoMove(v, m)
    case Happen(e) => CanDoEvent(v, e)
  }

  /** What holds of the objects in order. */
  ghost predicate ObjectsInOrder(v: Server)
    reads v, v.objects.Values, v.jobs.Values
  {
    && (forall id :: id in v.jobs ==>
          && v.jobs[id].attempts <= v.cfg.maxAttempts
          && Wakes(v.State(), id) <= (if id in v.lost then 0 else 1)
          && (v.jobs[id].status.Queued? ==> v.jobs[id].attempts < v.cfg.maxAttempts)
          && (v.jobs[id].status.Queued? ==> (Wakes(v.State(), id) == 1 <==> id !in v.lost))
          && (v.jobs[id].status.Running? ==> (v.InHand(v.jobs[id]) <==> id !in v.lost))
          && (v.jobs[id].status.Done? ==> v.jobs[id].review == [] || v.jobs[id].reviewed.Approved?))
  }

  lemma InvOrdersObjects(v: Server)
    requires v.Valid() && Inv(v.cfg, v.State())
    ensures ObjectsInOrder(v)
  {
    forall id | id in v.jobs
      ensures v.jobs[id].attempts <= v.cfg.maxAttempts
      ensures Wakes(v.State(), id) <= (if id in v.lost then 0 else 1)
      ensures v.jobs[id].status.Queued? ==> v.jobs[id].attempts < v.cfg.maxAttempts
      ensures v.jobs[id].status.Queued? ==> (Wakes(v.State(), id) == 1 <==> id !in v.lost)
      ensures v.jobs[id].status.Running? ==> (v.InHand(v.jobs[id]) <==> id !in v.lost)
      ensures v.jobs[id].status.Done? ==> v.jobs[id].review == [] || v.jobs[id].reviewed.Approved?
    {
      assert JobInv(v.cfg, v.State(), id);
      assert v.State().heap[id] == v.jobs[id].Record();
    }
  }

  /** These wishes can all be granted, one after the other.  (A crash leaves the order of resumption
      to the directory listing.) */
  ghost predicate CanAllBeDone(cfg: Config, s: System, wishes: seq<Action>) {
    Legal(cfg, s, wishes) && forall i :: 0 <= i < |wishes| ==> !(wishes[i].Happen? && wishes[i].event.Crash?)
  }

  lemma NextWish(cfg: Config, s: System, wishes: seq<Action>, i: nat)
    requires i < |wishes| && CanAllBeDone(cfg, s, wishes[i..])
    ensures Enabled(cfg, s, wishes[i]) && CanAllBeDone(cfg, Apply(cfg, s, wishes[i]), wishes[i + 1..])
    ensures !(wishes[i].Happen? && wishes[i].event.Crash?)
  {
    assert wishes[i..][0] == wishes[i] && wishes[i..][1..] == wishes[i + 1..];
  }

  /** Grants a wish, if that is possible now. */
  method Grant(v: Server, wish: Action, ghost run: seq<Action>) returns (ghost longer: seq<Action>)
    requires v.Valid() && Inv(v.cfg, v.State()) && Legal(v.cfg, Boot, run) && v.State() == After(v.cfg, Boot, run)
    modifies v, v.objects.Values
    ensures v.Valid() && Inv(v.cfg, v.State()) && Legal(v.cfg, Boot, longer) && v.State() == After(v.cfg, Boot, longer)
    ensures forall id :: id in v.objects ==> fresh(v.objects[id]) || (id in old(v.objects) && v.objects[id] == old(v.objects)[id])
    ensures Enabled(v.cfg, old(v.State()), wish) && !(wish.Happen? && wish.event.Crash?) ==>
              longer == run + [wish] && v.State() == Apply(v.cfg, old(v.State()), wish)
  {
    hide Inv;
    longer := run;
    if CanDo(v, wish) {
      ghost var done := Perform(v, wish);
      AfterSnoc(v.cfg, Boot, run, done);
      longer := run + [done];
    }
  }

  /** A whole life of the service: whatever the scheduler wishes, the objects go through a run of the
      state machine, and through the very run that was wished for when it is one.  At its end a waiting
      object has an attempt left, and one wake-up exactly when nobody who was to hand it on has died
      in that run; a running one is in the worker's hand on the same condition; and what is done is
      clean or approved. */
  method Serve(cfg: Config, wishes: seq<Action>) returns (v: Server, ghost run: seq<Action>)
    requires cfg.maxAttempts >= 1
    ensures v.Valid() && v.cfg == cfg
    ensures Legal(cfg, Boot, run) && v.State() == After(cfg, Boot, run) && Reachable(cfg, v.State())
    ensures CanAllBeDone(cfg, Boot, wishes) ==> run == wishes
    ensures ObjectsInOrder(v) && forall id :: id in v.lost <==> DroppedIn(cfg, Boot, run, id)
  {
    v := new Server(cfg);
    run := [];
    BootInv(cfg);
    hide Inv, CanAllBeDone;
    assert wishes[0..] == wishes;
    for i := 0 to |wishes|
      invariant v.Valid() && v.cfg == cfg && Inv(cfg, v.State()) && fresh(v)
      invariant forall id :: id in v.objects ==> fresh(v.objects[id])
      invariant Legal(cfg, Boot, run) && v.State() == After(cfg, Boot, run)
      invariant CanAllBeDone(cfg, Boot, wishes) ==> run == wishes[..i] && CanAllBeDone(cfg, v.State(), wishes[i..])
    {
      if CanAllBeDone(cfg, v.State(), wishes[i..]) { NextWish(cfg, v.State(), wishes, i); }
      run := Grant(v, wishes[i], run);
    }
    InvOrdersObjects(v);
    forall id ensures id in v.lost <==> DroppedIn(cfg, Boot, run, id) {
      LostExactlyWhenDropped(cfg, Boot, run, id);
    }
    assert Reaches(cfg, run, v.State());
  }
}

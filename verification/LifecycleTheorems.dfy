/** What holds over every run of the service, with any interleaving of the worker, the timers,
    the requests, the sweeper and crashes, and with errors at any place of the handler. */
module LifecycleTheorems {
  import opened JobModel
  import opened Lifecycle
  import opened LifecycleInvariant
  import opened LifecycleSteps

  ghost predicate Reaches(cfg: Config, run: seq<Action>, s: System) {
    Legal(cfg, Boot, run) && After(cfg, Boot, run) == s
  }

  ghost predicate Reachable(cfg: Config, s: System) {
    cfg.maxAttempts >= 1 && exists run :: Reaches(cfg, run, s)
  }

  lemma ReachableInv(cfg: Config, s: System)
    requires Reachable(cfg, s)
    ensures Inv(cfg, s)
  {
    var run :| Reaches(cfg, run, s);
    BootInv(cfg);
    RunKeepsInv(cfg, Boot, run);
  }

  // ------------------------------------------------------------------ no job is stranded

  /** A wake-up that will find the job ready: in the executor or on its way there with the
      appointment past, a timer not due before it, or the worker in its handler. */
  ghost predicate Comes(s: System, id: JobId)
    requires id in s.heap
  {
    || ((id in s.submitting || id in s.queue) && s.heap[id].notBefore <= s.clock)
    || (exists k :: 0 <= k < |s.timers| && s.timers[k].job == id && s.heap[id].notBefore <= s.timers[k].due)
    || Holds(s, id)
  }

  lemma TimerFor(s: System, id: JobId)
    requires multiset(Owners(s.timers))[id] > 0
    ensures exists k :: 0 <= k < |s.timers| && s.timers[k].job == id
  {
  }

  /** A waiting job that is listed has its one wake-up, and that one comes, exactly when nobody who
      was to hand it on has died; a lost one has none at all. */
  lemma NoJobIsStranded(cfg: Config, s: System, id: JobId)
    requires Reachable(cfg, s) && id in s.mem
    ensures id in s.heap && Wakes(s, id) <= 1
    ensures s.heap[id].status.Queued? ==> (Wakes(s, id) == 1 && Comes(s, id) <==> id !in s.lost)
    ensures id in s.lost ==> Wakes(s, id) == 0 && !Comes(s, id)
  {
    ReachableInv(cfg, s);
    assert JobInv(cfg, s, id);
    if id in s.lost {
      NoWakeNeverComes(s, id);
    } else if s.heap[id].status.Queued? && multiset(Owners(s.timers))[id] > 0 {
      TimerFor(s, id);
    }
  }

  lemma NoWakeNeverComes(s: System, id: JobId)
    requires id in s.heap && Wakes(s, id) == 0
    ensures !Comes(s, id)
  {
    forall k | 0 <= k < |s.timers| && s.timers[k].job == id ensures false {
      TimerOwner(s.timers, k);
    }
    QueueHas(s.queue, id);
  }

  /** The step in which whoever was to hand this job on dies: the worker's handler of it, or the
      request thread that registered it. */
  ghost predicate Drops(s: System, a: Action, id: JobId) {
    (a == Work(Die) && Holds(s, id)) || a == Happen(Abandon(id))
  }

  /** Somewhere in the run that happened, and no restart followed. */
  ghost predicate DroppedIn(cfg: Config, s: System, run: seq<Action>, id: JobId)
    requires Legal(cfg, s, run)
    decreases |run|
  {
    run != [] && ((Drops(s, run[0], id) && WithoutCrash(run[1..])) || DroppedIn(cfg, Apply(cfg, s, run[0]), run[1..], id))
  }

  lemma StepLoses(cfg: Config, s: System, a: Action, id: JobId)
    requires Enabled(cfg, s, a)
    ensures id in Apply(cfg, s, a).lost <==> Drops(s, a, id) || (id in s.lost && !IsCrash(a))
  {
  }

  lemma CrashLater(run: seq<Action>)
    requires run != []
    ensures WithoutCrash(run) <==> !IsCrash(run[0]) && WithoutCrash(run[1..])
  {
    assert run == [run[0]] + run[1..];
  }

  /** The lost jobs are exactly those. */
  lemma {:induction false} LostExactlyWhenDropped(cfg: Config, s: System, run: seq<Action>, id: JobId)
    requires Legal(cfg, s, run)
    ensures id in After(cfg, s, run).lost <==> DroppedIn(cfg, s, run, id) || (id in s.lost && WithoutCrash(run))
    decreases |run|
  {
    if run != [] {
      StepLoses(cfg, s, run[0], id);
      CrashLater(run);
      LostExactlyWhenDropped(cfg, Apply(cfg, s, run[0]), run[1..], id);
    }
  }

  /** The same over a whole life of the service: a waiting job is stranded exactly when a handler of
      it, or the request that registered it, died of an error since the last start. */
  lemma StrandedExactlyWhenDropped(cfg: Config, run: seq<Action>, id: JobId)
    requires cfg.maxAttempts >= 1 && Legal(cfg, Boot, run)
    ensures var s := After(cfg, Boot, run);
            id in s.mem && id in s.heap && s.heap[id].status.Queued? ==>
              (Wakes(s, id) == 1 && Comes(s, id) <==> !DroppedIn(cfg, Boot, run, id))
  {
    var s := After(cfg, Boot, run);
    assert Reaches(cfg, run, s);
    LostExactlyWhenDropped(cfg, Boot, run, id);
    if id in s.mem {
      NoJobIsStranded(cfg, s, id);
    }
  }

  /** Waits, or was cancelled. */
  ghost predicate Idles(j: Job) {
    j.status.Queued? || j.status.Cancelled?
  }

  /** What a step leaves as it is. */
  ghost predicate LeavesLost(s: System, t: System, id: JobId) {
    && id in s.heap && id in t.lost && id in t.heap && t.heap[id].attempts == s.heap[id].attempts
    && (s.heap[id].status.Running? ==> t.heap[id].status.Running?)
    && (Idles(s.heap[id]) ==> Idles(t.heap[id]))
  }

  lemma MoveLeavesLost(cfg: Config, s: System, m: Move, id: JobId)
    requires Inv(cfg, s) && CanMove(cfg, s, m) && id in s.lost
    ensures LeavesLost(s, Moved(cfg, s, m), id) && Moved(cfg, s, m).heap[id] == s.heap[id]
  {
    assert JobInv(cfg, s, id);
    QueueHas(s.queue, id);
    StepLoses(cfg, s, Work(m), id);
    hide Inv, JobInv, LeavesLost, PickStep, GoneOn, CanGoOn;
    if s.worker.Idle? {
      PickPasses(s, id);
    } else {
      OthersUntouched(cfg, s, m, id);
    }
    LeftAsItIs(s, Moved(cfg, s, m), id);
  }

  lemma LeftAsItIs(s: System, t: System, id: JobId)
    requires id in s.heap && id in t.heap && t.heap[id] == s.heap[id] && id in t.lost
    ensures LeavesLost(s, t, id)
  {
  }

  lemma PickPasses(s: System, id: JobId)
    requires s.queue != [] && id !in s.queue && id in s.heap
    ensures var t := PickStep(s); id in t.heap && t.heap[id] == s.heap[id]
  {
  }

  lemma EventLeavesLost(cfg: Config, s: System, e: Event, id: JobId)
    requires Inv(cfg, s) && CanHappen(cfg, s, e) && !e.Crash? && id in s.lost
    ensures LeavesLost(s, Happened(cfg, s, e), id)
  {
    assert JobInv(cfg, s, id);
  }

  lemma StepLeavesLost(cfg: Config, s: System, a: Action, id: JobId)
    requires Inv(cfg, s) && Enabled(cfg, s, a) && !IsCrash(a) && id in s.lost
    ensures LeavesLost(s, Apply(cfg, s, a), id)
  {
    hide LeavesLost;
    match a
    case Work(m) => MoveLeavesLost(cfg, s, m, id);
    case Happen(e) => EventLeavesLost(cfg, s, e, id);
  }

  /** Until the next restart nobody takes a lost job up: one that waited waits or is cancelled, and one
      that had been started runs on for ever, even when it is asked to stop. */
  lemma {:induction false} LostStaysLost(cfg: Config, s: System, run: seq<Action>, id: JobId)
    requires Inv(cfg, s) && Legal(cfg, s, run) && WithoutCrash(run) && id in s.lost
    ensures var t := After(cfg, s, run);
            LeavesLost(s, t, id) && Wakes(t, id) == 0 && !Holds(t, id)
    decreases |run|
  {
    assert JobInv(cfg, s, id);
    if run != [] {
      CrashLater(run);
      StepLeavesLost(cfg, s, run[0], id);
      StepKeepsInv(cfg, s, run[0]);
      LostStaysLost(cfg, Apply(cfg, s, run[0]), run[1..], id);
    }
  }

  /** The handler's early return never happens: whoever is picked is due. */
  lemma GateNeverDrops(cfg: Config, s: System)
    requires Reachable(cfg, s) && s.worker.Picked?
    ensures s.worker.job in s.heap && GateStep(s) == s.(worker := Gated(s.worker.job))
  {
    ReachableInv(cfg, s);
    assert JobInv(cfg, s, s.worker.job);
  }

  /** A restart, from any state, puts every waiting record back in memory, due at once, with one
      executor entry and no attempt charged, also that of a lost job; what ran becomes a failure and
      what awaited review still does. */
  lemma RestartRewakes(cfg: Config, s: System, order: seq<JobId>, id: JobId)
    requires ResumeOrder(s, order) && id in s.disk
    ensures var t, j := Restarted(s, order), s.disk[id];
            && id in t.disk && id !in t.lost && (id in t.mem ==> id in t.heap && t.heap[id] == t.disk[id])
            && (id in t.mem <==> j.status.Queued? || j.status.Review?)
            && (if j.status.Queued? then
                  t.disk[id] == j.(notBefore := 0.0, waiting := NotWaiting)
                  && multiset(t.queue)[id] == 1 && Wakes(t, id) == 1
                else if j.status.Running? then t.disk[id] == j.(status := Failed, finished := s.clock)
                else t.disk[id] == j && Wakes(t, id) == 0)
  {
    var t := Restarted(s, order);
    assert Owners(t.timers) == [];
    DistinctOnce(order, id);
    assert id in order <==> id in ToResume(s);
  }

  // ------------------------------------------------------------------ one job at a time

  lemma OneJobRuns(cfg: Config, s: System, id: JobId)
    requires Reachable(cfg, s) && id in s.mem && id in s.heap && s.heap[id].status.Running?
    ensures (Holds(s, id) <==> id !in s.lost) && s.heap[id].notBefore == 0.0
    ensures id !in s.lost ==>
              forall other :: other in s.mem && other in s.heap && s.heap[other].status.Running? && other !in s.lost ==>
                other == id
  {
    ReachableInv(cfg, s);
    assert JobInv(cfg, s, id);
    forall other | other in s.mem && other in s.heap && s.heap[other].status.Running? && id !in s.lost && other !in s.lost
      ensures other == id
    {
      assert JobInv(cfg, s, other);
    }
  }

  // ------------------------------------------------------------------ runs

  lemma {:induction false} AfterSnoc(cfg: Config, s: System, run: seq<Action>, a: Action)
    requires Legal(cfg, s, run) && Enabled(cfg, After(cfg, s, run), a)
    ensures Legal(cfg, s, run + [a]) && After(cfg, s, run + [a]) == Apply(cfg, After(cfg, s, run), a)
    decreases |run|
  {
    if run == [] {
      assert run + [a] == [a] && [a][1..] == [];
    } else {
      assert (run + [a])[1..] == run[1..] + [a];
      AfterSnoc(cfg, Apply(cfg, s, run[0]), run[1..], a);
    }
  }

  /** Some run leads from `s` to `t`. */
  ghost predicate CanFollow(cfg: Config, s: System, t: System) {
    exists run :: Legal(cfg, s, run) && After(cfg, s, run) == t
  }

  lemma FollowsItself(cfg: Config, s: System)
    ensures CanFollow(cfg, s, s)
  {
    assert Legal(cfg, s, []) && After(cfg, s, []) == s;
  }

  /** One step first, ... */
  lemma StepFirst(cfg: Config, s: System, a: Action, t: System)
    requires Enabled(cfg, s, a) && CanFollow(cfg, Apply(cfg, s, a), t)
    ensures CanFollow(cfg, s, t)
  {
    var rest :| Legal(cfg, Apply(cfg, s, a), rest) && After(cfg, Apply(cfg, s, a), rest) == t;
    var run := [a] + rest;
    assert run[1..] == rest;
    assert Legal(cfg, s, run) && After(cfg, s, run) == t;
  }

  /** ... or last. */
  lemma StepLast(cfg: Config, s: System, t: System, a: Action)
    requires CanFollow(cfg, s, t) && Enabled(cfg, t, a)
    ensures CanFollow(cfg, s, Apply(cfg, t, a))
  {
    var run :| Legal(cfg, s, run) && After(cfg, s, run) == t;
    AfterSnoc(cfg, s, run, a);
    assert Legal(cfg, s, run + [a]);
  }

  lemma FollowKeepsInv(cfg: Config, s: System, t: System)
    requires Inv(cfg, s) && CanFollow(cfg, s, t)
    ensures Inv(cfg, t)
  {
    var run :| Legal(cfg, s, run) && After(cfg, s, run) == t;
    RunKeepsInv(cfg, s, run);
  }

  lemma {:induction false} FollowsOn(cfg: Config, s: System, t: System, u: System)
    requires CanFollow(cfg, s, t) && CanFollow(cfg, t, u)
    ensures CanFollow(cfg, s, u)
  {
    var run :| Legal(cfg, s, run) && After(cfg, s, run) == t;
    RunThenFollows(cfg, s, run, u);
  }

  lemma {:induction false} RunThenFollows(cfg: Config, s: System, run: seq<Action>, u: System)
    requires Legal(cfg, s, run) && CanFollow(cfg, After(cfg, s, run), u)
    ensures CanFollow(cfg, s, u)
    decreases |run|
  {
    if run != [] {
      RunThenFollows(cfg, Apply(cfg, s, run[0]), run[1..], u);
      StepFirst(cfg, s, run[0], u);
    }
  }

  // ------------------------------------------------------------------ what a move leaves alone

  /** What a move does to one job: its object carries over verdict, flag and attempts, with one
      attempt more when it is started, and its record is the old one or a copy of the new object. */
  ghost predicate Carries(s: System, t: System, id: JobId, starts: bool) {
    && (id in s.used <==> id in t.used) && (id in s.heap <==> id in t.heap)
    && (id in s.heap ==>
          && t.heap[id].reviewed == s.heap[id].reviewed && t.heap[id].cancel == s.heap[id].cancel
          && t.heap[id].attempts == s.heap[id].attempts + (if starts then 1 else 0))
    && (id in s.disk ==> id in t.disk)
    && (id in t.disk ==> (id in s.disk && t.disk[id] == s.disk[id] && !starts)
                         || (id in t.heap && t.disk[id] == t.heap[id]))
  }

  lemma WentOnCarries(s: System, t: System, id: JobId)
    requires WentOn(s, t)
    requires var j, k := s.heap[s.worker.job], t.heap[s.worker.job];
             k.reviewed == j.reviewed && k.cancel == j.cancel && k.attempts == j.attempts
    ensures Carries(s, t, id, false)
  {
  }

  lemma PickCarries(cfg: Config, s: System, id: JobId)
    requires Inv(cfg, s) && s.worker.Idle? && s.queue != []
    ensures Carries(s, PickStep(s), id, false)
  {
  }

  lemma StartCarries(cfg: Config, s: System, id: JobId)
    requires Inv(cfg, s) && s.worker.Gated? && s.worker.job in s.heap
    ensures Carries(s, GoneOn(cfg, s, Start), id, Holds(s, id))
  {
    assert JobInv(cfg, s, s.worker.job);
  }

  lemma HandingOnCarries(cfg: Config, s: System, m: Move, id: JobId)
    requires !s.worker.Idle? && s.worker.job in s.heap && CanGoOn(cfg, s, m)
    requires m.Reschedule? || m.RetryLater? || m.Die?
    ensures Carries(s, GoneOn(cfg, s, m), id, false)
  {
  }

  lemma MoveCarries(cfg: Config, s: System, m: Move, id: JobId)
    requires Inv(cfg, s) && CanMove(cfg, s, m)
    ensures Carries(s, Moved(cfg, s, m), id, Starts(s, Work(m), id))
  {
    hide Carries;
    if s.worker.Idle? {
      PickCarries(cfg, s, id);
    } else if m.Start? {
      StartCarries(cfg, s, id);
    } else if m.Reschedule? || m.RetryLater? || m.Die? {
      HandingOnCarries(cfg, s, m, id);
    } else {
      WentOnCarries(s, GoneOn(cfg, s, m), id);
    }
  }

  /** Going on with one job leaves every other alone. */
  lemma OthersUntouched(cfg: Config, s: System, m: Move, id: JobId)
    requires !s.worker.Idle? && s.worker.job in s.heap && CanGoOn(cfg, s, m) && !Holds(s, id)
    ensures var t := GoneOn(cfg, s, m);
            && t.mem == s.mem && t.used == s.used && !Holds(t, id)
            && (id in s.heap <==> id in t.heap) && (id in s.heap ==> t.heap[id] == s.heap[id])
            && (id in s.disk <==> id in t.disk) && (id in s.disk ==> t.disk[id] == s.disk[id])
  {
  }

  /** Is this the step that starts the job? */
  ghost predicate Starts(s: System, a: Action, id: JobId) {
    a.Work? && a.move.Start? && Holds(s, id)
  }

  // ------------------------------------------------------------------ cancellation is honoured

  ghost predicate Flagging(s: System, id: JobId) {
    && (id in s.heap ==> s.heap[id].cancel)
    && (id in s.disk ==> s.disk[id].cancel)
  }

  lemma PickKeepsDoomed(cfg: Config, s: System, id: JobId)
    requires Inv(cfg, s) && s.worker.Idle? && s.queue != []
    requires id in s.used && Doomed(s, id)
    ensures Doomed(PickStep(s), id)
  {
  }

  lemma GoOnKeepsDoomed(cfg: Config, s: System, m: Move, id: JobId)
    requires Holding(cfg, s, m)
    requires Doomed(s, id) && Holds(s, id)
    ensures Doomed(GoneOn(cfg, s, m), id)
  {
  }

  lemma MoveKeepsDoomed(cfg: Config, s: System, m: Move, id: JobId)
    requires Inv(cfg, s) && CanMove(cfg, s, m)
    requires id in s.used && Doomed(s, id)
    ensures Doomed(Moved(cfg, s, m), id)
  {
    if s.worker.Idle? {
      PickKeepsDoomed(cfg, s, id);
    } else if Holds(s, id) {
      GoOnKeepsDoomed(cfg, s, m, id);
    } else {
      OthersUntouched(cfg, s, m, id);
    }
  }

  lemma EventKeepsDoomed(cfg: Config, s: System, e: Event, id: JobId)
    requires Inv(cfg, s) && CanHappen(cfg, s, e)
    requires id in s.used && Doomed(s, id)
    ensures Doomed(Happened(cfg, s, e), id)
  {
    assert JobInv(cfg, s, id);
  }

  lemma UsedGrows(cfg: Config, s: System, a: Action)
    requires Enabled(cfg, s, a)
    ensures s.used <= Apply(cfg, s, a).used
  {
  }

  lemma {:induction false} RunKeepsDoomed(cfg: Config, s: System, run: seq<Action>, id: JobId)
    requires Inv(cfg, s) && Legal(cfg, s, run)
    requires id in s.used && Doomed(s, id)
    ensures Doomed(After(cfg, s, run), id)
    decreases |run|
  {
    if run != [] {
      match run[0] {
        case Work(m) => MoveKeepsDoomed(cfg, s, m, id);
        case Happen(e) => EventKeepsDoomed(cfg, s, e, id);
      }
      UsedGrows(cfg, s, run[0]);
      StepKeepsInv(cfg, s, run[0]);
      RunKeepsDoomed(cfg, Apply(cfg, s, run[0]), run[1..], id);
    }
  }

  ghost predicate CompletedIn(s: System, id: JobId) {
    Listed(s, id) && (View(s, id).status.Done? || View(s, id).status.Review?)
  }

  /** A job whose flag is set before the worker's last look is never completed, however often it
      is postponed, retried, overwritten to running or restarted afterwards. */
  lemma CancellationIsHonoured(cfg: Config, s: System, run: seq<Action>, id: JobId)
    requires Reachable(cfg, s) && id in s.mem && id in s.heap
    requires s.heap[id].cancel && !CompletedIn(s, id) && !InWindow(s, id)
    requires Legal(cfg, s, run)
    ensures !CompletedIn(After(cfg, s, run), id)
  {
    ReachableInv(cfg, s);
    assert JobInv(cfg, s, id);
    RunKeepsDoomed(cfg, s, run, id);
  }

  /** In the window the flag comes too late: the worker can complete the job all the same. */
  lemma WindowCompletes(cfg: Config, s: System, id: JobId) returns (t: System)
    requires Inv(cfg, s) && id in s.mem && InWindow(s, id)
    ensures CanFollow(cfg, s, t) && CompletedIn(t, id)
  {
    assert JobInv(cfg, s, id);
    var s1 := s.(worker := Committing(id));
    t := Apply(cfg, s1, Work(Commit([])));
    FollowsItself(cfg, t);
    StepFirst(cfg, s1, Work(Commit([])), t);
    if !s.worker.Committing? {
      assert Apply(cfg, s, Work(Direct)) == s1;
      StepFirst(cfg, s, Work(Direct), t);
    }
  }

  /** Exactly when a cancel request still counts. */
  lemma CancelCountsOutsideTheWindow(cfg: Config, s: System, id: JobId)
    requires Reachable(cfg, s) && id in s.mem && id in s.heap
    requires s.heap[id].cancel && !CompletedIn(s, id)
    ensures (exists t :: CanFollow(cfg, s, t) && CompletedIn(t, id)) <==> InWindow(s, id)
  {
    ReachableInv(cfg, s);
    if InWindow(s, id) {
      var t := WindowCompletes(cfg, s, id);
    }
    forall t | CanFollow(cfg, s, t) && !InWindow(s, id) ensures !CompletedIn(t, id) {
      var run :| Legal(cfg, s, run) && After(cfg, s, run) == t;
      CancellationIsHonoured(cfg, s, run, id);
    }
  }

  /** A cancel request is heard: the flag is set in object and record, a waiting job ends at once, a
      running one goes on until the worker looks. */
  lemma CancelIsHeard(cfg: Config, s: System, e: Event, id: JobId)
    requires Reachable(cfg, s) && CanHappen(cfg, s, e) && (e == CancelAct(id) || e.CancelAll?)
    requires id in s.mem && id in s.heap && Live(s.heap[id])
    ensures var t := Happened(cfg, s, e);
            && id in t.mem && id in t.heap && t.heap[id].cancel && Flagging(t, id)
            && t.heap[id].status == if s.heap[id].status.Queued? then Cancelled else Running
  {
    ReachableInv(cfg, s);
    assert JobInv(cfg, s, id);
  }

  lemma MoveKeepsFlag(cfg: Config, s: System, m: Move, id: JobId)
    requires Inv(cfg, s) && CanMove(cfg, s, m) && id in s.used && Flagging(s, id)
    ensures Flagging(Moved(cfg, s, m), id)
  {
    assert JobInv(cfg, s, id);
    MoveCarries(cfg, s, m, id);
  }

  lemma EventKeepsFlag(cfg: Config, s: System, e: Event, id: JobId)
    requires Inv(cfg, s) && CanHappen(cfg, s, e) && id in s.used && Flagging(s, id)
    ensures Flagging(Happened(cfg, s, e), id)
  {
  }

  /** A flag is never taken back, by any step, a restart included. */
  lemma {:induction false} FlagStays(cfg: Config, s: System, run: seq<Action>, id: JobId)
    requires Inv(cfg, s) && Legal(cfg, s, run) && id in s.used && Flagging(s, id)
    ensures Flagging(After(cfg, s, run), id)
    decreases |run|
  {
    if run != [] {
      match run[0] {
        case Work(m) => MoveKeepsFlag(cfg, s, m, id);
        case Happen(e) => EventKeepsFlag(cfg, s, e, id);
      }
      UsedGrows(cfg, s, run[0]);
      StepKeepsInv(cfg, s, run[0]);
      FlagStays(cfg, Apply(cfg, s, run[0]), run[1..], id);
    }
  }

  /** In memory the flag is always saved with the object. */
  lemma FlagIsSaved(cfg: Config, s: System, id: JobId)
    requires Inv(cfg, s) && id in s.mem && id in s.heap && s.heap[id].cancel
    ensures Flagging(s, id)
  {
    assert JobInv(cfg, s, id);
  }

  // ------------------------------------------------------------------ review cannot be bypassed

  /** What is done was found in order, or a person approved it, in every reachable state. */
  lemma DoneIsCleanOrApproved(cfg: Config, s: System, id: JobId)
    requires Reachable(cfg, s) && Listed(s, id)
    ensures var j := View(s, id);
            && (j.status.Done? ==> j.review == [] || j.reviewed.Approved?)
            && (j.status.Review? ==> j.review != [])
  {
    ReachableInv(cfg, s);
    assert JobInv(cfg, s, id);
  }

  // ------------------------------------------------------------------ endings

  /** Every ending is timed, so what is to be kept for a time only can be swept after that time. */
  lemma EndedJobsCanBeSwept(cfg: Config, s: System, id: JobId) returns (d: real, t: System)
    requires Reachable(cfg, s) && Listed(s, id) && !Live(View(s, id))
    requires cfg.jobTtl != 0.0
    requires View(s, id).status in {Failed, Cancelled} ==> cfg.failedTtl != 0.0
    requires View(s, id).status == Review ==> cfg.reviewTtl != 0.0
    ensures d > 0.0 && t == Happened(cfg, s, Tick(d))
    ensures CanHappen(cfg, t, SweepCheck(id)) && CanHappen(cfg, Happened(cfg, t, SweepCheck(id)), SweepAct(id))
    ensures !Listed(Happened(cfg, Happened(cfg, t, SweepCheck(id)), SweepAct(id)), id)
  {
    ReachableInv(cfg, s);
    assert JobInv(cfg, s, id);
    var over := View(s, id).finished + Ttl(cfg, View(s, id)) - s.clock;
    d := if over < 0.0 then 1.0 else over + 1.0;
    t := Happened(cfg, s, Tick(d));
    assert View(t, id) == View(s, id);
  }

  // ------------------------------------------------------------------ postponing

  /** A job is not postponed for ever: its appointment lies within the limit after the first time it
      was postponed, in every reachable state. */
  lemma PostponementIsBounded(cfg: Config, s: System, id: JobId)
    requires Reachable(cfg, s) && Listed(s, id) && View(s, id).waiting.DeferWait?
    ensures 0.0 < View(s, id).deferredSince
    ensures View(s, id).notBefore <= View(s, id).deferredSince + cfg.deferMax + cfg.deferSec
  {
    ReachableInv(cfg, s);
    assert JobInv(cfg, s, id);
  }

  // ------------------------------------------------------------------ attempts

  lemma AttemptsAreBounded(cfg: Config, s: System, id: JobId)
    requires Reachable(cfg, s) && Listed(s, id)
    ensures View(s, id).attempts <= cfg.maxAttempts
    ensures View(s, id).status.Queued? ==> View(s, id).attempts < cfg.maxAttempts
  {
    ReachableInv(cfg, s);
    assert JobInv(cfg, s, id);
  }

  /** The attempts a job has left. */
  ghost function Budget(cfg: Config, s: System, id: JobId): int {
    if id !in s.used then cfg.maxAttempts
    else if id in s.heap then cfg.maxAttempts - s.heap[id].attempts
    else if id in s.disk then cfg.maxAttempts - s.disk[id].attempts
    else 0
  }

  lemma MoveIsCharged(cfg: Config, s: System, m: Move, id: JobId)
    requires Inv(cfg, s) && CanMove(cfg, s, m)
    ensures Budget(cfg, Moved(cfg, s, m), id)
         == Budget(cfg, s, id) - (if Starts(s, Work(m), id) then 1 else 0)
  {
    assert JobInv(cfg, s, id);
    MoveCarries(cfg, s, m, id);
  }

  lemma EventIsFree(cfg: Config, s: System, e: Event, id: JobId)
    requires Inv(cfg, s) && CanHappen(cfg, s, e)
    ensures Budget(cfg, Happened(cfg, s, e), id) <= Budget(cfg, s, id)
  {
    assert JobInv(cfg, s, id);
  }

  /** The attempts a job has used, wherever it is found. */
  ghost predicate HasUsed(s: System, id: JobId, n: nat) {
    && (id in s.heap ==> s.heap[id].attempts == n)
    && (id in s.disk ==> s.disk[id].attempts == n)
  }

  /** Only a start is charged, and it is charged once: postponing, scheduling, cancelling and
      restarting are free. */
  lemma OnlyStartsAreCharged(cfg: Config, s: System, a: Action, id: JobId)
    requires Reachable(cfg, s) && Enabled(cfg, s, a) && Listed(s, id)
    ensures var t := Apply(cfg, s, a);
            Listed(t, id) ==> View(t, id).attempts == View(s, id).attempts + (if Starts(s, a, id) then 1 else 0)
  {
    ReachableInv(cfg, s);
    assert JobInv(cfg, s, id);
    match a {
      case Work(m) => MoveCarries(cfg, s, m, id);
      case Happen(e) => EventCharges(cfg, s, e, id);
    }
  }

  lemma EventCharges(cfg: Config, s: System, e: Event, id: JobId)
    requires Inv(cfg, s) && CanHappen(cfg, s, e) && Listed(s, id)
    ensures HasUsed(s, id, View(s, id).attempts) && HasUsed(Happened(cfg, s, e), id, View(s, id).attempts)
  {
    assert JobInv(cfg, s, id);
  }

  lemma StepUsesBudget(cfg: Config, s: System, a: Action, id: JobId)
    requires Inv(cfg, s) && Enabled(cfg, s, a)
    ensures Budget(cfg, Apply(cfg, s, a), id) <= Budget(cfg, s, id) - (if Starts(s, a, id) then 1 else 0)
  {
    match a {
      case Work(m) => MoveIsCharged(cfg, s, m, id);
      case Happen(e) => EventIsFree(cfg, s, e, id);
    }
  }

  ghost function CountStarts(cfg: Config, s: System, run: seq<Action>, id: JobId): nat
    requires Legal(cfg, s, run)
    decreases |run|
  {
    if run == [] then 0
    else (if Starts(s, run[0], id) then 1 else 0) + CountStarts(cfg, Apply(cfg, s, run[0]), run[1..], id)
  }

  lemma BudgetIsNatural(cfg: Config, s: System, id: JobId)
    requires Inv(cfg, s)
    ensures 0 <= Budget(cfg, s, id) <= cfg.maxAttempts
  {
    assert JobInv(cfg, s, id);
  }

  lemma {:induction false} StartsFitTheBudget(cfg: Config, s: System, run: seq<Action>, id: JobId)
    requires Inv(cfg, s) && Legal(cfg, s, run)
    ensures CountStarts(cfg, s, run, id) <= Budget(cfg, s, id)
    decreases |run|
  {
    BudgetIsNatural(cfg, s, id);
    if run != [] {
      StepUsesBudget(cfg, s, run[0], id);
      StepKeepsInv(cfg, s, run[0]);
      StartsFitTheBudget(cfg, Apply(cfg, s, run[0]), run[1..], id);
    }
  }

  /** In a whole life of the service, with all its crashes, a job is started at most so often. */
  lemma JobStartsAtMostSoOften(cfg: Config, run: seq<Action>, id: JobId)
    requires cfg.maxAttempts >= 1 && Legal(cfg, Boot, run)
    ensures CountStarts(cfg, Boot, run, id) <= cfg.maxAttempts
  {
    BootInv(cfg);
    StartsFitTheBudget(cfg, Boot, run, id);
  }
}

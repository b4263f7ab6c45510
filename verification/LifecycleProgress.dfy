/** A waiting job is taken: some run of the service's own steps takes it from wherever it waits, and
    every run in which the worker goes on taking jobs does. */
module LifecycleProgress {
  import opened JobModel
  import opened Lifecycle
  import opened LifecycleInvariant
  import opened LifecycleSteps
  import opened LifecycleTheorems

  // ------------------------------------------------------------------ every run gets to an entry

  ghost predicate IsPick(a: Action) {
    a.Work? && a.move.Pick?
  }

  ghost function Picks(run: seq<Action>): (n: nat)
    ensures n <= |run|
  {
    if run == [] then 0 else (if IsPick(run[0]) then 1 else 0) + Picks(run[1..])
  }

  /** Somewhere in the run the worker takes an entry of this job. */
  ghost predicate TakesEntry(cfg: Config, s: System, run: seq<Action>, id: JobId)
    requires Legal(cfg, s, run)
    decreases |run|
  {
    run != [] && ((IsPick(run[0]) && s.queue != [] && s.queue[0] == id)
                  || TakesEntry(cfg, Apply(cfg, s, run[0]), run[1..], id))
  }

  /** Without a crash no entry is lost or overtaken: each Pick takes the first one, everything else
      leaves the queue alone or puts an entry behind it. */
  lemma EntriesMoveUp(cfg: Config, s: System, a: Action)
    requires Enabled(cfg, s, a) && WithoutCrash([a])
    ensures var t := Apply(cfg, s, a);
            if IsPick(a) then s.queue != [] && t.queue == s.queue[1..] else s.queue <= t.queue
  {
    assert [a][0] == a;
  }

  /** Whatever happens, only a crash excepted: when the worker has taken more entries than there were
      in front of the job's, it has taken the job's. */
  lemma {:induction false} EnoughPicksTakeTheJob(cfg: Config, s: System, run: seq<Action>, id: JobId, i: nat)
    requires Legal(cfg, s, run) && WithoutCrash(run)
    requires i < |s.queue| && s.queue[i] == id && Picks(run) > i
    ensures TakesEntry(cfg, s, run, id)
    decreases |run|
  {
    EntriesMoveUp(cfg, s, run[0]);
    var t := Apply(cfg, s, run[0]);
    if IsPick(run[0]) {
      if i > 0 {
        EnoughPicksTakeTheJob(cfg, t, run[1..], id, i - 1);
      }
    } else {
      EnoughPicksTakeTheJob(cfg, t, run[1..], id, i);
    }
  }

  // ------------------------------------------------------------------ every run gets to a wake-up

  /** Outside the worker's handler there is a wake-up for the job. */
  ghost predicate Outstanding(s: System, id: JobId) {
    id in s.submitting || id in s.queue || exists k :: 0 <= k < |s.timers| && s.timers[k].job == id
  }

  /** The step that puts the job's entry into the queue: its timer fires, or its request submits it. */
  ghost predicate PutsEntry(s: System, a: Action, id: JobId) {
    a.Happen? && (a.event == Submit(id)
                  || (a.event.Fire? && a.event.k < |s.timers| && s.timers[a.event.k].job == id))
  }

  lemma EntryIsLast(cfg: Config, s: System, a: Action, id: JobId)
    requires Enabled(cfg, s, a) && PutsEntry(s, a, id)
    ensures Apply(cfg, s, a).queue == s.queue + [id]
  {
  }

  lemma {:induction false} TakenLater(cfg: Config, s: System, before: seq<Action>, rest: seq<Action>, id: JobId)
    requires Legal(cfg, s, before) && Legal(cfg, After(cfg, s, before), rest)
    requires TakesEntry(cfg, After(cfg, s, before), rest, id)
    ensures Legal(cfg, s, before + rest) && TakesEntry(cfg, s, before + rest, id)
    decreases |before|
  {
    if before == [] {
      assert before + rest == rest;
    } else {
      assert (before + rest)[1..] == before[1..] + rest;
      TakenLater(cfg, Apply(cfg, s, before[0]), before[1..], rest, id);
    }
  }

  /** In every run: once the timer of a job has fired, or its request has submitted it, and no crash has
      followed, as many more entries taken as there were before it are enough, one more, and the job's
      has been taken, whatever else happened. */
  lemma WakeUpIsTaken(cfg: Config, s: System, before: seq<Action>, a: Action, rest: seq<Action>, id: JobId)
    requires Legal(cfg, s, before) && Enabled(cfg, After(cfg, s, before), a) && PutsEntry(After(cfg, s, before), a, id)
    requires Legal(cfg, Apply(cfg, After(cfg, s, before), a), rest) && WithoutCrash(rest)
    requires Picks(rest) > |After(cfg, s, before).queue|
    ensures Legal(cfg, s, before + ([a] + rest)) && TakesEntry(cfg, s, before + ([a] + rest), id)
  {
    var u := After(cfg, s, before);
    EntryIsLast(cfg, u, a, id);
    EnoughPicksTakeTheJob(cfg, Apply(cfg, u, a), rest, id, |u.queue|);
    assert ([a] + rest)[1..] == rest;
    TakenLater(cfg, s, before, [a] + rest, id);
  }

  lemma StepKeepsOutstanding(cfg: Config, s: System, a: Action, id: JobId)
    requires Enabled(cfg, s, a) && !IsCrash(a) && a != Happen(Abandon(id)) && Outstanding(s, id)
    requires !(IsPick(a) && s.queue != [] && s.queue[0] == id)
    ensures Outstanding(Apply(cfg, s, a), id)
  {
    var t := Apply(cfg, s, a);
    if id in s.queue {
      EntryStays(cfg, s, a, id);
    } else if id !in s.submitting {
      var k :| 0 <= k < |s.timers| && s.timers[k].job == id;
      TimerStays(cfg, s, a, id, k);
    }
  }

  lemma EntryStays(cfg: Config, s: System, a: Action, id: JobId)
    requires Enabled(cfg, s, a) && !IsCrash(a) && id in s.queue
    requires !(IsPick(a) && s.queue != [] && s.queue[0] == id)
    ensures id in Apply(cfg, s, a).queue
  {
    assert [a][0] == a;
    EntriesMoveUp(cfg, s, a);
    var i :| 0 <= i < |s.queue| && s.queue[i] == id;
    if IsPick(a) {
      assert Apply(cfg, s, a).queue[i - 1] == id;
    } else {
      assert Apply(cfg, s, a).queue[i] == id;
    }
  }

  lemma TimerStays(cfg: Config, s: System, a: Action, id: JobId, k: nat)
    requires Enabled(cfg, s, a) && !IsCrash(a) && k < |s.timers| && s.timers[k].job == id
    ensures var t := Apply(cfg, s, a); id in t.queue || exists i :: 0 <= i < |t.timers| && t.timers[i].job == id
  {
    var t := Apply(cfg, s, a);
    if a.Happen? && a.event.Fire? {
      var n := a.event.k;
      if n == k {
        assert t.queue[|s.queue|] == id;
      } else {
        assert t.timers[if k < n then k else k - 1].job == id;
      }
    } else {
      assert t.timers[k] == s.timers[k];
    }
  }

  /** ... and until its entry is taken, a wake-up is never lost, a crash and the death of the job's request
      excepted. */
  lemma {:induction false} WakeUpStaysUntilTaken(cfg: Config, s: System, run: seq<Action>, id: JobId)
    requires Legal(cfg, s, run) && WithoutCrash(run) && Outstanding(s, id)
    requires forall i :: 0 <= i < |run| ==> run[i] != Happen(Abandon(id))
    ensures TakesEntry(cfg, s, run, id) || Outstanding(After(cfg, s, run), id)
    decreases |run|
  {
    if run != [] && !(IsPick(run[0]) && s.queue != [] && s.queue[0] == id) {
      CrashLater(run);
      StepKeepsOutstanding(cfg, s, run[0], id);
      assert forall i :: 0 <= i < |run[1..]| ==> run[1..][i] == run[i + 1];
      WakeUpStaysUntilTaken(cfg, Apply(cfg, s, run[0]), run[1..], id);
    }
  }

  // ------------------------------------------------------------------ some run gets everywhere

  /** Steps that need nobody's request: the worker's, the timers', and the passing of time. */
  ghost predicate Own(a: Action) {
    match a
    case Work(m) => !m.LateRaise? && !m.Raise? && !m.Die?
    case Happen(e) => e.Tick? || e.Submit? || e.Fire?
  }

  /** By such steps alone, and without an error. */
  ghost predicate Manages(cfg: Config, s: System, run: seq<Action>, t: System) {
    Legal(cfg, s, run) && After(cfg, s, run) == t && forall i :: 0 <= i < |run| ==> Own(run[i])
  }

  ghost predicate CanManage(cfg: Config, s: System, t: System) {
    exists run :: Manages(cfg, s, run, t)
  }

  lemma ManagesItself(cfg: Config, s: System)
    ensures CanManage(cfg, s, s)
  {
    assert Manages(cfg, s, [], s);
  }

  lemma ByStep(cfg: Config, s: System, a: Action, t: System)
    requires Enabled(cfg, s, a) && Own(a) && CanManage(cfg, Apply(cfg, s, a), t)
    ensures CanManage(cfg, s, t)
  {
    var rest :| Manages(cfg, Apply(cfg, s, a), rest, t);
    var run := [a] + rest;
    assert run[1..] == rest;
    assert Manages(cfg, s, run, t);
  }

  lemma ByMove(cfg: Config, s: System, m: Move, t: System)
    requires CanMove(cfg, s, m) && !m.LateRaise? && !m.Raise? && !m.Die? && CanManage(cfg, Moved(cfg, s, m), t)
    ensures CanManage(cfg, s, t)
  {
    assert Apply(cfg, s, Work(m)) == Moved(cfg, s, m);
    ByStep(cfg, s, Work(m), t);
  }

  lemma ManagedFollows(cfg: Config, s: System, t: System)
    requires CanManage(cfg, s, t)
    ensures CanFollow(cfg, s, t)
  {
    var run :| Manages(cfg, s, run, t);
  }

  /** Steps that need nobody's request, errors of the worker among them. */
  ghost predicate Inner(a: Action) {
    match a
    case Work(_) => true
    case Happen(e) => e.Tick? || e.Submit? || e.Fire?
  }

  ghost predicate Leads(cfg: Config, s: System, run: seq<Action>, t: System) {
    Legal(cfg, s, run) && After(cfg, s, run) == t && forall i :: 0 <= i < |run| ==> Inner(run[i])
  }

  ghost predicate LeadsTo(cfg: Config, s: System, t: System) {
    exists run :: Leads(cfg, s, run, t)
  }

  lemma LeadsToItself(cfg: Config, s: System)
    ensures LeadsTo(cfg, s, s)
  {
    assert Leads(cfg, s, [], s);
  }

  lemma LeadsByStep(cfg: Config, s: System, a: Action, t: System)
    requires Enabled(cfg, s, a) && Inner(a) && LeadsTo(cfg, Apply(cfg, s, a), t)
    ensures LeadsTo(cfg, s, t)
  {
    var rest :| Leads(cfg, Apply(cfg, s, a), rest, t);
    var run := [a] + rest;
    assert run[1..] == rest;
    assert Leads(cfg, s, run, t);
  }

  lemma {:induction false} LeadsOn(cfg: Config, s: System, run: seq<Action>, t: System, u: System)
    requires Leads(cfg, s, run, t) && LeadsTo(cfg, t, u)
    ensures LeadsTo(cfg, s, u)
    decreases |run|
  {
    if run != [] {
      assert forall i :: 0 <= i < |run[1..]| ==> run[1..][i] == run[i + 1];
      LeadsOn(cfg, Apply(cfg, s, run[0]), run[1..], t, u);
      LeadsByStep(cfg, s, run[0], u);
    }
  }

  lemma LeadsFarther(cfg: Config, s: System, t: System, u: System)
    requires LeadsTo(cfg, s, t) && LeadsTo(cfg, t, u)
    ensures LeadsTo(cfg, s, u)
  {
    var run :| Leads(cfg, s, run, t);
    LeadsOn(cfg, s, run, t, u);
  }

  lemma LeadsFollows(cfg: Config, s: System, t: System)
    requires LeadsTo(cfg, s, t)
    ensures CanFollow(cfg, s, t)
  {
    var run :| Leads(cfg, s, run, t);
  }

  lemma ManagedLeads(cfg: Config, s: System, t: System)
    requires CanManage(cfg, s, t)
    ensures LeadsTo(cfg, s, t)
  {
    var run :| Manages(cfg, s, run, t);
    assert Leads(cfg, s, run, t);
  }

  lemma InnerStepKeepsList(cfg: Config, s: System, a: Action)
    requires Enabled(cfg, s, a) && Inner(a)
    ensures var t := Apply(cfg, s, a); t.mem == s.mem && t.sweeping == s.sweeping
  {
  }

  /** Such steps leave the list, and what the sweepers have found, as they are. */
  lemma {:induction false} LeadsKeepsList(cfg: Config, s: System, run: seq<Action>, t: System)
    requires Leads(cfg, s, run, t)
    ensures t.mem == s.mem && t.sweeping == s.sweeping && WithoutCrash(run)
    decreases |run|
  {
    if run != [] {
      InnerStepKeepsList(cfg, s, run[0]);
      assert forall i :: 0 <= i < |run[1..]| ==> run[1..][i] == run[i + 1];
      LeadsKeepsList(cfg, Apply(cfg, s, run[0]), run[1..], t);
    }
  }

  /** The worker has the job, as it was, in hand; or, if it was flagged, the job waits no longer. */
  ghost predicate TakenAs(t: System, id: JobId, j: Job) {
    && id in t.mem && id in t.heap
    && if j.cancel then !t.heap[id].status.Queued? else t.worker == Picked(id) && t.heap[id] == j
  }

  /** The worker has the job in hand, or the job waits no longer. */
  ghost predicate Taken(t: System, id: JobId) {
    || (!t.worker.Idle? && t.worker.job == id && (t.worker.Picked? || t.worker.Gated?))
    || (id in t.heap && !t.heap[id].status.Queued?)
  }

  // ------------------------------------------------------------------ the worker can finish

  ghost function ShortestBackoff(cfg: Config, attempts: nat): (delay: real)
    requires |cfg.retryDelays| > 0
    ensures IsBackoff(cfg, attempts, delay)
  {
    var k := if attempts == 0 then 0 else attempts - 1;
    var base := cfg.retryDelays[if k < |cfg.retryDelays| then k else |cfg.retryDelays| - 1];
    AtLeastZero(base - Share(base, cfg.jitter))
  }

  /** A way through every phase of the handler: the job in hand is worked on to its end. */
  ghost function WayOut(cfg: Config, s: System): Move
    requires !s.worker.Idle? && s.worker.job in s.heap && |cfg.retryDelays| > 0
  {
    match s.worker
    case Picked(_) => Gate
    case Gated(_) => Start
    case Launched(_) => SetUp
    case Deferring(_, _) => Defer
    case DeferSaved(_) => Reschedule
    case Working(id, last) => if !last then Report(true) else if s.heap[id].fromBucket then Upload else Direct
    case Uploaded(_) => LastLook
    case Committing(_) => Commit([])
    case Recorded(_) => Finish
    case Stopping(_) => Stop
    case Failing(_, _, _) => Fall
    case Requeuing(id) => BackOff(ShortestBackoff(cfg, s.heap[id].attempts))
    case BackingOff(_, _) => RetryLater
  }

  ghost function StepsLeft(w: Phase): nat {
    match w
    case Idle => 0
    case Picked(_) => 9
    case Gated(_) => 8
    case Launched(_) => 7
    case Working(_, last) => if last then 5 else 6
    case Uploaded(_) => 4
    case Committing(_) => 3
    case Failing(_, _, _) => 3
    case Requeuing(_) => 2
    case Deferring(_, _) => 2
    case _ => 1
  }

  lemma WayOutIsOpen(cfg: Config, s: System)
    requires Inv(cfg, s) && |cfg.retryDelays| > 0 && !s.worker.Idle?
    ensures s.worker.job in s.heap && CanGoOn(cfg, s, WayOut(cfg, s))
    ensures StepsLeft(GoneOn(cfg, s, WayOut(cfg, s)).worker) < StepsLeft(s.worker)
  {
    assert JobInv(cfg, s, s.worker.job);
  }

  /** Taking it brings the worker nearer to idle and leaves the other jobs alone. */
  lemma WayOutWorks(cfg: Config, s: System, id: JobId, i: nat)
    requires Inv(cfg, s) && |cfg.retryDelays| > 0 && !s.worker.Idle?
    requires i < |s.queue| && s.queue[i] == id
    ensures s.worker.job in s.heap && CanGoOn(cfg, s, WayOut(cfg, s))
    ensures var t := GoneOn(cfg, s, WayOut(cfg, s));
            && StepsLeft(t.worker) < StepsLeft(s.worker)
            && i < |t.queue| && t.queue[i] == id
            && (id in s.mem && id in s.heap ==> id in t.mem && id in t.heap && t.heap[id] == s.heap[id])
  {
    WayOutIsOpen(cfg, s);
    assert JobInv(cfg, s, id);
    QueueHas(s.queue, id);
    OthersUntouched(cfg, s, WayOut(cfg, s), id);
  }

  // ------------------------------------------------------------------ every wake-up comes

  /** An executor entry is reached after the entries before it. */
  lemma EntryIsReached(cfg: Config, s: System, id: JobId, i: nat) returns (t: System)
    requires Inv(cfg, s) && |cfg.retryDelays| > 0
    requires i < |s.queue| && s.queue[i] == id
    requires id in s.mem && id in s.heap && s.heap[id].status.Queued?
    ensures CanManage(cfg, s, t) && TakenAs(t, id, s.heap[id])
    decreases i, StepsLeft(s.worker)
  {
    if s.worker.Idle? {
      var u := PickStep(s);
      MoveKeepsInv(cfg, s, Pick);
      if s.queue[0] == id {
        t := u;
        ManagesItself(cfg, t);
      } else {
        assert u.queue[i - 1] == id;
        t := EntryIsReached(cfg, u, id, i - 1);
      }
      ByMove(cfg, s, Pick, t);
    } else {
      WayOutWorks(cfg, s, id, i);
      var m := WayOut(cfg, s);
      MoveKeepsInv(cfg, s, m);
      t := EntryIsReached(cfg, Moved(cfg, s, m), id, i);
      ByMove(cfg, s, m, t);
    }
  }

  lemma TimerFires(cfg: Config, s: System, id: JobId, k: nat) returns (t: System)
    requires Inv(cfg, s) && |cfg.retryDelays| > 0
    requires k < |s.timers| && s.timers[k].job == id
    requires id in s.mem && id in s.heap && s.heap[id].status.Queued?
    ensures CanManage(cfg, s, t) && TakenAs(t, id, s.heap[id])
    decreases s.timers[k].due > s.clock
  {
    if s.timers[k].due > s.clock {
      var e := Tick(s.timers[k].due - s.clock);
      EventKeepsInv(cfg, s, e);
      t := TimerFires(cfg, Happened(cfg, s, e), id, k);
      ByStep(cfg, s, Happen(e), t);
    } else {
      var u := Happened(cfg, s, Fire(k));
      EventKeepsInv(cfg, s, Fire(k));
      t := EntryIsReached(cfg, u, id, |u.queue| - 1);
      ByStep(cfg, s, Happen(Fire(k)), t);
    }
  }

  lemma SubmissionArrives(cfg: Config, s: System, id: JobId) returns (t: System)
    requires Inv(cfg, s) && |cfg.retryDelays| > 0
    requires id in s.submitting && id in s.mem && id in s.heap && s.heap[id].status.Queued?
    ensures CanManage(cfg, s, t) && TakenAs(t, id, s.heap[id])
  {
    var u := Happened(cfg, s, Submit(id));
    EventKeepsInv(cfg, s, Submit(id));
    t := EntryIsReached(cfg, u, id, |u.queue| - 1);
    ByStep(cfg, s, Happen(Submit(id)), t);
  }

  lemma HandOverArrives(cfg: Config, s: System, id: JobId, m: Move) returns (t: System)
    requires Inv(cfg, s) && |cfg.retryDelays| > 0
    requires Holds(s, id) && id in s.mem && id in s.heap && s.heap[id].status.Queued?
    requires if s.worker.DeferSaved? then m == Reschedule else s.worker.BackingOff? && m == RetryLater
    ensures CanManage(cfg, s, t) && TakenAs(t, id, s.heap[id])
  {
    var u := Moved(cfg, s, m);
    MoveKeepsInv(cfg, s, m);
    var delay := if s.worker.DeferSaved? then cfg.deferSec else s.worker.delay;
    if delay <= 0.0 {
      assert u.queue == s.queue + [id];
      t := EntryIsReached(cfg, u, id, |u.queue| - 1);
    } else {
      assert u.timers == s.timers + [Timer(id, s.clock + delay)];
      t := TimerFires(cfg, u, id, |u.timers| - 1);
    }
    ByMove(cfg, s, m, t);
  }

  /** A retry that still has to be arranged. */
  lemma RetryArrives(cfg: Config, s: System, id: JobId) returns (t: System, j: Job)
    requires Inv(cfg, s) && |cfg.retryDelays| > 0
    requires s.worker == Requeuing(id) && id in s.mem && id in s.heap && s.heap[id].status.Queued?
    ensures j == s.heap[id].(notBefore := j.notBefore, waiting := j.waiting)
    ensures CanManage(cfg, s, t) && TakenAs(t, id, j)
  {
    var m := BackOff(ShortestBackoff(cfg, s.heap[id].attempts));
    MoveKeepsInv(cfg, s, m);
    var u := Moved(cfg, s, m);
    j := u.heap[id];
    t := HandOverArrives(cfg, u, id, RetryLater);
    ByMove(cfg, s, m, t);
  }

  lemma HandlerHandsOver(cfg: Config, s: System, id: JobId) returns (t: System)
    requires Inv(cfg, s) && |cfg.retryDelays| > 0
    requires Holds(s, id) && id in s.mem && id in s.heap && s.heap[id].status.Queued?
    ensures CanManage(cfg, s, t) && Taken(t, id)
  {
    assert JobInv(cfg, s, id);
    match s.worker {
      case Deferring(_, _) =>
        t := Moved(cfg, s, Defer);
        MoveKeepsInv(cfg, s, Defer);
        if t.worker.Idle? { ManagesItself(cfg, t); } else { t := HandOverArrives(cfg, t, id, Reschedule); }
        ByMove(cfg, s, Defer, t);
      case DeferSaved(_) =>
        t := HandOverArrives(cfg, s, id, Reschedule);
      case Requeuing(_) =>
        var j;
        t, j := RetryArrives(cfg, s, id);
      case BackingOff(_, _) =>
        t := HandOverArrives(cfg, s, id, RetryLater);
      case _ =>
        t := s;
        ManagesItself(cfg, t);
    }
  }

  /** A waiting job that the worker has not in hand comes into its hand as it is. */
  lemma WakeUpArrives(cfg: Config, s: System, id: JobId) returns (t: System)
    requires Inv(cfg, s) && |cfg.retryDelays| > 0
    requires id in s.mem && id in s.heap && s.heap[id].status.Queued? && id !in s.lost && !Holds(s, id)
    ensures CanManage(cfg, s, t) && TakenAs(t, id, s.heap[id])
  {
    assert JobInv(cfg, s, id);
    QueueHas(s.queue, id);
    if id in s.submitting {
      t := SubmissionArrives(cfg, s, id);
    } else if id in s.queue {
      var i :| 0 <= i < |s.queue| && s.queue[i] == id;
      t := EntryIsReached(cfg, s, id, i);
    } else {
      TimerFor(s, id);
      var k :| 0 <= k < |s.timers| && s.timers[k].job == id;
      t := TimerFires(cfg, s, id, k);
    }
  }

  /** From every reachable state every waiting job that is not lost is taken by some run of the
      service's own steps, without anybody's help, and without an error. */
  lemma WaitingJobArrives(cfg: Config, s: System, id: JobId) returns (t: System)
    requires Reachable(cfg, s) && |cfg.retryDelays| > 0
    requires id in s.mem && id in s.heap && s.heap[id].status.Queued? && id !in s.lost
    ensures CanManage(cfg, s, t) && Taken(t, id)
  {
    ReachableInv(cfg, s);
    if Holds(s, id) {
      t := HandlerHandsOver(cfg, s, id);
    } else {
      t := WakeUpArrives(cfg, s, id);
    }
  }

  lemma OwnEventLeavesLost(cfg: Config, s: System, e: Event, id: JobId)
    requires CanHappen(cfg, s, e) && Own(Happen(e)) && id in s.heap
    ensures var t := Happened(cfg, s, e); id in t.heap && t.heap[id] == s.heap[id]
  {
  }

  /** A lost job that waits goes on waiting. */
  lemma {:induction false} LostJobWaitsOn(cfg: Config, s: System, run: seq<Action>, id: JobId, t: System)
    requires Inv(cfg, s) && Manages(cfg, s, run, t) && id in s.lost && id in s.heap && s.heap[id].status.Queued?
    ensures !Taken(t, id)
    decreases |run|
  {
    assert JobInv(cfg, s, id);
    if run != [] {
      StepLeavesLost(cfg, s, run[0], id);
      StepKeepsInv(cfg, s, run[0]);
      match run[0] {
        case Work(m) => MoveLeavesLost(cfg, s, m, id);
        case Happen(e) => OwnEventLeavesLost(cfg, s, e, id);
      }
      assert forall i :: 0 <= i < |run[1..]| ==> run[1..][i] == run[i + 1];
      LostJobWaitsOn(cfg, Apply(cfg, s, run[0]), run[1..], id, t);
    }
  }

  /** Exactly which waiting jobs the service can get to by itself: those that are not lost. */
  lemma WaitingJobIsTaken(cfg: Config, s: System, id: JobId)
    requires Reachable(cfg, s) && |cfg.retryDelays| > 0
    requires id in s.mem && id in s.heap && s.heap[id].status.Queued?
    ensures (exists t :: CanManage(cfg, s, t) && Taken(t, id)) <==> id !in s.lost
  {
    ReachableInv(cfg, s);
    if id !in s.lost {
      var t := WaitingJobArrives(cfg, s, id);
    }
    forall t | CanManage(cfg, s, t) && id in s.lost ensures !Taken(t, id) {
      var run :| Manages(cfg, s, run, t);
      LostJobWaitsOn(cfg, s, run, id, t);
    }
  }
}

/** The service's code: one method per locked region, on shared, mutable job objects.

    Every region takes its step of `Lifecycle` and keeps the invariant, so what is proved of the state
    machine holds of the objects. */
module Service {
  import opened JobModel
  import opened Lifecycle
  import opened LifecycleInvariant
  import opened LifecycleSteps
  import opened LifecycleTheorems
  import opened JobObjects
  import opened Recovery

  datatype Lookup = Missing | Found(job: Job)

  /** How a route answers before it takes the lock. */
  datatype Answer = Passed | NotFound | InReview | NotAllowed

  // ------------------------------------------------------------------ what the regions rely on

  lemma PickedIsDue(cfg: Config, s: System)
    requires Inv(cfg, s) && s.worker.Picked?
    ensures s.worker.job in s.heap && s.heap[s.worker.job].notBefore <= s.clock
  {
    assert JobInv(cfg, s, s.worker.job);
  }

  lemma AttemptsFit(cfg: Config, s: System, id: JobId)
    requires Inv(cfg, s) && id in s.heap
    ensures s.heap[id].attempts <= cfg.maxAttempts
  {
    assert JobInv(cfg, s, id);
  }

  lemma UnusedIsNew(cfg: Config, s: System, id: JobId)
    requires Inv(cfg, s) && id !in s.used
    ensures id !in s.heap && id !in s.disk && id !in s.mem
  {
    assert JobInv(cfg, s, id);
  }

  lemma RegisteredWakes(cfg: Config, s: System, id: JobId, fromBucket: bool)
    requires Inv(cfg, s) && id !in s.used
    ensures Wakes(RegisterStep(s, id, fromBucket), id) == 1
  {
    assert JobInv(cfg, s, id);
  }

  lemma LostIsNotAwaited(cfg: Config, s: System, id: JobId)
    requires Inv(cfg, s) && id in s.lost
    ensures Wakes(s, id) == 0
  {
    assert JobInv(cfg, s, id);
  }

  lemma HandedOverComes(cfg: Config, s: System, id: JobId, delay: real)
    requires Inv(cfg, s) && (s.worker.DeferSaved? || s.worker.BackingOff?) && s.worker.job == id && id in s.heap
    requires delay == if s.worker.DeferSaved? then cfg.deferSec else s.worker.delay
    ensures var t := ScheduleAt(s, id, delay).(worker := Idle); Wakes(t, id) == 1 && Comes(t, id)
  {
    assert JobInv(cfg, s, id);
    HandOverWakes(s, delay, id);
    var t := ScheduleAt(s, id, delay).(worker := Idle);
    if delay > 0.0 {
      assert t.timers[|s.timers|] == Timer(id, s.clock + delay);
    }
  }

  // What some actions come to when it is the worker's turn with the job `id`.

  lemma CommitComesTo(cfg: Config, s: System, id: JobId, needs: seq<string>)
    requires Enabled(cfg, s, Work(Commit(needs))) && s.worker.job == id
    ensures id in s.heap
    ensures Apply(cfg, s, Work(Commit(needs))) == Put(s, id, Committed(s.heap[id], needs, s.clock)).(worker := Recorded(id))
  {
  }

  lemma FallComesTo(cfg: Config, s: System, id: JobId, permanent: bool, transient: bool)
    requires Enabled(cfg, s, Work(Fall)) && s.worker == Failing(id, permanent, transient)
    ensures id in s.heap
    ensures Apply(cfg, s, Work(Fall))
         == Put(s, id, Fallen(cfg, s.heap[id], permanent, transient, s.clock))
            .(worker := if Retries(cfg, s.heap[id], permanent, transient) then Requeuing(id) else Idle)
  {
  }

  lemma BackOffComesTo(cfg: Config, s: System, id: JobId, delay: real)
    requires Enabled(cfg, s, Work(BackOff(delay))) && s.worker.job == id
    ensures id in s.heap
    ensures Apply(cfg, s, Work(BackOff(delay)))
         == Put(s, id, BackedOff(s.heap[id], s.clock, delay)).(worker := BackingOff(id, delay))
  {
  }

  lemma WipedRestarts(s: System, t: System)
    requires t == System(s.clock, s.used, map[], {}, s.disk, s.dirs, {}, [], [], Idle, {}, {}, {}, {})
    ensures forall order :: ResumeOrder(t, order) ==> ResumeOrder(s, order)
    ensures forall order :: Restarted(t, order) == Restarted(s, order)
  {
  }

  ghost function Runners(s: System): set<JobId> {
    set id | id in s.mem && id in s.heap && s.heap[id].status.Running?
  }

  ghost function FlagSome(heap: map<JobId, Job>, rows: set<JobId>, now: real): map<JobId, Job> {
    map id | id in heap :: if id in rows then Flagged(heap[id], now) else heap[id]
  }

  lemma FlagNext(heap: map<JobId, Job>, rows: set<JobId>, id: JobId, now: real)
    requires id in heap && id !in rows
    ensures FlagSome(heap, rows, now)[id] == heap[id]
    ensures FlagSome(heap, rows + {id}, now) == FlagSome(heap, rows, now)[id := Flagged(heap[id], now)]
  {
  }

  lemma CancelAllIsFlagSome(s: System, rows: set<JobId>)
    requires s.mem <= s.heap.Keys && rows == Waiters(s) + Runners(s)
    ensures CancelAllStep(s).heap == FlagSome(s.heap, rows, s.clock)
    ensures CancelAllStep(s).disk
         == map id | id in s.disk :: if id in rows then FlagSome(s.heap, rows, s.clock)[id] else s.disk[id]
  {
  }

  class Server {
    const cfg: Config
    var clock: real
    var jobs: map<JobId, JobObject>
    var disk: map<JobId, Job>
    var dirs: set<JobId>
    var queue: seq<JobId>
    var timers: seq<Timer>
    // What the threads hold in their own variables: every object some thread may still use, the ids
    // handed out, and where each thread stands.
    var objects: map<JobId, JobObject>
    var used: set<JobId>
    var submitting: set<JobId>
    var worker: Phase
    var lost: set<JobId>
    var cancelling: set<JobId>
    var deleting: set<JobId>
    var sweeping: set<JobId>

    ghost predicate Valid()
      reads this
    {
      && (forall id :: id in objects ==> objects[id].id == id)
      && (forall id :: id in jobs ==> id in objects && jobs[id] == objects[id])
    }

    ghost function Heap(): map<JobId, Job>
      reads this`objects, objects.Values
    {
      map id | id in objects :: objects[id].Record()
    }

    ghost function State(): System
      reads this, objects.Values
    {
      System(clock, used, Heap(), jobs.Keys, disk, dirs, submitting, queue, timers, worker,
             lost, cancelling, deleting, sweeping)
    }

    /** Whoever changes one object changes the heap, which `was`, at one place. */
    lemma OnlyChanged(was: map<JobId, Job>, j: JobObject)
      requires j.id in objects && objects[j.id] == j && was.Keys == objects.Keys
      requires forall id :: id in objects && id != j.id ==> was[id] == objects[id].Record()
      ensures Heap() == was[j.id := j.Record()]
    {
    }

    /** Everything is in order, and the action may happen. */
    ghost predicate Ready(a: Action)
      reads this, objects.Values
    {
      Valid() && Inv(cfg, State()) && Enabled(cfg, State(), a)
    }

    /** The action happened to the objects, and everything is in order again. */
    ghost predicate Took(was: System, a: Action)
      reads this, objects.Values
    {
      Valid() && Enabled(cfg, was, a) && State() == Apply(cfg, was, a) && Inv(cfg, State())
    }

    lemma StaysInOrder(was: System, a: Action)
      requires Valid() && Inv(cfg, was) && Enabled(cfg, was, a) && State() == Apply(cfg, was, a)
      ensures Took(was, a)
    {
      StepKeepsInv(cfg, was, a);
    }

    /** The worker is in its handler for this object. */
    predicate InHand(j: JobObject)
      reads this
    {
      !worker.Idle? && worker.job == j.id && j.id in objects && objects[j.id] == j
    }

    constructor (cfg: Config)
      ensures Valid() && State() == Boot && this.cfg == cfg
    {
      this.cfg := cfg;
      clock, jobs, disk, dirs, queue, timers := 1.0, map[], map[], {}, [], [];
      objects, used, submitting, worker := map[], {}, {}, Idle;
      lost, cancelling, deleting, sweeping := {}, {}, {}, {};
    }

    // ---------------------------------------------------------------- saving and scheduling

    /** Writes the record of an object that was just changed from what it was in state `was`.
        Without the job's folder the write fails, which is only logged. */
    method SaveJob(j: JobObject, ghost was: System)
      requires Valid() && j.id in objects && objects[j.id] == j
      requires State() == was.(heap := was.heap[j.id := j.Record()])
      modifies this`disk
      ensures Valid() && State() == Put(was, j.id, j.Record())
    {
      if j.id in dirs {
        disk := disk[j.id := j.Record()];
      }
    }

    method Schedule(id: JobId, delay: real)
      requires Valid()
      modifies this`queue, this`timers
      ensures Valid() && State() == ScheduleAt(old(State()), id, delay)
    {
      if delay <= 0.0 {
        queue := queue + [id];
        return;
      }
      timers := timers + [Timer(id, clock + delay)];
    }

    // ---------------------------------------------------------------- the worker

    /** The worker thread comes to the next point of its handler. */
    method Enter(p: Phase)
      requires Valid()
      modifies this`worker
      ensures Valid() && worker == p && State() == old(State()).(worker := p)
    {
      worker := p;
      assert Heap() == old(Heap());
    }

    /** A region that changed the object in hand ends: the record is written, the worker is at the next
        point, and that was the action. */
    method Conclude(j: JobObject, p: Phase, ghost was: System, ghost a: Action)
      requires Valid() && j.id in objects && objects[j.id] == j
      requires State() == was.(heap := Heap()) && was.heap.Keys == objects.Keys
      requires forall id :: id in objects && id != j.id ==> was.heap[id] == objects[id].Record()
      requires Inv(cfg, was) && Enabled(cfg, was, a)
      requires Apply(cfg, was, a) == Put(was, j.id, j.Record()).(worker := p)
      modifies this`disk, this`worker
      ensures Took(was, a) && worker == p && (!p.Idle? && p.job == j.id ==> InHand(j))
    {
      hide Inv, Enabled, Apply;
      OnlyChanged(was.heap, j);
      SaveJob(j, was);
      Enter(p);
      StaysInOrder(was, a);
    }

    /** A job cancelled while it waited. */
    method SkipJob(j: JobObject)
      requires Valid() && j.id in objects && objects[j.id] == j
      modifies this`disk, j
      ensures Valid() && State() == Put(old(State()), j.id, Skipped(old(j.Record()), clock))
    {
      j.Skip(clock);
      OnlyChanged(old(Heap()), j);
      SaveJob(j, old(State()));
    }

    method TakeEntry() returns (id: JobId)
      requires queue != []
      modifies this`queue
      ensures id == old(queue[0]) && State() == old(State()).(queue := old(queue[1..]))
    {
      id := queue[0];
      queue := queue[1..];
      assert Heap() == old(Heap());
    }

    /** The executor runs its first entry: the handler's first region.  Whoever is taken was not asked
        to stop, and is due. */
    method RunPick() returns (j: JobObject?)
      requires Ready(Work(Pick))
      modifies this`queue, this`worker, this`disk, objects.Values
      ensures Took(old(State()), Work(Pick))
      ensures if j == null then worker.Idle? else InHand(j) && worker.Picked? && !j.cancel && j.notBefore <= clock
    {
      hide Inv;
      ghost var s := State();
      var id := TakeEntry();
      j := null;
      if id in jobs {
        var found := jobs[id];
        assert s.heap[id] == found.Record();
        if found.cancel || found.status == Cancelled {
          SkipJob(found);
        } else {
          Enter(Picked(id));
          j := found;
        }
      }
      StaysInOrder(s, Work(Pick));
      if j != null {
        PickedIsDue(cfg, State());
        assert State().heap[j.id] == j.Record();
      }
    }

    /** The comparison with the appointment never sends a job away. */
    method RunGate(j: JobObject) returns (goOn: bool)
      requires Ready(Work(Gate)) && InHand(j)
      modifies this`worker
      ensures Took(old(State()), Work(Gate)) && goOn && InHand(j)
    {
      hide Inv;
      ghost var s := State();
      PickedIsDue(cfg, s);
      goOn := !(j.notBefore != 0.0 && clock < j.notBefore);
      Enter(if goOn then Gated(j.id) else Idle);
      StaysInOrder(s, Work(Gate));
    }

    method DecideToPostpone(j: JobObject)
      requires Ready(Work(LowDisk)) && InHand(j)
      modifies this`worker
      ensures Took(old(State()), Work(LowDisk)) && InHand(j)
    {
      hide Inv;
      ghost var s := State();
      Enter(Deferring(j.id, clock));
      StaysInOrder(s, Work(LowDisk));
    }

    /** Postpones the job.  `at` is the clock as it was read before the lock was taken.  No attempt is
        used.  The job fails exactly when its first postponement lies farther back than the limit. */
    method DeferJob(j: JobObject, at: real)
      requires Ready(Work(Defer)) && InHand(j) && worker == Deferring(j.id, at)
      modifies this`disk, this`worker, j
      ensures Took(old(State()), Work(Defer)) && j.attempts == old(j.attempts)
      ensures j.deferredSince == if old(j.deferredSince) == 0.0 then at else old(j.deferredSince)
      ensures if at - j.deferredSince > cfg.deferMax then j.status == Failed && j.finished == at && worker.Idle?
              else j.status == Queued && j.waiting == DeferWait && j.notBefore == at + cfg.deferSec && worker.DeferSaved?
    {
      hide Inv;
      ghost var s := State();
      j.Postpone(cfg, at);
      Conclude(j, if j.status == Failed then Idle else DeferSaved(j.id), s, Work(Defer));
    }

    /** The start is the one region that uses up an attempt, and there is one left. */
    method StartJob(j: JobObject)
      requires Ready(Work(Start)) && InHand(j)
      modifies this`disk, this`worker, j
      ensures Took(old(State()), Work(Start)) && InHand(j)
      ensures j.attempts == old(j.attempts) + 1 && j.attempts <= cfg.maxAttempts
    {
      hide Inv;
      ghost var s := State();
      j.Begin();
      Conclude(j, Launched(j.id), s, Work(Start));
      AttemptsFit(cfg, State(), j.id);
    }

    /** Comes to the `try`: from here on every error of the handler is caught. */
    method EnterGuard(j: JobObject)
      requires Ready(Work(SetUp)) && InHand(j)
      modifies this`worker
      ensures Took(old(State()), Work(SetUp)) && InHand(j) && !Unguarded(worker)
    {
      hide Inv;
      ghost var s := State();
      Enter(Working(j.id, false));
      StaysInOrder(s, Work(SetUp));
    }

    /** Whoever was to hand this job on is gone. */
    method Lose(id: JobId)
      requires Valid()
      modifies this`lost
      ensures Valid() && State() == old(State()).(lost := old(lost) + {id})
    {
      lost := lost + {id};
      assert Heap() == old(Heap());
    }

    /** An error outside the `try` ends the handler, and the executor swallows it: with it goes the one
        wake-up of the job. */
    method DieInHandler(j: JobObject)
      requires Ready(Work(Die)) && InHand(j)
      modifies this`worker, this`lost
      ensures Took(old(State()), Work(Die)) && worker.Idle? && Wakes(State(), j.id) == 0
    {
      hide Inv, Wakes;
      ghost var s := State();
      Enter(Idle);
      Lose(j.id);
      StaysInOrder(s, Work(Die));
      LostIsNotAwaited(cfg, State(), j.id);
    }

    method MakeFolder(j: JobObject)
      requires Ready(Work(MakeDir)) && InHand(j)
      modifies this`dirs
      ensures Took(old(State()), Work(MakeDir)) && InHand(j)
    {
      hide Inv;
      ghost var s := State();
      dirs := dirs + {j.id};
      assert Heap() == s.heap;
      StaysInOrder(s, Work(MakeDir));
    }

    /** A progress report: the one place where a running job can be stopped. */
    method Progress(j: JobObject, last: bool) returns (stop: bool)
      requires Ready(Work(Report(last))) && InHand(j)
      modifies this`disk, this`worker
      ensures Took(old(State()), Work(Report(last))) && InHand(j)
      ensures stop == j.cancel && (stop ==> worker.Stopping?)
    {
      hide Inv;
      ghost var s := State();
      stop := j.cancel;
      if stop {
        Enter(Stopping(j.id));
      } else {
        assert s.heap == s.heap[j.id := j.Record()];
        SaveJob(j, s);
        Enter(Working(j.id, last));
      }
      StaysInOrder(s, Work(Report(last)));
    }

    method NoteUpload(j: JobObject)
      requires Valid() && j.id in objects && objects[j.id] == j
      modifies j
      ensures Valid() && j.Record() == old(j.Record()).(uploaded := true)
      ensures State() == old(State()).(heap := old(Heap())[j.id := j.Record()])
    {
      j.uploaded := true;
      OnlyChanged(old(Heap()), j);
    }

    /** The key is recorded before the flag is looked at, so no result is left without a record. */
    method RecordUpload(j: JobObject)
      requires Ready(Work(Upload)) && InHand(j)
      modifies this`worker, j
      ensures Took(old(State()), Work(Upload)) && InHand(j) && j.uploaded
    {
      hide Inv;
      ghost var s := State();
      NoteUpload(j);
      Enter(Uploaded(j.id));
      StaysInOrder(s, Work(Upload));
    }

    method LastLookAt(j: JobObject) returns (stop: bool)
      requires Ready(Work(LastLook)) && InHand(j)
      modifies this`worker
      ensures Took(old(State()), Work(LastLook)) && InHand(j) && stop == j.cancel
    {
      hide Inv;
      ghost var s := State();
      stop := j.cancel;
      Enter(if stop then Stopping(j.id) else Committing(j.id));
      StaysInOrder(s, Work(LastLook));
    }

    /** A job without a bucket key has nothing to upload. */
    method SkipUpload(j: JobObject)
      requires Ready(Work(Direct)) && InHand(j)
      modifies this`worker
      ensures Took(old(State()), Work(Direct)) && InHand(j)
    {
      hide Inv;
      ghost var s := State();
      Enter(Committing(j.id));
      StaysInOrder(s, Work(Direct));
    }

    /** Completed: done exactly when nothing has to be looked at. */
    method CommitJob(j: JobObject, needs: seq<string>)
      requires Ready(Work(Commit(needs))) && InHand(j)
      modifies this`disk, this`worker, j
      ensures Took(old(State()), Work(Commit(needs))) && InHand(j)
      ensures j.review == needs && j.status == if needs == [] then Done else Review
    {
      ghost var s := State();
      CommitComesTo(cfg, s, j.id, needs);
      hide Inv, Enabled, Apply, Committed;
      j.Complete(needs, clock);
      Conclude(j, Recorded(j.id), s, Work(Commit(needs)));
    }

    method LeaveHandler(j: JobObject)
      requires Ready(Work(Finish)) && InHand(j)
      modifies this`worker
      ensures Took(old(State()), Work(Finish)) && worker.Idle?
    {
      hide Inv;
      ghost var s := State();
      Enter(Idle);
      StaysInOrder(s, Work(Finish));
    }

    method StopJob(j: JobObject)
      requires Ready(Work(Stop)) && InHand(j)
      modifies this`disk, this`worker, j
      ensures Took(old(State()), Work(Stop)) && worker.Idle? && j.status.Cancelled?
    {
      hide Inv;
      ghost var s := State();
      j.End(Cancelled, clock);
      Conclude(j, Idle, s, Work(Stop));
    }

    /** An error is caught while the job is worked on, ... */
    method Catch(j: JobObject, permanent: bool, transient: bool)
      requires Ready(Work(Raise(permanent, transient))) && InHand(j)
      modifies this`worker
      ensures Took(old(State()), Work(Raise(permanent, transient))) && InHand(j)
    {
      hide Inv;
      ghost var s := State();
      Enter(Failing(j.id, permanent, transient));
      StaysInOrder(s, Work(Raise(permanent, transient)));
    }

    /** ... or after its outcome was recorded: the same handler treats it. */
    method CatchLate(j: JobObject, permanent: bool, transient: bool)
      requires Ready(Work(LateRaise(permanent, transient))) && InHand(j)
      modifies this`worker
      ensures Took(old(State()), Work(LateRaise(permanent, transient))) && InHand(j)
    {
      hide Inv;
      ghost var s := State();
      Enter(Failing(j.id, permanent, transient));
      StaysInOrder(s, Work(LateRaise(permanent, transient)));
    }

    /** The first region of failure handling: a retry only while attempts are left. */
    method FailOrRetry(j: JobObject, permanent: bool, transient: bool) returns (retryable: bool)
      requires Ready(Work(Fall)) && InHand(j) && worker == Failing(j.id, permanent, transient)
      modifies this`disk, this`worker, j
      ensures Took(old(State()), Work(Fall))
      ensures retryable == (!permanent && transient && old(j.attempts) < cfg.maxAttempts)
      ensures if retryable then InHand(j) && j.status.Queued? else worker.Idle? && j.status.Failed?
    {
      ghost var s := State();
      FallComesTo(cfg, s, j.id, permanent, transient);
      hide Inv, Enabled, Apply, Fallen, Retries;
      retryable := j.Fall(cfg, permanent, transient, clock);
      Conclude(j, if retryable then Requeuing(j.id) else Idle, s, Work(Fall));
    }

    /** The second one: the appointment, ... */
    method MakeAppointment(j: JobObject, delay: real)
      requires Ready(Work(BackOff(delay))) && InHand(j)
      modifies this`disk, this`worker, j
      ensures Took(old(State()), Work(BackOff(delay))) && InHand(j)
      ensures j.notBefore == clock + delay && j.attempts == old(j.attempts)
    {
      ghost var s := State();
      BackOffComesTo(cfg, s, j.id, delay);
      hide Inv, Enabled, Apply, BackedOff;
      j.Wait(clock, delay);
      Conclude(j, BackingOff(j.id, delay), s, Work(BackOff(delay)));
    }

    /** ... and the wake-up, after a retry as after a postponement: from here on the executor or a timer
        holds the job's one wake-up, due when the job is. */
    method HandOver(id: JobId, delay: real)
      requires Ready(Work(if worker.DeferSaved? then Reschedule else RetryLater)) && worker.job == id
      requires delay == if worker.DeferSaved? then cfg.deferSec else worker.delay
      modifies this`queue, this`timers, this`worker
      ensures Took(old(State()), Work(if old(worker).DeferSaved? then Reschedule else RetryLater)) && worker.Idle?
      ensures Wakes(State(), id) == 1 && Comes(State(), id)
    {
      hide Inv;
      ghost var s := State();
      ghost var a := Work(if s.worker.DeferSaved? then Reschedule else RetryLater);
      Schedule(id, delay);
      Enter(Idle);
      StaysInOrder(s, a);
      HandedOverComes(cfg, s, id, delay);
    }

    // ---------------------------------------------------------------- requests

    method RegisterJob(j: JobObject)
      requires Valid() && j.id !in objects && j.Record() == Fresh(j.fromBucket, clock)
      modifies this`jobs, this`objects, this`dirs, this`used, this`submitting, this`disk
      ensures Valid() && State() == RegisterStep(old(State()), j.id, j.fromBucket)
      ensures objects == old(objects)[j.id := j]
    {
      AddObject(j);
      Announce(j);
    }

    /** The new job's folder and first record. */
    method Announce(j: JobObject)
      requires Valid()
      modifies this`dirs, this`used, this`submitting, this`disk
      ensures Valid()
      ensures State() == old(State()).(used := used, dirs := old(dirs) + {j.id}, submitting := submitting,
                                       disk := old(disk)[j.id := j.Record()])
      ensures used == old(used) + {j.id} && submitting == old(submitting) + {j.id}
    {
      dirs := dirs + {j.id};
      used, submitting := used + {j.id}, submitting + {j.id};
      disk := disk[j.id := j.Record()];
      assert Heap() == old(Heap());
    }

    /** Lists a new object. */
    method AddObject(j: JobObject)
      requires Valid() && j.id !in objects
      modifies this`jobs, this`objects
      ensures Valid() && objects == old(objects)[j.id := j]
      ensures State() == old(State()).(heap := old(Heap())[j.id := j.Record()], mem := old(jobs).Keys + {j.id})
    {
      jobs := jobs[j.id := j];
      objects := objects[j.id := j];
    }

    /** Registers a job unless the queue is full; both under one lock. */
    method Enqueue(id: JobId, fromBucket: bool) returns (accepted: bool)
      requires Valid() && Inv(cfg, State()) && id !in used
      modifies this`jobs, this`objects, this`dirs, this`used, this`submitting, this`disk
      ensures accepted == (cfg.queueMax == 0 || |Waiters(old(State()))| < cfg.queueMax)
      ensures if accepted then Took(old(State()), Happen(Register(id, fromBucket))) && Wakes(State(), id) == 1
              else Valid() && State() == old(State())
      ensures if accepted then id in objects && fresh(objects[id]) && objects == old(objects)[id := objects[id]]
              else objects == old(objects)
    {
      hide Inv;
      var waiting := CountWaiters();
      accepted := cfg.queueMax == 0 || waiting < cfg.queueMax;
      if accepted {
        RegisterNew(id, fromBucket);
      }
    }

    method RegisterNew(id: JobId, fromBucket: bool)
      requires Ready(Happen(Register(id, fromBucket)))
      modifies this`jobs, this`objects, this`dirs, this`used, this`submitting, this`disk
      ensures Took(old(State()), Happen(Register(id, fromBucket))) && Wakes(State(), id) == 1
      ensures id in objects && fresh(objects[id]) && objects == old(objects)[id := objects[id]]
    {
      hide Inv, Wakes;
      ghost var s := State();
      UnusedIsNew(cfg, s, id);
      var j := new JobObject(id, fromBucket, clock);
      RegisterJob(j);
      StaysInOrder(s, Happen(Register(id, fromBucket)));
      RegisteredWakes(cfg, s, id, fromBucket);
    }

    method CountWaiters() returns (n: nat)
      requires Valid()
      ensures n == |Waiters(State())|
    {
      n := |set id | id in jobs && jobs[id].status == Queued|;
      assert (set id | id in jobs && jobs[id].status == Queued) == Waiters(State());
    }

    /** The region of a cancel request whose check was passed earlier, without the lock. */
    method CancelJob(j: JobObject)
      requires Ready(Happen(CancelAct(j.id))) && objects[j.id] == j
      modifies this`disk, j
      ensures Took(old(State()), Happen(CancelAct(j.id))) && j.cancel && !j.status.Queued?
    {
      hide Inv;
      ghost var s := State();
      FlagOne(j);
      SaveJob(j, s);
      StaysInOrder(s, Happen(CancelAct(j.id)));
    }

    /** A cancel request for a job that is only on disk. */
    method CancelRecord(id: JobId)
      requires Ready(Happen(CancelOnDisk(id)))
      modifies this`disk
      ensures Took(old(State()), Happen(CancelOnDisk(id)))
    {
      hide Inv;
      ghost var s := State();
      var r := disk[id];
      disk := disk[id := if r.status == Queued then r.(cancel := true, status := Cancelled, finished := clock)
                         else r.(cancel := true)];
      assert Heap() == s.heap;
      StaysInOrder(s, Happen(CancelOnDisk(id)));
    }

    /** The verdict: check and change under one lock, so of two verdicts the second is refused. */
    method ReviewJob(j: JobObject, approve: bool) returns (accepted: bool)
      requires Valid() && Inv(cfg, State()) && j.id in objects && objects[j.id] == j
      modifies this`disk, j
      ensures accepted == old(j.status).Review?
      ensures if accepted then Took(old(State()), Happen(Judge(j.id, approve))) && !j.status.Review?
              else Valid() && State() == old(State())
    {
      hide Inv;
      ghost var s := State();
      if j.status != Review {
        return false;
      }
      j.Decide(approve, clock);
      OnlyChanged(s.heap, j);
      SaveJob(j, s);
      StaysInOrder(s, Happen(Judge(j.id, approve)));
      return true;
    }

    // The routes look a job up and check its status before they take the lock.

    function Find(id: JobId): (r: Lookup)
      requires Valid()
      reads this, objects.Values
      ensures r == if Listed(State(), id) then Found(View(State(), id)) else Missing
    {
      if id in jobs then Found(jobs[id].Record()) else if id in disk then Found(disk[id]) else Missing
    }

    /** What the cancel route answers; only a job that waits or runs is let through. */
    method CheckCancel(id: JobId) returns (answer: Answer)
      requires Valid() && Inv(cfg, State())
      modifies this`cancelling
      ensures answer.NotFound? <==> !Listed(old(State()), id)
      ensures answer.InReview? ==> View(old(State()), id).status.Review?
      ensures answer.Passed? <==> Listed(old(State()), id) && Live(View(old(State()), id))
      ensures if answer.Passed? && id in jobs then Took(old(State()), Happen(CancelCheck(id)))
              else Valid() && State() == old(State())
    {
      hide Inv;
      ghost var s := State();
      match Find(id)
      case Missing => answer := NotFound;
      case Found(j) =>
        if j.status == Review {
          answer := InReview;
        } else if j.status == Done || j.status == Failed || j.status == Cancelled {
          answer := NotAllowed;
        } else {
          answer := Passed;
          if id in jobs {
            cancelling := cancelling + {id};
            assert Heap() == s.heap;
            StaysInOrder(s, Happen(CancelCheck(id)));
          }
        }
    }

    /** What the delete route answers; only a job that has ended, and is not under review, is let
        through. */
    method CheckDelete(id: JobId) returns (answer: Answer)
      requires Valid() && Inv(cfg, State())
      modifies this`deleting
      ensures answer.NotFound? <==> !Listed(old(State()), id)
      ensures answer.InReview? ==> View(old(State()), id).status.Review?
      ensures answer.Passed? <==> Listed(old(State()), id) && !Live(View(old(State()), id)) && !View(old(State()), id).status.Review?
      ensures if answer.Passed? && id in jobs then Took(old(State()), Happen(DeleteCheck(id)))
              else Valid() && State() == old(State())
    {
      hide Inv;
      ghost var s := State();
      match Find(id)
      case Missing => answer := NotFound;
      case Found(j) =>
        if j.status == Review {
          answer := InReview;
        } else if j.status == Queued || j.status == Running {
          answer := NotAllowed;
        } else {
          answer := Passed;
          if id in jobs {
            deleting := deleting + {id};
            assert Heap() == s.heap;
            StaysInOrder(s, Happen(DeleteCheck(id)));
          }
        }
    }

    /** The removal of a job whose delete request was let through earlier, without the lock. */
    method DeleteRequested(id: JobId)
      requires Ready(Happen(DeleteAct(id)))
      modifies this`jobs, this`disk, this`dirs
      ensures Took(old(State()), Happen(DeleteAct(id))) && !Listed(State(), id)
    {
      hide Inv;
      ghost var s := State();
      DeleteJob(id);
      StaysInOrder(s, Happen(DeleteAct(id)));
    }

    /** A delete request for a job that is only on disk. */
    method DeleteRecord(id: JobId)
      requires Ready(Happen(DeleteOnDisk(id)))
      modifies this`jobs, this`disk, this`dirs
      ensures Took(old(State()), Happen(DeleteOnDisk(id))) && !Listed(State(), id)
    {
      hide Inv;
      ghost var s := State();
      DeleteJob(id);
      StaysInOrder(s, Happen(DeleteOnDisk(id)));
    }

    /** Flags the given jobs, all under one lock. */
    method FlagRows(rows: set<JobId>)
      requires Valid() && rows <= jobs.Keys
      modifies objects.Values
      ensures Valid() && State() == old(State()).(heap := FlagSome(old(Heap()), rows, clock))
    {
      ghost var heap := Heap();
      var todo := rows;
      while todo != {}
        invariant Valid() && todo <= rows
        invariant Heap() == FlagSome(heap, rows - todo, clock)
        decreases todo
      {
        var id :| id in todo;
        FlagNext(heap, rows - todo, id, clock);
        FlagOne(jobs[id]);
        todo := todo - {id};
        assert rows - todo == (rows - todo - {id}) + {id};
      }
      assert rows - todo == rows;
    }

    method FlagOne(j: JobObject)
      requires Valid() && j.id in objects && objects[j.id] == j
      modifies j
      ensures Valid() && Heap() == old(Heap())[j.id := Flagged(old(j.Record()), clock)]
      ensures j.Record() == Flagged(old(j.Record()), clock)
    {
      j.FlagToStop(clock);
      OnlyChanged(old(Heap()), j);
    }

    method SaveRows(rows: set<JobId>)
      requires Valid() && rows <= jobs.Keys
      modifies this`disk
      ensures Valid()
      ensures State() == old(State()).(disk := disk)
      ensures disk == map id | id in old(disk) :: if id in rows then Heap()[id] else old(disk)[id]
    {
      disk := map id | id in disk :: if id in rows then jobs[id].Record() else disk[id];
      assert Heap() == old(Heap());
    }

    method Rows() returns (queued: set<JobId>, busy: set<JobId>)
      requires Valid()
      ensures queued == Waiters(State()) && busy == Runners(State()) && queued + busy <= jobs.Keys
    {
      queued := set id | id in jobs && jobs[id].status == Queued;
      busy := set id | id in jobs && jobs[id].status == Running;
    }

    /** Stops everything that waits or runs: all are flagged in one region, then saved. */
    method CancelEverything() returns (waiting: nat, running: nat)
      requires Ready(Happen(CancelAll))
      modifies this`disk, objects.Values
      ensures Took(old(State()), Happen(CancelAll))
      ensures waiting == |Waiters(old(State()))| && running == |Runners(old(State()))|
    {
      hide Inv;
      var queued, busy := Rows();
      ghost var s := State();
      CancelAllIsFlagSome(s, queued + busy);
      FlagRows(queued + busy);
      SaveRows(queued + busy);
      StaysInOrder(s, Happen(CancelAll));
      return |queued|, |busy|;
    }

    // ---------------------------------------------------------------- the sweeper

    /** A sweep looks at one job; `now` is when the sweep began. */
    method LookOver(id: JobId, now: real) returns (over: bool)
      requires Valid() && Inv(cfg, State()) && now <= clock
      modifies this`sweeping
      ensures over ==> Listed(State(), id) && cfg.jobTtl != 0.0 && View(State(), id).finished != 0.0
      ensures Listed(State(), id) && cfg.jobTtl != 0.0 && View(State(), id).finished != 0.0 ==>
                var j := View(State(), id);
                over == if j.status == Failed || j.status == Cancelled then
                          cfg.failedTtl != 0.0 && now - j.finished > cfg.failedTtl
                        else if j.status == Review then cfg.reviewTtl != 0.0 && now - j.finished > cfg.reviewTtl
                        else now - j.finished > cfg.jobTtl
      ensures if over then Took(old(State()), Happen(SweepCheck(id))) else Valid() && State() == old(State())
    {
      hide Inv;
      ghost var s := State();
      match Find(id)
      case Missing => return false;
      case Found(j) =>
        var ttl := if j.status == Review then cfg.reviewTtl
                   else if j.status == Failed || j.status == Cancelled then cfg.failedTtl else cfg.jobTtl;
        if cfg.jobTtl == 0.0 || ttl == 0.0 {
          return false;
        }
        over := j.finished != 0.0 && now - j.finished > ttl;
        if over {
          sweeping := sweeping + {id};
          assert Heap() == s.heap;
          StaysInOrder(s, Happen(SweepCheck(id)));
        }
    }

    /** ... and removes it, whatever became of it since. */
    method RemoveSwept(id: JobId)
      requires Ready(Happen(SweepAct(id)))
      modifies this`jobs, this`disk, this`dirs
      ensures Took(old(State()), Happen(SweepAct(id))) && !Listed(State(), id)
    {
      hide Inv;
      ghost var s := State();
      DeleteJob(id);
      StaysInOrder(s, Happen(SweepAct(id)));
    }

    method DeleteJob(id: JobId)
      requires Valid()
      modifies this`jobs, this`disk, this`dirs
      ensures Valid() && State() == Remove(old(State()), id)
    {
      jobs := jobs - {id};
      disk := disk - {id};
      dirs := dirs - {id};
      assert jobs.Keys == old(jobs).Keys - {id};
    }

    // ---------------------------------------------------------------- after a crash

    method ForgetJobs()
      modifies this`jobs, this`objects
      ensures Valid() && objects == map[] && State() == old(State()).(heap := map[], mem := {})
    {
      jobs, objects := map[], map[];
      assert Heap() == map[] && jobs.Keys == {};
    }

    method ForgetWakeUps()
      requires Valid()
      modifies this`submitting, this`queue, this`timers, this`worker
      ensures Valid() && State() == old(State()).(submitting := {}, queue := [], timers := [], worker := Idle)
    {
      submitting, queue, timers, worker := {}, [], [], Idle;
      assert Heap() == old(Heap());
    }

    method ForgetRequests()
      requires Valid()
      modifies this`lost, this`cancelling, this`deleting, this`sweeping
      ensures Valid() && State() == old(State()).(lost := {}, cancelling := {}, deleting := {}, sweeping := {})
    {
      lost, cancelling, deleting, sweeping := {}, {}, {}, {};
      assert Heap() == old(Heap());
    }

    /** The process dies: nothing is left but the records, the folders and the time. */
    method Wipe()
      modifies this
      ensures Valid() && objects == map[]
      ensures State() == System(old(clock), old(used), map[], {}, old(disk), old(dirs), {}, [], [], Idle, {}, {}, {}, {})
    {
      ForgetJobs();
      ForgetWakeUps();
      ForgetRequests();
    }

    /** Lists an object read back from its record. */
    method Relist(id: JobId, r: Job)
      requires Valid() && id in disk && id !in objects
      modifies this`jobs, this`objects, this`disk
      ensures Valid() && id in objects && fresh(objects[id]) && objects == old(objects)[id := objects[id]]
      ensures State() == old(State()).(disk := old(disk)[id := r], heap := old(Heap())[id := r], mem := old(jobs).Keys + {id})
    {
      var j := new JobObject.Load(id, r);
      AddObject(j);
      disk := disk[id := r];
    }

    /** Start-up recovery of one record. */
    method RecoverRecord(id: JobId) returns (resume: bool)
      requires Valid() && id in disk && id !in objects
      modifies this`jobs, this`objects, this`disk
      ensures Valid() && resume == old(disk[id]).status.Queued?
      ensures State() == RecoverOne(old(State()), id)
      ensures objects == old(objects) || (id in objects && fresh(objects[id]) && objects == old(objects)[id := objects[id]])
    {
      var r := disk[id];
      resume := r.status == Queued;
      if r.status == Running {
        disk := disk[id := r.(status := Failed, finished := clock)];
      } else if r.status == Review {
        Relist(id, r);
      } else if r.status == Queued {
        Relist(id, r.(notBefore := 0.0, waiting := NotWaiting));
      } else {
        assert disk == disk[id := r];
      }
    }

    /** Start-up recovery: the records, oldest first.  Returns the jobs to be run again. */
    method RecoverOrphans() returns (resumed: seq<JobId>)
      requires Valid() && objects == map[]
      modifies this`jobs, this`objects, this`disk
      ensures Valid() && ResumeOrder(old(State()), resumed)
      ensures forall id :: id in resumed <==> id in old(disk) && old(disk)[id].status == Queued
      ensures forall i, k :: 0 <= i < k < |resumed| ==>
                resumed[i] != resumed[k] && resumed[i] in old(disk) && resumed[k] in old(disk)
                && old(disk)[resumed[i]].created <= old(disk)[resumed[k]].created
      ensures forall id :: id in objects ==> fresh(objects[id])
      ensures State() == RecoverSome(old(State()), old(disk).Keys)
    {
      ghost var s := State();
      var order := OldestFirst(disk);
      resumed := [];
      RecoverNone(s);
      assert Ids(order[..0]) == {};
      for i := 0 to |order|
        invariant Valid() && State() == RecoverSome(s, Ids(order[..i]))
        invariant objects.Keys <= Ids(order[..i]) && forall id :: id in objects ==> fresh(objects[id])
        invariant resumed == QueuedOf(s.disk, order[..i])
      {
        RecoverStep(s, order, i);
        RecoverNext(s, Ids(order[..i]), order[i]);
        assert disk == RecoverSome(s, Ids(order[..i])).disk;
        var resume := RecoverRecord(order[i]);
        if resume {
          resumed := resumed + [order[i]];
        }
      }
      assert order[..|order|] == order;
      QueuedOfIsResumeOrder(s, order);
    }

    /** Start-up: recovery, then every resumed job is submitted. */
    method ResumeOrphans() returns (ghost order: seq<JobId>)
      requires Valid() && objects == map[] && queue == [] && timers == [] && worker.Idle?
      requires submitting == {} && lost == {} && cancelling == {} && deleting == {} && sweeping == {}
      modifies this`jobs, this`objects, this`disk, this`queue
      ensures Valid() && ResumeOrder(old(State()), order) && State() == Restarted(old(State()), order)
      ensures forall id :: id in objects ==> fresh(objects[id])
    {
      var resumed := RecoverOrphans();
      order := resumed;
      RecoveredAll(old(State()), order);
      SubmitAll(resumed);
    }

    method SubmitAll(resumed: seq<JobId>)
      requires Valid()
      modifies this`queue
      ensures Valid() && State() == old(State()).(queue := old(queue) + resumed)
    {
      for i := 0 to |resumed|
        invariant queue == old(queue) + resumed[..i]
      {
        queue := queue + [resumed[i]];
      }
      assert resumed[..|resumed|] == resumed;
      assert Heap() == old(Heap());
    }

    /** A crash and the start-up of the next process. */
    method CrashAndRestart() returns (ghost order: seq<JobId>)
      requires Valid() && Inv(cfg, State())
      modifies this
      ensures Took(old(State()), Happen(Crash(order)))
      ensures forall id :: id in objects ==> fresh(objects[id])
    {
      hide Inv;
      ghost var s := State();
      Wipe();
      WipedRestarts(s, State());
      order := ResumeOrphans();
      StaysInOrder(s, Happen(Crash(order)));
    }
  }
}

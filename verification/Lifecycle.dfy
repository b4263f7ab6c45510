/** The job service as a state machine whose steps are its locked regions.

    One worker thread, any number of request threads, timers, a sweeper, and crashes that wipe the
    memory but keep the records on disk.  Between two regions of the worker's handler any other
    step may happen, so the handler is split into phases. */
module Lifecycle {
  import opened JobModel

  datatype Timer = Timer(job: JobId, due: real)

  /** Where the single worker thread stands in its handler. */
  datatype Phase =
    | Idle
    | Picked(job: JobId)                    // looked the job up; it was not cancelled
    | Gated(job: JobId)                     // its appointment has come
    | Deferring(job: JobId, at: real)       // decided to postpone, clock read
    | DeferSaved(job: JobId)                // postponed, wake-up not yet scheduled
    | Launched(job: JobId)                  // running; has yet to come to the `try`
    | Working(job: JobId, last: bool)       // inside it; `last`: passed the attempt's last progress report
    | Uploaded(job: JobId)                  // result uploaded, key recorded
    | Committing(job: JobId)                // past its last look at the cancel flag
    | Recorded(job: JobId)                  // outcome recorded; journal and clean-up remain
    | Stopping(job: JobId)                  // saw the cancel flag
    | Failing(job: JobId, permanent: bool, transient: bool)
    | Requeuing(job: JobId)                 // back to queued, no appointment yet
    | BackingOff(job: JobId, delay: real)   // appointment made, wake-up not yet scheduled

  datatype System = System(
    clock: real,
    used: set<JobId>,            // every id ever handed out
    heap: map<JobId, Job>,       // every job object of this process, listed or not
    mem: set<JobId>,             // the ids listed in memory
    disk: map<JobId, Job>,       // the record files
    dirs: set<JobId>,            // the job folders that exist
    submitting: set<JobId>,      // registered; the request thread has yet to submit it
    queue: seq<JobId>,           // the executor's entries
    timers: seq<Timer>,
    worker: Phase,
    lost: set<JobId>,            // whoever was to hand this job on died of an error before that
    cancelling: set<JobId>,      // cancel requests past their check, before their region
    deleting: set<JobId>,        // delete requests past their check, before their region
    sweeping: set<JobId>)        // jobs a sweeper found to be over, and has yet to remove

  /** What the worker thread does next. */
  datatype Move =
    | Pick                                        // takes the head of the queue
    | Gate                                        // compares the appointment with the clock
    | LowDisk                                     // finds too little space even after a sweep
    | Defer                                       // postpones the job
    | Reschedule
    | Start
    | SetUp                                       // comes to the `try` of the handler
    | MakeDir                                     // the pipeline creates the output folder
    | Report(last: bool)                          // a progress report: looks at the cancel flag
    | Upload
    | LastLook                                    // looks at the flag after the upload
    | Direct                                      // nothing to upload: no further look
    | Commit(needs: seq<string>)
    | Finish
    | LateRaise(permanent: bool, transient: bool) // an error after the outcome was recorded
    | Raise(permanent: bool, transient: bool)
    | Stop
    | Fall
    | BackOff(delay: real)
    | RetryLater
    | Die                                         // an error outside the `try` ends the handler

  /** What anybody else does. */
  datatype Event =
    | Tick(d: real)
    | Register(id: JobId, fromBucket: bool)
    | Submit(id: JobId)
    | Abandon(id: JobId)                          // the request thread dies before it submits the job
    | Fire(k: nat)
    | CancelCheck(id: JobId)
    | CancelAct(id: JobId)
    | CancelOnDisk(id: JobId)
    | CancelAll
    | DeleteCheck(id: JobId)
    | DeleteAct(id: JobId)
    | DeleteOnDisk(id: JobId)
    | Judge(id: JobId, approve: bool)
    | SweepCheck(id: JobId)                       // a sweeper looks at a job, without the lock
    | SweepAct(id: JobId)                         // ... and removes it
    | Crash(order: seq<JobId>)

  datatype Action = Work(move: Move) | Happen(event: Event)

  ghost const Boot := System(1.0, {}, map[], {}, map[], {}, {}, [], [], Idle, {}, {}, {}, {})

  // ------------------------------------------------------------------ pieces of the steps

  ghost predicate Holds(s: System, id: JobId) {
    !s.worker.Idle? && s.worker.job == id
  }

  /** Changes a job object and writes its record; without its folder nothing is written. */
  ghost function Put(s: System, id: JobId, j: Job): System {
    s.(heap := s.heap[id := j],
       disk := if id in s.dirs then s.disk[id := j] else s.disk)
  }

  /** Hands a job to the executor, now or by a timer. */
  ghost function ScheduleAt(s: System, id: JobId, delay: real): System {
    if delay <= 0.0 then s.(queue := s.queue + [id])
    else s.(timers := s.timers + [Timer(id, s.clock + delay)])
  }

  /** Takes a job off the list and removes its folder. */
  ghost function Remove(s: System, id: JobId): System {
    s.(mem := s.mem - {id}, disk := s.disk - {id}, dirs := s.dirs - {id})
  }

  /** The job as a listing shows it: the object in memory, otherwise the record. */
  ghost predicate Listed(s: System, id: JobId) {
    (id in s.mem && id in s.heap) || id in s.disk
  }

  ghost function View(s: System, id: JobId): Job
    requires Listed(s, id)
  {
    if id in s.mem && id in s.heap then s.heap[id] else s.disk[id]
  }

  ghost function Waiters(s: System): set<JobId> {
    set id | id in s.mem && id in s.heap && s.heap[id].status.Queued?
  }

  /** The jobs a restart puts back in the queue. */
  ghost function ToResume(s: System): set<JobId> {
    set id | id in s.disk && s.disk[id].status.Queued?
  }

  ghost predicate ResumeOrder(s: System, order: seq<JobId>) {
    && (forall i :: 0 <= i < |order| ==> order[i] in ToResume(s))
    && (forall id :: id in ToResume(s) ==> id in order)
    && (forall i, k :: 0 <= i < k < |order| ==> order[i] != order[k])
    && (forall i, k :: 0 <= i < k < |order| ==> order[i] in s.disk && order[k] in s.disk &&
                                                s.disk[order[i]].created <= s.disk[order[k]].created)
  }

  ghost function Recovered(j: Job, now: real): Job {
    match j.status
    case Running => Interrupted(j, now)
    case Queued => Resumed(j)
    case _ => j
  }

  /** Memory is gone; start-up recovery has run over the records. */
  ghost function Restarted(s: System, order: seq<JobId>): System {
    var disk := map id | id in s.disk :: Recovered(s.disk[id], s.clock);
    var back := set id | id in s.disk && (s.disk[id].status.Queued? || s.disk[id].status.Review?);
    s.(heap := map id | id in disk && id in back :: disk[id], mem := back, disk := disk,
       submitting := {}, queue := order, timers := [], worker := Idle, lost := {},
       cancelling := {}, deleting := {}, sweeping := {})
  }

  ghost function FlagLive(j: Job, now: real): Job {
    if Live(j) then Flagged(j, now) else j
  }

  // ------------------------------------------------------------------ guards

  /** Where the handler is outside its `try`, so that nobody catches an error. */
  ghost predicate Unguarded(w: Phase) {
    !w.Idle? && !w.Working? && !w.Uploaded? && !w.Committing? && !w.Recorded?
  }

  ghost predicate CanMove(cfg: Config, s: System, m: Move) {
    if s.worker.Idle? then m.Pick? && s.queue != []
    else s.worker.job in s.heap && CanGoOn(cfg, s, m)
  }

  ghost predicate CanGoOn(cfg: Config, s: System, m: Move)
    requires !s.worker.Idle? && s.worker.job in s.heap
  {
    var w := s.worker;
    match m
    case Pick => false
    case Gate => w.Picked?
    case LowDisk => w.Gated?
    case Defer => w.Deferring?
    case Reschedule => w.DeferSaved?
    case Start => w.Gated?
    case SetUp => w.Launched?
    case MakeDir => w.Working?
    case Report(_) => w.Working? && !w.last
    case Upload => w.Working? && w.last && s.heap[w.job].fromBucket
    case LastLook => w.Uploaded?
    case Direct => w.Working? && w.last && !s.heap[w.job].fromBucket
    case Commit(_) => w.Committing?
    case Finish => w.Recorded?
    case LateRaise(_, _) => w.Recorded?
    case Raise(_, _) => w.Working? || w.Uploaded? || w.Committing?
    case Stop => w.Stopping?
    case Fall => w.Failing?
    case BackOff(delay) => w.Requeuing? && IsBackoff(cfg, s.heap[w.job].attempts, delay)
    case RetryLater => w.BackingOff?
    case Die => Unguarded(w)
  }

  ghost predicate CanHappen(cfg: Config, s: System, e: Event) {
    match e
    case Tick(d) => d > 0.0
    case Register(id, _) => id !in s.used && (cfg.queueMax == 0 || |Waiters(s)| < cfg.queueMax)
    case Submit(id) => id in s.submitting
    case Abandon(id) => id in s.submitting
    case Fire(k) => k < |s.timers| && s.timers[k].due <= s.clock
    case CancelCheck(id) => id in s.mem && id in s.heap && Live(s.heap[id])
    case CancelAct(id) => id in s.cancelling && id in s.heap
    case CancelOnDisk(id) => id !in s.mem && id in s.disk && Live(s.disk[id])
    case CancelAll => s.mem <= s.heap.Keys
    case DeleteCheck(id) => id in s.mem && id in s.heap && !Live(s.heap[id]) && !s.heap[id].status.Review?
    case DeleteAct(id) => id in s.deleting
    case DeleteOnDisk(id) => id !in s.mem && id in s.disk && !Live(s.disk[id]) && !s.disk[id].status.Review?
    case Judge(id, _) => id in s.heap && s.heap[id].status.Review?
    case SweepCheck(id) => Listed(s, id) && Expired(cfg, View(s, id), s.clock)
    case SweepAct(id) => id in s.sweeping
    case Crash(order) => ResumeOrder(s, order)
  }

  ghost predicate Enabled(cfg: Config, s: System, a: Action) {
    match a
    case Work(m) => CanMove(cfg, s, m)
    case Happen(e) => CanHappen(cfg, s, e)
  }

  // ------------------------------------------------------------------ effects

  ghost function PickStep(s: System): System
    requires s.queue != []
  {
    var id := s.queue[0];
    var t := s.(queue := s.queue[1..]);
    if id !in s.mem || id !in s.heap then t
    else if s.heap[id].cancel || s.heap[id].status.Cancelled? then Put(t, id, Skipped(s.heap[id], s.clock))
    else t.(worker := Picked(id))
  }

  ghost function GateStep(s: System): System
    requires s.worker.Picked? && s.worker.job in s.heap
  {
    var j := s.heap[s.worker.job];
    if j.notBefore != 0.0 && s.clock < j.notBefore then s.(worker := Idle)
    else s.(worker := Gated(s.worker.job))
  }

  ghost function DeferStep(cfg: Config, s: System): System
    requires s.worker.Deferring? && s.worker.job in s.heap
  {
    var id := s.worker.job;
    var j := Postponed(cfg, s.heap[id], s.worker.at);
    Put(s, id, j).(worker := if j.status.Failed? then Idle else DeferSaved(id))
  }

  ghost function ReportStep(s: System, last: bool): System
    requires s.worker.Working? && s.worker.job in s.heap
  {
    var id := s.worker.job;
    if s.heap[id].cancel then s.(worker := Stopping(id))
    else Put(s, id, s.heap[id]).(worker := Working(id, last))
  }

  /** Records the key of the result.  Nothing is saved yet. */
  ghost function UploadStep(s: System): System
    requires !s.worker.Idle? && s.worker.job in s.heap
  {
    var id := s.worker.job;
    s.(heap := s.heap[id := s.heap[id].(uploaded := true)], worker := Uploaded(id))
  }

  ghost function LastLookStep(s: System): System
    requires s.worker.Uploaded? && s.worker.job in s.heap
  {
    var id := s.worker.job;
    s.(worker := if s.heap[id].cancel then Stopping(id) else Committing(id))
  }

  ghost function FallStep(cfg: Config, s: System): System
    requires s.worker.Failing? && s.worker.job in s.heap
  {
    var id := s.worker.job;
    var j := s.heap[id];
    var p, t := s.worker.permanent, s.worker.transient;
    Put(s, id, Fallen(cfg, j, p, t, s.clock))
    .(worker := if Retries(cfg, j, p, t) then Requeuing(id) else Idle)
  }

  ghost function RegisterStep(s: System, id: JobId, fromBucket: bool): System {
    var j := Fresh(fromBucket, s.clock);
    s.(used := s.used + {id}, heap := s.heap[id := j], mem := s.mem + {id},
       disk := s.disk[id := j], dirs := s.dirs + {id}, submitting := s.submitting + {id})
  }

  ghost function CancelAllStep(s: System): System
    requires s.mem <= s.heap.Keys
  {
    s.(heap := map id | id in s.heap :: if id in s.mem then FlagLive(s.heap[id], s.clock) else s.heap[id],
       disk := map id | id in s.disk :: if id in s.mem && Live(s.heap[id])
                                        then Flagged(s.heap[id], s.clock) else s.disk[id])
  }

  ghost function Moved(cfg: Config, s: System, m: Move): System
    requires CanMove(cfg, s, m)
  {
    if s.worker.Idle? then PickStep(s) else GoneOn(cfg, s, m)
  }

  ghost function GoneOn(cfg: Config, s: System, m: Move): System
    requires !s.worker.Idle? && s.worker.job in s.heap && CanGoOn(cfg, s, m)
  {
    var id := s.worker.job;
    var j := s.heap[id];
    match m
    case Gate => GateStep(s)
    case LowDisk => s.(worker := Deferring(id, s.clock))
    case Defer => DeferStep(cfg, s)
    case Reschedule => ScheduleAt(s, id, cfg.deferSec).(worker := Idle)
    case Start => Put(s, id, Started(j)).(worker := Launched(id))
    case SetUp => s.(worker := Working(id, false))
    case MakeDir => s.(dirs := s.dirs + {id})
    case Report(last) => ReportStep(s, last)
    case Upload => UploadStep(s)
    case LastLook => LastLookStep(s)
    case Direct => s.(worker := Committing(id))
    case Commit(needs) => Put(s, id, Committed(j, needs, s.clock)).(worker := Recorded(id))
    case Finish => s.(worker := Idle)
    case LateRaise(p, t) => s.(worker := Failing(id, p, t))
    case Raise(p, t) => s.(worker := Failing(id, p, t))
    case Stop => Put(s, id, Stopped(j, s.clock)).(worker := Idle)
    case Fall => FallStep(cfg, s)
    case BackOff(delay) => Put(s, id, BackedOff(j, s.clock, delay)).(worker := BackingOff(id, delay))
    case RetryLater => ScheduleAt(s, id, s.worker.delay).(worker := Idle)
    case Die => s.(worker := Idle, lost := s.lost + {id})
  }

  ghost function Happened(cfg: Config, s: System, e: Event): System
    requires CanHappen(cfg, s, e)
  {
    match e
    case Tick(d) => s.(clock := s.clock + d)
    case Register(id, fromBucket) => RegisterStep(s, id, fromBucket)
    case Submit(id) => s.(submitting := s.submitting - {id}, queue := s.queue + [id])
    case Abandon(id) => s.(submitting := s.submitting - {id}, lost := s.lost + {id})
    case Fire(k) => s.(timers := s.timers[..k] + s.timers[k+1..], queue := s.queue + [s.timers[k].job])
    case CancelCheck(id) => s.(cancelling := s.cancelling + {id})
    case CancelAct(id) => Put(s, id, Flagged(s.heap[id], s.clock))
    case CancelOnDisk(id) => s.(disk := s.disk[id := Flagged(s.disk[id], s.clock)])
    case CancelAll => CancelAllStep(s)
    case DeleteCheck(id) => s.(deleting := s.deleting + {id})
    case DeleteAct(id) => Remove(s, id)
    case DeleteOnDisk(id) => Remove(s, id)
    case Judge(id, approve) => Put(s, id, Judged(s.heap[id], approve, s.clock))
    case SweepCheck(id) => s.(sweeping := s.sweeping + {id})
    case SweepAct(id) => Remove(s, id)
    case Crash(order) => Restarted(s, order)
  }

  ghost function Apply(cfg: Config, s: System, a: Action): System
    requires Enabled(cfg, s, a)
  {
    match a
    case Work(m) => Moved(cfg, s, m)
    case Happen(e) => Happened(cfg, s, e)
  }

  // ------------------------------------------------------------------ runs

  /** Every action of the run is enabled where it happens. */
  ghost predicate Legal(cfg: Config, s: System, run: seq<Action>)
    decreases |run|
  {
    run == [] || (Enabled(cfg, s, run[0]) && Legal(cfg, Apply(cfg, s, run[0]), run[1..]))
  }

  ghost function After(cfg: Config, s: System, run: seq<Action>): System
    requires Legal(cfg, s, run)
    decreases |run|
  {
    if run == [] then s else After(cfg, Apply(cfg, s, run[0]), run[1..])
  }

  ghost predicate IsCrash(a: Action) {
    a.Happen? && a.event.Crash?
  }

  ghost predicate WithoutCrash(run: seq<Action>) {
    forall i :: 0 <= i < |run| ==> !IsCrash(run[i])
  }

  /** An error between the recorded outcome of this job and the end of its handler. */
  ghost predicate RaisesLate(s: System, a: Action, id: JobId) {
    a.Work? && a.move.LateRaise? && Holds(s, id)
  }

  /** No such error on this job; on others there may be any. */
  ghost predicate Spares(cfg: Config, s: System, run: seq<Action>, id: JobId)
    requires Legal(cfg, s, run)
    decreases |run|
  {
    run == [] || (!RaisesLate(s, run[0], id) && Spares(cfg, Apply(cfg, s, run[0]), run[1..], id))
  }
}

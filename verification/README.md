# Face anonymiser: a verified model

The repository blurs faces in videos: a web service queues jobs for one worker thread, the worker
detects and tracks faces, hides them, encodes the result and uploads it. This project models the
parts where a mistake loses a job, undoes a decision or leaves a face visible, and proves what the
code is for.

| files | what they hold |
|---|---|
| `Basics` | optional values and results |
| `JobModel`, `Lifecycle` | one job record; the service as a state machine whose steps are its locked regions |
| `LifecycleInvariant`, `LifecycleSteps` | the invariant behind the wake-ups, and that every step keeps it |
| `LifecycleEffects` | what each step does to a job, in the numbers and limits of the configuration |
| `LifecycleHistory` | postponing, retrying and sweeping over whole runs, by what happened in them |
| `LifecycleTheorems`, `LifecycleProgress` | what holds over every run; that a waiting job is taken |
| `LifecycleOutcome`, `LifecycleSpared` | when an outcome lasts, exactly; what holds of a job without a late error |
| `LifecycleReviews`, `LifecycleSweeps` | which jobs can come under review; when a sweeper takes one approved since its look |
| `LifecycleWitness` | concrete runs |
| `JobObjects`, `Recovery`, `Service`, `ServiceRuns` | the shared, mutable job objects; one method per region, each keeping the invariant; whole runs on the objects |
| `Listing` | the list of all jobs with its short-lived copy, on objects shared by copy and memory |
| `Journal`, `JournalPaging`, `JournalGrowth` | the journal read backwards in chunks; filter, limit and cursor; paging while lines are appended |
| `Tracking`, `Coverage` | filling the gaps of face tracks in place, and what that achieves |
| `Geometry`, `Masking`, `Exposure` | the map into the detector's square and back; rounding outwards and hiding pixels; the whole way |
| `Detect`, `Verdict` | the batched detection pass; from warnings to the reasons for a review |
| `OomRetry`, `Finalize`, `Naming`, `Folders` | smaller batches when memory is short; the delivered file; file names; the list of recent folders |

How the state machine was cut. The worker's handler is split at every place where another thread can
come in between: pick, gate, postponing, start, progress reports, upload, the last look at the flag,
commit, the failure regions. Cancel and delete requests check the status without the lock, so their
check and their region are two steps, and so are a sweeper's look and its removal. A crash keeps the
records, forgets everything else and runs the recovery; it may come between any two steps. An error
inside the handler's `try` is caught; one outside it ends the handler, which the executor swallows. The
model lets the handler die in every phase outside the `try`, and a request thread between registering
a job and submitting it, which is more than causes are known for (see below).

What is assumed there: a region and the save that follows it are one step that a crash does not
split; saving succeeds when the job's folder exists and is only logged when it does not; recovery is
switched on, and comes to its end; one process owns the jobs folder; one clock that does not run backwards
and shows more seconds than a copy of the listing is kept; every attempt that completes has made a last
progress report (pipeline.py:1222 and 1286 are always reached).

Where the code and its own words differ, the model follows the code:

- A waiting job is meant to be woken always. But the gate's forced sweep (worker.py:302) stands before the
  `try`, and it lists every folder unguarded (jobs.py:390): one that may not be listed, or that a delete or
  the sweeper thread removes at that moment, ends the handler. The job stays listed as waiting, and no entry,
  timer or handler is left to wake it until the next start. The same happens when a timer's thread cannot
  be started (worker.py:175); and when no store is configured (worker.py:371-373) the job stays listed as
  running. `lost` in `Lifecycle` records such jobs, and the theorems about wake-ups say what holds exactly.
- `done`, `failed` and `review` are meant to be final, but an error in the lines after the commit
  (worker.py:446-490) is caught by the same handlers and re-queues the job while attempts are left. One
  cause: `drop_media` lists the folder outside its `try` (jobs.py:348); when that fails for want of file
  handles, of permission, or on a stale network handle, the error is caught at worker.py:509, counts as
  `internal` (errors.py:306) and is retried. When instead the folder is gone by then, the error is
  `FileNotFoundError`, which is permanent (config.py:143): caught at worker.py:507, it makes the finished job
  fail. No theorem excludes such errors wholesale: `LifecycleTheorems` and `LifecycleProgress` hold
  with them, `LifecycleOutcome` says for each property of finished work exactly when it holds
  (`Reopenable`), and `LifecycleSpared` what is true of a job that had none itself.
- A sweep that is told to take reviews is meant to take those nobody decided in time; it may also take a job
  that was approved after its only look at it, long before the job's own time is over
  (`LifecycleWitness.ApprovedCanBeSwept`).
- A cancel request between the pick and the start of a job is overwritten by `running`; it still
  counts because the flag stays. For a job without a bucket key nothing looks at the flag after the last
  progress report.
- The cursor is meant to show each row once. Rows of one millisecond at a page boundary are lost, and
  with a page size of the read limit `has_more` is never set.
- The finalisation promises that no anonymised frame is lost. Where only the sound is added, a file
  whose frames cannot be counted, even an empty one, replaces the render.
- The output name of a name off the convention is not its own output: the suffix is added again.
- The smallest batch size comes from the environment; below zero the halving never ends.
- The listing withdraws its copy by setting the copy's time to 0; that works because the clock
  shows more seconds than a copy is kept.
- A journal is paged by time so that lines arriving meanwhile shift nothing; but without a date range only
  seven day files are read, and a new day pushes the oldest one out (`JournalGrowth.NewDayPushesOut`).

## Model

| member | source | states |
|---|---|---|
| `LifecycleSteps.StepKeepsInv` | face_anonymizer/service/worker.py:277-316 | Whatever step is taken, by the worker, a timer, a request, a sweeper or a crash, with errors at any place of the handler, inside its `try` or outside, the invariant of every job survives: at most one outstanding wake-up, and none only when whoever was to hand the job on died; record and object agree; a running job is the one the worker holds unless its handler died. The handler tests none of this itself. |
| `LifecycleSteps.RunKeepsInv` | face_anonymizer/service/worker.py:277-316 | The same over every finite interleaving of steps, of any kind. |
| `LifecycleTheorems.NoJobIsStranded` | face_anonymizer/service/worker.py:159-217 | In every reachable state a waiting job that is listed has exactly one outstanding wake-up, one that will find it ready (submission or executor entry with the appointment past, a timer not due before it, or the worker in its handler), if and only if it is not lost; a lost job has none at all. |
| `LifecycleTheorems.StrandedExactlyWhenDropped` | face_anonymizer/service/worker.py:288-306 | Over a whole life of the service: a listed waiting job has its one coming wake-up if and only if no handler of it, and no request that registered it, died of an uncaught error since the last start. |
| `LifecycleTheorems.LostStaysLost` | face_anonymizer/service/worker.py:277-316 | Until the next restart nobody takes a lost job up, whatever happens: one that waited waits or is cancelled, one that had been started runs on for ever, even when it is asked to stop, and no attempt is used. |
| `LifecycleWitness.GateCanLoseAJob` | face_anonymizer/service/worker.py:300-306 | A concrete run: the handler of a waiting job dies at the gate, nothing will wake the job, and the next start puts it back. |
| `LifecycleWitness.StartedCanBeLost` | face_anonymizer/service/worker.py:309-373 | A concrete run: the handler of a started job dies before its `try`, and the job is listed as running with nobody at work. |
| `LifecycleTheorems.GateNeverDrops` | face_anonymizer/service/worker.py:288-291 | The silent early return of the handler is never taken: a job that is picked has its appointment behind it, so no wake-up is lost there. |
| `LifecycleTheorems.RestartRewakes` | face_anonymizer/service/jobs.py:494-535 | After a restart from any state each waiting record, also that of a lost job, is in memory again with its record unchanged but for the appointment, which is gone, and with exactly one executor entry; a running one has failed at the time of the restart and is not taken up; one under review is as it was, without a wake-up; all others are records only, unchanged; nothing is lost any more. |
| `LifecycleProgress.EnoughPicksTakeTheJob` | face_anonymizer/service/worker.py:159-175 | In every run without a crash: once the worker has taken more entries than there were in front of the job's, it has taken the job's. Nobody overtakes, and no request, timer or error loses an entry. |
| `LifecycleProgress.WakeUpIsTaken` | face_anonymizer/service/worker.py:159-175 | The same from the timer or the submission on: once either has put the entry into the queue, and no crash has followed, one pick more than there were entries before it is enough, in every run, whatever happened before. |
| `LifecycleProgress.WakeUpStaysUntilTaken` | face_anonymizer/service/worker.py:159-175 | Until the entry is taken a wake-up outside the handler never gets lost, in any run without a crash and without the death of the job's request. |
| `LifecycleProgress.WaitingJobIsTaken` | face_anonymizer/service/worker.py:159-175 | From a reachable state some run of the service's own steps (worker without errors, timers, clock) takes a waiting job if and only if it is not lost: then no request or restart is needed to get it going. |
| `LifecycleTheorems.OneJobRuns` | face_anonymizer/service/worker.py:309-317 | A listed running job is in the worker's hand if and only if it is not lost, so at most one that is not lost runs; none has an appointment. |
| `LifecycleOutcome.FinishedWorkIsNeverRestarted` | face_anonymizer/service/worker.py:446-511 | A finished job that cannot be reopened never waits or runs again in any run, whatever errors happen, and once the worker has let go of it `done` stays `done` and `failed` stays `failed`, although the handler never tests the status. |
| `LifecycleOutcome.RestartedExactlyWhenReopenable` | face_anonymizer/service/worker.py:446-511 | The exact condition: some run puts a finished job back to waiting or running if and only if the worker has still to leave its handler (or is about to treat a retryable error there) and an attempt is left. |
| `LifecycleOutcome.DoneStaysExactlyWhenLetGo` | face_anonymizer/service/worker.py:446-511 | A done job stays done in all runs if and only if the worker is out of its handler. |
| `LifecycleOutcome.LateErrorUndoesTheOutcome` | face_anonymizer/service/worker.py:446-511 | The way it happens: a late error and the failure region leave the job waiting, with its outcome's time, reasons and verdict. |
| `LifecycleWitness.DoneCanBeUndone` | face_anonymizer/service/worker.py:446-511 | A concrete run from the start of the service in which a done job is waiting again. |
| `LifecycleOutcome.SweptAliveExactlyWhenReopenable` | face_anonymizer/service/jobs.py:432-448 | A finished job can come to be removed by a sweeper while it waits or runs and nobody asked to stop it, if and only if it can be reopened, is not flagged and sweeping is on: the time of its ending is kept. |
| `LifecycleWitness.DoneCanBeSweptWhileItWaits` | face_anonymizer/service/jobs.py:432-448 | A concrete run to such a state. |
| `LifecycleOutcome.DeletedAliveExactlyWhenReopenable` | face_anonymizer/service/server.py:1217-1232 | A delete request checks the status without the lock. It can come to remove a waiting or running job nobody asked to stop if and only if the job could be reopened, and was not flagged, when it was checked. |
| `LifecycleOutcome.DeletedCancelledIsDoomed` | face_anonymizer/service/server.py:1217-1232 | Let through for a cancelled job, it only ever meets one that cannot be completed any more, in every run. |
| `LifecycleWitness.DoneCanBeDeletedWhileItWaits` | face_anonymizer/service/server.py:1217-1232 | A concrete run in which the request checked for a done job can remove the waiting one. |
| `LifecycleOutcome.ReviewEndsByVerdict` | face_anonymizer/service/server.py:1160-1166 | A step ends a review by a verdict, which is what the record then carries, and otherwise exactly if it is the failure region for this job or a removal, by request or by a sweeper, that was decided upon earlier; cancel, cancel-all and restart leave it as it is. |
| `LifecycleReviews.JudgedAgainExactlyWhenReopenable` | face_anonymizer/service/server.py:1157-1166 | A done or failed job, judged or not, can come to be judged after all if and only if it can be reopened and is not flagged. |
| `LifecycleReviews.ReviewedExactlyWhenReviewable` | face_anonymizer/service/worker.py:193-511 | Before the next restart a listed job, whatever its status, can come under review if and only if it is under review already, or the worker is past its last look at the flag, or it is not flagged and: it waits, is not lost and is not just being postponed beyond the limit; or it runs in the worker's hand, and is not just failing for good; or it can be reopened. |
| `LifecycleWitness.ApprovedCanBeJudgedAgain` | face_anonymizer/service/server.py:1157-1166 | A concrete run in which an approved job can be approved again. |
| `LifecycleSpared.VerdictsAreConsistent` | face_anonymizer/service/server.py:1160-1166 | After a run without a late error on this job: one under review is undecided and has reasons, a done one is clean or approved, a rejected one has failed, and no other job carries reasons or a verdict. |
| `LifecycleSpared.ReviewIsUndisturbed` | face_anonymizer/service/server.py:1160-1166 | After such a run the one disruption of a review that can happen is a sweeper's, when it is told to take reviews. |
| `LifecycleSpared.JudgedAtMostOnce` | face_anonymizer/service/server.py:1157-1166 | After a verdict no second one is taken in any run without a late error on this job, and the recorded one never changes. |
| `LifecycleSpared.DeleteSparesWork` | face_anonymizer/service/server.py:1217-1232 | After a run without a late error on this job the later region of a delete request never meets it under review, nor while the worker could complete it. |
| `LifecycleSpared.SweepSparesWork` | face_anonymizer/service/jobs.py:432-448 | The sweeper looks at the time of an ending alone, without the lock; still, after such a run its later removal never meets this job while the worker could complete it, nor under review unless told to. |
| `LifecycleSweeps.SweepTakesApprovedExactlyWhen` | face_anonymizer/service/jobs.py:432-448 | Between look and removal there is no lock. From a sweeper's look at a job some run without any further look at it has the job approved and then removed, if and only if the job is listed in memory and at that look under review or on its way to one (`LifecycleReviews.Reviewable`), whatever its status; a review is looked at only by a sweeper told to take reviews. |
| `LifecycleWitness.ApprovedCanBeSwept` | face_anonymizer/service/jobs.py:432-448 | A concrete run to such a removal of a job under review at the look; the time of the approved job itself has only begun. |
| `LifecycleWitness.WaitingCanBeSweptOnceApproved` | face_anonymizer/service/jobs.py:432-448 | ... and of a job that at the look waited again, after a late error. |
| `LifecycleTheorems.CancellationIsHonoured` | face_anonymizer/service/worker.py:324-404 | A job whose flag is set before the worker's last look at it never reaches done or review, in any run, however often it is postponed, retried, overwritten to running or carried over a restart. |
| `LifecycleTheorems.CancelIsHeard` | face_anonymizer/service/server.py:1123-1127 | A cancel request sets the flag in object and record; a waiting job ends at once, a running one goes on until the worker looks. |
| `LifecycleTheorems.WindowCompletes` | face_anonymizer/service/worker.py:392-412 | Between the last look at the flag and the commit the flag comes too late: the job can still be completed. For a job without a bucket key this window opens with the last progress report of the attempt. |
| `LifecycleTheorems.CancelCountsOutsideTheWindow` | face_anonymizer/service/worker.py:392-412 | The exact condition: some run completes a flagged job that is not completed yet if and only if the worker is in that window with it. |
| `LifecycleTheorems.FlagStays` | face_anonymizer/service/server.py:1123-1127 | Once set, the cancel flag is never taken back, by any run, restarts included. |
| `LifecycleTheorems.FlagIsSaved` | face_anonymizer/service/server.py:1123-1127 | In every state that keeps the invariant a flag in memory is in the record, too, so a crash does not lose it. |
| `LifecycleWitness.CancelledCanBeStarted` | face_anonymizer/service/worker.py:282-316 | A concrete run in which a cancelled job is started: the status `cancelled` is not final, only the flag is. |
| `LifecycleTheorems.DoneIsCleanOrApproved` | face_anonymizer/service/worker.py:409-412 | In every reachable state a done job has no review reasons or an approval, and one under review has reasons. |
| `LifecycleTheorems.EndedJobsCanBeSwept` | face_anonymizer/service/jobs.py:432-448 | Every ending is timed: from every reachable state an ended job is found by a sweeper after its time, and removed, when sweeping is on and there is a time for jobs that ended like it. |
| `LifecycleTheorems.PostponementIsBounded` | face_anonymizer/service/worker.py:199-211 | In every reachable state the appointment of a postponed job lies within the limit after its first postponement, so a full disk is not hidden for ever. |
| `LifecycleTheorems.AttemptsAreBounded` | face_anonymizer/service/worker.py:227-243 | Attempts never exceed the limit, and a waiting job is below it, in every reachable state. |
| `LifecycleTheorems.OnlyStartsAreCharged` | face_anonymizer/service/worker.py:309-313 | As long as a job is listed, each step changes its attempts by exactly one if it is this job's start and by nothing otherwise: postponing, backing off, cancelling and restarting are free. |
| `LifecycleTheorems.JobStartsAtMostSoOften` | face_anonymizer/service/worker.py:227-243 | In a whole life of the service, with all its crashes, a job is started at most as often as attempts are allowed. |
| `LifecycleHistory.RecordsAreHistory` | face_anonymizer/service/worker.py:193-317 | Over a whole life with all its crashes, object and record of a job agree with what happened: the attempts are the number of its starts, and the time kept is when the disk was first found full for it since its last start, if it was. |
| `LifecycleHistory.PostponedUntilTheLimit` | face_anonymizer/service/worker.py:193-212 | After any run: a job for which the disk is full fails if and only if it was full for it, without a start in between, longer than the limit ago; otherwise it is postponed once more, by the configured time. |
| `LifecycleHistory.RetriedUntilUsedUp` | face_anonymizer/service/worker.py:227-244 | After any run: a job that met an error waits again if and only if the error may pass and the job was started less often in that run than allowed; otherwise it fails. |
| `LifecycleHistory.RetryDelayIsThatOfTheStarts` | face_anonymizer/service/worker.py:178-190 | After any run: the delays of a retry are exactly those in the band around the one configured for so many starts (the first one after the first start, the last one when there is no other), and the appointment is that much later. |
| `LifecycleHistory.SweptWasOver` | face_anonymizer/service/jobs.py:432-448 | In any run: what a sweeper comes to remove was over when it looked, by the time for failed and cancelled jobs, reviews, or others; with no time for those, it was none of them. |
| `LifecycleEffects.PostponedExactlyWithinTheLimit` | face_anonymizer/service/worker.py:193-212 | A job fails at a postponement if and only if its first one since its last start lies farther back than the limit; otherwise it waits again, for the configured time, with the time of that first one kept and no attempt used. |
| `LifecycleEffects.WakeUpIsDueAfterTheDelay` | face_anonymizer/service/worker.py:159-175 | The wake-up of a postponed or retried job is a timer due after exactly the delay, or an entry behind all others when there is none. |
| `LifecycleEffects.PickTakesOrSkips` | face_anonymizer/service/worker.py:277-286 | Whom the worker takes, skips as cancelled or drops; an ending a skipped job already had keeps its time. |
| `LifecycleEffects.NewJobWaits` | face_anonymizer/service/worker.py:548-557 | A job is accepted if and only if its name is new and fewer jobs wait than the limit, 0 for no limit; the whole record of a new job. |
| `LifecycleEffects.CancelAllAsks` | face_anonymizer/service/jobs.py:751-764 | Cancel-all flags every listed job that waits or runs, ends those that wait, and touches no other. |
| `LifecycleEffects.VerdictIsRecorded` | face_anonymizer/service/server.py:1157-1166 | A verdict is taken for a job under review only; done and approved, or failed and rejected. |
| `LifecycleEffects.RemovalTakesAll` | face_anonymizer/service/jobs.py:444-448 | Every removal takes list entry, record and folder of its job, and nothing of any other. |
| `LifecycleEffects.OldestFirst` | face_anonymizer/service/jobs.py:494-540 | A restart queues exactly the waiting records, each once, the oldest first. |
| `LifecycleEffects.OverExactlyWhenItsTimeIs` | face_anonymizer/service/jobs.py:432-444 | When a sweep finds a job to be over, exactly: failed and cancelled ones by their time, reviews by theirs, all others by the general one; with 0 in its place never. |
| `LifecycleEffects.KeptForEver` | face_anonymizer/service/jobs.py:432-444 | With no time for failed jobs no failed or cancelled one is ever found to be over, however long ago it ended; so for reviews, and for all when sweeping is off. |
| `ServiceRuns.Serve` | face_anonymizer/service/worker.py:269-511 | Any interleaving, run on the shared objects: what is wished for and possible is done, so the objects go through a run of the state machine, and through the wished one when it is a run without crashes. Afterwards every waiting object has an attempt left, and one wake-up if and only if nobody who was to hand it on died in that run since the last start; a running one is in the worker's hand on the same condition; what is done is clean or approved. |
| `ServiceRuns.Perform` | face_anonymizer/service/worker.py:269-511 | Each action of the state machine that is possible is taken by some region of the code on the objects, keeps the invariant, and replaces no object that was there. |
| `Service.Server.RunPick` | face_anonymizer/service/worker.py:277-286 | The first locked region on the shared objects takes the Pick step and keeps the invariant; whoever is taken was not asked to stop and has its appointment behind it. |
| `Service.Server.RunGate` | face_anonymizer/service/worker.py:288-291 | The comparison on the object never sends a job away, in any state that keeps the invariant. |
| `Service.Server.DeferJob` | face_anonymizer/service/worker.py:193-212 | On the shared objects: the job fails if and only if its first postponement lies farther back than the limit, and otherwise waits, both with every field said; no attempt is used, and the invariant is kept. |
| `Service.Server.StartJob` | face_anonymizer/service/worker.py:309-317 | The start keeps the invariant, uses one attempt, and there was one left. |
| `Service.Server.DieInHandler` | face_anonymizer/service/worker.py:298-306 | An error outside the `try` takes the worker out of its handler, and with it the only wake-up of the job; everything else stays in order. |
| `Service.Server.Progress` | face_anonymizer/service/worker.py:324-334 | A report stops the job exactly when the flag is set, and keeps the invariant. |
| `Service.Server.CommitJob` | face_anonymizer/service/worker.py:409-445 | The commit keeps the invariant: done exactly when nothing has to be looked at. |
| `Service.Server.StopJob` | face_anonymizer/service/worker.py:491-497 | The handler of a cancellation ends the job as cancelled, leaves it, and keeps the invariant. |
| `Service.Server.FailOrRetry` | face_anonymizer/service/worker.py:227-244 | The first region of failure handling keeps the invariant: waiting again exactly when the error may pass and an attempt is left, failed otherwise. |
| `Service.Server.MakeAppointment` | face_anonymizer/service/worker.py:245-249 | The second region makes the appointment, at no attempt, and keeps the invariant. |
| `Service.Server.HandOver` | face_anonymizer/service/worker.py:159-175 | After it the executor or a timer holds the one wake-up of the job, due when the job is. |
| `Service.Server.Enqueue` | face_anonymizer/service/worker.py:532-557 | A job is registered exactly when the queue has room, check and registration being one region; it then has one wake-up, and no other object changes. |
| `Service.Server.CancelJob` | face_anonymizer/service/server.py:1123-1127 | The region of a cancel request that was let through: the flag is set, nothing waits any more, and the invariant is kept. |
| `Service.Server.ReviewJob` | face_anonymizer/service/server.py:1160-1174 | Check and verdict are one region: the second of two verdicts is refused and changes nothing. |
| `Service.Server.DeleteRequested` | face_anonymizer/service/server.py:1229-1231 | The removal takes the job off the list with its record and folder, whatever became of it since the check, and keeps the invariant. |
| `Service.Server.CancelEverything` | face_anonymizer/service/jobs.py:751-764 | All waiting and running jobs are flagged in one region, waiting ones end at once, reviews are left alone; the two counts are right. |
| `Service.Server.LookOver` | face_anonymizer/service/jobs.py:432-444 | On the shared objects a sweep finds a job to be over if and only if it is listed, sweeping is on, and its ending lies farther back than the time for failed and cancelled jobs, reviews, or others; the invariant is kept. |
| `Service.Server.RemoveSwept` | face_anonymizer/service/jobs.py:445-448 | The removal takes the job off the list with its record and folder, whatever became of it since the look, and keeps the invariant. |
| `Service.Server.RecoverOrphans` | face_anonymizer/service/jobs.py:486-540 | Recovery, record by record, oldest first, comes to what treating all records at once gives; the returned jobs are exactly the waiting ones, each once, in order of creation. |
| `Service.Server.ResumeOrphans` | face_anonymizer/service/worker.py:514-523 | A start-up on an empty process is the Crash step of the state machine. |
| `Listing.JobStore.AllJobs` | face_anonymizer/service/jobs.py:248-279 | The listing has the contents of memory merged over a full scan of the disk, always, whether the copy is used or not. |
| `Listing.MergedContents` | face_anonymizer/service/jobs.py:274-279 | Memory over an agreeing copy is memory over the disk. |
| `Listing.OutdatedAre` | face_anonymizer/service/jobs.py:432-444 | Which jobs of a listing are outdated, by status and configured times, exactly. |
| `Listing.RecoveredAre` | face_anonymizer/service/jobs.py:494-535 | What recovery leaves: every record and the list, exactly; listed are those listed before, and the objects of the copy for what waits or is under review. |
| `Listing.JobStore.Change` | face_anonymizer/service/jobs.py:83-102 | Any change of a listed job, to whatever record, with its save: the listing stays right although the copy is not told. |
| `Listing.JobStore.Sweep` | face_anonymizer/service/jobs.py:429-453 | A sweep removes exactly the outdated jobs of the listing (`Listing.OutdatedAre`), from memory and disk, counts them, and leaves a copy that agrees or is withdrawn. |
| `Listing.JobStore.Recover` | face_anonymizer/service/jobs.py:488-535 | Recovery changes the very objects of the copy; afterwards memory, disk and copy still agree, and exactly the jobs that come back are listed. |
| `Listing.JobStore.Delete` | face_anonymizer/service/server.py:1229-1232 | A deleted job is in neither memory nor disk, and the copy that still holds it is withdrawn. |
| `Listing.MidwayNext` | face_anonymizer/service/jobs.py:489-535 | One job of a recovery: the copy, the record and the list change together. |
| `Journal.TailLines` | face_anonymizer/events.py:139-167 | Reading from the end in chunks of any size yields exactly the non-blank pieces of splitting the whole file at newlines, the last one first. |
| `Journal.SplitOfConcat` | face_anonymizer/events.py:153-160 | Cutting a text anywhere and splitting the halves splits the text: the two middle pieces belong together. |
| `Journal.SplitIsFaithful` | face_anonymizer/events.py:159-165 | Joining the pieces with newlines gives the text back, and no piece holds a newline. |
| `Journal.ChunkStep` | face_anonymizer/events.py:154-163 | One more chunk in front: all pieces but the first are complete lines, the first stays open. |
| `Journal.AppendedLineComesFirst` | face_anonymizer/events.py:101-103 | Appending a line and a newline to a file puts the line in front of all the reader yields, byte for byte. |
| `Journal.OpenLineComesFirst` | face_anonymizer/events.py:153-165 | A last line that nothing ends is yielded, too, and first. |
| `Journal.BlankLineIsSkipped` | face_anonymizer/events.py:160-165 | A line of blanks, tabs, returns, vertical tabs and form feeds is not yielded, and changes nothing. |
| `JournalPaging.Read` | face_anonymizer/events.py:200-235 | The nested loops with early return give the first matching rows of all files, up to the limit; half-written lines are skipped. |
| `JournalPaging.RowIsFound` | face_anonymizer/events.py:213-228 | Which rows the filters let through: job, batch and mode equal, the event by its beginning, the time from `since` on and before `before`, and the free-text search; an empty text or 0 lets all through. |
| `JournalPaging.FoundAre` | face_anonymizer/events.py:207-235 | The rows found are those the filters let through, as often as they are in the files. |
| `JournalPaging.ListEvents` | face_anonymizer/service/server.py:908-923 | One page: the rows, whether there are more, and the cursor. |
| `JournalPaging.PageIsPrefix` | face_anonymizer/service/server.py:908-923 | A page is the beginning of what was found; there is more if and only if the page is below the read limit and something is left; the cursor is the time of its last row. |
| `JournalPaging.PagingIsLossless` | face_anonymizer/service/server.py:908-923 | Following the cursor gives every matching row, in order, if and only if the page leaves room for one row more within the read limit and no page boundary cuts through rows of one time. |
| `JournalPaging.StrictTimesCutCleanly` | face_anonymizer/service/server.py:908-923 | With strictly decreasing times no boundary cuts badly, so paging is lossless for every page size below the limit. |
| `JournalPaging.NoRowTwice` | face_anonymizer/service/server.py:901-904 | No row comes twice, even where rows are lost. |
| `JournalPaging.NewestFirstThroughout` | face_anonymizer/service/server.py:901-904 | The rows of all pages together are in order, the newest first. |
| `JournalPaging.TiesAreLost` | face_anonymizer/service/server.py:914-923 | Two rows of the same time and one row a page: the second is never shown. |
| `JournalGrowth.EventsComeFirst` | face_anonymizer/events.py:85-108 | Events written to the day files, over any number of days, come in front of all rows, the last one first. |
| `JournalGrowth.NewDayPushesOut` | face_anonymizer/events.py:111-131 | When only the last few days are read, the first event of a new day pushes the oldest file out, and every other event only adds its row. |
| `JournalGrowth.PagingThroughAGrowingJournal` | face_anonymizer/events.py:196-198 | While lines are appended to the files between the pages, a reader gets every matching row of the first request, in order, if and only if the page leaves room for one row more and no page boundary cuts through rows of one time; for the limit as it was asked for. |
| `Tracking.Interpolate` | face_anonymizer/core/tracking.py:147-193 | In place, every frame keeps its boxes and gets behind them those of each track in turn; no other frame is touched. |
| `Tracking.FillTrack` | face_anonymizer/core/tracking.py:166-192 | The loops over the gaps and the lingering of one track add, frame by frame, what the definition of a gap says. |
| `Coverage.EveryGapIsCovered` | face_anonymizer/core/tracking.py:170-192 | A frame gets a box of a track if and only if it lies in the video after the first observation, has none itself, and lies before the last one or in the lingering. |
| `Coverage.NoFrameIsBare` | face_anonymizer/core/tracking.py:150-157 | From the first observation to the end of the lingering each frame of the video is observed or filled. |
| `Coverage.AddedIsTheDifference` | face_anonymizer/core/tracking.py:165-193 | The number returned is that of the boxes put in, over all frames and tracks. |
| `Coverage.GapBoxIsExact` | face_anonymizer/core/tracking.py:174-181 | For edges that move steadily from one observation to the next, the box put in is the true one. |
| `Coverage.GapBoxIsProper` | face_anonymizer/core/tracking.py:174-181 | Between two proper boxes in the frame there are only proper boxes in the frame. |
| `Coverage.LingerCoversMotion` | face_anonymizer/core/tracking.py:184-192 | The kept box contains the last one, moved, if and only if it moved no farther than the recent speed allows, in each direction. |
| `Coverage.LingerBoxesAreNested` | face_anonymizer/core/tracking.py:188-191 | The kept boxes only grow with time, and contain the last one. |
| `Coverage.SpeedIsMeasured` | face_anonymizer/core/tracking.py:129-144 | For any motion: the recent speed, in each direction, is the way of the middle of the box from the first of the last six observations to the last one, by the frames between; with less than two observations it is 0. |
| `Coverage.SpeedOfSteadyMotion` | face_anonymizer/core/tracking.py:129-144 | The measured speed of a motion that was steady in the last six observations is its speed. |
| `Coverage.LingerCoversSteadyMotion` | face_anonymizer/core/tracking.py:150-157 | A face whose last six observations moved steadily stays in the kept box if it gets no faster, wherever it turns. |
| `Geometry.SquareIsFilled` | face_anonymizer/core/geometry.py:43-55 | Whatever is rounded, borders and scaled frame add up to the square; opposite borders differ by at most one; one side has none. |
| `Geometry.RatioIsThatOfTheFrame` | face_anonymizer/core/geometry.py:46-47 | The ratio returned is the one at which the frame just fits: its longer side becomes the size of the square; width and height of the scaled image are those of the frame at this ratio, each rounded to the nearest pixel. |
| `Geometry.FrameIsWhereItWasPut` | face_anonymizer/core/geometry.py:47-55 | The map of coordinates sends the corners of the frame to left and top border, and to within half a pixel of the far edges of the image. |
| `Geometry.PointIsWhereItIsShown` | face_anonymizer/core/geometry.py:46-55 | Scaling rounds the sides, the map of coordinates does not: every point of the frame is mapped to within half a pixel of where the scaled image shows it. |
| `Geometry.TooThinToFit` | face_anonymizer/core/geometry.py:46-50 | Resizing fails exactly for frames so thin that their shorter side is rounded to nothing. |
| `Geometry.BoxesComeBack` | face_anonymizer/core/geometry.py:58-74 | Mapping back undoes the map into the square on every box of the frame. |
| `Geometry.BoxesStayInFrame` | face_anonymizer/core/geometry.py:70-74 | Whatever is found ends up in the frame with its edges in order. |
| `Geometry.BackKeepsLength` | face_anonymizer/core/geometry.py:66-73 | What is found keeps a length exactly when it meets the part of the square that shows the frame. |
| `Geometry.Unletterbox` | face_anonymizer/core/geometry.py:58-74 | The passes over the whole array, coordinate by coordinate, do that to every box of a copy. |
| `Masking.RegionIsExact` | face_anonymizer/core/anonymize.py:13-25 | The rounded region holds exactly the pixels of the frame that the padded box touches; the guards hold a proper box back exactly when its padded box misses the frame. |
| `Masking.PaddingIsProportional` | face_anonymizer/core/anonymize.py:20-23 | Padding keeps the middle of the box and lengthens it by the same part in each direction. |
| `Masking.FaceIsTakenIn` | face_anonymizer/core/anonymize.py:45-47 | No guard fires for a box that contains a face in the frame, and every pixel of the face is taken in. |
| `Masking.Anonymize` | face_anonymizer/core/pipeline.py:1271-1273 | Over all boxes of a frame exactly the covered pixels are hidden and the others are as they were, for any boxes, even empty or reversed ones. |
| `Masking.CollectBoxes` | face_anonymizer/core/pipeline.py:1109-1124 | All detections are taken over, each in its frame and at its place, and the tracks add to them when asked to. |
| `Masking.DetectedFaceIsHidden` | face_anonymizer/core/pipeline.py:1109-1119 | A detected face in the frame is hidden, whatever is filled in later. |
| `Masking.LostFaceIsHidden` | face_anonymizer/core/tracking.py:170-182 | From the loops to the pixels: a face lost between two observations that moved steadily is hidden in each frame of the gap. |
| `Masking.LeavingFaceIsHidden` | face_anonymizer/core/tracking.py:184-192 | ... and one lost for good, for as long as the lingering lasts, if it gets no faster. |
| `Exposure.GuardsHoldBackWhatIsOutside` | face_anonymizer/core/anonymize.py:45-47 | Of all boxes the detector finds in its square, the guards hold back exactly those that miss the part showing the frame, whatever the padding. |
| `Exposure.NoBoxIsSkipped` | face_anonymizer/core/pipeline.py:1109-1124 | When the detections have their area in the frame and the tracks consist of them, no box of any frame is held back, whether detected, put into a gap or kept after the last observation. |
| `Exposure.NothingFoundIsSkipped` | face_anonymizer/core/pipeline.py:1271-1273 | The whole way: boxes found in the shown part of the square, mapped back, and all that is filled in from them, reach the pixels. |
| `Detect.Run` | face_anonymizer/core/pipeline.py:1189-1223 | The pass with its pending batch comes to what the detector says batch after batch, with both counts right, or to the first wrong answer; progress is reported for the frames of `Detect.TicksAre` and once at the end. |
| `Detect.EachFrameHasItsAnswer` | face_anonymizer/core/pipeline.py:1192-1219 | For any detector: the frame at place `i` of batch `n` gets what the detector said of that batch, at place `i`. |
| `Detect.BatchesAre` | face_anonymizer/core/pipeline.py:1196-1200 | The pass succeeds if and only if every batch is answered with as many results as it has frames. |
| `Detect.FirstBadBatchIsReported` | face_anonymizer/core/pipeline.py:1196-1200 | Otherwise the first batch that is not is the one reported, with both numbers. |
| `Detect.TicksAre` | face_anonymizer/core/pipeline.py:1215-1217 | Progress is reported for the frames whose number is divisible by 30, in order. |
| `Detect.BatchingChangesNothing` | face_anonymizer/core/pipeline.py:1192-1219 | For a detector that looks at each frame by itself every batch size gives the same, the last partial batch included. |
| `Detect.CountsAgree` | face_anonymizer/core/pipeline.py:1201-1204 | No boxes were found exactly when every frame is empty, and the frames counted are those with a box. |
| `Verdict.ReviewOf` | face_anonymizer/job_runner.py:104-117 | The loop gives the reasons of all warnings, in order. |
| `Verdict.ReasonsAre` | face_anonymizer/job_runner.py:76-117 | Exactly the warnings whose code is one of the five that call for a person become reasons, word for word. |
| `Verdict.ReasonsOfConcat` | face_anonymizer/job_runner.py:104-117 | Each warning is judged by itself, and the reasons keep the order of the warnings. |
| `Verdict.CodeIs` | face_anonymizer/job_runner.py:111-113 | The code of a warning is what stands before the first colon, without the blanks around it. |
| `Verdict.CheckIs` | face_anonymizer/core/pipeline.py:946-974 | The detection check fails if and only if a rate is demanded that the frames with a face do not reach; otherwise it warns of nothing found, or of less than one frame in a hundred, and of nothing else. |
| `Verdict.FewDetectionsAreReviewed` | face_anonymizer/core/pipeline.py:946-974 | If it does not fail, the detection check calls a person exactly when nothing was found, or in less than a hundredth of the frames. |
| `Verdict.NothingFoundIsHeld` | face_anonymizer/job_runner.py:60-71 | A video in which nothing was found in any frame is never recorded as done: it fails if and only if a positive rate is demanded, and is held for review otherwise. |
| `OomRetry.Process` | face_anonymizer/job_runner.py:326-348 | From the size asked for on, 1 for none, the loop comes to `OomRetry.FirstOtherTryDecides` or `OomRetry.OutOfMemoryThroughout`. |
| `OomRetry.FirstOtherTryDecides` | face_anonymizer/job_runner.py:330-338 | The first try that is not short of memory is the last one, and its value, or its error as it is, is what comes out. |
| `OomRetry.OutOfMemoryThroughout` | face_anonymizer/job_runner.py:338-343 | If there is none, all sizes are tried, and the error names the last one and is raised from the first. |
| `OomRetry.SizesDecrease` | face_anonymizer/job_runner.py:339-344 | The sizes tried strictly decrease, down to the smallest. |
| `OomRetry.TriesAreLogarithmic` | face_anonymizer/job_runner.py:339-344 | There are at most floor(log2 b) + 1 tries. |
| `OomRetry.HalfOptimal` | face_anonymizer/job_runner.py:318-344 | If sizes fit exactly up to some limit, the work is done with at least half of it; a size that fits is tried once. |
| `OomRetry.NothingFits` | face_anonymizer/job_runner.py:339-343 | If none fits, all sizes are tried and the transient error is raised. |
| `OomRetry.HalvingEnds` | face_anonymizer/job_runner.py:339-344 | The halving comes to an end, though nothing ever fits, if and only if the limit is not negative or already met. |
| `Finalize.Folder.FinalizeOutput` | face_anonymizer/core/pipeline.py:764-855 | For every outcome of the tools: which file is under the output name, the status, and that nothing is left of render and temporary file where they were used. |
| `Finalize.Folder.MuxOnly` | face_anonymizer/core/pipeline.py:858-900 | The same for adding the sound only. |
| `Finalize.StatusTellsWhy` | face_anonymizer/core/pipeline.py:764-900 | For all outcomes of the tools: each status if and only if its reason applies, with the numbers of frames; the render is delivered exactly when one of those applies, otherwise the file of the encoder with what became of the sound. |
| `Finalize.EncodingLosesNoFrame` | face_anonymizer/core/pipeline.py:841-855 | Encoding anew delivers the render itself or a file counted to hold as many frames; the status tells which. |
| `Finalize.MuxingLosesNoFrame` | face_anonymizer/core/pipeline.py:882-900 | Adding the sound does so exactly unless a file nobody can count is accepted. |
| `Finalize.FinalLosesNoFrame` | face_anonymizer/core/pipeline.py:785-787 | Both together, over all outcomes. |
| `Finalize.EmptyFileIsDelivered` | face_anonymizer/core/pipeline.py:882-900 | A concrete outcome: an empty file is delivered as fine, and the render is gone. |
| `Naming.ParseOfFormat` | face_anonymizer/storage/naming.py:66-95 | Parsing gives back what was printed if and only if the clip is well-formed. |
| `Naming.FormatOfParse` | face_anonymizer/storage/naming.py:66-95 | Printing what was parsed gives the base name back if and only if the name has an extension and no newline before it. |
| `Naming.ParsedIsWellFormed` | face_anonymizer/storage/naming.py:79-94 | Whatever is parsed is well-formed. |
| `Naming.NameIsRead` | face_anonymizer/storage/naming.py:35-43 | Any name of the convention, written out: each field is read from its place, and the output is the same text with the state exchanged. |
| `Naming.ParsedIsWritten` | face_anonymizer/storage/naming.py:35-43 | Only such names are parsed: a letter, five, two, seven and seven digits, the interval not reversed, and a state of letters. |
| `Naming.DocumentedName` | face_anonymizer/storage/naming.py:5-22 | The documented name of recording 00297, its fields and its output. |
| `Naming.OutputKeepsIdentity` | face_anonymizer/storage/naming.py:97-106 | The output of a conforming name conforms: category, number, segment and interval are those of the name, the state is `deid`, the extension `.mp4`. |
| `Naming.OutputsCollide` | face_anonymizer/storage/naming.py:97-106 | Two conforming names share an output if and only if category, number, segment and interval are the same. |
| `Naming.OutputIsIdempotent` | face_anonymizer/storage/naming.py:111-118 | Taking the output of an output changes nothing if and only if the name conforms. |
| `Naming.OutputIsOutput` | face_anonymizer/storage/naming.py:111-123 | Every output name, of any string, is recognised as one. |
| `Naming.IsOutputExactlyWhen` | face_anonymizer/storage/naming.py:111-123 | Which names are taken for outputs, exactly: conforming ones with that state in any capitals, others whose stem ends with `_deid`. |
| `Naming.BaseNameOfPath` | face_anonymizer/storage/naming.py:81 | The directory in front of a name does not matter. |
| `Folders.FolderList.Track` | face_anonymizer/service/jobs.py:677-700 | Each call keeps the stored list equal to the first 64 folders of the whole history. |
| `Folders.CutAtEveryStep` | face_anonymizer/service/jobs.py:690-692 | Cutting the list at every step comes to cutting once at the end. |
| `Folders.StoredAreTheLatest` | face_anonymizer/service/jobs.py:677-692 | The list holds exactly the folders after whose last use fewer than 64 others were used, each once, the latest first. |

## Left out

- Lifecycle: texts, progress numbers, stages, error payloads and timestamps other than `created` and
  `finished`, `not_before` and `deferred_since` are not in the record; no control flow of the modelled regions depends on them.
- Lifecycle: media clean-up at the endings of a job; some paths keep the input on purpose.
- Lifecycle: a request that finds a job only on disk is one step; a removal takes folder, record and list entry in one step.
- Lifecycle: after a removal while the worker still holds the job, the worker may create the folder and the record again; the state machine has this, `Listing` does not.
- Lifecycle: progress saves are taken at every report; the code lets some out to save time.
- Lifecycle: whether there is too little disk space is left open (either way at each gate); the forced sweep there is made of ordinary sweep steps, or of the step in which the handler dies.
- LifecycleProgress.WaitingJobIsTaken: says whether a way exists; that timers fire and threads go on is not modelled. `EnoughPicksTakeTheJob`, `WakeUpIsTaken` and `WakeUpStaysUntilTaken` speak of every run, but not of how soon a timer fires or the worker picks.
- ServiceRuns.Serve: the threads are one loop that does one region at a time, in any order; what a thread keeps in its own variables is a field of the server.
- Listing: the order of the listing, the minimum gap between sweeps and the temporary files are not modelled; one jobs folder. Listing a job concurrently with a change is two steps of the code, here each operation is one. The never-falling `overall` that a snapshot writes into a listed object is not modelled.
- Listing.JobStore.Change: a listed job is changed in memory and on disk in one step; which changes there are is `Service`'s matter.
- JournalPaging.Read: parsing a line, the free-text search and the choice of day files are parameters; the projection to the listed fields is not modelled, nor a JSON line that is no object.
- JournalGrowth.PagingThroughAGrowingJournal: all day files are read, as with a date range or in the first seven days, and nothing is half-written. Rows are in order of time and have a time: the code reads the clock before the lock, so two threads may write a moment out of order; a row without a time counts as 0, and a page that ends with it has no cursor.
- Tracking.Interpolate: tracks are given; the tracker that makes them, and its scores, are not modelled. Frames are an array instead of a dictionary with defaults, so frames beyond the video do not exist.
- Coverage, Geometry, Masking: coordinates are real numbers; floating-point rounding is not modelled.
- Exposure.NoBoxIsSkipped: that the tracker's boxes are detections of their frames is how the library is used, and is assumed.
- Masking.Hide: what a pixel looks like after pixelation, blur or a solid box is left open: it counts as hidden. The solid box also covers one more row and column, which is not used.
- Detect.Run: the detector is a function of the frames in a batch; rotation of frames, opening and closing the video are not modelled.
- Verdict.ReviewOf: blanks are the ASCII ones; stripping text also takes 0x85, 0xA0 and the other Unicode blanks off.
- Verdict.FewDetectionsAreReviewed: the rate as a text is a parameter; the checks of decoding and bit rate, which add further warnings, are left open as other warnings.
- Finalize.Folder.FinalizeOutput: the command line, bit rates and scaling are not modelled; moving and removing files succeeds; the three paths are different files.
- Naming: digits and letters are the ASCII ones; the pattern of the code also takes other decimal digits. The state and extension of an output are the default ones.
- Folders: a list file that cannot be read counts as empty in the code; removing a folder from the list (jobs.py:703-714) does not bring a cut one back, so it is not part of the history theorem.
- Kernel locks, the GPU lock, S3, ffmpeg, OpenCV, the HTTP layer, the CLI, the web pages, statistics and exports: no property of this kind.
- `remote.py`, `progress.py`, `gpu.py` and `msa/` are not modelled.

/** Postponing and retrying, by what happened in the run: the record keeps nothing but that. */
module LifecycleHistory {
  import opened JobModel
  import opened Lifecycle
  import opened LifecycleTheorems
  import opened LifecycleEffects

  /** When the disk was found full for the first postponement of this job since its last start; 0 for never. */
  ghost function Noted(s: System, a: Action, id: JobId, since: real): real {
    if Starts(s, a, id) then 0.0
    else if a == Work(Defer) && s.worker.Deferring? && s.worker.job == id && since == 0.0 then s.worker.at
    else since
  }

  ghost function FirstPostponed(cfg: Config, s: System, run: seq<Action>, id: JobId, since: real): real
    requires Legal(cfg, s, run)
    decreases |run|
  {
    if run == [] then since
    else FirstPostponed(cfg, Apply(cfg, s, run[0]), run[1..], id, Noted(s, run[0], id, since))
  }

  /** Object and record, wherever there are some, remember that time and the number of starts. */
  ghost predicate Remembers(s: System, id: JobId, since: real, starts: nat) {
    && (id in s.heap ==> s.heap[id].deferredSince == since && s.heap[id].attempts == starts)
    && (id in s.disk ==> s.disk[id].deferredSince == since && s.disk[id].attempts == starts && id in s.dirs)
    && (id !in s.used ==> since == 0.0 && starts == 0 && id !in s.heap && id !in s.disk)
  }

  lemma GoingOnIsRemembered(cfg: Config, s: System, m: Move, id: JobId, since: real, starts: nat)
    requires !s.worker.Idle? && s.worker.job in s.heap && CanGoOn(cfg, s, m) && Remembers(s, id, since, starts)
    ensures Remembers(GoneOn(cfg, s, m), id, Noted(s, Work(m), id, since), starts + if Starts(s, Work(m), id) then 1 else 0)
  {
    hide IsBackoff;
  }

  lemma StepIsRemembered(cfg: Config, s: System, a: Action, id: JobId, since: real, starts: nat)
    requires Enabled(cfg, s, a) && Remembers(s, id, since, starts)
    ensures Remembers(Apply(cfg, s, a), id, Noted(s, a, id, since), starts + if Starts(s, a, id) then 1 else 0)
  {
    match a {
      case Work(m) =>
        if s.worker.Idle? {
          hide GoneOn, CanGoOn;
        } else {
          hide Remembers, Noted, GoneOn, Starts, CanGoOn;
          GoingOnIsRemembered(cfg, s, m, id, since, starts);
        }
      case Happen(e) => EventIsRemembered(cfg, s, e, id, since, starts);
    }
  }

  lemma EventIsRemembered(cfg: Config, s: System, e: Event, id: JobId, since: real, starts: nat)
    requires CanHappen(cfg, s, e) && Remembers(s, id, since, starts)
    ensures Remembers(Happened(cfg, s, e), id, since, starts)
  {
    hide Expired;
  }

  lemma {:induction false} RunIsRemembered(cfg: Config, s: System, run: seq<Action>, id: JobId, since: real, starts: nat)
    requires Legal(cfg, s, run) && Remembers(s, id, since, starts)
    ensures Remembers(After(cfg, s, run), id, FirstPostponed(cfg, s, run, id, since), starts + CountStarts(cfg, s, run, id))
    decreases |run|
  {
    hide Remembers, Noted, Enabled, Starts;
    if run != [] {
      var a := run[0];
      StepIsRemembered(cfg, s, a, id, since, starts);
      RunIsRemembered(cfg, Apply(cfg, s, a), run[1..], id, Noted(s, a, id, since), starts + if Starts(s, a, id) then 1 else 0);
    }
  }

  // ------------------------------------------------------------------ whole lives

  /** What a job's object and record say of its postponements and attempts is what happened since the
      service first came up, with all its crashes. */
  lemma RecordsAreHistory(cfg: Config, run: seq<Action>, s: System, id: JobId)
    requires Reaches(cfg, run, s)
    ensures id in s.heap ==> s.heap[id].deferredSince == FirstPostponed(cfg, Boot, run, id, 0.0)
                             && s.heap[id].attempts == CountStarts(cfg, Boot, run, id)
    ensures id in s.disk ==> s.disk[id].deferredSince == FirstPostponed(cfg, Boot, run, id, 0.0)
                             && s.disk[id].attempts == CountStarts(cfg, Boot, run, id)
  {
    assert Remembers(Boot, id, 0.0, 0);
    RunIsRemembered(cfg, Boot, run, id, 0.0, 0);
  }

  /** After any run: a job for which the disk is full fails exactly when it was full for it, without a start
      in between, longer than the limit ago; otherwise it is postponed once more. */
  lemma PostponedUntilTheLimit(cfg: Config, run: seq<Action>, s: System)
    requires Reaches(cfg, run, s) && CanMove(cfg, s, Defer)
    ensures var id, at := s.worker.job, s.worker.at;
            var first := FirstPostponed(cfg, Boot, run, id, 0.0);
            var since := if first == 0.0 then at else first;
            var j := Moved(cfg, s, Defer).heap[id];
            if at - since > cfg.deferMax then j.status == Failed && j.finished == at
            else j.status == Queued && j.waiting == DeferWait && j.notBefore == at + cfg.deferSec
  {
    hide FirstPostponed, CountStarts, Reaches;
    RecordsAreHistory(cfg, run, s, s.worker.job);
    PostponedExactlyWithinTheLimit(cfg, s);
  }

  /** After any run: a job that met an error waits again exactly when the error may pass and it was started
      less often than allowed. */
  lemma RetriedUntilUsedUp(cfg: Config, run: seq<Action>, s: System)
    requires Reaches(cfg, run, s) && CanMove(cfg, s, Fall)
    ensures var id := s.worker.job;
            var j := Moved(cfg, s, Fall).heap[id];
            if !s.worker.permanent && s.worker.transient && CountStarts(cfg, Boot, run, id) < cfg.maxAttempts
            then j.status == Queued && j.attempts == CountStarts(cfg, Boot, run, id)
            else j.status == Failed && j.finished == s.clock
  {
    hide FirstPostponed, CountStarts, Reaches;
    RecordsAreHistory(cfg, run, s, s.worker.job);
    FailureIsRecorded(cfg, s);
  }

  /** ... and then the delay, and with it the appointment, is the one configured for that many starts, give or
      take the configured part of it. */
  lemma RetryDelayIsThatOfTheStarts(cfg: Config, run: seq<Action>, s: System, base: real, delay: real)
    requires Reaches(cfg, run, s) && s.worker.Requeuing? && s.worker.job in s.heap
    requires IsDelayFor(cfg.retryDelays, CountStarts(cfg, Boot, run, s.worker.job), base)
    ensures var part := Size(base * cfg.jitter);
            CanMove(cfg, s, BackOff(delay))
            <==> delay >= 0.0 && base - part <= delay && (delay <= base + part || delay == 0.0)
    ensures CanMove(cfg, s, BackOff(delay)) ==>
              var j := Moved(cfg, s, BackOff(delay)).heap[s.worker.job];
              j.waiting == RetryWait && j.notBefore == s.clock + delay
  {
    var id := s.worker.job;
    RecordsAreHistory(cfg, run, s, id);
    RetryDelay(cfg, s.heap[id].attempts, base, delay);
    hide FirstPostponed, CountStarts, Reaches, IsBackoff, IsDelayFor, Size;
    if CanMove(cfg, s, BackOff(delay)) {
      RetryIsAppointed(cfg, s, delay);
    }
  }

  // ------------------------------------------------------------------ sweeping

  /** The time of this ending is over: for failed and cancelled jobs, reviews, and others. */
  ghost predicate IsOver(cfg: Config, j: Job, now: real) {
    var kept := if j.status == Failed || j.status == Cancelled then cfg.failedTtl
                else if j.status == Review then cfg.reviewTtl else cfg.jobTtl;
    cfg.jobTtl != 0.0 && kept != 0.0 && j.finished != 0.0 && now - j.finished > kept
  }

  /** Somewhere in the run a sweeper looks at the job and finds it over. */
  ghost predicate FoundOver(cfg: Config, s: System, run: seq<Action>, id: JobId)
    requires Legal(cfg, s, run)
    decreases |run|
  {
    run != [] && (|| (run[0] == Happen(SweepCheck(id)) && Listed(s, id) && IsOver(cfg, View(s, id), s.clock))
                  || FoundOver(cfg, Apply(cfg, s, run[0]), run[1..], id))
  }

  lemma StepSweeps(cfg: Config, s: System, a: Action, id: JobId)
    requires Enabled(cfg, s, a)
    ensures id in Apply(cfg, s, a).sweeping ==>
              id in s.sweeping || (a == Happen(SweepCheck(id)) && Listed(s, id) && IsOver(cfg, View(s, id), s.clock))
  {
  }

  lemma {:induction false} RunSweeps(cfg: Config, s: System, run: seq<Action>, id: JobId)
    requires Legal(cfg, s, run)
    ensures id in After(cfg, s, run).sweeping ==> id in s.sweeping || FoundOver(cfg, s, run, id)
    decreases |run|
  {
    hide IsOver, Enabled, Listed;
    if run != [] {
      StepSweeps(cfg, s, run[0], id);
      RunSweeps(cfg, Apply(cfg, s, run[0]), run[1..], id);
    }
  }

  /** Whatever a sweeper comes to remove, in any run, was over when it looked: with no time for failed jobs it
      was neither failed nor cancelled then, with none for reviews not under review. */
  lemma SweptWasOver(cfg: Config, run: seq<Action>, s: System, id: JobId)
    requires Reaches(cfg, run, s) && CanHappen(cfg, s, SweepAct(id))
    ensures FoundOver(cfg, Boot, run, id)
  {
    RunSweeps(cfg, Boot, run, id);
  }
}

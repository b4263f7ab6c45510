/** The list of all jobs: those in memory, merged with the records on disk, of which a copy is kept
    for a few seconds.

    The copy consists of job objects, and recovery works on these very objects, so memory, copy and
    caller share them. */
module Listing {
  import opened JobModel
  import opened JobObjects
  import opened Recovery

  ghost function Contents(rows: map<JobId, JobObject>): map<JobId, Job>
    reads rows.Values
  {
    map id | id in rows :: rows[id].Record()
  }

  ghost predicate OwnIds(rows: map<JobId, JobObject>) {
    forall id :: id in rows ==> rows[id].id == id
  }

  /** Where neither memory nor disk differ from the copy. */
  ghost predicate Agrees(copy: map<JobId, Job>, disk: map<JobId, Job>, listed: set<JobId>) {
    forall id :: id !in listed ==> (id in copy <==> id in disk) && (id in copy ==> copy[id] == disk[id])
  }

  /** The jobs of a listing whose time is over. */
  ghost function Outdated(cfg: Config, rows: map<JobId, Job>, now: real): set<JobId> {
    set id | id in rows && Expired(cfg, rows[id], now)
  }

  /** Which those are: failed and cancelled ones after their time, reviews after theirs, the others after the
      general one; those without a time of their own never, and none when that is off. */
  lemma OutdatedAre(cfg: Config, rows: map<JobId, Job>, now: real, id: JobId)
    ensures id in Outdated(cfg, rows, now) ==> id in rows && cfg.jobTtl != 0.0 && rows[id].finished != 0.0
    ensures id in rows && cfg.jobTtl != 0.0 && rows[id].finished != 0.0 ==>
              var j := rows[id];
              (id in Outdated(cfg, rows, now)
               <==> if j.status == Failed || j.status == Cancelled then
                      cfg.failedTtl != 0.0 && now - j.finished > cfg.failedTtl
                    else if j.status == Review then cfg.reviewTtl != 0.0 && now - j.finished > cfg.reviewTtl
                    else now - j.finished > cfg.jobTtl)
  {
  }

  /** The records after recovery of the jobs in `done`; a listed job is left alone. */
  ghost function RecoveredDisk(disk: map<JobId, Job>, listed: set<JobId>, done: set<JobId>, now: real): map<JobId, Job> {
    map id | id in disk :: if id in done && id !in listed then Lifecycle.Recovered(disk[id], now) else disk[id]
  }

  /** The listed jobs after it: those that come back are the very objects of the copy. */
  ghost function Relisted(jobs: map<JobId, JobObject>, cache: map<JobId, JobObject>, disk: map<JobId, Job>, done: set<JobId>)
    : map<JobId, JobObject>
  {
    jobs + map id | id in cache && id in disk && id !in jobs && id in done && ComesBack(disk[id]) :: cache[id]
  }

  /** Records in the end, and jobs: of those that memory does not list, a running one has failed, a waiting one
      has lost its appointment, and the others are as they were; the waiting ones and the reviews are listed,
      as the objects of the copy, beside those listed before. */
  lemma RecoveredAre(jobs: map<JobId, JobObject>, cache: map<JobId, JobObject>, disk: map<JobId, Job>, now: real, id: JobId)
    requires cache.Keys - jobs.Keys == disk.Keys - jobs.Keys
    ensures var records, listed := RecoveredDisk(disk, jobs.Keys, disk.Keys, now), Relisted(jobs, cache, disk, disk.Keys);
            && records.Keys == disk.Keys
            && (id in jobs ==> id in listed && listed[id] == jobs[id] && (id in disk ==> records[id] == disk[id]))
            && (id !in jobs ==> (id in listed <==> id in disk && (disk[id].status == Queued || disk[id].status == Review)))
            && (id !in jobs && id in listed ==> id in cache && listed[id] == cache[id])
    ensures var records := RecoveredDisk(disk, jobs.Keys, disk.Keys, now);
            id in disk && id !in jobs ==>
              records[id] == if disk[id].status == Running then disk[id].(status := Failed, finished := now)
                             else if disk[id].status == Queued then disk[id].(notBefore := 0.0, waiting := NotWaiting)
                             else disk[id]
  {
    assert id in disk && id !in jobs ==> id in disk.Keys - jobs.Keys;
    assert id in cache && id !in jobs ==> id in cache.Keys - jobs.Keys;
  }

  /** How far recovery has come. */
  ghost predicate Midway(was: map<JobId, JobObject>, jobs: map<JobId, JobObject>, cache: map<JobId, JobObject>,
                         copy: map<JobId, Job>, first: map<JobId, Job>, disk: map<JobId, Job>, done: set<JobId>, now: real) {
    && disk == RecoveredDisk(first, was.Keys, done, now)
    && jobs == Relisted(was, cache, first, done)
    && copy.Keys == cache.Keys && Agrees(copy, disk, was.Keys)
  }

  lemma MidwayFirst(was: map<JobId, JobObject>, cache: map<JobId, JobObject>, copy: map<JobId, Job>, disk: map<JobId, Job>, now: real)
    requires copy.Keys == cache.Keys && Agrees(copy, disk, was.Keys)
    ensures Midway(was, was, cache, copy, disk, disk, {}, now)
  {
  }

  /** A job not yet treated is listed exactly when it was before. */
  lemma MidwayLive(was: map<JobId, JobObject>, jobs: map<JobId, JobObject>, cache: map<JobId, JobObject>,
                   copy: map<JobId, Job>, first: map<JobId, Job>, disk: map<JobId, Job>, done: set<JobId>, now: real, id: JobId)
    requires Midway(was, jobs, cache, copy, first, disk, done, now) && id !in done
    ensures id in jobs <==> id in was
  {
  }

  lemma MidwaySkip(was: map<JobId, JobObject>, jobs: map<JobId, JobObject>, cache: map<JobId, JobObject>,
                   copy: map<JobId, Job>, first: map<JobId, Job>, disk: map<JobId, Job>, done: set<JobId>, now: real, id: JobId)
    requires Midway(was, jobs, cache, copy, first, disk, done, now) && id in was
    ensures Midway(was, jobs, cache, copy, first, disk, done + {id}, now)
  {
  }

  lemma RecoveredNext(first: map<JobId, Job>, listed: set<JobId>, done: set<JobId>, now: real, id: JobId)
    requires id in first && id !in listed && id !in done
    ensures var disk := RecoveredDisk(first, listed, done, now);
            disk[id] == first[id]
            && RecoveredDisk(first, listed, done + {id}, now) == disk[id := Lifecycle.Recovered(first[id], now)]
  {
  }

  lemma RelistedNext(was: map<JobId, JobObject>, cache: map<JobId, JobObject>, first: map<JobId, Job>, done: set<JobId>, id: JobId)
    requires id in cache && id in first && id !in was && id !in done
    ensures var jobs := Relisted(was, cache, first, done);
            Relisted(was, cache, first, done + {id}) == if ComesBack(first[id]) then jobs[id := cache[id]] else jobs
  {
  }

  lemma AgreesNext(copy: map<JobId, Job>, disk: map<JobId, Job>, listed: set<JobId>, id: JobId, r: Job)
    requires Agrees(copy, disk, listed)
    ensures Agrees(copy[id := r], disk[id := r], listed)
  {
  }

  lemma MidwayNext(was: map<JobId, JobObject>, jobs: map<JobId, JobObject>, cache: map<JobId, JobObject>,
                   copy: map<JobId, Job>, first: map<JobId, Job>, disk: map<JobId, Job>, done: set<JobId>, now: real, id: JobId)
    requires Midway(was, jobs, cache, copy, first, disk, done, now) && id !in was && id !in done && id in cache
    ensures id in copy && id in disk && id in first && copy[id] == disk[id] == first[id]
    ensures var r := Lifecycle.Recovered(first[id], now);
            Midway(was, if ComesBack(first[id]) then jobs[id := cache[id]] else jobs, cache, copy[id := r], first,
                   disk[id := r], done + {id}, now)
  {
    assert id in copy && id in disk && id in first;
    hide Relisted, RecoveredDisk, ComesBack, Lifecycle.Recovered;
    RecoveredNext(first, was.Keys, done, now, id);
    RelistedNext(was, cache, first, done, id);
    AgreesNext(copy, disk, was.Keys, id, Lifecycle.Recovered(first[id], now));
  }

  lemma RecoveredLast(first: map<JobId, Job>, listed: set<JobId>, done: set<JobId>, now: real)
    requires first.Keys - listed <= done
    ensures RecoveredDisk(first, listed, done, now) == RecoveredDisk(first, listed, first.Keys, now)
  {
  }

  lemma RelistedLast(was: map<JobId, JobObject>, cache: map<JobId, JobObject>, first: map<JobId, Job>, done: set<JobId>)
    requires first.Keys - was.Keys <= done
    ensures Relisted(was, cache, first, done) == Relisted(was, cache, first, first.Keys)
    ensures was.Keys <= Relisted(was, cache, first, first.Keys).Keys
  {
  }

  lemma RelistedOwnIds(was: map<JobId, JobObject>, cache: map<JobId, JobObject>, first: map<JobId, Job>)
    requires OwnIds(was) && OwnIds(cache)
    ensures OwnIds(Relisted(was, cache, first, first.Keys))
  {
  }

  lemma AgreesLess(copy: map<JobId, Job>, disk: map<JobId, Job>, listed: set<JobId>, more: set<JobId>)
    requires Agrees(copy, disk, listed) && listed <= more
    ensures Agrees(copy, disk, more)
  {
  }

  lemma MidwayLast(was: map<JobId, JobObject>, jobs: map<JobId, JobObject>, cache: map<JobId, JobObject>,
                   copy: map<JobId, Job>, first: map<JobId, Job>, disk: map<JobId, Job>, done: set<JobId>, now: real)
    requires Midway(was, jobs, cache, copy, first, disk, done, now) && cache.Keys - was.Keys <= done
    ensures disk == RecoveredDisk(first, was.Keys, first.Keys, now)
    ensures jobs == Relisted(was, cache, first, first.Keys)
    ensures Agrees(copy, disk, was.Keys) && Agrees(copy, disk, jobs.Keys)
  {
    assert first.Keys == disk.Keys;
    assert first.Keys - was.Keys <= done;
    hide Relisted, RecoveredDisk;
    RecoveredLast(first, was.Keys, done, now);
    RelistedLast(was, cache, first, done);
    AgreesLess(copy, disk, was.Keys, jobs.Keys);
  }

  /** The objects of memory, and those of the copy for the other jobs. */
  ghost predicate IsMerged(rows: map<JobId, JobObject>, cache: map<JobId, JobObject>, jobs: map<JobId, JobObject>) {
    rows == (cache - jobs.Keys) + jobs
  }

  lemma MergedRow(rows: map<JobId, JobObject>, cache: map<JobId, JobObject>, jobs: map<JobId, JobObject>, id: JobId)
    requires IsMerged(rows, cache, jobs) && OwnIds(cache) && OwnIds(jobs) && id in rows
    ensures rows[id].id == id
    ensures id in jobs || (id in cache && cache[id] == rows[id] && rows[id] in cache.Values)
  {
  }

  /** Memory and disk without the jobs in `gone`, which `removed` counts. */
  ghost predicate Swept(disk: map<JobId, Job>, jobs: map<JobId, JobObject>, newDisk: map<JobId, Job>,
                        newJobs: map<JobId, JobObject>, gone: set<JobId>, removed: nat) {
    newDisk == disk - gone && newJobs == jobs - gone && removed == |gone|
  }

  lemma SweptNone(disk: map<JobId, Job>, jobs: map<JobId, JobObject>)
    ensures Swept(disk, jobs, disk, jobs, {}, 0)
  {
  }

  lemma SweptKeepsIds(disk: map<JobId, Job>, jobs: map<JobId, JobObject>, newDisk: map<JobId, Job>,
                      newJobs: map<JobId, JobObject>, gone: set<JobId>, removed: nat)
    requires Swept(disk, jobs, newDisk, newJobs, gone, removed) && OwnIds(jobs)
    ensures OwnIds(newJobs)
  {
  }

  lemma SweptNothing(disk: map<JobId, Job>, jobs: map<JobId, JobObject>, newDisk: map<JobId, Job>,
                     newJobs: map<JobId, JobObject>, gone: set<JobId>, removed: nat)
    requires Swept(disk, jobs, newDisk, newJobs, gone, removed) && removed == 0
    ensures newDisk == disk && newJobs == jobs
  {
  }

  lemma SweptNext(disk: map<JobId, Job>, jobs: map<JobId, JobObject>, newDisk: map<JobId, Job>,
                  newJobs: map<JobId, JobObject>, gone: set<JobId>, removed: nat, id: JobId)
    requires Swept(disk, jobs, newDisk, newJobs, gone, removed) && id !in gone
    ensures Swept(disk, jobs, newDisk - {id}, newJobs - {id}, gone + {id}, removed + 1)
  {
  }

  lemma FirstAndLast(cfg: Config, rows: map<JobId, JobObject>, view: map<JobId, Job>, now: real)
    requires Contents(rows) == view
    ensures Outdated(cfg, view, now) - rows.Keys == {} && Outdated(cfg, view, now) - {} == Outdated(cfg, view, now)
  {
  }

  lemma NextOutdated(cfg: Config, rows: map<JobId, Job>, now: real, todo: set<JobId>, id: JobId)
    requires id in todo && id in rows
    ensures Outdated(cfg, rows, now) - (todo - {id})
         == (Outdated(cfg, rows, now) - todo) + (if Expired(cfg, rows[id], now) then {id} else {})
    ensures id !in Outdated(cfg, rows, now) - todo
  {
  }

  /** Memory over an agreeing copy is memory over the disk. */
  lemma MergedContents(cache: map<JobId, JobObject>, jobs: map<JobId, JobObject>, disk: map<JobId, Job>)
    requires Agrees(Contents(cache), disk, jobs.Keys)
    ensures Contents((cache - jobs.Keys) + jobs) == disk + Contents(jobs)
  {
  }

  /** A copy made at `at` is fresh enough. */
  predicate IsFresh(at: real, now: real, kept: real) {
    now - at < kept
  }

  class JobStore {
    const cfg: Config
    const cacheSec: real
    var clock: real
    var jobs: map<JobId, JobObject>
    var disk: map<JobId, Job>
    var cache: map<JobId, JobObject>
    var cacheAt: real                  // when the copy was made; 0 when it is not to be used
    var scanned: bool

    /** A copy is withdrawn by setting its time to 0.  That works exactly because the clock, which
        counts the seconds of an epoch, shows no less than the time a copy is kept. */
    ghost predicate Valid()
      reads this, jobs.Values, cache.Values
    {
      && OwnIds(jobs) && OwnIds(cache) && clock >= cacheSec
      && (scanned && cacheAt != 0.0 ==> Agrees(Contents(cache), disk, jobs.Keys))
    }

    /** The copy is to be used. */
    predicate Usable()
      reads this`clock, this`cacheAt, this`scanned
    {
      scanned && IsFresh(cacheAt, clock, cacheSec)
    }

    constructor (cfg: Config, cacheSec: real, clock: real, disk: map<JobId, Job>)
      requires clock >= cacheSec
      ensures Valid() && jobs == map[] && this.disk == disk && this.clock == clock && !scanned
      ensures this.cfg == cfg && this.cacheSec == cacheSec
    {
      this.cfg, this.cacheSec, this.clock, this.disk := cfg, cacheSec, clock, disk;
      jobs, cache, cacheAt, scanned := map[], map[], 0.0, false;
    }

    // ---------------------------------------------------------------- the listing

    /** Reads all records. */
    method Scan() returns (found: map<JobId, JobObject>)
      ensures OwnIds(found) && Contents(found) == disk
      ensures forall id :: id in found ==> fresh(found[id])
    {
      found := map[];
      var todo := disk.Keys;
      while todo != {}
        invariant todo <= disk.Keys && found.Keys == disk.Keys - todo && OwnIds(found)
        invariant forall id :: id in found ==> fresh(found[id]) && found[id].Record() == disk[id]
        decreases todo
      {
        var id :| id in todo;
        var j := new JobObject.Load(id, disk[id]);
        found := found[id := j];
        todo := todo - {id};
      }
    }

    /** The jobs that are only on disk, from the copy if it is fresh enough. */
    method DiskOnly(known: set<JobId>) returns (rows: map<JobId, JobObject>)
      requires Valid() && known == jobs.Keys
      modifies this`cache, this`cacheAt, this`scanned
      ensures Valid() && rows == cache - known
      ensures cache == old(cache) || forall id :: id in cache ==> fresh(cache[id])
      ensures Agrees(Contents(cache), disk, known)
      ensures if old(scanned && clock - cacheAt < cacheSec) then cache == old(cache) && cacheAt == old(cacheAt)
              else cacheAt == clock && forall id :: id in cache ==> fresh(cache[id])
      ensures scanned
    {
      if Usable() {
        return cache - known;
      }
      var found := Scan();
      cache, cacheAt, scanned := found, clock, true;
      return found - known;
    }

    /** All jobs, memory first: exactly what merging memory over a full scan of the disk gives. */
    method AllJobs() returns (rows: map<JobId, JobObject>)
      requires Valid()
      modifies this`cache, this`cacheAt, this`scanned
      ensures Valid() && OwnIds(rows)
      ensures IsMerged(rows, cache, jobs)
      ensures cache == old(cache) || forall id :: id in cache ==> fresh(cache[id])
      ensures Agrees(Contents(cache), disk, jobs.Keys) && Contents(rows) == disk + Contents(jobs)
    {
      var only := DiskOnly(jobs.Keys);
      rows := only + jobs;
      MergedContents(cache, jobs, disk);
    }

    // ---------------------------------------------------------------- what changes the jobs

    method Invalidate()
      modifies this`cacheAt
      ensures cacheAt == 0.0
    {
      cacheAt := 0.0;
    }

    method Tick(d: real)
      requires Valid() && d > 0.0
      modifies this`clock
      ensures Valid() && clock == old(clock) + d
    {
      clock := clock + d;
    }

    /** A new job is listed and recorded; the copy need not know. */
    method Submit(id: JobId, fromBucket: bool) returns (j: JobObject)
      requires Valid() && id !in jobs && id !in disk
      modifies this`jobs, this`disk
      ensures Valid() && jobs == old(jobs)[id := j] && fresh(j) && j.Record() == Fresh(fromBucket, clock)
      ensures disk == old(disk)[id := j.Record()]
    {
      j := new JobObject(id, fromBucket, clock);
      jobs := jobs[id := j];
      disk := disk[id := j.Record()];
    }

    /** A region changes a listed job in whatever way, and saves it; the copy need not know. */
    method Change(j: JobObject, r: Job)
      requires Valid() && j.id in jobs && jobs[j.id] == j
      requires r.fromBucket == j.fromBucket && r.created == j.created
      modifies this`disk, j
      ensures Valid() && j.Record() == r && disk == old(disk)[j.id := r]
    {
      j.Become(r);
      disk := disk[j.id := j.Record()];
    }

    method Delete(id: JobId)
      requires Valid()
      modifies this`jobs, this`disk, this`cacheAt
      ensures Valid() && jobs == old(jobs) - {id} && disk == old(disk) - {id} && cacheAt == 0.0
    {
      jobs := jobs - {id};
      disk := disk - {id};
      Invalidate();
    }

    /** Removes what is outdated, from memory and disk, and withdraws the copy if anything was. */
    method Sweep() returns (removed: nat)
      requires Valid()
      modifies this
      ensures Valid() && clock == old(clock)
      ensures var over := Outdated(cfg, old(disk) + old(Contents(jobs)), clock);
              disk == old(disk) - over && jobs == old(jobs) - over && removed == |over|
    {
      if cfg.jobTtl == 0.0 {
        assert Outdated(cfg, disk + Contents(jobs), clock) == {};
        SweptNone(disk, jobs);
        return 0;
      }
      removed := SweepListed();
    }

    method SweepListed() returns (removed: nat)
      requires Valid() && cfg.jobTtl != 0.0
      modifies this
      ensures Valid() && clock == old(clock)
      ensures Swept(old(disk), old(jobs), disk, jobs, Outdated(cfg, old(disk) + old(Contents(jobs)), clock), removed)
    {
      hide Outdated, Expired, Swept, Agrees, Contents;
      ghost var view := disk + Contents(jobs);
      var rows := AllJobs();
      removed := SweepRows(rows, view);
      SweptKeepsIds(old(disk), old(jobs), disk, jobs, Outdated(cfg, view, clock), removed);
      if removed > 0 {
        Invalidate();
      } else {
        SweptNothing(old(disk), old(jobs), disk, jobs, Outdated(cfg, view, clock), removed);
      }
    }

    /** Looks at any job that is still to be looked at. */
    method SweepNext(rows: map<JobId, JobObject>, ghost view: map<JobId, Job>, todo: set<JobId>, before: nat,
                     ghost wasDisk: map<JobId, Job>, ghost wasJobs: map<JobId, JobObject>)
      returns (rest: set<JobId>, removed: nat)
      requires OwnIds(rows) && Contents(rows) == view && cfg.jobTtl != 0.0 && todo != {} && todo <= rows.Keys
      requires Swept(wasDisk, wasJobs, disk, jobs, Outdated(cfg, view, clock) - todo, before)
      modifies this`jobs, this`disk
      ensures rest < todo && Swept(wasDisk, wasJobs, disk, jobs, Outdated(cfg, view, clock) - rest, removed)
    {
      hide Outdated, Expired, Swept;
      var id :| id in todo;
      assert view[id] == rows[id].Record();
      NextOutdated(cfg, view, clock, todo, id);
      SweptNext(wasDisk, wasJobs, disk, jobs, Outdated(cfg, view, clock) - todo, before, id);
      var drop := SweepRow(rows[id]);
      rest := todo - {id};
      removed := if drop then before + 1 else before;
      assert Outdated(cfg, view, clock) - todo + {} == Outdated(cfg, view, clock) - todo;
    }

    method SweepRows(rows: map<JobId, JobObject>, ghost view: map<JobId, Job>) returns (removed: nat)
      requires OwnIds(rows) && Contents(rows) == view && cfg.jobTtl != 0.0
      modifies this`jobs, this`disk
      ensures Swept(old(disk), old(jobs), disk, jobs, Outdated(cfg, view, clock), removed)
    {
      hide Outdated, Expired, Swept, Contents;
      removed := 0;
      var todo := rows.Keys;
      FirstAndLast(cfg, rows, view, clock);
      SweptNone(disk, jobs);
      while todo != {}
        invariant todo <= rows.Keys
        invariant Swept(old(disk), old(jobs), disk, jobs, Outdated(cfg, view, clock) - todo, removed)
        decreases todo
      {
        todo, removed := SweepNext(rows, view, todo, removed, old(disk), old(jobs));
      }
    }

    method SweepRow(j: JobObject) returns (drop: bool)
      requires cfg.jobTtl != 0.0
      modifies this`jobs, this`disk
      ensures drop == Expired(cfg, j.Record(), clock)
      ensures disk == if drop then old(disk) - {j.id} else old(disk)
      ensures jobs == if drop then old(jobs) - {j.id} else old(jobs)
    {
      var ttl := if j.status == Review then cfg.reviewTtl
                 else if j.status == Failed || j.status == Cancelled then cfg.failedTtl else cfg.jobTtl;
      drop := ttl != 0.0 && j.finished != 0.0 && clock - j.finished > ttl;
      if drop {
        disk := disk - {j.id};
        jobs := jobs - {j.id};
      }
    }

    // ---------------------------------------------------------------- recovery

    /** Recovery of one job that is only on disk: the object of the copy itself is changed, and goes
        into memory when the job comes back. */
    method RecoverRow(j: JobObject)
      modifies this`jobs, this`disk, j
      requires j.id in disk && disk[j.id] == j.Record()
      ensures j.Record() == Lifecycle.Recovered(old(j.Record()), clock)
      ensures disk == old(disk)[j.id := j.Record()]
      ensures jobs == if ComesBack(old(j.Record())) then old(jobs)[j.id := j] else old(jobs)
    {
      if j.status == Running {
        j.End(Failed, clock);
        disk := disk[j.id := j.Record()];
      } else if j.status == Review {
        jobs := jobs[j.id := j];
        assert disk == disk[j.id := j.Record()];
      } else if j.status == Queued {
        j.notBefore, j.waiting := 0.0, NotWaiting;
        jobs := jobs[j.id := j];
        disk := disk[j.id := j.Record()];
      } else {
        assert disk == disk[j.id := j.Record()];
      }
    }

    /** Recovery of everything that is only on disk.  Memory, disk and copy still agree. */
    method Recover()
      requires Valid()
      modifies this, cache.Values
      ensures Valid() && clock == old(clock)
      ensures disk == RecoveredDisk(old(disk), old(jobs).Keys, old(disk).Keys, clock)
      ensures jobs == Relisted(old(jobs), cache, old(disk), old(disk).Keys)
      ensures Contents(old(jobs)) == old(Contents(jobs))
      ensures Agrees(Contents(cache), disk, old(jobs).Keys)
    {
      ghost var first, was := disk, jobs;
      var rows := AllJobs();
      RecoverRows(rows);
      RelistedOwnIds(was, cache, first);
    }

    /** Treats one job of the listing: a job in memory is left alone, and no other job changes. */
    method RecoverOne(j: JobObject, ghost was: map<JobId, JobObject>, ghost first: map<JobId, Job>, ghost done: set<JobId>)
      requires OwnIds(was) && OwnIds(cache) && j.id !in done
      requires j.id in was || (j.id in cache && cache[j.id] == j)
      requires Midway(was, jobs, cache, Contents(cache), first, disk, done, clock)
      modifies this`jobs, this`disk, if j.id in jobs then {} else {j}
      ensures Midway(was, jobs, cache, Contents(cache), first, disk, done + {j.id}, clock)
      ensures Contents(was) == old(Contents(was))
    {
      hide Midway, Lifecycle.Recovered, ComesBack, Relisted, RecoveredDisk, Agrees;
      ghost var copy, records := Contents(cache), Contents(was);
      MidwayLive(was, jobs, cache, copy, first, disk, done, clock, j.id);
      if j.id in jobs {
        MidwaySkip(was, jobs, cache, copy, first, disk, done, clock, j.id);
        return;
      }
      MidwayNext(was, jobs, cache, copy, first, disk, done, clock, j.id);
      RecoverRow(j);
      SameElsewhere(was, j, records);
      SameElsewhere(cache, j, copy);
    }

    /** Treats any job that is still to be treated. */
    method RecoverNext(rows: map<JobId, JobObject>, todo: set<JobId>, ghost was: map<JobId, JobObject>,
                       ghost first: map<JobId, Job>) returns (rest: set<JobId>)
      requires OwnIds(was) && OwnIds(cache) && IsMerged(rows, cache, was)
      requires todo != {} && todo <= rows.Keys
      requires Midway(was, jobs, cache, Contents(cache), first, disk, rows.Keys - todo, clock)
      modifies this`jobs, this`disk, cache.Values
      ensures rest < todo && Contents(was) == old(Contents(was))
      ensures Midway(was, jobs, cache, Contents(cache), first, disk, rows.Keys - rest, clock)
    {
      hide Midway, Contents, IsMerged, OwnIds;
      var id :| id in todo;
      MergedRow(rows, cache, was, id);
      MidwayLive(was, jobs, cache, Contents(cache), first, disk, rows.Keys - todo, clock, id);
      RecoverOne(rows[id], was, first, rows.Keys - todo);
      rest := todo - {id};
      assert rows.Keys - rest == rows.Keys - todo + {id};
    }

    method RecoverRows(rows: map<JobId, JobObject>)
      requires OwnIds(jobs) && OwnIds(cache) && Agrees(Contents(cache), disk, jobs.Keys)
      requires IsMerged(rows, cache, jobs)
      modifies this`jobs, this`disk, cache.Values
      ensures disk == RecoveredDisk(old(disk), old(jobs).Keys, old(disk).Keys, clock)
      ensures jobs == Relisted(old(jobs), cache, old(disk), old(disk).Keys)
      ensures Contents(old(jobs)) == old(Contents(jobs))
      ensures Agrees(Contents(cache), disk, old(jobs).Keys) && Agrees(Contents(cache), disk, jobs.Keys)
    {
      ghost var first, was := disk, jobs;
      var todo := rows.Keys;
      MidwayFirst(was, cache, Contents(cache), disk, clock);
      assert rows.Keys - todo == {};
      assert cache.Keys - was.Keys <= rows.Keys;
      hide Midway, Relisted, RecoveredDisk, Agrees, Contents, IsMerged;
      while todo != {}
        invariant todo <= rows.Keys && Contents(was) == old(Contents(jobs))
        invariant Midway(was, jobs, cache, Contents(cache), first, disk, rows.Keys - todo, clock)
        decreases todo
      {
        todo := RecoverNext(rows, todo, was, first);
      }
      MidwayLast(was, jobs, cache, Contents(cache), first, disk, rows.Keys - todo, clock);
    }
  }

  /** Only the job `j` differs from what was known. */
  lemma SameElsewhere(rows: map<JobId, JobObject>, j: JobObject, was: map<JobId, Job>)
    requires was.Keys == rows.Keys
    requires forall id :: id in rows && rows[id] != j ==> was[id] == rows[id].Record()
    requires OwnIds(rows)
    ensures Contents(rows) == if j.id in rows && rows[j.id] == j then was[j.id := j.Record()] else was
  {
  }
}

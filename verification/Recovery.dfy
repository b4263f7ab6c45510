/** Start-up recovery, record by record and oldest first, comes to recovering all records at once. */
module Recovery {
  import opened JobModel
  import opened Lifecycle

  /** Start-up recovery, one record at a time. */
  ghost function RecoverOne(s: System, id: JobId): System
    requires id in s.disk
  {
    var r := Recovered(s.disk[id], s.clock);
    var t := s.(disk := s.disk[id := r]);
    if r.status.Queued? || r.status.Review? then t.(heap := s.heap[id := r], mem := s.mem + {id}) else t
  }

  ghost predicate ComesBack(j: Job) {
    j.status.Queued? || j.status.Review?
  }

  /** Recovery with only the records in `done` treated. */
  ghost function RecoverSome(s: System, done: set<JobId>): System {
    s.(heap := map id | id in s.disk && id in done && ComesBack(s.disk[id]) :: Recovered(s.disk[id], s.clock),
       mem := (set id | id in s.disk && id in done && ComesBack(s.disk[id])),
       disk := map id | id in s.disk :: if id in done then Recovered(s.disk[id], s.clock) else s.disk[id])
  }

  lemma RecoverNone(s: System)
    requires s.heap == map[] && s.mem == {}
    ensures RecoverSome(s, {}) == s
  {
  }

  lemma RecoverNext(s: System, done: set<JobId>, id: JobId)
    requires id in s.disk && id !in done
    ensures RecoverOne(RecoverSome(s, done), id) == RecoverSome(s, done + {id})
  {
  }

  lemma RecoveredAll(s: System, order: seq<JobId>)
    requires s.timers == [] && s.worker.Idle?
    requires s.submitting == {} && s.lost == {} && s.cancelling == {} && s.deleting == {} && s.sweeping == {}
    ensures RecoverSome(s, s.disk.Keys).(queue := order) == Restarted(s, order)
  {
  }

  ghost function Ids(order: seq<JobId>): set<JobId> {
    set id | id in order
  }

  ghost function QueuedOf(disk: map<JobId, Job>, order: seq<JobId>): seq<JobId> {
    if order == [] then []
    else
      var id := order[|order| - 1];
      QueuedOf(disk, order[..|order| - 1]) + (if id in disk && disk[id].status.Queued? then [id] else [])
  }

  ghost predicate ByCreation(disk: map<JobId, Job>, order: seq<JobId>) {
    && (forall i :: 0 <= i < |order| ==> order[i] in disk)
    && (forall i, k :: 0 <= i < k < |order| ==> order[i] != order[k])
    && (forall i, k :: 0 <= i < k < |order| ==> order[i] in disk && order[k] in disk
                                                && disk[order[i]].created <= disk[order[k]].created)
  }

  lemma {:induction false} QueuedOfSelects(disk: map<JobId, Job>, order: seq<JobId>, id: JobId)
    requires forall i :: 0 <= i < |order| ==> order[i] in disk
    ensures id in QueuedOf(disk, order) <==> id in order && disk[id].status.Queued?
  {
    if order != [] {
      var n := |order| - 1;
      QueuedOfSelects(disk, order[..n], id);
      assert order == order[..n] + [order[n]];
    }
  }

  lemma ByCreationSnoc(disk: map<JobId, Job>, q: seq<JobId>, id: JobId)
    requires ByCreation(disk, q) && id in disk && id !in q
    requires forall i :: 0 <= i < |q| ==> disk[q[i]].created <= disk[id].created
    ensures ByCreation(disk, q + [id])
  {
  }

  lemma {:induction false} QueuedOfKeepsOrder(disk: map<JobId, Job>, order: seq<JobId>)
    requires ByCreation(disk, order)
    ensures ByCreation(disk, QueuedOf(disk, order))
  {
    if order != [] {
      var n := |order| - 1;
      var q := QueuedOf(disk, order[..n]);
      QueuedOfKeepsOrder(disk, order[..n]);
      forall i | 0 <= i < |q| ensures q[i] in order[..n] {
        QueuedOfSelects(disk, order[..n], q[i]);
      }
      if disk[order[n]].status.Queued? {
        QueuedOfSelects(disk, order[..n], order[n]);
        ByCreationSnoc(disk, q, order[n]);
      }
    }
  }

  /** The next record of an orderly recovery is still as the crash left it. */
  lemma RecoverStep(s: System, order: seq<JobId>, i: nat)
    requires ByCreation(s.disk, order) && i < |order|
    ensures var id, done := order[i], Ids(order[..i]);
            && id !in done && Ids(order[..i+1]) == done + {id}
            && id in RecoverSome(s, done).disk && RecoverSome(s, done).disk[id] == s.disk[id]
            && QueuedOf(s.disk, order[..i+1])
            == QueuedOf(s.disk, order[..i]) + (if s.disk[id].status.Queued? then [id] else [])
  {
    assert order[..i+1] == order[..i] + [order[i]];
    assert order[..i+1][..i] == order[..i];
  }

  lemma QueuedOfIsResumeOrder(s: System, order: seq<JobId>)
    requires ByCreation(s.disk, order) && Ids(order) == s.disk.Keys
    ensures ResumeOrder(s, QueuedOf(s.disk, order))
  {
    QueuedOfKeepsOrder(s.disk, order);
    forall id | id in s.disk ensures id in QueuedOf(s.disk, order) <==> id in ToResume(s) {
      assert id in Ids(order);
      QueuedOfSelects(s.disk, order, id);
    }
  }

  /** `longer` is `order` with `id` put in at `k`. */
  ghost predicate Spliced(order: seq<JobId>, longer: seq<JobId>, id: JobId, k: nat) {
    && |longer| == |order| + 1 && k <= |order| && longer[k] == id
    && (forall i :: 0 <= i < k ==> longer[i] == order[i])
    && (forall i :: k < i < |longer| ==> longer[i] == order[i - 1])
  }

  lemma SplicedIds(order: seq<JobId>, longer: seq<JobId>, id: JobId, k: nat)
    requires Spliced(order, longer, id, k)
    ensures Ids(longer) == Ids(order) + {id}
  {
    forall n | n in order ensures n in longer {
      var i :| 0 <= i < |order| && order[i] == n;
      assert longer[if i < k then i else i + 1] == n;
    }
  }

  lemma SplicedByCreation(disk: map<JobId, Job>, order: seq<JobId>, longer: seq<JobId>, id: JobId, k: nat)
    requires ByCreation(disk, order) && Spliced(order, longer, id, k) && id in disk && id !in order
    requires k > 0 ==> disk[order[k - 1]].created <= disk[id].created
    requires forall i :: k <= i < |order| ==> disk[id].created < disk[order[i]].created
    ensures ByCreation(disk, longer)
  {
  }

  /** All records, the oldest first. */
  method OldestFirst(disk: map<JobId, Job>) returns (order: seq<JobId>)
    ensures ByCreation(disk, order) && Ids(order) == disk.Keys
  {
    order := [];
    var todo := disk.Keys;
    while todo != {}
      invariant todo <= disk.Keys && Ids(order) == disk.Keys - todo && ByCreation(disk, order)
      decreases todo
    {
      var id :| id in todo;
      var k := |order|;
      while k > 0 && disk[order[k - 1]].created > disk[id].created
        invariant 0 <= k <= |order|
        invariant forall i :: k <= i < |order| ==> disk[id].created < disk[order[i]].created
      {
        k := k - 1;
      }
      assert id !in Ids(order);
      var longer := order[..k] + [id] + order[k..];
      SplicedIds(order, longer, id, k);
      SplicedByCreation(disk, order, longer, id, k);
      order := longer;
      todo := todo - {id};
    }
  }
}

/** The list of folders whose progress is shown: the most recently used first, at most 64. */
module Folders {
  import opened Basics

  const SHOWN := 64

  // ------------------------------------------------------------------ the folder of a key

  /** Up to and including the last slash; nothing when there is none. */
  function FolderOf(key: string): (p: string)
    ensures p == "" <==> '/' !in key
    ensures |p| <= |key| && p == key[..|p|]
    ensures p != "" ==> p[|p| - 1] == '/' && '/' !in key[|p|..]
  {
    if key == "" then ""
    else if key[|key| - 1] == '/' then key
    else FolderOf(key[..|key| - 1])
  }

  // ------------------------------------------------------------------ lists

  function Without(rows: seq<string>, p: string): (r: seq<string>)
    ensures |r| <= |rows| && p !in r
    ensures forall q :: q in r <==> q in rows && q != p
  {
    if rows == [] then [] else (if rows[0] == p then [] else [rows[0]]) + Without(rows[1..], p)
  }

  ghost predicate Distinct(rows: seq<string>) {
    forall i, k :: 0 <= i < k < |rows| ==> rows[i] != rows[k]
  }

  /** All folders ever used, the latest use first. */
  ghost function Recent(history: seq<string>): seq<string> {
    if history == [] then []
    else
      var last := history[|history| - 1];
      [last] + Without(Recent(history[..|history| - 1]), last)
  }

  /** When a folder was last used; -1 if never. */
  ghost function LastUse(history: seq<string>, p: string): (k: int)
    ensures -1 <= k < |history|
    ensures k >= 0 ==> history[k] == p
    ensures forall i :: k < i < |history| ==> history[i] != p
  {
    if history == [] then -1
    else if history[|history| - 1] == p then |history| - 1
    else LastUse(history[..|history| - 1], p)
  }

  class FolderList {
    var rows: seq<string>            // the stored list
    ghost var history: seq<string>   // every folder that was entered

    ghost predicate Valid()
      reads this
    {
      rows == UpTo(SHOWN, Recent(history))
    }

    constructor ()
      ensures Valid() && history == []
    {
      rows, history := [], [];
    }

    /** Enters the folder of a submitted key, or moves it to the front.  `written` says whether the
        list could be written; otherwise the stored list stays as it is. */
    method Track(key: string, written: bool)
      requires Valid()
      modifies this
      ensures Valid()
      ensures rows == UpTo(64, Recent(history))
      ensures history == if FolderOf(key) != "" && written then old(history) + [FolderOf(key)] else old(history)
    {
      if key == "" {
        return;
      }
      var p := FolderOf(key);
      if p == "" {
        return;
      }
      var updated := [p] + Without(rows, p);
      updated := if SHOWN < |updated| then updated[..SHOWN] else updated;
      if written {
        RecentIsByLastUse(history);
        OrderIsDistinct(history, Recent(history));
        CutAtEveryStep(SHOWN - 1, Recent(history), p);
        assert (history + [p])[..|history|] == history;
        rows, history := updated, history + [p];
      }
    }
  }

  // ------------------------------------------------------------------ cutting at every step

  lemma {:induction false} WithoutAbsent(rows: seq<string>, p: string)
    requires p !in rows
    ensures Without(rows, p) == rows
  {
    if rows != [] {
      WithoutAbsent(rows[1..], p);
    }
  }

  lemma UpToCons(n: nat, x: string, rows: seq<string>)
    ensures UpTo(n + 1, [x] + rows) == [x] + UpTo(n, rows)
  {
  }

  lemma TailIsDistinct(rows: seq<string>)
    requires Distinct(rows) && rows != []
    ensures Distinct(rows[1..]) && rows[0] !in rows[1..]
  {
  }

  /** What lies behind the cut of a list without repetitions does not come back to the front. */
  lemma {:induction false} CutThenRemove(n: nat, rows: seq<string>, p: string)
    requires Distinct(rows)
    ensures UpTo(n, Without(UpTo(n + 1, rows), p)) == UpTo(n, Without(rows, p))
  {
    if rows != [] {
      var x, tail := rows[0], rows[1..];
      TailIsDistinct(rows);
      assert rows == [x] + tail;
      UpToCons(n, x, tail);
      var cut := UpTo(n, tail);
      assert ([x] + cut)[1..] == cut;
      if x == p {
        WithoutAbsent(tail, p);
        WithoutAbsent(cut, p);
      } else if n > 0 {
        CutThenRemove(n - 1, tail, p);
        UpToCons(n - 1, x, Without(cut, p));
        UpToCons(n - 1, x, Without(tail, p));
      }
    }
  }

  lemma CutAtEveryStep(n: nat, rows: seq<string>, p: string)
    requires Distinct(rows)
    ensures UpTo(n + 1, [p] + Without(UpTo(n + 1, rows), p)) == UpTo(n + 1, [p] + Without(rows, p))
  {
    CutThenRemove(n, rows, p);
    UpToCons(n, p, Without(UpTo(n + 1, rows), p));
    UpToCons(n, p, Without(rows, p));
  }

  // ------------------------------------------------------------------ what the list is

  /** In order of the last use, the latest first. */
  ghost predicate ByLastUse(history: seq<string>, rows: seq<string>) {
    forall i, k :: 0 <= i < k < |rows| ==> LastUse(history, rows[i]) > LastUse(history, rows[k])
  }

  lemma {:induction false} WithoutKeepsOrder(history: seq<string>, rows: seq<string>, p: string)
    requires ByLastUse(history, rows)
    ensures ByLastUse(history, Without(rows, p))
  {
    if rows != [] {
      WithoutKeepsOrder(history, rows[1..], p);
      var rest := Without(rows[1..], p);
      forall k | 0 <= k < |rest| ensures LastUse(history, rows[0]) > LastUse(history, rest[k]) {
        assert rest[k] in rest;
        var i :| 0 <= i < |rows[1..]| && rows[1..][i] == rest[k];
        assert rows[i + 1] == rest[k];
      }
    }
  }

  lemma LastUseSnoc(before: seq<string>, last: string, p: string)
    ensures LastUse(before + [last], p) == if p == last then |before| else LastUse(before, p)
  {
  }

  lemma {:induction false} RecentIsByLastUse(history: seq<string>)
    ensures ByLastUse(history, Recent(history))
    ensures forall p :: p in Recent(history) <==> p in history
  {
    if history != [] {
      var n := |history| - 1;
      var before, last := history[..n], history[n];
      assert history == before + [last];
      RecentIsByLastUse(before);
      var rest := Without(Recent(before), last);
      WithoutKeepsOrder(before, Recent(before), last);
      forall i | 0 <= i < |rest| ensures LastUse(history, rest[i]) == LastUse(before, rest[i]) {
        assert rest[i] in rest;
        LastUseSnoc(before, last, rest[i]);
      }
      LastUseSnoc(before, last, last);
    }
  }

  lemma OrderIsDistinct(history: seq<string>, rows: seq<string>)
    requires ByLastUse(history, rows)
    ensures Distinct(rows)
  {
  }

  /** The folders used after the last use of `p`. */
  ghost function UsedLater(history: seq<string>, p: string): set<string> {
    set q | q in history && LastUse(history, q) > LastUse(history, p)
  }

  lemma {:induction false} SizeOfDistinct(rows: seq<string>)
    requires Distinct(rows)
    ensures |set q | q in rows| == |rows|
  {
    if rows != [] {
      TailIsDistinct(rows);
      SizeOfDistinct(rows[1..]);
      assert (set q | q in rows) == {rows[0]} + set q | q in rows[1..];
    }
  }

  lemma UsedLaterAt(history: seq<string>, i: nat)
    requires i < |Recent(history)|
    ensures |UsedLater(history, Recent(history)[i])| == i
  {
    var r := Recent(history);
    RecentIsByLastUse(history);
    OrderIsDistinct(history, r);
    hide Recent, LastUse;
    SizeOfDistinct(r[..i]);
    forall q ensures q in UsedLater(history, r[i]) <==> q in r[..i] {
      if q in UsedLater(history, r[i]) {
        var k :| 0 <= k < |r| && r[k] == q;
        assert k < i;
        assert r[..i][k] == q;
      }
    }
    assert UsedLater(history, r[i]) == set q | q in r[..i];
  }

  /** Although the list is cut at every step, it holds exactly the folders after whose last use
      fewer than 64 others were used, each once, the latest first. */
  lemma StoredAreTheLatest(history: seq<string>, rows: seq<string>, p: string)
    requires rows == UpTo(64, Recent(history))
    ensures ByLastUse(history, rows) && Distinct(rows) && |rows| <= 64
    ensures p in rows <==> p in history && |UsedLater(history, p)| < 64
  {
    var r := Recent(history);
    RecentIsByLastUse(history);
    OrderIsDistinct(history, r);
    if p in rows {
      var i :| 0 <= i < |rows| && rows[i] == p;
      assert r[i] == p;
      UsedLaterAt(history, i);
    }
    if p in history && |UsedLater(history, p)| < 64 {
      var i :| 0 <= i < |r| && r[i] == p;
      UsedLaterAt(history, i);
      assert rows[i] == p;
    }
  }
}

/** Processing with a smaller batch when the memory of the graphics card does not suffice. */
module OomRetry {

  /** How one try of the pipeline ends. */
  datatype Try<+V, +E> = Works(value: V) | OutOfMemory(error: E) | JobFails(error: E) | Breaks(error: E)

  /** How the processing ends.  `GaveUp` is a transient job error; it names the last error and is
      raised from the first one. */
  datatype Outcome<+V, +E> = Processed(value: V) | Refused(error: E) | Broke(error: E) | GaveUp(last: E, first: E)

  function Max(a: int, b: int): int {
    if a < b then b else a
  }

  /** Halving rounds down, also below zero. */
  function Halved(batch: int, least: int): int {
    Max(least, batch / 2)
  }

  /** Does halving reach the smallest batch? */
  predicate Halves(batch: int, least: int) {
    least >= 0 || batch <= least
  }

  /** The batch sizes tried while the memory does not suffice. */
  function Sizes(batch: int, least: int): (sizes: seq<int>)
    requires Halves(batch, least)
    ensures sizes != [] && sizes[0] == batch
    decreases batch
  {
    if batch <= least then [batch] else [batch] + Sizes(Halved(batch, least), least)
  }

  /** The size asked for; nothing or 0 means 1. */
  function Asked(batch: int): int {
    if batch == 0 then 1 else batch
  }

  ghost predicate AllOom<V, E>(attempt: (nat, int) -> Try<V, E>, sizes: seq<int>, k: nat) {
    forall i :: 0 <= i < k && i < |sizes| ==> attempt(i, sizes[i]).OutOfMemory?
  }

  /** What the processing comes to: the first try that is not short of memory decides; when all
      sizes are used up, it is given up. */
  ghost predicate Ends<V, E>(attempt: (nat, int) -> Try<V, E>, batch: int, least: int,
                             r: Outcome<V, E>, tries: seq<int>)
    requires Halves(batch, least)
  {
    && tries != [] && tries <= Sizes(batch, least)
    && var n := |tries| - 1;
       && AllOom(attempt, tries, n)
       && match attempt(n, tries[n])
          case Works(v) => r == Processed(v)
          case JobFails(e) => r == Refused(e)
          case Breaks(e) => r == Broke(e)
          case OutOfMemory(e) => tries == Sizes(batch, least) && attempt(0, tries[0]).OutOfMemory?
                                 && r == GaveUp(e, attempt(0, tries[0]).error)
  }

  lemma Shift(a: seq<int>, x: int, b: seq<int>)
    ensures a + ([x] + b) == (a + [x]) + b
  {
  }

  lemma NextSize(sizes: seq<int>, tries: seq<int>, batch: int, least: int)
    requires Halves(batch, least) && sizes == tries + Sizes(batch, least)
    ensures tries + [batch] <= sizes
    ensures if batch <= least then tries + [batch] == sizes
            else sizes == (tries + [batch]) + Sizes(Halved(batch, least), least)
  {
    if batch > least {
      Shift(tries, batch, Sizes(Halved(batch, least), least));
    }
  }

  /** Tries, and halves the batch as long as the memory does not suffice.  `attempt(i, b)` is what
      try number `i`, with batch size `b`, comes to. */
  method Process<V, E>(attempt: (nat, int) -> Try<V, E>, batchSize: int, least: int)
    returns (r: Outcome<V, E>, tries: seq<int>)
    requires Halves(Asked(batchSize), least)
    ensures Ends(attempt, Asked(batchSize), least, r, tries)
    ensures tries[0] == if batchSize == 0 then 1 else batchSize
  {
    hide Sizes;
    var batch := if batchSize == 0 then 1 else batchSize;
    ghost var sizes := Sizes(batch, least);
    var first: seq<E> := [];
    tries := [];
    while true
      invariant Halves(batch, least) && sizes == tries + Sizes(batch, least)
      invariant AllOom(attempt, tries, |tries|)
      invariant if tries == [] then first == [] else first == [attempt(0, tries[0]).error]
      decreases batch
    {
      NextSize(sizes, tries, batch, least);
      tries := tries + [batch];
      match attempt(|tries| - 1, batch) {
        case Works(v) => return Processed(v), tries;
        case JobFails(e) => return Refused(e), tries;
        case Breaks(e) => return Broke(e), tries;
        case OutOfMemory(e) =>
          if first == [] {
            first := [e];
          }
          if batch <= least {
            return GaveUp(e, first[0]), tries;
          }
          batch := Max(least, batch / 2);
      }
    }
  }

  /** The first try that is not short of memory decides, with its own value or error, and nothing is tried
      after it. */
  lemma FirstOtherTryDecides<V, E>(attempt: (nat, int) -> Try<V, E>, batch: int, least: int, k: nat,
                                   r: Outcome<V, E>, tries: seq<int>)
    requires Halves(batch, least) && Ends(attempt, batch, least, r, tries)
    requires k < |Sizes(batch, least)| && !attempt(k, Sizes(batch, least)[k]).OutOfMemory?
    requires forall i :: 0 <= i < k ==> attempt(i, Sizes(batch, least)[i]).OutOfMemory?
    ensures tries == Sizes(batch, least)[..k + 1]
    ensures var t := attempt(k, Sizes(batch, least)[k]);
            && (t.Works? ==> r == Processed(t.value))
            && (t.JobFails? ==> r == Refused(t.error))
            && (t.Breaks? ==> r == Broke(t.error))
  {
    var sizes, n := Sizes(batch, least), |tries| - 1;
    assert tries[n] == sizes[n];
  }

  /** ... and if there is none, all sizes are tried, and the last error and the first are handed on. */
  lemma OutOfMemoryThroughout<V, E>(attempt: (nat, int) -> Try<V, E>, batch: int, least: int,
                                    r: Outcome<V, E>, tries: seq<int>)
    requires Halves(batch, least) && Ends(attempt, batch, least, r, tries)
    requires AllOom(attempt, Sizes(batch, least), |Sizes(batch, least)|)
    ensures tries == Sizes(batch, least)
    ensures var n := |tries| - 1;
            && attempt(n, tries[n]).OutOfMemory? && attempt(0, tries[0]).OutOfMemory?
            && r == GaveUp(attempt(n, tries[n]).error, attempt(0, tries[0]).error)
  {
    var n := |tries| - 1;
    assert tries[n] == Sizes(batch, least)[n];
  }

  // ------------------------------------------------------------------ what halving does

  lemma {:induction false} SizesDecrease(batch: int, least: int)
    requires Halves(batch, least)
    ensures var sizes := Sizes(batch, least);
            && (forall i, k :: 0 <= i < k < |sizes| ==> sizes[i] > sizes[k])
            && (batch >= least ==> sizes[|sizes| - 1] == least)
    decreases batch
  {
    if batch > least {
      SizesDecrease(Halved(batch, least), least);
    }
  }

  function Log2(n: nat): nat
    requires n >= 1
  {
    if n == 1 then 0 else 1 + Log2(n / 2)
  }

  lemma {:induction false} Log2IsMonotone(a: nat, b: nat)
    requires 1 <= a <= b
    ensures Log2(a) <= Log2(b)
  {
    if a > 1 {
      Log2IsMonotone(a / 2, b / 2);
    }
  }

  /** At most floor(log2 b) + 1 tries. */
  lemma {:induction false} TriesAreLogarithmic(batch: nat, least: nat)
    requires batch >= 1 && least >= 1
    ensures |Sizes(batch, least)| <= Log2(batch) + 1
    decreases batch
  {
    if batch > least {
      var next := Halved(batch, least);
      TriesAreLogarithmic(next, least);
      if next == least {
        assert |Sizes(next, least)| == 1;
      }
    }
  }

  ghost predicate FitsUpTo<V(!new), E(!new)>(attempt: (nat, int) -> Try<V, E>, most: int) {
    forall i: nat, b: int :: if b <= most then attempt(i, b).Works? else attempt(i, b).OutOfMemory?
  }

  lemma {:induction false} HalvingFinds(batch: int, least: int, most: int, n: nat)
    requires Halves(batch, least) && n < |Sizes(batch, least)|
    requires forall i :: 0 <= i < n ==> Sizes(batch, least)[i] > most
    requires batch > most >= least && n > 0 && Sizes(batch, least)[n] <= most
    ensures 2 * Sizes(batch, least)[n] >= most
    decreases n
  {
    var next := Halved(batch, least);
    var sizes := Sizes(batch, least);
    assert sizes[1..] == Sizes(next, least);
    if n > 1 {
      assert sizes[1] > most;
      forall i | 0 <= i < n - 1 ensures Sizes(next, least)[i] > most {
        assert sizes[i + 1] > most;
      }
      HalvingFinds(next, least, most, n - 1);
    }
  }

  /** If batches fit exactly up to a size the halving does not stop short of, the work is done, with
      at least half of that size; a batch that fits is tried once and left alone. */
  lemma HalfOptimal<V(!new), E(!new)>(attempt: (nat, int) -> Try<V, E>, batch: int, least: int, most: int,
                          r: Outcome<V, E>, tries: seq<int>)
    requires Halves(batch, least) && FitsUpTo(attempt, most) && least <= most
    requires Ends(attempt, batch, least, r, tries)
    ensures r.Processed? && tries[|tries| - 1] <= most
    ensures if batch <= most then tries == [batch] else 2 * tries[|tries| - 1] >= most
  {
    var n := |tries| - 1;
    SizesDecrease(batch, least);
    forall i | 0 <= i < n ensures tries[i] > most {
      assert attempt(i, tries[i]).OutOfMemory?;
    }
    if batch <= most {
      assert n == 0;
    } else {
      assert attempt(n, tries[n]).Works?;
      HalvingFinds(batch, least, most, n);
    }
  }

  /** Nothing fits: every size is tried, down to the smallest one, and the error is a transient one. */
  lemma NothingFits<V(!new), E(!new)>(attempt: (nat, int) -> Try<V, E>, batch: int, least: int, most: int,
                                      r: Outcome<V, E>, tries: seq<int>)
    requires Halves(batch, least) && FitsUpTo(attempt, most) && most < least <= batch
    requires Ends(attempt, batch, least, r, tries)
    ensures r.GaveUp? && tries == Sizes(batch, least) && tries[|tries| - 1] == least
  {
    var n := |tries| - 1;
    SizesDecrease(batch, least);
    assert tries[n] > most;
    assert attempt(n, tries[n]).OutOfMemory?;
  }

  /** The `k`-th size, if the limit is never reached. */
  function Halvings(batch: int, least: int, k: nat): int
    decreases k
  {
    if k == 0 then batch else Halvings(Halved(batch, least), least, k - 1)
  }

  lemma {:induction false} StuckAboveTheLimit(batch: int, least: int, k: nat)
    requires batch > least && least < 0
    ensures Halvings(batch, least, k) > least
    decreases k
  {
    if k > 0 {
      StuckAboveTheLimit(Halved(batch, least), least, k - 1);
    }
  }

  lemma {:induction false} LimitIsReached(batch: int, least: int)
    requires Halves(batch, least)
    ensures exists k: nat :: Halvings(batch, least, k) <= least
    decreases batch
  {
    if batch <= least {
      assert Halvings(batch, least, 0) <= least;
    } else {
      LimitIsReached(Halved(batch, least), least);
      var k: nat :| Halvings(Halved(batch, least), least, k) <= least;
      assert Halvings(batch, least, k + 1) <= least;
    }
  }

  /** Exactly when the tries come to an end though no batch ever fits: a negative limit that the
      first batch exceeds is never reached. */
  lemma HalvingEnds(batch: int, least: int)
    ensures (exists k: nat :: Halvings(batch, least, k) <= least) <==> Halves(batch, least)
  {
    if Halves(batch, least) {
      LimitIsReached(batch, least);
    } else {
      forall k: nat ensures Halvings(batch, least, k) > least {
        StuckAboveTheLimit(batch, least, k);
      }
    }
  }
}

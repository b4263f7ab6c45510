/** The first pass over a video: frames are collected into batches for the detector; and what its
    outcome means for the review. */
module Detect {

  /** What the pass returns; or the detector answered a batch with the wrong number of results. */
  datatype Outcome<+D> =
    | Detected(perFrame: seq<seq<D>>, rawBoxes: nat, detectedFrames: nat, total: nat)
    | Mismatch(asked: nat, got: nat)

  function Boxes<D>(perFrame: seq<seq<D>>): nat {
    if perFrame == [] then 0 else |perFrame[0]| + Boxes(perFrame[1..])
  }

  function NonEmpty<D>(perFrame: seq<seq<D>>): (n: nat)
    ensures n <= |perFrame|
  {
    if perFrame == [] then 0 else (if perFrame[0] != [] then 1 else 0) + NonEmpty(perFrame[1..])
  }

  /** The detector's answers, batch after batch. */
  datatype Answers<+D> = Found(perFrame: seq<seq<D>>) | Broken(asked: nat, got: nat)

  ghost function Batched<F, D>(detect: seq<F> -> seq<seq<D>>, frames: seq<F>, size: nat): Answers<D>
    requires size >= 1
    decreases |frames|
  {
    if frames == [] then Found([])
    else
      var k := if size < |frames| then size else |frames|;
      var results := detect(frames[..k]);
      if |results| != k then Broken(k, |results|) else Prepend(results, Batched(detect, frames[k..], size))
  }

  ghost function Prepend<D>(before: seq<seq<D>>, a: Answers<D>): Answers<D> {
    match a
    case Found(perFrame) => Found(before + perFrame)
    case Broken(_, _) => a
  }

  /** A batch is full from this size on; every frame is a batch when the size is not positive. */
  function BatchSize(batchSize: int): (n: nat)
    ensures n >= 1 && (n == batchSize || batchSize < n == 1)
  {
    if batchSize < 1 then 1 else batchSize
  }

  lemma {:induction false} CountsOfConcat<D>(a: seq<seq<D>>, b: seq<seq<D>>)
    ensures Boxes(a + b) == Boxes(a) + Boxes(b) && NonEmpty(a + b) == NonEmpty(a) + NonEmpty(b)
  {
    if a == [] {
      assert a + b == b;
    } else {
      assert (a + b)[1..] == a[1..] + b;
      CountsOfConcat(a[1..], b);
    }
  }

  lemma CountsOfSnoc<D>(a: seq<seq<D>>, dets: seq<D>)
    ensures Boxes(a + [dets]) == Boxes(a) + |dets|
    ensures NonEmpty(a + [dets]) == NonEmpty(a) + (if dets != [] then 1 else 0)
  {
    CountsOfConcat(a, [dets]);
    assert [dets][1..] == [];
  }

  /** Takes over the results of one batch. */
  method TakeOver<D>(results: seq<seq<D>>, before: seq<seq<D>>, boxes: nat, hits: nat)
    returns (perFrame: seq<seq<D>>, rawBoxes: nat, detectedFrames: nat)
    requires boxes == Boxes(before) && hits == NonEmpty(before)
    ensures perFrame == before + results && rawBoxes == Boxes(perFrame) && detectedFrames == NonEmpty(perFrame)
  {
    perFrame, rawBoxes, detectedFrames := before, boxes, hits;
    assert before + results[..0] == before;
    for i := 0 to |results|
      invariant perFrame == before + results[..i]
      invariant rawBoxes == Boxes(perFrame) && detectedFrames == NonEmpty(perFrame)
    {
      CountsOfSnoc(perFrame, results[i]);
      perFrame := perFrame + [results[i]];
      rawBoxes := rawBoxes + |results[i]|;
      detectedFrames := detectedFrames + (if results[i] != [] then 1 else 0);
      assert results[..i + 1] == results[..i] + [results[i]];
    }
    assert results[..|results|] == results;
  }

  /** The open batch is full, or the last one. */
  lemma FlushStep<F, D>(detect: seq<F> -> seq<seq<D>>, frames: seq<F>, size: nat, from: nat, to: nat, before: seq<seq<D>>)
    requires size >= 1 && from < to <= |frames|
    requires to - from == size || (to - from < size && to == |frames|)
    ensures var results, whole := detect(frames[from..to]), Prepend(before, Batched(detect, frames[from..], size));
            if |results| != to - from then whole == Broken(to - from, |results|)
            else whole == Prepend(before + results, Batched(detect, frames[to..], size))
  {
    var rest := frames[from..];
    assert rest[..to - from] == frames[from..to] && rest[to - from..] == frames[to..];
    var results := detect(frames[from..to]);
    match Batched(detect, frames[to..], size)
    case Found(perFrame) => assert before + (results + perFrame) == (before + results) + perFrame;
    case Broken(_, _) =>
  }

  /** Is `pending` the open batch, the frames from `from` on? */
  ghost predicate IsOpen<F(!new)>(pending: seq<F>, frames: seq<F>, from: nat) {
    from + |pending| <= |frames| && pending == frames[from..from + |pending|]
  }

  /** Hands the open batch to the detector. */
  method Flush<F(!new), D>(detect: seq<F> -> seq<seq<D>>, pending: seq<F>, before: seq<seq<D>>, boxes: nat, hits: nat,
                     ghost frames: seq<F>, ghost size: nat, ghost from: nat)
    returns (ok: bool, got: nat, perFrame: seq<seq<D>>, rawBoxes: nat, detectedFrames: nat)
    requires size >= 1 && IsOpen(pending, frames, from)
    requires |pending| == size || (|pending| < size && from + |pending| == |frames|)
    requires boxes == Boxes(before) && hits == NonEmpty(before)
    ensures rawBoxes == Boxes(perFrame) && detectedFrames == NonEmpty(perFrame)
    ensures var whole := Prepend(before, Batched(detect, frames[from..], size));
            if ok then whole == Prepend(perFrame, Batched(detect, frames[from + |pending|..], size))
            else whole == Broken(|pending|, got)
  {
    ok, got, perFrame, rawBoxes, detectedFrames := true, 0, before, boxes, hits;
    if pending != [] {
      FlushStep(detect, frames, size, from, from + |pending|, before);
      var results := detect(pending);
      ok, got := |results| == |pending|, |results|;
      if ok {
        perFrame, rawBoxes, detectedFrames := TakeOver(results, before, boxes, hits);
      }
    }
  }

  /** Progress is reported for every 30th frame. */
  function Ticks(n: nat): seq<nat> {
    if n == 0 then [] else Ticks(n - 1) + (if (n - 1) % 30 == 0 then [n - 1] else [])
  }

  /** Reads the frames of the video one by one and never keeps more than one batch of them. */
  method Run<F(!new), D>(frames: seq<F>, detect: seq<F> -> seq<seq<D>>, batchSize: int)
    returns (r: Outcome<D>, reports: seq<nat>)
    ensures match Batched(detect, frames, BatchSize(batchSize))
            case Broken(asked, got) => r == Mismatch(asked, got)
            case Found(perFrame) => r == Detected(perFrame, Boxes(perFrame), NonEmpty(perFrame), |frames|)
    ensures r.Detected? ==> reports == Ticks(|frames|) + [|frames|]
  {
    hide Batched, Boxes, NonEmpty;
    ghost var size, whole := BatchSize(batchSize), Batched(detect, frames, BatchSize(batchSize));
    var perFrame: seq<seq<D>>, pending: seq<F> := [], [];
    var rawBoxes, detectedFrames, idx := 0, 0, 0;
    var ok, got;
    ghost var from: nat := 0;
    reports := [];
    NothingYet(detect, frames, size);
    while idx < |frames|
      invariant idx == from + |pending| && idx <= |frames| && |pending| < size
      invariant IsOpen(pending, frames, from)
      invariant whole == Prepend(perFrame, Batched(detect, frames[from..], size))
      invariant rawBoxes == Boxes(perFrame) && detectedFrames == NonEmpty(perFrame)
      invariant reports == Ticks(idx)
    {
      pending := pending + [frames[idx]];
      if |pending| >= batchSize {
        ok, got, perFrame, rawBoxes, detectedFrames := Flush(detect, pending, perFrame, rawBoxes, detectedFrames, frames, size, from);
        if !ok {
          return Mismatch(|pending|, got), reports;
        }
        from := from + |pending|;
        pending := [];
      }
      if idx % 30 == 0 {
        reports := reports + [idx];
      }
      idx := idx + 1;
    }
    ok, got, perFrame, rawBoxes, detectedFrames := Flush(detect, pending, perFrame, rawBoxes, detectedFrames, frames, size, from);
    if !ok {
      return Mismatch(|pending|, got), reports;
    }
    NothingLeft(detect, frames, size, perFrame);
    return Detected(perFrame, rawBoxes, detectedFrames, idx), reports + [idx];
  }

  lemma NothingYet<F, D>(detect: seq<F> -> seq<seq<D>>, frames: seq<F>, size: nat)
    requires size >= 1
    ensures Prepend([], Batched(detect, frames[0..], size)) == Batched(detect, frames, size)
    ensures Boxes<D>([]) == 0 && NonEmpty<D>([]) == 0
  {
  }

  lemma NothingLeft<F, D>(detect: seq<F> -> seq<seq<D>>, frames: seq<F>, size: nat, perFrame: seq<seq<D>>)
    requires size >= 1
    ensures Prepend(perFrame, Batched(detect, frames[|frames|..], size)) == Found(perFrame)
  {
  }

  /** Progress is reported for the frames 0, 30, 60, ..., in this order. */
  lemma {:induction false} TicksAre(n: nat)
    ensures forall k: nat :: k in Ticks(n) <==> k < n && k % 30 == 0
    ensures forall i, k :: 0 <= i < k < |Ticks(n)| ==> Ticks(n)[i] < Ticks(n)[k]
  {
    if n > 0 {
      TicksAre(n - 1);
      var before := Ticks(n - 1);
      forall i | 0 <= i < |before| ensures before[i] < n - 1 {
        assert before[i] in before;
      }
    }
  }

  // ------------------------------------------------------------------ what a batch is

  /** The frames from `from` on, `size` of them or what is left. */
  ghost function Slice<F>(frames: seq<F>, size: nat, from: nat): seq<F> {
    if from >= |frames| then []
    else if from + size <= |frames| then frames[from..from + size]
    else frames[from..]
  }

  /** Batch number `n`. */
  ghost function Batch<F>(frames: seq<F>, size: nat, n: nat): seq<F> {
    Slice(frames, size, n * size)
  }

  ghost predicate IsAnswered<F, D>(detect: seq<F> -> seq<seq<D>>, batch: seq<F>) {
    |detect(batch)| == |batch|
  }

  lemma SliceOfRest<F>(frames: seq<F>, size: nat, k: nat, from: nat)
    requires size >= 1 && k == if size < |frames| then size else |frames|
    ensures Slice(frames, size, 0) == frames[..k]
    ensures Slice(frames, size, from + size) == Slice(frames[k..], size, from)
    ensures Slice(frames, size, from + size) != [] ==> k == size
  {
  }

  lemma NextStart(size: nat, n: nat)
    requires n >= 1
    ensures n * size == (n - 1) * size + size
  {
  }

  lemma NextBatch<F>(frames: seq<F>, size: nat, k: nat, n: nat)
    requires size >= 1 && k == if size < |frames| then size else |frames|
    ensures Batch(frames, size, 0) == frames[..k]
    ensures n >= 1 ==> Batch(frames, size, n) == Batch(frames[k..], size, n - 1)
    ensures n >= 1 && Batch(frames, size, n) != [] ==> k == size && n * size == (n - 1) * size + k
  {
    hide Slice;
    SliceOfRest(frames, size, k, 0);
    if n >= 1 {
      SliceOfRest(frames, size, k, (n - 1) * size);
      NextStart(size, n);
    }
  }

  /** The pass succeeds exactly when every batch gets an answer a frame, ... */
  lemma {:induction false} BatchesAre<F(!new), D>(detect: seq<F> -> seq<seq<D>>, frames: seq<F>, size: nat)
    requires size >= 1
    ensures var a := Batched(detect, frames, size);
            && (a.Found? <==> forall n: nat :: Batch(frames, size, n) != [] ==> IsAnswered(detect, Batch(frames, size, n)))
            && (a.Found? ==> |a.perFrame| == |frames|)
    decreases |frames|
  {
    hide Batch;
    forall n: nat ensures frames == [] ==> Batch(frames, size, n) == [] {
      NoBatch(frames, size, n);
    }
    if frames != [] {
      var k := if size < |frames| then size else |frames|;
      var rest := frames[k..];
      BatchesAre(detect, rest, size);
      NextBatch(frames, size, k, 0);
      forall n: nat ensures n >= 1 ==> Batch(frames, size, n) == Batch(rest, size, n - 1) {
        NextBatch(frames, size, k, n);
      }
      forall n: nat ensures Batch(rest, size, n) == Batch(frames, size, n + 1) {
        NextBatch(frames, size, k, n + 1);
      }
    }
  }

  lemma NoBatch<F>(frames: seq<F>, size: nat, n: nat)
    ensures frames == [] ==> Batch(frames, size, n) == []
  {
    assert n * size >= 0;
  }

  lemma InBatch<F>(frames: seq<F>, size: nat, n: nat, i: nat)
    requires i < |Batch(frames, size, n)|
    ensures n * size + i < |frames|
  {
  }

  /** ... and then frame `i` of batch `n` has what the detector answered to that batch, at place `i`. */
  lemma {:induction false} EachFrameHasItsAnswer<F(!new), D>(detect: seq<F> -> seq<seq<D>>, frames: seq<F>, size: nat, n: nat, i: nat)
    requires size >= 1 && Batched(detect, frames, size).Found? && i < |Batch(frames, size, n)|
    ensures n * size + i < |frames| == |Batched(detect, frames, size).perFrame|
    ensures i < |detect(Batch(frames, size, n))|
    ensures Batched(detect, frames, size).perFrame[n * size + i] == detect(Batch(frames, size, n))[i]
    decreases n
  {
    hide Batch;
    BatchesAre(detect, frames, size);
    InBatch(frames, size, n, i);
    var k := if size < |frames| then size else |frames|;
    NextBatch(frames, size, k, n);
    assert IsAnswered(detect, Batch(frames, size, n));
    if n == 0 {
      assert 0 * size == 0;
    } else {
      EachFrameHasItsAnswer(detect, frames[k..], size, n - 1, i);
      assert n * size + i == k + ((n - 1) * size + i);
    }
  }

  /** The first batch that does not is the one the pass reports. */
  lemma {:induction false} FirstBadBatchIsReported<F(!new), D>(detect: seq<F> -> seq<seq<D>>, frames: seq<F>, size: nat, n: nat)
    requires size >= 1 && Batch(frames, size, n) != [] && !IsAnswered(detect, Batch(frames, size, n))
    requires forall m: nat :: m < n ==> IsAnswered(detect, Batch(frames, size, m))
    ensures Batched(detect, frames, size) == Broken(|Batch(frames, size, n)|, |detect(Batch(frames, size, n))|)
    decreases n
  {
    hide Batch;
    NoBatch(frames, size, n);
    var k := if size < |frames| then size else |frames|;
    NextBatch(frames, size, k, n);
    if n > 0 {
      assert IsAnswered(detect, Batch(frames, size, 0));
      forall m: nat | m < n - 1 ensures IsAnswered(detect, Batch(frames[k..], size, m)) {
        NextBatch(frames, size, k, m + 1);
        assert IsAnswered(detect, Batch(frames, size, m + 1));
      }
      FirstBadBatchIsReported(detect, frames[k..], size, n - 1);
    }
  }

  // ------------------------------------------------------------------ batching changes nothing

  function Each<F, D>(one: F -> seq<D>, frames: seq<F>): seq<seq<D>> {
    seq(|frames|, i requires 0 <= i < |frames| => one(frames[i]))
  }

  /** The detector looks at each frame by itself. */
  ghost predicate FrameByFrame<F(!new), D>(detect: seq<F> -> seq<seq<D>>, one: F -> seq<D>) {
    forall frames: seq<F> :: detect(frames) == Each(one, frames)
  }

  /** Whatever the batch size, each frame gets what it would get alone; the last, partial batch
      included. */
  lemma {:induction false} BatchingChangesNothing<F(!new), D>(detect: seq<F> -> seq<seq<D>>, one: F -> seq<D>, frames: seq<F>, size: nat)
    requires size >= 1 && FrameByFrame(detect, one)
    ensures Batched(detect, frames, size) == Found(Each(one, frames))
    decreases |frames|
  {
    if frames != [] {
      var k := if size < |frames| then size else |frames|;
      BatchingChangesNothing(detect, one, frames[k..], size);
      assert Each(one, frames) == Each(one, frames[..k]) + Each(one, frames[k..]);
    }
  }

  /** A frame is counted as detected exactly when it has a box. */
  lemma {:induction false} CountsAgree<D>(perFrame: seq<seq<D>>)
    ensures Boxes(perFrame) >= NonEmpty(perFrame)
    ensures Boxes(perFrame) == 0 <==> forall i :: 0 <= i < |perFrame| ==> perFrame[i] == []
    ensures NonEmpty(perFrame) == |set i | 0 <= i < |perFrame| && perFrame[i] != []|
  {
    var hits := set i | 0 <= i < |perFrame| && perFrame[i] != [];
    if perFrame == [] {
      assert hits == {};
    } else {
      var n := |perFrame| - 1;
      assert perFrame == perFrame[..n] + [perFrame[n]];
      CountsAgree(perFrame[..n]);
      CountsOfSnoc(perFrame[..n], perFrame[n]);
      var before := set i | 0 <= i < n && perFrame[..n][i] != [];
      assert hits == before + (if perFrame[n] != [] then {n} else {});
    }
  }
}

/** From the warnings of the pipeline to the reasons why a person has to look at a result. */
module Verdict {
  import D = Detect
  import opened Basics
  import opened JobModel

  /** A reason for a review, with the warning it comes from, word for word. */
  datatype Reason = Reason(code: string, detail: string)

  const REVIEW := {"no-detections", "low-detection-rate", "decode-partial", "decode-short", "bitrate-out-of-band"}

  predicate IsSpace(c: char) {
    c == ' ' || '\t' <= c <= '\r' || 28 <= c as int <= 31
  }

  function StripLeft(s: string): string {
    if s != "" && IsSpace(s[0]) then StripLeft(s[1..]) else s
  }

  function StripRight(s: string): string {
    if s != "" && IsSpace(s[|s| - 1]) then StripRight(s[..|s| - 1]) else s
  }

  function BeforeColon(s: string): string {
    if s == "" || s[0] == ':' then "" else [s[0]] + BeforeColon(s[1..])
  }

  function CodeOf(warning: string): string {
    StripRight(StripLeft(BeforeColon(warning)))
  }

  function Reasons(warnings: seq<string>): seq<Reason> {
    if warnings == [] then []
    else
      var w := warnings[|warnings| - 1];
      Reasons(warnings[..|warnings| - 1]) + (if CodeOf(w) in REVIEW then [Reason(CodeOf(w), w)] else [])
  }

  method ReviewOf(warnings: seq<string>) returns (out: seq<Reason>)
    ensures out == Reasons(warnings)
  {
    out := [];
    for i := 0 to |warnings|
      invariant out == Reasons(warnings[..i])
    {
      var code := CodeOf(warnings[i]);
      assert warnings[..i + 1][..i] == warnings[..i];
      if code in REVIEW {
        out := out + [Reason(code, warnings[i])];
      }
    }
    assert warnings[..|warnings|] == warnings;
  }

  /** Exactly the warnings whose code is one of the five that call for a person become reasons; none is lost
      or made up. */
  lemma {:induction false} ReasonsAre(warnings: seq<string>, r: Reason)
    ensures r in Reasons(warnings) <==>
            && r.detail in warnings && r.code == CodeOf(r.detail)
            && (r.code == "no-detections" || r.code == "low-detection-rate" || r.code == "decode-partial"
                || r.code == "decode-short" || r.code == "bitrate-out-of-band")
  {
    hide CodeOf;
    if warnings != [] {
      var n := |warnings| - 1;
      ReasonsAre(warnings[..n], r);
      assert warnings == warnings[..n] + [warnings[n]];
    }
  }

  /** Each warning is judged by itself, and the reasons keep the order of the warnings. */
  lemma {:induction false} ReasonsOfConcat(a: seq<string>, b: seq<string>)
    ensures Reasons(a + b) == Reasons(a) + Reasons(b)
  {
    hide CodeOf;
    if b == [] {
      assert a + b == a;
    } else {
      var n := |b| - 1;
      ReasonsOfConcat(a, b[..n]);
      assert (a + b)[..|a + b| - 1] == a + b[..n];
      assert (a + b)[|a + b| - 1] == b[n];
    }
  }

  ghost predicate Blanks(s: string) {
    forall i :: 0 <= i < |s| ==> 9 <= s[i] as int <= 13 || 28 <= s[i] as int <= 32
  }

  lemma {:induction false} StripLeftDrops(left: string, s: string)
    requires Blanks(left) && s != "" && !Blanks(s[..1])
    ensures StripLeft(left + s) == s
  {
    assert s[0] == s[..1][0];
    if left == "" {
      assert left + s == s;
    } else {
      assert (left + s)[1..] == left[1..] + s;
      StripLeftDrops(left[1..], s);
    }
  }

  lemma {:induction false} StripRightDrops(s: string, right: string)
    requires Blanks(right) && s != "" && !Blanks(s[|s| - 1..])
    ensures StripRight(s + right) == s
  {
    assert s[|s| - 1] == s[|s| - 1..][0];
    if right == "" {
      assert s + right == s;
    } else {
      assert (s + right)[..|s + right| - 1] == s + right[..|right| - 1];
      StripRightDrops(s, right[..|right| - 1]);
    }
  }

  /** What a code is: what stands before the first colon, if there is one, without the blanks around it. */
  lemma CodeIs(left: string, code: string, right: string, rest: string)
    requires code != "" && !Blanks(code[..1]) && !Blanks(code[|code| - 1..]) && ':' !in code
    requires Blanks(left) && Blanks(right)
    ensures CodeOf(left + code + right) == code
    ensures CodeOf(left + code + right + ":" + rest) == code
  {
    var all := left + code + right;
    assert ':' !in all;
    hide Blanks;
    PrefixIsCode(all, rest);
    assert all == left + (code + right);
    assert (code + right)[..1] == code[..1];
    StripLeftDrops(left, code + right);
    StripRightDrops(code, right);
  }

  /** A person is called exactly when some warning has a code that calls for one. */
  lemma ReviewIsCalledFor(warnings: seq<string>)
    ensures Reasons(warnings) != [] <==> exists w :: w in warnings && CodeOf(w) in REVIEW
  {
  }

  // ------------------------------------------------------------------ too few detections

  function Rate(detectedFrames: nat, total: nat): real {
    if total == 0 then 0.0 else detectedFrames as real / total as real
  }

  /** `percent` is the rate as a text. */
  function CheckDetections(rawBoxes: nat, detectedFrames: nat, total: nat, minRate: Option<real>, percent: string)
    : Result<seq<string>>
  {
    var rate := Rate(detectedFrames, total);
    var warnings := if rawBoxes == 0 then ["no-detections"]
                    else if rate < 0.01 then ["low-detection-rate: " + percent] else [];
    if minRate.Some? && rate < minRate.value then Failure("detection rate too low") else Success(warnings)
  }

  lemma {:induction false} PrefixIsCode(code: string, rest: string)
    requires ':' !in code
    ensures BeforeColon(code + ":" + rest) == code && BeforeColon(code) == code
  {
    if code == "" {
      assert code + ":" + rest == ":" + rest;
    } else {
      assert code[0] in code && ':' !in code[1..];
      PrefixIsCode(code[1..], rest);
      assert (code + ":" + rest)[1..] == code[1..] + ":" + rest;
    }
  }

  lemma PlainCode(code: string, rest: string)
    requires ':' !in code && code != "" && !IsSpace(code[0]) && !IsSpace(code[|code| - 1])
    ensures CodeOf(code + ":" + rest) == code && CodeOf(code) == code
  {
    PrefixIsCode(code, rest);
  }

  lemma Reassociate(code: string, text: string)
    ensures code + ":" + " " + text == code + ":" + (" " + text)
  {
  }

  lemma WarningCodes(percent: string)
    ensures CodeOf("no-detections") == "no-detections"
    ensures CodeOf("low-detection-rate: " + percent) == "low-detection-rate"
  {
    hide CodeOf;
    PlainCode("no-detections", "");
    Reassociate("low-detection-rate", percent);
    assert "low-detection-rate: " == "low-detection-rate" + ":" + " ";
    PlainCode("low-detection-rate", " " + percent);
  }

  function Codes(reasons: seq<Reason>): seq<string> {
    seq(|reasons|, i requires 0 <= i < |reasons| => reasons[i].code)
  }

  lemma RateIsBelow(detectedFrames: nat, total: nat, least: real)
    ensures Rate(detectedFrames, total) < least
            <==> if total == 0 then 0.0 < least else detectedFrames as real < least * total as real
  {
    if total > 0 {
      var rate := Rate(detectedFrames, total);
      assert rate * total as real == detectedFrames as real;
      if rate < least {
        assert rate * total as real < least * total as real;
      }
    }
  }

  /** What the check comes to: it fails exactly when there are too few frames for the rate demanded; otherwise
      it warns exactly when nothing was found, or in less than a hundredth of the frames. */
  lemma CheckIs(rawBoxes: nat, detectedFrames: nat, total: nat, minRate: Option<real>, percent: string)
    ensures match CheckDetections(rawBoxes, detectedFrames, total, minRate, percent)
            case Failure(_) =>
              && minRate.Some?
              && if total == 0 then 0.0 < minRate.value else detectedFrames as real < minRate.value * total as real
            case Success(warnings) =>
              && (minRate.Some? ==>
                    if total == 0 then minRate.value <= 0.0
                    else minRate.value * total as real <= detectedFrames as real)
              && warnings == if rawBoxes == 0 then ["no-detections"]
                             else if total == 0 || 100 * detectedFrames < total
                             then ["low-detection-rate: " + percent] else []
  {
    RateIsBelow(detectedFrames, total, 0.01);
    if minRate.Some? {
      RateIsBelow(detectedFrames, total, minRate.value);
    }
    hide Rate;
    assert detectedFrames as real < 0.01 * total as real <==> 100 * detectedFrames < total;
  }

  /** What the check calls a person for, if it does not fail: exactly nothing found, or found in less than a
      hundredth of the frames. */
  lemma FewDetectionsAreReviewed(rawBoxes: nat, detectedFrames: nat, total: nat, minRate: Option<real>, percent: string)
    ensures var r := CheckDetections(rawBoxes, detectedFrames, total, minRate, percent);
            r.Success? ==> (Reasons(r.value) != [] <==> rawBoxes == 0 || total == 0 || 100 * detectedFrames < total)
  {
    CheckIs(rawBoxes, detectedFrames, total, minRate, percent);
    var r := CheckDetections(rawBoxes, detectedFrames, total, minRate, percent);
    hide CodeOf, CheckDetections;
    WarningCodes(percent);
    if r.Success? {
      ReviewIsCalledFor(r.value);
    }
  }

  lemma MoreWarnings(a: seq<string>, b: seq<string>)
    ensures Reasons(a) != [] || Reasons(b) != [] ==> Reasons(a + b) != []
  {
    hide CodeOf, Reasons;
    ReviewIsCalledFor(a);
    ReviewIsCalledFor(b);
    ReviewIsCalledFor(a + b);
    assert forall w :: w in a || w in b <==> w in a + b;
  }

  lemma NoRate(total: nat)
    ensures Rate(0, total) == 0.0
  {
  }

  lemma NothingCallsForReview()
    ensures Reasons(["no-detections"]) != []
  {
    hide CodeOf;
    WarningCodes("");
    ReviewIsCalledFor(["no-detections"]);
    assert "no-detections" in ["no-detections"];
  }

  lemma NothingFound(total: nat, minRate: Option<real>, percent: string)
    ensures var r := CheckDetections(0, 0, total, minRate, percent);
            && (r.Failure? <==> minRate.Some? && minRate.value > 0.0)
            && (r.Success? ==> Reasons(r.value) != [])
  {
    hide CodeOf, Rate, Reasons;
    NoRate(total);
    NothingCallsForReview();
  }

  lemma HeldWithReasons(before: seq<string>, found: seq<string>, after: seq<string>, j: Job, now: real)
    requires Reasons(found) != []
    ensures Committed(j, Codes(Reasons(before + found + after)), now).status.Review?
  {
    hide CodeOf, Reasons;
    MoreWarnings(before, found);
    MoreWarnings(before + found, after);
    assert |Codes(Reasons(before + found + after))| > 0;
  }

  /** A video in which the detector found nothing in any frame is never delivered as done: the pipeline fails,
      exactly when a rate is demanded, or the job is held for a person, whatever else it warns of. */
  lemma NothingFoundIsHeld<B>(perFrame: seq<seq<B>>, total: nat, minRate: Option<real>, percent: string,
                              before: seq<string>, after: seq<string>, j: Job, now: real)
    requires forall i :: 0 <= i < |perFrame| ==> perFrame[i] == []
    ensures var r := CheckDetections(D.Boxes(perFrame), D.NonEmpty(perFrame), total, minRate, percent);
            && (r.Failure? <==> minRate.Some? && minRate.value > 0.0)
            && (r.Success? ==> Committed(j, Codes(Reasons(before + r.value + after)), now).status.Review?)
  {
    D.CountsAgree(perFrame);
    hide CodeOf, CheckDetections, Reasons, Committed, Codes, D.Boxes, D.NonEmpty;
    NothingFound(total, minRate, percent);
    var r := CheckDetections(0, 0, total, minRate, percent);
    if r.Success? {
      HeldWithReasons(before, r.value, after, j, now);
    }
  }
}

/** The file names of the data set: category, number, segment, interval and an optional state.

    Names are sequences of characters; digits and letters are the ASCII ones. */
module Naming {
  import opened Basics

  datatype Clip = Clip(category: string, number: int, segment: int, startMs: int, endMs: int,
                       state: string, ext: string)

  const DEID := "deid"
  const DEFAULT_EXT := ".mp4"

  // ------------------------------------------------------------------ characters and digits

  predicate IsLetter(c: char) {
    'A' <= c <= 'Z' || 'a' <= c <= 'z'
  }

  predicate IsDigit(c: char) {
    '0' <= c <= '9'
  }

  predicate Letters(s: string) {
    forall i :: 0 <= i < |s| ==> IsLetter(s[i])
  }

  predicate Digits(s: string) {
    forall i :: 0 <= i < |s| ==> IsDigit(s[i])
  }

  function LowerChar(c: char): char {
    if 'A' <= c <= 'Z' then (c as int + 32) as char else c
  }

  function Lower(s: string): (r: string) {
    seq(|s|, i requires 0 <= i < |s| => LowerChar(s[i]))
  }

  function Digit(d: int): (c: char)
    requires 0 <= d < 10
    ensures IsDigit(c)
  {
    ('0' as int + d) as char
  }

  function Decimal(n: nat): (s: string)
    ensures s != "" && Digits(s)
  {
    if n < 10 then [Digit(n)] else Decimal(n / 10) + [Digit(n % 10)]
  }

  /** Filled with zeros to `width` places; longer when the number is. */
  function Padded(n: nat, width: nat): (s: string)
    ensures Digits(s)
  {
    if width <= 1 then Decimal(n) else Padded(n / 10, width - 1) + [Digit(n % 10)]
  }

  /** The sign takes one of the places. */
  function PaddedInt(n: int, width: nat): (s: string) {
    if n >= 0 then Padded(n, width) else "-" + Padded(-n, if width > 0 then width - 1 else 0)
  }

  function Value(s: string): (n: nat)
    requires Digits(s)
  {
    if s == "" then 0 else Value(s[..|s| - 1]) * 10 + (s[|s| - 1] as int - '0' as int)
  }

  function Pow10(k: nat): (p: nat)
    ensures p > 0
  {
    if k == 0 then 1 else 10 * Pow10(k - 1)
  }

  lemma {:induction false} ValueOfPadded(n: nat, width: nat)
    requires width >= 1 && n < Pow10(width)
    ensures |Padded(n, width)| == width && Value(Padded(n, width)) == n
  {
    if width == 1 {
      assert Pow10(1) == 10 * Pow10(0);
      assert Padded(n, 1)[..0] == "";
    } else {
      ValueOfPadded(n / 10, width - 1);
      assert Padded(n, width)[..width - 1] == Padded(n / 10, width - 1);
    }
  }

  lemma {:induction false} PaddedOfValue(s: string)
    requires |s| >= 1 && Digits(s)
    ensures Value(s) < Pow10(|s|) && Padded(Value(s), |s|) == s
  {
    var k := |s| - 1;
    assert s == s[..k] + [s[k]];
    if k == 0 {
      assert Value(s[..0]) == 0;
    } else {
      PaddedOfValue(s[..k]);
      assert Value(s) / 10 == Value(s[..k]);
    }
  }

  // ------------------------------------------------------------------ paths

  /** What follows the last slash. */
  function BaseName(path: string): (base: string)
    ensures '/' !in base
  {
    if path == "" || path[|path| - 1] == '/' then ""
    else BaseName(path[..|path| - 1]) + [path[|path| - 1]]
  }

  /** The place of the last dot, or -1. */
  function LastDot(s: string): (k: int)
    ensures -1 <= k < |s|
    ensures k >= 0 ==> s[k] == '.'
    ensures forall i :: k < i < |s| ==> s[i] != '.'
  {
    if s == "" then -1
    else if s[|s| - 1] == '.' then |s| - 1
    else LastDot(s[..|s| - 1])
  }

  /** Name and extension; leading dots belong to the name. */
  function SplitExt(base: string): (r: (string, string))
    ensures r.0 + r.1 == base
  {
    var k := LastDot(base);
    if k >= 0 && exists i :: 0 <= i < k && base[i] != '.' then (base[..k], base[k..]) else (base, "")
  }

  predicate IsExtension(ext: string) {
    ext != "" && ext[0] == '.' && '.' !in ext[1..] && '/' !in ext
  }

  lemma LastDotIs(s: string, k: nat)
    requires k < |s| && s[k] == '.' && forall i :: k < i < |s| ==> s[i] != '.'
    ensures LastDot(s) == k
  {
  }

  lemma SplitOfJoin(stem: string, ext: string)
    requires IsExtension(ext) && (exists i :: 0 <= i < |stem| && stem[i] != '.')
    ensures SplitExt(stem + ext) == (stem, ext)
  {
    var s := stem + ext;
    forall i | |stem| < i < |s| ensures s[i] != '.' {
      assert s[i] == ext[1..][i - |stem| - 1];
    }
    LastDotIs(s, |stem|);
    var i :| 0 <= i < |stem| && stem[i] != '.';
    assert s[i] == stem[i];
  }

  lemma SplitYieldsExtension(base: string)
    requires '/' !in base && SplitExt(base).1 != ""
    ensures IsExtension(SplitExt(base).1)
  {
  }

  lemma {:induction false} BaseNameOfPlain(s: string)
    requires '/' !in s
    ensures BaseName(s) == s
  {
    if s != "" {
      var k := |s| - 1;
      assert s == s[..k] + [s[k]];
      assert s[k] in s && '/' !in s[..k];
      BaseNameOfPlain(s[..k]);
    }
  }

  /** The directory does not matter. */
  lemma {:induction false} BaseNameOfPath(dir: string, base: string)
    requires '/' !in base
    ensures BaseName(dir + "/" + base) == base
  {
    var path := dir + "/" + base;
    if base != "" {
      var k := |base| - 1;
      assert base[k] in base && '/' !in base[..k];
      assert path[..|path| - 1] == dir + "/" + base[..k];
      assert path[|path| - 1] == base[k];
      BaseNameOfPath(dir, base[..k]);
      assert base == base[..k] + [base[k]];
    }
  }

  /** Without a dot, or with leading ones only, there is no extension. */
  lemma SplitOfPlain(base: string)
    requires forall i, k :: 0 <= i < k < |base| && base[k] == '.' ==> base[i] == '.'
    ensures SplitExt(base) == (base, "")
  {
  }

  // ------------------------------------------------------------------ printing

  function Front(c: Clip): string {
    c.category + "_" + PaddedInt(c.number, 5) + "_" + PaddedInt(c.segment, 2)
    + "_" + PaddedInt(c.startMs, 7) + "_" + PaddedInt(c.endMs, 7)
  }

  function Tail(state: string): string {
    if state != "" then "_" + state else ""
  }

  function Format(c: Clip): string {
    Front(c) + Tail(c.state) + c.ext
  }

  // ------------------------------------------------------------------ parsing

  /** Where the fixed part of a conforming name ends. */
  const FRONT := 26

  predicate FrontOk(s: string) {
    && |s| >= FRONT
    && IsLetter(s[0]) && s[1] == '_' && Digits(s[2..7]) && s[7] == '_' && Digits(s[8..10])
    && s[10] == '_' && Digits(s[11..18]) && s[18] == '_' && Digits(s[19..26])
  }

  /** The pattern's end matches before a final newline, too. */
  function Chomp(s: string): (r: string)
    ensures s == r || s == r + "\n"
  {
    if s != "" && s[|s| - 1] == '\n' then s[..|s| - 1] else s
  }

  predicate TailOk(s: string) {
    s == "" || (|s| > 1 && s[0] == '_' && Letters(s[1..]))
  }

  /** The fields of a name without extension. */
  function ParseStem(stem: string, ext: string): (r: Option<Clip>) {
    if !FrontOk(stem) || !TailOk(Chomp(stem[FRONT..])) then None
    else
      var tail := Chomp(stem[FRONT..]);
      var start, end := Value(stem[11..18]), Value(stem[19..26]);
      if end < start then None
      else Some(Clip(stem[..1], Value(stem[2..7]), Value(stem[8..10]), start, end,
                     if tail == "" then "" else tail[1..],
                     if ext == "" then DEFAULT_EXT else ext))
  }

  function Parse(filename: string): (r: Option<Clip>) {
    var (stem, ext) := SplitExt(BaseName(filename));
    ParseStem(stem, ext)
  }

  function Stem(filename: string): string {
    SplitExt(BaseName(filename)).0
  }

  /** The name of a clip's output. */
  function Output(c: Clip): Clip {
    c.(state := DEID, ext := DEFAULT_EXT)
  }

  function OutputName(filename: string): (name: string) {
    match Parse(filename)
    case Some(c) => Format(Output(c))
    case None => Stem(if filename == "" then "output" else filename) + "_" + DEID + DEFAULT_EXT
  }

  predicate IsOutput(filename: string) {
    match Parse(filename)
    case Some(c) => Lower(c.state) == DEID
    case None =>
      var stem := Stem(filename);
      |stem| >= 5 && stem[|stem| - 5..] == "_" + DEID
  }

  // ------------------------------------------------------------------ the two undo each other

  ghost predicate WellFormed(c: Clip) {
    && |c.category| == 1 && IsLetter(c.category[0])
    && 0 <= c.number < 100_000 && 0 <= c.segment < 100
    && 0 <= c.startMs <= c.endMs < 10_000_000
    && Letters(c.state) && IsExtension(c.ext)
  }

  lemma Powers()
    ensures Pow10(2) == 100 && Pow10(5) == 100_000 && Pow10(7) == 10_000_000
  {
  }

  /** A name put together from its parts has each part at its place. */
  lemma FrontAt(cat: string, number: string, segment: string, start: string, end: string, s: string, rest: string)
    requires |cat| == 1 && |number| == 5 && |segment| == 2 && |start| == 7 && |end| == 7
    requires s == cat + "_" + number + "_" + segment + "_" + start + "_" + end + rest
    ensures |s| >= FRONT && s[..1] == cat && s[2..7] == number && s[8..10] == segment
    ensures s[11..18] == start && s[19..26] == end && s[FRONT..] == rest
    ensures s[1] == '_' && s[7] == '_' && s[10] == '_' && s[18] == '_'
  {
  }

  lemma TailRoundTrip(state: string)
    requires Letters(state)
    ensures Chomp(Tail(state)) == Tail(state) && TailOk(Tail(state))
    ensures state != "" ==> Tail(state)[1..] == state
  {
  }

  lemma FieldsRoundTrip(c: Clip)
    requires WellFormed(c)
    ensures |PaddedInt(c.number, 5)| == 5 && |PaddedInt(c.segment, 2)| == 2
    ensures |PaddedInt(c.startMs, 7)| == 7 && |PaddedInt(c.endMs, 7)| == 7
    ensures Value(PaddedInt(c.number, 5)) == c.number && Value(PaddedInt(c.segment, 2)) == c.segment
    ensures Value(PaddedInt(c.startMs, 7)) == c.startMs && Value(PaddedInt(c.endMs, 7)) == c.endMs
  {
    Powers();
    ValueOfPadded(c.number, 5);
    ValueOfPadded(c.segment, 2);
    ValueOfPadded(c.startMs, 7);
    ValueOfPadded(c.endMs, 7);
  }

  /** A printed clip without its extension. */
  lemma StemRoundTrip(c: Clip, ext: string)
    requires WellFormed(c)
    ensures ParseStem(Front(c) + Tail(c.state), ext) == Some(c.(ext := if ext == "" then DEFAULT_EXT else ext))
  {
    FieldsRoundTrip(c);
    TailRoundTrip(c.state);
    var stem := Front(c) + Tail(c.state);
    FrontAt(c.category, PaddedInt(c.number, 5), PaddedInt(c.segment, 2), PaddedInt(c.startMs, 7),
            PaddedInt(c.endMs, 7), stem, Tail(c.state));
    assert stem[0] == stem[..1][0];
  }

  lemma NoSlashInDigits(n: nat, width: nat)
    ensures '/' !in PaddedInt(n, width)
  {
  }

  lemma NoSlash(c: Clip)
    requires WellFormed(c)
    ensures '/' !in Format(c)
  {
    NoSlashInDigits(c.number, 5);
    NoSlashInDigits(c.segment, 2);
    NoSlashInDigits(c.startMs, 7);
    NoSlashInDigits(c.endMs, 7);
    hide PaddedInt;
    assert '/' !in Front(c);
    assert '/' !in Tail(c.state);
  }

  lemma NumberOf(s: string)
    requires Digits(s) && s != ""
    ensures 0 <= Value(s) < Pow10(|s|) && PaddedInt(Value(s), |s|) == s
  {
    PaddedOfValue(s);
  }

  /** The fixed part of a name, from its places. */
  ghost function Written(cat: string, number: string, segment: string, start: string, end: string): string {
    cat + "_" + number + "_" + segment + "_" + start + "_" + end
  }

  /** A letter; five, two, seven and seven digits. */
  ghost predicate Places(cat: string, number: string, segment: string, start: string, end: string) {
    && |cat| == 1 && ('A' <= cat[0] <= 'Z' || 'a' <= cat[0] <= 'z')
    && |number| == 5 && Digits(number) && |segment| == 2 && Digits(segment)
    && |start| == 7 && Digits(start) && |end| == 7 && Digits(end)
  }

  lemma FrontIsWritten(c: Clip, number: string, segment: string, start: string, end: string)
    requires Places(c.category, number, segment, start, end)
    requires c.number == Value(number) && c.segment == Value(segment)
    requires c.startMs == Value(start) && c.endMs == Value(end)
    ensures Front(c) == Written(c.category, number, segment, start, end)
    ensures c.number < 100_000 && c.segment < 100 && c.startMs < 10_000_000 && c.endMs < 10_000_000
  {
    hide Value, Padded;
    Powers();
    NumberOf(number);
    NumberOf(segment);
    NumberOf(start);
    NumberOf(end);
  }

  /** Whatever is parsed is well-formed, ... */
  lemma StemIsWellFormed(stem: string, ext: string)
    requires ParseStem(stem, ext).Some? && (ext == "" || IsExtension(ext))
    ensures WellFormed(ParseStem(stem, ext).value)
  {
    Powers();
    NumberOf(stem[2..7]);
    NumberOf(stem[8..10]);
    NumberOf(stem[11..18]);
    NumberOf(stem[19..26]);
    assert stem[..1][0] == stem[0];
  }

  /** A conforming stem, part by part. */
  lemma PartsOf(stem: string)
    requires FrontOk(stem)
    ensures Places(stem[..1], stem[2..7], stem[8..10], stem[11..18], stem[19..26])
    ensures stem == Written(stem[..1], stem[2..7], stem[8..10], stem[11..18], stem[19..26]) + stem[FRONT..]
  {
    assert stem[..1][0] == stem[0];
  }

  lemma TailPrints(tail: string)
    requires TailOk(Chomp(tail))
    ensures var state := if Chomp(tail) == "" then "" else Chomp(tail)[1..];
            tail == Tail(state) || tail == Tail(state) + "\n"
  {
  }

  /** ... and printing it gives back the name it was parsed from, up to a final newline. */
  lemma StemPrints(stem: string, ext: string)
    requires ParseStem(stem, ext).Some?
    ensures var c := ParseStem(stem, ext).value;
            stem == Front(c) + Tail(c.state) || stem == Front(c) + Tail(c.state) + "\n"
  {
    var c := ParseStem(stem, ext).value;
    PartsOf(stem);
    TailPrints(stem[FRONT..]);
    hide Value, Padded, PaddedInt, Front, Tail, Written, Places, FrontOk, TailOk, Chomp;
    FrontIsWritten(c, stem[2..7], stem[8..10], stem[11..18], stem[19..26]);
    assert Front(c) + (Tail(c.state) + "\n") == Front(c) + Tail(c.state) + "\n";
  }

  lemma ParsedIsWellFormed(filename: string)
    requires Parse(filename).Some?
    ensures WellFormed(Parse(filename).value)
  {
    var (stem, ext) := SplitExt(BaseName(filename));
    if ext != "" {
      SplitYieldsExtension(BaseName(filename));
    }
    StemIsWellFormed(stem, ext);
  }

  /** Parsing gives back what was printed, exactly when the clip is well-formed. */
  lemma ParseOfFormat(c: Clip)
    ensures Parse(Format(c)) == Some(c) <==> WellFormed(c)
  {
    if WellFormed(c) {
      NoSlash(c);
      BaseNameOfPlain(Format(c));
      var stem := Front(c) + Tail(c.state);
      assert stem[0] == c.category[0];
      SplitOfJoin(stem, c.ext);
      StemRoundTrip(c, c.ext);
    }
    if Parse(Format(c)) == Some(c) {
      ParsedIsWellFormed(Format(c));
    }
  }

  lemma PrintsBack(stem: string, ext: string, printed: string, newExt: string)
    requires printed != "" && printed[|printed| - 1] != '\n' && (stem == printed || stem == printed + "\n")
    requires newExt == if ext == "" then DEFAULT_EXT else ext
    ensures stem != "" && (printed + newExt == stem + ext <==> ext != "" && stem[|stem| - 1] != '\n')
  {
  }

  /** Printing what was parsed gives the base name back, exactly when the name has an extension and
      no newline before it. */
  lemma FormatOfParse(filename: string)
    requires Parse(filename).Some?
    ensures var (stem, ext) := SplitExt(BaseName(filename));
            stem != "" && (Format(Parse(filename).value) == BaseName(filename)
                           <==> ext != "" && stem[|stem| - 1] != '\n')
  {
    var (stem, ext) := SplitExt(BaseName(filename));
    var c := Parse(filename).value;
    assert c.ext == if ext == "" then DEFAULT_EXT else ext;
    hide ParseStem, Front, Tail, WellFormed, BaseName;
    StemPrints(stem, ext);
    ParsedIsWellFormed(filename);
    LastIsNoNewline(c);
    PrintsBack(stem, ext, Front(c) + Tail(c.state), c.ext);
  }

  lemma LastIsNoNewline(c: Clip)
    requires WellFormed(c)
    ensures var s := Front(c) + Tail(c.state); s != "" && s[|s| - 1] != '\n'
  {
  }

  // ------------------------------------------------------------------ output names

  lemma OutputIsWellFormed(c: Clip)
    requires WellFormed(c)
    ensures WellFormed(Output(c))
  {
  }

  lemma OutputParses(filename: string)
    requires Parse(filename).Some?
    ensures Parse(OutputName(filename)) == Some(Output(Parse(filename).value))
  {
    hide Parse, Format, WellFormed;
    var c := Parse(filename).value;
    ParsedIsWellFormed(filename);
    OutputIsWellFormed(c);
    ParseOfFormat(Output(c));
  }

  /** The same recording: category, number, segment and interval. */
  ghost predicate SameClip(c: Clip, d: Clip) {
    c.category == d.category && c.number == d.number && c.segment == d.segment
    && c.startMs == d.startMs && c.endMs == d.endMs
  }

  /** The output of a conforming name conforms, too: it is of the same recording, with the state "deid" and
      as an mp4, whatever its own state and extension were. */
  lemma OutputKeepsIdentity(filename: string)
    requires Parse(filename).Some?
    ensures Parse(OutputName(filename)).Some?
    ensures var c, o := Parse(filename).value, Parse(OutputName(filename)).value;
            SameClip(c, o) && o.state == "deid" && o.ext == ".mp4"
  {
    OutputParses(filename);
  }

  /** Two conforming names share an output exactly when they are of the same recording. */
  lemma OutputsCollide(a: string, b: string)
    ensures Parse(a).Some? && Parse(b).Some? ==>
              (OutputName(a) == OutputName(b) <==> SameClip(Parse(a).value, Parse(b).value))
  {
    hide Parse, Format;
    if Parse(a).Some? && Parse(b).Some? {
      OutputParses(a);
      OutputParses(b);
    }
  }

  lemma LowerIsDeid(state: string)
    ensures Lower(state) == DEID <==>
            |state| == 4 && state[0] in "dD" && state[1] in "eE" && state[2] in "iI" && state[3] in "dD"
  {
    if |state| == 4 {
      assert Lower(state) == [LowerChar(state[0]), LowerChar(state[1]), LowerChar(state[2]), LowerChar(state[3])];
    }
  }

  /** Exactly which names are taken for outputs: conforming ones with that state, in capitals or not, and
      others whose stem ends with it. */
  lemma IsOutputExactlyWhen(filename: string)
    ensures Parse(filename).Some? ==>
              var state := Parse(filename).value.state;
              (IsOutput(filename)
               <==> |state| == 4 && state[0] in "dD" && state[1] in "eE" && state[2] in "iI" && state[3] in "dD")
    ensures Parse(filename).None? ==>
              (IsOutput(filename) <==> exists front: string :: Stem(filename) == front + "_deid")
  {
    hide Parse, Stem, Lower;
    if Parse(filename).Some? {
      LowerIsDeid(Parse(filename).value.state);
    } else {
      var stem := Stem(filename);
      if IsOutput(filename) {
        assert stem == stem[..|stem| - 5] + "_deid";
      }
      forall front: string | stem == front + "_deid" ensures IsOutput(filename) {
        assert stem[|stem| - 5..] == "_deid";
      }
    }
  }

  lemma LaterUnderscore(tail: string, more: string)
    requires tail != "" && |more| > 1 && more[0] == '_' && more[|more| - 1] != '\n'
    ensures !TailOk(Chomp(tail + more))
  {
    var s := tail + more;
    assert s[|tail|] == '_' && Chomp(s) == s;
    assert s[1..][|tail| - 1] == '_';
  }

  lemma ShortStem(stem: string)
    requires |stem| < FRONT
    ensures !FrontOk(stem + "_" + DEID)
  {
    var s := stem + "_" + DEID;
    if |s| >= FRONT {
      assert s[|stem|] == '_' && s[19..26][|stem| - 19] == s[|stem|];
    }
  }

  /** Appending the state to a name off the convention does not make it conform. */
  lemma SuffixDoesNotHelp(stem: string, ext: string, ext': string)
    requires ParseStem(stem, ext).None?
    ensures ParseStem(stem + "_" + DEID, ext').None?
  {
    var s := stem + "_" + DEID;
    if |stem| < FRONT {
      ShortStem(stem);
    } else if FrontOk(s) {
      assert s == stem + ("_" + DEID);
      FrontOfPrefix(stem, "_" + DEID);
      assert s[FRONT..] == stem[FRONT..] + "_" + DEID;
      if stem[FRONT..] == "" {
        assert TailOk(Chomp(stem[FRONT..]));
      } else {
        LaterUnderscore(stem[FRONT..], "_" + DEID);
        assert s[FRONT..] == stem[FRONT..] + ("_" + DEID);
      }
    }
  }

  lemma FrontOfPrefix(stem: string, more: string)
    requires |stem| >= FRONT
    ensures var s := stem + more;
            && (FrontOk(s) <==> FrontOk(stem)) && s[11..18] == stem[11..18] && s[19..26] == stem[19..26]
  {
    var s := stem + more;
    assert s[2..7] == stem[2..7] && s[8..10] == stem[8..10];
    assert s[11..18] == stem[11..18] && s[19..26] == stem[19..26];
  }

  lemma SplitOfOutput(stem: string)
    requires '/' !in stem
    ensures SplitExt(BaseName(stem + "_" + DEID + DEFAULT_EXT)) == (stem + "_" + DEID, DEFAULT_EXT)
  {
    var long := stem + "_" + DEID;
    assert '/' !in long + DEFAULT_EXT;
    BaseNameOfPlain(long + DEFAULT_EXT);
    assert long[|stem|] == '_';
    SplitOfJoin(long, DEFAULT_EXT);
  }

  lemma StemHasNoSlash(base: string)
    requires '/' !in base
    ensures '/' !in SplitExt(base).0
  {
  }

  /** The output of a name off the convention. */
  lemma OffConvention(filename: string)
    requires Parse(filename).None?
    ensures var stem := Stem(if filename == "" then "output" else filename);
            && OutputName(filename) == stem + "_" + DEID + DEFAULT_EXT
            && Parse(OutputName(filename)).None?
            && Stem(OutputName(filename)) == stem + "_" + DEID
  {
    hide FrontOk, TailOk;
    var from := if filename == "" then "output" else filename;
    var (stem, ext) := SplitExt(BaseName(from));
    if filename == "" {
      BaseNameOfPlain(from);
      DefaultIsOff();
    }
    StemHasNoSlash(BaseName(from));
    SplitOfOutput(stem);
    SuffixDoesNotHelp(stem, ext, DEFAULT_EXT);
  }

  lemma DefaultIsOff()
    ensures var (stem, ext) := SplitExt("output"); ParseStem(stem, ext).None?
  {
  }

  /** Every output name is recognised as one. */
  lemma OutputIsOutput(filename: string)
    ensures IsOutput(OutputName(filename))
  {
    hide Parse, Stem, OutputName;
    if Parse(filename).Some? {
      OutputParses(filename);
      assert Lower(DEID) == DEID;
    } else {
      OffConvention(filename);
      var stem := Stem(if filename == "" then "output" else filename);
      assert (stem + "_" + DEID)[|stem|..] == "_" + DEID;
    }
  }

  /** Taking the output of an output changes nothing, exactly for conforming names. */
  lemma OutputIsIdempotent(filename: string)
    ensures OutputName(OutputName(filename)) == OutputName(filename) <==> Parse(filename).Some?
  {
    if Parse(filename).Some? {
      OutputParses(filename);
    } else {
      OffConvention(filename);
      var once := OutputName(filename);
      assert |once| == |Stem(once)| + 4 && once != "";
      assert |OutputName(once)| == |Stem(once)| + 9;
    }
  }

  // ------------------------------------------------------------------ names as they are written

  /** Any name of the convention: each field is read from its place, the interval in the order start, end;
      and the output is the same text with the state exchanged. */
  lemma NameIsRead(cat: string, number: string, segment: string, start: string, end: string, state: string, ext: string)
    requires Places(cat, number, segment, start, end) && Value(start) <= Value(end) && IsExtension(ext)
    requires forall i :: 0 <= i < |state| ==> 'A' <= state[i] <= 'Z' || 'a' <= state[i] <= 'z'
    ensures var front := Written(cat, number, segment, start, end);
            var name := front + (if state == "" then "" else "_" + state) + ext;
            && Parse(name) == Some(Clip(cat, Value(number), Value(segment), Value(start), Value(end), state, ext))
            && OutputName(name) == front + "_deid" + ".mp4"
  {
    hide Parse, Value, Padded, PaddedInt, Written, Front;
    var c := Clip(cat, Value(number), Value(segment), Value(start), Value(end), state, ext);
    FrontIsWritten(c, number, segment, start, end);
    FrontIsWritten(Output(c), number, segment, start, end);
    ParseOfFormat(c);
    assert Tail(DEID) == "_deid";
  }

  /** ... and the names of the convention are all there is: whatever is parsed is written so. */
  lemma ParsedIsWritten(filename: string)
    requires Parse(filename).Some?
    ensures var stem := Stem(filename);
            && |stem| >= 26 && Places(stem[..1], stem[2..7], stem[8..10], stem[11..18], stem[19..26])
            && stem[..26] == Written(stem[..1], stem[2..7], stem[8..10], stem[11..18], stem[19..26])
            && Value(stem[11..18]) <= Value(stem[19..26])
    ensures var state := Parse(filename).value.state;
            forall i :: 0 <= i < |state| ==> 'A' <= state[i] <= 'Z' || 'a' <= state[i] <= 'z'
  {
    hide Value;
    var stem := Stem(filename);
    PartsOf(stem);
    assert stem[..26] == (Written(stem[..1], stem[2..7], stem[8..10], stem[11..18], stem[19..26]) + stem[26..])[..26];
  }

  lemma NextDigit(s: string, d: char, longer: string, n: nat)
    requires Digits(s) && IsDigit(d) && longer == s + [d] && n == Value(s) * 10 + (d as int - 48)
    ensures Digits(longer) && Value(longer) == n
  {
    assert longer[..|s|] == s;
  }

  lemma Numbers()
    ensures Digits("00297") && Value("00297") == 297 && Digits("00") && Value("00") == 0
    ensures Digits("0000000") && Value("0000000") == 0 && Digits("0194281") && Value("0194281") == 194281
  {
    hide Value;
    NoDigits();
    NextDigit("", '0', "0", 0);
    NextDigit("0", '0', "00", 0);
    NextDigit("00", '2', "002", 2);
    NextDigit("002", '9', "0029", 29);
    NextDigit("0029", '7', "00297", 297);
    NextDigit("00", '0', "000", 0);
    NextDigit("000", '0', "0000", 0);
    NextDigit("0000", '0', "00000", 0);
    NextDigit("00000", '0', "000000", 0);
    NextDigit("000000", '0', "0000000", 0);
    NextDigit("0", '1', "01", 1);
    NextDigit("01", '9', "019", 19);
    NextDigit("019", '4', "0194", 194);
    NextDigit("0194", '2', "01942", 1942);
    NextDigit("01942", '8', "019428", 19428);
    NextDigit("019428", '1', "0194281", 194281);
  }

  lemma NoDigits()
    ensures Value("") == 0
  {
  }

  /** The name the documentation gives: the recording 00297, and its output. */
  lemma DocumentedName()
    ensures var front := Written("M", "00297", "00", "0000000", "0194281");
            && Parse(front + "" + ".mp4") == Some(Clip("M", 297, 0, 0, 194281, "", ".mp4"))
            && OutputName(front + "" + ".mp4") == front + "_deid" + ".mp4"
  {
    hide Value, Parse, OutputName, Written;
    Numbers();
    NameIsRead("M", "00297", "00", "0000000", "0194281", "", ".mp4");
  }
}

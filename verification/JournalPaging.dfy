/** Reading the journal with a filter and a limit, and following its pages by cursor. */
module JournalPaging {
  import opened Basics
  import opened Journal

  /** What the filters look at in a row.  A missing text is empty, a missing time is 0. */
  datatype Row = Row(ts: real, job: string, batch: string, event: string, mode: string, name: string)

  /** An empty text or a zero time stands for no filter.  `hits` is the free-text search. */
  datatype Query = Query(job: string, batch: string, event: string, mode: string, since: real, before: real,
                         hits: Row -> bool)

  predicate Matches(q: Query, row: Row) {
    && (q.job != "" ==> row.job == q.job)
    && (q.batch != "" ==> row.batch == q.batch)
    && (q.event != "" ==> q.event <= row.event)
    && (q.mode != "" ==> row.mode == q.mode)
    && (q.since != 0.0 ==> q.since <= row.ts)
    && (q.before != 0.0 ==> row.ts < q.before)
    && q.hits(row)
  }

  function Select(q: Query, rows: seq<Row>): (r: seq<Row>)
    ensures |r| <= |rows|
  {
    if rows == [] then []
    else (if Matches(q, rows[0]) then [rows[0]] else []) + Select(q, rows[1..])
  }

  /** The rows of some lines; half-written lines are skipped. */
  function Parsed(parse: Bytes -> Option<Row>, lines: seq<Bytes>): seq<Row> {
    if lines == [] then []
    else
      var rest := Parsed(parse, lines[1..]);
      match parse(lines[0])
      case None => rest
      case Some(row) => [row] + rest
  }

  /** All rows of the day files, the newest first. */
  function Rows(parse: Bytes -> Option<Row>, files: seq<Bytes>): seq<Row> {
    if files == [] then []
    else Parsed(parse, LinesBackwards(files[0])) + Rows(parse, files[1..])
  }

  predicate IsPageSize(want: nat, readMax: int) {
    want == 1 || 1 < want <= readMax
  }

  const DEFAULT_LIMIT := 200

  /** A limit asked for: 0 means the default, and it stays between 1 and `readMax`. */
  function Clamped(limit: int, readMax: int): (n: nat)
    ensures IsPageSize(n, readMax)
    ensures 1 <= limit <= readMax ==> n == limit
    ensures 1 <= readMax < limit ==> n == readMax
    ensures limit == 0 && readMax >= 1 ==> n == if 200 < readMax then 200 else readMax
    ensures limit < 0 || readMax < 1 ==> n == 1
  {
    var asked := if limit == 0 then DEFAULT_LIMIT else limit;
    var capped := if asked < readMax then asked else readMax;
    if capped < 1 then 1 else capped
  }

  // ------------------------------------------------------------------ selecting

  lemma SelectCons(q: Query, row: Row, rest: seq<Row>)
    ensures Select(q, [row] + rest) == (if Matches(q, row) then [row] else []) + Select(q, rest)
  {
  }

  lemma {:induction false} SelectOfConcat(q: Query, a: seq<Row>, b: seq<Row>)
    ensures Select(q, a + b) == Select(q, a) + Select(q, b)
  {
    if a == [] {
      assert a + b == b;
    } else {
      SelectOfConcat(q, a[1..], b);
      assert a + b == [a[0]] + (a[1..] + b);
      SelectCons(q, a[0], a[1..] + b);
      Associative(if Matches(q, a[0]) then [a[0]] else [], Select(q, a[1..]), Select(q, b));
    }
  }

  /** Which row is found: the job, the batch and the mode are the ones asked for, the event begins with
      the one asked for, and the time is not before `since` and before `before`; an empty text and a zero
      time ask for nothing. */
  lemma RowIsFound(q: Query, row: Row)
    ensures Select(q, [row]) ==
            if && (q.job == "" || row.job == q.job)
               && (q.batch == "" || row.batch == q.batch)
               && (q.mode == "" || row.mode == q.mode)
               && (|q.event| <= |row.event| && row.event[..|q.event|] == q.event)
               && (q.since == 0.0 || !(row.ts < q.since))
               && (q.before == 0.0 || !(row.ts >= q.before))
               && q.hits(row)
            then [row] else []
  {
    SelectCons(q, row, []);
    assert [row] + [] == [row];
    assert q.event <= row.event <==> |q.event| <= |row.event| && row.event[..|q.event|] == q.event;
  }

  /** Each row is found by itself, wherever it stands: those found are the ones that match, as often as
      they are there. */
  lemma {:induction false} FoundAre(q: Query, rows: seq<Row>, row: Row)
    ensures multiset(Select(q, rows))[row] == if Select(q, [row]) == [row] then multiset(rows)[row] else 0
  {
    SelectCons(q, row, []);
    assert [row] + [] == [row];
    if rows != [] {
      FoundAre(q, rows[1..], row);
      assert rows == [rows[0]] + rows[1..];
      SelectCons(q, rows[0], rows[1..]);
    }
  }

  /** A line that cannot be parsed has no row, every other one has. */
  lemma RowOfLine(parse: Bytes -> Option<Row>, line: Bytes)
    ensures Parsed(parse, [line]) == match parse(line) case None => [] case Some(row) => [row]
  {
    assert [line][1..] == [];
  }

  // ------------------------------------------------------------------ the reader

  /** The lines of one file, until the limit is reached. */
  method ReadLines(lines: seq<Bytes>, parse: Bytes -> Option<Row>, q: Query, limit: nat, before: seq<Row>)
    returns (out: seq<Row>)
    requires |before| < limit
    ensures out == UpTo(limit, before + Select(q, Parsed(parse, lines)))
  {
    out := before;
    assert lines[0..] == lines;
    for i := 0 to |lines|
      invariant |out| < limit
      invariant out + Select(q, Parsed(parse, lines[i..])) == before + Select(q, Parsed(parse, lines))
    {
      assert lines[i..][1..] == lines[i+1..];
      match parse(lines[i]) {
        case None =>
        case Some(row) =>
          SelectCons(q, row, Parsed(parse, lines[i+1..]));
          if Matches(q, row) {
            Associative(out, [row], Select(q, Parsed(parse, lines[i+1..])));
            out := out + [row];
            if |out| >= limit {
              assert out == (out + Select(q, Parsed(parse, lines[i+1..])))[..limit];
              return;
            }
          }
      }
    }
  }

  /** Nothing behind the limit matters. */
  lemma UpToStops<T>(n: nat, a: seq<T>, b: seq<T>)
    ensures |a| >= n ==> UpTo(n, a + b) == UpTo(n, a)
    ensures |UpTo(n, a)| == if |a| < n then |a| else n
  {
  }

  /** What one file adds to what was found before it. */
  lemma NextFile(files: seq<Bytes>, i: nat, parse: Bytes -> Option<Row>, q: Query, out: seq<Row>)
    requires i < |files|
    ensures out + Select(q, Rows(parse, files[i..]))
         == (out + Select(q, Parsed(parse, LinesBackwards(files[i])))) + Select(q, Rows(parse, files[i+1..]))
  {
    assert files[i..][1..] == files[i+1..];
    SelectOfConcat(q, Parsed(parse, LinesBackwards(files[i])), Rows(parse, files[i+1..]));
    Associative(out, Select(q, Parsed(parse, LinesBackwards(files[i]))), Select(q, Rows(parse, files[i+1..])));
  }

  /** After one more file: enough was found, or the rest of the files has the rest. */
  lemma FileWasRead(files: seq<Bytes>, i: nat, parse: Bytes -> Option<Row>, q: Query, n: nat, before: seq<Row>,
                    out: seq<Row>)
    requires i < |files| && out == UpTo(n, before + Select(q, Parsed(parse, LinesBackwards(files[i]))))
    ensures var all := before + Select(q, Rows(parse, files[i..]));
            if |out| >= n then out == UpTo(n, all) else out + Select(q, Rows(parse, files[i+1..])) == all
  {
    hide Select, Rows, Parsed, LinesBackwards;
    var found := before + Select(q, Parsed(parse, LinesBackwards(files[i])));
    NextFile(files, i, parse, q, before);
    UpToStops(n, found, Select(q, Rows(parse, files[i+1..])));
  }

  /** Reads the day files, the newest first, until enough rows match. */
  method Read(files: seq<Bytes>, chunkSize: nat, parse: Bytes -> Option<Row>, q: Query, limit: int, readMax: int)
    returns (out: seq<Row>)
    requires chunkSize >= 1
    ensures out == UpTo(Clamped(limit, readMax), Select(q, Rows(parse, files)))
  {
    var n := Clamped(limit, readMax);
    out := [];
    assert files[0..] == files && files[|files|..] == [];
    assert Select(q, Rows(parse, files[|files|..])) == [];
    hide Select, Rows, Parsed, LinesBackwards, Clamped;
    for i := 0 to |files|
      invariant |out| < n && out + Select(q, Rows(parse, files[i..])) == Select(q, Rows(parse, files))
    {
      var lines := TailLines(files[i], chunkSize);
      ghost var before := out;
      out := ReadLines(lines, parse, q, n, out);
      FileWasRead(files, i, parse, q, n, before, out);
      if |out| >= n {
        return;
      }
    }
  }

  // ------------------------------------------------------------------ one page

  /** `cursor` is 0 when the page is empty. */
  datatype Page = Page(rows: seq<Row>, more: bool, cursor: real)

  /** The page that `found`, the newest rows first, begins with: one row more than wanted is asked
      for, to see whether anything is left. */
  function PageOf(found: seq<Row>, want: nat, readMax: int): (page: Page)
    requires want >= 1
  {
    var rows := UpTo(Clamped(want + 1, readMax), found);
    var shown := UpTo(want, rows);
    Page(shown, |rows| > want, if shown == [] then 0.0 else shown[|shown| - 1].ts)
  }

  method ListEvents(files: seq<Bytes>, chunkSize: nat, parse: Bytes -> Option<Row>, q: Query, limit: int, readMax: int)
    returns (page: Page)
    requires chunkSize >= 1
    ensures page == PageOf(Select(q, Rows(parse, files)), Clamped(limit, readMax), readMax)
  {
    hide Select, Rows, Clamped;
    var want := Clamped(limit, readMax);
    var rows := Read(files, chunkSize, parse, q, want + 1, readMax);
    var more := |rows| > want;
    rows := if want < |rows| then rows[..want] else rows;
    page := Page(rows, more, if rows == [] then 0.0 else rows[|rows| - 1].ts);
  }

  // ------------------------------------------------------------------ following the cursor

  ghost predicate NewestFirst(rows: seq<Row>) {
    forall i, k :: 0 <= i < k < |rows| ==> rows[i].ts >= rows[k].ts
  }

  ghost predicate StrictlyNewestFirst(rows: seq<Row>) {
    forall i, k :: 0 <= i < k < |rows| ==> rows[i].ts > rows[k].ts
  }

  ghost predicate Timed(rows: seq<Row>) {
    forall i :: 0 <= i < |rows| ==> rows[i].ts > 0.0
  }

  ghost function Below(rows: seq<Row>, cursor: real): (r: seq<Row>)
    ensures |r| <= |rows|
  {
    if rows == [] then []
    else (if rows[0].ts < cursor then [rows[0]] else []) + Below(rows[1..], cursor)
  }

  /** Rows in order of time: those below a cursor are a tail of them. */
  lemma {:induction false} BelowIsTail(rows: seq<Row>, cursor: real, k: nat)
    requires NewestFirst(rows) && k <= |rows|
    requires forall i :: 0 <= i < k ==> rows[i].ts >= cursor
    requires k < |rows| ==> rows[k].ts < cursor
    ensures Below(rows, cursor) == rows[k..]
  {
    if rows != [] {
      if k > 0 {
        BelowIsTail(rows[1..], cursor, k - 1);
      } else if |rows| > 1 {
        BelowIsTail(rows[1..], cursor, 0);
      } else {
        assert rows[1..] == [];
      }
    }
  }

  /** The first row below the cursor. */
  ghost function FirstBelow(rows: seq<Row>, cursor: real): (k: nat)
    ensures k <= |rows|
    ensures forall i :: 0 <= i < k ==> rows[i].ts >= cursor
    ensures k < |rows| ==> rows[k].ts < cursor
  {
    if rows == [] || rows[0].ts < cursor then 0 else 1 + FirstBelow(rows[1..], cursor)
  }

  /** All rows a reader gets who follows the cursor through a journal that does not change. */
  ghost function Follow(found: seq<Row>, want: nat, readMax: int): seq<Row>
    requires want >= 1 && NewestFirst(found)
    decreases |found|
  {
    var page := PageOf(found, want, readMax);
    if !page.more then page.rows
    else
      var k := FirstBelow(found, page.cursor);
      page.rows + Follow(found[k..], want, readMax)
  }

  /** No two rows of the same time lie on both sides of a page boundary. */
  ghost predicate CleanCuts(found: seq<Row>, want: nat)
    requires want >= 1
    decreases |found|
  {
    |found| <= want || (found[want].ts < found[want - 1].ts && CleanCuts(found[want..], want))
  }

  /** The page size leaves room for the one row more. */
  ghost predicate HasRoom(found: seq<Row>, want: nat, readMax: int) {
    want < readMax || |found| <= want
  }

  // ------------------------------------------------------------------ what a reader gets

  lemma PageIsPrefix(found: seq<Row>, want: nat, readMax: int)
    requires IsPageSize(want, readMax)
    ensures var page := PageOf(found, want, readMax);
            && page.rows == UpTo(want, found)
            && (page.more <==> want < readMax && |found| > want)
            && page.cursor == if found == [] then 0.0 else page.rows[|page.rows| - 1].ts
  {
  }

  /** After a full page: the next one begins behind it, at `k`. */
  lemma NextBegins(found: seq<Row>, want: nat, readMax: int) returns (k: nat)
    requires IsPageSize(want, readMax) && NewestFirst(found) && PageOf(found, want, readMax).more
    ensures var page := PageOf(found, want, readMax);
            && want <= k <= |found| && page.rows == found[..want] && page.cursor == found[want - 1].ts
            && want < readMax && want < |found|
            && NewestFirst(found[..want]) && NewestFirst(found[k..])
            && (k == want <==> found[want].ts < found[want - 1].ts)
            && (k < |found| ==> found[k].ts < page.cursor)
            && Below(found, page.cursor) == found[k..]
            && Follow(found, want, readMax) == found[..want] + Follow(found[k..], want, readMax)
  {
    var page := PageOf(found, want, readMax);
    PageIsPrefix(found, want, readMax);
    k := FirstBelow(found, page.cursor);
    BelowIsTail(found, page.cursor, k);
  }

  /** The last page. */
  lemma LastPage(found: seq<Row>, want: nat, readMax: int)
    requires IsPageSize(want, readMax) && NewestFirst(found) && !PageOf(found, want, readMax).more
    ensures Follow(found, want, readMax) == UpTo(want, found) && NewestFirst(UpTo(want, found))
    ensures want >= readMax || |found| <= want
  {
    PageIsPrefix(found, want, readMax);
  }

  lemma TwoParts<T>(s: seq<T>, i: nat, k: nat, rest: seq<T>)
    requires i <= k <= |s| && |rest| <= |s| - k && multiset(rest) <= multiset(s[k..])
    ensures |s[..i] + rest| <= |s| && multiset(s[..i] + rest) <= multiset(s)
  {
    assert s == s[..i] + (s[i..k] + s[k..]);
  }

  /** A reader gets no more than there is, and no row twice. */
  lemma {:induction false} NoRowTwice(found: seq<Row>, want: nat, readMax: int)
    requires IsPageSize(want, readMax) && NewestFirst(found)
    ensures |Follow(found, want, readMax)| <= |found|
    ensures multiset(Follow(found, want, readMax)) <= multiset(found)
    decreases |found|
  {
    hide PageOf, Follow, NewestFirst;
    if PageOf(found, want, readMax).more {
      var k := NextBegins(found, want, readMax);
      NoRowTwice(found[k..], want, readMax);
      TwoParts(found, want, k, Follow(found[k..], want, readMax));
    } else {
      LastPage(found, want, readMax);
      if want < |found| {
        TwoParts(found, want, |found|, []);
        assert found[..want] + [] == found[..want];
      }
    }
  }

  lemma OrderedJoin(a: seq<Row>, b: seq<Row>)
    requires NewestFirst(a) && NewestFirst(b)
    requires a != [] && b != [] ==> a[|a| - 1].ts >= b[0].ts
    ensures NewestFirst(a + b)
  {
  }

  /** ... and what comes is in order, from the newest on. */
  lemma {:induction false} NewestFirstThroughout(found: seq<Row>, want: nat, readMax: int)
    requires IsPageSize(want, readMax) && NewestFirst(found)
    ensures var got := Follow(found, want, readMax);
            NewestFirst(got) && (found != [] ==> got != [] && got[0] == found[0])
    decreases |found|
  {
    hide PageOf, Follow, NewestFirst;
    if PageOf(found, want, readMax).more {
      var k := NextBegins(found, want, readMax);
      var rest := Follow(found[k..], want, readMax);
      NewestFirstThroughout(found[k..], want, readMax);
      if found[k..] == [] { LessThere(found[k..], want, readMax); }
      OrderedJoin(found[..want], rest);
    } else {
      LastPage(found, want, readMax);
    }
  }

  lemma LessThere(found: seq<Row>, want: nat, readMax: int)
    requires IsPageSize(want, readMax) && NewestFirst(found) && found == []
    ensures Follow(found, want, readMax) == []
  {
  }

  /** Exactly when paging loses nothing: the page leaves room for the one row more, and no page
      boundary cuts through rows of the same time. */
  lemma {:induction false} PagingIsLossless(found: seq<Row>, want: nat, readMax: int)
    requires IsPageSize(want, readMax) && NewestFirst(found)
    ensures Follow(found, want, readMax) == found <==> HasRoom(found, want, readMax) && CleanCuts(found, want)
    decreases |found|
  {
    hide PageOf, Follow, NewestFirst;
    if PageOf(found, want, readMax).more {
      var k := NextBegins(found, want, readMax);
      var next := Follow(found[k..], want, readMax);
      if k == want {
        PagingIsLossless(found[want..], want, readMax);
        SameHead(found, want, next);
      } else {
        NoRowTwice(found[k..], want, readMax);
        assert |found[..want] + next| < |found|;
      }
    } else {
      LastPage(found, want, readMax);
    }
  }

  lemma SameHead<T>(s: seq<T>, k: nat, rest: seq<T>)
    requires k <= |s|
    ensures s[..k] + rest == s <==> rest == s[k..]
  {
  }

  lemma {:induction false} StrictTimesCutCleanly(found: seq<Row>, want: nat)
    requires want >= 1 && StrictlyNewestFirst(found)
    ensures CleanCuts(found, want)
    decreases |found|
  {
    if |found| > want {
      StrictTimesCutCleanly(found[want..], want);
    }
  }

  // ------------------------------------------------------------------ while the journal grows

  /** All rows that arrive, the newest first; each batch comes in front of what was there. */
  ghost function Newer(arrivals: seq<seq<Row>>): seq<Row> {
    if arrivals == [] then [] else Newer(arrivals[1..]) + arrivals[0]
  }

  /** The journal with everything that arrives is in order of time, and every row has a time. */
  ghost predicate InOrder(rows: seq<Row>, arrivals: seq<seq<Row>>) {
    NewestFirst(Newer(arrivals) + rows) && Timed(Newer(arrivals) + rows)
  }

  lemma TailInOrder(newer: seq<Row>, rows: seq<Row>)
    ensures NewestFirst(newer + rows) ==> NewestFirst(rows)
    ensures Timed(newer + rows) ==> Timed(rows)
  {
    forall i | 0 <= i < |rows| ensures rows[i] == (newer + rows)[|newer| + i] {
    }
  }

  lemma InOrderStep(rows: seq<Row>, arrivals: seq<seq<Row>>)
    requires InOrder(rows, arrivals)
    ensures NewestFirst(rows) && Timed(rows)
    ensures arrivals != [] ==> InOrder(arrivals[0] + rows, arrivals[1..])
                               && NewestFirst(arrivals[0] + rows)
  {
    TailInOrder(Newer(arrivals), rows);
    if arrivals != [] {
      var rest := Newer(arrivals[1..]);
      Associative(rest, arrivals[0], rows);
      TailInOrder(rest, arrivals[0] + rows);
    }
  }

  lemma {:induction false} SelectKeepsOrder(q: Query, rows: seq<Row>)
    requires NewestFirst(rows)
    ensures NewestFirst(Select(q, rows))
    ensures forall i :: 0 <= i < |Select(q, rows)| ==> Select(q, rows)[i] in rows && Matches(q, Select(q, rows)[i])
  {
    if rows != [] {
      SelectKeepsOrder(q, rows[1..]);
      assert forall i :: 0 <= i < |Select(q, rows[1..])| ==> Select(q, rows[1..])[i] in rows[1..];
    }
  }

  /** Asking below a row's time selects, of what was found, the rows below it. */
  lemma {:induction false} SelectBelow(q: Query, rows: seq<Row>, cursor: real)
    requires cursor != 0.0 && (q.before != 0.0 ==> cursor <= q.before)
    ensures Select(q.(before := cursor), rows) == Below(Select(q, rows), cursor)
  {
    if rows != [] {
      SelectBelow(q, rows[1..], cursor);
      var rest := Select(q, rows[1..]);
      assert Matches(q.(before := cursor), rows[0]) <==> Matches(q, rows[0]) && rows[0].ts < cursor;
      if Matches(q, rows[0]) {
        assert Select(q, rows) == [rows[0]] + rest && ([rows[0]] + rest)[1..] == rest;
      } else {
        assert Select(q, rows) == rest;
      }
    }
  }

  lemma {:induction false} NothingNewBelow(q: Query, rows: seq<Row>, cursor: real)
    requires cursor != 0.0 && q.before == cursor
    requires forall i :: 0 <= i < |rows| ==> rows[i].ts >= cursor
    ensures Select(q, rows) == []
  {
    if rows != [] {
      NothingNewBelow(q, rows[1..], cursor);
    }
  }

  lemma ArrivedAbove(newer: seq<Row>, rows: seq<Row>, row: Row)
    requires NewestFirst(newer + rows) && row in rows
    ensures forall i :: 0 <= i < |newer| ==> newer[i].ts >= row.ts
  {
    var m :| 0 <= m < |rows| && rows[m] == row;
    forall i | 0 <= i < |newer| ensures newer[i].ts >= row.ts {
      assert (newer + rows)[i] == newer[i] && (newer + rows)[|newer| + m] == rows[m];
    }
  }

  /** What the next page begins with, although rows have arrived since. */
  lemma NextPageIgnoresArrivals(q: Query, rows: seq<Row>, newer: seq<Row>, cursor: real, k: nat)
    requires NewestFirst(newer + rows) && cursor > 0.0
    requires k < |Select(q, rows)| && cursor == Select(q, rows)[k].ts
    ensures var found := Select(q, rows);
            NewestFirst(found) && Select(q.(before := cursor), newer + rows) == Below(found, cursor)
  {
    hide Select, Below, NewestFirst;
    var next := q.(before := cursor);
    TailInOrder(newer, rows);
    SelectKeepsOrder(q, rows);
    ArrivedAbove(newer, rows, Select(q, rows)[k]);
    NothingNewBelow(next, newer, cursor);
    SelectBelow(q, rows, cursor);
    SelectOfConcat(next, newer, rows);
    assert [] + Below(Select(q, rows), cursor) == Below(Select(q, rows), cursor);
  }

  /** What has arrived before the next page, and what is to arrive later; in the end nothing more. */
  ghost function Next(arrivals: seq<seq<Row>>): seq<Row> {
    if arrivals == [] then [] else arrivals[0]
  }

  ghost function Later(arrivals: seq<seq<Row>>): seq<seq<Row>> {
    if arrivals == [] then [] else arrivals[1..]
  }

  lemma SelectedIsTimed(q: Query, rows: seq<Row>, k: nat)
    requires NewestFirst(rows) && Timed(rows) && k < |Select(q, rows)|
    ensures Select(q, rows)[k].ts > 0.0
  {
    SelectKeepsOrder(q, rows);
    assert Select(q, rows)[k] in rows;
  }

  /** The next request finds what was left of the first, whatever has arrived since. */
  lemma NextFindsTheRest(rows: seq<Row>, newer: seq<Row>, q: Query, want: nat, readMax: int)
    requires IsPageSize(want, readMax) && NewestFirst(rows) && Timed(rows) && NewestFirst(newer + rows)
    requires PageOf(Select(q, rows), want, readMax).more
    ensures var found, page := Select(q, rows), PageOf(Select(q, rows), want, readMax);
            var rest := Select(q.(before := page.cursor), newer + rows);
            && NewestFirst(found) && NewestFirst(rest) && |rest| < |found|
            && Follow(found, want, readMax) == page.rows + Follow(rest, want, readMax)
  {
    hide Follow, PageOf, Select, Below, NewestFirst, Timed;
    SelectKeepsOrder(q, rows);
    var found, page := Select(q, rows), PageOf(Select(q, rows), want, readMax);
    var k := NextBegins(found, want, readMax);
    SelectedIsTimed(q, rows, want - 1);
    NextPageIgnoresArrivals(q, rows, newer, page.cursor, want - 1);
  }

  lemma NextPage(rows: seq<Row>, arrivals: seq<seq<Row>>, q: Query, want: nat, readMax: int)
    requires IsPageSize(want, readMax) && InOrder(rows, arrivals) && PageOf(Select(q, rows), want, readMax).more
    ensures var found, page := Select(q, rows), PageOf(Select(q, rows), want, readMax);
            var rest := Select(q.(before := page.cursor), Next(arrivals) + rows);
            && NewestFirst(found) && InOrder(Next(arrivals) + rows, Later(arrivals))
            && |rest| < |found| && NewestFirst(rest)
            && Follow(found, want, readMax) == page.rows + Follow(rest, want, readMax)
  {
    hide Follow, PageOf, InOrder, Select, NewestFirst, Timed, IsPageSize;
    InOrderStep(rows, arrivals);
    assert [] + rows == rows;
    NextFindsTheRest(rows, Next(arrivals), q, want, readMax);
  }

  /** All rows a reader gets who asks for page after page, each with the cursor of the one before,
      while rows keep arriving. */
  ghost function FollowGrowing(rows: seq<Row>, arrivals: seq<seq<Row>>, q: Query, want: nat, readMax: int): seq<Row>
    requires IsPageSize(want, readMax) && InOrder(rows, arrivals)
    decreases |Select(q, rows)|
  {
    var page := PageOf(Select(q, rows), want, readMax);
    if !page.more then page.rows
    else
      NextPage(rows, arrivals, q, want, readMax);
      page.rows + FollowGrowing(Next(arrivals) + rows, Later(arrivals), q.(before := page.cursor), want, readMax)
  }

  /** What arrives between the pages changes nothing: the reader gets what following the cursor
      through the journal of the first request would give. */
  lemma {:induction false} ArrivalsChangeNothing(rows: seq<Row>, arrivals: seq<seq<Row>>, q: Query, want: nat, readMax: int)
    requires IsPageSize(want, readMax) && InOrder(rows, arrivals)
    ensures NewestFirst(Select(q, rows))
    ensures FollowGrowing(rows, arrivals, q, want, readMax) == Follow(Select(q, rows), want, readMax)
    decreases |Select(q, rows)|
  {
    InOrderStep(rows, arrivals);
    SelectKeepsOrder(q, rows);
    var page := PageOf(Select(q, rows), want, readMax);
    if page.more {
      NextPage(rows, arrivals, q, want, readMax);
      ArrivalsChangeNothing(Next(arrivals) + rows, Later(arrivals), q.(before := page.cursor), want, readMax);
    }
  }

  /** Two events in one millisecond, one row a page: the second event is never shown. */
  lemma TiesAreLost(a: Row, b: Row)
    requires a.ts == b.ts
    ensures NewestFirst([a, b]) && Follow([a, b], 1, 2000) == [a]
  {
  }
}

/** Paging through the day files themselves, while lines are appended to them. */
module JournalGrowth {
  import opened Basics
  import opened Journal
  import opened JournalPaging

  /** One event written: a line for the day file, or the first one of a new day. */
  datatype Entry = Entry(line: Bytes, newDay: bool)

  ghost predicate IsLine(e: Entry) {
    NEWLINE !in e.line && !IsBlank(e.line)
  }

  ghost predicate AreLines(entries: seq<Entry>) {
    forall i :: 0 <= i < |entries| ==> IsLine(entries[i])
  }

  /** The day files, the newest first, after an event. */
  ghost function Emitted(files: seq<Bytes>, e: Entry): (r: seq<Bytes>)
    ensures r != []
  {
    if e.newDay || files == [] then [e.line + [NEWLINE]] + files
    else [files[0] + e.line + [NEWLINE]] + files[1..]
  }

  ghost function EmittedAll(files: seq<Bytes>, entries: seq<Entry>): seq<Bytes>
    decreases |entries|
  {
    if entries == [] then files else EmittedAll(Emitted(files, entries[0]), entries[1..])
  }

  /** The rows of some events, the newest first. */
  ghost function RowsOf(parse: Bytes -> Option<Row>, entries: seq<Entry>): seq<Row> {
    if entries == [] then [] else RowsOf(parse, entries[1..]) + Parsed(parse, [entries[0].line])
  }

  ghost predicate NewestIsWhole(files: seq<Bytes>) {
    files != [] ==> IsWhole(files[0])
  }

  lemma {:induction false} ParsedOfConcat(parse: Bytes -> Option<Row>, a: seq<Bytes>, b: seq<Bytes>)
    ensures Parsed(parse, a + b) == Parsed(parse, a) + Parsed(parse, b)
  {
    if a == [] {
      assert a + b == b;
    } else {
      assert (a + b)[1..] == a[1..] + b;
      ParsedOfConcat(parse, a[1..], b);
    }
  }

  lemma RowsCons(parse: Bytes -> Option<Row>, file: Bytes, files: seq<Bytes>)
    ensures Rows(parse, [file] + files) == Parsed(parse, LinesBackwards(file)) + Rows(parse, files)
  {
    assert ([file] + files)[1..] == files;
  }

  /** An event puts its row, if it has one, in front of all rows. */
  lemma EventComesFirst(parse: Bytes -> Option<Row>, files: seq<Bytes>, e: Entry)
    requires NewestIsWhole(files) && IsLine(e)
    ensures NewestIsWhole(Emitted(files, e))
    ensures Rows(parse, Emitted(files, e)) == Parsed(parse, [e.line]) + Rows(parse, files)
  {
    hide Rows, Parsed, LinesBackwards;
    var same := !e.newDay && files != [];
    var file := if same then files[0] else [];
    var older := if same then files[1..] else files;
    assert file + e.line + [NEWLINE] == if same then files[0] + e.line + [NEWLINE] else e.line + [NEWLINE];
    AppendedLineComesFirst(file, e.line);
    RowsCons(parse, file + e.line + [NEWLINE], older);
    ParsedOfConcat(parse, [e.line], LinesBackwards(file));
    Associative(Parsed(parse, [e.line]), Parsed(parse, LinesBackwards(file)), Rows(parse, older));
    if same {
      assert files == [file] + older;
      RowsCons(parse, file, older);
    } else {
      NothingInAnEmptyFile(parse);
      assert [] + Rows(parse, files) == Rows(parse, files);
    }
  }

  lemma NothingInAnEmptyFile(parse: Bytes -> Option<Row>)
    ensures Parsed(parse, LinesBackwards([])) == []
  {
    OnlyBlanks();
    assert Split([]) == [[]];
  }

  lemma {:induction false} EventsComeFirst(parse: Bytes -> Option<Row>, files: seq<Bytes>, entries: seq<Entry>)
    requires NewestIsWhole(files) && AreLines(entries)
    ensures NewestIsWhole(EmittedAll(files, entries))
    ensures Rows(parse, EmittedAll(files, entries)) == RowsOf(parse, entries) + Rows(parse, files)
    decreases |entries|
  {
    if entries == [] {
      assert [] + Rows(parse, files) == Rows(parse, files);
    } else {
      EventComesFirst(parse, files, entries[0]);
      EventsComeFirst(parse, Emitted(files, entries[0]), entries[1..]);
      Associative(RowsOf(parse, entries[1..]), Parsed(parse, [entries[0].line]), Rows(parse, files));
    }
  }

  lemma WindowMoves(files: seq<Bytes>, e: Entry, days: nat)
    requires days >= 1
    ensures UpTo(days, Emitted(files, e)) == Emitted(UpTo(if e.newDay then days - 1 else days, files), e)
  {
  }

  /** When only the last few day files are read: the first event of a new day pushes the oldest file
      out, every other one only adds its row. */
  lemma NewDayPushesOut(parse: Bytes -> Option<Row>, files: seq<Bytes>, e: Entry, days: nat)
    requires NewestIsWhole(files) && IsLine(e) && days >= 1
    ensures Rows(parse, UpTo(days, Emitted(files, e)))
         == Parsed(parse, [e.line]) + Rows(parse, UpTo(if e.newDay then days - 1 else days, files))
  {
    var kept := UpTo(if e.newDay then days - 1 else days, files);
    WindowMoves(files, e, days);
    hide Rows, Parsed, Emitted;
    assert NewestIsWhole(kept);
    EventComesFirst(parse, kept, e);
  }

  // ------------------------------------------------------------------ the reader of the files

  /** The events of the batches, as the rows that arrive. */
  ghost function Arrivals(parse: Bytes -> Option<Row>, batches: seq<seq<Entry>>): (r: seq<seq<Row>>)
    ensures |r| == |batches|
  {
    if batches == [] then [] else [RowsOf(parse, batches[0])] + Arrivals(parse, batches[1..])
  }

  ghost predicate AreBatches(batches: seq<seq<Entry>>) {
    forall i :: 0 <= i < |batches| ==> AreLines(batches[i])
  }

  /** All files are given, nothing is half-written, and events come in order of time. */
  ghost predicate InTime(files: seq<Bytes>, batches: seq<seq<Entry>>, parse: Bytes -> Option<Row>) {
    NewestIsWhole(files) && AreBatches(batches) && InOrder(Rows(parse, files), Arrivals(parse, batches))
  }

  ghost function NextFiles(files: seq<Bytes>, batches: seq<seq<Entry>>): seq<Bytes> {
    if batches == [] then files else EmittedAll(files, batches[0])
  }

  ghost function LaterBatches(batches: seq<seq<Entry>>): seq<seq<Entry>> {
    if batches == [] then [] else batches[1..]
  }

  lemma FilesGrowLikeRows(files: seq<Bytes>, batches: seq<seq<Entry>>, parse: Bytes -> Option<Row>)
    requires NewestIsWhole(files) && AreBatches(batches)
    ensures NewestIsWhole(NextFiles(files, batches)) && AreBatches(LaterBatches(batches))
    ensures Rows(parse, NextFiles(files, batches)) == Next(Arrivals(parse, batches)) + Rows(parse, files)
    ensures Arrivals(parse, LaterBatches(batches)) == Later(Arrivals(parse, batches))
  {
    if batches == [] {
      assert [] + Rows(parse, files) == Rows(parse, files);
    } else {
      EventsComeFirst(parse, files, batches[0]);
    }
  }

  /** All rows a reader gets who asks for page after page of the files, each with the cursor of the one
      before, while events are written: before each next page another batch of them. */
  ghost function FollowFiles(files: seq<Bytes>, batches: seq<seq<Entry>>, parse: Bytes -> Option<Row>, q: Query,
                             want: nat, readMax: int): seq<Row>
    requires IsPageSize(want, readMax) && InTime(files, batches, parse)
    decreases |Select(q, Rows(parse, files))|
  {
    var page := PageOf(Select(q, Rows(parse, files)), want, readMax);
    if !page.more then page.rows
    else
      NextPage(Rows(parse, files), Arrivals(parse, batches), q, want, readMax);
      FilesGrowLikeRows(files, batches, parse);
      page.rows + FollowFiles(NextFiles(files, batches), LaterBatches(batches), parse, q.(before := page.cursor), want, readMax)
  }

  lemma {:induction false} FilesAreFollowedLikeRows(files: seq<Bytes>, batches: seq<seq<Entry>>, parse: Bytes -> Option<Row>,
                                                    q: Query, want: nat, readMax: int)
    requires IsPageSize(want, readMax) && InTime(files, batches, parse)
    ensures FollowFiles(files, batches, parse, q, want, readMax)
         == FollowGrowing(Rows(parse, files), Arrivals(parse, batches), q, want, readMax)
    decreases |Select(q, Rows(parse, files))|
  {
    var page := PageOf(Select(q, Rows(parse, files)), want, readMax);
    if page.more {
      NextPage(Rows(parse, files), Arrivals(parse, batches), q, want, readMax);
      FilesGrowLikeRows(files, batches, parse);
      FilesAreFollowedLikeRows(NextFiles(files, batches), LaterBatches(batches), parse, q.(before := page.cursor), want, readMax);
    }
  }

  /** Paging through the files while they grow gives every matching row of the first request exactly
      once, the newest first, exactly when the page leaves room and cuts cleanly. */
  lemma PagingThroughAGrowingJournal(files: seq<Bytes>, batches: seq<seq<Entry>>, parse: Bytes -> Option<Row>, q: Query,
                                     limit: int, readMax: int)
    requires InTime(files, batches, parse)
    ensures var want, found := Clamped(limit, readMax), Select(q, Rows(parse, files));
            && NewestFirst(found)
            && (FollowFiles(files, batches, parse, q, want, readMax) == found
                <==> HasRoom(found, want, readMax) && CleanCuts(found, want))
  {
    var want := Clamped(limit, readMax);
    FilesAreFollowedLikeRows(files, batches, parse, q, want, readMax);
    ArrivalsChangeNothing(Rows(parse, files), Arrivals(parse, batches), q, want, readMax);
    PagingIsLossless(Select(q, Rows(parse, files)), want, readMax);
  }
}

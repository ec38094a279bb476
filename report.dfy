/** The driver in `main` of parse_pdf.py (lines 50-90): finds the report
    date in the first non-blank line, skips the column header line that
    follows, keeps the remaining non-blank lines (stripped) and reads
    records with `read_record` until the end of the lines or a duplicate
    report. The session is committed in both of those cases; any other
    exception ends the program before the commit.

    The file is given as its lines; opening it, the command line, printing
    and the database engine are not modelled. */
module Report {
  import opened Strings
  import opened Dates
  import opened Patterns
  import opened Records
  import opened RecordReader
  import opened RecordProperties
  import opened PatternProperties

  /** The exceptions that end `main` without a commit. */
  datatype ReportError =
    | EmptyFile                           // `line` is unbound after the first loop (NameError)
    | DateHeaderMissing(line: string)     // ParsingError("Unable to interpret header line ...")
    | BadReportDate(text: string)         // `strptime(date, "%m/%d/%Y")` raised ValueError
    | RecordFailed(position: nat, err: Error)  // `read_record` raised at this position

  datatype ReportOutcome =
    | Completed            // `read_record` returned -1
    | StoppedAtDuplicate   // DuplicateError was caught
    | Aborted(err: ReportError)

  /** The index of the first line at or after `i` that is not blank, or
      `|raw|` if there is none. */
  function FirstNonBlank(raw: seq<string>, i: nat): (j: nat)
    requires i <= |raw|
    ensures i <= j <= |raw|
    ensures forall k {:trigger Strip(raw[k])} :: i <= k < j ==> Strip(raw[k]) == []
    ensures j < |raw| ==> Strip(raw[j]) != []
    decreases |raw| - i
  {
    if i == |raw| || Strip(raw[i]) != [] then i else FirstNonBlank(raw, i + 1)
  }

  /** `[l.strip() for l in raw if l.strip()]`. */
  function CleanLines(raw: seq<string>): (lines: seq<string>)
    ensures |lines| <= |raw|
  {
    if raw == [] then []
    else
      var l := Strip(raw[|raw| - 1]);
      CleanLines(raw[..|raw| - 1]) + (if l != [] then [l] else [])
  }

  /** The cleaned lines of two runs of lines are the cleaned lines of the
      first followed by those of the second: the lines kept are kept in
      their order. */
  lemma {:induction false} CleanLinesAppend(a: seq<string>, b: seq<string>)
    ensures CleanLines(a + b) == CleanLines(a) + CleanLines(b)
    decreases |b|
  {
    if b == [] {
      assert a + b == a;
    } else {
      var init := b[..|b| - 1];
      assert (a + b)[..|a + b| - 1] == a + init;
      assert (a + b)[|a + b| - 1] == b[|b| - 1];
      CleanLinesAppend(a, init);
    }
  }

  /** One line is kept, stripped, exactly when it is not blank. */
  lemma CleanLinesOne(l: string)
    ensures CleanLines([l]) == if Strip(l) != [] then [Strip(l)] else []
  {
    assert [l][..0] == [];
  }

  /** Blank lines are all dropped. */
  lemma {:induction false} CleanLinesBlank(raw: seq<string>, i: nat, j: nat)
    requires i <= j <= |raw|
    requires forall k {:trigger Strip(raw[k])} :: i <= k < j ==> Strip(raw[k]) == []
    ensures CleanLines(raw[i..j]) == []
    decreases j - i
  {
    if i < j {
      assert raw[i..j][..j - i - 1] == raw[i..j - 1];
      assert raw[i..j][j - i - 1] == raw[j - 1];
      CleanLinesBlank(raw, i, j - 1);
    }
  }

  /** From line `i` on, the cleaned lines are those from the next non-blank
      line on. */
  lemma CleanLinesSkipBlank(raw: seq<string>, i: nat)
    requires i <= |raw|
    ensures CleanLines(raw[i..]) == CleanLines(raw[FirstNonBlank(raw, i)..])
  {
    var j := FirstNonBlank(raw, i);
    assert raw[i..] == raw[i..j] + raw[j..];
    CleanLinesAppend(raw[i..j], raw[j..]);
    CleanLinesBlank(raw, i, j);
  }

  /** From a line that is not blank, the cleaned lines begin with it,
      stripped. */
  lemma CleanLinesAt(raw: seq<string>, j: nat)
    requires j < |raw| && Strip(raw[j]) != []
    ensures CleanLines(raw[j..]) == [Strip(raw[j])] + CleanLines(raw[j + 1..])
  {
    assert raw[j..] == [raw[j]] + raw[j + 1..];
    CleanLinesAppend([raw[j]], raw[j + 1..]);
    CleanLinesOne(raw[j]);
  }

  /** From line `i` on, the cleaned lines begin with the next non-blank
      line, stripped. */
  lemma CleanLinesFrom(raw: seq<string>, i: nat)
    requires i <= |raw|
    ensures var j := FirstNonBlank(raw, i);
            && (j < |raw| ==> CleanLines(raw[i..]) == [Strip(raw[j])] + CleanLines(raw[j + 1..]))
            && (j == |raw| ==> CleanLines(raw[i..]) == [])
  {
    var j := FirstNonBlank(raw, i);
    CleanLinesSkipBlank(raw, i);
    if j < |raw| {
      CleanLinesAt(raw, j);
      assert CleanLines(raw[i..]) == CleanLines(raw[j..]);
    } else {
      assert raw[j..] == [];
    }
  }

  /** Every cleaned line is non-blank and stripped. */
  lemma {:induction false} CleanLinesStripped(raw: seq<string>)
    ensures forall k :: 0 <= k < |CleanLines(raw)| ==> CleanLines(raw)[k] != [] && IsStripped(CleanLines(raw)[k])
  {
    if raw != [] {
      CleanLinesStripped(raw[..|raw| - 1]);
    }
  }

  /** Cleaning the lines twice is cleaning them once. */
  lemma CleanLinesIdempotent(raw: seq<string>)
    ensures CleanLines(CleanLines(raw)) == CleanLines(raw)
  {
    CleanLinesStripped(raw);
    AlreadyClean(CleanLines(raw));
  }

  /** Lines that are all non-blank and stripped are already clean. */
  lemma {:induction false} AlreadyClean(lines: seq<string>)
    requires forall k :: 0 <= k < |lines| ==> lines[k] != [] && IsStripped(lines[k])
    ensures CleanLines(lines) == lines
  {
    if lines != [] {
      var init, l := lines[..|lines| - 1], lines[|lines| - 1];
      AlreadyClean(init);
      assert Strip(l) == l;
      assert lines == init + [l];
    }
  }

  /** How `main`'s loop ends after a call of `read_record` at `position`
      that did not return a next position. */
  function Finish(r: RecordOutcome, position: nat): ReportOutcome {
    match r
    case Duplicate => StoppedAtDuplicate
    case Failed(e) => Aborted(RecordFailed(position, e))
    case Returned(_) => Completed
  }

  /** Whether `main` calls `read_record` again after this result. */
  predicate Again(r: RecordOutcome) {
    r.Returned? && r.next != -1
  }

  /** `read_record` from `position` on, as often as `main` calls it, with
      the session holding `store`. Each call returns -1 or a later position
      (`RecordBoundary`), so the loop ends. */
  function RecordLoop(lines: seq<string>, position: nat, reportDate: Date, store: Store): (ReportOutcome, Store)
    decreases |lines| - position
  {
    var rs := ReadRecordSpec(lines, position, reportDate, store);
    RecordBoundary(lines, position, reportDate, store);
    if Again(rs.0) then RecordLoop(lines, rs.0.next, reportDate, rs.1)
    else (Finish(rs.0, position), rs.1)
  }

  /** What `main` has found before its loop over the records: the cleaned
      lines after the column header and the report date, or the exception
      that stopped it. */
  datatype Start = Ready(lines: seq<string>, reportDate: Date) | Stopped(err: ReportError)

  /** The report date that `main` reads from the header line, or the
      exception it raises there. */
  datatype Dated = Dated(date: Date) | Undated(err: ReportError)

  /** The report date in the header line: the date the header pattern finds
      in the stripped line, parsed with `%m/%d/%Y`. */
  function ReportDate(headerLine: string): (r: Dated)
    ensures r.Undated? ==> r.err.DateHeaderMissing? || r.err.BadReportDate?
    ensures r.Dated? <==>
              && DateHeaderSearch(Strip(headerLine), 0).Some?
              && Strptime(DateFormat, DateHeaderSearch(Strip(headerLine), 0).value).Some?
  {
    match DateHeaderSearch(Strip(headerLine), 0)
    case None => Undated(DateHeaderMissing(headerLine))
    case Some(d) =>
      match Strptime(DateFormat, d)
      case None => Undated(BadReportDate(d))
      case Some(date) => Dated(DateOf(date))
  }

  /** The part of `main` before its loop over the records. */
  function StartOf(raw: seq<string>): (p: Start)
    ensures p.Stopped? ==> !p.err.RecordFailed?
  {
    if raw == [] then Stopped(EmptyFile)
    else
      var h := FirstNonBlank(raw, 0);
      var headerLine := if h < |raw| then raw[h] else raw[|raw| - 1];
      match ReportDate(headerLine)
      case Undated(e) => Stopped(e)
      case Dated(date) =>
        Ready(CleanLines(raw[BodyStart(raw, h)..]), date)
  }

  /** Where the records begin when the header line is at `h`: after the
      next non-blank line, the column header. */
  function BodyStart(raw: seq<string>, h: nat): (b: nat)
    requires h <= |raw|
    ensures h <= b <= |raw|
    ensures h < |raw| ==> h < b
    ensures h < |raw| ==> forall k {:trigger Strip(raw[k])} :: h < k < b - 1 ==> Strip(raw[k]) == []
    ensures h < |raw| ==>
              || (h < b - 1 && Strip(raw[b - 1]) != [])
              || (b == |raw| && forall k {:trigger Strip(raw[k])} :: h < k < |raw| ==> Strip(raw[k]) == [])
    ensures h == |raw| ==> b == |raw|
  {
    var c := FirstNonBlank(raw, if h < |raw| then h + 1 else |raw|);
    if c < |raw| then c + 1 else |raw|
  }

  /** The report date does not depend on white space around the header
      line. */
  lemma ReportDateStrip(line: string)
    ensures ReportDate(Strip(line)).Dated? == ReportDate(line).Dated?
    ensures ReportDate(line).Dated? ==> ReportDate(Strip(line)).date == ReportDate(line).date
  {
    assert Strip(Strip(line)) == Strip(line);
  }

  /** The report date is the `%m/%d/%Y` reading of the date at the first
      position where the header pattern matches the stripped line. */
  lemma ReportDateLeftmost(line: string, j: nat, year: nat, month: nat, day: nat)
    requires ValidDate(year, month, day) && j <= |Strip(line)|
    requires DateHeaderAt(Strip(line), j) == Some(FormatDate(year, month, day))
    requires forall i :: 0 <= i < j ==> DateHeaderAt(Strip(line), i).None?
    ensures ReportDate(line) == Dated(Date(year, month, day))
  {
    DateHeaderSearchLeftmost(Strip(line), 0, j);
    DateRoundTrip(year, month, day);
  }

  /** A header line in which the pattern matches nowhere stops `main`. */
  lemma ReportDateMissing(line: string)
    requires forall i :: 0 <= i <= |Strip(line)| ==> DateHeaderAt(Strip(line), i).None?
    ensures ReportDate(line) == Undated(DateHeaderMissing(line))
  {
    DateHeaderSearchMisses(Strip(line), 0);
  }

  /** The usual header line, "For Date: MM/DD/YYYY" and more, gives that
      date. */
  lemma ReportDateReads(line: string, year: nat, month: nat, day: nat, rest: string)
    requires ValidDate(year, month, day)
    requires Strip(line) == "For Date: " + FormatDate(year, month, day) + rest
    requires rest == [] || !IsDateChar(rest[0])
    ensures ReportDate(line) == Dated(Date(year, month, day))
  {
    var date := FormatDate(year, month, day);
    FormatDateChars(year, month, day);
    ForDateText(date, rest);
    DateHeaderLineRead(date, rest);
    DateRoundTrip(year, month, day);
  }

  /** "MM/DD/YYYY" is made of the characters of the date pattern. */
  lemma FormatDateChars(year: nat, month: nat, day: nat)
    requires year < 10000 && month < 100 && day < 100
    ensures forall k :: 0 <= k < 10 ==> IsDateChar(FormatDate(year, month, day)[k])
  {
    var date := FormatDate(year, month, day);
    assert date == Pad2(month) + "/" + Pad2(day) + "/" + Pad4(year);
    forall k | 0 <= k < 10 ensures IsDateChar(date[k]) {
      if k < 2 { assert date[k] == Pad2(month)[k]; }
      else if 3 <= k < 5 { assert date[k] == Pad2(day)[k - 3]; }
      else if 6 <= k { assert date[k] == Pad4(year)[k - 6]; }
    }
  }

  lemma ForDateText(date: string, rest: string)
    ensures "For Date: " + date + rest == "For" + " " + "Date:" + " " + (date + rest)
  {
  }

  /** `main` goes on to read records exactly when the file has a non-blank
      line and a report date can be read from the first one (stripped). */
  lemma StartOfReady(raw: seq<string>)
    ensures StartOf(raw).Ready? <==> CleanLines(raw) != [] && ReportDate(CleanLines(raw)[0]).Dated?
  {
    if raw != [] {
      var h := FirstNonBlank(raw, 0);
      CleanLinesHead(raw);
      if h == |raw| {
        StartOfAllBlank(raw);
      } else {
        ReportDateStrip(raw[h]);
      }
    }
  }

  /** The report date is the one read from the first non-blank line of the
      file, stripped. */
  lemma StartOfDate(raw: seq<string>)
    ensures StartOf(raw).Ready? ==>
              CleanLines(raw) != [] && ReportDate(CleanLines(raw)[0]) == Dated(StartOf(raw).reportDate)
  {
    if StartOf(raw).Ready? {
      var h := FirstNonBlank(raw, 0);
      ReportNeedsDateHeader(raw);
      CleanLinesHead(raw);
      ReportDateStrip(raw[h]);
    }
  }

  /** The records are read from the non-blank lines of the file, stripped,
      after the first two: the date line and the column header. */
  lemma StartOfLines(raw: seq<string>)
    ensures StartOf(raw).Ready? ==>
              StartOf(raw).lines == CleanLines(raw)[if |CleanLines(raw)| < 2 then |CleanLines(raw)| else 2..]
  {
    if raw != [] {
      var h := FirstNonBlank(raw, 0);
      CleanLinesHead(raw);
      if h == |raw| {
        StartOfAllBlank(raw);
      } else {
        StartOfBody(raw, h);
        DropDateLine(Strip(raw[h]), CleanLines(raw[h + 1..]), CleanLines(raw), CleanLines(raw[BodyStart(raw, h)..]));
      }
    }
  }

  /** The cleaned lines of the file begin with its first non-blank line. */
  lemma CleanLinesHead(raw: seq<string>)
    ensures var h := FirstNonBlank(raw, 0);
            && (h < |raw| ==> CleanLines(raw) == [Strip(raw[h])] + CleanLines(raw[h + 1..]))
            && (h == |raw| ==> CleanLines(raw) == [])
  {
    assert raw[0..] == raw;
    CleanLinesFrom(raw, 0);
  }

  /** Dropping the first two lines is dropping the date line and then the
      first of the others. */
  lemma DropDateLine(first: string, rest: seq<string>, all: seq<string>, body: seq<string>)
    requires all == [first] + rest
    requires rest == [] ==> body == []
    requires rest != [] ==> rest[1..] == body
    ensures all[if |all| < 2 then |all| else 2..] == body
  {
  }

  /** A file of blank lines has no report date. */
  lemma StartOfAllBlank(raw: seq<string>)
    requires raw != [] && FirstNonBlank(raw, 0) == |raw|
    ensures StartOf(raw).Stopped?
  {
    var last := raw[|raw| - 1];
    assert Strip(last) == [];
    assert DateHeaderAt([], 0).None?;
    DateHeaderSearchMisses([], 0);
    assert ReportDate(last).Undated?;
  }

  /** After the date line at `h`, the records are read from the cleaned
      lines that follow the column header. */
  lemma StartOfBody(raw: seq<string>, h: nat)
    requires h < |raw| && Strip(raw[h]) != []
    ensures CleanLines(raw[h + 1..]) == [] ==> CleanLines(raw[BodyStart(raw, h)..]) == []
    ensures CleanLines(raw[h + 1..]) != [] ==> CleanLines(raw[h + 1..])[1..] == CleanLines(raw[BodyStart(raw, h)..])
  {
    CleanLinesFrom(raw, h + 1);
    var c := FirstNonBlank(raw, h + 1);
    var b := BodyStart(raw, h);
    if c == |raw| {
      assert raw[b..] == [];
      assert CleanLines(raw[b..]) == [];
    } else {
      assert b == c + 1;
    }
  }

  /** The outcome of the loop and what the database holds afterwards: the
      session is committed unless an exception ended the loop. */
  function Commit(run: (ReportOutcome, Store), committed: Store): (r: (ReportOutcome, Store))
    ensures r.0 == run.0
    ensures r.1 == if run.0.Aborted? then committed else run.1
  {
    (run.0, if run.0.Aborted? then committed else run.1)
  }

  /** The whole of `main` on the lines of a file: the outcome and what the
      database holds afterwards, starting from `committed`. */
  function ReportSpec(raw: seq<string>, committed: Store): (r: (ReportOutcome, Store))
    ensures r.0.Aborted? ==> r.1 == committed
    ensures !r.0.Aborted? || r.0.err.RecordFailed? ==> StartOf(raw).Ready?
    ensures !r.0.Aborted? ==> r.1 == RecordLoop(StartOf(raw).lines, 0, StartOf(raw).reportDate, committed).1
  {
    match StartOf(raw)
    case Stopped(e) => (Aborted(e), committed)
    case Ready(lines, reportDate) => Commit(RecordLoop(lines, 0, reportDate, committed), committed)
  }

  /** One call of `read_record` in `RecordLoop`, unfolded. */
  lemma RecordLoopStep(lines: seq<string>, position: nat, reportDate: Date, store: Store, rs: (RecordOutcome, Store))
    requires rs == ReadRecordSpec(lines, position, reportDate, store)
    ensures Again(rs.0) ==> rs.0.next >= 0 && RecordLoop(lines, position, reportDate, store) == RecordLoop(lines, rs.0.next, reportDate, rs.1)
    ensures !Again(rs.0) ==> RecordLoop(lines, position, reportDate, store) == (Finish(rs.0, position), rs.1)
  {
    RecordBoundary(lines, position, reportDate, store);
  }

  /** The loop `for line in handle: if line.strip(): break`, from line `i`. */
  method SkipBlank(raw: seq<string>, i: nat) returns (j: nat)
    requires i <= |raw|
    ensures j == FirstNonBlank(raw, i)
  {
    j := i;
    while j < |raw| && Strip(raw[j]) == []
      invariant i <= j <= |raw| && FirstNonBlank(raw, i) == FirstNonBlank(raw, j)
    {
      j := j + 1;
    }
  }

  /** `[l.strip() for l in handle if l.strip()]`. */
  method StripLines(raw: seq<string>) returns (lines: seq<string>)
    ensures lines == CleanLines(raw)
  {
    lines := [];
    var k := 0;
    while k < |raw|
      invariant k <= |raw| && lines == CleanLines(raw[..k])
    {
      assert raw[..k + 1][..k] == raw[..k];
      var l := Strip(raw[k]);
      if l != [] {
        lines := lines + [l];
      }
      k := k + 1;
    }
    assert raw[..k] == raw;
  }

  /** The `while True` loop of `main` over a new session on the database
      holding `committed`. */
  method ReadRecords(lines: seq<string>, reportDate: Date, committed: Store) returns (outcome: ReportOutcome, s: Store)
    ensures (outcome, s) == RecordLoop(lines, 0, reportDate, committed)
  {
    var session := new Session(committed);
    var position := 0;
    while true
      invariant RecordLoop(lines, 0, reportDate, committed) == RecordLoop(lines, position, reportDate, session.Contents())
      decreases |lines| - position
    {
      ghost var before := session.Contents();
      RecordBoundary(lines, position, reportDate, before);
      var r := ReadRecord(lines, position, reportDate, session);
      RecordLoopStep(lines, position, reportDate, before, (r, session.Contents()));
      if !Again(r) {
        outcome := Finish(r, position);
        break;
      }
      position := r.next;
    }
    s := session.Contents();
  }

  /** The first part of `main`: the report date from the first non-blank
      line, then the lines after the column header. */
  method ReadStart(raw: seq<string>) returns (p: Start)
    ensures p == StartOf(raw)
  {
    if raw == [] {
      return Stopped(EmptyFile);
    }
    var h := SkipBlank(raw, 0);
    var headerLine := if h < |raw| then raw[h] else raw[|raw| - 1];
    var date := ReportDate(headerLine);
    if date.Undated? {
      return Stopped(date.err);
    }
    // the column header line is skipped
    var c := SkipBlank(raw, if h < |raw| then h + 1 else |raw|);
    var b := if c < |raw| then c + 1 else |raw|;
    assert b == BodyStart(raw, h);
    var lines := StripLines(raw[b..]);
    return Ready(lines, date.date);
  }

  /** `main`: reads the report in `raw` and returns the outcome and what the
      database holds afterwards, starting from `committed`. */
  method ParseReport(raw: seq<string>, committed: Store) returns (outcome: ReportOutcome, after: Store)
    ensures (outcome, after) == ReportSpec(raw, committed)
  {
    var p := ReadStart(raw);
    if p.Stopped? {
      return Aborted(p.err), committed;
    }
    var s;
    outcome, s := ReadRecords(p.lines, p.reportDate, committed);
    after := if outcome.Aborted? then committed else s;
  }

  // ---------------------------------------------------------------------
  // What `main` promises

  /** The report ids of the header lines from `from` on, in order. */
  function HeaderIds(lines: seq<string>, from: nat): seq<string>
    requires from <= |lines|
  {
    IdsFrom(lines, from, HeaderId)
  }

  /** What `id` gives for each line from `from` on, in order. */
  function IdsFrom(lines: seq<string>, from: nat, id: string -> seq<string>): seq<string>
    requires from <= |lines|
    decreases |lines| - from
  {
    if from == |lines| then [] else id(lines[from]) + IdsFrom(lines, from + 1, id)
  }

  /** The report id of a header line; no id for any other line. */
  function HeaderId(line: string): seq<string> {
    if IsHeader(line) then [HeaderFields(line).value.recid] else []
  }

  function ReportIds(incidents: seq<Incident>): (ids: seq<string>)
    ensures |ids| == |incidents|
    ensures forall k :: 0 <= k < |ids| ==> ids[k] == incidents[k].reportId
  {
    if incidents == [] then [] else ReportIds(incidents[..|incidents| - 1]) + [Last(incidents).reportId]
  }

  lemma ReportIdsAppend(a: seq<Incident>, b: seq<Incident>)
    ensures ReportIds(a + b) == ReportIds(a) + ReportIds(b)
  {
  }

  /** Lines that are not headers add no report id. */
  lemma HeaderIdsSkip(lines: seq<string>, from: nat, upto: nat)
    requires from <= upto <= |lines| && NoHeaderIn(lines, from, upto)
    ensures HeaderIds(lines, from) == HeaderIds(lines, upto)
  {
    forall k | from <= k < upto
      ensures HeaderId(lines[k]) == []
    {
      assert !IsHeader(lines[k]);
    }
    IdsSkip(lines, from, upto, HeaderId);
  }

  /** Lines for which `id` gives nothing add nothing. */
  lemma {:induction false} IdsSkip(lines: seq<string>, from: nat, upto: nat, id: string -> seq<string>)
    requires from <= upto <= |lines|
    requires forall k :: from <= k < upto ==> id(lines[k]) == []
    ensures IdsFrom(lines, from, id) == IdsFrom(lines, upto, id)
    decreases upto - from
  {
    if from < upto {
      IdsSkip(lines, from + 1, upto, id);
    }
  }

  /** A line that is not a header adds no report id. */
  lemma HeaderIdsStep(lines: seq<string>, from: nat)
    requires from < |lines| && !IsHeader(lines[from])
    ensures HeaderIds(lines, from) == HeaderIds(lines, from + 1)
  {
    assert HeaderId(lines[from]) == [];
  }

  /** While `main` reads records the session only grows and stays well
      keyed. */
  lemma {:induction false} RecordLoopStore(lines: seq<string>, position: nat, reportDate: Date, store: Store)
    ensures Extends(store, RecordLoop(lines, position, reportDate, store).1)
    ensures WellKeyed(store) ==> WellKeyed(RecordLoop(lines, position, reportDate, store).1)
    decreases |lines| - position
  {
    var rs := ReadRecordSpec(lines, position, reportDate, store);
    RecordLoopStep(lines, position, reportDate, store, rs);
    RecordAddsOneIncident(lines, position, reportDate, store);
    if Again(rs.0) {
      RecordBoundary(lines, position, reportDate, store);
      RecordLoopStore(lines, rs.0.next, reportDate, rs.1);
      ExtendsTransitive(store, rs.1, RecordLoop(lines, rs.0.next, reportDate, rs.1).1);
    }
  }

  /** With no header line strictly between `position` and `next`, the
      line at `position` gives the only report id before `next`. */
  lemma HeaderIdsOfRecord(lines: seq<string>, position: nat, next: nat)
    requires position < next <= |lines| && NoHeaderIn(lines, position + 1, next)
    ensures HeaderIds(lines, position) == HeaderId(lines[position]) + HeaderIds(lines, next)
  {
    HeaderIdsUnfold(lines, position);
    HeaderIdsSkip(lines, position + 1, next);
    SameTail(HeaderIds(lines, position), HeaderId(lines[position]), HeaderIds(lines, position + 1), HeaderIds(lines, next));
  }

  lemma SameTail(all: seq<string>, head: seq<string>, tail: seq<string>, tail': seq<string>)
    requires all == head + tail && tail == tail'
    ensures all == head + tail'
  {
  }

  lemma HeaderIdsUnfold(lines: seq<string>, from: nat)
    requires from < |lines|
    ensures HeaderIds(lines, from) == HeaderId(lines[from]) + HeaderIds(lines, from + 1)
  {
  }

  /** One more incident adds its report id at the end. */
  lemma ReportIdsGrow(before: seq<Incident>, after: seq<Incident>)
    requires before <= after && |after| == |before| + 1
    ensures ReportIds(after) == ReportIds(before) + [Last(after).reportId]
  {
    assert after[..|after| - 1] == before;
  }

  /** One record that `read_record` returns adds the report id of its
      header line, the only header among the lines it reads. */
  lemma RecordIds(lines: seq<string>, position: nat, reportDate: Date, store: Store, r: RecordOutcome, s: Store)
    requires (r, s) == ReadRecordSpec(lines, position, reportDate, store)
    requires r.Returned?
    ensures position < |lines| && IsHeader(lines[position])
    ensures HeaderId(lines[position]) == [HeaderFields(lines[position]).value.recid]
    ensures r.next == -1 || position < r.next < |lines|
    ensures ReportIds(s.incidents) == ReportIds(store.incidents) + HeaderId(lines[position])
    ensures HeaderIds(lines, position) == HeaderId(lines[position]) + HeaderIds(lines, if r.next == -1 then |lines| else r.next)
  {
    RecordBoundary(lines, position, reportDate, store);
    RecordAddsOneIncident(lines, position, reportDate, store);
    HeaderIdsOfRecord(lines, position, if r.next == -1 then |lines| else r.next);
    ReportIdsGrow(store.incidents, s.incidents);
  }

  /** `(a + b) + c == a + (b + c)`, for the report ids of consecutive runs. */
  lemma ConcatAssoc(a: seq<string>, b: seq<string>, c: seq<string>, ab: seq<string>, bc: seq<string>)
    requires ab == a + b && bc == b + c
    ensures ab + c == a + bc
  {
  }

  /** A run that reaches the end of the lines has added one incident per
      header line, in the order of the lines, with that header's report id;
      the first line it read was a header. */
  lemma {:induction false} CompletedRunStoresEveryRecord(lines: seq<string>, position: nat, reportDate: Date, store: Store)
    requires RecordLoop(lines, position, reportDate, store).0 == Completed
    ensures position < |lines| && IsHeader(lines[position])
    ensures ReportIds(RecordLoop(lines, position, reportDate, store).1.incidents)
            == ReportIds(store.incidents) + HeaderIds(lines, position)
    decreases |lines| - position
  {
    var (r, s) := ReadRecordSpec(lines, position, reportDate, store);
    CompletedFirstRecord(lines, position, reportDate, store, (r, s));
    RecordIds(lines, position, reportDate, store, r, s);
    if Again(r) {
      CompletedRunStoresEveryRecord(lines, r.next, reportDate, s);
      ConcatAssoc(ReportIds(store.incidents), HeaderId(lines[position]), HeaderIds(lines, r.next),
                  ReportIds(s.incidents), HeaderIds(lines, position));
    }
  }

  /** In a run that reaches the end of the lines, every record returns, and
      the run goes on from the position it returns. */
  lemma CompletedFirstRecord(lines: seq<string>, position: nat, reportDate: Date, store: Store, rs: (RecordOutcome, Store))
    requires rs == ReadRecordSpec(lines, position, reportDate, store)
    requires RecordLoop(lines, position, reportDate, store).0 == Completed
    ensures rs.0.Returned? && (rs.0.next == -1 || position < rs.0.next)
    ensures Again(rs.0) ==> && RecordLoop(lines, rs.0.next, reportDate, rs.1).0 == Completed
                            && RecordLoop(lines, position, reportDate, store).1 == RecordLoop(lines, rs.0.next, reportDate, rs.1).1
    ensures !Again(rs.0) ==> RecordLoop(lines, position, reportDate, store).1 == rs.1
  {
    RecordLoopStep(lines, position, reportDate, store, rs);
    RecordBoundary(lines, position, reportDate, store);
    if !Again(rs.0) {
      assert Finish(rs.0, position) == Completed;
    }
  }

  /** A record cut short by a duplicate report began at a header line, and
      the session holds its incident, with that header's report id, or
      nothing new. */
  lemma DuplicateRecordIds(lines: seq<string>, position: nat, reportDate: Date, store: Store)
    requires ReadRecordSpec(lines, position, reportDate, store).0 == Duplicate
    ensures position < |lines| && IsHeader(lines[position])
    ensures var s := ReadRecordSpec(lines, position, reportDate, store).1;
            || ReportIds(s.incidents) == ReportIds(store.incidents)
            || ReportIds(s.incidents) == ReportIds(store.incidents) + HeaderId(lines[position])
  {
    var h := HeaderFields(lines[position]).value;
    var t := Strptime(HourMinuteFormat, h.time).value;
    var st := InitialState(h, Combine(reportDate, t));
    ScanStore(lines, position + 1, st, store, reportDate);
    var s := Scan(lines, position + 1, st, store, reportDate).1;
    if s.incidents != store.incidents {
      ReportIdsGrow(store.incidents, s.incidents);
    }
  }

  /** In a run that meets a duplicate report, the first record either
      returns and the run goes on from the position it returns, or is the
      one cut short. */
  lemma DuplicateFirstRecord(lines: seq<string>, position: nat, reportDate: Date, store: Store, rs: (RecordOutcome, Store))
    requires rs == ReadRecordSpec(lines, position, reportDate, store)
    requires RecordLoop(lines, position, reportDate, store).0 == StoppedAtDuplicate
    ensures rs.0.Duplicate? || (Again(rs.0) && position < rs.0.next)
    ensures rs.0.Duplicate? ==> RecordLoop(lines, position, reportDate, store).1 == rs.1
    ensures Again(rs.0) ==> && RecordLoop(lines, rs.0.next, reportDate, rs.1).0 == StoppedAtDuplicate
                            && RecordLoop(lines, position, reportDate, store).1 == RecordLoop(lines, rs.0.next, reportDate, rs.1).1
  {
    RecordLoopStep(lines, position, reportDate, store, rs);
    RecordBoundary(lines, position, reportDate, store);
    if !Again(rs.0) {
      assert Finish(rs.0, position) == StoppedAtDuplicate;
    }
  }

  /** A run that meets a duplicate report has added one incident per header
      line before the header `q` of the record it cut short, in the order
      of the lines, with that header's report id; the incident of the record
      cut short comes last, or is not there. `before` is the report ids of
      the header lines from `position` up to `q`. */
  lemma {:induction false} DuplicateRunStoresRecordsBefore(lines: seq<string>, position: nat, reportDate: Date, store: Store)
      returns (q: nat, before: seq<string>)
    requires RecordLoop(lines, position, reportDate, store).0 == StoppedAtDuplicate
    ensures position <= q < |lines| && IsHeader(lines[q])
    ensures HeaderIds(lines, position) == before + HeaderIds(lines, q)
    ensures var ids := ReportIds(RecordLoop(lines, position, reportDate, store).1.incidents);
            || ids == ReportIds(store.incidents) + before
            || ids == ReportIds(store.incidents) + before + HeaderId(lines[q])
    decreases |lines| - position, 1
  {
    var rs := ReadRecordSpec(lines, position, reportDate, store);
    DuplicateFirstRecord(lines, position, reportDate, store, rs);
    if rs.0.Duplicate? {
      q, before := DuplicateRunHere(lines, position, reportDate, store);
    } else {
      q, before := DuplicateRunStep(lines, position, reportDate, store);
    }
  }

  /** `DuplicateRunStoresRecordsBefore` when the first record is the one
      cut short. */
  lemma DuplicateRunHere(lines: seq<string>, position: nat, reportDate: Date, store: Store)
      returns (q: nat, before: seq<string>)
    requires RecordLoop(lines, position, reportDate, store).0 == StoppedAtDuplicate
    requires ReadRecordSpec(lines, position, reportDate, store).0.Duplicate?
    ensures position <= q < |lines| && IsHeader(lines[q])
    ensures HeaderIds(lines, position) == before + HeaderIds(lines, q)
    ensures var ids := ReportIds(RecordLoop(lines, position, reportDate, store).1.incidents);
            || ids == ReportIds(store.incidents) + before
            || ids == ReportIds(store.incidents) + before + HeaderId(lines[q])
  {
    var rs := ReadRecordSpec(lines, position, reportDate, store);
    DuplicateFirstRecord(lines, position, reportDate, store, rs);
    DuplicateRecordIds(lines, position, reportDate, store);
    q, before := position, [];
    assert before + HeaderIds(lines, q) == HeaderIds(lines, position);
    assert ReportIds(store.incidents) + before == ReportIds(store.incidents);
  }

  /** `DuplicateRunStoresRecordsBefore` when the first record returns. */
  lemma {:induction false} DuplicateRunStep(lines: seq<string>, position: nat, reportDate: Date, store: Store)
      returns (q: nat, before: seq<string>)
    requires RecordLoop(lines, position, reportDate, store).0 == StoppedAtDuplicate
    requires Again(ReadRecordSpec(lines, position, reportDate, store).0)
    ensures position <= q < |lines| && IsHeader(lines[q])
    ensures HeaderIds(lines, position) == before + HeaderIds(lines, q)
    ensures var ids := ReportIds(RecordLoop(lines, position, reportDate, store).1.incidents);
            || ids == ReportIds(store.incidents) + before
            || ids == ReportIds(store.incidents) + before + HeaderId(lines[q])
    decreases |lines| - position, 0
  {
    var rs := ReadRecordSpec(lines, position, reportDate, store);
    DuplicateFirstRecord(lines, position, reportDate, store, rs);
    RecordIds(lines, position, reportDate, store, rs.0, rs.1);
    var before';
    q, before' := DuplicateRunStoresRecordsBefore(lines, rs.0.next, reportDate, rs.1);
    before := HeaderId(lines[position]) + before';
    IdsJoin(ReportIds(store.incidents), ReportIds(rs.1.incidents), HeaderId(lines[position]), before',
            ReportIds(RecordLoop(lines, rs.0.next, reportDate, rs.1).1.incidents), HeaderIds(lines, q),
            HeaderIds(lines, rs.0.next), HeaderIds(lines, position), HeaderId(lines[q]));
  }

  /** The report ids of one more record in front of a run that meets a
      duplicate report. */
  lemma IdsJoin(stored: seq<string>, afterFirst: seq<string>, first: seq<string>, rest: seq<string>,
                ids: seq<string>, fromQ: seq<string>, fromNext: seq<string>, fromPosition: seq<string>, atQ: seq<string>)
    requires afterFirst == stored + first
    requires fromNext == rest + fromQ && fromPosition == first + fromNext
    requires ids == afterFirst + rest || ids == afterFirst + rest + atQ
    ensures fromPosition == (first + rest) + fromQ
    ensures ids == stored + (first + rest) || ids == stored + (first + rest) + atQ
  {
  }

  /** Whatever the outcome, the database afterwards holds everything it held
      before and stays well keyed; when an exception stops `main` it holds
      exactly what it held before. What a run that reaches the end of the
      lines or meets a duplicate report commits is what its loop stored
      (`ReportSpec`), described by `CompletedRunStoresEveryRecord` and
      `DuplicateRunStoresRecordsBefore`. */
  lemma ReportCommitsOnlyOnSuccess(raw: seq<string>, committed: Store)
    ensures var (o, after) := ReportSpec(raw, committed);
            && (o.Aborted? ==> after == committed)
            && Extends(committed, after)
            && (WellKeyed(committed) ==> WellKeyed(after))
  {
    var p := StartOf(raw);
    if p.Ready? {
      RecordLoopStore(p.lines, 0, p.reportDate, committed);
    }
  }

  /** `main` reads records only after finding a report date in the first
      non-blank line of the file, and reads them with that date. */
  lemma ReportNeedsDateHeader(raw: seq<string>)
    ensures StartOf(raw).Ready? ==>
              var h := FirstNonBlank(raw, 0);
              h < |raw| && ReportDate(raw[h]) == Dated(StartOf(raw).reportDate)
  {
    if raw != [] && FirstNonBlank(raw, 0) == |raw| {
      var last := raw[|raw| - 1];
      StripEmpty(last);
      assert Strip(last) == [];
      assert DateHeaderAt([], 0).None?;
      assert DateHeaderSearch([], 0).None?;
    }
  }
}

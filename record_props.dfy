/** What `read_record` promises, stated about its specification `Scan` /
    `ReadRecordSpec` and about the line step `Step`: where a record ends,
    what it adds to the session, and what each kind of line does to the
    incident being read. */
module RecordProperties {
  import opened Strings
  import opened Dates
  import opened Patterns
  import opened Records
  import opened RecordReader
  import opened PatternProperties

  // ---------------------------------------------------------------------
  // The whole record

  /** No line from `from` up to (not including) `to` is a header line. */
  predicate NoHeaderIn(lines: seq<string>, from: int, to: int) {
    forall k {:trigger IsHeader(lines[k])} :: from <= k < to && 0 <= k < |lines| ==> !IsHeader(lines[k])
  }

  /** `next` is the first header line at or after `i`, or -1 when no header
      line follows. */
  predicate IsNextHeader(lines: seq<string>, i: nat, next: int) {
    || (next == -1 && NoHeaderIn(lines, i, |lines|))
    || (i <= next < |lines| && IsHeader(lines[next]) && NoHeaderIn(lines, i, next))
  }

  /** The index of the first header line at or after `i`, or -1. */
  function NextHeader(lines: seq<string>, i: nat): int
    decreases |lines| - i
  {
    if i >= |lines| then -1
    else if IsHeader(lines[i]) then i
    else NextHeader(lines, i + 1)
  }

  /** `NextHeader` is the first header line from `i` on. */
  lemma {:induction false} NextHeaderIsFirst(lines: seq<string>, i: nat)
    ensures IsNextHeader(lines, i, NextHeader(lines, i))
    decreases |lines| - i
  {
    if i < |lines| && !IsHeader(lines[i]) {
      NextHeaderIsFirst(lines, i + 1);
      NextHeaderAfter(lines, i, NextHeader(lines, i + 1));
    }
  }

  /** From line `i` on, `Scan` stops at the first header line and reports its
      index, or reports -1 when no header follows. */
  lemma {:induction false} ScanStopsAtHeader(lines: seq<string>, i: nat, st: LineState, store: Store, reportDate: Date)
    requires i <= |lines| && Valid(st)
    ensures var r := Scan(lines, i, st, store, reportDate).0;
            r.Returned? ==> r.next == NextHeader(lines, i)
    decreases |lines| - i
  {
    if i < |lines| {
      var step := Step(st, store, lines[i], reportDate);
      ScanLine(lines, i, st, store, reportDate);
      if step.Continue? {
        ScanStopsAtHeader(lines, i + 1, step.state, Apply(store, step.added), reportDate);
      }
    }
  }

  /** A line that is not a header does not change which header comes next. */
  lemma NextHeaderAfter(lines: seq<string>, i: nat, next: int)
    requires i < |lines| && !IsHeader(lines[i]) && IsNextHeader(lines, i + 1, next)
    ensures IsNextHeader(lines, i, next)
  {
    var to := if next == -1 then |lines| else next;
    assert NoHeaderIn(lines, i + 1, to);
    forall k | i <= k < to && 0 <= k < |lines|
      ensures !IsHeader(lines[k])
    {
      if k != i {
        assert i + 1 <= k < to;
      }
    }
    assert NoHeaderIn(lines, i, to);
  }

  /** `read_record` returns -1 or the index of the next header line, which
      lies after `position`; no line strictly between is a header, and the
      line at `position` is one. */
  lemma RecordBoundary(lines: seq<string>, position: nat, reportDate: Date, store: Store)
    ensures var r := ReadRecordSpec(lines, position, reportDate, store).0;
            r.Returned? ==>
              && position < |lines| && IsHeader(lines[position])
              && IsNextHeader(lines, position + 1, r.next)
  {
    if position < |lines| && HeaderFields(lines[position]).Some? {
      var h := HeaderFields(lines[position]).value;
      if Strptime(HourMinuteFormat, h.time).Some? {
        var t := Strptime(HourMinuteFormat, h.time).value;
        ScanStopsAtHeader(lines, position + 1, InitialState(h, Combine(reportDate, t)), store, reportDate);
        NextHeaderIsFirst(lines, position + 1);
      }
    }
  }

  /** The session only grows while a record is read, stays well keyed, and
      receives the incident being read exactly when the record ends at a
      header or at the end of the lines, or at a duplicate once something
      referring to the incident was added; a failure adds no incident. */
  lemma {:induction false} ScanStore(lines: seq<string>, i: nat, st: LineState, store: Store, reportDate: Date)
    requires i <= |lines| && Valid(st)
    ensures var (r, s) := Scan(lines, i, st, store, reportDate);
            && Extends(store, s)
            && (WellKeyed(store) ==> WellKeyed(s))
            && (r.Failed? ==> s.incidents == store.incidents)
            && (r.Returned? ==> |s.incidents| == |store.incidents| + 1 && SameHeader(st.incident, Last(s.incidents)))
            && (r.Duplicate? ==> s.incidents == store.incidents
                                 || (|s.incidents| == |store.incidents| + 1 && SameHeader(st.incident, Last(s.incidents))))
    decreases |lines| - i
  {
    if i < |lines| {
      var step := Step(st, store, lines[i], reportDate);
      ScanLine(lines, i, st, store, reportDate);
      if step.Continue? {
        var store' := Apply(store, step.added);
        ScanStore(lines, i + 1, step.state, store', reportDate);
        ExtendsTransitive(store, store', Scan(lines, i + 1, step.state, store', reportDate).1);
      }
    }
  }

  /** A record read to its end adds exactly one incident to the session: the
      header's report id, source, category and outcome, dispatched at the
      header's time on the report date. */
  lemma RecordAddsOneIncident(lines: seq<string>, position: nat, reportDate: Date, store: Store)
    ensures var (r, s) := ReadRecordSpec(lines, position, reportDate, store);
            && Extends(store, s)
            && (WellKeyed(store) ==> WellKeyed(s))
            && (r.Failed? ==> s.incidents == store.incidents)
            && (r.Returned? ==>
                  && |s.incidents| == |store.incidents| + 1
                  && var h := HeaderFields(lines[position]).value;
                     && Last(s.incidents).reportId == h.recid
                     && Last(s.incidents).dispatchSource == h.source
                     && Last(s.incidents).category == h.category
                     && Last(s.incidents).outcome == h.outcome
                     && Strptime(HourMinuteFormat, h.time).Some?
                     && Last(s.incidents).dispatchTime == Combine(reportDate, Strptime(HourMinuteFormat, h.time).value))
  {
    if position < |lines| && HeaderFields(lines[position]).Some? {
      var h := HeaderFields(lines[position]).value;
      if Strptime(HourMinuteFormat, h.time).Some? {
        var t := Strptime(HourMinuteFormat, h.time).value;
        ScanStore(lines, position + 1, InitialState(h, Combine(reportDate, t)), store, reportDate);
      }
    }
  }

  /** A "For Date" line ends the record as a duplicate whatever the context,
      before any other test; the incident read so far stays out of the
      session unless something referring to it was added. */
  lemma DuplicateStopsRecord(lines: seq<string>, i: nat, st: LineState, store: Store, reportDate: Date)
    requires i < |lines| && Valid(st) && StartsWith(lines[i], "For Date")
    ensures Scan(lines, i, st, store, reportDate).0 == Duplicate
    ensures !HasDependents(st.incident) ==> Scan(lines, i, st, store, reportDate).1 == store
  {
    ScanLine(lines, i, st, store, reportDate);
  }

  // ---------------------------------------------------------------------
  // Lines that change nothing

  /** A blank line, or one with nothing printable, leaves the record as it
      is, whatever the context. */
  lemma BlankLineChangesNothing(st: LineState, store: Store, line: string, reportDate: Date)
    requires Valid(st) && IsBlank(line)
    ensures Step(st, store, line, reportDate) == Continue(st, None)
  {
    if line != [] {
      if Strip(line) == [] {
        StripEmpty(line);
        assert IsSpace(line[0]);
      } else {
        assert !IsPrintable(line[0]);
      }
      OrdinaryLine(line);
    }
  }

  /** The administrative lines leave the record as it is, whatever the
      context. */
  lemma AdminLineChangesNothing(st: LineState, store: Store, line: string, reportDate: Date)
    requires Valid(st) && IsAdminLine(line)
    ensures Step(st, store, line, reportDate) == Continue(st, None)
  {
    assert line[0] in "CADJE";
    OrdinaryLine(line);
  }

  // ---------------------------------------------------------------------
  // Which test handles a line

  /** A line that starts with a printable character other than white space,
      a digit or 'F' is neither a duplicate marker nor a header; a blank
      line is one of these only when it has nothing printable. */
  lemma OrdinaryLine(line: string)
    requires line != [] && !IsDigit(line[0]) && line[0] != 'F'
    ensures !StartsWith(line, "For Date") && !IsHeader(line)
    ensures IsPrintable(line[0]) && !IsSpace(line[0]) ==> !IsBlank(line)
  {
  }

  /** Such a line that starts with a tag and not with an administrative
      prefix is handled by the tag tests. */
  lemma TaggedLineStep(st: LineState, store: Store, line: string, reportDate: Date)
    requires Valid(st) && IsTagged(line) && !IsAdminLine(line)
    requires IsPrintable(line[0]) && !IsSpace(line[0]) && !IsDigit(line[0]) && line[0] != 'F'
    ensures Step(st, store, line, reportDate) == TaggedStep(st, store, line)
  {
    OrdinaryLine(line);
    assert !(IsBlank(line) || IsAdminLine(line));
  }

  /** A line without a tag is read according to the context. */
  lemma UntaggedLineStep(st: LineState, store: Store, line: string, reportDate: Date)
    requires Valid(st) && Untagged(line)
    ensures Step(st, store, line, reportDate) == ContextStep(st, line, reportDate)
  {
    assert !StartsWith(line, "For Date") && !IsHeader(line);
    assert !(IsBlank(line) || IsAdminLine(line)) && !IsTagged(line);
  }

  /** "Call Taker:" lines go to the call taker test. */
  lemma CallTakerRoute(st: LineState, store: Store, line: string)
    requires Valid(st) && StartsWith(line, "Call Taker:")
    ensures TaggedStep(st, store, line) == CallTakerStep(st, store, line)
  {
    assert line[0] == 'C';
    assert !StartsWith(line, "Additional Activity:");
  }

  /** "Location/Address:", "Location:" and "Vicinity of:" lines go to the
      location test for their tag. */
  lemma LocationRoute(st: LineState, store: Store, line: string, tag: string)
    requires Valid(st) && StartsWith(line, tag)
    requires tag == "Location/Address:" || tag == "Location:" || tag == "Vicinity of:"
    ensures TaggedStep(st, store, line) == LocationStep(st, line, tag)
  {
    if tag == "Vicinity of:" {
      assert line[0] == 'V';
      assert !StartsWith(line, "Additional Activity:") && !StartsWith(line, "Call Taker:");
      assert !StartsWith(line, "Location/Address:") && !StartsWith(line, "Location:");
    } else if tag == "Location:" {
      assert line[0] == 'L' && line[8] == ':';
      assert !StartsWith(line, "Additional Activity:") && !StartsWith(line, "Call Taker:");
      assert !StartsWith(line, "Location/Address:");
    } else {
      assert line[0] == 'L';
      assert !StartsWith(line, "Additional Activity:") && !StartsWith(line, "Call Taker:");
    }
  }

  /** "Location Change:" lines go to the location change test. */
  lemma LocationChangeRoute(st: LineState, store: Store, line: string)
    requires Valid(st) && StartsWith(line, "Location Change:")
    ensures TaggedStep(st, store, line) == LocationChangeStep(st, line)
  {
    assert line[0] == 'L' && line[1] == 'o' && line[8] == ' ';
    assert !StartsWith(line, "Additional Activity:") && !StartsWith(line, "Call Taker:");
    assert !StartsWith(line, "Location/Address:") && !StartsWith(line, "Location:");
    assert !StartsWith(line, "Vicinity of:") && !StartsWith(line, "Lat:");
  }

  /** "Primary Id:" lines go to the primary officer test. */
  lemma PrimaryIdRoute(st: LineState, store: Store, line: string)
    requires Valid(st) && StartsWith(line, "Primary Id:")
    ensures TaggedStep(st, store, line) == PrimaryIdStep(st, store, line)
  {
    assert line[0] == 'P';
    assert !StartsWith(line, "Additional Activity:") && !StartsWith(line, "Call Taker:");
    assert !StartsWith(line, "Location/Address:") && !StartsWith(line, "Location:");
    assert !StartsWith(line, "Vicinity of:") && !StartsWith(line, "Lat:");
    assert !StartsWith(line, "Location Change:");
  }

  /** "ID:" lines go to the responding officer test. */
  lemma OfficerIdRoute(st: LineState, store: Store, line: string)
    requires Valid(st) && StartsWith(line, "ID:")
    ensures TaggedStep(st, store, line) == OfficerIdStep(st, store, line)
  {
    assert line[0] == 'I';
    assert !StartsWith(line, "Additional Activity:") && !StartsWith(line, "Call Taker:");
    assert !StartsWith(line, "Location/Address:") && !StartsWith(line, "Location:");
    assert !StartsWith(line, "Vicinity of:") && !StartsWith(line, "Lat:");
    assert !StartsWith(line, "Location Change:") && !StartsWith(line, "Primary Id:");
    assert !StartsWith(line, "Jurisdiction:");
  }

  /** "Refer" lines go to the referral test. */
  lemma ReferRoute(st: LineState, store: Store, line: string)
    requires Valid(st) && StartsWith(line, "Refer")
    ensures TaggedStep(st, store, line) == ReferStep(st, line)
  {
    assert line[0] == 'R';
    assert !StartsWith(line, "Additional Activity:") && !StartsWith(line, "Call Taker:");
    assert !StartsWith(line, "Location/Address:") && !StartsWith(line, "Location:");
    assert !StartsWith(line, "Vicinity of:") && !StartsWith(line, "Lat:");
    assert !StartsWith(line, "Location Change:") && !StartsWith(line, "Primary Id:");
    assert !StartsWith(line, "Jurisdiction:") && !StartsWith(line, "ID:");
  }

  /** In the officer context a line that is not an officer line without its
      "ID:" tag is a timing line. */
  lemma TimingLineStep(st: LineState, line: string, reportDate: Date)
    requires Valid(st) && st.context == OfficerTag && !IsHangingOfficerId(line)
    ensures ContextStep(st, line, reportDate) == TimingStep(st, line, reportDate)
  {
    match st.context {
      case OfficerTag =>
    }
  }

  /** After a custody, arrest or summons referral, a line with no tag is
      read as a line of that record. */
  lemma ReferContextStep(st: LineState, line: string, reportDate: Date)
    requires Valid(st) && st.context.ReferTag? && AuxKindOf(st.context.auxType).Some?
    ensures ContextStep(st, line, reportDate) == AuxLineStep(st, line, AuxKindOf(st.context.auxType).value)
  {
    match st.context {
      case ReferTag(t) =>
    }
  }

  // ---------------------------------------------------------------------
  // Officers and dispatchers

  /** An "ID:" line appends exactly one responding officer, with no times
      yet, and changes nothing else in the incident; the officer is the one
      the session holds under the badge number, or a new one to add. */
  lemma OfficerIdAppendsResponder(st: LineState, store: Store, line: string)
    requires Valid(st) && WellKeyed(store)
    ensures var r := OfficerIdStep(st, store, line);
            var p := OfficerIdFields(line);
            && (r.Continue? <==> p.Some? && AllDigits(BadgeText(p.value.number)))
            && (r.StepError? ==> r.err == (if p.None? then PayloadMismatch(line) else BadNumber(BadgeText(p.value.number))))
            && (r.Continue? ==>
                  var rs := r.state.incident.responders;
                  var n := DigitsValue(BadgeText(p.value.number));
                  && r.state == LineState(st.incident.(responders := rs), OfficerTag, st.inCharges)
                  && |rs| == |st.incident.responders| + 1
                  && rs[..|rs| - 1] == st.incident.responders
                  && Last(rs).officer.number == n
                  && Last(rs).dispatchTime.None? && Last(rs).arrivalTime.None? && Last(rs).clearedTime.None?
                  && (n in store.officers ==> r.added.None? && Last(rs).officer == store.officers[n])
                  && (n !in store.officers ==> r.added == Some(AddedOfficer(Last(rs).officer))))
  {
    var rs := st.incident.responders;
    match OfficerIdFields(line) {
      case None =>
      case Some(p) =>
        var text := BadgeText(p.number);
        if AllDigits(text) {
          var (o, added) := FindOrAddOfficer(store, DigitsValue(text), Strip(p.lastName), Strip(p.firstName));
          var rs' := rs + [RespondingOfficer(o, None, None, None)];
          assert rs'[..|rs'| - 1] == rs;
        }
    }
  }

  /** A K9 unit's "ID:" line is recorded under badge number 9000. */
  lemma K9UnitIsBadge9000(st: LineState, store: Store, line: string)
    requires Valid(st) && WellKeyed(store)
    requires OfficerIdFields(line).Some? && StartsWith(Strip(OfficerIdFields(line).value.number), "K9")
    ensures var r := OfficerIdStep(st, store, line);
            r.Continue? && r.state.incident.responders != [] && Last(r.state.incident.responders).officer.number == 9000
  {
    Badge9000();
    OfficerIdAppendsResponder(st, store, line);
  }

  lemma Badge9000()
    ensures AllDigits("9000") && DigitsValue("9000") == 9000
  {
    assert "9000"[..3] == "900" && "900"[..2] == "90" && "90"[..1] == "9" && "9"[..0] == [];
  }

  /** A "Primary Id:" line sets the primary officer, found by badge number or
      new, and changes nothing else. */
  lemma PrimaryIdSetsOfficer(st: LineState, store: Store, line: string)
    requires Valid(st) && WellKeyed(store)
    ensures var r := PrimaryIdStep(st, store, line);
            match PrimaryIdFields(line)
            case None => r == StepError(PayloadMismatch(line))
            case Some(p) =>
              var n := DigitsValue(Strip(p.number));
              && r.Continue? && r.state.context == PrimaryIdTag
              && r.state.incident == st.incident.(primaryOfficer := r.state.incident.primaryOfficer)
              && r.state.incident.primaryOfficer.Some?
              && r.state.incident.primaryOfficer.value.number == n
              && (n in store.officers ==> r.added.None? && r.state.incident.primaryOfficer == Some(store.officers[n]))
              && (n !in store.officers ==> r.added == Some(AddedOfficer(r.state.incident.primaryOfficer.value)))
  {
  }

  /** A "Call Taker:" line sets the call taker when the session already holds
      a dispatcher with that number; otherwise it adds the new dispatcher
      and leaves the call taker unset. */
  lemma CallTakerSetsDispatcher(st: LineState, store: Store, line: string)
    requires Valid(st) && WellKeyed(store)
    ensures var r := CallTakerStep(st, store, line);
            match CallTakerFields(line)
            case None => r == StepError(PayloadMismatch(line))
            case Some(p) =>
              var n := DigitsValue(Strip(p.number));
              && r.Continue? && r.state.context == CallTakerTag
              && r.state.incident == st.incident.(callTaker := r.state.incident.callTaker)
              && (n in store.dispatchers ==>
                    r.added.None? && r.state.incident.callTaker == Some(store.dispatchers[n])
                    && store.dispatchers[n].number == n)
              && (n !in store.dispatchers ==>
                    r.state.incident.callTaker.None?
                    && r.added == Some(AddedDispatcher(Dispatcher(n, Strip(p.lastName), Strip(p.firstName)))))
  {
  }

  // ---------------------------------------------------------------------
  // Timing lines

  /** In the officer context no line without a tag is rejected as
      unrecognised: the timing pattern matches every line, and only a time
      that cannot be read makes the line fail. */
  lemma OfficerContextAcceptsAnyLine(st: LineState, line: string, reportDate: Date)
    requires Valid(st) && st.context == OfficerTag
    ensures var r := ContextStep(st, line, reportDate);
            r.Continue? || r.err.BadTime?
  {
    if !IsHangingOfficerId(line) {
      TimingLineStep(st, line, reportDate);
    }
  }

  /** An officer line without its "ID:" tag is passed over. */
  lemma HangingOfficerIdIgnored(st: LineState, line: string, reportDate: Date)
    requires Valid(st) && st.context == OfficerTag && IsHangingOfficerId(line)
    ensures ContextStep(st, line, reportDate) == Continue(st, None)
  {
    match st.context {
      case OfficerTag =>
    }
  }

  /** A timing line changes only the times of the last responding officer:
      each time its line gives, read by `ReadTime`, and no other. A time of
      eight characters is that time of day on the report date. */
  lemma TimingUpdatesLastResponder(st: LineState, line: string, reportDate: Date)
    requires Valid(st) && st.context == OfficerTag
    ensures var r := TimingStep(st, line, reportDate);
            var t := TimingFields(line);
            var rs := st.incident.responders;
            && (r.Continue? || r.err.BadTime?)
            && (r.Continue? ==>
                  var rs' := r.state.incident.responders;
                  && r.added.None?
                  && r.state == st.(incident := st.incident.(responders := rs'))
                  && |rs'| == |rs| && rs'[..|rs| - 1] == rs[..|rs| - 1]
                  && Last(rs').officer == Last(rs).officer
                  && (t.dispatched.None? ==> Last(rs').dispatchTime == Last(rs).dispatchTime)
                  && (t.arrived.None? ==> Last(rs').arrivalTime == Last(rs).arrivalTime)
                  && (t.cleared.None? ==> Last(rs').clearedTime == Last(rs).clearedTime)
                  && (t.dispatched.Some? ==> Last(rs').dispatchTime.Some? && DateOf(Last(rs').dispatchTime.value) == reportDate)
                  && (t.arrived.Some? ==> Last(rs').arrivalTime.Some? && DateOf(Last(rs').arrivalTime.value) == reportDate)
                  && (t.cleared.Some? && |t.cleared.value| == 8 ==>
                        Last(rs').clearedTime.Some? && DateOf(Last(rs').clearedTime.value) == reportDate)
                  && (t.dispatched.Some? ==> Last(rs').dispatchTime == ReadTime(t.dispatched.value, reportDate))
                  && (t.arrived.Some? ==> Last(rs').arrivalTime == ReadTime(t.arrived.value, reportDate))
                  && (t.cleared.Some? ==> Last(rs').clearedTime == ReadTime(t.cleared.value, reportDate)))
  {
  }

  /** A dispatch time written "HH:MM:SS" is that time of day on the report
      date. */
  lemma DispatchClockOnReportDate(st: LineState, line: string, reportDate: Date, h: nat, m: nat, sec: nat)
    requires Valid(st) && st.context == OfficerTag
    requires ValidDate(reportDate.year, reportDate.month, reportDate.day) && h <= 23 && m <= 59 && sec <= 59
    requires TimingFields(line).dispatched == Some(FormatClock(h, m, sec))
    ensures var r := TimingStep(st, line, reportDate);
            r.Continue? ==>
              r.state.incident.responders != []
              && Last(r.state.incident.responders).dispatchTime
                 == Some(DateTime(reportDate.year, reportDate.month, reportDate.day, h, m, sec))
  {
    ClockRoundTrip(h, m, sec);
  }

  /** A cleared time written "MM/DD/YYYY @ HH:MM:SS" is taken as it stands,
      date included. */
  lemma ClearedStampTakenAsWritten(st: LineState, line: string, reportDate: Date, t: DateTime)
    requires Valid(st) && st.context == OfficerTag && ValidDateTime(t)
    requires TimingFields(line).cleared == Some(FormatStamp(t))
    ensures var r := TimingStep(st, line, reportDate);
            r.Continue? ==> r.state.incident.responders != [] && Last(r.state.incident.responders).clearedTime == Some(t)
  {
    StampRoundTrip(t);
  }

  // ---------------------------------------------------------------------
  // Locations

  /** After a location, a line with no ':' continues it: the stripped line
      is appended after one space. A line with a ':' is rejected. */
  lemma LocationContinuation(st: LineState, line: string, reportDate: Date)
    requires Valid(st) && st.context == LocationAddressTag
    ensures var r := ContextStep(st, line, reportDate);
            && (':' in line ==> r == StepError(Unrecognized(line)))
            && (':' !in line ==>
                  && r.Continue? && r.added.None? && r.state.context == LocationAddressTag
                  && r.state.incident == st.incident.(location := Some(st.incident.location.value + " " + Strip(line))))
  {
    match st.context {
      case LocationAddressTag =>
    }
  }

  /** A "Location Change:" line appends exactly one location change and
      changes nothing else: its location is the text before any
      "[Modified", and it is dated exactly when a "[Modified: ...]" stamp is
      found, with the stamp read as "%m/%d/%Y%H%M". Only an unreadable stamp
      makes the line fail. */
  lemma LocationChangeAppendsOne(st: LineState, line: string)
    requires Valid(st) && StartsWith(line, "Location Change:")
    ensures var r := LocationChangeStep(st, line);
            var text := Strip(LocationChangePayload(line).value);
            && (r.Continue? || (r.StepError? && r.err.BadTime?))
            && (r.StepError? ==> ModifiedSearch(text, 0).Some?)
            && (r.Continue? ==>
                  var lcs := r.state.incident.locationChanges;
                  && r.added.None?
                  && r.state == LineState(st.incident.(locationChanges := lcs), LocationChangeTag, st.inCharges)
                  && lcs == st.incident.locationChanges + [Last(lcs)]
                  && Last(lcs).location == ChangedLocation(text)
                  && (Last(lcs).changeDate.Some? <==> ModifiedSearch(text, 0).Some?)
                  && (Last(lcs).changeDate.Some? ==>
                        Last(lcs).changeDate == Strptime(ModifiedFormat, Strip(ModifiedSearch(text, 0).value))))
  {
  }

  /** A stamp "[Modified: MM/DD/YYYYHHMM]" dates the change at that minute. */
  lemma LocationChangeDated(st: LineState, line: string, t: DateTime)
    requires Valid(st) && StartsWith(line, "Location Change:") && ValidDateTime(t) && t.second == 0
    requires ModifiedSearch(Strip(LocationChangePayload(line).value), 0) == Some(FormatModified(t))
    ensures var r := LocationChangeStep(st, line);
            && r.Continue? && r.state.incident.locationChanges != []
            && Last(r.state.incident.locationChanges).changeDate == Some(t)
  {
    ModifiedStampReadsBack(t);
    LocationChangeAppendsOne(st, line);
  }

  lemma ModifiedStampReadsBack(t: DateTime)
    requires ValidDateTime(t) && t.second == 0
    ensures Strptime(ModifiedFormat, Strip(FormatModified(t))) == Some(t)
  {
    ModifiedStampStripped(t);
    ModifiedRoundTrip(t);
  }

  /** A formatted stamp starts and ends with a digit. */
  lemma ModifiedStampStripped(t: DateTime)
    requires ValidDateTime(t)
    ensures Strip(FormatModified(t)) == FormatModified(t)
  {
    var f := FormatModified(t);
    assert f[0] == Pad2(t.month)[0] && f[13] == Pad2(t.minute)[1];
  }

  /** The location of a change is all the text before the first "[Modified",
      white space included. */
  lemma ChangedLocationKeepsTextBeforeStamp(a: string, b: string)
    requires !Contains(a, "[Modified")
    ensures ChangedLocation(a + "[Modified" + b) == a
  {
    var s := a + "[Modified" + b;
    var pat := "[Modified";
    assert s[|a|..|a| + 9] == pat;
    forall k: nat | k < |a|
      ensures !OccursAt(s, pat, k)
    {
      if k + 9 <= |a| {
        assert a[k..k + 9] == s[k..k + 9];
        assert !OccursAt(a, pat, k);
      } else {
        var j := |a| - k;
        assert 0 < j < 9 && s[k + j] == '[';
        assert pat[j] != '[';
        assert s[k..k + 9][j] != pat[j];
      }
    }
    assert OccursAt(s, pat, |a|);
    assert IndexOf(s, pat, 0) == Some(|a|);
    assert s[..|a|] == a;
  }

  // ---------------------------------------------------------------------
  // Context tests

  /** A line with no tag is rejected after a tag that takes no continuation
      line, and after a referral type with no record of its own. */
  lemma UntaggedLineRejected(st: LineState, line: string, reportDate: Date)
    requires Valid(st)
    requires || st.context == NoTag || st.context == CallTakerTag || st.context == LatLonTag
             || st.context == PrimaryIdTag || st.context == JurisdictionTag
             || (st.context.ReferTag? && AuxKindOf(st.context.auxType).None?)
    ensures ContextStep(st, line, reportDate) == StepError(Unrecognized(line))
  {
  }

  /** After a location change or an additional activity, a line with no tag
      is passed over. */
  lemma UntaggedLineIgnored(st: LineState, line: string, reportDate: Date)
    requires Valid(st)
    requires st.context == LocationChangeTag || st.context == AdditionalActivityTag
    ensures ContextStep(st, line, reportDate) == Continue(st, None)
  {
  }

  // ---------------------------------------------------------------------
  // Referrals

  /** A "Refer" line sets the referral type and id; a custody, arrest or
      summons referral appends one empty record of its kind, any other
      referral none. Charges started under an earlier referral of the same
      record stay started. */
  lemma ReferLineSetsReferral(st: LineState, line: string)
    requires Valid(st)
    ensures var r := ReferStep(st, line);
            match ReferralFields(line)
            case None => r == StepError(PayloadMismatch(line))
            case Some(ref) =>
              var t := Strip(ref.auxType);
              && r.Continue? && r.added.None? && r.state.context == ReferTag(t) && r.state.inCharges == st.inCharges
              && r.state.incident.auxEventType == Some(t) && r.state.incident.auxEventId == Some(Strip(ref.auxId))
              && r.state.incident == st.incident.(auxEventType := Some(t), auxEventId := Some(Strip(ref.auxId)),
                                                  auxRecords := r.state.incident.auxRecords)
              && (AuxKindOf(t).None? ==> r.state.incident.auxRecords == st.incident.auxRecords)
              && (AuxKindOf(t).Some? ==>
                    r.state.incident.auxRecords == st.incident.auxRecords + [NewAuxRecord(AuxKindOf(t).value)])
  {
  }

  /** A line of a custody, arrest or summons record only changes the last
      record, never its kind, and keeps the context. */
  lemma AuxLineTouchesOnlyLastRecord(st: LineState, line: string, k: AuxKind)
    requires Valid(st) && st.context.ReferTag? && AuxKindOf(st.context.auxType) == Some(k)
    ensures var r := AuxLineStep(st, line, k);
            var recs := st.incident.auxRecords;
            r.Continue? ==>
              var recs' := r.state.incident.auxRecords;
              && r.added.None? && r.state.context == st.context
              && r.state.incident == st.incident.(auxRecords := recs')
              && |recs'| == |recs| && recs'[..|recs| - 1] == recs[..|recs| - 1]
              && Last(recs').kind == Last(recs).kind
  {
  }

  /** A "Charges:" line sets the last record's charges and starts the
      charges: later lines with no tag continue them. */
  lemma ChargesLineStartsCharges(st: LineState, line: string, k: AuxKind)
    requires Valid(st) && st.context.ReferTag? && AuxKindOf(st.context.auxType) == Some(k)
    requires StartsWith(line, "Charges:") && ChargesPayload(line).Some?
    ensures var r := AuxLineStep(st, line, k);
            && r.Continue? && r.state.inCharges && r.state.incident.auxRecords != []
            && Last(r.state.incident.auxRecords).charges == Some(Strip(ChargesPayload(line).value))
  {
    assert line[0] == 'C' && line[1] == 'h';
    assert !StartsWith(line, NamePrefix(k)) && !StartsWith(line, "Address") && !StartsWith(line, "Age");
  }

  /** Before the charges have started, a line after a custody, arrest or
      summons referral that is not a duplicate, a header, blank, an
      administrative line or a tagged line, and starts with none of the
      person's tag, "Address", "Age" and "Charges", is not recognised. */
  lemma AuxLineRejected(st: LineState, store: Store, line: string, reportDate: Date, k: AuxKind)
    requires Valid(st) && st.context.ReferTag? && AuxKindOf(st.context.auxType) == Some(k) && !st.inCharges
    requires !StartsWith(line, "For Date") && !IsHeader(line) && !IsBlank(line) && !IsAdminLine(line) && !IsTagged(line)
    requires && !StartsWith(line, NamePrefix(k)) && !StartsWith(line, "Address")
             && !StartsWith(line, "Age") && !StartsWith(line, "Charges")
    ensures Step(st, store, line, reportDate) == StepError(Unrecognized(line))
  {
  }

  /** "P/C: Last, First" (or "Arrest:", "Summons:") sets the names of the
      last record and nothing else of it. */
  lemma AuxNameLineSetsName(st: LineState, k: AuxKind, last: string, first: string, rest: string)
    requires Valid(st) && st.context.ReferTag? && AuxKindOf(st.context.auxType) == Some(k)
    requires last != [] && !IsSpace(last[0]) && forall j :: 0 <= j < |last| ==> IsLongNameChar(last[j])
    requires first != [] && forall j :: 0 <= j < |first| ==> IsAtoz(first[j])
    requires rest == [] || !IsAtoz(rest[0])
    ensures var r := AuxLineStep(st, NameTag(k) + " " + (last + ", " + first + rest), k);
            var rec := Last(st.incident.auxRecords);
            && r.Continue? && r.state.incident.auxRecords != []
            && Last(r.state.incident.auxRecords) == rec.(lastName := Some(last), firstName := Some(first))
  {
    var line := NameTag(k) + " " + (last + ", " + first + rest);
    NameLineRead(NameTag(k), last, first, rest);
    assert line[..|NamePrefix(k)|] == NamePrefix(k);
  }

  /** "Address: text" sets the address of the last record, stripped, and
      nothing else of it. */
  lemma AuxAddressLineSetsAddress(st: LineState, k: AuxKind, text: string)
    requires Valid(st) && st.context.ReferTag? && AuxKindOf(st.context.auxType) == Some(k)
    requires text != [] && !IsSpace(text[0]) && forall j :: 0 <= j < |text| ==> text[j] != '\n'
    ensures var r := AuxLineStep(st, "Address:" + " " + text, k);
            var rec := Last(st.incident.auxRecords);
            && r.Continue? && r.state.incident.auxRecords != []
            && Last(r.state.incident.auxRecords) == rec.(address := Some(Strip(text)))
  {
    AddressLineRead(text);
    AddressLineStarts(text, k);
  }

  /** An "Address:" line goes to the address test. */
  lemma AddressLineStarts(text: string, k: AuxKind)
    ensures var line := "Address:" + " " + text;
            !StartsWith(line, NamePrefix(k)) && StartsWith(line, "Address")
  {
    var line := "Address:" + " " + text;
    assert line[0] == 'A' && line[1] == 'd';
    assert line[..7] == "Address";
  }

  /** "Age: digits" sets the age of the last record to the number they
      spell, and nothing else of it. */
  lemma AuxAgeLineSetsAge(st: LineState, k: AuxKind, age: string, rest: string)
    requires Valid(st) && st.context.ReferTag? && AuxKindOf(st.context.auxType) == Some(k)
    requires age != [] && AllDigits(age)
    requires rest == [] || !IsDigit(rest[0])
    ensures var r := AuxLineStep(st, "Age:" + " " + (age + rest), k);
            var rec := Last(st.incident.auxRecords);
            && r.Continue? && r.state.incident.auxRecords != []
            && Last(r.state.incident.auxRecords) == rec.(age := Some(DigitsValue(age)))
  {
    AgeLineRead(age, rest);
    AgeLineStarts(age, rest, k);
  }

  /** An "Age:" line goes to the age test, and its digits need no
      stripping. */
  lemma AgeLineStarts(age: string, rest: string, k: AuxKind)
    requires age != [] && AllDigits(age)
    ensures var line := "Age:" + " " + (age + rest);
            !StartsWith(line, NamePrefix(k)) && !StartsWith(line, "Address") && StartsWith(line, "Age")
    ensures Strip(age) == age
  {
    var line := "Age:" + " " + (age + rest);
    assert line[0] == 'A' && line[1] == 'g';
    assert line[..3] == "Age";
    assert IsDigit(age[0]) && IsDigit(age[|age| - 1]);
    assert IsStripped(age);
  }

  /** Once the charges have started, a line with no tag of its own extends a
      custody's charges after a comma (and fails when they were never set),
      and is passed over for an arrest or a summons. */
  lemma ChargesContinuation(st: LineState, line: string, k: AuxKind)
    requires Valid(st) && st.context.ReferTag? && st.inCharges && AuxKindOf(st.context.auxType) == Some(k)
    requires && !StartsWith(line, NamePrefix(k)) && !StartsWith(line, "Address")
             && !StartsWith(line, "Age") && !StartsWith(line, "Charges")
    ensures var r := AuxLineStep(st, line, k);
            var last := Last(st.incident.auxRecords);
            && (k != ProtectiveCustody ==> r == Continue(st, None))
            && (k == ProtectiveCustody && last.charges.None? ==> r == StepError(ChargesUnset(line)))
            && (k == ProtectiveCustody && last.charges.Some? ==>
                  && r.Continue? && r.state.incident.auxRecords != []
                  && Last(r.state.incident.auxRecords) == last.(charges := Some(last.charges.value + "," + Strip(line))))
  {
  }
}

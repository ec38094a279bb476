/** `read_record` of parse_pdf.py (lines 92-348): reads one incident from the
    cleaned report lines, starting at its header line, and adds it to the
    session.

    Each line after the header is handled by `Step`, a pure function of the
    state of the record being read, the session's contents, the line and the
    report date; it follows the source's chain of tests in the same order.
    `Scan` folds `Step` over the lines and is the specification that the
    imperative `ReadRecord` (a loop over the lines that updates a `Session`)
    is proved to meet. */
module RecordReader {
  import opened Strings
  import opened Dates
  import opened Patterns
  import opened Records

  /** The ways reading a record ends in an exception. */
  datatype Error =
    | NoRecord                    // `lines[position]` is out of range
    | NotAHeader(line: string)    // the first line does not match HEADER_RE
    | BadTime(text: string)       // `strptime` raised ValueError
    | PayloadMismatch(line: string) // a tag's pattern did not match: `groupdict()` on None
    | BadNumber(text: string)     // `int()` raised ValueError
    | BadFloat(text: string)      // `float()` raised ValueError
    | ChargesUnset(line: string)  // `+=` on custody charges that were never set
    | Unrecognized(line: string)  // ParsingError("Unrecognized Input ...")

  /** `last_entity_type`: which tag the last tagged line had. */
  datatype Context =
    | NoTag
    | AdditionalActivityTag
    | CallTakerTag
    | LocationAddressTag
    | LatLonTag
    | LocationChangeTag
    | PrimaryIdTag
    | JurisdictionTag
    | OfficerTag
    | ReferTag(auxType: string)   // "refer_" + the referral type

  /** The record being read: the incident, `last_entity_type`, and whether
      `last_entity_subtype` is "charges" (it is never reset within a record). */
  datatype LineState = LineState(incident: Incident, context: Context, inCharges: bool)

  /** The referral types that create a record of their own. */
  function AuxKindOf(t: string): (k: Option<AuxKind>)
    ensures k == Some(ProtectiveCustody) <==> t == "P/C"
    ensures k == Some(Arrest) <==> t == "Arrest"
    ensures k == Some(Summons) <==> t == "Summons"
  {
    if t == "P/C" then Some(ProtectiveCustody)
    else if t == "Arrest" then Some(Arrest)
    else if t == "Summons" then Some(Summons)
    else None
  }

  function Last<T>(s: seq<T>): T
    requires s != []
  {
    s[|s| - 1]
  }

  /** What the context promises about the incident: a timing line has a
      responding officer to update, a continuation line a location to extend,
      and a referral line the record its referral created. */
  predicate Valid(st: LineState) {
    && (st.context == OfficerTag ==> st.incident.responders != [])
    && (st.context == LocationAddressTag ==> st.incident.location.Some?)
    && (st.context.ReferTag? && AuxKindOf(st.context.auxType).Some? ==>
          st.incident.auxRecords != [] && Last(st.incident.auxRecords).kind == AuxKindOf(st.context.auxType).value)
  }

  /** The fields the header line sets, which no later line changes. */
  predicate SameHeader(a: Incident, b: Incident) {
    a.reportId == b.reportId && a.dispatchTime == b.dispatchTime && a.dispatchSource == b.dispatchSource
    && a.category == b.category && a.outcome == b.outcome
  }

  /** The state after the header line. */
  function InitialState(h: Header, dispatched: DateTime): (st: LineState)
    ensures Valid(st) && st.context == NoTag && !st.inCharges
    ensures st.incident.reportId == h.recid && st.incident.dispatchTime == dispatched
    ensures st.incident.dispatchSource == h.source && st.incident.category == h.category
    ensures st.incident.outcome == h.outcome
    ensures st.incident.callTaker.None? && st.incident.primaryOfficer.None? && st.incident.location.None?
    ensures !HasDependents(st.incident)
  {
    LineState(
      Incident(h.recid, dispatched, h.source, h.category, h.outcome,
               None, None, None, None, None, None, None, None, [], [], []),
      NoTag, false)
  }

  datatype StepResult =
    | Continue(state: LineState, added: Option<Added>)
    | NewRecord
    | DuplicateFound
    | StepError(err: Error)

  /** An officer or dispatcher a step adds is one the session does not hold. */
  predicate AddsOnlyNew(store: Store, r: StepResult) {
    r.Continue? && r.added.Some? ==>
      && (r.added.value.AddedOfficer? ==> r.added.value.officer.number !in store.officers)
      && (r.added.value.AddedDispatcher? ==> r.added.value.dispatcher.number !in store.dispatchers)
  }

  /** A step that goes on keeps the header fields and the invariant. */
  predicate GoodStep(st: LineState, store: Store, r: StepResult) {
    AddsOnlyNew(store, r) && (r.Continue? ==> Valid(r.state) && SameHeader(st.incident, r.state.incident))
  }

  /** A step within the record: it goes on or fails, and the record does not end. */
  predicate InRecord(r: StepResult) {
    r.Continue? || r.StepError?
  }

  /** How a tagged line can fail: its pattern does not match or a value in it
      cannot be converted. */
  predicate TagError(e: Error) {
    e.PayloadMismatch? || e.BadNumber? || e.BadFloat? || e.BadTime?
  }

  function Apply(store: Store, added: Option<Added>): (r: Store)
    requires added.Some? && added.value.AddedOfficer? ==> added.value.officer.number !in store.officers
    requires added.Some? && added.value.AddedDispatcher? ==> added.value.dispatcher.number !in store.dispatchers
    ensures Extends(store, r) && r.incidents == store.incidents
    ensures WellKeyed(store) ==> WellKeyed(r)
  {
    if added.Some? then AddNew(store, added.value) else store
  }

  // ---------------------------------------------------------------------
  // Lines that change nothing

  /** A blank line, or one with no printable character. */
  predicate IsBlank(line: string) {
    Strip(line) == [] || forall k :: 0 <= k < |line| ==> !IsPrintable(line[k])
  }

  /** The administrative lines the parser skips. */
  predicate IsAdminLine(line: string) {
    || StartsWith(line, "Call Closed By") || StartsWith(line, "Call Modified By")
    || StartsWith(line, "Cleared By") || StartsWith(line, "Con:")
    || StartsWith(line, "Arrived By") || StartsWith(line, "Dispatched By")
    || StartsWith(line, "DOB") || StartsWith(line, "Juvenile Arrest")
    || StartsWith(line, "Enroute By") || StartsWith(line, "Juvenile Protective Custody")
  }

  /** A line that starts with one of the tags the parser tests for. */
  predicate IsTagged(line: string) {
    || StartsWith(line, "Additional Activity:") || StartsWith(line, "Call Taker:")
    || StartsWith(line, "Location/Address:") || StartsWith(line, "Location:")
    || StartsWith(line, "Vicinity of:") || StartsWith(line, "Lat:")
    || StartsWith(line, "Location Change:") || StartsWith(line, "Primary Id:")
    || StartsWith(line, "Jurisdiction:") || StartsWith(line, "ID:")
    || StartsWith(line, "Refer")
  }

  /** A line whose meaning depends on the context: none of the tests before
      the context tests applies to it. */
  predicate Untagged(line: string) {
    !StartsWith(line, "For Date") && !IsHeader(line) && !IsBlank(line) && !IsAdminLine(line) && !IsTagged(line)
  }

  // ---------------------------------------------------------------------
  // Tagged lines

  /** The officer a query by `number` finds, or a new one to add. */
  function FindOrAddOfficer(store: Store, number: nat, lastName: string, firstName: string): (r: (Officer, Option<Added>))
    ensures number in store.officers ==> r == (store.officers[number], None)
    ensures number !in store.officers ==> r == (Officer(number, lastName, firstName), Some(AddedOfficer(r.0)))
  {
    if number in store.officers then (store.officers[number], None)
    else var o := Officer(number, lastName, firstName); (o, Some(AddedOfficer(o)))
  }

  /** "Call Taker:" (lines 142-153). A dispatcher the session already holds
      becomes the call taker; a new one is added to the session, but the
      call taker is then set to the query's empty result. */
  function CallTakerStep(st: LineState, store: Store, line: string): (r: StepResult)
    requires Valid(st)
    ensures GoodStep(st, store, r)
    ensures r.Continue? || r == StepError(PayloadMismatch(line))
    ensures r.StepError? ==> TagError(r.err)
  {
    match CallTakerFields(line)
    case None => StepError(PayloadMismatch(line))
    case Some(p) =>
      var n := DigitsValue(Strip(p.number));
      if n in store.dispatchers then
        Continue(st.(context := CallTakerTag, incident := st.incident.(callTaker := Some(store.dispatchers[n]))), None)
      else
        Continue(st.(context := CallTakerTag, incident := st.incident.(callTaker := None)),
                 Some(AddedDispatcher(Dispatcher(n, Strip(p.lastName), Strip(p.firstName)))))
  }

  /** "Location/Address:", "Location:" or "Vicinity of:" (lines 155-159). */
  function LocationStep(st: LineState, line: string, tag: string): (r: StepResult)
    requires Valid(st) && StartsWith(line, tag)
    ensures r.Continue? && r.added.None? && GoodStep(st, Store(map[], map[], []), r)
    ensures r.state.incident == st.incident.(location := Some(Strip(LocationPayload(line, tag))))
  {
    Continue(st.(context := LocationAddressTag,
                 incident := st.incident.(location := Some(Strip(LocationPayload(line, tag))))), None)
  }

  /** "Lat:" (lines 161-165): both coordinates, each of which `float()` must accept. */
  function LatLonStep(st: LineState, line: string): (r: StepResult)
    requires Valid(st)
    ensures GoodStep(st, Store(map[], map[], []), r) && InRecord(r)
    ensures r.Continue? ==> r.added.None? && r.state.incident.latitude.Some? && IsFloatLiteral(r.state.incident.latitude.value)
    ensures r.Continue? ==> r.state.incident.longitude.Some? && IsFloatLiteral(r.state.incident.longitude.value)
    ensures r.StepError? ==> TagError(r.err)
    ensures r.Continue? <==>
              && LatLonFields(line).Some?
              && IsFloatLiteral(Strip(LatLonFields(line).value.0))
              && IsFloatLiteral(Strip(LatLonFields(line).value.1))
    ensures r.Continue? ==>
              r.state.incident == st.incident.(latitude := Some(Strip(LatLonFields(line).value.0)),
                                               longitude := Some(Strip(LatLonFields(line).value.1)))
  {
    match LatLonFields(line)
    case None => StepError(PayloadMismatch(line))
    case Some((lat, lon)) =>
      var la, lo := Strip(lat), Strip(lon);
      if !IsFloatLiteral(la) then StepError(BadFloat(la))
      else if !IsFloatLiteral(lo) then StepError(BadFloat(lo))
      else Continue(st.(context := LatLonTag, incident := st.incident.(latitude := Some(la), longitude := Some(lo))), None)
  }

  /** The location of a "Location Change:" line: the text before the first
      "[Modified", or all of it (not stripped again). */
  function ChangedLocation(text: string): (loc: string)
    ensures loc <= text
    ensures !Contains(loc, "[Modified")
    ensures !Contains(text, "[Modified") ==> loc == text
  {
    IndexOfFindsOccurrence(text, "[Modified");
    match IndexOf(text, "[Modified", 0)
    case None => text
    case Some(k) =>
      NoOccurrenceBetween(text, "[Modified", 0, k);
      text[0..k]
  }

  /** The state with one more location change, in the location change
      context. */
  function WithLocationChange(st: LineState, lc: LocationChange): (r: LineState)
    ensures r.incident.locationChanges == st.incident.locationChanges + [lc]
    ensures Last(r.incident.locationChanges) == lc
    ensures r.context == LocationChangeTag && r.inCharges == st.inCharges
    ensures r.incident == st.incident.(locationChanges := r.incident.locationChanges)
  {
    st.(context := LocationChangeTag, incident := st.incident.(locationChanges := st.incident.locationChanges + [lc]))
  }

  /** "Location Change:" (lines 167-183): one more location change, dated
      when the text holds a "[Modified: ...]" stamp. */
  function LocationChangeStep(st: LineState, line: string): (r: StepResult)
    requires Valid(st) && StartsWith(line, "Location Change:")
    ensures GoodStep(st, Store(map[], map[], []), r) && InRecord(r)
    ensures r.Continue? ==> r.added.None?
    ensures r.StepError? ==> TagError(r.err)
  {
    var text := Strip(LocationChangePayload(line).value);
    match ModifiedSearch(text, 0)
    case None => Continue(WithLocationChange(st, LocationChange(ChangedLocation(text), None)), None)
    case Some(m) =>
      match Strptime(ModifiedFormat, Strip(m))
      case None => StepError(BadTime(Strip(m)))
      case Some(d) => Continue(WithLocationChange(st, LocationChange(ChangedLocation(text), Some(d))), None)
  }

  /** "Primary Id:" (lines 184-196). */
  function PrimaryIdStep(st: LineState, store: Store, line: string): (r: StepResult)
    requires Valid(st)
    ensures GoodStep(st, store, r)
    ensures r.Continue? || r == StepError(PayloadMismatch(line))
    ensures r.StepError? ==> TagError(r.err)
  {
    match PrimaryIdFields(line)
    case None => StepError(PayloadMismatch(line))
    case Some(p) =>
      var (o, added) := FindOrAddOfficer(store, DigitsValue(Strip(p.number)), Strip(p.lastName), Strip(p.firstName));
      Continue(st.(context := PrimaryIdTag, incident := st.incident.(primaryOfficer := Some(o))), added)
  }

  /** "Jurisdiction:" (lines 198-201). */
  function JurisdictionStep(st: LineState, line: string): (r: StepResult)
    requires Valid(st) && StartsWith(line, "Jurisdiction:")
    ensures r.Continue? && r.added.None? && GoodStep(st, Store(map[], map[], []), r)
    ensures r.state.incident == st.incident.(jurisdiction := Some(Strip(JurisdictionPayload(line).value)))
  {
    Continue(st.(context := JurisdictionTag,
                 incident := st.incident.(jurisdiction := Some(Strip(JurisdictionPayload(line).value)))), None)
  }

  /** The badge number text of an "ID:" line: a K9 unit's becomes "9000". */
  function BadgeText(number: string): (t: string)
    ensures StartsWith(Strip(number), "K9") ==> t == "9000"
    ensures !StartsWith(Strip(number), "K9") ==> t == Strip(number)
  {
    if StartsWith(Strip(number), "K9") then "9000" else Strip(number)
  }

  /** "ID:" (lines 203-220): one more responding officer, with no times yet. */
  function OfficerIdStep(st: LineState, store: Store, line: string): (r: StepResult)
    requires Valid(st)
    ensures GoodStep(st, store, r) && InRecord(r)
    ensures r.StepError? ==> TagError(r.err)
  {
    match OfficerIdFields(line)
    case None => StepError(PayloadMismatch(line))
    case Some(p) =>
      var text := BadgeText(p.number);
      if !AllDigits(text) then StepError(BadNumber(text))
      else
        var (o, added) := FindOrAddOfficer(store, DigitsValue(text), Strip(p.lastName), Strip(p.firstName));
        Continue(st.(context := OfficerTag,
                     incident := st.incident.(responders := st.incident.responders + [RespondingOfficer(o, None, None, None)])),
                 added)
  }

  /** "Refer" (lines 222-238): the referral type and id; a custody, arrest or
      summons referral also starts a record of that kind. */
  function ReferStep(st: LineState, line: string): (r: StepResult)
    requires Valid(st)
    ensures GoodStep(st, Store(map[], map[], []), r)
    ensures r.Continue? ==> r.added.None?
    ensures r.Continue? || r == StepError(PayloadMismatch(line))
    ensures r.StepError? ==> TagError(r.err)
  {
    match ReferralFields(line)
    case None => StepError(PayloadMismatch(line))
    case Some(ref) =>
      var t := Strip(ref.auxType);
      var inc := st.incident.(auxEventType := Some(t), auxEventId := Some(Strip(ref.auxId)));
      var inc' := match AuxKindOf(t)
                  case None => inc
                  case Some(k) => inc.(auxRecords := inc.auxRecords + [NewAuxRecord(k)]);
      Continue(st.(context := ReferTag(t), incident := inc'), None)
  }

  /** The dispatcher or officer line tests, in the source's order, for a
      line that starts with a tag. */
  function TaggedStep(st: LineState, store: Store, line: string): (r: StepResult)
    requires Valid(st) && IsTagged(line)
    ensures GoodStep(st, store, r) && InRecord(r)
    ensures r.StepError? ==> TagError(r.err)
  {
    if StartsWith(line, "Additional Activity:") then Continue(st.(context := AdditionalActivityTag), None)
    else if StartsWith(line, "Call Taker:") then CallTakerStep(st, store, line)
    else if StartsWith(line, "Location/Address:") then LocationStep(st, line, "Location/Address:")
    else if StartsWith(line, "Location:") then LocationStep(st, line, "Location:")
    else if StartsWith(line, "Vicinity of:") then LocationStep(st, line, "Vicinity of:")
    else if StartsWith(line, "Lat:") then LatLonStep(st, line)
    else if StartsWith(line, "Location Change:") then LocationChangeStep(st, line)
    else if StartsWith(line, "Primary Id:") then PrimaryIdStep(st, store, line)
    else if StartsWith(line, "Jurisdiction:") then JurisdictionStep(st, line)
    else if StartsWith(line, "ID:") then OfficerIdStep(st, store, line)
    else ReferStep(st, line)
  }

  // ---------------------------------------------------------------------
  // Untagged lines, read according to the context

  /** The value of a timing group: "HH:MM:SS" is that time on the report
      date, any other text is read as "MM/DD/YYYY @ HH:MM:SS". */
  function ReadTime(text: string, reportDate: Date): (t: Option<DateTime>)
    ensures t.Some? ==> ValidDateTime(t.value)
    ensures |text| == 8 ==>
              (t.Some? <==> Strptime(ClockFormat, text).Some? && ValidDate(reportDate.year, reportDate.month, reportDate.day))
    ensures t.Some? && |text| == 8 ==>
              && DateOf(t.value) == reportDate
              && t.value.hour == Strptime(ClockFormat, text).value.hour
              && t.value.minute == Strptime(ClockFormat, text).value.minute
              && t.value.second == Strptime(ClockFormat, text).value.second
    ensures |text| != 8 ==> t == Strptime(StampFormat, text)
  {
    if |text| == 8 then
      match Strptime(ClockFormat, text)
      case None => None
      case Some(c) => if ValidDate(reportDate.year, reportDate.month, reportDate.day) then Some(Combine(reportDate, c)) else None
    else Strptime(StampFormat, text)
  }

  /** A responding officer's time after a timing line: unchanged when the
      group is unset, `None` when the group cannot be read. */
  function NewTime(current: Option<DateTime>, group: Option<string>, reportDate: Date): Option<Option<DateTime>>
  {
    match group
    case None => Some(current)
    case Some(text) =>
      match ReadTime(text, reportDate)
      case None => None
      case Some(t) => Some(Some(t))
  }

  /** A timing line after "ID:" (lines 244-270): the cleared, arrival and
      dispatch times of the last responding officer. */
  function TimingStep(st: LineState, line: string, reportDate: Date): (r: StepResult)
    requires Valid(st) && st.context == OfficerTag
    ensures GoodStep(st, Store(map[], map[], []), r)
    ensures r.Continue? || (r.StepError? && r.err.BadTime?)
  {
    var rs := st.incident.responders;
    var last := Last(rs);
    var t := TimingFields(line);
    match (NewTime(last.clearedTime, t.cleared, reportDate),
           NewTime(last.arrivalTime, t.arrived, reportDate),
           NewTime(last.dispatchTime, t.dispatched, reportDate))
    case (Some(c), Some(a), Some(d)) =>
      var last' := last.(clearedTime := c, arrivalTime := a, dispatchTime := d);
      Continue(st.(incident := st.incident.(responders := rs[..|rs| - 1] + [last'])), None)
    case (None, _, _) => StepError(BadTime(t.cleared.value))
    case (_, None, _) => StepError(BadTime(t.arrived.value))
    case (_, _, None) => StepError(BadTime(t.dispatched.value))
  }

  /** The state with the last referral record replaced. */
  function WithLastAux(st: LineState, rec: AuxRecord): (r: LineState)
    requires st.incident.auxRecords != []
    ensures r.incident.auxRecords == st.incident.auxRecords[..|st.incident.auxRecords| - 1] + [rec]
    ensures var recs, recs' := st.incident.auxRecords, r.incident.auxRecords;
            |recs'| == |recs| && recs'[..|recs| - 1] == recs[..|recs| - 1] && Last(recs') == rec
    ensures r.context == st.context && r.inCharges == st.inCharges
    ensures r.incident == st.incident.(auxRecords := r.incident.auxRecords)
  {
    var recs := st.incident.auxRecords;
    var recs' := recs[..|recs| - 1] + [rec];
    assert recs'[..|recs| - 1] == recs[..|recs| - 1];
    st.(incident := st.incident.(auxRecords := recs'))
  }

  /** The tag that names the person of a referral record, and the text a line
      must start with for that test to be made. */
  function NameTag(k: AuxKind): string {
    match k
    case ProtectiveCustody => "P/C:"
    case Arrest => "Arrest:"
    case Summons => "Summons:"
  }

  function NamePrefix(k: AuxKind): string {
    match k
    case ProtectiveCustody => "P/C"
    case Arrest => "Arrest:"
    case Summons => "Summons:"
  }

  /** A line after a custody, arrest or summons referral (lines 276-332):
      the person's name, address, age and charges. A line with no tag after
      the charges continues a custody's charges and is ignored for an arrest
      or a summons. */
  function AuxLineStep(st: LineState, line: string, k: AuxKind): (r: StepResult)
    requires Valid(st) && st.context.ReferTag? && AuxKindOf(st.context.auxType) == Some(k)
    ensures GoodStep(st, Store(map[], map[], []), r)
    ensures r.Continue? ==> r.added.None? && r.state.context == st.context
  {
    var last := Last(st.incident.auxRecords);
    if StartsWith(line, NamePrefix(k)) then
      match NameFields(line, NameTag(k))
      case None => StepError(PayloadMismatch(line))
      case Some(n) => Continue(WithLastAux(st, last.(lastName := Some(n.lastName), firstName := Some(n.firstName))), None)
    else if StartsWith(line, "Address") then
      match AddressPayload(line)
      case None => StepError(PayloadMismatch(line))
      case Some(a) => Continue(WithLastAux(st, last.(address := Some(Strip(a)))), None)
    else if StartsWith(line, "Age") then
      match AgePayload(line)
      case None => StepError(PayloadMismatch(line))
      case Some(a) => Continue(WithLastAux(st, last.(age := Some(DigitsValue(Strip(a))))), None)
    else if StartsWith(line, "Charges") then
      match ChargesPayload(line)
      case None => StepError(PayloadMismatch(line))
      case Some(c) => Continue(WithLastAux(st, last.(charges := Some(Strip(c)))).(inCharges := true), None)
    else if st.inCharges then
      if k != ProtectiveCustody then Continue(st, None)
      else if last.charges.None? then StepError(ChargesUnset(line))
      else Continue(WithLastAux(st, last.(charges := Some(last.charges.value + "," + Strip(line)))), None)
    else StepError(Unrecognized(line))
  }

  /** The tests on the context (lines 240-340), for a line without a tag. */
  function ContextStep(st: LineState, line: string, reportDate: Date): (r: StepResult)
    requires Valid(st)
    ensures GoodStep(st, Store(map[], map[], []), r)
    ensures r.Continue? ==> r.added.None?
    ensures InRecord(r)
  {
    match st.context
    case OfficerTag =>
      if IsHangingOfficerId(line) then Continue(st, None) else TimingStep(st, line, reportDate)
    case ReferTag(t) =>
      if AuxKindOf(t).Some? then AuxLineStep(st, line, AuxKindOf(t).value) else StepError(Unrecognized(line))
    case LocationChangeTag => Continue(st, None)
    case LocationAddressTag =>
      if ':' !in line then
        Continue(st.(incident := st.incident.(location := Some(st.incident.location.value + " " + Strip(line)))), None)
      else StepError(Unrecognized(line))
    case AdditionalActivityTag => Continue(st, None)
    case _ => StepError(Unrecognized(line))
  }

  /** One line of the record (lines 120-342). A "For Date" line is a
      duplicate of the report before any other test, and a header
      line ends the record. */
  function Step(st: LineState, store: Store, line: string, reportDate: Date): (r: StepResult)
    requires Valid(st)
    ensures r.DuplicateFound? <==> StartsWith(line, "For Date")
    ensures r.NewRecord? <==> !StartsWith(line, "For Date") && IsHeader(line)
    ensures GoodStep(st, store, r)
  {
    if StartsWith(line, "For Date") then DuplicateFound
    else if IsHeader(line) then NewRecord
    else if IsBlank(line) || IsAdminLine(line) then Continue(st, None)
    else if IsTagged(line) then TaggedStep(st, store, line)
    else ContextStep(st, line, reportDate)
  }

  // ---------------------------------------------------------------------
  // The whole record

  /** How `read_record` ends: the position it returns (-1 at the end of the
      lines), or an exception. */
  datatype RecordOutcome = Returned(next: int) | Duplicate | Failed(err: Error)

  /** The lines from `i` on, with the record so far in `st` and the session
      holding `store`. At a header or at the end of the lines the incident is
      added; at a duplicate it is in the session only if something that
      refers to it is. */
  function Scan(lines: seq<string>, i: nat, st: LineState, store: Store, reportDate: Date): (r: (RecordOutcome, Store))
    requires i <= |lines| && Valid(st)
    decreases |lines| - i
  {
    if i == |lines| then (Returned(-1), AddIncident(store, st.incident))
    else
      match Step(st, store, lines[i], reportDate)
      case NewRecord => (Returned(i), AddIncident(store, st.incident))
      case DuplicateFound => (Duplicate, if HasDependents(st.incident) then AddIncident(store, st.incident) else store)
      case StepError(e) => (Failed(e), store)
      case Continue(next, added) => Scan(lines, i + 1, next, Apply(store, added), reportDate)
  }

  /** One line of `Scan`, unfolded. */
  lemma ScanLine(lines: seq<string>, i: nat, st: LineState, store: Store, reportDate: Date)
    requires i < |lines| && Valid(st)
    ensures var step := Step(st, store, lines[i], reportDate);
            Scan(lines, i, st, store, reportDate) ==
              match step
              case NewRecord => (Returned(i), AddIncident(store, st.incident))
              case DuplicateFound => (Duplicate, if HasDependents(st.incident) then AddIncident(store, st.incident) else store)
              case StepError(e) => (Failed(e), store)
              case Continue(next, added) => Scan(lines, i + 1, next, Apply(store, added), reportDate)
  {
  }

  /** `read_record(lines, position, report_date, db_session)`. */
  function ReadRecordSpec(lines: seq<string>, position: nat, reportDate: Date, store: Store): (RecordOutcome, Store)
  {
    if position >= |lines| then (Failed(NoRecord), store)
    else
      match HeaderFields(lines[position])
      case None => (Failed(NotAHeader(lines[position])), store)
      case Some(h) =>
        match Strptime(HourMinuteFormat, h.time)
        case None => (Failed(BadTime(h.time)), store)
        case Some(t) => Scan(lines, position + 1, InitialState(h, Combine(reportDate, t)), store, reportDate)
  }

  /** Reads the record that starts at `lines[position]` into `session`, line
      by line. */
  method ReadRecord(lines: seq<string>, position: nat, reportDate: Date, session: Session) returns (r: RecordOutcome)
    modifies session
    ensures (r, session.Contents()) == ReadRecordSpec(lines, position, reportDate, old(session.Contents()))
  {
    if position >= |lines| {
      return Failed(NoRecord);
    }
    var header := HeaderFields(lines[position]);
    if header.None? {
      return Failed(NotAHeader(lines[position]));
    }
    var h := header.value;
    var rectime := Strptime(HourMinuteFormat, h.time);
    if rectime.None? {
      return Failed(BadTime(h.time));
    }
    var st := InitialState(h, Combine(reportDate, rectime.value));
    r := ScanRecord(lines, position + 1, st, reportDate, session);
  }

  /** The loop of `read_record`: reads `lines[i..]` into `session`, line by
      line, with the record so far in `st`. */
  method ScanRecord(lines: seq<string>, i: nat, st: LineState, reportDate: Date, session: Session) returns (r: RecordOutcome)
    requires i <= |lines| && Valid(st)
    modifies session
    ensures (r, session.Contents()) == Scan(lines, i, st, old(session.Contents()), reportDate)
  {
    var cur := st;
    var newpos := i;
    while newpos < |lines|
      invariant i <= newpos <= |lines| && Valid(cur)
      invariant Scan(lines, i, st, old(session.Contents()), reportDate)
                == Scan(lines, newpos, cur, session.Contents(), reportDate)
      decreases |lines| - newpos
    {
      var store := session.Contents();
      var step := Step(cur, store, lines[newpos], reportDate);
      ScanLine(lines, newpos, cur, store, reportDate);
      match step
      case DuplicateFound =>
        if HasDependents(cur.incident) {
          session.Add(cur.incident);
        }
        return Duplicate;
      case StepError(e) =>
        return Failed(e);
      case NewRecord =>
        assert Scan(lines, newpos, cur, store, reportDate) == (Returned(newpos), AddIncident(store, cur.incident));
        break;
      case Continue(next, added) =>
        if added.Some? {
          session.AddEntity(added.value);
        }
        assert session.Contents() == Apply(store, added);
        cur := next;
        newpos := newpos + 1;
    }
    session.Add(cur.incident);
    if newpos == |lines| {
      r := Returned(-1);
    } else {
      r := Returned(newpos);
    }
  }
}

# Keene police log parser, modelled in Dafny

This project models the core of a parser for the daily police logs of Keene,
New Hampshire. `parse_pdf.py` reads the text of one day's log and stores
what it reads in a database:

- incidents, each with its dispatcher (call taker), its primary and
  responding officers with their dispatch, arrival and cleared times;
- its locations and location changes;
- its protective custody, arrest and summons records.

`geocode.py` cleans an incident's location text into a query for a
geocoding service.

The model follows the code:

- **`main` (module `Report`).** It finds the report date in the first
  non-blank line, skips the column header and strips the remaining lines.
  It then calls `read_record` until the lines run out or a duplicate block
  starts, and commits the session.
- **`read_record` (modules `RecordReader` and `RecordProperties`).** It
  reads one record: the header line, then line by line until the next
  header, through the chain of line tests in the source's order. Each test
  is a function on the per-line state: the incident so far, the last tag
  (`last_entity_type`) and the charges flag (`last_entity_subtype`).
  - The loop itself is the method `RecordReader.ScanRecord`, called by
    `RecordReader.ReadRecord`. Both work on a `Records.Session` object and
    are proved equal to the functions `RecordReader.Scan` and
    `RecordReader.ReadRecordSpec`.
  - The properties are lemmas about that function and about the per-line
    step functions.
- **Patterns and dates.** The regular expressions of `parse_pdf.py` are
  hand-written recognisers (module `Patterns`), each with the regex's
  backtracking where it matters. `datetime.strptime` is a small
  format-directive matcher with Python's alternatives for each directive
  (module `Dates`).
- **`clean_query` (module `Geocode`).** It is a method proved equal to the
  function `Geocode.CleanedQuery`, and the properties of the cleaning are
  lemmas about that function.
- **Exceptions.** Where the source raises, whether on purpose
  (`ParsingError`, `DuplicateError`) or by accident, the model returns an
  error value. The accidental cases are `groupdict()` on a failed match,
  `int()`, `float()` or `strptime` on bad text, and `+=` on unset charges.

Some consequences of the code that a reader might not expect, all of which
the model keeps:

- A second "Refer To" line in one record appends a second referral record
  instead of failing (parse_pdf.py:222-238).
- A badge id such as "K9-12" does not match the officer pattern at all
  (`[0-9A-z]+` stops at the dash, parse_pdf.py:30), so that line fails; only
  a badge id that matches and starts with "K9" becomes number 9000
  (parse_pdf.py:203-210).
- The charges flag is never reset within a record, so charges started
  under one referral stay started under a later one (parse_pdf.py:287-292).
- A "Location Change:" location keeps the white space before "[Modified"
  (parse_pdf.py:177-178).

## Model

| member | source | states |
|---|---|---|
| Strings.Strip | parse_pdf.py:77 | `str.strip()`: the result has no white space at either end, and text that has none is returned unchanged |
| Strings.StripRemovesOnlySpace | parse_pdf.py:77 | `str.strip()` removes only white space, from the two ends |
| Strings.StripEmpty | parse_pdf.py:60-62 | a line strips to the empty text exactly when it is all white space |
| Strings.SplitPiecesLackSep | geocode.py:121 | no piece of `s.split(sep)` contains `sep` |
| Strings.JoinSplit | geocode.py:121-122 | joining the pieces of `s.split(sep)` with `sep` gives `s` back |
| Strings.SplitNoSep | geocode.py:121 | a text without the separator splits into itself alone |
| Dates.Strptime | parse_pdf.py:106 | `datetime.strptime`: a result is always a valid date and time |
| Dates.ClockRoundTrip | parse_pdf.py:256 | "HH:MM:SS" written from an in-range time is read back by `%H:%M:%S` as that time on 1900-01-01 |
| Dates.StampRoundTrip | parse_pdf.py:258 | "MM/DD/YYYY @ HH:MM:SS" of a valid date and time is read back by `%m/%d/%Y @ %H:%M:%S` as itself |
| Dates.ModifiedRoundTrip | parse_pdf.py:174 | "MM/DD/YYYYHHMM" of a valid whole-minute time is read back by `%m/%d/%Y%H%M` as itself |
| Dates.DateRoundTrip | parse_pdf.py:67 | "MM/DD/YYYY" of a valid date is read back by `%m/%d/%Y` as midnight of that date |
| Dates.HourMinuteRoundTrip | parse_pdf.py:106 | "HHMM" of an in-range time is read back by `%H%M` |
| Patterns.HeaderFields | parse_pdf.py:13-14 | a header match starts with two digits, '-' and a digit; its id is a prefix of the line, its time four digits, its source, category and outcome non-empty, the outcome made of `[\w /]` |
| Patterns.TimingFields | parse_pdf.py:33-36 | the dispatch group is set only after "Disp-" at the start; dispatch and arrival are 8 characters; the cleared group is 8 or 21 |
| Patterns.StaffIdFields | parse_pdf.py:28-29 | a call taker or primary id match starts with its first word ("Call", "Primary") and has a non-empty number of digits |
| Patterns.OfficerIdFields | parse_pdf.py:30 | an officer id match starts with "ID:" and has a non-empty number |
| Patterns.LatLonFields | parse_pdf.py:16 | a match starts with "Lat:" and has two non-empty coordinates made of `[0-9.+-]` |
| Patterns.LocationChangePayload | parse_pdf.py:18 | every line starting with "Location Change:" matches, and only lines starting with "Location" do |
| Patterns.JurisdictionPayload | parse_pdf.py:32 | a line matches exactly when it starts with "Jurisdiction:" |
| Patterns.ReferralFields | parse_pdf.py:37 | a referral match starts with "Refer" and has a non-empty type and id |
| Patterns.NameFields | parse_pdf.py:21-23 | a name match starts with its tag and has a non-empty surname and first name |
| Patterns.AddressPayload | parse_pdf.py:24 | an address match starts with "Address:" |
| Patterns.AgePayload | parse_pdf.py:25 | an age match starts with "Age:" and its age is non-empty digits |
| Patterns.ChargesPayload | parse_pdf.py:26 | a charges match starts with "Charges:" |
| PatternProperties.HeaderLineRead | parse_pdf.py:13-14 | a header line "YY-N HHMM source - CATEGORY outcome" is recognised with exactly those fields: the id "YY-N", the time, the source, the category word with its space and the outcome |
| PatternProperties.DateHeaderLineRead | parse_pdf.py:12 | "For Date: " followed by a run of digits and '/' is found, and the date group is that whole run |
| PatternProperties.DateHeaderSearchLeftmost | parse_pdf.py:12 | `DATE_HEADER_RE.search` returns the date group of the match at the first position where the pattern matches |
| PatternProperties.DateHeaderSearchMisses | parse_pdf.py:12 | `DATE_HEADER_RE.search` finds nothing when the pattern matches at no position |
| PatternProperties.LatLonLineRead | parse_pdf.py:16 | "Lat: A Lon: B" is recognised with latitude A and longitude B, each a whole run of `[0-9.+-]` |
| PatternProperties.ModifiedSearchLeftmost | parse_pdf.py:19 | `MODIFIED_RE.search` returns the stamp of the match at the first position where the pattern matches |
| PatternProperties.ModifiedSearchMisses | parse_pdf.py:19 | `MODIFIED_RE.search` finds nothing when the pattern matches at no position |
| PatternProperties.StampRead | parse_pdf.py:19 | "[Modified: " + a run of digits and '/' + "]" is matched where it stands, with that run, and the search from there returns it |
| PatternProperties.NameLineRead | parse_pdf.py:21-23 | "TAG Last, First" is recognised with exactly that surname and first name |
| PatternProperties.AddressLineRead | parse_pdf.py:24 | "Address: text" on one line is recognised with the whole text |
| PatternProperties.AgeLineRead | parse_pdf.py:25 | "Age: digits" is recognised with the whole run of digits |
| PatternProperties.ChargesLineRead | parse_pdf.py:26 | "Charges: text" on one line is recognised with the whole text |
| PatternProperties.StaffIdLineRead | parse_pdf.py:28-29 | "Call Taker: N - Last, First" (and "Primary Id:") is recognised with exactly that number, surname and first name |
| PatternProperties.OfficerIdLineRead | parse_pdf.py:30 | "ID: N - Last, First" is recognised with exactly that badge, surname and first name |
| PatternProperties.TimingLineRead | parse_pdf.py:33-36 | "Disp-T Enrt-E Arvd-T Clrd-C" gives the dispatch, arrival and cleared groups as written; the cleared one is a clock or a full "MM/DD/YYYY @ HH:MM:SS" stamp |
| PatternProperties.ReferralLineRead | parse_pdf.py:37 | "Refer To KIND: ID" is recognised with exactly that kind and id |
| Records.AddNew | parse_pdf.py:150-152 | adding a new officer or dispatcher keeps everything the session held, adds exactly that number, files the added entity under it and keeps every entry filed under its own number |
| Records.Session.AddEntity | parse_pdf.py:152 | `db_session.add` of an officer or dispatcher the query did not find updates the session as `AddNew` says |
| Records.Session.Add | parse_pdf.py:344 | `db_session.add(incident)` appends the incident |
| RecordReader.InitialState | parse_pdf.py:98-118 | a record starts with the header's id, source, category and outcome, the dispatch time given, no tag, no charges flag and nothing that refers to the incident |
| RecordReader.ChangedLocation | parse_pdf.py:177-180 | the location of a change is a prefix of the text without "[Modified", and the whole text when it has none |
| RecordReader.Apply | parse_pdf.py:213-216 | storing what a step added keeps everything the session held and keeps it keyed by number |
| RecordReader.CallTakerStep | parse_pdf.py:142-153 | a "Call Taker:" line keeps the header and the invariant, adds only a dispatcher the session lacks, and fails only when the pattern does not match |
| RecordReader.PrimaryIdStep | parse_pdf.py:184-196 | a "Primary Id:" line keeps the header and the invariant, adds only an officer the session lacks, and fails only when the pattern does not match |
| RecordReader.OfficerIdStep | parse_pdf.py:203-220 | an "ID:" line keeps the header and the invariant, adds only an officer the session lacks, and fails only with a tag error |
| RecordReader.ReferStep | parse_pdf.py:222-238 | a "Refer" line keeps the header and the invariant, adds nothing to the session, and fails only when the pattern does not match |
| RecordReader.LocationChangeStep | parse_pdf.py:167-183 | a "Location Change:" line keeps the header and the invariant, adds nothing to the session, and fails only with a tag error |
| RecordReader.LocationStep | parse_pdf.py:155-159 | a location line sets the stripped location and nothing else |
| RecordReader.LatLonStep | parse_pdf.py:161-165 | a "Lat:" line succeeds exactly when both groups, stripped, are texts `float()` accepts, and then sets the coordinates to them and nothing else; otherwise it fails with a tag error |
| RecordReader.JurisdictionStep | parse_pdf.py:198-201 | a "Jurisdiction:" line sets the stripped jurisdiction and nothing else |
| RecordReader.ReadTime | parse_pdf.py:254-270 | an 8-character group is read by `%H:%M:%S` and is that time of day on the report date; any other is read by `%m/%d/%Y @ %H:%M:%S`; every time read is valid |
| RecordReader.TimingStep | parse_pdf.py:244-275 | a timing line keeps the header fields and the invariant, and fails only on a time it cannot read |
| RecordReader.AuxLineStep | parse_pdf.py:276-332 | a line of a referral record keeps the context and adds nothing to the session |
| RecordReader.ContextStep | parse_pdf.py:240-340 | the context tests add nothing to the session and never end the record |
| RecordReader.TaggedStep | parse_pdf.py:140-238 | a tagged line keeps the header and the invariant, adds only an officer or dispatcher the session lacks, and fails only with a tag error |
| RecordReader.Step | parse_pdf.py:120-340 | a line ends the record as a duplicate exactly when it starts with "For Date", and as the next record exactly when it is otherwise a header |
| RecordReader.ReadRecord | parse_pdf.py:92-348 | the loop over the lines leaves the session and returns the result that `ReadRecordSpec` gives |
| RecordReader.ScanRecord | parse_pdf.py:120-348 | the `for` loop over the lines of a record leaves the session and returns the result that `Scan` gives |
| RecordProperties.ScanStopsAtHeader | parse_pdf.py:126-129 | reading stops at the first header line after the record and returns its index |
| RecordProperties.NextHeaderIsFirst | parse_pdf.py:126-129 | the index returned is the first header line, or -1 when none follows |
| RecordProperties.RecordBoundary | parse_pdf.py:101-129 | a record that returns starts at a header line and returns the next header's index, or -1 with no header after it |
| RecordProperties.ScanStore | parse_pdf.py:344 | the session only grows and stays keyed by number; a returned record adds exactly one incident with the record's header, a failed one adds none, and a duplicate adds none or that one |
| RecordProperties.RecordAddsOneIncident | parse_pdf.py:98-112 | a record read to its end adds exactly one incident with the header's id, source, category and outcome, dispatched at the header's time on the report date |
| RecordProperties.DuplicateStopsRecord | parse_pdf.py:123-124 | a "For Date" line ends the record as a duplicate before any other test |
| RecordProperties.BlankLineChangesNothing | parse_pdf.py:132-133 | a blank or unprintable line changes nothing |
| RecordProperties.AdminLineChangesNothing | parse_pdf.py:134-139 | the administrative lines change nothing |
| RecordProperties.OrdinaryLine | parse_pdf.py:123-129 | a line starting with a letter other than 'F' is neither a duplicate marker nor a header |
| RecordProperties.TaggedLineStep | parse_pdf.py:140-238 | a tagged, non-administrative line goes to the tag tests |
| RecordProperties.UntaggedLineStep | parse_pdf.py:240-340 | a line without a tag goes to the context tests |
| RecordProperties.CallTakerRoute | parse_pdf.py:142 | "Call Taker:" lines go to the call taker test |
| RecordProperties.LocationRoute | parse_pdf.py:155 | each of the three location tags goes to the location test for that tag |
| RecordProperties.LocationChangeRoute | parse_pdf.py:167 | "Location Change:" lines go to the location change test, not to "Location:" |
| RecordProperties.PrimaryIdRoute | parse_pdf.py:184 | "Primary Id:" lines go to the primary officer test |
| RecordProperties.OfficerIdRoute | parse_pdf.py:203 | "ID:" lines go to the responding officer test |
| RecordProperties.ReferRoute | parse_pdf.py:222 | "Refer" lines go to the referral test |
| RecordProperties.TimingLineStep | parse_pdf.py:240-246 | after an officer, a line that is not a bare officer id is a timing line |
| RecordProperties.ReferContextStep | parse_pdf.py:276-332 | after a custody, arrest or summons referral, an untagged line goes to that record's tests |
| RecordProperties.OfficerIdAppendsResponder | parse_pdf.py:203-220 | an "ID:" line appends exactly one responding officer with no times: the stored officer for the number, or a new one to add; it fails only on a mismatch or a non-numeric badge |
| RecordProperties.K9UnitIsBadge9000 | parse_pdf.py:209-210 | a K9 unit is recorded under badge number 9000 |
| RecordProperties.PrimaryIdSetsOfficer | parse_pdf.py:184-196 | a "Primary Id:" line sets the primary officer, stored or new, and nothing else |
| RecordProperties.CallTakerSetsDispatcher | parse_pdf.py:142-153 | a "Call Taker:" line sets the stored dispatcher; for an unknown number it adds the dispatcher and leaves the call taker unset |
| RecordProperties.OfficerContextAcceptsAnyLine | parse_pdf.py:244-275 | after an officer no line is rejected as unrecognised; only an unreadable time fails |
| RecordProperties.HangingOfficerIdIgnored | parse_pdf.py:240-241 | after an officer, an officer line without "ID:" is passed over |
| RecordProperties.TimingUpdatesLastResponder | parse_pdf.py:244-270 | a timing line changes only the last responder's times: each time its line gives becomes that text read by `ReadTime` (an 8-character time is that clock time on the report date, a longer one the stamp as written), and every other time is unchanged |
| RecordProperties.DispatchClockOnReportDate | parse_pdf.py:266-268 | a dispatch time "HH:MM:SS" is that time on the report date |
| RecordProperties.ClearedStampTakenAsWritten | parse_pdf.py:257-258 | a full cleared stamp is taken as written, date included |
| RecordProperties.LocationContinuation | parse_pdf.py:335-336 | after a location, a line without ':' is appended after one space, and a line with ':' is rejected |
| RecordProperties.LocationChangeAppendsOne | parse_pdf.py:167-183 | a "Location Change:" line appends exactly one change: the text before "[Modified", dated exactly when a stamp is found; it fails only on an unreadable stamp |
| RecordProperties.LocationChangeDated | parse_pdf.py:171-174 | a stamp "[Modified: MM/DD/YYYYHHMM]" dates the change at that minute |
| RecordProperties.ModifiedStampReadsBack | parse_pdf.py:173-174 | a stripped, formatted stamp reads back as the time written |
| RecordProperties.ChangedLocationKeepsTextBeforeStamp | parse_pdf.py:177-178 | the location is all the text before the first "[Modified", white space included |
| RecordProperties.UntaggedLineRejected | parse_pdf.py:339-340 | an untagged line is rejected after a tag with no continuation and after a referral with no record of its own |
| RecordProperties.UntaggedLineIgnored | parse_pdf.py:333-338 | after a location change or additional activity, an untagged line is passed over |
| RecordProperties.ReferLineSetsReferral | parse_pdf.py:222-238 | a "Refer" line sets the referral type and id and appends one empty record for custody, arrest or summons; the charges flag is kept |
| RecordProperties.AuxLineTouchesOnlyLastRecord | parse_pdf.py:276-332 | a referral record line changes only the last record, never its kind |
| RecordProperties.ChargesLineStartsCharges | parse_pdf.py:287-290 | a "Charges" line sets the stripped charges and starts the charges |
| RecordProperties.ChargesContinuation | parse_pdf.py:291-292 | once charges have started, an untagged line extends a custody's charges after a comma, or fails if they were never set; for an arrest or summons it is passed over |
| RecordProperties.AuxLineRejected | parse_pdf.py:276-294 | before the charges, a line after a custody (likewise an arrest or summons) that starts with none of the name tag, "Address", "Age" and "Charges" is rejected as unrecognised |
| RecordProperties.AuxNameLineSetsName | parse_pdf.py:277-280 | a "P/C: Last, First" line (or "Arrest:", "Summons:") sets the last record's surname and first name and nothing else of it |
| RecordProperties.AuxAddressLineSetsAddress | parse_pdf.py:281-283 | an "Address:" line sets the last record's address to its text, stripped, and nothing else of it |
| RecordProperties.AuxAgeLineSetsAge | parse_pdf.py:284-286 | an "Age:" line sets the last record's age to the number its digits spell and nothing else of it |
| Report.FirstNonBlank | parse_pdf.py:60-62 | the first non-blank line at or after `i`: every line before it is blank |
| Report.SkipBlank | parse_pdf.py:60-62 | the loop that skips blank lines stops at `FirstNonBlank` |
| Report.CleanLinesAppend | parse_pdf.py:77 | the kept lines of two runs of lines are those of each in turn, so lines are kept in their order |
| Report.CleanLinesOne | parse_pdf.py:77 | one line is kept, stripped, exactly when it is not blank |
| Report.CleanLinesStripped | parse_pdf.py:77 | every kept line is non-empty and stripped |
| Report.StripLines | parse_pdf.py:77 | the list comprehension computes `CleanLines` |
| Report.CleanLinesIdempotent | parse_pdf.py:77 | cleaning the lines twice is cleaning them once |
| Report.ReportDate | parse_pdf.py:64-67 | a date is found exactly when the header pattern finds a date that `%m/%d/%Y` reads (which date: `ReportDateLeftmost`) |
| Report.ReportDateLeftmost | parse_pdf.py:64-67 | the report date is the `%m/%d/%Y` reading of the date group at the first position where the header pattern matches the stripped line |
| Report.ReportDateMissing | parse_pdf.py:64-66 | a line where the header pattern matches nowhere gives the missing-date error |
| Report.ReportDateReads | parse_pdf.py:64-67 | the usual header line "For Date: MM/DD/YYYY" gives that date |
| Report.BodyStart | parse_pdf.py:72-74 | the records start just after the next non-blank line after the date line (the column header), or at the end when there is none |
| Report.ReadStart | parse_pdf.py:57-77 | the part of `main` before the loop computes `StartOf` |
| Report.StartOf | parse_pdf.py:57-77 | the part of `main` before the loop can only stop on a missing line, a missing date or a bad date (what it yields: `StartOfReady`, `StartOfDate`, `StartOfLines`) |
| Report.StartOfReady | parse_pdf.py:57-67 | records are read exactly when the file has a non-blank line from whose stripped text a report date is read |
| Report.StartOfDate | parse_pdf.py:64-67 | the report date is the one read from the first non-blank line, stripped |
| Report.StartOfLines | parse_pdf.py:72-77 | the records are read from the non-blank lines of the file, stripped, after the first two (the date line and the column header) |
| Report.ReadRecords | parse_pdf.py:78-89 | the `while True` loop computes `RecordLoop` |
| Report.ReportSpec | parse_pdf.py:50-90 | an aborted run leaves the database as it was; a run that ends or meets a duplicate commits what its loop stored |
| Report.ParseReport | parse_pdf.py:50-90 | `main` computes `ReportSpec` |
| Report.ReportIds | parse_pdf.py:104 | the report ids of the stored incidents, one per incident in order |
| Report.ReportIdsAppend | parse_pdf.py:104 | the report ids of two runs of incidents are those of each in turn |
| Report.RecordLoopStore | parse_pdf.py:81-89 | while records are read the session only grows and stays keyed by number |
| Report.RecordIds | parse_pdf.py:98-104 | one returned record adds the report id of its header, the only header among its lines |
| Report.CompletedRunStoresEveryRecord | parse_pdf.py:81-89 | a run that reaches the end adds one incident per header line, in order, with that header's report id |
| Report.DuplicateRecordIds | parse_pdf.py:98-104 | a record cut short by a duplicate report began at a header line, and the session holds its incident with that id, or nothing new |
| Report.DuplicateRunStoresRecordsBefore | parse_pdf.py:81-89 | a run that meets a duplicate report has added one incident per header line before the record it cut short, in order, with that header's id, and then that record's incident or nothing |
| Report.ReportCommitsOnlyOnSuccess | parse_pdf.py:81-90 | the database only grows; an aborted run leaves it as it was |
| Report.ReportNeedsDateHeader | parse_pdf.py:59-67 | records are read only after a date is found in the first non-blank line, and with that date |
| Geocode.RemoveTags | geocode.py:20 | `TAGGED_LOCATION_RE.sub("", s)` never lengthens the text |
| Geocode.NoBracketUnchanged | geocode.py:120 | text without '[' comes through tag removal unchanged |
| Geocode.TagRemoved | geocode.py:20 | a one-line bracketed tag goes with the white space around it, and the text around it is kept |
| Geocode.KeptTextIsLastPiece | geocode.py:121-122 | the kept text ends the tag-free text, has no " - ", and is all of it or follows a " - " |
| Geocode.DropZeroNumber | geocode.py:22 | removing a zero house number never lengthens a piece |
| Geocode.DropZeroNumberIsSuffix | geocode.py:22 | removing a zero house number only removes text from the front |
| Geocode.ZeroNumberDropped | geocode.py:22 | a leading "0" and the white space around it are dropped |
| Geocode.NoZeroNumberUnchanged | geocode.py:22 | a piece starting with neither white space nor '0' is unchanged |
| Geocode.HouseNumberShape | geocode.py:21 | a number not starting with 0, then white space, is a house number |
| Geocode.CleanPiecesAt | geocode.py:130-131 | each cleaned piece is its piece without a zero number, stripped |
| Geocode.LastPieceOfSplit | geocode.py:121-122 | the last piece of a split ends the text, lacks the separator, and is all of it or follows a separator |
| Geocode.CleanEachPiece | geocode.py:130-131 | the in-place loop cleans every piece as `CleanPieces` says |
| Geocode.CleanQuery | geocode.py:119-133 | `clean_query` computes `CleanedQuery` |
| Geocode.CleanedQueryHasNoAt | geocode.py:123-132 | the result never contains '@' |
| Geocode.NoAtKeepsText | geocode.py:122-133 | without '@' the kept text is returned unchanged and unstripped, and has no " - " |
| Geocode.PlainQueryUnchanged | geocode.py:119-133 | a query without '[', " - " and '@' comes back as it is |
| Geocode.HouseNumberChosen | geocode.py:124-128 | the first of the first two '@' pieces with a house number is returned stripped, starting with a digit 1-9 |
| Geocode.OnlyFirstTwoPiecesExamined | geocode.py:125-128 | when one of the first two pieces has a house number, the other pieces do not matter |
| Geocode.PiecesJoined | geocode.py:129-132 | otherwise every piece, without a zero number and stripped, is joined in order with " & " |
| Geocode.JoinCanFormDash | geocode.py:130-132 | the join can form " - ": "a -@b" is cleaned to "a - & b" |

## Left out

- Reading the file, `argparse`, `print` and the database engine are not
  modelled. `main` takes the file's lines as a sequence, and the database
  is a value `Store`: officers and dispatchers by number, plus the
  incidents.
- Queries, relationships and the save-update cascade are not modelled.
  The session holds officers, dispatchers and incidents. A responding
  officer, location change or referral record is part of its incident's
  value, not a separate row. An incident left out at a duplicate is in the
  session exactly when something referring to it was added.
- Object identity and aliasing are not modelled. The source mutates the
  incident and its children through several names; the model rebuilds
  values.
- Floating point is not modelled: latitude and longitude are kept as the
  text `float()` accepted.
- Regular expression and `strptime` internals are not modelled. Each
  pattern is a hand-written recogniser with the same matches;
  `strptime` covers only the directives the source uses.
- An empty file makes `main` fail with `NameError`, because `line` is
  unbound. This is modelled as the error `EmptyFile`, without the Python
  exception machinery.
- The `K9_RE` test and the `ParsingError` after a timing line
  (parse_pdf.py:272-275) are not modelled. Every part of `ARRIVAL_RE` is
  optional, so it matches every line and those branches cannot be reached.
- The rest of `geocode.py` (HTTP requests, the web service's answers, the
  database loop) and `retrieve_pdfs.py`, `cleardb.py` and `models.py` are
  not part of this model.
- Geocode.NoAtKeepsText: states that the result has no " - " only when
  there is no '@'. When the pieces are joined, the " & " can complete a
  " - " (see `Geocode.JoinCanFormDash`), so in general the result can
  contain " - ".
- HeaderFields: its contract gives the shape of a match only; which lines it recognises, and with which fields, is proved by `HeaderLineRead` only for a one-word category (a single run of `[A-Z0-9()-/]` followed by one blank) with single blanks between the parts; multi-word categories such as "MOTOR VEHICLE STOP", the "Fraud" and "Police Training Event" alternatives, and other spacings `\s+` allows are not covered by a completeness lemma.
- TimingFields: its contract gives the shape of the groups only; `TimingLineRead` proves which text becomes which group for a full line with all four parts, not for lines with parts missing.
- StaffIdFields: its contract gives the shape of a match only; `StaffIdLineRead` proves the groups for lines with single blanks, not for every spacing `\s+` allows.
- OfficerIdFields: its contract gives the shape of a match only; `OfficerIdLineRead` proves the groups for lines with single blanks, not for every spacing `\s+` allows.
- LatLonFields: its contract gives the shape of a match only; `LatLonLineRead` proves the groups for lines with single blanks, not for every spacing `\s+` allows.
- ReferralFields: its contract gives the shape of a match only; `ReferralLineRead` proves the groups for lines with single blanks, not for every spacing `\s+` allows.
- NameFields: its contract gives the shape of a match only; `NameLineRead` proves the groups for lines with one blank after the tag and one after the comma, not for every spacing `\s*` allows.
- AddressPayload: its contract says only that a match starts with "Address:"; `AddressLineRead` proves the group for one blank after the tag.
- AgePayload: its contract gives the shape of a match only; `AgeLineRead` proves the group for one blank after the tag.
- ChargesPayload: its contract says only that a match starts with "Charges:"; `ChargesLineRead` proves the group for one blank after the tag.
- StartOf: its own contract says only how it can stop; the lines and the date it yields are stated by `StartOfReady`, `StartOfDate` and `StartOfLines`, proved apart to keep each proof small.
- ReportDate: its own contract says when a date is found; which date is stated by `ReportDateLeftmost`, `ReportDateMissing` and `ReportDateReads`.
- DuplicateRunStoresRecordsBefore: says that the incident of the record cut short is either stored last or not stored, not the condition (whether something referring to it was added) that decides which.
- Geocode: the query is text with ASCII white space only. `clean_query` is called on a location read back from the database, which Python 2 returns as `unicode`; `unicode.strip()` also removes U+00A0 and the other Unicode spaces, and that is not modelled.
- Records.AuxRecord: one `age` field stands for the custody's `age_at_custody` and the arrest's and summons' `age`; which column the age is written to is not modelled.

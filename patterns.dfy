/** Hand-written recognisers for the regular expressions of the report
    parser (parse_pdf.py, lines 12-39). Each one follows what Python's `re`
    does on a byte string: `match` anchors at the start of the line,
    `search` takes the leftmost match, greedy runs take as much as they can
    and give characters back only where the rest of the pattern needs them.
    Where a group is optional or a pattern cannot match, the result is
    `None` (the parser then calls `groupdict()` on `None` and fails). */
module Patterns {
  import opened Strings

  /** `.`: any character except a line break. */
  predicate NotNewline(c: char) { c != '\n' }

  /** `[0-9A-z]`, the officer number class. */
  predicate IsDigitOrAtoz(c: char) { IsDigit(c) || IsAtoz(c) }

  /** `[A-z']`, the surname class of the dispatcher and officer lines. */
  predicate IsSurnameChar(c: char) { IsAtoz(c) || c == '\'' }

  /** `[A-z' -]`, the surname class of the custody, arrest and summons lines. */
  predicate IsLongNameChar(c: char) { IsAtoz(c) || c == '\'' || c == ' ' || c == '-' }

  /** `[A-z0-9-\(\)]`, the dispatch-source class of the header. */
  predicate IsSourceChar(c: char) { IsAtoz(c) || IsDigit(c) || c == '-' || c == '(' || c == ')' }

  /** `[A-Z0-9\(\)-/]`: upper-case letters, digits, `(` and the range `)` to `/`. */
  predicate IsCategoryChar(c: char) { 'A' <= c <= 'Z' || IsDigit(c) || c == '(' || (')' <= c <= '/') }

  /** `[\w /]`, the outcome and referral-type class. */
  predicate IsOutcomeChar(c: char) { IsWordChar(c) || c == ' ' || c == '/' }

  /** `[0-9A-z-]`, the referral id class. */
  predicate IsAuxIdChar(c: char) { IsDigit(c) || IsAtoz(c) || c == '-' }

  /** `[0-9\.\+-]`, the coordinate class. */
  predicate IsCoordinateChar(c: char) { IsDigit(c) || c == '.' || c == '+' || c == '-' }

  /** `[0-9/]`, the date class. */
  predicate IsDateChar(c: char) { IsDigit(c) || c == '/' }

  /** `[0-9:]`, the clock class. */
  predicate IsClockChar(c: char) { IsDigit(c) || c == ':' }

  /** The end of `p+` at `i`, if the run is not empty. */
  function Run1(s: string, i: nat, p: char -> bool): (r: Option<nat>)
    requires i <= |s|
    ensures r.Some? ==> i < r.value <= |s| && (forall k :: i <= k < r.value ==> p(s[k]))
    ensures r.Some? ==> r.value == |s| || !p(s[r.value])
    ensures r.None? ==> i == |s| || !p(s[i])
  {
    var j := RunEnd(s, i, p);
    if j > i then Some(j) else None
  }

  /** The end of the literal `lit` at `i`. */
  function Lit(s: string, i: nat, lit: string): (r: Option<nat>)
    ensures r.Some? <==> OccursAt(s, lit, i)
    ensures r.Some? ==> r.value == i + |lit| <= |s|
  {
    if OccursAt(s, lit, i) then Some(i + |lit|) else None
  }

  /** `\s+` followed by the literal `lit`, whose first character is not white
      space (so the run of white space never has to give any back). */
  function SpacedLit(s: string, i: nat, lit: string): (r: Option<nat>)
    requires i <= |s|
    ensures r.Some? ==> i < r.value - |lit| && r.value <= |s| && OccursAt(s, lit, r.value - |lit|)
  {
    match Run1(s, i, IsSpace)
    case None => None
    case Some(j) => Lit(s, j, lit)
  }

  // ---------------------------------------------------------------------
  // The record header

  datatype Header = Header(recid: string, time: string, source: string, category: string, outcome: string)

  /** Where the outcome starts after the first alternative of the category,
      `(([A-Z0-9\(\)-/]+)\s)+`, when the category starts at `q`: each round is
      a run of category characters and one white-space character; the
      repetition takes as many rounds as it can and gives rounds back until
      the outcome (at least one `[\w /]`) can follow. */
  function CategoryRounds(s: string, q: nat): (o: Option<nat>)
    requires q <= |s|
    ensures o.Some? ==> q + 2 <= o.value < |s| && IsSpace(s[o.value - 1]) && IsOutcomeChar(s[o.value])
    ensures o.Some? ==> IsCategoryChar(s[q])
    decreases |s| - q
  {
    var x := RunEnd(s, q, IsCategoryChar);
    if x > q && x < |s| && IsSpace(s[x]) then
      match CategoryRounds(s, x + 1)
      case Some(o) => Some(o)
      case None => if x + 1 < |s| && IsOutcomeChar(s[x + 1]) then Some(x + 1) else None
    else None
  }

  /** Where the outcome starts, trying the three alternatives of the
      category in order. */
  function CategoryEnd(s: string, q: nat): (o: Option<nat>)
    requires q <= |s|
    ensures o.Some? ==> q < o.value < |s| && IsOutcomeChar(s[o.value])
  {
    match CategoryRounds(s, q)
    case Some(o) => Some(o)
    case None =>
      if OccursAt(s, "Fraud", q) && q + 5 < |s| && IsOutcomeChar(s[q + 5]) then Some(q + 5)
      else if OccursAt(s, "Police Training Event", q) && q + 21 < |s| && IsOutcomeChar(s[q + 21]) then Some(q + 21)
      else None
  }

  /** `HEADER_RE.match(line)`: report id (`[0-9]{2}-[0-9]+`), four-digit time,
      source, category and outcome. */
  function HeaderFields(s: string): (r: Option<Header>)
    ensures r.Some? ==> |s| >= 4 && IsDigit(s[0]) && IsDigit(s[1]) && s[2] == '-' && IsDigit(s[3])
    ensures r.Some? ==> StartsWith(s, r.value.recid) && |r.value.recid| >= 4
    ensures r.Some? ==> |r.value.time| == 4 && AllDigits(r.value.time)
    ensures r.Some? ==> r.value.source != [] && r.value.category != [] && r.value.outcome != []
    ensures r.Some? ==> forall k :: 0 <= k < |r.value.outcome| ==> IsOutcomeChar(r.value.outcome[k])
  {
    if |s| < 3 || !IsDigit(s[0]) || !IsDigit(s[1]) || s[2] != '-' then None
    else
      match Run1(s, 3, IsDigit)
      case None => None
      case Some(a) =>
        match Run1(s, a, IsSpace)
        case None => None
        case Some(t) =>
          if t + 4 <= |s| && AllDigits(s[t..t + 4]) then
            match HeaderRest(s, t + 4)
            case None => None
            case Some((source, category, outcome)) => Some(Header(s[..a], s[t..t + 4], source, category, outcome))
          else None
  }

  /** The part of `HEADER_RE` after the time, from `i` on: white space, the
      source, " - " with any white space around the dash, the category and
      the outcome. */
  function HeaderRest(s: string, i: nat): (r: Option<(string, string, string)>)
    requires i <= |s|
    ensures r.Some? ==> r.value.0 != [] && r.value.1 != [] && r.value.2 != []
    ensures r.Some? ==> forall k :: 0 <= k < |r.value.2| ==> IsOutcomeChar(r.value.2[k])
  {
    match Run1(s, i, IsSpace)
    case None => None
    case Some(u) =>
      match Run1(s, u, IsSourceChar)
      case None => None
      case Some(v) =>
        match SpacedLit(s, v, "-")
        case None => None
        case Some(w) =>
          match Run1(s, w, IsSpace)
          case None => None
          case Some(q) =>
            match CategoryEnd(s, q)
            case None => None
            case Some(o) =>
              var e := RunEnd(s, o, IsOutcomeChar);
              Some((s[u..v], s[q..o], s[o..e]))
  }

  predicate IsHeader(s: string) {
    HeaderFields(s).Some?
  }

  // ---------------------------------------------------------------------
  // The report date line

  /** `DATE_HEADER_RE` anchored at `k`: "For", white space, "Date:", white
      space and a run of `[0-9/]`, the date text. */
  function DateHeaderAt(s: string, k: nat): (r: Option<string>)
    requires k <= |s|
    ensures r.Some? ==> OccursAt(s, "For", k) && r.value != []
    ensures r.Some? ==> forall j :: 0 <= j < |r.value| ==> IsDateChar(r.value[j])
  {
    match Lit(s, k, "For")
    case None => None
    case Some(a) =>
      match SpacedLit(s, a, "Date:")
      case None => None
      case Some(b) =>
        match Run1(s, b, IsSpace)
        case None => None
        case Some(c) =>
          match Run1(s, c, IsDateChar)
          case None => None
          case Some(d) => Some(s[c..d])
  }

  /** `DATE_HEADER_RE.search(s)` from `k` on: the leftmost match. */
  function DateHeaderSearch(s: string, k: nat): Option<string>
    requires k <= |s|
    decreases |s| - k
  {
    match DateHeaderAt(s, k)
    case Some(d) => Some(d)
    case None => if k == |s| then None else DateHeaderSearch(s, k + 1)
  }

  // ---------------------------------------------------------------------
  // People: call taker, primary officer, responding officer, hanging id

  datatype Person = Person(number: string, lastName: string, firstName: string)

  /** `(?P<number>N+)\s+-\s+(?P<last_name>L+),\s+(?P<first_name>[A-z]+)` at `i`,
      for a number class `N` and a surname class `L`. */
  function PersonAt(s: string, i: nat, isNumber: char -> bool, isSurname: char -> bool): (r: Option<Person>)
    requires i <= |s|
    ensures r.Some? ==> r.value.number != [] && forall k :: 0 <= k < |r.value.number| ==> isNumber(r.value.number[k])
    ensures r.Some? ==> r.value.lastName != [] && forall k :: 0 <= k < |r.value.lastName| ==> isSurname(r.value.lastName[k])
    ensures r.Some? ==> r.value.firstName != [] && forall k :: 0 <= k < |r.value.firstName| ==> IsAtoz(r.value.firstName[k])
  {
    match Run1(s, i, isNumber)
    case None => None
    case Some(a) =>
      match SpacedLit(s, a, "-")
      case None => None
      case Some(b) =>
        match Run1(s, b, IsSpace)
        case None => None
        case Some(c) =>
          match Run1(s, c, isSurname)
          case None => None
          case Some(d) =>
            match Lit(s, d, ",")
            case None => None
            case Some(e) =>
              match Run1(s, e, IsSpace)
              case None => None
              case Some(f) =>
                match Run1(s, f, IsAtoz)
                case None => None
                case Some(g) => Some(Person(s[i..a], s[c..d], s[f..g]))
  }

  /** `word\s+tag\s+(?P<number>[0-9]+)\s+-\s+(?P<last_name>[A-z']+),\s+(?P<first_name>[A-z]+)`,
      the shape shared by the call taker and primary officer lines. */
  function StaffIdFields(s: string, word: string, tag: string): (r: Option<Person>)
    ensures r.Some? ==> StartsWith(s, word) && AllDigits(r.value.number) && r.value.number != []
  {
    match Lit(s, 0, word)
    case None => None
    case Some(a) =>
      match SpacedLit(s, a, tag)
      case None => None
      case Some(b) =>
        match Run1(s, b, IsSpace)
        case None => None
        case Some(c) => PersonAt(s, c, IsDigit, IsSurnameChar)
  }

  /** `CALL_TAKER_RE.match(s)`. */
  function CallTakerFields(s: string): Option<Person> {
    StaffIdFields(s, "Call", "Taker:")
  }

  /** `PRIMARY_ID_RE.match(s)`. */
  function PrimaryIdFields(s: string): Option<Person> {
    StaffIdFields(s, "Primary", "Id:")
  }

  /** `OFFICER_ID_RE.match(s)`: the number may hold letters (a K9 unit). */
  function OfficerIdFields(s: string): (r: Option<Person>)
    ensures r.Some? ==> StartsWith(s, "ID:") && r.value.number != []
  {
    match Lit(s, 0, "ID:")
    case None => None
    case Some(a) =>
      match Run1(s, a, IsSpace)
      case None => None
      case Some(c) => PersonAt(s, c, IsDigitOrAtoz, IsSurnameChar)
  }

  /** `HANGING_OFFICER_ID_RE.match(s)`: an officer line without the "ID:" tag. */
  predicate IsHangingOfficerId(s: string) {
    PersonAt(s, 0, IsDigit, IsAtoz).Some?
  }

  // ---------------------------------------------------------------------
  // Payloads after a tag

  /** `\s*(?P<x>.*)` at `i`: the text after the white space, up to a line break. */
  function RestAfter(s: string, i: nat): (r: string)
    requires i <= |s|
    ensures exists q: nat :: i <= q && q + |r| <= |s| && OccursAt(s, r, q)
    ensures forall k :: 0 <= k < |r| ==> r[k] != '\n'
    ensures r == [] || !IsSpace(r[0])
  {
    var q := RunEnd(s, i, IsSpace);
    var e := RunEnd(s, q, NotNewline);
    assert OccursAt(s, s[q..e], q);
    s[q..e]
  }

  /** The `addr` group of `LOCATION_RE.match(s)` for a line that starts with
      one of its three tags; `tag` is that tag with its colon. */
  function LocationPayload(s: string, tag: string): (r: string)
    requires StartsWith(s, tag)
    ensures forall k :: 0 <= k < |r| ==> r[k] != '\n'
  {
    RestAfter(s, |tag|)
  }

  /** The `addr` group of `LOCATION_CHANGE_RE.match(s)`: "Location", white
      space, "Change:", then the rest. */
  function LocationChangePayload(s: string): (r: Option<string>)
    ensures r.Some? ==> StartsWith(s, "Location")
    ensures StartsWith(s, "Location Change:") ==> r.Some?
  {
    assert StartsWith(s, "Location Change:") ==>
      s[..16][8] == ' ' && s[..16][9] == 'C' && RunEnd(s, 9, IsSpace) == 9 && s[9..16] == s[..16][9..];
    match Lit(s, 0, "Location")
    case None => None
    case Some(a) =>
      match SpacedLit(s, a, "Change:")
      case None => None
      case Some(b) => Some(RestAfter(s, b))
  }

  /** The `juris` group of `JURISDICTION_RE.match(s)`. */
  function JurisdictionPayload(s: string): (r: Option<string>)
    ensures r.Some? <==> StartsWith(s, "Jurisdiction:")
  {
    match Lit(s, 0, "Jurisdiction:")
    case None => None
    case Some(a) => Some(RestAfter(s, a))
  }

  /** `LAT_LON_RE.match(s)`: the latitude and longitude texts. */
  function LatLonFields(s: string): (r: Option<(string, string)>)
    ensures r.Some? ==> StartsWith(s, "Lat:") && r.value.0 != [] && r.value.1 != []
    ensures r.Some? ==> forall k :: 0 <= k < |r.value.0| ==> IsCoordinateChar(r.value.0[k])
    ensures r.Some? ==> forall k :: 0 <= k < |r.value.1| ==> IsCoordinateChar(r.value.1[k])
  {
    match Lit(s, 0, "Lat:")
    case None => None
    case Some(a) =>
      match Run1(s, a, IsSpace)
      case None => None
      case Some(b) =>
        match Run1(s, b, IsCoordinateChar)
        case None => None
        case Some(c) =>
          match SpacedLit(s, c, "Lon:")
          case None => None
          case Some(d) =>
            match Run1(s, d, IsSpace)
            case None => None
            case Some(e) =>
              match Run1(s, e, IsCoordinateChar)
              case None => None
              case Some(f) => Some((s[b..c], s[e..f]))
  }

  /** What `float()` accepts among texts of coordinate characters: an
      optional sign, then digits with at most one decimal point, and at
      least one digit. */
  predicate IsFloatLiteral(t: string) {
    var body := if t != [] && (t[0] == '+' || t[0] == '-') then t[1..] else t;
    && (exists k :: 0 <= k < |body| && IsDigit(body[k]))
    && (forall k :: 0 <= k < |body| ==> IsDigit(body[k]) || body[k] == '.')
    && (forall j, k :: 0 <= j < k < |body| && body[j] == '.' ==> body[k] != '.')
  }

  /** `MODIFIED_RE` anchored at `k`: "[Modified:", white space, a run of
      `[0-9/]` (the date-and-time text) and "]". */
  function ModifiedAt(s: string, k: nat): (r: Option<string>)
    requires k <= |s|
    ensures r.Some? ==> OccursAt(s, "[Modified:", k) && r.value != []
    ensures r.Some? ==> forall j :: 0 <= j < |r.value| ==> IsDateChar(r.value[j])
  {
    match Lit(s, k, "[Modified:")
    case None => None
    case Some(a) =>
      match Run1(s, a, IsSpace)
      case None => None
      case Some(b) =>
        match Run1(s, b, IsDateChar)
        case None => None
        case Some(c) =>
          match Lit(s, c, "]")
          case None => None
          case Some(_) => Some(s[b..c])
  }

  /** `MODIFIED_RE.search(s)` from `k` on: the leftmost match. */
  function ModifiedSearch(s: string, k: nat): Option<string>
    requires k <= |s|
    decreases |s| - k
  {
    match ModifiedAt(s, k)
    case Some(d) => Some(d)
    case None => if k == |s| then None else ModifiedSearch(s, k + 1)
  }

  // ---------------------------------------------------------------------
  // Referrals and the people they name

  datatype Referral = Referral(auxType: string, auxId: string)

  /** `REFER_TO_AUX_RE` once the white space after "To" (from `p`) has been
      cut at `g`: the referral type runs from `g` to a colon, then white
      space and the id. */
  function ReferralFrom(s: string, g: nat): (r: Option<Referral>)
    requires g <= |s|
    ensures r.Some? ==> r.value.auxType != [] && r.value.auxId != []
    ensures r.Some? ==> forall k :: 0 <= k < |r.value.auxId| ==> IsAuxIdChar(r.value.auxId[k])
  {
    match Run1(s, g, IsOutcomeChar)
    case None => None
    case Some(a) =>
      match Lit(s, a, ":")
      case None => None
      case Some(b) =>
        match Run1(s, b, IsSpace)
        case None => None
        case Some(c) =>
          match Run1(s, c, IsAuxIdChar)
          case None => None
          case Some(d) => Some(Referral(s[g..a], s[c..d]))
  }

  /** `REFER_TO_AUX_RE.match(s)`. The `\s+` after "To" gives back spaces to
      the type (a space is in `[\w /]`) when nothing else would match. */
  function ReferralFields(s: string): (r: Option<Referral>)
    ensures r.Some? ==> StartsWith(s, "Refer") && r.value.auxType != [] && r.value.auxId != []
  {
    match Lit(s, 0, "Refer")
    case None => None
    case Some(a) =>
      match SpacedLit(s, a, "To")
      case None => None
      case Some(p) =>
        var q := RunEnd(s, p, IsSpace);
        if q == p then None else ReferralGivingBack(s, p, q)
  }

  /** `ReferralFrom` with the type starting at `g`, then at `g - 1`, and so
      on down to `p + 1`. */
  function ReferralGivingBack(s: string, p: nat, g: nat): (r: Option<Referral>)
    requires p < g <= |s|
    ensures r.Some? ==> r.value.auxType != [] && r.value.auxId != []
    decreases g
  {
    match ReferralFrom(s, g)
    case Some(x) => Some(x)
    case None => if g == p + 1 then None else ReferralGivingBack(s, p, g - 1)
  }

  datatype Name = Name(lastName: string, firstName: string)

  /** `[A-z' -]+,\s*[A-z]+` from `g`. */
  function NameFrom(s: string, g: nat): (r: Option<Name>)
    requires g <= |s|
    ensures r.Some? ==> r.value.lastName != [] && r.value.firstName != []
    ensures r.Some? ==> forall k :: 0 <= k < |r.value.firstName| ==> IsAtoz(r.value.firstName[k])
  {
    match Run1(s, g, IsLongNameChar)
    case None => None
    case Some(a) =>
      match Lit(s, a, ",")
      case None => None
      case Some(b) =>
        var c := RunEnd(s, b, IsSpace);
        match Run1(s, c, IsAtoz)
        case None => None
        case Some(d) => Some(Name(s[g..a], s[c..d]))
  }

  /** `tag\s*(?P<last_name>[A-z' -]+),\s*(?P<first_name>[A-z]+)` anchored at
      the start, for `tag` one of "P/C:", "Arrest:", "Summons:". The `\s*`
      gives back spaces to the surname when nothing else would match. */
  function NameFields(s: string, tag: string): (r: Option<Name>)
    ensures r.Some? ==> StartsWith(s, tag) && r.value.lastName != [] && r.value.firstName != []
  {
    match Lit(s, 0, tag)
    case None => None
    case Some(p) =>
      NameGivingBack(s, p, RunEnd(s, p, IsSpace))
  }

  /** `NameFrom` at `g`, then at `g - 1`, and so on down to `p`. */
  function NameGivingBack(s: string, p: nat, g: nat): (r: Option<Name>)
    requires p <= g <= |s|
    ensures r.Some? ==> r.value.lastName != [] && r.value.firstName != []
    decreases g
  {
    match NameFrom(s, g)
    case Some(x) => Some(x)
    case None => if g == p then None else NameGivingBack(s, p, g - 1)
  }

  /** `(.+)` from `g`: the text up to a line break, if it is not empty. */
  function LineFrom(s: string, g: nat): (r: Option<string>)
    requires g <= |s|
    ensures r.Some? ==> r.value != [] && forall k :: 0 <= k < |r.value| ==> r.value[k] != '\n'
  {
    match Run1(s, g, NotNewline)
    case None => None
    case Some(e) => Some(s[g..e])
  }

  /** `tag\s*(.+)` (with `least` 0) or `tag\s+(.+)` (with `least` 1) anchored
      at the start: the white space gives characters back to `(.+)` when
      nothing but white space follows it. */
  function TaggedLine(s: string, tag: string, least: nat): (r: Option<string>)
    ensures r.Some? ==> StartsWith(s, tag) && r.value != []
  {
    match Lit(s, 0, tag)
    case None => None
    case Some(p) =>
      var q := RunEnd(s, p, IsSpace);
      if q < p + least then None else LineGivingBack(s, p + least, q)
  }

  /** `LineFrom` at `g`, then at `g - 1`, and so on down to `lo`. */
  function LineGivingBack(s: string, lo: nat, g: nat): (r: Option<string>)
    requires lo <= g <= |s|
    ensures r.Some? ==> r.value != []
    decreases g
  {
    match LineFrom(s, g)
    case Some(x) => Some(x)
    case None => if g == lo then None else LineGivingBack(s, lo, g - 1)
  }

  /** The `address` group of `ADDRESS_RE.match(s)`. */
  function AddressPayload(s: string): (r: Option<string>)
    ensures r.Some? ==> StartsWith(s, "Address:")
  {
    TaggedLine(s, "Address:", 0)
  }

  /** The `charges` group of `CHARGES_RE.match(s)`. */
  function ChargesPayload(s: string): (r: Option<string>)
    ensures r.Some? ==> StartsWith(s, "Charges:")
  {
    TaggedLine(s, "Charges:", 1)
  }

  /** The `age` group of `AGE_RE.match(s)`. */
  function AgePayload(s: string): (r: Option<string>)
    ensures r.Some? ==> StartsWith(s, "Age:") && r.value != [] && AllDigits(r.value)
  {
    match Lit(s, 0, "Age:")
    case None => None
    case Some(a) =>
      var b := RunEnd(s, a, IsSpace);
      match Run1(s, b, IsDigit)
      case None => None
      case Some(c) => Some(s[b..c])
  }

  // ---------------------------------------------------------------------
  // Officer timing lines

  datatype Timing = Timing(dispatched: Option<string>, arrived: Option<string>, cleared: Option<string>)

  /** `[0-9]{2}:[0-9]{2}:[0-9]{2}` at `i`. */
  predicate ClockAt(s: string, i: nat) {
    && i + 8 <= |s|
    && IsDigit(s[i]) && IsDigit(s[i + 1]) && s[i + 2] == ':'
    && IsDigit(s[i + 3]) && IsDigit(s[i + 4]) && s[i + 5] == ':'
    && IsDigit(s[i + 6]) && IsDigit(s[i + 7])
  }

  /** `[0-9/]{10} @ [0-9:]{8}` at `i`. */
  predicate StampAt(s: string, i: nat) {
    && i + 21 <= |s|
    && (forall k :: i <= k < i + 10 ==> IsDateChar(s[k]))
    && s[i + 10] == ' ' && s[i + 11] == '@' && s[i + 12] == ' '
    && (forall k :: i + 13 <= k < i + 21 ==> IsClockChar(s[k]))
  }

  /** `tag` and a clock `[0-9]{2}:[0-9]{2}:[0-9]{2}` at `i`, as the "Disp-"
      and "Arvd-" parts take them: the clock text. */
  function TaggedClockAt(s: string, i: nat, tag: string): (r: Option<string>)
    requires |tag| == 5
    ensures r.Some? <==> OccursAt(s, tag, i) && ClockAt(s, i + 5)
    ensures r.Some? ==> r.value == s[i + 5..i + 13]
  {
    if OccursAt(s, tag, i) && ClockAt(s, i + 5) then Some(s[i + 5..i + 13]) else None
  }

  /** `Enrt-[0-9:]{8}` at `i`. */
  predicate EnrouteAt(s: string, i: nat) {
    OccursAt(s, "Enrt-", i) && i + 13 <= |s| && forall k :: i + 5 <= k < i + 13 ==> IsClockChar(s[k])
  }

  /** `ARRIVAL_RE.match(s)`. Every part of the pattern is optional, so it
      matches every line; a part that is not there leaves its group unset
      and consumes nothing, not even the white space before it. Dispatch
      and arrival are always "HH:MM:SS"; the cleared time is that or a full
      "MM/DD/YYYY @ HH:MM:SS" stamp. */
  function TimingFields(s: string): (r: Timing)
    ensures r.dispatched.Some? ==> StartsWith(s, "Disp-") && |r.dispatched.value| == 8
    ensures r.arrived.Some? ==> |r.arrived.value| == 8
    ensures r.cleared.Some? ==> |r.cleared.value| == 8 || |r.cleared.value| == 21
  {
    var disp := TaggedClockAt(s, 0, "Disp-");
    var p1 := if disp.Some? then 13 else 0;
    var e := RunEnd(s, p1, IsSpace);
    var p2 := if EnrouteAt(s, e) then e + 13 else p1;
    var a := RunEnd(s, p2, IsSpace);
    var arv := TaggedClockAt(s, a, "Arvd-");
    var p3 := if arv.Some? then a + 13 else p2;
    Timing(disp, arv, ClearedAt(s, RunEnd(s, p3, IsSpace)))
  }

  /** The cleared part of `ARRIVAL_RE` at `c`: "Clrd-" and a clock, or a full
      stamp. */
  function ClearedAt(s: string, c: nat): (r: Option<string>)
    ensures r.Some? ==> |r.value| == 8 || |r.value| == 21
  {
    if !OccursAt(s, "Clrd-", c) then None
    else if ClockAt(s, c + 5) then Some(s[c + 5..c + 13])
    else if StampAt(s, c + 5) then Some(s[c + 5..c + 26])
    else None
  }
}

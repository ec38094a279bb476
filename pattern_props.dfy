/** What the recognisers of the report parser accept: a line written in the
    form a pattern describes is recognised, and its groups are the parts it
    was written from. Each lemma builds the line from its parts, with one
    blank wherever the pattern has `\s+` or `\s*`, and follows the
    recogniser along it one piece at a time. */
module PatternProperties {
  import opened Strings
  import opened Patterns

  // ---------------------------------------------------------------------
  // One piece at a time

  /** The text after `a` when the text from `i` is `a + b`. */
  lemma After(s: string, i: nat, a: string, b: string)
    requires i <= |s| && s[i..] == a + b
    ensures i + |a| <= |s| && s[i + |a|..] == b
  {
    assert s[i + |a|..] == s[i..][|a|..];
  }

  /** The text `a` itself when the text from `i` is `a + b`. */
  lemma Take(s: string, i: nat, a: string, b: string)
    requires i <= |s| && s[i..] == a + b
    ensures i + |a| <= |s| && s[i..i + |a|] == a
  {
    assert s[i..i + |a|] == s[i..][..|a|];
  }

  /** A maximal run `t` of `p` at `i`, followed by `u`. */
  lemma RunOver(s: string, i: nat, t: string, u: string, p: char -> bool)
    requires i <= |s| && s[i..] == t + u
    requires t != [] && (forall k :: 0 <= k < |t| ==> p(t[k]))
    requires u == [] || !p(u[0])
    ensures Run1(s, i, p) == Some(i + |t|)
  {
    assert forall k :: i <= k < i + |t| ==> s[k] == s[i..][k - i];
    assert i + |t| < |s| ==> s[i + |t|] == s[i..][|t|];
    RunEndIs(s, i, i + |t|, p);
  }

  /** The literal `lit` at `i`, followed by `u`. */
  lemma LitOver(s: string, i: nat, lit: string, u: string)
    requires i <= |s| && s[i..] == lit + u
    ensures Lit(s, i, lit) == Some(i + |lit|)
  {
    assert s[i..i + |lit|] == s[i..][..|lit|];
  }

  /** One blank at `i`, followed by `u`, which does not start with white space. */
  lemma BlankOver(s: string, i: nat, u: string)
    requires i <= |s| && s[i..] == " " + u
    requires u == [] || !IsSpace(u[0])
    ensures Run1(s, i, IsSpace) == Some(i + 1)
  {
    RunOver(s, i, " ", u, IsSpace);
  }

  /** One blank and the literal `lit` at `i`, followed by `u`. */
  lemma SpacedLitOver(s: string, i: nat, lit: string, u: string)
    requires i <= |s| && s[i..] == " " + (lit + u)
    requires lit != [] && !IsSpace(lit[0])
    ensures SpacedLit(s, i, lit) == Some(i + 1 + |lit|)
  {
    BlankOver(s, i, lit + u);
    After(s, i, " ", lit + u);
    LitOver(s, i + 1, lit, u);
  }

  /** `\s+-\s+` at `i`, written " - ", followed by `u`. */
  lemma DashOver(s: string, i: nat, u: string)
    requires i <= |s| && s[i..] == " - " + u
    requires u != [] && !IsSpace(u[0])
    ensures SpacedLit(s, i, "-") == Some(i + 2) && Run1(s, i + 2, IsSpace) == Some(i + 3)
  {
    assert " - " + u == " " + ("-" + (" " + u)) == " -" + (" " + u);
    SpacedLitOver(s, i, "-", " " + u);
    After(s, i, " -", " " + u);
    BlankOver(s, i + 2, u);
  }

  /** A one-character `mark` and `\s+` (or `\s*`) at `i`, written with one
      blank, followed by `u`: the ", " and ": " of the patterns. */
  lemma MarkOver(s: string, i: nat, mark: string, u: string)
    requires i <= |s| && s[i..] == mark + " " + u && |mark| == 1
    requires u != [] && !IsSpace(u[0])
    ensures Lit(s, i, mark) == Some(i + 1) && Run1(s, i + 1, IsSpace) == Some(i + 2)
  {
    assert mark + " " + u == mark + (" " + u);
    LitOver(s, i, mark, " " + u);
    After(s, i, mark, " " + u);
    BlankOver(s, i + 1, u);
  }

  // ---------------------------------------------------------------------
  // One piece after a prefix `pre` of the text from `i`

  lemma RunAt(s: string, i: nat, pre: string, t: string, u: string, p: char -> bool, at: nat, end: nat)
    requires i <= |s| && s[i..] == pre + (t + u) && at == i + |pre| && end == at + |t|
    requires t != [] && (forall k :: 0 <= k < |t| ==> p(t[k]))
    requires u == [] || !p(u[0])
    ensures Run1(s, at, p) == Some(end)
  {
    After(s, i, pre, t + u);
    RunOver(s, at, t, u, p);
  }

  lemma SliceAt(s: string, i: nat, pre: string, t: string, u: string, at: nat, end: nat)
    requires i <= |s| && s[i..] == pre + (t + u) && at == i + |pre| && end == at + |t|
    ensures at <= end <= |s| && s[at..end] == t
  {
    After(s, i, pre, t + u);
    Take(s, at, t, u);
  }

  lemma LitAt(s: string, i: nat, pre: string, lit: string, u: string, at: nat)
    requires i <= |s| && s[i..] == pre + (lit + u) && at == i + |pre|
    ensures Lit(s, at, lit) == Some(at + |lit|)
  {
    After(s, i, pre, lit + u);
    LitOver(s, at, lit, u);
  }

  lemma BlankAt(s: string, i: nat, pre: string, u: string, at: nat)
    requires i <= |s| && s[i..] == pre + (" " + u) && at == i + |pre|
    requires u == [] || !IsSpace(u[0])
    ensures Run1(s, at, IsSpace) == Some(at + 1)
  {
    After(s, i, pre, " " + u);
    BlankOver(s, at, u);
  }

  lemma SpacedLitAt(s: string, i: nat, pre: string, lit: string, u: string, at: nat)
    requires i <= |s| && s[i..] == pre + (" " + (lit + u)) && at == i + |pre|
    requires lit != [] && !IsSpace(lit[0])
    ensures SpacedLit(s, at, lit) == Some(at + 1 + |lit|)
  {
    After(s, i, pre, " " + (lit + u));
    SpacedLitOver(s, at, lit, u);
  }

  lemma DashAt(s: string, i: nat, pre: string, u: string, at: nat)
    requires i <= |s| && s[i..] == pre + (" - " + u) && at == i + |pre|
    requires u != [] && !IsSpace(u[0])
    ensures SpacedLit(s, at, "-") == Some(at + 2) && Run1(s, at + 2, IsSpace) == Some(at + 3)
  {
    After(s, i, pre, " - " + u);
    DashOver(s, at, u);
  }

  lemma MarkAt(s: string, i: nat, pre: string, mark: string, u: string, at: nat)
    requires i <= |s| && s[i..] == pre + (mark + " " + u) && at == i + |pre| && |mark| == 1
    requires u != [] && !IsSpace(u[0])
    ensures Lit(s, at, mark) == Some(at + 1) && Run1(s, at + 1, IsSpace) == Some(at + 2)
  {
    After(s, i, pre, mark + " " + u);
    MarkOver(s, at, mark, u);
  }

  // ---------------------------------------------------------------------
  // People

  /** The groupings of `number - last, first` that the steps take apart. */
  lemma PersonPieces(number: string, last: string, first: string, rest: string)
    ensures var line := number + " - " + last + ", " + first + rest;
            && line == [] + (number + (" - " + last + ", " + first + rest))
            && line == number + (" - " + (last + ", " + first + rest))
            && line == number + " - " + (last + (", " + first + rest))
            && line == number + " - " + last + (", " + (first + rest))
            && line == number + " - " + last + ", " + (first + rest)
  {
  }

  /** `PersonAt` from the ends of its runs and the groups between them. */
  lemma PersonAtFrom(s: string, i: nat, a: nat, d: nat, g: nat, isNumber: char -> bool, isSurname: char -> bool,
                     number: string, last: string, first: string)
    requires i <= |s|
    requires Run1(s, i, isNumber) == Some(a)
    requires SpacedLit(s, a, "-") == Some(a + 2) && Run1(s, a + 2, IsSpace) == Some(a + 3)
    requires Run1(s, a + 3, isSurname) == Some(d) && Lit(s, d, ",") == Some(d + 1) && Run1(s, d + 1, IsSpace) == Some(d + 2)
    requires Run1(s, d + 2, IsAtoz) == Some(g)
    requires g <= |s| && s[i..a] == number && s[a + 3..d] == last && s[d + 2..g] == first
    ensures PersonAt(s, i, isNumber, isSurname) == Some(Person(number, last, first))
  {
  }

  /** The three groups of `number - last, first` at `i`. */
  lemma PersonGroups(s: string, i: nat, number: string, last: string, first: string, rest: string, a: nat, d: nat, g: nat)
    requires i <= |s| && s[i..] == number + " - " + last + ", " + first + rest
    requires a == i + |number| && d == a + 3 + |last| && g == d + 2 + |first|
    ensures g <= |s| && s[i..a] == number && s[a + 3..d] == last && s[d + 2..g] == first
  {
    PersonPieces(number, last, first, rest);
    SliceAt(s, i, [], number, " - " + last + ", " + first + rest, i, a);
    SliceAt(s, i, number + " - ", last, ", " + first + rest, a + 3, d);
    SliceAt(s, i, number + " - " + last + ", ", first, rest, d + 2, g);
  }

  lemma PersonNumber(s: string, i: nat, number: string, last: string, first: string, rest: string,
                     isNumber: char -> bool, a: nat)
    requires i <= |s| && s[i..] == number + " - " + last + ", " + first + rest
    requires number != [] && (forall k :: 0 <= k < |number| ==> isNumber(number[k])) && !isNumber(' ')
    requires a == i + |number|
    ensures Run1(s, i, isNumber) == Some(a)
  {
    assert number + " - " + last + ", " + first + rest == number + (" - " + last + ", " + first + rest);
    RunOver(s, i, number, " - " + last + ", " + first + rest, isNumber);
  }

  lemma PersonDash(s: string, i: nat, number: string, last: string, first: string, rest: string, a: nat)
    requires i <= |s| && s[i..] == number + " - " + last + ", " + first + rest
    requires last != [] && !IsSpace(last[0])
    requires a == i + |number|
    ensures SpacedLit(s, a, "-") == Some(a + 2) && Run1(s, a + 2, IsSpace) == Some(a + 3)
  {
    assert number + " - " + last + ", " + first + rest == number + (" - " + (last + ", " + first + rest));
    DashAt(s, i, number, last + ", " + first + rest, a);
  }

  lemma PersonSurname(s: string, i: nat, number: string, last: string, first: string, rest: string,
                      isSurname: char -> bool, a: nat, d: nat)
    requires i <= |s| && s[i..] == number + " - " + last + ", " + first + rest
    requires last != [] && (forall k :: 0 <= k < |last| ==> isSurname(last[k])) && !isSurname(',')
    requires a == i + |number| && d == a + 3 + |last|
    ensures Run1(s, a + 3, isSurname) == Some(d)
  {
    assert number + " - " + last + ", " + first + rest == number + " - " + (last + (", " + first + rest));
    RunAt(s, i, number + " - ", last, ", " + first + rest, isSurname, a + 3, d);
  }

  lemma PersonComma(s: string, i: nat, number: string, last: string, first: string, rest: string, d: nat)
    requires i <= |s| && s[i..] == number + " - " + last + ", " + first + rest
    requires first != [] && IsAtoz(first[0])
    requires d == i + |number| + 3 + |last|
    ensures Lit(s, d, ",") == Some(d + 1) && Run1(s, d + 1, IsSpace) == Some(d + 2)
  {
    assert number + " - " + last + ", " + first + rest == number + " - " + last + ("," + " " + (first + rest));
    MarkAt(s, i, number + " - " + last, ",", first + rest, d);
  }

  lemma PersonFirst(s: string, i: nat, number: string, last: string, first: string, rest: string, d: nat, g: nat)
    requires i <= |s| && s[i..] == number + " - " + last + ", " + first + rest
    requires first != [] && forall k :: 0 <= k < |first| ==> IsAtoz(first[k])
    requires rest == [] || !IsAtoz(rest[0])
    requires d == i + |number| + 3 + |last| && g == d + 2 + |first|
    ensures Run1(s, d + 2, IsAtoz) == Some(g)
  {
    assert number + " - " + last + ", " + first + rest == number + " - " + last + ", " + (first + rest);
    RunAt(s, i, number + " - " + last + ", ", first, rest, IsAtoz, d + 2, g);
  }

  /** `number - last, first` at `i`, for number and surname classes that
      stop at the blank and the comma that follow them. */
  lemma PersonAtReads(s: string, i: nat, number: string, last: string, first: string, rest: string,
                      isNumber: char -> bool, isSurname: char -> bool)
    requires i <= |s| && s[i..] == number + " - " + last + ", " + first + rest
    requires number != [] && (forall k :: 0 <= k < |number| ==> isNumber(number[k])) && !isNumber(' ')
    requires last != [] && (forall k :: 0 <= k < |last| ==> isSurname(last[k])) && !isSurname(',') && !IsSpace(last[0])
    requires first != [] && forall k :: 0 <= k < |first| ==> IsAtoz(first[k])
    requires rest == [] || !IsAtoz(rest[0])
    ensures PersonAt(s, i, isNumber, isSurname) == Some(Person(number, last, first))
  {
    var a := i + |number|;
    var d := a + 3 + |last|;
    var g := d + 2 + |first|;
    PersonNumber(s, i, number, last, first, rest, isNumber, a);
    PersonDash(s, i, number, last, first, rest, a);
    PersonSurname(s, i, number, last, first, rest, isSurname, a, d);
    PersonComma(s, i, number, last, first, rest, d);
    PersonFirst(s, i, number, last, first, rest, d, g);
    PersonGroups(s, i, number, last, first, rest, a, d, g);
    PersonAtFrom(s, i, a, d, g, isNumber, isSurname, number, last, first);
  }

  // ---------------------------------------------------------------------
  // A tag, one blank and what follows

  lemma TagLit(s: string, tag: string, pl: string)
    requires s == tag + " " + pl
    ensures Lit(s, 0, tag) == Some(|tag|)
  {
    assert s[0..] == tag + (" " + pl);
    LitOver(s, 0, tag, " " + pl);
  }

  lemma TagBlank(s: string, tag: string, pl: string, at: nat)
    requires s == tag + " " + pl && at == |tag|
    requires pl != [] && !IsSpace(pl[0])
    ensures Run1(s, at, IsSpace) == Some(at + 1)
  {
    assert s[0..] == tag + (" " + pl);
    BlankAt(s, 0, tag, pl, at);
  }

  lemma TagRest(s: string, tag: string, pl: string, at: nat)
    requires s == tag + " " + pl && at == |tag| + 1
    ensures at <= |s| && s[at..] == pl
  {
    assert s[0..] == tag + " " + pl;
    After(s, 0, tag + " ", pl);
  }

  /** `word` and `tag` with one blank between them, as "Call Taker:". */
  lemma WordTag(s: string, word: string, tag: string, pl: string)
    requires s == word + " " + tag + " " + pl
    requires tag != [] && !IsSpace(tag[0])
    ensures Lit(s, 0, word) == Some(|word|) && SpacedLit(s, |word|, tag) == Some(|word| + 1 + |tag|)
    ensures |word| + 1 + |tag| <= |s|
  {
    assert s[0..] == word + (" " + (tag + (" " + pl)));
    LitOver(s, 0, word, " " + (tag + (" " + pl)));
    SpacedLitAt(s, 0, word, tag, " " + pl, |word|);
  }

  // ---------------------------------------------------------------------
  // The staff and officer lines

  /** `StaffIdFields` from the ends of its pieces. */
  lemma StaffIdFrom(s: string, word: string, tag: string, b: nat, c: nat, person: Person)
    requires b <= |s| && Lit(s, 0, word) == Some(|word|) && SpacedLit(s, |word|, tag) == Some(b)
    requires Run1(s, b, IsSpace) == Some(c) && PersonAt(s, c, IsDigit, IsSurnameChar) == Some(person)
    ensures StaffIdFields(s, word, tag) == Some(person)
  {
  }

  /** A line `word tag number - last, first` is read by `StaffIdFields` with
      those groups, as the call-taker and primary-officer patterns do. */
  lemma StaffIdLineRead(word: string, tag: string, number: string, last: string, first: string, rest: string)
    requires tag != [] && !IsSpace(tag[0])
    requires number != [] && AllDigits(number)
    requires last != [] && forall k :: 0 <= k < |last| ==> IsSurnameChar(last[k])
    requires first != [] && forall k :: 0 <= k < |first| ==> IsAtoz(first[k])
    requires rest == [] || !IsAtoz(rest[0])
    ensures StaffIdFields(word + " " + tag + " " + (number + " - " + last + ", " + first + rest), word, tag)
            == Some(Person(number, last, first))
  {
    var pl := number + " - " + last + ", " + first + rest;
    var s := word + " " + tag + " " + pl;
    var b := |word| + 1 + |tag|;
    var c := b + 1;
    assert pl[0] == number[0];
    WordTag(s, word, tag, pl);
    TagBlank(s, word + " " + tag, pl, b);
    TagRest(s, word + " " + tag, pl, c);
    PersonAtReads(s, c, number, last, first, rest, IsDigit, IsSurnameChar);
    StaffIdFrom(s, word, tag, b, c, Person(number, last, first));
  }

  /** A line `ID: number - last, first` is read by `OfficerIdFields` with
      those groups; the number may hold letters. */
  lemma OfficerIdLineRead(number: string, last: string, first: string, rest: string)
    requires number != [] && forall k :: 0 <= k < |number| ==> IsDigitOrAtoz(number[k])
    requires last != [] && forall k :: 0 <= k < |last| ==> IsSurnameChar(last[k])
    requires first != [] && forall k :: 0 <= k < |first| ==> IsAtoz(first[k])
    requires rest == [] || !IsAtoz(rest[0])
    ensures OfficerIdFields("ID:" + " " + (number + " - " + last + ", " + first + rest)) == Some(Person(number, last, first))
  {
    var pl := number + " - " + last + ", " + first + rest;
    var s := "ID:" + " " + pl;
    assert pl[0] == number[0];
    TagLit(s, "ID:", pl);
    TagBlank(s, "ID:", pl, 3);
    TagRest(s, "ID:", pl, 4);
    PersonAtReads(s, 4, number, last, first, rest, IsDigitOrAtoz, IsSurnameChar);
  }

  // ---------------------------------------------------------------------
  // The custody, arrest and summons names

  lemma NameSurname(s: string, g: nat, last: string, first: string, rest: string, a: nat)
    requires g <= |s| && s[g..] == last + ", " + first + rest
    requires last != [] && forall k :: 0 <= k < |last| ==> IsLongNameChar(last[k])
    requires a == g + |last|
    ensures Run1(s, g, IsLongNameChar) == Some(a)
  {
    assert last + ", " + first + rest == last + (", " + first + rest);
    RunOver(s, g, last, ", " + first + rest, IsLongNameChar);
  }

  lemma NameComma(s: string, g: nat, last: string, first: string, rest: string, a: nat)
    requires g <= |s| && s[g..] == last + ", " + first + rest
    requires first != [] && IsAtoz(first[0])
    requires a == g + |last|
    ensures Lit(s, a, ",") == Some(a + 1) && Run1(s, a + 1, IsSpace) == Some(a + 2)
  {
    assert last + ", " + first + rest == last + ("," + " " + (first + rest));
    MarkAt(s, g, last, ",", first + rest, a);
  }

  lemma NameFirst(s: string, g: nat, last: string, first: string, rest: string, a: nat, e: nat)
    requires g <= |s| && s[g..] == last + ", " + first + rest
    requires first != [] && forall k :: 0 <= k < |first| ==> IsAtoz(first[k])
    requires rest == [] || !IsAtoz(rest[0])
    requires a == g + |last| && e == a + 2 + |first|
    ensures Run1(s, a + 2, IsAtoz) == Some(e)
  {
    assert last + ", " + first + rest == last + ", " + (first + rest);
    RunAt(s, g, last + ", ", first, rest, IsAtoz, a + 2, e);
  }

  lemma NameGroups(s: string, g: nat, last: string, first: string, rest: string, a: nat, e: nat)
    requires g <= |s| && s[g..] == last + ", " + first + rest
    requires a == g + |last| && e == a + 2 + |first|
    ensures e <= |s| && s[g..a] == last && s[a + 2..e] == first
  {
    assert last + ", " + first + rest == last + (", " + first + rest);
    Take(s, g, last, ", " + first + rest);
    assert last + ", " + first + rest == last + ", " + (first + rest);
    SliceAt(s, g, last + ", ", first, rest, a + 2, e);
  }

  /** `NameFrom` from the ends of its runs and the groups between them. */
  lemma NameFromOf(s: string, g: nat, a: nat, e: nat, last: string, first: string)
    requires g <= |s|
    requires Run1(s, g, IsLongNameChar) == Some(a) && Lit(s, a, ",") == Some(a + 1)
    requires Run1(s, a + 1, IsSpace) == Some(a + 2) && Run1(s, a + 2, IsAtoz) == Some(e)
    requires s[g..a] == last && s[a + 2..e] == first
    ensures NameFrom(s, g) == Some(Name(last, first))
  {
  }

  /** `last, first` at `g` is read by `NameFrom` with those groups. */
  lemma NameFromReads(s: string, g: nat, last: string, first: string, rest: string)
    requires g <= |s| && s[g..] == last + ", " + first + rest
    requires last != [] && forall k :: 0 <= k < |last| ==> IsLongNameChar(last[k])
    requires first != [] && forall k :: 0 <= k < |first| ==> IsAtoz(first[k])
    requires rest == [] || !IsAtoz(rest[0])
    ensures NameFrom(s, g) == Some(Name(last, first))
  {
    var a := g + |last|;
    var e := a + 2 + |first|;
    NameSurname(s, g, last, first, rest, a);
    NameComma(s, g, last, first, rest, a);
    NameFirst(s, g, last, first, rest, a, e);
    NameGroups(s, g, last, first, rest, a, e);
    NameFromOf(s, g, a, e, last, first);
  }

  /** `NameFields` from the end of its tag and of the blank after it. */
  lemma NameFieldsFrom(s: string, tag: string, g: nat, name: Name)
    requires g <= |s| && Lit(s, 0, tag) == Some(|tag|) && Run1(s, |tag|, IsSpace) == Some(g)
    requires NameFrom(s, g) == Some(name)
    ensures NameFields(s, tag) == Some(name)
  {
  }

  /** A line `tag last, first` (the tag "P/C:", "Arrest:" or "Summons:") is
      read by `NameFields` with those groups; the surname may hold blanks,
      hyphens and apostrophes. */
  lemma NameLineRead(tag: string, last: string, first: string, rest: string)
    requires last != [] && !IsSpace(last[0]) && forall k :: 0 <= k < |last| ==> IsLongNameChar(last[k])
    requires first != [] && forall k :: 0 <= k < |first| ==> IsAtoz(first[k])
    requires rest == [] || !IsAtoz(rest[0])
    ensures NameFields(tag + " " + (last + ", " + first + rest), tag) == Some(Name(last, first))
  {
    var pl := last + ", " + first + rest;
    var s := tag + " " + pl;
    var g := |tag| + 1;
    assert pl[0] == last[0];
    TagLit(s, tag, pl);
    TagBlank(s, tag, pl, |tag|);
    TagRest(s, tag, pl, g);
    NameFromReads(s, g, last, first, rest);
    NameFieldsFrom(s, tag, g, Name(last, first));
  }

  // ---------------------------------------------------------------------
  // Referrals

  lemma ReferralType(s: string, g: nat, kind: string, id: string, rest: string, a: nat)
    requires g <= |s| && s[g..] == kind + ": " + id + rest
    requires kind != [] && forall k :: 0 <= k < |kind| ==> IsOutcomeChar(kind[k])
    requires a == g + |kind|
    ensures Run1(s, g, IsOutcomeChar) == Some(a)
  {
    assert kind + ": " + id + rest == kind + (": " + id + rest);
    RunOver(s, g, kind, ": " + id + rest, IsOutcomeChar);
  }

  lemma ReferralColon(s: string, g: nat, kind: string, id: string, rest: string, a: nat)
    requires g <= |s| && s[g..] == kind + ": " + id + rest
    requires id != [] && IsAuxIdChar(id[0])
    requires a == g + |kind|
    ensures Lit(s, a, ":") == Some(a + 1) && Run1(s, a + 1, IsSpace) == Some(a + 2)
  {
    assert kind + ": " + id + rest == kind + (":" + " " + (id + rest));
    MarkAt(s, g, kind, ":", id + rest, a);
  }

  lemma ReferralId(s: string, g: nat, kind: string, id: string, rest: string, a: nat, e: nat)
    requires g <= |s| && s[g..] == kind + ": " + id + rest
    requires id != [] && forall k :: 0 <= k < |id| ==> IsAuxIdChar(id[k])
    requires rest == [] || !IsAuxIdChar(rest[0])
    requires a == g + |kind| && e == a + 2 + |id|
    ensures Run1(s, a + 2, IsAuxIdChar) == Some(e)
  {
    assert kind + ": " + id + rest == kind + ": " + (id + rest);
    RunAt(s, g, kind + ": ", id, rest, IsAuxIdChar, a + 2, e);
  }

  lemma ReferralGroups(s: string, g: nat, kind: string, id: string, rest: string, a: nat, e: nat)
    requires g <= |s| && s[g..] == kind + ": " + id + rest
    requires a == g + |kind| && e == a + 2 + |id|
    ensures e <= |s| && s[g..a] == kind && s[a + 2..e] == id
  {
    assert kind + ": " + id + rest == kind + (": " + id + rest);
    Take(s, g, kind, ": " + id + rest);
    assert kind + ": " + id + rest == kind + ": " + (id + rest);
    SliceAt(s, g, kind + ": ", id, rest, a + 2, e);
  }

  /** `ReferralFrom` from the ends of its runs and the groups between them. */
  lemma ReferralFromOf(s: string, g: nat, a: nat, e: nat, kind: string, id: string)
    requires g <= |s|
    requires Run1(s, g, IsOutcomeChar) == Some(a) && Lit(s, a, ":") == Some(a + 1)
    requires Run1(s, a + 1, IsSpace) == Some(a + 2) && Run1(s, a + 2, IsAuxIdChar) == Some(e)
    requires s[g..a] == kind && s[a + 2..e] == id
    ensures ReferralFrom(s, g) == Some(Referral(kind, id))
  {
  }

  /** `kind: id` at `g` is read by `ReferralFrom` with those groups. */
  lemma ReferralFromReads(s: string, g: nat, kind: string, id: string, rest: string)
    requires g <= |s| && s[g..] == kind + ": " + id + rest
    requires kind != [] && forall k :: 0 <= k < |kind| ==> IsOutcomeChar(kind[k])
    requires id != [] && forall k :: 0 <= k < |id| ==> IsAuxIdChar(id[k])
    requires rest == [] || !IsAuxIdChar(rest[0])
    ensures ReferralFrom(s, g) == Some(Referral(kind, id))
  {
    var a := g + |kind|;
    var e := a + 2 + |id|;
    ReferralType(s, g, kind, id, rest, a);
    ReferralColon(s, g, kind, id, rest, a);
    ReferralId(s, g, kind, id, rest, a, e);
    ReferralGroups(s, g, kind, id, rest, a, e);
    ReferralFromOf(s, g, a, e, kind, id);
  }

  /** `ReferralFields` from the ends of "Refer", "To" and the blank after it. */
  lemma ReferralFieldsFrom(s: string, referral: Referral)
    requires 9 <= |s| && Lit(s, 0, "Refer") == Some(5) && SpacedLit(s, 5, "To") == Some(8)
    requires Run1(s, 8, IsSpace) == Some(9) && ReferralFrom(s, 9) == Some(referral)
    ensures ReferralFields(s) == Some(referral)
  {
  }

  /** A line `Refer To kind: id` is read by `ReferralFields` with those
      groups; the kind may hold blanks and slashes. */
  lemma ReferralLineRead(kind: string, id: string, rest: string)
    requires kind != [] && !IsSpace(kind[0]) && forall k :: 0 <= k < |kind| ==> IsOutcomeChar(kind[k])
    requires id != [] && forall k :: 0 <= k < |id| ==> IsAuxIdChar(id[k])
    requires rest == [] || !IsAuxIdChar(rest[0])
    ensures ReferralFields("Refer" + " " + "To" + " " + (kind + ": " + id + rest)) == Some(Referral(kind, id))
  {
    var pl := kind + ": " + id + rest;
    var s := "Refer" + " " + "To" + " " + pl;
    assert pl[0] == kind[0];
    WordTag(s, "Refer", "To", pl);
    TagBlank(s, "Refer" + " " + "To", pl, 8);
    TagRest(s, "Refer" + " " + "To", pl, 9);
    ReferralFromReads(s, 9, kind, id, rest);
    ReferralFieldsFrom(s, Referral(kind, id));
  }

  // ---------------------------------------------------------------------
  // Coordinates, age and the free-text payloads

  lemma LatitudeRun(s: string, lat: string, lon: string, rest: string, c: nat)
    requires 5 <= |s| && s[5..] == lat + " Lon: " + lon + rest
    requires lat != [] && forall k :: 0 <= k < |lat| ==> IsCoordinateChar(lat[k])
    requires c == 5 + |lat|
    ensures Run1(s, 5, IsCoordinateChar) == Some(c)
  {
    assert lat + " Lon: " + lon + rest == lat + (" Lon: " + lon + rest);
    RunOver(s, 5, lat, " Lon: " + lon + rest, IsCoordinateChar);
  }

  lemma LongitudeTag(s: string, lat: string, lon: string, rest: string, c: nat)
    requires 5 <= |s| && s[5..] == lat + " Lon: " + lon + rest
    requires lon != [] && IsCoordinateChar(lon[0])
    requires c == 5 + |lat|
    ensures SpacedLit(s, c, "Lon:") == Some(c + 5) && Run1(s, c + 5, IsSpace) == Some(c + 6)
  {
    assert lat + " Lon: " + lon + rest == lat + (" " + ("Lon:" + (" " + (lon + rest))));
    SpacedLitAt(s, 5, lat, "Lon:", " " + (lon + rest), c);
    assert lat + " Lon: " + lon + rest == lat + " Lon:" + (" " + (lon + rest));
    BlankAt(s, 5, lat + " Lon:", lon + rest, c + 5);
  }

  lemma LongitudeRun(s: string, lat: string, lon: string, rest: string, c: nat, f: nat)
    requires 5 <= |s| && s[5..] == lat + " Lon: " + lon + rest
    requires lon != [] && forall k :: 0 <= k < |lon| ==> IsCoordinateChar(lon[k])
    requires rest == [] || !IsCoordinateChar(rest[0])
    requires c == 5 + |lat| && f == c + 6 + |lon|
    ensures Run1(s, c + 6, IsCoordinateChar) == Some(f)
  {
    assert lat + " Lon: " + lon + rest == lat + " Lon: " + (lon + rest);
    RunAt(s, 5, lat + " Lon: ", lon, rest, IsCoordinateChar, c + 6, f);
  }

  lemma CoordinateGroups(s: string, lat: string, lon: string, rest: string, c: nat, f: nat)
    requires 5 <= |s| && s[5..] == lat + " Lon: " + lon + rest
    requires c == 5 + |lat| && f == c + 6 + |lon|
    ensures f <= |s| && s[5..c] == lat && s[c + 6..f] == lon
  {
    assert lat + " Lon: " + lon + rest == lat + (" Lon: " + lon + rest);
    Take(s, 5, lat, " Lon: " + lon + rest);
    assert lat + " Lon: " + lon + rest == lat + " Lon: " + (lon + rest);
    SliceAt(s, 5, lat + " Lon: ", lon, rest, c + 6, f);
  }

  /** `LatLonFields` from the ends of its pieces and the two groups. */
  lemma LatLonFrom(s: string, c: nat, f: nat, lat: string, lon: string)
    requires 5 <= |s| && Lit(s, 0, "Lat:") == Some(4) && Run1(s, 4, IsSpace) == Some(5)
    requires Run1(s, 5, IsCoordinateChar) == Some(c) && SpacedLit(s, c, "Lon:") == Some(c + 5)
    requires Run1(s, c + 5, IsSpace) == Some(c + 6) && Run1(s, c + 6, IsCoordinateChar) == Some(f)
    requires s[5..c] == lat && s[c + 6..f] == lon
    ensures LatLonFields(s) == Some((lat, lon))
  {
  }

  /** A line `Lat: lat Lon: lon` is read by `LatLonFields` with those groups. */
  lemma LatLonLineRead(lat: string, lon: string, rest: string)
    requires lat != [] && forall k :: 0 <= k < |lat| ==> IsCoordinateChar(lat[k])
    requires lon != [] && forall k :: 0 <= k < |lon| ==> IsCoordinateChar(lon[k])
    requires rest == [] || !IsCoordinateChar(rest[0])
    ensures LatLonFields("Lat:" + " " + (lat + " Lon: " + lon + rest)) == Some((lat, lon))
  {
    var pl := lat + " Lon: " + lon + rest;
    var s := "Lat:" + " " + pl;
    var c := 5 + |lat|;
    var f := c + 6 + |lon|;
    assert pl[0] == lat[0];
    TagLit(s, "Lat:", pl);
    TagBlank(s, "Lat:", pl, 4);
    TagRest(s, "Lat:", pl, 5);
    LatitudeRun(s, lat, lon, rest, c);
    LongitudeTag(s, lat, lon, rest, c);
    LongitudeRun(s, lat, lon, rest, c, f);
    CoordinateGroups(s, lat, lon, rest, c, f);
    LatLonFrom(s, c, f, lat, lon);
  }

  /** `AgePayload` from the ends of its pieces and the group. */
  lemma AgeFrom(s: string, e: nat, age: string)
    requires 5 <= |s| && Lit(s, 0, "Age:") == Some(4) && Run1(s, 4, IsSpace) == Some(5)
    requires Run1(s, 5, IsDigit) == Some(e) && s[5..e] == age
    ensures AgePayload(s) == Some(age)
  {
  }

  /** A line `Age: digits` is read by `AgePayload` with those digits. */
  lemma AgeLineRead(age: string, rest: string)
    requires age != [] && AllDigits(age)
    requires rest == [] || !IsDigit(rest[0])
    ensures AgePayload("Age:" + " " + (age + rest)) == Some(age)
  {
    var s := "Age:" + " " + (age + rest);
    assert (age + rest)[0] == age[0];
    TagLit(s, "Age:", age + rest);
    TagBlank(s, "Age:", age + rest, 4);
    TagRest(s, "Age:", age + rest, 5);
    RunOver(s, 5, age, rest, IsDigit);
    Take(s, 5, age, rest);
    AgeFrom(s, 5 + |age|, age);
  }

  /** `TaggedLine` from the ends of its tag, the blank and the text. */
  lemma TaggedLineFrom(s: string, tag: string, least: nat, e: nat, text: string)
    requires least <= 1 && |tag| + 1 <= |s|
    requires Lit(s, 0, tag) == Some(|tag|) && Run1(s, |tag|, IsSpace) == Some(|tag| + 1)
    requires Run1(s, |tag| + 1, NotNewline) == Some(e) && s[|tag| + 1..e] == text
    ensures TaggedLine(s, tag, least) == Some(text)
  {
  }

  /** A line `tag text`, whose text is a single line that starts with a
      printable character, is read by `TaggedLine` with that text, whether
      the tag may be followed by no white space (`least` 0) or must be (1). */
  lemma TaggedLineRead(tag: string, least: nat, text: string)
    requires least <= 1
    requires text != [] && !IsSpace(text[0]) && forall k :: 0 <= k < |text| ==> text[k] != '\n'
    ensures TaggedLine(tag + " " + text, tag, least) == Some(text)
  {
    var s := tag + " " + text;
    var g := |tag| + 1;
    TagLit(s, tag, text);
    TagBlank(s, tag, text, |tag|);
    TagRest(s, tag, text, g);
    assert text == text + [];
    RunOver(s, g, text, [], NotNewline);
    Take(s, g, text, []);
    TaggedLineFrom(s, tag, least, g + |text|, text);
  }

  /** An "Address:" line is read by `AddressPayload` with its text. */
  lemma AddressLineRead(text: string)
    requires text != [] && !IsSpace(text[0]) && forall k :: 0 <= k < |text| ==> text[k] != '\n'
    ensures AddressPayload("Address:" + " " + text) == Some(text)
  {
    TaggedLineRead("Address:", 0, text);
  }

  /** A "Charges:" line is read by `ChargesPayload` with its text. */
  lemma ChargesLineRead(text: string)
    requires text != [] && !IsSpace(text[0]) && forall k :: 0 <= k < |text| ==> text[k] != '\n'
    ensures ChargesPayload("Charges:" + " " + text) == Some(text)
  {
    TaggedLineRead("Charges:", 1, text);
  }

  // ---------------------------------------------------------------------
  // The record header

  /** `s[i..]` is the part of a header after the time: one blank, the
      source, " - ", one category word and its blank, the outcome. */
  predicate HeaderBody(s: string, i: nat, source: string, word: string, outcome: string, rest: string) {
    i <= |s| && s[i..] == " " + source + " - " + word + " " + outcome + rest
  }

  lemma BodyBlank(s: string, i: nat, source: string, word: string, outcome: string, rest: string)
    requires HeaderBody(s, i, source, word, outcome, rest)
    requires source != [] && IsSourceChar(source[0])
    ensures Run1(s, i, IsSpace) == Some(i + 1)
  {
    assert " " + source + " - " + word + " " + outcome + rest == " " + (source + " - " + word + " " + outcome + rest);
    BlankOver(s, i, source + " - " + word + " " + outcome + rest);
  }

  lemma BodySource(s: string, i: nat, source: string, word: string, outcome: string, rest: string, v: nat)
    requires HeaderBody(s, i, source, word, outcome, rest)
    requires source != [] && forall k :: 0 <= k < |source| ==> IsSourceChar(source[k])
    requires v == i + 1 + |source|
    ensures Run1(s, i + 1, IsSourceChar) == Some(v)
  {
    assert " " + source + " - " + word + " " + outcome + rest == " " + (source + (" - " + word + " " + outcome + rest));
    RunAt(s, i, " ", source, " - " + word + " " + outcome + rest, IsSourceChar, i + 1, v);
  }

  lemma BodyDash(s: string, i: nat, source: string, word: string, outcome: string, rest: string, v: nat)
    requires HeaderBody(s, i, source, word, outcome, rest)
    requires word != [] && IsCategoryChar(word[0])
    requires v == i + 1 + |source|
    ensures SpacedLit(s, v, "-") == Some(v + 2) && Run1(s, v + 2, IsSpace) == Some(v + 3)
  {
    assert " " + source + " - " + word + " " + outcome + rest == " " + source + (" - " + (word + " " + outcome + rest));
    DashAt(s, i, " " + source, word + " " + outcome + rest, v);
  }

  lemma BodyWord(s: string, i: nat, source: string, word: string, outcome: string, rest: string, q: nat, x: nat)
    requires HeaderBody(s, i, source, word, outcome, rest)
    requires word != [] && forall k :: 0 <= k < |word| ==> IsCategoryChar(word[k])
    requires q == i + 4 + |source| && x == q + |word|
    ensures Run1(s, q, IsCategoryChar) == Some(x)
  {
    assert " " + source + " - " + word + " " + outcome + rest == " " + source + " - " + (word + (" " + outcome + rest));
    RunAt(s, i, " " + source + " - ", word, " " + outcome + rest, IsCategoryChar, q, x);
  }

  lemma BodyWordBlank(s: string, i: nat, source: string, word: string, outcome: string, rest: string, x: nat)
    requires HeaderBody(s, i, source, word, outcome, rest)
    requires outcome != [] && !IsSpace(outcome[0])
    requires x == i + 4 + |source| + |word|
    ensures Run1(s, x, IsSpace) == Some(x + 1)
  {
    assert " " + source + " - " + word + " " + outcome + rest == " " + source + " - " + word + (" " + (outcome + rest));
    BlankAt(s, i, " " + source + " - " + word, outcome + rest, x);
  }

  lemma BodyOutcome(s: string, i: nat, source: string, word: string, outcome: string, rest: string, o: nat)
    requires HeaderBody(s, i, source, word, outcome, rest)
    requires o == i + 5 + |source| + |word|
    ensures o <= |s| && s[o..] == outcome + rest
  {
    assert " " + source + " - " + word + " " + outcome + rest == " " + source + " - " + word + " " + (outcome + rest);
    After(s, i, " " + source + " - " + word + " ", outcome + rest);
  }

  lemma BodyOutcomeRun(s: string, i: nat, source: string, word: string, outcome: string, rest: string, o: nat, e: nat)
    requires HeaderBody(s, i, source, word, outcome, rest)
    requires outcome != [] && forall k :: 0 <= k < |outcome| ==> IsOutcomeChar(outcome[k])
    requires rest == [] || !IsOutcomeChar(rest[0])
    requires o == i + 5 + |source| + |word| && e == o + |outcome|
    ensures Run1(s, o, IsOutcomeChar) == Some(e)
  {
    assert " " + source + " - " + word + " " + outcome + rest == " " + source + " - " + word + " " + (outcome + rest);
    RunAt(s, i, " " + source + " - " + word + " ", outcome, rest, IsOutcomeChar, o, e);
  }

  lemma BodyGroups(s: string, i: nat, source: string, word: string, outcome: string, rest: string, v: nat, q: nat, o: nat, e: nat)
    requires HeaderBody(s, i, source, word, outcome, rest)
    requires v == i + 1 + |source| && q == v + 3 && o == q + |word| + 1 && e == o + |outcome|
    ensures e <= |s| && s[i + 1..v] == source && s[q..o] == word + " " && s[o..e] == outcome
  {
    assert " " + source + " - " + word + " " + outcome + rest == " " + (source + (" - " + word + " " + outcome + rest));
    SliceAt(s, i, " ", source, " - " + word + " " + outcome + rest, i + 1, v);
    assert " " + source + " - " + word + " " + outcome + rest == " " + source + " - " + ((word + " ") + (outcome + rest));
    SliceAt(s, i, " " + source + " - ", word + " ", outcome + rest, q, o);
    assert " " + source + " - " + word + " " + outcome + rest == " " + source + " - " + word + " " + (outcome + rest);
    SliceAt(s, i, " " + source + " - " + word + " ", outcome, rest, o, e);
  }

  /** No further category round starts at `o` when the first character of
      the outcome that is not a category character is not white space. */
  lemma NoFurtherRound(s: string, o: nat, outcome: string, rest: string, m: nat)
    requires o <= |s| && s[o..] == outcome + rest
    requires m < |outcome| && (forall k :: 0 <= k < m ==> IsCategoryChar(outcome[k]))
    requires !IsCategoryChar(outcome[m]) && !IsSpace(outcome[m])
    ensures CategoryRounds(s, o) == None
  {
    assert forall k :: o <= k < o + m ==> s[k] == s[o..][k - o];
    assert s[o + m] == s[o..][m];
    RunEndIs(s, o, o + m, IsCategoryChar);
  }

  /** `CategoryEnd` after one category word and its blank. */
  lemma CategoryEndOf(s: string, q: nat, x: nat)
    requires q <= |s| && Run1(s, q, IsCategoryChar) == Some(x) && Run1(s, x, IsSpace) == Some(x + 1)
    requires CategoryRounds(s, x + 1) == None && x + 1 < |s| && IsOutcomeChar(s[x + 1])
    ensures CategoryEnd(s, q) == Some(x + 1)
  {
  }

  /** `HeaderRest` from the ends of its pieces and its three groups. */
  lemma HeaderRestOf(s: string, i: nat, v: nat, q: nat, o: nat, e: nat, source: string, category: string, outcome: string)
    requires i + 1 <= |s| && Run1(s, i, IsSpace) == Some(i + 1) && Run1(s, i + 1, IsSourceChar) == Some(v)
    requires SpacedLit(s, v, "-") == Some(v + 2) && Run1(s, v + 2, IsSpace) == Some(q)
    requires CategoryEnd(s, q) == Some(o) && Run1(s, o, IsOutcomeChar) == Some(e)
    requires s[i + 1..v] == source && s[q..o] == category && s[o..e] == outcome
    ensures HeaderRest(s, i) == Some((source, category, outcome))
  {
  }

  /** The part of a header after the time is read by `HeaderRest` with the
      source, the category word with its blank, and the outcome, when the
      first character of the outcome that is not a category character is
      not white space (otherwise the category takes further words). */
  lemma HeaderRestReads(s: string, i: nat, source: string, word: string, outcome: string, rest: string, m: nat)
    requires HeaderBody(s, i, source, word, outcome, rest)
    requires source != [] && forall k :: 0 <= k < |source| ==> IsSourceChar(source[k])
    requires word != [] && forall k :: 0 <= k < |word| ==> IsCategoryChar(word[k])
    requires outcome != [] && forall k :: 0 <= k < |outcome| ==> IsOutcomeChar(outcome[k])
    requires m < |outcome| && (forall k :: 0 <= k < m ==> IsCategoryChar(outcome[k]))
    requires !IsCategoryChar(outcome[m]) && !IsSpace(outcome[m])
    requires rest == [] || !IsOutcomeChar(rest[0])
    ensures HeaderRest(s, i) == Some((source, word + " ", outcome))
  {
    var v := i + 1 + |source|;
    var q := v + 3;
    var x := q + |word|;
    var o := x + 1;
    var e := o + |outcome|;
    assert !IsSpace(outcome[0]);
    BodyBlank(s, i, source, word, outcome, rest);
    BodySource(s, i, source, word, outcome, rest, v);
    BodyDash(s, i, source, word, outcome, rest, v);
    BodyWord(s, i, source, word, outcome, rest, q, x);
    BodyWordBlank(s, i, source, word, outcome, rest, x);
    BodyOutcome(s, i, source, word, outcome, rest, o);
    NoFurtherRound(s, o, outcome, rest, m);
    assert s[o] == s[o..][0];
    CategoryEndOf(s, q, x);
    BodyOutcomeRun(s, i, source, word, outcome, rest, o, e);
    BodyGroups(s, i, source, word, outcome, rest, v, q, o, e);
    HeaderRestOf(s, i, v, q, o, e, source, word + " ", outcome);
  }

  /** `s` is a header line: the two-digit year, "-", the record number, one
      blank, the four-digit time, then `body`. */
  predicate HeaderLine(s: string, year: string, number: string, time: string, body: string) {
    s == year + "-" + number + " " + time + body
  }

  lemma HeaderYear(s: string, year: string, number: string, time: string, body: string, a: nat)
    requires HeaderLine(s, year, number, time, body)
    requires |year| == 2 && AllDigits(year) && a == 3 + |number|
    ensures |s| >= 3 && IsDigit(s[0]) && IsDigit(s[1]) && s[2] == '-'
    ensures a <= |s| && s[..a] == year + "-" + number
  {
    assert s == (year + "-" + number) + (" " + time + body);
    assert s[0] == year[0] && s[1] == year[1];
  }

  lemma HeaderNumber(s: string, year: string, number: string, time: string, body: string, a: nat)
    requires HeaderLine(s, year, number, time, body)
    requires |year| == 2 && number != [] && AllDigits(number) && a == 3 + |number|
    ensures Run1(s, 3, IsDigit) == Some(a)
  {
    assert s[0..] == year + "-" + (number + (" " + time + body));
    RunAt(s, 0, year + "-", number, " " + time + body, IsDigit, 3, a);
  }

  lemma HeaderTime(s: string, year: string, number: string, time: string, body: string, a: nat)
    requires HeaderLine(s, year, number, time, body)
    requires |year| == 2 && |time| == 4 && AllDigits(time) && a == 3 + |number|
    ensures Run1(s, a, IsSpace) == Some(a + 1) && a + 5 <= |s| && s[a + 1..a + 5] == time
  {
    assert s[0..] == year + "-" + number + (" " + (time + body));
    BlankAt(s, 0, year + "-" + number, time + body, a);
    assert s[0..] == year + "-" + number + " " + (time + body);
    SliceAt(s, 0, year + "-" + number + " ", time, body, a + 1, a + 5);
  }

  lemma HeaderAfterTime(s: string, year: string, number: string, time: string, body: string, i: nat)
    requires HeaderLine(s, year, number, time, body)
    requires |year| == 2 && |time| == 4 && i == 8 + |number|
    ensures i <= |s| && s[i..] == body
  {
    assert s[0..] == year + "-" + number + " " + time + body;
    After(s, 0, year + "-" + number + " " + time, body);
  }

  /** `HeaderFields` from the ends of its pieces and its groups. */
  lemma HeaderFieldsOf(s: string, a: nat, source: string, category: string, outcome: string)
    requires |s| >= 3 && IsDigit(s[0]) && IsDigit(s[1]) && s[2] == '-'
    requires a <= |s| && Run1(s, 3, IsDigit) == Some(a)
    requires Run1(s, a, IsSpace) == Some(a + 1) && a + 5 <= |s| && AllDigits(s[a + 1..a + 5])
    requires HeaderRest(s, a + 5) == Some((source, category, outcome))
    ensures HeaderFields(s) == Some(Header(s[..a], s[a + 1..a + 5], source, category, outcome))
  {
  }

  /** A header line `yy-n time source - WORD outcome` is read by
      `HeaderFields` with the report id `yy-n`, the time, the source, the
      category `WORD ` (with the blank the pattern's category takes) and the
      outcome, when the outcome's first character that is not a category
      character is not white space. */
  lemma HeaderLineRead(year: string, number: string, time: string, source: string, word: string, outcome: string,
                       rest: string, m: nat)
    requires |year| == 2 && AllDigits(year) && number != [] && AllDigits(number)
    requires |time| == 4 && AllDigits(time)
    requires source != [] && forall k :: 0 <= k < |source| ==> IsSourceChar(source[k])
    requires word != [] && forall k :: 0 <= k < |word| ==> IsCategoryChar(word[k])
    requires outcome != [] && forall k :: 0 <= k < |outcome| ==> IsOutcomeChar(outcome[k])
    requires m < |outcome| && (forall k :: 0 <= k < m ==> IsCategoryChar(outcome[k]))
    requires !IsCategoryChar(outcome[m]) && !IsSpace(outcome[m])
    requires rest == [] || !IsOutcomeChar(rest[0])
    ensures HeaderFields(year + "-" + number + " " + time + (" " + source + " - " + word + " " + outcome + rest))
            == Some(Header(year + "-" + number, time, source, word + " ", outcome))
  {
    var body := " " + source + " - " + word + " " + outcome + rest;
    var s := year + "-" + number + " " + time + body;
    var a := 3 + |number|;
    HeaderYear(s, year, number, time, body, a);
    HeaderNumber(s, year, number, time, body, a);
    HeaderTime(s, year, number, time, body, a);
    HeaderAfterTime(s, year, number, time, body, a + 5);
    HeaderRestReads(s, a + 5, source, word, outcome, rest, m);
    HeaderFieldsOf(s, a, source, word + " ", outcome);
  }

  // ---------------------------------------------------------------------
  // The report date and the modification stamp

  /** `DateHeaderSearch` steps over a position at which the pattern does not match. */
  lemma DateHeaderSearchJoin(s: string, k: nat, d: Option<string>)
    requires k < |s| && DateHeaderAt(s, k).None?
    requires DateHeaderSearch(s, k + 1) == d
    ensures DateHeaderSearch(s, k) == d
  {
  }

  lemma DateHeaderSearchHere(s: string, k: nat, j: nat)
    requires k == j <= |s| && DateHeaderAt(s, j).Some?
    ensures DateHeaderSearch(s, k) == DateHeaderAt(s, j)
  {
  }

  /** `DateHeaderSearch` from `k` returns the match at the first position `j`
      at which the date pattern matches, as `re.search` does. */
  lemma {:induction false} DateHeaderSearchLeftmost(s: string, k: nat, j: nat)
    requires k <= j <= |s| && DateHeaderAt(s, j).Some?
    requires forall i :: k <= i < j ==> DateHeaderAt(s, i).None?
    ensures DateHeaderSearch(s, k) == DateHeaderAt(s, j)
    decreases j - k, 1
  {
    if k < j {
      DateHeaderSearchLeftmostStep(s, k, j);
    } else {
      DateHeaderSearchHere(s, k, j);
    }
  }

  lemma {:induction false} DateHeaderSearchLeftmostStep(s: string, k: nat, j: nat)
    requires k < j <= |s| && DateHeaderAt(s, j).Some?
    requires forall i :: k <= i < j ==> DateHeaderAt(s, i).None?
    ensures DateHeaderSearch(s, k) == DateHeaderAt(s, j)
    decreases j - k, 0
  {
    DateHeaderSearchLeftmost(s, k + 1, j);
    DateHeaderSearchJoin(s, k, DateHeaderAt(s, j));
  }

  /** `DateHeaderSearch` from `k` finds nothing when the date pattern matches at
      no position from `k` on. */
  lemma {:induction false} DateHeaderSearchMisses(s: string, k: nat)
    requires k <= |s|
    requires forall i :: k <= i <= |s| ==> DateHeaderAt(s, i).None?
    ensures DateHeaderSearch(s, k).None?
    decreases |s| - k, 1
  {
    if k < |s| {
      DateHeaderSearchMissesStep(s, k);
    }
  }

  lemma {:induction false} DateHeaderSearchMissesStep(s: string, k: nat)
    requires k < |s|
    requires forall i :: k <= i <= |s| ==> DateHeaderAt(s, i).None?
    ensures DateHeaderSearch(s, k).None?
    decreases |s| - k, 0
  {
    DateHeaderSearchMisses(s, k + 1);
    DateHeaderSearchJoin(s, k, None);
  }

  /** `ModifiedSearch` steps over a position at which the pattern does not match. */
  lemma ModifiedSearchJoin(s: string, k: nat, d: Option<string>)
    requires k < |s| && ModifiedAt(s, k).None?
    requires ModifiedSearch(s, k + 1) == d
    ensures ModifiedSearch(s, k) == d
  {
  }

  lemma ModifiedSearchHere(s: string, k: nat, j: nat)
    requires k == j <= |s| && ModifiedAt(s, j).Some?
    ensures ModifiedSearch(s, k) == ModifiedAt(s, j)
  {
  }

  /** `ModifiedSearch` from `k` returns the match at the first position `j`
      at which the stamp pattern matches, as `re.search` does. */
  lemma {:induction false} ModifiedSearchLeftmost(s: string, k: nat, j: nat)
    requires k <= j <= |s| && ModifiedAt(s, j).Some?
    requires forall i :: k <= i < j ==> ModifiedAt(s, i).None?
    ensures ModifiedSearch(s, k) == ModifiedAt(s, j)
    decreases j - k, 1
  {
    if k < j {
      ModifiedSearchLeftmostStep(s, k, j);
    } else {
      ModifiedSearchHere(s, k, j);
    }
  }

  lemma {:induction false} ModifiedSearchLeftmostStep(s: string, k: nat, j: nat)
    requires k < j <= |s| && ModifiedAt(s, j).Some?
    requires forall i :: k <= i < j ==> ModifiedAt(s, i).None?
    ensures ModifiedSearch(s, k) == ModifiedAt(s, j)
    decreases j - k, 0
  {
    ModifiedSearchLeftmost(s, k + 1, j);
    ModifiedSearchJoin(s, k, ModifiedAt(s, j));
  }

  /** `ModifiedSearch` from `k` finds nothing when the stamp pattern matches at
      no position from `k` on. */
  lemma {:induction false} ModifiedSearchMisses(s: string, k: nat)
    requires k <= |s|
    requires forall i :: k <= i <= |s| ==> ModifiedAt(s, i).None?
    ensures ModifiedSearch(s, k).None?
    decreases |s| - k, 1
  {
    if k < |s| {
      ModifiedSearchMissesStep(s, k);
    }
  }

  lemma {:induction false} ModifiedSearchMissesStep(s: string, k: nat)
    requires k < |s|
    requires forall i :: k <= i <= |s| ==> ModifiedAt(s, i).None?
    ensures ModifiedSearch(s, k).None?
    decreases |s| - k, 0
  {
    ModifiedSearchMisses(s, k + 1);
    ModifiedSearchJoin(s, k, None);
  }

  /** `DateHeaderAt` from the ends of its pieces and the date. */
  lemma DateHeaderOf(s: string, e: nat, date: string)
    requires 10 <= |s| && Lit(s, 0, "For") == Some(3) && SpacedLit(s, 3, "Date:") == Some(9)
    requires Run1(s, 9, IsSpace) == Some(10) && Run1(s, 10, IsDateChar) == Some(e) && s[10..e] == date
    ensures DateHeaderAt(s, 0) == Some(date) && DateHeaderSearch(s, 0) == Some(date)
  {
  }

  /** A line `For Date: date` is found by `DateHeaderSearch` with that date. */
  lemma DateHeaderLineRead(date: string, rest: string)
    requires date != [] && forall k :: 0 <= k < |date| ==> IsDateChar(date[k])
    requires rest == [] || !IsDateChar(rest[0])
    ensures DateHeaderSearch("For" + " " + "Date:" + " " + (date + rest), 0) == Some(date)
  {
    var s := "For" + " " + "Date:" + " " + (date + rest);
    assert (date + rest)[0] == date[0];
    WordTag(s, "For", "Date:", date + rest);
    TagBlank(s, "For" + " " + "Date:", date + rest, 9);
    TagRest(s, "For" + " " + "Date:", date + rest, 10);
    RunOver(s, 10, date, rest, IsDateChar);
    Take(s, 10, date, rest);
    DateHeaderOf(s, 10 + |date|, date);
  }

  /** `s[k..]` is a modification stamp: "[Modified:", one blank, the text,
      "]". */
  predicate StampText(s: string, k: nat, text: string, rest: string) {
    k <= |s| && s[k..] == "[Modified:" + " " + text + "]" + rest
  }

  lemma StampTag(s: string, k: nat, text: string, rest: string)
    requires StampText(s, k, text, rest)
    requires text != [] && IsDateChar(text[0])
    ensures Lit(s, k, "[Modified:") == Some(k + 10) && Run1(s, k + 10, IsSpace) == Some(k + 11)
  {
    assert "[Modified:" + " " + text + "]" + rest == "[Modified:" + (" " + (text + "]" + rest));
    LitOver(s, k, "[Modified:", " " + (text + "]" + rest));
    BlankAt(s, k, "[Modified:", text + "]" + rest, k + 10);
  }

  lemma StampRun(s: string, k: nat, text: string, rest: string, e: nat)
    requires StampText(s, k, text, rest)
    requires text != [] && forall j :: 0 <= j < |text| ==> IsDateChar(text[j])
    requires e == k + 11 + |text|
    ensures Run1(s, k + 11, IsDateChar) == Some(e) && s[k + 11..e] == text
  {
    assert "[Modified:" + " " + text + "]" + rest == "[Modified:" + " " + (text + ("]" + rest));
    RunAt(s, k, "[Modified:" + " ", text, "]" + rest, IsDateChar, k + 11, e);
    SliceAt(s, k, "[Modified:" + " ", text, "]" + rest, k + 11, e);
  }

  lemma StampClose(s: string, k: nat, text: string, rest: string, e: nat)
    requires StampText(s, k, text, rest)
    requires e == k + 11 + |text|
    ensures Lit(s, e, "]") == Some(e + 1)
  {
    assert "[Modified:" + " " + text + "]" + rest == "[Modified:" + " " + text + ("]" + rest);
    LitAt(s, k, "[Modified:" + " " + text, "]", rest, e);
  }

  /** `ModifiedAt` from the ends of its pieces and the text. */
  lemma ModifiedOf(s: string, k: nat, e: nat, text: string)
    requires k + 11 <= |s| && Lit(s, k, "[Modified:") == Some(k + 10) && Run1(s, k + 10, IsSpace) == Some(k + 11)
    requires Run1(s, k + 11, IsDateChar) == Some(e) && Lit(s, e, "]") == Some(e + 1) && s[k + 11..e] == text
    ensures ModifiedAt(s, k) == Some(text) && ModifiedSearch(s, k) == Some(text)
  {
  }

  /** A stamp `[Modified: text]` at `k` is read by `ModifiedAt` with that
      text, and `ModifiedSearch` from `k` finds it. */
  lemma StampRead(s: string, k: nat, text: string, rest: string)
    requires StampText(s, k, text, rest)
    requires text != [] && forall j :: 0 <= j < |text| ==> IsDateChar(text[j])
    ensures ModifiedAt(s, k) == Some(text) && ModifiedSearch(s, k) == Some(text)
  {
    var e := k + 11 + |text|;
    StampTag(s, k, text, rest);
    StampRun(s, k, text, rest, e);
    StampClose(s, k, text, rest, e);
    ModifiedOf(s, k, e, text);
  }

  // ---------------------------------------------------------------------
  // Officer timing lines

  /** `t` is written `HH:MM:SS`. */
  predicate IsClockText(t: string) {
    |t| == 8 && ClockAt(t, 0)
  }

  /** `t` is written `MM/DD/YYYY @ HH:MM:SS`, in the pattern's classes. */
  predicate IsStampText(t: string) {
    |t| == 21 && StampAt(t, 0)
  }

  /** `s` is a full timing line. */
  predicate TimingLine(s: string, disp: string, enrt: string, arvd: string, clrd: string) {
    s == "Disp-" + disp + " Enrt-" + enrt + " Arvd-" + arvd + " Clrd-" + clrd
  }

  lemma ClockIn(s: string, i: nat, t: string)
    requires i + 8 <= |s| && s[i..i + 8] == t && IsClockText(t)
    ensures ClockAt(s, i)
  {
    assert forall k :: 0 <= k < 8 ==> s[i + k] == t[k];
  }

  lemma TimingDisp(s: string, disp: string, enrt: string, arvd: string, clrd: string)
    requires TimingLine(s, disp, enrt, arvd, clrd) && IsClockText(disp)
    ensures TaggedClockAt(s, 0, "Disp-") == Some(disp)
  {
    var u := " Enrt-" + enrt + " Arvd-" + arvd + " Clrd-" + clrd;
    assert s[0..] == "Disp-" + (disp + u);
    LitOver(s, 0, "Disp-", disp + u);
    SliceAt(s, 0, "Disp-", disp, u, 5, 13);
    ClockIn(s, 5, disp);
  }

  lemma TimingEnrtBlank(s: string, disp: string, enrt: string, arvd: string, clrd: string)
    requires TimingLine(s, disp, enrt, arvd, clrd) && |disp| == 8
    ensures RunEnd(s, 13, IsSpace) == 14
  {
    var u := " Arvd-" + arvd + " Clrd-" + clrd;
    assert s[0..] == "Disp-" + disp + (" " + ("Enrt-" + enrt + u));
    BlankAt(s, 0, "Disp-" + disp, "Enrt-" + enrt + u, 13);
  }

  lemma TimingEnrtTag(s: string, disp: string, enrt: string, arvd: string, clrd: string)
    requires TimingLine(s, disp, enrt, arvd, clrd) && |disp| == 8
    ensures OccursAt(s, "Enrt-", 14)
  {
    var u := " Arvd-" + arvd + " Clrd-" + clrd;
    assert s[0..] == "Disp-" + disp + " " + ("Enrt-" + (enrt + u));
    LitAt(s, 0, "Disp-" + disp + " ", "Enrt-", enrt + u, 14);
  }

  lemma TimingEnrtClock(s: string, disp: string, enrt: string, arvd: string, clrd: string)
    requires TimingLine(s, disp, enrt, arvd, clrd) && |disp| == 8
    requires |enrt| == 8 && forall k :: 0 <= k < 8 ==> IsClockChar(enrt[k])
    ensures 27 <= |s| && forall k :: 19 <= k < 27 ==> IsClockChar(s[k])
  {
    var u := " Arvd-" + arvd + " Clrd-" + clrd;
    assert s[0..] == "Disp-" + disp + " Enrt-" + (enrt + u);
    SliceAt(s, 0, "Disp-" + disp + " Enrt-", enrt, u, 19, 27);
    assert forall k :: 19 <= k < 27 ==> s[k] == s[19..27][k - 19];
  }

  lemma TimingArvd(s: string, disp: string, enrt: string, arvd: string, clrd: string)
    requires TimingLine(s, disp, enrt, arvd, clrd) && |disp| == 8 && |enrt| == 8 && IsClockText(arvd)
    ensures RunEnd(s, 27, IsSpace) == 28 && TaggedClockAt(s, 28, "Arvd-") == Some(arvd)
  {
    var pre := "Disp-" + disp + " Enrt-" + enrt;
    var u := " Clrd-" + clrd;
    assert s[0..] == pre + (" " + ("Arvd-" + arvd + u));
    BlankAt(s, 0, pre, "Arvd-" + arvd + u, 27);
    assert s[0..] == pre + " " + ("Arvd-" + (arvd + u));
    LitAt(s, 0, pre + " ", "Arvd-", arvd + u, 28);
    assert s[0..] == pre + " Arvd-" + (arvd + u);
    SliceAt(s, 0, pre + " Arvd-", arvd, u, 33, 41);
    ClockIn(s, 33, arvd);
  }

  lemma TimingClrdBlank(s: string, disp: string, enrt: string, arvd: string, clrd: string)
    requires TimingLine(s, disp, enrt, arvd, clrd) && |disp| == 8 && |enrt| == 8 && |arvd| == 8
    ensures RunEnd(s, 41, IsSpace) == 42
  {
    var pre := "Disp-" + disp + " Enrt-" + enrt + " Arvd-" + arvd;
    assert s[0..] == pre + (" " + ("Clrd-" + clrd));
    BlankAt(s, 0, pre, "Clrd-" + clrd, 41);
  }

  lemma TimingClrdText(s: string, disp: string, enrt: string, arvd: string, clrd: string)
    requires TimingLine(s, disp, enrt, arvd, clrd) && |disp| == 8 && |enrt| == 8 && |arvd| == 8
    ensures OccursAt(s, "Clrd-", 42) && 47 <= |s| && s[47..] == clrd
  {
    var pre := "Disp-" + disp + " Enrt-" + enrt + " Arvd-" + arvd;
    assert s[0..] == pre + " " + ("Clrd-" + clrd);
    LitAt(s, 0, pre + " ", "Clrd-", clrd, 42);
    assert s[0..] == pre + " Clrd-" + clrd;
    After(s, 0, pre + " Clrd-", clrd);
  }

  /** A clock after "Clrd-" is the cleared text. */
  lemma ClearedClock(s: string, c: nat, clrd: string)
    requires OccursAt(s, "Clrd-", c) && c + 5 <= |s| && s[c + 5..] == clrd && IsClockText(clrd)
    ensures ClearedAt(s, c) == Some(clrd)
  {
    assert s[c + 5..c + 13] == s[c + 5..];
    ClockIn(s, c + 5, clrd);
  }

  /** A full stamp after "Clrd-" is the cleared text. */
  lemma ClearedStamp(s: string, c: nat, clrd: string)
    requires OccursAt(s, "Clrd-", c) && c + 5 <= |s| && s[c + 5..] == clrd && IsStampText(clrd)
    ensures ClearedAt(s, c) == Some(clrd)
  {
    assert forall k :: c + 5 <= k < c + 26 ==> s[k] == clrd[k - (c + 5)];
    assert s[c + 7] == clrd[2];
    assert s[c + 5..c + 26] == s[c + 5..];
  }

  /** `TimingFields` from its four pieces. */
  lemma TimingOf(s: string, disp: string, arvd: string, clrd: string)
    requires TaggedClockAt(s, 0, "Disp-") == Some(disp)
    requires RunEnd(s, 13, IsSpace) == 14 && OccursAt(s, "Enrt-", 14)
    requires 27 <= |s| && forall k :: 19 <= k < 27 ==> IsClockChar(s[k])
    requires RunEnd(s, 27, IsSpace) == 28 && TaggedClockAt(s, 28, "Arvd-") == Some(arvd)
    requires RunEnd(s, 41, IsSpace) == 42 && ClearedAt(s, 42) == Some(clrd)
    ensures TimingFields(s) == Timing(Some(disp), Some(arvd), Some(clrd))
  {
    assert EnrouteAt(s, 14);
  }

  /** A full timing line `Disp-HH:MM:SS Enrt-HH:MM:SS Arvd-HH:MM:SS
      Clrd-...` is read by `TimingFields` with its dispatch, arrival and
      cleared texts; the cleared text may be a clock or a full stamp. */
  lemma TimingLineRead(disp: string, enrt: string, arvd: string, clrd: string)
    requires IsClockText(disp) && IsClockText(arvd) && (IsClockText(clrd) || IsStampText(clrd))
    requires |enrt| == 8 && forall k :: 0 <= k < 8 ==> IsClockChar(enrt[k])
    ensures TimingFields("Disp-" + disp + " Enrt-" + enrt + " Arvd-" + arvd + " Clrd-" + clrd)
            == Timing(Some(disp), Some(arvd), Some(clrd))
  {
    var s := "Disp-" + disp + " Enrt-" + enrt + " Arvd-" + arvd + " Clrd-" + clrd;
    TimingDisp(s, disp, enrt, arvd, clrd);
    TimingEnrtBlank(s, disp, enrt, arvd, clrd);
    TimingEnrtTag(s, disp, enrt, arvd, clrd);
    TimingEnrtClock(s, disp, enrt, arvd, clrd);
    TimingArvd(s, disp, enrt, arvd, clrd);
    TimingClrdBlank(s, disp, enrt, arvd, clrd);
    TimingClrdText(s, disp, enrt, arvd, clrd);
    if IsClockText(clrd) {
      ClearedClock(s, 42, clrd);
    } else {
      ClearedStamp(s, 42, clrd);
    }
    TimingOf(s, disp, arvd, clrd);
  }
}

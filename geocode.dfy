/** `clean_query` of geocode.py (lines 119-133), which turns the location
    text of an incident into a query for the geocoding service, and the three
    patterns it uses (lines 20-22):

      TAGGED_LOCATION_RE       white space, `[`, text of one line, `]`, white space
      ADDRESS_WITH_NUMBER      `[1-9][0-9]*\s+`, anchored at the start
      ADDRESS_WITH_ZERO_NUMBER `^\s*0\s+(.+)`

    Each pattern is a hand-written recogniser that follows the way Python's
    backtracking matcher settles on its match. */
module Geocode {
  import opened Strings

  predicate NotNewline(c: char) { c != '\n' }

  // ---------------------------------------------------------------------
  // TAGGED_LOCATION_RE.sub("", text)

  /** The last `]` in `s[lo..hi]`: where the greedy `.+` of the tag pattern
      gives back characters until a `]` follows. */
  function LastClose(s: string, lo: nat, hi: nat): (r: Option<nat>)
    requires lo <= hi <= |s|
    ensures r.Some? ==> lo <= r.value < hi && s[r.value] == ']'
    ensures r.Some? ==> forall k :: r.value < k < hi ==> s[k] != ']'
    ensures r.None? ==> forall k :: lo <= k < hi ==> s[k] != ']'
    decreases hi
  {
    if hi == lo then None
    else if s[hi - 1] == ']' then Some(hi - 1)
    else LastClose(s, lo, hi - 1)
  }

  /** The tag pattern tried at the start of `t`: the length of its match,
      if it matches there. The white space before `[` is a greedy run; `.+`
      reaches the end of the line and gives back characters down to the last
      `]` that leaves it at least one character; the white space after `]`
      (which may span lines) is a greedy run. The pattern looks only forward,
      so trying it at position `i` of a text is trying it on the text from
      `i` on. */
  function TagLength(t: string): (r: Option<nat>)
    ensures r.Some? ==> 0 < r.value <= |t|
  {
    var j := RunEnd(t, 0, IsSpace);
    if j < |t| && t[j] == '[' then
      var eol := RunEnd(t, j + 1, NotNewline);
      if j + 2 <= eol then
        match LastClose(t, j + 2, eol)
        case None => None
        case Some(m) => Some(RunEnd(t, m + 1, IsSpace))
      else None
    else None
  }

  /** `TAGGED_LOCATION_RE.sub("", s)`: the leftmost match is removed and the
      search goes on after it; where no match starts, one character is kept. */
  function RemoveTags(s: string): (r: string)
    ensures |r| <= |s|
    decreases |s|
  {
    if s == [] then []
    else
      match TagLength(s)
      case Some(n) => RemoveTags(s[n..])
      case None => [s[0]] + RemoveTags(s[1..])
  }

  predicate NoOpenBracket(s: string) {
    forall k :: 0 <= k < |s| ==> s[k] != '['
  }

  predicate AllSpace(w: string) {
    forall k :: 0 <= k < |w| ==> IsSpace(w[k])
  }

  predicate OneLine(t: string) {
    forall k :: 0 <= k < |t| ==> t[k] != '\n'
  }

  /** Every `]` of `b` comes after a line break in `b`. */
  predicate ClosesOnLaterLines(b: string) {
    forall k :: 0 <= k < |b| && b[k] == ']' ==> exists i :: 0 <= i < k && b[i] == '\n'
  }

  lemma LastCloseIs(s: string, lo: nat, hi: nat, m: nat)
    requires lo <= m < hi <= |s| && s[m] == ']'
    requires forall k :: m < k < hi ==> s[k] != ']'
    ensures LastClose(s, lo, hi) == Some(m)
  {
  }

  /** Text without `[` comes through tag removal unchanged. */
  lemma {:induction false} NoBracketUnchanged(s: string)
    requires NoOpenBracket(s)
    ensures RemoveTags(s) == s
    decreases |s|
  {
    if s != [] {
      assert TagLength(s).None?;
      NoBracketUnchanged(s[1..]);
      assert s == [s[0]] + s[1..];
    }
  }

  /** `s[..n]` has no `[` and does not end in white space: no tag can begin
      in it. */
  predicate PlainPrefix(s: string, n: nat) {
    && n <= |s| && (n == 0 || !IsSpace(s[n - 1]))
    && forall k :: 0 <= k < n ==> s[k] != '['
  }

  /** A character before the end of a plain prefix is kept. */
  lemma FirstKept(s: string, i: nat, n: nat)
    requires i < n && PlainPrefix(s, n)
    ensures RemoveTags(s[i..]) == [s[i]] + RemoveTags(s[i + 1..])
  {
    var t := s[i..];
    var j := RunEnd(t, 0, IsSpace);
    assert t[n - 1 - i] == s[n - 1];
    assert t[j] == s[i + j];
    assert TagLength(t).None?;
    assert t[1..] == s[i + 1..];
  }

  /** Everything of `s` from `i` up to `n` is kept. */
  lemma {:induction false} KeptFrom(s: string, i: nat, n: nat)
    requires i <= n && PlainPrefix(s, n)
    ensures RemoveTags(s[i..]) == s[i..n] + RemoveTags(s[n..])
    decreases n - i
  {
    if i < n {
      FirstKept(s, i, n);
      KeptFrom(s, i + 1, n);
      ConsKept(s, i, n, RemoveTags(s[i..]), RemoveTags(s[i + 1..]), RemoveTags(s[n..]));
    } else {
      assert s[i..n] == [];
    }
  }

  lemma ConsKept(s: string, i: nat, n: nat, x: string, y: string, r: string)
    requires i < n <= |s| && x == [s[i]] + y && y == s[i + 1..n] + r
    ensures x == s[i..n] + r
  {
    assert s[i..n] == [s[i]] + s[i + 1..n];
  }

  /** A prefix `a` is kept when none of its characters is `[` and its last
      one is not white space (so no run of white space in it reaches a
      `[`). */
  lemma KeptBefore(a: string, rest: string)
    requires NoOpenBracket(a)
    requires a == [] || !IsSpace(a[|a| - 1])
    ensures RemoveTags(a + rest) == a + RemoveTags(rest)
  {
    var s := a + rest;
    assert forall k :: 0 <= k < |a| ==> s[k] == a[k];
    KeptFrom(s, 0, |a|);
    assert s[0..] == s && s[0..|a|] == a && s[|a|..] == rest;
  }

  /** The tag pattern matches `w1 [t] w2` at the start of
      `w1 + "[" + t + "]" + w2 + b` under the conditions of `TagRemoved`, and
      removal goes on in `b`. */
  lemma TagMatch(w1: string, t: string, w2: string, b: string)
    requires AllSpace(w1)
    requires t != [] && OneLine(t)
    requires AllSpace(w2)
    requires b == [] || !IsSpace(b[0])
    requires ClosesOnLaterLines(b)
    ensures var u := w1 + "[" + t + "]" + w2 + b;
            RemoveTags(u) == RemoveTags(b)
  {
    var u := w1 + "[" + t + "]" + w2 + b;
    var j, m, e := |w1|, |w1| + 1 + |t|, |u| - |b|;
    TagOpens(u, w1, t, w2, b);
    TagCloses(u, w1, t, w2, b);
    TagTrails(u, w1, t, w2, b);
    TagAtStart(u, j, m, e, b);
  }

  /** A tag at the start, found through its parts, is removed whole. */
  lemma TagAtStart(u: string, j: nat, m: nat, e: nat, b: string)
    requires j < |u| && u[j] == '[' && RunEnd(u, 0, IsSpace) == j
    requires var eol := RunEnd(u, j + 1, NotNewline);
             j + 2 <= m < eol && LastClose(u, j + 2, eol) == Some(m)
    requires e <= |u| && RunEnd(u, m + 1, IsSpace) == e && u[e..] == b
    ensures RemoveTags(u) == RemoveTags(b)
  {
    TagLengthIs(u, j, m, e);
    RemoveAtTag(u, e, b);
  }

  lemma TagLengthIs(u: string, j: nat, m: nat, e: nat)
    requires j < |u| && u[j] == '[' && RunEnd(u, 0, IsSpace) == j
    requires var eol := RunEnd(u, j + 1, NotNewline);
             j + 2 <= m < eol && LastClose(u, j + 2, eol) == Some(m)
    requires RunEnd(u, m + 1, IsSpace) == e
    ensures TagLength(u) == Some(e)
  {
  }

  lemma RemoveAtTag(u: string, n: nat, b: string)
    requires TagLength(u) == Some(n) && n <= |u| && u[n..] == b
    ensures RemoveTags(u) == RemoveTags(b)
  {
  }

  /** The white space before `[` ends at the `[`. */
  lemma TagOpens(u: string, w1: string, t: string, w2: string, b: string)
    requires u == w1 + "[" + t + "]" + w2 + b
    requires AllSpace(w1)
    ensures |w1| < |u| && u[|w1|] == '[' && RunEnd(u, 0, IsSpace) == |w1|
  {
    assert forall k :: 0 <= k < |w1| ==> u[k] == w1[k];
    assert u[|w1|] == '[';
    RunEndIs(u, 0, |w1|, IsSpace);
  }

  /** The line of the tag reaches past its `]`, and that `]` is the last one
      on the line. */
  lemma TagCloses(u: string, w1: string, t: string, w2: string, b: string)
    requires u == w1 + "[" + t + "]" + w2 + b
    requires t != [] && OneLine(t)
    requires AllSpace(w2)
    requires ClosesOnLaterLines(b)
    ensures var j := |w1|;
            var m := j + 1 + |t|;
            var eol := RunEnd(u, j + 1, NotNewline);
            j + 2 <= m < eol && LastClose(u, j + 2, eol) == Some(m)
  {
    var j := |w1|;
    var m := j + 1 + |t|;
    var e := m + 1 + |w2|;
    var eol := RunEnd(u, j + 1, NotNewline);
    assert u[m] == ']';
    forall k | j + 1 <= k < m
      ensures u[k] != '\n'
    {
      assert u[k] == t[k - j - 1];
    }
    forall k | m < k < eol
      ensures u[k] != ']'
    {
      if k < e {
        assert u[k] == w2[k - m - 1];
      } else {
        var kb := k - e;
        forall i | 0 <= i < kb
          ensures b[i] != '\n'
        {
          assert u[e + i] == b[i];
        }
        assert u[k] == b[kb];
      }
    }
    LastCloseIs(u, j + 2, eol, m);
  }

  /** The white space after `]` ends where `b` begins. */
  lemma TagTrails(u: string, w1: string, t: string, w2: string, b: string)
    requires u == w1 + "[" + t + "]" + w2 + b
    requires AllSpace(w2)
    requires b == [] || !IsSpace(b[0])
    ensures RunEnd(u, |w1| + 2 + |t|, IsSpace) == |u| - |b| && u[|u| - |b|..] == b
  {
    SpaceRunBefore(u, w1 + "[" + t + "]", w2, b);
  }

  /** A run of white space `w` between `p` and `b` ends where `b` begins. */
  lemma SpaceRunBefore(u: string, p: string, w: string, b: string)
    requires u == p + w + b
    requires AllSpace(w)
    requires b == [] || !IsSpace(b[0])
    ensures RunEnd(u, |p|, IsSpace) == |u| - |b| && u[|u| - |b|..] == b
  {
    var e := |p| + |w|;
    assert forall k :: |p| <= k < e ==> u[k] == w[k - |p|];
    if e < |u| {
      assert u[e] == b[0];
    }
    RunEndIs(u, |p|, e, IsSpace);
    assert u[e..] == b;
  }

  /** A tag is removed together with the white space around it: `a` is kept,
      then `w1 [t] w2` goes, and removal goes on in `b`. The tag text `t`
      lies on one line, and every `]` of `b` comes after a line break (so the
      `]` that closes the tag is the last one on its line). */
  lemma TagRemoved(a: string, w1: string, t: string, w2: string, b: string)
    requires NoOpenBracket(a)
    requires a == [] || !IsSpace(a[|a| - 1])
    requires AllSpace(w1)
    requires t != [] && OneLine(t)
    requires AllSpace(w2)
    requires b == [] || !IsSpace(b[0])
    requires ClosesOnLaterLines(b)
    ensures RemoveTags(a + w1 + "[" + t + "]" + w2 + b) == a + RemoveTags(b)
  {
    var u := w1 + "[" + t + "]" + w2 + b;
    TagMatch(w1, t, w2, b);
    KeptBefore(a, u);
    Regroup(a, w1, t, w2, b);
  }

  lemma Regroup(a: string, w1: string, t: string, w2: string, b: string)
    ensures a + w1 + "[" + t + "]" + w2 + b == a + (w1 + "[" + t + "]" + w2 + b)
  {
  }

  // ---------------------------------------------------------------------
  // ADDRESS_WITH_NUMBER.match and ADDRESS_WITH_ZERO_NUMBER.sub

  /** `ADDRESS_WITH_NUMBER.match(e)`: a digit 1-9, more digits, then white
      space. */
  predicate HasHouseNumber(e: string) {
    && e != [] && '1' <= e[0] <= '9'
    && var d := RunEnd(e, 1, IsDigit); d < |e| && IsSpace(e[d])
  }

  /** A number that does not start with 0, followed by white space, is a
      house number whatever follows. */
  lemma HouseNumberShape(n: string, w: string, rest: string)
    requires n != [] && '1' <= n[0] <= '9'
    requires forall k :: 0 <= k < |n| ==> IsDigit(n[k])
    requires w != [] && IsSpace(w[0])
    ensures HasHouseNumber(n + w + rest)
  {
    var e := n + w + rest;
    assert forall k :: 0 <= k < |n| ==> e[k] == n[k];
    assert e[|n|] == w[0];
    RunEndIs(e, 1, |n|, IsDigit);
  }

  /** The start of the group `(.+)` when `\s+` has reached `hi`: `\s+` gives
      back white space until `.+` can take at least one character that is
      not a line break. */
  function GroupStart(e: string, lo: nat, hi: nat): (r: Option<nat>)
    requires lo <= hi <= |e|
    ensures r.Some? ==> lo <= r.value <= hi && r.value < |e| && e[r.value] != '\n'
    ensures r.None? ==> forall g :: lo <= g <= hi && g < |e| ==> e[g] == '\n'
    decreases hi
  {
    if hi < |e| && e[hi] != '\n' then Some(hi)
    else if hi == lo then None
    else GroupStart(e, lo, hi - 1)
  }

  /** `ADDRESS_WITH_ZERO_NUMBER.sub(r"\1", e)`: a leading number 0 and the
      white space around it are dropped. The match is anchored at the start
      and `(.+)` runs to the end of its line, so the result is `e` from the
      start of the group on. */
  function DropZeroNumber(e: string): (r: string)
    ensures |r| <= |e|
  {
    var a := RunEnd(e, 0, IsSpace);
    if a < |e| && e[a] == '0' then
      var b := RunEnd(e, a + 1, IsSpace);
      if a + 2 <= b then
        match GroupStart(e, a + 2, b)
        case Some(g) => e[g..]
        case None => e
      else e
    else e
  }

  /** What is left is the end of the piece. */
  lemma DropZeroNumberIsSuffix(e: string)
    ensures DropZeroNumber(e) == e[|e| - |DropZeroNumber(e)|..]
  {
  }

  /** `w 0 w2 x` loses `w 0 w2` when `x` starts with a character that is not
      white space. */
  lemma ZeroNumberDropped(w: string, w2: string, x: string)
    requires forall k :: 0 <= k < |w| ==> IsSpace(w[k])
    requires w2 != [] && forall k :: 0 <= k < |w2| ==> IsSpace(w2[k])
    requires x != [] && !IsSpace(x[0])
    ensures DropZeroNumber(w + "0" + w2 + x) == x
  {
    var e := w + "0" + w2 + x;
    var a := |w|;
    var b := a + 1 + |w2|;
    assert forall k :: 0 <= k < |w| ==> e[k] == w[k];
    assert forall k :: 0 <= k < |w2| ==> e[a + 1 + k] == w2[k];
    assert e[a] == '0' && e[b] == x[0];
    RunEndIs(e, 0, a, IsSpace);
    RunEndIs(e, a + 1, b, IsSpace);
    assert GroupStart(e, a + 2, b) == Some(b);
    assert e[b..] == x;
  }

  /** A piece that starts with something other than white space or 0 is
      left as it is. */
  lemma NoZeroNumberUnchanged(e: string)
    requires e == [] || (!IsSpace(e[0]) && e[0] != '0')
    ensures DropZeroNumber(e) == e
  {
    if e != [] {
      RunEndIs(e, 0, 0, IsSpace);
    }
  }

  // ---------------------------------------------------------------------
  // clean_query

  /** The text that `clean_query` keeps: after tag removal, the part after
      the last `" - "`. */
  function KeptText(query: string): string {
    LastDashPiece(RemoveTags(query))
  }

  /** The part of `s` after its last `" - "`. */
  function LastDashPiece(s: string): string {
    var parts := Split(s, " - ");
    parts[|parts| - 1]
  }

  /** One `'@'` piece after the zero-number clean-up, stripped. */
  function CleanPiece(e: string): string {
    Strip(DropZeroNumber(e))
  }

  /** The first `n` pieces, each passed through `f`. */
  function MapPrefix(f: string -> string, elems: seq<string>, n: nat): (r: seq<string>)
    requires n <= |elems|
    ensures |r| == n
  {
    if n == 0 then []
    else MapPrefix(f, elems, n - 1) + [f(elems[n - 1])]
  }

  /** Each piece of the prefix is its own piece passed through `f`: the
      pieces stay in order. */
  lemma {:induction false} MapPrefixAt(f: string -> string, elems: seq<string>, n: nat, i: nat)
    requires i < n <= |elems|
    ensures MapPrefix(f, elems, n)[i] == f(elems[i])
  {
    if i < n - 1 {
      MapPrefixAt(f, elems, n - 1, i);
    }
  }

  /** The `'@'` pieces, each cleaned. */
  function CleanPieces(elems: seq<string>): (r: seq<string>)
    ensures |r| == |elems|
  {
    MapPrefix(CleanPiece, elems, |elems|)
  }

  lemma CleanPiecesAt(elems: seq<string>, i: nat)
    requires i < |elems|
    ensures CleanPieces(elems)[i] == CleanPiece(elems[i])
  {
    MapPrefixAt(CleanPiece, elems, |elems|, i);
  }

  /** The result for a kept text with `'@'`, from its pieces: the first of
      the first two pieces that starts with a house number, stripped;
      failing both, the cleaned pieces joined with `" & "`. */
  function CleanAtPieces(elems: seq<string>): string
    requires |elems| >= 2
  {
    if HasHouseNumber(elems[0]) then Strip(elems[0])
    else if HasHouseNumber(elems[1]) then Strip(elems[1])
    else Join(CleanPieces(elems), " & ")
  }

  /** The result for the kept text: as it is without `'@'`. */
  function CleanKept(q: string): string {
    if !Contains(q, "@") then q
    else
      SplitAtLeastTwo(q, "@");
      CleanAtPieces(Split(q, "@"))
  }

  /** What `clean_query` returns. */
  function CleanedQuery(query: string): string {
    CleanKept(KeptText(query))
  }

  /** `clean_query`. */
  method CleanQuery(query: string) returns (r: string)
    ensures r == CleanedQuery(query)
  {
    var q := RemoveTags(query);
    var parts := Split(q, " - ");
    q := parts[|parts| - 1];
    assert q == KeptText(query);
    IndexOfFindsOccurrence(q, "@");
    if IndexOf(q, "@", 0).None? {
      return q;
    }
    var elems := Split(q, "@");
    SplitAtLeastTwo(q, "@");
    assert CleanKept(q) == CleanAtPieces(elems);
    if HasHouseNumber(elems[0]) {
      return Strip(elems[0]);
    } else if HasHouseNumber(elems[1]) {
      return Strip(elems[1]);
    }
    var pieces := CleanEachPiece(elems);
    r := Join(pieces, " & ");
  }

  /** The loop of `clean_query` that cleans each `'@'` piece in place. */
  method CleanEachPiece(elems: seq<string>) returns (pieces: seq<string>)
    ensures pieces == CleanPieces(elems)
  {
    pieces := elems;
    assert elems[0..] == elems;
    for i := 0 to |elems|
      invariant pieces == MapPrefix(CleanPiece, elems, i) + elems[i..]
    {
      MapStep(CleanPiece, elems, i);
      pieces := pieces[i := CleanPiece(elems[i])];
    }
    assert elems[|elems|..] == [];
  }

  /** One turn of the loop: piece `i` is replaced, the others stay. */
  lemma MapStep(f: string -> string, elems: seq<string>, i: nat)
    requires i < |elems|
    ensures var before := MapPrefix(f, elems, i) + elems[i..];
            && before[i] == elems[i]
            && before[i := f(elems[i])] == MapPrefix(f, elems, i + 1) + elems[i + 1..]
  {
    UpdateAtJoint(MapPrefix(f, elems, i), elems[i..], f(elems[i]));
    assert elems[i..][1..] == elems[i + 1..];
  }

  lemma UpdateAtJoint<T>(done: seq<T>, rest: seq<T>, c: T)
    requires rest != []
    ensures (done + rest)[|done|] == rest[0]
    ensures (done + rest)[|done| := c] == (done + [c]) + rest[1..]
  {
  }

  // ---------------------------------------------------------------------
  // What clean_query promises

  /** A text that contains a separator splits into at least two pieces. */
  lemma SplitAtLeastTwo(s: string, sep: string)
    requires sep != [] && Contains(s, sep)
    ensures |Split(s, sep)| >= 2
  {
    IndexOfFindsOccurrence(s, sep);
  }

  /** `s` has no character `c`. */
  predicate Avoids(s: string, c: char) {
    forall k :: 0 <= k < |s| ==> s[k] != c
  }

  lemma AvoidsIsNotContains(s: string, c: char)
    ensures Avoids(s, c) <==> !Contains(s, [c])
  {
    if !Avoids(s, c) {
      var k :| 0 <= k < |s| && s[k] == c;
      assert OccursAt(s, [c], k);
    }
    if Contains(s, [c]) {
      var k: nat :| k <= |s| && OccursAt(s, [c], k);
      assert s[k] == c;
    }
  }

  lemma AvoidsConcat(a: string, b: string, c: char)
    requires Avoids(a, c) && Avoids(b, c)
    ensures Avoids(a + b, c)
  {
    forall k | 0 <= k < |a + b|
      ensures (a + b)[k] != c
    {
      if k >= |a| {
        assert (a + b)[k] == b[k - |a|];
      }
    }
  }

  lemma {:induction false} JoinAvoids(parts: seq<string>, sep: string, c: char)
    requires forall i :: 0 <= i < |parts| ==> Avoids(parts[i], c)
    requires Avoids(sep, c)
    ensures Avoids(Join(parts, sep), c)
  {
    if |parts| > 1 {
      JoinAvoids(parts[1..], sep, c);
      AvoidsConcat(parts[0], sep, c);
      AvoidsConcat(parts[0] + sep, Join(parts[1..], sep), c);
    }
  }

  /** `s.strip()` keeps only characters of `s`. */
  lemma StripAvoids(s: string, c: char)
    requires Avoids(s, c)
    ensures Avoids(Strip(s), c)
  {
    StripRemovesOnlySpace(s);
    var a: nat :| a + |Strip(s)| <= |s| && OccursAt(s, Strip(s), a);
    assert forall k :: 0 <= k < |Strip(s)| ==> Strip(s)[k] == s[a + k];
  }

  /** `s.strip()` of a text that starts with a character that is not white
      space starts with that character. */
  lemma StripKeepsFirst(s: string)
    requires s != [] && !IsSpace(s[0])
    ensures Strip(s) != [] && Strip(s)[0] == s[0]
  {
    StripRemovesOnlySpace(s);
    StripEmpty(s);
    var a: nat :| a + |Strip(s)| <= |s| && OccursAt(s, Strip(s), a)
                 && (forall k :: 0 <= k < a ==> IsSpace(s[k]));
    assert a == 0;
    assert Strip(s)[0] == s[a..a + |Strip(s)|][0];
  }

  /** The kept text is what follows the last `" - "` of the text without
      tags `s`: it ends `s`, has no `" - "`, and is either all of `s` or
      preceded by `" - "`. */
  lemma KeptTextIsLastPiece(s: string)
    ensures var q := LastDashPiece(s);
            && !Contains(q, " - ")
            && |q| <= |s| && s[|s| - |q|..] == q
            && (|q| == |s| || (|q| + 3 <= |s| && s[|s| - |q| - 3..|s| - |q|] == " - "))
  {
    LastPieceOfSplit(s, " - ");
  }

  /** The last piece of a split has no separator, ends the text, and is all
      of it or has the separator right before it. */
  lemma LastPieceOfSplit(s: string, sep: string)
    requires sep != []
    ensures var parts := Split(s, sep);
            var q := parts[|parts| - 1];
            && !Contains(q, sep)
            && |q| <= |s| && s[|s| - |q|..] == q
            && (|q| == |s| || (|q| + |sep| <= |s| && s[|s| - |q| - |sep|..|s| - |q|] == sep))
  {
    LastPieceFrom(s, sep, 0);
    SplitPiecesLackSep(s, sep);
  }

  /** `l` ends `s`, and is all of `s[from..]` or has `sep` right before it. */
  predicate EndPieceFrom(s: string, l: string, sep: string, from: nat) {
    && |l| <= |s| - from && s[|s| - |l|..] == l
    && (|l| == |s| - from || (|l| + |sep| <= |s| - from && s[|s| - |l| - |sep|..|s| - |l|] == sep))
  }

  /** The last piece of `s[from..]` is an end piece of it. */
  lemma {:induction false} LastPieceFrom(s: string, sep: string, from: nat)
    requires sep != [] && from <= |s|
    ensures EndPieceFrom(s, SplitFrom(s, sep, from)[|SplitFrom(s, sep, from)| - 1], sep, from)
    decreases |s| - from
  {
    var r := IndexOf(s, sep, from);
    if r.None? {
      SplitWithout(s, sep, from);
    } else {
      var k := r.value;
      SplitAtFirst(s, sep, from, k);
      LastPieceFrom(s, sep, k + |sep|);
      var tail := SplitFrom(s, sep, k + |sep|);
      assert SplitFrom(s, sep, from)[|SplitFrom(s, sep, from)| - 1] == tail[|tail| - 1];
      EndPieceEarlier(s, tail[|tail| - 1], sep, from, k);
    }
  }

  /** An end piece of the text after a separator at `k` is an end piece
      from any earlier position. */
  lemma EndPieceEarlier(s: string, l: string, sep: string, from: nat, k: nat)
    requires from <= k && OccursAt(s, sep, k) && EndPieceFrom(s, l, sep, k + |sep|)
    ensures EndPieceFrom(s, l, sep, from)
  {
  }

  /** A cleaned piece has only characters of its piece. */
  lemma CleanPieceAvoids(e: string, c: char)
    requires Avoids(e, c)
    ensures Avoids(CleanPiece(e), c)
  {
    DropZeroNumberIsSuffix(e);
    SuffixAvoids(e, |e| - |DropZeroNumber(e)|, c);
    StripAvoids(DropZeroNumber(e), c);
  }

  lemma SuffixAvoids(s: string, i: nat, c: char)
    requires i <= |s| && Avoids(s, c)
    ensures Avoids(s[i..], c)
  {
    assert forall k :: 0 <= k < |s| - i ==> s[i..][k] == s[i + k];
  }

  lemma CleanAtPiecesAvoids(elems: seq<string>, c: char)
    requires |elems| >= 2
    requires forall i :: 0 <= i < |elems| ==> Avoids(elems[i], c)
    requires c != ' ' && c != '&'
    ensures Avoids(CleanAtPieces(elems), c)
  {
    if HasHouseNumber(elems[0]) {
      StripAvoids(elems[0], c);
    } else if HasHouseNumber(elems[1]) {
      StripAvoids(elems[1], c);
    } else {
      var cleaned := CleanPieces(elems);
      forall i | 0 <= i < |cleaned|
        ensures Avoids(cleaned[i], c)
      {
        CleanPiecesAt(elems, i);
        CleanPieceAvoids(elems[i], c);
      }
      JoinAvoids(cleaned, " & ", c);
    }
  }

  /** The result never contains `'@'`. */
  lemma CleanedQueryHasNoAt(query: string)
    ensures !Contains(CleanedQuery(query), "@")
  {
    var q := KeptText(query);
    if Contains(q, "@") {
      var elems := Split(q, "@");
      SplitAtLeastTwo(q, "@");
      SplitPiecesLackSep(q, "@");
      forall i | 0 <= i < |elems|
        ensures Avoids(elems[i], '@')
      {
        AvoidsIsNotContains(elems[i], '@');
      }
      CleanAtPiecesAvoids(elems, '@');
      assert CleanedQuery(query) == CleanAtPieces(elems);
      AvoidsIsNotContains(CleanAtPieces(elems), '@');
    }
  }

  /** Without `'@'` in the kept text, the kept text is the result, unchanged
      and not stripped, and it has no `" - "`. */
  lemma NoAtKeepsText(query: string)
    requires !Contains(KeptText(query), "@")
    ensures CleanedQuery(query) == KeptText(query)
    ensures !Contains(CleanedQuery(query), " - ")
  {
    KeptTextIsLastPiece(RemoveTags(query));
  }

  /** A query without `[`, `" - "` and `'@'` comes back exactly as it is. */
  lemma PlainQueryUnchanged(query: string)
    requires NoOpenBracket(query)
    requires !Contains(query, " - ") && !Contains(query, "@")
    ensures CleanedQuery(query) == query
  {
    NoBracketUnchanged(query);
    SplitNoSep(query, " - ");
    assert KeptText(query) == query;
  }

  /** The house-number cases: the first `'@'` piece that starts with a house
      number, among the first two, is the result, stripped; it starts with
      its digit 1-9. */
  lemma HouseNumberChosen(query: string)
    requires Contains(KeptText(query), "@")
    ensures var elems := Split(KeptText(query), "@");
            var r := CleanedQuery(query);
            && |elems| >= 2
            && (HasHouseNumber(elems[0]) ==> r == Strip(elems[0]))
            && (!HasHouseNumber(elems[0]) && HasHouseNumber(elems[1]) ==> r == Strip(elems[1]))
            && (HasHouseNumber(elems[0]) || HasHouseNumber(elems[1]) ==> r != [] && '1' <= r[0] <= '9')
  {
    var q := KeptText(query);
    SplitAtLeastTwo(q, "@");
    HouseNumberPieces(Split(q, "@"));
  }

  lemma HouseNumberPieces(elems: seq<string>)
    requires |elems| >= 2
    ensures var r := CleanAtPieces(elems);
            && (HasHouseNumber(elems[0]) ==> r == Strip(elems[0]))
            && (!HasHouseNumber(elems[0]) && HasHouseNumber(elems[1]) ==> r == Strip(elems[1]))
            && (HasHouseNumber(elems[0]) || HasHouseNumber(elems[1]) ==> r != [] && '1' <= r[0] <= '9')
  {
    if HasHouseNumber(elems[0]) {
      StripKeepsFirst(elems[0]);
    } else if HasHouseNumber(elems[1]) {
      StripKeepsFirst(elems[1]);
    }
  }

  /** Only the first two `'@'` pieces decide on a house number: two queries
      whose first two pieces agree, one of which has a house number, give the
      same result whatever their other pieces are. */
  lemma OnlyFirstTwoPiecesExamined(x: string, y: string)
    requires Contains(KeptText(x), "@") && Contains(KeptText(y), "@")
    requires var ex := Split(KeptText(x), "@");
             var ey := Split(KeptText(y), "@");
             |ex| >= 2 && |ey| >= 2 && ex[..2] == ey[..2]
             && (HasHouseNumber(ex[0]) || HasHouseNumber(ex[1]))
    ensures CleanedQuery(x) == CleanedQuery(y)
  {
    var ex := Split(KeptText(x), "@");
    var ey := Split(KeptText(y), "@");
    assert ex[0] == ex[..2][0] && ey[0] == ey[..2][0];
    assert ex[1] == ex[..2][1] && ey[1] == ey[..2][1];
    HouseNumberChosen(x);
    HouseNumberChosen(y);
  }

  /** Without a house number in the first two pieces, the result is every
      piece, in order, without a leading number 0 and stripped, joined with
      `" & "`. */
  lemma PiecesJoined(query: string)
    requires Contains(KeptText(query), "@")
    requires var elems := Split(KeptText(query), "@");
             |elems| >= 2 && !HasHouseNumber(elems[0]) && !HasHouseNumber(elems[1])
    ensures var elems := Split(KeptText(query), "@");
            var cleaned := CleanPieces(elems);
            && CleanedQuery(query) == Join(cleaned, " & ")
            && (forall i :: 0 <= i < |cleaned| ==> cleaned[i] == Strip(DropZeroNumber(elems[i])))
            && (forall i :: 0 <= i < |cleaned| ==> IsStripped(cleaned[i]))
  {
    var elems := Split(KeptText(query), "@");
    assert CleanedQuery(query) == CleanAtPieces(elems);
    forall i | 0 <= i < |elems|
      ensures CleanPieces(elems)[i] == Strip(DropZeroNumber(elems[i]))
    {
      CleanPiecesAt(elems, i);
    }
  }

  /** The joined pieces can contain `" - "`: a piece may end with `" -"`,
      and the `" & "` that follows completes the separator. The query
      `"a -@b"` is cleaned to `"a - & b"`. */
  lemma JoinCanFormDash(query: string)
    requires query == "a -@b"
    ensures CleanedQuery(query) == "a - & b"
    ensures Contains(CleanedQuery(query), " - ")
  {
    var p0, p1 := "a -", "b";
    DashExampleKept(query);
    DashExamplePieces(query, p0, p1);
    assert CleanedQuery(query) == Join(CleanPieces([p0, p1]), " & ");
    DashExampleCleaned(p0, p1);
    DashExampleJoined(p0, p1, CleanedQuery(query));
  }

  /** The example query has no tag and no `" - "`: it is its own kept text,
      and it contains `'@'`. */
  lemma DashExampleKept(s: string)
    requires s == "a -@b"
    ensures KeptText(s) == s && Contains(s, "@")
  {
    assert NoOpenBracket(s);
    NoBracketUnchanged(s);
    DashExampleNoSeparator(s);
    SplitNoSep(s, " - ");
    assert OccursAt(s, "@", 3);
  }

  lemma DashExampleNoSeparator(s: string)
    requires s == "a -@b"
    ensures !Contains(s, " - ")
  {
    forall k: nat | k <= |s|
      ensures !OccursAt(s, " - ", k)
    {
      if k + 3 <= |s| {
        assert s[k..k + 3][0] == s[k] && s[k..k + 3][2] == s[k + 2];
      }
    }
  }

  /** The example query splits at `'@'` into `"a -"` and `"b"`, neither of
      which starts with a house number. */
  lemma DashExamplePieces(s: string, p0: string, p1: string)
    requires s == "a -@b" && p0 == "a -" && p1 == "b"
    ensures Split(s, "@") == [p0, p1]
    ensures !HasHouseNumber(p0) && !HasHouseNumber(p1)
  {
    forall j: nat | j < 3
      ensures !OccursAt(s, "@", j)
    {
      assert s[j..j + 1][0] == s[j];
    }
    assert OccursAt(s, "@", 3);
    IndexOfIsFirst(s, "@", 0, 3);
    SplitAtFirst(s, "@", 0, 3);
    assert !OccursAt(s, "@", 4) && !OccursAt(s, "@", 5);
    assert IndexOf(s, "@", 4) == None;
    SplitWithout(s, "@", 4);
    assert s[0..3] == p0 && s[4..] == p1;
  }

  /** Both pieces come through the clean-up unchanged. */
  lemma DashExampleCleaned(p0: string, p1: string)
    requires p0 == "a -" && p1 == "b"
    ensures CleanPieces([p0, p1]) == [p0, p1]
  {
    NoZeroNumberUnchanged(p0);
    NoZeroNumberUnchanged(p1);
    assert IsStripped(p0) && IsStripped(p1);
    assert MapPrefix(CleanPiece, [p0, p1], 1) == [p0];
  }

  lemma DashExampleJoined(p0: string, p1: string, r: string)
    requires p0 == "a -" && p1 == "b" && r == Join([p0, p1], " & ")
    ensures r == "a - & b" && Contains(r, " - ")
  {
    assert [p0, p1][1..] == [p1];
    assert OccursAt(r, " - ", 1);
  }
}

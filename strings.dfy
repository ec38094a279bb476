/** Text primitives shared by the report parser and the geocoding query
    cleaner: an Option type, the character classes that Python 2's `re` and
    `str` use on byte strings, prefix and substring tests, `str.strip()`,
    `str.split()` / `str.join()`, and the maximal runs that hand-written
    recognisers use in place of regular expressions. */
module Strings {

  datatype Option<T> = None | Some(value: T)

  /** `\s` in a Python 2 byte-string pattern; also what `str.strip()` removes. */
  predicate IsSpace(c: char) {
    c == ' ' || c == '\t' || c == '\n' || c == '\r' || c == '\U{0B}' || c == '\U{0C}'
  }

  predicate IsDigit(c: char) { '0' <= c <= '9' }

  /** `\w` in a Python 2 byte-string pattern without flags. */
  predicate IsWordChar(c: char) {
    'a' <= c <= 'z' || 'A' <= c <= 'Z' || IsDigit(c) || c == '_'
  }

  /** The class `A-z`, which also admits the six characters between `Z` and `a`. */
  predicate IsAtoz(c: char) { 'A' <= c <= 'z' }

  /** Membership in `string.printable`. */
  predicate IsPrintable(c: char) {
    ' ' <= c <= '~' || c == '\t' || c == '\n' || c == '\r' || c == '\U{0B}' || c == '\U{0C}'
  }

  predicate AllDigits(s: string) {
    forall k :: 0 <= k < |s| ==> IsDigit(s[k])
  }

  predicate StartsWith(s: string, prefix: string) { prefix <= s }

  /** `pat` occurs in `s` starting at index `k`. */
  predicate OccursAt(s: string, pat: string, k: nat) {
    k + |pat| <= |s| && s[k..k + |pat|] == pat
  }

  /** Python's `pat in s`. */
  predicate Contains(s: string, pat: string) {
    exists k: nat :: k <= |s| && OccursAt(s, pat, k)
  }

  /** The end of the longest run of characters satisfying `p` that starts at `i`:
      what a greedy `[...]*` reaches. */
  function RunEnd(s: string, i: nat, p: char -> bool): (j: nat)
    requires i <= |s|
    ensures i <= j <= |s|
    ensures forall k :: i <= k < j ==> p(s[k])
    ensures j == |s| || !p(s[j])
    decreases |s| - i
  {
    if i < |s| && p(s[i]) then RunEnd(s, i + 1, p) else i
  }

  /** A run that ends at `j` is the one `RunEnd` finds. */
  lemma RunEndIs(s: string, i: nat, j: nat, p: char -> bool)
    requires i <= j <= |s|
    requires forall k :: i <= k < j ==> p(s[k])
    requires j == |s| || !p(s[j])
    ensures RunEnd(s, i, p) == j
  {
  }

  /** The first occurrence of `pat` in `s` at or after `from` (`str.find`). */
  function IndexOf(s: string, pat: string, from: nat): (r: Option<nat>)
    requires from <= |s|
    ensures r.Some? ==> from <= r.value && OccursAt(s, pat, r.value)
    ensures r.Some? ==> forall k: nat :: from <= k < r.value ==> !OccursAt(s, pat, k)
    ensures r.None? ==> forall k: nat :: from <= k <= |s| ==> !OccursAt(s, pat, k)
    decreases |s| - from
  {
    if OccursAt(s, pat, from) then Some(from)
    else if from == |s| then None
    else IndexOf(s, pat, from + 1)
  }

  lemma IndexOfFindsOccurrence(s: string, pat: string)
    ensures IndexOf(s, pat, 0).Some? <==> Contains(s, pat)
  {
    if Contains(s, pat) {
      var k: nat :| k <= |s| && OccursAt(s, pat, k);
    }
  }

  /** An occurrence with none before it, from `from` on, is what `IndexOf`
      finds. */
  lemma {:induction false} IndexOfIsFirst(s: string, pat: string, from: nat, k: nat)
    requires from <= k && OccursAt(s, pat, k)
    requires forall j: nat :: from <= j < k ==> !OccursAt(s, pat, j)
    ensures IndexOf(s, pat, from) == Some(k)
    decreases k - from
  {
    if from < k {
      IndexOfIsFirst(s, pat, from + 1, k);
    }
  }

  /** The index of the first character that `str.strip()` keeps. */
  function StripStart(s: string): (a: nat)
    ensures a <= |s|
    ensures forall k :: 0 <= k < a ==> IsSpace(s[k])
    ensures a == |s| || !IsSpace(s[a])
  {
    RunEnd(s, 0, IsSpace)
  }

  /** One past the last character of `s[a..b]` that is not white space, or `a`. */
  function StripEnd(s: string, a: nat, b: nat): (e: nat)
    requires a <= b <= |s|
    ensures a <= e <= b
    ensures forall k :: e <= k < b ==> IsSpace(s[k])
    ensures e == a || !IsSpace(s[e - 1])
    decreases b
  {
    if b > a && IsSpace(s[b - 1]) then StripEnd(s, a, b - 1) else b
  }

  predicate IsStripped(s: string) {
    s == [] || (!IsSpace(s[0]) && !IsSpace(s[|s| - 1]))
  }

  /** Python's `str.strip()` with no argument. */
  function Strip(s: string): (r: string)
    ensures IsStripped(r)
    ensures IsStripped(s) ==> r == s
  {
    var a := StripStart(s);
    var e := StripEnd(s, a, |s|);
    assert IsStripped(s) && s != [] ==> a == 0 && e == |s|;
    s[a..e]
  }

  /** `s.strip()` is `s` less white space at both ends. */
  lemma StripRemovesOnlySpace(s: string)
    ensures exists a: nat :: (a + |Strip(s)| <= |s| && OccursAt(s, Strip(s), a)
                               && (forall k :: 0 <= k < a ==> IsSpace(s[k]))
                               && (forall k :: a + |Strip(s)| <= k < |s| ==> IsSpace(s[k])))
  {
    var a := StripStart(s);
    var e := StripEnd(s, a, |s|);
    assert Strip(s) == s[a..e];
    assert OccursAt(s, Strip(s), a);
  }

  /** A text strips to nothing exactly when it is all white space. */
  lemma StripEmpty(s: string)
    ensures Strip(s) == [] <==> forall k :: 0 <= k < |s| ==> IsSpace(s[k])
  {
    StripRemovesOnlySpace(s);
  }

  /** Python's `s.split(sep)` for a non-empty separator: the pieces between
      the occurrences of `sep` found from left to right. */
  function Split(s: string, sep: string): (parts: seq<string>)
    requires sep != []
    ensures |parts| >= 1
  {
    SplitFrom(s, sep, 0)
  }

  /** The pieces of `s[from..]`, found by searching `s` itself from `from` on. */
  function SplitFrom(s: string, sep: string, from: nat): (parts: seq<string>)
    requires sep != [] && from <= |s|
    ensures |parts| >= 1
    decreases |s| - from
  {
    match IndexOf(s, sep, from)
    case None =>
      [s[from..]]
    case Some(k) =>
      [s[from..k]] + SplitFrom(s, sep, k + |sep|)
  }

  /** A separator found at `k` ends the first piece. */
  lemma SplitAtFirst(s: string, sep: string, from: nat, k: nat)
    requires sep != [] && from <= |s| && IndexOf(s, sep, from) == Some(k)
    ensures from <= k && k + |sep| <= |s|
    ensures SplitFrom(s, sep, from) == [s[from..k]] + SplitFrom(s, sep, k + |sep|)
  {
  }

  /** With no separator left, the rest of the text is the last piece. */
  lemma SplitWithout(s: string, sep: string, from: nat)
    requires sep != [] && from <= |s| && IndexOf(s, sep, from).None?
    ensures SplitFrom(s, sep, from) == [s[from..]]
  {
  }

  /** Text without the separator is its own single piece. */
  lemma SplitNoSep(s: string, sep: string)
    requires sep != [] && !Contains(s, sep)
    ensures Split(s, sep) == [s]
  {
    IndexOfFindsOccurrence(s, sep);
    SplitWithout(s, sep, 0);
    assert s[0..] == s;
  }

  /** No piece of a split contains the separator. */
  lemma SplitPiecesLackSep(s: string, sep: string)
    requires sep != []
    ensures forall i :: 0 <= i < |Split(s, sep)| ==> !Contains(Split(s, sep)[i], sep)
  {
    PiecesFromLackSep(s, sep, 0);
  }

  lemma {:induction false} PiecesFromLackSep(s: string, sep: string, from: nat)
    requires sep != [] && from <= |s|
    ensures forall i :: 0 <= i < |SplitFrom(s, sep, from)| ==> !Contains(SplitFrom(s, sep, from)[i], sep)
    decreases |s| - from
  {
    var r := IndexOf(s, sep, from);
    if r.Some? {
      var k := r.value;
      SplitAtFirst(s, sep, from, k);
      var tail := SplitFrom(s, sep, k + |sep|);
      NoOccurrenceBetween(s, sep, from, k);
      PiecesFromLackSep(s, sep, k + |sep|);
      assert forall i :: 1 <= i < |SplitFrom(s, sep, from)| ==> SplitFrom(s, sep, from)[i] == tail[i - 1];
    } else {
      SplitWithout(s, sep, from);
      NoOccurrenceBetween(s, sep, from, |s|);
      assert s[from..|s|] == s[from..];
    }
  }

  /** `s[from..to]` holds no occurrence of `sep` when none starts in
      `s[from..to]` short of its end. */
  lemma NoOccurrenceBetween(s: string, sep: string, from: nat, to: nat)
    requires sep != [] && from <= to <= |s|
    requires forall j: nat :: from <= j < to ==> !OccursAt(s, sep, j)
    ensures !Contains(s[from..to], sep)
  {
    var t := s[from..to];
    forall j: nat | j <= |t|
      ensures !OccursAt(t, sep, j)
    {
      if j + |sep| <= |t| {
        assert !OccursAt(s, sep, from + j);
        SliceOfSlice(s, from, to, j, |sep|);
      }
    }
  }

  lemma SliceOfSlice(s: string, from: nat, to: nat, j: nat, n: nat)
    requires from <= to <= |s| && j + n <= to - from
    ensures s[from..to][j..j + n] == s[from + j..from + j + n]
  {
    var a, b := s[from..to][j..j + n], s[from + j..from + j + n];
    forall i | 0 <= i < n
      ensures a[i] == b[i]
    {
    }
  }

  /** Python's `sep.join(parts)`. */
  function Join(parts: seq<string>, sep: string): string
  {
    if |parts| == 0 then ""
    else if |parts| == 1 then parts[0]
    else parts[0] + sep + Join(parts[1..], sep)
  }

  lemma JoinCons(p: string, tail: seq<string>, sep: string)
    requires |tail| >= 1
    ensures Join([p] + tail, sep) == p + sep + Join(tail, sep)
  {
    assert ([p] + tail)[1..] == tail;
  }

  /** Joining the pieces of a split with the same separator gives back the text. */
  lemma JoinSplit(s: string, sep: string)
    requires sep != []
    ensures Join(Split(s, sep), sep) == s
  {
    JoinSplitFrom(s, sep, 0);
    assert s[0..] == s;
  }

  lemma {:induction false} JoinSplitFrom(s: string, sep: string, from: nat)
    requires sep != [] && from <= |s|
    ensures Join(SplitFrom(s, sep, from), sep) == s[from..]
    decreases |s| - from
  {
    var r := IndexOf(s, sep, from);
    if r.Some? {
      var k := r.value;
      SplitAtFirst(s, sep, from, k);
      JoinSplitFrom(s, sep, k + |sep|);
      JoinFirstPiece(s, sep, from, k, SplitFrom(s, sep, k + |sep|));
    } else {
      SplitWithout(s, sep, from);
    }
  }

  /** The piece before an occurrence of the separator, joined to what the
      text after it joins back to, is the text from the piece on. */
  lemma JoinFirstPiece(s: string, sep: string, from: nat, k: nat, tail: seq<string>)
    requires from <= k && OccursAt(s, sep, k) && |tail| >= 1 && Join(tail, sep) == s[k + |sep|..]
    ensures Join([s[from..k]] + tail, sep) == s[from..]
  {
    JoinCons(s[from..k], tail, sep);
    SliceAround(s, sep, from, k);
  }

  /** `s[from..]` cut around an occurrence of `sep` at `k`. */
  lemma SliceAround(s: string, sep: string, from: nat, k: nat)
    requires from <= k && OccursAt(s, sep, k)
    ensures s[from..] == s[from..k] + sep + s[k + |sep|..]
  {
    assert s[from..] == s[from..k] + s[k..];
    assert s[k..] == s[k..k + |sep|] + s[k + |sep|..];
  }
}

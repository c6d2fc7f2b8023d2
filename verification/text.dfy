/**
 * The string operations the generators and the server rely on, with the
 * semantics of Python's `str.strip`, `in`, `str.split(sep)` and `sep.join`
 * (JavaScript's `String.prototype.split` with a non-empty string separator
 * splits the same way).
 */
module Text {
  import opened Common

  /** Python's `str.isspace` for a single character. */
  predicate IsSpace(c: char) {
    || ('\U{0009}' <= c <= '\U{000D}')
    || ('\U{001C}' <= c <= '\U{001F}')
    || c == ' '
    || c == '\U{0085}'
    || c == '\U{00A0}'
    || c == '\U{1680}'
    || ('\U{2000}' <= c <= '\U{200A}')
    || c == '\U{2028}'
    || c == '\U{2029}'
    || c == '\U{202F}'
    || c == '\U{205F}'
    || c == '\U{3000}'
  }

  /** `r` is `s` with `lead` whitespace characters cut from the front and only whitespace cut from the back. */
  predicate TrimOf(s: string, r: string, lead: int) {
    && 0 <= lead
    && lead + |r| <= |s|
    && r == s[lead..lead + |r|]
    && (forall i :: 0 <= i < lead ==> IsSpace(s[i]))
    && (forall i :: lead + |r| <= i < |s| ==> IsSpace(s[i]))
  }

  /** Neither end of `r` is whitespace. */
  predicate NoMargins(r: string) {
    |r| > 0 ==> !IsSpace(r[0]) && !IsSpace(r[|r| - 1])
  }

  /** `str.lstrip()`: the suffix of `s` left after its leading whitespace. */
  function StripLeft(s: string): (r: string)
    ensures |r| <= |s| && r == s[|s| - |r|..]
    ensures forall i :: 0 <= i < |s| - |r| ==> IsSpace(s[i])
    ensures |r| > 0 ==> !IsSpace(r[0])
  {
    if |s| > 0 && IsSpace(s[0]) then StripLeft(s[1..]) else s
  }

  /** `str.rstrip()`: the prefix of `s` left before its trailing whitespace. */
  function StripRight(s: string): (r: string)
    ensures |r| <= |s| && r == s[..|r|]
    ensures forall i :: |r| <= i < |s| ==> IsSpace(s[i])
    ensures |r| > 0 ==> !IsSpace(r[|r| - 1])
  {
    if |s| > 0 && IsSpace(s[|s| - 1]) then StripRight(s[..|s| - 1]) else s
  }

  /** Cutting a whitespace prefix and then a whitespace suffix of what is left is a trim of the original. */
  lemma StripParts(s: string, left: string, r: string)
    requires |left| <= |s| && left == s[|s| - |left|..]
    requires forall i :: 0 <= i < |s| - |left| ==> IsSpace(s[i])
    requires |r| <= |left| && r == left[..|r|]
    requires forall i :: |r| <= i < |left| ==> IsSpace(left[i])
    ensures TrimOf(s, r, |s| - |left|)
  {
    var lead := |s| - |left|;
    DropTake(s, lead, |r|);
    TrailingSpaces(s, left, r, lead);
  }

  /** The first `n` items after the first `a`. */
  lemma DropTake(s: string, a: nat, n: nat)
    requires a + n <= |s|
    ensures s[a..][..n] == s[a..a + n]
  {
  }

  /** What `StripRight` cut from the stripped-left text is whitespace of the original. */
  lemma TrailingSpaces(s: string, left: string, r: string, lead: nat)
    requires lead <= |s| && left == s[lead..] && |r| <= |left|
    requires forall i :: |r| <= i < |left| ==> IsSpace(left[i])
    ensures forall i :: lead + |r| <= i < |s| ==> IsSpace(s[i])
  {
    forall i | lead + |r| <= i < |s|
      ensures IsSpace(s[i])
    {
      assert s[i] == left[i - lead];
    }
  }

  /** Python's `str.strip()` with no argument. */
  function Strip(s: string): (r: string)
    ensures NoMargins(r)
    ensures exists lead :: TrimOf(s, r, lead)
  {
    var left := StripLeft(s);
    var r := StripRight(left);
    StripParts(s, left, r);
    r
  }

  /** A trim with no margins is empty only when every character of `s` is whitespace. */
  lemma TrimNonEmpty(s: string, r: string, lead: int, t: string, lead': int)
    requires TrimOf(s, r, lead) && NoMargins(r) && TrimOf(s, t, lead')
    ensures |r| > 0 ==> |t| > 0
  {
    assert |r| > 0 ==> s[lead] == r[0];
  }

  /** A margin-free trim starts no later, and ends no earlier, than any other trim. */
  lemma TrimBounds(s: string, r: string, lead: int, t: string, lead': int)
    requires TrimOf(s, r, lead) && TrimOf(s, t, lead') && NoMargins(t) && |t| > 0
    ensures lead <= lead' && lead' + |t| <= lead + |r|
  {
    assert s[lead'] == t[0];
    assert s[lead' + |t| - 1] == t[|t| - 1];
  }

  /** Stripping is determined by the whitespace test alone: the only margin-free trim of `s` is `Strip(s)`. */
  lemma TrimIsUnique(s: string, r: string, lead: int)
    requires TrimOf(s, r, lead) && NoMargins(r)
    ensures r == Strip(s)
  {
    var t := Strip(s);
    var lead' :| TrimOf(s, t, lead');
    TrimNonEmpty(s, r, lead, t, lead');
    TrimNonEmpty(s, t, lead', r, lead);
    if |r| > 0 {
      TrimBounds(s, r, lead, t, lead');
      TrimBounds(s, t, lead', r, lead);
    }
  }

  /** Stripping twice is stripping once. */
  lemma StripIdempotent(s: string)
    ensures Strip(Strip(s)) == Strip(s)
  {
    var r := Strip(s);
    assert TrimOf(r, r, 0);
    TrimIsUnique(r, r, 0);
  }

  /** `pat` occurs in `s` starting at index `j`. */
  predicate OccursAt(s: string, pat: string, j: int) {
    0 <= j && j + |pat| <= |s| && s[j..j + |pat|] == pat
  }

  /** The first occurrence of `pat` in `s` at or after `from`. */
  function IndexFrom(s: string, pat: string, from: nat): (r: Option<nat>)
    ensures r.Some? ==> from <= r.value && OccursAt(s, pat, r.value)
    ensures r.Some? ==> forall j :: from <= j < r.value ==> !OccursAt(s, pat, j)
    ensures r.None? ==> forall j :: from <= j ==> !OccursAt(s, pat, j)
    decreases |s| - from
  {
    if from + |pat| > |s| then None
    else if s[from..from + |pat|] == pat then Some(from)
    else IndexFrom(s, pat, from + 1)
  }

  /** Python's `s.find(pat)`, as an option: the first occurrence. */
  function IndexOf(s: string, pat: string): Option<nat> {
    IndexFrom(s, pat, 0)
  }

  /** Python's `pat in s`. */
  function Contains(s: string, pat: string): (b: bool)
    ensures b <==> exists j :: OccursAt(s, pat, j)
  {
    var r := IndexOf(s, pat);
    if r.Some? then assert OccursAt(s, pat, r.value); true else false
  }

  /** A slice of a slice is a slice of the original. */
  lemma SliceOfSlice(s: string, a: nat, b: nat, i: nat, j: nat)
    requires a <= b <= |s| && i <= j <= b - a
    ensures s[a..b][i..j] == s[a + i..a + j]
  {
    forall m | 0 <= m < j - i
      ensures s[a..b][i..j][m] == s[a + i..a + j][m]
    {
    }
  }

  /** A slice of a string that does not contain `pat` does not contain it either. */
  lemma InfixKeepsAbsence(s: string, pat: string, a: nat, b: nat, part: string)
    requires a <= b <= |s| && part == s[a..b] && !Contains(s, pat)
    ensures !Contains(part, pat)
  {
    forall j | 0 <= j && j + |pat| <= |part|
      ensures !OccursAt(part, pat, j)
    {
      SliceOfSlice(s, a, b, j, j + |pat|);
      assert !OccursAt(s, pat, a + j);
    }
  }

  /** The text before the first `sep`, or all of `s` when there is none. */
  function Before(s: string, sep: string): string {
    match IndexOf(s, sep)
    case Some(i) => s[..i]
    case None => s
  }

  /** The text after the first `sep`, or "" when there is none. */
  function After(s: string, sep: string): string {
    match IndexOf(s, sep)
    case Some(i) => s[i + |sep|..]
    case None => ""
  }

  /** `s.split(sep)` for a non-empty separator: cut at every occurrence, scanning left to right. */
  function Split(s: string, sep: string): (parts: seq<string>)
    requires |sep| > 0
    ensures |parts| >= 1
    decreases |s|
  {
    match IndexOf(s, sep)
    case None => [s]
    case Some(i) => [s[..i]] + Split(s[i + |sep|..], sep)
  }

  /**
   * The split cuts at the leftmost occurrence first: with `i` the first index where `sep`
   * occurs, the pieces are `s[..i]` followed by the split of the rest after that occurrence.
   * For a self-overlapping separator this fixes which occurrences count: `"aaa"` split at
   * `"aa"` is `["", "a"]`, never `["a", ""]`.
   */
  lemma SplitAtLeftmost(s: string, sep: string, i: nat)
    requires |sep| > 0 && OccursAt(s, sep, i)
    requires forall j :: 0 <= j < i ==> !OccursAt(s, sep, j)
    ensures Split(s, sep) == [s[..i]] + Split(s[i + |sep|..], sep)
  {
    FirstOccurrence(s, sep, i);
  }

  /** `IndexOf` finds the first occurrence. */
  lemma FirstOccurrence(s: string, sep: string, i: nat)
    requires OccursAt(s, sep, i)
    requires forall j :: 0 <= j < i ==> !OccursAt(s, sep, j)
    ensures IndexOf(s, sep) == Some(i)
  {
    var r := IndexFrom(s, sep, 0);
    assert r != None;
    assert !(r.value < i);
  }

  /** Without an occurrence of `sep`, the split is the whole string as its only piece. */
  lemma SplitWithoutSeparator(s: string, sep: string)
    requires |sep| > 0 && !Contains(s, sep)
    ensures Split(s, sep) == [s]
  {
  }

  /** A concrete self-overlapping case: the leftmost scan gives Python's `["", "a"]`. */
  lemma SplitOverlapping()
    ensures Split("aaa", "aa") == ["", "a"]
  {
    SplitAtLeftmost("aaa", "aa", 0);
    assert "aaa"[2..] == "a";
    assert !OccursAt("a", "aa", 0);
    SplitWithoutSeparator("a", "aa");
  }

  /** `sep.join(parts)`. */
  function JoinWith(sep: string, parts: seq<string>): string {
    if |parts| == 0 then ""
    else if |parts| == 1 then parts[0]
    else parts[0] + sep + JoinWith(sep, parts[1..])
  }

  /** Joining the pieces of a split with the same separator gives the original string back. */
  lemma {:induction false} SplitJoin(s: string, sep: string)
    requires |sep| > 0
    ensures JoinWith(sep, Split(s, sep)) == s
    decreases |s|
  {
    var idx := IndexOf(s, sep);
    if idx.Some? {
      var i := idx.value;
      var rest := s[i + |sep|..];
      var tail := Split(rest, sep);
      SplitJoin(rest, sep);
      assert Split(s, sep) == [s[..i]] + tail;
      assert JoinWith(sep, [s[..i]] + tail) == s[..i] + sep + JoinWith(sep, tail) by {
        assert ([s[..i]] + tail)[1..] == tail;
      }
      assert s[i..i + |sep|] == sep;
      assert s == s[..i] + s[i..i + |sep|] + rest;
    }
  }

  /** The text before the first occurrence of `sep` does not contain it. */
  lemma PrefixBeforeFirst(s: string, sep: string, i: nat)
    requires |sep| > 0 && IndexOf(s, sep) == Some(i)
    ensures !Contains(s[..i], sep)
  {
    var head := s[..i];
    assert head == s[0..i];
    forall j | 0 <= j && j + |sep| <= |head|
      ensures !OccursAt(head, sep, j)
    {
      SliceOfSlice(s, 0, i, j, j + |sep|);
      assert j < i;
      assert !OccursAt(s, sep, j);
    }
  }

  /** No piece of a split contains the separator. */
  lemma {:induction false} SplitPiecesAreSeparatorFree(s: string, sep: string, k: nat)
    requires |sep| > 0 && k < |Split(s, sep)|
    ensures !Contains(Split(s, sep)[k], sep)
    decreases |s|
  {
    match IndexOf(s, sep)
    case None =>
    case Some(i) =>
      var rest := s[i + |sep|..];
      assert Split(s, sep) == [s[..i]] + Split(rest, sep);
      if k == 0 {
        PrefixBeforeFirst(s, sep, i);
      } else {
        SplitPiecesAreSeparatorFree(rest, sep, k - 1);
      }
  }

  /** The first two pieces of a split are the text before the first separator and the text between the first and the second. */
  lemma SplitHead(s: string, sep: string)
    requires |sep| > 0
    ensures |Split(s, sep)| >= 2 <==> Contains(s, sep)
    ensures Split(s, sep)[0] == Before(s, sep)
    ensures Contains(s, sep) ==> Split(s, sep)[1] == Before(After(s, sep), sep)
  {
    match IndexOf(s, sep)
    case None =>
    case Some(i) =>
      var rest := s[i + |sep|..];
      assert After(s, sep) == rest;
      match IndexOf(rest, sep)
      case None =>
      case Some(i2) =>
  }
}

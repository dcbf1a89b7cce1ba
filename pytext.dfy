/** The three Python string operations the recipient parser relies on, with the
    semantics of CPython's `str` (a string is a sequence of code points). */
module PyText {

  /** `str.isspace()` for one code point: the characters that a bare `str.strip()`
      removes (ASCII tab to carriage return, the four information separators,
      space, NEL, no-break space and the Unicode space separators). */
  predicate IsSpace(c: char)
  {
    || '\t' <= c <= '\r'
    || '\U{1C}' <= c <= '\U{1F}'
    || c == ' '
    || c == '\U{85}'
    || c == '\U{A0}'
    || c == '\U{1680}'
    || '\U{2000}' <= c <= '\U{200A}'
    || c == '\U{2028}'
    || c == '\U{2029}'
    || c == '\U{202F}'
    || c == '\U{205F}'
    || c == '\U{3000}'
  }

  predicate AllSpace(s: string)
  {
    forall k :: 0 <= k < |s| ==> IsSpace(s[k])
  }

  /** Length of the longest all-whitespace prefix of `s`. */
  function LeadingSpace(s: string): (i: nat)
    ensures i <= |s| && AllSpace(s[..i])
    ensures i < |s| ==> !IsSpace(s[i])
  {
    if s == [] || !IsSpace(s[0]) then 0
    else
      var i := 1 + LeadingSpace(s[1..]);
      assert forall k :: 1 <= k < i ==> s[..i][k] == s[1..][..i - 1][k - 1];
      i
  }

  /** Length of `s` without its longest all-whitespace suffix. */
  function TrailingStart(s: string): (j: nat)
    ensures j <= |s| && AllSpace(s[j..])
    ensures 0 < j ==> !IsSpace(s[j - 1])
  {
    if s == [] || !IsSpace(s[|s| - 1]) then |s|
    else
      var j := TrailingStart(s[..|s| - 1]);
      assert forall k :: 0 <= k < |s| - 1 - j ==> s[j..][k] == s[..|s| - 1][j..][k];
      j
  }

  /** `s.strip()`: drop leading and trailing whitespace. */
  function Strip(s: string): (r: string)
  {
    var t := s[LeadingSpace(s)..];
    t[..TrailingStart(t)]
  }

  /** What `strip` leaves is the middle of `s` between an all-whitespace prefix and an
      all-whitespace suffix, and it neither starts nor ends with whitespace; these two
      facts determine the result. */
  lemma StripShape(s: string)
    ensures var i, r := LeadingSpace(s), Strip(s);
            && i + |r| <= |s|
            && s == s[..i] + r + s[i + |r|..]
            && AllSpace(s[..i]) && AllSpace(s[i + |r|..])
            && (r == [] || (!IsSpace(r[0]) && !IsSpace(r[|r| - 1])))
  {
    var i := LeadingSpace(s);
    var t := s[i..];
    var j := TrailingStart(t);
    StripPieces(s, i, t, j);
  }

  /** The sequence facts behind `StripShape`, stated for the two cut points. */
  lemma StripPieces(s: string, i: nat, t: string, j: nat)
    requires i <= |s| && t == s[i..] && j <= |t|
    requires AllSpace(t[j..]) && (i < |s| ==> !IsSpace(s[i])) && (0 < j ==> !IsSpace(t[j - 1]))
    ensures var r := t[..j];
            && s == s[..i] + r + s[i + j..]
            && AllSpace(s[i + j..])
            && (r == [] || (!IsSpace(r[0]) && !IsSpace(r[j - 1])))
  {
    assert s[i + j..] == t[j..];
    assert s == s[..i] + t;
    assert t == t[..j] + t[j..];
  }

  /** Stripping twice is stripping once. */
  lemma StripIdempotent(s: string)
    ensures Strip(Strip(s)) == Strip(s)
  {
    StripShape(s);
    var r := Strip(s);
    StripOfTrimmed(r);
  }

  /** A string that neither starts nor ends with whitespace is its own strip. */
  lemma StripOfTrimmed(r: string)
    requires r == [] || (!IsSpace(r[0]) && !IsSpace(r[|r| - 1]))
    ensures Strip(r) == r
  {
    assert LeadingSpace(r) == 0;
    assert r[0..] == r;
  }

  /** Whether `sep` occurs in `s` starting at position `i`. */
  predicate OccursAt(s: string, sep: string, i: nat)
  {
    i + |sep| <= |s| && s[i..i + |sep|] == sep
  }

  predicate Contains(s: string, sep: string)
  {
    exists i: nat :: i <= |s| && OccursAt(s, sep, i)
  }

  /** `s.split(sep)` for a non-empty separator: the pieces between the leftmost
      non-overlapping occurrences of `sep`. `from` is where the search for the next
      occurrence resumes within the current piece. */
  function SplitFrom(s: string, sep: string, from: nat): (pieces: seq<string>)
    requires sep != [] && from <= |s|
    requires forall i: nat :: i < from ==> !OccursAt(s, sep, i)
    ensures |pieces| >= 1
    ensures forall k :: 0 <= k < |pieces| ==> !Contains(pieces[k], sep)
    ensures Join(pieces, sep) == s
    decreases |s|, |s| - from
  {
    if from + |sep| > |s| then
      [s]
    else if s[from..from + |sep|] == sep then
      var head, rest := s[..from], s[from + |sep|..];
      NoOccurrencePrefix(s, sep, from);
      var tail := SplitFrom(rest, sep, 0);
      assert s == head + sep + rest;
      [head] + tail
    else
      SplitFrom(s, sep, from + 1)
  }

  /** `s.split(sep)`. */
  function Split(s: string, sep: string): (pieces: seq<string>)
    requires sep != []
  {
    SplitFrom(s, sep, 0)
  }

  /** `sep.join(pieces)`, the inverse of `Split`. */
  function Join(pieces: seq<string>, sep: string): string
  {
    if |pieces| == 0 then []
    else if |pieces| == 1 then pieces[0]
    else pieces[0] + sep + Join(pieces[1..], sep)
  }

  lemma NoOccurrencePrefix(s: string, sep: string, from: nat)
    requires sep != [] && from <= |s|
    requires forall i: nat :: i < from ==> !OccursAt(s, sep, i)
    ensures !Contains(s[..from], sep)
  {
    forall i: nat | i <= from && OccursAt(s[..from], sep, i)
      ensures false
    {
      assert i < from;
      assert s[..from][i..i + |sep|] == s[i..i + |sep|];
      assert OccursAt(s, sep, i);
    }
  }

  /** A string without the separator is split into itself alone. */
  lemma SplitWithoutSeparator(s: string, sep: string)
    requires sep != [] && !Contains(s, sep)
    ensures Split(s, sep) == [s]
  {
    var from: nat := 0;
    while from + |sep| <= |s|
      invariant from <= |s|
      invariant forall i: nat :: i < from ==> !OccursAt(s, sep, i)
      invariant SplitFrom(s, sep, 0) == SplitFrom(s, sep, from)
      decreases |s| - from
    {
      assert !OccursAt(s, sep, from);
      from := from + 1;
    }
  }

  /** `s.split(c, 1)`: `[s]` when `c` does not occur, otherwise the text before the
      first `c` and the text after it. */
  function SplitOnce(s: string, c: char): (parts: seq<string>)
    ensures |parts| == 1 || |parts| == 2
    ensures |parts| == 2 <==> c in s
    ensures |parts| == 1 ==> parts[0] == s
    ensures |parts| == 2 ==> s == parts[0] + [c] + parts[1] && c !in parts[0]
  {
    if s == [] then [s]
    else if s[0] == c then [[], s[1..]]
    else
      var parts := SplitOnce(s[1..], c);
      assert s == [s[0]] + s[1..];
      if |parts| == 1 then [s] else [[s[0]] + parts[0], parts[1]]
  }
}

/**
 * Text primitives over Python 2 byte strings: the ASCII character classes
 * behind the regular expressions `\d` and `\s`, searching, and `str.split` /
 * `str.join` on the USSD line terminator "\r\n".
 */
module Strings {
  import opened Base

  const CRLF: string := "\r\n"

  /** `\d` on a Python 2 byte string. */
  predicate IsDigit(c: char) { '0' <= c <= '9' }

  /** `\s` on a Python 2 byte string: space, \t, \n, \r, \f and \v. */
  predicate IsSpace(c: char) {
    c == ' ' || c == '\t' || c == '\n' || c == '\r' || c == '\U{0C}' || c == '\U{0B}'
  }

  /** No newline among `s[i..j]`: the stretch a non-DOTALL `.` may cover. */
  predicate NoNewline(s: string, i: int, j: int) {
    0 <= i <= j <= |s| && forall k | i <= k < j :: s[k] != '\n'
  }

  predicate AllSpace(s: string, i: int, j: int) {
    0 <= i <= j <= |s| && forall k | i <= k < j :: IsSpace(s[k])
  }

  predicate AllDigits(s: string, i: int, j: int) {
    0 <= i <= j <= |s| && forall k | i <= k < j :: IsDigit(s[k])
  }

  /** First index at or after `from` holding `c`. */
  function FindChar(s: string, c: char, from: nat): (r: Option<nat>)
    ensures r.Some? ==> from <= r.value < |s| && s[r.value] == c
    ensures r.Some? ==> forall k | from <= k < r.value :: s[k] != c
    ensures r.None? ==> forall k | from <= k < |s| :: s[k] != c
    decreases |s| - from
  {
    if from >= |s| then None
    else if s[from] == c then Some(from)
    else FindChar(s, c, from + 1)
  }

  /** First index at or after `from` holding a `\s` character. */
  function FindSpace(s: string, from: nat): (r: Option<nat>)
    ensures r.Some? ==> from <= r.value < |s| && IsSpace(s[r.value])
    ensures r.Some? ==> forall k | from <= k < r.value :: !IsSpace(s[k])
    ensures r.None? ==> forall k | from <= k < |s| :: !IsSpace(s[k])
    decreases |s| - from
  {
    if from >= |s| then None
    else if IsSpace(s[from]) then Some(from)
    else FindSpace(s, from + 1)
  }

  /** End of the longest run of `\s` starting at `i`: what a greedy `\s*` consumes. */
  function SkipSpaces(s: string, i: nat): (j: nat)
    requires i <= |s|
    ensures i <= j <= |s| && AllSpace(s, i, j)
    ensures j == |s| || !IsSpace(s[j])
    decreases |s| - i
  {
    if i < |s| && IsSpace(s[i]) then SkipSpaces(s, i + 1) else i
  }

  /** End of the longest run of `\d` starting at `i`: what a greedy `\d*` consumes. */
  function SkipDigits(s: string, i: nat): (j: nat)
    requires i <= |s|
    ensures i <= j <= |s| && AllDigits(s, i, j)
    ensures j == |s| || !IsDigit(s[j])
    decreases |s| - i
  {
    if i < |s| && IsDigit(s[i]) then SkipDigits(s, i + 1) else i
  }

  /** `sub` occurs in `s` starting at index `i`. */
  predicate OccursAt(s: string, sub: string, i: int) {
    0 <= i && i + |sub| <= |s| && s[i..i + |sub|] == sub
  }

  /** Python's `s.find(sub, from)`, as an option: the first occurrence at or after `from`. */
  function IndexOf(s: string, sub: string, from: nat): (r: Option<nat>)
    ensures r.Some? ==> from <= r.value && OccursAt(s, sub, r.value)
    ensures r.Some? ==> forall j | from <= j < r.value :: !OccursAt(s, sub, j)
    ensures r.None? ==> forall j | from <= j :: !OccursAt(s, sub, j)
    decreases |s| - from
  {
    if from + |sub| > |s| then None
    else if s[from..from + |sub|] == sub then Some(from)
    else IndexOf(s, sub, from + 1)
  }

  /** Python's `sub in s`. */
  predicate Contains(s: string, sub: string) {
    IndexOf(s, sub, 0).Some?
  }

  lemma ContainsMeansOccurs(s: string, sub: string)
    ensures Contains(s, sub) <==> exists i :: OccursAt(s, sub, i)
  {
  }

  /** Python's `s.split('\r\n')`. */
  function Split(s: string): (r: seq<string>)
    ensures |r| >= 1
    decreases |s|
  {
    match IndexOf(s, CRLF, 0)
    case None => [s]
    case Some(i) => [s[..i]] + Split(s[i + 2..])
  }

  /** Python's `'\r\n'.join(lines)`. */
  function Join(lines: seq<string>): string
  {
    if |lines| == 0 then ""
    else if |lines| == 1 then lines[0]
    else lines[0] + CRLF + Join(lines[1..])
  }

  /** A join of two or more lines starts with the first line and a terminator. */
  lemma JoinCons(lines: seq<string>)
    requires |lines| >= 2
    ensures Join(lines) == lines[0] + CRLF + Join(lines[1..])
  {
  }

  /** Joining the pieces of a split gives back the text. */
  lemma {:induction false} JoinSplit(s: string)
    ensures Join(Split(s)) == s
    decreases |s|
  {
    match IndexOf(s, CRLF, 0)
    case None =>
    case Some(i) =>
      var rest := Split(s[i + 2..]);
      JoinSplit(s[i + 2..]);
      assert Split(s) == [s[..i]] + rest;
      assert ([s[..i]] + rest)[1..] == rest;
      assert Join(Split(s)) == s[..i] + CRLF + Join(rest);
      assert s == s[..i] + CRLF + s[i + 2..];
  }

  /** No piece of a split contains the terminator. */
  lemma {:induction false} SplitPiecesHaveNoTerminator(s: string)
    ensures forall k | 0 <= k < |Split(s)| :: !Contains(Split(s)[k], CRLF)
    decreases |s|
  {
    match IndexOf(s, CRLF, 0)
    case None =>
      ContainsMeansOccurs(s, CRLF);
    case Some(i) =>
      SplitPiecesHaveNoTerminator(s[i + 2..]);
      var head := s[..i];
      ContainsMeansOccurs(head, CRLF);
      forall j | OccursAt(head, CRLF, j) ensures false {
        assert s[j..j + 2] == head[j..j + 2];
        assert OccursAt(s, CRLF, j);
      }
  }

  /** A text without a carriage return holds no line terminator. */
  lemma NoCarriageReturn(s: string)
    requires forall k | 0 <= k < |s| :: s[k] != '\r'
    ensures !Contains(s, CRLF)
  {
    forall i | 0 <= i && i + 2 <= |s| ensures !OccursAt(s, CRLF, i) {
      assert s[i..i + 2][0] == s[i] != '\r';
    }
    ContainsMeansOccurs(s, CRLF);
  }

  /** A text splits into a single piece exactly when it holds no terminator. */
  lemma SplitSingle(s: string)
    ensures |Split(s)| == 1 <==> !Contains(s, CRLF)
  {
  }

  /** In `head + "\r\n" + tail` the first terminator is the one after `head`, when `head` holds none. */
  lemma FirstTerminator(head: string, tail: string)
    requires !Contains(head, CRLF)
    ensures IndexOf(head + CRLF + tail, CRLF, 0) == Some(|head|)
  {
    var s := head + CRLF + tail;
    assert OccursAt(s, CRLF, |head|) by {
      assert s[|head|..|head| + 2] == CRLF;
    }
    ContainsMeansOccurs(head, CRLF);
    assert s[|head|] == '\r';
    forall j | 0 <= j < |head| ensures !OccursAt(s, CRLF, j) {
      if j + 2 <= |head| {
        assert head[j..j + 2] == s[j..j + 2];
        assert !OccursAt(head, CRLF, j);
      } else {
        assert s[j..j + 2][1] == s[|head|] == '\r';
      }
    }
  }

  /** Splitting the join of terminator-free lines gives back the lines. */
  lemma {:induction false} SplitJoin(lines: seq<string>)
    requires |lines| >= 1
    requires forall k | 0 <= k < |lines| :: !Contains(lines[k], CRLF)
    ensures Split(Join(lines)) == lines
    decreases |lines|
  {
    if |lines| == 1 {
      assert Join(lines) == lines[0];
    } else {
      JoinCons(lines);
      SplitAfterFirst(lines[0], Join(lines[1..]));
      SplitJoin(lines[1..]);
      assert lines == [lines[0]] + lines[1..];
    }
  }

  /** A text whose first line is `head` splits into `head` and the pieces of the rest. */
  lemma SplitAfterFirst(head: string, tail: string)
    requires !Contains(head, CRLF)
    ensures Split(head + CRLF + tail) == [head] + Split(tail)
  {
    var s := head + CRLF + tail;
    FirstTerminator(head, tail);
    assert s[..|head|] == head;
    assert s[|head| + 2..] == tail;
  }

  function DigitChar(d: nat): (c: char)
    requires d < 10
    ensures IsDigit(c)
  {
    "0123456789"[d]
  }

  /** Python's `str(n)` for a non-negative integer. */
  function NatToString(n: nat): (r: string)
    ensures |r| >= 1 && AllDigits(r, 0, |r|)
    decreases n
  {
    if n < 10 then [DigitChar(n)] else NatToString(n / 10) + [DigitChar(n % 10)]
  }

  /** Python's `str(n)` (and `'%s' % n`) for an integer. */
  function IntToString(n: int): string
  {
    if n < 0 then "-" + NatToString(-n) else NatToString(n)
  }
}

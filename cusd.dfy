/**
 * Modem._handleUssd (modem.py:14-21): a USSD notification longer than one
 * line reaches the handler split into several lines. The handler joins them
 * again with "\r\n" and cuts the text into whole notifications with
 * `re.findall('\+CUSD:\s*\d,".*?",\d+', joined, re.DOTALL)`; the pieces are
 * what it hands on to GsmModem's own handler.
 */
module Cusd {
  import opened Base
  import opened Strings

  const Prefix: string := "+CUSD:"

  /** The pattern's literal `+CUSD:` at `p`, read character by character. */
  predicate PrefixAt(s: string, p: nat) {
    && p + 6 <= |s| && s[p] == '+' && s[p + 1] == 'C' && s[p + 2] == 'U'
    && s[p + 3] == 'S' && s[p + 4] == 'D' && s[p + 5] == ':'
  }

  /** Character by character is the same as comparing the slice with `Prefix`. */
  lemma PrefixAtSlice(s: string, p: nat)
    ensures PrefixAt(s, p) <==> p + 6 <= |s| && s[p..p + 6] == Prefix
  {
    if p + 6 <= |s| {
      forall k | p <= k < p + 6 ensures s[p..p + 6][k - p] == s[k] {
      }
      assert Prefix == ['+', 'C', 'U', 'S', 'D', ':'];
    }
  }

  /** `",<digit>` starts at `j`: where the lazy `.*?` body may stop. */
  predicate CloserAt(s: string, j: int) {
    0 <= j && j + 3 <= |s| && s[j] == '"' && s[j + 1] == ',' && IsDigit(s[j + 2])
  }

  /** The first closer at or after `from`: the lazy body stops at the earliest one. */
  function FirstCloser(s: string, from: nat): (r: Option<nat>)
    ensures r.Some? ==> from <= r.value && CloserAt(s, r.value)
    ensures r.Some? ==> forall j | from <= j < r.value :: !CloserAt(s, j)
    ensures r.None? ==> forall j | from <= j :: !CloserAt(s, j)
    decreases |s| - from
  {
    if from + 3 > |s| then None
    else if CloserAt(s, from) then Some(from)
    else FirstCloser(s, from + 1)
  }

  /**
   * The end of the match of the pattern starting exactly at `p`, if any: the
   * prefix, the longest whitespace run (backing off from it never helps,
   * since a digit must follow), a status digit, `,"`, the body up to the
   * first closer, and the longest run of digits after the comma.
   */
  function MatchAt(s: string, p: nat): (r: Option<nat>)
    ensures r.Some? ==> PrefixAt(s, p) && p + 6 < r.value <= |s|
  {
    if !PrefixAt(s, p) then None
    else
      var w := SkipSpaces(s, p + 6);
      if w + 3 <= |s| && IsDigit(s[w]) && s[w + 1] == ',' && s[w + 2] == '"' then
        match FirstCloser(s, w + 3)
        case Some(j) => Some(SkipDigits(s, j + 2))
        case None => None
      else None
  }

  /** `+CUSD:<ws><status>,"<body>",<code>`: the text of one notification. */
  function Notification(ws: string, status: char, body: string, code: string): string {
    Prefix + ws + [status] + ",\"" + body + "\"," + code
  }

  /** `body` holds no `",<digit>`, so the lazy body cannot stop inside it. */
  predicate NoCloser(body: string) {
    forall j | 0 <= j && j + 3 <= |body| :: !CloserAt(body, j)
  }

  /** `t` is the notification with these parts, a status digit, a body without closer and a digit code. */
  predicate NotificationParts(t: string, ws: string, status: char, body: string, code: string) {
    && t == Notification(ws, status, body, code)
    && AllSpace(ws, 0, |ws|) && IsDigit(status) && NoCloser(body)
    && |code| >= 1 && AllDigits(code, 0, |code|)
  }

  /** What a match of the pattern looks like. */
  ghost predicate WellFormed(t: string) {
    exists ws, status, body, code :: NotificationParts(t, ws, status, body, code)
  }

  /** The text between two cuts is the concatenation of the texts between consecutive cuts. */
  lemma SliceSplit(s: string, a: nat, b: nat, c: nat)
    requires a <= b <= c <= |s|
    ensures s[a..c] == s[a..b] + s[b..c]
  {
  }

  /** The cut points of a match at `p`: whitespace from `p + 6` to `w`, body to `j`, code digits to `e`. */
  lemma MatchParts(s: string, p: nat) returns (w: nat, j: nat, e: nat)
    requires MatchAt(s, p).Some?
    ensures p + 6 <= w && w + 3 <= j && j + 3 <= e <= |s| && MatchAt(s, p) == Some(e)
    ensures s[p..p + 6] == Prefix && AllSpace(s, p + 6, w)
    ensures IsDigit(s[w]) && s[w + 1] == ',' && s[w + 2] == '"'
    ensures CloserAt(s, j) && forall k | w + 3 <= k < j :: !CloserAt(s, k)
    ensures AllDigits(s, j + 2, e)
  {
    w := SkipSpaces(s, p + 6);
    j := FirstCloser(s, w + 3).value;
    e := SkipDigits(s, j + 2);
    PrefixAtSlice(s, p);
  }

  /** The matched text, cut at those points, reads as a notification. */
  lemma PartsFormNotification(s: string, p: nat, w: nat, j: nat, e: nat)
    requires p + 6 <= w && w + 3 <= j && j + 2 <= e <= |s|
    requires s[p..p + 6] == Prefix && s[w + 1] == ',' && s[w + 2] == '"' && s[j] == '"' && s[j + 1] == ','
    ensures s[p..e] == Notification(s[p + 6..w], s[w], s[w + 3..j], s[j + 2..e])
  {
    SliceSplit(s, p, p + 6, w);
    assert s[p..w] == Prefix + s[p + 6..w];
    SliceSplit(s, p, w, w + 1);
    assert s[w..w + 1] == [s[w]];
    SliceSplit(s, p, w + 1, w + 3);
    assert s[w + 1..w + 3] == ",\"";
    SliceSplit(s, p, w + 3, j);
    SliceSplit(s, p, j, j + 2);
    assert s[j..j + 2] == "\",";
    SliceSplit(s, p, j + 2, e);
  }

  /** A match at `p` spans a well-formed notification, beginning with the prefix and ending with a digit. */
  lemma MatchAtMeaning(s: string, p: nat)
    ensures MatchAt(s, p).Some? ==>
              p + 6 < MatchAt(s, p).value <= |s| && WellFormed(s[p..MatchAt(s, p).value]) &&
              s[p..p + 6] == Prefix && IsDigit(s[MatchAt(s, p).value - 1])
  {
    if MatchAt(s, p).Some? {
      var w, j, e := MatchParts(s, p);
      var ws, body, code := s[p + 6..w], s[w + 3..j], s[j + 2..e];
      PartsFormNotification(s, p, w, j, e);
      assert AllSpace(ws, 0, |ws|) by {
        forall k | 0 <= k < |ws| ensures IsSpace(ws[k]) { assert ws[k] == s[p + 6 + k]; }
      }
      assert NoCloser(body) by {
        forall k | 0 <= k && k + 3 <= |body| ensures !CloserAt(body, k) {
          assert !CloserAt(s, w + 3 + k);
        }
      }
      assert AllDigits(code, 0, |code|) by {
        forall k | 0 <= k < |code| ensures IsDigit(code[k]) { assert code[k] == s[j + 2 + k]; }
      }
      assert IsDigit(s[e - 1]);
      assert NotificationParts(s[p..e], ws, s[w], body, code);
    }
  }

  /** Where the parts of a notification sit in its text. */
  lemma NotificationLayout(ws: string, status: char, body: string, code: string)
    ensures var t, w := Notification(ws, status, body, code), 6 + |ws|;
            var j := w + 3 + |body|;
            && |t| == j + 2 + |code| && t[..6] == Prefix && t[6..w] == ws
            && t[w] == status && t[w + 1] == ',' && t[w + 2] == '"'
            && t[w + 3..j] == body && t[j] == '"' && t[j + 1] == ',' && t[j + 2..] == code
  {
  }

  /** Conversely, a well-formed notification at `p` is matched there, and the match ends where the code's digits stop. */
  lemma NotificationMatches(s: string, p: nat, t: string, ws: string, status: char, body: string, code: string)
    requires NotificationParts(t, ws, status, body, code) && TextAt(s, p, t)
    ensures MatchAt(s, p) == Some(SkipDigits(s, p + |t|))
  {
    var w, j := NotificationCuts(s, p, t, ws, status, body, code);
    CutsGiveMatch(s, p, w, j, p + |t|);
  }

  /** The engine's cut points over a notification placed at `p`. */
  lemma NotificationCuts(s: string, p: nat, t: string, ws: string, status: char, body: string, code: string)
      returns (w: nat, j: nat)
    requires NotificationParts(t, ws, status, body, code) && TextAt(s, p, t)
    ensures Cuts(s, p, w, j, p + |t|)
  {
    TextAtSlice(s, p, t);
    w, j := NotificationParsed(s, p, ws, status, body, code);
  }

  /**
   * The cut points of the engine's walk from `p`: the prefix, the whitespace
   * run ending at `w`, the status and `,"`, the lazy body ending at the closer
   * at `j`, and the code's digits running at least up to `e`.
   */
  predicate Cuts(s: string, p: nat, w: nat, j: nat, e: nat) {
    && p + 6 <= w && w + 3 <= j && j + 2 < e <= |s|
    && PrefixAt(s, p) && SkipSpaces(s, p + 6) == w
    && IsDigit(s[w]) && s[w + 1] == ',' && s[w + 2] == '"' && FirstCloser(s, w + 3) == Some(j)
    && e <= SkipDigits(s, j + 2)
  }

  /** The engine's cut points with the code's digits running up to `e` give the match that ends where that run stops. */
  lemma CutsGiveMatch(s: string, p: nat, w: nat, j: nat, e: nat)
    requires Cuts(s, p, w, j, e)
    ensures MatchAt(s, p) == Some(SkipDigits(s, e))
  {
    PartsGiveMatch(s, p, w, j);
    SkipDigitsWithin(s, j + 2, e);
  }

  /** How the engine walks over a notification at `p`: the cut points it finds. */
  lemma NotificationParsed(s: string, p: nat, ws: string, status: char, body: string, code: string)
      returns (w: nat, j: nat)
    requires AllSpace(ws, 0, |ws|) && IsDigit(status) && NoCloser(body)
    requires |code| >= 1 && AllDigits(code, 0, |code|)
    requires p + |Notification(ws, status, body, code)| <= |s|
    requires s[p..p + |Notification(ws, status, body, code)|] == Notification(ws, status, body, code)
    ensures p + 6 <= w && w + 3 <= j && j + 2 < p + |Notification(ws, status, body, code)|
    ensures PrefixAt(s, p) && SkipSpaces(s, p + 6) == w
    ensures IsDigit(s[w]) && s[w + 1] == ',' && s[w + 2] == '"' && FirstCloser(s, w + 3) == Some(j)
    ensures p + |Notification(ws, status, body, code)| <= SkipDigits(s, j + 2)
  {
    w := p + 6 + |ws|;
    j := w + 3 + |body|;
    NotificationInText(s, p, ws, status, body, code);
    PrefixAtSlice(s, p);
    PartsParsed(s, p, w, j, p + |Notification(ws, status, body, code)|, ws, body, code);
  }

  /** The engine's cut points, from the parts of a notification laid out in the text. */
  lemma PartsParsed(s: string, p: nat, w: nat, j: nat, e: nat, ws: string, body: string, code: string)
    requires AllSpace(ws, 0, |ws|) && NoCloser(body) && |code| >= 1 && AllDigits(code, 0, |code|)
    requires w == p + 6 + |ws| && j == w + 3 + |body| && e == j + 2 + |code| <= |s|
    requires s[p..p + 6] == Prefix && s[p + 6..w] == ws && IsDigit(s[w]) && s[w + 1] == ',' && s[w + 2] == '"'
    requires s[w + 3..j] == body && s[j] == '"' && s[j + 1] == ',' && s[j + 2..e] == code
    ensures SkipSpaces(s, p + 6) == w && FirstCloser(s, w + 3) == Some(j) && e <= SkipDigits(s, j + 2)
  {
    SpacesThenStatus(s, p + 6, w, ws);
    BodyThenCloser(s, w + 3, j, body, code);
    CodeDigits(s, j + 2, e, code);
  }

  /** The code's digits are all taken by the greedy `\d+`. */
  lemma CodeDigits(s: string, i: nat, e: nat, code: string)
    requires i <= e <= |s| && s[i..e] == code && AllDigits(code, 0, |code|)
    ensures e <= SkipDigits(s, i)
  {
    forall k | i <= k < e ensures IsDigit(s[k]) { assert s[k] == code[k - i]; }
    SkipDigitsPast(s, i, e);
  }

  /** Where the parts of a notification at `p` sit in the surrounding text. */
  lemma NotificationInText(s: string, p: nat, ws: string, status: char, body: string, code: string)
    requires p + |Notification(ws, status, body, code)| <= |s|
    requires s[p..p + |Notification(ws, status, body, code)|] == Notification(ws, status, body, code)
    ensures var w := p + 6 + |ws|;
            var j := w + 3 + |body|;
            var e := p + |Notification(ws, status, body, code)|;
            && e == j + 2 + |code| && s[p..p + 6] == Prefix && s[p + 6..w] == ws
            && s[w] == status && s[w + 1] == ',' && s[w + 2] == '"'
            && s[w + 3..j] == body && s[j] == '"' && s[j + 1] == ',' && s[j + 2..e] == code
  {
    NotificationLayout(ws, status, body, code);
    PartsInText(s, p, Notification(ws, status, body, code), ws, status, body, code);
  }

  /** The parts of a text laid out like a notification, placed at `p`, sit at the shifted positions. */
  lemma PartsInText(s: string, p: nat, t: string, ws: string, status: char, body: string, code: string)
    requires p + |t| <= |s| && s[p..p + |t|] == t
    requires var w := 6 + |ws|;
             var j := w + 3 + |body|;
             && |t| == j + 2 + |code| && t[..6] == Prefix && t[6..w] == ws
             && t[w] == status && t[w + 1] == ',' && t[w + 2] == '"'
             && t[w + 3..j] == body && t[j] == '"' && t[j + 1] == ',' && t[j + 2..] == code
    ensures var w := p + 6 + |ws|;
            var j := w + 3 + |body|;
            var e := p + |t|;
            && e == j + 2 + |code| && s[p..p + 6] == Prefix && s[p + 6..w] == ws
            && s[w] == status && s[w + 1] == ',' && s[w + 2] == '"'
            && s[w + 3..j] == body && s[j] == '"' && s[j + 1] == ',' && s[j + 2..e] == code
  {
    HeadInText(s, p, t, 6 + |ws|, ws, status);
    TailInText(s, p, t, 6 + |ws| + 3 + |body|, body, code);
  }

  /** The prefix, whitespace run, status digit and `,"` of a placed notification text. */
  lemma HeadInText(s: string, p: nat, t: string, w: nat, ws: string, status: char)
    requires p + |t| <= |s| && s[p..p + |t|] == t
    requires w == 6 + |ws| && w + 3 <= |t| && t[..6] == Prefix && t[6..w] == ws
    requires t[w] == status && t[w + 1] == ',' && t[w + 2] == '"'
    ensures s[p..p + 6] == Prefix && s[p + 6..p + w] == ws
    ensures s[p + w] == status && s[p + w + 1] == ',' && s[p + w + 2] == '"'
  {
    SubSlice(s, p, p + |t|, 0, 6);
    SubSlice(s, p, p + |t|, 6, w);
    assert s[p + w] == t[w] && s[p + w + 1] == t[w + 1] && s[p + w + 2] == t[w + 2];
  }

  /** The body, the closing `",` and the code of a placed notification text. */
  lemma TailInText(s: string, p: nat, t: string, j: nat, body: string, code: string)
    requires p + |t| <= |s| && s[p..p + |t|] == t
    requires |body| + 9 <= j && j + 2 + |code| == |t| && t[j - |body|..j] == body
    requires t[j] == '"' && t[j + 1] == ',' && t[j + 2..] == code
    ensures s[p + j - |body|..p + j] == body && s[p + j] == '"' && s[p + j + 1] == ','
    ensures s[p + j + 2..p + |t|] == code
  {
    SubSlice(s, p, p + |t|, j - |body|, j);
    SubSlice(s, p, p + |t|, j + 2, |t|);
    assert s[p + j] == t[j] && s[p + j + 1] == t[j + 1];
  }

  /** The cut points of the engine's walk determine the match. */
  lemma PartsGiveMatch(s: string, p: nat, w: nat, j: nat)
    requires p + 6 <= w && w + 3 <= j && j + 2 < |s|
    requires PrefixAt(s, p) && SkipSpaces(s, p + 6) == w
    requires IsDigit(s[w]) && s[w + 1] == ',' && s[w + 2] == '"' && FirstCloser(s, w + 3) == Some(j)
    ensures MatchAt(s, p) == Some(SkipDigits(s, j + 2))
  {
  }

  /** `t` sits in `s` at `p`, read character by character. */
  predicate TextAt(s: string, p: nat, t: string) {
    p + |t| <= |s| && forall i | 0 <= i < |t| :: s[p + i] == t[i]
  }

  /** Character by character is the same as the slice. */
  lemma TextAtSlice(s: string, p: nat, t: string)
    requires TextAt(s, p, t)
    ensures s[p..p + |t|] == t
  {
  }

  lemma SliceTextAt(s: string, p: nat, t: string)
    requires p + |t| <= |s| && s[p..p + |t|] == t
    ensures TextAt(s, p, t)
  {
    forall i | 0 <= i < |t| ensures s[p + i] == t[i] {
      assert s[p..p + |t|][i] == s[p + i];
    }
  }

  /** A slice of a slice is a slice. */
  lemma SubSlice(s: string, p: nat, e: nat, a: nat, b: nat)
    requires p <= e <= |s| && a <= b <= e - p
    ensures s[p..e][a..b] == s[p + a..p + b]
  {
    forall i | 0 <= i < b - a ensures s[p..e][a..b][i] == s[p + a..p + b][i] {
      assert s[p..e][a..b][i] == s[p..e][a + i];
    }
  }

  /** A whitespace run followed by a non-space ends the greedy `\s*`. */
  lemma SpacesThenStatus(s: string, i: nat, w: nat, ws: string)
    requires i <= w < |s| && s[i..w] == ws && AllSpace(ws, 0, |ws|) && IsDigit(s[w])
    ensures SkipSpaces(s, i) == w
  {
    forall k | i <= k < w ensures IsSpace(s[k]) { assert s[k] == ws[k - i]; }
    SkipSpacesUniqueFrom(s, i, w);
  }

  /** A body without closer followed by `",<digit>` ends the lazy `.*?` right there. */
  lemma BodyThenCloser(s: string, i: nat, j: nat, body: string, code: string)
    requires i <= j && j + 2 + |code| <= |s| && s[i..j] == body && NoCloser(body)
    requires s[j] == '"' && s[j + 1] == ',' && |code| >= 1 && IsDigit(code[0]) && s[j + 2..j + 2 + |code|] == code
    ensures FirstCloser(s, i) == Some(j)
  {
    assert s[j + 2] == code[0];
    forall k | i <= k < j ensures !CloserAt(s, k) {
      if k + 3 <= j {
        assert s[k] == body[k - i] && s[k + 1] == body[k - i + 1] && s[k + 2] == body[k - i + 2];
        assert !CloserAt(body, k - i);
      } else if k + 2 == j {
        assert s[k + 2] == '"';
      } else {
        assert s[k + 1] == '"';
      }
    }
    FirstCloserAt(s, i, j);
  }

  lemma SkipSpacesUniqueFrom(s: string, i: nat, j: nat)
    requires i <= j < |s| && AllSpace(s, i, j) && !IsSpace(s[j])
    ensures SkipSpaces(s, i) == j
    decreases j - i
  {
  }

  lemma FirstCloserAt(s: string, from: nat, j: nat)
    requires from <= j && CloserAt(s, j) && forall k | from <= k < j :: !CloserAt(s, k)
    ensures FirstCloser(s, from) == Some(j)
    decreases j - from
  {
  }

  /** After a run of digits, a greedy `\d*` ends at or beyond its end. */
  lemma SkipDigitsPast(s: string, i: nat, e: nat)
    requires i <= e <= |s| && AllDigits(s, i, e)
    ensures e <= SkipDigits(s, i)
    decreases e - i
  {
  }

  /** Starting the greedy `\d+` later inside the same run of digits ends it at the same place. */
  lemma SkipDigitsWithin(s: string, i: nat, e: nat)
    requires i <= e <= |s| && e <= SkipDigits(s, i)
    ensures SkipDigits(s, e) == SkipDigits(s, i)
  {
  }

  /** Position `p` lies within one of `spans`. */
  ghost predicate Covered(spans: seq<(nat, nat)>, p: int) {
    exists k | 0 <= k < |spans| :: spans[k].0 <= p < spans[k].1
  }

  /**
   * `re.findall` from position `i`: try a match at each position in turn,
   * and after a match resume at its end. The result is the spans of the
   * matches, in order and without overlaps.
   */
  function FindAllFrom(s: string, i: nat): (r: seq<(nat, nat)>)
    ensures forall k | 0 <= k < |r| :: i <= r[k].0 < r[k].1 <= |s|
    ensures forall k | 0 <= k < |r| - 1 :: r[k].1 <= r[k + 1].0
    decreases |s| - i
  {
    if i >= |s| then []
    else
      match MatchAt(s, i)
      case Some(e) =>
        [(i, e)] + FindAllFrom(s, e)
      case None => FindAllFrom(s, i + 1)
  }

  /** A position where no match starts is passed over. */
  lemma FindAllFromSkip(s: string, i: nat)
    requires i < |s| && MatchAt(s, i).None?
    ensures FindAllFrom(s, i) == FindAllFrom(s, i + 1)
  {
  }

  /** A match found at `i` is taken, and the search resumes at its end. */
  lemma FindAllFromTake(s: string, i: nat, e: nat)
    requires i < |s| && MatchAt(s, i) == Some(e)
    ensures FindAllFrom(s, i) == [(i, e)] + FindAllFrom(s, e)
  {
  }

  /** Every span found is a match of the pattern, starting where the span starts. */
  lemma {:induction false} FindAllFromMatches(s: string, i: nat)
    ensures forall k | 0 <= k < |FindAllFrom(s, i)| :: MatchAt(s, FindAllFrom(s, i)[k].0) == Some(FindAllFrom(s, i)[k].1)
    decreases |s| - i
  {
    if i < |s| {
      match MatchAt(s, i)
      case Some(e) =>
        FindAllFromMatches(s, e);
        var rest := FindAllFrom(s, e);
        assert FindAllFrom(s, i) == [(i, e)] + rest;
      case None =>
        FindAllFromMatches(s, i + 1);
    }
  }

  /** No match is skipped: every position where a match could start lies within a span found. */
  lemma {:induction false} FindAllFromCovers(s: string, i: nat, p: nat)
    requires i <= p < |s| && MatchAt(s, p).Some?
    ensures Covered(FindAllFrom(s, i), p)
    decreases |s| - i, 1
  {
    if MatchAt(s, i).Some? {
      CoveredAfterMatch(s, i, MatchAt(s, i).value, p);
    } else {
      CoveredAfterMiss(s, i, p);
    }
  }

  /** The same, when no match starts at `i`: then `p` lies further on. */
  lemma {:induction false} CoveredAfterMiss(s: string, i: nat, p: nat)
    requires i <= p < |s| && MatchAt(s, p).Some? && MatchAt(s, i).None?
    ensures Covered(FindAllFrom(s, i), p)
    decreases |s| - i, 0
  {
    FindAllFromSkip(s, i);
    FindAllFromCovers(s, i + 1, p);
  }

  /** The same, when the search from `i` takes a match ending at `e`. */
  lemma {:induction false} CoveredAfterMatch(s: string, i: nat, e: nat, p: nat)
    requires i <= p < |s| && MatchAt(s, p).Some? && MatchAt(s, i) == Some(e)
    ensures Covered(FindAllFrom(s, i), p)
    decreases |s| - i, 0
  {
    FindAllFromTake(s, i, e);
    if p < e {
      CoveredFirst((i, e), FindAllFrom(s, e), p);
    } else {
      FindAllFromCovers(s, e, p);
      CoveredCons((i, e), FindAllFrom(s, e), p);
    }
  }

  /** A position inside the first span is covered. */
  lemma CoveredFirst(span: (nat, nat), spans: seq<(nat, nat)>, p: int)
    requires span.0 <= p < span.1
    ensures Covered([span] + spans, p)
  {
    assert ([span] + spans)[0] == span;
  }

  /** A position covered by a span stays covered when a span is put in front. */
  lemma CoveredCons(span: (nat, nat), spans: seq<(nat, nat)>, p: int)
    requires Covered(spans, p)
    ensures Covered([span] + spans, p)
  {
    var k :| 0 <= k < |spans| && spans[k].0 <= p < spans[k].1;
    assert ([span] + spans)[k + 1] == spans[k];
  }

  /** Python's `re.findall(pattern, s, re.DOTALL)`: the matched texts, left to right. */
  function FindAll(s: string): (r: seq<string>)
    ensures |r| == |FindAllFrom(s, 0)|
    ensures forall k {:trigger WellFormed(r[k])} | 0 <= k < |r| :: WellFormed(r[k])
  {
    SpansAreNotifications(s);
    Pieces(s, FindAllFrom(s, 0))
  }

  /** The texts of `spans`, in order. */
  function Pieces(s: string, spans: seq<(nat, nat)>): (r: seq<string>)
    requires forall k | 0 <= k < |spans| :: spans[k].0 <= spans[k].1 <= |s|
    ensures |r| == |spans|
    ensures forall k | 0 <= k < |spans| :: r[k] == s[spans[k].0..spans[k].1]
  {
    if |spans| == 0 then [] else [s[spans[0].0..spans[0].1]] + Pieces(s, spans[1..])
  }

  /** Every span found covers one well-formed notification. */
  lemma SpansAreNotifications(s: string)
    ensures var spans := FindAllFrom(s, 0);
            forall k | 0 <= k < |spans| :: WellFormed(s[spans[k].0..spans[k].1])
  {
    var spans := FindAllFrom(s, 0);
    FindAllFromMatches(s, 0);
    forall k | 0 <= k < |spans| ensures WellFormed(s[spans[k].0..spans[k].1]) {
      MatchAtMeaning(s, spans[k].0);
    }
  }

  /** Modem._handleUssd: join the lines and cut out the notifications. */
  function HandleUssd(lines: seq<string>): (r: seq<string>)
    ensures forall k {:trigger WellFormed(r[k])} | 0 <= k < |r| :: WellFormed(r[k])
  {
    FindAll(Join(lines))
  }

  /** A text that is exactly one notification comes back as the only piece. */
  lemma SingleNotification(ws: string, status: char, body: string, code: string)
    requires AllSpace(ws, 0, |ws|) && IsDigit(status) && NoCloser(body)
    requires |code| >= 1 && AllDigits(code, 0, |code|)
    ensures FindAll(Notification(ws, status, body, code)) == [Notification(ws, status, body, code)]
  {
    var t := Notification(ws, status, body, code);
    assert t[0..|t|] == t;
    SliceTextAt(t, 0, t);
    NotificationMatches(t, 0, t, ws, status, body, code);
    assert FindAllFrom(t, 0) == [(0, |t|)];
  }

  /**
   * The point of the handler: a notification whose text was broken over
   * several lines is handed on whole, with its line breaks restored.
   */
  lemma HandleUssdReassembles(lines: seq<string>, ws: string, status: char, body: string, code: string)
    requires Join(lines) == Notification(ws, status, body, code)
    requires AllSpace(ws, 0, |ws|) && IsDigit(status) && NoCloser(body)
    requires |code| >= 1 && AllDigits(code, 0, |code|)
    ensures HandleUssd(lines) == [Join(lines)]
  {
    SingleNotification(ws, status, body, code);
  }

  /** No match starts where the text does not read '+'. */
  lemma NoMatchWithoutPlus(s: string, p: nat)
    requires p < |s| && s[p] != '+'
    ensures MatchAt(s, p).None?
  {
  }

  /** A notification directly followed by a line break ends where its text ends. */
  lemma MatchStopsAtBreak(s: string, p: nat, t: string)
    requires WellFormed(t) && p + |t| < |s| && s[p..p + |t|] == t && s[p + |t|] == '\r'
    ensures MatchAt(s, p) == Some(p + |t|)
  {
    SliceTextAt(s, p, t);
    NotificationAt(s, p, t);
  }

  /** A well-formed notification at `p` is matched there, up to where the digits after it stop. */
  lemma NotificationAt(s: string, p: nat, t: string)
    requires WellFormed(t) && TextAt(s, p, t)
    ensures |t| > 6 && MatchAt(s, p) == Some(SkipDigits(s, p + |t|))
  {
    var ws, status, body, code :| NotificationParts(t, ws, status, body, code);
    NotificationMatches(s, p, t, ws, status, body, code);
  }

  /** The join of two lines is the first, the terminator, and the second. */
  lemma JoinTwo(first: string, second: string)
    ensures Join([first, second]) == first + CRLF + second
  {
    assert [first, second][1..] == [second];
  }

  /** A match that runs to the end of the text is the last span. */
  lemma LastSpan(s: string, i: nat)
    requires i < |s| && MatchAt(s, i) == Some(|s|)
    ensures FindAllFrom(s, i) == [(i, |s|)]
  {
    FindAllFromTake(s, i, |s|);
  }

  /** A match that stops at a line break is one span, and the search resumes after the break. */
  lemma SpanBeforeBreak(s: string, n: nat)
    requires n + 2 <= |s| && MatchAt(s, 0) == Some(n) && s[n] == '\r' && s[n + 1] == '\n'
    ensures FindAllFrom(s, 0) == [(0, n)] + FindAllFrom(s, n + 2)
  {
    NoMatchWithoutPlus(s, n);
    NoMatchWithoutPlus(s, n + 1);
    FindAllFromSkip(s, n + 1);
    FindAllFromSkip(s, n);
    FindAllFromTake(s, 0, n);
  }

  /** `s` is the line `first`, a line break, and the line `second`. */
  predicate TwoLines(s: string, first: string, second: string) {
    && |first| + 2 + |second| == |s| && s[..|first|] == first
    && s[|first|] == '\r' && s[|first| + 1] == '\n' && s[|first| + 2..] == second
  }

  /** A notification on the first line, before the line break, matches exactly that line. */
  lemma FirstLineMatch(s: string, first: string, second: string)
    requires TwoLines(s, first, second) && WellFormed(first)
    ensures MatchAt(s, 0) == Some(|first|)
  {
    assert s[0..|first|] == first;
    MatchStopsAtBreak(s, 0, first);
  }

  /** A notification on the last line matches up to the end of the text. */
  lemma LastLineMatch(s: string, first: string, second: string)
    requires TwoLines(s, first, second) && WellFormed(second)
    ensures MatchAt(s, |first| + 2) == Some(|s|)
  {
    var i := |first| + 2;
    assert s[i..i + |second|] == second;
    SliceTextAt(s, i, second);
    NotificationAt(s, i, second);
  }

  /** The texts of two spans that cut `s` at a line break. */
  lemma TwoPieces(s: string, n: nat, first: string, second: string)
    requires n + 2 < |s| && FindAllFrom(s, 0) == [(0, n)] + [(n + 2, |s|)]
    requires s[..n] == first && s[n + 2..] == second
    ensures FindAll(s) == [first, second]
  {
    PiecesOfTwo(s, FindAllFrom(s, 0), n);
  }

  lemma PiecesOfTwo(s: string, spans: seq<(nat, nat)>, n: nat)
    requires n + 2 < |s| && spans == [(0, n)] + [(n + 2, |s|)]
    ensures Pieces(s, spans) == [s[..n], s[n + 2..]]
  {
    assert s[0..n] == s[..n] && s[n + 2..|s|] == s[n + 2..];
  }

  /** The spans of two matches on consecutive lines: one per line. */
  lemma TwoLinesSpans(s: string, n: nat)
    requires n + 2 < |s| && MatchAt(s, 0) == Some(n) && MatchAt(s, n + 2) == Some(|s|)
    requires s[n] == '\r' && s[n + 1] == '\n'
    ensures FindAllFrom(s, 0) == [(0, n)] + [(n + 2, |s|)]
  {
    SpanBeforeBreak(s, n);
    LastSpan(s, n + 2);
  }

  /**
   * Two notifications that arrive on separate lines are handed on as two
   * pieces, each whole: joining never merges them.
   */
  lemma {:induction false} TwoNotifications(first: string, second: string)
    requires WellFormed(first) && WellFormed(second)
    ensures HandleUssd([first, second]) == [first, second]
  {
    JoinTwoLaidOut(first, second);
    TwoLinesNotifications(Join([first, second]), first, second);
  }

  /** Two notifications on consecutive lines of `s` are its two pieces. */
  lemma TwoLinesNotifications(s: string, first: string, second: string)
    requires TwoLines(s, first, second) && WellFormed(first) && WellFormed(second)
    ensures FindAll(s) == [first, second]
  {
    FirstLineMatch(s, first, second);
    LastLineMatch(s, first, second);
    TwoLinesFound(s, first, second);
  }

  /** Matches on two consecutive lines of `s` make those lines its two pieces. */
  lemma TwoLinesFound(s: string, first: string, second: string)
    requires TwoLines(s, first, second) && MatchAt(s, 0) == Some(|first|) && MatchAt(s, |first| + 2) == Some(|s|)
    ensures FindAll(s) == [first, second]
  {
    TwoLinesSpans(s, |first|);
    TwoPieces(s, |first|, first, second);
  }

  /** Where the two lines sit in their join. */
  lemma JoinTwoLaidOut(first: string, second: string)
    ensures TwoLines(Join([first, second]), first, second)
  {
    JoinTwo(first, second);
  }

  /** A body without a double quote holds no closer. */
  lemma NoQuoteNoCloser(body: string)
    requires forall k | 0 <= k < |body| :: body[k] != '"'
    ensures NoCloser(body)
  {
  }

  /** The notification text `+CUSD: <status>,"<head>` + CRLF + `<tail>",<code>`, regrouped around its body. */
  lemma TwoLineNotification(status: char, head: string, tail: string, code: string)
    ensures Join([Prefix + " " + [status] + ",\"" + head, tail + "\"," + code]) ==
            Notification(" ", status, head + CRLF + tail, code)
  {
    JoinTwo(Prefix + " " + [status] + ",\"" + head, tail + "\"," + code);
  }

  /** A balance notification the network sent for "#125#" in two lines is handed on as one piece. */
  lemma BalanceReplyReassembled(head: string, tail: string)
    requires head == "Bal:$12.34 *" && tail == "Exp 01 Jan 2015"
    ensures var lines := [Prefix + " 0,\"" + head, tail + "\",15"];
            HandleUssd(lines) == [Join(lines)]
  {
    BalanceReplyParts(head, tail);
    HandleUssdReassembles([Prefix + " 0,\"" + head, tail + "\",15"], " ", '0', head + CRLF + tail, "15");
  }

  /** The two lines of that balance reply join into one notification, its body holding the line break. */
  lemma BalanceReplyParts(head: string, tail: string)
    requires head == "Bal:$12.34 *" && tail == "Exp 01 Jan 2015"
    ensures NotificationParts(Join([Prefix + " 0,\"" + head, tail + "\",15"]), " ", '0', head + CRLF + tail, "15")
  {
    NoQuoteNoCloser(head + CRLF + tail);
    TwoLineNotification('0', head, tail, "15");
    assert Prefix + " 0,\"" + head == Prefix + " " + ['0'] + ",\"" + head;
  }
}

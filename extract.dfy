/**
 * The pure text extractors of account.py and of their older copies in
 * modem.py: the menu-line pattern of parse_menu, the balance and expiry
 * searches, the phone-number line and the prepaid test.
 *
 * Each regular expression gets a reference meaning, stated with indices:
 * which matches exist, and which one Python's backtracking engine reports
 * (leftmost start, then lazy groups as short as possible, greedy ones as long
 * as possible). The direct computations are proved to return exactly that
 * match.
 */
module Extract {
  import opened Base
  import opened Strings

  // ----- Menu lines: re.match('(\d)\.\s+(.*)', line) --------------------------

  /** One menu option: its title (the label text after the number) and its key (the number). */
  datatype Entry = Entry(title: string, key: string)

  /** The entry of a line whose option number is `line[..d]`, when a period and whitespace follow it. */
  function EntryAfterKey(line: string, d: nat): Option<Entry>
    requires 1 <= d <= |line|
  {
    if d + 1 < |line| && line[d] == '.' && IsSpace(line[d + 1]) then
      var w := SkipSpaces(line, d + 1);
      var e := match FindChar(line, '\n', w) case Some(j) => j case None => |line|;
      Some(Entry(line[w..e], line[..d]))
    else None
  }

  /** parse_menu's pattern `(\d)\.\s+(.*)`, anchored at the start of the line. */
  function ParseMenuLine(line: string): (r: Option<Entry>)
    ensures r.Some? <==> |line| >= 3 && IsDigit(line[0]) && line[1] == '.' && IsSpace(line[2])
    ensures r.Some? ==> r.value.key == line[..1]
  {
    if |line| >= 1 && IsDigit(line[0]) then EntryAfterKey(line, 1) else None
  }

  /** The same pattern with a multi-digit number, `(\d+)\.\s+(.*)`, which also reads "00. Home". */
  function ParseMenuLineMultiDigit(line: string): (r: Option<Entry>)
    ensures r.Some? ==> 1 <= |r.value.key| <= |line| && r.value.key == line[..|r.value.key|]
  {
    var d := SkipDigits(line, 0);
    if d >= 1 then EntryAfterKey(line, d) else None
  }

  /**
   * `line` reads as `key + "." + ws + label + rest` the way the backtracking
   * engine matches `(\d+)\.\s+(.*)`: the key all digits, the whitespace run
   * non-empty and as long as possible, the label free of newlines and ended
   * only by a newline or by the end of the line.
   */
  predicate MenuLineShape(line: string, e: Entry, ws: string, rest: string) {
    && line == e.key + "." + ws + e.title + rest
    && |e.key| >= 1 && AllDigits(e.key, 0, |e.key|)
    && |ws| >= 1 && AllSpace(ws, 0, |ws|)
    && (|e.title + rest| > 0 ==> !IsSpace((e.title + rest)[0]))
    && NoNewline(e.title, 0, |e.title|)
    && (rest == [] || rest[0] == '\n')
  }

  /** The greedy `\s+` ends where the maximal whitespace run ends. */
  lemma SkipSpacesUnique(s: string, i: nat, j: nat)
    requires i <= j <= |s| && AllSpace(s, i, j) && (j == |s| || !IsSpace(s[j]))
    ensures SkipSpaces(s, i) == j
  {
  }

  /** `FindChar` stops at the first `c`. */
  lemma FindCharAt(s: string, c: char, i: nat, j: nat)
    requires i <= j <= |s| && forall k | i <= k < j :: s[k] != c
    ensures j < |s| && s[j] == c ==> FindChar(s, c, i) == Some(j)
    ensures j == |s| ==> FindChar(s, c, i) == None
  {
  }

  lemma {:induction false} EntryAfterKeyShape(line: string, d: nat)
    requires 1 <= d <= |line| && AllDigits(line, 0, d)
    ensures EntryAfterKey(line, d).Some? ==>
              var e := EntryAfterKey(line, d).value;
              e.key == line[..d] && exists ws, rest :: MenuLineShape(line, e, ws, rest)
  {
    if d + 1 < |line| && line[d] == '.' && IsSpace(line[d + 1]) {
      var w := SkipSpaces(line, d + 1);
      var e := match FindChar(line, '\n', w) case Some(j) => j case None => |line|;
      CutsShape(line, d, w, e);
      assert MenuLineShape(line, Entry(line[w..e], line[..d]), line[d + 1..w], line[e..]);
    }
  }

  /** A line cut after its digits, its whitespace run and its label, where the engine cuts it, has the shape. */
  lemma CutsShape(line: string, d: nat, w: nat, e: nat)
    requires 1 <= d && d + 1 < w <= e <= |line| && line[d] == '.'
    requires AllDigits(line, 0, d) && AllSpace(line, d + 1, w) && (w == |line| || !IsSpace(line[w]))
    requires NoNewline(line, w, e) && (e == |line| || line[e] == '\n')
    ensures MenuLineShape(line, Entry(line[w..e], line[..d]), line[d + 1..w], line[e..])
  {
    var entry, ws, rest := Entry(line[w..e], line[..d]), line[d + 1..w], line[e..];
    LineCuts(line, d, w, e);
    assert entry.title + rest == line[w..];
    assert AllSpace(ws, 0, |ws|) by {
      forall k | 0 <= k < |ws| ensures IsSpace(ws[k]) { assert ws[k] == line[d + 1 + k]; }
    }
  }

  /** A line cut after its key, its period, its whitespace and its label is the concatenation of the pieces. */
  lemma LineCuts(line: string, d: nat, w: nat, e: nat)
    requires d < w <= e <= |line| && line[d] == '.'
    ensures line == line[..d] + "." + line[d + 1..w] + line[w..e] + line[e..]
  {
    assert line[d..] == "." + line[d + 1..w] + line[w..e] + line[e..];
    assert line == line[..d] + line[d..];
  }

  lemma {:induction false} ShapeGivesEntry(line: string, e: Entry, ws: string, rest: string)
    requires MenuLineShape(line, e, ws, rest)
    ensures EntryAfterKey(line, |e.key|) == Some(e)
  {
    var d := |e.key|;
    var w := d + 1 + |ws|;
    var end := w + |e.title|;
    assert line[..d] == e.key;
    assert line[d] == '.';
    assert line[d + 1..w] == ws;
    assert line[w..end] == e.title;
    assert line[end..] == rest;
    assert IsSpace(line[d + 1]) by { assert line[d + 1] == ws[0]; }
    if w < |line| {
      assert line[w] == (e.title + rest)[0];
    }
    SkipSpacesUnique(line, d + 1, w);
    FindCharAt(line, '\n', w, end);
  }

  /** A line parse_menu accepts reads as digit, period, whitespace, label, rest of line. */
  lemma ParseMenuLineMeaning(line: string)
    ensures ParseMenuLine(line).Some? ==>
              |ParseMenuLine(line).value.key| == 1 &&
              exists ws, rest :: MenuLineShape(line, ParseMenuLine(line).value, ws, rest)
  {
    if |line| >= 1 && IsDigit(line[0]) {
      EntryAfterKeyShape(line, 1);
    }
  }

  /** Conversely, every line of that shape with a one-digit key is accepted, with exactly that entry. */
  lemma ShapeIsParsed(line: string, e: Entry, ws: string, rest: string)
    requires MenuLineShape(line, e, ws, rest) && |e.key| == 1
    ensures ParseMenuLine(line) == Some(e)
  {
    assert line[0] == e.key[0];
    ShapeGivesEntry(line, e, ws, rest);
  }

  lemma ParseMenuLineMultiDigitMeaning(line: string)
    ensures ParseMenuLineMultiDigit(line).Some? ==>
              exists ws, rest :: MenuLineShape(line, ParseMenuLineMultiDigit(line).value, ws, rest)
  {
    var d := SkipDigits(line, 0);
    if d >= 1 {
      EntryAfterKeyShape(line, d);
    }
  }

  lemma ShapeIsParsedMultiDigit(line: string, e: Entry, ws: string, rest: string)
    requires MenuLineShape(line, e, ws, rest)
    ensures ParseMenuLineMultiDigit(line) == Some(e)
  {
    var d := |e.key|;
    assert line[..d] == e.key;
    assert line[d] == '.';
    assert AllDigits(line, 0, d);
    SkipDigitsUnique(line, d);
    ShapeGivesEntry(line, e, ws, rest);
  }

  lemma SkipDigitsUnique(s: string, j: nat)
    requires j <= |s| && AllDigits(s, 0, j) && (j == |s| || !IsDigit(s[j]))
    ensures SkipDigits(s, 0) == j
  {
  }

  // ----- Balance: re.search('\$(.*?)\s', message) -----------------------------

  /** `\$(.*?)\s` matches at `p` with a group of length `k`. */
  predicate BalanceMatch(s: string, p: int, k: int) {
    0 <= p && 0 <= k && p + 1 + k < |s| && s[p] == '$' && NoNewline(s, p + 1, p + 1 + k) && IsSpace(s[p + 1 + k])
  }

  /** The match re.search reports: leftmost start, then the shortest group. */
  ghost predicate BalanceFirstMatch(s: string, p: int, k: int) {
    && BalanceMatch(s, p, k)
    && (forall p', k' | 0 <= p' < p :: !BalanceMatch(s, p', k'))
    && (forall k' | 0 <= k' < k :: !BalanceMatch(s, p, k'))
  }

  /** Start and group length of the balance match: the first `$`, then the first whitespace after it. */
  function BalanceSearch(s: string): (r: Option<(nat, nat)>)
    ensures r.Some? ==> BalanceFirstMatch(s, r.value.0, r.value.1)
    ensures r.None? ==> forall p, k :: !BalanceMatch(s, p, k)
  {
    match FindChar(s, '$', 0)
    case None => None
    case Some(p) =>
      match FindSpace(s, p + 1)
      case None => None
      case Some(q) =>
        assert forall k | p + 1 <= k < q :: s[k] != '\n' by {
          forall k | p + 1 <= k < q ensures s[k] != '\n' { assert !IsSpace(s[k]); }
        }
        Some((p, q - (p + 1)))
  }

  /** Prepaid.balance's token (account.py:85-87) before the float conversion. */
  function BalanceToken(message: string): (r: Option<string>)
    ensures r.Some? ==> forall i | 0 <= i < |r.value| :: !IsSpace(r.value[i])
  {
    match BalanceSearch(message)
    case None => None
    case Some((p, k)) =>
      BalanceFirstTokenHasNoSpace(message, p, k);
      Some(message[p + 1..p + 1 + k])
  }

  lemma BalanceFirstTokenHasNoSpace(s: string, p: nat, k: nat)
    requires BalanceFirstMatch(s, p, k)
    ensures forall i | p + 1 <= i < p + 1 + k :: !IsSpace(s[i])
  {
    forall i | p + 1 <= i < p + 1 + k ensures !IsSpace(s[i]) {
      assert !BalanceMatch(s, p, i - (p + 1));
    }
  }

  /** The balance token is the text after the first `$` up to the next whitespace character. */
  lemma {:induction false} BalanceTokenMeaning(s: string, p: nat, q: nat)
    requires p < q < |s| && s[p] == '$' && IsSpace(s[q])
    requires forall i | 0 <= i < p :: s[i] != '$'
    requires forall i | p < i < q :: !IsSpace(s[i])
    ensures BalanceToken(s) == Some(s[p + 1..q])
  {
    FindCharAt(s, '$', 0, p);
  }

  /** A balance found within the first line of a reply: `$`, then the amount up to whitespace. */
  lemma BalanceInFirstLine(first: string, rest: string, p: nat, q: nat)
    requires p < q < |first| && first[p] == '$' && IsSpace(first[q])
    requires forall i | 0 <= i < p :: first[i] != '$'
    requires forall i | p < i < q :: !IsSpace(first[i])
    ensures BalanceToken(first + CRLF + rest) == Some(first[p + 1..q])
  {
    var s := first + CRLF + rest;
    assert forall i | 0 <= i < |first| :: s[i] == first[i];
    BalanceTokenMeaning(s, p, q);
    assert s[p + 1..q] == first[p + 1..q];
  }

  /** No balance exactly when no `$` in the message has a whitespace character after it. */
  lemma BalanceTokenAbsent(s: string)
    ensures BalanceToken(s).None? <==>
              forall p | 0 <= p < |s| && s[p] == '$' :: forall i | p < i < |s| :: !IsSpace(s[i])
  {
    match FindChar(s, '$', 0)
    case None =>
    case Some(p0) =>
      match FindSpace(s, p0 + 1)
      case None =>
      case Some(q) =>
        assert s[p0] == '$' && p0 < q < |s| && IsSpace(s[q]);
  }

  // ----- Expiry: re.search('Exp.*?\s(.*?)\r\n', message) ----------------------

  /** `(.*?)\r\n` starting at `q` matches with a group of length `b`. */
  predicate GroupToTerminator(s: string, q: int, b: int) {
    0 <= q && 0 <= b && q + b + 2 <= |s| && NoNewline(s, q, q + b) && s[q + b] == '\r' && s[q + b + 1] == '\n'
  }

  /** `Exp.*?\s(.*?)\r\n` matches at `p`, the lazy run after "Exp" of length `a`, the group of length `b`. */
  predicate ExpiryMatch(s: string, p: int, a: int, b: int) {
    && 0 <= p && 0 <= a && p + 3 + a < |s|
    && s[p..p + 3] == "Exp"
    && NoNewline(s, p + 3, p + 3 + a)
    && IsSpace(s[p + 3 + a])
    && GroupToTerminator(s, p + 4 + a, b)
  }

  /** The match re.search reports: leftmost start, then the shortest run, then the shortest group. */
  ghost predicate ExpiryFirstMatch(s: string, p: int, a: int, b: int) {
    && ExpiryMatch(s, p, a, b)
    && (forall p', a', b' | 0 <= p' < p :: !ExpiryMatch(s, p', a', b'))
    && (forall a', b' | 0 <= a' < a :: !ExpiryMatch(s, p, a', b'))
    && (forall b' | 0 <= b' < b :: !ExpiryMatch(s, p, a, b'))
  }

  /** The shortest `(.*?)\r\n` from `q`: the first newline, when a carriage return precedes it. */
  function GroupFrom(s: string, q: nat): (r: Option<nat>)
    ensures r.Some? ==> GroupToTerminator(s, q, r.value)
    ensures r.Some? ==> forall b | 0 <= b < r.value :: !GroupToTerminator(s, q, b)
    ensures r.None? ==> forall b :: !GroupToTerminator(s, q, b)
  {
    match FindChar(s, '\n', q)
    case None => None
    case Some(j) =>
      if j > q && s[j - 1] == '\r' then
        assert forall b | 0 <= b < j - 1 - q :: !GroupToTerminator(s, q, b) by {
          forall b | 0 <= b < j - 1 - q ensures !GroupToTerminator(s, q, b) {
            assert q + b + 1 < j;
          }
        }
        Some(j - 1 - q)
      else
        assert forall b :: !GroupToTerminator(s, q, b) by {
          forall b | GroupToTerminator(s, q, b) ensures false {
            GroupEndsAtNewline(s, q, b);
          }
        }
        None
  }

  /** A group ends just before the first newline after its start. */
  lemma GroupEndsAtNewline(s: string, q: nat, b: nat)
    requires GroupToTerminator(s, q, b)
    ensures FindChar(s, '\n', q) == Some(q + b + 1)
  {
    FindCharAt(s, '\n', q, q + b + 1);
  }

  /** Backtracking over the lazy run `.*?` after "Exp" at `p`, trying run lengths `a`, `a + 1`, ... */
  function ExpiryRunFrom(s: string, p: nat, a: nat): (r: Option<(nat, nat)>)
    requires p + 3 <= |s| && s[p..p + 3] == "Exp" && NoNewline(s, p + 3, p + 3 + a)
    ensures r.Some? ==> a <= r.value.0 && ExpiryMatch(s, p, r.value.0, r.value.1)
    ensures r.Some? ==> forall a', b' | a <= a' < r.value.0 :: !ExpiryMatch(s, p, a', b')
    ensures r.Some? ==> forall b' | 0 <= b' < r.value.1 :: !ExpiryMatch(s, p, r.value.0, b')
    ensures r.None? ==> forall a', b' | a <= a' :: !ExpiryMatch(s, p, a', b')
    decreases |s| - a
  {
    if p + 3 + a >= |s| then None
    else
      var g := GroupFrom(s, p + 4 + a);
      if IsSpace(s[p + 3 + a]) && g.Some? then Some((a, g.value))
      else if s[p + 3 + a] == '\n' then
        assert forall a', b' | a <= a' :: !ExpiryMatch(s, p, a', b') by {
          forall a', b' | a < a' ensures !ExpiryMatch(s, p, a', b') {
            assert s[p + 3 + a] == '\n';
          }
        }
        None
      else
        ExpiryRunFrom(s, p, a + 1)
  }

  /** Trying start positions `p`, `p + 1`, ... as re.search does. */
  function ExpirySearchFrom(s: string, p: nat): (r: Option<(nat, nat, nat)>)
    ensures r.Some? ==> p <= r.value.0 && ExpiryMatch(s, r.value.0, r.value.1, r.value.2)
    ensures r.Some? ==> forall p', a', b' | p <= p' < r.value.0 :: !ExpiryMatch(s, p', a', b')
    ensures r.Some? ==> forall a', b' | 0 <= a' < r.value.1 :: !ExpiryMatch(s, r.value.0, a', b')
    ensures r.Some? ==> forall b' | 0 <= b' < r.value.2 :: !ExpiryMatch(s, r.value.0, r.value.1, b')
    ensures r.None? ==> forall p', a', b' | p <= p' :: !ExpiryMatch(s, p', a', b')
    decreases |s| - p
  {
    if p + 3 > |s| then None
    else if s[p..p + 3] == "Exp" && ExpiryRunFrom(s, p, 0).Some? then
      var ab := ExpiryRunFrom(s, p, 0).value;
      Some((p, ab.0, ab.1))
    else
      assert forall a', b' :: !ExpiryMatch(s, p, a', b');
      ExpirySearchFrom(s, p + 1)
  }

  /** The match of the expiry pattern in a message, as (start, run length, group length). */
  function ExpirySearch(s: string): (r: Option<(nat, nat, nat)>)
    ensures r.Some? ==> ExpiryFirstMatch(s, r.value.0, r.value.1, r.value.2)
    ensures r.None? ==> forall p, a, b :: !ExpiryMatch(s, p, a, b)
  {
    ExpirySearchFrom(s, 0)
  }

  /** Prepaid.expiry_date's token, group 1 (account.py:93-95), before the date conversion. */
  function ExpiryToken(message: string): (r: Option<string>)
    ensures r.Some? ==> NoNewline(r.value, 0, |r.value|)
  {
    match ExpirySearch(message)
    case None => None
    case Some((p, a, b)) =>
      var q := p + 4 + a;
      Some(message[q..q + b])
  }

  /** The usual reply: "Exp", one whitespace character, then the date up to the next "\r\n". */
  lemma ExpiryTokenMeaning(s: string, p: nat, q: nat)
    requires p + 4 <= q && q + 2 <= |s|
    requires s[p..p + 3] == "Exp" && IsSpace(s[p + 3])
    requires forall i | 0 <= i < p :: s[i] != 'E'
    requires NoNewline(s, p + 4, q) && s[q] == '\r' && s[q + 1] == '\n'
    ensures ExpiryToken(s) == Some(s[p + 4..q])
  {
    assert ExpiryMatch(s, p, 0, q - p - 4);
    var r := ExpirySearch(s).value;
    assert s[r.0] == s[r.0..r.0 + 3][0] == 'E';
    GroupEndsAtNewline(s, p + 4, q - p - 4);
    GroupEndsAtNewline(s, p + 4, r.2);
  }

  /** A line "Exp<whitespace><date>" ended by "\r\n", after text holding no 'E', yields that date. */
  lemma ExpiryLineAfterHead(head: string, line: string, rest: string)
    requires forall i | 0 <= i < |head| :: head[i] != 'E'
    requires |line| >= 4 && line[..3] == "Exp" && IsSpace(line[3]) && NoNewline(line, 4, |line|)
    ensures ExpiryToken(head + line + CRLF + rest) == Some(line[4..])
  {
    var s := head + line + CRLF + rest;
    var p, q := |head|, |head| + |line|;
    assert forall i | 0 <= i < p :: s[i] == head[i];
    assert s[p..q] == line;
    assert s[p..p + 3] == line[..3] && s[p + 3] == line[3];
    assert s[p + 4..q] == line[4..];
    assert s[q] == '\r' && s[q + 1] == '\n';
    ExpiryTokenMeaning(s, p, q);
  }

  /**
   * `expiry[0]` of the legacy PrepaidAccount.expiry_date (modem.py:58-60) read
   * as Python 3.6 and later read it: the whole match. Under Python 2 the
   * subscript raises TypeError instead (`Legacy.LegacyExpiryDateAsWrittenFlow`).
   */
  function ExpiryWholeMatch(message: string): (r: Option<string>)
  {
    match ExpirySearch(message)
    case None => None
    case Some((p, a, b)) => Some(message[p..p + a + b + 6])
  }

  /** The whole match starts with "Exp" and ends with "\r\n", so it can never read as '%d %b %Y'. */
  lemma WholeMatchIsNotADate(message: string)
    ensures ExpiryWholeMatch(message).Some? ==>
              var t := ExpiryWholeMatch(message).value;
              |t| >= 6 && t[..3] == "Exp" && t[|t| - 2..] == CRLF && !IsDigit(t[0])
    ensures ExpiryWholeMatch(message).Some? <==> ExpiryToken(message).Some?
  {
    match ExpirySearch(message)
    case None =>
    case Some((p, a, b)) =>
      var t := message[p..p + a + b + 6];
      assert t[..3] == message[p..p + 3];
      assert t[|t| - 2..] == message[p + a + b + 4..p + a + b + 6];
  }

  /** The whole match begins with "Exp" and ends with the group followed by "\r\n". */
  lemma TokenEndsWholeMatch(message: string)
    ensures ExpiryToken(message).Some? ==>
              var whole, token := ExpiryWholeMatch(message).value, ExpiryToken(message).value;
              |whole| >= |token| + 6 && whole[..3] == "Exp" && whole[|whole| - |token| - 2..] == token + CRLF
  {
    match ExpirySearch(message)
    case None =>
    case Some((p, a, b)) =>
      MatchTail(message, p, a, b);
  }

  /** The text an expiry match covers: "Exp", the lazy run, one whitespace character, the group and "\r\n". */
  lemma MatchTail(s: string, p: nat, a: nat, b: nat)
    requires ExpiryMatch(s, p, a, b)
    ensures var whole := s[p..p + a + b + 6];
            |whole| == a + b + 6 && whole[..3] == "Exp" && whole[|whole| - b - 2..] == s[p + 4 + a..p + 4 + a + b] + CRLF
  {
    var e, q := p + a + b + 6, p + 4 + a;
    var whole := s[p..e];
    assert whole[..3] == s[p..p + 3];
    assert whole[|whole| - b - 2..] == s[q..e];
    assert s[q + b..e] == CRLF;
    assert s[q..e] == s[q..q + b] + s[q + b..e];
  }

  // ----- Phone number and prepaid test ----------------------------------------

  /** phone_number: line 1 of the #150# reply (account.py:58); IndexError without a second line. */
  function PhoneNumberOf(message: string): (r: Result<string>)
    ensures r.Err? <==> !Contains(message, CRLF)
    ensures r.Err? ==> r.fault == IndexError
    ensures r.Ok? ==> !Contains(r.value, CRLF)
  {
    SplitSingle(message);
    SplitPiecesHaveNoTerminator(message);
    var lines := Split(message);
    if |lines| >= 2 then Ok(lines[1]) else Err(IndexError)
  }

  /** The number is the second line, whatever follows it. */
  lemma {:induction false} PhoneNumberIsSecondLine(first: string, number: string, more: seq<string>)
    requires !Contains(first, CRLF) && !Contains(number, CRLF)
    requires forall k | 0 <= k < |more| :: !Contains(more[k], CRLF)
    ensures PhoneNumberOf(Join([first, number] + more)) == Ok(number)
  {
    var lines := [first, number] + more;
    forall k | 0 <= k < |lines| ensures !Contains(lines[k], CRLF) {
      if k >= 2 { assert lines[k] == more[k - 2]; }
    }
    SplitJoin(lines);
  }

  /** is_prepaid: the #125# reply mentions "Bal:" (account.py:67). */
  function IsPrepaidReply(message: string): (r: bool)
    ensures r <==> exists i :: OccursAt(message, "Bal:", i)
  {
    ContainsMeansOccurs(message, "Bal:");
    Contains(message, "Bal:")
  }
}

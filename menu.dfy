/**
 * TelstraAccount.parse_menu (account.py:23-37, copied at modem.py:29-40):
 * split a USSD reply into lines and build a dictionary from each option's
 * label to its key, scanning the lines top to bottom so that a later line
 * with the same label overwrites an earlier one.
 */
module Menu {
  import opened Base
  import opened Strings
  import opened Extract

  /** The dictionary built from `lines` with the line pattern `parseLine`, in line order. */
  function MenuWith(lines: seq<string>, parseLine: string -> Option<Entry>): map<string, string>
  {
    if |lines| == 0 then map[]
    else
      var m := MenuWith(lines[..|lines| - 1], parseLine);
      match parseLine(lines[|lines| - 1])
      case Some(e) => m[e.title := e.key]
      case None => m
  }

  /** parse_menu's dictionary for `lines`: the one-digit pattern of the code. */
  function MenuOf(lines: seq<string>): (r: map<string, string>)
    ensures forall t | t in r :: |r[t]| == 1 && IsDigit(r[t][0])
  {
    KeysAreDigits(lines);
    MenuWith(lines, ParseMenuLine)
  }

  /** Line `i` yields an entry titled `t`. */
  predicate GivesTitle(lines: seq<string>, parseLine: string -> Option<Entry>, i: int, t: string) {
    0 <= i < |lines| && parseLine(lines[i]).Some? && parseLine(lines[i]).value.title == t
  }

  /** Line `i` is the last line that yields an entry titled `t`. */
  predicate LastGivesTitle(lines: seq<string>, parseLine: string -> Option<Entry>, i: int, t: string) {
    GivesTitle(lines, parseLine, i, t) && forall j | i < j < |lines| :: !GivesTitle(lines, parseLine, j, t)
  }

  /** A label is in the dictionary exactly when some line yields it. */
  lemma {:induction false} MenuWithHas(lines: seq<string>, parseLine: string -> Option<Entry>, t: string)
    ensures t in MenuWith(lines, parseLine) <==> exists i :: GivesTitle(lines, parseLine, i, t)
    decreases |lines|
  {
    if |lines| > 0 {
      var n := |lines| - 1;
      var init := lines[..n];
      MenuWithHas(init, parseLine, t);
      if GivesTitle(lines, parseLine, n, t) {
        assert t in MenuWith(lines, parseLine);
      } else {
        assert t in MenuWith(lines, parseLine) <==> t in MenuWith(init, parseLine);
        if t in MenuWith(init, parseLine) {
          var i :| GivesTitle(init, parseLine, i, t);
          assert init[i] == lines[i];
          assert GivesTitle(lines, parseLine, i, t);
        }
        forall i | GivesTitle(lines, parseLine, i, t) ensures GivesTitle(init, parseLine, i, t) {
          assert init[i] == lines[i];
        }
      }
    }
  }

  /** A label's key in the dictionary is the key of the last line that yields the label. */
  lemma {:induction false} MenuWithLast(lines: seq<string>, parseLine: string -> Option<Entry>, t: string)
    requires t in MenuWith(lines, parseLine)
    ensures exists i :: LastGivesTitle(lines, parseLine, i, t) &&
                        MenuWith(lines, parseLine)[t] == parseLine(lines[i]).value.key
    decreases |lines|
  {
    var n := |lines| - 1;
    var init := lines[..n];
    if GivesTitle(lines, parseLine, n, t) {
      assert LastGivesTitle(lines, parseLine, n, t);
    } else {
      assert t in MenuWith(init, parseLine) && MenuWith(lines, parseLine)[t] == MenuWith(init, parseLine)[t];
      MenuWithLast(init, parseLine, t);
      var i :| LastGivesTitle(init, parseLine, i, t) &&
               MenuWith(init, parseLine)[t] == parseLine(init[i]).value.key;
      LastBeforeLast(lines, parseLine, i, t);
    }
  }

  /** The last line yielding `t` among all but the final line stays the last when the final line does not yield `t`. */
  lemma LastBeforeLast(lines: seq<string>, parseLine: string -> Option<Entry>, i: int, t: string)
    requires |lines| > 0 && !GivesTitle(lines, parseLine, |lines| - 1, t)
    requires LastGivesTitle(lines[..|lines| - 1], parseLine, i, t)
    ensures LastGivesTitle(lines, parseLine, i, t) && lines[i] == lines[..|lines| - 1][i]
  {
    var n := |lines| - 1;
    var init := lines[..n];
    assert init[i] == lines[i];
    forall j | i < j < |lines| ensures !GivesTitle(lines, parseLine, j, t) {
      if j < n {
        assert init[j] == lines[j];
        assert !GivesTitle(init, parseLine, j, t);
      }
    }
  }

  /** Every key the one-digit pattern stores is a single digit, so it is never empty (never falsy in Python). */
  lemma {:induction false} KeysAreDigits(lines: seq<string>)
    ensures forall t | t in MenuWith(lines, ParseMenuLine) ::
              |MenuWith(lines, ParseMenuLine)[t]| == 1 && IsDigit(MenuWith(lines, ParseMenuLine)[t][0])
    decreases |lines|
  {
    if |lines| > 0 {
      var init, last := lines[..|lines| - 1], lines[|lines| - 1];
      KeysAreDigits(init);
      match ParseMenuLine(last)
      case None =>
      case Some(e) =>
        assert e.key == last[..1] && IsDigit(last[0]);
    }
  }

  /** Every label stored has no newline and does not start with whitespace. */
  lemma MenuLabelsAreTrimmedAtStart(lines: seq<string>, t: string)
    requires t in MenuOf(lines)
    ensures NoNewline(t, 0, |t|) && (|t| > 0 ==> !IsSpace(t[0]))
  {
    MenuWithHas(lines, ParseMenuLine, t);
    var i :| GivesTitle(lines, ParseMenuLine, i, t);
    ParseMenuLineMeaning(lines[i]);
    var ws, rest :| MenuLineShape(lines[i], ParseMenuLine(lines[i]).value, ws, rest);
    if |t| > 0 {
      assert (t + rest)[0] == t[0];
    }
  }

  /** TelstraAccount.parse_menu: split the reply on "\r\n" and fill the dictionary line by line. */
  method ParseMenu(message: string) returns (menu: map<string, string>)
    ensures menu == MenuOf(Split(message))
  {
    var items := Split(message);
    menu := map[];
    var i := 0;
    while i < |items|
      invariant 0 <= i <= |items|
      invariant menu == MenuOf(items[..i])
    {
      var details := ParseMenuLine(items[i]);
      if details.Some? {
        menu := menu[details.value.title := details.value.key];
      }
      assert items[..i + 1][..i] == items[..i];
      i := i + 1;
    }
    assert items[..i] == items;
  }

  /** The reply test_account.py uses for "#100#": these twelve lines joined with "\r\n". */
  const TestMenuLines: seq<string> := [
    "Bal:$123.45 *", "Exp 12 Aug 2007", "1. Recharge", "2. Balance", "3. My Offer", "4. PlusPacks",
    "5. Tones&Extras", "6. History", "7. CredMe2U", "8. Hlp", "00. Home", "*charges can take 48hrs"]

  const TestMenu: string := Join(TestMenuLines)

  lemma TestMenuSplits()
    ensures Split(TestMenu) == TestMenuLines
  {
    var ls := TestMenuLines;
    forall k | 0 <= k < |ls| ensures !Contains(ls[k], CRLF) {
      NoCarriageReturn(ls[k]);
    }
    SplitJoin(ls);
  }

  /** Adding a line to the end of the scan inserts its entry, if it has one. */
  lemma MenuWithSnoc(lines: seq<string>, line: string, parseLine: string -> Option<Entry>)
    ensures MenuWith(lines + [line], parseLine) ==
              match parseLine(line)
              case Some(e) => MenuWith(lines, parseLine)[e.title := e.key]
              case None => MenuWith(lines, parseLine)
  {
    assert (lines + [line])[..|lines|] == lines;
  }

  /** "<digit>. <title>": a one-digit option with a single space and a one-line title. */
  predicate SimpleOption(line: string) {
    && |line| >= 4 && IsDigit(line[0]) && line[1] == '.' && line[2] == ' '
    && !IsSpace(line[3]) && NoNewline(line, 3, |line|)
  }

  /** Both line patterns read a simple option line as its title under its digit. */
  lemma SimpleOptionRead(line: string)
    requires SimpleOption(line)
    ensures ParseMenuLine(line) == Some(Entry(line[3..], line[..1]))
    ensures ParseMenuLineMultiDigit(line) == Some(Entry(line[3..], line[..1]))
  {
    var e := Entry(line[3..], line[..1]);
    assert line == e.key + "." + " " + e.title + "";
    ShapeIsParsed(line, e, " ", "");
    ShapeIsParsedMultiDigit(line, e, " ", "");
  }

  /** Scanning the test menu's lines with `parseLine`, given how it reads each of them. */
  lemma TestMenuScan(ls: seq<string>, parseLine: string -> Option<Entry>, home: Option<Entry>)
    requires ls == TestMenuLines
    requires parseLine(ls[0]) == None && parseLine(ls[1]) == None
    requires parseLine(ls[2]) == Some(Entry("Recharge", "1"))
    requires parseLine(ls[3]) == Some(Entry("Balance", "2"))
    requires parseLine(ls[4]) == Some(Entry("My Offer", "3"))
    requires parseLine(ls[5]) == Some(Entry("PlusPacks", "4"))
    requires parseLine(ls[6]) == Some(Entry("Tones&Extras", "5"))
    requires parseLine(ls[7]) == Some(Entry("History", "6"))
    requires parseLine(ls[8]) == Some(Entry("CredMe2U", "7"))
    requires parseLine(ls[9]) == Some(Entry("Hlp", "8"))
    requires parseLine(ls[10]) == home && parseLine(ls[11]) == None
    ensures var m := map["Recharge" := "1", "Balance" := "2", "My Offer" := "3", "PlusPacks" := "4",
                         "Tones&Extras" := "5", "History" := "6", "CredMe2U" := "7", "Hlp" := "8"];
            MenuWith(ls, parseLine) == match home case Some(e) => m[e.title := e.key] case None => m
  {
    var pre: seq<string> := [];
    MenuWithSnoc(pre, ls[0], parseLine);
    pre := pre + [ls[0]];
    MenuWithSnoc(pre, ls[1], parseLine);
    pre := pre + [ls[1]];
    MenuWithSnoc(pre, ls[2], parseLine);
    pre := pre + [ls[2]];
    MenuWithSnoc(pre, ls[3], parseLine);
    pre := pre + [ls[3]];
    MenuWithSnoc(pre, ls[4], parseLine);
    pre := pre + [ls[4]];
    MenuWithSnoc(pre, ls[5], parseLine);
    pre := pre + [ls[5]];
    MenuWithSnoc(pre, ls[6], parseLine);
    pre := pre + [ls[6]];
    MenuWithSnoc(pre, ls[7], parseLine);
    pre := pre + [ls[7]];
    MenuWithSnoc(pre, ls[8], parseLine);
    pre := pre + [ls[8]];
    MenuWithSnoc(pre, ls[9], parseLine);
    pre := pre + [ls[9]];
    MenuWithSnoc(pre, ls[10], parseLine);
    pre := pre + [ls[10]];
    MenuWithSnoc(pre, ls[11], parseLine);
    pre := pre + [ls[11]];
    assert pre == ls;
  }

  /**
   * parse_menu as written on the test reply: the eight one-digit options, and
   * no "Home", because "00. Home" has two digits before the dot.
   */
  lemma TestMenuAsWritten(ls: seq<string>)
    requires ls == TestMenuLines
    ensures MenuOf(ls) == map["Recharge" := "1", "Balance" := "2", "My Offer" := "3",
      "PlusPacks" := "4", "Tones&Extras" := "5", "History" := "6", "CredMe2U" := "7", "Hlp" := "8"]
  {
    BothReadSimpleOptions();
    TestMenuOptionsRead(ls, ParseMenuLine);
    TestMenuOtherLines(ls);
    TestMenuScan(ls, ParseMenuLine, None);
  }

  /** A line pattern that reads every simple option line as its title under its digit. */
  ghost predicate ReadsSimpleOptions(parseLine: string -> Option<Entry>) {
    forall line {:trigger parseLine(line)} | SimpleOption(line) :: parseLine(line) == Some(Entry(line[3..], line[..1]))
  }

  /** Both line patterns do. */
  lemma BothReadSimpleOptions()
    ensures ReadsSimpleOptions(ParseMenuLine) && ReadsSimpleOptions(ParseMenuLineMultiDigit)
  {
    forall line | SimpleOption(line)
      ensures ParseMenuLine(line) == Some(Entry(line[3..], line[..1]))
      ensures ParseMenuLineMultiDigit(line) == Some(Entry(line[3..], line[..1]))
    {
      SimpleOptionRead(line);
    }
  }

  /** Such a pattern reads the eight simple option lines of the test menu. */
  lemma TestMenuOptionsRead(ls: seq<string>, parseLine: string -> Option<Entry>)
    requires ls == TestMenuLines && ReadsSimpleOptions(parseLine)
    ensures parseLine(ls[2]) == Some(Entry("Recharge", "1"))
    ensures parseLine(ls[3]) == Some(Entry("Balance", "2"))
    ensures parseLine(ls[4]) == Some(Entry("My Offer", "3"))
    ensures parseLine(ls[5]) == Some(Entry("PlusPacks", "4"))
    ensures parseLine(ls[6]) == Some(Entry("Tones&Extras", "5"))
    ensures parseLine(ls[7]) == Some(Entry("History", "6"))
    ensures parseLine(ls[8]) == Some(Entry("CredMe2U", "7"))
    ensures parseLine(ls[9]) == Some(Entry("Hlp", "8"))
  {
    TestMenuOptions(ls);
    assert ls[2][3..] == "Recharge" && ls[2][..1] == "1";
    assert ls[3][3..] == "Balance" && ls[3][..1] == "2";
    assert ls[4][3..] == "My Offer" && ls[4][..1] == "3";
    assert ls[5][3..] == "PlusPacks" && ls[5][..1] == "4";
    assert ls[6][3..] == "Tones&Extras" && ls[6][..1] == "5";
    assert ls[7][3..] == "History" && ls[7][..1] == "6";
    assert ls[8][3..] == "CredMe2U" && ls[8][..1] == "7";
    assert ls[9][3..] == "Hlp" && ls[9][..1] == "8";
  }

  /** Every numbered option of the test menu except "00. Home" is a simple option line. */
  lemma TestMenuOptions(ls: seq<string>)
    requires ls == TestMenuLines
    ensures forall k | 2 <= k < 10 :: SimpleOption(ls[k])
  {
  }

  /** The header, expiry and footer lines are no option for either pattern; "00. Home" is one only for the multi-digit one. */
  lemma TestMenuOtherLines(ls: seq<string>)
    requires ls == TestMenuLines
    ensures ParseMenuLine(ls[0]) == None && ParseMenuLine(ls[1]) == None
    ensures ParseMenuLine(ls[10]) == None && ParseMenuLine(ls[11]) == None
    ensures ParseMenuLineMultiDigit(ls[0]) == None && ParseMenuLineMultiDigit(ls[1]) == None
    ensures ParseMenuLineMultiDigit(ls[11]) == None
  {
    assert ls[0][0] == 'B' && ls[1][0] == 'E' && ls[10][1] == '0' && ls[11][0] == '*';
  }

  /** The multi-digit pattern reads "00. Home" as the title "Home" under "00". */
  lemma HomeReadMultiDigit(line: string)
    requires line == "00. Home"
    ensures ParseMenuLineMultiDigit(line) == Some(Entry("Home", "00"))
  {
    assert line == "00" + "." + " " + "Home" + "";
    ShapeIsParsedMultiDigit(line, Entry("Home", "00"), " ", "");
  }

  /** So the test's `menu['Home']` would raise KeyError on parse_menu as written. */
  lemma TestMenuLacksHome(ls: seq<string>)
    requires ls == TestMenuLines
    ensures "Home" !in MenuOf(ls)
  {
    TestMenuAsWritten(ls);
    EightOptionsLackHome(MenuOf(ls));
  }

  lemma EightOptionsLackHome(m: map<string, string>)
    requires m == map["Recharge" := "1", "Balance" := "2", "My Offer" := "3",
      "PlusPacks" := "4", "Tones&Extras" := "5", "History" := "6", "CredMe2U" := "7", "Hlp" := "8"]
    ensures "Home" !in m
  {
    assert "Home"[1] == 'o' && "History"[1] == 'i' && "Hlp"[1] == 'l';
    assert forall t | t in m :: t[0] != 'H' || t[1] != 'o';
  }

  /** The multi-digit reading of the test reply: nine options, with "Home" under "00". */
  lemma TestMenuMultiDigit(ls: seq<string>)
    requires ls == TestMenuLines
    ensures MenuWith(ls, ParseMenuLineMultiDigit) == map["Recharge" := "1", "Balance" := "2",
      "My Offer" := "3", "PlusPacks" := "4", "Tones&Extras" := "5", "History" := "6", "CredMe2U" := "7",
      "Hlp" := "8", "Home" := "00"]
  {
    BothReadSimpleOptions();
    TestMenuOptionsRead(ls, ParseMenuLineMultiDigit);
    TestMenuOtherLines(ls);
    HomeReadMultiDigit(ls[10]);
    TestMenuScan(ls, ParseMenuLineMultiDigit, Some(Entry("Home", "00")));
  }

  lemma TestBalanceOf(s: string, rest: string)
    requires s == "Bal:$123.45 *" + CRLF + rest
    ensures BalanceToken(s) == Some("123.45")
  {
    var first := "Bal:$123.45 *";
    BalanceInFirstLine(first, rest, 4, 11);
    assert first[5..11] == "123.45";
  }

  lemma TestExpiryOf(s: string, rest: string)
    requires s == "Bal:$123.45 *" + CRLF + "Exp 12 Aug 2007" + CRLF + rest
    ensures ExpiryToken(s) == Some("12 Aug 2007")
  {
    var line := "Exp 12 Aug 2007";
    ExpiryLineAfterHead("Bal:$123.45 *" + CRLF, line, rest);
    assert line[4..] == "12 Aug 2007";
  }

  /** The first two lines of a join, and the join of the rest. */
  lemma JoinHead(s: string, ls: seq<string>)
    requires |ls| >= 3 && s == Join(ls)
    ensures s == ls[0] + CRLF + ls[1] + CRLF + Join(ls[2..])
  {
    JoinCons(ls);
    JoinCons(ls[1..]);
    assert ls[1..][1..] == ls[2..];
  }

  /** Prepaid.balance on the test reply reads "123.45", and expiry_date "12 Aug 2007". */
  lemma TestMenuBalanceAndExpiry(s: string, ls: seq<string>)
    requires ls == TestMenuLines && s == Join(ls)
    ensures BalanceToken(s) == Some("123.45")
    ensures ExpiryToken(s) == Some("12 Aug 2007")
  {
    JoinHead(s, ls);
    var rest := Join(ls[2..]);
    TestBalanceOf(s, ls[1] + CRLF + rest);
    TestExpiryOf(s, rest);
  }
}

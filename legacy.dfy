/**
 * The older `PrepaidAccount` of modem.py (lines 23-84). It parses menus the
 * same way as account.py, but its `phone_number` is a plain property (no
 * cache), its `expiry_date` subscripts the match object instead of reading
 * group 1, and its `creditme2u` looks the option up under
 * "CredMe2U" only and cancels the final session.
 */
module Legacy {
  import opened Base
  import opened Strings
  import opened Extract
  import opened Menu
  import opened Transport
  import opened Accounts

  /**
   * `creditme2u` as evidently meant: `menu` parsed from the main menu, the
   * option under "CredMe2U" (a KeyError otherwise), the replies on the
   * main-menu session, and the success session cancelled before its message
   * is returned.
   */
  function LegacyCreditMe2UFlow(m: ModemState, phone: string, amount: int): (r: (Result<string>, ModemState))
    ensures r.1.answers == m.answers
    ensures r.0.Err? ==>
              r.0.fault == Timeout || r.0.fault == KeyError("CredMe2U") || r.0.fault == ValueError(BadConfirmation)
    ensures r.0.Ok? ==> |r.1.trace| > 1 && r.1.trace[|r.1.trace| - 2..] == [Reply("1"), Cancel]
  {
    var m1 := m.(trace := m.trace + [Request(MainMenuCode)]);
    if MainMenuCode !in m.answers then (Err(Timeout), m1)
    else
      var menu := MenuOf(Split(m.answers[MainMenuCode]));
      if "CredMe2U" !in menu then (Err(KeyError("CredMe2U")), m1)
      else
        var (success, m2) := ConfirmFlow(m1, menu["CredMe2U"], phone, amount);
        match success
        case Err(f) => (Err(f), m2)
        case Ok(message) => (Ok(message), CancelOn(m2))
  }

  /**
   * `expiry_date` as written, under Python 2: the main menu is opened and
   * cancelled, and when the search matches, `expiry[0]` subscripts a match
   * object, which raises TypeError; without a match the method returns None.
   */
  function LegacyExpiryDateAsWrittenFlow(m: ModemState): (r: (Result<Option<string>>, ModemState))
    ensures r.0.Ok? ==> r.0.value.None?
    ensures r.0.Err? ==> r.0.fault == TypeError || r.0.fault == Timeout
    ensures r.1.replies == m.replies && r.1.answers == m.answers
  {
    if MainMenuCode !in m.answers then (Err(Timeout), m.(trace := m.trace + [Request(MainMenuCode)]))
    else
      var m' := CancelOn(m.(trace := m.trace + [Request(MainMenuCode)]));
      if ExpirySearch(m.answers[MainMenuCode]).Some? then (Err(TypeError), m') else (Ok(None), m')
  }

  /**
   * As written, `expiry_date` fails with TypeError exactly where the group-1
   * reading finds a date, and otherwise agrees with it; the modem sees the
   * same request and cancel either way.
   */
  lemma LegacyExpiryDateAsWrittenFailsOnEveryDate(m: ModemState)
    ensures LegacyExpiryDateAsWrittenFlow(m).1 == MenuTokenFlow(m, ExpiryToken).1
    ensures LegacyExpiryDateAsWrittenFlow(m).0 == Err(TypeError) <==>
              MenuTokenFlow(m, ExpiryToken).0.Ok? && MenuTokenFlow(m, ExpiryToken).0.value.Some?
    ensures LegacyExpiryDateAsWrittenFlow(m).0 != Err(TypeError) ==>
              LegacyExpiryDateAsWrittenFlow(m).0 == MenuTokenFlow(m, ExpiryToken).0
  {
    if MainMenuCode in m.answers {
      assert m.trace + [Request(MainMenuCode)] + [Cancel] == m.trace + [Request(MainMenuCode), Cancel];
    }
  }

  /** On the test suite's main menu, the written `expiry_date` raises TypeError where group 1 is "12 Aug 2007". */
  lemma LegacyExpiryDateAsWrittenFailsOnTestMenu(m: ModemState, ls: seq<string>)
    requires ls == TestMenuLines && MainMenuCode in m.answers && m.answers[MainMenuCode] == Join(ls)
    ensures LegacyExpiryDateAsWrittenFlow(m).0 == Err(TypeError)
    ensures MenuTokenFlow(m, ExpiryToken).0 == Ok(Some("12 Aug 2007"))
  {
    TestMenuBalanceAndExpiry(m.answers[MainMenuCode], ls);
  }

  /**
   * `creditme2u` as written: `menu['CredMe2U']` subscripts the session that
   * `main_menu()` returned, which raises TypeError right after "#100#".
   */
  function LegacyCreditMe2UAsWrittenFlow(m: ModemState): (r: (Result<string>, ModemState))
    ensures r.0.Err? && (r.0.fault == TypeError || r.0.fault == Timeout)
    ensures r.1.replies == m.replies && r.1.answers == m.answers
  {
    var m1 := m.(trace := m.trace + [Request(MainMenuCode)]);
    if MainMenuCode in m.answers then (Err(TypeError), m1) else (Err(Timeout), m1)
  }

  /** On success the older call sends the same replies as account.py's and then cancels the session. */
  lemma LegacyCreditMe2UCancels(m: ModemState, phone: string, amount: int)
    requires MainMenuCode in m.answers && "CredMe2U" in MenuOf(Split(m.answers[MainMenuCode]))
    requires |m.replies| >= 4 && Confirms(m.replies[2], phone, amount)
    ensures var o := MenuOf(Split(m.answers[MainMenuCode]))["CredMe2U"];
            LegacyCreditMe2UFlow(m, phone, amount) ==
              (Ok(m.replies[3]), m.(replies := m.replies[4..], trace := m.trace + CreditEvents(o, phone, amount) + [Cancel]))
  {
    var o := MenuOf(Split(m.answers[MainMenuCode]))["CredMe2U"];
    var m1 := m.(trace := m.trace + [Request(MainMenuCode)]);
    ConfirmFlowAnswered(m1, o, phone, amount);
    var m2 := m1.(replies := m.replies[3..], trace := m1.trace + [Reply(o), Reply(phone), Reply(IntToString(amount))]);
    assert m2.replies[1..] == m.replies[4..];
    assert m2.trace + [Reply("1")] == m.trace + CreditEvents(o, phone, amount);
  }

  /**
   * Where the menu has only the postpaid label "Credit Me2U", the older call
   * stops with a KeyError before any reply, while account.py's goes on and
   * replies with that option.
   */
  lemma LegacyLacksFallback(m: ModemState, phone: string, amount: int)
    requires MainMenuCode in m.answers
    requires var menu := MenuOf(Split(m.answers[MainMenuCode])); "CredMe2U" !in menu && "Credit Me2U" in menu
    ensures LegacyCreditMe2UFlow(m, phone, amount) ==
              (Err(KeyError("CredMe2U")), m.(trace := m.trace + [Request(MainMenuCode)]))
    ensures |CreditMe2UFlow(m, phone, amount).1.trace| > |m.trace| + 1
  {
    var menu := MenuOf(Split(m.answers[MainMenuCode]));
    var m1 := m.(trace := m.trace + [Request(MainMenuCode)]);
    ParsedOptionIsDigit(Split(m.answers[MainMenuCode]));
    if |m1.replies| >= 3 {
      ConfirmFlowAnswered(m1, menu["Credit Me2U"], phone, amount);
    } else {
      ConfirmFlowShort(m1, menu["Credit Me2U"], phone, amount);
    }
  }

  /** As written, the older call never sends a reply and never succeeds. */
  lemma LegacyCreditMe2UAsWrittenNeverReplies(m: ModemState)
    ensures LegacyCreditMe2UAsWrittenFlow(m).0.Err?
    ensures LegacyCreditMe2UAsWrittenFlow(m).1.trace == m.trace + [Request(MainMenuCode)]
    ensures MainMenuCode in m.answers ==> LegacyCreditMe2UAsWrittenFlow(m).0 == Err(TypeError)
  {
  }

  /** modem.py's `PrepaidAccount`. */
  class PrepaidAccount {
    const modem: Modem

    constructor (modem: Modem)
      ensures this.modem == modem
    {
      this.modem := modem;
    }

    /** `main_menu()`. */
    method MainMenu() returns (r: Result<string>)
      modifies modem
      ensures (r, modem.State()) == SendUssdOn(old(modem.State()), MainMenuCode)
    {
      r := modem.SendUssd(MainMenuCode);
    }

    /** `parse_main_menu()`. */
    method ParseMainMenu() returns (r: Result<map<string, string>>)
      modifies modem
      ensures (r, modem.State()) == MainMenuParsedFlow(old(modem.State()))
    {
      var response := MainMenu();
      match response
      case Err(f) =>
        r := Err(f);
      case Ok(message) =>
        var menu := ParseMenu(message);
        r := Ok(menu);
    }

    /** `balance()`, up to the `float` conversion. */
    method Balance() returns (r: Result<Option<string>>)
      modifies modem
      ensures (r, modem.State()) == MenuTokenFlow(old(modem.State()), BalanceToken)
    {
      r := MenuToken(modem, BalanceToken);
    }

    /**
     * `expiry_date()`, up to the `strptime` conversion, reading group 1 as
     * account.py does; as written it raises TypeError whenever a date is
     * found (`LegacyExpiryDateAsWrittenFlow`).
     */
    method ExpiryDate() returns (r: Result<Option<string>>)
      modifies modem
      ensures (r, modem.State()) == MenuTokenFlow(old(modem.State()), ExpiryToken)
    {
      r := MenuToken(modem, ExpiryToken);
    }

    /** `phone_number`: a plain property, so every read sends "#150#" again. */
    method PhoneNumber() returns (r: Result<string>)
      modifies modem
      ensures (r, modem.State()) == PhoneNumberFlow(old(modem.State()))
    {
      var response := modem.SendUssd(PhoneCode);
      match response
      case Err(f) =>
        r := Err(f);
      case Ok(message) =>
        r := PhoneNumberOf(message);
    }

    /** `creditme2u(phone_number, amount)`, as evidently meant; `bypass_confirmation` is never read. */
    method CreditMe2U(phone: string, amount: int) returns (r: Result<string>)
      modifies modem
      ensures (r, modem.State()) == LegacyCreditMe2UFlow(old(modem.State()), phone, amount)
    {
      var response := modem.SendUssd(MainMenuCode);
      if response.Err? {
        return Err(response.fault);
      }
      var menu := ParseMenu(response.value);
      if "CredMe2U" !in menu {
        return Err(KeyError("CredMe2U"));
      }
      var confirmation := Replies(modem, [menu["CredMe2U"], phone, IntToString(amount)]);
      if confirmation.Err? {
        return Err(confirmation.fault);
      }
      if !Confirms(confirmation.value, phone, amount) {
        return Err(ValueError(BadConfirmation));
      }
      var success := Replies(modem, ["1"]);
      if success.Err? {
        return Err(success.fault);
      }
      modem.Cancel();
      r := success;
    }
  }
}

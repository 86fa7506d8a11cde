/**
 * The account layer of account.py: `TelstraAccount` and its `Prepaid` and
 * `Postpaid` subclasses, `check_phone_number` and the class choice of
 * `autodetect_account`.
 *
 * Each operation is first given as a function from the modem's state to its
 * result and the modem's next state (the reference), with lemmas stating what
 * the source promises of it; the `Account` class then performs the operation
 * step by step on a `Transport.Modem` and is proved to agree with the reference.
 */
module Accounts {
  import opened Base
  import opened Strings
  import opened Extract
  import opened Menu
  import opened Transport

  /** The main menu, which also carries the balance and expiry lines. */
  const MainMenuCode: string := "#100#"
  /** Answered with a balance on prepaid services only. */
  const PrepaidCode: string := "#125#"
  /** Answered with the service's own number on its second line. */
  const PhoneCode: string := "#150#"

  const NoCreditMe2U: string := "Could not detect Credit Me2U as being available."
  const BadConfirmation: string := "Didn't receive confirmation correctly."

  // ----- Sessions --------------------------------------------------------------

  /** The reply events for `texts`, in order. */
  function RepliesOf(texts: seq<string>): (evs: seq<Event>)
    ensures |evs| == |texts|
  {
    if |texts| == 0 then [] else [Reply(texts[0])] + RepliesOf(texts[1..])
  }

  /**
   * `session.reply(t1).reply(t2)...`: each reply goes to the session the
   * previous one returned, the chain stops at the first timeout, and the
   * result is the last session's message.
   */
  function ReplyChain(m: ModemState, texts: seq<string>): (r: (Result<string>, ModemState))
    requires |texts| >= 1
    ensures r.1.answers == m.answers && r.1.connected == m.connected && r.1.closed == m.closed
    ensures r.0.Err? ==> r.0.fault == Timeout
    ensures r.0.Ok? ==> |r.1.trace| > 0 && r.1.trace[|r.1.trace| - 1] == Reply(texts[|texts| - 1])
    decreases |texts|
  {
    var m1 := m.(trace := m.trace + [Reply(texts[0])]);
    if |m.replies| == 0 then (Err(Timeout), m1)
    else if |texts| == 1 then (Ok(m.replies[0]), m1.(replies := m.replies[1..]))
    else ReplyChain(m1.(replies := m.replies[1..]), texts[1..])
  }

  /** A chain with an answer for every reply ends on the last of those answers. */
  lemma {:induction false} ReplyChainAnswered(m: ModemState, texts: seq<string>)
    requires 1 <= |texts| <= |m.replies|
    ensures ReplyChain(m, texts) ==
              (Ok(m.replies[|texts| - 1]), m.(replies := m.replies[|texts|..], trace := m.trace + RepliesOf(texts)))
    decreases |texts|
  {
    if |texts| > 1 {
      var m1 := m.(replies := m.replies[1..], trace := m.trace + [Reply(texts[0])]);
      ReplyChainAnswered(m1, texts[1..]);
      assert m1.replies[|texts| - 2] == m.replies[|texts| - 1];
      assert m1.replies[|texts| - 1..] == m.replies[|texts|..];
      assert RepliesOf(texts) == [Reply(texts[0])] + RepliesOf(texts[1..]);
      assert m.trace + RepliesOf(texts) == m1.trace + RepliesOf(texts[1..]);
    } else {
      assert RepliesOf(texts) == [Reply(texts[0])];
    }
  }

  /** A chain that runs out of answers times out on the first unanswered reply, which is still sent. */
  lemma {:induction false} ReplyChainTimesOut(m: ModemState, texts: seq<string>)
    requires |m.replies| < |texts|
    ensures ReplyChain(m, texts) ==
              (Err(Timeout), m.(replies := [], trace := m.trace + RepliesOf(texts[..|m.replies| + 1])))
    decreases |texts|
  {
    if |m.replies| == 0 {
      assert RepliesOf(texts[..1]) == [Reply(texts[0])];
    } else {
      var m1 := m.(replies := m.replies[1..], trace := m.trace + [Reply(texts[0])]);
      ReplyChainTimesOut(m1, texts[1..]);
      var sent := texts[..|m.replies| + 1];
      assert texts[1..][..|m1.replies| + 1] == sent[1..];
      assert RepliesOf(sent) == [Reply(texts[0])] + RepliesOf(sent[1..]);
      assert m.trace + RepliesOf(sent) == m1.trace + RepliesOf(sent[1..]);
    }
  }

  // ----- The reference operations --------------------------------------------

  /** `main_menu()`, then `parse_menu` of its message. */
  function MainMenuParsedFlow(m: ModemState): (Result<map<string, string>>, ModemState)
  {
    var m1 := m.(trace := m.trace + [Request(MainMenuCode)]);
    if MainMenuCode in m.answers then (Ok(MenuOf(Split(m.answers[MainMenuCode]))), m1) else (Err(Timeout), m1)
  }

  /** The uncached `phone_number`: line 1 of the "#150#" reply. */
  function PhoneNumberFlow(m: ModemState): (Result<string>, ModemState)
  {
    var m1 := m.(trace := m.trace + [Request(PhoneCode)]);
    if PhoneCode in m.answers then (PhoneNumberOf(m.answers[PhoneCode]), m1) else (Err(Timeout), m1)
  }

  /** The uncached `is_prepaid`: whether the "#125#" reply holds "Bal:". */
  function IsPrepaidFlow(m: ModemState): (Result<bool>, ModemState)
  {
    var m1 := m.(trace := m.trace + [Request(PrepaidCode)]);
    if PrepaidCode in m.answers then (Ok(IsPrepaidReply(m.answers[PrepaidCode])), m1) else (Err(Timeout), m1)
  }

  /**
   * `Prepaid.balance` and `Prepaid.expiry_date`: open the main menu, cancel
   * that session, then search its message with `token`.
   */
  function MenuTokenFlow(m: ModemState, token: string -> Option<string>): (Result<Option<string>>, ModemState)
  {
    if MainMenuCode in m.answers then
      (Ok(token(m.answers[MainMenuCode])), m.(trace := m.trace + [Request(MainMenuCode), Cancel]))
    else (Err(Timeout), m.(trace := m.trace + [Request(MainMenuCode)]))
  }

  /** `menu.get('CredMe2U', menu.get('Credit Me2U'))`: the prepaid label, else the postpaid one. */
  function CreditOption(menu: map<string, string>): Option<string>
  {
    if "CredMe2U" in menu then Some(menu["CredMe2U"])
    else if "Credit Me2U" in menu then Some(menu["Credit Me2U"])
    else None
  }

  /** `'$%s' % amount`. */
  function Dollars(amount: int): string
  {
    "$" + IntToString(amount)
  }

  /** The confirmation names the number and the amount, so "1" may be sent. */
  predicate Confirms(confirmation: string, phone: string, amount: int) {
    Contains(confirmation, phone) && Contains(confirmation, Dollars(amount))
  }

  /**
   * The confirming half of Credit Me2U on the main-menu session `m`: reply
   * with the option, the number and the amount, check the confirmation, then
   * reply "1" and return that session's message.
   */
  function ConfirmFlow(m: ModemState, option: string, phone: string, amount: int): (Result<string>, ModemState)
  {
    var (c, m1) := ReplyChain(m, [option, phone, IntToString(amount)]);
    match c
    case Err(f) => (Err(f), m1)
    case Ok(confirmation) =>
      if Confirms(confirmation, phone, amount) then ReplyChain(m1, ["1"])
      else (Err(ValueError(BadConfirmation)), m1)
  }

  /**
   * `Prepaid.creditme2u(phone_number, amount)` as its authors evidently meant
   * it: the option comes from the parsed main menu and the replies go to the
   * main-menu session.
   */
  function CreditMe2UFlow(m: ModemState, phone: string, amount: int): (r: (Result<string>, ModemState))
    ensures r.1.answers == m.answers
    ensures r.0.Err? ==>
              r.0.fault == Timeout || r.0.fault == ValueError(NoCreditMe2U) || r.0.fault == ValueError(BadConfirmation)
    ensures r.0.Ok? ==> |r.1.trace| > 0 && r.1.trace[|r.1.trace| - 1] == Reply("1")
  {
    var m1 := m.(trace := m.trace + [Request(MainMenuCode)]);
    if MainMenuCode !in m.answers then (Err(Timeout), m1)
    else
      var option := CreditOption(MenuOf(Split(m.answers[MainMenuCode])));
      if option.None? || option.value == "" then (Err(ValueError(NoCreditMe2U)), m1)
      else ConfirmFlow(m1, option.value, phone, amount)
  }

  /**
   * `Prepaid.creditme2u` as written: `menu` is the session `main_menu()`
   * returned, which has no `get`, so the call ends in an AttributeError right
   * after "#100#" is sent (and `response` is never bound either).
   */
  function CreditMe2UAsWrittenFlow(m: ModemState): (r: (Result<string>, ModemState))
    ensures r.0.Err? && (r.0.fault == AttributeError || r.0.fault == Timeout)
    ensures r.1.replies == m.replies && r.1.answers == m.answers
  {
    var m1 := m.(trace := m.trace + [Request(MainMenuCode)]);
    if MainMenuCode in m.answers then (Err(AttributeError), m1) else (Err(Timeout), m1)
  }

  // ----- What the source promises of them ------------------------------------

  /** The events `creditme2u` leaves when it completes. */
  function CreditEvents(option: string, phone: string, amount: int): seq<Event> {
    [Request(MainMenuCode), Reply(option), Reply(phone), Reply(IntToString(amount)), Reply("1")]
  }

  /** Everything `creditme2u` needs to complete: the menu offers the option and the script answers three replies with a confirmation. */
  predicate CreditPossible(m: ModemState, phone: string, amount: int) {
    && MainMenuCode in m.answers
    && CreditOption(MenuOf(Split(m.answers[MainMenuCode]))).Some?
    && |m.replies| >= 3
    && Confirms(m.replies[2], phone, amount)
  }

  /** Every option parse_menu can store is a single digit, so `not option` only fires when both labels are missing. */
  lemma ParsedOptionIsDigit(lines: seq<string>)
    ensures var o := CreditOption(MenuOf(lines));
            o.Some? ==> |o.value| == 1 && IsDigit(o.value[0])
  {
  }

  /** Without either label the call raises ValueError before any reply is sent. */
  lemma CreditMe2UNoOption(m: ModemState, phone: string, amount: int)
    requires MainMenuCode in m.answers
    requires CreditOption(MenuOf(Split(m.answers[MainMenuCode]))).None?
    ensures CreditMe2UFlow(m, phone, amount) ==
              (Err(ValueError(NoCreditMe2U)), m.(trace := m.trace + [Request(MainMenuCode)]))
  {
  }

  /** With three answers queued, the confirmation is the third and decides whether "1" follows. */
  lemma ConfirmFlowAnswered(m: ModemState, option: string, phone: string, amount: int)
    requires |m.replies| >= 3
    ensures var m2 := m.(replies := m.replies[3..], trace := m.trace + [Reply(option), Reply(phone), Reply(IntToString(amount))]);
            ConfirmFlow(m, option, phone, amount) ==
              if Confirms(m.replies[2], phone, amount) then ReplyChain(m2, ["1"])
              else (Err(ValueError(BadConfirmation)), m2)
  {
    var texts := [option, phone, IntToString(amount)];
    ReplyChainAnswered(m, texts);
    var last := [IntToString(amount)];
    assert texts[1..] == [phone] + last && texts[1..][1..] == last && last[1..] == [];
    assert RepliesOf(last) == [Reply(IntToString(amount))];
    assert RepliesOf(texts[1..]) == [Reply(phone)] + RepliesOf(last);
    assert m.trace + RepliesOf(texts) == m.trace + [Reply(option), Reply(phone), Reply(IntToString(amount))];
  }

  /** With fewer than three answers queued, a reply times out before any confirmation. */
  lemma ConfirmFlowShort(m: ModemState, option: string, phone: string, amount: int)
    requires |m.replies| < 3
    ensures ConfirmFlow(m, option, phone, amount).0 == Err(Timeout)
    ensures |ConfirmFlow(m, option, phone, amount).1.trace| == |m.trace| + |m.replies| + 1
  {
    ReplyChainTimesOut(m, [option, phone, IntToString(amount)]);
  }

  /**
   * "1" is sent exactly when the option exists and the confirmation names
   * both the number and the amount; the replies go out in the order option,
   * number, amount, "1".
   */
  lemma CreditMe2UConfirmGate(m: ModemState, phone: string, amount: int)
    ensures var m' := CreditMe2UFlow(m, phone, amount).1;
            CreditPossible(m, phone, amount) <==> |m'.trace| == |m.trace| + 5
    ensures CreditPossible(m, phone, amount) ==>
              var o := CreditOption(MenuOf(Split(m.answers[MainMenuCode]))).value;
              CreditMe2UFlow(m, phone, amount).1.trace == m.trace + CreditEvents(o, phone, amount)
  {
    var m1 := m.(trace := m.trace + [Request(MainMenuCode)]);
    if MainMenuCode in m.answers {
      var option := CreditOption(MenuOf(Split(m.answers[MainMenuCode])));
      CreditMe2UFlowOption(m, phone, amount);
      if option.Some? {
        ConfirmGate(m1, option.value, phone, amount);
        assert [Request(MainMenuCode)] + [Reply(option.value), Reply(phone), Reply(IntToString(amount)), Reply("1")]
            == CreditEvents(option.value, phone, amount);
      }
    }
  }

  /** Once "#100#" is answered, the call goes on to the confirmation exactly when the menu offers an option. */
  lemma CreditMe2UFlowOption(m: ModemState, phone: string, amount: int)
    requires MainMenuCode in m.answers
    ensures var option := CreditOption(MenuOf(Split(m.answers[MainMenuCode])));
            var m1 := m.(trace := m.trace + [Request(MainMenuCode)]);
            CreditMe2UFlow(m, phone, amount) ==
              if option.None? then (Err(ValueError(NoCreditMe2U)), m1) else ConfirmFlow(m1, option.value, phone, amount)
  {
    ParsedOptionIsDigit(Split(m.answers[MainMenuCode]));
  }

  /** The confirmation step sends its four replies exactly when three are answered and the third confirms. */
  lemma ConfirmGate(m: ModemState, option: string, phone: string, amount: int)
    ensures var m' := ConfirmFlow(m, option, phone, amount).1;
            |m.replies| >= 3 && Confirms(m.replies[2], phone, amount) <==> |m'.trace| == |m.trace| + 4
    ensures |m.replies| >= 3 && Confirms(m.replies[2], phone, amount) ==>
              ConfirmFlow(m, option, phone, amount).1.trace ==
                m.trace + [Reply(option), Reply(phone), Reply(IntToString(amount)), Reply("1")]
  {
    if |m.replies| >= 3 {
      ConfirmFlowAnswered(m, option, phone, amount);
    } else {
      ConfirmFlowShort(m, option, phone, amount);
    }
  }

  /** The call returns a message exactly when it could complete and the "1" is answered; it is that answer. */
  lemma CreditMe2USucceeds(m: ModemState, phone: string, amount: int)
    ensures CreditMe2UFlow(m, phone, amount).0.Ok? <==> CreditPossible(m, phone, amount) && |m.replies| >= 4
    ensures CreditMe2UFlow(m, phone, amount).0.Ok? ==> CreditMe2UFlow(m, phone, amount).0.value == m.replies[3]
  {
    var m1 := m.(trace := m.trace + [Request(MainMenuCode)]);
    if MainMenuCode in m.answers {
      var option := CreditOption(MenuOf(Split(m.answers[MainMenuCode])));
      ParsedOptionIsDigit(Split(m.answers[MainMenuCode]));
      if option.Some? {
        if |m.replies| >= 3 {
          ConfirmFlowAnswered(m1, option.value, phone, amount);
        } else {
          ConfirmFlowShort(m1, option.value, phone, amount);
        }
      }
    }
  }

  /** A confirmation that misses the number or the amount raises ValueError and sends no "1". */
  lemma CreditMe2URejects(m: ModemState, phone: string, amount: int)
    requires MainMenuCode in m.answers
    requires CreditOption(MenuOf(Split(m.answers[MainMenuCode]))).Some?
    requires |m.replies| >= 3 && !Confirms(m.replies[2], phone, amount)
    ensures var o := CreditOption(MenuOf(Split(m.answers[MainMenuCode]))).value;
            CreditMe2UFlow(m, phone, amount) ==
              (Err(ValueError(BadConfirmation)),
               m.(replies := m.replies[3..], trace := m.trace + CreditEvents(o, phone, amount)[..4]))
  {
    var o := CreditOption(MenuOf(Split(m.answers[MainMenuCode]))).value;
    ParsedOptionIsDigit(Split(m.answers[MainMenuCode]));
    var m1 := m.(trace := m.trace + [Request(MainMenuCode)]);
    ConfirmFlowAnswered(m1, o, phone, amount);
    assert m.trace + CreditEvents(o, phone, amount)[..4] ==
           m1.trace + [Reply(o), Reply(phone), Reply(IntToString(amount))];
  }

  /** As written, the call never sends a reply and never succeeds, whatever the menu and the script. */
  lemma CreditMe2UAsWrittenNeverReplies(m: ModemState)
    ensures CreditMe2UAsWrittenFlow(m).0.Err?
    ensures CreditMe2UAsWrittenFlow(m).1.trace == m.trace + [Request(MainMenuCode)]
    ensures MainMenuCode in m.answers ==> CreditMe2UAsWrittenFlow(m).0 == Err(AttributeError)
  {
  }

  // ----- Steps on the modem shared by both account classes -------------------

  /** Open the main menu, cancel that session, and search its message with `token`. */
  method MenuToken(modem: Modem, token: string -> Option<string>) returns (r: Result<Option<string>>)
    modifies modem
    ensures (r, modem.State()) == MenuTokenFlow(old(modem.State()), token)
  {
    var response := modem.SendUssd(MainMenuCode);
    match response
    case Err(f) =>
      r := Err(f);
    case Ok(message) =>
      modem.Cancel();
      r := Ok(token(message));
      assert old(modem.trace) + [Request(MainMenuCode)] + [Event.Cancel] == old(modem.trace) + [Request(MainMenuCode), Event.Cancel];
  }

  /** `session.reply(t1).reply(t2)...`. */
  method Replies(modem: Modem, texts: seq<string>) returns (r: Result<string>)
    requires |texts| >= 1
    modifies modem
    ensures (r, modem.State()) == ReplyChain(old(modem.State()), texts)
    decreases |texts|
  {
    var answer := modem.Reply(texts[0]);
    if answer.Err? || |texts| == 1 {
      return answer;
    }
    r := Replies(modem, texts[1..]);
  }

  // ----- The account object ---------------------------------------------------

  /** Which of account.py's classes an account object is. */
  datatype Kind = Telstra | Prepaid | Postpaid

  /** A `TelstraAccount` (or subclass) wrapping a modem, with the two `@lazy` caches. */
  class Account {
    const modem: Modem
    const kind: Kind
    /** `phone_number` once computed; `@lazy` stores a value only when the computation returns. */
    var phoneNumber: Option<string>
    /** `is_prepaid` once computed. */
    var isPrepaid: Option<bool>

    constructor (modem: Modem, kind: Kind)
      ensures this.modem == modem && this.kind == kind
      ensures phoneNumber == None && isPrepaid == None
    {
      this.modem := modem;
      this.kind := kind;
      phoneNumber := None;
      isPrepaid := None;
    }

    /** `close()`: closes the modem. */
    method Close()
      modifies modem
      ensures modem.State() == old(modem.State()).(trace := old(modem.trace) + [Event.Close], closed := true)
    {
      modem.Close();
    }

    /** `main_menu()`: the "#100#" session's message. */
    method MainMenu() returns (r: Result<string>)
      modifies modem
      ensures (r, modem.State()) == SendUssdOn(old(modem.State()), MainMenuCode)
    {
      r := modem.SendUssd(MainMenuCode);
    }

    /** `main_menu_parsed()`. */
    method MainMenuParsed() returns (r: Result<map<string, string>>)
      modifies modem
      ensures (r, modem.State()) == MainMenuParsedFlow(old(modem.State()))
    {
      var response := MainMenu();
      match response
      case Err(f) =>
        r := Err(f);
      case Ok(message) =>
        var menu := ParseMenu(message);
        r := Ok(menu);
    }

    /** The `@lazy` `phone_number`: "#150#" is sent on the first successful read only. */
    method PhoneNumber() returns (r: Result<string>)
      modifies this, modem
      ensures old(phoneNumber).Some? ==>
                r == Ok(old(phoneNumber).value) && phoneNumber == old(phoneNumber) && modem.State() == old(modem.State())
      ensures old(phoneNumber).None? ==>
                && (r, modem.State()) == PhoneNumberFlow(old(modem.State()))
                && phoneNumber == (if r.Ok? then Some(r.value) else None)
      ensures isPrepaid == old(isPrepaid)
    {
      if phoneNumber.Some? {
        return Ok(phoneNumber.value);
      }
      var response := modem.SendUssd(PhoneCode);
      match response
      case Err(f) =>
        r := Err(f);
      case Ok(message) =>
        r := PhoneNumberOf(message);
        if r.Ok? {
          phoneNumber := Some(r.value);
        }
    }

    /** The `@lazy` `is_prepaid`: "#125#" is sent on the first successful read only. */
    method IsPrepaid() returns (r: Result<bool>)
      modifies this, modem
      ensures old(isPrepaid).Some? ==>
                r == Ok(old(isPrepaid).value) && isPrepaid == old(isPrepaid) && modem.State() == old(modem.State())
      ensures old(isPrepaid).None? ==>
                && (r, modem.State()) == IsPrepaidFlow(old(modem.State()))
                && isPrepaid == (if r.Ok? then Some(r.value) else None)
      ensures phoneNumber == old(phoneNumber)
    {
      if isPrepaid.Some? {
        return Ok(isPrepaid.value);
      }
      var response := modem.SendUssd(PrepaidCode);
      match response
      case Err(f) =>
        r := Err(f);
      case Ok(message) =>
        var prepaid := IsPrepaidReply(message);
        isPrepaid := Some(prepaid);
        r := Ok(prepaid);
    }

    /** `Prepaid.balance`, up to the `float` conversion: the token after the first "$". Only `Prepaid` has it. */
    method Balance() returns (r: Result<Option<string>>)
      modifies modem
      ensures kind == Prepaid ==> (r, modem.State()) == MenuTokenFlow(old(modem.State()), BalanceToken)
      ensures kind != Prepaid ==> r == Err(AttributeError) && modem.State() == old(modem.State())
    {
      if kind != Prepaid {
        return Err(AttributeError);
      }
      r := MenuToken(modem, BalanceToken);
    }

    /** `Prepaid.expiry_date`, up to the `strptime` conversion: group 1 of the expiry search. */
    method ExpiryDate() returns (r: Result<Option<string>>)
      modifies modem
      ensures kind == Prepaid ==> (r, modem.State()) == MenuTokenFlow(old(modem.State()), ExpiryToken)
      ensures kind != Prepaid ==> r == Err(AttributeError) && modem.State() == old(modem.State())
    {
      if kind != Prepaid {
        return Err(AttributeError);
      }
      r := MenuToken(modem, ExpiryToken);
    }

    /** `Prepaid.creditme2u(phone_number, amount)`, as its authors evidently meant it. Only `Prepaid` has it. */
    method CreditMe2U(phone: string, amount: int) returns (r: Result<string>)
      modifies modem
      ensures kind == Prepaid ==> (r, modem.State()) == CreditMe2UFlow(old(modem.State()), phone, amount)
      ensures kind != Prepaid ==> r == Err(AttributeError) && modem.State() == old(modem.State())
    {
      if kind != Prepaid {
        return Err(AttributeError);
      }
      var response := modem.SendUssd(MainMenuCode);
      if response.Err? {
        return Err(response.fault);
      }
      var menu := ParseMenu(response.value);
      var option := CreditOption(menu);
      if option.None? || option.value == "" {
        return Err(ValueError(NoCreditMe2U));
      }
      var confirmation := Replies(modem, [option.value, phone, IntToString(amount)]);
      if confirmation.Err? {
        return Err(confirmation.fault);
      }
      if Confirms(confirmation.value, phone, amount) {
        r := Replies(modem, ["1"]);
      } else {
        r := Err(ValueError(BadConfirmation));
      }
    }
  }

  /** `check_phone_number(modem, phone_number)`: a fresh base account's `phone_number`, compared. */
  method CheckPhoneNumber(modem: Modem, phone: string) returns (r: Result<bool>)
    modifies modem
    ensures var (number, m') := PhoneNumberFlow(old(modem.State()));
            && modem.State() == m'
            && r == match number case Ok(n) => Ok(n == phone) case Err(f) => Err(f)
  {
    var account := new Account(modem, Telstra);
    var number := account.PhoneNumber();
    match number
    case Err(f) =>
      r := Err(f);
    case Ok(n) =>
      r := Ok(n == phone);
  }

  /**
   * The class choice of `autodetect_account`, given the modem that
   * `autodetect_modem` found (null for None): a throw-away base account
   * reads `is_prepaid`, and a new `Prepaid` or `Postpaid` account on the same
   * modem is returned, its own caches still empty.
   */
  method AutodetectAccount(modem: Modem?) returns (r: Result<Account?>)
    modifies modem
    ensures modem == null ==> r == Ok(null)
    ensures modem != null ==>
              var (prepaid, m') := IsPrepaidFlow(old(modem.State()));
              && modem.State() == m'
              && (prepaid.Err? ==> r == Err(prepaid.fault))
              && (prepaid.Ok? ==>
                    && r.Ok? && r.value != null && fresh(r.value) && r.value.modem == modem
                    && r.value.kind == (if prepaid.value then Prepaid else Postpaid)
                    && r.value.phoneNumber == None && r.value.isPrepaid == None)
  {
    if modem == null {
      return Ok(null);
    }
    var account := new Account(modem, Telstra);
    var prepaid := account.IsPrepaid();
    match prepaid
    case Err(f) =>
      r := Err(f);
    case Ok(p) =>
      var chosen := new Account(modem, if p then Prepaid else Postpaid);
      r := Ok(chosen);
  }

  // ----- The replies of the test suite's dummy modem ---------------------------

  /** A text without `c` does not contain any `sub` that starts with `c`. */
  lemma AbsentInitial(s: string, sub: string)
    requires |sub| > 0 && forall k | 0 <= k < |s| :: s[k] != sub[0]
    ensures !Contains(s, sub)
  {
    forall i | 0 <= i && i + |sub| <= |s| ensures !OccursAt(s, sub, i) {
      assert s[i..i + |sub|][0] == s[i];
    }
    ContainsMeansOccurs(s, sub);
  }

  /** The prepaid dummy's "#125#" reply makes the account prepaid, the postpaid dummy's does not. */
  lemma TestPrepaidReplies(prepaid: string, postpaid: string)
    requires prepaid == "Bal: $10.00" && postpaid == "This service only functions on prepaid."
    ensures IsPrepaidReply(prepaid)
    ensures !IsPrepaidReply(postpaid)
  {
    assert OccursAt(prepaid, "Bal:", 0);
    ContainsMeansOccurs(prepaid, "Bal:");
    AbsentInitial(postpaid, "Bal:");
  }

  /** The dummy's "#150#" reply gives the number on its second line. */
  lemma TestPhoneReply(reply: string)
    requires reply == "Phone number:" + CRLF + "0412345678"
    ensures PhoneNumberOf(reply) == Ok("0412345678")
  {
    NoCarriageReturn("Phone number:");
    NoCarriageReturn("0412345678");
    assert Join(["Phone number:", "0412345678"] + []) == reply;
    PhoneNumberIsSecondLine("Phone number:", "0412345678", []);
  }

  /** The test menu offers Credit Me2U as option "7". */
  lemma TestMenuCreditOption(ls: seq<string>)
    requires ls == TestMenuLines
    ensures CreditOption(MenuOf(ls)) == Some("7")
  {
    TestMenuAsWritten(ls);
  }

  /** Wherever the intended call succeeds, the call as written has already failed after "#100#". */
  lemma CreditMe2UAsWrittenFailsWhereIntendedSucceeds(m: ModemState, phone: string, amount: int)
    requires CreditPossible(m, phone, amount) && |m.replies| >= 4
    ensures CreditMe2UFlow(m, phone, amount).0 == Ok(m.replies[3])
    ensures CreditMe2UAsWrittenFlow(m) == (Err(AttributeError), m.(trace := m.trace + [Request(MainMenuCode)]))
  {
    CreditMe2USucceeds(m, phone, amount);
  }
}

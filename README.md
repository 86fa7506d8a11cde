# telstra.mobile USSD core, modelled in Dafny

This project models the part of `telstra.mobile` that drives a Telstra SIM
through its USSD menus, and proves properties of that model.

- **Menu parsing.** `parse_menu` splits a reply on `"\r\n"`. It then builds a
  dictionary from each option's label to its one-digit key, scanning the lines
  top to bottom (module `Menu`, over the line pattern in `Extract`).
- **Text extraction.** Four pure extractors:
  - the phone number: line 1 of the `#150#` reply;
  - the prepaid test: `"Bal:"` occurs in the `#125#` reply;
  - the balance token: `\$(.*?)\s`;
  - the expiry token: `Exp.*?\s(.*?)\r\n`.

  Each regular expression is given as a match predicate with the leftmost,
  lazy or greedy choice Python's engine makes (module `Extract`).
- **`+CUSD` reassembly.** `Modem._handleUssd` joins the modem's lines and
  returns every leftmost non-overlapping match of
  `\+CUSD:\s*\d,".*?",\d+` with DOTALL (module `Cusd`). These are the
  `+CUSD: <m>,<str>,<dcs>` result codes of section 7.15 of 3GPP TS 27.007.
- **The accounts.** `TelstraAccount` and its `Prepaid`/`Postpaid` subclasses
  are one class with a kind tag and the two `@lazy` caches. Also modelled are
  `check_phone_number` and the class choice of `autodetect_account` (module
  `Accounts`), and the older `PrepaidAccount` of modem.py (module `Legacy`).
  Each operation is specified by a function from the modem's state to its
  result and next state. The class methods are proved to agree with those
  functions, and lemmas state what the source promises of them.
- **The port loop.** modem.py's `autodetect` is a `for` loop over the ports
  that leaves with `break` (modem.py:91-96). It is modelled as a `while`
  loop with early returns (`Probe.Autodetect`), specified by `StopFrom`, the
  index where the loop ends (module `Probe`).

The modem is a double (module `Transport`), shaped like the test suite's
dummy modem. Each USSD code has a scripted answer. The replies inside a
session are answered from a scripted queue. Every request, reply, cancel,
close and connect is recorded in a trace. A code without an answer, or a
reply after the queue is empty, stands for gsmmodem's `TimeoutException`.

Python 2 byte strings are modelled as `string`. `\d` is `[0-9]`, and `\s`
covers space, `\t`, `\n`, `\r`, `\f` and `\v`.

### Notes on the source

- **Menu keys are one digit.** The menu pattern is `(\d)\.\s+(.*)`. A line
  such as `"00. Home"` is skipped. tests/test_account.py:102,105 expects nine
  entries, with `Home → "00"`; the model follows the code.
  - `Menu.TestMenuAsWritten` and `Menu.TestMenuLacksHome` prove that the code
    yields eight entries and no "Home".
  - `Menu.TestMenuMultiDigit` proves that the multi-digit pattern
    `Extract.ParseMenuLineMultiDigit` would yield the tests' nine.
- **Labels are not trimmed at the end.** Only the whitespace before a label is
  consumed. Trailing text up to the end of the line stays in the label.
- **`is_prepaid`** only tests the `#125#` reply for `"Bal:"`
  (account.py:66-67). It does not cancel the session, and it lets a timeout
  propagate.
- **The base class is used on its own.** Besides `Prepaid` and `Postpaid`, the base
  `TelstraAccount` is used on its own by `check_phone_number` and
  `autodetect_account`.
- **account.py imports neither `re` nor `datetime`** (account.py:1-3).
  The model reads it as if it did, as modem.py does.
- **`autodetect_modem` is missing.** account.py imports it (account.py:3), but
  modem.py defines `autodetect` (modem.py:87). `autodetect_account` is
  therefore modelled from the modem it is given.

## Model

All sources are under `src/telstra/mobile/`.

| member | source | states |
|---|---|---|
| Strings.JoinSplit | src/telstra/mobile/account.py:29 | joining the pieces of `message.split('\r\n')` with `"\r\n"` gives back the message |
| Strings.SplitJoin | src/telstra/mobile/modem.py:17 | splitting a `'\r\n'.join(lines)` of terminator-free lines gives back the lines |
| Strings.SplitPiecesHaveNoTerminator | src/telstra/mobile/account.py:29 | no piece of a split holds `"\r\n"` |
| Strings.SplitSingle | src/telstra/mobile/account.py:29 | a message splits into one piece exactly when it holds no `"\r\n"` |
| Strings.ContainsMeansOccurs | src/telstra/mobile/account.py:67 | Python's `sub in s` holds exactly when `sub` occurs at some index of `s` |
| Extract.ParseMenuLine | src/telstra/mobile/account.py:32-35 | a line yields an entry exactly when it starts with a digit, `.` and a whitespace character; the key is that one digit |
| Extract.ParseMenuLineMeaning | src/telstra/mobile/account.py:32-35 | an accepted line reads as digit, `.`, a maximal non-empty whitespace run, then a label free of newlines that ends at a newline or at the end of the line |
| Extract.ShapeIsParsed | src/telstra/mobile/account.py:32-35 | conversely, every line of that shape with a one-digit key is accepted, with exactly that label and key |
| Extract.ParseMenuLineMultiDigit | src/telstra/mobile/account.py:32 | the `(\d+)` reading the tests assume: the key is a non-empty prefix of the line |
| Extract.ParseMenuLineMultiDigitMeaning | src/telstra/mobile/account.py:32 | the `(\d+)` reading accepts only lines of the menu-line shape |
| Extract.ShapeIsParsedMultiDigit | src/telstra/mobile/account.py:32 | the `(\d+)` reading accepts every line of that shape, whatever the key's length |
| Extract.BalanceSearch | src/telstra/mobile/account.py:85 | the match `re.search('\$(.*?)\s')` reports: the leftmost start, then the shortest group; none when no `$` has whitespace after it |
| Extract.BalanceToken | src/telstra/mobile/account.py:85-87 | the balance token holds no whitespace |
| Extract.BalanceTokenMeaning | src/telstra/mobile/account.py:85-87 | the token is the text after the first `$` up to the next whitespace character |
| Extract.BalanceInFirstLine | src/telstra/mobile/account.py:85-87 | a `$` amount on the first line of a reply is the token, whatever the later lines hold |
| Extract.BalanceTokenAbsent | src/telstra/mobile/account.py:86 | there is no balance exactly when no `$` in the message has a whitespace character after it |
| Extract.ExpirySearch | src/telstra/mobile/account.py:93 | the match of `Exp.*?\s(.*?)\r\n`: leftmost start, then the shortest lazy run, then the shortest group; none when nothing matches |
| Extract.ExpiryToken | src/telstra/mobile/account.py:93-95 | the expiry token holds no newline |
| Extract.ExpiryTokenMeaning | src/telstra/mobile/account.py:93-95 | for `Exp`, one whitespace character, a date and `"\r\n"`, with no earlier `E`, the token is the date |
| Extract.ExpiryLineAfterHead | src/telstra/mobile/account.py:93-95 | an expiry line after lines without `E` gives the text after `Exp ` as the token |
| Extract.GroupFrom | src/telstra/mobile/account.py:93 | the lazy group ends at the first `"\r\n"` it can |
| Extract.ExpiryRunFrom | src/telstra/mobile/account.py:93 | the lazy `.*?\s` run is the shortest one that lets the rest match |
| Extract.ExpirySearchFrom | src/telstra/mobile/account.py:93 | the leftmost `Exp` from which the whole pattern matches |
| Extract.WholeMatchIsNotADate | src/telstra/mobile/modem.py:58-60 | read as Python 3.6 and later read `expiry[0]`, the whole match starts with `Exp` and ends with `"\r\n"`, so it never reads as `'%d %b %Y'`; it exists exactly when group 1 does |
| Extract.TokenEndsWholeMatch | src/telstra/mobile/modem.py:58-60 | the whole match is `Exp…`, followed by the group-1 token and `"\r\n"` |
| Extract.PhoneNumberOf | src/telstra/mobile/account.py:57-58 | `split('\r\n')[1]` raises IndexError exactly when the reply holds no `"\r\n"`; otherwise the number is a single line, free of `"\r\n"` |
| Extract.PhoneNumberIsSecondLine | src/telstra/mobile/account.py:58 | the number is the reply's second line, whatever follows it |
| Extract.IsPrepaidReply | src/telstra/mobile/account.py:66-67 | Python's `'Bal:' in message` holds exactly when `Bal:` occurs at some index of the reply |
| Menu.ParseMenu | src/telstra/mobile/account.py:29-37 | the loop builds exactly the dictionary `MenuOf` of the reply's lines |
| Menu.MenuWithHas | src/telstra/mobile/account.py:31-35 | a label is in the dictionary exactly when some line yields it |
| Menu.MenuWithLast | src/telstra/mobile/account.py:35 | a label's key is the key of the last line that yields it: later lines overwrite earlier ones |
| Menu.MenuOf | src/telstra/mobile/account.py:29-37 | every key the dictionary stores for a label is a single digit, so never empty |
| Menu.MenuLabelsAreTrimmedAtStart | src/telstra/mobile/account.py:32 | every stored label is free of newlines and does not start with whitespace |
| Menu.TestMenuSplits | src/telstra/mobile/tests/test_account.py:9 | the test reply splits into its twelve lines |
| Menu.TestMenuAsWritten | src/telstra/mobile/tests/test_account.py:101-104 | parse_menu of the test reply is the eight one-digit options, with `Recharge → "1"` and `CredMe2U → "7"` |
| Menu.TestMenuLacksHome | src/telstra/mobile/tests/test_account.py:102-105 | parse_menu as written gives no `"Home"` for the test reply |
| Menu.TestMenuMultiDigit | src/telstra/mobile/tests/test_account.py:102-105 | the `(\d+)` reading gives the nine entries the test expects, with `Home → "00"` |
| Menu.TestMenuBalanceAndExpiry | src/telstra/mobile/tests/test_account.py:123-129 | on the test reply the balance token is `"123.45"` and the expiry token `"12 Aug 2007"` |
| Cusd.FirstCloser | src/telstra/mobile/modem.py:18 | the lazy body `".*?"` stops at the first `",<digit>` |
| Cusd.MatchAtMeaning | src/telstra/mobile/modem.py:18-20 | every match is a well-formed record: `+CUSD:`, whitespace, a status digit, a quoted body without `",<digit>`, a comma and digits |
| Cusd.NotificationMatches | src/telstra/mobile/modem.py:18-20 | a record in the text matches where it starts, up to the end of its code digits and any digits that follow |
| Cusd.MatchAt | src/telstra/mobile/modem.py:18 | a match at a position starts with `+CUSD:` there and ends after it, within the text |
| Cusd.MatchStopsAtBreak | src/telstra/mobile/modem.py:18-20 | a record followed by a line break matches exactly up to the break |
| Cusd.FindAllFrom | src/telstra/mobile/modem.py:18-20 | the spans `findall` reports are in the text, in order and non-overlapping |
| Cusd.FindAllFromMatches | src/telstra/mobile/modem.py:18-20 | each span is the match at its start |
| Cusd.FindAllFromCovers | src/telstra/mobile/modem.py:18-20 | no match is missed: every position where a match starts lies inside a reported span |
| Cusd.FindAll | src/telstra/mobile/modem.py:18-20 | `findall` returns one piece per reported span, and every piece is a well-formed record |
| Cusd.HandleUssd | src/telstra/mobile/modem.py:14-21 | every piece handed on to gsmmodem is a well-formed record: `+CUSD:`, whitespace, a status digit, a quoted body without `",<digit>`, a comma and digits |
| Cusd.SingleNotification | src/telstra/mobile/modem.py:17-20 | a lone record comes back unchanged, as a one-element list |
| Cusd.HandleUssdReassembles | src/telstra/mobile/modem.py:17-21 | lines that join into one record are passed on as that single record |
| Cusd.TwoLineNotification | src/telstra/mobile/modem.py:17 | a record whose body was split across two lines joins back with `"\r\n"` inside the body |
| Cusd.TwoNotifications | src/telstra/mobile/modem.py:17-21 | two records on two lines come back as the same two records |
| Cusd.BalanceReplyReassembled | src/telstra/mobile/modem.py:17-21 | a balance reply split after its first line is reassembled into one record |
| Transport.Modem.constructor | src/telstra/mobile/tests/__init__.py:23-26 | a new modem remembers its port and settings; it is not connected and nothing has been done to it |
| Transport.Modem.Connect | src/telstra/mobile/tests/__init__.py:28-30 | connect records the attempt and connects only on a port that accepts it |
| Transport.Modem.Close | src/telstra/mobile/tests/__init__.py:32-33 | close records itself and marks the modem closed |
| Transport.Modem.SendUssd | src/telstra/mobile/tests/test_account.py:32-44 | a request is recorded and answered with the code's scripted message, or times out |
| Transport.Modem.Reply | src/telstra/mobile/account.py:121 | a reply is recorded and answered with the next scripted message, or times out |
| Transport.Modem.Cancel | src/telstra/mobile/tests/test_account.py:15-16 | a cancel is recorded and changes nothing else |
| Transport.SendUssdOn | src/telstra/mobile/tests/test_account.py:32-44 | a request is answered exactly when its code is scripted; only the trace grows |
| Transport.ReplyOn | src/telstra/mobile/account.py:121 | a reply consumes one scripted answer exactly when one is left; the trace grows by that reply |
| Probe.StopFrom | src/telstra/mobile/modem.py:91-100 | the loop stops on a port at or after the one it starts from |
| Probe.StopFromFound | src/telstra/mobile/modem.py:91-96 | the loop stops on port k exactly when k connects and every earlier port failed with SerialException or TimeoutException |
| Probe.StopFromRaised | src/telstra/mobile/modem.py:93-100 | another exception escapes from port k exactly when k raised it and every earlier port failed quietly |
| Probe.StopFromExhausted | src/telstra/mobile/modem.py:91-102 | the loop runs past the last port exactly when every port failed quietly |
| Probe.StopFromIgnoresLater | src/telstra/mobile/modem.py:94-96 | ports after the one the loop stops on make no difference |
| Probe.Autodetect | src/telstra/mobile/modem.py:87-102 | one modem is built per port tried, in port order, at 9600 baud, and connected once. The result is the first modem that connects; else the last modem built, unconnected; None with no ports; the exception for any other failure |
| Accounts.ReplyChainAnswered | src/telstra/mobile/account.py:121 | chained replies that are all answered consume one scripted answer each and return the last |
| Accounts.ReplyChainTimesOut | src/telstra/mobile/account.py:121 | a chain that runs out of answers times out on the first unanswered reply, after sending it, and sends nothing more |
| Accounts.CreditMe2UFlow | src/telstra/mobile/account.py:103-128 | the intended Credit Me2U never touches the script's `#`-code answers; it fails only with a timeout, the missing-option ValueError or the bad-confirmation ValueError, and on success its last event is the `"1"` reply |
| Accounts.CreditMe2UAsWrittenFlow | src/telstra/mobile/account.py:114-121 | as written, the call always fails, with AttributeError (or a timeout on `#100#`), and consumes no scripted reply |
| Accounts.ParsedOptionIsDigit | src/telstra/mobile/account.py:117-118 | the option parse_menu offers is a single digit, so `not option` holds only when neither label is present |
| Accounts.CreditMe2UNoOption | src/telstra/mobile/account.py:117-119 | without `CredMe2U` or `Credit Me2U` in the menu, the call raises ValueError and sends no reply |
| Accounts.ConfirmFlowAnswered | src/telstra/mobile/account.py:121-126 | with three answers queued, the third is the confirmation, and it alone decides whether `"1"` follows |
| Accounts.ConfirmFlowShort | src/telstra/mobile/account.py:121 | with fewer than three answers queued, the call times out before any confirmation |
| Accounts.CreditMe2UConfirmGate | src/telstra/mobile/account.py:117-126 | `"1"` is sent exactly when the option exists and the confirmation names both `str(phone_number)` and `'$%s' % amount`. The replies go out as option, number, amount, `"1"` |
| Accounts.CreditMe2USucceeds | src/telstra/mobile/account.py:121-128 | the call returns a message exactly when it could confirm and the `"1"` is answered; it returns that answer |
| Accounts.CreditMe2URejects | src/telstra/mobile/account.py:122-126 | a confirmation missing the number or the amount raises ValueError, after the three replies and without a `"1"` |
| Accounts.CreditMe2UAsWrittenNeverReplies | src/telstra/mobile/account.py:114-117 | as written, the call sends `#100#`, then fails (AttributeError) without a single reply, whatever the menu and the script |
| Accounts.CreditMe2UAsWrittenFailsWhereIntendedSucceeds | src/telstra/mobile/account.py:114-128 | wherever the intended call returns the success message, the call as written has already failed after `#100#` |
| Accounts.MenuToken | src/telstra/mobile/account.py:83-85 | the main menu is requested, its session cancelled, and the message searched |
| Accounts.Replies | src/telstra/mobile/account.py:121 | each reply goes to the session the last one returned, stopping at the first timeout |
| Accounts.Account.constructor | src/telstra/mobile/account.py:10-15 | a new account wraps the modem, with both lazy attributes not yet computed |
| Accounts.Account.Close | src/telstra/mobile/account.py:17-20 | closing the account closes its modem |
| Accounts.Account.MainMenu | src/telstra/mobile/account.py:46-49 | the main menu is the `#100#` request |
| Accounts.Account.MainMenuParsed | src/telstra/mobile/account.py:39-44 | the parsed main menu is parse_menu of the `#100#` reply |
| Accounts.Account.PhoneNumber | src/telstra/mobile/account.py:51-58 | the first successful read sends `#150#` and caches line 1 of the reply; later reads return the cache and send nothing; a failed read caches nothing |
| Accounts.Account.IsPrepaid | src/telstra/mobile/account.py:60-67 | the first successful read sends `#125#` and caches whether `"Bal:"` occurs; later reads send nothing |
| Accounts.Account.Balance | src/telstra/mobile/account.py:81-87 | a prepaid account sends `#100#`, cancels, and returns the balance token (None without a match); other accounts have no balance |
| Accounts.Account.ExpiryDate | src/telstra/mobile/account.py:89-95 | a prepaid account sends `#100#`, cancels, and returns the group-1 expiry token (None without a match) |
| Accounts.Account.CreditMe2U | src/telstra/mobile/account.py:103-128 | the intended Credit Me2U: the state and result are those of the reference flow `CreditMe2UFlow` |
| Accounts.CheckPhoneNumber | src/telstra/mobile/account.py:131-140 | a fresh base account reads the phone number (one `#150#`) and compares it with the given one |
| Accounts.AutodetectAccount | src/telstra/mobile/account.py:162-167 | no modem gives None. Otherwise one `#125#` is sent, and the result is a new `Prepaid` account on the same modem when the reply holds `"Bal:"`, else a new `Postpaid` one, both with empty caches |
| Accounts.TestPrepaidReplies | src/telstra/mobile/tests/test_account.py:36-42 | the prepaid dummy's `#125#` reply makes a prepaid account; the postpaid dummy's does not |
| Accounts.TestPhoneReply | src/telstra/mobile/tests/test_account.py:43-44 | the dummy's `#150#` reply gives `"0412345678"` |
| Accounts.TestMenuCreditOption | src/telstra/mobile/account.py:117 | on the test reply, the Credit Me2U option is `"7"` |
| Legacy.LegacyExpiryDateAsWrittenFlow | src/telstra/mobile/modem.py:55-60 | as written under Python 2, `expiry_date` never returns a date: it returns None, or fails with TypeError (or a timeout on `#100#`), and sends no reply |
| Legacy.LegacyExpiryDateAsWrittenFailsOnEveryDate | src/telstra/mobile/modem.py:55-60 | as written under Python 2, `expiry_date` sends `#100#` and cancels like the group-1 reading; it raises TypeError exactly when that reading finds a date, and otherwise returns the same None |
| Legacy.LegacyExpiryDateAsWrittenFailsOnTestMenu | src/telstra/mobile/modem.py:58-60 | on the test suite's main menu, `expiry_date` as written raises TypeError where group 1 is `12 Aug 2007` |
| Legacy.LegacyCreditMe2UFlow | src/telstra/mobile/modem.py:73-84 | the intended older Credit Me2U fails only with a timeout, KeyError(`CredMe2U`) or the bad-confirmation ValueError, and on success ends with the `"1"` reply followed by a cancel |
| Legacy.LegacyCreditMe2UCancels | src/telstra/mobile/modem.py:73-84 | on success the older call sends the same replies, then cancels the success session and returns its message |
| Legacy.LegacyLacksFallback | src/telstra/mobile/modem.py:75 | with only the `Credit Me2U` label, the older call raises KeyError before any reply, while account.py's replies with that option |
| Legacy.LegacyCreditMe2UAsWrittenFlow | src/telstra/mobile/modem.py:74-76 | as written, the older call always fails, with TypeError (or a timeout on `#100#`), and consumes no scripted reply |
| Legacy.LegacyCreditMe2UAsWrittenNeverReplies | src/telstra/mobile/modem.py:74-76 | as written, the older call sends `#100#`, then fails (TypeError) without a reply |
| Legacy.PrepaidAccount.constructor | src/telstra/mobile/modem.py:25-26 | the older account wraps the modem |
| Legacy.PrepaidAccount.MainMenu | src/telstra/mobile/modem.py:45-46 | the main menu is the `#100#` request |
| Legacy.PrepaidAccount.ParseMainMenu | src/telstra/mobile/modem.py:42-43 | the parsed main menu is parse_menu of the `#100#` reply |
| Legacy.PrepaidAccount.Balance | src/telstra/mobile/modem.py:48-53 | sends `#100#`, cancels, and returns the balance token |
| Legacy.PrepaidAccount.ExpiryDate | src/telstra/mobile/modem.py:55-60 | sends `#100#`, cancels, and returns the group-1 expiry token (the corrected reading, see Findings) |
| Legacy.PrepaidAccount.PhoneNumber | src/telstra/mobile/modem.py:68-71 | every read sends `#150#` again and returns line 1 of the reply |
| Legacy.PrepaidAccount.CreditMe2U | src/telstra/mobile/modem.py:73-84 | the intended older Credit Me2U: the state and result are those of `LegacyCreditMe2UFlow` |

## Left out

- The `float(...)` conversion of the balance and the `strptime('%d %b %Y')`
  conversion of the expiry (account.py:87,95). They are floating-point and
  library date parsing, so the model stops at the extracted tokens.
- Accounts.Account.Balance: returns the token, not `float(token)`. A token
  that `float` rejects would raise ValueError in Python; the model returns it
  as text.
- Accounts.Account.ExpiryDate: returns the token, not the `datetime`. A token
  that `strptime` rejects would raise ValueError in Python.
- Legacy.PrepaidAccount.Balance: returns the token, not `float(token)`, for
  the same reason.
- Legacy.PrepaidAccount.ExpiryDate: returns the group-1 token, not the
  `datetime`.
- The gsmmodem library:
  - the `super()._handleUssd` parsing of each record (modem.py:21);
  - the AT commands behind `sendUssd`, `reply`, `cancel`, `connect` and
    `close`.

  The double stands in for them. It keeps one reply queue per modem, not one
  per session object.
- `serialenum.enumerate()` (modem.py:88) is I/O. The ports are a parameter of
  `Probe.Autodetect`.
- Probe.Autodetect: every exception other than SerialException and
  TimeoutException is one `Unexpected` fault. The exception's type and
  message are not kept.
- `autodetect_modem` and its `check_fn` (account.py:3,163-164) are not part
  of this model. `Accounts.AutodetectAccount` takes the modem it would have
  returned, and only `check_phone_number`'s comparison is modelled.
- The `lazy` package beyond its memoise-on-success behaviour.
- Accounts.CheckPhoneNumber: the number to compare is always a string. The
  `None` that `autodetect_account(phone_number=None)` passes through its
  `check` lambda (account.py:142-164) cannot be stated; in Python that
  comparison is always False once the `#150#` reply has been read.
- `balance_plus_packs` and `balance_call_credits` (account.py:97-101,
  modem.py:62-66) are `pass` bodies that return None, so there is nothing to
  model.
- The `phone_number` parameter of `autodetect` (modem.py:87) and the
  `bypass_confirmation` parameter of the older `creditme2u` (modem.py:73) are
  never read.
- web.py, the scripts under scripts/, the repository-root modem.py,
  docs/creditjump.py and setup.py. They cover HTTP, command-line
  handling, state files, clocks, sleeping and packaging.
- Unicode: Python 2 byte strings are modelled as ASCII text. There is no
  locale-dependent `\s` or `\d`.

## Findings

| source | as written | input that shows it | evidently intended | confidence | as-written member | corrected member |
|---|---|---|---|---|---|---|
| src/telstra/mobile/account.py:114-121 | `menu` is the session `main_menu()` returns, and `menu.get(...)` is called on it; `response` is never bound | any modem that answers `#100#`, e.g. with the test reply | parse the main menu, look the option up there, and reply on the main-menu session | not executed; high | Accounts.CreditMe2UAsWrittenFailsWhereIntendedSucceeds | Accounts.CreditMe2UConfirmGate |
| src/telstra/mobile/modem.py:74-76 | `menu['CredMe2U']` subscripts the session `main_menu()` returns; `response` is never bound | any modem that answers `#100#` | parse the main menu, then reply on the main-menu session and cancel the success session | not executed; high | Legacy.LegacyCreditMe2UAsWrittenNeverReplies | Legacy.LegacyCreditMe2UCancels |
| src/telstra/mobile/modem.py:58-60 | `expiry[0]` subscripts the match object `re.search` returns, which Python 2 does not allow, so the method raises TypeError whenever a date is found (Python 3.6 and later would pass the whole match, `Exp 12 Aug 2007` with its `"\r\n"`, to `strptime`, which rejects it) | the test suite's main menu, whose group 1 is `12 Aug 2007` | parse group 1, as account.py:95 does | not executed; high | Legacy.LegacyExpiryDateAsWrittenFailsOnTestMenu | Extract.ExpiryTokenMeaning |

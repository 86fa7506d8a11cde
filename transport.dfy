/**
 * A stand-in for the gsmmodem `GsmModem` the account code drives, in the
 * shape of the dummy modems of the test suite (tests/__init__.py:10-35,
 * tests/test_account.py:28-48): each USSD code has a scripted answer, the
 * replies sent inside a session are answered from a scripted queue, and
 * every request, reply, cancel, close and connect is recorded in order.
 *
 * A code without a scripted answer, or a reply once the queue is empty, is
 * what gsmmodem reports as a `TimeoutException`.
 */
module Transport {
  import opened Base

  /** One thing the account code did to the modem. */
  datatype Event = Request(code: string) | Reply(text: string) | Cancel | Close | Connect

  /** How `connect()` ends on a port. */
  datatype ConnectOutcome = Connected | SerialFailure | TimeoutFailure | OtherFailure

  /** `SerialException` and `TimeoutException`: the two failures the port loop swallows. */
  predicate Swallowed(o: ConnectOutcome) {
    o == SerialFailure || o == TimeoutFailure
  }

  /** Everything about the modem double that its methods read or change. */
  datatype ModemState = ModemState(
    answers: map<string, string>,  // the answer to each USSD code
    replies: seq<string>,          // the answers to the next replies, in order
    trace: seq<Event>,             // what was done so far, oldest first
    connected: bool,
    closed: bool)

  /** `sendUssd(code)`: the scripted answer, or a timeout. */
  function SendUssdOn(m: ModemState, code: string): (r: (Result<string>, ModemState))
    ensures r.1 == m.(trace := m.trace + [Request(code)])
    ensures r.0.Ok? <==> code in m.answers
    ensures code in m.answers ==> r.0.value == m.answers[code]
    ensures r.0.Err? ==> r.0.fault == Timeout
  {
    var m' := m.(trace := m.trace + [Request(code)]);
    if code in m.answers then (Ok(m.answers[code]), m') else (Err(Timeout), m')
  }

  /** `session.reply(text)`: the next scripted answer, or a timeout once they run out. */
  function ReplyOn(m: ModemState, text: string): (r: (Result<string>, ModemState))
    ensures r.1.trace == m.trace + [Reply(text)]
    ensures r.0.Ok? <==> |m.replies| > 0
    ensures r.0.Ok? ==> r.0.value == m.replies[0] && r.1.replies == m.replies[1..]
    ensures r.0.Err? ==> r.0.fault == Timeout && r.1.replies == m.replies
    ensures r.1.answers == m.answers && r.1.connected == m.connected && r.1.closed == m.closed
  {
    var m' := m.(trace := m.trace + [Reply(text)]);
    if |m.replies| > 0 then (Ok(m.replies[0]), m'.(replies := m.replies[1..]))
    else (Err(Timeout), m')
  }

  /** `session.cancel()`. */
  function CancelOn(m: ModemState): ModemState
  {
    m.(trace := m.trace + [Cancel])
  }

  /** The modem double: one `GsmModem` opened on `port` at `baudrate`. */
  class Modem {
    const port: string
    const baudrate: nat
    /** What `connect()` does on this port. */
    const outcome: ConnectOutcome
    const answers: map<string, string>
    var replies: seq<string>
    var trace: seq<Event>
    var connected: bool
    var closed: bool

    function State(): ModemState
      reads this
    {
      ModemState(answers, replies, trace, connected, closed)
    }

    /** `Modem(port, baudrate=...)`: a modem not yet connected, with nothing done to it. */
    constructor (port: string, baudrate: nat, outcome: ConnectOutcome, answers: map<string, string>, replies: seq<string>)
      ensures this.port == port && this.baudrate == baudrate && this.outcome == outcome
      ensures State() == ModemState(answers, replies, [], false, false)
    {
      this.port := port;
      this.baudrate := baudrate;
      this.outcome := outcome;
      this.answers := answers;
      this.replies := replies;
      trace := [];
      connected := false;
      closed := false;
    }

    /** `connect()`: records the attempt; connected only when the port accepts it. */
    method Connect() returns (r: ConnectOutcome)
      modifies this
      ensures r == outcome
      ensures State() == old(State()).(trace := old(trace) + [Event.Connect], connected := old(connected) || outcome == Connected)
    {
      trace := trace + [Event.Connect];
      if outcome == Connected {
        connected := true;
      }
      r := outcome;
    }

    /** `close()`. */
    method Close()
      modifies this
      ensures State() == old(State()).(trace := old(trace) + [Event.Close], closed := true)
    {
      trace := trace + [Event.Close];
      closed := true;
    }

    /** `sendUssd(code)`: opens a session and returns its first message. */
    method SendUssd(code: string) returns (r: Result<string>)
      modifies this
      ensures (r, State()) == SendUssdOn(old(State()), code)
    {
      trace := trace + [Request(code)];
      if code in answers {
        r := Ok(answers[code]);
      } else {
        r := Err(Timeout);
      }
    }

    /** `session.reply(text)`: answers inside the open session. */
    method Reply(text: string) returns (r: Result<string>)
      modifies this
      ensures (r, State()) == ReplyOn(old(State()), text)
    {
      trace := trace + [Event.Reply(text)];
      if |replies| > 0 {
        r := Ok(replies[0]);
        replies := replies[1..];
      } else {
        r := Err(Timeout);
      }
    }

    /** `session.cancel()`. */
    method Cancel()
      modifies this
      ensures State() == CancelOn(old(State()))
    {
      trace := trace + [Event.Cancel];
    }
  }
}

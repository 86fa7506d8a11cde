/**
 * The port-probing loop `autodetect` of modem.py (lines 87-102): try the
 * enumerated serial ports in order, build a modem at 9600 baud on each and
 * connect it; stop at the first that connects, carry on past a
 * `SerialException` or `TimeoutException`, and let any other exception out.
 */
module Probe {
  import opened Base
  import opened Transport

  /** A serial port as the enumeration lists it, and the modem behind it. */
  datatype Port = Port(name: string, outcome: ConnectOutcome, answers: map<string, string>, replies: seq<string>)

  /** The only setting the loop passes to the modem. */
  const BaudRate: nat := 9600

  /** Where the loop ends: on a port that connected, on a port that raised, or past the last port. */
  datatype Stop = Found(index: nat) | Raised(index: nat) | Exhausted

  /** Where the loop ends when it starts at port `i`. */
  function StopFrom(ports: seq<Port>, i: nat): (r: Stop)
    requires i <= |ports|
    ensures (r.Found? || r.Raised?) ==> i <= r.index < |ports|
    decreases |ports| - i
  {
    if i == |ports| then Exhausted
    else if ports[i].outcome == Connected then Found(i)
    else if Swallowed(ports[i].outcome) then StopFrom(ports, i + 1)
    else Raised(i)
  }

  /** The ports from `i` up to `k` all failed in a way the loop swallows. */
  predicate SwallowedUpTo(ports: seq<Port>, i: nat, k: nat)
    requires i <= k <= |ports|
  {
    forall j | i <= j < k :: Swallowed(ports[j].outcome)
  }

  /** The loop stops on port `k` exactly when `k` connects and every earlier port failed quietly. */
  lemma {:induction false} StopFromFound(ports: seq<Port>, i: nat, k: nat)
    requires i <= k < |ports|
    ensures StopFrom(ports, i) == Found(k) <==> ports[k].outcome == Connected && SwallowedUpTo(ports, i, k)
    decreases k - i
  {
    if i < k {
      StopFromFound(ports, i + 1, k);
    }
  }

  /** The loop lets an exception out of port `k` exactly when `k` raised it and every earlier port failed quietly. */
  lemma {:induction false} StopFromRaised(ports: seq<Port>, i: nat, k: nat)
    requires i <= k < |ports|
    ensures StopFrom(ports, i) == Raised(k) <==>
              ports[k].outcome == OtherFailure && SwallowedUpTo(ports, i, k)
    decreases k - i
  {
    if i < k {
      StopFromRaised(ports, i + 1, k);
    }
  }

  /** The loop runs past the last port exactly when every port failed quietly. */
  lemma {:induction false} StopFromExhausted(ports: seq<Port>, i: nat)
    requires i <= |ports|
    ensures StopFrom(ports, i) == Exhausted <==> SwallowedUpTo(ports, i, |ports|)
    decreases |ports| - i
  {
    if i < |ports| {
      StopFromExhausted(ports, i + 1);
    }
  }

  /** Ports after the one the loop stops on make no difference: they are never tried. */
  lemma {:induction false} StopFromIgnoresLater(ports: seq<Port>, more: seq<Port>, i: nat)
    requires i <= |ports| && StopFrom(ports, i) != Exhausted
    ensures StopFrom(ports + more, i) == StopFrom(ports, i)
    decreases |ports| - i
  {
    assert (ports + more)[i] == ports[i];
    if Swallowed(ports[i].outcome) {
      StopFromIgnoresLater(ports, more, i + 1);
    }
  }

  /** How many modems the loop builds: one per port tried. */
  function Tried(ports: seq<Port>): nat
  {
    match StopFrom(ports, 0)
    case Found(k) => k + 1
    case Raised(k) => k + 1
    case Exhausted => |ports|
  }

  /** A modem the loop built on `port` and then tried to connect, once. */
  ghost predicate BuiltOn(m: Modem, port: Port)
    reads m
  {
    && m.port == port.name && m.baudrate == BaudRate && m.outcome == port.outcome
    && m.State() == ModemState(port.answers, port.replies, [Event.Connect], port.outcome == Connected, false)
  }

  /**
   * `autodetect()`: the modem on the first port that connects; the last
   * modem built, unconnected, when every port fails quietly; null when there
   * are no ports; and the exception when a port raises anything else.
   * `built` lists the modems the loop constructs, one per port tried.
   */
  method Autodetect(ports: seq<Port>) returns (r: Result<Modem?>, ghost built: seq<Modem>)
    ensures |built| == Tried(ports) <= |ports|
    ensures forall k | 0 <= k < |built| :: fresh(built[k]) && BuiltOn(built[k], ports[k])
    ensures StopFrom(ports, 0).Found? ==> r == Ok(built[StopFrom(ports, 0).index])
    ensures StopFrom(ports, 0).Raised? ==> r == Err(Unexpected)
    ensures StopFrom(ports, 0).Exhausted? ==> r == Ok(if |ports| == 0 then null else built[|ports| - 1])
  {
    var modem: Modem? := null;
    built := [];
    var i := 0;
    while i < |ports|
      invariant i <= |ports| && |built| == i
      invariant StopFrom(ports, 0) == StopFrom(ports, i)
      invariant forall k | 0 <= k < i :: fresh(built[k]) && BuiltOn(built[k], ports[k])
      invariant modem == if i == 0 then null else built[i - 1]
    {
      modem := new Modem(ports[i].name, BaudRate, ports[i].outcome, ports[i].answers, ports[i].replies);
      built := built + [modem];
      var outcome := modem.Connect();
      if outcome == Connected {
        return Ok(modem), built;
      } else if !Swallowed(outcome) {
        return Err(Unexpected), built;
      }
      i := i + 1;
    }
    r := Ok(modem);
  }
}

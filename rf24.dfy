/** The part of the RF24 radio driver the host uses: a half-duplex transceiver that is
    either listening or ready to transmit. The driver itself is not part of this model; the
    Radio class records every call made on it in `trace`, and its listening flag is always
    the one that trace leads to.
 */
module Rf24 {
  import opened CatfeederCom

  datatype RadioOp =
    | StopListening
    | StartListening
      /** One datagram sent, and whether the radio was listening when it was sent. */
    | Write(payload: seq<Byte>, whileListening: bool)

  /** The datagrams a trace puts on the air, oldest first. */
  function Transmitted(ops: seq<RadioOp>): (d: seq<seq<Byte>>)
    ensures |d| <= |ops|
    ensures (forall i | 0 <= i < |ops| :: !ops[i].Write?) ==> d == []
  {
    if ops == [] then []
    else (if ops[0].Write? then [ops[0].payload] else []) + Transmitted(ops[1..])
  }

  lemma {:induction false} TransmittedAppend(a: seq<RadioOp>, b: seq<RadioOp>)
    ensures Transmitted(a + b) == Transmitted(a) + Transmitted(b)
  {
    if a == [] {
      assert a + b == b;
    } else {
      assert (a + b)[1..] == a[1..] + b;
      TransmittedAppend(a[1..], b);
    }
  }

  /** The listening flag after one call, starting from l. */
  function Step(l: bool, op: RadioOp): bool
  {
    match op
    case StopListening => false
    case StartListening => true
    case Write(_, _) => l
  }

  /** The listening flag after `ops`, starting from `start`: the last mode change wins. */
  function ListeningAfter(start: bool, ops: seq<RadioOp>): (l: bool)
    ensures (forall i | 0 <= i < |ops| :: ops[i].Write?) ==> l == start
    decreases |ops|
  {
    if ops == [] then start
    else ListeningAfter(Step(start, ops[0]), ops[1..])
  }

  lemma {:induction false} ListeningAfterAppend(start: bool, a: seq<RadioOp>, b: seq<RadioOp>)
    ensures ListeningAfter(start, a + b) == ListeningAfter(ListeningAfter(start, a), b)
    decreases |a|
  {
    if a == [] {
      assert a + b == b;
    } else {
      assert (a + b)[1..] == a[1..] + b;
      ListeningAfterAppend(Step(start, a[0]), a[1..], b);
    }
  }

  /** Half-duplex discipline: nothing was sent while the radio was listening. */
  predicate SentOnlyWhenNotListening(ops: seq<RadioOp>)
  {
    forall i | 0 <= i < |ops| :: ops[i].Write? ==> !ops[i].whileListening
  }

  class Radio {
    var listening: bool
    var trace: seq<RadioOp>
    ghost const initiallyListening: bool

    /** Consistency of the abstract radio: the flag is the one its call history leads to.
        Every method keeps it, so a client may reason about `listening` either from the
        methods' contracts or from ListeningAfter over the trace. */
    ghost predicate Valid()
      reads this
    {
      listening == ListeningAfter(initiallyListening, trace)
    }

    constructor (listening0: bool)
      ensures Valid()
      ensures listening == listening0 && trace == []
    {
      listening := listening0;
      trace := [];
      initiallyListening := listening0;
    }

    /** radio.stopListening() */
    method StopListening()
      requires Valid()
      modifies this
      ensures Valid()
      ensures !listening && trace == old(trace) + [RadioOp.StopListening]
    {
      ListeningAfterAppend(initiallyListening, trace, [RadioOp.StopListening]);
      listening := false;
      trace := trace + [RadioOp.StopListening];
    }

    /** radio.startListening() */
    method StartListening()
      requires Valid()
      modifies this
      ensures Valid()
      ensures listening && trace == old(trace) + [RadioOp.StartListening]
    {
      ListeningAfterAppend(initiallyListening, trace, [RadioOp.StartListening]);
      listening := true;
      trace := trace + [RadioOp.StartListening];
    }

    /** radio.write(buf, len): sends the first len bytes of buf as one datagram and reports
        whether it was acknowledged. The outcome belongs to the link and the peer, so the
        model leaves it unconstrained. C reads len bytes starting at buf; asking for more
        than the buffer holds would read past it. */
    method Write(buf: seq<Byte>, len: nat) returns (ok: bool)
      requires Valid()
      requires len <= |buf|
      modifies this
      ensures Valid()
      ensures listening == old(listening)
      ensures trace == old(trace) + [RadioOp.Write(buf[..len], old(listening))]
    {
      ListeningAfterAppend(initiallyListening, trace, [RadioOp.Write(buf[..len], listening)]);
      trace := trace + [RadioOp.Write(buf[..len], listening)];
      ok :| true;
    }
  }
}

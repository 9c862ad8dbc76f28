/** The host program (raspi/catfeeder.cpp): it sends one force-feed request to the feeder
    when asked to on its command line. The radio setup, the command-line parser and the
    check for root rights are not part of this model.
 */
module Host {
  import opened CatfeederCom
  import opened Rf24

  /** What rf24_send_force_feed does to the radio for the datagram d. */
  function SendSequence(d: seq<Byte>): seq<RadioOp>
  {
    [RadioOp.StopListening, RadioOp.Write(d, false), RadioOp.StartListening]
  }

  /** rf24_send_force_feed(qty). `stale` is what the stack held where the local request
      struct lives: C never initialises it, and only its type and qty bytes are written.
      The result of the write is ignored and nothing is read back. */
  method SendForceFeed(radio: Radio, qty: Byte, stale: ReqMem)
    requires radio.Valid()
    modifies radio
    ensures radio.Valid() && radio.listening
    ensures radio.trace == old(radio.trace) + SendSequence(EncodeReq(ForceFeedReq(qty), stale))
    ensures Transmitted(radio.trace) == Transmitted(old(radio.trace)) + [EncodeReq(ForceFeedReq(qty), stale)]
    ensures SentOnlyWhenNotListening(old(radio.trace)) ==> SentOnlyWhenNotListening(radio.trace)
  {
    var req := stale;
    req := StoreReqType(req, Tag(MiscForceFeed));
    req := StoreQty(req, qty);
    assert req == EncodeReq(ForceFeedReq(qty), stale) && req[..ReqSize] == req;
    radio.StopListening();
    var _ := radio.Write(req, ReqSize);
    radio.StartListening();
    ForceFeedEffect(old(radio.trace), radio.initiallyListening, qty, stale);
  }

  /** One call of rf24_send_force_feed, appended to any earlier history: exactly one
      datagram of sizeof(req) bytes goes out, tagged as a force feed and carrying qty
      unchanged; bytes 2..5 are whatever the stack held; it is sent with listening off and
      listening is on afterwards; and a feeder decodes it as a force feed of qty. */
  lemma {:induction false} ForceFeedEffect(before: seq<RadioOp>, start: bool, qty: Byte, stale: ReqMem)
    ensures var d := EncodeReq(ForceFeedReq(qty), stale);
            var after := before + SendSequence(d);
            && Transmitted(after) == Transmitted(before) + [d]
            && |d| == 6 && d[0] == Tag(MiscForceFeed) && d[1] == qty && d[2..] == stale[2..]
            && DecodeReq(d) == Ok(ForceFeedReq(qty))
            && ListeningAfter(start, after)
            && (SentOnlyWhenNotListening(before) ==> SentOnlyWhenNotListening(after))
  {
    var d := EncodeReq(ForceFeedReq(qty), stale);
    var ops := SendSequence(d);
    TransmittedAppend(before, ops);
    assert Transmitted(ops) == [d] by {
      assert ops[1..] == [RadioOp.Write(d, false), RadioOp.StartListening];
      assert ops[2..] == [RadioOp.StartListening];
      assert ops[3..] == [];
    }
    ListeningAfterAppend(start, before, ops);
    assert ListeningAfter(ListeningAfter(start, before), ops) by {
      assert ops[1..][1..][1..] == [];
    }
    ReqRoundTrip(ForceFeedReq(qty), stale);
  }

  /** C's conversion of an int to uint8_t: the value modulo 256. */
  function AsUint8(x: int): (b: Byte)
    ensures 0 <= x < 256 ==> b == x
    ensures (x - b) % 256 == 0
  {
    x % 256
  }

  /** The end of main once the radio is set up: a force feed is sent only when the feed
      option was given, and then exactly once. feed_arg is converted to the uint8_t
      parameter of rf24_send_force_feed. */
  method Run(radio: Radio, feedGiven: bool, feedArg: int, stale: ReqMem)
    requires radio.Valid()
    modifies radio
    ensures radio.Valid()
    ensures feedGiven ==>
      radio.listening &&
      radio.trace == old(radio.trace) + SendSequence(EncodeReq(ForceFeedReq(AsUint8(feedArg)), stale))
    ensures !feedGiven ==> radio.trace == old(radio.trace) && radio.listening == old(radio.listening)
    ensures |Transmitted(radio.trace)| == |Transmitted(old(radio.trace))| + (if feedGiven then 1 else 0)
  {
    if feedGiven {
      SendForceFeed(radio, AsUint8(feedArg), stale);
    }
  }
}

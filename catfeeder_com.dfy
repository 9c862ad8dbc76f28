/** The wire format shared by the host and the feeder (arduino/catfeeder/catfeeder_com.h).

    The header declares a command enumeration and two packed structs, each a type byte
    followed by an untagged union. Nothing tells the receiver which union member is live
    except the type byte, so the model keeps two levels:
    - the raw struct memory (ReqMem, RespMem) with one load and one store per C member, so
      that members of a union share bytes exactly as they do in C;
    - typed Request / Response values, one constructor per command kind, with Encode
      (store the value over the struct's previous contents) and Decode (read the type byte,
      then the member that kind uses).
 */
module CatfeederCom {

  /** One octet, a C uint8_t. */
  type Byte = x: int | 0 <= x < 256

  datatype Option<T> = None | Some(value: T)

  /** Radio pipe addresses, one per direction (the two uint64_t constants). */
  const CatfeederToHostPipe: int := 0xF0_F0F0_F0D1
  const HostToCatfeederPipe: int := 0xF0_F0F0_F0D2

  // ---------------------------------------------------------------------------------------
  // enum cf_command_type

  datatype CommandType =
    | CdError
    | MiscForceFeed
    | CalValueGet
    | SlotGetCount
    | SlotGet
    | SlotSet
    | SlotFeed

  const CommandCount: nat := 7

  /** The enumerators in the order they are declared. */
  const DeclaredOrder: seq<CommandType> :=
    [CdError, MiscForceFeed, CalValueGet, SlotGetCount, SlotGet, SlotSet, SlotFeed]

  /** The value C gives each enumerator: CD_ERROR = 0, each later one the next integer. */
  function Tag(c: CommandType): (t: Byte)
    ensures t < CommandCount
    ensures DeclaredOrder[t] == c
  {
    match c
    case CdError => 0
    case MiscForceFeed => 1
    case CalValueGet => 2
    case SlotGetCount => 3
    case SlotGet => 4
    case SlotSet => 5
    case SlotFeed => 6
  }

  /** The enumerator a type byte names, if any. */
  function CommandOf(b: Byte): (r: Option<CommandType>)
    ensures r.Some? <==> b < CommandCount
    ensures r.Some? ==> Tag(r.value) == b
  {
    if b < CommandCount then Some(DeclaredOrder[b]) else None
  }

  lemma TagRoundTrip(c: CommandType)
    ensures CommandOf(Tag(c)) == Some(c)
  {
  }

  /** Tags are distinct: no two enumerators share a value. */
  lemma TagInjective(c: CommandType, d: CommandType)
    ensures Tag(c) == Tag(d) <==> c == d
  {
  }

  // ---------------------------------------------------------------------------------------
  // Sizes and offsets. Every field is one uint8_t except cal_value, a 4-byte float. Both
  // structs are packed, so the union starts right after the type byte and there is no
  // padding anywhere.

  const TypeSize: nat := 1
  const TypeOffset: nat := 0
  const CmdOffset: nat := TypeOffset + TypeSize

  /** struct slot of the request: idx, hour, min, qty, enable. */
  const ReqSlotSize: nat := 5
  /** A union is as large as its largest member: qty (1), slotidx (1), slot (5). */
  const ReqUnionSize: nat := ReqSlotSize
  const ReqSize: nat := TypeSize + ReqUnionSize

  /** struct slot of the response: hour, min, qty, enable. */
  const RespSlotSize: nat := 4
  const CalValueSize: nat := 4
  /** cal_value (4), slot_count (1), slot (4). */
  const RespUnionSize: nat := CalValueSize
  const RespSize: nat := TypeSize + RespUnionSize

  /** The bytes of a cf_cmd_req_t / cf_cmd_resp_t object. */
  type ReqMem = m: seq<Byte> | |m| == ReqSize witness [0, 0, 0, 0, 0, 0]
  type RespMem = m: seq<Byte> | |m| == RespSize witness [0, 0, 0, 0, 0]

  /** The float cal_value, kept as its four bytes in memory order. */
  type Bytes4 = s: seq<Byte> | |s| == CalValueSize witness [0, 0, 0, 0]

  // ---------------------------------------------------------------------------------------
  // Members of cf_cmd_req: loads read from any buffer long enough, stores write into the
  // struct.

  datatype ReqSlot = ReqSlot(idx: Byte, hour: Byte, min: Byte, qty: Byte, enable: Byte)

  /** req.type */
  function LoadReqType(m: seq<Byte>): (t: Byte)
    requires |m| > TypeOffset
  {
    m[TypeOffset]
  }

  function StoreReqType(m: ReqMem, t: Byte): (r: ReqMem)
    ensures LoadReqType(r) == t
    ensures forall i | 0 <= i < ReqSize && i != 0 :: r[i] == m[i]
  {
    m[TypeOffset := t]
  }

  /** req.cmd.qty */
  function LoadQty(m: seq<Byte>): (q: Byte)
    requires |m| > CmdOffset
  {
    m[CmdOffset]
  }

  function StoreQty(m: ReqMem, q: Byte): (r: ReqMem)
    ensures LoadQty(r) == q
    ensures forall i | 0 <= i < ReqSize && i != 1 :: r[i] == m[i]
  {
    m[CmdOffset := q]
  }

  /** req.cmd.slotidx */
  function LoadSlotIdx(m: seq<Byte>): (i: Byte)
    requires |m| > CmdOffset
    ensures i == m[1] && i == LoadQty(m)
  {
    m[CmdOffset]
  }

  function StoreSlotIdx(m: ReqMem, i: Byte): (r: ReqMem)
    ensures LoadSlotIdx(r) == i
    ensures forall k | 0 <= k < ReqSize && k != 1 :: r[k] == m[k]
  {
    m[CmdOffset := i]
  }

  /** req.cmd.slot, its fields in declaration order. */
  function LoadReqSlot(m: seq<Byte>): (s: ReqSlot)
    requires |m| >= CmdOffset + ReqSlotSize
  {
    ReqSlot(m[CmdOffset], m[CmdOffset + 1], m[CmdOffset + 2], m[CmdOffset + 3], m[CmdOffset + 4])
  }

  function StoreReqSlot(m: ReqMem, s: ReqSlot): (r: ReqMem)
    ensures LoadReqSlot(r) == s
    ensures r[0] == m[0]
  {
    m[CmdOffset := s.idx][CmdOffset + 1 := s.hour][CmdOffset + 2 := s.min]
     [CmdOffset + 3 := s.qty][CmdOffset + 4 := s.enable]
  }

  /** qty, slotidx and slot.idx are one and the same byte, byte 1. */
  lemma ReqUnionAliasing(m: ReqMem)
    ensures LoadQty(m) == m[1] && LoadSlotIdx(m) == m[1] && LoadReqSlot(m).idx == m[1]
  {
  }

  /** A value written through qty is read back through slotidx and slot.idx, and the other
      slot fields are untouched. */
  lemma ReqStoreAliasing(m: ReqMem, v: Byte)
    ensures LoadSlotIdx(StoreQty(m, v)) == v
    ensures LoadReqSlot(StoreQty(m, v)) == LoadReqSlot(m).(idx := v)
    ensures LoadQty(StoreSlotIdx(m, v)) == v
    ensures LoadQty(StoreReqSlot(m, LoadReqSlot(m).(idx := v))) == v
  {
  }

  // ---------------------------------------------------------------------------------------
  // Members of cf_cmd_resp.

  datatype RespSlot = RespSlot(hour: Byte, min: Byte, qty: Byte, enable: Byte)

  /** resp.type */
  function LoadRespType(m: seq<Byte>): (t: Byte)
    requires |m| > TypeOffset
  {
    m[TypeOffset]
  }

  function StoreRespType(m: RespMem, t: Byte): (r: RespMem)
    ensures LoadRespType(r) == t
    ensures forall i | 0 <= i < RespSize && i != 0 :: r[i] == m[i]
  {
    m[TypeOffset := t]
  }

  /** resp.cmd.cal_value, as bytes. */
  function LoadCalValue(m: seq<Byte>): (v: Bytes4)
    requires |m| >= CmdOffset + CalValueSize
  {
    m[CmdOffset..CmdOffset + CalValueSize]
  }

  function StoreCalValue(m: RespMem, v: Bytes4): (r: RespMem)
    ensures LoadCalValue(r) == v
    ensures r[0] == m[0]
  {
    m[..CmdOffset] + v
  }

  /** resp.cmd.slot_count */
  function LoadSlotCount(m: seq<Byte>): (n: Byte)
    requires |m| > CmdOffset
  {
    m[CmdOffset]
  }

  function StoreSlotCount(m: RespMem, n: Byte): (r: RespMem)
    ensures LoadSlotCount(r) == n
    ensures forall i | 0 <= i < RespSize && i != 1 :: r[i] == m[i]
  {
    m[CmdOffset := n]
  }

  /** resp.cmd.slot */
  function LoadRespSlot(m: seq<Byte>): (s: RespSlot)
    requires |m| >= CmdOffset + RespSlotSize
    ensures [s.hour, s.min, s.qty, s.enable] == m[1..5]
    ensures s.hour == LoadSlotCount(m)
  {
    RespSlot(m[CmdOffset], m[CmdOffset + 1], m[CmdOffset + 2], m[CmdOffset + 3])
  }

  function StoreRespSlot(m: RespMem, s: RespSlot): (r: RespMem)
    ensures LoadRespSlot(r) == s
    ensures r[0] == m[0]
  {
    m[CmdOffset := s.hour][CmdOffset + 1 := s.min][CmdOffset + 2 := s.qty][CmdOffset + 3 := s.enable]
  }

  /** slot_count and slot.hour share byte 1; cal_value covers bytes 1..4, exactly the four
      bytes of the slot. */
  lemma RespUnionAliasing(m: RespMem)
    ensures LoadSlotCount(m) == m[1] && LoadRespSlot(m).hour == m[1]
    ensures LoadCalValue(m) == m[1..5]
    ensures var s := LoadRespSlot(m); LoadCalValue(m) == [s.hour, s.min, s.qty, s.enable]
  {
  }

  // ---------------------------------------------------------------------------------------
  // Typed requests and responses. The header does not say which union member each command
  // uses; the pairing below follows the member names and the host, which sends a force feed
  // with its quantity in the union's first byte.

  datatype Request =
    | ErrorReq
    | ForceFeedReq(qty: Byte)
    | CalValueGetReq
    | SlotGetCountReq
    | SlotGetReq(slotidx: Byte)
    | SlotSetReq(slot: ReqSlot)
    | SlotFeedReq(slotidx: Byte)
  {
    /** The command a request is sent as. Its union member is exactly as large as the
        payload the constructor carries. */
    function Kind(): (k: CommandType)
      ensures ReqArgSize(k) == 0 <==> ErrorReq? || CalValueGetReq? || SlotGetCountReq?
      ensures ReqArgSize(k) == 1 <==> ForceFeedReq? || SlotGetReq? || SlotFeedReq?
      ensures ReqArgSize(k) == ReqSlotSize <==> SlotSetReq?
    {
      match this
      case ErrorReq => CdError
      case ForceFeedReq(_) => MiscForceFeed
      case CalValueGetReq => CalValueGet
      case SlotGetCountReq => SlotGetCount
      case SlotGetReq(_) => SlotGet
      case SlotSetReq(_) => SlotSet
      case SlotFeedReq(_) => SlotFeed
    }
  }

  datatype Response =
    | ErrorResp
    | ForceFeedResp
    | CalValueResp(calValue: Bytes4)
    | SlotCountResp(slotCount: Byte)
    | SlotGetResp(slot: RespSlot)
    | SlotSetResp
    | SlotFeedResp
  {
    /** The command a response answers. Its union member is exactly as large as the
        payload the constructor carries. */
    function Kind(): (k: CommandType)
      ensures RespArgSize(k) == 0 <==> !(CalValueResp? || SlotCountResp? || SlotGetResp?)
      ensures RespArgSize(k) == CalValueSize <==> CalValueResp? || SlotGetResp?
      ensures RespArgSize(k) == 1 <==> SlotCountResp?
    {
      match this
      case ErrorResp => CdError
      case ForceFeedResp => MiscForceFeed
      case CalValueResp(_) => CalValueGet
      case SlotCountResp(_) => SlotGetCount
      case SlotGetResp(_) => SlotGet
      case SlotSetResp => SlotSet
      case SlotFeedResp => SlotFeed
    }
  }

  datatype DecodeError = TooShort | UnknownTag(tag: Byte)

  datatype Result<T> = Ok(value: T) | Err(error: DecodeError)

  /** Bytes a request of kind c carries after the type byte: the size of its union member. */
  function ReqArgSize(c: CommandType): (n: nat)
    ensures n <= ReqUnionSize
    ensures n == 0 <==> c in {CdError, CalValueGet, SlotGetCount}
  {
    match c
    case MiscForceFeed => 1
    case SlotGet => 1
    case SlotFeed => 1
    case SlotSet => ReqSlotSize
    case _ => 0
  }

  /** Bytes a response of kind c carries after the type byte. */
  function RespArgSize(c: CommandType): (n: nat)
    ensures n <= RespUnionSize
    ensures n == 0 <==> c !in {CalValueGet, SlotGetCount, SlotGet}
  {
    match c
    case CalValueGet => CalValueSize
    case SlotGetCount => 1
    case SlotGet => RespSlotSize
    case _ => 0
  }

  /** Fills in the request struct `mem` as a sender does: the type field, then the member the
      kind uses. Bytes past that member are not written and keep whatever `mem` held. */
  function EncodeReq(r: Request, mem: ReqMem): (e: ReqMem)
    ensures |e| == 6 && e[0] == Tag(r.Kind())
    ensures r.ForceFeedReq? ==> e[1] == r.qty
    ensures r.SlotGetReq? || r.SlotFeedReq? ==> e[1] == r.slotidx
    ensures r.SlotSetReq? ==>
      e[1..] == [r.slot.idx, r.slot.hour, r.slot.min, r.slot.qty, r.slot.enable]
    ensures e[TypeSize + ReqArgSize(r.Kind())..] == mem[TypeSize + ReqArgSize(r.Kind())..]
  {
    var m := StoreReqType(mem, Tag(r.Kind()));
    match r
    case ForceFeedReq(q) => StoreQty(m, q)
    case SlotGetReq(i) => StoreSlotIdx(m, i)
    case SlotFeedReq(i) => StoreSlotIdx(m, i)
    case SlotSetReq(s) => StoreReqSlot(m, s)
    case _ => m
  }

  /** Reads a received request datagram: the type byte, then the member that kind uses.
      Bytes past the member are ignored. */
  function DecodeReq(b: seq<Byte>): (r: Result<Request>)
    ensures r == Err(TooShort) <==>
      |b| == 0 || (b[0] < CommandCount && |b| < TypeSize + ReqArgSize(DeclaredOrder[b[0]]))
    ensures r.Err? && r.error.UnknownTag? <==> |b| > 0 && b[0] >= CommandCount
    ensures r.Err? && r.error.UnknownTag? ==> r.error.tag == b[0]
    ensures r.Ok? ==> b[0] == Tag(r.value.Kind()) && |b| >= TypeSize + ReqArgSize(r.value.Kind())
  {
    if |b| == 0 then Err(TooShort)
    else match CommandOf(LoadReqType(b))
      case None => Err(UnknownTag(b[0]))
      case Some(c) =>
        if |b| < TypeSize + ReqArgSize(c) then Err(TooShort)
        else Ok(match c
          case CdError => ErrorReq
          case MiscForceFeed => ForceFeedReq(LoadQty(b))
          case CalValueGet => CalValueGetReq
          case SlotGetCount => SlotGetCountReq
          case SlotGet => SlotGetReq(LoadSlotIdx(b))
          case SlotSet => SlotSetReq(LoadReqSlot(b))
          case SlotFeed => SlotFeedReq(LoadSlotIdx(b)))
  }

  /** Decoding an encoded request gives it back, whatever the struct held before. */
  lemma ReqRoundTrip(r: Request, mem: ReqMem)
    ensures DecodeReq(EncodeReq(r, mem)) == Ok(r)
  {
  }

  /** Storing a decoded request over memory that holds the bytes it came from changes
      nothing: every byte a decoder reads is a byte the encoder writes, and back. */
  lemma ReqReEncode(b: seq<Byte>, mem: ReqMem)
    requires DecodeReq(b).Ok?
    requires forall i | 0 <= i < |b| && i < ReqSize :: mem[i] == b[i]
    ensures EncodeReq(DecodeReq(b).value, mem) == mem
  {
  }

  /** Fills in the response struct `mem`: the type field, then the member the kind uses. */
  function EncodeResp(r: Response, mem: RespMem): (e: RespMem)
    ensures |e| == 5 && e[0] == Tag(r.Kind())
    ensures r.CalValueResp? ==> e[1..] == r.calValue
    ensures r.SlotCountResp? ==> e[1] == r.slotCount
    ensures r.SlotGetResp? ==> e[1..] == [r.slot.hour, r.slot.min, r.slot.qty, r.slot.enable]
    ensures e[TypeSize + RespArgSize(r.Kind())..] == mem[TypeSize + RespArgSize(r.Kind())..]
  {
    var m := StoreRespType(mem, Tag(r.Kind()));
    match r
    case CalValueResp(v) => StoreCalValue(m, v)
    case SlotCountResp(n) => StoreSlotCount(m, n)
    case SlotGetResp(s) => StoreRespSlot(m, s)
    case _ => m
  }

  /** Reads a received response datagram. */
  function DecodeResp(b: seq<Byte>): (r: Result<Response>)
    ensures r == Err(TooShort) <==>
      |b| == 0 || (b[0] < CommandCount && |b| < TypeSize + RespArgSize(DeclaredOrder[b[0]]))
    ensures r.Err? && r.error.UnknownTag? <==> |b| > 0 && b[0] >= CommandCount
    ensures r.Err? && r.error.UnknownTag? ==> r.error.tag == b[0]
    ensures r.Ok? ==> b[0] == Tag(r.value.Kind()) && |b| >= TypeSize + RespArgSize(r.value.Kind())
  {
    if |b| == 0 then Err(TooShort)
    else match CommandOf(LoadRespType(b))
      case None => Err(UnknownTag(b[0]))
      case Some(c) =>
        if |b| < TypeSize + RespArgSize(c) then Err(TooShort)
        else Ok(match c
          case CdError => ErrorResp
          case MiscForceFeed => ForceFeedResp
          case CalValueGet => CalValueResp(LoadCalValue(b))
          case SlotGetCount => SlotCountResp(LoadSlotCount(b))
          case SlotGet => SlotGetResp(LoadRespSlot(b))
          case SlotSet => SlotSetResp
          case SlotFeed => SlotFeedResp)
  }

  lemma RespRoundTrip(r: Response, mem: RespMem)
    ensures DecodeResp(EncodeResp(r, mem)) == Ok(r)
  {
    if r.CalValueResp? {
      var e := EncodeResp(r, mem);
      assert LoadCalValue(e) == e[1..] == r.calValue;
    }
  }

  lemma RespReEncode(b: seq<Byte>, mem: RespMem)
    requires DecodeResp(b).Ok?
    requires forall i | 0 <= i < |b| && i < RespSize :: mem[i] == b[i]
    ensures EncodeResp(DecodeResp(b).value, mem) == mem
  {
  }
}

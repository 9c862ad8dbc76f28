# Catfeeder wire codec and force-feed send path, in Dafny

The catfeeder is a cat feeder on an Arduino that a Raspberry Pi host controls over an
nRF24 radio link. Both sides share one header, `catfeeder_com.h`. It defines the command
enumeration `cf_command_type` and two packed structs:
- `cf_cmd_req`: a type byte, then a union of `qty`, `slotidx` and a five-byte slot;
- `cf_cmd_resp`: a type byte, then a union of `cal_value`, `slot_count` and a four-byte slot.

The host program `catfeeder.cpp` can send one force-feed request. It fills in the type and
quantity of a request struct, stops listening, writes the struct, and starts listening
again.

The project has three modules:

- `CatfeederCom` (`catfeeder_com.dfy`) models the header.
  - The command enumeration is a datatype, and `Tag` gives each command its C value.
  - Each struct is modelled as its raw bytes (`ReqMem`, 6 bytes; `RespMem`, 5 bytes).
    Every C member has one load and one store function over those bytes, at the member's
    packed offset. So union members share bytes exactly as they do in C. A load is just
    the C member read at its offset. Its laws are stated elsewhere: the matching store
    reads it back and leaves the other bytes alone; `ReqUnionAliasing`,
    `ReqStoreAliasing` and `RespUnionAliasing` give the overlaps; and `EncodeReq` /
    `EncodeResp` give each field's byte position.
  - The typed `Request` and `Response` datatypes have one constructor per command kind.
  - `EncodeReq` / `EncodeResp` store a typed value over the struct's previous contents
    (bytes the kind does not use keep their old value). `DecodeReq` / `DecodeResp` read
    the type byte, then the member that kind uses. They reject an empty or too-short
    datagram (`TooShort`) and a type byte outside the enumeration (`UnknownTag`).
  - The two pipe addresses are constants.
- `Rf24` (`rf24.dfy`) is an abstract model of the radio driver calls the host makes. The
  `Radio` class has a `listening` flag and a `trace` of every call made on it, and each
  write records whether the radio was listening. `Transmitted` extracts the datagrams
  sent from a trace. `ListeningAfter` gives the flag a trace leads to, folding the
  one-call update `Step` over it. The class invariant
  says the flag always equals `ListeningAfter` of the trace.
- `Host` (`host.dfy`) models `rf24_send_force_feed` as a method over a `Radio`, and the
  feed-option guard at the end of `main`.

Decisions the source leaves open:
- The header does not say which union member each command uses. The model pairs them by
  the members' names, and with the host's own use: a force feed carries its quantity in
  the union's first byte. The pairing is: force feed uses `qty`; slot get and slot feed
  use `slotidx`; slot set uses `slot`. Calibration reads use `cal_value`, slot-count
  reads use `slot_count`, and slot reads use the response `slot`. Every other kind has no
  payload.
- A decoder accepts any datagram at least as long as the type byte plus the kind's
  member. Extra bytes are ignored. The radio uses dynamic payload lengths, so a short
  reply is possible.
- `catfeeder.cpp` line 68 assigns `req.cmd.force_feed.byte`, a member the header does not
  declare. The header's first union member is `cmd.qty`, so the model writes the quantity
  there, at byte 1. That is also where every one-byte member lives.
- The request struct in `rf24_send_force_feed` is an uninitialised local, and only bytes
  0 and 1 are written. So bytes 2..5 of the transmitted datagram are leftover stack
  contents. The model takes them as a parameter (`stale`) and promises nothing about them
  except that they go out unchanged.
- `main` passes `args_info.feed_arg` to a `uint8_t` parameter. Its declared type is in
  `cmdline.h`, which is not part of this model. The model treats it as a C `int` and
  converts it modulo 256, which changes nothing if it is already a byte.
- `cal_value` is a float. The model treats it as four opaque bytes.

## Model

| member | source | states |
|---|---|---|
| CatfeederCom.Tag | arduino/catfeeder/catfeeder_com.h:12-20 | each command's tag is below 7 and is its position in the declared order, so CD_ERROR is 0 and the rest count up to CF_SLOT_FEED = 6 |
| CatfeederCom.CommandOf | arduino/catfeeder/catfeeder_com.h:12-20 | a byte names a command exactly when it is below 7, and then that command's tag is the byte |
| CatfeederCom.TagRoundTrip | arduino/catfeeder/catfeeder_com.h:12-20 | mapping a command to its tag and back gives the same command |
| CatfeederCom.TagInjective | arduino/catfeeder/catfeeder_com.h:12-20 | two commands have the same tag only if they are the same command |
| CatfeederCom.ReqArgSize | arduino/catfeeder/catfeeder_com.h:26-36 | every request member fits in the union (at most 5 bytes); only the error, calibration and slot-count requests carry no payload |
| CatfeederCom.RespArgSize | arduino/catfeeder/catfeeder_com.h:43-52 | every response member fits in the 4-byte union; only calibration, slot-count and slot replies carry a payload |
| CatfeederCom.StoreReqType | raspi/catfeeder.cpp:67 | assigning req.type writes byte 0, which then reads back as the value assigned, and leaves bytes 1..5 unchanged |
| CatfeederCom.StoreQty | raspi/catfeeder.cpp:68 | assigning the quantity writes byte 1, which then reads back as qty, and leaves bytes 0 and 2..5 unchanged |
| CatfeederCom.LoadSlotIdx | arduino/catfeeder/catfeeder_com.h:28 | cmd.slotidx is byte 1, the same byte as cmd.qty |
| CatfeederCom.StoreSlotIdx | arduino/catfeeder/catfeeder_com.h:28 | assigning cmd.slotidx writes byte 1, which then reads back as the index, and leaves every other byte unchanged |
| CatfeederCom.StoreReqSlot | arduino/catfeeder/catfeeder_com.h:29-35 | assigning cmd.slot makes it read back as the slot stored, and leaves the type byte unchanged |
| CatfeederCom.StoreRespType | arduino/catfeeder/catfeeder_com.h:42 | assigning resp.type writes byte 0, which then reads back as the value assigned, and leaves bytes 1..4 unchanged |
| CatfeederCom.StoreCalValue | arduino/catfeeder/catfeeder_com.h:44 | assigning cal_value makes its four bytes read back unchanged, and leaves the type byte unchanged |
| CatfeederCom.StoreSlotCount | arduino/catfeeder/catfeeder_com.h:45 | assigning cmd.slot_count writes byte 1, which then reads back as the count, and leaves every other byte unchanged |
| CatfeederCom.LoadRespSlot | arduino/catfeeder/catfeeder_com.h:46-51 | cmd.slot's hour, min, qty, enable are bytes 1..4 in that order, and hour is the same byte as slot_count |
| CatfeederCom.StoreRespSlot | arduino/catfeeder/catfeeder_com.h:46-51 | assigning cmd.slot makes it read back as the slot stored, and leaves the type byte unchanged |
| CatfeederCom.Request.Kind | arduino/catfeeder/catfeeder_com.h:12-37 | each request is sent as the command whose union member matches its payload: no bytes for error, calibration and slot-count requests; one byte for force feed, slot get and slot feed; five bytes for slot set |
| CatfeederCom.Response.Kind | arduino/catfeeder/catfeeder_com.h:12-53 | each response answers the command whose union member matches its payload: four bytes for calibration and slot replies, one byte for slot count, none otherwise |
| CatfeederCom.ReqUnionAliasing | arduino/catfeeder/catfeeder_com.h:26-30 | the request's qty, slotidx and slot.idx all read byte 1 |
| CatfeederCom.ReqStoreAliasing | arduino/catfeeder/catfeeder_com.h:26-35 | a byte written through qty reads back through slotidx and slot.idx, and the other slot fields are untouched; writes through slotidx and slot.idx read back through qty |
| CatfeederCom.RespUnionAliasing | arduino/catfeeder/catfeeder_com.h:43-51 | the response's slot_count and slot.hour both read byte 1; cal_value is bytes 1..4, the same four bytes as hour, min, qty, enable |
| CatfeederCom.EncodeReq | arduino/catfeeder/catfeeder_com.h:4-37 | an encoded request is 6 bytes with the tag at byte 0; a force feed puts qty at byte 1; a slot get or slot feed puts slotidx at byte 1; a slot set puts idx, hour, min, qty, enable at bytes 1..5; bytes the kind does not use keep their previous contents |
| CatfeederCom.DecodeReq | arduino/catfeeder/catfeeder_com.h:24-37 | the result is TooShort exactly when the datagram is empty or shorter than its kind needs; it is UnknownTag, carrying the tag, exactly when byte 0 is 7 or more; a decoded request's kind has byte 0 as its tag |
| CatfeederCom.ReqRoundTrip | arduino/catfeeder/catfeeder_com.h:24-37 | decoding an encoded request gives back the same request, whatever the struct held before |
| CatfeederCom.ReqReEncode | arduino/catfeeder/catfeeder_com.h:24-37 | re-encoding a decoded request over memory holding the same bytes leaves that memory unchanged |
| CatfeederCom.EncodeResp | arduino/catfeeder/catfeeder_com.h:4-53 | an encoded response is 5 bytes with the tag at byte 0; cal_value is bytes 1..4 unchanged; slot_count is byte 1; a slot puts hour, min, qty, enable at bytes 1..4; unused bytes keep their previous contents |
| CatfeederCom.DecodeResp | arduino/catfeeder/catfeeder_com.h:41-53 | TooShort exactly when the datagram is empty or shorter than its kind needs; UnknownTag exactly when byte 0 is 7 or more; a decoded response's kind has byte 0 as its tag |
| CatfeederCom.RespRoundTrip | arduino/catfeeder/catfeeder_com.h:41-53 | decoding an encoded response gives back the same response: the slot fields, the slot count and the four cal_value bytes are all preserved |
| CatfeederCom.RespReEncode | arduino/catfeeder/catfeeder_com.h:41-53 | re-encoding a decoded response over memory holding the same bytes leaves that memory unchanged |
| Rf24.Transmitted | raspi/catfeeder.cpp:73 | a trace sends no more datagrams than it has calls, and none if it has no write |
| Rf24.TransmittedAppend | raspi/catfeeder.cpp:72-74 | the datagrams sent by two traces in sequence are those of the first followed by those of the second |
| Rf24.ListeningAfter | raspi/catfeeder.cpp:72-74 | writes alone never change the listening flag |
| Rf24.ListeningAfterAppend | raspi/catfeeder.cpp:72-74 | the flag after two traces is the flag the second trace leads to from where the first one left it |
| Rf24.Radio.constructor | raspi/catfeeder.cpp:44 | a new radio has an empty trace, and its flag is the given one |
| Rf24.Radio.StopListening | raspi/catfeeder.cpp:72 | listening is off afterwards, and the call is appended to the trace |
| Rf24.Radio.StartListening | raspi/catfeeder.cpp:74 | listening is on afterwards, and the call is appended to the trace |
| Rf24.Radio.Write | raspi/catfeeder.cpp:73 | the first len bytes of the buffer are appended as one datagram, tagged with the current listening flag; the flag is unchanged; the reported outcome is left unconstrained, since the link decides it |
| Host.SendForceFeed | raspi/catfeeder.cpp:63-75 | the trace grows by exactly stop-listening, one write of the 6-byte encoded force-feed request with listening off, and start-listening, and nothing else (no read); exactly that one datagram is added to the transmitted ones; listening is on at return; sending only while not listening is preserved |
| Host.ForceFeedEffect | raspi/catfeeder.cpp:63-75 | after one send, exactly one datagram more is transmitted. It is 6 bytes, byte 0 is the CF_MISC_FORCE_FEED tag, byte 1 is qty unchanged, and bytes 2..5 are the stale stack bytes. A feeder decodes it as a force feed of qty. Listening ends on, and no datagram was ever sent while listening if none was before |
| Host.AsUint8 | raspi/catfeeder.cpp:95 | the byte passed on is congruent to the argument modulo 256 and equals it when it is already in 0..255 |
| Host.Run | raspi/catfeeder.cpp:94-96 | a force feed of the converted feed argument is sent exactly once when the feed option was given, and the radio is untouched otherwise; the transmitted count grows by one or by zero accordingly; listening is on after a send |

## Left out

- `rf24_init` (raspi/catfeeder.cpp:46-61) is left out. It configures the radio: payload mode, auto-ack, retries, data rate, power, channel, CRC and pipes. That is driver configuration over the RF24 library, which is not part of this model. The pipe addresses appear only as constants, and the data-rate macro is not modelled.
- Command-line parsing and the check for root rights in `main` (raspi/catfeeder.cpp:80-90) are left out. They are process startup and OS I/O. `Host.Run` starts after them.
- The `printf` of the quantity (raspi/catfeeder.cpp:70) is left out. It is console output.
- The RF24 library's own behaviour is not modelled. The model does not cover radio-level retries, payload-size limits, or the physical delivery of datagrams. A write's success is decided by the link and the peer, so the model leaves it unconstrained. The host ignores it.
- `cal_value` is kept as four bytes. The model does not interpret them as an IEEE-754 float, because floating-point semantics are not modelled.
- The feeder firmware is not part of this model. `DecodeReq` is the decoder it needs, with the kind-to-member pairing described above. The feeder's reply logic and its slot storage are not modelled.
- The web front end (web/index.php) is not modelled. It is HTML and JavaScript UI, HTTP fetches, JSON decoding and float arithmetic, and none of it is part of the wire codec.
- catfeeder.cpp contains no reply polling, timeout, retry or command dispatcher, so the model has none. web/index.php calls an HTTP service on port 5454 (getcal, getslotcount, getslot, settime, feed, slotfeed, setslot). That service is not among the modelled files and is not modelled. Statistics and set-time commands are not in the enumeration, so they are not modelled either.

/**
 Capsules (section 3.2 of RFC 9297) carrying the CONNECT-IP payloads of RFC 9484, and the
 incremental parser that receives them in whatever chunks the transport delivers.

 `Results` and `Rest` read a whole byte stream at once; the class `CapsuleParser` reads it a
 push and a call at a time, and is proved to see the same thing.
 */
module Capsules {
  import opened Wrappers
  import opened Varint

  const CAPSULE_DATAGRAM: nat := 0
  const CAPSULE_ADDRESS_ASSIGN: nat := 1
  const CAPSULE_ADDRESS_REQUEST: nat := 2
  const CAPSULE_ROUTE_ADVERTISEMENT: nat := 3
  const MAX_CAPSULE_BUF: nat := 256 * 1024

  datatype AssignedAddress = AssignedAddress(requestId: nat, ipVersion: byte, address: seq<byte>, prefixLen: byte)

  datatype RouteAdvertisement = RouteAdvertisement(ipVersion: byte, start: seq<byte>, end: seq<byte>, protocol: byte)

  datatype Capsule =
    | AddressAssign(addresses: seq<AssignedAddress>)
    | AddressRequest
    | Datagram(payload: seq<byte>)
    | RouteAdvertisements(routes: seq<RouteAdvertisement>)
    | Unknown(kind: nat, value: seq<byte>)

  datatype CapsuleError = TooShort | BadIpVersion(version: byte)

  type Outcome = Result<Capsule, CapsuleError>

  // ---------------------------------------------------------------- framing

  /** A capsule as it lies on the wire. */
  datatype Frame = Frame(kind: nat, value: seq<byte>) {
    predicate Encodable() {
      kind < VARINT_LIMIT && |value| < VARINT_LIMIT
    }
  }

  function EncodeCapsule(f: Frame): (s: seq<byte>)
    requires f.Encodable()
    ensures |s| == VarintLen(f.kind) + VarintLen(|f.value|) + |f.value|
  {
    EncodeVarint(f.kind) + EncodeVarint(|f.value|) + f.value
  }

  /** The capsule at the head of `buf` and the bytes it takes, once all of them are there. */
  function NextFrame(buf: seq<byte>): (r: Option<(Frame, nat)>)
    ensures r.Some? ==> 2 <= r.value.1 <= |buf|
  {
    match DecodeVarint(buf)
    case None => None
    case Some((kind, n)) =>
      match DecodeVarint(buf[n..])
      case None => None
      case Some((len, m)) =>
        if |buf| - n - m < len then None
        else Some((Frame(kind, buf[n + m..n + m + len]), n + m + len))
  }

  lemma FrameRoundTrip(f: Frame, rest: seq<byte>)
    requires f.Encodable()
    ensures NextFrame(EncodeCapsule(f) + rest) == Some((f, |EncodeCapsule(f)|))
  {
    hide DecodeVarint, EncodeVarint;
    var head, size := EncodeVarint(f.kind), EncodeVarint(|f.value|);
    var s := EncodeCapsule(f) + rest;
    assert s == head + (size + (f.value + rest));
    VarintRoundTrip(f.kind, size + (f.value + rest));
    assert s[|head|..] == size + (f.value + rest);
    VarintRoundTrip(|f.value|, f.value + rest);
    assert s[|head| + |size|..|head| + |size| + |f.value|] == f.value;
  }

  /** A whole capsule reads the same however many bytes have arrived behind it. */
  lemma FramePrefix(buf: seq<byte>, more: seq<byte>)
    requires NextFrame(buf).Some?
    ensures NextFrame(buf + more) == NextFrame(buf)
  {
    hide DecodeVarint;
    var n := DecodeVarint(buf).value.1;
    var (len, m) := DecodeVarint(buf[n..]).value;
    VarintPrefix(buf, more);
    VarintPrefix(buf[n..], more);
    assert (buf + more)[n..] == buf[n..] + more;
    assert (buf + more)[n + m..n + m + len] == buf[n + m..n + m + len];
  }

  // ---------------------------------------------------------------- capsule values

  function AddressLength(version: byte): nat {
    match version
    case 4 => 4
    case 6 => 16
    case _ => 0
  }

  /** One assigned address at the head of `v` and the bytes it takes. */
  function OneAddress(v: seq<byte>): (r: Result<(AssignedAddress, nat), CapsuleError>)
    ensures r.Ok? ==> 0 < r.value.1 <= |v|
  {
    match DecodeVarint(v)
    case None => Err(TooShort)
    case Some((id, n)) =>
      if n >= |v| then Err(TooShort)
      else
        var len := AddressLength(v[n]);
        if len == 0 then Err(BadIpVersion(v[n]))
        else if n + 1 + len + 1 > |v| then Err(TooShort)
        else Ok((AssignedAddress(id, v[n], v[n + 1..n + 1 + len], v[n + 1 + len]), n + 1 + len + 1))
  }

  function OneRoute(v: seq<byte>): (r: Result<(RouteAdvertisement, nat), CapsuleError>)
    ensures r.Ok? ==> 0 < r.value.1 <= |v|
  {
    if v == [] then Err(TooShort)
    else
      var len := AddressLength(v[0]);
      if len == 0 then Err(BadIpVersion(v[0]))
      else if 1 + 2 * len + 1 > |v| then Err(TooShort)
      else Ok((RouteAdvertisement(v[0], v[1..1 + len], v[1 + len..1 + 2 * len], v[1 + 2 * len]), 1 + 2 * len + 1))
  }

  function Addresses(v: seq<byte>): Result<seq<AssignedAddress>, CapsuleError> {
    if v == [] then Ok([])
    else
      match OneAddress(v)
      case Err(e) => Err(e)
      case Ok((a, n)) =>
        Prepend([a], Addresses(v[n..]))
  }

  function Routes(v: seq<byte>): Result<seq<RouteAdvertisement>, CapsuleError> {
    if v == [] then Ok([])
    else
      match OneRoute(v)
      case Err(e) => Err(e)
      case Ok((a, n)) =>
        Prepend([a], Routes(v[n..]))
  }

  function Prepend<T>(done: seq<T>, r: Result<seq<T>, CapsuleError>): Result<seq<T>, CapsuleError> {
    match r
    case Err(e) => Err(e)
    case Ok(others) => Ok(done + others)
  }

  method ParseAddressAssign(value: seq<byte>) returns (r: Result<seq<AssignedAddress>, CapsuleError>)
    ensures r == Addresses(value)
  {
    var off, out := 0, [];
    assert value[0..] == value;
    PrependNothing(Addresses(value));
    while off < |value|
      invariant 0 <= off <= |value|
      invariant Addresses(value) == Prepend(out, Addresses(value[off..]))
    {
      var one := OneAddress(value[off..]);
      if one.Err? {
        return Err(one.error);
      }
      var (a, n) := one.value;
      assert value[off..][n..] == value[off + n..];
      AppendOne(out, a, Addresses(value[off + n..]));
      off, out := off + n, out + [a];
    }
    assert value[off..] == [] && out + [] == out;
    return Ok(out);
  }

  method ParseRouteAdvertisement(value: seq<byte>) returns (r: Result<seq<RouteAdvertisement>, CapsuleError>)
    ensures r == Routes(value)
  {
    var off, out := 0, [];
    assert value[0..] == value;
    PrependNothing(Routes(value));
    while off < |value|
      invariant 0 <= off <= |value|
      invariant Routes(value) == Prepend(out, Routes(value[off..]))
    {
      var one := OneRoute(value[off..]);
      if one.Err? {
        return Err(one.error);
      }
      var (a, n) := one.value;
      assert value[off..][n..] == value[off + n..];
      AppendOne(out, a, Routes(value[off + n..]));
      off, out := off + n, out + [a];
    }
    assert value[off..] == [] && out + [] == out;
    return Ok(out);
  }

  lemma PrependNothing<T>(r: Result<seq<T>, CapsuleError>)
    ensures Prepend([], r) == r
  {
    if r.Ok? {
      assert [] + r.value == r.value;
    }
  }

  lemma AppendOne<T>(done: seq<T>, a: T, r: Result<seq<T>, CapsuleError>)
    ensures Prepend(done, Prepend([a], r)) == Prepend(done + [a], r)
  {
    if r.Ok? {
      assert done + ([a] + r.value) == (done + [a]) + r.value;
    }
  }

  /** Section 4.7.1 of RFC 9484, field by field. */
  function EncodeAddress(a: AssignedAddress): seq<byte>
    requires WellFormedAddress(a)
  {
    EncodeVarint(a.requestId) + [a.ipVersion] + a.address + [a.prefixLen]
  }

  predicate WellFormedAddress(a: AssignedAddress) {
    a.requestId < VARINT_LIMIT && AddressLength(a.ipVersion) > 0 && |a.address| == AddressLength(a.ipVersion)
  }

  function EncodeAddresses(list: seq<AssignedAddress>): seq<byte>
    requires forall i :: 0 <= i < |list| ==> WellFormedAddress(list[i])
  {
    if list == [] then [] else EncodeAddress(list[0]) + EncodeAddresses(list[1..])
  }

  lemma AddressRoundTrip(a: AssignedAddress, rest: seq<byte>)
    requires WellFormedAddress(a)
    ensures OneAddress(EncodeAddress(a) + rest) == Ok((a, |EncodeAddress(a)|))
  {
    hide EncodeVarint, DecodeVarint;
    var id, tail := EncodeVarint(a.requestId), [a.ipVersion] + a.address + [a.prefixLen] + rest;
    var v, n, len := EncodeAddress(a) + rest, |id|, |a.address|;
    assert v == id + tail;
    VarintRoundTrip(a.requestId, tail);
    assert v[n] == a.ipVersion && v[n + 1 + len] == a.prefixLen;
    assert v[n + 1..n + 1 + len] == a.address;
  }

  lemma {:induction false} AddressesRoundTrip(list: seq<AssignedAddress>)
    requires forall i :: 0 <= i < |list| ==> WellFormedAddress(list[i])
    ensures Addresses(EncodeAddresses(list)) == Ok(list)
  {
    hide OneAddress, EncodeAddress;
    if list != [] {
      var one, rest := EncodeAddress(list[0]), EncodeAddresses(list[1..]);
      AddressRoundTrip(list[0], rest);
      assert (one + rest)[|one|..] == rest;
      AddressesRoundTrip(list[1..]);
      assert [list[0]] + list[1..] == list;
    }
  }

  /** Section 4.7.3 of RFC 9484, field by field. */
  function EncodeRoutes(list: seq<RouteAdvertisement>): seq<byte> {
    if list == [] then []
    else [list[0].ipVersion] + list[0].start + list[0].end + [list[0].protocol] + EncodeRoutes(list[1..])
  }

  predicate WellFormedRoute(a: RouteAdvertisement) {
    AddressLength(a.ipVersion) > 0 && |a.start| == |a.end| == AddressLength(a.ipVersion)
  }

  lemma {:induction false} RoutesRoundTrip(list: seq<RouteAdvertisement>)
    requires forall i :: 0 <= i < |list| ==> WellFormedRoute(list[i])
    ensures Routes(EncodeRoutes(list)) == Ok(list)
  {
    if list != [] {
      var a, rest, v := list[0], EncodeRoutes(list[1..]), EncodeRoutes(list);
      var n := |a.start|;
      assert WellFormedRoute(a);
      assert v[0] == a.ipVersion && v[1..1 + n] == a.start && v[1 + n..1 + 2 * n] == a.end &&
          v[1 + 2 * n] == a.protocol;
      assert v[1 + 2 * n + 1..] == rest;
      RoutesRoundTrip(list[1..]);
      assert [a] + list[1..] == list;
    }
  }

  function Interpret(f: Frame): Outcome {
    if f.kind == CAPSULE_ADDRESS_ASSIGN then
      match Addresses(f.value) case Ok(list) => Ok(AddressAssign(list)) case Err(e) => Err(e)
    else if f.kind == CAPSULE_ADDRESS_REQUEST then Ok(AddressRequest)
    else if f.kind == CAPSULE_ROUTE_ADVERTISEMENT then
      match Routes(f.value) case Ok(list) => Ok(RouteAdvertisements(list)) case Err(e) => Err(e)
    else if f.kind == CAPSULE_DATAGRAM then Ok(Datagram(f.value))
    else Ok(Unknown(f.kind, f.value))
  }

  // ---------------------------------------------------------------- the stream read at once

  /** Every capsule and error a byte stream holds, in order. */
  function Results(stream: seq<byte>): seq<Outcome> {
    match NextFrame(stream)
    case None => []
    case Some((f, n)) => [Interpret(f)] + Results(stream[n..])
  }

  /** What is left of a byte stream once every whole capsule is taken off. */
  function Rest(stream: seq<byte>): (rest: seq<byte>)
    ensures NextFrame(rest).None? && |rest| <= |stream|
  {
    match NextFrame(stream)
    case None => stream
    case Some((f, n)) => Rest(stream[n..])
  }

  /** Bytes that arrive later only add results, and only to what was left over. */
  lemma {:induction false} ResultsAppend(stream: seq<byte>, more: seq<byte>)
    ensures Results(stream + more) == Results(stream) + Results(Rest(stream) + more)
    ensures Rest(stream + more) == Rest(Rest(stream) + more)
    decreases |stream|
  {
    hide NextFrame, Interpret;
    if NextFrame(stream).Some? {
      var (f, n) := NextFrame(stream).value;
      FramePrefix(stream, more);
      assert (stream + more)[n..] == stream[n..] + more;
      ResultsAppend(stream[n..], more);
    }
  }

  // ---------------------------------------------------------------- the incremental parser

  function Pushed(buf: seq<byte>, data: seq<byte>): (r: seq<byte>)
    ensures |buf| <= MAX_CAPSULE_BUF ==> |r| <= MAX_CAPSULE_BUF
  {
    if |buf| + |data| > MAX_CAPSULE_BUF then [] else buf + data
  }

  class CapsuleParser {
    var buf: seq<byte>

    constructor ()
      ensures buf == []
    {
      buf := [];
    }

    method Push(data: seq<byte>)
      modifies this
      ensures buf == Pushed(old(buf), data)
    {
      if |buf| + |data| > MAX_CAPSULE_BUF {
        buf := [];
        return;
      }
      buf := buf + data;
    }

    /** Takes one capsule off the buffer. A malformed one is gone all the same, so framing stays in step. */
    method Next() returns (r: Result<Option<Capsule>, CapsuleError>)
      modifies this
      ensures r == Ok(None) <==> NextFrame(old(buf)).None?
      ensures NextFrame(old(buf)).None? ==> buf == old(buf)
      ensures NextFrame(old(buf)).Some? ==>
                var (f, n) := NextFrame(old(buf)).value;
                && buf == old(buf)[n..] && |buf| < |old(buf)|
                && r == match Interpret(f) case Ok(c) => Ok(Some(c)) case Err(e) => Err(e)
    {
      hide BigEndian, Interpret;
      var head := DecodeVarint(buf);
      if head.None? {
        return Ok(None);
      }
      var (kind, off) := head.value;
      var size := DecodeVarint(buf[off..]);
      if size.None? {
        return Ok(None);
      }
      var len := size.value.0;
      off := off + size.value.1;
      if |buf| - off < len {
        return Ok(None);
      }
      var value := buf[off..off + len];
      buf := buf[off + len..];
      var capsule := Capsule(kind, value);
      return match capsule case Ok(c) => Ok(Some(c)) case Err(e) => Err(e);
    }

    static method Capsule(kind: nat, value: seq<byte>) returns (r: Outcome)
      ensures r == Interpret(Frame(kind, value))
    {
      if kind == CAPSULE_ADDRESS_ASSIGN {
        var list := ParseAddressAssign(value);
        return match list case Ok(l) => Ok(AddressAssign(l)) case Err(e) => Err(e);
      } else if kind == CAPSULE_ADDRESS_REQUEST {
        return Ok(AddressRequest);
      } else if kind == CAPSULE_ROUTE_ADVERTISEMENT {
        var list := ParseRouteAdvertisement(value);
        return match list case Ok(l) => Ok(RouteAdvertisements(l)) case Err(e) => Err(e);
      } else if kind == CAPSULE_DATAGRAM {
        return Ok(Datagram(value));
      }
      return Ok(Unknown(kind, value));
    }
  }

  // ---------------------------------------------------------------- any run of pushes and calls

  datatype Event = Push(data: seq<byte>) | Next

  /** The buffer and everything `Next` has handed out. */
  datatype ParserState = ParserState(buf: seq<byte>, emitted: seq<Outcome>)

  function After(s: ParserState, e: Event): ParserState {
    match e
    case Push(data) => s.(buf := Pushed(s.buf, data))
    case Next =>
      match NextFrame(s.buf)
      case None => s
      case Some((f, n)) => ParserState(s.buf[n..], s.emitted + [Interpret(f)])
  }

  function AfterAll(events: seq<Event>): ParserState {
    if events == [] then ParserState([], []) else After(AfterAll(events[..|events| - 1]), events[|events| - 1])
  }

  /** The bytes pushed, in order. */
  function Stream(events: seq<Event>): seq<byte> {
    if events == [] then []
    else Stream(events[..|events| - 1]) + match events[|events| - 1] case Push(data) => data case Next => []
  }

  predicate NoOverflow(events: seq<Event>) {
    events != [] ==>
      && NoOverflow(events[..|events| - 1])
      && (events[|events| - 1].Push? ==>
            |AfterAll(events[..|events| - 1]).buf| + |events[|events| - 1].data| <= MAX_CAPSULE_BUF)
  }

  lemma {:induction false} BufferBounded(events: seq<Event>)
    ensures |AfterAll(events).buf| <= MAX_CAPSULE_BUF
  {
    if events != [] {
      BufferBounded(events[..|events| - 1]);
    }
  }

  /** What came out and what is still in are those of `stream`. */
  ghost predicate Reads(s: ParserState, stream: seq<byte>) {
    s.emitted + Results(s.buf) == Results(stream) && Rest(s.buf) == Rest(stream)
  }

  lemma PushReads(s: ParserState, stream: seq<byte>, data: seq<byte>)
    requires Reads(s, stream)
    ensures Reads(s.(buf := s.buf + data), stream + data)
  {
    hide Results, Rest;
    ResultsAppend(s.buf, data);
    ResultsAppend(stream, data);
    var late := Results(Rest(stream) + data);
    assert s.emitted + (Results(s.buf) + late) == (s.emitted + Results(s.buf)) + late;
  }

  lemma NextReads(s: ParserState, stream: seq<byte>)
    requires Reads(s, stream)
    ensures Reads(After(s, Next), stream)
  {
    hide NextFrame, Interpret;
    if NextFrame(s.buf).Some? {
      var (f, n) := NextFrame(s.buf).value;
      assert s.emitted + ([Interpret(f)] + Results(s.buf[n..])) == (s.emitted + [Interpret(f)]) + Results(s.buf[n..]);
    }
  }

  /** However a stream is cut and whenever `Next` is called, what came out and what is still in are the stream's. */
  lemma {:induction false} ChunkingIndependence(events: seq<Event>)
    requires NoOverflow(events)
    ensures AfterAll(events).emitted + Results(AfterAll(events).buf) == Results(Stream(events))
    ensures Rest(AfterAll(events).buf) == Rest(Stream(events))
  {
    hide NextFrame, Interpret;
    if events != [] {
      var init, last := events[..|events| - 1], events[|events| - 1];
      ChunkingIndependence(init);
      match last {
        case Push(data) => PushReads(AfterAll(init), Stream(init), data);
        case Next =>
          NextReads(AfterAll(init), Stream(init));
          assert Stream(init) + [] == Stream(init);
      }
    }
  }

  /** Two drained runs over the same bytes have handed out the same capsules and errors and hold the same rest. */
  lemma DrainedRunsAgree(one: seq<Event>, other: seq<Event>)
    requires NoOverflow(one) && NoOverflow(other) && Stream(one) == Stream(other)
    requires NextFrame(AfterAll(one).buf).None? && NextFrame(AfterAll(other).buf).None?
    ensures AfterAll(one) == AfterAll(other)
  {
    hide NextFrame, Interpret;
    ChunkingIndependence(one);
    ChunkingIndependence(other);
    assert AfterAll(one).emitted + [] == AfterAll(one).emitted;
    assert AfterAll(other).emitted + [] == AfterAll(other).emitted;
  }
}

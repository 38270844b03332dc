/**
 * Control-message encoding magic(4) ‖ length(2) ‖ type(1) ‖ payload, the
 * 2-byte length framing of encrypted packets on the TCP stream, and the
 * StreamBuffer that reassembles both from arbitrary read chunks.
 *
 * msgpack is not modelled: it is a Serializer value, and the round-trip
 * property is the predicate RoundTrips.
 */
module MessageFormat {
  import opened Common
  import opened Bytes
  import opened Text
  import opened Exceptions
  import opened Values
  import opened Protocol

  const HEADER_SIZE: nat := 7
  const MAX_MESSAGE_SIZE: nat := 65535
  const LENGTH_SIZE: nat := 2
  const MAX_FRAME_SIZE: nat := 65535

  /** msgpack.packb / msgpack.unpackb; unpacking may fail with a reason. */
  datatype Serializer = Serializer(
    packb: Value -> seq<Byte>,
    unpackb: seq<Byte> -> Result<Value, string>)

  ghost predicate RoundTrips(ser: Serializer) {
    forall v :: ser.unpackb(ser.packb(v)) == Success(v)
  }

  function ProtocolFailure<T>(message: string): Result<T, Error> {
    Failure(Vpn(Raise(Exceptions.Protocol, Some(message))))
  }

  /** The payload pack serializes: the given dict (or {}) with 'version' set to PROTOCOL_VERSION. */
  function VersionedPayload(payload: Option<map<string, Value>>): (m: map<string, Value>)
    ensures "version" in m && m["version"] == Str(PROTOCOL_VERSION)
    ensures payload.Some? ==> forall k :: k in payload.value && k != "version" ==> k in m && m[k] == payload.value[k]
    ensures forall k :: k in m && k != "version" ==> payload.Some? && k in payload.value
  {
    (if payload.Some? then payload.value else map[])["version" := Str(PROTOCOL_VERSION)]
  }

  /** MessageFormat.pack */
  function Pack(ser: Serializer, messageType: MessageType, payload: Option<map<string, Value>> := None)
    : (r: Result<seq<Byte>, Error>)
    ensures var body := ser.packb(Dict(VersionedPayload(payload)));
      (r.Failure? <==> HEADER_SIZE + |body| > MAX_MESSAGE_SIZE) &&
      (r.Failure? ==> r == ProtocolFailure("Message too large: " + NatToString(HEADER_SIZE + |body|) + " bytes")) &&
      (r.Success? ==>
        |r.value| == HEADER_SIZE + |body| <= MAX_MESSAGE_SIZE &&
        r.value[..4] == MAGIC_BYTES &&
        FromBigEndian(r.value[4..6]) == |body| &&
        r.value[6] == messageType.Code() &&
        r.value[HEADER_SIZE..] == body)
  {
    var body := ser.packb(Dict(VersionedPayload(payload)));
    var total := HEADER_SIZE + |body|;
    if total > MAX_MESSAGE_SIZE then ProtocolFailure("Message too large: " + NatToString(total) + " bytes")
    else
      BigEndian16(|body|);
      MessageTypeCodes(messageType);
      var message := MAGIC_BYTES + ToBigEndian(|body|, 2) + [messageType.Code() as Byte] + body;
      assert message[4..6] == ToBigEndian(|body|, 2);
      FromToBigEndian(|body|, 2);
      Success(message)
  }

  /** MessageFormat.unpack: the checks run in this order and the first failing one raises. */
  function Unpack(ser: Serializer, data: seq<Byte>): (r: Result<(MessageType, Value), Error>)
    ensures r.Success? ==>
      |data| >= HEADER_SIZE && data[..4] == MAGIC_BYTES &&
      |data| >= HEADER_SIZE + FromBigEndian(data[4..6]) &&
      r.value.0.Code() == data[6] &&
      ser.unpackb(data[HEADER_SIZE..HEADER_SIZE + FromBigEndian(data[4..6])]) == Success(r.value.1)
    ensures r.Failure? ==> r.error.Vpn? && r.error.exc.cls == Exceptions.Protocol
  {
    if |data| < HEADER_SIZE then
      ProtocolFailure("Message too short: " + NatToString(|data|) + " bytes")
    else if data[..4] != MAGIC_BYTES then
      ProtocolFailure("Invalid magic bytes: " + Hex(data[..4]))
    else
      var messageType := MessageTypeOf(data[6]);
      if messageType.None? then ProtocolFailure("Unknown message type: " + NatToString(data[6]))
      else UnpackBody(ser, data, messageType.value)
  }

  /** The length and payload checks of unpack, once the header's type is known. */
  function UnpackBody(ser: Serializer, data: seq<Byte>, messageType: MessageType)
    : (r: Result<(MessageType, Value), Error>)
    requires |data| >= HEADER_SIZE
    ensures r.Success? ==>
      |data| >= HEADER_SIZE + FromBigEndian(data[4..6]) && r.value.0 == messageType &&
      ser.unpackb(data[HEADER_SIZE..HEADER_SIZE + FromBigEndian(data[4..6])]) == Success(r.value.1)
    ensures r.Failure? ==> r.error.Vpn? && r.error.exc.cls == Exceptions.Protocol
  {
    var expected := HEADER_SIZE + FromBigEndian(data[4..6]);
    if |data| < expected then
      ProtocolFailure("Incomplete message: expected " + NatToString(expected) + ", got " + NatToString(|data|))
    else
      match ser.unpackb(data[HEADER_SIZE..expected])
      case Failure(reason) => ProtocolFailure("Failed to deserialize payload: " + reason)
      case Success(payload) => Success((messageType, payload))
  }

  /** The rejection cases of unpack, each one stated with the checks that precede it. */
  lemma UnpackTooShort(ser: Serializer, data: seq<Byte>)
    requires |data| < HEADER_SIZE
    ensures Unpack(ser, data) == ProtocolFailure("Message too short: " + NatToString(|data|) + " bytes")
  {
  }

  lemma UnpackBadMagic(ser: Serializer, data: seq<Byte>)
    requires |data| >= HEADER_SIZE && data[..4] != MAGIC_BYTES
    ensures Unpack(ser, data) == ProtocolFailure("Invalid magic bytes: " + Hex(data[..4]))
  {
  }

  lemma UnpackUnknownType(ser: Serializer, data: seq<Byte>)
    requires |data| >= HEADER_SIZE && data[..4] == MAGIC_BYTES && MessageTypeOf(data[6]).None?
    ensures Unpack(ser, data) == ProtocolFailure("Unknown message type: " + NatToString(data[6]))
  {
  }

  lemma UnpackIncomplete(ser: Serializer, data: seq<Byte>)
    requires |data| >= HEADER_SIZE && data[..4] == MAGIC_BYTES && MessageTypeOf(data[6]).Some?
    requires |data| < HEADER_SIZE + FromBigEndian(data[4..6])
    ensures Unpack(ser, data) == ProtocolFailure("Incomplete message: expected "
      + NatToString(HEADER_SIZE + FromBigEndian(data[4..6])) + ", got " + NatToString(|data|))
  {
    var t := MessageTypeOf(data[6]).value;
    assert Unpack(ser, data) == UnpackBody(ser, data, t);
  }

  lemma UnpackUndecodable(ser: Serializer, data: seq<Byte>)
    requires |data| >= HEADER_SIZE && data[..4] == MAGIC_BYTES && MessageTypeOf(data[6]).Some?
    requires |data| >= HEADER_SIZE + FromBigEndian(data[4..6])
    requires ser.unpackb(data[HEADER_SIZE..HEADER_SIZE + FromBigEndian(data[4..6])]).Failure?
    ensures Unpack(ser, data) == ProtocolFailure("Failed to deserialize payload: "
      + ser.unpackb(data[HEADER_SIZE..HEADER_SIZE + FromBigEndian(data[4..6])]).error)
  {
  }

  /**
   * What pack writes, unpack reads back: the type and exactly the payload
   * written (with its version stamp), whatever bytes follow on the stream.
   */
  lemma PackUnpack(ser: Serializer, messageType: MessageType, payload: Option<map<string, Value>>, trailing: seq<Byte>)
    requires RoundTrips(ser)
    requires Pack(ser, messageType, payload).Success?
    ensures Unpack(ser, Pack(ser, messageType, payload).value + trailing)
         == Success((messageType, Dict(VersionedPayload(payload))))
  {
    var message := Pack(ser, messageType, payload).value;
    var data := message + trailing;
    var body := ser.packb(Dict(VersionedPayload(payload)));
    assert data[..4] == message[..4];
    assert data[4..6] == message[4..6];
    assert data[6] == message[6];
    MessageTypeCodes(messageType);
    assert data[HEADER_SIZE..HEADER_SIZE + |body|] == body;
  }

  // ---------------------------------------------------------------
  // PacketFramer
  // ---------------------------------------------------------------

  /** PacketFramer.frame */
  function Frame(data: seq<Byte>): (r: Result<seq<Byte>, Error>)
    ensures r.Failure? <==> |data| > MAX_FRAME_SIZE
    ensures r.Failure? ==> r.error == ValueError("Data too large: " + NatToString(|data|) + " bytes")
    ensures r.Success? ==> |r.value| == LENGTH_SIZE + |data| && FromBigEndian(r.value[..2]) == |data| && r.value[2..] == data
  {
    if |data| > MAX_FRAME_SIZE then Failure(ValueError("Data too large: " + NatToString(|data|) + " bytes"))
    else
      BigEndian16(|data|);
      FromToBigEndian(|data|, 2);
      var framed := ToBigEndian(|data|, 2) + data;
      assert framed[..2] == ToBigEndian(|data|, 2);
      Success(framed)
  }

  /**
   * PacketFramer.unframe: the first frame and the rest of the stream, or
   * (None, stream) when the stream does not yet hold a whole frame.
   */
  function Unframe(stream: seq<Byte>): (r: (Option<seq<Byte>>, seq<Byte>))
    ensures r.0.None? <==> |stream| < LENGTH_SIZE || |stream| < LENGTH_SIZE + FromBigEndian(stream[..2])
    ensures r.0.None? ==> r.1 == stream
    ensures r.0.Some? ==> Frame(r.0.value).Success? && stream == Frame(r.0.value).value + r.1
  {
    if |stream| < LENGTH_SIZE then (None, stream)
    else
      var total := LENGTH_SIZE + FromBigEndian(stream[..2]);
      if |stream| < total then (None, stream)
      else
        var frameData := stream[2..total];
        Pow256Values();
        assert |frameData| <= MAX_FRAME_SIZE;
        ToFromBigEndian(stream[..2]);
        assert Frame(frameData).value == stream[..total];
        (Some(frameData), stream[total..])
  }

  /** unframe(frame(d) + rest) == (d, rest) */
  lemma UnframeFrame(data: seq<Byte>, rest: seq<Byte>)
    requires |data| <= MAX_FRAME_SIZE
    ensures Unframe(Frame(data).value + rest) == (Some(data), rest)
  {
    var framed := Frame(data).value;
    var stream := framed + rest;
    assert stream[..2] == framed[..2];
    assert stream[2..2 + |data|] == data;
    assert stream[2 + |data|..] == rest;
  }

  // ---------------------------------------------------------------
  // StreamBuffer
  // ---------------------------------------------------------------

  /** The length of the whole message at the head of a buffer, once it is all there. */
  function MessageExtent(buffer: seq<Byte>): (n: Option<nat>)
    ensures n.Some? ==> HEADER_SIZE <= n.value <= |buffer|
  {
    if |buffer| < HEADER_SIZE then None
    else
      var expected := HEADER_SIZE + FromBigEndian(buffer[4..6]);
      if |buffer| < expected then None else Some(expected)
  }

  class StreamBuffer {
    var buffer: seq<Byte>

    constructor ()
      ensures buffer == []
    {
      buffer := [];
    }

    /** append(data): the bytes go on the end. */
    method Append(data: seq<Byte>)
      modifies this
      ensures buffer == old(buffer) + data
    {
      buffer := buffer + data;
    }

    /**
     * extract_message: nothing happens until a whole message is buffered;
     * then exactly its bytes are removed and unpacked, and an unpack error
     * is raised only after they have been removed.
     */
    method ExtractMessage(ser: Serializer) returns (r: Option<Result<(MessageType, Value), Error>>)
      modifies this
      ensures r.None? <==> MessageExtent(old(buffer)).None?
      ensures r.None? ==> buffer == old(buffer)
      ensures r.Some? ==> var n := MessageExtent(old(buffer)).value;
        buffer == old(buffer)[n..] && r.value == Unpack(ser, old(buffer)[..n])
    {
      var extent := MessageExtent(buffer);
      if extent.None? {
        return None;
      }
      var messageData := buffer[..extent.value];
      buffer := buffer[extent.value..];
      r := Some(Unpack(ser, messageData));
    }

    /** extract_frame: take one whole frame off the front, or leave the buffer as it is. */
    method ExtractFrame() returns (frame: Option<seq<Byte>>)
      modifies this
      ensures frame == Unframe(old(buffer)).0
      ensures buffer == Unframe(old(buffer)).1
      ensures frame.Some? ==> old(buffer) == Frame(frame.value).value + buffer
      ensures frame.None? ==> buffer == old(buffer)
    {
      var (frameData, remaining) := Unframe(buffer);
      if frameData.Some? {
        buffer := remaining;
      }
      frame := frameData;
    }

    /** clear */
    method Clear()
      modifies this
      ensures buffer == []
    {
      buffer := [];
    }
  }

  /** The bytes of a sequence of read chunks, in arrival order. */
  function Concat(chunks: seq<seq<Byte>>): seq<Byte> {
    if chunks == [] then [] else Concat(chunks[..|chunks| - 1]) + chunks[|chunks| - 1]
  }

  /**
   * Two frames sent back to back and read in any chunking come out of a
   * StreamBuffer whole and in order.
   */
  method ReassembleTwoFrames(chunks: seq<seq<Byte>>, a: seq<Byte>, b: seq<Byte>)
    returns (first: Option<seq<Byte>>, second: Option<seq<Byte>>)
    requires |a| <= MAX_FRAME_SIZE && |b| <= MAX_FRAME_SIZE
    requires Concat(chunks) == Frame(a).value + Frame(b).value
    ensures first == Some(a) && second == Some(b)
  {
    var buf := new StreamBuffer();
    var i := 0;
    while i < |chunks|
      invariant 0 <= i <= |chunks|
      invariant buf.buffer == Concat(chunks[..i])
    {
      assert chunks[..i + 1][..i] == chunks[..i];
      buf.Append(chunks[i]);
      i := i + 1;
    }
    assert chunks[..|chunks|] == chunks;
    UnframeFrame(a, Frame(b).value);
    first := buf.ExtractFrame();
    UnframeFrame(b, []);
    assert Frame(b).value + [] == Frame(b).value;
    second := buf.ExtractFrame();
  }
}

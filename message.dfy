/** The wire frame of P2PMessage.cs: a 5-byte little-endian header
    (2-byte message number, 2-byte signed length, 1-byte type) and the payload.
    The length field counts the type byte, so a well-formed frame carries
    `messageLength - 1` payload bytes. */
module Message {
  import opened Wire

  /** Codes of the `P2PNotices` enumeration. */
  const ClientJoinRequest: int := 0
  const ServerGameInformation: int := 1
  const ServerPlayerJoined: int := 2
  const ServerStartGame: int := 3
  const PeerConnect: int := 4
  const PeerGameData: int := 5

  /** Bytes before the payload: number (2), length (2), type (1). */
  const HeaderSize: int := 5

  /** A P2PMessage; `data == None` stands for a null payload array. */
  datatype P2PMessage = P2PMessage(messageNumber: u16, messageLength: i16, messageType: i32, data: Option<seq<byte>>)

  /** `Empty()`: the all-default message, and no other. */
  function Empty(m: P2PMessage): (r: bool)
    ensures r <==> m == P2PMessage(0, 0, 0, None)
  {
    m.messageLength == 0 && m.messageNumber == 0 && m.messageType == 0 && m.data == None
  }

  /** The bytes `Serialize` produces. The type is truncated to its low byte, as `(byte)messageType` does. */
  function Frame(m: P2PMessage): (r: seq<byte>)
    requires m.data.Some?
    ensures |r| == HeaderSize + |m.data.value|
    ensures ReadU16(r, 0) == m.messageNumber && ReadI16(r, 2) == m.messageLength
    ensures r[4] == m.messageType % 0x100 && r[HeaderSize..] == m.data.value
  {
    var r := U16Bytes(m.messageNumber) + I16Bytes(m.messageLength) + [m.messageType % 0x100] + m.data.value;
    assert r[0..2] == U16Bytes(m.messageNumber) && r[2..4] == I16Bytes(m.messageLength);
    r
  }

  /** What the 3-argument `Deserialize` returns: the message (None for null) and `outIndex`.
      Every exception inside the try block (a read past the end, a negative array size,
      a copy past the end) ends in `(None, index)`. */
  function ParseFrame(data: seq<byte>, index: int): (r: (Option<P2PMessage>, int))
    ensures r.0.None? ==> r.1 == index
    ensures r.0.Some? ==> 0 <= index && index + HeaderSize <= r.1 <= |data|
    ensures r.0.Some? ==> r.0.value.data.Some? && |r.0.value.data.value| == r.0.value.messageLength - 1
    ensures r.0.Some? ==> r.1 == index + 4 + r.0.value.messageLength
    ensures r.0.Some? ==> r.0.value.data.value == data[index + HeaderSize .. r.1]
  {
    if index < 0 || |data| < index + HeaderSize then (None, index)
    else
      var length := ReadI16(data, index + 2);
      if length < 1 || |data| < index + 4 + length then (None, index)
      else
        var m := P2PMessage(ReadU16(data, index), length, data[index + 4], Some(data[index + HeaderSize .. index + 4 + length]));
        (Some(m), index + 4 + length)
  }

  /** `Serialize`: fills a fresh array by successive copies. A null payload throws,
      so the payload is required. */
  method Serialize(m: P2PMessage) returns (message: array<byte>)
    requires m.data.Some?
    ensures message[..] == Frame(m)
  {
    var payload := m.data.value;
    message := new byte[HeaderSize + |payload|];
    var buffer := U16Bytes(m.messageNumber);
    CopyTo(buffer, message, 0);
    buffer := I16Bytes(m.messageLength);
    CopyTo(buffer, message, 2);
    message[4] := m.messageType % 0x100;
    buffer := payload;
    CopyTo(buffer, message, HeaderSize);
    assert message[..] == U16Bytes(m.messageNumber) + I16Bytes(m.messageLength) + [m.messageType % 0x100] + payload;
  }

  /** `byte[].CopyTo(dst, at)`: overwrite `dst[at..at + |src|]` with `src`. */
  method CopyTo(src: seq<byte>, dst: array<byte>, at: nat)
    requires at + |src| <= dst.Length
    modifies dst
    ensures dst[..] == old(dst[..at]) + src + old(dst[at + |src|..])
  {
    var i := 0;
    while i < |src|
      invariant 0 <= i <= |src|
      invariant forall k :: 0 <= k < dst.Length ==> dst[k] == if at <= k < at + i then src[k - at] else old(dst[k])
    {
      dst[at + i] := src[i];
      i := i + 1;
    }
    assert dst[..] == old(dst[..at]) + src + old(dst[at + |src|..]);
  }

  /** The 3-argument `Deserialize`, step by step as the try block does it. */
  method Deserialize(data: array<byte>, index: int) returns (message: Option<P2PMessage>, outIndex: int)
    ensures (message, outIndex) == ParseFrame(data[..], index)
  {
    if index < 0 || data.Length < index + 2 {
      return None, index;
    }
    var messageNumber := ReadU16(data[..], index);
    if data.Length < index + 4 {
      return None, index;
    }
    var messageLength: int := ReadI16(data[..], index + 2);
    if data.Length < index + 5 {
      return None, index;
    }
    var messageType := data[index + 4];
    if messageLength - 1 < 0 {
      return None, index;
    }
    var payload := new byte[messageLength - 1];
    if data.Length < index + HeaderSize + (messageLength - 1) {
      return None, index;
    }
    var i := 0;
    while i < messageLength - 1
      invariant 0 <= i <= messageLength - 1
      invariant payload[..i] == data[index + HeaderSize .. index + HeaderSize + i]
    {
      payload[i] := data[index + HeaderSize + i];
      i := i + 1;
    }
    assert payload[..] == payload[..i];
    outIndex := index + 4 + messageLength;
    message := Some(P2PMessage(messageNumber, messageLength, messageType, Some(payload[..])));
  }

  /** The 2-argument overload: the 3-argument form at `index`, `outIndex` dropped. */
  method DeserializeAt(data: array<byte>, index: int) returns (message: Option<P2PMessage>)
    ensures message == ParseFrame(data[..], index).0
  {
    var buf;
    message, buf := Deserialize(data, index);
  }

  /** The 1-argument overload: the 3-argument form at index 0. */
  method DeserializeStart(data: array<byte>) returns (message: Option<P2PMessage>)
    ensures message == ParseFrame(data[..], 0).0
  {
    var buf;
    message, buf := Deserialize(data, 0);
  }

  /** A frame is peeled from anywhere in a buffer, whatever precedes and follows it,
      when its length field is its payload size plus one and its type fits in a byte;
      `outIndex` then points at the first byte after it. */
  lemma {:induction false} FramePeel(m: P2PMessage, prefix: seq<byte>, rest: seq<byte>)
    requires m.data.Some? && m.messageLength == |m.data.value| + 1
    requires 0 <= m.messageType < 0x100
    ensures ParseFrame(prefix + Frame(m) + rest, |prefix|) == (Some(m), |prefix| + |Frame(m)|)
  {
    var f := Frame(m);
    var buf := prefix + f + rest;
    var k := |prefix|;
    assert buf[k .. k + |f|] == f;
    assert buf[k .. k + 2] == f[0..2];
    assert buf[k + 2 .. k + 4] == f[2..4];
    assert ReadU16(buf, k) == ReadU16(f, 0);
    assert ReadI16(buf, k + 2) == ReadI16(f, 2);
    assert buf[k + 4] == f[4];
    assert buf[k + HeaderSize .. k + |f|] == f[HeaderSize..];
  }

  /** `Deserialize(Serialize(m), 0)` recovers every field, and consumes the whole frame. */
  lemma FrameRoundTrip(m: P2PMessage)
    requires m.data.Some? && m.messageLength == |m.data.value| + 1
    requires 0 <= m.messageType < 0x100
    ensures ParseFrame(Frame(m), 0) == (Some(m), |Frame(m)|)
  {
    FramePeel(m, [], []);
    assert [] + Frame(m) + [] == Frame(m);
  }

  /** Consecutive frames in one buffer are peeled one after the other. */
  lemma TwoFramesPeel(m1: P2PMessage, m2: P2PMessage)
    requires m1.data.Some? && m1.messageLength == |m1.data.value| + 1 && 0 <= m1.messageType < 0x100
    requires m2.data.Some? && m2.messageLength == |m2.data.value| + 1 && 0 <= m2.messageType < 0x100
    ensures var buf := Frame(m1) + Frame(m2);
      ParseFrame(buf, 0) == (Some(m1), |Frame(m1)|) &&
      ParseFrame(buf, |Frame(m1)|) == (Some(m2), |buf|)
  {
    FramePeel(m1, [], Frame(m2));
    assert [] + Frame(m1) + Frame(m2) == Frame(m1) + Frame(m2);
    FramePeel(m2, Frame(m1), []);
    assert Frame(m1) + Frame(m2) + [] == Frame(m1) + Frame(m2);
  }

  /** A frame cut anywhere short of its end is rejected, and nothing is consumed. */
  lemma TruncatedFrameRejected(m: P2PMessage, k: nat)
    requires m.data.Some? && m.messageLength == |m.data.value| + 1
    requires k < |Frame(m)|
    ensures ParseFrame(Frame(m)[..k], 0) == (None, 0)
  {
    var f := Frame(m);
    if HeaderSize <= k {
      assert f[..k][2..4] == f[2..4];
      assert ReadI16(f[..k], 2) == ReadI16(f, 2);
    }
  }

  /** Exactly when `Deserialize` fails: a negative index, a buffer too short for the header,
      a length field below 1, or a payload running past the end. */
  lemma ParseFrameFails(data: seq<byte>, index: int)
    ensures ParseFrame(data, index).0.None? <==>
      (index < 0 || |data| < index + HeaderSize ||
       ReadI16(data, index + 2) < 1 || |data| < index + 4 + ReadI16(data, index + 2))
  {
  }

  /** A decoded message always carries a payload array, so it is never `Empty()`. */
  lemma DecodedNeverEmpty(data: seq<byte>, index: int)
    ensures ParseFrame(data, index).0.Some? ==> !Empty(ParseFrame(data, index).0.value)
  {
  }
}

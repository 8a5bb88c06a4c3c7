/** Peer.cs: one remote participant, its record encoding, and the framing done by
    `SendDataToPeer`. The socket, stream, reader and writer are not modelled. */
module Peers {
  import opened Wire
  import opened Message

  /** An `IPEndPoint`: the address bytes (`GetAddressBytes`, 4 for IPv4) and a port,
      which `IPEndPoint` keeps in 0..65535. */
  datatype Endpoint = Endpoint(address: seq<byte>, port: u16)

  class Peer {
    var ip: Endpoint
    var name: Option<string>
    var isConnected: bool
    var isLoggedIn: bool
    var listenPort: int
    var playerNumber: int

    /** `new Peer(ip)`: every other field keeps its C# default. */
    constructor (ip: Endpoint)
      ensures this.ip == ip && name == None
      ensures !isConnected && !isLoggedIn && listenPort == 0 && playerNumber == 0
    {
      this.ip := ip;
      name := None;
      isConnected := false;
      isLoggedIn := false;
      listenPort := 0;
      playerNumber := 0;
    }

    /** `Equals(compare)`: two peers are equal when their player numbers are. */
    predicate Equals(compare: Peer)
      reads this, compare
    {
      compare.playerNumber == playerNumber
    }

    /** `Serialize(encoding)`: appends the truncated name length, the encoded name,
        the address bytes and the 4-byte port. `encoding` stands for `encoding.GetBytes`;
        a null name throws there, so a name is required. */
    method Serialize(encoding: string -> seq<byte>) returns (bytes: seq<byte>)
      requires name.Some?
      ensures bytes == RecordBytes(encoding(name.value), ip.address, ip.port)
    {
      bytes := [];
      var username := encoding(name.value);
      bytes := bytes + [|username| % 0x100];
      bytes := bytes + username;
      bytes := bytes + ip.address;
      bytes := bytes + I32Bytes(ip.port);
    }

    /** The 3-argument `Deserialize`: a cursor walks the buffer; any out-of-range read
        is caught and gives `(null, index)`. */
    static method Deserialize(data: array<byte>, index: int) returns (peer: Peer?, outIndex: int)
      ensures ParseRecord(data[..], index).None? ==> peer == null && outIndex == index
      ensures ParseRecord(data[..], index).Some? ==>
        var r := ParseRecord(data[..], index).value;
        peer != null && fresh(peer) && peer.name == Some(r.name) &&
        peer.ip == Endpoint(r.address, r.port) && outIndex == r.outIndex
    {
      if index < 0 || data.Length <= index {
        return null, index;
      }
      var currentIndex := index;
      var nameLength := data[currentIndex];
      currentIndex := currentIndex + 1;
      if data.Length < currentIndex + nameLength {
        return null, index;
      }
      var name := AsciiString(data[currentIndex .. currentIndex + nameLength]);
      currentIndex := currentIndex + nameLength;
      if data.Length < currentIndex + 4 {
        return null, index;
      }
      var addressBytes := data[currentIndex .. currentIndex + 4];
      currentIndex := currentIndex + 4;
      if data.Length < currentIndex + 2 {
        return null, index;
      }
      var port := ReadU16(data[..], currentIndex);
      currentIndex := currentIndex + 2;
      peer := new Peer(Endpoint(addressBytes, port));
      peer.name := Some(name);
      outIndex := index + currentIndex;
    }

    /** The 2-argument overload: the 3-argument form at `index`, `outIndex` dropped. */
    static method DeserializeAt(data: array<byte>, index: int) returns (peer: Peer?)
      ensures ParseRecord(data[..], index).None? ==> peer == null
      ensures ParseRecord(data[..], index).Some? ==>
        var r := ParseRecord(data[..], index).value;
        peer != null && fresh(peer) && peer.name == Some(r.name) && peer.ip == Endpoint(r.address, r.port)
    {
      var buf;
      peer, buf := Deserialize(data, index);
    }

    /** The 1-argument overload: the 3-argument form at index 0. */
    static method DeserializeStart(data: array<byte>) returns (peer: Peer?)
      ensures ParseRecord(data[..], 0).None? ==> peer == null
      ensures ParseRecord(data[..], 0).Some? ==>
        var r := ParseRecord(data[..], 0).value;
        peer != null && fresh(peer) && peer.name == Some(r.name) && peer.ip == Endpoint(r.address, r.port)
    {
      var buf;
      peer, buf := Deserialize(data, 0);
    }

    /** `SendDataToPeer(type, bytes)`, without the stream write: the bytes that would be written. */
    method SendDataToPeer(messageType: i32, bytes: seq<byte>) returns (sent: array<byte>)
      ensures sent[..] == Frame(DataMessage(messageType, bytes))
    {
      var message := DataMessage(messageType, bytes);
      sent := Message.Serialize(message);
    }
  }

  /** The message `SendDataToPeer` builds: length `(short)(bytes.Length + 1)`, payload `bytes`.
      `messageNumber` is never assigned, so it keeps its default 0. */
  function DataMessage(messageType: i32, bytes: seq<byte>): (m: P2PMessage)
    ensures m.data == Some(bytes) && m.messageType == messageType && m.messageNumber == 0
    ensures |bytes| < 0x7FFF ==> m.messageLength == |bytes| + 1
  {
    P2PMessage(0, ToInt16(|bytes| + 1), messageType, Some(bytes))
  }

  /** The record `Serialize` emits for an encoded name, an address and a port. */
  function RecordBytes(username: seq<byte>, address: seq<byte>, port: u16): (r: seq<byte>)
    ensures |r| == 1 + |username| + |address| + 4
    ensures r[0] == |username| % 0x100
    ensures r[1 .. 1 + |username|] == username
    ensures r[1 + |username| .. 1 + |username| + |address|] == address
    ensures ReadI32(r, 1 + |username| + |address|) == port
  {
    var r := [|username| % 0x100] + username + address + I32Bytes(port);
    assert r[1 + |username| + |address| ..] == I32Bytes(port);
    ReadI32Slice(I32Bytes(port), 0, [|username| % 0x100] + username + address, []);
    assert [|username| % 0x100] + username + address + I32Bytes(port) + [] == r;
    r
  }

  /** `ASCIIEncoding.GetString` of one byte: bytes above 0x7F decode to '?'. */
  function AsciiChar(b: byte): (c: char)
    ensures b < 0x80 ==> c as int == b
    ensures 0x80 <= b ==> c == '?'
  {
    if b < 0x80 then b as char else '?'
  }

  function AsciiString(bytes: seq<byte>): (s: string)
    ensures |s| == |bytes|
    ensures forall i :: 0 <= i < |bytes| ==> s[i] == AsciiChar(bytes[i])
  {
    seq(|bytes|, i requires 0 <= i < |bytes| => AsciiChar(bytes[i]))
  }

  /** `ASCIIEncoding.GetBytes` for a name whose characters are all below 0x80. */
  function AsciiBytes(name: string): (b: seq<byte>)
    requires forall i :: 0 <= i < |name| ==> name[i] as int < 0x80
    ensures |b| == |name| && AsciiString(b) == name
  {
    seq(|name|, i requires 0 <= i < |name| => name[i] as int)
  }

  /** What a successful `Deserialize` yields: name, address bytes, port and `outIndex`. */
  datatype RecordRead = RecordRead(name: string, address: seq<byte>, port: u16, outIndex: int)

  /** The 3-argument `Deserialize` as a function: a length byte, that many ASCII name bytes,
      4 address bytes, a 2-byte port. `outIndex` is `index` plus the final cursor, and the
      cursor started at `index`. */
  function ParseRecord(data: seq<byte>, index: int): (r: Option<RecordRead>)
    ensures r.None? <==> index < 0 || |data| <= index || |data| < index + 1 + data[index] + 4 + 2
    ensures r.Some? ==> 0 <= index < |data| && index + 1 + data[index] + 4 + 2 <= |data|
    ensures r.Some? ==> |r.value.name| == data[index] && |r.value.address| == 4
    ensures r.Some? ==> r.value.outIndex == 2 * index + 1 + data[index] + 4 + 2
  {
    if index < 0 || |data| <= index then None
    else
      var n := data[index];
      var cursor := index + 1;
      if |data| < cursor + n then None
      else
        var name := AsciiString(data[cursor .. cursor + n]);
        var cursor := cursor + n;
        if |data| < cursor + 4 then None
        else
          var address := data[cursor .. cursor + 4];
          var cursor := cursor + 4;
          if |data| < cursor + 2 then None
          else
            var port := ReadU16(data, cursor);
            Some(RecordRead(name, address, port, index + cursor + 2))
  }

  /** Near round trip: an ASCII name shorter than 256 bytes, an IPv4 address and a port come
      back from the record `Serialize` wrote, but `Deserialize` stops 2 bytes before its end,
      because it reads a 2-byte port where a 4-byte one was written. */
  lemma {:induction false} RecordNearRoundTrip(name: string, address: seq<byte>, port: u16)
    requires forall i :: 0 <= i < |name| ==> name[i] as int < 0x80
    requires |name| < 0x100 && |address| == 4
    ensures var bytes := RecordBytes(AsciiBytes(name), address, port);
      ParseRecord(bytes, 0) == Some(RecordRead(name, address, port, |bytes| - 2))
  {
    var u := AsciiBytes(name);
    var bytes := RecordBytes(u, address, port);
    var k := 1 + |u| + 4;
    assert bytes[1 .. 1 + |u|] == u;
    assert bytes[k .. k + 4] == I32Bytes(port);
    PortLowBytes(port);
    assert ReadU16(bytes, k) == ReadU16(I32Bytes(port), 0) by {
      assert bytes[k] == I32Bytes(port)[0] && bytes[k + 1] == I32Bytes(port)[1];
    }
  }

  /** The low two bytes of the 4-byte encoding of a port are the port itself. */
  lemma PortLowBytes(port: u16)
    ensures ReadU16(I32Bytes(port), 0) == port
  {
    var b := I32Bytes(port);
    assert b[0] == port % 0x100 && b[1] == (port / 0x100) % 0x100;
  }

  /** Read anywhere but at the start of a buffer, a record's `outIndex` overshoots its end
      by the start index: it is `2 * index` plus the bytes consumed. */
  lemma {:induction false} RecordOutIndexOvershoots(prefix: seq<byte>, name: string, address: seq<byte>, port: u16, rest: seq<byte>)
    requires forall i :: 0 <= i < |name| ==> name[i] as int < 0x80
    requires |name| < 0x100 && |address| == 4
    ensures var record := RecordBytes(AsciiBytes(name), address, port);
      var r := ParseRecord(prefix + record + rest, |prefix|);
      r.Some? && r.value.name == name && r.value.outIndex == |prefix| + (|prefix| + |record| - 2)
  {
    var u := AsciiBytes(name);
    var record := RecordBytes(u, address, port);
    var buf := prefix + record + rest;
    var k := |prefix|;
    assert buf[k] == record[0] == |u|;
    assert buf[k + 1 .. k + 1 + |u|] == record[1 .. 1 + |u|] == u;
  }

  /** A name of 256 encoded bytes or more has its length byte truncated, so the name read back
      is a different one: with exactly 256 bytes the length byte is 0 and the name read is empty. */
  lemma LongNameTruncated(username: seq<byte>, address: seq<byte>, port: u16)
    requires |username| == 0x100 && |address| == 4
    ensures var r := ParseRecord(RecordBytes(username, address, port), 0);
      r.Some? && r.value.name == "" && r.value.address == username[0..4]
  {
    var bytes := RecordBytes(username, address, port);
    assert bytes[1 .. 1 + |username|] == username;
    assert bytes[1..5] == username[0..4];
  }

  /** A frame built by `SendDataToPeer` with fewer than 32767 payload bytes decodes back to
      exactly that payload and type, consuming the whole frame. */
  lemma SendDataRoundTrip(messageType: i32, bytes: seq<byte>)
    requires 0 <= messageType < 0x100 && |bytes| < 0x7FFF
    ensures ParseFrame(Frame(DataMessage(messageType, bytes)), 0) ==
      (Some(P2PMessage(0, |bytes| + 1, messageType, Some(bytes))), HeaderSize + |bytes|)
  {
    FrameRoundTrip(DataMessage(messageType, bytes));
  }

  /** From 32767 payload bytes up to 65534 the `(short)` cast wraps the length field to a
      negative value, and the receiver rejects the frame. */
  lemma SendDataLengthOverflow(messageType: i32, bytes: seq<byte>)
    requires 0x7FFF <= |bytes| < 0xFFFF
    ensures DataMessage(messageType, bytes).messageLength < 0
    ensures ParseFrame(Frame(DataMessage(messageType, bytes)), 0) == (None, 0)
  {
  }

  /** `Equals` is an equivalence relation on peers. */
  lemma EqualsIsEquivalence(a: Peer, b: Peer, c: Peer)
    ensures a.Equals(a)
    ensures a.Equals(b) == b.Equals(a)
    ensures a.Equals(b) && b.Equals(c) ==> a.Equals(c)
  {
  }
}

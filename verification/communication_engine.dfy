// The framing and bookkeeping half of the communication engine: the
// 20-byte little-endian message header and its parse, the XOR payload
// cipher, the toy compression pair, message validity, the process-wide
// sequence counter and the connection-status guards. What the socket
// calls return, whether a host resolves and the clock are parameters;
// the bytes handed to `send` are kept on a `wire` log.

/** Conversions between bytes and their numeric values. */
module Bytes {
  /** Split into ranges, each small enough for the solver's conversion. */
  lemma ByteOfValue(v: nat)
    requires v < 256
    ensures (v as bv8) as nat == v
  {
    if v < 32 {
    } else if v < 64 {
    } else if v < 96 {
    } else if v < 128 {
    } else if v < 160 {
    } else if v < 192 {
    } else if v < 224 {
    } else {
    }
  }

  lemma ValueOfByte(b: bv8)
    ensures (b as nat) as bv8 == b
  {
  }
}

module Communication {
  import opened Text
  import Bytes
  import ConfigRecords

  type U32 = x: int | 0 <= x < 0x1_0000_0000
  type U64 = x: int | 0 <= x < 0x1_0000_0000_0000_0000
  type Byte = bv8

  const Two32: int := 0x1_0000_0000
  const Two64: int := 0x1_0000_0000_0000_0000

  datatype Protocol = NamedPipes | TcpSockets | UdpDatagrams | HttpProxy | HttpsProxy | CustomProtocol

  datatype MessageType = ScreenData | InputCommand | ControlCommand | Heartbeat
                       | Authentication | EncryptionKey | ErrorMessage | RemoteControl

  datatype ConnectionStatus = Disconnected | Connecting | Connected | Error

  /** The enumerator's underlying value, as `static_cast<uint32_t>` gives it. */
  function TypeCode(t: MessageType): (c: U32)
    ensures c < 8
  {
    match t
    case ScreenData => 0
    case InputCommand => 1
    case ControlCommand => 2
    case Heartbeat => 3
    case Authentication => 4
    case EncryptionKey => 5
    case ErrorMessage => 6
    case RemoteControl => 7
  }

  /** A message keeps its type as the raw enumerator value: the receiver
      casts whatever 32-bit value arrives. */
  datatype Message = Message(msgType: U32, sequenceNumber: U32, dataSize: U32,
                             data: seq<Byte>, timestamp: U64)

  datatype Header = Header(msgType: U32, sequenceNumber: U32, dataSize: U32, timestamp: U64)

  function HeaderOf(m: Message): Header
  {
    Header(m.msgType, m.sequenceNumber, m.dataSize, m.timestamp)
  }

  datatype ConnectionSettings = ConnectionSettings(protocol: Protocol, targetIP: string, targetPort: int,
                                                   pipeName: string, enableEncryption: bool,
                                                   enableCompression: bool, timeoutMs: int,
                                                   retryAttempts: int, enableHeartbeat: bool,
                                                   heartbeatIntervalMs: int)

  /** The member initialisers of ConnectionSettings. */
  function DefaultSettings(): ConnectionSettings
  {
    ConnectionSettings(NamedPipes, "", 0, "MasoudyPipe", true, true, 5000, 3, true, 30000)
  }

  // ---------------------------------------------------------------------
  // Little-endian integers (the host order `memcpy` and `insert` copy)

  function Pow256(n: nat): (p: nat)
    ensures p > 0
  {
    if n == 0 then 1 else 256 * Pow256(n - 1)
  }

  lemma Pow256Widths()
    ensures Pow256(4) == Two32 && Pow256(8) == Two64
  {
  }

  /** The `n` bytes of `x`, least significant first. */
  function LittleEndian(x: nat, n: nat): (bytes: seq<Byte>)
    ensures |bytes| == n
  {
    if n == 0 then [] else [(x % 256) as Byte] + LittleEndian(x / 256, n - 1)
  }

  /** The number whose bytes, least significant first, are `bytes`. */
  function FromLittleEndian(bytes: seq<Byte>): (x: nat)
    ensures x < Pow256(|bytes|)
  {
    if bytes == [] then 0
    else
      var rest := FromLittleEndian(bytes[1..]);
      assert 256 * rest <= 256 * (Pow256(|bytes| - 1) - 1);
      bytes[0] as nat + 256 * rest
  }

  /** Reading back the bytes of a number that fits gives the number. */
  lemma {:induction false} FromLittleEndianOfLittleEndian(x: nat, n: nat)
    requires x < Pow256(n)
    ensures FromLittleEndian(LittleEndian(x, n)) == x
  {
    if n > 0 {
      var q := x / 256;
      assert q < Pow256(n - 1);
      FromLittleEndianOfLittleEndian(q, n - 1);
      var bytes := LittleEndian(x, n);
      assert bytes[1..] == LittleEndian(q, n - 1);
      Bytes.ByteOfValue(x % 256);
    }
  }

  /** The lowest byte and the remaining bytes of a decoded number. */
  lemma LowByte(bytes: seq<Byte>)
    requires bytes != []
    ensures FromLittleEndian(bytes) % 256 == bytes[0] as nat
    ensures FromLittleEndian(bytes) / 256 == FromLittleEndian(bytes[1..])
  {
    assert FromLittleEndian(bytes) == bytes[0] as nat + 256 * FromLittleEndian(bytes[1..]);
  }

  /** Writing back the number read from some bytes gives the bytes. */
  lemma {:induction false} LittleEndianOfFromLittleEndian(bytes: seq<Byte>)
    ensures LittleEndian(FromLittleEndian(bytes), |bytes|) == bytes
  {
    if bytes != [] {
      var x := FromLittleEndian(bytes);
      var rest := FromLittleEndian(bytes[1..]);
      LowByte(bytes);
      assert ((x % 256) as Byte) == bytes[0] by {
        Bytes.ValueOfByte(bytes[0]);
      }
      LittleEndianOfFromLittleEndian(bytes[1..]);
      assert LittleEndian(x, |bytes|) == [bytes[0]] + LittleEndian(rest, |bytes| - 1);
      assert bytes == [bytes[0]] + bytes[1..];
    }
  }

  // ---------------------------------------------------------------------
  // The frame: u32 type, u32 sequence number, u32 data size, u64 timestamp,
  // then the payload

  function SerializeHeader(h: Header): (bytes: seq<Byte>)
    ensures |bytes| == 20
  {
    LittleEndian(h.msgType, 4) + LittleEndian(h.sequenceNumber, 4)
    + LittleEndian(h.dataSize, 4) + LittleEndian(h.timestamp, 8)
  }

  /** The four `memcpy`s out of the 20-byte header buffer. They lose
      nothing: every buffer is the serialisation of the header read from it. */
  function ParseHeader(bytes: seq<Byte>): (h: Header)
    requires |bytes| == 20
    ensures SerializeHeader(h) == bytes
  {
    Pow256Widths();
    LittleEndianOfFromLittleEndian(bytes[0..4]);
    LittleEndianOfFromLittleEndian(bytes[4..8]);
    LittleEndianOfFromLittleEndian(bytes[8..12]);
    LittleEndianOfFromLittleEndian(bytes[12..20]);
    assert bytes == bytes[0..4] + bytes[4..8] + bytes[8..12] + bytes[12..20];
    Header(FromLittleEndian(bytes[0..4]), FromLittleEndian(bytes[4..8]),
           FromLittleEndian(bytes[8..12]), FromLittleEndian(bytes[12..20]))
  }

  function SerializeFrame(m: Message): (frame: seq<Byte>)
    ensures |frame| == 20 + |m.data|
  {
    SerializeHeader(HeaderOf(m)) + m.data
  }

  /** The frame layout: each header field sits at its offset, the payload
      follows, and the frame is 20 bytes longer than the payload. */
  lemma FrameLayout(m: Message)
    ensures var frame := SerializeFrame(m);
      |frame| == 20 + |m.data|
      && FromLittleEndian(frame[0..4]) == m.msgType
      && FromLittleEndian(frame[4..8]) == m.sequenceNumber
      && FromLittleEndian(frame[8..12]) == m.dataSize
      && FromLittleEndian(frame[12..20]) == m.timestamp
      && frame[20..] == m.data
  {
    HeaderRoundTrip(HeaderOf(m));
    var frame := SerializeFrame(m);
    assert frame[..20] == SerializeHeader(HeaderOf(m));
    assert frame[0..4] == frame[..20][0..4] && frame[4..8] == frame[..20][4..8];
    assert frame[8..12] == frame[..20][8..12] && frame[12..20] == frame[..20][12..20];
  }

  /** Parsing a serialised header gives back its four fields. */
  lemma HeaderRoundTrip(h: Header)
    ensures ParseHeader(SerializeHeader(h)) == h
  {
    Pow256Widths();
    var bytes := SerializeHeader(h);
    assert bytes[0..4] == LittleEndian(h.msgType, 4);
    assert bytes[4..8] == LittleEndian(h.sequenceNumber, 4);
    assert bytes[8..12] == LittleEndian(h.dataSize, 4);
    assert bytes[12..20] == LittleEndian(h.timestamp, 8);
    FromLittleEndianOfLittleEndian(h.msgType, 4);
    FromLittleEndianOfLittleEndian(h.sequenceNumber, 4);
    FromLittleEndianOfLittleEndian(h.dataSize, 4);
    FromLittleEndianOfLittleEndian(h.timestamp, 8);
  }

  // ---------------------------------------------------------------------
  // The payload helpers

  const XorKey: Byte := 0x42

  /** Every byte XORed with the fixed key. */
  function Xored(data: seq<Byte>): (r: seq<Byte>)
    ensures |r| == |data|
  {
    seq(|data|, i requires 0 <= i < |data| => data[i] ^ XorKey)
  }

  /** XORing twice restores the payload, and every byte changes. */
  lemma XoredInvolution(data: seq<Byte>)
    ensures Xored(Xored(data)) == data
    ensures forall i :: 0 <= i < |data| ==> Xored(data)[i] != data[i]
  {
    assert forall i :: 0 <= i < |data| ==> Xored(Xored(data))[i] == data[i];
  }

  /** The loop of EncryptMessage over the payload buffer. */
  method XorInPlace(a: array<Byte>)
    modifies a
    ensures a[..] == Xored(old(a[..]))
  {
    var i := 0;
    while i < a.Length
      invariant 0 <= i <= a.Length
      invariant forall k :: 0 <= k < i ==> a[k] == old(a[k]) ^ XorKey
      invariant forall k :: i <= k < a.Length ==> a[k] == old(a[k])
    {
      a[i] := a[i] ^ XorKey;
      i := i + 1;
    }
  }

  /** EncryptMessage: the payload XORed with 0x42, nothing else touched. */
  method EncryptMessage(m: Message) returns (r: Message)
    ensures r == m.(data := Xored(m.data))
  {
    var a := new Byte[|m.data|](i requires 0 <= i < |m.data| => m.data[i]);
    XorInPlace(a);
    r := m.(data := a[..]);
  }

  /** DecryptMessage is EncryptMessage again, so it undoes it. */
  method DecryptMessage(m: Message) returns (r: Message)
    ensures r == m.(data := Xored(m.data))
    ensures Xored(r.data) == m.data
  {
    r := EncryptMessage(m);
    XoredInvolution(m.data);
  }

  /** The bytes at even indices, in order. */
  function EvenIndexed(s: seq<Byte>): (r: seq<Byte>)
    ensures |r| == (|s| + 1) / 2
    ensures forall k :: 0 <= k < |r| ==> r[k] == s[2 * k]
  {
    seq((|s| + 1) / 2, k requires 0 <= k < (|s| + 1) / 2 => s[2 * k])
  }

  /** Every byte written twice. */
  function Doubled(s: seq<Byte>): (r: seq<Byte>)
    ensures |r| == 2 * |s|
    ensures forall k :: 0 <= k < |r| ==> r[k] == s[k / 2]
  {
    seq(2 * |s|, k requires 0 <= k < 2 * |s| => s[k / 2])
  }

  /** CompressMessage: more than 100 payload bytes keep only the even-indexed
      ones, with dataSize the new length cast to 32 bits. */
  function Compressed(m: Message): (r: Message)
    ensures |m.data| <= 100 ==> r == m
    ensures |m.data| > 100 ==> r == m.(data := EvenIndexed(m.data), dataSize := (|m.data| + 1) / 2 % Two32)
  {
    if |m.data| > 100 then
      var c := EvenIndexed(m.data);
      m.(data := c, dataSize := |c| % Two32)
    else m
  }

  /** DecompressMessage: when dataSize is below twice the payload length,
      every byte is doubled and dataSize becomes the new length cast to
      32 bits. */
  function Decompressed(m: Message): (r: Message)
    ensures m.dataSize >= 2 * |m.data| ==> r == m
    ensures m.dataSize < 2 * |m.data| ==> r == m.(data := Doubled(m.data), dataSize := 2 * |m.data| % Two32)
  {
    if m.dataSize < 2 * |m.data| then
      var d := Doubled(m.data);
      m.(data := d, dataSize := |d| % Two32)
    else m
  }

  method CompressMessage(m: Message) returns (r: Message)
    ensures r == Compressed(m)
  {
    r := m;
    if |m.data| > 100 {
      var compressed: seq<Byte> := [];
      var i := 0;
      while i < |m.data|
        invariant 0 <= i <= |m.data| + 1 && i % 2 == 0
        invariant |compressed| == i / 2
        invariant forall k :: 0 <= k < |compressed| ==> compressed[k] == m.data[2 * k]
      {
        compressed := compressed + [m.data[i]];
        i := i + 2;
      }
      assert compressed == EvenIndexed(m.data);
      r := m.(data := compressed, dataSize := |compressed| % Two32);
    }
  }

  method DecompressMessage(m: Message) returns (r: Message)
    ensures r == Decompressed(m)
  {
    r := m;
    if m.dataSize < 2 * |m.data| {
      var decompressed: seq<Byte> := [];
      var i := 0;
      while i < |m.data|
        invariant 0 <= i <= |m.data|
        invariant |decompressed| == 2 * i
        invariant forall k :: 0 <= k < |decompressed| ==> decompressed[k] == m.data[k / 2]
      {
        decompressed := decompressed + [m.data[i]] + [m.data[i]];
        i := i + 1;
      }
      assert decompressed == Doubled(m.data);
      r := m.(data := decompressed, dataSize := |decompressed| % Two32);
    }
  }

  /** Doubling the even-indexed bytes gives back the payload iff its bytes
      come in equal pairs. */
  lemma DoubledEvenIndexed(s: seq<Byte>)
    ensures Doubled(EvenIndexed(s)) == s <==> PairedBytes(s)
  {
    if Doubled(EvenIndexed(s)) == s {
      PairedOfRestored(s);
    }
    if PairedBytes(s) {
      RestoredOfPaired(s);
    }
  }

  /** Even length, and every odd-indexed byte repeats the one before it. */
  predicate PairedBytes(s: seq<Byte>)
  {
    |s| % 2 == 0 && forall k :: 0 <= k < |s| / 2 ==> s[2 * k + 1] == s[2 * k]
  }

  lemma PairedOfRestored(s: seq<Byte>)
    requires Doubled(EvenIndexed(s)) == s
    ensures PairedBytes(s)
  {
    var e := EvenIndexed(s);
    var d := Doubled(e);
    forall k | 0 <= k < |s| / 2 ensures s[2 * k + 1] == s[2 * k] {
      assert (2 * k + 1) / 2 == k;
      assert d[2 * k + 1] == e[k];
    }
  }

  lemma RestoredOfPaired(s: seq<Byte>)
    requires PairedBytes(s)
    ensures Doubled(EvenIndexed(s)) == s
  {
    var e := EvenIndexed(s);
    var d := Doubled(e);
    assert |d| == |s|;
    forall k | 0 <= k < |s| ensures d[k] == s[k] {
      var h := k / 2;
      assert d[k] == e[h];
      if k % 2 == 1 {
        assert k == 2 * h + 1 && h < |s| / 2;
      }
    }
  }

  /** The two are not inverses: a long payload survives compression and
      decompression iff it has even length and each odd-indexed byte
      repeats the one before it. */
  lemma CompressRoundTrip(m: Message)
    requires |m.data| > 100
    ensures Decompressed(Compressed(m)).data == m.data <==> PairedBytes(m.data)
  {
    var c := Compressed(m);
    assert c.dataSize <= |c.data| < 2 * |c.data|;
    assert Decompressed(c).data == Doubled(EvenIndexed(m.data));
    DoubledEvenIndexed(m.data);
  }

  /** ValidateMessage: the size field matches the payload, and both the
      sequence number and the timestamp are positive. */
  function ValidateMessage(m: Message): (valid: bool)
    ensures valid ==> |m.data| < Two32
  {
    m.dataSize == |m.data| && m.sequenceNumber > 0 && m.timestamp > 0
  }

  /** The payload helpers against validity: the cipher and the compression
      keep a valid message valid; decompression keeps it valid iff the
      payload is empty or its doubled length still fits 32 bits. */
  lemma HelpersKeepValid(m: Message)
    requires ValidateMessage(m)
    ensures ValidateMessage(m.(data := Xored(m.data)))
    ensures ValidateMessage(Compressed(m))
    ensures ValidateMessage(Decompressed(m)) <==> m.data == [] || 2 * |m.data| < Two32
  {
  }

  /** The serialisation step of SendMessage: the four header fields
      appended in order, then the payload. */
  method Serialize(m: Message) returns (data: seq<Byte>)
    ensures data == SerializeFrame(m)
  {
    data := [];
    data := data + LittleEndian(m.msgType, 4);
    data := data + LittleEndian(m.sequenceNumber, 4);
    data := data + LittleEndian(m.dataSize, 4);
    data := data + LittleEndian(m.timestamp, 8);
    data := data + m.data;
  }

  // ---------------------------------------------------------------------
  // What crosses the wire

  /** The frame SendMessage hands to `send`: with encryption on, the
      payload is XORed before it is serialised. */
  function Frame(m: Message, encrypted: bool): (frame: seq<Byte>)
    ensures |frame| == 20 + |m.data|
  {
    SerializeFrame(if encrypted then m.(data := Xored(m.data)) else m)
  }

  /** `vector::resize(n)`: truncate, or extend with zero bytes. */
  function Resized(s: seq<Byte>, n: nat): (r: seq<Byte>)
    ensures |r| == n
    ensures forall k :: 0 <= k < n ==> r[k] == if k < |s| then s[k] else 0
  {
    if n <= |s| then s[..n] else s + seq(n - |s|, _ => 0)
  }

  /** The message ReceiveMessage fills in once a header buffer has arrived:
      the header fields, then, for a non-empty size, the resized payload
      buffer with the received bytes at its front, XORed when something
      arrived and encryption is on; an empty size leaves the caller's
      payload in place. */
  function Delivered(prev: Message, header: seq<Byte>, received: seq<Byte>, encrypted: bool): (r: Message)
    requires |header| == 20
    requires |received| <= ParseHeader(header).dataSize
    ensures HeaderOf(r) == ParseHeader(header)
    ensures ParseHeader(header).dataSize == 0 ==> r.data == prev.data
    ensures ParseHeader(header).dataSize > 0 ==> |r.data| == ParseHeader(header).dataSize
  {
    var h := ParseHeader(header);
    var data :=
      if h.dataSize == 0 then prev.data
      else
        var buffer := received + Resized(prev.data, h.dataSize)[|received|..];
        if received != [] && encrypted then Xored(buffer) else buffer;
    Message(h.msgType, h.sequenceNumber, h.dataSize, data, h.timestamp)
  }

  /** End to end: a valid message with a payload, framed and then received
      in full with the same encryption setting, arrives unchanged. */
  lemma FrameRoundTrip(m: Message, encrypted: bool, prev: Message)
    requires ValidateMessage(m) && m.data != []
    ensures var frame := Frame(m, encrypted);
      |frame[20..]| <= ParseHeader(frame[..20]).dataSize
      && Delivered(prev, frame[..20], frame[20..], encrypted) == m
  {
    var sent := if encrypted then m.(data := Xored(m.data)) else m;
    var frame := Frame(m, encrypted);
    FrameLayout(sent);
    assert frame[..20] == SerializeHeader(HeaderOf(sent));
    HeaderRoundTrip(HeaderOf(sent));
    XoredInvolution(m.data);
    var buffer := frame[20..] + Resized(prev.data, m.dataSize)[|frame[20..]|..];
    assert buffer == sent.data;
  }

  // ---------------------------------------------------------------------
  // SendMessage as written serialises first and encrypts afterwards

  /** What SendMessage does as written: the frame is taken from the message
      before EncryptMessage runs, and EncryptMessage then rewrites the
      caller's message through a `const_cast`. */
  datatype SendEffect = SendEffect(frame: seq<Byte>, callerMessage: Message)

  function SendAsWritten(m: Message, encrypted: bool): (e: SendEffect)
    ensures |e.frame| == 20 + |m.data| && e.frame[20..] == m.data
    ensures encrypted ==> e.callerMessage.data == Xored(m.data)
  {
    SendEffect(SerializeFrame(m), if encrypted then m.(data := Xored(m.data)) else m)
  }

  /** With encryption on at both ends, the receiver XORs a payload that
      was sent in the clear, so no valid message with a payload arrives
      intact; a one-byte payload 'A' (0x41) arrives as 0x03. */
  lemma SendAsWrittenGarblesPayload(m: Message, prev: Message)
    requires ValidateMessage(m) && m.data != []
    ensures var frame := SendAsWritten(m, true).frame;
      |frame[20..]| <= ParseHeader(frame[..20]).dataSize
      && Delivered(prev, frame[..20], frame[20..], true).data == Xored(m.data)
      && Delivered(prev, frame[..20], frame[20..], true) != m
    ensures Xored([0x41]) == [0x03]
  {
    var frame := SendAsWritten(m, true).frame;
    FrameLayout(m);
    assert frame[..20] == SerializeHeader(HeaderOf(m));
    HeaderRoundTrip(HeaderOf(m));
    var buffer := frame[20..] + Resized(prev.data, m.dataSize)[|frame[20..]|..];
    assert buffer == m.data;
    XoredInvolution(m.data);
    assert Xored(m.data)[0] != m.data[0];
  }

  // ---------------------------------------------------------------------
  // The heartbeat message

  /** SendHeartbeat as written: dataSize is never assigned, so the frame
      carries whatever the uninitialised field held (`garbage`). */
  function HeartbeatAsWritten(sequenceNumber: U32, now: U64, garbage: U32): (m: Message)
    ensures m.data == [] && m.dataSize == garbage
  {
    Message(TypeCode(Heartbeat), sequenceNumber, garbage, [], now)
  }

  /** Any non-zero leftover makes the heartbeat fail ValidateMessage. */
  lemma HeartbeatAsWrittenInvalid(sequenceNumber: U32, now: U64, garbage: U32)
    requires garbage != 0
    ensures !ValidateMessage(HeartbeatAsWritten(sequenceNumber, now, garbage))
  {
  }

  /** The heartbeat with its size set to the empty payload's. */
  function HeartbeatMessage(sequenceNumber: U32, now: U64): (m: Message)
    ensures m.data == [] && m.dataSize == 0 && m.msgType == TypeCode(Heartbeat)
    ensures sequenceNumber > 0 && now > 0 ==> ValidateMessage(m)
  {
    Message(TypeCode(Heartbeat), sequenceNumber, 0, [], now)
  }

  /** The message SendScreenData, SendInputCommand and SendControlCommand
      build around a payload. */
  function PayloadMessage(t: MessageType, payload: seq<Byte>, sequenceNumber: U32, now: U64): (m: Message)
    ensures m.data == payload && m.msgType == TypeCode(t)
    ensures sequenceNumber > 0 && now > 0 && |payload| < Two32 ==> ValidateMessage(m)
  {
    Message(TypeCode(t), sequenceNumber, |payload| % Two32, payload, now)
  }

  // ---------------------------------------------------------------------
  // Names and small checks

  function GetProtocolName(p: Protocol): (name: string)
    ensures name != "Unknown"
  {
    match p
    case NamedPipes => "Named Pipes"
    case TcpSockets => "TCP Sockets"
    case UdpDatagrams => "UDP Datagrams"
    case HttpProxy => "HTTP Proxy"
    case HttpsProxy => "HTTPS Proxy"
    case CustomProtocol => "Custom Protocol"
  }

  /** The switch names the first seven enumerators; REMOTE_CONTROL and any
      other value fall to "Unknown". */
  function GetMessageTypeName(code: U32): (name: string)
    ensures name == "Unknown" <==> code >= 7
  {
    if code == 0 then "Screen Data"
    else if code == 1 then "Input Command"
    else if code == 2 then "Control Command"
    else if code == 3 then "Heartbeat"
    else if code == 4 then "Authentication"
    else if code == 5 then "Encryption Key"
    else if code == 6 then "Error Message"
    else "Unknown"
  }

  function GetConnectionStatusName(s: ConnectionStatus): (name: string)
    ensures name != "Unknown"
  {
    match s
    case Disconnected => "Disconnected"
    case Connecting => "Connecting"
    case Connected => "Connected"
    case Error => "Error"
  }

  function GetErrorMessage(errorCode: int): (msg: string)
    ensures msg == "Unknown error" <==> !(0 <= errorCode <= 4)
  {
    if errorCode == 0 then "Success"
    else if errorCode == 1 then "Connection failed"
    else if errorCode == 2 then "Send failed"
    else if errorCode == 3 then "Receive failed"
    else if errorCode == 4 then "Invalid message"
    else "Unknown error"
  }

  /** Distinct codes of the engine get distinct messages. */
  lemma ErrorMessagesDistinct(a: int, b: int)
    requires 0 <= a <= 4 && 0 <= b <= 4 && a != b
    ensures GetErrorMessage(a) != GetErrorMessage(b)
  {
  }

  function IsValidPort(port: int): (valid: bool)
    ensures valid <==> port != 0 && 0 <= port < 0x1_0000
  {
    1 <= port <= 65535
  }

  /** The engine's port check and the validator's network check agree:
      a port is valid iff the network check raises no port error. */
  lemma PortCheckAgrees(c: ConfigRecords.NetworkConfig)
    ensures IsValidPort(c.targetPort) <==> ConfigRecords.PortRange !in ConfigRecords.NetworkFindings(c).errors
  {
    assert ConfigRecords.PortRange != ConfigRecords.IpRequired;
    assert ConfigRecords.PortRange[7] != ConfigRecords.IpMalformed[7];
  }

  /** `std::max(0, std::min(100, level))`. */
  function Clamp(level: int): (r: int)
    ensures 0 <= r <= 100
    ensures 0 <= level <= 100 ==> r == level
    ensures level < 0 ==> r == 0
    ensures level > 100 ==> r == 100
  {
    if level < 0 then 0 else if level > 100 then 100 else level
  }

  /** The port Connect uses: the number after the first ':' (read with
      `std::stoi`, `None` where it throws), else the configured port. */
  function TargetPort(target: string, defaultPort: int): (port: Option<int>)
    ensures ':' !in target ==> port == Some(defaultPort)
  {
    match Find(target, ':')
    case None => Some(defaultPort)
    case Some(pos) => StoI(target[pos + 1..])
  }

  /** A "host:port" target written with a decimal port is read back with
      that port. */
  lemma TargetPortOfHostPort(host: string, port: int, defaultPort: int)
    requires ':' !in host && IntMin <= port <= IntMax
    ensures TargetPort(host + ":" + IntToString(port), defaultPort) == Some(port)
  {
    var target := host + (":" + IntToString(port));
    assert host + ":" + IntToString(port) == target;
    FindAfterPrefix(host, ":" + IntToString(port), ':');
    assert target[|host| + 1..] == IntToString(port);
    StoIOfIntToString(port);
  }

  // ---------------------------------------------------------------------
  // The sequence counter

  /** One `++` on a `uint32_t`. */
  function Successor(v: U32): (n: U32)
    ensures v < Two32 - 1 ==> n == v + 1
    ensures v == Two32 - 1 ==> n == 0
  {
    (v + 1) % Two32
  }

  /** The counter after `k` increments from `v`. */
  function Advanced(v: U32, k: nat): U32
  {
    if k == 0 then v else Successor(Advanced(v, k - 1))
  }

  /** From zero the k-th call returns k, wrapping at 2^32. */
  lemma {:induction false} AdvancedFromZero(k: nat)
    ensures Advanced(0, k) == k % Two32
  {
    if k > 0 {
      AdvancedFromZero(k - 1);
      var q := (k - 1) / Two32;
      var p := (k - 1) % Two32;
      assert k == q * Two32 + p + 1;
      if p == Two32 - 1 {
        assert k == (q + 1) * Two32;
      } else {
        assert k % Two32 == p + 1;
      }
    }
  }

  /** The function-local static `std::atomic<uint32_t>` behind
      GenerateSequenceNumber, shared by every engine. */
  class SequenceCounter {
    var value: U32

    constructor()
      ensures value == 0
    {
      value := 0;
    }

    method Next() returns (n: U32)
      modifies this
      ensures n == Successor(old(value)) && value == n
    {
      value := (value + 1) % Two32;
      n := value;
    }
  }

  // ---------------------------------------------------------------------
  // The engine

  class CommunicationEngine {
    var settings: ConnectionSettings
    var status: ConnectionStatus
    var encryptionEnabled: bool
    var initialized: bool
    var socket: int
    var compressionLevel: int
    var encryptionLevel: int
    var bytesSent: U64
    var bytesReceived: U64
    var messagesSent: U32
    var messagesReceived: U32
    /** The flag the receive and heartbeat threads poll. */
    var running: bool
    /** Every byte handed to `send`, in order. */
    var wire: seq<Byte>
    const sequence: SequenceCounter

    /** A connected engine is initialised, holds a socket and runs its
        threads; a disconnected one holds neither. */
    ghost predicate Valid()
      reads this
    {
      (status == Connected ==> initialized && socket != -1 && running)
      && (status == Disconnected ==> socket == -1 && !running)
    }

    constructor(sequence: SequenceCounter)
      ensures Valid() && this.sequence == sequence
      ensures settings == DefaultSettings() && status == Disconnected
      ensures !encryptionEnabled && !initialized && !running && socket == -1
      ensures bytesSent == 0 && bytesReceived == 0 && messagesSent == 0 && messagesReceived == 0
      ensures wire == []
    {
      settings := DefaultSettings();
      status := Disconnected;
      encryptionEnabled := false;
      initialized := false;
      socket := -1;
      bytesSent := 0;
      bytesReceived := 0;
      messagesSent := 0;
      messagesReceived := 0;
      running := false;
      wire := [];
      this.sequence := sequence;
    }

    function IsConnected(): (connected: bool)
      reads this
      ensures connected <==> status == Connected
    {
      status == Connected
    }

    method Initialize(s: ConnectionSettings) returns (ok: bool)
      requires Valid()
      modifies this`settings, this`initialized
      ensures Valid() && ok && initialized && settings == s
    {
      settings := s;
      initialized := true;
      ok := true;
    }

    /** Disconnect: a disconnected engine returns at once; otherwise the
        threads are stopped, the socket closed and the status reset. */
    method Disconnect() returns (ok: bool)
      requires Valid()
      modifies this`running, this`socket, this`status
      ensures Valid() && ok
      ensures status == Disconnected && socket == -1 && !running
      ensures old(status) == Disconnected ==> running == old(running) && socket == old(socket)
    {
      if status == Disconnected {
        return true;
      }
      StopThreads();
      if socket != -1 {
        socket := -1;
      }
      status := Disconnected;
      ok := true;
    }

    /** Shutdown: an initialised engine is disconnected and marked
        uninitialised; afterwards it is never connected. */
    method Shutdown()
      requires Valid()
      modifies this`running, this`socket, this`status, this`initialized
      ensures Valid() && !initialized && status != Connected
      ensures old(initialized) ==> status == Disconnected && socket == -1 && !running
      ensures !old(initialized) ==> status == old(status) && socket == old(socket) && running == old(running)
    {
      if initialized {
        var _ := Disconnect();
        initialized := false;
      }
    }

    /** Connect, with the socket calls as parameters: `sock` is what
        `socket()` returns, `resolves` whether the host parses or resolves,
        `accepted` whether `connect()` succeeds. An uninitialised engine
        refuses without touching anything; otherwise the engine ends
        CONNECTED with its threads running, or in ERROR. */
    method Connect(target: string, sock: int, resolves: bool, accepted: bool) returns (ok: bool)
      requires Valid()
      modifies this`status, this`socket, this`running
      ensures Valid()
      ensures !old(initialized) ==> !ok && status == old(status) && socket == old(socket) && running == old(running)
      ensures old(initialized) ==>
        (ok <==> TargetPort(target, settings.targetPort).Some? && sock != -1 && resolves && accepted)
      ensures ok ==> status == Connected && socket == sock && running
      ensures old(initialized) && !ok ==> status == Error
      ensures old(initialized) ==>
        socket == if TargetPort(target, settings.targetPort).Some? then sock else old(socket)
      ensures !ok ==> running == old(running)
    {
      if !initialized {
        return false;
      }
      status := Connecting;
      var port := TargetPort(target, settings.targetPort);
      if port.None? {
        status := Error;
        return false;
      }
      socket := sock;
      if socket == -1 {
        status := Error;
        return false;
      }
      if !resolves || !accepted {
        status := Error;
        return false;
      }
      if running {
        StopThreads();
      }
      StartThreads();
      status := Connected;
      ok := true;
    }

    /** StartReceiveThread: sets the flag and starts the threads. Assigning
        a new `std::thread` to one that is still joinable terminates the
        process, and the threads stay joinable from their start until
        StopReceiveThread joins them, exactly while the flag is set. */
    method StartThreads()
      requires !running
      modifies this`running
      ensures running
    {
      running := true;
    }

    /** StopReceiveThread: clears the flag and joins whatever threads were
        started, after which none is joinable. */
    method StopThreads()
      modifies this`running
      ensures !running
    {
      running := false;
    }

    method SetEncryption(enable: bool) returns (ok: bool)
      modifies this`encryptionEnabled
      ensures ok && encryptionEnabled == enable
    {
      encryptionEnabled := enable;
      ok := true;
    }

    method SetCompressionLevel(level: int)
      modifies this`compressionLevel
      ensures compressionLevel == Clamp(level)
    {
      compressionLevel := if 100 < level then 100 else level;
      compressionLevel := if compressionLevel < 0 then 0 else compressionLevel;
    }

    method SetEncryptionLevel(level: int)
      modifies this`encryptionLevel
      ensures encryptionLevel == Clamp(level)
    {
      encryptionLevel := if 100 < level then 100 else level;
      encryptionLevel := if encryptionLevel < 0 then 0 else encryptionLevel;
    }

    /** SendMessage, with `send`'s return value as `sent`: refused unless
        CONNECTED; otherwise the frame's first `sent` bytes reach the wire
        and, when something was sent, the counters grow (modulo their
        widths). */
    method SendMessage(m: Message, sent: int) returns (ok: bool)
      requires Valid()
      requires sent <= 20 + |m.data|
      modifies this`wire, this`bytesSent, this`messagesSent
      ensures Valid()
      ensures old(status) != Connected ==> !ok
      ensures old(status) == Connected ==> (ok <==> sent > 0)
      ensures ok ==> wire == old(wire) + Frame(m, encryptionEnabled)[..sent]
                     && bytesSent == (old(bytesSent) + sent) % Two64
                     && messagesSent == (old(messagesSent) + 1) % Two32
      ensures !ok ==> wire == old(wire) && bytesSent == old(bytesSent) && messagesSent == old(messagesSent)
    {
      if !IsConnected() {
        return false;
      }
      var payload := m;
      if encryptionEnabled {
        payload := EncryptMessage(m);
      }
      var data := Serialize(payload);
      if sent > 0 {
        wire := wire + data[..sent];
        bytesSent := (bytesSent + sent) % Two64;
        messagesSent := (messagesSent + 1) % Two32;
        return true;
      }
      ok := false;
    }

    /** SendScreenData, SendInputCommand and SendControlCommand: a fresh
        sequence number is drawn whether or not the send succeeds. */
    method SendPayload(t: MessageType, payload: seq<Byte>, now: U64, sent: int) returns (ok: bool)
      requires Valid()
      requires sent <= 20 + |payload|
      modifies this`wire, this`bytesSent, this`messagesSent, sequence
      ensures Valid()
      ensures sequence.value == Successor(old(sequence.value))
      ensures ok <==> old(status) == Connected && sent > 0
      ensures ok ==> wire == old(wire) + Frame(PayloadMessage(t, payload, sequence.value, now), encryptionEnabled)[..sent]
                     && bytesSent == (old(bytesSent) + sent) % Two64
                     && messagesSent == (old(messagesSent) + 1) % Two32
      ensures !ok ==> wire == old(wire) && bytesSent == old(bytesSent) && messagesSent == old(messagesSent)
    {
      var n := sequence.Next();
      ok := SendMessage(PayloadMessage(t, payload, n, now), sent);
    }

    /** SendHeartbeat, with the message's size set to that of its empty
        payload. */
    method SendHeartbeat(now: U64, sent: int) returns (ok: bool)
      requires Valid()
      requires sent <= 20
      modifies this`wire, this`bytesSent, this`messagesSent, sequence
      ensures Valid()
      ensures sequence.value == Successor(old(sequence.value))
      ensures ok <==> old(status) == Connected && sent > 0
      ensures ok ==> wire == old(wire) + Frame(HeartbeatMessage(sequence.value, now), encryptionEnabled)[..sent]
                     && bytesSent == (old(bytesSent) + sent) % Two64
                     && messagesSent == (old(messagesSent) + 1) % Two32
      ensures !ok ==> wire == old(wire) && bytesSent == old(bytesSent) && messagesSent == old(messagesSent)
    {
      var n := sequence.Next();
      ok := SendMessage(HeartbeatMessage(n, now), sent);
    }

    /** ReceiveMessage, with the socket's part as parameters: `header` is
        the 20-byte buffer after the first `recv`, which returned `got`;
        `received` the bytes the second `recv` delivered (empty when it
        returned zero or less). Refused unless CONNECTED and something
        arrived; otherwise the message is Delivered, and the counters grow
        only when a non-empty payload arrived. */
    method ReceiveMessage(prev: Message, header: seq<Byte>, got: int, received: seq<Byte>)
      returns (ok: bool, m: Message)
      requires Valid()
      requires |header| == 20 && |received| <= ParseHeader(header).dataSize
      modifies this`bytesReceived, this`messagesReceived
      ensures Valid()
      ensures ok <==> old(status) == Connected && got > 0
      ensures !ok ==> m == prev
      ensures ok ==> m == Delivered(prev, header, received, encryptionEnabled)
      ensures ok && ParseHeader(header).dataSize > 0 && received != [] ==>
        bytesReceived == (old(bytesReceived) + |received|) % Two64
        && messagesReceived == (old(messagesReceived) + 1) % Two32
      ensures !(ok && ParseHeader(header).dataSize > 0 && received != []) ==>
        bytesReceived == old(bytesReceived) && messagesReceived == old(messagesReceived)
    {
      m := prev;
      if !IsConnected() || got <= 0 {
        ok := false;
        return;
      }
      Pow256Widths();
      var msgType := FromLittleEndian(header[0..4]);
      var sequenceNumber := FromLittleEndian(header[4..8]);
      var size := FromLittleEndian(header[8..12]);
      var timestamp := FromLittleEndian(header[12..20]);
      m := Message(msgType, sequenceNumber, size, m.data, timestamp);
      if size > 0 {
        var buffer := Resized(m.data, size);
        buffer := received + buffer[|received|..];
        m := m.(data := buffer);
        if received != [] {
          bytesReceived := (bytesReceived + |received|) % Two64;
          messagesReceived := (messagesReceived + 1) % Two32;
          if encryptionEnabled {
            m := DecryptMessage(m);
          }
        }
      }
      ok := true;
    }
  }

  /** Connect as written: once the target is parsed, the socket opened, the
      host resolved and the connection accepted, StartReceiveThread assigns
      new threads without first stopping those of an earlier connection.
      While `running` is set those are still joinable, and the assignment
      calls std::terminate. */
  function ConnectTerminatesAsWritten(initialized: bool, running: bool, target: string, defaultPort: int,
                                      sock: int, resolves: bool, accepted: bool): (terminates: bool)
    ensures terminates ==> running && TargetPort(target, defaultPort).Some? && sock != -1
    ensures !running || !initialized ==> !terminates
  {
    initialized && running && TargetPort(target, defaultPort).Some? && sock != -1 && resolves && accepted
  }

  /** Connecting twice without a disconnect: as written the second connect
      starts the threads while the first ones still run, so the process
      terminates; the corrected Connect stops them first and reconnects. */
  method ReconnectScenario(s: ConnectionSettings, target: string, first: int, second: int)
    returns (connected: bool, terminatesAsWritten: bool, reconnected: bool, stillRunning: bool)
    requires ':' !in target && first != -1 && second != -1
    ensures connected && terminatesAsWritten && reconnected && stillRunning
  {
    var counter := new SequenceCounter();
    var engine := new CommunicationEngine(counter);
    var initialized := engine.Initialize(s);
    connected := engine.Connect(target, first, true, true);
    terminatesAsWritten := ConnectTerminatesAsWritten(engine.initialized, engine.running, target,
                                                      engine.settings.targetPort, second, true, true);
    reconnected := engine.Connect(target, second, true, true);
    stillRunning := engine.running && engine.socket == second;
  }
}

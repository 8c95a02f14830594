/**
 * The phone-side command protocol of the HikeSafe BLE link: the outbound
 * stream frame and the opcode-first payloads of each command the app sends
 * to the LoRa device over the Nordic UART service.
 *
 * Text arguments (names, PSKs, lobby ids, message text, profile JSON) are
 * taken as their UTF-8 bytes; the encoding itself is done by a foreign
 * library and is not modelled.
 */
module BleProtocol {
  import opened Bytes
  import opened Wrappers

  /** '<': start of a frame written by the app. */
  const FRAME_START_OUT: byte := 0x3C
  /** '>': start of a frame sent by the device. */
  const FRAME_START_IN: byte := 0x3E
  /** Size of the marker plus the 16-bit little-endian length. */
  const HEADER_SIZE: nat := 3

  const CMD_APP_START: byte := 1
  const CMD_SEND_TXT_MSG: byte := 2
  /** Declared but never sent: queryDevice shadows it with opcode 1. */
  const CMD_DEVICE_QUERY: byte := 22
  const CMD_SET_PROFILE: byte := 44
  const CMD_CREATE_LOBBY: byte := 46
  const CMD_JOIN_LOBBY: byte := 47
  const CMD_SET_DEVICE_GPS: byte := 48
  /** The opcode queryDevice actually writes (its local CMD_DEVICE_QUERY). */
  const QUERY_OPCODE: byte := 1
  /** Second byte of a join-lobby payload. */
  const JOIN_MARKER: byte := 0xFE

  /** A frame: marker, `len & 0xff`, `(len >> 8) & 0xff`, then the bytes. */
  function Framed(marker: byte, bytes: seq<byte>): seq<byte>
  {
    [marker, LowByte(|bytes|), ShiftedByte(|bytes|, 1)] + bytes
  }

  /** buildFramed: the frame the app writes when framing is on. */
  function BuildFramed(bytes: seq<byte>): (r: seq<byte>)
    ensures |r| == HEADER_SIZE + |bytes| && r[0] == FRAME_START_OUT
    ensures r[HEADER_SIZE..] == bytes
  {
    Framed(FRAME_START_OUT, bytes)
  }

  /** The 16-bit length field of a header starting at h[0]. */
  function HeaderLength(h: seq<byte>): nat
    requires |h| >= HEADER_SIZE
  {
    h[1] as int + 0x100 * (h[2] as int)
  }

  /**
   * A frame is the marker, a little-endian length and the bytes verbatim;
   * the length field holds |bytes| whenever it fits in 16 bits, and its
   * low 16 bits otherwise.
   */
  lemma {:induction false} FramedLayout(marker: byte, bytes: seq<byte>)
    ensures |Framed(marker, bytes)| == HEADER_SIZE + |bytes|
    ensures Framed(marker, bytes)[0] == marker
    ensures Framed(marker, bytes)[HEADER_SIZE..] == bytes
    ensures HeaderLength(Framed(marker, bytes)) == |bytes| % 0x1_0000
    ensures |bytes| < 0x1_0000 ==> HeaderLength(Framed(marker, bytes)) == |bytes|
  {
    var f := Framed(marker, bytes);
    var n := |bytes|;
    LowBytesOfAnyInt(n);
    LowTwoBytes(n);
    assert f[1] == n % 0x100;
    assert f[2] == (n / 0x100) % 0x100;
  }

  /** What a send puts on the wire: the frame when framing is on, the bare payload otherwise. */
  function OnWire(useFraming: bool, bytes: seq<byte>): seq<byte>
  {
    if useFraming then BuildFramed(bytes) else bytes
  }

  /** The payload is framed exactly when framing is on, and is never lost. */
  lemma OnWireFramesIff(useFraming: bool, bytes: seq<byte>)
    ensures OnWire(useFraming, bytes) == BuildFramed(bytes) <==> useFraming
    ensures OnWire(useFraming, bytes) == bytes <==> !useFraming
    ensures OnWire(useFraming, bytes)[|OnWire(useFraming, bytes)| - |bytes|..] == bytes
  {
    FramedLayout(FRAME_START_OUT, bytes);
  }

  /** The bytes written by sendCreateLobby / buildCreateLobby. */
  function CreateLobbyPayload(name: seq<byte>, psk: seq<byte>, lobbyId: seq<byte>): seq<byte>
  {
    [CMD_CREATE_LOBBY, LowByte(|name|)] + name
      + [LowByte(|psk|)] + psk
      + [LowByte(|lobbyId|)] + lobbyId
  }

  /** The bytes written by sendJoinLobby / buildJoinLobby. */
  function JoinLobbyPayload(lobbyId: seq<byte>): seq<byte>
  {
    [CMD_JOIN_LOBBY, JOIN_MARKER] + lobbyId
  }

  /** The bytes written by sendText: opcode, `dest & 0xff`, text. */
  function TextPayload(dest: int, text: seq<byte>): seq<byte>
  {
    [CMD_SEND_TXT_MSG, LowByte(dest)] + text
  }

  /** The bytes written by sendGPS for microdegree values lat and lon. */
  function GpsPayload(lat: int, lon: int): seq<byte>
  {
    [CMD_SET_DEVICE_GPS] + Int32LE(lat) + Int32LE(lon)
  }

  /** The bytes written by sendProfile for the profile's JSON text. */
  function ProfilePayload(json: seq<byte>): seq<byte>
  {
    [CMD_SET_PROFILE] + json
  }

  /** The bytes written by queryDevice. */
  function QueryPayload(): seq<byte>
  {
    [QUERY_OPCODE]
  }

  /** queryDevice writes opcode 1 (CMD_APP_START's value), not CMD_DEVICE_QUERY. */
  lemma QueryUsesShadowedOpcode()
    ensures QueryPayload() == [CMD_APP_START]
    ensures CMD_DEVICE_QUERY !in QueryPayload()
  {
  }

  /** The commands the app can send, with their arguments as bytes. */
  datatype Command =
    | CreateLobby(name: seq<byte>, psk: seq<byte>, lobbyId: seq<byte>)
    | JoinLobby(lobbyId: seq<byte>)
    | SendText(dest: int, text: seq<byte>)
    | SetGps(lat: int, lon: int)
    | SetProfile(json: seq<byte>)
    | DeviceQuery

  /**
   * The arguments each layout can carry unambiguously: one-byte length
   * prefixes, a one-byte destination and 32-bit coordinates.
   */
  predicate WellFormed(c: Command)
  {
    match c
    case CreateLobby(name, psk, lobbyId) =>
      |name| < 0x100 && |psk| < 0x100 && |lobbyId| < 0x100
    case SendText(dest, _) => 0 <= dest < 0x100
    case SetGps(lat, lon) => IsInt32(lat) && IsInt32(lon)
    case _ => true
  }

  function Encode(c: Command): seq<byte>
  {
    match c
    case CreateLobby(name, psk, lobbyId) => CreateLobbyPayload(name, psk, lobbyId)
    case JoinLobby(lobbyId) => JoinLobbyPayload(lobbyId)
    case SendText(dest, text) => TextPayload(dest, text)
    case SetGps(lat, lon) => GpsPayload(lat, lon)
    case SetProfile(json) => ProfilePayload(json)
    case DeviceQuery => QueryPayload()
  }

  /** Reading a create-lobby payload field by field, as its layout dictates. */
  function DecodeCreateLobby(r: seq<byte>): Option<Command>
  {
    if |r| < 2 then None
    else
      var n: nat := r[1];
      if |r| < 3 + n then None
      else
        var p: nat := r[2 + n];
        if |r| < 4 + n + p then None
        else
          var i: nat := r[3 + n + p];
          if |r| != 4 + n + p + i then None
          else Some(CreateLobby(r[2..2 + n], r[3 + n..3 + n + p], r[4 + n + p..]))
  }

  /**
   * The reading of an outbound payload that its layout admits: the opcode
   * selects the layout and the payload must be consumed exactly.
   */
  function Decode(r: seq<byte>): Option<Command>
  {
    if |r| == 0 then None
    else if r[0] == CMD_CREATE_LOBBY then DecodeCreateLobby(r)
    else if r[0] == CMD_JOIN_LOBBY then
      if |r| >= 2 && r[1] == JOIN_MARKER then Some(JoinLobby(r[2..])) else None
    else if r[0] == CMD_SEND_TXT_MSG then
      if |r| >= 2 then Some(SendText(r[1], r[2..])) else None
    else if r[0] == CMD_SET_DEVICE_GPS then
      if |r| == 9 then Some(SetGps(DecodeInt32LE(r[1..5]), DecodeInt32LE(r[5..9]))) else None
    else if r[0] == CMD_SET_PROFILE then Some(SetProfile(r[1..]))
    else if r[0] == QUERY_OPCODE then
      if |r| == 1 then Some(DeviceQuery) else None
    else None
  }

  lemma {:induction false} CreateLobbyRoundTrip(name: seq<byte>, psk: seq<byte>, lobbyId: seq<byte>)
    requires |name| < 0x100 && |psk| < 0x100 && |lobbyId| < 0x100
    ensures |CreateLobbyPayload(name, psk, lobbyId)| == 4 + |name| + |psk| + |lobbyId|
    ensures Decode(CreateLobbyPayload(name, psk, lobbyId)) == Some(CreateLobby(name, psk, lobbyId))
  {
    var r := CreateLobbyPayload(name, psk, lobbyId);
    var n, p := |name|, |psk|;
    assert r[1] == n;
    assert r[2..2 + n] == name;
    assert r[2 + n] == p;
    assert r[3 + n..3 + n + p] == psk;
    assert r[3 + n + p] == |lobbyId|;
    assert r[4 + n + p..] == lobbyId;
  }

  lemma {:induction false} GpsRoundTrip(lat: int, lon: int)
    ensures |GpsPayload(lat, lon)| == 9
    ensures Decode(GpsPayload(lat, lon)) == Some(SetGps(ToInt32(lat), ToInt32(lon)))
  {
    var r := GpsPayload(lat, lon);
    Int32RoundTrip(lat);
    Int32RoundTrip(lon);
    assert r[1..5] == Int32LE(lat);
    assert r[5..9] == Int32LE(lon);
  }

  /** Every well-formed command is read back from its payload. */
  lemma {:induction false} EncodeDecode(c: Command)
    requires WellFormed(c)
    ensures Decode(Encode(c)) == Some(c)
  {
    match c
    case CreateLobby(name, psk, lobbyId) => CreateLobbyRoundTrip(name, psk, lobbyId);
    case JoinLobby(lobbyId) => assert Encode(c)[2..] == lobbyId;
    case SendText(dest, text) => assert Encode(c)[2..] == text;
    case SetGps(lat, lon) => GpsRoundTrip(lat, lon);
    case SetProfile(json) => assert Encode(c)[1..] == json;
    case DeviceQuery =>
  }

  /** A create-lobby payload that reads back is the layout of what it reads as. */
  lemma {:induction false} CreateLobbyBytesRoundTrip(r: seq<byte>)
    requires |r| > 0 && r[0] == CMD_CREATE_LOBBY && DecodeCreateLobby(r).Some?
    ensures WellFormed(DecodeCreateLobby(r).value)
    ensures Encode(DecodeCreateLobby(r).value) == r
  {
    var n: nat := r[1];
    var p: nat := r[2 + n];
    var c := DecodeCreateLobby(r).value;
    assert c.name == r[2..2 + n] && c.psk == r[3 + n..3 + n + p] && c.lobbyId == r[4 + n + p..];
    assert r == [r[0], r[1]] + r[2..2 + n] + [r[2 + n]] + r[3 + n..3 + n + p]
      + [r[3 + n + p]] + r[4 + n + p..];
  }

  /** A GPS payload that reads back is the layout of the coordinates it reads as. */
  lemma {:induction false} GpsBytesRoundTrip(r: seq<byte>)
    requires |r| == 9 && r[0] == CMD_SET_DEVICE_GPS
    ensures Encode(SetGps(DecodeInt32LE(r[1..5]), DecodeInt32LE(r[5..9]))) == r
  {
    Int32BytesRoundTrip(r[1..5]);
    Int32BytesRoundTrip(r[5..9]);
    assert r == [r[0]] + r[1..5] + r[5..9];
  }

  /** Every payload that reads as a command is exactly that command's bytes. */
  lemma {:induction false} DecodeEncode(r: seq<byte>, c: Command)
    requires Decode(r) == Some(c)
    ensures WellFormed(c)
    ensures Encode(c) == r
  {
    if r[0] == CMD_CREATE_LOBBY {
      CreateLobbyBytesRoundTrip(r);
    } else if r[0] == CMD_JOIN_LOBBY {
      assert r == [r[0], r[1]] + r[2..];
    } else if r[0] == CMD_SEND_TXT_MSG {
      assert r == [r[0], r[1]] + r[2..];
    } else if r[0] == CMD_SET_DEVICE_GPS {
      GpsBytesRoundTrip(r);
    } else if r[0] == CMD_SET_PROFILE {
      assert r == [r[0]] + r[1..];
    }
  }

  /**
   * sendCreateLobby writes each length as `length & 0xff`: a 256-byte name
   * is announced as empty, so the payload no longer reads as that command.
   */
  lemma CreateLobbyLengthWraps(name: seq<byte>, psk: seq<byte>, lobbyId: seq<byte>)
    requires |name| == 0x100
    ensures CreateLobbyPayload(name, psk, lobbyId)[1] == 0
    ensures Decode(CreateLobbyPayload(name, psk, lobbyId)) != Some(CreateLobby(name, psk, lobbyId))
  {
    var r := CreateLobbyPayload(name, psk, lobbyId);
    assert r[1] == 0;
    if Decode(r).Some? {
      assert |Decode(r).value.name| == 0;
    }
  }
}

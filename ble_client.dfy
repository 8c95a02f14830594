/**
 * The pure helpers of the BleClient debug component: the hex codec of its
 * manual-send field and log, the lobby builders, the bounded newest-first
 * log, and sendBytes' choice between a framed and a bare write.
 */
module BleClient {
  import opened Bytes
  import opened Wrappers
  import opened BleProtocol
  import BleServiceModel

  /* ---------------------------------------------------------------- hex */

  /** A character the `[0-9a-fA-F]` class admits. */
  predicate IsHexDigit(c: char)
  {
    ('0' <= c <= '9') || ('a' <= c <= 'f') || ('A' <= c <= 'F')
  }

  /** A hex digit as bytesToHex writes it, after `toUpperCase()`. */
  predicate IsUpperHexDigit(c: char)
  {
    ('0' <= c <= '9') || ('A' <= c <= 'F')
  }

  predicate AllHex(s: seq<char>)
  {
    forall k :: 0 <= k < |s| ==> IsHexDigit(s[k])
  }

  /** The value of one hex digit, in either case. */
  function HexValue(c: char): (v: nat)
    requires IsHexDigit(c)
    ensures v < 16
  {
    if '0' <= c <= '9' then c as int - '0' as int
    else if 'a' <= c <= 'f' then c as int - 'a' as int + 10
    else c as int - 'A' as int + 10
  }

  /** The upper-case digit for a value below 16. */
  function HexDigit(n: nat): (c: char)
    requires n < 16
    ensures IsUpperHexDigit(c) && IsHexDigit(c)
    ensures HexValue(c) == n
  {
    if n < 10 then ('0' as int + n) as char else ('A' as int + n - 10) as char
  }

  /** `toUpperCase()` on a hex digit. */
  function UpperDigit(c: char): (u: char)
    requires IsHexDigit(c)
    ensures IsUpperHexDigit(u) && HexValue(u) == HexValue(c)
  {
    if 'a' <= c <= 'f' then (c as int - 'a' as int + 'A' as int) as char else c
  }

  function Upper(s: seq<char>): (u: seq<char>)
    requires AllHex(s)
    ensures |u| == |s|
    ensures forall k :: 0 <= k < |s| ==> u[k] == UpperDigit(s[k])
  {
    if s == [] then [] else [UpperDigit(s[0])] + Upper(s[1..])
  }

  /** `(hex || '').replace(/[^0-9a-fA-F]/g, '')`. */
  function Clean(s: seq<char>): (r: seq<char>)
    ensures AllHex(r)
    ensures |r| <= |s|
  {
    if s == [] then []
    else if IsHexDigit(s[0]) then [s[0]] + Clean(s[1..])
    else Clean(s[1..])
  }

  /** `parseInt(hi + lo, 16)` for two hex digits. */
  function PairValue(hi: char, lo: char): byte
    requires IsHexDigit(hi) && IsHexDigit(lo)
  {
    16 * HexValue(hi) + HexValue(lo)
  }

  /** The bytes read from a cleaned string, two digits each; an odd last digit is dropped. */
  function DecodePairs(c: seq<char>): (r: seq<byte>)
    requires AllHex(c)
    ensures |r| == |c| / 2
  {
    if |c| < 2 then [] else [PairValue(c[0], c[1])] + DecodePairs(c[2..])
  }

  /** What hexToBytes returns. */
  function HexBytes(hex: seq<char>): (r: seq<byte>)
    ensures |r| == |Clean(hex)| / 2
  {
    DecodePairs(Clean(hex))
  }

  /** bytesToHex: two upper-case digits per byte, high nibble first. */
  function BytesToHex(b: seq<byte>): (r: seq<char>)
    ensures |r| == 2 * |b|
    ensures forall k :: 0 <= k < |r| ==> IsUpperHexDigit(r[k]) && IsHexDigit(r[k])
  {
    if b == [] then [] else [HexDigit(b[0] / 16), HexDigit(b[0] % 16)] + BytesToHex(b[1..])
  }

  /** Byte k of the result is read from digits 2k and 2k+1. */
  lemma {:induction false} DecodePairsAt(c: seq<char>)
    requires AllHex(c)
    ensures forall k :: 0 <= k < |c| / 2 ==> DecodePairs(c)[k] == PairValue(c[2 * k], c[2 * k + 1])
  {
    if |c| >= 2 {
      var rest := c[2..];
      DecodePairsAt(rest);
      var d := DecodePairs(rest);
      assert DecodePairs(c) == [PairValue(c[0], c[1])] + d;
      forall k | 1 <= k < |c| / 2
        ensures DecodePairs(c)[k] == PairValue(c[2 * k], c[2 * k + 1])
      {
        assert DecodePairs(c)[k] == d[k - 1];
        assert rest[2 * (k - 1)] == c[2 * k] && rest[2 * (k - 1) + 1] == c[2 * k + 1];
      }
    }
  }

  /** hexToBytes: clean the text, then fill `Uint8Array(clean.length / 2)` pair by pair. */
  method HexToBytes(hex: seq<char>) returns (r: seq<byte>)
    ensures r == HexBytes(hex)
    ensures |r| == |Clean(hex)| / 2
  {
    var clean := Clean(hex);
    var out := new byte[|clean| / 2];
    var i := 0;
    while i < |clean|
      invariant 0 <= i <= |clean| + 1 && i % 2 == 0
      invariant forall k :: 0 <= k < i / 2 && k < out.Length ==> out[k] == PairValue(clean[2 * k], clean[2 * k + 1])
    {
      // a write past the end of a typed array (the odd last digit) is ignored
      if i / 2 < out.Length {
        out[i / 2] := PairValue(clean[i], clean[i + 1]);
      }
      i := i + 2;
    }
    DecodePairsAt(clean);
    r := out[..];
  }

  /** A string of hex digits is left as it is by the cleaning step. */
  lemma {:induction false} CleanKeepsHex(s: seq<char>)
    requires AllHex(s)
    ensures Clean(s) == s
  {
    if s != [] {
      CleanKeepsHex(s[1..]);
    }
  }

  lemma {:induction false} CleanAppend(a: seq<char>, b: seq<char>)
    ensures Clean(a + b) == Clean(a) + Clean(b)
  {
    if a == [] {
      assert a + b == b;
    } else {
      assert (a + b)[1..] == a[1..] + b;
      CleanAppend(a[1..], b);
    }
  }

  /** A character outside `[0-9a-fA-F]`, anywhere, does not change what hexToBytes returns. */
  lemma JunkIgnored(a: seq<char>, x: char, b: seq<char>)
    requires !IsHexDigit(x)
    ensures HexBytes(a + [x] + b) == HexBytes(a + b)
  {
    CleanAppend(a + [x], b);
    CleanAppend(a, [x]);
    CleanAppend(a, b);
    assert Clean([x]) == [];
    assert Clean(a) + [] == Clean(a);
  }

  /** An odd trailing digit after an even run is dropped. */
  lemma {:induction false} OddDigitDropped(c: seq<char>, x: char)
    requires AllHex(c) && |c| % 2 == 0 && IsHexDigit(x)
    ensures DecodePairs(c + [x]) == DecodePairs(c)
    decreases |c|
  {
    if |c| >= 2 {
      assert (c + [x])[2..] == c[2..] + [x];
      OddDigitDropped(c[2..], x);
    }
  }

  /** hexToBytes(bytesToHex(b)) == b. */
  lemma {:induction false} HexRoundTrip(b: seq<byte>)
    ensures HexBytes(BytesToHex(b)) == b
  {
    CleanKeepsHex(BytesToHex(b));
    DecodeHex(b);
  }

  lemma {:induction false} DecodeHex(b: seq<byte>)
    ensures DecodePairs(BytesToHex(b)) == b
  {
    if b != [] {
      var h := BytesToHex(b);
      assert h[2..] == BytesToHex(b[1..]);
      DecodeHex(b[1..]);
      assert PairValue(h[0], h[1]) == b[0];
    }
  }

  /** For an even run of digits, bytesToHex(hexToBytes(c)) is c in upper case. */
  lemma HexUpperRoundTrip(c: seq<char>)
    requires AllHex(c) && |c| % 2 == 0
    ensures HexBytes(c) == DecodePairs(c)
    ensures BytesToHex(DecodePairs(c)) == Upper(c)
  {
    CleanKeepsHex(c);
    EncodeDecodedPairs(c);
  }

  lemma {:induction false} EncodeDecodedPairs(c: seq<char>)
    requires AllHex(c) && |c| % 2 == 0
    ensures BytesToHex(DecodePairs(c)) == Upper(c)
    decreases |c|
  {
    if c != [] {
      var v := PairValue(c[0], c[1]);
      var rest := DecodePairs(c[2..]);
      EncodeDecodedPairs(c[2..]);
      assert DecodePairs(c) == [v] + rest;
      PairDigits(c[0], c[1]);
      assert BytesToHex([v] + rest) == [HexDigit(v / 16), HexDigit(v % 16)] + BytesToHex(rest) by {
        assert ([v] + rest)[1..] == rest;
      }
      UpperTwo(c);
    }
  }

  /** Re-encoding a byte read from two digits gives those digits in upper case. */
  lemma PairDigits(hi: char, lo: char)
    requires IsHexDigit(hi) && IsHexDigit(lo)
    ensures HexDigit(PairValue(hi, lo) / 16) == UpperDigit(hi)
    ensures HexDigit(PairValue(hi, lo) % 16) == UpperDigit(lo)
  {
    var v := PairValue(hi, lo);
    assert v / 16 == HexValue(hi) && v % 16 == HexValue(lo);
    DigitOfValue(hi);
    DigitOfValue(lo);
  }

  lemma DigitOfValue(c: char)
    requires IsHexDigit(c)
    ensures HexDigit(HexValue(c)) == UpperDigit(c)
  {
  }

  lemma UpperTwo(c: seq<char>)
    requires AllHex(c) && |c| >= 2
    ensures Upper(c) == [UpperDigit(c[0]), UpperDigit(c[1])] + Upper(c[2..])
  {
    assert c[1..][1..] == c[2..];
  }

  /* ---------------------------------------------------------- builders */

  /** A JavaScript string argument that may be falsy: None for undefined or null. */
  function OrEmpty(s: Option<seq<byte>>): seq<byte>
  {
    if s.Some? then s.value else []
  }

  /** buildCreateLobby: a falsy name or psk becomes an empty field. */
  method BuildCreateLobby(lobbyId: seq<byte>, psk: Option<seq<byte>>, name: Option<seq<byte>>)
    returns (r: seq<byte>)
    ensures r == CreateLobbyPayload(OrEmpty(name), OrEmpty(psk), lobbyId)
  {
    var nameB := if name.Some? then name.value else [];
    var pskB := if psk.Some? then psk.value else [];
    r := BleServiceModel.CreateLobbyBytes(nameB, pskB, lobbyId);
  }

  /** The "Create Lobby" button's call buildCreateLobby('test'). */
  lemma CreateLobbyButton()
    ensures CreateLobbyPayload(OrEmpty(None), OrEmpty(None), [0x74, 0x65, 0x73, 0x74])
         == [46, 0, 0, 4, 0x74, 0x65, 0x73, 0x74]
  {
    LowBytesOfAnyInt(0);
    LowBytesOfAnyInt(4);
  }

  /** buildJoinLobby. */
  method BuildJoinLobby(lobbyId: seq<byte>) returns (r: seq<byte>)
    ensures r == JoinLobbyPayload(lobbyId)
  {
    r := BleServiceModel.WithHeader([CMD_JOIN_LOBBY, JOIN_MARKER], lobbyId);
  }

  /* --------------------------------------------------------------- log */

  const LOG_LIMIT: nat := 200

  /** appendLog's update `l => [entry, ...l].slice(0, 200)`. */
  function WithEntry(log: seq<string>, entry: string): (r: seq<string>)
    ensures |r| == if |log| < LOG_LIMIT then |log| + 1 else LOG_LIMIT
    ensures r[0] == entry
    ensures r[1..] == log[..|r| - 1]
  {
    var l := [entry] + log;
    if |l| <= LOG_LIMIT then l else l[..LOG_LIMIT]
  }

  /** The log line appendLog writes: local time, a dash, the text. */
  function LogLine(time: string, s: string): string
  {
    time + " - " + s
  }

  /** The log after a run of entries, oldest first. */
  function LogAfter(log: seq<string>, entries: seq<string>): seq<string>
  {
    if entries == [] then log
    else WithEntry(LogAfter(log, entries[..|entries| - 1]), entries[|entries| - 1])
  }

  function Min(a: int, b: int): int
  {
    if a < b then a else b
  }

  /**
   * However many lines are appended, the log holds at most 200, and they
   * are the latest ones, newest first.
   */
  lemma {:induction false} NewestFirst(log: seq<string>, entries: seq<string>)
    requires |log| <= LOG_LIMIT
    ensures |LogAfter(log, entries)| == Min(|log| + |entries|, LOG_LIMIT)
    ensures forall k :: 0 <= k < |entries| && k < LOG_LIMIT ==>
      LogAfter(log, entries)[k] == entries[|entries| - 1 - k]
    decreases |entries|
  {
    if entries != [] {
      var init := entries[..|entries| - 1];
      NewestFirst(log, init);
      var prev := LogAfter(log, init);
      var l := LogAfter(log, entries);
      forall k | 1 <= k < |entries| && k < LOG_LIMIT
        ensures l[k] == entries[|entries| - 1 - k]
      {
        assert l[k] == l[1..][k - 1] == prev[k - 1];
        assert prev[k - 1] == init[|init| - 1 - (k - 1)];
      }
    }
  }

  /* -------------------------------------------------------- the client */

  /** The component state sendBytes and appendLog touch. */
  class DebugClient {
    var connected: Option<BleServiceModel.DeviceHandle>
    var useFraming: bool
    var log: seq<string>
    /** Every characteristic write issued, in order. */
    var writes: seq<seq<byte>>

    predicate Valid()
      reads this
    {
      |log| <= LOG_LIMIT
    }

    constructor()
      ensures Valid()
      ensures connected == None && useFraming && log == [] && writes == []
    {
      connected := None;
      useFraming := true;
      log := [];
      writes := [];
    }

    /** appendLog, with the clock's reading `time` as a parameter. */
    method AppendLog(time: string, s: string)
      requires Valid()
      modifies this`log
      ensures Valid()
      ensures log == WithEntry(old(log), LogLine(time, s))
    {
      log := WithEntry(log, LogLine(time, s));
    }

    /**
     * connectTo: logs the attempt, stops the scan, then records the device
     * that the connection and service discovery resolve to (`outcome`), or
     * logs their rejection message `failure`. `shown` is the device's name,
     * or its id when it has none; `idText` is the connected device's id.
     */
    method ConnectTo(shown: string, outcome: Option<BleServiceModel.DeviceHandle>, idText: string,
                     failure: string, time: string)
      requires Valid()
      modifies this`log, this`connected
      ensures Valid()
      ensures outcome.Some? ==> connected == outcome
      ensures outcome.None? ==> connected == old(connected)
      ensures var started := WithEntry(WithEntry(old(log), LogLine(time, "Connecting: " + shown)),
                                       LogLine(time, "Scan stopped"));
        log == WithEntry(started, LogLine(time, if outcome.Some? then "Connected: " + idText
                                                 else "Connect failed: " + failure))
    {
      AppendLog(time, "Connecting: " + shown);
      AppendLog(time, "Scan stopped");
      if outcome.Some? {
        connected := outcome;
        AppendLog(time, "Connected: " + idText);
      } else {
        AppendLog(time, "Connect failed: " + failure);
      }
    }

    /**
     * disconnect: nothing without a device; otherwise logs the attempt and
     * forgets the device once the cancellation (`cancelOk`) succeeds.
     */
    method Disconnect(cancelOk: bool, time: string)
      requires Valid()
      modifies this`log, this`connected
      ensures Valid()
      ensures old(connected).None? ==> connected == None && log == old(log)
      ensures old(connected).Some? && cancelOk ==>
        connected == None &&
        log == WithEntry(WithEntry(old(log), LogLine(time, "Disconnecting")), LogLine(time, "Disconnected"))
      ensures old(connected).Some? && !cancelOk ==>
        connected == old(connected) &&
        log == WithEntry(WithEntry(old(log), LogLine(time, "Disconnecting")), LogLine(time, "Disconnect failed"))
    {
      if connected.None? {
        return;
      }
      AppendLog(time, "Disconnecting");
      if cancelOk {
        connected := None;
        AppendLog(time, "Disconnected");
      } else {
        AppendLog(time, "Disconnect failed");
      }
    }

    /**
     * sendBytes: refuse without a device, otherwise write the payload,
     * framed when useFraming is on; `failure` is the write's rejection
     * message, if it fails.
     */
    method SendBytes(bytes: seq<byte>, time: string, failure: Option<string>)
      requires Valid()
      modifies this`log, this`writes
      ensures Valid()
      ensures connected.None? ==> writes == old(writes)
      ensures connected.None? ==> log == WithEntry(old(log), LogLine(time, "No device"))
      ensures connected.Some? ==> writes == old(writes) + [OnWire(useFraming, bytes)]
      ensures connected.Some? && failure.None? ==>
        log == WithEntry(old(log), LogLine(time, "TX: " + BytesToHex(OnWire(useFraming, bytes))))
      ensures connected.Some? && failure.Some? ==>
        log == WithEntry(old(log), LogLine(time, "Write failed: " + failure.value))
    {
      if connected.None? {
        AppendLog(time, "No device");
        return;
      }
      var payload := if useFraming then BuildFramed(bytes) else bytes;
      writes := writes + [payload];
      if failure.None? {
        AppendLog(time, "TX: " + BytesToHex(payload));
      } else {
        AppendLog(time, "Write failed: " + failure.value);
      }
    }

    /** The "Send Hex" button: decode the field, then sendBytes. */
    method SendHex(hex: seq<char>, time: string, failure: Option<string>)
      requires Valid()
      modifies this`log, this`writes
      ensures Valid()
      ensures connected.None? ==> writes == old(writes)
      ensures connected.Some? ==> writes == old(writes) + [OnWire(useFraming, HexBytes(hex))]
      ensures connected.None? ==> log == WithEntry(old(log), LogLine(time, "No device"))
      ensures connected.Some? && failure.None? ==>
        log == WithEntry(old(log), LogLine(time, "TX: " + BytesToHex(OnWire(useFraming, HexBytes(hex)))))
      ensures connected.Some? && failure.Some? ==>
        log == WithEntry(old(log), LogLine(time, "Write failed: " + failure.value))
    {
      var b := HexToBytes(hex);
      SendBytes(b, time, failure);
    }
  }
}

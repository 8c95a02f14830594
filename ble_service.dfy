/**
 * The BleService singleton: listener registry, inbound frame dispatch,
 * receive buffer, and the payload construction of each send operation.
 * The platform BLE library (scan, connect, characteristic write, notify)
 * is outside the model; its outcomes enter as parameters.
 */
module BleServiceModel {
  import opened Bytes
  import opened Wrappers
  import opened BleProtocol
  import opened Deframer

  /** A value handed to onMessage: a function, by identity, or anything else. */
  datatype Callback = Fn(ref: nat) | NotAFunction

  /** One call `listener(code, data)` made by notifyListeners. */
  datatype Delivery = Delivery(listener: Callback, code: byte, data: seq<byte>)

  /** An opaque handle for a connected peripheral. */
  type DeviceHandle = nat

  /** The calls notifyListeners makes: one per listener, in list order. */
  function Broadcast(listeners: seq<Callback>, code: byte, data: seq<byte>): seq<Delivery>
  {
    if listeners == [] then []
    else Broadcast(listeners[..|listeners| - 1], code, data)
         + [Delivery(listeners[|listeners| - 1], code, data)]
  }

  /** Every listener receives the call, in registration order, and nobody else. */
  lemma {:induction false} BroadcastInOrder(listeners: seq<Callback>, code: byte, data: seq<byte>)
    ensures |Broadcast(listeners, code, data)| == |listeners|
    ensures forall i :: 0 <= i < |listeners| ==>
      Broadcast(listeners, code, data)[i] == Delivery(listeners[i], code, data)
  {
    if listeners != [] {
      var init := listeners[..|listeners| - 1];
      BroadcastInOrder(init, code, data);
    }
  }

  /** The calls processFrame makes for one payload: none when it is empty. */
  function FrameDeliveries(listeners: seq<Callback>, payload: seq<byte>): seq<Delivery>
  {
    if |payload| == 0 then [] else Broadcast(listeners, payload[0], payload[1..])
  }

  /** processFrame applied to each payload in turn. */
  function DeliveriesOf(listeners: seq<Callback>, payloads: seq<seq<byte>>): seq<Delivery>
  {
    if payloads == [] then []
    else DeliveriesOf(listeners, payloads[..|payloads| - 1])
         + FrameDeliveries(listeners, payloads[|payloads| - 1])
  }

  /** Equal payload streams produce equal listener calls. */
  lemma {:induction false} DeliveriesAppend(listeners: seq<Callback>, a: seq<seq<byte>>, b: seq<seq<byte>>)
    ensures DeliveriesOf(listeners, a + b) == DeliveriesOf(listeners, a) + DeliveriesOf(listeners, b)
    decreases |b|
  {
    if b != [] {
      var b' := b[..|b| - 1];
      assert (a + b)[..|a + b| - 1] == a + b';
      DeliveriesAppend(listeners, a, b');
    } else {
      assert a + b == a;
    }
  }

  lemma DeliveriesSnoc(start: seq<Delivery>, listeners: seq<Callback>, done: seq<seq<byte>>, payload: seq<byte>)
    ensures start + DeliveriesOf(listeners, done + [payload])
         == start + DeliveriesOf(listeners, done) + FrameDeliveries(listeners, payload)
  {
    assert (done + [payload])[..|done|] == done;
  }

  /** The registry holds functions only, each at most once. */
  predicate DistinctFunctions(listeners: seq<Callback>)
  {
    && (forall i :: 0 <= i < |listeners| ==> listeners[i].Fn?)
    && (forall i, j :: 0 <= i < j < |listeners| ==> listeners[i] != listeners[j])
  }

  /** `new Uint8Array(|header| + |body|)`, the header bytes, then `out.set(body, |header|)`. */
  method WithHeader(header: seq<byte>, body: seq<byte>) returns (r: seq<byte>)
    ensures r == header + body
  {
    var out := new byte[|header| + |body|];
    forall i | 0 <= i < |header| {
      out[i] := header[i];
    }
    forall i | 0 <= i < |body| {
      out[|header| + i] := body[i];
    }
    r := out[..];
  }

  /** `out.set(src, at)`. */
  method SetAt(out: array<byte>, src: seq<byte>, at: nat)
    requires at + |src| <= out.Length
    modifies out
    ensures out[..at + |src|] == old(out[..at]) + src
    ensures out[at + |src|..] == old(out[at + |src|..])
  {
    forall i | 0 <= i < |src| {
      out[at + i] := src[i];
    }
  }

  /** `out[at] = x`, seen as extending the filled prefix `out[..at]`. */
  method PutAt(out: array<byte>, x: byte, at: nat)
    requires at < out.Length
    modifies out
    ensures out[..at + 1] == old(out[..at]) + [x]
    ensures out[at + 1..] == old(out[at + 1..])
  {
    out[at] := x;
  }

  /** sendCreateLobby's buffer, filled through the running offset `o`. */
  method CreateLobbyBytes(name: seq<byte>, psk: seq<byte>, lobbyId: seq<byte>) returns (r: seq<byte>)
    ensures r == CreateLobbyPayload(name, psk, lobbyId)
  {
    var total := 1 + 1 + |name| + 1 + |psk| + 1 + |lobbyId|;
    var out := new byte[total];
    var o := 0;
    assert out[..o] == [];
    PutAt(out, CMD_CREATE_LOBBY, o); o := o + 1;
    PutAt(out, LowByte(|name|), o); o := o + 1;
    SetAt(out, name, o); o := o + |name|;
    ghost var w1 := out[..o];
    assert w1 == [CMD_CREATE_LOBBY, LowByte(|name|)] + name;
    PutAt(out, LowByte(|psk|), o); o := o + 1;
    SetAt(out, psk, o); o := o + |psk|;
    ghost var w2 := out[..o];
    assert w2 == w1 + [LowByte(|psk|)] + psk;
    PutAt(out, LowByte(|lobbyId|), o); o := o + 1;
    SetAt(out, lobbyId, o);
    ghost var w3 := out[..o + |lobbyId|];
    assert w3 == w2 + [LowByte(|lobbyId|)] + lobbyId;
    assert out[..] == w3;
    r := out[..];
  }

  class BleService {
    var device: Option<DeviceHandle>
    var connected: bool
    var useFraming: bool
    var messageListeners: seq<Callback>
    var rxBuffer: seq<byte>
    /** The listener calls made so far, in order. */
    var deliveries: seq<Delivery>
    /** Every byte string handed to the characteristic write, in order. */
    var writes: seq<seq<byte>>

    ghost predicate Valid()
      reads this
    {
      DistinctFunctions(messageListeners) && Pending(rxBuffer)
    }

    constructor ()
      ensures Valid()
      ensures device == None && !connected && useFraming
      ensures messageListeners == [] && rxBuffer == []
      ensures deliveries == [] && writes == []
    {
      device := None;
      connected := false;
      useFraming := true;
      messageListeners := [];
      rxBuffer := [];
      deliveries := [];
      writes := [];
    }

    /** onMessage: register a function once; anything else is ignored. */
    method OnMessage(callback: Callback)
      requires Valid()
      modifies this`messageListeners
      ensures Valid()
      ensures messageListeners ==
        if callback.Fn? && callback !in old(messageListeners)
        then old(messageListeners) + [callback]
        else old(messageListeners)
    {
      if callback.Fn? && callback !in messageListeners {
        messageListeners := messageListeners + [callback];
      }
    }

    /** offMessage: splice out the callback; the others keep their order. */
    method OffMessage(callback: Callback)
      requires Valid()
      modifies this`messageListeners
      ensures Valid()
      ensures callback !in messageListeners
      ensures callback !in old(messageListeners) ==> messageListeners == old(messageListeners)
      ensures callback in old(messageListeners) ==>
        var k := IndexOf(old(messageListeners), callback);
        messageListeners == old(messageListeners)[..k] + old(messageListeners)[k + 1..]
    {
      var idx := IndexOf(messageListeners, callback);
      if idx != -1 {
        ghost var before := messageListeners;
        messageListeners := messageListeners[..idx] + messageListeners[idx + 1..];
        forall i | 0 <= i < |messageListeners|
          ensures messageListeners[i] != callback
        {
          if i < idx {
            assert messageListeners[i] == before[i];
          } else {
            assert messageListeners[i] == before[i + 1];
          }
        }
      }
    }

    method NotifyListeners(code: byte, data: seq<byte>)
      modifies this`deliveries
      ensures deliveries == old(deliveries) + Broadcast(messageListeners, code, data)
    {
      for i := 0 to |messageListeners|
        invariant deliveries == old(deliveries) + Broadcast(messageListeners[..i], code, data)
      {
        assert messageListeners[..i + 1][..i] == messageListeners[..i];
        deliveries := deliveries + [Delivery(messageListeners[i], code, data)];
      }
      assert messageListeners[..|messageListeners|] == messageListeners;
    }

    /** processFrame: split the opcode from the data; ignore an empty payload. */
    method ProcessFrame(payload: seq<byte>)
      modifies this`deliveries
      ensures deliveries == old(deliveries) + FrameDeliveries(messageListeners, payload)
    {
      if |payload| == 0 {
        return;
      }
      var code := payload[0];
      var data := payload[1..];
      NotifyListeners(code, data);
    }

    /** One pass of handleIncomingData's `while (true)` loop; `more` is false where it returns. */
    method DeframePass() returns (more: bool)
      modifies this`rxBuffer, this`deliveries
      ensures more == Step(old(rxBuffer)).Emit?
      ensures more ==> rxBuffer == Step(old(rxBuffer)).rest
      ensures more ==>
        deliveries == old(deliveries) + FrameDeliveries(messageListeners, Step(old(rxBuffer)).payload)
      ensures !more ==> rxBuffer == Step(old(rxBuffer)).buffer && deliveries == old(deliveries)
    {
      var idx := IndexOf(rxBuffer, FRAME_START_IN);
      if idx == -1 {
        if |rxBuffer| > RX_LIMIT {
          rxBuffer := [];
        }
        return false;
      }
      if idx > 0 {
        rxBuffer := rxBuffer[idx..];
      } else {
        assert rxBuffer[0..] == rxBuffer;
      }
      if |rxBuffer| < HEADER_SIZE {
        return false;
      }
      var len := rxBuffer[1] as int + 0x100 * (rxBuffer[2] as int);
      var totalNeeded := HEADER_SIZE + len;
      if |rxBuffer| < totalNeeded {
        return false;
      }
      var payload := rxBuffer[HEADER_SIZE..HEADER_SIZE + len];
      ProcessFrame(payload);
      rxBuffer := rxBuffer[totalNeeded..];
      return true;
    }

    /** handleIncomingData: append a notification and dispatch every complete frame. */
    method HandleIncomingData(data: seq<byte>)
      requires Valid()
      modifies this`rxBuffer, this`deliveries
      ensures Valid()
      ensures rxBuffer == Deframe(old(rxBuffer) + data).rest
      ensures deliveries == old(deliveries)
        + DeliveriesOf(messageListeners, Deframe(old(rxBuffer) + data).payloads)
    {
      rxBuffer := rxBuffer + data;
      ghost var all := Deframe(rxBuffer);
      ghost var start := deliveries;
      RestIsPending(rxBuffer);
      ghost var done: seq<seq<byte>> := [];
      EmptyPrefix(all.payloads);
      while true
        invariant done + Deframe(rxBuffer).payloads == all.payloads
        invariant Deframe(rxBuffer).rest == all.rest
        invariant deliveries == start + DeliveriesOf(messageListeners, done)
        decreases |rxBuffer|
      {
        ghost var before := rxBuffer;
        var more := DeframePass();
        if !more {
          WaitAccounting(done, before, all);
          return;
        }
        ghost var payload := Step(before).payload;
        assert done + [payload] + Deframe(rxBuffer).payloads == all.payloads
            && Deframe(rxBuffer).rest == all.rest by {
          EmitAccounting(done, before, all);
        }
        assert deliveries == start + DeliveriesOf(messageListeners, done + [payload]) by {
          DeliveriesSnoc(start, messageListeners, done, payload);
        }
        done := done + [payload];
      }
    }

    /** isConnected. */
    predicate IsConnected()
      reads this
    {
      connected && device.Some?
    }

    /** The state effect of a successful connectToDevice. */
    method OnConnected(d: DeviceHandle)
      requires Valid()
      modifies this`device, this`connected
      ensures Valid()
      ensures device == Some(d) && connected && IsConnected()
    {
      device := Some(d);
      connected := true;
    }

    /** The onDisconnected callback: the link drops, rxBuffer is kept. */
    method OnDeviceDisconnected()
      requires Valid()
      modifies this`device, this`connected
      ensures Valid()
      ensures device == None && !connected && !IsConnected()
    {
      connected := false;
      device := None;
    }

    /** disconnect: forget the device and any partial frame. */
    method Disconnect()
      requires Valid()
      modifies this`device, this`connected, this`rxBuffer
      ensures Valid()
      ensures device == None && !connected && rxBuffer == []
      ensures !IsConnected()
    {
      device := None;
      connected := false;
      rxBuffer := [];
    }

    /** The bytes put on the wire for a payload. */
    function Wire(bytes: seq<byte>): seq<byte>
      reads this
    {
      OnWire(useFraming, bytes)
    }

    /** Whether ensureConnected succeeds, given what a fallback scan-and-connect yields. */
    predicate Reachable(reconnect: Option<DeviceHandle>)
      reads this
    {
      IsConnected() || reconnect.Some?
    }

    /**
     * sendRawBytes: ensureConnected (reusing the link, or connecting to the
     * device `reconnect` a fresh scan found), then one write whose outcome
     * is `writeOk`.
     */
    method SendRawBytes(bytes: seq<byte>, reconnect: Option<DeviceHandle>, writeOk: bool)
      returns (ok: bool)
      requires Valid()
      modifies this`device, this`connected, this`writes
      ensures Valid()
      ensures ok == (old(Reachable(reconnect)) && writeOk)
      ensures writes == old(writes) + (if old(Reachable(reconnect)) then [Wire(bytes)] else [])
      ensures old(IsConnected()) ==> device == old(device) && connected
      ensures !old(IsConnected()) && reconnect.Some? ==> device == reconnect && connected
      ensures !old(Reachable(reconnect)) ==> device == old(device) && connected == old(connected)
    {
      if !IsConnected() {
        if reconnect.None? {
          return false;
        }
        OnConnected(reconnect.value);
      }
      var payload := if useFraming then BuildFramed(bytes) else bytes;
      writes := writes + [payload];
      ok := writeOk;
    }

    method SendCreateLobby(lobbyId: seq<byte>, psk: seq<byte>, name: seq<byte>,
                           reconnect: Option<DeviceHandle>, writeOk: bool)
      returns (ok: bool)
      requires Valid()
      modifies this`device, this`connected, this`writes
      ensures Valid()
      ensures ok == (old(Reachable(reconnect)) && writeOk)
      ensures writes == old(writes) +
        (if old(Reachable(reconnect)) then [Wire(CreateLobbyPayload(name, psk, lobbyId))] else [])
      ensures old(IsConnected()) ==> device == old(device) && connected
      ensures !old(IsConnected()) && reconnect.Some? ==> device == reconnect && connected
      ensures !old(Reachable(reconnect)) ==> device == old(device) && connected == old(connected)
    {
      var out := CreateLobbyBytes(name, psk, lobbyId);
      ok := SendRawBytes(out, reconnect, writeOk);
    }

    /** sendProfile, with the profile's JSON text already serialised. */
    method SendProfile(json: seq<byte>, reconnect: Option<DeviceHandle>, writeOk: bool)
      returns (ok: bool)
      requires Valid()
      modifies this`device, this`connected, this`writes
      ensures Valid()
      ensures ok == (old(Reachable(reconnect)) && writeOk)
      ensures writes == old(writes) +
        (if old(Reachable(reconnect)) then [Wire(ProfilePayload(json))] else [])
      ensures old(IsConnected()) ==> device == old(device) && connected
      ensures !old(IsConnected()) && reconnect.Some? ==> device == reconnect && connected
      ensures !old(Reachable(reconnect)) ==> device == old(device) && connected == old(connected)
    {
      var out := WithHeader([CMD_SET_PROFILE], json);
      ok := SendRawBytes(out, reconnect, writeOk);
    }

    method SendJoinLobby(lobbyId: seq<byte>, reconnect: Option<DeviceHandle>, writeOk: bool)
      returns (ok: bool)
      requires Valid()
      modifies this`device, this`connected, this`writes
      ensures Valid()
      ensures ok == (old(Reachable(reconnect)) && writeOk)
      ensures writes == old(writes) +
        (if old(Reachable(reconnect)) then [Wire(JoinLobbyPayload(lobbyId))] else [])
      ensures old(IsConnected()) ==> device == old(device) && connected
      ensures !old(IsConnected()) && reconnect.Some? ==> device == reconnect && connected
      ensures !old(Reachable(reconnect)) ==> device == old(device) && connected == old(connected)
    {
      var out := WithHeader([CMD_JOIN_LOBBY, JOIN_MARKER], lobbyId);
      ok := SendRawBytes(out, reconnect, writeOk);
    }

    method SendText(dest: int, text: seq<byte>, reconnect: Option<DeviceHandle>, writeOk: bool)
      returns (ok: bool)
      requires Valid()
      modifies this`device, this`connected, this`writes
      ensures Valid()
      ensures ok == (old(Reachable(reconnect)) && writeOk)
      ensures writes == old(writes) +
        (if old(Reachable(reconnect)) then [Wire(TextPayload(dest, text))] else [])
      ensures old(IsConnected()) ==> device == old(device) && connected
      ensures !old(IsConnected()) && reconnect.Some? ==> device == reconnect && connected
      ensures !old(Reachable(reconnect)) ==> device == old(device) && connected == old(connected)
    {
      var out := WithHeader([CMD_SEND_TXT_MSG, LowByte(dest)], text);
      ok := SendRawBytes(out, reconnect, writeOk);
    }

    /** sendGPS, given the coordinates already rounded to microdegrees. */
    method SendGps(latMicro: int, lonMicro: int, reconnect: Option<DeviceHandle>, writeOk: bool)
      returns (ok: bool)
      requires Valid()
      modifies this`device, this`connected, this`writes
      ensures Valid()
      ensures ok == (old(Reachable(reconnect)) && writeOk)
      ensures writes == old(writes) +
        (if old(Reachable(reconnect)) then [Wire(GpsPayload(latMicro, lonMicro))] else [])
      ensures old(IsConnected()) ==> device == old(device) && connected
      ensures !old(IsConnected()) && reconnect.Some? ==> device == reconnect && connected
      ensures !old(Reachable(reconnect)) ==> device == old(device) && connected == old(connected)
    {
      var out := [CMD_SET_DEVICE_GPS,
                  ShiftedByte(latMicro, 0), ShiftedByte(latMicro, 1),
                  ShiftedByte(latMicro, 2), ShiftedByte(latMicro, 3),
                  ShiftedByte(lonMicro, 0), ShiftedByte(lonMicro, 1),
                  ShiftedByte(lonMicro, 2), ShiftedByte(lonMicro, 3)];
      assert out == GpsPayload(latMicro, lonMicro);
      ok := SendRawBytes(out, reconnect, writeOk);
    }

    method QueryDevice(reconnect: Option<DeviceHandle>, writeOk: bool)
      returns (ok: bool)
      requires Valid()
      modifies this`device, this`connected, this`writes
      ensures Valid()
      ensures ok == (old(Reachable(reconnect)) && writeOk)
      ensures writes == old(writes) +
        (if old(Reachable(reconnect)) then [Wire(QueryPayload())] else [])
      ensures old(IsConnected()) ==> device == old(device) && connected
      ensures !old(IsConnected()) && reconnect.Some? ==> device == reconnect && connected
      ensures !old(Reachable(reconnect)) ==> device == old(device) && connected == old(connected)
    {
      ok := SendRawBytes([QUERY_OPCODE], reconnect, writeOk);
    }
  }
}

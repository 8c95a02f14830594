/**
 * The LoRa context provider: the connection state machine the screens
 * observe, the current lobby, the local message list and the message
 * subscribers. Its actions are the mock versions the app ships: the radio
 * calls are commented out, the waits are simulated, and clock readings
 * (message ids and times) enter as parameters.
 */
module LoRaContext {
  import opened Wrappers

  datatype ConnState = Disconnected | Scanning | Connecting | Connected | Error

  datatype Device = Device(id: string, name: string, rssi: int)

  /** maxMembers of a lobby: absent (a joined lobby), a number, or NaN from parseInt. */
  datatype MemberLimit = Unset | Limit(n: int) | NotANumber

  datatype Lobby = Lobby(id: string, name: string, maxMembers: MemberLimit)

  datatype Message = Message(id: int, text: string, sender: string, destination: string, time: string)

  /** A subscriber, by function identity. */
  type Subscriber = nat

  const NOT_CONNECTED: string := "Not connected to a device"
  const DEVICE_PREFIX: string := "HikeSafe_"

  /** The devices the mock scan reports. */
  function MockDevices(): seq<Device>
  {
    [ Device("1", "HikeSafe_102D", -45),
      Device("2", "HikeSafe_143J", -60),
      Device("3", "HikeSafe_722R", -52) ]
  }

  /** The mock scan finds three distinct devices, every one named with the HikeSafe_ prefix. */
  lemma MockDevicesAreHikeSafe()
    ensures |MockDevices()| == 3
    ensures forall d :: d in MockDevices() ==> DEVICE_PREFIX <= d.name
    ensures forall i, j :: 0 <= i < j < |MockDevices()| ==> MockDevices()[i].id != MockDevices()[j].id
  {
    var ds := MockDevices();
    assert DEVICE_PREFIX == ds[0].name[..9] == ds[1].name[..9] == ds[2].name[..9];
  }

  /** `list.filter(cb => cb !== callback)`. */
  function Without(s: seq<Subscriber>, x: Subscriber): (r: seq<Subscriber>)
    ensures x !in r
    ensures forall y :: y in r <==> y in s && y != x
    ensures |r| <= |s|
  {
    if s == [] then []
    else if s[0] == x then Without(s[1..], x)
    else [s[0]] + Without(s[1..], x)
  }

  /** Filtering distributes over concatenation: the survivors keep their order. */
  lemma {:induction false} WithoutAppend(a: seq<Subscriber>, b: seq<Subscriber>, x: Subscriber)
    ensures Without(a + b, x) == Without(a, x) + Without(b, x)
  {
    if a == [] {
      assert a + b == b;
    } else {
      assert (a + b)[1..] == a[1..] + b;
      WithoutAppend(a[1..], b, x);
    }
  }

  /** Every copy of the callback goes; every other subscriber keeps its count. */
  lemma {:induction false} WithoutCounts(s: seq<Subscriber>, x: Subscriber)
    ensures multiset(Without(s, x))[x] == 0
    ensures forall y :: y != x ==> multiset(Without(s, x))[y] == multiset(s)[y]
    ensures |Without(s, x)| == |s| - multiset(s)[x]
  {
    if s != [] {
      WithoutCounts(s[1..], x);
      assert s == [s[0]] + s[1..];
    }
  }

  /** Unsubscribing a callback that was never subscribed changes nothing. */
  lemma {:induction false} WithoutAbsent(s: seq<Subscriber>, x: Subscriber)
    requires x !in s
    ensures Without(s, x) == s
  {
    if s != [] {
      WithoutAbsent(s[1..], x);
      assert s == [s[0]] + s[1..];
    }
  }

  class LoRaSession {
    var connectionState: ConnState
    var connectedDevice: Option<Device>
    var availableDevices: seq<Device>
    var error: Option<string>
    var currentLobby: Option<Lobby>
    var lobbyMembers: seq<string>
    var messages: seq<Message>
    var listeners: seq<Subscriber>
    /** Every value setConnectionState has been given, the initial one first. */
    ghost var trace: seq<ConnState>

    /**
     * The trace ends in the current state, the mock actions never reach
     * ERROR, and CONNECTED always comes with a device.
     */
    ghost predicate Valid()
      reads this
    {
      && |trace| > 0
      && trace[|trace| - 1] == connectionState
      && Error !in trace
      && (connectionState == Connected ==> connectedDevice.Some?)
    }

    constructor()
      ensures Valid()
      ensures connectionState == Disconnected && connectedDevice == None
      ensures availableDevices == [] && error == None && currentLobby == None
      ensures lobbyMembers == [] && messages == [] && listeners == []
    {
      connectionState := Disconnected;
      connectedDevice := None;
      availableDevices := [];
      error := None;
      currentLobby := None;
      lobbyMembers := [];
      messages := [];
      listeners := [];
      trace := [Disconnected];
    }

    /** The computed isConnected. */
    predicate IsConnected()
      reads this
    {
      connectionState == Connected
    }

    predicate IsScanning()
      reads this
    {
      connectionState == Scanning
    }

    predicate IsConnecting()
      reads this
    {
      connectionState == Connecting
    }

    method SetConnectionState(s: ConnState)
      modifies this`connectionState, this`trace
      ensures connectionState == s && trace == old(trace) + [s]
    {
      connectionState := s;
      trace := trace + [s];
    }

    /**
     * scanForDevices: SCANNING, then DISCONNECTED with the mock devices,
     * whatever the state was before (a connected device stays recorded).
     */
    method ScanForDevices() returns (devices: seq<Device>)
      requires Valid()
      modifies this`connectionState, this`trace, this`error, this`availableDevices
      ensures Valid()
      ensures trace == old(trace) + [Scanning, Disconnected]
      ensures connectionState == Disconnected && !IsConnected()
      ensures error == None
      ensures availableDevices == MockDevices() && devices == MockDevices()
    {
      SetConnectionState(Scanning);
      error := None;
      devices := MockDevices();
      availableDevices := devices;
      SetConnectionState(Disconnected);
    }

    /** connectToDevice: CONNECTING, then CONNECTED to `device`; always succeeds. */
    method ConnectToDevice(device: Device) returns (ok: bool)
      requires Valid()
      modifies this`connectionState, this`trace, this`error, this`connectedDevice
      ensures Valid()
      ensures trace == old(trace) + [Connecting, Connected]
      ensures error == None && connectedDevice == Some(device)
      ensures IsConnected() && ok
    {
      SetConnectionState(Connecting);
      error := None;
      connectedDevice := Some(device);
      SetConnectionState(Connected);
      ok := true;
    }

    /** disconnect: forget device and lobby; the messages stay. */
    method Disconnect() returns (ok: bool)
      requires Valid()
      modifies this`connectionState, this`trace, this`connectedDevice, this`currentLobby, this`lobbyMembers
      ensures Valid()
      ensures trace == old(trace) + [Disconnected]
      ensures connectedDevice == None && connectionState == Disconnected
      ensures currentLobby == None && lobbyMembers == []
      ensures ok
    {
      connectedDevice := None;
      SetConnectionState(Disconnected);
      currentLobby := None;
      lobbyMembers := [];
      ok := true;
    }

    /** createLobby, with `parseInt(maxMembers)` given as `maxMembers`. */
    method CreateLobby(lobbyName: string, groupId: string, maxMembers: MemberLimit) returns (ok: bool)
      requires Valid()
      modifies this`error, this`currentLobby
      ensures Valid()
      ensures ok == old(IsConnected())
      ensures !ok ==> error == Some(NOT_CONNECTED) && currentLobby == old(currentLobby)
      ensures ok ==> error == old(error) && currentLobby == Some(Lobby(groupId, lobbyName, maxMembers))
    {
      if connectionState != Connected {
        error := Some(NOT_CONNECTED);
        return false;
      }
      currentLobby := Some(Lobby(groupId, lobbyName, maxMembers));
      ok := true;
    }

    /** joinLobby: the lobby is named after its group id. */
    method JoinLobby(groupId: string) returns (ok: bool)
      requires Valid()
      modifies this`error, this`currentLobby
      ensures Valid()
      ensures ok == old(IsConnected())
      ensures !ok ==> error == Some(NOT_CONNECTED) && currentLobby == old(currentLobby)
      ensures ok ==> error == old(error) && currentLobby == Some(Lobby(groupId, "Lobby " + groupId, Unset))
    {
      if connectionState != Connected {
        error := Some(NOT_CONNECTED);
        return false;
      }
      currentLobby := Some(Lobby(groupId, "Lobby " + groupId, Unset));
      ok := true;
    }

    /** sendMessage: append one message of ours, stamped `id` and `time`. */
    method SendMessage(destination: string, text: string, id: int, time: string) returns (ok: bool)
      requires Valid()
      modifies this`error, this`messages
      ensures Valid()
      ensures ok == old(IsConnected())
      ensures !ok ==> error == Some(NOT_CONNECTED) && messages == old(messages)
      ensures ok ==> error == old(error)
      ensures ok ==> messages == old(messages) + [Message(id, text, "me", destination, time)]
    {
      if connectionState != Connected {
        error := Some(NOT_CONNECTED);
        return false;
      }
      messages := messages + [Message(id, text, "me", destination, time)];
      ok := true;
    }

    /** sendLocation: succeeds exactly when connected, and changes nothing. */
    method SendLocation(latitude: int, longitude: int) returns (ok: bool)
      ensures ok <==> IsConnected()
    {
      if connectionState != Connected {
        return false;
      }
      ok := true;
    }

    /** sendProfile: succeeds exactly when connected, and changes nothing. */
    method SendProfile(profile: seq<(string, string)>) returns (ok: bool)
      ensures ok <==> IsConnected()
    {
      if connectionState != Connected {
        return false;
      }
      ok := true;
    }

    /** subscribeToMessages: push, duplicates included. */
    method SubscribeToMessages(callback: Subscriber)
      modifies this`listeners
      ensures listeners == old(listeners) + [callback]
    {
      listeners := listeners + [callback];
    }

    /** The function subscribeToMessages returns, called. */
    method Unsubscribe(callback: Subscriber)
      modifies this`listeners
      ensures listeners == Without(old(listeners), callback)
    {
      listeners := Without(listeners, callback);
    }

    /** clearError. */
    method ClearError()
      modifies this`error
      ensures error == None
    {
      error := None;
    }
  }

  /** Subscribing then unsubscribing a fresh callback restores the list. */
  lemma SubscribeUnsubscribe(s: seq<Subscriber>, x: Subscriber)
    requires x !in s
    ensures Without(s + [x], x) == s
  {
    WithoutAppend(s, [x], x);
    WithoutAbsent(s, x);
    assert Without([x], x) == [];
  }
}

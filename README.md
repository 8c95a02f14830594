# HikeSafe phone-side BLE link, in Dafny

This project models the core of the HikeSafe mobile app: the code that talks to
the HikeSafe LoRa device over the Nordic UART BLE service, and the small pieces
of screen logic that decide what is sent. It covers the following files.

- **`BleService` singleton** (`src/services/BleService.js`):
  - the listener registry and the dispatch of inbound frames;
  - the receive buffer and its `0x3E`-marked length-prefixed deframing loop;
  - the `0x3C` outbound frame;
  - the byte layout of every command the app sends (create lobby, join lobby,
    text, GPS, profile, device query);
  - the connection flags.
- **`BleClient` debug component** (`src/components/BleClient.js`):
  - the hex codec of its manual-send field and log;
  - the create/join lobby builders;
  - the 200-line newest-first log;
  - `sendBytes`, which chooses between a framed and a bare write.
- **`LoRaContext` provider** (`src/context/LoRaContext.js`):
  - the connection state machine the screens observe;
  - the current lobby;
  - the local message list;
  - the message subscribers;
  - the mock actions the app ships.
- **Onboarding details screen** (`src/screens/OnboardingDetails.js`): the
  contact phone and name validators, and the accept handler that sends the
  profile only when both pass.
- **Compass tab** (`src/screens/tabs/CompassTab.js`): `getCardinalDirection`.

## Structure

| File | Module | What it holds |
|---|---|---|
| `wrappers.dfy` | `Wrappers` | `Option` |
| `bytes.dfy` | `Bytes` | bytes, JavaScript's `ToInt32`, `& 0xff` and `>>`, and the little-endian int32 layout |
| `ble_protocol.dfy` | `BleProtocol` | the outbound frame, each command's payload, and a `Command` encoder with the decoder the layouts admit |
| `deframer.dfy` | `Deframer` | a pure definition of `handleIncomingData`'s loop (`Step`, `Deframe`) and its properties |
| `ble_service.dfy` | `BleServiceModel` | the `BleService` class, whose methods are proved against those definitions |
| `ble_client.dfy` | `BleClient` | the hex codec, the builders, the log and the `DebugClient` class |
| `lora_context.dfy` | `LoRaContext` | the `LoRaSession` class and the subscriber filter |
| `onboarding.dfy` | `Onboarding` | `trim`, the validators and the `DetailsForm` class |
| `compass.dfy` | `Compass` | the heading label |

How the model represents what it cannot express directly:

- **Text.** Text arguments are taken as their UTF-8 bytes.
- **Listener calls.** Listeners are function identities. The calls made to them
  are recorded in the service's `deliveries` list.
- **Characteristic writes.** Writes are recorded in `writes`.
- **Outcomes and readings from outside.** These are parameters: whether the
  write succeeds, which device a reconnect scan finds, the clock readings used
  for ids and log times, and the value of `parseInt(maxMembers)`.

Some behaviours of the code that a reader of the protocol might not expect, all
modelled as the code has them:

- **Framing markers.** Outbound frames start with `0x3C` but the receive loop
  looks for `0x3E`. An app frame is therefore not read back by the app's own
  deframer. The framing properties are proved with the inbound marker.
- **Create-lobby lengths.** The length bytes of create-lobby are written as
  `length & 0xff` instead of being rejected above 255 (`CreateLobbyLengthWraps`).
- **Join-lobby payload.** It is `[47, 0xFE, lobbyId...]`, with no secret.
- **Device query.** `queryDevice` writes opcode 1, not `CMD_DEVICE_QUERY` (22).

## Model

| member | source | states |
|---|---|---|
| Bytes.ToInt32 | src/services/BleService.js:348-355 | the 32-bit signed value bitwise operators work on: in int32 range, congruent to the input modulo 2^32, the input itself when it fits |
| Bytes.LowByte | src/services/BleService.js:255 | `v & 0xff` is a byte congruent to v modulo 256, and is v for 0 <= v < 256 |
| Bytes.LowBytesOfAnyInt | src/services/BleService.js:255-256 | for every integer, `v & 0xff` is v mod 256 and `(v >> 8) & 0xff` is floor(v / 256) mod 256 |
| Bytes.Int32RoundTrip | src/services/BleService.js:348-355 | the four little-endian bytes of v read back as ToInt32(v), hence as v for every int32 |
| Bytes.Int32BytesRoundTrip | src/services/BleService.js:348-355 | every four bytes are the little-endian layout of the int32 they read as |
| BleProtocol.BuildFramed | src/services/BleService.js:251-261 | the frame is 3 bytes longer than the payload, starts with the outbound marker 0x3C, and ends with the payload unchanged |
| BleProtocol.FramedLayout | src/services/BleService.js:251-261 | a frame is 3 + n bytes: the marker, the length field, then the payload verbatim; the length field is n mod 65536, so exactly n when n < 65536 |
| BleProtocol.OnWireFramesIff | src/services/BleService.js:281 | the bytes written are the frame exactly when useFraming is on, the bare payload exactly when it is off, and end with the payload either way |
| BleProtocol.QueryUsesShadowedOpcode | src/services/BleService.js:362-366 | queryDevice writes the single byte 1, and never the declared CMD_DEVICE_QUERY 22 |
| BleProtocol.CreateLobbyRoundTrip | src/services/BleService.js:291-306 | with every field shorter than 256 bytes, the payload is 4 + the field lengths long and reads back as the same name, psk and lobby id |
| BleProtocol.GpsRoundTrip | src/services/BleService.js:340-360 | the GPS payload is 9 bytes and reads back as both coordinates reduced to int32 |
| BleProtocol.EncodeDecode | src/services/BleService.js:291-366 | every well-formed command is read back from its payload |
| BleProtocol.CreateLobbyBytesRoundTrip | src/services/BleService.js:291-306 | a create-lobby payload that reads as a command is well-formed and is exactly that command's layout |
| BleProtocol.GpsBytesRoundTrip | src/services/BleService.js:345-355 | any 9-byte GPS payload is exactly the layout of the coordinates it reads as |
| BleProtocol.DecodeEncode | src/services/BleService.js:291-366 | every payload that reads as a command is well-formed and is exactly that command's bytes: with EncodeDecode, the layouts are a bijection on well-formed commands |
| BleProtocol.CreateLobbyLengthWraps | src/services/BleService.js:299 | a 256-byte name is announced with length byte 0, so that payload no longer reads as the command it was built from |
| Deframer.IndexOf | src/services/BleService.js:207 | -1 exactly when the byte is absent, otherwise an index holding it |
| Deframer.IndexOfFirst | src/services/BleService.js:207 | no earlier index holds the byte: indexOf finds the first marker |
| Deframer.Step | src/services/BleService.js:207-221 | a pass that hands a payload on consumes at least the header and the payload |
| Deframer.Deframe | src/services/BleService.js:202-222 | the loop run until it returns: what it leaves is no longer than the buffer, and it hands on at most one payload per 3 bytes |
| Deframer.DeframeFrameFirst | src/services/BleService.js:213-221 | a complete frame at the head of the buffer is the first payload, and decoding resumes just after it |
| Deframer.DeframeIncompleteFirst | src/services/BleService.js:213-217 | a marker with fewer than 3 + len bytes behind it ends the loop with nothing delivered and the buffer kept |
| Deframer.DeframeFromMarker | src/services/BleService.js:207-212 | the bytes before the first inbound marker change neither the payloads nor what remains |
| Deframer.PayloadsFromMarker | src/services/BleService.js:207-212 | the payloads depend only on the buffer from its first marker on |
| Deframer.JunkDropped | src/services/BleService.js:207-212 | marker-free junk in front of a buffer with a marker changes nothing |
| Deframer.RestIsPending | src/services/BleService.js:206-222 | what the loop leaves is empty, at most 256 marker-free bytes, or the start of an incomplete frame: marker-free noise never accumulates past 256 bytes |
| Deframer.PendingIsSettled | src/services/BleService.js:202-222 | a buffer left by a previous call yields nothing until more bytes arrive |
| Deframer.FrameThenMore | src/services/BleService.js:215-221 | a complete frame yields its payload and the bytes after it are decoded as if alone |
| Deframer.SingleFrame | src/services/BleService.js:202-222 | `[0x3E, lo, hi] ++ p` with lo + 256 hi equal to the length of p yields exactly p and leaves nothing |
| Deframer.PartialFrameWaits | src/services/BleService.js:213-217 | every proper prefix of a frame yields nothing and is kept whole |
| Deframer.SplitDelivery | src/services/BleService.js:202-222 | delivering x then c yields the payloads of delivering x ++ c at once |
| Deframer.ChunkingIrrelevant | src/services/BleService.js:202-222 | from any buffer a previous call can leave, however the stream is cut into notifications, processFrame sees the same payloads in the same order |
| Deframer.StreamSplitIrrelevant | src/services/BleService.js:202-222 | from an empty buffer, the payloads depend only on the concatenated stream |
| BleServiceModel.BroadcastInOrder | src/services/BleService.js:98-106 | notifyListeners makes one call per listener, in registration order, with the same code and data |
| BleServiceModel.DeliveriesAppend | src/services/BleService.js:225-234 | the listener calls for two payload runs are the calls for the first then those for the second |
| BleServiceModel.WithHeader | src/services/BleService.js:313-315 | a Uint8Array filled with the header then the body set after it holds header ++ body |
| BleServiceModel.CreateLobbyBytes | src/services/BleService.js:295-304 | the buffer filled through the running offset equals the create-lobby layout |
| BleServiceModel.BleService.constructor | src/services/BleService.js:71-80 | no device, not connected, framing on, no listeners, empty buffer |
| BleServiceModel.BleService.OnMessage | src/services/BleService.js:83-87 | a function not yet registered is appended; anything else leaves the list unchanged; the list stays duplicate-free |
| BleServiceModel.BleService.OffMessage | src/services/BleService.js:90-95 | the callback is spliced out at its index, the others keep their order, and an absent callback changes nothing |
| BleServiceModel.BleService.NotifyListeners | src/services/BleService.js:98-106 | the calls made are Broadcast of the current listeners |
| BleServiceModel.BleService.ProcessFrame | src/services/BleService.js:225-234 | an empty payload makes no call; otherwise each listener gets the first byte as code and the rest as data |
| BleServiceModel.BleService.DeframePass | src/services/BleService.js:206-222 | one pass of the loop does what Step says: it continues exactly when a frame was emitted, leaving Step's rest, else leaves Step's buffer |
| BleServiceModel.BleService.HandleIncomingData | src/services/BleService.js:202-223 | the buffer ends as Deframe(old buffer ++ data).rest, and the listener calls are those for Deframe's payloads, in order |
| BleServiceModel.BleService.OnConnected | src/services/BleService.js:157-158 | the device is recorded and the service reports connected |
| BleServiceModel.BleService.OnDeviceDisconnected | src/services/BleService.js:164-174 | the link drops and the service reports not connected |
| BleServiceModel.BleService.Disconnect | src/services/BleService.js:236-249 | no device, not connected, and any partial frame discarded |
| BleServiceModel.BleService.SendRawBytes | src/services/BleService.js:271-289 | succeeds exactly when a device is reachable and the write succeeds; writes the framed or bare payload once, only when reachable; an existing link is kept, a reconnect records the scanned device as connected, and an unreachable device changes nothing |
| BleServiceModel.BleService.SendCreateLobby | src/services/BleService.js:291-306 | writes the create-lobby layout of name, psk and id through sendRawBytes; the device and link end as sendRawBytes leaves them |
| BleServiceModel.BleService.SendProfile | src/services/BleService.js:308-320 | writes opcode 44 then the JSON bytes through sendRawBytes; the device and link end as sendRawBytes leaves them |
| BleServiceModel.BleService.SendJoinLobby | src/services/BleService.js:322-329 | writes `[47, 0xFE] ++ lobbyId` through sendRawBytes; the device and link end as sendRawBytes leaves them |
| BleServiceModel.BleService.SendText | src/services/BleService.js:331-338 | writes `[2, dest & 0xff] ++ text` through sendRawBytes; the device and link end as sendRawBytes leaves them |
| BleServiceModel.BleService.SendGps | src/services/BleService.js:345-356 | writes opcode 48 then both coordinates as little-endian int32 through sendRawBytes; the device and link end as sendRawBytes leaves them |
| BleServiceModel.BleService.QueryDevice | src/services/BleService.js:362-367 | writes the single byte 1 through sendRawBytes; the device and link end as sendRawBytes leaves them |
| BleClient.Clean | src/components/BleClient.js:122 | the cleaned text holds only hex digits and is no longer than the input |
| BleClient.DecodePairs | src/components/BleClient.js:122 | half as many bytes as digits, rounded down |
| BleClient.DecodePairsAt | src/components/BleClient.js:122 | byte k is parseInt of digits 2k and 2k+1 |
| BleClient.HexBytes | src/components/BleClient.js:122 | `hexToBytes`: one byte per complete pair of the hex digits left after cleaning |
| BleClient.BytesToHex | src/components/BleClient.js:123 | two upper-case hex digits per byte |
| BleClient.HexToBytes | src/components/BleClient.js:122 | the Uint8Array filled pair by pair is HexBytes(hex), half as long as the cleaned text, rounded down |
| BleClient.JunkIgnored | src/components/BleClient.js:122 | a non-hex character anywhere does not change the bytes |
| BleClient.OddDigitDropped | src/components/BleClient.js:122 | an odd trailing digit is dropped |
| BleClient.CleanKeepsHex | src/components/BleClient.js:122 | text that is all hex digits is not changed by cleaning |
| BleClient.HexRoundTrip | src/components/BleClient.js:122-123 | hexToBytes(bytesToHex(b)) == b for every b |
| BleClient.HexUpperRoundTrip | src/components/BleClient.js:122-123 | for an even run of digits, bytesToHex(hexToBytes(c)) is c in upper case |
| BleClient.BuildCreateLobby | src/components/BleClient.js:129 | the buffer is the create-lobby layout, with a falsy name or psk as an empty field |
| BleClient.CreateLobbyButton | src/components/BleClient.js:168 | the "Create Lobby" button sends `[46, 0, 0, 4, 't', 'e', 's', 't']` |
| BleClient.BuildJoinLobby | src/components/BleClient.js:131 | the buffer is `[47, 0xFE] ++ lobbyId` |
| BleClient.WithEntry | src/components/BleClient.js:63 | the new entry is first, the old log follows, and the length is capped at 200 |
| BleClient.NewestFirst | src/components/BleClient.js:63 | after any run of appends, the log holds min(old + appended, 200) lines, the latest appended ones newest first |
| BleClient.DebugClient.constructor | src/components/BleClient.js:36-40 | no device, empty log, framing on |
| BleClient.DebugClient.AppendLog | src/components/BleClient.js:63 | prepends "time - text" and keeps at most 200 lines |
| BleClient.DebugClient.ConnectTo | src/components/BleClient.js:82-96 | logs "Connecting: " + the device's name or id and "Scan stopped"; on success records the device and logs "Connected: " + its id, otherwise keeps the old device and logs "Connect failed: " + the reason |
| BleClient.DebugClient.Disconnect | src/components/BleClient.js:116 | without a device nothing happens; otherwise logs "Disconnecting", then forgets the device and logs "Disconnected", or keeps it and logs "Disconnect failed" |
| BleClient.DebugClient.SendBytes | src/components/BleClient.js:118-120 | without a device, logs "No device" and writes nothing; otherwise writes the framed or bare payload once and logs "TX: " + its hex, or "Write failed: " + the reason |
| BleClient.DebugClient.SendHex | src/components/BleClient.js:157 | the write is the decoded field, framed or bare; the log gains "No device" without a device, otherwise "TX: " + the hex of what was written, or "Write failed: " + the reason |
| LoRaContext.MockDevicesAreHikeSafe | src/context/LoRaContext.js:48-52 | the mock scan reports three devices with distinct ids, all named with the HikeSafe_ prefix |
| LoRaContext.Without | src/context/LoRaContext.js:227 | the filter keeps exactly the subscribers other than the callback |
| LoRaContext.WithoutAppend | src/context/LoRaContext.js:227 | filtering keeps the survivors' order |
| LoRaContext.WithoutCounts | src/context/LoRaContext.js:227 | every copy of the callback goes; every other subscriber keeps its multiplicity |
| LoRaContext.WithoutAbsent | src/context/LoRaContext.js:227 | unsubscribing a callback never subscribed changes nothing |
| LoRaContext.SubscribeUnsubscribe | src/context/LoRaContext.js:224-228 | subscribing a fresh callback then calling the returned function restores the list |
| LoRaContext.LoRaSession.constructor | src/context/LoRaContext.js:20-31 | DISCONNECTED, no device, lobby, error, messages or subscribers |
| LoRaContext.LoRaSession.SetConnectionState | src/context/LoRaContext.js:20 | the state is the value given, recorded in the trace |
| LoRaContext.LoRaSession.ScanForDevices | src/context/LoRaContext.js:34-64 | passes through SCANNING to DISCONNECTED, clears the error, and returns and stores the mock devices |
| LoRaContext.LoRaSession.ConnectToDevice | src/context/LoRaContext.js:67-90 | passes through CONNECTING to CONNECTED with the device recorded, and succeeds |
| LoRaContext.LoRaSession.Disconnect | src/context/LoRaContext.js:93-107 | DISCONNECTED with no device, lobby or members; the messages stay |
| LoRaContext.LoRaSession.CreateLobby | src/context/LoRaContext.js:110-131 | succeeds exactly when connected, setting the lobby; otherwise the error is "Not connected to a device" and the lobby is unchanged |
| LoRaContext.LoRaSession.JoinLobby | src/context/LoRaContext.js:134-155 | succeeds exactly when connected, setting the lobby named "Lobby " + id; otherwise the not-connected error |
| LoRaContext.LoRaSession.SendMessage | src/context/LoRaContext.js:158-187 | succeeds exactly when connected, appending one message from "me"; otherwise the not-connected error and no message |
| LoRaContext.LoRaSession.SendLocation | src/context/LoRaContext.js:190-204 | succeeds exactly when connected |
| LoRaContext.LoRaSession.SendProfile | src/context/LoRaContext.js:207-221 | succeeds exactly when connected |
| LoRaContext.LoRaSession.SubscribeToMessages | src/context/LoRaContext.js:224-225 | the callback is appended, duplicates included |
| LoRaContext.LoRaSession.Unsubscribe | src/context/LoRaContext.js:226-228 | the list is filtered of the callback |
| LoRaContext.LoRaSession.ClearError | src/context/LoRaContext.js:257 | no error |
| Onboarding.TrimStartDropsLeadingSpace | src/screens/OnboardingDetails.js:20 | trimStart removes only a run of leading white space and leaves none at the front |
| Onboarding.TrimEndDropsTrailingSpace | src/screens/OnboardingDetails.js:20 | trimEnd removes only a run of trailing white space and leaves none at the end |
| Onboarding.TrimEmptyIffBlank | src/screens/OnboardingDetails.js:20 | `s.trim().length === 0` exactly when s is all white space |
| Onboarding.PhoneChars | src/screens/OnboardingDetails.js:21 | what the replace keeps is only digits and '+' and is no longer than the input; with PhoneCharsKeepsPhone, PhoneCharsDropsOthers and PhoneCharsAppend, it is exactly the digits and '+' of the input, in order |
| Onboarding.PhoneCharsKeepsPhone | src/screens/OnboardingDetails.js:21 | text made only of digits and '+' passes through the replace unchanged |
| Onboarding.PhoneCharsDropsOthers | src/screens/OnboardingDetails.js:21 | text with no digit and no '+' is replaced by nothing |
| Onboarding.PhoneCharsAppend | src/screens/OnboardingDetails.js:21 | the filter distributes over concatenation |
| Onboarding.ValidatePhone | src/screens/OnboardingDetails.js:19-25 | the result is one of the three messages or empty |
| Onboarding.ValidatePhoneCases | src/screens/OnboardingDetails.js:19-25 | "Phone is required" exactly for blank input; otherwise "Enter a valid phone number" below 7 kept characters, "Phone number too long" above 15, and "" exactly for 7 to 15 |
| Onboarding.ValidateName | src/screens/OnboardingDetails.js:27-30 | the result is "Contact name is required" or empty |
| Onboarding.ValidateNameCases | src/screens/OnboardingDetails.js:27-30 | "Contact name is required" exactly for a blank name, "" otherwise |
| Onboarding.FormattingIgnored | src/screens/OnboardingDetails.js:19-25 | inserting a character other than a digit or '+' into a non-blank number never changes the verdict |
| Onboarding.DetailsForm.constructor | src/screens/OnboardingDetails.js:10-16 | experience "Beginner", all fields and errors empty |
| Onboarding.DetailsForm.HandleAccept | src/screens/OnboardingDetails.js:32-55 | each failing validator sets its own error and nothing is sent; when both pass, both errors are cleared, the form's profile is sent once and the reminder shown once |
| Onboarding.AcceptGate | src/screens/OnboardingDetails.js:32-40 | the profile goes out exactly when the name is not blank and the phone is not blank with 7 to 15 digits or '+' |
| Compass.Sector | src/screens/tabs/CompassTab.js:100 | `Math.floor(deg / 45 + 0.5)`: the sector whose centre is nearest |
| Compass.JsRem8 | src/screens/tabs/CompassTab.js:102 | JavaScript's `% 8`: sign of the dividend, magnitude below 8, differs from the dividend by a multiple of 8 |
| Compass.CardinalDirection | src/screens/tabs/CompassTab.js:99-103 | any label returned is one of the eight |
| Compass.HeadingsAreLabelled | src/screens/tabs/CompassTab.js:55-66 | every rounded heading in 0..360 gets the label of its sector mod 8 |
| Compass.LabelledIff | src/screens/tabs/CompassTab.js:99-103 | a label exists exactly for deg >= -22 or a sector that is a multiple of 8 |
| Compass.NorthAtBothEnds | src/screens/tabs/CompassTab.js:99-103 | 0 and 360 both read "N" |
| Compass.OnTheCompassPoints | src/screens/tabs/CompassTab.js:99-103 | 45k reads as point k mod 8 |
| Compass.NearestPoint | src/screens/tabs/CompassTab.js:99-103 | every heading within 22 degrees of 45k reads as point k mod 8 |
| Compass.FirstSectors | src/screens/tabs/CompassTab.js:99-103 | 0..22 reads "N" and 23..67 reads "NE" |
| Compass.FullTurn | src/screens/tabs/CompassTab.js:99-103 | for every heading of at least -22 degrees, adding 360 degrees does not change the label; which lower headings have a label at all is stated by `LabelledIff` |

## Left out

- The BLE transport is outside the model. The platform library's scan, connect, MTU request,
  characteristic write and notification subscription are foreign calls, and so are Android
  permissions. Their outcomes are parameters: `reconnect` (what `ensureConnected`'s scan and
  connect produce) and `writeOk` / `failure` (whether the write resolves).
- `scanOnce`, `connectToDevice`, `startMonitoring`, `ensurePermissions` and `getDeviceName` in
  `BleService` are not modelled. They are made of library calls. Their state effects are
  modelled by `BleService`'s `OnConnected` and `OnDeviceDisconnected`.
- `startScan`, `stopScan`, `subscribeTx` and `cleanupMonitor` in `BleClient` are not modelled:
  they are library calls whose only state is the scan list, the scanning flag and the monitor
  handle, none of which the model has. `DebugClient.ConnectTo` and `DebugClient.Disconnect`
  model `connectTo` and `disconnect` up to those calls; the MTU line ("MTU: ...", "MTU request
  failed"), the subscription lines and the "RX: ..." lines of notifications are not modelled.
- `BleServiceModel.BleService.OnDeviceDisconnected` does not model the user callback
  `onDeviceDisconnected(error)` that the source calls when one is set: it is outside code.
- `sendAndWaitFor` and `getDeviceInfo` are not modelled. They rely on timers, promises and JSON
  parsing, none of which the model has.
- Base64, UTF-8 and `JSON.stringify` are library encodings. Text is taken as its UTF-8 bytes,
  and the profile as its serialised JSON bytes.
- Floating point is not modelled. `sendGPS`'s `Math.round(lat * 1e6)` is a parameter
  (microdegrees). The compass's magnetometer arithmetic in `_angle` is left out, and its
  rounded heading is the integer input to `CardinalDirection`.
- Clock and time formatting are parameters: `Date.now()` and `toLocaleTimeString`, for
  message ids and times and for log timestamps.
- The mock delays (`setTimeout`) of `LoRaContext` are left out. Each action is modelled as
  atomic: its intermediate states appear in the ghost trace in order, but other actions that
  run during its `await` (a connect finishing inside a scan's two-second wait, say) are not
  modelled, so traces that interleave two actions are not produced by the model.
- `createLobby`'s `parseInt(maxMembers)` is a `MemberLimit` parameter.
- The `catch` branches of the `LoRaContext` actions are not modelled. Nothing in their `try`
  blocks can throw once the radio calls are commented out, so ERROR is unreachable. `Valid`
  states that it is.
- `LoRaContext.LoRaSession.CreateLobby`, `JoinLobby`, `SendMessage`, `SendLocation` and
  `SendProfile`: each `useCallback` closes over `connectionState` from the last render. The
  model reads the current state, as if the component had re-rendered before the call.
- `BleServiceModel.BleService.NotifyListeners`: a listener that throws is logged and skipped in
  the source. Listeners here never throw, and the `console.log` calls are left out.
  Listeners are also modelled as not touching the registry during dispatch. In the source,
  `sendAndWaitFor`'s handler calls `offMessage` on itself from inside `notifyListeners`; the
  splice shifts the array that `for...of` is walking, so the next listener is skipped for that
  frame, and later frames of the same `handleIncomingData` call see the shortened list.
- `Onboarding.ValidatePhone` and `Onboarding.ValidateName` take strings: the text fields always
  hold one. The `!phone` / `!name` test of `null` or `undefined` is left out, and for a string
  it coincides with the empty case.
- `Onboarding.DetailsForm.HandleAccept` shows the reminder once the send settles. `.then` does
  this whatever `ok` is, and `.catch` does it too, so the send's outcome and the
  `console.warn` are not modelled.
- `BleClient.DebugClient.SendHex`: the button's `try/catch` ("Invalid hex") is left out, because
  `hexToBytes` cannot throw on a string. The field is cleared after sending (`setHexToSend('')`),
  and that is not modelled either.
- `BleClient.DebugClient.SendBytes`: the log entry is written after the write settles, and the
  model writes it at once; the concurrency of overlapping sends is left out.
- `BleClient.DebugClient.SendBytes` and `BleClient.DebugClient.SendHex` read `connected` and
  `useFraming` from the current fields. In the source `sendBytes` closes over the values of the
  last render, so a press right after a connect or a framing toggle, before the re-render, uses
  the old values; the model behaves as if the component had re-rendered first.
- `App.js` duplicates parts of this logic and is not part of this model.

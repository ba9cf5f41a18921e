# BLE heart-rate relay — event model

The relay is an ESP32 program that is at once a BLE central, connected to a wearable that
notifies heart-rate bytes and exposes an LED-control characteristic, and a BLE peripheral, to
which a smartphone attaches. It caches the latest heart rate and the latest integer read from
the UART. When the wearable connection succeeded and the LED characteristic was found, it
forwards each UART integer to the wearable as a one-byte write. On each main-loop pass during
which the phone is attached and the relay characteristic exists, it notifies the phone of a
two-byte packet `[heart rate, low byte of the integer]`.

This project models that program as a deterministic transition system. The four shared
globals (`latestBPM`, `latestValue`, `connectedToWearable`, `smartphoneConnected`) and the
presence of the LED and relay characteristic handles form an immutable `Relay.State`. The
heart-rate characteristic handle is not kept. In its place the state records whether the
notification callback was registered, which happens when that characteristic was found and
can notify. Each handler is
a pure function from a state to a new state plus the external effects it emits:
`WriteLed(b)`, `NotifySink(packet)`, `StartAdvertising` and `SubscribeBpm`. `Relay.Step`
dispatches the events that can occur after start-up. `Trace.Run` folds a sequence of them.
The upstream connect sequence is not an event. It runs once, inside `Relay.Boot`, exactly as
`setup()` calls it once.

Modules:
- `Bytes` — `uint8_t` and 32-bit `int`, and the `int`→`uint8_t` conversion (modulo 256).
- `Packet` — the two-byte relay packet and a receiver-side decoder, its inverse.
- `Relay` — state, events, effects and the handlers.
- `Trace` — runs over event sequences and the properties that hold of every run.
- `Wrappers` — `Option`.

Inputs that come from outside the program's own logic are parameters:
- the bytes of a notification;
- whether a UART line was available, and the integer `String::toInt` parsed from it;
- whether the non-blocking mutex take in the loop succeeded;
- the outcome of each step of the connect sequence.

Behaviours of the code that the model keeps as written:
- On mutex contention the packet carries heart rate 0.
- `connectToWearable` runs once, from `setup()`. Nothing clears `connectedToWearable`, and
  the program has no reconnect loop and no link-loss handler. `Trace.NoRetry` proves that the
  flag keeps its start-up value across every run.
- A connect that fails at the link or the service step returns without tearing the client
  down. A connect that finds the service reports success even when the heart-rate or LED
  characteristic is missing.
- A UART line is one integer. Non-numeric text parses to 0, which is stored and forwarded
  like any other value.

## Model

| member | source | states |
|---|---|---|
| `Bytes.ToByte` | src/main.cpp:99 | The `int`→`uint8_t` conversion is the identity on 0..255 and wraps values just outside that range by 256 (for example -1 becomes 255). |
| `Bytes.ToByteUnique` | src/main.cpp:113 | The converted byte is the unique value in 0..255 that differs from the integer by a multiple of 256. |
| `Packet.Encode` | src/main.cpp:113-114 | The relay packet is exactly two bytes: the heart-rate copy first, then the low byte of the latest value. |
| `Packet.Decode` | src/main.cpp:113-114 | A receiver accepts a buffer exactly when it has the packet's fixed length of two. |
| `Packet.DecodeEncode` | src/main.cpp:113-114 | Decoding an encoded packet recovers the heart rate and the truncated integer. |
| `Packet.EncodeDecode` | src/main.cpp:113-114 | Every buffer a receiver accepts is the encoding of what it decoded, so the format has no redundant forms. |
| `Relay.OnNotification` | src/main.cpp:30-39 | An empty payload leaves the state unchanged. A non-empty payload sets the heart rate to its first byte and changes no other field. |
| `Relay.OnConnect` | src/main.cpp:43-46 | Attach sets `smartphoneConnected`, emits nothing, and leaves the readings, the upstream link and the relay handle unchanged. |
| `Relay.OnDisconnect` | src/main.cpp:47-51 | Detach clears `smartphoneConnected` and emits only an advertising restart. The readings, the upstream link and the relay handle stay unchanged. |
| `Relay.ConnectToWearable` | src/main.cpp:54-69 | Returns true iff the transport connects and the service is found. On failure it changes nothing and emits nothing. On success it sets `connectedToWearable` even if either characteristic is missing, keeps the LED handle iff found, and subscribes iff the heart-rate characteristic exists and can notify. That subscription is its only effect. It never clears the flag. |
| `Relay.Boot` | src/main.cpp:83-88 | After start-up the relay characteristic exists, the phone is detached and both readings are 0. `connectedToWearable` holds iff the single connect attempt got link and service. The LED handle exists iff it also found the LED characteristic, and the callback is registered iff it also found a heart-rate characteristic that can notify. The effects are exactly an advertising start followed by that subscription, if any. |
| `Relay.UartForward` | src/main.cpp:92-103 | A UART integer always becomes `latestValue`. Exactly one write of its low byte to the LED characteristic is emitted iff the wearable is connected and that handle exists; otherwise nothing is emitted. Nothing else changes. |
| `Relay.RelayTick` | src/main.cpp:106-117 | The tick changes no state. It emits nothing unless the phone is attached and the relay characteristic exists. Otherwise it emits exactly one packet, which decodes to `[latestBPM, latestValue mod 256]` when the lock was free and to `[0, latestValue mod 256]` when it was not. |
| `Relay.LoopStep` | src/main.cpp:90-120 | The UART phase precedes the tick: a packet sent in the same iteration carries the just-received value. An iteration emits exactly one LED write iff a UART integer arrived and the wearable is connected with an LED characteristic, and exactly one packet iff the phone is attached and the relay characteristic exists. It emits nothing else. The LED write comes first and the packet last. |
| `Relay.LedWriteMatchesPacket` | src/main.cpp:98-113 | With both gates open, an iteration with UART integer `v` emits exactly an LED write and then a two-byte packet, and the written byte equals the packet's second byte, `v mod 256`. |
| `Relay.Step` | src/main.cpp:30-117 | No post-start-up event touches the upstream link or the relay handle. Every event keeps the rule that the upstream handles exist only once the wearable is connected. |
| `Trace.RunFreezesUpstream` | src/main.cpp:83-88 | Across any sequence of events, `connectedToWearable`, the LED handle, the subscription and the relay handle never change. |
| `Trace.NoRetry` | src/main.cpp:83-88 | After start-up and any events, `connectedToWearable` holds iff the single connect attempt succeeded. |
| `Trace.ValueUnchangedWithoutUart` | src/main.cpp:92-94 | Events without a UART integer leave `latestValue` unchanged. |
| `Trace.LatestValueWins` | src/main.cpp:94 | After any events, `latestValue` is the integer of the last UART input. |
| `Trace.BpmUnchangedWithoutReading` | src/main.cpp:31-36 | Events without a non-empty notification leave the heart rate unchanged. |
| `Trace.BpmUnchangedWithoutSubscription` | src/main.cpp:64-65 | If the callback was never registered, no event changes the heart rate. |
| `Trace.LatestBpmWins` | src/main.cpp:31-36 | With the callback registered, the heart rate is the first byte of the last non-empty notification. |
| `Trace.AttachmentUnchanged` | src/main.cpp:43-51 | Events without attach or detach leave `smartphoneConnected` unchanged. |
| `Trace.LastAttachmentWins` | src/main.cpp:43-51 | `smartphoneConnected` holds iff the last attach/detach event was an attach. |
| `Trace.DetachedRunSendsNoPackets` | src/main.cpp:106 | A detached phone receives no packet over any run that contains no attach event. |
| `Trace.NoRelayCharSendsNoPackets` | src/main.cpp:106 | Without the relay characteristic, no packet is ever sent. This models the null check only: start-up always creates the characteristic (line 77), so it never fails after `Boot`. |
| `Trace.AttachedRunSendsOnePacketPerLoop` | src/main.cpp:106-117 | While the phone stays attached and the relay characteristic exists, the number of packets sent equals the number of loop iterations. |
| `Trace.NoLedWriteWithoutWearable` | src/main.cpp:98-102 | If the wearable is not connected or has no LED characteristic, no event ever emits an LED write. |
| `Trace.BootWithoutLedNeverWrites` | src/main.cpp:54-69 | If the single connect attempt failed or found no LED characteristic, no later event ever writes to the wearable's LED. |
| `Trace.RunPacketsWellFormed` | src/main.cpp:113-114 | Every packet sent during any run is exactly two bytes long. |

## Left out

- BLE stack set-up (device init, server and service creation, characteristic properties, the
  notification descriptor, UUIDs, the wearable's address) in `setupRelayServer` and `setup`.
  These are calls into a library that is not part of this model. Only their effect is kept:
  the relay characteristic exists, and advertising starts.
- Serial I/O: reading, `Serial.available`, and every log line. `String::toInt` parsing is
  library code that is not part of this model, so the parsed 32-bit integer is an input.
- FreeRTOS semantics. The callback's blocking mutex take always succeeds. The loop's
  non-blocking take is an input boolean. The BLE callback task and `loop()` are interleaved
  as whole, atomic events; true concurrency is not modelled.
- `delay(1000)` and all timing. A loop iteration is one event.
- The BLE client object created by the connect sequence, and its teardown. The code does not
  tear it down on failure, and the model does not track it.
- Callbacks that arrive during `setup()`. Advertising starts before the blocking connect, so a
  phone may attach or detach, and after the callback is registered a notification may arrive,
  while start-up is still running. The model treats `Boot` as atomic and lets such callbacks
  arrive after it. The resulting state is the same, because those callbacks and the connect
  sequence write disjoint fields.

/** The relay's shared state and the handlers that change it: the upstream notification
    callback, the smartphone attach/detach callbacks, the one-shot connect sequence to the
    wearable and one iteration of the main loop. Each handler maps a state to a new state
    and the external effects it emits; the BLE, serial and RTOS calls themselves are
    abstracted into those effects or into inputs. */
module Relay {
  import opened Bytes
  import opened Wrappers
  import Packet

  /** The globals of the relay. The LED and relay characteristic pointers are modelled by
      whether they are non-null (`ledChar`, `relayChar`). The heart-rate characteristic
      pointer is not kept; in its place `bpmSubscribed` records that the notification
      callback was registered, which happens when that characteristic was found and can
      notify. */
  datatype State = State(
    latestBpm: byte,
    latestValue: int32,
    connectedToWearable: bool,
    smartphoneConnected: bool,
    bpmSubscribed: bool,
    ledChar: bool,
    relayChar: bool)

  /** The globals at program start: readings zero, flags false, pointers null. */
  const Initial: State := State(0, 0, false, false, false, false, false)

  /** An external effect of a handler. */
  datatype Output =
    | WriteLed(value: byte)          // one-byte write to the wearable's LED characteristic
    | NotifySink(packet: seq<byte>)  // set the relay characteristic's value and notify the phone
    | StartAdvertising               // (re)start advertising the relay service
    | SubscribeBpm                   // register the notification callback on the heart-rate characteristic

  /** A new state together with the effects emitted on the way to it. */
  datatype Transition = Transition(state: State, outputs: seq<Output>)

  /** What each step of the upstream connect sequence found. */
  datatype ConnectOutcome = ConnectOutcome(
    linkUp: bool,
    serviceFound: bool,
    bpmCharFound: bool,
    bpmCanNotify: bool,
    ledCharFound: bool)

  /** The connect sequence's boolean return value, new state and effects. */
  datatype ConnectResult = ConnectResult(ok: bool, state: State, outputs: seq<Output>)

  /** An event delivered to the relay after start-up. */
  datatype Event =
    | Notification(payload: seq<byte>)                 // heart-rate characteristic notified
    | SinkAttach                                       // smartphone connected
    | SinkDetach                                       // smartphone disconnected
    | LoopIteration(uart: Option<int32>, lockFree: bool)
      // one pass of the main loop: the parsed UART integer if a line was available, and
      // whether the non-blocking take of the heart-rate mutex succeeded

  /** The cached readings are the same in both states. */
  predicate SameReadings(s: State, t: State) {
    t.latestBpm == s.latestBpm && t.latestValue == s.latestValue
  }

  /** Everything the upstream connect sequence owns is the same in both states. */
  predicate SameUpstream(s: State, t: State) {
    && t.connectedToWearable == s.connectedToWearable
    && t.bpmSubscribed == s.bpmSubscribed
    && t.ledChar == s.ledChar
  }

  /** The downstream side (attachment and relay characteristic) is the same in both states. */
  predicate SameDownstream(s: State, t: State) {
    t.smartphoneConnected == s.smartphoneConnected && t.relayChar == s.relayChar
  }

  /** An upstream link handle exists only once the connect sequence has succeeded. */
  predicate Valid(s: State) {
    (s.bpmSubscribed || s.ledChar) ==> s.connectedToWearable
  }

  /** The notification callback: a non-empty payload's first byte becomes the cached heart
      rate (under the mutex, taken with an unbounded wait, so it always succeeds); an empty
      payload is ignored. */
  function OnNotification(s: State, payload: seq<byte>): (t: State)
    ensures |payload| == 0 ==> t == s
    ensures |payload| > 0 ==> t.latestBpm == payload[0]
    ensures t.latestValue == s.latestValue
    ensures SameUpstream(s, t) && SameDownstream(s, t)
  {
    if |payload| > 0 then s.(latestBpm := payload[0]) else s
  }

  /** The smartphone attached: transmission to it is enabled. */
  function OnConnect(s: State): (r: Transition)
    ensures r.state.smartphoneConnected
    ensures r.outputs == []
    ensures SameReadings(s, r.state) && SameUpstream(s, r.state)
    ensures r.state.relayChar == s.relayChar
  {
    Transition(s.(smartphoneConnected := true), [])
  }

  /** The smartphone detached: transmission stops and advertising restarts so that it can
      attach again. */
  function OnDisconnect(s: State): (r: Transition)
    ensures !r.state.smartphoneConnected
    ensures r.outputs == [StartAdvertising]
    ensures SameReadings(s, r.state) && SameUpstream(s, r.state)
    ensures r.state.relayChar == s.relayChar
  {
    Transition(s.(smartphoneConnected := false), [StartAdvertising])
  }

  /** Whether the connect sequence will register the notification callback. */
  predicate Subscribes(o: ConnectOutcome) {
    o.bpmCharFound && o.bpmCanNotify
  }

  /** The connect sequence to the wearable. It gives up, returning false and changing
      nothing, when the transport connect fails or the service is absent. Otherwise it
      re-reads both characteristic handles, registers the callback when the heart-rate
      characteristic exists and can notify, and reports success even when either
      characteristic is missing. An earlier registration is never undone. */
  function ConnectToWearable(s: State, o: ConnectOutcome): (r: ConnectResult)
    ensures r.ok <==> o.linkUp && o.serviceFound
    ensures !r.ok ==> r.state == s && r.outputs == []
    ensures r.ok ==> r.state.connectedToWearable
    ensures r.ok ==> r.state.ledChar == o.ledCharFound
    ensures r.ok ==> (r.state.bpmSubscribed <==> s.bpmSubscribed || Subscribes(o))
    ensures r.ok ==> r.outputs == (if Subscribes(o) then [SubscribeBpm] else [])
    ensures SameReadings(s, r.state) && SameDownstream(s, r.state)
    ensures s.connectedToWearable ==> r.state.connectedToWearable
  {
    if !o.linkUp then ConnectResult(false, s, [])
    else if !o.serviceFound then ConnectResult(false, s, [])
    else
      var subscribe := Subscribes(o);
      var t := s.(
        ledChar := o.ledCharFound,
        bpmSubscribed := s.bpmSubscribed || subscribe,
        connectedToWearable := true);
      ConnectResult(true, t, if subscribe then [SubscribeBpm] else [])
  }

  /** Start-up: the relay server is created (so the relay characteristic exists and
      advertising starts), then the connect sequence runs exactly once. */
  function Boot(o: ConnectOutcome): (r: ConnectResult)
    ensures r.ok <==> o.linkUp && o.serviceFound
    ensures r.state.connectedToWearable <==> r.ok
    ensures r.state.relayChar && !r.state.smartphoneConnected
    ensures r.state.latestBpm == 0 && r.state.latestValue == 0
    ensures r.state.ledChar <==> r.ok && o.ledCharFound
    ensures r.state.bpmSubscribed <==> r.ok && Subscribes(o)
    ensures Valid(r.state)
    ensures r.outputs == [StartAdvertising] + (if r.ok && Subscribes(o) then [SubscribeBpm] else [])
  {
    var server := Initial.(relayChar := true);
    var c := ConnectToWearable(server, o);
    ConnectResult(c.ok, c.state, [StartAdvertising] + c.outputs)
  }

  /** First phase of a loop iteration, run when a UART line was available: the parsed
      integer becomes the latest value, and its low byte is written to the wearable's LED
      characteristic when the wearable is connected and that characteristic exists. */
  function UartForward(s: State, v: int32): (r: Transition)
    ensures r.state.latestValue == v
    ensures r.state.latestBpm == s.latestBpm
    ensures SameUpstream(s, r.state) && SameDownstream(s, r.state)
    ensures s.connectedToWearable && s.ledChar ==> r.outputs == [WriteLed(ToByte(v))]
    ensures !(s.connectedToWearable && s.ledChar) ==> r.outputs == []
  {
    var t := s.(latestValue := v);
    if s.connectedToWearable && s.ledChar then Transition(t, [WriteLed(ToByte(v))])
    else Transition(t, [])
  }

  /** Second phase of a loop iteration: when the phone is attached and the relay
      characteristic exists, notify one packet of the heart rate and the latest value.
      The heart rate is copied only when the mutex is free at once; otherwise the packet
      carries 0 in its place. */
  function RelayTick(s: State, lockFree: bool): (r: Transition)
    ensures r.state == s
    ensures !(s.smartphoneConnected && s.relayChar) ==> r.outputs == []
    ensures s.smartphoneConnected && s.relayChar ==>
      && |r.outputs| == 1
      && r.outputs[0].NotifySink?
      && Packet.Decode(r.outputs[0].packet)
         == Some(Packet.Reading(if lockFree then s.latestBpm else 0, ToByte(s.latestValue)))
  {
    if s.smartphoneConnected && s.relayChar then
      var bpmCopy: byte := if lockFree then s.latestBpm else 0;
      Packet.DecodeEncode(bpmCopy, s.latestValue);
      Transition(s, [NotifySink(Packet.Encode(bpmCopy, s.latestValue))])
    else
      Transition(s, [])
  }

  /** One iteration of the main loop: the UART phase, then the relay tick on the
      resulting state. */
  function LoopStep(s: State, uart: Option<int32>, lockFree: bool): (r: Transition)
    ensures r.state.latestValue == (if uart.Some? then uart.value else s.latestValue)
    ensures r.state.latestBpm == s.latestBpm
    ensures SameUpstream(s, r.state) && SameDownstream(s, r.state)
    ensures uart.Some? && s.connectedToWearable && s.ledChar
      ==> |r.outputs| >= 1 && r.outputs[0] == WriteLed(ToByte(uart.value))
    ensures s.smartphoneConnected && s.relayChar ==>
      && |r.outputs| >= 1
      && r.outputs[|r.outputs| - 1].NotifySink?
      && Packet.Decode(r.outputs[|r.outputs| - 1].packet)
         == Some(Packet.Reading(if lockFree then s.latestBpm else 0, ToByte(r.state.latestValue)))
    ensures |r.outputs| == (if uart.Some? && s.connectedToWearable && s.ledChar then 1 else 0)
                          + (if s.smartphoneConnected && s.relayChar then 1 else 0)
    ensures !(s.smartphoneConnected && s.relayChar) ==> forall o | o in r.outputs :: !o.NotifySink?
    ensures !(uart.Some? && s.connectedToWearable && s.ledChar) ==> forall o | o in r.outputs :: !o.WriteLed?
  {
    var first := if uart.Some? then UartForward(s, uart.value) else Transition(s, []);
    var tick := RelayTick(first.state, lockFree);
    Transition(tick.state, first.outputs + tick.outputs)
  }

  /** With both gates open, one loop iteration first writes a byte to the wearable and then
      notifies one packet, and the wearable and the phone see the same truncated value. */
  lemma LedWriteMatchesPacket(s: State, v: int32, lockFree: bool)
    requires s.connectedToWearable && s.ledChar
    requires s.smartphoneConnected && s.relayChar
    ensures var r := LoopStep(s, Some(v), lockFree);
      && |r.outputs| == 2
      && r.outputs[0].WriteLed? && r.outputs[1].NotifySink?
      && |r.outputs[1].packet| == Packet.PACKET_LENGTH
      && r.outputs[0].value == r.outputs[1].packet[1] == ToByte(v)
  {
  }

  /** The effect of one event. A notification reaches the callback only if the callback
      was registered on the heart-rate characteristic; otherwise the transport has
      nowhere to deliver it. */
  function Step(s: State, e: Event): (r: Transition)
    ensures SameUpstream(s, r.state)
    ensures r.state.relayChar == s.relayChar
    ensures Valid(s) ==> Valid(r.state)
  {
    match e
    case Notification(payload) =>
      if s.bpmSubscribed then Transition(OnNotification(s, payload), []) else Transition(s, [])
    case SinkAttach => OnConnect(s)
    case SinkDetach => OnDisconnect(s)
    case LoopIteration(uart, lockFree) => LoopStep(s, uart, lockFree)
  }
}

/** Runs of the relay over a sequence of events after start-up, and what holds of every
    such run: the upstream link never changes again, the cached readings are those of the
    most recent events, and packets and LED writes are emitted exactly when the gates allow. */
module Trace {
  import opened Relay

  /** Applies the events in order, concatenating the effects they emit. */
  function Run(s: State, es: seq<Event>): (r: Transition)
    decreases |es|
  {
    if |es| == 0 then Transition(s, [])
    else
      var t := Step(s, es[0]);
      var rest := Run(t.state, es[1..]);
      Transition(rest.state, t.outputs + rest.outputs)
  }

  /** The number of packets notified to the phone. */
  function CountPackets(outs: seq<Output>): nat
    decreases |outs|
  {
    if |outs| == 0 then 0
    else (if outs[0].NotifySink? then 1 else 0) + CountPackets(outs[1..])
  }

  /** The number of main-loop iterations among the events. */
  function CountLoops(es: seq<Event>): nat
    decreases |es|
  {
    if |es| == 0 then 0
    else (if es[0].LoopIteration? then 1 else 0) + CountLoops(es[1..])
  }

  /** The event carries a UART integer. */
  predicate IsUart(e: Event) {
    e.LoopIteration? && e.uart.Some?
  }

  /** The event is a heart-rate notification with at least one byte. */
  predicate IsReading(e: Event) {
    e.Notification? && |e.payload| > 0
  }

  /** The event attaches or detaches the phone. */
  predicate IsAttachment(e: Event) {
    e.SinkAttach? || e.SinkDetach?
  }

  lemma {:induction false} CountPacketsAppend(a: seq<Output>, b: seq<Output>)
    ensures CountPackets(a + b) == CountPackets(a) + CountPackets(b)
    decreases |a|
  {
    if |a| > 0 {
      assert (a + b)[1..] == a[1..] + b;
      CountPacketsAppend(a[1..], b);
    } else {
      assert a + b == b;
    }
  }

  /** No event after start-up reconnects, disconnects or re-subscribes the wearable link:
      there is no retry, and `connectedToWearable` is never reset. */
  lemma {:induction false} RunFreezesUpstream(s: State, es: seq<Event>)
    ensures SameUpstream(s, Run(s, es).state)
    ensures Run(s, es).state.relayChar == s.relayChar
    decreases |es|
  {
    if |es| > 0 {
      RunFreezesUpstream(Step(s, es[0]).state, es[1..]);
    }
  }

  /** Whatever the events, the wearable link stays exactly as the single connect attempt
      at start-up left it. */
  lemma NoRetry(o: ConnectOutcome, es: seq<Event>)
    ensures Run(Boot(o).state, es).state.connectedToWearable <==> o.linkUp && o.serviceFound
    ensures Valid(Run(Boot(o).state, es).state)
  {
    RunFreezesUpstream(Boot(o).state, es);
  }

  /** Without a UART integer among the events, the latest value does not change. */
  lemma {:induction false} ValueUnchangedWithoutUart(s: State, es: seq<Event>)
    requires forall j :: 0 <= j < |es| ==> !IsUart(es[j])
    ensures Run(s, es).state.latestValue == s.latestValue
    decreases |es|
  {
    if |es| > 0 {
      assert !IsUart(es[0]);
      ValueUnchangedWithoutUart(Step(s, es[0]).state, es[1..]);
    }
  }

  /** The latest value is the integer of the last UART input. */
  lemma {:induction false} LatestValueWins(s: State, es: seq<Event>, i: nat)
    requires i < |es| && IsUart(es[i])
    requires forall j :: i < j < |es| ==> !IsUart(es[j])
    ensures Run(s, es).state.latestValue == es[i].uart.value
    decreases |es|
  {
    var t := Step(s, es[0]).state;
    if i == 0 {
      ValueUnchangedWithoutUart(t, es[1..]);
    } else {
      LatestValueWins(t, es[1..], i - 1);
    }
  }

  /** Without a non-empty notification among the events, the heart rate does not change. */
  lemma {:induction false} BpmUnchangedWithoutReading(s: State, es: seq<Event>)
    requires forall j :: 0 <= j < |es| ==> !IsReading(es[j])
    ensures Run(s, es).state.latestBpm == s.latestBpm
    decreases |es|
  {
    if |es| > 0 {
      assert !IsReading(es[0]);
      BpmUnchangedWithoutReading(Step(s, es[0]).state, es[1..]);
    }
  }

  /** Without the callback registered, no notification ever changes the heart rate. */
  lemma {:induction false} BpmUnchangedWithoutSubscription(s: State, es: seq<Event>)
    requires !s.bpmSubscribed
    ensures Run(s, es).state.latestBpm == s.latestBpm
    decreases |es|
  {
    if |es| > 0 {
      BpmUnchangedWithoutSubscription(Step(s, es[0]).state, es[1..]);
    }
  }

  /** With the callback registered, the heart rate is the first byte of the last
      non-empty notification. */
  lemma {:induction false} LatestBpmWins(s: State, es: seq<Event>, i: nat)
    requires s.bpmSubscribed
    requires i < |es| && IsReading(es[i])
    requires forall j :: i < j < |es| ==> !IsReading(es[j])
    ensures Run(s, es).state.latestBpm == es[i].payload[0]
    decreases |es|
  {
    var t := Step(s, es[0]).state;
    if i == 0 {
      BpmUnchangedWithoutReading(t, es[1..]);
    } else {
      LatestBpmWins(t, es[1..], i - 1);
    }
  }

  /** Without attach or detach events, the phone's attachment does not change. */
  lemma {:induction false} AttachmentUnchanged(s: State, es: seq<Event>)
    requires forall j :: 0 <= j < |es| ==> !IsAttachment(es[j])
    ensures Run(s, es).state.smartphoneConnected == s.smartphoneConnected
    decreases |es|
  {
    if |es| > 0 {
      assert !IsAttachment(es[0]);
      AttachmentUnchanged(Step(s, es[0]).state, es[1..]);
    }
  }

  /** The phone counts as attached exactly when the last attach/detach event was an attach. */
  lemma {:induction false} LastAttachmentWins(s: State, es: seq<Event>, i: nat)
    requires i < |es| && IsAttachment(es[i])
    requires forall j :: i < j < |es| ==> !IsAttachment(es[j])
    ensures Run(s, es).state.smartphoneConnected <==> es[i].SinkAttach?
    decreases |es|
  {
    var t := Step(s, es[0]).state;
    if i == 0 {
      AttachmentUnchanged(t, es[1..]);
    } else {
      LastAttachmentWins(t, es[1..], i - 1);
    }
  }

  /** A detached phone receives no packet over any run that contains no attach event. */
  lemma {:induction false} DetachedRunSendsNoPackets(s: State, es: seq<Event>)
    requires !s.smartphoneConnected
    requires forall j :: 0 <= j < |es| ==> !es[j].SinkAttach?
    ensures CountPackets(Run(s, es).outputs) == 0
    decreases |es|
  {
    if |es| > 0 {
      var t := Step(s, es[0]);
      assert !es[0].SinkAttach?;
      assert CountPackets(t.outputs) == 0;
      DetachedRunSendsNoPackets(t.state, es[1..]);
      CountPacketsAppend(t.outputs, Run(t.state, es[1..]).outputs);
    }
  }

  /** Without the relay characteristic, nothing is ever notified. This is the null check on
      the relay characteristic pointer; start-up always creates that characteristic before
      advertising begins (`Boot` ensures `relayChar`), so after start-up the gate that
      matters is the phone's attachment. */
  lemma {:induction false} NoRelayCharSendsNoPackets(s: State, es: seq<Event>)
    requires !s.relayChar
    ensures CountPackets(Run(s, es).outputs) == 0
    decreases |es|
  {
    if |es| > 0 {
      var t := Step(s, es[0]);
      assert CountPackets(t.outputs) == 0;
      NoRelayCharSendsNoPackets(t.state, es[1..]);
      CountPacketsAppend(t.outputs, Run(t.state, es[1..]).outputs);
    }
  }

  /** While the phone stays attached and the relay characteristic exists, every loop
      iteration notifies exactly one packet and nothing else notifies any. */
  lemma {:induction false} AttachedRunSendsOnePacketPerLoop(s: State, es: seq<Event>)
    requires s.smartphoneConnected && s.relayChar
    requires forall j :: 0 <= j < |es| ==> !es[j].SinkDetach?
    ensures CountPackets(Run(s, es).outputs) == CountLoops(es)
    decreases |es|
  {
    if |es| > 0 {
      var t := Step(s, es[0]);
      assert !es[0].SinkDetach?;
      assert CountPackets(t.outputs) == (if es[0].LoopIteration? then 1 else 0) by {
        if es[0].LoopIteration? {
          var e := es[0];
          var first := if e.uart.Some? then UartForward(s, e.uart.value) else Transition(s, []);
          CountPacketsAppend(first.outputs, RelayTick(first.state, e.lockFree).outputs);
        }
      }
      RunFreezesUpstream(s, [es[0]]);
      AttachedRunSendsOnePacketPerLoop(t.state, es[1..]);
      CountPacketsAppend(t.outputs, Run(t.state, es[1..]).outputs);
    }
  }

  /** Without a connected wearable that exposed its LED characteristic, no LED write is
      ever emitted. */
  lemma {:induction false} NoLedWriteWithoutWearable(s: State, es: seq<Event>)
    requires !(s.connectedToWearable && s.ledChar)
    ensures forall o | o in Run(s, es).outputs :: !o.WriteLed?
    decreases |es|
  {
    if |es| > 0 {
      var t := Step(s, es[0]);
      NoLedWriteWithoutWearable(t.state, es[1..]);
    }
  }

  /** If start-up did not leave an LED characteristic (the connect attempt failed or did not
      find it), no later event ever writes to the wearable's LED. */
  lemma BootWithoutLedNeverWrites(o: ConnectOutcome, es: seq<Event>)
    requires !(o.linkUp && o.serviceFound && o.ledCharFound)
    ensures forall out | out in Run(Boot(o).state, es).outputs :: !out.WriteLed?
  {
    NoLedWriteWithoutWearable(Boot(o).state, es);
  }

  /** Every packet a run notifies is a well-formed relay packet. */
  lemma {:induction false} RunPacketsWellFormed(s: State, es: seq<Event>)
    ensures forall o | o in Run(s, es).outputs && o.NotifySink? :: |o.packet| == Packet.PACKET_LENGTH
    decreases |es|
  {
    if |es| > 0 {
      var t := Step(s, es[0]);
      RunPacketsWellFormed(t.state, es[1..]);
    }
  }
}

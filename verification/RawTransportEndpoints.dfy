/** The two ends of the raw transport as the objects that the transport updates in place. */
module RawTransportEndpoints {
  import Maps
  import opened Bits
  import opened Lanes
  import opened Options
  import opened SelectiveAck
  import opened RawTransport

  function Onto(packets: seq<Packet>, rest: Filled): Filled {
    rest.(packets := packets + rest.packets)
  }

  lemma OntoNothing(rest: Filled)
    ensures Onto([], rest) == rest
  {
    assert [] + rest.packets == rest.packets;
  }

  lemma OntoStop(packets: seq<Packet>, rest: Filled)
    ensures rest.packets == [] ==> Onto(packets, rest) == rest.(packets := packets)
  {
    assert packets + [] == packets;
  }

  lemma OntoMore(packets: seq<Packet>, p: Packet, rest: Filled)
    ensures Onto(packets, Onto([p], rest)) == Onto(packets + [p], rest)
  {
    assert packets + ([p] + rest.packets) == packets + [p] + rest.packets;
  }

  lemma RoomOnce(s: Sender, input: seq<Read>, now: nat)
    requires input != []
    ensures var next, stop := NextOutbound(s, input[0]), !HasCapacity(s) || s.doneQueued;
            && (stop ==> FillRoom(s, input, now) == Filled(s, [], true))
            && (!stop && next.Failed? ==> FillRoom(s, input, now) == Filled(s, [], false))
            && (!stop && next.Nothing? ==> FillRoom(s, input, now) == Filled(next.sender, [], true))
            && (!stop && next.Sent? ==>
                  var s' := next.sender.(inFlight := Launch(next.sender.inFlight, next.packet, now));
                  FillRoom(s, input, now) == Onto([next.packet], FillRoom(s', input[1..], now)))
  {
    hide NextOutbound, HasCapacity, Launch;
  }

  lemma RoomStops(s: Sender, input: seq<Read>, now: nat)
    requires input == []
    ensures FillRoom(s, input, now) == Filled(s, [], true)
  {
  }

  /** Acknowledgements applied one after another; implausible ones are skipped. */
  ghost function AfterAcks(s: Sender, batch: seq<Ack>): Sender
    decreases |batch|
  {
    if batch == [] then s
    else AfterAcks(if Plausible(s.nextSeq, batch[0]) then AfterAck(s, batch[0]) else s, batch[1..])
  }

  class SenderState {
    const chunkSize: nat
    const window: nat
    var nextSeq: nat
    var ackFloor: nat
    var offset: nat
    var eof: bool
    var doneQueued: bool
    var pendingErr: bool
    var inFlight: map<nat, Outbound>
    var packetsAcked: nat

    function View(): Sender
      reads this
    {
      Sender(chunkSize, window, nextSeq, ackFloor, offset, eof, doneQueued, pendingErr, inFlight, packetsAcked)
    }

    constructor (chunkSize: nat, window: nat)
      ensures View() == Sender(chunkSize, window, 0, 0, 0, false, false, false, map[], 0)
    {
      this.chunkSize, this.window := chunkSize, window;
      nextSeq, ackFloor, offset, packetsAcked := 0, 0, 0, 0;
      eof, doneQueued, pendingErr := false, false, false;
      inFlight := map[];
    }

    method SendWindowHasCapacity() returns (ok: bool)
      ensures ok == HasCapacity(View())
    {
      if window <= 0 {
        return false;
      }
      if nextSeq < ackFloor {
        return |inFlight| < window;
      }
      return nextSeq - ackFloor < window;
    }

    /** Builds the next packet; `ok` is false when the reader failed with nothing to send. */
    method NextOutboundPacket(r: Read) returns (packet: Option<Packet>, ok: bool)
      modifies this
      ensures match NextOutbound(old(View()), r)
              case Sent(s, p) => View() == s && packet == Some(p) && ok
              case Nothing(s) => View() == s && packet == None && ok
              case Failed => View() == old(View()) && packet == None && !ok
    {
      if doneQueued || pendingErr {
        return None, true;
      }
      if !eof && |r.bytes| > 0 {
        packet := Some(Data(nextSeq, offset, r.bytes));
        nextSeq := nextSeq + 1;
        offset := offset + |r.bytes|;
        if r.end == Eof {
          eof := true;
        } else if r.end == Broken {
          pendingErr := true;
        }
        return packet, true;
      }
      if !eof && r.end == Broken {
        return None, false;
      }
      if !eof && r.end == More {
        return None, true;
      }
      eof := true;
      packet := Some(Done(nextSeq, offset));
      nextSeq := nextSeq + 1;
      doneQueued := true;
      return packet, true;
    }

    /** Builds packets while the window has room; `input` is what the reader would return. */
    method FillSendWindow(input: seq<Read>, now: nat) returns (packets: seq<Packet>, ok: bool)
      modifies this
      ensures var filled := FillWindow(old(View()), input, now);
              View() == filled.sender && packets == filled.packets && ok == filled.ok
    {
      hide NextOutbound, HasCapacity, FillRoom, Launch, Onto;
      packets := [];
      if |inFlight| == 0 && pendingErr {
        return packets, false;
      }
      ghost var all := FillRoom(View(), input, now);
      OntoNothing(all);
      var i := 0;
      while i < |input|
        invariant 0 <= i <= |input|
        invariant all == Onto(packets, FillRoom(View(), input[i..], now))
      {
        RoomOnce(View(), input[i..], now);
        OntoStop(packets, FillRoom(View(), input[i..], now));
        var room := SendWindowHasCapacity();
        if !room || doneQueued {
          return packets, true;
        }
        var packet, fine := NextOutboundPacket(input[i]);
        if !fine {
          return packets, false;
        }
        if packet.None? {
          return packets, true;
        }
        inFlight := Launch(inFlight, packet.value, now);
        OntoMore(packets, packet.value, FillRoom(View(), input[i + 1..], now));
        packets := packets + [packet.value];
        i := i + 1;
        assert input[i - 1..][1..] == input[i..];
      }
      RoomStops(View(), input[i..], now);
      OntoStop(packets, FillRoom(View(), input[i..], now));
      return packets, true;
    }

    /** Applies a batch of acknowledgements in order. */
    method ApplyAckBatch(batch: seq<Ack>)
      modifies this
      ensures View() == AfterAcks(old(View()), batch)
    {
      var i := 0;
      while i < |batch|
        invariant 0 <= i <= |batch|
        invariant AfterAcks(View(), batch[i..]) == AfterAcks(old(View()), batch)
      {
        var plausible := AckIsPlausible(nextSeq, batch[i]);
        ghost var before := View();
        if plausible {
          if batch[i].floor > ackFloor {
            ackFloor := batch[i].floor;
          }
          var rest, acked := ApplyAck(inFlight, batch[i]);
          CountCovered(inFlight, rest, batch[i], acked);
          inFlight := rest;
          packetsAcked := packetsAcked + acked;
          assert View() == AfterAck(before, batch[i]);
        }
        assert batch[i..][1..] == batch[i + 1..];
        i := i + 1;
      }
    }

    /** The send is over and succeeded. */
    method SendIsComplete(now: nat) returns (done: bool)
      ensures done == SendSucceeds(View(), now)
    {
      return doneQueued && (|inFlight| == 0 || DoneSettled(inFlight, now));
    }
  }

  lemma CountCovered<T>(m: map<nat, T>, rest: map<nat, T>, ack: Ack, acked: nat)
    requires Remains(rest, m, Covered(m.Keys, ack)) && acked + |rest| == |m|
    ensures rest == m - Covered(m.Keys, ack) && acked == |Covered(m.Keys, ack)|
  {
    hide Covers;
    assert |rest| == |rest.Keys| == |m.Keys| - |Covered(m.Keys, ack)|;
  }

  class ReceiverState {
    var expectedSeq: nat
    var buffered: map<nat, Packet>
    /** The bytes given to the destination so far. */
    var out: seq<Byte>
    var complete: bool

    function View(): Receiver
      reads this
    {
      Receiver(expectedSeq, buffered, out, complete)
    }

    constructor ()
      ensures View() == Receiver(0, map[], [], false)
    {
      expectedSeq, buffered, out, complete := 0, map[], [], false;
    }

    /** Delivers buffered packets until the next expected one is missing or DONE is reached. */
    method AdvanceReceiveWindow()
      modifies this
      ensures View() == Advance(old(View()))
    {
      hide Advance;
      while expectedSeq in buffered
        invariant Advance(View()) == Advance(old(View()))
        decreases |buffered|
      {
        AdvanceOnce(View());
        var packet := buffered[expectedSeq];
        buffered := Maps.Without(buffered, expectedSeq);
        match packet {
          case Data(_, _, payload) =>
            out := out + payload;
            expectedSeq := expectedSeq + 1;
          case Done(_, _) =>
            expectedSeq := expectedSeq + 1;
            complete := true;
            return;
        }
      }
      AdvanceStops(View());
    }

    /** Handles one DATA or DONE packet, the destination taking every write. */
    method HandlePacket(p: Packet)
      modifies this
      ensures View() == Receive(old(View()), p)
    {
      match p {
        case Data(n, _, payload) =>
          if n == expectedSeq {
            out := out + payload;
            expectedSeq := expectedSeq + 1;
          } else if n > expectedSeq && n <= expectedSeq + MaxBufferedPackets {
            buffered := buffered[n := p];
          }
          AdvanceReceiveWindow();
        case Done(n, _) =>
          if n == expectedSeq {
            expectedSeq := expectedSeq + 1;
            complete := true;
            return;
          } else if n > expectedSeq && n <= expectedSeq + MaxBufferedPackets {
            buffered := buffered[n := p];
          }
          AdvanceReceiveWindow();
      }
    }

    /** The acknowledgement of the current state. */
    method PendingAck() returns (ack: Ack)
      ensures BuiltFrom(ack, buffered.Keys, expectedSeq)
    {
      ack := BuildAck(buffered, expectedSeq);
    }
  }

  lemma AdvanceOnce(r: Receiver)
    requires r.expected in r.buffered
    ensures var p, rest := r.buffered[r.expected], Maps.Without(r.buffered, r.expected);
            Advance(r) == if p.Data? then Advance(Receiver(r.expected + 1, rest, r.out + p.payload, r.complete))
                          else Receiver(r.expected + 1, rest, r.out, true)
  {
  }

  lemma AdvanceStops(r: Receiver)
    requires r.expected !in r.buffered
    ensures Advance(r) == r
  {
  }
}

/** Whole runs of the raw transport over a network that may lose, repeat, delay and
    reorder packets and acknowledgements, but not invent them. */
module RawTransportSafety {
  import Maps
  import opened Bits
  import opened Lanes
  import opened RawTransport
  import opened SelectiveAck

  /** Both ends, every packet ever put on the wire (by sequence number) and every
      acknowledgement ever sent. `stopped` means that the destination refused a write. */
  datatype System = System(
    source: seq<Byte>,
    snd: Sender,
    rcv: Receiver,
    stopped: bool,
    log: seq<Packet>,
    acks: set<Ack>)

  datatype Step =
    | Emit(read: Read, now: nat)
    | Resend(expired: set<nat>)
    | AckArrives(ack: Ack)
    | PacketArrives(packet: Packet)
    | WriteFails(packet: Packet, kept: nat)
    | AckSent(ack: Ack)

  ghost predicate Init(t: System) {
    && t.snd == Sender(t.snd.chunkSize, t.snd.window, 0, 0, 0, false, false, false, map[], 0)
    && t.rcv == Receiver(0, map[], [], false)
    && !t.stopped
    && t.log == []
    && t.acks == {}
  }

  ghost predicate Listening(t: System) {
    !t.stopped && !t.rcv.complete
  }

  function Launched(next: Outcome, now: nat): Sender
    requires next.Sent?
  {
    next.sender.(inFlight := Launch(next.sender.inFlight, next.packet, now))
  }

  ghost predicate Next(t: System, t': System, step: Step) {
    match step
    case Emit(read, now) =>
      && HasCapacity(t.snd) && !t.snd.doneQueued
      && HonestRead(t.source, t.snd.offset, t.snd.chunkSize, read)
      && var next := NextOutbound(t.snd, read);
         next.Sent? && t' == t.(snd := Launched(next, now), log := t.log + [next.packet])
    case Resend(expired) =>
      t' == t.(snd := t.snd.(inFlight := Retransmit(t.snd.inFlight, expired)))
    case AckArrives(ack) =>
      && ack in t.acks
      && t' == if Plausible(t.snd.nextSeq, ack) then t.(snd := AfterAck(t.snd, ack)) else t
    case PacketArrives(p) => Listening(t) && p in t.log && t' == t.(rcv := Receive(t.rcv, p))
    case WriteFails(p, kept) =>
      && Listening(t) && p in t.log
      && |t.rcv.out| <= kept <= |Receive(t.rcv, p).out|
      && t' == t.(rcv := t.rcv.(out := Receive(t.rcv, p).out[..kept]), stopped := true)
    case AckSent(ack) =>
      && !t.stopped
      && BuiltFrom(ack, t.rcv.buffered.Keys, t.rcv.expected)
      && t' == t.(acks := t.acks + {ack})
  }

  /** A run: any finite sequence of steps from an initial state. */
  ghost predicate IsRun(run: seq<System>, steps: seq<Step>) {
    && |run| == |steps| + 1
    && Init(run[0])
    && (forall i :: 0 <= i < |steps| ==> Next(run[i], run[i + 1], steps[i]))
  }

  // ----- The joint invariant -----

  /** The source offset at which packet `k` starts. */
  ghost function Off(log: seq<Packet>, end: nat, k: nat): nat {
    if k < |log| then log[k].offset else end
  }

  ghost predicate Fits(source: seq<Byte>, p: Packet, next: nat) {
    match p
    case Data(_, offset, payload) =>
      offset + |payload| == next <= |source| && payload == source[offset..next]
    case Done(_, offset) => offset == next == |source|
  }

  /** The packets cut the source into consecutive pieces; DONE comes last. */
  ghost predicate LogOk(source: seq<Byte>, snd: Sender, log: seq<Packet>) {
    && snd.nextSeq == |log|
    && snd.offset <= |source|
    && (snd.eof ==> snd.offset == |source|)
    && Off(log, snd.offset, 0) == 0
    && (forall i :: 0 <= i < |log| ==> log[i].seqNo == i && Fits(source, log[i], Off(log, snd.offset, i + 1)))
    && (forall i :: 0 <= i < |log| ==> (log[i].Done? <==> snd.doneQueued && i == |log| - 1))
    && (snd.doneQueued ==> |log| > 0)
  }

  ghost predicate WindowOk(snd: Sender, expected: nat) {
    && snd.ackFloor <= expected
    && snd.ackFloor <= snd.nextSeq <= snd.ackFloor + snd.window
  }

  ghost predicate ReceiverOk(doneQueued: bool, rcv: Receiver, log: seq<Packet>) {
    && rcv.expected <= |log|
    && BufferOk(rcv.buffered, log, rcv.expected + 1)
    && InReach(rcv.expected, rcv.buffered)
    && (rcv.complete <==> doneQueued && rcv.expected == |log|)
  }

  ghost predicate OutputOk(source: seq<Byte>, end: nat, rcv: Receiver, stopped: bool, log: seq<Packet>) {
    && Off(log, end, rcv.expected) <= |source|
    && source[..Off(log, end, rcv.expected)] <= rcv.out <= source
    && (!stopped ==> rcv.out == source[..Off(log, end, rcv.expected)])
  }

  ghost predicate Inv(t: System) {
    && LogOk(t.source, t.snd, t.log)
    && FlightOk(t.snd.inFlight, t.rcv.expected, t.rcv.buffered, t.log)
    && t.snd.packetsAcked + |t.snd.inFlight| == |t.log|
    && WindowOk(t.snd, t.rcv.expected)
    && ReceiverOk(t.snd.doneQueued, t.rcv, t.log)
    && OutputOk(t.source, t.snd.offset, t.rcv, t.stopped, t.log)
    && AcksOk(t.acks, t.rcv.expected, t.rcv.buffered)
  }

  // ----- Sender steps -----

  lemma EmitKeepsLog(source: seq<Byte>, s: Sender, log: seq<Packet>, read: Read, next: Outcome)
    requires LogOk(source, s, log) && !s.doneQueued
    requires HonestRead(source, s.offset, s.chunkSize, read)
    requires next == NextOutbound(s, read) && next.Sent?
    ensures LogOk(source, next.sender, log + [next.packet])
    ensures forall k: nat :: k <= |log| ==> Off(log + [next.packet], next.sender.offset, k) == Off(log, s.offset, k)
  {
    var log', s' := log + [next.packet], next.sender;
    forall i | 0 <= i < |log'|
      ensures log'[i].seqNo == i && Fits(source, log'[i], Off(log', s'.offset, i + 1))
    {
      if i < |log| {
        assert log'[i] == log[i];
      }
    }
  }

  lemma EmitKeeps(t: System, t': System, read: Read, now: nat)
    requires Inv(t) && Next(t, t', Emit(read, now))
    ensures Inv(t')
  {
    hide LogOk, FlightOk, AcksOk, BufferOk, Launch, NextOutbound, Off, HonestRead;
    var next := NextOutbound(t.snd, read);
    NextFields(t.snd, read);
    LogCounts(t.source, t.snd, t.log);
    EmitKeepsLog(t.source, t.snd, t.log, read, next);
    EmitKeepsFlight(t.snd.inFlight, t.rcv.expected, t.rcv.buffered, t.log, next.packet, now);
    SameLog(t'.source, next.sender, t'.snd, t'.log);
    assert BufferOk(t.rcv.buffered, t'.log, t.rcv.expected + 1) by {
      BufferGrows(t.rcv.expected, t.rcv.buffered, t.log, next.packet);
    }
  }

  lemma NextFields(s: Sender, read: Read)
    requires !s.doneQueued
    ensures var next := NextOutbound(s, read);
            next.Sent? ==>
              && next.packet.seqNo == s.nextSeq
              && next.sender == s.(nextSeq := s.nextSeq + 1, offset := next.sender.offset, eof := next.sender.eof,
                                   doneQueued := next.sender.doneQueued, pendingErr := next.sender.pendingErr)
  {
  }

  lemma BufferGrows(e: nat, b: map<nat, Packet>, log: seq<Packet>, p: Packet)
    requires BufferOk(b, log, e + 1)
    ensures BufferOk(b, log + [p], e + 1)
  {
  }

  lemma LogCounts(source: seq<Byte>, s: Sender, log: seq<Packet>)
    requires LogOk(source, s, log)
    ensures s.nextSeq == |log|
  {
  }

  lemma SameLog(source: seq<Byte>, s: Sender, s': Sender, log: seq<Packet>)
    requires LogOk(source, s, log)
    requires s'.nextSeq == s.nextSeq && s'.offset == s.offset && s'.eof == s.eof && s'.doneQueued == s.doneQueued
    ensures LogOk(source, s', log)
  {
  }

  lemma ResendKeeps(t: System, t': System, expired: set<nat>)
    requires Inv(t) && Next(t, t', Resend(expired))
    ensures Inv(t')
  {
    hide LogOk, AcksOk, FlightOk, BufferOk, Retransmit;
    SameLog(t.source, t.snd, t'.snd, t.log);
    ResendKeepsFlight(t.snd.inFlight, t.rcv.expected, t.rcv.buffered, t.log, expired);
  }

  lemma AckArrivesKeeps(t: System, t': System, ack: Ack)
    requires Inv(t) && Next(t, t', AckArrives(ack))
    ensures Inv(t')
  {
    hide LogOk, FlightOk, BufferOk, Plausible;
    LogCounts(t.source, t.snd, t.log);
    SameLog(t.source, t.snd, AfterAck(t.snd, ack), t.log);
    hide Covered;
    CoveredInFlight(t.snd.inFlight.Keys, ack);
    AckKeepsFlight(t.snd.inFlight, t.rcv.expected, t.rcv.buffered, t.log, ack);
    Maps.Loses(t.snd.inFlight, Covered(t.snd.inFlight.Keys, ack));
  }

  lemma CoveredInFlight(keys: set<nat>, ack: Ack)
    ensures Covered(keys, ack) <= keys
  {
  }

  lemma AckSentKeepsInv(t: System, t': System, ack: Ack)
    requires Inv(t) && Next(t, t', AckSent(ack))
    ensures Inv(t')
  {
    hide LogOk, FlightOk, OutputOk, WindowOk, BufferOk, AcksOk, BuiltFrom;
    AckSentKeeps(t.acks, t.rcv.expected, t.rcv.buffered, t.log, ack);
  }

  // ----- Receiver steps -----

  /** The receiver between two deliveries: as `ReceiverOk` and `OutputOk`, except that
      the next expected packet may already be in the buffer. */
  ghost predicate Delivering(source: seq<Byte>, s: Sender, r: Receiver, log: seq<Packet>) {
    && r.expected <= |log|
    && BufferOk(r.buffered, log, r.expected)
    && InReach(r.expected, r.buffered)
    && (r.complete <==> s.doneQueued && r.expected == |log|)
    && Off(log, s.offset, r.expected) <= |source|
    && r.out == source[..Off(log, s.offset, r.expected)]
  }

  /** `r'` is a later state of `r`: nothing held is lost, nothing written is changed. */
  ghost predicate Onward(r: Receiver, r': Receiver) {
    r.out <= r'.out && Later(r.expected, r.buffered, r'.expected, r'.buffered)
  }

  lemma OnwardTrans(a: Receiver, b: Receiver, c: Receiver)
    requires Onward(a, b) && Onward(b, c)
    ensures Onward(a, c)
  {
    hide Later;
    LaterTrans(a.expected, a.buffered, b.expected, b.buffered, c.expected, c.buffered);
  }

  lemma OnwardSelf(r: Receiver)
    ensures Onward(r, r)
  {
  }

  lemma PacketAt(source: seq<Byte>, s: Sender, log: seq<Packet>, i: nat)
    requires LogOk(source, s, log) && i < |log|
    ensures log[i].seqNo == i
    ensures Fits(source, log[i], Off(log, s.offset, i + 1))
    ensures log[i].Done? <==> s.doneQueued && i == |log| - 1
  {
    hide Fits;
  }

  lemma PieceExtends(source: seq<Byte>, out: seq<Byte>, p: Packet, next: nat)
    requires Fits(source, p, next) && p.Data? && out == source[..p.offset]
    ensures next <= |source| && out + p.payload == source[..next]
  {
  }

  /** Delivering the packet that is expected, DATA or DONE. */
  lemma DeliverNext(source: seq<Byte>, s: Sender, r: Receiver, log: seq<Packet>, r': Receiver)
    requires LogOk(source, s, log) && Delivering(source, s, r, log) && !r.complete
    requires r.expected < |log| && r'.expected == r.expected + 1
    requires r'.buffered.Keys == r.buffered.Keys - {r.expected}
    requires forall n :: n in r'.buffered ==> r'.buffered[n] == r.buffered[n]
    requires match log[r.expected]
             case Data(_, _, payload) => r'.out == r.out + payload && !r'.complete
             case Done(_, _) => r'.out == r.out && r'.complete
    ensures Delivering(source, s, r', log) && Onward(r, r')
    ensures r'.complete ==> r'.buffered == map[]
  {
    hide LogOk, BufferOk, InReach, Later;
    PacketAt(source, s, log, r.expected);
    BufferAfter(r.expected, r.buffered, log, r'.buffered);
    if log[r.expected].Data? {
      PieceExtends(source, r.out, log[r.expected], Off(log, s.offset, r.expected + 1));
    } else {
      NothingBeyond(r'.buffered, log);
    }
  }

  lemma NextBuffered(source: seq<Byte>, s: Sender, r: Receiver, log: seq<Packet>)
    requires Delivering(source, s, r, log) && r.expected in r.buffered
    ensures r.expected < |log| && r.buffered[r.expected] == log[r.expected]
  {
  }

  lemma {:induction false} AdvanceKeeps(source: seq<Byte>, s: Sender, r: Receiver, log: seq<Packet>)
    requires LogOk(source, s, log) && Delivering(source, s, r, log) && !r.complete
    ensures Delivering(source, s, Advance(r), log)
    ensures Advance(r).expected !in Advance(r).buffered
    ensures Onward(r, Advance(r))
    decreases |r.buffered|
  {
    hide LogOk, Delivering, Onward, Maps.Without;
    if r.expected in r.buffered {
      NextBuffered(source, s, r, log);
      var p := r.buffered[r.expected];
      var rest := Maps.Without(r.buffered, r.expected);
      if p.Data? {
        var r' := Receiver(r.expected + 1, rest, r.out + p.payload, r.complete);
        DeliverNext(source, s, r, log, r');
        AdvanceKeeps(source, s, r', log);
        assert Advance(r) == Advance(r');
        OnwardTrans(r, r', Advance(r));
      } else {
        DeliverNext(source, s, r, log, Receiver(r.expected + 1, rest, r.out, true));
      }
    } else {
      OnwardSelf(r);
    }
  }

  lemma KeepForLater(source: seq<Byte>, s: Sender, r: Receiver, log: seq<Packet>, n: nat)
    requires Delivering(source, s, r, log)
    requires n < |log| && Bufferable(r.expected, n)
    ensures Delivering(source, s, r.(buffered := r.buffered[n := log[n]]), log)
    ensures Onward(r, r.(buffered := r.buffered[n := log[n]]))
  {
    hide BufferOk, InReach, Later;
    BufferPacket(r.expected, r.buffered, log, r.expected, n);
  }

  lemma ReceiveKeeps(source: seq<Byte>, s: Sender, r: Receiver, log: seq<Packet>, n: nat)
    requires LogOk(source, s, log) && Delivering(source, s, r, log)
    requires r.expected !in r.buffered && !r.complete && n < |log|
    ensures Delivering(source, s, Receive(r, log[n]), log)
    ensures Receive(r, log[n]).expected !in Receive(r, log[n]).buffered
    ensures Onward(r, Receive(r, log[n]))
  {
    hide LogOk, Delivering, Onward, Advance;
    PacketAt(source, s, log, n);
    OnwardSelf(r);
    if n == r.expected {
      if log[n].Data? {
        var r' := Receiver(r.expected + 1, r.buffered, r.out + log[n].payload, r.complete);
        DeliverNext(source, s, r, log, r');
        AdvanceKeeps(source, s, r', log);
        OnwardTrans(r, r', Advance(r'));
      } else {
        DeliverNext(source, s, r, log, r.(expected := r.expected + 1, complete := true));
      }
    } else {
      var r' := if Bufferable(r.expected, n) then r.(buffered := r.buffered[n := log[n]]) else r;
      if Bufferable(r.expected, n) {
        KeepForLater(source, s, r, log, n);
      }
      AdvanceKeeps(source, s, r', log);
      OnwardTrans(r, r', Advance(r'));
    }
  }

  /** The invariant says that the receiver is between two deliveries with nothing to deliver. */
  lemma InvDelivering(t: System)
    requires Inv(t) && !t.stopped
    ensures Delivering(t.source, t.snd, t.rcv, t.log) && t.rcv.expected !in t.rcv.buffered
  {
    hide LogOk, FlightOk, AcksOk;
  }

  lemma DeliveringInv(source: seq<Byte>, s: Sender, r: Receiver, log: seq<Packet>)
    requires Delivering(source, s, r, log) && r.expected !in r.buffered
    ensures ReceiverOk(s.doneQueued, r, log)
    ensures OutputOk(source, s.offset, r, false, log)
  {
  }

  lemma PacketArrivesKeeps(t: System, t': System, p: Packet)
    requires Inv(t) && Next(t, t', PacketArrives(p))
    ensures Inv(t')
  {
    hide LogOk, FlightOk, AcksOk, ReceiverOk, OutputOk, Receive, Delivering;
    var n :| 0 <= n < |t.log| && t.log[n] == p;
    InvDelivering(t);
    ReceiveKeeps(t.source, t.snd, t.rcv, t.log, n);
    DeliveringInv(t.source, t.snd, t'.rcv, t.log);
    LaterKeeps(t.snd.inFlight, t.acks, t.log, t.rcv.expected, t.rcv.buffered, t'.rcv.expected, t'.rcv.buffered);
  }

  lemma WriteFailsKeeps(t: System, t': System, p: Packet, kept: nat)
    requires Inv(t) && Next(t, t', WriteFails(p, kept))
    ensures Inv(t')
  {
    hide LogOk, FlightOk, WindowOk, AcksOk, BufferOk, Receive, Later;
    var n :| 0 <= n < |t.log| && t.log[n] == p;
    InvDelivering(t);
    ReceiveKeeps(t.source, t.snd, t.rcv, t.log, n);
  }

  lemma StepKeeps(t: System, t': System, step: Step)
    requires Inv(t) && Next(t, t', step)
    ensures Inv(t')
  {
    hide Inv, Next;
    match step
    case Emit(read, now) => EmitKeeps(t, t', read, now);
    case Resend(expired) => ResendKeeps(t, t', expired);
    case AckArrives(ack) => AckArrivesKeeps(t, t', ack);
    case PacketArrives(p) => PacketArrivesKeeps(t, t', p);
    case WriteFails(p, kept) => WriteFailsKeeps(t, t', p, kept);
    case AckSent(ack) => AckSentKeepsInv(t, t', ack);
  }

  lemma InitHolds(t: System)
    requires Init(t)
    ensures Inv(t)
  {
  }

  /** Every state of every run satisfies the invariant. */
  lemma {:induction false} RunKeeps(run: seq<System>, steps: seq<Step>, i: nat)
    requires IsRun(run, steps) && i < |run|
    ensures Inv(run[i])
  {
    hide Inv, Next, Init;
    if i == 0 {
      InitHolds(run[0]);
    } else {
      RunKeeps(run, steps, i - 1);
      StepKeeps(run[i - 1], run[i], steps[i - 1]);
    }
  }
}

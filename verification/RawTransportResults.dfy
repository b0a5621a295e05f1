/** What every run of the raw transport guarantees. */
module RawTransportResults {
  import Maps
  import opened Bits
  import opened Lanes
  import opened SelectiveAck
  import opened RawTransport
  import opened RawTransportSafety

  ghost predicate HeldBy(r: Receiver, n: nat) {
    Held(r.expected, r.buffered, n)
  }

  lemma {:induction false} SourceIsFixed(run: seq<System>, steps: seq<Step>, i: nat)
    requires IsRun(run, steps) && i < |run|
    ensures run[i].source == run[0].source && run[i].snd.window == run[0].snd.window
  {
    if i > 0 {
      SourceIsFixed(run, steps, i - 1);
      assert Next(run[i - 1], run[i], steps[i - 1]);
    }
  }

  /** In every state of every run the destination holds a prefix of the source. */
  lemma OutputIsPrefix(run: seq<System>, steps: seq<Step>, i: nat)
    requires IsRun(run, steps) && i < |run|
    ensures run[i].rcv.out <= run[0].source
  {
    hide LogOk, FlightOk, AcksOk, ReceiverOk, WindowOk, IsRun;
    RunKeeps(run, steps, i);
    SourceIsFixed(run, steps, i);
  }

  /** Once everything but DONE is held, the whole source is written. */
  lemma AllHeldMeansWritten(t: System)
    requires Inv(t) && t.snd.doneQueued
    requires forall n: nat :: n + 1 < |t.log| ==> HeldBy(t.rcv, n)
    ensures t.rcv.out == t.source
  {
    hide LogOk, FlightOk, AcksOk, WindowOk;
    LogEnds(t.source, t.snd, t.log);
    assert t.rcv.expected + 1 < |t.log| ==> HeldBy(t.rcv, t.rcv.expected);
  }

  lemma LogEnds(source: seq<Byte>, s: Sender, log: seq<Packet>)
    requires LogOk(source, s, log) && s.doneQueued
    ensures |log| > 0 && log[|log| - 1].Done?
    ensures Off(log, s.offset, |log| - 1) == Off(log, s.offset, |log|) == |source|
  {
    assert Fits(source, log[|log| - 1], Off(log, s.offset, |log|));
  }

  /** Whenever the send reports success, whether nothing is in flight or only a settled
      DONE, the receiver has already written the whole source. */
  lemma SuccessMeansWritten(run: seq<System>, steps: seq<Step>, i: nat, now: nat)
    requires IsRun(run, steps) && i < |run|
    requires SendSucceeds(run[i].snd, now)
    ensures run[i].rcv.out == run[0].source
  {
    var t := run[i];
    RunKeeps(run, steps, i);
    SourceIsFixed(run, steps, i);
    hide IsRun, OutputOk, AcksOk, WindowOk, Fits, Held, BufferOk;
    forall n: nat | n + 1 < |t.log|
      ensures HeldBy(t.rcv, n)
    {
      assert t.log[n].Data?;
    }
    AllHeldMeansWritten(t);
  }

  /** A receiver that reports completion has written the whole source. */
  lemma CompletionMeansWritten(run: seq<System>, steps: seq<Step>, i: nat)
    requires IsRun(run, steps) && i < |run|
    requires run[i].rcv.complete
    ensures run[i].rcv.out == run[0].source
  {
    var t := run[i];
    RunKeeps(run, steps, i);
    SourceIsFixed(run, steps, i);
    hide IsRun, LogOk, FlightOk, AcksOk, WindowOk, BufferOk;
    AllHeldMeansWritten(t);
  }

  /** Every packet ever numbered is either acknowledged or in flight, and counted once. */
  lemma PacketsConserved(run: seq<System>, steps: seq<Step>, i: nat)
    requires IsRun(run, steps) && i < |run|
    ensures run[i].snd.packetsAcked + |run[i].snd.inFlight| == run[i].snd.nextSeq == |run[i].log|
  {
    RunKeeps(run, steps, i);
    hide IsRun, Fits, Held;
  }

  /** A packet that the receiver lacks is still in flight, so it will be sent again. */
  lemma MissingPacketsStayInFlight(run: seq<System>, steps: seq<Step>, i: nat, n: nat)
    requires IsRun(run, steps) && i < |run|
    requires n < |run[i].log| && !HeldBy(run[i].rcv, n)
    ensures n in run[i].snd.inFlight && run[i].snd.inFlight[n].packet == run[i].log[n]
  {
    RunKeeps(run, steps, i);
    hide IsRun, LogOk, OutputOk, AcksOk, Held;
  }

  /** An acknowledgement the receiver really sent is never rejected, however stale. */
  lemma GenuineAcksArePlausible(run: seq<System>, steps: seq<Step>, i: nat, ack: Ack)
    requires IsRun(run, steps) && i < |run|
    requires ack in run[i].acks
    ensures Plausible(run[i].snd.nextSeq, ack)
  {
    var t := run[i];
    RunKeeps(run, steps, i);
    hide IsRun, FlightOk, OutputOk, Plausible;
    AckIsPlausibleFor(ack, t.rcv.expected, t.rcv.buffered, t.log);
  }

  /** An acknowledgement built in a reachable state says exactly what the receiver holds. */
  lemma AckSaysWhatIsHeld(run: seq<System>, steps: seq<Step>, i: nat, ack: Ack)
    requires IsRun(run, steps) && i < |run|
    requires BuiltFrom(ack, run[i].rcv.buffered.Keys, run[i].rcv.expected)
    ensures forall n: nat :: Covers(ack, n) <==> HeldBy(run[i].rcv, n)
  {
    RunKeeps(run, steps, i);
    hide IsRun, LogOk, FlightOk, OutputOk, WindowOk, AcksOk, BuiltFrom, Covers, Held, BufferOk, InReach;
    forall n: nat
      ensures Covers(ack, n) <==> HeldBy(run[i].rcv, n)
    {
      AckIsExact(run[i].rcv.expected, run[i].rcv.buffered, run[i].log, ack, n);
    }
  }

  /** However late it arrives, an acknowledgement makes the sender drop exactly the
      in-flight packets that the receiver held when it built it. */
  lemma AckDropsExactlyWhatWasHeld(run: seq<System>, steps: seq<Step>, i: nat, j: nat)
    requires IsRun(run, steps) && i < j < |steps|
    requires steps[i].AckSent? && steps[j] == AckArrives(steps[i].ack)
    ensures forall n: nat :: n in run[j + 1].snd.inFlight
                             <==> n in run[j].snd.inFlight && !HeldBy(run[i].rcv, n)
  {
    var ack := steps[i].ack;
    assert Next(run[i], run[i + 1], steps[i]) && Next(run[j], run[j + 1], steps[j]);
    hide IsRun, Plausible, BuiltFrom, Covers, Held;
    AckSaysWhatIsHeld(run, steps, i, ack);
    GenuineAcksArePlausible(run, steps, j, ack);
  }

  /** Every packet on the wire is less than a window above what the receiver expects. */
  lemma WindowBoundsPackets(run: seq<System>, steps: seq<Step>, i: nat, p: Packet)
    requires IsRun(run, steps) && i < |run| && p in run[i].log
    ensures p.seqNo < run[i].rcv.expected + run[i].snd.window
  {
    RunKeeps(run, steps, i);
    hide IsRun, Fits, FlightOk, OutputOk, AcksOk, ReceiverOk;
  }

  /** The receiver has room for `p`: it is old, next, or fits in the buffer. */
  ghost predicate HasRoom(r: Receiver, p: Packet) {
    p.seqNo <= r.expected + MaxBufferedPackets
  }

  /** With a window of at most 4097, no packet is ever discarded for lack of room. */
  lemma NarrowWindowDiscardsNothing(run: seq<System>, steps: seq<Step>, i: nat, p: Packet)
    requires IsRun(run, steps) && i < |run| && p in run[i].log
    requires run[0].snd.window <= MaxBufferedPackets + 1
    ensures HasRoom(run[i].rcv, p)
  {
    WindowBoundsPackets(run, steps, i, p);
    SourceIsFixed(run, steps, i);
  }

  /** A run in which the sender emits `k` one-byte packets and nothing else happens. */
  lemma {:induction false} EmitMany(source: seq<Byte>, window: nat, k: nat) returns (run: seq<System>, steps: seq<Step>)
    requires k <= window && k <= |source|
    ensures IsRun(run, steps) && |steps| == k
    ensures run[0].snd.window == window
    ensures var t := run[k];
            && t.source == source && t.rcv == Receiver(0, map[], [], false)
            && t.snd == Sender(1, window, k, 0, k, false, false, false, t.snd.inFlight, 0)
            && |t.log| == k && (k > 0 ==> t.log[k - 1].seqNo == k - 1)
  {
    if k == 0 {
      var snd := Sender(1, window, 0, 0, 0, false, false, false, map[], 0);
      run, steps := [System(source, snd, Receiver(0, map[], [], false), false, [], {})], [];
    } else {
      run, steps := EmitMany(source, window, k - 1);
      var t := run[k - 1];
      var read := Read([source[k - 1]], More);
      var next := NextOutbound(t.snd, read);
      var t' := t.(snd := Launched(next, 0), log := t.log + [next.packet]);
      assert Next(t, t', Emit(read, 0));
      ExtendRun(run, steps, t', Emit(read, 0));
      run, steps := run + [t'], steps + [Emit(read, 0)];
    }
  }

  lemma ExtendRun(run: seq<System>, steps: seq<Step>, t: System, step: Step)
    requires IsRun(run, steps) && Next(run[|run| - 1], t, step)
    ensures IsRun(run + [t], steps + [step])
  {
    hide Next, Init;
  }

  /** With any wider window some run makes the receiver discard a packet. */
  lemma WideWindowDiscards(window: nat) returns (run: seq<System>, steps: seq<Step>, p: Packet)
    requires window > MaxBufferedPackets + 1
    ensures IsRun(run, steps) && run[0].snd.window == window
    ensures p in run[|steps|].log && !HasRoom(run[|steps|].rcv, p)
    ensures Receive(run[|steps|].rcv, p) == run[|steps|].rcv
  {
    var source: seq<Byte> := seq(window, _ => 0);
    run, steps := EmitMany(source, window, window);
    hide IsRun;
    p := run[window].log[window - 1];
  }

  /** The reader behaves for every read that filling the window consumes. */
  ghost predicate HonestInput(source: seq<Byte>, s: Sender, input: seq<Read>, now: nat)
    decreases |input|
  {
    input != [] && HasCapacity(s) && !s.doneQueued ==>
      && HonestRead(source, s.offset, s.chunkSize, input[0])
      && var next := NextOutbound(s, input[0]);
         next.Sent? ==> HonestInput(source, Launched(next, now), input[1..], now)
  }

  lemma {:induction false} FillRoomIsRun(run: seq<System>, steps: seq<Step>, input: seq<Read>, now: nat)
    returns (run': seq<System>, steps': seq<Step>)
    requires IsRun(run, steps) && |run| == |steps| + 1
    requires HonestInput(run[|steps|].source, run[|steps|].snd, input, now)
    ensures IsRun(run', steps') && |run'| == |steps'| + 1 && run <= run'
    ensures var t, filled := run[|steps|], FillRoom(run[|steps|].snd, input, now);
            run'[|steps'|] == t.(snd := filled.sender, log := t.log + filled.packets)
    decreases |input|
  {
    hide IsRun, HasCapacity, NextOutbound, Launch, HonestRead;
    var t := run[|steps|];
    if input != [] && HasCapacity(t.snd) && !t.snd.doneQueued && NextOutbound(t.snd, input[0]).Sent? {
      var next := NextOutbound(t.snd, input[0]);
      var t' := t.(snd := Launched(next, now), log := t.log + [next.packet]);
      var step := Emit(input[0], now);
      assert Next(t, t', step);
      ExtendRun(run, steps, t', step);
      run', steps' := FillRoomIsRun(run + [t'], steps + [step], input[1..], now);
      assert t'.log + FillRoom(t'.snd, input[1..], now).packets
          == t.log + ([next.packet] + FillRoom(t'.snd, input[1..], now).packets);
    } else {
      NothingKeeps(t.snd, if input == [] then Read([], More) else input[0]);
      run', steps' := run, steps;
      assert t.log + [] == t.log;
    }
  }

  /** Filling the window in one go is a run of single emissions. */
  lemma FillIsRun(run: seq<System>, steps: seq<Step>, input: seq<Read>, now: nat)
    returns (run': seq<System>, steps': seq<Step>)
    requires IsRun(run, steps) && |run| == |steps| + 1
    requires HonestInput(run[|steps|].source, run[|steps|].snd, input, now)
    ensures IsRun(run', steps') && |run'| == |steps'| + 1 && run <= run'
    ensures var t, filled := run[|steps|], FillWindow(run[|steps|].snd, input, now);
            run'[|steps'|] == t.(snd := filled.sender, log := t.log + filled.packets)
  {
    hide IsRun, HonestInput, FillRoom;
    var t := run[|steps|];
    if |t.snd.inFlight| == 0 && t.snd.pendingErr {
      run', steps' := run, steps;
      assert t.log + [] == t.log;
    } else {
      run', steps' := FillRoomIsRun(run, steps, input, now);
    }
  }

  lemma NothingKeeps(s: Sender, r: Read)
    ensures NextOutbound(s, r).Nothing? ==> NextOutbound(s, r).sender == s
  {
  }

  /** From every reachable state in which the destination still takes writes, delivering the
      next expected packet, again and again, brings the receiver to the end of the log. */
  lemma {:induction false} DeliverRest(run: seq<System>, steps: seq<Step>)
    returns (run': seq<System>, steps': seq<Step>)
    requires IsRun(run, steps) && |run| == |steps| + 1 && !run[|steps|].stopped
    ensures IsRun(run', steps') && run <= run' && steps <= steps'
    ensures |run'| == |steps'| + 1
    ensures var t, t' := run[|steps|], run'[|steps'|];
            && t' == t.(rcv := t'.rcv) && t'.rcv.expected == |t.log|
            && |steps'| - |steps| <= |t.log| - t.rcv.expected
    decreases |run[|steps|].log| - run[|steps|].rcv.expected
  {
    hide IsRun, Inv, Next, Receive;
    var t := run[|steps|];
    RunKeeps(run, steps, |steps|);
    ExpectedInLog(t);
    if t.rcv.expected == |t.log| {
      return run, steps;
    }
    var t', step := ExpectedArrives(t);
    ExtendRun(run, steps, t', step);
    run', steps' := DeliverRest(run + [t'], steps + [step]);
  }

  lemma ExpectedInLog(t: System)
    requires Inv(t)
    ensures t.rcv.expected <= |t.log| && t.snd.offset <= |t.source| && (t.snd.eof ==> t.snd.offset == |t.source|)
    ensures t.snd.nextSeq == |t.log| && forall n :: n in t.snd.inFlight ==> n < |t.log|
  {
    hide OutputOk, AcksOk, WindowOk, BufferOk, Fits, Held;
  }

  lemma ExpectedArrives(t: System) returns (t': System, step: Step)
    requires Inv(t) && !t.stopped && t.rcv.expected < |t.log|
    ensures Next(t, t', step) && t' == t.(rcv := t'.rcv)
    ensures t.rcv.expected < t'.rcv.expected <= |t.log|
  {
    hide LogOk, FlightOk, OutputOk, AcksOk, WindowOk, BufferOk, Receive, Delivering;
    var p := t.log[t.rcv.expected];
    t', step := t.(rcv := Receive(t.rcv, p)), PacketArrives(p);
    InvDelivering(t);
    ReceiveKeeps(t.source, t.snd, t.rcv, t.log, t.rcv.expected);
    DeliveringInv(t.source, t.snd, t'.rcv, t.log);
    PacketAt(t.source, t.snd, t.log, t.rcv.expected);
    ReceiveMoves(t.rcv, p);
  }

  lemma ReceiveMoves(r: Receiver, p: Packet)
    requires p.seqNo == r.expected
    ensures r.expected < Receive(r, p).expected
  {
    match p
    case Data(_, _, payload) => AdvanceMoves(Receiver(r.expected + 1, r.buffered, r.out + payload, r.complete));
    case Done(_, _) =>
  }

  lemma {:induction false} AdvanceMoves(r: Receiver)
    ensures r.expected <= Advance(r).expected
    decreases |r.buffered|
  {
    if r.expected in r.buffered && r.buffered[r.expected].Data? {
      var rest := Maps.Without(r.buffered, r.expected);
      AdvanceMoves(Receiver(r.expected + 1, rest, r.out + r.buffered[r.expected].payload, r.complete));
    }
  }

  /** Nothing in flight and a window as wide as it gets. */
  ghost predicate IsQuiet(s: Sender) {
    s.inFlight == map[] && s.ackFloor == s.nextSeq
  }

  /** Delivering what is expected, and one acknowledgement, leave nothing in flight. */
  lemma Quieten(run: seq<System>, steps: seq<Step>) returns (run': seq<System>, steps': seq<Step>)
    requires IsRun(run, steps) && |run| == |steps| + 1 && !run[|steps|].stopped
    ensures IsRun(run', steps') && run <= run' && |run'| == |steps'| + 1
    ensures var t, t' := run[|steps|], run'[|steps'|];
            && t'.source == t.source && t'.log == t.log && !t'.stopped && IsQuiet(t'.snd) && t'.rcv.expected == |t'.log|
            && SamePlan(t.snd, t'.snd) && |steps'| - |steps| <= |t.log| - t.rcv.expected + 2
  {
    hide IsRun, Inv, Next, BuiltFrom;
    var run1, steps1 := DeliverRest(run, steps);
    var t := run1[|steps1|];
    RunKeeps(run1, steps1, |steps1|);
    ExpectedInLog(t);
    FloorBelow(t);
    var ack := Ack(|t.log|, 0, []);
    BareAck(t, ack);
    var t1 := AckGoesOut(t, ack);
    ExtendRun(run1, steps1, t1, AckSent(ack));
    var run2, steps2 := run1 + [t1], steps1 + [AckSent(ack)];
    GenuineAcksArePlausible(run2, steps2, |steps2|, ack);
    var t2 := AckComesIn(t1, ack);
    ExtendRun(run2, steps2, t2, AckArrives(ack));
    run', steps' := run2 + [t2], steps2 + [AckArrives(ack)];
  }

  lemma AckGoesOut(t: System, ack: Ack) returns (t': System)
    requires !t.stopped && BuiltFrom(ack, t.rcv.buffered.Keys, t.rcv.expected)
    ensures Next(t, t', AckSent(ack)) && t' == t.(acks := t.acks + {ack})
  {
    hide BuiltFrom;
    t' := t.(acks := t.acks + {ack});
  }

  lemma AckComesIn(t: System, ack: Ack) returns (t': System)
    requires ack in t.acks && Plausible(t.snd.nextSeq, ack) && ack.floor == t.snd.nextSeq && t.snd.ackFloor <= ack.floor
    requires forall n :: n in t.snd.inFlight ==> n < ack.floor
    ensures Next(t, t', AckArrives(ack)) && IsQuiet(t'.snd) && SamePlan(t.snd, t'.snd) && t' == t.(snd := t'.snd)
  {
    hide Covered, Plausible;
    AckClears(t.snd, ack);
    t' := t.(snd := AfterAck(t.snd, ack));
  }

  /** What acknowledgements leave alone. */
  ghost predicate SamePlan(s: Sender, s': Sender) {
    s' == s.(ackFloor := s'.ackFloor, inFlight := s'.inFlight, packetsAcked := s'.packetsAcked)
  }

  lemma FloorBelow(t: System)
    requires Inv(t)
    ensures t.snd.ackFloor <= t.snd.nextSeq
  {
    hide LogOk, FlightOk, OutputOk, AcksOk, ReceiverOk;
  }

  /** How many packets are still to be numbered, at the most. */
  ghost function ToGo(t: System): int {
    if t.snd.doneQueued then 0 else |t.source| - t.snd.offset + 1
  }

  /** A quiet sender with an honest reader puts the next packet on the wire. */
  lemma EmitNext(t: System) returns (t': System, step: Step)
    requires Inv(t) && IsQuiet(t.snd) && CanGoOn(t.snd) && !t.snd.doneQueued
    ensures Next(t, t', step) && 0 <= ToGo(t') < ToGo(t) && CanGoOn(t'.snd)
    ensures t'.source == t.source && t'.stopped == t.stopped && t'.rcv == t.rcv && |t'.log| == |t.log| + 1
  {
    ExpectedInLog(t);
    hide Inv, Launch;
    var rest, chunk := |t.source| - t.snd.offset, t.snd.chunkSize;
    var length := if rest < chunk then rest else chunk;
    var read := if rest == 0 then Read([], Eof) else Read(t.source[t.snd.offset..t.snd.offset + length], More);
    step := Emit(read, 0);
    var next := NextOutbound(t.snd, read);
    t' := t.(snd := Launched(next, 0), log := t.log + [next.packet]);
  }

  /** Neither the settings nor a broken reader keep the sender from reaching its DONE. */
  ghost predicate CanGoOn(s: Sender) {
    s.doneQueued || (s.window > 0 && s.chunkSize > 0 && !s.pendingErr)
  }

  /** No reachable state is stuck: while the destination takes writes and the reader is not
      broken, the rest of the source can be sent, delivered and acknowledged, and the send
      succeeds with the whole source written. */
  lemma {:induction false} CanAlwaysFinish(run: seq<System>, steps: seq<Step>)
    returns (run': seq<System>, steps': seq<Step>)
    requires IsRun(run, steps) && |run| == |steps| + 1 && !run[|steps|].stopped && CanGoOn(run[|steps|].snd)
    ensures IsRun(run', steps') && run <= run' && |run'| == |steps'| + 1
    ensures var t' := run'[|steps'|];
            && |t'.snd.inFlight| == 0 && t'.snd.doneQueued && t'.rcv.out == run[0].source
    ensures var t := run[|steps|];
            |steps'| - |steps| <= |t.log| - t.rcv.expected + 2 + 4 * ToGo(t)
    decreases ToGo(run[|steps|])
  {
    hide IsRun, Inv, Next, SendSucceeds;
    run', steps' := Quieten(run, steps);
    var t := run'[|steps'|];
    if t.snd.doneQueued {
      QuietMeansWritten(run', steps');
      return;
    }
    var t', step := EmitNextInRun(run', steps');
    run', steps' := CanAlwaysFinish(run' + [t'], steps' + [step]);
  }

  lemma QuietMeansWritten(run: seq<System>, steps: seq<Step>)
    requires IsRun(run, steps) && |run| == |steps| + 1 && IsQuiet(run[|steps|].snd) && run[|steps|].snd.doneQueued
    ensures run[|steps|].rcv.out == run[0].source
  {
    hide IsRun;
    SuccessMeansWritten(run, steps, |steps|, 0);
  }

  lemma EmitNextInRun(run: seq<System>, steps: seq<Step>) returns (t': System, step: Step)
    requires IsRun(run, steps) && |run| == |steps| + 1
    requires IsQuiet(run[|steps|].snd) && CanGoOn(run[|steps|].snd) && !run[|steps|].snd.doneQueued
    ensures IsRun(run + [t'], steps + [step])
    ensures var t := run[|steps|];
            && 0 <= ToGo(t') < ToGo(t) && CanGoOn(t'.snd)
            && t'.source == t.source && t'.stopped == t.stopped && t'.rcv == t.rcv && |t'.log| == |t.log| + 1
  {
    hide IsRun, Inv, Next;
    RunKeeps(run, steps, |steps|);
    t', step := EmitNext(run[|steps|]);
    ExtendRun(run, steps, t', step);
  }

  /** And a send whose reader broke never gets to its DONE. */
  lemma {:induction false} BrokenNeverFinishes(run: seq<System>, steps: seq<Step>, i: nat, j: nat)
    requires IsRun(run, steps) && i <= j < |run|
    requires run[i].snd.pendingErr && !run[i].snd.doneQueued
    ensures run[j].snd.pendingErr && !run[j].snd.doneQueued
    decreases j
  {
    if i < j {
      BrokenNeverFinishes(run, steps, i, j - 1);
      assert Next(run[j - 1], run[j], steps[j - 1]);
      hide IsRun;
      StaysBroken(run[j - 1], run[j], steps[j - 1]);
    }
  }

  lemma StaysBroken(t: System, t': System, step: Step)
    requires Next(t, t', step) && t.snd.pendingErr && !t.snd.doneQueued
    ensures t'.snd.pendingErr && !t'.snd.doneQueued
  {
    hide Receive, BuiltFrom, Plausible, HonestRead;
  }

  /** The acknowledgement sent when nothing is buffered: a floor and no marks. */
  lemma BareAck(t: System, ack: Ack)
    requires Inv(t) && t.rcv.expected == |t.log| && ack == Ack(|t.log|, 0, [])
    ensures BuiltFrom(ack, t.rcv.buffered.Keys, t.rcv.expected)
  {
    hide LogOk, FlightOk, OutputOk, WindowOk, AcksOk, Has64;
    NothingAtEnd(t.rcv.buffered, t.log);
    forall d: nat
      ensures !Marks(ack, d)
    {
      if d < MaskBits {
        EmptyWord(d);
      }
    }
  }

  lemma NothingAtEnd(b: map<nat, Packet>, log: seq<Packet>)
    requires BufferOk(b, log, |log| + 1)
    ensures b == map[]
  {
  }

  lemma AckClears(s: Sender, ack: Ack)
    requires forall n :: n in s.inFlight ==> n < ack.floor
    ensures AfterAck(s, ack).inFlight == map[]
  {
    hide Marks;
  }
}

/** Whole runs of the striped transport over a network that may lose, repeat, delay and
    reorder packets and acknowledgements of every stripe. */
module StripedSafety {
  import opened Bits
  import opened Lanes
  import opened Options
  import opened Reassembly
  import opened SelectiveAck
  import opened StripedTransport
  import opened StripePlan

  datatype System = System(
    source: seq<Byte>,
    snd: Sender,
    rcv: Receiver,
    stopped: bool,
    dest: seq<Byte>,
    plan: Plan,
    acks: seq<set<Ack>>)

  datatype Step =
    | Emit(i: nat, read: Read, now: nat)
    | Resend(i: nat, expired: set<nat>)
    | AckArrives(i: nat, ack: Ack)
    | PacketArrives(i: nat, k: nat)
    | WriteFails(i: nat, k: nat, kept: nat)
    | AckSent(i: nat, ack: Ack)

  ghost predicate Init(t: System) {
    var n := |t.snd.stripes|;
    && n > 0
    && t.snd == Sender(t.snd.chunkSize, t.snd.window, 0, false, false, seq(n, _ => SendStripe(0, false, map[])))
    && t.rcv == Receiver(seq(n, _ => RecvStripe(0, map[], false)), Buffer(0, map[], []), None, 0)
    && !t.stopped && t.dest == []
    && t.plan == Plan([], [], seq(n, _ => []), seq(n, _ => []))
    && t.acks == seq(n, _ => {})
  }

  /** Puts a packet of stripe `i` in flight. */
  function Launched(s: Sender, i: nat, p: Packet, now: nat): Sender
    requires i < |s.stripes|
  {
    s.(stripes := s.stripes[i := s.stripes[i].(inFlight := Launch(s.stripes[i].inFlight, p, now))])
  }

  ghost predicate Shape(t: System) {
    |t.snd.stripes| == |t.rcv.stripes| == |t.plan.lanes| == |t.plan.sent| == |t.acks|
  }

  ghost predicate Arrives(t: System, i: nat, k: nat) {
    !t.stopped && !Complete(t.rcv) && i < |t.plan.sent| && k < |t.plan.sent[i]|
  }

  ghost predicate Next(t: System, t': System, step: Step) {
    && Shape(t)
    && match step
       case Emit(i, read, now) =>
         && MaySend(t.snd, i)
         && HonestRead(t.source, t.snd.offset, t.snd.chunkSize, read)
         && var next := NextOutbound(t.snd, i, read);
            && next.Sent?
            && t' == t.(snd := Launched(next.sender, i, next.packet, now), plan := Planned(t.plan, i, next.packet))
       case Resend(i, expired) =>
         && i < |t.snd.stripes|
         && var stripe := t.snd.stripes[i];
            var stripe' := stripe.(inFlight := Retransmit(stripe.inFlight, expired));
            t' == t.(snd := t.snd.(stripes := t.snd.stripes[i := stripe']))
       case AckArrives(i, ack) =>
         && i < |t.acks| && ack in t.acks[i]
         && var stripe := t.snd.stripes[i];
            var rest := if Plausible(stripe.nextSeq, ack) then stripe.inFlight - Covered(stripe.inFlight.Keys, ack)
                        else stripe.inFlight;
            t' == t.(snd := t.snd.(stripes := t.snd.stripes[i := stripe.(inFlight := rest)]))
       case PacketArrives(i, k) =>
         && Arrives(t, i, k)
         && var result := Receive(t.rcv, i, t.plan.sent[i][k]);
            t' == if result.Ok? then t.(rcv := result.receiver, dest := result.receiver.buffer.out)
                  else t.(stopped := true)
       case WriteFails(i, k, kept) =>
         && Arrives(t, i, k)
         && var result := Receive(t.rcv, i, t.plan.sent[i][k]);
            && result.Ok?
            && |t.dest| <= kept <= |result.receiver.buffer.out|
            && t' == t.(dest := result.receiver.buffer.out[..kept], stopped := true)
       case AckSent(i, ack) =>
         && !t.stopped && i < |t.acks|
         && BuiltFrom(ack, t.rcv.stripes[i].buffered.Keys, t.rcv.stripes[i].expected)
         && t' == t.(acks := t.acks[i := t.acks[i] + {ack}])
  }

  ghost predicate IsRun(run: seq<System>, steps: seq<Step>) {
    && |run| == |steps| + 1
    && Init(run[0])
    && (forall i :: 0 <= i < |steps| ==> Next(run[i], run[i + 1], steps[i]))
  }

  // ----- The joint invariant -----

  ghost predicate SenderOk(source: seq<Byte>, s: Sender, plan: Plan) {
    && |s.stripes| == |plan.sent| == |plan.lanes|
    && s.offset <= |source|
    && (s.eof ==> s.offset == |source|)
    && (forall i :: 0 <= i < |s.stripes| ==>
          && s.stripes[i].nextSeq == |plan.sent[i]|
          && (s.stripes[i].doneQueued <==> |plan.sent[i]| == |plan.lanes[i]| + 1)
          && (s.stripes[i].doneQueued ==> s.eof))
  }

  /** The two ends of one stripe. */
  ghost predicate EndsOk(inFlight: map<nat, Outbound>, acks: set<Ack>, stripe: RecvStripe, sent: seq<Packet>) {
    && FlightOk(inFlight, stripe.expected, stripe.buffered, sent)
    && AcksOk(acks, stripe.expected, stripe.buffered)
  }

  /** No stripe has its next packet waiting in its buffer. */
  ghost predicate Drained(stripes: seq<RecvStripe>) {
    forall i :: 0 <= i < |stripes| ==> stripes[i].expected !in stripes[i].buffered
  }

  ghost predicate AllInReach(stripes: seq<RecvStripe>) {
    forall i :: 0 <= i < |stripes| ==> InReach(stripes[i].expected, stripes[i].buffered)
  }

  ghost predicate Inv(t: System) {
    && Shape(t)
    && PlanOk(t.source, t.snd.offset, t.plan)
    && SenderOk(t.source, t.snd, t.plan)
    && (forall i :: 0 <= i < |t.acks| ==>
        EndsOk(t.snd.stripes[i].inFlight, t.acks[i], t.rcv.stripes[i], t.plan.sent[i]))
    && Accepting(t.source, t.snd.offset, t.plan, t.rcv)
    && Drained(t.rcv.stripes) && AllInReach(t.rcv.stripes)
    && t.rcv.buffer.out <= t.dest <= t.source
    && (!t.stopped ==> t.dest == t.rcv.buffer.out)
  }

  // ----- Receiving -----

  lemma CompleteDrained(source: seq<Byte>, end: nat, plan: Plan, r: Receiver)
    requires PlanOk(source, end, plan) && Accepting(source, end, plan, r) && Complete(r)
    ensures Drained(r.stripes)
  {
    hide PlanOk, Accepting;
    CompleteMeansDone(source, end, plan, r);
    forall i | 0 <= i < |r.stripes|
      ensures r.stripes[i].expected !in r.stripes[i].buffered
    {
      DoneStripeEmpty(source, end, plan, r, i);
    }
  }

  ghost predicate DrainedExcept(stripes: seq<RecvStripe>, i: nat) {
    forall j :: 0 <= j < |stripes| && j != i ==> stripes[j].expected !in stripes[j].buffered
  }

  lemma ReachMoves(stripe: RecvStripe, stripe': RecvStripe)
    requires InReach(stripe.expected, stripe.buffered) && stripe'.buffered.Keys <= stripe.buffered.Keys
    ensures InReach(stripe.expected + 1, stripe'.buffered)
  {
  }

  lemma {:induction false} DrainKeeps(source: seq<Byte>, end: nat, plan: Plan, r: Receiver, i: nat)
    requires PlanOk(source, end, plan) && Accepting(source, end, plan, r)
    requires i < |r.stripes| && DrainedExcept(r.stripes, i) && AllInReach(r.stripes)
    ensures Drain(r, i).Ok?
    ensures Accepting(source, end, plan, Drain(r, i).receiver) && Onward(r, Drain(r, i).receiver)
    ensures Drained(Drain(r, i).receiver.stripes) && AllInReach(Drain(r, i).receiver.stripes)
    decreases |r.stripes[i].buffered|
  {
    assert |r.stripes| == |plan.sent|;
    hide PlanOk, Accepting, Onward, AcceptPacket;
    if Complete(r) {
      CompleteDrained(source, end, plan, r);
      OnwardSelf(r);
    } else if r.stripes[i].expected in r.stripes[i].buffered {
      NextBuffered(source, end, plan, r, i);
      AcceptNext(source, end, plan, r, i, Unbuffer(r, i));
      ReachMoves(r.stripes[i], Unbuffer(r, i).stripes[i]);
      var r' := AcceptPacket(Unbuffer(r, i), i, plan.sent[i][r.stripes[i].expected]).receiver;
      SameStripes(r, r');
      DrainKeeps(source, end, plan, r', i);
      OnwardTrans(r, r', Drain(r', i).receiver);
    } else {
      OnwardSelf(r);
    }
  }

  /** Keeping an early packet leaves every stripe drained and within reach. */
  lemma KeepKeeps(r: Receiver, i: nat, k: nat, p: Packet, r': Receiver)
    requires Drained(r.stripes) && AllInReach(r.stripes) && i < |r.stripes| && Bufferable(r.stripes[i].expected, k)
    requires k != r.stripes[i].expected
    requires r' == r.(stripes := r.stripes[i := r.stripes[i].(buffered := r.stripes[i].buffered[k := p])])
    ensures Drained(r'.stripes) && AllInReach(r'.stripes)
  {
  }

  lemma ReceiveEarly(source: seq<Byte>, end: nat, plan: Plan, r: Receiver, i: nat, k: nat)
    requires PlanOk(source, end, plan) && Accepting(source, end, plan, r) && Drained(r.stripes) && AllInReach(r.stripes)
    requires |r.stripes| == |plan.sent| && i < |r.stripes| && k < |plan.sent[i]| && plan.sent[i][k].seqNo == k
    requires k != r.stripes[i].expected && Bufferable(r.stripes[i].expected, k)
    ensures var result := Receive(r, i, plan.sent[i][k]);
            && result.Ok?
            && Accepting(source, end, plan, result.receiver) && Onward(r, result.receiver)
            && Drained(result.receiver.stripes) && AllInReach(result.receiver.stripes)
  {
    var r' := Receive(r, i, plan.sent[i][k]).receiver;
    assert r' == r.(stripes := r.stripes[i := r.stripes[i].(buffered := r.stripes[i].buffered[k := plan.sent[i][k]])]);
    assert r.stripes[i].expected < k;
    hide *;
    KeepForLater(source, end, plan, r, i, k, r');
    KeepKeeps(r, i, k, plan.sent[i][k], r');
  }

  lemma ReceiveInTurn(source: seq<Byte>, end: nat, plan: Plan, r: Receiver, i: nat, k: nat)
    requires PlanOk(source, end, plan) && Accepting(source, end, plan, r) && Drained(r.stripes) && AllInReach(r.stripes)
    requires |r.stripes| == |plan.sent| && i < |r.stripes| && k < |plan.sent[i]|
             && plan.sent[i][k].seqNo == k == r.stripes[i].expected
    ensures var result := Receive(r, i, plan.sent[i][k]);
            && result.Ok?
            && Accepting(source, end, plan, result.receiver) && Onward(r, result.receiver)
            && Drained(result.receiver.stripes) && AllInReach(result.receiver.stripes)
  {
    hide PlanOk, Accepting, Onward, AcceptPacket, Drain;
    AcceptNext(source, end, plan, r, i, r);
    ReachMoves(r.stripes[i], r.stripes[i]);
    var r' := AcceptPacket(r, i, plan.sent[i][k]).receiver;
    SameStripes(r, r');
    DrainKeeps(source, end, plan, r', i);
    OnwardTrans(r, r', Drain(r', i).receiver);
  }

  /** The receiver's reaction to any packet of the plan succeeds and keeps it exact. */
  lemma ReceiveKeeps(source: seq<Byte>, end: nat, plan: Plan, r: Receiver, i: nat, k: nat)
    requires PlanOk(source, end, plan) && Accepting(source, end, plan, r) && Drained(r.stripes) && AllInReach(r.stripes)
    requires i < |r.stripes| && k < |plan.sent[i]|
    ensures var result := Receive(r, i, plan.sent[i][k]);
            && result.Ok?
            && Accepting(source, end, plan, result.receiver) && Onward(r, result.receiver)
            && Drained(result.receiver.stripes) && AllInReach(result.receiver.stripes)
  {
    assert |r.stripes| == |plan.sent|;
    hide PlanOk, Accepting, Onward, AcceptPacket, Drain, Drained, AllInReach;
    PacketAt(source, end, plan, i, k);
    if k == r.stripes[i].expected {
      hide Receive;
      ReceiveInTurn(source, end, plan, r, i, k);
    } else if Bufferable(r.stripes[i].expected, k) {
      hide Receive;
      ReceiveEarly(source, end, plan, r, i, k);
    } else {
      OnwardSelf(r);
    }
  }

  lemma LaterEnds(t: System, rcv': Receiver)
    requires Inv(t) && Onward(t.rcv, rcv')
    ensures forall i :: 0 <= i < |t.acks| ==>
            EndsOk(t.snd.stripes[i].inFlight, t.acks[i], rcv'.stripes[i], t.plan.sent[i])
  {
    hide PlanOk, SenderOk, Accepting, Later, FlightOk, AcksOk;
    forall i | 0 <= i < |t.acks|
      ensures EndsOk(t.snd.stripes[i].inFlight, t.acks[i], rcv'.stripes[i], t.plan.sent[i])
    {
      assert EndsOk(t.snd.stripes[i].inFlight, t.acks[i], t.rcv.stripes[i], t.plan.sent[i]);
      LaterKeeps(t.snd.stripes[i].inFlight, t.acks[i], t.plan.sent[i],
                 t.rcv.stripes[i].expected, t.rcv.stripes[i].buffered,
                 rcv'.stripes[i].expected, rcv'.stripes[i].buffered);
    }
  }

  lemma PacketArrivesKeeps(t: System, t': System, i: nat, k: nat)
    requires Inv(t) && Next(t, t', PacketArrives(i, k))
    ensures Inv(t')
  {
    hide PlanOk, SenderOk, Accepting, EndsOk, Receive, Drained;
    ReceiveKeeps(t.source, t.snd.offset, t.plan, t.rcv, i, k);
    LaterEnds(t, t'.rcv);
    OutputIsPiece(t.source, t.snd.offset, t.plan, t'.rcv);
  }

  lemma WriteFailsKeeps(t: System, t': System, i: nat, k: nat, kept: nat)
    requires Inv(t) && Next(t, t', WriteFails(i, k, kept))
    ensures Inv(t')
  {
    hide PlanOk, SenderOk, Accepting, EndsOk, Receive, Drained;
    ReceiveKeeps(t.source, t.snd.offset, t.plan, t.rcv, i, k);
    OutputIsPiece(t.source, t.snd.offset, t.plan, Receive(t.rcv, i, t.plan.sent[i][k]).receiver);
  }

  lemma AckSentKeepsInv(t: System, t': System, i: nat, ack: Ack)
    requires Inv(t) && Next(t, t', AckSent(i, ack))
    ensures Inv(t')
  {
    hide PlanOk, SenderOk, FlightOk, AcksOk, TotalsOk, BufferedOk, BuiltFrom, InReach;
    var stripe := t.rcv.stripes[i];
    assert EndsOk(t.snd.stripes[i].inFlight, t.acks[i], stripe, t.plan.sent[i]);
    assert StripeOk(stripe, t.plan.lanes[i], t.plan.sent[i], stripe.expected);
    assert BufferOk(stripe.buffered, t.plan.sent[i], stripe.expected + 1);
    AckSentKeeps(t.acks[i], stripe.expected, stripe.buffered, t.plan.sent[i], ack);
  }

  // ----- Sending -----

  /** Only the packets in flight on stripe `i` change. */
  lemma FlightChanges(t: System, t': System, i: nat, inFlight: map<nat, Outbound>)
    requires Inv(t) && i < |t.snd.stripes|
    requires t' == t.(snd := t.snd.(stripes := t.snd.stripes[i := t.snd.stripes[i].(inFlight := inFlight)]))
    requires FlightOk(inFlight, t.rcv.stripes[i].expected, t.rcv.stripes[i].buffered, t.plan.sent[i])
    ensures Inv(t')
  {
    hide PlanOk, FlightOk, AcksOk, Accepting;
  }

  lemma ResendKeeps(t: System, t': System, i: nat, expired: set<nat>)
    requires Inv(t) && Next(t, t', Resend(i, expired))
    ensures Inv(t')
  {
    hide PlanOk, SenderOk, FlightOk, AcksOk, Accepting, Retransmit;
    assert EndsOk(t.snd.stripes[i].inFlight, t.acks[i], t.rcv.stripes[i], t.plan.sent[i]);
    ResendKeepsFlight(t.snd.stripes[i].inFlight, t.rcv.stripes[i].expected, t.rcv.stripes[i].buffered, t.plan.sent[i],
                      expired);
    FlightChanges(t, t', i, Retransmit(t.snd.stripes[i].inFlight, expired));
  }

  lemma AckArrivesKeeps(t: System, t': System, i: nat, ack: Ack)
    requires Inv(t) && Next(t, t', AckArrives(i, ack))
    ensures Inv(t')
  {
    hide PlanOk, SenderOk, FlightOk, Accepting, Covered, Plausible;
    var stripe := t.snd.stripes[i];
    assert EndsOk(stripe.inFlight, t.acks[i], t.rcv.stripes[i], t.plan.sent[i]);
    AckKeepsFlight(stripe.inFlight, t.rcv.stripes[i].expected, t.rcv.stripes[i].buffered, t.plan.sent[i], ack);
    FlightChanges(t, t', i, t'.snd.stripes[i].inFlight);
  }

  /** What emitting a packet on stripe `i` changes. */
  lemma NextFields(source: seq<Byte>, s: Sender, i: nat, read: Read)
    requires i < |s.stripes| && !s.stripes[i].doneQueued && s.offset <= |source|
    requires HonestRead(source, s.offset, s.chunkSize, read) && (s.eof ==> s.offset == |source|)
    ensures var next := NextOutbound(s, i, read);
            next.Sent? ==>
              && var p, s' := next.packet, next.sender;
              && |s'.stripes| == |s.stripes|
              && s'.stripes == s.stripes[i := s.stripes[i].(nextSeq := s.stripes[i].nextSeq + 1, doneQueued := p.Done?)]
              && s'.window == s.window && p.seqNo == s.stripes[i].nextSeq && p.offset == s.offset
              && (s.eof ==> s'.eof) && (s'.eof ==> s'.offset == |source|) && s'.offset <= |source|
              && match p
                 case Data(_, _, payload) =>
                   && 0 < |payload| && s'.offset == s.offset + |payload|
                   && payload == source[s.offset..s'.offset]
                 case Done(_, _) => s'.eof && s'.offset == s.offset
  {
  }

  lemma EmitKeepsSender(source: seq<Byte>, s: Sender, plan: Plan, i: nat, read: Read, now: nat)
    requires SenderOk(source, s, plan) && i < |s.stripes| && !s.stripes[i].doneQueued
    requires |plan.lanes[i]| == |plan.sent[i]|
    requires HonestRead(source, s.offset, s.chunkSize, read) && NextOutbound(s, i, read).Sent?
    ensures var next := NextOutbound(s, i, read);
            SenderOk(source, Launched(next.sender, i, next.packet, now), Planned(plan, i, next.packet))
  {
    hide NextOutbound, HonestRead, Launch;
    NextFields(source, s, i, read);
  }

  lemma EmitKeepsEnds(t: System, i: nat, p: Packet, now: nat)
    requires Inv(t) && i < |t.snd.stripes| && p.seqNo == |t.plan.sent[i]|
    ensures EndsOk(Launch(t.snd.stripes[i].inFlight, p, now), t.acks[i], t.rcv.stripes[i], t.plan.sent[i] + [p])
  {
    hide PlanOk, SenderOk, Accepting, FlightOk, AcksOk, Launch;
    assert EndsOk(t.snd.stripes[i].inFlight, t.acks[i], t.rcv.stripes[i], t.plan.sent[i]);
    EmitKeepsFlight(t.snd.stripes[i].inFlight, t.rcv.stripes[i].expected, t.rcv.stripes[i].buffered, t.plan.sent[i],
                    p, now);
  }

  /** A stripe that has not queued DONE has put exactly its lane's packets on the wire. */
  lemma NotDoneYet(t: System, i: nat)
    requires Inv(t) && i < |t.snd.stripes| && !t.snd.stripes[i].doneQueued
    ensures |t.plan.sent[i]| == |t.plan.lanes[i]| == t.snd.stripes[i].nextSeq
  {
    hide Accepting, EndsOk, Cuts, HomesOk;
    if |t.plan.sent[i]| > |t.plan.lanes[i]| {
      PacketAt(t.source, t.snd.offset, t.plan, i, |t.plan.sent[i]| - 1);
    }
    assert LaneOk(t.plan.chunks, |t.source|, t.plan.lanes[i], t.plan.sent[i]);
  }

  lemma EmitKeeps(t: System, t': System, i: nat, read: Read, now: nat)
    requires Inv(t) && Next(t, t', Emit(i, read, now))
    ensures Inv(t')
  {
    NotDoneYet(t, i);
    assert t.snd.offset <= |t.source| && (t.snd.eof ==> t.snd.offset == |t.source|);
    hide PlanOk, SenderOk, Accepting, EndsOk, NextOutbound, HonestRead, Launch, Drained;
    var next := NextOutbound(t.snd, i, read);
    var p := next.packet;
    NextFields(t.source, t.snd, i, read);
    EmitKeepsSender(t.source, t.snd, t.plan, i, read, now);
    EmitKeepsPlan(t.source, t.snd.offset, t.plan, i, p, next.sender.offset);
    EmitKeepsAccepting(t.source, t.snd.offset, t.plan, t.rcv, i, p, next.sender.offset);
    EmitKeepsEnds(t, i, p, now);
  }

  // ----- Runs -----

  lemma StepKeeps(t: System, t': System, step: Step)
    requires Inv(t) && Next(t, t', step)
    ensures Inv(t')
  {
    hide Inv, Next;
    match step
    case Emit(i, read, now) => EmitKeeps(t, t', i, read, now);
    case Resend(i, expired) => ResendKeeps(t, t', i, expired);
    case AckArrives(i, ack) => AckArrivesKeeps(t, t', i, ack);
    case PacketArrives(i, k) => PacketArrivesKeeps(t, t', i, k);
    case WriteFails(i, k, kept) => WriteFailsKeeps(t, t', i, k, kept);
    case AckSent(i, ack) => AckSentKeepsInv(t, t', i, ack);
  }

  lemma InitHolds(t: System)
    requires Init(t)
    ensures Inv(t)
  {
    hide Waiting;
    NothingWaits(t.plan.chunks);
    assert Taken(t.plan.homes, t.rcv.stripes) == {};
    assert Holds(t.plan.chunks, t.source, 0, {}, 0, t.rcv.buffer);
    assert DoneStripes(t.rcv.stripes) == {};
  }

  /** Every state of every run satisfies the invariant. */
  lemma {:induction false} RunKeeps(run: seq<System>, steps: seq<Step>, n: nat)
    requires IsRun(run, steps) && n < |run|
    ensures Inv(run[n]) && run[n].source == run[0].source
  {
    hide Inv, Init;
    if n == 0 {
      InitHolds(run[0]);
    } else {
      RunKeeps(run, steps, n - 1);
      assert Next(run[n - 1], run[n], steps[n - 1]);
      StepKeeps(run[n - 1], run[n], steps[n - 1]);
    }
  }
}

/** When a striped send can report success: always while the receiver still answers, and in
    exactly two situations once it does not. */
module StripedProgress {
  import opened Bits
  import opened Lanes
  import opened Reassembly
  import opened SelectiveAck
  import opened StripedTransport
  import opened StripePlan
  import opened StripedSafety
  import opened StripedResults

  /** The end of a run, and one run going on from another. */
  function Last(run: seq<System>): System
    requires |run| > 0
  {
    run[|run| - 1]
  }

  ghost predicate Extends(run: seq<System>, steps: seq<Step>, run': seq<System>, steps': seq<Step>) {
    IsRun(run', steps') && |run'| == |steps'| + 1 && run <= run' && steps <= steps'
  }

  lemma OneMore(run: seq<System>, steps: seq<Step>, t: System, step: Step)
    requires IsRun(run, steps) && |run| > 0 && Next(Last(run), t, step)
    ensures Extends(run, steps, run + [t], steps + [step]) && Last(run + [t]) == t
  {
    hide Next, Init;
  }

  lemma ExtendsTrans(run: seq<System>, steps: seq<Step>, run1: seq<System>, steps1: seq<Step>,
                     run2: seq<System>, steps2: seq<Step>)
    requires Extends(run, steps, run1, steps1) && Extends(run1, steps1, run2, steps2)
    ensures Extends(run, steps, run2, steps2)
  {
    hide IsRun;
  }

  lemma LastHolds(run: seq<System>, steps: seq<Step>)
    requires IsRun(run, steps)
    ensures |run| == |steps| + 1 && Inv(Last(run))
  {
    RunKeeps(run, steps, |steps|);
  }

  // ----- Delivering one stripe -----

  lemma {:induction false} DrainMoves(r: Receiver, i: nat)
    requires i < |r.stripes| && Drain(r, i).Ok?
    ensures i < |Drain(r, i).receiver.stripes| && r.stripes[i].expected <= Drain(r, i).receiver.stripes[i].expected
    decreases |r.stripes[i].buffered|
  {
    hide Accept, Complete;
    var stripe := r.stripes[i];
    if !Complete(r) && stripe.expected in stripe.buffered {
      DrainMoves(AcceptPacket(Unbuffer(r, i), i, stripe.buffered[stripe.expected]).receiver, i);
    }
  }

  lemma ReceiveMoves(r: Receiver, i: nat, p: Packet)
    requires i < |r.stripes| && p.seqNo == r.stripes[i].expected && Receive(r, i, p).Ok?
    ensures i < |Receive(r, i, p).receiver.stripes|
    ensures r.stripes[i].expected < Receive(r, i, p).receiver.stripes[i].expected
  {
    hide Accept, Drain;
    DrainMoves(AcceptPacket(r, i, p).receiver, i);
  }

  /** How far a stripe has got, and that an incomplete stripe means an incomplete receive. */
  lemma StripeFacts(t: System, i: nat)
    requires Inv(t) && i < |t.snd.stripes|
    ensures |t.snd.stripes| == |t.rcv.stripes| == |t.plan.sent| == |t.plan.lanes| == |t.acks|
    ensures t.rcv.stripes[i].expected <= |t.plan.sent[i]| == t.snd.stripes[i].nextSeq
    ensures t.rcv.stripes[i].expected < |t.plan.sent[i]| ==> !Complete(t.rcv)
    ensures BufferOk(t.rcv.stripes[i].buffered, t.plan.sent[i], t.rcv.stripes[i].expected)
    ensures forall n :: n in t.snd.stripes[i].inFlight ==>
            n < |t.plan.sent[i]| && t.snd.stripes[i].inFlight[n].packet == t.plan.sent[i][n]
  {
    hide PlanOk, BufferedOk, TotalsOk, AcksOk, BufferOk, InReach, Held;
    assert StripeOk(t.rcv.stripes[i], t.plan.lanes[i], t.plan.sent[i], t.rcv.stripes[i].expected);
    assert EndsOk(t.snd.stripes[i].inFlight, t.acks[i], t.rcv.stripes[i], t.plan.sent[i]);
    if Complete(t.rcv) {
      hide Complete;
      DoneEverywhere(t, i);
    }
  }

  lemma DoneEverywhere(t: System, i: nat)
    requires Inv(t) && i < |t.snd.stripes| && Complete(t.rcv)
    ensures i < |t.rcv.stripes| && t.rcv.stripes[i].done && |t.plan.sent[i]| <= |t.plan.lanes[i]| + 1
  {
    CompleteMeansDone(t.source, t.snd.offset, t.plan, t.rcv);
    hide EndsOk, Accepting, Cuts, HomesOk;
    if |t.plan.sent[i]| > 0 {
      PacketAt(t.source, t.snd.offset, t.plan, i, |t.plan.sent[i]| - 1);
    }
    assert LaneOk(t.plan.chunks, |t.source|, t.plan.lanes[i], t.plan.sent[i]);
  }

  lemma InvParts(t: System)
    requires Inv(t)
    ensures Shape(t) && PlanOk(t.source, t.snd.offset, t.plan) && Accepting(t.source, t.snd.offset, t.plan, t.rcv)
    ensures Drained(t.rcv.stripes) && AllInReach(t.rcv.stripes)
  {
    hide Shape, PlanOk, Accepting, Drained, AllInReach, SenderOk, EndsOk;
  }

  lemma ExpectedArrives(t: System, i: nat) returns (t': System, step: Step)
    requires Inv(t) && !t.stopped && i < |t.snd.stripes| && i < |t.rcv.stripes| && i < |t.plan.sent|
    requires t.rcv.stripes[i].expected < |t.plan.sent[i]|
    ensures Next(t, t', step) && t' == t.(rcv := t'.rcv, dest := t'.dest)
    ensures i < |t'.rcv.stripes| && t.rcv.stripes[i].expected < t'.rcv.stripes[i].expected
  {
    hide Inv, PlanOk, Accepting, Drained, AllInReach, Onward, Receive, Complete, Shape, BufferOk;
    StripeFacts(t, i);
    InvParts(t);
    var k := t.rcv.stripes[i].expected;
    PacketAt(t.source, t.snd.offset, t.plan, i, k);
    ReceiveKeeps(t.source, t.snd.offset, t.plan, t.rcv, i, k);
    ReceiveMoves(t.rcv, i, t.plan.sent[i][k]);
    var result := Receive(t.rcv, i, t.plan.sent[i][k]);
    t', step := t.(rcv := result.receiver, dest := result.receiver.buffer.out), PacketArrives(i, k);
  }

  /** Delivering the next expected packet of a stripe again and again brings it to its end. */
  lemma {:induction false} DeliverStripe(run: seq<System>, steps: seq<Step>, i: nat)
    returns (run': seq<System>, steps': seq<Step>)
    requires IsRun(run, steps) && |run| > 0 && !Last(run).stopped && i < |Last(run).snd.stripes|
    requires i < |Last(run).rcv.stripes| && i < |Last(run).plan.sent|
    ensures Extends(run, steps, run', steps')
    ensures var t, t' := Last(run), Last(run');
            && t' == t.(rcv := t'.rcv, dest := t'.dest)
            && i < |t'.rcv.stripes| && t'.rcv.stripes[i].expected == |t.plan.sent[i]|
    decreases |Last(run).plan.sent[i]| - Last(run).rcv.stripes[i].expected
  {
    LastHolds(run, steps);
    hide IsRun, Inv, Next;
    var t := Last(run);
    StripeFacts(t, i);
    if t.rcv.stripes[i].expected == |t.plan.sent[i]| {
      return run, steps;
    }
    var t', step := ExpectedArrives(t, i);
    OneMore(run, steps, t', step);
    run', steps' := DeliverStripe(run + [t'], steps + [step], i);
    ExtendsTrans(run, steps, run + [t'], steps + [step], run', steps');
  }

  // ----- Acknowledging one stripe -----

  /** The acknowledgement of a stripe that has everything: a floor and no marks. */
  lemma BareAck(stripe: RecvStripe, sent: seq<Packet>, ack: Ack)
    requires BufferOk(stripe.buffered, sent, stripe.expected) && stripe.expected == |sent| && ack == Ack(|sent|, 0, [])
    ensures BuiltFrom(ack, stripe.buffered.Keys, stripe.expected)
  {
    hide Has64;
    NothingBeyond(stripe.buffered, sent);
    forall d: nat
      ensures !Marks(ack, d)
    {
      if d < MaskBits {
        EmptyWord(d);
      }
    }
  }

  lemma AckClears(inFlight: map<nat, Outbound>, ack: Ack)
    requires forall n :: n in inFlight ==> n < ack.floor
    ensures inFlight - Covered(inFlight.Keys, ack) == map[]
  {
    hide Marks;
  }

  /** Only the packets in flight on stripe `i` are different, and there are none. */
  ghost predicate Cleared(s: Sender, s': Sender, i: nat)
    requires i < |s.stripes|
  {
    s' == s.(stripes := s.stripes[i := s.stripes[i].(inFlight := map[])])
  }

  /** Delivering what a stripe still expects, and one acknowledgement, leave nothing of it in
      flight. */
  lemma SettleStripe(run: seq<System>, steps: seq<Step>, i: nat) returns (run': seq<System>, steps': seq<Step>)
    requires IsRun(run, steps) && |run| > 0 && !Last(run).stopped && i < |Last(run).snd.stripes|
    ensures Extends(run, steps, run', steps')
    ensures var t, t' := Last(run), Last(run');
            Cleared(t.snd, t'.snd, i) && !t'.stopped && t'.plan == t.plan && t'.source == t.source
  {
    LastHolds(run, steps);
    hide IsRun, Inv, Next, BuiltFrom, BufferOk;
    StripeFacts(Last(run), i);
    var run1, steps1 := DeliverStripe(run, steps, i);
    LastHolds(run1, steps1);
    var t := Last(run1);
    StripeFacts(t, i);
    assert Shape(t);
    var ack := Ack(|t.plan.sent[i]|, 0, []);
    BareAck(t.rcv.stripes[i], t.plan.sent[i], ack);
    var t1 := AckGoesOut(t, i, ack);
    OneMore(run1, steps1, t1, AckSent(i, ack));
    var run2, steps2 := run1 + [t1], steps1 + [AckSent(i, ack)];
    GenuineAcksArePlausible(run2, steps2, |steps2|, i, ack);
    var t2 := AckComesIn(t1, i, ack);
    OneMore(run2, steps2, t2, AckArrives(i, ack));
    run', steps' := run2 + [t2], steps2 + [AckArrives(i, ack)];
    ExtendsTrans(run, steps, run1, steps1, run2, steps2);
    ExtendsTrans(run, steps, run2, steps2, run', steps');
  }

  lemma AckGoesOut(t: System, i: nat, ack: Ack) returns (t': System)
    requires Shape(t) && !t.stopped && i < |t.acks| && i < |t.rcv.stripes|
    requires BuiltFrom(ack, t.rcv.stripes[i].buffered.Keys, t.rcv.stripes[i].expected)
    ensures Next(t, t', AckSent(i, ack)) && t' == t.(acks := t.acks[i := t.acks[i] + {ack}])
  {
    hide BuiltFrom;
    t' := t.(acks := t.acks[i := t.acks[i] + {ack}]);
  }

  lemma AckComesIn(t: System, i: nat, ack: Ack) returns (t': System)
    requires Shape(t) && i < |t.acks| && i < |t.snd.stripes| && ack in t.acks[i]
             && Plausible(t.snd.stripes[i].nextSeq, ack)
    requires forall n :: n in t.snd.stripes[i].inFlight ==> n < ack.floor
    ensures Next(t, t', AckArrives(i, ack)) && Cleared(t.snd, t'.snd, i) && t' == t.(snd := t'.snd)
  {
    hide Covered, Plausible;
    AckClears(t.snd.stripes[i].inFlight, ack);
    t' := t.(snd := t.snd.(stripes := t.snd.stripes[i := t.snd.stripes[i].(inFlight := map[])]));
  }

  // ----- All stripes -----

  ghost predicate NoneInFlight(s: Sender, n: nat) {
    n <= |s.stripes| && forall i :: 0 <= i < n ==> s.stripes[i].inFlight == map[]
  }

  ghost predicate AllQueued(s: Sender) {
    forall i :: 0 <= i < |s.stripes| ==> s.stripes[i].doneQueued
  }

  /** What is the same about two senders that differ only in what is in flight. */
  ghost predicate SamePlan(s: Sender, s': Sender) {
    && s' == s.(stripes := s'.stripes) && |s'.stripes| == |s.stripes|
    && (forall i :: 0 <= i < |s.stripes| ==> s'.stripes[i].doneQueued == s.stripes[i].doneQueued)
  }

  lemma {:induction false} SettleAll(run: seq<System>, steps: seq<Step>, n: nat)
    returns (run': seq<System>, steps': seq<Step>)
    requires IsRun(run, steps) && |run| > 0 && !Last(run).stopped && n <= |Last(run).snd.stripes|
    ensures Extends(run, steps, run', steps')
    ensures var t, t' := Last(run), Last(run');
            && NoneInFlight(t'.snd, n) && SamePlan(t.snd, t'.snd)
            && !t'.stopped && t'.plan == t.plan && t'.source == t.source
    decreases n
  {
    if n == 0 {
      LastHolds(run, steps);
      return run, steps;
    }
    hide IsRun, Inv;
    var run1, steps1 := SettleAll(run, steps, n - 1);
    run', steps' := SettleStripe(run1, steps1, n - 1);
    ExtendsTrans(run, steps, run1, steps1, run', steps');
  }

  // ----- The rest of the source -----

  /** Neither the settings nor a broken reader keep the stripes from reaching their DONEs. */
  ghost predicate CanGoOn(s: Sender) {
    AllQueued(s) || (s.window > 0 && s.chunkSize > 0 && !s.pendingErr)
  }

  ghost function Unqueued(stripes: seq<SendStripe>): nat {
    if stripes == [] then 0
    else Unqueued(stripes[..|stripes| - 1]) + if stripes[|stripes| - 1].doneQueued then 0 else 1
  }

  lemma {:induction false} UnqueuedChanges(stripes: seq<SendStripe>, i: nat, stripe: SendStripe)
    requires i < |stripes| && !stripes[i].doneQueued
    ensures Unqueued(stripes[i := stripe]) == Unqueued(stripes) - if stripe.doneQueued then 1 else 0
  {
    var last := |stripes| - 1;
    if i == last {
      assert stripes[i := stripe][..last] == stripes[..last];
    } else {
      UnqueuedChanges(stripes[..last], i, stripe);
      assert stripes[i := stripe][..last] == stripes[..last][i := stripe];
    }
  }

  lemma {:induction false} SameUnqueued(a: seq<SendStripe>, b: seq<SendStripe>)
    requires |a| == |b| && forall i :: 0 <= i < |a| ==> a[i].doneQueued == b[i].doneQueued
    ensures Unqueued(a) == Unqueued(b)
  {
    if |a| > 0 {
      SameUnqueued(a[..|a| - 1], b[..|b| - 1]);
    }
  }

  /** How many packets are still to be numbered, at the most. */
  ghost function ToGo(t: System): int {
    |t.source| - t.snd.offset + Unqueued(t.snd.stripes)
  }

  lemma EmitNext(t: System, i: nat) returns (t': System, step: Step)
    requires Inv(t) && i < |t.snd.stripes| && NoneInFlight(t.snd, |t.snd.stripes|)
    requires !t.snd.stripes[i].doneQueued && t.snd.window > 0 && t.snd.chunkSize > 0 && !t.snd.pendingErr
    ensures Next(t, t', step) && 0 <= ToGo(t') < ToGo(t)
    ensures t' == t.(snd := t'.snd, plan := t'.plan) && |t'.snd.stripes| == |t.snd.stripes|
    ensures t'.snd.window > 0 && t'.snd.chunkSize > 0 && !t'.snd.pendingErr
    ensures forall j :: 0 <= j < |t.snd.stripes| && j != i ==> t'.snd.stripes[j] == t.snd.stripes[j]
    ensures t'.snd.stripes[i].doneQueued ==> OnlyDone(t'.snd.stripes[i].inFlight)
  {
    hide Inv, Unqueued;
    EmitFacts(t);
    var rest, chunk := |t.source| - t.snd.offset, t.snd.chunkSize;
    var length := if rest < chunk then rest else chunk;
    var read := if rest == 0 then Read([], Eof) else Read(t.source[t.snd.offset..t.snd.offset + length], More);
    step := Emit(i, read, 0);
    var next := NextOutbound(t.snd, i, read);
    hide Planned;
    t' := t.(snd := Launched(next.sender, i, next.packet, 0), plan := Planned(t.plan, i, next.packet));
    assert t'.snd.stripes == t.snd.stripes[i := t'.snd.stripes[i]];
    UnqueuedChanges(t.snd.stripes, i, t'.snd.stripes[i]);
  }

  lemma EmitFacts(t: System)
    requires Inv(t)
    ensures Shape(t) && t.snd.offset <= |t.source| && (t.snd.eof ==> t.snd.offset == |t.source|)
  {
    hide PlanOk, Accepting, EndsOk, Drained, AllInReach;
  }

  /** A stripe's only packet in flight is its DONE. */
  ghost predicate OnlyDone(inFlight: map<nat, Outbound>) {
    |inFlight| == 1 && forall n :: n in inFlight ==> inFlight[n].packet.Done?
  }

  lemma EmitInRun(run: seq<System>, steps: seq<Step>, i: nat) returns (run': seq<System>, steps': seq<Step>)
    requires IsRun(run, steps) && |run| > 0 && i < |Last(run).snd.stripes|
    requires CanGoOn(Last(run).snd) && NoneInFlight(Last(run).snd, |Last(run).snd.stripes|)
    requires !Last(run).snd.stripes[i].doneQueued
    ensures Extends(run, steps, run', steps')
    ensures var t, t' := Last(run), Last(run');
            && 0 <= ToGo(t') < ToGo(t) && CanGoOn(t'.snd) && t'.stopped == t.stopped && t'.source == t.source
            && |t'.snd.stripes| == |t.snd.stripes|
            && (forall j :: 0 <= j < |t.snd.stripes| && j != i ==> t'.snd.stripes[j] == t.snd.stripes[j])
            && (t'.snd.stripes[i].doneQueued ==> OnlyDone(t'.snd.stripes[i].inFlight))
  {
    LastHolds(run, steps);
    hide IsRun, Inv, Next, ToGo, OnlyDone;
    var t', step := EmitNext(Last(run), i);
    OneMore(run, steps, t', step);
    run', steps' := run + [t'], steps + [step];
  }

  /** Stripe `i` has only its DONE in flight and the others have nothing. */
  ghost predicate OnlyLastDone(s: Sender, i: nat) {
    && AllQueued(s) && i < |s.stripes| && OnlyDone(s.stripes[i].inFlight)
    && (forall j :: 0 <= j < |s.stripes| && j != i ==> s.stripes[j].inFlight == map[])
  }

  /** From every state with a DONE still to come, one stripe can be the last: everything else
      is sent, delivered and acknowledged before its DONE goes out. */
  lemma {:induction false} ToLastDone(run: seq<System>, steps: seq<Step>)
    returns (run': seq<System>, steps': seq<Step>, i: nat)
    requires IsRun(run, steps) && |run| > 0 && !Last(run).stopped && CanGoOn(Last(run).snd) && !AllQueued(Last(run).snd)
    ensures Extends(run, steps, run', steps')
    ensures var t, t' := Last(run), Last(run');
            && OnlyLastDone(t'.snd, i) && !t'.stopped && t'.source == t.source
            && |t'.snd.stripes| == |t.snd.stripes|
    decreases ToGo(Last(run))
  {
    hide IsRun, ToGo, OnlyDone;
    var n := |Last(run).snd.stripes|;
    var run1, steps1 := SettleAll(run, steps, n);
    SameToGo(Last(run), Last(run1));
    var s1 := Last(run1).snd;
    i :| 0 <= i < n && !s1.stripes[i].doneQueued;
    var run2, steps2 := EmitInRun(run1, steps1, i);
    ExtendsTrans(run, steps, run1, steps1, run2, steps2);
    if AllQueued(Last(run2).snd) {
      return run2, steps2, i;
    }
    run', steps', i := ToLastDone(run2, steps2);
    ExtendsTrans(run, steps, run2, steps2, run', steps');
  }

  lemma SameToGo(t: System, t': System)
    requires SamePlan(t.snd, t'.snd) && t.source == t'.source
    ensures ToGo(t') == ToGo(t)
  {
    SameUnqueued(t.snd.stripes, t'.snd.stripes);
  }

  /** No reachable state is stuck while the receiver answers: the rest of the source can be
      sent, delivered and acknowledged on every stripe, and the send succeeds. */
  lemma CanAlwaysFinish(run: seq<System>, steps: seq<Step>) returns (run': seq<System>, steps': seq<Step>)
    requires IsRun(run, steps) && |run| > 0 && !Last(run).stopped && CanGoOn(Last(run).snd)
    ensures Extends(run, steps, run', steps')
    ensures SendSucceeds(Last(run').snd, 0) && Last(run').dest == run[0].source
  {
    hide IsRun, ToGo, OnlyDone, SendSucceeds;
    if AllQueued(Last(run).snd) {
      run', steps' := FinishQueued(run, steps);
    } else {
      var run1, steps1, last := ToLastDone(run, steps);
      run', steps' := FinishQueued(run1, steps1);
      ExtendsTrans(run, steps, run1, steps1, run', steps');
    }
  }

  lemma FinishQueued(run: seq<System>, steps: seq<Step>) returns (run': seq<System>, steps': seq<Step>)
    requires IsRun(run, steps) && |run| > 0 && !Last(run).stopped && AllQueued(Last(run).snd)
    ensures Extends(run, steps, run', steps')
    ensures SendSucceeds(Last(run').snd, 0) && Last(run').dest == run[0].source
  {
    hide IsRun;
    run', steps' := SettleAll(run, steps, |Last(run).snd.stripes|);
    SuccessMeansWritten(run', steps', |steps'|, 0);
  }

  // ----- Without the receiver -----

  /** From here on nothing but resending happens. */
  ghost predicate OnlyResends(steps: seq<Step>, n: nat) {
    forall k :: n <= k < |steps| ==> steps[k].Resend?
  }

  ghost predicate SucceedsAlone(run: seq<System>, steps: seq<Step>, run': seq<System>, steps': seq<Step>, now: nat) {
    Extends(run, steps, run', steps') && OnlyResends(steps', |steps|) && SendSucceeds(Last(run').snd, now)
  }

  /** Two senders with the same packets in flight. */
  ghost predicate SameFlights(s: Sender, s': Sender) {
    && |s'.stripes| == |s.stripes|
    && (forall i :: 0 <= i < |s.stripes| ==> s'.stripes[i].doneQueued == s.stripes[i].doneQueued)
    && (forall i :: 0 <= i < |s.stripes| ==> SamePackets(s.stripes[i].inFlight, s'.stripes[i].inFlight))
  }

  ghost predicate SamePackets(a: map<nat, Outbound>, b: map<nat, Outbound>) {
    a.Keys == b.Keys && forall n :: n in a ==> b[n].packet == a[n].packet
  }

  lemma {:induction false} ResendsKeepFlights(run: seq<System>, steps: seq<Step>, m: nat, n: nat)
    requires IsRun(run, steps) && |run| == |steps| + 1 && m <= n <= |steps| && OnlyResends(steps, m)
    ensures SameFlights(run[m].snd, run[n].snd)
    decreases n
  {
    if m < n {
      ResendsKeepFlights(run, steps, m, n - 1);
      assert Next(run[n - 1], run[n], steps[n - 1]);
      hide IsRun;
      ResendKeepsFlights(run[n - 1], run[n], steps[n - 1]);
    }
  }

  lemma ResendKeepsFlights(t: System, t': System, step: Step)
    requires step.Resend? && Next(t, t', step)
    ensures SameFlights(t.snd, t'.snd)
  {
  }

  ghost predicate AllOnlyDone(s: Sender) {
    forall i :: 0 <= i < |s.stripes| ==> OnlyDone(s.stripes[i].inFlight)
  }

  lemma SuccessShows(s: Sender, s': Sender, now: nat)
    requires SameFlights(s, s') && SendSucceeds(s', now)
    ensures AllQueued(s) && (NoneInFlight(s, |s.stripes|) || AllOnlyDone(s))
  {
    forall i | 0 <= i < |s.stripes|
      ensures |s'.stripes[i].inFlight| == |s.stripes[i].inFlight|
    {
      SameCount(s.stripes[i].inFlight, s'.stripes[i].inFlight);
    }
  }

  lemma SameCount(a: map<nat, Outbound>, b: map<nat, Outbound>)
    requires SamePackets(a, b)
    ensures |a| == |b|
  {
    assert |a| == |a.Keys| && |b| == |b.Keys|;
  }

  // Resending long enough settles a stripe that has only its DONE in flight.

  lemma Again(t: System, i: nat) returns (t': System, step: Step)
    requires Shape(t) && i < |t.snd.stripes|
    ensures step.Resend? && Next(t, t', step)
            && t' == t.(snd := t.snd.(stripes := t.snd.stripes[i := t'.snd.stripes[i]]))
    ensures i < |t'.snd.stripes| && SamePackets(t.snd.stripes[i].inFlight, t'.snd.stripes[i].inFlight)
    ensures t'.snd.stripes[i].doneQueued == t.snd.stripes[i].doneQueued
    ensures forall n :: n in t.snd.stripes[i].inFlight ==>
            OneAttemptMore(t.snd.stripes[i].inFlight[n], t'.snd.stripes[i].inFlight[n])
  {
    var stripe := t.snd.stripes[i];
    var all := stripe.inFlight.Keys;
    step := Resend(i, all);
    t' := t.(snd := t.snd.(stripes := t.snd.stripes[i := stripe.(inFlight := Retransmit(stripe.inFlight, all))]));
  }

  ghost predicate OneAttemptMore(a: Outbound, b: Outbound) {
    b == a.(attempts := a.attempts + 1)
  }

  /** Everything in flight on the stripe was sent at least this often, since this time. */
  ghost predicate Insisted(inFlight: map<nat, Outbound>, times: nat, since: nat) {
    forall n :: n in inFlight ==> inFlight[n].attempts >= times && inFlight[n].firstSentAt <= since
  }

  /** Stripe `i` may differ in its attempts; nothing else does. */
  ghost predicate OnlyAttempts(s: Sender, s': Sender, i: nat)
    requires i < |s.stripes|
  {
    && i < |s'.stripes| && s' == s.(stripes := s.stripes[i := s'.stripes[i]])
    && s'.stripes[i].doneQueued == s.stripes[i].doneQueued
    && SamePackets(s.stripes[i].inFlight, s'.stripes[i].inFlight)
  }

  lemma Stays(run: seq<System>, steps: seq<Step>)
    requires IsRun(run, steps)
    ensures Extends(run, steps, run, steps) && OnlyResends(steps, |steps|)
  {
    hide Next, Init;
  }

  lemma InsistOnce(run: seq<System>, steps: seq<Step>, i: nat, times: nat, since: nat)
    returns (run': seq<System>, steps': seq<Step>)
    requires IsRun(run, steps) && |run| > 0 && i < |Last(run).snd.stripes|
             && Insisted(Last(run).snd.stripes[i].inFlight, times, since)
    ensures Extends(run, steps, run', steps') && OnlyResends(steps', |steps|)
    ensures OnlyAttempts(Last(run).snd, Last(run').snd, i)
            && Insisted(Last(run').snd.stripes[i].inFlight, times + 1, since)
  {
    hide IsRun, Inv, Next;
    LastHolds(run, steps);
    ShapeOf(Last(run));
    var t', step := Again(Last(run), i);
    OneMore(run, steps, t', step);
    run', steps' := run + [t'], steps + [step];
  }

  lemma ShapeOf(t: System)
    requires Inv(t)
    ensures Shape(t)
  {
    hide Shape, PlanOk, Accepting, Drained, AllInReach, SenderOk, EndsOk;
  }

  lemma {:induction false} Insist(run: seq<System>, steps: seq<Step>, i: nat, times: nat, since: nat)
    returns (run': seq<System>, steps': seq<Step>)
    requires IsRun(run, steps) && |run| > 0 && i < |Last(run).snd.stripes|
             && Insisted(Last(run).snd.stripes[i].inFlight, 0, since)
    ensures Extends(run, steps, run', steps') && OnlyResends(steps', |steps|)
    ensures OnlyAttempts(Last(run).snd, Last(run').snd, i) && Insisted(Last(run').snd.stripes[i].inFlight, times, since)
    decreases times
  {
    hide IsRun, Insisted;
    if times == 0 {
      Stays(run, steps);
      return run, steps;
    }
    var run1, steps1 := Insist(run, steps, i, times - 1, since);
    run', steps' := InsistOnce(run1, steps1, i, times - 1, since);
    ExtendsTrans(run, steps, run1, steps1, run', steps');
  }

  lemma OneSince(inFlight: map<nat, Outbound>) returns (since: nat)
    requires |inFlight| == 1
    ensures Insisted(inFlight, 0, since)
  {
    var n :| n in inFlight;
    assert inFlight.Keys == {n} by {
      assert |inFlight.Keys - {n}| == 0;
    }
    since := inFlight[n].firstSentAt;
  }

  lemma InsistedSettles(a: map<nat, Outbound>, b: map<nat, Outbound>, since: nat, now: nat)
    requires OnlyDone(a) && SamePackets(a, b) && Insisted(b, TerminalDoneAttempts, since)
             && since + TerminalDoneGrace <= now
    ensures DoneSettled(b, now)
  {
    SameCount(a, b);
  }

  lemma {:induction false} InsistAll(run: seq<System>, steps: seq<Step>, m: nat)
    returns (run': seq<System>, steps': seq<Step>, now: nat)
    requires IsRun(run, steps) && |run| > 0 && m <= |Last(run).snd.stripes| && AllOnlyDone(Last(run).snd)
    ensures Extends(run, steps, run', steps') && OnlyResends(steps', |steps|)
    ensures var s, s' := Last(run).snd, Last(run').snd;
            SameFlights(s, s') && forall i :: 0 <= i < m ==> DoneSettled(s'.stripes[i].inFlight, now)
    decreases m
  {
    hide IsRun, DoneSettled, OnlyDone, SamePackets, Insisted;
    if m == 0 {
      Stays(run, steps);
      SelfFlights(Last(run).snd);
      return run, steps, 0;
    }
    var run1, steps1, now1 := InsistAll(run, steps, m - 1);
    var before := Last(run1).snd.stripes[m - 1].inFlight;
    StillOnlyDone(Last(run).snd.stripes[m - 1].inFlight, before);
    var since := OneSince(before);
    run', steps' := Insist(run1, steps1, m - 1, TerminalDoneAttempts, since);
    ExtendsTrans(run, steps, run1, steps1, run', steps');
    now := if now1 < since + TerminalDoneGrace then since + TerminalDoneGrace else now1;
    InsistedSettles(before, Last(run').snd.stripes[m - 1].inFlight, since, now);
    SamePacketsTrans(Last(run).snd.stripes[m - 1].inFlight, before, Last(run').snd.stripes[m - 1].inFlight);
    forall i | 0 <= i < m - 1
      ensures DoneSettled(Last(run').snd.stripes[i].inFlight, now)
    {
      SettledLater(Last(run1).snd.stripes[i].inFlight, now1, now);
    }
  }

  lemma SelfFlights(s: Sender)
    ensures SameFlights(s, s)
  {
  }

  lemma StillOnlyDone(a: map<nat, Outbound>, b: map<nat, Outbound>)
    requires OnlyDone(a) && SamePackets(a, b)
    ensures OnlyDone(b) && |b| == 1
  {
    SameCount(a, b);
  }

  lemma SamePacketsTrans(a: map<nat, Outbound>, b: map<nat, Outbound>, c: map<nat, Outbound>)
    requires SamePackets(a, b) && SamePackets(b, c)
    ensures SamePackets(a, c)
  {
  }

  lemma SettledLater(inFlight: map<nat, Outbound>, now: nat, later: nat)
    requires DoneSettled(inFlight, now) && now <= later
    ensures DoneSettled(inFlight, later)
  {
  }

  ghost predicate MaySucceedAlone(s: Sender) {
    AllQueued(s) && (NoneInFlight(s, |s.stripes|) || AllOnlyDone(s))
  }

  lemma AloneNeeds(run: seq<System>, steps: seq<Step>, run': seq<System>, steps': seq<Step>, now: nat)
    requires IsRun(run, steps) && |run| == |steps| + 1 && SucceedsAlone(run, steps, run', steps', now)
    ensures MaySucceedAlone(Last(run).snd)
  {
    hide IsRun, SendSucceeds, SameFlights, MaySucceedAlone;
    ResendsKeepFlights(run', steps', |steps|, |steps'|);
    AloneShows(Last(run).snd, Last(run').snd, now);
  }

  lemma AloneShows(s: Sender, s': Sender, now: nat)
    requires SameFlights(s, s') && SendSucceeds(s', now)
    ensures MaySucceedAlone(s)
  {
    hide SameFlights, SendSucceeds;
    SuccessShows(s, s', now);
  }

  lemma AloneSuffices(run: seq<System>, steps: seq<Step>)
    returns (run': seq<System>, steps': seq<Step>, now: nat)
    requires IsRun(run, steps) && |run| > 0 && MaySucceedAlone(Last(run).snd)
    ensures SucceedsAlone(run, steps, run', steps', now)
  {
    hide IsRun;
    var s := Last(run).snd;
    if NoneInFlight(s, |s.stripes|) {
      Stays(run, steps);
      return run, steps, 0;
    }
    hide OnlyDone, DoneSettled, SamePackets;
    run', steps', now := InsistAll(run, steps, |s.stripes|);
  }

  /** With no further acknowledgement the send can still succeed exactly if all DONEs are
      out and either nothing at all is in flight or every single stripe has just its DONE in
      flight; a mixture of the two never succeeds. */
  lemma SucceedsAloneExactlyWhen(run: seq<System>, steps: seq<Step>)
    requires IsRun(run, steps) && |run| == |steps| + 1
    ensures (exists run', steps', now :: SucceedsAlone(run, steps, run', steps', now))
            <==> MaySucceedAlone(Last(run).snd)
  {
    hide IsRun, SucceedsAlone, MaySucceedAlone;
    if run', steps', now :| SucceedsAlone(run, steps, run', steps', now) {
      AloneNeeds(run, steps, run', steps', now);
    }
    if MaySucceedAlone(Last(run).snd) {
      var run', steps', now := AloneSuffices(run, steps);
    }
  }

  // ----- How a mixture comes about -----

  /** A stripe with nothing in flight has been delivered to its end. */
  lemma NothingInFlightMeansDelivered(t: System, j: nat)
    requires Inv(t) && j < |t.snd.stripes| && t.snd.stripes[j].inFlight == map[]
    ensures j < |t.rcv.stripes| && j < |t.plan.sent| && t.rcv.stripes[j].expected == |t.plan.sent[j]|
  {
    StripeFacts(t, j);
    hide PlanOk, SenderOk, Accepting, AcksOk, AllInReach;
    assert EndsOk(t.snd.stripes[j].inFlight, t.acks[j], t.rcv.stripes[j], t.plan.sent[j]);
    var expected := t.rcv.stripes[j].expected;
    assert expected < |t.plan.sent[j]| ==> Held(expected, t.rcv.stripes[j].buffered, expected);
  }

  lemma DeliveredMeansDone(t: System, j: nat)
    requires Inv(t) && j < |t.snd.stripes| && t.snd.stripes[j].doneQueued
    requires j < |t.rcv.stripes| && j < |t.plan.sent| && t.rcv.stripes[j].expected == |t.plan.sent[j]|
    ensures t.rcv.stripes[j].done
  {
    hide PlanOk, BufferedOk, TotalsOk, EndsOk, BufferOk, AllInReach, Drained;
    assert StripeOk(t.rcv.stripes[j], t.plan.lanes[j], t.plan.sent[j], t.rcv.stripes[j].expected);
  }

  /** With two or more stripes, every state with a DONE still to come can go on so that the
      receiver completes, with the whole source written, and leaves a sender behind that
      never reports success on its own. */
  lemma MayEndMixed(run: seq<System>, steps: seq<Step>) returns (run': seq<System>, steps': seq<Step>)
    requires IsRun(run, steps) && |run| > 0 && !Last(run).stopped && |Last(run).snd.stripes| > 1
    requires CanGoOn(Last(run).snd) && !AllQueued(Last(run).snd)
    ensures Extends(run, steps, run', steps')
    ensures Complete(Last(run').rcv) && Last(run').dest == run[0].source && AllQueued(Last(run').snd)
    ensures !MaySucceedAlone(Last(run').snd)
  {
    hide IsRun, Inv, Complete;
    var run1, steps1, i := ToLastDone(run, steps);
    LastHolds(run1, steps1);
    StripeFacts(Last(run1), i);
    run', steps' := DeliverStripe(run1, steps1, i);
    ExtendsTrans(run, steps, run1, steps1, run', steps');
    LastHolds(run', steps');
    var t := Last(run');
    StripeFacts(t, i);
    forall j | 0 <= j < |t.snd.stripes|
      ensures t.rcv.stripes[j].done
    {
      if j != i {
        NothingInFlightMeansDelivered(t, j);
      }
      DeliveredMeansDone(t, j);
    }
    AllDoneStrandsNothing(run', steps', |steps'|);
    CompletionMeansWritten(run', steps', |steps'|);
    MixedIsStuck(t.snd, i);
  }

  lemma MixedIsStuck(s: Sender, i: nat)
    requires OnlyLastDone(s, i) && |s.stripes| > 1
    ensures !MaySucceedAlone(s)
  {
    var j := if i == 0 then 1 else 0;
    assert s.stripes[j].inFlight == map[] && OnlyDone(s.stripes[i].inFlight);
  }
}

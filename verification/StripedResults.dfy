/** What every run of the striped transport guarantees. */
module StripedResults {
  import opened Sets
  import opened Lanes
  import opened Options
  import opened Reassembly
  import opened SelectiveAck
  import opened StripedTransport
  import opened StripePlan
  import opened StripedSafety

  /** For every interleaving of the stripes the destination holds a prefix of the source,
      and while it takes writes that prefix ends exactly at the next offset. */
  lemma OutputIsPrefix(run: seq<System>, steps: seq<Step>, n: nat)
    requires IsRun(run, steps) && n < |run|
    ensures run[n].dest <= run[0].source
    ensures !run[n].stopped ==>
              var next := run[n].rcv.buffer.nextOffset;
              next <= |run[0].source| && run[n].dest == run[0].source[..next]
  {
    hide IsRun, PlanOk, SenderOk, Accepting, EndsOk;
    RunKeeps(run, steps, n);
    OutputIsPiece(run[n].source, run[n].snd.offset, run[n].plan, run[n].rcv);
  }

  /** The DONE packets of one sender never disagree: no packet of a run is an error. */
  lemma NeverDisagree(run: seq<System>, steps: seq<Step>, n: nat, i: nat, k: nat)
    requires IsRun(run, steps) && n < |run|
    requires i < |run[n].rcv.stripes| && i < |run[n].plan.sent| && k < |run[n].plan.sent[i]|
    ensures Receive(run[n].rcv, i, run[n].plan.sent[i][k]).Ok?
  {
    hide IsRun, PlanOk, SenderOk, Accepting, EndsOk, Receive;
    RunKeeps(run, steps, n);
    ReceiveKeeps(run[n].source, run[n].snd.offset, run[n].plan, run[n].rcv, i, k);
  }

  /** Once every stripe has accepted its DONE, the whole source is written, the announced
      size is the size of the source, and no piece is stranded. */
  lemma AllDoneStrandsNothing(run: seq<System>, steps: seq<Step>, n: nat)
    requires IsRun(run, steps) && n < |run|
    requires forall i :: 0 <= i < |run[n].rcv.stripes| ==> run[n].rcv.stripes[i].done
    ensures run[n].rcv.finalTotal == Some(|run[0].source|)
    ensures run[n].rcv.buffer.nextOffset == |run[0].source| && run[n].rcv.buffer.pending == map[]
    ensures Complete(run[n].rcv)
  {
    var t := run[n];
    RunKeeps(run, steps, n);
    hide IsRun, PlanOk, BufferedOk, FlightOk, AcksOk, BufferOk;
    SomeStripe(run, steps, n);
    AllTakenWhenDone(t);
    assert DoneStripes(t.rcv.stripes) == Below(|t.rcv.stripes|);
    assert 0 in DoneStripes(t.rcv.stripes);
  }

  lemma AllTakenWhenDone(t: System)
    requires Inv(t) && |t.rcv.stripes| > 0
    requires forall i :: 0 <= i < |t.rcv.stripes| ==> t.rcv.stripes[i].done
    ensures t.rcv.buffer.nextOffset == t.snd.offset == |t.source| && t.rcv.buffer.pending == map[]
  {
    hide PlanOk, BufferedOk, FlightOk, AcksOk, BufferOk, TotalsOk;
    forall i | 0 <= i < |t.rcv.stripes|
      ensures t.rcv.stripes[i].expected == |t.plan.lanes[i]| + 1
    {
      assert StripeOk(t.rcv.stripes[i], t.plan.lanes[i], t.plan.sent[i], t.rcv.stripes[i].expected);
    }
    DoneStripeEmpty(t.source, t.snd.offset, t.plan, t.rcv, 0);
    AllTaken(t.source, t.snd.offset, t.plan, t.rcv);
  }

  lemma {:induction false} SomeStripe(run: seq<System>, steps: seq<Step>, n: nat)
    requires IsRun(run, steps) && n < |run|
    ensures |run[n].rcv.stripes| > 0 && |run[n].rcv.stripes| == |run[n].snd.stripes|
  {
    if n > 0 {
      SomeStripe(run, steps, n - 1);
      RunKeeps(run, steps, n);
      hide Receive, NextOutbound, Inv;
      SameStripeCount(run[n - 1], run[n], steps[n - 1]);
    }
  }

  lemma SameStripeCount(t: System, t': System, step: Step)
    requires Next(t, t', step) && Inv(t')
    ensures |t'.snd.stripes| == |t.snd.stripes| == |t'.rcv.stripes|
  {
    hide PlanOk, SenderOk, Accepting, EndsOk, Receive, HonestRead, Covered, Plausible, Retransmit, Drained;
  }

  /** A receiver that reports completion has written the whole source. */
  lemma CompletionMeansWritten(run: seq<System>, steps: seq<Step>, n: nat)
    requires IsRun(run, steps) && n < |run|
    requires Complete(run[n].rcv)
    ensures run[n].dest == run[0].source
  {
    var t := run[n];
    RunKeeps(run, steps, n);
    SomeStripe(run, steps, n);
    hide IsRun, PlanOk, SenderOk, EndsOk, Accepting;
    CompleteMeansDone(t.source, t.snd.offset, t.plan, t.rcv);
    AllTakenWhenDone(t);
    OutputIsPiece(t.source, t.snd.offset, t.plan, t.rcv);
  }

  /** If every data packet is held on its stripe, every stripe has accepted all its data. */
  lemma HeldMeansAccepted(t: System, i: nat)
    requires Inv(t) && i < |t.rcv.stripes|
    requires forall k: nat :: k < |t.plan.lanes[i]| ==> Held(t.rcv.stripes[i].expected, t.rcv.stripes[i].buffered, k)
    ensures |t.plan.lanes[i]| <= t.rcv.stripes[i].expected
  {
    hide PlanOk, SenderOk, EndsOk, Accepting;
    var stripe := t.rcv.stripes[i];
    assert stripe.expected < |t.plan.lanes[i]| ==> Held(stripe.expected, stripe.buffered, stripe.expected);
  }

  /** A stripe with nothing but DONE in flight has all its data held. */
  lemma OnlyDoneInFlight(t: System, i: nat, k: nat)
    requires Inv(t) && i < |t.rcv.stripes| && k < |t.plan.lanes[i]|
    requires forall n :: n in t.snd.stripes[i].inFlight ==> t.snd.stripes[i].inFlight[n].packet.Done?
    ensures Held(t.rcv.stripes[i].expected, t.rcv.stripes[i].buffered, k)
  {
    hide SenderOk, AcksOk, Accepting, Held, Cuts, HomesOk;
    assert LaneOk(t.plan.chunks, |t.source|, t.plan.lanes[i], t.plan.sent[i]);
    PacketAt(t.source, t.snd.offset, t.plan, i, k);
    assert EndsOk(t.snd.stripes[i].inFlight, t.acks[i], t.rcv.stripes[i], t.plan.sent[i]);
    assert t.plan.sent[i][k].Data?;
  }

  /** Whenever the striped send reports success, the receiver has written the whole source. */
  lemma SuccessMeansWritten(run: seq<System>, steps: seq<Step>, n: nat, now: nat)
    requires IsRun(run, steps) && n < |run|
    requires SendSucceeds(run[n].snd, now)
    ensures run[n].dest == run[0].source
  {
    var t := run[n];
    RunKeeps(run, steps, n);
    SomeStripe(run, steps, n);
    hide IsRun, PlanOk, EndsOk, Accepting, Held;
    forall i | 0 <= i < |t.rcv.stripes|
      ensures |t.plan.lanes[i]| <= t.rcv.stripes[i].expected
    {
      forall k: nat | k < |t.plan.lanes[i]|
        ensures Held(t.rcv.stripes[i].expected, t.rcv.stripes[i].buffered, k)
      {
        OnlyDoneInFlight(t, i, k);
      }
      HeldMeansAccepted(t, i);
    }
    AllTaken(t.source, t.snd.offset, t.plan, t.rcv);
    OutputIsPiece(t.source, t.snd.offset, t.plan, t.rcv);
    assert t.snd.stripes[0].doneQueued;
  }

  /** An acknowledgement the receiver really sent is never rejected, however stale. */
  lemma GenuineAcksArePlausible(run: seq<System>, steps: seq<Step>, n: nat, i: nat, ack: Ack)
    requires IsRun(run, steps) && n < |run|
    requires i < |run[n].acks| && i < |run[n].snd.stripes| && ack in run[n].acks[i]
    ensures Plausible(run[n].snd.stripes[i].nextSeq, ack)
  {
    var t := run[n];
    RunKeeps(run, steps, n);
    hide IsRun, PlanOk, FlightOk, TotalsOk, BufferedOk, Plausible;
    var stripe := t.rcv.stripes[i];
    assert EndsOk(t.snd.stripes[i].inFlight, t.acks[i], stripe, t.plan.sent[i]);
    assert StripeOk(stripe, t.plan.lanes[i], t.plan.sent[i], stripe.expected);
    AckIsPlausibleFor(ack, stripe.expected, stripe.buffered, t.plan.sent[i]);
  }
}

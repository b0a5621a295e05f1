/** What every run of a multiplexed stream guarantees. */
module MuxResults {
  import opened Bits
  import opened Options
  import opened Mux

  // ----- Every step keeps the invariant -----

  lemma PieceStays(read: seq<Byte>, more: seq<Byte>, seqNo: nat, payload: seq<Byte>)
    requires IsPiece(read, seqNo, payload)
    ensures IsPiece(read + more, seqNo, payload)
  {
  }

  lemma ReadKeeps(t: System, payload: seq<Byte>)
    requires Inv(t) && Enabled(t, ReadChunk(payload))
    ensures Inv(Apply(t, ReadChunk(payload)))
  {
    var t' := Apply(t, ReadChunk(payload));
    forall f | f in t'.frames
      ensures IsPiece(t'.read, f.seqNo, f.payload) && f.seqNo + |f.payload| <= t'.start
    {
      PieceStays(t.read, payload, f.seqNo, f.payload);
    }
  }

  /** Delivering any frame ever written, again or late, keeps the output a prefix. */
  lemma DeliverKeeps(read: seq<Byte>, p: Peer, seqNo: nat, payload: seq<Byte>, room: nat)
    requires PeerOk(read, p) && IsPiece(read, seqNo, payload)
    ensures var d := Deliver(p, seqNo, payload, room);
            && PeerOk(read, d.peer) && p.recvSeq <= d.peer.recvSeq && p.out <= d.peer.out
            && (d.peer.recvSeq == p.recvSeq || (seqNo == p.recvSeq && d.peer.recvSeq == seqNo + |payload|))
            && (d.Acked? ==> d.ack <= d.peer.recvSeq)
  {
    var d := Deliver(p, seqNo, payload, room);
    if seqNo == p.recvSeq && p.alive {
      assert p.out == read[..seqNo];
      assert p.out + payload == read[..seqNo + |payload|];
      if room < |payload| {
        assert d.peer.out == read[..seqNo + room];
      }
    }
  }

  lemma DeliverFrameKeeps(t: System, frame: Frame, room: nat)
    requires Inv(t) && Enabled(t, DeliverFrame(frame, room))
    ensures Inv(Apply(t, DeliverFrame(frame, room)))
  {
    hide Deliver, IsPiece;
    DeliverKeeps(t.read, t.peer, frame.seqNo, frame.payload, room);
  }

  lemma CarrierStepKeeps(t: System, carriers: Carriers)
    requires Inv(t) && t.carriers.change <= carriers.change && t.carriers.gen <= carriers.gen
    requires t.carriers.change == carriers.change ==> carriers == t.carriers
    ensures Inv(t.(carriers := carriers))
  {
  }

  lemma FailureKeeps(t: System, through: bool)
    requires Inv(t) && Enabled(t, WriteFails(through))
    ensures Inv(Apply(t, WriteFails(through)))
  {
    var frame := Frame(t.pump.gen, t.pump.carrier, t.start, t.chunk);
    var t1 := t.(frames := if through then t.frames + {frame} else t.frames, pump := Captured(t.pump.signal));
    assert Inv(t1);
    CarrierStepKeeps(t1, MarkDead(t.carriers, t.pump.gen, t.pump.carrier));
  }

  lemma StepKeeps(t: System, step: Step)
    requires Inv(t) && Enabled(t, step)
    ensures Inv(Apply(t, step))
  {
    match step
    case ReadChunk(payload) => ReadKeeps(t, payload);
    case DeliverFrame(frame, room) => DeliverFrameKeeps(t, frame, room);
    case ReplaceCarrier(next) => CarrierStepKeeps(t, Replace(t.carriers, next));
    case CarrierDies(gen, carrier) => CarrierStepKeeps(t, MarkDead(t.carriers, gen, carrier));
    case CloseMux => CarrierStepKeeps(t, Close(t.carriers));
    case WriteFails(through) => FailureKeeps(t, through);
    case TakeSignal =>
    case TakeSnapshot =>
    case CheckCurrent =>
    case WriteFrame =>
    case WakeAcked =>
    case WakeChanged =>
    case GiveUp =>
    case AckArrives(ack) =>
  }

  lemma {:induction false} RunKeeps(run: seq<System>, steps: seq<Step>, n: nat)
    requires IsRun(run, steps) && n < |run|
    ensures Inv(run[n])
  {
    if n > 0 {
      RunKeeps(run, steps, n - 1);
      assert Enabled(run[n - 1], steps[n - 1]) && run[n] == Apply(run[n - 1], steps[n - 1]);
      hide Inv, Apply, Enabled;
      StepKeeps(run[n - 1], steps[n - 1]);
    }
  }

  // ----- Exactly once -----

  /** However often carriers are replaced and whatever old carriers still deliver: the peer
      has written a prefix of what was read, nothing twice and nothing out of order. */
  lemma DeliveredIsPrefix(run: seq<System>, steps: seq<Step>, n: nat)
    requires IsRun(run, steps) && n < |run|
    ensures run[n].peer.out <= run[n].read
  {
    RunKeeps(run, steps, n);
  }

  /** Sending a chunk succeeds only after the peer has written through its end, so that
      between chunks the peer has everything. */
  lemma SuccessMeansWritten(run: seq<System>, steps: seq<Step>, n: nat)
    requires IsRun(run, steps) && n < |steps| && steps[n].WakeAcked?
    ensures run[n].peer.out == run[n].read && |run[n].peer.out| == run[n].start + |run[n].chunk|
    ensures run[n + 1].pump.Resting?
  {
    RunKeeps(run, steps, n);
    assert Enabled(run[n], steps[n]) && run[n + 1] == Apply(run[n], steps[n]);
  }

  lemma RestingMeansWritten(run: seq<System>, steps: seq<Step>, n: nat)
    requires IsRun(run, steps) && n < |run| && run[n].pump.Resting?
    ensures run[n].peer.out == run[n].read
  {
    RunKeeps(run, steps, n);
  }

  // ----- No lost wakeup -----

  /** A sender that waits on a signal that has not fired has its whole frame on the carrier
      that is still current. */
  lemma NoLostWakeup(run: seq<System>, steps: seq<Step>, n: nat)
    requires IsRun(run, steps) && n < |run| && run[n].pump.Waiting? && run[n].pump.signal >= run[n].carriers.change
    ensures var t := run[n];
            && !t.carriers.closed && t.carriers.carrier.Some?
            && Frame(t.carriers.gen, t.carriers.carrier.value, t.start, t.chunk) in t.frames
  {
    RunKeeps(run, steps, n);
  }

  /** The current carrier goes away only by being replaced, by the end of the mux, or by a
      death notice for its own generation. */
  lemma OnlyItsOwnDeath(t: System, step: Step)
    requires Enabled(t, step) && Apply(t, step).carriers.carrier != t.carriers.carrier
    ensures match step
            case ReplaceCarrier(_) => true
            case CloseMux => true
            case CarrierDies(gen, carrier) => gen == t.carriers.gen && Some(carrier) == t.carriers.carrier
            case WriteFails(_) => t.pump.gen == t.carriers.gen && Some(t.pump.carrier) == t.carriers.carrier
            case _ => false
  {
  }

  /** As long as nothing replaces it, nothing ends the mux, and no death notice is for its
      own generation, a carrier stays current, whatever is said about older ones. */
  lemma {:induction false} StaysCurrent(run: seq<System>, steps: seq<Step>, n: nat, m: nat)
    requires IsRun(run, steps) && n <= m < |run|
    requires forall k :: n <= k < m ==>
               && !steps[k].ReplaceCarrier? && !steps[k].CloseMux?
               && (steps[k].CarrierDies? ==> steps[k].gen != run[n].carriers.gen)
               && (steps[k].WriteFails? && run[k].pump.Writing? ==> run[k].pump.gen != run[n].carriers.gen)
    ensures run[m].carriers == run[n].carriers
    decreases m
  {
    if n < m {
      StaysCurrent(run, steps, n, m - 1);
      assert Enabled(run[m - 1], steps[m - 1]) && run[m] == Apply(run[m - 1], steps[m - 1]);
    }
  }

  // ----- Progress -----

  /** The states that a list of steps goes through. */
  ghost predicate Leads(t: System, steps: seq<Step>, t': System)
    decreases |steps|
  {
    if steps == [] then t' == t
    else Enabled(t, steps[0]) && Leads(Apply(t, steps[0]), steps[1..], t')
  }

  lemma {:induction false} LeadsOn(t: System, steps: seq<Step>, t': System, more: seq<Step>, t'': System)
    requires Leads(t, steps, t') && Leads(t', more, t'')
    ensures Leads(t, steps + more, t'')
    decreases |steps|
  {
    hide Apply, Enabled;
    if steps == [] {
      assert steps + more == more;
    } else {
      LeadsOn(Apply(t, steps[0]), steps[1..], t', more, t'');
      assert (steps + more)[1..] == steps[1..] + more;
    }
  }

  lemma One(t: System, step: Step)
    requires Enabled(t, step)
    ensures Leads(t, [step], Apply(t, step))
  {
    assert Leads(Apply(t, step), [], Apply(t, step));
  }

  /** A sender that is neither resting nor failed, on an open mux with a living peer. */
  ghost predicate Hopeful(t: System) {
    Inv(t) && !t.carriers.closed && t.peer.alive && !t.pump.Resting? && !t.pump.Failed?
  }

  /** A new carrier brings the loop back to where it looks for a carrier. */
  lemma Restart(t: System) returns (steps: seq<Step>, t': System)
    requires Hopeful(t)
    ensures Leads(t, steps, t') && Hopeful(t') && t'.carriers.carrier.Some? && t'.pump.Captured?
    ensures t'.read == t.read
  {
    var next := ReplaceCarrier(Some(0));
    var t1 := Apply(t, next);
    StepKeeps(t, next);
    One(t, next);
    var step := if t1.pump.Snapped? then CheckCurrent else if t1.pump.Writing? then WriteFails(false)
                else if t1.pump.Waiting? then WakeChanged else TakeSignal;
    if t1.pump.Captured? {
      return [next], t1;
    }
    StepKeeps(t1, step);
    One(t1, step);
    var t2 := Apply(t1, step);
    LeadsOn(t, [next], t1, [step], t2);
    if t2.pump.Captured? {
      return [next] + [step], t2;
    }
    StepKeeps(t2, TakeSignal);
    One(t2, TakeSignal);
    LeadsOn(t, [next] + [step], t2, [TakeSignal], Apply(t2, TakeSignal));
    return [next] + [step] + [TakeSignal], Apply(t2, TakeSignal);
  }

  /** On a carrier that stays, the loop writes its frame. */
  lemma Resend(t: System) returns (steps: seq<Step>, t': System)
    requires Hopeful(t) && t.carriers.carrier.Some? && t.pump.Captured?
    ensures Leads(t, steps, t') && Hopeful(t') && t'.pump.Waiting? && t'.read == t.read
  {
    var t1 := Apply(t, TakeSnapshot);
    StepKeeps(t, TakeSnapshot);
    One(t, TakeSnapshot);
    var t2 := Apply(t1, CheckCurrent);
    StepKeeps(t1, CheckCurrent);
    One(t1, CheckCurrent);
    t' := Apply(t2, WriteFrame);
    StepKeeps(t2, WriteFrame);
    One(t2, WriteFrame);
    LeadsOn(t, [TakeSnapshot], t1, [CheckCurrent], t2);
    LeadsOn(t, [TakeSnapshot] + [CheckCurrent], t2, [WriteFrame], t');
    steps := [TakeSnapshot] + [CheckCurrent] + [WriteFrame];
  }

  /** Once the frame arrives and its acknowledgement comes back, the chunk is done. */
  lemma Answer(t: System) returns (steps: seq<Step>, t': System)
    requires Hopeful(t) && t.pump.Waiting?
    ensures Leads(t, steps, t') && Inv(t') && t'.pump.Resting? && t'.read == t.read
  {
    var frame := Frame(t.pump.gen, t.pump.carrier, t.start, t.chunk);
    var deliver, ack := DeliverFrame(frame, |t.chunk|), AckArrives(|t.read|);
    var t1 := Apply(t, deliver);
    StepKeeps(t, deliver);
    One(t, deliver);
    var t2 := Apply(t1, ack);
    StepKeeps(t1, ack);
    One(t1, ack);
    t' := Apply(t2, WakeAcked);
    StepKeeps(t2, WakeAcked);
    One(t2, WakeAcked);
    LeadsOn(t, [deliver], t1, [ack], t2);
    LeadsOn(t, [deliver] + [ack], t2, [WakeAcked], t');
    steps := [deliver] + [ack] + [WakeAcked];
  }

  /** From every reachable state with a living peer, however the carriers fared, one more
      carrier is enough to finish the chunk: nothing is ever stuck. */
  lemma CanAlwaysFinish(run: seq<System>, done: seq<Step>, n: nat) returns (steps: seq<Step>, t': System)
    requires IsRun(run, done) && n < |run|
    requires !run[n].carriers.closed && run[n].peer.alive && !run[n].pump.Resting? && !run[n].pump.Failed?
    ensures Leads(run[n], steps, t') && t'.pump.Resting? && t'.read == run[n].read && t'.peer.out == t'.read
  {
    RunKeeps(run, done, n);
    hide Leads, IsRun;
    var steps1, t1 := Restart(run[n]);
    var steps2, t2 := Resend(t1);
    var steps3, t3 := Answer(t2);
    LeadsOn(run[n], steps1, t1, steps2, t2);
    LeadsOn(run[n], steps1 + steps2, t2, steps3, t3);
    steps, t' := steps1 + steps2 + steps3, t3;
  }
}

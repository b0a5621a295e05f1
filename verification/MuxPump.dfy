/** The loop that sends a stream's chunks, with everything that other goroutines and the
    network do in between. */
module MuxPump {
  import opened Bits
  import opened Options
  import opened Mux
  import opened MuxEndpoints
  import opened MuxResults

  /** What happens around one turn of the loop: what others do before it goes on, whether
      its write succeeds and, if not, whether the whole frame got through, and which of
      several wake-ups it sees. */
  datatype Turn = Turn(before: seq<Step>, during: seq<Step>, writes: bool, through: bool, seesAck: bool)

  /** The steps that are not the loop's own. */
  predicate IsForeign(step: Step) {
    step.ReplaceCarrier? || step.CarrierDies? || step.CloseMux? || step.DeliverFrame? || step.AckArrives?
  }

  /** The machine came from `t0` to `t` by these steps. */
  ghost predicate Came(t0: System, steps: seq<Step>, t: System) {
    Inv(t) && Leads(t0, steps, t)
  }

  lemma CameNowhere(t: System)
    requires Inv(t)
    ensures Came(t, [], t)
  {
  }

  lemma CameFurther(t0: System, steps: seq<Step>, t: System, step: Step)
    requires Came(t0, steps, t) && Enabled(t, step)
    ensures Came(t0, steps + [step], Apply(t, step))
  {
    hide Inv, Enabled, Apply;
    StepKeeps(t, step);
    One(t, step);
    LeadsOn(t0, steps, t, [step], Apply(t, step));
  }

  /** Where a loop stands when it is done with a chunk that started at `start`. */
  lemma CameToRest(t0: System, steps: seq<Step>, t: System)
    requires Came(t0, steps, t)
    ensures Inv(t) && Leads(t0, steps, t)
    ensures t.pump.Resting? ==> t.peer.out == t.read
    ensures t.pump.Failed? ==> t.start <= |t.peer.out| && t.peer.out <= t.read
  {
    hide Leads, IsPiece;
  }

  class StreamPump {
    const slot: CarrierSlot
    const local: Stream
    const peer: Stream
    var read: seq<Byte>
    var frames: set<Frame>
    var acks: set<nat>
    ghost var start: nat
    ghost var chunk: seq<Byte>
    ghost var place: Pump

    ghost function View(): System
      reads this, slot, local, peer
    {
      System(read, slot.View(), local.Sending(), start, chunk, place, frames, peer.Receiving(), acks)
    }

    ghost predicate Valid()
      reads this, slot, local, peer
    {
      local != peer && Inv(View())
    }

    constructor ()
      ensures Valid() && View() == Init() && fresh(slot) && fresh(local) && fresh(peer)
    {
      slot := new CarrierSlot();
      local := new Stream();
      peer := new Stream();
      read, frames, acks := [], {}, {};
      start, chunk, place := 0, [], Resting;
    }

    /** Other goroutines and the network get their turn. */
    method Others(foreign: seq<Step>, ghost t0: System, ghost before: seq<Step>) returns (ghost steps: seq<Step>)
      requires local != peer && Came(t0, before, View())
      modifies this, slot, local, peer
      ensures Came(t0, steps, View())
      ensures read == old(read) && start == old(start) && chunk == old(chunk) && place == old(place)
    {
      steps := before;
      for n := 0 to |foreign|
        invariant Came(t0, steps, View())
        invariant read == old(read) && start == old(start) && chunk == old(chunk) && place == old(place)
      {
        steps := Other(foreign[n], t0, steps);
      }
    }

    method Other(step: Step, ghost t0: System, ghost before: seq<Step>) returns (ghost steps: seq<Step>)
      requires local != peer && Came(t0, before, View())
      modifies this, slot, local, peer
      ensures Came(t0, steps, View())
      ensures read == old(read) && start == old(start) && chunk == old(chunk) && place == old(place)
    {
      steps := before;
      ghost var t := View();
      if IsForeign(step) && Enabled(t, step) {
        CameFurther(t0, steps, t, step);
        steps := steps + [step];
      }
      hide Came;
      match step {
        case ReplaceCarrier(next) =>
          var _ := slot.ReplaceCarrier(next);
        case CarrierDies(gen, carrier) =>
          slot.MarkCarrierDead(gen, carrier);
        case CloseMux =>
          slot.Close();
        case DeliverFrame(frame, room) =>
          if frame in frames {
            var ack, ok := peer.Deliver(frame.seqNo, frame.payload, room);
            if ok {
              acks := acks + {ack};
            }
          }
        case AckArrives(ack) =>
          if ack in acks {
            local.HandleAck(ack);
          }
        case _ =>
      }
    }

    /** Writes the frame on one carrier if it is still current. */
    method WriteOnCarrier(carrier: nat, generation: nat, startSeq: nat, payload: seq<Byte>, turn: Turn,
                          ghost t0: System, ghost before: seq<Step>)
      returns (ok: bool, ghost steps: seq<Step>)
      requires local != peer && Came(t0, before, View()) && startSeq == start && payload == chunk
      requires place.Snapped? && place.carrier == carrier && place.gen == generation
      modifies this, slot, local, peer
      ensures Came(t0, steps, View())
      ensures read == old(read) && start == old(start) && chunk == old(chunk)
      ensures if ok then place == Waiting(old(place.signal), carrier, generation)
              else place == Captured(old(place.signal))
    {
      hide Came, Inv;
      ghost var signal := place.signal;
      steps := Others(turn.before, t0, before);
      CameFurther(t0, steps, View(), CheckCurrent);
      steps := steps + [CheckCurrent];
      if slot.closed || slot.carrier != Some(carrier) || slot.carrierGen != generation {
        place := Captured(signal);
        return false, steps;
      }
      place := Writing(signal, carrier, generation);
      steps := Others(turn.during, t0, steps);
      if turn.writes {
        CameFurther(t0, steps, View(), WriteFrame);
        frames := frames + {Frame(generation, carrier, startSeq, payload)};
        place, steps := Waiting(signal, carrier, generation), steps + [WriteFrame];
        return true, steps;
      }
      CameFurther(t0, steps, View(), WriteFails(turn.through));
      if turn.through {
        frames := frames + {Frame(generation, carrier, startSeq, payload)};
      }
      slot.MarkCarrierDead(generation, carrier);
      place, steps := Captured(signal), steps + [WriteFails(turn.through)];
      return false, steps;
    }

    /** Writes the frame of the current chunk on whatever carrier is current; gives up when
        the mux is closed or no turn is left before the deadline. */
    method WriteFrameUntil(startSeq: nat, payload: seq<Byte>, turns: seq<Turn>, ghost t0: System,
                           ghost before: seq<Step>)
      returns (ok: bool, left: seq<Turn>, ghost steps: seq<Step>)
      requires local != peer && Came(t0, before, View())
      requires place.Captured? && startSeq == start && payload == chunk
      modifies this, slot, local, peer
      ensures Came(t0, steps, View()) && |left| <= |turns|
      ensures read == old(read) && start == old(start) && chunk == old(chunk)
      ensures if ok then place.Waiting? && place.signal == old(place.signal)
              else place.Captured? && (slot.closed || left == [])
    {
      hide Came, Inv, Apply;
      ok, left, steps := false, turns, before;
      while |left| > 0 && !slot.closed && !ok
        invariant Came(t0, steps, View()) && |left| <= |turns|
        invariant read == old(read) && start == old(start) && chunk == old(chunk)
        invariant if ok then place.Waiting? && place.signal == old(place.signal) else place == old(place)
        decreases |left|
      {
        var turn := left[0];
        left := left[1..];
        if slot.carrier.None? {
          steps := Others(turn.before, t0, steps);
        } else {
          var carrier, generation := slot.carrier.value, slot.carrierGen;
          steps := Snap(t0, steps);
          ok, steps := WriteOnCarrier(carrier, generation, startSeq, payload, turn, t0, steps);
        }
      }
    }

    /** The loop notes which carrier it saw. */
    ghost method Snap(t0: System, before: seq<Step>) returns (steps: seq<Step>)
      requires local != peer && Came(t0, before, View())
      requires place.Captured? && !slot.closed && slot.carrier.Some?
      modifies this`place
      ensures Came(t0, steps, View()) && place == Snapped(old(place.signal), slot.carrier.value, slot.carrierGen)
    {
      CameFurther(t0, before, View(), TakeSnapshot);
      hide Came;
      place, steps := Snapped(place.signal, slot.carrier.value, slot.carrierGen), before + [TakeSnapshot];
    }

    /** Waits with the frame written; `acked` or the held signal fired, or time is up. */
    method AwaitAck(signal: nat, turns: seq<Turn>, ghost t0: System, ghost before: seq<Step>)
      returns (acked: bool, changed: bool, left: seq<Turn>, ghost steps: seq<Step>)
      requires local != peer && Came(t0, before, View()) && place.Waiting? && place.signal == signal
      modifies this, slot, local, peer
      ensures Came(t0, steps, View()) && |left| <= |turns|
      ensures read == old(read) && start == old(start) && chunk == old(chunk) && place == old(place)
      ensures acked ==> local.pending.Some? && local.pending.value.acked
      ensures changed ==> slot.Fired(signal) && |left| < |turns|
      ensures !(acked && changed) && (!acked && !changed ==> left == [])
    {
      hide Came;
      left, steps := turns, before;
      acked, changed := false, false;
      while |left| > 0 && !acked && !changed
        invariant Came(t0, steps, View()) && |left| <= |turns|
        invariant read == old(read) && start == old(start) && chunk == old(chunk) && place == old(place)
        invariant acked ==> local.pending.Some? && local.pending.value.acked
        invariant changed ==> slot.Fired(signal) && |left| < |turns|
        invariant !(acked && changed)
        decreases |left|
      {
        var turn := left[0];
        left := left[1..];
        steps := Others(turn.before, t0, steps);
        acked := local.pending.Some? && local.pending.value.acked && (turn.seesAck || !slot.Fired(signal));
        changed := !acked && slot.Fired(signal);
      }
    }

    /** Takes up a chunk of what the local end reads. */
    method BeginSend(payload: seq<Byte>, ghost t0: System) returns (startSeq: nat, ghost steps: seq<Step>)
      requires Valid() && place.Resting? && |payload| > 0 && t0 == View()
      modifies this, local
      ensures Came(t0, steps, View()) && read == old(read) + payload
      ensures place.Ready? && start == startSeq == |old(read)| && chunk == payload
    {
      CameNowhere(t0);
      CameFurther(t0, [], t0, ReadChunk(payload));
      steps := [] + [ReadChunk(payload)];
      hide Came;
      read, start, chunk, place := read + payload, local.sendSeq, payload, Ready;
      startSeq := local.BeginChunk(payload);
    }

    /** Forgets the pending write, which the peer has acknowledged or never will. */
    method EndSend(acked: bool, ghost t0: System, ghost before: seq<Step>) returns (ghost steps: seq<Step>)
      requires local != peer && Came(t0, before, View()) && !place.Resting? && !place.Failed?
      requires acked ==> place.Waiting? && local.pending.Some? && local.pending.value.acked
      modifies local`pending, this`place
      ensures Valid() && Leads(t0, steps, View())
      ensures if acked then place.Resting? && peer.out == read
              else place.Failed? && start <= |peer.out| && peer.out <= read
    {
      ghost var step := if acked then WakeAcked else GiveUp;
      CameFurther(t0, before, View(), step);
      steps := before + [step];
      hide Came;
      local.pending, place := None, if acked then Resting else Failed;
      CameToRest(t0, steps, View());
    }

    /** Sends one chunk and returns once the peer has acknowledged it, or gives up. */
    method SendChunk(payload: seq<Byte>, turns: seq<Turn>) returns (ok: bool, left: seq<Turn>, ghost steps: seq<Step>)
      requires Valid() && place.Resting? && |payload| > 0
      modifies this, slot, local, peer
      ensures Valid() && Leads(old(View()), steps, View())
      ensures read == old(read) + payload
      ensures if ok then place.Resting? && peer.out == read
              else place.Failed? && old(read) <= peer.out <= read && (slot.closed || left == [])
    {
      hide Came, Leads, Inv;
      ghost var t0 := View();
      var startSeq;
      startSeq, steps := BeginSend(payload, t0);
      left := turns;
      var acked, changed := false, true;
      while changed
        invariant Came(t0, steps, View()) && read == old(read) + payload
        invariant start == startSeq == |old(read)| && chunk == payload
        invariant !place.Resting? && !place.Failed? && (changed ==> place.Ready?)
        invariant acked ==> place.Waiting? && local.pending.Some? && local.pending.value.acked
        invariant !acked && !changed ==> slot.closed || left == []
        decreases changed, |left|
      {
        var signal := slot.carrierChange;
        CameFurther(t0, steps, View(), TakeSignal);
        place, steps := Captured(signal), steps + [TakeSignal];
        ok, left, steps := WriteFrameUntil(startSeq, payload, left, t0, steps);
        changed := false;
        if ok {
          acked, changed, left, steps := AwaitAck(signal, left, t0, steps);
        }
        if changed {
          CameFurther(t0, steps, View(), WakeChanged);
          place, steps := Ready, steps + [WakeChanged];
        }
      }
      steps := EndSend(acked, t0, steps);
      ok := acked;
    }

    /** Sends what the local end reads, chunk by chunk, until a chunk fails: then the peer
        has all earlier chunks and at most a part of that one, and nothing of later ones. */
    method OutboundPump(pieces: seq<seq<Byte>>, turns: seq<seq<Turn>>) returns (sent: nat, ghost steps: seq<Step>)
      requires Valid() && place.Resting? && |turns| == |pieces|
      modifies this, slot, local, peer
      ensures Valid() && Leads(old(View()), steps, View())
      ensures sent <= |pieces| && All(old(read), pieces, sent) <= peer.out
      ensures if sent == |pieces| then peer.out == All(old(read), pieces, sent)
              else peer.out <= All(old(read), pieces, sent + 1)
    {
      sent, steps := 0, [];
      CameNowhere(View());
      CameToRest(View(), [], View());
      hide Inv, Leads, Came;
      while sent < |pieces|
        invariant sent <= |pieces| && Valid() && place.Resting? && Leads(old(View()), steps, View())
        invariant peer.out == read == All(old(read), pieces, sent)
      {
        if |pieces[sent]| > 0 {
          ghost var t := View();
          var ok, _, more := SendChunk(pieces[sent], turns[sent]);
          LeadsOn(old(View()), steps, t, more, View());
          steps := steps + more;
          if !ok {
            return;
          }
        }
        sent := sent + 1;
      }
    }
  }

  /** What was there before, followed by the first `n` pieces. */
  function All(before: seq<Byte>, pieces: seq<seq<Byte>>, n: nat): seq<Byte>
    requires n <= |pieces|
  {
    if n == 0 then before else All(before, pieces, n - 1) + pieces[n - 1]
  }
}

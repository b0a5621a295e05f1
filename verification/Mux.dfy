/** Stop-and-wait delivery of one stream over a carrier that may be replaced at any time. */
module Mux {
  import opened Bits
  import opened Options

  // ----- Carriers -----

  /** The current carrier, its generation, and the number of the change signal that is
      armed; every signal with a smaller number has fired. */
  datatype Carriers = Carriers(carrier: Option<nat>, gen: nat, change: nat, closed: bool)

  function Replace(c: Carriers, carrier: Option<nat>): Carriers {
    if c.closed then c else c.(carrier := carrier, gen := c.gen + 1, change := c.change + 1)
  }

  /** A death notice counts only for the carrier and generation that are current. */
  function MarkDead(c: Carriers, gen: nat, carrier: nat): Carriers {
    if c.closed || c.gen != gen || c.carrier != Some(carrier) then c
    else c.(carrier := None, change := c.change + 1)
  }

  function Close(c: Carriers): Carriers {
    if c.closed then c else c.(carrier := None, change := c.change + 1, closed := true)
  }

  // ----- The two ends of a stream -----

  datatype Pending = Pending(endSeq: nat, acked: bool)

  datatype Sender = Sender(sendSeq: nat, pending: Option<Pending>)

  function Begin(s: Sender, length: nat): Sender {
    Sender(s.sendSeq + length, Some(Pending(s.sendSeq + length, false)))
  }

  function HandleAck(s: Sender, ack: nat): Sender {
    if s.pending.None? || ack < s.pending.value.endSeq then s
    else s.(pending := Some(s.pending.value.(acked := true)))
  }

  datatype Peer = Peer(recvSeq: nat, out: seq<Byte>, alive: bool)

  /** Writing to the stream either takes everything or, after a part, fails for good. */
  datatype Delivery = Acked(peer: Peer, ack: nat) | Broken(peer: Peer)

  /** `room` is how many bytes the stream still takes before a write to it fails. */
  function Deliver(p: Peer, seqNo: nat, payload: seq<Byte>, room: nat): Delivery {
    if seqNo != p.recvSeq then Acked(p, p.recvSeq)
    else if p.alive && |payload| <= room then
      var p' := p.(recvSeq := p.recvSeq + |payload|, out := p.out + payload);
      Acked(p', p'.recvSeq)
    else if p.alive then Broken(p.(out := p.out + payload[..room], alive := false))
    else Broken(p)
  }

  // ----- The sending loop -----

  /** Where the loop that sends one chunk is: before it takes hold of the change signal,
      with the signal but no carrier yet, with a carrier, writing, waiting, or given up. */
  datatype Pump =
    | Resting
    | Ready
    | Captured(signal: nat)
    | Snapped(signal: nat, carrier: nat, gen: nat)
    | Writing(signal: nat, carrier: nat, gen: nat)
    | Waiting(signal: nat, carrier: nat, gen: nat)
    | Failed

  /** A DATA frame that went in full onto a carrier. */
  datatype Frame = Frame(gen: nat, carrier: nat, seqNo: nat, payload: seq<Byte>)

  /** `read` is everything read from the local end so far; frames and acknowledgements stay
      in the system for good, because old carriers may still deliver them. */
  datatype System = System(
    read: seq<Byte>,
    carriers: Carriers,
    snd: Sender,
    start: nat,
    chunk: seq<Byte>,
    pump: Pump,
    frames: set<Frame>,
    peer: Peer,
    acks: set<nat>)

  /** A write that fails may still have put its whole frame `through`. */
  datatype Step =
    | ReadChunk(payload: seq<Byte>)
    | TakeSignal
    | TakeSnapshot
    | CheckCurrent
    | WriteFrame
    | WriteFails(through: bool)
    | WakeAcked
    | WakeChanged
    | GiveUp
    | ReplaceCarrier(next: Option<nat>)
    | CarrierDies(gen: nat, carrier: nat)
    | CloseMux
    | DeliverFrame(frame: Frame, room: nat)
    | AckArrives(ack: nat)

  function Init(): System {
    System([], Carriers(None, 0, 0, false), Sender(0, None), 0, [], Resting, {}, Peer(0, [], true), {})
  }

  predicate Enabled(t: System, step: Step) {
    match step
    case ReadChunk(payload) => t.pump.Resting? && 0 < |payload|
    case TakeSignal => t.pump.Ready?
    case TakeSnapshot => t.pump.Captured? && !t.carriers.closed && t.carriers.carrier.Some?
    case CheckCurrent => t.pump.Snapped?
    case WriteFrame => t.pump.Writing?
    case WriteFails(_) => t.pump.Writing?
    case WakeAcked => t.pump.Waiting? && t.snd.pending.Some? && t.snd.pending.value.acked
    case WakeChanged => t.pump.Waiting? && t.pump.signal < t.carriers.change
    case GiveUp => !t.pump.Resting? && !t.pump.Failed?
    case ReplaceCarrier(_) => true
    case CarrierDies(_, _) => true
    case CloseMux => true
    case DeliverFrame(frame, _) => frame in t.frames
    case AckArrives(ack) => ack in t.acks
  }

  function Apply(t: System, step: Step): System
    requires Enabled(t, step)
  {
    match step
    case ReadChunk(payload) =>
      t.(read := t.read + payload, snd := Begin(t.snd, |payload|), start := t.snd.sendSeq, chunk := payload,
         pump := Ready)
    case TakeSignal => t.(pump := Captured(t.carriers.change))
    case TakeSnapshot => t.(pump := Snapped(t.pump.signal, t.carriers.carrier.value, t.carriers.gen))
    case CheckCurrent =>
      if !t.carriers.closed && t.carriers.carrier == Some(t.pump.carrier) && t.carriers.gen == t.pump.gen then
        t.(pump := Writing(t.pump.signal, t.pump.carrier, t.pump.gen))
      else t.(pump := Captured(t.pump.signal))
    case WriteFrame =>
      t.(frames := t.frames + {Frame(t.pump.gen, t.pump.carrier, t.start, t.chunk)},
         pump := Waiting(t.pump.signal, t.pump.carrier, t.pump.gen))
    case WriteFails(through) =>
      t.(carriers := MarkDead(t.carriers, t.pump.gen, t.pump.carrier),
         frames := if through then t.frames + {Frame(t.pump.gen, t.pump.carrier, t.start, t.chunk)} else t.frames,
         pump := Captured(t.pump.signal))
    case WakeAcked => t.(snd := t.snd.(pending := None), pump := Resting)
    case WakeChanged => t.(pump := Ready)
    case GiveUp => t.(snd := t.snd.(pending := None), pump := Failed)
    case ReplaceCarrier(next) => t.(carriers := Replace(t.carriers, next))
    case CarrierDies(gen, carrier) => t.(carriers := MarkDead(t.carriers, gen, carrier))
    case CloseMux => t.(carriers := Close(t.carriers))
    case DeliverFrame(frame, room) =>
      var d := Deliver(t.peer, frame.seqNo, frame.payload, room);
      if d.Acked? then t.(peer := d.peer, acks := t.acks + {d.ack}) else t.(peer := d.peer)
    case AckArrives(ack) => t.(snd := HandleAck(t.snd, ack))
  }

  ghost predicate IsRun(run: seq<System>, steps: seq<Step>) {
    && |run| == |steps| + 1
    && run[0] == Init()
    && (forall n :: 0 <= n < |steps| ==> Enabled(run[n], steps[n]) && run[n + 1] == Apply(run[n], steps[n]))
  }

  // ----- The invariant -----

  ghost predicate IsPiece(read: seq<Byte>, seqNo: nat, payload: seq<Byte>) {
    seqNo + |payload| <= |read| && payload == read[seqNo..seqNo + |payload|]
  }

  /** The peer has written a prefix of what was read, and counts it right while it lives. */
  ghost predicate PeerOk(read: seq<Byte>, p: Peer) {
    && p.recvSeq <= |p.out| && p.out <= read
    && (p.alive ==> p.recvSeq == |p.out|)
  }

  ghost predicate SenderOk(t: System) {
    && t.snd.sendSeq == |t.read|
    && (!t.pump.Resting? ==> t.start + |t.chunk| == |t.read| && IsPiece(t.read, t.start, t.chunk))
    && (t.pump.Resting? ==> t.peer.recvSeq == |t.read|)
    && (t.snd.pending.Some? ==>
          && t.snd.pending.value.endSeq == |t.read|
          && (t.snd.pending.value.acked ==> t.peer.recvSeq == |t.read|))
  }

  /** While the signal the loop holds has not fired, what it knows about the carrier is
      still so. */
  ghost predicate PumpOk(t: System) {
    && (t.pump.Captured? ==> t.pump.signal <= t.carriers.change)
    && (t.pump.Snapped? || t.pump.Writing? || t.pump.Waiting? ==>
          && t.pump.signal <= t.carriers.change && t.pump.gen <= t.carriers.gen
          && (t.pump.signal == t.carriers.change ==>
                !t.carriers.closed && t.carriers.carrier == Some(t.pump.carrier) && t.carriers.gen == t.pump.gen))
    && (t.pump.Waiting? ==> Frame(t.pump.gen, t.pump.carrier, t.start, t.chunk) in t.frames)
  }

  /** Stop and wait: every frame is of an earlier chunk or of this one, and the peer is
      before or behind this one. */
  ghost predicate ChunkOk(t: System) {
    !t.pump.Resting? ==>
      && 0 < |t.chunk|
      && (t.peer.recvSeq == t.start || t.peer.recvSeq == |t.read|)
      && (forall f :: f in t.frames ==>
          f.seqNo + |f.payload| <= t.start || (f.seqNo == t.start && f.payload == t.chunk))
      && (!t.pump.Failed? ==> t.snd.pending.Some?)
  }

  ghost predicate Inv(t: System) {
    && (forall f :: f in t.frames ==> 0 < |f.payload| && IsPiece(t.read, f.seqNo, f.payload))
    && (forall a :: a in t.acks ==> a <= t.peer.recvSeq)
    && PeerOk(t.read, t.peer) && SenderOk(t) && PumpOk(t) && ChunkOk(t)
  }
}

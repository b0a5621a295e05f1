/** One sequenced lane: the packets put on it, the sender's packets in flight, and what
    the receiver of the lane holds and has acknowledged. */
module Lanes {
  import Maps
  import opened Bits
  import opened SelectiveAck

  const MaxBufferedPackets: nat := 4096
  const TerminalDoneAttempts: nat := 4
  /** Milliseconds. */
  const TerminalDoneGrace: nat := 500

  datatype Packet =
    | Data(seqNo: nat, offset: nat, payload: seq<Byte>)
    | Done(seqNo: nat, offset: nat)

  /** A packet in flight: how often it was sent, and when first. */
  datatype Outbound = Outbound(packet: Packet, attempts: nat, firstSentAt: nat)

  function Launch(inFlight: map<nat, Outbound>, p: Packet, now: nat): map<nat, Outbound> {
    inFlight[p.seqNo := Outbound(p, 1, now)]
  }

  function Retransmit(inFlight: map<nat, Outbound>, expired: set<nat>): map<nat, Outbound> {
    map n | n in inFlight ::
      if n in expired then inFlight[n].(attempts := inFlight[n].attempts + 1) else inFlight[n]
  }

  /** Only the final DONE packet is still in flight, and it was repeated long enough. */
  predicate DoneSettled(inFlight: map<nat, Outbound>, now: nat) {
    && |inFlight| == 1
    && forall n :: n in inFlight ==>
         && inFlight[n].packet.Done?
         && inFlight[n].attempts >= TerminalDoneAttempts
         && inFlight[n].firstSentAt + TerminalDoneGrace <= now
  }

  /** How one call of the source reader ended, besides the bytes it produced. */
  datatype ReadEnd = More | Eof | Broken

  datatype Read = Read(bytes: seq<Byte>, end: ReadEnd)

  /** The reader delivers the source in order, at most a chunk at a time, and reports
      the end of the file only at the end of the source. */
  predicate HonestRead(source: seq<Byte>, offset: nat, chunkSize: nat, r: Read) {
    && |r.bytes| <= chunkSize
    && offset + |r.bytes| <= |source|
    && r.bytes == source[offset..offset + |r.bytes|]
    && (r.end == Eof ==> offset + |r.bytes| == |source|)
  }

  /** The receiver has room to keep packet `n` for later. */
  predicate Bufferable(expected: nat, n: nat) {
    expected < n <= expected + MaxBufferedPackets
  }

  // ----- Joint facts about the two ends of a lane; `log` is what was put on it -----

  /** The receiver has packet `n`: it was delivered or it is buffered. */
  ghost predicate Held(expected: nat, buffered: map<nat, Packet>, n: nat) {
    n < expected || n in buffered
  }

  /** Everything put on the lane is in flight or held. */
  ghost predicate FlightOk(inFlight: map<nat, Outbound>, expected: nat, buffered: map<nat, Packet>, log: seq<Packet>) {
    && (forall n :: n in inFlight ==> n < |log| && inFlight[n].packet == log[n])
    && (forall n: nat :: n < |log| ==> n in inFlight || Held(expected, buffered, n))
  }

  /** The buffer holds packets of the lane numbered `low` or higher. */
  ghost predicate BufferOk(buffered: map<nat, Packet>, log: seq<Packet>, low: nat) {
    forall n :: n in buffered ==> low <= n < |log| && buffered[n] == log[n]
  }

  /** The buffer reaches no further than an acknowledgement can. */
  ghost predicate InReach(expected: nat, buffered: map<nat, Packet>) {
    forall n :: n in buffered ==> n <= expected + MaxBufferedPackets
  }

  /** What the receiver vouched for, it holds. */
  ghost predicate AckOk(ack: Ack, expected: nat, buffered: map<nat, Packet>) {
    && ack.floor <= expected
    && (forall n: nat :: Covers(ack, n) ==> Held(expected, buffered, n))
  }

  ghost predicate AcksOk(acks: set<Ack>, expected: nat, buffered: map<nat, Packet>) {
    forall a :: a in acks ==> AckOk(a, expected, buffered)
  }

  /** A later state of the receiving end: nothing held is lost. */
  ghost predicate Later(expected: nat, buffered: map<nat, Packet>, expected': nat, buffered': map<nat, Packet>) {
    && expected <= expected'
    && (forall n: nat :: Held(expected, buffered, n) ==> Held(expected', buffered', n))
  }

  lemma LaterTrans(e: nat, b: map<nat, Packet>, e1: nat, b1: map<nat, Packet>, e2: nat, b2: map<nat, Packet>)
    requires Later(e, b, e1, b1) && Later(e1, b1, e2, b2)
    ensures Later(e, b, e2, b2)
  {
    hide Held;
  }

  lemma LaterKeeps(inFlight: map<nat, Outbound>, acks: set<Ack>, log: seq<Packet>,
                   e: nat, b: map<nat, Packet>, e': nat, b': map<nat, Packet>)
    requires Later(e, b, e', b')
    requires FlightOk(inFlight, e, b, log) && AcksOk(acks, e, b)
    ensures FlightOk(inFlight, e', b', log) && AcksOk(acks, e', b')
  {
    hide Held, Covers;
  }

  lemma EmitKeepsFlight(inFlight: map<nat, Outbound>, e: nat, b: map<nat, Packet>, log: seq<Packet>, p: Packet,
                        now: nat)
    requires FlightOk(inFlight, e, b, log) && p.seqNo == |log|
    ensures FlightOk(Launch(inFlight, p, now), e, b, log + [p])
    ensures |Launch(inFlight, p, now)| == |inFlight| + 1
  {
    hide Held;
    assert p.seqNo !in inFlight;
    Maps.Gains(inFlight, p.seqNo, Outbound(p, 1, now));
    var inFlight', log' := Launch(inFlight, p, now), log + [p];
    forall n | n in inFlight'
      ensures n < |log'| && inFlight'[n].packet == log'[n]
    {
      if n != p.seqNo {
        assert n in inFlight;
      }
    }
    forall n: nat | n < |log'|
      ensures n in inFlight' || Held(e, b, n)
    {
      assert n < |log| ==> n in inFlight || Held(e, b, n);
    }
  }

  lemma ResendKeepsFlight(inFlight: map<nat, Outbound>, e: nat, b: map<nat, Packet>, log: seq<Packet>,
                          expired: set<nat>)
    requires FlightOk(inFlight, e, b, log)
    ensures FlightOk(Retransmit(inFlight, expired), e, b, log)
    ensures |Retransmit(inFlight, expired)| == |inFlight|
  {
    hide Held;
    var inFlight' := Retransmit(inFlight, expired);
    assert inFlight'.Keys == inFlight.Keys;
    assert |inFlight'| == |inFlight'.Keys|;
  }

  lemma AckKeepsFlight(inFlight: map<nat, Outbound>, e: nat, b: map<nat, Packet>, log: seq<Packet>, ack: Ack)
    requires FlightOk(inFlight, e, b, log) && AckOk(ack, e, b)
    ensures FlightOk(inFlight - Covered(inFlight.Keys, ack), e, b, log)
  {
    hide Covers, Held;
  }

  /** An acknowledgement built from the receiver's state says exactly what is held. */
  lemma AckIsExact(e: nat, b: map<nat, Packet>, log: seq<Packet>, ack: Ack, n: nat)
    requires BufferOk(b, log, e + 1) && InReach(e, b)
    requires BuiltFrom(ack, b.Keys, e)
    ensures Covers(ack, n) <==> Held(e, b, n)
  {
    hide Marks;
    if n > e {
      assert e + 1 + (n - e - 1) == n;
    }
  }

  lemma AckSentKeeps(acks: set<Ack>, e: nat, b: map<nat, Packet>, log: seq<Packet>, ack: Ack)
    requires AcksOk(acks, e, b) && BufferOk(b, log, e + 1) && InReach(e, b) && BuiltFrom(ack, b.Keys, e)
    ensures AcksOk(acks + {ack}, e, b)
  {
    hide Covers, Held, BufferOk, InReach;
    forall n: nat
      ensures Covers(ack, n) ==> Held(e, b, n)
    {
      AckIsExact(e, b, log, ack, n);
    }
  }

  /** A genuine acknowledgement never claims more than was sent. */
  lemma AckIsPlausibleFor(ack: Ack, e: nat, b: map<nat, Packet>, log: seq<Packet>)
    requires AckOk(ack, e, b) && BufferOk(b, log, e + 1) && e <= |log|
    ensures Plausible(|log|, ack)
  {
    hide Marks;
    forall d: nat | Marks(ack, d)
      ensures ack.floor + d + 1 < |log|
    {
      assert Covers(ack, ack.floor + d + 1);
    }
  }

  /** Delivering the expected packet, or taking it out of the buffer. */
  lemma BufferAfter(e: nat, b: map<nat, Packet>, log: seq<Packet>, b': map<nat, Packet>)
    requires BufferOk(b, log, e)
    requires b'.Keys == b.Keys - {e}
    requires forall n :: n in b' ==> b'[n] == b[n]
    ensures BufferOk(b', log, e + 1)
    ensures InReach(e, b) ==> InReach(e + 1, b')
    ensures Later(e, b, e + 1, b')
  {
  }

  lemma BufferPacket(e: nat, b: map<nat, Packet>, log: seq<Packet>, low: nat, n: nat)
    requires BufferOk(b, log, low) && low <= n < |log|
    ensures BufferOk(b[n := log[n]], log, low)
    ensures InReach(e, b) && Bufferable(e, n) ==> InReach(e, b[n := log[n]])
    ensures Later(e, b, e, b[n := log[n]])
  {
  }

  lemma NothingBeyond(b: map<nat, Packet>, log: seq<Packet>)
    requires BufferOk(b, log, |log|)
    ensures b == map[]
  {
  }
}

/** The reliable raw transport on one lane: a sliding-window sender and a reordering
    receiver, each given by the function of its state that every operation computes. */
module RawTransport {
  import Maps
  import opened Bits
  import opened Lanes
  import opened SelectiveAck

  // ----- Sender -----

  datatype Sender = Sender(
    chunkSize: nat,
    window: nat,
    nextSeq: nat,
    ackFloor: nat,
    offset: nat,
    eof: bool,
    doneQueued: bool,
    pendingErr: bool,
    inFlight: map<nat, Outbound>,
    packetsAcked: nat)

  predicate HasCapacity(s: Sender) {
    s.window > 0 &&
    if s.nextSeq < s.ackFloor then |s.inFlight| < s.window
    else s.nextSeq - s.ackFloor < s.window
  }

  datatype Outcome = Sent(sender: Sender, packet: Packet) | Nothing(sender: Sender) | Failed

  function DonePacket(s: Sender): Outcome {
    Sent(s.(nextSeq := s.nextSeq + 1, doneQueued := true), Done(s.nextSeq, s.offset))
  }

  /** The next packet to put on the wire, given what the reader returns if it is asked. */
  function NextOutbound(s: Sender, r: Read): Outcome {
    if s.doneQueued || s.pendingErr then Nothing(s)
    else if s.eof then DonePacket(s)
    else if |r.bytes| > 0 then
      Sent(s.(nextSeq := s.nextSeq + 1,
              offset := s.offset + |r.bytes|,
              eof := r.end == Eof,
              pendingErr := r.end == Broken),
           Data(s.nextSeq, s.offset, r.bytes))
    else
      match r.end
      case Eof => DonePacket(s.(eof := true))
      case Broken => Failed
      case More => Nothing(s)
  }

  /** `packets` were put in flight, and go on the wire unless the reader failed. */
  datatype Filled = Filled(sender: Sender, packets: seq<Packet>, ok: bool)

  /** Filling the send window: a failure of the reader that was put off until everything
      before it is acknowledged ends the send now. */
  function FillWindow(s: Sender, input: seq<Read>, now: nat): Filled {
    if |s.inFlight| == 0 && s.pendingErr then Filled(s, [], false) else FillRoom(s, input, now)
  }

  /** Packets are built and put in flight while there is room; a reader failure ends the send. */
  function FillRoom(s: Sender, input: seq<Read>, now: nat): Filled
    decreases |input|
  {
    if input == [] || !HasCapacity(s) || s.doneQueued then Filled(s, [], true)
    else
      match NextOutbound(s, input[0])
      case Failed => Filled(s, [], false)
      case Nothing(s') => Filled(s', [], true)
      case Sent(s', p) =>
        var rest := FillRoom(s'.(inFlight := Launch(s'.inFlight, p, now)), input[1..], now);
        Filled(rest.sender, [p] + rest.packets, rest.ok)
  }

  /** The effect of one acknowledgement that passed the plausibility test. */
  ghost function AfterAck(s: Sender, ack: Ack): Sender {
    var covered := Covered(s.inFlight.Keys, ack);
    s.(ackFloor := if ack.floor > s.ackFloor then ack.floor else s.ackFloor,
       packetsAcked := s.packetsAcked + |covered|,
       inFlight := s.inFlight - covered)
  }

  /** The condition under which the send reports success. */
  predicate SendSucceeds(s: Sender, now: nat) {
    s.doneQueued && (|s.inFlight| == 0 || DoneSettled(s.inFlight, now))
  }

  // ----- Receiver -----

  datatype Receiver = Receiver(
    expected: nat,
    buffered: map<nat, Packet>,
    out: seq<Byte>,
    complete: bool)

  /** Delivers buffered packets for as long as the next expected one is there. */
  function Advance(r: Receiver): Receiver
    decreases |r.buffered|
  {
    if r.expected !in r.buffered then r
    else
      var p := r.buffered[r.expected];
      var rest := Maps.Without(r.buffered, r.expected);
      match p
      case Data(_, _, payload) => Advance(Receiver(r.expected + 1, rest, r.out + payload, r.complete))
      case Done(_, _) => Receiver(r.expected + 1, rest, r.out, true)
  }

  /** The receiver's reaction to one packet, when the destination takes every write. */
  function Receive(r: Receiver, p: Packet): Receiver {
    match p
    case Data(n, _, payload) =>
      if n == r.expected then
        Advance(Receiver(r.expected + 1, r.buffered, r.out + payload, r.complete))
      else if Bufferable(r.expected, n) then Advance(r.(buffered := r.buffered[n := p]))
      else Advance(r)
    case Done(n, _) =>
      if n == r.expected then r.(expected := r.expected + 1, complete := true)
      else if Bufferable(r.expected, n) then Advance(r.(buffered := r.buffered[n := p]))
      else Advance(r)
  }
}

/** The striped raw transport: one source split over several independently sequenced
    lanes, and a receiver that puts the pieces back together by offset. */
module StripedTransport {
  import Maps
  import opened Lanes
  import opened Options
  import opened Reassembly

  // ----- Sender -----

  datatype SendStripe = SendStripe(nextSeq: nat, doneQueued: bool, inFlight: map<nat, Outbound>)

  /** The shared source state and the stripes. */
  datatype Sender = Sender(
    chunkSize: nat,
    window: nat,
    offset: nat,
    eof: bool,
    pendingErr: bool,
    stripes: seq<SendStripe>)

  datatype Outcome = Sent(sender: Sender, packet: Packet) | Nothing(sender: Sender) | Failed

  /** A stripe may be asked for a packet: it has not sent DONE and has room in flight. */
  predicate MaySend(s: Sender, i: nat) {
    i < |s.stripes| && !s.stripes[i].doneQueued && |s.stripes[i].inFlight| < s.window
  }

  function DonePacket(s: Sender, i: nat): Outcome
    requires i < |s.stripes|
  {
    var stripe := s.stripes[i];
    Sent(s.(stripes := s.stripes[i := stripe.(nextSeq := stripe.nextSeq + 1, doneQueued := true)]),
         Done(stripe.nextSeq, s.offset))
  }

  /** The next packet of stripe `i`, given what the reader returns if it is asked. */
  function NextOutbound(s: Sender, i: nat, r: Read): Outcome
    requires i < |s.stripes|
  {
    var stripe := s.stripes[i];
    if stripe.doneQueued || s.pendingErr then Nothing(s)
    else if s.eof then DonePacket(s, i)
    else if |r.bytes| > 0 then
      Sent(s.(stripes := s.stripes[i := stripe.(nextSeq := stripe.nextSeq + 1)],
              offset := s.offset + |r.bytes|,
              eof := r.end == Eof,
              pendingErr := r.end == Broken),
           Data(stripe.nextSeq, s.offset, r.bytes))
    else
      match r.end
      case Eof => DonePacket(s.(eof := true), i)
      case Broken => Failed
      case More => Nothing(s)
  }

  /** The condition under which the striped send reports success: nothing is in flight on
      any stripe, or on every stripe only a settled DONE is. */
  predicate SendSucceeds(s: Sender, now: nat) {
    && (forall i :: 0 <= i < |s.stripes| ==> s.stripes[i].doneQueued)
    && ((forall i :: 0 <= i < |s.stripes| ==> |s.stripes[i].inFlight| == 0)
        || (forall i :: 0 <= i < |s.stripes| ==> DoneSettled(s.stripes[i].inFlight, now)))
  }

  // ----- Receiver -----

  datatype RecvStripe = RecvStripe(expected: nat, buffered: map<nat, Packet>, done: bool)

  datatype Receiver = Receiver(
    stripes: seq<RecvStripe>,
    buffer: Buffer,
    finalTotal: Option<nat>,
    completed: nat)

  predicate Complete(r: Receiver) {
    r.finalTotal == Some(r.buffer.nextOffset) && r.completed == |r.stripes|
  }

  /** Whether the step succeeded; DONE packets that disagree on the size are an error. */
  datatype Result = Ok(receiver: Receiver) | Disagree

  /** Accepts the packet that stripe `i` expects next. */
  function AcceptPacket(r: Receiver, i: nat, p: Packet): Result
    requires i < |r.stripes|
  {
    var stripe := r.stripes[i];
    match p
    case Data(_, offset, payload) =>
      Ok(r.(buffer := Accept(r.buffer, offset, payload),
            stripes := r.stripes[i := stripe.(expected := stripe.expected + 1)]))
    case Done(_, offset) =>
      if r.finalTotal.Some? && r.finalTotal.value != offset then Disagree
      else
        Ok(r.(finalTotal := Some(offset),
              completed := if stripe.done then r.completed else r.completed + 1,
              stripes := r.stripes[i := stripe.(expected := stripe.expected + 1, done := true)]))
  }

  /** Takes the packet that stripe `i` expects out of its buffer. */
  function Unbuffer(r: Receiver, i: nat): Receiver
    requires i < |r.stripes| && r.stripes[i].expected in r.stripes[i].buffered
  {
    var stripe := r.stripes[i];
    r.(stripes := r.stripes[i := stripe.(buffered := Maps.Without(stripe.buffered, stripe.expected))])
  }

  /** Accepts buffered packets of stripe `i` until one is missing or all is complete. */
  function Drain(r: Receiver, i: nat): Result
    requires i < |r.stripes|
    decreases |r.stripes[i].buffered|
  {
    var stripe := r.stripes[i];
    if Complete(r) || stripe.expected !in stripe.buffered then Ok(r)
    else
      match AcceptPacket(Unbuffer(r, i), i, stripe.buffered[stripe.expected])
      case Disagree => Disagree
      case Ok(r') => Drain(r', i)
  }

  /** The receiver's reaction to one packet of stripe `i`. */
  function Receive(r: Receiver, i: nat, p: Packet): Result
    requires i < |r.stripes|
  {
    var stripe := r.stripes[i];
    if p.seqNo == stripe.expected then
      match AcceptPacket(r, i, p)
      case Disagree => Disagree
      case Ok(r') => Drain(r', i)
    else if Bufferable(stripe.expected, p.seqNo) then
      Ok(r.(stripes := r.stripes[i := stripe.(buffered := stripe.buffered[p.seqNo := p])]))
    else Ok(r)
  }
}

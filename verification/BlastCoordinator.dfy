/** The striped blast receiver without parity: reassembly with a memory tier and a spool
    file tier, both for packets that are early on their stripe and for payloads that are
    early in the stream, and a write buffer in front of the destination. */
module BlastCoordinator {
  import Maps
  import opened Bits
  import opened Lanes
  import opened Options

  const WriteBufferLimit: nat := 0x40_0000
  const PendingOutputLimit: nat := 0x1000_0000
  const FutureBufferLimit: nat := 0x1000_0000
  const MaxInt: nat := 0x7fff_ffff_ffff_ffff

  // ----- The spool file -----

  function Zeros(n: nat): (s: seq<Byte>)
    ensures |s| == n
  {
    seq(n, _ => 0)
  }

  /** Writing at an offset: the file grows as needed, holes read as zero. */
  function SpoolWrite(file: seq<Byte>, offset: nat, payload: seq<Byte>): (r: seq<Byte>)
    ensures |r| == if |file| < offset + |payload| then offset + |payload| else |file|
    ensures forall k :: 0 <= k < |r| ==>
              r[k] == if offset <= k < offset + |payload| then payload[k - offset]
                      else if k < |file| then file[k] else 0
  {
    var padded := if |file| < offset then file + Zeros(offset - |file|) else file;
    padded[..offset] + payload + (if offset + |payload| < |file| then file[offset + |payload|..] else [])
  }

  /** Reading a range; nothing when the file is too short. */
  function SpoolRead(file: seq<Byte>, offset: nat, length: nat): Option<seq<Byte>> {
    if offset + length <= |file| then Some(file[offset..offset + length]) else None
  }

  // ----- State -----

  /** A DATA packet whose payload is in the spool file at its offset. */
  datatype Spooled = Spooled(offset: nat, length: nat)

  datatype Stripe = Stripe(
    seen: set<nat>,
    buffered: map<nat, Packet>,
    spooled: map<nat, Spooled>,
    expected: nat,
    maxSeqPlusOne: nat,
    done: bool,
    terminalSeen: bool,
    totalPackets: nat)

  /** `capacity` is how many bytes the destination takes before a write to it fails. */
  datatype State = State(
    stripes: seq<Stripe>,
    pending: map<nat, seq<Byte>>,
    pendingBytes: nat,
    futureBytes: nat,
    spool: Option<seq<Byte>>,
    spoolLens: map<nat, nat>,
    nextOffset: nat,
    finalTotal: Option<nat>,
    completed: nat,
    writeBuf: seq<Byte>,
    dst: seq<Byte>,
    capacity: nat,
    expectedBytes: int)

  function FreshStripe(): Stripe {
    Stripe({}, map[], map[], 0, 0, false, false, 0)
  }

  function Fresh(stripes: nat, capacity: nat, expectedBytes: int): State {
    State(seq(stripes, _ => FreshStripe()), map[], 0, 0, None, map[], 0, None, 0, [], [], capacity, expectedBytes)
  }

  /** An operation either yields the next state or fails the whole receive, leaving what
      the destination took so far. */
  datatype Result = Ok(state: State) | Err(dst: seq<Byte>)

  function WithStripe(s: State, i: nat, stripe: Stripe): State
    requires i < |s.stripes|
  {
    s.(stripes := s.stripes[i := stripe])
  }

  // ----- The spool of a state -----

  predicate NothingSpooled(s: State) {
    s.spoolLens == map[] && forall i :: 0 <= i < |s.stripes| ==> s.stripes[i].spooled == map[]
  }

  function MaybeCloseSpool(s: State): State {
    if NothingSpooled(s) then s.(spool := None) else s
  }

  function SpoolFile(s: State): seq<Byte> {
    if s.spool.Some? then s.spool.value else []
  }

  function SpoolPayload(s: State, offset: nat, payload: seq<Byte>): State {
    s.(spool := Some(SpoolWrite(SpoolFile(s), offset, payload)))
  }

  // ----- Output -----

  /** Hands the write buffer to the destination. */
  function FlushWriteBuffer(s: State): Result {
    if |s.dst| + |s.writeBuf| <= s.capacity then Ok(s.(writeBuf := [], dst := s.dst + s.writeBuf))
    else if |s.dst| <= s.capacity then Err(s.dst + s.writeBuf[..s.capacity - |s.dst|])
    else Err(s.dst)
  }

  /** Appends to the write buffer, which goes to the destination once it is full. */
  function WritePayload(s: State, payload: seq<Byte>): (r: Result)
    ensures r.Ok? ==> r.state.stripes == s.stripes && r.state.pending == s.pending && r.state.spoolLens == s.spoolLens
  {
    var s' := s.(writeBuf := s.writeBuf + payload, nextOffset := s.nextOffset + |payload|);
    if |payload| == 0 then Ok(s)
    else if |s'.writeBuf| < WriteBufferLimit then Ok(s')
    else FlushWriteBuffer(s')
  }

  /** Subtraction that stops at zero. */
  function Less(a: nat, b: nat): nat {
    if b >= a then 0 else a - b
  }

  datatype Taken = Took(state: State, payload: seq<Byte>) | Absent | Unreadable

  /** Takes the payload waiting at the next offset out of its tier. */
  function TakePending(s: State): (r: Taken)
    ensures r.Took? ==>
            r.state.stripes == s.stripes && |r.state.pending| + |r.state.spoolLens| < |s.pending| + |s.spoolLens|
  {
    if s.nextOffset in s.pending then
      var payload := s.pending[s.nextOffset];
      Took(s.(pending := Maps.Without(s.pending, s.nextOffset), pendingBytes := Less(s.pendingBytes, |payload|)),
           payload)
    else if s.nextOffset !in s.spoolLens then Absent
    else if s.spool.None? then Unreadable
    else
      var payload := SpoolRead(s.spool.value, s.nextOffset, s.spoolLens[s.nextOffset]);
      if payload.None? then Unreadable
      else Took(MaybeCloseSpool(s.(spoolLens := Maps.Without(s.spoolLens, s.nextOffset))), payload.value)
  }

  /** Writes out waiting payloads for as long as the next one is there. */
  function FlushPending(s: State): (r: Result)
    ensures r.Ok? ==> r.state.stripes == s.stripes
    decreases |s.pending| + |s.spoolLens|
  {
    match TakePending(s)
    case Absent => Ok(s)
    case Unreadable => Err(s.dst)
    case Took(s1, payload) =>
      var r := WritePayload(s1, payload);
      if r.Err? then r else FlushPending(r.state)
  }

  /** Keeps a payload that is early in the stream, in memory or in the spool. */
  function StorePending(s: State, offset: nat, payload: seq<Byte>): Result {
    if offset in s.pending || offset in s.spoolLens then Ok(s)
    else if s.pendingBytes + |payload| <= PendingOutputLimit then
      Ok(s.(pending := s.pending[offset := payload], pendingBytes := s.pendingBytes + |payload|))
    else if offset > MaxInt then Err(s.dst)
    else Ok(SpoolPayload(s, offset, payload).(spoolLens := s.spoolLens[offset := |payload|]))
  }

  function AcceptData(s: State, offset: nat, payload: seq<Byte>): Result {
    if |payload| == 0 then Ok(s)
    else if offset == s.nextOffset then
      var r := WritePayload(s, payload);
      if r.Err? then r else FlushPending(r.state)
    else if offset > s.nextOffset then StorePending(s, offset, payload)
    else Ok(s)
  }

  // ----- Packets -----

  /** The announced size is not the one this receive was told to expect. */
  predicate WrongTotal(s: State, total: nat) {
    s.expectedBytes > 0 && total != s.expectedBytes
  }

  function AcceptDone(s: State, i: nat, n: nat, total: nat): Result
    requires i < |s.stripes|
  {
    var stripe := s.stripes[i];
    if (s.finalTotal.Some? && s.finalTotal.value != total) || WrongTotal(s, total) then Err(s.dst)
    else if stripe.done then Ok(s.(finalTotal := Some(total)))
    else
      var s' := WithStripe(s, i, stripe.(done := true, totalPackets := n));
      Ok(s'.(finalTotal := Some(total), completed := s.completed + 1))
  }

  function Bump(s: State, i: nat): State
    requires i < |s.stripes|
  {
    WithStripe(s, i, s.stripes[i].(expected := s.stripes[i].expected + 1))
  }

  /** Accepts the packet that stripe `i` expects next. */
  function AcceptSequential(s: State, i: nat, p: Packet): (r: Result)
    requires i < |s.stripes|
    ensures r.Ok? ==> i < |r.state.stripes| && Kept(r.state, i) == Kept(s, i)
  {
    var r := match p
             case Data(_, offset, payload) => AcceptData(s, offset, payload)
             case Done(n, total) => AcceptDone(s, i, n, total);
    if r.Err? then r else Ok(Bump(r.state, i))
  }

  /** Records that a stripe has seen sequence number `n`. */
  function Note(stripe: Stripe, n: nat): Stripe {
    stripe.(seen := stripe.seen + {n},
            maxSeqPlusOne := if n + 1 > stripe.maxSeqPlusOne then n + 1 else stripe.maxSeqPlusOne)
  }

  function Size(p: Packet): nat {
    if p.Data? then |p.payload| else 0
  }

  /** Keeps a packet that is early on stripe `i`, in memory or in the spool. */
  function StoreFuture(s: State, i: nat, p: Packet): Result
    requires i < |s.stripes|
  {
    var stripe := Note(s.stripes[i], p.seqNo);
    if p.Done? || |p.payload| == 0 || s.futureBytes + |p.payload| <= FutureBufferLimit then
      Ok(WithStripe(s, i, stripe.(buffered := stripe.buffered[p.seqNo := p])).(futureBytes := s.futureBytes + Size(p)))
    else if p.offset > MaxInt then Err(s.dst)
    else
      Ok(WithStripe(SpoolPayload(s, p.offset, p.payload), i,
                    stripe.(spooled := stripe.spooled[p.seqNo := Spooled(p.offset, |p.payload|)])))
  }

  /** How many packets stripe `i` keeps for later. */
  function Kept(s: State, i: nat): nat
    requires i < |s.stripes|
  {
    |s.stripes[i].buffered| + |s.stripes[i].spooled|
  }

  datatype Popped = Got(state: State, packet: Packet) | Nothing | Lost

  /** Takes the packet that stripe `i` expects out of its tier. */
  function PopFuture(s: State, i: nat): (r: Popped)
    requires i < |s.stripes|
    ensures r.Got? ==> i < |r.state.stripes| && Kept(r.state, i) < Kept(s, i)
  {
    var stripe := s.stripes[i];
    var n := stripe.expected;
    if n in stripe.buffered then
      var p := stripe.buffered[n];
      var s' := WithStripe(s, i, stripe.(buffered := Maps.Without(stripe.buffered, n)));
      Got(s'.(futureBytes := Less(s.futureBytes, Size(p))), p)
    else if n !in stripe.spooled then Nothing
    else if s.spool.None? then Lost
    else
      var entry := stripe.spooled[n];
      var payload := SpoolRead(s.spool.value, entry.offset, entry.length);
      if payload.None? then Lost
      else Got(MaybeCloseSpool(WithStripe(s, i, stripe.(spooled := Maps.Without(stripe.spooled, n)))),
               Data(n, entry.offset, payload.value))
  }

  /** Accepts kept packets of stripe `i` for as long as the expected one is there. */
  function DrainFuture(s: State, i: nat): Result
    requires i < |s.stripes|
    decreases Kept(s, i)
  {
    match PopFuture(s, i)
    case Nothing => Ok(s)
    case Lost => Err(s.dst)
    case Got(s1, p) =>
      var r := AcceptSequential(s1, i, p);
      if r.Err? then r else DrainFuture(r.state, i)
  }

  predicate IsComplete(s: State) {
    (s.expectedBytes > 0 && s.nextOffset == s.expectedBytes) || s.finalTotal == Some(s.nextOffset)
  }

  /** What is left to do once the stripe is drained. */
  function Finish(drained: Result): Result {
    if drained.Ok? && IsComplete(drained.state) then FlushWriteBuffer(drained.state) else drained
  }

  /** A DONE announces the length of its stripe as soon as it is seen. */
  function Announced(stripe: Stripe, p: Packet): Stripe {
    if p.Data? then stripe
    else stripe.(terminalSeen := true,
                 totalPackets := if p.seqNo > stripe.totalPackets then p.seqNo else stripe.totalPackets)
  }

  /** The coordinator's reaction to one packet of stripe `i`. */
  function Handle(s: State, i: nat, p: Packet): Result
    requires i < |s.stripes|
  {
    var stripe := Announced(s.stripes[i], p);
    var s1 := WithStripe(s, i, stripe);
    if p.Data? && |p.payload| == 0 then Ok(s)
    else if p.seqNo < stripe.expected || p.seqNo in stripe.seen then Ok(s1)
    else if p.seqNo > stripe.expected then StoreFuture(s1, i, p)
    else
      var accepted := AcceptSequential(WithStripe(s, i, Note(stripe, p.seqNo)), i, p);
      if accepted.Err? then accepted else Finish(DrainFuture(accepted.state, i))
  }
}

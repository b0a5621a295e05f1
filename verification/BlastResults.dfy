/** What the striped blast receiver guarantees for every order, repetition and loss of the
    packets that a sender cut from one source. */
module BlastResults {
  import Maps
  import R = Reassembly
  import T = StripedTransport
  import P = StripePlan
  import opened Bits
  import opened Lanes
  import opened Options
  import opened BlastCoordinator
  import opened BlastTiers
  import opened BlastStripes
  import opened BlastSafety

  // ----- Runs -----

  /** The arrival of packet `k` of a stripe. */
  datatype Arrival = Arrival(stripe: nat, k: nat)

  ghost predicate Arrives(plan: P.Plan, s: State, a: Arrival) {
    a.stripe < |s.stripes| && a.stripe < |plan.sent| && a.k < |plan.sent[a.stripe]|
  }

  /** A run: packets of the plan arrive in any order, any number of times, or never. */
  ghost predicate IsRun(source: seq<Byte>, plan: P.Plan, run: seq<State>, arrivals: seq<Arrival>) {
    && P.PlanOk(source, |source|, plan) && 0 < |plan.sent|
    && |run| == |arrivals| + 1
    && run[0] == Fresh(|plan.sent|, run[0].capacity, run[0].expectedBytes)
    && (forall n :: 0 <= n < |arrivals| ==>
          && Arrives(plan, run[n], arrivals[n])
          && Handle(run[n], arrivals[n].stripe, plan.sent[arrivals[n].stripe][arrivals[n].k]) == Ok(run[n + 1]))
  }

  function FreshReceiver(stripes: nat): T.Receiver {
    T.Receiver(seq(stripes, _ => T.RecvStripe(0, map[], false)), R.Buffer(0, map[], []), None, 0)
  }

  lemma {:induction false} NothingCounted(stripes: seq<Stripe>)
    requires forall i :: 0 <= i < |stripes| ==> stripes[i].buffered == map[]
    ensures FutureTotal(stripes) == 0
  {
    if |stripes| > 0 {
      NothingCounted(stripes[..|stripes| - 1]);
      assert PacketSizes(stripes[|stripes| - 1].buffered) == map[];
    }
  }

  lemma FreshAccepting(source: seq<Byte>, plan: P.Plan)
    requires P.PlanOk(source, |source|, plan)
    ensures P.Accepting(source, |source|, plan, FreshReceiver(|plan.sent|))
  {
    var r := FreshReceiver(|plan.sent|);
    assert P.Taken(plan.homes, r.stripes) == {};
    assert P.DoneStripes(r.stripes) == {};
    P.NothingWaits(plan.chunks);
    assert 0 !in P.Taken(plan.homes, r.stripes)
           && R.Holds(plan.chunks, source, |source|, P.Taken(plan.homes, r.stripes), 0, r.buffer);
  }

  lemma FreshOutput(source: seq<Byte>, s: State)
    requires s.nextOffset == 0 && s.dst == [] && s.writeBuf == [] && s.pending == map[] && s.pendingBytes == 0
    requires s.spool == None && s.spoolLens == map[]
    requires forall i :: 0 <= i < |s.stripes| ==> s.stripes[i].spooled == map[]
    ensures OutputOk(source, s, R.Buffer(0, map[], []))
  {
    hide Backed;
    assert Sizes(s.pending) == map[];
  }

  lemma FreshStands(source: seq<Byte>, stripes: nat, capacity: nat, expectedBytes: int)
    ensures Stands(source, Fresh(stripes, capacity, expectedBytes), FreshReceiver(stripes))
  {
    var s := Fresh(stripes, capacity, expectedBytes);
    hide OutputOk, FutureTotal;
    NothingCounted(s.stripes);
    FreshOutput(source, s);
  }

  lemma FreshNoted(plan: P.Plan, s: State, r: T.Receiver)
    requires |s.stripes| == |r.stripes| == |plan.lanes|
    requires forall j :: 0 <= j < |s.stripes| ==> s.stripes[j] == FreshStripe() && r.stripes[j].buffered == map[]
    ensures AllNoted(plan, s.stripes, r.stripes)
  {
    forall j | 0 <= j < |s.stripes|
      ensures NotesOk(s.stripes[j], r.stripes[j].buffered, plan.lanes[j], s.stripes[j].expected)
    {
    }
  }

  lemma IdleFrom(source: seq<Byte>, plan: P.Plan, s: State, r: T.Receiver)
    requires Receiving(source, plan, s, r) && AllNoted(plan, s.stripes, r.stripes)
    requires 0 < |s.stripes| == |r.stripes| == |plan.sent| && s.writeBuf == []
    requires forall j :: 0 <= j < |r.stripes| ==> r.stripes[j].expected !in r.stripes[j].buffered
    ensures Idle(source, plan, s, r)
  {
    hide Receiving, AllNoted;
  }

  lemma FreshIdle(source: seq<Byte>, plan: P.Plan, capacity: nat, expectedBytes: int)
    requires P.PlanOk(source, |source|, plan) && 0 < |plan.sent|
    ensures Idle(source, plan, Fresh(|plan.sent|, capacity, expectedBytes), FreshReceiver(|plan.sent|))
  {
    var s, r := Fresh(|plan.sent|, capacity, expectedBytes), FreshReceiver(|plan.sent|);
    assert |plan.lanes| == |plan.sent|;
    hide P.PlanOk, P.Accepting, Stands, AllNoted, Idle, Receiving;
    FreshAccepting(source, plan);
    FreshStands(source, |plan.sent|, capacity, expectedBytes);
    FreshNoted(plan, s, r);
    Fold(source, plan, s, r);
    IdleFrom(source, plan, s, r);
  }

  lemma StepOfRun(source: seq<Byte>, plan: P.Plan, run: seq<State>, arrivals: seq<Arrival>, n: nat)
    requires IsRun(source, plan, run, arrivals) && n < |arrivals|
    ensures |run| == |arrivals| + 1 && Arrives(plan, run[n], arrivals[n])
    ensures Handle(run[n], arrivals[n].stripe, plan.sent[arrivals[n].stripe][arrivals[n].k]) == Ok(run[n + 1])
  {
    hide P.PlanOk, Handle, Fresh;
  }

  /** Every state of a run stands for a single-tier receiver that is exact. */
  lemma {:induction false} RunKeeps(source: seq<Byte>, plan: P.Plan, run: seq<State>, arrivals: seq<Arrival>, n: nat)
    returns (r: T.Receiver)
    requires IsRun(source, plan, run, arrivals) && n <= |arrivals| && |run| == |arrivals| + 1
    ensures Idle(source, plan, run[n], r) && SameLimits(run[0], run[n])
    ensures forall m :: 0 <= m < n ==> Has(r, arrivals[m].stripe, arrivals[m].k)
  {
    if n == 0 {
      hide P.PlanOk, Idle, Handle, Fresh;
      FreshIdle(source, plan, run[0].capacity, run[0].expectedBytes);
      r := FreshReceiver(|plan.sent|);
    } else {
      hide IsRun, Idle, Handle, P.Onward, Has;
      var r0 := RunKeeps(source, plan, run, arrivals, n - 1);
      var a := arrivals[n - 1];
      StepOfRun(source, plan, run, arrivals, n - 1);
      r := HandleKeeps(source, plan, run[n - 1], r0, a.stripe, a.k);
      forall m | 0 <= m < n
        ensures Has(r, arrivals[m].stripe, arrivals[m].k)
      {
        if m < n - 1 {
          HasOnward(r0, r, arrivals[m].stripe, arrivals[m].k);
        }
      }
    }
  }

  // ----- Output -----

  lemma OutputOfIdle(source: seq<Byte>, plan: P.Plan, s: State, r: T.Receiver)
    requires Idle(source, plan, s, r)
    ensures s.nextOffset == r.buffer.nextOffset <= |source| && s.dst + s.writeBuf == source[..s.nextOffset]
    ensures IsComplete(s) ==> s.writeBuf == []
    ensures |s.writeBuf| < WriteBufferLimit
    ensures s.finalTotal.Some? ==> s.finalTotal.value == |source|
  {
    hide P.PlanOk, P.Accepting, Stands, AllNoted;
    P.OutputIsPiece(source, |source|, plan, r);
    DstInSource(source, s, r);
    TotalOfIdle(source, plan, s, r);
  }

  lemma TotalOfIdle(source: seq<Byte>, plan: P.Plan, s: State, r: T.Receiver)
    requires P.Accepting(source, |source|, plan, r) && Stands(source, s, r)
    ensures s.finalTotal.Some? ==> s.finalTotal.value == |source|
    ensures |s.writeBuf| < WriteBufferLimit
  {
    hide P.BufferedOk, P.StripeOk, StripeRep, FutureCounted, AllBacked, PendingRep, PendingCounted;
  }

  /** What reached the destination and what is still in the write buffer are together
      exactly the source up to the next offset. */
  lemma OutputIsPrefix(source: seq<Byte>, plan: P.Plan, run: seq<State>, arrivals: seq<Arrival>, n: nat)
    requires IsRun(source, plan, run, arrivals) && n < |run|
    ensures run[n].nextOffset <= |source| && run[n].dst + run[n].writeBuf == source[..run[n].nextOffset]
    ensures |run[n].writeBuf| < WriteBufferLimit
  {
    var r := RunKeeps(source, plan, run, arrivals, n);
    hide IsRun, Idle;
    OutputOfIdle(source, plan, run[n], r);
  }

  /** A receive that reports completion has handed over everything: the whole source, or
      the expected bytes if the caller expected fewer than the source has. */
  lemma CompletionMeansWritten(source: seq<Byte>, plan: P.Plan, run: seq<State>, arrivals: seq<Arrival>, n: nat)
    requires IsRun(source, plan, run, arrivals) && n < |run| && IsComplete(run[n])
    ensures run[n].writeBuf == []
    ensures run[n].dst == source
            || (0 < run[n].expectedBytes < |source| && run[n].dst == source[..run[n].expectedBytes])
  {
    var r := RunKeeps(source, plan, run, arrivals, n);
    hide IsRun, Idle;
    OutputOfIdle(source, plan, run[n], r);
    assert run[n].dst + run[n].writeBuf == run[n].dst;
  }

  /** A packet of the source is refused only if the destination cannot take the source, the
      source does not fit a file, or the caller expected another size; what was written by
      then is a prefix of the source. */
  lemma FailsOnlyForCause(source: seq<Byte>, plan: P.Plan, run: seq<State>, arrivals: seq<Arrival>, n: nat, a: Arrival)
    requires IsRun(source, plan, run, arrivals) && n < |run| && Arrives(plan, run[n], a)
    ensures var result := Handle(run[n], a.stripe, plan.sent[a.stripe][a.k]);
            result.Err? ==> result.dst <= source && MayFail(source, run[0])
  {
    var r := RunKeeps(source, plan, run, arrivals, n);
    hide IsRun, Idle, Handle, P.Onward, Has;
    var r' := HandleKeeps(source, plan, run[n], r, a.stripe, a.k);
  }

  // ----- What is where -----

  /** The places a payload can be in. */
  ghost predicate IsWritten(s: State, p: Packet)
    requires p.Data?
  {
    p.offset + |p.payload| <= s.nextOffset
  }

  ghost predicate InPending(s: State, p: Packet)
    requires p.Data?
  {
    p.offset in s.pending && s.pending[p.offset] == p.payload
  }

  ghost predicate InPendingSpool(s: State, p: Packet)
    requires p.Data?
  {
    p.offset in s.spoolLens && s.spoolLens[p.offset] == |p.payload|
    && SpoolRead(SpoolFile(s), p.offset, |p.payload|) == Some(p.payload)
  }

  ghost predicate InFuture(stripe: Stripe, p: Packet) {
    p.seqNo in stripe.buffered && stripe.buffered[p.seqNo] == p
  }

  ghost predicate InFutureSpool(s: State, stripe: Stripe, p: Packet)
    requires p.Data?
  {
    p.seqNo in stripe.spooled && stripe.spooled[p.seqNo] == Spooled(p.offset, |p.payload|)
    && SpoolRead(SpoolFile(s), p.offset, |p.payload|) == Some(p.payload)
  }

  /** How many places hold packet `p` of a stripe. */
  ghost function Places(s: State, stripe: Stripe, p: Packet): nat
    requires p.Data?
  {
    (if IsWritten(s, p) then 1 else 0) + (if InPending(s, p) then 1 else 0) + (if InPendingSpool(s, p) then 1 else 0)
    + (if InFuture(stripe, p) then 1 else 0) + (if InFutureSpool(s, stripe, p) then 1 else 0)
  }

  /** Chunk `g` in the single-tier buffer: accepted means written or waiting, never both. */
  lemma ChunkPlace(chunks: seq<R.Chunk>, source: seq<Byte>, end: nat, taken: set<nat>, w: nat, b: R.Buffer, g: nat)
    requires R.Cuts(chunks, source, end) && R.Holds(chunks, source, end, taken, w, b) && w !in taken && g < |chunks|
    ensures g in taken <==> chunks[g].offset + |chunks[g].payload| <= b.nextOffset || chunks[g].offset in b.pending
    ensures !(chunks[g].offset + |chunks[g].payload| <= b.nextOffset && chunks[g].offset in b.pending)
    ensures chunks[g].offset in b.pending ==> b.pending[chunks[g].offset] == chunks[g].payload
  {
    hide R.Cuts, R.Written;
    ChunkWritten(chunks, source, end, w, b.nextOffset, b.out, g);
    if chunks[g].offset in b.pending {
      var h :| h in taken && w <= h && chunks[h].offset == chunks[g].offset;
      R.OffsetsDistinct(chunks, source, end, g, h);
    }
  }

  lemma ChunkWritten(chunks: seq<R.Chunk>, source: seq<Byte>, end: nat, w: nat, nextOffset: nat, out: seq<Byte>, g: nat)
    requires R.Cuts(chunks, source, end) && R.Written(chunks, source, end, w, nextOffset, out) && g < |chunks|
    ensures chunks[g].offset + |chunks[g].payload| <= nextOffset <==> g < w
  {
    assert R.Piece(source, chunks[g], R.Off(chunks, end, g + 1));
    hide R.Cuts;
    if g + 1 < w {
      R.OffsetsIncrease(chunks, source, end, g + 1, w);
    } else if w < g + 1 {
      R.OffsetsIncrease(chunks, source, end, w, g + 1);
    }
  }

  /** The same, for packet `k` of stripe `i`. */
  lemma PacketPlace(source: seq<Byte>, plan: P.Plan, r: T.Receiver, i: nat, k: nat)
    requires P.PlanOk(source, |source|, plan) && P.Accepting(source, |source|, plan, r)
    requires i < |plan.sent| && k < |plan.sent[i]| && plan.sent[i][k].Data?
    ensures var p := plan.sent[i][k];
            && i < |r.stripes|
            && (k < r.stripes[i].expected
                <==> p.offset + |p.payload| <= r.buffer.nextOffset || p.offset in r.buffer.pending)
            && !(p.offset + |p.payload| <= r.buffer.nextOffset && p.offset in r.buffer.pending)
            && (p.offset in r.buffer.pending ==> r.buffer.pending[p.offset] == p.payload)
  {
    hide R.Cuts, R.Holds, P.StripeOk, P.TotalsOk;
    P.PacketAt(source, |source|, plan, i, k);
    var g, taken := plan.lanes[i][k], P.Taken(plan.homes, r.stripes);
    assert plan.homes[g] == P.Home(i, k);
    var w :| w !in taken && R.Holds(plan.chunks, source, |source|, taken, w, r.buffer);
    ChunkPlace(plan.chunks, source, |source|, taken, w, r.buffer, g);
  }

  lemma PendingPlace(source: seq<Byte>, s: State, b: R.Buffer, p: Packet)
    requires OutputOk(source, s, b) && p.Data? && IsSlice(source, p.offset, p.payload)
    requires p.offset in b.pending ==> b.pending[p.offset] == p.payload
    ensures p.offset in b.pending <==> InPending(s, p) || InPendingSpool(s, p)
    ensures !(InPending(s, p) && InPendingSpool(s, p))
  {
    hide PendingCounted, AllBacked;
    if p.offset in s.spoolLens {
      SpoolInUse(source, s, p.offset);
    }
  }

  lemma FuturePlace(source: seq<Byte>, s: State, i: nat, all: T.RecvStripe, p: Packet)
    requires AllBacked(source, s) && i < |s.stripes| && StripeRep(source, s.stripes[i], all)
    requires p.Data? && IsSlice(source, p.offset, p.payload) && (p.seqNo in all.buffered ==> all.buffered[p.seqNo] == p)
    ensures p.seqNo in all.buffered <==> InFuture(s.stripes[i], p) || InFutureSpool(s, s.stripes[i], p)
    ensures !(InFuture(s.stripes[i], p) && InFutureSpool(s, s.stripes[i], p))
  {
    hide AllBacked;
    if p.seqNo in s.stripes[i].spooled {
      FutureInUse(source, s, i, p.seqNo);
      assert SpooledIs(source, p.seqNo, s.stripes[i].spooled[p.seqNo], p);
    }
  }

  // ----- What a stripe has seen -----

  /** Every stripe has seen the same sequence numbers in both states. */
  ghost predicate SameSeen(s: State, s': State) {
    |s.stripes| == |s'.stripes| && forall j :: 0 <= j < |s.stripes| ==> s'.stripes[j].seen == s.stripes[j].seen
  }

  lemma AcceptSeesNothing(s: State, i: nat, p: Packet)
    requires i < |s.stripes| && AcceptSequential(s, i, p).Ok?
    ensures SameSeen(s, AcceptSequential(s, i, p).state)
  {
    hide FlushPending, WritePayload;
  }

  lemma CloseSeesNothing(s: State)
    ensures MaybeCloseSpool(s).stripes == s.stripes
  {
  }

  lemma PopSeesNothing(s: State, i: nat)
    requires i < |s.stripes| && PopFuture(s, i).Got?
    ensures SameSeen(s, PopFuture(s, i).state)
  {
    var stripe := s.stripes[i];
    if stripe.expected !in stripe.buffered {
      var popped := WithStripe(s, i, stripe.(spooled := Maps.Without(stripe.spooled, stripe.expected)));
      assert SameSeen(s, popped);
      CloseSeesNothing(popped);
    }
    hide NothingSpooled, MaybeCloseSpool, SpoolRead, Maps.Without, Less, Size;
  }

  lemma {:induction false} DrainSeesNothing(s: State, i: nat)
    requires i < |s.stripes| && DrainFuture(s, i).Ok?
    ensures SameSeen(s, DrainFuture(s, i).state)
    decreases Kept(s, i)
  {
    hide AcceptSequential, PopFuture;
    match PopFuture(s, i) {
      case Nothing =>
      case Lost =>
      case Got(s1, p) =>
        PopSeesNothing(s, i);
        AcceptSeesNothing(s1, i, p);
        DrainSeesNothing(AcceptSequential(s1, i, p).state, i);
    }
  }

  /** A packet adds its own sequence number to what its stripe has seen, and nothing else. */
  lemma HandleSees(s: State, i: nat, p: Packet, j: nat)
    requires i < |s.stripes| && j < |s.stripes| && Handle(s, i, p).Ok?
    requires (p.Data? ==> |p.payload| > 0) && (p.seqNo < s.stripes[i].expected ==> p.seqNo in s.stripes[i].seen)
    ensures var s' := Handle(s, i, p).state;
            && |s'.stripes| == |s.stripes|
            && s'.stripes[j].seen == if j == i then s.stripes[i].seen + {p.seqNo} else s.stripes[j].seen
  {
    hide AcceptSequential, DrainFuture;
    var stripe := Announced(s.stripes[i], p);
    var noted := WithStripe(s, i, Note(stripe, p.seqNo));
    if p.seqNo == stripe.expected && p.seqNo !in stripe.seen {
      AcceptSeesNothing(noted, i, p);
      DrainSeesNothing(AcceptSequential(noted, i, p).state, i);
    }
  }

  lemma StartOfRun(source: seq<Byte>, plan: P.Plan, run: seq<State>, arrivals: seq<Arrival>, i: nat)
    requires IsRun(source, plan, run, arrivals) && i < |plan.sent|
    ensures |run| == |arrivals| + 1 && i < |run[0].stripes| && run[0].stripes[i].seen == {}
  {
    hide P.PlanOk, Handle;
  }

  /** What a stripe has seen after `n` arrivals is exactly what arrived on it. */
  lemma {:induction false} SeenIsArrived(source: seq<Byte>, plan: P.Plan, run: seq<State>, arrivals: seq<Arrival>,
                                         n: nat, i: nat, k: nat)
    requires IsRun(source, plan, run, arrivals) && n <= |arrivals| && |run| == |arrivals| + 1 && i < |plan.sent|
    ensures i < |run[n].stripes| && (k in run[n].stripes[i].seen <==> Arrival(i, k) in arrivals[..n])
  {
    hide IsRun, Handle, Idle, FreshStripe, Has, SameLimits;
    if n == 0 {
      StartOfRun(source, plan, run, arrivals, i);
      assert run[0].stripes[i].seen == {} && arrivals[..0] == [];
    } else {
      SeenIsArrived(source, plan, run, arrivals, n - 1, i, k);
      StepOfRun(source, plan, run, arrivals, n - 1);
      var r := RunKeeps(source, plan, run, arrivals, n - 1);
      StepSees(source, plan, run[n - 1], r, arrivals[n - 1], i);
      assert arrivals[..n] == arrivals[..n - 1] + [arrivals[n - 1]];
    }
  }

  lemma StepSees(source: seq<Byte>, plan: P.Plan, s: State, r: T.Receiver, a: Arrival, i: nat)
    requires Idle(source, plan, s, r) && Arrives(plan, s, a) && i < |s.stripes|
    requires Handle(s, a.stripe, plan.sent[a.stripe][a.k]).Ok?
    ensures var s' := Handle(s, a.stripe, plan.sent[a.stripe][a.k]).state;
            && i < |s'.stripes|
            && s'.stripes[i].seen == if i == a.stripe then s.stripes[i].seen + {a.k} else s.stripes[i].seen
  {
    IdleFacts(source, plan, s, r, a.stripe);
    hide Idle, Busy, Handle, P.PlanOk, IsSlice;
    PlannedPacket(source, plan, a.stripe, a.k);
    SeenIs(s.stripes[a.stripe], r.stripes[a.stripe].buffered, plan.lanes[a.stripe], a.k);
    HandleSees(s, a.stripe, plan.sent[a.stripe][a.k], i);
  }

  /** Conservation: a payload that has arrived is in exactly one place, written out or in one
      of the four stores, with its bytes intact; one that has not arrived is in none. */
  lemma PayloadsConserved(source: seq<Byte>, plan: P.Plan, run: seq<State>, arrivals: seq<Arrival>,
                          n: nat, i: nat, k: nat)
    requires IsRun(source, plan, run, arrivals) && n <= |arrivals|
    requires i < |plan.sent| && k < |plan.sent[i]| && plan.sent[i][k].Data?
    ensures i < |run[n].stripes|
    ensures Places(run[n], run[n].stripes[i], plan.sent[i][k]) == if Arrival(i, k) in arrivals[..n] then 1 else 0
  {
    var r := RunKeeps(source, plan, run, arrivals, n);
    SeenIsArrived(source, plan, run, arrivals, n, i, k);
    hide IsRun;
    PlacesOfIdle(source, plan, run[n], r, i, k);
  }

  lemma PlacesOfIdle(source: seq<Byte>, plan: P.Plan, s: State, r: T.Receiver, i: nat, k: nat)
    requires Idle(source, plan, s, r) && i < |s.stripes|
    requires i < |plan.sent| && k < |plan.sent[i]| && plan.sent[i][k].Data?
    ensures Places(s, s.stripes[i], plan.sent[i][k]) == if k in s.stripes[i].seen then 1 else 0
  {
    var p := plan.sent[i][k];
    IdleFacts(source, plan, s, r, i);
    PlannedPacket(source, plan, i, k);
    hide NotesOk, P.PlanOk, P.Accepting, StripeRep, FutureCounted, OutputOk, IsSlice;
    PacketPlace(source, plan, r, i, k);
    assert OutputOk(source, s, r.buffer) && StripeRep(source, s.stripes[i], r.stripes[i]);
    KeptIsPlanned(source, plan, r, i, k);
    SpoolOfOutput(source, s, r.buffer);
    PendingPlace(source, s, r.buffer, p);
    FuturePlace(source, s, i, r.stripes[i], p);
    SeenIs(s.stripes[i], r.stripes[i].buffered, plan.lanes[i], k);
    hide Idle, Busy, IsWritten, InPending, InPendingSpool, InFuture, InFutureSpool;
    assert IsWritten(s, p) <==> p.offset + |p.payload| <= r.buffer.nextOffset by { WrittenIs(source, s, r.buffer, p); }
  }

  lemma WrittenIs(source: seq<Byte>, s: State, b: R.Buffer, p: Packet)
    requires OutputOk(source, s, b) && p.Data?
    ensures IsWritten(s, p) <==> p.offset + |p.payload| <= b.nextOffset
  {
  }

  lemma SpoolOfOutput(source: seq<Byte>, s: State, b: R.Buffer)
    requires OutputOk(source, s, b)
    ensures AllBacked(source, s) && PendingCounted(s)
  {
  }

  lemma SeenIs(stripe: Stripe, kept: map<nat, Packet>, lane: seq<nat>, k: nat)
    requires NotesOk(stripe, kept, lane, stripe.expected)
    ensures k in stripe.seen <==> k < stripe.expected || k in kept
  {
  }

  lemma KeptIsPlanned(source: seq<Byte>, plan: P.Plan, r: T.Receiver, i: nat, k: nat)
    requires P.Accepting(source, |source|, plan, r) && i < |r.stripes| && k < |plan.sent[i]|
    ensures k in r.stripes[i].buffered ==> r.stripes[i].buffered[k] == plan.sent[i][k] && r.stripes[i].expected <= k
  {
    hide P.BufferedOk, P.TotalsOk;
    assert P.StripeOk(r.stripes[i], plan.lanes[i], plan.sent[i], r.stripes[i].expected);
  }

  /** The byte counters are the payload bytes in memory, each within its limit, and the
      spool file exists exactly while something is in it. */
  lemma CountersExact(source: seq<Byte>, plan: P.Plan, run: seq<State>, arrivals: seq<Arrival>, n: nat)
    requires IsRun(source, plan, run, arrivals) && n < |run|
    ensures run[n].pendingBytes == Maps.Sum(Sizes(run[n].pending)) <= PendingOutputLimit
    ensures run[n].futureBytes == FutureTotal(run[n].stripes) <= FutureBufferLimit
    ensures run[n].spool.Some? <==> !NothingSpooled(run[n])
  {
    var r := RunKeeps(source, plan, run, arrivals, n);
    hide IsRun, P.PlanOk, P.Accepting, AllNoted, StripeRep, Maps.Sum, FutureTotal, NothingSpooled, LensBacked,
         StripeBacked, PendingRep;
    assert Stands(source, run[n], r);
    SpoolOfOutput(source, run[n], r.buffer);
  }

  // ----- Progress -----

  lemma AllAccepted(source: seq<Byte>, plan: P.Plan, s: State, r: T.Receiver, i: nat)
    requires Idle(source, plan, s, r) && i < |s.stripes| && i < |plan.sent| && i < |r.stripes|
    requires forall k :: 0 <= k < |plan.sent[i]| ==> Has(r, i, k)
    ensures |plan.sent[i]| <= r.stripes[i].expected
  {
    hide Busy;
    assert r.stripes[i].expected < |plan.sent[i]| ==> Has(r, i, r.stripes[i].expected);
  }

  lemma DoneOfIdle(source: seq<Byte>, plan: P.Plan, s: State, r: T.Receiver)
    requires Idle(source, plan, s, r) && 0 < |r.stripes| && r.stripes[0].expected == |plan.lanes[0]| + 1
    ensures s.finalTotal == Some(|source|)
  {
    IdleFacts(source, plan, s, r, 0);
    hide P.PlanOk, P.BufferedOk, BufferOk, StripeRep, FutureCounted, OutputOk, AllNoted;
    assert P.StripeOk(r.stripes[0], plan.lanes[0], plan.sent[0], r.stripes[0].expected);
    assert 0 in P.DoneStripes(r.stripes);
  }

  /** Once every packet has arrived at least once, in whatever order, the receive is
      complete and the destination holds the source. */
  lemma CompleteWhenAllArrived(source: seq<Byte>, plan: P.Plan, run: seq<State>, arrivals: seq<Arrival>)
    requires IsRun(source, plan, run, arrivals)
    requires forall i :: 0 <= i < |plan.sent| ==> |plan.sent[i]| == |plan.lanes[i]| + 1
    requires forall i, k :: 0 <= i < |plan.sent| && 0 <= k < |plan.sent[i]| ==> Arrival(i, k) in arrivals
    ensures IsComplete(run[|run| - 1]) && run[|run| - 1].dst == source
  {
    var s := run[|run| - 1];
    var r := RunKeeps(source, plan, run, arrivals, |run| - 1);
    assert |run| == |arrivals| + 1 && 0 < |plan.sent|;
    hide IsRun;
    assert |s.stripes| == |r.stripes| == |plan.sent| == |plan.lanes|;
    forall i | 0 <= i < |r.stripes|
      ensures |plan.lanes[i]| + 1 <= r.stripes[i].expected
    {
      forall k | 0 <= k < |plan.sent[i]|
        ensures Has(r, i, k)
      {
        var m :| 0 <= m < |arrivals| && arrivals[m] == Arrival(i, k);
      }
      hide Idle;
      AllAccepted(source, plan, s, r, i);
    }
    AcceptedMeansComplete(source, plan, s, r);
  }

  lemma AcceptedMeansComplete(source: seq<Byte>, plan: P.Plan, s: State, r: T.Receiver)
    requires Idle(source, plan, s, r) && 0 < |r.stripes| == |plan.lanes| == |plan.sent|
    requires forall i :: 0 <= i < |r.stripes| ==> |plan.sent[i]| == |plan.lanes[i]| + 1 <= r.stripes[i].expected
    ensures IsComplete(s) && s.dst == source
  {
    OutputOfIdle(source, plan, s, r);
    assert P.PlanOk(source, |source|, plan) && P.Accepting(source, |source|, plan, r);
    assert P.StripeOk(r.stripes[0], plan.lanes[0], plan.sent[0], r.stripes[0].expected);
    hide P.PlanOk, P.Accepting, Idle, BufferOk;
    P.AllTaken(source, |source|, plan, r);
    DoneOfIdle(source, plan, s, r);
    assert s.dst + s.writeBuf == s.dst;
  }
}

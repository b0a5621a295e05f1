/** Every packet of a striped source, in whatever order and however often it arrives,
    keeps the blast receiver exact. */
module BlastSafety {
  import Maps
  import R = Reassembly
  import T = StripedTransport
  import P = StripePlan
  import opened Bits
  import opened Lanes
  import opened BlastCoordinator
  import opened BlastTiers
  import opened BlastStripes

  // ----- Accepting one packet -----

  /** What accepting packet `p` does to its stripe. */
  function Advanced(stripe: Stripe, p: Packet): Stripe {
    stripe.(expected := stripe.expected + 1,
            done := stripe.done || p.Done?,
            totalPackets := if p.Done? && !stripe.done then p.seqNo else stripe.totalPackets)
  }

  /** Only stripe `i` moved, by packet `p`; the limits are the same. */
  ghost predicate Moved(s: State, s': State, i: nat, p: Packet) {
    && i < |s.stripes|
    && s'.stripes == s.stripes[i := Advanced(s.stripes[i], p)]
    && s'.capacity == s.capacity && s'.expectedBytes == s.expectedBytes
  }

  /** Why a receive may fail: the destination takes too little, the source is longer than
      a file can be, or it is not as long as the caller said. */
  ghost predicate MayFail(source: seq<Byte>, s: State) {
    s.capacity < |source| || MaxInt < |source| || WrongTotal(s, |source|)
  }

  lemma AcceptsDataPacket(source: seq<Byte>, s: State, r: T.Receiver, i: nat, p: Packet)
    requires Stands(source, s, r) && i < |s.stripes| && p.Data? && IsSlice(source, p.offset, p.payload)
    requires T.AcceptPacket(r, i, p).receiver.buffer.out <= source
    ensures var result, r' := AcceptSequential(s, i, p), T.AcceptPacket(r, i, p).receiver;
            if result.Ok? then Stands(source, result.state, r') && Moved(s, result.state, i, p)
            else result.dst <= r'.buffer.out && MayFail(source, s)
  {
    hide StripeRep, FutureCounted, OutputOk, AcceptData, R.Accept, IsSlice;
    AcceptDataKeeps(source, s, r.buffer, p.offset, p.payload);
    var result, r' := AcceptSequential(s, i, p), T.AcceptPacket(r, i, p).receiver;
    if result.Ok? {
      var s1 := AcceptData(s, p.offset, p.payload).state;
      SameExpected(source, s.stripes[i], r.stripes[i]);
      RepSteps(source, s.stripes[i], r.stripes[i], result.state.stripes[i], r'.stripes[i]);
      OutputSame(source, s1, r'.buffer, result.state);
      SameFuture(s, result.state, i);
      StandsWith(source, s, r, i, result.state, r');
    }
  }

  lemma AcceptsDonePacket(source: seq<Byte>, s: State, r: T.Receiver, i: nat, p: Packet)
    requires Stands(source, s, r) && i < |s.stripes| && p == Done(p.seqNo, |source|)
    requires T.AcceptPacket(r, i, p).Ok?
    ensures var result, r' := AcceptSequential(s, i, p), T.AcceptPacket(r, i, p).receiver;
            if result.Ok? then Stands(source, result.state, r') && Moved(s, result.state, i, p)
            else result.dst <= r'.buffer.out && MayFail(source, s)
  {
    hide StripeRep, FutureCounted, OutputOk;
    var result, r' := AcceptSequential(s, i, p), T.AcceptPacket(r, i, p).receiver;
    SameOffset(source, s, r.buffer);
    SameExpected(source, s.stripes[i], r.stripes[i]);
    if result.Ok? {
      RepSteps(source, s.stripes[i], r.stripes[i], result.state.stripes[i], r'.stripes[i]);
      OutputSame(source, s, r.buffer, result.state);
      SameFuture(s, result.state, i);
      StandsWith(source, s, r, i, result.state, r');
    }
  }

  // ----- Packets of the plan -----

  /** A plan of the whole source, and a receiver somewhere in the middle of it. */
  ghost predicate Receiving(source: seq<Byte>, plan: P.Plan, s: State, r: T.Receiver) {
    P.PlanOk(source, |source|, plan) && P.Accepting(source, |source|, plan, r) && Stands(source, s, r)
  }

  lemma PlannedPacket(source: seq<Byte>, plan: P.Plan, i: nat, k: nat)
    requires P.PlanOk(source, |source|, plan) && i < |plan.sent| && k < |plan.sent[i]|
    ensures var p := plan.sent[i][k];
            && p.seqNo == k
            && (p.Data? ==> k < |plan.lanes[i]| && 0 < |p.payload| && IsSlice(source, p.offset, p.payload))
            && (p.Done? ==> k == |plan.lanes[i]| && p.offset == |source|)
  {
    P.PacketAt(source, |source|, plan, i, k);
    if k < |plan.lanes[i]| {
      var g := plan.lanes[i][k];
      assert R.Piece(source, plan.chunks[g], R.Off(plan.chunks, |source|, g + 1));
    }
  }

  lemma Fold(source: seq<Byte>, plan: P.Plan, s: State, r: T.Receiver)
    requires P.PlanOk(source, |source|, plan) && P.Accepting(source, |source|, plan, r) && Stands(source, s, r)
    ensures Receiving(source, plan, s, r)
  {
  }

  /** The next packet of stripe `i`, once it is out of its tier. */
  lemma SequentialKeeps(source: seq<Byte>, plan: P.Plan, s: State, r: T.Receiver, i: nat, k: nat)
    requires P.PlanOk(source, |source|, plan) && Stands(source, s, r)
    requires i < |plan.sent| == |s.stripes| == |r.stripes| && k < |plan.sent[i]|
    requires var next := T.AcceptPacket(r, i, plan.sent[i][k]);
             next.Ok? && P.Accepting(source, |source|, plan, next.receiver)
    ensures var p := plan.sent[i][k];
            var result, next := AcceptSequential(s, i, p), T.AcceptPacket(r, i, p);
            if result.Ok? then Receiving(source, plan, result.state, next.receiver) && Moved(s, result.state, i, p)
            else result.dst <= source && MayFail(source, s)
  {
    hide *;
    var p := plan.sent[i][k];
    PlannedPacket(source, plan, i, k);
    var next := T.AcceptPacket(r, i, p).receiver;
    P.OutputIsPiece(source, |source|, plan, next);
    if p.Data? {
      AcceptsDataPacket(source, s, r, i, p);
    } else {
      AcceptsDonePacket(source, s, r, i, p);
    }
    if AcceptSequential(s, i, p).Ok? {
      Fold(source, plan, AcceptSequential(s, i, p).state, next);
    }
  }

  // ----- The notes of a stripe -----

  /** The notes say exactly which packets arrived: those below `low` and those kept. */
  ghost predicate NotesOk(stripe: Stripe, kept: map<nat, Packet>, lane: seq<nat>, low: nat) {
    && (forall n: nat :: n in stripe.seen <==> n < low || n in kept)
    && (forall n :: n in stripe.seen ==> n < stripe.maxSeqPlusOne)
    && (stripe.maxSeqPlusOne > 0 ==> stripe.maxSeqPlusOne - 1 in stripe.seen)
    && (stripe.terminalSeen <==> |lane| in stripe.seen)
    && stripe.totalPackets == (if stripe.terminalSeen then |lane| else 0)
  }

  /** Accepting a kept packet. */
  lemma NotesPopped(stripe: Stripe, kept: map<nat, Packet>, lane: seq<nat>, p: Packet, stripe': Stripe)
    requires NotesOk(stripe, kept, lane, stripe.expected) && stripe.expected in kept
    requires p.seqNo == stripe.expected && (p.Done? ==> p.seqNo == |lane|)
    requires stripe' == Advanced(stripe, p).(buffered := stripe'.buffered, spooled := stripe'.spooled)
    ensures NotesOk(stripe', Maps.Without(kept, stripe.expected), lane, stripe.expected + 1)
  {
  }

  /** Accepting a packet that arrives in turn. */
  lemma NotesNew(stripe: Stripe, kept: map<nat, Packet>, lane: seq<nat>, p: Packet)
    requires NotesOk(stripe, kept, lane, stripe.expected) && p.seqNo == stripe.expected && p.seqNo !in stripe.seen
    requires p.Done? <==> p.seqNo == |lane|
    ensures NotesOk(Advanced(Note(Announced(stripe, p), p.seqNo), p), kept, lane, stripe.expected + 1)
  {
    var stripe' := Note(Announced(stripe, p), p.seqNo);
    assert stripe'.maxSeqPlusOne - 1 in stripe'.seen;
  }

  /** Keeping a packet that arrives early. */
  lemma NotesFuture(stripe: Stripe, kept: map<nat, Packet>, lane: seq<nat>, p: Packet, stripe': Stripe)
    requires NotesOk(stripe, kept, lane, stripe.expected) && p.seqNo > stripe.expected && p.seqNo !in stripe.seen
    requires p.Done? <==> p.seqNo == |lane|
    requires stripe' == Note(Announced(stripe, p), p.seqNo).(buffered := stripe'.buffered, spooled := stripe'.spooled)
    ensures NotesOk(stripe', kept[p.seqNo := p], lane, stripe'.expected)
  {
    assert stripe'.maxSeqPlusOne - 1 in stripe'.seen;
  }

  /** A packet that was seen before announces nothing new. */
  lemma NotesOld(stripe: Stripe, kept: map<nat, Packet>, lane: seq<nat>, p: Packet)
    requires NotesOk(stripe, kept, lane, stripe.expected) && (p.seqNo < stripe.expected || p.seqNo in stripe.seen)
    requires p.Done? <==> p.seqNo == |lane|
    ensures Announced(stripe, p) == stripe && p.seqNo in stripe.seen
  {
  }

  ghost predicate AllNoted(plan: P.Plan, stripes: seq<Stripe>, all: seq<T.RecvStripe>) {
    && |stripes| == |plan.lanes| == |all|
    && (forall j :: 0 <= j < |stripes| ==> NotesOk(stripes[j], all[j].buffered, plan.lanes[j], stripes[j].expected))
  }

  lemma OneNoted(plan: P.Plan, stripes: seq<Stripe>, all: seq<T.RecvStripe>, i: nat, stripes': seq<Stripe>,
                 all': seq<T.RecvStripe>)
    requires AllNoted(plan, stripes, all) && i < |stripes| == |stripes'| == |all'|
    requires NotesOk(stripes'[i], all'[i].buffered, plan.lanes[i], stripes'[i].expected)
    requires stripes' == stripes[i := stripes'[i]] && forall j :: 0 <= j < |all| && j != i ==> all'[j] == all[j]
    ensures AllNoted(plan, stripes', all')
  {
    hide NotesOk;
  }

  // ----- Draining a stripe -----

  /** No stripe but possibly `i` keeps the packet it expects. */
  ghost predicate DrainedBut(r: T.Receiver, i: nat) {
    forall j :: 0 <= j < |r.stripes| && j != i ==> r.stripes[j].expected !in r.stripes[j].buffered
  }

  /** The coordinator while it works on stripe `i`. */
  ghost predicate Busy(source: seq<Byte>, plan: P.Plan, s: State, r: T.Receiver, i: nat) {
    && Receiving(source, plan, s, r) && AllNoted(plan, s.stripes, r.stripes) && DrainedBut(r, i)
    && i < |s.stripes| == |r.stripes| == |plan.sent|
  }

  ghost predicate SameLimits(s: State, s': State) {
    s'.capacity == s.capacity && s'.expectedBytes == s.expectedBytes
  }

  lemma MovesWhenUnbuffered(stripe: T.RecvStripe)
    requires stripe.expected in stripe.buffered
    ensures P.Moves(stripe,
                    stripe.(buffered := Maps.Without(stripe.buffered, stripe.expected),
                            expected := stripe.expected + 1))
  {
  }

  /** Taking the expected packet out of its tier and accepting it. */
  lemma PopAndAccept(source: seq<Byte>, plan: P.Plan, s: State, r: T.Receiver, i: nat) returns (r': T.Receiver)
    requires Receiving(source, plan, s, r) && i < |s.stripes| == |r.stripes| == |plan.sent|
    requires r.stripes[i].expected in r.stripes[i].buffered
    ensures var n := r.stripes[i].expected;
            && n < |plan.sent[i]|
            && PopFuture(s, i).Got? && PopFuture(s, i).packet == plan.sent[i][n]
            && OnlyTiers(s, PopFuture(s, i).state, i)
            && |r'.stripes| == |r.stripes| && P.Onward(r, r')
            && r'.stripes[i].buffered == Maps.Without(r.stripes[i].buffered, n) && r'.stripes[i].expected == n + 1
            && (forall j :: 0 <= j < |r.stripes| && j != i ==> r'.stripes[j] == r.stripes[j])
    ensures var s0, p := PopFuture(s, i).state, PopFuture(s, i).packet;
            var result := AcceptSequential(s0, i, p);
            if result.Ok? then Receiving(source, plan, result.state, r') && Moved(s0, result.state, i, p)
            else result.dst <= source && MayFail(source, s)
  {
    hide Stands, P.PlanOk, P.Accepting, PopFuture, AcceptSequential, Moved, MayFail;
    PopKeeps(source, s, r, i);
    var p, r0 := PopFuture(s, i).packet, T.Unbuffer(r, i);
    P.NextBuffered(source, |source|, plan, r, i);
    MovesWhenUnbuffered(r.stripes[i]);
    hide P.Moves, P.Onward;
    P.AcceptNext(source, |source|, plan, r, i, r0);
    r' := T.AcceptPacket(r0, i, p).receiver;
    hide T.AcceptPacket;
    P.SameStripes(r, r');
    SequentialKeeps(source, plan, PopFuture(s, i).state, r0, i, r.stripes[i].expected);
    TierReasons(source, s, PopFuture(s, i).state, i);
  }

  lemma TierReasons(source: seq<Byte>, s: State, s': State, i: nat)
    requires OnlyTiers(s, s', i)
    ensures MayFail(source, s') <==> MayFail(source, s)
  {
  }

  lemma NotesAfterPop(plan: P.Plan, s: State, r: T.Receiver, i: nat, s0: State, p: Packet, s': State, r': T.Receiver)
    requires AllNoted(plan, s.stripes, r.stripes) && i < |s.stripes|
    requires s.stripes[i].expected in r.stripes[i].buffered
    requires p.seqNo == s.stripes[i].expected && (p.Done? ==> p.seqNo == |plan.lanes[i]|)
    requires OnlyTiers(s, s0, i) && Moved(s0, s', i, p)
    requires |r'.stripes| == |r.stripes|
             && r'.stripes[i].buffered == Maps.Without(r.stripes[i].buffered, s.stripes[i].expected)
    requires forall j :: 0 <= j < |r.stripes| && j != i ==> r'.stripes[j] == r.stripes[j]
    ensures AllNoted(plan, s'.stripes, r'.stripes) && SameLimits(s, s') && |s'.stripes| == |s.stripes|
  {
    hide NotesOk;
    var stripe := s.stripes[i];
    assert NotesOk(stripe, r.stripes[i].buffered, plan.lanes[i], stripe.expected);
    NotesPopped(stripe, r.stripes[i].buffered, plan.lanes[i], p, s'.stripes[i]);
    OneNoted(plan, s.stripes, r.stripes, i, s'.stripes, r'.stripes);
  }

  lemma StandsExpected(source: seq<Byte>, s: State, r: T.Receiver, i: nat)
    requires Stands(source, s, r) && i < |s.stripes|
    ensures |r.stripes| == |s.stripes| && r.stripes[i].expected == s.stripes[i].expected
  {
    hide FutureCounted, OutputOk, SpooledIs;
    assert StripeRep(source, s.stripes[i], r.stripes[i]);
  }

  /** The same step, with the notes. */
  lemma DrainStep(source: seq<Byte>, plan: P.Plan, s: State, r: T.Receiver, i: nat) returns (r': T.Receiver)
    requires i < |s.stripes| && i < |r.stripes|
    requires Busy(source, plan, s, r, i) && r.stripes[i].expected in r.stripes[i].buffered
    ensures PopFuture(s, i).Got?
    ensures var result := AcceptSequential(PopFuture(s, i).state, i, PopFuture(s, i).packet);
            if result.Ok? then
              && Busy(source, plan, result.state, r', i) && SameLimits(s, result.state) && P.Onward(r, r')
              && i < |r'.stripes| && |r'.stripes[i].buffered| < |r.stripes[i].buffered|
            else result.dst <= source && MayFail(source, s)
  {
    hide Stands, P.PlanOk, P.Accepting, PopFuture, AcceptSequential, P.Onward, AllNoted, OnlyTiers, Moved, MayFail,
         SameLimits;
    StandsExpected(source, s, r, i);
    r' := PopAndAccept(source, plan, s, r, i);
    PlannedPacket(source, plan, i, s.stripes[i].expected);
    var s0, p := PopFuture(s, i).state, PopFuture(s, i).packet;
    var result := AcceptSequential(s0, i, p);
    if result.Ok? {
      NotesAfterPop(plan, s, r, i, s0, p, result.state, r');
    }
  }

  lemma NothingToPop(source: seq<Byte>, plan: P.Plan, s: State, r: T.Receiver, i: nat)
    requires i < |s.stripes| && i < |r.stripes|
    requires Busy(source, plan, s, r, i) && r.stripes[i].expected !in r.stripes[i].buffered
    ensures PopFuture(s, i).Nothing?
  {
    hide P.PlanOk, P.Accepting, AllNoted, Stands, PopFuture, DrainedBut;
    PopKeeps(source, s, r, i);
  }

  lemma BusyStripes(source: seq<Byte>, plan: P.Plan, s: State, r: T.Receiver, i: nat)
    requires Busy(source, plan, s, r, i)
    ensures i < |s.stripes| == |r.stripes| == |plan.sent|
  {
  }

  /** Draining never loses a packet, and afterwards no stripe keeps what it expects. */
  lemma {:induction false} DrainKeeps(source: seq<Byte>, plan: P.Plan, s: State, r: T.Receiver, i: nat)
    returns (r': T.Receiver)
    requires Busy(source, plan, s, r, i) && i < |s.stripes| && i < |r.stripes|
    ensures var result := DrainFuture(s, i);
            if result.Ok? then
              && Busy(source, plan, result.state, r', i) && SameLimits(s, result.state) && P.Onward(r, r')
              && i < |r'.stripes| && r'.stripes[i].expected !in r'.stripes[i].buffered
            else result.dst <= source && MayFail(source, s)
    decreases |r.stripes[i].buffered|
  {
    hide Busy, PopFuture, AcceptSequential, P.Onward;
    if r.stripes[i].expected in r.stripes[i].buffered {
      var r1 := DrainStep(source, plan, s, r, i);
      var result := AcceptSequential(PopFuture(s, i).state, i, PopFuture(s, i).packet);
      if result.Ok? {
        BusyStripes(source, plan, result.state, r1, i);
        r' := DrainKeeps(source, plan, result.state, r1, i);
        if DrainFuture(result.state, i).Ok? {
          P.OnwardTrans(r, r1, r');
        }
      } else {
        r' := r1;
      }
    } else {
      r' := r;
      NothingToPop(source, plan, s, r, i);
      P.OnwardSelf(r);
    }
  }

  // ----- Handling a packet -----

  /** The coordinator between two packets: exact, drained, and with nothing left in the
      write buffer once everything is there. */
  ghost predicate Idle(source: seq<Byte>, plan: P.Plan, s: State, r: T.Receiver) {
    && Busy(source, plan, s, r, 0)
    && (forall j :: 0 <= j < |r.stripes| ==> r.stripes[j].expected !in r.stripes[j].buffered)
    && (IsComplete(s) ==> s.writeBuf == [])
  }

  /** Packet `k` of stripe `i` was taken in. */
  ghost predicate Has(r: T.Receiver, i: nat, k: nat) {
    i < |r.stripes| && Held(r.stripes[i].expected, r.stripes[i].buffered, k)
  }

  lemma HasOnward(r: T.Receiver, r': T.Receiver, i: nat, k: nat)
    requires P.Onward(r, r') && Has(r, i, k)
    ensures Has(r', i, k)
  {
    hide Held;
  }

  lemma BusyElsewhere(source: seq<Byte>, plan: P.Plan, s: State, r: T.Receiver, i: nat, j: nat)
    requires Busy(source, plan, s, r, i) && j < |s.stripes|
    requires forall j :: 0 <= j < |r.stripes| ==> r.stripes[j].expected !in r.stripes[j].buffered
    ensures Busy(source, plan, s, r, j)
  {
    hide Receiving, AllNoted;
  }

  /** A packet that is early. */
  lemma HandleFuture(source: seq<Byte>, plan: P.Plan, s: State, r: T.Receiver, i: nat, k: nat) returns (r': T.Receiver)
    requires Busy(source, plan, s, r, i) && i < |s.stripes| == |r.stripes| == |plan.sent|
    requires s.stripes[i].expected < k < |plan.sent[i]| && k !in s.stripes[i].seen
    ensures var p := plan.sent[i][k];
            var s1 := WithStripe(s, i, Announced(s.stripes[i], p));
            var stored := StoreFuture(s1, i, p);
            if stored.Ok? then
              && Busy(source, plan, stored.state, r', i) && P.Onward(r, r') && Has(r', i, k)
              && Stored(s1, stored.state, i, p)
              && |r'.stripes| == |r.stripes| && r'.stripes[i].expected == r.stripes[i].expected
              && r'.stripes[i].buffered.Keys == r.stripes[i].buffered.Keys + {k}
            else stored.dst <= source && MayFail(source, s)
  {
    hide NotesOk, Stands, P.PlanOk, P.Accepting, P.Onward, StoreFuture;
    var p, stripe := plan.sent[i][k], s.stripes[i];
    var s1 := WithStripe(s, i, Announced(stripe, p));
    PlannedPacket(source, plan, i, k);
    StandsExpected(source, s, r, i);
    NotSeen(plan, s, r, i, k);
    StandsAnnounced(source, s, r, i, p);
    StoreFutureKeeps(source, s1, r, i, p);
    P.OutputIsPiece(source, |source|, plan, r);
    DstInSource(source, s, r);
    r' := Keeping(r, i, p);
    P.KeepForLater(source, |source|, plan, r, i, k, r');
    var stored := StoreFuture(s1, i, p);
    if stored.Ok? {
      NotesFuture(stripe, r.stripes[i].buffered, plan.lanes[i], p, stored.state.stripes[i]);
      OneNoted(plan, s.stripes, r.stripes, i, stored.state.stripes, r'.stripes);
    }
  }

  lemma NotSeen(plan: P.Plan, s: State, r: T.Receiver, i: nat, k: nat)
    requires AllNoted(plan, s.stripes, r.stripes) && i < |s.stripes| && k !in s.stripes[i].seen
    ensures k !in r.stripes[i].buffered && s.stripes[i].expected <= k
    ensures NotesOk(s.stripes[i], r.stripes[i].buffered, plan.lanes[i], s.stripes[i].expected)
  {
    assert NotesOk(s.stripes[i], r.stripes[i].buffered, plan.lanes[i], s.stripes[i].expected);
  }

  lemma DstInSource(source: seq<Byte>, s: State, r: T.Receiver)
    requires Stands(source, s, r) && r.buffer.out <= source
    ensures s.dst <= source && s.dst + s.writeBuf == r.buffer.out && s.nextOffset == r.buffer.nextOffset
  {
    hide StripeRep, FutureCounted, AllBacked, PendingRep, PendingCounted;
  }

  lemma StandsAnnounced(source: seq<Byte>, s: State, r: T.Receiver, i: nat, p: Packet)
    requires Stands(source, s, r) && i < |s.stripes|
    ensures Stands(source, WithStripe(s, i, Announced(s.stripes[i], p)), r)
    ensures Stands(source, WithStripe(s, i, Note(Announced(s.stripes[i], p), p.seqNo)), r)
  {
    StandsNoted(source, s, r, i, Announced(s.stripes[i], p));
    StandsNoted(source, s, r, i, Note(Announced(s.stripes[i], p), p.seqNo));
  }

  lemma StandsNoted(source: seq<Byte>, s: State, r: T.Receiver, i: nat, stripe: Stripe)
    requires Stands(source, s, r) && i < |s.stripes|
    requires stripe.buffered == s.stripes[i].buffered && stripe.spooled == s.stripes[i].spooled
    requires stripe.expected == s.stripes[i].expected && stripe.done == s.stripes[i].done
    ensures Stands(source, WithStripe(s, i, stripe), r)
  {
    hide StripeRep, FutureCounted, OutputOk;
    var s' := WithStripe(s, i, stripe);
    SameExpected(source, s.stripes[i], r.stripes[i]);
    RepSteps(source, s.stripes[i], r.stripes[i], stripe, r.stripes[i]);
    SameFuture(s, s', i);
    OutputSame(source, s, r.buffer, s');
    StandsWith(source, s, r, i, s', r);
  }

  lemma MovesWhenAbsent(stripe: T.RecvStripe)
    requires stripe.expected !in stripe.buffered
    ensures P.Moves(stripe, stripe.(expected := stripe.expected + 1))
  {
  }

  lemma NotesAfterNew(plan: P.Plan, s: State, r: T.Receiver, i: nat, p: Packet, s': State, r': T.Receiver)
    requires AllNoted(plan, s.stripes, r.stripes) && i < |s.stripes|
    requires p.seqNo == s.stripes[i].expected && p.seqNo !in s.stripes[i].seen
             && (p.Done? <==> p.seqNo == |plan.lanes[i]|)
    requires Moved(WithStripe(s, i, Note(Announced(s.stripes[i], p), p.seqNo)), s', i, p)
    requires |r'.stripes| == |r.stripes| && r'.stripes[i].buffered == r.stripes[i].buffered
    requires forall j :: 0 <= j < |r.stripes| && j != i ==> r'.stripes[j] == r.stripes[j]
    ensures AllNoted(plan, s'.stripes, r'.stripes) && SameLimits(s, s') && |s'.stripes| == |s.stripes|
  {
    hide NotesOk;
    var stripe := s.stripes[i];
    assert NotesOk(stripe, r.stripes[i].buffered, plan.lanes[i], stripe.expected);
    NotesNew(stripe, r.stripes[i].buffered, plan.lanes[i], p);
    OneNoted(plan, s.stripes, r.stripes, i, s'.stripes, r'.stripes);
  }

  lemma SameReasons(source: seq<Byte>, s: State, s': State)
    requires MayFail(source, s) && SameLimits(s, s')
    ensures MayFail(source, s')
  {
  }

  /** The packet that the stripe expects, before the drain. */
  lemma AcceptNew(source: seq<Byte>, plan: P.Plan, s: State, r: T.Receiver, i: nat) returns (r': T.Receiver)
    requires Busy(source, plan, s, r, i) && i < |s.stripes| == |r.stripes| == |plan.sent|
    requires r.stripes[i].expected == s.stripes[i].expected < |plan.sent[i]|
    requires s.stripes[i].expected !in r.stripes[i].buffered && s.stripes[i].expected !in s.stripes[i].seen
    ensures var p := plan.sent[i][s.stripes[i].expected];
            var accepted := AcceptSequential(WithStripe(s, i, Note(Announced(s.stripes[i], p), p.seqNo)), i, p);
            if accepted.Ok? then
              && Busy(source, plan, accepted.state, r', i) && SameLimits(s, accepted.state) && P.Onward(r, r')
              && Has(r', i, s.stripes[i].expected)
            else accepted.dst <= source && MayFail(source, s)
  {
    hide AllNoted, Stands, P.PlanOk, P.Accepting, P.Onward, AcceptSequential, Moved, MayFail;
    var k, stripe := s.stripes[i].expected, s.stripes[i];
    var p := plan.sent[i][k];
    var s1 := WithStripe(s, i, Note(Announced(stripe, p), p.seqNo));
    PlannedPacket(source, plan, i, k);
    StandsAnnounced(source, s, r, i, p);
    MovesWhenAbsent(r.stripes[i]);
    assert r == r.(stripes := r.stripes[i := r.stripes[i]]);
    hide P.Moves;
    P.AcceptNext(source, |source|, plan, r, i, r);
    r' := T.AcceptPacket(r, i, p).receiver;
    hide T.AcceptPacket, IsSlice, Announced, Note;
    P.SameStripes(r, r');
    SequentialKeeps(source, plan, s1, r, i, k);
    var accepted := AcceptSequential(s1, i, p);
    if accepted.Ok? {
      NotesAfterNew(plan, s, r, i, p, accepted.state, r');
    } else {
      SameReasons(source, s1, s);
    }
  }

  lemma FlushStands(source: seq<Byte>, s: State, r: T.Receiver)
    requires Stands(source, s, r) && r.buffer.out <= source
    ensures var flushed := FlushWriteBuffer(s);
            if flushed.Ok? then
              && flushed.state == s.(writeBuf := [], dst := s.dst + s.writeBuf) && Stands(source, flushed.state, r)
            else flushed.dst <= source && s.capacity < |source|
  {
    hide StripeRep, FutureCounted;
    var flushed := FlushWriteBuffer(s);
    FlushWritesAll(s);
    if flushed.Ok? {
      hide AllBacked, PendingRep, PendingCounted;
      SameSpool(source, s, flushed.state);
      SamePending(s, flushed.state);
      assert flushed.state.dst + flushed.state.writeBuf == s.dst + s.writeBuf;
      SameCounted(s, flushed.state);
    }
  }

  lemma SameCounted(s: State, s': State)
    requires FutureCounted(s) && s'.stripes == s.stripes && s'.futureBytes == s.futureBytes
    ensures FutureCounted(s')
  {
  }

  /** Whatever is left in the write buffer goes out once everything is there. */
  lemma FinishKeeps(source: seq<Byte>, plan: P.Plan, s: State, r: T.Receiver, i: nat)
    requires Busy(source, plan, s, r, i) && i < |r.stripes| && r.stripes[i].expected !in r.stripes[i].buffered
    ensures var result := Finish(Ok(s));
            if result.Ok? then Idle(source, plan, result.state, r) && SameLimits(s, result.state)
            else result.dst <= source && MayFail(source, s)
  {
    hide NotesOk, Stands, P.PlanOk, P.Accepting;
    P.OutputIsPiece(source, |source|, plan, r);
    FlushStands(source, s, r);
    var result := Finish(Ok(s));
    hide FlushWriteBuffer;
    if result.Ok? {
      hide Receiving, AllNoted;
      assert Busy(source, plan, result.state, r, i);
      BusyElsewhere(source, plan, result.state, r, i, 0);
    }
  }

  lemma IdleFacts(source: seq<Byte>, plan: P.Plan, s: State, r: T.Receiver, i: nat)
    requires Idle(source, plan, s, r) && i < |s.stripes|
    ensures P.PlanOk(source, |source|, plan) && Busy(source, plan, s, r, i)
    ensures |s.stripes| == |r.stripes| == |plan.sent| == |plan.lanes|
    ensures r.stripes[i].expected == s.stripes[i].expected
    ensures NotesOk(s.stripes[i], r.stripes[i].buffered, plan.lanes[i], s.stripes[i].expected)
  {
    hide NotesOk, Stands, P.PlanOk, P.Accepting;
    BusyElsewhere(source, plan, s, r, 0, i);
    StandsExpected(source, s, r, i);
  }

  lemma SeenIsHeld(stripe: Stripe, kept: map<nat, Packet>, lane: seq<nat>, k: nat)
    requires NotesOk(stripe, kept, lane, stripe.expected) && k in stripe.seen
    ensures Held(stripe.expected, kept, k)
  {
  }

  lemma StaysIdle(source: seq<Byte>, plan: P.Plan, s: State, r: T.Receiver, i: nat, k: nat, s': State, r': T.Receiver)
    requires Idle(source, plan, s, r) && Busy(source, plan, s', r', i)
    requires i < |r.stripes| == |r'.stripes| && r'.stripes[i].expected == r.stripes[i].expected < k
    requires r'.stripes[i].buffered.Keys == r.stripes[i].buffered.Keys + {k}
    requires s'.nextOffset == s.nextOffset && s'.finalTotal == s.finalTotal && s'.writeBuf == s.writeBuf
    requires s'.expectedBytes == s.expectedBytes
    ensures Idle(source, plan, s', r')
  {
    hide Receiving, AllNoted;
    assert r'.stripes[i].expected !in r'.stripes[i].buffered;
    BusyElsewhere(source, plan, s', r', i, 0);
  }

  lemma InTurnShape(s: State, i: nat, p: Packet)
    requires i < |s.stripes| && s.stripes[i].expected == p.seqNo && p.seqNo !in s.stripes[i].seen
             && (p.Data? ==> 0 < |p.payload|)
    ensures var accepted := AcceptSequential(WithStripe(s, i, Note(Announced(s.stripes[i], p), p.seqNo)), i, p);
            Handle(s, i, p) == if accepted.Err? then accepted else Finish(DrainFuture(accepted.state, i))
  {
    hide AcceptSequential, DrainFuture, FlushWriteBuffer, IsComplete;
  }

  lemma HandleInTurn(source: seq<Byte>, plan: P.Plan, s: State, r: T.Receiver, i: nat) returns (r': T.Receiver)
    requires Idle(source, plan, s, r) && i < |s.stripes| == |plan.sent| && s.stripes[i].expected < |plan.sent[i]|
    requires s.stripes[i].expected !in s.stripes[i].seen
    ensures var result := Handle(s, i, plan.sent[i][s.stripes[i].expected]);
            if result.Ok? then
              && Idle(source, plan, result.state, r') && SameLimits(s, result.state) && P.Onward(r, r')
              && Has(r', i, s.stripes[i].expected)
            else result.dst <= source && MayFail(source, s)
  {
    var k := s.stripes[i].expected;
    var p := plan.sent[i][k];
    IdleFacts(source, plan, s, r, i);
    assert k !in r.stripes[i].buffered;
    hide *;
    PlannedPacket(source, plan, i, k);
    InTurnShape(s, i, p);
    var r1 := AcceptNew(source, plan, s, r, i);
    var accepted := AcceptSequential(WithStripe(s, i, Note(Announced(s.stripes[i], p), p.seqNo)), i, p);
    r' := r1;
    if accepted.Ok? {
      BusyStripes(source, plan, accepted.state, r1, i);
      r' := DrainKeeps(source, plan, accepted.state, r1, i);
      var drained := DrainFuture(accepted.state, i);
      if drained.Ok? {
        P.OnwardTrans(r, r1, r');
        HasOnward(r1, r', i, k);
        FinishKeeps(source, plan, drained.state, r', i);
        LimitsTrans(source, s, accepted.state, drained.state);
        if Finish(drained).Ok? {
          LimitsTrans(source, s, drained.state, Finish(drained).state);
        }
      } else {
        LimitsTrans(source, s, accepted.state, accepted.state);
      }
    }
  }

  lemma LimitsTrans(source: seq<Byte>, a: State, b: State, c: State)
    requires SameLimits(a, b) && SameLimits(b, c)
    ensures SameLimits(a, c) && (MayFail(source, c) <==> MayFail(source, a))
  {
  }

  lemma HandleOld(source: seq<Byte>, plan: P.Plan, s: State, r: T.Receiver, i: nat, k: nat)
    requires Idle(source, plan, s, r) && i < |s.stripes| && i < |plan.sent| && k < |plan.sent[i]|
    requires k < s.stripes[i].expected || k in s.stripes[i].seen
    ensures Handle(s, i, plan.sent[i][k]) == Ok(s) && SameLimits(s, s) && Has(r, i, k)
  {
    hide *;
    var stripe, p := s.stripes[i], plan.sent[i][k];
    IdleFacts(source, plan, s, r, i);
    PlannedPacket(source, plan, i, k);
    NotesOld(stripe, r.stripes[i].buffered, plan.lanes[i], p);
    SeenIsHeld(stripe, r.stripes[i].buffered, plan.lanes[i], k);
    OldShape(s, i, p);
    SameSelf(s);
    HasIs(r, i, k);
  }

  lemma OldShape(s: State, i: nat, p: Packet)
    requires i < |s.stripes| && (p.seqNo < s.stripes[i].expected || p.seqNo in s.stripes[i].seen)
             && (p.Data? ==> 0 < |p.payload|)
    requires Announced(s.stripes[i], p) == s.stripes[i]
    ensures Handle(s, i, p) == Ok(s)
  {
    hide AcceptSequential, StoreFuture, Finish, DrainFuture, Announced;
    assert s.stripes[i := s.stripes[i]] == s.stripes;
  }

  lemma SameSelf(s: State)
    ensures SameLimits(s, s)
  {
  }

  lemma HasIs(r: T.Receiver, i: nat, k: nat)
    requires i < |r.stripes| && Held(r.stripes[i].expected, r.stripes[i].buffered, k)
    ensures Has(r, i, k)
  {
  }

  lemma EarlyShape(s: State, i: nat, p: Packet)
    requires i < |s.stripes| && s.stripes[i].expected < p.seqNo && p.seqNo !in s.stripes[i].seen
             && (p.Data? ==> 0 < |p.payload|)
    ensures Handle(s, i, p) == StoreFuture(WithStripe(s, i, Announced(s.stripes[i], p)), i, p)
  {
    hide StoreFuture;
  }

  lemma StoredSame(s: State, i: nat, p: Packet, s': State)
    requires i < |s.stripes| && Stored(WithStripe(s, i, Announced(s.stripes[i], p)), s', i, p)
    ensures s'.nextOffset == s.nextOffset && s'.finalTotal == s.finalTotal && s'.writeBuf == s.writeBuf
    ensures s'.expectedBytes == s.expectedBytes && SameLimits(s, s')
  {
  }

  lemma HandleEarly(source: seq<Byte>, plan: P.Plan, s: State, r: T.Receiver, i: nat, k: nat) returns (r': T.Receiver)
    requires Idle(source, plan, s, r) && i < |s.stripes| && i < |plan.sent| && k < |plan.sent[i]|
    requires s.stripes[i].expected < k && k !in s.stripes[i].seen
    ensures var result := Handle(s, i, plan.sent[i][k]);
            if result.Ok? then
              Idle(source, plan, result.state, r') && SameLimits(s, result.state) && P.Onward(r, r') && Has(r', i, k)
            else result.dst <= source && MayFail(source, s)
  {
    var p := plan.sent[i][k];
    hide *;
    IdleFacts(source, plan, s, r, i);
    PlannedPacket(source, plan, i, k);
    EarlyShape(s, i, p);
    r' := HandleFuture(source, plan, s, r, i, k);
    var stored := StoreFuture(WithStripe(s, i, Announced(s.stripes[i], p)), i, p);
    if stored.Ok? {
      StoredSame(s, i, p, stored.state);
      StaysIdle(source, plan, s, r, i, k, stored.state, r');
    }
  }

  /** Any packet of the plan, new or old, in turn or early: the coordinator stays exact,
      loses nothing it had, and has taken the packet in; it fails only for cause. */
  lemma HandleKeeps(source: seq<Byte>, plan: P.Plan, s: State, r: T.Receiver, i: nat, k: nat) returns (r': T.Receiver)
    requires Idle(source, plan, s, r) && i < |s.stripes| && i < |plan.sent| && k < |plan.sent[i]|
    ensures var result := Handle(s, i, plan.sent[i][k]);
            if result.Ok? then
              Idle(source, plan, result.state, r') && SameLimits(s, result.state) && P.Onward(r, r') && Has(r', i, k)
            else result.dst <= source && MayFail(source, s)
  {
    hide *;
    IdleFacts(source, plan, s, r, i);
    if k < s.stripes[i].expected || k in s.stripes[i].seen {
      HandleOld(source, plan, s, r, i, k);
      r' := r;
      P.OnwardSelf(r);
    } else if k > s.stripes[i].expected {
      r' := HandleEarly(source, plan, s, r, i, k);
    } else {
      r' := HandleInTurn(source, plan, s, r, i);
    }
  }
}

/** The striped blast sender: it cuts what it reads into chunks and puts each chunk on the
    stripe its offset names, under that stripe's own counter. */
module BlastSource {
  import opened Arithmetic
  import opened Bits
  import opened Lanes
  import opened Reassembly
  import opened StripePlan
  import B = BlockStriping

  /** A chunk lies on the grid that the chunk size lays over the source. */
  ghost predicate OnGrid(c: Chunk, g: nat, chunkSize: nat) {
    c.offset == g * chunkSize && |c.payload| <= chunkSize
  }

  /** The chunks are uniform, and the plan is the block striping of them. */
  ghost predicate Blocks(plan: Plan, lanes: nat, chunkSize: nat) {
    && (forall g :: 0 <= g < |plan.chunks| ==> OnGrid(plan.chunks[g], g, chunkSize))
    && lanes > 0 && |plan.lanes| == lanes && |plan.homes| == |plan.chunks|
    && (forall l :: 0 <= l < lanes ==> |plan.lanes[l]| == B.CountOn(l, |plan.chunks|, lanes))
    && (forall g :: 0 <= g < |plan.homes| ==> plan.homes[g] == Home(B.Stripe(g, lanes), B.Seq(g, lanes)))
  }

  lemma BlocksGrow(plan: Plan, lanes: nat, chunkSize: nat, p: Packet)
    requires Blocks(plan, lanes, chunkSize) && |plan.sent| == lanes
    requires p.Data? && OnGrid(Chunk(p.offset, p.payload), |plan.chunks|, chunkSize)
    requires p.seqNo == |plan.lanes[B.Stripe(|plan.chunks|, lanes)]|
    ensures Blocks(Planned(plan, B.Stripe(|plan.chunks|, lanes), p), lanes, chunkSize)
  {
    hide OnGrid;
    B.CounterIsSeq(|plan.chunks|, lanes);
    hide B.Stripe, B.Seq;
  }

  /** The counters and packets of the stripes, as the plan has them. */
  ghost predicate Tracks(nextSeq: seq<nat>, sent: seq<seq<Packet>>, plan: Plan, lanes: nat) {
    && |nextSeq| == |sent| == |plan.lanes| == lanes
    && plan.sent == sent
    && (forall l :: 0 <= l < lanes ==> nextSeq[l] == |sent[l]| == |plan.lanes[l]|)
  }

  lemma TracksGrow(nextSeq: seq<nat>, sent: seq<seq<Packet>>, plan: Plan, lanes: nat, lane: nat, p: Packet)
    requires Tracks(nextSeq, sent, plan, lanes) && lane < lanes && p.Data?
    ensures Tracks(nextSeq[lane := nextSeq[lane] + 1], sent[lane := sent[lane] + [p]], Planned(plan, lane, p), lanes)
    ensures |Planned(plan, lane, p).chunks| == |plan.chunks| + 1
  {
  }

  lemma BlocksKept(plan: Plan, lanes: nat, chunkSize: nat, offset: nat, p: Packet, lane: nat)
    requires Blocks(plan, lanes, chunkSize) && |plan.sent| == lanes && p.Data? && chunkSize > 0
    requires offset == |plan.chunks| * chunkSize && lane == B.LaneIndexForOffset(offset, lanes, chunkSize)
    requires lane < lanes && p.seqNo == |plan.lanes[lane]| && p.offset == offset && |p.payload| <= chunkSize
    ensures Blocks(Planned(plan, lane, p), lanes, chunkSize)
  {
    hide Blocks;
    B.OffsetNamesStripe(|plan.chunks|, lanes, chunkSize);
    BlocksGrow(plan, lanes, chunkSize, p);
  }

  class StripedBlast {
    const lanes: nat
    const chunkSize: nat
    var nextSeq: seq<nat>
    var offset: nat
    /** The packets put on each stripe. */
    var sent: seq<seq<Packet>>
    ghost var plan: Plan

    /** Everything up to `offset` has been put on some stripe, and no stripe has its DONE. */
    ghost predicate Valid(source: seq<Byte>)
      reads this
    {
      && lanes > 0 && chunkSize > 0
      && Tracks(nextSeq, sent, plan, lanes)
      && PlanOk(source, offset, plan)
    }

    constructor (ghost source: seq<Byte>, lanes: nat, chunkSize: nat)
      requires lanes > 0 && chunkSize > 0
      ensures Valid(source) && offset == 0 && plan.chunks == [] && Blocks(plan, lanes, chunkSize)
      ensures this.lanes == lanes && this.chunkSize == chunkSize
    {
      this.lanes, this.chunkSize, offset := lanes, chunkSize, 0;
      nextSeq, sent := seq(lanes, _ => 0), seq(lanes, _ => []);
      plan := Plan([], [], seq(lanes, _ => []), seq(lanes, _ => []));
    }

    /** Puts one chunk on its stripe. */
    method SendChunk(ghost source: seq<Byte>, payload: seq<Byte>)
      requires Valid(source) && 0 < |payload| <= chunkSize
      requires offset + |payload| <= |source| && payload == source[offset..offset + |payload|]
      modifies this
      ensures Valid(source) && offset == old(offset) + |payload|
      ensures |plan.chunks| == |old(plan.chunks)| + 1
      ensures old(Blocks(plan, lanes, chunkSize)) && old(offset) == |old(plan.chunks)| * chunkSize ==>
              Blocks(plan, lanes, chunkSize)
    {
      hide PlanOk, Blocks, B.LaneIndexForOffset;
      B.LaneInRange(offset, lanes, chunkSize);
      var lane := B.LaneIndexForOffset(offset, lanes, chunkSize);
      var p := Data(nextSeq[lane], offset, payload);
      if Blocks(plan, lanes, chunkSize) && offset == |plan.chunks| * chunkSize {
        BlocksKept(plan, lanes, chunkSize, offset, p, lane);
      }
      EmitKeepsPlan(source, offset, plan, lane, p, offset + |payload|);
      TracksGrow(nextSeq, sent, plan, lanes, lane, p);
      hide Tracks, Planned;
      plan := Planned(plan, lane, p);
      nextSeq := nextSeq[lane := nextSeq[lane] + 1];
      sent := sent[lane := sent[lane] + [p]];
      offset := offset + |payload|;
    }

    /** Cuts one read into chunks and sends them. */
    method SendBatch(ghost source: seq<Byte>, batch: seq<Byte>)
      requires Valid(source) && offset + |batch| <= |source| && batch == source[offset..offset + |batch|]
      modifies this
      ensures Valid(source) && offset == old(offset) + |batch|
      ensures old(Blocks(plan, lanes, chunkSize)) && old(offset) == |old(plan.chunks)| * chunkSize ==>
                Blocks(plan, lanes, chunkSize) && (|batch| % chunkSize == 0 ==> offset == |plan.chunks| * chunkSize)
    {
      hide PlanOk, Blocks, Tracks;
      ghost var uniform := Blocks(plan, lanes, chunkSize) && offset == |plan.chunks| * chunkSize;
      var remaining := batch;
      while |remaining| > 0
        invariant Valid(source) && |remaining| <= |batch| && offset == old(offset) + |batch| - |remaining|
        invariant remaining == batch[|batch| - |remaining|..]
        invariant uniform ==> Blocks(plan, lanes, chunkSize)
        invariant uniform && (|remaining| > 0 || |batch| % chunkSize == 0) ==> offset == |plan.chunks| * chunkSize
        invariant |batch| % chunkSize == 0 ==> |remaining| % chunkSize == 0
      {
        var payloadLen := if chunkSize > |remaining| then |remaining| else chunkSize;
        FullUnlessLast(|remaining|, chunkSize);
        assert remaining[..payloadLen] == source[offset..offset + payloadLen];
        SendChunk(source, remaining[..payloadLen]);
        remaining := remaining[payloadLen..];
      }
    }

    /** Ends every stripe with a DONE that names the size of the source. */
    method SendDone(ghost source: seq<Byte>)
      requires Valid(source) && offset == |source|
      modifies this`sent, this`plan
      ensures PlanOk(source, |source|, plan) && plan.sent == sent && |plan.lanes| == lanes == |sent|
      ensures forall l :: 0 <= l < lanes ==> |sent[l]| == |plan.lanes[l]| + 1
      ensures plan.lanes == old(plan.lanes) && plan.homes == old(plan.homes) && plan.chunks == old(plan.chunks)
      ensures old(Blocks(plan, lanes, chunkSize)) ==> Blocks(plan, lanes, chunkSize)
    {
      hide PlanOk, Planned;
      for i := 0 to lanes
        invariant PlanOk(source, |source|, plan) && plan.sent == sent && |plan.lanes| == lanes == |sent|
        invariant plan.lanes == old(plan.lanes) && plan.homes == old(plan.homes) && plan.chunks == old(plan.chunks)
        invariant forall l :: 0 <= l < lanes ==> |sent[l]| == |plan.lanes[l]| + (if l < i then 1 else 0)
      {
        var p := Done(nextSeq[i], offset);
        EmitKeepsPlan(source, offset, plan, i, p, offset);
        DoneOn(plan, i, p);
        plan := Planned(plan, i, p);
        sent := sent[i := sent[i] + [p]];
      }
    }
  }

  lemma DoneOn(plan: Plan, lane: nat, p: Packet)
    requires lane < |plan.lanes| == |plan.sent| && p.Done?
    ensures var plan' := Planned(plan, lane, p);
            plan'.chunks == plan.chunks && plan'.homes == plan.homes && plan'.lanes == plan.lanes
            && plan'.sent == plan.sent[lane := plan.sent[lane] + [p]]
  {
  }

  lemma FullUnlessLast(remaining: nat, chunkSize: nat)
    requires remaining > 0 && chunkSize > 0
    ensures remaining % chunkSize == 0 ==> chunkSize <= remaining && (remaining - chunkSize) % chunkSize == 0
  {
    if remaining % chunkSize == 0 {
      var q := remaining / chunkSize;
      assert remaining == q * chunkSize;
      AtLeast(q, chunkSize);
      DivMod(remaining - chunkSize, chunkSize, q - 1, 0);
    }
  }
}

/** The parity that a uniform striped sender puts on its lanes. */
module ParitySource {
  import opened Arithmetic
  import opened Bits
  import opened Lanes
  import opened Options
  import opened Parity
  import opened ParityEndpoints
  import opened ParityRecovery
  import R = Reassembly
  import P = StripePlan
  import S = BlastSource
  import B = BlockStriping

  /** Where chunk `g` of a uniform cut lies and where the next one starts. */
  lemma ChunkOnGrid(source: seq<Byte>, plan: P.Plan, lanes: nat, chunkSize: nat, g: nat)
    requires P.PlanOk(source, |source|, plan) && S.Blocks(plan, lanes, chunkSize) && g < |plan.chunks|
    ensures var c, next := plan.chunks[g], R.Off(plan.chunks, |source|, g + 1);
            && R.Piece(source, c, next) && S.OnGrid(c, g, chunkSize)
            && next == (if g + 1 < |plan.chunks| then (g + 1) * chunkSize else |source|)
  {
    assert R.Piece(source, plan.chunks[g], R.Off(plan.chunks, |source|, g + 1));
    hide P.HomesOk, P.LaneOk, R.Piece;
    if g + 1 < |plan.chunks| {
      assert S.OnGrid(plan.chunks[g + 1], g + 1, chunkSize);
    }
  }

  /** A uniform cut has as many chunks as fit the source, the last one short or not. */
  lemma ChunkCount(source: seq<Byte>, plan: P.Plan, lanes: nat, chunkSize: nat)
    requires P.PlanOk(source, |source|, plan) && S.Blocks(plan, lanes, chunkSize) && chunkSize > 0
    ensures |plan.chunks| == (|source| + chunkSize - 1) / chunkSize
  {
    var n := |plan.chunks|;
    hide P.HomesOk, P.LaneOk, S.Blocks, R.Piece;
    if n == 0 {
      DivMod(chunkSize - 1, chunkSize, 0, chunkSize - 1);
    } else {
      ChunkOnGrid(source, plan, lanes, chunkSize, n - 1);
      PieceEnds(source, plan.chunks[n - 1], |source|);
      hide *;
      CountFromLast(|source|, chunkSize, n, plan.chunks[n - 1]);
    }
  }

  lemma PieceEnds(source: seq<Byte>, c: R.Chunk, next: nat)
    requires R.Piece(source, c, next)
    ensures 0 < |c.payload| && c.offset + |c.payload| == next
  {
  }

  lemma CountFromLast(total: nat, chunkSize: nat, n: nat, last: R.Chunk)
    requires 0 < n && S.OnGrid(last, n - 1, chunkSize) && 0 < |last.payload| && last.offset + |last.payload| == total
    ensures 0 < chunkSize && n == (total + chunkSize - 1) / chunkSize
  {
    assert n * chunkSize == (n - 1) * chunkSize + chunkSize;
    DivMod(total + chunkSize - 1, chunkSize, n, |last.payload| - 1);
  }

  /** Chunk `g` of a uniform cut is the stretch of the source that starts there. */
  lemma ChunkIs(source: seq<Byte>, plan: P.Plan, lanes: nat, chunkSize: nat, g: nat)
    requires P.PlanOk(source, |source|, plan) && S.Blocks(plan, lanes, chunkSize) && chunkSize > 0
    requires g < |plan.chunks|
    ensures var c, off := plan.chunks[g], g * chunkSize;
            && c.offset == off < |source|
            && c.payload == source[off..if |source| < off + chunkSize then |source| else off + chunkSize]
  {
    hide P.PlanOk, S.Blocks;
    ChunkOnGrid(source, plan, lanes, chunkSize, g);
    assert (g + 1) * chunkSize == g * chunkSize + chunkSize;
  }

  /** Packet `n` of stripe `i` carries the chunk with the global index that the striping names. */
  lemma LaneNames(source: seq<Byte>, plan: P.Plan, lanes: nat, chunkSize: nat, i: nat, n: nat)
    requires P.PlanOk(source, |source|, plan) && S.Blocks(plan, lanes, chunkSize) && i < lanes
    requires n < |plan.lanes[i]|
    ensures |plan.lanes[i]| <= |plan.sent[i]| && B.Global(i, n, lanes) < |plan.chunks|
    ensures var c := plan.chunks[B.Global(i, n, lanes)]; plan.sent[i][n] == Data(n, c.offset, c.payload)
  {
    hide B.Global, B.Stripe, B.Seq, B.CountOn, R.Cuts;
    var g := plan.lanes[i][n];
    assert plan.homes[g] == P.Home(i, n);
    assert P.PacketOk(plan.chunks, |source|, plan.lanes[i], plan.sent[i], n);
    B.StripeThenGlobal(g, lanes);
  }

  lemma CountedOn(plan: P.Plan, lanes: nat, chunkSize: nat, i: nat)
    requires S.Blocks(plan, lanes, chunkSize) && i < lanes
    ensures |plan.lanes| == lanes && |plan.lanes[i]| == B.CountOn(i, |plan.chunks|, lanes)
  {
  }

  lemma SentInFull(source: seq<Byte>, plan: P.Plan, i: nat)
    requires P.PlanOk(source, |source|, plan) && i < |plan.lanes|
    ensures |plan.sent| == |plan.lanes| && |plan.lanes[i]| <= |plan.sent[i]|
  {
    hide P.HomesOk, P.PacketOk, R.Cuts;
  }

  /** How many packets the striped sender puts on a stripe. */
  lemma LaneLength(source: seq<Byte>, plan: P.Plan, l: Lane)
    requires P.PlanOk(source, |source|, plan) && S.Blocks(plan, l.stripes, l.chunkSize)
    requires LaneOk(l) && l.source == source
    ensures |plan.lanes[l.stripe]| == Packets(l) <= |plan.sent[l.stripe]|
  {
    hide P.PlanOk, S.Blocks, B.CountOn, B.DataPacketsForStripe;
    CountedOn(plan, l.stripes, l.chunkSize, l.stripe);
    SentInFull(source, plan, l.stripe);
    ChunkCount(source, plan, l.stripes, l.chunkSize);
    B.BytesToPackets(|source|, l.chunkSize, l.stripes, l.stripe);
  }

  /** What the striped sender puts on a stripe is exactly the lane that parity is about. */
  lemma LaneCarries(source: seq<Byte>, plan: P.Plan, l: Lane, n: nat)
    requires P.PlanOk(source, |source|, plan) && S.Blocks(plan, l.stripes, l.chunkSize)
    requires LaneOk(l) && l.source == source
    ensures |plan.lanes[l.stripe]| == Packets(l)
    ensures n < Packets(l) ==> n < |plan.sent[l.stripe]| && plan.sent[l.stripe][n] == Data(n, Off(l, n), Payload(l, n))
  {
    hide Packets, P.PlanOk, S.Blocks, B.Global;
    LaneLength(source, plan, l);
    if n < Packets(l) {
      LaneNames(source, plan, l.stripes, l.chunkSize, l.stripe, n);
      ChunkIs(source, plan, l.stripes, l.chunkSize, B.Global(l.stripe, n, l.stripes));
    }
  }

  lemma StripePackets(source: seq<Byte>, plan: P.Plan, l: Lane, packets: seq<Packet>)
    requires P.PlanOk(source, |source|, plan) && S.Blocks(plan, l.stripes, l.chunkSize)
    requires LaneOk(l) && l.source == source && packets == plan.sent[l.stripe][..|plan.lanes[l.stripe]|]
    ensures |packets| == Packets(l)
    ensures forall n :: 0 <= n < |packets| ==> packets[n] == Data(n, Off(l, n), Payload(l, n))
  {
    hide P.PlanOk, S.Blocks, Packets, Off, Payload;
    LaneLength(source, plan, l);
    forall n | 0 <= n < |packets|
      ensures packets[n] == Data(n, Off(l, n), Payload(l, n))
    {
      LaneCarries(source, plan, l, n);
    }
  }

  lemma CoversNone(l: Lane)
    requires LaneOk(l)
    ensures Covers(l, [], 0)
  {
  }

  /** The parity packets of the groups that end at or before packet `next`, in order. */
  ghost predicate Covers(l: Lane, parity: seq<ParityPacket>, next: nat)
    requires LaneOk(l)
  {
    && |parity| * l.groupSize == next
    && (forall g :: 0 <= g < |parity| ==> IsParity(l, g * l.groupSize, parity[g]))
  }

  /** Every group of the lane has its parity packet and there is no other. */
  ghost predicate CoversAll(l: Lane, parity: seq<ParityPacket>)
    requires LaneOk(l)
  {
    && |parity| == (Packets(l) + l.groupSize - 1) / l.groupSize
    && (forall g :: 0 <= g < |parity| ==> IsParity(l, g * l.groupSize, parity[g]))
  }

  lemma CoversMore(l: Lane, parity: seq<ParityPacket>, next: nat, p: ParityPacket)
    requires LaneOk(l) && Covers(l, parity, next) && IsParity(l, next, p)
    ensures Covers(l, parity + [p], next + l.groupSize)
  {
    hide IsParity;
    assert (|parity| + 1) * l.groupSize == |parity| * l.groupSize + l.groupSize;
  }

  lemma CoversEnd(l: Lane, parity: seq<ParityPacket>, next: nat, count: nat)
    requires LaneOk(l) && Covers(l, parity, next) && count < l.groupSize && next + count == Packets(l)
    ensures count == 0 ==> CoversAll(l, parity)
    ensures forall p :: count > 0 && IsParity(l, next, p) ==> CoversAll(l, parity + [p])
  {
    hide IsParity, Packets;
    if count == 0 {
      DivMod(Packets(l) + l.groupSize - 1, l.groupSize, |parity|, l.groupSize - 1);
    } else {
      assert (|parity| + 1) * l.groupSize == |parity| * l.groupSize + l.groupSize;
      DivMod(Packets(l) + l.groupSize - 1, l.groupSize, |parity| + 1, count - 1);
    }
  }

  /** Runs the packets that the striped sender put on a stripe through the stripe's group. */
  method ProtectStripe(ghost source: seq<Byte>, ghost plan: P.Plan, ghost l: Lane, group: ParityGroup,
                       packets: seq<Packet>)
    returns (parity: seq<ParityPacket>)
    requires P.PlanOk(source, |source|, plan) && S.Blocks(plan, l.stripes, l.chunkSize)
    requires group.Valid(l) && l.source == source && group.next == 0
    requires packets == plan.sent[l.stripe][..|plan.lanes[l.stripe]|]
    modifies group, group.parity
    ensures CoversAll(l, parity)
  {
    hide P.PlanOk, S.Blocks, Packets, Off, Payload, Covers, CoversAll, IsParity, XorAll;
    StripePackets(source, plan, l, packets);
    parity := [];
    CoversNone(l);
    for n := 0 to |packets|
      invariant group.Valid(l) && group.next == n
      invariant Covers(l, parity, n - group.count)
    {
      var p := group.Record(l, n, packets[n].offset, packets[n].payload);
      if p.Some? {
        CoversMore(l, parity, n + 1 - group.groupSize, p.value);
        parity := parity + [p.value];
      }
    }
    CoversEnd(l, parity, group.next - group.count, group.count);
    var p := group.Flush(l);
    if p.Some? {
      parity := parity + [p.value];
    }
  }
}

/** Block striping: a packet's stripe is chosen from its offset in blocks of 128 packets,
    its sequence number is a counter kept per stripe. */
module BlockStriping {
  import opened Arithmetic

  const BlockPackets: nat := 128
  const DefaultChunkSize: nat := 1400

  function ChunkOrDefault(chunkSize: int): nat {
    if chunkSize <= 0 then DefaultChunkSize else chunkSize
  }

  // ----- What the sender and the receiver compute -----

  function LaneIndexForOffset(offset: nat, lanes: int, chunkSize: int): nat {
    if lanes <= 1 then 0 else (offset / (BlockPackets * ChunkOrDefault(chunkSize))) % lanes
  }

  function FECOffsetForSeq(startOffset: nat, startSeq: nat, n: nat, chunkSize: int, totalStripes: int): int {
    if n <= startSeq then startOffset
    else if totalStripes <= 1 then startOffset + (n - startSeq) * ChunkOrDefault(chunkSize)
    else
      var deltaPackets := (n / BlockPackets - startSeq / BlockPackets) * BlockPackets * totalStripes
                          + n % BlockPackets - startSeq % BlockPackets;
      startOffset + deltaPackets * ChunkOrDefault(chunkSize)
  }

  function DataPacketsForStripe(totalBytes: nat, chunkSize: int, totalStripes: int, stripe: nat): nat {
    if totalBytes == 0 || totalStripes <= 0 || stripe >= totalStripes then 0
    else
      var chunk := ChunkOrDefault(chunkSize);
      PacketsForStripe((totalBytes + chunk - 1) / chunk, totalStripes, stripe)
  }

  function PacketsForStripe(packets: nat, totalStripes: nat, stripe: nat): nat
    requires stripe < totalStripes
  {
    var cycle := BlockPackets * totalStripes;
    InCycles(packets / cycle, packets % cycle, stripe * BlockPackets)
  }

  /** The packets of a stripe whose block starts at `start`, after whole cycles and a rest. */
  function InCycles(cycles: nat, remaining: nat, start: nat): nat {
    var count := cycles * BlockPackets;
    if remaining <= start then count
    else if remaining - start > BlockPackets then count + BlockPackets
    else count + remaining - start
  }

  // ----- The striping itself -----

  /** Stripe and sequence number of global packet `g`, and the way back. */
  function Stripe(g: nat, stripes: nat): nat
    requires stripes > 0
  {
    (g / BlockPackets) % stripes
  }

  function Seq(g: nat, stripes: nat): nat
    requires stripes > 0
  {
    (g / BlockPackets / stripes) * BlockPackets + g % BlockPackets
  }

  function Global(stripe: nat, n: nat, stripes: nat): nat {
    ((n / BlockPackets) * stripes + stripe) * BlockPackets + n % BlockPackets
  }

  /** How many of the first `g` packets go to a stripe. */
  function CountOn(stripe: nat, g: nat, stripes: nat): nat
    requires stripes > 0
  {
    if g == 0 then 0 else CountOn(stripe, g - 1, stripes) + (if Stripe(g - 1, stripes) == stripe then 1 else 0)
  }

  // ----- Division -----

  lemma BlockOf(q: nat, r: nat)
    requires r < BlockPackets
    ensures (q * BlockPackets + r) / BlockPackets == q && (q * BlockPackets + r) % BlockPackets == r
  {
    DivMod(q * BlockPackets + r, BlockPackets, q, r);
  }

  // ----- The bijection -----

  /** Packet (stripe, n) has exactly one global index. */
  lemma GlobalThenStripe(stripe: nat, n: nat, stripes: nat)
    requires stripe < stripes
    ensures Stripe(Global(stripe, n, stripes), stripes) == stripe && Seq(Global(stripe, n, stripes), stripes) == n
  {
    var block := (n / BlockPackets) * stripes + stripe;
    BlockOf(block, n % BlockPackets);
    DivMod(block, stripes, n / BlockPackets, stripe);
  }

  lemma StripeThenGlobal(g: nat, stripes: nat)
    requires stripes > 0
    ensures Stripe(g, stripes) < stripes && Global(Stripe(g, stripes), Seq(g, stripes), stripes) == g
  {
    BlockOf(g / BlockPackets / stripes, g % BlockPackets);
  }

  // ----- The counters -----

  /** Counting one packet more, in the block of stripe `lane`. */
  lemma OneMore(q: nat, lane: nat, within: nat, stripe: nat, stripes: nat)
    requires within < BlockPackets && lane < stripes && stripe < stripes
    ensures var r, one := lane * BlockPackets + within, if lane == stripe then 1 else 0;
            && InCycles(q, r + 1, stripe * BlockPackets) == InCycles(q, r, stripe * BlockPackets) + one
            && (r + 1 == BlockPackets * stripes ==>
                  InCycles(q + 1, 0, stripe * BlockPackets) == InCycles(q, r, stripe * BlockPackets) + one)
            && (lane == stripe ==> InCycles(q, r, stripe * BlockPackets) == q * BlockPackets + within)
  {
    LanesApart(lane, stripe);
    LanesApart(stripe, stripes);
  }

  /** The closed form agrees with counting, one packet at a time, and before a packet of
      its own a stripe has as many as that packet's sequence number. */
  lemma ClosedFormStep(stripe: nat, g: nat, stripes: nat)
    requires stripe < stripes
    ensures PacketsForStripe(g + 1, stripes, stripe)
            == PacketsForStripe(g, stripes, stripe) + (if Stripe(g, stripes) == stripe then 1 else 0)
    ensures Stripe(g, stripes) == stripe ==> PacketsForStripe(g, stripes, stripe) == Seq(g, stripes)
  {
    hide InCycles, Stripe, Seq;
    var cycle := BlockPackets * stripes;
    CycleOf(g, stripes);
    NextInCycle(g, cycle);
    SeqIs(g, stripes);
    OneMore(g / cycle, Stripe(g, stripes), g % BlockPackets, stripe, stripes);
  }

  lemma SeqIs(g: nat, stripes: nat)
    requires stripes > 0
    ensures Stripe(g, stripes) < stripes
            && Seq(g, stripes) == (g / BlockPackets / stripes) * BlockPackets + g % BlockPackets
  {
  }

  lemma NextInCycle(g: nat, cycle: nat)
    requires cycle > 0
    ensures g % cycle + 1 < cycle ==> (g + 1) / cycle == g / cycle && (g + 1) % cycle == g % cycle + 1
    ensures g % cycle + 1 == cycle ==> (g + 1) / cycle == g / cycle + 1 && (g + 1) % cycle == 0
  {
    var q, r := g / cycle, g % cycle;
    assert g == q * cycle + r;
    if r + 1 < cycle {
      DivMod(g + 1, cycle, q, r + 1);
    } else {
      assert (q + 1) * cycle == q * cycle + cycle;
      DivMod(g + 1, cycle, q + 1, 0);
    }
  }

  /** Within its cycle, packet `g` lies in the block of its stripe. */
  lemma CycleOf(g: nat, stripes: nat)
    requires stripes > 0
    ensures var cycle := BlockPackets * stripes;
            && g / cycle == g / BlockPackets / stripes
            && g % cycle == Stripe(g, stripes) * BlockPackets + g % BlockPackets
  {
    var block := g / BlockPackets;
    var q, lane, within := block / stripes, block % stripes, g % BlockPackets;
    assert g == (q * stripes + lane) * BlockPackets + within;
    assert g == q * (BlockPackets * stripes) + (lane * BlockPackets + within);
    assert lane * BlockPackets + within < BlockPackets * stripes by { LanesApart(lane, stripes); }
    DivMod(g, BlockPackets * stripes, q, lane * BlockPackets + within);
  }

  lemma LanesApart(a: nat, b: nat)
    ensures a < b ==> a * BlockPackets + BlockPackets <= b * BlockPackets
    ensures b < a ==> b * BlockPackets + BlockPackets <= a * BlockPackets
  {
  }

  /** The closed form is the count. */
  lemma {:induction false} ClosedFormCounts(stripe: nat, g: nat, stripes: nat)
    requires stripe < stripes
    ensures PacketsForStripe(g, stripes, stripe) == CountOn(stripe, g, stripes)
  {
    if g == 0 {
      DivMod(0, BlockPackets * stripes, 0, 0);
    } else {
      ClosedFormCounts(stripe, g - 1, stripes);
      ClosedFormStep(stripe, g - 1, stripes);
    }
  }

  /** A counter per stripe gives every packet the sequence number of the bijection. */
  lemma CounterIsSeq(g: nat, stripes: nat)
    requires stripes > 0
    ensures CountOn(Stripe(g, stripes), g, stripes) == Seq(g, stripes)
  {
    ClosedFormCounts(Stripe(g, stripes), g, stripes);
    ClosedFormStep(Stripe(g, stripes), g, stripes);
  }

  /** The counts of the first `k` stripes. */
  function SumCounts(k: nat, g: nat, stripes: nat): nat
    requires stripes > 0
  {
    if k == 0 then 0 else SumCounts(k - 1, g, stripes) + CountOn(k - 1, g, stripes)
  }

  lemma {:induction false} SumStep(k: nat, g: nat, stripes: nat)
    requires stripes > 0
    ensures SumCounts(k, g + 1, stripes) == SumCounts(k, g, stripes) + (if Stripe(g, stripes) < k then 1 else 0)
  {
    if k > 0 {
      SumStep(k - 1, g, stripes);
    }
  }

  /** The stripes share the packets out: their counts add up to the total. */
  lemma {:induction false} CountsAddUp(g: nat, stripes: nat)
    requires stripes > 0
    ensures SumCounts(stripes, g, stripes) == g
  {
    if g == 0 {
      NothingCounted(stripes, stripes);
    } else {
      CountsAddUp(g - 1, stripes);
      SumStep(stripes, g - 1, stripes);
    }
  }

  lemma {:induction false} NothingCounted(k: nat, stripes: nat)
    requires stripes > 0
    ensures SumCounts(k, 0, stripes) == 0
  {
    if k > 0 {
      NothingCounted(k - 1, stripes);
    }
  }

  // ----- Offsets -----

  /** With uniform chunks the offset names the stripe of the bijection. */
  lemma OffsetNamesStripe(g: nat, lanes: nat, chunkSize: nat)
    requires lanes > 0 && chunkSize > 0
    ensures LaneIndexForOffset(g * chunkSize, lanes, chunkSize) == Stripe(g, lanes)
  {
    var block, within := g / BlockPackets, g % BlockPackets;
    assert within * chunkSize + chunkSize <= BlockPackets * chunkSize by { WithinBlock(within, chunkSize); }
    assert g * chunkSize == block * (BlockPackets * chunkSize) + within * chunkSize
           by { Spread(block, within, chunkSize); }
    DivMod(g * chunkSize, BlockPackets * chunkSize, block, within * chunkSize);
    if lanes == 1 {
      DivMod(block, 1, block, 0);
    }
  }

  lemma LaneInRange(offset: nat, lanes: nat, chunkSize: int)
    requires lanes > 0
    ensures LaneIndexForOffset(offset, lanes, chunkSize) < lanes
  {
  }

  lemma WithinBlock(within: nat, chunkSize: nat)
    requires within < BlockPackets
    ensures within * chunkSize + chunkSize <= BlockPackets * chunkSize
  {
    var rest := BlockPackets - within - 1;
    assert BlockPackets * chunkSize == (within + 1 + rest) * chunkSize
        == within * chunkSize + chunkSize + rest * chunkSize;
  }

  lemma Spread(block: nat, within: nat, chunkSize: nat)
    ensures (block * BlockPackets + within) * chunkSize == block * (BlockPackets * chunkSize) + within * chunkSize
  {
  }

  /** Knowing where one packet of a stripe starts, the receiver can tell where any later
      packet of that stripe starts. */
  lemma OffsetRecovered(stripe: nat, startSeq: nat, n: nat, chunkSize: nat, stripes: nat)
    requires stripe < stripes && chunkSize > 0 && startSeq <= n
    ensures FECOffsetForSeq(Global(stripe, startSeq, stripes) * chunkSize, startSeq, n, chunkSize, stripes)
            == Global(stripe, n, stripes) * chunkSize
  {
    var from, to := Global(stripe, startSeq, stripes), Global(stripe, n, stripes);
    var delta := (n / BlockPackets - startSeq / BlockPackets) * BlockPackets * stripes
                 + n % BlockPackets - startSeq % BlockPackets;
    GlobalDelta(stripe, startSeq / BlockPackets, startSeq % BlockPackets, n / BlockPackets, n % BlockPackets, stripes);
    assert to - from == delta;
    assert from * chunkSize + delta * chunkSize == to * chunkSize;
    if stripes == 1 {
      assert delta == n - startSeq;
    }
  }

  lemma GlobalDelta(stripe: nat, b0: nat, w0: nat, b1: nat, w1: nat, stripes: nat)
    ensures ((b1 * stripes + stripe) * BlockPackets + w1) - ((b0 * stripes + stripe) * BlockPackets + w0)
            == (b1 - b0) * BlockPackets * stripes + w1 - w0
  {
  }

  /** The closed form for a byte count counts the packets that uniform cutting yields. */
  lemma BytesToPackets(totalBytes: nat, chunkSize: nat, stripes: nat, stripe: nat)
    requires chunkSize > 0 && stripe < stripes
    ensures var packets := (totalBytes + chunkSize - 1) / chunkSize;
            DataPacketsForStripe(totalBytes, chunkSize, stripes, stripe) == CountOn(stripe, packets, stripes)
  {
    var packets := (totalBytes + chunkSize - 1) / chunkSize;
    if totalBytes == 0 {
      DivMod(chunkSize - 1, chunkSize, 0, chunkSize - 1);
    } else {
      ClosedFormCounts(stripe, packets, stripes);
    }
  }

  lemma {:induction false} CountGrows(stripe: nat, g: nat, h: nat, stripes: nat)
    requires stripes > 0 && g <= h
    ensures CountOn(stripe, g, stripes) <= CountOn(stripe, h, stripes)
    decreases h
  {
    if g < h {
      CountGrows(stripe, g, h - 1, stripes);
    }
  }

  /** A stripe has a packet `n` exactly if its global index is among the first `g`. */
  lemma HasPacket(stripe: nat, n: nat, g: nat, stripes: nat)
    requires stripe < stripes
    ensures n < CountOn(stripe, g, stripes) <==> Global(stripe, n, stripes) < g
  {
    var index := Global(stripe, n, stripes);
    GlobalThenStripe(stripe, n, stripes);
    CounterIsSeq(index, stripes);
    hide Global, Stripe, Seq;
    if index < g {
      CountGrows(stripe, index + 1, g, stripes);
    } else {
      CountGrows(stripe, g, index, stripes);
    }
  }

  /** Later packets of a stripe have later global indexes. */
  lemma GlobalGrows(stripe: nat, n: nat, m: nat, stripes: nat)
    requires stripe < stripes && n < m
    ensures Global(stripe, n, stripes) < Global(stripe, m, stripes)
  {
    var b0, w0, b1, w1 := n / BlockPackets, n % BlockPackets, m / BlockPackets, m % BlockPackets;
    GlobalDelta(stripe, b0, w0, b1, w1, stripes);
    assert b0 <= b1;
    if b0 < b1 {
      AtLeast(b1 - b0, BlockPackets * stripes);
      assert (b1 - b0) * (BlockPackets * stripes) == (b1 - b0) * BlockPackets * stripes;
    }
  }
}

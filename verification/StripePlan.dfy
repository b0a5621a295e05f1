/** How one source is spread over stripes, and what a striped receiver that has accepted
    part of it must look like. */
module StripePlan {
  import opened Sets
  import opened Bits
  import opened Lanes
  import opened Reassembly
  import opened StripedTransport

  /** Where a chunk went: which stripe and under which sequence number. */
  datatype Home = Home(stripe: nat, k: nat)

  /** Everything the sender ever cut and sent: the chunks in source order with their
      homes, per stripe the chunks it carries, and per stripe the packets put on it. */
  datatype Plan = Plan(
    chunks: seq<Chunk>,
    homes: seq<Home>,
    lanes: seq<seq<nat>>,
    sent: seq<seq<Packet>>)

  /** The plan after packet `p` was put on stripe `i`. */
  function Planned(plan: Plan, i: nat, p: Packet): Plan
    requires i < |plan.lanes| == |plan.sent|
  {
    var sent := plan.sent[i := plan.sent[i] + [p]];
    match p
    case Data(k, offset, payload) =>
      Plan(plan.chunks + [Chunk(offset, payload)], plan.homes + [Home(i, k)],
           plan.lanes[i := plan.lanes[i] + [|plan.chunks|]], sent)
    case Done(_, _) => plan.(sent := sent)
  }

  // ----- The plan and what the receiver made of it -----

  /** Packet `k` of a stripe carries the chunk the stripe's lane names, or is its DONE. */
  ghost predicate PacketOk(chunks: seq<Chunk>, total: nat, lane: seq<nat>, sent: seq<Packet>, k: nat)
    requires k < |sent|
  {
    if k < |lane| then
      lane[k] < |chunks| && sent[k] == Data(k, chunks[lane[k]].offset, chunks[lane[k]].payload)
    else k == |lane| && sent[k] == Done(k, total)
  }

  ghost predicate LaneOk(chunks: seq<Chunk>, total: nat, lane: seq<nat>, sent: seq<Packet>) {
    && |lane| <= |sent|
    && (forall k :: 0 <= k < |sent| ==> PacketOk(chunks, total, lane, sent, k))
  }

  /** Homes and lanes are inverse to each other. */
  ghost predicate HomesOk(chunks: seq<Chunk>, homes: seq<Home>, lanes: seq<seq<nat>>) {
    && |homes| == |chunks|
    && (forall g :: 0 <= g < |homes| ==>
          homes[g].stripe < |lanes| && homes[g].k < |lanes[homes[g].stripe]| && lanes[homes[g].stripe][homes[g].k] == g)
    && (forall i, k :: 0 <= i < |lanes| && 0 <= k < |lanes[i]| ==>
          lanes[i][k] < |homes| && homes[lanes[i][k]] == Home(i, k))
  }

  ghost predicate PlanOk(source: seq<Byte>, end: nat, plan: Plan) {
    && |plan.lanes| == |plan.sent|
    && Cuts(plan.chunks, source, end)
    && HomesOk(plan.chunks, plan.homes, plan.lanes)
    && (forall i :: 0 <= i < |plan.sent| ==> LaneOk(plan.chunks, |source|, plan.lanes[i], plan.sent[i]))
  }

  /** One stripe of the receiver; `low` bounds its buffer from below. */
  ghost predicate StripeOk(stripe: RecvStripe, lane: seq<nat>, sent: seq<Packet>, low: nat) {
    && stripe.expected <= |sent|
    && BufferOk(stripe.buffered, sent, low)
    && (stripe.done <==> stripe.expected == |lane| + 1)
  }

  /** The chunks that the stripes have accepted. */
  ghost function Taken(homes: seq<Home>, stripes: seq<RecvStripe>): set<nat>
  {
    set g | 0 <= g < |homes| && homes[g].stripe < |stripes| && homes[g].k < stripes[homes[g].stripe].expected
  }

  ghost function DoneStripes(stripes: seq<RecvStripe>): set<nat> {
    set i | 0 <= i < |stripes| && stripes[i].done
  }

  ghost predicate TotalsOk(total: nat, r: Receiver) {
    && r.completed == |DoneStripes(r.stripes)|
    && (r.finalTotal.Some? ==> r.finalTotal.value == total)
    && (DoneStripes(r.stripes) != {} ==> r.finalTotal.Some?)
  }

  ghost predicate BufferedOk(source: seq<Byte>, end: nat, plan: Plan, r: Receiver) {
    exists w :: w !in Taken(plan.homes, r.stripes)
                && Holds(plan.chunks, source, end, Taken(plan.homes, r.stripes), w, r.buffer)
  }

  /** The receiver between two acceptances. */
  ghost predicate Accepting(source: seq<Byte>, end: nat, plan: Plan, r: Receiver) {
    && |r.stripes| == |plan.sent| == |plan.lanes|
    && (forall i :: 0 <= i < |r.stripes| ==> StripeOk(r.stripes[i], plan.lanes[i], plan.sent[i], r.stripes[i].expected))
    && TotalsOk(|source|, r)
    && BufferedOk(source, end, plan, r)
  }

  /** A later state of the receiver: no stripe loses what it holds, the output only grows. */
  ghost predicate Onward(r: Receiver, r': Receiver) {
    && |r.stripes| == |r'.stripes|
    && r.buffer.out <= r'.buffer.out
    && (forall i :: 0 <= i < |r.stripes| ==>
          Later(r.stripes[i].expected, r.stripes[i].buffered, r'.stripes[i].expected, r'.stripes[i].buffered))
  }

  lemma OnwardSelf(r: Receiver)
    ensures Onward(r, r)
  {
  }

  lemma OnwardTrans(a: Receiver, b: Receiver, c: Receiver)
    requires Onward(a, b) && Onward(b, c)
    ensures Onward(a, c)
  {
    hide Later;
    forall i | 0 <= i < |a.stripes|
      ensures Later(a.stripes[i].expected, a.stripes[i].buffered, c.stripes[i].expected, c.stripes[i].buffered)
    {
      LaterTrans(a.stripes[i].expected, a.stripes[i].buffered, b.stripes[i].expected, b.stripes[i].buffered,
                 c.stripes[i].expected, c.stripes[i].buffered);
    }
  }

  lemma PacketAt(source: seq<Byte>, end: nat, plan: Plan, i: nat, k: nat)
    requires PlanOk(source, end, plan) && i < |plan.sent| && k < |plan.sent[i]|
    ensures |plan.lanes[i]| <= |plan.sent[i]| && PacketOk(plan.chunks, |source|, plan.lanes[i], plan.sent[i], k)
  {
    hide PacketOk;
    assert LaneOk(plan.chunks, |source|, plan.lanes[i], plan.sent[i]);
  }

  // ----- Accepting one packet -----

  /** Accepting the DATA packet that stripe `i` expects takes exactly its chunk. */
  lemma TakenGrows(plan: Plan, stripes: seq<RecvStripe>, i: nat, stripe': RecvStripe, g: nat)
    requires HomesOk(plan.chunks, plan.homes, plan.lanes) && |stripes| == |plan.lanes| && i < |stripes|
    requires stripe'.expected == stripes[i].expected + 1
    requires stripes[i].expected < |plan.lanes[i]| && g == plan.lanes[i][stripes[i].expected]
    ensures g !in Taken(plan.homes, stripes) && g < |plan.chunks|
    ensures Taken(plan.homes, stripes[i := stripe']) == Taken(plan.homes, stripes) + {g}
  {
    var stripes' := stripes[i := stripe'];
    forall h
      ensures h in Taken(plan.homes, stripes') <==> h in Taken(plan.homes, stripes) + {g}
    {
      if 0 <= h < |plan.homes| && plan.homes[h] == Home(i, stripes[i].expected) {
        assert h == g;
      }
    }
  }

  /** Accepting a DONE takes no chunk. */
  lemma TakenStays(plan: Plan, stripes: seq<RecvStripe>, i: nat, stripe': RecvStripe)
    requires HomesOk(plan.chunks, plan.homes, plan.lanes) && |stripes| == |plan.lanes| && i < |stripes|
    requires stripe'.expected == stripes[i].expected
             || (stripe'.expected == stripes[i].expected + 1 && stripes[i].expected >= |plan.lanes[i]|)
    ensures Taken(plan.homes, stripes[i := stripe']) == Taken(plan.homes, stripes)
  {
  }

  lemma BufferedData(source: seq<Byte>, end: nat, plan: Plan, r: Receiver, i: nat, stripe': RecvStripe, b': Buffer)
    requires PlanOk(source, end, plan) && |r.stripes| == |plan.sent| && i < |r.stripes|
    requires BufferedOk(source, end, plan, r)
    requires r.stripes[i].expected < |plan.lanes[i]| <= |plan.sent[i]|
    requires stripe'.expected == r.stripes[i].expected + 1
    requires var p := plan.sent[i][r.stripes[i].expected];
             p.Data? && b' == Accept(r.buffer, p.offset, p.payload)
    ensures BufferedOk(source, end, plan, r.(stripes := r.stripes[i := stripe'], buffer := b'))
    ensures r.buffer.out <= b'.out
  {
    hide Cuts, Holds, HomesOk, Accept, Taken;
    var k := r.stripes[i].expected;
    var w :| w !in Taken(plan.homes, r.stripes)
             && Holds(plan.chunks, source, end, Taken(plan.homes, r.stripes), w, r.buffer);
    assert LaneOk(plan.chunks, |source|, plan.lanes[i], plan.sent[i])
           && PacketOk(plan.chunks, |source|, plan.lanes[i], plan.sent[i], k);
    var g := plan.lanes[i][k];
    TakenGrows(plan, r.stripes, i, stripe', g);
    var w' := AcceptHolds(plan.chunks, source, end, Taken(plan.homes, r.stripes), w, r.buffer, g);
    OutputsNest(plan.chunks, source, end, Taken(plan.homes, r.stripes), w, r.buffer,
                Taken(plan.homes, r.stripes) + {g}, w', b');
  }

  lemma OutputsNest(chunks: seq<Chunk>, source: seq<Byte>, end: nat, a: set<nat>, w: nat, b: Buffer,
                    a': set<nat>, w': nat, b': Buffer)
    requires Cuts(chunks, source, end) && Holds(chunks, source, end, a, w, b) && Holds(chunks, source, end, a', w', b')
    requires w <= w'
    ensures b.out <= b'.out <= source
  {
    hide Cuts, Waiting;
    if w < w' {
      OffsetsIncrease(chunks, source, end, w, w');
    }
  }

  lemma BufferedDone(source: seq<Byte>, end: nat, plan: Plan, r: Receiver, i: nat, stripe': RecvStripe)
    requires PlanOk(source, end, plan) && BufferedOk(source, end, plan, r)
    requires |r.stripes| == |plan.lanes| && i < |r.stripes|
    requires stripe'.expected == r.stripes[i].expected
             || (stripe'.expected == r.stripes[i].expected + 1 && r.stripes[i].expected >= |plan.lanes[i]|)
    ensures BufferedOk(source, end, plan, r.(stripes := r.stripes[i := stripe']))
  {
    hide Holds, Cuts, Taken;
    TakenStays(plan, r.stripes, i, stripe');
  }

  lemma SameBuffered(source: seq<Byte>, end: nat, plan: Plan, r: Receiver, r': Receiver)
    requires BufferedOk(source, end, plan, r) && r'.stripes == r.stripes && r'.buffer == r.buffer
    ensures BufferedOk(source, end, plan, r')
  {
  }

  /** Stripe `i` moves on by one packet. */
  ghost predicate Moves(stripe: RecvStripe, stripe': RecvStripe) {
    && stripe'.expected == stripe.expected + 1
    && stripe'.buffered.Keys == stripe.buffered.Keys - {stripe.expected}
    && (forall n :: n in stripe'.buffered ==> stripe'.buffered[n] == stripe.buffered[n])
  }

  lemma MovesSame(a: RecvStripe, b: RecvStripe, c: RecvStripe)
    requires Moves(a, b) && c.expected == b.expected && c.buffered == b.buffered
    ensures Moves(a, c)
  {
  }

  lemma StripeMoves(stripe: RecvStripe, stripe': RecvStripe, lane: seq<nat>, sent: seq<Packet>)
    requires StripeOk(stripe, lane, sent, stripe.expected) && Moves(stripe, stripe')
    requires stripe.expected < |sent| && (stripe'.done <==> stripe.expected == |lane|)
    ensures StripeOk(stripe', lane, sent, stripe'.expected)
    ensures Later(stripe.expected, stripe.buffered, stripe'.expected, stripe'.buffered)
  {
    hide BufferOk, InReach, Later;
    BufferAfter(stripe.expected, stripe.buffered, sent, stripe'.buffered);
  }

  lemma OneStripeMoves(source: seq<Byte>, end: nat, plan: Plan, r: Receiver, i: nat, r': Receiver)
    requires Accepting(source, end, plan, r) && i < |r.stripes|
    requires |r'.stripes| == |r.stripes| && r'.stripes == r.stripes[i := r'.stripes[i]]
    requires StripeOk(r'.stripes[i], plan.lanes[i], plan.sent[i], r'.stripes[i].expected)
    requires Later(r.stripes[i].expected, r.stripes[i].buffered, r'.stripes[i].expected, r'.stripes[i].buffered)
    requires TotalsOk(|source|, r') && BufferedOk(source, end, plan, r') && r.buffer.out <= r'.buffer.out
    ensures Accepting(source, end, plan, r') && Onward(r, r')
  {
    hide StripeOk, TotalsOk, BufferedOk, Later;
    forall j | 0 <= j < |r.stripes|
      ensures Later(r.stripes[j].expected, r.stripes[j].buffered, r'.stripes[j].expected, r'.stripes[j].buffered)
      ensures StripeOk(r'.stripes[j], plan.lanes[j], plan.sent[j], r'.stripes[j].expected)
    {
      if j != i {
        assert r'.stripes[j] == r.stripes[j];
        LaterSelf(r.stripes[j]);
      }
    }
  }

  lemma LaterSelf(stripe: RecvStripe)
    ensures Later(stripe.expected, stripe.buffered, stripe.expected, stripe.buffered)
  {
  }

  lemma DoneStripesStay(stripes: seq<RecvStripe>, i: nat, stripe': RecvStripe)
    requires i < |stripes| && stripe'.done == stripes[i].done
    ensures DoneStripes(stripes[i := stripe']) == DoneStripes(stripes)
  {
  }

  lemma DoneStripesGrow(stripes: seq<RecvStripe>, i: nat, stripe': RecvStripe)
    requires i < |stripes| && stripe'.done && !stripes[i].done
    ensures DoneStripes(stripes[i := stripe']) == DoneStripes(stripes) + {i} && i !in DoneStripes(stripes)
  {
  }

  /** Accepting the packet that stripe `i` expects, once it is out of the buffer: the DONE
      packets never disagree, and the receiver stays exact. */
  lemma AcceptNext(source: seq<Byte>, end: nat, plan: Plan, r: Receiver, i: nat, r0: Receiver)
    requires PlanOk(source, end, plan) && Accepting(source, end, plan, r)
    requires i < |r.stripes| && r.stripes[i].expected < |plan.sent[i]|
    requires |r0.stripes| == |r.stripes| && r0 == r.(stripes := r.stripes[i := r0.stripes[i]])
    requires r0.stripes[i].expected == r.stripes[i].expected && r0.stripes[i].done == r.stripes[i].done
    requires Moves(r.stripes[i], r0.stripes[i].(expected := r.stripes[i].expected + 1))
    ensures var result := AcceptPacket(r0, i, plan.sent[i][r.stripes[i].expected]);
            && result.Ok?
            && Accepting(source, end, plan, result.receiver) && Onward(r, result.receiver)
            && result.receiver.stripes[i].expected == r.stripes[i].expected + 1
            && result.receiver.stripes[i].buffered == r0.stripes[i].buffered
            && (forall j :: 0 <= j < |r.stripes| && j != i ==> result.receiver.stripes[j] == r.stripes[j])
  {
    hide PlanOk, BufferedOk, Accept, BufferOk, InReach, Later, Moves;
    var stripe, k := r.stripes[i], r.stripes[i].expected;
    var p := plan.sent[i][k];
    PacketAt(source, end, plan, i, k);
    var stripe' := r0.stripes[i].(expected := k + 1, done := p.Done? || stripe.done);
    MovesSame(stripe, r0.stripes[i].(expected := k + 1), stripe');
    StripeMoves(stripe, stripe', plan.lanes[i], plan.sent[i]);
    var r' := AcceptPacket(r0, i, p).receiver;
    assert r'.stripes == r.stripes[i := stripe'];
    if p.Data? {
      BufferedData(source, end, plan, r, i, stripe', r'.buffer);
      SameBuffered(source, end, plan, r.(stripes := r.stripes[i := stripe'], buffer := r'.buffer), r');
      DoneStripesStay(r.stripes, i, stripe');
    } else {
      BufferedDone(source, end, plan, r, i, stripe');
      SameBuffered(source, end, plan, r.(stripes := r.stripes[i := stripe']), r');
      DoneStripesGrow(r.stripes, i, stripe');
    }
    OneStripeMoves(source, end, plan, r, i, r');
  }

  lemma NextBuffered(source: seq<Byte>, end: nat, plan: Plan, r: Receiver, i: nat)
    requires Accepting(source, end, plan, r) && i < |r.stripes| && r.stripes[i].expected in r.stripes[i].buffered
    ensures r.stripes[i].expected < |plan.sent[i]|
    ensures r.stripes[i].buffered[r.stripes[i].expected] == plan.sent[i][r.stripes[i].expected]
  {
    hide BufferedOk, TotalsOk;
    assert StripeOk(r.stripes[i], plan.lanes[i], plan.sent[i], r.stripes[i].expected);
  }

  lemma SameStripes(r: Receiver, r': Receiver)
    requires Onward(r, r')
    ensures |r'.stripes| == |r.stripes|
  {
  }

  /** Keeping an early packet of stripe `i` in its buffer. */
  lemma KeepForLater(source: seq<Byte>, end: nat, plan: Plan, r: Receiver, i: nat, k: nat, r': Receiver)
    requires PlanOk(source, end, plan) && Accepting(source, end, plan, r)
    requires i < |r.stripes| && r.stripes[i].expected < k < |plan.sent[i]|
    requires r' == r.(stripes := r.stripes[i := r.stripes[i].(buffered := r.stripes[i].buffered[k := plan.sent[i][k]])])
    ensures Accepting(source, end, plan, r') && Onward(r, r')
  {
    hide PlanOk, BufferedOk, BufferOk, InReach, Later;
    BufferPacket(r.stripes[i].expected, r.stripes[i].buffered, plan.sent[i], r.stripes[i].expected, k);
    BufferedDone(source, end, plan, r, i, r'.stripes[i]);
    DoneStripesStay(r.stripes, i, r'.stripes[i]);
    OneStripeMoves(source, end, plan, r, i, r');
  }

  // ----- Completion -----

  /** Complete means that every stripe has accepted its DONE. */
  lemma CompleteMeansDone(source: seq<Byte>, end: nat, plan: Plan, r: Receiver)
    requires Accepting(source, end, plan, r) && r.completed == |r.stripes|
    ensures forall i :: 0 <= i < |r.stripes| ==> r.stripes[i].done && r.stripes[i].expected == |plan.lanes[i]| + 1
  {
    hide BufferedOk, BufferOk;
    AllBelow(DoneStripes(r.stripes), |r.stripes|);
    forall i | 0 <= i < |r.stripes|
      ensures r.stripes[i].done && r.stripes[i].expected == |plan.lanes[i]| + 1
    {
      assert i in DoneStripes(r.stripes);
    }
  }

  /** A stripe that accepted its DONE has nothing left in its buffer. */
  lemma DoneStripeEmpty(source: seq<Byte>, end: nat, plan: Plan, r: Receiver, i: nat)
    requires PlanOk(source, end, plan) && Accepting(source, end, plan, r)
    requires i < |r.stripes| && r.stripes[i].expected == |plan.lanes[i]| + 1
    ensures r.stripes[i].buffered == map[] && |plan.sent[i]| == |plan.lanes[i]| + 1
  {
    hide BufferedOk, Cuts, HomesOk, TotalsOk;
    if |plan.sent[i]| > |plan.lanes[i]| + 1 {
      PacketAt(source, end, plan, i, |plan.lanes[i]| + 1);
    }
    assert StripeOk(r.stripes[i], plan.lanes[i], plan.sent[i], r.stripes[i].expected);
    NothingBeyond(r.stripes[i].buffered, plan.sent[i]);
  }

  /** Once every stripe has accepted all its chunks, everything is written and nothing waits. */
  lemma AllTaken(source: seq<Byte>, end: nat, plan: Plan, r: Receiver)
    requires PlanOk(source, end, plan) && Accepting(source, end, plan, r)
    requires forall i :: 0 <= i < |r.stripes| ==> |plan.lanes[i]| <= r.stripes[i].expected
    ensures r.buffer.nextOffset == end && r.buffer.pending == map[]
  {
    hide Holds, Cuts, LaneOk, StripeOk, TotalsOk;
    var taken := Taken(plan.homes, r.stripes);
    var w :| w !in taken && Holds(plan.chunks, source, end, taken, w, r.buffer);
    AllAccepted(plan.chunks, source, end, taken, w, r.buffer);
  }

  lemma OutputIsPiece(source: seq<Byte>, end: nat, plan: Plan, r: Receiver)
    requires Accepting(source, end, plan, r)
    ensures r.buffer.nextOffset <= |source| && r.buffer.out == source[..r.buffer.nextOffset]
  {
    hide Taken, Waiting, TotalsOk, StripeOk;
  }

  // ----- A growing plan -----

  lemma HomesGrow(chunks: seq<Chunk>, homes: seq<Home>, lanes: seq<seq<nat>>, i: nat, c: Chunk)
    requires HomesOk(chunks, homes, lanes) && i < |lanes|
    ensures HomesOk(chunks + [c], homes + [Home(i, |lanes[i]|)], lanes[i := lanes[i] + [|chunks|]])
  {
  }

  lemma LaneGrows(chunks: seq<Chunk>, total: nat, lane: seq<nat>, sent: seq<Packet>, c: Chunk)
    requires LaneOk(chunks, total, lane, sent)
    ensures LaneOk(chunks + [c], total, lane, sent)
    ensures |sent| == |lane| ==>
              LaneOk(chunks + [c], total, lane + [|chunks|], sent + [Data(|lane|, c.offset, c.payload)])
  {
    forall k | 0 <= k < |sent|
      ensures PacketOk(chunks + [c], total, lane, sent, k)
    {
      assert PacketOk(chunks, total, lane, sent, k);
    }
    if |sent| == |lane| {
      var lane', sent' := lane + [|chunks|], sent + [Data(|lane|, c.offset, c.payload)];
      forall k | 0 <= k < |sent'|
        ensures PacketOk(chunks + [c], total, lane', sent', k)
      {
        if k < |sent| {
          assert PacketOk(chunks, total, lane, sent, k);
        }
      }
    }
  }

  lemma LaneEnds(chunks: seq<Chunk>, total: nat, lane: seq<nat>, sent: seq<Packet>)
    requires LaneOk(chunks, total, lane, sent) && |sent| == |lane|
    ensures LaneOk(chunks, total, lane, sent + [Done(|lane|, total)])
  {
    var sent' := sent + [Done(|lane|, total)];
    forall k | 0 <= k < |sent'|
      ensures PacketOk(chunks, total, lane, sent', k)
    {
      if k < |sent| {
        assert PacketOk(chunks, total, lane, sent, k);
      }
    }
  }

  lemma CutsGrow(chunks: seq<Chunk>, source: seq<Byte>, end: nat, c: Chunk)
    requires Cuts(chunks, source, end)
    requires c.offset == end && 0 < |c.payload| && end + |c.payload| <= |source|
    requires c.payload == source[end..end + |c.payload|]
    ensures Cuts(chunks + [c], source, end + |c.payload|)
  {
    hide Waiting;
    PlanGrows(chunks, source, end, {}, 0, Buffer(0, map[], []), c) by {
      assert Waiting(chunks, {}, 0, map[]) by { NothingWaits(chunks); }
    }
  }

  lemma NothingWaits(chunks: seq<Chunk>)
    ensures Waiting(chunks, {}, 0, map[])
  {
  }

  lemma EmitKeepsPlan(source: seq<Byte>, end: nat, plan: Plan, i: nat, p: Packet, end': nat)
    requires PlanOk(source, end, plan) && i < |plan.sent| && |plan.sent[i]| == |plan.lanes[i]|
    requires p.seqNo == |plan.lanes[i]| && p.offset == end
    requires match p
             case Data(_, _, payload) =>
               0 < |payload| && end' == end + |payload| <= |source| && payload == source[end..end']
             case Done(_, _) => end' == end == |source|
    ensures PlanOk(source, end', Planned(plan, i, p))
  {
    hide Cuts, HomesOk, LaneOk;
    if p.Data? {
      var c := Chunk(p.offset, p.payload);
      CutsGrow(plan.chunks, source, end, c);
      HomesGrow(plan.chunks, plan.homes, plan.lanes, i, c);
      forall j | 0 <= j < |plan.sent|
        ensures LaneOk(plan.chunks + [c], |source|, Planned(plan, i, p).lanes[j], Planned(plan, i, p).sent[j])
      {
        LaneGrows(plan.chunks, |source|, plan.lanes[j], plan.sent[j], c);
      }
    } else {
      LaneEnds(plan.chunks, |source|, plan.lanes[i], plan.sent[i]);
    }
  }

  lemma TakenBeforeEmit(plan: Plan, stripes: seq<RecvStripe>, i: nat, k: nat)
    requires i < |stripes| && stripes[i].expected <= k
    ensures Taken(plan.homes + [Home(i, k)], stripes) == Taken(plan.homes, stripes)
  {
    var homes' := plan.homes + [Home(i, k)];
    forall g
      ensures g in Taken(homes', stripes) <==> g in Taken(plan.homes, stripes)
    {
    }
  }

  lemma EmitKeepsBuffered(source: seq<Byte>, end: nat, plan: Plan, r: Receiver, i: nat, p: Packet, end': nat)
    requires PlanOk(source, end, plan) && BufferedOk(source, end, plan, r)
    requires i < |plan.sent| && i < |r.stripes| && p.seqNo == |plan.lanes[i]| && p.offset == end
             && r.stripes[i].expected <= p.seqNo
    requires p.Data? ==> 0 < |p.payload| && end' == end + |p.payload| <= |source| && p.payload == source[end..end']
    requires p.Done? ==> end' == end
    ensures BufferedOk(source, end', Planned(plan, i, p), r)
  {
    hide Cuts, HomesOk, Holds, Taken;
    if p.Data? {
      var w :| w !in Taken(plan.homes, r.stripes)
               && Holds(plan.chunks, source, end, Taken(plan.homes, r.stripes), w, r.buffer);
      TakenBeforeEmit(plan, r.stripes, i, p.seqNo);
      PlanGrows(plan.chunks, source, end, Taken(plan.homes, r.stripes), w, r.buffer, Chunk(p.offset, p.payload));
    }
  }

  lemma EmitKeepsAccepting(source: seq<Byte>, end: nat, plan: Plan, r: Receiver, i: nat, p: Packet, end': nat)
    requires PlanOk(source, end, plan) && Accepting(source, end, plan, r)
    requires i < |plan.sent| && |plan.sent[i]| == |plan.lanes[i]| == p.seqNo && p.offset == end
    requires p.Data? ==> 0 < |p.payload| && end' == end + |p.payload| <= |source| && p.payload == source[end..end']
    requires p.Done? ==> end' == end
    ensures Accepting(source, end', Planned(plan, i, p), r)
  {
    hide PlanOk, TotalsOk, BufferedOk;
    assert StripeOk(r.stripes[i], plan.lanes[i], plan.sent[i], r.stripes[i].expected);
    EmitKeepsBuffered(source, end, plan, r, i, p, end');
    var plan' := Planned(plan, i, p);
    forall j | 0 <= j < |r.stripes|
      ensures StripeOk(r.stripes[j], plan'.lanes[j], plan'.sent[j], r.stripes[j].expected)
    {
      assert StripeOk(r.stripes[j], plan.lanes[j], plan.sent[j], r.stripes[j].expected);
    }
  }
}

/** The input side of the blast receiver: what its stripes stand for, how their packets
    are counted, and what each operation on them keeps. */
module BlastStripes {
  import Maps
  import R = Reassembly
  import T = StripedTransport
  import opened Bits
  import opened Lanes
  import opened Options
  import opened BlastCoordinator
  import opened BlastTiers

  // ----- What a stripe stands for -----

  /** A spooled packet is the DATA packet whose payload the file holds. */
  ghost predicate SpooledIs(source: seq<Byte>, n: nat, entry: Spooled, p: Packet) {
    && p.Data? && p.seqNo == n && p.offset == entry.offset && |p.payload| == entry.length
    && IsSlice(source, p.offset, p.payload)
  }

  ghost predicate StripeRep(source: seq<Byte>, stripe: Stripe, all: T.RecvStripe) {
    && all.expected == stripe.expected && all.done == stripe.done
    && (forall n :: n in stripe.buffered ==> n !in stripe.spooled)
    && (forall n :: n in all.buffered <==> n in stripe.buffered || n in stripe.spooled)
    && (forall n :: n in stripe.buffered ==> all.buffered[n] == stripe.buffered[n])
    && (forall n :: n in stripe.spooled ==> SpooledIs(source, n, stripe.spooled[n], all.buffered[n]))
  }

  /** Moves on by one packet, or only changes its notes. */
  lemma RepSteps(source: seq<Byte>, stripe: Stripe, all: T.RecvStripe, stripe': Stripe, all': T.RecvStripe)
    requires StripeRep(source, stripe, all)
    requires stripe'.buffered == stripe.buffered && stripe'.spooled == stripe.spooled && all'.buffered == all.buffered
    requires stripe'.expected == all'.expected && stripe'.done == all'.done
    ensures StripeRep(source, stripe', all')
  {
    hide SpooledIs;
  }

  lemma RepLosesBuffered(source: seq<Byte>, stripe: Stripe, all: T.RecvStripe, n: nat)
    requires StripeRep(source, stripe, all) && n in stripe.buffered
    ensures n in all.buffered && all.buffered[n] == stripe.buffered[n]
    ensures StripeRep(source, stripe.(buffered := Maps.Without(stripe.buffered, n)),
                      all.(buffered := Maps.Without(all.buffered, n)))
  {
    hide SpooledIs;
  }

  lemma RepLosesFuture(source: seq<Byte>, stripe: Stripe, all: T.RecvStripe, n: nat)
    requires StripeRep(source, stripe, all) && n in stripe.spooled
    ensures n in all.buffered && SpooledIs(source, n, stripe.spooled[n], all.buffered[n])
    ensures StripeRep(source, stripe.(spooled := Maps.Without(stripe.spooled, n)),
                      all.(buffered := Maps.Without(all.buffered, n)))
  {
    hide SpooledIs;
  }

  lemma RepGainsBuffered(source: seq<Byte>, stripe: Stripe, all: T.RecvStripe, p: Packet)
    requires StripeRep(source, stripe, all) && p.seqNo !in all.buffered
    ensures StripeRep(source, stripe.(buffered := stripe.buffered[p.seqNo := p]),
                      all.(buffered := all.buffered[p.seqNo := p]))
  {
    hide SpooledIs;
  }

  lemma RepGainsFuture(source: seq<Byte>, stripe: Stripe, all: T.RecvStripe, p: Packet)
    requires StripeRep(source, stripe, all) && p.seqNo !in all.buffered && p.Data?
             && IsSlice(source, p.offset, p.payload)
    ensures StripeRep(source, stripe.(spooled := stripe.spooled[p.seqNo := Spooled(p.offset, |p.payload|)]),
                      all.(buffered := all.buffered[p.seqNo := p]))
  {
    hide IsSlice;
  }

  // ----- Counting -----

  function PacketSizes(m: map<nat, Packet>): map<nat, nat> {
    map n | n in m :: Size(m[n])
  }

  /** The payload bytes that the first stripes keep in memory. */
  ghost function FutureTotal(stripes: seq<Stripe>): nat {
    if |stripes| == 0 then 0
    else FutureTotal(stripes[..|stripes| - 1]) + Maps.Sum(PacketSizes(stripes[|stripes| - 1].buffered))
  }

  lemma {:induction false} FutureTotalMoves(stripes: seq<Stripe>, i: nat, stripe: Stripe)
    requires i < |stripes|
    ensures FutureTotal(stripes[i := stripe]) + Maps.Sum(PacketSizes(stripes[i].buffered))
            == FutureTotal(stripes) + Maps.Sum(PacketSizes(stripe.buffered))
  {
    hide Maps.Sum;
    var last := |stripes| - 1;
    if i == last {
      assert stripes[i := stripe][..last] == stripes[..last];
    } else {
      FutureTotalMoves(stripes[..last], i, stripe);
      assert stripes[i := stripe][..last] == stripes[..last][i := stripe];
    }
  }

  ghost predicate FutureCounted(s: State) {
    s.futureBytes == FutureTotal(s.stripes) && s.futureBytes <= FutureBufferLimit
  }

  lemma SameFuture(s: State, s': State, i: nat)
    requires FutureCounted(s) && s'.futureBytes == s.futureBytes && i < |s.stripes| == |s'.stripes|
    requires s'.stripes == s.stripes[i := s'.stripes[i]] && s'.stripes[i].buffered == s.stripes[i].buffered
    ensures FutureCounted(s')
  {
    FutureTotalMoves(s.stripes, i, s'.stripes[i]);
  }

  lemma FutureLoses(s: State, i: nat, n: nat, stripe: Stripe)
    requires FutureCounted(s) && i < |s.stripes| && n in s.stripes[i].buffered
    requires stripe.buffered == Maps.Without(s.stripes[i].buffered, n)
    ensures FutureCounted(WithStripe(s, i, stripe).(futureBytes := Less(s.futureBytes, Size(s.stripes[i].buffered[n]))))
  {
    hide Maps.Sum, FutureTotal;
    FutureTotalMoves(s.stripes, i, stripe);
    var sizes := PacketSizes(s.stripes[i].buffered);
    Maps.SumLoses(sizes, n);
    assert PacketSizes(stripe.buffered) == Maps.Without(sizes, n);
  }

  lemma FutureGains(s: State, i: nat, p: Packet, stripe: Stripe)
    requires FutureCounted(s) && i < |s.stripes| && p.seqNo !in s.stripes[i].buffered
    requires Size(p) == 0 || s.futureBytes + Size(p) <= FutureBufferLimit
    requires stripe.buffered == s.stripes[i].buffered[p.seqNo := p]
    ensures FutureCounted(WithStripe(s, i, stripe).(futureBytes := s.futureBytes + Size(p)))
  {
    hide Maps.Sum, FutureTotal;
    FutureTotalMoves(s.stripes, i, stripe);
    var sizes := PacketSizes(s.stripes[i].buffered);
    Maps.SumGains(sizes, p.seqNo, Size(p));
    assert PacketSizes(stripe.buffered) == sizes[p.seqNo := Size(p)];
  }

  // ----- The whole state -----

  /** The coordinator stands for the single-tier receiver `r`. */
  ghost predicate Stands(source: seq<Byte>, s: State, r: T.Receiver) {
    && |s.stripes| == |r.stripes|
    && (forall j :: 0 <= j < |s.stripes| ==> StripeRep(source, s.stripes[j], r.stripes[j]))
    && s.finalTotal == r.finalTotal && s.completed == r.completed
    && FutureCounted(s)
    && OutputOk(source, s, r.buffer)
  }

  lemma OutputSame(source: seq<Byte>, s: State, b: R.Buffer, s': State)
    requires OutputOk(source, s, b) && SameOutput(s, s')
    ensures OutputOk(source, s', b)
  {
    hide PendingRep, AllBacked, PendingCounted;
    SameSpool(source, s, s');
    SamePending(s, s');
  }

  /** Only the input side differs, and what is spooled for the stripes does not. */
  ghost predicate SameOutput(s: State, s': State) {
    && s'.nextOffset == s.nextOffset && s'.dst == s.dst && s'.writeBuf == s.writeBuf
    && s'.pending == s.pending && s'.pendingBytes == s.pendingBytes
    && s'.spool == s.spool && s'.spoolLens == s.spoolLens
    && |s'.stripes| == |s.stripes|
    && (forall i :: 0 <= i < |s.stripes| ==> s'.stripes[i].spooled == s.stripes[i].spooled)
  }

  /** Replacing stripe `i` on both sides. */
  lemma StandsWith(source: seq<Byte>, s: State, r: T.Receiver, i: nat, s': State, r': T.Receiver)
    requires Stands(source, s, r) && i < |s.stripes| == |s'.stripes| && |r'.stripes| == |r.stripes|
    requires s'.stripes == s.stripes[i := s'.stripes[i]] && r'.stripes == r.stripes[i := r'.stripes[i]]
    requires StripeRep(source, s'.stripes[i], r'.stripes[i])
    requires s'.finalTotal == r'.finalTotal && s'.completed == r'.completed
    requires FutureCounted(s') && OutputOk(source, s', r'.buffer)
    ensures Stands(source, s', r')
  {
    hide StripeRep, FutureCounted, OutputOk;
  }

  // ----- Taking a packet out of its tier -----

  lemma PopBuffered(source: seq<Byte>, s: State, r: T.Receiver, i: nat)
    requires Stands(source, s, r) && i < |s.stripes| && s.stripes[i].expected in s.stripes[i].buffered
    ensures r.stripes[i].expected in r.stripes[i].buffered
    ensures var popped := PopFuture(s, i);
            && popped.Got? && popped.packet == r.stripes[i].buffered[r.stripes[i].expected]
            && Stands(source, popped.state, T.Unbuffer(r, i)) && OnlyTiers(s, popped.state, i)
  {
    hide StripeRep, FutureCounted, OutputOk;
    var stripe, n := s.stripes[i], s.stripes[i].expected;
    assert StripeRep(source, stripe, r.stripes[i]);
    assert r.stripes[i].expected == n by { SameExpected(source, stripe, r.stripes[i]); }
    RepLosesBuffered(source, stripe, r.stripes[i], n);
    var s1 := PopFuture(s, i).state;
    FutureLoses(s, i, n, s1.stripes[i]);
    OutputSame(source, s, r.buffer, s1);
    StandsWith(source, s, r, i, s1, T.Unbuffer(r, i));
  }

  lemma SameExpected(source: seq<Byte>, stripe: Stripe, all: T.RecvStripe)
    requires StripeRep(source, stripe, all)
    ensures all.expected == stripe.expected && all.done == stripe.done
    ensures forall n :: n in all.buffered <==> n in stripe.buffered || n in stripe.spooled
  {
    hide SpooledIs;
  }

  /** Nothing changed but which tiers hold what. */
  ghost predicate OnlyTiers(s: State, s': State, i: nat) {
    && i < |s.stripes| == |s'.stripes|
    && s'.capacity == s.capacity && s'.expectedBytes == s.expectedBytes
    && s'.stripes == s.stripes[i := s'.stripes[i]]
    && s'.stripes[i] == s.stripes[i].(buffered := s'.stripes[i].buffered, spooled := s'.stripes[i].spooled)
  }

  lemma FutureInUse(source: seq<Byte>, s: State, i: nat, n: nat)
    requires AllBacked(source, s) && i < |s.stripes| && n in s.stripes[i].spooled
    ensures s.spool.Some?
    ensures var entry := s.stripes[i].spooled[n];
            && entry.offset + entry.length <= |source|
            && SpoolRead(s.spool.value, entry.offset, entry.length)
               == Some(source[entry.offset..entry.offset + entry.length])
  {
    hide Backed;
    var entry := s.stripes[i].spooled[n];
    assert StripeBacked(source, SpoolFile(s), s.stripes[i].spooled);
    assert Backed(source, SpoolFile(s), entry.offset, entry.length);
    SpoolReadBacked(source, SpoolFile(s), entry.offset, entry.length);
    InSource(source, SpoolFile(s), entry.offset, entry.length);
  }

  lemma InSource(source: seq<Byte>, file: seq<Byte>, offset: nat, length: nat)
    requires Backed(source, file, offset, length)
    ensures offset + length <= |source|
  {
  }

  lemma UnspooledOutput(source: seq<Byte>, s: State, b: R.Buffer, i: nat, n: nat, stripe: Stripe)
    requires OutputOk(source, s, b) && i < |s.stripes| && n in s.stripes[i].spooled
    requires stripe.spooled == Maps.Without(s.stripes[i].spooled, n)
    ensures OutputOk(source, MaybeCloseSpool(WithStripe(s, i, stripe)), b)
  {
    hide AllBacked, PendingRep, PendingCounted, NothingSpooled;
    UnspoolFutureKeeps(source, s, i, n, stripe);
    SamePending(s, MaybeCloseSpool(WithStripe(s, i, stripe)));
  }

  lemma ReadsBack(source: seq<Byte>, s: State, b: R.Buffer, i: nat)
    requires OutputOk(source, s, b) && i < |s.stripes|
    requires s.stripes[i].expected !in s.stripes[i].buffered && s.stripes[i].expected in s.stripes[i].spooled
    ensures var stripe := s.stripes[i];
            var entry := stripe.spooled[stripe.expected];
            && entry.offset + entry.length <= |source|
            && var s' := WithStripe(s, i, stripe.(spooled := Maps.Without(stripe.spooled, stripe.expected)));
            var payload := source[entry.offset..entry.offset + entry.length];
            PopFuture(s, i) == Got(MaybeCloseSpool(s'), Data(stripe.expected, entry.offset, payload))
  {
    hide PendingRep, PendingCounted, NothingSpooled, SpoolRead, MaybeCloseSpool;
    FutureInUse(source, s, i, s.stripes[i].expected);
  }

  lemma OnlyTiersAfter(s: State, i: nat, stripe: Stripe)
    requires i < |s.stripes| && stripe == s.stripes[i].(spooled := stripe.spooled)
    ensures OnlyTiers(s, MaybeCloseSpool(WithStripe(s, i, stripe)), i)
    ensures var s' := MaybeCloseSpool(WithStripe(s, i, stripe));
            && s'.stripes[i] == stripe && s'.futureBytes == s.futureBytes
            && s'.finalTotal == s.finalTotal && s'.completed == s.completed
  {
    hide NothingSpooled;
  }

  lemma PopSpooled(source: seq<Byte>, s: State, r: T.Receiver, i: nat)
    requires Stands(source, s, r) && i < |s.stripes|
    requires s.stripes[i].expected !in s.stripes[i].buffered && s.stripes[i].expected in s.stripes[i].spooled
    ensures r.stripes[i].expected in r.stripes[i].buffered
    ensures var popped := PopFuture(s, i);
            && popped.Got? && popped.packet == r.stripes[i].buffered[r.stripes[i].expected]
            && Stands(source, popped.state, T.Unbuffer(r, i)) && OnlyTiers(s, popped.state, i)
  {
    hide StripeRep, FutureCounted, OutputOk, PopFuture, MaybeCloseSpool;
    var stripe, n := s.stripes[i], s.stripes[i].expected;
    SameExpected(source, stripe, r.stripes[i]);
    RepLosesFuture(source, stripe, r.stripes[i], n);
    ReadsBack(source, s, r.buffer, i);
    var stripe' := stripe.(spooled := Maps.Without(stripe.spooled, n));
    UnspooledOutput(source, s, r.buffer, i, n, stripe');
    OnlyTiersAfter(s, i, stripe');
    var s1 := MaybeCloseSpool(WithStripe(s, i, stripe'));
    SameFuture(s, s1, i);
    StandsWith(source, s, r, i, s1, T.Unbuffer(r, i));
  }

  /** The two tiers hand out exactly the packet the single-tier buffer would. */
  lemma PopKeeps(source: seq<Byte>, s: State, r: T.Receiver, i: nat)
    requires Stands(source, s, r) && i < |s.stripes|
    ensures var popped := PopFuture(s, i);
            if r.stripes[i].expected in r.stripes[i].buffered then
              && popped.Got? && popped.packet == r.stripes[i].buffered[r.stripes[i].expected]
              && Stands(source, popped.state, T.Unbuffer(r, i)) && OnlyTiers(s, popped.state, i)
            else popped.Nothing?
  {
    hide StripeRep, FutureCounted, OutputOk, OnlyTiers;
    var stripe, n := s.stripes[i], s.stripes[i].expected;
    SameExpected(source, stripe, r.stripes[i]);
    if n in stripe.buffered {
      PopBuffered(source, s, r, i);
    } else if n in stripe.spooled {
      PopSpooled(source, s, r, i);
    }
  }

  // ----- Keeping a packet for later -----

  /** Stripe `i` keeps packet `p` on top of its notes; nothing else changes. */
  ghost predicate Stored(s: State, s': State, i: nat, p: Packet) {
    && i < |s.stripes| == |s'.stripes|
    && s'.stripes == s.stripes[i := s'.stripes[i]]
    && s'.stripes[i]
       == Note(s.stripes[i], p.seqNo).(buffered := s'.stripes[i].buffered, spooled := s'.stripes[i].spooled)
    && s'.nextOffset == s.nextOffset && s'.finalTotal == s.finalTotal && s'.completed == s.completed
    && s'.writeBuf == s.writeBuf && s'.dst == s.dst
    && s'.capacity == s.capacity && s'.expectedBytes == s.expectedBytes
  }

  function Keeping(r: T.Receiver, i: nat, p: Packet): T.Receiver
    requires i < |r.stripes|
  {
    r.(stripes := r.stripes[i := r.stripes[i].(buffered := r.stripes[i].buffered[p.seqNo := p])])
  }

  lemma StoreInMemory(source: seq<Byte>, s: State, r: T.Receiver, i: nat, p: Packet)
    requires Stands(source, s, r) && i < |s.stripes| && p.seqNo !in r.stripes[i].buffered
    requires Size(p) == 0 || s.futureBytes + Size(p) <= FutureBufferLimit
    ensures var stored := StoreFuture(s, i, p);
            stored.Ok? && Stands(source, stored.state, Keeping(r, i, p)) && Stored(s, stored.state, i, p)
  {
    hide StripeRep, FutureCounted, OutputOk;
    var s', r' := StoreFuture(s, i, p).state, Keeping(r, i, p);
    var noted := Note(s.stripes[i], p.seqNo);
    SameExpected(source, s.stripes[i], r.stripes[i]);
    RepSteps(source, s.stripes[i], r.stripes[i], noted, r.stripes[i]);
    RepGainsBuffered(source, noted, r.stripes[i], p);
    FutureGains(s, i, p, s'.stripes[i]);
    OutputSame(source, s, r.buffer, s');
    StandsWith(source, s, r, i, s', r');
  }

  lemma SpooledOutput(source: seq<Byte>, s: State, b: R.Buffer, i: nat, p: Packet, stripe: Stripe)
    requires OutputOk(source, s, b) && i < |s.stripes| && p.Data? && IsSlice(source, p.offset, p.payload)
    requires stripe.spooled == s.stripes[i].spooled[p.seqNo := Spooled(p.offset, |p.payload|)]
    ensures OutputOk(source, WithStripe(SpoolPayload(s, p.offset, p.payload), i, stripe), b)
  {
    hide AllBacked, PendingRep, PendingCounted, IsSlice, SpoolWrite;
    SpoolFutureKeeps(source, s, i, p.seqNo, p.offset, p.payload, stripe);
    SamePending(s, WithStripe(SpoolPayload(s, p.offset, p.payload), i, stripe));
  }

  lemma StoreInSpool(source: seq<Byte>, s: State, r: T.Receiver, i: nat, p: Packet)
    requires Stands(source, s, r) && i < |s.stripes| && p.seqNo !in r.stripes[i].buffered
    requires p.Data? && IsSlice(source, p.offset, p.payload) && p.offset <= MaxInt
    requires 0 < |p.payload| && FutureBufferLimit < s.futureBytes + |p.payload|
    ensures var stored := StoreFuture(s, i, p);
            stored.Ok? && Stands(source, stored.state, Keeping(r, i, p)) && Stored(s, stored.state, i, p)
  {
    hide StripeRep, FutureCounted, OutputOk, IsSlice, SpoolPayload;
    var s', r' := StoreFuture(s, i, p).state, Keeping(r, i, p);
    var noted := Note(s.stripes[i], p.seqNo);
    var stripe' := noted.(spooled := noted.spooled[p.seqNo := Spooled(p.offset, |p.payload|)]);
    SpooledShape(s, i, p, stripe');
    SameExpected(source, s.stripes[i], r.stripes[i]);
    RepSteps(source, s.stripes[i], r.stripes[i], noted, r.stripes[i]);
    RepGainsFuture(source, noted, r.stripes[i], p);
    SpooledOutput(source, s, r.buffer, i, p, stripe');
    SameFuture(s, s', i);
    StandsWith(source, s, r, i, s', r');
  }

  lemma SpooledShape(s: State, i: nat, p: Packet, stripe: Stripe)
    requires i < |s.stripes| && p.Data?
    ensures var s' := WithStripe(SpoolPayload(s, p.offset, p.payload), i, stripe);
            s' == s.(stripes := s.stripes[i := stripe], spool := s'.spool)
  {
  }

  /** A packet that is early is kept exactly once, in one of the tiers. */
  lemma StoreFutureKeeps(source: seq<Byte>, s: State, r: T.Receiver, i: nat, p: Packet)
    requires Stands(source, s, r) && i < |s.stripes| && p.seqNo !in r.stripes[i].buffered
    requires p.Data? ==> 0 < |p.payload| && IsSlice(source, p.offset, p.payload)
    ensures var stored := StoreFuture(s, i, p);
            if stored.Ok? then Stands(source, stored.state, Keeping(r, i, p)) && Stored(s, stored.state, i, p)
            else stored.dst == s.dst && MaxInt < |source|
  {
    if p.Done? || s.futureBytes + |p.payload| <= FutureBufferLimit {
      hide Stands, Stored, StoreFuture;
      StoreInMemory(source, s, r, i, p);
    } else if p.offset <= MaxInt {
      hide Stands, Stored, StoreFuture, IsSlice;
      StoreInSpool(source, s, r, i, p);
    }
  }
}

/** What the two storage tiers of the blast receiver stand for: the single-tier receiver
    of the striped transport, with its maps split between memory and the spool file. */
module BlastTiers {
  import Maps
  import R = Reassembly
  import opened Bits
  import opened Lanes
  import opened Options
  import opened BlastCoordinator

  // ----- The spool file -----

  /** A range of the spool file holds that range of the source. */
  ghost predicate Backed(source: seq<Byte>, file: seq<Byte>, offset: nat, length: nat) {
    && offset + length <= |source| && offset + length <= |file|
    && file[offset..offset + length] == source[offset..offset + length]
  }

  ghost predicate IsSlice(source: seq<Byte>, offset: nat, payload: seq<Byte>) {
    offset + |payload| <= |source| && payload == source[offset..offset + |payload|]
  }

  /** A spool write never damages what the file held, however the ranges overlap. */
  lemma SpoolWriteKeeps(source: seq<Byte>, file: seq<Byte>, offset: nat, payload: seq<Byte>, o: nat, l: nat)
    requires IsSlice(source, offset, payload) && Backed(source, file, o, l)
    ensures Backed(source, SpoolWrite(file, offset, payload), o, l)
  {
    var file' := SpoolWrite(file, offset, payload);
    hide SpoolWrite;
    forall k | o <= k < o + l
      ensures file'[k] == source[k]
    {
      assert file[o..o + l][k - o] == source[o..o + l][k - o];
      if offset <= k < offset + |payload| {
        assert payload[k - offset] == source[k];
      }
    }
  }

  lemma SpoolWriteBacks(source: seq<Byte>, file: seq<Byte>, offset: nat, payload: seq<Byte>)
    requires IsSlice(source, offset, payload)
    ensures Backed(source, SpoolWrite(file, offset, payload), offset, |payload|)
  {
    var file' := SpoolWrite(file, offset, payload);
    hide SpoolWrite;
    assert file'[offset..offset + |payload|] == payload;
  }

  lemma SpoolReadBacked(source: seq<Byte>, file: seq<Byte>, offset: nat, length: nat)
    requires Backed(source, file, offset, length)
    ensures SpoolRead(file, offset, length) == Some(source[offset..offset + length])
  {
  }

  ghost predicate LensBacked(source: seq<Byte>, file: seq<Byte>, lens: map<nat, nat>) {
    forall o :: o in lens ==> Backed(source, file, o, lens[o])
  }

  ghost predicate StripeBacked(source: seq<Byte>, file: seq<Byte>, spooled: map<nat, Spooled>) {
    forall n :: n in spooled ==> Backed(source, file, spooled[n].offset, spooled[n].length)
  }

  /** Every spooled entry can be read back, and the file exists only while there is one. */
  ghost predicate AllBacked(source: seq<Byte>, s: State) {
    && (s.spool.Some? <==> !NothingSpooled(s))
    && LensBacked(source, SpoolFile(s), s.spoolLens)
    && (forall i :: 0 <= i < |s.stripes| ==> StripeBacked(source, SpoolFile(s), s.stripes[i].spooled))
  }

  lemma FileGrows(source: seq<Byte>, s: State, offset: nat, payload: seq<Byte>)
    requires IsSlice(source, offset, payload) && AllBacked(source, s)
    ensures var file := SpoolFile(SpoolPayload(s, offset, payload));
            && LensBacked(source, file, s.spoolLens)
            && (forall i :: 0 <= i < |s.stripes| ==> StripeBacked(source, file, s.stripes[i].spooled))
            && Backed(source, file, offset, |payload|)
  {
    hide Backed, SpoolWrite, IsSlice, NothingSpooled;
    var file := SpoolFile(s);
    SpoolWriteBacks(source, file, offset, payload);
    forall o | o in s.spoolLens
      ensures Backed(source, SpoolWrite(file, offset, payload), o, s.spoolLens[o])
    {
      SpoolWriteKeeps(source, file, offset, payload, o, s.spoolLens[o]);
    }
    forall i, n | 0 <= i < |s.stripes| && n in s.stripes[i].spooled
      ensures Backed(source, SpoolWrite(file, offset, payload), s.stripes[i].spooled[n].offset,
                     s.stripes[i].spooled[n].length)
    {
      assert StripeBacked(source, file, s.stripes[i].spooled);
      SpoolWriteKeeps(source, file, offset, payload, s.stripes[i].spooled[n].offset, s.stripes[i].spooled[n].length);
    }
  }

  /** A payload that is early in the stream goes to the spool. */
  lemma SpoolPendingKeeps(source: seq<Byte>, s: State, offset: nat, payload: seq<Byte>)
    requires IsSlice(source, offset, payload) && AllBacked(source, s)
    ensures AllBacked(source, SpoolPayload(s, offset, payload).(spoolLens := s.spoolLens[offset := |payload|]))
  {
    FileGrows(source, s, offset, payload);
    var s' := SpoolPayload(s, offset, payload).(spoolLens := s.spoolLens[offset := |payload|]);
    hide Backed, SpoolWrite, IsSlice;
    assert offset in s'.spoolLens;
  }

  /** A packet that is early on its stripe goes to the spool. */
  lemma SpoolFutureKeeps(source: seq<Byte>, s: State, i: nat, n: nat, offset: nat, payload: seq<Byte>, stripe: Stripe)
    requires IsSlice(source, offset, payload) && AllBacked(source, s) && i < |s.stripes|
    requires stripe.spooled == s.stripes[i].spooled[n := Spooled(offset, |payload|)]
    ensures AllBacked(source, WithStripe(SpoolPayload(s, offset, payload), i, stripe))
  {
    FileGrows(source, s, offset, payload);
    var s' := WithStripe(SpoolPayload(s, offset, payload), i, stripe);
    hide Backed, SpoolWrite, IsSlice;
    assert n in s'.stripes[i].spooled;
    assert StripeBacked(source, SpoolFile(s'), s'.stripes[i].spooled);
  }

  lemma UnspoolPendingKeeps(source: seq<Byte>, s: State, offset: nat)
    requires AllBacked(source, s) && offset in s.spoolLens
    ensures AllBacked(source, MaybeCloseSpool(s.(spoolLens := Maps.Without(s.spoolLens, offset))))
  {
    hide Backed;
  }

  lemma UnspoolFutureKeeps(source: seq<Byte>, s: State, i: nat, n: nat, stripe: Stripe)
    requires AllBacked(source, s) && i < |s.stripes| && n in s.stripes[i].spooled
    requires stripe.spooled == Maps.Without(s.stripes[i].spooled, n)
    ensures AllBacked(source, MaybeCloseSpool(WithStripe(s, i, stripe)))
  {
    hide Backed;
    assert StripeBacked(source, SpoolFile(s), s.stripes[i].spooled);
    assert StripeBacked(source, SpoolFile(s), stripe.spooled);
  }

  /** Nothing that leaves both spool indexes and the file alone matters. */
  lemma SameSpool(source: seq<Byte>, s: State, s': State)
    requires AllBacked(source, s) && s'.spool == s.spool && s'.spoolLens == s.spoolLens
    requires |s'.stripes| == |s.stripes|
    requires forall i :: 0 <= i < |s.stripes| ==> s'.stripes[i].spooled == s.stripes[i].spooled
    ensures AllBacked(source, s')
  {
    hide Backed;
  }

  // ----- Payloads that are early in the stream -----

  function Sizes(m: map<nat, seq<Byte>>): map<nat, nat> {
    map o | o in m :: |m[o]|
  }

  /** The memory tier and the spool tier together are the single-tier map `all`. */
  ghost predicate PendingRep(source: seq<Byte>, mem: map<nat, seq<Byte>>, lens: map<nat, nat>,
                             all: map<nat, seq<Byte>>) {
    && (forall o :: o in mem ==> o !in lens)
    && (forall o :: o in all <==> o in mem || o in lens)
    && (forall o :: o in mem ==> all[o] == mem[o])
    && (forall o :: o in lens ==> IsSlice(source, o, all[o]) && |all[o]| == lens[o])
  }

  /** The byte counter is exact and within its limit. */
  ghost predicate PendingCounted(s: State) {
    s.pendingBytes == Maps.Sum(Sizes(s.pending)) && s.pendingBytes <= PendingOutputLimit
  }

  /** The output side of the coordinator stands for the reassembly buffer `b`. */
  ghost predicate OutputOk(source: seq<Byte>, s: State, b: R.Buffer) {
    && s.nextOffset == b.nextOffset
    && s.dst + s.writeBuf == b.out
    && |s.writeBuf| < WriteBufferLimit
    && PendingRep(source, s.pending, s.spoolLens, b.pending)
    && PendingCounted(s)
    && AllBacked(source, s)
  }

  /** Only the output side differs. */
  ghost predicate SameInput(s: State, s': State) {
    && s'.stripes == s.stripes && s'.futureBytes == s.futureBytes
    && s'.finalTotal == s.finalTotal && s'.completed == s.completed
    && s'.capacity == s.capacity && s'.expectedBytes == s.expectedBytes
  }

  /** A failed write leaves a prefix of what should have been written, and happens only if
      the destination cannot take all of it. */
  ghost predicate FailedOn(s: State, dst: seq<Byte>, out: seq<Byte>) {
    dst <= out && s.capacity < |out|
  }

  lemma FlushWritesAll(s: State)
    ensures var r := FlushWriteBuffer(s);
            if r.Ok? then r.state.dst == s.dst + s.writeBuf else FailedOn(s, r.dst, s.dst + s.writeBuf)
  {
  }

  lemma WriteKeeps(source: seq<Byte>, s: State, b: R.Buffer, payload: seq<Byte>)
    requires OutputOk(source, s, b)
    ensures var r, b' := WritePayload(s, payload), b.(nextOffset := b.nextOffset + |payload|, out := b.out + payload);
            if r.Ok? then OutputOk(source, r.state, b') && SameInput(s, r.state) else FailedOn(s, r.dst, b'.out)
  {
    hide PendingRep, PendingCounted, AllBacked, FlushWriteBuffer;
    var s1 := s.(writeBuf := s.writeBuf + payload, nextOffset := s.nextOffset + |payload|);
    var r := WritePayload(s, payload);
    assert s1.dst + s1.writeBuf == b.out + payload;
    FlushWritesAll(s1);
    if |payload| == 0 {
      assert b.out + payload == b.out;
    } else if r.Ok? {
      FlushFrame(s1);
      SameSpool(source, s, r.state);
      SamePending(s, r.state);
      assert r.state.dst + r.state.writeBuf == b.out + payload;
    }
  }

  lemma FlushFrame(s: State)
    ensures var r := FlushWriteBuffer(s);
            r.Ok? ==> r.state == s.(writeBuf := [], dst := r.state.dst) && |s.dst| + |s.writeBuf| <= s.capacity
  {
  }

  lemma SamePending(s: State, s': State)
    requires PendingCounted(s) && s'.pending == s.pending && s'.pendingBytes == s.pendingBytes
    ensures PendingCounted(s')
  {
  }

  lemma PendingLoses(s: State, offset: nat)
    requires PendingCounted(s) && offset in s.pending
    ensures PendingCounted(s.(pending := Maps.Without(s.pending, offset),
                              pendingBytes := Less(s.pendingBytes, |s.pending[offset]|)))
  {
    hide Maps.Sum;
    Maps.SumLoses(Sizes(s.pending), offset);
    assert Sizes(Maps.Without(s.pending, offset)) == Maps.Without(Sizes(s.pending), offset);
  }

  lemma PendingGains(s: State, offset: nat, payload: seq<Byte>)
    requires PendingCounted(s) && offset !in s.pending && s.pendingBytes + |payload| <= PendingOutputLimit
    ensures PendingCounted(s.(pending := s.pending[offset := payload], pendingBytes := s.pendingBytes + |payload|))
  {
    hide Maps.Sum;
    Maps.SumGains(Sizes(s.pending), offset, |payload|);
    assert Sizes(s.pending[offset := payload]) == Sizes(s.pending)[offset := |payload|];
  }

  lemma RepLosesMem(source: seq<Byte>, mem: map<nat, seq<Byte>>, lens: map<nat, nat>, all: map<nat, seq<Byte>>, o: nat)
    requires PendingRep(source, mem, lens, all) && o in mem
    ensures PendingRep(source, Maps.Without(mem, o), lens, Maps.Without(all, o)) && all[o] == mem[o]
  {
    hide IsSlice;
  }

  lemma RepLosesSpooled(source: seq<Byte>, mem: map<nat, seq<Byte>>, lens: map<nat, nat>, all: map<nat, seq<Byte>>,
                        o: nat)
    requires PendingRep(source, mem, lens, all) && o in lens
    ensures PendingRep(source, mem, Maps.Without(lens, o), Maps.Without(all, o))
    ensures IsSlice(source, o, all[o]) && |all[o]| == lens[o]
  {
    hide IsSlice;
  }

  lemma TakeFromMemory(source: seq<Byte>, s: State, b: R.Buffer)
    requires OutputOk(source, s, b) && b.nextOffset in b.pending && b.nextOffset in s.pending
    ensures var r := TakePending(s);
            && r.Took? && r.payload == b.pending[b.nextOffset]
            && OutputOk(source, r.state, b.(pending := Maps.Without(b.pending, b.nextOffset)))
            && SameInput(s, r.state)
  {
    hide AllBacked, PendingCounted, PendingRep;
    RepLosesMem(source, s.pending, s.spoolLens, b.pending, b.nextOffset);
    PendingLoses(s, s.nextOffset);
    SameSpool(source, s, TakePending(s).state);
  }

  lemma SpoolInUse(source: seq<Byte>, s: State, offset: nat)
    requires AllBacked(source, s) && offset in s.spoolLens
    ensures s.spool.Some? && SpoolRead(s.spool.value, offset, s.spoolLens[offset]).Some?
    ensures offset + s.spoolLens[offset] <= |source|
    ensures SpoolRead(s.spool.value, offset, s.spoolLens[offset]).value == source[offset..offset + s.spoolLens[offset]]
  {
    assert Backed(source, SpoolFile(s), offset, s.spoolLens[offset]);
    SpoolReadBacked(source, SpoolFile(s), offset, s.spoolLens[offset]);
  }

  lemma TakeFromSpool(source: seq<Byte>, s: State, b: R.Buffer)
    requires OutputOk(source, s, b) && b.nextOffset in b.pending && b.nextOffset in s.spoolLens
             && b.nextOffset !in s.pending
    ensures var r := TakePending(s);
            && r.Took? && r.payload == b.pending[b.nextOffset]
            && OutputOk(source, r.state, b.(pending := Maps.Without(b.pending, b.nextOffset)))
            && SameInput(s, r.state)
  {
    hide AllBacked, PendingCounted, PendingRep, NothingSpooled, SpoolRead;
    RepLosesSpooled(source, s.pending, s.spoolLens, b.pending, b.nextOffset);
    SpoolInUse(source, s, s.nextOffset);
    UnspoolPendingKeeps(source, s, s.nextOffset);
    SamePending(s, TakePending(s).state);
  }

  lemma InOneTier(source: seq<Byte>, s: State, b: R.Buffer, o: nat)
    requires OutputOk(source, s, b)
    ensures o in b.pending <==> o in s.pending || o in s.spoolLens
    ensures !(o in s.pending && o in s.spoolLens)
  {
    hide AllBacked, PendingCounted, IsSlice;
  }

  lemma TakeKeeps(source: seq<Byte>, s: State, b: R.Buffer)
    requires OutputOk(source, s, b)
    ensures var r := TakePending(s);
            if b.nextOffset in b.pending then
              && r.Took? && r.payload == b.pending[b.nextOffset]
              && OutputOk(source, r.state, b.(pending := Maps.Without(b.pending, b.nextOffset)))
              && SameInput(s, r.state)
            else r.Absent?
  {
    InOneTier(source, s, b, b.nextOffset);
    SameOffset(source, s, b);
    if b.nextOffset in b.pending {
      hide TakePending, OutputOk;
      if b.nextOffset in s.pending {
        TakeFromMemory(source, s, b);
      } else {
        TakeFromSpool(source, s, b);
      }
    }
  }

  /** Flushing the two tiers is flushing the single-tier buffer. */
  lemma {:induction false} FlushKeeps(source: seq<Byte>, s: State, b: R.Buffer)
    requires OutputOk(source, s, b)
    ensures var r, b' := FlushPending(s), R.Flush(b);
            if r.Ok? then OutputOk(source, r.state, b') && SameInput(s, r.state) else FailedOn(s, r.dst, b'.out)
    decreases |b.pending|
  {
    hide OutputOk, TakePending, WritePayload;
    TakeKeeps(source, s, b);
    if b.nextOffset in b.pending {
      var took := TakePending(s);
      var b1 := b.(pending := Maps.Without(b.pending, b.nextOffset));
      WriteKeeps(source, took.state, b1, took.payload);
      var written := WritePayload(took.state, took.payload);
      var b2 := R.Buffer(b.nextOffset + |took.payload|, Maps.Without(b.pending, b.nextOffset), b.out + took.payload);
      if written.Ok? {
        FlushKeeps(source, written.state, b2);
      } else {
        FlushGrows(b2);
      }
    }
  }

  lemma {:induction false} FlushGrows(b: R.Buffer)
    ensures b.out <= R.Flush(b).out
    decreases |b.pending|
  {
    if b.nextOffset in b.pending {
      var payload := b.pending[b.nextOffset];
      FlushGrows(R.Buffer(b.nextOffset + |payload|, Maps.Without(b.pending, b.nextOffset), b.out + payload));
    }
  }

  lemma RepGainsMem(source: seq<Byte>, mem: map<nat, seq<Byte>>, lens: map<nat, nat>, all: map<nat, seq<Byte>>,
                    o: nat, payload: seq<Byte>)
    requires PendingRep(source, mem, lens, all) && o !in all
    ensures PendingRep(source, mem[o := payload], lens, all[o := payload])
  {
    hide IsSlice;
  }

  lemma RepGainsSpooled(source: seq<Byte>, mem: map<nat, seq<Byte>>, lens: map<nat, nat>, all: map<nat, seq<Byte>>,
                        o: nat, payload: seq<Byte>)
    requires PendingRep(source, mem, lens, all) && o !in all && IsSlice(source, o, payload)
    ensures PendingRep(source, mem, lens[o := |payload|], all[o := payload])
  {
    hide IsSlice;
  }

  /** A payload that is early is kept exactly once, in one of the tiers. */
  lemma StoreKeeps(source: seq<Byte>, s: State, b: R.Buffer, offset: nat, payload: seq<Byte>)
    requires OutputOk(source, s, b) && IsSlice(source, offset, payload) && 0 < |payload|
    ensures var r, b' := StorePending(s, offset, payload),
                         if offset in b.pending then b else b.(pending := b.pending[offset := payload]);
            if r.Ok? then OutputOk(source, r.state, b') && SameInput(s, r.state)
            else r.dst <= b.out && MaxInt < |source|
  {
    InOneTier(source, s, b, offset);
    var r := StorePending(s, offset, payload);
    if offset !in b.pending && r.Ok? {
      if s.pendingBytes + |payload| <= PendingOutputLimit {
        RepGainsMem(source, s.pending, s.spoolLens, b.pending, offset, payload);
        PendingGains(s, offset, payload);
        hide AllBacked, PendingCounted, PendingRep;
        SameSpool(source, s, r.state);
      } else {
        RepGainsSpooled(source, s.pending, s.spoolLens, b.pending, offset, payload);
        hide AllBacked, PendingCounted, PendingRep;
        SpoolPendingKeeps(source, s, offset, payload);
        SamePending(s, r.state);
      }
    }
  }

  /** Accepting a payload in two tiers is accepting it in one. */
  lemma AcceptDataKeeps(source: seq<Byte>, s: State, b: R.Buffer, offset: nat, payload: seq<Byte>)
    requires OutputOk(source, s, b) && IsSlice(source, offset, payload)
    ensures var r, b' := AcceptData(s, offset, payload), R.Accept(b, offset, payload);
            if r.Ok? then OutputOk(source, r.state, b') && SameInput(s, r.state)
            else r.dst <= b'.out && (s.capacity < |b'.out| || MaxInt < |source|)
  {
    hide OutputOk, StorePending, WritePayload, FlushPending, IsSlice;
    assert s.nextOffset == b.nextOffset by { SameOffset(source, s, b); }
    if 0 < |payload| && offset == b.nextOffset {
      WriteKeeps(source, s, b, payload);
      var r := WritePayload(s, payload);
      var b1 := b.(nextOffset := b.nextOffset + |payload|, out := b.out + payload);
      FlushGrows(b1);
      if r.Ok? {
        FlushKeeps(source, r.state, b1);
      }
    } else if 0 < |payload| && offset > b.nextOffset {
      StoreKeeps(source, s, b, offset, payload);
    }
  }

  lemma SameOffset(source: seq<Byte>, s: State, b: R.Buffer)
    requires OutputOk(source, s, b)
    ensures s.nextOffset == b.nextOffset && s.dst <= b.out
  {
  }
}

/** Reassembly by offset: pieces of one source arrive in any order and are written out in
    order, pieces that are early waiting in a map keyed by offset. */
module Reassembly {
  import Maps
  import opened Bits

  /** One piece of the source. */
  datatype Chunk = Chunk(offset: nat, payload: seq<Byte>)

  datatype Buffer = Buffer(nextOffset: nat, pending: map<nat, seq<Byte>>, out: seq<Byte>)

  /** Writes out waiting pieces for as long as the next one is there. */
  function Flush(b: Buffer): Buffer
    decreases |b.pending|
  {
    if b.nextOffset !in b.pending then b
    else
      var payload := b.pending[b.nextOffset];
      Flush(Buffer(b.nextOffset + |payload|, Maps.Without(b.pending, b.nextOffset), b.out + payload))
  }

  /** Takes one piece: written at once, kept for later, or ignored because it is old. */
  function Accept(b: Buffer, offset: nat, payload: seq<Byte>): Buffer {
    if |payload| == 0 then b
    else if offset == b.nextOffset then
      Flush(b.(nextOffset := b.nextOffset + |payload|, out := b.out + payload))
    else if offset > b.nextOffset && offset !in b.pending then
      b.(pending := b.pending[offset := payload])
    else b
  }

  // ----- What the buffer stands for -----

  /** The offset at which chunk `g` starts; `end` is where the next chunk would. */
  ghost function Off(chunks: seq<Chunk>, end: nat, g: nat): nat {
    if g < |chunks| then chunks[g].offset else end
  }

  /** The chunks cut `source[..end]` into consecutive non-empty pieces. */
  ghost predicate Cuts(chunks: seq<Chunk>, source: seq<Byte>, end: nat) {
    && end <= |source|
    && Off(chunks, end, 0) == 0
    && (forall g :: 0 <= g < |chunks| ==> Piece(source, chunks[g], Off(chunks, end, g + 1)))
  }

  ghost predicate Piece(source: seq<Byte>, c: Chunk, next: nat) {
    && 0 < |c.payload|
    && c.offset + |c.payload| == next <= |source|
    && c.payload == source[c.offset..next]
  }

  /** With the chunks of `accepted` taken, the first `w` chunks are written and the other
      accepted ones wait. */
  ghost predicate Waiting(chunks: seq<Chunk>, accepted: set<nat>, w: nat, pending: map<nat, seq<Byte>>) {
    && (forall g: nat :: g < w ==> g in accepted)
    && (forall g :: g in accepted ==> g < |chunks|)
    && (forall g :: g in accepted && w <= g ==>
          chunks[g].offset in pending && pending[chunks[g].offset] == chunks[g].payload)
    && (forall o :: o in pending ==> exists g :: g in accepted && w <= g && chunks[g].offset == o)
  }

  ghost predicate Written(chunks: seq<Chunk>, source: seq<Byte>, end: nat, w: nat, nextOffset: nat, out: seq<Byte>) {
    && w <= |chunks|
    && nextOffset == Off(chunks, end, w) <= |source|
    && out == source[..nextOffset]
  }

  /** The buffer is exactly what taking the accepted chunks produces. */
  ghost predicate Holds(chunks: seq<Chunk>, source: seq<Byte>, end: nat, accepted: set<nat>, w: nat, b: Buffer) {
    && Written(chunks, source, end, w, b.nextOffset, b.out)
    && Waiting(chunks, accepted, w, b.pending)
  }

  lemma NextOffsetIsLarger(chunks: seq<Chunk>, source: seq<Byte>, end: nat, g: nat)
    requires Cuts(chunks, source, end) && g < |chunks|
    ensures Off(chunks, end, g) < Off(chunks, end, g + 1) <= |source|
  {
    assert Piece(source, chunks[g], Off(chunks, end, g + 1));
  }

  lemma {:induction false} OffsetsIncrease(chunks: seq<Chunk>, source: seq<Byte>, end: nat, g: nat, h: nat)
    requires Cuts(chunks, source, end) && g < h <= |chunks|
    ensures Off(chunks, end, g) < Off(chunks, end, h) <= |source|
    decreases h - g
  {
    hide Cuts;
    NextOffsetIsLarger(chunks, source, end, g);
    if g + 1 < h {
      OffsetsIncrease(chunks, source, end, g + 1, h);
    }
  }

  /** Two chunks with the same offset are the same chunk. */
  lemma OffsetsDistinct(chunks: seq<Chunk>, source: seq<Byte>, end: nat, g: nat, h: nat)
    requires Cuts(chunks, source, end) && g <= |chunks| && h <= |chunks|
    requires Off(chunks, end, g) == Off(chunks, end, h)
    ensures g == h
  {
    hide Cuts;
    if g < h {
      OffsetsIncrease(chunks, source, end, g, h);
    } else if h < g {
      OffsetsIncrease(chunks, source, end, h, g);
    }
  }

  lemma WriteNext(chunks: seq<Chunk>, source: seq<Byte>, end: nat, w: nat, nextOffset: nat, out: seq<Byte>)
    requires Cuts(chunks, source, end) && w < |chunks|
    requires Written(chunks, source, end, w, nextOffset, out)
    ensures Written(chunks, source, end, w + 1, nextOffset + |chunks[w].payload|, out + chunks[w].payload)
  {
    var c := chunks[w];
    assert Piece(source, c, Off(chunks, end, w + 1));
    assert c.offset == nextOffset;
    hide Cuts, Off;
    PrefixGrows(source, nextOffset, nextOffset + |c.payload|, out, c.payload);
  }

  lemma PrefixGrows(source: seq<Byte>, a: nat, b: nat, out: seq<Byte>, payload: seq<Byte>)
    requires a <= b <= |source| && out == source[..a] && payload == source[a..b]
    ensures out + payload == source[..b]
  {
  }

  /** Moving chunk `w` from waiting to written. */
  lemma WaitingAfterWrite(chunks: seq<Chunk>, source: seq<Byte>, end: nat, accepted: set<nat>, w: nat,
                          pending: map<nat, seq<Byte>>)
    requires Cuts(chunks, source, end)
    requires Waiting(chunks, accepted, w, pending) && w in accepted
    ensures chunks[w].offset in pending
    ensures Waiting(chunks, accepted, w + 1, Maps.Without(pending, chunks[w].offset))
  {
    hide Cuts;
    var rest := Maps.Without(pending, chunks[w].offset);
    forall g | g in accepted && w + 1 <= g
      ensures chunks[g].offset in rest && rest[chunks[g].offset] == chunks[g].payload
    {
      OffsetsIncrease(chunks, source, end, w, g);
    }
    forall o | o in rest
      ensures exists g :: g in accepted && w + 1 <= g && chunks[g].offset == o
    {
      var g :| g in accepted && w <= g && chunks[g].offset == o;
      assert g != w;
    }
  }

  /** If something waits at the next offset, it is chunk `w`. */
  lemma WaitingAtNext(chunks: seq<Chunk>, source: seq<Byte>, end: nat, accepted: set<nat>, w: nat, b: Buffer)
    requires Cuts(chunks, source, end) && Holds(chunks, source, end, accepted, w, b)
    ensures b.nextOffset in b.pending <==> w in accepted
    ensures w in accepted ==> b.pending[b.nextOffset] == chunks[w].payload
  {
    hide Cuts;
    if b.nextOffset in b.pending {
      var g :| g in accepted && w <= g && chunks[g].offset == b.nextOffset;
      OffsetsDistinct(chunks, source, end, g, w);
    }
  }

  lemma {:induction false} FlushHolds(chunks: seq<Chunk>, source: seq<Byte>, end: nat, accepted: set<nat>, w: nat,
                                      b: Buffer)
    returns (w': nat)
    requires Cuts(chunks, source, end) && Holds(chunks, source, end, accepted, w, b)
    ensures w <= w' && w' !in accepted
    ensures Holds(chunks, source, end, accepted, w', Flush(b))
    decreases |b.pending|
  {
    hide Cuts, Waiting, Written;
    WaitingAtNext(chunks, source, end, accepted, w, b);
    if w in accepted {
      InRange(chunks, accepted, w, b.pending);
      WriteNext(chunks, source, end, w, b.nextOffset, b.out);
      AtOffset(chunks, source, end, w, b.nextOffset, b.out);
      WaitingAfterWrite(chunks, source, end, accepted, w, b.pending);
      w' := FlushHolds(chunks, source, end, accepted, w + 1,
                       Buffer(b.nextOffset + |chunks[w].payload|, Maps.Without(b.pending, b.nextOffset),
                              b.out + chunks[w].payload));
    } else {
      w' := w;
    }
  }

  lemma InRange(chunks: seq<Chunk>, accepted: set<nat>, w: nat, pending: map<nat, seq<Byte>>)
    requires Waiting(chunks, accepted, w, pending)
    ensures forall g :: g in accepted ==> g < |chunks|
    ensures forall g: nat :: g !in accepted ==> w <= g
  {
  }

  lemma AtOffset(chunks: seq<Chunk>, source: seq<Byte>, end: nat, w: nat, nextOffset: nat, out: seq<Byte>)
    requires Written(chunks, source, end, w, nextOffset, out) && w < |chunks|
    ensures chunks[w].offset == nextOffset
  {
  }

  /** Taking a chunk that was not taken before keeps the buffer exact, and leaves nothing
      that could have been written. */
  lemma AcceptHolds(chunks: seq<Chunk>, source: seq<Byte>, end: nat, accepted: set<nat>, w: nat, b: Buffer, g: nat)
    returns (w': nat)
    requires Cuts(chunks, source, end) && Holds(chunks, source, end, accepted, w, b)
    requires w !in accepted && g !in accepted && g < |chunks|
    ensures w <= w' && w' !in accepted + {g}
    ensures Holds(chunks, source, end, accepted + {g}, w', Accept(b, chunks[g].offset, chunks[g].payload))
  {
    hide Cuts, Written, Waiting, Flush;
    InRange(chunks, accepted, w, b.pending);
    ChunkNotEmpty(chunks, source, end, g);
    if g == w {
      WriteNext(chunks, source, end, w, b.nextOffset, b.out);
      AtOffset(chunks, source, end, w, b.nextOffset, b.out);
      WaitingWithWritten(chunks, accepted, w, b.pending);
      var b' := b.(nextOffset := b.nextOffset + |chunks[w].payload|, out := b.out + chunks[w].payload);
      w' := FlushHolds(chunks, source, end, accepted + {g}, w + 1, b');
    } else {
      OffsetsIncrease(chunks, source, end, w, g);
      AtOffset(chunks, source, end, w, b.nextOffset, b.out);
      WaitingWithLater(chunks, source, end, accepted, w, b.pending, g);
      w' := w;
    }
  }

  lemma ChunkNotEmpty(chunks: seq<Chunk>, source: seq<Byte>, end: nat, g: nat)
    requires Cuts(chunks, source, end) && g < |chunks|
    ensures 0 < |chunks[g].payload|
  {
    assert Piece(source, chunks[g], Off(chunks, end, g + 1));
  }

  lemma WaitingWithWritten(chunks: seq<Chunk>, accepted: set<nat>, w: nat, pending: map<nat, seq<Byte>>)
    requires Waiting(chunks, accepted, w, pending) && w !in accepted && w < |chunks|
    ensures Waiting(chunks, accepted + {w}, w + 1, pending)
  {
    forall o | o in pending
      ensures exists g :: g in accepted + {w} && w + 1 <= g && chunks[g].offset == o
    {
      var g :| g in accepted && w <= g && chunks[g].offset == o;
    }
  }

  lemma WaitingWithLater(chunks: seq<Chunk>, source: seq<Byte>, end: nat, accepted: set<nat>, w: nat,
                         pending: map<nat, seq<Byte>>, g: nat)
    requires Cuts(chunks, source, end) && Waiting(chunks, accepted, w, pending)
    requires g !in accepted && w < g < |chunks|
    ensures chunks[g].offset !in pending
    ensures Waiting(chunks, accepted + {g}, w, pending[chunks[g].offset := chunks[g].payload])
  {
    hide Cuts;
    if chunks[g].offset in pending {
      var h :| h in accepted && w <= h && chunks[h].offset == chunks[g].offset;
      OffsetsDistinct(chunks, source, end, g, h);
    }
    var pending' := pending[chunks[g].offset := chunks[g].payload];
    forall h | h in accepted + {g} && w <= h
      ensures chunks[h].offset in pending' && pending'[chunks[h].offset] == chunks[h].payload
    {
      if h != g {
        assert chunks[h].offset in pending;
      }
    }
    forall o | o in pending'
      ensures exists h :: h in accepted + {g} && w <= h && chunks[h].offset == o
    {
      if o == chunks[g].offset {
        assert g in accepted + {g};
      } else {
        var h :| h in accepted && w <= h && chunks[h].offset == o;
        assert h in accepted + {g};
      }
    }
  }

  /** When every chunk is accepted, everything is written and nothing waits. */
  lemma AllAccepted(chunks: seq<Chunk>, source: seq<Byte>, end: nat, accepted: set<nat>, w: nat, b: Buffer)
    requires Holds(chunks, source, end, accepted, w, b) && w !in accepted
    requires forall g: nat :: g < |chunks| ==> g in accepted
    ensures b.nextOffset == end && b.pending == map[] && b.out == source[..end]
  {
    assert w == |chunks|;
  }

  /** Appending a chunk to the plan disturbs nothing. */
  lemma PlanGrows(chunks: seq<Chunk>, source: seq<Byte>, end: nat, accepted: set<nat>, w: nat, b: Buffer, c: Chunk)
    requires Cuts(chunks, source, end) && Holds(chunks, source, end, accepted, w, b)
    requires c.offset == end && 0 < |c.payload| && end + |c.payload| <= |source|
    requires c.payload == source[end..end + |c.payload|]
    ensures Cuts(chunks + [c], source, end + |c.payload|)
    ensures Holds(chunks + [c], source, end + |c.payload|, accepted, w, b)
  {
    var chunks', end' := chunks + [c], end + |c.payload|;
    forall g | 0 <= g < |chunks'|
      ensures Piece(source, chunks'[g], Off(chunks', end', g + 1))
    {
      if g < |chunks| {
        assert Piece(source, chunks[g], Off(chunks, end, g + 1));
      }
    }
  }
}

/** The receiver's parity bookkeeping for one lane, and what recovery yields. */
module ParityRecovery {
  import B = BlockStriping
  import opened Arithmetic
  import opened Bits
  import opened Parity

  datatype ParityPacket = ParityPacket(startSeq: nat, offset: nat, count: nat, payload: seq<Byte>)

  datatype Fec = Fec(groups: map<nat, seq<Byte>>, parities: map<nat, ParityPacket>, seen: set<nat>, maxSeqPlusOne: nat)

  function GroupStart(groupSize: nat, n: nat): nat
    requires groupSize > 0
  {
    (n / groupSize) * groupSize
  }

  // ----- What arrives -----

  predicate AllSeen(seen: set<nat>, start: nat, count: nat) {
    forall n :: start <= n < start + count ==> n in seen
  }

  /** Forgets a group once all its packets are there. */
  function Cleanup(f: Fec, start: nat, count: nat): Fec {
    if AllSeen(f.seen, start, count) then f.(groups := f.groups - {start}, parities := f.parities - {start}) else f
  }

  function Accept(f: Fec, n: nat): Fec {
    f.(seen := f.seen + {n}, maxSeqPlusOne := if n + 1 > f.maxSeqPlusOne then n + 1 else f.maxSeqPlusOne)
  }

  function StorePayload(f: Fec, groupSize: nat, n: nat, payload: seq<Byte>): Fec
    requires groupSize > 0
  {
    var start := GroupStart(groupSize, n);
    var xor := if start in f.groups then f.groups[start] else [];
    if |payload| == 0 then f
    else Cleanup(f.(groups := f.groups[start := Xor(xor, payload)]), start, groupSize)
  }

  /** A DATA packet, from the network or recovered. */
  function Take(f: Fec, groupSize: nat, n: nat, payload: seq<Byte>): Fec
    requires groupSize > 0
  {
    if n in f.seen then f else StorePayload(Accept(f, n), groupSize, n, payload)
  }

  function StoreParity(f: Fec, p: ParityPacket): Fec {
    if p.count == 0 || |p.payload| == 0 then f
    else Cleanup(f.(parities := f.parities[p.startSeq := p]), p.startSeq, p.count)
  }

  // ----- Recovery -----

  /** The sequence numbers in a range that were not seen, in order. */
  function MissingIn(seen: set<nat>, lo: nat, hi: nat): seq<nat> {
    if hi <= lo then [] else MissingIn(seen, lo, hi - 1) + (if hi - 1 in seen then [] else [hi - 1])
  }

  datatype Recovery =
    | Recovered(seqNo: nat, offset: int, payload: seq<Byte>)
    | Kept      // nothing can be said yet
    | Complete  // nothing is missing
    | Beyond    // the missing packet would start behind the end

  /** What recovery makes of one stored parity packet; `known` is the size of the source, or
      0 while it is not known. */
  function Recover(f: Fec, start: nat, chunkSize: nat, stripes: nat, known: nat): Recovery
    requires start in f.parities
  {
    var p := f.parities[start];
    var missing := MissingIn(f.seen, p.startSeq, p.startSeq + p.count);
    if known == 0 && p.startSeq + p.count >= f.maxSeqPlusOne then Kept
    else if |missing| == 0 then Complete
    else if |missing| > 1 || start !in f.groups || |f.groups[start]| == 0 then Kept
    else Rebuild(p, f.groups[start], missing[0], chunkSize, stripes, known)
  }

  function Rebuild(p: ParityPacket, xor: seq<Byte>, m: nat, chunkSize: nat, stripes: nat, known: nat): Recovery {
    var payload := Xor(p.payload, xor);
    var offset := B.FECOffsetForSeq(p.offset, p.startSeq, m, chunkSize, stripes);
    if known > 0 && offset >= known then Beyond
    else if 0 <= known - offset < |payload| && known > offset then Recovered(m, offset, payload[..known - offset])
    else Recovered(m, offset, payload)
  }

  /** The state after recovery looked at one stored parity packet; a recovered packet is
      taken in like one from the network. */
  function AfterRecover(f: Fec, start: nat, groupSize: nat, chunkSize: nat, stripes: nat, known: nat): Fec
    requires start in f.parities && groupSize > 0
  {
    match Recover(f, start, chunkSize, stripes, known)
    case Recovered(m, _, payload) => Take(f.(parities := f.parities - {start}), groupSize, m, payload)
    case Kept => f
    case Complete => Cleanup(f, f.parities[start].startSeq, f.parities[start].count)
    case Beyond => f.(parities := f.parities - {start})
  }

  // ----- The invariant -----

  function GroupEnd(l: Lane, start: nat): nat
    requires LaneOk(l)
  {
    if start + l.groupSize <= Packets(l) then start + l.groupSize else Packets(l)
  }

  /** The parity packet that the sender puts out for the group that starts at `start`. */
  ghost predicate IsParity(l: Lane, start: nat, p: ParityPacket)
    requires LaneOk(l)
  {
    && start % l.groupSize == 0 && start < Packets(l)
    && p.startSeq == start && p.offset == Off(l, start) && start + p.count == GroupEnd(l, start)
    && |p.payload| == l.chunkSize
    && (forall i :: 0 <= i < l.chunkSize ==> p.payload[i] == XorAll(l, start, GroupEnd(l, start), i))
  }

  /** The XOR kept for a group is that of its packets seen so far. */
  ghost predicate GroupOk(l: Lane, seen: set<nat>, start: nat, xor: seq<Byte>)
    requires LaneOk(l)
  {
    && |xor| <= l.chunkSize
    && (forall i: nat :: At(xor, i) == XorSeen(l, start, GroupEnd(l, start), seen, i))
  }

  ghost predicate NoneSeen(l: Lane, seen: set<nat>, start: nat)
    requires LaneOk(l)
  {
    forall n :: start <= n < GroupEnd(l, start) ==> n !in seen
  }

  ghost predicate WholeSeen(l: Lane, seen: set<nat>, start: nat)
    requires LaneOk(l)
  {
    forall n :: start <= n < GroupEnd(l, start) ==> n in seen
  }

  /** A group that is kept has a packet that was seen. */
  ghost predicate LiveGroup(l: Lane, seen: set<nat>, start: nat, xor: seq<Byte>)
    requires LaneOk(l)
  {
    0 < |xor| && !NoneSeen(l, seen, start) && GroupOk(l, seen, start, xor)
  }

  ghost predicate GroupsOk(l: Lane, seen: set<nat>, groups: map<nat, seq<Byte>>)
    requires LaneOk(l)
  {
    && (forall s :: s in groups ==> s % l.groupSize == 0 && LiveGroup(l, seen, s, groups[s]))
    && (forall s: nat :: s % l.groupSize == 0 && s !in groups ==> NoneSeen(l, seen, s) || WholeSeen(l, seen, s))
  }

  ghost predicate ParitiesOk(l: Lane, parities: map<nat, ParityPacket>)
    requires LaneOk(l)
  {
    forall s :: s in parities ==> IsParity(l, s, parities[s])
  }

  /** Only packets of the lane and its DONE were seen, and the edge is exact. */
  ghost predicate SeenOk(l: Lane, seen: set<nat>, edge: nat)
    requires LaneOk(l)
  {
    && (forall n :: n in seen ==> n <= Packets(l) && n < edge)
    && (edge > 0 ==> edge - 1 in seen)
  }

  ghost predicate FecOk(l: Lane, f: Fec) {
    && LaneOk(l)
    && SeenOk(l, f.seen, f.maxSeqPlusOne)
    && GroupsOk(l, f.seen, f.groups)
    && ParitiesOk(l, f.parities)
  }

  // ----- Groups -----

  lemma InGroup(groupSize: nat, n: nat, s: nat)
    requires groupSize > 0 && s % groupSize == 0
    ensures s <= n < s + groupSize <==> s == GroupStart(groupSize, n)
  {
    var q, r, k := n / groupSize, n % groupSize, s / groupSize;
    assert n == q * groupSize + r && s == k * groupSize;
    if s <= n < s + groupSize {
      DivMod(n, groupSize, k, n - s);
    }
  }

  lemma StartIsStart(groupSize: nat, n: nat)
    requires groupSize > 0
    ensures GroupStart(groupSize, n) % groupSize == 0
    ensures GroupStart(groupSize, n) <= n < GroupStart(groupSize, n) + groupSize
  {
    DivMod((n / groupSize) * groupSize, groupSize, n / groupSize, 0);
  }

  lemma OtherGroup(l: Lane, seen: set<nat>, s: nat, xor: seq<Byte>, n: nat)
    requires LaneOk(l) && GroupOk(l, seen, s, xor) && !(s <= n < GroupEnd(l, s))
    ensures GroupOk(l, seen + {n}, s, xor)
  {
    hide XorSeen;
    forall i: nat
      ensures At(xor, i) == XorSeen(l, s, GroupEnd(l, s), seen + {n}, i)
    {
      XorSeenSame(l, s, GroupEnd(l, s), seen, n, i);
    }
  }

  /** A payload with any number of the parity's padding zeros still on it. */
  ghost predicate PaddedOf(l: Lane, n: nat, q: seq<Byte>) {
    0 < |q| <= l.chunkSize && forall i: nat :: At(q, i) == At(Payload(l, n), i)
  }

  /** Padding makes no difference to the XOR. */
  lemma OwnGroup(l: Lane, seen: set<nat>, s: nat, xor: seq<Byte>, n: nat, q: seq<Byte>)
    requires LaneOk(l) && GroupOk(l, seen, s, xor) && s <= n < GroupEnd(l, s) && n !in seen && PaddedOf(l, n, q)
    ensures GroupOk(l, seen + {n}, s, Xor(xor, q))
  {
    hide XorSeen, Payload;
    forall i: nat
      ensures At(Xor(xor, q), i) == XorSeen(l, s, GroupEnd(l, s), seen + {n}, i)
    {
      XorSeenGains(l, s, GroupEnd(l, s), seen, n, i);
    }
  }

  lemma ShortPayload(l: Lane, n: nat)
    ensures |Payload(l, n)| <= l.chunkSize
  {
  }

  lemma NewGroup(l: Lane, seen: set<nat>, s: nat)
    requires LaneOk(l) && NoneSeen(l, seen, s)
    ensures GroupOk(l, seen, s, [])
  {
    hide XorSeen;
    forall i: nat
      ensures At([], i) == XorSeen(l, s, GroupEnd(l, s), seen, i)
    {
      XorSeenNone(l, s, GroupEnd(l, s), seen, i);
    }
  }

  // ----- Every arrival keeps the invariant -----

  /** A packet outside the group changes nothing for it. */
  lemma Elsewhere(l: Lane, seen: set<nat>, s: nat, n: nat)
    requires LaneOk(l) && !(s <= n < GroupEnd(l, s)) && (NoneSeen(l, seen, s) || WholeSeen(l, seen, s))
    ensures NoneSeen(l, seen + {n}, s) || WholeSeen(l, seen + {n}, s)
  {
    if NoneSeen(l, seen, s) {
      assert NoneSeen(l, seen + {n}, s);
    } else {
      assert WholeSeen(l, seen + {n}, s);
    }
  }

  lemma StaysSeen(l: Lane, seen: set<nat>, s: nat, n: nat)
    requires LaneOk(l) && !NoneSeen(l, seen, s)
    ensures !NoneSeen(l, seen + {n}, s)
  {
    var k :| s <= k < GroupEnd(l, s) && k in seen;
    assert k in seen + {n};
  }

  lemma NowSeen(l: Lane, seen: set<nat>, s: nat, n: nat)
    requires LaneOk(l) && s <= n < GroupEnd(l, s) && n in seen
    ensures !NoneSeen(l, seen, s)
  {
  }

  /** The DONE of a lane is in no group. */
  lemma GroupsWithDone(l: Lane, seen: set<nat>, groups: map<nat, seq<Byte>>)
    requires LaneOk(l) && GroupsOk(l, seen, groups)
    ensures GroupsOk(l, seen + {Packets(l)}, groups)
  {
    var seen' := seen + {Packets(l)};
    hide GroupOk, NoneSeen, WholeSeen, Packets;
    forall s | s in groups
      ensures LiveGroup(l, seen', s, groups[s])
    {
      OtherGroup(l, seen, s, groups[s], Packets(l));
      StaysSeen(l, seen, s, Packets(l));
    }
    forall s: nat | s % l.groupSize == 0 && s !in groups
      ensures NoneSeen(l, seen', s) || WholeSeen(l, seen', s)
    {
      Elsewhere(l, seen, s, Packets(l));
    }
  }

  lemma GroupsWithPayload(l: Lane, seen: set<nat>, groups: map<nat, seq<Byte>>, n: nat, q: seq<Byte>)
    requires LaneOk(l) && GroupsOk(l, seen, groups) && n < Packets(l) && n !in seen && PaddedOf(l, n, q)
    ensures var start := GroupStart(l.groupSize, n);
            var xor := if start in groups then groups[start] else [];
            GroupsOk(l, seen + {n}, groups[start := Xor(xor, q)])
  {
    var start, seen' := GroupStart(l.groupSize, n), seen + {n};
    var xor := if start in groups then groups[start] else [];
    var groups' := groups[start := Xor(xor, q)];
    StartIsStart(l.groupSize, n);
    if start !in groups {
      assert NoneSeen(l, seen, start);
      NewGroup(l, seen, start);
    }
    if start in groups {
      assert LiveGroup(l, seen, start, groups[start]);
    }
    hide GroupOk, NoneSeen, WholeSeen, Packets, Xor, Payload, GroupStart;
    OwnGroup(l, seen, start, xor, n, q);
    NowSeen(l, seen', start, n);
    forall s | s in groups'
      ensures s % l.groupSize == 0 && LiveGroup(l, seen', s, groups'[s])
    {
      if s != start {
        InGroup(l.groupSize, n, s);
        OtherGroup(l, seen, s, groups[s], n);
        StaysSeen(l, seen, s, n);
      }
    }
    forall s: nat | s % l.groupSize == 0 && s !in groups'
      ensures NoneSeen(l, seen', s) || WholeSeen(l, seen', s)
    {
      InGroup(l.groupSize, n, s);
      Elsewhere(l, seen, s, n);
    }
  }

  lemma CleanupKeeps(l: Lane, f: Fec, start: nat, count: nat)
    requires FecOk(l, f) && GroupEnd(l, start) <= start + count
    ensures FecOk(l, Cleanup(f, start, count))
  {
    hide LiveGroup, IsParity, NoneSeen, Packets;
    if AllSeen(f.seen, start, count) {
      assert WholeSeen(l, f.seen, start);
      hide WholeSeen;
    }
  }

  lemma AcceptSeen(l: Lane, f: Fec, n: nat)
    requires LaneOk(l) && SeenOk(l, f.seen, f.maxSeqPlusOne) && n <= Packets(l)
    ensures SeenOk(l, Accept(f, n).seen, Accept(f, n).maxSeqPlusOne)
  {
    hide Packets;
  }

  lemma DoneKeeps(l: Lane, f: Fec)
    requires FecOk(l, f)
    ensures FecOk(l, Accept(f, Packets(l)))
  {
    hide SeenOk, GroupsOk, Packets;
    AcceptSeen(l, f, Packets(l));
    GroupsWithDone(l, f.seen, f.groups);
  }

  lemma SentIsPadded(l: Lane, n: nat)
    requires LaneOk(l) && n < Packets(l)
    ensures PaddedOf(l, n, Payload(l, n))
  {
    InLane(l, n);
  }

  /** Taking in a packet from the network, or a recovered one with or without padding. */
  lemma TakeKeeps(l: Lane, f: Fec, n: nat, q: seq<Byte>)
    requires FecOk(l, f) && n < Packets(l) && PaddedOf(l, n, q)
    ensures FecOk(l, Take(f, l.groupSize, n, q))
  {
    assert 0 < |q|;
    hide SeenOk, GroupsOk, ParitiesOk, Packets, PaddedOf, Cleanup;
    if n !in f.seen {
      AcceptSeen(l, f, n);
      GroupsWithPayload(l, f.seen, f.groups, n, q);
      var start := GroupStart(l.groupSize, n);
      var xor := if start in f.groups then f.groups[start] else [];
      CleanupKeeps(l, Accept(f, n).(groups := f.groups[start := Xor(xor, q)]), start, l.groupSize);
    }
  }

  lemma ParityKeeps(l: Lane, f: Fec, p: ParityPacket)
    requires FecOk(l, f) && IsParity(l, p.startSeq, p)
    ensures FecOk(l, StoreParity(f, p))
  {
    var f' := f.(parities := f.parities[p.startSeq := p]);
    assert GroupEnd(l, p.startSeq) == p.startSeq + p.count;
    hide SeenOk, GroupsOk, IsParity, Packets, Cleanup;
    CleanupKeeps(l, f', p.startSeq, p.count);
  }

  // ----- What recovery yields -----

  lemma {:induction false} MissingIs(seen: set<nat>, lo: nat, hi: nat, n: nat)
    ensures n in MissingIn(seen, lo, hi) <==> lo <= n < hi && n !in seen
  {
    if lo < hi {
      MissingIs(seen, lo, hi - 1, n);
    }
  }

  lemma MissingAre(seen: set<nat>, lo: nat, hi: nat)
    ensures forall n: nat :: n in MissingIn(seen, lo, hi) <==> lo <= n < hi && n !in seen
  {
    hide MissingIn;
    forall n: nat
      ensures n in MissingIn(seen, lo, hi) <==> lo <= n < hi && n !in seen
    {
      MissingIs(seen, lo, hi, n);
    }
  }

  /** With exactly one packet missing, undoing the XOR yields its payload, padded. */
  lemma PaddedPayload(l: Lane, seen: set<nat>, p: ParityPacket, xor: seq<Byte>, m: nat, i: nat)
    requires LaneOk(l) && IsParity(l, p.startSeq, p) && GroupOk(l, seen, p.startSeq, xor)
    requires p.startSeq <= m < GroupEnd(l, p.startSeq) && m !in seen && i < l.chunkSize
    requires forall n :: p.startSeq <= n < GroupEnd(l, p.startSeq) && n != m ==> n in seen
    ensures |Xor(p.payload, xor)| == l.chunkSize && Xor(p.payload, xor)[i] == At(Payload(l, m), i)
  {
    var s, e := p.startSeq, GroupEnd(l, p.startSeq);
    MissingIsLeft(l, s, e, seen, m, i);
    assert At(Xor(p.payload, xor), i) == At(p.payload, i) ^ At(xor, i);
    assert At(p.payload, i) == XorAll(l, s, e, i);
    assert At(xor, i) == XorSeen(l, s, e, seen, i);
  }

  /** A padded payload is the payload exactly if it is trimmed to size or was whole. */
  lemma TrimmedPayload(l: Lane, m: nat, padded: seq<Byte>, known: nat)
    requires LaneOk(l) && m < Packets(l) && |padded| == l.chunkSize
    requires forall i :: 0 <= i < l.chunkSize ==> padded[i] == At(Payload(l, m), i)
    requires KnownSize(l, known)
    ensures Off(l, m) < |l.source|
    ensures var room := known - Off(l, m);
            var payload := if 0 < room < |padded| then padded[..room] else padded;
            PaddedOf(l, m, payload) && (payload == Payload(l, m) <==> known > 0 || IsFull(l, m))
  {
    InLane(l, m);
    hide B.Global;
    var sent := Payload(l, m);
    assert padded[..|sent|] == sent;
  }

  lemma GroupIsLive(l: Lane, f: Fec, start: nat, m: nat)
    requires FecOk(l, f) && start in f.groups && start in f.parities
    ensures GroupOk(l, f.seen, start, f.groups[start]) && IsParity(l, start, f.parities[start])
  {
    assert LiveGroup(l, f.seen, start, f.groups[start]);
    hide GroupOk, IsParity, SeenOk;
  }

  /** Where recovery fires: exactly one packet of the group was missing. */
  lemma OnlyOneMissing(l: Lane, f: Fec, start: nat, chunkSize: nat, stripes: nat, known: nat)
    requires FecOk(l, f) && start in f.parities && Recover(f, start, chunkSize, stripes, known).Recovered?
    ensures start in f.groups
    ensures var m := Recover(f, start, chunkSize, stripes, known).seqNo;
            && start <= m < GroupEnd(l, start) && m !in f.seen
            && (forall n :: start <= n < GroupEnd(l, start) && n != m ==> n in f.seen)
    ensures known == 0 ==> GroupEnd(l, start) < f.maxSeqPlusOne
    ensures Recover(f, start, chunkSize, stripes, known)
            == Rebuild(f.parities[start], f.groups[start], Recover(f, start, chunkSize, stripes, known).seqNo,
                       chunkSize, stripes, known)
  {
    hide FecOk, GroupEnd, MissingIn, Rebuild;
    ParityShape(l, f, start);
    var p := f.parities[start];
    var missing := MissingIn(f.seen, start, start + p.count);
    MissingAre(f.seen, start, start + p.count);
    assert missing[0] in missing;
    OthersSeen(f.seen, start, start + p.count, missing);
    RebuildSeq(p, f.groups[start], missing[0], chunkSize, stripes, known);
  }

  lemma ParityShape(l: Lane, f: Fec, start: nat)
    requires FecOk(l, f) && start in f.parities
    ensures var p := f.parities[start];
            p.startSeq == start && start + p.count == GroupEnd(l, start) <= Packets(l)
            && p.offset == Off(l, start) && start % l.groupSize == 0
  {
    hide GroupsOk, SeenOk, Packets, Off;
    assert IsParity(l, start, f.parities[start]);
  }

  lemma RebuildSeq(p: ParityPacket, xor: seq<Byte>, m: nat, chunkSize: nat, stripes: nat, known: nat)
    ensures var r := Rebuild(p, xor, m, chunkSize, stripes, known); r.Beyond? || (r.Recovered? && r.seqNo == m)
  {
    hide Xor, B.FECOffsetForSeq;
  }

  lemma OthersSeen(seen: set<nat>, lo: nat, hi: nat, missing: seq<nat>)
    requires |missing| == 1 && forall n: nat :: n in missing <==> lo <= n < hi && n !in seen
    ensures forall n :: lo <= n < hi && n != missing[0] ==> n in seen
  {
    forall n | lo <= n < hi && n != missing[0]
      ensures n in seen
    {
      assert n !in missing;
    }
  }

  /** The size a receiver goes by: unknown, or the size of the source. */
  predicate KnownSize(l: Lane, known: nat) {
    known == 0 || known == |l.source|
  }

  /** Recovery yields the sequence number and the offset the sender used, and its payload up
      to padding. */
  lemma RecoveredPacket(l: Lane, f: Fec, start: nat, known: nat)
    requires FecOk(l, f) && start in f.parities && KnownSize(l, known)
    requires Recover(f, start, l.chunkSize, l.stripes, known).Recovered?
    ensures var r := Recover(f, start, l.chunkSize, l.stripes, known);
            && r.seqNo < Packets(l) && r.seqNo !in f.seen && r.offset == Off(l, r.seqNo)
            && PaddedOf(l, r.seqNo, r.payload)
            && (r.payload == Payload(l, r.seqNo) <==> known > 0 || IsFull(l, r.seqNo))
  {
    var p, r := f.parities[start], Recover(f, start, l.chunkSize, l.stripes, known);
    var m := r.seqNo;
    OnlyOneMissing(l, f, start, l.chunkSize, l.stripes, known);
    GroupIsLive(l, f, start, m);
    var xor := f.groups[start];
    assert p.startSeq == start && p.offset == Off(l, start) && m < Packets(l) && |Xor(p.payload, xor)| == l.chunkSize;
    hide FecOk, IsParity, GroupOk, Recover, Packets, Payload, Xor, MissingIn, PaddedOf;
    forall i | 0 <= i < l.chunkSize
      ensures Xor(p.payload, xor)[i] == At(Payload(l, m), i)
    {
      PaddedPayload(l, f.seen, p, xor, m, i);
    }
    TrimmedPayload(l, m, Xor(p.payload, xor), known);
    assert B.FECOffsetForSeq(p.offset, start, m, l.chunkSize, l.stripes) == Off(l, m) by {
      B.OffsetRecovered(l.stripe, start, m, l.chunkSize, l.stripes);
    }
    hide B.FECOffsetForSeq, Off, IsFull, GroupEnd;
  }

  // ----- When the payload is wrong -----

  /** The lane carries the last chunk of the source, and that is a short one. */
  predicate HasShortEnd(l: Lane)
    requires LaneOk(l)
  {
    |l.source| % l.chunkSize != 0 && B.Stripe(|l.source| / l.chunkSize, l.stripes) == l.stripe
  }

  /** Only the last packet of a lane can be short, and it is exactly if the lane has the
      short end of the source. */
  lemma ShortEndIsLast(l: Lane, m: nat)
    requires LaneOk(l) && m < Packets(l)
    ensures !IsFull(l, m) <==> m + 1 == Packets(l) && HasShortEnd(l)
  {
    hide Packets, B.Global, B.Stripe, B.Seq;
    var g := B.Global(l.stripe, m, l.stripes);
    InLane(l, m);
    B.GlobalThenStripe(l.stripe, m, l.stripes);
    if m + 1 < Packets(l) {
      FullBeforeAnother(l, m, m + 1);
    }
    if !IsFull(l, m) {
      DivMod(|l.source|, l.chunkSize, g, |l.source| - g * l.chunkSize);
    } else if m + 1 == Packets(l) && HasShortEnd(l) {
      EndIsBehind(l, m);
    }
  }

  /** A lane with the short end has a packet that is not whole. */
  lemma EndIsBehind(l: Lane, m: nat)
    requires LaneOk(l) && m + 1 == Packets(l) && HasShortEnd(l)
    ensures !IsFull(l, m)
  {
    hide Packets, B.Global, B.Stripe, B.Seq;
    var last := |l.source| / l.chunkSize;
    var n := B.Seq(last, l.stripes);
    B.StripeThenGlobal(last, l.stripes);
    assert |l.source| == last * l.chunkSize + |l.source| % l.chunkSize;
    InLane(l, n);
    if n < m {
      FullBeforeAnother(l, n, m);
    }
  }

  /** The last group of the lane lacks its last packet. */
  predicate LacksLast(l: Lane, f: Fec, start: nat)
    requires LaneOk(l)
  {
    0 < Packets(l) == GroupEnd(l, start) && Packets(l) - 1 !in f.seen
  }

  /** The payload is wrong exactly if the size is unknown, the DONE came early, and the
      missing packet is the last of a lane that has the short end of the source. */
  lemma WrongExactlyWhen(l: Lane, f: Fec, start: nat, known: nat)
    requires FecOk(l, f) && start in f.parities && KnownSize(l, known)
    requires Recover(f, start, l.chunkSize, l.stripes, known).Recovered?
    ensures var r := Recover(f, start, l.chunkSize, l.stripes, known);
            r.payload != Payload(l, r.seqNo) <==>
            known == 0 && Packets(l) in f.seen && LacksLast(l, f, start) && HasShortEnd(l)
  {
    var r := Recover(f, start, l.chunkSize, l.stripes, known);
    RecoveredPacket(l, f, start, known);
    OnlyOneMissing(l, f, start, l.chunkSize, l.stripes, known);
    ShortEndIsLast(l, r.seqNo);
    GroupInLane(l, start);
    if known == 0 && !IsFull(l, r.seqNo) {
      DoneCameEarly(l, f, start);
    }
    hide FecOk, Recover, Payload, Packets, Off, IsFull, HasShortEnd, GroupEnd, PaddedOf;
  }

  lemma GroupInLane(l: Lane, start: nat)
    requires LaneOk(l)
    ensures GroupEnd(l, start) <= Packets(l)
  {
    hide Packets;
  }

  /** The guard on the leading edge lets a short chunk through only if the DONE was seen. */
  lemma DoneCameEarly(l: Lane, f: Fec, start: nat)
    requires FecOk(l, f) && start in f.parities
    requires Recover(f, start, l.chunkSize, l.stripes, 0).Recovered?
    requires !IsFull(l, Recover(f, start, l.chunkSize, l.stripes, 0).seqNo)
    ensures Packets(l) in f.seen
  {
    OnlyOneMissing(l, f, start, l.chunkSize, l.stripes, 0);
    var m, edge := Recover(f, start, l.chunkSize, l.stripes, 0).seqNo, f.maxSeqPlusOne - 1;
    hide Recover, Packets, GroupEnd, GroupsOk, ParitiesOk, IsFull;
    assert edge in f.seen && m < edge <= Packets(l);
    if edge < Packets(l) {
      FullBeforeAnother(l, m, edge);
    }
  }

  lemma LosesParity(l: Lane, f: Fec, start: nat)
    requires FecOk(l, f)
    ensures FecOk(l, f.(parities := f.parities - {start}))
  {
    hide IsParity, GroupsOk, SeenOk;
  }

  lemma RecoverKeeps(l: Lane, f: Fec, start: nat, known: nat)
    requires FecOk(l, f) && start in f.parities && KnownSize(l, known)
    ensures FecOk(l, AfterRecover(f, start, l.groupSize, l.chunkSize, l.stripes, known))
  {
    var r := Recover(f, start, l.chunkSize, l.stripes, known);
    var p := f.parities[start];
    assert GroupEnd(l, p.startSeq) == p.startSeq + p.count by { assert IsParity(l, start, p); }
    hide FecOk, Recover, Packets, GroupEnd, Take, Cleanup, PaddedOf;
    LosesParity(l, f, start);
    CleanupKeeps(l, f, p.startSeq, p.count);
    if r.Recovered? {
      RecoveredPacket(l, f, start, known);
      TakeKeeps(l, f.(parities := f.parities - {start}), r.seqNo, r.payload);
    }
  }

  // ----- Runs -----

  datatype Step =
    | DataArrives(n: nat)
    | DoneArrives
    | ParityArrives(p: ParityPacket)
    | RecoveryLooks(start: nat, known: nat)

  ghost predicate Next(l: Lane, f: Fec, f': Fec, step: Step) {
    && LaneOk(l)
    && match step
       case DataArrives(n) => n < Packets(l) && f' == Take(f, l.groupSize, n, Payload(l, n))
       case DoneArrives => f' == Accept(f, Packets(l))
       case ParityArrives(p) => IsParity(l, p.startSeq, p) && f' == StoreParity(f, p)
       case RecoveryLooks(start, known) =>
         && start in f.parities && KnownSize(l, known)
         && f' == AfterRecover(f, start, l.groupSize, l.chunkSize, l.stripes, known)
  }

  ghost predicate IsRun(l: Lane, run: seq<Fec>, steps: seq<Step>) {
    && LaneOk(l) && |run| == |steps| + 1
    && run[0] == Fec(map[], map[], {}, 0)
    && (forall n :: 0 <= n < |steps| ==> Next(l, run[n], run[n + 1], steps[n]))
  }

  lemma StepKeeps(l: Lane, f: Fec, f': Fec, step: Step)
    requires FecOk(l, f) && Next(l, f, f', step)
    ensures FecOk(l, f')
  {
    hide FecOk, Take, Accept, StoreParity, AfterRecover, IsParity, PaddedOf;
    match step
    case DataArrives(n) =>
      SentIsPadded(l, n);
      TakeKeeps(l, f, n, Payload(l, n));
    case DoneArrives => DoneKeeps(l, f);
    case ParityArrives(p) => ParityKeeps(l, f, p);
    case RecoveryLooks(start, known) => RecoverKeeps(l, f, start, known);
  }

  lemma {:induction false} RunKeeps(l: Lane, run: seq<Fec>, steps: seq<Step>, n: nat)
    requires IsRun(l, run, steps) && n < |run|
    ensures FecOk(l, run[n])
  {
    if n > 0 {
      RunKeeps(l, run, steps, n - 1);
      assert Next(l, run[n - 1], run[n], steps[n - 1]);
      hide Next, FecOk;
      StepKeeps(l, run[n - 1], run[n], steps[n - 1]);
    }
  }

  /** In every run, past right and wrong recoveries alike: number and offset are those the
      sender used, and the payload is wrong exactly if the size is unknown, the DONE came
      early, and the missing packet is the last of a lane with the short end. */
  lemma EveryRecovery(l: Lane, run: seq<Fec>, steps: seq<Step>, n: nat, start: nat, known: nat)
    requires IsRun(l, run, steps) && n < |run| && start in run[n].parities && KnownSize(l, known)
    requires Recover(run[n], start, l.chunkSize, l.stripes, known).Recovered?
    ensures var r := Recover(run[n], start, l.chunkSize, l.stripes, known);
            && r.seqNo < Packets(l) && r.offset == Off(l, r.seqNo) && PaddedOf(l, r.seqNo, r.payload)
            && (r.payload != Payload(l, r.seqNo) <==>
                known == 0 && Packets(l) in run[n].seen && LacksLast(l, run[n], start) && HasShortEnd(l))
  {
    RunKeeps(l, run, steps, n);
    hide IsRun, FecOk, Recover, Payload, Packets, Off, HasShortEnd, LacksLast, PaddedOf;
    RecoveredPacket(l, run[n], start, known);
    WrongExactlyWhen(l, run[n], start, known);
  }

  /** A lane that does not carry a short end, because the chunk size divides the source or
      the last chunk is on another lane, recovers exactly, whatever arrives when. */
  lemma ExactWithoutShortEnd(l: Lane, run: seq<Fec>, steps: seq<Step>, n: nat, start: nat, known: nat)
    requires IsRun(l, run, steps) && n < |run| && start in run[n].parities && KnownSize(l, known)
    requires Recover(run[n], start, l.chunkSize, l.stripes, known).Recovered? && !HasShortEnd(l)
    ensures var r := Recover(run[n], start, l.chunkSize, l.stripes, known);
            r == Recovered(r.seqNo, Off(l, r.seqNo), Payload(l, r.seqNo))
  {
    hide IsRun, FecOk, Recover, Payload, Packets, Off, HasShortEnd, LacksLast, PaddedOf;
    EveryRecovery(l, run, steps, n, start, known);
  }

  lemma TakeSees(f: Fec, groupSize: nat, n: nat, payload: seq<Byte>)
    requires groupSize > 0
    ensures Take(f, groupSize, n, payload).seen == f.seen + {n}
  {
    if n in f.seen {
      assert f.seen + {n} == f.seen;
    }
    hide Xor, AllSeen;
  }

  lemma NoDoneYet(l: Lane, f: Fec, f': Fec, step: Step)
    requires FecOk(l, f) && Next(l, f, f', step) && !step.DoneArrives? && Packets(l) !in f.seen
    ensures Packets(l) !in f'.seen
  {
    hide FecOk, Take, Recover, IsParity, Packets, Payload, PaddedOf, AllSeen, Accept;
    match step
    case DataArrives(n) => TakeSees(f, l.groupSize, n, Payload(l, n));
    case DoneArrives =>
    case ParityArrives(p) =>
    case RecoveryLooks(start, known) =>
      var r := Recover(f, start, l.chunkSize, l.stripes, known);
      if r.Recovered? {
        RecoveredPacket(l, f, start, known);
        TakeSees(f.(parities := f.parities - {start}), l.groupSize, r.seqNo, r.payload);
      }
  }

  lemma {:induction false} NoDoneInRun(l: Lane, run: seq<Fec>, steps: seq<Step>, n: nat)
    requires IsRun(l, run, steps) && n < |run| && forall k :: 0 <= k < n ==> !steps[k].DoneArrives?
    ensures Packets(l) !in run[n].seen
  {
    if n > 0 {
      NoDoneInRun(l, run, steps, n - 1);
      RunKeeps(l, run, steps, n - 1);
      assert Next(l, run[n - 1], run[n], steps[n - 1]);
      hide IsRun, Next, FecOk, Packets;
      NoDoneYet(l, run[n - 1], run[n], steps[n - 1]);
    }
  }

  /** A lane whose DONE is not numbered among its packets, as without stripes: every
      recovery of every run yields exactly the packet that the sender sent. */
  lemma UnstripedRecovery(l: Lane, run: seq<Fec>, steps: seq<Step>, n: nat, start: nat, known: nat)
    requires IsRun(l, run, steps) && n < |run| && forall k :: 0 <= k < n ==> !steps[k].DoneArrives?
    requires start in run[n].parities && KnownSize(l, known)
    requires Recover(run[n], start, l.chunkSize, l.stripes, known).Recovered?
    ensures var r := Recover(run[n], start, l.chunkSize, l.stripes, known);
            r.seqNo < Packets(l) && r == Recovered(r.seqNo, Off(l, r.seqNo), Payload(l, r.seqNo))
  {
    NoDoneInRun(l, run, steps, n);
    hide IsRun, FecOk, Recover, Payload, Packets, Off, HasShortEnd, LacksLast, PaddedOf;
    EveryRecovery(l, run, steps, n, start, known);
  }

  /** Recovery fires exactly if one packet of the group is missing, another was seen, and
      the size is known or something behind the group was seen. */
  lemma FiresExactlyWhen(l: Lane, f: Fec, start: nat, known: nat)
    requires FecOk(l, f) && start in f.parities && KnownSize(l, known)
    ensures Recover(f, start, l.chunkSize, l.stripes, known).Recovered? <==>
            && |MissingIn(f.seen, start, GroupEnd(l, start))| == 1 && start + 1 < GroupEnd(l, start)
            && (known == 0 ==> GroupEnd(l, start) < f.maxSeqPlusOne)
  {
    assert LaneOk(l);
    hide *;
    ParityShape(l, f, start);
    RecoverCases(f, start, l.chunkSize, l.stripes, known);
    if |MissingIn(f.seen, start, GroupEnd(l, start))| == 1 {
      OneMissing(l, f, start, known);
    }
  }

  lemma OneMissing(l: Lane, f: Fec, start: nat, known: nat)
    requires FecOk(l, f) && start in f.parities && KnownSize(l, known)
    requires |MissingIn(f.seen, start, GroupEnd(l, start))| == 1
    ensures start in f.groups && 0 < |f.groups[start]| <==> start + 1 < GroupEnd(l, start)
    ensures var missing := MissingIn(f.seen, start, GroupEnd(l, start));
            start in f.groups ==>
                Rebuild(f.parities[start], f.groups[start], missing[0], l.chunkSize, l.stripes, known).Recovered?
  {
    assert LaneOk(l);
    hide *;
    ParityShape(l, f, start);
    var missing := MissingIn(f.seen, start, GroupEnd(l, start));
    MissingAre(f.seen, start, GroupEnd(l, start));
    assert missing[0] in missing;
    OthersSeen(f.seen, start, GroupEnd(l, start), missing);
    LiveUnlessAlone(l, f, start, missing[0]);
    if start in f.groups {
      RebuildFires(l, f.parities[start], f.groups[start], missing[0], known);
    }
  }

  lemma RecoverCases(f: Fec, start: nat, chunkSize: nat, stripes: nat, known: nat)
    requires start in f.parities
    ensures var p := f.parities[start];
            var missing := MissingIn(f.seen, p.startSeq, p.startSeq + p.count);
            Recover(f, start, chunkSize, stripes, known).Recovered? <==>
            && (known == 0 ==> p.startSeq + p.count < f.maxSeqPlusOne)
            && |missing| == 1 && start in f.groups && 0 < |f.groups[start]|
            && Rebuild(p, f.groups[start], missing[0], chunkSize, stripes, known).Recovered?
  {
    hide MissingIn, Rebuild;
  }

  lemma RebuildFires(l: Lane, p: ParityPacket, xor: seq<Byte>, m: nat, known: nat)
    requires LaneOk(l) && p.startSeq <= m < Packets(l) && p.offset == Off(l, p.startSeq) && KnownSize(l, known)
    ensures Rebuild(p, xor, m, l.chunkSize, l.stripes, known).Recovered?
  {
    hide Packets;
    B.OffsetRecovered(l.stripe, p.startSeq, m, l.chunkSize, l.stripes);
    InLane(l, m);
  }

  /** A group with one missing packet is kept exactly if it has another. */
  lemma LiveUnlessAlone(l: Lane, f: Fec, start: nat, m: nat)
    requires FecOk(l, f) && start % l.groupSize == 0 && start <= m < GroupEnd(l, start) && m !in f.seen
    requires forall n :: start <= n < GroupEnd(l, start) && n != m ==> n in f.seen
    ensures start in f.groups && 0 < |f.groups[start]| <==> start + 1 < GroupEnd(l, start)
  {
    hide GroupOk, SeenOk, ParitiesOk, Packets, GroupEnd;
    if start in f.groups {
      assert LiveGroup(l, f.seen, start, f.groups[start]);
      var k :| start <= k < GroupEnd(l, start) && k in f.seen;
      assert k != m;
    } else if start + 1 < GroupEnd(l, start) {
      var k := if m == start then start + 1 else start;
      assert k in f.seen;
      NowSeen(l, f.seen, start, k);
    }
  }

  // ----- An early DONE -----

  /** Some state of the run rebuilds a packet with the wrong payload. */
  ghost predicate GoesWrong(l: Lane, run: seq<Fec>, steps: seq<Step>, n: nat, start: nat) {
    && IsRun(l, run, steps) && n < |run| && start in run[n].parities
    && var r := Recover(run[n], start, l.chunkSize, l.stripes, 0);
       r.Recovered? && r.payload != Payload(l, r.seqNo)
  }

  /** The short end of the source is on this lane, and not alone in its parity group. */
  predicate CanMislead(l: Lane)
    requires LaneOk(l)
  {
    HasShortEnd(l) && 0 < Packets(l) && (Packets(l) - 1) % l.groupSize != 0
  }

  lemma GroupOffset(groupSize: nat, start: nat, n: nat)
    requires groupSize > 0 && start % groupSize == 0 && start <= n < start + groupSize
    ensures n % groupSize == n - start && GroupStart(groupSize, n) == start
  {
    var k := start / groupSize;
    assert start == k * groupSize;
    DivMod(n, groupSize, k, n - start);
  }

  lemma WrongNeedsShortEnd(l: Lane, run: seq<Fec>, steps: seq<Step>, n: nat, start: nat)
    requires GoesWrong(l, run, steps, n, start)
    ensures LaneOk(l) && CanMislead(l)
  {
    RunKeeps(l, run, steps, n);
    assert LaneOk(l);
    assert GroupEnd(l, start) <= start + l.groupSize;
    hide IsRun, FecOk, Recover, Payload, Packets, GroupEnd, HasShortEnd, MissingIn;
    WrongExactlyWhen(l, run[n], start, 0);
    FiresExactlyWhen(l, run[n], start, 0);
    ParityShape(l, run[n], start);
    GroupOffset(l.groupSize, start, Packets(l) - 1);
  }

  lemma ExtendRun(l: Lane, run: seq<Fec>, steps: seq<Step>, f: Fec, step: Step)
    requires IsRun(l, run, steps) && Next(l, run[|steps|], f, step)
    ensures IsRun(l, run + [f], steps + [step])
  {
    hide Next, LaneOk;
    var run', steps' := run + [f], steps + [step];
    forall n | 0 <= n < |steps'|
      ensures Next(l, run'[n], run'[n + 1], steps'[n])
    {
      if n < |steps| {
        assert Next(l, run[n], run[n + 1], steps[n]);
      }
    }
  }

  /** The numbers from `lo` up to `hi`. */
  function Range(lo: nat, hi: nat): (s: set<nat>)
    ensures forall n: nat :: n in s <==> lo <= n < hi
  {
    if hi <= lo then {} else Range(lo, hi - 1) + {hi - 1}
  }

  lemma TakeStoresNoParity(f: Fec, groupSize: nat, n: nat, payload: seq<Byte>)
    requires groupSize > 0 && f.parities == map[]
    ensures Take(f, groupSize, n, payload).parities == map[]
  {
    hide Xor, AllSeen;
  }

  /** The packets of a lane from `start` on arrive, `k` of them. */
  lemma {:induction false} SomeArrive(l: Lane, start: nat, k: nat) returns (run: seq<Fec>, steps: seq<Step>)
    requires LaneOk(l) && start + k <= Packets(l)
    ensures IsRun(l, run, steps) && |steps| == k
    ensures run[k].seen == Range(start, start + k) && run[k].parities == map[]
  {
    if k == 0 {
      hide Packets;
      run, steps := [Fec(map[], map[], {}, 0)], [];
      assert Range(start, start) == {};
    } else {
      hide Take, Packets, Payload;
      run, steps := SomeArrive(l, start, k - 1);
      var f, n := run[k - 1], start + k - 1;
      var f' := Take(f, l.groupSize, n, Payload(l, n));
      TakeSees(f, l.groupSize, n, Payload(l, n));
      TakeStoresNoParity(f, l.groupSize, n, Payload(l, n));
      ExtendRun(l, run, steps, f', DataArrives(n));
      assert Range(start, start + k) == Range(start, start + k - 1) + {n};
      run, steps := run + [f'], steps + [DataArrives(n)];
    }
  }

  ghost function ParityOf(l: Lane, start: nat): (p: ParityPacket)
    requires LaneOk(l) && start % l.groupSize == 0 && start < Packets(l)
    ensures IsParity(l, start, p)
  {
    var bytes := seq(l.chunkSize, i requires 0 <= i => XorAll(l, start, GroupEnd(l, start), i));
    ParityPacket(start, Off(l, start), GroupEnd(l, start) - start, bytes)
  }

  lemma {:induction false} NothingMissing(seen: set<nat>, lo: nat, hi: nat)
    requires forall n :: lo <= n < hi ==> n in seen
    ensures MissingIn(seen, lo, hi) == []
  {
    if lo < hi {
      NothingMissing(seen, lo, hi - 1);
    }
  }

  lemma StoredParity(f: Fec, p: ParityPacket, m: nat)
    requires p.startSeq <= m < p.startSeq + p.count && m !in f.seen && 0 < |p.payload|
    ensures StoreParity(f, p) == f.(parities := f.parities[p.startSeq := p])
  {
  }

  /** All packets of the last group but its last one arrive, then the DONE and the parity. */
  lemma LastGroupArrives(l: Lane, start: nat) returns (run: seq<Fec>, steps: seq<Step>)
    requires LaneOk(l) && start % l.groupSize == 0 && start + 1 < Packets(l) == GroupEnd(l, start)
    ensures IsRun(l, run, steps) && |run| > 0
    ensures var f := run[|run| - 1];
            f.seen == Range(start, Packets(l) - 1) + {Packets(l)} && start in f.parities
  {
    var last := Packets(l) - 1;
    run, steps := SomeArrive(l, start, last - start);
    var f := run[last - start];
    var p, f1 := ParityOf(l, start), Accept(f, Packets(l));
    var f2 := StoreParity(f1, p);
    assert p.startSeq == start && start + p.count == Packets(l) && 0 < |p.payload|;
    StoredParity(f1, p, last);
    hide IsRun, Packets, GroupEnd, IsParity, StoreParity;
    assert |run| == |steps| + 1 by { SameLength(l, run, steps); }
    ExtendRun(l, run, steps, f1, DoneArrives);
    ExtendRun(l, run + [f1], steps + [DoneArrives], f2, ParityArrives(p));
    run, steps := run + [f1] + [f2], steps + [DoneArrives] + [ParityArrives(p)];
  }

  lemma SameLength(l: Lane, run: seq<Fec>, steps: seq<Step>)
    requires IsRun(l, run, steps)
    ensures |run| == |steps| + 1
  {
  }

  /** Whenever a stripe's DONE comes before its last packet while the size is unknown, a
      short last chunk is rebuilt with the padding still on it. */
  lemma EarlyDoneMisleads(l: Lane) returns (run: seq<Fec>, steps: seq<Step>, start: nat)
    requires LaneOk(l) && CanMislead(l)
    ensures |run| > 0 && GoesWrong(l, run, steps, |run| - 1, start)
  {
    var last := Packets(l) - 1;
    start := GroupStart(l.groupSize, last);
    StartIsStart(l.groupSize, last);
    assert GroupEnd(l, start) == Packets(l);
    GroupOffset(l.groupSize, start, last);
    run, steps := LastGroupArrives(l, start);
    var f := run[|run| - 1];
    RunKeeps(l, run, steps, |run| - 1);
    assert Packets(l) < f.maxSeqPlusOne;
    hide IsRun, FecOk, Recover, Payload, Packets, GroupEnd, HasShortEnd, GroupStart;
    NothingMissing(f.seen, start, last);
    assert MissingIn(f.seen, start, Packets(l)) == [last];
    FiresExactlyWhen(l, f, start, 0);
    WrongExactlyWhen(l, f, start, 0);
  }

  /** Parity recovery of a lane can go wrong exactly if the short end of the source is on
      this lane and not alone in its group. */
  lemma MisleadsExactlyWhen(l: Lane)
    requires LaneOk(l)
    ensures (exists run, steps, n, start :: GoesWrong(l, run, steps, n, start)) <==> CanMislead(l)
  {
    hide GoesWrong, CanMislead;
    if CanMislead(l) {
      var run, steps, start := EarlyDoneMisleads(l);
    }
    forall run, steps, n, start | GoesWrong(l, run, steps, n, start)
      ensures CanMislead(l)
    {
      WrongNeedsShortEnd(l, run, steps, n, start);
    }
  }

  /** Three bytes in chunks of two, in groups of two, on the first of two stripes: the
      second packet is short and comes back as two bytes. */
  lemma ThreeBytesMislead() returns (run: seq<Fec>, steps: seq<Step>, start: nat)
    ensures |run| > 0 && GoesWrong(Lane([1, 2, 3], 2, 2, 0, 2), run, steps, |run| - 1, start)
  {
    var l := Lane([1, 2, 3], 2, 2, 0, 2);
    assert B.PacketsForStripe(2, 2, 0) == 2;
    run, steps, start := EarlyDoneMisleads(l);
  }
}

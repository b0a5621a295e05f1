/** The sender's parity group and the receiver's parity state as the objects that the
    transport updates in place. */
module ParityEndpoints {
  import B = BlockStriping
  import opened Arithmetic
  import opened Bits
  import opened Options
  import opened Parity
  import opened ParityRecovery

  class ParityGroup {
    const chunkSize: nat
    const groupSize: nat
    const parity: array<Byte>
    var startSeq: nat
    var startOff: nat
    var count: nat
    var seenPacket: bool
    /** The sequence number of the packet to record next. */
    ghost var next: nat

    /** The array is the XOR of the packets recorded since the last parity packet. */
    ghost predicate Valid(l: Lane)
      reads this, parity
    {
      && LaneOk(l) && chunkSize == l.chunkSize == parity.Length && groupSize == l.groupSize
      && next <= Packets(l) && count < groupSize && count <= next
      && (next - count) % groupSize == 0
      && (seenPacket <==> count > 0)
      && (seenPacket ==> startSeq == next - count && startOff == Off(l, startSeq))
      && (forall i :: 0 <= i < chunkSize ==> parity[i] == XorAll(l, next - count, next, i))
    }

    constructor (chunkSize: nat, groupSize: nat)
      ensures this.chunkSize == chunkSize && this.groupSize == groupSize && fresh(parity)
      ensures forall l :: LaneOk(l) && l.chunkSize == chunkSize && l.groupSize == groupSize ==> Valid(l)
      ensures next == 0 && count == 0
    {
      this.chunkSize, this.groupSize := chunkSize, groupSize;
      parity := new Byte[chunkSize](_ => 0);
      startSeq, startOff, count, seenPacket, next := 0, 0, 0, false, 0;
      new;
      hide Packets;
    }

    /** Records the next packet; a full group yields its parity packet. */
    method Record(ghost l: Lane, n: nat, offset: nat, payload: seq<Byte>) returns (p: Option<ParityPacket>)
      requires Valid(l) && n == next < Packets(l) && offset == Off(l, n) && payload == Payload(l, n)
      modifies this, parity
      ensures Valid(l) && next == n + 1
      ensures p.Some? <==> old(count) + 1 == groupSize
      ensures p.Some? ==> IsParity(l, p.value.startSeq, p.value) && p.value.startSeq == next - groupSize && count == 0
      ensures p.None? ==> count == old(count) + 1
    {
      hide XorAll, Off, Payload, Packets, At;
      if !seenPacket {
        startSeq, startOff, seenPacket := n, offset, true;
      }
      ShortPayload(l, n);
      ghost var start := next - count;
      forall i | 0 <= i < chunkSize
        ensures parity[i] ^ At(payload, i) == XorAll(l, start, n + 1, i)
      {
        MoreXor(l, start, n, i);
      }
      Mix(payload);
      count := count + 1;
      next := next + 1;
      if count < groupSize {
        return None;
      }
      var packet := Emit();
      WholeGroup(l, start, next, packet);
      NextGroup(start, groupSize);
      forall i | 0 <= i < chunkSize
        ensures parity[i] == XorAll(l, next, next, i)
      {
        EmptyXor(l, next, i);
      }
      return Some(packet);
    }

    method Mix(payload: seq<Byte>)
      requires |payload| <= parity.Length
      modifies parity
      ensures forall i :: 0 <= i < parity.Length ==> parity[i] == old(parity[i]) ^ At(payload, i)
    {
      for k := 0 to |payload|
        invariant forall i :: 0 <= i < k ==> parity[i] == old(parity[i]) ^ payload[i]
        invariant forall i :: k <= i < parity.Length ==> parity[i] == old(parity[i])
      {
        parity[k] := parity[k] ^ payload[k];
      }
      forall i | |payload| <= i < parity.Length
        ensures parity[i] == old(parity[i]) ^ 0
      {
        XorFacts(old(parity[i]), 0, 0);
      }
    }

    /** Hands out the parity packet of the group so far and starts over. */
    method Emit() returns (p: ParityPacket)
      modifies this`count, this`seenPacket, parity
      ensures p == ParityPacket(startSeq, startOff, old(count), old(parity[..]))
      ensures count == 0 && !seenPacket && forall i :: 0 <= i < parity.Length ==> parity[i] == 0
    {
      p := ParityPacket(startSeq, startOff, count, parity[..]);
      for k := 0 to parity.Length
        invariant forall i :: 0 <= i < k ==> parity[i] == 0
      {
        parity[k] := 0;
      }
      count, seenPacket := 0, false;
    }

    /** At the end of the lane a short group yields its parity packet too. */
    method Flush(ghost l: Lane) returns (p: Option<ParityPacket>)
      requires Valid(l) && next == Packets(l)
      modifies this, parity
      ensures p.Some? <==> old(count) > 0
      ensures p.Some? ==> IsParity(l, p.value.startSeq, p.value) && p.value.startSeq == next - old(count)
      ensures next == old(next) && count == 0
    {
      if count == 0 {
        return None;
      }
      hide XorAll, Off, Packets;
      var packet := Emit();
      return Some(packet);
    }
  }

  class ParityReceiver {
    var groups: map<nat, seq<Byte>>
    var parities: map<nat, ParityPacket>
    var seen: set<nat>
    var maxSeqPlusOne: nat

    function View(): Fec
      reads this
    {
      Fec(groups, parities, seen, maxSeqPlusOne)
    }

    constructor ()
      ensures View() == Fec(map[], map[], {}, 0)
    {
      groups, parities, seen, maxSeqPlusOne := map[], map[], {}, 0;
    }

    method CleanupGroupIfComplete(startSeq: nat, count: nat)
      modifies this`groups, this`parities
      ensures View() == Cleanup(old(View()), startSeq, count)
    {
      for n := startSeq to startSeq + count
        invariant forall k :: startSeq <= k < n ==> k in seen
      {
        if n !in seen {
          return;
        }
      }
      groups := groups - {startSeq};
      parities := parities - {startSeq};
    }

    /** A packet that is new is noted and mixed into its group. */
    method TakePacket(groupSize: nat, n: nat, payload: seq<Byte>) returns (isNew: bool)
      requires groupSize > 0
      modifies this
      ensures isNew == (n !in old(seen)) && View() == Take(old(View()), groupSize, n, payload)
    {
      if n in seen {
        return false;
      }
      seen := seen + {n};
      if n + 1 > maxSeqPlusOne {
        maxSeqPlusOne := n + 1;
      }
      isNew := true;
      if |payload| > 0 {
        var groupStart := (n / groupSize) * groupSize;
        var xor := if groupStart in groups then groups[groupStart] else [];
        var mixed := MixInto(xor, payload);
        groups := groups[groupStart := mixed];
        CleanupGroupIfComplete(groupStart, groupSize);
      }
    }

    method MixInto(xor: seq<Byte>, payload: seq<Byte>) returns (r: seq<Byte>)
      ensures r == Xor(xor, payload)
    {
      r := xor;
      if |xor| < |payload| {
        r := xor + seq(|payload| - |xor|, _ => 0);
      }
      ghost var grown := r;
      for k := 0 to |payload|
        invariant |r| == |grown|
        invariant forall i :: 0 <= i < k ==> r[i] == grown[i] ^ payload[i]
        invariant forall i :: k <= i < |r| ==> r[i] == grown[i]
      {
        r := r[k := r[k] ^ payload[k]];
      }
      SameBytes(xor, payload, grown, r);
    }

    method StoreParityPacket(p: ParityPacket)
      modifies this`groups, this`parities
      ensures View() == StoreParity(old(View()), p)
    {
      if p.count == 0 || |p.payload| == 0 {
        return;
      }
      parities := parities[p.startSeq := p];
      CleanupGroupIfComplete(p.startSeq, p.count);
    }

    /** Looks for missing packets in a range, but not for more than two. */
    method ScanMissing(startSeq: nat, count: nat) returns (missing: nat, missingSeq: nat)
      ensures var all := MissingIn(seen, startSeq, startSeq + count);
              missing == (if |all| > 1 then 2 else |all|) && (missing == 1 ==> missingSeq == all[0])
    {
      missing, missingSeq := 0, 0;
      for n := startSeq to startSeq + count
        invariant missing <= 1 && missing == |MissingIn(seen, startSeq, n)|
        invariant missing == 1 ==> missingSeq == MissingIn(seen, startSeq, n)[0]
      {
        if n !in seen {
          missing, missingSeq := missing + 1, n;
          if missing > 1 {
            MissingGrows(seen, startSeq, n + 1, startSeq + count);
            return;
          }
        }
      }
    }

    /** Looks at one stored parity packet; `found` is what it recovers, if anything. */
    method RecoverOne(start: nat, chunkSize: nat, stripes: nat, known: nat) returns (found: Option<Recovery>)
      requires start in parities && parities[start].startSeq == start
      modifies this`groups, this`parities
      ensures var r := Recover(old(View()), start, chunkSize, stripes, known);
              && found == (if r.Recovered? then Some(r) else None)
              && View() == (match r
                            case Kept => old(View())
                            case Complete => Cleanup(old(View()), start, old(parities[start].count))
                            case Recovered(_, _, _) => old(View()).(parities := old(parities) - {start})
                            case Beyond => old(View()).(parities := old(parities) - {start}))
    {
      hide MissingIn, Xor, B.FECOffsetForSeq;
      var p := parities[start];
      if known == 0 && p.startSeq + p.count >= maxSeqPlusOne {
        return None;
      }
      var missing, m := ScanMissing(p.startSeq, p.count);
      if missing != 1 {
        if missing == 0 {
          CleanupGroupIfComplete(p.startSeq, p.count);
        }
        return None;
      }
      if start !in groups || |groups[start]| == 0 {
        return None;
      }
      var payload := MixInto(p.payload, groups[start]);
      var offset := B.FECOffsetForSeq(p.offset, p.startSeq, m, chunkSize, stripes);
      if known > 0 && offset >= known {
        parities := parities - {start};
        return None;
      }
      if known > offset && 0 <= known - offset < |payload| {
        payload := payload[..known - offset];
      }
      parities := parities - {start};
      return Some(Recovered(m, offset, payload));
    }
  }

  lemma SameBytes(xor: seq<Byte>, payload: seq<Byte>, grown: seq<Byte>, r: seq<Byte>)
    requires |grown| == |r| == (if |xor| < |payload| then |payload| else |xor|)
    requires forall i :: 0 <= i < |grown| ==> grown[i] == At(xor, i)
    requires forall i :: 0 <= i < |payload| ==> r[i] == grown[i] ^ payload[i]
    requires forall i :: |payload| <= i < |r| ==> r[i] == grown[i]
    ensures r == Xor(xor, payload)
  {
    forall i | 0 <= i < |r|
      ensures r[i] == Xor(xor, payload)[i]
    {
      XorFacts(At(xor, i), 0, 0);
      assert At(Xor(xor, payload), i) == At(xor, i) ^ At(payload, i);
    }
  }

  lemma {:induction false} MissingGrows(seen: set<nat>, lo: nat, mid: nat, hi: nat)
    requires lo <= mid <= hi
    ensures |MissingIn(seen, lo, mid)| <= |MissingIn(seen, lo, hi)|
    decreases hi
  {
    if mid < hi {
      MissingGrows(seen, lo, mid, hi - 1);
    }
  }

  lemma NextGroup(start: nat, groupSize: nat)
    requires groupSize > 0 && start % groupSize == 0
    ensures (start + groupSize) % groupSize == 0
  {
    DivMod(start + groupSize, groupSize, start / groupSize + 1, 0);
  }

  lemma WholeGroup(l: Lane, start: nat, end: nat, p: ParityPacket)
    requires LaneOk(l) && start % l.groupSize == 0 && start < end <= Packets(l)
    requires end == start + l.groupSize || (end == Packets(l) && end <= start + l.groupSize)
    requires p.startSeq == start && p.offset == Off(l, start) && p.count == end - start && |p.payload| == l.chunkSize
    requires forall i :: 0 <= i < l.chunkSize ==> p.payload[i] == XorAll(l, start, end, i)
    ensures IsParity(l, p.startSeq, p)
  {
    hide XorAll, Off, Packets;
  }

  lemma MoreXor(l: Lane, lo: nat, n: nat, i: nat)
    requires lo <= n
    ensures XorAll(l, lo, n + 1, i) == XorAll(l, lo, n, i) ^ At(Payload(l, n), i)
  {
    hide At, Payload;
  }

  lemma EmptyXor(l: Lane, n: nat, i: nat)
    ensures XorAll(l, n, n, i) == 0
  {
  }
}

/** XOR parity over groups of packets: what the sender puts on a lane, what the receiver
    keeps, and how a missing packet is recovered. */
module Parity {
  import opened Arithmetic
  import opened Bits
  import B = BlockStriping

  // ----- The lane -----

  /** One lane of a source that is cut into uniform chunks; a single global lane is stripe 0
      of 1. */
  datatype Lane = Lane(source: seq<Byte>, chunkSize: nat, groupSize: nat, stripe: nat, stripes: nat)

  predicate LaneOk(l: Lane) {
    0 < l.chunkSize && 1 < l.groupSize && l.stripe < l.stripes
  }

  /** How many DATA packets the lane carries. */
  function Packets(l: Lane): nat
    requires LaneOk(l)
  {
    B.DataPacketsForStripe(|l.source|, l.chunkSize, l.stripes, l.stripe)
  }

  function Off(l: Lane, n: nat): nat {
    B.Global(l.stripe, n, l.stripes) * l.chunkSize
  }

  /** The payload of packet `n`: a whole chunk, or what is left of the source. */
  function Payload(l: Lane, n: nat): seq<Byte> {
    if |l.source| <= Off(l, n) then []
    else if |l.source| < Off(l, n) + l.chunkSize then l.source[Off(l, n)..]
    else l.source[Off(l, n)..Off(l, n) + l.chunkSize]
  }

  predicate IsFull(l: Lane, n: nat) {
    Off(l, n) + l.chunkSize <= |l.source|
  }

  /** The lane's packets are those that start inside the source. */
  lemma InLane(l: Lane, n: nat)
    requires LaneOk(l)
    ensures n < Packets(l) <==> Off(l, n) < |l.source|
  {
    hide B.DataPacketsForStripe, B.CountOn, B.Global;
    var packets := (|l.source| + l.chunkSize - 1) / l.chunkSize;
    B.BytesToPackets(|l.source|, l.chunkSize, l.stripes, l.stripe);
    B.HasPacket(l.stripe, n, packets, l.stripes);
    StartsInside(|l.source|, l.chunkSize, B.Global(l.stripe, n, l.stripes));
  }

  lemma StartsInside(total: nat, chunkSize: nat, g: nat)
    requires chunkSize > 0
    ensures g < (total + chunkSize - 1) / chunkSize <==> g * chunkSize < total
  {
    var packets, rest := (total + chunkSize - 1) / chunkSize, (total + chunkSize - 1) % chunkSize;
    assert total + chunkSize - 1 == packets * chunkSize + rest;
    if g < packets {
      Ordered(g + 1, packets, chunkSize);
    } else {
      Ordered(packets, g, chunkSize);
    }
  }

  /** A packet with a later one on its lane is a whole chunk. */
  lemma FullBeforeAnother(l: Lane, n: nat, m: nat)
    requires LaneOk(l) && n < m < Packets(l)
    ensures IsFull(l, n) && |Payload(l, n)| == l.chunkSize
  {
    hide B.Global, Packets;
    InLane(l, m);
    B.GlobalGrows(l.stripe, n, m, l.stripes);
    Ordered(B.Global(l.stripe, n, l.stripes) + 1, B.Global(l.stripe, m, l.stripes), l.chunkSize);
  }

  // ----- Sequences under XOR -----

  function At(s: seq<Byte>, i: nat): Byte {
    if i < |s| then s[i] else 0
  }

  /** Bytewise XOR, the shorter sequence padded with zeros. */
  function Xor(a: seq<Byte>, b: seq<Byte>): (r: seq<Byte>)
    ensures |r| == if |a| < |b| then |b| else |a|
    ensures forall i: nat :: At(r, i) == At(a, i) ^ At(b, i)
  {
    var length: nat := if |a| < |b| then |b| else |a|;
    seq(length, i requires 0 <= i < length => At(a, i) ^ At(b, i))
  }

  /** Byte `i` of the XOR of the packets `lo..hi` that are in `seen`. */
  ghost function XorSeen(l: Lane, lo: nat, hi: nat, seen: set<nat>, i: nat): Byte {
    if hi <= lo then 0
    else XorSeen(l, lo, hi - 1, seen, i) ^ (if hi - 1 in seen then At(Payload(l, hi - 1), i) else 0)
  }

  /** Byte `i` of the XOR of the packets `lo..hi`. */
  ghost function XorAll(l: Lane, lo: nat, hi: nat, i: nat): Byte {
    if hi <= lo then 0 else XorAll(l, lo, hi - 1, i) ^ At(Payload(l, hi - 1), i)
  }

  lemma XorFacts(a: Byte, b: Byte, c: Byte)
    ensures (a ^ b) ^ c == (a ^ c) ^ b
    ensures a ^ 0 == a
    ensures (a ^ b) ^ (a ^ c) == b ^ c
  {
  }

  lemma {:induction false} XorSeenGains(l: Lane, lo: nat, hi: nat, seen: set<nat>, n: nat, i: nat)
    requires lo <= n < hi && n !in seen
    ensures XorSeen(l, lo, hi, seen + {n}, i) == XorSeen(l, lo, hi, seen, i) ^ At(Payload(l, n), i)
  {
    hide At, Payload;
    if n == hi - 1 {
      XorSeenSame(l, lo, hi - 1, seen, n, i);
      XorFacts(XorSeen(l, lo, hi - 1, seen, i), 0, 0);
    } else {
      XorSeenGains(l, lo, hi - 1, seen, n, i);
      var last := if hi - 1 in seen then At(Payload(l, hi - 1), i) else 0;
      XorFacts(XorSeen(l, lo, hi - 1, seen, i), At(Payload(l, n), i), last);
    }
  }

  lemma {:induction false} XorSeenSame(l: Lane, lo: nat, hi: nat, seen: set<nat>, n: nat, i: nat)
    requires !(lo <= n < hi)
    ensures XorSeen(l, lo, hi, seen + {n}, i) == XorSeen(l, lo, hi, seen, i)
  {
    if lo < hi {
      XorSeenSame(l, lo, hi - 1, seen, n, i);
    }
  }

  lemma {:induction false} XorSeenNone(l: Lane, lo: nat, hi: nat, seen: set<nat>, i: nat)
    requires forall n :: lo <= n < hi ==> n !in seen
    ensures XorSeen(l, lo, hi, seen, i) == 0
  {
    if lo < hi {
      XorSeenNone(l, lo, hi - 1, seen, i);
    }
  }

  lemma {:induction false} XorSeenAll(l: Lane, lo: nat, hi: nat, seen: set<nat>, i: nat)
    requires forall n :: lo <= n < hi ==> n in seen
    ensures XorSeen(l, lo, hi, seen, i) == XorAll(l, lo, hi, i)
  {
    hide At, Payload;
    if lo < hi {
      XorSeenAll(l, lo, hi - 1, seen, i);
    }
  }

  /** With one packet missing, the XOR of the rest and of all leaves the missing one. */
  lemma MissingIsLeft(l: Lane, lo: nat, hi: nat, seen: set<nat>, m: nat, i: nat)
    requires lo <= m < hi && m !in seen && forall n :: lo <= n < hi && n != m ==> n in seen
    ensures XorAll(l, lo, hi, i) ^ XorSeen(l, lo, hi, seen, i) == At(Payload(l, m), i)
  {
    XorSeenGains(l, lo, hi, seen, m, i);
    XorSeenAll(l, lo, hi, seen + {m}, i);
    hide At, Payload, XorSeen, XorAll;
    var rest, missing := XorSeen(l, lo, hi, seen, i), At(Payload(l, m), i);
    XorFacts(rest, missing, 0);
  }
}

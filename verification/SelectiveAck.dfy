/** Selective acknowledgements: a floor below which everything is acknowledged, a
    64-bit mask for the sequence numbers just above it, and an extended bitmap for
    the 4096 numbers above it. */
module SelectiveAck {
  import opened Bits
  import Maps

  const MaskBits: nat := 64
  const ExtendedBits: nat := 4096
  const ExtendedBytes: nat := 512

  datatype Ack = Ack(floor: nat, mask: bv64, payload: seq<bv8>)

  predicate MaskBit(mask: bv64, d: nat) {
    d < MaskBits && Has64(mask, d)
  }

  predicate PayloadBit(payload: seq<bv8>, d: nat) {
    d / 8 < |payload| && Has8(payload[d / 8], d % 8)
  }

  /** The acknowledgement marks the number `d + 1` above its floor. */
  predicate Marks(ack: Ack, d: nat) {
    MaskBit(ack.mask, d) || PayloadBit(ack.payload, d)
  }

  /** The acknowledgement covers sequence number `n`. */
  predicate Covers(ack: Ack, n: nat) {
    n < ack.floor || (ack.floor < n && Marks(ack, n - ack.floor - 1))
  }

  /** What an acknowledgement built from `buffered` at `floor` has to say. */
  ghost predicate BuiltFrom(ack: Ack, buffered: set<nat>, floor: nat) {
    && ack.floor == floor
    && (forall d: nat :: Marks(ack, d) <==> d < ExtendedBits && floor + 1 + d in buffered)
  }

  /** A mask holding exactly the numbers of `done` that lie in its range above `floor`. */
  ghost predicate MaskHolds(mask: bv64, floor: nat, done: set<nat>) {
    forall d: nat :: MaskBit(mask, d) <==> d < MaskBits && floor + 1 + d in done
  }

  ghost predicate PayloadHolds(payload: seq<bv8>, floor: nat, done: set<nat>) {
    && |payload| in {0, ExtendedBytes}
    && (forall d: nat :: PayloadBit(payload, d) <==> d < ExtendedBits && floor + 1 + d in done)
  }

  lemma MaskBitSets(mask: bv64, i: nat, d: nat)
    requires i < MaskBits
    ensures MaskBit(mask | Bit64(i), d) <==> d == i || MaskBit(mask, d)
  {
    hide Has64, Bit64;
    if d < MaskBits {
      SetBit64(mask, i, d);
    }
  }

  lemma MaskGains(mask: bv64, floor: nat, done: set<nat>, n: nat)
    requires MaskHolds(mask, floor, done)
    requires floor < n <= floor + MaskBits
    ensures MaskHolds(mask | Bit64(n - floor - 1), floor, done + {n})
  {
    hide MaskBit, Bit64;
    var mask' := mask | Bit64(n - floor - 1);
    forall d: nat
      ensures MaskBit(mask', d) <==> d < MaskBits && floor + 1 + d in done + {n}
    {
      MaskBitSets(mask, n - floor - 1, d);
    }
  }

  function WithBit(payload: seq<bv8>, d: nat): (r: seq<bv8>)
    requires d / 8 < |payload|
    ensures |r| == |payload|
  {
    payload[d / 8 := payload[d / 8] | Bit8(d % 8)]
  }

  lemma SameBit(a: nat, b: nat)
    ensures a == b <==> a / 8 == b / 8 && a % 8 == b % 8
  {
  }

  lemma WithBitSets(payload: seq<bv8>, d: nat, other: nat)
    requires d / 8 < |payload|
    ensures PayloadBit(WithBit(payload, d), other) <==> other == d || PayloadBit(payload, other)
  {
    hide Has8, Bit8;
    SameBit(d, other);
    if other / 8 == d / 8 {
      SetBit8(payload[d / 8], d % 8, other % 8);
    }
  }

  lemma PayloadGains(payload: seq<bv8>, floor: nat, done: set<nat>, n: nat)
    requires PayloadHolds(payload, floor, done)
    requires |payload| == ExtendedBytes
    requires floor < n <= floor + ExtendedBits
    ensures PayloadHolds(WithBit(payload, n - floor - 1), floor, done + {n})
  {
    hide PayloadBit, WithBit;
    var payload' := WithBit(payload, n - floor - 1);
    forall d: nat
      ensures PayloadBit(payload', d) <==> d < ExtendedBits && floor + 1 + d in done + {n}
    {
      WithBitSets(payload, n - floor - 1, d);
    }
  }

  lemma NoBits()
    ensures forall d: nat :: !PayloadBit([], d)
  {
  }

  lemma BlankBits(blank: seq<bv8>)
    requires forall i :: 0 <= i < |blank| ==> blank[i] == 0
    ensures forall d: nat :: !PayloadBit(blank, d)
  {
    hide Has8;
    forall d: nat
      ensures !PayloadBit(blank, d)
    {
      EmptyByte(d % 8);
    }
  }

  lemma BlankHolds(blank: seq<bv8>, floor: nat, done: set<nat>)
    requires PayloadHolds([], floor, done)
    requires |blank| == ExtendedBytes && forall i :: 0 <= i < |blank| ==> blank[i] == 0
    ensures PayloadHolds(blank, floor, done)
  {
    hide PayloadBit;
    BlankBits(blank);
    forall d: nat
      ensures PayloadBit(blank, d) <==> d < ExtendedBits && floor + 1 + d in done
    {
      NoBits();
      assert !PayloadBit([], d);
    }
  }

  lemma EmptyMask(floor: nat)
    ensures MaskHolds(0, floor, {})
  {
    forall d: nat
      ensures !MaskBit(0, d)
    {
      if d < MaskBits {
        EmptyWord(d);
      }
    }
  }

  /** The 64-bit mask of the buffered numbers just above the floor. */
  method AckMaskFor<T>(buffered: map<nat, T>, floor: nat) returns (mask: bv64)
    ensures MaskHolds(mask, floor, buffered.Keys)
  {
    hide MaskBit, Bit64;
    mask := 0;
    EmptyMask(floor);
    var todo := buffered.Keys;
    ghost var done: set<nat> := {};
    while todo != {}
      invariant done + todo == buffered.Keys && done !! todo
      invariant MaskHolds(mask, floor, done)
      decreases |todo|
    {
      var n :| n in todo;
      if floor < n <= floor + MaskBits {
        MaskGains(mask, floor, done, n);
        mask := mask | Bit64(n - floor - 1);
      }
      todo, done := todo - {n}, done + {n};
    }
  }

  /** The extended bitmap; it stays empty when no buffered number is in its range. */
  method ExtendedAckPayloadFor<T>(buffered: map<nat, T>, floor: nat) returns (payload: seq<bv8>)
    ensures PayloadHolds(payload, floor, buffered.Keys)
  {
    hide PayloadBit, WithBit;
    payload := [];
    NoBits();
    var todo := buffered.Keys;
    ghost var done: set<nat> := {};
    while todo != {}
      invariant done + todo == buffered.Keys && done !! todo
      invariant PayloadHolds(payload, floor, done)
      decreases |todo|
    {
      var n :| n in todo;
      if floor < n <= floor + ExtendedBits {
        if payload == [] {
          var blank: seq<bv8> := seq(ExtendedBytes, _ => 0);
          BlankHolds(blank, floor, done);
          payload := blank;
        }
        PayloadGains(payload, floor, done, n);
        payload := WithBit(payload, n - floor - 1);
      }
      todo, done := todo - {n}, done + {n};
    }
  }

  /** The acknowledgement the receiver sends: floor, mask and extended bitmap together. */
  method BuildAck<T>(buffered: map<nat, T>, floor: nat) returns (ack: Ack)
    ensures BuiltFrom(ack, buffered.Keys, floor)
  {
    hide MaskBit, PayloadBit;
    var mask := AckMaskFor(buffered, floor);
    var payload := ExtendedAckPayloadFor(buffered, floor);
    ack := Ack(floor, mask, payload);
  }

  /** `rest` is `inFlight` without the numbers of `gone`. */
  ghost predicate Remains<T>(rest: map<nat, T>, inFlight: map<nat, T>, gone: set<nat>) {
    && rest.Keys == inFlight.Keys - gone
    && (forall n :: n in rest ==> rest[n] == inFlight[n])
  }


  /** The in-flight numbers that the floor and the mask cover. */
  ghost function ByFloorAndMask(keys: set<nat>, ack: Ack): set<nat> {
    set n | n in keys && (n < ack.floor || (ack.floor < n && MaskBit(ack.mask, n - ack.floor - 1)))
  }

  /** The in-flight numbers that the first `end` bits of the extended bitmap mark. */
  ghost function ByPayload(keys: set<nat>, ack: Ack, end: nat): set<nat> {
    set n | n in keys && ack.floor < n <= ack.floor + end && PayloadBit(ack.payload, n - ack.floor - 1)
  }

  ghost function Covered(keys: set<nat>, ack: Ack): set<nat> {
    set n | n in keys && Covers(ack, n)
  }

  lemma RemainsDrop<T>(rest: map<nat, T>, inFlight: map<nat, T>, gone: set<nat>, n: nat)
    requires Remains(rest, inFlight, gone) && n in rest
    ensures Remains(Maps.Without(rest, n), inFlight, gone + {n})
  {
    hide Maps.Without;
  }

  lemma RemainsSame<T>(rest: map<nat, T>, inFlight: map<nat, T>, gone: set<nat>, gone': set<nat>)
    requires Remains(rest, inFlight, gone)
    requires gone' == gone || exists n :: n !in rest && gone' == gone + {n}
    ensures Remains(rest, inFlight, gone')
  {
  }

  lemma RemainsAll<T>(inFlight: map<nat, T>, ack: Ack)
    ensures Remains(inFlight, inFlight, ByFloorAndMask(inFlight.Keys - inFlight.Keys, ack))
  {
  }

  lemma RemainsHas<T>(rest: map<nat, T>, inFlight: map<nat, T>, gone: set<nat>, n: nat)
    requires Remains(rest, inFlight, gone)
    ensures n in rest <==> n in inFlight && n !in gone
  {
  }

  lemma NextKey(keys: set<nat>, todo: set<nat>, ack: Ack, n: nat)
    requires n in todo && todo <= keys
    ensures var covered := n < ack.floor || (ack.floor < n && MaskBit(ack.mask, n - ack.floor - 1));
            ByFloorAndMask(keys - (todo - {n}), ack)
            == if covered then ByFloorAndMask(keys - todo, ack) + {n} else ByFloorAndMask(keys - todo, ack)
  {
    hide MaskBit;
  }

  method ApplyFloorAndMask<T>(inFlight: map<nat, T>, ack: Ack) returns (rest: map<nat, T>, acked: nat)
    ensures Remains(rest, inFlight, ByFloorAndMask(inFlight.Keys, ack))
    ensures acked + |rest| == |inFlight|
  {
    hide MaskBit, Maps.Without, Remains;
    rest, acked := inFlight, 0;
    RemainsAll(inFlight, ack);
    var todo := inFlight.Keys;
    while todo != {}
      invariant todo <= inFlight.Keys
      invariant Remains(rest, inFlight, ByFloorAndMask(inFlight.Keys - todo, ack))
      invariant acked + |rest| == |inFlight|
      decreases |todo|
    {
      var n :| n in todo;
      ghost var gone := ByFloorAndMask(inFlight.Keys - todo, ack);
      RemainsHas(rest, inFlight, gone, n);
      if n < ack.floor {
        RemainsDrop(rest, inFlight, gone, n);
        rest, acked := Maps.Without(rest, n), acked + 1;
      } else if ack.floor < n && MaskBit(ack.mask, n - ack.floor - 1) {
        RemainsDrop(rest, inFlight, gone, n);
        rest, acked := Maps.Without(rest, n), acked + 1;
      }
      NextKey(inFlight.Keys, todo, ack, n);
      todo := todo - {n};
    }
    assert inFlight.Keys - todo == inFlight.Keys;
  }

  /** The in-flight numbers dropped once the first `end` bits of the bitmap are applied. */
  ghost function GoneAfter(keys: set<nat>, ack: Ack, end: nat): set<nat> {
    ByFloorAndMask(keys, ack) + ByPayload(keys, ack, end)
  }

  lemma NextBit(keys: set<nat>, ack: Ack, d: nat)
    ensures GoneAfter(keys, ack, d + 1)
            == GoneAfter(keys, ack, d)
               + if ack.floor + d + 1 in keys && PayloadBit(ack.payload, d) then {ack.floor + d + 1} else {}
  {
    hide PayloadBit, ByFloorAndMask;
  }

  lemma NoBit(keys: set<nat>, ack: Ack)
    ensures GoneAfter(keys, ack, 0) == ByFloorAndMask(keys, ack)
  {
    hide ByFloorAndMask;
    assert ByPayload(keys, ack, 0) == {};
  }

  lemma AllBits(keys: set<nat>, ack: Ack)
    ensures GoneAfter(keys, ack, 8 * |ack.payload|) == Covered(keys, ack)
  {
    hide Has8, MaskBit;
  }

  /** One bit of the extended bitmap. */
  method ApplyPayloadBit<T>(rest: map<nat, T>, ack: Ack, i: nat, bit: nat, ghost inFlight: map<nat, T>)
    returns (rest': map<nat, T>, acked: nat)
    requires i < |ack.payload| && bit < 8
    requires Remains(rest, inFlight, GoneAfter(inFlight.Keys, ack, 8 * i + bit))
    ensures Remains(rest', inFlight, GoneAfter(inFlight.Keys, ack, 8 * i + bit + 1))
    ensures acked + |rest'| == |rest|
  {
    hide PayloadBit, Has8, GoneAfter;
    BitAt(ack, i, bit);
    var n := ack.floor + (8 * i + bit) + 1;
    ghost var before := GoneAfter(inFlight.Keys, ack, 8 * i + bit);
    ghost var after := GoneAfter(inFlight.Keys, ack, 8 * i + bit + 1);
    NextBit(inFlight.Keys, ack, 8 * i + bit);
    if Has8(ack.payload[i], bit) && n in rest {
      assert after == before + {n};
      RemainsDrop(rest, inFlight, before, n);
      return Maps.Without(rest, n), 1;
    }
    RemainsSame(rest, inFlight, before, after);
    return rest, 0;
  }

  /** Applying an acknowledgement drops exactly the in-flight packets it covers,
      and reports how many those were. */
  method ApplyAck<T>(inFlight: map<nat, T>, ack: Ack) returns (rest: map<nat, T>, acked: nat)
    ensures Remains(rest, inFlight, Covered(inFlight.Keys, ack))
    ensures acked + |rest| == |inFlight|
  {
    hide *;
    rest, acked := ApplyFloorAndMask(inFlight, ack);
    NoBit(inFlight.Keys, ack);
    var i := 0;
    while i < |ack.payload|
      invariant 0 <= i <= |ack.payload|
      invariant Remains(rest, inFlight, GoneAfter(inFlight.Keys, ack, 8 * i))
      invariant acked + |rest| == |inFlight|
    {
      var bit := 0;
      while bit < 8
        invariant 0 <= bit <= 8
        invariant Remains(rest, inFlight, GoneAfter(inFlight.Keys, ack, 8 * i + bit))
        invariant acked + |rest| == |inFlight|
      {
        var k;
        rest, k := ApplyPayloadBit(rest, ack, i, bit, inFlight);
        acked := acked + k;
        bit := bit + 1;
      }
      i := i + 1;
    }
    AllBits(inFlight.Keys, ack);
  }

  lemma BitAt(ack: Ack, i: nat, bit: nat)
    requires i < |ack.payload| && bit < 8
    ensures PayloadBit(ack.payload, 8 * i + bit) <==> Has8(ack.payload[i], bit)
  {
    hide Has8;
    assert (8 * i + bit) / 8 == i && (8 * i + bit) % 8 == bit;
  }

  /** An acknowledgement is plausible exactly when its floor is no higher than the next
      sequence number and every number it marks has been used already. */
  method AckIsPlausible(nextSeq: nat, ack: Ack) returns (ok: bool)
    ensures ok <==> Plausible(nextSeq, ack)
  {
    hide Has64, PayloadBit;
    if ack.floor > nextSeq {
      return false;
    }
    var bit := 0;
    while bit < MaskBits
      invariant 0 <= bit <= MaskBits
      invariant forall d: nat :: d < bit && MaskBit(ack.mask, d) ==> ack.floor + d + 1 < nextSeq
    {
      if Has64(ack.mask, bit) && ack.floor + bit + 1 >= nextSeq {
        assert MaskBit(ack.mask, bit) && Marks(ack, bit);
        return false;
      }
      bit := bit + 1;
    }
    var i := 0;
    while i < |ack.payload|
      invariant 0 <= i <= |ack.payload|
      invariant forall d: nat :: d < 8 * i && PayloadBit(ack.payload, d) ==> ack.floor + d + 1 < nextSeq
    {
      bit := 0;
      while bit < 8
        invariant 0 <= bit <= 8
        invariant forall d: nat :: d < 8 * i + bit && PayloadBit(ack.payload, d) ==> ack.floor + d + 1 < nextSeq
      {
        BitAt(ack, i, bit);
        if Has8(ack.payload[i], bit) && ack.floor + (8 * i + bit) + 1 >= nextSeq {
          assert Marks(ack, 8 * i + bit);
          return false;
        }
        bit := bit + 1;
      }
      i := i + 1;
    }
    PayloadBitsInRange(ack);
    return true;
  }

  ghost predicate Plausible(nextSeq: nat, ack: Ack) {
    && ack.floor <= nextSeq
    && (forall d: nat :: Marks(ack, d) ==> ack.floor + d + 1 < nextSeq)
  }

  lemma PayloadBitsInRange(ack: Ack)
    ensures forall d: nat :: PayloadBit(ack.payload, d) ==> d < 8 * |ack.payload|
  {
  }
}

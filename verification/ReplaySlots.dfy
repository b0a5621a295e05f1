/** The slot table of the replay window, as a value. */
module ReplaySlots {
  import opened Bits
  import opened Arithmetic

  /** A slot's packet is a stretch of a slab. */
  datatype Slot = Slot(present: bool, seqNo: nat, slab: nat, offset: nat, bytes: nat)

  const EmptySlot: Slot := Slot(false, 0, 0, 0, 0)

  /** Every sequence number has one slot it can be in. */
  function SlotIndex(count: nat, n: nat): nat
    requires count > 0
  {
    n % count
  }

  ghost predicate SlotOk(slot: Slot, count: nat, i: nat, stride: nat)
    requires count > 0
  {
    if slot.present then SlotIndex(count, slot.seqNo) == i && 0 < slot.bytes <= stride else slot.bytes == 0
  }

  ghost predicate SlotsOk(slots: seq<Slot>, stride: nat) {
    |slots| > 0 && forall i :: 0 <= i < |slots| ==> SlotOk(slots[i], |slots|, i, stride)
  }

  predicate IsLive(slots: seq<Slot>, n: nat)
    requires |slots| > 0
  {
    slots[SlotIndex(|slots|, n)].present && slots[SlotIndex(|slots|, n)].seqNo == n
  }

  /** The slot of `n` holds another packet. */
  predicate IsTaken(slots: seq<Slot>, n: nat)
    requires |slots| > 0
  {
    slots[SlotIndex(|slots|, n)].present && slots[SlotIndex(|slots|, n)].seqNo != n
  }

  // ----- The byte counter -----

  ghost function SumBytes(slots: seq<Slot>): nat {
    if |slots| == 0 then 0 else SumBytes(slots[..|slots| - 1]) + slots[|slots| - 1].bytes
  }

  lemma {:induction false} SumMoves(slots: seq<Slot>, i: nat, slot: Slot)
    requires i < |slots|
    ensures SumBytes(slots[i := slot]) + slots[i].bytes == SumBytes(slots) + slot.bytes
  {
    var last := |slots| - 1;
    if i == last {
      assert slots[i := slot][..last] == slots[..last];
    } else {
      SumMoves(slots[..last], i, slot);
      assert slots[i := slot][..last] == slots[..last][i := slot];
    }
  }

  lemma {:induction false} SumIsZero(slots: seq<Slot>)
    requires forall i :: 0 <= i < |slots| ==> slots[i].bytes == 0
    ensures SumBytes(slots) == 0
  {
    if |slots| > 0 {
      SumIsZero(slots[..|slots| - 1]);
    }
  }

  lemma {:induction false} SumBounded(slots: seq<Slot>, stride: nat)
    requires forall i :: 0 <= i < |slots| ==> slots[i].bytes <= stride
    ensures SumBytes(slots) <= |slots| * stride
  {
    if |slots| > 0 {
      SumBounded(slots[..|slots| - 1], stride);
      assert |slots| * stride == (|slots| - 1) * stride + stride;
    }
  }

  lemma OneOfSum(slots: seq<Slot>, i: nat)
    requires i < |slots|
    ensures slots[i].bytes <= SumBytes(slots)
  {
    SumMoves(slots, i, slots[i].(bytes := 0));
  }

  /** A packet that fits its slot fits the byte budget too, because the budget was divided
      into slots of the largest packet. */
  lemma BudgetIsEnough(slots: seq<Slot>, stride: nat, maxBytes: nat, i: nat, bytes: nat)
    requires SlotsOk(slots, stride) && i < |slots| && |slots| * stride <= maxBytes && bytes <= stride
    ensures slots[i].bytes <= SumBytes(slots) && SumBytes(slots) - slots[i].bytes + bytes <= maxBytes
  {
    var slots' := slots[i := slots[i].(bytes := bytes)];
    forall j | 0 <= j < |slots'|
      ensures slots'[j].bytes <= stride
    {
      assert SlotOk(slots[j], |slots|, j, stride);
    }
    hide SlotsOk, SumBytes;
    SumMoves(slots, i, slots[i].(bytes := bytes));
    SumBounded(slots', stride);
    SumMoves(slots, i, slots[i].(bytes := 0));
  }

  // ----- The ring -----

  lemma SameSlot(count: nat, a: nat, b: nat)
    requires count > 0 && a < b && SlotIndex(count, a) == SlotIndex(count, b)
    ensures a + count <= b
  {
    var qa, qb, r := a / count, b / count, a % count;
    assert a == qa * count + r && b == qb * count + r;
    assert b - a == (qb - qa) * count;
    if qb > qa {
      AtLeast(qb - qa, count);
    } else if qb < qa {
      AtLeast(qa - qb, count);
    }
  }

  /** Filled in order from the floor: a packet below the floor plus the slot count always
      finds its slot free. */
  lemma RoomInWindow(slots: seq<Slot>, stride: nat, floor: nat, next: nat)
    requires SlotsOk(slots, stride) && next < floor + |slots|
    requires forall n: nat :: IsLive(slots, n) ==> floor <= n <= next
    ensures !IsTaken(slots, next)
  {
    var i := SlotIndex(|slots|, next);
    assert SlotOk(slots[i], |slots|, i, stride);
    if IsTaken(slots, next) {
      var n := slots[i].seqNo;
      assert IsLive(slots, n);
      SameSlot(|slots|, n, next);
    }
  }

  /** And with everything from the floor on live, the next packet finds no room exactly if
      the window is as long as the ring. */
  lemma FullWhenRound(slots: seq<Slot>, stride: nat, floor: nat, next: nat)
    requires SlotsOk(slots, stride) && floor <= next <= floor + |slots|
    requires forall n: nat :: IsLive(slots, n) <==> floor <= n < next
    ensures IsTaken(slots, next) <==> next == floor + |slots|
  {
    if next < floor + |slots| {
      RoomInWindow(slots, stride, floor, next);
    } else {
      assert IsLive(slots, floor);
      Turn(|slots|, floor);
    }
  }

  lemma Turn(count: nat, n: nat)
    requires count > 0
    ensures SlotIndex(count, n + count) == SlotIndex(count, n)
  {
    DivMod(n + count, count, n / count + 1, n % count);
  }

  // ----- The packets -----

  /** How slots are laid out in slabs. */
  datatype Layout = Layout(slotsPerSlab: nat, stride: nat, slabSize: nat)

  /** What a slot can hold: a whole stride, or all of a slab that is smaller than that. */
  function Room(l: Layout): nat {
    if l.stride < l.slabSize then l.stride else l.slabSize
  }

  ghost predicate LayoutOk(l: Layout, slotCount: nat, slabCount: nat) {
    && 0 < l.slotsPerSlab && 0 < l.stride
    && (l.slotsPerSlab == 1 || l.slotsPerSlab * l.stride <= l.slabSize)
    && slotCount <= slabCount * l.slotsPerSlab
  }

  function SlabOf(l: Layout, i: nat): nat
    requires 0 < l.slotsPerSlab
  {
    i / l.slotsPerSlab
  }

  function OffsetOf(l: Layout, i: nat): nat
    requires 0 < l.slotsPerSlab
  {
    (i % l.slotsPerSlab) * l.stride
  }

  /** Every slot has a place of its own: inside its slab, and clear of every other slot. */
  lemma PlaceFits(l: Layout, slotCount: nat, slabCount: nat, i: nat)
    requires LayoutOk(l, slotCount, slabCount) && i < slotCount
    ensures SlabOf(l, i) < slabCount && OffsetOf(l, i) + Room(l) <= l.slabSize
  {
    var q, r := i / l.slotsPerSlab, i % l.slotsPerSlab;
    assert i == q * l.slotsPerSlab + r;
    if q >= slabCount {
      Ordered(slabCount, q, l.slotsPerSlab);
    }
    if l.slotsPerSlab == 1 {
      assert r * l.stride == 0;
      return;
    }
    Ordered(r + 1, l.slotsPerSlab, l.stride);
    assert (r + 1) * l.stride == r * l.stride + l.stride;
  }

  lemma PlacesApart(l: Layout, i: nat, j: nat)
    requires 0 < l.slotsPerSlab && i != j && SlabOf(l, i) == SlabOf(l, j)
    ensures OffsetOf(l, i) + l.stride <= OffsetOf(l, j) || OffsetOf(l, j) + l.stride <= OffsetOf(l, i)
  {
    var a, b := i % l.slotsPerSlab, j % l.slotsPerSlab;
    assert i == (i / l.slotsPerSlab) * l.slotsPerSlab + a;
    assert j == (j / l.slotsPerSlab) * l.slotsPerSlab + b;
    if a < b {
      Ordered(a + 1, b, l.stride);
      assert (a + 1) * l.stride == a * l.stride + l.stride;
    } else {
      Ordered(b + 1, a, l.stride);
      assert (b + 1) * l.stride == b * l.stride + l.stride;
    }
  }

  /** Every live packet is where its slot says, inside a slab that exists. */
  ghost predicate Placed(l: Layout, slots: seq<Slot>, slabs: seq<seq<Byte>>) {
    && 0 < l.slotsPerSlab
    && (forall i :: 0 <= i < |slots| && slots[i].present ==>
          && slots[i].slab == SlabOf(l, i) < |slabs| && slots[i].offset == OffsetOf(l, i)
          && slots[i].bytes <= l.stride && slots[i].offset + slots[i].bytes <= |slabs[slots[i].slab]|)
  }

  function BytesOf(slot: Slot, slabs: seq<seq<Byte>>): seq<Byte>
    requires slot.slab < |slabs| && slot.offset + slot.bytes <= |slabs[slot.slab]|
  {
    slabs[slot.slab][slot.offset..slot.offset + slot.bytes]
  }

  ghost function LiveSeqs(slots: seq<Slot>): set<nat> {
    set i | 0 <= i < |slots| && slots[i].present :: slots[i].seqNo
  }

  lemma LiveMeans(slots: seq<Slot>, stride: nat, n: nat)
    requires SlotsOk(slots, stride)
    ensures n in LiveSeqs(slots) <==> IsLive(slots, n)
  {
    if n in LiveSeqs(slots) {
      var i :| 0 <= i < |slots| && slots[i].present && slots[i].seqNo == n;
      assert SlotOk(slots[i], |slots|, i, stride);
    }
    if IsLive(slots, n) {
      assert slots[SlotIndex(|slots|, n)].seqNo in LiveSeqs(slots);
    }
  }

  /** What the window stands for: a map from sequence numbers to packets. */
  ghost function Contents(l: Layout, slots: seq<Slot>, slabs: seq<seq<Byte>>): map<nat, seq<Byte>>
    requires SlotsOk(slots, l.stride) && Placed(l, slots, slabs)
  {
    map n | n in LiveSeqs(slots) :: PacketOf(l, slots, slabs, n)
  }

  ghost function PacketOf(l: Layout, slots: seq<Slot>, slabs: seq<seq<Byte>>, n: nat): seq<Byte>
    requires SlotsOk(slots, l.stride) && Placed(l, slots, slabs)
  {
    if IsLive(slots, n) then BytesOf(slots[SlotIndex(|slots|, n)], slabs) else []
  }

  /** A slab after a packet was written into it. */
  function Overwritten(slab: seq<Byte>, offset: nat, wire: seq<Byte>): (r: seq<Byte>)
    requires offset + |wire| <= |slab|
    ensures |r| == |slab|
    ensures forall k :: 0 <= k < |r| ==> r[k] == if offset <= k < offset + |wire| then wire[k - offset] else slab[k]
  {
    slab[..offset] + wire + slab[offset + |wire|..]
  }

  /** Writing into the place of slot `i` leaves every other live packet as it was. */
  lemma OthersKeepTheirBytes(l: Layout, slots: seq<Slot>, slabs: seq<seq<Byte>>, i: nat, wire: seq<Byte>, j: nat)
    requires Placed(l, slots, slabs) && i < |slots| && j < |slots| && i != j && slots[j].present
    requires SlabOf(l, i) < |slabs| && |wire| <= l.stride && OffsetOf(l, i) + |wire| <= |slabs[SlabOf(l, i)]|
    ensures var slab := Overwritten(slabs[SlabOf(l, i)], OffsetOf(l, i), wire);
            BytesOf(slots[j], slabs[SlabOf(l, i) := slab]) == BytesOf(slots[j], slabs)
  {
    hide Overwritten, OffsetOf;
    if SlabOf(l, i) == SlabOf(l, j) {
      PlacesApart(l, i, j);
    }
  }

  lemma PacketIs(l: Layout, slots: seq<Slot>, slabs: seq<seq<Byte>>, n: nat)
    requires SlotsOk(slots, l.stride) && Placed(l, slots, slabs)
    ensures n in Contents(l, slots, slabs) <==> IsLive(slots, n)
    ensures IsLive(slots, n) ==> Contents(l, slots, slabs)[n] == BytesOf(slots[SlotIndex(|slots|, n)], slabs)
  {
    LiveMeans(slots, l.stride, n);
  }

  lemma SameContents(l: Layout, slots: seq<Slot>, slabs: seq<seq<Byte>>, m: map<nat, seq<Byte>>)
    requires SlotsOk(slots, l.stride) && Placed(l, slots, slabs)
    requires forall n: nat :: n in m <==> IsLive(slots, n)
    requires forall n: nat :: IsLive(slots, n) ==> m[n] == BytesOf(slots[SlotIndex(|slots|, n)], slabs)
    ensures Contents(l, slots, slabs) == m
  {
    var m' := Contents(l, slots, slabs);
    forall n: nat
      ensures n in m' <==> n in m
      ensures n in m' ==> m'[n] == m[n]
    {
      PacketIs(l, slots, slabs, n);
    }
    hide Contents;
    assert m'.Keys == m.Keys;
  }

  function Filled(l: Layout, i: nat, n: nat, bytes: nat): Slot
    requires 0 < l.slotsPerSlab
  {
    Slot(true, n, SlabOf(l, i), OffsetOf(l, i), bytes)
  }

  /** Storing a packet changes the map at its key and nowhere else. */
  lemma StoreIsUpdate(l: Layout, slots: seq<Slot>, slabs: seq<seq<Byte>>, n: nat, wire: seq<Byte>)
    requires SlotsOk(slots, l.stride) && Placed(l, slots, slabs) && !IsTaken(slots, n) && 0 < |wire| <= l.stride
    requires var i := SlotIndex(|slots|, n);
             SlabOf(l, i) < |slabs| && OffsetOf(l, i) + |wire| <= |slabs[SlabOf(l, i)]|
    ensures var i := SlotIndex(|slots|, n);
            var slots' := slots[i := Filled(l, i, n, |wire|)];
            var slabs' := slabs[SlabOf(l, i) := Overwritten(slabs[SlabOf(l, i)], OffsetOf(l, i), wire)];
            && SlotsOk(slots', l.stride) && Placed(l, slots', slabs')
            && Contents(l, slots', slabs') == Contents(l, slots, slabs)[n := wire]
  {
    var i := SlotIndex(|slots|, n);
    var slots' := slots[i := Filled(l, i, n, |wire|)];
    var slabs' := slabs[SlabOf(l, i) := Overwritten(slabs[SlabOf(l, i)], OffsetOf(l, i), wire)];
    var m := Contents(l, slots, slabs)[n := wire];
    hide Overwritten, Contents, OffsetOf, SlabOf;
    StaysPlaced(l, slots, slabs, slots', slabs', i);
    forall k: nat
      ensures k in m <==> IsLive(slots', k)
      ensures IsLive(slots', k) ==> m[k] == BytesOf(slots'[SlotIndex(|slots'|, k)], slabs')
    {
      PacketIs(l, slots, slabs, k);
      var j := SlotIndex(|slots|, k);
      if j != i && IsLive(slots, k) {
        OthersKeepTheirBytes(l, slots, slabs, i, wire, j);
      } else if k == n {
        assert BytesOf(slots'[i], slabs') == wire;
      }
    }
    SameContents(l, slots', slabs', m);
  }

  lemma StaysPlaced(l: Layout, slots: seq<Slot>, slabs: seq<seq<Byte>>, slots': seq<Slot>, slabs': seq<seq<Byte>>,
                    i: nat)
    requires SlotsOk(slots, l.stride) && Placed(l, slots, slabs) && i < |slots| == |slots'| && |slabs| == |slabs'|
    requires slots' == slots[i := slots'[i]] && forall k :: 0 <= k < |slabs| ==> |slabs'[k]| >= |slabs[k]|
    requires SlotOk(slots'[i], |slots|, i, l.stride)
    requires slots'[i].present ==>
               && slots'[i].slab == SlabOf(l, i) < |slabs'| && slots'[i].offset == OffsetOf(l, i)
               && slots'[i].offset + slots'[i].bytes <= |slabs'[slots'[i].slab]|
    ensures SlotsOk(slots', l.stride) && Placed(l, slots', slabs')
  {
    hide SlabOf, OffsetOf, SlotIndex;
  }

  /** Deleting a packet removes its key and nothing else. */
  lemma DeleteIsRemove(l: Layout, slots: seq<Slot>, slabs: seq<seq<Byte>>, n: nat)
    requires SlotsOk(slots, l.stride) && Placed(l, slots, slabs) && IsLive(slots, n)
    ensures var i := SlotIndex(|slots|, n);
            var slots' := slots[i := slots[i].(present := false, bytes := 0)];
            && SlotsOk(slots', l.stride) && Placed(l, slots', slabs)
            && Contents(l, slots', slabs) == Contents(l, slots, slabs) - {n}
  {
    var i := SlotIndex(|slots|, n);
    var slots' := slots[i := slots[i].(present := false, bytes := 0)];
    var m := Contents(l, slots, slabs) - {n};
    hide Contents, OffsetOf, SlabOf;
    StaysPlaced(l, slots, slabs, slots', slabs, i);
    forall k: nat
      ensures k in m <==> IsLive(slots', k)
      ensures IsLive(slots', k) ==> m[k] == BytesOf(slots'[SlotIndex(|slots'|, k)], slabs)
    {
      PacketIs(l, slots, slabs, k);
    }
    SameContents(l, slots', slabs, m);
  }

  /** A slab that did not exist holds no packet, so creating it changes nothing. */
  lemma NewSlab(l: Layout, slots: seq<Slot>, slabs: seq<seq<Byte>>, k: nat, slab: seq<Byte>)
    requires SlotsOk(slots, l.stride) && Placed(l, slots, slabs) && k < |slabs| && slabs[k] == []
    ensures Placed(l, slots, slabs[k := slab]) && Contents(l, slots, slabs[k := slab]) == Contents(l, slots, slabs)
  {
    var slabs' := slabs[k := slab];
    var m := Contents(l, slots, slabs);
    hide Contents, OffsetOf, SlabOf;
    forall n: nat
      ensures n in m <==> IsLive(slots, n)
      ensures IsLive(slots, n) ==> m[n] == BytesOf(slots[SlotIndex(|slots|, n)], slabs')
    {
      PacketIs(l, slots, slabs, n);
    }
    SameContents(l, slots, slabs', m);
  }

  /** Scribbling over a place whose slot is empty changes nothing. */
  lemma ScribbleIsHarmless(l: Layout, slots: seq<Slot>, slabs: seq<seq<Byte>>, i: nat, wire: seq<Byte>)
    requires SlotsOk(slots, l.stride) && Placed(l, slots, slabs) && i < |slots| && !slots[i].present
             && |wire| <= l.stride
    requires SlabOf(l, i) < |slabs| && OffsetOf(l, i) + |wire| <= |slabs[SlabOf(l, i)]|
    ensures var slabs' := slabs[SlabOf(l, i) := Overwritten(slabs[SlabOf(l, i)], OffsetOf(l, i), wire)];
            Placed(l, slots, slabs') && Contents(l, slots, slabs') == Contents(l, slots, slabs)
  {
    var slabs' := slabs[SlabOf(l, i) := Overwritten(slabs[SlabOf(l, i)], OffsetOf(l, i), wire)];
    var m := Contents(l, slots, slabs);
    hide Overwritten, Contents, OffsetOf, SlabOf;
    forall n: nat
      ensures n in m <==> IsLive(slots, n)
      ensures IsLive(slots, n) ==> m[n] == BytesOf(slots[SlotIndex(|slots|, n)], slabs')
    {
      PacketIs(l, slots, slabs, n);
      if IsLive(slots, n) {
        OthersKeepTheirBytes(l, slots, slabs, i, wire, SlotIndex(|slots|, n));
      }
    }
    SameContents(l, slots, slabs', m);
  }
}

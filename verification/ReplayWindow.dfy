/** The replay window: a ring of slots whose packets lie in shared slabs of memory. */
module ReplayWindow {
  import opened Bits
  import opened Options
  import opened ReplaySlots

  const HeaderLen: nat := 52
  const DefaultChunkSize: nat := 1400
  const DefaultMaxBytes: nat := 0x1000_0000
  const MemorySlab: nat := 0x40_0000
  const NonceLimit: nat := 0x100_0000_0000

  /** `Panics` is a slice out of the slab's bounds. */
  datatype Added = Stored | Full | TooLarge | SealFailed | Panics

  /** What adding a packet of `bytes` bytes does. */
  function Verdict(slots: seq<Slot>, l: Layout, retained: nat, maxBytes: nat, encrypted: bool, n: nat,
                   bytes: nat): Added
    requires |slots| > 0
  {
    var slot := slots[SlotIndex(|slots|, n)];
    var kept := if slot.present && slot.bytes <= retained then retained - slot.bytes else retained;
    if IsTaken(slots, n) then Full
    else if bytes > l.stride then TooLarge
    else if maxBytes > 0 && kept + bytes > maxBytes then Full
    else if bytes > l.slabSize then Panics
    else if encrypted && n >= NonceLimit then SealFailed
    else Stored
  }

  /** How slots are laid out for a byte budget and a largest packet. */
  function LayoutFor(budget: nat, stride: nat): Layout
    requires 0 < stride
  {
    var slabSize := if budget < MemorySlab then (if budget < stride then stride else budget) else MemorySlab;
    Layout(if slabSize / stride < 1 then 1 else slabSize / stride, stride, slabSize)
  }

  function SlotsFor(budget: nat, stride: nat): nat
    requires 0 < stride
  {
    if budget / stride < 1 then 1 else budget / stride
  }

  function SlabsFor(slotCount: nat, l: Layout): nat
    requires 0 < l.slotsPerSlab
  {
    (slotCount + l.slotsPerSlab - 1) / l.slotsPerSlab
  }

  /** The slabs that exist. */
  ghost function Existing(slabs: seq<array?<Byte>>): set<object> {
    set k | 0 <= k < |slabs| && slabs[k] != null :: slabs[k]
  }

  /** What the slabs hold; a slab that does not exist holds nothing. */
  ghost function BytesIn(slabs: seq<array?<Byte>>): (s: seq<seq<Byte>>)
    reads Existing(slabs)
    ensures |s| == |slabs|
    ensures forall k :: 0 <= k < |s| ==> s[k] == if slabs[k] == null then [] else slabs[k][..]
  {
    seq(|slabs|, k requires 0 <= k < |slabs| reads Existing(slabs) => if slabs[k] == null then [] else slabs[k][..])
  }

  class Window {
    const maxBytes: nat
    const layout: Layout
    const encrypted: bool
    var slots: seq<Slot>
    var slabs: seq<array?<Byte>>
    var retained: nat
    var maxRetained: nat
    var ackFloor: nat

    ghost function Memory(): set<object>
      reads this`slabs
    {
      Existing(slabs)
    }

    ghost function SlabBytes(): seq<seq<Byte>>
      reads this`slabs, Memory()
    {
      BytesIn(slabs)
    }

    ghost predicate SlabsOk()
      reads this`slabs
    {
      && (forall k :: 0 <= k < |slabs| && slabs[k] != null ==> slabs[k].Length == layout.slabSize)
      && (forall j, k :: 0 <= j < k < |slabs| && slabs[j] != null ==> slabs[j] != slabs[k])
    }

    /** Only sequence numbers that can be sealed are stored. */
    ghost predicate SealsOk()
      reads this`slots
    {
      encrypted ==> forall i :: 0 <= i < |slots| && slots[i].present ==> slots[i].seqNo < NonceLimit
    }

    ghost predicate Valid()
      reads this, Memory()
    {
      && LayoutOk(layout, |slots|, |slabs|)
      && 0 < maxBytes && |slots| == SlotsFor(maxBytes, layout.stride)
      && SlabsOk() && SealsOk()
      && SlotsOk(slots, layout.stride)
      && Placed(layout, slots, SlabBytes())
      && retained == SumBytes(slots) <= maxBytes
      && retained <= maxRetained <= maxBytes
    }

    ghost function View(): map<nat, seq<Byte>>
      reads this, Memory()
      requires Valid()
    {
      Contents(layout, slots, SlabBytes())
    }

    /** Divides the budget into slots of the largest packet and the slots over slabs. */
    constructor (chunkSize: int, maxBytes: nat, overhead: nat, encrypted: bool)
      ensures Valid() && View() == map[] && ackFloor == 0 && fresh(Memory())
      ensures this.maxBytes == (if maxBytes == 0 then DefaultMaxBytes else maxBytes) && this.encrypted == encrypted
      ensures layout.stride == HeaderLen + (if chunkSize <= 0 then DefaultChunkSize else chunkSize) + overhead
      ensures |slots| == SlotsFor(this.maxBytes, layout.stride)
    {
      hide LayoutFor, SlotsFor, SlabsFor, LayoutOk, SlotsOk, Placed, Contents, SumBytes;
      var budget := if maxBytes == 0 then DefaultMaxBytes else maxBytes;
      var stride := HeaderLen + (if chunkSize <= 0 then DefaultChunkSize else chunkSize) + overhead;
      NewLayout(budget, stride);
      var slotCount := SlotsFor(budget, stride);
      this.maxBytes, this.encrypted := budget, encrypted;
      layout := LayoutFor(budget, stride);
      slots := seq(slotCount, _ => EmptySlot);
      slabs := seq(SlabsFor(slotCount, LayoutFor(budget, stride)), _ => null);
      retained, maxRetained, ackFloor := 0, 0, 0;
      new;
      EmptyWindow(layout, slots, SlabBytes());
    }

    /** Writes into a slab. */
    static method CopyInto(slab: array<Byte>, offset: nat, wire: seq<Byte>)
      requires offset + |wire| <= slab.Length
      modifies slab
      ensures slab[..] == Overwritten(old(slab[..]), offset, wire)
    {
      ghost var before := slab[..];
      for k := 0 to |wire|
        invariant forall i :: 0 <= i < slab.Length ==>
                    slab[i] == if offset <= i < offset + k then wire[i - offset] else before[i]
      {
        slab[offset + k] := wire[k];
      }
      hide Overwritten;
    }

    /** The slab of slot `i`, created if need be. */
    method SlabForSlot(i: nat) returns (slab: array<Byte>)
      requires Valid() && i < |slots|
      modifies this`slabs
      ensures Valid() && View() == old(View())
      ensures SlabOf(layout, i) < |slabs| && slabs[SlabOf(layout, i)] == slab && slab.Length == layout.slabSize
      ensures slab in Memory() && fresh(Memory() - old(Memory())) && |slabs| == |old(slabs)|
    {
      assert 0 < layout.slotsPerSlab;
      hide LayoutOk, SlotsOk, Placed, Contents, SumBytes, SlabOf;
      PlaceFits(layout, |slots|, |slabs|, i);
      var k := SlabOf(layout, i);
      if slabs[k] == null {
        ghost var before := SlabBytes();
        slab := new Byte[layout.slabSize](_ => 0);
        slabs := slabs[k := slab];
        assert SlabBytes() == before[k := slab[..]];
        NewSlab(layout, slots, before, k, slab[..]);
      } else {
        slab := slabs[k];
      }
    }

    /** A write into one slab leaves the other slabs alone. */
    method WriteSlab(k: nat, offset: nat, wire: seq<Byte>)
      requires SlabsOk() && k < |slabs| && slabs[k] != null && offset + |wire| <= layout.slabSize
      modifies slabs[k]
      ensures SlabsOk() && offset + |wire| <= |old(SlabBytes())[k]|
      ensures SlabBytes() == old(SlabBytes())[k := Overwritten(old(SlabBytes())[k], offset, wire)]
    {
      hide Overwritten;
      CopyInto(slabs[k], offset, wire);
    }

    /** Writes into the place of slot `i`; `mid` is what the slabs held just before. */
    method WriteSlot(i: nat, wire: seq<Byte>) returns (ghost mid: seq<seq<Byte>>)
      requires Valid() && i < |slots| && |wire| <= layout.stride && 0 < layout.slotsPerSlab
      requires SlabOf(layout, i) < |slabs| && OffsetOf(layout, i) + |wire| <= layout.slabSize
      modifies this`slabs, Memory()
      ensures SlabsOk() && |slabs| == |old(slabs)| && fresh(Memory() - old(Memory()))
      ensures |mid| == |slabs| && Placed(layout, slots, mid) && Contents(layout, slots, mid) == old(View())
      ensures var k, offset := SlabOf(layout, i), OffsetOf(layout, i);
              && offset + |wire| <= |mid[k]|
              && SlabBytes() == mid[k := Overwritten(mid[k], offset, wire)]
    {
      hide LayoutOk, SlotsOk, Placed, Contents, SumBytes, SlabOf, OffsetOf, Overwritten, SealsOk;
      var slab := SlabForSlot(i);
      mid := SlabBytes();
      WriteSlab(SlabOf(layout, i), OffsetOf(layout, i), wire);
    }

    /** Enters a packet in the slot table. */
    method FillSlot(i: nat, n: nat, bytes: nat)
      requires i < |slots| && retained == SumBytes(slots) && 0 < layout.slotsPerSlab
      requires slots[i].bytes <= retained && (!slots[i].present ==> slots[i].bytes == 0)
      modifies this`slots, this`retained, this`maxRetained
      ensures slots == old(slots)[i := Filled(layout, i, n, bytes)]
      ensures retained == SumBytes(slots) == old(retained) - old(slots[i].bytes) + bytes
      ensures maxRetained == if old(maxRetained) < retained then retained else old(maxRetained)
    {
      hide SumBytes, SlabOf, OffsetOf;
      SumMoves(slots, i, Filled(layout, i, n, bytes));
      if slots[i].present {
        retained := retained - (if retained < slots[i].bytes then retained else slots[i].bytes);
      }
      slots := slots[i := Filled(layout, i, n, bytes)];
      retained := retained + bytes;
      maxRetained := if maxRetained < retained then retained else maxRetained;
    }

    /** Stores a packet in its slot, in place of an older one with the same number. */
    method StoreAt(n: nat, wire: seq<Byte>)
      requires Valid() && !IsTaken(slots, n) && 0 < |wire| <= Room(layout) && (encrypted ==> n < NonceLimit)
      requires retained - slots[SlotIndex(|slots|, n)].bytes + |wire| <= maxBytes
      modifies this, Memory()
      ensures Valid() && View() == old(View())[n := wire] && ackFloor == old(ackFloor) && |slots| == |old(slots)|
      ensures fresh(Memory() - old(Memory()))
    {
      hide LayoutOk, SlotsOk, Placed, Contents, SumBytes, SlabOf, OffsetOf, Overwritten, IsTaken, SlotIndex, SlabsOk;
      RingFacts(layout, slots, |slabs|, n);
      var i := SlotIndex(|slots|, n);
      OneOfSum(slots, i);
      EmptyIsZero(slots, layout.stride, i);
      ghost var mid := WriteSlot(i, wire);
      StoreIsUpdate(layout, slots, mid, n, wire);
      FillSlot(i, n, |wire|);
    }

    /** Lays a header into the place of an empty slot. */
    method Scribble(n: nat, header: seq<Byte>)
      requires Valid() && !slots[SlotIndex(|slots|, n)].present && |header| <= Room(layout)
      modifies this`slabs, Memory()
      ensures Valid() && View() == old(View())
      ensures fresh(Memory() - old(Memory()))
    {
      hide LayoutOk, SlotsOk, Placed, Contents, SumBytes, SlabOf, OffsetOf, Overwritten, SlotIndex, SlabsOk;
      RingFacts(layout, slots, |slabs|, n);
      var i := SlotIndex(|slots|, n);
      ghost var mid := WriteSlot(i, header);
      ScribbleIsHarmless(layout, slots, mid, i, header);
    }

    /** Adds the packet with the wire form `wire`; re-adding a sequence number replaces it. */
    method AddPacket(n: nat, wire: seq<Byte>) returns (result: Added)
      requires Valid() && HeaderLen <= |wire|
      modifies this, Memory()
      ensures Valid() && ackFloor == old(ackFloor) && fresh(Memory() - old(Memory()))
      ensures |slots| == |old(slots)| > 0
      ensures result == Verdict(old(slots), layout, old(retained), maxBytes, encrypted, n, |wire|)
      ensures View() == if result == Stored then old(View())[n := wire] else old(View())
    {
      hide LayoutOk, Placed, Contents, SumBytes, SlabOf, OffsetOf, Overwritten, SlabsOk, SlotIndex;
      RingFacts(layout, slots, |slabs|, n);
      var slot := slots[SlotIndex(|slots|, n)];
      if slot.present && slot.seqNo != n {
        return Full;
      }
      if |wire| > layout.stride {
        return TooLarge;
      }
      var kept := if slot.present && slot.bytes <= retained then retained - slot.bytes else retained;
      if maxBytes > 0 && kept + |wire| > maxBytes {
        return Full;
      }
      if |wire| > layout.slabSize {
        var _ := SlabForSlot(SlotIndex(|slots|, n));
        return Panics;
      }
      if encrypted && n >= NonceLimit {
        Scribble(n, wire[..HeaderLen]);
        return SealFailed;
      }
      StoreAt(n, wire);
      return Stored;
    }

    /** Forgets one packet. */
    method Delete(n: nat)
      requires Valid()
      modifies this`slots, this`retained
      ensures Valid() && View() == old(View()) - {n} && |slots| == |old(slots)|
    {
      hide LayoutOk, Placed, Contents, SumBytes, SlabOf, OffsetOf, SlabsOk, SlotIndex;
      RingFacts(layout, slots, |slabs|, n);
      var i := SlotIndex(|slots|, n);
      var slot := slots[i];
      PacketIs(layout, slots, SlabBytes(), n);
      if !slot.present || slot.seqNo != n {
        assert View() - {n} == View();
        return;
      }
      DeleteIsRemove(layout, slots, SlabBytes(), n);
      SumMoves(slots, i, slot.(present := false, bytes := 0));
      ghost var bytes := SlabBytes();
      hide SlotsOk;
      retained := if slot.bytes >= retained then 0 else retained - slot.bytes;
      slots := slots[i := slot.(present := false, bytes := 0)];
      assert SlabBytes() == bytes;
    }

    /** Forgets every packet below an acknowledged floor that is not below the old one. */
    method AckFloor(n: nat)
      requires Valid()
      modifies this`slots, this`retained, this`ackFloor
      ensures Valid() && |slots| == |old(slots)| && ackFloor == if n <= old(ackFloor) then old(ackFloor) else n
      ensures forall k :: k in View() <==> k in old(View()) && !(old(ackFloor) <= k < ackFloor)
      ensures forall k :: k in View() ==> View()[k] == old(View())[k]
    {
      hide LayoutOk, Placed, Contents, SumBytes, SlabsOk, SlotsOk;
      if n <= ackFloor {
        return;
      }
      var acked := ackFloor;
      while acked < n
        invariant old(ackFloor) <= acked <= n && Valid() && |slots| == |old(slots)|
        invariant forall k :: k in View() <==> k in old(View()) && !(old(ackFloor) <= k < acked)
        invariant forall k :: k in View() ==> View()[k] == old(View())[k]
      {
        Delete(acked);
        acked := acked + 1;
      }
      ghost var bytes := SlabBytes();
      ackFloor := n;
      assert SlabBytes() == bytes;
    }

    /** The stored packet, or nothing. */
    method Packet(n: nat) returns (wire: Option<seq<Byte>>)
      requires Valid()
      ensures wire == if n in View() then Some(View()[n]) else None
    {
      PacketIs(layout, slots, SlabBytes(), n);
      var i := SlotIndex(|slots|, n);
      assert SlotOk(slots[i], |slots|, i, layout.stride);
      hide LayoutOk, SlotsOk, Contents, SumBytes, SlabOf, OffsetOf;
      var slot := slots[i];
      if !slot.present || slot.seqNo != n {
        return None;
      }
      var slab := slabs[slot.slab];
      return Some(slab[slot.offset..slot.offset + slot.bytes]);
    }
  }

  lemma RingFacts(l: Layout, slots: seq<Slot>, slabCount: nat, n: nat)
    requires SlotsOk(slots, l.stride) && LayoutOk(l, |slots|, slabCount)
    ensures 0 < l.slotsPerSlab && |slots| > 0
    ensures var i := SlotIndex(|slots|, n);
            i < |slots| && SlabOf(l, i) < slabCount && OffsetOf(l, i) + Room(l) <= l.slabSize
  {
    PlaceFits(l, |slots|, slabCount, SlotIndex(|slots|, n));
  }

  lemma EmptyWindow(l: Layout, slots: seq<Slot>, slabs: seq<seq<Byte>>)
    requires 0 < |slots| && 0 < l.slotsPerSlab && forall i :: 0 <= i < |slots| ==> slots[i] == EmptySlot
    ensures SlotsOk(slots, l.stride) && Placed(l, slots, slabs) && SumBytes(slots) == 0
    ensures Contents(l, slots, slabs) == map[]
  {
    SumIsZero(slots);
    assert LiveSeqs(slots) == {};
  }

  /** The slabs have room for all slots. */
  lemma NewLayout(budget: nat, stride: nat)
    requires 0 < stride
    ensures 0 < SlotsFor(budget, stride)
    ensures var l, count := LayoutFor(budget, stride), SlotsFor(budget, stride);
            0 < l.slotsPerSlab && l.stride == stride && LayoutOk(l, count, SlabsFor(count, l))
  {
    var l := LayoutFor(budget, stride);
    if stride <= l.slabSize {
      AtLeastOne(l.slabSize, stride);
    }
    RoundUp(SlotsFor(budget, stride), l.slotsPerSlab);
  }

  lemma AtLeastOne(a: nat, d: nat)
    requires 0 < d <= a
    ensures 0 < a / d && (a / d) * d <= a
  {
  }

  lemma RoundUp(a: nat, d: nat)
    requires 0 < d
    ensures a <= ((a + d - 1) / d) * d
  {
    assert a + d - 1 == ((a + d - 1) / d) * d + (a + d - 1) % d;
  }

  lemma EmptyIsZero(slots: seq<Slot>, stride: nat, i: nat)
    requires SlotsOk(slots, stride) && i < |slots|
    ensures !slots[i].present ==> slots[i].bytes == 0
  {
    assert SlotOk(slots[i], |slots|, i, stride);
  }

  // ----- Progress -----

  /** Adding reports full exactly if the slot is held by another packet, or if the budget is
      too small for this packet even in an empty window; the packets that are there never
      use up a budget of at least one whole slot. */
  lemma FullExactlyWhen(slots: seq<Slot>, l: Layout, maxBytes: nat, encrypted: bool, n: nat, bytes: nat)
    requires SlotsOk(slots, l.stride) && 0 < l.stride && 0 < maxBytes && |slots| == SlotsFor(maxBytes, l.stride)
    ensures Verdict(slots, l, SumBytes(slots), maxBytes, encrypted, n, bytes) == Full
            <==> IsTaken(slots, n) || maxBytes < bytes <= l.stride
  {
    var i := SlotIndex(|slots|, n);
    EmptyIsZero(slots, l.stride, i);
    OneOfSum(slots, i);
    if l.stride <= maxBytes {
      AtLeastOne(maxBytes, l.stride);
      hide SumBytes, SlotIndex, SlotsOk;
      if bytes <= l.stride {
        BudgetIsEnough(slots, l.stride, maxBytes, i, bytes);
      }
    } else {
      SmallBudget(maxBytes, l.stride);
      assert SumBytes(slots) == SumBytes(slots[..0]) + slots[0].bytes;
    }
  }

  lemma SmallBudget(budget: nat, stride: nat)
    requires budget < stride
    ensures SlotsFor(budget, stride) == 1
  {
  }

  /** With exactly the packets from the floor to the next one kept, the next one in order
      finds its slot taken exactly if as many are kept as the ring has slots. */
  lemma InOrderAdds(l: Layout, slots: seq<Slot>, slabs: seq<seq<Byte>>, floor: nat, next: nat)
    requires SlotsOk(slots, l.stride) && Placed(l, slots, slabs) && floor <= next
    requires forall k: nat :: k in Contents(l, slots, slabs) <==> floor <= k < next
    ensures next <= floor + |slots|
    ensures IsTaken(slots, next) <==> next == floor + |slots|
  {
    forall n: nat
      ensures IsLive(slots, n) <==> floor <= n < next
    {
      PacketIs(l, slots, slabs, n);
    }
    Turn(|slots|, floor);
    assert !(IsLive(slots, floor) && IsLive(slots, floor + |slots|));
    hide Contents, Placed, IsLive, SlotsOk;
    FullWhenRound(slots, l.stride, floor, next);
  }
}

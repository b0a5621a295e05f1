/** A replay window as the blast sender uses it: packets go in under consecutive sequence
    numbers, and the receiver's floor, which never passes what was sent, takes them out. */
module ReplayLane {
  import opened Bits
  import opened ReplaySlots
  import opened ReplayWindow

  class Lane {
    const window: Window
    var nextSeq: nat

    /** The window keeps exactly the packets from the floor to the next one. */
    ghost predicate Valid()
      reads this, window, window.Memory()
    {
      && window.Valid() && window.ackFloor <= nextSeq
      && (forall k: nat :: k in window.View() <==> window.ackFloor <= k < nextSeq)
    }

    /** As many packets are kept as the ring has slots. */
    predicate AllTaken()
      reads this, window
    {
      nextSeq == window.ackFloor + |window.slots|
    }

    /** A packet that fits a slot but not the whole budget. */
    predicate OverBudget(bytes: nat)
      reads this
    {
      window.maxBytes < bytes <= window.layout.stride
    }

    constructor (window: Window)
      requires window.Valid() && window.View() == map[] && window.ackFloor == 0
      ensures Valid() && this.window == window && nextSeq == 0
    {
      this.window, nextSeq := window, 0;
    }

    lemma TurnedAway(bytes: nat)
      requires Valid() && HeaderLen <= bytes
      ensures |window.slots| > 0 && nextSeq <= window.ackFloor + |window.slots|
      ensures Verdict(window.slots, window.layout, window.retained, window.maxBytes, window.encrypted, nextSeq, bytes)
              == Full
              <==> AllTaken() || OverBudget(bytes)
    {
      assert 0 < window.layout.stride;
      hide Contents, Placed, SlotsOk, LayoutOk, SumBytes, IsTaken, SlotsFor, Verdict;
      assert window.View() == Contents(window.layout, window.slots, window.SlabBytes());
      InOrderAdds(window.layout, window.slots, window.SlabBytes(), window.ackFloor, nextSeq);
      FullExactlyWhen(window.slots, window.layout, window.maxBytes, window.encrypted, nextSeq, bytes);
    }

    /** Whatever was added and acknowledged before: the next packet in order is turned away
        exactly if all slots are taken or the budget is too small for it. */
    method Add(wire: seq<Byte>) returns (result: Added)
      requires Valid() && HeaderLen <= |wire|
      modifies this`nextSeq, window, window.Memory()
      ensures Valid() && fresh(window.Memory() - old(window.Memory()))
      ensures window.ackFloor == old(window.ackFloor) && |window.slots| == |old(window.slots)|
      ensures nextSeq <= window.ackFloor + |window.slots|
      ensures result == Full <==> old(AllTaken()) || OverBudget(|wire|)
      ensures nextSeq == if result == Stored then old(nextSeq) + 1 else old(nextSeq)
      ensures window.View() == if result == Stored then old(window.View())[old(nextSeq) := wire] else old(window.View())
    {
      hide Verdict, Contents, Placed, SlotsOk, LayoutOk, SumBytes, IsTaken, SlotsFor;
      TurnedAway(|wire|);
      result := window.AddPacket(nextSeq, wire);
      if result == Stored {
        nextSeq := nextSeq + 1;
      }
    }

    /** The receiver says up to where it has everything. */
    method Acknowledge(floor: nat)
      requires Valid() && floor <= nextSeq
      modifies window`slots, window`retained, window`ackFloor
      ensures Valid() && |window.slots| == |old(window.slots)|
      ensures window.ackFloor == if floor <= old(window.ackFloor) then old(window.ackFloor) else floor
      ensures forall k :: k in window.View() ==> k in old(window.View()) && window.View()[k] == old(window.View())[k]
    {
      hide Contents, Placed, SlotsOk, LayoutOk, SumBytes;
      window.AckFloor(floor);
    }

    /** Tries to add a packet until it is not full any more; `floors` are the receiver's
        floors as they come in between, until the sender is told to stop. */
    method AddWhenRoom(wire: seq<Byte>, floors: seq<nat>) returns (result: Added)
      requires Valid() && HeaderLen <= |wire|
      requires forall i :: 0 <= i < |floors| ==> floors[i] <= nextSeq
      modifies this`nextSeq, window, window.Memory()
      ensures Valid() && fresh(window.Memory() - old(window.Memory()))
      ensures nextSeq == if result == Stored then old(nextSeq) + 1 else old(nextSeq)
      ensures result == Stored ==> old(nextSeq) in window.View() && window.View()[old(nextSeq)] == wire
      ensures forall k :: window.ackFloor <= k < old(nextSeq) ==>
                k in window.View() && k in old(window.View()) && window.View()[k] == old(window.View())[k]
      ensures result == Full <==>
                OverBudget(|wire|)
                || (old(AllTaken()) && forall i :: 0 <= i < |floors| ==> floors[i] <= old(window.ackFloor))
    {
      hide Window.Valid, Window.View;
      result := Add(wire);
      var i := 0;
      while result == Full && i < |floors|
        invariant i <= |floors| && Valid() && fresh(window.Memory() - old(window.Memory()))
        invariant |window.slots| == |old(window.slots)| && window.ackFloor >= old(window.ackFloor)
        invariant nextSeq == if result == Stored then old(nextSeq) + 1 else old(nextSeq)
        invariant result == Stored ==> old(nextSeq) in window.View() && window.View()[old(nextSeq)] == wire
        invariant forall k :: window.ackFloor <= k < old(nextSeq) ==>
                    k in window.View() && k in old(window.View()) && window.View()[k] == old(window.View())[k]
        invariant result == Full <==>
                    OverBudget(|wire|)
                    || (old(AllTaken()) && forall j :: 0 <= j < i ==> floors[j] <= old(window.ackFloor))
        invariant result == Full && !OverBudget(|wire|) ==> window.ackFloor == old(window.ackFloor)
      {
        Acknowledge(floors[i]);
        result := Add(wire);
        i := i + 1;
      }
    }
  }
}

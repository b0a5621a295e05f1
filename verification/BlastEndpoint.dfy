/** The blast receive coordinator as the object that the packet loop updates in place. */
module BlastEndpoint {
  import Maps
  import opened Bits
  import opened Lanes
  import opened Options
  import opened BlastCoordinator

  class Coordinator {
    var stripes: seq<Stripe>
    var pendingOutput: map<nat, seq<Byte>>
    var pendingOutputBytes: nat
    var futureBufferedBytes: nat
    var spool: Option<seq<Byte>>
    var spoolLens: map<nat, nat>
    var nextOffset: nat
    var finalTotal: Option<nat>
    var completedStripes: nat
    var writeBuf: seq<Byte>
    var dst: seq<Byte>
    const capacity: nat
    const expectedBytes: int

    function View(): State
      reads this
    {
      State(stripes, pendingOutput, pendingOutputBytes, futureBufferedBytes, spool, spoolLens, nextOffset,
            finalTotal, completedStripes, writeBuf, dst, capacity, expectedBytes)
    }

    constructor (totalStripes: nat, capacity: nat, expectedBytes: int)
      ensures View() == Fresh(totalStripes, capacity, expectedBytes)
    {
      stripes := seq(totalStripes, _ => FreshStripe());
      pendingOutput, pendingOutputBytes, futureBufferedBytes := map[], 0, 0;
      spool, spoolLens := None, map[];
      nextOffset, finalTotal, completedStripes := 0, None, 0;
      writeBuf, dst := [], [];
      this.capacity, this.expectedBytes := capacity, expectedBytes;
    }

    method HasFutureSpooledPackets() returns (found: bool)
      ensures found <==> exists i :: 0 <= i < |stripes| && stripes[i].spooled != map[]
    {
      found := false;
      for i := 0 to |stripes|
        invariant !found
        invariant forall j :: 0 <= j < i ==> stripes[j].spooled == map[]
      {
        if |stripes[i].spooled| > 0 {
          return true;
        }
      }
    }

    method MaybeClosePayloadSpool()
      modifies this`spool
      ensures View() == MaybeCloseSpool(old(View()))
    {
      if spool.None? || |spoolLens| > 0 {
        return;
      }
      var found := HasFutureSpooledPackets();
      if !found {
        spool := None;
      }
    }

    /** A failed write leaves in `dst` what the destination took. */
    method FlushPayload() returns (ok: bool)
      modifies this`writeBuf, this`dst
      ensures match FlushWriteBuffer(old(View()))
              case Ok(s) => ok && View() == s
              case Err(d) => !ok && dst == d
    {
      var room := if |dst| <= capacity then capacity - |dst| else 0;
      ok := |dst| + |writeBuf| <= capacity;
      if ok {
        dst, writeBuf := dst + writeBuf, [];
      } else {
        dst := dst + writeBuf[..room];
      }
    }

    method WriteStripedPayload(payload: seq<Byte>) returns (ok: bool)
      modifies this`writeBuf, this`dst, this`nextOffset
      ensures match WritePayload(old(View()), payload)
              case Ok(s) => ok && View() == s
              case Err(d) => !ok && dst == d
    {
      if |payload| == 0 {
        return true;
      }
      writeBuf := writeBuf + payload;
      nextOffset := nextOffset + |payload|;
      ok := true;
      if |writeBuf| >= WriteBufferLimit {
        ok := FlushPayload();
      }
    }

    method FlushStripedPendingPayloads() returns (ok: bool)
      modifies this
      ensures match FlushPending(old(View()))
              case Ok(s) => ok && View() == s
              case Err(d) => !ok && dst == d
    {
      while nextOffset in pendingOutput || nextOffset in spoolLens
        invariant FlushPending(View()) == FlushPending(old(View()))
        decreases |pendingOutput| + |spoolLens|
      {
        ghost var before := View();
        var payload;
        if nextOffset in pendingOutput {
          payload := pendingOutput[nextOffset];
          pendingOutput := Maps.Without(pendingOutput, nextOffset);
          pendingOutputBytes := Less(pendingOutputBytes, |payload|);
        } else {
          if spool.None? {
            return false;
          }
          var length := spoolLens[nextOffset];
          var bytes := SpoolRead(spool.value, nextOffset, length);
          if bytes.None? {
            return false;
          }
          payload := bytes.value;
          spoolLens := Maps.Without(spoolLens, nextOffset);
          MaybeClosePayloadSpool();
        }
        assert TakePending(before) == Took(View(), payload);
        ok := WriteStripedPayload(payload);
        if !ok {
          return;
        }
      }
      return true;
    }

    method StoreStripedPendingOutput(offset: nat, payload: seq<Byte>) returns (ok: bool)
      modifies this`pendingOutput, this`pendingOutputBytes, this`spool, this`spoolLens
      ensures match StorePending(old(View()), offset, payload)
              case Ok(s) => ok && View() == s
              case Err(d) => !ok && dst == d
    {
      if offset in pendingOutput || offset in spoolLens {
        return true;
      }
      if pendingOutputBytes + |payload| <= PendingOutputLimit {
        pendingOutput := pendingOutput[offset := payload];
        pendingOutputBytes := pendingOutputBytes + |payload|;
        return true;
      }
      if offset > MaxInt {
        return false;
      }
      var file := if spool.Some? then spool.value else [];
      spool := Some(SpoolWrite(file, offset, payload));
      spoolLens := spoolLens[offset := |payload|];
      return true;
    }

    method StoreStripedFuturePacket(i: nat, p: Packet) returns (ok: bool)
      requires i < |stripes|
      modifies this`stripes, this`futureBufferedBytes, this`spool
      ensures match StoreFuture(old(View()), i, p)
              case Ok(s) => ok && View() == s
              case Err(d) => !ok && dst == d
    {
      var stripe := Note(stripes[i], p.seqNo);
      if p.Done? || |p.payload| == 0 {
        stripes := stripes[i := stripe.(buffered := stripe.buffered[p.seqNo := p])];
        return true;
      }
      if futureBufferedBytes + |p.payload| <= FutureBufferLimit {
        stripes := stripes[i := stripe.(buffered := stripe.buffered[p.seqNo := p])];
        futureBufferedBytes := futureBufferedBytes + |p.payload|;
        return true;
      }
      if p.offset > MaxInt {
        return false;
      }
      var file := if spool.Some? then spool.value else [];
      spool := Some(SpoolWrite(file, p.offset, p.payload));
      stripes := stripes[i := stripe.(spooled := stripe.spooled[p.seqNo := Spooled(p.offset, |p.payload|)])];
      return true;
    }

    /** `packet` is absent when stripe `i` does not keep what it expects. */
    method PopStripedBufferedPacket(i: nat) returns (packet: Option<Packet>, ok: bool)
      requires i < |stripes|
      modifies this`stripes, this`futureBufferedBytes, this`spool
      ensures match PopFuture(old(View()), i)
              case Got(s, p) => ok && packet == Some(p) && View() == s
              case Nothing => ok && packet == None && View() == old(View())
              case Lost => !ok && View() == old(View())
    {
      var stripe := stripes[i];
      var n := stripe.expected;
      if n in stripe.buffered {
        var p := stripe.buffered[n];
        stripes := stripes[i := stripe.(buffered := Maps.Without(stripe.buffered, n))];
        futureBufferedBytes := Less(futureBufferedBytes, Size(p));
        return Some(p), true;
      }
      if n !in stripe.spooled {
        return None, true;
      }
      if spool.None? {
        return None, false;
      }
      var entry := stripe.spooled[n];
      var payload := SpoolRead(spool.value, entry.offset, entry.length);
      if payload.None? {
        return None, false;
      }
      stripes := stripes[i := stripe.(spooled := Maps.Without(stripe.spooled, n))];
      MaybeClosePayloadSpool();
      return Some(Data(n, entry.offset, payload.value)), true;
    }

    method AcceptStripedSequentialPacket(i: nat, p: Packet) returns (ok: bool)
      requires i < |stripes|
      modifies this
      ensures match AcceptSequential(old(View()), i, p)
              case Ok(s) => ok && View() == s
              case Err(d) => !ok && dst == d
    {
      hide FlushPending, WritePayload, StorePending;
      ok := true;
      match p {
        case Data(_, offset, payload) =>
          if |payload| > 0 {
            if offset == nextOffset {
              ok := WriteStripedPayload(payload);
              if ok {
                ok := FlushStripedPendingPayloads();
              }
            } else if offset > nextOffset {
              ok := StoreStripedPendingOutput(offset, payload);
            }
          }
        case Done(n, total) =>
          if !stripes[i].done {
            stripes := stripes[i := stripes[i].(done := true, totalPackets := n)];
            completedStripes := completedStripes + 1;
          }
          if finalTotal.None? {
            finalTotal := Some(total);
          } else if finalTotal.value != total {
            return false;
          }
          if expectedBytes > 0 && total != expectedBytes {
            return false;
          }
      }
      if ok {
        stripes := stripes[i := stripes[i].(expected := stripes[i].expected + 1)];
      }
    }

    method DrainStripe(i: nat) returns (ok: bool)
      requires i < |stripes|
      modifies this
      ensures match DrainFuture(old(View()), i)
              case Ok(s) => ok && View() == s
              case Err(d) => !ok && dst == d
    {
      ghost var start := View();
      while true
        invariant i < |stripes|
        invariant DrainFuture(View(), i) == DrainFuture(start, i)
        decreases Kept(View(), i)
      {
        var packet;
        packet, ok := PopStripedBufferedPacket(i);
        if !ok || packet.None? {
          return;
        }
        ok := AcceptStripedSequentialPacket(i, packet.value);
        if !ok {
          return;
        }
      }
    }

    /** Accepts the packet that stripe `i` expects and everything that follows it. */
    method AcceptInTurn(i: nat, p: Packet) returns (complete: bool, ok: bool)
      requires i < |stripes|
      modifies this
      ensures var accepted := AcceptSequential(old(View()), i, p);
              match if accepted.Err? then accepted else Finish(DrainFuture(accepted.state, i))
              case Ok(s) => ok && View() == s && complete == IsComplete(s)
              case Err(d) => !ok && dst == d
    {
      hide AcceptSequential, DrainFuture;
      ok := AcceptStripedSequentialPacket(i, p);
      if !ok {
        return false, false;
      }
      ok := DrainStripe(i);
      if !ok {
        return false, false;
      }
      complete := IsComplete(View());
      if complete {
        ok := FlushPayload();
      }
    }

    /** Takes one DATA or DONE packet of stripe `i`; `complete` is what the receive reports. */
    method HandleStripedPacket(i: nat, p: Packet) returns (complete: bool, ok: bool)
      requires i < |stripes|
      modifies this
      ensures match Handle(old(View()), i, p)
              case Ok(s) => ok && View() == s && complete == (IsComplete(s) && (p.Data? ==> 0 < |p.payload|))
              case Err(d) => !ok && dst == d
    {
      hide AcceptSequential, DrainFuture, StoreFuture, Finish, IsComplete, Note;
      if p.Data? && |p.payload| == 0 {
        return false, true;
      }
      if p.Done? {
        var stripe := stripes[i].(terminalSeen := true);
        if p.seqNo > stripe.totalPackets {
          stripe := stripe.(totalPackets := p.seqNo);
        }
        stripes := stripes[i := stripe];
      }
      assert View() == WithStripe(old(View()), i, Announced(old(stripes[i]), p));
      if p.seqNo < stripes[i].expected || p.seqNo in stripes[i].seen {
        return IsComplete(View()), true;
      }
      if p.seqNo > stripes[i].expected {
        ok := StoreStripedFuturePacket(i, p);
        return ok && IsComplete(View()), ok;
      }
      stripes := stripes[i := Note(stripes[i], p.seqNo)];
      assert View() == WithStripe(old(View()), i, Note(Announced(old(stripes[i]), p), p.seqNo));
      complete, ok := AcceptInTurn(i, p);
    }
  }
}

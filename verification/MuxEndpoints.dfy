/** The mux and a stream of it as the objects whose fields the goroutines update. */
module MuxEndpoints {
  import opened Bits
  import opened Options
  import Mux
  import MuxResults

  class CarrierSlot {
    var carrier: Option<nat>
    var carrierGen: nat
    /** The number of the armed change signal; the ones before it have fired. */
    var carrierChange: nat
    var closed: bool

    function View(): Mux.Carriers
      reads this
    {
      Mux.Carriers(carrier, carrierGen, carrierChange, closed)
    }

    constructor ()
      ensures View() == Mux.Carriers(None, 0, 0, false)
    {
      carrier, carrierGen, carrierChange, closed := None, 0, 0, false;
    }

    /** The signal with this number has been closed, so that whoever waits on it wakes up. */
    predicate Fired(signal: nat)
      reads this`carrierChange
    {
      signal < carrierChange
    }

    /** Installs a carrier; `toClose` is the one that must be closed now, if any. */
    method ReplaceCarrier(next: Option<nat>) returns (toClose: Option<nat>)
      modifies this
      ensures View() == Mux.Replace(old(View()), next)
      ensures toClose == if old(closed) then next else old(carrier)
      ensures !closed ==> Fired(old(carrierChange)) && old(carrierGen) < carrierGen
    {
      if closed {
        return next;
      }
      toClose := carrier;
      carrier := next;
      carrierGen := carrierGen + 1;
      carrierChange := carrierChange + 1;
    }

    /** A notice about another generation changes nothing and wakes nobody; one that takes
        the carrier away wakes everyone who holds the armed signal. */
    method MarkCarrierDead(generation: nat, dead: nat)
      modifies this
      ensures View() == Mux.MarkDead(old(View()), generation, dead)
      ensures generation != old(carrierGen) ==> View() == old(View())
      ensures carrier != old(carrier) <==> Fired(old(carrierChange))
    {
      if closed || carrierGen != generation || carrier != Some(dead) {
        return;
      }
      carrier := None;
      carrierChange := carrierChange + 1;
    }

    method Close()
      modifies this
      ensures View() == Mux.Close(old(View()))
      ensures closed && (!old(closed) ==> Fired(old(carrierChange)))
    {
      if closed {
        return;
      }
      closed := true;
      carrier := None;
      carrierChange := carrierChange + 1;
    }
  }

  class Stream {
    var sendSeq: nat
    var recvSeq: nat
    var pending: Option<Mux.Pending>
    /** What was written to the local connection, and whether it still takes writes. */
    var out: seq<Byte>
    var alive: bool

    function Sending(): Mux.Sender
      reads this
    {
      Mux.Sender(sendSeq, pending)
    }

    function Receiving(): Mux.Peer
      reads this
    {
      Mux.Peer(recvSeq, out, alive)
    }

    constructor ()
      ensures Sending() == Mux.Sender(0, None) && Receiving() == Mux.Peer(0, [], true)
    {
      sendSeq, recvSeq, pending, out, alive := 0, 0, None, [], true;
    }

    /** Registers a chunk before it is written for the first time. */
    method BeginChunk(payload: seq<Byte>) returns (startSeq: nat)
      modifies this`sendSeq, this`pending
      ensures Sending() == Mux.Begin(old(Sending()), |payload|) && startSeq == old(sendSeq)
    {
      startSeq := sendSeq;
      sendSeq := sendSeq + |payload|;
      pending := Some(Mux.Pending(startSeq + |payload|, false));
    }

    method HandleAck(ack: nat)
      modifies this`pending
      ensures Sending() == Mux.HandleAck(old(Sending()), ack)
    {
      if pending.None? || ack < pending.value.endSeq {
        return;
      }
      pending := Some(pending.value.(acked := true));
    }

    /** Writes to the local connection; after a failed write it takes nothing more. */
    method WriteConn(payload: seq<Byte>, room: nat) returns (ok: bool)
      modifies this`out, this`alive
      ensures ok == (old(alive) && |payload| <= room) && alive == ok
      ensures out == if ok then old(out) + payload else if old(alive) then old(out) + payload[..room] else old(out)
    {
      ok := alive && |payload| <= room;
      if ok {
        out := out + payload;
      } else if alive {
        out := out + payload[..room];
      }
      alive := ok;
    }

    method Deliver(seqNo: nat, payload: seq<Byte>, room: nat) returns (ack: nat, ok: bool)
      modifies this`recvSeq, this`out, this`alive
      ensures match Mux.Deliver(old(Receiving()), seqNo, payload, room)
              case Acked(p, a) => ok && ack == a && Receiving() == p
              case Broken(p) => !ok && Receiving() == p
      ensures forall read :: Mux.PeerOk(read, old(Receiving())) && Mux.IsPiece(read, seqNo, payload) ==>
                Mux.PeerOk(read, Receiving()) && old(out) <= out
    {
      forall read | Mux.PeerOk(read, Receiving()) && Mux.IsPiece(read, seqNo, payload)
        ensures Mux.PeerOk(read, Mux.Deliver(Receiving(), seqNo, payload, room).peer)
        ensures out <= Mux.Deliver(Receiving(), seqNo, payload, room).peer.out
      {
        MuxResults.DeliverKeeps(read, Receiving(), seqNo, payload, room);
      }
      if seqNo != recvSeq {
        return recvSeq, true;
      }
      ok := WriteConn(payload, room);
      if !ok {
        return 0, false;
      }
      recvSeq := recvSeq + |payload|;
      return recvSeq, true;
    }
  }
}

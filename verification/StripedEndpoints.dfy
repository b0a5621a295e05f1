/** The striped receiver and the striped packet source as the objects that the transport
    updates in place. */
module StripedEndpoints {
  import Maps
  import opened Bits
  import opened Lanes
  import opened Options
  import opened Reassembly
  import opened StripedTransport

  class StripedReceiver {
    var stripes: seq<RecvStripe>
    var pendingOutput: map<nat, seq<Byte>>
    var nextOffset: nat
    /** The bytes given to the destination so far. */
    var out: seq<Byte>
    var finalTotal: nat
    var finalTotalSet: bool
    var completedStripes: nat

    function Output(): Buffer
      reads this
    {
      Buffer(nextOffset, pendingOutput, out)
    }

    function View(): Receiver
      reads this
    {
      Receiver(stripes, Output(), if finalTotalSet then Some(finalTotal) else None, completedStripes)
    }

    constructor (totalStripes: nat)
      ensures View() == Receiver(seq(totalStripes, _ => RecvStripe(0, map[], false)), Buffer(0, map[], []), None, 0)
    {
      stripes := seq(totalStripes, _ => RecvStripe(0, map[], false));
      pendingOutput, nextOffset, out := map[], 0, [];
      finalTotal, finalTotalSet, completedStripes := 0, false, 0;
    }

    method WriteStripedPayload(payload: seq<Byte>)
      modifies this`out, this`nextOffset
      ensures out == old(out) + payload && nextOffset == old(nextOffset) + |payload|
    {
      out := out + payload;
      nextOffset := nextOffset + |payload|;
    }

    method FlushStripedPendingPayloads()
      modifies this`out, this`nextOffset, this`pendingOutput
      ensures Output() == Flush(old(Output()))
    {
      while nextOffset in pendingOutput
        invariant Flush(Output()) == Flush(old(Output()))
        decreases |pendingOutput|
      {
        var payload := pendingOutput[nextOffset];
        pendingOutput := Maps.Without(pendingOutput, nextOffset);
        WriteStripedPayload(payload);
      }
    }

    method IsComplete() returns (complete: bool)
      ensures complete == Complete(View())
    {
      return finalTotalSet && completedStripes == |stripes| && nextOffset == finalTotal;
    }

    /** Accepts the packet stripe `i` expects; `ok` is false when DONE packets disagree. */
    method AcceptStripedPacket(i: nat, p: Packet) returns (ok: bool)
      requires i < |stripes|
      modifies this
      ensures ok == StripedTransport.AcceptPacket(old(View()), i, p).Ok?
      ensures ok ==> View() == StripedTransport.AcceptPacket(old(View()), i, p).receiver
    {
      hide Flush;
      match p {
        case Data(_, offset, payload) =>
          if |payload| > 0 {
            if offset == nextOffset {
              WriteStripedPayload(payload);
              FlushStripedPendingPayloads();
            } else if offset > nextOffset {
              if offset !in pendingOutput {
                pendingOutput := pendingOutput[offset := payload];
              }
            }
          }
          stripes := stripes[i := stripes[i].(expected := stripes[i].expected + 1)];
        case Done(_, offset) =>
          if !stripes[i].done {
            stripes := stripes[i := stripes[i].(done := true)];
            completedStripes := completedStripes + 1;
          }
          if !finalTotalSet {
            finalTotal := offset;
            finalTotalSet := true;
          } else if finalTotal != offset {
            return false;
          }
          stripes := stripes[i := stripes[i].(expected := stripes[i].expected + 1)];
      }
      return true;
    }

    /** Handles one DATA or DONE packet of stripe `i`; reports whether all is complete. */
    method ProcessStripedPacket(i: nat, p: Packet) returns (complete: bool, ok: bool)
      requires i < |stripes|
      modifies this
      ensures ok == Receive(old(View()), i, p).Ok?
      ensures ok ==> View() == Receive(old(View()), i, p).receiver && complete == Complete(View())
    {
      hide AcceptPacket, Accept;
      ghost var start := View();
      AcceptKeepsStripes(start, i, p);
      if p.seqNo == stripes[i].expected {
        ok := AcceptStripedPacket(i, p);
        if !ok {
          return false, false;
        }
        ghost var accepted := View();
        complete := IsComplete();
        while !complete && stripes[i].expected in stripes[i].buffered
          invariant |stripes| == |start.stripes|
          invariant complete == Complete(View())
          invariant Drain(View(), i) == Drain(accepted, i)
          decreases |stripes[i].buffered|
        {
          ghost var before := View();
          var packet := stripes[i].buffered[stripes[i].expected];
          stripes := stripes[i := stripes[i].(buffered := Maps.Without(stripes[i].buffered, stripes[i].expected))];
          AcceptKeepsStripes(View(), i, packet);
          ok := AcceptStripedPacket(i, packet);
          if !ok {
            return false, false;
          }
          complete := IsComplete();
        }
        return complete, true;
      } else if p.seqNo > stripes[i].expected && p.seqNo <= stripes[i].expected + MaxBufferedPackets {
        stripes := stripes[i := stripes[i].(buffered := stripes[i].buffered[p.seqNo := p])];
      }
      complete := IsComplete();
      return complete, true;
    }
  }

  lemma AcceptKeepsStripes(r: Receiver, i: nat, p: Packet)
    requires i < |r.stripes|
    ensures var result := AcceptPacket(r, i, p);
            result.Ok? ==>
              && |result.receiver.stripes| == |r.stripes|
              && result.receiver.stripes[i].buffered == r.stripes[i].buffered
  {
  }

  /** The packet source that all stripes of a striped send share. */
  class StripedSource {
    const chunkSize: nat
    const window: nat
    var offset: nat
    var eof: bool
    var pendingErr: bool
    var stripes: seq<SendStripe>

    function View(): Sender
      reads this
    {
      Sender(chunkSize, window, offset, eof, pendingErr, stripes)
    }

    constructor (chunkSize: nat, window: nat, parallel: nat)
      ensures View() == Sender(chunkSize, window, 0, false, false, seq(parallel, _ => SendStripe(0, false, map[])))
    {
      this.chunkSize, this.window := chunkSize, window;
      offset, eof, pendingErr := 0, false, false;
      stripes := seq(parallel, _ => SendStripe(0, false, map[]));
    }

    /** Builds the next packet of stripe `i`; `ok` is false when the reader failed. */
    method NextStripedOutboundPacket(i: nat, r: Read) returns (packet: Option<Packet>, ok: bool)
      requires i < |stripes|
      modifies this
      ensures match NextOutbound(old(View()), i, r)
              case Sent(s, p) => View() == s && packet == Some(p) && ok
              case Nothing(s) => View() == s && packet == None && ok
              case Failed => View() == old(View()) && packet == None && !ok
    {
      if stripes[i].doneQueued || pendingErr {
        return None, true;
      }
      var seqNo := stripes[i].nextSeq;
      if !eof && |r.bytes| > 0 {
        packet := Some(Data(seqNo, offset, r.bytes));
        stripes := stripes[i := stripes[i].(nextSeq := seqNo + 1)];
        offset := offset + |r.bytes|;
        if r.end == Eof {
          eof := true;
        } else if r.end == Broken {
          pendingErr := true;
        }
        return packet, true;
      }
      if !eof && r.end == Broken {
        return None, false;
      }
      if !eof && r.end == More {
        return None, true;
      }
      eof := true;
      packet := Some(Done(seqNo, offset));
      stripes := stripes[i := stripes[i].(nextSeq := seqNo + 1, doneQueued := true)];
      return packet, true;
    }
  }
}

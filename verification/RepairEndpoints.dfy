/** The receive state that repair requests are drawn from, updated in place. */
module RepairEndpoints {
  import opened RepairScheduler

  function Flat(batches: seq<seq<nat>>): seq<nat> {
    if batches == [] then [] else Flat(batches[..|batches| - 1]) + batches[|batches| - 1]
  }

  class RepairState {
    var seen: set<nat>
    var done: bool
    var terminalSeen: bool
    var totalPackets: nat
    var maxSeqPlusOne: nat
    /** The first sequence number not accepted in order. */
    var expectedSeq: nat
    var nextRepairSeq: nat

    constructor ()
      ensures seen == {} && !done && !terminalSeen && totalPackets == maxSeqPlusOne == expectedSeq == nextRepairSeq == 0
    {
      seen, done, terminalSeen, totalPackets, maxSeqPlusOne, expectedSeq, nextRepairSeq := {}, false, false, 0, 0, 0, 0;
    }

    /** Walks once round the window and stops at the limit. */
    method Collect(lo: nat, hi: nat, start: nat, limit: nat) returns (out: seq<nat>)
      requires lo <= start < hi
      ensures out == Request(seen, lo, hi, start, limit)
    {
      var span := hi - lo;
      var checked := 0;
      out := [];
      while checked < span && |out| < limit
        invariant checked <= span && |out| <= limit
        invariant out == Scan(seen, lo, span, start, 0, checked)
      {
        var n := lo + (start - lo + checked) % span;
        assert n == SeqAt(lo, span, start, 0 + (checked + 1) - 1);
        if n !in seen {
          out := out + [n];
        }
        checked := checked + 1;
      }
      ScanSplits(seen, lo, span, start, 0, checked, span - checked);
    }

    method MissingSeqs(limit: nat) returns (out: seq<nat>)
      modifies this`nextRepairSeq
      ensures (done || terminalSeen) ==> out == Request(seen, 0, totalPackets, old(nextRepairSeq), limit)
      ensures !(done || terminalSeen) ==> out == []
      ensures nextRepairSeq == NextCursor(0, totalPackets, old(nextRepairSeq), out)
    {
      if !(done || terminalSeen) || limit == 0 || totalPackets == 0 {
        return [];
      }
      var start := if nextRepairSeq >= totalPackets then 0 else nextRepairSeq;
      out := Collect(0, totalPackets, start, limit);
      if |out| > 0 {
        InWindow(seen, 0, totalPackets, start, limit);
        Wraps(out[|out| - 1] + 1, totalPackets);
        nextRepairSeq := (out[|out| - 1] + 1) % totalPackets;
      }
    }

    /** What the cursor is set to here may lie just behind the window; the next call then
        begins at the window's start. */
    method MissingSeqsBefore(endSeq: nat, limit: nat) returns (out: seq<nat>)
      modifies this`nextRepairSeq
      ensures out == Request(seen, expectedSeq, endSeq, old(nextRepairSeq), limit)
      ensures Start(expectedSeq, endSeq, nextRepairSeq)
              == Start(expectedSeq, endSeq, NextCursor(expectedSeq, endSeq, old(nextRepairSeq), out))
    {
      if limit == 0 || endSeq <= expectedSeq {
        return [];
      }
      var start := if nextRepairSeq < expectedSeq || nextRepairSeq >= endSeq then expectedSeq else nextRepairSeq;
      out := Collect(expectedSeq, endSeq, start, limit);
      if |out| > 0 {
        nextRepairSeq := out[|out| - 1] + 1;
      }
    }

    method KnownMissingSeqs(limit: nat) returns (out: seq<nat>)
      modifies this`nextRepairSeq
      ensures out == Request(seen, expectedSeq, maxSeqPlusOne, old(nextRepairSeq), limit)
      ensures Start(expectedSeq, maxSeqPlusOne, nextRepairSeq)
              == Start(expectedSeq, maxSeqPlusOne, NextCursor(expectedSeq, maxSeqPlusOne, old(nextRepairSeq), out))
    {
      out := MissingSeqsBefore(maxSeqPlusOne, limit);
    }

    /** The same walk, handed out in batches. */
    method MissingSeqBatches(batchSize: nat, maxBatches: nat) returns (batches: seq<seq<nat>>)
      modifies this`nextRepairSeq
      ensures |batches| <= maxBatches && forall b :: 0 <= b < |batches| ==> 0 < |batches[b]| <= batchSize
      ensures Flat(batches) ==
              if done then Request(seen, 0, totalPackets, old(nextRepairSeq), batchSize * maxBatches) else []
      ensures nextRepairSeq == NextCursor(0, totalPackets, old(nextRepairSeq), Flat(batches))
    {
      RoomIs(maxBatches, batchSize);
      if !done || batchSize == 0 || maxBatches == 0 || totalPackets == 0 {
        return [];
      }
      var start := if nextRepairSeq >= totalPackets then 0 else nextRepairSeq;
      batches := CollectBatches(start, batchSize, maxBatches);
      ghost var flat := Flat(batches);
      if |batches| > 0 {
        var current := batches[|batches| - 1];
        var last := current[|current| - 1];
        assert last == flat[|flat| - 1];
        InWindow(seen, 0, totalPackets, start, batchSize * maxBatches);
        Wraps(last + 1, totalPackets);
        nextRepairSeq := (last + 1) % totalPackets;
      }
    }

    method CollectBatches(start: nat, batchSize: nat, maxBatches: nat) returns (batches: seq<seq<nat>>)
      requires start < totalPackets && batchSize > 0 && maxBatches > 0
      ensures |batches| <= maxBatches && forall b :: 0 <= b < |batches| ==> 0 < |batches[b]| <= batchSize
      ensures Flat(batches) == Request(seen, 0, totalPackets, start, Room(maxBatches, batchSize))
    {
      var current: seq<nat> := [];
      batches := [];
      var checked := 0;
      while checked < totalPackets && |batches| < maxBatches
        invariant checked <= totalPackets && |current| < batchSize && |batches| <= maxBatches
        invariant |batches| == maxBatches ==> current == []
        invariant forall b :: 0 <= b < |batches| ==> |batches[b]| == batchSize
        invariant |Flat(batches)| == Room(|batches|, batchSize)
        invariant Flat(batches) + current == Scan(seen, 0, totalPackets, start, 0, checked)
      {
        var n := (start + checked) % totalPackets;
        assert n == SeqAt(0, totalPackets, start, 0 + (checked + 1) - 1);
        ghost var before := Flat(batches) + current;
        if n !in seen {
          current := current + [n];
          assert Flat(batches) + current == before + [n];
          if |current| == batchSize {
            FlatGrows(batches, current);
            batches := batches + [current];
            current := [];
          }
        }
        checked := checked + 1;
      }
      ghost var flat := Flat(batches) + current;
      WholeWalk(seen, totalPackets, start, checked, flat, Room(maxBatches, batchSize)) by {
        if |batches| < maxBatches {
          RoomGrows(|batches| + 1, maxBatches, batchSize);
        }
      }
      if |current| > 0 {
        FlatGrows(batches, current);
        batches := batches + [current];
      } else {
        assert Flat(batches) + current == Flat(batches);
      }
    }
  }

  /** A walk that went round, or found as many as it may. */
  lemma WholeWalk(seen: set<nat>, total: nat, start: nat, checked: nat, found: seq<nat>, limit: nat)
    requires start < total && checked <= total && found == Scan(seen, 0, total, start, 0, checked)
    requires |found| <= limit && (checked < total ==> |found| == limit)
    ensures found == Request(seen, 0, total, start, limit)
  {
    ScanSplits(seen, 0, total, start, 0, checked, total - checked);
  }

  lemma FlatGrows(batches: seq<seq<nat>>, b: seq<nat>)
    ensures Flat(batches + [b]) == Flat(batches) + b
  {
    assert (batches + [b])[..|batches|] == batches;
  }

  lemma InWindow(seen: set<nat>, lo: nat, hi: nat, cursor: nat, limit: nat)
    requires lo < hi
    ensures forall i :: 0 <= i < |Request(seen, lo, hi, cursor, limit)| ==>
            lo <= Request(seen, lo, hi, cursor, limit)[i] < hi
  {
    RequestExactly(seen, lo, hi, cursor, limit);
  }

  lemma Wraps(n: nat, total: nat)
    requires 0 < n <= total
    ensures n % total == Start(0, total, n)
  {
  }
}

/** Repair requests: which missing sequence numbers a receiver asks for next, with a cursor
    that goes round the window so that every one gets its turn. */
module RepairScheduler {
  import opened Sets
  import opened Arithmetic

  /** The window `lo..hi` is scanned in a circle, beginning at `start`. */
  function SeqAt(lo: nat, span: nat, start: nat, k: nat): nat
    requires span > 0 && lo <= start
  {
    lo + (start - lo + k) % span
  }

  /** The missing ones among `len` positions of the circle, from position `k` on. */
  function Scan(seen: set<nat>, lo: nat, span: nat, start: nat, k: nat, len: nat): seq<nat>
    requires span > 0 && lo <= start
  {
    if len == 0 then []
    else
      var n := SeqAt(lo, span, start, k + len - 1);
      Scan(seen, lo, span, start, k, len - 1) + (if n in seen then [] else [n])
  }

  /** Where a scan begins: a cursor outside the window goes to its beginning. */
  function Start(lo: nat, hi: nat, cursor: nat): nat {
    if cursor < lo || cursor >= hi then lo else cursor
  }

  /** All missing sequence numbers, in the order of the circle. */
  function Missing(seen: set<nat>, lo: nat, hi: nat, cursor: nat): seq<nat>
    requires lo < hi
  {
    Scan(seen, lo, hi - lo, Start(lo, hi, cursor), 0, hi - lo)
  }

  function Least(a: nat, b: nat): nat {
    if a < b then a else b
  }

  /** What one call with a limit asks for, and where the next call begins. */
  function Request(seen: set<nat>, lo: nat, hi: nat, cursor: nat, limit: nat): seq<nat> {
    if hi <= lo then []
    else
      var all := Missing(seen, lo, hi, cursor);
      all[..Least(limit, |all|)]
  }

  function NextCursor(lo: nat, hi: nat, cursor: nat, request: seq<nat>): nat {
    if |request| == 0 then cursor else Start(lo, hi, request[|request| - 1] + 1)
  }

  // ----- The circle -----

  lemma {:induction false} ScanSplits(seen: set<nat>, lo: nat, span: nat, start: nat, k: nat, a: nat, b: nat)
    requires span > 0 && lo <= start
    ensures Scan(seen, lo, span, start, k, a + b)
            == Scan(seen, lo, span, start, k, a) + Scan(seen, lo, span, start, k + a, b)
    decreases b
  {
    hide SeqAt;
    if b > 0 {
      ScanSplits(seen, lo, span, start, k, a, b - 1);
      assert k + (a + b) - 1 == (k + a) + b - 1;
    }
  }

  /** Shifting the start shifts the positions, and a whole turn changes nothing. */
  lemma SeqAtShifts(lo: nat, span: nat, start: nat, p: nat, k: nat)
    requires span > 0 && lo <= start
    ensures SeqAt(lo, span, SeqAt(lo, span, start, p), k) == SeqAt(lo, span, start, p + k)
    ensures SeqAt(lo, span, start, span + k) == SeqAt(lo, span, start, k)
  {
    ModAdd(start - lo + p, k, span);
    ModAdd(start - lo + k, span, span);
    ModTurn((start - lo + k) % span, span);
  }

  lemma ModAdd(x: nat, k: nat, span: nat)
    requires span > 0
    ensures (x % span + k) % span == (x + k) % span
  {
    var q, r := x / span, x % span;
    var q', r' := (r + k) / span, (r + k) % span;
    assert x + k == q * span + q' * span + r';
    assert (q + q') * span == q * span + q' * span;
    DivMod(x + k, span, q + q', r');
  }

  lemma ModTurn(r: nat, span: nat)
    requires r < span
    ensures (r + span) % span == r
  {
    DivMod(r + span, span, 1, r);
  }

  lemma {:induction false} ScanShifts(seen: set<nat>, lo: nat, span: nat, start: nat, p: nat, k: nat, len: nat)
    requires span > 0 && lo <= start
    ensures Scan(seen, lo, span, SeqAt(lo, span, start, p), k, len) == Scan(seen, lo, span, start, p + k, len)
    ensures Scan(seen, lo, span, start, span + k, len) == Scan(seen, lo, span, start, k, len)
  {
    if len > 0 {
      SeqAtShifts(lo, span, start, p, k + len - 1);
      ScanShifts(seen, lo, span, start, p, k, len - 1);
      assert p + k + len - 1 == p + (k + len - 1) && span + k + len - 1 == span + (k + len - 1);
    }
    hide SeqAt;
  }

  /** A scan is cut right behind each of its members. */
  lemma {:induction false} PositionOf(seen: set<nat>, lo: nat, span: nat, start: nat, len: nat, j: nat) returns (p: nat)
    requires span > 0 && lo <= start && j < |Scan(seen, lo, span, start, 0, len)|
    ensures p < len && SeqAt(lo, span, start, p) == Scan(seen, lo, span, start, 0, len)[j]
    ensures Scan(seen, lo, span, start, 0, p + 1) == Scan(seen, lo, span, start, 0, len)[..j + 1]
    decreases len
  {
    hide SeqAt;
    var before := Scan(seen, lo, span, start, 0, len - 1);
    if j < |before| {
      p := PositionOf(seen, lo, span, start, len - 1, j);
    } else {
      p := len - 1;
    }
  }

  /** Beginning behind the `j`-th member turns the list by `j` places. */
  lemma Rotates(seen: set<nat>, lo: nat, span: nat, start: nat, j: nat)
    requires span > 0 && lo <= start < lo + span && 0 < j <= |Scan(seen, lo, span, start, 0, span)|
    ensures var all := Scan(seen, lo, span, start, 0, span);
            var next := Start(lo, lo + span, all[j - 1] + 1);
            Scan(seen, lo, span, next, 0, span) == all[j..] + all[..j]
  {
    var all := Scan(seen, lo, span, start, 0, span);
    var p := PositionOf(seen, lo, span, start, span, j - 1);
    var next := SeqAt(lo, span, start, p + 1);
    assert next == Start(lo, lo + span, all[j - 1] + 1) by { OneFurther(lo, span, start, p); }
    hide SeqAt, Start;
    var behind := Scan(seen, lo, span, start, p + 1, span - p - 1);
    ScanSplits(seen, lo, span, start, 0, p + 1, span - p - 1);
    assert behind == all[j..];
    ScanShifts(seen, lo, span, start, p + 1, 0, span);
    ScanSplits(seen, lo, span, start, p + 1, span - p - 1, p + 1);
    ScanShifts(seen, lo, span, start, 0, 0, p + 1);
  }

  lemma OneFurther(lo: nat, span: nat, start: nat, p: nat)
    requires span > 0 && lo <= start
    ensures SeqAt(lo, span, start, p + 1) == Start(lo, lo + span, SeqAt(lo, span, start, p) + 1)
  {
    var x := start - lo + p;
    var q, r := x / span, x % span;
    assert x == q * span + r;
    if r + 1 < span {
      DivMod(x + 1, span, q, r + 1);
    } else {
      assert (q + 1) * span == q * span + span;
      DivMod(x + 1, span, q + 1, 0);
    }
  }

  // ----- What is asked for -----

  lemma SeqAtInjective(lo: nat, span: nat, start: nat, p: nat, p': nat)
    requires span > 0 && lo <= start < lo + span && p < p' < span
    ensures lo <= SeqAt(lo, span, start, p) < lo + span
    ensures SeqAt(lo, span, start, p) != SeqAt(lo, span, start, p')
  {
    Wrapped(start - lo, p, span);
    Wrapped(start - lo, p', span);
  }

  lemma Wrapped(x: nat, p: nat, span: nat)
    requires x < span && p < span
    ensures (x + p) % span == if x + p < span then x + p else x + p - span
  {
    if x + p < span {
      DivMod(x + p, span, 0, x + p);
    } else {
      DivMod(x + p, span, 1, x + p - span);
    }
  }

  ghost predicate Distinct(s: seq<nat>) {
    forall i, j :: 0 <= i < j < |s| ==> s[i] != s[j]
  }

  /** Every member of a scan stands at one of its positions and was not seen. */
  lemma {:induction false} ScanMembers(seen: set<nat>, lo: nat, span: nat, start: nat, len: nat, j: nat)
    requires span > 0 && lo <= start < lo + span && j < |Scan(seen, lo, span, start, 0, len)|
    ensures var n := Scan(seen, lo, span, start, 0, len)[j];
            n !in seen && exists p: nat :: p < len && SeqAt(lo, span, start, p) == n
    decreases len
  {
    hide SeqAt;
    var before := Scan(seen, lo, span, start, 0, len - 1);
    if j < |before| {
      ScanMembers(seen, lo, span, start, len - 1, j);
    } else {
      assert SeqAt(lo, span, start, len - 1) == Scan(seen, lo, span, start, 0, len)[j];
    }
  }

  lemma {:induction false} ScanDistinct(seen: set<nat>, lo: nat, span: nat, start: nat, len: nat)
    requires span > 0 && lo <= start < lo + span && len <= span
    ensures Distinct(Scan(seen, lo, span, start, 0, len))
  {
    if len > 0 {
      ScanDistinct(seen, lo, span, start, len - 1);
      var before, n := Scan(seen, lo, span, start, 0, len - 1), SeqAt(lo, span, start, len - 1);
      forall j | 0 <= j < |before|
        ensures before[j] != n
      {
        ScanMembers(seen, lo, span, start, len - 1, j);
        var p: nat :| p < len - 1 && SeqAt(lo, span, start, p) == before[j];
        SeqAtInjective(lo, span, start, p, len - 1);
      }
      hide SeqAt;
    }
  }

  /** A missing sequence number at a position that is scanned is found. */
  lemma {:induction false} ScanFinds(seen: set<nat>, lo: nat, span: nat, start: nat, len: nat, p: nat)
    requires span > 0 && lo <= start && p < len && SeqAt(lo, span, start, p) !in seen
    ensures SeqAt(lo, span, start, p) in Scan(seen, lo, span, start, 0, len)
  {
    hide SeqAt;
    if p < len - 1 {
      ScanFinds(seen, lo, span, start, len - 1, p);
    }
  }

  lemma PositionIn(lo: nat, span: nat, start: nat, n: nat) returns (p: nat)
    requires span > 0 && lo <= start < lo + span && lo <= n < lo + span
    ensures p < span && SeqAt(lo, span, start, p) == n
  {
    p := if start <= n then n - start else n + span - start;
    Wrapped(start - lo, p, span);
  }

  /** The circle holds exactly the missing sequence numbers of the window, once each. */
  lemma MissingExactly(seen: set<nat>, lo: nat, hi: nat, cursor: nat)
    requires lo < hi
    ensures Distinct(Missing(seen, lo, hi, cursor))
    ensures forall n :: n in Missing(seen, lo, hi, cursor) <==> lo <= n < hi && n !in seen
  {
    var span, start := hi - lo, Start(lo, hi, cursor);
    var all := Missing(seen, lo, hi, cursor);
    ScanDistinct(seen, lo, span, start, span);
    hide Scan, Distinct;
    forall n
      ensures n in all <==> lo <= n < hi && n !in seen
    {
      if n in all {
        var j :| 0 <= j < |all| && all[j] == n;
        ScanMembers(seen, lo, span, start, span, j);
      } else if lo <= n < hi && n !in seen {
        var p := PositionIn(lo, span, start, n);
        ScanFinds(seen, lo, span, start, span, p);
      }
    }
  }

  /** A request names only missing sequence numbers of the window, none twice, and as many
      as the limit allows. */
  lemma RequestExactly(seen: set<nat>, lo: nat, hi: nat, cursor: nat, limit: nat)
    requires lo < hi
    ensures var r := Request(seen, lo, hi, cursor, limit);
            && Distinct(r) && |r| == Least(limit, |Missing(seen, lo, hi, cursor)|)
            && (forall i :: 0 <= i < |r| ==> lo <= r[i] < hi && r[i] !in seen)
  {
    MissingExactly(seen, lo, hi, cursor);
    var all := Missing(seen, lo, hi, cursor);
    hide Missing;
    forall i | 0 <= i < Least(limit, |all|)
      ensures lo <= all[i] < hi && all[i] !in seen
    {
      assert all[i] in all;
    }
  }

  // ----- Fairness -----

  /** The cursor after `k` calls without arrivals, and everything they asked for. */
  function CursorAfter(seen: set<nat>, lo: nat, hi: nat, cursor: nat, limit: nat, k: nat): nat {
    if k == 0 then cursor
    else
      var c := CursorAfter(seen, lo, hi, cursor, limit, k - 1);
      NextCursor(lo, hi, c, Request(seen, lo, hi, c, limit))
  }

  function Asked(seen: set<nat>, lo: nat, hi: nat, cursor: nat, limit: nat, k: nat): seq<nat> {
    if k == 0 then []
    else Asked(seen, lo, hi, cursor, limit, k - 1)
         + Request(seen, lo, hi, CursorAfter(seen, lo, hi, cursor, limit, k - 1), limit)
  }

  /** A call turns the circle behind what it asked for. */
  lemma RequestTurns(seen: set<nat>, lo: nat, hi: nat, cursor: nat, limit: nat)
    requires lo < hi
    ensures var all, r := Missing(seen, lo, hi, cursor), Request(seen, lo, hi, cursor, limit);
            Missing(seen, lo, hi, NextCursor(lo, hi, cursor, r)) == all[|r|..] + all[..|r|]
  {
    var r := Request(seen, lo, hi, cursor, limit);
    var span, start := hi - lo, Start(lo, hi, cursor);
    hide Scan;
    if |r| > 0 {
      Rotates(seen, lo, span, start, |r|);
    }
  }

  /** How many places `k` calls can name. */
  function Room(k: nat, limit: nat): nat {
    if k == 0 then 0 else Room(k - 1, limit) + limit
  }

  lemma {:induction false} RoomIs(k: nat, limit: nat)
    ensures Room(k, limit) == k * limit
  {
    if k > 0 {
      RoomIs(k - 1, limit);
    }
  }

  lemma {:induction false} RoomGrows(j: nat, k: nat, limit: nat)
    requires j <= k
    ensures Room(j, limit) <= Room(k, limit)
    decreases k
  {
    if j < k {
      RoomGrows(j, k - 1, limit);
    }
  }

  /** The call that finishes a turn over `m` members. */
  lemma {:induction false} FinalCall(k: nat, limit: nat, m: nat) returns (q: nat)
    requires 0 < m <= Room(k, limit)
    ensures q < k && Room(q, limit) < m <= Room(q, limit) + limit
  {
    if m > Room(k - 1, limit) {
      q := k - 1;
    } else {
      q := FinalCall(k - 1, limit, m);
    }
  }

  /** As long as a turn is not finished, the calls go through the circle in order. */
  lemma {:induction false} InOrder(seen: set<nat>, lo: nat, hi: nat, cursor: nat, limit: nat, k: nat)
    requires lo < hi && Room(k, limit) <= |Missing(seen, lo, hi, cursor)|
    ensures var all := Missing(seen, lo, hi, cursor);
            && Asked(seen, lo, hi, cursor, limit, k) == all[..Room(k, limit)]
            && Missing(seen, lo, hi, CursorAfter(seen, lo, hi, cursor, limit, k))
               == all[Room(k, limit)..] + all[..Room(k, limit)]
    decreases k
  {
    var all := Missing(seen, lo, hi, cursor);
    hide Missing, NextCursor, Request, Least;
    if k == 0 {
      assert all[0..] + all[..0] == all;
    } else {
      var a, c := Room(k - 1, limit), CursorAfter(seen, lo, hi, cursor, limit, k - 1);
      InOrder(seen, lo, hi, cursor, limit, k - 1);
      RequestTurns(seen, lo, hi, c, limit);
      TurnFurther(all, a, limit);
      assert Request(seen, lo, hi, c, limit) == (all[a..] + all[..a])[..limit]
             by { FullRequest(seen, lo, hi, c, limit); }
    }
  }

  lemma FullRequest(seen: set<nat>, lo: nat, hi: nat, cursor: nat, limit: nat)
    requires lo < hi && limit <= |Missing(seen, lo, hi, cursor)|
    ensures Request(seen, lo, hi, cursor, limit) == Missing(seen, lo, hi, cursor)[..limit]
  {
  }

  lemma TurnFurther(all: seq<nat>, a: nat, b: nat)
    requires a + b <= |all|
    ensures var turned := all[a..] + all[..a];
            && turned[..b] == all[a..a + b] && all[..a] + turned[..b] == all[..a + b]
            && turned[b..] + turned[..b] == all[a + b..] + all[..a + b]
  {
  }

  lemma {:induction false} AskedGrows(seen: set<nat>, lo: nat, hi: nat, cursor: nat, limit: nat, j: nat, k: nat)
    requires j <= k
    ensures Asked(seen, lo, hi, cursor, limit, j) <= Asked(seen, lo, hi, cursor, limit, k)
    decreases k
  {
    if j < k {
      AskedGrows(seen, lo, hi, cursor, limit, j, k - 1);
    }
  }

  lemma InTheRest(all: seq<nat>, a: nat, b: nat, n: nat)
    requires n in all && a <= |all| <= a + b
    ensures n in all[..a] + (all[a..] + all[..a])[..Least(b, |all|)]
  {
    var i :| 0 <= i < |all| && all[i] == n;
    var turned := all[a..] + all[..a];
    if i < a {
      assert (all[..a] + turned[..Least(b, |all|)])[i] == n;
    } else {
      assert (all[..a] + turned[..Least(b, |all|)])[i] == n;
    }
  }

  /** One call more finishes the turn. */
  lemma LastCall(seen: set<nat>, lo: nat, hi: nat, cursor: nat, limit: nat, q: nat, n: nat)
    requires lo < hi && n in Missing(seen, lo, hi, cursor)
    requires Room(q, limit) <= |Missing(seen, lo, hi, cursor)| <= Room(q, limit) + limit
    ensures n in Asked(seen, lo, hi, cursor, limit, q + 1)
  {
    hide Missing, Room, CursorAfter;
    InOrder(seen, lo, hi, cursor, limit, q);
    InTheRest(Missing(seen, lo, hi, cursor), Room(q, limit), limit, n);
  }

  /** Enough calls in a row ask for everything that is missing, wherever the cursor was. */
  lemma EveryoneGetsATurn(seen: set<nat>, lo: nat, hi: nat, cursor: nat, limit: nat, k: nat, n: nat)
    requires lo <= n < hi && n !in seen
    requires |Missing(seen, lo, hi, cursor)| <= k * limit
    ensures n in Asked(seen, lo, hi, cursor, limit, k)
  {
    hide Missing, Asked;
    MissingExactly(seen, lo, hi, cursor);
    RoomIs(k, limit);
    var q := FinalCall(k, limit, |Missing(seen, lo, hi, cursor)|);
    LastCall(seen, lo, hi, cursor, limit, q, n);
    AskedGrows(seen, lo, hi, cursor, limit, q + 1, k);
  }

  // ----- Completion -----

  predicate Complete(done: bool, seen: set<nat>, totalPackets: nat) {
    done && |seen| >= totalPackets
  }

  /** Once an honest sender's DONE is in, nothing is asked for exactly when all is there. */
  lemma NothingToAskWhenComplete(seen: set<nat>, totalPackets: nat, cursor: nat, limit: nat)
    requires limit > 0 && forall n :: n in seen ==> n < totalPackets
    ensures Request(seen, 0, totalPackets, cursor, limit) == [] <==> Complete(true, seen, totalPackets)
  {
    TooMany(seen, totalPackets);
    if |seen| == totalPackets {
      AllBelow(seen, totalPackets);
    }
    if totalPackets > 0 {
      var all := Missing(seen, 0, totalPackets, cursor);
      MissingExactly(seen, 0, totalPackets, cursor);
      hide Missing;
      if all == [] {
        assert forall x :: 0 <= x < totalPackets ==> x in seen;
        AllOf(seen, totalPackets);
      } else {
        assert all[0] in all;
      }
    }
  }
}

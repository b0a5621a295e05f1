/** Sets of numbers below a bound. */
module Sets {

  /** The numbers below `n`. */
  ghost function Below(n: nat): (s: set<nat>)
    ensures |s| == n && forall i: nat :: i in s <==> i < n
  {
    if n == 0 then {} else Below(n - 1) + {n - 1}
  }

  /** `n` members below `n` are all of them. */
  lemma {:induction false} AllBelow(s: set<nat>, n: nat)
    requires |s| == n && forall x :: x in s ==> x < n
    ensures forall x: nat :: x < n ==> x in s
  {
    if n > 0 {
      if n - 1 in s {
        AllBelow(s - {n - 1}, n - 1);
      } else {
        TooMany(s, n - 1);
      }
    }
  }

  lemma {:induction false} TooMany(s: set<nat>, n: nat)
    requires forall x :: x in s ==> x < n
    ensures |s| <= n
  {
    if n == 0 {
      assert s == {};
    } else {
      TooMany(s - {n - 1}, n - 1);
      assert |s| <= |s - {n - 1}| + 1;
    }
  }

  lemma {:induction false} AllOf(s: set<nat>, n: nat)
    requires forall x :: 0 <= x < n ==> x in s
    ensures |s| >= n
    decreases n
  {
    if n > 0 {
      AllOf(s - {n - 1}, n - 1);
      assert s == (s - {n - 1}) + {n - 1};
    }
  }
}

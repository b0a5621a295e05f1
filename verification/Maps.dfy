/** Finite maps from sequence numbers or offsets. */
module Maps {

  /** `m` without one of its keys. */
  function Without<T>(m: map<nat, T>, n: nat): (r: map<nat, T>)
    requires n in m
    ensures r.Keys == m.Keys - {n}
    ensures forall k :: k in r ==> r[k] == m[k]
    ensures |r| == |m| - 1
  {
    assert (m - {n}).Keys == m.Keys - {n};
    m - {n}
  }

  lemma Gains<T>(m: map<nat, T>, n: nat, value: T)
    requires n !in m
    ensures m[n := value].Keys == m.Keys + {n}
    ensures |m[n := value]| == |m| + 1
  {
    assert m[n := value].Keys == m.Keys + {n};
    assert |m[n := value]| == |m[n := value].Keys|;
  }

  lemma Loses<T>(m: map<nat, T>, gone: set<nat>)
    requires gone <= m.Keys
    ensures (m - gone).Keys == m.Keys - gone
    ensures |m - gone| == |m| - |gone|
  {
    assert (m - gone).Keys == m.Keys - gone;
    assert |m - gone| == |(m - gone).Keys|;
  }

  ghost function Pick(m: map<nat, nat>): (n: nat)
    requires m != map[]
    ensures n in m
  {
    var n :| n in m;
    n
  }

  /** The sum of all values. */
  ghost function Sum(m: map<nat, nat>): nat
    decreases |m|
  {
    if m == map[] then 0 else m[Pick(m)] + Sum(Without(m, Pick(m)))
  }

  lemma WithoutCommutes(m: map<nat, nat>, k: nat, n: nat)
    requires k in m && n in m && k != n
    ensures Without(Without(m, k), n) == Without(Without(m, n), k)
  {
  }

  /** Whichever key is taken out first, the sum is the same. */
  lemma {:induction false} SumLoses(m: map<nat, nat>, n: nat)
    requires n in m
    ensures Sum(m) == m[n] + Sum(Without(m, n))
    decreases |m|
  {
    hide Pick, Without;
    var k := Pick(m);
    if k != n {
      SumLoses(Without(m, k), n);
      SumLoses(Without(m, n), k);
      WithoutCommutes(m, k, n);
    }
  }

  lemma SumGains(m: map<nat, nat>, n: nat, value: nat)
    requires n !in m
    ensures Sum(m[n := value]) == Sum(m) + value
  {
    SumLoses(m[n := value], n);
    assert Without(m[n := value], n) == m;
  }
}

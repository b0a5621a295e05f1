/** The two-tier bitmap of received sequence numbers: a dense word array for the
    first `MaxDenseWords` words and a sparse map of words above it. */
module SeqSets {
  import opened Bits

  const MaxDenseWords: nat := 0x10_0000

  /** The lookup the bitmap performs for one bit of one word. */
  predicate StoredAt(dense: seq<bv64>, sparse: map<nat, bv64>, word: nat, bit: nat)
    requires bit < 64
  {
    if word < |dense| then Has64(dense[word], bit)
    else word in sparse && Has64(sparse[word], bit)
  }

  /** The lookup for sequence number `n`. */
  predicate Stored(dense: seq<bv64>, sparse: map<nat, bv64>, n: nat) {
    StoredAt(dense, sparse, n / 64, n % 64)
  }

  /** The bitmap stands for the mathematical set `members`. */
  ghost predicate Represents(dense: seq<bv64>, sparse: map<nat, bv64>, members: set<nat>) {
    && |dense| <= MaxDenseWords
    && (forall w :: w in sparse ==> MaxDenseWords <= w)
    && (forall n: nat :: n in members <==> Stored(dense, sparse, n))
  }

  /** `dense` grown with zero words so that `word` is an index of it. */
  function Grown(dense: seq<bv64>, word: nat): (r: seq<bv64>)
    ensures |r| == if word < |dense| then |dense| else word + 1
    ensures forall w :: 0 <= w < |r| ==> r[w] == if w < |dense| then dense[w] else 0
  {
    if word < |dense| then dense else dense + seq(word + 1 - |dense|, _ => 0)
  }

  lemma SameSeq(a: nat, b: nat)
    ensures a == b <==> a / 64 == b / 64 && a % 64 == b % 64
  {
  }

  /** Growing the dense tier changes no membership, because the sparse tier holds
      no word the dense tier can grow over. */
  lemma GrowingKeeps(dense: seq<bv64>, sparse: map<nat, bv64>, members: set<nat>, word: nat)
    requires Represents(dense, sparse, members)
    requires word < MaxDenseWords
    ensures Represents(Grown(dense, word), sparse, members)
  {
    hide Has64;
    forall n: nat
      ensures n in members <==> Stored(Grown(dense, word), sparse, n)
    {
      EmptyWord(n % 64);
    }
  }

  lemma DenseWordGains(dense: seq<bv64>, sparse: map<nat, bv64>, word: nat, bit: nat, word': nat, bit': nat)
    requires word < |dense| && bit < 64 && bit' < 64
    ensures StoredAt(dense[word := dense[word] | Bit64(bit)], sparse, word', bit')
            <==> (word' == word && bit' == bit) || StoredAt(dense, sparse, word', bit')
  {
    hide Has64, Bit64;
    SetBit64(dense[word], bit, bit');
  }

  lemma SparseWordGains(dense: seq<bv64>, sparse: map<nat, bv64>, word: nat, bit: nat, bits: bv64,
                        word': nat, bit': nat)
    requires |dense| <= word && bit < 64 && bit' < 64
    requires bits == if word in sparse then sparse[word] else 0
    ensures StoredAt(dense, sparse[word := bits | Bit64(bit)], word', bit')
            <==> (word' == word && bit' == bit) || StoredAt(dense, sparse, word', bit')
  {
    hide Has64, Bit64;
    EmptyWord(bit');
    SetBit64(bits, bit, bit');
  }

  lemma DenseInsert(dense: seq<bv64>, sparse: map<nat, bv64>, members: set<nat>, n: nat)
    requires Represents(dense, sparse, members)
    requires n / 64 < |dense|
    ensures Represents(dense[n / 64 := dense[n / 64] | Bit64(n % 64)], sparse, members + {n})
    ensures n in members <==> Has64(dense[n / 64], n % 64)
  {
    hide Has64, Bit64;
    assert n in members <==> Stored(dense, sparse, n);
    var dense' := dense[n / 64 := dense[n / 64] | Bit64(n % 64)];
    hide StoredAt;
    forall other: nat
      ensures other in members + {n} <==> Stored(dense', sparse, other)
    {
      SameSeq(n, other);
      DenseWordGains(dense, sparse, n / 64, n % 64, other / 64, other % 64);
    }
  }

  lemma SparseInsert(dense: seq<bv64>, sparse: map<nat, bv64>, members: set<nat>, n: nat, bits: bv64)
    requires Represents(dense, sparse, members)
    requires MaxDenseWords <= n / 64
    requires bits == if n / 64 in sparse then sparse[n / 64] else 0
    ensures Represents(dense, sparse[n / 64 := bits | Bit64(n % 64)], members + {n})
    ensures n in members <==> Has64(bits, n % 64)
  {
    hide Has64, Bit64;
    EmptyWord(n % 64);
    assert n in members <==> Stored(dense, sparse, n);
    var sparse' := sparse[n / 64 := bits | Bit64(n % 64)];
    hide StoredAt;
    forall other: nat
      ensures other in members + {n} <==> Stored(dense, sparse', other)
    {
      SameSeq(n, other);
      SparseWordGains(dense, sparse, n / 64, n % 64, bits, other / 64, other % 64);
    }
  }

  class SeqSet {
    var dense: seq<bv64>
    var sparse: map<nat, bv64>
    var count: nat
    /** The mathematical set the bitmap stands for. */
    ghost var members: set<nat>

    ghost predicate Valid()
      reads this
    {
      && count == |members|
      && Represents(dense, sparse, members)
    }

    constructor ()
      ensures Valid() && members == {}
    {
      dense, sparse, count, members := [], map[], 0, {};
    }

    /** Adds `n`; reports true exactly when it is a new member. */
    method Add(n: nat) returns (added: bool)
      requires Valid()
      modifies this
      ensures Valid()
      ensures members == old(members) + {n}
      ensures added <==> n !in old(members)
    {
      hide Has64, Bit64, Stored, StoredAt;
      var word := n / 64;
      if word < MaxDenseWords {
        GrowingKeeps(dense, sparse, members, word);
        dense := Grown(dense, word);
        DenseInsert(dense, sparse, members, n);
        if Has64(dense[word], n % 64) {
          return false;
        }
        dense := dense[word := dense[word] | Bit64(n % 64)];
      } else {
        var bits := if word in sparse then sparse[word] else 0;
        SparseInsert(dense, sparse, members, n, bits);
        if Has64(bits, n % 64) {
          return false;
        }
        sparse := sparse[word := bits | Bit64(n % 64)];
      }
      count := count + 1;
      members := members + {n};
      return true;
    }

    /** Membership test. */
    method Has(n: nat) returns (found: bool)
      requires Valid()
      ensures found <==> n in members
    {
      hide Has64;
      var word := n / 64;
      assert n in members <==> Stored(dense, sparse, n);
      if word < |dense| {
        return Has64(dense[word], n % 64);
      }
      return word in sparse && Has64(sparse[word], n % 64);
    }

    /** Number of members. */
    method Len() returns (size: nat)
      requires Valid()
      ensures size == |members|
    {
      size := count;
    }
  }
}

/** Single bits of the machine words that carry bitmaps: 64-bit words and bytes. */
module Bits {

  type Byte = bv8

  /** The natural number `i` as a shift amount for a 64-bit word. */
  function Index64(i: nat): (b: bv6)
    requires i < 64
  {
    if i == 0 then 0 else Index64(i - 1) + 1
  }

  function Shift64(i: bv6): bv64 {
    (1 as bv64) << i
  }

  predicate Test64(word: bv64, i: bv6) {
    word & Shift64(i) != 0
  }

  /** The word `uint64(1) << i`. */
  function Bit64(i: nat): bv64
    requires i < 64
  {
    Shift64(Index64(i))
  }

  /** The test `word & (uint64(1) << i) != 0`. */
  predicate Has64(word: bv64, i: nat)
    requires i < 64
  {
    Test64(word, Index64(i))
  }

  lemma {:induction false} IndexRoundTrip64(i: nat)
    requires i < 64
    ensures Index64(i) as nat == i
  {
    if i != 0 {
      IndexRoundTrip64(i - 1);
    }
  }

  lemma IndexInjective64(i: nat, j: nat)
    requires i < 64 && j < 64
    requires Index64(i) == Index64(j)
    ensures i == j
  {
    IndexRoundTrip64(i);
    IndexRoundTrip64(j);
  }

  lemma OrSetsBit64(word: bv64, i: bv6)
    ensures Test64(word | Shift64(i), i)
  {
  }

  lemma OrKeepsBit64(word: bv64, i: bv6, j: bv6)
    requires i != j
    ensures Test64(word | Shift64(i), j) <==> Test64(word, j)
  {
  }

  lemma OrShift64(word: bv64, i: bv6, j: bv6)
    ensures Test64(word | Shift64(i), j) <==> i == j || Test64(word, j)
  {
    if i == j {
      OrSetsBit64(word, i);
    } else {
      OrKeepsBit64(word, i, j);
    }
  }

  /** Or-ing one bit into a word adds exactly that bit. */
  lemma SetBit64(word: bv64, i: nat, j: nat)
    requires i < 64 && j < 64
    ensures Has64(word | Bit64(i), j) <==> i == j || Has64(word, j)
  {
    if Index64(i) == Index64(j) {
      IndexInjective64(i, j);
    }
    OrShift64(word, Index64(i), Index64(j));
  }

  lemma EmptyWord(i: nat)
    requires i < 64
    ensures !Has64(0, i)
  {
  }

  /** The natural number `i` as a shift amount for a byte. */
  function Index8(i: nat): (b: bv3)
    requires i < 8
  {
    if i == 0 then 0 else Index8(i - 1) + 1
  }

  /** The byte `1 << i`. */
  function Bit8(i: nat): bv8
    requires i < 8
  {
    (1 as bv8) << Index8(i)
  }

  predicate Has8(byte: bv8, i: nat)
    requires i < 8
  {
    byte & Bit8(i) != 0
  }

  lemma {:induction false} IndexRoundTrip8(i: nat)
    requires i < 8
    ensures Index8(i) as nat == i
  {
    if i != 0 {
      IndexRoundTrip8(i - 1);
    }
  }

  lemma IndexInjective8(i: nat, j: nat)
    requires i < 8 && j < 8
    requires Index8(i) == Index8(j)
    ensures i == j
  {
    IndexRoundTrip8(i);
    IndexRoundTrip8(j);
  }

  lemma OrShift8(byte: bv8, i: bv3, j: bv3)
    ensures (byte | ((1 as bv8) << i)) & ((1 as bv8) << j) != 0
            <==> i == j || byte & ((1 as bv8) << j) != 0
  {
  }

  /** Or-ing one bit into a byte adds exactly that bit. */
  lemma SetBit8(byte: bv8, i: nat, j: nat)
    requires i < 8 && j < 8
    ensures Has8(byte | Bit8(i), j) <==> i == j || Has8(byte, j)
  {
    if Index8(i) == Index8(j) {
      IndexInjective8(i, j);
    }
    OrShift8(byte, Index8(i), Index8(j));
  }

  lemma EmptyByte(i: nat)
    requires i < 8
    ensures !Has8(0, i)
  {
  }
}

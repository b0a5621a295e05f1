/** The base-41 text form of compact invites: two bytes make three characters, a last odd
    byte makes two. */
module InviteCodec {
  import opened Options
  import opened Arithmetic

  type Octet = x: int | 0 <= x < 256

  const Base: nat := 41
  const Alphabet: string := "0123456789ABCDEFGHIJKLMNOPQRSTUVWXYZ+-./:"

  // ----- Digits -----

  /** The position of a character in a stretch of the alphabet, from `i` on. */
  function ValueFrom(c: char, i: nat): Option<nat>
    requires i <= |Alphabet|
    decreases |Alphabet| - i
  {
    if i == |Alphabet| then None else if Alphabet[i] == c then Some(i) else ValueFrom(c, i + 1)
  }

  function Value(c: char): Option<nat> { ValueFrom(c, 0) }

  /** The alphabet in its three stretches. */
  function Digit(i: nat): char
    requires i < Base
  {
    if i < 10 then '0' + i as char
    else if i < 36 then 'A' + (i - 10) as char
    else if i == 36 then '+' else if i == 40 then ':' else '-' + (i - 37) as char
  }

  lemma DigitsApart(i: nat, j: nat)
    requires i < j < Base
    ensures Digit(i) != Digit(j)
  {
  }

  lemma AlphabetLow(i: nat)
    requires i < 21
    ensures |Alphabet| == Base && Alphabet[i] == Digit(i)
  {
    assert i == 0 || i == 1 || i == 2 || i == 3 || i == 4 || i == 5 || i == 6 || i == 7 || i == 8 || i == 9 || i == 10
        || i == 11 || i == 12 || i == 13 || i == 14 || i == 15 || i == 16 || i == 17 || i == 18 || i == 19 || i == 20;
  }

  lemma AlphabetHigh(i: nat)
    requires 21 <= i < Base
    ensures |Alphabet| == Base && Alphabet[i] == Digit(i)
  {
    assert i == 21 || i == 22 || i == 23 || i == 24 || i == 25 || i == 26 || i == 27 || i == 28 || i == 29 || i == 30
        || i == 31 || i == 32 || i == 33 || i == 34 || i == 35 || i == 36 || i == 37 || i == 38 || i == 39 || i == 40;
  }

  lemma AlphabetIs(i: nat)
    requires i < Base
    ensures |Alphabet| == Base && Alphabet[i] == Digit(i)
  {
    if i < 21 {
      AlphabetLow(i);
    } else {
      AlphabetHigh(i);
    }
  }

  /** Looking up a digit finds it. */
  lemma {:induction false} ValueOfDigit(k: nat, i: nat)
    requires i <= k < Base
    ensures |Alphabet| == Base && ValueFrom(Alphabet[k], i) == Some(k)
    decreases k - i
  {
    AlphabetIs(k);
    AlphabetIs(i);
    if i < k {
      DigitsApart(i, k);
      ValueOfDigit(k, i + 1);
    }
  }

  /** What is found is there. */
  lemma {:induction false} DigitOfValue(c: char, i: nat)
    requires i <= |Alphabet|
    ensures ValueFrom(c, i).Some? ==> i <= ValueFrom(c, i).value < |Alphabet| && Alphabet[ValueFrom(c, i).value] == c
    decreases |Alphabet| - i
  {
    if i < |Alphabet| && Alphabet[i] != c {
      DigitOfValue(c, i + 1);
    }
  }

  function Character(v: nat): char
    requires v < Base
  {
    assert |Alphabet| == Base;
    Alphabet[v]
  }

  lemma ThereAndBack(v: nat)
    requires v < Base
    ensures Value(Character(v)) == Some(v)
  {
    ValueOfDigit(v, 0);
  }

  lemma BackAndThere(c: char)
    requires Value(c).Some?
    ensures Value(c).value < Base && Character(Value(c).value) == c
  {
    assert |Alphabet| == Base;
    DigitOfValue(c, 0);
  }

  // ----- Groups -----

  function Three(v: nat): string
    requires v <= 0xffff
  {
    [Character(v % Base), Character(v / Base % Base), Character(v / Base / Base)]
  }

  function EncodePair(a: Octet, b: Octet): string {
    Three(a * 256 + b)
  }

  function EncodeLast(a: Octet): string {
    [Character(a % Base), Character(a / Base)]
  }

  function DecodeTriple(c0: char, c1: char, c2: char): Option<(Octet, Octet)> {
    var v0, v1, v2 := Value(c0), Value(c1), Value(c2);
    if v0.None? || v1.None? || v2.None? then None
    else
      var v := v0.value + v1.value * Base + v2.value * Base * Base;
      if v > 0xffff then None else Some((v / 256, v % 256))
  }

  function DecodeLast(c0: char, c1: char): Option<Octet> {
    var v0, v1 := Value(c0), Value(c1);
    if v0.None? || v1.None? then None
    else
      var v := v0.value + v1.value * Base;
      if v > 0xff then None else Some(v)
  }

  /** A number is its three digits. */
  lemma DigitsOf(v: nat)
    requires v <= 0xffff
    ensures v / Base / Base < Base && v % Base + (v / Base % Base) * Base + (v / Base / Base) * Base * Base == v
  {
    var w := v / Base;
    assert v == w * Base + v % Base && w == (w / Base) * Base + w % Base;
  }

  lemma NumberOf(v0: nat, v1: nat, v2: nat)
    requires v0 < Base && v1 < Base && v2 < Base
    ensures var v := v0 + v1 * Base + v2 * Base * Base;
            v % Base == v0 && v / Base == v1 + v2 * Base && v / Base % Base == v1 && v / Base / Base == v2
  {
    var w := v1 + v2 * Base;
    DivMod(v0 + v1 * Base + v2 * Base * Base, Base, w, v0);
    DivMod(w, Base, v2, v1);
  }

  lemma OctetsOf(a: Octet, b: Octet)
    ensures (a * 256 + b) / 256 == a && (a * 256 + b) % 256 == b
  {
    DivMod(a * 256 + b, 256, a, b);
  }

  lemma PairRoundTrip(a: Octet, b: Octet)
    ensures var t := EncodePair(a, b); |t| == 3 && DecodeTriple(t[0], t[1], t[2]) == Some((a, b))
  {
    hide Value, Character;
    var v: nat := a * 256 + b;
    DigitsOf(v);
    OctetsOf(a, b);
    var v0, v1, v2 := v % Base, v / Base % Base, v / Base / Base;
    ThereAndBack(v0);
    ThereAndBack(v1);
    ThereAndBack(v2);
  }

  lemma LastRoundTrip(a: Octet)
    ensures var t := EncodeLast(a); |t| == 2 && DecodeLast(t[0], t[1]) == Some(a)
  {
    ThereAndBack(a % Base);
    ThereAndBack(a / Base);
    hide Value, Character;
  }

  lemma ThreeOf(v0: nat, v1: nat, v2: nat)
    requires v0 < Base && v1 < Base && v2 < Base && v0 + v1 * Base + v2 * Base * Base <= 0xffff
    ensures Three(v0 + v1 * Base + v2 * Base * Base) == [Character(v0), Character(v1), Character(v2)]
  {
    hide Character;
    NumberOf(v0, v1, v2);
  }

  lemma Split(v: nat)
    ensures v / 256 * 256 + v % 256 == v
  {
  }

  lemma TripleIsCanonical(c0: char, c1: char, c2: char)
    requires DecodeTriple(c0, c1, c2).Some?
    ensures var p := DecodeTriple(c0, c1, c2).value; EncodePair(p.0, p.1) == [c0, c1, c2]
  {
    hide Value, Character, Three;
    BackAndThere(c0);
    BackAndThere(c1);
    BackAndThere(c2);
    var v0, v1, v2 := Value(c0).value, Value(c1).value, Value(c2).value;
    ThreeOf(v0, v1, v2);
    Split(v0 + v1 * Base + v2 * Base * Base);
  }

  lemma LastIsCanonical(c0: char, c1: char)
    requires DecodeLast(c0, c1).Some?
    ensures EncodeLast(DecodeLast(c0, c1).value) == [c0, c1]
  {
    BackAndThere(c0);
    BackAndThere(c1);
    hide Value, Character;
    var v0, v1 := Value(c0).value, Value(c1).value;
    DivMod(v0 + v1 * Base, Base, v1, v0);
  }

  // ----- Whole invites -----

  function Encode(raw: seq<Octet>): string {
    if |raw| == 0 then ""
    else if |raw| == 1 then EncodeLast(raw[0])
    else EncodePair(raw[0], raw[1]) + Encode(raw[2..])
  }

  function Decode(s: string): Option<seq<Octet>> {
    if |s| == 0 then Some([])
    else if |s| == 1 then None
    else if |s| == 2 then
      var last := DecodeLast(s[0], s[1]);
      if last.None? then None else Some([last.value])
    else
      var pair, rest := DecodeTriple(s[0], s[1], s[2]), Decode(s[3..]);
      if pair.None? || rest.None? then None else Some([pair.value.0, pair.value.1] + rest.value)
  }

  /** Decoding undoes encoding, for every byte string. */
  lemma {:induction false} RoundTrip(raw: seq<Octet>)
    ensures Decode(Encode(raw)) == Some(raw)
    decreases |raw|
  {
    hide DecodeTriple, DecodeLast, EncodePair, EncodeLast;
    if |raw| == 1 {
      LastRoundTrip(raw[0]);
      assert raw == [raw[0]];
    } else if |raw| > 1 {
      PairRoundTrip(raw[0], raw[1]);
      RoundTrip(raw[2..]);
      assert Encode(raw)[3..] == Encode(raw[2..]);
      assert raw == [raw[0], raw[1]] + raw[2..];
    }
  }

  /** A text is accepted only if it is the encoding of what it decodes to, so no two texts
      decode to the same bytes. */
  lemma {:induction false} Canonical(s: string)
    requires Decode(s).Some?
    ensures Encode(Decode(s).value) == s
    decreases |s|
  {
    hide DecodeTriple, DecodeLast, EncodePair, EncodeLast;
    if |s| == 2 {
      LastIsCanonical(s[0], s[1]);
    } else if |s| > 2 {
      TripleIsCanonical(s[0], s[1], s[2]);
      Canonical(s[3..]);
      assert Decode(s).value[2..] == Decode(s[3..]).value;
      assert s == [s[0], s[1], s[2]] + s[3..];
    }
  }

  lemma {:induction false} EncodedLength(raw: seq<Octet>)
    ensures |Encode(raw)| == 3 * (|raw| / 2) + 2 * (|raw| % 2)
    decreases |raw|
  {
    hide EncodePair, EncodeLast;
    if |raw| == 1 {
      LastRoundTrip(raw[0]);
    } else if |raw| > 1 {
      PairRoundTrip(raw[0], raw[1]);
      EncodedLength(raw[2..]);
    }
  }

  /** No text of such a length is an encoding. */
  lemma {:induction false} OneOverIsRejected(s: string)
    requires |s| % 3 == 1
    ensures Decode(s).None?
    decreases |s|
  {
    if |s| > 2 {
      OneOverIsRejected(s[3..]);
    }
  }

  // ----- The loops -----

  method CompactInviteValue(c: char) returns (value: nat, ok: bool)
    ensures ok == Value(c).Some? && (ok ==> value == Value(c).value)
  {
    for i := 0 to |Alphabet|
      invariant ValueFrom(c, i) == Value(c)
    {
      if c == Alphabet[i] {
        return i, true;
      }
    }
    return 0, false;
  }

  method WritePair(before: string, pair: nat) returns (out: string)
    requires pair <= 0xffff
    ensures out == before + Three(pair)
  {
    hide Character;
    var value := pair;
    out := before + [Character(value % Base)];
    value := value / Base;
    out := out + [Character(value % Base)];
    value := value / Base;
    out := out + [Character(value)];
  }

  method CompactInviteEncode(raw: seq<Octet>) returns (out: string)
    ensures out == Encode(raw)
  {
    hide Character, Three;
    out := "";
    var i := 0;
    while i < |raw|
      invariant i <= |raw| && out + Encode(raw[i..]) == Encode(raw)
    {
      ghost var before, rest := out, raw[i..];
      if i + 1 < |raw| {
        var high: nat, low: nat := raw[i], raw[i + 1];
        out := WritePair(out, high * 256 + low);
        i := i + 2;
        assert raw[i..] == rest[2..];
      } else {
        var value: nat := raw[i];
        out := out + [Character(value % Base)];
        out := out + [Character(value / Base)];
        assert out == before + EncodeLast(rest[0]);
        i := i + 1;
      }
    }
  }

  /** The bytes decoded so far in front of what the rest decodes to. */
  ghost function Prepend(out: seq<Octet>, rest: Option<seq<Octet>>): Option<seq<Octet>> {
    if rest.None? then None else Some(out + rest.value)
  }

  lemma PrependNothing(rest: Option<seq<Octet>>)
    ensures Prepend([], rest) == rest
  {
    if rest.Some? {
      assert [] + rest.value == rest.value;
    }
  }

  lemma PrependMore(out: seq<Octet>, more: seq<Octet>, rest: Option<seq<Octet>>)
    ensures Prepend(out, Prepend(more, rest)) == Prepend(out + more, rest)
  {
    if rest.Some? {
      assert out + (more + rest.value) == (out + more) + rest.value;
    }
  }

  lemma DecodeStep(s: string)
    requires |s| >= 2
    ensures |s| == 2 ==> Decode(s) == (var last := DecodeLast(s[0], s[1]);
                                       if last.None? then None else Prepend([last.value], Decode([])))
    ensures |s| > 2 ==> Decode(s) == (var pair := DecodeTriple(s[0], s[1], s[2]);
                                      if pair.None? then None
                                      else Prepend([pair.value.0, pair.value.1], Decode(s[3..])))
  {
    hide DecodeLast, DecodeTriple;
    if |s| == 2 && DecodeLast(s[0], s[1]).Some? {
      assert [DecodeLast(s[0], s[1]).value] + [] == [DecodeLast(s[0], s[1]).value];
    }
  }

  method CompactInviteDecode(encoded: string) returns (raw: Option<seq<Octet>>)
    ensures raw == Decode(encoded)
  {
    hide Value;
    if |encoded| % 3 == 1 {
      OneOverIsRejected(encoded);
      return None;
    }
    var out: seq<Octet> := [];
    var i := 0;
    PrependNothing(Decode(encoded));
    while i < |encoded|
      invariant i <= |encoded| && (i == |encoded| || i % 3 == 0)
      invariant Prepend(out, Decode(encoded[i..])) == Decode(encoded)
    {
      ghost var rest, before := encoded[i..], out;
      DecodeStep(rest);
      hide Decode;
      var remaining := |encoded| - i;
      var v0, ok0 := CompactInviteValue(encoded[i]);
      if !ok0 {
        return None;
      }
      var v1, ok1 := CompactInviteValue(encoded[i + 1]);
      if !ok1 {
        return None;
      }
      if remaining >= 3 {
        var v2, ok2 := CompactInviteValue(encoded[i + 2]);
        if !ok2 {
          return None;
        }
        var value := v0 + v1 * Base + v2 * Base * Base;
        if value > 0xffff {
          return None;
        }
        out := out + [value / 256, value % 256];
        i := i + 3;
        assert encoded[i..] == rest[3..];
        PrependMore(before, [value / 256, value % 256], Decode(rest[3..]));
      } else {
        var value := v0 + v1 * Base;
        if value > 0xff {
          return None;
        }
        out := out + [value];
        i := i + 2;
        PrependMore(before, [value], Decode([]));
      }
    }
    assert out + [] == out;
    return Some(out);
  }
}

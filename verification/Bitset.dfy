/** A set of small numbers as 64-bit words, as the linearizability checker keeps it:
    number p is bit p % 64 of word p / 64. */
module Bitset {

  type Word = bv64

  /** A six-digit binary number, as the machine's shift amount and as a number. */
  function FromDigits(e: bool, d: bool, c: bool, b: bool, a: bool, z: bool): bv6 {
    (if e then 32 else 0) | (if d then 16 else 0) | (if c then 8 else 0)
    | (if b then 4 else 0) | (if a then 2 else 0) | (if z then 1 else 0)
  }

  function Number(e: bool, d: bool, c: bool, b: bool, a: bool, z: bool): nat {
    (if e then 32 else 0) + (if d then 16 else 0) + (if c then 8 else 0)
    + (if b then 4 else 0) + (if a then 2 else 0) + (if z then 1 else 0)
  }

  predicate Odd(i: nat) { i % 2 == 1 }

  /** A bit position below 64 as a shift amount. */
  function Minor(i: nat): bv6
    requires i < 64
  {
    FromDigits(Odd(i / 2 / 2 / 2 / 2 / 2), Odd(i / 2 / 2 / 2 / 2), Odd(i / 2 / 2 / 2), Odd(i / 2 / 2), Odd(i / 2), Odd(i))
  }

  lemma DigitsDiffer(e: bool, d: bool, c: bool, b: bool, a: bool, z: bool, e': bool, d': bool, c': bool, b': bool, a': bool, z': bool)
    requires FromDigits(e, d, c, b, a, z) == FromDigits(e', d', c', b', a', z')
    ensures e == e' && d == d' && c == c' && b == b' && a == a' && z == z'
  {
  }

  lemma NumberOfDigits(i: nat)
    requires i < 64
    ensures i == Number(Odd(i / 2 / 2 / 2 / 2 / 2), Odd(i / 2 / 2 / 2 / 2), Odd(i / 2 / 2 / 2), Odd(i / 2 / 2), Odd(i / 2), Odd(i))
  {
  }

  lemma MinorInjective(i: nat, j: nat)
    requires i < 64 && j < 64 && Minor(i) == Minor(j)
    ensures i == j
  {
    hide FromDigits, Number, Odd;
    DigitsDiffer(Odd(i / 2 / 2 / 2 / 2 / 2), Odd(i / 2 / 2 / 2 / 2), Odd(i / 2 / 2 / 2), Odd(i / 2 / 2), Odd(i / 2), Odd(i),
                 Odd(j / 2 / 2 / 2 / 2 / 2), Odd(j / 2 / 2 / 2 / 2), Odd(j / 2 / 2 / 2), Odd(j / 2 / 2), Odd(j / 2), Odd(j));
    NumberOfDigits(i);
    NumberOfDigits(j);
  }

  lemma Half(e: bool, d: bool, c: bool, b: bool, a: bool, z: bool)
    ensures var i := Number(e, d, c, b, a, z);
      i < 64 && i / 2 == Number(false, e, d, c, b, a) && Odd(i) == z
  {
  }

  lemma MinorOfNumber(e: bool, d: bool, c: bool, b: bool, a: bool, z: bool)
    ensures var i := Number(e, d, c, b, a, z); i < 64 && Minor(i) == FromDigits(e, d, c, b, a, z)
  {
    hide FromDigits, Number, Odd;
    Half(e, d, c, b, a, z);
    Half(false, e, d, c, b, a);
    Half(false, false, e, d, c, b);
    Half(false, false, false, e, d, c);
    Half(false, false, false, false, e, d);
    Half(false, false, false, false, false, e);
  }

  lemma DigitsOf(x: bv6)
    ensures x == FromDigits(x & 32 != 0, x & 16 != 0, x & 8 != 0, x & 4 != 0, x & 2 != 0, x & 1 != 0)
  {
  }

  lemma MinorOnto(x: bv6) returns (i: nat)
    ensures i < 64 && Minor(i) == x
  {
    hide Minor, Number, FromDigits;
    i := Number(x & 32 != 0, x & 16 != 0, x & 8 != 0, x & 4 != 0, x & 2 != 0, x & 1 != 0);
    MinorOfNumber(x & 32 != 0, x & 16 != 0, x & 8 != 0, x & 4 != 0, x & 2 != 0, x & 1 != 0);
    DigitsOf(x);
  }

  // ----- words

  function Bit(b: bv6): Word { (1 as bv64) << b }

  function With(w: Word, m: Word): Word { w | m }

  function Without(w: Word, m: Word): Word { w & !m }

  predicate Test(w: Word, m: Word) { w & m != 0 }

  predicate BitOf(w: Word, i: nat)
    requires i < 64
  {
    Test(w, Bit(Minor(i)))
  }

  /** Two masks that are equal or share no bit. */
  predicate Separate(m: Word, k: Word) { m == k || m & k == 0 }

  predicate Zero(m: Word) { m == 0 }

  lemma BitsSeparate(a: bv6, b: bv6)
    ensures !Zero(Bit(a)) && Separate(Bit(a), Bit(b)) && (Bit(a) == Bit(b) ==> a == b)
  {
  }

  lemma WithSame(w: Word, m: Word)
    ensures (w | m) & m == m && (w & !m) & m == 0
  {
  }

  lemma OrApart(w: Word, m: Word, k: Word)
    requires m & k == 0
    ensures (w | m) & k == w & k
  {
    assert (w | m) & k == (w & k) | (m & k);
  }

  lemma AndNotApart(w: Word, m: Word, k: Word)
    requires m & k == 0
    ensures (w & !m) & k == w & k
  {
    assert k & !m == k;
    assert (w & !m) & k == w & (k & !m);
  }

  lemma WithMask(w: Word, m: Word, k: Word)
    requires Separate(m, k) && !Zero(m) && !Zero(k)
    ensures Test(With(w, m), k) <==> m == k || Test(w, k)
  {
    if m == k { WithSame(w, m); } else { OrApart(w, m, k); }
  }

  lemma WithoutMask(w: Word, m: Word, k: Word)
    requires Separate(m, k) && !Zero(m) && !Zero(k)
    ensures Test(Without(w, m), k) <==> m != k && Test(w, k)
  {
    if m == k { WithSame(w, m); } else { AndNotApart(w, m, k); }
  }

  lemma SetBit(w: Word, i: nat, j: nat)
    requires i < 64 && j < 64
    ensures BitOf(With(w, Bit(Minor(i))), j) <==> i == j || BitOf(w, j)
  {
    hide Minor, Bit, Test, With, Separate, Zero;
    BitsSeparate(Minor(i), Minor(j));
    BitsSeparate(Minor(j), Minor(i));
    WithMask(w, Bit(Minor(i)), Bit(Minor(j)));
    if i != j && Minor(i) == Minor(j) { MinorInjective(i, j); }
  }

  lemma ClearBit(w: Word, i: nat, j: nat)
    requires i < 64 && j < 64
    ensures BitOf(Without(w, Bit(Minor(i))), j) <==> i != j && BitOf(w, j)
  {
    hide Minor, Bit, Test, Without, Separate, Zero;
    BitsSeparate(Minor(i), Minor(j));
    BitsSeparate(Minor(j), Minor(i));
    WithoutMask(w, Bit(Minor(i)), Bit(Minor(j)));
    if i != j && Minor(i) == Minor(j) { MinorInjective(i, j); }
  }

  /** Some bit of a nonzero word is set: halve the word until it is found. */
  lemma SomeBit(z: Word) returns (b: bv6)
    requires z != 0
    ensures Test(z, Bit(b))
  {
    b := 0;
    var y := z;
    if y & 0xFFFF_FFFF == 0 { y, b := y >> 32, b | 32; }
    if y & 0xFFFF == 0 { y, b := y >> 16, b | 16; }
    if y & 0xFF == 0 { y, b := y >> 8, b | 8; }
    if y & 0xF == 0 { y, b := y >> 4, b | 4; }
    if y & 0x3 == 0 { y, b := y >> 2, b | 2; }
    if y & 0x1 == 0 { y, b := y >> 1, b | 1; }
  }

  function Differ(x: Word, y: Word): Word { x ^ y }

  lemma DifferZero(x: Word, y: Word)
    ensures Differ(x, y) == 0 <==> x == y
  {
  }

  lemma DifferBit(x: Word, y: Word, b: bv6)
    requires Test(Differ(x, y), Bit(b))
    ensures Test(x, Bit(b)) != Test(y, Bit(b))
  {
  }

  lemma SameBit(x: Word, y: Word, i: nat)
    requires i < 64 && BitOf(x, i) == BitOf(y, i)
    ensures Test(x, Bit(Minor(i))) == Test(y, Bit(Minor(i)))
  {
    hide Minor, Bit, Test;
  }

  lemma WordByBits(x: Word, y: Word)
    requires forall i :: 0 <= i < 64 ==> BitOf(x, i) == BitOf(y, i)
    ensures x == y
  {
    hide Minor, Bit, Test, Differ;
    DifferZero(x, y);
    if x != y {
      var b := SomeBit(Differ(x, y));
      var i := MinorOnto(b);
      SameBit(x, y, i);
      DifferBit(x, y, b);
    }
  }

  predicate Has(words: seq<Word>, p: nat) {
    p / 64 < |words| && BitOf(words[p / 64], p % 64)
  }

  /** The set the words stand for. */
  ghost function Members(words: seq<Word>): set<nat> {
    set p: nat | 0 <= p < 64 * |words| && Has(words, p)
  }

  /** Words of one length are the same exactly when they stand for the same set. */
  lemma SameMembers(a: seq<Word>, b: seq<Word>)
    requires |a| == |b| && Members(a) == Members(b)
    ensures a == b
  {
    forall k | 0 <= k < |a| ensures a[k] == b[k] {
      forall i | 0 <= i < 64 ensures BitOf(a[k], i) == BitOf(b[k], i) {
        var p := 64 * k + i;
        assert p / 64 == k && p % 64 == i;
        assert Has(a, p) == (p in Members(a)) && Has(b, p) == (p in Members(b));
      }
      WordByBits(a[k], b[k]);
    }
  }

  function BitCount(w: Word, upTo: nat): nat
    requires upTo <= 64
  {
    if upTo == 0 then 0 else BitCount(w, upTo - 1) + if BitOf(w, upTo - 1) then 1 else 0
  }

  function PopCount(words: seq<Word>): nat {
    if words == [] then 0 else PopCount(words[..|words| - 1]) + BitCount(words[|words| - 1], 64)
  }

  ghost function Under(words: seq<Word>, m: nat): set<nat> {
    set p: nat | 0 <= p < m && Has(words, p)
  }

  lemma UnderNext(words: seq<Word>, m: nat)
    ensures Under(words, m + 1) == Under(words, m) + if Has(words, m) then {m} else {}
    ensures m !in Under(words, m) && Under(words, 0) == {}
  {
    hide Has;
  }

  lemma {:induction false} CountUnder(words: seq<Word>, k: nat, j: nat)
    requires k < |words| && j <= 64
    ensures PopCount(words[..k]) + BitCount(words[k], j) == |Under(words, 64 * k + j)|
    decreases k, j
  {
    hide BitOf, Under;
    UnderNext(words, 64 * k + j);
    if j > 0 {
      CountUnder(words, k, j - 1);
      UnderNext(words, 64 * k + j - 1);
      assert (64 * k + j - 1) / 64 == k && (64 * k + j - 1) % 64 == j - 1;
    } else if k > 0 {
      CountUnder(words, k - 1, 64);
      assert words[..k][..k - 1] == words[..k - 1];
    }
  }

  /** The population count is the size of the set. */
  lemma PopulationCount(words: seq<Word>)
    ensures PopCount(words) == |Members(words)|
  {
    hide BitCount, Has;
    assert Members(words) == Under(words, 64 * |words|);
    if words == [] {
      assert Members(words) == {};
    } else {
      CountUnder(words, |words| - 1, 64);
    }
  }

  function Fold(hash: Word, words: seq<Word>): Word {
    if words == [] then hash else Fold(hash, words[..|words| - 1]) ^ words[|words| - 1]
  }

  /** The bucket key: the population count mixed with every word. */
  function HashOf(words: seq<Word>): Word {
    Fold((PopCount(words) % 0x1_0000_0000_0000_0000) as bv64, words)
  }

  method NewBitset(bits: nat) returns (b: array<Word>)
    ensures fresh(b) && Members(b[..]) == {}
    ensures b.Length == (bits + 63) / 64 && bits <= 64 * b.Length
  {
    var extra := if bits % 64 != 0 then 1 else 0;
    b := new Word[bits / 64 + extra](_ => 0);
    assert forall k :: 0 <= k < b.Length ==> b[k] == 0;
    forall p: nat | p < 64 * b.Length ensures !Has(b[..], p) {
      ZeroBit(p % 64);
    }
  }

  lemma ZeroBit(i: nat)
    requires i < 64
    ensures !BitOf(0, i)
  {
  }

  method Clone(b: array<Word>) returns (c: array<Word>)
    ensures fresh(c) && c[..] == b[..]
  {
    c := new Word[b.Length](i requires 0 <= i < b.Length reads b => b[i]);
  }

  method Set(b: array<Word>, pos: nat)
    requires pos < 64 * b.Length
    modifies b
    ensures Members(b[..]) == Members(old(b[..])) + {pos}
  {
    hide Minor, Bit, Test, With, Without;
    var major, minor := pos / 64, pos % 64;
    b[major] := With(b[major], Bit(Minor(minor)));
    forall p: nat | p < 64 * b.Length ensures Has(b[..], p) <==> p == pos || Has(old(b[..]), p) {
      SetBit(old(b[major]), minor, p % 64);
    }
  }

  method Clear(b: array<Word>, pos: nat)
    requires pos < 64 * b.Length
    modifies b
    ensures Members(b[..]) == Members(old(b[..])) - {pos}
  {
    hide Minor, Bit, Test, With, Without;
    var major, minor := pos / 64, pos % 64;
    b[major] := Without(b[major], Bit(Minor(minor)));
    forall p: nat | p < 64 * b.Length ensures Has(b[..], p) <==> p != pos && Has(old(b[..]), p) {
      ClearBit(old(b[major]), minor, p % 64);
    }
  }

  method Get(b: array<Word>, pos: nat) returns (r: bool)
    requires pos < 64 * b.Length
    ensures r <==> pos in Members(b[..])
  {
    hide Minor, Bit, Test, With, Without;
    var major, minor := pos / 64, pos % 64;
    r := Test(b[major], Bit(Minor(minor)));
  }

  method Hash(b: array<Word>) returns (h: Word)
    ensures h == HashOf(b[..])
  {
    hide BitCount;
    var total := 0;
    for i := 0 to b.Length
      invariant total == PopCount(b[..i])
    {
      assert b[..i + 1][..i] == b[..i];
      total := total + BitCount(b[i], 64);
    }
    assert b[..b.Length] == b[..];
    h := (total % 0x1_0000_0000_0000_0000) as bv64;
    ghost var seed := h;
    for i := 0 to b.Length
      invariant h == Fold(seed, b[..i])
    {
      assert b[..i + 1][..i] == b[..i];
      h := h ^ b[i];
    }
  }

  method Equals(b: array<Word>, words: seq<Word>) returns (same: bool)
    ensures same <==> b[..] == words
    ensures b.Length == |words| ==> (same <==> Members(b[..]) == Members(words))
  {
    if b.Length != |words| { return false; }
    for i := 0 to b.Length
      invariant b[..i] == words[..i]
    {
      if b[i] != words[i] {
        if Members(b[..]) == Members(words) { SameMembers(b[..], words); }
        return false;
      }
    }
    assert b[..b.Length] == b[..] && words[..b.Length] == words;
    same := true;
  }
}

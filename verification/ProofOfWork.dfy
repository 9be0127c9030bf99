/** Proof of work: the compact target, the word-wise comparison, the nonce search, and the hexadecimal
    form of hashes. Byte strings are 256-bit numbers, least significant byte first. */
module ProofOfWork {
  import opened Sha256Standard
  import Sha256

  function Power(n: nat): (p: nat)
    ensures p > 0
  {
    if n == 0 then 1 else 256 * Power(n - 1)
  }

  /** The number a byte string stands for. */
  function Value(b: seq<Byte>): nat {
    if b == [] then 0 else b[0] + 256 * Value(b[1..])
  }

  lemma {:induction false} ValueBound(b: seq<Byte>)
    ensures Value(b) < Power(|b|)
  {
    if b != [] { ValueBound(b[1..]); }
  }

  lemma {:induction false} ValueSplit(a: seq<Byte>, b: seq<Byte>)
    ensures Value(a + b) == Value(a) + Power(|a|) * Value(b)
  {
    if a == [] {
      assert a + b == b;
    } else {
      ValueSplit(a[1..], b);
      assert (a + b)[1..] == a[1..] + b;
      Scale(Power(|a| - 1), Value(b));
    }
  }

  lemma Scale(p: nat, v: nat)
    ensures 256 * (p * v) == (256 * p) * v
  {
  }

  lemma {:induction false} ZerosWorthNothing(n: nat)
    ensures Value(Zeros(n)) == 0
  {
    if n > 0 {
      ZerosWorthNothing(n - 1);
      assert Zeros(n)[1..] == Zeros(n - 1);
    }
  }

  // ----- the target

  /** The number a compact target stands for: the mantissa times 256 to the exponent less 3, without
      what falls below 1; nothing for an exponent over 32. */
  function Expanded(bits: seq<Byte>): int
    requires |bits| == 4
  {
    var mantissa, e := Value(bits[..3]), bits[3];
    if e > 32 then 0 else if e >= 3 then mantissa * Power(e - 3) else mantissa / Power(3 - e)
  }

  /** The target's 32 bytes; of a small exponent's mantissa only the upper bytes lie in it. */
  function Target(bits: seq<Byte>): (b: seq<Byte>)
    requires |bits| == 4 && bits[3] <= 32
    ensures |b| == 32
  {
    var e := bits[3];
    (if e >= 3 then Zeros(e - 3) + bits[..3] else bits[3 - e..3]) + Zeros(32 - e)
  }

  lemma TargetValue(bits: seq<Byte>)
    requires |bits| == 4 && bits[3] <= 32
    ensures Value(Target(bits)) == Expanded(bits)
  {
    hide Power, Value;
    var e, mantissa := bits[3], bits[..3];
    ZerosWorthNothing(32 - e);
    if e >= 3 {
      assert Target(bits) == Zeros(e - 3) + (mantissa + Zeros(32 - e));
      ValueSplit(Zeros(e - 3), mantissa + Zeros(32 - e));
      ValueSplit(mantissa, Zeros(32 - e));
      ZerosWorthNothing(e - 3);
      Commute(Power(e - 3), Value(mantissa));
    } else {
      var low, high := bits[..3 - e], bits[3 - e..3];
      ValueSplit(high, Zeros(32 - e));
      ValueSplit(low, high);
      assert mantissa == low + high;
      ValueBound(low);
      Quotient(Value(low), Power(3 - e), Value(high));
    }
  }

  lemma Quotient(r: nat, p: nat, q: nat)
    requires r < p
    ensures (r + p * q) / p == q
  {
    var x := (r + p * q) / p;
    assert r + p * q == p * x + (r + p * q) % p;
    if x > q { Grows(p, q + 1, x); } else if x < q { Grows(p, x + 1, q); }
  }

  lemma Grows(p: nat, a: nat, b: nat)
    requires a <= b
    ensures p * a <= p * b
  {
  }

  /** Expands a compact target, its four bytes as they lie in memory: three of mantissa, then the
      exponent. The target lies in memory from `at` on; an exponent below 3 makes the program write in
      front of it. */
  method SetTarget(memory: array<Byte>, at: nat, bits: seq<Byte>)
    requires |bits| == 4 && at + 32 <= memory.Length && at + bits[3] >= 3
    modifies memory
    ensures Value(memory[at..at + 32]) == Expanded(bits)
    ensures bits[3] <= 32 ==> memory[at + bits[3] - 3..at + bits[3]] == bits[..3]
    ensures forall q :: 0 <= q < memory.Length && !(at <= q < at + 32) && (bits[3] <= 32 ==> q < at + bits[3] - 3 || at <= q) ==>
      memory[q] == old(memory[q])
  {
    hide Value, Power, Expanded, Target, Zeros;
    for k := 0 to 32
      invariant forall q :: 0 <= q < memory.Length ==> memory[q] == if at <= q < at + k then 0 else old(memory[q])
    {
      memory[at + k] := 0;
    }
    var e: int := bits[3];
    if e > 0x20 {
      NoTarget(bits, memory[at..at + 32]);
      return;
    }
    var ptr := at + e;
    for i := 1 to 4
      invariant forall q :: 0 <= q < memory.Length ==> (memory[q] ==
        if ptr - i < q < ptr then bits[3 - (ptr - q)] else if at <= q < at + 32 then 0 else old(memory[q]))
    {
      memory[ptr - i] := bits[3 - i];
    }
    TargetBytes(bits, memory[at..at + 32]);
    TargetValue(bits);
  }

  lemma NoTarget(bits: seq<Byte>, b: seq<Byte>)
    requires |bits| == 4 && bits[3] > 32 && |b| == 32 && forall k :: 0 <= k < 32 ==> b[k] == 0
    ensures Value(b) == Expanded(bits)
  {
    hide Value, Power;
    assert b == Zeros(32);
    ZerosWorthNothing(32);
  }

  lemma TargetBytes(bits: seq<Byte>, b: seq<Byte>)
    requires |bits| == 4 && bits[3] <= 32 && |b| == 32
    requires forall k :: 0 <= k < 32 ==> b[k] == if k < bits[3] <= k + 3 then bits[k + 3 - bits[3]] else 0
    ensures b == Target(bits)
  {
  }

  lemma Commute(a: nat, b: nat)
    ensures a * b == b * a
  {
  }

  // ----- the comparison

  /** The 32-bit words of a byte string in memory. */
  function WordAt(x: seq<Byte>, k: nat): nat
    requires 4 * k + 4 <= |x|
  {
    Value(x[4 * k..4 * k + 4])
  }

  lemma HigherWins(low: nat, low': nat, p: nat, high: nat, high': nat)
    requires low < p && low' < p && high < high'
    ensures low + p * high < low' + p * high'
  {
    assert p * high + p <= p * high' by { assert p * (high + 1) <= p * high'; }
  }

  /** The words from k on decide, once those above it are equal. */
  lemma WordDecides(x: seq<Byte>, y: seq<Byte>, k: nat)
    requires |x| == |y| && 4 * k + 4 <= |x| && x[4 * k + 4..] == y[4 * k + 4..] && WordAt(x, k) < WordAt(y, k)
    ensures Value(x) < Value(y)
  {
    var n, rest := 4 * k, x[4 * k + 4..];
    Pieces(x, k);
    Pieces(y, k);
    ValueBound(x[..n]);
    ValueBound(y[..n]);
    ValueBound(x[n..n + 4]);
    HigherWins(Value(x[..n]), Value(y[..n]), Power(n), Value(x[n..]), Value(y[n..]));
  }

  lemma Pieces(x: seq<Byte>, k: nat)
    requires 4 * k + 4 <= |x|
    ensures Value(x) == Value(x[..4 * k]) + Power(4 * k) * Value(x[4 * k..])
    ensures Value(x[4 * k..]) == WordAt(x, k) + Power(4) * Value(x[4 * k + 4..])
  {
    ValueSplit(x[..4 * k], x[4 * k..]);
    assert x == x[..4 * k] + x[4 * k..];
    ValueSplit(x[4 * k..4 * k + 4], x[4 * k + 4..]);
    assert x[4 * k..] == x[4 * k..4 * k + 4] + x[4 * k + 4..];
  }

  lemma {:induction false} SameWord(x: seq<Byte>, y: seq<Byte>)
    requires |x| == |y| && Value(x) == Value(y)
    ensures x == y
  {
    if x != [] {
      assert Value(x) % 256 == x[0] && Value(y) % 256 == y[0];
      SameWord(x[1..], y[1..]);
      assert x == [x[0]] + x[1..] && y == [y[0]] + y[1..];
    }
  }

  /** The sign of the comparison of the two 256-bit numbers. */
  method Hex256Cmp(x: seq<Byte>, y: seq<Byte>) returns (r: int)
    requires |x| == |y| == 32
    ensures r == if Value(x) < Value(y) then -1 else if Value(x) > Value(y) then 1 else 0
  {
    var len := 8;
    while len > 0
      invariant 0 <= len <= 8 && x[4 * len..] == y[4 * len..]
    {
      len := len - 1;
      if WordAt(x, len) < WordAt(y, len) {
        WordDecides(x, y, len);
        return -1;
      } else if WordAt(x, len) > WordAt(y, len) {
        WordDecides(y, x, len);
        return 1;
      }
      SameWord(x[4 * len..4 * len + 4], y[4 * len..4 * len + 4]);
      assert x[4 * len..] == x[4 * len..4 * len + 4] + x[4 * len + 4..];
      assert y[4 * len..] == y[4 * len..4 * len + 4] + y[4 * len + 4..];
    }
    assert x == y;
    r := 0;
  }

  // ----- the nonce search

  type Uint32 = x: int | 0 <= x < 0x1_0000_0000

  /** A word in memory, least significant byte first. */
  function InMemory(w: Uint32): (b: seq<Byte>)
    ensures |b| == 4
  {
    [w % 256, w / 256 % 256, w / 65536 % 256, w / 16777216]
  }

  type Hash = b: seq<Byte> | |b| == 32 witness seq(32, _ => 0)

  datatype Header = Header(version: Uint32, hashPrevBlock: Hash, hashMerkleRoot: Hash, time: Uint32, bits: Uint32, nonce: Uint32)

  function HeaderBytes(h: Header): seq<Byte> {
    InMemory(h.version) + h.hashPrevBlock + h.hashMerkleRoot + InMemory(h.time) + InMemory(h.bits) + InMemory(h.nonce)
  }

  /** A word in memory is its value, least significant byte first. */
  lemma MemoryValue(w: Uint32)
    ensures Value(InMemory(w)) == w
  {
    hide Value, InMemory;
    var b := InMemory(w);
    MemoryOf(w);
    ThreeBytes(b[0], b[1], b[2]);
    ValueSplit(b[..3], b[3..]);
    assert b == b[..3] + b[3..] && b[..3] == [b[0], b[1], b[2]] && b[3..] == [b[3]];
    OneByte(b[3]);
  }

  lemma OneByte(x: Byte)
    ensures Value([x]) == x && Power(3) == 0x100_0000
  {
    assert [x][1..] == [];
  }

  /** Where each part of the 80 header bytes lies. */
  lemma HeaderLayout(h: Header)
    ensures var b := HeaderBytes(h);
      && |b| == 80
      && Value(b[0..4]) == h.version && b[4..36] == h.hashPrevBlock && b[36..68] == h.hashMerkleRoot
      && Value(b[68..72]) == h.time && Value(b[72..76]) == h.bits && Value(b[76..80]) == h.nonce
  {
    hide Value, InMemory;
    MemoryValue(h.version);
    MemoryValue(h.time);
    MemoryValue(h.bits);
    MemoryValue(h.nonce);
    HeaderSlices(h);
  }

  lemma HeaderSlices(h: Header)
    ensures var b := HeaderBytes(h);
      && |b| == 80
      && b[0..4] == InMemory(h.version) && b[4..36] == h.hashPrevBlock && b[36..68] == h.hashMerkleRoot
      && b[68..72] == InMemory(h.time) && b[72..76] == InMemory(h.bits) && b[76..80] == InMemory(h.nonce)
  {
    hide InMemory;
  }

  /** The hash a block has with a given nonce. */
  function HashWith(h: Header, nonce: Uint32): (d: seq<Byte>)
    ensures |d| == 32
  {
    Sha256Standard.Sha256(Sha256Standard.Sha256(HeaderBytes(h.(nonce := nonce))))
  }

  /** The nonce after k steps, as 32-bit arithmetic has it. */
  function NonceAt(start: Uint32, step: int, k: nat): Uint32 { (start + k * step) % 0x1_0000_0000 }

  /** The number hashes must stay below. */
  function TargetOf(bits: Uint32): int { Expanded(InMemory(bits)) }

  class Block {
    var version: Uint32
    var hashPrevBlock: Hash
    var hashMerkleRoot: Hash
    var time: Uint32
    var bits: Uint32
    var nonce: Uint32
    var hash: Hash

    ghost function View(): Header
      reads this
    {
      Header(version, hashPrevBlock, hashMerkleRoot, time, bits, nonce)
    }

    constructor BlockInit(version: Uint32, hashPrevBlock: Hash, hashMerkleRoot: Hash, time: Uint32, bits: Uint32, nonce: Uint32)
      ensures View() == Header(version, hashPrevBlock, hashMerkleRoot, time, bits, nonce)
    {
      this.version, this.hashPrevBlock, this.hashMerkleRoot := version, hashPrevBlock, hashMerkleRoot;
      this.time, this.bits, this.nonce, hash := time, bits, nonce, Zeros(32);
    }

    method SetHash()
      modifies this`hash
      ensures hash == HashWith(View(), nonce)
    {
      hide Sha256Standard.Sha256;
      hash := Sha256.Sha256Hash(
        InMemory(version) + hashPrevBlock + hashMerkleRoot + InMemory(time) + InMemory(bits) + InMemory(nonce));
    }

    /** Tries nonces one step apart until the hash is below the target, or gives up after `attempts`
        further ones because another block has arrived. */
    method Search(step: int, attempts: nat) returns (success: bool, tries: nat)
      modifies this`nonce, this`hash
      ensures tries <= attempts && nonce == NonceAt(old(nonce), step, tries) && hash == HashWith(old(View()), nonce)
      ensures success <==> Value(hash) < TargetOf(bits)
      ensures forall k: nat :: k < tries ==> Value(HashWith(old(View()), NonceAt(old(nonce), step, k))) >= TargetOf(bits)
      ensures !success ==> tries == attempts
    {
      hide HashWith, Value, Power;
      ghost var start, header := nonce, View();
      var memory := new Byte[35](_ => 0);
      SetTarget(memory, 3, InMemory(bits));
      var target := memory[3..35];
      SetHash();
      tries := 0;
      var order := Hex256Cmp(hash, target);
      while order >= 0
        invariant tries <= attempts && nonce == NonceAt(start, step, tries)
        invariant View() == header.(nonce := nonce) && hash == HashWith(header, nonce)
        invariant (order >= 0) == (Value(hash) >= TargetOf(bits)) && Value(target) == TargetOf(bits)
        invariant forall k: nat :: k < tries ==> Value(HashWith(header, NonceAt(start, step, k))) >= TargetOf(bits)
        decreases attempts - tries
      {
        if tries == attempts { return false, tries; }
        NextNonce(start, step, tries);
        nonce := (nonce + step) % 0x1_0000_0000;
        SetHash();
        SameHash(View(), header, nonce);
        tries := tries + 1;
        order := Hex256Cmp(hash, target);
      }
      success := true;
    }
  }

  lemma NextNonce(start: Uint32, step: int, k: nat)
    ensures (NonceAt(start, step, k) + step) % 0x1_0000_0000 == NonceAt(start, step, k + 1)
  {
    var m, s := 0x1_0000_0000, start + k * step;
    assert start + (k + 1) * step == s + step;
    assert (s % m + step) % m == (s + step) % m by { assert s == m * (s / m) + s % m; AddMultiple(s % m + step, s / m); }
  }

  lemma AddMultiple(x: int, q: int)
    ensures (x + 0x1_0000_0000 * q) % 0x1_0000_0000 == x % 0x1_0000_0000
  {
  }

  lemma SameHash(h: Header, g: Header, nonce: Uint32)
    requires h == g.(nonce := nonce)
    ensures HashWith(h, nonce) == HashWith(g, nonce)
  {
    hide Sha256Standard.Sha256;
  }

  // ----- hexadecimal text

  predicate LowerHex(c: char) { '0' <= c <= '9' || 'a' <= c <= 'f' }

  /** A digit in either case. */
  predicate IsHex(c: char) { LowerHex(c) || 'A' <= c <= 'F' }

  /** What a digit means. */
  function DigitValue(c: char): (d: nat)
    requires IsHex(c)
    ensures d < 16
  {
    if c <= '9' then c as int - '0' as int else if c <= 'F' then c as int - 'A' as int + 10 else c as int - 'a' as int + 10
  }

  /** What the program takes a character for: the only capital it knows is A. */
  function Digit(c: char): (d: nat)
    ensures d < 16
  {
    if '0' <= c <= '9' then c as int - '0' as int
    else if 'a' <= c <= 'f' then c as int - 'a' as int + 10
    else if 'A' <= c <= 'A' then c as int - 'A' as int + 10
    else 0
  }

  /** A digit as printed. */
  function HexChar(d: nat): (c: char)
    requires d < 16
    ensures LowerHex(c) && Digit(c) == d
  {
    if d < 10 then '0' + d as char else 'a' + (d - 10) as char
  }

  /** The text of a byte string: the last byte first, two digits each. */
  function Text(b: seq<Byte>): (s: string)
    ensures |s| == 2 * |b|
  {
    if b == [] then [] else Text(b[1..]) + [HexChar(b[0] / 16), HexChar(b[0] % 16)]
  }

  /** Prints a byte string: two digits a byte, and after the last a zero character, for which the
      caller must leave room. */
  method Btohs(dst: array<char>, src: seq<Byte>)
    requires src != [] ==> dst.Length > 2 * |src|
    modifies dst
    ensures src != [] ==> dst[..2 * |src|] == Text(src) && dst[2 * |src|] == '\0'
    ensures forall j :: 0 <= j < dst.Length && (src == [] || j > 2 * |src|) ==> dst[j] == old(dst[j])
  {
    hide HexChar;
    var end, at := |src|, 0;
    while end > 0
      invariant 0 <= end <= |src| && at == 2 * (|src| - end)
      invariant src != [] ==> dst[..at] == Text(src[end..]) && (at > 0 ==> dst[at] == '\0')
      invariant forall j :: 0 <= j < dst.Length && (src == [] || j > 2 * |src|) ==> dst[j] == old(dst[j])
    {
      end := end - 1;
      var c := src[end];
      assert src[end..][1..] == src[end + 1..];
      ghost var done := dst[..at];
      dst[at], dst[at + 1], dst[at + 2] := HexChar(c / 16), HexChar(c % 16), '\0';
      assert dst[..at + 2] == done + [HexChar(c / 16), HexChar(c % 16)];
      at := at + 2;
    }
    assert src[0..] == src;
  }

  /** The text without a leading 0x. */
  function Strip(s: string): string {
    if "0x" <= s then s[2..] else s
  }

  function Pair(high: nat, low: nat): Byte
    requires high < 16 && low < 16
  {
    16 * high + low
  }

  /** The bytes of whole pairs of digits, the last pair first. */
  function Pairs(s: string): (b: seq<Byte>)
    ensures |b| == |s| / 2
    decreases |s|
  {
    var n := |s|;
    if n < 2 then [] else [Pair(Digit(s[n - 2]), Digit(s[n - 1]))] + Pairs(s[..n - 2])
  }

  lemma PairsStep(s: string)
    requires |s| >= 2
    ensures Pairs(s) == [Pair(Digit(s[|s| - 2]), Digit(s[|s| - 1]))] + Pairs(s[..|s| - 2])
  {
    hide Digit, Pair;
  }

  /** The bytes the program reads from a text: from its end, two digits a byte; with an odd number of
      digits the first byte has only its high digit. */
  function Decode(s: string): (b: seq<Byte>)
    ensures |b| == (|s| + 1) / 2
  {
    if |s| % 2 == 1 then [Pair(Digit(s[|s| - 1]), 0)] + Pairs(s[..|s| - 1]) else Pairs(s)
  }

  /** What is still to come with the characters up to `end` unread and, at an even one, the low digit
      already read. */
  function Rest(s: string, end: int, low: nat): seq<Byte>
    requires -1 <= end < |s| && low < 16
  {
    if end % 2 == 1 then Pairs(s[..end + 1]) else [Pair(Digit(s[end]), low)] + Pairs(s[..end])
  }

  lemma RestStart(s: string)
    ensures Rest(s, |s| - 1, 0) == Decode(s)
  {
    hide Digit, Pair, Pairs;
    assert s[..|s|] == s;
  }

  lemma RestLow(s: string, end: int)
    requires 0 <= end < |s| && end % 2 == 1
    ensures Rest(s, end, 0) == Rest(s, end - 1, Digit(s[end]))
  {
    hide Digit, Pair, Pairs;
    PairsStep(s[..end + 1]);
    assert s[..end + 1][..end - 1] == s[..end - 1];
  }

  lemma RestHigh(s: string, end: int, low: nat)
    requires 0 <= end < |s| && end % 2 == 0 && low < 16
    ensures Rest(s, end, low) == [Pair(Digit(s[end]), low)] + Rest(s, end - 1, 0)
  {
    hide Digit, Pair, Pairs;
  }

  lemma NothingLeft(s: string)
    ensures Rest(s, -1, 0) == []
  {
  }

  /** Reads the digits from the end. */
  method ReadDigits(dst: array<Byte>, src: string)
    requires dst.Length > 0 && 2 * dst.Length >= |src|
    modifies dst
    ensures if src == [] then dst[0] == 0 else dst[..(|src| + 1) / 2] == Decode(src)
    ensures forall j :: 2 * j >= |src| && 0 < j < dst.Length ==> dst[j] == old(dst[j])
  {
    hide Decode, Rest, Digit;
    var at, end := 0, |src| - 1;
    dst[0] := 0;
    RestStart(src);
    while end >= 0
      invariant -1 <= end < |src| && 0 <= at <= dst.Length && (src == [] ==> dst[0] == 0)
      invariant 2 * at + end + 1 == |src| + |src| % 2 - (if end % 2 == 0 then 1 else 0)
      invariant forall j :: 2 * j >= |src| && 0 < j < dst.Length ==> dst[j] == old(dst[j])
      invariant end % 2 == 0 ==> at < dst.Length && dst[at] < 16 && dst[..at] + Rest(src, end, dst[at]) == Decode(src)
      invariant end % 2 == 1 ==> dst[..at] + Rest(src, end, 0) == Decode(src)
    {
      ghost var done := dst[..at];
      if end % 2 == 1 {
        RestLow(src, end);
        dst[at] := 0;
        dst[at] := dst[at] + Digit(src[end]);
        assert dst[..at] == done;
      } else {
        RestHigh(src, end, dst[at]);
        dst[at] := dst[at] + Digit(src[end]) * 0x10;
        assert dst[..at + 1] == done + [dst[at]];
        OneByteMore(done, dst[at], Rest(src, end - 1, 0));
        at := at + 1;
      }
      end := end - 1;
    }
    NothingLeft(src);
    assert dst[..at] + [] == dst[..at];
  }

  method Hstob(dst: array<Byte>, source: string)
    requires dst.Length > 0 && 2 * dst.Length >= |Strip(source)|
    modifies dst
    ensures var b := Decode(Strip(source));
      && (if b == [] then dst[0] == 0 else dst[..|b|] == b)
      && forall j :: |b| <= j < dst.Length && 0 < j ==> dst[j] == old(dst[j])
  {
    var src := source;
    if "0x" <= src { src := src[2..]; }
    ReadDigits(dst, src);
  }

  lemma OneByteMore(a: seq<Byte>, x: Byte, b: seq<Byte>)
    ensures a + ([x] + b) == (a + [x]) + b
  {
  }

  // ----- what the text means

  const ALPHABET: string := "0123456789abcdef"

  /** A digit is printed as, and a lower-case one means, its place in the alphabet. */
  lemma DigitsInOrder(d: nat, c: char)
    requires d < 16
    ensures HexChar(d) == ALPHABET[d]
    ensures LowerHex(c) ==> ALPHABET[DigitValue(c)] == c
    ensures 'A' <= c <= 'F' ==> DigitValue(c) == 10 + (c as int - 'A' as int)
  {
    hide ALPHABET;
    Alphabet();
  }

  lemma Alphabet()
    ensures |ALPHABET| == 16 && forall d :: 0 <= d < 16 ==> ALPHABET[d] == if d < 10 then '0' + d as char else 'a' + (d - 10) as char
  {
  }

  /** Byte k of a byte string is printed as two digits, k bytes before the end. */
  lemma {:induction false} TextAt(b: seq<Byte>, k: nat)
    requires k < |b|
    ensures var i := 2 * (|b| - 1 - k); Text(b)[i] == HexChar(b[k] / 16) && Text(b)[i + 1] == HexChar(b[k] % 16)
    decreases |b|
  {
    hide HexChar;
    if k > 0 { TextAt(b[1..], k - 1); }
  }

  /** Byte k read from a text has the two digits that end k bytes before the end. */
  lemma {:induction false} DecodeAt(s: string, k: nat)
    requires |s| % 2 == 0 && k < |s| / 2
    ensures var i := |s| - 2 - 2 * k; Decode(s)[k] == 16 * Digit(s[i]) + Digit(s[i + 1])
  {
    PairsAt(s, k);
  }

  lemma {:induction false} PairsAt(s: string, k: nat)
    requires k < |s| / 2
    ensures var i := |s| - 2 - 2 * k; Pairs(s)[k] == Pair(Digit(s[i]), Digit(s[i + 1]))
    decreases k
  {
    hide Digit, Pair;
    PairsStep(s);
    if k > 0 { PairsAt(s[..|s| - 2], k - 1); }
  }

  /** Printing then reading gives the bytes back, and nothing is taken for a prefix. */
  lemma {:induction false} HexRoundTrip(b: seq<Byte>)
    ensures Decode(Strip(Text(b))) == b
  {
    TextPairs(b);
    var s := Text(b);
    if |s| >= 2 { assert LowerHex(s[1]); }
  }

  lemma {:induction false} TextPairs(b: seq<Byte>)
    ensures Pairs(Text(b)) == b && forall i :: 0 <= i < |Text(b)| ==> LowerHex(Text(b)[i])
    decreases |b|
  {
    if b != [] {
      hide Digit, LowerHex;
      var s, n := Text(b), 2 * |b|;
      TextPairs(b[1..]);
      assert s[..n - 2] == Text(b[1..]);
      PairsStep(s);
      assert b == [b[0]] + b[1..];
    }
  }

  ghost predicate AllLower(s: string) {
    forall i :: 0 <= i < |s| ==> LowerHex(s[i])
  }

  /** Reading then printing gives a lower-case text of whole bytes back. */
  lemma TextRoundTrip(s: string)
    requires |s| % 2 == 0 && AllLower(s)
    ensures Text(Decode(s)) == s
  {
    PairsText(s);
  }

  lemma {:induction false} PairsText(s: string)
    requires |s| % 2 == 0 && AllLower(s)
    ensures Text(Pairs(s)) == s
    decreases |s|
  {
    if s != [] {
      var n, rest := |s|, s[..|s| - 2];
      assert AllLower(rest);
      hide Digit, LowerHex, HexChar, Pair, Text, Pairs;
      PairsText(rest);
      PairsStep(s);
      TextStep(Pair(Digit(s[n - 2]), Digit(s[n - 1])), Pairs(rest));
      HexDigits(s[n - 2], s[n - 1]);
      assert s == rest + [s[n - 2], s[n - 1]];
    }
  }

  lemma TextStep(x: Byte, b: seq<Byte>)
    ensures Text([x] + b) == Text(b) + [HexChar(x / 16), HexChar(x % 16)]
  {
    assert ([x] + b)[1..] == b;
  }

  lemma HexDigits(high: char, low: char)
    requires LowerHex(high) && LowerHex(low)
    ensures var x := Pair(Digit(high), Digit(low)); HexChar(x / 16) == high && HexChar(x % 16) == low
  {
  }

  /** The bytes a hexadecimal text of either case stands for. */
  function Meant(s: string): (b: seq<Byte>)
    requires forall i :: 0 <= i < |s| ==> IsHex(s[i])
    ensures |b| == |s| / 2
    decreases |s|
  {
    var n := |s|;
    if n < 2 then [] else [Pair(DigitValue(s[n - 2]), DigitValue(s[n - 1]))] + Meant(s[..n - 2])
  }

  predicate Misread(c: char) { 'B' <= c <= 'F' }

  ghost predicate NoneMisread(s: string) {
    forall i :: 0 <= i < |s| ==> !Misread(s[i])
  }

  lemma LastTwo(s: string)
    requires |s| >= 2
    ensures NoneMisread(s) <==> NoneMisread(s[..|s| - 2]) && !Misread(s[|s| - 2]) && !Misread(s[|s| - 1])
  {
    var t := s[..|s| - 2];
    assert forall i :: 0 <= i < |t| ==> t[i] == s[i];
  }

  /** Capitals beyond A are misread: a text is read as what it stands for exactly when it has none. */
  lemma ReadRight(s: string)
    requires |s| % 2 == 0 && forall i :: 0 <= i < |s| ==> IsHex(s[i])
    ensures Decode(s) == Meant(s) <==> NoneMisread(s)
  {
    PairsRight(s);
  }

  lemma {:induction false} PairsRight(s: string)
    requires |s| % 2 == 0 && forall i :: 0 <= i < |s| ==> IsHex(s[i])
    ensures Pairs(s) == Meant(s) <==> NoneMisread(s)
    decreases |s|
  {
    hide Digit, DigitValue, Pair, IsHex, Misread;
    if s != [] {
      var n := |s|;
      PairsRight(s[..n - 2]);
      PairsStep(s);
      DigitRight(s[n - 2], s[n - 1]);
      var b, m := Pairs(s), Meant(s);
      assert b[1..] == Pairs(s[..n - 2]) && m[1..] == Meant(s[..n - 2]);
      assert b == m <==> b[0] == m[0] && b[1..] == m[1..] by { assert b == [b[0]] + b[1..] && m == [m[0]] + m[1..]; }
      LastTwo(s);
    }
  }

  lemma DigitRight(high: char, low: char)
    requires IsHex(high) && IsHex(low)
    ensures Pair(Digit(high), Digit(low)) == Pair(DigitValue(high), DigitValue(low)) <==> !Misread(high) && !Misread(low)
  {
  }

  /** The target in terms of the 32-bit number it is packed in. */
  lemma CompactTarget(bits: Uint32)
    ensures var e, mantissa := bits / 0x100_0000, bits % 0x100_0000;
      TargetOf(bits) == if e > 32 then 0 else if e >= 3 then mantissa * Power(e - 3) else mantissa / Power(3 - e)
  {
    hide Power, Value, InMemory;
    var b := InMemory(bits);
    MemoryOf(bits);
    ThreeBytes(b[0], b[1], b[2]);
    assert b[..3] == [b[0], b[1], b[2]];
  }

  lemma MemoryOf(w: Uint32)
    ensures var b := InMemory(w); b[3] == w / 0x100_0000 && b[0] as int + 256 * b[1] as int + 65536 * b[2] as int == w % 0x100_0000
  {
    var q := w / 256;
    assert w / 65536 == q / 256 && w / 0x100_0000 == q / 256 / 256;
  }

  lemma ThreeBytes(x: Byte, y: Byte, z: Byte)
    ensures Value([x, y, z]) == x + 256 * y + 65536 * z
  {
    assert [x, y, z][1..] == [y, z] && [y, z][1..] == [z] && [z][1..] == [];
    assert Value([z]) == z;
    assert Value([y, z]) == y + 256 * z;
  }
}

/** The hashing context that takes a message in pieces: however it is split, the digest is that of the
    whole message under the standard. */
module Sha256 {
  import opened Sha256Standard

  method MakeSchedule(data: array<Byte>) returns (m: array<Word>)
    requires data.Length == 64
    ensures fresh(m) && m[..] == Schedule(data[..], 64)
  {
    hide SmallSigma0, SmallSigma1, ToWord, Schedule, Add;
    ghost var block := data[..];
    m := new Word[64](_ => 0);
    var i, j := 0, 0;
    ScheduleStep(block, 0);
    while i < 16
      invariant 0 <= i <= 16 && j == 4 * i && m[..i] == Schedule(block, i)
      modifies m
    {
      m[i] := ToWord(data[j], data[j + 1], data[j + 2], data[j + 3]);
      ScheduleStep(block, i + 1);
      assert m[..i + 1] == m[..i] + [m[i]];
      i, j := i + 1, j + 4;
    }
    while i < 64
      invariant 16 <= i <= 64 && m[..i] == Schedule(block, i)
      modifies m
    {
      ghost var w := m[..i];
      m[i] := Add(Add(Add(SmallSigma1(m[i - 2]), m[i - 7]), SmallSigma0(m[i - 15])), m[i - 16]);
      ScheduleStep(block, i + 1);
      assert m[i] == Add(Add(Add(SmallSigma1(w[i - 2]), w[i - 7]), SmallSigma0(w[i - 15])), w[i - 16]);
      assert m[..i + 1] == w + [m[i]];
      i := i + 1;
    }
    assert m[..64] == m[..];
  }

  method Transform(state: array<Word>, data: array<Byte>)
    requires state.Length == 8 && data.Length == 64
    modifies state
    ensures state[..] == Compress(old(state[..]), data[..])
  {
    hide RoundConstants, Rounds, Schedule, AddWorking, BigSigma0, BigSigma1, Ch, Maj, Add;
    ghost var start, block := state[..], data[..];
    var m := MakeSchedule(data);
    var k := RoundConstants();
    var a, b, c, d, e, f, g, h := state[0], state[1], state[2], state[3], state[4], state[5], state[6], state[7];
    RoundsStep(start, block, 0);
    for i := 0 to 64
      invariant Working(a, b, c, d, e, f, g, h) == Rounds(start, block, i)
      modifies {}
    {
      RoundsStep(start, block, i + 1);
      var t1 := Add(Add(Add(Add(h, BigSigma1(e)), Ch(e, f, g)), k[i]), m[i]);
      var t2 := Add(BigSigma0(a), Maj(a, b, c));
      h, g, f, e := g, f, e, Add(d, t1);
      d, c, b, a := c, b, a, Add(t1, t2);
    }
    assert state[..] == start;
    AddTo(state, Working(a, b, c, d, e, f, g, h));
  }

  method AddTo(state: array<Word>, v: Working)
    requires state.Length == 8
    modifies state
    ensures state[..] == AddWorking(old(state[..]), v)
  {
    hide Add;
    ghost var was := state[..];
    AddFour(state, 0, v.a, v.b, v.c, v.d);
    AddFour(state, 4, v.e, v.f, v.g, v.h);
    assert state[..4] == AddWorking(was, v)[..4] && state[4..] == AddWorking(was, v)[4..];
    assert state[..] == state[..4] + state[4..];
  }

  method AddFour(state: array<Word>, at: nat, a: Word, b: Word, c: Word, d: Word)
    requires at + 4 <= state.Length
    modifies state
    ensures state[at..at + 4] ==
      [Add(old(state[at]), a), Add(old(state[at + 1]), b), Add(old(state[at + 2]), c), Add(old(state[at + 3]), d)]
    ensures state[..at] == old(state[..at]) && state[at + 4..] == old(state[at + 4..])
  {
    hide Add;
    state[at] := Add(state[at], a);
    state[at + 1] := Add(state[at + 1], b);
    state[at + 2] := Add(state[at + 2], c);
    state[at + 3] := Add(state[at + 3], d);
  }

  lemma ScheduleStep(block: seq<Byte>, n: nat)
    requires |block| == 64 && n <= 64
    ensures n == 0 ==> Schedule(block, n) == []
    ensures n > 0 ==>
      var w, t := Schedule(block, n - 1), n - 1;
      Schedule(block, n) == w + [if t < 16 then ToWord(block[4 * t], block[4 * t + 1], block[4 * t + 2], block[4 * t + 3])
                                 else Add(Add(Add(SmallSigma1(w[t - 2]), w[t - 7]), SmallSigma0(w[t - 15])), w[t - 16])]
  {
    hide SmallSigma0, SmallSigma1, ToWord, Add;
  }

  lemma RoundsStep(h: seq<Word>, block: seq<Byte>, t: nat)
    requires |h| == 8 && |block| == 64 && t <= 64
    ensures Rounds(h, block, t) ==
      if t == 0 then Working(h[0], h[1], h[2], h[3], h[4], h[5], h[6], h[7])
      else Round(Rounds(h, block, t - 1), RoundConstants()[t - 1], Schedule(block, 64)[t - 1])
  {
    hide Round, RoundConstants, Schedule, Add;
  }

  /** What the counter over a piece's bytes counts modulo. */
  const COUNTER: nat := 0x1_0000_0000

  /** The counter ever reaches a piece's length exactly when the piece is shorter than that. */
  lemma CounterEnds(len: nat)
    ensures (exists k: nat :: k % COUNTER >= len) <==> len < COUNTER
  {
    if len < COUNTER { assert len % COUNTER >= len; }
  }

  class Context {
    const data: array<Byte>
    const state: array<Word>
    var datalen: nat
    var bitlen: nat
    ghost var whole: seq<Byte>  // the blocks already hashed

    ghost predicate Shape()
      reads this
    {
      data.Length == 64 && state.Length == 8
    }

    /** The state is the hash of the whole blocks; fewer than a block's bytes wait in the buffer. */
    ghost predicate Valid()
      reads this, data, state
    {
      && Shape() && datalen < 64 && |whole| % 64 == 0
      && state[..] == Blocks(whole) && bitlen == 8 * |whole| % LENGTHS
    }

    /** Everything taken since the start. */
    ghost function Message(): seq<Byte>
      requires Shape() && datalen <= 64
      reads this, data
    {
      whole + data[..datalen]
    }

    constructor ()
      ensures Shape() && fresh(data) && fresh(state)
    {
      data, state := new Byte[64](_ => 0), new Word[8](_ => 0);
      datalen, bitlen, whole := 0, 0, [];
    }

    method Init()
      requires Shape()
      modifies this, state
      ensures Valid() && Message() == []
    {
      hide Blocks, InitialHash;
      datalen, bitlen, whole := 0, 0, [];
      SetInitial(state);
      NoBlocks();
    }

    /** Hashes the full buffer. */
    method Flush()
      requires Shape() && |whole| % 64 == 0 && state[..] == Blocks(whole) && datalen == 64 && bitlen == 8 * |whole| % LENGTHS
      modifies this, state
      ensures Valid() && Message() == old(Message()) && datalen == 0
    {
      hide Blocks, Compress;
      Transform(state, data);
      bitlen := (bitlen + 512) % LENGTHS;
      datalen := 0;
      OneMoreBlock(whole, data[..]);
      NextLength(|whole|);
      whole := whole + data[..];
    }

    /** Takes one more piece of the message, which a 32-bit counter can run to the end of. */
    method Update(piece: seq<Byte>)
      requires Valid() && |piece| < COUNTER
      modifies this, data, state
      ensures Valid() && Message() == old(Message()) + piece
    {
      hide Blocks, Compress;
      var i := 0;
      while i < |piece|
        invariant 0 <= i <= |piece| && Valid() && Message() == old(Message()) + piece[..i]
        decreases |piece| - i
      {
        ghost var before := data[..datalen];
        assert Message() == whole + before;
        data[datalen] := piece[i];
        datalen := datalen + 1;
        assert data[..datalen] == before + [piece[i]] && piece[..i + 1] == piece[..i] + [piece[i]];
        assert whole + before == old(Message()) + piece[..i];
        AppendOne(whole, before, old(Message()), piece[..i], piece[i]);
        if datalen == 64 { Flush(); }
        i := (i + 1) % COUNTER;
      }
      assert piece[..|piece|] == piece;
    }
  }

  lemma AppendOne(a: seq<Byte>, b: seq<Byte>, c: seq<Byte>, d: seq<Byte>, x: Byte)
    requires a + b == c + d
    ensures a + (b + [x]) == c + (d + [x])
  {
    assert a + (b + [x]) == (a + b) + [x];
    assert c + (d + [x]) == (c + d) + [x];
  }

  method SetInitial(state: array<Word>)
    requires state.Length == 8
    modifies state
    ensures state[..] == InitialHash()
  {
    state[0] := 0x6a09e667;
    state[1] := 0xbb67ae85;
    state[2] := 0x3c6ef372;
    state[3] := 0xa54ff53a;
    state[4] := 0x510e527f;
    state[5] := 0x9b05688c;
    state[6] := 0x1f83d9ab;
    state[7] := 0x5be0cd19;
  }

  lemma NextLength(n: nat)
    ensures (8 * n % LENGTHS + 512) % LENGTHS == 8 * (n + 64) % LENGTHS
  {
  }

  lemma NoBlocks()
    ensures Blocks([]) == InitialHash()
  {
  }

  lemma OneMoreBlock(whole: seq<Byte>, block: seq<Byte>)
    requires |block| == 64 && |whole| % 64 == 0
    ensures |whole + block| % 64 == 0 && Blocks(whole + block) == Compress(Blocks(whole), block)
  {
    hide Compress;
    var n := |whole|;
    assert (whole + block)[..n] == whole && (whole + block)[n..] == block;
  }

  // ----- the end of a message

  /** The last block, or the last two when the length no longer fits behind the padding bit. */
  function LastBlocks(tail: seq<Byte>, bits: nat): (b: seq<Byte>)
    requires |tail| < 64
  {
    tail + [0x80] + Zeros(if |tail| < 56 then 55 - |tail| else 119 - |tail|) + Length64(bits)
  }

  lemma PadSplits(whole: seq<Byte>, tail: seq<Byte>)
    requires |whole| % 64 == 0 && |tail| < 64
    ensures Pad(whole + tail) == whole + LastBlocks(tail, 8 * |whole + tail|)
  {
    assert |whole + tail| % 64 == |tail|;
  }

  /** Hashing one more block, then the next, is hashing both. */
  lemma TwoBlocks(whole: seq<Byte>, first: seq<Byte>, second: seq<Byte>)
    requires |whole| % 64 == 0 && |first| == 64 && |second| == 64
    ensures |whole + (first + second)| % 64 == 0
    ensures Blocks(whole + (first + second)) == Compress(Compress(Blocks(whole), first), second)
  {
    hide Compress, Blocks;
    OneMoreBlock(whole, first);
    OneMoreBlock(whole + first, second);
    assert whole + (first + second) == (whole + first) + second;
  }

  method Fill(data: array<Byte>, from: nat, to: nat)
    requires from <= to <= data.Length
    modifies data
    ensures data[..] == old(data[..from]) + Zeros(to - from) + old(data[to..])
  {
    var i := from;
    while i < to
      invariant from <= i <= to
      invariant data[..] == old(data[..from]) + Zeros(i - from) + old(data[i..])
    {
      data[i] := 0;
      i := i + 1;
    }
  }

  method PutLength(data: array<Byte>, bitlen: nat)
    requires data.Length == 64 && bitlen < LENGTHS
    modifies data
    ensures data[..] == old(data[..56]) + Length64(bitlen)
  {
    hide ByteOf;
    var k := 0;
    while k < 8
      invariant 0 <= k <= 8
      invariant data[..64 - k] == old(data[..64 - k])
      invariant forall j :: 64 - k <= j < 64 ==> data[j] == ByteOf(bitlen, 63 - j)
    {
      data[63 - k] := ByteOf(bitlen, k);
      k := k + 1;
    }
  }

  /** Puts the padding up to the length field, hashing a block first when there is no room for it. */
  method PadTail(data: array<Byte>, state: array<Word>, datalen: nat)
    requires data.Length == 64 && state.Length == 8 && datalen < 64
    modifies data, state
    ensures var tail := old(data[..datalen]);
      if datalen < 56 then state[..] == old(state[..]) && data[..56] == tail + [0x80] + Zeros(55 - datalen)
      else state[..] == Compress(old(state[..]), tail + [0x80] + Zeros(63 - datalen)) && data[..56] == Zeros(56)
  {
    hide Compress;
    ghost var tail := data[..datalen];
    var i := datalen;
    data[i] := 0x80;
    i := i + 1;
    assert data[..i] == tail + [0x80];
    if datalen < 56 {
      Fill(data, i, 56);
    } else {
      Fill(data, i, 64);
      assert data[..] == tail + [0x80] + Zeros(63 - datalen);
      Transform(state, data);
      Fill(data, 0, 56);
    }
  }

  /** What the padded message hashes to, in the steps the context takes. */
  lemma LastSteps(whole: seq<Byte>, tail: seq<Byte>)
    requires |whole| % 64 == 0 && |tail| < 64
    ensures var m := whole + tail;
      && |Pad(m)| % 64 == 0
      && Blocks(Pad(m)) ==
         if |tail| < 56 then Compress(Blocks(whole), tail + [0x80] + Zeros(55 - |tail|) + Length64(8 * |m|))
         else Compress(Compress(Blocks(whole), tail + [0x80] + Zeros(63 - |tail|)), Zeros(56) + Length64(8 * |m|))
  {
    hide Blocks, Compress, Pad, Length64;
    var m := whole + tail;
    PadsToBlocks(m);
    PadSplits(whole, tail);
    var len := Length64(8 * |m|);
    if |tail| < 56 {
      OneMoreBlock(whole, tail + [0x80] + Zeros(55 - |tail|) + len);
    } else {
      TwoBlocks(whole, tail + [0x80] + Zeros(63 - |tail|), Zeros(56) + len);
      assert LastBlocks(tail, 8 * |m|) == (tail + [0x80] + Zeros(63 - |tail|)) + (Zeros(56) + len);
    }
  }

  /** Byte j of every word has been written. */
  ghost predicate Wrote(hash: seq<Byte>, h: seq<Word>, j: nat)
    requires |hash| == 32 && |h| == 8 && j < 4
  {
    && hash[j] == WordByte(h[0], j) && hash[j + 4] == WordByte(h[1], j)
    && hash[j + 8] == WordByte(h[2], j) && hash[j + 12] == WordByte(h[3], j)
    && hash[j + 16] == WordByte(h[4], j) && hash[j + 20] == WordByte(h[5], j)
    && hash[j + 24] == WordByte(h[6], j) && hash[j + 28] == WordByte(h[7], j)
  }

  lemma WroteAll(hash: seq<Byte>, h: seq<Word>)
    requires |hash| == 32 && |h| == 8 && Wrote(hash, h, 0) && Wrote(hash, h, 1) && Wrote(hash, h, 2) && Wrote(hash, h, 3)
    ensures hash == Output(h)
  {
    hide WordByte;
  }

  /** The words of the state, each most significant byte first. */
  method WriteOutput(state: array<Word>, hash: array<Byte>)
    requires state.Length == 8 && hash.Length == 32
    modifies hash
    ensures hash[..] == Output(state[..])
  {
    hide WordByte, Output;
    for i := 0 to 4
      invariant forall j :: 0 <= j < i ==> Wrote(hash[..], state[..], j)
    {
      ghost var before := hash[..];
      hash[i] := WordByte(state[0], i);
      hash[i + 4] := WordByte(state[1], i);
      hash[i + 8] := WordByte(state[2], i);
      hash[i + 12] := WordByte(state[3], i);
      hash[i + 16] := WordByte(state[4], i);
      hash[i + 20] := WordByte(state[5], i);
      hash[i + 24] := WordByte(state[6], i);
      hash[i + 28] := WordByte(state[7], i);
      forall j | 0 <= j < i + 1 ensures Wrote(hash[..], state[..], j) {
        if j < i { assert Wrote(before, state[..], j); }
      }
    }
    WroteAll(hash[..], state[..]);
  }

  /** Pads, hashes the rest and writes the digest of everything taken. */
  method Final(ctx: Context, hash: array<Byte>)
    requires ctx.Valid() && hash.Length == 32 && hash != ctx.data
    modifies ctx, ctx.data, ctx.state, hash
    ensures hash[..] == Sha256Standard.Sha256(old(ctx.Message())) && ctx.Shape()
  {
    hide Blocks, Compress, Length64, Output, Pad;
    ghost var whole, tail := ctx.whole, ctx.data[..ctx.datalen];
    PadTail(ctx.data, ctx.state, ctx.datalen);
    ctx.bitlen := (ctx.bitlen + ctx.datalen * 8) % LENGTHS;
    LengthIs(|whole|, |tail|);
    PutLength(ctx.data, ctx.bitlen);
    Transform(ctx.state, ctx.data);
    LastSteps(whole, tail);
    WriteOutput(ctx.state, hash);
  }

  lemma LengthIs(whole: nat, tail: nat)
    ensures var bits := (8 * whole % LENGTHS + tail * 8) % LENGTHS;
      bits == 8 * (whole + tail) % LENGTHS && Length64(bits) == Length64(8 * (whole + tail))
  {
    hide ByteOf;
  }

  /** The double hash that blocks are identified by; the length comes as a signed 32-bit number. */
  method Sha256Hash(src: seq<Byte>) returns (digest: seq<Byte>)
    requires |src| < 0x8000_0000
    ensures digest == Sha256Standard.Sha256(Sha256Standard.Sha256(src))
  {
    hide Sha256Standard.Sha256, Blocks, Context.Valid, Context.Message;
    var buf := new Byte[32](_ => 0);
    var ctx := new Context();
    ctx.Init();
    ctx.Update(src);
    assert [] + src == src;
    Final(ctx, buf);
    ctx.Init();
    ctx.Update(buf[..]);
    assert [] + buf[..] == buf[..];
    Final(ctx, buf);
    digest := buf[..];
  }

  function Join(pieces: seq<seq<Byte>>): seq<Byte> {
    if pieces == [] then [] else Join(pieces[..|pieces| - 1]) + pieces[|pieces| - 1]
  }

  /** However a message is cut into pieces, taking them one after another gives the hash of the whole. */
  method HashPieces(pieces: seq<seq<Byte>>) returns (digest: seq<Byte>)
    requires forall i :: 0 <= i < |pieces| ==> |pieces[i]| < COUNTER
    ensures digest == Sha256Standard.Sha256(Join(pieces))
  {
    hide Sha256Standard.Sha256, Blocks, Context.Message;
    var buf := new Byte[32](_ => 0);
    var ctx := new Context();
    ctx.Init();
    for i := 0 to |pieces|
      invariant ctx.Valid() && fresh(ctx) && fresh(ctx.data) && fresh(ctx.state) && buf != ctx.data
      invariant ctx.Message() == Join(pieces[..i])
    {
      ctx.Update(pieces[i]);
      assert pieces[..i + 1][..i] == pieces[..i];
    }
    assert pieces[..|pieces|] == pieces;
    Final(ctx, buf);
    digest := buf[..];
  }
}

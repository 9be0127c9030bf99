/** The hash of the message "abc", step by step, comes out as it is known. */
module Sha256Abc {
  import opened Sha256Standard
  import Sha256

  function Abc(): seq<Byte> { [0x61, 0x62, 0x63] }

  function AbcBlock(): (b: seq<Byte>)
    ensures |b| == 64
  {
    Abc() + [0x80] + Zeros(52) + [0, 0, 0, 0, 0, 0, 0, 24]
  }

  /** The message schedule of that block. */
  function AbcRow(r: nat): (row: seq<Word>)
    requires r < 8
    ensures |row| == 8
  {
    match r
    case 0 => [ 0x61626380, 0x00000000, 0x00000000, 0x00000000, 0x00000000, 0x00000000, 0x00000000, 0x00000000 ]
    case 1 => [ 0x00000000, 0x00000000, 0x00000000, 0x00000000, 0x00000000, 0x00000000, 0x00000000, 0x00000018 ]
    case 2 => [ 0x61626380, 0x000f0000, 0x7da86405, 0x600003c6, 0x3e9d7b78, 0x0183fc00, 0x12dcbfdb, 0xe2e2c38e ]
    case 3 => [ 0xc8215c1a, 0xb73679a2, 0xe5bc3909, 0x32663c5b, 0x9d209d67, 0xec8726cb, 0x702138a4, 0xd3b7973b ]
    case 4 => [ 0x93f5997f, 0x3b68ba73, 0xaff4ffc1, 0xf10a5c62, 0x0a8b3996, 0x72af830a, 0x9409e33e, 0x24641522 ]
    case 5 => [ 0x9f47bf94, 0xf0a64f5a, 0x3e246a79, 0x27333ba3, 0x0c4763f2, 0x840abf27, 0x7a290d5d, 0x065c43da ]
    case 6 => [ 0xfb3e89cb, 0xcc7617db, 0xb9e66c34, 0xa9993667, 0x84badedd, 0xc21462bc, 0x1487472c, 0xb20f7a99 ]
    case _ => [ 0xef57b9cd, 0xebe6b238, 0x9fe3095e, 0x78bc8d4b, 0xa43fcf15, 0x668b2ff8, 0xeeaba2cc, 0x12b1edeb ]
  }

  function AbcWord(t: nat): Word
    requires t < 64
  {
    AbcRow(t / 8)[t % 8]
  }

  /** The first and the fifth working variable; the others are theirs from up to three rounds before. */
  datatype Latest = Latest(a: Word, e: Word)

  /** Their values, from three rounds before the first on. */
  function LatestRow(r: nat): (row: seq<Latest>)
    requires r < 9
    ensures |row| == 8
  {
    match r
    case 0 => [ Latest(0xa54ff53a, 0x5be0cd19), Latest(0x3c6ef372, 0x1f83d9ab), Latest(0xbb67ae85, 0x9b05688c), Latest(0x6a09e667, 0x510e527f),
                Latest(0x5d6aebcd, 0xfa2a4622), Latest(0x5a6ad9ad, 0x78ce7989), Latest(0xc8c347a7, 0xf92939eb), Latest(0xd550f666, 0x24e00850) ]
    case 1 => [ Latest(0x04409a6a, 0x43ada245), Latest(0x2b4209f5, 0x714260ad), Latest(0xe5030380, 0x9b27a401), Latest(0x85a07b5f, 0x0c657a79),
                Latest(0x8e04ecb9, 0x32ca2d8c), Latest(0x8c87346b, 0x1cc92596), Latest(0x4798a3f4, 0x436b23e8), Latest(0xf71fc5a9, 0x816fd6e9) ]
    case 2 => [ Latest(0x87912990, 0x1e578218), Latest(0xd932eb16, 0x745a48de), Latest(0xc0645fde, 0x0b92f20c), Latest(0xb0fa238e, 0x07590dcd),
                Latest(0x21da9a9b, 0x8034229c), Latest(0xc2fbd9d1, 0x846ee454), Latest(0xfe777bbf, 0xcc899961), Latest(0xe1f20c33, 0xb0638179) ]
    case 3 => [ Latest(0x9dc68b63, 0x8ada8930), Latest(0xc2606d6d, 0xe1257970), Latest(0xa7a3623f, 0x49f5114a), Latest(0xc5d53d8d, 0xaa47c347),
                Latest(0x1c2c2838, 0x2823ef91), Latest(0xcde8037d, 0x14383d8e), Latest(0xb62ec4bc, 0xc74c6516), Latest(0x77d37528, 0xedffbff8) ]
    case 4 => [ Latest(0x363482c9, 0x6112a3b7), Latest(0xa0060b30, 0xade79437), Latest(0xea992a22, 0x0109ab3a), Latest(0x73b33bf5, 0xba591112),
                Latest(0x98e12507, 0x9cd9f5f6), Latest(0xfe604df5, 0x59249dd3), Latest(0xa9a7738c, 0x085f3833), Latest(0x65a0cfe4, 0xf4b002d6) ]
    case 5 => [ Latest(0x41a65cb1, 0x0772a26b), Latest(0x34df1604, 0xa507a53d), Latest(0x6dc57a8a, 0xf0781bc8), Latest(0x79ea687a, 0x1efbc0a0),
                Latest(0xd6670766, 0x26352d63), Latest(0xdf46652f, 0x838b2711), Latest(0x17aa0dfe, 0xdecd4715), Latest(0x9d4baf93, 0xfda24c2e) ]
    case 6 => [ Latest(0x26628815, 0xa80f11f0), Latest(0x72ab4b91, 0xb7755da1), Latest(0xa14c14b0, 0xd57b94a9), Latest(0x4172328d, 0xfecf0bc6),
                Latest(0x05757ceb, 0xbd714038), Latest(0xf11bfaa8, 0x6e5c390c), Latest(0x7a0508a1, 0x52f1ccf7), Latest(0x886e7a22, 0x49231c1e) ]
    case 7 => [ Latest(0x101fd28f, 0x529e7d00), Latest(0xf5702fdb, 0x9f4787c3), Latest(0x3ec45cdb, 0xe50e1b4f), Latest(0x38cc9913, 0x54cb266b),
                Latest(0xfcd1887b, 0x9b5e906c), Latest(0xc062d46f, 0x7e44008e), Latest(0xffb70472, 0x6d83bfc6), Latest(0xb6ae8fff, 0xb21bad3d) ]
    case _ => [ Latest(0xb85e2ce9, 0x961f4894), Latest(0x04d24d6c, 0x948d25b6), Latest(0xd39a2165, 0xfb121210), Latest(0x506e3058, 0x5ef50f24),
                Latest(0x00000000, 0x00000000), Latest(0x00000000, 0x00000000), Latest(0x00000000, 0x00000000), Latest(0x00000000, 0x00000000) ]
  }

  function At(t: nat): Latest
    requires t < 72
  {
    LatestRow(t / 8)[t % 8]
  }

  function AbcState(t: nat): Working
    requires t <= 64
  {
    Working(At(t + 3).a, At(t + 2).a, At(t + 1).a, At(t).a, At(t + 3).e, At(t + 2).e, At(t + 1).e, At(t).e)
  }

  predicate Extended(a: Word, b: Word, c: Word, d: Word, w: Word) {
    w == Add(Add(Add(SmallSigma1(a), b), SmallSigma0(c)), d)
  }

  /** Row w extends the schedule that ends with rows p and q. */
  predicate RowExtends(p: seq<Word>, q: seq<Word>, w: seq<Word>)
    requires |p| == |q| == |w| == 8
  {
    && Extended(q[6], q[1], p[1], p[0], w[0])
    && Extended(q[7], q[2], p[2], p[1], w[1])
    && Extended(w[0], q[3], p[3], p[2], w[2])
    && Extended(w[1], q[4], p[4], p[3], w[3])
    && Extended(w[2], q[5], p[5], p[4], w[4])
    && Extended(w[3], q[6], p[6], p[5], w[5])
    && Extended(w[4], q[7], p[7], p[6], w[6])
    && Extended(w[5], w[0], q[0], p[7], w[7])
  }

  /** One round takes the four latest to the next. */
  predicate Stepped(s0: Latest, s1: Latest, s2: Latest, s3: Latest, s4: Latest, k: Word, w: Word) {
    Round(Working(s3.a, s2.a, s1.a, s0.a, s3.e, s2.e, s1.e, s0.e), k, w)
    == Working(s4.a, s3.a, s2.a, s1.a, s4.e, s3.e, s2.e, s1.e)
  }

  predicate RowSteps(s: seq<Latest>, s': seq<Latest>, k: seq<Word>, w: seq<Word>)
    requires |s| == |s'| == |k| == |w| == 8
  {
    && Stepped(s[0], s[1], s[2], s[3], s[4], k[0], w[0])
    && Stepped(s[1], s[2], s[3], s[4], s[5], k[1], w[1])
    && Stepped(s[2], s[3], s[4], s[5], s[6], k[2], w[2])
    && Stepped(s[3], s[4], s[5], s[6], s[7], k[3], w[3])
    && Stepped(s[4], s[5], s[6], s[7], s'[0], k[4], w[4])
    && Stepped(s[5], s[6], s[7], s'[0], s'[1], k[5], w[5])
    && Stepped(s[6], s[7], s'[0], s'[1], s'[2], k[6], w[6])
    && Stepped(s[7], s'[0], s'[1], s'[2], s'[3], k[7], w[7])
  }

  lemma Extended2()
    ensures Extended(0x00000000, 0x00000000, 0x00000000, 0x61626380, 0x61626380)
    ensures Extended(0x00000018, 0x00000000, 0x00000000, 0x00000000, 0x000f0000)
    ensures Extended(0x61626380, 0x00000000, 0x00000000, 0x00000000, 0x7da86405)
    ensures Extended(0x000f0000, 0x00000000, 0x00000000, 0x00000000, 0x600003c6)
    ensures Extended(0x7da86405, 0x00000000, 0x00000000, 0x00000000, 0x3e9d7b78)
    ensures Extended(0x600003c6, 0x00000000, 0x00000000, 0x00000000, 0x0183fc00)
    ensures Extended(0x3e9d7b78, 0x00000018, 0x00000000, 0x00000000, 0x12dcbfdb)
    ensures Extended(0x0183fc00, 0x61626380, 0x00000000, 0x00000000, 0xe2e2c38e)
  {
  }

  lemma RowExtends2()
    ensures RowExtends(AbcRow(0), AbcRow(1), AbcRow(2))
  {
    hide Extended;
    Extended2();
  }

  lemma Extended3()
    ensures Extended(0x12dcbfdb, 0x000f0000, 0x00000000, 0x00000000, 0xc8215c1a)
    ensures Extended(0xe2e2c38e, 0x7da86405, 0x00000000, 0x00000000, 0xb73679a2)
    ensures Extended(0xc8215c1a, 0x600003c6, 0x00000000, 0x00000000, 0xe5bc3909)
    ensures Extended(0xb73679a2, 0x3e9d7b78, 0x00000000, 0x00000000, 0x32663c5b)
    ensures Extended(0xe5bc3909, 0x0183fc00, 0x00000000, 0x00000000, 0x9d209d67)
    ensures Extended(0x32663c5b, 0x12dcbfdb, 0x00000000, 0x00000000, 0xec8726cb)
    ensures Extended(0x9d209d67, 0xe2e2c38e, 0x00000018, 0x00000000, 0x702138a4)
    ensures Extended(0xec8726cb, 0xc8215c1a, 0x61626380, 0x00000018, 0xd3b7973b)
  {
  }

  lemma RowExtends3()
    ensures RowExtends(AbcRow(1), AbcRow(2), AbcRow(3))
  {
    hide Extended;
    Extended3();
  }

  lemma Extended4()
    ensures Extended(0x702138a4, 0xb73679a2, 0x000f0000, 0x61626380, 0x93f5997f)
    ensures Extended(0xd3b7973b, 0xe5bc3909, 0x7da86405, 0x000f0000, 0x3b68ba73)
    ensures Extended(0x93f5997f, 0x32663c5b, 0x600003c6, 0x7da86405, 0xaff4ffc1)
    ensures Extended(0x3b68ba73, 0x9d209d67, 0x3e9d7b78, 0x600003c6, 0xf10a5c62)
    ensures Extended(0xaff4ffc1, 0xec8726cb, 0x0183fc00, 0x3e9d7b78, 0x0a8b3996)
    ensures Extended(0xf10a5c62, 0x702138a4, 0x12dcbfdb, 0x0183fc00, 0x72af830a)
    ensures Extended(0x0a8b3996, 0xd3b7973b, 0xe2e2c38e, 0x12dcbfdb, 0x9409e33e)
    ensures Extended(0x72af830a, 0x93f5997f, 0xc8215c1a, 0xe2e2c38e, 0x24641522)
  {
  }

  lemma RowExtends4()
    ensures RowExtends(AbcRow(2), AbcRow(3), AbcRow(4))
  {
    hide Extended;
    Extended4();
  }

  lemma Extended5()
    ensures Extended(0x9409e33e, 0x3b68ba73, 0xb73679a2, 0xc8215c1a, 0x9f47bf94)
    ensures Extended(0x24641522, 0xaff4ffc1, 0xe5bc3909, 0xb73679a2, 0xf0a64f5a)
    ensures Extended(0x9f47bf94, 0xf10a5c62, 0x32663c5b, 0xe5bc3909, 0x3e246a79)
    ensures Extended(0xf0a64f5a, 0x0a8b3996, 0x9d209d67, 0x32663c5b, 0x27333ba3)
    ensures Extended(0x3e246a79, 0x72af830a, 0xec8726cb, 0x9d209d67, 0x0c4763f2)
    ensures Extended(0x27333ba3, 0x9409e33e, 0x702138a4, 0xec8726cb, 0x840abf27)
    ensures Extended(0x0c4763f2, 0x24641522, 0xd3b7973b, 0x702138a4, 0x7a290d5d)
    ensures Extended(0x840abf27, 0x9f47bf94, 0x93f5997f, 0xd3b7973b, 0x065c43da)
  {
  }

  lemma RowExtends5()
    ensures RowExtends(AbcRow(3), AbcRow(4), AbcRow(5))
  {
    hide Extended;
    Extended5();
  }

  lemma Extended6()
    ensures Extended(0x7a290d5d, 0xf0a64f5a, 0x3b68ba73, 0x93f5997f, 0xfb3e89cb)
    ensures Extended(0x065c43da, 0x3e246a79, 0xaff4ffc1, 0x3b68ba73, 0xcc7617db)
    ensures Extended(0xfb3e89cb, 0x27333ba3, 0xf10a5c62, 0xaff4ffc1, 0xb9e66c34)
    ensures Extended(0xcc7617db, 0x0c4763f2, 0x0a8b3996, 0xf10a5c62, 0xa9993667)
    ensures Extended(0xb9e66c34, 0x840abf27, 0x72af830a, 0x0a8b3996, 0x84badedd)
    ensures Extended(0xa9993667, 0x7a290d5d, 0x9409e33e, 0x72af830a, 0xc21462bc)
    ensures Extended(0x84badedd, 0x065c43da, 0x24641522, 0x9409e33e, 0x1487472c)
    ensures Extended(0xc21462bc, 0xfb3e89cb, 0x9f47bf94, 0x24641522, 0xb20f7a99)
  {
  }

  lemma RowExtends6()
    ensures RowExtends(AbcRow(4), AbcRow(5), AbcRow(6))
  {
    hide Extended;
    Extended6();
  }

  lemma Extended7()
    ensures Extended(0x1487472c, 0xcc7617db, 0xf0a64f5a, 0x9f47bf94, 0xef57b9cd)
    ensures Extended(0xb20f7a99, 0xb9e66c34, 0x3e246a79, 0xf0a64f5a, 0xebe6b238)
    ensures Extended(0xef57b9cd, 0xa9993667, 0x27333ba3, 0x3e246a79, 0x9fe3095e)
    ensures Extended(0xebe6b238, 0x84badedd, 0x0c4763f2, 0x27333ba3, 0x78bc8d4b)
    ensures Extended(0x9fe3095e, 0xc21462bc, 0x840abf27, 0x0c4763f2, 0xa43fcf15)
    ensures Extended(0x78bc8d4b, 0x1487472c, 0x7a290d5d, 0x840abf27, 0x668b2ff8)
    ensures Extended(0xa43fcf15, 0xb20f7a99, 0x065c43da, 0x7a290d5d, 0xeeaba2cc)
    ensures Extended(0x668b2ff8, 0xef57b9cd, 0xfb3e89cb, 0x065c43da, 0x12b1edeb)
  {
  }

  lemma RowExtends7()
    ensures RowExtends(AbcRow(5), AbcRow(6), AbcRow(7))
  {
    hide Extended;
    Extended7();
  }

  lemma Stepped0()
    ensures Stepped(Latest(0xa54ff53a, 0x5be0cd19), Latest(0x3c6ef372, 0x1f83d9ab), Latest(0xbb67ae85, 0x9b05688c),
                    Latest(0x6a09e667, 0x510e527f), Latest(0x5d6aebcd, 0xfa2a4622), 0x428a2f98, 0x61626380)
    ensures Stepped(Latest(0x3c6ef372, 0x1f83d9ab), Latest(0xbb67ae85, 0x9b05688c), Latest(0x6a09e667, 0x510e527f),
                    Latest(0x5d6aebcd, 0xfa2a4622), Latest(0x5a6ad9ad, 0x78ce7989), 0x71374491, 0x00000000)
    ensures Stepped(Latest(0xbb67ae85, 0x9b05688c), Latest(0x6a09e667, 0x510e527f), Latest(0x5d6aebcd, 0xfa2a4622),
                    Latest(0x5a6ad9ad, 0x78ce7989), Latest(0xc8c347a7, 0xf92939eb), 0xb5c0fbcf, 0x00000000)
    ensures Stepped(Latest(0x6a09e667, 0x510e527f), Latest(0x5d6aebcd, 0xfa2a4622), Latest(0x5a6ad9ad, 0x78ce7989),
                    Latest(0xc8c347a7, 0xf92939eb), Latest(0xd550f666, 0x24e00850), 0xe9b5dba5, 0x00000000)
    ensures Stepped(Latest(0x5d6aebcd, 0xfa2a4622), Latest(0x5a6ad9ad, 0x78ce7989), Latest(0xc8c347a7, 0xf92939eb),
                    Latest(0xd550f666, 0x24e00850), Latest(0x04409a6a, 0x43ada245), 0x3956c25b, 0x00000000)
    ensures Stepped(Latest(0x5a6ad9ad, 0x78ce7989), Latest(0xc8c347a7, 0xf92939eb), Latest(0xd550f666, 0x24e00850),
                    Latest(0x04409a6a, 0x43ada245), Latest(0x2b4209f5, 0x714260ad), 0x59f111f1, 0x00000000)
    ensures Stepped(Latest(0xc8c347a7, 0xf92939eb), Latest(0xd550f666, 0x24e00850), Latest(0x04409a6a, 0x43ada245),
                    Latest(0x2b4209f5, 0x714260ad), Latest(0xe5030380, 0x9b27a401), 0x923f82a4, 0x00000000)
    ensures Stepped(Latest(0xd550f666, 0x24e00850), Latest(0x04409a6a, 0x43ada245), Latest(0x2b4209f5, 0x714260ad),
                    Latest(0xe5030380, 0x9b27a401), Latest(0x85a07b5f, 0x0c657a79), 0xab1c5ed5, 0x00000000)
  {
  }

  lemma RowSteps0()
    ensures RowSteps(LatestRow(0), LatestRow(1), ConstantRow(0), AbcRow(0))
  {
    hide Stepped;
    Stepped0();
  }

  lemma Stepped1()
    ensures Stepped(Latest(0x04409a6a, 0x43ada245), Latest(0x2b4209f5, 0x714260ad), Latest(0xe5030380, 0x9b27a401),
                    Latest(0x85a07b5f, 0x0c657a79), Latest(0x8e04ecb9, 0x32ca2d8c), 0xd807aa98, 0x00000000)
    ensures Stepped(Latest(0x2b4209f5, 0x714260ad), Latest(0xe5030380, 0x9b27a401), Latest(0x85a07b5f, 0x0c657a79),
                    Latest(0x8e04ecb9, 0x32ca2d8c), Latest(0x8c87346b, 0x1cc92596), 0x12835b01, 0x00000000)
    ensures Stepped(Latest(0xe5030380, 0x9b27a401), Latest(0x85a07b5f, 0x0c657a79), Latest(0x8e04ecb9, 0x32ca2d8c),
                    Latest(0x8c87346b, 0x1cc92596), Latest(0x4798a3f4, 0x436b23e8), 0x243185be, 0x00000000)
    ensures Stepped(Latest(0x85a07b5f, 0x0c657a79), Latest(0x8e04ecb9, 0x32ca2d8c), Latest(0x8c87346b, 0x1cc92596),
                    Latest(0x4798a3f4, 0x436b23e8), Latest(0xf71fc5a9, 0x816fd6e9), 0x550c7dc3, 0x00000000)
    ensures Stepped(Latest(0x8e04ecb9, 0x32ca2d8c), Latest(0x8c87346b, 0x1cc92596), Latest(0x4798a3f4, 0x436b23e8),
                    Latest(0xf71fc5a9, 0x816fd6e9), Latest(0x87912990, 0x1e578218), 0x72be5d74, 0x00000000)
    ensures Stepped(Latest(0x8c87346b, 0x1cc92596), Latest(0x4798a3f4, 0x436b23e8), Latest(0xf71fc5a9, 0x816fd6e9),
                    Latest(0x87912990, 0x1e578218), Latest(0xd932eb16, 0x745a48de), 0x80deb1fe, 0x00000000)
    ensures Stepped(Latest(0x4798a3f4, 0x436b23e8), Latest(0xf71fc5a9, 0x816fd6e9), Latest(0x87912990, 0x1e578218),
                    Latest(0xd932eb16, 0x745a48de), Latest(0xc0645fde, 0x0b92f20c), 0x9bdc06a7, 0x00000000)
    ensures Stepped(Latest(0xf71fc5a9, 0x816fd6e9), Latest(0x87912990, 0x1e578218), Latest(0xd932eb16, 0x745a48de),
                    Latest(0xc0645fde, 0x0b92f20c), Latest(0xb0fa238e, 0x07590dcd), 0xc19bf174, 0x00000018)
  {
  }

  lemma RowSteps1()
    ensures RowSteps(LatestRow(1), LatestRow(2), ConstantRow(1), AbcRow(1))
  {
    hide Stepped;
    Stepped1();
  }

  lemma Stepped2()
    ensures Stepped(Latest(0x87912990, 0x1e578218), Latest(0xd932eb16, 0x745a48de), Latest(0xc0645fde, 0x0b92f20c),
                    Latest(0xb0fa238e, 0x07590dcd), Latest(0x21da9a9b, 0x8034229c), 0xe49b69c1, 0x61626380)
    ensures Stepped(Latest(0xd932eb16, 0x745a48de), Latest(0xc0645fde, 0x0b92f20c), Latest(0xb0fa238e, 0x07590dcd),
                    Latest(0x21da9a9b, 0x8034229c), Latest(0xc2fbd9d1, 0x846ee454), 0xefbe4786, 0x000f0000)
    ensures Stepped(Latest(0xc0645fde, 0x0b92f20c), Latest(0xb0fa238e, 0x07590dcd), Latest(0x21da9a9b, 0x8034229c),
                    Latest(0xc2fbd9d1, 0x846ee454), Latest(0xfe777bbf, 0xcc899961), 0x0fc19dc6, 0x7da86405)
    ensures Stepped(Latest(0xb0fa238e, 0x07590dcd), Latest(0x21da9a9b, 0x8034229c), Latest(0xc2fbd9d1, 0x846ee454),
                    Latest(0xfe777bbf, 0xcc899961), Latest(0xe1f20c33, 0xb0638179), 0x240ca1cc, 0x600003c6)
    ensures Stepped(Latest(0x21da9a9b, 0x8034229c), Latest(0xc2fbd9d1, 0x846ee454), Latest(0xfe777bbf, 0xcc899961),
                    Latest(0xe1f20c33, 0xb0638179), Latest(0x9dc68b63, 0x8ada8930), 0x2de92c6f, 0x3e9d7b78)
    ensures Stepped(Latest(0xc2fbd9d1, 0x846ee454), Latest(0xfe777bbf, 0xcc899961), Latest(0xe1f20c33, 0xb0638179),
                    Latest(0x9dc68b63, 0x8ada8930), Latest(0xc2606d6d, 0xe1257970), 0x4a7484aa, 0x0183fc00)
    ensures Stepped(Latest(0xfe777bbf, 0xcc899961), Latest(0xe1f20c33, 0xb0638179), Latest(0x9dc68b63, 0x8ada8930),
                    Latest(0xc2606d6d, 0xe1257970), Latest(0xa7a3623f, 0x49f5114a), 0x5cb0a9dc, 0x12dcbfdb)
    ensures Stepped(Latest(0xe1f20c33, 0xb0638179), Latest(0x9dc68b63, 0x8ada8930), Latest(0xc2606d6d, 0xe1257970),
                    Latest(0xa7a3623f, 0x49f5114a), Latest(0xc5d53d8d, 0xaa47c347), 0x76f988da, 0xe2e2c38e)
  {
  }

  lemma RowSteps2()
    ensures RowSteps(LatestRow(2), LatestRow(3), ConstantRow(2), AbcRow(2))
  {
    hide Stepped;
    Stepped2();
  }

  lemma Stepped3()
    ensures Stepped(Latest(0x9dc68b63, 0x8ada8930), Latest(0xc2606d6d, 0xe1257970), Latest(0xa7a3623f, 0x49f5114a),
                    Latest(0xc5d53d8d, 0xaa47c347), Latest(0x1c2c2838, 0x2823ef91), 0x983e5152, 0xc8215c1a)
    ensures Stepped(Latest(0xc2606d6d, 0xe1257970), Latest(0xa7a3623f, 0x49f5114a), Latest(0xc5d53d8d, 0xaa47c347),
                    Latest(0x1c2c2838, 0x2823ef91), Latest(0xcde8037d, 0x14383d8e), 0xa831c66d, 0xb73679a2)
    ensures Stepped(Latest(0xa7a3623f, 0x49f5114a), Latest(0xc5d53d8d, 0xaa47c347), Latest(0x1c2c2838, 0x2823ef91),
                    Latest(0xcde8037d, 0x14383d8e), Latest(0xb62ec4bc, 0xc74c6516), 0xb00327c8, 0xe5bc3909)
    ensures Stepped(Latest(0xc5d53d8d, 0xaa47c347), Latest(0x1c2c2838, 0x2823ef91), Latest(0xcde8037d, 0x14383d8e),
                    Latest(0xb62ec4bc, 0xc74c6516), Latest(0x77d37528, 0xedffbff8), 0xbf597fc7, 0x32663c5b)
    ensures Stepped(Latest(0x1c2c2838, 0x2823ef91), Latest(0xcde8037d, 0x14383d8e), Latest(0xb62ec4bc, 0xc74c6516),
                    Latest(0x77d37528, 0xedffbff8), Latest(0x363482c9, 0x6112a3b7), 0xc6e00bf3, 0x9d209d67)
    ensures Stepped(Latest(0xcde8037d, 0x14383d8e), Latest(0xb62ec4bc, 0xc74c6516), Latest(0x77d37528, 0xedffbff8),
                    Latest(0x363482c9, 0x6112a3b7), Latest(0xa0060b30, 0xade79437), 0xd5a79147, 0xec8726cb)
    ensures Stepped(Latest(0xb62ec4bc, 0xc74c6516), Latest(0x77d37528, 0xedffbff8), Latest(0x363482c9, 0x6112a3b7),
                    Latest(0xa0060b30, 0xade79437), Latest(0xea992a22, 0x0109ab3a), 0x06ca6351, 0x702138a4)
    ensures Stepped(Latest(0x77d37528, 0xedffbff8), Latest(0x363482c9, 0x6112a3b7), Latest(0xa0060b30, 0xade79437),
                    Latest(0xea992a22, 0x0109ab3a), Latest(0x73b33bf5, 0xba591112), 0x14292967, 0xd3b7973b)
  {
  }

  lemma RowSteps3()
    ensures RowSteps(LatestRow(3), LatestRow(4), ConstantRow(3), AbcRow(3))
  {
    hide Stepped;
    Stepped3();
  }

  lemma Stepped4()
    ensures Stepped(Latest(0x363482c9, 0x6112a3b7), Latest(0xa0060b30, 0xade79437), Latest(0xea992a22, 0x0109ab3a),
                    Latest(0x73b33bf5, 0xba591112), Latest(0x98e12507, 0x9cd9f5f6), 0x27b70a85, 0x93f5997f)
    ensures Stepped(Latest(0xa0060b30, 0xade79437), Latest(0xea992a22, 0x0109ab3a), Latest(0x73b33bf5, 0xba591112),
                    Latest(0x98e12507, 0x9cd9f5f6), Latest(0xfe604df5, 0x59249dd3), 0x2e1b2138, 0x3b68ba73)
    ensures Stepped(Latest(0xea992a22, 0x0109ab3a), Latest(0x73b33bf5, 0xba591112), Latest(0x98e12507, 0x9cd9f5f6),
                    Latest(0xfe604df5, 0x59249dd3), Latest(0xa9a7738c, 0x085f3833), 0x4d2c6dfc, 0xaff4ffc1)
    ensures Stepped(Latest(0x73b33bf5, 0xba591112), Latest(0x98e12507, 0x9cd9f5f6), Latest(0xfe604df5, 0x59249dd3),
                    Latest(0xa9a7738c, 0x085f3833), Latest(0x65a0cfe4, 0xf4b002d6), 0x53380d13, 0xf10a5c62)
    ensures Stepped(Latest(0x98e12507, 0x9cd9f5f6), Latest(0xfe604df5, 0x59249dd3), Latest(0xa9a7738c, 0x085f3833),
                    Latest(0x65a0cfe4, 0xf4b002d6), Latest(0x41a65cb1, 0x0772a26b), 0x650a7354, 0x0a8b3996)
    ensures Stepped(Latest(0xfe604df5, 0x59249dd3), Latest(0xa9a7738c, 0x085f3833), Latest(0x65a0cfe4, 0xf4b002d6),
                    Latest(0x41a65cb1, 0x0772a26b), Latest(0x34df1604, 0xa507a53d), 0x766a0abb, 0x72af830a)
    ensures Stepped(Latest(0xa9a7738c, 0x085f3833), Latest(0x65a0cfe4, 0xf4b002d6), Latest(0x41a65cb1, 0x0772a26b),
                    Latest(0x34df1604, 0xa507a53d), Latest(0x6dc57a8a, 0xf0781bc8), 0x81c2c92e, 0x9409e33e)
    ensures Stepped(Latest(0x65a0cfe4, 0xf4b002d6), Latest(0x41a65cb1, 0x0772a26b), Latest(0x34df1604, 0xa507a53d),
                    Latest(0x6dc57a8a, 0xf0781bc8), Latest(0x79ea687a, 0x1efbc0a0), 0x92722c85, 0x24641522)
  {
  }

  lemma RowSteps4()
    ensures RowSteps(LatestRow(4), LatestRow(5), ConstantRow(4), AbcRow(4))
  {
    hide Stepped;
    Stepped4();
  }

  lemma Stepped5()
    ensures Stepped(Latest(0x41a65cb1, 0x0772a26b), Latest(0x34df1604, 0xa507a53d), Latest(0x6dc57a8a, 0xf0781bc8),
                    Latest(0x79ea687a, 0x1efbc0a0), Latest(0xd6670766, 0x26352d63), 0xa2bfe8a1, 0x9f47bf94)
    ensures Stepped(Latest(0x34df1604, 0xa507a53d), Latest(0x6dc57a8a, 0xf0781bc8), Latest(0x79ea687a, 0x1efbc0a0),
                    Latest(0xd6670766, 0x26352d63), Latest(0xdf46652f, 0x838b2711), 0xa81a664b, 0xf0a64f5a)
    ensures Stepped(Latest(0x6dc57a8a, 0xf0781bc8), Latest(0x79ea687a, 0x1efbc0a0), Latest(0xd6670766, 0x26352d63),
                    Latest(0xdf46652f, 0x838b2711), Latest(0x17aa0dfe, 0xdecd4715), 0xc24b8b70, 0x3e246a79)
    ensures Stepped(Latest(0x79ea687a, 0x1efbc0a0), Latest(0xd6670766, 0x26352d63), Latest(0xdf46652f, 0x838b2711),
                    Latest(0x17aa0dfe, 0xdecd4715), Latest(0x9d4baf93, 0xfda24c2e), 0xc76c51a3, 0x27333ba3)
    ensures Stepped(Latest(0xd6670766, 0x26352d63), Latest(0xdf46652f, 0x838b2711), Latest(0x17aa0dfe, 0xdecd4715),
                    Latest(0x9d4baf93, 0xfda24c2e), Latest(0x26628815, 0xa80f11f0), 0xd192e819, 0x0c4763f2)
    ensures Stepped(Latest(0xdf46652f, 0x838b2711), Latest(0x17aa0dfe, 0xdecd4715), Latest(0x9d4baf93, 0xfda24c2e),
                    Latest(0x26628815, 0xa80f11f0), Latest(0x72ab4b91, 0xb7755da1), 0xd6990624, 0x840abf27)
    ensures Stepped(Latest(0x17aa0dfe, 0xdecd4715), Latest(0x9d4baf93, 0xfda24c2e), Latest(0x26628815, 0xa80f11f0),
                    Latest(0x72ab4b91, 0xb7755da1), Latest(0xa14c14b0, 0xd57b94a9), 0xf40e3585, 0x7a290d5d)
    ensures Stepped(Latest(0x9d4baf93, 0xfda24c2e), Latest(0x26628815, 0xa80f11f0), Latest(0x72ab4b91, 0xb7755da1),
                    Latest(0xa14c14b0, 0xd57b94a9), Latest(0x4172328d, 0xfecf0bc6), 0x106aa070, 0x065c43da)
  {
  }

  lemma RowSteps5()
    ensures RowSteps(LatestRow(5), LatestRow(6), ConstantRow(5), AbcRow(5))
  {
    hide Stepped;
    Stepped5();
  }

  lemma Stepped6()
    ensures Stepped(Latest(0x26628815, 0xa80f11f0), Latest(0x72ab4b91, 0xb7755da1), Latest(0xa14c14b0, 0xd57b94a9),
                    Latest(0x4172328d, 0xfecf0bc6), Latest(0x05757ceb, 0xbd714038), 0x19a4c116, 0xfb3e89cb)
    ensures Stepped(Latest(0x72ab4b91, 0xb7755da1), Latest(0xa14c14b0, 0xd57b94a9), Latest(0x4172328d, 0xfecf0bc6),
                    Latest(0x05757ceb, 0xbd714038), Latest(0xf11bfaa8, 0x6e5c390c), 0x1e376c08, 0xcc7617db)
    ensures Stepped(Latest(0xa14c14b0, 0xd57b94a9), Latest(0x4172328d, 0xfecf0bc6), Latest(0x05757ceb, 0xbd714038),
                    Latest(0xf11bfaa8, 0x6e5c390c), Latest(0x7a0508a1, 0x52f1ccf7), 0x2748774c, 0xb9e66c34)
    ensures Stepped(Latest(0x4172328d, 0xfecf0bc6), Latest(0x05757ceb, 0xbd714038), Latest(0xf11bfaa8, 0x6e5c390c),
                    Latest(0x7a0508a1, 0x52f1ccf7), Latest(0x886e7a22, 0x49231c1e), 0x34b0bcb5, 0xa9993667)
    ensures Stepped(Latest(0x05757ceb, 0xbd714038), Latest(0xf11bfaa8, 0x6e5c390c), Latest(0x7a0508a1, 0x52f1ccf7),
                    Latest(0x886e7a22, 0x49231c1e), Latest(0x101fd28f, 0x529e7d00), 0x391c0cb3, 0x84badedd)
    ensures Stepped(Latest(0xf11bfaa8, 0x6e5c390c), Latest(0x7a0508a1, 0x52f1ccf7), Latest(0x886e7a22, 0x49231c1e),
                    Latest(0x101fd28f, 0x529e7d00), Latest(0xf5702fdb, 0x9f4787c3), 0x4ed8aa4a, 0xc21462bc)
    ensures Stepped(Latest(0x7a0508a1, 0x52f1ccf7), Latest(0x886e7a22, 0x49231c1e), Latest(0x101fd28f, 0x529e7d00),
                    Latest(0xf5702fdb, 0x9f4787c3), Latest(0x3ec45cdb, 0xe50e1b4f), 0x5b9cca4f, 0x1487472c)
    ensures Stepped(Latest(0x886e7a22, 0x49231c1e), Latest(0x101fd28f, 0x529e7d00), Latest(0xf5702fdb, 0x9f4787c3),
                    Latest(0x3ec45cdb, 0xe50e1b4f), Latest(0x38cc9913, 0x54cb266b), 0x682e6ff3, 0xb20f7a99)
  {
  }

  lemma RowSteps6()
    ensures RowSteps(LatestRow(6), LatestRow(7), ConstantRow(6), AbcRow(6))
  {
    hide Stepped;
    Stepped6();
  }

  lemma Stepped7()
    ensures Stepped(Latest(0x101fd28f, 0x529e7d00), Latest(0xf5702fdb, 0x9f4787c3), Latest(0x3ec45cdb, 0xe50e1b4f),
                    Latest(0x38cc9913, 0x54cb266b), Latest(0xfcd1887b, 0x9b5e906c), 0x748f82ee, 0xef57b9cd)
    ensures Stepped(Latest(0xf5702fdb, 0x9f4787c3), Latest(0x3ec45cdb, 0xe50e1b4f), Latest(0x38cc9913, 0x54cb266b),
                    Latest(0xfcd1887b, 0x9b5e906c), Latest(0xc062d46f, 0x7e44008e), 0x78a5636f, 0xebe6b238)
    ensures Stepped(Latest(0x3ec45cdb, 0xe50e1b4f), Latest(0x38cc9913, 0x54cb266b), Latest(0xfcd1887b, 0x9b5e906c),
                    Latest(0xc062d46f, 0x7e44008e), Latest(0xffb70472, 0x6d83bfc6), 0x84c87814, 0x9fe3095e)
    ensures Stepped(Latest(0x38cc9913, 0x54cb266b), Latest(0xfcd1887b, 0x9b5e906c), Latest(0xc062d46f, 0x7e44008e),
                    Latest(0xffb70472, 0x6d83bfc6), Latest(0xb6ae8fff, 0xb21bad3d), 0x8cc70208, 0x78bc8d4b)
    ensures Stepped(Latest(0xfcd1887b, 0x9b5e906c), Latest(0xc062d46f, 0x7e44008e), Latest(0xffb70472, 0x6d83bfc6),
                    Latest(0xb6ae8fff, 0xb21bad3d), Latest(0xb85e2ce9, 0x961f4894), 0x90befffa, 0xa43fcf15)
    ensures Stepped(Latest(0xc062d46f, 0x7e44008e), Latest(0xffb70472, 0x6d83bfc6), Latest(0xb6ae8fff, 0xb21bad3d),
                    Latest(0xb85e2ce9, 0x961f4894), Latest(0x04d24d6c, 0x948d25b6), 0xa4506ceb, 0x668b2ff8)
    ensures Stepped(Latest(0xffb70472, 0x6d83bfc6), Latest(0xb6ae8fff, 0xb21bad3d), Latest(0xb85e2ce9, 0x961f4894),
                    Latest(0x04d24d6c, 0x948d25b6), Latest(0xd39a2165, 0xfb121210), 0xbef9a3f7, 0xeeaba2cc)
    ensures Stepped(Latest(0xb6ae8fff, 0xb21bad3d), Latest(0xb85e2ce9, 0x961f4894), Latest(0x04d24d6c, 0x948d25b6),
                    Latest(0xd39a2165, 0xfb121210), Latest(0x506e3058, 0x5ef50f24), 0xc67178f2, 0x12b1edeb)
  {
  }

  lemma RowSteps7()
    ensures RowSteps(LatestRow(7), LatestRow(8), ConstantRow(7), AbcRow(7))
  {
    hide Stepped;
    Stepped7();
  }

  lemma RowsExtend(r: nat)
    requires 2 <= r < 8
    ensures RowExtends(AbcRow(r - 2), AbcRow(r - 1), AbcRow(r))
  {
    hide RowExtends;
    match r {
      case 2 => RowExtends2();
      case 3 => RowExtends3();
      case 4 => RowExtends4();
      case 5 => RowExtends5();
      case 6 => RowExtends6();
      case _ => RowExtends7();
    }
  }

  lemma ExtendsInRow(p: seq<Word>, q: seq<Word>, w: seq<Word>, i: nat)
    requires |p| == |q| == |w| == 8 && i < 8 && RowExtends(p, q, w)
    ensures var s := p + q + w; Extended(s[i + 14], s[i + 9], s[i + 1], s[i], s[i + 16])
  {
    hide Extended;
  }

  lemma ThreeRows(r: nat, k: nat)
    requires 2 <= r < 8 && k < 24
    ensures (AbcRow(r - 2) + AbcRow(r - 1) + AbcRow(r))[k] == AbcWord(8 * (r - 2) + k)
  {
    hide AbcRow;
  }

  lemma ExtendsAt(t: nat)
    requires 16 <= t < 64
    ensures Extended(AbcWord(t - 2), AbcWord(t - 7), AbcWord(t - 15), AbcWord(t - 16), AbcWord(t))
  {
    hide AbcRow, Extended, AbcWord, RowExtends;
    var r, i := t / 8, t % 8;
    RowsExtend(r);
    ExtendsInRow(AbcRow(r - 2), AbcRow(r - 1), AbcRow(r), i);
    ThreeRows(r, i);
    ThreeRows(r, i + 1);
    ThreeRows(r, i + 9);
    ThreeRows(r, i + 14);
    ThreeRows(r, i + 16);
  }

  lemma RowsStep(r: nat)
    requires r < 8
    ensures RowSteps(LatestRow(r), LatestRow(r + 1), ConstantRow(r), AbcRow(r))
  {
    hide RowSteps;
    match r {
      case 0 => RowSteps0();
      case 1 => RowSteps1();
      case 2 => RowSteps2();
      case 3 => RowSteps3();
      case 4 => RowSteps4();
      case 5 => RowSteps5();
      case 6 => RowSteps6();
      case _ => RowSteps7();
    }
  }

  lemma StepsInRow(s: seq<Latest>, s': seq<Latest>, k: seq<Word>, w: seq<Word>, i: nat)
    requires |s| == |s'| == |k| == |w| == 8 && i < 8 && RowSteps(s, s', k, w)
    ensures var b := s + s'; Stepped(b[i], b[i + 1], b[i + 2], b[i + 3], b[i + 4], k[i], w[i])
  {
    hide Stepped;
  }

  lemma TwoRows(r: nat, k: nat)
    requires r < 8 && k < 16
    ensures (LatestRow(r) + LatestRow(r + 1))[k] == At(8 * r + k)
  {
    hide LatestRow;
  }

  lemma StepsAt(t: nat)
    requires t < 64
    ensures Round(AbcState(t), RoundConstants()[t], AbcWord(t)) == AbcState(t + 1)
  {
    hide AbcRow, LatestRow, ConstantRow, Round, At, RowSteps;
    var r, i := t / 8, t % 8;
    RowsStep(r);
    StepsInRow(LatestRow(r), LatestRow(r + 1), ConstantRow(r), AbcRow(r), i);
    TwoRows(r, i);
    TwoRows(r, i + 1);
    TwoRows(r, i + 2);
    TwoRows(r, i + 3);
    TwoRows(r, i + 4);
  }

  lemma BlockWords(t: nat)
    requires t < 16
    ensures var b := AbcBlock(); ToWord(b[4 * t], b[4 * t + 1], b[4 * t + 2], b[4 * t + 3]) == AbcWord(t)
  {
    hide ToWord, AbcWord;
    var b := AbcBlock();
    ToWords();
    FirstWords();
    if 0 < t < 15 { ZeroWords(t); }
  }

  lemma FirstWords()
    ensures AbcWord(0) == 0x61626380 && AbcWord(15) == 0x18
  {
  }

  lemma ToWords()
    ensures ToWord(0x61, 0x62, 0x63, 0x80) == 0x61626380 && ToWord(0, 0, 0, 24) == 0x18 && ToWord(0, 0, 0, 0) == 0
  {
  }

  lemma ZeroWords(t: nat)
    requires 0 < t < 15
    ensures AbcWord(t) == 0
  {
  }

  /** The first n words of a schedule are those of the table. */
  ghost predicate Begins(w: seq<Word>, n: nat) {
    n <= 64 && |w| == n && forall t :: 0 <= t < n ==> w[t] == AbcWord(t)
  }

  lemma NextWord(w: seq<Word>, t: nat)
    requires 16 <= t < 64 && Begins(w, t)
    ensures Add(Add(Add(SmallSigma1(w[t - 2]), w[t - 7]), SmallSigma0(w[t - 15])), w[t - 16]) == AbcWord(t)
  {
    hide AbcWord, SmallSigma0, SmallSigma1, Add;
    ExtendsAt(t);
  }

  lemma {:induction false} AbcSchedule(n: nat)
    requires n <= 64
    ensures Begins(Schedule(AbcBlock(), n), n)
  {
    hide AbcBlock, AbcWord, SmallSigma0, SmallSigma1, ToWord, Add, Begins;
    Sha256.ScheduleStep(AbcBlock(), n);
    if n == 0 {
      NothingBegun();
    } else {
      var w := Schedule(AbcBlock(), n - 1);
      AbcSchedule(n - 1);
      if n - 1 < 16 { BlockWords(n - 1); } else { NextWord(w, n - 1); }
      BeginsNext(w, n - 1);
    }
  }

  lemma NothingBegun()
    ensures Begins([], 0)
  {
  }

  lemma BeginsNext(w: seq<Word>, n: nat)
    requires n < 64 && Begins(w, n)
    ensures Begins(w + [AbcWord(n)], n + 1)
  {
    hide AbcWord;
  }

  lemma {:induction false} AbcRounds(t: nat)
    requires t <= 64
    ensures Rounds(InitialHash(), AbcBlock(), t) == AbcState(t)
  {
    hide AbcBlock, AbcWord, Round, Rounds, Schedule, RoundConstants, AbcState, InitialHash;
    Sha256.RoundsStep(InitialHash(), AbcBlock(), t);
    if t == 0 {
      FirstState();
    } else {
      AbcRounds(t - 1);
      AbcSchedule(64);
      StepsAt(t - 1);
    }
  }

  lemma FirstState()
    ensures var h := InitialHash(); Working(h[0], h[1], h[2], h[3], h[4], h[5], h[6], h[7]) == AbcState(0)
  {
  }

  function AbcHash(): (h: seq<Word>)
    ensures |h| == 8
  {
    [ 0xba7816bf, 0x8f01cfea, 0x414140de, 0x5dae2223, 0xb00361a3, 0x96177a9c, 0xb410ff61, 0xf20015ad ]
  }

  lemma LastState()
    ensures AddWorking(InitialHash(), AbcState(64)) == AbcHash()
  {
  }

  /** The digest of "abc" as it is known: ba7816bf 8f01cfea 414140de 5dae2223 b00361a3 96177a9c b410ff61 f20015ad. */
  lemma HashOfAbc()
    ensures Sha256Standard.Sha256(Abc()) ==
      [ 0xba, 0x78, 0x16, 0xbf, 0x8f, 0x01, 0xcf, 0xea, 0x41, 0x41, 0x40, 0xde, 0x5d, 0xae, 0x22, 0x23,
        0xb0, 0x03, 0x61, 0xa3, 0x96, 0x17, 0x7a, 0x9c, 0xb4, 0x10, 0xff, 0x61, 0xf2, 0x00, 0x15, 0xad ]
  {
    hide Rounds, Round, AbcState, InitialHash, AddWorking, Output, Sha256Standard.Sha256;
    PaddedAbc();
    AbcRounds(64);
    LastState();
    Sha256.NoBlocks();
    Sha256.OneMoreBlock([], AbcBlock());
    assert [] + AbcBlock() == AbcBlock();
    AbcOutput();
  }

  lemma {:induction false} SmallByte(n: nat, k: nat)
    requires n < 256
    ensures ByteOf(n, k) == if k == 0 then n else 0
  {
    if k > 0 { SmallByte(0, k - 1); }
  }

  lemma PaddedAbc()
    ensures Pad(Abc()) == AbcBlock() && |Pad(Abc())| % 64 == 0 && Sha256Standard.Sha256(Abc()) == Output(Blocks(Pad(Abc())))
  {
    hide Blocks, Output;
    PadsToBlocks(Abc());
    forall k: nat ensures ByteOf(24, k) == if k == 0 then 24 else 0 { SmallByte(24, k); }
    assert Length64(24) == [0, 0, 0, 0, 0, 0, 0, 24];
    assert ZerosFor(3) == 52;
  }

  lemma AbcOutput()
    ensures Output(AbcHash()) ==
      [ 0xba, 0x78, 0x16, 0xbf, 0x8f, 0x01, 0xcf, 0xea, 0x41, 0x41, 0x40, 0xde, 0x5d, 0xae, 0x22, 0x23,
        0xb0, 0x03, 0x61, 0xa3, 0x96, 0x17, 0x7a, 0x9c, 0xb4, 0x10, 0xff, 0x61, 0xf2, 0x00, 0x15, 0xad ]
  {
  }
}

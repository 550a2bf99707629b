/**
 The digest of the message "abc" that the standard gives (appendix B.1 of FIPS 180-2), from its
 definition: the message schedule and the working variables word by word.
 */
module Sha256Example {
  import opened Sha256Spec
  import opened Sha256Constants

  const ABC: seq<Byte> := [0x61, 0x62, 0x63]

  // ----- the padded message -----

  lemma OneBlock()
    ensures |Pad(ABC)| == 64
    ensures Pad(ABC) == ABC + [0x80] + Zeros(52) + [0, 0, 0, 0, 0, 0, 0, 24]
  {
    assert ZeroCount(3) == 52;
    Length24();
    hide Zeros, LengthField;
  }

  lemma Length24()
    ensures LengthField(3) == [0, 0, 0, 0, 0, 0, 0, 24]
  {
    assert 8 * 3 % 0x1_0000_0000_0000_0000 == 24;
    hide BigEndian64;
    Small64();
  }

  lemma Small64()
    ensures BigEndian64(24) == [0, 0, 0, 0, 0, 0, 0, 24]
  {
    var v: nat := 24;
    assert v / 0x100_0000_0000_0000 == v / 0x1_0000_0000_0000 == v / 0x100_0000_0000 == 0;
    assert v / 0x1_0000_0000 == v / 0x100_0000 == v / 0x1_0000 == v / 0x100 == 0;
  }

  lemma Bytes()
    ensures |Pad(ABC)| == 64 && Pad(ABC)[0] == 0x61 && Pad(ABC)[1] == 0x62 && Pad(ABC)[2] == 0x63
    ensures Pad(ABC)[3] == 0x80 && Pad(ABC)[63] == 24 && forall i :: 4 <= i < 63 ==> Pad(ABC)[i] == 0
  {
    OneBlock();
    hide Pad, Zeros;
    var len: seq<Byte> := [0, 0, 0, 0, 0, 0, 0, 24];
    var front := ABC + [0x80] + Zeros(52);
    assert forall i :: 4 <= i < 56 ==> front[i] == Zeros(52)[i - 4];
    assert forall i :: 0 <= i < 7 ==> len[i] == 0;
    assert forall i :: 56 <= i < 64 ==> (front + len)[i] == len[i - 56];
  }

  /** The sixteen words of the message. */
  lemma MessageWords(t: nat)
    requires t < 16
    ensures |Pad(ABC)| == 64
    ensures Schedule(Pad(ABC), t) == if t == 0 then 0x61626380 else if t == 15 then 24 else 0
  {
    Bytes();
    SomeWords();
    hide Pad, ToWord, ABC;
    var p := Pad(ABC);
    var b := p[4 * t..4 * t + 4];
    assert b == [p[4 * t], p[4 * t + 1], p[4 * t + 2], p[4 * t + 3]];
  }

  lemma SomeWords()
    ensures ToWord([0x61, 0x62, 0x63, 0x80]) == 0x61626380
    ensures ToWord([0, 0, 0, 24]) == 24
    ensures ToWord([0, 0, 0, 0]) == 0
  {
  }

  // ----- the message schedule -----

  /** Four words of the schedule make the next one. */
  function Mix(a: Word, b: Word, c: Word, d: Word): (w: Word)
  {
    Add(Add(Add(Sigma1(a), b), Sigma0(c)), d)
  }

  lemma Mixed16()
    ensures Mix(0x00000000, 0x00000000, 0x00000000, 0x61626380) == 0x61626380
    ensures Mix(0x00000018, 0x00000000, 0x00000000, 0x00000000) == 0x000f0000
    ensures Mix(0x61626380, 0x00000000, 0x00000000, 0x00000000) == 0x7da86405
    ensures Mix(0x000f0000, 0x00000000, 0x00000000, 0x00000000) == 0x600003c6
    ensures Mix(0x7da86405, 0x00000000, 0x00000000, 0x00000000) == 0x3e9d7b78
    ensures Mix(0x600003c6, 0x00000000, 0x00000000, 0x00000000) == 0x0183fc00
    ensures Mix(0x3e9d7b78, 0x00000018, 0x00000000, 0x00000000) == 0x12dcbfdb
    ensures Mix(0x0183fc00, 0x61626380, 0x00000000, 0x00000000) == 0xe2e2c38e
  {
  }

  lemma Mixed24()
    ensures Mix(0x12dcbfdb, 0x000f0000, 0x00000000, 0x00000000) == 0xc8215c1a
    ensures Mix(0xe2e2c38e, 0x7da86405, 0x00000000, 0x00000000) == 0xb73679a2
    ensures Mix(0xc8215c1a, 0x600003c6, 0x00000000, 0x00000000) == 0xe5bc3909
    ensures Mix(0xb73679a2, 0x3e9d7b78, 0x00000000, 0x00000000) == 0x32663c5b
    ensures Mix(0xe5bc3909, 0x0183fc00, 0x00000000, 0x00000000) == 0x9d209d67
    ensures Mix(0x32663c5b, 0x12dcbfdb, 0x00000000, 0x00000000) == 0xec8726cb
    ensures Mix(0x9d209d67, 0xe2e2c38e, 0x00000018, 0x00000000) == 0x702138a4
    ensures Mix(0xec8726cb, 0xc8215c1a, 0x61626380, 0x00000018) == 0xd3b7973b
  {
  }

  lemma Mixed32()
    ensures Mix(0x702138a4, 0xb73679a2, 0x000f0000, 0x61626380) == 0x93f5997f
    ensures Mix(0xd3b7973b, 0xe5bc3909, 0x7da86405, 0x000f0000) == 0x3b68ba73
    ensures Mix(0x93f5997f, 0x32663c5b, 0x600003c6, 0x7da86405) == 0xaff4ffc1
    ensures Mix(0x3b68ba73, 0x9d209d67, 0x3e9d7b78, 0x600003c6) == 0xf10a5c62
    ensures Mix(0xaff4ffc1, 0xec8726cb, 0x0183fc00, 0x3e9d7b78) == 0x0a8b3996
    ensures Mix(0xf10a5c62, 0x702138a4, 0x12dcbfdb, 0x0183fc00) == 0x72af830a
    ensures Mix(0x0a8b3996, 0xd3b7973b, 0xe2e2c38e, 0x12dcbfdb) == 0x9409e33e
    ensures Mix(0x72af830a, 0x93f5997f, 0xc8215c1a, 0xe2e2c38e) == 0x24641522
  {
  }

  lemma Mixed40()
    ensures Mix(0x9409e33e, 0x3b68ba73, 0xb73679a2, 0xc8215c1a) == 0x9f47bf94
    ensures Mix(0x24641522, 0xaff4ffc1, 0xe5bc3909, 0xb73679a2) == 0xf0a64f5a
    ensures Mix(0x9f47bf94, 0xf10a5c62, 0x32663c5b, 0xe5bc3909) == 0x3e246a79
    ensures Mix(0xf0a64f5a, 0x0a8b3996, 0x9d209d67, 0x32663c5b) == 0x27333ba3
    ensures Mix(0x3e246a79, 0x72af830a, 0xec8726cb, 0x9d209d67) == 0x0c4763f2
    ensures Mix(0x27333ba3, 0x9409e33e, 0x702138a4, 0xec8726cb) == 0x840abf27
    ensures Mix(0x0c4763f2, 0x24641522, 0xd3b7973b, 0x702138a4) == 0x7a290d5d
    ensures Mix(0x840abf27, 0x9f47bf94, 0x93f5997f, 0xd3b7973b) == 0x065c43da
  {
  }

  lemma Mixed48()
    ensures Mix(0x7a290d5d, 0xf0a64f5a, 0x3b68ba73, 0x93f5997f) == 0xfb3e89cb
    ensures Mix(0x065c43da, 0x3e246a79, 0xaff4ffc1, 0x3b68ba73) == 0xcc7617db
    ensures Mix(0xfb3e89cb, 0x27333ba3, 0xf10a5c62, 0xaff4ffc1) == 0xb9e66c34
    ensures Mix(0xcc7617db, 0x0c4763f2, 0x0a8b3996, 0xf10a5c62) == 0xa9993667
    ensures Mix(0xb9e66c34, 0x840abf27, 0x72af830a, 0x0a8b3996) == 0x84badedd
    ensures Mix(0xa9993667, 0x7a290d5d, 0x9409e33e, 0x72af830a) == 0xc21462bc
    ensures Mix(0x84badedd, 0x065c43da, 0x24641522, 0x9409e33e) == 0x1487472c
    ensures Mix(0xc21462bc, 0xfb3e89cb, 0x9f47bf94, 0x24641522) == 0xb20f7a99
  {
  }

  lemma Mixed56()
    ensures Mix(0x1487472c, 0xcc7617db, 0xf0a64f5a, 0x9f47bf94) == 0xef57b9cd
    ensures Mix(0xb20f7a99, 0xb9e66c34, 0x3e246a79, 0xf0a64f5a) == 0xebe6b238
    ensures Mix(0xef57b9cd, 0xa9993667, 0x27333ba3, 0x3e246a79) == 0x9fe3095e
    ensures Mix(0xebe6b238, 0x84badedd, 0x0c4763f2, 0x27333ba3) == 0x78bc8d4b
    ensures Mix(0x9fe3095e, 0xc21462bc, 0x840abf27, 0x0c4763f2) == 0xa43fcf15
    ensures Mix(0x78bc8d4b, 0x1487472c, 0x7a290d5d, 0x840abf27) == 0x668b2ff8
    ensures Mix(0xa43fcf15, 0xb20f7a99, 0x065c43da, 0x7a290d5d) == 0xeeaba2cc
    ensures Mix(0x668b2ff8, 0xef57b9cd, 0xfb3e89cb, 0x065c43da) == 0x12b1edeb
  {
  }

  function At(t: nat): (w: Word)
  {
    if |Pad(ABC)| == 64 then Schedule(Pad(ABC), t) else 0
  }

  /** Eight neighbours of the schedule. */
  predicate Words(t: nat, w: seq<Word>)
  {
    && |w| == 8
    && At(t) == w[0] && At(t + 1) == w[1] && At(t + 2) == w[2] && At(t + 3) == w[3]
    && At(t + 4) == w[4] && At(t + 5) == w[5] && At(t + 6) == w[6] && At(t + 7) == w[7]
  }

  const W0: seq<Word> := [
    0x61626380, 0x00000000, 0x00000000, 0x00000000, 0x00000000, 0x00000000, 0x00000000, 0x00000000]
  const W1: seq<Word> := [
    0x00000000, 0x00000000, 0x00000000, 0x00000000, 0x00000000, 0x00000000, 0x00000000, 0x00000018]
  const W2: seq<Word> := [
    0x61626380, 0x000f0000, 0x7da86405, 0x600003c6, 0x3e9d7b78, 0x0183fc00, 0x12dcbfdb, 0xe2e2c38e]
  const W3: seq<Word> := [
    0xc8215c1a, 0xb73679a2, 0xe5bc3909, 0x32663c5b, 0x9d209d67, 0xec8726cb, 0x702138a4, 0xd3b7973b]
  const W4: seq<Word> := [
    0x93f5997f, 0x3b68ba73, 0xaff4ffc1, 0xf10a5c62, 0x0a8b3996, 0x72af830a, 0x9409e33e, 0x24641522]
  const W5: seq<Word> := [
    0x9f47bf94, 0xf0a64f5a, 0x3e246a79, 0x27333ba3, 0x0c4763f2, 0x840abf27, 0x7a290d5d, 0x065c43da]
  const W6: seq<Word> := [
    0xfb3e89cb, 0xcc7617db, 0xb9e66c34, 0xa9993667, 0x84badedd, 0xc21462bc, 0x1487472c, 0xb20f7a99]
  const W7: seq<Word> := [
    0xef57b9cd, 0xebe6b238, 0x9fe3095e, 0x78bc8d4b, 0xa43fcf15, 0x668b2ff8, 0xeeaba2cc, 0x12b1edeb]

  lemma Words0()
    ensures Words(0, W0) && Words(8, W1)
  {
    hide At;
    MessageAt();
  }

  lemma MessageAt()
    ensures At(0) == 0x61626380 && At(15) == 24
    ensures forall t :: 1 <= t < 15 ==> At(t) == 0
  {
    MessageWords(0);
    MessageWords(15);
    forall t | 1 <= t < 15 ensures At(t) == 0 {
      MessageWords(t);
    }
  }

  lemma Mixes(t: nat)
    requires t >= 16
    ensures At(t) == Mix(At(t - 2), At(t - 7), At(t - 15), At(t - 16))
  {
    OneBlock();
    hide Pad;
  }

  lemma Words2()
    ensures Words(8, W1) && Words(16, W2)
  {
    hide At, Mix;
    Words0();
    Mixed16();
    Mixes(16); Mixes(17); Mixes(18); Mixes(19);
    Mixes(20); Mixes(21); Mixes(22); Mixes(23);
  }

  lemma Words3()
    ensures Words(16, W2) && Words(24, W3)
  {
    hide At, Mix;
    Words2();
    Mixed24();
    Mixes(24); Mixes(25); Mixes(26); Mixes(27);
    Mixes(28); Mixes(29); Mixes(30); Mixes(31);
  }

  lemma Words4()
    ensures Words(24, W3) && Words(32, W4)
  {
    hide At, Mix;
    Words3();
    Mixed32();
    Mixes(32); Mixes(33); Mixes(34); Mixes(35);
    Mixes(36); Mixes(37); Mixes(38); Mixes(39);
  }

  lemma Words5()
    ensures Words(32, W4) && Words(40, W5)
  {
    hide At, Mix;
    Words4();
    Mixed40();
    Mixes(40); Mixes(41); Mixes(42); Mixes(43);
    Mixes(44); Mixes(45); Mixes(46); Mixes(47);
  }

  lemma Words6()
    ensures Words(40, W5) && Words(48, W6)
  {
    hide At, Mix;
    Words5();
    Mixed48();
    Mixes(48); Mixes(49); Mixes(50); Mixes(51);
    Mixes(52); Mixes(53); Mixes(54); Mixes(55);
  }

  lemma Words7()
    ensures Words(48, W6) && Words(56, W7)
  {
    hide At, Mix;
    Words6();
    Mixed56();
    Mixes(56); Mixes(57); Mixes(58); Mixes(59);
    Mixes(60); Mixes(61); Mixes(62); Mixes(63);
  }

  // ----- the rounds -----

  lemma Rounds0()
    ensures Round(V0, 0x428a2f98, 0x61626380) == V1
    ensures Round(V1, 0x71374491, 0x00000000) == V2
    ensures Round(V2, 0xb5c0fbcf, 0x00000000) == V3
    ensures Round(V3, 0xe9b5dba5, 0x00000000) == V4
    ensures Round(V4, 0x3956c25b, 0x00000000) == V5
    ensures Round(V5, 0x59f111f1, 0x00000000) == V6
    ensures Round(V6, 0x923f82a4, 0x00000000) == V7
    ensures Round(V7, 0xab1c5ed5, 0x00000000) == V8
  {
  }

  lemma Rounds8()
    ensures Round(V8, 0xd807aa98, 0x00000000) == V9
    ensures Round(V9, 0x12835b01, 0x00000000) == V10
    ensures Round(V10, 0x243185be, 0x00000000) == V11
    ensures Round(V11, 0x550c7dc3, 0x00000000) == V12
    ensures Round(V12, 0x72be5d74, 0x00000000) == V13
    ensures Round(V13, 0x80deb1fe, 0x00000000) == V14
    ensures Round(V14, 0x9bdc06a7, 0x00000000) == V15
    ensures Round(V15, 0xc19bf174, 0x00000018) == V16
  {
  }

  lemma Rounds16()
    ensures Round(V16, 0xe49b69c1, 0x61626380) == V17
    ensures Round(V17, 0xefbe4786, 0x000f0000) == V18
    ensures Round(V18, 0x0fc19dc6, 0x7da86405) == V19
    ensures Round(V19, 0x240ca1cc, 0x600003c6) == V20
    ensures Round(V20, 0x2de92c6f, 0x3e9d7b78) == V21
    ensures Round(V21, 0x4a7484aa, 0x0183fc00) == V22
    ensures Round(V22, 0x5cb0a9dc, 0x12dcbfdb) == V23
    ensures Round(V23, 0x76f988da, 0xe2e2c38e) == V24
  {
  }

  lemma Rounds24()
    ensures Round(V24, 0x983e5152, 0xc8215c1a) == V25
    ensures Round(V25, 0xa831c66d, 0xb73679a2) == V26
    ensures Round(V26, 0xb00327c8, 0xe5bc3909) == V27
    ensures Round(V27, 0xbf597fc7, 0x32663c5b) == V28
    ensures Round(V28, 0xc6e00bf3, 0x9d209d67) == V29
    ensures Round(V29, 0xd5a79147, 0xec8726cb) == V30
    ensures Round(V30, 0x06ca6351, 0x702138a4) == V31
    ensures Round(V31, 0x14292967, 0xd3b7973b) == V32
  {
  }

  lemma Rounds32()
    ensures Round(V32, 0x27b70a85, 0x93f5997f) == V33
    ensures Round(V33, 0x2e1b2138, 0x3b68ba73) == V34
    ensures Round(V34, 0x4d2c6dfc, 0xaff4ffc1) == V35
    ensures Round(V35, 0x53380d13, 0xf10a5c62) == V36
    ensures Round(V36, 0x650a7354, 0x0a8b3996) == V37
    ensures Round(V37, 0x766a0abb, 0x72af830a) == V38
    ensures Round(V38, 0x81c2c92e, 0x9409e33e) == V39
    ensures Round(V39, 0x92722c85, 0x24641522) == V40
  {
  }

  lemma Rounds40()
    ensures Round(V40, 0xa2bfe8a1, 0x9f47bf94) == V41
    ensures Round(V41, 0xa81a664b, 0xf0a64f5a) == V42
    ensures Round(V42, 0xc24b8b70, 0x3e246a79) == V43
    ensures Round(V43, 0xc76c51a3, 0x27333ba3) == V44
    ensures Round(V44, 0xd192e819, 0x0c4763f2) == V45
    ensures Round(V45, 0xd6990624, 0x840abf27) == V46
    ensures Round(V46, 0xf40e3585, 0x7a290d5d) == V47
    ensures Round(V47, 0x106aa070, 0x065c43da) == V48
  {
  }

  lemma Rounds48()
    ensures Round(V48, 0x19a4c116, 0xfb3e89cb) == V49
    ensures Round(V49, 0x1e376c08, 0xcc7617db) == V50
    ensures Round(V50, 0x2748774c, 0xb9e66c34) == V51
    ensures Round(V51, 0x34b0bcb5, 0xa9993667) == V52
    ensures Round(V52, 0x391c0cb3, 0x84badedd) == V53
    ensures Round(V53, 0x4ed8aa4a, 0xc21462bc) == V54
    ensures Round(V54, 0x5b9cca4f, 0x1487472c) == V55
    ensures Round(V55, 0x682e6ff3, 0xb20f7a99) == V56
  {
  }

  lemma Rounds56()
    ensures Round(V56, 0x748f82ee, 0xef57b9cd) == V57
    ensures Round(V57, 0x78a5636f, 0xebe6b238) == V58
    ensures Round(V58, 0x84c87814, 0x9fe3095e) == V59
    ensures Round(V59, 0x8cc70208, 0x78bc8d4b) == V60
    ensures Round(V60, 0x90befffa, 0xa43fcf15) == V61
    ensures Round(V61, 0xa4506ceb, 0x668b2ff8) == V62
    ensures Round(V62, 0xbef9a3f7, 0xeeaba2cc) == V63
    ensures Round(V63, 0xc67178f2, 0x12b1edeb) == V64
  {
  }

  /** The working variables after n rounds. */
  function After(n: nat): (v: Vars)
    requires n <= 64
  {
    if |Pad(ABC)| == 64 then Rounds(V0, Pad(ABC), n) else V0
  }

  lemma NextRound(n: nat)
    requires n < 64
    ensures |K| == 64 && After(n + 1) == Round(After(n), K[n], At(n))
  {
    OneBlock();
    KRows(n);
    hide Pad, Round, K, Schedule;
  }

  lemma After8()
    ensures After(8) == V8
  {
    hide After, At, Round, K;
    NoRounds();
    Words0();
    Rounds0();
    NextRound(0); NextRound(1); NextRound(2); NextRound(3);
    NextRound(4); NextRound(5); NextRound(6); NextRound(7);
    KRows(0); KRows(1); KRows(2); KRows(3);
    KRows(4); KRows(5); KRows(6); KRows(7);
  }

  lemma After16()
    ensures After(16) == V16
  {
    hide After, At, Round, K;
    After8();
    Words2();
    Rounds8();
    NextRound(8); NextRound(9); NextRound(10); NextRound(11);
    NextRound(12); NextRound(13); NextRound(14); NextRound(15);
    KRows(8); KRows(9); KRows(10); KRows(11);
    KRows(12); KRows(13); KRows(14); KRows(15);
  }

  lemma After24()
    ensures After(24) == V24
  {
    hide After, At, Round, K;
    After16();
    Words2();
    Rounds16();
    NextRound(16); NextRound(17); NextRound(18); NextRound(19);
    NextRound(20); NextRound(21); NextRound(22); NextRound(23);
    KRows(16); KRows(17); KRows(18); KRows(19);
    KRows(20); KRows(21); KRows(22); KRows(23);
  }

  lemma After32()
    ensures After(32) == V32
  {
    hide After, At, Round, K;
    After24();
    Words3();
    Rounds24();
    NextRound(24); NextRound(25); NextRound(26); NextRound(27);
    NextRound(28); NextRound(29); NextRound(30); NextRound(31);
    KRows(24); KRows(25); KRows(26); KRows(27);
    KRows(28); KRows(29); KRows(30); KRows(31);
  }

  lemma After40()
    ensures After(40) == V40
  {
    hide After, At, Round, K;
    After32();
    Words4();
    Rounds32();
    NextRound(32); NextRound(33); NextRound(34); NextRound(35);
    NextRound(36); NextRound(37); NextRound(38); NextRound(39);
    KRows(32); KRows(33); KRows(34); KRows(35);
    KRows(36); KRows(37); KRows(38); KRows(39);
  }

  lemma After48()
    ensures After(48) == V48
  {
    hide After, At, Round, K;
    After40();
    Words5();
    Rounds40();
    NextRound(40); NextRound(41); NextRound(42); NextRound(43);
    NextRound(44); NextRound(45); NextRound(46); NextRound(47);
    KRows(40); KRows(41); KRows(42); KRows(43);
    KRows(44); KRows(45); KRows(46); KRows(47);
  }

  lemma After56()
    ensures After(56) == V56
  {
    hide After, At, Round, K;
    After48();
    Words6();
    Rounds48();
    NextRound(48); NextRound(49); NextRound(50); NextRound(51);
    NextRound(52); NextRound(53); NextRound(54); NextRound(55);
    KRows(48); KRows(49); KRows(50); KRows(51);
    KRows(52); KRows(53); KRows(54); KRows(55);
  }

  lemma After64()
    ensures After(64) == V64
  {
    hide After, At, Round, K;
    After56();
    Words7();
    Rounds56();
    NextRound(56); NextRound(57); NextRound(58); NextRound(59);
    NextRound(60); NextRound(61); NextRound(62); NextRound(63);
    KRows(56); KRows(57); KRows(58); KRows(59);
    KRows(60); KRows(61); KRows(62); KRows(63);
  }

  lemma NoRounds()
    ensures After(0) == V0
  {
  }

  // ----- the digest -----

  lemma Compressed()
    ensures |Pad(ABC)| == 64
    ensures Compress(IV, Pad(ABC)) == SUM
  {
    OneBlock();
    After64();
    hide Pad, Rounds;
  }

  const SUM: seq<Word> := [
    0xba7816bf, 0x8f01cfea, 0x414140de, 0x5dae2223, 0xb00361a3, 0x96177a9c, 0xb410ff61, 0xf20015ad]

  /** The digest of "abc". */
  lemma DigestOfAbc()
    ensures Digest(ABC) == [
      0xba, 0x78, 0x16, 0xbf, 0x8f, 0x01, 0xcf, 0xea,
      0x41, 0x41, 0x40, 0xde, 0x5d, 0xae, 0x22, 0x23,
      0xb0, 0x03, 0x61, 0xa3, 0x96, 0x17, 0x7a, 0x9c,
      0xb4, 0x10, 0xff, 0x61, 0xf2, 0x00, 0x15, 0xad]
  {
    Compressed();
    hide Compress, Pad;
    var m := Pad(ABC);
    assert m[..64] == m && m[64..] == [];
    assert Absorb(IV, m) == SUM;
    SumBytes();
  }

  lemma SumBytes()
    ensures WordsToBytes(SUM) == [
      0xba, 0x78, 0x16, 0xbf, 0x8f, 0x01, 0xcf, 0xea,
      0x41, 0x41, 0x40, 0xde, 0x5d, 0xae, 0x22, 0x23,
      0xb0, 0x03, 0x61, 0xa3, 0x96, 0x17, 0x7a, 0x9c,
      0xb4, 0x10, 0xff, 0x61, 0xf2, 0x00, 0x15, 0xad]
  {
  }

  const V0 := Vars(0x6a09e667, 0xbb67ae85, 0x3c6ef372, 0xa54ff53a, 0x510e527f, 0x9b05688c, 0x1f83d9ab, 0x5be0cd19)
  const V1 := Vars(0x5d6aebcd, 0x6a09e667, 0xbb67ae85, 0x3c6ef372, 0xfa2a4622, 0x510e527f, 0x9b05688c, 0x1f83d9ab)
  const V2 := Vars(0x5a6ad9ad, 0x5d6aebcd, 0x6a09e667, 0xbb67ae85, 0x78ce7989, 0xfa2a4622, 0x510e527f, 0x9b05688c)
  const V3 := Vars(0xc8c347a7, 0x5a6ad9ad, 0x5d6aebcd, 0x6a09e667, 0xf92939eb, 0x78ce7989, 0xfa2a4622, 0x510e527f)
  const V4 := Vars(0xd550f666, 0xc8c347a7, 0x5a6ad9ad, 0x5d6aebcd, 0x24e00850, 0xf92939eb, 0x78ce7989, 0xfa2a4622)
  const V5 := Vars(0x04409a6a, 0xd550f666, 0xc8c347a7, 0x5a6ad9ad, 0x43ada245, 0x24e00850, 0xf92939eb, 0x78ce7989)
  const V6 := Vars(0x2b4209f5, 0x04409a6a, 0xd550f666, 0xc8c347a7, 0x714260ad, 0x43ada245, 0x24e00850, 0xf92939eb)
  const V7 := Vars(0xe5030380, 0x2b4209f5, 0x04409a6a, 0xd550f666, 0x9b27a401, 0x714260ad, 0x43ada245, 0x24e00850)
  const V8 := Vars(0x85a07b5f, 0xe5030380, 0x2b4209f5, 0x04409a6a, 0x0c657a79, 0x9b27a401, 0x714260ad, 0x43ada245)
  const V9 := Vars(0x8e04ecb9, 0x85a07b5f, 0xe5030380, 0x2b4209f5, 0x32ca2d8c, 0x0c657a79, 0x9b27a401, 0x714260ad)
  const V10 := Vars(0x8c87346b, 0x8e04ecb9, 0x85a07b5f, 0xe5030380, 0x1cc92596, 0x32ca2d8c, 0x0c657a79, 0x9b27a401)
  const V11 := Vars(0x4798a3f4, 0x8c87346b, 0x8e04ecb9, 0x85a07b5f, 0x436b23e8, 0x1cc92596, 0x32ca2d8c, 0x0c657a79)
  const V12 := Vars(0xf71fc5a9, 0x4798a3f4, 0x8c87346b, 0x8e04ecb9, 0x816fd6e9, 0x436b23e8, 0x1cc92596, 0x32ca2d8c)
  const V13 := Vars(0x87912990, 0xf71fc5a9, 0x4798a3f4, 0x8c87346b, 0x1e578218, 0x816fd6e9, 0x436b23e8, 0x1cc92596)
  const V14 := Vars(0xd932eb16, 0x87912990, 0xf71fc5a9, 0x4798a3f4, 0x745a48de, 0x1e578218, 0x816fd6e9, 0x436b23e8)
  const V15 := Vars(0xc0645fde, 0xd932eb16, 0x87912990, 0xf71fc5a9, 0x0b92f20c, 0x745a48de, 0x1e578218, 0x816fd6e9)
  const V16 := Vars(0xb0fa238e, 0xc0645fde, 0xd932eb16, 0x87912990, 0x07590dcd, 0x0b92f20c, 0x745a48de, 0x1e578218)
  const V17 := Vars(0x21da9a9b, 0xb0fa238e, 0xc0645fde, 0xd932eb16, 0x8034229c, 0x07590dcd, 0x0b92f20c, 0x745a48de)
  const V18 := Vars(0xc2fbd9d1, 0x21da9a9b, 0xb0fa238e, 0xc0645fde, 0x846ee454, 0x8034229c, 0x07590dcd, 0x0b92f20c)
  const V19 := Vars(0xfe777bbf, 0xc2fbd9d1, 0x21da9a9b, 0xb0fa238e, 0xcc899961, 0x846ee454, 0x8034229c, 0x07590dcd)
  const V20 := Vars(0xe1f20c33, 0xfe777bbf, 0xc2fbd9d1, 0x21da9a9b, 0xb0638179, 0xcc899961, 0x846ee454, 0x8034229c)
  const V21 := Vars(0x9dc68b63, 0xe1f20c33, 0xfe777bbf, 0xc2fbd9d1, 0x8ada8930, 0xb0638179, 0xcc899961, 0x846ee454)
  const V22 := Vars(0xc2606d6d, 0x9dc68b63, 0xe1f20c33, 0xfe777bbf, 0xe1257970, 0x8ada8930, 0xb0638179, 0xcc899961)
  const V23 := Vars(0xa7a3623f, 0xc2606d6d, 0x9dc68b63, 0xe1f20c33, 0x49f5114a, 0xe1257970, 0x8ada8930, 0xb0638179)
  const V24 := Vars(0xc5d53d8d, 0xa7a3623f, 0xc2606d6d, 0x9dc68b63, 0xaa47c347, 0x49f5114a, 0xe1257970, 0x8ada8930)
  const V25 := Vars(0x1c2c2838, 0xc5d53d8d, 0xa7a3623f, 0xc2606d6d, 0x2823ef91, 0xaa47c347, 0x49f5114a, 0xe1257970)
  const V26 := Vars(0xcde8037d, 0x1c2c2838, 0xc5d53d8d, 0xa7a3623f, 0x14383d8e, 0x2823ef91, 0xaa47c347, 0x49f5114a)
  const V27 := Vars(0xb62ec4bc, 0xcde8037d, 0x1c2c2838, 0xc5d53d8d, 0xc74c6516, 0x14383d8e, 0x2823ef91, 0xaa47c347)
  const V28 := Vars(0x77d37528, 0xb62ec4bc, 0xcde8037d, 0x1c2c2838, 0xedffbff8, 0xc74c6516, 0x14383d8e, 0x2823ef91)
  const V29 := Vars(0x363482c9, 0x77d37528, 0xb62ec4bc, 0xcde8037d, 0x6112a3b7, 0xedffbff8, 0xc74c6516, 0x14383d8e)
  const V30 := Vars(0xa0060b30, 0x363482c9, 0x77d37528, 0xb62ec4bc, 0xade79437, 0x6112a3b7, 0xedffbff8, 0xc74c6516)
  const V31 := Vars(0xea992a22, 0xa0060b30, 0x363482c9, 0x77d37528, 0x0109ab3a, 0xade79437, 0x6112a3b7, 0xedffbff8)
  const V32 := Vars(0x73b33bf5, 0xea992a22, 0xa0060b30, 0x363482c9, 0xba591112, 0x0109ab3a, 0xade79437, 0x6112a3b7)
  const V33 := Vars(0x98e12507, 0x73b33bf5, 0xea992a22, 0xa0060b30, 0x9cd9f5f6, 0xba591112, 0x0109ab3a, 0xade79437)
  const V34 := Vars(0xfe604df5, 0x98e12507, 0x73b33bf5, 0xea992a22, 0x59249dd3, 0x9cd9f5f6, 0xba591112, 0x0109ab3a)
  const V35 := Vars(0xa9a7738c, 0xfe604df5, 0x98e12507, 0x73b33bf5, 0x085f3833, 0x59249dd3, 0x9cd9f5f6, 0xba591112)
  const V36 := Vars(0x65a0cfe4, 0xa9a7738c, 0xfe604df5, 0x98e12507, 0xf4b002d6, 0x085f3833, 0x59249dd3, 0x9cd9f5f6)
  const V37 := Vars(0x41a65cb1, 0x65a0cfe4, 0xa9a7738c, 0xfe604df5, 0x0772a26b, 0xf4b002d6, 0x085f3833, 0x59249dd3)
  const V38 := Vars(0x34df1604, 0x41a65cb1, 0x65a0cfe4, 0xa9a7738c, 0xa507a53d, 0x0772a26b, 0xf4b002d6, 0x085f3833)
  const V39 := Vars(0x6dc57a8a, 0x34df1604, 0x41a65cb1, 0x65a0cfe4, 0xf0781bc8, 0xa507a53d, 0x0772a26b, 0xf4b002d6)
  const V40 := Vars(0x79ea687a, 0x6dc57a8a, 0x34df1604, 0x41a65cb1, 0x1efbc0a0, 0xf0781bc8, 0xa507a53d, 0x0772a26b)
  const V41 := Vars(0xd6670766, 0x79ea687a, 0x6dc57a8a, 0x34df1604, 0x26352d63, 0x1efbc0a0, 0xf0781bc8, 0xa507a53d)
  const V42 := Vars(0xdf46652f, 0xd6670766, 0x79ea687a, 0x6dc57a8a, 0x838b2711, 0x26352d63, 0x1efbc0a0, 0xf0781bc8)
  const V43 := Vars(0x17aa0dfe, 0xdf46652f, 0xd6670766, 0x79ea687a, 0xdecd4715, 0x838b2711, 0x26352d63, 0x1efbc0a0)
  const V44 := Vars(0x9d4baf93, 0x17aa0dfe, 0xdf46652f, 0xd6670766, 0xfda24c2e, 0xdecd4715, 0x838b2711, 0x26352d63)
  const V45 := Vars(0x26628815, 0x9d4baf93, 0x17aa0dfe, 0xdf46652f, 0xa80f11f0, 0xfda24c2e, 0xdecd4715, 0x838b2711)
  const V46 := Vars(0x72ab4b91, 0x26628815, 0x9d4baf93, 0x17aa0dfe, 0xb7755da1, 0xa80f11f0, 0xfda24c2e, 0xdecd4715)
  const V47 := Vars(0xa14c14b0, 0x72ab4b91, 0x26628815, 0x9d4baf93, 0xd57b94a9, 0xb7755da1, 0xa80f11f0, 0xfda24c2e)
  const V48 := Vars(0x4172328d, 0xa14c14b0, 0x72ab4b91, 0x26628815, 0xfecf0bc6, 0xd57b94a9, 0xb7755da1, 0xa80f11f0)
  const V49 := Vars(0x05757ceb, 0x4172328d, 0xa14c14b0, 0x72ab4b91, 0xbd714038, 0xfecf0bc6, 0xd57b94a9, 0xb7755da1)
  const V50 := Vars(0xf11bfaa8, 0x05757ceb, 0x4172328d, 0xa14c14b0, 0x6e5c390c, 0xbd714038, 0xfecf0bc6, 0xd57b94a9)
  const V51 := Vars(0x7a0508a1, 0xf11bfaa8, 0x05757ceb, 0x4172328d, 0x52f1ccf7, 0x6e5c390c, 0xbd714038, 0xfecf0bc6)
  const V52 := Vars(0x886e7a22, 0x7a0508a1, 0xf11bfaa8, 0x05757ceb, 0x49231c1e, 0x52f1ccf7, 0x6e5c390c, 0xbd714038)
  const V53 := Vars(0x101fd28f, 0x886e7a22, 0x7a0508a1, 0xf11bfaa8, 0x529e7d00, 0x49231c1e, 0x52f1ccf7, 0x6e5c390c)
  const V54 := Vars(0xf5702fdb, 0x101fd28f, 0x886e7a22, 0x7a0508a1, 0x9f4787c3, 0x529e7d00, 0x49231c1e, 0x52f1ccf7)
  const V55 := Vars(0x3ec45cdb, 0xf5702fdb, 0x101fd28f, 0x886e7a22, 0xe50e1b4f, 0x9f4787c3, 0x529e7d00, 0x49231c1e)
  const V56 := Vars(0x38cc9913, 0x3ec45cdb, 0xf5702fdb, 0x101fd28f, 0x54cb266b, 0xe50e1b4f, 0x9f4787c3, 0x529e7d00)
  const V57 := Vars(0xfcd1887b, 0x38cc9913, 0x3ec45cdb, 0xf5702fdb, 0x9b5e906c, 0x54cb266b, 0xe50e1b4f, 0x9f4787c3)
  const V58 := Vars(0xc062d46f, 0xfcd1887b, 0x38cc9913, 0x3ec45cdb, 0x7e44008e, 0x9b5e906c, 0x54cb266b, 0xe50e1b4f)
  const V59 := Vars(0xffb70472, 0xc062d46f, 0xfcd1887b, 0x38cc9913, 0x6d83bfc6, 0x7e44008e, 0x9b5e906c, 0x54cb266b)
  const V60 := Vars(0xb6ae8fff, 0xffb70472, 0xc062d46f, 0xfcd1887b, 0xb21bad3d, 0x6d83bfc6, 0x7e44008e, 0x9b5e906c)
  const V61 := Vars(0xb85e2ce9, 0xb6ae8fff, 0xffb70472, 0xc062d46f, 0x961f4894, 0xb21bad3d, 0x6d83bfc6, 0x7e44008e)
  const V62 := Vars(0x04d24d6c, 0xb85e2ce9, 0xb6ae8fff, 0xffb70472, 0x948d25b6, 0x961f4894, 0xb21bad3d, 0x6d83bfc6)
  const V63 := Vars(0xd39a2165, 0x04d24d6c, 0xb85e2ce9, 0xb6ae8fff, 0xfb121210, 0x948d25b6, 0x961f4894, 0xb21bad3d)
  const V64 := Vars(0x506e3058, 0xd39a2165, 0x04d24d6c, 0xb85e2ce9, 0x5ef50f24, 0xfb121210, 0x948d25b6, 0x961f4894)
}

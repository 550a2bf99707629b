/**
 The table-driven CRC-32 of shared/crc32-util.c against the shift register it speeds up: one
 message bit at a time, least significant bit first, polynomial 0xedb88320.
 */
module Crc32 {

  function Xor(x: bv32, y: bv32): (r: bv32) { x ^ y }

  function Not(x: bv32): (r: bv32) { !x }

  function Half(w: bv32): (r: bv32) { w >> 1 }

  predicate Odd(w: bv32) { w & 1 == 1 }

  // ----- the shift register -----

  function Shift(c: bv32): (r: bv32)
  {
    if Odd(c) then Xor(Half(c), 0xedb88320) else Half(c)
  }

  /** One message bit enters the register. */
  function FeedBit(c: bv32, bit: bool): (r: bv32)
  {
    Shift(if bit then Xor(c, 1) else c)
  }

  function FeedBits(c: bv32, bits: seq<bool>): (r: bv32)
    decreases |bits|
  {
    if bits == [] then c else FeedBits(FeedBit(c, bits[0]), bits[1..])
  }

  /** The `n` low bits of a word, in the order they enter. */
  function LowBits(w: bv32, n: nat): (bits: seq<bool>)
    ensures |bits| == n
  {
    if n == 0 then [] else [Odd(w)] + LowBits(Half(w), n - 1)
  }

  function Bits(data: seq<bv8>): (bits: seq<bool>)
    ensures |bits| == 8 * |data|
  {
    if data == [] then [] else LowBits(data[0] as bv32, 8) + Bits(data[1..])
  }

  /** The CRC of a bit string that continues the CRC `crc`. */
  function SerialCrc(crc: bv32, bits: seq<bool>): (r: bv32)
  {
    Not(FeedBits(Not(crc), bits))
  }

  lemma {:induction false} FeedBitsConcat(c: bv32, x: seq<bool>, y: seq<bool>)
    ensures FeedBits(c, x + y) == FeedBits(FeedBits(c, x), y)
    decreases |x|
  {
    if x == [] {
      assert x + y == y;
    } else {
      assert (x + y)[1..] == x[1..] + y;
      FeedBitsConcat(FeedBit(c, x[0]), x[1..], y);
    }
  }

  lemma {:induction false} BitsConcat(x: seq<bv8>, y: seq<bv8>)
    ensures Bits(x + y) == Bits(x) + Bits(y)
  {
    if x == [] {
      assert x + y == y;
    } else {
      assert (x + y)[1..] == x[1..] + y;
      BitsConcat(x[1..], y);
    }
  }

  // ----- the table -----

  const ROW0: seq<bv32> := [
    0x00000000, 0x77073096, 0xee0e612c, 0x990951ba, 0x076dc419, 0x706af48f, 0xe963a535, 0x9e6495a3,
    0x0edb8832, 0x79dcb8a4, 0xe0d5e91e, 0x97d2d988, 0x09b64c2b, 0x7eb17cbd, 0xe7b82d07, 0x90bf1d91
  ]
  const ROW1: seq<bv32> := [
    0x1db71064, 0x6ab020f2, 0xf3b97148, 0x84be41de, 0x1adad47d, 0x6ddde4eb, 0xf4d4b551, 0x83d385c7,
    0x136c9856, 0x646ba8c0, 0xfd62f97a, 0x8a65c9ec, 0x14015c4f, 0x63066cd9, 0xfa0f3d63, 0x8d080df5
  ]
  const ROW2: seq<bv32> := [
    0x3b6e20c8, 0x4c69105e, 0xd56041e4, 0xa2677172, 0x3c03e4d1, 0x4b04d447, 0xd20d85fd, 0xa50ab56b,
    0x35b5a8fa, 0x42b2986c, 0xdbbbc9d6, 0xacbcf940, 0x32d86ce3, 0x45df5c75, 0xdcd60dcf, 0xabd13d59
  ]
  const ROW3: seq<bv32> := [
    0x26d930ac, 0x51de003a, 0xc8d75180, 0xbfd06116, 0x21b4f4b5, 0x56b3c423, 0xcfba9599, 0xb8bda50f,
    0x2802b89e, 0x5f058808, 0xc60cd9b2, 0xb10be924, 0x2f6f7c87, 0x58684c11, 0xc1611dab, 0xb6662d3d
  ]
  const ROW4: seq<bv32> := [
    0x76dc4190, 0x01db7106, 0x98d220bc, 0xefd5102a, 0x71b18589, 0x06b6b51f, 0x9fbfe4a5, 0xe8b8d433,
    0x7807c9a2, 0x0f00f934, 0x9609a88e, 0xe10e9818, 0x7f6a0dbb, 0x086d3d2d, 0x91646c97, 0xe6635c01
  ]
  const ROW5: seq<bv32> := [
    0x6b6b51f4, 0x1c6c6162, 0x856530d8, 0xf262004e, 0x6c0695ed, 0x1b01a57b, 0x8208f4c1, 0xf50fc457,
    0x65b0d9c6, 0x12b7e950, 0x8bbeb8ea, 0xfcb9887c, 0x62dd1ddf, 0x15da2d49, 0x8cd37cf3, 0xfbd44c65
  ]
  const ROW6: seq<bv32> := [
    0x4db26158, 0x3ab551ce, 0xa3bc0074, 0xd4bb30e2, 0x4adfa541, 0x3dd895d7, 0xa4d1c46d, 0xd3d6f4fb,
    0x4369e96a, 0x346ed9fc, 0xad678846, 0xda60b8d0, 0x44042d73, 0x33031de5, 0xaa0a4c5f, 0xdd0d7cc9
  ]
  const ROW7: seq<bv32> := [
    0x5005713c, 0x270241aa, 0xbe0b1010, 0xc90c2086, 0x5768b525, 0x206f85b3, 0xb966d409, 0xce61e49f,
    0x5edef90e, 0x29d9c998, 0xb0d09822, 0xc7d7a8b4, 0x59b33d17, 0x2eb40d81, 0xb7bd5c3b, 0xc0ba6cad
  ]
  const ROW8: seq<bv32> := [
    0xedb88320, 0x9abfb3b6, 0x03b6e20c, 0x74b1d29a, 0xead54739, 0x9dd277af, 0x04db2615, 0x73dc1683,
    0xe3630b12, 0x94643b84, 0x0d6d6a3e, 0x7a6a5aa8, 0xe40ecf0b, 0x9309ff9d, 0x0a00ae27, 0x7d079eb1
  ]
  const ROW9: seq<bv32> := [
    0xf00f9344, 0x8708a3d2, 0x1e01f268, 0x6906c2fe, 0xf762575d, 0x806567cb, 0x196c3671, 0x6e6b06e7,
    0xfed41b76, 0x89d32be0, 0x10da7a5a, 0x67dd4acc, 0xf9b9df6f, 0x8ebeeff9, 0x17b7be43, 0x60b08ed5
  ]
  const ROWA: seq<bv32> := [
    0xd6d6a3e8, 0xa1d1937e, 0x38d8c2c4, 0x4fdff252, 0xd1bb67f1, 0xa6bc5767, 0x3fb506dd, 0x48b2364b,
    0xd80d2bda, 0xaf0a1b4c, 0x36034af6, 0x41047a60, 0xdf60efc3, 0xa867df55, 0x316e8eef, 0x4669be79
  ]
  const ROWB: seq<bv32> := [
    0xcb61b38c, 0xbc66831a, 0x256fd2a0, 0x5268e236, 0xcc0c7795, 0xbb0b4703, 0x220216b9, 0x5505262f,
    0xc5ba3bbe, 0xb2bd0b28, 0x2bb45a92, 0x5cb36a04, 0xc2d7ffa7, 0xb5d0cf31, 0x2cd99e8b, 0x5bdeae1d
  ]
  const ROWC: seq<bv32> := [
    0x9b64c2b0, 0xec63f226, 0x756aa39c, 0x026d930a, 0x9c0906a9, 0xeb0e363f, 0x72076785, 0x05005713,
    0x95bf4a82, 0xe2b87a14, 0x7bb12bae, 0x0cb61b38, 0x92d28e9b, 0xe5d5be0d, 0x7cdcefb7, 0x0bdbdf21
  ]
  const ROWD: seq<bv32> := [
    0x86d3d2d4, 0xf1d4e242, 0x68ddb3f8, 0x1fda836e, 0x81be16cd, 0xf6b9265b, 0x6fb077e1, 0x18b74777,
    0x88085ae6, 0xff0f6a70, 0x66063bca, 0x11010b5c, 0x8f659eff, 0xf862ae69, 0x616bffd3, 0x166ccf45
  ]
  const ROWE: seq<bv32> := [
    0xa00ae278, 0xd70dd2ee, 0x4e048354, 0x3903b3c2, 0xa7672661, 0xd06016f7, 0x4969474d, 0x3e6e77db,
    0xaed16a4a, 0xd9d65adc, 0x40df0b66, 0x37d83bf0, 0xa9bcae53, 0xdebb9ec5, 0x47b2cf7f, 0x30b5ffe9
  ]
  const ROWF: seq<bv32> := [
    0xbdbdf21c, 0xcabac28a, 0x53b39330, 0x24b4a3a6, 0xbad03605, 0xcdd70693, 0x54de5729, 0x23d967bf,
    0xb3667a2e, 0xc4614ab8, 0x5d681b02, 0x2a6f2b94, 0xb40bbe37, 0xc30c8ea1, 0x5a05df1b, 0x2d02ef8d
  ]

  const ROWS: seq<seq<bv32>> := [ROW0, ROW1, ROW2, ROW3, ROW4, ROW5, ROW6, ROW7, ROW8, ROW9, ROWA, ROWB, ROWC, ROWD,
      ROWE, ROWF]

  /** crc32_tab[i], in rows of sixteen. */
  function Table(i: nat): (r: bv32)
    requires i < 256
  {
    Row(i / 16)[i % 16]
  }

  function Row(h: nat): (r: seq<bv32>)
    requires h < 16
    ensures |r| == 16
  {
    ROWS[h]
  }

  function Shift8(c: bv32): (r: bv32)
  {
    Shift(Shift(Shift(Shift(Shift(Shift(Shift(Shift(c))))))))
  }

  /** Eight shifts of some constants. */
  lemma ShiftsLow0()
    ensures Shift8(0x00) == 0x00000000
    ensures Shift8(0x01) == 0x77073096
    ensures Shift8(0x02) == 0xee0e612c
    ensures Shift8(0x03) == 0x990951ba
  {
  }

  lemma ShiftsLow4()
    ensures Shift8(0x04) == 0x076dc419
    ensures Shift8(0x05) == 0x706af48f
    ensures Shift8(0x06) == 0xe963a535
    ensures Shift8(0x07) == 0x9e6495a3
  {
  }

  lemma ShiftsLow8()
    ensures Shift8(0x08) == 0x0edb8832
    ensures Shift8(0x09) == 0x79dcb8a4
    ensures Shift8(0x0a) == 0xe0d5e91e
    ensures Shift8(0x0b) == 0x97d2d988
  {
  }

  lemma ShiftsLowC()
    ensures Shift8(0x0c) == 0x09b64c2b
    ensures Shift8(0x0d) == 0x7eb17cbd
    ensures Shift8(0x0e) == 0xe7b82d07
    ensures Shift8(0x0f) == 0x90bf1d91
  {
  }

  lemma ShiftsHigh0()
    ensures Shift8(0x00) == 0x00000000
    ensures Shift8(0x10) == 0x1db71064
    ensures Shift8(0x20) == 0x3b6e20c8
    ensures Shift8(0x30) == 0x26d930ac
  {
  }

  lemma ShiftsHigh4()
    ensures Shift8(0x40) == 0x76dc4190
    ensures Shift8(0x50) == 0x6b6b51f4
    ensures Shift8(0x60) == 0x4db26158
    ensures Shift8(0x70) == 0x5005713c
  {
  }

  lemma ShiftsHigh8()
    ensures Shift8(0x80) == 0xedb88320
    ensures Shift8(0x90) == 0xf00f9344
    ensures Shift8(0xa0) == 0xd6d6a3e8
    ensures Shift8(0xb0) == 0xcb61b38c
  {
  }

  lemma ShiftsHighC()
    ensures Shift8(0xc0) == 0x9b64c2b0
    ensures Shift8(0xd0) == 0x86d3d2d4
    ensures Shift8(0xe0) == 0xa00ae278
    ensures Shift8(0xf0) == 0xbdbdf21c
  {
  }

  /** The first row is eight shifts of its index. */
  lemma LowEntry(l: bv8)
    requires l < 16
    ensures ROW0[l as nat] == Shift8(l as bv32)
  {
    hide Shift8;
    if l < 8 { LowEntry0(l); } else { LowEntry8(l); }
  }

  lemma LowEntry0(l: bv8)
    requires 0 <= l < 8
    ensures ROW0[l as nat] == Shift8(l as bv32)
  {
    hide Shift8;
    ShiftsLow0();
    ShiftsLow4();
    if l == 0 { assert ROW0[0] == Shift8(0); }
    else if l == 1 { assert ROW0[1] == Shift8(1); }
    else if l == 2 { assert ROW0[2] == Shift8(2); }
    else if l == 3 { assert ROW0[3] == Shift8(3); }
    else if l == 4 { assert ROW0[4] == Shift8(4); }
    else if l == 5 { assert ROW0[5] == Shift8(5); }
    else if l == 6 { assert ROW0[6] == Shift8(6); }
    else if l == 7 { assert ROW0[7] == Shift8(7); }
  }

  lemma LowEntry8(l: bv8)
    requires 8 <= l < 16
    ensures ROW0[l as nat] == Shift8(l as bv32)
  {
    hide Shift8;
    ShiftsLow8();
    ShiftsLowC();
    if l == 8 { assert ROW0[8] == Shift8(8); }
    else if l == 9 { assert ROW0[9] == Shift8(9); }
    else if l == 10 { assert ROW0[10] == Shift8(10); }
    else if l == 11 { assert ROW0[11] == Shift8(11); }
    else if l == 12 { assert ROW0[12] == Shift8(12); }
    else if l == 13 { assert ROW0[13] == Shift8(13); }
    else if l == 14 { assert ROW0[14] == Shift8(14); }
    else if l == 15 { assert ROW0[15] == Shift8(15); }
  }

  /** The first column is eight shifts of sixteen times the row. */
  lemma HighEntry(h: bv8)
    requires h < 16
    ensures Row(h as nat)[0] == Shift8(h as bv32 << 4)
  {
    hide Shift8, Row;
    if h < 8 { HighEntry0(h); } else { HighEntry8(h); }
  }

  lemma HighEntry0(h: bv8)
    requires 0 <= h < 8
    ensures Row(h as nat)[0] == Shift8(h as bv32 << 4)
  {
    hide Shift8;
    ShiftsHigh0();
    ShiftsHigh4();
    if h == 0 { assert Row(0)[0] == Shift8(0x00); }
    else if h == 1 { assert Row(1)[0] == Shift8(0x10); }
    else if h == 2 { assert Row(2)[0] == Shift8(0x20); }
    else if h == 3 { assert Row(3)[0] == Shift8(0x30); }
    else if h == 4 { assert Row(4)[0] == Shift8(0x40); }
    else if h == 5 { assert Row(5)[0] == Shift8(0x50); }
    else if h == 6 { assert Row(6)[0] == Shift8(0x60); }
    else if h == 7 { assert Row(7)[0] == Shift8(0x70); }
  }

  lemma HighEntry8(h: bv8)
    requires 8 <= h < 16
    ensures Row(h as nat)[0] == Shift8(h as bv32 << 4)
  {
    hide Shift8;
    ShiftsHigh8();
    ShiftsHighC();
    if h == 8 { assert Row(8)[0] == Shift8(0x80); }
    else if h == 9 { assert Row(9)[0] == Shift8(0x90); }
    else if h == 10 { assert Row(10)[0] == Shift8(0xa0); }
    else if h == 11 { assert Row(11)[0] == Shift8(0xb0); }
    else if h == 12 { assert Row(12)[0] == Shift8(0xc0); }
    else if h == 13 { assert Row(13)[0] == Shift8(0xd0); }
    else if h == 14 { assert Row(14)[0] == Shift8(0xe0); }
    else if h == 15 { assert Row(15)[0] == Shift8(0xf0); }
  }

  lemma RowXor1(l: nat)
    requires l < 16
    ensures ROW1[l] == Xor(ROW1[0], ROW0[l])
  {
  }

  lemma RowXor2(l: nat)
    requires l < 16
    ensures ROW2[l] == Xor(ROW2[0], ROW0[l])
  {
  }

  lemma RowXor3(l: nat)
    requires l < 16
    ensures ROW3[l] == Xor(ROW3[0], ROW0[l])
  {
  }

  lemma RowXor4(l: nat)
    requires l < 16
    ensures ROW4[l] == Xor(ROW4[0], ROW0[l])
  {
  }

  lemma RowXor5(l: nat)
    requires l < 16
    ensures ROW5[l] == Xor(ROW5[0], ROW0[l])
  {
  }

  lemma RowXor6(l: nat)
    requires l < 16
    ensures ROW6[l] == Xor(ROW6[0], ROW0[l])
  {
  }

  lemma RowXor7(l: nat)
    requires l < 16
    ensures ROW7[l] == Xor(ROW7[0], ROW0[l])
  {
  }

  lemma RowXor8(l: nat)
    requires l < 16
    ensures ROW8[l] == Xor(ROW8[0], ROW0[l])
  {
  }

  lemma RowXor9(l: nat)
    requires l < 16
    ensures ROW9[l] == Xor(ROW9[0], ROW0[l])
  {
  }

  lemma RowXorA(l: nat)
    requires l < 16
    ensures ROWA[l] == Xor(ROWA[0], ROW0[l])
  {
  }

  lemma RowXorB(l: nat)
    requires l < 16
    ensures ROWB[l] == Xor(ROWB[0], ROW0[l])
  {
  }

  lemma RowXorC(l: nat)
    requires l < 16
    ensures ROWC[l] == Xor(ROWC[0], ROW0[l])
  {
  }

  lemma RowXorD(l: nat)
    requires l < 16
    ensures ROWD[l] == Xor(ROWD[0], ROW0[l])
  {
  }

  lemma RowXorE(l: nat)
    requires l < 16
    ensures ROWE[l] == Xor(ROWE[0], ROW0[l])
  {
  }

  lemma RowXorF(l: nat)
    requires l < 16
    ensures ROWF[l] == Xor(ROWF[0], ROW0[l])
  {
  }

  lemma Nibbles(x: bv8)
    ensures x as nat == 16 * (HighNibble(x) as nat) + LowNibble(x) as nat
    ensures x as bv32 == Xor(HighNibble(x) as bv32 << 4, LowNibble(x) as bv32)
  {
  }

  lemma RowXor(h: nat, l: nat)
    requires h < 16 && l < 16
    ensures Row(h)[l] == Xor(Row(h)[0], ROW0[l])
  {
    hide Xor, ROW1, ROW2, ROW3, ROW4, ROW5, ROW6, ROW7, ROW8, ROW9, ROWA, ROWB, ROWC, ROWD, ROWE, ROWF;
    if h == 0 { XorZero(ROW0[l]); }
    else if h == 1 { RowXor1(l); }
    else if h == 2 { RowXor2(l); }
    else if h == 3 { RowXor3(l); }
    else if h == 4 { RowXor4(l); }
    else if h == 5 { RowXor5(l); }
    else if h == 6 { RowXor6(l); }
    else if h == 7 { RowXor7(l); }
    else if h == 8 { RowXor8(l); }
    else if h == 9 { RowXor9(l); }
    else if h == 10 { RowXorA(l); }
    else if h == 11 { RowXorB(l); }
    else if h == 12 { RowXorC(l); }
    else if h == 13 { RowXorD(l); }
    else if h == 14 { RowXorE(l); }
    else if h == 15 { RowXorF(l); }
  }

  lemma XorZero(x: bv32)
    ensures Xor(0, x) == x
  {
  }

  lemma Shift8Xor(x: bv32, y: bv32)
    ensures Shift8(Xor(x, y)) == Xor(Shift8(x), Shift8(y))
  {
    hide Xor, Shift;
    Shift4Xor(x, y);
    Shift4Xor(Shift(Shift(Shift(Shift(x)))), Shift(Shift(Shift(Shift(y)))));
  }

  lemma Shift4Xor(x: bv32, y: bv32)
    ensures Shift(Shift(Shift(Shift(Xor(x, y))))) == Xor(Shift(Shift(Shift(Shift(x)))), Shift(Shift(Shift(Shift(y)))))
  {
    hide Xor, Shift;
    ShiftXor(x, y);
    ShiftXor(Shift(x), Shift(y));
    ShiftXor(Shift(Shift(x)), Shift(Shift(y)));
    ShiftXor(Shift(Shift(Shift(x))), Shift(Shift(Shift(y))));
  }

  function HighNibble(x: bv8): (h: bv8) ensures h < 16 { x >> 4 }

  function LowNibble(x: bv8): (l: bv8) ensures l < 16 { x & 15 }

  /** An entry of the table is eight shifts of its index. */
  lemma TableEntry(x: bv8)
    ensures Table(x as nat) == Shift8(x as bv32)
  {
    hide Xor, Shift8, HighNibble, LowNibble, Row;
    var h, l := HighNibble(x), LowNibble(x);
    Nibbles(x);
    LowEntry(l);
    HighEntry(h);
    RowXor(h as nat, l as nat);
    Shift8Xor(h as bv32 << 4, l as bv32);
    TableParts(h as nat, l as nat);
  }

  lemma TableParts(h: nat, l: nat)
    requires h < 16 && l < 16
    ensures Table(16 * h + l) == Row(h)[l]
  {
    assert (16 * h + l) / 16 == h && (16 * h + l) % 16 == l;
  }

  // ----- eight bits at once -----

  lemma ShiftXor(x: bv32, y: bv32)
    ensures Shift(Xor(x, y)) == Xor(Shift(x), Shift(y))
  {
    XorParts(x, y);
    XorCancels(Half(x), Half(y), 0xedb88320);
    hide Xor, Half, Odd;
  }

  lemma XorParts(x: bv32, y: bv32)
    ensures Half(Xor(x, y)) == Xor(Half(x), Half(y))
    ensures Odd(Xor(x, y)) <==> Odd(x) != Odd(y)
  {
  }

  lemma XorAssoc(x: bv32, y: bv32, z: bv32)
    ensures Xor(Xor(x, y), z) == Xor(x, Xor(y, z))
  {
  }

  lemma XorComm(x: bv32, y: bv32)
    ensures Xor(x, y) == Xor(y, x)
  {
  }

  lemma XorSelf(x: bv32)
    ensures Xor(x, x) == 0 && Xor(x, 0) == x
  {
  }

  lemma XorCancels(x: bv32, y: bv32, p: bv32)
    ensures Xor(Xor(x, p), Xor(y, p)) == Xor(x, y)
    ensures Xor(Xor(x, p), y) == Xor(Xor(x, y), p)
    ensures Xor(x, Xor(y, p)) == Xor(Xor(x, y), p)
  {
    hide Xor;
    XorAssoc(x, p, Xor(y, p));
    XorComm(y, p);
    XorAssoc(p, p, y);
    XorSelf(p);
    XorSelf(y);
    XorComm(0, y);
    XorAssoc(x, p, y);
    XorAssoc(x, y, p);
  }

  function ShiftN(c: bv32, n: nat): (r: bv32)
    decreases n
  {
    if n == 0 then c else ShiftN(Shift(c), n - 1)
  }

  function HalfN(w: bv32, n: nat): (r: bv32)
    decreases n
  {
    if n == 0 then w else HalfN(Half(w), n - 1)
  }

  lemma OddParts(c: bv32, w: bv32)
    requires Odd(w)
    ensures Xor(Xor(c, 1), Xor(w, 1)) == Xor(c, w) && !Odd(Xor(w, 1)) && Half(Xor(w, 1)) == Half(w)
  {
  }

  /** The low bit of a word that is XORed in before a shift enters like a message bit. */
  lemma FirstBit(c: bv32, w: bv32)
    ensures Shift(Xor(c, w)) == Xor(FeedBit(c, Odd(w)), Half(w))
  {
    if Odd(w) {
      OddParts(c, w);
      ShiftXor(Xor(c, 1), Xor(w, 1));
    } else {
      ShiftXor(c, w);
    }
    hide Xor, Half, Odd;
  }

  /** A word that is XORed in enters bit by bit; its high bits only move down. */
  lemma {:induction false} FeedWord(c: bv32, w: bv32, n: nat)
    ensures ShiftN(Xor(c, w), n) == Xor(FeedBits(c, LowBits(w, n)), HalfN(w, n))
    decreases n
  {
    hide Shift, FeedBit, Xor, Half, Odd;
    if n > 0 {
      FirstBit(c, w);
      assert LowBits(w, n)[1..] == LowBits(Half(w), n - 1);
      FeedWord(FeedBit(c, Odd(w)), Half(w), n - 1);
    }
  }

  lemma Unroll8(c: bv32)
    ensures ShiftN(c, 8) == Shift8(c)
  {
    hide Shift;
    var c4 := Shift(Shift(Shift(Shift(c))));
    assert ShiftN(c4, 4) == Shift(Shift(Shift(Shift(c4)))) by {
      assert ShiftN(Shift(Shift(c4)), 2) == Shift(Shift(Shift(Shift(c4))));
    }
    assert ShiftN(Shift(Shift(c)), 6) == ShiftN(c4, 4);
  }

  lemma Half8(w: bv32)
    ensures HalfN(w, 8) == Down8(w)
  {
    EightHalves(w);
    hide Half;
    var h := Half(Half(Half(Half(w))));
    assert HalfN(h, 4) == Half(Half(Half(Half(h)))) by {
      assert HalfN(Half(Half(h)), 2) == Half(Half(Half(Half(h))));
    }
    assert HalfN(Half(Half(w)), 6) == HalfN(h, 4);
  }

  lemma EightHalves(w: bv32)
    ensures Half(Half(Half(Half(Half(Half(Half(Half(w)))))))) == Down8(w)
  {
  }

  /** Feeding the bits of a byte one by one is XORing the byte in and shifting eight times. */
  lemma ByteIsEightBits(c: bv32, b: bv8)
    ensures FeedBits(c, LowBits(b as bv32, 8)) == Shift8(Xor(c, b as bv32))
  {
    var w := b as bv32;
    assert Down8(w) == 0;
    FeedWord(c, w, 8);
    Half8(w);
    Unroll8(Xor(c, w));
    XorSelf(FeedBits(c, LowBits(w, 8)));
    hide Xor, Shift8, FeedBits, LowBits, HalfN, ShiftN;
  }

  lemma {:induction false} ZeroBits(c: bv32, n: nat)
    ensures FeedBits(c, seq(n, _ => false)) == ShiftN(c, n)
    decreases n
  {
    hide Shift;
    if n > 0 {
      var z := seq(n, _ => false);
      assert z[1..] == seq(n - 1, _ => false);
      ZeroBits(Shift(c), n - 1);
    }
  }

  function LowByte(x: bv32): (r: bv32) { x & 0xff }

  function HighBytes(x: bv32): (r: bv32) { x & 0xffff_ff00 }

  function Down8(x: bv32): (r: bv32) { x >> 8 }

  lemma Bytes(x: bv32)
    ensures Xor(LowByte(x), HighBytes(x)) == x && Down8(HighBytes(x)) == Down8(x)
  {
  }

  /** The high three bytes of the register only move down while eight bits enter. */
  lemma Shift8Splits(x: bv32)
    ensures Shift8(x) == Xor(Shift8(LowByte(x)), Down8(x))
  {
    hide Xor, Shift8, FeedBits, LowBits, HalfN, ShiftN, LowByte, HighBytes, Down8;
    var low, high := LowByte(x), HighBytes(x);
    Bytes(x);
    FeedWord(low, high, 8);
    Half8(high);
    HighBits(x);
    ZeroBits(low, 8);
    Unroll8(low);
    Unroll8(x);
  }

  lemma HighBits(x: bv32)
    ensures LowBits(HighBytes(x), 8) == seq(8, _ => false)
  {
    var w := HighBytes(x);
    var w2 := Half(Half(w));
    var w4 := Half(Half(w2));
    var w6 := Half(Half(w4));
    assert LowBits(w6, 2) == [false, false];
    assert LowBits(w4, 4) == [false, false, false, false];
    assert LowBits(w2, 6) == [false, false, false, false, false, false];
  }

  /** One pass of the loop of shr_crc32(). */
  function TableStep(c: bv32, b: bv8): (r: bv32)
  {
    Xor(Table((LowByte(Xor(c, b as bv32)) as bv8) as nat), Down8(c))
  }

  lemma IndexParts(c: bv32, b: bv8)
    ensures var x := Xor(c, b as bv32); (LowByte(x) as bv8) as bv32 == LowByte(x) && Down8(x) == Down8(c)
  {
  }

  lemma TableStepIsByte(c: bv32, b: bv8)
    ensures TableStep(c, b) == FeedBits(c, LowBits(b as bv32, 8))
  {
    var x := Xor(c, b as bv32);
    IndexParts(c, b);
    TableEntry(LowByte(x) as bv8);
    Shift8Splits(x);
    ByteIsEightBits(c, b);
    hide Xor, Shift8, Table, FeedBits, LowBits, LowByte, Down8;
  }

  /** shr_crc32() */
  method Crc32(crc: bv32, buf: seq<bv8>) returns (r: bv32)
    ensures r == SerialCrc(crc, Bits(buf))
  {
    hide FeedBit, LowBits, TableStep, Not;
    var c := Not(crc);
    for i := 0 to |buf|
      invariant FeedBits(Not(crc), Bits(buf)) == FeedBits(c, Bits(buf[i..]))
    {
      TableStepIsByte(c, buf[i]);
      assert buf[i..][1..] == buf[i + 1..];
      FeedBitsConcat(c, LowBits(buf[i] as bv32, 8), Bits(buf[i + 1..]));
      c := TableStep(c, buf[i]);
    }
    r := Not(c);
  }

  lemma NotNot(x: bv32)
    ensures Not(Not(x)) == x
  {
  }

  /** Two buffers one after the other are one buffer. */
  lemma Chains(crc: bv32, x: seq<bv8>, y: seq<bv8>)
    ensures SerialCrc(SerialCrc(crc, Bits(x)), Bits(y)) == SerialCrc(crc, Bits(x + y))
  {
    hide FeedBits, Not;
    BitsConcat(x, y);
    FeedBitsConcat(Not(crc), Bits(x), Bits(y));
    NotNot(FeedBits(Not(crc), Bits(x)));
  }

  // ----- error detection -----

  function Double(p: bv32): (r: bv32) { p + p }

  function Power(n: nat): (p: bv32)
  {
    if n == 0 then 1 else Double(Power(n - 1))
  }

  /** `p` can be doubled `m` times without overflow. */
  predicate Room(p: bv32, m: nat)
    decreases m
  {
    0 < p && (m > 0 ==> p <= 0x4000_0000 && Room(Double(p), m - 1))
  }

  lemma RoomOne()
    ensures Room(1, 31)
  {
    assert Room(0x40000000, 1);
    assert Room(0x20000000, 2);
    assert Room(0x10000000, 3);
    assert Room(0x8000000, 4);
    assert Room(0x4000000, 5);
    assert Room(0x2000000, 6);
    assert Room(0x1000000, 7);
    assert Room(0x800000, 8);
    assert Room(0x400000, 9);
    assert Room(0x200000, 10);
    assert Room(0x100000, 11);
    assert Room(0x80000, 12);
    assert Room(0x40000, 13);
    assert Room(0x20000, 14);
    assert Room(0x10000, 15);
    assert Room(0x8000, 16);
    assert Room(0x4000, 17);
    assert Room(0x2000, 18);
    assert Room(0x1000, 19);
    assert Room(0x800, 20);
    assert Room(0x400, 21);
    assert Room(0x200, 22);
    assert Room(0x100, 23);
    assert Room(0x80, 24);
    assert Room(0x40, 25);
    assert Room(0x20, 26);
    assert Room(0x10, 27);
    assert Room(0x8, 28);
    assert Room(0x4, 29);
    assert Room(0x2, 30);
  }

  /** 2^n fits for n <= 31. */
  lemma {:induction false} RoomPower(n: nat)
    requires n <= 31
    ensures Room(Power(n), 31 - n)
  {
    if n == 0 {
      RoomOne();
    } else {
      RoomPower(n - 1);
    }
  }

  /** The difference of the registers is fed with the difference of the bits. */
  lemma FeedBitDifference(c: bv32, d: bv32, x: bool, y: bool)
    ensures Xor(FeedBit(c, x), FeedBit(d, y)) == FeedBit(Xor(c, d), x != y)
  {
    ShiftXor(if x then Xor(c, 1) else c, if y then Xor(d, 1) else d);
    XorCancels(c, d, 1);
    hide Xor, Shift;
  }

  predicate Below(x: bv32, p: bv32) { x < p }

  predicate Small(p: bv32) { 0 < p <= 0x4000_0000 }

  lemma PowerSmall(n: nat)
    requires n <= 30
    ensures Small(Power(n))
  {
    RoomPower(n);
  }

  /** A small register was not fed back, so it was even. */
  lemma NoFeedback(z: bv32, p: bv32)
    requires Small(p) && Below(Shift(z), p)
    ensures !Odd(z) && Below(Half(z), p)
  {
    if Odd(z) {
      FedBack(Half(z), z);
    }
  }

  lemma FedBack(h: bv32, z: bv32)
    requires h == Half(z)
    ensures !Below(Xor(h, 0xedb88320), 0x4000_0000)
  {
  }

  lemma Doubled(z: bv32, p: bv32)
    requires Small(p) && !Odd(z) && Below(Half(z), p)
    ensures Below(z, Double(p)) && Below(Xor(z, 1), Double(p))
  {
    EvenIsDouble(z);
    hide Small, Odd, Half, Below, Double, Xor;
    DoubleBelow(Half(z), p);
  }

  lemma EvenIsDouble(z: bv32)
    requires !Odd(z)
    ensures z == Double(Half(z))
  {
  }

  lemma DoubleBelow(h: bv32, p: bv32)
    requires Small(p) && Below(h, p)
    ensures Below(Double(h), Double(p)) && Below(Xor(Double(h), 1), Double(p))
  {
  }

  lemma NoDifference(c: bv32)
    ensures Below(Xor(c, c), Power(0))
  {
  }

  /** Registers that agree after `n` bits, at most 31, differed in their `n` low bits only. */
  lemma {:induction false} SmallDifference(c: bv32, d: bv32, x: seq<bool>, y: seq<bool>)
    requires |x| == |y| <= 31 && FeedBits(c, x) == FeedBits(d, y)
    ensures Below(Xor(c, d), Power(|x|))
    decreases |x|
  {
    hide Shift, Xor, Double, Below, Small, Odd, Half;
    if x == [] {
      NoDifference(c);
    } else {
      var e := Xor(c, d);
      var z := if x[0] != y[0] then Xor(e, 1) else e;
      SmallDifference(FeedBit(c, x[0]), FeedBit(d, y[0]), x[1..], y[1..]);
      FeedBitDifference(c, d, x[0], y[0]);
      PowerSmall(|x| - 1);
      NoFeedback(z, Power(|x| - 1));
      Doubled(z, Power(|x| - 1));
      XorTwice(e);
    }
  }

  lemma XorTwice(e: bv32)
    ensures Xor(Xor(e, 1), 1) == e
  {
  }

  /** Two different bit strings of one length, at most 32, leave different registers. */
  lemma {:induction false} WindowDetected(c: bv32, x: seq<bool>, y: seq<bool>)
    requires |x| == |y| <= 32 && x != y
    ensures FeedBits(c, x) != FeedBits(c, y)
    decreases |x|
  {
    if x[0] == y[0] {
      assert x == [x[0]] + x[1..] && y == [y[0]] + y[1..];
      WindowDetected(FeedBit(c, x[0]), x[1..], y[1..]);
    } else if FeedBits(c, x) == FeedBits(c, y) {
      SmallDifference(FeedBit(c, x[0]), FeedBit(c, y[0]), x[1..], y[1..]);
      FeedBitDifference(c, c, x[0], y[0]);
      XorSelf(c);
      FirstDifference(|x| - 1);
    }
  }

  /** One differing bit sets the top bit of the difference. */
  lemma FirstDifference(n: nat)
    requires n <= 31
    ensures !Below(FeedBit(0, true), Power(n))
  {
    assert FeedBit(0, true) == 0xedb88320;
    if n > 0 {
      RoomPower(n - 1);
    }
  }

  lemma ShiftInjective(x: bv32, y: bv32)
    requires Shift(x) == Shift(y)
    ensures x == y
  {
  }

  lemma {:induction false} FeedBitsInjective(c: bv32, d: bv32, s: seq<bool>)
    requires FeedBits(c, s) == FeedBits(d, s)
    ensures c == d
    decreases |s|
  {
    if s != [] {
      FeedBitsInjective(FeedBit(c, s[0]), FeedBit(d, s[0]), s[1..]);
      ShiftInjective(if s[0] then Xor(c, 1) else c, if s[0] then Xor(d, 1) else d);
      XorTwice(c);
      XorTwice(d);
      hide Xor, Shift;
    }
  }

  /** Any corruption within 32 consecutive bits of a message changes its CRC. */
  lemma BurstDetected(crc: bv32, before: seq<bool>, x: seq<bool>, y: seq<bool>, after: seq<bool>)
    requires |x| == |y| <= 32 && x != y
    ensures SerialCrc(crc, before + x + after) != SerialCrc(crc, before + y + after)
  {
    hide FeedBits, Not;
    var c := FeedBits(Not(crc), before);
    FeedBitsConcat(Not(crc), before, x);
    FeedBitsConcat(Not(crc), before, y);
    FeedBitsConcat(Not(crc), before + x, after);
    FeedBitsConcat(Not(crc), before + y, after);
    WindowDetected(c, x, y);
    NotNot(FeedBits(Not(crc), before + x + after));
    NotNot(FeedBits(Not(crc), before + y + after));
    if FeedBits(Not(crc), before + x + after) == FeedBits(Not(crc), before + y + after) {
      FeedBitsInjective(FeedBits(c, x), FeedBits(c, y), after);
    }
  }

  // ----- the complement before and after -----

  /** The register starts from the complement of the seed, and its complement is the result. */
  lemma Complemented(crc: bv32, bits: seq<bool>)
    ensures SerialCrc(crc, bits) == Xor(FeedBits(Xor(crc, 0xffff_ffff), bits), 0xffff_ffff)
    ensures SerialCrc(0, bits) == Xor(FeedBits(0xffff_ffff, bits), 0xffff_ffff)
    ensures SerialCrc(0xffff_ffff, bits) == Xor(FeedBits(0, bits), 0xffff_ffff)
  {
    NotIsXor(crc);
    NotIsXor(FeedBits(Xor(crc, 0xffff_ffff), bits));
    NotIsXor(FeedBits(0xffff_ffff, bits));
    NotIsXor(FeedBits(0, bits));
    NotIsXor(0);
    NotIsXor(0xffff_ffff);
    hide FeedBits, Not;
  }

  lemma NotIsXor(x: bv32)
    ensures Not(x) == Xor(x, 0xffff_ffff)
  {
  }

  /** A zero byte in front of a message changes its CRC. */
  lemma LeadingZero(data: seq<bv8>)
    ensures SerialCrc(0, Bits([0] + data)) != SerialCrc(0, Bits(data))
  {
    var c: bv32 := 0xffff_ffff;
    ByteIsEightBits(c, 0);
    BitsConcat([0], data);
    OneByte(0);
    FeedBitsConcat(c, Bits([0]), Bits(data));
    Complemented(0, Bits([0] + data));
    Complemented(0, Bits(data));
    var d := FeedBits(c, Bits([0]));
    assert d != c by { assert Shift8(Xor(0xffff_ffff, 0)) == 0x2dfd1072; }
    hide Xor, FeedBits, Bits, SerialCrc, Shift8;
    if SerialCrc(0, Bits([0] + data)) == SerialCrc(0, Bits(data)) {
      XorBack(FeedBits(d, Bits(data)), FeedBits(c, Bits(data)));
      FeedBitsInjective(d, c, Bits(data));
    }
  }

  lemma XorBack(x: bv32, y: bv32)
    requires Xor(x, 0xffff_ffff) == Xor(y, 0xffff_ffff)
    ensures x == y
  {
  }

  lemma OneByte(b: bv8)
    ensures Bits([b]) == LowBits(b as bv32, 8)
  {
    assert Bits([b][1..]) == [];
  }

  /** The characters '1' to '9'. */
  const NINE: seq<bv8> := [0x31, 0x32, 0x33, 0x34, 0x35, 0x36, 0x37, 0x38, 0x39]

  lemma Nine0()
    ensures Shift8(Xor(0xffffffff, 0x31)) == 0x7c231048
    ensures Shift8(Xor(0x7c231048, 0x32)) == 0xb0acbb32
    ensures Shift8(Xor(0xb0acbb32, 0x33)) == 0x77b79c2d
  {
  }

  lemma Nine3()
    ensures Shift8(Xor(0x77b79c2d, 0x34)) == 0x641c1f5c
    ensures Shift8(Xor(0x641c1f5c, 0x35)) == 0x340ac5e3
    ensures Shift8(Xor(0x340ac5e3, 0x36)) == 0xf68d2c9e
  {
  }

  lemma Nine6()
    ensures Shift8(Xor(0xf68d2c9e, 0x37)) == 0xaffc9660
    ensures Shift8(Xor(0xaffc9660, 0x38)) == 0x651f2550
    ensures Shift8(Xor(0x651f2550, 0x39)) == 0x340bc6d9
  {
  }

  lemma FirstByte(c: bv32, data: seq<bv8>)
    requires data != []
    ensures FeedBits(c, Bits(data)) == FeedBits(Shift8(Xor(c, data[0] as bv32)), Bits(data[1..]))
  {
    hide Xor, Shift8, FeedBits, LowBits;
    FeedBitsConcat(c, LowBits(data[0] as bv32, 8), Bits(data[1..]));
    ByteIsEightBits(c, data[0]);
  }

  /** The check value of the CRC: that of the text "123456789". */
  lemma CheckValue()
    ensures SerialCrc(0, Bits(NINE)) == 0xcbf4_3926
  {
    hide Shift8, FeedBits, Bits, SerialCrc, Xor;
    Complemented(0, Bits(NINE));
    Nine0();
    Nine3();
    Nine6();
    FirstByte(0xffffffff, NINE[0..]);
    FirstByte(0x7c231048, NINE[1..]);
    FirstByte(0xb0acbb32, NINE[2..]);
    FirstByte(0x77b79c2d, NINE[3..]);
    FirstByte(0x641c1f5c, NINE[4..]);
    FirstByte(0x340ac5e3, NINE[5..]);
    FirstByte(0xf68d2c9e, NINE[6..]);
    FirstByte(0xaffc9660, NINE[7..]);
    FirstByte(0x651f2550, NINE[8..]);
    NothingFed(0x340bc6d9, NINE[9..]);
    LastXor();
  }

  lemma NothingFed(c: bv32, data: seq<bv8>)
    requires data == []
    ensures FeedBits(c, Bits(data)) == c
  {
  }

  lemma LastXor()
    ensures Xor(0x340bc6d9, 0xffff_ffff) == 0xcbf4_3926
  {
  }
}

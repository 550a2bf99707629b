/**
 The streaming SHA-256 and the HMAC of shared/sha256-util.c: a context with a buffer of 128 bytes
 that is fed in pieces.  Whatever the pieces and their alignment, the digest is the one the
 standard defines for the whole message.
 */
module Sha256 {
  import opened Sha256Spec
  import opened Arith

  // ----- the operators as the code writes them -----

  function S0(x: Word): (r: Word) { ((x >> 2) | (x << 30)) ^ ((x >> 13) | (x << 19)) ^ ((x >> 22) | (x << 10)) }

  function S1(x: Word): (r: Word) { ((x >> 6) | (x << 26)) ^ ((x >> 11) | (x << 21)) ^ ((x >> 25) | (x << 7)) }

  function R0(x: Word): (r: Word) { ((x >> 7) | (x << 25)) ^ ((x >> 18) | (x << 14)) ^ (x >> 3) }

  function R1(x: Word): (r: Word) { ((x >> 17) | (x << 15)) ^ ((x >> 19) | (x << 13)) ^ (x >> 10) }

  /** Two shifts and an OR rotate. */
  lemma Rotates(x: Word)
    ensures S0(x) == BigSigma0(x) && S1(x) == BigSigma1(x)
    ensures R0(x) == Sigma0(x) && R1(x) == Sigma1(x)
  {
  }

  // ----- the length field -----

  /** Bitwise OR of two unsigned numbers. */
  function Or(x: nat, y: nat): (r: nat)
  {
    if x == 0 && y == 0 then 0
    else (if x % 2 == 1 || y % 2 == 1 then 1 else 0) + 2 * Or(x / 2, y / 2)
  }

  lemma {:induction false} OrZero(x: nat)
    ensures Or(x, 0) == x
  {
    if x != 0 {
      OrZero(x / 2);
    }
  }

  lemma OrEven(k: nat, y: nat)
    ensures Or(2 * k, y) == 2 * Or(k, y / 2) + y % 2
  {
    assert 2 * k / 2 == k;
  }

  /** Numbers without a common bit are added by OR. */
  lemma OrAdds(k: nat, y: nat)
    requires y < 8
    ensures Or(8 * k, y) == 8 * k + y
  {
    OrEven(4 * k, y);
    OrEven(2 * k, y / 2);
    OrEven(k, y / 2 / 2);
    OrZero(k);
  }

  /** A 32-bit word in memory, most significant byte first. */
  function BigEndian(w: nat): (b: seq<Byte>)
    requires w < TWO32
    ensures |b| == 4
  {
    [(w / 0x100_0000) as Byte, (w / 0x1_0000 % 256) as Byte, (w / 0x100 % 256) as Byte, (w % 256) as Byte]
  }

  /** The word that holds the high half of the length: total[HIGH] << 3 | total[LOW] >> 29. */
  function HighWord(total: nat): (w: nat)
  {
    Or(total / TWO32 * 8 % TWO32, total % TWO32 / 0x2000_0000)
  }

  /** The word that holds the low half: total[LOW] << 3. */
  function LowWord(total: nat): (w: nat)
    ensures w < TWO32
  {
    total % TWO32 * 8 % TWO32
  }

  lemma HighWordAdds(total: nat)
    ensures HighWord(total) == total / TWO32 * 8 % TWO32 + total % TWO32 / 0x2000_0000 < TWO32
  {
    var high := total / TWO32;
    var k := high % 0x2000_0000;
    assert high * 8 % TWO32 == 8 * k by {
      assert high == high / 0x2000_0000 * 0x2000_0000 + k;
    }
    OrAdds(k, total % TWO32 / 0x2000_0000);
  }

  lemma ShiftedHalves(total: nat)
    requires total < TWO64
    ensures 8 * total % TWO64 == (total / TWO32 * 8 % TWO32 + total % TWO32 / 0x2000_0000) * TWO32 + LowWord(total)
  {
    var high, low := total / TWO32, total % TWO32;
    var u, k := high / 0x2000_0000, high % 0x2000_0000;
    var t, r := low / 0x2000_0000, low % 0x2000_0000;
    assert 8 * high == u * TWO32 + 8 * k && 8 * low == t * TWO32 + 8 * r;
    assert high * 8 % TWO32 == 8 * k && low * 8 % TWO32 == 8 * r;
    assert 8 * total == u * TWO64 + ((8 * k + t) * TWO32 + 8 * r);
  }

  lemma LengthModulo(n: nat)
    ensures 8 * n % TWO64 == 8 * (n % TWO64) % TWO64
  {
    var m := 8 * (n % TWO64);
    Divides(8 * n, 8 * (n / TWO64) + m / TWO64, m % TWO64, TWO64);
  }

  /** The two words the code stores are the length in bits, cut to 64 bits. */
  lemma LengthWords(total: nat, n: nat)
    requires total == n % TWO64
    ensures HighWord(total) < TWO32
    ensures BigEndian(HighWord(total)) + BigEndian(LowWord(total)) == LengthField(n)
  {
    HighWordAdds(total);
    ShiftedHalves(total);
    LengthModulo(n);
    hide HighWord, LowWord, BigEndian, BigEndian64;
    Halves(HighWord(total), LowWord(total));
  }

  lemma Halves(hi: nat, lo: nat)
    requires hi < TWO32 && lo < TWO32
    ensures BigEndian(hi) + BigEndian(lo) == BigEndian64(hi * TWO32 + lo)
  {
    HighBytes(hi, lo);
    LowBytes(hi, lo);
  }

  lemma HighBytes(hi: nat, lo: nat)
    requires hi < TWO32 && lo < TWO32
    ensures var v := hi * TWO32 + lo;
      && v / 0x100_0000_0000_0000 % 256 == hi / 0x100_0000
      && v / 0x1_0000_0000_0000 % 256 == hi / 0x1_0000 % 256
      && v / 0x100_0000_0000 % 256 == hi / 0x100 % 256
      && v / 0x1_0000_0000 % 256 == hi % 256
  {
    var v := hi * TWO32 + lo;
    assert v / 0x1_0000_0000 == hi;
    assert v / 0x100_0000_0000 == hi / 0x100;
    assert v / 0x1_0000_0000_0000 == hi / 0x1_0000;
    assert v / 0x100_0000_0000_0000 == hi / 0x100_0000;
  }

  lemma LowBytes(hi: nat, lo: nat)
    requires hi < TWO32 && lo < TWO32
    ensures var v := hi * TWO32 + lo;
      && v / 0x100_0000 % 256 == lo / 0x100_0000
      && v / 0x1_0000 % 256 == lo / 0x1_0000 % 256
      && v / 0x100 % 256 == lo / 0x100 % 256
      && v % 256 == lo % 256
  {
    var v := hi * TWO32 + lo;
    assert v / 0x100_0000 == hi * 0x100 + lo / 0x100_0000;
    assert v / 0x1_0000 == hi * 0x1_0000 + lo / 0x1_0000;
    assert v / 0x100 == hi * 0x100_0000 + lo / 0x100;
    DropMultiple(hi, lo / 0x100_0000);
    DropMultiple(hi * 0x100, lo / 0x1_0000);
    DropMultiple(hi * 0x1_0000, lo / 0x100);
    DropMultiple(hi * 0x100_0000, lo);
  }

  lemma DropMultiple(k: nat, x: nat)
    ensures (k * 256 + x) % 256 == x % 256
  {
  }

  // ----- one block -----

  /** The message schedule, in an array like the local W[64]. */
  method MakeSchedule(block: seq<Byte>) returns (w: array<Word>)
    requires |block| == 64
    ensures fresh(w) && w.Length == 64
    ensures forall i :: 0 <= i < 64 ==> w[i] == Schedule(block, i)
  {
    hide R0, R1, Sigma0, Sigma1, ToWord, Add;
    w := new Word[64];
    for t := 0 to 16
      invariant forall i :: 0 <= i < t ==> w[i] == Schedule(block, i)
    {
      w[t] := ToWord(block[4 * t..4 * t + 4]);
    }
    for t := 16 to 64
      invariant forall i :: 0 <= i < t ==> w[i] == Schedule(block, i)
    {
      Rotates(w[t - 2]);
      Rotates(w[t - 15]);
      w[t] := Add(Add(Add(R1(w[t - 2]), w[t - 7]), R0(w[t - 15])), w[t - 16]);
    }
  }

  /** One pass of the round loop, assignment by assignment. */
  method OneRound(v: Vars, k: Word, w: Word) returns (r: Vars)
    ensures r == Round(v, k, w)
  {
    var a, b, c, d := v.a, v.b, v.c, v.d;
    var e, f, g, h := v.e, v.f, v.g, v.h;
    Rotates(e);
    Rotates(a);
    hide S0, S1, BigSigma0, BigSigma1, Ch, Maj, Add;
    var t1 := Add(Add(Add(Add(h, S1(e)), Ch(e, f, g)), k), w);
    var t2 := Add(S0(a), Maj(a, b, c));
    h := g;
    g := f;
    f := e;
    e := Add(d, t1);
    d := c;
    c := b;
    b := a;
    a := Add(t1, t2);
    r := Vars(a, b, c, d, e, f, g, h);
  }

  /** The schedule and the rounds of one block. */
  method CompressBlock(hash: seq<Word>, block: seq<Byte>) returns (r: seq<Word>)
    requires |hash| == 8 && |block| == 64
    ensures r == Compress(hash, block)
  {
    hide Round, Schedule, Add;
    var w := MakeSchedule(block);
    var start := Vars(hash[0], hash[1], hash[2], hash[3], hash[4], hash[5], hash[6], hash[7]);
    var v := start;
    for t := 0 to 64
      invariant forall i :: 0 <= i < 64 ==> w[i] == Schedule(block, i)
      invariant v == Rounds(start, block, t)
    {
      v := OneRound(v, K[t], w[t]);
    }
    r := [Add(v.a, hash[0]), Add(v.b, hash[1]), Add(v.c, hash[2]), Add(v.d, hash[3]),
          Add(v.e, hash[4]), Add(v.f, hash[5]), Add(v.g, hash[6]), Add(v.h, hash[7])];
  }

  // ----- the context -----

  const FILLBUF: seq<Byte> := [0x80] + Zeros(63)

  /** The loop of sha256_process_block() over the blocks. */
  method AbsorbBlocks(hash: seq<Word>, data: seq<Byte>) returns (h: seq<Word>)
    requires |hash| == 8 && |data| % 64 == 0
    ensures h == Absorb(hash, data)
  {
    hide Compress;
    h := hash;
    var i := 0;
    while i < |data|
      invariant 0 <= i <= |data| && i % 64 == 0 && |h| == 8
      invariant Absorb(hash, data) == Absorb(h, data[i..])
    {
      assert data[i..][..64] == data[i..i + 64] && data[i..][64..] == data[i + 64..];
      h := CompressBlock(h, data[i..i + 64]);
      i := i + 64;
    }
  }

  /** The chaining value and the byte count after the blocks `done`. */
  ghost predicate Hashed(hash: seq<Word>, total64: nat, done: seq<Byte>)
  {
    |hash| == 8 && |done| % 64 == 0 && hash == Absorb(IV, done) && total64 == |done| % TWO64
  }

  lemma CountModulo(x: nat, y: nat)
    ensures (x % TWO64 + y) % TWO64 == (x + y) % TWO64
  {
    var z := x % TWO64 + y;
    Divides(x + y, x / TWO64 + z / TWO64, z % TWO64, TWO64);
  }

  /** The blocks `y` follow the blocks that are hashed already. */
  lemma MoreBlocks(hash: seq<Word>, total64: nat, done: seq<Byte>, y: seq<Byte>)
    requires Hashed(hash, total64, done) && |y| % 64 == 0
    ensures Hashed(Absorb(hash, y), (total64 + |y|) % TWO64, done + y)
  {
    hide Absorb, TWO64;
    AbsorbConcat(IV, done, y);
    MoreCount(|done|, |y|);
  }

  lemma MoreCount(x: nat, y: nat)
    requires x % 64 == 0 && y % 64 == 0
    ensures (x % TWO64 + y) % TWO64 == (x + y) % TWO64 && (x + y) % 64 == 0
  {
    CountModulo(x, y);
    Divides(x + y, x / 64 + y / 64, 0, 64);
  }

  class Context {
    var hash: seq<Word>
    var total64: nat
    var buflen: nat
    const buffer: array<Byte>
    ghost var done: seq<Byte>    // the bytes of the blocks that are hashed

    /** At most 64 bytes wait in the buffer. */
    ghost predicate Valid()
      reads this, buffer
    {
      buffer.Length == 128 && buflen <= 64 && |hash| == 8 && Hashed(hash, total64, done)
    }

    /** All the bytes that were fed so far. */
    ghost function Fed(): (m: seq<Byte>)
      requires Valid()
      reads this, buffer
    {
      done + buffer[..buflen]
    }

    constructor ()
      ensures Valid() && Fed() == [] && fresh(buffer)
    {
      hash := IV;
      total64 := 0;
      buflen := 0;
      buffer := new Byte[128];
      done := [];
    }

    /** sha256_process_block() */
    method ProcessBlock(data: seq<Byte>)
      requires |hash| == 8 && |data| % 64 == 0
      modifies this`hash, this`total64, this`done
      ensures hash == Absorb(old(hash), data) && total64 == (old(total64) + |data|) % TWO64 && done == old(done) + data
      ensures old(Hashed(hash, total64, done)) ==> Hashed(hash, total64, done)
    {
      if Hashed(hash, total64, done) {
        MoreBlocks(hash, total64, done, data);
      }
      hide Absorb;
      total64 := (total64 + |data|) % TWO64;
      hash := AbsorbBlocks(hash, data);
      done := done + data;
    }

    /** memcpy(&buffer[at], data, |data|) */
    method Copy(at: nat, data: seq<Byte>)
      requires at + |data| <= buffer.Length
      modifies buffer
      ensures buffer[..at] == old(buffer[..at]) && buffer[at..at + |data|] == data
    {
      for i := 0 to |data|
        invariant buffer[..at] == old(buffer[..at]) && buffer[at..at + i] == data[..i]
      {
        buffer[at + i] := data[i];
      }
    }

    /** memmove(buffer, &buffer[from], n) */
    method Move(from: nat, n: nat)
      requires from + n <= buffer.Length
      modifies buffer
      ensures buffer[..n] == old(buffer[from..from + n])
    {
      for i := 0 to n
        invariant forall j :: 0 <= j < buffer.Length ==>
            buffer[j] == if j < i then old(buffer[from + j]) else old(buffer[j])
      {
        buffer[i] := buffer[from + i];
      }
    }

    /** Hash `full` of the `n` bytes in the buffer and move the rest to its front. */
    method Drain(n: nat, full: nat)
      requires |hash| == 8 && Hashed(hash, total64, done)
      requires full % 64 == 0 && full <= n <= buffer.Length
      modifies this`hash, this`total64, this`done, buffer
      ensures |hash| == 8 && Hashed(hash, total64, done)
      ensures done + buffer[..n - full] == old(done + buffer[..n])
    {
      hide Absorb, Hashed;
      assert buffer[..n] == buffer[..full] + buffer[full..n];
      ProcessBlock(buffer[..full]);
      Move(full, n - full);
    }

    /** The first part of update(): data joins what is buffered; beyond 64 bytes the full blocks are hashed. */
    method FillBuffer(data: seq<Byte>) returns (add: nat)
      requires Valid() && buflen != 0
      modifies this, buffer
      ensures Valid() && add <= |data| && Fed() == old(Fed()) + data[..add]
      ensures add < |data| ==> buflen == 0
    {
      hide Hashed;
      var leftOver := buflen;
      add := if 128 - leftOver > |data| then |data| else 128 - leftOver;
      Copy(leftOver, data[..add]);
      buflen := buflen + add;
      assert buffer[..buflen] == old(buffer[..buflen]) + data[..add];
      if buflen > 64 {
        var full := buflen - buflen % 64;
        Drain(buflen, full);
        buflen := buflen % 64;
      }
    }

    /** The second part of update(): whole blocks straight from the data, or through the buffer if it is unaligned. */
    method TakeBlocks(data: seq<Byte>, addr: nat) returns (taken: nat)
      requires Valid() && buflen == 0 && |data| >= 64
      modifies this, buffer
      ensures Valid() && buflen == 0 && taken <= |data| <= taken + 64 && Fed() == old(Fed()) + data[..taken]
    {
      hide Hashed;
      if addr % 4 == 0 {
        taken := |data| - |data| % 64;
        ProcessBlock(data[..taken]);
      } else {
        taken := 0;
        while |data| - taken > 64
          invariant taken <= |data| && buflen == 0
          invariant |hash| == 8 && Hashed(hash, total64, done) && done == old(done) + data[..taken]
        {
          Copy(0, data[taken..taken + 64]);
          assert buffer[..64] == data[taken..taken + 64];
          ProcessBlock(buffer[..64]);
          assert data[..taken + 64] == data[..taken] + data[taken..taken + 64];
          taken := taken + 64;
        }
      }
    }

    /** The third part of update(): the rest goes into the buffer. */
    method KeepTail(data: seq<Byte>)
      requires Valid() && buflen + |data| <= 128
      modifies this, buffer
      ensures Valid() && Fed() == old(Fed()) + data
    {
      hide Hashed;
      var leftOver := buflen;
      Copy(leftOver, data);
      leftOver := leftOver + |data|;
      assert buffer[..leftOver] == old(buffer[..buflen]) + data;
      if leftOver >= 64 {
        Drain(leftOver, 64);
        leftOver := leftOver - 64;
      }
      buflen := leftOver;
    }

    /** shr_sha256_update(); `addr` is the address of the data, which decides between two paths. */
    method Update(data: seq<Byte>, addr: nat)
      requires Valid()
      modifies this, buffer
      ensures Valid() && Fed() == old(Fed()) + data
    {
      hide Hashed;
      var rest, at := data, addr;
      if buflen != 0 {
        var add := FillBuffer(rest);
        rest, at := rest[add..], at + add;
      }
      if |rest| >= 64 {
        var taken := TakeBlocks(rest, at);
        rest := rest[taken..];
      }
      if |rest| > 0 {
        KeepTail(rest);
      }
    }

    /** shr_sha256_final() */
    method Final() returns (out: seq<Byte>)
      requires Valid()
      modifies this, buffer
      ensures out == Digest(old(Fed()))
    {
      hide Absorb, Pad;
      ghost var m, tail := Fed(), buffer[..buflen];
      var bytes := buflen;
      CountModulo(|done|, bytes);
      total64 := (total64 + bytes) % TWO64;
      var pad := if bytes >= 56 then 64 + 56 - bytes else 56 - bytes;
      Copy(bytes, FILLBUF[..pad]);
      LengthWords(total64, |m|);
      Copy(bytes + pad, BigEndian(HighWord(total64)) + BigEndian(LowWord(total64)));
      ghost var last := tail + FILLBUF[..pad] + LengthField(|m|);
      assert buffer[..bytes + pad + 8] == last;
      Padded(done, tail, pad);
      AbsorbConcat(IV, done, last);
      ProcessBlock(buffer[..bytes + pad + 8]);
      out := Output(hash);
    }
  }

  /** What final() appends makes the padded message of the standard. */
  lemma Padded(done: seq<Byte>, tail: seq<Byte>, pad: nat)
    requires |done| % 64 == 0 && |tail| <= 64
    requires pad == if |tail| >= 56 then 64 + 56 - |tail| else 56 - |tail|
    ensures done + (tail + FILLBUF[..pad] + LengthField(|done + tail|)) == Pad(done + tail)
    ensures (|tail| + pad + 8) % 64 == 0
  {
    var n := |done + tail|;
    assert n % 64 == |tail| % 64;
    assert ZeroCount(n) == pad - 1;
    assert FILLBUF[..pad] == [0x80] + Zeros(pad - 1);
    hide LengthField;
  }

  /** The loop that stores the eight words. */
  method Output(hash: seq<Word>) returns (out: seq<Byte>)
    ensures out == WordsToBytes(hash)
  {
    hide ToBytes;
    out := [];
    for i := 0 to |hash|
      invariant out + WordsToBytes(hash[i..]) == WordsToBytes(hash)
    {
      assert hash[i..][1..] == hash[i + 1..];
      out := out + ToBytes(hash[i]);
    }
  }

  // ----- whole messages -----

  function Flatten(pieces: seq<seq<Byte>>): (m: seq<Byte>)
  {
    if pieces == [] then [] else Flatten(pieces[..|pieces| - 1]) + pieces[|pieces| - 1]
  }

  /** Any split into updates, each at any address, gives the digest of the whole. */
  method HashPieces(pieces: seq<seq<Byte>>, addrs: seq<nat>) returns (out: seq<Byte>)
    requires |addrs| == |pieces|
    ensures out == Digest(Flatten(pieces))
  {
    hide Digest, Hashed;
    var ctx := new Context();
    for i := 0 to |pieces|
      invariant fresh(ctx) && fresh(ctx.buffer) && ctx.Valid()
      invariant ctx.Fed() == Flatten(pieces[..i])
    {
      assert pieces[..i + 1][..i] == pieces[..i];
      ctx.Update(pieces[i], addrs[i]);
    }
    assert pieces[..|pieces|] == pieces;
    out := ctx.Final();
  }

  /** shr_sha256() */
  method Hash(data: seq<Byte>, addr: nat) returns (out: seq<Byte>)
    ensures out == Digest(data)
  {
    out := HashPieces([data], [addr]);
    assert Flatten([data]) == [] + data == data by {
      assert [data][..0] == [];
    }
  }

  /** The key is copied into two zeroed blocks, which are then masked byte by byte. */
  method XorPads(k: seq<Byte>) returns (i: seq<Byte>, o: seq<Byte>)
    requires |k| <= 64
    ensures i == Xor(k + Zeros(64 - |k|), 0x36) && o == Xor(k + Zeros(64 - |k|), 0x5c)
  {
    var inner, outer := new Byte[64](_ => 0), new Byte[64](_ => 0);
    for n := 0 to |k|
      invariant forall j :: 0 <= j < 64 ==> inner[j] == outer[j] == if j < n then k[j] else 0
    {
      inner[n] := k[n];
      outer[n] := k[n];
    }
    ghost var bk := k + Zeros(64 - |k|);
    for n := 0 to 64
      invariant forall j :: 0 <= j < 64 ==> inner[j] == if j < n then bk[j] ^ 0x36 else bk[j]
      invariant forall j :: 0 <= j < 64 ==> outer[j] == if j < n then bk[j] ^ 0x5c else bk[j]
    {
      inner[n] := inner[n] ^ 0x36;
      outer[n] := outer[n] ^ 0x5c;
    }
    i, o := inner[..], outer[..];
  }

  /** shr_hmac_sha256_raw() */
  method HmacRaw(key: seq<Byte>, data: seq<Byte>, keyAddr: nat, dataAddr: nat, innerAddr: nat, outerAddr: nat,
      outAddr: nat)
    returns (out: seq<Byte>)
    requires |key| > 0
    ensures out == Hmac(key, data)
  {
    hide Digest;
    var k := key;
    if |k| > 64 {
      k := Hash(key, keyAddr);
    }
    var inner, outer := XorPads(k);
    assert k + Zeros(64 - |k|) == BlockKey(key);
    out := HashPieces([inner, data], [innerAddr, dataAddr]);
    TwoPieces(inner, data);
    TwoPieces(outer, out);
    out := HashPieces([outer, out], [outerAddr, outAddr]);
  }

  lemma TwoPieces(x: seq<Byte>, y: seq<Byte>)
    ensures Flatten([x, y]) == x + y
  {
    assert [x, y][..1] == [x] && [x][..0] == [];
    assert Flatten([x]) == [] + x;
  }
}

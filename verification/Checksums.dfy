/** The incremental hashes of FastDFS/common/hash.c that tcprecvfile_ex (FastDFS/common/sockopt.c) computes while it
    receives a file: CRC32_ex, ELFHash_ex, APHash_ex and Time33Hash_ex, on 32-bit words. */
module Checksums {
  import opened CrcTable

  /** An unsigned int, where its value as a number matters. */
  type Word = w: int | 0 <= w < WORD

  const WORD := 0x1_0000_0000

  const CRC32_XINIT: bv32 := 0xFFFFFFFF
  const CRC32_XOROT: bv32 := 0xFFFFFFFF

  // ----------------------------------------------------------------- CRC-32, one bit at a time

  // Word operations under names of their own, so that proofs can use their laws without opening them.
  function Xor(x: bv32, y: bv32): bv32 { x ^ y }
  function Half(x: bv32): bv32 { x >> 1 }
  function LowBit(x: bv32): bv32 { x & 1 }
  function LowByte(x: bv32): bv32 { x & 0xFF }
  function HighBytes(x: bv32): bv32 { x & 0xFFFFFF00 }
  function Down8(x: bv32): bv32 { x >> 8 }

  /** The register takes the lowest n bits of d, lowest first. */
  function FeedBits(c: bv32, d: bv32, n: nat): bv32
    decreases n
  {
    if n == 0 then c else FeedBits(Shift(Xor(c, LowBit(d))), Half(d), n - 1)
  }

  /** The register after a message, byte by byte and bit by bit: the definition of the checksum. */
  function SerialCrc(c: bv32, msg: seq<bv8>): bv32 {
    if msg == [] then c
    else FeedBits(SerialCrc(c, msg[..|msg| - 1]), msg[|msg| - 1] as bv32, 8)
  }

  function ShiftTimes(c: bv32, n: nat): bv32
    decreases n
  {
    if n == 0 then c else ShiftTimes(Shift(c), n - 1)
  }

  /** d has no more than n bits. */
  predicate Fits(d: bv32, n: nat)
    decreases n
  {
    if n == 0 then d == 0 else Fits(Half(d), n - 1)
  }

  lemma XorBit(x: bv32, y: bv32)
    ensures (x ^ y) & 1 == (x & 1) ^ (y & 1) && (x ^ y) >> 1 == (x >> 1) ^ (y >> 1)
  {
  }

  lemma BitIs(x: bv32)
    ensures x & 1 == 0 || x & 1 == 1
  {
  }

  lemma XorSwap(a: bv32, b: bv32, p: bv32)
    ensures a ^ p ^ b == a ^ b ^ p && a ^ (b ^ p) == a ^ b ^ p && (a ^ p) ^ (b ^ p) == a ^ b
  {
  }

  lemma ShiftOfXor(x: bv32, y: bv32)
    ensures Shift(x ^ y) == Shift(x) ^ Shift(y)
  {
    XorBit(x, y);
    BitIs(x);
    BitIs(y);
    XorSwap(x >> 1, y >> 1, POLYNOMIAL);
  }

  /** The register is linear. */
  lemma ShiftXor(x: bv32, y: bv32)
    ensures Shift(Xor(x, y)) == Xor(Shift(x), Shift(y))
  {
    hide Shift;
    ShiftOfXor(x, y);
  }

  function Upper(d: bv32): bv32 { d & 0xFFFFFFFE }

  lemma WordParts(c: bv32, d: bv32)
    ensures c ^ d == (c ^ (d & 1)) ^ (d & 0xFFFFFFFE)
    ensures (d & 0xFFFFFFFE) & 1 == 0 && (d & 0xFFFFFFFE) >> 1 == d >> 1
    ensures (d & 0xFF) ^ (d & 0xFFFFFF00) == d && d & 0xFF < 256
  {
  }

  lemma SplitBit(c: bv32, d: bv32)
    ensures Xor(c, d) == Xor(Xor(c, LowBit(d)), Upper(d)) && LowBit(Upper(d)) == 0 && Half(Upper(d)) == Half(d)
  {
    WordParts(c, d);
  }

  lemma ShiftEven(d: bv32)
    requires LowBit(d) == 0
    ensures Shift(d) == Half(d)
  {
  }

  /** The bits above the lowest one may be added to the register before it shifts or after. */
  lemma FeedOne(c: bv32, d: bv32)
    ensures Shift(Xor(c, d)) == Xor(Shift(Xor(c, LowBit(d))), Half(d))
  {
    hide Shift, Xor, LowBit, Half, Upper;
    SplitBit(c, d);
    ShiftXor(Xor(c, LowBit(d)), Upper(d));
    ShiftEven(Upper(d));
  }

  lemma XorZero(c: bv32)
    ensures Xor(c, 0) == c
  {
  }

  lemma {:induction false} FeedIsShift(c: bv32, d: bv32, n: nat)
    requires Fits(d, n)
    ensures FeedBits(c, d, n) == ShiftTimes(Xor(c, d), n)
    decreases n
  {
    hide Shift, Xor, LowBit, Half;
    if n == 0 {
      XorZero(c);
    } else {
      FeedOne(c, d);
      FeedIsShift(Shift(Xor(c, LowBit(d))), Half(d), n - 1);
    }
  }

  // ----------------------------------------------------------------- CRC-32, one table entry a byte

  lemma ByteVanishes(b: bv8)
    ensures Half(Half(Half(Half(Half(Half(Half(Half(b as bv32)))))))) == 0
  {
    ByteGone(0, b);
  }

  lemma ByteFits(b: bv8)
    ensures Fits(b as bv32, 8)
  {
    ByteVanishes(b);
    hide Half;
    var d := b as bv32;
    var d2 := Half(Half(d));
    var d4 := Half(Half(d2));
    var d6 := Half(Half(d4));
    assert Fits(d6, 2) && Fits(d4, 4) && Fits(d2, 6);
  }

  lemma EightTimes(c: bv32)
    ensures ShiftTimes(c, 8) == Shift8(c)
  {
    hide Shift;
    var c2 := Shift(Shift(c));
    var c4 := Shift(Shift(c2));
    var c6 := Shift(Shift(c4));
    assert ShiftTimes(c6, 2) == Shift(Shift(c6));
    assert ShiftTimes(c4, 4) == ShiftTimes(c6, 2);
    assert ShiftTimes(c2, 6) == ShiftTimes(c4, 4);
    assert ShiftTimes(c, 8) == ShiftTimes(c2, 6);
  }

  lemma Shift8Xor(x: bv32, y: bv32)
    ensures Shift8(Xor(x, y)) == Xor(Shift8(x), Shift8(y))
  {
    hide Shift, Xor;
    var x1, y1 := Shift(x), Shift(y);
    var x2, y2 := Shift(x1), Shift(y1);
    var x3, y3 := Shift(x2), Shift(y2);
    var x4, y4 := Shift(x3), Shift(y3);
    var x5, y5 := Shift(x4), Shift(y4);
    var x6, y6 := Shift(x5), Shift(y5);
    var x7, y7 := Shift(x6), Shift(y6);
    ShiftXor(x, y);
    ShiftXor(x1, y1);
    ShiftXor(x2, y2);
    ShiftXor(x3, y3);
    ShiftXor(x4, y4);
    ShiftXor(x5, y5);
    ShiftXor(x6, y6);
    ShiftXor(x7, y7);
  }

  lemma HighBytesBits(x: bv32, d: bv32)
    requires d == x & 0xFFFFFF00
    ensures d & 1 == 0 && (d >> 1) & 1 == 0 && (d >> 1 >> 1) & 1 == 0 && (d >> 1 >> 1 >> 1) & 1 == 0
    ensures (d >> 1 >> 1 >> 1 >> 1) & 1 == 0 && (d >> 1 >> 1 >> 1 >> 1 >> 1) & 1 == 0
    ensures (d >> 1 >> 1 >> 1 >> 1 >> 1 >> 1) & 1 == 0 && (d >> 1 >> 1 >> 1 >> 1 >> 1 >> 1 >> 1) & 1 == 0
    ensures d >> 1 >> 1 >> 1 >> 1 >> 1 >> 1 >> 1 >> 1 == x >> 8
  {
  }

  lemma HighBits(x: bv32)
    ensures var d := HighBytes(x);
            var d2 := Half(Half(d));
            var d4 := Half(Half(d2));
            var d6 := Half(Half(d4));
            && LowBit(d) == 0 && LowBit(Half(d)) == 0 && LowBit(d2) == 0 && LowBit(Half(d2)) == 0
            && LowBit(d4) == 0 && LowBit(Half(d4)) == 0 && LowBit(d6) == 0 && LowBit(Half(d6)) == 0
            && Half(Half(d6)) == Down8(x)
  {
    HighBytesBits(x, HighBytes(x));
  }

  /** The upper three bytes just move down. */
  lemma Shift8High(x: bv32)
    ensures Shift8(HighBytes(x)) == Down8(x)
  {
    hide Shift, HighBytes, Down8, Half, LowBit;
    var d := HighBytes(x);
    var d2 := Half(Half(d));
    var d4 := Half(Half(d2));
    var d6 := Half(Half(d4));
    HighBits(x);
    ShiftEven(d);
    ShiftEven(Half(d));
    ShiftEven(d2);
    ShiftEven(Half(d2));
    ShiftEven(d4);
    ShiftEven(Half(d4));
    ShiftEven(d6);
    ShiftEven(Half(d6));
  }

  lemma SplitWord(x: bv32)
    ensures Xor(LowByte(x), HighBytes(x)) == x && LowByte(x) < 256
  {
    WordParts(0, x);
  }

  lemma ByteGone(c: bv32, b: bv8)
    ensures (c ^ b as bv32) >> 8 == c >> 8
    ensures (b as bv32) >> 1 >> 1 >> 1 >> 1 >> 1 >> 1 >> 1 >> 1 == 0
  {
  }

  lemma Down8Xor(c: bv32, b: bv8)
    ensures Down8(Xor(c, b as bv32)) == Down8(c)
  {
    ByteGone(c, b);
  }

  /** One turn of the loop of CRC32_BODY. */
  function TableStep(c: bv32, b: bv8): bv32 {
    Xor(Table(LowByte(Xor(c, b as bv32))), Down8(c))
  }

  /** The table does the work of eight bits. */
  lemma TableStepIsSerial(c: bv32, b: bv8)
    ensures TableStep(c, b) == FeedBits(c, b as bv32, 8)
  {
    hide Table, Shift8, Shift, FeedBits, ShiftTimes, Xor, LowByte, HighBytes, Down8;
    var x := Xor(c, b as bv32);
    ByteFits(b);
    FeedIsShift(c, b as bv32, 8);
    EightTimes(x);
    SplitWord(x);
    Down8Xor(c, b);
    TableIsShift8(LowByte(x));
    Shift8High(x);
    Shift8Xor(LowByte(x), HighBytes(x));
  }

  /** CRC32_ex */
  method Crc32Ex(key: seq<bv8>, init: bv32) returns (crc: bv32)
    ensures crc == SerialCrc(init, key)
  {
    hide TableStep, FeedBits;
    crc := init;
    for i := 0 to |key|
      invariant crc == SerialCrc(init, key[..i])
    {
      assert key[..i + 1][..i] == key[..i];
      TableStepIsSerial(crc, key[i]);
      crc := TableStep(crc, key[i]);
    }
    assert key[..|key|] == key;
  }

  // ----------------------------------------------------------------- the other hashes

  /** One turn of ELF_HASH_FUNC. */
  function ElfStep(h: bv32, b: bv8): bv32 {
    Folded((h << 4) + b as bv32)
  }

  /** The upper four bits, if there are any, go into lower ones. */
  function Folded(h: bv32): bv32 {
    var x := h & 0xF0000000;
    if x != 0 then (h ^ (x >> 24)) & !x else h
  }

  /** One turn of TIME33_HASH_FUNC. */
  function Time33Step(h: Word, b: bv8): Word {
    (h + (h * 32 % WORD + b as int) % WORD) % WORD
  }

  function EvenTurn(h: bv32, w: bv32): bv32 {
    h ^ ((h << 7) ^ w ^ (h >> 3))
  }

  function OddTurn(h: bv32, w: bv32): bv32 {
    h ^ !((h << 11) ^ w ^ (h >> 5))
  }

  /** One turn of AP_HASH_FUNC, whose odd turns differ from its even ones. */
  function ApStep(h: bv32, b: bv8, odd: bool): bv32 {
    if odd then OddTurn(h, b as bv32) else EvenTurn(h, b as bv32)
  }

  function Elf(h: bv32, msg: seq<bv8>): bv32 {
    if msg == [] then h else ElfStep(Elf(h, msg[..|msg| - 1]), msg[|msg| - 1])
  }

  function Time33(h: Word, msg: seq<bv8>): Word {
    if msg == [] then h else Time33Step(Time33(h, msg[..|msg| - 1]), msg[|msg| - 1])
  }

  function Ap(h: bv32, msg: seq<bv8>): bv32 {
    if msg == [] then h else ApStep(Ap(h, msg[..|msg| - 1]), msg[|msg| - 1], |msg| % 2 == 0)
  }

  /** ELFHash_ex */
  method ElfHashEx(key: seq<bv8>, init: bv32) returns (hash: bv32)
    ensures hash == Elf(init, key)
  {
    hide ElfStep;
    hash := init;
    for i := 0 to |key|
      invariant hash == Elf(init, key[..i])
    {
      assert key[..i + 1][..i] == key[..i];
      hash := ElfStep(hash, key[i]);
    }
    assert key[..|key|] == key;
  }

  /** Time33Hash_ex */
  method Time33HashEx(key: seq<bv8>, init: Word) returns (hash: Word)
    ensures hash == Time33(init, key)
  {
    hide Time33Step;
    hash := init;
    for i := 0 to |key|
      invariant hash == Time33(init, key[..i])
    {
      assert key[..i + 1][..i] == key[..i];
      hash := Time33Step(hash, key[i]);
    }
    assert key[..|key|] == key;
  }

  /** APHash_ex */
  method ApHashEx(key: seq<bv8>, init: bv32) returns (hash: bv32)
    ensures hash == Ap(init, key)
  {
    hide ApStep;
    hash := init;
    for i := 0 to |key|
      invariant hash == Ap(init, key[..i])
    {
      assert key[..i + 1][..i] == key[..i];
      hash := ApStep(hash, key[i], i % 2 == 1);
    }
    assert key[..|key|] == key;
  }

  // ----------------------------------------------------------------- what the hashes are

  function Pow(x: nat, n: nat): nat {
    if n == 0 then 1 else x * Pow(x, n - 1)
  }

  /** The bytes as the digits of a number to the base 33. */
  function Base33(msg: seq<bv8>): nat {
    if msg == [] then 0 else msg[0] as int * Pow(33, |msg| - 1) + Base33(msg[1..])
  }

  lemma {:induction false} Base33Snoc(msg: seq<bv8>)
    requires msg != []
    ensures Base33(msg) == 33 * Base33(msg[..|msg| - 1]) + msg[|msg| - 1] as int
  {
    var n := |msg| - 1;
    if n == 0 {
      assert msg[1..] == [];
    } else {
      var tail := msg[1..];
      Base33Snoc(tail);
      assert tail[..n - 1] == msg[..n][1..] && tail[n - 1] == msg[n];
      Scaled(msg[0] as int, Pow(33, n - 1), Base33(tail[..n - 1]));
    }
  }

  lemma Scaled(d: nat, p: nat, s: nat)
    ensures d * (33 * p) + 33 * s == 33 * (d * p + s)
  {
  }

  lemma Residue(x: int, q: int)
    ensures (x + q * WORD) % WORD == x % WORD
  {
    var r := (x + q * WORD) / WORD - x / WORD - q;
    assert (x + q * WORD) % WORD - x % WORD == -r * WORD;
  }

  /** One turn multiplies by 33 and adds the byte. */
  lemma Times33(h: Word, x: int, b: bv8)
    requires h == x % WORD
    ensures Time33Step(h, b) == (33 * x + b as int) % WORD
  {
    var d := b as int;
    WrapOnce(h * 32, d);
    WrapOnce(h * 32 + d, h);
    WrapTimes(x, d);
  }

  lemma WrapOnce(x: int, y: int)
    ensures (x % WORD + y) % WORD == (x + y) % WORD
  {
    Residue(x % WORD + y, x / WORD);
    assert x == x / WORD * WORD + x % WORD;
  }

  lemma WrapTimes(x: int, d: int)
    ensures (33 * (x % WORD) + d) % WORD == (33 * x + d) % WORD
  {
    Residue(33 * (x % WORD) + d, 33 * (x / WORD));
    assert x == x / WORD * WORD + x % WORD;
  }

  /** Time33Hash_ex computes, modulo 2^32, the number whose digits to the base 33 are initial value and bytes. */
  lemma {:induction false} Time33IsBase33(h: Word, msg: seq<bv8>)
    ensures Time33(h, msg) == (h * Pow(33, |msg|) + Base33(msg)) % WORD
  {
    if msg == [] {
      assert h * Pow(33, 0) == h;
    } else {
      var n := |msg| - 1;
      Time33IsBase33(h, msg[..n]);
      Base33Snoc(msg);
      Scaled(h, Pow(33, n), Base33(msg[..n]));
      Times33(Time33(h, msg[..n]), h * Pow(33, n) + Base33(msg[..n]), msg[n]);
      hide Time33Step;
    }
  }

  /** An ELF hash has 28 bits. */
  lemma ElfSmall(h: bv32, msg: seq<bv8>)
    requires msg != []
    ensures Elf(h, msg) < 0x10000000
  {
    ElfStepSmall(Elf(h, msg[..|msg| - 1]), msg[|msg| - 1]);
    hide ElfStep;
  }

  lemma ElfStepSmall(h: bv32, b: bv8)
    ensures ElfStep(h, b) < 0x10000000
  {
  }

  /** As long as that fits in 28 bits, a turn appends a digit to the base 16. */
  lemma ElfAppends(h: bv32, b: bv8)
    requires h < 0xFFFFF0
    ensures ElfStep(h, b) == (h << 4) + b as bv32 && ElfStep(h, b) < (h + 16) << 4
  {
  }

  /** When it does not, the upper four bits go into the bits 4 to 7. */
  lemma ElfFolds(h: bv32, b: bv8)
    ensures var sum := (h << 4) + b as bv32; ElfStep(h, b) == (sum & 0x0FFFFFFF) ^ ((sum >> 28) << 4)
  {
    hide Folded;
    FoldedBits((h << 4) + b as bv32);
  }

  lemma FoldedBits(sum: bv32)
    ensures Folded(sum) == (sum & 0x0FFFFFFF) ^ ((sum >> 28) << 4)
  {
  }

  function Plus(x: bv32, y: bv32): bv32 { x + y }
  function Up4(x: bv32): bv32 { x << 4 }

  /** The bytes as the digits of a number to the base 16. */
  function Base16(msg: seq<bv8>): bv32 {
    if msg == [] then 0 else Plus(Up4(Base16(msg[..|msg| - 1])), msg[|msg| - 1] as bv32)
  }

  /** No hash of n bytes, as long as they fit, is larger than that. */
  function Bound(n: nat): bv32 {
    if n == 0 then 1 else if n == 1 then 0x100 else if n == 2 then 0x1100 else if n == 3 then 0x11100
    else if n == 4 then 0x111100 else 0x1111100
  }

  predicate Short(h: bv32, n: nat) {
    h < Bound(n)
  }

  lemma ElfBounded(h: bv32, b: bv8, n: nat)
    requires n < 5 && Short(h, n)
    ensures ElfStep(h, b) == Plus(Up4(h), b as bv32) && Short(ElfStep(h, b), n + 1)
  {
  }

  /** So up to five bytes are the digits, to the base 16, of their hash. */
  lemma {:induction false} ElfIsBase16(msg: seq<bv8>)
    requires |msg| <= 5
    ensures Elf(0, msg) == Base16(msg) && Short(Elf(0, msg), |msg|)
  {
    if msg != [] {
      hide ElfStep, Plus, Up4, Short;
      var n := |msg| - 1;
      ElfIsBase16(msg[..n]);
      ElfBounded(Elf(0, msg[..n]), msg[n], n);
    }
  }

  // ----------------------------------------------------------------- hashing in pieces

  lemma Snoc<T>(a: seq<T>, b: seq<T>)
    requires b != []
    ensures (a + b)[..|a + b| - 1] == a + b[..|b| - 1] && (a + b)[|a + b| - 1] == b[|b| - 1]
  {
  }

  lemma {:induction false} CrcAppend(c: bv32, a: seq<bv8>, b: seq<bv8>)
    ensures SerialCrc(c, a + b) == SerialCrc(SerialCrc(c, a), b)
  {
    if b == [] {
      assert a + b == a;
    } else {
      hide FeedBits;
      Snoc(a, b);
      CrcAppend(c, a, b[..|b| - 1]);
    }
  }

  lemma {:induction false} ElfAppend(h: bv32, a: seq<bv8>, b: seq<bv8>)
    ensures Elf(h, a + b) == Elf(Elf(h, a), b)
  {
    if b == [] {
      assert a + b == a;
    } else {
      hide ElfStep;
      Snoc(a, b);
      ElfAppend(h, a, b[..|b| - 1]);
    }
  }

  lemma {:induction false} Time33Append(h: Word, a: seq<bv8>, b: seq<bv8>)
    ensures Time33(h, a + b) == Time33(Time33(h, a), b)
  {
    if b == [] {
      assert a + b == a;
    } else {
      hide Time33Step;
      Snoc(a, b);
      Time33Append(h, a, b[..|b| - 1]);
    }
  }

  /** The count of turns starts again at each call, so only a first piece of even length is harmless. */
  lemma {:induction false} ApAppend(h: bv32, a: seq<bv8>, b: seq<bv8>)
    requires |a| % 2 == 0
    ensures Ap(h, a + b) == Ap(Ap(h, a), b)
  {
    if b == [] {
      assert a + b == a;
    } else {
      hide ApStep;
      Snoc(a, b);
      ApAppend(h, a, b[..|b| - 1]);
      assert |a + b| % 2 == |b| % 2;
    }
  }

  /** APHash_ex applied to a file in pieces of n bytes. */
  function ApChunked(h: bv32, file: seq<bv8>, n: nat): bv32
    requires n > 0
    decreases |file|
  {
    if |file| <= n then Ap(h, file) else ApChunked(Ap(h, file[..n]), file[n..], n)
  }

  lemma {:induction false} EvenChunks(h: bv32, file: seq<bv8>, n: nat)
    requires n > 0 && n % 2 == 0
    ensures ApChunked(h, file, n) == Ap(h, file)
    decreases |file|
  {
    if |file| > n {
      EvenChunks(Ap(h, file[..n]), file[n..], n);
      ApAppend(h, file[..n], file[n..]);
      assert file == file[..n] + file[n..];
    }
  }

  /** An odd and an even turn with the byte 0 agree on h. */
  predicate Agree(h: bv32) {
    OddTurn(h, 0) == EvenTurn(h, 0)
  }

  /** They disagree after an even turn with one of the bytes 0 and 1. */
  lemma OneDisagrees(h: bv32)
    ensures !Agree(EvenTurn(h, 0)) || !Agree(EvenTurn(h, 1))
  {
  }

  lemma SmallBytes()
    ensures (0 as bv8) as bv32 == 0 && (1 as bv8) as bv32 == 1
  {
  }

  /** For an odd size some file is hashed differently. */
  lemma OddChunks(n: nat) returns (file: seq<bv8>)
    requires n % 2 == 1
    ensures ApChunked(0, file, n) != Ap(0, file)
  {
    hide EvenTurn, OddTurn;
    var zeros: seq<bv8> := seq(n - 1, _ => 0);
    var h := Ap(0, zeros);
    OneDisagrees(h);
    SmallBytes();
    var b: bv8 := if Agree(EvenTurn(h, 0)) then 1 else 0;
    var first := zeros + [b];
    assert first[..n - 1] == zeros && first[n - 1] == b;
    assert Ap(0, first) == EvenTurn(h, b as bv32);
    file := first + [0];
    assert file[..n] == first && file[n..] == [0] && file[n] == 0;
    assert Ap(0, file) == OddTurn(Ap(0, first), 0);
    assert ApChunked(0, file, n) == Ap(Ap(0, first), [0]);
    assert [0 as bv8][..0] == [];
    assert Ap(Ap(0, first), [0]) == EvenTurn(Ap(0, first), 0);
  }

  /** Hashing in pieces of n bytes gives the hash of the file, for every file, exactly when n is even. */
  lemma ChunksIff(n: nat)
    requires n > 0
    ensures (forall file: seq<bv8> :: ApChunked(0, file, n) == Ap(0, file)) <==> n % 2 == 0
  {
    if n % 2 == 0 {
      forall file: seq<bv8> ensures ApChunked(0, file, n) == Ap(0, file) { EvenChunks(0, file, n); }
    } else {
      var file := OddChunks(n);
    }
  }

  // ----------------------------------------------------------------- receiving a file

  const BUFF_SIZE := 512 * 1024

  /** The number of pieces in which n bytes arrive. */
  function Pieces(n: nat): nat {
    (n + BUFF_SIZE - 1) / BUFF_SIZE
  }

  datatype Codes = Codes(crc: bv32, elf: bv32, ap: bv32, time33: Word)

  /** The four one-shot hashes of a whole file. */
  ghost function HashCodes(file: seq<bv8>): Codes {
    Codes(SerialCrc(CRC32_XINIT, file) ^ CRC32_XOROT, Elf(0, file), Ap(0, file), Time33(0, file))
  }

  /** The hash codes of what has been received so far. */
  ghost predicate Hashed(c: Codes, file: seq<bv8>) {
    c == Codes(SerialCrc(CRC32_XINIT, file), Elf(0, file), Ap(0, file), Time33(0, file))
  }

  /** CALC_HASH_CODES4 */
  method CalcHashCodes(buff: seq<bv8>, c: Codes, ghost file: seq<bv8>) returns (c': Codes)
    requires Hashed(c, file) && |file| % 2 == 0
    ensures Hashed(c', file + buff)
  {
    var crc := Crc32Ex(buff, c.crc);
    var elf := ElfHashEx(buff, c.elf);
    var ap := ApHashEx(buff, c.ap);
    var time33 := Time33HashEx(buff, c.time33);
    c' := Codes(crc, elf, ap, time33);
    CrcAppend(CRC32_XINIT, file, buff);
    ElfAppend(0, file, buff);
    ApAppend(0, file, buff);
    Time33Append(0, file, buff);
  }

  lemma NothingYet()
    ensures Hashed(Codes(CRC32_XINIT, 0, 0, 0), [])
  {
  }

  lemma AllReceived(c: Codes, file: seq<bv8>)
    requires Hashed(c, file)
    ensures c.(crc := c.crc ^ CRC32_XOROT) == HashCodes(file)
  {
  }

  /** tcprecvfile_ex: `sent` is what the peer sends, io(k) the result of receiving and writing piece k.
      On success the file on disk is what was sent and the codes are those of the whole file. */
  method RecvFile(sent: seq<bv8>, io: nat -> int) returns (err: int, disk: seq<bv8>, codes: Codes)
    ensures err == 0 ==> disk == sent && codes == HashCodes(sent)
    ensures err == 0 <==> forall k :: 0 <= k < Pieces(|sent|) ==> io(k) == 0
    ensures err != 0 ==> exists k: nat :: k < Pieces(|sent|) && err == io(k) && forall j :: 0 <= j < k ==> io(j) == 0
  {
    hide Hashed, HashCodes;
    NothingYet();
    codes := Codes(CRC32_XINIT, 0, 0, 0);
    disk := [];
    var remain, k := |sent|, 0;
    while remain > 0
      invariant 0 <= remain <= |sent| && disk == sent[..|sent| - remain] && Hashed(codes, disk)
      invariant remain > 0 ==> |disk| % 2 == 0
      invariant forall j :: 0 <= j < k ==> io(j) == 0
      invariant if remain > 0 then remain == |sent| - k * BUFF_SIZE else k == Pieces(|sent|)
    {
      var size := if remain > BUFF_SIZE then BUFF_SIZE else remain;
      if io(k) != 0 {
        return io(k), [], codes;
      }
      var buff := sent[|sent| - remain..|sent| - remain + size];
      codes := CalcHashCodes(buff, codes, disk);
      disk := disk + buff;
      remain, k := remain - size, k + 1;
    }
    assert disk == sent;
    AllReceived(codes, sent);
    codes := codes.(crc := codes.crc ^ CRC32_XOROT);
    err := 0;
  }

  // ----------------------------------------------------------------- check values

  /** The nine digits in ASCII, the message for which checksums are commonly quoted. */
  const DIGITS: seq<bv8> := [0x31, 0x32, 0x33, 0x34, 0x35, 0x36, 0x37, 0x38, 0x39]

  lemma Prefixes<T>(s: seq<T>)
    requires |s| == 9
    ensures s[..9] == s && s[..9][..8] == s[..8] && s[..8][..7] == s[..7] && s[..7][..6] == s[..6]
    ensures s[..6][..5] == s[..5] && s[..5][..4] == s[..4] && s[..4][..3] == s[..3]
    ensures s[..3][..2] == s[..2] && s[..2][..1] == s[..1] && s[..1][..0] == []
  {
  }

  lemma ElfTurns()
    ensures ElfStep(0, 0x31) == 0x31
    ensures ElfStep(0x31, 0x32) == 0x342
    ensures ElfStep(0x342, 0x33) == 0x3453
    ensures ElfStep(0x3453, 0x34) == 0x34564
    ensures ElfStep(0x34564, 0x35) == 0x345675
    ensures ElfStep(0x345675, 0x36) == 0x3456786
    ensures ElfStep(0x3456786, 0x37) == 0x45678A7
    ensures ElfStep(0x45678A7, 0x38) == 0x5678AE8
    ensures ElfStep(0x5678AE8, 0x39) == 0x678AEE9
  {
  }

  lemma ApTurns()
    ensures ApStep(0, 0x31, false) == 0x31
    ensures ApStep(0x31, 0x32, true) == 0xFFFE77FD
    ensures ApStep(0xFFFE77FD, 0x33, false) == 0x1F3A47B1
    ensures ApStep(0x1F3A47B1, 0x34, true) == 0x3201E247
    ensures ApStep(0x3201E247, 0x35, false) == 0x34B0FDBA
    ensures ApStep(0x34B0FDBA, 0x36, true) == 0x4D07559E
    ensures ApStep(0x4D07559E, 0x37, false) == 0xC70D701A
    ensures ApStep(0xC70D701A, 0x38, true) == 0x554A345D
    ensures ApStep(0x554A345D, 0x39, false) == 0xFAF95C6F
  {
  }

  lemma Time33Turns1()
    ensures Time33Step(0, 0x31) == 49
    ensures Time33Step(49, 0x32) == 1667
    ensures Time33Step(1667, 0x33) == 55062
  {
  }

  lemma Time33Turns2()
    ensures Time33Step(55062, 0x34) == 1817098
    ensures Time33Step(1817098, 0x35) == 59964287
    ensures Time33Step(59964287, 0x36) == 1978821525
  {
  }

  lemma Time33Turns3()
    ensures Time33Step(1978821525, 0x37) == 876600940
    ensures Time33Step(876600940, 0x38) == 3158027300
    ensures Time33Step(3158027300, 0x39) == 1135685853
  {
  }

  lemma FeedByte(c: bv32, b: bv8)
    ensures FeedBits(c, b as bv32, 8) == Shift8(Xor(c, b as bv32))
  {
    hide Shift, FeedBits, ShiftTimes, Xor;
    ByteFits(b);
    FeedIsShift(c, b as bv32, 8);
    EightTimes(Xor(c, b as bv32));
  }

  lemma CrcTurn1()
    ensures FeedBits(CRC32_XINIT, 0x31, 8) == 0x7C231048
  {
    FeedByte(CRC32_XINIT, 0x31);
    hide FeedBits;
  }

  lemma CrcTurn2()
    ensures FeedBits(0x7C231048, 0x32, 8) == 0xB0ACBB32
  {
    FeedByte(0x7C231048, 0x32);
    hide FeedBits;
  }

  lemma CrcTurn3()
    ensures FeedBits(0xB0ACBB32, 0x33, 8) == 0x77B79C2D
  {
    FeedByte(0xB0ACBB32, 0x33);
    hide FeedBits;
  }

  lemma CrcTurn4()
    ensures FeedBits(0x77B79C2D, 0x34, 8) == 0x641C1F5C
  {
    FeedByte(0x77B79C2D, 0x34);
    hide FeedBits;
  }

  lemma CrcTurn5()
    ensures FeedBits(0x641C1F5C, 0x35, 8) == 0x340AC5E3
  {
    FeedByte(0x641C1F5C, 0x35);
    hide FeedBits;
  }

  lemma CrcTurn6()
    ensures FeedBits(0x340AC5E3, 0x36, 8) == 0xF68D2C9E
  {
    FeedByte(0x340AC5E3, 0x36);
    hide FeedBits;
  }

  lemma CrcTurn7()
    ensures FeedBits(0xF68D2C9E, 0x37, 8) == 0xAFFC9660
  {
    FeedByte(0xF68D2C9E, 0x37);
    hide FeedBits;
  }

  lemma CrcTurn8()
    ensures FeedBits(0xAFFC9660, 0x38, 8) == 0x651F2550
  {
    FeedByte(0xAFFC9660, 0x38);
    hide FeedBits;
  }

  lemma CrcTurn9()
    ensures FeedBits(0x651F2550, 0x39, 8) == 0x340BC6D9
  {
    FeedByte(0x651F2550, 0x39);
    hide FeedBits;
  }

  lemma ElfCheck()
    ensures Elf(0, DIGITS) == 0x678AEE9
  {
    hide ElfStep;
    Prefixes(DIGITS);
    ElfTurns();
    assert Elf(0, DIGITS[..1]) == 0x31;
    assert Elf(0, DIGITS[..2]) == 0x342;
    assert Elf(0, DIGITS[..3]) == 0x3453;
    assert Elf(0, DIGITS[..4]) == 0x34564;
    assert Elf(0, DIGITS[..5]) == 0x345675;
    assert Elf(0, DIGITS[..6]) == 0x3456786;
    assert Elf(0, DIGITS[..7]) == 0x45678A7;
    assert Elf(0, DIGITS[..8]) == 0x5678AE8;
    assert Elf(0, DIGITS[..9]) == 0x678AEE9;
  }

  lemma ApCheck()
    ensures Ap(0, DIGITS) == 0xFAF95C6F
  {
    hide ApStep;
    Prefixes(DIGITS);
    ApTurns();
    assert Ap(0, DIGITS[..1]) == 0x31;
    assert Ap(0, DIGITS[..2]) == 0xFFFE77FD;
    assert Ap(0, DIGITS[..3]) == 0x1F3A47B1;
    assert Ap(0, DIGITS[..4]) == 0x3201E247;
    assert Ap(0, DIGITS[..5]) == 0x34B0FDBA;
    assert Ap(0, DIGITS[..6]) == 0x4D07559E;
    assert Ap(0, DIGITS[..7]) == 0xC70D701A;
    assert Ap(0, DIGITS[..8]) == 0x554A345D;
    assert Ap(0, DIGITS[..9]) == 0xFAF95C6F;
  }

  lemma Time33Check()
    ensures Time33(0, DIGITS) == 1135685853
  {
    hide Time33Step;
    Prefixes(DIGITS);
    Time33Turns1();
    Time33Turns2();
    Time33Turns3();
    assert Time33(0, DIGITS[..1]) == 49;
    assert Time33(0, DIGITS[..2]) == 1667;
    assert Time33(0, DIGITS[..3]) == 55062;
    assert Time33(0, DIGITS[..4]) == 1817098;
    assert Time33(0, DIGITS[..5]) == 59964287;
    assert Time33(0, DIGITS[..6]) == 1978821525;
    assert Time33(0, DIGITS[..7]) == 876600940;
    assert Time33(0, DIGITS[..8]) == 3158027300;
    assert Time33(0, DIGITS[..9]) == 1135685853;
  }

  lemma CrcCheck()
    ensures SerialCrc(CRC32_XINIT, DIGITS) == 0x340BC6D9
  {
    hide FeedBits;
    Prefixes(DIGITS);
    CrcTurn1();
    CrcTurn2();
    CrcTurn3();
    CrcTurn4();
    CrcTurn5();
    CrcTurn6();
    CrcTurn7();
    CrcTurn8();
    CrcTurn9();
    assert SerialCrc(CRC32_XINIT, DIGITS[..1]) == 0x7C231048;
    assert SerialCrc(CRC32_XINIT, DIGITS[..2]) == 0xB0ACBB32;
    assert SerialCrc(CRC32_XINIT, DIGITS[..3]) == 0x77B79C2D;
    assert SerialCrc(CRC32_XINIT, DIGITS[..4]) == 0x641C1F5C;
    assert SerialCrc(CRC32_XINIT, DIGITS[..5]) == 0x340AC5E3;
    assert SerialCrc(CRC32_XINIT, DIGITS[..6]) == 0xF68D2C9E;
    assert SerialCrc(CRC32_XINIT, DIGITS[..7]) == 0xAFFC9660;
    assert SerialCrc(CRC32_XINIT, DIGITS[..8]) == 0x651F2550;
    assert SerialCrc(CRC32_XINIT, DIGITS[..9]) == 0x340BC6D9;
  }

  /** What tcprecvfile_ex computes for a file of the nine digits; its first code is the check value of CRC-32. */
  lemma CheckValues()
    ensures HashCodes(DIGITS) == Codes(0xCBF43926, 0x0678AEE9, 0xFAF95C6F, 1135685853)
  {
    hide SerialCrc, Elf, Ap, Time33;
    CrcCheck();
    ElfCheck();
    ApCheck();
    Time33Check();
  }
}

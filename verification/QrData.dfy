/** The data half of the QR encoder of extension/src/qr.ts at level M: version choice, bit packing,
    padding, blocks, correction bytes and interleaving, with an independent reader that undoes them. */
module QrData {
  import opened Gf256
  import opened Wrappers
  import RS = ReedSolomon

  newtype Byte = x: int | 0 <= x < 256

  /** One Reed-Solomon block: its length and how many of its bytes are data. */
  datatype Block = Block(total: nat, data: nat)

  const PAD0 := 0xec
  const PAD1 := 0x11

  // ---- the block table, level M

  /** (count, total, data) triples of a version. */
  function TableM(version: nat): seq<nat> {
    match version
    case 1 => [1, 26, 16]
    case 2 => [1, 44, 28]
    case 3 => [1, 70, 44]
    case 4 => [2, 50, 32]
    case 5 => [2, 67, 43]
    case 6 => [4, 43, 27]
    case 7 => [4, 49, 31]
    case 8 => [2, 60, 38, 2, 61, 39]
    case 9 => [3, 58, 36, 2, 59, 37]
    case 10 => [4, 69, 43, 1, 70, 44]
    case 11 => [1, 80, 50, 4, 81, 51]
    case 12 => [6, 58, 36, 2, 59, 37]
    case 13 => [8, 59, 37, 1, 60, 38]
    case 14 => [4, 64, 40, 5, 65, 41]
    case 15 => [5, 65, 41, 5, 66, 42]
    case 16 => [7, 73, 45, 3, 74, 46]
    case 17 => [10, 74, 46, 1, 75, 47]
    case 18 => [9, 69, 43, 4, 70, 44]
    case 19 => [3, 70, 44, 11, 71, 45]
    case 20 => [3, 67, 41, 13, 68, 42]
    case 21 => [17, 68, 42]
    case 22 => [17, 74, 46]
    case 23 => [4, 75, 47, 14, 76, 48]
    case 24 => [6, 73, 45, 14, 74, 46]
    case 25 => [8, 75, 47, 13, 76, 48]
    case 26 => [19, 74, 46, 4, 75, 47]
    case 27 => [22, 73, 45, 3, 74, 46]
    case 28 => [3, 73, 45, 23, 74, 46]
    case 29 => [21, 73, 45, 7, 74, 46]
    case 30 => [19, 75, 47, 10, 76, 48]
    case 31 => [2, 74, 46, 29, 75, 47]
    case 32 => [10, 74, 46, 23, 75, 47]
    case 33 => [14, 74, 46, 21, 75, 47]
    case 34 => [14, 74, 46, 23, 75, 47]
    case 35 => [12, 75, 47, 26, 76, 48]
    case 36 => [6, 75, 47, 34, 76, 48]
    case 37 => [29, 74, 46, 14, 75, 47]
    case 38 => [13, 74, 46, 32, 75, 47]
    case 39 => [40, 75, 47, 7, 76, 48]
    case 40 => [18, 75, 47, 31, 76, 48]
    case _ => []
  }

  function Repeat(n: nat, b: Block): (r: seq<Block>)
    ensures |r| == n && forall i :: 0 <= i < n ==> r[i] == b
  {
    seq(n, _ => b)
  }

  function BlocksOf(entry: seq<nat>): seq<Block> {
    if |entry| < 3 then [] else Repeat(entry[0], Block(entry[1], entry[2])) + BlocksOf(entry[3..])
  }

  /** The blocks of a version, in order. */
  function RsBlocks(version: nat): seq<Block> {
    BlocksOf(TableM(version))
  }

  function DataBytes(blocks: seq<Block>): nat {
    if blocks == [] then 0 else blocks[0].data + DataBytes(blocks[1..])
  }

  function TotalBytes(blocks: seq<Block>): nat {
    if blocks == [] then 0 else blocks[0].total + TotalBytes(blocks[1..])
  }

  function CharCountBits(version: nat): nat {
    if version < 10 then 8 else 16
  }

  function CapacityBits(version: nat): nat {
    DataBytes(RsBlocks(version)) * 8
  }

  /** n bytes fit a version under that version's own count width. */
  predicate Fits(version: nat, n: nat) {
    4 + CharCountBits(version) + n * 8 <= CapacityBits(version)
  }

  /** Every block holds data, has at least one correction byte, and is short enough for GF(256). */
  ghost predicate Sound(blocks: seq<Block>) {
    forall i :: 0 <= i < |blocks| ==> 0 < blocks[i].data < blocks[i].total <= 255
  }

  lemma {:induction false} SumOfRepeat(n: nat, b: Block, rest: seq<Block>)
    ensures DataBytes(Repeat(n, b) + rest) == n * b.data + DataBytes(rest)
    ensures TotalBytes(Repeat(n, b) + rest) == n * b.total + TotalBytes(rest)
  {
    if n == 0 {
      assert Repeat(0, b) + rest == rest;
    } else {
      SumOfRepeat(n - 1, b, rest);
      var all := Repeat(n, b) + rest;
      assert all[0] == b && all[1..] == Repeat(n - 1, b) + rest;
      OneMore(n, b.data);
      OneMore(n, b.total);
    }
  }

  lemma OneMore(n: nat, k: nat)
    requires n > 0
    ensures n * k == k + (n - 1) * k
  {
  }

  lemma OneGroup(n: nat, b: Block)
    ensures BlocksOf([n, b.total, b.data]) == Repeat(n, b)
    ensures DataBytes(Repeat(n, b)) == n * b.data && TotalBytes(Repeat(n, b)) == n * b.total
  {
    var entry := [n, b.total, b.data];
    assert entry[3..] == [] && BlocksOf([]) == [];
    SumOfRepeat(n, b, []);
    assert Repeat(n, b) + [] == Repeat(n, b);
  }

  lemma TwoGroups(n: nat, b: Block, m: nat, c: Block)
    ensures BlocksOf([n, b.total, b.data, m, c.total, c.data]) == Repeat(n, b) + Repeat(m, c)
    ensures DataBytes(Repeat(n, b) + Repeat(m, c)) == n * b.data + m * c.data
    ensures TotalBytes(Repeat(n, b) + Repeat(m, c)) == n * b.total + m * c.total
  {
    var entry := [n, b.total, b.data, m, c.total, c.data];
    assert entry[3..] == [m, c.total, c.data];
    OneGroup(m, c);
    SumOfRepeat(n, b, Repeat(m, c));
  }

  lemma TableEntry(version: nat)
    requires 1 <= version <= 40
    ensures var e := TableM(version);
      && (|e| == 3 || |e| == 6)
      && (forall i :: 0 <= i < |e| ==> e[i] > 0)
      && e[2] < e[1] <= 255 && (|e| == 6 ==> e[5] < e[4] <= 255)
      && e[0] * e[2] + (if |e| == 6 then e[3] * e[5] else 0) <= if version < 10 then 182 else 2334
  {
  }

  /** The table is sound, and a version's count field is wide enough for all it can hold. */
  lemma TableFacts(version: nat)
    requires 1 <= version <= 40
    ensures Sound(RsBlocks(version)) && RsBlocks(version) != []
    ensures DataBytes(RsBlocks(version)) <= if version < 10 then 182 else 2334
  {
    TableEntry(version);
    hide TableM, BlocksOf, DataBytes, TotalBytes;
    var e := TableM(version);
    var b := Block(e[1], e[2]);
    if |e| == 3 {
      OneGroup(e[0], b);
      assert e == [e[0], e[1], e[2]];
    } else {
      TwoGroups(e[0], b, e[3], Block(e[4], e[5]));
      assert e == [e[0], e[1], e[2], e[3], e[4], e[5]];
    }
  }

  function EntryTotal(e: seq<nat>): nat {
    if |e| == 6 then e[0] * e[1] + e[3] * e[4] else if |e| == 3 then e[0] * e[1] else 0
  }

  lemma TableTotal(version: nat)
    requires 1 <= version <= 40
    ensures TotalBytes(RsBlocks(version)) == EntryTotal(TableM(version))
  {
    TableEntry(version);
    hide TableM, BlocksOf, DataBytes, TotalBytes;
    var e := TableM(version);
    var b := Block(e[1], e[2]);
    if |e| == 3 {
      OneGroup(e[0], b);
      assert e == [e[0], e[1], e[2]];
    } else {
      TwoGroups(e[0], b, e[3], Block(e[4], e[5]));
      assert e == [e[0], e[1], e[2], e[3], e[4], e[5]];
    }
  }

  // ---- choosing a version

  /** The least version that fits, or None (the source's exception) exactly when none does. Two passes
      of the outer loop are enough, because the count width changes only once. */
  method ChooseVersion(n: nat) returns (r: Option<nat>, passes: nat)
    ensures r.None? ==> forall v :: 1 <= v <= 40 ==> !Fits(v, n)
    ensures r.Some? ==> 1 <= r.value <= 40 && Fits(r.value, n) && forall v :: 1 <= v < r.value ==> !Fits(v, n)
    ensures passes <= 2
  {
    hide CapacityBits;
    var version := 1;
    passes := 0;
    while true
      invariant (version == 1 && passes == 0) || (10 <= version <= 40 && passes == 1)
      invariant forall v :: 1 <= v < version ==> !Fits(v, n)
      decreases 2 - passes
    {
      passes := passes + 1;
      var needed := 4 + CharCountBits(version) + n * 8;
      var v := version;
      while v <= 40 && CapacityBits(v) < needed
        invariant version <= v <= 41
        invariant forall u :: version <= u < v ==> CapacityBits(u) < needed
      {
        v := v + 1;
      }
      if v > 40 {
        return None, passes;
      }
      if CharCountBits(v) == CharCountBits(version) {
        return Some(v), passes;
      }
      version := v;
    }
  }

  // ---- bits

  function Pow2(n: nat): (p: nat)
    ensures p > 0
  {
    if n == 0 then 1 else 2 * Pow2(n - 1)
  }

  /** The low len bits of n, most significant first. */
  function Bits(n: nat, len: nat): (b: seq<bool>)
    ensures |b| == len
  {
    if len == 0 then [] else Bits(n / 2, len - 1) + [n % 2 == 1]
  }

  function Number(b: seq<bool>): nat {
    if b == [] then 0 else 2 * Number(b[..|b| - 1]) + (if b[|b| - 1] then 1 else 0)
  }

  lemma {:induction false} NumberOfBits(n: nat, len: nat)
    requires n < Pow2(len)
    ensures Number(Bits(n, len)) == n
  {
    if len > 0 {
      NumberOfBits(n / 2, len - 1);
      assert Bits(n, len)[..len - 1] == Bits(n / 2, len - 1);
    }
  }

  /** `(b << 1) | bit` */
  function AppendBit(c: bv8, bit: bool): bv8 {
    (c << 1) | (if bit then 1 else 0)
  }

  /** `(c >> i) & 1` */
  function BitOf(c: bv8, i: nat): bool
    requires i < 8
  {
    (c >> i) & 1 == 1
  }

  /** The bits of a byte are its binary digits. */
  lemma BinaryDigits(c: bv8)
    ensures c == (if BitOf(c, 7) then 128 else 0) + (if BitOf(c, 6) then 64 else 0) + (if BitOf(c, 5) then 32 else 0)
               + (if BitOf(c, 4) then 16 else 0) + (if BitOf(c, 3) then 8 else 0) + (if BitOf(c, 2) then 4 else 0)
               + (if BitOf(c, 1) then 2 else 0) + (if BitOf(c, 0) then 1 else 0)
  {
  }

  function ByteOf(b: seq<bool>): bv8 {
    if b == [] then 0 else AppendBit(ByteOf(b[..|b| - 1]), b[|b| - 1])
  }

  /** The bits of a codeword, most significant first. */
  function BitsOfByte(c: bv8): (b: seq<bool>)
    ensures |b| == 8 && forall i :: 0 <= i < 8 ==> b[i] == BitOf(c, 7 - i)
  {
    seq(8, i requires 0 <= i < 8 => BitOf(c, 7 - i))
  }

  function BitsOfBytes(c: seq<bv8>): (b: seq<bool>)
    ensures |b| == 8 * |c|
  {
    if c == [] then [] else BitsOfBytes(c[..|c| - 1]) + BitsOfByte(c[|c| - 1])
  }

  lemma BitOfAppend(c: bv8, bit: bool, i: nat)
    requires i < 8
    ensures BitOf(AppendBit(c, bit), i) == if i == 0 then bit else BitOf(c, i - 1)
  {
    assert i == 0 || i == 1 || i == 2 || i == 3 || i == 4 || i == 5 || i == 6 || i == 7;
  }

  lemma {:induction false} BitOfByteOf(b: seq<bool>, i: nat)
    requires i < |b| <= 8
    ensures BitOf(ByteOf(b), i) == b[|b| - 1 - i]
  {
    hide BitOf, AppendBit;
    BitOfAppend(ByteOf(b[..|b| - 1]), b[|b| - 1], i);
    if i > 0 {
      BitOfByteOf(b[..|b| - 1], i - 1);
    }
  }

  lemma BitsOfByteOf(b: seq<bool>)
    requires |b| == 8
    ensures BitsOfByte(ByteOf(b)) == b
  {
    hide BitOf, ByteOf;
    forall i | 0 <= i < 8
      ensures BitsOfByte(ByteOf(b))[i] == b[i]
    {
      BitOfByteOf(b, 7 - i);
    }
  }

  // ---- the bit stream

  function Payload(data: seq<Byte>): (b: seq<bool>)
    ensures |b| == 8 * |data|
  {
    if data == [] then [] else Payload(data[..|data| - 1]) + Bits(data[|data| - 1] as int, 8)
  }

  /** n pad bytes, 0xec and 0x11 in turn. */
  function Pads(n: nat): (b: seq<bool>)
    ensures |b| == 8 * n
  {
    if n == 0 then [] else Pads(n - 1) + Bits(if (n - 1) % 2 == 0 then PAD0 else PAD1, 8)
  }

  /** Mode, count, bytes and four zero bits. */
  function Unpadded(data: seq<Byte>, version: nat): (b: seq<bool>)
    ensures |b| == 8 + CharCountBits(version) + 8 * |data|
  {
    Bits(4, 4) + Bits(|data|, CharCountBits(version)) + Payload(data) + [false, false, false, false]
  }

  /** Whatever fits leaves room for the terminator and a whole number of pad bytes. */
  function PadBytes(version: nat, n: nat): (k: nat)
    requires Fits(version, n)
    ensures 8 * k == CapacityBits(version) - (8 + CharCountBits(version) + 8 * n)
  {
    hide RsBlocks, DataBytes;
    DataBytes(RsBlocks(version)) - n - (if version < 10 then 2 else 3)
  }

  /** The whole data bit stream of a version: exactly its capacity. */
  function Stream(data: seq<Byte>, version: nat): (b: seq<bool>)
    requires Fits(version, |data|)
    ensures |b| == CapacityBits(version)
  {
    hide RsBlocks, DataBytes, Unpadded, Pads;
    Unpadded(data, version) + Pads(PadBytes(version, |data|))
  }

  /** The two pad bytes as they are read. */
  const PADDING := "1110110000010001"

  /** The terminator, then pad bytes in turn to the end. */
  predicate Padded(b: seq<bool>) {
    && |b| >= 4 && !b[0] && !b[1] && !b[2] && !b[3]
    && forall k :: 4 <= k < |b| ==> b[k] == (PADDING[(k - 4) % 16] == '1')
  }

  /** An independent reader of a byte-mode stream (section 7.4 of ISO/IEC 18004:2015): the mode 0100, the count in 8
      bits up to version 9 and in 16 from there on, that many bytes, and nothing but padding after them. */
  function ReadStream(b: seq<bool>, version: nat): Option<seq<Byte>> {
    var h := 4 + (if version <= 9 then 8 else 16);
    if |b| < h || b[..4] != [false, true, false, false] then None
    else
      var n := Number(b[4..h]);
      if |b| < h + 8 * n || !Padded(b[h + 8 * n..]) then None else Some(ReadBytes(b[h..h + 8 * n]))
  }

  lemma OneBit(n: nat, high: seq<bool>, all: seq<bool>)
    requires Bits(n / 2, |high|) == high && |all| == |high| + 1 && all[..|high|] == high && all[|high|] == (n % 2 == 1)
    ensures Bits(n, |all|) == all
  {
    hide Bits;
    LastBit(n, |high|);
    Snoc(high, n % 2 == 1, all);
  }

  lemma LastBit(n: nat, len: nat)
    ensures Bits(n, len + 1) == Bits(n / 2, len) + [n % 2 == 1]
  {
  }

  lemma Snoc<T>(front: seq<T>, last: T, all: seq<T>)
    requires |all| == |front| + 1 && all[..|front|] == front && all[|front|] == last
    ensures front + [last] == all
  {
  }

  lemma ModeBits()
    ensures Bits(4, 4) == [false, true, false, false]
  {
    hide Bits;
    NoBits();
    OneBit(0x00, [], [false]);
    OneBit(0x01, [false], [false, true]);
    OneBit(0x02, [false, true], [false, true, false]);
    OneBit(0x04, [false, true, false], [false, true, false, false]);
  }

  lemma Pad0Bits()
    ensures Bits(PAD0, 8) == [true, true, true, false, true, true, false, false]
  {
    hide Bits;
    NoBits();
    OneBit(0x01, [], [true]);
    OneBit(0x03, [true], [true, true]);
    OneBit(0x07, [true, true], [true, true, true]);
    OneBit(0x0e, [true, true, true], [true, true, true, false]);
    OneBit(0x1d, [true, true, true, false], [true, true, true, false, true]);
    OneBit(0x3b, [true, true, true, false, true], [true, true, true, false, true, true]);
    OneBit(0x76, [true, true, true, false, true, true], [true, true, true, false, true, true, false]);
    OneBit(0xec, [true, true, true, false, true, true, false], [true, true, true, false, true, true, false, false]);
  }

  lemma Pad1Bits()
    ensures Bits(PAD1, 8) == [false, false, false, true, false, false, false, true]
  {
    hide Bits;
    NoBits();
    OneBit(0x00, [], [false]);
    OneBit(0x00, [false], [false, false]);
    OneBit(0x00, [false, false], [false, false, false]);
    OneBit(0x01, [false, false, false], [false, false, false, true]);
    OneBit(0x02, [false, false, false, true], [false, false, false, true, false]);
    OneBit(0x04, [false, false, false, true, false], [false, false, false, true, false, false]);
    OneBit(0x08, [false, false, false, true, false, false], [false, false, false, true, false, false, false]);
    OneBit(0x11, [false, false, false, true, false, false, false],
           [false, false, false, true, false, false, false, true]);
  }

  lemma NoBits()
    ensures Bits(0, 0) == []
  {
  }

  /** The drawn padding, one pad byte at a time. */
  lemma PaddingByte(odd: bool, i: nat)
    requires i < 8
    ensures Bits(if odd then PAD1 else PAD0, 8)[i] == (PADDING[if odd then 8 + i else i] == '1')
  {
    hide Bits;
    Pad0Bits();
    Pad1Bits();
    assert i in {0, 1, 2, 3, 4, 5, 6, 7};
  }

  lemma {:induction false} PadsRead(n: nat)
    ensures forall k :: 0 <= k < 8 * n ==> Pads(n)[k] == (PADDING[k % 16] == '1')
  {
    hide Bits;
    if n > 0 {
      PadsRead(n - 1);
      forall k | 8 * (n - 1) <= k < 8 * n ensures Pads(n)[k] == (PADDING[k % 16] == '1') {
        PadsLast(n - 1, k - 8 * (n - 1));
      }
    }
  }

  /** A bit of the last pad byte. */
  lemma PadsLast(n: nat, i: nat)
    requires i < 8
    ensures (8 * n + i) % 16 < 16 && Pads(n + 1)[8 * n + i] == (PADDING[(8 * n + i) % 16] == '1')
  {
    hide Bits;
    PaddingByte(n % 2 == 1, i);
    Sixteenth(n, i);
    assert Pads(n + 1)[8 * n + i] == Bits(if n % 2 == 0 then PAD0 else PAD1, 8)[i];
  }

  lemma Sixteenth(n: nat, i: nat)
    requires i < 8
    ensures (8 * n + i) % 16 == if n % 2 == 1 then 8 + i else i
  {
    var a := n / 2;
    assert n % 2 == 0 ==> 8 * n + i == 16 * a + i;
    assert n % 2 == 1 ==> 8 * n + i == 16 * a + (8 + i);
  }

  function ReadBytes(b: seq<bool>): seq<Byte> {
    if |b| < 8 then []
    else ReadBytes(b[..|b| - 8]) + [(Number(b[|b| - 8..]) % 256) as Byte]
  }

  lemma {:induction false} ReadPayload(data: seq<Byte>)
    ensures ReadBytes(Payload(data)) == data
  {
    hide Bits, Number, Pow2, ReadBytes;
    ReadNothing();
    if data != [] {
      var front, last := data[..|data| - 1], data[|data| - 1];
      ReadPayload(front);
      Pow2of8();
      NumberOfBits(last as int, 8);
      ReadOneMore(Payload(front), Bits(last as int, 8));
      assert data == front + [last];
    }
  }

  lemma ReadNothing()
    ensures ReadBytes([]) == []
  {
  }

  lemma ReadOneMore(front: seq<bool>, last: seq<bool>)
    requires |last| == 8 && Number(last) < 256
    ensures ReadBytes(front + last) == ReadBytes(front) + [Number(last) as Byte]
  {
    var b := front + last;
    assert b[..|b| - 8] == front && b[|b| - 8..] == last;
  }

  lemma Pow2of8()
    ensures Pow2(4) == 16 && Pow2(8) == 256 && Pow2(16) == 65536
  {
    assert Pow2(4) == 16;
    assert Pow2(8) == 256;
    assert Pow2(12) == 4096;
  }

  /** Reading back what was packed gives the input, for every input that fits its version. */
  lemma StreamRoundTrip(data: seq<Byte>, version: nat)
    requires 1 <= version <= 40 && Fits(version, |data|)
    ensures ReadStream(Stream(data, version), version) == Some(data)
  {
    hide Pads, Payload, ReadBytes, RsBlocks, Bits, Number, Pow2, DataBytes, Sound, Padded;
    var b := Stream(data, version);
    var h := 4 + CharCountBits(version);
    TableFacts(version);
    Pow2of8();
    NumberOfBits(|data|, CharCountBits(version));
    ModeBits();
    assert b[..4] == Bits(4, 4);
    assert b[4..h] == Bits(|data|, CharCountBits(version));
    assert b[h..h + 8 * |data|] == Payload(data);
    ReadPayload(data);
    var k := PadBytes(version, |data|);
    PadsRead(k);
    assert b[h + 8 * |data|..] == [false, false, false, false] + Pads(k);
    TailPadded(b[h + 8 * |data|..], Pads(k));
  }

  lemma TailPadded(b: seq<bool>, pads: seq<bool>)
    requires b == [false, false, false, false] + pads
    requires forall k :: 0 <= k < |pads| ==> pads[k] == (PADDING[k % 16] == '1')
    ensures Padded(b)
  {
    forall k | 4 <= k < |b| ensures b[k] == (PADDING[(k - 4) % 16] == '1') {
      assert b[k] == pads[k - 4];
    }
  }

  // ---- interleaving

  /** The entries at index i of the rows that are longer than i, in row order. */
  function Column<T>(rows: seq<seq<T>>, i: nat): seq<T> {
    if rows == [] then []
    else
      var last := rows[|rows| - 1];
      Column(rows[..|rows| - 1], i) + (if i < |last| then [last[i]] else [])
  }

  /** The first n columns one after the other. */
  function Columns<T>(rows: seq<seq<T>>, n: nat): seq<T> {
    if n == 0 then [] else Columns(rows, n - 1) + Column(rows, n - 1)
  }

  /** How many of the rows are longer than i; how many entries the first n columns hold. */
  function Height(lens: seq<nat>, i: nat): nat {
    if lens == [] then 0 else Height(lens[..|lens| - 1], i) + (if i < lens[|lens| - 1] then 1 else 0)
  }

  function Area(lens: seq<nat>, n: nat): nat {
    if n == 0 then 0 else Area(lens, n - 1) + Height(lens, n - 1)
  }

  function Lengths<T>(rows: seq<seq<T>>): (l: seq<nat>)
    ensures |l| == |rows| && forall i :: 0 <= i < |l| ==> l[i] == |rows[i]|
  {
    seq(|rows|, i requires 0 <= i < |rows| => |rows[i]|)
  }

  /** The reader: row r, index i comes after all earlier columns and the earlier rows of its own. */
  function Deinterleave<T(0)>(lens: seq<nat>, s: seq<T>, default: T): (rows: seq<seq<T>>)
    ensures Lengths(rows) == lens
  {
    seq(|lens|, r requires 0 <= r < |lens| =>
      seq(lens[r], i requires 0 <= i < lens[r] =>
        var at := Area(lens, i) + Height(lens[..r], i);
        if at < |s| then s[at] else default))
  }

  lemma {:induction false} ColumnLength<T>(rows: seq<seq<T>>, i: nat)
    ensures |Column(rows, i)| == Height(Lengths(rows), i)
  {
    if rows != [] {
      var n := |rows| - 1;
      ColumnLength(rows[..n], i);
      assert Lengths(rows)[..n] == Lengths(rows[..n]);
    }
  }

  lemma {:induction false} ColumnEntry<T>(rows: seq<seq<T>>, i: nat, r: nat)
    requires r < |rows| && i < |rows[r]|
    ensures Height(Lengths(rows)[..r], i) < |Column(rows, i)|
    ensures Column(rows, i)[Height(Lengths(rows)[..r], i)] == rows[r][i]
  {
    var n := |rows| - 1;
    var front := rows[..n];
    ColumnLength(front, i);
    assert Lengths(rows)[..n] == Lengths(front);
    if r < n {
      ColumnEntry(front, i, r);
      assert Lengths(rows)[..r] == Lengths(front)[..r];
    }
  }

  lemma {:induction false} ColumnsEntry<T>(rows: seq<seq<T>>, n: nat, r: nat, i: nat)
    requires r < |rows| && i < n && i < |rows[r]|
    ensures |Columns(rows, n)| == Area(Lengths(rows), n)
    ensures Area(Lengths(rows), i) + Height(Lengths(rows)[..r], i) < |Columns(rows, n)|
    ensures Columns(rows, n)[Area(Lengths(rows), i) + Height(Lengths(rows)[..r], i)] == rows[r][i]
  {
    hide Column, Height;
    ColumnsLength(rows, n);
    ColumnsLength(rows, n - 1);
    if i < n - 1 {
      ColumnsEntry(rows, n - 1, r, i);
    } else {
      ColumnEntry(rows, i, r);
    }
  }

  lemma {:induction false} ColumnsLength<T>(rows: seq<seq<T>>, n: nat)
    ensures |Columns(rows, n)| == Area(Lengths(rows), n)
  {
    hide Column, Height;
    if n > 0 {
      ColumnsLength(rows, n - 1);
      ColumnLength(rows, n - 1);
    }
  }

  /** Interleaving loses nothing, whatever follows in the stream. */
  lemma InterleaveRoundTrip<T(0)>(rows: seq<seq<T>>, n: nat, rest: seq<T>, default: T)
    requires forall r :: 0 <= r < |rows| ==> |rows[r]| <= n
    ensures Deinterleave(Lengths(rows), Columns(rows, n) + rest, default) == rows
  {
    var back := Deinterleave(Lengths(rows), Columns(rows, n) + rest, default);
    forall r | 0 <= r < |rows|
      ensures back[r] == rows[r]
    {
      forall i | 0 <= i < |rows[r]|
        ensures back[r][i] == rows[r][i]
      {
        ColumnsEntry(rows, n, r, i);
      }
    }
  }

  // ---- blocks

  /** The data bytes cut into blocks. */
  function Slices(codewords: seq<bv8>, blocks: seq<Block>): (rows: seq<seq<bv8>>)
    requires DataBytes(blocks) == |codewords|
    ensures |rows| == |blocks| && forall i :: 0 <= i < |rows| ==> |rows[i]| == blocks[i].data
  {
    if blocks == [] then []
    else [codewords[..blocks[0].data]] + Slices(codewords[blocks[0].data..], blocks[1..])
  }

  function Flatten<T>(rows: seq<seq<T>>): seq<T> {
    if rows == [] then [] else rows[0] + Flatten(rows[1..])
  }

  lemma {:induction false} FlattenSlices(codewords: seq<bv8>, blocks: seq<Block>)
    requires DataBytes(blocks) == |codewords|
    ensures Flatten(Slices(codewords, blocks)) == codewords
  {
    if blocks != [] {
      FlattenSlices(codewords[blocks[0].data..], blocks[1..]);
      assert Slices(codewords, blocks)[1..] == Slices(codewords[blocks[0].data..], blocks[1..]);
    }
  }

  /** The correction bytes of every block. */
  function Corrections(rows: seq<seq<bv8>>, blocks: seq<Block>): (ec: seq<seq<bv8>>)
    requires |rows| == |blocks| && Sound(blocks)
    ensures |ec| == |rows| && forall i :: 0 <= i < |ec| ==> |ec[i]| == blocks[i].total - blocks[i].data
  {
    seq(|rows|, i requires 0 <= i < |rows| => RS.EcOf(rows[i], blocks[i].total - blocks[i].data))
  }

  function MaxLength<T>(rows: seq<seq<T>>): (m: nat)
    ensures forall i :: 0 <= i < |rows| ==> |rows[i]| <= m
  {
    if rows == [] then 0
    else
      var front, last := MaxLength(rows[..|rows| - 1]), |rows[|rows| - 1]|;
      if front >= last then front else last
  }

  function AllColumns<T>(rows: seq<seq<T>>): seq<T> {
    Columns(rows, MaxLength(rows))
  }

  /** Data columns, then correction columns. */
  function Interleaved(codewords: seq<bv8>, blocks: seq<Block>): seq<bv8>
    requires Sound(blocks) && DataBytes(blocks) == |codewords|
  {
    var rows := Slices(codewords, blocks);
    AllColumns(rows) + AllColumns(Corrections(rows, blocks))
  }

  function DataLengths(blocks: seq<Block>): seq<nat> {
    seq(|blocks|, i requires 0 <= i < |blocks| => blocks[i].data)
  }

  function EcLengths(blocks: seq<Block>): seq<nat> {
    seq(|blocks|, i requires 0 <= i < |blocks| =>
      if blocks[i].total >= blocks[i].data then blocks[i].total - blocks[i].data else 0)
  }

  /** Every block with its correction bytes is a codeword. */
  predicate AllCodewords(rows: seq<seq<bv8>>, ecs: seq<seq<bv8>>)
    requires |rows| == |ecs|
  {
    forall i :: 0 <= i < |rows| ==> RS.IsCodeword(rows[i] + ecs[i], |ecs[i]|)
  }

  /** The whole reader: undo the interleaving of the data and of the correction bytes, refuse a block that is not a
      codeword, parse the bits. */
  function Decode(s: seq<bv8>, version: nat): Option<seq<Byte>> {
    var blocks := RsBlocks(version);
    if |s| < DataBytes(blocks) then None
    else
      var rows := Deinterleave(DataLengths(blocks), s, 0);
      var ecs := Deinterleave(EcLengths(blocks), s[DataBytes(blocks)..], 0);
      if |rows| != |ecs| || !AllCodewords(rows, ecs) then None else ReadStream(BitsOfBytes(Flatten(rows)), version)
  }

  /** Both halves of the interleaving come apart again. */
  lemma BothHalves(codewords: seq<bv8>, blocks: seq<Block>, rest: seq<bv8>)
    requires Sound(blocks) && DataBytes(blocks) == |codewords|
    ensures var rows := Slices(codewords, blocks); var s := Interleaved(codewords, blocks) + rest;
      && DataBytes(blocks) <= |s| && Deinterleave(DataLengths(blocks), s, 0) == rows
      && Deinterleave(EcLengths(blocks), s[DataBytes(blocks)..], 0) == Corrections(rows, blocks)
  {
    hide Slices, Deinterleave, Columns, Corrections, MaxLength;
    var rows := Slices(codewords, blocks);
    var ecs := Corrections(rows, blocks);
    var a, b := AllColumns(rows), AllColumns(ecs);
    InterleaveRoundTrip(rows, MaxLength(rows), b + rest, 0);
    InterleaveRoundTrip(ecs, MaxLength(ecs), rest, 0);
    assert Lengths(rows) == DataLengths(blocks) && Lengths(ecs) == EcLengths(blocks);
    DataColumns(codewords, blocks);
    assert a + b + rest == a + (b + rest);
    assert (a + b + rest)[|a|..] == b + rest;
  }

  /** The data columns hold the data bytes. */
  lemma DataColumns(codewords: seq<bv8>, blocks: seq<Block>)
    requires DataBytes(blocks) == |codewords|
    ensures |AllColumns(Slices(codewords, blocks))| == DataBytes(blocks)
  {
    var rows := Slices(codewords, blocks);
    ColumnsLength(rows, MaxLength(rows));
    AreaIsSum(Lengths(rows), MaxLength(rows));
    SumOfData(Lengths(rows), blocks);
  }

  lemma {:induction false} SumOfData(data: seq<nat>, blocks: seq<Block>)
    requires |data| == |blocks| && forall i :: 0 <= i < |blocks| ==> data[i] == blocks[i].data
    ensures SumOf(data) == DataBytes(blocks)
  {
    if blocks != [] {
      var n := |blocks| - 1;
      SumOfData(data[..n], blocks[..n]);
      DataOfLast(blocks);
    }
  }

  lemma {:induction false} DataOfLast(blocks: seq<Block>)
    requires blocks != []
    ensures DataBytes(blocks) == DataBytes(blocks[..|blocks| - 1]) + blocks[|blocks| - 1].data
  {
    if |blocks| > 1 {
      DataOfLast(blocks[1..]);
      assert blocks[1..][..|blocks| - 2] == blocks[..|blocks| - 1][1..];
    }
  }

  lemma CorrectionsComplete(rows: seq<seq<bv8>>, blocks: seq<Block>)
    requires |rows| == |blocks| && Sound(blocks)
    requires forall i :: 0 <= i < |rows| ==> |rows[i]| == blocks[i].data
    ensures AllCodewords(rows, Corrections(rows, blocks))
  {
    hide RS.IsCodeword, RS.EcOf;
    forall i | 0 <= i < |rows|
      ensures RS.IsCodeword(rows[i] + Corrections(rows, blocks)[i], |Corrections(rows, blocks)[i]|)
    {
      RS.CodewordVanishes(rows[i], blocks[i].total - blocks[i].data);
    }
  }

  /** The reader gets the data bits of any symbol laid out like this one. */
  lemma DecodeInterleaved(codewords: seq<bv8>, version: nat, rest: seq<bv8>)
    requires Sound(RsBlocks(version)) && DataBytes(RsBlocks(version)) == |codewords|
    ensures Decode(Interleaved(codewords, RsBlocks(version)) + rest, version) ==
      ReadStream(BitsOfBytes(codewords), version)
  {
    hide RsBlocks, Slices, Flatten, Deinterleave, Corrections, ReadStream, BitsOfBytes, Interleaved, AllCodewords;
    var blocks := RsBlocks(version);
    var rows := Slices(codewords, blocks);
    FlattenSlices(codewords, blocks);
    BothHalves(codewords, blocks, rest);
    CorrectionsComplete(rows, blocks);
  }

  function SumOf(lens: seq<nat>): nat {
    if lens == [] then 0 else SumOf(lens[..|lens| - 1]) + lens[|lens| - 1]
  }

  lemma {:induction false} AreaOneRow(lens: seq<nat>, n: nat)
    requires lens != []
    ensures var last := lens[|lens| - 1];
      Area(lens, n) == Area(lens[..|lens| - 1], n) + (if last <= n then last else n)
  {
    if n > 0 {
      AreaOneRow(lens, n - 1);
    }
  }

  lemma {:induction false} AreaIsSum(lens: seq<nat>, n: nat)
    requires forall i :: 0 <= i < |lens| ==> lens[i] <= n
    ensures Area(lens, n) == SumOf(lens)
  {
    if lens == [] {
      NoArea(n);
    } else {
      AreaOneRow(lens, n);
      AreaIsSum(lens[..|lens| - 1], n);
    }
  }

  lemma {:induction false} NoArea(n: nat)
    ensures Area([], n) == 0
  {
    if n > 0 {
      NoArea(n - 1);
    }
  }

  lemma {:induction false} SumOfBlocks(data: seq<nat>, ec: seq<nat>, blocks: seq<Block>)
    requires |data| == |ec| == |blocks| && Sound(blocks)
    requires forall i :: 0 <= i < |blocks| ==> data[i] == blocks[i].data && ec[i] == blocks[i].total - blocks[i].data
    ensures SumOf(data) + SumOf(ec) == TotalBytes(blocks)
  {
    if blocks != [] {
      var n := |blocks| - 1;
      SumOfBlocks(data[..n], ec[..n], blocks[..n]);
      TotalOfLast(blocks);
    }
  }

  lemma {:induction false} TotalOfLast(blocks: seq<Block>)
    requires blocks != []
    ensures TotalBytes(blocks) == TotalBytes(blocks[..|blocks| - 1]) + blocks[|blocks| - 1].total
  {
    if |blocks| > 1 {
      TotalOfLast(blocks[1..]);
      assert blocks[1..][..|blocks| - 2] == blocks[..|blocks| - 1][1..];
    }
  }

  /** The symbol holds as many bytes as its blocks have in all. */
  lemma InterleavedLength(codewords: seq<bv8>, blocks: seq<Block>)
    requires Sound(blocks) && DataBytes(blocks) == |codewords|
    ensures |Interleaved(codewords, blocks)| == TotalBytes(blocks)
  {
    var rows := Slices(codewords, blocks);
    var ec := Corrections(rows, blocks);
    ColumnsLength(rows, MaxLength(rows));
    ColumnsLength(ec, MaxLength(ec));
    AreaIsSum(Lengths(rows), MaxLength(rows));
    AreaIsSum(Lengths(ec), MaxLength(ec));
    SumOfBlocks(Lengths(rows), Lengths(ec), blocks);
  }

  /** Every block of the symbol is a Reed-Solomon codeword. */
  lemma BlocksAreCodewords(codewords: seq<bv8>, blocks: seq<Block>, i: nat)
    requires Sound(blocks) && DataBytes(blocks) == |codewords| && i < |blocks|
    ensures var rows := Slices(codewords, blocks);
      RS.IsCodeword(rows[i] + Corrections(rows, blocks)[i], blocks[i].total - blocks[i].data)
  {
    hide RS.IsCodeword, RS.EcOf, Slices;
    RS.CodewordVanishes(Slices(codewords, blocks)[i], blocks[i].total - blocks[i].data);
  }

  function CodewordsOf(b: seq<bool>): (c: seq<bv8>)
    requires |b| % 8 == 0
    ensures 8 * |c| == |b|
  {
    if b == [] then [] else CodewordsOf(b[..|b| - 8]) + [ByteOf(b[|b| - 8..])]
  }

  lemma {:induction false} BitsOfCodewords(b: seq<bool>)
    requires |b| % 8 == 0
    ensures BitsOfBytes(CodewordsOf(b)) == b
  {
    hide ByteOf, BitsOfByte;
    if b != [] {
      BitsOfCodewords(b[..|b| - 8]);
      BitsOfByteOf(b[|b| - 8..]);
      assert b == b[..|b| - 8] + b[|b| - 8..];
    }
  }

  lemma WholeBytes(n: nat)
    ensures n * 8 % 8 == 0
  {
  }

  /** A data bit stream as the symbol's bytes. */
  function EncodedBits(b: seq<bool>, blocks: seq<Block>): seq<bv8>
    requires Sound(blocks) && |b| == DataBytes(blocks) * 8
  {
    WholeBytes(DataBytes(blocks));
    Interleaved(CodewordsOf(b), blocks)
  }

  function Encoded(data: seq<Byte>, version: nat): seq<bv8>
    requires 1 <= version <= 40 && Fits(version, |data|)
  {
    TableFacts(version);
    EncodedBits(Stream(data, version), RsBlocks(version))
  }

  /** The round trip over the whole data path: for every input that fits, in any version, and whatever
      follows the symbol's bytes. */
  lemma EncodedDecodes(data: seq<Byte>, version: nat, rest: seq<bv8>)
    requires 1 <= version <= 40 && Fits(version, |data|)
    ensures |Encoded(data, version)| == TotalBytes(RsBlocks(version))
    ensures Decode(Encoded(data, version) + rest, version) == Some(data)
  {
    TableFacts(version);
    hide RsBlocks, Stream, ReadStream, Sound, TotalBytes, EncodedBits, Decode;
    EncodedBitsDecode(Stream(data, version), version, rest);
    StreamRoundTrip(data, version);
  }

  /** A block of the symbol: its data bytes and their correction bytes. */
  function BlockOf(data: seq<Byte>, version: nat, i: nat): (p: RS.Poly)
    requires 1 <= version <= 40 && Fits(version, |data|) && i < |RsBlocks(version)|
    ensures |p| == RsBlocks(version)[i].total
  {
    TableFacts(version);
    WholeBytes(DataBytes(RsBlocks(version)));
    var rows := Slices(CodewordsOf(Stream(data, version)), RsBlocks(version));
    rows[i] + Corrections(rows, RsBlocks(version))[i]
  }

  /** The two symbols differ in this block in more places than it has correction bytes. */
  ghost predicate FarApart(a: seq<Byte>, b: seq<Byte>, version: nat, i: nat)
    requires 1 <= version <= 40 && Fits(version, |a|) && Fits(version, |b|) && i < |RsBlocks(version)|
  {
    var block := RsBlocks(version)[i];
    RS.Distance(BlockOf(a, version, i), BlockOf(b, version, i)) > block.total - block.data
  }

  /** Different data of one version give symbols with a block that differs in more places than it has correction
      bytes. */
  lemma DataFarApart(a: seq<Byte>, b: seq<Byte>, version: nat)
    requires 1 <= version <= 40 && Fits(version, |a|) && Fits(version, |b|) && a != b
    ensures exists i :: 0 <= i < |RsBlocks(version)| && FarApart(a, b, version, i)
  {
    TableFacts(version);
    hide RsBlocks, Stream, Fits, BlockOf, Sound, RS.Distance, RS.IsCodeword;
    if forall i :: 0 <= i < |RsBlocks(version)| ==> BlockOf(a, version, i) == BlockOf(b, version, i) {
      SameBlocks(a, b, version);
      EncodedDecodes(a, version, []);
      EncodedDecodes(b, version, []);
      assert false;
    }
    var i: nat :| i < |RsBlocks(version)| && BlockOf(a, version, i) != BlockOf(b, version, i);
    BlockIsCodeword(a, version, i);
    BlockIsCodeword(b, version, i);
    RS.CodeDistance(BlockOf(a, version, i), BlockOf(b, version, i),
                    RsBlocks(version)[i].total - RsBlocks(version)[i].data);
    assert FarApart(a, b, version, i);
  }

  lemma BlockIsCodeword(data: seq<Byte>, version: nat, i: nat)
    requires 1 <= version <= 40 && Fits(version, |data|) && i < |RsBlocks(version)|
    ensures RsBlocks(version)[i].data < RsBlocks(version)[i].total <= 255
    ensures RS.IsCodeword(BlockOf(data, version, i), RsBlocks(version)[i].total - RsBlocks(version)[i].data)
  {
    TableFacts(version);
    hide RsBlocks, Stream, Fits, CodewordsOf, Slices, Corrections, RS.IsCodeword;
    WholeBytes(DataBytes(RsBlocks(version)));
    BlocksAreCodewords(CodewordsOf(Stream(data, version)), RsBlocks(version), i);
  }

  /** The symbol is determined by its blocks. */
  lemma SameBlocks(a: seq<Byte>, b: seq<Byte>, version: nat)
    requires 1 <= version <= 40 && Fits(version, |a|) && Fits(version, |b|)
    requires forall i :: 0 <= i < |RsBlocks(version)| ==> BlockOf(a, version, i) == BlockOf(b, version, i)
    ensures Encoded(a, version) == Encoded(b, version)
  {
    TableFacts(version);
    hide RsBlocks, Stream, Fits, CodewordsOf, Slices, Corrections, Interleaved;
    var blocks := RsBlocks(version);
    WholeBytes(DataBytes(blocks));
    var c, d := CodewordsOf(Stream(a, version)), CodewordsOf(Stream(b, version));
    var rows, cols := Slices(c, blocks), Slices(d, blocks);
    forall i | 0 <= i < |rows| ensures rows[i] == cols[i] {
      assert BlockOf(a, version, i)[..blocks[i].data] == rows[i];
      assert BlockOf(b, version, i)[..blocks[i].data] == cols[i];
    }
    assert rows == cols;
    FlattenSlices(c, blocks);
    FlattenSlices(d, blocks);
  }

  lemma EncodedBitsDecode(b: seq<bool>, version: nat, rest: seq<bv8>)
    requires Sound(RsBlocks(version)) && |b| == DataBytes(RsBlocks(version)) * 8
    ensures |EncodedBits(b, RsBlocks(version))| == TotalBytes(RsBlocks(version))
    ensures Decode(EncodedBits(b, RsBlocks(version)) + rest, version) == ReadStream(b, version)
  {
    hide RsBlocks, CodewordsOf, Interleaved, Decode, ReadStream, Sound, BitsOfBytes;
    WholeBytes(DataBytes(RsBlocks(version)));
    BitsOfCodewords(b);
    InterleavedLength(CodewordsOf(b), RsBlocks(version));
    DecodeInterleaved(CodewordsOf(b), version, rest);
  }

  // ---- the loops

  method BuildBlocks(entry: seq<nat>) returns (blocks: seq<Block>)
    requires |entry| % 3 == 0
    ensures blocks == BlocksOf(entry)
  {
    hide BlocksOf;
    blocks := [];
    var i := 0;
    assert entry[0..] == entry;
    while i < |entry|
      invariant i <= |entry| && i % 3 == 0
      invariant blocks + BlocksOf(entry[i..]) == BlocksOf(entry)
    {
      BlocksStep(entry, i);
      var b := Block(entry[i + 1], entry[i + 2]);
      ghost var before := blocks;
      for k := 0 to entry[i]
        invariant blocks == before + Repeat(k, b)
      {
        blocks := blocks + [b];
      }
      i := i + 3;
    }
    BlocksDone(entry[i..]);
  }

  lemma BlocksStep(entry: seq<nat>, i: nat)
    requires i + 3 <= |entry|
    ensures BlocksOf(entry[i..]) == Repeat(entry[i], Block(entry[i + 1], entry[i + 2])) + BlocksOf(entry[i + 3..])
  {
    assert entry[i..][3..] == entry[i + 3..];
  }

  lemma BlocksDone(rest: seq<nat>)
    requires rest == []
    ensures BlocksOf(rest) == []
  {
  }

  /** `n >> i` */
  function ShiftRight(n: nat, i: nat): nat {
    if i == 0 then n else ShiftRight(n, i - 1) / 2
  }

  /** `put`: the low bits of n, most significant first. */
  method Put(bits: seq<bool>, n: nat, length: nat) returns (r: seq<bool>)
    ensures r == bits + Bits(n, length)
  {
    r := bits;
    for i := length downto 0
      invariant r == bits + Bits(ShiftRight(n, i), length - i)
    {
      r := r + [ShiftRight(n, i) % 2 == 1];
    }
  }

  /** createBytes: cut into blocks, append each block's correction bytes, read out by columns. */
  method CreateBytes(codewords: seq<bv8>, blocks: seq<Block>) returns (out: seq<bv8>)
    requires Sound(blocks) && DataBytes(blocks) == |codewords|
    ensures out == Interleaved(codewords, blocks)
  {
    hide DataBytes, Slices, Interleaved, MaxLength, RS.EcOf;
    var offset, maxDc, maxEc := 0, 0, 0;
    var dcdata: seq<seq<bv8>>, ecdata: seq<seq<bv8>> := [], [];
    ghost var rows := Slices(codewords, blocks);
    ghost var ecs := Corrections(rows, blocks);
    assert codewords[0..] == codewords && blocks[0..] == blocks && rows[0..] == rows;
    NoRows<bv8>();
    for i := 0 to |blocks|
      invariant dcdata == rows[..i] && ecdata == ecs[..i]
      invariant 0 <= offset <= |codewords| && offset + DataBytes(blocks[i..]) == |codewords|
      invariant Slices(codewords[offset..], blocks[i..]) == rows[i..]
      invariant maxDc == MaxLength(rows[..i]) && maxEc == MaxLength(ecs[..i])
    {
      var b := blocks[i];
      SliceStep(codewords, blocks, rows, i, offset);
      var dc := codewords[offset..offset + b.data];
      offset := offset + b.data;
      var ec := RS.RsEcCodewords(dc, b.total - b.data);
      MaxLengthStep(rows, i);
      MaxLengthStep(ecs, i);
      maxDc := if maxDc >= |dc| then maxDc else |dc|;
      maxEc := if maxEc >= |ec| then maxEc else |ec|;
      dcdata, ecdata := dcdata + [dc], ecdata + [ec];
    }
    assert rows[..|blocks|] == rows && ecs[..|blocks|] == ecs;
    var data := ReadColumns(dcdata, maxDc);
    var ec := ReadColumns(ecdata, maxEc);
    out := data + ec;
    InterleavedIs(codewords, blocks);
  }

  lemma InterleavedIs(codewords: seq<bv8>, blocks: seq<Block>)
    requires Sound(blocks) && DataBytes(blocks) == |codewords|
    ensures var rows := Slices(codewords, blocks);
      var ecs := Corrections(rows, blocks);
      Interleaved(codewords, blocks) == Columns(rows, MaxLength(rows)) + Columns(ecs, MaxLength(ecs))
  {
  }

  lemma NoRows<T>()
    ensures MaxLength<T>([]) == 0
  {
  }

  lemma MaxLengthStep<T>(rows: seq<seq<T>>, i: nat)
    requires i < |rows|
    ensures MaxLength(rows[..i + 1]) == if MaxLength(rows[..i]) >= |rows[i]| then MaxLength(rows[..i]) else |rows[i]|
  {
    assert rows[..i + 1][..i] == rows[..i];
  }

  lemma SliceStep(codewords: seq<bv8>, blocks: seq<Block>, rows: seq<seq<bv8>>, i: nat, offset: nat)
    requires i < |blocks| == |rows| && offset + DataBytes(blocks[i..]) == |codewords|
    requires Slices(codewords[offset..], blocks[i..]) == rows[i..]
    ensures var next := offset + blocks[i].data;
      && next <= |codewords| && next + DataBytes(blocks[i + 1..]) == |codewords|
      && codewords[offset..next] == rows[i]
      && Slices(codewords[next..], blocks[i + 1..]) == rows[i + 1..]
  {
    var next := offset + blocks[i].data;
    assert blocks[i..][1..] == blocks[i + 1..];
    assert codewords[offset..][..blocks[i].data] == codewords[offset..next];
    assert codewords[offset..][blocks[i].data..] == codewords[next..];
    assert rows[i..][0] == rows[i] && rows[i..][1..] == rows[i + 1..];
  }

  /** The nested loops of createBytes. */
  method ReadColumns<T>(rows: seq<seq<T>>, n: nat) returns (out: seq<T>)
    ensures out == Columns(rows, n)
  {
    out := [];
    for i := 0 to n
      invariant out == Columns(rows, i)
    {
      for r := 0 to |rows|
        invariant out == Columns(rows, i) + Column(rows[..r], i)
      {
        assert rows[..r + 1][..r] == rows[..r];
        if i < |rows[r]| {
          out := out + [rows[r][i]];
        }
      }
      assert rows[..|rows|] == rows;
    }
  }

  /** encodeData: pack, terminate, pad, cut into bytes, add correction bytes. The bound of the terminator
      loop shrinks as it pushes; the byte alignment after it makes up the difference. */
  method EncodeData(data: seq<Byte>, version: nat) returns (out: seq<bv8>)
    requires 1 <= version <= 40 && Fits(version, |data|)
    ensures out == Encoded(data, version)
    ensures |out| == TotalBytes(RsBlocks(version)) && Decode(out, version) == Some(data)
  {
    hide RsBlocks, TableM, Decode, TotalBytes, Sound, EncodedBits, Stream;
    TableFacts(version);
    var blocks := BlocksOfVersion(version);
    var bits := BuildStream(data, version);
    out := EncodeBits(bits, blocks);
    EncodedDecodes(data, version, []);
    assert out + [] == out;
  }

  method BuildStream(data: seq<Byte>, version: nat) returns (bits: seq<bool>)
    requires Fits(version, |data|)
    ensures bits == Stream(data, version)
  {
    hide RsBlocks, DataBytes, Pads, Payload, Bits;
    ghost var k := PadBytes(version, |data|);
    var bitLimit := CapacityBits(version);
    bits := PackData(data, version);
    bits := Terminate(bits, bitLimit);
    bits := Pad(bits, bitLimit, k);
  }

  method EncodeBits(bits: seq<bool>, blocks: seq<Block>) returns (out: seq<bv8>)
    requires Sound(blocks) && |bits| == DataBytes(blocks) * 8
    ensures out == EncodedBits(bits, blocks)
  {
    hide CodewordsOf, Interleaved, Sound;
    WholeBytes(DataBytes(blocks));
    var codewords := GroupBits(bits);
    out := CreateBytes(codewords, blocks);
  }

  method BlocksOfVersion(version: nat) returns (blocks: seq<Block>)
    requires 1 <= version <= 40
    ensures blocks == RsBlocks(version)
  {
    TableEntry(version);
    hide *;
    blocks := BuildBlocks(TableM(version));
    RsBlocksIs(version);
  }

  lemma RsBlocksIs(version: nat)
    ensures RsBlocks(version) == BlocksOf(TableM(version))
  {
    hide TableM, BlocksOf;
  }

  method Pad(b: seq<bool>, bitLimit: nat, ghost k: nat) returns (bits: seq<bool>)
    requires |b| + 8 * k == bitLimit
    ensures bits == b + Pads(k)
  {
    hide Bits;
    bits := b;
    var i := 0;
    while |bits| < bitLimit
      invariant 0 <= i <= k && bits == b + Pads(i)
      decreases k - i
    {
      bits := Put(bits, if i % 2 == 0 then PAD0 else PAD1, 8);
      i := i + 1;
    }
  }

  method PackData(data: seq<Byte>, version: nat) returns (bits: seq<bool>)
    ensures bits == Bits(4, 4) + Bits(|data|, CharCountBits(version)) + Payload(data)
  {
    hide Bits;
    bits := Put([], 4, 4);
    bits := Put(bits, |data|, CharCountBits(version));
    ghost var head := bits;
    for i := 0 to |data|
      invariant bits == head + Payload(data[..i])
    {
      assert data[..i + 1][..i] == data[..i];
      bits := Put(bits, data[i] as int, 8);
    }
    assert data[..|data|] == data;
  }

  /** Four zero bits, for every stream that leaves room for them. */
  method Terminate(b: seq<bool>, bitLimit: nat) returns (bits: seq<bool>)
    requires |b| % 8 == 4 && bitLimit % 8 == 0 && |b| < bitLimit
    ensures bits == b + [false, false, false, false]
  {
    bits := b;
    var i := 0;
    while i < (if bitLimit - |bits| < 4 then bitLimit - |bits| else 4)
      invariant i <= 4 && |bits| == |b| + i <= bitLimit
      invariant bits == b + Zeros(i)
    {
      bits := bits + [false];
      i := i + 1;
    }
    assert i >= 2;
    while |bits| % 8 != 0
      invariant i <= 4 && |bits| == |b| + i && bits == b + Zeros(i)
      decreases 4 - i
    {
      bits := bits + [false];
      i := i + 1;
    }
    assert i == 4;
  }

  function Zeros(n: nat): (z: seq<bool>)
    ensures |z| == n && forall i :: 0 <= i < n ==> !z[i]
  {
    seq(n, _ => false)
  }

  method GroupBits(bits: seq<bool>) returns (codewords: seq<bv8>)
    requires |bits| % 8 == 0
    ensures codewords == CodewordsOf(bits)
  {
    hide ByteOf;
    codewords := [];
    var i := 0;
    while i < |bits|
      invariant i % 8 == 0 && i <= |bits| && codewords == CodewordsOf(bits[..i])
    {
      var b := GroupByte(bits[i..i + 8]);
      assert bits[..i + 8][..i] == bits[..i] && bits[..i + 8][i..] == bits[i..i + 8];
      codewords := codewords + [b];
      i := i + 8;
    }
    assert bits[..i] == bits;
  }

  method GroupByte(bits: seq<bool>) returns (b: bv8)
    requires |bits| == 8
    ensures b == ByteOf(bits)
  {
    hide AppendBit;
    b := 0;
    for j := 0 to 8
      invariant b == ByteOf(bits[..j])
    {
      assert bits[..j + 1][..j] == bits[..j];
      b := AppendBit(b, bits[j]);
    }
    assert bits[..8] == bits;
  }
}

/** A reader's view of a symbol of extension/src/qr.ts, from the figures and words that ISO/IEC 18004:2015 publishes and
    from nothing the encoder computes: what a symbol of a version has to show, which cells that leaves for data, and
    what the data says. */
module QrFigures {
  import opened QrData
  import opened QrPlacement
  import opened Wrappers

  type Matrix = seq<seq<bool>>

  // ---- what is drawn

  /** The finder pattern of a corner with its separator. */
  function Finder(): (f: seq<string>)
    ensures |f| == 8 && forall r :: 0 <= r < 8 ==> |f[r]| == 8
  {
    ["#######.",
     "#.....#.",
     "#.###.#.",
     "#.###.#.",
     "#.###.#.",
     "#.....#.",
     "#######.",
     "........"]
  }

  /** The three corners show the finder pattern, turned towards the middle. */
  predicate FindersDrawn(m: Matrix, n: nat)
    requires Square(m, n) && n >= 21
  {
    forall r, k :: 0 <= r < 8 && 0 <= k < 8 ==> FinderShown(m, n, r, k)
  }

  predicate FinderShown(m: Matrix, n: nat, r: nat, k: nat)
    requires Square(m, n) && n >= 21 && r < 8 && k < 8
  {
    var dark := Finder()[r][k] == '#';
    m[r][k] == dark && m[r][n - 1 - k] == dark && m[n - 1 - r][k] == dark
  }

  /** The timing lines alternate between the finder patterns, dark on even coordinates. */
  predicate TimingDrawn(m: Matrix, n: nat)
    requires Square(m, n) && n >= 21
  {
    forall k :: 8 <= k < n - 8 ==> m[6][k] == (k % 2 == 0) && m[k][6] == (k % 2 == 0)
  }

  function Alignment(): (f: seq<string>)
    ensures |f| == 5 && forall r :: 0 <= r < 5 ==> |f[r]| == 5
  {
    ["#####",
     "#...#",
     "#.#.#",
     "#...#",
     "#####"]
  }

  /** How many alignment centres a side has. */
  function CentreCount(version: nat): nat {
    if version < 2 then 0 else version / 7 + 2
  }

  /** The centres are 6 and, ending at the seventh cell from the far edge, a row of even spacing. */
  function Spacing(version: nat): nat
    requires version >= 2
  {
    (8 * version + 3 * CentreCount(version) + 5) / (4 * CentreCount(version) - 4) * 2
  }

  function Centre(version: nat, a: nat): int
    requires a < CentreCount(version)
  {
    if a == 0 then 6 else 4 * version + 10 - Spacing(version) * (CentreCount(version) - 1 - a)
  }

  /** The centres under the finder patterns are not drawn. */
  predicate Corner(version: nat, a: nat, b: nat) {
    var last := CentreCount(version) - 1;
    (a == 0 && b == 0) || (a == 0 && b == last) || (a == last && b == 0)
  }

  predicate AlignmentsDrawn(m: Matrix, n: nat, version: nat)
    requires Square(m, n)
  {
    forall a, b, r, k | 0 <= a < CentreCount(version) && 0 <= b < CentreCount(version) && 0 <= r < 5 && 0 <= k < 5 ::
      Corner(version, a, b) || AlignmentShown(m, n, version, a, b, r, k)
  }

  predicate AlignmentShown(m: Matrix, n: nat, version: nat, a: nat, b: nat, r: nat, k: nat)
    requires Square(m, n) && a < CentreCount(version) && b < CentreCount(version) && r < 5 && k < 5
  {
    var row, col := Centre(version, a) + r - 2, Centre(version, b) + k - 2;
    0 <= row < n && 0 <= col < n && m[row][col] == (Alignment()[r][k] == '#')
  }

  // ---- format and version information

  /** The format information of a mask at level M (Annex C). */
  function FormatWord(mask: nat): bv32
    requires mask < 8
  {
    match mask
    case 0 => 0x5412
    case 1 => 0x5125
    case 2 => 0x5e7c
    case 3 => 0x5b4b
    case 4 => 0x45f9
    case 5 => 0x40ce
    case 6 => 0x4f97
    case _ => 0x4aa0
  }

  function FormatBit(mask: nat, i: nat): bool
    requires mask < 8 && i < 15
  {
    (FormatWord(mask) >> i) & 1 == 1
  }

  /** Where bits 0 to 14 stand: the rows of column 8, and the columns of row 8. */
  function FormatRows(n: nat): (p: seq<nat>)
    requires n >= 21
    ensures |p| == 15 && forall i :: 0 <= i < 15 ==> p[i] < n
  {
    [0, 1, 2, 3, 4, 5, 7, 8, n - 7, n - 6, n - 5, n - 4, n - 3, n - 2, n - 1]
  }

  function FormatColumns(n: nat): (p: seq<nat>)
    requires n >= 21
    ensures |p| == 15 && forall i :: 0 <= i < 15 ==> p[i] < n
  {
    [n - 1, n - 2, n - 3, n - 4, n - 5, n - 6, n - 7, n - 8, 7, 5, 4, 3, 2, 1, 0]
  }

  /** Both copies of the format information say this mask. */
  predicate FormatDrawn(m: Matrix, n: nat, mask: nat)
    requires Square(m, n) && n >= 21 && mask < 8
  {
    m[n - 8][8] && forall i :: 0 <= i < 15 ==> FormatShown(m, n, mask, i)
  }

  predicate FormatShown(m: Matrix, n: nat, mask: nat, i: nat)
    requires Square(m, n) && n >= 21 && mask < 8 && i < 15
  {
    var dark := FormatBit(mask, i);
    m[FormatRows(n)[i]][8] == dark && m[8][FormatColumns(n)[i]] == dark
  }

  /** The version information (Annex D). */
  function VersionWord(version: nat): bv32
    requires 7 <= version <= 40
  {
    match version
    case 7 => 0x07c94
    case 8 => 0x085bc
    case 9 => 0x09a99
    case 10 => 0x0a4d3
    case 11 => 0x0bbf6
    case 12 => 0x0c762
    case 13 => 0x0d847
    case 14 => 0x0e60d
    case 15 => 0x0f928
    case 16 => 0x10b78
    case 17 => 0x1145d
    case 18 => 0x12a17
    case 19 => 0x13532
    case 20 => 0x149a6
    case 21 => 0x15683
    case 22 => 0x168c9
    case 23 => 0x177ec
    case 24 => 0x18ec4
    case 25 => 0x191e1
    case 26 => 0x1afab
    case 27 => 0x1b08e
    case 28 => 0x1cc1a
    case 29 => 0x1d33f
    case 30 => 0x1ed75
    case 31 => 0x1f250
    case 32 => 0x209d5
    case 33 => 0x216f0
    case 34 => 0x228ba
    case 35 => 0x2379f
    case 36 => 0x24b0b
    case 37 => 0x2542e
    case 38 => 0x26a64
    case 39 => 0x27541
    case _ => 0x28c69
  }

  function VersionBit(version: nat, i: nat): bool
    requires 7 <= version <= 40 && i < 18
  {
    (VersionWord(version) >> i) & 1 == 1
  }

  /** Both copies of the version information, from version 7 on. */
  predicate VersionDrawn(m: Matrix, n: nat, version: nat)
    requires Square(m, n) && n >= 21 && version <= 40
  {
    version >= 7 ==> forall r, k :: 0 <= r < 6 && 0 <= k < 3 ==> VersionShown(m, n, version, r, k)
  }

  predicate VersionShown(m: Matrix, n: nat, version: nat, r: nat, k: nat)
    requires Square(m, n) && n >= 21 && 7 <= version <= 40 && r < 6 && k < 3
  {
    var dark := VersionBit(version, 3 * r + k);
    m[r][n - 11 + k] == dark && m[n - 11 + k][r] == dark
  }

  // ---- the cells left for data

  /** The cell belongs to the alignment pattern at these centres. */
  predicate Covers(version: nat, a: nat, b: nat, r: int, c: int)
    requires a < CentreCount(version) && b < CentreCount(version)
  {
    && !Corner(version, a, b)
    && -2 <= r - Centre(version, a) <= 2 && -2 <= c - Centre(version, b) <= 2
  }

  predicate InAlignment(version: nat, r: int, c: int) {
    exists a, b | 0 <= a < CentreCount(version) && 0 <= b < CentreCount(version) :: Covers(version, a, b, r, c)
  }

  predicate InCorner(n: nat, r: int, c: int) {
    (r < 9 && c < 9) || (r < 9 && c >= n - 8) || (r >= n - 8 && c < 9)
  }

  predicate InVersion(n: nat, version: nat, r: int, c: int) {
    version >= 7 && ((r < 6 && n - 11 <= c < n - 8) || (c < 6 && n - 11 <= r < n - 8))
  }

  /** No data goes into the corners with their format information, the timing lines, the alignment patterns and the
      version information. */
  predicate Reserved(n: nat, version: nat, r: int, c: int) {
    InCorner(n, r, c) || r == 6 || c == 6 || InAlignment(version, r, c) || InVersion(n, version, r, c)
  }

  /** The cells of a version, the ones for data empty. */
  function Layout(n: nat, version: nat): (g: Grid)
    ensures Square(g, n)
  {
    Tabulate(n, (r, c) requires 0 <= r < n && 0 <= c < n =>
      if Reserved(n, version, r, c) then Some(false) else None)
  }

  // ---- reading

  /** The first mask from `from` on whose format information the symbol shows. */
  function MaskShown(m: Matrix, n: nat, from: nat): (r: Option<nat>)
    requires n >= 21 && Square(m, n) && from <= 8
    ensures r.Some? ==> from <= r.value < 8 && FormatDrawn(m, n, r.value)
    ensures r.None? ==> forall k :: from <= k < 8 ==> !FormatDrawn(m, n, k)
    decreases 8 - from
  {
    if from == 8 then None else if FormatDrawn(m, n, from) then Some(from) else MaskShown(m, n, from + 1)
  }

  /** The whole reader, given the matrix and nothing else: the version is read off the size, every pattern of that
      version has to be there, and the mask is read off the format information. */
  function DecodeSymbol(m: Matrix): Option<seq<Byte>> {
    hide FindersDrawn, TimingDrawn, AlignmentsDrawn, VersionDrawn;
    var n := |m|;
    if n < 21 || n > 177 || n % 4 != 1 || !Square(m, n) then None
    else
      var version := (n - 17) / 4;
      if !FindersDrawn(m, n) || !TimingDrawn(m, n) || !AlignmentsDrawn(m, n, version) || !VersionDrawn(m, n, version)
      then None
      else
        match MaskShown(m, n, 0)
        case None => None
        case Some(mask) => DecodeData(n, version, mask, m)
  }

  /** Walk the data cells, undo the mask, put the bytes back into their blocks, check and parse them. */
  function DecodeData(n: nat, version: nat, mask: nat, m: Matrix): Option<seq<Byte>>
    requires 1 <= version <= 40 && mask < 8 && n == 17 + 4 * version && Square(m, n)
  {
    hide Layout, ReadAll, RsBlocks, TotalBytes, CodewordsOf, Decode;
    assert n == 2 * (8 + 2 * version) + 1;
    var total := TotalBytes(RsBlocks(version));
    var bits := ReadAll(Layout(n, version), m, n, mask);
    WholeBytes(total);
    if |bits| < total * 8 then None else Decode(CodewordsOf(bits[..total * 8]), version)
  }

  /** No symbol shows two masks. */
  lemma OneMaskShown(m: Matrix, n: nat, j: nat, k: nat)
    requires n >= 21 && Square(m, n) && j < 8 && k < 8 && FormatDrawn(m, n, j) && FormatDrawn(m, n, k)
    ensures j == k
  {
    hide FormatBit, FormatRows, FormatColumns;
    WordSpells(j);
    WordSpells(k);
    assert FormatShown(m, n, j, 10) && FormatShown(m, n, j, 11) && FormatShown(m, n, j, 12);
    assert FormatShown(m, n, k, 10) && FormatShown(m, n, k, 11) && FormatShown(m, n, k, 12);
  }

  /** Three of the format bits spell the mask. */
  lemma WordSpells(mask: nat)
    requires mask < 8
    ensures FormatBit(mask, 10) == (mask % 2 == 0)
    ensures FormatBit(mask, 11) == (mask / 2 % 2 == 1)
    ensures FormatBit(mask, 12) == (mask / 4 == 0)
  {
    assert mask in {0, 1, 2, 3, 4, 5, 6, 7};
  }

  // ---- the blocks

  /** Data bytes of a version at level M, blocks, and correction bytes in each block (Table 9 of the standard). */
  datatype Plan = Plan(data: nat, blocks: nat, correction: nat)

  function PlanOf(version: nat): Plan
    requires 1 <= version <= 40
  {
    match version
    case 1 => Plan(16, 1, 10)
    case 2 => Plan(28, 1, 16)
    case 3 => Plan(44, 1, 26)
    case 4 => Plan(64, 2, 18)
    case 5 => Plan(86, 2, 24)
    case 6 => Plan(108, 4, 16)
    case 7 => Plan(124, 4, 18)
    case 8 => Plan(154, 4, 22)
    case 9 => Plan(182, 5, 22)
    case 10 => Plan(216, 5, 26)
    case 11 => Plan(254, 5, 30)
    case 12 => Plan(290, 8, 22)
    case 13 => Plan(334, 9, 22)
    case 14 => Plan(365, 9, 24)
    case 15 => Plan(415, 10, 24)
    case 16 => Plan(453, 10, 28)
    case 17 => Plan(507, 11, 28)
    case 18 => Plan(563, 13, 26)
    case 19 => Plan(627, 14, 26)
    case 20 => Plan(669, 16, 26)
    case 21 => Plan(714, 17, 26)
    case 22 => Plan(782, 17, 28)
    case 23 => Plan(860, 18, 28)
    case 24 => Plan(914, 20, 28)
    case 25 => Plan(1000, 21, 28)
    case 26 => Plan(1062, 23, 28)
    case 27 => Plan(1128, 25, 28)
    case 28 => Plan(1193, 26, 28)
    case 29 => Plan(1267, 28, 28)
    case 30 => Plan(1373, 29, 28)
    case 31 => Plan(1455, 31, 28)
    case 32 => Plan(1541, 33, 28)
    case 33 => Plan(1631, 35, 28)
    case 34 => Plan(1725, 37, 28)
    case 35 => Plan(1812, 38, 28)
    case 36 => Plan(1914, 40, 28)
    case 37 => Plan(1992, 43, 28)
    case 38 => Plan(2102, 45, 28)
    case 39 => Plan(2216, 47, 28)
    case _ => Plan(2334, 49, 28)
  }

  /** The data is cut as evenly as can be, the longer blocks last. */
  function BlockAt(p: Plan, i: nat): Block
    requires i < p.blocks
  {
    var data := p.data / p.blocks + (if i < p.blocks - p.data % p.blocks then 0 else 1);
    Block(data + p.correction, data)
  }

  /** The blocks of the encoder's table are the published ones. */
  lemma BlocksPublished(version: nat)
    requires 1 <= version <= 40
    ensures |RsBlocks(version)| == PlanOf(version).blocks
    ensures forall i :: 0 <= i < PlanOf(version).blocks ==> RsBlocks(version)[i] == BlockAt(PlanOf(version), i)
  {
    hide TableM, BlocksOf, PlanOf;
    var e, p := TableM(version), PlanOf(version);
    if version <= 20 {
      LowPlans(version);
    } else if version <= 30 {
      MiddlePlans(version);
    } else {
      HighPlans(version);
    }
    Quotient(e[2], p.blocks, if |e| == 6 then e[3] else 0);
    if |e| == 3 {
      OneGroup(e[0], Block(e[1], e[2]));
      assert e == [e[0], e[1], e[2]];
    } else {
      TwoGroups(e[0], Block(e[1], e[2]), e[3], Block(e[4], e[5]));
      assert e == [e[0], e[1], e[2], e[3], e[4], e[5]];
    }
  }

  lemma Quotient(q: nat, b: nat, r: nat)
    requires r < b
    ensures (q * b + r) / b == q && (q * b + r) % b == r
  {
    var x := q * b + r;
    Unique(b, q, r, x / b, x % b);
  }

  lemma Unique(b: nat, q: nat, r: nat, d: nat, m: nat)
    requires r < b && m < b && q * b + r == d * b + m
    ensures q == d && r == m
  {
    var k := q - d;
    assert k * b == m - r;
    if k != 0 {
      AtLeastOnce(b, if k > 0 then k else -k);
    }
  }

  lemma AtLeastOnce(b: nat, k: nat)
    requires k > 0
    ensures k * b >= b
  {
  }

  /** A row of the table, in the published terms: so many short blocks, and the rest one byte longer. */
  predicate RowAgrees(e: seq<nat>, p: Plan) {
    && (|e| == 3 || |e| == 6)
    && var longer := if |e| == 6 then e[3] else 0;
    && (|e| == 6 ==> longer > 0 && e[5] == e[2] + 1 && e[4] == e[5] + p.correction)
    && e[1] == e[2] + p.correction && e[0] > 0 && p.blocks == e[0] + longer && p.data == e[2] * p.blocks + longer
  }

  lemma LowPlans(version: nat)
    requires 1 <= version <= 20
    ensures RowAgrees(TableM(version), PlanOf(version))
  {
  }

  lemma MiddlePlans(version: nat)
    requires 20 < version <= 30
    ensures RowAgrees(TableM(version), PlanOf(version))
  {
  }

  lemma HighPlans(version: nat)
    requires 30 < version <= 40
    ensures RowAgrees(TableM(version), PlanOf(version))
  {
  }
}

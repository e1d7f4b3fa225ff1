/** Module placement in extension/src/qr.ts: the zigzag over the free cells of a symbol.

    A cell's place in the zigzag is a triple (column pair, step within the pair, side). `mapData` is
    proved to write exactly the free cells, each with the stream bit of its rank among them, and a
    reader that walks the same path is proved to recover the stream. */
module QrPlacement {
  import opened Gf256
  import opened Wrappers
  import opened QrData

  type Cell = Option<bool>
  type Grid = seq<seq<Cell>>

  predicate Square<T>(g: seq<seq<T>>, n: nat) {
    |g| == n && forall r :: 0 <= r < n ==> |g[r]| == n
  }

  function Tabulate<T>(n: nat, f: (int, int) --> T): (g: seq<seq<T>>)
    requires forall r, c :: 0 <= r < n && 0 <= c < n ==> f.requires(r, c)
    ensures Square(g, n)
    ensures forall r, c :: 0 <= r < n && 0 <= c < n ==> g[r][c] == f(r, c)
  {
    seq(n, r requires 0 <= r < n => seq(n, c requires 0 <= c < n => f(r, c)))
  }

  ghost function View(mods: array2<Cell>): (g: Grid)
    requires mods.Length0 == mods.Length1
    reads mods
    ensures Square(g, mods.Length0)
    ensures forall r, c :: 0 <= r < mods.Length0 && 0 <= c < mods.Length0 ==> g[r][c] == mods[r, c]
  {
    seq(mods.Length0, r requires 0 <= r < mods.Length0 reads mods =>
      seq(mods.Length0, c requires 0 <= c < mods.Length0 reads mods => mods[r, c]))
  }

  lemma SameGrid<T>(g: seq<seq<T>>, h: seq<seq<T>>, n: nat)
    requires Square(g, n) && Square(h, n)
    requires forall r, c :: 0 <= r < n && 0 <= c < n ==> g[r][c] == h[r][c]
    ensures g == h
  {
    forall r | 0 <= r < n
      ensures g[r] == h[r]
    {
    }
  }

  // ---- the path

  /** Sizes a path is defined for: odd, and wide enough to have the timing column. */
  predicate OddSize(n: nat) {
    n % 2 == 1 && n >= 7
  }

  /** Column pairs, from the right; the one that would start at the timing column moves left. */
  function RightOf(n: nat, pair: nat): int {
    var col := n - 1 - 2 * pair;
    if col <= 6 then col - 1 else col
  }

  /** Even pairs go up, odd pairs go down. */
  function RowOf(n: nat, pair: nat, step: nat): int {
    if pair % 2 == 0 then n - 1 - step else step
  }

  function ColOf(n: nat, pair: nat, side: nat): int {
    RightOf(n, pair) - side
  }

  function Pairs(n: nat): nat {
    n / 2
  }

  predicate OnPath(n: nat, pair: nat, step: nat, side: nat) {
    OddSize(n) && pair < Pairs(n) && step < n && side < 2
  }

  function PairAt(n: nat, c: nat): int {
    if c > 6 then (n - 1 - c) / 2 else (n - 2 - c) / 2
  }

  function SideAt(n: nat, c: nat): int {
    if c > 6 then (n - 1 - c) % 2 else (n - 2 - c) % 2
  }

  function StepAt(n: nat, r: nat, c: nat): int {
    if PairAt(n, c) % 2 == 0 then n - 1 - r else r
  }

  /** The path is a bijection onto the cells outside the timing column: onto. */
  lemma PathCovers(n: nat, r: nat, c: nat)
    requires OddSize(n) && r < n && c < n && c != 6
    ensures 0 <= PairAt(n, c) && 0 <= StepAt(n, r, c) && 0 <= SideAt(n, c)
    ensures OnPath(n, PairAt(n, c), StepAt(n, r, c), SideAt(n, c))
    ensures RowOf(n, PairAt(n, c), StepAt(n, r, c)) == r && ColOf(n, PairAt(n, c), SideAt(n, c)) == c
  {
  }

  /** ... and one to one, never touching the timing column. */
  lemma PathInjective(n: nat, pair: nat, step: nat, side: nat)
    requires OnPath(n, pair, step, side)
    ensures 0 <= RowOf(n, pair, step) < n && 0 <= ColOf(n, pair, side) < n && ColOf(n, pair, side) != 6
    ensures var r, c := RowOf(n, pair, step), ColOf(n, pair, side);
      PairAt(n, c) == pair && StepAt(n, r, c) == step && SideAt(n, c) == side
  {
  }

  /** The walk as a reader makes it on a symbol, whose size is one more than a multiple of four: from the right cell
      of a pair of columns to the left one, then to the next row of the pair, up or down as its right column says, and
      from the last row into the next pair, which skips the timing column. */
  function After(n: nat, r: int, c: int): (int, int) {
    var right := if c > 6 then c % 2 == 0 else c % 2 == 1;
    if right then (r, c - 1)
    else
      var up := (c + 1) % 4 == 0 || (c + 1) % 4 == 3;
      var r' := if up then r - 1 else r + 1;
      if 0 <= r' < n then (r', c + 1) else (r, if c == 7 then 5 else c - 1)
  }

  /** The path is that walk, from the bottom right corner. */
  lemma PathWalks(n: nat, pair: nat, step: nat, side: nat)
    requires OnPath(n, pair, step, side) && n % 4 == 1
    ensures RowOf(n, 0, 0) == n - 1 && ColOf(n, 0, 0) == n - 1
    ensures var (p, t, s) := if side == 0 then (pair, step, 1)
                             else if step + 1 < n then (pair, step + 1, 0) else (pair + 1, 0, 0);
      p < Pairs(n) ==> After(n, RowOf(n, pair, step), ColOf(n, pair, side)) == (RowOf(n, p, t), ColOf(n, p, s))
  {
    var k := n / 4;
    assert n == 4 * k + 1;
    if pair % 2 == 0 {
      assert pair == 2 * (pair / 2);
    } else {
      assert pair == 2 * (pair / 2) + 1;
    }
  }

  /** Cell (r, c) comes before place (pair, step, side). */
  predicate Visited(n: nat, r: nat, c: nat, pair: nat, step: nat, side: nat) {
    c != 6 &&
    (PairAt(n, c) < pair ||
     (PairAt(n, c) == pair && (StepAt(n, r, c) < step || (StepAt(n, r, c) == step && SideAt(n, c) < side))))
  }

  // ---- ranks and the data a cell receives

  function Free(g: Grid, n: nat, pair: nat, step: nat, side: nat): (k: nat)
    requires Square(g, n) && OnPath(n, pair, step, side)
    ensures k <= 1
  {
    PathInjective(n, pair, step, side);
    if g[RowOf(n, pair, step)][ColOf(n, pair, side)] == None then 1 else 0
  }

  /** How many free cells come before a place. */
  function Rank(g: Grid, n: nat, pair: nat, step: nat, side: nat): nat
    requires Square(g, n) && OddSize(n) && pair <= Pairs(n) && step < n && side < 2
    requires pair == Pairs(n) ==> step == side == 0
    decreases pair, step, side
  {
    if side == 1 then Rank(g, n, pair, step, 0) + Free(g, n, pair, step, 0)
    else if step > 0 then Rank(g, n, pair, step - 1, 1) + Free(g, n, pair, step - 1, 1)
    else if pair > 0 then Rank(g, n, pair - 1, n - 1, 1) + Free(g, n, pair - 1, n - 1, 1)
    else 0
  }

  function FreeCells(g: Grid, n: nat): nat
    requires Square(g, n) && OddSize(n)
  {
    Rank(g, n, Pairs(n), 0, 0)
  }

  /** Bit k of the codewords, and zeros after them. */
  function StreamBit(data: seq<bv8>, k: nat): bool {
    k / 8 < |data| && BitOf(data[k / 8], 7 - k % 8)
  }

  function Mask(pattern: nat, i: nat, j: nat): bool
    requires pattern < 8
  {
    match pattern
    case 0 => (i + j) % 2 == 0
    case 1 => i % 2 == 0
    case 2 => j % 3 == 0
    case 3 => (i + j) % 3 == 0
    case 4 => (i / 2 + j / 3) % 2 == 0
    case 5 => (i * j) % 2 + (i * j) % 3 == 0
    case 6 => ((i * j) % 2 + (i * j) % 3) % 2 == 0
    case _ => ((i * j) % 3 + (i + j) % 2) % 2 == 0
  }

  /** The eight mask patterns as they are drawn (Table 10 of ISO/IEC 18004:2015): what they invert is '#', and the
      drawing repeats in both directions. */
  function Tile(pattern: nat): (t: seq<string>)
    requires pattern < 8
    ensures |t| == Rows(pattern) && forall i :: 0 <= i < |t| ==> |t[i]| == 6
  {
    match pattern
    case 0 => ["#.#.#.", ".#.#.#", "#.#.#.", ".#.#.#", "#.#.#.", ".#.#.#"]
    case 1 => ["######", "......", "######", "......", "######", "......"]
    case 2 => ["#..#..", "#..#..", "#..#..", "#..#..", "#..#..", "#..#.."]
    case 3 => ["#..#..", "..#..#", ".#..#.", "#..#..", "..#..#", ".#..#."]
    case 4 => ["###...", "###...", "...###", "...###"]
    case 5 => ["######", "#.....", "#..#..", "#.#.#.", "#..#..", "#....."]
    case 6 => ["######", "###...", "##.##.", "#.#.#.", "#.##.#", "#...##"]
    case _ => ["#.#.#.", "...###", "#...##", ".#.#.#", "###...", ".###.."]
  }

  function Rows(pattern: nat): nat {
    if pattern == 4 then 4 else 6
  }

  /** The drawn pattern inverts cell (i, j). */
  predicate Inverts(pattern: nat, i: nat, j: nat)
    requires pattern < 8
  {
    Tile(pattern)[i % Rows(pattern)][j % 6] == '#'
  }

  lemma EvenAway(k: nat, x: nat)
    ensures (2 * k + x) % 2 == x % 2
  {
  }

  lemma ThirdsAway(k: nat, x: nat)
    ensures (3 * k + x) % 3 == x % 3 && (3 * k + x) / 3 == k + x / 3
  {
  }

  /** What the formulas look at, for a coordinate 6 * a + x. */
  lemma Residues(a: nat, x: nat)
    requires x < 6
    ensures (6 * a + x) % 2 == x % 2 && (6 * a + x) % 3 == x % 3 && (6 * a + x) / 3 % 2 == x / 3 % 2
  {
    EvenAway(3 * a, x);
    ThirdsAway(2 * a, x);
    EvenAway(a, x / 3);
  }

  /** The fourth pattern alternates every two rows. */
  lemma RowPairs(a: nat, x: nat)
    requires x < 4
    ensures (4 * a + x) / 2 % 2 == x / 2 % 2
  {
    assert (4 * a + x) / 2 == 2 * a + x / 2;
  }

  lemma ProductParity(i: nat, j: nat)
    ensures i * j % 2 == (i % 2) * (j % 2) % 2
  {
    var a, p, b, q := i / 2, i % 2, j / 2, j % 2;
    var k := 2 * a * b + a * q + p * b;
    assert i * j == (2 * a + p) * (2 * b + q) == 2 * k + p * q;
    EvenAway(k, p * q);
  }

  lemma ProductThirds(i: nat, j: nat)
    ensures i * j % 3 == (i % 3) * (j % 3) % 3
  {
    var a, p, b, q := i / 3, i % 3, j / 3, j % 3;
    var k := 3 * a * b + a * q + p * b;
    assert i * j == (3 * a + p) * (3 * b + q) == 3 * k + p * q;
    ThirdsAway(k, p * q);
  }

  lemma SumResidues(i: nat, j: nat)
    ensures (i + j) % 2 == (i % 2 + j % 2) % 2 && (i + j) % 3 == (i % 3 + j % 3) % 3
    ensures (i / 2 + j / 3) % 2 == (i / 2 % 2 + j / 3 % 2) % 2
  {
    SumParity(i, j);
    SumParity(i / 2, j / 3);
    SumThirds(i, j);
  }

  lemma SumParity(i: nat, j: nat)
    ensures (i + j) % 2 == (i % 2 + j % 2) % 2
  {
    EvenAway(i / 2 + j / 2, i % 2 + j % 2);
    assert i + j == 2 * (i / 2 + j / 2) + (i % 2 + j % 2);
  }

  lemma SumThirds(i: nat, j: nat)
    ensures (i + j) % 3 == (i % 3 + j % 3) % 3
  {
    ThirdsAway(i / 3 + j / 3, i % 3 + j % 3);
    assert i + j == 3 * (i / 3 + j / 3) + (i % 3 + j % 3);
  }

  /** The formulas look at no more of a coordinate than these residues. */
  lemma MaskFollows(pattern: nat, i: nat, j: nat, x: nat, y: nat)
    requires pattern < 8 && j % 2 == y % 2 && j % 3 == y % 3 && j / 3 % 2 == y / 3 % 2
    requires pattern == 4 ==> i / 2 % 2 == x / 2 % 2
    requires pattern != 4 ==> i % 2 == x % 2 && i % 3 == x % 3
    ensures Mask(pattern, i, j) == Mask(pattern, x, y)
  {
    ProductParity(i, j);
    ProductParity(x, y);
    ProductThirds(i, j);
    ProductThirds(x, y);
    SumResidues(i, j);
    SumResidues(x, y);
  }

  /** The mask formulas draw the published patterns. */
  lemma MaskIsTile(pattern: nat, i: nat, j: nat)
    requires pattern < 8
    ensures Mask(pattern, i, j) == Inverts(pattern, i, j)
  {
    hide Mask, Tile;
    var x := i % Rows(pattern);
    Residues(j / 6, j % 6);
    if pattern == 4 {
      RowPairs(i / 4, x);
    } else {
      Residues(i / 6, x);
    }
    MaskFollows(pattern, i, j, x, j % 6);
    MaskTile(pattern, x, j % 6);
  }

  lemma MaskTile(pattern: nat, i: nat, j: nat)
    requires pattern < 8 && i < Rows(pattern) && j < 6
    ensures Mask(pattern, i, j) == (Tile(pattern)[i][j] == '#')
  {
    match pattern
    case 0 => Tile0(i, j);
    case 1 => Tile1(i, j);
    case 2 => Tile2(i, j);
    case 3 => Tile3(i, j);
    case 4 => Tile4(i, j);
    case 5 => Tile5(i, j);
    case 6 => Tile6(i, j);
    case _ => Tile7(i, j);
  }

  lemma Tile0(i: nat, j: nat)
    requires i < 6 && j < 6
    ensures Mask(0, i, j) == (Tile(0)[i][j] == '#')
  {
    assert i in {0, 1, 2, 3, 4, 5};
  }

  lemma Tile1(i: nat, j: nat)
    requires i < 6 && j < 6
    ensures Mask(1, i, j) == (Tile(1)[i][j] == '#')
  {
    assert i in {0, 1, 2, 3, 4, 5};
  }

  lemma Tile2(i: nat, j: nat)
    requires i < 6 && j < 6
    ensures Mask(2, i, j) == (Tile(2)[i][j] == '#')
  {
    assert i in {0, 1, 2, 3, 4, 5};
  }

  lemma Tile3(i: nat, j: nat)
    requires i < 6 && j < 6
    ensures Mask(3, i, j) == (Tile(3)[i][j] == '#')
  {
    assert i in {0, 1, 2, 3, 4, 5};
  }

  lemma Tile4(i: nat, j: nat)
    requires i < 4 && j < 6
    ensures Mask(4, i, j) == (Tile(4)[i][j] == '#')
  {
    assert i in {0, 1, 2, 3};
  }

  /** Products modulo 2 and 3, from the residues of their factors. */
  function Parity(x: nat, y: nat): nat {
    if x == 0 || y == 0 then 0 else 1
  }

  function Third(x: nat, y: nat): nat {
    if x == 0 || y == 0 then 0 else if x == y then 1 else 2
  }

  lemma MaskByProduct(pattern: nat, i: nat, j: nat)
    requires 5 <= pattern < 8
    ensures var two, three := Parity(i % 2, j % 2), Third(i % 3, j % 3);
      Mask(pattern, i, j) == if pattern == 5 then two + three == 0
                             else if pattern == 6 then (two + three) % 2 == 0
                             else (three + (i + j) % 2) % 2 == 0
  {
    ProductParity(i, j);
    ProductThirds(i, j);
    assert i % 2 in {0, 1} && j % 2 in {0, 1} && i % 3 in {0, 1, 2} && j % 3 in {0, 1, 2};
  }

  lemma Tile5(i: nat, j: nat)
    requires i < 6 && j < 6
    ensures Mask(5, i, j) == (Tile(5)[i][j] == '#')
  {
    hide Mask;
    MaskByProduct(5, i, j);
    assert i in {0, 1, 2, 3, 4, 5};
  }

  lemma Tile6(i: nat, j: nat)
    requires i < 6 && j < 6
    ensures Mask(6, i, j) == (Tile(6)[i][j] == '#')
  {
    hide Mask;
    MaskByProduct(6, i, j);
    assert i in {0, 1, 2, 3, 4, 5};
  }

  lemma Tile7(i: nat, j: nat)
    requires i < 6 && j < 6
    ensures Mask(7, i, j) == (Tile(7)[i][j] == '#')
  {
    hide Mask;
    MaskByProduct(7, i, j);
    assert i in {0, 1, 2, 3, 4, 5};
  }

  /** The masked bit a free cell receives. */
  function DataCell(g: Grid, n: nat, data: seq<bv8>, mask: nat, r: nat, c: nat): bool
    requires Square(g, n) && OddSize(n) && r < n && c < n && c != 6 && mask < 8
  {
    PathCovers(n, r, c);
    StreamBit(data, Rank(g, n, PairAt(n, c), StepAt(n, r, c), SideAt(n, c))) != Mask(mask, r, c)
  }

  /** The grid after the path has been walked up to a place. */
  function Partial(g: Grid, n: nat, data: seq<bv8>, mask: nat, pair: nat, step: nat, side: nat, r: nat, c: nat): Cell
    requires Square(g, n) && OddSize(n) && r < n && c < n && mask < 8
  {
    if Visited(n, r, c, pair, step, side) && g[r][c] == None then Some(DataCell(g, n, data, mask, r, c)) else g[r][c]
  }

  /** mapData as a function: free cells receive data, the others stay. */
  function Mapped(g: Grid, n: nat, data: seq<bv8>, mask: nat): Grid
    requires Square(g, n) && OddSize(n) && mask < 8
  {
    Tabulate(n, (r, c) requires 0 <= r < n && 0 <= c < n =>
      if c != 6 && g[r][c] == None then Some(DataCell(g, n, data, mask, r, c)) else g[r][c])
  }

  /** One visit of mapData's inner loop changes one cell at most. */
  lemma PartialStep(g: Grid, n: nat, data: seq<bv8>, mask: nat, pair: nat, step: nat, side: nat, r: nat, c: nat)
    requires Square(g, n) && OnPath(n, pair, step, side) && mask < 8 && r < n && c < n
    ensures Partial(g, n, data, mask, pair, step, side + 1, r, c) ==
      if r == RowOf(n, pair, step) && c == ColOf(n, pair, side) && g[r][c] == None
      then Some(StreamBit(data, Rank(g, n, pair, step, side)) != Mask(mask, r, c))
      else Partial(g, n, data, mask, pair, step, side, r, c)
    ensures r == RowOf(n, pair, step) && c == ColOf(n, pair, side) ==>
      Partial(g, n, data, mask, pair, step, side, r, c) == g[r][c]
  {
    hide Rank, StreamBit, Mask;
    PathInjective(n, pair, step, side);
    if c != 6 {
      PathCovers(n, r, c);
    }
  }

  /** Both sides done is the next step; all steps done is the next pair. */
  lemma NextPlace(n: nat, pair: nat, step: nat, r: nat, c: nat)
    requires OddSize(n) && pair < Pairs(n) && step < n && r < n && c < n
    ensures Visited(n, r, c, pair, step, 2) <==> Visited(n, r, c, pair, step + 1, 0)
    ensures Visited(n, r, c, pair, n, 0) <==> Visited(n, r, c, pair + 1, 0, 0)
  {
    if c != 6 {
      PathCovers(n, r, c);
    }
  }

  // ---- the loops

  /** The walk has reached a place: cells before it are written, the stream position is its rank. */
  ghost predicate Reached(mods: array2<Cell>, g: Grid, data: seq<bv8>, mask: nat,
                          pair: nat, step: nat, side: nat)
    reads mods
  {
    && mods.Length0 == mods.Length1 && Square(g, mods.Length0) && OddSize(mods.Length0) && mask < 8
    && forall r, c :: 0 <= r < mods.Length0 && 0 <= c < mods.Length0 ==>
         mods[r, c] == Partial(g, mods.Length0, data, mask, pair, step, side, r, c)
  }

  /** The body of the innermost loop: fill one cell if it is free, and advance the stream. */
  method VisitCell(mods: array2<Cell>, data: seq<bv8>, mask: nat, row: nat, c: nat, byteIndex: nat, bitIndex: int,
                   ghost g: Grid, ghost pair: nat, ghost step: nat, ghost side: nat)
    returns (byteIndex': nat, bitIndex': int)
    requires Reached(mods, g, data, mask, pair, step, side)
    requires OnPath(mods.Length0, pair, step, side)
    requires row == RowOf(mods.Length0, pair, step) && c == ColOf(mods.Length0, pair, side)
    requires 0 <= bitIndex <= 7 && 8 * byteIndex + 7 - bitIndex == Rank(g, mods.Length0, pair, step, side)
    modifies mods
    ensures Reached(mods, g, data, mask, pair, step, side + 1)
    ensures 0 <= bitIndex' <= 7
    ensures 8 * byteIndex' + 7 - bitIndex' ==
      Rank(g, mods.Length0, pair, step, side) + Free(g, mods.Length0, pair, step, side)
  {
    hide Partial, Rank, StreamBit, Mask;
    ghost var n := mods.Length0;
    PathInjective(n, pair, step, side);
    forall r, k | 0 <= r < n && 0 <= k < n
      ensures Partial(g, n, data, mask, pair, step, side + 1, r, k) ==
        if r == row && k == c && g[r][k] == None
        then Some(StreamBit(data, Rank(g, n, pair, step, side)) != Mask(mask, r, k))
        else Partial(g, n, data, mask, pair, step, side, r, k)
    {
      PartialStep(g, n, data, mask, pair, step, side, r, k);
    }
    PartialStep(g, n, data, mask, pair, step, side, row, c);
    byteIndex', bitIndex' := byteIndex, bitIndex;
    if mods[row, c] == None {
      var dark := false;
      if byteIndex < |data| {
        dark := BitOf(data[byteIndex], bitIndex);
      }
      StreamPosition(byteIndex, bitIndex, data);
      if Mask(mask, row, c) {
        dark := !dark;
      }
      mods[row, c] := Some(dark);
      bitIndex' := bitIndex' - 1;
      if bitIndex' == -1 {
        byteIndex' := byteIndex' + 1;
        bitIndex' := 7;
      }
    }
  }

  lemma StreamPosition(byteIndex: nat, bitIndex: int, data: seq<bv8>)
    requires 0 <= bitIndex <= 7
    ensures StreamBit(data, 8 * byteIndex + 7 - bitIndex) == (byteIndex < |data| && BitOf(data[byteIndex], bitIndex))
  {
    var k := 8 * byteIndex + 7 - bitIndex;
    assert k / 8 == byteIndex && k % 8 == 7 - bitIndex;
  }

  lemma ReachedShape(mods: array2<Cell>, g: Grid, data: seq<bv8>, mask: nat, pair: nat, step: nat, side: nat)
    requires Reached(mods, g, data, mask, pair, step, side)
    ensures mods.Length0 == mods.Length1 && Square(g, mods.Length0) && OddSize(mods.Length0) && mask < 8
  {
  }

  /** Both sides of a step are done. */
  lemma StepDone(mods: array2<Cell>, g: Grid, data: seq<bv8>, mask: nat, pair: nat, step: nat)
    requires Reached(mods, g, data, mask, pair, step, 2) && pair < Pairs(mods.Length0) && step < mods.Length0
    ensures Reached(mods, g, data, mask, pair, step + 1, 0)
    ensures step + 1 == mods.Length0 ==> Reached(mods, g, data, mask, pair + 1, 0, 0)
  {
    var n := mods.Length0;
    forall r, c | 0 <= r < n && 0 <= c < n
      ensures Visited(n, r, c, pair, step, 2) <==> Visited(n, r, c, pair, step + 1, 0)
      ensures Visited(n, r, c, pair, n, 0) <==> Visited(n, r, c, pair + 1, 0, 0)
    {
      NextPlace(n, pair, step, r, c);
    }
  }

  lemma RankOfRow(g: Grid, n: nat, pair: nat, step: nat)
    requires Square(g, n) && OnPath(n, pair, step, 1)
    ensures Rank(g, n, pair, step, 1) == Rank(g, n, pair, step, 0) + Free(g, n, pair, step, 0)
    ensures var next := Rank(g, n, pair, step, 1) + Free(g, n, pair, step, 1);
      if step + 1 < n then Rank(g, n, pair, step + 1, 0) == next else Rank(g, n, pair + 1, 0, 0) == next
  {
  }

  /** One column pair, walked up or down. */
  method WalkPair(mods: array2<Cell>, data: seq<bv8>, mask: nat, right: nat, row: int, inc: int, byteIndex: nat,
                  bitIndex: int,
                  ghost g: Grid, ghost pair: nat)
    returns (row': int, inc': int, byteIndex': nat, bitIndex': int)
    requires Reached(mods, g, data, mask, pair, 0, 0) && pair < Pairs(mods.Length0)
    requires right == RightOf(mods.Length0, pair)
    requires inc == (if pair % 2 == 0 then -1 else 1) && row == RowOf(mods.Length0, pair, 0)
    requires 0 <= bitIndex <= 7 && 8 * byteIndex + 7 - bitIndex == Rank(g, mods.Length0, pair, 0, 0)
    modifies mods
    ensures Reached(mods, g, data, mask, pair + 1, 0, 0)
    ensures inc' == -inc && row' == RowOf(mods.Length0, pair + 1, 0)
    ensures 0 <= bitIndex' <= 7 && 8 * byteIndex' + 7 - bitIndex' == Rank(g, mods.Length0, pair + 1, 0, 0)
  {
    hide Reached, Rank, Free, RightOf;
    assert Square(g, mods.Length0) && OddSize(mods.Length0) by { ReachedShape(mods, g, data, mask, pair, 0, 0); }
    var n := mods.Length0;
    row', inc', byteIndex', bitIndex' := row, inc, byteIndex, bitIndex;
    ghost var step := 0;
    while true
      invariant step < n && row' == RowOf(n, pair, step) && inc' == inc
      invariant Reached(mods, g, data, mask, pair, step, 0)
      invariant 0 <= bitIndex' <= 7 && 8 * byteIndex' + 7 - bitIndex' == Rank(g, n, pair, step, 0)
      decreases n - step
    {
      PathInjective(n, pair, step, 0);
      PathInjective(n, pair, step, 1);
      RankOfRow(g, n, pair, step);
      byteIndex', bitIndex' := VisitCell(mods, data, mask, row', right, byteIndex', bitIndex', g, pair, step, 0);
      byteIndex', bitIndex' := VisitCell(mods, data, mask, row', right - 1, byteIndex', bitIndex', g, pair, step, 1);
      StepDone(mods, g, data, mask, pair, step);
      row' := row' + inc';
      if row' < 0 || n <= row' {
        row' := row' - inc';
        inc' := -inc';
        break;
      }
      step := step + 1;
    }
  }

  /** mapData. */
  method MapData(mods: array2<Cell>, data: seq<bv8>, mask: nat)
    requires mods.Length0 == mods.Length1 && OddSize(mods.Length0) && mask < 8
    modifies mods
    ensures View(mods) == Mapped(old(View(mods)), mods.Length0, data, mask)
  {
    var n := mods.Length0;
    ghost var g := View(mods);
    var inc, row, bitIndex, byteIndex := -1, n - 1, 7, 0;
    var col := n - 1;
    ghost var pair := 0;
    while col > 0
      invariant pair <= Pairs(n) && col == n - 1 - 2 * pair
      invariant Reached(mods, g, data, mask, pair, 0, 0)
      invariant inc == (if pair % 2 == 0 then -1 else 1) && row == RowOf(n, pair, 0)
      invariant 0 <= byteIndex && 0 <= bitIndex <= 7 && 8 * byteIndex + 7 - bitIndex == Rank(g, n, pair, 0, 0)
    {
      var right := if col <= 6 then col - 1 else col;
      row, inc, byteIndex, bitIndex := WalkPair(mods, data, mask, right, row, inc, byteIndex, bitIndex, g, pair);
      col := col - 2;
      pair := pair + 1;
    }
    hide DataCell;
    forall r, c | 0 <= r < n && 0 <= c < n
      ensures View(mods)[r][c] == Mapped(g, n, data, mask)[r][c]
    {
      if c != 6 {
        PathCovers(n, r, c);
      }
    }
    SameGrid(View(mods), Mapped(g, n, data, mask), n);
  }

  // ---- reading back

  /** An independent reader: walk the path over the free cells of g and undo the drawn mask on what m holds there. */
  function Read(g: Grid, m: seq<seq<bool>>, n: nat, mask: nat, pair: nat, step: nat, side: nat): (b: seq<bool>)
    requires Square(g, n) && Square(m, n) && OddSize(n) && mask < 8
    requires pair <= Pairs(n) && step < n && side < 2 && (pair == Pairs(n) ==> step == side == 0)
    ensures |b| == Rank(g, n, pair, step, side)
    decreases pair, step, side
  {
    if side == 1 then Read(g, m, n, mask, pair, step, 0) + ReadCell(g, m, n, mask, pair, step, 0)
    else if step > 0 then Read(g, m, n, mask, pair, step - 1, 1) + ReadCell(g, m, n, mask, pair, step - 1, 1)
    else if pair > 0 then Read(g, m, n, mask, pair - 1, n - 1, 1) + ReadCell(g, m, n, mask, pair - 1, n - 1, 1)
    else []
  }

  function ReadCell(g: Grid, m: seq<seq<bool>>, n: nat, mask: nat, pair: nat, step: nat, side: nat): (b: seq<bool>)
    requires Square(g, n) && Square(m, n) && OnPath(n, pair, step, side) && mask < 8
    ensures |b| == Free(g, n, pair, step, side)
  {
    PathInjective(n, pair, step, side);
    var r, c := RowOf(n, pair, step), ColOf(n, pair, side);
    if g[r][c] == None then [m[r][c] != Inverts(mask, r, c)] else []
  }

  function ReadAll(g: Grid, m: seq<seq<bool>>, n: nat, mask: nat): (b: seq<bool>)
    requires Square(g, n) && Square(m, n) && OddSize(n) && mask < 8
    ensures |b| == FreeCells(g, n)
  {
    Read(g, m, n, mask, Pairs(n), 0, 0)
  }

  /** m shows the masked data in every free cell of g. */
  ghost predicate Shows(g: Grid, m: seq<seq<bool>>, n: nat, data: seq<bv8>, mask: nat) {
    && Square(g, n) && Square(m, n) && OddSize(n) && mask < 8
    && forall r, c :: 0 <= r < n && 0 <= c < n && c != 6 && g[r][c] == None ==>
         m[r][c] == DataCell(g, n, data, mask, r, c)
  }

  lemma ReadOne(g: Grid, m: seq<seq<bool>>, n: nat, data: seq<bv8>, mask: nat, pair: nat, step: nat, side: nat)
    requires Shows(g, m, n, data, mask) && OnPath(n, pair, step, side)
    ensures var b := ReadCell(g, m, n, mask, pair, step, side);
      b == [] || b == [StreamBit(data, Rank(g, n, pair, step, side))]
  {
    hide Rank, StreamBit, Mask, Inverts;
    PathInjective(n, pair, step, side);
    MaskIsTile(mask, RowOf(n, pair, step), ColOf(n, pair, side));
  }

  lemma ShowsShape(g: Grid, m: seq<seq<bool>>, n: nat, data: seq<bv8>, mask: nat)
    requires Shows(g, m, n, data, mask)
    ensures Square(g, n) && Square(m, n) && OddSize(n) && mask < 8
  {
  }

  /** The k-th free cell on the path holds bit k of the stream. */
  lemma {:induction false} ReadsStream(g: Grid, m: seq<seq<bool>>, n: nat, data: seq<bv8>, mask: nat,
                                       pair: nat, step: nat, side: nat, k: nat)
    requires Shows(g, m, n, data, mask)
    requires pair <= Pairs(n) && step < n && side < 2 && (pair == Pairs(n) ==> step == side == 0)
    requires k < Rank(g, n, pair, step, side)
    ensures Read(g, m, n, mask, pair, step, side)[k] == StreamBit(data, k)
    decreases pair, step, side
  {
    hide Shows, ReadCell, StreamBit, Free;
    ShowsShape(g, m, n, data, mask);
    var p, t, s := pair, step, side;
    if side == 1 {
      s := 0;
    } else if step > 0 {
      t, s := step - 1, 1;
    } else {
      p, t, s := pair - 1, n - 1, 1;
    }
    ReadOne(g, m, n, data, mask, p, t, s);
    if k < Rank(g, n, p, t, s) {
      ReadsStream(g, m, n, data, mask, p, t, s, k);
    }
  }

  lemma {:induction false} StreamIsBits(data: seq<bv8>, k: nat)
    requires k < 8 * |data|
    ensures BitsOfBytes(data)[k] == StreamBit(data, k)
  {
    hide BitOf;
    var n := |data| - 1;
    if k < 8 * n {
      StreamIsBits(data[..n], k);
      assert data[..n][k / 8] == data[k / 8];
    } else {
      assert k / 8 == n && k - 8 * n == k % 8;
    }
  }

  /** Reading the free cells in path order and unmasking gives the codeword bits, as many as there are
      free cells for, and zeros after them. */
  lemma ReadBack(g: Grid, m: seq<seq<bool>>, n: nat, data: seq<bv8>, mask: nat)
    requires Shows(g, m, n, data, mask)
    ensures forall k :: 0 <= k < FreeCells(g, n) ==>
      ReadAll(g, m, n, mask)[k] == (if k < 8 * |data| then BitsOfBytes(data)[k] else false)
  {
    forall k | 0 <= k < FreeCells(g, n)
      ensures ReadAll(g, m, n, mask)[k] == if k < 8 * |data| then BitsOfBytes(data)[k] else false
    {
      hide Rank, Shows, BitsOfBytes;
      ReadsStream(g, m, n, data, mask, Pairs(n), 0, 0, k);
      if k < 8 * |data| {
        StreamIsBits(data, k);
      }
    }
  }

  /** mapData fills every free cell outside the timing column, keeps the rest, and shows the data. */
  lemma MappedShows(g: Grid, m: seq<seq<bool>>, n: nat, data: seq<bv8>, mask: nat)
    requires Square(g, n) && OddSize(n) && mask < 8
    requires var h := Mapped(g, n, data, mask);
      Square(m, n) && forall r, c :: 0 <= r < n && 0 <= c < n ==> m[r][c] == (h[r][c] == Some(true))
    ensures var h := Mapped(g, n, data, mask);
      && (forall r, c :: 0 <= r < n && 0 <= c < n && (c == 6 || g[r][c] != None) ==> h[r][c] == g[r][c])
      && (forall r, c :: 0 <= r < n && 0 <= c < n && c != 6 ==> h[r][c] != None)
      && Shows(g, m, n, data, mask)
  {
    hide DataCell;
  }

  // ---- the rank counts cells

  ghost function FreeBefore(g: Grid, n: nat, pair: nat, step: nat, side: nat): set<(int, int)>
    requires Square(g, n)
  {
    set r: int, c: int | 0 <= r < n && 0 <= c < n && Visited(n, r, c, pair, step, side) && g[r][c] == None :: (r, c)
  }

  lemma FreeBeforeStep(g: Grid, n: nat, pair: nat, step: nat, side: nat)
    requires Square(g, n) && OnPath(n, pair, step, side)
    ensures |FreeBefore(g, n, pair, step, side + 1)| ==
      |FreeBefore(g, n, pair, step, side)| + Free(g, n, pair, step, side)
  {
    PathInjective(n, pair, step, side);
    var row, col := RowOf(n, pair, step), ColOf(n, pair, side);
    var before, after := FreeBefore(g, n, pair, step, side), FreeBefore(g, n, pair, step, side + 1);
    forall r, c | 0 <= r < n && 0 <= c < n
      ensures Visited(n, r, c, pair, step, side + 1) <==> Visited(n, r, c, pair, step, side) || (r == row && c == col)
      ensures r == row && c == col ==> !Visited(n, r, c, pair, step, side)
    {
      if c != 6 {
        PathCovers(n, r, c);
      }
    }
    hide Visited, RowOf, ColOf;
    if Free(g, n, pair, step, side) == 1 {
      assert after == before + {(row, col)};
      assert (row, col) !in before;
    } else {
      assert after == before;
    }
  }

  lemma FreeBeforeNext(g: Grid, n: nat, pair: nat, step: nat)
    requires Square(g, n) && OddSize(n) && pair < Pairs(n) && step < n
    ensures FreeBefore(g, n, pair, step, 2) == FreeBefore(g, n, pair, step + 1, 0)
    ensures FreeBefore(g, n, pair, n, 0) == FreeBefore(g, n, pair + 1, 0, 0)
  {
    forall r, c | 0 <= r < n && 0 <= c < n
      ensures Visited(n, r, c, pair, step, 2) <==> Visited(n, r, c, pair, step + 1, 0)
      ensures Visited(n, r, c, pair, n, 0) <==> Visited(n, r, c, pair + 1, 0, 0)
    {
      NextPlace(n, pair, step, r, c);
    }
  }

  lemma {:induction false} RankCounts(g: Grid, n: nat, pair: nat, step: nat, side: nat)
    requires Square(g, n) && OddSize(n) && pair <= Pairs(n) && step < n && side < 2
    requires pair == Pairs(n) ==> step == side == 0
    ensures Rank(g, n, pair, step, side) == |FreeBefore(g, n, pair, step, side)|
    decreases pair, step, side
  {
    hide Free, FreeBefore;
    if side == 1 {
      RankCounts(g, n, pair, step, 0);
      FreeBeforeStep(g, n, pair, step, 0);
    } else if step > 0 {
      RankCounts(g, n, pair, step - 1, 1);
      FreeBeforeStep(g, n, pair, step - 1, 1);
      FreeBeforeNext(g, n, pair, step - 1);
    } else if pair > 0 {
      RankCounts(g, n, pair - 1, n - 1, 1);
      FreeBeforeStep(g, n, pair - 1, n - 1, 1);
      FreeBeforeNext(g, n, pair - 1, n - 1);
    } else {
      NothingBefore(g, n);
    }
  }

  lemma NothingBefore(g: Grid, n: nat)
    requires Square(g, n) && OddSize(n)
    ensures FreeBefore(g, n, 0, 0, 0) == {}
  {
    forall r, c | 0 <= r < n && 0 <= c < n
      ensures !Visited(n, r, c, 0, 0, 0)
    {
      if c != 6 {
        PathCovers(n, r, c);
      }
    }
  }

  ghost function FreeSet(g: Grid, n: nat): set<(int, int)>
    requires Square(g, n)
  {
    set r: int, c: int | 0 <= r < n && 0 <= c < n && c != 6 && g[r][c] == None :: (r, c)
  }

  /** The path visits each free cell outside the timing column exactly once. */
  lemma FreeCellsCount(g: Grid, n: nat)
    requires Square(g, n) && OddSize(n)
    ensures FreeCells(g, n) == |FreeSet(g, n)|
  {
    hide Rank;
    RankCounts(g, n, Pairs(n), 0, 0);
    forall r, c | 0 <= r < n && 0 <= c < n
      ensures Visited(n, r, c, Pairs(n), 0, 0) <==> c != 6
    {
      if c != 6 {
        PathCovers(n, r, c);
      }
    }
    assert FreeBefore(g, n, Pairs(n), 0, 0) == FreeSet(g, n);
  }
}

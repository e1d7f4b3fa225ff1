/** The function patterns and the top level of extension/src/qr.ts.

    Each setup loop is proved to be a function on grids. From those: the test build and the final build
    of a symbol differ only in format, version and fixed-dark modules; every version has room for its
    bytes; and a symbol read back by the independent reader yields the encoded bytes. */
module QrSymbol {
  import opened Gf256
  import opened Wrappers
  import opened QrData
  import opened QrPlacement
  import opened QrFigures

  function SizeOf(version: nat): nat {
    17 + 4 * version
  }

  /** Alignment pattern centres of a version. */
  function Positions(version: nat): seq<nat> {
    match version
    case 1 => []
    case 2 => [6, 18]
    case 3 => [6, 22]
    case 4 => [6, 26]
    case 5 => [6, 30]
    case 6 => [6, 34]
    case 7 => [6, 22, 38]
    case 8 => [6, 24, 42]
    case 9 => [6, 26, 46]
    case 10 => [6, 28, 50]
    case 11 => [6, 30, 54]
    case 12 => [6, 32, 58]
    case 13 => [6, 34, 62]
    case 14 => [6, 26, 46, 66]
    case 15 => [6, 26, 48, 70]
    case 16 => [6, 26, 50, 74]
    case 17 => [6, 30, 54, 78]
    case 18 => [6, 30, 56, 82]
    case 19 => [6, 30, 58, 86]
    case 20 => [6, 34, 62, 90]
    case 21 => [6, 28, 50, 72, 94]
    case 22 => [6, 26, 50, 74, 98]
    case 23 => [6, 30, 54, 78, 102]
    case 24 => [6, 28, 54, 80, 106]
    case 25 => [6, 32, 58, 84, 110]
    case 26 => [6, 30, 58, 86, 114]
    case 27 => [6, 34, 62, 90, 118]
    case 28 => [6, 26, 50, 74, 98, 122]
    case 29 => [6, 30, 54, 78, 102, 126]
    case 30 => [6, 26, 52, 78, 104, 130]
    case 31 => [6, 30, 56, 82, 108, 134]
    case 32 => [6, 34, 60, 86, 112, 138]
    case 33 => [6, 30, 58, 86, 114, 142]
    case 34 => [6, 34, 62, 90, 118, 146]
    case 35 => [6, 30, 54, 78, 102, 126, 150]
    case 36 => [6, 24, 50, 76, 102, 128, 154]
    case 37 => [6, 28, 54, 80, 106, 132, 158]
    case 38 => [6, 32, 58, 84, 110, 136, 162]
    case 39 => [6, 26, 54, 82, 110, 138, 166]
    case 40 => [6, 30, 58, 86, 114, 142, 170]
    case _ => []
  }

  // ---- finder patterns

  predicate FinderCovers(row: int, col: int, r: int, c: int) {
    row - 1 <= r <= row + 7 && col - 1 <= c <= col + 7
  }

  function FinderDark(r: int, c: int): bool {
    (0 <= r <= 6 && (c == 0 || c == 6)) || (0 <= c <= 6 && (r == 0 || r == 6)) || (2 <= r <= 4 && 2 <= c <= 4)
  }

  function WithFinder(g: Grid, n: nat, row: int, col: int): Grid
    requires Square(g, n)
  {
    Tabulate(n, (r, c) requires 0 <= r < n && 0 <= c < n =>
      if FinderCovers(row, col, r, c) then Some(FinderDark(r - row, c - col)) else g[r][c])
  }

  method SetupFinder(mods: array2<Cell>, row: int, col: int)
    requires mods.Length0 == mods.Length1
    modifies mods
    ensures View(mods) == WithFinder(old(View(mods)), mods.Length0, row, col)
  {
    hide FinderDark;
    var n := mods.Length0;
    ghost var g := View(mods);
    for r := -1 to 8
      invariant forall i, j :: 0 <= i < n && 0 <= j < n ==>
        mods[i, j] == (
        if FinderCovers(row, col, i, j) && i - row < r then Some(FinderDark(i - row, j - col)) else g[i][j])
    {
      if row + r <= -1 || n <= row + r {
        continue;
      }
      for c := -1 to 8
        invariant forall i, j :: 0 <= i < n && 0 <= j < n ==>
          mods[i, j] == (
          if FinderCovers(row, col, i, j) && (i - row < r || (i - row == r && j - col < c))
          then Some(FinderDark(i - row, j - col)) else g[i][j])
      {
        if col + c <= -1 || n <= col + c {
          continue;
        }
        mods[row + r, col + c] := Some(FinderDark(r, c));
      }
    }
    SameGrid(View(mods), WithFinder(g, n, row, col), n);
  }

  // ---- alignment patterns

  /** Centres are inside the matrix and far enough apart not to overlap. */
  ghost predicate Spaced(pos: seq<nat>, n: nat) {
    && (forall i :: 0 <= i < |pos| ==> 6 <= pos[i] && pos[i] + 7 <= n)
    && (forall i, j :: 0 <= i < j < |pos| ==> pos[i] + 5 <= pos[j])
  }

  /** The index of the one centre within two of x, or -1. */
  function Near(pos: seq<nat>, x: int): (i: int)
    ensures -1 <= i < |pos| && (i >= 0 ==> -2 <= x - pos[i] <= 2)
    ensures i == -1 ==> forall k :: 0 <= k < |pos| ==> !(-2 <= x - pos[k] <= 2)
  {
    if pos == [] then -1
    else if -2 <= x - pos[|pos| - 1] <= 2 then |pos| - 1
    else Near(pos[..|pos| - 1], x)
  }

  lemma NearUnique(pos: seq<nat>, n: nat, x: int, k: nat)
    requires Spaced(pos, n) && k < |pos| && -2 <= x - pos[k] <= 2
    ensures Near(pos, x) == k
  {
  }

  function AlignmentDark(r: int, c: int): bool {
    r == -2 || r == 2 || c == -2 || c == 2 || (r == 0 && c == 0)
  }

  /** Cell (r, c) belongs to the pattern at centre (a, b), drawn because the centre was still free. */
  predicate DrawnAt(g: Grid, n: nat, pos: seq<nat>, a: int, b: int)
    requires Square(g, n)
  {
    0 <= a < |pos| && 0 <= b < |pos| && pos[a] < n && pos[b] < n && g[pos[a]][pos[b]] == None
  }

  function WithAlignment(g: Grid, n: nat, pos: seq<nat>): Grid
    requires Square(g, n)
  {
    Tabulate(n, (r, c) requires 0 <= r < n && 0 <= c < n =>
      var a, b := Near(pos, r), Near(pos, c);
      if DrawnAt(g, n, pos, a, b) then Some(AlignmentDark(r - pos[a], c - pos[b])) else g[r][c])
  }

  /** The patterns of all centre pairs before (i, j) have been considered. */
  ghost predicate Aligned(mods: array2<Cell>, g: Grid, pos: seq<nat>, i: int, j: int)
    reads mods
  {
    && mods.Length0 == mods.Length1 && Square(g, mods.Length0)
    && forall r, c :: 0 <= r < mods.Length0 && 0 <= c < mods.Length0 ==>
         mods[r, c] == AlignedCell(g, mods.Length0, pos, i, j, r, c)
  }

  /** A cell once the centre pairs before (i, j) have been considered. */
  function AlignedCell(g: Grid, n: nat, pos: seq<nat>, i: int, j: int, r: int, c: int): Cell
    requires Square(g, n) && 0 <= r < n && 0 <= c < n
  {
    var a, b := Near(pos, r), Near(pos, c);
    if DrawnAt(g, n, pos, a, b) && (a < i || (a == i && b < j))
    then Some(AlignmentDark(r - pos[a], c - pos[b])) else g[r][c]
  }

  method SetupAlignment(mods: array2<Cell>, pos: seq<nat>)
    requires mods.Length0 == mods.Length1 && Spaced(pos, mods.Length0)
    modifies mods
    ensures View(mods) == WithAlignment(old(View(mods)), mods.Length0, pos)
  {
    hide Aligned, WithAlignment;
    ghost var n, g := mods.Length0, View(mods);
    NothingAligned(mods, g, pos);
    for i := 0 to |pos|
      invariant Aligned(mods, g, pos, i, 0)
    {
      for j := 0 to |pos|
        invariant Aligned(mods, g, pos, i, j)
      {
        AlignOne(mods, pos, g, i, j);
      }
      RowAligned(mods, g, pos, i);
    }
    AllAligned(mods, g, pos);
  }

  lemma NothingAligned(mods: array2<Cell>, g: Grid, pos: seq<nat>)
    requires mods.Length0 == mods.Length1 && g == View(mods)
    ensures Aligned(mods, g, pos, 0, 0)
  {
    hide AlignmentDark, Near;
  }

  lemma RowAligned(mods: array2<Cell>, g: Grid, pos: seq<nat>, i: nat)
    requires Aligned(mods, g, pos, i, |pos|)
    ensures Aligned(mods, g, pos, i + 1, 0)
  {
    hide AlignmentDark, Near;
  }

  lemma AllAligned(mods: array2<Cell>, g: Grid, pos: seq<nat>)
    requires Aligned(mods, g, pos, |pos|, 0)
    ensures View(mods) == WithAlignment(g, mods.Length0, pos)
  {
    hide AlignmentDark, Near;
    SameGrid(View(mods), WithAlignment(g, mods.Length0, pos), mods.Length0);
  }

  predicate InSquare(row: int, col: int, r: int, c: int) {
    row - 2 <= r <= row + 2 && col - 2 <= c <= col + 2
  }

  /** One centre: skip it if its cell is taken, else draw the five by five square. */
  method AlignOne(mods: array2<Cell>, pos: seq<nat>, ghost g: Grid, i: nat, j: nat)
    requires Aligned(mods, g, pos, i, j) && Spaced(pos, mods.Length0) && i < |pos| && j < |pos|
    modifies mods
    ensures Aligned(mods, g, pos, i, j + 1)
  {
    hide AlignmentDark, InSquare, AlignedCell;
    var n := mods.Length0;
    var row, col := pos[i], pos[j];
    forall r, c | 0 <= r < n && 0 <= c < n
      ensures AlignedCell(g, n, pos, i, j + 1, r, c) ==
        if InSquare(row, col, r, c) && g[row][col] == None then Some(AlignmentDark(r - row, c - col))
        else AlignedCell(g, n, pos, i, j, r, c)
    {
      AlignedStep(g, n, pos, i, j, r, c);
    }
    CentreUntouched(g, n, pos, i, j);
    if mods[row, col] == None {
      DrawSquare(mods, row, col);
    }
  }

  lemma AlignedStep(g: Grid, n: nat, pos: seq<nat>, i: nat, j: nat, r: nat, c: nat)
    requires Square(g, n) && Spaced(pos, n) && i < |pos| && j < |pos| && r < n && c < n
    ensures AlignedCell(g, n, pos, i, j + 1, r, c) ==
      if InSquare(pos[i], pos[j], r, c) && g[pos[i]][pos[j]] == None then Some(AlignmentDark(r - pos[i], c - pos[j]))
      else AlignedCell(g, n, pos, i, j, r, c)
  {
    hide AlignmentDark, Near;
    if -2 <= r - pos[i] <= 2 { NearUnique(pos, n, r, i); }
    if -2 <= c - pos[j] <= 2 { NearUnique(pos, n, c, j); }
  }

  /** No earlier pattern reaches this centre. */
  lemma CentreUntouched(g: Grid, n: nat, pos: seq<nat>, i: nat, j: nat)
    requires Square(g, n) && Spaced(pos, n) && i < |pos| && j < |pos|
    ensures AlignedCell(g, n, pos, i, j, pos[i], pos[j]) == g[pos[i]][pos[j]]
  {
    hide AlignmentDark, Near;
    NearUnique(pos, n, pos[i], i);
    NearUnique(pos, n, pos[j], j);
  }

  method DrawSquare(mods: array2<Cell>, row: int, col: int)
    requires 2 <= row < mods.Length0 - 2 && 2 <= col < mods.Length1 - 2
    modifies mods
    ensures forall r, c :: 0 <= r < mods.Length0 && 0 <= c < mods.Length1 ==>
      mods[r, c] == (if InSquare(row, col, r, c) then Some(AlignmentDark(r - row, c - col)) else old(mods[r, c]))
  {
    hide AlignmentDark;
    for r := -2 to 3
      invariant forall p, q :: 0 <= p < mods.Length0 && 0 <= q < mods.Length1 ==>
        mods[p, q] == (if InSquare(row, col, p, q) && p < row + r then Some(AlignmentDark(p - row, q - col))
                       else old(mods[p, q]))
    {
      for c := -2 to 3
        invariant forall p, q :: 0 <= p < mods.Length0 && 0 <= q < mods.Length1 ==>
          mods[p, q] == (if InSquare(row, col, p, q) && (p < row + r || (p == row + r && q < col + c))
                         then Some(AlignmentDark(p - row, q - col)) else old(mods[p, q]))
      {
        mods[row + r, col + c] := Some(AlignmentDark(r, c));
      }
    }
  }

  // ---- timing patterns

  function WithTiming(g: Grid, n: nat): Grid
    requires Square(g, n)
  {
    Tabulate(n, (r, c) requires 0 <= r < n && 0 <= c < n =>
      if g[r][c] != None then g[r][c]
      else if c == 6 && 8 <= r < n - 8 then Some(r % 2 == 0)
      else if r == 6 && 8 <= c < n - 8 then Some(c % 2 == 0)
      else None)
  }

  method SetupTiming(mods: array2<Cell>)
    requires mods.Length0 == mods.Length1 && mods.Length0 >= 21
    modifies mods
    ensures View(mods) == WithTiming(old(View(mods)), mods.Length0)
  {
    var n := mods.Length0;
    ghost var g := View(mods);
    for r := 8 to n - 8
      invariant forall p, q :: 0 <= p < n && 0 <= q < n ==>
        mods[p, q] == (
        if q == 6 && 8 <= p < r && g[p][q] == None then Some(p % 2 == 0) else g[p][q])
    {
      if mods[r, 6] != None {
        continue;
      }
      mods[r, 6] := Some(r % 2 == 0);
    }
    for c := 8 to n - 8
      invariant forall p, q :: 0 <= p < n && 0 <= q < n ==>
        mods[p, q] == (
        if q == 6 && 8 <= p < n - 8 && g[p][q] == None then Some(p % 2 == 0)
        else if p == 6 && 8 <= q < c && g[p][q] == None then Some(q % 2 == 0)
        else g[p][q])
    {
      if mods[6, c] != None {
        continue;
      }
      mods[6, c] := Some(c % 2 == 0);
    }
    SameGrid(View(mods), WithTiming(g, n), n);
  }

  // ---- format and version information

  /** The long division of bchTypeInfo and bchTypeNumber: clear bits top .. low of d with shifted copies
      of the generator polynomial. */
  function BchRemainder(d: bv32, gen: bv32, low: nat, steps: nat): bv32
    requires low + steps <= 31
    decreases steps
  {
    if steps == 0 then d
    else
      var top := low + steps - 1;
      BchRemainder(if (d >> top) & 1 == 1 then d ^ (gen << (top - low)) else d, gen, low, steps - 1)
  }

  function BchTypeInfo(data: bv32): bv32 {
    ((data << 10) | BchRemainder(data << 10, 0x537, 10, 5)) ^ 0x5412
  }

  function BchTypeNumber(data: bv32): bv32 {
    (data << 12) | BchRemainder(data << 12, 0x1f25, 12, 6)
  }

  /** Bit i of the format information of a mask at level M, whose indicator is 0. */
  function InfoBit(mask: nat, i: nat): bool
    requires mask < 8 && i < 15
  {
    (BchTypeInfo(mask as bv32) >> i) & 1 == 1
  }

  function NumberBit(version: nat, i: nat): bool
    requires version <= 40 && i < 18
  {
    (BchTypeNumber(version as bv32) >> i) & 1 == 1
  }

  /** Which of the 15 format bits a cell holds, or -1. */
  function InfoIndex(n: nat, r: int, c: int): (i: int)
    ensures -1 <= i < 15
  {
    if c == 8 && 0 <= r < n then
      if r < 6 then r else if r == 7 then 6 else if r == 8 then 7 else if n - 7 <= r then r - (n - 15) else -1
    else if r == 8 && 0 <= c < n then
      if n - 8 <= c then n - 1 - c else if c == 7 then 8 else if c < 6 then 14 - c else -1
    else -1
  }

  /** The format cells and the fixed dark module. */
  predicate InfoCovers(n: nat, r: int, c: int)
    requires n >= 21
  {
    (r == n - 8 && c == 8) || InfoIndex(n, r, c) >= 0
  }

  function WithTypeInfo(g: Grid, n: nat, mask: nat, test: bool): Grid
    requires Square(g, n) && n >= 21 && mask < 8
  {
    Tabulate(n, (r, c) requires 0 <= r < n && 0 <= c < n =>
      if r == n - 8 && c == 8 then Some(!test)
      else
        var i := InfoIndex(n, r, c);
        if i >= 0 then Some(!test && InfoBit(mask, i)) else g[r][c])
  }

  method SetupTypeInfo(mods: array2<Cell>, mask: nat, test: bool)
    requires mods.Length0 == mods.Length1 && mods.Length0 >= 21 && mask < 8
    modifies mods
    ensures View(mods) == WithTypeInfo(old(View(mods)), mods.Length0, mask, test)
  {
    ghost var n, g := mods.Length0, View(mods);
    InfoColumn(mods, mask, test);
    InfoRow(mods, mask, test);
    mods[mods.Length0 - 8, 8] := Some(!test);
    SameGrid(View(mods), WithTypeInfo(g, n, mask, test), n);
  }

  method InfoColumn(mods: array2<Cell>, mask: nat, test: bool)
    requires mods.Length0 == mods.Length1 && mods.Length0 >= 21 && mask < 8
    modifies mods
    ensures forall r, c :: 0 <= r < mods.Length0 && 0 <= c < mods.Length0 ==>
      mods[r, c] == (if c == 8 && InfoIndex(mods.Length0, r, c) >= 0
                     then Some(!test && InfoBit(mask, InfoIndex(mods.Length0, r, c))) else old(mods[r, c]))
  {
    hide InfoBit;
    var n := mods.Length0;
    for i := 0 to 15
      invariant forall r, c :: 0 <= r < n && 0 <= c < n ==>
        mods[r, c] == (if c == 8 && 0 <= InfoIndex(n, r, c) < i
                       then Some(!test && InfoBit(mask, InfoIndex(n, r, c))) else old(mods[r, c]))
    {
      var mod := !test && InfoBit(mask, i);
      var row := if i < 6 then i else if i < 8 then i + 1 else n - 15 + i;
      mods[row, 8] := Some(mod);
    }
  }

  method InfoRow(mods: array2<Cell>, mask: nat, test: bool)
    requires mods.Length0 == mods.Length1 && mods.Length0 >= 21 && mask < 8
    modifies mods
    ensures forall r, c :: 0 <= r < mods.Length0 && 0 <= c < mods.Length0 ==>
      mods[r, c] == (if c != 8 && InfoIndex(mods.Length0, r, c) >= 0
                     then Some(!test && InfoBit(mask, InfoIndex(mods.Length0, r, c))) else old(mods[r, c]))
  {
    hide InfoBit;
    var n := mods.Length0;
    for i := 0 to 15
      invariant forall r, c :: 0 <= r < n && 0 <= c < n ==>
        mods[r, c] == (if c != 8 && 0 <= InfoIndex(n, r, c) < i
                       then Some(!test && InfoBit(mask, InfoIndex(n, r, c))) else old(mods[r, c]))
    {
      var mod := !test && InfoBit(mask, i);
      var col := if i < 8 then n - i - 1 else if i < 9 then 15 - i - 1 + 1 else 15 - i - 1;
      mods[8, col] := Some(mod);
    }
  }

  /** Which of the 18 version bits a cell holds, or -1. */
  function NumberIndex(n: nat, r: int, c: int): (i: int)
    ensures -1 <= i < 18
  {
    if 0 <= r < 6 && n - 11 <= c < n - 8 then 3 * r + c - (n - 11)
    else if 0 <= c < 6 && n - 11 <= r < n - 8 then 3 * c + r - (n - 11)
    else -1
  }

  function WithTypeNumber(g: Grid, n: nat, version: nat, test: bool): Grid
    requires Square(g, n) && version <= 40
  {
    Tabulate(n, (r, c) requires 0 <= r < n && 0 <= c < n =>
      var i := NumberIndex(n, r, c);
      if i >= 0 then Some(!test && NumberBit(version, i)) else g[r][c])
  }

  method SetupTypeNumber(mods: array2<Cell>, version: nat, test: bool)
    requires mods.Length0 == mods.Length1 && mods.Length0 >= 21 && version <= 40
    modifies mods
    ensures View(mods) == WithTypeNumber(old(View(mods)), mods.Length0, version, test)
  {
    ghost var n, g := mods.Length0, View(mods);
    NumberTop(mods, version, test);
    NumberLeft(mods, version, test);
    SameGrid(View(mods), WithTypeNumber(g, n, version, test), n);
  }

  lemma NumberPlace(n: nat, i: nat, r: nat, c: nat)
    requires n >= 21 && i < 18
    ensures r < 6 && NumberIndex(n, r, c) == i <==> r == i / 3 && c == i % 3 + n - 11
    ensures r >= 6 && NumberIndex(n, r, c) == i <==> c == i / 3 && r == i % 3 + n - 11
  {
  }

  method NumberTop(mods: array2<Cell>, version: nat, test: bool)
    requires mods.Length0 == mods.Length1 && mods.Length0 >= 21 && version <= 40
    modifies mods
    ensures forall r, c :: 0 <= r < mods.Length0 && 0 <= c < mods.Length0 ==>
      mods[r, c] == (if r < 6 && NumberIndex(mods.Length0, r, c) >= 0
                     then Some(!test && NumberBit(version, NumberIndex(mods.Length0, r, c))) else old(mods[r, c]))
  {
    hide NumberBit, NumberIndex;
    var n := mods.Length0;
    for i := 0 to 18
      invariant forall r, c :: 0 <= r < n && 0 <= c < n ==>
        mods[r, c] == (if r < 6 && 0 <= NumberIndex(n, r, c) < i
                       then Some(!test && NumberBit(version, NumberIndex(n, r, c))) else old(mods[r, c]))
    {
      forall r, c | 0 <= r < n && 0 <= c < n
        ensures r < 6 && NumberIndex(n, r, c) == i <==> r == i / 3 && c == i % 3 + n - 11
      {
        NumberPlace(n, i, r, c);
      }
      mods[i / 3, i % 3 + n - 8 - 3] := Some(!test && NumberBit(version, i));
    }
  }

  method NumberLeft(mods: array2<Cell>, version: nat, test: bool)
    requires mods.Length0 == mods.Length1 && mods.Length0 >= 21 && version <= 40
    modifies mods
    ensures forall r, c :: 0 <= r < mods.Length0 && 0 <= c < mods.Length0 ==>
      mods[r, c] == (if r >= 6 && NumberIndex(mods.Length0, r, c) >= 0
                     then Some(!test && NumberBit(version, NumberIndex(mods.Length0, r, c))) else old(mods[r, c]))
  {
    hide NumberBit, NumberIndex;
    var n := mods.Length0;
    for i := 0 to 18
      invariant forall r, c :: 0 <= r < n && 0 <= c < n ==>
        mods[r, c] == (if r >= 6 && 0 <= NumberIndex(n, r, c) < i
                       then Some(!test && NumberBit(version, NumberIndex(n, r, c))) else old(mods[r, c]))
    {
      forall r, c | 0 <= r < n && 0 <= c < n
        ensures r >= 6 && NumberIndex(n, r, c) == i <==> c == i / 3 && r == i % 3 + n - 11
      {
        NumberPlace(n, i, r, c);
      }
      mods[i % 3 + n - 8 - 3, i / 3] := Some(!test && NumberBit(version, i));
    }
  }

  // ---- the whole matrix

  function Finders(n: nat): (g: Grid)
    ensures Square(g, n)
  {
    var g0: Grid := Tabulate(n, (r, c) requires 0 <= r < n && 0 <= c < n => None);
    WithFinder(WithFinder(WithFinder(g0, n, 0, 0), n, n - 7, 0), n, 0, n - 7)
  }

  /** The patterns that depend on nothing but the version. */
  function Fixed(version: nat): (g: Grid)
    requires version >= 1
    ensures Square(g, SizeOf(version))
  {
    var n := SizeOf(version);
    WithTiming(WithAlignment(Finders(n), n, Positions(version)), n)
  }

  /** All function patterns, before the data. */
  function Patterns(version: nat, mask: nat, test: bool): (g: Grid)
    requires 1 <= version <= 40 && mask < 8
    ensures Square(g, SizeOf(version))
  {
    var n := SizeOf(version);
    var g := WithTypeInfo(Fixed(version), n, mask, test);
    if version >= 7 then WithTypeNumber(g, n, version, test) else g
  }

  function Darks(g: Grid, n: nat): (m: Matrix)
    requires Square(g, n)
    ensures Square(m, n)
  {
    Tabulate(n, (r, c) requires 0 <= r < n && 0 <= c < n => g[r][c] == Some(true))
  }

  function Built(version: nat, codewords: seq<bv8>, mask: nat, test: bool): (m: Matrix)
    requires 1 <= version <= 40 && mask < 8
    ensures Square(m, SizeOf(version))
  {
    var n := SizeOf(version);
    Darks(Mapped(Patterns(version, mask, test), n, codewords, mask), n)
  }

  lemma PositionsEnds(version: nat)
    requires 1 <= version <= 40
    ensures var pos := Positions(version);
      |pos| == 0 || (|pos| >= 2 && pos[0] == 6 && pos[|pos| - 1] == SizeOf(version) - 7)
  {
  }

  lemma PositionsAscend(version: nat, i: nat)
    requires 1 <= version <= 40 && i + 1 < |Positions(version)|
    ensures Positions(version)[i] + 5 <= Positions(version)[i + 1]
  {
  }

  lemma {:induction false} Ascending(version: nat, pos: seq<nat>, i: nat, j: nat)
    requires 1 <= version <= 40 && pos == Positions(version) && i < j < |pos|
    ensures pos[i] + 5 <= pos[j]
    decreases j
  {
    hide Positions;
    PositionsAscend(version, j - 1);
    if i + 1 < j {
      Ascending(version, pos, i, j - 1);
    }
  }

  lemma PositionsSpaced(version: nat)
    requires 1 <= version <= 40
    ensures Spaced(Positions(version), SizeOf(version))
  {
    hide Positions;
    PositionsEnds(version);
    var pos := Positions(version);
    forall i | 0 <= i < |pos|
      ensures 6 <= pos[i] && pos[i] + 7 <= SizeOf(version)
    {
      if i > 0 { Ascending(version, pos, 0, i); }
      if i < |pos| - 1 { Ascending(version, pos, i, |pos| - 1); }
    }
    forall i, j | 0 <= i < j < |pos|
      ensures pos[i] + 5 <= pos[j]
    {
      Ascending(version, pos, i, j);
    }
  }

  method BuildMatrix(version: nat, codewords: seq<bv8>, mask: nat, test: bool) returns (m: Matrix)
    requires 1 <= version <= 40 && mask < 8
    ensures m == Built(version, codewords, mask, test)
  {
    hide WithFinder, WithAlignment, WithTiming, WithTypeInfo, WithTypeNumber, Mapped, Positions;
    var n := SizeOf(version);
    var mods := new Cell[n, n]((_, _) => None);
    ghost var g0: Grid := Tabulate(n, (r, c) requires 0 <= r < n && 0 <= c < n => None);
    SameGrid(View(mods), g0, n);
    SetupFinder(mods, 0, 0);
    SetupFinder(mods, n - 7, 0);
    SetupFinder(mods, 0, n - 7);
    PositionsSpaced(version);
    SetupAlignment(mods, Positions(version));
    SetupTiming(mods);
    assert View(mods) == Fixed(version);
    SetupTypeInfo(mods, mask, test);
    if version >= 7 {
      SetupTypeNumber(mods, version, test);
    }
    MapData(mods, codewords, mask);
    m := ToMatrix(mods);
  }

  method ToMatrix(mods: array2<Cell>) returns (m: Matrix)
    requires mods.Length0 == mods.Length1
    ensures m == Darks(View(mods), mods.Length0)
  {
    var n := mods.Length0;
    m := [];
    for r := 0 to n
      invariant |m| == r && m == Darks(View(mods), n)[..r]
    {
      var row: seq<bool> := [];
      for c := 0 to n
        invariant |row| == c && row == Darks(View(mods), n)[r][..c]
      {
        row := row + [mods[r, c] == Some(true)];
      }
      assert row == Darks(View(mods), n)[r];
      m := m + [row];
    }
  }

  // ---- the test build and the final build

  /** Ranks depend only on which cells are free. */
  lemma {:induction false} RankSame(g: Grid, h: Grid, n: nat, pair: nat, step: nat, side: nat)
    requires Square(g, n) && Square(h, n) && OddSize(n) && pair <= Pairs(n) && step < n && side < 2
    requires pair == Pairs(n) ==> step == side == 0
    requires forall r, c :: 0 <= r < n && 0 <= c < n ==> (g[r][c] == None <==> h[r][c] == None)
    ensures Rank(g, n, pair, step, side) == Rank(h, n, pair, step, side)
    decreases pair, step, side
  {
    if side == 1 {
      RankSame(g, h, n, pair, step, 0);
    } else if step > 0 {
      RankSame(g, h, n, pair, step - 1, 1);
    } else if pair > 0 {
      RankSame(g, h, n, pair - 1, n - 1, 1);
    }
  }

  predicate VersionCovers(version: nat, r: int, c: int) {
    version >= 7 && NumberIndex(SizeOf(version), r, c) >= 0
  }

  /** Which cells are function patterns depends on the version alone; what they show, outside the format
      and version cells, too. */
  lemma PatternsAgree(version: nat, mask: nat, test: bool, r: nat, c: nat)
    requires 1 <= version <= 40 && mask < 8 && r < SizeOf(version) && c < SizeOf(version)
    ensures var n, g := SizeOf(version), Patterns(version, mask, test);
      var special := InfoCovers(n, r, c) || VersionCovers(version, r, c);
      && (g[r][c] == None <==> !special && Fixed(version)[r][c] == None)
      && (!special ==> g[r][c] == Fixed(version)[r][c])
  {
    hide Fixed, InfoBit, NumberBit, InfoIndex, NumberIndex;
  }

  /** For the same bytes and mask, the two builds fill the same cells and agree on every module that is not
      format information, version information or the fixed dark module. */
  lemma TwoBuilds(version: nat, codewords: seq<bv8>, mask: nat, r: nat, c: nat)
    requires 1 <= version <= 40 && mask < 8 && r < SizeOf(version) && c < SizeOf(version)
    ensures Patterns(version, mask, true)[r][c] == None <==> Patterns(version, mask, false)[r][c] == None
    ensures !InfoCovers(SizeOf(version), r, c) && !VersionCovers(version, r, c) ==>
      Built(version, codewords, mask, true)[r][c] == Built(version, codewords, mask, false)[r][c]
  {
    hide Patterns, Fixed, InfoCovers, VersionCovers, Rank, StreamBit, Mask;
    var n := SizeOf(version);
    var g, h := Patterns(version, mask, true), Patterns(version, mask, false);
    forall i, j | 0 <= i < n && 0 <= j < n
      ensures g[i][j] == None <==> h[i][j] == None
    {
      PatternsAgree(version, mask, true, i, j);
      PatternsAgree(version, mask, false, i, j);
    }
    PatternsAgree(version, mask, true, r, c);
    PatternsAgree(version, mask, false, r, c);
    if c != 6 {
      PathCovers(n, r, c);
      RankSame(g, h, n, PairAt(n, c), StepAt(n, r, c), SideAt(n, c));
    }
  }

  // ---- every version has room for its bytes

  ghost function Interval(lo: int, hi: int): (s: set<int>)
    requires lo <= hi
    ensures |s| == hi - lo && forall x :: x in s <==> lo <= x < hi
    decreases hi - lo
  {
    if lo == hi then {} else Interval(lo, hi - 1) + {hi - 1}
  }

  lemma Pick<T>(s: set<T>) returns (x: T)
    requires s != {}
    ensures x in s
  {
    x :| x in s;
  }

  ghost function Product(a: set<int>, b: set<int>): set<(int, int)> {
    set x, y | x in a && y in b :: (x, y)
  }

  lemma {:induction false} ProductSize(a: set<int>, b: set<int>)
    ensures |Product(a, b)| == |a| * |b|
  {
    if a == {} {
      assert Product(a, b) == {};
    } else {
      var x := Pick(a);
      ProductSize(a - {x}, b);
      RowSize(x, b);
      assert Product(a, b) == Product(a - {x}, b) + Product({x}, b);
      assert Product(a - {x}, b) !! Product({x}, b);
      OneMore(|a|, |b|);
    }
  }

  lemma {:induction false} RowSize(x: int, b: set<int>)
    ensures |Product({x}, b)| == |b|
  {
    if b == {} {
      assert Product({x}, b) == {};
    } else {
      var y := Pick(b);
      RowSize(x, b - {y});
      assert Product({x}, b) == Product({x}, b - {y}) + {(x, y)};
    }
  }

  lemma UnionSize<T>(a: set<T>, b: set<T>)
    ensures |a + b| <= |a| + |b|
  {
    assert a + b == a + (b - a);
    SubsetSize(b - a, b);
  }

  ghost function Box(r0: int, r1: int, c0: int, c1: int): (b: set<(int, int)>)
    requires r0 <= r1 && c0 <= c1
    ensures forall r, c :: (r, c) in b <==> r0 <= r < r1 && c0 <= c < c1
  {
    Product(Interval(r0, r1), Interval(c0, c1))
  }

  lemma BoxSize(r0: int, r1: int, c0: int, c1: int)
    requires r0 <= r1 && c0 <= c1
    ensures |Box(r0, r1, c0, c1)| == (r1 - r0) * (c1 - c0)
  {
    ProductSize(Interval(r0, r1), Interval(c0, c1));
  }

  /** Coordinates within two of one of the centres lo .. hi-1. */
  ghost function NearSet(pos: seq<nat>, n: nat, lo: int, hi: int): set<int> {
    set x: int | 0 <= x < n && lo <= Near(pos, x) < hi
  }

  lemma {:induction false} NearSetSize(pos: seq<nat>, n: nat, lo: int, hi: int)
    requires 0 <= lo <= hi <= |pos|
    ensures |NearSet(pos, n, lo, hi)| <= 5 * (hi - lo)
    decreases hi - lo
  {
    hide Near;
    if lo == hi {
      assert NearSet(pos, n, lo, hi) == {};
    } else {
      NearSetSize(pos, n, lo, hi - 1);
      var p: int := pos[hi - 1];
      var five := Interval(p - 2, p + 3);
      assert NearSet(pos, n, lo, hi) <= NearSet(pos, n, lo, hi - 1) + five;
      SubsetSize(NearSet(pos, n, lo, hi), NearSet(pos, n, lo, hi - 1) + five);
    }
  }

  // a cover of the function cells outside the timing column

  predicate InFinders(n: nat, r: int, c: int) {
    (0 <= r < 8 && (0 <= c < 8 || n - 8 <= c < n)) || (n - 8 <= r < n && 0 <= c < 8)
  }

  ghost function FinderCover(n: nat): (s: set<(int, int)>)
    requires n >= 21
    ensures |s| <= 176
    ensures forall r, c :: InFinders(n, r, c) && c != 6 ==> (r, c) in s
  {
    hide Box, Product, Interval;
    BoxSize(0, 8, 0, 6);
    BoxSize(0, 8, 7, 8);
    BoxSize(0, 8, n - 8, n);
    BoxSize(n - 8, n, 0, 6);
    BoxSize(n - 8, n, 7, 8);
    var top := Box(0, 8, 0, 6) + Box(0, 8, 7, 8);
    var bottom := Box(n - 8, n, 0, 6) + Box(n - 8, n, 7, 8);
    UnionSize(Box(0, 8, 0, 6), Box(0, 8, 7, 8));
    UnionSize(Box(n - 8, n, 0, 6), Box(n - 8, n, 7, 8));
    UnionSize(top, bottom);
    UnionSize(top + bottom, Box(0, 8, n - 8, n));
    top + bottom + Box(0, 8, n - 8, n)
  }

  ghost function InfoCover(n: nat): (s: set<(int, int)>)
    requires n >= 21
    ensures |s| <= 31
    ensures forall r, c :: 0 <= r < n && 0 <= c < n && InfoCovers(n, r, c) ==> (r, c) in s
  {
    hide InfoCovers;
    forall r, c | 0 <= r < n && 0 <= c < n && InfoCovers(n, r, c)
      ensures (r, c) in InfoColumnCover(n) + InfoRowCover(n)
    {
      InfoCases(n, r, c);
    }
    UnionSize(InfoColumnCover(n), InfoRowCover(n));
    InfoColumnCover(n) + InfoRowCover(n)
  }

  lemma InfoCases(n: nat, r: nat, c: nat)
    requires n >= 21 && r < n && c < n && InfoCovers(n, r, c)
    ensures (c == 8 && (r < 6 || 7 <= r < 9 || n - 8 <= r)) || (r == 8 && (c < 6 || c == 7 || n - 8 <= c))
  {
  }

  ghost function InfoColumnCover(n: nat): (s: set<(int, int)>)
    requires n >= 21
    ensures |s| <= 16
    ensures forall r :: 0 <= r < 6 || 7 <= r < 9 || n - 8 <= r < n ==> (r, 8) in s
  {
    hide Box, Product, Interval;
    BoxSize(0, 6, 8, 9);
    BoxSize(7, 9, 8, 9);
    BoxSize(n - 8, n, 8, 9);
    var a := Box(0, 6, 8, 9) + Box(7, 9, 8, 9);
    UnionSize(Box(0, 6, 8, 9), Box(7, 9, 8, 9));
    UnionSize(a, Box(n - 8, n, 8, 9));
    a + Box(n - 8, n, 8, 9)
  }

  ghost function InfoRowCover(n: nat): (s: set<(int, int)>)
    requires n >= 21
    ensures |s| <= 15
    ensures forall c :: 0 <= c < 6 || c == 7 || n - 8 <= c < n ==> (8, c) in s
  {
    hide Box, Product, Interval;
    BoxSize(8, 9, n - 8, n);
    BoxSize(8, 9, 7, 8);
    BoxSize(8, 9, 0, 6);
    var a := Box(8, 9, 0, 6) + Box(8, 9, 7, 8);
    UnionSize(Box(8, 9, 0, 6), Box(8, 9, 7, 8));
    UnionSize(a, Box(8, 9, n - 8, n));
    a + Box(8, 9, n - 8, n)
  }

  ghost function VersionCover(n: nat): (s: set<(int, int)>)
    requires n >= 21
    ensures |s| <= 36
    ensures forall r, c :: NumberIndex(n, r, c) >= 0 ==> (r, c) in s
  {
    hide Box, Product, Interval;
    BoxSize(0, 6, n - 11, n - 8);
    BoxSize(n - 11, n - 8, 0, 6);
    UnionSize(Box(0, 6, n - 11, n - 8), Box(n - 11, n - 8, 0, 6));
    Box(0, 6, n - 11, n - 8) + Box(n - 11, n - 8, 0, 6)
  }

  /** The four rows of a pattern centred on a timing line, the line itself left out. */
  ghost function Band(): (s: set<int>)
    ensures |s| == 4 && forall x :: x in s <==> x == 4 || x == 5 || x == 7 || x == 8
  {
    {4, 5, 7, 8}
  }

  function AlignmentBound(k: nat): int {
    if k < 2 then 0 else 40 * (k - 2) + 25 * ((k - 1) * (k - 1))
  }

  ghost function AlignmentCover(n: nat, pos: seq<nat>): (s: set<(int, int)>)
    ensures |s| <= AlignmentBound(|pos|)
  {
    var k := |pos|;
    if k < 2 then {}
    else
      var mid, all := NearSet(pos, n, 1, k - 1), NearSet(pos, n, 1, k);
      NearSetSize(pos, n, 1, k - 1);
      NearSetSize(pos, n, 1, k);
      ProductSize(Band(), mid);
      ProductSize(mid, Band());
      ProductSize(all, all);
      SquareBound(|all|, k - 1);
      UnionSize(Product(Band(), mid), Product(mid, Band()));
      UnionSize(Product(Band(), mid) + Product(mid, Band()), Product(all, all));
      Product(Band(), mid) + Product(mid, Band()) + Product(all, all)
  }

  lemma SquareBound(a: nat, m: nat)
    requires a <= 5 * m
    ensures a * a <= 25 * (m * m)
  {
    assert a * a <= (5 * m) * a;
    assert (5 * m) * a <= (5 * m) * (5 * m);
  }

  /** Where the fixed patterns are. */
  lemma FixedCases(version: nat, r: nat, c: nat)
    requires 1 <= version <= 40 && r < SizeOf(version) && c < SizeOf(version) && c != 6
    requires Fixed(version)[r][c] != None
    ensures var n, pos := SizeOf(version), Positions(version);
      || InFinders(n, r, c)
      || (r == 6 && 8 <= c < n - 8)
      || DrawnAt(Finders(n), n, pos, Near(pos, r), Near(pos, c))
  {
    hide Near, Positions, AlignmentDark, FinderDark;
  }

  /** A drawn alignment pattern lies in its cover or on the timing row. */
  lemma AlignmentCovered(version: nat, r: nat, c: nat)
    requires 1 <= version <= 40 && r < SizeOf(version) && c < SizeOf(version) && c != 6
    requires var n, pos := SizeOf(version), Positions(version); DrawnAt(Finders(n), n, pos, Near(pos, r), Near(pos, c))
    ensures var n, pos := SizeOf(version), Positions(version);
      (r, c) in AlignmentCover(n, pos) || (r == 6 && 8 <= c < n - 8)
  {
    hide Near, Positions, AlignmentCover, DrawnAt, Finders;
    DrawnIndex(Finders(SizeOf(version)), SizeOf(version), Positions(version), Near(Positions(version), r),
               Near(Positions(version), c));
    var n, pos := SizeOf(version), Positions(version);
    PositionsSpaced(version);
    PositionsEnds(version);
    DrawnCentre(n, pos, Near(pos, r), Near(pos, c));
    InAlignmentCover(n, pos, r, c);
  }

  lemma DrawnIndex(g: Grid, n: nat, pos: seq<nat>, a: int, b: int)
    requires Square(g, n) && DrawnAt(g, n, pos, a, b)
    ensures 0 <= a < |pos| && 0 <= b < |pos|
  {
  }

  /** The three corner centres are inside the finder patterns, so they are not drawn. */
  lemma DrawnCentre(n: nat, pos: seq<nat>, a: int, b: int)
    requires n >= 21 && DrawnAt(Finders(n), n, pos, a, b) && pos[0] == 6 && pos[|pos| - 1] == n - 7
    ensures 0 <= a < |pos| && 0 <= b < |pos|
    ensures !(a == 0 && b == 0) && !(a == 0 && b == |pos| - 1) && !(a == |pos| - 1 && b == 0)
  {
    hide FinderDark;
  }

  lemma InAlignmentCover(n: nat, pos: seq<nat>, r: nat, c: nat)
    requires |pos| >= 2 && Spaced(pos, n) && r < n && c < n && c != 6
    requires pos[0] == 6 && pos[|pos| - 1] == n - 7
    requires var a, b := Near(pos, r), Near(pos, c);
      a >= 0 && b >= 0 && !(a == 0 && b == 0) && !(a == 0 && b == |pos| - 1) && !(a == |pos| - 1 && b == 0)
    ensures (r, c) in AlignmentCover(n, pos) || (r == 6 && 8 <= c < n - 8)
  {
    hide Near;
    var k, a, b := |pos|, Near(pos, r), Near(pos, c);
    if a > 0 && b > 0 {
      assert r in NearSet(pos, n, 1, k) && c in NearSet(pos, n, 1, k);
    } else if a > 0 {
      assert r in NearSet(pos, n, 1, k - 1) && c in Band();
    } else {
      assert c in NearSet(pos, n, 1, k - 1);
      assert pos[0] + 5 <= pos[b] && pos[b] + 5 <= pos[k - 1];
      if r != 6 {
        assert r in Band();
      }
    }
  }

  /** Every function cell outside the timing column is covered. */
  lemma PatternCovered(version: nat, mask: nat, test: bool, r: nat, c: nat)
    requires 1 <= version <= 40 && mask < 8 && r < SizeOf(version) && c < SizeOf(version) && c != 6
    requires Patterns(version, mask, test)[r][c] != None
    ensures (r, c) in Cover(version)
  {
    hide Patterns, Fixed, InfoCovers, DrawnAt, Near, Positions, FinderCover, InfoCover, VersionCover, AlignmentCover,
      NumberIndex;
    PatternsAgree(version, mask, test, r, c);
    if Fixed(version)[r][c] != None {
      FixedCases(version, r, c);
      var n, pos := SizeOf(version), Positions(version);
      if DrawnAt(Finders(n), n, pos, Near(pos, r), Near(pos, c)) {
        AlignmentCovered(version, r, c);
      }
    }
  }

  ghost function Cover(version: nat): set<(int, int)>
    requires version >= 1
  {
    var n := SizeOf(version);
    FinderCover(n) + Box(6, 7, 8, n - 8) + InfoCover(n) + AlignmentCover(n, Positions(version))
    + (if version >= 7 then VersionCover(n) else {})
  }

  function CoverBound(version: nat): int {
    176 + (SizeOf(version) - 16) + 31 + AlignmentBound(|Positions(version)|) + (if version >= 7 then 36 else 0)
  }

  lemma CoverSize(version: nat)
    requires version >= 1
    ensures |Cover(version)| <= CoverBound(version)
  {
    hide FinderCover, InfoCover, VersionCover, AlignmentCover, AlignmentBound, Positions, Box;
    var n := SizeOf(version);
    var f, t, i, a := FinderCover(n), Box(6, 7, 8, n - 8), InfoCover(n), AlignmentCover(n, Positions(version));
    BoxSize(6, 7, 8, n - 8);
    UnionSize(f, t);
    UnionSize(f + t, i);
    UnionSize(f + t + i, a);
    UnionSize(f + t + i + a, if version >= 7 then VersionCover(n) else {});
  }

  /** What the cover leaves is enough for every byte of the version. */
  predicate Roomy(version: nat) {
    SizeOf(version) * (SizeOf(version) - 1) - CoverBound(version) >= 8 * EntryTotal(TableM(version))
  }

  lemma RoomInLowVersions(version: nat)
    requires 1 <= version <= 20
    ensures Roomy(version)
  {
  }

  lemma RoomInMiddleVersions(version: nat)
    requires 20 < version <= 30
    ensures Roomy(version)
  {
  }

  lemma RoomInHighVersions(version: nat)
    requires 30 < version <= 40
    ensures Roomy(version)
  {
  }

  /** The free cells of a version hold all of its bytes. */
  lemma RoomForBytes(version: nat, mask: nat, test: bool)
    requires 1 <= version <= 40 && mask < 8
    ensures FreeCells(Patterns(version, mask, test), SizeOf(version)) >= 8 * TotalBytes(RsBlocks(version))
  {
    hide Patterns, Cover, CoverBound, TableM, Rank, FreeSet, SizeOf, TotalBytes, RsBlocks, Product;
    var n, g := SizeOf(version), Patterns(version, mask, test);
    SizeOdd(version);
    var rows, cols := Interval(0, n), Interval(0, n) - {6};
    assert |cols| == n - 1;
    ProductSize(rows, cols);
    FreeCellsCount(g, n);
    CellsCovered(version, mask, test);
    SubsetSize(Product(rows, cols), FreeSet(g, n) + Cover(version));
    UnionSize(FreeSet(g, n), Cover(version));
    CoverSize(version);
    if version <= 20 {
      RoomInLowVersions(version);
    } else if version <= 30 {
      RoomInMiddleVersions(version);
    } else {
      RoomInHighVersions(version);
    }
    TableTotal(version);
  }

  lemma SizeOdd(version: nat)
    requires 1 <= version
    ensures OddSize(SizeOf(version)) && SizeOf(version) >= 21
  {
    OddNumber(8 + 2 * version);
  }

  lemma OddNumber(k: nat)
    ensures (2 * k + 1) % 2 == 1
  {
  }

  lemma CellsCovered(version: nat, mask: nat, test: bool)
    requires 1 <= version <= 40 && mask < 8
    ensures var n := SizeOf(version);
      Product(Interval(0, n), Interval(0, n) - {6}) <= FreeSet(Patterns(version, mask, test), n) + Cover(version)
  {
    hide Patterns, Cover, Interval;
    var n, g := SizeOf(version), Patterns(version, mask, test);
    forall x | x in Product(Interval(0, n), Interval(0, n) - {6})
      ensures x in FreeSet(g, n) + Cover(version)
    {
      if g[x.0][x.1] != None {
        PatternCovered(version, mask, test, x.0, x.1);
      }
    }
  }

  // ---- the figures

  /** The computed format information is the published one. */
  lemma FormatPublished(mask: nat, i: nat)
    requires mask < 8 && i < 15
    ensures InfoBit(mask, i) == FormatBit(mask, i)
  {
    hide InfoBit, FormatBit;
    LowInfoBits(mask);
    MiddleInfoBits(mask);
    HighInfoBits(mask);
    match i
    case 0 => assert InfoBit(mask, 0) == FormatBit(mask, 0);
    case 1 => assert InfoBit(mask, 1) == FormatBit(mask, 1);
    case 2 => assert InfoBit(mask, 2) == FormatBit(mask, 2);
    case 3 => assert InfoBit(mask, 3) == FormatBit(mask, 3);
    case 4 => assert InfoBit(mask, 4) == FormatBit(mask, 4);
    case 5 => assert InfoBit(mask, 5) == FormatBit(mask, 5);
    case 6 => assert InfoBit(mask, 6) == FormatBit(mask, 6);
    case 7 => assert InfoBit(mask, 7) == FormatBit(mask, 7);
    case 8 => assert InfoBit(mask, 8) == FormatBit(mask, 8);
    case 9 => assert InfoBit(mask, 9) == FormatBit(mask, 9);
    case 10 => assert InfoBit(mask, 10) == FormatBit(mask, 10);
    case 11 => assert InfoBit(mask, 11) == FormatBit(mask, 11);
    case 12 => assert InfoBit(mask, 12) == FormatBit(mask, 12);
    case 13 => assert InfoBit(mask, 13) == FormatBit(mask, 13);
    case _ => assert InfoBit(mask, 14) == FormatBit(mask, 14);
  }

  lemma LowInfoBits(mask: nat)
    requires mask < 8
    ensures InfoBit(mask, 0) == FormatBit(mask, 0)
    ensures InfoBit(mask, 1) == FormatBit(mask, 1)
    ensures InfoBit(mask, 2) == FormatBit(mask, 2)
    ensures InfoBit(mask, 3) == FormatBit(mask, 3)
    ensures InfoBit(mask, 4) == FormatBit(mask, 4)
  {
    hide BchTypeInfo, FormatWord;
    InfoPublished(mask);
  }

  lemma MiddleInfoBits(mask: nat)
    requires mask < 8
    ensures InfoBit(mask, 5) == FormatBit(mask, 5)
    ensures InfoBit(mask, 6) == FormatBit(mask, 6)
    ensures InfoBit(mask, 7) == FormatBit(mask, 7)
    ensures InfoBit(mask, 8) == FormatBit(mask, 8)
    ensures InfoBit(mask, 9) == FormatBit(mask, 9)
  {
    hide BchTypeInfo, FormatWord;
    InfoPublished(mask);
  }

  lemma HighInfoBits(mask: nat)
    requires mask < 8
    ensures InfoBit(mask, 10) == FormatBit(mask, 10)
    ensures InfoBit(mask, 11) == FormatBit(mask, 11)
    ensures InfoBit(mask, 12) == FormatBit(mask, 12)
    ensures InfoBit(mask, 13) == FormatBit(mask, 13)
    ensures InfoBit(mask, 14) == FormatBit(mask, 14)
  {
    hide BchTypeInfo, FormatWord;
    InfoPublished(mask);
  }

  lemma InfoPublished(mask: nat)
    requires mask < 8
    ensures BchTypeInfo(mask as bv32) == FormatWord(mask)
  {
    match mask
    case 0 => assert BchTypeInfo(0) == 0x5412;
    case 1 => assert BchTypeInfo(1) == 0x5125;
    case 2 => assert BchTypeInfo(2) == 0x5e7c;
    case 3 => assert BchTypeInfo(3) == 0x5b4b;
    case 4 => assert BchTypeInfo(4) == 0x45f9;
    case 5 => assert BchTypeInfo(5) == 0x40ce;
    case 6 => assert BchTypeInfo(6) == 0x4f97;
    case _ => assert BchTypeInfo(7) == 0x4aa0;
  }

  /** A cell the patterns fill shows in the symbol what they say. */
  lemma BuiltKeeps(version: nat, codewords: seq<bv8>, mask: nat, r: nat, c: nat)
    requires 1 <= version <= 40 && mask < 8 && r < SizeOf(version) && c < SizeOf(version)
    requires Patterns(version, mask, false)[r][c].Some?
    ensures Built(version, codewords, mask, false)[r][c] == Patterns(version, mask, false)[r][c].value
  {
    hide Patterns, DataCell;
  }

  lemma FinderFigure(r: nat, k: nat)
    requires r < 8 && k < 8
    ensures FinderDark(r, k) == FinderDark(r, 6 - k) == FinderDark(6 - r, k) == (Finder()[r][k] == '#')
  {
    assert r in {0, 1, 2, 3, 4, 5, 6, 7};
  }

  lemma AlignmentFigure(r: nat, k: nat)
    requires r < 5 && k < 5
    ensures AlignmentDark(r - 2, k - 2) == (Alignment()[r][k] == '#')
  {
    assert r in {0, 1, 2, 3, 4};
  }

  /** The table of centres is an even spacing. */
  lemma CentresOf(version: nat, a: nat)
    requires 1 <= version <= 40 && a < |Positions(version)|
    ensures version >= 2 && |Positions(version)| == CentreCount(version)
    ensures Positions(version)[a] == Centre(version, a) && Positions(version)[a] % 2 == 0
  {
    hide Positions, Spacing;
    NoCentres();
    SpacedOut(version);
    if a > 0 {
      EvenSpacing(version, CentreCount(version) - 1 - a);
    }
  }

  lemma EvenSpacing(version: nat, k: nat)
    requires version >= 2
    ensures (4 * version + 10 - Spacing(version) * k) % 2 == 0
  {
    var half := Spacing(version) / 2;
    assert Spacing(version) == 2 * half;
    hide Spacing;
    assert 4 * version + 10 - 2 * half * k == 2 * (2 * version + 5 - half * k);
  }

  /** The table by its spacing. */
  lemma SpacedOut(version: nat)
    requires 2 <= version <= 40
    ensures |Positions(version)| == CentreCount(version) >= 2 && Positions(version)[0] == 6
    ensures forall a :: 0 < a < CentreCount(version) ==>
      Positions(version)[a] == 4 * version + 10 - Spacing(version) * (CentreCount(version) - 1 - a)
  {
    hide Positions, Spacing;
    if version <= 6 {
      TwoCentres(version);
    } else if version <= 13 {
      ThreeCentres(version);
    } else if version <= 20 {
      FourCentres(version);
    } else if version <= 27 {
      FiveCentres(version);
    } else if version <= 34 {
      SixCentres(version);
    } else {
      SevenCentres(version);
    }
  }

  lemma NoCentres()
    ensures Positions(1) == []
  {
  }

  lemma TwoCentres(version: nat)
    requires 2 <= version <= 6
    ensures CentreCount(version) == |Positions(version)| == 2 && Positions(version)[0] == 6
    ensures forall a :: 0 < a < 2 ==> Positions(version)[a] == 4 * version + 10 - Spacing(version) * (1 - a)
  {
    hide Positions, Spacing;
    TwoCentresListed(version);
    forall a | 0 < a < 2 ensures Positions(version)[a] == 4 * version + 10 - Spacing(version) * (1 - a) {
      assert a in {1};
    }
  }

  lemma TwoCentresListed(version: nat)
    requires 2 <= version <= 6
    ensures CentreCount(version) == 2 && Spacing(version) == (8 * version + 11) / 4 * 2
    ensures var s, last := (8 * version + 11) / 4 * 2, 4 * version + 10;
      Positions(version) == [6, last]
  {
  }

  lemma ThreeCentres(version: nat)
    requires 7 <= version <= 13
    ensures CentreCount(version) == |Positions(version)| == 3 && Positions(version)[0] == 6
    ensures forall a :: 0 < a < 3 ==> Positions(version)[a] == 4 * version + 10 - Spacing(version) * (2 - a)
  {
    hide Positions, Spacing;
    ThreeCentresListed(version);
    forall a | 0 < a < 3 ensures Positions(version)[a] == 4 * version + 10 - Spacing(version) * (2 - a) {
      assert a in {1, 2};
    }
  }

  lemma ThreeCentresListed(version: nat)
    requires 7 <= version <= 13
    ensures CentreCount(version) == 3 && Spacing(version) == (8 * version + 14) / 8 * 2
    ensures var s, last := (8 * version + 14) / 8 * 2, 4 * version + 10;
      Positions(version) == [6, last - s, last]
  {
  }

  lemma FourCentres(version: nat)
    requires 14 <= version <= 20
    ensures CentreCount(version) == |Positions(version)| == 4 && Positions(version)[0] == 6
    ensures forall a :: 0 < a < 4 ==> Positions(version)[a] == 4 * version + 10 - Spacing(version) * (3 - a)
  {
    hide Positions, Spacing;
    FourCentresListed(version);
    forall a | 0 < a < 4 ensures Positions(version)[a] == 4 * version + 10 - Spacing(version) * (3 - a) {
      assert a in {1, 2, 3};
    }
  }

  lemma FourCentresListed(version: nat)
    requires 14 <= version <= 20
    ensures CentreCount(version) == 4 && Spacing(version) == (8 * version + 17) / 12 * 2
    ensures var s, last := (8 * version + 17) / 12 * 2, 4 * version + 10;
      Positions(version) == [6, last - 2 * s, last - s, last]
  {
  }

  lemma FiveCentres(version: nat)
    requires 21 <= version <= 27
    ensures CentreCount(version) == |Positions(version)| == 5 && Positions(version)[0] == 6
    ensures forall a :: 0 < a < 5 ==> Positions(version)[a] == 4 * version + 10 - Spacing(version) * (4 - a)
  {
    hide Positions, Spacing;
    FiveCentresListed(version);
    forall a | 0 < a < 5 ensures Positions(version)[a] == 4 * version + 10 - Spacing(version) * (4 - a) {
      assert a in {1, 2, 3, 4};
    }
  }

  lemma FiveCentresListed(version: nat)
    requires 21 <= version <= 27
    ensures CentreCount(version) == 5 && Spacing(version) == (8 * version + 20) / 16 * 2
    ensures var s, last := (8 * version + 20) / 16 * 2, 4 * version + 10;
      Positions(version) == [6, last - 3 * s, last - 2 * s, last - s, last]
  {
  }

  lemma SixCentres(version: nat)
    requires 28 <= version <= 34
    ensures CentreCount(version) == |Positions(version)| == 6 && Positions(version)[0] == 6
    ensures forall a :: 0 < a < 6 ==> Positions(version)[a] == 4 * version + 10 - Spacing(version) * (5 - a)
  {
    hide Positions, Spacing;
    SixCentresListed(version);
    forall a | 0 < a < 6 ensures Positions(version)[a] == 4 * version + 10 - Spacing(version) * (5 - a) {
      assert a in {1, 2, 3, 4, 5};
    }
  }

  lemma SixCentresListed(version: nat)
    requires 28 <= version <= 34
    ensures CentreCount(version) == 6 && Spacing(version) == (8 * version + 23) / 20 * 2
    ensures var s, last := (8 * version + 23) / 20 * 2, 4 * version + 10;
      Positions(version) == [6, last - 4 * s, last - 3 * s, last - 2 * s, last - s, last]
  {
  }

  lemma SevenCentres(version: nat)
    requires 35 <= version <= 40
    ensures CentreCount(version) == |Positions(version)| == 7 && Positions(version)[0] == 6
    ensures forall a :: 0 < a < 7 ==> Positions(version)[a] == 4 * version + 10 - Spacing(version) * (6 - a)
  {
    hide Positions, Spacing;
    SevenCentresListed(version);
    forall a | 0 < a < 7 ensures Positions(version)[a] == 4 * version + 10 - Spacing(version) * (6 - a) {
      assert a in {1, 2, 3, 4, 5, 6};
    }
  }

  lemma SevenCentresListed(version: nat)
    requires 35 <= version <= 40
    ensures CentreCount(version) == 7 && Spacing(version) == (8 * version + 26) / 24 * 2
    ensures var s, last := (8 * version + 26) / 24 * 2, 4 * version + 10;
      Positions(version) == [6, last - 5 * s, last - 4 * s, last - 3 * s, last - 2 * s, last - s, last]
  {
  }

  lemma CentresCounted(version: nat)
    requires 1 <= version <= 40
    ensures |Positions(version)| == CentreCount(version)
  {
    if version == 1 {
      NoCentres();
    } else {
      PositionsEnds(version);
      CentresOf(version, 0);
    }
  }

  /** From version 7 on the centres stay clear of the version information. */
  lemma WideApart(version: nat, a: nat)
    requires 7 <= version <= 40 && 0 < a < |Positions(version)| - 1
    ensures 22 <= Positions(version)[a] <= SizeOf(version) - 23
  {
  }

  /** The computed version information is the published one. */
  lemma VersionPublished(version: nat, i: nat)
    requires 7 <= version <= 40 && i < 18
    ensures NumberBit(version, i) == VersionBit(version, i)
  {
    hide NumberBit, VersionBit;
    NumberBits(version);
    match i
    case 0 => assert NumberBit(version, 0) == VersionBit(version, 0);
    case 1 => assert NumberBit(version, 1) == VersionBit(version, 1);
    case 2 => assert NumberBit(version, 2) == VersionBit(version, 2);
    case 3 => assert NumberBit(version, 3) == VersionBit(version, 3);
    case 4 => assert NumberBit(version, 4) == VersionBit(version, 4);
    case 5 => assert NumberBit(version, 5) == VersionBit(version, 5);
    case 6 => assert NumberBit(version, 6) == VersionBit(version, 6);
    case 7 => assert NumberBit(version, 7) == VersionBit(version, 7);
    case 8 => assert NumberBit(version, 8) == VersionBit(version, 8);
    case 9 => assert NumberBit(version, 9) == VersionBit(version, 9);
    case 10 => assert NumberBit(version, 10) == VersionBit(version, 10);
    case 11 => assert NumberBit(version, 11) == VersionBit(version, 11);
    case 12 => assert NumberBit(version, 12) == VersionBit(version, 12);
    case 13 => assert NumberBit(version, 13) == VersionBit(version, 13);
    case 14 => assert NumberBit(version, 14) == VersionBit(version, 14);
    case 15 => assert NumberBit(version, 15) == VersionBit(version, 15);
    case 16 => assert NumberBit(version, 16) == VersionBit(version, 16);
    case _ => assert NumberBit(version, 17) == VersionBit(version, 17);
  }

  lemma NumberBits(version: nat)
    requires 7 <= version <= 40
    ensures NumberBit(version, 0) == VersionBit(version, 0)
    ensures NumberBit(version, 1) == VersionBit(version, 1)
    ensures NumberBit(version, 2) == VersionBit(version, 2)
    ensures NumberBit(version, 3) == VersionBit(version, 3)
    ensures NumberBit(version, 4) == VersionBit(version, 4)
    ensures NumberBit(version, 5) == VersionBit(version, 5)
    ensures NumberBit(version, 6) == VersionBit(version, 6)
    ensures NumberBit(version, 7) == VersionBit(version, 7)
    ensures NumberBit(version, 8) == VersionBit(version, 8)
    ensures NumberBit(version, 9) == VersionBit(version, 9)
    ensures NumberBit(version, 10) == VersionBit(version, 10)
    ensures NumberBit(version, 11) == VersionBit(version, 11)
    ensures NumberBit(version, 12) == VersionBit(version, 12)
    ensures NumberBit(version, 13) == VersionBit(version, 13)
    ensures NumberBit(version, 14) == VersionBit(version, 14)
    ensures NumberBit(version, 15) == VersionBit(version, 15)
    ensures NumberBit(version, 16) == VersionBit(version, 16)
    ensures NumberBit(version, 17) == VersionBit(version, 17)
  {
    hide BchTypeNumber, VersionWord;
    NumberPublished(version);
  }

  lemma NumberPublished(version: nat)
    requires 7 <= version <= 40
    ensures BchTypeNumber(version as bv32) == VersionWord(version)
  {
    hide BchTypeNumber;
    Versions7To11();
    Versions12To16();
    Versions17To21();
    Versions22To26();
    Versions27To31();
    Versions32To36();
    Versions37To40();
    match version
    case 7 => assert version as bv32 == 7;
    case 8 => assert version as bv32 == 8;
    case 9 => assert version as bv32 == 9;
    case 10 => assert version as bv32 == 10;
    case 11 => assert version as bv32 == 11;
    case 12 => assert version as bv32 == 12;
    case 13 => assert version as bv32 == 13;
    case 14 => assert version as bv32 == 14;
    case 15 => assert version as bv32 == 15;
    case 16 => assert version as bv32 == 16;
    case 17 => assert version as bv32 == 17;
    case 18 => assert version as bv32 == 18;
    case 19 => assert version as bv32 == 19;
    case 20 => assert version as bv32 == 20;
    case 21 => assert version as bv32 == 21;
    case 22 => assert version as bv32 == 22;
    case 23 => assert version as bv32 == 23;
    case 24 => assert version as bv32 == 24;
    case 25 => assert version as bv32 == 25;
    case 26 => assert version as bv32 == 26;
    case 27 => assert version as bv32 == 27;
    case 28 => assert version as bv32 == 28;
    case 29 => assert version as bv32 == 29;
    case 30 => assert version as bv32 == 30;
    case 31 => assert version as bv32 == 31;
    case 32 => assert version as bv32 == 32;
    case 33 => assert version as bv32 == 33;
    case 34 => assert version as bv32 == 34;
    case 35 => assert version as bv32 == 35;
    case 36 => assert version as bv32 == 36;
    case 37 => assert version as bv32 == 37;
    case 38 => assert version as bv32 == 38;
    case 39 => assert version as bv32 == 39;
    case _ => assert version as bv32 == 40;
  }

  lemma Versions7To11()
    ensures BchTypeNumber(7) == 0x07c94
    ensures BchTypeNumber(8) == 0x085bc
    ensures BchTypeNumber(9) == 0x09a99
    ensures BchTypeNumber(10) == 0x0a4d3
    ensures BchTypeNumber(11) == 0x0bbf6
  {
  }

  lemma Versions12To16()
    ensures BchTypeNumber(12) == 0x0c762
    ensures BchTypeNumber(13) == 0x0d847
    ensures BchTypeNumber(14) == 0x0e60d
    ensures BchTypeNumber(15) == 0x0f928
    ensures BchTypeNumber(16) == 0x10b78
  {
  }

  lemma Versions17To21()
    ensures BchTypeNumber(17) == 0x1145d
    ensures BchTypeNumber(18) == 0x12a17
    ensures BchTypeNumber(19) == 0x13532
    ensures BchTypeNumber(20) == 0x149a6
    ensures BchTypeNumber(21) == 0x15683
  {
  }

  lemma Versions22To26()
    ensures BchTypeNumber(22) == 0x168c9
    ensures BchTypeNumber(23) == 0x177ec
    ensures BchTypeNumber(24) == 0x18ec4
    ensures BchTypeNumber(25) == 0x191e1
    ensures BchTypeNumber(26) == 0x1afab
  {
  }

  lemma Versions27To31()
    ensures BchTypeNumber(27) == 0x1b08e
    ensures BchTypeNumber(28) == 0x1cc1a
    ensures BchTypeNumber(29) == 0x1d33f
    ensures BchTypeNumber(30) == 0x1ed75
    ensures BchTypeNumber(31) == 0x1f250
  {
  }

  lemma Versions32To36()
    ensures BchTypeNumber(32) == 0x209d5
    ensures BchTypeNumber(33) == 0x216f0
    ensures BchTypeNumber(34) == 0x228ba
    ensures BchTypeNumber(35) == 0x2379f
    ensures BchTypeNumber(36) == 0x24b0b
  {
  }

  lemma Versions37To40()
    ensures BchTypeNumber(37) == 0x2542e
    ensures BchTypeNumber(38) == 0x26a64
    ensures BchTypeNumber(39) == 0x27541
    ensures BchTypeNumber(40) == 0x28c69
  {
  }

  /** The finder patterns before anything else is drawn. */
  lemma FinderCells(n: nat, r: nat, k: nat)
    requires n >= 21 && r < 8 && k < 8
    ensures var dark := Some(Finder()[r][k] == '#');
      Finders(n)[r][k] == Finders(n)[r][n - 1 - k] == Finders(n)[n - 1 - r][k] == dark
  {
    hide FinderDark;
    FinderFigure(r, k);
  }

  lemma CornersOnly(n: nat, r: nat, c: nat)
    requires n >= 21 && r < n && c < n
    ensures Finders(n)[r][c] == None <==> !InFinders(n, r, c)
  {
    hide FinderDark;
  }

  /** Alignment patterns keep off the finder patterns. */
  lemma ClearOfFinders(version: nat, r: nat, c: nat)
    requires 1 <= version <= 40 && r < SizeOf(version) && c < SizeOf(version) && InFinders(SizeOf(version), r, c)
    ensures var n, pos := SizeOf(version), Positions(version); !DrawnAt(Finders(n), n, pos, Near(pos, r), Near(pos, c))
  {
    hide Near, Positions, Finders, DrawnAt;
    var n, pos := SizeOf(version), Positions(version);
    if DrawnAt(Finders(n), n, pos, Near(pos, r), Near(pos, c)) {
      DrawnIndex(Finders(n), n, pos, Near(pos, r), Near(pos, c));
      PositionsSpaced(version);
      PositionsEnds(version);
      DrawnCentre(n, pos, Near(pos, r), Near(pos, c));
    }
  }

  lemma FixedFinder(version: nat, r: nat, c: nat)
    requires 1 <= version <= 40 && r < SizeOf(version) && c < SizeOf(version) && InFinders(SizeOf(version), r, c)
    ensures Fixed(version)[r][c] == Finders(SizeOf(version))[r][c] != None
  {
    ClearOfFinders(version, r, c);
    CornersOnly(SizeOf(version), r, c);
    hide Near, Positions, Finders, DrawnAt, AlignmentDark;
  }

  lemma FinderNotSpecial(version: nat, r: nat, c: nat)
    requires 1 <= version <= 40 && InFinders(SizeOf(version), r, c)
    ensures !InfoCovers(SizeOf(version), r, c) && !VersionCovers(version, r, c)
  {
  }

  lemma CornerShown(version: nat, codewords: seq<bv8>, mask: nat, r: nat, c: nat)
    requires 1 <= version <= 40 && mask < 8 && r < SizeOf(version) && c < SizeOf(version)
    requires InFinders(SizeOf(version), r, c)
    ensures Finders(SizeOf(version))[r][c] == Some(Built(version, codewords, mask, false)[r][c])
  {
    hide Built, Patterns, Finders, Fixed, InfoCovers, VersionCovers;
    FixedFinder(version, r, c);
    FinderNotSpecial(version, r, c);
    PatternsAgree(version, mask, false, r, c);
    BuiltKeeps(version, codewords, mask, r, c);
  }

  lemma FindersShown(version: nat, codewords: seq<bv8>, mask: nat)
    requires 1 <= version <= 40 && mask < 8
    ensures FindersDrawn(Built(version, codewords, mask, false), SizeOf(version))
  {
    hide Built, Finders;
    var n := SizeOf(version);
    forall r, k | 0 <= r < 8 && 0 <= k < 8
      ensures FinderShown(Built(version, codewords, mask, false), n, r, k)
    {
      FinderCells(n, r, k);
      CornerShown(version, codewords, mask, r, k);
      CornerShown(version, codewords, mask, r, n - 1 - k);
      CornerShown(version, codewords, mask, n - 1 - r, k);
    }
  }

  /** A timing cell shows its parity, under an alignment pattern too. */
  lemma FixedTiming(version: nat, k: nat)
    requires 1 <= version <= 40 && 8 <= k < SizeOf(version) - 8
    ensures Fixed(version)[6][k] == Fixed(version)[k][6] == Some(k % 2 == 0)
  {
    hide Fixed, Positions, Near, Finders, DrawnAt, AlignmentDark;
    var n, pos := SizeOf(version), Positions(version);
    CornersOnly(n, 6, k);
    CornersOnly(n, k, 6);
    TimingParity(version, k);
    FixedAt(version, 6, k);
    FixedAt(version, k, 6);
  }

  /** What is fixed in a cell. */
  lemma FixedAt(version: nat, r: nat, c: nat)
    requires 1 <= version <= 40 && r < SizeOf(version) && c < SizeOf(version)
    ensures var n, pos := SizeOf(version), Positions(version); var a, b := Near(pos, r), Near(pos, c);
      Fixed(version)[r][c] ==
        if DrawnAt(Finders(n), n, pos, a, b) then Some(AlignmentDark(r - pos[a], c - pos[b]))
        else if Finders(n)[r][c] != None then Finders(n)[r][c]
        else if c == 6 && 8 <= r < n - 8 then Some(r % 2 == 0)
        else if r == 6 && 8 <= c < n - 8 then Some(c % 2 == 0)
        else None
    ensures var n, pos := SizeOf(version), Positions(version);
      DrawnAt(Finders(n), n, pos, Near(pos, r), Near(pos, c)) ==> Near(pos, r) >= 0 && Near(pos, c) >= 0
  {
    hide Positions, Near, Finders, AlignmentDark, WithAlignment, WithTiming, DrawnAt;
    var n, pos := SizeOf(version), Positions(version);
    var g, a, b := Finders(n), Near(pos, r), Near(pos, c);
    if DrawnAt(g, n, pos, a, b) {
      DrawnIndex(g, n, pos, a, b);
    }
    AlignmentAt(Finders(n), n, pos, r, c);
    TimingAt(WithAlignment(Finders(n), n, pos), n, r, c);
  }

  lemma AlignmentAt(g: Grid, n: nat, pos: seq<nat>, r: nat, c: nat)
    requires Square(g, n) && r < n && c < n
    ensures Square(WithAlignment(g, n, pos), n)
    ensures var a, b := Near(pos, r), Near(pos, c);
      WithAlignment(g, n, pos)[r][c]
        == if DrawnAt(g, n, pos, a, b) then Some(AlignmentDark(r - pos[a], c - pos[b])) else g[r][c]
  {
    hide Near, AlignmentDark, DrawnAt;
  }

  lemma TimingAt(g: Grid, n: nat, r: nat, c: nat)
    requires Square(g, n) && r < n && c < n
    ensures WithTiming(g, n)[r][c] ==
      if g[r][c] != None then g[r][c]
      else if c == 6 && 8 <= r < n - 8 then Some(r % 2 == 0)
      else if r == 6 && 8 <= c < n - 8 then Some(c % 2 == 0)
      else None
  {
  }

  lemma TimingParity(version: nat, k: nat)
    requires 1 <= version <= 40 && 8 <= k < SizeOf(version) - 8
    ensures var pos := Positions(version); var b := Near(pos, k);
      && (|pos| > 0 ==> Near(pos, 6) == 0 && pos[0] == 6)
      && (b >= 0 ==> AlignmentDark(0, k - pos[b]) == AlignmentDark(k - pos[b], 0) == (k % 2 == 0))
  {
    hide Near, Positions;
    var n, pos := SizeOf(version), Positions(version);
    PositionsSpaced(version);
    PositionsEnds(version);
    if |pos| > 0 {
      NearUnique(pos, n, 6, 0);
      if Near(pos, k) >= 0 {
        CentresOf(version, Near(pos, k));
        EvenCentre(pos[Near(pos, k)], k);
      }
    }
  }

  lemma EvenCentre(p: nat, k: nat)
    requires p % 2 == 0 && -2 <= k - p <= 2
    ensures AlignmentDark(0, k - p) == AlignmentDark(k - p, 0) == (k % 2 == 0)
  {
  }

  lemma TimingShown(version: nat, codewords: seq<bv8>, mask: nat)
    requires 1 <= version <= 40 && mask < 8
    ensures TimingDrawn(Built(version, codewords, mask, false), SizeOf(version))
  {
    hide Built, Patterns, Fixed;
    var n := SizeOf(version);
    forall k | 8 <= k < n - 8
      ensures var m := Built(version, codewords, mask, false); m[6][k] == (k % 2 == 0) && m[k][6] == (k % 2 == 0)
    {
      FixedTiming(version, k);
      PatternsAgree(version, mask, false, 6, k);
      PatternsAgree(version, mask, false, k, 6);
      BuiltKeeps(version, codewords, mask, 6, k);
      BuiltKeeps(version, codewords, mask, k, 6);
    }
  }

  /** The cells around a centre that is not in a corner. */
  lemma AroundCentre(version: nat, a: nat, b: nat, r: int, c: int)
    requires 1 <= version <= 40 && a < CentreCount(version) && b < CentreCount(version)
    requires Covers(version, a, b, r, c)
    ensures var n, pos := SizeOf(version), Positions(version);
      && 0 <= r < n && 0 <= c < n && |pos| == CentreCount(version) && Near(pos, r) == a && Near(pos, c) == b
      && pos[a] == Centre(version, a) && pos[b] == Centre(version, b) && DrawnAt(Finders(n), n, pos, a, b)
      && !InfoCovers(n, r, c) && !VersionCovers(version, r, c)
  {
    hide Positions, Near, Finders, Centre;
    var n, pos := SizeOf(version), Positions(version);
    CentresCounted(version);
    CentresOf(version, a);
    CentresOf(version, b);
    PositionsSpaced(version);
    PositionsEnds(version);
    NearUnique(pos, n, r, a);
    NearUnique(pos, n, c, b);
    CornersOnly(n, pos[a], pos[b]);
    if version >= 7 {
      if 0 < a < |pos| - 1 { WideApart(version, a); }
      if 0 < b < |pos| - 1 { WideApart(version, b); }
    }
    if 0 < a { assert pos[0] + 5 <= pos[a]; }
    if 0 < b { assert pos[0] + 5 <= pos[b]; }
    if a < |pos| - 1 { assert pos[a] + 5 <= pos[|pos| - 1]; }
    if b < |pos| - 1 { assert pos[b] + 5 <= pos[|pos| - 1]; }
  }

  lemma FixedAlignment(version: nat, a: nat, b: nat, r: int, c: int)
    requires 1 <= version <= 40 && a < CentreCount(version) && b < CentreCount(version)
    requires Covers(version, a, b, r, c)
    ensures 0 <= r < SizeOf(version) && 0 <= c < SizeOf(version)
    ensures Fixed(version)[r][c] == Some(AlignmentDark(r - Centre(version, a), c - Centre(version, b)))
  {
    hide Positions, Near, Finders, DrawnAt, AlignmentDark, Centre, Covers, Fixed, InfoCovers, VersionCovers;
    AroundCentre(version, a, b, r, c);
    FixedAt(version, r, c);
  }

  lemma AlignmentsShown(version: nat, codewords: seq<bv8>, mask: nat)
    requires 1 <= version <= 40 && mask < 8
    ensures AlignmentsDrawn(Built(version, codewords, mask, false), SizeOf(version), version)
  {
    hide Built, Patterns, Fixed, Centre, AlignmentDark, Alignment, InfoCovers, VersionCovers, Near, Positions, DrawnAt,
      Finders;
    var n := SizeOf(version);
    forall a, b, r, k | 0 <= a < CentreCount(version) && 0 <= b < CentreCount(version) && 0 <= r < 5 && 0 <= k < 5
      ensures Corner(version, a, b) || AlignmentShown(Built(version, codewords, mask, false), n, version, a, b, r, k)
    {
      if !Corner(version, a, b) {
        var row, col := Centre(version, a) + r - 2, Centre(version, b) + k - 2;
        AroundCentre(version, a, b, row, col);
        FixedAlignment(version, a, b, row, col);
        PatternsAgree(version, mask, false, row, col);
        BuiltKeeps(version, codewords, mask, row, col);
        AlignmentFigure(r, k);
      }
    }
  }

  /** The format cells of the figure are those of the loops. */
  lemma FormatCells(n: nat, i: nat)
    requires n >= 21 && i < 15
    ensures InfoIndex(n, FormatRows(n)[i], 8) == i && InfoIndex(n, 8, FormatColumns(n)[i]) == i
    ensures FormatRows(n)[i] != n - 8
  {
    assert i in {0, 1, 2, 3, 4, 5, 6, 7, 8, 9, 10, 11, 12, 13, 14};
  }

  lemma InfoPattern(version: nat, mask: nat, r: nat, c: nat)
    requires 1 <= version <= 40 && mask < 8 && r < SizeOf(version) && c < SizeOf(version)
    requires InfoCovers(SizeOf(version), r, c)
    ensures Patterns(version, mask, false)[r][c]
         == Some((r == SizeOf(version) - 8 && c == 8) || InfoBit(mask, InfoIndex(SizeOf(version), r, c)))
  {
    hide Fixed, InfoBit;
  }

  lemma FormatShownBy(version: nat, codewords: seq<bv8>, mask: nat)
    requires 1 <= version <= 40 && mask < 8
    ensures FormatDrawn(Built(version, codewords, mask, false), SizeOf(version), mask)
  {
    hide Built, Patterns, InfoBit, FormatWord, FormatRows, FormatColumns, InfoIndex;
    var n := SizeOf(version);
    DarkModule(n);
    InfoPattern(version, mask, n - 8, 8);
    BuiltKeeps(version, codewords, mask, n - 8, 8);
    forall i | 0 <= i < 15
      ensures FormatShown(Built(version, codewords, mask, false), n, mask, i)
    {
      FormatCells(n, i);
      FormatPublished(mask, i);
      InfoPattern(version, mask, FormatRows(n)[i], 8);
      InfoPattern(version, mask, 8, FormatColumns(n)[i]);
      BuiltKeeps(version, codewords, mask, FormatRows(n)[i], 8);
      BuiltKeeps(version, codewords, mask, 8, FormatColumns(n)[i]);
    }
  }

  lemma DarkModule(n: nat)
    requires n >= 21
    ensures InfoCovers(n, n - 8, 8)
  {
  }

  lemma NumberCells(n: nat, r: nat, k: nat)
    requires n >= 45 && r < 6 && k < 3
    ensures NumberIndex(n, r, n - 11 + k) == NumberIndex(n, n - 11 + k, r) == 3 * r + k
  {
  }

  lemma VersionPattern(version: nat, mask: nat, r: nat, c: nat)
    requires 7 <= version <= 40 && mask < 8 && r < SizeOf(version) && c < SizeOf(version)
    requires VersionCovers(version, r, c)
    ensures Patterns(version, mask, false)[r][c] == Some(NumberBit(version, NumberIndex(SizeOf(version), r, c)))
  {
    hide Fixed, InfoBit, NumberBit, NumberIndex;
  }

  lemma VersionShownBy(version: nat, codewords: seq<bv8>, mask: nat)
    requires 1 <= version <= 40 && mask < 8
    ensures VersionDrawn(Built(version, codewords, mask, false), SizeOf(version), version)
  {
    hide Built, Patterns, NumberBit, VersionBit, NumberIndex;
    if version >= 7 {
      var n := SizeOf(version);
      forall r, k | 0 <= r < 6 && 0 <= k < 3
        ensures VersionShown(Built(version, codewords, mask, false), n, version, r, k)
      {
        VersionPublished(version, 3 * r + k);
        NumberCells(n, r, k);
        VersionPattern(version, mask, r, n - 11 + k);
        VersionPattern(version, mask, n - 11 + k, r);
        BuiltKeeps(version, codewords, mask, r, n - 11 + k);
        BuiltKeeps(version, codewords, mask, n - 11 + k, r);
      }
    }
  }

  /** The encoder leaves for data exactly the cells that the figures leave. */
  lemma FreeIsData(version: nat, mask: nat, r: nat, c: nat)
    requires 1 <= version <= 40 && mask < 8 && r < SizeOf(version) && c < SizeOf(version) && c != 6
    ensures Patterns(version, mask, false)[r][c] == None <==> !Reserved(SizeOf(version), version, r, c)
  {
    hide Patterns, Fixed, InAlignment, InfoCovers, VersionCovers;
    PatternsAgree(version, mask, false, r, c);
    SpecialCells(version, r, c);
    var n := SizeOf(version);
    if InFinders(n, r, c) {
      FixedFinder(version, r, c);
    } else if r == 6 {
      FixedTiming(version, c);
    } else {
      FixedElsewhere(version, r, c);
    }
  }

  lemma SpecialCells(version: nat, r: nat, c: nat)
    requires 1 <= version <= 40 && r < SizeOf(version) && c < SizeOf(version)
    ensures var n := SizeOf(version);
      && (InCorner(n, r, c) && r != 6 && c != 6 <==> (InFinders(n, r, c) || InfoCovers(n, r, c)) && r != 6 && c != 6)
      && (VersionCovers(version, r, c) <==> InVersion(n, version, r, c))
      && (InFinders(n, r, c) ==> InCorner(n, r, c)) && (r == 6 && !InFinders(n, r, c) ==> 8 <= c < n - 8)
  {
  }

  /** Away from finder patterns and timing row, what is fixed is an alignment pattern. */
  lemma FixedElsewhere(version: nat, r: nat, c: nat)
    requires 1 <= version <= 40 && r < SizeOf(version) && c < SizeOf(version) && c != 6 && r != 6
    requires !InFinders(SizeOf(version), r, c)
    ensures Fixed(version)[r][c] != None <==> InAlignment(version, r, c)
  {
    var n, pos := SizeOf(version), Positions(version);
    if Fixed(version)[r][c] != None {
      FixedCases(version, r, c);
      DrawnCovers(version, r, c);
    }
    hide Fixed, Positions, Near, DrawnAt, Finders, AlignmentDark, Covers;
    if InAlignment(version, r, c) {
      var a, b :| 0 <= a < CentreCount(version) && 0 <= b < CentreCount(version) && Covers(version, a, b, r, c);
      FixedAlignment(version, a, b, r, c);
    }
  }

  lemma DrawnCovers(version: nat, r: nat, c: nat)
    requires 1 <= version <= 40 && r < SizeOf(version) && c < SizeOf(version)
    requires var n, pos := SizeOf(version), Positions(version); DrawnAt(Finders(n), n, pos, Near(pos, r), Near(pos, c))
    ensures InAlignment(version, r, c)
  {
    hide Positions, Near, Finders, DrawnAt, Centre;
    var n, pos := SizeOf(version), Positions(version);
    var a, b := Near(pos, r), Near(pos, c);
    DrawnIndex(Finders(n), n, pos, a, b);
    CentresCounted(version);
    CentresOf(version, a);
    CentresOf(version, b);
    PositionsEnds(version);
    DrawnCentre(n, pos, a, b);
    assert Covers(version, a, b, r, c);
  }

  // ---- reading a symbol

  /** The reader looks at nothing of a layout but which cells hold data. */
  lemma {:induction false} ReadSame(g: Grid, h: Grid, m: Matrix, n: nat, mask: nat, pair: nat, step: nat, side: nat)
    requires Square(g, n) && Square(h, n) && Square(m, n) && OddSize(n) && mask < 8
    requires pair <= Pairs(n) && step < n && side < 2 && (pair == Pairs(n) ==> step == side == 0)
    requires forall r, c :: 0 <= r < n && 0 <= c < n && c != 6 ==> (g[r][c] == None <==> h[r][c] == None)
    ensures Read(g, m, n, mask, pair, step, side) == Read(h, m, n, mask, pair, step, side)
    decreases pair, step, side
  {
    hide ReadCell, Rank, Free;
    if side == 1 {
      ReadSame(g, h, m, n, mask, pair, step, 0);
      CellSame(g, h, m, n, mask, pair, step, 0);
    } else if step > 0 {
      ReadSame(g, h, m, n, mask, pair, step - 1, 1);
      CellSame(g, h, m, n, mask, pair, step - 1, 1);
    } else if pair > 0 {
      ReadSame(g, h, m, n, mask, pair - 1, n - 1, 1);
      CellSame(g, h, m, n, mask, pair - 1, n - 1, 1);
    }
  }

  lemma CellSame(g: Grid, h: Grid, m: Matrix, n: nat, mask: nat, pair: nat, step: nat, side: nat)
    requires Square(g, n) && Square(h, n) && Square(m, n) && OnPath(n, pair, step, side) && mask < 8
    requires forall r, c :: 0 <= r < n && 0 <= c < n && c != 6 ==> (g[r][c] == None <==> h[r][c] == None)
    ensures ReadCell(g, m, n, mask, pair, step, side) == ReadCell(h, m, n, mask, pair, step, side)
  {
    hide Inverts;
    PathInjective(n, pair, step, side);
  }

  lemma SameBits(a: bv8, b: bv8)
    requires BitOf(a, 0) == BitOf(b, 0) && BitOf(a, 1) == BitOf(b, 1) && BitOf(a, 2) == BitOf(b, 2)
    requires BitOf(a, 3) == BitOf(b, 3) && BitOf(a, 4) == BitOf(b, 4) && BitOf(a, 5) == BitOf(b, 5)
    requires BitOf(a, 6) == BitOf(b, 6) && BitOf(a, 7) == BitOf(b, 7)
    ensures a == b
  {
  }

  lemma ByteOfBits(c: bv8)
    ensures ByteOf(BitsOfByte(c)) == c
  {
    hide BitOf, ByteOf;
    var b := BitsOfByte(c);
    forall i: nat | i < 8
      ensures BitOf(ByteOf(b), i) == BitOf(c, i)
    {
      BitOfByteOf(b, i);
      assert b[7 - i] == BitOf(c, 7 - (7 - i));
    }
    SameBits(ByteOf(b), c);
  }

  lemma {:induction false} CodewordsOfBits(c: seq<bv8>)
    ensures CodewordsOf(BitsOfBytes(c)) == c
  {
    hide ByteOf, BitsOfByte, CodewordsOf;
    WholeBytes(|c|);
    NoCodewords();
    if c != [] {
      var n := |c| - 1;
      WholeBytes(n);
      CodewordsOfBits(c[..n]);
      ByteOfBits(c[n]);
      GroupLast(BitsOfBytes(c[..n]), BitsOfByte(c[n]));
      assert c == c[..n] + [c[n]];
    }
  }

  lemma NoCodewords()
    ensures CodewordsOf([]) == []
  {
  }

  lemma GroupLast(front: seq<bool>, last: seq<bool>)
    requires |front| % 8 == 0 && |last| == 8
    ensures CodewordsOf(front + last) == CodewordsOf(front) + [ByteOf(last)]
  {
    var b := front + last;
    assert b[..|b| - 8] == front && b[|b| - 8..] == last;
  }

  /** A symbol built from the encoding of some data reads back as that data: for every input that fits, every version
      and every mask, by a reader that is told none of them and knows only the published figures. */
  lemma SymbolRoundTrip(data: seq<Byte>, version: nat, mask: nat)
    requires 1 <= version <= 40 && mask < 8 && Fits(version, |data|)
    ensures DecodeSymbol(Built(version, Encoded(data, version), mask, false)) == Some(data)
  {
    hide Built, Fits, Encoded, DecodeData, FormatDrawn, FindersDrawn, TimingDrawn, AlignmentsDrawn, VersionDrawn,
      Square;
    var n, c := SizeOf(version), Encoded(data, version);
    var m := Built(version, c, mask, false);
    FindersShown(version, c, mask);
    TimingShown(version, c, mask);
    AlignmentsShown(version, c, mask);
    VersionShownBy(version, c, mask);
    FormatShownBy(version, c, mask);
    OneMaskShown(m, n, MaskShown(m, n, 0).value, mask);
    SquareSize(m, n);
    DataRoundTrip(data, version, mask);
  }

  lemma SquareSize<T>(m: seq<seq<T>>, n: nat)
    requires Square(m, n)
    ensures |m| == n
  {
  }

  lemma DataRoundTrip(data: seq<Byte>, version: nat, mask: nat)
    requires 1 <= version <= 40 && mask < 8 && Fits(version, |data|)
    ensures DecodeData(SizeOf(version), version, mask, Built(version, Encoded(data, version), mask, false))
         == Some(data)
  {
    hide Built, Fits, Encoded, RsBlocks, TotalBytes, BitsOfBytes, CodewordsOf, Decode, SizeOf, ReadAll, Layout,
      FreeCells;
    var n, c := SizeOf(version), Encoded(data, version);
    var m := Built(version, c, mask, false);
    SizeOdd(version);
    EncodedDecodes(data, version, []);
    assert c + [] == c;
    var bits := SymbolBits(version, c, mask);
    assert bits[..8 * |c|] == BitsOfBytes(c);
    CodewordsOfBits(c);
  }

  /** What the reader finds in the data cells of a symbol. */
  lemma SymbolBits(version: nat, c: seq<bv8>, mask: nat) returns (bits: seq<bool>)
    requires 1 <= version <= 40 && mask < 8 && |c| == TotalBytes(RsBlocks(version))
    ensures var n := SizeOf(version);
      OddSize(n) && bits == ReadAll(Layout(n, version), Built(version, c, mask, false), n, mask)
    ensures 8 * |c| <= |bits| && bits[..8 * |c|] == BitsOfBytes(c)
  {
    hide Patterns, Mapped, RsBlocks, TotalBytes, BitsOfBytes, SizeOf, Shows, FreeCells, Reserved, Read, Rank;
    var n, g := SizeOf(version), Patterns(version, mask, false);
    var m := Built(version, c, mask, false);
    SizeOdd(version);
    MappedShows(g, m, n, c, mask);
    ReadBack(g, m, n, c, mask);
    RoomForBytes(version, mask, false);
    forall r, k | 0 <= r < n && 0 <= k < n && k != 6
      ensures g[r][k] == None <==> Layout(n, version)[r][k] == None
    {
      FreeIsData(version, mask, r, k);
    }
    ReadSame(g, Layout(n, version), m, n, mask, Pairs(n), 0, 0);
    bits := ReadAll(g, m, n, mask);
  }

  // ---- the top level

  datatype QrCode = QrCode(version: nat, mask: nat, modules: Matrix)

  /** encodeQr, for any penalty function: the least version that fits, and the first mask whose test build
      has the least penalty. None is the source's exception. */
  method EncodeQr(data: seq<Byte>, lostPoint: Matrix -> int) returns (r: Option<QrCode>)
    ensures r == None <==> forall v :: 1 <= v <= 40 ==> !Fits(v, |data|)
    ensures r.Some? ==>
      var v, mask := r.value.version, r.value.mask;
      && 1 <= v <= 40 && Fits(v, |data|) && (forall u :: 1 <= u < v ==> !Fits(u, |data|))
      && mask < 8 && r.value.modules == Built(v, Encoded(data, v), mask, false)
      && (forall k :: 0 <= k < 8 ==>
            lostPoint(Built(v, Encoded(data, v), mask, true)) <= lostPoint(Built(v, Encoded(data, v), k, true)))
      && (forall k :: 0 <= k < mask ==>
            lostPoint(Built(v, Encoded(data, v), mask, true)) < lostPoint(Built(v, Encoded(data, v), k, true)))
      && DecodeSymbol(r.value.modules) == Some(data)
  {
    hide Fits, Encoded, Built, DecodeSymbol;
    var version, _ := ChooseVersion(|data|);
    if version == None {
      return None;
    }
    var v := version.value;
    var codewords := EncodeData(data, v);
    var mask := ChooseMask(v, codewords, lostPoint);
    var modules := BuildMatrix(v, codewords, mask, false);
    SymbolRoundTrip(data, v, mask);
    r := Some(QrCode(v, mask, modules));
  }

  /** The first mask of least penalty. */
  method ChooseMask(v: nat, codewords: seq<bv8>, lostPoint: Matrix -> int) returns (bestMask: nat)
    requires 1 <= v <= 40
    ensures bestMask < 8
    ensures forall k :: 0 <= k < 8 ==>
      lostPoint(Built(v, codewords, bestMask, true)) <= lostPoint(Built(v, codewords, k, true))
    ensures forall k :: 0 <= k < bestMask ==>
      lostPoint(Built(v, codewords, bestMask, true)) < lostPoint(Built(v, codewords, k, true))
  {
    hide Built;
    bestMask := 0;
    var bestPenalty := 0;
    for mask := 0 to 8
      invariant mask == 0 ==> bestMask == 0
      invariant mask > 0 ==> bestMask < mask && bestPenalty == lostPoint(Built(v, codewords, bestMask, true))
      invariant forall k :: 0 <= k < mask ==> bestPenalty <= lostPoint(Built(v, codewords, k, true))
      invariant forall k :: 0 <= k < bestMask ==> bestPenalty < lostPoint(Built(v, codewords, k, true))
    {
      var mods := BuildMatrix(v, codewords, mask, true);
      var penalty := lostPoint(mods);
      if mask == 0 || penalty < bestPenalty {
        bestPenalty := penalty;
        bestMask := mask;
      }
    }
  }
}

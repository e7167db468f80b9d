/** Board geometry of the 15x15 word-game grid: the four bonus-cell lists,
    the classification of a coordinate, and the construction of the tile list. */
module Board {

  datatype Coordinate = Coordinate(x: int, y: int)

  datatype SpecialTile = TripleWord | DoubleWord | TripleLetter | DoubleLetter

  datatype Option<T> = None | Some(value: T)

  /** A board cell: its coordinate and its bonus, if any. */
  datatype Tile = Tile(coordinate: Coordinate, special: Option<SpecialTile>)

  const Size := 15

  predicate InGrid(c: Coordinate) {
    0 <= c.x < Size && 0 <= c.y < Size
  }

  /** The coordinate with its axes exchanged (reflection in the main diagonal). */
  function Swap(c: Coordinate): Coordinate {
    Coordinate(c.y, c.x)
  }

  /** Position of a coordinate in the tile list (x-major, then y). */
  function IndexOf(c: Coordinate): int {
    Size * c.x + c.y
  }

  /** Coordinate of the tile at a position of the tile list. */
  function CoordinateAt(k: int): Coordinate {
    Coordinate(k / Size, k % Size)
  }

  /** IndexOf then CoordinateAt is the identity on the grid. */
  lemma CoordinateAtIndexOf(c: Coordinate)
    requires InGrid(c)
    ensures 0 <= IndexOf(c) < Size * Size
    ensures CoordinateAt(IndexOf(c)) == c
  {
  }

  /** CoordinateAt then IndexOf is the identity on 0..224, and lands on the grid. */
  lemma IndexOfCoordinateAt(k: int)
    requires 0 <= k < Size * Size
    ensures InGrid(CoordinateAt(k))
    ensures IndexOf(CoordinateAt(k)) == k
  {
  }

  // ---------------------------------------------------------------------------
  // Builders for the literal comprehensions, one per shape used

  /** One cell per listed x, all at the given y, in the order of xs. */
  function Row(xs: seq<int>, y: int): (r: seq<Coordinate>)
    ensures |r| == |xs|
  {
    if xs == [] then [] else [Coordinate(xs[0], y)] + Row(xs[1..], y)
  }

  /** Every pair of a listed y and a listed x: one row per y in the order of ys,
      x varying fastest. */
  function Product(ys: seq<int>, xs: seq<int>): (r: seq<Coordinate>)
    ensures |r| == |ys| * |xs|
  {
    if ys == [] then [] else Row(xs, ys[0]) + Product(ys[1..], xs)
  }

  /** The cells of a list other than the centre, in their order. */
  function ExcludeCentre(s: seq<Coordinate>): (r: seq<Coordinate>)
    ensures |r| <= |s|
    ensures Coordinate(7, 7) !in r
  {
    if s == [] then []
    else (if !(s[0].x == 7 && s[0].y == 7) then [s[0]] else []) + ExcludeCentre(s[1..])
  }

  /** The cells of a list that do not have both coordinates in {1, 13}, in their order. */
  function ExcludeCorners(s: seq<Coordinate>): (r: seq<Coordinate>)
    ensures |r| <= |s|
  {
    if s == [] then []
    else (if !(s[0].x in [1, 13] && s[0].y in [1, 13]) then [s[0]] else []) + ExcludeCorners(s[1..])
  }

  /** For each listed n in turn, the cell (n, n) followed by the cell (n, 14 - n). */
  function Diagonals(ns: seq<int>): (r: seq<Coordinate>)
    ensures |r| == 2 * |ns|
  {
    if ns == [] then []
    else [Coordinate(ns[0], ns[0]), Coordinate(ns[0], 14 - ns[0])] + Diagonals(ns[1..])
  }

  /** For each listed n in turn, six cells: on the left and right edges at height n,
      on the bottom and top edges at column n, and on the two centre lines at n. */
  function EdgePoints(ns: seq<int>): (r: seq<Coordinate>)
    ensures |r| == 6 * |ns|
  {
    if ns == [] then []
    else
      var n := ns[0];
      [Coordinate(0, n), Coordinate(14, n), Coordinate(n, 0),
       Coordinate(n, 14), Coordinate(7, n), Coordinate(n, 7)] + EdgePoints(ns[1..])
  }

  /** For each listed n in turn, eight cells: n paired with each of 2, 6, 8 and 12,
      once as the column and once as the row. */
  function RingPoints(ns: seq<int>): (r: seq<Coordinate>)
    ensures |r| == 8 * |ns|
  {
    if ns == [] then []
    else
      var n := ns[0];
      [Coordinate(n, 2), Coordinate(2, n), Coordinate(6, n), Coordinate(n, 6),
       Coordinate(8, n), Coordinate(n, 8), Coordinate(n, 12), Coordinate(12, n)] + RingPoints(ns[1..])
  }

  // Membership of each builder's output, by induction on its input list

  lemma {:induction false} RowMembership(xs: seq<int>, y: int, c: Coordinate)
    ensures c in Row(xs, y) <==> c.x in xs && c.y == y
  {
    if xs != [] {
      RowMembership(xs[1..], y, c);
      assert xs == [xs[0]] + xs[1..];
    }
  }

  lemma {:induction false} ProductMembership(ys: seq<int>, xs: seq<int>, c: Coordinate)
    ensures c in Product(ys, xs) <==> c.y in ys && c.x in xs
  {
    if ys != [] {
      RowMembership(xs, ys[0], c);
      ProductMembership(ys[1..], xs, c);
      assert ys == [ys[0]] + ys[1..];
    }
  }

  lemma {:induction false} ExcludeCentreMembership(s: seq<Coordinate>, c: Coordinate)
    ensures c in ExcludeCentre(s) <==> c in s && !(c.x == 7 && c.y == 7)
  {
    if s != [] {
      ExcludeCentreMembership(s[1..], c);
      assert s == [s[0]] + s[1..];
    }
  }

  lemma {:induction false} ExcludeCornersMembership(s: seq<Coordinate>, c: Coordinate)
    ensures c in ExcludeCorners(s) <==> c in s && !(c.x in [1, 13] && c.y in [1, 13])
  {
    if s != [] {
      ExcludeCornersMembership(s[1..], c);
      assert s == [s[0]] + s[1..];
    }
  }

  lemma {:induction false} DiagonalsMembership(ns: seq<int>, c: Coordinate)
    ensures c in Diagonals(ns) <==> c.x in ns && (c.y == c.x || c.y == 14 - c.x)
  {
    if ns != [] {
      DiagonalsMembership(ns[1..], c);
      assert ns == [ns[0]] + ns[1..];
    }
  }

  lemma {:induction false} EdgePointsMembership(ns: seq<int>, c: Coordinate)
    ensures c in EdgePoints(ns) <==>
      (c.x in [0, 14, 7] && c.y in ns) || (c.y in [0, 14, 7] && c.x in ns)
  {
    if ns != [] {
      EdgePointsMembership(ns[1..], c);
      assert ns == [ns[0]] + ns[1..];
    }
  }

  lemma {:induction false} RingPointsMembership(ns: seq<int>, c: Coordinate)
    ensures c in RingPoints(ns) <==>
      (c.x in ns && c.y in [2, 6, 8, 12]) || (c.y in ns && c.x in [2, 6, 8, 12])
  {
    if ns != [] {
      RingPointsMembership(ns[1..], c);
      assert ns == [ns[0]] + ns[1..];
    }
  }

  // ---------------------------------------------------------------------------
  // The four bonus lists, built as the module's constants build them

  /** The literal lists the comprehensions range over. */
  function WordLines(): seq<int> { [0, 7, 14] }
  function DiagonalSteps(): seq<int> { [1, 2, 3, 4, 7, 10, 11, 12, 13] }
  function LetterLines(): seq<int> { [1, 5, 9, 13] }
  function EdgeOffsets(): seq<int> { [3, 11] }
  function RingOffsets(): seq<int> { [6, 8] }

  /** The 3 × 3 combinations of 0, 7 and 14 without the centre. */
  function TripleWordTiles(): (r: seq<Coordinate>)
    ensures |r| <= 9
  {
    ExcludeCentre(Product(WordLines(), WordLines()))
  }

  /** Two diagonal cells for each of the nine steps. */
  function DoubleWordTiles(): (r: seq<Coordinate>)
    ensures |r| == 18
  {
    Diagonals(DiagonalSteps())
  }

  /** The 4 × 4 combinations of 1, 5, 9 and 13 without the four outer corners. */
  function TripleLetterTiles(): seq<Coordinate> {
    ExcludeCorners(Product(LetterLines(), LetterLines()))
  }

  /** The corner filter leaves at most the 16 combinations it starts from. */
  lemma TripleLetterLength()
    ensures |TripleLetterTiles()| <= 16
  {
  }

  /** Six edge and axis cells for each of 3 and 11, then eight ring cells for each of 6 and 8. */
  function DoubleLetterTiles(): (r: seq<Coordinate>)
    ensures |r| == 28
  {
    EdgePoints(EdgeOffsets()) + RingPoints(RingOffsets())
  }

  /** The bonus list belonging to each kind of special tile. */
  function TilesOf(kind: SpecialTile): seq<Coordinate> {
    match kind
    case TripleWord => TripleWordTiles()
    case DoubleWord => DoubleWordTiles()
    case TripleLetter => TripleLetterTiles()
    case DoubleLetter => DoubleLetterTiles()
  }

  /** The distinct cells named by a coordinate list. */
  function Cells(s: seq<Coordinate>): set<Coordinate> {
    set c | c in s
  }

  // ---------------------------------------------------------------------------
  // Classification of a coordinate

  /** The bonus of a cell: each list is checked in turn, triple-word first and
      double-letter last, and a later match overwrites an earlier one. */
  function GetSpecial(c: Coordinate): (r: Option<SpecialTile>)
    ensures r == None <==>
      c !in TripleWordTiles() && c !in DoubleWordTiles() &&
      c !in TripleLetterTiles() && c !in DoubleLetterTiles()
    ensures r == Some(DoubleLetter) <==> c in DoubleLetterTiles()
    ensures r == Some(TripleLetter) <==> c in TripleLetterTiles() && c !in DoubleLetterTiles()
    ensures r == Some(DoubleWord) <==>
      c in DoubleWordTiles() && c !in TripleLetterTiles() && c !in DoubleLetterTiles()
    ensures r == Some(TripleWord) <==>
      c in TripleWordTiles() && c !in DoubleWordTiles() &&
      c !in TripleLetterTiles() && c !in DoubleLetterTiles()
  {
    var special := None;
    var special := if c in TripleWordTiles() then Some(TripleWord) else special;
    var special := if c in DoubleWordTiles() then Some(DoubleWord) else special;
    var special := if c in TripleLetterTiles() then Some(TripleLetter) else special;
    var special := if c in DoubleLetterTiles() then Some(DoubleLetter) else special;
    special
  }

  /** The first n tiles the nested loops of the tile list push, for a given classifier. */
  function BoardPrefix(n: nat, special: Coordinate -> Option<SpecialTile>): (r: seq<Tile>)
    ensures |r| == n
  {
    if n == 0 then [] else BoardPrefix(n - 1, special) + [Tile(CoordinateAt(n - 1), special(CoordinateAt(n - 1)))]
  }

  /** The tile at position k of a prefix has coordinate CoordinateAt(k) and its classification. */
  lemma {:induction false} BoardPrefixAt(n: nat, special: Coordinate -> Option<SpecialTile>)
    ensures forall k :: 0 <= k < n ==>
      BoardPrefix(n, special)[k] == Tile(CoordinateAt(k), special(CoordinateAt(k)))
  {
    if n > 0 {
      BoardPrefixAt(n - 1, special);
    }
  }

  /** The nested loops of the tile list: for x from 0 to 14 and, inside, y from 0
      to 14, push one tile carrying the classification of its coordinate. The tile
      at position k has coordinate (k / 15, k % 15), so every grid coordinate
      appears exactly once, at position IndexOf. */
  method BuildTiles(special: Coordinate -> Option<SpecialTile>) returns (tiles: seq<Tile>)
    ensures |tiles| == Size * Size
    ensures forall k :: 0 <= k < |tiles| ==> tiles[k].coordinate == CoordinateAt(k)
    ensures forall k :: 0 <= k < |tiles| ==> tiles[k].special == special(tiles[k].coordinate)
    ensures forall k :: 0 <= k < |tiles| ==>
      InGrid(tiles[k].coordinate) && IndexOf(tiles[k].coordinate) == k
    ensures forall c :: InGrid(c) ==> tiles[IndexOf(c)].coordinate == c
  {
    tiles := [];
    var i := 0;
    while i < Size
      invariant 0 <= i <= Size
      invariant tiles == BoardPrefix(Size * i, special)
    {
      var j := 0;
      while j < Size
        invariant 0 <= j <= Size
        invariant tiles == BoardPrefix(Size * i + j, special)
      {
        var coordinate := Coordinate(i, j);
        CoordinateAtIndexOf(coordinate);
        tiles := tiles + [Tile(coordinate, special(coordinate))];
        j := j + 1;
      }
      i := i + 1;
    }
    BoardPrefixAt(Size * Size, special);
    forall k | 0 <= k < |tiles|
      ensures InGrid(tiles[k].coordinate) && IndexOf(tiles[k].coordinate) == k
    {
      IndexOfCoordinateAt(k);
    }
    forall c | InGrid(c)
      ensures tiles[IndexOf(c)].coordinate == c
    {
      CoordinateAtIndexOf(c);
    }
  }

  /** getBoard: the 225 tiles of the grid, each carrying the bonus of its cell. */
  method GetBoard() returns (tiles: seq<Tile>)
    ensures |tiles| == Size * Size
    ensures forall k :: 0 <= k < |tiles| ==> tiles[k].coordinate == CoordinateAt(k)
    ensures forall k :: 0 <= k < |tiles| ==> tiles[k].special == GetSpecial(tiles[k].coordinate)
    ensures forall k :: 0 <= k < |tiles| ==>
      InGrid(tiles[k].coordinate) && IndexOf(tiles[k].coordinate) == k
    ensures forall c :: InGrid(c) ==> tiles[IndexOf(c)].coordinate == c
  {
    tiles := BuildTiles(GetSpecial);
  }

  // ---------------------------------------------------------------------------
  // Membership of each bonus list, as arithmetic on the coordinate

  predicate OnWordAxis(v: int) { v == 0 || v == 7 || v == 14 }
  predicate OnDiagonalStep(v: int) {
    v == 1 || v == 2 || v == 3 || v == 4 || v == 7 || v == 10 || v == 11 || v == 12 || v == 13
  }
  predicate OnLetterAxis(v: int) { v == 1 || v == 5 || v == 9 || v == 13 }
  predicate OnLetterRim(v: int) { v == 1 || v == 13 }
  predicate OnEdgeOffset(v: int) { v == 3 || v == 11 }
  predicate OnRingOffset(v: int) { v == 6 || v == 8 }
  predicate OnRingLine(v: int) { v == 2 || v == 6 || v == 8 || v == 12 }

  /** The cells of each bonus kind, described by arithmetic on the coordinate. */
  predicate InPattern(c: Coordinate, kind: SpecialTile) {
    match kind
    case TripleWord => OnWordAxis(c.x) && OnWordAxis(c.y) && c != Coordinate(7, 7)
    case DoubleWord => OnDiagonalStep(c.x) && (c.y == c.x || c.y == 14 - c.x)
    case TripleLetter => OnLetterAxis(c.x) && OnLetterAxis(c.y) && !(OnLetterRim(c.x) && OnLetterRim(c.y))
    case DoubleLetter =>
      (OnWordAxis(c.x) && OnEdgeOffset(c.y)) || (OnWordAxis(c.y) && OnEdgeOffset(c.x)) ||
      (OnRingOffset(c.x) && OnRingLine(c.y)) || (OnRingOffset(c.y) && OnRingLine(c.x))
  }

  // Membership of each bonus list, from the builders' membership lemmas

  lemma TripleWordMembership(c: Coordinate)
    ensures c in TripleWordTiles() <==> InPattern(c, TripleWord)
  {
    ProductMembership(WordLines(), WordLines(), c);
    ExcludeCentreMembership(Product(WordLines(), WordLines()), c);
  }

  lemma DoubleWordMembership(c: Coordinate)
    ensures c in DoubleWordTiles() <==> InPattern(c, DoubleWord)
  {
    DiagonalsMembership(DiagonalSteps(), c);
  }

  lemma LetterLine(v: int)
    ensures v in LetterLines() <==> OnLetterAxis(v)
    ensures v in [1, 13] <==> OnLetterRim(v)
  {
  }

  lemma TripleLetterMembership(c: Coordinate)
    ensures c in TripleLetterTiles() <==> InPattern(c, TripleLetter)
  {
    ProductMembership(LetterLines(), LetterLines(), c);
    ExcludeCornersMembership(Product(LetterLines(), LetterLines()), c);
    LetterLine(c.x);
    LetterLine(c.y);
  }

  lemma DoubleLetterMembership(c: Coordinate)
    ensures c in DoubleLetterTiles() <==> InPattern(c, DoubleLetter)
  {
    EdgePointsMembership(EdgeOffsets(), c);
    RingPointsMembership(RingOffsets(), c);
  }

  /** The list of each kind holds exactly the cells of its arithmetic pattern. */
  lemma KindMembership(c: Coordinate, kind: SpecialTile)
    ensures c in TilesOf(kind) <==> InPattern(c, kind)
  {
    match kind
    case TripleWord => TripleWordMembership(c);
    case DoubleWord => DoubleWordMembership(c);
    case TripleLetter => TripleLetterMembership(c);
    case DoubleLetter => DoubleLetterMembership(c);
  }

  // ---------------------------------------------------------------------------
  // Distinct cells of each bonus list, against the standard layout written out

  /** First column of each of the four column bands 0..4, 5..7, 8..10 and 11..14. */
  function BandStart(band: int): int {
    if band <= 0 then 0 else if band == 1 then 5 else if band == 2 then 8 else 11
  }

  /** The standard layout of each kind within one column band. */
  function LayoutBand(kind: SpecialTile, band: int): set<Coordinate> {
    match kind
    case TripleWord =>
      if band == 0 then {Coordinate(0, 0), Coordinate(0, 7), Coordinate(0, 14)}
      else if band == 1 then {Coordinate(7, 0), Coordinate(7, 14)}
      else if band == 2 then {}
      else {Coordinate(14, 0), Coordinate(14, 7), Coordinate(14, 14)}
    case DoubleWord =>
      if band == 0 then
        {Coordinate(1, 1), Coordinate(1, 13), Coordinate(2, 2), Coordinate(2, 12),
         Coordinate(3, 3), Coordinate(3, 11), Coordinate(4, 4), Coordinate(4, 10)}
      else if band == 1 then {Coordinate(7, 7)}
      else if band == 2 then {Coordinate(10, 4), Coordinate(10, 10)}
      else
        {Coordinate(11, 3), Coordinate(11, 11), Coordinate(12, 2), Coordinate(12, 12),
         Coordinate(13, 1), Coordinate(13, 13)}
    case TripleLetter =>
      if band == 0 then {Coordinate(1, 5), Coordinate(1, 9)}
      else if band == 1 then {Coordinate(5, 1), Coordinate(5, 5), Coordinate(5, 9), Coordinate(5, 13)}
      else if band == 2 then {Coordinate(9, 1), Coordinate(9, 5), Coordinate(9, 9), Coordinate(9, 13)}
      else {Coordinate(13, 5), Coordinate(13, 9)}
    case DoubleLetter =>
      if band == 0 then
        {Coordinate(0, 3), Coordinate(0, 11), Coordinate(2, 6), Coordinate(2, 8),
         Coordinate(3, 0), Coordinate(3, 7), Coordinate(3, 14)}
      else if band == 1 then
        {Coordinate(6, 2), Coordinate(6, 6), Coordinate(6, 8), Coordinate(6, 12),
         Coordinate(7, 3), Coordinate(7, 11)}
      else if band == 2 then
        {Coordinate(8, 2), Coordinate(8, 6), Coordinate(8, 8), Coordinate(8, 12)}
      else
        {Coordinate(11, 0), Coordinate(11, 7), Coordinate(11, 14), Coordinate(12, 6),
         Coordinate(12, 8), Coordinate(14, 3), Coordinate(14, 11)}
  }

  /** The standard layout of each kind, as the union of its four column bands. */
  function Layout(kind: SpecialTile): set<Coordinate> {
    LayoutBand(kind, 0) + LayoutBand(kind, 1) + LayoutBand(kind, 2) + LayoutBand(kind, 3)
  }

  lemma TripleWordLayout(c: Coordinate)
    ensures c in Layout(TripleWord) <==> InPattern(c, TripleWord)
  {
  }

  lemma DoubleWordLayout(c: Coordinate)
    ensures c in Layout(DoubleWord) <==> InPattern(c, DoubleWord)
  {
  }

  lemma TripleLetterLayout(c: Coordinate)
    ensures c in Layout(TripleLetter) <==> InPattern(c, TripleLetter)
  {
  }

  lemma DoubleLetterLayout(c: Coordinate)
    ensures c in Layout(DoubleLetter) <==> InPattern(c, DoubleLetter)
  {
  }

  /** The written-out layout of each kind is the cells of its arithmetic pattern. */
  lemma LayoutIsPattern(c: Coordinate, kind: SpecialTile)
    ensures c in Layout(kind) <==> InPattern(c, kind)
  {
    match kind
    case TripleWord => TripleWordLayout(c);
    case DoubleWord => DoubleWordLayout(c);
    case TripleLetter => TripleLetterLayout(c);
    case DoubleLetter => DoubleLetterLayout(c);
  }

  /** Sets on disjoint column ranges have disjoint cells, so their sizes add up. */
  lemma ColumnsSplit(a: set<Coordinate>, b: set<Coordinate>, m: int)
    requires forall c :: c in a ==> c.x < m
    requires forall c :: c in b ==> m <= c.x
    ensures |a + b| == |a| + |b|
  {
    assert a * b == {};
  }

  /** Four sets lying in the four column bands have a union as large as their sizes together. */
  lemma BandsSplit(b0: set<Coordinate>, b1: set<Coordinate>, b2: set<Coordinate>, b3: set<Coordinate>)
    requires forall c :: c in b0 ==> c.x < BandStart(1)
    requires forall c :: c in b1 ==> BandStart(1) <= c.x < BandStart(2)
    requires forall c :: c in b2 ==> BandStart(2) <= c.x < BandStart(3)
    requires forall c :: c in b3 ==> BandStart(3) <= c.x
    ensures |b0 + b1 + b2 + b3| == |b0| + |b1| + |b2| + |b3|
  {
    ColumnsSplit(b0, b1, BandStart(1));
    ColumnsSplit(b0 + b1, b2, BandStart(2));
    ColumnsSplit(b0 + b1 + b2, b3, BandStart(3));
  }

  /** Sizes of the triple-word bands. */
  lemma TripleWordBandSizes()
    ensures |LayoutBand(TripleWord, 0)| == 3 && |LayoutBand(TripleWord, 1)| == 2
    ensures |LayoutBand(TripleWord, 2)| == 0 && |LayoutBand(TripleWord, 3)| == 3
  {
  }

  lemma TripleWordBandColumns()
    ensures forall c :: c in LayoutBand(TripleWord, 0) ==> c.x < BandStart(1)
    ensures forall c :: c in LayoutBand(TripleWord, 1) ==> BandStart(1) <= c.x < BandStart(2)
    ensures forall c :: c in LayoutBand(TripleWord, 2) ==> BandStart(2) <= c.x < BandStart(3)
    ensures forall c :: c in LayoutBand(TripleWord, 3) ==> BandStart(3) <= c.x
  {
  }

  lemma TripleWordLayoutSize() ensures |Layout(TripleWord)| == 8 {
    TripleWordBandSizes();
    TripleWordBandColumns();
    BandsSplit(LayoutBand(TripleWord, 0), LayoutBand(TripleWord, 1), LayoutBand(TripleWord, 2), LayoutBand(TripleWord, 3));
  }

  /** Sizes of the double-word bands. */
  lemma DoubleWordBandSizes()
    ensures |LayoutBand(DoubleWord, 0)| == 8 && |LayoutBand(DoubleWord, 1)| == 1
    ensures |LayoutBand(DoubleWord, 2)| == 2 && |LayoutBand(DoubleWord, 3)| == 6
  {
  }

  lemma DoubleWordBandColumns()
    ensures forall c :: c in LayoutBand(DoubleWord, 0) ==> c.x < BandStart(1)
    ensures forall c :: c in LayoutBand(DoubleWord, 1) ==> BandStart(1) <= c.x < BandStart(2)
    ensures forall c :: c in LayoutBand(DoubleWord, 2) ==> BandStart(2) <= c.x < BandStart(3)
    ensures forall c :: c in LayoutBand(DoubleWord, 3) ==> BandStart(3) <= c.x
  {
  }

  lemma DoubleWordLayoutSize() ensures |Layout(DoubleWord)| == 17 {
    DoubleWordBandSizes();
    DoubleWordBandColumns();
    BandsSplit(LayoutBand(DoubleWord, 0), LayoutBand(DoubleWord, 1), LayoutBand(DoubleWord, 2), LayoutBand(DoubleWord, 3));
  }

  /** Sizes of the triple-letter bands. */
  lemma TripleLetterBandSizes()
    ensures |LayoutBand(TripleLetter, 0)| == 2 && |LayoutBand(TripleLetter, 1)| == 4
    ensures |LayoutBand(TripleLetter, 2)| == 4 && |LayoutBand(TripleLetter, 3)| == 2
  {
  }

  lemma TripleLetterBandColumns()
    ensures forall c :: c in LayoutBand(TripleLetter, 0) ==> c.x < BandStart(1)
    ensures forall c :: c in LayoutBand(TripleLetter, 1) ==> BandStart(1) <= c.x < BandStart(2)
    ensures forall c :: c in LayoutBand(TripleLetter, 2) ==> BandStart(2) <= c.x < BandStart(3)
    ensures forall c :: c in LayoutBand(TripleLetter, 3) ==> BandStart(3) <= c.x
  {
  }

  lemma TripleLetterLayoutSize() ensures |Layout(TripleLetter)| == 12 {
    TripleLetterBandSizes();
    TripleLetterBandColumns();
    BandsSplit(LayoutBand(TripleLetter, 0), LayoutBand(TripleLetter, 1), LayoutBand(TripleLetter, 2), LayoutBand(TripleLetter, 3));
  }

  /** Sizes of the double-letter bands. */
  lemma DoubleLetterBandSizes()
    ensures |LayoutBand(DoubleLetter, 0)| == 7 && |LayoutBand(DoubleLetter, 1)| == 6
    ensures |LayoutBand(DoubleLetter, 2)| == 4 && |LayoutBand(DoubleLetter, 3)| == 7
  {
  }

  lemma DoubleLetterBandColumns()
    ensures forall c :: c in LayoutBand(DoubleLetter, 0) ==> c.x < BandStart(1)
    ensures forall c :: c in LayoutBand(DoubleLetter, 1) ==> BandStart(1) <= c.x < BandStart(2)
    ensures forall c :: c in LayoutBand(DoubleLetter, 2) ==> BandStart(2) <= c.x < BandStart(3)
    ensures forall c :: c in LayoutBand(DoubleLetter, 3) ==> BandStart(3) <= c.x
  {
  }

  lemma DoubleLetterLayoutSize() ensures |Layout(DoubleLetter)| == 24 {
    DoubleLetterBandSizes();
    DoubleLetterBandColumns();
    BandsSplit(LayoutBand(DoubleLetter, 0), LayoutBand(DoubleLetter, 1), LayoutBand(DoubleLetter, 2), LayoutBand(DoubleLetter, 3));
  }

  /** Each list names exactly the cells of the standard layout. */
  lemma CellsAreLayout(kind: SpecialTile)
    ensures Cells(TilesOf(kind)) == Layout(kind)
  {
    forall c ensures c in Cells(TilesOf(kind)) <==> c in Layout(kind) {
      KindMembership(c, kind);
      LayoutIsPattern(c, kind);
    }
  }

  /** The triple-word list names 8 distinct cells. */
  lemma TripleWordCount()
    ensures |Cells(TripleWordTiles())| == 8
  {
    CellsAreLayout(TripleWord);
    TripleWordLayoutSize();
  }

  /** The double-word list has 18 entries naming 17 distinct cells: the centre is listed twice. */
  lemma DoubleWordCount()
    ensures |DoubleWordTiles()| == 18 && |Cells(DoubleWordTiles())| == 17
  {
    CellsAreLayout(DoubleWord);
    DoubleWordLayoutSize();
  }

  /** The triple-letter list names 12 distinct cells. */
  lemma TripleLetterCount()
    ensures |Cells(TripleLetterTiles())| == 12
  {
    CellsAreLayout(TripleLetter);
    TripleLetterLayoutSize();
  }

  /** The double-letter list has 28 entries naming 24 distinct cells: (6, 6), (8, 8),
      (6, 8) and (8, 6) are each listed twice. */
  lemma DoubleLetterCount()
    ensures |DoubleLetterTiles()| == 28 && |Cells(DoubleLetterTiles())| == 24
  {
    CellsAreLayout(DoubleLetter);
    DoubleLetterLayoutSize();
  }

  // ---------------------------------------------------------------------------
  // Shape of the bonus layout

  lemma PatternsDisjoint(c: Coordinate, k1: SpecialTile, k2: SpecialTile)
    requires InPattern(c, k1) && InPattern(c, k2)
    ensures k1 == k2
  {
  }

  /** No cell is on two bonus lists. */
  lemma BonusListsDisjoint(c: Coordinate, k1: SpecialTile, k2: SpecialTile)
    requires c in TilesOf(k1) && c in TilesOf(k2)
    ensures k1 == k2
  {
    KindMembership(c, k1);
    KindMembership(c, k2);
    PatternsDisjoint(c, k1, k2);
  }

  lemma PatternOnGrid(c: Coordinate, kind: SpecialTile)
    requires InPattern(c, kind)
    ensures InGrid(c)
  {
  }

  /** Every bonus cell lies on the grid. */
  lemma BonusCellsOnGrid(c: Coordinate, kind: SpecialTile)
    ensures c in TilesOf(kind) ==> InGrid(c)
  {
    KindMembership(c, kind);
    if InPattern(c, kind) {
      PatternOnGrid(c, kind);
    }
  }

  lemma PatternSymmetric(c: Coordinate, kind: SpecialTile)
    ensures InPattern(c, kind) <==> InPattern(Swap(c), kind)
  {
  }

  /** Each bonus list is symmetric under exchanging x and y. */
  lemma BonusListsSymmetric(c: Coordinate, kind: SpecialTile)
    ensures c in TilesOf(kind) <==> Swap(c) in TilesOf(kind)
  {
    KindMembership(c, kind);
    KindMembership(Swap(c), kind);
    PatternSymmetric(c, kind);
  }

  /** A cell is on at most one list, as the four membership tests of GetSpecial see it. */
  lemma AtMostOneList(c: Coordinate)
    ensures c in TripleWordTiles() ==>
      c !in DoubleWordTiles() && c !in TripleLetterTiles() && c !in DoubleLetterTiles()
    ensures c in DoubleWordTiles() ==> c !in TripleLetterTiles() && c !in DoubleLetterTiles()
    ensures c in TripleLetterTiles() ==> c !in DoubleLetterTiles()
  {
    if c in TripleWordTiles() && c in DoubleWordTiles() {
      BonusListsDisjoint(c, TripleWord, DoubleWord);
    }
    if c in TripleWordTiles() && c in TripleLetterTiles() {
      BonusListsDisjoint(c, TripleWord, TripleLetter);
    }
    if c in TripleWordTiles() && c in DoubleLetterTiles() {
      BonusListsDisjoint(c, TripleWord, DoubleLetter);
    }
    if c in DoubleWordTiles() && c in TripleLetterTiles() {
      BonusListsDisjoint(c, DoubleWord, TripleLetter);
    }
    if c in DoubleWordTiles() && c in DoubleLetterTiles() {
      BonusListsDisjoint(c, DoubleWord, DoubleLetter);
    }
    if c in TripleLetterTiles() && c in DoubleLetterTiles() {
      BonusListsDisjoint(c, TripleLetter, DoubleLetter);
    }
  }

  /** Because the lists are disjoint, the overwrite order never takes effect: a
      cell gets the kind of the one list that names it, and no bonus otherwise. */
  lemma GetSpecialIsMembership(c: Coordinate, kind: SpecialTile)
    ensures GetSpecial(c) == Some(kind) <==> c in TilesOf(kind)
  {
    AtMostOneList(c);
  }

  /** The centre is not a triple-word cell; it is a double-word cell. */
  lemma CentreIsDoubleWord()
    ensures Coordinate(7, 7) !in TripleWordTiles()
    ensures Coordinate(7, 7) in DoubleWordTiles()
    ensures GetSpecial(Coordinate(7, 7)) == Some(DoubleWord)
  {
    TripleWordMembership(Coordinate(7, 7));
    DoubleWordMembership(Coordinate(7, 7));
    GetSpecialIsMembership(Coordinate(7, 7), DoubleWord);
  }
}

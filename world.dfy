/** The overworld: a rectangle of unit tiles centred on the origin, each of a
    type drawn at random with fixed odds. */
module Overworld {
  import opened Common

  datatype TileType = Grass | Dirt | Stone | Water

  /** getRandomTileType on a draw from nextFloat. */
  function TileFor(r: real): TileType
  {
    if r < 0.6 then Grass else if r < 0.8 then Dirt else if r < 0.9 then Stone else Water
  }

  /** The band of [0, 1) each type is drawn from: its lower and upper edge. */
  function Lower(t: TileType): real
  {
    match t
    case Grass => 0.0
    case Dirt => 0.6
    case Stone => 0.8
    case Water => 0.9
  }

  function Upper(t: TileType): real
  {
    match t
    case Grass => 0.6
    case Dirt => 0.8
    case Stone => 0.9
    case Water => 1.0
  }

  /** A draw in [0, 1) gives exactly the type whose band holds it; the bands
      tile [0, 1) with widths 0.6, 0.2, 0.1 and 0.1 (the odds of each type);
      and a larger draw never gives an earlier type. */
  lemma TileBands(r: real, s: real, t: TileType)
    requires 0.0 <= r < 1.0 && r <= s
    ensures TileFor(r) == t <==> Lower(t) <= r < Upper(t)
    ensures Upper(Grass) == Lower(Dirt) && Upper(Dirt) == Lower(Stone) && Upper(Stone) == Lower(Water)
    ensures Lower(Grass) == 0.0 && Upper(Water) == 1.0
    ensures Upper(Grass) - Lower(Grass) == 0.6 && Upper(Dirt) - Lower(Dirt) == 0.2
    ensures Upper(Stone) - Lower(Stone) == 0.1 && Upper(Water) - Lower(Water) == 0.1
    ensures Lower(TileFor(r)) <= Lower(TileFor(s))
  {
  }

  datatype Tile = Tile(x: int, z: int, kind: TileType)

  /** The loop bounds `-n / 2` and `n / 2`, with Java's division. */
  function Low(n: int): int { JavaDiv(-n, 2) }

  function High(n: int): int { JavaDiv(n, 2) }

  /** How many values the loop `for (i = -n / 2; i < n / 2; i++)` visits. */
  function Span(n: int): (k: nat)
  {
    if High(n) > Low(n) then High(n) - Low(n) else 0
  }

  /** The span is the dimension rounded down to even, and nothing for a negative one. */
  lemma SpanRoundsToEven(n: int)
    ensures n >= 0 && n % 2 == 0 ==> Span(n) == n
    ensures n >= 0 && n % 2 == 1 ==> Span(n) == n - 1
    ensures n < 0 ==> Span(n) == 0
    ensures Span(n) > 0 ==> Low(n) == -High(n)
  {
  }

  /** The i-th tile placed: columns of x in order, each running through z in order. */
  function TileAt(width: int, height: int, draws: nat -> real, i: nat): Tile
    requires Span(height) > 0
  {
    Tile(Low(width) + i / Span(height), Low(height) + i % Span(height), TileFor(draws(i)))
  }

  /** The tiles generateOverworld attaches, in order; the i-th uses the i-th draw. */
  function Tiles(width: int, height: int, draws: nat -> real): seq<Tile>
  {
    if Span(height) == 0 then []
    else seq(Span(width) * Span(height), i requires 0 <= i => TileAt(width, height, draws, i))
  }

  /** Division by a positive divisor recovers the quotient and remainder. */
  lemma DivModOf(q: int, r: int, n: int)
    requires q >= 0 && n > 0 && 0 <= r < n
    ensures (q * n + r) / n == q && (q * n + r) % n == r
  {
    var a := q * n + r;
    var d := a / n - q;
    assert d * n == r - a % n;
    if d >= 1 {
      AtLeastOnce(d, n);
    } else if d <= -1 {
      AtLeastOnce(-d, n);
    }
  }

  lemma {:induction false} AtLeastOnce(d: int, n: int)
    requires d >= 1 && n >= 0
    ensures d * n >= n
    decreases d
  {
    if d > 1 {
      AtLeastOnce(d - 1, n);
      assert d * n == (d - 1) * n + n;
    }
  }

  /** The tiles cover the rectangle: there are as many as its cells and
      every tile is inside it. */
  lemma TilesInRectangle(width: int, height: int, draws: nat -> real)
    ensures |Tiles(width, height, draws)| == Span(width) * Span(height)
    ensures forall t :: t in Tiles(width, height, draws) ==>
      Low(width) <= t.x < High(width) && Low(height) <= t.z < High(height)
  {
    var ts := Tiles(width, height, draws);
    var rows := Span(height);
    if rows > 0 {
      forall t | t in ts
        ensures Low(width) <= t.x < High(width) && Low(height) <= t.z < High(height)
      {
        var j :| 0 <= j < |ts| && ts[j] == t;
        InRange(j, Span(width), rows);
      }
    }
  }

  /** Every cell of the rectangle has exactly one tile, at the index its
      column and row give, whose type comes from that index's draw. */
  lemma OneTilePerCell(width: int, height: int, draws: nat -> real, x: int, z: int)
    requires Low(width) <= x < High(width) && Low(height) <= z < High(height)
    ensures var i := (x - Low(width)) * Span(height) + (z - Low(height));
      && i < |Tiles(width, height, draws)|
      && Tiles(width, height, draws)[i] == Tile(x, z, TileFor(draws(i)))
      && forall j :: (0 <= j < |Tiles(width, height, draws)| && Tiles(width, height, draws)[j].x == x
                       && Tiles(width, height, draws)[j].z == z) ==> j == i
  {
    var ts := Tiles(width, height, draws);
    var rows := Span(height);
    var q, r := x - Low(width), z - Low(height);
    var i := q * rows + r;
    DivModOf(q, r, rows);
    IndexBelowCount(q, r, Span(width), rows);
    forall j | 0 <= j < |ts| && ts[j].x == x && ts[j].z == z
      ensures j == i
    {
      assert j / rows == q && j % rows == r;
      SplitIndex(j, rows);
    }
  }

  lemma SplitIndex(j: int, rows: int)
    requires rows > 0
    ensures j == j / rows * rows + j % rows
  {
  }

  /** An index below cols * rows splits into a column below cols and a row below rows. */
  lemma InRange(j: int, cols: int, rows: int)
    requires rows > 0 && 0 <= j < cols * rows
    ensures 0 <= j / rows < cols && 0 <= j % rows < rows
  {
  }

  lemma IndexBelowCount(q: int, r: int, cols: int, rows: int)
    requires 0 <= q < cols && 0 <= r < rows
    ensures q * rows + r < cols * rows
  {
    assert q * rows <= (cols - 1) * rows;
  }

  /** generateOverworld: one tile per (x, z) of the centred rectangle, x the
      outer loop; `draws(k)` is the k-th value of nextFloat. */
  method GenerateOverworld(width: int, height: int, draws: nat -> real) returns (tiles: seq<Tile>)
    ensures tiles == Tiles(width, height, draws)
  {
    tiles := [];
    var rows := Span(height);
    var x := Low(width);
    while x < High(width)
      invariant Low(width) <= x && (Span(width) > 0 ==> x <= High(width)) && (Span(width) == 0 ==> x == Low(width))
      invariant |tiles| == (x - Low(width)) * rows
      invariant rows > 0 ==> forall i :: 0 <= i < |tiles| ==> tiles[i] == TileAt(width, height, draws, i)
      invariant rows == 0 ==> tiles == []
      decreases High(width) - x
    {
      var z := Low(height);
      while z < High(height)
        invariant Low(height) <= z && (rows > 0 ==> z <= High(height))
        invariant |tiles| == (x - Low(width)) * rows + (z - Low(height))
        invariant rows > 0 ==> forall i :: 0 <= i < |tiles| ==> tiles[i] == TileAt(width, height, draws, i)
        invariant rows == 0 ==> tiles == []
        decreases High(height) - z
      {
        DivModOf(x - Low(width), z - Low(height), rows);
        tiles := tiles + [Tile(x, z, TileFor(draws(|tiles|)))];
        z := z + 1;
      }
      x := x + 1;
    }
    if Span(width) > 0 {
      assert x == High(width);
    }
    if rows > 0 {
      assert |tiles| == Span(width) * rows;
      assert forall i :: 0 <= i < |tiles| ==> tiles[i] == Tiles(width, height, draws)[i];
    }
  }
}

/** The near-square grid of robot origins. */
module Grid {
  import opened Reals

  /** floor(sqrt(n)). */
  function Isqrt(n: nat): (c: nat)
    ensures c * c <= n < (c + 1) * (c + 1)
  {
    if n == 0 then 0
    else
      var p := Isqrt(n - 1);
      if (p + 1) * (p + 1) <= n then p + 1 else p
  }

  function CeilDiv(a: nat, b: nat): nat
    requires b > 0
  {
    (a + b - 1) / b
  }

  lemma SqrtOfPositive(num: nat)
    requires num > 0
    ensures Isqrt(num) > 0
  {
  }

  function Columns(num: nat): (c: nat)
    requires num > 0
    ensures c > 0
  {
    SqrtOfPositive(num);
    Isqrt(num)
  }

  function Rows(num: nat): nat
    requires num > 0
  {
    CeilDiv(num, Columns(num))
  }

  lemma CeilDivBounds(a: nat, b: nat)
    requires b > 0
    ensures a <= CeilDiv(a, b) * b < a + b
  {
    var q := (a + b - 1) / b;
    assert a + b - 1 == q * b + (a + b - 1) % b;
  }

  lemma FactorsGrow(a: int, b: int, c: nat)
    requires a <= b
    ensures a * c <= b * c
  {
    assert (b - a) * c >= 0;
  }

  lemma LessByFactor(a: nat, b: nat, c: nat)
    requires a * c < b * c
    ensures a < b
  {
    if b <= a {
      FactorsGrow(b, a, c);
      assert false;
    }
  }

  /** What follows for any numbers related as num, floor(sqrt(num)) and the ceiling are. */
  lemma ShapeOf(num: nat, c: nat, r: nat)
    requires 0 < c && c * c <= num < (c + 1) * (c + 1)
    requires num <= r * c < num + c
    ensures c <= r <= c + 2 && (c - 1) * r < num && r <= num
  {
    hide *;
    var square, area := c * c, r * c;
    assert (c + 1) * (c + 1) == square + 2 * c + 1;
    assert (c - 1) * c == square - c && (c + 3) * c == square + 3 * c;
    assert (c - 1) * r == area - r;
    assert (r - 1) * c == area - c;
    if r < c {
      FactorsGrow(r, c - 1, c);
      assert false;
    }
    if r > c + 2 {
      FactorsGrow(c + 3, r, c);
      assert false;
    }
    FactorsGrow(1, c, r - 1);
    assert (r - 1) * c == c * (r - 1);
  }

  /** At most two rows more than columns, room for everybody, and no line of the layout left empty. */
  lemma GridShape(num: nat)
    requires num > 0
    ensures var c, r := Columns(num), Rows(num);
            c <= r <= c + 2 && r * c >= num && (c - 1) * r < num && r <= num
  {
    var c := Columns(num);
    CeilDivBounds(num, c);
    hide CeilDiv;
    ShapeOf(num, c, Rows(num));
  }

  // ------------------------------------------------------------------- meshgrid

  /** meshgrid(arange(rows), arange(cols), indexing="xy"), flattened: the row numbers. */
  function MeshX(rows: nat, cols: nat): seq<nat> {
    if cols == 0 then [] else MeshX(rows, cols - 1) + seq(rows, j requires 0 <= j => j)
  }

  /** And the column numbers. */
  function MeshY(rows: nat, cols: nat): seq<nat> {
    if cols == 0 then [] else MeshY(rows, cols - 1) + seq(rows, j => cols - 1)
  }

  /** The row and the column of the k-th place, in layouts of r rows. */
  function RowOf(k: nat, r: nat): (m: nat)
    requires r > 0
    ensures m < r
  {
    k % r
  }

  function ColumnOf(k: nat, r: nat): nat
    requires r > 0
  {
    k / r
  }

  lemma PlaceIs(k: nat, r: nat)
    requires r > 0
    ensures k == ColumnOf(k, r) * r + RowOf(k, r)
  {
  }

  lemma PlaceOf(k: nat, r: nat, q: nat, m: nat)
    requires r > 0 && m < r && k == q * r + m
    ensures ColumnOf(k, r) == q && RowOf(k, r) == m
  {
    PlaceIs(k, r);
    hide *;
    var q', m' := ColumnOf(k, r), RowOf(k, r);
    assert (q - q') * r == m' - m;
    if q' < q {
      FactorsGrow(1, q - q', r);
      assert false;
    }
    if q' > q {
      FactorsGrow(q - q', -1, r);
      assert false;
    }
  }

  lemma {:induction false} MeshAt(rows: nat, cols: nat, k: nat)
    requires rows > 0 && k < rows * cols
    ensures |MeshX(rows, cols)| == rows * cols && |MeshY(rows, cols)| == rows * cols
    ensures MeshX(rows, cols)[k] == RowOf(k, rows) && MeshY(rows, cols)[k] == ColumnOf(k, rows)
  {
    MeshLength(rows, cols);
    MeshLength(rows, cols - 1);
    hide RowOf, ColumnOf;
    var n := rows * (cols - 1);
    assert rows * cols == n + rows;
    if k < n {
      MeshAt(rows, cols - 1, k);
    } else {
      PlaceOf(k, rows, cols - 1, k - n);
    }
  }

  lemma {:induction false} MeshLength(rows: nat, cols: nat)
    ensures |MeshX(rows, cols)| == rows * cols && |MeshY(rows, cols)| == rows * cols
  {
    if cols > 0 {
      MeshLength(rows, cols - 1);
      assert rows * cols == rows * (cols - 1) + rows;
    }
  }

  // --------------------------------------------------------------------- origins

  datatype Point = Point(x: real, y: real)

  /** Half the width of `n` lines `spacing` apart. */
  function Half(n: nat, spacing: real): real { spacing * (n as real - 1.0) / 2.0 }

  function Coordinate(n: nat, spacing: real, m: nat): real { spacing * (m as real) - Half(n, spacing) }

  /** The origins: grid numbers times the spacing, shifted so that the grid is centred. */
  function Origins(num: nat, spacing: real): (out: seq<Point>)
    requires num > 0
    ensures |out| == num
  {
    var r, c := Rows(num), Columns(num);
    GridShape(num);
    MeshLength(r, c);
    var xx, yy := MeshX(r, c)[..num], MeshY(r, c)[..num];
    seq(num, k requires 0 <= k < num => Point(Coordinate(r, spacing, xx[k]), Coordinate(c, spacing, yy[k])))
  }

  lemma OriginAt(num: nat, spacing: real, k: nat)
    requires k < num
    ensures Rows(num) > 0 && ColumnOf(k, Rows(num)) < Columns(num)
    ensures Origins(num, spacing)[k] == Point(Coordinate(Rows(num), spacing, RowOf(k, Rows(num))),
                                              Coordinate(Columns(num), spacing, ColumnOf(k, Rows(num))))
  {
    hide Rows, Columns, Coordinate, RowOf, ColumnOf, MeshX, MeshY;
    GridShape(num);
    var r, c := Rows(num), Columns(num);
    MeshAt(r, c, k);
    PlaceIs(k, r);
    LessByFactor(ColumnOf(k, r), c, r);
  }

  function Squared(a: Point, b: Point): real { (a.x - b.x) * (a.x - b.x) + (a.y - b.y) * (a.y - b.y) }

  function Square(d: real): real { d * d }

  lemma SquareIsPositive(d: real)
    ensures Square(d) >= 0.0
  {
  }

  lemma SquareGrows(i: real, spacing: real)
    requires i >= 1.0 && spacing > 0.0
    ensures Square(spacing * i) >= spacing * spacing
  {
    assert spacing * i - spacing == spacing * (i - 1.0) >= 0.0;
    var e := spacing * i - spacing;
    assert Square(spacing + e) == spacing * spacing + (2.0 * spacing * e + e * e);
  }

  lemma Apart(n: nat, spacing: real, k: nat, l: nat)
    requires spacing > 0.0 && k != l
    ensures Square(Coordinate(n, spacing, k) - Coordinate(n, spacing, l)) >= spacing * spacing
  {
    var i := k as real - l as real;
    assert Coordinate(n, spacing, k) - Coordinate(n, spacing, l) == spacing * i by { hide Half; }
    hide Half, Coordinate;
    if k < l {
      SquareGrows(-i, spacing);
      assert spacing * (-i) == -(spacing * i);
      assert Square(-(spacing * i)) == Square(spacing * i);
    } else {
      SquareGrows(i, spacing);
    }
  }

  lemma OneAxisIsEnough(a: Point, b: Point, spacing: real)
    requires Square(a.x - b.x) >= spacing * spacing || Square(a.y - b.y) >= spacing * spacing
    ensures Squared(a, b) >= spacing * spacing
  {
    SquareIsPositive(a.x - b.x);
    SquareIsPositive(a.y - b.y);
    assert Squared(a, b) == Square(a.x - b.x) + Square(a.y - b.y);
  }

  /** The next origin of a line is exactly the spacing further, and so is the neighbour in the next line. */
  lemma NeighboursAreNear(num: nat, spacing: real, k: nat)
    requires k < num
    ensures Rows(num) > 0
    ensures var r, out := Rows(num), Origins(num, spacing);
            && (k + 1 < num && (k + 1) % r != 0 ==> out[k + 1] == Point(out[k].x + spacing, out[k].y))
            && (k + r < num ==> out[k + r] == Point(out[k].x, out[k].y + spacing))
  {
    GridShape(num);
    var r := Rows(num);
    NextPlace(k, r);
    PlaceBeyond(k, r);
    RowIsRemainder(k + 1, r);
    hide *;
    OriginAt(num, spacing, k);
    NextCoordinate(r, spacing, RowOf(k, r));
    NextCoordinate(Columns(num), spacing, ColumnOf(k, r));
    if k + 1 < num {
      OriginAt(num, spacing, k + 1);
    }
    if k + r < num {
      OriginAt(num, spacing, k + r);
    }
  }

  lemma RowIsRemainder(k: nat, r: nat)
    requires r > 0
    ensures RowOf(k, r) == k % r
  {
  }

  lemma PlaceBeyond(k: nat, r: nat)
    requires r > 0
    ensures ColumnOf(k + r, r) == ColumnOf(k, r) + 1 && RowOf(k + r, r) == RowOf(k, r)
  {
    PlaceIs(k, r);
    hide *;
    var q, m := ColumnOf(k, r), RowOf(k, r);
    assert (q + 1) * r == q * r + r;
    PlaceOf(k + r, r, q + 1, m);
  }

  lemma NextCoordinate(n: nat, spacing: real, m: nat)
    ensures Coordinate(n, spacing, m + 1) == Coordinate(n, spacing, m) + spacing
  {
    assert (m + 1) as real == m as real + 1.0;
  }

  /** Any two origins are at least the spacing apart. */
  lemma OriginsAreApart(num: nat, spacing: real, k: nat, l: nat)
    requires spacing > 0.0 && k < num && l < num && k != l
    ensures Squared(Origins(num, spacing)[k], Origins(num, spacing)[l]) >= spacing * spacing
  {
    OriginAt(num, spacing, k);
    OriginAt(num, spacing, l);
    hide Rows, Columns, Coordinate, RowOf, ColumnOf, Origins;
    var r, c := Rows(num), Columns(num);
    var a, b := Origins(num, spacing)[k], Origins(num, spacing)[l];
    PlaceIs(k, r);
    PlaceIs(l, r);
    hide *;
    if RowOf(k, r) != RowOf(l, r) {
      Apart(r, spacing, RowOf(k, r), RowOf(l, r));
    } else {
      assert ColumnOf(k, r) != ColumnOf(l, r);
      Apart(c, spacing, ColumnOf(k, r), ColumnOf(l, r));
    }
    OneAxisIsEnough(a, b, spacing);
  }

  lemma Within(n: nat, spacing: real, m: nat)
    requires spacing >= 0.0 && m < n
    ensures -Half(n, spacing) <= Coordinate(n, spacing, m) <= Half(n, spacing)
  {
    var x, y := m as real, n as real;
    var low, all := spacing * x, spacing * (y - 1.0);
    NonNegative(spacing, x);
    NonNegative(spacing, y - 1.0 - x);
    assert all - low == spacing * (y - 1.0 - x);
    assert Half(n, spacing) == all / 2.0;
  }

  lemma Ends(n: nat, spacing: real)
    requires n > 0
    ensures Coordinate(n, spacing, 0) == -Half(n, spacing) && Coordinate(n, spacing, n - 1) == Half(n, spacing)
  {
    var all := spacing * (n as real - 1.0);
    assert (n - 1) as real == n as real - 1.0;
    assert Half(n, spacing) == all / 2.0;
  }

  /** The bounding box is centred on zero: every coordinate is inside it, and all four sides are reached. */
  lemma BoxIsCentred(num: nat, spacing: real)
    requires num > 0 && spacing >= 0.0
    ensures var w, h := Half(Rows(num), spacing), Half(Columns(num), spacing);
            var out := Origins(num, spacing);
            && (forall k :: 0 <= k < num ==> -w <= out[k].x <= w && -h <= out[k].y <= h)
            && out[0] == Point(-w, -h)
            && (exists k :: 0 <= k < num && out[k].x == w) && (exists k :: 0 <= k < num && out[k].y == h)
  {
    hide Rows, Columns, Coordinate, RowOf, ColumnOf, Origins, Half;
    var r, c := Rows(num), Columns(num);
    var out := Origins(num, spacing);
    GridShape(num);
    forall k | 0 <= k < num
      ensures -Half(r, spacing) <= out[k].x <= Half(r, spacing)
      ensures -Half(c, spacing) <= out[k].y <= Half(c, spacing)
    {
      OriginAt(num, spacing, k);
      Within(r, spacing, RowOf(k, r));
      Within(c, spacing, ColumnOf(k, r));
    }
    Ends(r, spacing);
    Ends(c, spacing);
    OriginAt(num, spacing, 0);
    PlaceOf(0, r, 0, 0);
    OriginAt(num, spacing, r - 1);
    PlaceOf(r - 1, r, 0, r - 1);
    assert out[r - 1].x == Half(r, spacing);
    OriginAt(num, spacing, (c - 1) * r);
    PlaceOf((c - 1) * r, r, c - 1, 0);
    assert out[(c - 1) * r].y == Half(c, spacing);
  }

  // -------------------------------------------------------------------- centroid

  function SumX(out: seq<Point>): real { if out == [] then 0.0 else SumX(out[..|out| - 1]) + out[|out| - 1].x }

  function SumY(out: seq<Point>): real { if out == [] then 0.0 else SumY(out[..|out| - 1]) + out[|out| - 1].y }

  /** The sum of the first `m` coordinates of a line of `n`, closed form. */
  function Partial(n: nat, m: nat, spacing: real): real {
    spacing * (m as real) * (m as real - n as real) / 2.0
  }

  lemma PartialStep(n: nat, m: nat, spacing: real)
    ensures Partial(n, m + 1, spacing) == Partial(n, m, spacing) + Coordinate(n, spacing, m)
  {
    var x, y := m as real, n as real;
    assert (m + 1) as real == x + 1.0;
    assert spacing * (x + 1.0) * (x + 1.0 - y) == spacing * x * (x - y) + spacing * (2.0 * x + 1.0 - y);
  }

  lemma PartialEnds(n: nat, spacing: real)
    ensures Partial(n, 0, spacing) == 0.0 && Partial(n, n, spacing) == 0.0
  {
  }

  /** The sum of the y's when q columns of r are full and m places of the next are taken. */
  function ColumnSum(r: nat, c: nat, q: nat, m: nat, spacing: real): real {
    (r as real) * Partial(c, q, spacing) + (m as real) * Coordinate(c, spacing, q)
  }

  lemma ColumnSumStep(r: nat, c: nat, q: nat, m: nat, spacing: real)
    requires m < r
    ensures ColumnSum(r, c, q, m, spacing) + Coordinate(c, spacing, q)
            == if m + 1 < r then ColumnSum(r, c, q, m + 1, spacing) else ColumnSum(r, c, q + 1, 0, spacing)
  {
    PartialStep(c, q, spacing);
    hide Partial, Coordinate;
    var y, p := Coordinate(c, spacing, q), Partial(c, q, spacing);
    assert (m + 1) as real == m as real + 1.0;
    assert (m as real + 1.0) * y == (m as real) * y + y;
    assert (r as real) * (p + y) == (r as real) * p + (r as real) * y;
  }

  /** After k origins: full columns cancel in x, and the y's of a column are alike. */
  lemma {:induction false} SumsAre(num: nat, spacing: real, k: nat)
    requires 0 < num && k <= num && Rows(num) > 0
    ensures var r, c := Rows(num), Columns(num);
            && SumX(Origins(num, spacing)[..k]) == Partial(r, RowOf(k, r), spacing)
            && SumY(Origins(num, spacing)[..k]) == ColumnSum(r, c, ColumnOf(k, r), RowOf(k, r), spacing)
  {
    hide Rows, Columns, Coordinate, RowOf, ColumnOf, Origins, Partial, ColumnSum;
    var r, c := Rows(num), Columns(num);
    var out := Origins(num, spacing);
    if k == 0 {
      PlaceOf(0, r, 0, 0);
      NothingSums(r, c, spacing);
    } else {
      var j := k - 1;
      var q, m := ColumnOf(j, r), RowOf(j, r);
      SumsAre(num, spacing, j);
      OriginAt(num, spacing, j);
      assert out[..k][..j] == out[..j];
      PartialStep(r, m, spacing);
      ColumnSumStep(r, c, q, m, spacing);
      NextPlace(j, r);
      PartialEnds(r, spacing);
    }
  }

  lemma NothingSums(r: nat, c: nat, spacing: real)
    ensures Partial(r, 0, spacing) == 0.0 && ColumnSum(r, c, 0, 0, spacing) == 0.0
  {
  }

  lemma NextPlace(j: nat, r: nat)
    requires r > 0
    ensures var q, m := ColumnOf(j, r), RowOf(j, r);
            if m + 1 < r then ColumnOf(j + 1, r) == q && RowOf(j + 1, r) == m + 1
            else ColumnOf(j + 1, r) == q + 1 && RowOf(j + 1, r) == 0
  {
    PlaceIs(j, r);
    hide RowOf, ColumnOf;
    var q, m := ColumnOf(j, r), RowOf(j, r);
    if m + 1 < r {
      PlaceOf(j + 1, r, q, m + 1);
    } else {
      assert (q + 1) * r == q * r + r;
      PlaceOf(j + 1, r, q + 1, 0);
    }
  }

  /** A full grid has its centroid at zero. */
  lemma FullGridIsCentred(num: nat, spacing: real)
    requires num > 0 && Rows(num) * Columns(num) == num
    ensures SumX(Origins(num, spacing)) == 0.0 && SumY(Origins(num, spacing)) == 0.0
  {
    hide Rows, Columns, Coordinate, RowOf, ColumnOf, Origins, Partial;
    var r, c := Rows(num), Columns(num);
    GridShape(num);
    assert num == c * r;
    PlaceOf(num, r, c, 0);
    SumsAre(num, spacing, num);
    assert Origins(num, spacing)[..num] == Origins(num, spacing);
    PartialEnds(r, spacing);
    PartialEnds(c, spacing);
    assert ColumnSum(r, c, c, 0, spacing) == 0.0 by {
      assert (r as real) * 0.0 == 0.0 && 0.0 * Coordinate(c, spacing, c) == 0.0;
    }
  }
}

/** Bilinear recursive bisection (BLRB): a raster block is filled by
    bilinear interpolation between the values of an evaluation function at
    its four corners, and blocks are bisected into quadrants. The contract
    is the one tests/test_blrb.py asserts of `indices`, `subdivide`,
    `bilinear` and `interpolate_block`; the recursive driver bisects along
    the quadrants `subdivide` yields. */
module Blrb {

  type Point = (int, int)

  /** A block shape: number of rows and columns. */
  type Shape = (nat, nat)

  /** `indices`: the inclusive bounds (first row, last row, first column,
      last column) of the block at `origin` with `shape`. */
  function Indices(origin: Point, shape: Shape): (r: (int, int, int, int))
    ensures r.0 == origin.0 && r.2 == origin.1
    ensures r.1 - r.0 + 1 == shape.0 && r.3 - r.2 + 1 == shape.1
  {
    (origin.0, origin.0 + shape.0 - 1, origin.1, origin.1 + shape.1 - 1)
  }

  lemma IndicesExamples()
    ensures Indices((0, 0), (16, 32)) == (0, 15, 0, 31)
    ensures Indices((2, 3), (3, 4)) == (2, 4, 3, 6)
  {
  }

  datatype Quadrant = UL | UR | LL | LR

  /** The row and column at which a block is bisected. */
  function CentreRow(origin: Point, shape: Shape): int { origin.0 + shape.0 / 2 }
  function CentreCol(origin: Point, shape: Shape): int { origin.1 + shape.1 / 2 }

  /** The corners [top-left, top-right, bottom-left, bottom-right] of the
      box with rows `i0..i1` and columns `j0..j1`. */
  function Corners(i0: int, i1: int, j0: int, j1: int): seq<Point>
  {
    [(i0, j0), (i0, j1), (i1, j0), (i1, j1)]
  }

  /** The row and column bounds of one quadrant; neighbouring quadrants
      share the bisecting row and column. */
  function QuadrantBox(origin: Point, shape: Shape, q: Quadrant): (int, int, int, int)
  {
    var (i0, i1, j0, j1) := Indices(origin, shape);
    var ic := CentreRow(origin, shape);
    var jc := CentreCol(origin, shape);
    match q
    case UL => (i0, ic, j0, jc)
    case UR => (i0, ic, jc, j1)
    case LL => (ic, i1, j0, jc)
    case LR => (ic, i1, jc, j1)
  }

  /** `subdivide`: the corner lists of the four quadrants of a block. */
  function Subdivide(origin: Point, shape: Shape): (r: map<Quadrant, seq<Point>>)
    ensures r.Keys == {UL, UR, LL, LR}
    ensures forall q :: q in r ==>
      var (a, b, c, d) := QuadrantBox(origin, shape, q);
      r[q] == Corners(a, b, c, d)
  {
    map q: Quadrant | q in {UL, UR, LL, LR} ::
      var (a, b, c, d) := QuadrantBox(origin, shape, q);
      Corners(a, b, c, d)
  }

  lemma SubdivideExample()
    ensures Subdivide((0, 0), (16, 32))
         == map[UL := [(0, 0), (0, 16), (8, 0), (8, 16)],
                UR := [(0, 16), (0, 31), (8, 16), (8, 31)],
                LL := [(8, 0), (8, 16), (15, 0), (15, 16)],
                LR := [(8, 16), (8, 31), (15, 16), (15, 31)]]
  {
  }

  /** Whether a point lies in the inclusive box (i0, i1, j0, j1). */
  predicate InBox(p: Point, box: (int, int, int, int))
  {
    box.0 <= p.0 <= box.1 && box.2 <= p.1 <= box.3
  }

  /** For a non-empty block the quadrants are non-empty, lie inside the
      block, and every point of the block lies in one of them. */
  lemma QuadrantsTileBlock(origin: Point, shape: Shape)
    requires 1 <= shape.0 && 1 <= shape.1
    ensures forall q: Quadrant :: var (a, b, c, d) := QuadrantBox(origin, shape, q); a <= b && c <= d
    ensures forall q: Quadrant, p: Point :: InBox(p, QuadrantBox(origin, shape, q)) ==> InBox(p, Indices(origin, shape))
    ensures forall p: Point :: InBox(p, Indices(origin, shape)) ==>
      exists q: Quadrant :: InBox(p, QuadrantBox(origin, shape, q))
  {
    forall p: Point | InBox(p, Indices(origin, shape))
      ensures exists q: Quadrant :: InBox(p, QuadrantBox(origin, shape, q))
    {
      var q := if p.0 <= CentreRow(origin, shape) then
                 (if p.1 <= CentreCol(origin, shape) then UL else UR)
               else (if p.1 <= CentreCol(origin, shape) then LL else LR);
      assert InBox(p, QuadrantBox(origin, shape, q));
    }
  }

  // ---------------------------------------------------------------------
  // bilinear and interpolate_block

  /** The fractional position of index k among n samples, 0 at the first
      and 1 at the last; a single sample sits at 0. */
  function Frac(k: nat, n: nat): real
  {
    if n <= 1 then 0.0 else k as real / (n - 1) as real
  }

  /** The point a fraction t of the way from a to b. */
  function Lerp(a: real, b: real, t: real): real
  {
    a + t * (b - a)
  }

  /** The corner values weighted by fractional positions fy down and fx across. */
  function Blend(ul: real, ur: real, lr: real, ll: real, fy: real, fx: real): real
  {
    (1.0 - fy) * ((1.0 - fx) * ul + fx * ur) + fy * ((1.0 - fx) * ll + fx * lr)
  }

  /** The value at (r, c) of `bilinear(shape, ul, ur, lr, ll)`. */
  function BilinearAt(shape: Shape, ul: real, ur: real, lr: real, ll: real, r: nat, c: nat): real
  {
    Blend(ul, ur, lr, ll, Frac(r, shape.0), Frac(c, shape.1))
  }

  /** `bilinear`: a block of the given shape interpolating the corner
      values given in the order upper-left, upper-right, lower-right,
      lower-left. */
  function Bilinear(shape: Shape, ul: real, ur: real, lr: real, ll: real): (a: seq<seq<real>>)
    ensures |a| == shape.0
    ensures forall r :: 0 <= r < shape.0 ==> |a[r]| == shape.1
    ensures forall r, c :: 0 <= r < shape.0 && 0 <= c < shape.1 ==> a[r][c] == BilinearAt(shape, ul, ur, lr, ll, r, c)
  {
    seq(shape.0, r requires 0 <= r < shape.0 =>
      seq(shape.1, c requires 0 <= c < shape.1 => BilinearAt(shape, ul, ur, lr, ll, r, c)))
  }

  /** The block reproduces its corner values exactly. */
  lemma BilinearCorners(shape: Shape, ul: real, ur: real, lr: real, ll: real)
    requires 2 <= shape.0 && 2 <= shape.1
    ensures var a := Bilinear(shape, ul, ur, lr, ll);
      a[0][0] == ul && a[0][shape.1 - 1] == ur &&
      a[shape.0 - 1][shape.1 - 1] == lr && a[shape.0 - 1][0] == ll
  {
    assert Frac(shape.0 - 1, shape.0) == 1.0;
    assert Frac(shape.1 - 1, shape.1) == 1.0;
  }

  /** Equal corner values give a uniform block. */
  lemma BilinearConstant(shape: Shape, x: real)
    ensures forall r, c :: 0 <= r < shape.0 && 0 <= c < shape.1 ==> Bilinear(shape, x, x, x, x)[r][c] == x
  {
    forall r, c | 0 <= r < shape.0 && 0 <= c < shape.1
      ensures BilinearAt(shape, x, x, x, x, r, c) == x
    {
      var fy := Frac(r, shape.0);
      var fx := Frac(c, shape.1);
      assert (1.0 - fx) * x + fx * x == x;
      assert (1.0 - fy) * x + fy * x == x;
    }
  }

  /** The centre values asserted for a 5 x 5 block. */
  lemma BilinearCentreExamples()
    ensures Bilinear((5, 5), 0.0, 1.0, 1.0, 0.0)[2][2] == 0.5
    ensures Bilinear((5, 5), 0.0, 1.0, 2.0, 1.0)[2][2] == 1.0
  {
    assert Frac(2, 5) == 0.5;
  }

  /** `interpolate_block`: the bilinear fill of a block from the values of
      `f` at its four corners. */
  function InterpolateBlock(origin: Point, shape: Shape, f: (int, int) -> real): (b: seq<seq<real>>)
    ensures |b| == shape.0
    ensures forall r :: 0 <= r < shape.0 ==> |b[r]| == shape.1
  {
    var (i0, i1, j0, j1) := Indices(origin, shape);
    Bilinear(shape, f(i0, j0), f(i0, j1), f(i1, j1), f(i1, j0))
  }

  /** The value at (i, j) of the bilinear field A + B*i + C*j + D*i*j. */
  function FieldAt(A: real, B: real, C: real, D: real, i: real, j: real): real
  {
    A + B * i + C * j + D * i * j
  }

  /** The bilinear field A + B*i + C*j + D*i*j as an evaluation function. */
  function BilinearField(A: real, B: real, C: real, D: real): (int, int) -> real
  {
    (i: int, j: int) => FieldAt(A, B, C, D, i as real, j as real)
  }

  /** Along a row the field is affine in the column, so interpolating
      between two columns reproduces it. */
  lemma LerpAlongRow(A: real, B: real, C: real, D: real, i: real, j0: real, j1: real, t: real)
    ensures (1.0 - t) * FieldAt(A, B, C, D, i, j0) + t * FieldAt(A, B, C, D, i, j1)
         == FieldAt(A, B, C, D, i, Lerp(j0, j1, t))
  {
    var P := A + B * i;
    var Q := C + D * i;
    assert FieldAt(A, B, C, D, i, j0) == P + Q * j0;
    assert FieldAt(A, B, C, D, i, j1) == P + Q * j1;
    assert FieldAt(A, B, C, D, i, Lerp(j0, j1, t)) == P + Q * Lerp(j0, j1, t);
  }

  /** Along a column the field is affine in the row. */
  lemma LerpAlongColumn(A: real, B: real, C: real, D: real, j: real, i0: real, i1: real, t: real)
    ensures (1.0 - t) * FieldAt(A, B, C, D, i0, j) + t * FieldAt(A, B, C, D, i1, j)
         == FieldAt(A, B, C, D, Lerp(i0, i1, t), j)
  {
    var P := A + C * j;
    var Q := B + D * j;
    assert FieldAt(A, B, C, D, i0, j) == P + Q * i0;
    assert FieldAt(A, B, C, D, i1, j) == P + Q * i1;
    assert FieldAt(A, B, C, D, Lerp(i0, i1, t), j) == P + Q * Lerp(i0, i1, t);
  }

  /** Of n samples running from `first` to `first + n - 1`, the one a
      fraction `Frac(k, n)` of the way along is `first + k`. */
  lemma FracPosition(first: int, k: nat, n: nat)
    requires k < n
    ensures Lerp(first as real, (first + n - 1) as real, Frac(k, n)) == (first + k) as real
  {
    if n > 1 {
      var d := (n - 1) as real;
      assert Frac(k, n) * d == k as real;
    }
  }

  /** Bilinear interpolation between the field's values at the corners of
      a box reproduces the field at the interpolated position. */
  lemma BilinearOfField(A: real, B: real, C: real, D: real, i0: real, i1: real, j0: real, j1: real, fy: real, fx: real)
    ensures Blend(FieldAt(A, B, C, D, i0, j0), FieldAt(A, B, C, D, i0, j1),
                  FieldAt(A, B, C, D, i1, j1), FieldAt(A, B, C, D, i1, j0), fy, fx)
         == FieldAt(A, B, C, D, Lerp(i0, i1, fy), Lerp(j0, j1, fx))
  {
    LerpAlongRow(A, B, C, D, i0, j0, j1, fx);
    LerpAlongRow(A, B, C, D, i1, j0, j1, fx);
    LerpAlongColumn(A, B, C, D, Lerp(j0, j1, fx), i0, i1, fy);
  }

  /** Pixel (r, c) of the bilinear fill of a block from the field's corner
      values is the field's value at that pixel. */
  lemma BilinearFillAt(origin: Point, shape: Shape, A: real, B: real, C: real, D: real, r: nat, c: nat)
    requires r < shape.0 && c < shape.1
    ensures var i0 := origin.0 as real;
      var i1 := (origin.0 + shape.0 - 1) as real;
      var j0 := origin.1 as real;
      var j1 := (origin.1 + shape.1 - 1) as real;
      BilinearAt(shape, FieldAt(A, B, C, D, i0, j0), FieldAt(A, B, C, D, i0, j1),
                 FieldAt(A, B, C, D, i1, j1), FieldAt(A, B, C, D, i1, j0), r, c)
      == FieldAt(A, B, C, D, (origin.0 + r) as real, (origin.1 + c) as real)
  {
    var i0 := origin.0;
    var i1 := origin.0 + shape.0 - 1;
    var j0 := origin.1;
    var j1 := origin.1 + shape.1 - 1;
    var fy := Frac(r, shape.0);
    var fx := Frac(c, shape.1);
    FracPosition(i0, r, shape.0);
    FracPosition(j0, c, shape.1);
    BilinearFillReal(shape, A, B, C, D, i0 as real, i1 as real, j0 as real, j1 as real, r, c);
  }

  /** Pixel (r, c) of a block whose corners sit at rows i0, i1 and columns
      j0, j1 of a bilinear field takes the field's value at the position
      that pixel's weights pick out. */
  lemma BilinearFillReal(shape: Shape, A: real, B: real, C: real, D: real, i0: real, i1: real, j0: real, j1: real,
                         r: nat, c: nat)
    ensures BilinearAt(shape, FieldAt(A, B, C, D, i0, j0), FieldAt(A, B, C, D, i0, j1),
                       FieldAt(A, B, C, D, i1, j1), FieldAt(A, B, C, D, i1, j0), r, c)
         == FieldAt(A, B, C, D, Lerp(i0, i1, Frac(r, shape.0)), Lerp(j0, j1, Frac(c, shape.1)))
  {
    BilinearOfField(A, B, C, D, i0, i1, j0, j1, Frac(r, shape.0), Frac(c, shape.1));
  }

  /** `interpolate_block` is exact on bilinear fields: every pixel of the
      block gets the field's own value. */
  lemma InterpolateBlockExact(origin: Point, shape: Shape, A: real, B: real, C: real, D: real, r: nat, c: nat)
    requires r < shape.0 && c < shape.1
    ensures InterpolateBlock(origin, shape, BilinearField(A, B, C, D))[r][c]
         == BilinearField(A, B, C, D)(origin.0 + r, origin.1 + c)
  {
    BilinearFillAt(origin, shape, A, B, C, D, r, c);
  }

  /** The same, indexed by raster position. */
  lemma InterpolateBlockExactAt(origin: Point, shape: Shape, A: real, B: real, C: real, D: real, i: int, j: int)
    requires InBox((i, j), Indices(origin, shape))
    ensures InterpolateBlock(origin, shape, BilinearField(A, B, C, D))[i - origin.0][j - origin.1]
         == BilinearField(A, B, C, D)(i, j)
  {
    var r: nat := i - origin.0;
    var c: nat := j - origin.1;
    BilinearFillAt(origin, shape, A, B, C, D, r, c);
    assert (origin.0 + r) as real == i as real;
    assert (origin.1 + c) as real == j as real;
  }

  /** The values the tests assert for the field i*j on 5 x 5 and 5 x 11
      blocks (negative indices counted from the end). */
  lemma InterpolateBlockExamples()
    ensures InterpolateBlock((0, 0), (5, 5), BilinearField(0.0, 0.0, 0.0, 1.0))[2][2] == 4.0
    ensures InterpolateBlock((0, 0), (5, 5), BilinearField(0.0, 0.0, 0.0, 1.0))[4][4] == 16.0
    ensures InterpolateBlock((0, 0), (5, 11), BilinearField(0.0, 0.0, 0.0, 1.0))[4][10] == 40.0
    ensures InterpolateBlock((0, 0), (5, 11), BilinearField(0.0, 0.0, 0.0, 1.0))[3][10] == 30.0
    ensures InterpolateBlock((0, 0), (5, 11), BilinearField(0.0, 0.0, 0.0, 1.0))[4][9] == 36.0
  {
    SquareBlockExample();
    WideBlockExample();
  }

  lemma SquareBlockExample()
    ensures InterpolateBlock((0, 0), (5, 5), BilinearField(0.0, 0.0, 0.0, 1.0))[2][2] == 4.0
    ensures InterpolateBlock((0, 0), (5, 5), BilinearField(0.0, 0.0, 0.0, 1.0))[4][4] == 16.0
  {
    ProductFieldExact((5, 5));
  }

  lemma WideBlockExample()
    ensures InterpolateBlock((0, 0), (5, 11), BilinearField(0.0, 0.0, 0.0, 1.0))[4][10] == 40.0
    ensures InterpolateBlock((0, 0), (5, 11), BilinearField(0.0, 0.0, 0.0, 1.0))[3][10] == 30.0
    ensures InterpolateBlock((0, 0), (5, 11), BilinearField(0.0, 0.0, 0.0, 1.0))[4][9] == 36.0
  {
    ProductFieldExact((5, 11));
  }

  /** For the field i*j every pixel of a block at the origin is the product
      of its row and column. */
  lemma ProductFieldExact(shape: Shape)
    ensures forall r, c :: 0 <= r < shape.0 && 0 <= c < shape.1 ==>
      InterpolateBlock((0, 0), shape, BilinearField(0.0, 0.0, 0.0, 1.0))[r][c] == (r * c) as real
  {
    forall r, c | 0 <= r < shape.0 && 0 <= c < shape.1
      ensures InterpolateBlock((0, 0), shape, BilinearField(0.0, 0.0, 0.0, 1.0))[r][c] == (r * c) as real
    {
      InterpolateBlockExact((0, 0), shape, 0.0, 0.0, 0.0, 1.0, r, c);
      assert FieldAt(0.0, 0.0, 0.0, 1.0, r as real, c as real) == r as real * c as real;
    }
  }

  /** For the planar field i + j on a 3 x 5 block, `interpolate_block`
      equals the direct bilinear fill of the corner values. */
  lemma InterpolatePlanarMatchesBilinear()
    ensures InterpolateBlock((0, 0), (3, 5), BilinearField(0.0, 1.0, 1.0, 0.0))
         == Bilinear((3, 5), 0.0, 4.0, 6.0, 2.0)
  {
  }

  // ---------------------------------------------------------------------
  // The recursive driver

  /** Whether a block lies inside an h x w raster. */
  predicate BlockInRaster(origin: Point, shape: Shape, h: nat, w: nat)
  {
    0 <= origin.0 && 0 <= origin.1 && origin.0 + shape.0 <= h && origin.1 + shape.1 <= w
  }

  /** The shape of a quadrant. */
  function QuadrantShape(origin: Point, shape: Shape, q: Quadrant): (s: Shape)
    requires 1 <= shape.0 && 1 <= shape.1
    ensures 1 <= s.0 && 1 <= s.1
  {
    var (a, b, c, d) := QuadrantBox(origin, shape, q);
    (b - a + 1, d - c + 1)
  }

  function QuadrantOrigin(origin: Point, shape: Shape, q: Quadrant): Point
  {
    var (a, _, c, _) := QuadrantBox(origin, shape, q);
    (a, c)
  }

  /** A quadrant's origin and shape describe the quadrant's box. */
  lemma QuadrantIndices(origin: Point, shape: Shape, q: Quadrant)
    requires 1 <= shape.0 && 1 <= shape.1
    ensures Indices(QuadrantOrigin(origin, shape, q), QuadrantShape(origin, shape, q)) == QuadrantBox(origin, shape, q)
  {
  }

  /** Whether box `inner` lies within box `outer`. */
  predicate WithinBox(inner: (int, int, int, int), outer: (int, int, int, int))
  {
    outer.0 <= inner.0 && inner.1 <= outer.1 && outer.2 <= inner.2 && inner.3 <= outer.3
  }

  /** Whether a point lies in one of the boxes. */
  predicate InSomeBox(p: Point, boxes: seq<(int, int, int, int)>)
  {
    exists k :: 0 <= k < |boxes| && InBox(p, boxes[k])
  }

  /** The quadrant boxes of a block, in the order `subdivide` lists them
      and the driver fills them. */
  function QuadrantBoxes(origin: Point, shape: Shape): seq<(int, int, int, int)>
  {
    [QuadrantBox(origin, shape, UL), QuadrantBox(origin, shape, UR),
     QuadrantBox(origin, shape, LL), QuadrantBox(origin, shape, LR)]
  }

  const FillOrder: seq<Quadrant> := [UL, UR, LL, LR]

  /** A point lies in some quadrant exactly when it lies in the block. */
  lemma InSomeQuadrant(origin: Point, shape: Shape, p: Point)
    requires 1 <= shape.0 && 1 <= shape.1
    ensures InSomeBox(p, QuadrantBoxes(origin, shape)) <==> InBox(p, Indices(origin, shape))
  {
    QuadrantsTileBlock(origin, shape);
    var bs := QuadrantBoxes(origin, shape);
    if InBox(p, Indices(origin, shape)) {
      var q: Quadrant :| InBox(p, QuadrantBox(origin, shape, q));
      var k := match q case UL => 0 case UR => 1 case LL => 2 case LR => 3;
      assert InBox(p, bs[k]);
    }
    if InSomeBox(p, bs) {
      var k :| 0 <= k < 4 && InBox(p, bs[k]);
      var q := FillOrder[k];
      assert InBox(p, QuadrantBox(origin, shape, q));
    }
  }

  /** The value v at raster position (i, j) is the one `interpolate_block`
      gives there for some non-empty leaf block that contains (i, j) and
      lies within `outer`. */
  ghost predicate FromLeaf(f: (int, int) -> real, outer: (int, int, int, int), i: int, j: int, v: real)
  {
    exists o: Point, s: Shape :: 1 <= s.0 && 1 <= s.1 && WithinBox(Indices(o, s), outer) &&
      InBox((i, j), Indices(o, s)) && v == InterpolateBlock(o, s, f)[i - o.0][j - o.1]
  }

  /** A leaf within a box is a leaf within any box around it. */
  lemma FromLeafWiden(f: (int, int) -> real, inner: (int, int, int, int), outer: (int, int, int, int),
                      i: int, j: int, v: real)
    requires WithinBox(inner, outer) && FromLeaf(f, inner, i, j, v)
    ensures FromLeaf(f, outer, i, j, v)
  {
    var o: Point, s: Shape :| 1 <= s.0 && 1 <= s.1 && WithinBox(Indices(o, s), inner) &&
      InBox((i, j), Indices(o, s)) && v == InterpolateBlock(o, s, f)[i - o.0][j - o.1];
    assert WithinBox(Indices(o, s), outer);
  }

  /** Writes `block` into `grid` at `origin`; the rest of the grid keeps
      its values. */
  method WriteBlock(grid: array2<real>, origin: Point, shape: Shape, block: seq<seq<real>>)
    requires BlockInRaster(origin, shape, grid.Length0, grid.Length1)
    requires |block| == shape.0 && forall r :: 0 <= r < shape.0 ==> |block[r]| == shape.1
    modifies grid
    ensures forall i, j :: 0 <= i < grid.Length0 && 0 <= j < grid.Length1 ==>
      grid[i, j] == if InBox((i, j), Indices(origin, shape)) then block[i - origin.0][j - origin.1] else old(grid[i, j])
  {
    for r := 0 to shape.0
      invariant forall i, j :: 0 <= i < grid.Length0 && 0 <= j < grid.Length1 ==>
        grid[i, j] == if origin.0 <= i < origin.0 + r && InBox((i, j), Indices(origin, shape))
                      then block[i - origin.0][j - origin.1] else old(grid[i, j])
    {
      for c := 0 to shape.1
        invariant forall i, j :: 0 <= i < grid.Length0 && 0 <= j < grid.Length1 ==>
          grid[i, j] == if InBox((i, j), Indices(origin, shape)) &&
                           (i < origin.0 + r || (i == origin.0 + r && j < origin.1 + c))
                        then block[i - origin.0][j - origin.1] else old(grid[i, j])
      {
        grid[origin.0 + r, origin.1 + c] := block[r][c];
      }
    }
  }

  /** After the first k quadrant fills, pixel p holds a leaf value when it
      lies in one of the first k quadrants, and its original value v0
      otherwise. */
  ghost predicate FilledUpTo(f: (int, int) -> real, box: (int, int, int, int), boxes: seq<(int, int, int, int)>,
                             k: nat, p: Point, v: real, v0: real)
    requires k <= |boxes|
  {
    if InSomeBox(p, boxes[..k]) then FromLeaf(f, box, p.0, p.1, v) else v == v0
  }

  /** One quadrant fill extends the filled region by that quadrant: a pixel
      inside it now holds a leaf value of the quadrant, any other pixel
      keeps the value it had. */
  lemma FillStep(f: (int, int) -> real, box: (int, int, int, int), boxes: seq<(int, int, int, int)>,
                 k: nat, p: Point, v0: real, vb: real, va: real)
    requires k < |boxes|
    requires FilledUpTo(f, box, boxes, k, p, vb, v0)
    requires InBox(p, boxes[k]) ==> FromLeaf(f, box, p.0, p.1, va)
    requires !InBox(p, boxes[k]) ==> va == vb
    ensures FilledUpTo(f, box, boxes, k + 1, p, va, v0)
  {
    assert boxes[..k + 1] == boxes[..k] + [boxes[k]];
    if InBox(p, boxes[k]) {
      assert (boxes[..k] + [boxes[k]])[k] == boxes[k];
    } else if InSomeBox(p, boxes[..k + 1]) {
      var m :| 0 <= m < k + 1 && InBox(p, boxes[..k + 1][m]);
      assert m < k && boxes[..k][m] == boxes[m];
    }
  }

  /** `interpolate_grid`: fills the block at `origin` of the grid in place;
      at depth 0 with `interpolate_block`, otherwise by filling the four
      quadrants UL, UR, LL, LR in turn at one depth less, later quadrants
      overwriting the row and column they share with earlier ones. Every
      pixel of the block ends up holding the interpolated value of a leaf
      block around it; the rest of the grid is unchanged. */
  method InterpolateGrid(grid: array2<real>, f: (int, int) -> real, depth: nat, origin: Point, shape: Shape)
    requires 1 <= shape.0 && 1 <= shape.1
    requires BlockInRaster(origin, shape, grid.Length0, grid.Length1)
    modifies grid
    ensures forall i, j :: 0 <= i < grid.Length0 && 0 <= j < grid.Length1 && !InBox((i, j), Indices(origin, shape)) ==>
      grid[i, j] == old(grid[i, j])
    ensures forall i, j :: InBox((i, j), Indices(origin, shape)) ==> FromLeaf(f, Indices(origin, shape), i, j, grid[i, j])
    decreases depth, 1
  {
    var box := Indices(origin, shape);
    if depth == 0 {
      var block := InterpolateBlock(origin, shape, f);
      WriteBlock(grid, origin, shape, block);
      forall i, j | InBox((i, j), box)
        ensures FromLeaf(f, box, i, j, grid[i, j])
      {
        assert WithinBox(Indices(origin, shape), box);
      }
    } else {
      var boxes := QuadrantBoxes(origin, shape);
      for k := 0 to 4
        invariant forall i, j :: 0 <= i < grid.Length0 && 0 <= j < grid.Length1 ==>
          FilledUpTo(f, box, boxes, k, (i, j), grid[i, j], old(grid[i, j]))
      {
        label Pre:
        FillQuadrant(grid, f, depth, origin, shape, k);
        forall i, j | 0 <= i < grid.Length0 && 0 <= j < grid.Length1
          ensures FilledUpTo(f, box, boxes, k + 1, (i, j), grid[i, j], old(grid[i, j]))
        {
          FillStep(f, box, boxes, k, (i, j), old(grid[i, j]), old@Pre(grid[i, j]), grid[i, j]);
        }
      }
      assert boxes[..4] == boxes;
      forall i, j | 0 <= i < grid.Length0 && 0 <= j < grid.Length1
        ensures InSomeBox((i, j), boxes) <==> InBox((i, j), box)
      {
        InSomeQuadrant(origin, shape, (i, j));
      }
    }
  }

  /** Fills quadrant `FillOrder[k]` of the block at one depth less: its
      pixels end up holding leaf values, the rest of the grid is unchanged. */
  method FillQuadrant(grid: array2<real>, f: (int, int) -> real, depth: nat, origin: Point, shape: Shape, k: nat)
    requires 1 <= depth && k < 4
    requires 1 <= shape.0 && 1 <= shape.1
    requires BlockInRaster(origin, shape, grid.Length0, grid.Length1)
    modifies grid
    ensures forall i, j :: 0 <= i < grid.Length0 && 0 <= j < grid.Length1 ==>
      if InBox((i, j), QuadrantBoxes(origin, shape)[k]) then FromLeaf(f, Indices(origin, shape), i, j, grid[i, j])
      else grid[i, j] == old(grid[i, j])
    decreases depth, 0
  {
    var q := FillOrder[k];
    var qBox := QuadrantBox(origin, shape, q);
    assert QuadrantBoxes(origin, shape)[k] == qBox;
    QuadrantWithin(origin, shape, q);
    QuadrantIndices(origin, shape, q);
    InterpolateGrid(grid, f, depth - 1, QuadrantOrigin(origin, shape, q), QuadrantShape(origin, shape, q));
    forall i, j | InBox((i, j), qBox)
      ensures FromLeaf(f, Indices(origin, shape), i, j, grid[i, j])
    {
      FromLeafWiden(f, qBox, Indices(origin, shape), i, j, grid[i, j]);
    }
  }

  /** A quadrant lies within its block. */
  lemma QuadrantWithin(origin: Point, shape: Shape, q: Quadrant)
    requires 1 <= shape.0 && 1 <= shape.1
    ensures WithinBox(QuadrantBox(origin, shape, q), Indices(origin, shape))
  {
  }

  /** On a bilinear field, every leaf value is the field's own value: the
      recursive fill reproduces the field exactly over the block. */
  lemma FromLeafExact(A: real, B: real, C: real, D: real, outer: (int, int, int, int), i: int, j: int, v: real)
    requires FromLeaf(BilinearField(A, B, C, D), outer, i, j, v)
    ensures v == BilinearField(A, B, C, D)(i, j)
  {
    var o: Point, s: Shape :| 1 <= s.0 && 1 <= s.1 && WithinBox(Indices(o, s), outer) &&
      InBox((i, j), Indices(o, s)) && v == InterpolateBlock(o, s, BilinearField(A, B, C, D))[i - o.0][j - o.1];
    InterpolateBlockExactAt(o, s, A, B, C, D, i, j);
  }
}

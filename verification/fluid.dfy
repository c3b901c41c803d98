/** The staggered-grid velocity solver (src/utils/FluidSimulation.js).

    A `gridWidth` by `gridHeight` grid keeps
      - horizontal velocity on vertical cell faces: `(gridWidth + 1) * gridHeight` entries,
        face (i, j) at `j * (gridWidth + 1) + i`;
      - vertical velocity on horizontal cell faces: `gridWidth * (gridHeight + 1)` entries,
        face (i, j) at `j * gridWidth + i`;
      - divergence and pressure per cell: `gridWidth * gridHeight` entries.
    Arrays are modelled as sequences of reals; every operation returns the new
    state. Float32 rounding is not modelled. */
module Fluid {
  import opened GridIndex
  import opened RealArith
  import opened Performance

  const DefaultSize: nat := 64
  const CellSize: real := 1.0
  const Viscosity: real := 0.1
  const Dt: real := 0.016
  /** Jacobi sweeps of the pressure solve. */
  const PressureIterations: nat := 10
  /** Jacobi sweeps of the viscous diffusion. */
  const DiffusionIterations: nat := 5
  /** Distance from a face centre to the valid interpolation range's upper end. */
  const EdgeMargin: real := 1.001

  datatype Vec2 = Vec2(x: real, y: real)

  datatype Sim = Sim(gridWidth: nat, gridHeight: nat,
                     velocityX: seq<real>, velocityY: seq<real>,
                     divergence: seq<real>, pressure: seq<real>)
  {
    /** Every array has the length its constructor gives it. */
    predicate Valid() {
      && |velocityX| == (gridWidth + 1) * gridHeight
      && |velocityY| == gridWidth * (gridHeight + 1)
      && |divergence| == gridWidth * gridHeight
      && |pressure| == gridWidth * gridHeight
    }

    /** Horizontal velocity on face (i, j), 0 <= i <= gridWidth. */
    function U(i: nat, j: nat): real
      requires Valid() && i <= gridWidth && j < gridHeight
    {
      InBounds(gridWidth + 1, gridHeight, i, j);
      velocityX[Flat(gridWidth + 1, i, j)]
    }

    /** Vertical velocity on face (i, j), 0 <= j <= gridHeight. */
    function V(i: nat, j: nat): real
      requires Valid() && i < gridWidth && j <= gridHeight
    {
      InBounds(gridWidth, gridHeight + 1, i, j);
      velocityY[Flat(gridWidth, i, j)]
    }

    /** Pressure of cell (i, j). */
    function P(i: nat, j: nat): real
      requires Valid() && i < gridWidth && j < gridHeight
    {
      InBounds(gridWidth, gridHeight, i, j);
      pressure[Flat(gridWidth, i, j)]
    }

    /** Wall faces: left and right columns of U, bottom and top rows of V. */
    predicate WallsZero()
      requires Valid()
    {
      && (forall j | 0 <= j < gridHeight :: U(0, j) == 0.0 && U(gridWidth, j) == 0.0)
      && (forall i | 0 <= i < gridWidth :: V(i, 0) == 0.0 && V(i, gridHeight) == 0.0)
    }
  }

  predicate AllZero(s: seq<real>) {
    forall k | 0 <= k < |s| :: s[k] == 0.0
  }

  function Zeros(n: nat): (r: seq<real>)
    ensures |r| == n && AllZero(r)
  {
    seq(n, _ => 0.0)
  }

  /** The constructor: four zero-filled arrays sized for the grid. */
  function Create(width: nat, height: nat): (s: Sim)
    ensures s.Valid() && s.gridWidth == width && s.gridHeight == height
    ensures |s.velocityX| == (width + 1) * height && |s.velocityY| == width * (height + 1)
    ensures |s.divergence| == width * height && |s.pressure| == width * height
    ensures AllZero(s.velocityX) && AllZero(s.velocityY)
    ensures AllZero(s.divergence) && AllZero(s.pressure)
  {
    Sim(width, height, Zeros((width + 1) * height), Zeros(width * (height + 1)),
        Zeros(width * height), Zeros(width * height))
  }

  /** clear(): zeroes all four arrays, keeping their sizes. */
  function Clear(s: Sim): (r: Sim)
    requires s.Valid()
    ensures r.Valid() && r.gridWidth == s.gridWidth && r.gridHeight == s.gridHeight
    ensures |r.velocityX| == |s.velocityX| && |r.velocityY| == |s.velocityY|
    ensures AllZero(r.velocityX) && AllZero(r.velocityY)
    ensures AllZero(r.divergence) && AllZero(r.pressure)
  {
    Sim(s.gridWidth, s.gridHeight, Zeros(|s.velocityX|), Zeros(|s.velocityY|),
        Zeros(|s.divergence|), Zeros(|s.pressure|))
  }

  // ---------------------------------------------------------------------------
  // World <-> grid coordinates: the world square [-50, 50]^2 maps onto [0, w] x [0, h].

  function WorldToGrid(w: nat, h: nat, x: real, y: real): Vec2 {
    Vec2((x + 50.0) / 100.0 * w as real, (y + 50.0) / 100.0 * h as real)
  }

  function GridToWorld(w: nat, h: nat, x: real, y: real): Vec2
    requires w > 0 && h > 0
  {
    Vec2((x / w as real) * 100.0 - 50.0, (y / h as real) * 100.0 - 50.0)
  }

  /** The two affine maps are mutually inverse. */
  lemma WorldGridRoundTrip(w: nat, h: nat, x: real, y: real)
    requires w > 0 && h > 0
    ensures GridToWorld(w, h, WorldToGrid(w, h, x, y).x, WorldToGrid(w, h, x, y).y) == Vec2(x, y)
    ensures WorldToGrid(w, h, GridToWorld(w, h, x, y).x, GridToWorld(w, h, x, y).y) == Vec2(x, y)
  {
    var W, H := w as real, h as real;
    MulDivCancel((x + 50.0) / 100.0, W);
    MulDivCancel((y + 50.0) / 100.0, H);
    assert ((x / W) * 100.0 - 50.0 + 50.0) / 100.0 * W == x;
    assert ((y / H) * 100.0 - 50.0 + 50.0) / 100.0 * H == y;
  }

  lemma MulDivCancel(a: real, b: real)
    requires b != 0.0
    ensures a * b / b == a
  {
    var t := a * b;
    assert t / b * b == t;
  }

  // ---------------------------------------------------------------------------
  // Bilinear sampling

  /** Math.max(0, Math.min(size - 1.001, v)) */
  function ClampCoord(v: real, size: nat): (c: real)
    requires size >= 2
    ensures 0.0 <= c <= size as real - EdgeMargin
    ensures 0.0 <= v <= size as real - EdgeMargin ==> c == v
  {
    Clamp(v, 0.0, size as real - EdgeMargin)
  }

  /** The lower-left corner and fractional offsets of a clamped sample point. */
  datatype Stencil = Stencil(x0: nat, y0: nat, sx: real, sy: real)

  function Locate(x: real, y: real, width: nat, height: nat): (st: Stencil)
    requires width >= 2 && height >= 2
    ensures st.x0 + 1 < width && st.y0 + 1 < height
    ensures 0.0 <= st.sx < 1.0 && 0.0 <= st.sy < 1.0
    ensures st.x0 as real + st.sx == ClampCoord(x, width)
    ensures st.y0 as real + st.sy == ClampCoord(y, height)
  {
    var cx := ClampCoord(x, width);
    var cy := ClampCoord(y, height);
    var x0 := cx.Floor;
    var y0 := cy.Floor;
    Stencil(x0 as nat, y0 as nat, cx - x0 as real, cy - y0 as real)
  }

  function Bilinear(f00: real, f10: real, f01: real, f11: real, sx: real, sy: real): real {
    (1.0 - sx) * (1.0 - sy) * f00 + sx * (1.0 - sy) * f10 + (1.0 - sx) * sy * f01 + sx * sy * f11
  }

  function Min4(a: real, b: real, c: real, d: real): real { Min(Min(a, b), Min(c, d)) }
  function Max4(a: real, b: real, c: real, d: real): real { Max(Max(a, b), Max(c, d)) }

  /** The four-weight formula of interpolate() is a blend along x followed by a blend along y. */
  lemma BilinearAsLerps(f00: real, f10: real, f01: real, f11: real, sx: real, sy: real)
    ensures Bilinear(f00, f10, f01, f11, sx, sy) == Lerp(Lerp(f00, f10, sx), Lerp(f01, f11, sx), sy)
  {
  }

  /** With offsets in [0, 1] the bilinear blend lies between the smallest and largest corner. */
  lemma {:induction false} BilinearBetween(f00: real, f10: real, f01: real, f11: real, sx: real, sy: real)
    requires 0.0 <= sx <= 1.0 && 0.0 <= sy <= 1.0
    ensures Min4(f00, f10, f01, f11) <= Bilinear(f00, f10, f01, f11, sx, sy) <= Max4(f00, f10, f01, f11)
  {
    BilinearAsLerps(f00, f10, f01, f11, sx, sy);
    LerpBetween(f00, f10, sx);
    LerpBetween(f01, f11, sx);
    LerpBetween(Lerp(f00, f10, sx), Lerp(f01, f11, sx), sy);
  }

  /** The four grid values around a stencil, in the order 00, 10, 01, 11. */
  datatype Corners = Corners(f00: real, f10: real, f01: real, f11: real)

  /** The entries interpolate() reads: idx00, idx10, idx01 and idx11 of the source. */
  function Gather(field: seq<real>, width: nat, height: nat, st: Stencil): (c: Corners)
    requires |field| == width * height && st.x0 + 1 < width && st.y0 + 1 < height
    ensures Flat(width, st.x0 + 1, st.y0 + 1) < |field|
    ensures c.f00 == field[Flat(width, st.x0, st.y0)]
    ensures c.f10 == field[Flat(width, st.x0 + 1, st.y0)]
    ensures c.f01 == field[Flat(width, st.x0, st.y0 + 1)]
    ensures c.f11 == field[Flat(width, st.x0 + 1, st.y0 + 1)]
  {
    InBounds(width, height, st.x0 + 1, st.y0 + 1);
    InBounds(width, height, st.x0, st.y0 + 1);
    Corners(field[Flat(width, st.x0, st.y0)], field[Flat(width, st.x0 + 1, st.y0)],
            field[Flat(width, st.x0, st.y0 + 1)], field[Flat(width, st.x0 + 1, st.y0 + 1)])
  }

  /** interpolate(x, y, field, width, height): a bilinear blend of the four
      entries around the clamped point. */
  function Interpolate(x: real, y: real, field: seq<real>, width: nat, height: nat): real
    requires width >= 2 && height >= 2 && |field| == width * height
  {
    var st := Locate(x, y, width, height);
    var c := Gather(field, width, height, st);
    Bilinear(c.f00, c.f10, c.f01, c.f11, st.sx, st.sy)
  }

  /** The sample lies between the smallest and largest of the four entries it reads. */
  lemma InterpolateBetween(x: real, y: real, field: seq<real>, width: nat, height: nat)
    requires width >= 2 && height >= 2 && |field| == width * height
    ensures var c := Gather(field, width, height, Locate(x, y, width, height));
            Min4(c.f00, c.f10, c.f01, c.f11) <= Interpolate(x, y, field, width, height) <= Max4(c.f00, c.f10, c.f01, c.f11)
  {
    var st := Locate(x, y, width, height);
    var c := Gather(field, width, height, st);
    BilinearBetween(c.f00, c.f10, c.f01, c.f11, st.sx, st.sy);
  }

  /** At an integer node that is not on the last row or column the blend returns the stored value. */
  lemma InterpolateAtNode(field: seq<real>, width: nat, height: nat, k: nat, l: nat)
    requires width >= 2 && height >= 2 && |field| == width * height
    requires k + 2 <= width && l + 2 <= height
    ensures Flat(width, k, l) < |field|
    ensures Interpolate(k as real, l as real, field, width, height) == field[Flat(width, k, l)]
  {
    InBounds(width, height, k, l);
    var st := Locate(k as real, l as real, width, height);
    assert st.x0 == k && st.sx == 0.0;
    assert st.y0 == l && st.sy == 0.0;
  }

  /** sampleVelocity(x, y): U is read half a cell to the left, V half a cell below. */
  function SampleVelocity(s: Sim, x: real, y: real): (r: Vec2)
    requires s.Valid() && s.gridWidth >= 2 && s.gridHeight >= 2
  {
    Vec2(Interpolate(x - 0.5, y, s.velocityX, s.gridWidth + 1, s.gridHeight),
         Interpolate(x, y - 0.5, s.velocityY, s.gridWidth, s.gridHeight + 1))
  }

  /** Sampling exactly at a face centre returns the stored face velocity. */
  lemma SampleAtFaces(s: Sim, i: nat, j: nat)
    requires s.Valid() && s.gridWidth >= 2 && s.gridHeight >= 2
    ensures i + 1 <= s.gridWidth && j + 2 <= s.gridHeight ==>
              SampleVelocity(s, i as real + 0.5, j as real).x == s.U(i, j)
    ensures i + 2 <= s.gridWidth && j + 1 <= s.gridHeight ==>
              SampleVelocity(s, i as real, j as real + 0.5).y == s.V(i, j)
  {
    if i + 1 <= s.gridWidth && j + 2 <= s.gridHeight {
      assert (i as real + 0.5) - 0.5 == i as real;
      InterpolateAtNode(s.velocityX, s.gridWidth + 1, s.gridHeight, i, j);
    }
    if i + 2 <= s.gridWidth && j + 1 <= s.gridHeight {
      assert (j as real + 0.5) - 0.5 == j as real;
      InterpolateAtNode(s.velocityY, s.gridWidth, s.gridHeight + 1, i, j);
    }
  }
}

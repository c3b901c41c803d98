/** The passes of one solver step (src/utils/FluidSimulation.js, addForce through step). */
module FluidStep {
  import opened GridIndex
  import opened Fluid
  import opened RealArith
  import opened Performance

  // ---------------------------------------------------------------------------
  // addForce

  /** Radius addForce uses when its caller gives none. */
  const DefaultForceRadius: real := 5.0

  /** Distance from grid node (i, j) to the grid position `g`. */
  function NodeDistance(g: Vec2, i: nat, j: nat, sqrt: real -> real): real {
    var dx := i as real - g.x;
    var dy := j as real - g.y;
    sqrt(dx * dx + dy * dy)
  }

  lemma NodeDistanceNonNeg(g: Vec2, i: nat, j: nat, sqrt: real -> real)
    requires SqrtNonNegative(sqrt)
    ensures NodeDistance(g, i, j, sqrt) >= 0.0
  {
    var dx := i as real - g.x;
    var dy := j as real - g.y;
    SquareNonNeg(dx);
    SquareNonNeg(dy);
  }

  /** Smooth falloff (1 - d / r)^2 inside the radius, nothing outside it. */
  function Falloff(d: real, radius: real): real
    requires d >= 0.0
  {
    if d < radius then (1.0 - d / radius) * (1.0 - d / radius) else 0.0
  }

  /** The falloff is a weight in [0, 1]; it is positive exactly inside the radius
      and reaches 1 at the centre. */
  lemma FalloffRange(d: real, radius: real)
    requires d >= 0.0
    ensures 0.0 <= Falloff(d, radius) <= 1.0
    ensures Falloff(d, radius) > 0.0 <==> d < radius
    ensures d == 0.0 && radius > 0.0 ==> Falloff(d, radius) == 1.0
  {
    if d < radius {
      QuotientBelowOne(d, radius);
      SquareInUnit(1.0 - d / radius);
    }
  }

  /** Pushing a field of rows of `stride` faces: face k gets force * falloff when its
      node lies in the first `cols` columns and has been visited by the row-major
      loop that stopped at node (i, j). */
  predicate Visited(stride: nat, cols: nat, k: nat, i: nat, j: nat)
    requires stride > 0
  {
    Col(stride, k) < cols && (Row(stride, k) < j || (Row(stride, k) == j && Col(stride, k) < i))
  }

  function PushedUpTo(field: seq<real>, stride: nat, cols: nat, g: Vec2, force: real, radius: real,
                      sqrt: real -> real, i: nat, j: nat): (r: seq<real>)
    requires stride > 0 && SqrtNonNegative(sqrt)
    ensures |r| == |field|
  {
    seq(|field|, k requires 0 <= k < |field| =>
      if Visited(stride, cols, k, i, j) then field[k] + force * Falloff(Distance(g, stride, k, sqrt), radius)
      else field[k])
  }

  function Distance(g: Vec2, stride: nat, k: nat, sqrt: real -> real): (d: real)
    requires stride > 0 && SqrtNonNegative(sqrt)
    ensures d >= 0.0
  {
    NodeDistanceNonNeg(g, Col(stride, k), Row(stride, k), sqrt);
    NodeDistance(g, Col(stride, k), Row(stride, k), sqrt)
  }

  /** The field after the whole double loop of addForce over a `cols` by `rows` grid. */
  function Pushed(field: seq<real>, stride: nat, cols: nat, rows: nat, g: Vec2, force: real,
                  radius: real, sqrt: real -> real): seq<real>
    requires stride > 0 && SqrtNonNegative(sqrt)
  {
    PushedUpTo(field, stride, cols, g, force, radius, sqrt, 0, rows)
  }

  /** One iteration of the inner loop adds to exactly the face of node (i, j). */
  lemma {:induction false} PushStep(field: seq<real>, stride: nat, cols: nat, g: Vec2, force: real,
                                    radius: real, sqrt: real -> real, i: nat, j: nat)
    requires stride > 0 && SqrtNonNegative(sqrt) && i < cols && cols <= stride
    requires Flat(stride, i, j) < |field|
    ensures var before := PushedUpTo(field, stride, cols, g, force, radius, sqrt, i, j);
            PushedUpTo(field, stride, cols, g, force, radius, sqrt, i + 1, j)
              == before[Flat(stride, i, j) := before[Flat(stride, i, j)]
                        + force * Falloff(NodeDistance(g, i, j, sqrt), radius)]
  {
    var before := PushedUpTo(field, stride, cols, g, force, radius, sqrt, i, j);
    var after := PushedUpTo(field, stride, cols, g, force, radius, sqrt, i + 1, j);
    var idx := Flat(stride, i, j);
    Decode(stride, i, j);
    forall k | 0 <= k < |field|
      ensures after[k] == before[idx := before[idx] + force * Falloff(NodeDistance(g, i, j, sqrt), radius)][k]
    {
      if k != idx {
        if Row(stride, k) == j && Col(stride, k) == i {
          Encode(stride, Row(stride, k) + 1, k);
          assert false;
        }
      }
    }
  }

  /** Finishing a row of the outer loop is the same as starting the next one. */
  lemma {:induction false} PushNextRow(field: seq<real>, stride: nat, cols: nat, g: Vec2, force: real,
                                       radius: real, sqrt: real -> real, j: nat)
    requires stride > 0 && SqrtNonNegative(sqrt)
    ensures PushedUpTo(field, stride, cols, g, force, radius, sqrt, cols, j)
         == PushedUpTo(field, stride, cols, g, force, radius, sqrt, 0, j + 1)
  {
  }

  /** The write the inner loop of addForce makes to one array at node (i, j):
      the face of that node gains force * falloff, and nothing else changes.
      The source only writes when dist < radius; outside the radius the falloff
      is 0 and the write adds nothing. */
  method PushFace(field: seq<real>, cur: seq<real>, stride: nat, cols: nat, g: Vec2, force: real,
                  radius: real, sqrt: real -> real, i: nat, j: nat) returns (next: seq<real>)
    requires stride > 0 && SqrtNonNegative(sqrt) && i < cols <= stride
    requires Flat(stride, i, j) < |field|
    requires cur == PushedUpTo(field, stride, cols, g, force, radius, sqrt, i, j)
    ensures next == PushedUpTo(field, stride, cols, g, force, radius, sqrt, i + 1, j)
  {
    NodeDistanceNonNeg(g, i, j, sqrt);
    PushStep(field, stride, cols, g, force, radius, sqrt, i, j);
    next := cur[Flat(stride, i, j) := cur[Flat(stride, i, j)] + force * Falloff(NodeDistance(g, i, j, sqrt), radius)];
  }

  /** The inner loop of addForce over row j. */
  method PushRow(s: Sim, u0: seq<real>, v0: seq<real>, g: Vec2, forceX: real, forceY: real,
                 radius: real, sqrt: real -> real, j: nat) returns (u: seq<real>, v: seq<real>)
    requires s.Valid() && SqrtNonNegative(sqrt) && s.gridWidth > 0 && j < s.gridHeight
    requires u0 == PushedUpTo(s.velocityX, s.gridWidth + 1, s.gridWidth, g, forceX, radius, sqrt, 0, j)
    requires v0 == PushedUpTo(s.velocityY, s.gridWidth, s.gridWidth, g, forceY, radius, sqrt, 0, j)
    ensures u == PushedUpTo(s.velocityX, s.gridWidth + 1, s.gridWidth, g, forceX, radius, sqrt, s.gridWidth, j)
    ensures v == PushedUpTo(s.velocityY, s.gridWidth, s.gridWidth, g, forceY, radius, sqrt, s.gridWidth, j)
  {
    var w, h := s.gridWidth, s.gridHeight;
    u, v := u0, v0;
    var i := 0;
    while i < w
      invariant 0 <= i <= w
      invariant u == PushedUpTo(s.velocityX, w + 1, w, g, forceX, radius, sqrt, i, j)
      invariant v == PushedUpTo(s.velocityY, w, w, g, forceY, radius, sqrt, i, j)
    {
      InBounds(w + 1, h, i, j);
      InBounds(w, h + 1, i, j);
      u := PushFace(s.velocityX, u, w + 1, w, g, forceX, radius, sqrt, i, j);
      v := PushFace(s.velocityY, v, w, w, g, forceY, radius, sqrt, i, j);
      i := i + 1;
    }
  }

  /** addForce(x, y, forceX, forceY, radius) on the U and V arrays. */
  method AddForce(s: Sim, x: real, y: real, forceX: real, forceY: real, radius: real, sqrt: real -> real)
    returns (r: Sim)
    requires s.Valid() && SqrtNonNegative(sqrt)
    ensures r.Valid() && r.gridWidth == s.gridWidth && r.gridHeight == s.gridHeight
    ensures r.divergence == s.divergence && r.pressure == s.pressure
    ensures var g := WorldToGrid(s.gridWidth, s.gridHeight, x, y);
            r.velocityX == Pushed(s.velocityX, s.gridWidth + 1, s.gridWidth, s.gridHeight, g, forceX, radius, sqrt)
    ensures s.gridWidth > 0 ==>
            var g := WorldToGrid(s.gridWidth, s.gridHeight, x, y);
            r.velocityY == Pushed(s.velocityY, s.gridWidth, s.gridWidth, s.gridHeight, g, forceY, radius, sqrt)
    ensures s.gridWidth == 0 ==> r.velocityY == s.velocityY
  {
    var w, h := s.gridWidth, s.gridHeight;
    var g := WorldToGrid(w, h, x, y);
    var u, v := s.velocityX, s.velocityY;
    var j := 0;
    while j < h
      invariant 0 <= j <= h
      invariant u == PushedUpTo(s.velocityX, w + 1, w, g, forceX, radius, sqrt, 0, j)
      invariant w > 0 ==> v == PushedUpTo(s.velocityY, w, w, g, forceY, radius, sqrt, 0, j)
      invariant w == 0 ==> v == s.velocityY
    {
      if w > 0 {
        u, v := PushRow(s, u, v, g, forceX, forceY, radius, sqrt, j);
        PushNextRow(s.velocityY, w, w, g, forceY, radius, sqrt, j);
      }
      PushNextRow(s.velocityX, w + 1, w, g, forceX, radius, sqrt, j);
      j := j + 1;
    }
    r := s.(velocityX := u, velocityY := v);
  }

  /** What addForce does to one face: nothing outside the radius, nothing outside
      the pushed columns and rows, and otherwise a push in the direction of the
      force that is never larger than the force itself. */
  lemma PushedEntry(field: seq<real>, stride: nat, cols: nat, rows: nat, g: Vec2, force: real,
                    radius: real, sqrt: real -> real, k: nat)
    requires stride > 0 && SqrtNonNegative(sqrt) && k < |field|
    ensures var r := Pushed(field, stride, cols, rows, g, force, radius, sqrt);
            && |r| == |field|
            && (Distance(g, stride, k, sqrt) >= radius ==> r[k] == field[k])
            && (Col(stride, k) >= cols || Row(stride, k) >= rows ==> r[k] == field[k])
            && (force >= 0.0 ==> field[k] <= r[k] <= field[k] + force)
            && (force <= 0.0 ==> field[k] + force <= r[k] <= field[k])
  {
    var d := Distance(g, stride, k, sqrt);
    FalloffRange(d, radius);
    var wgt := Falloff(d, radius);
    var r := Pushed(field, stride, cols, rows, g, force, radius, sqrt);
    assert r[k] == if Visited(stride, cols, k, 0, rows) then field[k] + force * wgt else field[k];
    if d >= radius {
      assert force * wgt == 0.0;
    }
    if force >= 0.0 {
      MulNonNeg(force, wgt);
      MulAtMost(force, wgt);
    } else {
      MulNonNeg(-force, wgt);
      MulAtMost(-force, wgt);
      NegMul(force, wgt);
      assert field[k] + force <= field[k] + force * wgt <= field[k];
    }
  }

  /** A non-positive radius leaves both arrays as they were. */
  lemma PushedNoRadius(field: seq<real>, stride: nat, cols: nat, rows: nat, g: Vec2, force: real,
                       radius: real, sqrt: real -> real)
    requires stride > 0 && SqrtNonNegative(sqrt) && radius <= 0.0
    ensures Pushed(field, stride, cols, rows, g, force, radius, sqrt) == field
  {
    var r := Pushed(field, stride, cols, rows, g, force, radius, sqrt);
    forall k | 0 <= k < |field|
      ensures r[k] == field[k]
    {
      PushedEntry(field, stride, cols, rows, g, force, radius, sqrt, k);
    }
  }

  // ---------------------------------------------------------------------------
  // applyBoundaries

  /** U faces on the left (column 0) and right (column gridWidth) walls. */
  predicate IsUWall(w: nat, k: nat) {
    Col(w + 1, k) == 0 || Col(w + 1, k) == w
  }

  /** V faces on the bottom (row 0) and top (row gridHeight) walls. */
  predicate IsVWall(w: nat, h: nat, k: nat) {
    k < w || k >= h * w
  }

  /** The wall faces of row j of U are exactly the two the first loop writes. */
  lemma {:induction false} UWallsOfRow(w: nat, j: nat, k: nat)
    ensures (IsUWall(w, k) && Row(w + 1, k) == j) <==> (k == Flat(w + 1, 0, j) || k == Flat(w + 1, w, j))
  {
    Decode(w + 1, 0, j);
    Decode(w + 1, w, j);
    if IsUWall(w, k) && Row(w + 1, k) == j {
      var q := k / (w + 1);
      assert k == q * (w + 1) + k % (w + 1);
    }
  }

  /** The first loop of applyBoundaries: zero both wall faces of every row of U. */
  method ZeroUWalls(u0: seq<real>, w: nat, h: nat) returns (u: seq<real>)
    requires |u0| == (w + 1) * h
    ensures |u| == |u0|
    ensures forall k | 0 <= k < |u| :: u[k] == if IsUWall(w, k) then 0.0 else u0[k]
  {
    u := u0;
    var j := 0;
    while j < h
      invariant 0 <= j <= h && |u| == |u0|
      invariant forall k | 0 <= k < |u| :: u[k] == if IsUWall(w, k) && Row(w + 1, k) < j then 0.0 else u0[k]
    {
      InBounds(w + 1, h, 0, j);
      InBounds(w + 1, h, w, j);
      var left := j * (w + 1);
      var right := j * (w + 1) + w;
      u := u[left := 0.0][right := 0.0];
      forall k | 0 <= k < |u|
        ensures u[k] == if IsUWall(w, k) && Row(w + 1, k) < j + 1 then 0.0 else u0[k]
      {
        UWallsOfRow(w, j, k);
      }
      j := j + 1;
    }
    forall k | 0 <= k < |u|
      ensures u[k] == if IsUWall(w, k) then 0.0 else u0[k]
    {
      Encode(w + 1, h, k);
    }
  }

  /** The second loop of applyBoundaries: zero the bottom and top rows of V. */
  method ZeroVWalls(v0: seq<real>, w: nat, h: nat) returns (v: seq<real>)
    requires |v0| == w * (h + 1)
    ensures |v| == |v0|
    ensures forall k | 0 <= k < |v| :: v[k] == if IsVWall(w, h, k) then 0.0 else v0[k]
  {
    assert |v0| == h * w + w;
    v := v0;
    var i := 0;
    while i < w
      invariant 0 <= i <= w && |v| == |v0|
      invariant forall k | 0 <= k < |v| :: v[k] == if k < i || h * w <= k < h * w + i then 0.0 else v0[k]
    {
      v := v[i := 0.0];
      v := v[h * w + i := 0.0];
      i := i + 1;
    }
  }

  /** applyBoundaries(): the wall faces become zero, every other face keeps its value. */
  method ApplyBoundaries(s: Sim) returns (r: Sim)
    requires s.Valid()
    ensures r.Valid() && r.gridWidth == s.gridWidth && r.gridHeight == s.gridHeight
    ensures r.divergence == s.divergence && r.pressure == s.pressure
    ensures r.WallsZero()
    ensures |r.velocityX| == |s.velocityX| && |r.velocityY| == |s.velocityY|
    ensures forall k | 0 <= k < |r.velocityX| ::
              r.velocityX[k] == if IsUWall(s.gridWidth, k) then 0.0 else s.velocityX[k]
    ensures forall k | 0 <= k < |r.velocityY| ::
              r.velocityY[k] == if IsVWall(s.gridWidth, s.gridHeight, k) then 0.0 else s.velocityY[k]
  {
    var u := ZeroUWalls(s.velocityX, s.gridWidth, s.gridHeight);
    var v := ZeroVWalls(s.velocityY, s.gridWidth, s.gridHeight);
    r := s.(velocityX := u, velocityY := v);
    assert r.velocityX == u && r.velocityY == v;
    assert r.Valid();
    WallsOfZeroed(s, r);
  }

  /** Zeroing the wall faces in flat form is WallsZero in grid form. */
  lemma WallsOfZeroed(s: Sim, r: Sim)
    requires s.Valid() && r.Valid() && r.gridWidth == s.gridWidth && r.gridHeight == s.gridHeight
    requires forall k | 0 <= k < |r.velocityX| :: IsUWall(s.gridWidth, k) ==> r.velocityX[k] == 0.0
    requires forall k | 0 <= k < |r.velocityY| :: IsVWall(s.gridWidth, s.gridHeight, k) ==> r.velocityY[k] == 0.0
    ensures r.WallsZero()
  {
    var w, h := s.gridWidth, s.gridHeight;
    forall j | 0 <= j < h
      ensures r.U(0, j) == 0.0 && r.U(w, j) == 0.0
    {
      InBounds(w + 1, h, 0, j);
      InBounds(w + 1, h, w, j);
      Decode(w + 1, 0, j);
      Decode(w + 1, w, j);
    }
    forall i | 0 <= i < w
      ensures r.V(i, 0) == 0.0 && r.V(i, h) == 0.0
    {
      InBounds(w, h + 1, i, h);
      assert Flat(w, i, h) >= h * w;
    }
  }

  // ---------------------------------------------------------------------------
  // calculateDivergence

  /** 1 / cellSize. */
  const Scale: real := 1.0 / CellSize

  /** Net outflow of cell (i, j): right minus left face plus top minus bottom face. */
  function CellDivergence(s: Sim, i: nat, j: nat): real
    requires s.Valid() && i < s.gridWidth && j < s.gridHeight
  {
    Scale * ((s.U(i + 1, j) - s.U(i, j)) + (s.V(i, j + 1) - s.V(i, j)))
  }

  function DivergenceAt(s: Sim, k: nat): real
    requires s.Valid() && k < s.gridWidth * s.gridHeight
  {
    Encode(s.gridWidth, s.gridHeight, k);
    CellDivergence(s, Col(s.gridWidth, k), Row(s.gridWidth, k))
  }

  /** calculateDivergence(): the divergence array, one entry per cell. */
  function Divergence(s: Sim): (d: seq<real>)
    requires s.Valid()
    ensures |d| == s.gridWidth * s.gridHeight
  {
    seq(s.gridWidth * s.gridHeight, k requires 0 <= k < s.gridWidth * s.gridHeight => DivergenceAt(s, k))
  }

  /** Entry Flat(w, i, j) of the divergence array belongs to cell (i, j). */
  lemma DivergenceOfCell(s: Sim, i: nat, j: nat)
    requires s.Valid() && i < s.gridWidth && j < s.gridHeight
    ensures Flat(s.gridWidth, i, j) < |Divergence(s)|
    ensures Divergence(s)[Flat(s.gridWidth, i, j)] == CellDivergence(s, i, j)
  {
    InBounds(s.gridWidth, s.gridHeight, i, j);
    Decode(s.gridWidth, i, j);
  }

  /** Sum of the divergences of cells 0 .. n - 1 of row j. */
  function RowDivergence(s: Sim, j: nat, n: nat): real
    requires s.Valid() && j < s.gridHeight && n <= s.gridWidth
  {
    if n == 0 then 0.0 else RowDivergence(s, j, n - 1) + CellDivergence(s, n - 1, j)
  }

  /** Sum of the V faces 0 .. n - 1 of face row j. */
  function VRowSum(s: Sim, j: nat, n: nat): real
    requires s.Valid() && j <= s.gridHeight && n <= s.gridWidth
  {
    if n == 0 then 0.0 else VRowSum(s, j, n - 1) + s.V(n - 1, j)
  }

  /** Sum of the divergences of all cells of rows 0 .. m - 1. */
  function GridDivergence(s: Sim, m: nat): real
    requires s.Valid() && m <= s.gridHeight
  {
    if m == 0 then 0.0 else GridDivergence(s, m - 1) + RowDivergence(s, m - 1, s.gridWidth)
  }

  /** Net flow through the right wall minus the left wall over rows 0 .. m - 1. */
  function SideFlux(s: Sim, m: nat): real
    requires s.Valid() && m <= s.gridHeight
  {
    if m == 0 then 0.0 else SideFlux(s, m - 1) + (s.U(s.gridWidth, m - 1) - s.U(0, m - 1))
  }

  /** Along a row the U differences telescope. */
  lemma {:induction false} RowTelescopes(s: Sim, j: nat, n: nat)
    requires s.Valid() && j < s.gridHeight && n <= s.gridWidth
    ensures RowDivergence(s, j, n) == (s.U(n, j) - s.U(0, j)) + (VRowSum(s, j + 1, n) - VRowSum(s, j, n))
  {
    if n > 0 {
      RowTelescopes(s, j, n - 1);
    }
  }

  /** Discrete divergence theorem: the divergences of all cells add up to the
      net outflow through the four walls. */
  lemma {:induction false} GridTelescopes(s: Sim, m: nat)
    requires s.Valid() && m <= s.gridHeight
    ensures GridDivergence(s, m) == SideFlux(s, m) + (VRowSum(s, m, s.gridWidth) - VRowSum(s, 0, s.gridWidth))
  {
    if m > 0 {
      GridTelescopes(s, m - 1);
      RowTelescopes(s, m - 1, s.gridWidth);
    }
  }

  lemma {:induction false} SideFluxOfClosedWalls(s: Sim, m: nat)
    requires s.Valid() && s.WallsZero() && m <= s.gridHeight
    ensures SideFlux(s, m) == 0.0
  {
    if m > 0 {
      SideFluxOfClosedWalls(s, m - 1);
    }
  }

  lemma {:induction false} WallRowSumZero(s: Sim, j: nat, n: nat)
    requires s.Valid() && s.WallsZero() && (j == 0 || j == s.gridHeight) && n <= s.gridWidth
    ensures VRowSum(s, j, n) == 0.0
  {
    if n > 0 {
      WallRowSumZero(s, j, n - 1);
    }
  }

  /** With every wall face at rest the total divergence is zero. */
  lemma ClosedBoxHasNoNetDivergence(s: Sim)
    requires s.Valid() && s.WallsZero()
    ensures GridDivergence(s, s.gridHeight) == 0.0
  {
    GridTelescopes(s, s.gridHeight);
    SideFluxOfClosedWalls(s, s.gridHeight);
    WallRowSumZero(s, 0, s.gridWidth);
    WallRowSumZero(s, s.gridHeight, s.gridWidth);
  }

  // ---------------------------------------------------------------------------
  // Five-point stencils on the interior of an S-wide, R-tall array

  /** Entry k of an S by R array is off every edge, so it has four neighbours. */
  predicate Interior(S: nat, R: nat, k: nat) {
    S > 0 && 1 <= Col(S, k) < S - 1 && 1 <= Row(S, k) < R - 1
  }

  lemma {:induction false} InteriorBounds(S: nat, R: nat, k: nat)
    requires Interior(S, R, k)
    ensures S <= k && k + S < S * R
  {
    var q, c := Row(S, k), Col(S, k);
    assert k == q * S + c;
    GridIndex.MulMono(q, 1, S);
    GridIndex.MulMono(R, q + 2, S);
    assert (q + 2) * S == q * S + S + S;
  }

  /** Left + right + bottom + top neighbour of an interior entry. */
  function NeighbourSum(f: seq<real>, S: nat, R: nat, k: nat): real
    requires |f| == S * R && k < |f| && Interior(S, R, k)
  {
    InteriorBounds(S, R, k);
    f[k - 1] + f[k + 1] + f[k - S] + f[k + S]
  }

  // ---------------------------------------------------------------------------
  // solvePressure

  /** One Jacobi sweep: every interior cell becomes the mean of its neighbours
      minus a quarter of its divergence, computed from the previous iterate. */
  function PressureSweep(p: seq<real>, div: seq<real>, w: nat, h: nat): (q: seq<real>)
    requires |p| == w * h && |div| == w * h
    ensures |q| == w * h
    ensures forall k | 0 <= k < |q| && !Interior(w, h, k) :: q[k] == p[k]
  {
    seq(|p|, k requires 0 <= k < |p| =>
      if Interior(w, h, k) then (NeighbourSum(p, w, h, k) - div[k]) * 0.25 else p[k])
  }

  /** solvePressure(): n sweeps starting from the zero-filled pressure array. */
  function SolvePressure(div: seq<real>, w: nat, h: nat, n: nat): (p: seq<real>)
    requires |div| == w * h
    ensures |p| == w * h
    ensures forall k | 0 <= k < |p| && !Interior(w, h, k) :: p[k] == 0.0
  {
    if n == 0 then Zeros(w * h) else PressureSweep(SolvePressure(div, w, h, n - 1), div, w, h)
  }

  /** A pressure array is left alone by a sweep exactly when it solves the
      discrete Poisson equation (neighbours minus four times the cell equals the
      divergence) in every interior cell. */
  lemma JacobiFixedPoint(p: seq<real>, div: seq<real>, w: nat, h: nat)
    requires |p| == w * h && |div| == w * h
    ensures PressureSweep(p, div, w, h) == p <==>
            forall k | 0 <= k < |p| && Interior(w, h, k) :: NeighbourSum(p, w, h, k) - 4.0 * p[k] == div[k]
  {
    var q := PressureSweep(p, div, w, h);
    if q == p {
      forall k | 0 <= k < |p| && Interior(w, h, k)
        ensures NeighbourSum(p, w, h, k) - 4.0 * p[k] == div[k]
      {
        assert q[k] == p[k];
      }
    }
  }

  // ---------------------------------------------------------------------------
  // subtractPressureGradient

  /** U faces between two cells (columns 1 .. gridWidth - 1) get the gradient. */
  function GradientU(s: Sim, k: nat): real
    requires s.Valid() && k < |s.velocityX| && 1 <= Col(s.gridWidth + 1, k) < s.gridWidth
  {
    Encode(s.gridWidth + 1, s.gridHeight, k);
    var i, j := Col(s.gridWidth + 1, k), Row(s.gridWidth + 1, k);
    s.velocityX[k] - Scale * (s.P(i, j) - s.P(i - 1, j))
  }

  /** V faces between two cells (rows 1 .. gridHeight - 1) get the gradient. */
  function GradientV(s: Sim, k: nat): real
    requires s.Valid() && k < |s.velocityY| && s.gridWidth > 0 && 1 <= Row(s.gridWidth, k) < s.gridHeight
  {
    var i, j := Col(s.gridWidth, k), Row(s.gridWidth, k);
    s.velocityY[k] - Scale * (s.P(i, j) - s.P(i, j - 1))
  }

  /** subtractPressureGradient(): faces between two cells lose the pressure
      difference across them; wall faces keep their values. */
  function SubtractGradient(s: Sim): (r: Sim)
    requires s.Valid()
    ensures r.Valid() && r.gridWidth == s.gridWidth && r.gridHeight == s.gridHeight
    ensures r.divergence == s.divergence && r.pressure == s.pressure
    ensures forall k | 0 <= k < |r.velocityX| && IsUWall(s.gridWidth, k) :: r.velocityX[k] == s.velocityX[k]
    ensures forall k | 0 <= k < |r.velocityY| && IsVWall(s.gridWidth, s.gridHeight, k) :: r.velocityY[k] == s.velocityY[k]
  {
    var w := s.gridWidth;
    var u := seq(|s.velocityX|, k requires 0 <= k < |s.velocityX| =>
      if 1 <= Col(w + 1, k) < w then GradientU(s, k) else s.velocityX[k]);
    var v := seq(|s.velocityY|, k requires 0 <= k < |s.velocityY| =>
      if w > 0 && 1 <= Row(w, k) < s.gridHeight then GradientV(s, k) else s.velocityY[k]);
    VWallRows(s);
    s.(velocityX := u, velocityY := v)
  }

  /** In grid form the V walls are face rows 0 and gridHeight. */
  lemma VWallRows(s: Sim)
    requires s.Valid()
    ensures forall k | 0 <= k < |s.velocityY| :: IsVWall(s.gridWidth, s.gridHeight, k) <==>
              (Row(s.gridWidth, k) == 0 || Row(s.gridWidth, k) >= s.gridHeight)
  {
    forall k | 0 <= k < |s.velocityY|
      ensures IsVWall(s.gridWidth, s.gridHeight, k) <==>
              (Row(s.gridWidth, k) == 0 || Row(s.gridWidth, k) >= s.gridHeight)
    {
      RowBelow(s.gridWidth, k, 1);
      RowBelow(s.gridWidth, k, s.gridHeight);
    }
  }

  /** Neighbour sum of an interior cell in grid form. */
  lemma NeighbourSumOfCell(s: Sim, i: nat, j: nat)
    requires s.Valid() && 1 <= i && i + 1 < s.gridWidth && 1 <= j && j + 1 < s.gridHeight
    ensures Flat(s.gridWidth, i, j) < |s.pressure| && Interior(s.gridWidth, s.gridHeight, Flat(s.gridWidth, i, j))
    ensures NeighbourSum(s.pressure, s.gridWidth, s.gridHeight, Flat(s.gridWidth, i, j))
            == s.P(i - 1, j) + s.P(i + 1, j) + s.P(i, j - 1) + s.P(i, j + 1)
  {
    var w, h := s.gridWidth, s.gridHeight;
    var k := Flat(w, i, j);
    InBounds(w, h, i, j);
    Decode(w, i, j);
    assert Interior(w, h, k);
    InteriorBounds(w, h, k);
    assert Flat(w, i - 1, j) == k - 1 && Flat(w, i + 1, j) == k + 1;
    assert Flat(w, i, j - 1) == k - w by {
      assert (j - 1) * w == j * w - w;
    }
    assert Flat(w, i, j + 1) == k + w by {
      assert (j + 1) * w == j * w + w;
    }
    assert s.P(i - 1, j) == s.pressure[k - 1] && s.P(i + 1, j) == s.pressure[k + 1];
    assert s.P(i, j - 1) == s.pressure[k - w] && s.P(i, j + 1) == s.pressure[k + w];
  }

  /** In grid form: a U face between cells i - 1 and i loses their pressure difference. */
  lemma SubtractedU(s: Sim, i: nat, j: nat)
    requires s.Valid() && 1 <= i < s.gridWidth && j < s.gridHeight
    ensures SubtractGradient(s).U(i, j) == s.U(i, j) - (s.P(i, j) - s.P(i - 1, j))
  {
    var w := s.gridWidth;
    var k := Flat(w + 1, i, j);
    InBounds(w + 1, s.gridHeight, i, j);
    Decode(w + 1, i, j);
    var r := SubtractGradient(s);
    assert r.velocityX[k] == GradientU(s, k);
    assert GradientU(s, k) == s.velocityX[k] - Scale * (s.P(i, j) - s.P(i - 1, j));
    assert Scale == 1.0;
  }

  /** In grid form: a V face between cells j - 1 and j loses their pressure difference. */
  lemma SubtractedV(s: Sim, i: nat, j: nat)
    requires s.Valid() && i < s.gridWidth && 1 <= j < s.gridHeight
    ensures SubtractGradient(s).V(i, j) == s.V(i, j) - (s.P(i, j) - s.P(i, j - 1))
  {
    InBounds(s.gridWidth, s.gridHeight + 1, i, j);
    Decode(s.gridWidth, i, j);
  }

  /** Projection: subtracting the pressure gradient lowers the divergence of an
      interior cell by the discrete Laplacian of the pressure there. */
  lemma {:induction false} GradientChangesDivergence(s: Sim, i: nat, j: nat)
    requires s.Valid() && 1 <= i && i + 1 < s.gridWidth && 1 <= j && j + 1 < s.gridHeight
    ensures Flat(s.gridWidth, i, j) < |s.pressure| && Interior(s.gridWidth, s.gridHeight, Flat(s.gridWidth, i, j))
    ensures var k := Flat(s.gridWidth, i, j);
            CellDivergence(SubtractGradient(s), i, j)
              == CellDivergence(s, i, j) - (NeighbourSum(s.pressure, s.gridWidth, s.gridHeight, k) - 4.0 * s.pressure[k])
  {
    NeighbourSumOfCell(s, i, j);
    SubtractedU(s, i, j);
    SubtractedU(s, i + 1, j);
    SubtractedV(s, i, j);
    SubtractedV(s, i, j + 1);
    InBounds(s.gridWidth, s.gridHeight, i, j);
    var t := SubtractGradient(s);
    var k := Flat(s.gridWidth, i, j);
    assert s.pressure[k] == s.P(i, j);
    var x := (s.U(i + 1, j) - s.U(i, j)) + (s.V(i, j + 1) - s.V(i, j));
    var lap := NeighbourSum(s.pressure, s.gridWidth, s.gridHeight, k) - 4.0 * s.pressure[k];
    assert (t.U(i + 1, j) - t.U(i, j)) + (t.V(i, j + 1) - t.V(i, j)) == x - lap;
    assert Scale == 1.0;
  }

  /** When the pressure is an exact fixed point of the Jacobi sweep for the
      current divergence, the projected field is divergence-free in every
      interior cell. */
  lemma ProjectionRemovesDivergence(s: Sim, i: nat, j: nat)
    requires s.Valid() && s.divergence == Divergence(s)
    requires PressureSweep(s.pressure, s.divergence, s.gridWidth, s.gridHeight) == s.pressure
    requires 1 <= i && i + 1 < s.gridWidth && 1 <= j && j + 1 < s.gridHeight
    ensures CellDivergence(SubtractGradient(s), i, j) == 0.0
  {
    GradientChangesDivergence(s, i, j);
    JacobiFixedPoint(s.pressure, s.divergence, s.gridWidth, s.gridHeight);
    DivergenceOfCell(s, i, j);
  }

  // ---------------------------------------------------------------------------
  // applyViscosity

  /** Every entry lies in [-m, m]. */
  predicate Bounded(f: seq<real>, m: real) {
    forall k | 0 <= k < |f| :: -m <= f[k] <= m
  }

  /** Weight of the neighbours in one diffusion sweep: a = v / (1 + 4v) with
      v = viscosity * dt, both fixed by the constructor. */
  const DiffusionWeight: real := Viscosity * Dt / (1.0 + 4.0 * (Viscosity * Dt))

  lemma DiffusionWeightRange()
    ensures 0.0 < DiffusionWeight < 0.25
  {
    var v := Viscosity * Dt;
    assert DiffusionWeight * (1.0 + 4.0 * v) == v;
  }

  /** One diffusion step of an entry: (itself + a * its four neighbours) / (1 + 4a). */
  function Relaxed(c: real, sum: real): real {
    (c + DiffusionWeight * sum) / (1.0 + 4.0 * DiffusionWeight)
  }

  /** One diffusion sweep: every interior entry is relaxed against the previous
      array; edge entries keep their values. */
  function DiffuseSweep(f: seq<real>, S: nat, R: nat): (g: seq<real>)
    requires |f| == S * R
    ensures |g| == |f|
    ensures forall k | 0 <= k < |g| && !Interior(S, R, k) :: g[k] == f[k]
  {
    seq(|f|, k requires 0 <= k < |f| =>
      if Interior(S, R, k) then Relaxed(f[k], NeighbourSum(f, S, R, k)) else f[k])
  }

  /** A relaxed entry stays within a bound its own value keeps, given a
      neighbour sum within four times that bound. */
  lemma RelaxedBounded(c: real, sum: real, m: real)
    requires -m <= c <= m && -(4.0 * m) <= sum <= 4.0 * m
    ensures -m <= Relaxed(c, sum) <= m
  {
    var a := DiffusionWeight;
    DiffusionWeightRange();
    var d := 1.0 + 4.0 * a;
    ScaleBetween(a, sum, -4.0 * m, 4.0 * m);
    assert a * (-4.0 * m) == -(4.0 * a * m) && a * (4.0 * m) == 4.0 * a * m;
    var t := c + a * sum;
    assert -(d * m) <= t <= d * m by {
      assert d * m == m + 4.0 * a * m;
    }
    DivideBetween(t, d, m);
  }

  lemma DivideBetween(t: real, d: real, m: real)
    requires d > 0.0 && -(d * m) <= t <= d * m
    ensures -m <= t / d <= m
  {
    var q := t / d;
    assert q * d == t;
    if q > m {
      MulPositive(d, q - m);
      assert false;
    }
    if q < -m {
      MulPositive(d, -m - q);
      assert false;
    }
  }

  /** Maximum principle: a sweep never leaves a bound every entry already keeps. */
  lemma DiffuseSweepBounded(f: seq<real>, S: nat, R: nat, m: real)
    requires |f| == S * R && Bounded(f, m)
    ensures Bounded(DiffuseSweep(f, S, R), m)
  {
    var g := DiffuseSweep(f, S, R);
    forall k | 0 <= k < |g|
      ensures -m <= g[k] <= m
    {
      SweepEntryBounded(f, S, R, m, k);
    }
  }

  lemma SweepEntryBounded(f: seq<real>, S: nat, R: nat, m: real, k: nat)
    requires |f| == S * R && Bounded(f, m) && k < |f|
    ensures -m <= DiffuseSweep(f, S, R)[k] <= m
  {
    if Interior(S, R, k) {
      NeighbourSumBounded(f, S, R, m, k);
      RelaxedBounded(f[k], NeighbourSum(f, S, R, k), m);
      assert DiffuseSweep(f, S, R)[k] == Relaxed(f[k], NeighbourSum(f, S, R, k));
    } else {
      assert DiffuseSweep(f, S, R)[k] == f[k];
    }
  }

  /** Four neighbours within [-m, m] sum to within [-4m, 4m]. */
  lemma NeighbourSumBounded(f: seq<real>, S: nat, R: nat, m: real, k: nat)
    requires |f| == S * R && Bounded(f, m) && k < |f| && Interior(S, R, k)
    ensures -(4.0 * m) <= NeighbourSum(f, S, R, k) <= 4.0 * m
    ensures -m <= f[k] <= m
  {
    InteriorBounds(S, R, k);
    var y1, y2, y3, y4 := f[k - 1], f[k + 1], f[k - S], f[k + S];
    assert -m <= y1 <= m && -m <= y2 <= m && -m <= y3 <= m && -m <= y4 <= m;
    assert NeighbourSum(f, S, R, k) == y1 + y2 + y3 + y4;
  }

  /** A uniform field is left as it is by a sweep. */
  lemma DiffuseSweepKeepsConstant(f: seq<real>, S: nat, R: nat, c: real)
    requires |f| == S * R
    requires forall k | 0 <= k < |f| :: f[k] == c
    ensures DiffuseSweep(f, S, R) == f
  {
    var g := DiffuseSweep(f, S, R);
    forall k | 0 <= k < |f|
      ensures g[k] == f[k]
    {
      if Interior(S, R, k) {
        NeighbourSumConstant(f, S, R, c, k);
        RelaxedConstant(c);
        assert g[k] == Relaxed(f[k], NeighbourSum(f, S, R, k));
      }
    }
  }

  lemma NeighbourSumConstant(f: seq<real>, S: nat, R: nat, c: real, k: nat)
    requires |f| == S * R && k < |f| && Interior(S, R, k)
    requires forall k | 0 <= k < |f| :: f[k] == c
    ensures NeighbourSum(f, S, R, k) == c + c + c + c && f[k] == c
  {
    InteriorBounds(S, R, k);
  }

  lemma RelaxedConstant(c: real)
    ensures Relaxed(c, c + c + c + c) == c
  {
    var a := DiffusionWeight;
    DiffusionWeightRange();
    var d := 1.0 + 4.0 * a;
    assert c + a * (c + c + c + c) == d * c;
    assert d * c / d == c;
  }

  /** applyViscosity(): five diffusion sweeps of U (interior rows 1 .. gridHeight - 2,
      columns 1 .. gridWidth - 1) and of V (rows 1 .. gridHeight - 1, columns
      1 .. gridWidth - 2). The source runs both sweeps in one loop; they read
      disjoint arrays, so each iteration sweeps each array once. Diffusion keeps
      every bound the velocities already had, and closed walls stay closed. */
  method ApplyViscosity(s: Sim) returns (r: Sim)
    requires s.Valid()
    ensures r.Valid() && r.gridWidth == s.gridWidth && r.gridHeight == s.gridHeight
    ensures r.divergence == s.divergence && r.pressure == s.pressure
    ensures forall m :: Bounded(s.velocityX, m) ==> Bounded(r.velocityX, m)
    ensures forall m :: Bounded(s.velocityY, m) ==> Bounded(r.velocityY, m)
    ensures s.WallsZero() ==> r.WallsZero()
  {
    if Viscosity <= 0.0 {
      return s;
    }
    var u := Diffusion(s.velocityX, s.gridWidth + 1, s.gridHeight, DiffusionIterations);
    var v := Diffusion(s.velocityY, s.gridWidth, s.gridHeight + 1, DiffusionIterations);
    r := s.(velocityX := u, velocityY := v);
    assert r.velocityX == u && r.velocityY == v;
    assert r.Valid();
    if s.WallsZero() {
      NonInteriorKeepsWalls(s, r);
    }
  }

  /** The iteration loop of applyViscosity for one array: n sweeps. Edge
      entries never change, and every bound the array kept still holds
      (the maximum principle). */
  method Diffusion(f: seq<real>, S: nat, R: nat, n: nat) returns (g: seq<real>)
    requires |f| == S * R
    ensures |g| == |f|
    ensures forall k | 0 <= k < |g| && !Interior(S, R, k) :: g[k] == f[k]
    ensures forall m :: Bounded(f, m) ==> Bounded(g, m)
  {
    g := f;
    var iter := 0;
    while iter < n
      invariant 0 <= iter <= n
      invariant |g| == |f|
      invariant forall k | 0 <= k < |g| && !Interior(S, R, k) :: g[k] == f[k]
      invariant forall m :: Bounded(f, m) ==> Bounded(g, m)
    {
      SweepKeepsBounds(f, g, S, R);
      g := DiffuseSweep(g, S, R);
      iter := iter + 1;
    }
  }

  /** Every bound the original array kept survives one more sweep. */
  lemma SweepKeepsBounds(f: seq<real>, g: seq<real>, S: nat, R: nat)
    requires |g| == S * R
    requires forall m :: Bounded(f, m) ==> Bounded(g, m)
    ensures forall m :: Bounded(f, m) ==> Bounded(DiffuseSweep(g, S, R), m)
  {
    forall m | Bounded(f, m)
      ensures Bounded(DiffuseSweep(g, S, R), m)
    {
      DiffuseSweepBounded(g, S, R, m);
    }
  }

  /** A pass that changes only interior entries keeps closed walls closed:
      wall faces are never interior. */
  lemma NonInteriorKeepsWalls(s: Sim, r: Sim)
    requires s.Valid() && r.Valid() && r.gridWidth == s.gridWidth && r.gridHeight == s.gridHeight
    requires s.WallsZero()
    requires forall k | 0 <= k < |r.velocityX| && !Interior(s.gridWidth + 1, s.gridHeight, k) ::
               r.velocityX[k] == s.velocityX[k]
    requires forall k | 0 <= k < |r.velocityY| && !Interior(s.gridWidth, s.gridHeight + 1, k) ::
               r.velocityY[k] == s.velocityY[k]
    ensures r.WallsZero()
  {
    var w, h := s.gridWidth, s.gridHeight;
    forall j | 0 <= j < h
      ensures r.U(0, j) == 0.0 && r.U(w, j) == 0.0
    {
      InBounds(w + 1, h, 0, j);
      InBounds(w + 1, h, w, j);
      Decode(w + 1, 0, j);
      Decode(w + 1, w, j);
      assert !Interior(w + 1, h, Flat(w + 1, 0, j)) && !Interior(w + 1, h, Flat(w + 1, w, j));
      assert s.U(0, j) == 0.0 && s.U(w, j) == 0.0;
    }
    forall i | 0 <= i < w
      ensures r.V(i, 0) == 0.0 && r.V(i, h) == 0.0
    {
      InBounds(w, h + 1, i, h);
      Decode(w, i, 0);
      Decode(w, i, h);
      assert !Interior(w, h + 1, Flat(w, i, 0)) && !Interior(w, h + 1, Flat(w, i, h));
      assert s.V(i, 0) == 0.0 && s.V(i, h) == 0.0;
    }
  }

  // ---------------------------------------------------------------------------
  // step

  /** Every entry multiplied by the same factor. */
  function Scaled(f: seq<real>, d: real): (g: seq<real>)
    ensures |g| == |f|
  {
    seq(|f|, k requires 0 <= k < |f| => f[k] * d)
  }

  /** The dissipation loops at the end of step(): each entry is multiplied in place. */
  method Dissipate(f: seq<real>, d: real) returns (g: seq<real>)
    ensures g == Scaled(f, d)
  {
    g := f;
    var i := 0;
    while i < |g|
      invariant 0 <= i <= |g| == |f|
      invariant forall k | 0 <= k < i :: g[k] == f[k] * d
      invariant forall k | i <= k < |g| :: g[k] == f[k]
    {
      g := g[i := g[i] * d];
      i := i + 1;
    }
    assert forall k | 0 <= k < |g| :: g[k] == Scaled(f, d)[k];
  }

  /** A factor in [0, 1] keeps zeros at zero and never leaves a bound. */
  lemma ScaledBounded(f: seq<real>, d: real, m: real)
    requires 0.0 <= d <= 1.0 && Bounded(f, m)
    ensures Bounded(Scaled(f, d), m)
    ensures forall k | 0 <= k < |f| && f[k] == 0.0 :: Scaled(f, d)[k] == 0.0
  {
    forall k | 0 <= k < |f|
      ensures -m <= Scaled(f, d)[k] <= m
    {
      ShrinkBounded(f[k], d, m);
    }
  }

  lemma ShrinkBounded(x: real, d: real, m: real)
    requires 0.0 <= d <= 1.0 && -m <= x <= m
    ensures -m <= x * d <= m
  {
    if x >= 0.0 {
      MulNonNeg(x, d);
      MulAtMost(x, d);
    } else {
      var y := -x;
      MulNonNeg(y, d);
      MulAtMost(y, d);
      NegMul(x, d);
      assert -(x * d) <= y;
    }
  }

  /** Wall faces that are zero stay zero under any dissipation factor. */
  lemma ScaledKeepsWalls(s: Sim, d: real)
    requires s.Valid() && s.WallsZero()
    ensures var r := s.(velocityX := Scaled(s.velocityX, d), velocityY := Scaled(s.velocityY, d));
            r.Valid() && r.WallsZero()
  {
    var r := s.(velocityX := Scaled(s.velocityX, d), velocityY := Scaled(s.velocityY, d));
    var w, h := s.gridWidth, s.gridHeight;
    forall j | 0 <= j < h
      ensures r.U(0, j) == 0.0 && r.U(w, j) == 0.0
    {
      InBounds(w + 1, h, 0, j);
      InBounds(w + 1, h, w, j);
      ZeroTimes(s.U(0, j), d);
      ZeroTimes(s.U(w, j), d);
    }
    forall i | 0 <= i < w
      ensures r.V(i, 0) == 0.0 && r.V(i, h) == 0.0
    {
      InBounds(w, h + 1, i, 0);
      InBounds(w, h + 1, i, h);
      ZeroTimes(s.V(i, 0), d);
      ZeroTimes(s.V(i, h), d);
    }
  }

  /** The part of step() between the two applyBoundaries calls. */
  function Project(s: Sim): (r: Sim)
    requires s.Valid()
    ensures r.Valid() && r.gridWidth == s.gridWidth && r.gridHeight == s.gridHeight
  {
    var withDivergence := s.(divergence := Divergence(s));
    var withPressure := withDivergence.(pressure :=
      SolvePressure(withDivergence.divergence, s.gridWidth, s.gridHeight, PressureIterations));
    SubtractGradient(withPressure)
  }

  /** step(): viscosity, walls, divergence, pressure solve, gradient subtraction,
      walls again, then dissipation by `dissipation` (Math.pow(0.95, dt) in the
      source). Afterwards the walls are closed and the pressure is zero on the
      border cells. */
  method Step(s: Sim, dissipation: real) returns (r: Sim)
    requires s.Valid()
    ensures r.Valid() && r.gridWidth == s.gridWidth && r.gridHeight == s.gridHeight
    ensures r.WallsZero()
    ensures forall k | 0 <= k < |r.pressure| && !Interior(s.gridWidth, s.gridHeight, k) :: r.pressure[k] == 0.0
  {
    var viscous := ApplyViscosity(s);
    var walled := ApplyBoundaries(viscous);
    var projected := Project(walled);
    var closed := ApplyBoundaries(projected);
    ScaledKeepsWalls(closed, dissipation);
    var u := Dissipate(closed.velocityX, dissipation);
    var v := Dissipate(closed.velocityY, dissipation);
    r := closed.(velocityX := u, velocityY := v);
  }
}

/** The landing hero (src/scenes/HeroScene.js): the letter layout of the
    word "ISPER", the one-shot transition that gathers the video tiles onto
    the letters, and the per-frame tile physics before it. */
module Hero {
  import opened ParticleCommon
  import opened RealArith
  import GridIndex

  const Word: string := "ISPER"
  const LetterWidth: real := 0.8
  const Spacing: real := 0.1

  /** Tiles created on mobile and on desktop. */
  function TileCount(isMobile: bool): nat { if isMobile then 15 else 25 }

  datatype LetterPos = LetterPos(letter: char, x: real, y: real, z: real)

  /** `calculateLetterPositions`: the word centred on the origin, one slot of
      width 0.8 per letter with 0.1 between slots. */
  function LetterPositions(): (ps: seq<LetterPos>)
    ensures |ps| == |Word| == 5
    ensures forall i :: 0 <= i < 5 ==> ps[i].letter == Word[i] && ps[i].y == 0.0 && ps[i].z == 0.0
  {
    var n := |Word|;
    var totalWidth := n as real * LetterWidth + (n - 1) as real * Spacing;
    var startX := -totalWidth / 2.0 + LetterWidth / 2.0;
    seq(n, i requires 0 <= i < n => LetterPos(Word[i], startX + i as real * (LetterWidth + Spacing), 0.0, 0.0))
  }

  /** Neighbouring letters are 0.9 apart and the layout is symmetric about x = 0. */
  lemma LetterLayout()
    ensures forall i :: 0 <= i < 4 ==> LetterPositions()[i + 1].x - LetterPositions()[i].x == 0.9
    ensures forall i :: 0 <= i < 5 ==> LetterPositions()[i].x == -LetterPositions()[4 - i].x
    ensures LetterPositions()[2].x == 0.0
  {
  }

  /** `Math.floor((index / tiles.length) * letterPositions.length)`. */
  function LetterIndex(index: nat, tiles: nat): int
    requires tiles > 0
  {
    ((index as real / tiles as real) * 5.0).Floor
  }

  /** The real-valued floor equals the integer quotient `5 * index / tiles`,
      so every tile is sent to one of the five letters. */
  lemma {:induction false} LetterIndexExact(index: nat, tiles: nat)
    requires index < tiles
    ensures LetterIndex(index, tiles) == (5 * index) / tiles
    ensures 0 <= LetterIndex(index, tiles) < 5
  {
    var q := (5 * index) / tiles;
    var r := (5 * index) % tiles;
    assert 5 * index == q * tiles + r;
    var x := (index as real / tiles as real) * 5.0;
    assert x == (5 * index) as real / tiles as real;
    assert x == q as real + r as real / tiles as real by {
      assert (5 * index) as real == q as real * tiles as real + r as real;
    }
    QuotientBelowOne(r as real, tiles as real);
    assert q as real <= x < q as real + 1.0;
    FewerThanFive(index, tiles, q, r);
  }

  lemma FewerThanFive(index: nat, tiles: nat, q: int, r: int)
    requires index < tiles && 0 <= r && 5 * index == q * tiles + r
    ensures q < 5
  {
    if q >= 5 {
      GridIndex.MulMono(q, 5, tiles);
    }
  }

  /** On desktop the 25 tiles go to the letters in runs of five. */
  lemma DesktopRuns(index: nat)
    requires index < TileCount(false)
    ensures LetterIndex(index, TileCount(false)) == index / 5
  {
    LetterIndexExact(index, 25);
  }

  /** The two tweens `startGlobeTransition` gives each tile, 1.5 s long and
      started `index * 0.02` s late. */
  datatype TileTween = ToLetter(tile: nat, letter: int, delay: real) | Unrotate(tile: nat, delay: real)

  function TransitionTweens(tiles: nat): (ts: seq<TileTween>)
    ensures |ts| == 2 * tiles
    ensures forall i :: 0 <= i < tiles ==>
              ts[2 * i] == ToLetter(i, LetterIndex(i, tiles), i as real * 0.02)
              && ts[2 * i + 1] == Unrotate(i, i as real * 0.02)
  {
    seq(2 * tiles, k requires 0 <= k < 2 * tiles =>
      if k % 2 == 0 then ToLetter(k / 2, LetterIndex(k / 2, tiles), (k / 2) as real * 0.02)
      else Unrotate(k / 2, (k / 2) as real * 0.02))
  }

  /** Every scheduled tile is sent to an existing letter, and later tiles never start earlier. */
  lemma TransitionTargets(tiles: nat)
    ensures forall i :: 0 <= i < tiles ==> 0 <= TransitionTweens(tiles)[2 * i].letter < 5
    ensures forall i, j :: 0 <= i <= j < tiles ==>
              TransitionTweens(tiles)[2 * i].delay <= TransitionTweens(tiles)[2 * j].delay
  {
    forall i | 0 <= i < tiles ensures 0 <= TransitionTweens(tiles)[2 * i].letter < 5 {
      LetterIndexExact(i, tiles);
    }
  }

  /** Scroll progress, the transition flag, and every tween and globe
      creation scheduled so far. */
  datatype HeroState = HeroState(progress: real, transitioning: bool, tweens: seq<TileTween>, starts: nat)

  function Initial(): HeroState { HeroState(0.0, false, [], 0) }

  /** `onScroll`: record the progress, and past halfway start the globe
      transition unless it is already running. */
  function OnScroll(h: HeroState, tiles: nat, progress: real): (r: HeroState)
    ensures r.progress == progress
    ensures r.transitioning == (h.transitioning || progress > 0.5)
    ensures r.starts == h.starts + (if progress > 0.5 && !h.transitioning then 1 else 0)
    ensures h.transitioning ==> r.tweens == h.tweens
  {
    if progress > 0.5 && !h.transitioning then
      HeroState(progress, true, h.tweens + TransitionTweens(tiles), h.starts + 1)
    else h.(progress := progress)
  }

  function Scrolls(h: HeroState, tiles: nat, ps: seq<real>): HeroState
    decreases |ps|
  {
    if ps == [] then h else Scrolls(OnScroll(h, tiles, ps[0]), tiles, ps[1..])
  }

  /** The transition starts at most once, and it has started exactly when
      some progress value so far went past halfway. */
  lemma {:induction false} TransitionOnce(h: HeroState, tiles: nat, ps: seq<real>)
    requires h.starts == (if h.transitioning then 1 else 0)
    ensures Scrolls(h, tiles, ps).starts == (if Scrolls(h, tiles, ps).transitioning then 1 else 0)
    ensures Scrolls(h, tiles, ps).starts <= 1
    ensures Scrolls(h, tiles, ps).transitioning <==> h.transitioning || exists k :: 0 <= k < |ps| && ps[k] > 0.5
    decreases |ps|
  {
    if ps != [] {
      var h' := OnScroll(h, tiles, ps[0]);
      TransitionOnce(h', tiles, ps[1..]);
      if exists k :: 0 <= k < |ps[1..]| && ps[1..][k] > 0.5 {
        var k :| 0 <= k < |ps[1..]| && ps[1..][k] > 0.5;
        assert ps[k + 1] > 0.5;
      }
      if exists k :: 0 <= k < |ps| && ps[k] > 0.5 {
        var k :| 0 <= k < |ps| && ps[k] > 0.5;
        if k > 0 {
          assert ps[1..][k - 1] > 0.5;
        }
      }
    }
  }

  /** A video tile: position, velocity, resting position, and rotation about x and y. */
  datatype Tile = Tile(pos: Vec3, vel: Vec3, original: Vec3, rotX: real, rotY: real)

  function Sub(a: Vec3, b: Vec3): Vec3 { Vec3(a.x - b.x, a.y - b.y, a.z - b.z) }
  function Add(a: Vec3, b: Vec3): Vec3 { Vec3(a.x + b.x, a.y + b.y, a.z + b.z) }
  function Scale(a: Vec3, k: real): Vec3 { Vec3(a.x * k, a.y * k, a.z * k) }
  function LengthSq(a: Vec3): real { a.x * a.x + a.y * a.y + a.z * a.z }

  /** The repulsion strength at distance `d`. */
  function Repulsion(d: real): (f: real)
    requires 0.0 <= d < 2.0
    ensures 0.0 < f <= 1.0
    ensures f == 1.0 <==> d == 0.0
  {
    (2.0 - d) / 2.0
  }

  /** One tile's step in `update`: push away from the mouse point within
      distance 2, damp the velocity by 0.95, move, then pull 2% of the way
      back to the resting position. `normalize` divides by the length, or by
      1 when the length is 0. */
  function StepTile(t: Tile, mouse: Vec3, dt: real, sqrt: real -> real): (r: Tile)
    ensures r.original == t.original
    ensures r.rotX == t.rotX + dt * 0.2 && r.rotY == t.rotY + dt * 0.1
  {
    var centre := Vec3(mouse.x * 5.0, mouse.y * 5.0, 0.0);
    var diff := Sub(t.pos, centre);
    var d := sqrt(LengthSq(diff));
    var pushed :=
      if 0.0 <= d < 2.0 then Add(t.vel, Scale(Scale(diff, 1.0 / (if d == 0.0 then 1.0 else d)), Repulsion(d) * 0.1))
      else t.vel;
    var vel := Scale(pushed, 0.95);
    var moved := Add(t.pos, vel);
    var back := Add(moved, Scale(Sub(t.original, moved), 0.02));
    Tile(back, vel, t.original, t.rotX + dt * 0.2, t.rotY + dt * 0.1)
  }

  /** Away from the mouse point the velocity only decays, and in every case
      the new position's offset from rest is 98% of the offset after moving. */
  lemma StepTileFacts(t: Tile, mouse: Vec3, dt: real, sqrt: real -> real)
    requires SqrtNonNegative(sqrt)
    ensures var centre := Vec3(mouse.x * 5.0, mouse.y * 5.0, 0.0);
      sqrt(LengthSq(Sub(t.pos, centre))) >= 2.0 ==> StepTile(t, mouse, dt, sqrt).vel == Scale(t.vel, 0.95)
    ensures var r := StepTile(t, mouse, dt, sqrt);
      Sub(r.pos, t.original) == Scale(Sub(Add(t.pos, r.vel), t.original), 0.98)
  {
    var centre := Vec3(mouse.x * 5.0, mouse.y * 5.0, 0.0);
    SquareNonNeg(t.pos.x - centre.x);
    SquareNonNeg(t.pos.y - centre.y);
    SquareNonNeg(t.pos.z - centre.z);
  }

  /** `update`'s tile pass: nothing moves once the transition has started. */
  function UpdateTiles(transitioning: bool, tiles: seq<Tile>, mouse: Vec3, dt: real, sqrt: real -> real): (r: seq<Tile>)
    ensures |r| == |tiles|
    ensures transitioning ==> r == tiles
    ensures !transitioning ==> forall i :: 0 <= i < |r| ==> r[i] == StepTile(tiles[i], mouse, dt, sqrt)
  {
    if transitioning then tiles
    else seq(|tiles|, i requires 0 <= i < |tiles| => StepTile(tiles[i], mouse, dt, sqrt))
  }

  /** `this.mouse.lerp(this.targetMouse, 0.1)`, every frame. */
  function EaseMouse(mouse: Vec3, target: Vec3): (r: Vec3)
    ensures Sub(target, r) == Scale(Sub(target, mouse), 0.9)
  {
    Add(mouse, Scale(Sub(target, mouse), 0.1))
  }
}

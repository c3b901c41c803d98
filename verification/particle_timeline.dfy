/** gsap timelines as data.

    A tween is kept as the record the source hands to `tl.to`: which particle
    it animates, where on the timeline it is placed, its own delay and
    duration, and the value it animates towards. Easing curves are not part of
    the model. Timelines are built particle by particle, so a schedule is the
    concatenation of one group of tweens per particle, in particle order. */
module Timeline {
  import opened ParticleCommon

  /** `tl.to(obj, vars, position)`: an explicit start time, or, with the
      position argument omitted, the current end of the timeline. */
  datatype Placement = At(time: real) | AtEnd

  /** What a tween animates towards. Placements that the source computes with
      `cos`, `sin`, `atan2` or `acos` keep the numbers they are computed from. */
  datatype Target =
    | MoveTo(p: Vec3)
      /** Point at angle `turn` full turns on a circle of `radius`, at height `z`. */
    | MoveRadial(turn: real, radius: real, z: real)
      /** Burst outwards: away from the centre, turned by `jitter + spiral`
          radians, over `force` units, to height `z`. */
    | Scatter(jitter: real, force: real, spiral: real, z: real)
      /** Star on a shell: azimuth `theta`, polar angle `acos(cosPhi)`, lowered by 10. */
    | StarShell(theta: real, cosPhi: real, radius: real)
      /** Star at azimuth `theta`, polar angle `phi`, lowered by 10. */
    | StarFixed(theta: real, phi: real, radius: real)
    | Recolour(colour: Rgb)
    | Resize(size: real)

  datatype Tween = Tween(index: nat, at: Placement, delay: real, duration: real, target: Target)

  datatype Kind = MoveKind | ColourKind | SizeKind

  function KindOf(t: Target): Kind {
    match t
    case Recolour(_) => ColourKind
    case Resize(_) => SizeKind
    case _ => MoveKind
  }

  /** Concatenates per-particle groups in order. */
  function Flatten(gs: seq<seq<Tween>>): (r: seq<Tween>)
    decreases |gs|
  {
    if gs == [] then [] else Flatten(gs[..|gs| - 1]) + gs[|gs| - 1]
  }

  /** Group `m` animates particle `m` only. */
  predicate OwnIndices(gs: seq<seq<Tween>>) {
    forall m, t | 0 <= m < |gs| && t in gs[m] :: t.index == m
  }

  /** Number of tweens of a kind aimed at particle `i`. */
  function Count(ts: seq<Tween>, i: nat, kind: Kind): (r: nat)
    ensures r <= |ts|
    decreases |ts|
  {
    if ts == [] then 0
    else Count(ts[..|ts| - 1], i, kind)
         + (if ts[|ts| - 1].index == i && KindOf(ts[|ts| - 1].target) == kind then 1 else 0)
  }

  lemma {:induction false} CountAppend(a: seq<Tween>, b: seq<Tween>, i: nat, kind: Kind)
    ensures Count(a + b, i, kind) == Count(a, i, kind) + Count(b, i, kind)
    decreases |b|
  {
    if b != [] {
      var b' := b[..|b| - 1];
      assert (a + b)[..|a + b| - 1] == a + b';
      CountAppend(a, b', i, kind);
    } else {
      assert a + b == a;
    }
  }

  lemma {:induction false} CountNone(ts: seq<Tween>, i: nat, kind: Kind)
    requires forall t | t in ts :: t.index != i
    ensures Count(ts, i, kind) == 0
    decreases |ts|
  {
    if ts != [] {
      CountNone(ts[..|ts| - 1], i, kind);
    }
  }

  lemma CountPair(a: Tween, b: Tween, i: nat, kind: Kind)
    ensures Count([a, b], i, kind) == Count([a], i, kind) + Count([b], i, kind)
  {
    assert [a, b][..1] == [a];
  }

  lemma CountTriple(a: Tween, b: Tween, c: Tween, i: nat, kind: Kind)
    ensures Count([a, b, c], i, kind) == Count([a], i, kind) + Count([b], i, kind) + Count([c], i, kind)
  {
    assert [a, b, c][..2] == [a, b];
    CountPair(a, b, i, kind);
  }

  lemma CountQuad(a: Tween, b: Tween, c: Tween, d: Tween, i: nat, kind: Kind)
    ensures Count([a, b, c, d], i, kind)
            == Count([a], i, kind) + Count([b], i, kind) + Count([c], i, kind) + Count([d], i, kind)
  {
    assert [a, b, c, d][..3] == [a, b, c];
    CountTriple(a, b, c, i, kind);
  }

  lemma {:induction false} FlattenIndices(gs: seq<seq<Tween>>)
    requires OwnIndices(gs)
    ensures forall t | t in Flatten(gs) :: t.index < |gs|
    decreases |gs|
  {
    if gs != [] {
      FlattenIndices(gs[..|gs| - 1]);
    }
  }

  /** In the flattened schedule, the tweens of particle `i` are exactly those of its group. */
  lemma {:induction false} FlattenCount(gs: seq<seq<Tween>>, i: nat, kind: Kind)
    requires OwnIndices(gs)
    ensures Count(Flatten(gs), i, kind) == if i < |gs| then Count(gs[i], i, kind) else 0
    decreases |gs|
  {
    if gs != [] {
      var p := gs[..|gs| - 1];
      var last := gs[|gs| - 1];
      FlattenCount(p, i, kind);
      CountAppend(Flatten(p), last, i, kind);
      if i != |gs| - 1 {
        CountNone(last, i, kind);
      }
    }
  }

  /** Flattening keeps particle order: a later tween never animates an earlier particle. */
  lemma {:induction false} FlattenOrdered(gs: seq<seq<Tween>>)
    requires OwnIndices(gs)
    ensures forall a, b | 0 <= a < b < |Flatten(gs)| :: Flatten(gs)[a].index <= Flatten(gs)[b].index
    decreases |gs|
  {
    if gs != [] {
      var p := gs[..|gs| - 1];
      var last := gs[|gs| - 1];
      FlattenOrdered(p);
      FlattenIndices(p);
      var f := Flatten(gs);
      assert f == Flatten(p) + last;
      forall a, b | 0 <= a < b < |f|
        ensures f[a].index <= f[b].index
      {
        if b >= |Flatten(p)| {
          assert f[b] == last[b - |Flatten(p)|];
          assert f[b] in last;
          if a < |Flatten(p)| {
            assert f[a] in Flatten(p);
          } else {
            assert f[a] == last[a - |Flatten(p)|];
            assert f[a] in last;
          }
        }
      }
    }
  }
}

/** The tweens `transformToText` schedules when it acts
    (src/scenes/ParticleSystem.js:1373-1447); its guard on `isTextFormed`
    is `ParticleFlags.TransformToText`.

    The first `n = min(textParticles.length, particleCount)` particles fly to
    their text point, staggered by 1 ms per index, and grow by half. Every
    other particle is sent outwards, dimmed and shrunk, consuming two draws
    of `Math.random`. */
module TextTransition {
  import opened ParticleCommon
  import opened Timeline

  /** Stagger between consecutive text particles, in seconds. */
  const TextStagger: real := 0.001

  function Min(a: nat, b: nat): nat {
    if a < b then a else b
  }

  /** Particles that get a text point. */
  function TextCount(text: seq<Vec3>): (n: nat)
    ensures n <= |text| && n <= ParticleCount
    ensures n == |text| || n == ParticleCount
  {
    Min(|text|, ParticleCount)
  }

  /** Colour excess particles fade to. */
  const Dimmed := Rgb(0.1, 0.1, 0.2)

  /** Tweens of particle `i`, given the text count `n`; the excess particle
      `i` reads the draws `k + 2 * (i - n)` and the one after it. */
  function TextGroup(i: nat, n: nat, text: seq<Vec3>, sizes: seq<real>, rand: nat -> real, k: nat)
    : (g: seq<Tween>)
    requires i < |sizes| && n <= |text|
    ensures forall t | t in g :: t.index == i
    ensures forall t | t in g && t.target.MoveTo? :: i < n && t.at == At(i as real * TextStagger)
  {
    if i < n then
      var start := At(i as real * TextStagger);
      [Tween(i, start, 0.0, 3.0, MoveTo(text[i])),
       Tween(i, start, 0.0, 2.0, Resize(sizes[i] * 1.5))]
    else
      var d := k + 2 * (i - n);
      [Tween(i, At(0.0), 0.0, 3.0,
             MoveRadial(i as real / ParticleCount as real, 100.0 + rand(d) * 50.0, -50.0 - rand(d + 1) * 50.0)),
       Tween(i, At(0.0), 0.0, 3.0, Recolour(Dimmed)),
       Tween(i, At(0.0), 0.0, 3.0, Resize(sizes[i] * 0.5))]
  }

  function TextGroups(text: seq<Vec3>, sizes: seq<real>, rand: nat -> real, k: nat): (gs: seq<seq<Tween>>)
    requires |sizes| == ParticleCount
    ensures |gs| == ParticleCount && OwnIndices(gs)
  {
    seq(ParticleCount, i requires 0 <= i < ParticleCount => TextGroup(i, TextCount(text), text, sizes, rand, k))
  }

  datatype TextPlan = TextPlan(tweens: seq<Tween>, nextDraw: nat)

  /** The timeline `transformToText` builds, and the next unread draw. */
  function TextSchedule(text: seq<Vec3>, sizes: seq<real>, rand: nat -> real, k: nat): (r: TextPlan)
    requires |sizes| == ParticleCount
    ensures r.nextDraw - k == 2 * (ParticleCount - TextCount(text))
  {
    TextPlan(Flatten(TextGroups(text, sizes, rand, k)), k + 2 * (ParticleCount - TextCount(text)))
  }

  lemma {:induction false} FlattenMember(gs: seq<seq<Tween>>, t: Tween)
    requires t in Flatten(gs)
    ensures exists m :: 0 <= m < |gs| && t in gs[m]
    decreases |gs|
  {
    var p := gs[..|gs| - 1];
    if t !in gs[|gs| - 1] {
      FlattenMember(p, t);
      var m :| 0 <= m < |p| && t in p[m];
      assert t in gs[m];
    }
  }

  /** Each of the 2000 particles gets exactly one position tween and one size
      tween; only the particles beyond the text count get a colour tween. No
      tween addresses a particle that does not exist. */
  lemma TextScheduleCovers(text: seq<Vec3>, sizes: seq<real>, rand: nat -> real, k: nat, i: nat)
    requires |sizes| == ParticleCount && i < ParticleCount
    ensures Count(TextSchedule(text, sizes, rand, k).tweens, i, MoveKind) == 1
    ensures Count(TextSchedule(text, sizes, rand, k).tweens, i, SizeKind) == 1
    ensures Count(TextSchedule(text, sizes, rand, k).tweens, i, ColourKind)
            == if i < TextCount(text) then 0 else 1
    ensures forall t | t in TextSchedule(text, sizes, rand, k).tweens :: t.index < ParticleCount
  {
    TextTweensCover(text, sizes, rand, k, i);
  }

  lemma TextTweensCover(text: seq<Vec3>, sizes: seq<real>, rand: nat -> real, k: nat, i: nat)
    requires |sizes| == ParticleCount && i < ParticleCount
    ensures Count(Flatten(TextGroups(text, sizes, rand, k)), i, MoveKind) == 1
    ensures Count(Flatten(TextGroups(text, sizes, rand, k)), i, SizeKind) == 1
    ensures Count(Flatten(TextGroups(text, sizes, rand, k)), i, ColourKind)
            == if i < TextCount(text) then 0 else 1
    ensures forall t | t in Flatten(TextGroups(text, sizes, rand, k)) :: t.index < ParticleCount
  {
    var gs := TextGroups(text, sizes, rand, k);
    TextEntryCounts(text, sizes, rand, k, i);
    FlattenCount(gs, i, MoveKind);
    FlattenCount(gs, i, SizeKind);
    FlattenCount(gs, i, ColourKind);
    FlattenIndices(gs);
  }

  lemma TextEntryCounts(text: seq<Vec3>, sizes: seq<real>, rand: nat -> real, k: nat, i: nat)
    requires |sizes| == ParticleCount && i < ParticleCount
    ensures Count(TextGroups(text, sizes, rand, k)[i], i, MoveKind) == 1
    ensures Count(TextGroups(text, sizes, rand, k)[i], i, SizeKind) == 1
    ensures Count(TextGroups(text, sizes, rand, k)[i], i, ColourKind) == if i < TextCount(text) then 0 else 1
  {
    assert TextGroups(text, sizes, rand, k)[i] == TextGroup(i, TextCount(text), text, sizes, rand, k);
    TextGroupCounts(i, TextCount(text), text, sizes, rand, k);
  }

  lemma TextGroupCounts(i: nat, n: nat, text: seq<Vec3>, sizes: seq<real>, rand: nat -> real, k: nat)
    requires i < |sizes| && n <= |text|
    ensures Count(TextGroup(i, n, text, sizes, rand, k), i, MoveKind) == 1
    ensures Count(TextGroup(i, n, text, sizes, rand, k), i, SizeKind) == 1
    ensures Count(TextGroup(i, n, text, sizes, rand, k), i, ColourKind) == if i < n then 0 else 1
  {
    var g := TextGroup(i, n, text, sizes, rand, k);
    if i < n {
      CountPair(g[0], g[1], i, MoveKind);
      CountPair(g[0], g[1], i, SizeKind);
      CountPair(g[0], g[1], i, ColourKind);
    } else {
      CountTriple(g[0], g[1], g[2], i, MoveKind);
      CountTriple(g[0], g[1], g[2], i, SizeKind);
      CountTriple(g[0], g[1], g[2], i, ColourKind);
    }
  }

  /** Text particles start in index order, 1 ms apart: along the timeline,
      their start times never decrease. */
  lemma TextStartsOrdered(text: seq<Vec3>, sizes: seq<real>, rand: nat -> real, k: nat, a: nat, b: nat)
    requires |sizes| == ParticleCount
    requires a < b < |TextSchedule(text, sizes, rand, k).tweens|
    requires TextSchedule(text, sizes, rand, k).tweens[a].target.MoveTo?
    requires TextSchedule(text, sizes, rand, k).tweens[b].target.MoveTo?
    ensures TextSchedule(text, sizes, rand, k).tweens[a].at.At?
    ensures TextSchedule(text, sizes, rand, k).tweens[b].at.At?
    ensures TextSchedule(text, sizes, rand, k).tweens[a].at.time
            <= TextSchedule(text, sizes, rand, k).tweens[b].at.time
    ensures TextSchedule(text, sizes, rand, k).tweens[b].index < TextCount(text)
  {
    var gs := TextGroups(text, sizes, rand, k);
    TextMoves(text, sizes, rand, k);
    MovesOrdered(gs, TextCount(text), a, b);
  }

  /** In group `m`, a position tween exists only for a text particle and starts at `m` ms. */
  lemma TextMoves(text: seq<Vec3>, sizes: seq<real>, rand: nat -> real, k: nat)
    requires |sizes| == ParticleCount
    ensures var gs := TextGroups(text, sizes, rand, k);
      forall m: int, t: Tween | 0 <= m < |gs| && t in gs[m] && t.target.MoveTo? ::
        m < TextCount(text) && t.at == At(m as real * TextStagger)
  {
    var gs := TextGroups(text, sizes, rand, k);
    forall m: int, t: Tween | 0 <= m < |gs| && t in gs[m] && t.target.MoveTo?
      ensures m < TextCount(text) && t.at == At(m as real * TextStagger)
    {
      assert gs[m] == TextGroup(m, TextCount(text), text, sizes, rand, k);
    }
  }

  /** When every position tween of group `m` starts at `m` ms and belongs to
      a particle below `n`, position tweens start in timeline order. */
  lemma MovesOrdered(gs: seq<seq<Tween>>, n: nat, a: nat, b: nat)
    requires OwnIndices(gs)
    requires forall m, t | 0 <= m < |gs| && t in gs[m] && t.target.MoveTo? ::
               m < n && t.at == At(m as real * TextStagger)
    requires a < b < |Flatten(gs)|
    requires Flatten(gs)[a].target.MoveTo? && Flatten(gs)[b].target.MoveTo?
    ensures Flatten(gs)[a].at.At? && Flatten(gs)[b].at.At?
    ensures Flatten(gs)[a].at.time <= Flatten(gs)[b].at.time
    ensures Flatten(gs)[b].index < n
  {
    var ts := Flatten(gs);
    FlattenOrdered(gs);
    FlattenMember(gs, ts[a]);
    FlattenMember(gs, ts[b]);
    var ma :| 0 <= ma < |gs| && ts[a] in gs[ma];
    var mb :| 0 <= mb < |gs| && ts[b] in gs[mb];
    assert ts[a].at == At(ts[a].index as real * TextStagger);
    assert ts[b].at == At(ts[b].index as real * TextStagger);
  }
}

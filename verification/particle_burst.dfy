/** The tweens `burstParticles` schedules (src/scenes/ParticleSystem.js:418-669).

    Phase one sends every particle outwards, enlarges it fourfold and then to
    one and a half times its size, and doubles its colour channels, capped at
    1. Phase two turns the particles into a star field: particle 10 becomes
    the clickable special star, particles 11 to 15 a cluster around it, and
    every other particle an ordinary star. When the special star's size tween
    completes, it starts an endless pulse outside the timeline. Phase one
    reads three draws of `Math.random` per particle; phase two reads three per
    particle plus four more for a cluster star and three more for an ordinary
    star; the camera shake reads two. */
module Burst {
  import opened ParticleCommon
  import opened Timeline
  import ParticleFlags

  /** Stagger of phase one, per particle index. */
  const BurstStagger: real := 0.0005
  /** Extra delay of phase-two moves, per particle index. */
  const StarStagger: real := 0.0002
  /** Delay of every phase-two tween. */
  const StarDelay: real := 2.5
  /** The size the special star grows to in phase two. */
  const SpecialSize: real := 1.5
  /** The size the special star's pulse swings up to, and the seconds each swing takes. */
  const PulseHigh: real := 2.0
  const PulseDuration: real := 3.0

  /** `clusterIndices`. */
  const ClusterIndices: seq<nat> := [11, 12, 13, 14, 15]

  datatype Branch = Special | Cluster | Normal

  /** Which phase-two branch particle `i` takes, decided in source order. */
  function BranchOf(i: nat): Branch {
    if i == ParticleFlags.SpecialStar then Special
    else if i in ClusterIndices then Cluster
    else Normal
  }

  /** The special star is particle 10, the cluster is 11 to 15, every other
      particle is an ordinary star; the branches are disjoint by construction
      of the type. */
  lemma BranchPartition(i: nat)
    ensures BranchOf(i) == Special <==> i == 10
    ensures BranchOf(i) == Cluster <==> 11 <= i <= 15
    ensures BranchOf(i) == Normal <==> i < 10 || 15 < i
  {
  }

  /** `Math.min(1.0, c * 2)`. */
  function Brighten(c: real): (r: real)
    ensures r <= 1.0
    ensures r == 1.0 || r == 2.0 * c
    ensures 0.0 <= c <= 1.0 ==> c <= r
  {
    if 1.0 < c * 2.0 then 1.0 else c * 2.0
  }

  /** Phase-one tweens of particle `i`, which reads draws `k`, `k+1`, `k+2`. */
  function ScatterGroup(i: nat, size: real, colour: Rgb, rand: nat -> real, k: nat): (g: seq<Tween>)
    ensures |g| == 4
    ensures forall t | t in g :: t.index == i
    ensures forall t | t in g :: t.at.At? && t.delay == 0.0
  {
    var start := i as real * BurstStagger;
    [Tween(i, At(start), 0.0, 2.0,
           Scatter((rand(k) - 0.5) * 0.5, 30.0 + rand(k + 1) * 40.0, i as real * 0.001, (rand(k + 2) - 0.5) * 20.0)),
     Tween(i, At(start), 0.0, 0.5, Resize(size * 4.0)),
     Tween(i, At(0.5 + start), 0.0, 1.5, Resize(size * 1.5)),
     Tween(i, At(start), 0.0, 0.8,
           Recolour(Rgb(Brighten(colour.r), Brighten(colour.g), Brighten(colour.b))))]
  }

  /** Draws phase two reads for particle `i`. */
  function StarDraws(i: nat): nat {
    match BranchOf(i)
    case Special => 3
    case Cluster => 7
    case Normal => 6
  }

  /** Draws phase two reads before it reaches particle `i`: the sum of
      `StarDraws` over the particles before it. */
  function DrawsBefore(i: nat): nat {
    if i == 0 then 0 else DrawsBefore(i - 1) + StarDraws(i - 1)
  }

  /** Closed form of `DrawsBefore`: six draws per particle, one more for each
      of the five cluster stars, three fewer for the special star. */
  function StarOffset(i: nat): nat {
    if i <= 10 then 6 * i else if i <= 16 then 7 * i - 14 else 6 * i + 2
  }

  /** Phase-two tweens of particle `i`, reading draws from `k` on. Every branch
      first reads the three draws of the shell position. */
  function StarGroup(i: nat, rand: nat -> real, k: nat): (g: seq<Tween>)
    ensures |g| == 3
    ensures forall t | t in g :: t.index == i
    ensures g[0].at == AtEnd && g[0].delay == StarDelay + i as real * StarStagger
    ensures g[1].at == At(0.0) && g[1].delay == StarDelay
    ensures g[2].at == At(0.0) && g[2].delay == StarDelay
    ensures g[2].target.Resize?
  {
    var move := 2.5 + i as real * StarStagger;
    match BranchOf(i)
    case Special =>
      [Tween(i, AtEnd, move, 2.0, StarFixed(Pi * 1.2, Pi * 0.3, 55.0)),
       Tween(i, At(0.0), 2.5, 1.5, Recolour(Rgb(0.9, 0.9, 1.0))),
       Tween(i, At(0.0), 2.5, 1.5, Resize(SpecialSize))]
    case Cluster =>
      var phi := Pi * 0.3 + (rand(k + 3) - 0.5) * 0.1;
      var radius := 55.0 + (rand(k + 4) - 0.5) * 5.0;
      var b := 0.7 + rand(k + 5) * 0.3;
      [Tween(i, AtEnd, move, 2.0, StarFixed(Pi * 1.2 + (i as real - 10.0) * 0.2, phi, radius)),
       Tween(i, At(0.0), 2.5, 1.5, Recolour(Rgb(b, b, b + 0.1))),
       Tween(i, At(0.0), 2.5, 1.5, Resize(0.8 + rand(k + 6) * 0.4))]
    case Normal =>
      var b := 0.5 + rand(k + 3) * 0.5;
      [Tween(i, AtEnd, move, 2.0, StarShell(rand(k) * Pi * 2.0, rand(k + 1) * 2.0 - 1.0, 40.0 + rand(k + 2) * 50.0)),
       Tween(i, At(0.0), 2.5, 1.5, Recolour(Rgb(b, b, b + rand(k + 4) * 0.2))),
       Tween(i, At(0.0), 2.5, 1.5, Resize(rand(k + 5) * 0.8 + 0.2))]
  }

  /** An endless `repeat: -1, yoyo: true` size tween, started outside the
      burst timeline: particle `index` swings between `low` and `high`,
      taking `duration` seconds each way. */
  datatype Pulse = Pulse(index: nat, low: real, high: real, duration: real)

  /** The `onComplete` callback of the special star's size tween in `g`, its
      phase-two group: it starts a pulse from the size that tween reached up
      to 2.0. */
  function StarPulse(g: seq<Tween>): (p: Pulse)
    requires |g| == 3 && g[2].target.Resize?
    ensures p.index == g[2].index && p.low == g[2].target.size
    ensures p.high == PulseHigh && p.duration == PulseDuration
  {
    Pulse(g[2].index, g[2].target.size, PulseHigh, PulseDuration)
  }

  datatype BurstPlan = BurstPlan(tweens: seq<Tween>, pulses: seq<Pulse>, shakeX: real, shakeY: real, nextDraw: nat)

  function ScatterGroups(sizes: seq<real>, colours: seq<Rgb>, rand: nat -> real, k: nat): (gs: seq<seq<Tween>>)
    requires |sizes| == ParticleCount && |colours| == ParticleCount
    ensures |gs| == ParticleCount && OwnIndices(gs)
  {
    seq(ParticleCount, i requires 0 <= i < ParticleCount => ScatterGroupAt(sizes, colours, rand, k, i))
  }

  function ScatterGroupAt(sizes: seq<real>, colours: seq<Rgb>, rand: nat -> real, k: nat, i: nat): (g: seq<Tween>)
    requires i < |sizes| && i < |colours|
    ensures |g| == 4
    ensures forall t | t in g :: t.index == i
  {
    ScatterGroup(i, sizes[i], colours[i], rand, k + 3 * i)
  }

  function StarGroupAt(rand: nat -> real, k: nat, i: nat): (g: seq<Tween>)
    ensures |g| == 3
    ensures forall t | t in g :: t.index == i
    ensures g[2].target.Resize?
  {
    StarGroup(i, rand, k + StarOffset(i))
  }

  function StarGroups(rand: nat -> real, k: nat): (gs: seq<seq<Tween>>)
    ensures |gs| == ParticleCount && OwnIndices(gs)
  {
    seq(ParticleCount, i requires 0 <= i < ParticleCount => StarGroupAt(rand, k, i))
  }

  /** The burst timeline (phase one, then phase two, in call order), the
      pulse the special star starts when its size tween completes, the camera
      shake offsets, and the next unread draw. */
  function BurstSchedule(sizes: seq<real>, colours: seq<Rgb>, rand: nat -> real, k: nat): (r: BurstPlan)
    requires |sizes| == ParticleCount && |colours| == ParticleCount
  {
    var k2 := k + 3 * ParticleCount;
    var k3 := k2 + StarOffset(|sizes|);
    BurstPlan(BurstTweens(sizes, colours, rand, k),
              [Pulse(ParticleFlags.SpecialStar, SpecialSize, PulseHigh, PulseDuration)],
              (rand(k3) - 0.5) * 2.0, (rand(k3 + 1) - 0.5) * 2.0, k3 + 2)
  }

  /** Phase one's tweens, then phase two's, in call order. */
  function BurstTweens(sizes: seq<real>, colours: seq<Rgb>, rand: nat -> real, k: nat): seq<Tween>
    requires |sizes| == ParticleCount && |colours| == ParticleCount
  {
    Flatten(ScatterGroups(sizes, colours, rand, k)) + Flatten(StarGroups(rand, k + 3 * ParticleCount))
  }

  /** The closed form agrees with the running sum of draws. */
  lemma {:induction false} DrawsBeforeClosed(i: nat)
    ensures DrawsBefore(i) == StarOffset(i)
  {
    if i > 0 {
      DrawsBeforeClosed(i - 1);
      BranchPartition(i - 1);
    }
  }

  /** One burst reads 18004 draws of `Math.random`: 6000 in phase one, 12002 in
      phase two and 2 for the camera shake. */
  lemma BurstDraws(sizes: seq<real>, colours: seq<Rgb>, rand: nat -> real, k: nat)
    requires |sizes| == ParticleCount && |colours| == ParticleCount
    ensures BurstSchedule(sizes, colours, rand, k).nextDraw == k + 3 * |sizes| + DrawsBefore(|sizes|) + 2
    ensures BurstSchedule(sizes, colours, rand, k).nextDraw == k + 18004
  {
    DrawsBeforeClosed(|sizes|);
  }

  /** Phase one: the colour tween never raises a channel above 1, brightens
      channels already in [0, 1], and the size tweens go to 4 times and then
      1.5 times the size the particle had when the burst started. */
  lemma ScatterTargets(i: nat, size: real, colour: Rgb, rand: nat -> real, k: nat)
    ensures var g := ScatterGroup(i, size, colour, rand, k);
      && g[1].target == Resize(4.0 * size) && g[2].target == Resize(1.5 * size)
      && g[2].at.time == g[1].at.time + 0.5
      && g[3].target.Recolour?
      && g[3].target.colour.r <= 1.0 && g[3].target.colour.g <= 1.0 && g[3].target.colour.b <= 1.0
      && (0.0 <= colour.r <= 1.0 ==> colour.r <= g[3].target.colour.r)
      && (0.0 <= colour.g <= 1.0 ==> colour.g <= g[3].target.colour.g)
      && (0.0 <= colour.b <= 1.0 ==> colour.b <= g[3].target.colour.b)
  {
  }

  /** With draws in [0, 1): ordinary stars get brightness in [0.5, 1), a blue
      channel up to 0.2 above it, size in [0.2, 1) and shell radius in
      [40, 90); cluster stars get brightness in [0.7, 1), blue exactly 0.1
      above it, size in [0.8, 1.2) and radius in [52.5, 57.5); the special
      star gets (0.9, 0.9, 1.0) and size 1.5. */
  lemma StarTargets(i: nat, rand: nat -> real, k: nat)
    requires UnitDraws(rand)
    ensures var g := StarGroup(i, rand, k);
      && g[1].target.Recolour? && g[2].target.Resize?
      && match BranchOf(i)
         case Special =>
           g[1].target.colour == Rgb(0.9, 0.9, 1.0) && g[2].target.size == 1.5
           && g[0].target == StarFixed(Pi * 1.2, Pi * 0.3, 55.0)
         case Cluster =>
           var c := g[1].target.colour;
           && 0.7 <= c.r < 1.0 && c.g == c.r && c.b == c.r + 0.1
           && 0.8 <= g[2].target.size < 1.2
           && g[0].target.StarFixed? && 52.5 <= g[0].target.radius < 57.5
         case Normal =>
           var c := g[1].target.colour;
           && 0.5 <= c.r < 1.0 && c.g == c.r && c.r <= c.b < c.r + 0.2
           && 0.2 <= g[2].target.size < 1.0
           && g[0].target.StarShell? && 40.0 <= g[0].target.radius < 90.0
           && -1.0 <= g[0].target.cosPhi < 1.0
  {
    assert 0.0 <= rand(k) < 1.0;
    assert 0.0 <= rand(k + 1) < 1.0;
    assert 0.0 <= rand(k + 2) < 1.0;
    assert 0.0 <= rand(k + 3) < 1.0;
    assert 0.0 <= rand(k + 4) < 1.0;
    assert 0.0 <= rand(k + 5) < 1.0;
    assert 0.0 <= rand(k + 6) < 1.0;
  }

  lemma ScatterGroupCounts(i: nat, size: real, colour: Rgb, rand: nat -> real, k: nat)
    ensures Tally(ScatterGroup(i, size, colour, rand, k), i, 1, 2, 1)
  {
    var g := ScatterGroup(i, size, colour, rand, k);
    assert g == [g[0], g[1], g[2], g[3]];
    CountQuad(g[0], g[1], g[2], g[3], i, MoveKind);
    CountQuad(g[0], g[1], g[2], g[3], i, SizeKind);
    CountQuad(g[0], g[1], g[2], g[3], i, ColourKind);
  }

  lemma StarGroupCounts(i: nat, rand: nat -> real, k: nat)
    ensures Tally(StarGroup(i, rand, k), i, 1, 1, 1)
  {
    var g := StarGroup(i, rand, k);
    assert g == [g[0], g[1], g[2]];
    CountTriple(g[0], g[1], g[2], i, MoveKind);
    CountTriple(g[0], g[1], g[2], i, SizeKind);
    CountTriple(g[0], g[1], g[2], i, ColourKind);
  }

  lemma ScatterEntryCounts(sizes: seq<real>, colours: seq<Rgb>, rand: nat -> real, k: nat, i: nat)
    requires |sizes| == ParticleCount && |colours| == ParticleCount && i < ParticleCount
    ensures Tally(ScatterGroups(sizes, colours, rand, k)[i], i, 1, 2, 1)
  {
    assert ScatterGroups(sizes, colours, rand, k)[i] == ScatterGroupAt(sizes, colours, rand, k, i);
    ScatterGroupCounts(i, sizes[i], colours[i], rand, k + 3 * i);
  }

  lemma StarEntryCounts(rand: nat -> real, k: nat, i: nat)
    requires i < ParticleCount
    ensures Tally(StarGroups(rand, k)[i], i, 1, 1, 1)
  {
    assert StarGroups(rand, k)[i] == StarGroupAt(rand, k, i);
    StarGroupCounts(i, rand, k + StarOffset(i));
  }

  /** Particle `i` gets `moves` position tweens, `sizes` size tweens and
      `colours` colour tweens in `ts`. */
  predicate Tally(ts: seq<Tween>, i: nat, moves: nat, sizes: nat, colours: nat) {
    Count(ts, i, MoveKind) == moves && Count(ts, i, SizeKind) == sizes && Count(ts, i, ColourKind) == colours
  }

  /** No tween in `ts` addresses a particle that does not exist. */
  predicate Addressed(ts: seq<Tween>) {
    forall t | t in ts :: t.index < ParticleCount
  }

  /** In the timeline every particle gets exactly two position tweens
      (outwards, then to its star), three size tweens and two colour tweens,
      and no tween addresses a particle that does not exist. The pulse outside
      the timeline is `BurstPulse`'s. */
  lemma BurstCovers(sizes: seq<real>, colours: seq<Rgb>, rand: nat -> real, k: nat, i: nat)
    requires |sizes| == ParticleCount && |colours| == ParticleCount && i < ParticleCount
    ensures Tally(BurstSchedule(sizes, colours, rand, k).tweens, i, 2, 3, 2)
    ensures Addressed(BurstSchedule(sizes, colours, rand, k).tweens)
  {
    TweensCover(sizes, colours, rand, k, i);
  }

  /** The burst's one pulse is the one the `onComplete` of particle 10's
      phase-two size tween starts: between the 1.5 it reached and 2.0, three
      seconds each way. No other particle pulses. */
  lemma BurstPulse(sizes: seq<real>, colours: seq<Rgb>, rand: nat -> real, k: nat)
    requires |sizes| == ParticleCount && |colours| == ParticleCount
    ensures BurstSchedule(sizes, colours, rand, k).pulses == [Pulse(10, 1.5, 2.0, 3.0)]
    ensures var k2 := k + 3 * ParticleCount;
      BurstSchedule(sizes, colours, rand, k).pulses == [StarPulse(StarGroups(rand, k2)[ParticleFlags.SpecialStar])]
  {
    var k2 := k + 3 * ParticleCount;
    var g := StarGroup(ParticleFlags.SpecialStar, rand, k2 + StarOffset(ParticleFlags.SpecialStar));
    assert StarGroups(rand, k2)[ParticleFlags.SpecialStar] == g;
    assert BranchOf(ParticleFlags.SpecialStar) == Special;
    assert g[2] == Tween(ParticleFlags.SpecialStar, At(0.0), 2.5, 1.5, Resize(SpecialSize));
  }

  lemma TweensCover(sizes: seq<real>, colours: seq<Rgb>, rand: nat -> real, k: nat, i: nat)
    requires |sizes| == ParticleCount && |colours| == ParticleCount && i < ParticleCount
    ensures Tally(BurstTweens(sizes, colours, rand, k), i, 2, 3, 2)
    ensures Addressed(BurstTweens(sizes, colours, rand, k))
  {
    var a := ScatterGroups(sizes, colours, rand, k);
    var b := StarGroups(rand, k + 3 * ParticleCount);
    ScatterEntryCounts(sizes, colours, rand, k, i);
    StarEntryCounts(rand, k + 3 * ParticleCount, i);
    GroupsCover(a, b, i);
  }

  /** Phase one gives particle i one move, two resizes and one recolour,
      phase two one of each: the counts of the flattened phases add up. */
  lemma GroupsCover(a: seq<seq<Tween>>, b: seq<seq<Tween>>, i: nat)
    requires OwnIndices(a) && OwnIndices(b) && |a| == ParticleCount && |b| == ParticleCount && i < ParticleCount
    requires Tally(a[i], i, 1, 2, 1) && Tally(b[i], i, 1, 1, 1)
    ensures Tally(Flatten(a) + Flatten(b), i, 2, 3, 2)
    ensures Addressed(Flatten(a) + Flatten(b))
  {
    FlattenCount(a, i, MoveKind);
    FlattenCount(a, i, SizeKind);
    FlattenCount(a, i, ColourKind);
    FlattenCount(b, i, MoveKind);
    FlattenCount(b, i, SizeKind);
    FlattenCount(b, i, ColourKind);
    FlattenIndices(a);
    FlattenIndices(b);
    PhasesCover(Flatten(a), Flatten(b), i);
  }

  /** Counts of the two phases add up. */
  lemma PhasesCover(a: seq<Tween>, b: seq<Tween>, i: nat)
    requires Tally(a, i, 1, 2, 1) && Tally(b, i, 1, 1, 1) && Addressed(a) && Addressed(b)
    ensures Tally(a + b, i, 2, 3, 2) && Addressed(a + b)
  {
    CountAppend(a, b, i, MoveKind);
    CountAppend(a, b, i, SizeKind);
    CountAppend(a, b, i, ColourKind);
  }
}

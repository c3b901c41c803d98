/** The flag-driven mode machine of the particle controller
    (src/scenes/ParticleSystem.js: onMouseClick, onTouchStart, onScroll,
    transformToText's guard and the 4.5 s call that ends a burst).

    The source keeps no single mode variable. Six booleans decide what an
    input does, and the model keeps them as they are, together with the
    bookkeeping the handlers touch: the special-star index, how many burst
    completions are still scheduled, and how many globes were created. */
module ParticleFlags {
  import opened ParticleCommon
  import opened Wrappers

  /** NDC distance below which a click or hover hits the special star. */
  const StarHitRadius: real := 0.15
  /** Scroll progress above which a formed text bursts. */
  const BurstScroll: real := 0.1
  /** The star index `burstParticles` makes clickable. */
  const SpecialStar: nat := 10

  datatype Flags = Flags(
    textFormed: bool,
    bursted: bool,
    spaceFormed: bool,
    globeInteraction: bool,
    pinned: bool,
    mapFormed: bool,
    specialStar: Option<nat>,
    /** Completions of `gsap.delayedCall(4.5, ...)` that are scheduled and have not fired. */
    pendingBursts: nat,
    /** Globes `createGlobe` has built. */
    globes: nat)

  /** Inputs of the machine. A click carries the NDC distance between the
      pointer and the projected special star (the projection is not modelled). */
  datatype Event =
    | Click(starDistance: real)
    | Touch(touches: nat)
    | Scroll(progress: real)
    | BurstCompleted

  /** What a handler starts besides changing flags. */
  datatype Effect = NoEffect | Navigate | FormText | Burst | CreateGlobe

  datatype Outcome = Outcome(flags: Flags, effect: Effect)

  /** State after construction: `isSpaceFormed` and `isMapFormed` are never
      assigned there, so they read as `undefined`, which the handlers treat as false. */
  const Init := Flags(false, false, false, false, false, false, None, 0, 0)

  /** Facts every reachable state satisfies. */
  predicate Inv(f: Flags) {
    && !f.mapFormed
    && !f.pinned
    && f.spaceFormed == f.globeInteraction
    && (f.spaceFormed ==> !f.textFormed && f.globes == 1)
    && (f.globes == 1 ==> f.spaceFormed)
    && f.globes <= 1
    && (f.specialStar == None || f.specialStar == Some(SpecialStar))
    && (f.pendingBursts > 0 || f.spaceFormed ==> f.specialStar == Some(SpecialStar))
  }

  /** `transformToText`: a no-op once the text is formed, otherwise it sets the flag. */
  function TransformToText(f: Flags): (r: Outcome)
    ensures f.textFormed ==> r == Outcome(f, NoEffect)
    ensures !f.textFormed ==> r.effect == FormText && r.flags.textFormed
    ensures r.flags.(textFormed := f.textFormed) == f
  {
    if f.textFormed then Outcome(f, NoEffect)
    else Outcome(f.(textFormed := true), FormText)
  }

  /** `burstParticles`: fixes the special star and schedules one completion. */
  function BurstParticles(f: Flags): (r: Outcome)
    ensures r.effect == Burst
    ensures r.flags.specialStar == Some(SpecialStar)
    ensures r.flags.pendingBursts == f.pendingBursts + 1
    ensures r.flags.(specialStar := f.specialStar, pendingBursts := f.pendingBursts) == f
  {
    Outcome(f.(specialStar := Some(SpecialStar), pendingBursts := f.pendingBursts + 1), Burst)
  }

  /** `onMouseClick`, its four checks in source order. */
  function OnClick(f: Flags, starDistance: real): (r: Outcome)
    ensures (f.spaceFormed && f.specialStar.Some? && starDistance < StarHitRadius)
              ==> r == Outcome(f, Navigate)
    ensures (!(f.spaceFormed && f.specialStar.Some? && starDistance < StarHitRadius)
             && (f.globeInteraction || f.spaceFormed))
              ==> r == Outcome(f, NoEffect)
    ensures (!f.globeInteraction && !f.spaceFormed && !f.textFormed)
              ==> r.effect == FormText && r.flags == f.(textFormed := true)
    ensures (!f.globeInteraction && !f.spaceFormed && f.textFormed && !f.mapFormed)
              ==> r == BurstParticles(f)
  {
    if f.spaceFormed && f.specialStar.Some? && starDistance < StarHitRadius then
      Outcome(f, Navigate)
    else if f.globeInteraction || f.spaceFormed then
      Outcome(f, NoEffect)
    else if !f.textFormed then
      TransformToText(f)
    else if !f.mapFormed then
      BurstParticles(f)
    else
      Outcome(f, NoEffect)
  }

  /** `onTouchStart`: outside globe mode any touch forms the text (if not formed yet). */
  function OnTouch(f: Flags, touches: nat): (r: Outcome)
    ensures r.effect == FormText <==>
              !f.globeInteraction && !f.spaceFormed && touches > 0 && !f.textFormed
    ensures r.effect == FormText ==> r.flags == f.(textFormed := true)
    ensures r.effect != FormText ==> r == Outcome(f, NoEffect)
  {
    if f.globeInteraction || f.spaceFormed then Outcome(f, NoEffect)
    else if touches > 0 then TransformToText(f)
    else Outcome(f, NoEffect)
  }

  /** `onScroll`: bursts a formed text once per downward pass and re-arms
      when the page scrolls back to the top tenth. */
  function OnScroll(f: Flags, progress: real): (r: Outcome)
    ensures progress > BurstScroll && f.textFormed && !f.bursted ==>
              && r.effect == Burst
              && r.flags == BurstParticles(f).flags.(bursted := true)
    ensures progress <= BurstScroll ==> r == Outcome(f.(bursted := false), NoEffect)
    ensures progress > BurstScroll && !(f.textFormed && !f.bursted) ==> r == Outcome(f, NoEffect)
  {
    if progress > BurstScroll && f.textFormed && !f.bursted then
      var b := BurstParticles(f);
      Outcome(b.flags.(bursted := true), b.effect)
    else if progress <= BurstScroll then
      Outcome(f.(bursted := false), NoEffect)
    else
      Outcome(f, NoEffect)
  }

  /** The delayed call that ends a burst: builds the globe if there is none and
      switches to space mode. With nothing scheduled there is nothing to fire. */
  function OnBurstCompleted(f: Flags): (r: Outcome)
    ensures f.pendingBursts == 0 ==> r == Outcome(f, NoEffect)
    ensures f.pendingBursts > 0 ==>
              && r.flags.pendingBursts == f.pendingBursts - 1
              && !r.flags.textFormed && r.flags.spaceFormed && r.flags.globeInteraction
              && r.flags.globes == (if f.globes == 0 then 1 else f.globes)
              && (r.effect == CreateGlobe <==> f.globes == 0)
  {
    if f.pendingBursts == 0 then Outcome(f, NoEffect)
    else
      var g := if f.globes == 0 then 1 else f.globes;
      Outcome(f.(pendingBursts := f.pendingBursts - 1, globes := g,
                 textFormed := false, spaceFormed := true, globeInteraction := true),
              if f.globes == 0 then CreateGlobe else NoEffect)
  }

  function Step(f: Flags, e: Event): (r: Outcome)
    ensures Inv(f) ==> Inv(r.flags)
    ensures r.flags.mapFormed == f.mapFormed && r.flags.pinned == f.pinned
    ensures r.effect == Burst ==> f.textFormed
    ensures Inv(f) && r.effect == Burst ==> !f.spaceFormed
    ensures r.effect == FormText ==> !f.textFormed && !f.spaceFormed
  {
    match e
    case Click(d) => OnClick(f, d)
    case Touch(n) => OnTouch(f, n)
    case Scroll(p) => OnScroll(f, p)
    case BurstCompleted => OnBurstCompleted(f)
  }

  datatype Trace = Trace(flags: Flags, effects: seq<Effect>)

  /** Feeds a sequence of events to the machine, collecting the effects. */
  function Run(f: Flags, es: seq<Event>): (r: Trace)
    ensures |r.effects| == |es|
    decreases |es|
  {
    if es == [] then Trace(f, [])
    else
      var o := Step(f, es[0]);
      var t := Run(o.flags, es[1..]);
      Trace(t.flags, [o.effect] + t.effects)
  }

  /** The invariant holds after any sequence of events. */
  lemma {:induction false} RunKeepsInv(f: Flags, es: seq<Event>)
    requires Inv(f)
    ensures Inv(Run(f, es).flags)
    decreases |es|
  {
    if es != [] {
      RunKeepsInv(Step(f, es[0]).flags, es[1..]);
    }
  }

  /** From construction, every reachable state satisfies the invariant; in
      particular `isMapFormed` is never set and `isPinned` never becomes true. */
  lemma Reachable(es: seq<Event>)
    ensures Inv(Run(Init, es).flags)
    ensures !Run(Init, es).flags.mapFormed
  {
    RunKeepsInv(Init, es);
  }

  /** Once the globe shows, space mode is never left, and no input forms the
      text or bursts again. */
  lemma {:induction false} SpaceIsTerminal(f: Flags, es: seq<Event>)
    requires Inv(f) && f.spaceFormed
    ensures Run(f, es).flags.spaceFormed
    ensures forall k | 0 <= k < |es| ::
              Run(f, es).effects[k] != FormText && Run(f, es).effects[k] != Burst
    decreases |es|
  {
    if es != [] {
      var o := Step(f, es[0]);
      assert o.flags.spaceFormed;
      SpaceIsTerminal(o.flags, es[1..]);
      var t := Run(o.flags, es[1..]);
      assert Run(f, es).effects == [o.effect] + t.effects;
      forall k | 0 <= k < |es|
        ensures Run(f, es).effects[k] != FormText && Run(f, es).effects[k] != Burst
      {
        if k > 0 {
          assert Run(f, es).effects[k] == t.effects[k - 1];
        }
      }
    }
  }

  /** Scrolling down, back to the top and down again bursts a formed text twice. */
  lemma ScrollRearmsBurst(f: Flags)
    requires Inv(f) && f.textFormed && !f.bursted
    ensures Run(f, [Scroll(0.5), Scroll(0.0), Scroll(0.5)]).effects == [Burst, NoEffect, Burst]
    ensures Run(f, [Scroll(0.5), Scroll(0.0), Scroll(0.5)]).flags.pendingBursts == f.pendingBursts + 2
  {
    var es := [Scroll(0.5), Scroll(0.0), Scroll(0.5)];
    assert es[1..] == [Scroll(0.0), Scroll(0.5)];
    assert es[1..][1..] == [Scroll(0.5)];
    assert es[1..][1..][1..] == [];
  }

  /** Every click while the text is formed (and before the burst completes)
      starts another burst. */
  lemma ClicksBurstAgain(f: Flags)
    requires Inv(f) && f.textFormed && !f.spaceFormed
    ensures Run(f, [Click(1.0), Click(1.0)]).effects == [Burst, Burst]
    ensures Run(f, [Click(1.0), Click(1.0)]).flags.pendingBursts == f.pendingBursts + 2
  {
    var es := [Click(1.0), Click(1.0)];
    assert es[1..] == [Click(1.0)];
    assert es[1..][1..] == [];
    var o1 := Step(f, es[0]);
    assert o1.flags.pendingBursts == f.pendingBursts + 1;
    assert o1.flags.textFormed && !o1.flags.spaceFormed && !o1.flags.globeInteraction;
  }
}

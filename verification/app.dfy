/** The landing application shell (src/App.js): which 3D scene is current,
    how the two scroll triggers switch between them, and which scene input
    reaches. Rendering, resizing and the animation loop are left out; the
    scenes are represented by the calls the shell makes on them. */
module App {
  import opened Wrappers
  import opened RealArith

  datatype SceneName = HeroScene | TunnelScene | DemoScene

  /** Only the hero scene defines `onMouseMove`. */
  predicate HasMouseHandler(s: SceneName) { s == HeroScene }

  /** Lifecycle calls, in the order the shell makes them. */
  datatype Lifecycle = Init(scene: SceneName) | Dispose(scene: SceneName)

  /** Input handed to a scene. */
  datatype Forward = HeroProgress(p: real) | TunnelProgress(p: real) | Pointer(x: real, y: real)

  datatype AppState = AppState(
    current: Option<SceneName>,
    lifecycle: seq<Lifecycle>,
    forwarded: seq<Forward>,
    width: real,
    height: real,
    mouse: (real, real))

  /** The constructor: no scene yet. */
  function Constructed(width: real, height: real): AppState {
    AppState(None, [], [], width, height, (0.0, 0.0))
  }

  /** `setupScenes`: the hero scene becomes current and is initialised once. */
  function SetupScenes(a: AppState): (r: AppState)
    ensures r.current == Some(HeroScene)
    ensures r.lifecycle == a.lifecycle + [Init(HeroScene)]
  {
    a.(current := Some(HeroScene), lifecycle := a.lifecycle + [Init(HeroScene)])
  }

  /** `transitionToScene`: dispose the current scene, if any, then make the
      named one current and initialise it. */
  function TransitionTo(a: AppState, name: SceneName): (r: AppState)
    ensures r.current == Some(name)
    ensures a.current.Some? ==> r.lifecycle == a.lifecycle + [Dispose(a.current.value), Init(name)]
    ensures a.current.None? ==> r.lifecycle == a.lifecycle + [Init(name)]
    ensures r.forwarded == a.forwarded
  {
    var disposed := if a.current.Some? then [Dispose(a.current.value)] else [];
    a.(current := Some(name), lifecycle := a.lifecycle + disposed + [Init(name)])
  }

  /** The scroll-trigger callbacks of the hero and feature sections. */
  datatype Trigger =
    | HeroUpdate(progress: real) | HeroLeave | HeroEnterBack
    | FeatureUpdate(progress: real) | FeatureLeave | FeatureEnterBack

  function OnTrigger(a: AppState, t: Trigger): (r: AppState)
    ensures t.HeroUpdate? ==>
              r.current == a.current && r.lifecycle == a.lifecycle
              && r.forwarded == a.forwarded + (if a.current == Some(HeroScene) then [HeroProgress(t.progress)] else [])
    ensures t.FeatureUpdate? ==>
              r.current == a.current && r.lifecycle == a.lifecycle
              && r.forwarded == a.forwarded + (if a.current == Some(TunnelScene) then [TunnelProgress(t.progress)] else [])
    ensures t == HeroLeave || t == FeatureEnterBack ==> r.current == Some(TunnelScene)
    ensures t == HeroEnterBack ==> r.current == Some(HeroScene)
    ensures t == FeatureLeave ==> r.current == Some(DemoScene)
  {
    match t
    case HeroUpdate(p) =>
      if a.current == Some(HeroScene) then a.(forwarded := a.forwarded + [HeroProgress(p)]) else a
    case HeroLeave => TransitionTo(a, TunnelScene)
    case HeroEnterBack => TransitionTo(a, HeroScene)
    case FeatureUpdate(p) =>
      if a.current == Some(TunnelScene) then a.(forwarded := a.forwarded + [TunnelProgress(p)]) else a
    case FeatureLeave => TransitionTo(a, DemoScene)
    case FeatureEnterBack => TransitionTo(a, TunnelScene)
  }

  /** Pointer position in normalised device coordinates: x from -1 at the
      left edge to 1 at the right, y from 1 at the top to -1 at the bottom. */
  function Ndc(clientX: real, clientY: real, width: real, height: real): (real, real)
    requires width > 0.0 && height > 0.0
  {
    ((clientX / width) * 2.0 - 1.0, -(clientY / height) * 2.0 + 1.0)
  }

  /** The corners of the window map to the corners of the NDC square, the
      map keeps the order of x and reverses that of y, and it is undone by
      scaling back. */
  lemma NdcCorners(clientX: real, clientY: real, width: real, height: real)
    requires width > 0.0 && height > 0.0
    ensures Ndc(0.0, 0.0, width, height) == (-1.0, 1.0)
    ensures Ndc(width, height, width, height) == (1.0, -1.0)
    ensures 0.0 <= clientX <= width && 0.0 <= clientY <= height ==>
              var m := Ndc(clientX, clientY, width, height);
              -1.0 <= m.0 <= 1.0 && -1.0 <= m.1 <= 1.0
    ensures var m := Ndc(clientX, clientY, width, height);
      (m.0 + 1.0) / 2.0 * width == clientX && (1.0 - m.1) / 2.0 * height == clientY
  {
    assert width / width == 1.0 && height / height == 1.0;
    var m := Ndc(clientX, clientY, width, height);
    assert (m.0 + 1.0) / 2.0 == clientX / width;
    assert (1.0 - m.1) / 2.0 == clientY / height;
    if 0.0 <= clientX <= width && 0.0 <= clientY <= height {
      UnitQuotient(clientX, width);
      UnitQuotient(clientY, height);
    }
  }

  lemma UnitQuotient(a: real, b: real)
    requires b > 0.0 && 0.0 <= a <= b
    ensures 0.0 <= a / b <= 1.0
  {
    if a < b {
      QuotientBelowOne(a, b);
    }
  }

  /** `onMouseMove`: the pointer is stored, and handed on only to a scene that handles it. */
  function OnMouseMove(a: AppState, clientX: real, clientY: real): (r: AppState)
    requires a.width > 0.0 && a.height > 0.0
    ensures r.mouse == Ndc(clientX, clientY, a.width, a.height)
    ensures r.current == a.current && r.lifecycle == a.lifecycle
    ensures r.forwarded == a.forwarded + (if a.current.Some? && HasMouseHandler(a.current.value) then [Pointer(r.mouse.0, r.mouse.1)] else [])
  {
    var m := Ndc(clientX, clientY, a.width, a.height);
    var forwarded := if a.current.Some? && HasMouseHandler(a.current.value) then a.forwarded + [Pointer(m.0, m.1)] else a.forwarded;
    a.(mouse := m, forwarded := forwarded)
  }

  /** `onTouchMove`: the first touch acts as the pointer; no touch, no change. */
  function OnTouchMove(a: AppState, touches: seq<(real, real)>): (r: AppState)
    requires a.width > 0.0 && a.height > 0.0
    ensures touches == [] ==> r == a
    ensures touches != [] ==> r == OnMouseMove(a, touches[0].0, touches[0].1)
  {
    if touches == [] then a else OnMouseMove(a, touches[0].0, touches[0].1)
  }

  /** The lifecycle log of a running shell: the hero's first `init`, then
      for every switch the `dispose` of the scene last initialised followed
      by the `init` of the next, the last of which is the current scene. */
  predicate Alternating(log: seq<Lifecycle>, cur: SceneName)
    decreases |log|
  {
    if |log| < 3 then log == [Init(HeroScene)] && cur == HeroScene
    else log[|log| - 1] == Init(cur) && log[|log| - 2].Dispose?
         && Alternating(log[..|log| - 2], log[|log| - 2].scene)
  }

  predicate Running(a: AppState) {
    a.current.Some? && a.width > 0.0 && a.height > 0.0 && Alternating(a.lifecycle, a.current.value)
  }

  function Inits(log: seq<Lifecycle>): nat {
    if log == [] then 0 else Inits(log[..|log| - 1]) + (if log[|log| - 1].Init? then 1 else 0)
  }

  function Disposals(log: seq<Lifecycle>): nat {
    if log == [] then 0 else Disposals(log[..|log| - 1]) + (if log[|log| - 1].Dispose? then 1 else 0)
  }

  /** In an alternating log exactly one scene is live: one more `init` than `dispose`. */
  lemma {:induction false} OneLiveScene(log: seq<Lifecycle>, cur: SceneName)
    requires Alternating(log, cur)
    ensures Inits(log) == Disposals(log) + 1
    decreases |log|
  {
    if |log| >= 3 {
      var pre := log[..|log| - 2];
      var mid := log[..|log| - 1];
      OneLiveScene(pre, log[|log| - 2].scene);
      assert mid[..|mid| - 1] == pre;
    }
  }

  datatype Event = Scroll(t: Trigger) | Mouse(x: real, y: real) | Touch(touches: seq<(real, real)>)

  function OnEvent(a: AppState, e: Event): AppState
    requires a.width > 0.0 && a.height > 0.0
  {
    match e
    case Scroll(t) => OnTrigger(a, t)
    case Mouse(x, y) => OnMouseMove(a, x, y)
    case Touch(ts) => OnTouchMove(a, ts)
  }

  /** Every input keeps the shell running: the lifecycle stays alternating,
      so the scene being left is always disposed before the next is initialised. */
  lemma EventKeepsRunning(a: AppState, e: Event)
    requires Running(a)
    ensures Running(OnEvent(a, e))
  {
    var r := OnEvent(a, e);
    if r.lifecycle != a.lifecycle {
      var log := r.lifecycle;
      assert log == a.lifecycle + [Dispose(a.current.value), Init(r.current.value)];
      assert log[..|log| - 2] == a.lifecycle;
    }
  }

  function Run(a: AppState, es: seq<Event>): AppState
    requires a.width > 0.0 && a.height > 0.0
    decreases |es|
  {
    if es == [] then a
    else
      var a' := OnEvent(a, es[0]);
      if a'.width > 0.0 && a'.height > 0.0 then Run(a', es[1..]) else a'
  }

  /** From setup on, any sequence of inputs leaves exactly one live scene,
      and that scene is the current one. */
  lemma {:induction false} RunKeepsOneScene(a: AppState, es: seq<Event>)
    requires Running(a)
    ensures Running(Run(a, es))
    ensures Inits(Run(a, es).lifecycle) == Disposals(Run(a, es).lifecycle) + 1
    decreases |es|
  {
    if es == [] {
      OneLiveScene(a.lifecycle, a.current.value);
    } else {
      EventKeepsRunning(a, es[0]);
      RunKeepsOneScene(OnEvent(a, es[0]), es[1..]);
    }
  }

  /** Setting up a freshly constructed shell starts it running. */
  lemma SetupRuns(width: real, height: real)
    requires width > 0.0 && height > 0.0
    ensures Running(SetupScenes(Constructed(width, height)))
  {
  }
}

/** The feature tunnel (src/scenes/FeatureTunnel.js): where the feature
    panels sit along the tunnel curve and how scrolling highlights them.

    The curve itself (a Catmull-Rom spline through sine-shaped points) is
    left out: a panel is described by its curve parameter `t` and its
    sideways shift, and `onScroll`'s camera tweens are not modelled. */
module Tunnel {
  import opened RealArith

  /** The four features the scene presents. */
  const FeatureCount: nat := 4

  /** Floating ornaments created around each panel. */
  const FloatersPerPanel: nat := 5

  /** `(index + 1) / (n + 1)`: `n` slots spread evenly strictly inside (0, 1). */
  function Slot(index: nat, n: nat): real {
    (index + 1) as real / (n + 1) as real
  }

  lemma {:induction false} SlotInside(index: nat, n: nat)
    requires index < n
    ensures 0.0 < Slot(index, n) < 1.0
  {
    QuotientBelowOne((index + 1) as real, (n + 1) as real);
  }

  lemma {:induction false} SlotIncreasing(i: nat, j: nat, n: nat)
    requires i < j
    ensures Slot(i, n) < Slot(j, n)
  {
    var d := (n + 1) as real;
    assert Slot(j, n) - Slot(i, n) == (j - i) as real / d;
  }

  /** A panel: the feature it shows, the curve parameter it was placed at,
      and the x shift added to the curve point. */
  datatype Panel = Panel(feature: nat, t: real, shift: real)

  /** The panel `createFeaturePanels` makes for feature `index`: even
      features to the right of the curve, odd ones to the left. */
  function MakePanel(index: nat): (p: Panel)
    requires index < FeatureCount
    ensures p.feature == index && p.t == Slot(index, FeatureCount)
    ensures p.shift == (if index % 2 == 0 then 5.0 else -5.0)
    ensures 0.0 < p.t < 1.0
  {
    SlotInside(index, FeatureCount);
    Panel(index, Slot(index, FeatureCount), if index % 2 == 0 then 5.0 else -5.0)
  }

  function FeaturePanels(): (ps: seq<Panel>)
    ensures |ps| == FeatureCount
    ensures forall i :: 0 <= i < FeatureCount ==> ps[i] == MakePanel(i)
  {
    seq(FeatureCount, i requires 0 <= i < FeatureCount => MakePanel(i))
  }

  /** Panels further along the feature list sit further along the curve,
      on alternating sides. */
  lemma PanelsAlongCurve()
    ensures forall i, j :: 0 <= i < j < FeatureCount ==> FeaturePanels()[i].t < FeaturePanels()[j].t
    ensures forall i :: 0 <= i < FeatureCount - 1 ==> FeaturePanels()[i].shift == -FeaturePanels()[i + 1].shift
  {
    forall i, j | 0 <= i < j < FeatureCount ensures FeaturePanels()[i].t < FeaturePanels()[j].t {
      SlotIncreasing(i, j, FeatureCount);
    }
  }

  /** The panel list and the number of floaters created so far. */
  datatype Scene = Scene(panels: seq<Panel>, floaters: nat)

  const Constructed := Scene([], 0)

  /** `init` as written: `createFeaturePanels` pushes onto the panel list
      the scene already holds. `dispose` frees the panels' GPU resources
      but never empties the list, so a scene that is left and re-entered
      carries every earlier set of panels. */
  function InitAsWritten(s: Scene): (r: Scene)
    ensures r.panels == s.panels + FeaturePanels()
    ensures r.floaters == s.floaters + FeatureCount * FloatersPerPanel
  {
    Scene(s.panels + FeaturePanels(), s.floaters + FeatureCount * FloatersPerPanel)
  }

  /** `init` with the panel list started afresh, so that the scene holds one
      panel per feature however often it is entered. */
  function Init(s: Scene): (r: Scene)
    ensures r.panels == FeaturePanels()
    ensures r.floaters == s.floaters + FeatureCount * FloatersPerPanel
  {
    Scene(FeaturePanels(), s.floaters + FeatureCount * FloatersPerPanel)
  }

  /** The tween targets `onScroll` sets on one panel. */
  datatype Highlight = Highlight(scale: real, opacity: real, emissive: real)

  /** The targets for a panel at distance `d` from the scroll position. */
  function HighlightAt(d: real): (h: Highlight)
    ensures h.opacity - 0.5 == 2.5 * (h.scale - 1.0)
    ensures h.emissive - 0.2 == 1.5 * (h.scale - 1.0)
    ensures 0.0 <= d < 1.0 ==> 1.0 < h.scale <= 1.2 && 0.5 < h.opacity <= 1.0 && 0.2 < h.emissive <= 0.5
    ensures h.scale == 1.2 <==> d == 0.0
  {
    Highlight(1.0 + (1.0 - d) * 0.2, 0.5 + (1.0 - d) * 0.5, 0.2 + (1.0 - d) * 0.3)
  }

  /** The nearer a panel is to the scroll position, the larger, more opaque
      and brighter its targets. */
  lemma HighlightFalls(d1: real, d2: real)
    requires d1 < d2
    ensures HighlightAt(d1).scale > HighlightAt(d2).scale
    ensures HighlightAt(d1).opacity > HighlightAt(d2).opacity
    ensures HighlightAt(d1).emissive > HighlightAt(d2).emissive
  {
  }

  /** `onScroll`'s panel pass: the k-th panel of the list is compared with
      slot k of `panels.length` slots. */
  function OnScroll(panels: seq<Panel>, progress: real): (hs: seq<Highlight>)
    ensures |hs| == |panels|
    ensures forall k :: 0 <= k < |panels| ==> hs[k] == HighlightAt(Abs(progress - Slot(k, |panels|)))
  {
    seq(|panels|, k requires 0 <= k < |panels| => HighlightAt(Abs(progress - Slot(k, |panels|))))
  }

  /** For scroll progress in [0, 1] every target stays in its range. */
  lemma HighlightBounds(panels: seq<Panel>, progress: real)
    requires 0.0 <= progress <= 1.0
    ensures forall k :: 0 <= k < |panels| ==>
              var h := OnScroll(panels, progress)[k];
              1.0 < h.scale <= 1.2 && 0.5 < h.opacity <= 1.0 && 0.2 < h.emissive <= 0.5
  {
    forall k | 0 <= k < |panels| ensures 0.0 <= Abs(progress - Slot(k, |panels|)) < 1.0 {
      SlotInside(k, |panels|);
    }
  }

  function Enter(s: Scene, times: nat): Scene
    decreases times
  {
    if times == 0 then s else Enter(Init(s), times - 1)
  }

  /** With the list started afresh, every entry leaves one panel per
      feature, and each panel is fully highlighted exactly when the scroll
      position reaches the curve parameter it was placed at. */
  lemma HighlightMatchesPlacement(times: nat, progress: real)
    requires times > 0
    ensures var ps := Enter(Constructed, times).panels;
      |ps| == FeatureCount
      && forall k :: 0 <= k < |ps| ==> (OnScroll(ps, progress)[k].scale == 1.2 <==> progress == ps[k].t)
  {
    EnterAfresh(Constructed, times);
  }

  lemma {:induction false} EnterAfresh(s: Scene, times: nat)
    requires times > 0
    ensures Enter(s, times).panels == FeaturePanels()
    decreases times
  {
    if times > 1 {
      EnterAfresh(Init(s), times - 1);
    }
  }

  /** As written, entering the tunnel a second time leaves eight panels, and
      the first panel, placed at t = 1/5, is no longer fully highlighted when
      the scroll position reaches it: its slot is now 1/9. */
  lemma ReentryMisplacesHighlight()
    ensures var ps := InitAsWritten(InitAsWritten(Constructed)).panels;
      |ps| == 2 * FeatureCount
      && ps[0].t == 0.2
      && OnScroll(ps, ps[0].t)[0].scale < 1.2
  {
    var ps := InitAsWritten(InitAsWritten(Constructed)).panels;
    assert ps[0] == MakePanel(0);
    assert Slot(0, |ps|) == 1.0 / 9.0;
  }
}

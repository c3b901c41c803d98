/** The client-side router (src/router.js).

    The route table maps a pathname to a page module. Handling a route loads
    the module (which may fail), destroys the current page when it has a
    `destroy` method, then constructs and renders the new page. Loading is
    asynchronous in the source; here its outcome is a parameter, and the
    page lifecycle calls are recorded in order. */
module Router {
  import opened Wrappers

  datatype PageModule = IsperPage | MapsPage | CompanyPage | NewsPage | ContactPage

  /** The `routes` object. */
  const Routes: map<string, PageModule> := map[
    "/" := IsperPage,
    "/isper" := IsperPage,
    "/maps" := MapsPage,
    "/company" := CompanyPage,
    "/news" := NewsPage,
    "/contact" := ContactPage]

  /** `this.routes[path] || this.routes['/']`. */
  function Lookup(path: string): (m: PageModule)
    ensures path in Routes ==> m == Routes[path]
    ensures path !in Routes ==> m == IsperPage
  {
    if path in Routes then Routes[path] else Routes["/"]
  }

  datatype Page = Page(kind: PageModule, hasDestroy: bool)

  /** The dynamic `import()`: the module, and whether its page class defines
      `destroy`, or a failure. */
  datatype Load = Loaded(hasDestroy: bool) | LoadFailed

  datatype Call = Destroy(m: PageModule) | Construct(m: PageModule) | Render(m: PageModule)

  datatype State = State(history: seq<string>, current: Option<Page>, calls: seq<Call>)

  const Boot := State([], None, [])

  /** `handleRoute` for the current pathname. */
  function HandleRoute(s: State, path: string, load: Load): (r: State)
    ensures r.history == s.history
    ensures load == LoadFailed ==> r == s
    ensures load.Loaded? ==> r.current == Some(Page(Lookup(path), load.hasDestroy))
    ensures load.Loaded? ==>
              r.calls == s.calls
                         + (if s.current.Some? && s.current.value.hasDestroy
                            then [Destroy(s.current.value.kind)] else [])
                         + [Construct(Lookup(path)), Render(Lookup(path))]
  {
    match load
    case LoadFailed => s
    case Loaded(hasDestroy) =>
      var m := Lookup(path);
      var cleanup := if s.current.Some? && s.current.value.hasDestroy
                     then [Destroy(s.current.value.kind)] else [];
      State(s.history, Some(Page(m, hasDestroy)), s.calls + cleanup + [Construct(m), Render(m)])
  }

  /** The pathname the location holds after pushing `href`: the part before
      the first `?` (query) or `#` (fragment). */
  function PathOf(href: string): (p: string)
    ensures p <= href
    ensures '?' !in p && '#' !in p
    ensures |p| < |href| ==> href[|p|] == '?' || href[|p|] == '#'
    decreases |href|
  {
    if href == [] || href[0] == '?' || href[0] == '#' then []
    else [href[0]] + PathOf(href[1..])
  }

  /** `navigate(path)`: push the path, then handle the pathname it leaves in
      the location. */
  function Navigate(s: State, path: string, load: Load): (r: State)
    ensures r.history == s.history + [path]
    ensures load == LoadFailed ==> r.current == s.current
    ensures load.Loaded? ==> r.current == Some(Page(Lookup(PathOf(path)), load.hasDestroy))
  {
    HandleRoute(s.(history := s.history + [path]), PathOf(path), load)
  }

  /** A path followed by a query or fragment has that path as its pathname. */
  lemma {:induction false} PathOfSplit(p: string, q: string)
    requires '?' !in p && '#' !in p
    requires q == [] || q[0] == '?' || q[0] == '#'
    ensures PathOf(p + q) == p
    decreases |p|
  {
    if p != [] {
      assert (p + q)[0] == p[0];
      assert (p + q)[1..] == p[1..] + q;
      PathOfSplit(p[1..], q);
    } else {
      assert p + q == q;
    }
  }

  /** Appending a query or a fragment to a link leaves the page it opens
      unchanged; only the history entry differs. */
  lemma QueryIgnored(s: State, p: string, q: string, load: Load)
    requires '?' !in p && '#' !in p
    requires q == [] || q[0] == '?' || q[0] == '#'
    ensures Navigate(s, p + q, load).current == Navigate(s, p, load).current
    ensures Navigate(s, p + q, load).history == s.history + [p + q]
  {
    PathOfSplit(p, q);
    PathOfSplit(p, []);
    assert p + [] == p;
  }

  /** The element a click lands on: an anchor with its `href` attribute, or anything else. */
  datatype Target = Anchor(href: Option<string>) | OtherElement

  /** `e.target.matches('a[href^="/"]')`. */
  predicate Intercepts(t: Target) {
    t.Anchor? && t.href.Some? && |t.href.value| > 0 && t.href.value[0] == '/'
  }

  /** The document click listener: intercepted clicks navigate in place; all
      others are left to the browser. */
  function OnClick(s: State, t: Target, load: Load): (r: Option<State>)
    ensures r.Some? <==> Intercepts(t)
    ensures r.Some? ==> r.value.history == s.history + [t.href.value]
    ensures r.Some? && load.Loaded? ==>
              r.value.current == Some(Page(Lookup(PathOf(t.href.value)), load.hasDestroy))
  {
    if Intercepts(t) then Some(Navigate(s, t.href.value, load)) else None
  }

  /** The previous page is destroyed before the next one is constructed and
      rendered: in the call log, the new page's construction and rendering are
      the last two entries and the destruction, if any, comes just before them. */
  lemma DestroyBeforeConstruct(s: State, path: string, hd: bool)
    requires s.current.Some? && s.current.value.hasDestroy
    ensures var r := HandleRoute(s, path, Loaded(hd));
      && |r.calls| == |s.calls| + 3
      && r.calls[|s.calls|] == Destroy(s.current.value.kind)
      && r.calls[|s.calls| + 1] == Construct(Lookup(path))
      && r.calls[|s.calls| + 2] == Render(Lookup(path))
  {
  }

  /** '/' and '/isper' load the same page, and every path outside the table falls back to it. */
  lemma RootAliases(path: string)
    ensures Lookup("/") == Lookup("/isper") == IsperPage
    ensures path !in Routes ==> Lookup(path) == Lookup("/")
  {
  }

  /** Every construction in the log is immediately followed by rendering the
      same page, and every destruction by a construction. */
  predicate WellOrdered(calls: seq<Call>) {
    && (forall i | 0 <= i < |calls| && calls[i].Construct? :: i + 1 < |calls| && calls[i + 1] == Render(calls[i].m))
    && (forall i | 0 <= i < |calls| && calls[i].Destroy? :: i + 1 < |calls| && calls[i + 1].Construct?)
  }

  /** Any sequence of route handlings keeps the call log well ordered. */
  lemma {:induction false} HandlingKeepsOrder(s: State, paths: seq<string>, loads: seq<Load>)
    requires |paths| == |loads| && WellOrdered(s.calls)
    ensures WellOrdered(HandleAll(s, paths, loads).calls)
    decreases |paths|
  {
    if paths != [] {
      var s' := HandleRoute(s, paths[0], loads[0]);
      var c := s.calls;
      var c' := s'.calls;
      if loads[0].Loaded? {
        forall i | 0 <= i < |c'| && c'[i].Construct?
          ensures i + 1 < |c'| && c'[i + 1] == Render(c'[i].m)
        {
          if i < |c| {
            assert c'[i] == c[i] && c'[i + 1] == c[i + 1];
          }
        }
        forall i | 0 <= i < |c'| && c'[i].Destroy?
          ensures i + 1 < |c'| && c'[i + 1].Construct?
        {
          if i < |c| {
            assert c'[i] == c[i] && c'[i + 1] == c[i + 1];
          }
        }
      }
      HandlingKeepsOrder(s', paths[1..], loads[1..]);
    }
  }

  function HandleAll(s: State, paths: seq<string>, loads: seq<Load>): State
    requires |paths| == |loads|
    decreases |paths|
  {
    if paths == [] then s else HandleAll(HandleRoute(s, paths[0], loads[0]), paths[1..], loads[1..])
  }
}

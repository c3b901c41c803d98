/** The floating dock menu (src/components/DockBar.js): expanding and
    collapsing, the active-item match against the location hash, and the
    one-time style insertion. */
module DockBar {
  import opened Wrappers

  /** `isExpanded` and whether the element carries the `expanded` class. */
  datatype Dock = Dock(isExpanded: bool, classExpanded: bool)

  const Fresh := Dock(false, false)

  predicate Mirrors(d: Dock) { d.classExpanded == d.isExpanded }

  /** Where a document click lands. The toggle sits inside the dock, so a
      toggle click reaches the document listener as an inside click. */
  datatype Click = OnToggle | InsideDock | Outside

  /** Both click listeners, in the order they fire. */
  function OnClick(d: Dock, c: Click): (r: Dock)
    ensures c == OnToggle ==> r.isExpanded == !d.isExpanded && Mirrors(r)
    ensures c == InsideDock ==> r == d
    ensures c == Outside && d.isExpanded ==> r == Fresh
    ensures c == Outside && !d.isExpanded ==> r == d
    ensures Mirrors(d) ==> Mirrors(r)
  {
    match c
    case OnToggle => Dock(!d.isExpanded, !d.isExpanded)
    case InsideDock => d
    case Outside => if d.isExpanded then Dock(false, false) else d
  }

  /** An outside click never opens the dock, and a second toggle click undoes the first. */
  lemma ToggleTwice(d: Dock)
    requires Mirrors(d)
    ensures OnClick(OnClick(d, OnToggle), OnToggle) == d
    ensures !OnClick(d, Outside).isExpanded
  {
  }

  /** `String.prototype.split('#')`: the pieces between the separators. */
  function Split(s: string): (parts: seq<string>)
    ensures |parts| >= 1
    ensures forall k :: 0 <= k < |parts| ==> '#' !in parts[k]
    ensures Join(parts) == s
  {
    if s == [] then [[]]
    else
      var rest := Split(s[1..]);
      if s[0] == '#' then [[]] + rest
      else
        JoinCons(s[0], rest);
        [[s[0]] + rest[0]] + rest[1..]
  }

  /** Putting the pieces back together with '#' between them. */
  function Join(parts: seq<string>): string
    requires |parts| >= 1
    decreases |parts|
  {
    if |parts| == 1 then parts[0] else parts[0] + "#" + Join(parts[1..])
  }

  lemma JoinCons(c: char, parts: seq<string>)
    requires |parts| >= 1
    ensures Join([[c] + parts[0]] + parts[1..]) == [c] + Join(parts)
  {
    if |parts| == 1 {
      JoinConsOne(c, parts);
    } else {
      JoinConsMore(c, parts);
    }
  }

  lemma JoinConsOne(c: char, parts: seq<string>)
    requires |parts| == 1
    ensures Join([[c] + parts[0]] + parts[1..]) == [c] + Join(parts)
  {
    var q := [[c] + parts[0]] + parts[1..];
    assert |q| == 1;
  }

  lemma JoinConsMore(c: char, parts: seq<string>)
    requires |parts| > 1
    ensures Join([[c] + parts[0]] + parts[1..]) == [c] + Join(parts)
  {
    var q := [[c] + parts[0]] + parts[1..];
    assert q[1..] == parts[1..];
  }

  /** `href.split('#')[1]`, which is `undefined` when the href has no '#'. */
  function ItemPath(href: string): (p: Option<string>)
    ensures p.Some? ==> '#' !in p.value
    ensures p.None? <==> '#' !in href
  {
    var parts := Split(href);
    if |parts| > 1 then Some(parts[1])
    else
      assert href == parts[0];
      None
  }

  /** `window.location.hash || '#/'`. */
  function CurrentPath(hash: string): (p: string)
    requires hash == [] || hash[0] == '#'
    ensures |p| > 0 && p[0] == '#'
    ensures hash != [] ==> p == hash
  {
    if hash == [] then "#/" else hash
  }

  /** The page every dock item links to, and the route after its '#'. */
  const SitePage := "/isper-site.html"
  const DockRoutes: seq<string> := ["/", "/maps", "/company", "/news", "/contact"]

  /** The `href` of the five dock items: Home, Maps, Company, News, Contact. */
  const DockHrefs: seq<string> := seq(|DockRoutes|, i requires 0 <= i < |DockRoutes| => SitePage + "#" + DockRoutes[i])

  /** `updateActiveItem`: the `active` class of each dock item. */
  function ActiveItems(hrefs: seq<string>, hash: string): (a: seq<bool>)
    requires hash == [] || hash[0] == '#'
    ensures |a| == |hrefs|
    ensures forall i :: 0 <= i < |a| ==> (a[i] <==> ItemPath(hrefs[i]) == Some(CurrentPath(hash)))
  {
    seq(|hrefs|, i requires 0 <= i < |hrefs| => ItemPath(hrefs[i]) == Some(CurrentPath(hash)))
  }

  /** The compared path always begins with '#', while the piece after the
      first '#' of an href never contains one: no dock item is ever marked
      active, whatever the hash and whatever the hrefs. */
  lemma NoItemEverActive(hrefs: seq<string>, hash: string)
    requires hash == [] || hash[0] == '#'
    ensures forall i :: 0 <= i < |hrefs| ==> !ActiveItems(hrefs, hash)[i]
  {
    var a := ActiveItems(hrefs, hash);
    forall i | 0 <= i < |hrefs| ensures !a[i] {
      var p := ItemPath(hrefs[i]);
      var cur := CurrentPath(hash);
      assert cur[0] == '#';
    }
  }

  /** A string without '#' splits into itself alone. */
  lemma {:induction false} SplitNoHash(s: string)
    requires '#' !in s
    ensures Split(s) == [s]
    decreases |s|
  {
    if s != [] {
      assert '#' !in s[1..];
      SplitNoHash(s[1..]);
    }
  }

  /** One '#' between two '#'-free pieces splits into exactly those pieces. */
  lemma {:induction false} SplitAtHash(pre: string, post: string)
    requires '#' !in pre && '#' !in post
    ensures Split(pre + "#" + post) == [pre, post]
    decreases |pre|
  {
    var s := pre + "#" + post;
    if pre == [] {
      assert s[1..] == post;
      SplitNoHash(post);
    } else {
      assert s[1..] == pre[1..] + "#" + post;
      assert '#' !in pre[1..];
      SplitAtHash(pre[1..], post);
      assert [pre[0]] + pre[1..] == pre;
    }
  }

  /** The comparison `updateActiveItem` evidently intends: the fragment of
      the href, with its '#' put back, against the current hash. */
  function IntendedActiveItems(hrefs: seq<string>, hash: string): (a: seq<bool>)
    requires hash == [] || hash[0] == '#'
    ensures |a| == |hrefs|
  {
    seq(|hrefs|, i requires 0 <= i < |hrefs| =>
      var p := ItemPath(hrefs[i]);
      p.Some? && "#" + p.value == CurrentPath(hash))
  }

  /** With the intended comparison, a dock item is active exactly when the
      location hash names its route, and with no hash the Home item is. */
  lemma IntendedHighlightsCurrent(hash: string)
    requires hash == [] || hash[0] == '#'
    ensures forall i :: 0 <= i < |DockHrefs| ==>
              (IntendedActiveItems(DockHrefs, hash)[i] <==> CurrentPath(hash) == "#" + DockRoutes[i])
    ensures hash == [] ==> IntendedActiveItems(DockHrefs, hash)[0]
  {
    forall i | 0 <= i < |DockHrefs|
      ensures ItemPath(DockHrefs[i]) == Some(DockRoutes[i])
    {
      assert '#' !in DockRoutes[i] by {
        assert DockRoutes[i] in DockRoutes;
      }
      SplitAtHash(SitePage, DockRoutes[i]);
    }
  }

  /** `addStyles`: the number of `#dock-bar-styles` elements after a call. */
  function AddStyles(styles: nat): (r: nat)
    ensures styles == 0 ==> r == 1
    ensures styles > 0 ==> r == styles
  {
    if styles > 0 then styles else styles + 1
  }

  function RenderTimes(styles: nat, n: nat): nat
    decreases n
  {
    if n == 0 then styles else RenderTimes(AddStyles(styles), n - 1)
  }

  /** However many dock bars are rendered into a page that had none, exactly
      one style element is inserted. */
  lemma {:induction false} StylesOnce(styles: nat, n: nat)
    requires styles <= 1 && n > 0
    ensures RenderTimes(styles, n) == 1
    decreases n
  {
    if n > 1 {
      StylesOnce(AddStyles(styles), n - 1);
    }
  }
}

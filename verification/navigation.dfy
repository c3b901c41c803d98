/** The site navigation bar (src/components/Navigation.js): which link is
    highlighted for the current path, and the mobile menu toggle. */
module Navigation {

  /** The `href` of every `.nav-link`, in document order. The logo links to
      "/" but is not a `.nav-link`, so it never takes part in highlighting. */
  const NavLinks: seq<string> := ["/isper", "/maps", "/company", "/news", "/contact"]

  /** `updateActiveLink`: the `active` class of each link after comparing its
      `href` with the pathname. */
  function ActiveLinks(hrefs: seq<string>, path: string): (a: seq<bool>)
    ensures |a| == |hrefs|
    ensures forall i :: 0 <= i < |a| ==> (a[i] <==> hrefs[i] == path)
  {
    if hrefs == [] then [] else [hrefs[0] == path] + ActiveLinks(hrefs[1..], path)
  }

  function CountTrue(a: seq<bool>): nat {
    if a == [] then 0 else (if a[0] then 1 else 0) + CountTrue(a[1..])
  }

  predicate Distinct(s: seq<string>) {
    forall i, j :: 0 <= i < j < |s| ==> s[i] != s[j]
  }

  /** With distinct hrefs, exactly one link is highlighted when the path is
      one of them and none otherwise. */
  lemma {:induction false} ActiveCount(hrefs: seq<string>, path: string)
    requires Distinct(hrefs)
    ensures CountTrue(ActiveLinks(hrefs, path)) == (if path in hrefs then 1 else 0)
  {
    if hrefs != [] {
      var rest := hrefs[1..];
      assert Distinct(rest) by {
        forall i, j | 0 <= i < j < |rest| ensures rest[i] != rest[j] {
          assert rest[i] == hrefs[i + 1] && rest[j] == hrefs[j + 1];
        }
      }
      ActiveCount(rest, path);
      var a := ActiveLinks(hrefs, path);
      assert a[1..] == ActiveLinks(rest, path);
      if hrefs[0] == path {
        assert path !in rest by {
          forall k | 0 <= k < |rest| ensures rest[k] != path {
            assert rest[k] == hrefs[k + 1];
          }
        }
      } else {
        assert path in hrefs <==> path in rest by {
          assert hrefs == [hrefs[0]] + rest;
        }
      }
    }
  }

  /** On the site's own links: the pages "/isper" … "/contact" highlight one
      link each, while "/" (the landing page) and unknown paths highlight none. */
  lemma SiteHighlighting(path: string)
    ensures CountTrue(ActiveLinks(NavLinks, path)) == (if path in NavLinks then 1 else 0)
    ensures CountTrue(ActiveLinks(NavLinks, "/")) == 0
  {
    assert Distinct(NavLinks);
    ActiveCount(NavLinks, path);
    ActiveCount(NavLinks, "/");
  }

  /** The `active` class on the links container and on the toggle. */
  datatype Menu = Menu(linksOpen: bool, toggleOpen: bool)

  const Closed := Menu(false, false)

  predicate InStep(m: Menu) { m.linksOpen == m.toggleOpen }

  datatype MenuEvent = ToggleClick | LinkClick

  /** The toggle flips both classes; clicking any nav link removes both. */
  function OnMenu(m: Menu, e: MenuEvent): (r: Menu)
    ensures e == ToggleClick ==> r.linksOpen == !m.linksOpen && r.toggleOpen == !m.toggleOpen
    ensures e == LinkClick ==> r == Closed
    ensures InStep(m) ==> InStep(r)
  {
    match e
    case ToggleClick => Menu(!m.linksOpen, !m.toggleOpen)
    case LinkClick => Closed
  }

  function RunMenu(m: Menu, es: seq<MenuEvent>): Menu
    decreases |es|
  {
    if es == [] then m else RunMenu(OnMenu(m, es[0]), es[1..])
  }

  function Toggles(es: seq<MenuEvent>): nat {
    if es == [] then 0 else (if es[0] == ToggleClick then 1 else 0) + Toggles(es[1..])
  }

  /** Starting closed, the container and the toggle always agree, and with
      only toggle clicks the menu is open exactly after an odd number of them. */
  lemma {:induction false} MenuInStep(m: Menu, es: seq<MenuEvent>)
    requires InStep(m)
    ensures InStep(RunMenu(m, es))
    ensures (forall k :: 0 <= k < |es| ==> es[k] == ToggleClick) ==>
              RunMenu(m, es).linksOpen == (m.linksOpen != (Toggles(es) % 2 == 1))
    decreases |es|
  {
    if es != [] {
      MenuInStep(OnMenu(m, es[0]), es[1..]);
      if forall k :: 0 <= k < |es| ==> es[k] == ToggleClick {
        assert forall k :: 0 <= k < |es[1..]| ==> es[1..][k] == ToggleClick by {
          forall k | 0 <= k < |es[1..]| ensures es[1..][k] == ToggleClick {
            assert es[1..][k] == es[k + 1];
          }
        }
      }
    }
  }
}

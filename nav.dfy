/**
 * The "Orders" header link (content.js, checkAndAddNav): find an insertion
 * point among three ranked anchors, insert at most one marked link after it,
 * and keep the link's inactive styling in step with the current path.
 */
module Nav {
  import opened JsValues
  import opened Route

  /** Where the link goes: after the Explore link, the Home link, or the Shop logo. */
  datatype Anchor = AfterExplore | AfterHome | AfterLogo

  /** Which of the host's header anchors are currently rendered. */
  datatype Anchors = Anchors(explore: bool, home: bool, logo: bool, logoHasParent: bool)

  /**
   * One `a[data-testid="HeaderLink-Orders"]` element: the anchor it was
   * inserted after, whether it holds a `<p>`, and whether that `<p>` carries
   * the `opacity-50` (inactive) class.
   */
  datatype NavLink = NavLink(after: Anchor, hasParagraph: bool, dimmed: bool)

  /** The anchors in the order they are tried. */
  const Candidates: seq<Anchor> := [AfterExplore, AfterHome, AfterLogo]

  function Rank(a: Anchor): (k: nat)
    ensures k < |Candidates| && Candidates[k] == a
  {
    match a
    case AfterExplore => 0
    case AfterHome => 1
    case AfterLogo => 2
  }

  /** The anchor is usable: present, and for the logo also attached to a parent. */
  predicate Resolves(h: Anchors, a: Anchor) {
    match a
    case AfterExplore => h.explore
    case AfterHome => h.home
    case AfterLogo => h.logo && h.logoHasParent
  }

  /**
   * The anchor locator: the first candidate that resolves; none when no
   * candidate does (the caller then simply does nothing).
   */
  function Locate(h: Anchors): (r: Option<Anchor>)
    ensures r.Some? ==> Resolves(h, r.value)
    ensures r.Some? ==> forall k :: 0 <= k < Rank(r.value) ==> !Resolves(h, Candidates[k])
    ensures r.None? <==> forall k :: 0 <= k < |Candidates| ==> !Resolves(h, Candidates[k])
  {
    assert Candidates[0] == AfterExplore && Candidates[1] == AfterHome && Candidates[2] == AfterLogo;
    if h.explore then Some(AfterExplore)
    else if h.home then Some(AfterHome)
    else if h.logo && h.logoHasParent then Some(AfterLogo)
    else None
  }

  /**
   * The effect of one checkAndAddNav call on the marked links (in document
   * order): with a link present only the first link's `<p>` is restyled;
   * otherwise one new link is inserted at the located anchor, if any.
   */
  function NavStep(h: Anchors, links: seq<NavLink>, pathname: string): (r: seq<NavLink>)
    ensures links != [] ==> |r| == |links| && r[1..] == links[1..]
    ensures links != [] ==> r[0].after == links[0].after && r[0].hasParagraph == links[0].hasParagraph
    ensures links != [] && !links[0].hasParagraph ==> r == links
    ensures links == [] && Locate(h).None? ==> r == []
    ensures links == [] && Locate(h).Some? ==> |r| == 1 && r[0].after == Locate(h).value && r[0].hasParagraph
  {
    if links != [] then
      if links[0].hasParagraph then [links[0].(dimmed := pathname != OrdersPath)] + links[1..] else links
    else
      match Locate(h)
      case None => []
      case Some(a) => [NavLink(a, true, pathname != OrdersPath)]
  }

  /** `n` consecutive calls on an unchanged header. */
  function NavRepeat(h: Anchors, links: seq<NavLink>, pathname: string, n: nat): seq<NavLink> {
    if n == 0 then links else NavStep(h, NavRepeat(h, links, pathname, n - 1), pathname)
  }

  /** Each call inserts zero or one link, and none once a link exists. */
  lemma NavStepInsertsAtMostOne(h: Anchors, links: seq<NavLink>, pathname: string)
    ensures |links| <= |NavStep(h, links, pathname)| <= |links| + 1
    ensures links != [] ==> |NavStep(h, links, pathname)| == |links|
  {
  }

  /**
   * After any call, a link holding a `<p>` is inactive exactly when the path
   * is not exactly "/orders", whether it was just created or already there.
   */
  lemma NavActiveState(h: Anchors, links: seq<NavLink>, pathname: string)
    requires links == [] || links[0].hasParagraph
    ensures var r := NavStep(h, links, pathname);
      r != [] ==> r[0].hasParagraph && (r[0].dimmed <==> pathname != OrdersPath)
  {
  }

  /** A second call on an unchanged header and path changes nothing. */
  lemma NavStepIdempotent(h: Anchors, links: seq<NavLink>, pathname: string)
    ensures NavStep(h, NavStep(h, links, pathname), pathname) == NavStep(h, links, pathname)
  {
  }

  /**
   * Any number of calls on an unchanged header leave what one call leaves:
   * starting without a link, exactly one link when some anchor resolves and
   * none otherwise.
   */
  lemma {:induction false} NavRepeatIsOneStep(h: Anchors, links: seq<NavLink>, pathname: string, n: nat)
    requires n >= 1
    ensures NavRepeat(h, links, pathname, n) == NavStep(h, links, pathname)
    ensures links == [] ==> |NavRepeat(h, links, pathname, n)| == (if Locate(h).Some? then 1 else 0)
  {
    if n > 1 {
      NavRepeatIsOneStep(h, links, pathname, n - 1);
      NavStepIdempotent(h, links, pathname);
    }
  }

  /** The host's header as the script sees it, with the marked links it holds. */
  class Header {
    var anchors: Anchors
    var links: seq<NavLink>

    constructor (anchors: Anchors)
      ensures this.anchors == anchors && links == []
    {
      this.anchors := anchors;
      links := [];
    }

    /**
     * checkAndAddNav. Returns the insertion method used, none when an
     * existing link was only restyled or no anchor was found.
     */
    method CheckAndAddNav(pathname: string) returns (insertion: Option<Anchor>)
      modifies this`links
      ensures links == NavStep(anchors, old(links), pathname)
      ensures insertion == (if old(links) == [] then Locate(anchors) else None)
      ensures |links| == |old(links)| + (if insertion.Some? then 1 else 0)
    {
      insertion := None;
      if links != [] {
        var link := links[0];
        if link.hasParagraph {
          if pathname == OrdersPath {
            link := link.(dimmed := false);
          } else {
            link := link.(dimmed := true);
          }
          links := [link] + links[1..];
        }
        return;
      }
      var insertAfter: Option<Anchor> := None;
      if anchors.explore {
        insertAfter := Some(AfterExplore);
      }
      if insertAfter.None? && anchors.home {
        insertAfter := Some(AfterHome);
      }
      if insertAfter.None? && anchors.logo && anchors.logoHasParent {
        insertAfter := Some(AfterLogo);
      }
      if insertAfter.Some? {
        var dimmed := pathname != OrdersPath;
        links := [NavLink(insertAfter.value, true, dimmed)];
        insertion := insertAfter;
      }
    }
  }
}

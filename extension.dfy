/**
 * initializeExtension (content.js): the first run on page load and the
 * document observer that re-runs the navigation link and the orders page on
 * every change of `location.href`.
 */
module Extension {
  import opened JsValues
  import opened Route
  import opened Nav
  import opened Mount

  /**
   * Page load: add the header link, handle the orders page, and start the
   * single URL watcher at the current href.
   */
  method Initialize(loc: Location, header: Header, page: OrdersPage)
    returns (watcher: UrlWatcher, mountScheduled: bool, load: Option<nat>)
    requires page.Valid()
    modifies header`links, page`title, page`content
    ensures fresh(watcher) && watcher.lastUrl == loc.href
    ensures header.anchors == old(header.anchors)
    ensures header.links == NavStep(header.anchors, old(header.links), loc.pathname)
    ensures page.Valid() && page.Layout() == old(page.Layout())
    ensures mountScheduled <==> loc.pathname == OrdersPath
    ensures loc.pathname == OrdersPath ==> page.title == OrdersTitle
    ensures loc.pathname != OrdersPath ==> page.title == old(page.title) && page.content == old(page.content)
    ensures loc.pathname == OrdersPath && old(page.mounts) == 0 ==> page.content == old(page.content) && load == None
    ensures loc.pathname == OrdersPath && old(page.mounts) > 0 ==>
      page.content == [LoadingView] && load == Some(page.generation)
    ensures loc.pathname != OrdersPath ==> load == None
  {
    var _ := header.CheckAndAddNav(loc.pathname);
    mountScheduled, load := page.HandleOrdersPage(loc.pathname);
    watcher := new UrlWatcher(loc.href);
  }

  /**
   * One callback of the URL watcher. Without a change of href nothing
   * happens; with one, the header link is re-checked and the orders page
   * handled for the new path.
   */
  method OnDocumentMutation(watcher: UrlWatcher, header: Header, page: OrdersPage, loc: Location)
    returns (navigated: bool, mountScheduled: bool, load: Option<nat>)
    requires page.Valid()
    modifies watcher, header`links, page`title, page`content
    ensures navigated <==> loc.href != old(watcher.lastUrl)
    ensures watcher.lastUrl == loc.href
    ensures !navigated ==> unchanged(header) && unchanged(page) && !mountScheduled && load == None
    ensures header.anchors == old(header.anchors)
    ensures navigated ==> header.links == NavStep(header.anchors, old(header.links), loc.pathname)
    ensures navigated ==> (mountScheduled <==> loc.pathname == OrdersPath)
    ensures page.Valid() && page.Layout() == old(page.Layout())
    ensures navigated && loc.pathname == OrdersPath ==> page.title == OrdersTitle
    ensures !(navigated && loc.pathname == OrdersPath) ==>
      page.title == old(page.title) && page.content == old(page.content) && load == None
    ensures navigated && loc.pathname == OrdersPath && old(page.mounts) == 0 ==>
      page.content == old(page.content) && load == None
    ensures navigated && loc.pathname == OrdersPath && old(page.mounts) > 0 ==>
      page.content == [LoadingView] && load == Some(page.generation)
  {
    navigated := watcher.Observe(loc.href);
    mountScheduled, load := false, None;
    if navigated {
      var _ := header.CheckAndAddNav(loc.pathname);
      mountScheduled, load := page.HandleOrdersPage(loc.pathname);
    }
  }
}

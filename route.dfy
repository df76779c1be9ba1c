/**
 * The SPA navigation watcher of initializeExtension (content.js): a single
 * document observer that compares `location.href` with the last value seen
 * and acts only when it differs.
 */
module Route {

  /** The one route the script manages; matched exactly, not as a prefix. */
  const OrdersPath := "/orders"

  datatype Location = Location(href: string, pathname: string)

  class UrlWatcher {
    var lastUrl: string

    /** `let lastUrl = location.href` at initialisation. */
    constructor (href: string)
      ensures lastUrl == href
    {
      lastUrl := href;
    }

    /** One observer callback: reports a navigation only on a real change of `href`. */
    method Observe(href: string) returns (navigated: bool)
      modifies this
      ensures navigated <==> href != old(lastUrl)
      ensures lastUrl == href
    {
      navigated := false;
      if href != lastUrl {
        lastUrl := href;
        navigated := true;
      }
    }
  }

  /**
   * The answers of successive callbacks that see `hrefs`, starting from
   * `last`; each callback leaves `lastUrl` at the href it saw.
   */
  function Fired(last: string, hrefs: seq<string>): (r: seq<bool>)
    ensures |r| == |hrefs|
    ensures hrefs != [] ==> (r[0] <==> hrefs[0] != last)
    decreases |hrefs|
  {
    if hrefs == [] then [] else [hrefs[0] != last] + Fired(hrefs[0], hrefs[1..])
  }

  /** The href seen before callback `i`. */
  function Previous(last: string, hrefs: seq<string>, i: nat): string
    requires i < |hrefs|
  {
    if i == 0 then last else hrefs[i - 1]
  }

  /** Callback `i` acts exactly when its href differs from the one before it: a repeated URL triggers nothing. */
  lemma {:induction false} FiredAt(last: string, hrefs: seq<string>, i: nat)
    requires i < |hrefs|
    ensures |Fired(last, hrefs)| == |hrefs|
    ensures Fired(last, hrefs)[i] <==> hrefs[i] != Previous(last, hrefs, i)
    decreases i
  {
    if i > 0 {
      FiredAt(hrefs[0], hrefs[1..], i - 1);
    }
  }

  /**
   * Starting on "/home" and seeing "/home", "/home", "/orders", "/orders",
   * "/home", the watcher acts twice: once on entering "/orders" and once on
   * leaving it.
   */
  lemma FiredExample()
    ensures Fired("/home", ["/home", "/home", "/orders", "/orders", "/home"]) == [false, false, true, false, true]
  {
    var h := ["/home", "/home", "/orders", "/orders", "/home"];
    assert h[1..] == ["/home", "/orders", "/orders", "/home"];
    assert h[1..][1..] == ["/orders", "/orders", "/home"];
    assert h[1..][1..][1..] == ["/orders", "/home"];
    assert h[1..][1..][1..][1..] == ["/home"];
  }

  /** The comparison is on the whole href: a new query string on the same path acts again. */
  lemma QueryChangeActsAgain()
    ensures Fired("/orders", ["/orders?page=2"]) == [true]
  {
  }
}

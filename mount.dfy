/**
 * The managed "/orders" view (content.js, handleOrdersPage and loadOrders):
 * the title fix, the mount guard that creates at most one `orders-content`
 * element, and the load cycle that shows loading, then the table or an error.
 */
module Mount {
  import opened JsValues
  import opened Route
  import opened Text
  import opened Orders
  import opened Status

  const OrdersTitle := "Orders - Shop"
  const DefaultErrorMessage := "Please try again later"
  /** The message of the TypeError thrown by reading `amount` off a null `totalPrice`. */
  const PriceReadErrorMessage := "Cannot read properties of null (reading 'amount')"

  /** A host `<section>`: its text content and whether it has been hidden. */
  datatype Section = Section(text: string, hidden: bool)

  /** A piece of host chrome (bottom navigation bar, toast region). */
  datatype Chrome = Absent | Shown | Hidden

  /** Where `orders-content` was attached. */
  datatype MountAnchor = AfterHeader | BodyStart

  /** A child of `orders-content`. */
  datatype View =
    | LoadingView
    | TableView(rows: seq<Row>, etaCells: seq<string>, summary: Summary)
    | ErrorView(message: string)

  /** How the deliveries query settled: its response, or the thrown error's message. */
  datatype FetchResult = Fetched(response: Response) | Failed(message: Option<string>)

  /** The view state machine, read off the mount. */
  datatype Phase = Idle | Loading | Loaded | Failure

  /** The phrases whose presence marks a host section as the 404 page. */
  const NotFoundPhrases := ["Page not found", "couldn't find the page", "Visit Shop's website"]

  /** The host's 404 markup: the text carries one of the phrases. */
  predicate NotFoundText(text: string): (b: bool)
    ensures b <==> exists k :: 0 <= k < |NotFoundPhrases| && Contains(text, NotFoundPhrases[k])
    ensures b <==> exists k, i: nat :: 0 <= k < |NotFoundPhrases| && OccursAt(text, NotFoundPhrases[k], i)
  {
    ContainsIff(text, NotFoundPhrases[0]);
    ContainsIff(text, NotFoundPhrases[1]);
    ContainsIff(text, NotFoundPhrases[2]);
    Contains(text, "Page not found") || Contains(text, "couldn't find the page") ||
    Contains(text, "Visit Shop's website")
  }

  /** `style.display = 'none'` on an element if it exists. */
  function HideChrome(c: Chrome): (r: Chrome)
    ensures c == Absent <==> r == Absent
    ensures c != Absent ==> r == Hidden
  {
    if c == Absent then Absent else Hidden
  }

  /**
   * What a settled load leaves in the mount: the table when the response
   * flattens, the error view when the query failed or the flattening threw.
   */
  function ResultView(result: FetchResult): (v: View)
    ensures (result.Fetched? && Renders(result.response)) <==> v.TableView?
    ensures v.TableView? ==> v.rows == TableRows(result.response) && v.summary == SummaryOf(v.rows)
    ensures v.TableView? ==> |v.etaCells| == |v.rows|
    ensures v.TableView? ==> forall k :: 0 <= k < |v.rows| ==> v.etaCells[k] == EtaText(v.rows[k])
    ensures result.Fetched? && !Renders(result.response) ==> v == ErrorView(PriceReadErrorMessage)
    ensures result.Failed? ==> v.ErrorView? && v.message != ""
    ensures result.Failed? && Truthy(result.message) ==> v.message == result.message.value
    ensures result.Failed? && !Truthy(result.message) ==> v.message == DefaultErrorMessage
  {
    match result
    case Fetched(response) =>
      if Renders(response) then
        var rows := TableRows(response);
        TableView(rows, seq(|rows|, k requires 0 <= k < |rows| => EtaText(rows[k])), SummaryOf(rows))
      else
        ErrorView(PriceReadErrorMessage)
    case Failed(message) => ErrorView(OrElse(message, DefaultErrorMessage))
  }

  class OrdersPage {
    var title: string
    var sections: seq<Section>
    var bottomNav: Chrome
    var toasts: Chrome
    var headerPresent: bool
    /** How many `orders-content` elements the document holds. */
    var mounts: nat
    /** Counts the mounts created so far; identifies the live one. */
    var generation: nat
    var mountAnchor: MountAnchor
    /** The children of the live `orders-content` element. */
    var content: seq<View>

    /** At most one mount, holding at most one view, and nothing without a mount. */
    ghost predicate Valid()
      reads this
    {
      mounts <= 1 && |content| <= 1 && (mounts == 0 ==> content == [])
    }

    /** Everything of the page other than its title and the mount's contents. */
    ghost function Layout(): (seq<Section>, Chrome, Chrome, bool, nat, nat, MountAnchor)
      reads this
    {
      (sections, bottomNav, toasts, headerPresent, mounts, generation, mountAnchor)
    }

    /** The phase the mount is in: idle when empty, else named after the view it shows. */
    function ViewPhase(): (p: Phase)
      reads this
      requires Valid()
      ensures p == Idle <==> content == []
      ensures p == Loading <==> content == [LoadingView]
      ensures p == Loaded <==> content != [] && content[0].TableView?
      ensures p == Failure <==> content != [] && content[0].ErrorView?
    {
      if content == [] then Idle
      else match content[0]
        case LoadingView => Loading
        case TableView(_, _, _) => Loaded
        case ErrorView(_) => Failure
    }

    constructor (title: string, sections: seq<Section>, bottomNav: Chrome, toasts: Chrome, headerPresent: bool)
      ensures Valid() && mounts == 0 && generation == 0
      ensures this.title == title && this.sections == sections && this.bottomNav == bottomNav
      ensures this.toasts == toasts && this.headerPresent == headerPresent
    {
      this.title := title;
      this.sections := sections;
      this.bottomNav := bottomNav;
      this.toasts := toasts;
      this.headerPresent := headerPresent;
      mounts := 0;
      generation := 0;
      mountAnchor := BodyStart;
      content := [];
    }

    /** setOrdersTitle; also what each firing of the title observer or timer does. */
    method SetOrdersTitle()
      modifies this`title
      ensures title == OrdersTitle
    {
      if title != OrdersTitle {
        title := OrdersTitle;
      }
    }

    /** Hide every section whose text carries one of the 404 phrases; leave the others as they were. */
    method HideNotFoundSections()
      modifies this`sections
      ensures |sections| == |old(sections)|
      ensures forall k :: 0 <= k < |sections| ==>
        sections[k].text == old(sections)[k].text &&
        sections[k].hidden == (old(sections)[k].hidden || NotFoundText(old(sections)[k].text))
    {
      var updated: seq<Section> := [];
      for k := 0 to |sections|
        invariant |updated| == k
        invariant forall m :: 0 <= m < k ==>
          updated[m].text == sections[m].text &&
          updated[m].hidden == (sections[m].hidden || NotFoundText(sections[m].text))
      {
        var section := sections[k];
        if NotFoundText(section.text) {
          section := section.(hidden := true);
        }
        updated := updated + [section];
      }
      sections := updated;
    }

    /**
     * The start of loadOrders: without a mount nothing happens; otherwise the
     * mount is cleared and shows only the loading view. Returns the mount the
     * pending query will write its result into.
     */
    method BeginLoad() returns (load: Option<nat>)
      requires Valid()
      modifies this`content
      ensures Valid()
      ensures old(mounts) == 0 ==> load == None && content == old(content)
      ensures old(mounts) > 0 ==> load == Some(generation) && content == [LoadingView]
      ensures old(mounts) > 0 ==> ViewPhase() == Loading
    {
      if mounts == 0 {
        return None;
      }
      content := [];
      content := content + [LoadingView];
      load := Some(generation);
    }

    /**
     * The end of loadOrders, once the query settled. The result goes into the
     * mount captured by BeginLoad: it replaces the live mount's contents only
     * while that mount is still the live one.
     */
    method FinishLoad(load: nat, result: FetchResult)
      requires Valid()
      modifies this`content
      ensures Valid()
      ensures mounts > 0 && load == generation ==> content == [ResultView(result)]
      ensures !(mounts > 0 && load == generation) ==> content == old(content)
      ensures mounts > 0 && load == generation ==>
        ViewPhase() == (if result.Fetched? && Renders(result.response) then Loaded else Failure)
    {
      var view: View;
      match result {
        case Fetched(response) =>
          var rows, threw := CreateTableData(response);
          if threw {
            view := ErrorView(PriceReadErrorMessage);
          } else {
            var etaCells := EtaCells(rows);
            assert etaCells == seq(|rows|, k requires 0 <= k < |rows| => EtaText(rows[k]));
            view := TableView(rows, etaCells, SummaryOf(rows));
          }
        case Failed(message) =>
          view := ErrorView(OrElse(message, DefaultErrorMessage));
      }
      if mounts > 0 && load == generation {
        content := [];
        content := content + [view];
      }
    }

    /**
     * The settle-timer callback of handleOrdersPage: if `orders-content`
     * already exists nothing changes; otherwise hide the 404 sections, the
     * bottom navigation and the toasts, attach a fresh mount after the header
     * (else at the start of the body) and begin loading into it.
     */
    method MountOrdersContent() returns (load: Option<nat>)
      requires Valid()
      modifies this
      ensures Valid()
      ensures old(mounts) > 0 ==> load == None && unchanged(this)
      ensures old(mounts) == 0 ==>
        mounts == 1 && generation == old(generation) + 1 &&
        mountAnchor == (if headerPresent then AfterHeader else BodyStart) &&
        bottomNav == HideChrome(old(bottomNav)) && toasts == HideChrome(old(toasts)) &&
        content == [LoadingView] && load == Some(generation)
      ensures old(mounts) == 0 ==> (|sections| == |old(sections)| &&
        forall k :: 0 <= k < |sections| ==>
          sections[k].text == old(sections)[k].text &&
          sections[k].hidden == (old(sections)[k].hidden || NotFoundText(old(sections)[k].text)))
      ensures title == old(title) && headerPresent == old(headerPresent)
    {
      if mounts > 0 {
        return None;
      }
      HideNotFoundSections();
      bottomNav := HideChrome(bottomNav);
      toasts := HideChrome(toasts);
      mountAnchor := if headerPresent then AfterHeader else BodyStart;
      mounts := 1;
      generation := generation + 1;
      content := [];
      load := BeginLoad();
    }

    /**
     * handleOrdersPage's synchronous part: off "/orders" nothing happens; on
     * it the title is set, the mount callback is scheduled, and loadOrders
     * runs at once (reloading into an existing mount, a no-op without one).
     */
    method HandleOrdersPage(pathname: string) returns (mountScheduled: bool, load: Option<nat>)
      requires Valid()
      modifies this`title, this`content
      ensures Valid()
      ensures pathname != OrdersPath ==> !mountScheduled && load == None && unchanged(this)
      ensures pathname == OrdersPath ==> mountScheduled && title == OrdersTitle
      ensures pathname == OrdersPath && old(mounts) == 0 ==> load == None && content == old(content)
      ensures pathname == OrdersPath && old(mounts) > 0 ==> load == Some(generation) && content == [LoadingView]
      ensures Layout() == old(Layout())
      ensures mounts == old(mounts) && generation == old(generation) && sections == old(sections)
      ensures bottomNav == old(bottomNav) && toasts == old(toasts) && mountAnchor == old(mountAnchor)
      ensures headerPresent == old(headerPresent)
    {
      if pathname != OrdersPath {
        return false, None;
      }
      SetOrdersTitle();
      mountScheduled := true;
      load := BeginLoad();
    }

    /**
     * The "/orders" document observer of initializeExtension: re-runs
     * handleOrdersPage only when our content is missing and a 404 heading is shown.
     */
    method OnOrdersMutation(pathname: string, notFoundHeading: bool) returns (mountScheduled: bool, load: Option<nat>)
      requires Valid()
      modifies this`title, this`content
      ensures Valid()
      ensures !(old(mounts) == 0 && notFoundHeading) ==> !mountScheduled && load == None && unchanged(this)
      ensures old(mounts) == 0 && notFoundHeading ==>
        mountScheduled == (pathname == OrdersPath) && load == None && content == old(content) &&
        (pathname == OrdersPath ==> title == OrdersTitle) &&
        (pathname != OrdersPath ==> title == old(title))
      ensures Layout() == old(Layout())
      ensures mounts == old(mounts) && generation == old(generation) && sections == old(sections)
      ensures bottomNav == old(bottomNav) && toasts == old(toasts) && mountAnchor == old(mountAnchor)
      ensures headerPresent == old(headerPresent)
    {
      if mounts == 0 && notFoundHeading {
        mountScheduled, load := HandleOrdersPage(pathname);
      } else {
        mountScheduled, load := false, None;
      }
    }

    /** The host re-renders and drops the mount (not an action of the script). */
    method HostDropsMount()
      requires Valid()
      modifies this`mounts, this`content
      ensures Valid() && mounts == 0 && content == []
    {
      mounts := 0;
      content := [];
    }
  }
}

# Shop orders content script — a Dafny model

This project models the decision logic of a browser-extension content script
(`content.js`) that adds an "Orders" page to the Shop web app. The host app
renders `/orders` as a 404. On that path the script puts its own orders view
in place, and on every page it adds an "Orders" link to the host's header.
The DOM is reduced to a few state records and classes. The timers, observers
and the network are reduced to method calls and inputs.

Modules, one per file:

- `JsValues` (`jsvalues.dfy`): optional fields and JavaScript's `||` fallbacks, where the empty string counts as missing.
- `Text` (`text.dfy`): ASCII `toLowerCase`, and `includes` as a recursive substring test, shown equal to "occurs at some position".
- `Orders` (`orders.dfy`): the query's orders, deliveries and trackers; the row record; the nested loop that flattens orders into rows (`CreateTableData`, proved equal to the specification `TableRows`); and the ETA cell.
- `Status` (`status.dfy`): the status badge (delivered, in transit, pending) and the three summary counters.
- `Route` (`route.dfy`): the managed path `/orders` and the URL watcher, which compares `location.href` with the last value it saw.
- `Nav` (`nav.dfy`): the header as a class `Header` (which anchors are rendered, and the marked `HeaderLink-Orders` links). `CheckAndAddNav` is proved against the specification function `NavStep`.
- `Mount` (`mount.dfy`): the page as a class `OrdersPage`. It holds the title, the host sections, the chrome, the `orders-content` mounts and their children. It covers the mount guard, the 404 heuristic and the load cycle, which is split into `BeginLoad` and `FinishLoad`.
- `Extension` (`extension.dfy`): the first run of the script, and the document observer that re-runs the header link and the orders page when the href changes.

The event sources are inputs: `location` (href and pathname), whether a 404
heading is shown, and how the deliveries query ended (`FetchResult`: the
response, or a failure with a message). A timer or observer firing is a call
of the method for its callback. `OrdersPage.HostDropsMount` stands for the
host re-rendering and removing the mount; the script itself never does this.
A load is tagged with the mount it started in (`generation`). So a result
that arrives after its mount was replaced does not reach the new mount. This
matches the script, which writes into the element it captured.

## Model

| member | source | states |
|---|---|---|
| `Text.ToLower` | content.js:312-313 | lower-casing keeps the length, maps each letter, and leaves no upper-case letter |
| `Text.ToLowerIdempotent` | content.js:312-313 | lower-casing twice is lower-casing once |
| `Text.ContainsIff` | content.js:316 | the `includes` test holds exactly when the token occurs at some position |
| `Text.ContainsSelf` | content.js:315-316 | a string contains itself, so each equality test implies the matching `includes` test |
| `Orders.TrackerFor` | content.js:212 | a delivery uses the tracker at its own position, else the first tracker; there is none only when the order has no trackers |
| `Orders.NoTrackerCells` | content.js:222-223 | without a tracker the carrier is "N/A" and the tracking URL is null |
| `Orders.OrderRows` | content.js:210-250 | an order gives max(1, number of deliveries) rows |
| `Orders.CreateTableData` | content.js:201-252 | the nested loop throws exactly when some order has a null `totalPrice`; otherwise it builds exactly `TableRows` of the response, and a missing node list gives no rows |
| `Orders.RowsUpToLength` | content.js:204-251 | the first n orders give the sum of their max(1, deliveries) rows |
| `Orders.TableRowCount` | content.js:201-252 | the total row count is the sum over orders of max(1, number of deliveries) |
| `Orders.RowAt` | content.js:204-251 | order i's rows come consecutively, starting after the rows of all earlier orders |
| `Orders.FlattenShape` | content.js:210-249 | states what `DeliveryRow` and `FallbackRow` build: each delivery row: the order's number, index (i+1).(j+1), that delivery's status and state, the positional tracker; a no-delivery row: index i+1, "No deliveries", state "N/A", the first tracker |
| `Orders.RowsUpToOrderNumbers` | content.js:204-251 | the order numbers on the first n orders' rows are exactly those orders' numbers |
| `Orders.TableOrderNumbers` | content.js:204-251 | the table's distinct order numbers are the response's order numbers |
| `Orders.EtaAsWrittenMarksMissingEtaAsPast` | content.js:224-302 | `EtaTextAsWritten`, the cell under the script's `!== null` guard, shows a delivery without ETA info as "N/A (Past)" |
| `Orders.EtaText` | content.js:298-302 | the corrected ETA cell: it gets " (Future)" or " (Past)" only when `isFuture` is a boolean |
| `Orders.EtaSuffixIffReported` | content.js:224-245 | a delivery row's ETA has a suffix exactly when the delivery reports `isFuture`; a no-delivery row shows "N/A" |
| `Orders.EtaCells` | content.js:284-302 | the row loop gives one ETA cell per row, in row order |
| `Status.DeliveredTest` | content.js:312-317 | the delivered test, its equality included, holds exactly when the lower-cased status or state contains "delivered" |
| `Status.TransitTest` | content.js:312-322 | the in-transit test, its equalities included, holds exactly when the lower-cased status or state contains "transit" or "shipped" |
| `Status.ClassOf` | content.js:310-323 | delivered exactly when status or state mentions "delivered"; in transit exactly when not delivered and one mentions "transit" or "shipped"; pending otherwise |
| `Status.ClassOfIgnoresCase` | content.js:312-313 | the class does not depend on letter case |
| `Status.ClassifiesUpperDelivered` | content.js:315-317 | "DELIVERED" is delivered |
| `Status.ClassifiesInTransit` | content.js:318-322 | "in_transit" is in transit |
| `Status.ClassifiesShipped` | content.js:318-322 | "Shipped" is in transit |
| `Status.ClassifiesPending` | content.js:311-323 | "pending" is pending |
| `Status.ClassifiesShippedLabel` | content.js:318-322 | "SHIPPED_LABEL" is in transit, through the substring test |
| `Status.DeliveredCount` | content.js:358-363 | `deliveredCount` is at most the row count, and equal to it exactly when every row passes the delivered test |
| `Status.InTransitCount` | content.js:364-371 | `inTransitCount` is at most the row count, and equal to it exactly when every row passes the in-transit test |
| `Status.OrderNumbersBound` | content.js:357 | `totalOrders` is at most the row count, and 0 only when there are no rows |
| `Status.DeliveredCountIsBadgeCount` | content.js:358-363 | `deliveredCount` is the number of rows with the delivered badge |
| `Status.InTransitCountSplit` | content.js:364-371 | `inTransitCount` is the in-transit badge rows plus the delivered rows that also pass the transit test |
| `Status.BadgesPartitionRows` | content.js:310-323 | each row gets exactly one of the three badges |
| `Status.CountersOverlap` | content.js:358-371 | a row that is both delivered and shipped is counted by both counters |
| `Status.SummaryOf` | content.js:357-371 | each counter is at most the row count, `totalOrders` is 0 only without rows, and delivered plus in transit exceeds the row count by at most the rows in both |
| `Status.TotalOrdersOfTable` | content.js:357 | for a fully priced response, `totalOrders` is the number of distinct order numbers in the response, at most the number of orders |
| `Route.UrlWatcher.constructor` | content.js:570 | the watcher starts at the current href |
| `Route.UrlWatcher.Observe` | content.js:571-577 | a callback reports a navigation exactly when the href differs from the last one seen, and then records it |
| `Route.Fired` | content.js:570-577 | a run of callbacks gives one answer per href, the first firing exactly when it differs from the starting href |
| `Route.FiredAt` | content.js:570-577 | over a sequence of callbacks, callback i fires exactly when its href differs from the previous one, so a repeated URL fires nothing |
| `Route.FiredExample` | content.js:570-577 | /home, /home, /orders, /orders, /home (starting at /home) fires on the 3rd and 5th callbacks only |
| `Route.QueryChangeActsAgain` | content.js:572-573 | a new query string on the same path fires again, because the whole href is compared |
| `Nav.Locate` | content.js:20-47 | the anchor is the first of Explore, Home, Shop logo (with a parent) that resolves; it is none exactly when none resolves |
| `Nav.NavStep` | content.js:4-76 | with a marked link present, only its paragraph's styling changes; otherwise one link is added at the located anchor, or nothing when there is none |
| `Nav.NavStepInsertsAtMostOne` | content.js:6-72 | a call adds zero or one link, and none when a link exists |
| `Nav.NavActiveState` | content.js:10-67 | afterwards the link carries `opacity-50` exactly when the path is not exactly "/orders", for a new link and an existing one |
| `Nav.NavStepIdempotent` | content.js:6-18 | a second call on an unchanged header and path changes nothing |
| `Nav.NavRepeatIsOneStep` | content.js:79-96 | states what `NavRepeat` computes: any number of calls (immediate, interval, observer) on an unchanged header leave one link if an anchor exists, else none |
| `Nav.Header.CheckAndAddNav` | content.js:4-76 | the link list becomes `NavStep` of the old one; the insertion method is reported only when a link was inserted |
| `Mount.NotFoundText` | content.js:463-467 | a section is taken for the 404 page exactly when its text contains one of the three phrases, that is, one of them occurs at some position |
| `Mount.HideChrome` | content.js:472-482 | chrome that exists ends up hidden; missing chrome stays missing |
| `Mount.ResultView` | content.js:511-531 | a fetched response whose orders all have a price shows the flattened rows, the corrected ETA cell of each row and their summary; one with an unpriced order, whose price read at content.js:227 or 247 throws, shows the TypeError's message; a failure shows its message, or "Please try again later" when it has none |
| `Mount.OrdersPage.ViewPhase` | content.js:504-531 | idle exactly when the mount is empty; loading, loaded or failure exactly when its child is the loading view, the table or the error view |
| `Mount.OrdersPage.SetOrdersTitle` | content.js:423-427 | the title becomes "Orders - Shop" |
| `Mount.OrdersPage.HideNotFoundSections` | content.js:459-470 | a section is hidden afterwards exactly when it was already hidden or its text has one of the three 404 phrases; texts are unchanged |
| `Mount.OrdersPage.BeginLoad` | content.js:504-509 | without a mount nothing happens; otherwise the mount is cleared, holds only the loading view and is in the loading phase |
| `Mount.OrdersPage.FinishLoad` | content.js:511-531 | the mount the load started in, if still live, then holds only `ResultView` of the result: loaded for a response that flattens, failure for a failed query or a thrown flattening; otherwise nothing visible changes |
| `Mount.OrdersPage.MountOrdersContent` | content.js:450-502 | with `orders-content` present nothing changes; otherwise 404 sections and chrome are hidden, exactly one mount is attached (after the header, else at the body's start), and it shows loading |
| `Mount.OrdersPage.HandleOrdersPage` | content.js:417-535 | off "/orders" nothing changes; on it the title is set, mounting is scheduled, and an existing mount is reloaded at once; sections, chrome, header, mounts and anchor are kept |
| `Mount.OrdersPage.OnOrdersMutation` | content.js:548-557 | the page is handled again only when there is no mount and a 404 heading shows; it then only sets the title, and sections, chrome, header, mounts and anchor are kept |
| `Extension.Initialize` | content.js:538-579 | page load adds the header link, handles the orders page (title on "/orders", an existing mount reloaded, everything else of the page kept), and starts one watcher at the current href; the header's anchors are kept |
| `Extension.OnDocumentMutation` | content.js:571-578 | a callback with an unchanged href touches nothing; a changed href re-runs the header link and the orders page for the new path, with the same title and content outcome as `Initialize`; the header's anchors and the rest of the page are kept |

## Left out

- `fetchDeliveries` (content.js:100-179), a network request with a GraphQL query, is not modelled. Its outcome is the `FetchResult` input to `OrdersPage.FinishLoad`.
- The HTML built through `innerHTML` is not modelled: header, refresh button, table head, image cell, tracking cell, loading spinner and error markup. Only the computed values are kept: the rows, the badge class, the ETA text and the summary.
- The "Delivered" cell date formatting (`toLocaleDateString`) is not modelled, because it depends on locale and foreign library behaviour.
- Timer and observer lifetimes are not modelled: the 200 ms / 3 s nav retry, the 10 s nav observer, the 10 s title observer and interval, the 100 ms settle delay and the 5 s orders observer. Each firing is a call of the callback's method, and expiry is not represented.
- The refresh and retry buttons call `loadOrders` again. In the model that is a new `BeginLoad` / `FinishLoad` pair, which callers may invoke at any time.
- `console.log` / `console.error` are not modelled.
- The 404 heading test over `h1` text (content.js:551-553) is not modelled; it is the boolean input `notFoundHeading` of `OrdersPage.OnOrdersMutation`.
- Text.ToLower: lower-cases ASCII letters only, not the full Unicode case mapping of `toLowerCase`.
- Order fields that the rows only copy (order number, amounts, timestamps) are strings. A node list the query leaves out is the empty sequence.
- Orders.Order: only `totalPrice` may be null. A null order node, a null delivery node or a null `data` would also throw inside the `try` of `loadOrders` and show the error view; the model does not represent them.
- Mount.ResultView: the message of the TypeError from a null `totalPrice` is the engine's wording. The model fixes one wording (`PriceReadErrorMessage`); an undefined `totalPrice` gives a different text in the engine.
- Orders.EtaCells: the rendered ETA cell uses the corrected guard (`EtaText`). As written, the script shows "N/A (Past)"; only `EtaTextAsWritten` models that.
- Mount.ResultView: the table's ETA cells use the corrected `EtaText`, not the as-written `EtaTextAsWritten`.
- Notes on what the code does:
  - It compares the whole `href`, not a route state. So `/orders` to `/orders?x` re-runs `handleOrdersPage`; see `Route.QueryChangeActsAgain`.
  - Re-entering `/orders` with a mount present reloads it at once (content.js:534).
  - A result arriving after its mount was replaced goes to the captured, detached element. There is no explicit guard for this.

## Findings

| source | as written | input that shows it | evidently intended | confidence | as-written member | corrected member |
|---|---|---|---|---|---|---|
| content.js:225, content.js:300 | `isFuture` is `delivery.originalEtaInfo?.isFuture`, which is `undefined` when the ETA object is missing; the guard `row.isFuture !== null` lets `undefined` through | a delivery whose `originalEtaInfo` is null: its ETA cell reads "N/A (Past)" | add the Future/Past suffix only when `isFuture` is a boolean, as for the no-delivery rows that set `isFuture: null` | medium, not executed | `Orders.EtaAsWrittenMarksMissingEtaAsPast` | `Orders.EtaText` (with `Orders.EtaSuffixIffReported`) |

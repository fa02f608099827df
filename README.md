# Order lifecycle of the DeoxyInstaBoost shop, in Dafny

The shop sells Instagram engagement packages. A buyer pays out of band and types in the UPI
transaction reference (UTR). The server stores the order as `pending`, and an operator holding
the fixed admin code approves it. Meanwhile the buyer's page polls the order until it reads
`approved`. This project models the two state machines that carry this lifecycle.

- **Server** (`server.ts`). The `orders` table (primary key `id`, `status` defaulting to
  `pending`, `created_at` stamped at insert) and the `settings` table (one `server_status` row
  seeded to `open`). They are the two map fields of class `OrderServer.Server`. Each route handler
  is a method that returns the HTTP status code it sends, plus its JSON payload where there is one.
  The admin gate is `OrderServer.Authorized`: exact equality of the `x-admin-code` header with
  the fixed code.
- **Table operations** (`orders.dfy`). What the SQL statements do, written as pure functions on
  the table: insert with a primary key, approve by id, and newest-first selection. Lemmas state
  idempotence, commutativity, key discipline, and the lifecycle relation `Evolves`: no row
  disappears or is edited, and an approved order stays approved.
- **Page** (`src/App.tsx`). The handler logic of the single-page client, as class
  `OrderSession.Session`, with fields for the step, the tracked order id and status, the server
  status, the saved order ids, the history and the error text. Every network reply is a `Fetch`
  parameter: a response with its `ok` flag and parsed body, or an exception. Every handler
  returns what it would send.
- **URL check** (`url_check.dfy`). The two regular expressions of `validateUrl`, as ghost
  "contains a substring of this shape" predicates. An executable scan is proved equivalent
  to them.
- **Lifecycle** (`lifecycle.dfy`). Walk-throughs that join page and server: submit, poll,
  approve, poll; a poll reply that arrives after the next order was placed; a refused status
  change; a batch with repeated and unknown ids; newest-first listing.

Time (`CURRENT_TIMESTAMP`) is a `nat` passed in by the caller. The order code
(`Math.random`), the browser storage of saved ids, and every network reply are parameters.

Points about the code that the model follows:
- The `orders` table has no NOT NULL columns, so a creation with missing fields stores them as
  NULL (`Option` fields). Among the inputs the model can express (string, integer or absent
  fields), only a taken `id` makes the insert fail. Values the driver cannot bind are not
  modelled (see "Left out").
- The PATCH handler stores any string `status` unvalidated, and the page toggles anything that
  is not `open` to `open`.
- The server validates no order field. Its only input check is that a batch body's `ids` is an
  array. The page checks the URL and the UTR length.
- Approving an unknown id updates no row and still answers 200 with success.

## Model

| member | source | states |
|---|---|---|
| OrderTable.NewRow | server.ts:40-49 | the inserted row carries exactly the supplied columns, with status pending and created_at set to the insert time |
| OrderTable.InsertOrder | server.ts:94-98 | the insert fails iff the id is already present; on success it adds exactly one row under that id and leaves every other row unchanged |
| OrderTable.ApproveIn | server.ts:165 | the UPDATE keeps the same keys, approves the row with that id without touching its other columns, leaves all other rows alone, and changes nothing for an unknown id |
| OrderTable.ApproveIdempotent | server.ts:165 | approving twice equals approving once |
| OrderTable.ApproveCommutes | server.ts:165 | approvals of two ids commute, so concurrent approvals are safe |
| OrderTable.InsertKeepsWellKeyed | server.ts:41 | after an insert every row is still filed under its own id |
| OrderTable.ApproveKeepsWellKeyed | server.ts:165 | after an approve every row is still filed under its own id |
| OrderTable.InsertEvolves | server.ts:94-98 | an insert removes and edits no existing row |
| OrderTable.ApproveEvolves | server.ts:165 | an approve removes no row, edits no supplied column or created_at, and never turns approved into pending |
| OrderTable.EvolvesTransitive | server.ts:40-49 | the lifecycle relation composes over successive operations |
| OrderTable.InsertNewestFirst | server.ts:140 | inserting into the result adds exactly that order (multiset) |
| OrderTable.InsertKeepsNewestFirst | server.ts:140 | inserting into a newest-first sequence keeps it ordered by created_at descending |
| OrderTable.SelectionExactly | server.ts:150-156 | a result holding the rows stored under the ids contains exactly the orders whose id is among them, as stored, and none twice, so unknown ids add nothing and a repeated id adds one row |
| OrderServer.Seeded | server.ts:57 | the seed adds the server_status row with value open only when it is absent; every existing setting survives |
| OrderServer.SeedIdempotent | server.ts:57 | seeding again at a restart changes nothing |
| OrderServer.Authorized | server.ts:78-80 | the admin gate: a request is authorised exactly when its `x-admin-code` header equals the fixed code (also at server.ts:137 and 161) |
| OrderServer.Server.Start | server.ts:36-58 | opening the database keeps the persisted orders and seeds the settings |
| OrderServer.Server.GetServerStatus | server.ts:72-75 | 200 with the stored value, or open when the row is missing; nothing is modified |
| OrderServer.Server.PatchServerStatus | server.ts:77-88 | 403 and no change without the admin code; otherwise the unvalidated value replaces the stored one, nothing is written when the row is absent, and orders are untouched |
| OrderServer.Server.CreateOrder | server.ts:90-133 | 201 iff the id is fresh, adding exactly the new pending row; otherwise 500 and an unchanged store; settings untouched; the lifecycle relation holds |
| OrderServer.Server.CreateOrderNotifying | server.ts:98-131 | with notifications configured, a fresh order without a quantity is stored and still answered with 500 |
| OrderServer.Server.ListOrders | server.ts:135-142 | 403 and an empty result without the admin code; otherwise every stored order once, newest first |
| OrderServer.Server.GetOrder | server.ts:144-148 | the stored row with 200 for a known id, 404 and no row for an unknown one; nothing is modified |
| OrderServer.Server.BatchOrders | server.ts:150-157 | 400 when ids is not an array; otherwise the stored orders under the listed ids, once each, newest first (empty for an empty list) |
| OrderServer.Server.ApproveOrder | server.ts:159-170 | 403 and no change without the admin code; otherwise the order is approved as ApproveIn says, success is reported for an unknown id too, and settings are untouched |
| OrderServer.Server.SelectNewestFirst | server.ts:155 | the result is newest first and is a permutation of the rows stored under the ids |
| UrlValidation.NameRunEnd | src/App.tsx:216 | the end of the longest run of story-name characters |
| UrlValidation.StoryAt | src/App.tsx:216 | a story link starts at the position iff some name end makes the story shape match there (the greedy run is the only candidate) |
| UrlValidation.PostAt | src/App.tsx:219 | a reel/post/tv link starts at the position iff the shape matches there for one of the three kinds |
| UrlValidation.StoryFrom | src/App.tsx:216-217 | the scan finds a story match at or after the position iff one exists |
| UrlValidation.PostFrom | src/App.tsx:219-220 | the scan finds a reel/post/tv match at or after the position iff one exists |
| UrlValidation.ValidateUrl | src/App.tsx:214-221 | for story views, accept iff the URL contains instagram.com/stories/NAME/DIGITS; for any other service (or none), accept iff it contains instagram.com/(reel, p or tv)/CODE |
| UrlValidation.StoryMatchShifts | src/App.tsx:216 | a story match stays a match when text surrounds the URL |
| UrlValidation.PostMatchShifts | src/App.tsx:219 | a reel/post match stays a match when text surrounds the URL |
| UrlValidation.AcceptedInContext | src/App.tsx:214-221 | the test is unanchored: text before and after an accepted URL keeps it accepted |
| UrlValidation.ReelLinkAccepted | src/App.tsx:219-220 | https://instagram.com/reel/xyz is accepted for views |
| UrlValidation.StoryLinkAccepted | src/App.tsx:216-217 | a story link whose account name contains a dot is accepted for story views |
| UrlValidation.ReelLinkRejectedForStories | src/App.tsx:215-217 | a reel link is rejected for story views |
| OrderSession.InvalidUrlMessage | src/App.tsx:226 | the invalid-URL error is never empty |
| OrderSession.NewStatus | src/App.tsx:333 | the toggle asks for open or closed: closed exactly when the page shows open |
| OrderSession.NewStatusFlips | src/App.tsx:333 | on open and closed the toggle flips the value, and toggling twice restores it |
| OrderSession.SubmitErrorMessage | src/App.tsx:283-284 | the server's non-empty error text, else exactly the generic failure message; never empty |
| OrderSession.Utf16Length | src/App.tsx:251 | the length `.length` reports, in UTF-16 code units: between the number of characters and twice that, and equal to it iff every character lies in the Basic Multilingual Plane |
| OrderSession.EmojiUtrLength | src/App.tsx:251 | a UTR of three emoji has three characters but length six, so it passes the page's check |
| OrderSession.Session.constructor | src/App.tsx:100-118 | the initial page state, with the saved ids taken from storage |
| OrderSession.Session.Polling | src/App.tsx:192 | the poll interval runs exactly while the page is on the success step with a non-empty tracked id and a pending status |
| OrderSession.Session.ShowsClosedScreen | src/App.tsx:359 | the page shows only the closed screen exactly when the server status is closed and the step is not admin |
| OrderSession.Session.SelectService | src/App.tsx:512-536 | a service card records that service; "Back to Services" clears it |
| OrderSession.SubmissionBody | src/App.tsx:264-272 | the posted body carries the order code, the typed URL and UTR, and the selected package's fields (absent without a package) |
| OrderSession.Session.SelectPackage | src/App.tsx:209-212 | selecting a package records it and moves to the details step |
| OrderSession.Session.SubmitDetails | src/App.tsx:223-248 | an invalid URL sets a non-empty error and keeps the step; a valid one clears the error and moves to payment |
| OrderSession.Session.CompletePayment | src/App.tsx:250-291 | a UTR under six UTF-16 code units sets an error and posts nothing; an OK reply appends the id to the saved ids and tracks it as pending on the success step; a failed reply or an exception sets its error and changes neither the saved ids, the step nor the tracked order |
| OrderSession.Session.PollTick | src/App.tsx:190-194 | the interval fires only while polling, and then requests the tracked order; otherwise nothing is sent |
| OrderSession.Session.ApplyPollReply | src/App.tsx:195-199 | as written: an approved body marks the shown order approved whenever the reply arrives, whatever order is tracked by then; anything else changes nothing |
| OrderSession.Session.ApplyPollReplyFor | src/App.tsx:190-207 | corrected: a reply for the requested order, while that order is still polled, marks it approved and ends polling when it reads approved; a stale reply, another body or an exception changes nothing; approved never reverts to pending |
| OrderSession.Session.AdminLogin | src/App.tsx:293-301 | login succeeds iff the input equals the admin code; otherwise the error is set |
| OrderSession.Session.ToggleServerStatus | src/App.tsx:332-349 | the opposite status is sent, and the page shows it only after an OK reply |
| OrderSession.Session.OpenAdminPanel | src/App.tsx:359-376 | the closed screen's button opens the admin step, which the closed-server gate never hides |
| OrderSession.Session.PlaceAnotherOrder | src/App.tsx:897-905 | back to selection with the form cleared, no tracked order, pending status, polling off |
| OrderSession.Session.FetchUserHistory | src/App.tsx:144-165 | no saved ids: empty history and no request; otherwise the ids are posted, the reply body becomes the history, and an exception leaves it unchanged |
| Lifecycle.AdminCodesAgree | src/App.tsx:97 | the page's admin code is the server's |
| Lifecycle.CreateApproveGet | server.ts:90-170 | on a fresh server a POST answers 201, a GET then returns the request stored as pending at the insert time, an admin approve answers 200, and a second GET returns the same row with status approved |
| Lifecycle.PageFollowsOrder | src/App.tsx:190-291 | given an OK create reply, a payment with a UTR of six or more code units posts the body built from the chosen package, link and UTR, saves the id, and the interval asks for that id; with the poll callback as written, it keeps showing pending after a reply that does not read approved, and shows approved and stops polling after one that does |
| Lifecycle.OrderLifecycle | server.ts:90-170 | submit, poll, approve, poll, with the page's polls reading the server's GET replies: the page ends up showing approved, and the stored row is exactly the posted body, approved, stamped at the insert time |
| Lifecycle.LateApprovalReply | src/App.tsx:190-207 | a reply approving an earlier order that arrives after the next order was placed: as written it marks the new order approved and stops its polling; checked against the requested order it is ignored and polling goes on |
| Lifecycle.UnauthorizedToggle | server.ts:72-88 | a status PATCH without the admin code gets 403, and a following GET reads the old value |
| Lifecycle.ToggleReachesServer | src/App.tsx:332-349 | the page's toggle (from the initial open), sent with the admin code, makes the server read closed |
| Lifecycle.BatchMix | server.ts:150-157 | a batch naming a stored id twice plus an unknown id returns that order once; an empty batch returns nothing |
| Lifecycle.ListingIsNewestFirst | server.ts:135-142 | two orders with different clock values are listed newest first whatever the insertion order |
| Lifecycle.NotificationFailsStoredOrder | server.ts:98-131 | with notifications configured, a body without a quantity (as a direct POST can send) is stored and the reply is 500 with "Failed to create order"; a page given that reply, from a state with no selected package that its own flow never reaches, shows the text and saves no id |

## Left out

- Choosing the database file and creating its directory (server.ts:11-34): filesystem I/O.
- Express and Vite wiring, the health route, static serving and `listen` (server.ts:60-70, 172-188): plumbing.
- The notification message and its `fetch` (server.ts:100-126): a fire-and-forget foreign call. `CreateOrder` treats it as unconfigured. The one effect of the configured path on the reply is modelled by `CreateOrderNotifying` (see Findings).
- SQL engine failures other than the primary-key clash (I/O errors, the bound-parameter limit of a large batch): the model's store never fails, so the approve route's 500 branch and a 500 from the status routes cannot happen.
- Request fields are typed as string, integer or absent. Other JSON values are not modelled: booleans and objects make the driver throw (500, nothing stored); fractional numbers are stored as REAL; an array field is spread into the positional parameters, so a one-element array stores its element and other lengths give 500. A NULL `id` is not modelled either, and a boolean or object `status` in the PATCH body, which makes the update throw inside the route handler, outside any `try` block (server.ts:86), so Express answers 500. Neither are a non-string header, a missing `status` in the PATCH body, and non-string elements of a batch `ids` array: every key is a plain string here.
- `created_at` as a DATETIME text with one-second resolution: it is a `nat`, and ties stay unordered.
- All Gemini calls (src/App.tsx:170-187, 231-247): external AI calls. Of the details handler only the error and the final step remain.
- `fetchServerStatus` and the loading gate (src/App.tsx:125-142, 351-357), `fetchAdminOrders` and the page's `approveOrder` (303-330): network glue around routes the server model covers. `serverStatus` is a field that scenarios set.
- JSX rendering, animations, the QR code, `scrollToSection`, and the `cn` helper: UI.
- Timers: `setInterval`/`clearInterval` lifetimes are not modelled. One interval firing is `PollTick`, its reply arriving later is `ApplyPollReply`, and `Polling()` is the condition under which the effect keeps an interval running. Replies are applied one at a time, in whatever order a scenario chooses.
- `Math.random` order codes and `localStorage` JSON parsing: the code is a parameter, and the saved ids are a `seq<string>` field.
- `isProcessing` and `isAnalyzing`: they disable the pay button (src/App.tsx:789) and the details submit button (684), so the page never starts a second submission or analysis while one is in flight. The model lets `CompletePayment` and `SubmitDetails` run again at any time. The other loading flags are UI feedback only.

## Findings

| source | as written | input that shows it | evidently intended | confidence | as-written member | corrected member |
|---|---|---|---|---|---|---|
| server.ts:98-131 | the row is inserted before the notification message is built; `quantity.toLocaleString()` throws when `quantity` is absent, and the catch answers 500 | notification credentials set, a direct POST /api/orders (not from the page, which always sends a package's quantity) with a fresh `id` and no `quantity`: the row is stored and the reply is 500 | a notification problem never fails a creation that was stored, so 500 means nothing was stored | not executed | OrderServer.Server.CreateOrderNotifying, Lifecycle.NotificationFailsStoredOrder | OrderServer.Server.CreateOrder |
| src/App.tsx:190-207 | the interval callback applies `setOrderStatus('approved')` when its fetch resolves, without checking that the page still tracks the order it asked about; clearing the interval (206) or "Place Another Order" (897-905) does not cancel a fetch in flight | a poll for order A is in flight, the buyer places order B, and A's reply reads approved: B is shown approved and its polling stops | a reply only updates the order it was requested for, while that order is still polled | not executed | OrderSession.Session.ApplyPollReply, Lifecycle.LateApprovalReply | OrderSession.Session.ApplyPollReplyFor |

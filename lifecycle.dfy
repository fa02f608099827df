/**
  The order lifecycle across both halves: the page posts an order, the server stores it
  pending, the admin approves it, and the next status poll shows the approval. The
  replies the page receives are built from what the server's handlers return.
*/
module Lifecycle {
  import opened Wrappers
  import opened OrderTable
  import OrderServer
  import OrderSession

  /** The page and the server use the same admin code. */
  lemma AdminCodesAgree()
    ensures OrderSession.AdminCode == OrderServer.AdminCode
  {
  }

  /** The JSON body GET /api/orders/:id sends back, as the poll reads it: the order's
      `status` field, absent in the 404 error body. */
  function PollBody(order: Option<Order>): Option<string>
  {
    if order.Some? then Some(StatusText(order.value.status)) else None
  }

  /** The server side of the lifecycle: after a successful create, GET returns the request
      plus a pending status; after an authorised approve, GET returns the same row
      approved. */
  method CreateApproveGet(req: OrderRequest, now: nat)
    returns (created: int, before: Option<Order>, approved: int, after: Option<Order>)
    ensures created == OrderServer.Created && approved == OrderServer.Ok
    ensures before == Some(NewRow(req, now))
    ensures after == Some(NewRow(req, now).(status := Approved))
  {
    var server := new OrderServer.Server.Start(map[], map[]);
    created := server.CreateOrder(req, now);
    var code;
    code, before := server.GetOrder(req.id);
    approved := server.ApproveOrder(Some(OrderServer.AdminCode), req.id);
    code, after := server.GetOrder(req.id);
  }

  /** The page side: the buyer posts the order and the reply is OK; the interval asks for
      that order; a poll whose reply
      does not read `approved` changes nothing; a poll that reads `approved` shows the
      approval and stops polling. */
  method PageFollowsOrder(pkg: OrderSession.Package, url: string, utr: string, orderId: string,
                          createdOk: bool, firstBody: Option<string>, secondBody: Option<string>)
    returns (posted: Option<OrderRequest>, savedIds: seq<string>, asked: Option<string>,
             first: Status, second: Status, polling: bool)
    requires OrderSession.Utf16Length(utr) >= 6 && orderId != "" && createdOk
    requires firstBody != Some(StatusText(Approved)) && secondBody == Some(StatusText(Approved))
    ensures posted == Some(OrderSession.SubmissionBody(orderId, Some(pkg), url, utr))
    ensures savedIds == [orderId] && asked == Some(orderId)
    ensures first == Pending && second == Approved && !polling
  {
    var page := new OrderSession.Session([]);
    page.SelectPackage(pkg);
    page.reelUrl := url;
    page.utrNumber := utr;
    posted := page.CompletePayment(orderId, OrderSession.Response(createdOk, None));
    savedIds := page.savedIds;
    asked := page.PollTick();
    page.ApplyPollReply(OrderSession.Response(true, firstBody));
    first := page.orderStatus;
    var again := page.PollTick();
    page.ApplyPollReply(OrderSession.Response(true, secondBody));
    second := page.orderStatus;
    polling := page.Polling();
  }

  /** The whole lifecycle: the page's body is what the server stores; the server's GET
      replies before and after the approval are what the page's two polls read, so the
      page ends up showing the order approved, and the stored row is the posted body,
      approved, stamped at the insert time. */
  method OrderLifecycle(pkg: OrderSession.Package, url: string, utr: string, orderId: string, now: nat)
    returns (shown: Status, stored: Option<Order>)
    requires OrderSession.Utf16Length(utr) >= 6 && orderId != ""
    ensures shown == Approved
    ensures stored == Some(NewRow(OrderSession.SubmissionBody(orderId, Some(pkg), url, utr), now).(status := Approved))
  {
    var req := OrderSession.SubmissionBody(orderId, Some(pkg), url, utr);
    var created, before, approved, after := CreateApproveGet(req, now);
    assert PollBody(before) == Some(StatusText(Pending));
    assert PollBody(after) == Some(StatusText(Approved));
    var posted, savedIds, asked, first, second, polling :=
      PageFollowsOrder(pkg, url, utr, orderId, created == OrderServer.Created, PollBody(before), PollBody(after));
    assert posted == Some(req) && asked == Some(req.id);
    shown := second;
    stored := after;
  }

  /** A poll reply for an earlier order that arrives after the buyer has placed another
      one: the callback as written marks the new order approved and stops its polling,
      while a reply checked against the order it was requested for is ignored. */
  method LateApprovalReply(utr: string, firstId: string, nextId: string)
    returns (asked: Option<string>, tracked: Option<string>, corrected: Status, pollingCorrected: bool,
             asWritten: Status, pollingAsWritten: bool)
    requires OrderSession.Utf16Length(utr) >= 6 && firstId != "" && nextId != "" && firstId != nextId
    ensures asked == Some(firstId) && tracked == Some(nextId)
    ensures corrected == Pending && pollingCorrected
    ensures asWritten == Approved && !pollingAsWritten
  {
    var page := new OrderSession.Session([]);
    page.utrNumber := utr;
    var posted := page.CompletePayment(firstId, OrderSession.Response(true, None));
    asked := page.PollTick();
    page.PlaceAnotherOrder();
    page.utrNumber := utr;
    posted := page.CompletePayment(nextId, OrderSession.Response(true, None));
    tracked := page.currentOrderId;
    var approved := OrderSession.Response(true, Some(StatusText(Approved)));
    page.ApplyPollReplyFor(firstId, approved);
    corrected, pollingCorrected := page.orderStatus, page.Polling();
    page.ApplyPollReply(approved);
    asWritten, pollingAsWritten := page.orderStatus, page.Polling();
  }

  /** A PATCH of the server status with a wrong or missing code is refused, and a
      following GET reads the same value as before. */
  method UnauthorizedToggle(adminHeader: Option<string>, status: string,
                            persisted: map<string, string>)
    returns (code: int, before: string, after: string)
    requires !OrderServer.Authorized(adminHeader)
    ensures code == OrderServer.Forbidden
    ensures before == after
  {
    var server := new OrderServer.Server.Start(map[], persisted);
    var c;
    c, before := server.GetServerStatus();
    code := server.PatchServerStatus(adminHeader, status);
    c, after := server.GetServerStatus();
  }

  /** The admin toggle reaches the server: after an authorised PATCH with the page's new
      status, a GET reads that status, whatever was stored before the restart. */
  method ToggleReachesServer(persisted: map<string, string>) returns (read: string)
    ensures read == "closed"
  {
    var server := new OrderServer.Server.Start(map[], persisted);
    var page := new OrderSession.Session([]);
    page.step := OrderSession.Admin;
    var sent := OrderSession.NewStatus(page.serverStatus);
    var code := server.PatchServerStatus(Some(OrderSession.AdminCode), sent);
    assert code == OrderServer.Ok;
    var shown := page.ToggleServerStatus(OrderSession.Response(code == OrderServer.Ok, ()));
    assert shown == sent;
    code, read := server.GetServerStatus();
    assert page.serverStatus == "closed" && !page.ShowsClosedScreen();
  }

  /** A batch naming one stored order twice and an unknown id returns that order once;
      an empty batch returns nothing. */
  method BatchMix(req: OrderRequest, unknown: string, now: nat)
    returns (mixed: seq<Order>, empty: seq<Order>)
    requires unknown != req.id
    ensures mixed == [NewRow(req, now)]
    ensures empty == []
  {
    var server := new OrderServer.Server.Start(map[], map[]);
    var created := server.CreateOrder(req, now);
    var row := NewRow(req, now);
    assert server.orders == map[req.id := row];
    var code;
    code, mixed := server.BatchOrders(Some([req.id, unknown, req.id]));
    assert (set i | i in [req.id, unknown, req.id]) == {req.id, unknown};
    assert StoredUnder(server.orders, {req.id, unknown}) == {row} by {
      assert server.orders[req.id] == row && unknown !in server.orders;
    }
    assert multiset(mixed) == multiset{NewRow(req, now)};
    assert |mixed| == 1 && mixed[0] in multiset(mixed);
    code, empty := server.BatchOrders(Some([]));
    assert StoredUnder(server.orders, set i | i in []) == {};
    assert multiset(empty) == multiset{};
  }

  /** Two orders created at different clock values are listed newest first,
      whichever was inserted first. */
  method ListingIsNewestFirst(older: OrderRequest, newer: OrderRequest, t1: nat, t2: nat)
    returns (listing: seq<Order>)
    requires older.id != newer.id && t1 < t2
    ensures listing == [NewRow(newer, t2), NewRow(older, t1)]
  {
    var server := new OrderServer.Server.Start(map[], map[]);
    var c := server.CreateOrder(older, t1);
    c := server.CreateOrder(newer, t2);
    c, listing := server.ListOrders(Some(OrderServer.AdminCode));
    var a, b := NewRow(older, t1), NewRow(newer, t2);
    assert server.orders == map[older.id := a, newer.id := b];
    assert StoredUnder(server.orders, server.orders.Keys) == {a, b} by {
      assert server.orders[older.id] == a && server.orders[newer.id] == b;
    }
    assert multiset({a, b}) == multiset{b, a};
    NewestFirstPair(listing, a, b);
  }

  /** With notifications configured, a body without a quantity (one a client posts
      directly; the page's own flow always selects a package, so it always sends one) is
      stored and yet answered with 500 and the server's error text. The page half shows
      how the page would handle such a reply, from a state its own flow never reaches: it
      reports the failure and does not save the order's id. */
  method NotificationFailsStoredOrder(orderId: string, url: string, utr: string, now: nat)
    returns (code: int, stored: Option<Order>, savedIds: seq<string>, shownError: string)
    requires OrderSession.Utf16Length(utr) >= 6
    ensures code == OrderServer.ServerError
    ensures stored == Some(NewRow(OrderSession.SubmissionBody(orderId, None, url, utr), now))
    ensures savedIds == [] && shownError == OrderServer.CreateFailedMessage
  {
    var page := new OrderSession.Session([]);
    page.reelUrl := url;
    page.utrNumber := utr;
    var req := OrderSession.SubmissionBody(orderId, None, url, utr);
    var server := new OrderServer.Server.Start(map[], map[]);
    code := server.CreateOrderNotifying(req, now);
    var found;
    found, stored := server.GetOrder(orderId);
    var posted := page.CompletePayment(orderId,
      OrderSession.Response(code == OrderServer.Created, Some(OrderServer.CreateFailedMessage)));
    assert posted == Some(req);
    savedIds, shownError := page.savedIds, page.error;
  }
}

/**
  The order-session state machine of the buyer/admin page in src/App.tsx: the handler
  logic only, not the rendering. Each handler is a method on one session object; what
  the network returns is passed in, and what the handler would send is returned.
*/
module OrderSession {
  import opened Wrappers
  import opened OrderTable
  import opened UrlValidation

  /** The page's `step`. */
  datatype Step = Selection | Details | Payment | Success | Admin | History

  /** A catalog package (the fields the order body copies from it). */
  datatype Package = Package(id: string, serviceType: string, quantity: int, price: int)

  /** What one `fetch` gives a handler: a response with its `ok` flag and parsed body,
      or an exception (network failure). */
  datatype Fetch<T> = Response(ok: bool, body: T) | Failed

  /** The client's copy of the admin code. */
  const AdminCode := "2563123456789"

  const UtrMessage := "Please enter a valid UTR/Transaction ID"
  const SubmitFailedMessage := "Failed to submit order. Please try again."
  const ConnectionMessage := "Connection error. Please ensure the server is running."
  const AdminCodeMessage := "Invalid Admin Code"

  /** The error shown for a URL that fails `validateUrl`. */
  function InvalidUrlMessage(service: Option<string>): (m: string)
    ensures m != ""
  {
    "Please enter a valid Instagram " + (if service == Some(StoryService) then "Story" else "Reel") + " URL"
  }

  /** The status the admin toggle asks for: 'closed' when the page shows 'open', and
      'open' for anything else. */
  function NewStatus(current: string): (r: string)
    ensures r == "open" || r == "closed"
    ensures r == "open" <==> current != "open"
  {
    if current == "open" then "closed" else "open"
  }

  /** On the two values the server hands out the toggle flips the status, and toggling
      twice gets back where it started. */
  lemma NewStatusFlips(current: string)
    requires current == "open" || current == "closed"
    ensures NewStatus(current) != current
    ensures NewStatus(NewStatus(current)) == current
  {
  }

  /** The message set for a rejected submission: the server's `error` text when it sent
      a non-empty one, the generic message otherwise. */
  function SubmitErrorMessage(serverError: Option<string>): (m: string)
    ensures m != ""
    ensures serverError.Some? && serverError.value != "" ==> m == serverError.value
    ensures !(serverError.Some? && serverError.value != "") ==> m == SubmitFailedMessage
  {
    if serverError.Some? && serverError.value != "" then serverError.value else SubmitFailedMessage
  }

  /** The length JavaScript's `.length` reports: UTF-16 code units, so a character
      outside the Basic Multilingual Plane (a surrogate pair) counts twice. */
  function Utf16Length(s: string): (n: nat)
    ensures |s| <= n <= 2 * |s|
    ensures n == |s| <==> forall i :: 0 <= i < |s| ==> s[i] as int < 0x1_0000
  {
    if |s| == 0 then 0
    else (if s[0] as int < 0x1_0000 then 1 else 2) + Utf16Length(s[1..])
  }

  /** Three emoji make a UTR of three characters that the page measures as six. */
  lemma EmojiUtrLength()
    ensures |"\U{1F600}\U{1F600}\U{1F600}"| == 3
    ensures Utf16Length("\U{1F600}\U{1F600}\U{1F600}") == 6
  {
    var s := "\U{1F600}\U{1F600}\U{1F600}";
    assert Utf16Length(s[2..]) == 2 by { assert s[2..][1..] == []; }
    assert Utf16Length(s[1..]) == 4 by { assert s[1..][1..] == s[2..]; }
  }

  /** The body POST /api/orders is sent with: the order code, the selected package's
      fields (absent when no package is selected), the URL and the UTR as typed. */
  function SubmissionBody(orderId: string, pkg: Option<Package>, url: string, utr: string): (req: OrderRequest)
    ensures req.id == orderId && req.reelUrl == Some(url) && req.utrNumber == Some(utr)
    ensures pkg.None? ==> req.serviceType == None && req.packageId == None
                          && req.quantity == None && req.price == None
    ensures pkg.Some? ==>
              && req.serviceType == Some(pkg.value.serviceType) && req.packageId == Some(pkg.value.id)
              && req.quantity == Some(pkg.value.quantity) && req.price == Some(pkg.value.price)
  {
    match pkg
    case None => OrderRequest(orderId, None, None, None, None, Some(url), Some(utr))
    case Some(p) =>
      OrderRequest(orderId, Some(p.serviceType), Some(p.id), Some(p.quantity), Some(p.price),
                   Some(url), Some(utr))
  }

  class Session {
    var step: Step
    var selectedService: Option<string>
    var selectedPackage: Option<Package>
    var reelUrl: string
    var utrNumber: string
    var currentOrderId: Option<string>
    var orderStatus: Status
    var serverStatus: string
    var savedIds: seq<string>
    var userOrders: seq<Order>
    var isAdminLoggedIn: bool
    var error: string

    /** The initial component state; `storedIds` is what the browser's storage holds. */
    constructor (storedIds: seq<string>)
      ensures step == Selection && selectedService == None && selectedPackage == None
      ensures reelUrl == "" && utrNumber == "" && error == ""
      ensures currentOrderId == None && orderStatus == Pending && serverStatus == "open"
      ensures savedIds == storedIds && userOrders == [] && !isAdminLoggedIn
    {
      step := Selection;
      selectedService := None;
      selectedPackage := None;
      reelUrl := "";
      utrNumber := "";
      currentOrderId := None;
      orderStatus := Pending;
      serverStatus := "open";
      savedIds := storedIds;
      userOrders := [];
      isAdminLoggedIn := false;
      error := "";
    }

    /** The poll interval runs exactly while this holds (an empty id is falsy in the page). */
    predicate Polling()
      reads this
    {
      step == Success && currentOrderId.Some? && currentOrderId.value != "" && orderStatus == Pending
    }

    /** The closed-server gate: the page shows only the "Server Closed" screen. */
    predicate ShowsClosedScreen()
      reads this
    {
      serverStatus == "closed" && step != Admin
    }

    /** A click on a service card (or on "Back to Services", with `None`). */
    method SelectService(service: Option<string>)
      modifies this`selectedService
      ensures selectedService == service
    {
      selectedService := service;
    }

    /** `handlePackageSelect`. */
    method SelectPackage(pkg: Package)
      modifies this`selectedPackage, this`step
      ensures selectedPackage == Some(pkg) && step == Details
    {
      selectedPackage := Some(pkg);
      step := Details;
    }

    /** `handleDetailsSubmit`: an invalid URL sets its error and stays on the step; a
        valid one clears the error and moves on to payment (whatever the link analysis
        returns). */
    method SubmitDetails()
      modifies this`error, this`step
      ensures ValidateUrl(selectedService, reelUrl) ==> error == "" && step == Payment
      ensures !ValidateUrl(selectedService, reelUrl) ==>
                error == InvalidUrlMessage(selectedService) && step == old(step)
    {
      if !ValidateUrl(selectedService, reelUrl) {
        error := InvalidUrlMessage(selectedService);
        return;
      }
      error := "";
      step := Payment;
    }

    /** `handlePaymentComplete` with order code `orderId`. A UTR shorter than six
        UTF-16 code units (the empty one included) sets an error and sends nothing. Otherwise the
        order is posted; an OK reply records the id at the end of the saved list and moves
        to the success step with a pending status, while a failed one only sets an error. */
    method CompletePayment(orderId: string, reply: Fetch<Option<string>>) returns (posted: Option<OrderRequest>)
      modifies this`error, this`savedIds, this`currentOrderId, this`orderStatus, this`step
      ensures Utf16Length(utrNumber) < 6 ==> posted == None && error == UtrMessage
      ensures Utf16Length(utrNumber) >= 6 ==> posted == Some(SubmissionBody(orderId, selectedPackage, reelUrl, utrNumber))
      ensures posted.Some? && reply.Response? && reply.ok ==>
                && savedIds == old(savedIds) + [orderId]
                && currentOrderId == Some(orderId) && orderStatus == Pending && step == Success
                && error == ""
      ensures posted.Some? && reply.Response? && !reply.ok ==> error == SubmitErrorMessage(reply.body)
      ensures posted.Some? && reply.Failed? ==> error == ConnectionMessage
      ensures posted.None? || !(reply.Response? && reply.ok) ==>
                && savedIds == old(savedIds) && currentOrderId == old(currentOrderId)
                && orderStatus == old(orderStatus) && step == old(step)
    {
      if Utf16Length(utrNumber) < 6 {
        error := UtrMessage;
        return None;
      }
      error := "";
      posted := Some(SubmissionBody(orderId, selectedPackage, reelUrl, utrNumber));
      match reply {
        case Response(ok, serverError) =>
          if ok {
            savedIds := savedIds + [orderId];
            currentOrderId := Some(orderId);
            orderStatus := Pending;
            step := Success;
          } else {
            error := SubmitErrorMessage(serverError);
          }
        case Failed =>
          error := ConnectionMessage;
      }
    }

    /** One firing of the status-poll interval: while polling it requests the tracked
        order, otherwise the interval is not running and nothing is sent. */
    method PollTick() returns (requested: Option<string>)
      ensures Polling() ==> requested == currentOrderId
      ensures !Polling() ==> requested == None
    {
      if !Polling() {
        return None;
      }
      requested := currentOrderId;
    }

    /** The interval callback's handling of a poll reply, as written: whenever the reply
        arrives, a body whose `status` is 'approved' marks the shown order approved, even
        when the page has moved on to another order since the request was sent. */
    method ApplyPollReply(reply: Fetch<Option<string>>)
      modifies this`orderStatus
      ensures reply.Response? && reply.body == Some(StatusText(Approved)) ==> orderStatus == Approved
      ensures !(reply.Response? && reply.body == Some(StatusText(Approved))) ==>
                orderStatus == old(orderStatus)
    {
      if reply.Response? && reply.body == Some(StatusText(Approved)) {
        orderStatus := Approved;
      }
    }

    /** The reply to a poll request for `requested`, applied only while the page is still
        polling that order: an 'approved' body then marks it approved and ends the polling;
        a stale reply, any other body or a failed fetch changes nothing. */
    method ApplyPollReplyFor(requested: string, reply: Fetch<Option<string>>)
      modifies this`orderStatus
      ensures old(Polling()) && currentOrderId == Some(requested)
              && reply.Response? && reply.body == Some(StatusText(Approved)) ==>
                orderStatus == Approved && !Polling()
      ensures !(old(Polling()) && currentOrderId == Some(requested)
                && reply.Response? && reply.body == Some(StatusText(Approved))) ==>
                orderStatus == old(orderStatus)
      ensures old(orderStatus) == Approved ==> orderStatus == Approved
    {
      if Polling() && currentOrderId == Some(requested)
         && reply.Response? && reply.body == Some(StatusText(Approved)) {
        orderStatus := Approved;
      }
    }

    /** `handleAdminLogin`: exact comparison with the admin code. */
    method AdminLogin(input: string)
      modifies this`isAdminLoggedIn, this`error
      ensures input == AdminCode ==> isAdminLoggedIn && error == old(error)
      ensures input != AdminCode ==> isAdminLoggedIn == old(isAdminLoggedIn) && error == AdminCodeMessage
    {
      if input == AdminCode {
        isAdminLoggedIn := true;
      } else {
        error := AdminCodeMessage;
      }
    }

    /** `toggleServerStatus`: sends the opposite of the shown status and shows it only
        once the server answered OK. */
    method ToggleServerStatus(reply: Fetch<()>) returns (sent: string)
      modifies this`serverStatus
      ensures sent == NewStatus(old(serverStatus))
      ensures reply.Response? && reply.ok ==> serverStatus == sent
      ensures !(reply.Response? && reply.ok) ==> serverStatus == old(serverStatus)
    {
      sent := NewStatus(serverStatus);
      if reply.Response? && reply.ok {
        serverStatus := sent;
      }
    }

    /** The "Admin Panel" button of the closed screen: it opens the admin step, which the
        gate never hides. */
    method OpenAdminPanel()
      modifies this`step, this`error
      ensures step == Admin && error == ""
      ensures !ShowsClosedScreen()
    {
      step := Admin;
      error := "";
    }

    /** "Place Another Order": back to the package selection with the form cleared and no
        order tracked; the saved ids are kept. */
    method PlaceAnotherOrder()
      modifies this`step, this`reelUrl, this`utrNumber, this`selectedPackage, this`currentOrderId,
               this`orderStatus
      ensures step == Selection && reelUrl == "" && utrNumber == "" && selectedPackage == None
      ensures currentOrderId == None && orderStatus == Pending
      ensures !Polling()
    {
      step := Selection;
      reelUrl := "";
      utrNumber := "";
      selectedPackage := None;
      currentOrderId := None;
      orderStatus := Pending;
    }

    /** `fetchUserHistory`: with no saved ids the history is emptied without a request;
        otherwise the saved ids are posted to the batch route and the reply body becomes
        the history, while a failed fetch leaves it as it was. */
    method FetchUserHistory(reply: Fetch<seq<Order>>) returns (posted: Option<seq<string>>)
      modifies this`userOrders
      ensures |savedIds| == 0 ==> posted == None && userOrders == []
      ensures |savedIds| > 0 ==> posted == Some(savedIds)
      ensures |savedIds| > 0 && reply.Response? ==> userOrders == reply.body
      ensures |savedIds| > 0 && reply.Failed? ==> userOrders == old(userOrders)
    {
      if |savedIds| == 0 {
        userOrders := [];
        return None;
      }
      posted := Some(savedIds);
      if reply.Response? {
        userOrders := reply.body;
      }
    }
  }
}

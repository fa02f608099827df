/**
  The HTTP side of server.ts: the `orders` and `settings` tables held by one server
  object, the fixed admin code checked on the `x-admin-code` header, and one method per
  route handler. Each handler returns the HTTP status code it sends, with the JSON
  payload where the route has one.
*/
module OrderServer {
  import opened Wrappers
  import opened OrderTable

  /** HTTP status codes the handlers send. */
  const Ok := 200
  const Created := 201
  const BadRequest := 400
  const Forbidden := 403
  const NotFound := 404
  const ServerError := 500

  /** The `error` text of the 500 a failed creation sends. */
  const CreateFailedMessage := "Failed to create order"

  /** The fixed admin code every privileged route compares the header against. */
  const AdminCode := "2563123456789"

  /** The key of the one seeded row of `settings`. */
  const ServerStatusKey := "server_status"

  /** The access gate: exact equality with the fixed code; a missing header fails. */
  predicate Authorized(adminHeader: Option<string>)
  {
    adminHeader == Some(AdminCode)
  }

  /** INSERT OR IGNORE of ('server_status', 'open') at start-up: the row is created only
      when it is absent, so a value stored before a restart survives it. */
  function Seeded(settings: map<string, string>): (r: map<string, string>)
    ensures r.Keys == settings.Keys + {ServerStatusKey}
    ensures forall k :: k in settings ==> r[k] == settings[k]
    ensures ServerStatusKey !in settings ==> r[ServerStatusKey] == "open"
  {
    if ServerStatusKey in settings then settings else settings[ServerStatusKey := "open"]
  }

  /** Seeding a second time (a restart) changes nothing. */
  lemma SeedIdempotent(settings: map<string, string>)
    ensures Seeded(Seeded(settings)) == Seeded(settings)
  {
  }

  class Server {
    var orders: Table
    var settings: map<string, string>

    ghost predicate Valid()
      reads this
    {
      WellKeyed(orders)
    }

    /** Opening the database: the tables keep what was persisted, and the server status
        row is seeded if missing. */
    constructor Start(persistedOrders: Table, persistedSettings: map<string, string>)
      requires WellKeyed(persistedOrders)
      ensures Valid()
      ensures orders == persistedOrders && settings == Seeded(persistedSettings)
    {
      orders := persistedOrders;
      settings := Seeded(persistedSettings);
    }

    /** GET /api/settings/server-status: the stored value, or 'open' when the row is
        missing; nothing is written. */
    method GetServerStatus() returns (code: int, status: string)
      ensures code == Ok
      ensures ServerStatusKey in settings ==> status == settings[ServerStatusKey]
      ensures ServerStatusKey !in settings ==> status == "open"
    {
      code := Ok;
      status := if ServerStatusKey in settings then settings[ServerStatusKey] else "open";
    }

    /** PATCH /api/settings/server-status: 403 and no change without the admin code;
        otherwise the supplied value, unvalidated, replaces the stored one. The UPDATE
        writes nothing when the row is absent. No other setting and no order changes. */
    method PatchServerStatus(adminHeader: Option<string>, status: string) returns (code: int)
      requires Valid()
      modifies this`settings
      ensures Valid()
      ensures code == (if Authorized(adminHeader) then Ok else Forbidden)
      ensures code == Forbidden ==> settings == old(settings)
      ensures code == Ok && ServerStatusKey in old(settings) ==>
                settings == old(settings)[ServerStatusKey := status]
      ensures code == Ok && ServerStatusKey !in old(settings) ==> settings == old(settings)
      ensures orders == old(orders)
    {
      if !Authorized(adminHeader) {
        return Forbidden;
      }
      if ServerStatusKey in settings {
        settings := settings[ServerStatusKey := status];
      }
      code := Ok;
    }

    /** POST /api/orders: 201 and exactly one new pending row stamped `now` when the id is
        fresh; 500 and no change when the primary key is already taken. */
    method CreateOrder(req: OrderRequest, now: nat) returns (code: int)
      requires Valid()
      modifies this`orders
      ensures Valid()
      ensures code == Created || code == ServerError
      ensures code == Created <==> req.id !in old(orders)
      ensures code == Created ==> orders == old(orders)[req.id := NewRow(req, now)]
      ensures code == ServerError ==> orders == old(orders)
      ensures settings == old(settings)
      ensures Evolves(old(orders), orders)
    {
      var inserted := InsertOrder(orders, req, now);
      InsertKeepsWellKeyed(orders, req, now);
      InsertEvolves(orders, req, now);
      match inserted {
        case None =>
          code := ServerError;
        case Some(t) =>
          orders := t;
          code := Created;
      }
    }

    /** POST /api/orders as written when the notification credentials are configured:
        the row is inserted first, then building the message calls
        `quantity.toLocaleString()`, which throws when the body has no quantity, and the
        catch answers 500 although the row stays stored. */
    method CreateOrderNotifying(req: OrderRequest, now: nat) returns (code: int)
      requires Valid()
      modifies this`orders
      ensures Valid()
      ensures req.id in old(orders) ==> code == ServerError && orders == old(orders)
      ensures req.id !in old(orders) ==> orders == old(orders)[req.id := NewRow(req, now)]
      ensures req.id !in old(orders) ==> code == (if req.quantity.None? then ServerError else Created)
      ensures settings == old(settings)
    {
      var inserted := InsertOrder(orders, req, now);
      InsertKeepsWellKeyed(orders, req, now);
      match inserted {
        case None =>
          code := ServerError;
        case Some(t) =>
          orders := t;
          code := if req.quantity.None? then ServerError else Created;
      }
    }

    /** GET /api/orders: 403 without the admin code; otherwise every stored order, once
        each, newest first. */
    method ListOrders(adminHeader: Option<string>) returns (code: int, result: seq<Order>)
      requires Valid()
      ensures code == (if Authorized(adminHeader) then Ok else Forbidden)
      ensures code == Forbidden ==> result == []
      ensures code == Ok ==> NewestFirst(result)
      ensures code == Ok ==> multiset(result) == multiset(StoredUnder(orders, orders.Keys))
    {
      if !Authorized(adminHeader) {
        return Forbidden, [];
      }
      result := SelectNewestFirst(orders.Keys);
      code := Ok;
    }

    /** GET /api/orders/:id: the stored row, or 404 for an unknown id. */
    method GetOrder(id: string) returns (code: int, order: Option<Order>)
      ensures id in orders ==> code == Ok && order == Some(orders[id])
      ensures id !in orders ==> code == NotFound && order == None
    {
      if id in orders {
        code, order := Ok, Some(orders[id]);
      } else {
        code, order := NotFound, None;
      }
    }

    /** POST /api/orders/batch: 400 when `ids` is not an array; otherwise the stored rows
        whose id occurs in `ids`, once each, newest first. */
    method BatchOrders(ids: Option<seq<string>>) returns (code: int, result: seq<Order>)
      requires Valid()
      ensures code == (if ids.Some? then Ok else BadRequest)
      ensures ids.None? ==> result == []
      ensures ids.Some? ==> NewestFirst(result)
      ensures ids.Some? ==> multiset(result) == multiset(StoredUnder(orders, set i | i in ids.value))
    {
      if ids.None? {
        return BadRequest, [];
      }
      result := SelectNewestFirst(set i | i in ids.value);
      code := Ok;
    }

    /** PATCH /api/orders/:id/approve: 403 and no change without the admin code;
        otherwise the order with that id, if any, is approved and success is reported,
        for an unknown id too. */
    method ApproveOrder(adminHeader: Option<string>, id: string) returns (code: int)
      requires Valid()
      modifies this`orders
      ensures Valid()
      ensures code == (if Authorized(adminHeader) then Ok else Forbidden)
      ensures code == Forbidden ==> orders == old(orders)
      ensures code == Ok ==> orders == ApproveIn(old(orders), id)
      ensures settings == old(settings)
      ensures Evolves(old(orders), orders)
    {
      if !Authorized(adminHeader) {
        return Forbidden;
      }
      ApproveKeepsWellKeyed(orders, id);
      ApproveEvolves(orders, id);
      orders := ApproveIn(orders, id);
      code := Ok;
    }

    /** SELECT * FROM orders WHERE id IN (...) ORDER BY created_at DESC: the stored rows
        under `ids`, once each, newest first. The rows are taken in an unspecified order,
        so the order among rows with equal `created_at` is left open. */
    method SelectNewestFirst(ids: set<string>) returns (result: seq<Order>)
      requires Valid()
      ensures NewestFirst(result)
      ensures multiset(result) == multiset(StoredUnder(orders, ids))
    {
      var pending := ids * orders.Keys;
      ghost var done: set<string> := {};
      result := [];
      SelectionBounds(orders, ids, result, done);
      while pending != {}
        invariant SelectionState(orders, ids, pending, done, result)
        decreases pending
      {
        var k :| k in pending;
        SelectStep(orders, ids, pending, done, result, k);
        result := InsertNewestFirst(result, orders[k]);
        pending := pending - {k};
        done := done + {k};
      }
      SelectionBounds(orders, ids, result, done);
    }
  }
}

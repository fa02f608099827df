/**
  The `orders` table of server.ts: the row type, the request body that creates a row,
  and the pure table operations that the route handlers perform through SQL
  (INSERT with a primary key, UPDATE ... WHERE id = ?, SELECT ... ORDER BY created_at DESC).
*/
module OrderTable {
  import opened Wrappers

  /** The values the `status` column ever takes: it defaults to 'pending' and the
      approve route writes 'approved'. */
  datatype Status = Pending | Approved

  /** The text stored in the `status` column and sent in JSON bodies. */
  function StatusText(s: Status): string
  {
    match s
    case Pending => "pending"
    case Approved => "approved"
  }

  /** The JSON body of POST /api/orders: every column except `status` and `created_at`.
      A field the client leaves out arrives as undefined and is stored as NULL, hence
      the options; the id is the client's order code. */
  datatype OrderRequest = OrderRequest(
    id: string,
    serviceType: Option<string>,
    packageId: Option<string>,
    quantity: Option<int>,
    price: Option<int>,
    reelUrl: Option<string>,
    utrNumber: Option<string>)

  /** One row of `orders`. `createdAt` stands for CURRENT_TIMESTAMP at insert time,
      as a value of a caller-supplied clock. */
  datatype Order = Order(
    id: string,
    serviceType: Option<string>,
    packageId: Option<string>,
    quantity: Option<int>,
    price: Option<int>,
    reelUrl: Option<string>,
    utrNumber: Option<string>,
    status: Status,
    createdAt: nat)

  /** The table, keyed by the primary key `id`. */
  type Table = map<string, Order>

  /** Primary-key discipline: every row is filed under its own id. */
  ghost predicate WellKeyed(t: Table)
  {
    forall k :: k in t ==> t[k].id == k
  }

  /** The columns a client supplied when the row was created. */
  function RequestOf(o: Order): OrderRequest
  {
    OrderRequest(o.id, o.serviceType, o.packageId, o.quantity, o.price, o.reelUrl, o.utrNumber)
  }

  /** The row an INSERT of `req` at clock value `now` produces: the supplied columns,
      plus the column defaults. */
  function NewRow(req: OrderRequest, now: nat): (o: Order)
    ensures RequestOf(o) == req
    ensures o.status == Pending && o.createdAt == now
  {
    Order(req.id, req.serviceType, req.packageId, req.quantity, req.price, req.reelUrl, req.utrNumber,
          Pending, now)
  }

  /** INSERT INTO orders: fails (None, the primary-key constraint) when the id is taken;
      otherwise adds exactly one row and leaves every other row as it was. */
  function InsertOrder(t: Table, req: OrderRequest, now: nat): (r: Option<Table>)
    ensures r.None? <==> req.id in t
    ensures r.Some? ==> r.value.Keys == t.Keys + {req.id}
    ensures r.Some? ==> r.value[req.id] == NewRow(req, now)
    ensures r.Some? ==> forall k :: k in t ==> r.value[k] == t[k]
  {
    if req.id in t then None else Some(t[req.id := NewRow(req, now)])
  }

  /** UPDATE orders SET status = 'approved' WHERE id = ?: the same keys; the row with
      that id, if there is one, is approved and nothing else about it changes; every
      other row is untouched. An unknown id changes nothing. */
  function ApproveIn(t: Table, id: string): (r: Table)
    ensures r.Keys == t.Keys
    ensures id in t ==> r[id].status == Approved && RequestOf(r[id]) == RequestOf(t[id])
                        && r[id].createdAt == t[id].createdAt
    ensures forall k :: k in t && k != id ==> r[k] == t[k]
    ensures id !in t ==> r == t
  {
    if id in t then t[id := t[id].(status := Approved)] else t
  }

  /** How the table may change over time: no row disappears, the supplied columns and
      `created_at` of a row never change, and an approved row stays approved. */
  ghost predicate Evolves(before: Table, after: Table)
  {
    forall k :: k in before ==>
      && k in after
      && RequestOf(after[k]) == RequestOf(before[k])
      && after[k].createdAt == before[k].createdAt
      && (before[k].status == Approved ==> after[k].status == Approved)
  }

  /** The rows stored under the given ids (each row once). */
  ghost function StoredUnder(t: Table, ids: set<string>): set<Order>
  {
    set k | k in ids && k in t :: t[k]
  }

  /** Newest first: `created_at` never increases along the sequence (ties in any order). */
  ghost predicate NewestFirst(s: seq<Order>)
  {
    forall i, j :: 0 <= i < j < |s| ==> s[i].createdAt >= s[j].createdAt
  }

  /** No order occurs twice. */
  ghost predicate NoDuplicates(s: seq<Order>)
  {
    forall i, j :: 0 <= i < j < |s| ==> s[i] != s[j]
  }

  /** Inserts `o` into a sequence in front of the first row that is not newer than it. */
  function InsertNewestFirst(s: seq<Order>, o: Order): (r: seq<Order>)
    ensures multiset(r) == multiset(s) + multiset{o}
  {
    if s == [] || o.createdAt >= s[0].createdAt then
      [o] + s
    else
      assert s == [s[0]] + s[1..];
      [s[0]] + InsertNewestFirst(s[1..], o)
  }

  /** The elements after insertion are the old ones and the inserted order. */
  lemma InsertMembers(s: seq<Order>, o: Order)
    ensures forall x :: x in InsertNewestFirst(s, o) <==> x in s || x == o
  {
    var r := InsertNewestFirst(s, o);
    forall x ensures x in r <==> x in s || x == o {
      assert x in r <==> x in multiset(r);
      assert x in s <==> x in multiset(s);
    }
  }

  /** Putting an order in front of a newest-first sequence of rows no newer than it
      gives a newest-first sequence. */
  lemma ConsNewestFirst(x: Order, s: seq<Order>)
    requires NewestFirst(s)
    requires forall y :: y in s ==> x.createdAt >= y.createdAt
    ensures NewestFirst([x] + s)
  {
    var r := [x] + s;
    forall i, j | 0 <= i < j < |r| ensures r[i].createdAt >= r[j].createdAt {
      assert r[j] == s[j - 1];
      if i > 0 {
        assert r[i] == s[i - 1];
      }
    }
  }

  /** Insertion keeps a newest-first sequence newest first. */
  lemma {:induction false} InsertKeepsNewestFirst(s: seq<Order>, o: Order)
    requires NewestFirst(s)
    ensures NewestFirst(InsertNewestFirst(s, o))
  {
    if s == [] || o.createdAt >= s[0].createdAt {
      forall y | y in s ensures o.createdAt >= y.createdAt {
        var k :| 0 <= k < |s| && s[k] == y;
        assert s[0].createdAt >= s[k].createdAt;
      }
      ConsNewestFirst(o, s);
    } else {
      var rest := InsertNewestFirst(s[1..], o);
      assert NewestFirst(s[1..]);
      InsertKeepsNewestFirst(s[1..], o);
      InsertMembers(s[1..], o);
      forall y | y in rest ensures s[0].createdAt >= y.createdAt {
        if y != o {
          var k :| 0 <= k < |s[1..]| && s[1..][k] == y;
          assert s[k + 1] == y;
        }
      }
      ConsNewestFirst(s[0], rest);
    }
  }

  /** Approving is idempotent: approving the same id twice is approving it once. */
  lemma ApproveIdempotent(t: Table, id: string)
    ensures ApproveIn(ApproveIn(t, id), id) == ApproveIn(t, id)
  {
  }

  /** Approvals commute, so concurrent approvals of two orders need no ordering. */
  lemma ApproveCommutes(t: Table, a: string, b: string)
    ensures ApproveIn(ApproveIn(t, a), b) == ApproveIn(ApproveIn(t, b), a)
  {
  }

  lemma InsertKeepsWellKeyed(t: Table, req: OrderRequest, now: nat)
    requires WellKeyed(t)
    ensures InsertOrder(t, req, now).Some? ==> WellKeyed(InsertOrder(t, req, now).value)
  {
  }

  lemma ApproveKeepsWellKeyed(t: Table, id: string)
    requires WellKeyed(t)
    ensures WellKeyed(ApproveIn(t, id))
  {
  }

  /** Neither insert nor approve breaks the lifecycle: rows are never removed or edited,
      and never move from approved back to pending. */
  lemma InsertEvolves(t: Table, req: OrderRequest, now: nat)
    ensures InsertOrder(t, req, now).Some? ==> Evolves(t, InsertOrder(t, req, now).value)
  {
  }

  lemma ApproveEvolves(t: Table, id: string)
    ensures Evolves(t, ApproveIn(t, id))
  {
  }

  lemma EvolvesTransitive(t0: Table, t1: Table, t2: Table)
    requires Evolves(t0, t1) && Evolves(t1, t2)
    ensures Evolves(t0, t2)
  {
  }

  /** Adding one stored id to the selection adds exactly its row, which was not there yet. */
  lemma StoredUnderAdd(t: Table, ids: set<string>, k: string)
    requires WellKeyed(t) && k in t && k !in ids
    ensures StoredUnder(t, ids + {k}) == StoredUnder(t, ids) + {t[k]}
    ensures t[k] !in StoredUnder(t, ids)
  {
  }

  /** Ids that are not stored select nothing. */
  lemma StoredUnderRestrict(t: Table, ids: set<string>)
    ensures StoredUnder(t, ids * t.Keys) == StoredUnder(t, ids)
  {
  }

  /** A newest-first selection in progress: `result` holds, newest first, the rows of the
      ids already `done`; the rest of the stored ids under `ids` are `pending`. */
  ghost predicate SelectionState(t: Table, ids: set<string>, pending: set<string>, done: set<string>,
                                 result: seq<Order>)
  {
    && pending !! done && pending + done == ids * t.Keys
    && NewestFirst(result)
    && multiset(result) == multiset(StoredUnder(t, done))
  }

  /** One step of the selection: inserting the row of one pending id. */
  lemma SelectStep(t: Table, ids: set<string>, pending: set<string>, done: set<string>,
                   result: seq<Order>, k: string)
    requires WellKeyed(t) && SelectionState(t, ids, pending, done, result) && k in pending
    ensures k in t
    ensures SelectionState(t, ids, pending - {k}, done + {k}, InsertNewestFirst(result, t[k]))
  {
    StoredUnderAdd(t, done, k);
    InsertKeepsNewestFirst(result, t[k]);
    var a := StoredUnder(t, done);
    assert multiset(a + {t[k]}) == multiset(a) + multiset{t[k]};
  }

  /** The selection starts with nothing done and ends with the rows under all of `ids`. */
  lemma SelectionBounds(t: Table, ids: set<string>, result: seq<Order>, done: set<string>)
    ensures SelectionState(t, ids, ids * t.Keys, {}, [])
    ensures SelectionState(t, ids, {}, done, result) ==>
              NewestFirst(result) && multiset(result) == multiset(StoredUnder(t, ids))
  {
    assert StoredUnder(t, {}) == {};
    if SelectionState(t, ids, {}, done, result) {
      assert done == ids * t.Keys;
      StoredUnderRestrict(t, ids);
    }
  }

  /** Of two orders with different times, a newest-first arrangement puts the newer first. */
  lemma NewestFirstPair(s: seq<Order>, older: Order, newer: Order)
    requires older.createdAt < newer.createdAt
    requires NewestFirst(s) && multiset(s) == multiset{newer, older}
    ensures s == [newer, older]
  {
    assert |s| == 2;
    assert s[0] in multiset(s) && s[1] in multiset(s);
    assert s == [s[0], s[1]];
  }

  /** A sequence holding the rows stored under `ids`, each once, contains exactly the
      orders whose id is among `ids` and is stored with that very row, and none twice:
      unknown ids contribute nothing and a repeated id contributes one row. */
  lemma {:induction false} SelectionExactly(t: Table, ids: set<string>, result: seq<Order>)
    requires WellKeyed(t)
    requires multiset(result) == multiset(StoredUnder(t, ids))
    ensures forall o :: o in result <==> o.id in ids && o.id in t && t[o.id] == o
    ensures NoDuplicates(result)
  {
    forall o ensures o in result <==> o.id in ids && o.id in t && t[o.id] == o {
      assert o in result <==> o in multiset(result);
    }
    forall i, j | 0 <= i < j < |result| ensures result[i] != result[j] {
      var x := result[i];
      assert multiset(result)[x] <= 1;
      assert result == result[..i] + [x] + result[i + 1..];
    }
  }
}

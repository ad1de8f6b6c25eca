/** The orders endpoint, backend/orders/index.py: a preflight answer, the
    database-URL guard, order creation on POST, the order list on GET and 405
    for anything else. The decision is a function of the request (`Route`);
    the table it acts on is an `OrderTable` object. */
module OrdersHandler {
  import opened Http
  import opened Text
  import opened OrderValidation
  import opened OrderListing

  /** The query string of a GET, already parsed; `queryStringParameters`
      being absent reads as every parameter missing. */
  datatype ListQuery = ListQuery(playerId: Option<string>, limit: Option<nat>)

  datatype Request = Request(httpMethod: Option<string>, body: OrderFields, query: ListQuery)

  /** What the JSON body of a response carries. A preflight answer has an
      empty body and the CORS header listing the allowed methods. */
  datatype Body =
    | Preflight(allowMethods: string)
    | Failure(error: string)
    | Created(order: Order)
    | Listing(orders: seq<Order>, count: nat)

  datatype Response = Response(status: int, body: Body)

  /** What a request asks of the table, once dispatch and validation are done. */
  datatype Action =
    | Reply(response: Response)
    | Create(draft: Draft)
    | Fetch(playerId: string, limit: nat)

  const AllowedMethods := "GET, POST, OPTIONS"
  const Pending := "pending"

  /** The row a valid POST inserts. */
  function PendingOrder(id: nat, d: Draft, now: int): Order {
    Order(id, d.playerId, d.ucAmount, d.bonusUc, d.price, Pending, now)
  }

  /** Dispatch: OPTIONS first, then the database URL, then POST, GET or 405. */
  function Route(req: Request, dsn: Option<string>): (a: Action)
    // a preflight is answered without looking at the database URL
    ensures RequestMethod(req.httpMethod) == "OPTIONS" ==>
      a == Reply(Response(OkStatus, Preflight(AllowedMethods)))
    // every other method, supported or not, first needs the database URL
    ensures RequestMethod(req.httpMethod) != "OPTIONS" && !DsnConfigured(dsn) ==>
      a == Reply(Response(ServerErrorStatus, Failure(DatabaseMissing)))
    // an order is created exactly for a POST that passes validation
    ensures a.Create? <==>
      RequestMethod(req.httpMethod) == "POST" && DsnConfigured(dsn) && ValidateOrder(req.body).Accepted?
    ensures a.Create? ==> a.draft == ValidateOrder(req.body).draft
    // a POST that fails validation is a 400 carrying the first failing rule's message
    ensures RequestMethod(req.httpMethod) == "POST" && DsnConfigured(dsn) && ValidateOrder(req.body).Rejected? ==>
      a == Reply(Response(BadRequestStatus, Failure(ValidateOrder(req.body).error)))
    // a GET reads the table with the stripped player filter and the capped limit
    ensures a.Fetch? <==> RequestMethod(req.httpMethod) == "GET" && DsnConfigured(dsn)
    ensures a.Fetch? ==>
      a.playerId == Strip(GetOr(req.query.playerId, "")) && a.limit == EffectiveLimit(req.query.limit)
    // anything else, with the database configured, is 405
    ensures RequestMethod(req.httpMethod) !in {"OPTIONS", "POST", "GET"} && DsnConfigured(dsn) ==>
      a == Reply(Response(NotAllowedStatus, Failure(MethodNotAllowed)))
  {
    var verb := RequestMethod(req.httpMethod);
    if verb == "OPTIONS" then
      Reply(Response(OkStatus, Preflight(AllowedMethods)))
    else if !DsnConfigured(dsn) then
      Reply(Response(ServerErrorStatus, Failure(DatabaseMissing)))
    else if verb == "POST" then
      match ValidateOrder(req.body)
      case Rejected(error) => Reply(Response(BadRequestStatus, Failure(error)))
      case Accepted(d) => Create(d)
    else if verb == "GET" then
      Fetch(Strip(GetOr(req.query.playerId, "")), EffectiveLimit(req.query.limit))
    else
      Reply(Response(NotAllowedStatus, Failure(MethodNotAllowed)))
  }

  /** Every answer given without touching the table is a 200 preflight or one
      of the four error statuses, each with its own kind of body. */
  lemma ReplyStatuses(req: Request, dsn: Option<string>)
    requires Route(req, dsn).Reply?
    ensures var r := Route(req, dsn).response;
      && (r.status == OkStatus <==> r.body.Preflight?)
      && (r.status != OkStatus ==>
            (r.body.Failure? && r.status in {BadRequestStatus, NotAllowedStatus, ServerErrorStatus}))
      && (r.status == BadRequestStatus <==> RequestMethod(req.httpMethod) == "POST" && DsnConfigured(dsn))
  {
  }

  /** The `orders` table: rows in insertion order and the next value of the
      SERIAL id column. */
  class OrderTable {
    var rows: seq<Order>
    var nextId: nat

    /** Ids grow with insertion order and stay below the next id to hand out,
        so every row has its own id. */
    ghost predicate Valid()
      reads this
    {
      && (forall i, j :: 0 <= i < j < |rows| ==> rows[i].id < rows[j].id)
      && (forall i :: 0 <= i < |rows| ==> rows[i].id < nextId)
    }

    /** An empty table; SERIAL hands out 1 first. */
    constructor ()
      ensures Valid() && rows == [] && nextId == 1
    {
      rows := [];
      nextId := 1;
    }

    /** `INSERT ... 'pending' ... RETURNING id, created_at`, committed;
        `now` is the timestamp the database assigns. */
    method Insert(d: Draft, now: int) returns (o: Order)
      requires Valid()
      modifies this
      ensures Valid()
      ensures o == PendingOrder(old(nextId), d, now)
      ensures rows == old(rows) + [o] && nextId == old(nextId) + 1
      ensures forall x :: x in old(rows) ==> x.id != o.id
    {
      o := PendingOrder(nextId, d, now);
      rows := rows + [o];
      nextId := nextId + 1;
    }

    /** The GET path: run the SELECT, then copy its rows into the response
        list one by one. */
    method List(playerId: string, limit: nat) returns (orders: seq<Order>, count: nat)
      ensures orders == Select(rows, playerId, limit)
      ensures count == |orders|
    {
      var fetched := Select(rows, playerId, limit);
      orders := [];
      var i := 0;
      while i < |fetched|
        invariant 0 <= i <= |fetched|
        invariant orders == fetched[..i]
      {
        assert fetched[..i + 1] == fetched[..i] + [fetched[i]];
        orders := orders + [fetched[i]];
        i := i + 1;
      }
      assert fetched[..i] == fetched;
      count := |orders|;
    }

    /** One invocation of the handler. Only a valid POST changes the table. */
    method Handle(req: Request, dsn: Option<string>, now: int) returns (resp: Response)
      requires Valid()
      modifies this
      ensures Valid()
      ensures match Route(req, dsn)
        case Reply(r) =>
          resp == r && rows == old(rows) && nextId == old(nextId)
        case Create(d) =>
          && rows == old(rows) + [PendingOrder(old(nextId), d, now)] && nextId == old(nextId) + 1
          && resp == Response(CreatedStatus, Created(PendingOrder(old(nextId), d, now)))
        case Fetch(p, n) =>
          && rows == old(rows) && nextId == old(nextId)
          && resp == Response(OkStatus, Listing(Select(rows, p, n), |Select(rows, p, n)|))
    {
      match Route(req, dsn)
      case Reply(r) =>
        resp := r;
      case Create(d) =>
        var o := Insert(d, now);
        resp := Response(CreatedStatus, Created(o));
      case Fetch(p, n) =>
        var orders, count := List(p, n);
        resp := Response(OkStatus, Listing(orders, count));
    }
  }

  /** An order just created is listed by a GET for its player whose limit
      covers all of that player's orders. */
  lemma CreatedOrderListed(rows: seq<Order>, id: nat, d: Draft, now: int, limit: nat)
    requires IsPlayerId(d.playerId)
    requires limit >= |Matching(rows + [PendingOrder(id, d, now)], d.playerId)|
    ensures PendingOrder(id, d, now) in Select(rows + [PendingOrder(id, d, now)], d.playerId, limit)
  {
    var o := PendingOrder(id, d, now);
    var all := rows + [o];
    assert o in all;
    assert o in multiset(Candidates(all, d.playerId));
    SelectComplete(all, d.playerId, limit);
    assert o in multiset(Select(all, d.playerId, limit));
  }

  /** An order stamped later than every existing row heads any non-empty GET
      that can include it. */
  lemma LatestOrderFirst(rows: seq<Order>, o: Order, playerId: string, limit: nat)
    requires forall x :: x in rows ==> x.createdAt < o.createdAt
    requires playerId == "" || o.playerId == playerId
    requires limit >= 1
    ensures var r := Select(rows + [o], playerId, limit); |r| >= 1 && r[0] == o
  {
    var all := rows + [o];
    var c := Candidates(all, playerId);
    var sorted := Newest(c);
    assert o in all;
    assert o in c;
    assert o in multiset(sorted);
    var j :| 0 <= j < |sorted| && sorted[j] == o;
    assert sorted[0] in multiset(c);
    assert sorted[0] in all;
  }
}

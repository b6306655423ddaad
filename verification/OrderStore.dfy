/**
 The tables OrdersService.create works on, the service itself running alone, and the function it
 computes. CreateRuns.dfy shows that interleaved calls amount to runs of this function.
 */
module OrderStore {
  import opened Wrappers
  import opened Cart

  type OrderId = nat
  type UserId = nat

  datatype Request = Request(user: UserId, key: Option<string>, lines: seq<Line>)

  datatype OrderRow = OrderRow(user: UserId, key: Option<string>, items: seq<Line>)

  // byKey is the unique index on orders.idempotency_key; NULL keys are not indexed.
  datatype Db = Db(users: set<UserId>, stock: Stock, orders: map<OrderId, OrderRow>, byKey: map<string, OrderId>)

  datatype Outcome = Returned(order: OrderId, wasDuplicate: bool) | Failed(error: Error)

  // The source's `if (key)`: the empty string counts as no key, although it is stored and indexed.
  predicate HasKey(key: Option<string>) {
    key.Some? && key.value != ""
  }

  predicate KeyFree(db: Db, key: Option<string>) {
    key.Some? ==> key.value !in db.byKey
  }

  ghost predicate IndexExact(db: Db) {
    && (forall k :: k in db.byKey ==> db.byKey[k] in db.orders && db.orders[db.byKey[k]].key == Some(k))
    && (forall o :: o in db.orders && db.orders[o].key.Some? ==>
          db.orders[o].key.value in db.byKey && db.byKey[db.orders[o].key.value] == o)
  }

  ghost predicate NoOversell(stock: Stock) {
    forall p :: p in stock ==> stock[p] >= 0
  }

  ghost predicate Valid(db: Db) {
    IndexExact(db) && NoOversell(db.stock)
  }

  function IndexAdd(byKey: map<string, OrderId>, key: Option<string>, id: OrderId): map<string, OrderId> {
    if key.Some? then byKey[key.value := id] else byKey
  }

  function IndexRemove(byKey: map<string, OrderId>, key: Option<string>): map<string, OrderId> {
    if key.Some? then byKey - {key.value} else byKey
  }

  function InsertOrder(db: Db, req: Request, id: OrderId, stock: Stock): Db {
    db.(stock := stock,
        orders := db.orders[id := OrderRow(req.user, req.key, req.lines)],
        byKey := IndexAdd(db.byKey, req.key, id))
  }

  /** The effect of one create call that runs with nobody else around. */
  function SerialCreate(db: Db, req: Request, id: OrderId): (Db, Outcome) {
    if HasKey(req.key) && !KeyFree(db, req.key) then (db, Returned(db.byKey[req.key.value], true))
    else if req.lines == [] then (db, Failed(EmptyItems))
    else if req.user !in db.users then (db, Failed(UserNotFound))
    else if !KeyFree(db, req.key) then (db, Failed(KeyTaken))
    else
      var cart := TakeAll(db.stock, req.lines);
      if cart.Rejected? then (db, Failed(cart.error))
      else (InsertOrder(db, req, id, cart.stock), Returned(id, false))
  }

  /** deleteOrder: items go with the order by cascade; stock is not given back. */
  function RemoveOrder(db: Db, id: OrderId): Db
    requires id in db.orders
  {
    db.(orders := db.orders - {id}, byKey := IndexRemove(db.byKey, db.orders[id].key))
  }

  predicate CanRekey(db: Db, id: OrderId, key: Option<string>) {
    id in db.orders && (key.Some? && key.value in db.byKey ==> db.byKey[key.value] == id)
  }

  /** updateOrder writing the idempotency key column. */
  function RekeyOrder(db: Db, id: OrderId, key: Option<string>): Db
    requires id in db.orders
  {
    var row := db.orders[id];
    db.(orders := db.orders[id := row.(key := key)],
        byKey := IndexAdd(IndexRemove(db.byKey, row.key), key, id))
  }

  /** updateOrder saving an order that is no longer there: TypeORM inserts the row again. */
  function RestoreOrder(db: Db, id: OrderId, row: OrderRow): Db {
    db.(orders := db.orders[id := row], byKey := IndexAdd(db.byKey, row.key, id))
  }

  // An order with this non-empty key is there already.
  predicate IsRepeated(db: Db, req: Request) {
    req.key.Some? && req.key.value != "" && req.key.value in db.byKey
  }

  /** A call creates an order exactly when its key is unused, its user exists and every product's
      summed demand fits; the new order then holds the cart and the stock drops by the demand. */
  lemma CreateIsExact(db: Db, req: Request, id: OrderId)
    requires Valid(db) && id !in db.orders
    ensures var (db', r) := SerialCreate(db, req, id);
            && (r == Returned(id, false) <==>
                  KeyFree(db, req.key) && req.lines != [] && req.user in db.users
                  && Acceptable(db.stock, req.lines))
            && (r == Returned(id, false) ==>
                  && db'.stock == Reduced(db.stock, req.lines)
                  && db'.orders == db.orders[id := OrderRow(req.user, req.key, req.lines)])
            && (r != Returned(id, false) ==> db' == db)
            && (r.Returned? && r.wasDuplicate <==> IsRepeated(db, req))
            && (IsRepeated(db, req) ==> r.order in db.orders && db.orders[r.order].key == req.key)
  {
    CartIsExact(db.stock, req.lines);
  }

  // A call that a duplicate answer does not settle, with a cart and a known user.
  predicate GetsToInsert(db: Db, req: Request) {
    !IsRepeated(db, req) && req.lines != [] && req.user in db.users
  }

  // When a call that runs alone is to fail, and how.
  ghost predicate FailsWith(db: Db, req: Request, error: Error) {
    match error
    case EmptyItems => !IsRepeated(db, req) && req.lines == []
    case UserNotFound => !IsRepeated(db, req) && req.lines != [] && req.user !in db.users
    case KeyTaken => GetsToInsert(db, req) && req.key == Some("") && "" in db.byKey
    case _ =>
      && GetsToInsert(db, req) && !(req.key == Some("") && "" in db.byKey)
      && RefusedWith(db.stock, req.lines, error)
  }

  /** A call alone fails with exactly the error that is due, the checks in their order: empty cart, unknown user, a
      taken empty key, then the first cart line that cannot be had. */
  lemma FailureIsExact(db: Db, req: Request, id: OrderId, error: Error)
    ensures SerialCreate(db, req, id).1 == Failed(error) <==> FailsWith(db, req, error)
  {
    RefusalIsExact(db.stock, req.lines, error);
  }

  /** The unique index stays exact and no product is oversold. */
  lemma CreateKeepsValid(db: Db, req: Request, id: OrderId)
    requires Valid(db) && id !in db.orders
    ensures Valid(SerialCreate(db, req, id).0)
  {
    if SerialCreate(db, req, id).1 == Returned(id, false) {
      TakeAllKeepsStockSound(db.stock, req.lines);
      assert IndexExact(SerialCreate(db, req, id).0);
    }
  }

  lemma RemoveKeepsValid(db: Db, id: OrderId)
    requires Valid(db) && id in db.orders
    ensures Valid(RemoveOrder(db, id))
  {
  }

  lemma RekeyKeepsValid(db: Db, id: OrderId, key: Option<string>)
    requires Valid(db) && CanRekey(db, id, key)
    ensures Valid(RekeyOrder(db, id, key))
  {
  }

  lemma RestoreKeepsValid(db: Db, id: OrderId, row: OrderRow)
    requires Valid(db) && id !in db.orders && KeyFree(db, row.key)
    ensures Valid(RestoreOrder(db, id, row))
  {
  }

  /** Repeating a call that carries a non-empty key returns the same order and touches nothing,
      whatever cart and user the repetition carries. */
  lemma RepeatedCreateIsIdempotent(db: Db, req: Request, id: OrderId, again: Request, id': OrderId)
    requires Valid(db) && id !in db.orders
    requires HasKey(req.key) && again.key == req.key
    requires SerialCreate(db, req, id).1.Returned?
    ensures var (db', r) := SerialCreate(db, req, id);
            SerialCreate(db', again, id') == (db', Returned(r.order, true))
  {
  }

  /** And a non-empty key is what it takes: the call just made is answered by the same order when made
      again if and only if its key is non-empty. */
  lemma IdempotentExactlyWithKey(db: Db, req: Request, id: OrderId, id': OrderId)
    requires Valid(db) && id !in db.orders && SerialCreate(db, req, id).1 == Returned(id, false)
    requires id' !in SerialCreate(db, req, id).0.orders
    ensures var db' := SerialCreate(db, req, id).0;
            SerialCreate(db', req, id').1 == Returned(id, true) <==> req.key.Some? && req.key.value != ""
  {
    if HasKey(req.key) { RepeatedCreateIsIdempotent(db, req, id, req, id'); }
  }

  function FailureOf(cart: CartResult): Option<Error> {
    if cart.Fits? then None else Some(cart.error)
  }

  /** So the transaction body fails exactly with the error due at the first line that cannot be had, and otherwise the
      whole cart can. */
  lemma PlacingVerdict(stock: Stock, lines: seq<Line>)
    ensures FailureOf(TakeAll(stock, lines)).None? <==> Acceptable(stock, lines)
    ensures forall error :: FailureOf(TakeAll(stock, lines)) == Some(error) <==> RefusedWith(stock, lines, error)
  {
    CartIsExact(stock, lines);
    forall error ensures TakeAll(stock, lines) == Rejected(error) <==> RefusedWith(stock, lines, error) {
      RefusalIsExact(stock, lines, error);
    }
  }

  /** OrdersService with the database to itself. */
  class OrdersService {
    var users: set<UserId>
    var stock: Stock
    var orders: map<OrderId, OrderRow>
    var byKey: map<string, OrderId>
    var published: seq<OrderId>  // orders announced on the orders.process queue

    constructor (users: set<UserId>, stock: Stock)
      ensures Tables() == Db(users, stock, map[], map[]) && published == []
    {
      this.users, this.stock := users, stock;
      orders, byKey, published := map[], map[], [];
    }

    function Tables(): Db
      reads this
    {
      Db(users, stock, orders, byKey)
    }

    /** The whole of create: key lookup, validation, transaction with its cart loop, announcement. A failed
        transaction leaves the tables as they were; an announcement that throws, on a closed channel, does not. */
    method Create(req: Request, id: OrderId, channelClosed: bool) returns (r: Outcome)
      requires id !in orders
      modifies this
      ensures var (db, outcome) := SerialCreate(old(Tables()), req, id);
              && Tables() == db
              && r == (if outcome == Returned(id, false) && channelClosed then Failed(BrokerError) else outcome)
      ensures published == old(published) + if r == Returned(id, false) then [id] else []
      ensures forall error :: error != BrokerError ==>
                (r == Failed(error) <==> FailsWith(old(Tables()), req, error))
    {
      forall error ensures SerialCreate(Tables(), req, id).1 == Failed(error) <==> FailsWith(Tables(), req, error) {
        FailureIsExact(Tables(), req, id, error);
      }
      if HasKey(req.key) && req.key.value in byKey {
        return Returned(byKey[req.key.value], true);
      }
      if |req.lines| == 0 {
        return Failed(EmptyItems);
      }
      if req.user !in users {
        return Failed(UserNotFound);
      }
      var before := stock;
      var failure := None;
      if req.key.Some? && req.key.value in byKey {
        failure := Some(KeyTaken);
      } else {
        failure := PlaceItems(req, id);
      }
      if failure.Some? {
        stock := before;  // rollback
        // With nobody else around, only an empty key can be taken here, and an empty key is not
        // looked up again; CreateRuns has the case where another call took the key meanwhile.
        return Failed(failure.value);
      }
      if channelClosed {
        return Failed(BrokerError);
      }
      published := published + [id];
      return Returned(id, false);
    }

    /** The transaction body: the order row, then one product row and one item per cart line. */
    method PlaceItems(req: Request, id: OrderId) returns (failure: Option<Error>)
      requires id !in orders && KeyFree(Tables(), req.key)
      modifies this
      ensures users == old(users) && published == old(published)
      ensures failure == FailureOf(TakeAll(old(stock), req.lines))
      ensures failure.None? ==>
                Tables() == InsertOrder(old(Tables()), req, id, TakeAll(old(stock), req.lines).stock)
      ensures failure.Some? ==> orders == old(orders) && byKey == old(byKey)
    {
      ghost var start := stock;
      var savedItems: seq<Line> := [];
      var i := 0;
      while i < |req.lines|
        invariant 0 <= i <= |req.lines|
        invariant savedItems == req.lines[..i]
        invariant TakeAll(start, req.lines[..i]) == Fits(stock)
        invariant orders == old(orders) && byKey == old(byKey) && users == old(users) && published == old(published)
      {
        var item := req.lines[i];
        TakeAllStep(start, req.lines, i);
        if item.product !in stock {
          TakeAllStops(start, req.lines, i + 1);
          return Some(ProductNotFound);
        }
        if item.quantity <= 0 {
          TakeAllStops(start, req.lines, i + 1);
          return Some(BadQuantity);
        }
        if stock[item.product] < item.quantity {
          TakeAllStops(start, req.lines, i + 1);
          return Some(InsufficientStock);
        }
        stock := stock[item.product := stock[item.product] - item.quantity];
        savedItems := savedItems + [item];
        i := i + 1;
      }
      assert req.lines[..i] == req.lines;
      orders := orders[id := OrderRow(req.user, req.key, savedItems)];
      byKey := IndexAdd(byKey, req.key, id);
      return None;
    }

    method DeleteOrder(id: OrderId) returns (found: bool)
      modifies this
      ensures found == (id in old(orders))
      ensures Tables() == if found then RemoveOrder(old(Tables()), id) else old(Tables())
      ensures published == old(published)
    {
      found := id in orders;
      if found {
        byKey := IndexRemove(byKey, orders[id].key);
        orders := orders - {id};
      }
    }
  }

  lemma TakeAllStep(stock: Stock, lines: seq<Line>, i: nat)
    requires i < |lines|
    ensures TakeAll(stock, lines[..i + 1]) ==
            var before := TakeAll(stock, lines[..i]);
            if before.Rejected? then before else TakeLine(before.stock, lines[i])
  {
    assert lines[..i + 1][..i] == lines[..i];
  }

  // The first rejected line decides the cart: later lines are never looked at.
  lemma {:induction false} TakeAllStops(stock: Stock, lines: seq<Line>, i: nat)
    requires i <= |lines| && TakeAll(stock, lines[..i]).Rejected?
    ensures TakeAll(stock, lines) == TakeAll(stock, lines[..i])
    decreases |lines| - i
  {
    if i == |lines| {
      assert lines[..i] == lines;
    } else {
      TakeAllStep(stock, lines, i);
      TakeAllStops(stock, lines, i + 1);
    }
  }
}

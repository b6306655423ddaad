/**
 The cart loop of OrdersService.create (src/orders/order.service.ts, lines 89-115), seen as a
 function on the stock table: one line at a time, each either lowering the stock of its product or
 rejecting the whole cart.
 */
module Cart {
  type ProductId = nat

  // price is the line's price snapshot, in cents
  datatype Line = Line(product: ProductId, quantity: int, price: int)

  datatype Error =
    | EmptyItems
    | UserNotFound
    | ProductNotFound
    | BadQuantity
    | InsufficientStock
    | KeyTaken        // unique violation on the idempotency key (code 23505)
    | DatabaseError   // deadlock victim, lost connection, timeout
    | BrokerError     // announcing the committed order threw: the channel was closed
    | Crashed         // the calling process died

  type Stock = map<ProductId, int>

  datatype CartResult = Fits(stock: Stock) | Rejected(error: Error)

  // The checks are made in the source's order: product, quantity, stock.
  function TakeLine(stock: Stock, line: Line): CartResult {
    if line.product !in stock then Rejected(ProductNotFound)
    else if line.quantity <= 0 then Rejected(BadQuantity)
    else if stock[line.product] < line.quantity then Rejected(InsufficientStock)
    else Fits(stock[line.product := stock[line.product] - line.quantity])
  }

  // The loop over a prefix of the cart, last line outermost.
  function TakeAll(stock: Stock, lines: seq<Line>): CartResult {
    if lines == [] then Fits(stock)
    else
      var before := TakeAll(stock, lines[..|lines| - 1]);
      if before.Rejected? then before else TakeLine(before.stock, lines[|lines| - 1])
  }

  // Summed quantity a cart asks of one product, repeated products included.
  function Demand(lines: seq<Line>, p: ProductId): int {
    if lines == [] then 0
    else
      var last := lines[|lines| - 1];
      Demand(lines[..|lines| - 1], p) + if last.product == p then last.quantity else 0
  }

  function Products(lines: seq<Line>): set<ProductId> {
    set l | l in lines :: l.product
  }

  // What a caller could check up front, without running the loop.
  ghost predicate Acceptable(stock: Stock, lines: seq<Line>) {
    && (forall l :: l in lines ==> l.product in stock && l.quantity > 0)
    && (forall p :: p in Products(lines) && p in stock ==> Demand(lines, p) <= stock[p])
  }

  function Reduced(stock: Stock, lines: seq<Line>): Stock {
    map p | p in stock :: stock[p] - Demand(lines, p)
  }

  lemma {:induction false} DemandOutside(lines: seq<Line>, p: ProductId)
    requires p !in Products(lines)
    ensures Demand(lines, p) == 0
  {
    if lines != [] {
      var rest, last := lines[..|lines| - 1], lines[|lines| - 1];
      assert last in lines && last.product in Products(lines);
      assert forall l :: l in rest ==> l in lines;
      DemandOutside(rest, p);
    }
  }

  lemma {:induction false} DemandNonNegative(lines: seq<Line>, p: ProductId)
    requires forall l :: l in lines ==> l.quantity > 0
    ensures Demand(lines, p) >= 0
  {
    if lines != [] {
      var rest, last := lines[..|lines| - 1], lines[|lines| - 1];
      assert last in lines;
      assert forall l :: l in rest ==> l in lines;
      DemandNonNegative(rest, p);
    }
  }

  // Adding one line to a cart: acceptability asks for the shorter cart and for room left over.
  lemma AcceptableSnoc(stock: Stock, rest: seq<Line>, last: Line)
    ensures Acceptable(stock, rest + [last]) <==>
            && Acceptable(stock, rest)
            && last.product in stock && last.quantity > 0
            && Demand(rest, last.product) + last.quantity <= stock[last.product]
  {
    var lines := rest + [last];
    assert lines[..|lines| - 1] == rest;
    assert Products(lines) == Products(rest) + {last.product} by {
      assert forall l :: l in lines <==> l in rest || l == last;
    }
    if last.product !in Products(rest) { DemandOutside(rest, last.product); }
    if Acceptable(stock, lines) {
      assert last in lines;
      forall l | l in rest ensures l.product in stock && l.quantity > 0 { assert l in lines; }
      forall p | p in Products(rest) && p in stock ensures Demand(rest, p) <= stock[p] {
        assert p in Products(lines);
        assert Demand(lines, p) <= stock[p];
      }
    } else if Acceptable(stock, rest) && last.product in stock && last.quantity > 0
              && Demand(rest, last.product) + last.quantity <= stock[last.product] {
      forall p | p in Products(lines) && p in stock ensures Demand(lines, p) <= stock[p] {
        if p != last.product { assert p in Products(rest); }
      }
      assert false;
    }
  }

  /** The line-by-line loop accepts exactly the carts whose summed demand fits the stock, and then
      takes exactly that demand. No assumption on the cart or on the stock. */
  lemma {:induction false} CartIsExact(stock: Stock, lines: seq<Line>)
    ensures TakeAll(stock, lines).Fits? <==> Acceptable(stock, lines)
    ensures TakeAll(stock, lines).Fits? ==> TakeAll(stock, lines).stock == Reduced(stock, lines)
  {
    if lines == [] {
      assert Reduced(stock, lines) == stock;
    } else {
      var rest, last := lines[..|lines| - 1], lines[|lines| - 1];
      assert lines == rest + [last];
      CartIsExact(stock, rest);
      AcceptableSnoc(stock, rest, last);
    }
  }

  lemma {:induction false} DemandIsSumOverMultiset(lines: seq<Line>, k: nat, p: ProductId)
    requires k < |lines|
    ensures Demand(lines, p) ==
            Demand(lines[..k] + lines[k + 1..], p) + if lines[k].product == p then lines[k].quantity else 0
  {
    var rest, last := lines[..|lines| - 1], lines[|lines| - 1];
    var without := lines[..k] + lines[k + 1..];
    if k == |lines| - 1 {
      assert without == rest;
    } else {
      DemandIsSumOverMultiset(rest, k, p);
      assert without[..|without| - 1] == rest[..k] + rest[k + 1..];
      assert without[|without| - 1] == last;
    }
  }

  lemma DropOne(a: seq<Line>, b: seq<Line>) returns (k: nat)
    requires a != [] && multiset(a) == multiset(b)
    ensures k < |b| && b[k] == a[|a| - 1]
    ensures multiset(a[..|a| - 1]) == multiset(b[..k] + b[k + 1..])
  {
    var last := a[|a| - 1];
    assert a == a[..|a| - 1] + [last];
    assert last in multiset(b);
    k :| 0 <= k < |b| && b[k] == last;
    assert b == b[..k] + [last] + b[k + 1..];
    var x, y := multiset(a[..|a| - 1]), multiset(b[..k] + b[k + 1..]);
    assert multiset(a) == x + multiset{last};
    assert multiset(b) == y + multiset{last};
    assert x == multiset(a) - multiset{last} && y == multiset(b) - multiset{last};
  }

  lemma {:induction false} DemandIgnoresOrder(a: seq<Line>, b: seq<Line>, p: ProductId)
    requires multiset(a) == multiset(b)
    ensures Demand(a, p) == Demand(b, p)
    decreases |a|
  {
    assert |a| == |multiset(a)| == |multiset(b)| == |b|;
    if a != [] {
      var k := DropOne(a, b);
      DemandIgnoresOrder(a[..|a| - 1], b[..k] + b[k + 1..], p);
      DemandIsSumOverMultiset(b, k, p);
    }
  }

  lemma SameLines(a: seq<Line>, b: seq<Line>)
    requires multiset(a) == multiset(b)
    ensures forall l :: l in a <==> l in b
    ensures Products(a) == Products(b)
    ensures forall p :: Demand(a, p) == Demand(b, p)
  {
    assert forall l :: l in a <==> l in multiset(a);
    assert forall l :: l in b <==> l in multiset(b);
    forall p ensures Demand(a, p) == Demand(b, p) { DemandIgnoresOrder(a, b, p); }
  }

  /** Any permutation of a cart gets the same verdict and leaves the same stock. */
  lemma CartIsOrderFree(stock: Stock, a: seq<Line>, b: seq<Line>)
    requires multiset(a) == multiset(b)
    ensures TakeAll(stock, a).Fits? <==> TakeAll(stock, b).Fits?
    ensures TakeAll(stock, a).Fits? ==> TakeAll(stock, a).stock == TakeAll(stock, b).stock
  {
    SameLines(a, b);
    CartIsExact(stock, a);
    CartIsExact(stock, b);
    assert Reduced(stock, a) == Reduced(stock, b);
  }

  // The loop takes the lines before k and refuses line k.
  ghost predicate StopsAt(stock: Stock, lines: seq<Line>, k: nat) {
    k < |lines| && Acceptable(stock, lines[..k]) && !Acceptable(stock, lines[..k + 1])
  }

  // The error this line is due, with these lines taken before it.
  predicate Due(stock: Stock, before: seq<Line>, line: Line, error: Error) {
    match error
    case ProductNotFound => line.product !in stock
    case BadQuantity => line.product in stock && line.quantity <= 0
    case InsufficientStock =>
      && line.product in stock && line.quantity > 0
      && Demand(before, line.product) + line.quantity > stock[line.product]
    case _ => false
  }

  ghost predicate RefusedAt(stock: Stock, lines: seq<Line>, k: nat, error: Error) {
    StopsAt(stock, lines, k) && Due(stock, lines[..k], lines[k], error)
  }

  ghost predicate RefusedWith(stock: Stock, lines: seq<Line>, error: Error) {
    exists k: nat :: RefusedAt(stock, lines, k, error)
  }

  lemma NextLineVerdict(stock: Stock, before: seq<Line>, line: Line)
    requires TakeAll(stock, before).Fits?
    ensures Acceptable(stock, before + [line]) <==> TakeLine(TakeAll(stock, before).stock, line).Fits?
    ensures forall error :: TakeLine(TakeAll(stock, before).stock, line) == Rejected(error) <==>
              Due(stock, before, line, error)
  {
    CartIsExact(stock, before);
    AcceptableSnoc(stock, before, line);
  }

  lemma FirstRefusalDecides(stock: Stock, before: seq<Line>, line: Line, error: Error)
    requires RefusedWith(stock, before, error)
    ensures RefusedWith(stock, before + [line], error)
  {
    var k: nat :| RefusedAt(stock, before, k, error);
    RefusedBefore(stock, before, line, k, error);
  }

  lemma RefusedBefore(stock: Stock, before: seq<Line>, line: Line, k: nat, error: Error)
    requires RefusedAt(stock, before, k, error)
    ensures RefusedAt(stock, before + [line], k, error)
  {
    var all := before + [line];
    assert all[..k] == before[..k] && all[..k + 1] == before[..k + 1] && all[k] == before[k];
  }

  lemma LastLineRefused(stock: Stock, before: seq<Line>, line: Line, error: Error)
    requires TakeAll(stock, before).Fits? && Due(stock, before, line, error)
    ensures RefusedWith(stock, before + [line], error)
  {
    var all := before + [line];
    CartIsExact(stock, before);
    AcceptableSnoc(stock, before, line);
    assert all[..|before|] == before && all[..|before| + 1] == all;
    assert RefusedAt(stock, all, |before|, error);
  }

  lemma {:induction false} RefusalIsDue(stock: Stock, lines: seq<Line>)
    requires TakeAll(stock, lines).Rejected?
    ensures RefusedWith(stock, lines, TakeAll(stock, lines).error)
  {
    var before, line := lines[..|lines| - 1], lines[|lines| - 1];
    assert lines == before + [line];
    if TakeAll(stock, before).Rejected? {
      RefusalIsDue(stock, before);
      FirstRefusalDecides(stock, before, line, TakeAll(stock, lines).error);
    } else {
      NextLineVerdict(stock, before, line);
      LastLineRefused(stock, before, line, TakeAll(stock, lines).error);
    }
  }

  // Every longer cart is as unacceptable.
  lemma {:induction false} AcceptablePrefix(stock: Stock, lines: seq<Line>, k: nat)
    requires k <= |lines| && Acceptable(stock, lines)
    ensures Acceptable(stock, lines[..k])
    decreases |lines|
  {
    if k == |lines| {
      assert lines[..k] == lines;
    } else {
      var before := lines[..|lines| - 1];
      assert lines == before + [lines[|lines| - 1]] && before[..k] == lines[..k];
      AcceptableSnoc(stock, before, lines[|lines| - 1]);
      AcceptablePrefix(stock, before, k);
    }
  }

  lemma NoFitAfterStop(stock: Stock, lines: seq<Line>, j: nat, k: nat)
    requires StopsAt(stock, lines, j) && j < k <= |lines|
    ensures !Acceptable(stock, lines[..k])
  {
    assert lines[..k][..j + 1] == lines[..j + 1];
    if Acceptable(stock, lines[..k]) { AcceptablePrefix(stock, lines[..k], j + 1); }
  }

  lemma RefusedIsRejected(stock: Stock, lines: seq<Line>, k: nat, error: Error)
    requires RefusedAt(stock, lines, k, error)
    ensures TakeAll(stock, lines).Rejected?
  {
    NoFitAfterStop(stock, lines, k, |lines|);
    assert lines[..|lines|] == lines;
    CartIsExact(stock, lines);
  }

  // There is one such line, and one error is due at it.
  lemma OneRefusal(stock: Stock, lines: seq<Line>, j: nat, a: Error, k: nat, b: Error)
    requires RefusedAt(stock, lines, j, a) && RefusedAt(stock, lines, k, b)
    ensures j == k && a == b
  {
    if j < k { NoFitAfterStop(stock, lines, j, k); }
    if k < j { NoFitAfterStop(stock, lines, k, j); }
  }

  /** A cart is refused with exactly the error that is due at its first line that cannot be had: no such product, no
      positive quantity, or less in stock than this and the earlier lines ask of the product. */
  lemma RefusalIsExact(stock: Stock, lines: seq<Line>, error: Error)
    ensures TakeAll(stock, lines) == Rejected(error) <==> RefusedWith(stock, lines, error)
  {
    if TakeAll(stock, lines).Rejected? { RefusalIsDue(stock, lines); }
    if k: nat :| RefusedAt(stock, lines, k, error) {
      RefusedIsRejected(stock, lines, k, error);
      var j: nat :| RefusedAt(stock, lines, j, TakeAll(stock, lines).error);
      OneRefusal(stock, lines, j, TakeAll(stock, lines).error, k, error);
    }
  }

  /** Stock never goes below zero, and no product appears or disappears. */
  lemma TakeAllKeepsStockSound(stock: Stock, lines: seq<Line>)
    requires TakeAll(stock, lines).Fits?
    requires forall p :: p in stock ==> stock[p] >= 0
    ensures var after := TakeAll(stock, lines).stock;
            after.Keys == stock.Keys && forall p :: p in after ==> 0 <= after[p] <= stock[p]
  {
    CartIsExact(stock, lines);
    forall p | p in stock ensures 0 <= stock[p] - Demand(lines, p) <= stock[p] {
      DemandNonNegative(lines, p);
      if p !in Products(lines) { DemandOutside(lines, p); }
    }
  }

  /** A cart that fits some stock fits any larger one. */
  lemma MoreStockFits(low: Stock, high: Stock, lines: seq<Line>)
    requires TakeAll(low, lines).Fits? && forall p :: p in low ==> p in high && low[p] <= high[p]
    ensures TakeAll(high, lines).Fits?
  {
    CartIsExact(low, lines);
    CartIsExact(high, lines);
  }

  /** Two carts in a row are one long cart. */
  lemma {:induction false} TakeAllAppend(stock: Stock, a: seq<Line>, b: seq<Line>)
    requires TakeAll(stock, a).Fits?
    ensures TakeAll(stock, a + b) == TakeAll(TakeAll(stock, a).stock, b)
    decreases |b|
  {
    if b == [] {
      assert a + b == a;
    } else {
      var rest := b[..|b| - 1];
      assert (a + b)[..|a + b| - 1] == a + rest;
      TakeAllAppend(stock, a, rest);
    }
  }

  lemma ReducedFrame(stock: Stock, lines: seq<Line>, own: Stock, other: Stock)
    requires Reduced(stock, lines) == stock + own
    requires own.Keys <= stock.Keys && other.Keys <= stock.Keys
    requires own.Keys !! other.Keys && Products(lines) !! other.Keys
    ensures Reduced(stock + other, lines) == stock + other + own
  {
    forall p | p in stock ensures (stock + other)[p] - Demand(lines, p) == (stock + other + own)[p] {
      assert (stock + own)[p] == stock[p] - Demand(lines, p);
      if p in other { DemandOutside(lines, p); }
    }
  }

  /** A cart reads and writes only its own products: changing the stock of other products neither
      changes its verdict nor is overwritten by it. */
  lemma TakeAllFrame(stock: Stock, lines: seq<Line>, own: Stock, other: Stock)
    requires TakeAll(stock, lines) == Fits(stock + own)
    requires own.Keys <= stock.Keys && other.Keys <= stock.Keys
    requires own.Keys !! other.Keys && Products(lines) !! other.Keys
    ensures TakeAll(stock + other, lines) == Fits(stock + other + own)
  {
    CartIsExact(stock, lines);
    assert Acceptable(stock + other, lines);
    CartIsExact(stock + other, lines);
    ReducedFrame(stock, lines, own, other);
  }
}

/** The mock broker's ledger (crates/mock/src/adapter.rs): orders, netted positions
    and trades, each behind its own lock. The functions are the atomic sections, one
    lock at a time; the class runs them in the source's order. `Decimal` is `real`.
 */
module MockBroker {
  import opened Sequences

  datatype Side = Buy | Sell
  datatype PositionSide = Long | Short
  datatype OrderType = Market | Limit | Stop | StopLimit | TrailingStop
  datatype Status = Open | PartiallyFilled | Filled | Cancelled

  datatype Request = Request(
    symbol: string, side: Side, quantity: real, orderType: OrderType, limitPrice: Option<real>, stopPrice: Option<real>)

  datatype Order = Order(
    symbol: string, side: Side, quantity: real, filled: real, remaining: real,
    limitPrice: Option<real>, stopPrice: Option<real>, average: Option<real>, status: Status)

  datatype Position = Position(id: string, side: PositionSide, quantity: real, averageEntry: real, currentPrice: real)

  datatype Trade = Trade(order: nat, symbol: string, side: Side, quantity: real, price: real)

  datatype Error = OrderNotFound | PositionNotFound | InvalidRequest

  datatype Result<+T> = Ok(value: T) | Err(error: Error)

  // ----- Submission

  function NewOrder(r: Request): Order {
    Order(r.symbol, r.side, r.quantity, 0.0, r.quantity, r.limitPrice, r.stopPrice, None, Open)
  }

  predicate AtMost(price: real, limit: Option<real>) {
    limit.Some? ==> price <= limit.value
  }

  predicate AtLeast(price: real, limit: Option<real>) {
    limit.Some? ==> price >= limit.value
  }

  /** The price condition, checked once against the request as submitted. */
  predicate ShouldFill(r: Request, price: real) {
    var limitMet := if r.side.Buy? then AtMost(price, r.limitPrice) else AtLeast(price, r.limitPrice);
    var stopMet := if r.side.Buy? then AtLeast(price, r.stopPrice) else AtMost(price, r.stopPrice);
    match r.orderType
    case Market => true
    case TrailingStop => true
    case Limit => limitMet
    case Stop => stopMet
    case StopLimit => stopMet && limitMet
  }

  /** Only a ratio strictly between 0 and 1 is taken. */
  function WithRatio(ratio: real): Option<real> {
    if 0.0 < ratio < 1.0 then Some(ratio) else None
  }

  /** Whether an order of this submitted quantity fills in two tranches. */
  predicate Split(ratio: Option<real>, quantity: real) {
    ratio.Some? && 0.0 < quantity * ratio.value < quantity
  }

  function FirstFill(ratio: Option<real>, quantity: real): real {
    if Split(ratio, quantity) then quantity * ratio.value else quantity
  }

  // ----- The order sections

  /** The average of a quantity `x` at price `a` and a quantity `y` at price `b`. */
  function Mean(a: real, x: real, b: real, y: real): real
    requires x + y != 0.0
  {
    (a * x + b * y) / (x + y)
  }

  function FillOrder(o: Order, quantity: real, price: real): Order {
    var total := o.filled + quantity;
    var before := if o.average.Some? then o.average.value else 0.0;
    var remaining := o.quantity - total;
    o.(filled := total, remaining := remaining,
       average := if total > 0.0 then Some(Mean(before, o.filled, price, quantity)) else o.average,
       status := if remaining > 0.0 then PartiallyFilled else Filled)
  }

  lemma MeanOfOne(before: real, price: real, quantity: real)
    requires quantity != 0.0
    ensures Mean(before, 0.0, price, quantity) == price
  {
    assert before * 0.0 + price * quantity == price * quantity && 0.0 + quantity == quantity;
    assert (price * quantity) / quantity == price;
  }

  /** A first tranche of an order just submitted. */
  lemma FirstTranche(r: Request, quantity: real, price: real)
    ensures var o := FillOrder(NewOrder(r), quantity, price);
            && o.quantity == r.quantity && o.filled == quantity && o.remaining == r.quantity - quantity
            && o.average == (if quantity > 0.0 then Some(price) else None)
            && o.status == (if quantity < r.quantity then PartiallyFilled else Filled)
  {
    assert 0.0 + quantity == quantity;
    if quantity > 0.0 {
      MeanOfOne(0.0, price, quantity);
    }
  }

  /** A tranche of all that remains. */
  lemma LastTranche(o: Order, price: real)
    requires o.remaining == o.quantity - o.filled && o.quantity > 0.0 && o.average.Some?
    ensures var last := FillOrder(o, o.remaining, price);
            && last.status.Filled? && last.filled == o.quantity && last.remaining == 0.0
            && last.average == Some(Mean(o.average.value, o.filled, price, o.remaining))
  {
    assert o.filled + o.remaining == o.quantity;
  }

  /** A submitted order after its tranches, with nothing in between: the first, and what it leaves. */
  function AllTranches(r: Request, quantity: real, firstPrice: real, lastPrice: real): Order {
    var first := FillOrder(NewOrder(r), quantity, firstPrice);
    if first.status.PartiallyFilled? then FillOrder(first, first.remaining, lastPrice) else first
  }

  /** The order was filled by exactly its quantity, at the average of a tranche and the rest. */
  predicate FilledBy(o: Order, quantity: real, firstPrice: real, lastPrice: real) {
    && o.status.Filled? && o.filled == o.quantity && o.remaining == 0.0
    && (0.0 < quantity < o.quantity ==>
          o.average == Some(Mean(firstPrice, quantity, lastPrice, o.quantity - quantity)))
    && (0.0 < quantity == o.quantity ==> o.average == Some(firstPrice))
  }

  /** The order is still the one that was asked for. */
  predicate AsRequested(o: Order, r: Request) {
    && o.symbol == r.symbol && o.side == r.side && o.quantity == r.quantity
    && o.limitPrice == r.limitPrice && o.stopPrice == r.stopPrice
  }

  lemma TranchesFill(r: Request, quantity: real, firstPrice: real, lastPrice: real)
    requires quantity == r.quantity || 0.0 < quantity < r.quantity
    ensures FilledBy(AllTranches(r, quantity, firstPrice, lastPrice), quantity, firstPrice, lastPrice)
  {
    FirstTranche(r, quantity, firstPrice);
    if quantity < r.quantity {
      LastTranche(FillOrder(NewOrder(r), quantity, firstPrice), lastPrice);
    }
  }

  lemma FirstFillFits(ratio: Option<real>, quantity: real)
    ensures FirstFill(ratio, quantity) == quantity || 0.0 < FirstFill(ratio, quantity) < quantity
    ensures FirstFill(ratio, quantity) < quantity <==> Split(ratio, quantity)
  {
  }

  /** An order left alone between submission and its last tranche ends filled by exactly what was
      submitted, at the average of its tranches, of which there are two if and only if it splits. */
  lemma SubmittedOrderFills(r: Request, ratio: Option<real>, quantity: real, firstPrice: real, lastPrice: real)
    requires quantity == FirstFill(ratio, r.quantity)
    ensures FilledBy(AllTranches(r, quantity, firstPrice, lastPrice), quantity, firstPrice, lastPrice)
    ensures AsRequested(NewOrder(r), r) && NewOrder(r).status.Open?
    ensures AsRequested(AllTranches(r, quantity, firstPrice, lastPrice), r)
    ensures FillOrder(NewOrder(r), quantity, firstPrice).status.PartiallyFilled? <==> Split(ratio, r.quantity)
  {
    FirstFillFits(ratio, r.quantity);
    TranchesFill(r, quantity, firstPrice, lastPrice);
    FirstTranche(r, quantity, firstPrice);
  }

  /** The order after a modification, and whether it was accepted. The prices are
      written before the quantity is checked, so a rejected quantity still moves them. */
  function ModifyOne(o: Order, limit: Option<real>, stop: Option<real>, quantity: Option<real>): (Order, bool) {
    if !o.status.Open? then (o, false)
    else
      var priced := o.(limitPrice := if limit.Some? then limit else o.limitPrice,
                       stopPrice := if stop.Some? then stop else o.stopPrice);
      if quantity.None? then (priced, true)
      else if quantity.value < o.filled then (priced, false)
      else (priced.(quantity := quantity.value, remaining := quantity.value - o.filled), true)
  }

  /** When a rejected modification is harmless, exactly: the order was not open, or the
      request asked for no price the order did not already have. */
  lemma RejectedModifyExact(o: Order, limit: Option<real>, stop: Option<real>, quantity: Option<real>)
    requires !ModifyOne(o, limit, stop, quantity).1
    ensures ModifyOne(o, limit, stop, quantity).0 == o <==>
            || !o.status.Open?
            || ((limit.Some? ==> limit == o.limitPrice) && (stop.Some? ==> stop == o.stopPrice))
  {
  }

  /** A resize of a new order to -1 that also names a limit price is rejected, and moves the price. */
  lemma RejectedModifyMovesPrice()
    ensures var o := NewOrder(Request("AAPL", Buy, 10.0, Limit, Some(1.0), None));
            var (after, accepted) := ModifyOne(o, Some(2.0), None, Some(-1.0));
            !accepted && after.limitPrice == Some(2.0) != o.limitPrice && after.quantity == o.quantity
  {
  }

  function CancelOne(o: Order): (Order, bool) {
    if o.status.Filled? then (o, false) else (o.(status := Cancelled), true)
  }

  /** A cancel succeeds on every order that is not filled, and then changes its status and nothing
      else; a filled order is refused and left as it was. */
  lemma CancelExact(o: Order)
    ensures var (after, accepted) := CancelOne(o);
            && (accepted <==> !o.status.Filled?)
            && (accepted ==> after.status.Cancelled? && after.(status := o.status) == o)
            && (!accepted ==> after == o)
  {
  }

  /** A modification is accepted exactly when the order is open and would not be smaller than what
      it has filled; it then has the prices and the quantity asked for, remains by as much
      more, and is otherwise the same. */
  lemma ModifyExact(o: Order, limit: Option<real>, stop: Option<real>, quantity: Option<real>)
    ensures var (after, accepted) := ModifyOne(o, limit, stop, quantity);
            && (accepted <==> o.status.Open? && (quantity.Some? ==> quantity.value >= o.filled))
            && (accepted && limit.Some? ==> after.limitPrice == limit)
            && (accepted && stop.Some? ==> after.stopPrice == stop)
            && (accepted && quantity.Some? ==>
                  after.quantity == quantity.value && after.remaining == after.quantity - o.filled)
            && after.(limitPrice := if limit.Some? then o.limitPrice else after.limitPrice,
                      stopPrice := if stop.Some? then o.stopPrice else after.stopPrice,
                      quantity := if quantity.Some? then o.quantity else after.quantity,
                      remaining := if quantity.Some? then o.remaining else after.remaining) == o
  {
  }

  // ----- The position section

  type Book = map<string, Position>

  function PositionId(symbol: string): string {
    "mock-pos-" + symbol
  }

  function SideOf(side: Side): PositionSide {
    if side.Buy? then Long else Short
  }

  /** Netting one fill. The flag is set where the source divides by a zero quantity and
      panics: by then the quantity is written and the average is not. */
  function Upsert(m: Book, symbol: string, side: Side, quantity: real, price: real): (Book, bool) {
    if symbol !in m then
      (m[symbol := Position(PositionId(symbol), SideOf(side), quantity, price, price)], false)
    else
      var p := m[symbol];
      if p.side == SideOf(side) then
        var total := p.quantity + quantity;
        if total == 0.0 then (m[symbol := p.(quantity := total)], true)
        else
          var average := Mean(p.averageEntry, p.quantity, price, quantity);
          (m[symbol := p.(quantity := total, averageEntry := average, currentPrice := price)], false)
      else if quantity == p.quantity then
        (m - {symbol}, false)
      else if quantity > p.quantity then
        (m[symbol := p.(side := SideOf(side), quantity := quantity - p.quantity,
                        averageEntry := price, currentPrice := price)], false)
      else
        (m[symbol := p.(quantity := p.quantity - quantity, currentPrice := price)], false)
  }

  function CloseQuantity(p: Position, requested: Option<real>): real {
    if requested.Some? && requested.value < p.quantity then requested.value else p.quantity
  }

  function CloseSide(p: Position): Side {
    if p.side.Long? then Sell else Buy
  }

  function TakeOff(m: Book, symbol: string, requested: Option<real>): Book
    requires symbol in m
  {
    var p := m[symbol];
    var quantity := CloseQuantity(p, requested);
    if quantity == p.quantity then m - {symbol} else m[symbol := p.(quantity := p.quantity - quantity)]
  }

  function CloseOrder(p: Position, symbol: string, quantity: real, price: real): Order {
    Order(symbol, CloseSide(p), quantity, quantity, 0.0, None, None, Some(price), Filled)
  }

  // ----- Netting is signed addition

  function Signed(side: Side, quantity: real): real {
    if side.Buy? then quantity else -quantity
  }

  /** A symbol's position as a signed quantity: long positive, short negative. */
  function Holding(m: Book, symbol: string): real {
    if symbol !in m then 0.0 else if m[symbol].side.Long? then m[symbol].quantity else -m[symbol].quantity
  }

  /** Whatever the branch, netting adds the signed fill to its own symbol and to no other. */
  lemma UpsertNets(m: Book, symbol: string, side: Side, quantity: real, price: real, other: string)
    ensures Holding(Upsert(m, symbol, side, quantity, price).0, other) ==
            Holding(m, other) + if other == symbol then Signed(side, quantity) else 0.0
  {
  }

  /** What a position costs, its average times its quantity, grows by the cost of a fill on its side;
      an opening or a flip is at the fill's price; a reduction keeps the average. The fill's
      price is the position's current price in each case. */
  lemma UpsertPrices(m: Book, symbol: string, side: Side, quantity: real, price: real)
    requires !Upsert(m, symbol, side, quantity, price).1
    ensures var m' := Upsert(m, symbol, side, quantity, price).0;
            symbol in m' ==>
              && m'[symbol].currentPrice == price
              && (if symbol !in m || m'[symbol].side != m[symbol].side then m'[symbol].averageEntry == price
                  else if m[symbol].side == SideOf(side) then
                    m'[symbol].averageEntry * m'[symbol].quantity
                    == m[symbol].averageEntry * m[symbol].quantity + price * quantity
                  else m'[symbol].averageEntry == m[symbol].averageEntry)
  {
    if symbol in m && m[symbol].side == SideOf(side) {
      MeanTimesWeight(m[symbol].averageEntry, m[symbol].quantity, price, quantity);
    }
  }

  /** A position id names one symbol. */
  lemma PositionIdsDistinct(a: string, b: string)
    requires PositionId(a) == PositionId(b)
    ensures a == b
  {
    var n := |"mock-pos-"|;
    assert PositionId(a)[n..] == a && PositionId(b)[n..] == b;
  }

  lemma TakeOffNets(m: Book, symbol: string, requested: Option<real>, other: string)
    requires symbol in m
    ensures var p := m[symbol];
            Holding(TakeOff(m, symbol, requested), other) ==
            Holding(m, other) + if other == symbol then Signed(CloseSide(p), CloseQuantity(p, requested)) else 0.0
  {
  }

  /** Closing never flips a side, never leaves an empty position, and keeps the average. */
  lemma CloseNeverFlips(m: Book, symbol: string, requested: Option<real>)
    requires symbol in m && m[symbol].quantity > 0.0
    ensures var after := TakeOff(m, symbol, requested);
            && (symbol !in after <==> requested.None? || requested.value >= m[symbol].quantity)
            && (symbol in after ==>
                  && after[symbol].side == m[symbol].side && after[symbol].averageEntry == m[symbol].averageEntry
                  && after[symbol].quantity == m[symbol].quantity - requested.value > 0.0)
  {
  }

  predicate Limited(t: OrderType) {
    t.Limit? || t.StopLimit?
  }

  predicate Stopped(t: OrderType) {
    t.Stop? || t.StopLimit?
  }

  /** The price condition in signed terms: a trade never costs its side more than a limit it
      has, and never happens before the market has moved against its side to a stop it has. */
  lemma PriceConditionExact(r: Request, price: real)
    ensures ShouldFill(r, price) <==>
            && (Limited(r.orderType) && r.limitPrice.Some? ==>
                  Signed(r.side, price) <= Signed(r.side, r.limitPrice.value))
            && (Stopped(r.orderType) && r.stopPrice.Some? ==>
                  Signed(r.side, price) >= Signed(r.side, r.stopPrice.value))
  {
  }

  // ----- What keeps a book positive

  ghost predicate AllPositive(m: Book) {
    forall k | k in m :: m[k].quantity > 0.0
  }

  /** A fill on the side already held, or on neither, leaves something on that side. */
  predicate SafeFill(held: real, side: Side, quantity: real) {
    Signed(side, held) >= 0.0 ==> Signed(side, held) + quantity > 0.0
  }

  /** Netting keeps a positive book positive and its task alive exactly when the fill is safe. */
  lemma UpsertPositiveExact(m: Book, symbol: string, side: Side, quantity: real, price: real)
    requires AllPositive(m)
    ensures var (m', died) := Upsert(m, symbol, side, quantity, price);
            !died && AllPositive(m') <==> SafeFill(Holding(m, symbol), side, quantity)
  {
    var (m', died) := Upsert(m, symbol, side, quantity, price);
    if SafeFill(Holding(m, symbol), side, quantity) {
      forall k | k in m'
        ensures m'[k].quantity > 0.0
      {
        assert k != symbol ==> k in m;
      }
    } else {
      assert died || symbol in m';
    }
  }

  /** Netting into a positive book panics exactly when the fill takes back, on the side held,
      all that is held. */
  lemma UpsertDiesExact(m: Book, symbol: string, side: Side, quantity: real, price: real)
    requires AllPositive(m)
    ensures Upsert(m, symbol, side, quantity, price).1 <==>
            Signed(side, Holding(m, symbol)) > 0.0 && Signed(side, Holding(m, symbol)) + quantity == 0.0
  {
  }

  // ----- Weighted averages

  lemma MeanTimesWeight(a: real, x: real, b: real, y: real)
    requires x + y != 0.0
    ensures Mean(a, x, b, y) * (x + y) == a * x + b * y
  {
    var n, d := a * x + b * y, x + y;
    assert (n / d) * d == n;
  }

  lemma ProductNonNegative(a: real, b: real)
    requires a >= 0.0 && b >= 0.0
    ensures a * b >= 0.0
  {
  }

  lemma ProductNegative(a: real, b: real)
    requires a > 0.0 && b < 0.0
    ensures a * b < 0.0
  {
  }

  lemma ShiftQuotient(n: real, d: real, v: real)
    requires d != 0.0
    ensures n / d - v == (n - v * d) / d
  {
  }

  lemma ShiftSum(a: real, x: real, b: real, y: real, v: real)
    ensures a * x + b * y - v * (x + y) == (a - v) * x + (b - v) * y
  {
  }

  /** How far a weighted average lies from a value, in terms of how far the parts do. */
  lemma MeanShift(a: real, x: real, b: real, y: real, v: real, p: real, q: real)
    requires x + y > 0.0 && p == (a - v) * x && q == (b - v) * y
    ensures Mean(a, x, b, y) - v == (p + q) / (x + y)
  {
    ShiftQuotient(a * x + b * y, x + y, v);
    ShiftSum(a, x, b, y, v);
  }

  lemma SignOfQuotient(n: real, d: real)
    requires d > 0.0
    ensures n >= 0.0 <==> n / d >= 0.0
    ensures n > 0.0 <==> n / d > 0.0
  {
  }

  lemma MeanAtLeast(a: real, x: real, b: real, y: real, lo: real)
    requires x >= 0.0 && y >= 0.0 && x + y > 0.0 && lo <= a && lo <= b
    ensures lo <= Mean(a, x, b, y)
  {
    var p, q := (a - lo) * x, (b - lo) * y;
    ProductNonNegative(a - lo, x);
    ProductNonNegative(b - lo, y);
    MeanShift(a, x, b, y, lo, p, q);
    SignOfQuotient(p + q, x + y);
  }

  lemma MeanAtMost(a: real, x: real, b: real, y: real, hi: real)
    requires x >= 0.0 && y >= 0.0 && x + y > 0.0 && a <= hi && b <= hi
    ensures Mean(a, x, b, y) <= hi
  {
    var p, q := (a - hi) * x, (b - hi) * y;
    ProductNonNegative(hi - a, x);
    ProductNonNegative(hi - b, y);
    MeanShift(a, x, b, y, hi, p, q);
    assert p == -((hi - a) * x) && q == -((hi - b) * y);
    SignOfQuotient(p + q, x + y);
  }

  /** A weighted average with weights of one sign lies between the values. */
  lemma MeanBetween(a: real, x: real, b: real, y: real, lo: real, hi: real)
    requires x >= 0.0 && y >= 0.0 && x + y > 0.0
    requires lo <= a <= hi && lo <= b <= hi
    ensures lo <= Mean(a, x, b, y) <= hi
  {
    MeanAtLeast(a, x, b, y, lo);
    MeanAtMost(a, x, b, y, hi);
  }

  /** With a negative second weight it lies beyond the first value, unless both are the same. */
  lemma MeanOutside(a: real, x: real, b: real, y: real)
    requires y < 0.0 && x + y > 0.0 && a != b
    ensures if a < b then Mean(a, x, b, y) < a else Mean(a, x, b, y) > a
  {
    var q := (b - a) * y;
    MeanShift(a, x, b, y, a, (a - a) * x, q);
    assert (a - a) * x == 0.0;
    SignOfQuotient(q, x + y);
    if a < b {
      ProductNegative(b - a, y);
    } else {
      ProductNegative(a - b, y);
      assert q == -((a - b) * y);
    }
  }

  // ----- The three collections

  class MockState {
    var orders: map<nat, Order>
    var positions: Book
    var trades: seq<Trade>

    /** Every position carries the id of the symbol it is filed under. */
    ghost predicate Valid()
      reads this
    {
      forall k | k in positions :: positions[k].id == PositionId(k)
    }

    constructor ()
      ensures Valid() && orders == map[] && positions == map[] && trades == []
    {
      orders, positions, trades := map[], map[], [];
    }

    /** Records a new open order under a fresh id. */
    method SubmitOrder(id: nat, request: Request)
      requires id !in orders
      modifies `orders
      ensures orders == old(orders)[id := NewOrder(request)]
    {
      orders := orders[id := NewOrder(request)];
    }

    method UpsertPosition(symbol: string, side: Side, quantity: real, price: real) returns (panicked: bool)
      requires Valid()
      modifies `positions
      ensures Valid()
      ensures (positions, panicked) == Upsert(old(positions), symbol, side, quantity, price)
    {
      if symbol !in positions {
        positions := positions[symbol := Position(PositionId(symbol), SideOf(side), quantity, price, price)];
        return false;
      }
      var p := positions[symbol];
      if p.side == SideOf(side) {
        var before := p;
        p := p.(quantity := p.quantity + quantity);
        if p.quantity == 0.0 {
          positions := positions[symbol := p];
          return true;
        }
        p := p.(averageEntry := Mean(before.averageEntry, before.quantity, price, quantity));
      } else if quantity >= p.quantity {
        var remainder := quantity - p.quantity;
        if remainder == 0.0 {
          positions := positions - {symbol};
          return false;
        }
        p := p.(side := SideOf(side), quantity := remainder, averageEntry := price);
      } else {
        p := p.(quantity := p.quantity - quantity);
      }
      positions := positions[symbol := p.(currentPrice := price)];
      panicked := false;
    }

    /** One tranche with nothing in between: the order, the trade, then the position. */
    method ApplyFill(id: nat, symbol: string, side: Side, quantity: real, price: real)
      returns (order: Option<Order>, panicked: bool)
      requires Valid()
      modifies this
      ensures Valid()
      ensures order.None? <==> id !in old(orders) || old(orders)[id].status.Cancelled?
      ensures order.None? ==> !panicked && orders == old(orders) && trades == old(trades) && positions == old(positions)
      ensures order.Some? ==>
                && order.value == FillOrder(old(orders)[id], quantity, price)
                && orders == old(orders)[id := order.value]
                && trades == old(trades) + [Trade(id, symbol, side, quantity, price)]
                && (positions, panicked) == Upsert(old(positions), symbol, side, quantity, price)
    {
      if id !in orders || orders[id].status.Cancelled? {
        return None, false;
      }
      var o := orders[id];
      var previously := o.filled;
      var total := previously + quantity;
      if total > 0.0 {
        var before := if o.average.Some? then o.average.value else 0.0;
        o := o.(average := Some(Mean(before, previously, price, quantity)));
      }
      o := o.(filled := total);
      o := o.(remaining := o.quantity - total);
      o := o.(status := if o.remaining > 0.0 then PartiallyFilled else Filled);
      orders := orders[id := o];
      trades := trades + [Trade(id, symbol, side, quantity, price)];
      panicked := UpsertPosition(symbol, side, quantity, price);
      order := Some(o);
    }

    method ModifyOrder(id: nat, limit: Option<real>, stop: Option<real>, quantity: Option<real>)
      returns (result: Result<Order>)
      modifies `orders
      ensures id !in old(orders) ==> result == Err(OrderNotFound) && orders == old(orders)
      ensures id in old(orders) ==>
                var (o, accepted) := ModifyOne(old(orders)[id], limit, stop, quantity);
                orders == old(orders)[id := o] && result == if accepted then Ok(o) else Err(InvalidRequest)
    {
      if id !in orders {
        return Err(OrderNotFound);
      }
      var o := orders[id];
      if !o.status.Open? {
        assert orders[id := o] == orders;
        return Err(InvalidRequest);
      }
      if limit.Some? {
        o := o.(limitPrice := limit);
      }
      if stop.Some? {
        o := o.(stopPrice := stop);
      }
      orders := orders[id := o];
      if quantity.Some? {
        if quantity.value < o.filled {
          return Err(InvalidRequest);
        }
        o := o.(quantity := quantity.value, remaining := quantity.value - o.filled);
        orders := orders[id := o];
      }
      result := Ok(o);
    }

    method CancelOrder(id: nat) returns (result: Result<Order>)
      modifies `orders
      ensures id !in old(orders) ==> result == Err(OrderNotFound) && orders == old(orders)
      ensures id in old(orders) ==>
                var (o, accepted) := CancelOne(old(orders)[id]);
                orders == old(orders)[id := o] && result == if accepted then Ok(o) else Err(InvalidRequest)
      ensures result.Ok? <==> id in old(orders) && !old(orders)[id].status.Filled?
      ensures result.Ok? ==> orders[id].status.Cancelled?
    {
      if id !in orders {
        return Err(OrderNotFound);
      }
      if orders[id].status.Filled? {
        assert orders[id := orders[id]] == orders;
        return Err(InvalidRequest);
      }
      orders := orders[id := orders[id].(status := Cancelled)];
      result := Ok(orders[id]);
    }

    method FindPosition(positionId: string) returns (key: Option<string>)
      requires Valid()
      ensures key.Some? ==> key.value in positions && positionId == PositionId(key.value)
      ensures key.None? ==> forall k | k in positions :: positionId != PositionId(k)
    {
      var rest := positions.Keys;
      while rest != {}
        invariant rest <= positions.Keys
        invariant forall k | k in positions && k !in rest :: positionId != PositionId(k)
      {
        var k :| k in rest;
        if positions[k].id == positionId {
          return Some(k);
        }
        rest := rest - {k};
      }
      key := None;
    }

    /** Closes with nothing in between: the position, then the order, then the trade. */
    method ClosePosition(positionId: string, requested: Option<real>, id: nat, price: real)
      returns (closed: Option<string>)
      requires Valid() && id !in orders
      modifies this
      ensures Valid()
      ensures closed.None? <==> forall k | k in old(positions) :: positionId != PositionId(k)
      ensures closed.None? ==> orders == old(orders) && trades == old(trades) && positions == old(positions)
      ensures closed.Some? ==>
                && closed.value in old(positions) && positionId == PositionId(closed.value)
                && var p := old(positions)[closed.value]; var quantity := CloseQuantity(p, requested);
                   && positions == TakeOff(old(positions), closed.value, requested)
                   && orders == old(orders)[id := CloseOrder(p, closed.value, quantity, price)]
                   && trades == old(trades) + [Trade(id, closed.value, CloseSide(p), quantity, price)]
      ensures closed.Some? ==>
                var p, o := old(positions)[closed.value], orders[id];
                && o.quantity == (if requested.Some? && requested.value < p.quantity then requested.value
                                  else p.quantity)
                && o.symbol == closed.value && (o.side.Sell? <==> p.side.Long?)
                && o.status.Filled? && o.filled == o.quantity && o.remaining == 0.0 && o.average == Some(price)
                && o.limitPrice.None? && o.stopPrice.None?
    {
      closed := FindPosition(positionId);
      if closed.None? {
        return;
      }
      var key := closed.value;
      var p := positions[key];
      var quantity := CloseQuantity(p, requested);
      if quantity == p.quantity {
        positions := positions - {key};
      } else {
        positions := positions[key := p.(quantity := p.quantity - quantity)];
      }
      orders := orders[id := CloseOrder(p, key, quantity, price)];
      trades := trades + [Trade(id, key, CloseSide(p), quantity, price)];
    }
  }
}

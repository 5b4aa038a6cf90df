/** The frames of one OANDA fill as the REST order path and the transaction stream build
    them (`emit_rest_fill` in crates/oanda/src/adapter.rs, `transaction_fill_to_messages`
    in crates/oanda/src/streaming.rs), and exactly when they agree.

    Reading a decimal or a time from text is a parameter; a time that cannot be read
    becomes the clock's, which differs between the two paths.
 */
module FillFrames {
  import opened Sequences
  import opened PositionIds

  /** How wire text is read. */
  datatype Reader = Reader(decimal: string -> Option<Decimal>, time: string -> Option<int>)

  datatype OrderType = Market | Limit | Stop | StopLimit | TrailingStop

  datatype TimeInForce = Gtc | Day | Ioc | Fok

  /** The order as the caller asked for it. */
  datatype OrderRequest = OrderRequest(
    clientId: Option<string>, symbol: string, side: Side, quantity: real, orderType: OrderType, tif: TimeInForce,
    limitPrice: Option<real>, stopPrice: Option<real>)

  /** The fields of a fill transaction that the two paths read. `clientId` and `reason` are
      read by the stream only. */
  datatype Fill = Fill(
    id: string, orderId: Option<string>, clientId: Option<string>, instrument: Option<string>, units: Option<string>,
    price: Option<string>, time: Option<string>, reason: Option<string>, commission: Option<string>,
    financing: Option<string>, refs: Refs)

  datatype OrderFrame = OrderFrame(
    id: string, clientId: Option<string>, symbol: string, side: Side, orderType: OrderType, tif: TimeInForce,
    quantity: real, filled: real, remaining: real, limitPrice: Option<real>, stopPrice: Option<real>,
    average: Option<real>, positionId: Option<string>, partial: bool)

  datatype TradeFrame = TradeFrame(
    id: string, orderId: string, symbol: string, side: Side, quantity: real, price: real, commission: real, at: int)

  datatype FinancingFrame = FinancingFrame(symbol: string, amount: real, at: int)

  datatype Frames = Frames(order: OrderFrame, trade: TradeFrame, financing: Option<FinancingFrame>)

  function OrElse<T>(o: Option<T>, default: T): T {
    if o.Some? then o.value else default
  }

  function Value(d: Decimal): real {
    if d.negative then 0.0 - d.magnitude else d.magnitude
  }

  function ReadDecimal(rd: Reader, text: Option<string>): Option<Decimal> {
    if text.Some? then rd.decimal(text.value) else None
  }

  function ReadReal(rd: Reader, text: Option<string>): Option<real> {
    var d := ReadDecimal(rd, text);
    if d.Some? then Some(Value(d.value)) else None
  }

  function ReadTime(rd: Reader, text: Option<string>, now: int): int {
    OrElse(if text.Some? then rd.time(text.value) else None, now)
  }

  function OrderId(f: Fill): string {
    OrElse(f.orderId, f.id)
  }

  function Carry(rd: Reader, f: Fill, symbol: string, at: int): Option<FinancingFrame> {
    var amount := ReadReal(rd, f.financing);
    if amount.Some? && amount.value != 0.0 then Some(FinancingFrame(symbol, amount.value, at)) else None
  }

  /** The quantity the REST path reports as filled: what the fill says, but never more than
      was asked for; all of it when the units cannot be read. */
  function RestFilled(rd: Reader, request: OrderRequest, f: Fill): real {
    var d := ReadDecimal(rd, f.units);
    if d.Some? && d.value.magnitude < request.quantity then d.value.magnitude else request.quantity
  }

  function RestFrames(rd: Reader, request: OrderRequest, f: Fill, now: int): Frames {
    var filled, price, at := RestFilled(rd, request, f), ReadReal(rd, f.price), ReadTime(rd, f.time, now);
    Frames(
      OrderFrame(OrderId(f), request.clientId, request.symbol, request.side, request.orderType, request.tif,
                 request.quantity, filled, request.quantity - filled, request.limitPrice, request.stopPrice, price,
                 FillPositionId(OrElse(f.instrument, request.symbol), request.side, f.refs), filled < request.quantity),
      TradeFrame(f.id, OrderId(f), request.symbol, request.side, filled, OrElse(price, 0.0),
                 OrElse(ReadReal(rd, f.commission), 0.0), at),
      Carry(rd, f, request.symbol, at))
  }

  /** The order type and time in force that the stream infers from the fill's reason. */
  function ReasonContext(reason: Option<string>): (OrderType, TimeInForce) {
    match reason
    case None => (Market, Gtc)
    case Some(r) =>
      if r == "LIMIT_ORDER" || r == "TAKE_PROFIT_ORDER" then (Limit, Gtc)
      else if r == "STOP_ORDER" || r == "STOP_LOSS_ORDER" || r == "GUARANTEED_STOP_LOSS_ORDER" then (Stop, Gtc)
      else if r == "TRAILING_STOP_LOSS_ORDER" then (TrailingStop, Gtc)
      else if r == "MARKET_IF_TOUCHED_ORDER" then (StopLimit, Gtc)
      else if "MARKET_ORDER" <= r then (Market, Fok)
      else (Market, Gtc)
  }

  /** The side and quantity the stream reads off the units. */
  function StreamSide(rd: Reader, f: Fill): (Side, real) {
    var d := ReadDecimal(rd, f.units);
    if d.Some? then (TradeSide(d.value), d.value.magnitude) else (Buy, 0.0)
  }

  function StreamFrames(rd: Reader, f: Fill, now: int): Frames {
    var symbol, price, at := OrElse(f.instrument, ""), ReadReal(rd, f.price), ReadTime(rd, f.time, now);
    var (side, quantity) := StreamSide(rd, f);
    var (orderType, tif) := ReasonContext(f.reason);
    Frames(
      OrderFrame(OrderId(f), f.clientId, symbol, side, orderType, tif, quantity, quantity, 0.0, None, None, price,
                 FillPositionId(symbol, side, f.refs), false),
      TradeFrame(f.id, OrderId(f), symbol, side, quantity, OrElse(price, 0.0),
                 OrElse(ReadReal(rd, f.commission), 0.0), at),
      Carry(rd, f, symbol, at))
  }

  // ----- The frames in terms of the wire

  /** The text can be read as a number, and x is that number with its sign. */
  predicate Means(rd: Reader, text: Option<string>, x: real) {
    && text.Some? && rd.decimal(text.value).Some?
    && x == (if rd.decimal(text.value).value.negative then 0.0 - rd.decimal(text.value).value.magnitude
             else rd.decimal(text.value).value.magnitude)
  }

  predicate Readable(rd: Reader, text: Option<string>) {
    text.Some? && rd.decimal(text.value).Some?
  }

  /** What both paths report as the fill says it: the order it belongs to or else itself, its price and
      commission where they can be read, its time where it can, and its carry where that is not zero. */
  predicate AsTheWireSays(rd: Reader, f: Fill, fr: Frames, now: int) {
    && fr.trade.id == f.id
    && fr.order.id == fr.trade.orderId == (match f.orderId case Some(o) => o case None => f.id)
    && (if Readable(rd, f.price) then fr.order.average == Some(fr.trade.price) && Means(rd, f.price, fr.trade.price)
        else fr.order.average.None? && fr.trade.price == 0.0)
    && (if Readable(rd, f.commission) then Means(rd, f.commission, fr.trade.commission) else fr.trade.commission == 0.0)
    && fr.trade.at == (if f.time.Some? && rd.time(f.time.value).Some? then rd.time(f.time.value).value else now)
    && (fr.financing.None? <==> !Readable(rd, f.financing) || Means(rd, f.financing, 0.0))
    && (fr.financing.Some? ==>
          && Means(rd, f.financing, fr.financing.value.amount)
          && fr.financing.value.symbol == fr.trade.symbol && fr.financing.value.at == fr.trade.at)
    && fr.order.symbol == fr.trade.symbol && fr.order.side == fr.trade.side && fr.order.filled == fr.trade.quantity
  }

  /** Both paths report the fill as the wire says it. The REST path has symbol, side, type and limits
      from the request, and no more filled than asked for. */
  lemma RestReports(rd: Reader, request: OrderRequest, f: Fill, now: int)
    ensures var fr := RestFrames(rd, request, f, now); var o := fr.order;
            && AsTheWireSays(rd, f, fr, now)
            && o.clientId == request.clientId && o.symbol == request.symbol && o.side == request.side
            && o.orderType == request.orderType && o.tif == request.tif && o.quantity == request.quantity
            && o.limitPrice == request.limitPrice && o.stopPrice == request.stopPrice
            && o.filled == (if Readable(rd, f.units) && rd.decimal(f.units.value).value.magnitude < request.quantity
                            then rd.decimal(f.units.value).value.magnitude else request.quantity)
            && o.positionId == FillPositionId(match f.instrument case Some(i) => i case None => request.symbol,
                                              request.side, f.refs)
  {
  }

  /** The stream path has symbol, side and quantity from the line, and always a complete fill. */
  lemma StreamReports(rd: Reader, f: Fill, now: int)
    ensures var fr := StreamFrames(rd, f, now); var o := fr.order;
            && AsTheWireSays(rd, f, fr, now)
            && o.clientId == f.clientId && o.symbol == (match f.instrument case Some(i) => i case None => "")
            && (if Readable(rd, f.units) then
                  && o.quantity == rd.decimal(f.units.value).value.magnitude
                  && (o.side.Sell? <==> rd.decimal(f.units.value).value.negative)
                else o.quantity == 0.0 && o.side.Buy?)
            && o.filled == o.quantity && o.remaining == 0.0 && !o.partial
            && o.positionId == FillPositionId(o.symbol, o.side, f.refs)
  {
  }

  /** Which reasons stand for which kind of order; all others for a market order. */
  lemma ReasonExact(reason: string)
    ensures var (orderType, tif) := ReasonContext(Some(reason));
            && (orderType.Limit? <==> reason in {"LIMIT_ORDER", "TAKE_PROFIT_ORDER"})
            && (orderType.Stop? <==> reason in {"STOP_ORDER", "STOP_LOSS_ORDER", "GUARANTEED_STOP_LOSS_ORDER"})
            && (orderType.TrailingStop? <==> reason == "TRAILING_STOP_LOSS_ORDER")
            && (orderType.StopLimit? <==> reason == "MARKET_IF_TOUCHED_ORDER")
            && (tif.Fok? <==> |reason| >= 12 && reason[..12] == "MARKET_ORDER")
            && (tif.Gtc? <==> !tif.Fok?)
  {
    var n := |"MARKET_ORDER"|;
    assert "MARKET_ORDER" <= reason <==> |reason| >= n && reason[..n] == "MARKET_ORDER";
    if |reason| >= n && reason[..n] == "MARKET_ORDER" {
      assert reason[0] == reason[..n][0] == 'M' && reason[7] == reason[..n][7] == 'O';
    }
  }

  /** The fill is on the instrument asked for. */
  predicate SameInstrument(request: OrderRequest, f: Fill) {
    OrElse(f.instrument, "") == request.symbol
  }

  /** The units carry the request's sign and no more than its quantity; unreadable ones
      will only do for an empty buy. */
  predicate SameUnits(rd: Reader, request: OrderRequest, f: Fill) {
    var d := ReadDecimal(rd, f.units);
    if d.Some? then TradeSide(d.value) == request.side && d.value.magnitude <= request.quantity
    else request.side.Buy? && request.quantity == 0.0
  }

  predicate SameTime(rd: Reader, f: Fill, now: int, later: int) {
    (f.time.Some? && rd.time(f.time.value).Some?) || now == later
  }

  /** Whichever path wins, the trade frame is the same, exactly when the fill is on the
      instrument asked for, with units of the request's sign and within its quantity, and its
      time can be read (or both clocks agree). */
  lemma TradeFramesAgreeExact(rd: Reader, request: OrderRequest, f: Fill, now: int, later: int)
    ensures RestFrames(rd, request, f, now).trade == StreamFrames(rd, f, later).trade <==>
            SameInstrument(request, f) && SameUnits(rd, request, f) && SameTime(rd, f, now, later)
  {
    var d := ReadDecimal(rd, f.units);
    if d.Some? {
      assert RestFilled(rd, request, f) == d.value.magnitude <==> d.value.magnitude <= request.quantity;
    }
  }

  /** For a fill consistent with its request, the trade and financing frames agree; and so do
      the order frames in the order id, the symbol, the side, the filled quantity, the price
      and the position id. What only the request knows (its client id, type, time in force,
      prices and quantity, and so what remains and whether the fill was partial) is the
      request's on one path and the wire's on the other. */
  lemma ConsistentFillAgrees(rd: Reader, request: OrderRequest, f: Fill, now: int, later: int)
    requires SameInstrument(request, f) && SameUnits(rd, request, f) && SameTime(rd, f, now, later)
    ensures var rest, stream := RestFrames(rd, request, f, now), StreamFrames(rd, f, later);
            && rest.trade == stream.trade && rest.financing == stream.financing
            && rest.order == stream.order.(
                 clientId := request.clientId, orderType := request.orderType, tif := request.tif,
                 limitPrice := request.limitPrice, stopPrice := request.stopPrice, quantity := request.quantity,
                 remaining := request.quantity - stream.order.filled,
                 partial := stream.order.filled < request.quantity)
  {
  }

  /** The units fill the request completely; unreadable ones will only do for an empty buy. */
  predicate CompleteUnits(rd: Reader, request: OrderRequest, f: Fill) {
    var d := ReadDecimal(rd, f.units);
    if d.Some? then TradeSide(d.value) == request.side && d.value.magnitude == request.quantity
    else request.side.Buy? && request.quantity == 0.0
  }

  /** What the request knows is what the stream would infer. */
  predicate SameContext(request: OrderRequest, f: Fill) {
    && request.clientId == f.clientId && ReasonContext(f.reason) == (request.orderType, request.tif)
    && request.limitPrice.None? && request.stopPrice.None?
  }

  /** Whichever path wins, the order frame too is the same, exactly when the fill is complete,
      on the instrument asked for, and for an order without prices whose client id, type and
      time in force are the ones the line carries or implies. */
  lemma OrderFramesAgreeExact(rd: Reader, request: OrderRequest, f: Fill, now: int, later: int)
    ensures RestFrames(rd, request, f, now).order == StreamFrames(rd, f, later).order <==>
            SameInstrument(request, f) && CompleteUnits(rd, request, f) && SameContext(request, f)
  {
    var rest, stream := RestFrames(rd, request, f, now).order, StreamFrames(rd, f, later).order;
    if rest == stream {
      assert rest.orderType == stream.orderType && rest.tif == stream.tif && rest.quantity == stream.quantity;
    }
  }

  /** So an order with a limit or stop price, or good for the day, or immediate-or-cancel is
      never reported alike, and a fill-or-kill one only as a market order whose reason says so. */
  lemma ReportedAlikeOnlyIf(rd: Reader, request: OrderRequest, f: Fill, now: int, later: int)
    requires RestFrames(rd, request, f, now).order == StreamFrames(rd, f, later).order
    ensures request.limitPrice.None? && request.stopPrice.None?
    ensures request.tif.Gtc? || request.tif.Fok?
    ensures request.tif.Fok? ==> request.orderType.Market? && f.reason.Some? && "MARKET_ORDER" <= f.reason.value
  {
    OrderFramesAgreeExact(rd, request, f, now, later);
  }

  /** The REST order frame always accounts for the whole request, and calls the fill partial
      exactly when the broker filled less. */
  lemma RestOrderAddsUp(rd: Reader, request: OrderRequest, f: Fill, now: int)
    requires request.quantity > 0.0
    ensures var o := RestFrames(rd, request, f, now).order;
            && o.filled + o.remaining == o.quantity == request.quantity
            && 0.0 <= o.filled <= o.quantity
            && (o.partial <==>
                ReadDecimal(rd, f.units).Some? && ReadDecimal(rd, f.units).value.magnitude < request.quantity)
            && (o.partial <==> o.remaining > 0.0)
  {
  }
}

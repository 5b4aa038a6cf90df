/** The life of a mock order over every run: its ledger, its tranches and its end
    (crates/mock/src/adapter.rs).
 */
module MockOrders {
  import opened Sequences
  import opened MockBroker
  import opened MockLedger

  // ----- The invariant

  /** The order's own figures agree with the tranches booked against it. */
  ghost predicate Ledger(o: Order, fills: seq<Fill>) {
    && o.remaining == o.quantity - o.filled
    && o.filled == Qty(fills)
    && (o.filled > 0.0 ==> o.average.Some? && o.average.value * o.filled == Notional(fills))
  }

  /** At most two tranches, the first of the submitted size and at a price that met the
      condition, the second of whatever then remained. */
  ghost predicate Tranches(ratio: Option<real>, job: Job, o: Order)
    requires job.kind.Submitted?
  {
    var r, fills := job.kind.request, job.fills;
    && |fills| <= 2
    && (fills == [] ==> o.status.Open? || o.status.Cancelled?)
    && (fills != [] ==>
          !o.status.Open? && fills[0].quantity == FirstFill(ratio, r.quantity) && ShouldFill(r, fills[0].price))
    && (|fills| == 2 ==>
          job.todo.Nothing? && Split(ratio, r.quantity) && fills[1].quantity == o.quantity - fills[0].quantity)
    && (job.todo.First? ==> fills == [])
    && (job.todo.Rest? ==>
          |fills| == 1 && Split(ratio, r.quantity) && job.todo.remainder == o.quantity - fills[0].quantity)
    && (|fills| == 1 && Split(ratio, r.quantity) && job.todo.Nothing? ==> o.status.Cancelled? || job.died)
    && (r.quantity >= 0.0 ==> o.quantity >= 0.0)
    && (Split(ratio, r.quantity) && fills != [] && (|fills| == 1 || o.filled <= 0.0) ==>
          o.average == Some(fills[0].price))
    && (o.status.PartiallyFilled? ==> o.remaining > 0.0)
    && (o.status.Filled? ==> o.remaining <= 0.0)
  }

  ghost predicate JobOk(s: State, j: nat)
    requires j < |s.jobs|
  {
    var job := s.jobs[j];
    && Counted(job)
    && TradesOf(s.trades, j) == job.fills[..job.pushed]
    && (job.kind.Submitted? ==>
          j in s.orders && Ledger(s.orders[j], job.fills) && Tranches(s.ratio, job, s.orders[j]))
    && (job.kind.Closing? ==>
          && (j in s.orders <==> job.kind.inserted)
          && (job.kind.inserted ==> s.orders[j] == job.kind.order)
          && Ledger(job.kind.order, job.fills) && job.kind.order.status.Filled?)
  }

  ghost predicate OrdersOk(s: State) {
    && (forall o | o in s.orders :: o < |s.jobs|)
    && (forall i | 0 <= i < |s.trades| :: s.trades[i].order < |s.jobs|)
    && (forall j: nat | j < |s.jobs| :: JobOk(s, j))
  }

  // ----- Preservation

  lemma OneFill(f: Fill)
    ensures Qty([f]) == f.quantity && Notional([f]) == f.price * f.quantity
  {
    SumAppend([], f);
    assert [] + [f] == [f];
  }

  lemma FillLedger(o: Order, fills: seq<Fill>, quantity: real, price: real)
    requires Ledger(o, fills) && (fills == [] || o.filled > 0.0)
    ensures Ledger(FillOrder(o, quantity, price), fills + [Fill(quantity, price)])
  {
    SumAppend(fills, Fill(quantity, price));
    if o.filled + quantity > 0.0 {
      MeanTimesWeight(if o.average.Some? then o.average.value else 0.0, o.filled, price, quantity);
    }
  }

  /** The first fill of an order fixes its average at the fill's price. */
  lemma FirstAverage(o: Order, quantity: real, price: real)
    requires o.filled == 0.0 && quantity > 0.0
    ensures FillOrder(o, quantity, price).average == Some(price)
  {
    var before := if o.average.Some? then o.average.value else 0.0;
    MeanOfOne(before, price, quantity);
  }

  /** Replacing one fill task and its order by a pair that still agree. */
  lemma UpdateOk(s: State, j: nat, job: Job, o: Order)
    requires OrdersOk(s) && j < |s.jobs| && s.jobs[j].kind.Submitted? && job.kind == s.jobs[j].kind
    requires Counted(job) && job.pushed == s.jobs[j].pushed && s.jobs[j].fills <= job.fills
    requires Ledger(o, job.fills) && Tranches(s.ratio, job, o)
    ensures OrdersOk(s.(orders := s.orders[j := o], jobs := s.jobs[j := job]))
  {
    var s' := s.(orders := s.orders[j := o], jobs := s.jobs[j := job]);
    assert JobOk(s, j);
    assert job.fills[..job.pushed] == s.jobs[j].fills[..job.pushed];
    forall k: nat | k < |s'.jobs|
      ensures JobOk(s', k)
    {
      assert JobOk(s, k);
    }
  }

  lemma BookFirst(ratio: Option<real>, job: Job, o: Order, price: real)
    requires job.kind.Submitted? && job.todo.First? && Ledger(o, job.fills) && Tranches(ratio, job, o)
    requires !o.status.Cancelled? && ShouldFill(job.kind.request, price)
    ensures var first := FirstFill(ratio, job.kind.request.quantity);
            var o' := FillOrder(o, first, price);
            var next := if Split(ratio, job.kind.request.quantity) then Rest(o'.remaining) else Nothing;
            var job' := job.(fills := job.fills + [Fill(first, price)], todo := next);
            Ledger(o', job'.fills) && Tranches(ratio, job', o')
  {
    var first := FirstFill(ratio, job.kind.request.quantity);
    FillLedger(o, [], first, price);
    assert [] + [Fill(first, price)] == [Fill(first, price)];
    if Split(ratio, job.kind.request.quantity) {
      FirstAverage(o, first, price);
    }
  }

  lemma BookRest(ratio: Option<real>, job: Job, o: Order, price: real)
    requires job.kind.Submitted? && job.todo.Rest? && Ledger(o, job.fills) && Tranches(ratio, job, o)
    requires !o.status.Cancelled?
    ensures var o' := FillOrder(o, job.todo.remainder, price);
            var job' := job.(fills := job.fills + [Fill(job.todo.remainder, price)], todo := Nothing);
            Ledger(o', job'.fills) && Tranches(ratio, job', o')
  {
    OneFill(job.fills[0]);
    assert job.fills == [job.fills[0]];
    FillLedger(o, job.fills, job.todo.remainder, price);
  }

  lemma BookOk(s: State, j: nat, price: real)
    requires OrdersOk(s) && j < |s.jobs| && CanBook(s.jobs[j])
    ensures OrdersOk(DoBook(s, j, price))
  {
    var s', job := DoBook(s, j, price), s.jobs[j];
    assert JobOk(s, j);
    if Gives(s, j, price) {
      assert s.orders[j := s.orders[j]] == s.orders;
      UpdateOk(s, j, s'.jobs[j], s.orders[j]);
    } else {
      if job.todo.First? {
        BookFirst(s.ratio, job, s.orders[j], price);
      } else {
        BookRest(s.ratio, job, s.orders[j], price);
      }
      UpdateOk(s, j, s'.jobs[j], s'.orders[j]);
    }
  }

  lemma PushOk(s: State, j: nat)
    requires OrdersOk(s) && j < |s.jobs| && CanPush(s.jobs[j])
    ensures OrdersOk(DoPush(s, j))
  {
    var s', job := DoPush(s, j), s.jobs[j];
    assert job.fills[..job.pushed + 1] == job.fills[..job.pushed] + [job.fills[job.pushed]];
    forall k: nat | k < |s'.jobs|
      ensures JobOk(s', k)
    {
      assert JobOk(s, k);
      TradesAppend(s.trades, s'.trades[|s.trades|], job.symbol, k);
    }
  }

  lemma NetOk(s: State, j: nat)
    requires OrdersOk(s) && j < |s.jobs| && CanNet(s.jobs[j])
    ensures OrdersOk(DoNet(s, j))
  {
    var s' := DoNet(s, j);
    forall k: nat | k < |s'.jobs|
      ensures JobOk(s', k)
    {
      assert JobOk(s, k);
    }
  }

  lemma SubmitOk(s: State, r: Request)
    requires OrdersOk(s)
    ensures OrdersOk(DoSubmit(s, r))
  {
    var s' := DoSubmit(s, r);
    TradesNone(s.trades, |s.jobs|);
    forall k: nat | k < |s'.jobs|
      ensures JobOk(s', k)
    {
      if k < |s.jobs| {
        assert JobOk(s, k);
      }
    }
  }

  lemma CloseOk(s: State, symbol: string, requested: Option<real>, price: real)
    requires OrdersOk(s) && symbol in s.positions
    ensures OrdersOk(DoClose(s, symbol, requested, price))
  {
    var s' := DoClose(s, symbol, requested, price);
    TradesNone(s.trades, |s.jobs|);
    OneFill(s'.jobs[|s.jobs|].fills[0]);
    forall k: nat | k < |s'.jobs|
      ensures JobOk(s', k)
    {
      if k < |s.jobs| {
        assert JobOk(s, k);
      }
    }
  }

  lemma InsertOk(s: State, j: nat)
    requires OrdersOk(s) && j < |s.jobs| && s.jobs[j].kind.Closing? && !s.jobs[j].kind.inserted
    ensures OrdersOk(DoInsert(s, j))
  {
    var s' := DoInsert(s, j);
    forall k: nat | k < |s'.jobs|
      ensures JobOk(s', k)
    {
      assert JobOk(s, k);
    }
  }

  /** Replacing one order by one that its job still agrees with. */
  lemma EditOk(s: State, k: nat, o: Order)
    requires OrdersOk(s) && k in s.orders
    requires s.jobs[k].kind.Submitted? ==> Ledger(o, s.jobs[k].fills) && Tranches(s.ratio, s.jobs[k], o)
    requires s.jobs[k].kind.Closing? ==> o == s.orders[k]
    ensures OrdersOk(s.(orders := s.orders[k := o]))
  {
    var s' := s.(orders := s.orders[k := o]);
    forall j: nat | j < |s'.jobs|
      ensures JobOk(s', j)
    {
      assert JobOk(s, j);
    }
  }

  lemma ModifyOk(s: State, k: nat, limit: Option<real>, stop: Option<real>, quantity: Option<real>)
    requires OrdersOk(s) && k in s.orders
    ensures OrdersOk(Apply(s, Modify(k, limit, stop, quantity)))
  {
    assert JobOk(s, k);
    EditOk(s, k, ModifyOne(s.orders[k], limit, stop, quantity).0);
  }

  lemma CancelOk(s: State, k: nat)
    requires OrdersOk(s) && k in s.orders
    ensures OrdersOk(Apply(s, Cancel(k)))
  {
    assert JobOk(s, k);
    EditOk(s, k, CancelOne(s.orders[k]).0);
  }

  lemma OrdersStep(s: State, a: Action)
    requires OrdersOk(s)
    ensures OrdersOk(Apply(s, a))
  {
    if Apply(s, a) != s {
      match a {
        case Submit(r) => SubmitOk(s, r);
        case Modify(k, limit, stop, quantity) => ModifyOk(s, k, limit, stop, quantity);
        case Cancel(k) => CancelOk(s, k);
        case Close(symbol, requested, price) => CloseOk(s, symbol, requested, price);
        case Insert(j) => InsertOk(s, j);
        case Book(j, price) => BookOk(s, j, price);
        case Push(j) => PushOk(s, j);
        case Net(j) => NetOk(s, j);
      }
    }
  }

  lemma {:induction false} OrdersRun(s: State, acts: seq<Action>)
    requires OrdersOk(s)
    ensures OrdersOk(Exec(s, acts))
    decreases acts
  {
    if acts != [] {
      OrdersStep(s, acts[0]);
      OrdersRun(Apply(s, acts[0]), acts[1..]);
    }
  }

  lemma RunOk(requested: Option<real>, acts: seq<Action>)
    ensures OrdersOk(Run(requested, acts))
  {
    OrdersRun(Init(requested), acts);
  }

  // ----- What every run keeps

  /** In every run, for every order whose tranches are all recorded: filled and remaining
      add up to its quantity, its trades add up to what it filled, and its average price
      times what it filled is what its trades cost. */
  lemma LedgerAtRest(requested: Option<real>, acts: seq<Action>, j: nat)
    requires var s := Run(requested, acts); j in s.orders && j < |s.jobs| && s.jobs[j].pushed == |s.jobs[j].fills|
    ensures var s := Run(requested, acts); var o := s.orders[j];
            && o.filled + o.remaining == o.quantity
            && Qty(TradesOf(s.trades, j)) == o.filled
            && (o.filled > 0.0 ==> o.average.Some? && o.average.value * o.filled == Notional(TradesOf(s.trades, j)))
  {
    var s := Run(requested, acts);
    RunOk(requested, acts);
    assert JobOk(s, j);
    assert s.jobs[j].fills[..|s.jobs[j].fills|] == s.jobs[j].fills;
  }

  /** In every run an order trades at most twice, first for the size and at a price the
      request as submitted asked for, and the second trade completes the order. */
  lemma AtMostTwoTrades(requested: Option<real>, acts: seq<Action>, j: nat)
    requires var s := Run(requested, acts); j < |s.jobs| && s.jobs[j].kind.Submitted?
    ensures var s := Run(requested, acts); var ts, r := TradesOf(s.trades, j), s.jobs[j].kind.request;
            && |ts| <= 2
            && (ts != [] ==> ts[0].quantity == FirstFill(s.ratio, r.quantity) && ShouldFill(r, ts[0].price))
            && (|ts| == 2 ==> j in s.orders && ts[0].quantity + ts[1].quantity == s.orders[j].quantity)
  {
    RunOk(requested, acts);
    assert JobOk(Run(requested, acts), j);
  }

  /** A split order that started filling, was not cancelled and has nothing left to do ends
      complete, whatever it was resized to before its first tranche. */
  lemma SplitOrderCompletes(requested: Option<real>, acts: seq<Action>, j: nat)
    requires var s := Run(requested, acts);
             && j < |s.jobs| && s.jobs[j].kind.Submitted? && Split(s.ratio, s.jobs[j].kind.request.quantity)
             && s.jobs[j].fills != [] && s.jobs[j].todo.Nothing? && !s.jobs[j].died
             && j in s.orders && !s.orders[j].status.Cancelled?
    ensures var o := Run(requested, acts).orders[j]; o.remaining == 0.0 && o.status.Filled? && o.filled == o.quantity
  {
    var s := Run(requested, acts);
    RunOk(requested, acts);
    assert JobOk(s, j);
    TwoFills(s.jobs[j].fills);
  }

  lemma TwoFills(fills: seq<Fill>)
    requires |fills| == 2
    ensures Qty(fills) == fills[0].quantity + fills[1].quantity
    ensures Notional(fills) == fills[0].price * fills[0].quantity + fills[1].price * fills[1].quantity
  {
    OneFill(fills[0]);
    SumAppend([fills[0]], fills[1]);
    assert fills == [fills[0]] + [fills[1]];
  }

  // ----- Cancelled is absorbing

  lemma CancelledStep(s: State, a: Action, k: nat)
    requires OrdersOk(s) && k in s.orders && s.orders[k].status.Cancelled?
    ensures var s' := Apply(s, a);
            k in s'.orders && s'.orders[k] == s.orders[k] && k < |s'.jobs| && s'.jobs[k].fills == s.jobs[k].fills
  {
    assert JobOk(s, k);
  }

  /** Once cancelled, an order's record and its tranches never change again. */
  lemma {:induction false} CancelledFrozen(s: State, acts: seq<Action>, k: nat)
    requires OrdersOk(s) && k in s.orders && s.orders[k].status.Cancelled?
    ensures var s' := Exec(s, acts);
            k in s'.orders && s'.orders[k] == s.orders[k] && k < |s'.jobs| && s'.jobs[k].fills == s.jobs[k].fills
    decreases acts
  {
    if acts != [] {
      CancelledStep(s, acts[0], k);
      OrdersStep(s, acts[0]);
      CancelledFrozen(Apply(s, acts[0]), acts[1..], k);
    }
  }

  /** In every run, a cancel of an order that is not filled cancels it for good: no continuation
      changes its record or books another tranche of it. */
  lemma CancelSticks(requested: Option<real>, before: seq<Action>, k: nat, after: seq<Action>)
    requires var s := Run(requested, before); k in s.orders && !s.orders[k].status.Filled?
    ensures var s, s' := Run(requested, before), Exec(Apply(Run(requested, before), Cancel(k)), after);
            && k in s'.orders && s'.orders[k] == s.orders[k].(status := Cancelled)
            && k < |s.jobs| <= |s'.jobs| && s'.jobs[k].fills == s.jobs[k].fills
  {
    var s := Run(requested, before);
    RunOk(requested, before);
    OrdersStep(s, Cancel(k));
    CancelledFrozen(Apply(s, Cancel(k)), after, k);
    JobsGrow(Apply(s, Cancel(k)), after);
  }

  lemma {:induction false} JobsGrow(s: State, acts: seq<Action>)
    ensures |s.jobs| <= |Exec(s, acts).jobs| && Exec(s, acts).ratio == s.ratio
    decreases acts
  {
    if acts != [] {
      JobsGrow(Apply(s, acts[0]), acts[1..]);
    }
  }

  /** In every run, the status of an order that is not cancelled says how far it is filled. */
  lemma StatusExact(requested: Option<real>, acts: seq<Action>, j: nat)
    requires var s := Run(requested, acts); j < |s.jobs| && s.jobs[j].kind.Submitted?
    ensures var s := Run(requested, acts);
            j in s.orders &&
            var o, fills := s.orders[j], s.jobs[j].fills;
            !o.status.Cancelled? ==>
              && (o.status.Open? <==> fills == [])
              && (o.status.PartiallyFilled? <==> fills != [] && o.remaining > 0.0)
              && (o.status.Filled? <==> fills != [] && o.remaining <= 0.0)
  {
    RunOk(requested, acts);
    assert JobOk(Run(requested, acts), j);
  }

  /** In every run, a task whose turn it is books a tranche if and only if its order is not cancelled
      and, for the first, the price is no worse than its limit and not before its stop. */
  lemma BooksExact(requested: Option<real>, acts: seq<Action>, j: nat, price: real)
    requires var s := Run(requested, acts); j < |s.jobs| && CanBook(s.jobs[j])
    ensures var s, s' := Run(requested, acts), Apply(Run(requested, acts), Book(j, price));
            && j in s.orders && j < |s'.jobs|
            && (s'.jobs[j].fills != s.jobs[j].fills <==>
                !s.orders[j].status.Cancelled? && (s.jobs[j].fills == [] ==> Meets(s.jobs[j].kind.request, price)))
            && (s'.jobs[j].fills != s.jobs[j].fills ==>
                  s'.jobs[j].fills[..|s.jobs[j].fills|] == s.jobs[j].fills
                  && |s'.jobs[j].fills| == |s.jobs[j].fills| + 1 && s'.jobs[j].fills[|s.jobs[j].fills|].price == price)
  {
    var s := Run(requested, acts);
    RunOk(requested, acts);
    assert JobOk(s, j);
    PriceConditionExact(s.jobs[j].kind.request, price);
    var fills := s.jobs[j].fills;
    assert (fills + [Fill(Amount(s, s.jobs[j]), price)])[..|fills|] == fills;
  }

  predicate Meets(r: Request, price: real) {
    && (Limited(r.orderType) && r.limitPrice.Some? ==> Signed(r.side, price) <= Signed(r.side, r.limitPrice.value))
    && (Stopped(r.orderType) && r.stopPrice.Some? ==> Signed(r.side, price) >= Signed(r.side, r.stopPrice.value))
  }

  // ----- Whose order and whose trade

  predicate JobNamed(job: Job) {
    match job.kind
    case Submitted(r) => job.symbol == r.symbol && job.side == r.side
    case Closing(o, _) => job.symbol == o.symbol && job.side == o.side
  }

  predicate OrderNamed(s: State, k: nat)
    requires k in s.orders
  {
    k < |s.jobs| && s.orders[k].symbol == s.jobs[k].symbol && s.orders[k].side == s.jobs[k].side
  }

  predicate TradeNamed(s: State, t: Trade) {
    t.order in s.orders && t.symbol == s.orders[t.order].symbol && t.side == s.orders[t.order].side
  }

  ghost predicate Named(s: State) {
    && (forall j | 0 <= j < |s.jobs| :: JobNamed(s.jobs[j]) && (CanPush(s.jobs[j]) ==> j in s.orders))
    && (forall k | k in s.orders :: OrderNamed(s, k))
    && (forall i | 0 <= i < |s.trades| :: TradeNamed(s, s.trades[i]))
  }

  /** A step that keeps every job's and every order's name, and records nothing. */
  lemma KeepsNames(s: State, s': State)
    requires Named(s) && s'.trades == s.trades && |s.jobs| <= |s'.jobs|
    requires forall j | 0 <= j < |s'.jobs| :: JobNamed(s'.jobs[j]) && (CanPush(s'.jobs[j]) ==> j in s'.orders)
    requires forall j | 0 <= j < |s.jobs| ::
               s'.jobs[j].symbol == s.jobs[j].symbol && s'.jobs[j].side == s.jobs[j].side
    requires forall k | k in s.orders ::
               k in s'.orders && s'.orders[k].symbol == s.orders[k].symbol && s'.orders[k].side == s.orders[k].side
    requires forall k | k in s'.orders && k !in s.orders :: OrderNamed(s', k)
    ensures Named(s')
  {
    forall i | 0 <= i < |s'.trades|
      ensures TradeNamed(s', s'.trades[i])
    {
      assert TradeNamed(s, s.trades[i]);
    }
    forall k | k in s'.orders
      ensures OrderNamed(s', k)
    {
      assert k in s.orders ==> OrderNamed(s, k);
    }
  }

  lemma PushNames(s: State, j: nat)
    requires Named(s) && j < |s.jobs| && CanPush(s.jobs[j])
    ensures Named(DoPush(s, j))
  {
    var s' := DoPush(s, j);
    assert OrderNamed(s, j);
    forall i | 0 <= i < |s'.trades|
      ensures TradeNamed(s', s'.trades[i])
    {
      if i < |s.trades| {
        assert TradeNamed(s, s.trades[i]);
      }
    }
    forall k | k in s'.orders
      ensures OrderNamed(s', k)
    {
      assert OrderNamed(s, k);
    }
  }

  lemma SubmitNames(s: State, r: Request)
    requires Named(s)
    ensures Named(DoSubmit(s, r))
  {
    forall k | k in s.orders
      ensures k != |s.jobs|
    {
      assert OrderNamed(s, k);
    }
    KeepsNames(s, DoSubmit(s, r));
  }

  lemma CloseNames(s: State, symbol: string, requested: Option<real>, price: real)
    requires Named(s) && symbol in s.positions
    ensures Named(DoClose(s, symbol, requested, price))
  {
    KeepsNames(s, DoClose(s, symbol, requested, price));
  }

  lemma InsertNames(s: State, j: nat)
    requires Named(s) && j < |s.jobs| && s.jobs[j].kind.Closing?
    ensures Named(DoInsert(s, j))
  {
    assert j in s.orders ==> OrderNamed(s, j);
    KeepsNames(s, DoInsert(s, j));
  }

  lemma BookNames(s: State, j: nat, price: real)
    requires Named(s) && j < |s.jobs| && CanBook(s.jobs[j])
    ensures Named(DoBook(s, j, price))
  {
    KeepsNames(s, DoBook(s, j, price));
  }

  lemma NetNames(s: State, j: nat)
    requires Named(s) && j < |s.jobs| && CanNet(s.jobs[j])
    ensures Named(DoNet(s, j))
  {
    KeepsNames(s, DoNet(s, j));
  }

  lemma EditNames(s: State, k: nat, o: Order)
    requires Named(s) && k in s.orders && o.symbol == s.orders[k].symbol && o.side == s.orders[k].side
    ensures Named(s.(orders := s.orders[k := o]))
  {
    KeepsNames(s, s.(orders := s.orders[k := o]));
  }

  lemma NamesStep(s: State, a: Action)
    requires Named(s)
    ensures Named(Apply(s, a))
  {
    if Apply(s, a) != s {
      match a {
        case Submit(r) => SubmitNames(s, r);
        case Modify(k, limit, stop, quantity) => EditNames(s, k, ModifyOne(s.orders[k], limit, stop, quantity).0);
        case Cancel(k) => EditNames(s, k, CancelOne(s.orders[k]).0);
        case Close(symbol, requested, price) => CloseNames(s, symbol, requested, price);
        case Insert(j) => InsertNames(s, j);
        case Book(j, price) => BookNames(s, j, price);
        case Push(j) => PushNames(s, j);
        case Net(j) => NetNames(s, j);
      }
    }
  }

  lemma {:induction false} NamesRun(s: State, acts: seq<Action>)
    requires Named(s)
    ensures Named(Exec(s, acts))
    decreases acts
  {
    if acts != [] {
      NamesStep(s, acts[0]);
      NamesRun(Apply(s, acts[0]), acts[1..]);
    }
  }

  /** In every run, every trade is on the symbol and side of an order there is, and a submitted
      order is on those of its request. */
  lemma TradesBelong(requested: Option<real>, acts: seq<Action>, i: nat)
    requires i < |Run(requested, acts).trades|
    ensures var s := Run(requested, acts); var t := s.trades[i];
            && t.order in s.orders && t.order < |s.jobs|
            && t.symbol == s.orders[t.order].symbol && t.side == s.orders[t.order].side
            && (s.jobs[t.order].kind.Submitted? ==>
                  var r := s.jobs[t.order].kind.request; t.symbol == r.symbol && t.side == r.side)
  {
    NamesRun(Init(requested), acts);
    var s := Run(requested, acts);
    assert TradeNamed(s, s.trades[i]);
    assert OrderNamed(s, s.trades[i].order);
  }

  /** The first tranche in terms of the ratio asked for: that share of a positive quantity if the
      ratio lies strictly between 0 and 1, and otherwise all of it. */
  lemma FirstTrancheExact(requested: Option<real>, acts: seq<Action>, quantity: real)
    ensures var ratio := Run(requested, acts).ratio;
            var splits := requested.Some? && 0.0 < requested.value < 1.0 && quantity > 0.0;
            && (Split(ratio, quantity) <==> splits)
            && FirstFill(ratio, quantity) == if splits then quantity * requested.value else quantity
  {
    JobsGrow(Init(requested), acts);
    if requested.Some? && 0.0 < requested.value < 1.0 {
      ShareOf(quantity, requested.value);
    }
  }

  lemma ShareOf(quantity: real, ratio: real)
    requires 0.0 < ratio < 1.0
    ensures 0.0 < quantity * ratio < quantity <==> quantity > 0.0
  {
    if quantity > 0.0 {
      assert quantity * (1.0 - ratio) > 0.0;
    } else {
      assert (-quantity) * ratio >= 0.0;
    }
  }

  // ----- Overfilling, exactly

  /** In every run, a positive order fills within its quantity exactly when it has not
      started, or has had its second tranche, or was not resized below its first. */
  lemma WithinQuantityExact(requested: Option<real>, acts: seq<Action>, j: nat)
    requires var s := Run(requested, acts);
             && j < |s.jobs| && s.jobs[j].kind.Submitted? && s.jobs[j].kind.request.quantity > 0.0 && j in s.orders
    ensures var s := Run(requested, acts); var o, job := s.orders[j], s.jobs[j];
            0.0 <= o.filled <= o.quantity <==>
            |job.fills| != 1 || o.quantity >= FirstFill(s.ratio, job.kind.request.quantity)
  {
    var s := Run(requested, acts);
    RunOk(requested, acts);
    assert JobOk(s, j);
    var fills := s.jobs[j].fills;
    if |fills| == 1 {
      OneFill(fills[0]);
      assert fills == [fills[0]];
    } else if |fills| == 2 {
      TwoFills(fills);
    }
  }

  const TEN := Request("AAPL", Buy, 10.0, Market, None, None)

  /** A whole order of 10, resized to 4 before its fill, fills 10 of 4. */
  lemma ResizeBelowOverfills()
    ensures var s := Run(None, [Submit(TEN), Modify(0, None, None, Some(4.0)), Book(0, 1.0)]);
            0 in s.orders && s.orders[0].quantity == 4.0 && s.orders[0].filled == 10.0 && s.orders[0].remaining == -6.0
  {
    var s1 := Apply(Init(None), Submit(TEN));
    var s2 := Apply(s1, Modify(0, None, None, Some(4.0)));
    var s3 := Apply(s2, Book(0, 1.0));
    assert s2.orders[0] == NewOrder(TEN).(quantity := 4.0, remaining := 4.0);
    assert s2.jobs[0] == Job(Submitted(TEN), "AAPL", Buy, [], 0, 0, First, false);
    assert CanBook(s2.jobs[0]) && !Gives(s2, 0, 1.0) && Amount(s2, s2.jobs[0]) == 10.0;
    assert s3.orders[0].filled == 10.0;
    var acts := [Submit(TEN), Modify(0, None, None, Some(4.0)), Book(0, 1.0)];
    assert acts[1..][1..][1..] == [];
    assert Exec(Init(None), acts) == Exec(s1, acts[1..]) == Exec(s2, acts[1..][1..]) == Exec(s3, acts[1..][1..][1..]);
  }

  // ----- The average price

  /** The average of a twice-filled order lies between its two prices exactly when they are
      equal, or the order was not resized below its first tranche, or was resized to nothing
      (its average then stays at the first price). */
  lemma AverageBetweenExact(requested: Option<real>, acts: seq<Action>, j: nat)
    requires var s := Run(requested, acts);
             j < |s.jobs| && s.jobs[j].kind.Submitted? && |s.jobs[j].fills| == 2 && j in s.orders
    ensures var s := Run(requested, acts); var o, job := s.orders[j], s.jobs[j];
            var p, q := job.fills[0].price, job.fills[1].price;
            && o.average.Some?
            && ((p <= o.average.value <= q || q <= o.average.value <= p) <==>
                p == q || o.quantity >= FirstFill(s.ratio, job.kind.request.quantity) || o.quantity == 0.0)
  {
    var s := Run(requested, acts);
    RunOk(requested, acts);
    assert JobOk(s, j);
    var o, fills := s.orders[j], s.jobs[j].fills;
    TwoFills(fills);
    var p, x, q, y := fills[0].price, fills[0].quantity, fills[1].price, fills[1].quantity;
    if o.quantity > 0.0 {
      AverageIsMean(o, fills);
      if y >= 0.0 {
        MeanBetween(p, x, q, y, if p <= q then p else q, if p <= q then q else p);
      } else if p != q {
        MeanOutside(p, x, q, y);
      } else {
        MeanOfEqual(p, x, y);
      }
    }
  }

  lemma SameMultiple(a: real, w: real, n: real)
    requires w != 0.0 && a * w == n
    ensures a == n / w
  {
  }

  lemma AverageIsMean(o: Order, fills: seq<Fill>)
    requires Ledger(o, fills) && |fills| == 2 && o.filled > 0.0
    ensures fills[0].quantity + fills[1].quantity == o.filled
    ensures o.average == Some(Mean(fills[0].price, fills[0].quantity, fills[1].price, fills[1].quantity))
  {
    TwoFills(fills);
    MeanUnique(o.average.value, o.filled, Notional(fills),
               fills[0].price, fills[0].quantity, fills[1].price, fills[1].quantity);
  }

  lemma MeanUnique(m: real, w: real, n: real, a: real, x: real, b: real, y: real)
    requires w == x + y && w != 0.0 && n == a * x + b * y && m * w == n
    ensures m == Mean(a, x, b, y)
  {
    SameMultiple(m, w, n);
  }

  lemma MeanOfEqual(p: real, x: real, y: real)
    requires x + y > 0.0
    ensures Mean(p, x, p, y) == p
  {
    MeanShift(p, x, p, y, p, (p - p) * x, (p - p) * y);
  }

  /** The average of a once-filled order is its price. */
  lemma AverageOfOne(requested: Option<real>, acts: seq<Action>, j: nat)
    requires var s := Run(requested, acts);
             j in s.orders && j < |s.jobs| && |s.jobs[j].fills| == 1 && s.jobs[j].fills[0].quantity > 0.0
    ensures var s := Run(requested, acts); s.orders[j].average == Some(s.jobs[j].fills[0].price)
  {
    var s := Run(requested, acts);
    RunOk(requested, acts);
    assert JobOk(s, j);
    var f := s.jobs[j].fills[0];
    OneFill(f);
    assert s.jobs[j].fills == [f];
    SameMultiple(s.orders[j].average.value, f.quantity, f.price * f.quantity);
    SameMultiple(f.price, f.quantity, f.price * f.quantity);
  }
}

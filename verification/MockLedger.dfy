/** Every interleaving of the mock broker's fill tasks, cancels, modifications and
    closes (crates/mock/src/adapter.rs).

    Orders, positions and trades are locked separately, so a fill is three atomic
    steps (book the order, push the trade, net the position) and so is a close
    (take the position off, insert its order, push its trade). Every order is made
    by one `Job`, whose index stands for the order id. `Apply` performs one atomic
    action and is the identity where it is not enabled, so a run is any sequence of
    actions. Prices are arbitrary.
 */
module MockLedger {
  import opened Sequences
  import opened MockBroker

  datatype Fill = Fill(quantity: real, price: real)

  /** What a fill task does next: its first tranche, the rest of a split order, or nothing. */
  datatype Todo = First | Rest(remainder: real) | Nothing

  datatype Kind = Submitted(request: Request) | Closing(order: Order, inserted: bool)

  /** `fills` are the tranches booked so far; the first `pushed` of them are recorded as
      trades and the first `netted` are in the position. `died` marks a panicked task. */
  datatype Job = Job(
    kind: Kind, symbol: string, side: Side, fills: seq<Fill>, pushed: nat, netted: nat, todo: Todo, died: bool)

  /** A change to a position, as it happened. */
  datatype NetEvent = NetEvent(symbol: string, side: Side, quantity: real, price: real, closing: bool)

  datatype State = State(
    ratio: Option<real>, orders: map<nat, Order>, positions: Book, trades: seq<Trade>,
    jobs: seq<Job>, nets: seq<NetEvent>)

  function Init(requested: Option<real>): State {
    State(if requested.Some? then WithRatio(requested.value) else None, map[], map[], [], [], [])
  }

  datatype Action =
    | Submit(request: Request)
    | Modify(order: nat, limit: Option<real>, stop: Option<real>, quantity: Option<real>)
    | Cancel(order: nat)
    | Close(symbol: string, requested: Option<real>, price: real)
    | Insert(job: nat)
    | Book(job: nat, price: real)
    | Push(job: nat)
    | Net(job: nat)

  function DoSubmit(s: State, r: Request): State {
    s.(orders := s.orders[|s.jobs| := NewOrder(r)],
       jobs := s.jobs + [Job(Submitted(r), r.symbol, r.side, [], 0, 0, First, false)])
  }

  predicate CanBook(job: Job) {
    job.kind.Submitted? && !job.todo.Nothing? && job.netted == |job.fills|
  }

  /** Whether the task finds its price condition unmet or its order cancelled. */
  predicate Gives(s: State, j: nat, price: real)
    requires j < |s.jobs| && CanBook(s.jobs[j])
  {
    || (s.jobs[j].todo.First? && !ShouldFill(s.jobs[j].kind.request, price))
    || j !in s.orders || s.orders[j].status.Cancelled?
  }

  function Amount(s: State, job: Job): real
    requires CanBook(job)
  {
    if job.todo.First? then FirstFill(s.ratio, job.kind.request.quantity) else job.todo.remainder
  }

  function DoBook(s: State, j: nat, price: real): State
    requires j < |s.jobs| && CanBook(s.jobs[j])
  {
    var job := s.jobs[j];
    if Gives(s, j, price) then s.(jobs := s.jobs[j := job.(todo := Nothing)])
    else
      var o := FillOrder(s.orders[j], Amount(s, job), price);
      var next := if job.todo.First? && Split(s.ratio, job.kind.request.quantity) then Rest(o.remaining) else Nothing;
      s.(orders := s.orders[j := o],
         jobs := s.jobs[j := job.(fills := job.fills + [Fill(Amount(s, job), price)], todo := next)])
  }

  predicate CanPush(job: Job) {
    job.pushed < |job.fills| && (job.kind.Closing? ==> job.kind.inserted)
  }

  function DoPush(s: State, j: nat): State
    requires j < |s.jobs| && CanPush(s.jobs[j])
  {
    var job := s.jobs[j];
    var f := job.fills[job.pushed];
    s.(trades := s.trades + [Trade(j, job.symbol, job.side, f.quantity, f.price)],
       jobs := s.jobs[j := job.(pushed := job.pushed + 1)])
  }

  predicate CanNet(job: Job) {
    job.netted < job.pushed && job.netted < |job.fills|
  }

  function DoNet(s: State, j: nat): State
    requires j < |s.jobs| && CanNet(s.jobs[j])
  {
    var job := s.jobs[j];
    var f := job.fills[job.netted];
    var (book, died) := Upsert(s.positions, job.symbol, job.side, f.quantity, f.price);
    s.(positions := book, nets := s.nets + [NetEvent(job.symbol, job.side, f.quantity, f.price, false)],
       jobs := s.jobs[j := job.(netted := job.netted + 1, died := job.died || died,
                                todo := if died then Nothing else job.todo)])
  }

  function DoClose(s: State, symbol: string, requested: Option<real>, price: real): State
    requires symbol in s.positions
  {
    var p := s.positions[symbol];
    var quantity, side := CloseQuantity(p, requested), CloseSide(p);
    var order := CloseOrder(p, symbol, quantity, price);
    s.(positions := TakeOff(s.positions, symbol, requested),
       nets := s.nets + [NetEvent(symbol, side, quantity, price, true)],
       jobs := s.jobs + [Job(Closing(order, false), symbol, side, [Fill(quantity, price)], 0, 1, Nothing, false)])
  }

  function DoInsert(s: State, j: nat): State
    requires j < |s.jobs| && s.jobs[j].kind.Closing?
  {
    s.(orders := s.orders[j := s.jobs[j].kind.order],
       jobs := s.jobs[j := s.jobs[j].(kind := s.jobs[j].kind.(inserted := true))])
  }

  function Apply(s: State, a: Action): State {
    match a
    case Submit(r) => DoSubmit(s, r)
    case Modify(o, limit, stop, quantity) =>
      if o in s.orders then s.(orders := s.orders[o := ModifyOne(s.orders[o], limit, stop, quantity).0]) else s
    case Cancel(o) =>
      if o in s.orders then s.(orders := s.orders[o := CancelOne(s.orders[o]).0]) else s
    case Close(symbol, requested, price) =>
      if symbol in s.positions then DoClose(s, symbol, requested, price) else s
    case Insert(j) =>
      if j < |s.jobs| && s.jobs[j].kind.Closing? && !s.jobs[j].kind.inserted then DoInsert(s, j) else s
    case Book(j, price) => if j < |s.jobs| && CanBook(s.jobs[j]) then DoBook(s, j, price) else s
    case Push(j) => if j < |s.jobs| && CanPush(s.jobs[j]) then DoPush(s, j) else s
    case Net(j) => if j < |s.jobs| && CanNet(s.jobs[j]) then DoNet(s, j) else s
  }

  function Exec(s: State, acts: seq<Action>): State
    decreases acts
  {
    if acts == [] then s else Exec(Apply(s, acts[0]), acts[1..])
  }

  function Run(requested: Option<real>, acts: seq<Action>): State {
    Exec(Init(requested), acts)
  }

  // ----- Sums

  function Qty(fills: seq<Fill>): real {
    if fills == [] then 0.0 else Qty(fills[..|fills| - 1]) + fills[|fills| - 1].quantity
  }

  function Notional(fills: seq<Fill>): real {
    if fills == [] then 0.0
    else Notional(fills[..|fills| - 1]) + fills[|fills| - 1].price * fills[|fills| - 1].quantity
  }

  lemma SumAppend(fills: seq<Fill>, f: Fill)
    ensures Qty(fills + [f]) == Qty(fills) + f.quantity
    ensures Notional(fills + [f]) == Notional(fills) + f.price * f.quantity
  {
    assert (fills + [f])[..|fills|] == fills;
  }

  /** The part of a job's fills that is in the position (`netted`) or among the trades. */
  function Part(job: Job, netted: bool): seq<Fill> {
    var n := if netted then job.netted else job.pushed;
    if n <= |job.fills| then job.fills[..n] else job.fills
  }

  function Share(job: Job, symbol: string, netted: bool): real {
    if job.symbol == symbol then Signed(job.side, Qty(Part(job, netted))) else 0.0
  }

  function Total(jobs: seq<Job>, symbol: string, netted: bool): real {
    if jobs == [] then 0.0
    else Total(jobs[..|jobs| - 1], symbol, netted) + Share(jobs[|jobs| - 1], symbol, netted)
  }

  lemma TotalAppend(jobs: seq<Job>, job: Job, symbol: string, netted: bool)
    ensures Total(jobs + [job], symbol, netted) == Total(jobs, symbol, netted) + Share(job, symbol, netted)
  {
    assert (jobs + [job])[..|jobs|] == jobs;
  }

  lemma {:induction false} TotalUpdate(jobs: seq<Job>, j: nat, job: Job, symbol: string, netted: bool)
    requires j < |jobs|
    ensures Total(jobs[j := job], symbol, netted) ==
            Total(jobs, symbol, netted) - Share(jobs[j], symbol, netted) + Share(job, symbol, netted)
    decreases |jobs|
  {
    var n := |jobs| - 1;
    if j < n {
      assert jobs[j := job][..n] == jobs[..n][j := job];
      TotalUpdate(jobs[..n], j, job, symbol, netted);
    } else {
      assert jobs[j := job][..n] == jobs[..n];
    }
  }

  /** The signed quantity of the recorded trades in a symbol. */
  function Traded(trades: seq<Trade>, symbol: string): real {
    if trades == [] then 0.0
    else
      var t := trades[|trades| - 1];
      Traded(trades[..|trades| - 1], symbol) + if t.symbol == symbol then Signed(t.side, t.quantity) else 0.0
  }

  /** The recorded trades of one order, in order. */
  function TradesOf(trades: seq<Trade>, order: nat): seq<Fill> {
    if trades == [] then []
    else
      var n := |trades| - 1;
      if trades[n].order == order then TradesOf(trades[..n], order) + [Fill(trades[n].quantity, trades[n].price)]
      else TradesOf(trades[..n], order)
  }

  lemma TradesAppend(trades: seq<Trade>, t: Trade, symbol: string, order: nat)
    ensures Traded(trades + [t], symbol) ==
            Traded(trades, symbol) + if t.symbol == symbol then Signed(t.side, t.quantity) else 0.0
    ensures TradesOf(trades + [t], order) ==
            if t.order == order then TradesOf(trades, order) + [Fill(t.quantity, t.price)] else TradesOf(trades, order)
  {
    assert (trades + [t])[..|trades|] == trades;
  }

  lemma {:induction false} TradesNone(trades: seq<Trade>, order: nat)
    requires forall i | 0 <= i < |trades| :: trades[i].order < order
    ensures TradesOf(trades, order) == []
    decreases |trades|
  {
    if trades != [] {
      TradesNone(trades[..|trades| - 1], order);
    }
  }

  // ----- Conservation: no hypothesis on quantities at all

  predicate Counted(job: Job) {
    && job.pushed <= |job.fills| && job.netted <= |job.fills|
    && (job.kind.Submitted? ==> job.netted <= job.pushed)
    && (job.kind.Closing? ==> |job.fills| == 1 == job.netted)
  }

  ghost predicate Balanced(s: State) {
    && (forall j | 0 <= j < |s.jobs| :: Counted(s.jobs[j]))
    && (forall symbol :: Holding(s.positions, symbol) == Total(s.jobs, symbol, true))
    && (forall symbol :: Traded(s.trades, symbol) == Total(s.jobs, symbol, false))
  }

  lemma NextPart(job: Job, netted: bool)
    requires Counted(job)
    requires if netted then job.netted < |job.fills| else job.pushed < |job.fills|
    ensures var n := if netted then job.netted else job.pushed;
            Qty(job.fills[..n + 1]) == Qty(job.fills[..n]) + job.fills[n].quantity
  {
    var n := if netted then job.netted else job.pushed;
    assert job.fills[..n + 1] == job.fills[..n] + [job.fills[n]];
    SumAppend(job.fills[..n], job.fills[n]);
  }

  /** Replacing a job whose shares did not change keeps the balance. */
  lemma SameShares(s: State, s': State, j: nat)
    requires Balanced(s) && j < |s.jobs| == |s'.jobs| && s'.jobs == s.jobs[j := s'.jobs[j]]
    requires s'.positions == s.positions && s'.trades == s.trades && Counted(s'.jobs[j])
    requires s'.jobs[j].symbol == s.jobs[j].symbol && s'.jobs[j].side == s.jobs[j].side
    requires Part(s'.jobs[j], true) == Part(s.jobs[j], true) && Part(s'.jobs[j], false) == Part(s.jobs[j], false)
    ensures Balanced(s')
  {
    forall symbol
      ensures Total(s'.jobs, symbol, true) == Total(s.jobs, symbol, true)
      ensures Total(s'.jobs, symbol, false) == Total(s.jobs, symbol, false)
    {
      TotalUpdate(s.jobs, j, s'.jobs[j], symbol, true);
      TotalUpdate(s.jobs, j, s'.jobs[j], symbol, false);
    }
  }

  lemma BookBalanced(s: State, j: nat, price: real)
    requires Balanced(s) && j < |s.jobs| && CanBook(s.jobs[j])
    ensures Balanced(DoBook(s, j, price))
  {
    var job, job' := s.jobs[j], DoBook(s, j, price).jobs[j];
    assert job'.fills[..job.netted] == job.fills[..job.netted];
    assert job'.fills[..job.pushed] == job.fills[..job.pushed];
    SameShares(s, DoBook(s, j, price), j);
  }

  lemma PushShares(job: Job, symbol: string)
    requires Counted(job) && CanPush(job)
    ensures var job', f := job.(pushed := job.pushed + 1), job.fills[job.pushed];
            && Share(job', symbol, true) == Share(job, symbol, true)
            && Share(job', symbol, false) ==
               Share(job, symbol, false) + if job.symbol == symbol then Signed(job.side, f.quantity) else 0.0
  {
    NextPart(job, false);
  }

  lemma PushBalanced(s: State, j: nat)
    requires Balanced(s) && j < |s.jobs| && CanPush(s.jobs[j])
    ensures Balanced(DoPush(s, j))
  {
    var s' := DoPush(s, j);
    var job, job', t := s.jobs[j], s'.jobs[j], s'.trades[|s.trades|];
    assert Counted(job);
    forall symbol
      ensures Total(s'.jobs, symbol, true) == Total(s.jobs, symbol, true)
      ensures Traded(s'.trades, symbol) == Total(s'.jobs, symbol, false)
    {
      PushShares(job, symbol);
      TotalUpdate(s.jobs, j, job', symbol, true);
      TotalUpdate(s.jobs, j, job', symbol, false);
      TradesAppend(s.trades, t, symbol, j);
    }
  }

  lemma NetBalanced(s: State, j: nat)
    requires Balanced(s) && j < |s.jobs| && CanNet(s.jobs[j])
    ensures Balanced(DoNet(s, j))
  {
    var s', job := DoNet(s, j), s.jobs[j];
    var f := job.fills[job.netted];
    NextPart(job, true);
    forall symbol
      ensures Holding(s'.positions, symbol) == Total(s'.jobs, symbol, true)
      ensures Total(s'.jobs, symbol, false) == Total(s.jobs, symbol, false)
    {
      TotalUpdate(s.jobs, j, s'.jobs[j], symbol, true);
      TotalUpdate(s.jobs, j, s'.jobs[j], symbol, false);
      UpsertNets(s.positions, job.symbol, job.side, f.quantity, f.price, symbol);
    }
  }

  lemma ArriveBalanced(s: State, s': State)
    requires Balanced(s) && |s'.jobs| == |s.jobs| + 1 && s'.jobs[..|s.jobs|] == s.jobs && s'.trades == s.trades
    requires Counted(s'.jobs[|s.jobs|]) && s'.jobs[|s.jobs|].pushed == 0
    requires forall symbol ::
               Holding(s'.positions, symbol) == Holding(s.positions, symbol) + Share(s'.jobs[|s.jobs|], symbol, true)
    ensures Balanced(s')
  {
    assert s'.jobs == s.jobs + [s'.jobs[|s.jobs|]];
    forall symbol
      ensures Holding(s'.positions, symbol) == Total(s'.jobs, symbol, true)
      ensures Traded(s'.trades, symbol) == Total(s'.jobs, symbol, false)
    {
      TotalAppend(s.jobs, s'.jobs[|s.jobs|], symbol, true);
      TotalAppend(s.jobs, s'.jobs[|s.jobs|], symbol, false);
    }
  }

  lemma CloseBalanced(s: State, symbol: string, requested: Option<real>, price: real)
    requires Balanced(s) && symbol in s.positions
    ensures Balanced(DoClose(s, symbol, requested, price))
  {
    var s' := DoClose(s, symbol, requested, price);
    var job := s'.jobs[|s.jobs|];
    assert job.fills[..1] == [] + job.fills;
    SumAppend([], job.fills[0]);
    forall other
      ensures Holding(s'.positions, other) == Holding(s.positions, other) + Share(job, other, true)
    {
      TakeOffNets(s.positions, symbol, requested, other);
    }
    ArriveBalanced(s, s');
  }

  lemma BalancedStep(s: State, a: Action)
    requires Balanced(s)
    ensures Balanced(Apply(s, a))
  {
    var s' := Apply(s, a);
    if s' != s {
      match a {
        case Submit(r) => ArriveBalanced(s, s');
        case Modify(_, _, _, _) =>
        case Cancel(_) =>
        case Close(symbol, requested, price) => CloseBalanced(s, symbol, requested, price);
        case Insert(j) => SameShares(s, s', j);
        case Book(j, price) => BookBalanced(s, j, price);
        case Push(j) => PushBalanced(s, j);
        case Net(j) => NetBalanced(s, j);
      }
    }
  }

  lemma {:induction false} BalancedRun(s: State, acts: seq<Action>)
    requires Balanced(s)
    ensures Balanced(Exec(s, acts))
    decreases acts
  {
    if acts != [] {
      BalancedStep(s, acts[0]);
      BalancedRun(Apply(s, acts[0]), acts[1..]);
    }
  }

  /** The trades pushed by a fill task but not yet applied to the position. */
  function InFlight(job: Job, symbol: string): real {
    if job.kind.Submitted? && job.symbol == symbol && job.netted <= job.pushed <= |job.fills|
    then Signed(job.side, Qty(job.fills[job.netted..job.pushed])) else 0.0
  }

  /** A close applied to the position whose trade is not yet pushed. */
  function Unrecorded(job: Job, symbol: string): real {
    if job.kind.Closing? && job.symbol == symbol && job.pushed == 0
    then Signed(job.side, Qty(job.fills)) else 0.0
  }

  function TotalInFlight(jobs: seq<Job>, symbol: string): real {
    if jobs == [] then 0.0 else TotalInFlight(jobs[..|jobs| - 1], symbol) + InFlight(jobs[|jobs| - 1], symbol)
  }

  function TotalUnrecorded(jobs: seq<Job>, symbol: string): real {
    if jobs == [] then 0.0 else TotalUnrecorded(jobs[..|jobs| - 1], symbol) + Unrecorded(jobs[|jobs| - 1], symbol)
  }

  lemma QtyNext(fills: seq<Fill>, i: nat, k: nat)
    requires i < k <= |fills|
    ensures Qty(fills[i..k]) == Qty(fills[i..k - 1]) + fills[k - 1].quantity
  {
    assert fills[i..k][..k - 1 - i] == fills[i..k - 1];
  }

  lemma {:induction false} QtySplit(fills: seq<Fill>, i: nat, k: nat)
    requires i <= k <= |fills|
    ensures Qty(fills[0..k]) == Qty(fills[0..i]) + Qty(fills[i..k])
    decreases k - i
  {
    if i < k {
      QtySplit(fills, i, k - 1);
      QtyNext(fills, 0, k);
      QtyNext(fills, i, k);
    }
  }

  lemma ShareDifference(job: Job, symbol: string)
    requires Counted(job)
    ensures Share(job, symbol, false) == Share(job, symbol, true) + InFlight(job, symbol) - Unrecorded(job, symbol)
  {
    if job.kind.Submitted? {
      QtySplit(job.fills, job.netted, job.pushed);
    } else {
      assert job.fills[..1] == job.fills && job.fills[..0] == [];
    }
  }

  lemma {:induction false} TotalDifference(jobs: seq<Job>, symbol: string)
    requires forall j | 0 <= j < |jobs| :: Counted(jobs[j])
    ensures Total(jobs, symbol, false) ==
            Total(jobs, symbol, true) + TotalInFlight(jobs, symbol) - TotalUnrecorded(jobs, symbol)
    decreases |jobs|
  {
    if jobs != [] {
      TotalDifference(jobs[..|jobs| - 1], symbol);
      ShareDifference(jobs[|jobs| - 1], symbol);
    }
  }

  /** In every run and for every symbol, whatever the quantities: the signed position, plus
      the trades pushed but not yet applied, minus the closes applied but not yet
      recorded, is the signed sum of the recorded trades. */
  lemma Conservation(requested: Option<real>, acts: seq<Action>, symbol: string)
    ensures var s := Run(requested, acts);
            Holding(s.positions, symbol) + TotalInFlight(s.jobs, symbol) - TotalUnrecorded(s.jobs, symbol)
            == Traded(s.trades, symbol)
  {
    BalancedRun(Init(requested), acts);
    TotalDifference(Run(requested, acts).jobs, symbol);
  }

  /** Everything a job booked is both recorded and in the position. */
  predicate Settled(job: Job) {
    job.pushed == job.netted == |job.fills|
  }

  lemma {:induction false} NothingPending(jobs: seq<Job>, symbol: string)
    requires forall j | 0 <= j < |jobs| :: Settled(jobs[j]) && Counted(jobs[j])
    ensures TotalInFlight(jobs, symbol) == 0.0 == TotalUnrecorded(jobs, symbol)
    decreases |jobs|
  {
    if jobs != [] {
      NothingPending(jobs[..|jobs| - 1], symbol);
    }
  }

  /** At rest, every symbol's net position is its net traded quantity. */
  lemma ConservationAtRest(requested: Option<real>, acts: seq<Action>, symbol: string)
    requires var s := Run(requested, acts); forall j | 0 <= j < |s.jobs| :: Settled(s.jobs[j])
    ensures var s := Run(requested, acts); Holding(s.positions, symbol) == Traded(s.trades, symbol)
  {
    BalancedRun(Init(requested), acts);
    Conservation(requested, acts, symbol);
    NothingPending(Run(requested, acts).jobs, symbol);
  }
}

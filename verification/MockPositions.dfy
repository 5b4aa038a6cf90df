/** The mock broker's positions against their own history (crates/mock/src/adapter.rs):
    netting is signed addition, averages stay within the prices paid, and exactly which
    fills leave a position without a quantity or kill the task that nets them.
 */
module MockPositions {
  import opened Sequences
  import opened MockBroker
  import opened MockLedger
  import opened MockOrders

  // ----- A position as its history determines it

  /** The changes to one symbol's position, in order. */
  function History(nets: seq<NetEvent>, symbol: string): seq<NetEvent> {
    if nets == [] then []
    else
      var n := |nets| - 1;
      if nets[n].symbol == symbol then History(nets[..n], symbol) + [nets[n]] else History(nets[..n], symbol)
  }

  lemma HistoryAppend(nets: seq<NetEvent>, e: NetEvent, symbol: string)
    ensures History(nets + [e], symbol) ==
            if e.symbol == symbol then History(nets, symbol) + [e] else History(nets, symbol)
  {
    assert (nets + [e])[..|nets|] == nets;
  }

  /** The signed sum of the changes. */
  function Sum(h: seq<NetEvent>): real {
    if h == [] then 0.0 else Sum(h[..|h| - 1]) + Signed(h[|h| - 1].side, h[|h| - 1].quantity)
  }

  function Sign(x: real): int {
    if x > 0.0 then 1 else if x < 0.0 then -1 else 0
  }

  /** Where the present position was opened or flipped: the change that gave the running
      sum the sign it has kept since. */
  function Since(h: seq<NetEvent>): nat {
    if h == [] then 0
    else
      var n := |h| - 1;
      if Sign(Sum(h)) == Sign(Sum(h[..n])) then Since(h[..n]) else n
  }

  /** Change i is a fill on the present position's side, since it was opened or flipped. */
  predicate EntryFill(h: seq<NetEvent>, i: nat) {
    Since(h) <= i < |h| && !h[i].closing && Sign(Signed(h[i].side, h[i].quantity)) == Sign(Sum(h))
  }

  function Size(x: real): real {
    if x < 0.0 then -x else x
  }

  /** What the present position cost, from its history alone: a fill on its side adds its own cost, a
      reduction keeps the share that is left, an opening or a flip starts anew at the fill's price. */
  function Cost(h: seq<NetEvent>): real {
    if h == [] then 0.0
    else
      var n := |h| - 1;
      var before, after, e := Sum(h[..n]), Sum(h), h[n];
      if Sign(after) != Sign(before) then e.price * Size(after)
      else if after == 0.0 then 0.0
      else if !e.closing && Sign(Signed(e.side, e.quantity)) == Sign(after) then Cost(h[..n]) + e.price * e.quantity
      else CostLeft(Cost(h[..n]), Size(after), Size(before))
  }

  /** The price of the latest fill; a close does not mark the position. */
  function LastPrice(h: seq<NetEvent>): Option<real> {
    if h == [] then None
    else if h[|h| - 1].closing then LastPrice(h[..|h| - 1])
    else Some(h[|h| - 1].price)
  }

  ghost predicate AverageWithin(h: seq<NetEvent>, average: real) {
    exists i: nat, k: nat :: EntryFill(h, i) && EntryFill(h, k) && h[i].price <= average <= h[k].price
  }

  /** There is a position exactly when the changes do not cancel out; its side and quantity
      are their signed sum's, its average times its quantity is what it cost, and the
      average lies within the same-side prices since it was opened or flipped. */
  ghost predicate Matches(m: Book, symbol: string, h: seq<NetEvent>) {
    && Holds(m, symbol, h)
    && (symbol in m ==> AverageWithin(h, m[symbol].averageEntry) && Priced(m[symbol], h))
  }

  ghost predicate Priced(p: Position, h: seq<NetEvent>) {
    p.averageEntry * p.quantity == Cost(h) && LastPrice(h) == Some(p.currentPrice)
  }

  ghost predicate Holds(m: Book, symbol: string, h: seq<NetEvent>) {
    && (symbol in m <==> Sum(h) != 0.0)
    && (symbol in m ==> m[symbol].quantity > 0.0 && Holding(m, symbol) == Sum(h))
  }

  lemma SumAppend(h: seq<NetEvent>, e: NetEvent)
    ensures Sum(h + [e]) == Sum(h) + Signed(e.side, e.quantity)
    ensures Since(h + [e]) == if Sign(Sum(h + [e])) == Sign(Sum(h)) then Since(h) else |h|
  {
    assert (h + [e])[..|h|] == h;
  }

  lemma SameEra(h: seq<NetEvent>, e: NetEvent, average: real)
    requires Sign(Sum(h + [e])) == Sign(Sum(h)) && AverageWithin(h, average)
    ensures AverageWithin(h + [e], average)
  {
    SumAppend(h, e);
    var i: nat, k: nat :| EntryFill(h, i) && EntryFill(h, k) && h[i].price <= average <= h[k].price;
    assert EntryFill(h + [e], i) && EntryFill(h + [e], k);
  }

  lemma NewEra(h: seq<NetEvent>, e: NetEvent)
    requires !e.closing && e.quantity > 0.0
    requires Sign(Sum(h + [e])) != Sign(Sum(h)) && Sign(Sum(h + [e])) == Sign(Signed(e.side, e.quantity))
    ensures AverageWithin(h + [e], e.price)
  {
    SumAppend(h, e);
    assert EntryFill(h + [e], |h|);
  }

  lemma AddedEntry(h: seq<NetEvent>, e: NetEvent, average: real, held: real)
    requires !e.closing && e.quantity > 0.0 && held > 0.0
    requires Sign(Sum(h + [e])) == Sign(Sum(h)) == Sign(Signed(e.side, e.quantity)) && AverageWithin(h, average)
    ensures AverageWithin(h + [e], Mean(average, held, e.price, e.quantity))
  {
    SumAppend(h, e);
    var i: nat, k: nat :| EntryFill(h, i) && EntryFill(h, k) && h[i].price <= average <= h[k].price;
    var h' := h + [e];
    assert EntryFill(h', i) && EntryFill(h', k) && EntryFill(h', |h|);
    var low: nat := if h[i].price <= e.price then i else |h|;
    var high: nat := if h[k].price >= e.price then k else |h|;
    MeanBetween(average, held, e.price, e.quantity, h'[low].price, h'[high].price);
    assert EntryFill(h', low) && EntryFill(h', high);
  }

  lemma CostAppend(h: seq<NetEvent>, e: NetEvent)
    ensures var before, after := Sum(h), Sum(h + [e]);
            Cost(h + [e]) ==
            if Sign(after) != Sign(before) then e.price * Size(after)
            else if after == 0.0 then 0.0
            else if !e.closing && Sign(Signed(e.side, e.quantity)) == Sign(after) then Cost(h) + e.price * e.quantity
            else CostLeft(Cost(h), Size(after), Size(before))
    ensures LastPrice(h + [e]) == if e.closing then LastPrice(h) else Some(e.price)
  {
    assert (h + [e])[..|h|] == h;
  }

  /** The cost of what is left of a holding. */
  function CostLeft(cost: real, left: real, held: real): real
    requires held != 0.0
  {
    cost * (left / held)
  }

  lemma LeftAtAverage(average: real, held: real, left: real)
    requires held != 0.0
    ensures CostLeft(average * held, left, held) == average * left
  {
    assert held * (left / held) == left;
    assert (average * held) * (left / held) == average * (held * (left / held));
  }

  lemma OpenedPriced(h: seq<NetEvent>, e: NetEvent, p: Position)
    requires !e.closing && Sign(Sum(h + [e])) != Sign(Sum(h))
    requires p.quantity == Size(Sum(h + [e])) && p.averageEntry == p.currentPrice == e.price
    ensures Priced(p, h + [e])
  {
    CostAppend(h, e);
  }

  lemma AddedPriced(h: seq<NetEvent>, e: NetEvent, p: Position)
    requires !e.closing && e.quantity > 0.0 && p.quantity > 0.0 && Priced(p, h)
    requires Sign(Sum(h + [e])) == Sign(Sum(h)) == Sign(Signed(e.side, e.quantity))
    ensures Priced(p.(quantity := p.quantity + e.quantity, currentPrice := e.price,
                      averageEntry := Mean(p.averageEntry, p.quantity, e.price, e.quantity)), h + [e])
  {
    CostAppend(h, e);
    MeanTimesWeight(p.averageEntry, p.quantity, e.price, e.quantity);
  }

  /** Less of a position, or a close of a negative quantity, at the same average. */
  lemma RescaledPriced(h: seq<NetEvent>, e: NetEvent, p: Position, p': Position)
    requires Priced(p, h) && p.quantity == Size(Sum(h)) > 0.0 && p'.quantity == Size(Sum(h + [e]))
    requires Sign(Sum(h + [e])) == Sign(Sum(h)) && p'.averageEntry == p.averageEntry
    requires e.closing || Sign(Signed(e.side, e.quantity)) != Sign(Sum(h))
    requires p'.currentPrice == if e.closing then p.currentPrice else e.price
    ensures Priced(p', h + [e])
  {
    CostAppend(h, e);
    LeftAtAverage(p.averageEntry, p.quantity, p'.quantity);
  }

  function Filled(symbol: string, side: Side, quantity: real, price: real): NetEvent {
    NetEvent(symbol, side, quantity, price, false)
  }

  /** Nothing held, or less than the fill and on the other side. */
  lemma OpenMatches(m: Book, symbol: string, side: Side, quantity: real, price: real, h: seq<NetEvent>)
    requires Matches(m, symbol, h) && quantity > 0.0
    requires symbol in m ==> m[symbol].side != SideOf(side) && quantity > m[symbol].quantity
    ensures var (m', died) := Upsert(m, symbol, side, quantity, price);
            !died && Matches(m', symbol, h + [Filled(symbol, side, quantity, price)])
  {
    var e := Filled(symbol, side, quantity, price);
    SumAppend(h, e);
    UpsertNets(m, symbol, side, quantity, price, symbol);
    NewEra(h, e);
    OpenedPriced(h, e, Upsert(m, symbol, side, quantity, price).0[symbol]);
  }

  lemma AddMatches(m: Book, symbol: string, side: Side, quantity: real, price: real, h: seq<NetEvent>)
    requires Matches(m, symbol, h) && quantity > 0.0 && symbol in m && m[symbol].side == SideOf(side)
    ensures var (m', died) := Upsert(m, symbol, side, quantity, price);
            !died && Matches(m', symbol, h + [Filled(symbol, side, quantity, price)])
  {
    var e, p := Filled(symbol, side, quantity, price), m[symbol];
    SumAppend(h, e);
    UpsertNets(m, symbol, side, quantity, price, symbol);
    AddedEntry(h, e, p.averageEntry, p.quantity);
    AddedPriced(h, e, p);
  }

  lemma ReduceMatches(m: Book, symbol: string, side: Side, quantity: real, price: real, h: seq<NetEvent>)
    requires Matches(m, symbol, h) && quantity > 0.0
    requires symbol in m && m[symbol].side != SideOf(side) && quantity <= m[symbol].quantity
    ensures var (m', died) := Upsert(m, symbol, side, quantity, price);
            !died && Matches(m', symbol, h + [Filled(symbol, side, quantity, price)])
  {
    var e, p := Filled(symbol, side, quantity, price), m[symbol];
    SumAppend(h, e);
    UpsertNets(m, symbol, side, quantity, price, symbol);
    if quantity < p.quantity {
      SameEra(h, e, p.averageEntry);
      RescaledPriced(h, e, p, Upsert(m, symbol, side, quantity, price).0[symbol]);
    }
  }

  /** Netting a positive fill does what adding it to the history calls for, and never panics. */
  lemma UpsertMatches(m: Book, symbol: string, side: Side, quantity: real, price: real, h: seq<NetEvent>)
    requires Matches(m, symbol, h) && quantity > 0.0
    ensures var (m', died) := Upsert(m, symbol, side, quantity, price);
            !died && Matches(m', symbol, h + [Filled(symbol, side, quantity, price)])
  {
    if symbol !in m {
      OpenMatches(m, symbol, side, quantity, price, h);
    } else if m[symbol].side == SideOf(side) {
      AddMatches(m, symbol, side, quantity, price, h);
    } else if quantity > m[symbol].quantity {
      OpenMatches(m, symbol, side, quantity, price, h);
    } else {
      ReduceMatches(m, symbol, side, quantity, price, h);
    }
  }

  lemma TakeOffMatches(m: Book, symbol: string, requested: Option<real>, price: real, h: seq<NetEvent>)
    requires symbol in m && Matches(m, symbol, h)
    ensures var p := m[symbol];
            Matches(TakeOff(m, symbol, requested), symbol,
                    h + [NetEvent(symbol, CloseSide(p), CloseQuantity(p, requested), price, true)])
  {
    var p := m[symbol];
    var e := NetEvent(symbol, CloseSide(p), CloseQuantity(p, requested), price, true);
    SumAppend(h, e);
    if CloseQuantity(p, requested) != p.quantity {
      SameEra(h, e, p.averageEntry);
      RescaledPriced(h, e, p, TakeOff(m, symbol, requested)[symbol]);
    }
  }

  // ----- Positions over whole runs

  lemma OtherSymbol(m: Book, m': Book, symbol: string, h: seq<NetEvent>)
    requires Holds(m, symbol, h)
    requires symbol in m <==> symbol in m'
    requires symbol in m ==> m'[symbol] == m[symbol]
    ensures Holds(m', symbol, h)
    ensures Matches(m, symbol, h) ==> Matches(m', symbol, h)
  {
  }

  /** The change an action makes to the positions, if it makes one. */
  function Change(s: State, a: Action): Option<NetEvent> {
    if |Apply(s, a).nets| > |s.nets| then Some(Apply(s, a).nets[|s.nets|]) else None
  }

  lemma ChangeAppends(s: State, a: Action)
    ensures var s' := Apply(s, a);
            if Change(s, a).None? then s'.nets == s.nets && s'.positions == s.positions
            else s'.nets == s.nets + [Change(s, a).value]
  {
  }

  lemma {:induction false} NetsGrow(s: State, acts: seq<Action>)
    ensures s.nets <= Exec(s, acts).nets
    decreases acts
  {
    if acts != [] {
      ChangeAppends(s, acts[0]);
      NetsGrow(Apply(s, acts[0]), acts[1..]);
    }
  }

  /** Every fill netted into the symbol's position is positive. */
  ghost predicate PositiveFills(nets: seq<NetEvent>, symbol: string) {
    forall i | 0 <= i < |nets| && nets[i].symbol == symbol && !nets[i].closing :: nets[i].quantity > 0.0
  }

  lemma FollowNet(s: State, j: nat, symbol: string)
    requires j < |s.jobs| && CanNet(s.jobs[j])
    requires Matches(s.positions, symbol, History(s.nets, symbol)) && PositiveFills(DoNet(s, j).nets, symbol)
    ensures Matches(DoNet(s, j).positions, symbol, History(DoNet(s, j).nets, symbol))
  {
    var s', h := DoNet(s, j), History(s.nets, symbol);
    var e := s'.nets[|s.nets|];
    HistoryAppend(s.nets, e, symbol);
    if e.symbol == symbol {
      UpsertMatches(s.positions, symbol, e.side, e.quantity, e.price, h);
    } else {
      OtherSymbol(s.positions, s'.positions, symbol, h);
    }
  }

  lemma FollowClose(s: State, closed: string, requested: Option<real>, price: real, symbol: string)
    requires closed in s.positions && Matches(s.positions, symbol, History(s.nets, symbol))
    ensures var s' := DoClose(s, closed, requested, price); Matches(s'.positions, symbol, History(s'.nets, symbol))
  {
    var s', h := DoClose(s, closed, requested, price), History(s.nets, symbol);
    HistoryAppend(s.nets, s'.nets[|s.nets|], symbol);
    if closed == symbol {
      TakeOffMatches(s.positions, symbol, requested, price, h);
    } else {
      OtherSymbol(s.positions, s'.positions, symbol, h);
    }
  }

  lemma FollowStep(s: State, a: Action, symbol: string)
    requires Matches(s.positions, symbol, History(s.nets, symbol)) && PositiveFills(Apply(s, a).nets, symbol)
    ensures var s' := Apply(s, a); Matches(s'.positions, symbol, History(s'.nets, symbol))
  {
    ChangeAppends(s, a);
    if Change(s, a).Some? {
      if a.Net? {
        FollowNet(s, a.job, symbol);
      } else {
        FollowClose(s, a.symbol, a.requested, a.price, symbol);
      }
    }
  }

  lemma {:induction false} FollowRun(s: State, acts: seq<Action>, symbol: string)
    requires Matches(s.positions, symbol, History(s.nets, symbol)) && PositiveFills(Exec(s, acts).nets, symbol)
    ensures var s' := Exec(s, acts); Matches(s'.positions, symbol, History(s'.nets, symbol))
    decreases acts
  {
    if acts != [] {
      var s' := Apply(s, acts[0]);
      NetsGrow(s', acts[1..]);
      PrefixPositive(s'.nets, Exec(s, acts).nets, symbol);
      FollowStep(s, acts[0], symbol);
      FollowRun(s', acts[1..], symbol);
    }
  }

  lemma PrefixPositive(a: seq<NetEvent>, b: seq<NetEvent>, symbol: string)
    requires a <= b && PositiveFills(b, symbol)
    ensures PositiveFills(a, symbol)
  {
    assert forall i | 0 <= i < |a| :: a[i] == b[i];
  }

  /** In every run that nets only positive fills into a symbol, its position is the one its
      history determines: present exactly when the signed changes do not cancel out, of
      positive quantity, on the side and of the size of their sum, with an average that times
      the quantity is what the history says it cost, and that lies between the least and the
      greatest same-side fill price since it was opened or flipped. */
  lemma PositionsFollowHistory(requested: Option<real>, acts: seq<Action>, symbol: string)
    requires PositiveFills(Run(requested, acts).nets, symbol)
    ensures var s := Run(requested, acts); Matches(s.positions, symbol, History(s.nets, symbol))
  {
    FollowRun(Init(requested), acts, symbol);
  }

  // ----- When positions stay positive, exactly

  /** Every position is positive and no fill task has died. */
  ghost predicate Sound(s: State) {
    AllPositive(s.positions) && forall j | 0 <= j < |s.jobs| :: !s.jobs[j].died
  }

  ghost predicate SoundThroughout(s: State, acts: seq<Action>)
    decreases acts
  {
    Sound(s) && (acts == [] || SoundThroughout(Apply(s, acts[0]), acts[1..]))
  }

  /** From change n on, each fill on the side then held, or on neither, left something there;
      what was held is the signed sum of the symbol's earlier changes. */
  ghost predicate SafeFrom(nets: seq<NetEvent>, n: nat) {
    forall k: nat | n <= k < |nets| :: SafeAt(nets, k)
  }

  predicate SafeAt(nets: seq<NetEvent>, k: nat)
    requires k < |nets|
  {
    nets[k].closing || SafeFill(Sum(History(nets[..k], nets[k].symbol)), nets[k].side, nets[k].quantity)
  }

  ghost predicate HoldsAll(s: State) {
    forall symbol :: Holds(s.positions, symbol, History(s.nets, symbol))
  }

  lemma HoldsAllPositive(s: State)
    requires HoldsAll(s)
    ensures AllPositive(s.positions)
    ensures forall symbol :: Holding(s.positions, symbol) == Sum(History(s.nets, symbol))
  {
    forall symbol
      ensures symbol in s.positions ==> s.positions[symbol].quantity > 0.0
      ensures Holding(s.positions, symbol) == Sum(History(s.nets, symbol))
    {
      assert Holds(s.positions, symbol, History(s.nets, symbol));
    }
  }

  /** A change that leaves its own symbol right leaves them all right. */
  lemma HoldsAllStep(s: State, s': State, e: NetEvent)
    requires HoldsAll(s) && s'.nets == s.nets + [e]
    requires s'.positions - {e.symbol} == s.positions - {e.symbol}
    requires Holds(s'.positions, e.symbol, History(s.nets, e.symbol) + [e])
    ensures HoldsAll(s')
  {
    forall symbol
      ensures Holds(s'.positions, symbol, History(s'.nets, symbol))
    {
      HistoryAppend(s.nets, e, symbol);
      if symbol != e.symbol {
        assert symbol in s.positions <==> symbol in s.positions - {e.symbol};
        assert symbol in s'.positions <==> symbol in s'.positions - {e.symbol};
        assert symbol in s.positions ==> s.positions[symbol] == (s.positions - {e.symbol})[symbol];
        assert symbol in s'.positions ==> s'.positions[symbol] == (s'.positions - {e.symbol})[symbol];
        OtherSymbol(s.positions, s'.positions, symbol, History(s.nets, symbol));
      }
    }
  }

  lemma UpsertHolds(m: Book, symbol: string, side: Side, quantity: real, price: real, h: seq<NetEvent>)
    requires Holds(m, symbol, h) && SafeFill(Sum(h), side, quantity)
    ensures var (m', died) := Upsert(m, symbol, side, quantity, price);
            !died && Holds(m', symbol, h + [NetEvent(symbol, side, quantity, price, false)])
  {
    SumAppend(h, NetEvent(symbol, side, quantity, price, false));
  }

  lemma NetSoundExact(s: State, j: nat)
    requires HoldsAll(s) && Sound(s) && j < |s.jobs| && CanNet(s.jobs[j])
    ensures var s' := DoNet(s, j);
            && (Sound(s') <==> SafeAt(s'.nets, |s.nets|))
            && (Sound(s') ==> HoldsAll(s'))
  {
    var s', job := DoNet(s, j), s.jobs[j];
    var f := job.fills[job.netted];
    var e := NetEvent(job.symbol, job.side, f.quantity, f.price, false);
    assert s'.nets[..|s.nets|] == s.nets;
    HoldsAllPositive(s);
    UpsertPositiveExact(s.positions, job.symbol, job.side, f.quantity, f.price);
    if SafeAt(s'.nets, |s.nets|) {
      UpsertHolds(s.positions, job.symbol, job.side, f.quantity, f.price, History(s.nets, job.symbol));
      HoldsAllStep(s, s', e);
    }
  }

  lemma CloseSound(s: State, symbol: string, requested: Option<real>, price: real)
    requires HoldsAll(s) && Sound(s) && symbol in s.positions
    ensures Sound(DoClose(s, symbol, requested, price)) && HoldsAll(DoClose(s, symbol, requested, price))
  {
    var s', p := DoClose(s, symbol, requested, price), s.positions[symbol];
    var e := NetEvent(symbol, CloseSide(p), CloseQuantity(p, requested), price, true);
    assert Holds(s.positions, symbol, History(s.nets, symbol));
    SumAppend(History(s.nets, symbol), e);
    HoldsAllStep(s, s', e);
    HoldsAllPositive(s');
  }

  lemma StepSoundExact(s: State, a: Action)
    requires HoldsAll(s) && Sound(s)
    ensures var s' := Apply(s, a);
            && |s.nets| <= |s'.nets|
            && (Sound(s') <==> SafeFrom(s'.nets, |s.nets|))
            && (Sound(s') ==> HoldsAll(s'))
  {
    var s' := Apply(s, a);
    ChangeAppends(s, a);
    if Change(s, a).None? {
      QuietStep(s, a);
    } else if a.Net? {
      NetSoundExact(s, a.job);
      assert SafeFrom(s'.nets, |s.nets|) <==> SafeAt(s'.nets, |s.nets|);
    } else {
      CloseSound(s, a.symbol, a.requested, a.price);
    }
  }

  lemma QuietStep(s: State, a: Action)
    requires Sound(s) && Change(s, a).None?
    ensures Sound(Apply(s, a))
  {
    ChangeAppends(s, a);
  }

  lemma {:induction false} SoundRunExact(s: State, acts: seq<Action>)
    requires HoldsAll(s) && Sound(s)
    ensures SoundThroughout(s, acts) <==> SafeFrom(Exec(s, acts).nets, |s.nets|)
    decreases acts
  {
    if acts != [] {
      var s', all := Apply(s, acts[0]), Exec(s, acts).nets;
      StepSoundExact(s, acts[0]);
      NetsGrow(s', acts[1..]);
      SafePrefix(s'.nets, all, |s.nets|);
      if Sound(s') {
        SoundRunExact(s', acts[1..]);
      }
    }
  }

  lemma SafePrefix(a: seq<NetEvent>, b: seq<NetEvent>, n: nat)
    requires a <= b && n <= |a|
    ensures SafeFrom(b, n) <==> SafeFrom(a, n) && SafeFrom(b, |a|)
  {
    forall k: nat | k < |a|
      ensures SafeAt(a, k) <==> SafeAt(b, k)
    {
      assert a[..k] == b[..k] && a[k] == b[k];
    }
  }

  /** Over any run: every position is positive and every task alive in every state passed
      through, if and only if every fill was safe when it was netted. */
  lemma StaysSoundExact(requested: Option<real>, acts: seq<Action>)
    ensures SoundThroughout(Init(requested), acts) <==> SafeFrom(Run(requested, acts).nets, 0)
  {
    SoundRunExact(Init(requested), acts);
  }

  lemma {:induction false} SoundAtEnd(s: State, acts: seq<Action>)
    requires SoundThroughout(s, acts)
    ensures Sound(Exec(s, acts))
    decreases acts
  {
    if acts != [] {
      SoundAtEnd(Apply(s, acts[0]), acts[1..]);
    }
  }

  ghost predicate PositiveSubmissions(s: State) {
    forall j | 0 <= j < |s.jobs| && s.jobs[j].kind.Submitted? :: s.jobs[j].kind.request.quantity > 0.0
  }

  /** Whether netting a job's next fill is unsafe, and whether it kills the task. */
  lemma NetFailure(s: State, j: nat)
    requires Sound(s) && j < |s.jobs| && CanNet(s.jobs[j])
    ensures var s', job := DoNet(s, j), s.jobs[j];
            var held, f := Signed(job.side, Holding(s.positions, job.symbol)), job.fills[job.netted];
            && (!Sound(s') <==> held >= 0.0 && held + f.quantity <= 0.0)
            && (s'.jobs[j].died <==> held > 0.0 && held + f.quantity == 0.0)
  {
    var job := s.jobs[j];
    var f := job.fills[job.netted];
    UpsertPositiveExact(s.positions, job.symbol, job.side, f.quantity, f.price);
    UpsertDiesExact(s.positions, job.symbol, job.side, f.quantity, f.price);
    var s', up := DoNet(s, j), Upsert(s.positions, job.symbol, job.side, f.quantity, f.price);
    assert !job.died && s'.jobs[j].died == up.1 && s'.positions == up.0;
    assert forall k | 0 <= k < |s.jobs| && k != j :: s'.jobs[k] == s.jobs[k];
    assert Sound(s') <==> !up.1 && AllPositive(up.0);
  }

  /** The next fill to net of a positive submission: its first tranche, or what the resized
      order had left over it. */
  lemma NextFill(s: State, j: nat)
    requires OrdersOk(s) && PositiveSubmissions(s) && j < |s.jobs| && CanNet(s.jobs[j])
    ensures var job := s.jobs[j];
            && job.kind.Submitted? && j in s.orders
            && var first := FirstFill(s.ratio, job.kind.request.quantity);
               if job.netted == 0 then job.fills[0].quantity == first > 0.0
               else job.netted == 1 && job.fills[1].quantity == s.orders[j].quantity - first
  {
    assert JobOk(s, j);
  }

  /** How a run of positive submissions first goes wrong, exactly: some task nets the second
      tranche of an order that was resized to or below its first, while what is held on its
      side is no more than the shortfall; and the task dies exactly when it is the shortfall. */
  lemma FirstFailureExact(requested: Option<real>, acts: seq<Action>, j: nat)
    requires SoundThroughout(Init(requested), acts) && PositiveSubmissions(Run(requested, acts))
    requires var s := Run(requested, acts); j < |s.jobs| && CanNet(s.jobs[j])
    ensures var s := Run(requested, acts); var s', job := DoNet(s, j), s.jobs[j];
            && job.kind.Submitted? && j in s.orders
            && var shortfall := FirstFill(s.ratio, job.kind.request.quantity) - s.orders[j].quantity;
               var held := Signed(job.side, Holding(s.positions, job.symbol));
               && (!Sound(s') <==> job.netted == 1 && 0.0 <= held <= shortfall)
               && (s'.jobs[j].died <==> job.netted == 1 && 0.0 < held == shortfall)
  {
    SoundAtEnd(Init(requested), acts);
    RunOk(requested, acts);
    NetFailure(Run(requested, acts), j);
    NextFill(Run(requested, acts), j);
  }

  // ----- Rules a caller can keep to

  /** `KeepsSplit` resizes a split order to more than its first tranche; `Covers` resizes any
      order to no less than its first. */
  datatype Rule = KeepsSplit | Covers

  predicate Allows(rule: Rule, ratio: Option<real>, submitted: real, quantity: real) {
    match rule
    case KeepsSplit => Split(ratio, submitted) ==> quantity > FirstFill(ratio, submitted)
    case Covers => quantity >= FirstFill(ratio, submitted)
  }

  /** A submission of a positive quantity, a resize the rule allows, or any other action. */
  predicate Careful(rule: Rule, s: State, a: Action) {
    match a
    case Submit(r) => r.quantity > 0.0
    case Modify(o, _, _, Some(quantity)) =>
      o < |s.jobs| && s.jobs[o].kind.Submitted? ==> Allows(rule, s.ratio, s.jobs[o].kind.request.quantity, quantity)
    case _ => true
  }

  ghost predicate CarefulRun(rule: Rule, s: State, acts: seq<Action>)
    decreases acts
  {
    acts == [] || (Careful(rule, s, acts[0]) && CarefulRun(rule, Apply(s, acts[0]), acts[1..]))
  }

  /** Never resizing below the submitted quantity keeps to both rules. */
  lemma NotBelowSubmittedIsCareful(rule: Rule, ratio: Option<real>, submitted: real, quantity: real)
    requires quantity >= submitted > 0.0
    ensures Allows(rule, ratio, submitted, quantity)
  {
  }

  ghost predicate CarefulJob(rule: Rule, s: State, j: nat)
    requires j < |s.jobs|
  {
    var job := s.jobs[j];
    job.kind.Submitted? ==>
      && job.kind.request.quantity > 0.0 && j in s.orders
      && Allows(rule, s.ratio, job.kind.request.quantity, s.orders[j].quantity)
  }

  ghost predicate CarefulOk(rule: Rule, s: State) {
    OrdersOk(s) && forall j: nat | j < |s.jobs| :: CarefulJob(rule, s, j)
  }

  /** Only a modification changes an order's quantity, and no action changes a job's request. */
  lemma QuantityKept(s: State, a: Action, j: nat)
    requires OrdersOk(s) && j < |s.jobs| && s.jobs[j].kind.Submitted? && j in s.orders
    ensures var s' := Apply(s, a);
            && j < |s'.jobs| && s'.jobs[j].kind == s.jobs[j].kind && j in s'.orders
            && (s'.orders[j].quantity == s.orders[j].quantity
                || (a.Modify? && a.order == j && a.quantity == Some(s'.orders[j].quantity)))
  {
  }

  lemma KindKept(s: State, a: Action, j: nat)
    requires j < |s.jobs|
    ensures var s' := Apply(s, a);
            && s'.ratio == s.ratio && j < |s'.jobs| && (s'.jobs[j].kind.Submitted? <==> s.jobs[j].kind.Submitted?)
  {
  }

  lemma CarefulArrival(rule: Rule, s: State, a: Action)
    requires Careful(rule, s, a) && |Apply(s, a).jobs| > |s.jobs|
    ensures |Apply(s, a).jobs| == |s.jobs| + 1 && CarefulJob(rule, Apply(s, a), |s.jobs|)
  {
    if a.Submit? {
      NotBelowSubmittedIsCareful(rule, s.ratio, a.request.quantity, a.request.quantity);
    }
  }

  lemma CarefulStep(rule: Rule, s: State, a: Action)
    requires CarefulOk(rule, s) && Careful(rule, s, a)
    ensures CarefulOk(rule, Apply(s, a))
  {
    OrdersStep(s, a);
    var s' := Apply(s, a);
    forall j: nat | j < |s'.jobs|
      ensures CarefulJob(rule, s', j)
    {
      if j < |s.jobs| {
        assert CarefulJob(rule, s, j);
        KindKept(s, a, j);
        if s.jobs[j].kind.Submitted? {
          QuantityKept(s, a, j);
        }
      } else {
        CarefulArrival(rule, s, a);
      }
    }
  }

  /** Every fill netted so far, in any symbol, is positive. */
  ghost predicate AllFillsPositive(nets: seq<NetEvent>) {
    forall i | 0 <= i < |nets| && !nets[i].closing :: nets[i].quantity > 0.0
  }

  lemma NetPositive(s: State, a: Action)
    requires CarefulOk(KeepsSplit, s) && AllFillsPositive(s.nets)
    ensures AllFillsPositive(Apply(s, a).nets)
  {
    ChangeAppends(s, a);
    if a.Net? && Change(s, a).Some? {
      assert JobOk(s, a.job) && CarefulJob(KeepsSplit, s, a.job);
    }
  }

  lemma {:induction false} CarefulFills(s: State, acts: seq<Action>)
    requires CarefulOk(KeepsSplit, s) && AllFillsPositive(s.nets) && CarefulRun(KeepsSplit, s, acts)
    ensures AllFillsPositive(Exec(s, acts).nets)
    decreases acts
  {
    if acts != [] {
      NetPositive(s, acts[0]);
      CarefulStep(KeepsSplit, s, acts[0]);
      CarefulFills(Apply(s, acts[0]), acts[1..]);
    }
  }

  lemma {:induction false} CarefulRunOk(rule: Rule, s: State, acts: seq<Action>)
    requires CarefulOk(rule, s) && CarefulRun(rule, s, acts)
    ensures CarefulOk(rule, Exec(s, acts))
    decreases acts
  {
    if acts != [] {
      CarefulStep(rule, s, acts[0]);
      CarefulRunOk(rule, Apply(s, acts[0]), acts[1..]);
    }
  }

  /** A run that submits positive quantities and keeps every split order above its first
      tranche nets only positive fills, so all its positions follow their histories, and it
      stays sound throughout. */
  lemma CarefulPositions(requested: Option<real>, acts: seq<Action>, symbol: string)
    requires CarefulRun(KeepsSplit, Init(requested), acts)
    ensures SoundThroughout(Init(requested), acts) && AllFillsPositive(Run(requested, acts).nets)
    ensures var s := Run(requested, acts); Matches(s.positions, symbol, History(s.nets, symbol))
  {
    CarefulFills(Init(requested), acts);
    StaysSoundExact(requested, acts);
    PositionsFollowHistory(requested, acts, symbol);
  }

  /** Every tranche such a run books is positive, and no task dies. */
  lemma CarefulTranches(requested: Option<real>, acts: seq<Action>, j: nat)
    requires CarefulRun(KeepsSplit, Init(requested), acts)
    requires j < |Run(requested, acts).jobs| && Run(requested, acts).jobs[j].kind.Submitted?
    ensures var job := Run(requested, acts).jobs[j];
            !job.died && forall i | 0 <= i < |job.fills| :: job.fills[i].quantity > 0.0
  {
    var s := Run(requested, acts);
    CarefulRunOk(KeepsSplit, Init(requested), acts);
    CarefulPositions(requested, acts, s.jobs[j].symbol);
    SoundAtEnd(Init(requested), acts);
    assert JobOk(s, j) && CarefulJob(KeepsSplit, s, j);
  }

  /** A run that submits positive quantities and never resizes an order below its first
      tranche overfills none. */
  lemma CarefulOrders(requested: Option<real>, acts: seq<Action>, j: nat)
    requires CarefulRun(Covers, Init(requested), acts)
    requires var s := Run(requested, acts); j < |s.jobs| && s.jobs[j].kind.Submitted?
    ensures var s := Run(requested, acts); j in s.orders && 0.0 <= s.orders[j].filled <= s.orders[j].quantity
  {
    CarefulRunOk(Covers, Init(requested), acts);
    assert CarefulJob(Covers, Run(requested, acts), j);
    WithinQuantityExact(requested, acts, j);
  }

  // ----- What goes wrong otherwise

  lemma {:induction false} ExecSplit(s: State, a: seq<Action>, b: seq<Action>)
    ensures Exec(s, a + b) == Exec(Exec(s, a), b)
    decreases a
  {
    if a == [] {
      assert a + b == b;
    } else {
      assert (a + b)[1..] == a[1..] + b;
      ExecSplit(Apply(s, a[0]), a[1..], b);
    }
  }

  lemma ExecThree(s: State, a: Action, b: Action, c: Action)
    ensures Exec(s, [a, b, c]) == Apply(Apply(Apply(s, a), b), c)
  {
    ExecSplit(s, [a], [b] + [c]);
    ExecSplit(Apply(s, a), [b], [c]);
    assert [a, b, c] == [a] + ([b] + [c]);
    ExecOne(s, a);
    ExecOne(Apply(s, a), b);
    ExecOne(Apply(Apply(s, a), b), c);
  }

  lemma ExecOne(s: State, a: Action)
    ensures Exec(s, [a]) == Apply(s, a)
  {
    assert [a][1..] == [];
  }

  const WAITING := Job(Submitted(TEN), "AAPL", Buy, [], 0, 0, First, false)

  function Resized(quantity: real): State {
    State(Some(0.5), map[0 := NewOrder(TEN).(quantity := quantity, remaining := quantity)], map[], [], [WAITING], [])
  }

  lemma SubmittedAndResized(quantity: real)
    requires quantity >= 0.0
    ensures Apply(Apply(Init(Some(0.5)), Submit(TEN)), Modify(0, None, None, Some(quantity))) == Resized(quantity)
  {
    assert Apply(Init(Some(0.5)), Submit(TEN)) == State(Some(0.5), map[0 := NewOrder(TEN)], map[], [], [WAITING], []);
  }

  /** The first five of ten are booked and nothing is held yet; `rest` is still to come. */
  predicate HalfBooked(s: State, rest: real) {
    && "AAPL" !in s.positions && 0 in s.orders && !s.orders[0].status.Cancelled? && |s.jobs| == 1
    && var job := s.jobs[0];
       && job.kind.Submitted? && job.symbol == "AAPL" && job.side.Buy? && |job.fills| == 1
       && job.fills[0].quantity == 5.0 && job.pushed == job.netted == 0 && job.todo == Rest(rest) && !job.died
  }

  lemma BookFirstTranche(s: State, job: Job, o: Order, first: real)
    requires s.jobs == [job] && "AAPL" !in s.positions && 0 in s.orders && s.orders[0] == o
    requires job.kind.Submitted? && job.symbol == "AAPL" && job.side.Buy? && job.todo.First? && job.fills == []
    requires job.pushed == job.netted == 0 && !job.died && !Gives(s, 0, 1.0)
    requires Split(s.ratio, job.kind.request.quantity) && o.filled == 0.0
    requires first == FirstFill(s.ratio, job.kind.request.quantity) == 5.0
    ensures HalfBooked(Apply(s, Book(0, 1.0)), o.quantity - first)
  {
  }

  lemma HalfOfTen()
    ensures Split(Some(0.5), 10.0) && FirstFill(Some(0.5), 10.0) == 5.0
  {
  }

  lemma ResizedFills(quantity: real)
    ensures HalfBooked(Apply(Resized(quantity), Book(0, 1.0)), quantity - 5.0)
  {
    HalfOfTen();
    BookFirstTranche(Resized(quantity), WAITING, Resized(quantity).orders[0], 5.0);
  }

  /** The opening of both runs below: ten are submitted, resized, and half of ten is booked. */
  function Opening(quantity: real): seq<Action> {
    [Submit(TEN), Modify(0, None, None, Some(quantity)), Book(0, 1.0)]
  }

  lemma Opened(quantity: real)
    requires quantity >= 0.0
    ensures HalfBooked(Run(Some(0.5), Opening(quantity)), quantity - 5.0)
  {
    ExecThree(Init(Some(0.5)), Submit(TEN), Modify(0, None, None, Some(quantity)), Book(0, 1.0));
    SubmittedAndResized(quantity);
    ResizedFills(quantity);
  }

  /** The task is about to book its rest, with `held` in the position. */
  predicate RestDue(s: State, rest: real, held: real) {
    && 0 in s.orders && !s.orders[0].status.Cancelled? && |s.jobs| > 0
    && Holding(s.positions, "AAPL") == held && ("AAPL" in s.positions <==> held != 0.0)
    && ("AAPL" in s.positions ==> s.positions["AAPL"].side.Long?)
    && s.jobs[0].kind.Submitted? && s.jobs[0].symbol == "AAPL" && s.jobs[0].side.Buy?
    && s.jobs[0].todo == Rest(rest) && s.jobs[0].pushed == s.jobs[0].netted == |s.jobs[0].fills|
  }

  lemma NettedHalf(s: State, rest: real)
    requires HalfBooked(s, rest)
    ensures RestDue(Apply(Apply(s, Push(0)), Net(0)), rest, 5.0)
  {
  }

  lemma ClosedHalf(s: State, rest: real)
    requires RestDue(s, rest, 5.0)
    ensures RestDue(Apply(s, Close("AAPL", None, 1.0)), rest, 0.0)
  {
  }

  /** The rest of a split order booked, pushed and netted. */
  const REST := [Book(0, 1.0), Push(0), Net(0)]

  lemma EmptyRestOpens(s: State)
    requires RestDue(s, 0.0, 0.0)
    ensures var s' := Exec(s, REST); "AAPL" in s'.positions && s'.positions["AAPL"].quantity == 0.0
  {
    ExecThree(s, Book(0, 1.0), Push(0), Net(0));
  }

  lemma NegativeRestDies(s: State)
    requires RestDue(s, -5.0, 5.0)
    ensures var s' := Exec(s, REST); |s'.jobs| > 0 && s'.jobs[0].died
  {
    ExecThree(s, Book(0, 1.0), Push(0), Net(0));
  }

  /** An order of ten resized to exactly its first half: its empty second tranche, after the
      position was closed, opens a position of quantity zero. */
  lemma EmptyTrancheOpensEmptyPosition()
    ensures var s := Run(Some(0.5), Opening(5.0) + [Push(0), Net(0), Close("AAPL", None, 1.0)] + REST);
            "AAPL" in s.positions && s.positions["AAPL"].quantity == 0.0
  {
    var a, b := Opening(5.0), [Push(0), Net(0), Close("AAPL", None, 1.0)];
    ExecSplit(Init(Some(0.5)), a, b);
    ExecSplit(Init(Some(0.5)), a + b, REST);
    Opened(5.0);
    var s := Run(Some(0.5), a);
    ExecThree(s, Push(0), Net(0), Close("AAPL", None, 1.0));
    NettedHalf(s, 0.0);
    ClosedHalf(Apply(Apply(s, Push(0)), Net(0)), 0.0);
    EmptyRestOpens(Exec(s, b));
  }

  /** An order of ten resized to nothing: its second tranche takes the first back, and netting
      it divides by zero and kills the task. */
  lemma ShrunkOrderKillsTask()
    ensures var s := Run(Some(0.5), Opening(0.0) + [Push(0), Net(0)] + REST); |s.jobs| > 0 && s.jobs[0].died
  {
    var a, b := Opening(0.0), [Push(0), Net(0)];
    ExecSplit(Init(Some(0.5)), a, b);
    ExecSplit(Init(Some(0.5)), a + b, REST);
    Opened(0.0);
    var s := Run(Some(0.5), a);
    ExecSplit(s, [Push(0)], [Net(0)]);
    assert b == [Push(0)] + [Net(0)];
    ExecOne(s, Push(0));
    ExecOne(Apply(s, Push(0)), Net(0));
    NettedHalf(s, -5.0);
    NegativeRestDies(Exec(s, b));
  }
}

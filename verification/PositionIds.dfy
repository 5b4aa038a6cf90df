/** Gateway position ids for OANDA (crates/oanda/src/adapter.rs): the id a fill is
    published under, what an id resolves to, and what a reduce-only order does with it.

    Numbers on the wire are decimal strings; a readable one is a `Decimal`, a sign and
    a magnitude, so that a negative zero keeps its sign.
 */
module PositionIds {
  import opened Sequences

  datatype Side = Buy | Sell
  datatype PositionSide = Long | Short

  type NonNegative = x: real | x >= 0.0

  datatype Decimal = Decimal(negative: bool, magnitude: NonNegative)

  datatype Target = Trade(id: string) | SideOf(instrument: string, side: Option<PositionSide>)

  const LONG := "_LONG"
  const SHORT := "_SHORT"

  predicate AllDigits(s: string) {
    forall i | 0 <= i < |s| :: '0' <= s[i] <= '9'
  }

  function StripSuffix(s: string, suffix: string): Option<string> {
    if |s| >= |suffix| && s[|s| - |suffix|..] == suffix then Some(s[..|s| - |suffix|]) else None
  }

  function Parse(id: string): Target {
    if id != "" && AllDigits(id) then Trade(id)
    else if StripSuffix(id, LONG).Some? then SideOf(StripSuffix(id, LONG).value, Some(Long))
    else if StripSuffix(id, SHORT).Some? then SideOf(StripSuffix(id, SHORT).value, Some(Short))
    else SideOf(id, None)
  }

  /** The trades a fill acted on; an id may be empty when the wire omits it. */
  datatype Refs = Refs(openedTrade: Option<string>, closedTrades: seq<string>, reducedTrade: Option<string>)

  /** The one trade a fill names, if it names one usably: an opened trade wins outright. */
  function Named(refs: Refs): Option<string> {
    var candidate := match refs
      case Refs(Some(t), _, _) => Some(t)
      case Refs(None, _, Some(t)) => Some(t)
      case Refs(None, ts, None) => if |ts| == 1 then Some(ts[0]) else None;
    if candidate == Some("") then None else candidate
  }

  predicate OnlyReduced(refs: Refs) {
    (refs.closedTrades != [] || refs.reducedTrade.Some?) && refs.openedTrade.None?
  }

  function ActedSide(side: Side, refs: Refs): PositionSide {
    if side.Buy? == OnlyReduced(refs) then Short else Long
  }

  function SideId(instrument: string, side: PositionSide): string {
    instrument + if side.Long? then LONG else SHORT
  }

  function FillPositionId(instrument: string, side: Side, refs: Refs): Option<string> {
    if Named(refs).Some? then Named(refs)
    else if instrument == "" then None
    else Some(SideId(instrument, ActedSide(side, refs)))
  }

  predicate EndsWith(s: string, suffix: string) {
    |s| >= |suffix| && forall i | 0 <= i < |suffix| :: s[|s| - |suffix| + i] == suffix[i]
  }

  lemma StripsExactly(s: string, suffix: string)
    ensures StripSuffix(s, suffix).Some? <==> EndsWith(s, suffix)
  {
    if |s| >= |suffix| {
      var end := s[|s| - |suffix|..];
      assert forall i | 0 <= i < |suffix| :: end[i] == s[|s| - |suffix| + i];
    }
  }

  /** What every id resolves to: a trade exactly when it is a decimal number, else the side its
      ending names with the rest as the instrument, else the whole of it as an instrument. */
  lemma ParseExact(id: string)
    ensures Parse(id) == Trade(id) <==> id != "" && forall i | 0 <= i < |id| :: '0' <= id[i] <= '9'
    ensures EndsWith(id, "_LONG") ==> Parse(id) == SideOf(id[..|id| - 5], Some(Long))
    ensures EndsWith(id, "_SHORT") ==> Parse(id) == SideOf(id[..|id| - 6], Some(Short))
    ensures !Parse(id).Trade? && !EndsWith(id, "_LONG") && !EndsWith(id, "_SHORT") ==> Parse(id) == SideOf(id, None)
  {
    StripsExactly(id, LONG);
    StripsExactly(id, SHORT);
    SuffixNotDigits(id, LONG);
    SuffixNotDigits(id, SHORT);
    EndsOneWay(id);
  }

  lemma SuffixNotDigits(id: string, suffix: string)
    requires suffix != "" && suffix[0] == '_'
    ensures EndsWith(id, suffix) ==> !AllDigits(id)
  {
    if EndsWith(id, suffix) {
      assert id[|id| - |suffix| + 0] == suffix[0];
    }
  }

  lemma EndsOneWay(id: string)
    ensures !(EndsWith(id, LONG) && EndsWith(id, SHORT))
  {
    if EndsWith(id, LONG) && |id| >= 6 {
      assert id[|id| - 5 + 0] == LONG[0] == '_' != SHORT[1];
      assert id[|id| - 6 + 1] == id[|id| - 5 + 0];
    }
  }

  // ----- Round trips

  /** A side id resolves to its own instrument and side, whatever the instrument is called. */
  lemma SideIdRoundTrips(instrument: string, side: PositionSide)
    ensures Parse(SideId(instrument, side)) == SideOf(instrument, Some(side))
  {
    var id := SideId(instrument, side);
    var n := |instrument|;
    assert id[n] == '_';
    assert !AllDigits(id);
    if side.Long? {
      assert id[n..] == LONG && id[..n] == instrument;
    } else {
      assert id[n..] == SHORT && id[..n] == instrument;
      assert id[|id| - |LONG|..][0] == 'S';
    }
  }

  /** Which trade a fill names: the one it opened, if it opened one; else the one it reduced; else the
      one it closed, if only one; and none if the wire left out that one's id. */
  lemma NamedExact(refs: Refs)
    ensures refs.openedTrade.Some? ==> Named(refs) == if refs.openedTrade.value != "" then refs.openedTrade else None
    ensures refs.openedTrade.None? && refs.reducedTrade.Some? ==>
              Named(refs) == if refs.reducedTrade.value != "" then refs.reducedTrade else None
    ensures refs.openedTrade.None? && refs.reducedTrade.None? && |refs.closedTrades| == 1 ==>
              Named(refs) == if refs.closedTrades[0] != "" then Some(refs.closedTrades[0]) else None
    ensures refs.openedTrade.None? && refs.reducedTrade.None? && |refs.closedTrades| != 1 ==> Named(refs).None?
  {
  }

  /** What the published id of any fill resolves to: a named trade exactly when its id is
      decimal, and otherwise, for an unnamed one, the instrument and the side acted on. */
  lemma FillIdResolves(instrument: string, side: Side, refs: Refs)
    ensures FillPositionId(instrument, side, refs).None? <==> Named(refs).None? && instrument == ""
    ensures Named(refs).Some? ==>
              var id := Named(refs).value;
              && FillPositionId(instrument, side, refs) == Some(id)
              && (Parse(id) == Trade(id) <==> AllDigits(id))
    ensures Named(refs).None? && instrument != "" ==>
              Parse(FillPositionId(instrument, side, refs).value) == SideOf(instrument, Some(ActedSide(side, refs)))
  {
    SideIdRoundTrips(instrument, ActedSide(side, refs));
  }

  // ----- Against an executed book

  /** The open trades of one instrument: signed units, positive for a long trade. */
  type TradeBook = map<string, real>

  ghost predicate BookOk(book: TradeBook) {
    "" !in book && forall t | t in book :: book[t] != 0.0
  }

  function Opens(side: Side): PositionSide {
    if side.Buy? then Long else Short
  }

  function Opposite(side: PositionSide): PositionSide {
    if side.Long? then Short else Long
  }

  function UnitsSide(units: real): PositionSide {
    if units > 0.0 then Long else Short
  }

  function Size(units: real): real {
    if units > 0.0 then units else -units
  }

  function Toward(side: PositionSide, size: real): real {
    if side.Long? then size else -size
  }

  /** What taking trades down did: the book left, the trades closed and the one reduced, and
      how much of the fill is left over. */
  datatype Taken = Taken(book: TradeBook, closed: seq<string>, reduced: Option<string>, left: real)

  /** The broker may take these trades down for a fill of this side: open trades of the other
      side, in an order of its own, each once. */
  ghost predicate Choosable(book: TradeBook, side: Side, queue: seq<string>) {
    && (forall i | 0 <= i < |queue| :: queue[i] in book && UnitsSide(book[queue[i]]) == Opposite(Opens(side)))
    && (forall i, k | 0 <= i < k < |queue| :: queue[i] != queue[k])
  }

  /** Closes the queued trades one after the other while the fill lasts, and reduces the one
      it does not suffice to close. */
  function TakeDown(book: TradeBook, quantity: real, queue: seq<string>): Taken {
    if queue == [] || queue[0] !in book || quantity <= 0.0 then Taken(book, [], None, quantity)
    else
      var t, open := queue[0], Size(book[queue[0]]);
      if quantity >= open then
        var rest := TakeDown(book - {t}, quantity - open, queue[1..]);
        rest.(closed := [t] + rest.closed)
      else
        Taken(book[t := Toward(UnitsSide(book[t]), open - quantity)], [], Some(t), 0.0)
  }

  datatype Execution = Execution(after: TradeBook, refs: Refs)

  /** A fill: takes down what the broker chose and, unless it may only reduce, opens a trade
      with what is left over. */
  function Execute(book: TradeBook, side: Side, quantity: real, queue: seq<string>, reduceOnly: bool, id: string)
    : Execution
  {
    var taken := TakeDown(book, quantity, queue);
    if taken.left > 0.0 && !reduceOnly then
      Execution(taken.book[id := Toward(Opens(side), taken.left)], Refs(Some(id), taken.closed, taken.reduced))
    else
      Execution(taken.book, Refs(None, taken.closed, taken.reduced))
  }

  lemma ChoosableTail(book: TradeBook, side: Side, queue: seq<string>)
    requires BookOk(book) && Choosable(book, side, queue) && queue != []
    ensures BookOk(book - {queue[0]}) && Choosable(book - {queue[0]}, side, queue[1..])
  {
    var rest := queue[1..];
    forall i | 0 <= i < |rest|
      ensures rest[i] in book - {queue[0]} && UnitsSide((book - {queue[0]})[rest[i]]) == Opposite(Opens(side))
    {
      assert rest[i] == queue[i + 1];
    }
  }

  /** How far down the queue the fill got. */
  ghost predicate TookInTurn(r: Taken, queue: seq<string>) {
    && r.left >= 0.0 && r.closed <= queue
    && (r.reduced.Some? ==> r.left == 0.0 && |r.closed| < |queue| && r.reduced == Some(queue[|r.closed|]))
    && (r.left > 0.0 ==> r.closed == queue)
    && (queue != [] ==> r.closed != [] || r.reduced.Some?)
  }

  lemma {:induction false} TakeDownInTurn(book: TradeBook, side: Side, quantity: real, queue: seq<string>)
    requires BookOk(book) && Choosable(book, side, queue) && quantity > 0.0
    ensures TookInTurn(TakeDown(book, quantity, queue), queue)
    decreases queue
  {
    if queue != [] {
      var t, open := queue[0], Size(book[queue[0]]);
      if quantity > open {
        ChoosableTail(book, side, queue);
        TakeDownInTurn(book - {t}, side, quantity - open, queue[1..]);
        var rest := TakeDown(book - {t}, quantity - open, queue[1..]);
        assert [t] + rest.closed <= [t] + queue[1..] == queue;
      } else if quantity == open {
        assert TakeDown(book - {t}, 0.0, queue[1..]) == Taken(book - {t}, [], None, 0.0);
      }
    }
  }

  /** What the fill did to trade t. */
  ghost predicate TookTrade(book: TradeBook, r: Taken, t: string) {
    && (t in r.book <==> t in book && t !in r.closed)
    && (t in r.book && r.reduced != Some(t) ==> r.book[t] == book[t])
    && (r.reduced == Some(t) ==>
          t in r.book && UnitsSide(r.book[t]) == UnitsSide(book[t]) && Size(r.book[t]) < Size(book[t]))
  }

  lemma {:induction false} TakeDownTrade(book: TradeBook, side: Side, quantity: real, queue: seq<string>, t: string)
    requires BookOk(book) && Choosable(book, side, queue) && quantity > 0.0
    ensures var r := TakeDown(book, quantity, queue);
            TookTrade(book, r, t) && (t in r.book ==> t != "" && r.book[t] != 0.0)
    decreases queue
  {
    if queue != [] {
      var first, open := queue[0], Size(book[queue[0]]);
      if quantity > open {
        ChoosableTail(book, side, queue);
        TakeDownInTurn(book - {first}, side, quantity - open, queue[1..]);
        TakeDownTrade(book - {first}, side, quantity - open, queue[1..], t);
      } else if quantity == open {
        assert TakeDown(book - {first}, 0.0, queue[1..]) == Taken(book - {first}, [], None, 0.0);
      }
    }
  }

  lemma TakeDownSound(book: TradeBook, side: Side, quantity: real, queue: seq<string>)
    requires BookOk(book) && Choosable(book, side, queue) && quantity > 0.0
    ensures var r := TakeDown(book, quantity, queue);
            && BookOk(r.book) && TookInTurn(r, queue)
            && (forall t :: t in r.book <==> t in book && t !in r.closed)
            && (forall t | t in r.book && r.reduced != Some(t) :: r.book[t] == book[t])
            && (forall t | r.reduced == Some(t) ::
                  t in r.book && UnitsSide(r.book[t]) == UnitsSide(book[t]) && Size(r.book[t]) < Size(book[t]))
  {
    TakeDownInTurn(book, side, quantity, queue);
    var r := TakeDown(book, quantity, queue);
    forall t
      ensures TookTrade(book, r, t) && (t in r.book ==> t != "" && r.book[t] != 0.0)
    {
      TakeDownTrade(book, side, quantity, queue, t);
    }
  }

  /** The trades of one side. */
  function SideTrades(book: TradeBook, side: PositionSide): TradeBook {
    map t | t in book && UnitsSide(book[t]) == side :: book[t]
  }

  /** The references as the wire carries them: some of the ids may be missing. */
  function Omit(refs: Refs, missing: set<string>): Refs {
    Refs(if refs.openedTrade.Some? then Some(Seen(refs.openedTrade.value, missing)) else None,
         seq(|refs.closedTrades|, i requires 0 <= i < |refs.closedTrades| => Seen(refs.closedTrades[i], missing)),
         if refs.reducedTrade.Some? then Some(Seen(refs.reducedTrade.value, missing)) else None)
  }

  function Seen(id: string, missing: set<string>): string {
    if id in missing then "" else id
  }

  /** Which side a missing id leaves the fill to be told by does not depend on the ids. */
  lemma OmitKeepsSide(side: Side, refs: Refs, missing: set<string>)
    ensures ActedSide(side, Omit(refs, missing)) == ActedSide(side, refs)
  {
  }

  /** The inputs of an execution: a fill of something, trades the broker may choose, a new id. */
  ghost predicate Executable(book: TradeBook, side: Side, quantity: real, queue: seq<string>, id: string) {
    BookOk(book) && Choosable(book, side, queue) && quantity > 0.0 && id != "" && id !in book
  }

  lemma TakenOwnSide(book: TradeBook, side: Side, quantity: real, queue: seq<string>)
    requires BookOk(book) && Choosable(book, side, queue) && quantity > 0.0
    ensures SideTrades(TakeDown(book, quantity, queue).book, Opens(side)) == SideTrades(book, Opens(side))
  {
    TakeDownSound(book, side, quantity, queue);
    var taken, own := TakeDown(book, quantity, queue), Opens(side);
    forall t | t in book && UnitsSide(book[t]) == own
      ensures t in taken.book && taken.book[t] == book[t]
    {
      assert t !in queue;
      assert t !in taken.closed;
    }
    forall t | t in taken.book && UnitsSide(taken.book[t]) == own
      ensures t in book && UnitsSide(book[t]) == own
    {
    }
  }

  lemma SideTradesInsert(book: TradeBook, id: string, units: real)
    ensures SideTrades(book[id := units], UnitsSide(units)) == SideTrades(book, UnitsSide(units))[id := units]
  {
  }

  lemma OwnSide(book: TradeBook, side: Side, quantity: real, queue: seq<string>, reduceOnly: bool, id: string)
    requires Executable(book, side, quantity, queue, id)
    ensures var e, own := Execute(book, side, quantity, queue, reduceOnly, id), Opens(side);
            && BookOk(e.after)
            && (e.refs.openedTrade.None? ==> SideTrades(e.after, own) == SideTrades(book, own))
            && (e.refs.openedTrade.Some? ==>
                  && e.refs.openedTrade == Some(id)
                  && id in e.after
                  && SideTrades(e.after, own) == SideTrades(book, own)[id := e.after[id]])
  {
    TakeDownSound(book, side, quantity, queue);
    TakenOwnSide(book, side, quantity, queue);
    var taken := TakeDown(book, quantity, queue);
    SideTradesInsert(taken.book, id, Toward(Opens(side), taken.left));
  }

  lemma SideTradesSkip(book: TradeBook, id: string, units: real, side: PositionSide)
    requires id !in book && UnitsSide(units) != side
    ensures SideTrades(book[id := units], side) == SideTrades(book, side)
  {
  }

  /** What taking down leaves of the other side: all but the closed trades. */
  lemma TakenOtherSide(book: TradeBook, side: Side, quantity: real, queue: seq<string>, t: string)
    requires BookOk(book) && Choosable(book, side, queue) && quantity > 0.0
    ensures var taken, other := TakeDown(book, quantity, queue), Opposite(Opens(side));
            t in SideTrades(taken.book, other) <==> t in SideTrades(book, other) && t !in taken.closed
  {
    TakeDownSound(book, side, quantity, queue);
  }

  lemma TakenChanges(book: TradeBook, side: Side, quantity: real, queue: seq<string>)
    requires BookOk(book) && Choosable(book, side, queue) && quantity > 0.0 && queue != []
    ensures var taken, other := TakeDown(book, quantity, queue), Opposite(Opens(side));
            SideTrades(taken.book, other) != SideTrades(book, other)
  {
    TakeDownSound(book, side, quantity, queue);
    var taken, other, t := TakeDown(book, quantity, queue), Opposite(Opens(side)), queue[0];
    TakenOtherSide(book, side, quantity, queue, t);
    assert t in SideTrades(book, other);
    if taken.closed != [] {
      assert taken.closed[0] == t;
      assert t in taken.closed;
    } else {
      assert SideTrades(taken.book, other)[t] == taken.book[t];
      assert SideTrades(book, other)[t] == book[t];
    }
  }

  lemma OtherSide(book: TradeBook, side: Side, quantity: real, queue: seq<string>, reduceOnly: bool, id: string)
    requires Executable(book, side, quantity, queue, id)
    ensures var e, other := Execute(book, side, quantity, queue, reduceOnly, id), Opposite(Opens(side));
            && (queue == [] <==> e.refs.closedTrades == [] && e.refs.reducedTrade.None?)
            && (queue == [] <==> SideTrades(e.after, other) == SideTrades(book, other))
            && (SideTrades(e.after, other) == map[] <==>
                forall t | t in SideTrades(book, other) :: t in e.refs.closedTrades)
  {
    TakeDownSound(book, side, quantity, queue);
    var taken, other := TakeDown(book, quantity, queue), Opposite(Opens(side));
    if taken.left > 0.0 && !reduceOnly {
      SideTradesSkip(taken.book, id, Toward(Opens(side), taken.left), other);
    }
    if queue != [] {
      TakenChanges(book, side, quantity, queue);
    }
    forall t
      ensures t in SideTrades(taken.book, other) <==> t in SideTrades(book, other) && t !in taken.closed
    {
      TakenOtherSide(book, side, quantity, queue, t);
    }
    EmptyExact(SideTrades(taken.book, other), SideTrades(book, other), taken.closed);
  }

  lemma EmptyExact(left: TradeBook, all: TradeBook, gone: seq<string>)
    requires forall t :: t in left <==> t in all && t !in gone
    ensures left == map[] <==> forall t | t in all :: t in gone
  {
    if left != map[] {
      var t :| t in left;
    }
  }

  /** Whatever the broker chose to take down and whatever ids the wire left out, the side of a
      side-level id is a side the fill changed; it is the only one unless the fill also opened
      a trade past those it took down, and then it is where the new trade is. Nothing is left
      to fetch there exactly when the fill opened nothing and closed all of that side. */
  lemma SideIdNamesChangedSide(book: TradeBook, side: Side, quantity: real, queue: seq<string>, reduceOnly: bool,
                               id: string, instrument: string, missing: set<string>)
    requires Executable(book, side, quantity, queue, id) && instrument != ""
    requires queue == [] ==> !reduceOnly
    ensures var e := Execute(book, side, quantity, queue, reduceOnly, id);
            var wire := Omit(e.refs, missing);
            var acted := ActedSide(side, wire);
            && (Named(wire).None? ==>
                  && FillPositionId(instrument, side, wire) == Some(SideId(instrument, acted))
                  && Parse(SideId(instrument, acted)) == SideOf(instrument, Some(acted)))
            && SideTrades(e.after, acted) != SideTrades(book, acted)
            && (SideTrades(e.after, Opposite(acted)) != SideTrades(book, Opposite(acted)) <==>
                e.refs.openedTrade.Some? && queue != [])
            && (SideTrades(e.after, acted) == map[] <==>
                e.refs.openedTrade.None? && forall t | t in SideTrades(book, acted) :: t in e.refs.closedTrades)
  {
    var e := Execute(book, side, quantity, queue, reduceOnly, id);
    OmitKeepsSide(side, e.refs, missing);
    OwnSide(book, side, quantity, queue, reduceOnly, id);
    OtherSide(book, side, quantity, queue, reduceOnly, id);
    SideIdRoundTrips(instrument, ActedSide(side, e.refs));
    if e.refs.openedTrade.Some? {
      assert id in SideTrades(e.after, Opens(side)) && id !in SideTrades(book, Opens(side));
    } else {
      TakeDownSound(book, side, quantity, queue);
    }
  }

  /** A trade-level id names a trade the fill touched on that side: the one it opened; or, if it
      opened none, the one it reduced; or the only one it closed, which is then gone. */
  lemma TradeIdNamesTouchedTrade(book: TradeBook, side: Side, quantity: real, queue: seq<string>, reduceOnly: bool,
                                 id: string, missing: set<string>)
    requires Executable(book, side, quantity, queue, id)
    requires Named(Omit(Execute(book, side, quantity, queue, reduceOnly, id).refs, missing)).Some?
    ensures var e := Execute(book, side, quantity, queue, reduceOnly, id);
            var t, acted := Named(Omit(e.refs, missing)).value, ActedSide(side, e.refs);
            && (e.refs.openedTrade.Some? ==> t == id && t in SideTrades(e.after, acted) && t !in book)
            && (e.refs.openedTrade.None? && e.refs.reducedTrade.Some? ==>
                  && t in SideTrades(book, acted) && t in SideTrades(e.after, acted)
                  && Size(e.after[t]) < Size(book[t]))
            && (e.refs.openedTrade.None? && e.refs.reducedTrade.None? ==>
                  t in SideTrades(book, acted) && t !in e.after && e.refs.closedTrades == [t])
  {
    var e := Execute(book, side, quantity, queue, reduceOnly, id);
    TakeDownSound(book, side, quantity, queue);
    OwnSide(book, side, quantity, queue, reduceOnly, id);
    if e.refs.openedTrade.None? && e.refs.reducedTrade.None? {
      assert e.refs.closedTrades == [e.refs.closedTrades[0]];
      assert e.refs.closedTrades[0] in e.refs.closedTrades;
    }
  }

  // ----- Listed positions

  /** One instrument's position as the broker lists it: signed units of each side, as text. */
  datatype Listed = Listed(instrument: string, long: string, short: string)

  datatype Position = Position(id: string, instrument: string, side: PositionSide, quantity: real)

  /** How a number is read from text. */
  type Reading = string -> Option<Decimal>

  /** The quantity of a side; text that cannot be read counts as none. */
  function QuantityOf(read: Reading, units: string): real {
    match read(units) case Some(d) => d.magnitude case None => 0.0
  }

  function OneSide(read: Reading, instrument: string, side: PositionSide, units: string): seq<Position> {
    if units == "0" then []
    else [Position(SideId(instrument, side), instrument, side, QuantityOf(read, units))]
  }

  function Translate(read: Reading, l: Listed): seq<Position> {
    OneSide(read, l.instrument, Long, l.long) + OneSide(read, l.instrument, Short, l.short)
  }

  function FindSide(ps: seq<Position>, side: PositionSide): Option<Position> {
    if ps == [] then None else if ps[0].side == side then Some(ps[0]) else FindSide(ps[1..], side)
  }

  /** Which of the listed positions an id fetches, given the broker's answer for its instrument. */
  function Fetch(read: Reading, target: Target, answer: Listed): Option<Position>
    requires target.SideOf?
  {
    var ps := Translate(read, answer);
    if target.side.Some? then FindSide(ps, target.side.value) else if ps == [] then None else Some(ps[0])
  }

  /** A side is listed exactly when its units are not the text "0", once, the long one first; under
      the instrument's name and the side, with the size of the units that could be read. */
  lemma ListedExact(read: Reading, l: Listed)
    ensures var ps := Translate(read, l);
            && ((exists i | 0 <= i < |ps| :: ps[i].side.Long?) <==> l.long != "0")
            && ((exists i | 0 <= i < |ps| :: ps[i].side.Short?) <==> l.short != "0")
            && (forall i, k | 0 <= i < k < |ps| :: ps[i].side.Long? && ps[k].side.Short?)
            && (forall i | 0 <= i < |ps| ::
                  var units := if ps[i].side.Long? then l.long else l.short;
                  && ps[i].instrument == l.instrument
                  && ps[i].id == l.instrument + (if ps[i].side.Long? then "_LONG" else "_SHORT")
                  && ps[i].quantity == if read(units).Some? then read(units).value.magnitude else 0.0)
  {
    var ps := Translate(read, l);
    if l.long != "0" {
      assert ps[0].side.Long?;
    }
    if l.short != "0" {
      assert ps[|ps| - 1].side.Short?;
    }
  }

  /** Every listed position is fetched back, itself and not its opposite, by the id it was listed under. */
  lemma ListedIdFetchesItself(read: Reading, l: Listed, i: nat)
    requires i < |Translate(read, l)|
    ensures var p := Translate(read, l)[i];
            Parse(p.id) == SideOf(l.instrument, Some(p.side)) && Fetch(read, Parse(p.id), l) == Some(p)
  {
    var ps := Translate(read, l);
    var p := ps[i];
    SideIdRoundTrips(l.instrument, p.side);
    assert FindSide(ps, p.side) == if ps[0].side == p.side then Some(ps[0]) else FindSide(ps[1..], p.side);
    if i == 1 {
      assert ps[1..][0] == p;
    }
  }

  /** An id that names a side fetches that side or nothing; a bare instrument fetches its long side
      if there is one, else its short side, else nothing. */
  lemma FetchExact(read: Reading, instrument: string, side: Option<PositionSide>, l: Listed)
    ensures var fetched := Fetch(read, SideOf(instrument, side), l);
            && (fetched.Some? <==>
                || (side != Some(Short) && l.long != "0")
                || (side != Some(Long) && l.short != "0"))
            && (fetched.Some? ==>
                  && fetched.value in Translate(read, l)
                  && fetched.value.side == if side.Some? then side.value else if l.long != "0" then Long else Short)
  {
    var ps := Translate(read, l);
    assert ps != [] ==> ps[0] in ps;
    if |ps| == 2 {
      assert ps[1..] == [ps[1]] && ps[1] in ps;
      assert FindSide(ps[1..], Short) == Some(ps[1]);
    } else if |ps| == 1 {
      assert ps[1..] == [];
      assert forall other :: FindSide(ps, other) == if ps[0].side == other then Some(ps[0]) else None;
    }
  }

  // ----- Reducing a named trade

  datatype OpenTrade = OpenTrade(id: string, instrument: string, units: Decimal)

  datatype Request = Request(symbol: string, side: Side, quantity: real)

  datatype CloseUnits = All | Units(quantity: real)

  datatype Decision = WrongInstrument | SameSide | CloseTrade(id: string, units: CloseUnits)

  function TradeSide(d: Decimal): Side {
    if d.negative then Sell else Buy
  }

  function ReduceTrade(trade: OpenTrade, request: Request): Decision {
    if trade.instrument != request.symbol then WrongInstrument
    else if TradeSide(trade.units) == request.side then SameSide
    else CloseTrade(trade.id, if request.quantity >= trade.units.magnitude then All else Units(request.quantity))
  }

  /** The units left open once the broker has closed what it was asked to. */
  function LeftOpen(trade: OpenTrade, units: CloseUnits): real {
    match units case All => 0.0 case Units(q) => trade.units.magnitude - q
  }

  /** A reduce-only order names the trade it would close exactly when that is on its own symbol and
      of the other side; a trade elsewhere is refused ahead of one of its own side. */
  lemma ReduceTradeExact(trade: OpenTrade, request: Request)
    ensures var d := ReduceTrade(trade, request);
            && (d.WrongInstrument? <==> trade.instrument != request.symbol)
            && (d.SameSide? <==> trade.instrument == request.symbol && (request.side.Sell? <==> trade.units.negative))
            && (d.CloseTrade? ==>
                  && d.id == trade.id
                  && (d.units.All? <==> request.quantity >= trade.units.magnitude)
                  && (d.units.Units? ==> d.units.quantity == request.quantity))
  {
  }

  /** A fill that opened one trade publishes an id with which a reduce-only market order for the
      same symbol and of the other side, and no other, closes just that trade, by its quantity
      and by no more than is open. */
  lemma OpenedTradeIsReducible(instrument: string, side: Side, refs: Refs, trade: OpenTrade, request: Request)
    requires refs.openedTrade == Some(trade.id) && trade.id != "" && AllDigits(trade.id)
    requires trade.instrument == instrument && TradeSide(trade.units) == side && trade.units.magnitude > 0.0
    requires request.quantity > 0.0
    ensures var id, d := FillPositionId(instrument, side, refs), ReduceTrade(trade, request);
            && id.Some? && Parse(id.value) == Trade(trade.id)
            && (d.CloseTrade? <==> request.symbol == instrument && request.side != side)
            && (d.CloseTrade? ==>
                  && d.id == trade.id
                  && 0.0 <= LeftOpen(trade, d.units) < trade.units.magnitude
                  && LeftOpen(trade, d.units) ==
                     if request.quantity >= trade.units.magnitude then 0.0 else trade.units.magnitude - request.quantity)
  {
    FillIdResolves(instrument, side, refs);
  }
}

/** The OANDA candle poll (`poll_and_emit` and `run_candle_poll` in
    crates/oanda/src/streaming.rs): per-symbol watermarks over repeated polls of
    the most recent candles, and the retry loop around them.

    Candle times are integers. A candle is convertible when it carries mid prices
    and a readable time.
 */
module CandlePoll {
  import opened Sequences

  datatype Candle = Candle(time: int, complete: bool, convertible: bool)

  datatype Response = Failed | Candles(candles: seq<Candle>)

  /** One symbol polled once; `connected` is whether a strategy channel is stored. */
  datatype Poll = Poll(symbol: string, response: Response, connected: bool)

  datatype Emission = Emission(symbol: string, time: int)

  /** The times of the closed, convertible candles, in the order received. */
  function Usable(candles: seq<Candle>): seq<int> {
    if candles == [] then []
    else
      var n := |candles| - 1;
      if candles[n].complete && candles[n].convertible then Usable(candles[..n]) + [candles[n].time]
      else Usable(candles[..n])
  }

  function Bars(r: Response): seq<int> {
    if r.Failed? then [] else Usable(r.candles)
  }

  function After(bars: seq<int>, mark: int): seq<int> {
    if bars == [] then []
    else if bars[0] > mark then [bars[0]] + After(bars[1..], mark)
    else After(bars[1..], mark)
  }

  /** The bars to emit: only the newest before anything was emitted, else all past the watermark. */
  function NewBars(mark: Option<int>, bars: seq<int>): seq<int> {
    match mark
    case None => if bars == [] then [] else [bars[|bars| - 1]]
    case Some(m) => After(bars, m)
  }

  // ----- The feed of all symbols

  function Mark(marks: map<string, int>, symbol: string): Option<int> {
    if symbol in marks then Some(marks[symbol]) else None
  }

  /** Emit the bars one after the other, each moving the watermark. */
  function EmitAll(marks: map<string, int>, symbol: string, bars: seq<int>): map<string, int> {
    if bars == [] then marks else marks[symbol := bars[|bars| - 1]]
  }

  function Tagged(symbol: string, bars: seq<int>): seq<Emission> {
    seq(|bars|, i requires 0 <= i < |bars| => Emission(symbol, bars[i]))
  }

  datatype Feed = Feed(marks: map<string, int>, out: seq<Emission>)

  function PollOne(f: Feed, p: Poll): Feed {
    var bars := NewBars(Mark(f.marks, p.symbol), Bars(p.response));
    if !p.connected then f else Feed(EmitAll(f.marks, p.symbol, bars), f.out + Tagged(p.symbol, bars))
  }

  function PollAll(f: Feed, polls: seq<Poll>): Feed
    decreases |polls|
  {
    if polls == [] then f else PollOne(PollAll(f, polls[..|polls| - 1]), polls[|polls| - 1])
  }

  class CandleFeed {
    var lastEmitted: map<string, int>
    var out: seq<Emission>

    ghost function View(): Feed
      reads this
    {
      Feed(lastEmitted, out)
    }

    constructor ()
      ensures View() == Feed(map[], [])
    {
      lastEmitted, out := map[], [];
    }

    method Emit(symbol: string, bars: seq<int>)
      modifies this
      ensures View() == Feed(EmitAll(old(lastEmitted), symbol, bars), old(out) + Tagged(symbol, bars))
    {
      for i := 0 to |bars|
        invariant lastEmitted == EmitAll(old(lastEmitted), symbol, bars[..i])
        invariant out == old(out) + Tagged(symbol, bars[..i])
      {
        lastEmitted := lastEmitted[symbol := bars[i]];
        out := out + [Emission(symbol, bars[i])];
        assert Tagged(symbol, bars[..i + 1]) == Tagged(symbol, bars[..i]) + [Emission(symbol, bars[i])];
        Assoc(old(out), Tagged(symbol, bars[..i]), [Emission(symbol, bars[i])]);
      }
      assert bars[..|bars|] == bars;
    }

    /** Polls one symbol; false when the request failed. */
    method PollSymbol(p: Poll) returns (ok: bool)
      modifies this
      ensures View() == PollOne(old(View()), p)
      ensures ok <==> p.response.Candles?
      ensures Polled(old(View()), p, View())
    {
      PollOneExact(View(), p);
      var bars := NewBars(Mark(lastEmitted, p.symbol), Bars(p.response));
      if !p.response.Failed? && bars != [] && p.connected {
        Emit(p.symbol, bars);
      } else {
        NothingNew(View(), p);
      }
      ok := !p.response.Failed?;
    }

    /** Polls every symbol once; healthy when no request failed. */
    method PollAndEmit(polls: seq<Poll>) returns (healthy: bool)
      modifies this
      ensures View() == PollAll(old(View()), polls)
      ensures healthy <==> forall i | 0 <= i < |polls| :: !polls[i].response.Failed?
    {
      healthy := true;
      for i := 0 to |polls|
        invariant View() == PollAll(old(View()), polls[..i])
        invariant healthy <==> forall k | 0 <= k < i :: !polls[k].response.Failed?
      {
        PollNext(old(View()), polls, i);
        var ok := PollSymbol(polls[i]);
        healthy := healthy && ok;
      }
      assert polls[..|polls|] == polls;
    }
  }

  // ----- What a poll emits, candle by candle

  /** Candle k is to be emitted: it is closed and convertible, and past the watermark; or, before
      anything was emitted, the last such candle. */
  ghost predicate Wanted(candles: seq<Candle>, mark: Option<int>, k: nat)
    requires k < |candles|
  {
    && candles[k].complete && candles[k].convertible
    && match mark
       case Some(m) => candles[k].time > m
       case None => forall j | k < j < |candles| :: !(candles[j].complete && candles[j].convertible)
  }

  ghost predicate Increasing(picks: seq<nat>) {
    forall i, j | 0 <= i < j < |picks| :: picks[i] < picks[j]
  }

  /** The places of all candles to be emitted, each once and in order. */
  ghost predicate Picks(candles: seq<Candle>, mark: Option<int>, picks: seq<nat>) {
    && Increasing(picks)
    && (forall i | 0 <= i < |picks| :: picks[i] < |candles| && Wanted(candles, mark, picks[i]))
    && (forall k: nat | k < |candles| && Wanted(candles, mark, k) :: k in picks)
  }

  /** From feed f to feed f' exactly the picked candles were emitted, and the watermark is the last. */
  ghost predicate Emits(f: Feed, p: Poll, f': Feed, picks: seq<nat>) {
    && p.response.Candles?
    && var candles := p.response.candles;
       && Picks(candles, if p.symbol in f.marks then Some(f.marks[p.symbol]) else None, picks)
       && |f'.out| == |f.out| + |picks| && f'.out[..|f.out|] == f.out
       && (forall i | 0 <= i < |picks| :: f'.out[|f.out| + i] == Emission(p.symbol, candles[picks[i]].time))
       && f'.marks == if picks == [] then f.marks else f.marks[p.symbol := candles[picks[|picks| - 1]].time]
  }

  /** A failed or disconnected poll changes nothing; any other emits every candle it should, once. */
  ghost predicate Polled(f: Feed, p: Poll, f': Feed) {
    if p.response.Failed? || !p.connected then f' == f else exists picks :: Emits(f, p, f', picks)
  }

  /** The places of all closed, convertible candles. */
  ghost predicate AllClosed(candles: seq<Candle>, picks: seq<nat>) {
    && Increasing(picks)
    && (forall i | 0 <= i < |picks| ::
          picks[i] < |candles| && candles[picks[i]].complete && candles[picks[i]].convertible)
    && (forall k: nat | k < |candles| && candles[k].complete && candles[k].convertible :: k in picks)
  }

  function TimesAt(candles: seq<Candle>, picks: seq<nat>): seq<int>
    requires forall i | 0 <= i < |picks| :: picks[i] < |candles|
  {
    seq(|picks|, i requires 0 <= i < |picks| => candles[picks[i]].time)
  }

  /** Places among all candles but the last, which may be picked in addition. */
  function PickLast(n: nat, picks: seq<nat>, last: bool): seq<nat> {
    if last then picks + [n] else picks
  }

  lemma {:induction false} UsablePicks(candles: seq<Candle>) returns (picks: seq<nat>)
    ensures AllClosed(candles, picks) && TimesAt(candles, picks) == Usable(candles)
    decreases |candles|
  {
    if candles == [] {
      picks := [];
    } else {
      var n := |candles| - 1;
      var init := UsablePicks(candles[..n]);
      picks := PickLast(n, init, candles[n].complete && candles[n].convertible);
      forall k: nat | k < n && candles[k].complete && candles[k].convertible
        ensures k in init
      {
        assert candles[..n][k] == candles[k];
      }
    }
  }

  lemma {:induction false} AfterAppend(bars: seq<int>, t: int, m: int)
    ensures After(bars + [t], m) == After(bars, m) + if t > m then [t] else []
    decreases bars
  {
    if bars == [] {
      assert [t][1..] == [];
    } else {
      assert (bars + [t])[1..] == bars[1..] + [t];
      AfterAppend(bars[1..], t, m);
    }
  }

  lemma {:induction false} PastPicks(candles: seq<Candle>, m: int) returns (picks: seq<nat>)
    ensures Picks(candles, Some(m), picks) && TimesAt(candles, picks) == After(Usable(candles), m)
    decreases |candles|
  {
    if candles == [] {
      picks := [];
    } else {
      var n := |candles| - 1;
      var init := PastPicks(candles[..n], m);
      picks := PickLast(n, init, Wanted(candles, Some(m), n));
      AfterAppend(Usable(candles[..n]), candles[n].time, m);
      forall k: nat | k < n
        ensures Wanted(candles, Some(m), k) <==> Wanted(candles[..n], Some(m), k)
      {
        assert candles[..n][k] == candles[k];
      }
    }
  }

  lemma LastPick(candles: seq<Candle>, all: seq<nat>)
    requires AllClosed(candles, all) && all != []
    ensures Picks(candles, None, [all[|all| - 1]])
  {
    var last := all[|all| - 1];
    forall k: nat | k < |candles| && candles[k].complete && candles[k].convertible
      ensures k <= last
    {
      var i :| 0 <= i < |all| && all[i] == k;
    }
  }

  /** The bars a poll finds new are its wanted candles. */
  lemma NewBarsExact(candles: seq<Candle>, mark: Option<int>) returns (picks: seq<nat>)
    ensures Picks(candles, mark, picks) && TimesAt(candles, picks) == NewBars(mark, Usable(candles))
  {
    if mark.Some? {
      picks := PastPicks(candles, mark.value);
    } else {
      var all := UsablePicks(candles);
      picks := if all == [] then [] else [all[|all| - 1]];
      if all != [] {
        LastPick(candles, all);
        assert TimesAt(candles, all)[|all| - 1] == candles[picks[0]].time;
      }
    }
  }

  /** After a successful connected poll, every closed, convertible candle past the watermark was
      emitted once, in order; with no watermark, exactly the last closed, convertible one. */
  lemma PollOneExact(f: Feed, p: Poll)
    ensures Polled(f, p, PollOne(f, p))
  {
    if p.response.Failed? || !p.connected {
      NothingNew(f, p);
    } else {
      var mark := if p.symbol in f.marks then Some(f.marks[p.symbol]) else None;
      var picks := NewBarsExact(p.response.candles, mark);
      EmitsPicked(f, p, mark, picks);
    }
  }

  lemma EmitsPicked(f: Feed, p: Poll, mark: Option<int>, picks: seq<nat>)
    requires p.response.Candles? && p.connected && Picks(p.response.candles, mark, picks)
    requires mark == if p.symbol in f.marks then Some(f.marks[p.symbol]) else None
    requires TimesAt(p.response.candles, picks) == NewBars(mark, Usable(p.response.candles))
    ensures Emits(f, p, PollOne(f, p), picks)
  {
    var bars := TimesAt(p.response.candles, picks);
    var tagged := Tagged(p.symbol, bars);
    assert PollOne(f, p) == Feed(EmitAll(f.marks, p.symbol, bars), f.out + tagged);
    assert (f.out + tagged)[..|f.out|] == f.out;
    forall i | 0 <= i < |picks|
      ensures (f.out + tagged)[|f.out| + i] == Emission(p.symbol, p.response.candles[picks[i]].time)
    {
      assert (f.out + tagged)[|f.out| + i] == tagged[i];
    }
  }

  lemma PollNext(f: Feed, polls: seq<Poll>, i: nat)
    requires i < |polls|
    ensures PollAll(f, polls[..i + 1]) == PollOne(PollAll(f, polls[..i]), polls[i])
  {
    assert polls[..i + 1][..i] == polls[..i];
  }

  lemma NothingNew(f: Feed, p: Poll)
    requires p.response.Failed? || !p.connected || NewBars(Mark(f.marks, p.symbol), Bars(p.response)) == []
    ensures PollOne(f, p) == f
  {
    assert f.out + Tagged(p.symbol, []) == f.out;
  }

  // ----- One symbol

  datatype Watch = Watch(mark: Option<int>, times: seq<int>)

  /** Emits the bars that are new and moves the watermark to the last of them. */
  function SeeBars(w: Watch, bars: seq<int>): Watch {
    var added := NewBars(w.mark, bars);
    if added == [] then w else Watch(Some(added[|added| - 1]), w.times + added)
  }

  function See(w: Watch, p: Poll): Watch {
    if p.connected then SeeBars(w, Bars(p.response)) else w
  }

  function SeeAll(w: Watch, polls: seq<Poll>): Watch
    decreases |polls|
  {
    if polls == [] then w else See(SeeAll(w, polls[..|polls| - 1]), polls[|polls| - 1])
  }

  /** The times emitted for one symbol, in order. */
  function Times(out: seq<Emission>, symbol: string): seq<int> {
    if out == [] then []
    else
      var n := |out| - 1;
      if out[n].symbol == symbol then Times(out[..n], symbol) + [out[n].time] else Times(out[..n], symbol)
  }

  function Only(polls: seq<Poll>, symbol: string): seq<Poll> {
    if polls == [] then []
    else
      var n := |polls| - 1;
      if polls[n].symbol == symbol then Only(polls[..n], symbol) + [polls[n]] else Only(polls[..n], symbol)
  }

  lemma {:induction false} TimesTagged(out: seq<Emission>, tag: string, bars: seq<int>, symbol: string)
    ensures Times(out + Tagged(tag, bars), symbol) == Times(out, symbol) + if tag == symbol then bars else []
    decreases |bars|
  {
    if bars == [] {
      assert out + Tagged(tag, bars) == out;
    } else {
      var n := |bars| - 1;
      var e := Emission(tag, bars[n]);
      TimesTagged(out, tag, bars[..n], symbol);
      assert Tagged(tag, bars) == Tagged(tag, bars[..n]) + [e];
      Assoc(out, Tagged(tag, bars[..n]), [e]);
      assert ((out + Tagged(tag, bars[..n])) + [e])[..|out| + n] == out + Tagged(tag, bars[..n]);
      Snoc(bars);
      Assoc(Times(out, symbol), bars[..n], [bars[n]]);
    }
  }

  /** Each symbol's emissions and watermark depend on its own polls alone. */
  lemma {:induction false} FeedProjects(polls: seq<Poll>, symbol: string)
    ensures var f, w := PollAll(Feed(map[], []), polls), SeeAll(Watch(None, []), Only(polls, symbol));
            Mark(f.marks, symbol) == w.mark && Times(f.out, symbol) == w.times
    decreases |polls|
  {
    if polls != [] {
      var n := |polls| - 1;
      FeedProjects(polls[..n], symbol);
      var f, p := PollAll(Feed(map[], []), polls[..n]), polls[n];
      var bars := NewBars(Mark(f.marks, p.symbol), Bars(p.response));
      TimesTagged(f.out, p.symbol, bars, symbol);
      if p.symbol == symbol {
        var only := Only(polls[..n], symbol);
        assert (only + [p])[..|only|] == only;
      }
    }
  }

  ghost predicate Ascending(ts: seq<int>) {
    forall i, j | 0 <= i < j < |ts| :: ts[i] < ts[j]
  }

  /** Every emitted time is below the next, and the watermark is the last of them. */
  ghost predicate WatchOk(w: Watch) {
    && Ascending(w.times)
    && w.mark == if w.times == [] then None else Some(w.times[|w.times| - 1])
  }

  lemma {:induction false} AfterAbove(bars: seq<int>, mark: int, low: int)
    requires forall i | 0 <= i < |bars| :: low < bars[i]
    ensures forall i | 0 <= i < |After(bars, mark)| :: mark < After(bars, mark)[i] && low < After(bars, mark)[i]
    decreases bars
  {
    if bars != [] {
      AfterAbove(bars[1..], mark, low);
    }
  }

  lemma {:induction false} AfterAscending(bars: seq<int>, mark: int)
    requires Ascending(bars)
    ensures Ascending(After(bars, mark))
    ensures forall i | 0 <= i < |After(bars, mark)| :: mark < After(bars, mark)[i]
    decreases bars
  {
    if bars != [] {
      AfterAscending(bars[1..], mark);
      AfterAbove(bars[1..], mark, bars[0]);
    }
  }

  lemma SeeOk(w: Watch, p: Poll)
    requires WatchOk(w) && Ascending(Bars(p.response))
    ensures WatchOk(See(w, p))
  {
    if w.mark.Some? {
      AfterAscending(Bars(p.response), w.mark.value);
    }
  }

  lemma {:induction false} WatchRun(polls: seq<Poll>)
    requires forall i | 0 <= i < |polls| :: Ascending(Bars(polls[i].response))
    ensures WatchOk(SeeAll(Watch(None, []), polls))
    decreases |polls|
  {
    if polls != [] {
      var n := |polls| - 1;
      WatchRun(polls[..n]);
      SeeOk(SeeAll(Watch(None, []), polls[..n]), polls[n]);
    }
  }

  lemma {:induction false} OnlyFrom(polls: seq<Poll>, symbol: string, i: nat)
    requires i < |Only(polls, symbol)|
    ensures Only(polls, symbol)[i] in polls && Only(polls, symbol)[i].symbol == symbol
    decreases |polls|
  {
    var n := |polls| - 1;
    if i < |Only(polls[..n], symbol)| {
      OnlyFrom(polls[..n], symbol, i);
    }
  }

  /** The closed candles of a response are in ascending order. */
  ghost predicate OldestFirst(r: Response) {
    r.Candles? ==>
      forall i, j | 0 <= i < j < |r.candles| && r.candles[i].complete && r.candles[j].complete ::
        r.candles[i].time < r.candles[j].time
  }

  lemma BarsAscend(r: Response)
    requires OldestFirst(r)
    ensures Ascending(Bars(r))
  {
    if r.Candles? {
      var picks := UsablePicks(r.candles);
      forall i, j | 0 <= i < j < |picks|
        ensures Usable(r.candles)[i] < Usable(r.candles)[j]
      {
        assert Usable(r.candles)[i] == r.candles[picks[i]].time && Usable(r.candles)[j] == r.candles[picks[j]].time;
      }
    }
  }

  /** In every run of polls, the times emitted for a symbol strictly increase, provided
      each of its responses is in ascending order. */
  lemma EmissionsIncrease(polls: seq<Poll>, symbol: string)
    requires forall p | p in polls && p.symbol == symbol :: OldestFirst(p.response)
    ensures Ascending(Times(PollAll(Feed(map[], []), polls).out, symbol))
  {
    var only := Only(polls, symbol);
    forall i | 0 <= i < |only|
      ensures Ascending(Bars(only[i].response))
    {
      OnlyFrom(polls, symbol, i);
      BarsAscend(only[i].response);
    }
    WatchRun(only);
    FeedProjects(polls, symbol);
  }

  /** The poll delivered a closed, convertible candle of this time, over a connected channel. */
  predicate Delivers(p: Poll, e: Emission, k: nat) {
    && p.connected && p.symbol == e.symbol && p.response.Candles? && k < |p.response.candles|
    && p.response.candles[k].complete && p.response.candles[k].convertible && p.response.candles[k].time == e.time
  }

  ghost predicate Sourced(polls: seq<Poll>, e: Emission) {
    exists m: nat, k: nat :: m < |polls| && Delivers(polls[m], e, k)
  }

  lemma NewBarsFrom(mark: Option<int>, r: Response, i: nat) returns (k: nat)
    requires i < |NewBars(mark, Bars(r))|
    ensures r.Candles? && k < |r.candles| && r.candles[k].complete && r.candles[k].convertible
    ensures r.candles[k].time == NewBars(mark, Bars(r))[i]
  {
    var picks := NewBarsExact(r.candles, mark);
    k := picks[i];
  }

  /** Over any run of polls, everything emitted is a closed, convertible candle that some
      successful poll of its symbol delivered; the one in progress never is. */
  lemma {:induction false} EmissionsAreClosedCandles(polls: seq<Poll>, i: nat)
    requires i < |PollAll(Feed(map[], []), polls).out|
    ensures Sourced(polls, PollAll(Feed(map[], []), polls).out[i])
    decreases |polls|
  {
    var n := |polls| - 1;
    var f, p := PollAll(Feed(map[], []), polls[..n]), polls[n];
    var e := PollAll(Feed(map[], []), polls).out[i];
    if i < |f.out| {
      EmissionsAreClosedCandles(polls[..n], i);
      var m: nat, k: nat :| m < |polls[..n]| && Delivers(polls[..n][m], e, k);
      assert Delivers(polls[m], e, k);
    } else {
      var k := NewBarsFrom(Mark(f.marks, p.symbol), p.response, i - |f.out|);
      assert Delivers(polls[n], e, k);
    }
  }

  // ----- Gaps

  /** The emissions are a run of the symbol's closed candles `hist` with none left out. */
  predicate Segment(hist: seq<int>, times: seq<int>, i: nat, j: nat) {
    i <= j <= |hist| && times == hist[i..j]
  }

  ghost predicate GapFree(hist: seq<int>, times: seq<int>) {
    exists i: nat, j: nat :: Segment(hist, times, i, j)
  }

  lemma {:induction false} AfterSlice(hist: seq<int>, a: nat, c: nat, j: nat)
    requires Ascending(hist) && a <= c <= |hist| && 0 < j <= |hist|
    ensures After(hist[a..c], hist[j - 1]) == if a >= j then hist[a..c] else if c > j then hist[j..c] else []
    decreases c - a
  {
    if a < c {
      assert hist[a..c][1..] == hist[a + 1..c];
      AfterSlice(hist, a + 1, c, j);
      if a >= j {
        assert hist[a..c] == [hist[a]] + hist[a + 1..c];
      }
    }
  }

  lemma SkipSeen(hist: seq<int>, times: seq<int>, i: nat, j: nat, a: nat, i': nat, j': nat)
    requires Ascending(hist) && i < j < a < |hist| && |times| > j - i
    requires times[0] == hist[i] && times[j - i] == hist[a]
    ensures !Segment(hist, times, i', j')
  {
    if i' <= j' <= |hist| && |times| == j' - i' && i' != i {
      assert hist[i'..j'][0] == hist[i'];
    }
  }

  lemma ReachesBack(hist: seq<int>, w: Watch, bars: seq<int>, i: nat, j: nat, a: nat, c: nat)
    requires Ascending(hist) && i < j && Segment(hist, w.times, i, j) && w.mark == Some(hist[j - 1])
    requires Segment(hist, bars, a, c) && (a <= j || a == c)
    ensures GapFree(hist, SeeBars(w, bars).times)
  {
    AfterSlice(hist, a, c, j);
    if a <= j < c {
      assert After(bars, hist[j - 1]) == hist[j..c];
      assert hist[i..j] + hist[j..c] == hist[i..c];
      assert Segment(hist, SeeBars(w, bars).times, i, c);
    } else {
      assert After(bars, hist[j - 1]) == [];
      assert Segment(hist, SeeBars(w, bars).times, i, j);
    }
  }

  lemma LeavesGap(hist: seq<int>, w: Watch, bars: seq<int>, i: nat, j: nat, a: nat, c: nat)
    requires Ascending(hist) && i < j && Segment(hist, w.times, i, j) && w.mark == Some(hist[j - 1])
    requires Segment(hist, bars, a, c) && j < a < c
    ensures !GapFree(hist, SeeBars(w, bars).times)
  {
    AfterSlice(hist, a, c, j);
    var times := SeeBars(w, bars).times;
    assert times == hist[i..j] + hist[a..c];
    assert times[0] == hist[i] && times[j - i] == hist[a];
    forall i': nat, j': nat
      ensures !Segment(hist, times, i', j')
    {
      SkipSeen(hist, times, i, j, a, i', j');
    }
  }

  /** The closed, convertible candles of a response are candles a..c of the history. */
  ghost predicate Shows(hist: seq<int>, candles: seq<Candle>, picks: seq<nat>, a: nat, c: nat) {
    AllClosed(candles, picks) && a <= c <= |hist| && TimesAt(candles, picks) == hist[a..c]
  }

  lemma SamePlaces(a: seq<nat>, b: seq<nat>, n: nat)
    requires Increasing(a) && Increasing(b) && n < |a|
    requires forall k | k in a :: k in b
    requires forall k | k in b :: k in a
    ensures n < |b| && a[n] == b[n]
    decreases n
  {
    forall m: nat | m < n
      ensures m < |b| && a[m] == b[m]
    {
      SamePlaces(a, b, m);
    }
    assert a[n] in b;
    var i: nat :| i < |b| && b[i] == a[n];
    assert n <= i && b[n] in a;
    var j: nat :| j < |a| && a[j] == b[n];
  }

  lemma ShownBars(hist: seq<int>, candles: seq<Candle>, picks: seq<nat>, a: nat, c: nat)
    requires Shows(hist, candles, picks, a, c)
    ensures Segment(hist, Usable(candles), a, c)
  {
    var all := UsablePicks(candles);
    forall n: nat | n < |all|
      ensures n < |picks| && all[n] == picks[n]
    {
      SamePlaces(all, picks, n);
    }
    if all != [] { SamePlaces(all, picks, |all| - 1); }
    if picks != [] { SamePlaces(picks, all, |picks| - 1); }
    assert all == picks;
  }

  /** A response with the closed candles a..c, after emissions up to candle j, leaves the
      emissions gap-free exactly when it is empty or reaches back to candle j. */
  lemma GapExact(hist: seq<int>, w: Watch, symbol: string, candles: seq<Candle>, picks: seq<nat>,
                 i: nat, j: nat, a: nat, c: nat)
    requires Ascending(hist) && i < j && Segment(hist, w.times, i, j) && w.mark == Some(hist[j - 1])
    requires Shows(hist, candles, picks, a, c)
    ensures GapFree(hist, See(w, Poll(symbol, Candles(candles), true)).times) <==> a <= j || a == c
  {
    var bars := Usable(candles);
    ShownBars(hist, candles, picks, a, c);
    if a <= j || a == c {
      ReachesBack(hist, w, bars, i, j, a, c);
    } else {
      LeavesGap(hist, w, bars, i, j, a, c);
    }
  }

  /** The response, if any, is a run of closed candles that misses none after the watermark. */
  ghost predicate Complete(hist: seq<int>, mark: Option<int>, r: Response) {
    r.Candles? ==>
      exists picks: seq<nat>, a: nat, c: nat ::
        Shows(hist, r.candles, picks, a, c) && (mark.Some? ==> forall k | 0 <= k < a :: hist[k] <= mark.value)
  }

  ghost predicate Covers(hist: seq<int>, mark: Option<int>, bars: seq<int>, a: nat, c: nat) {
    Segment(hist, bars, a, c) && (mark.Some? ==> forall k | 0 <= k < a :: hist[k] <= mark.value)
  }

  lemma CompleteCovers(hist: seq<int>, mark: Option<int>, r: Response) returns (a: nat, c: nat)
    requires r.Candles? && Complete(hist, mark, r)
    ensures Covers(hist, mark, Bars(r), a, c)
  {
    var picks: seq<nat>, from: nat, to: nat :|
      Shows(hist, r.candles, picks, from, to) && (mark.Some? ==> forall k | 0 <= k < from :: hist[k] <= mark.value);
    ShownBars(hist, r.candles, picks, from, to);
    a, c := from, to;
  }

  ghost predicate AllComplete(hist: seq<int>, polls: seq<Poll>) {
    forall n | 0 <= n < |polls| :: Complete(hist, SeeAll(Watch(None, []), polls[..n]).mark, polls[n].response)
  }

  /** The emissions are candles i..j and the watermark is the last of them. */
  predicate WatchAt(hist: seq<int>, w: Watch, i: nat, j: nat) {
    Segment(hist, w.times, i, j) && w.mark == if i == j then None else Some(hist[j - 1])
  }

  ghost predicate Contiguous(hist: seq<int>, w: Watch) {
    exists i: nat, j: nat :: WatchAt(hist, w, i, j)
  }

  lemma NextSegment(hist: seq<int>, w: Watch, bars: seq<int>, i: nat, j: nat, a: nat, c: nat)
    requires Ascending(hist) && i < j && Segment(hist, w.times, i, j) && w.mark == Some(hist[j - 1])
    requires Covers(hist, w.mark, bars, a, c) && After(bars, hist[j - 1]) != []
    ensures j < c <= |hist| && After(bars, hist[j - 1]) == hist[j..c]
    ensures Segment(hist, w.times + hist[j..c], i, c)
  {
    AfterSlice(hist, a, c, j);
    if j < |hist| {
      assert hist[j] > hist[j - 1];
    }
    assert a <= j;
    assert hist[i..j] + hist[j..c] == hist[i..c];
  }

  lemma FirstBar(hist: seq<int>, w: Watch, bars: seq<int>, i: nat, a: nat, c: nat)
    requires WatchAt(hist, w, i, i) && Segment(hist, bars, a, c) && a < c
    ensures WatchAt(hist, SeeBars(w, bars), c - 1, c)
  {
    assert w.times + [hist[c - 1]] == hist[c - 1..c];
  }

  lemma LaterBars(hist: seq<int>, w: Watch, bars: seq<int>, i: nat, j: nat, a: nat, c: nat)
    requires Ascending(hist) && i < j && WatchAt(hist, w, i, j) && Covers(hist, w.mark, bars, a, c)
    ensures Contiguous(hist, SeeBars(w, bars))
  {
    var w' := SeeBars(w, bars);
    if After(bars, hist[j - 1]) == [] {
      assert WatchAt(hist, w', i, j);
    } else {
      NextSegment(hist, w, bars, i, j, a, c);
      assert w' == Watch(Some(hist[c - 1]), w.times + hist[j..c]);
      assert WatchAt(hist, w', i, c);
    }
  }

  lemma SeeContiguous(hist: seq<int>, w: Watch, bars: seq<int>, a: nat, c: nat)
    requires Ascending(hist) && Contiguous(hist, w) && Covers(hist, w.mark, bars, a, c)
    ensures Contiguous(hist, SeeBars(w, bars))
  {
    var i: nat, j: nat :| WatchAt(hist, w, i, j);
    if i < j {
      LaterBars(hist, w, bars, i, j, a, c);
    } else if a < c {
      FirstBar(hist, w, bars, i, a, c);
    }
  }

  lemma AllCompletePrefix(hist: seq<int>, polls: seq<Poll>, n: nat)
    requires AllComplete(hist, polls) && n <= |polls|
    ensures AllComplete(hist, polls[..n])
  {
    forall k | 0 <= k < n
      ensures Complete(hist, SeeAll(Watch(None, []), polls[..n][..k]).mark, polls[..n][k].response)
    {
      assert polls[..n][..k] == polls[..k];
    }
  }

  lemma {:induction false} ContiguousRun(hist: seq<int>, polls: seq<Poll>)
    requires Ascending(hist) && AllComplete(hist, polls)
    ensures Contiguous(hist, SeeAll(Watch(None, []), polls))
    decreases |polls|
  {
    if polls == [] {
      assert WatchAt(hist, Watch(None, []), 0, 0);
    } else {
      var n := |polls| - 1;
      AllCompletePrefix(hist, polls, n);
      ContiguousRun(hist, polls[..n]);
      var w, p := SeeAll(Watch(None, []), polls[..n]), polls[n];
      assert Complete(hist, w.mark, p.response);
      if p.connected && !p.response.Failed? {
        var a, c := CompleteCovers(hist, w.mark, p.response);
        SeeContiguous(hist, w, Bars(p.response), a, c);
      }
    }
  }

  /** If every successful response of a symbol misses no closed candle after the watermark,
      then from the first emission on no closed candle is left out. */
  lemma EmissionsGapFree(hist: seq<int>, polls: seq<Poll>, symbol: string)
    requires Ascending(hist) && AllComplete(hist, Only(polls, symbol))
    ensures GapFree(hist, Times(PollAll(Feed(map[], []), polls).out, symbol))
  {
    ContiguousRun(hist, Only(polls, symbol));
    FeedProjects(polls, symbol);
    var w := SeeAll(Watch(None, []), Only(polls, symbol));
    var i: nat, j: nat :| WatchAt(hist, w, i, j);
  }

  // ----- The retry loop

  const INITIAL_BACKOFF := 1
  const MAX_BACKOFF := 60
  const MAX_FAILURES := 8

  /** One turn of the loop: nothing subscribed, every request fine, or some request failed. */
  datatype Cycle = Idle | Healthy | Unhealthy

  /** The unhealthy cycles since the last healthy one; idle cycles do not count. */
  function Streak(cycles: seq<Cycle>): nat {
    if cycles == [] then 0
    else
      var n := |cycles| - 1;
      match cycles[n]
      case Idle => Streak(cycles[..n])
      case Healthy => 0
      case Unhealthy => Streak(cycles[..n]) + 1
  }

  /** The places from `start` on where a cycle was unhealthy. */
  ghost function UnhealthyFrom(cycles: seq<Cycle>, start: nat): set<int> {
    set i | start <= i < |cycles| && cycles[i].Unhealthy?
  }

  /** The streak, counted: with nothing healthy since `start`, it is the number of unhealthy cycles since. */
  lemma {:induction false} StreakCounts(cycles: seq<Cycle>, start: nat)
    requires start <= |cycles| && (start == 0 || cycles[start - 1].Healthy?)
    requires forall i | start <= i < |cycles| :: !cycles[i].Healthy?
    ensures Streak(cycles) == |UnhealthyFrom(cycles, start)|
    decreases |cycles|
  {
    if start == |cycles| {
      assert UnhealthyFrom(cycles, start) == {};
    } else {
      StreakCounts(cycles[..|cycles| - 1], start);
      OneMoreCycle(cycles, start);
    }
  }

  lemma OneMoreCycle(cycles: seq<Cycle>, start: nat)
    requires start < |cycles|
    ensures var n := |cycles| - 1;
            |UnhealthyFrom(cycles, start)|
            == |UnhealthyFrom(cycles[..n], start)| + if cycles[n].Unhealthy? then 1 else 0
  {
    var n := |cycles| - 1;
    var before, after := UnhealthyFrom(cycles[..n], start), UnhealthyFrom(cycles, start);
    assert after == if cycles[n].Unhealthy? then before + {n} else before;
  }

  function Pow2(k: nat): nat {
    if k == 0 then 1 else 2 * Pow2(k - 1)
  }

  /** The delay after k consecutive failures, in seconds. */
  function Backoff(k: nat): nat {
    if Pow2(k) < MAX_BACKOFF then Pow2(k) else MAX_BACKOFF
  }

  datatype Wait = NextMinute | Delay(seconds: nat)

  function WaitBefore(cycles: seq<Cycle>): Wait {
    if Streak(cycles) == 0 then NextMinute else Delay(Backoff(Streak(cycles)))
  }

  /** The waits, spelled out: the next minute without a failure since the last healthy cycle, else
      twice as long after each, up to a minute. */
  lemma WaitExact(cycles: seq<Cycle>)
    ensures var k := Streak(cycles);
            WaitBefore(cycles) ==
            if k == 0 then NextMinute else if k == 1 then Delay(2) else if k == 2 then Delay(4)
            else if k == 3 then Delay(8) else if k == 4 then Delay(16) else if k == 5 then Delay(32) else Delay(60)
  {
    var k := Streak(cycles);
    assert Pow2(2) == 4 && Pow2(3) == 2 * Pow2(2) && Pow2(4) == 2 * Pow2(3);
    assert Pow2(5) == 2 * Pow2(4) && Pow2(6) == 2 * Pow2(5);
    if k >= 6 {
      Pow2Grows(6, k);
    }
  }

  lemma {:induction false} Pow2Grows(j: nat, k: nat)
    requires j <= k
    ensures Pow2(j) <= Pow2(k)
    decreases k
  {
    if j < k {
      Pow2Grows(j, k - 1);
    }
  }

  /** What the loop makes of its cycles: it waits ahead of each according to the streak so far,
      and stops by itself exactly at the cycle that makes the streak eight. */
  ghost predicate Outcome(cycles: seq<Cycle>, stopped: Option<nat>, waits: seq<Wait>) {
    && (stopped.Some? ==> stopped.value < |cycles| && Streak(cycles[..stopped.value + 1]) == MAX_FAILURES)
    && |waits| == (if stopped.Some? then stopped.value + 1 else |cycles|) && WaitsFollow(cycles, waits)
    && (stopped.None? ==> Streak(cycles) < MAX_FAILURES)
  }

  /** A cycle by what its polls returned; without instruments nothing is polled. */
  function Class(polls: seq<Poll>): Cycle {
    if polls == [] then Idle
    else if forall i | 0 <= i < |polls| :: !polls[i].response.Failed? then Healthy
    else Unhealthy
  }

  function Classes(cycles: seq<seq<Poll>>): seq<Cycle> {
    seq(|cycles|, i requires 0 <= i < |cycles| => Class(cycles[i]))
  }

  function Flat(cycles: seq<seq<Poll>>): seq<Poll> {
    if cycles == [] then [] else Flat(cycles[..|cycles| - 1]) + cycles[|cycles| - 1]
  }

  lemma {:induction false} PollAllSplit(f: Feed, a: seq<Poll>, b: seq<Poll>)
    ensures PollAll(f, a + b) == PollAll(PollAll(f, a), b)
    decreases |b|
  {
    if b == [] {
      assert a + b == a;
    } else {
      var n := |b| - 1;
      var all := a + b;
      assert all[..|all| - 1] == a + b[..n] && all[|all| - 1] == b[n];
      PollAllSplit(f, a, b[..n]);
    }
  }

  lemma NextCycle(f: Feed, cycles: seq<seq<Poll>>, i: nat)
    requires i < |cycles|
    ensures PollAll(f, Flat(cycles[..i + 1])) == PollAll(PollAll(f, Flat(cycles[..i])), cycles[i])
    ensures Streak(Classes(cycles)[..i + 1]) == Extended(Streak(Classes(cycles)[..i]), Class(cycles[i]))
  {
    assert cycles[..i + 1][..i] == cycles[..i];
    PollAllSplit(f, Flat(cycles[..i]), cycles[i]);
    assert Classes(cycles)[..i + 1] == Classes(cycles)[..i] + [Class(cycles[i])];
    StreakAppend(Classes(cycles)[..i], Class(cycles[i]));
  }

  lemma StreakAppend(cycles: seq<Cycle>, c: Cycle)
    ensures Streak(cycles + [c]) == Extended(Streak(cycles), c)
  {
    assert (cycles + [c])[..|cycles|] == cycles;
  }

  /** One turn: nothing without instruments, else a poll of every symbol. */
  method RunCycle(feed: CandleFeed, polls: seq<Poll>) returns (cycle: Cycle)
    modifies feed
    ensures cycle == Class(polls) && feed.View() == PollAll(old(feed.View()), polls)
    ensures cycle.Idle? <==> polls == []
    ensures cycle.Unhealthy? <==> exists i | 0 <= i < |polls| :: polls[i].response.Failed?
  {
    if polls == [] {
      return Idle;
    }
    var healthy := feed.PollAndEmit(polls);
    cycle := if healthy then Healthy else Unhealthy;
  }

  /** The streak after one more cycle. */
  function Extended(streak: nat, cycle: Cycle): nat {
    match cycle case Idle => streak case Healthy => 0 case Unhealthy => streak + 1
  }

  /** Updates the failure count and, unless that ends the loop, the delay. */
  method Retry(failures: nat, backoff: nat, cycle: Cycle) returns (failures': nat, backoff': nat)
    requires failures < MAX_FAILURES && backoff == Backoff(failures)
    ensures failures' == Extended(failures, cycle)
    ensures failures' < MAX_FAILURES ==> backoff' == Backoff(failures')
  {
    failures', backoff' := failures, backoff;
    if cycle.Healthy? {
      failures', backoff' := 0, INITIAL_BACKOFF;
    } else if cycle.Unhealthy? {
      failures' := failures + 1;
      if failures' < MAX_FAILURES {
        backoff' := if backoff * 2 < MAX_BACKOFF then backoff * 2 else MAX_BACKOFF;
      }
    }
  }

  /** The waits ahead of the first cycles, none of which ended the loop. */
  ghost predicate WaitsFollow(cycles: seq<Cycle>, waits: seq<Wait>) {
    && |waits| <= |cycles|
    && forall m | 0 <= m < |waits| :: Streak(cycles[..m]) < MAX_FAILURES && waits[m] == WaitBefore(cycles[..m])
  }

  lemma NextWait(cycles: seq<Cycle>, waits: seq<Wait>, w: Wait)
    requires WaitsFollow(cycles, waits) && |waits| < |cycles|
    requires Streak(cycles[..|waits|]) < MAX_FAILURES && w == WaitBefore(cycles[..|waits|])
    ensures WaitsFollow(cycles, waits + [w])
  {
  }

  /** The poll task: waits, polls and emits cycle after cycle until it gives up or the
      cycles end. The feed is that of all the polls made. */
  method RunCandlePoll(feed: CandleFeed, cycles: seq<seq<Poll>>) returns (stopped: Option<nat>, waits: seq<Wait>)
    modifies feed
    ensures Outcome(Classes(cycles), stopped, waits)
    ensures |waits| <= |cycles| && feed.View() == PollAll(old(feed.View()), Flat(cycles[..|waits|]))
  {
    var backoff, failures := INITIAL_BACKOFF, 0;
    ghost var classes := Classes(cycles);
    waits := [];
    for i := 0 to |cycles|
      invariant failures == Streak(classes[..i]) < MAX_FAILURES && backoff == Backoff(failures)
      invariant |waits| == i && WaitsFollow(classes, waits)
      invariant feed.View() == PollAll(old(feed.View()), Flat(cycles[..i]))
    {
      var wait := if failures == 0 then NextMinute else Delay(backoff);
      NextWait(classes, waits, wait);
      waits := waits + [wait];
      NextCycle(old(feed.View()), cycles, i);
      var cycle := RunCycle(feed, cycles[i]);
      failures, backoff := Retry(failures, backoff, cycle);
      if failures >= MAX_FAILURES {
        return Some(i), waits;
      }
    }
    assert classes[..|cycles|] == classes;
    stopped := None;
  }

  function NonIdle(cycles: seq<Cycle>): seq<Cycle> {
    if cycles == [] then []
    else
      var n := |cycles| - 1;
      if cycles[n].Idle? then NonIdle(cycles[..n]) else NonIdle(cycles[..n]) + [cycles[n]]
  }

  /** Idle cycles never count: the streak is that of the other cycles. */
  lemma {:induction false} IdleIgnored(cycles: seq<Cycle>)
    ensures Streak(cycles) == Streak(NonIdle(cycles))
    decreases |cycles|
  {
    if cycles != [] {
      var n := |cycles| - 1;
      IdleIgnored(cycles[..n]);
      var init := NonIdle(cycles[..n]);
      assert (init + [cycles[n]])[..|init|] == init;
    }
  }

  /** One healthy cycle restores the initial state: what follows behaves as from the start. */
  lemma {:induction false} HealthyForgets(before: seq<Cycle>, after: seq<Cycle>)
    ensures Streak(before + [Healthy] + after) == Streak(after)
    decreases |after|
  {
    var all := before + [Healthy] + after;
    if after != [] {
      var n := |after| - 1;
      assert all[..|all| - 1] == before + [Healthy] + after[..n];
      HealthyForgets(before, after[..n]);
    }
  }

  /** The seconds slept in backoff while k failures pile up without interruption. */
  function BackoffSlept(k: nat): nat {
    if k == 0 then 0 else BackoffSlept(k - 1) + Backoff(k)
  }

  function Failing(before: seq<Cycle>, k: nat): seq<Cycle> {
    before + seq(k, _ => Unhealthy)
  }

  lemma {:induction false} StreakOfUnhealthy(before: seq<Cycle>, k: nat)
    ensures Streak(Failing(before, k)) == Streak(before) + k
    decreases k
  {
    if k == 0 {
      assert Failing(before, k) == before;
    } else {
      assert Failing(before, k) == Failing(before, k - 1) + [Unhealthy];
      StreakAppend(Failing(before, k - 1), Unhealthy);
      StreakOfUnhealthy(before, k - 1);
    }
  }

  /** The seconds asked for by the backoff waits, in order. */
  function Slept(waits: seq<Wait>): nat {
    if waits == [] then 0
    else
      var n := |waits| - 1;
      Slept(waits[..n]) + if waits[n].Delay? then waits[n].seconds else 0
  }

  lemma {:induction false} SleptInStreak(before: seq<Cycle>, waits: seq<Wait>)
    requires Streak(before) == 0
    requires forall k | 0 <= k < |waits| :: waits[k] == WaitBefore(Failing(before, k))
    ensures Slept(waits) == BackoffSlept(if waits == [] then 0 else |waits| - 1)
    decreases |waits|
  {
    if waits != [] {
      var n := |waits| - 1;
      SleptInStreak(before, waits[..n]);
      StreakOfUnhealthy(before, n);
    }
  }

  lemma SevenBackoffs()
    ensures BackoffSlept(7) == 182
  {
    assert Pow2(3) == 8;
    assert Pow2(5) == 32;
    assert Pow2(7) == 128;
    assert BackoffSlept(3) == 14;
    assert BackoffSlept(5) == 62;
  }

  /** When the loop gives up after eight unhealthy cycles in a row, the waits of those eight
      asked for 2+4+8+16+32+60+60 = 182 seconds of backoff. */
  lemma FatalStreakSleeps182(cycles: seq<Cycle>, n: nat, waits: seq<Wait>)
    requires Outcome(cycles, Some(n), waits)
    requires n + 1 >= MAX_FAILURES && forall i | n + 1 - MAX_FAILURES <= i <= n :: cycles[i].Unhealthy?
    ensures Slept(waits[n + 1 - MAX_FAILURES..]) == 182
  {
    var start := n + 1 - MAX_FAILURES;
    var before, last := cycles[..start], waits[start..];
    forall k | 0 <= k <= MAX_FAILURES
      ensures cycles[..start + k] == Failing(before, k)
    {
    }
    StreakOfUnhealthy(before, MAX_FAILURES);
    forall k | 0 <= k < |last|
      ensures last[k] == WaitBefore(Failing(before, k))
    {
      assert last[k] == waits[start + k];
    }
    SleptInStreak(before, last);
    SevenBackoffs();
  }
}

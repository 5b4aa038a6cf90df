/** The adapter circuit breaker (crates/core/src/circuit_breaker.rs): a deque of
    recent failure times, pruned lazily, against a predicate over the whole
    history of failures and resets.

    Times are integers read from a clock that never goes backwards. A reset reads
    the clock twice: once to check the cooldown and once for its own stamp.
 */
module CircuitBreaker {
  import opened Sequences

  datatype CircuitState = Closed | Open

  datatype Config = Config(threshold: nat, window: nat, cooldown: nat)

  /** The breaker's mutable fields as one value. */
  datatype Breaker = Breaker(recent: seq<int>, state: CircuitState, lastResetAt: Option<int>)

  const INITIAL := Breaker([], Closed, None)

  /** Drops failures from the front while they are older than the window. */
  function Prune(recent: seq<int>, now: int, window: nat): seq<int> {
    if recent != [] && now - recent[0] > window then Prune(recent[1..], now, window) else recent
  }

  function Fail(cfg: Config, b: Breaker, now: int): Breaker {
    var recent := Prune(b.recent, now, cfg.window) + [now];
    Breaker(recent, if |recent| >= cfg.threshold then Open else b.state, b.lastResetAt)
  }

  predicate Cooled(cfg: Config, last: Option<int>, checkedAt: int) {
    last.Some? ==> checkedAt - last.value >= cfg.cooldown
  }

  function Reset(cfg: Config, b: Breaker, checkedAt: int, stampedAt: int): Breaker {
    if Cooled(cfg, b.lastResetAt, checkedAt) then Breaker([], Closed, Some(stampedAt)) else b
  }

  /** The breaker as the adapter holds it. */
  class AdapterCircuitBreaker {
    const cfg: Config
    var recentFailures: seq<int>
    var state: CircuitState
    var lastResetAt: Option<int>

    ghost function View(): Breaker
      reads this
    {
      Breaker(recentFailures, state, lastResetAt)
    }

    constructor (threshold: nat, window: nat)
      ensures cfg == Config(threshold, window, 60)
      ensures View() == INITIAL
    {
      cfg := Config(threshold, window, 60);
      recentFailures, state, lastResetAt := [], Closed, None;
    }

    method RecordFailure(now: int)
      modifies this
      ensures View() == Fail(cfg, old(View()), now)
    {
      while recentFailures != [] && now - recentFailures[0] > cfg.window
        invariant Prune(recentFailures, now, cfg.window) == Prune(old(recentFailures), now, cfg.window)
        invariant state == old(state) && lastResetAt == old(lastResetAt)
        decreases |recentFailures|
      {
        recentFailures := recentFailures[1..];
      }
      recentFailures := recentFailures + [now];
      if |recentFailures| >= cfg.threshold {
        state := Open;
      }
    }

    /** Succeeds unless the last successful reset is still within the cooldown. */
    method ResetBreaker(checkedAt: int, stampedAt: int) returns (ok: bool)
      modifies this
      ensures View() == Reset(cfg, old(View()), checkedAt, stampedAt)
      ensures ok <==> old(lastResetAt).None? || checkedAt - old(lastResetAt).value >= cfg.cooldown
      ensures ok ==> recentFailures == [] && state.Closed? && lastResetAt == Some(stampedAt)
      ensures !ok ==> View() == old(View())
    {
      if lastResetAt.Some? && checkedAt - lastResetAt.value < cfg.cooldown {
        return false;
      }
      recentFailures, state, lastResetAt := [], Closed, Some(stampedAt);
      ok := true;
    }
  }

  // ----- The history the breaker is judged against

  datatype Event = Failure(at: int) | ResetCall(checkedAt: int, stampedAt: int)

  function Began(e: Event): int {
    match e case Failure(t) => t case ResetCall(c, _) => c
  }

  function Ended(e: Event): int {
    match e case Failure(t) => t case ResetCall(_, s) => s
  }

  /** The clock never goes backwards, within a call or between calls. */
  ghost predicate ClockOrdered(events: seq<Event>) {
    && (forall i | 0 <= i < |events| :: Began(events[i]) <= Ended(events[i]))
    && (forall i, j | 0 <= i < j < |events| :: Ended(events[i]) <= Began(events[j]))
  }

  function Exec(cfg: Config, events: seq<Event>): Breaker
    decreases |events|
  {
    if events == [] then INITIAL
    else
      var b := Exec(cfg, events[..|events| - 1]);
      match events[|events| - 1]
      case Failure(t) => Fail(cfg, b, t)
      case ResetCall(c, s) => Reset(cfg, b, c, s)
  }

  /** Call `i` is a reset, and no earlier allowed one is less than the cooldown behind it. */
  ghost predicate Allowed(cfg: Config, events: seq<Event>, i: nat)
    requires i < |events|
    decreases i
  {
    && events[i].ResetCall?
    && forall k: nat | k < i && Allowed(cfg, events, k) :: events[i].checkedAt - events[k].stampedAt >= cfg.cooldown
  }

  lemma {:induction false} AllowedPrefix(cfg: Config, events: seq<Event>, n: nat, i: nat)
    requires i < n <= |events|
    ensures Allowed(cfg, events[..n], i) <==> Allowed(cfg, events, i)
    decreases i
  {
    forall k: nat | k < i
      ensures Allowed(cfg, events[..n], k) <==> Allowed(cfg, events, k)
    {
      AllowedPrefix(cfg, events, n, k);
    }
  }

  /** The stamp is that of the last allowed reset, if there was one. */
  ghost predicate LastStamp(cfg: Config, events: seq<Event>, stamp: Option<int>) {
    match stamp
    case None => forall i: nat | i < |events| :: !Allowed(cfg, events, i)
    case Some(t) => exists i: nat :: LastAllowed(cfg, events, i) && events[i].stampedAt == t
  }

  ghost predicate LastAllowed(cfg: Config, events: seq<Event>, i: nat) {
    i < |events| && Allowed(cfg, events, i) && forall k: nat | i < k < |events| :: !Allowed(cfg, events, k)
  }

  /** The failures recorded since the last allowed reset. */
  ghost function Failures(cfg: Config, events: seq<Event>): seq<int>
    decreases |events|
  {
    if events == [] then []
    else
      var n := |events| - 1;
      if Allowed(cfg, events, n) then []
      else if events[n].Failure? then Failures(cfg, events[..n]) + [events[n].at]
      else Failures(cfg, events[..n])
  }

  /** The failures within the window ending at `now`. */
  function Within(fs: seq<int>, now: int, window: nat): seq<int> {
    if fs == [] then []
    else (if now - fs[0] <= window then [fs[0]] else []) + Within(fs[1..], now, window)
  }

  /** Failure `i` had at least `threshold` failures in the window ending at it. */
  predicate TripsAt(cfg: Config, fs: seq<int>, i: nat)
    requires i < |fs|
  {
    |Within(fs[..i + 1], fs[i], cfg.window)| >= cfg.threshold
  }

  ghost predicate Tripped(cfg: Config, fs: seq<int>) {
    exists i: nat :: i < |fs| && TripsAt(cfg, fs, i)
  }

  ghost predicate Sorted(fs: seq<int>) {
    forall i, j | 0 <= i < j < |fs| :: fs[i] <= fs[j]
  }

  lemma {:induction false} WithinAppend(fs: seq<int>, t: int, now: int, window: nat)
    ensures Within(fs + [t], now, window) == Within(fs, now, window) + if now - t <= window then [t] else []
    decreases fs
  {
    if fs == [] {
      assert [t][1..] == [];
    } else {
      assert (fs + [t])[1..] == fs[1..] + [t];
      WithinAppend(fs[1..], t, now, window);
      Assoc(if now - fs[0] <= window then [fs[0]] else [], Within(fs[1..], now, window),
            if now - t <= window then [t] else []);
    }
  }

  /** A lazily pruned window, pruned again later, is the later window. */
  lemma {:induction false} PruneWithin(fs: seq<int>, earlier: int, now: int, window: nat)
    requires Sorted(fs) && earlier <= now
    ensures Prune(Within(fs, earlier, window), now, window) == Within(fs, now, window)
    decreases fs
  {
    if fs != [] {
      if now - fs[0] <= window {
        KeepsAll(fs, earlier, window);
        KeepsAll(fs, now, window);
      } else {
        var rest := Within(fs[1..], earlier, window);
        assert ([fs[0]] + rest)[1..] == rest && [] + rest == rest;
        PruneWithin(fs[1..], earlier, now, window);
      }
    }
  }

  lemma {:induction false} KeepsAll(fs: seq<int>, now: int, window: nat)
    requires Sorted(fs)
    requires fs != [] ==> now - fs[0] <= window
    ensures Within(fs, now, window) == fs
    decreases fs
  {
    if fs != [] {
      KeepsAll(fs[1..], now, window);
      assert [fs[0]] + fs[1..] == fs;
    }
  }

  lemma {:induction false} FailuresOrdered(cfg: Config, events: seq<Event>)
    requires ClockOrdered(events)
    ensures Sorted(Failures(cfg, events))
    ensures forall k | 0 <= k < |Failures(cfg, events)| ::
              events != [] && Failures(cfg, events)[k] <= Ended(events[|events| - 1])
    decreases |events|
  {
    if events != [] {
      var n := |events| - 1;
      FailuresOrdered(cfg, events[..n]);
      var before := Failures(cfg, events[..n]);
      assert forall k | 0 <= k < |before| :: before[k] <= Ended(events[n - 1]) <= Began(events[n]);
    }
  }

  /** The deque and the state a history of failures since the last reset calls for. */
  ghost predicate Reflects(cfg: Config, b: Breaker, fs: seq<int>) {
    && b.recent == (if fs == [] then [] else Within(fs, fs[|fs| - 1], cfg.window))
    && (b.state.Open? <==> Tripped(cfg, fs))
  }

  lemma FailReflects(cfg: Config, b: Breaker, fs: seq<int>, t: int)
    requires Reflects(cfg, b, fs) && Sorted(fs)
    requires fs != [] ==> fs[|fs| - 1] <= t
    ensures Reflects(cfg, Fail(cfg, b, t), fs + [t])
  {
    WithinAppend(fs, t, t, cfg.window);
    TrippedAppend(cfg, fs, t);
    if fs != [] {
      PruneWithin(fs, fs[|fs| - 1], t, cfg.window);
    }
  }

  lemma TrippedAppend(cfg: Config, fs: seq<int>, t: int)
    ensures Tripped(cfg, fs + [t]) <==> Tripped(cfg, fs) || |Within(fs + [t], t, cfg.window)| >= cfg.threshold
  {
    var all := fs + [t];
    assert all[..|fs| + 1] == all;
    forall i: nat | i < |fs|
      ensures TripsAt(cfg, all, i) <==> TripsAt(cfg, fs, i)
    {
      assert all[..i + 1] == fs[..i + 1];
    }
    if Tripped(cfg, fs) {
      var i: nat :| i < |fs| && TripsAt(cfg, fs, i);
      assert TripsAt(cfg, all, i);
    }
    if |Within(all, t, cfg.window)| >= cfg.threshold {
      assert TripsAt(cfg, all, |fs|);
    }
  }

  /** With the last allowed reset's stamp at hand, the cooldown check decides the next one. */
  lemma CooledDecides(cfg: Config, events: seq<Event>, stamp: Option<int>)
    requires events != [] && ClockOrdered(events) && events[|events| - 1].ResetCall?
    requires LastStamp(cfg, events[..|events| - 1], stamp)
    ensures Cooled(cfg, stamp, events[|events| - 1].checkedAt) <==> Allowed(cfg, events, |events| - 1)
  {
    var n := |events| - 1;
    forall k: nat | k < n
      ensures Allowed(cfg, events[..n], k) <==> Allowed(cfg, events, k)
    {
      AllowedPrefix(cfg, events, n, k);
    }
    if stamp.Some? {
      var i: nat :| LastAllowed(cfg, events[..n], i) && events[..n][i].stampedAt == stamp.value;
      forall k: nat | k < n && Allowed(cfg, events, k)
        ensures events[k].stampedAt <= stamp.value
      {
        assert k <= i;
        assert Ended(events[k]) <= Ended(events[i]);
      }
    }
  }

  /** What the last call does to the stamp of the last allowed reset. */
  lemma StampStep(cfg: Config, events: seq<Event>, stamp: Option<int>)
    requires events != [] && LastStamp(cfg, events[..|events| - 1], stamp)
    ensures var n := |events| - 1;
            LastStamp(cfg, events, if Allowed(cfg, events, n) then Some(events[n].stampedAt) else stamp)
  {
    var n := |events| - 1;
    forall k: nat | k < n
      ensures Allowed(cfg, events[..n], k) <==> Allowed(cfg, events, k)
    {
      AllowedPrefix(cfg, events, n, k);
    }
    if Allowed(cfg, events, n) {
      assert LastAllowed(cfg, events, n);
    } else if stamp.Some? {
      var i: nat :| LastAllowed(cfg, events[..n], i) && events[..n][i].stampedAt == stamp.value;
      assert LastAllowed(cfg, events, i);
    }
  }

  /** The breaker equals its history: the deque is exactly the failures since the last allowed
      reset that lie within the window of the latest one, and the breaker is open exactly when
      some failure since that reset completed a window of at least `threshold` failures. A
      reset is allowed exactly when every allowed one before it is at least the cooldown ago. */
  lemma {:induction false} BreakerEqualsHistory(cfg: Config, events: seq<Event>)
    requires ClockOrdered(events)
    ensures Reflects(cfg, Exec(cfg, events), Failures(cfg, events))
    ensures LastStamp(cfg, events, Exec(cfg, events).lastResetAt)
    decreases |events|
  {
    if events != [] {
      var n := |events| - 1;
      BreakerEqualsHistory(cfg, events[..n]);
      FailuresOrdered(cfg, events[..n]);
      var b := Exec(cfg, events[..n]);
      StampStep(cfg, events, b.lastResetAt);
      if events[n].Failure? {
        FailReflects(cfg, b, Failures(cfg, events[..n]), events[n].at);
      } else {
        CooledDecides(cfg, events, b.lastResetAt);
      }
    }
  }

  /** A reset call closes the breaker and empties its deque, or else changes nothing, as its
      history allows it or not. */
  lemma ResetTakesEffectExact(cfg: Config, events: seq<Event>)
    requires events != [] && ClockOrdered(events) && events[|events| - 1].ResetCall?
    ensures var n := |events| - 1;
            Exec(cfg, events) ==
            if Allowed(cfg, events, n) then Breaker([], Closed, Some(events[n].stampedAt)) else Exec(cfg, events[..n])
  {
    BreakerEqualsHistory(cfg, events[..|events| - 1]);
    CooledDecides(cfg, events, Exec(cfg, events[..|events| - 1]).lastResetAt);
  }

  /** Any two allowed resets are at least the cooldown apart. */
  lemma ResetsApart(cfg: Config, events: seq<Event>, i: nat, j: nat)
    requires ClockOrdered(events) && i < j < |events|
    requires Allowed(cfg, events, i) && Allowed(cfg, events, j)
    ensures events[j].stampedAt - events[i].stampedAt >= cfg.cooldown
  {
    assert Began(events[j]) <= Ended(events[j]);
  }
}

/** Cancel-and-replace of the OANDA price stream (`spawn_price_stream` in
    crates/oanda/src/streaming.rs), which unlike the other two streams replaces its
    token, cancels the old one and reads the new one back in separate steps.

    Every connect, subscribe and unsubscribe runs one spawn; spawns may overlap.
 */
module PriceTokens {

  /** `Replaced` has stored a fresh token but not yet cancelled the one it displaced. */
  datatype Spawn = Begun | Replaced(displaced: nat) | Cleared | Done

  /** `tokens` are cancelled flags, the last being the stored one; `tasks` are the
      tokens held by the stream tasks started so far. */
  datatype State = State(tokens: seq<bool>, parent: bool, spawns: seq<Spawn>, tasks: seq<nat>)

  const INITIAL := State([false], false, [], [])

  /** `Step` moves a spawn on; `empty` is whether it finds no instruments to stream when
      it is about to read the token back. Disconnecting cancels the stored token, then the parent. */
  datatype Action = Start | Step(spawn: nat, empty: bool) | CancelStored | CancelParent

  function DoStep(s: State, i: nat, empty: bool): State
    requires i < |s.spawns| && s.tokens != []
  {
    match s.spawns[i]
    case Begun =>
      s.(tokens := s.tokens + [false], spawns := s.spawns[i := Replaced(|s.tokens| - 1)])
    case Replaced(k) =>
      s.(tokens := if k < |s.tokens| then s.tokens[k := true] else s.tokens, spawns := s.spawns[i := Cleared])
    case Cleared =>
      s.(tasks := if empty then s.tasks else s.tasks + [|s.tokens| - 1], spawns := s.spawns[i := Done])
    case Done => s
  }

  function Apply(s: State, a: Action): State {
    match a
    case Start => s.(spawns := s.spawns + [Begun])
    case Step(i, empty) => if i < |s.spawns| && s.tokens != [] then DoStep(s, i, empty) else s
    case CancelStored => if s.tokens == [] then s else s.(tokens := s.tokens[|s.tokens| - 1 := true])
    case CancelParent => s.(parent := true)
  }

  function Exec(s: State, acts: seq<Action>): State
    decreases acts
  {
    if acts == [] then s else Exec(Apply(s, acts[0]), acts[1..])
  }

  predicate Live(s: State, t: nat) {
    t < |s.tasks| && s.tasks[t] < |s.tokens| && !s.tokens[s.tasks[t]] && !s.parent
  }

  /** No spawn is between storing its token and cancelling the displaced one. */
  ghost predicate Settled(s: State) {
    forall i | 0 <= i < |s.spawns| :: !s.spawns[i].Replaced?
  }

  /** Some spawn has yet to cancel token k. */
  ghost predicate Pending(s: State, k: nat) {
    exists i: nat :: i < |s.spawns| && s.spawns[i] == Replaced(k)
  }

  ghost predicate Inv(s: State) {
    && s.tokens != []
    && (forall t | 0 <= t < |s.tasks| :: s.tasks[t] < |s.tokens|)
    && (forall k: nat | k < |s.tokens| - 1 :: s.tokens[k] || Pending(s, k))
  }

  lemma InvStep(s: State, a: Action)
    requires Inv(s)
    ensures Inv(Apply(s, a))
  {
    var s' := Apply(s, a);
    forall k: nat | k < |s'.tokens| - 1
      ensures s'.tokens[k] || Pending(s', k)
    {
      if k == |s.tokens| - 1 {
        assert s'.spawns[a.spawn] == Replaced(k);
      } else if !s.tokens[k] {
        var i: nat :| i < |s.spawns| && s.spawns[i] == Replaced(k);
        assert s'.tokens[k] || s'.spawns[i] == Replaced(k);
      }
    }
  }

  lemma {:induction false} InvRun(s: State, acts: seq<Action>)
    requires Inv(s)
    ensures Inv(Exec(s, acts))
    decreases acts
  {
    if acts != [] {
      InvStep(s, acts[0]);
      InvRun(Apply(s, acts[0]), acts[1..]);
    }
  }

  /** In every run, whenever no displaced token is still to be cancelled: a task is live
      exactly when nothing was disconnected and it read its token back after the last
      replacement. So two tasks run side by side exactly when two spawns both read back
      the token stored last. */
  lemma LiveExact(acts: seq<Action>, t: nat)
    requires var s := Exec(INITIAL, acts); Settled(s) && t < |s.tasks|
    ensures var s := Exec(INITIAL, acts);
            && s.tokens != []
            && (Live(s, t) <==> s.tasks[t] == |s.tokens| - 1 && !s.tokens[|s.tokens| - 1] && !s.parent)
  {
    InvRun(INITIAL, acts);
  }

  ghost predicate AtMostOneLive(s: State) {
    forall t: nat, u: nat | Live(s, t) && Live(s, u) :: t == u
  }

  /** In every run, whenever no displaced token is still to be cancelled: at most one price
      task is live if and only if a disconnect reached the parent or the stored token, or no
      two tasks read back the token stored last. */
  lemma AtMostOneLiveExact(acts: seq<Action>)
    requires Settled(Exec(INITIAL, acts))
    ensures var s := Exec(INITIAL, acts);
            && s.tokens != []
            && (AtMostOneLive(s) <==>
                || s.parent || s.tokens[|s.tokens| - 1]
                || forall t: nat, u: nat | t < u < |s.tasks| :: !(s.tasks[t] == s.tasks[u] == |s.tokens| - 1))
  {
    var s := Exec(INITIAL, acts);
    InvRun(INITIAL, acts);
    forall t: nat | t < |s.tasks|
      ensures Live(s, t) <==> s.tasks[t] == |s.tokens| - 1 && !s.tokens[|s.tokens| - 1] && !s.parent
    {
      LiveExact(acts, t);
    }
    if t: nat, u: nat :| t < u < |s.tasks| && s.tasks[t] == s.tasks[u] == |s.tokens| - 1 {
      assert !s.parent && !s.tokens[|s.tokens| - 1] ==> Live(s, t) && Live(s, u);
    }
  }

  /** In every run, a spawn about to read the token back starts one task if and only if it finds
      instruments; the task holds the token stored then, and is live if and only if no disconnect
      has reached that or the parent. A spawn's earlier steps start and stop nothing else: the
      first stores a token that is not cancelled, the second cancels the one it displaced. */
  lemma SpawnExact(acts: seq<Action>, i: nat, empty: bool)
    requires i < |Exec(INITIAL, acts).spawns|
    ensures var s, s' := Exec(INITIAL, acts), Apply(Exec(INITIAL, acts), Step(i, empty));
            && s.tokens != [] && s'.parent == s.parent && |s'.spawns| == |s.spawns|
            && (s.spawns[i].Begun? ==>
                  && s'.tokens == s.tokens + [false] && s'.tasks == s.tasks
                  && s'.spawns[i] == Replaced(|s.tokens| - 1))
            && (s.spawns[i].Replaced? && s.spawns[i].displaced < |s.tokens| ==>
                  && |s'.tokens| == |s.tokens| && s'.tasks == s.tasks && s'.spawns[i].Cleared?
                  && forall k | 0 <= k < |s.tokens| :: s'.tokens[k] == (k == s.spawns[i].displaced || s.tokens[k]))
            && (s.spawns[i].Cleared? ==>
                  && s'.tokens == s.tokens && s'.spawns[i].Done?
                  && (empty ==> s'.tasks == s.tasks)
                  && (!empty ==>
                        && |s'.tasks| == |s.tasks| + 1 && s'.tasks[..|s.tasks|] == s.tasks
                        && (Live(s', |s.tasks|) <==> !s.tokens[|s.tokens| - 1] && !s.parent)))
  {
    InvRun(INITIAL, acts);
  }

  lemma {:induction false} ParentStays(s: State, acts: seq<Action>)
    requires s.parent
    ensures Exec(s, acts).parent
    decreases acts
  {
    if acts != [] {
      ParentStays(Apply(s, acts[0]), acts[1..]);
    }
  }

  /** A disconnect leaves no live task, ever: cancelling the stored token stops the task that holds it
      once no displaced token is left to cancel, and cancelling the parent all tasks for good. */
  lemma DisconnectStopsAll(acts: seq<Action>, after: seq<Action>, t: nat)
    ensures Settled(Exec(INITIAL, acts)) ==> !Live(Apply(Exec(INITIAL, acts), CancelStored), t)
    ensures !Live(Exec(Apply(Exec(INITIAL, acts), CancelParent), after), t)
  {
    InvRun(INITIAL, acts);
    ParentStays(Apply(Exec(INITIAL, acts), CancelParent), after);
  }

  // ----- Spawns that do not overlap

  ghost predicate AllDone(s: State) {
    forall i | 0 <= i < |s.spawns| :: s.spawns[i].Done?
  }

  /** A spawn only starts once every earlier one is done; anything else may happen at any time. */
  ghost predicate Sequential(s: State, acts: seq<Action>)
    decreases acts
  {
    acts == [] || ((acts[0].Start? ==> AllDone(s)) && Sequential(Apply(s, acts[0]), acts[1..]))
  }

  /** What the last spawn is up to; `Done` before there is one. */
  function Current(s: State): Spawn {
    if s.spawns == [] then Done else s.spawns[|s.spawns| - 1]
  }

  /** Only the last spawn is under way. Tasks hold ever newer tokens, none the stored one while
      its spawn has yet to read it back, and every token is cancelled but the stored one and
      the one whose cancellation is due next. */
  ghost predicate OneAtATime(s: State) {
    && (forall i | 0 <= i < |s.spawns| - 1 :: s.spawns[i].Done?)
    && s.tokens != []
    && (forall t | 0 <= t < |s.tasks| :: s.tasks[t] < |s.tokens|)
    && (forall t, u | 0 <= t < u < |s.tasks| :: s.tasks[t] < s.tasks[u])
    && (Current(s).Replaced? ==> Current(s).displaced == |s.tokens| - 2)
    && (Current(s).Replaced? || Current(s).Cleared? ==> forall t | 0 <= t < |s.tasks| :: s.tasks[t] < |s.tokens| - 1)
    && (forall k | 0 <= k < |s.tokens| - 1 :: s.tokens[k] || Current(s) == Replaced(k))
  }

  lemma OneAtATimeStep(s: State, a: Action)
    requires OneAtATime(s) && (a.Start? ==> AllDone(s))
    ensures OneAtATime(Apply(s, a))
  {
  }

  lemma {:induction false} OneAtATimeRun(s: State, acts: seq<Action>)
    requires OneAtATime(s) && Sequential(s, acts)
    ensures OneAtATime(Exec(s, acts))
    decreases acts
  {
    if acts != [] {
      OneAtATimeStep(s, acts[0]);
      OneAtATimeRun(Apply(s, acts[0]), acts[1..]);
    }
  }

  /** Spawns that do not overlap leave at most one live price task, in every state and not only
      between them, wherever disconnects fall. */
  lemma NonOverlappingSpawns(acts: seq<Action>)
    requires Sequential(INITIAL, acts)
    ensures AtMostOneLive(Exec(INITIAL, acts))
  {
    OneAtATimeRun(INITIAL, acts);
  }

  /** Overlapping spawns can leave two: both replace the token before either reads it back. */
  lemma OverlapLeavesTwo()
    ensures var s := Exec(INITIAL, [Start, Start, Step(0, false), Step(1, false), Step(0, false), Step(1, false),
                                    Step(0, false), Step(1, false)]);
            Settled(s) && Live(s, 0) && Live(s, 1)
  {
  }
}

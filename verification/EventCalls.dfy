/** What connect, reconnect and disconnect calls come to (crates/oanda/src/streaming.rs), however
    many of them overlap: what each spawns, what a disconnect stops, and what a reconnect reuses.
 */
module EventCalls {
  import opened Sequences
  import opened EventProtocol
  import EventChannels

  // ----- What has been spawned, counted by the calls

  /** The connect calls that have written the slot. */
  ghost function SlotWriters(calls: seq<Call>): set<int> {
    set i | 0 <= i < |calls| && calls[i].Connecting?
            && (calls[i].pc.SpawnPoll? || calls[i].pc.SpawnTransactions? || calls[i].pc.ConnectDone?)
  }

  /** The connect calls for candles that are past the poll spawn. */
  ghost function PollSpawners(calls: seq<Call>): set<int> {
    set i | 0 <= i < |calls| && calls[i].Connecting? && calls[i].wantsCandles
            && (calls[i].pc.SpawnTransactions? || calls[i].pc.ConnectDone?)
  }

  /** The connect calls that are done. */
  ghost function StreamSpawners(calls: seq<Call>): set<int> {
    set i | 0 <= i < |calls| && calls[i].Connecting? && calls[i].pc.ConnectDone?
  }

  /** Every connect call has written the slot once, spawned a candle poll if and only if it wants
      candles, and spawned a transaction stream, as far as it has come. */
  ghost predicate Tallied(s: State) {
    && s.channels == |SlotWriters(s.calls)|
    && |s.pollTokens| == 1 + |PollSpawners(s.calls)|
    && |s.txTokens| == 1 + |StreamSpawners(s.calls)|
  }

  lemma NewCall(calls: seq<Call>, call: Call)
    requires call.Connecting? ==> call.pc.StoreConfig?
    ensures SlotWriters(calls + [call]) == SlotWriters(calls)
    ensures PollSpawners(calls + [call]) == PollSpawners(calls)
    ensures StreamSpawners(calls + [call]) == StreamSpawners(calls)
  {
  }

  lemma CallMoves(calls: seq<Call>, i: nat, call: Call)
    requires i < |calls| && call.Connecting? == calls[i].Connecting?
    ensures var after := calls[i := call];
            && SlotWriters(after) - {i} == SlotWriters(calls) - {i}
            && PollSpawners(after) - {i} == PollSpawners(calls) - {i}
            && StreamSpawners(after) - {i} == StreamSpawners(calls) - {i}
  {
  }

  lemma Joins(a: set<int>, b: set<int>, i: int)
    requires a - {i} == b - {i}
    ensures i in a && i !in b ==> |a| == |b| + 1
    ensures (i in a <==> i in b) ==> a == b
  {
    forall x | x != i
      ensures x in a <==> x in b
    {
      assert (x in a <==> x in a - {i}) && (x in b <==> x in b - {i});
    }
    if i in a && i !in b {
      assert a == b + {i};
    }
  }

  lemma ConnectTallied(s: State, i: nat)
    requires Tallied(s) && i < |s.calls| && s.calls[i].Connecting? && s.pollTokens != [] && s.txTokens != []
    ensures Tallied(AdvanceConnect(s, i))
  {
    var after := AdvanceConnect(s, i).calls;
    CallMoves(s.calls, i, after[i]);
    assert after == s.calls[i := after[i]];
    Joins(SlotWriters(after), SlotWriters(s.calls), i);
    Joins(PollSpawners(after), PollSpawners(s.calls), i);
    Joins(StreamSpawners(after), StreamSpawners(s.calls), i);
  }

  lemma DisconnectTallied(s: State, i: nat)
    requires Tallied(s) && i < |s.calls| && s.calls[i].Disconnecting?
    ensures Tallied(AdvanceDisconnect(s, i))
  {
    var after := AdvanceDisconnect(s, i).calls;
    CallMoves(s.calls, i, after[i]);
    assert after == s.calls[i := after[i]];
    Joins(SlotWriters(after), SlotWriters(s.calls), i);
    Joins(PollSpawners(after), PollSpawners(s.calls), i);
    Joins(StreamSpawners(after), StreamSpawners(s.calls), i);
  }

  lemma AdvanceTallied(s: State, i: nat)
    requires Tallied(s) && s.pollTokens != [] && s.txTokens != []
    ensures Tallied(Apply(s, Advance(i)))
  {
    if i < |s.calls| {
      if s.calls[i].Connecting? { ConnectTallied(s, i); } else { DisconnectTallied(s, i); }
    }
  }

  lemma TalliedStep(s: State, a: Action)
    requires Tallied(s) && s.pollTokens != [] && s.txTokens != []
    ensures Tallied(Apply(s, a))
  {
    match a {
      case StartConnect(wants) => NewCall(s.calls, Connecting(wants, StoreConfig));
      case StartReconnect => if s.stored.Some? { NewCall(s.calls, Connecting(s.stored.value, StoreConfig)); }
      case StartDisconnect => NewCall(s.calls, Disconnecting(CancelPoll));
      case Advance(i) => AdvanceTallied(s, i);
      case _ => SameCalls(s, a);
    }
  }

  lemma SameCalls(s: State, a: Action)
    requires !a.StartConnect? && !a.StartReconnect? && !a.StartDisconnect? && !a.Advance?
    ensures var s' := Apply(s, a);
            && s'.calls == s.calls && s'.channels == s.channels && s'.stored == s.stored
            && s'.pollTokens == s.pollTokens && s'.txTokens == s.txTokens && s'.parent == s.parent
  {
  }

  lemma {:induction false} TalliedExec(s: State, acts: seq<Action>)
    requires Inv(s) && Tallied(s)
    ensures Tallied(Exec(s, acts))
    decreases acts
  {
    if acts != [] {
      TalliedStep(s, acts[0]);
      InvStep(s, acts[0]);
      TalliedExec(Apply(s, acts[0]), acts[1..]);
    }
  }

  /** In every run, whatever overlaps: as many channels as calls that wrote the slot, as many candle
      polls as calls that wanted candles and came to spawn one, as many transaction streams as
      connects completed. */
  lemma CallsTallied(cap: nat, acts: seq<Action>)
    ensures Tallied(Run(cap, acts))
  {
    RunInv(cap, []);
    assert SlotWriters([]) == {} && PollSpawners([]) == {} && StreamSpawners([]) == {};
    TalliedExec(Init(cap), acts);
  }

  // ----- Calls with nothing in between

  lemma ExecFive(s: State, a: Action, b: Action, c: Action, d: Action, e: Action)
    ensures Exec(s, [a] + ([b] + [c] + [d] + [e])) == Apply(Apply(Apply(Apply(Apply(s, a), b), c), d), e)
  {
    ExecSplit(s, [a], [b] + [c] + [d] + [e]);
    ExecOne(s, a);
    ExecFour(Apply(s, a), b, c, d, e);
  }

  lemma FirstSteps(s: State, wants: bool)
    requires !SlotBusy(s)
    ensures var n := |s.calls|; var s' := Apply(Apply(Apply(s, StartConnect(wants)), Advance(n)), Advance(n));
            s' == s.(stored := Some(wants), slot := Some(s.channels), channels := s.channels + 1,
                     calls := s.calls + [Connecting(wants, SpawnPoll)])
  {
    var n := |s.calls|;
    var s1 := Apply(s, StartConnect(wants));
    assert s1.calls[n := Connecting(wants, WriteSlot)] == s.calls + [Connecting(wants, WriteSlot)];
    var s2 := Apply(s1, Advance(n));
    assert s2.calls[n := Connecting(wants, SpawnPoll)] == s.calls + [Connecting(wants, SpawnPoll)];
  }

  lemma LastSteps(s: State, calls: seq<Call>, wants: bool)
    requires s.calls == calls + [Connecting(wants, SpawnPoll)]
    ensures var n := |calls|; var s' := Apply(Apply(s, Advance(n)), Advance(n));
            s' == s.(pollTokens := if wants then Respawn(s.pollTokens) else s.pollTokens,
                     txTokens := Respawn(s.txTokens), calls := calls + [Connecting(wants, ConnectDone)])
  {
    var n := |calls|;
    assert s.calls[n := Connecting(wants, SpawnTransactions)] == calls + [Connecting(wants, SpawnTransactions)];
    var s1 := Apply(s, Advance(n));
    assert s1.calls[n := Connecting(wants, ConnectDone)] == calls + [Connecting(wants, ConnectDone)];
  }

  /** A connect with nothing in between, from every state a run can reach: a new channel in the slot, a
      live transaction stream, a live candle poll exactly if candles were wanted, and every
      stream and poll of before cancelled. */
  lemma ConnectAlone(cap: nat, acts: seq<Action>, wants: bool)
    requires !SlotBusy(Run(cap, acts))
    ensures var s := Run(cap, acts); var n := |s.calls|;
            var s' := Exec(s, [StartConnect(wants)] + ([Advance(n)] + [Advance(n)] + [Advance(n)] + [Advance(n)]));
            && s'.slot == Some(s.channels) && s'.stored == Some(wants) && s'.parent == s.parent
            && s'.calls == s.calls + [Connecting(wants, ConnectDone)]
            && |s'.txTokens| == |s.txTokens| + 1 && !s'.txTokens[|s.txTokens|]
            && CancelledUpTo(s'.txTokens, |s.txTokens|)
            && (wants ==> |s'.pollTokens| == |s.pollTokens| + 1 && !s'.pollTokens[|s.pollTokens|]
                          && CancelledUpTo(s'.pollTokens, |s.pollTokens|))
            && (!wants ==> s'.pollTokens == s.pollTokens)
  {
    var s := Run(cap, acts);
    var n := |s.calls|;
    RunInv(cap, acts);
    ExecFive(s, StartConnect(wants), Advance(n), Advance(n), Advance(n), Advance(n));
    FirstSteps(s, wants);
    LastSteps(Apply(Apply(Apply(s, StartConnect(wants)), Advance(n)), Advance(n)), s.calls, wants);
  }

  /** A disconnect with nothing in between cancels every poll, every stream and the parent. */
  lemma DisconnectAlone(cap: nat, acts: seq<Action>)
    ensures var s := Run(cap, acts); var n := |s.calls|;
            var s' := Exec(s, [StartDisconnect] + [Advance(n)] + [Advance(n)] + [Advance(n)]);
            && s'.parent && s'.calls == s.calls + [Disconnecting(DisconnectDone)]
            && |s'.pollTokens| == |s.pollTokens| && CancelledUpTo(s'.pollTokens, |s.pollTokens|)
            && |s'.txTokens| == |s.txTokens| && CancelledUpTo(s'.txTokens, |s.txTokens|)
  {
    var s := Run(cap, acts);
    var n := |s.calls|;
    RunInv(cap, acts);
    ExecFour(s, StartDisconnect, Advance(n), Advance(n), Advance(n));
    var s1 := Apply(s, StartDisconnect);
    assert s1.calls[n := Disconnecting(CancelTransactions)] == s.calls + [Disconnecting(CancelTransactions)];
    var s2 := Apply(s1, Advance(n));
    assert s2.calls[n := Disconnecting(CancelParent)] == s.calls + [Disconnecting(CancelParent)];
    var s3 := Apply(s2, Advance(n));
    assert s3.calls[n := Disconnecting(DisconnectDone)] == s.calls + [Disconnecting(DisconnectDone)];
  }

  // ----- What a disconnect stops

  /** All tokens up to the n-th are cancelled. */
  ghost predicate CancelledUpTo(tokens: seq<bool>, n: nat) {
    n <= |tokens| && forall g | 0 <= g < n :: tokens[g]
  }

  lemma TokensStay(s: State, a: Action)
    requires !a.Advance?
    ensures var s' := Apply(s, a);
            s'.pollTokens == s.pollTokens && s'.txTokens == s.txTokens && s'.parent == s.parent
  {
  }

  lemma StaysCancelled(s: State, a: Action, polls: nat, streams: nat)
    requires CancelledUpTo(s.pollTokens, polls) && CancelledUpTo(s.txTokens, streams)
    ensures CancelledUpTo(Apply(s, a).pollTokens, polls) && CancelledUpTo(Apply(s, a).txTokens, streams)
    ensures s.parent ==> Apply(s, a).parent
  {
    if !a.Advance? { TokensStay(s, a); }
  }

  lemma {:induction false} CancelledExec(s: State, acts: seq<Action>, polls: nat, streams: nat)
    requires CancelledUpTo(s.pollTokens, polls) && CancelledUpTo(s.txTokens, streams)
    ensures CancelledUpTo(Exec(s, acts).pollTokens, polls) && CancelledUpTo(Exec(s, acts).txTokens, streams)
    ensures s.parent ==> Exec(s, acts).parent
    decreases acts
  {
    if acts != [] {
      StaysCancelled(s, acts[0], polls, streams);
      CancelledExec(Apply(s, acts[0]), acts[1..], polls, streams);
    }
  }

  /** What a step of a disconnect cancels stays cancelled in every continuation: every candle poll
      there was at its first step, every transaction stream there was at its second, and the
      parent of all from its third. */
  lemma DisconnectStops(cap: nat, before: seq<Action>, i: nat, after: seq<Action>)
    requires var s := Run(cap, before); i < |s.calls| && s.calls[i].Disconnecting?
    ensures var s, s' := Run(cap, before), Run(cap, before + [Advance(i)] + after);
            && (s.calls[i].stage.CancelPoll? ==> CancelledUpTo(s'.pollTokens, |s.pollTokens|))
            && (s.calls[i].stage.CancelTransactions? ==> CancelledUpTo(s'.txTokens, |s.txTokens|))
            && (s.calls[i].stage.CancelParent? ==> s'.parent)
  {
    var s := Run(cap, before);
    RunInv(cap, before);
    ExecSplit(Init(cap), before + [Advance(i)], after);
    ExecSplit(Init(cap), before, [Advance(i)]);
    ExecOne(s, Advance(i));
    var polls := if s.calls[i].stage.CancelPoll? then |s.pollTokens| else 0;
    var streams := if s.calls[i].stage.CancelTransactions? then |s.txTokens| else 0;
    CancelledExec(Apply(s, Advance(i)), after, polls, streams);
  }

  // ----- What a reconnect reuses

  /** The action makes a connect call store its configuration. */
  predicate StoresConfig(s: State, a: Action) {
    a.Advance? && a.call < |s.calls| && s.calls[a.call].Connecting? && s.calls[a.call].pc.StoreConfig?
  }

  ghost predicate NoneStores(s: State, acts: seq<Action>)
    decreases acts
  {
    acts == [] || (!StoresConfig(s, acts[0]) && NoneStores(Apply(s, acts[0]), acts[1..]))
  }

  lemma StoredStays(s: State, a: Action)
    requires !StoresConfig(s, a)
    ensures Apply(s, a).stored == s.stored
  {
  }

  lemma {:induction false} StoredKept(s: State, acts: seq<Action>)
    requires NoneStores(s, acts)
    ensures Exec(s, acts).stored == s.stored
    decreases acts
  {
    if acts != [] {
      StoredStays(s, acts[0]);
      StoredKept(Apply(s, acts[0]), acts[1..]);
    }
  }

  /** A reconnect is a connect with the wish for candles of whichever call stored its
      configuration last; before any did, it does nothing. */
  lemma ReconnectReuses(cap: nat, before: seq<Action>, a: Action, after: seq<Action>)
    requires StoresConfig(Run(cap, before), a) && NoneStores(Run(cap, before + [a]), after)
    ensures var s := Run(cap, before + [a] + after);
            Apply(s, StartReconnect).calls
            == s.calls + [Connecting(Run(cap, before).calls[a.call].wantsCandles, StoreConfig)]
  {
    ExecSplit(Init(cap), before + [a], after);
    ExecSplit(Init(cap), before, [a]);
    ExecOne(Run(cap, before), a);
    StoredKept(Run(cap, before + [a]), after);
  }

  lemma NothingToReconnect(cap: nat, acts: seq<Action>)
    requires NoneStores(Init(cap), acts)
    ensures Apply(Run(cap, acts), StartReconnect) == Run(cap, acts)
  {
    StoredKept(Init(cap), acts);
  }

  // ----- Who goes on to publish

  /** In every run, a sighting that checks the slot gives up if and only if it is a REST call and
      no connect has ever written it; else it goes on to claim, or to send if it has nothing to claim. */
  lemma CheckDeclinesExact(cap: nat, acts: seq<Action>, j: nat)
    requires var s := Run(cap, acts); j < |s.jobs| && s.jobs[j].phase.Arrived?
    ensures var s := Run(cap, acts); var job := Apply(s, CheckSlot(j)).jobs[j];
            && job.source == s.jobs[j].source
            && (job.phase.Declined? <==> job.source.Rest? && SlotWriters(s.calls) == {})
            && (!job.phase.Declined? ==>
                  if Ids(job.source) == [] then job.phase == Sending(|s.log|, 0, None) else job.phase.Connected?)
  {
    var s := Run(cap, acts);
    RunInv(cap, acts);
    CallsTallied(cap, acts);
    EventChannels.RunChannels(cap, acts);
    assert EventProtocol.JobOk(s, j);
  }

  /** In every run, a generation takes the next line if and only if it is the newest, nothing has
      cancelled it or the parent, and it is done with every line before. */
  lemma TakesLineExact(cap: nat, acts: seq<Action>, g: nat, line: Line)
    ensures var s := Run(cap, acts);
            Apply(s, LineArrives(g, line)).jobs ==
            if && 0 < g == |s.txTokens| - 1 && !s.txTokens[g] && !s.parent
               && forall j | 0 <= j < |s.jobs| && Of(s.jobs[j], g) :: Finished(s.jobs[j])
            then s.jobs + [Job(Stream(g, line), Arrived)] else s.jobs
  {
    RunInv(cap, acts);
    var s := Run(cap, acts);
    assert g < |s.txTokens| - 1 ==> s.txTokens[g];
  }
}

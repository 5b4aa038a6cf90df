/** The OANDA exactly-once event protocol as a transition system
    (crates/oanda/src/adapter.rs, crates/oanda/src/streaming.rs).

    A synchronous fill or cancel reaches the gateway twice, in the REST order
    response and on the transaction stream. Each sighting is a `Job`: it checks
    that a strategy channel is connected, claims its transaction ids, and, if it
    wins, sends its frames one at a time. Jobs of REST calls run concurrently; a
    stream generation works on one line at a time; connect, reconnect and
    disconnect calls replace and cancel the generations' tokens meanwhile.

    `Apply` performs one atomic action and is the identity where the action is not
    enabled, so a run is any sequence of actions and every theorem about
    `Run(cap, acts)` is about every interleaving.
 */
module EventProtocol {
  import opened Sequences
  import opened ClaimSet

  // ----- What a sighting publishes

  datatype Part = OrderFrame | TradeFrame | FinancingFrame | AccountFrame

  /** A frame on the strategy channel and the transaction it is about, if the line named one. */
  datatype Frame = Frame(tx: Option<Id>, part: Part)

  /** A parsed line of the transaction stream. `financing` and `account` say whether the
      fill settles carry and whether its account snapshot could be fetched. Other
      lines are published without a claim; `frames` of them. */
  datatype Line =
    | FillLine(id: Option<Id>, financing: bool, account: bool)
    | CancelLine(id: Option<Id>)
    | OtherLine(frames: nat)

  /** A REST order response that filled the order at once (perhaps partially, perhaps
      with a cancel of the remainder), or cancelled it at once. */
  datatype Response =
    | FillResponse(fill: Id, cancel: Option<Id>, partial: bool, financing: bool, account: bool)
    | CancelResponse(cancelled: Id)

  datatype Source = Rest(response: Response) | Stream(generation: nat, line: Line)

  /** The transaction ids a sighting has to claim, all or none. */
  function Ids(source: Source): seq<Id> {
    match source
    case Rest(FillResponse(f, Some(c), _, _, _)) => [f, c]
    case Rest(FillResponse(f, None, _, _, _)) => [f]
    case Rest(CancelResponse(c)) => [c]
    case Stream(_, FillLine(Some(f), _, _)) => [f]
    case Stream(_, CancelLine(Some(c))) => [c]
    case _ => []
  }

  function FillFrames(tx: Option<Id>, financing: bool): seq<Frame> {
    [Frame(tx, OrderFrame), Frame(tx, TradeFrame)] + if financing then [Frame(tx, FinancingFrame)] else []
  }

  /** The frames a sighting sends once it owns its ids, in order. */
  function Plan(source: Source): seq<Frame> {
    match source
    case Rest(FillResponse(f, c, partial, financing, account)) =>
      FillFrames(Some(f), financing)
      + (if partial && c.Some? then [Frame(c, OrderFrame)] else [])
      + (if account then [Frame(Some(f), AccountFrame)] else [])
    case Rest(CancelResponse(c)) => [Frame(Some(c), OrderFrame)]
    case Stream(_, FillLine(f, financing, account)) =>
      FillFrames(f, financing) + (if account then [Frame(f, AccountFrame)] else [])
    case Stream(_, CancelLine(c)) => [Frame(c, OrderFrame)]
    case Stream(_, OtherLine(n)) => seq(n, _ => Frame(None, OrderFrame))
  }

  // ----- State

  /** Where a job stands. `at` is the length of the claim log when it tried to claim;
      `next` is how many of its frames it has sent; `sender` is the channel a REST call
      keeps for its account snapshot while it fetches the account. */
  datatype Phase = Arrived | Connected | Declined | Lost(at: nat) | Sending(at: nat, next: nat, sender: Option<nat>)

  datatype Job = Job(source: Source, phase: Phase)

  predicate Finished(job: Job) {
    job.phase.Declined? || job.phase.Lost? || (job.phase.Sending? && job.phase.next >= |Plan(job.source)|)
  }

  /** The job's next frame is an account snapshot of the REST path, sent on a channel kept from before. */
  predicate KeepsSender(job: Job) {
    job.phase.Sending? && !Finished(job) && job.source.Rest? && Plan(job.source)[job.phase.next].part.AccountFrame?
  }

  /** A REST call is between two frames of a fill, which it sends under one read lock on the slot. */
  predicate MidFill(job: Job) {
    && job.phase.Sending? && job.source.Rest? && job.source.response.FillResponse?
    && 0 < job.phase.next < |FillFrames(Some(job.source.response.fill), job.source.response.financing)|
  }

  /** A send: which job's frame, on which channel, and whether a receiver was still there to take it. */
  datatype Sent = Sent(job: nat, frame: Frame, channel: Option<nat>, delivered: bool)

  datatype ConnectPc = StoreConfig | WriteSlot | SpawnPoll | SpawnTransactions | ConnectDone

  datatype DisconnectPc = CancelPoll | CancelTransactions | CancelParent | DisconnectDone

  /** A connect, reconnect or disconnect call in progress. */
  datatype Call = Connecting(wantsCandles: bool, pc: ConnectPc) | Disconnecting(stage: DisconnectPc)

  /** The tokens are a sequence of cancelled flags; the last is the one currently
      stored, and number g > 0 belongs to the g-th generation spawned. `owners` names
      the job behind each entry of the claim log. */
  datatype State = State(
    cap: nat,
    slot: Option<nat>,
    channels: nat,
    stored: Option<bool>,
    calls: seq<Call>,
    txTokens: seq<bool>,
    pollTokens: seq<bool>,
    parent: bool,
    jobs: seq<Job>,
    log: seq<Id>,
    owners: seq<nat>,
    sent: seq<Sent>)

  function Init(cap: nat): State {
    State(cap, None, 0, None, [], [false], [false], false, [], [], [], [])
  }

  // ----- Actions

  datatype Action =
    | StartConnect(wantsCandles: bool)
    | StartReconnect
    | StartDisconnect
    | Advance(call: nat)
    | RestArrives(response: Response)
    | LineArrives(generation: nat, line: Line)
    | CheckSlot(job: nat)
    | Claim(job: nat)
    | TakeSender(job: nat)
    | Send(job: nat, delivered: bool)

  function CancelLast(tokens: seq<bool>): seq<bool> {
    if tokens == [] then tokens else tokens[|tokens| - 1 := true]
  }

  /** Cancel the stored token and store a fresh one, under the same write lock. */
  function Respawn(tokens: seq<bool>): seq<bool> {
    CancelLast(tokens) + [false]
  }

  function AdvanceConnect(s: State, i: nat): State
    requires i < |s.calls| && s.calls[i].Connecting?
  {
    var c := s.calls[i];
    match c.pc
    case StoreConfig =>
      s.(stored := Some(c.wantsCandles), calls := s.calls[i := c.(pc := WriteSlot)])
    case WriteSlot =>
      s.(slot := Some(s.channels), channels := s.channels + 1, calls := s.calls[i := c.(pc := SpawnPoll)])
    case SpawnPoll =>
      s.(pollTokens := if c.wantsCandles then Respawn(s.pollTokens) else s.pollTokens,
         calls := s.calls[i := c.(pc := SpawnTransactions)])
    case SpawnTransactions =>
      s.(txTokens := Respawn(s.txTokens), calls := s.calls[i := c.(pc := ConnectDone)])
    case ConnectDone => s
  }

  function AdvanceDisconnect(s: State, i: nat): State
    requires i < |s.calls| && s.calls[i].Disconnecting?
  {
    match s.calls[i].stage
    case CancelPoll =>
      s.(pollTokens := CancelLast(s.pollTokens), calls := s.calls[i := Disconnecting(CancelTransactions)])
    case CancelTransactions =>
      s.(txTokens := CancelLast(s.txTokens), calls := s.calls[i := Disconnecting(CancelParent)])
    case CancelParent =>
      s.(parent := true, calls := s.calls[i := Disconnecting(DisconnectDone)])
    case DisconnectDone => s
  }

  /** Generation g has been spawned, neither its token nor the parent's is cancelled,
      and it is not still working on an earlier line. */
  predicate CanTakeLine(s: State, g: nat) {
    && 0 < g < |s.txTokens| && !s.txTokens[g] && !s.parent
    && forall j | 0 <= j < |s.jobs| && Of(s.jobs[j], g) :: Finished(s.jobs[j])
  }

  predicate Of(job: Job, g: nat) {
    job.source.Stream? && job.source.generation == g
  }

  function WithPhase(s: State, j: nat, phase: Phase): State
    requires j < |s.jobs|
  {
    s.(jobs := s.jobs[j := s.jobs[j].(phase := phase)])
  }

  function DoCheck(s: State, j: nat): State
    requires j < |s.jobs|
  {
    WithPhase(s, j,
              if Ids(s.jobs[j].source) == [] then Sending(|s.log|, 0, None)
              else if s.slot.None? then Declined
              else Connected)
  }

  function DoClaim(s: State, j: nat): State
    requires j < |s.jobs|
  {
    var ids := Ids(s.jobs[j].source);
    if Claimable(s.cap, s.log, ids) then
      var log := Extend(s.cap, s.log, ids);
      WithPhase(s.(log := log, owners := s.owners + Repeat(j, |log| - |s.log|)), j, Sending(|s.log|, 0, None))
    else
      WithPhase(s, j, Lost(|s.log|))
  }

  function Repeat(j: nat, n: int): seq<nat> {
    if n <= 0 then [] else seq(n, _ => j)
  }

  function DoSend(s: State, j: nat, delivered: bool): State
    requires j < |s.jobs| && s.jobs[j].phase.Sending? && s.jobs[j].phase.next < |Plan(s.jobs[j].source)|
  {
    var phase := s.jobs[j].phase;
    var frame := Plan(s.jobs[j].source)[phase.next];
    var channel := if KeepsSender(s.jobs[j]) then phase.sender else s.slot;
    WithPhase(s.(sent := s.sent + [Sent(j, frame, channel, delivered && channel.Some?)]),
              j, phase.(next := phase.next + 1))
  }

  /** Some REST call holds the slot's read lock, so a connect cannot write the slot yet. */
  predicate SlotBusy(s: State) {
    exists j | 0 <= j < |s.jobs| :: MidFill(s.jobs[j])
  }

  predicate CanSend(job: Job) {
    job.phase.Sending? && !Finished(job) && (KeepsSender(job) ==> job.phase.sender.Some?)
  }

  function Apply(s: State, a: Action): State {
    match a
    case StartConnect(wants) => s.(calls := s.calls + [Connecting(wants, StoreConfig)])
    case StartReconnect =>
      if s.stored.Some? then s.(calls := s.calls + [Connecting(s.stored.value, StoreConfig)]) else s
    case StartDisconnect => s.(calls := s.calls + [Disconnecting(CancelPoll)])
    case Advance(i) =>
      if i >= |s.calls| then s
      else if s.calls[i].Connecting? then
        if s.calls[i].pc.WriteSlot? && SlotBusy(s) then s else AdvanceConnect(s, i)
      else AdvanceDisconnect(s, i)
    case RestArrives(r) => s.(jobs := s.jobs + [Job(Rest(r), Arrived)])
    case LineArrives(g, line) =>
      if CanTakeLine(s, g) then s.(jobs := s.jobs + [Job(Stream(g, line), Arrived)]) else s
    case CheckSlot(j) => if j < |s.jobs| && s.jobs[j].phase.Arrived? then DoCheck(s, j) else s
    case Claim(j) => if j < |s.jobs| && s.jobs[j].phase.Connected? then DoClaim(s, j) else s
    case TakeSender(j) =>
      if j < |s.jobs| && KeepsSender(s.jobs[j]) && s.jobs[j].phase.sender.None?
      then WithPhase(s, j, s.jobs[j].phase.(sender := s.slot)) else s
    case Send(j, delivered) => if j < |s.jobs| && CanSend(s.jobs[j]) then DoSend(s, j, delivered) else s
  }

  function Exec(s: State, acts: seq<Action>): State
    decreases acts
  {
    if acts == [] then s else Exec(Apply(s, acts[0]), acts[1..])
  }

  function Run(cap: nat, acts: seq<Action>): State {
    Exec(Init(cap), acts)
  }

  // ----- Invariants

  /** A stored channel from the first write on, in particular wherever a generation exists. */
  ghost predicate SlotOk(s: State) {
    && (|s.txTokens| > 1 ==> s.slot.Some?)
    && (forall i | 0 <= i < |s.calls| && PastSlot(s.calls[i]) :: s.slot.Some?)
    && (forall i | 0 <= i < |s.calls| && s.calls[i] == Disconnecting(DisconnectDone) :: s.parent)
  }

  predicate PastSlot(call: Call) {
    call.Connecting? && !call.pc.StoreConfig? && !call.pc.WriteSlot?
  }

  /** Every token but the stored one is cancelled. */
  ghost predicate TokensOk(tokens: seq<bool>) {
    tokens != [] && forall i | 0 <= i < |tokens| - 1 :: tokens[i]
  }

  /** Entry p of the log belongs to job j, which claimed `id` with it. */
  predicate Owned(s: State, j: nat, p: nat, id: Id) {
    p < |s.log| && p < |s.owners| && s.log[p] == id && s.owners[p] == j
  }

  /** Job j, before or after its claim, agrees with the log. */
  ghost predicate JobOk(s: State, j: nat)
    requires j < |s.jobs|
  {
    var job := s.jobs[j];
    && (job.source.Stream? ==> 0 < job.source.generation < |s.txTokens| && !job.phase.Declined?)
    && (job.phase.Lost? ==> job.phase.at <= |s.log| && !Claimable(s.cap, s.log[..job.phase.at], Ids(job.source)))
    && (job.phase.Sending? ==>
          && job.phase.next <= |Plan(job.source)|
          && job.phase.at <= |s.log|
          && Claimable(s.cap, s.log[..job.phase.at], Ids(job.source))
          && forall id | id in Ids(job.source) :: exists p: nat :: Owned(s, j, p, id))
  }

  /** Entry p of the log was made by the winning claim of the job it names, and so were
      all entries since that claim began. */
  ghost predicate EntryOk(s: State, p: nat)
    requires p < |s.log| == |s.owners|
  {
    var j := s.owners[p];
    && j < |s.jobs| && s.jobs[j].phase.Sending?
    && s.log[p] in Ids(s.jobs[j].source)
    && s.jobs[j].phase.at <= p
    && forall q | s.jobs[j].phase.at <= q <= p :: s.owners[q] == j
  }

  ghost predicate LogOk(s: State) {
    && |s.owners| == |s.log|
    && Spaced(s.cap, s.log)
    && (forall p: nat | p < |s.log| :: EntryOk(s, p))
    && (forall j: nat | j < |s.jobs| :: JobOk(s, j))
  }

  /** The frames of job j among the sends, in order. */
  function Trace(sent: seq<Sent>, j: nat): seq<Frame> {
    if sent == [] then []
    else
      var n := |sent| - 1;
      if sent[n].job == j then Trace(sent[..n], j) + [sent[n].frame] else Trace(sent[..n], j)
  }

  function Progress(job: Job): nat {
    if job.phase.Sending? then job.phase.next else 0
  }

  ghost predicate SentOk(s: State) {
    && (forall i | 0 <= i < |s.sent| :: s.sent[i].job < |s.jobs|)
    && (forall j: nat | j < |s.jobs| ::
          Progress(s.jobs[j]) <= |Plan(s.jobs[j].source)|
          && Trace(s.sent, j) == Plan(s.jobs[j].source)[..Progress(s.jobs[j])])
  }

  /** A generation works on one line at a time. */
  ghost predicate OneLineAtATime(s: State) {
    forall i, j, g: nat | 0 <= i < j < |s.jobs| && Of(s.jobs[i], g) && Of(s.jobs[j], g) :: Finished(s.jobs[i])
  }

  ghost predicate Inv(s: State) {
    && SlotOk(s) && TokensOk(s.txTokens) && TokensOk(s.pollTokens)
    && LogOk(s) && SentOk(s) && OneLineAtATime(s)
  }

  lemma {:induction false} TraceAppend(sent: seq<Sent>, r: Sent, j: nat)
    ensures Trace(sent + [r], j) == if r.job == j then Trace(sent, j) + [r.frame] else Trace(sent, j)
  {
    assert (sent + [r])[..|sent|] == sent;
  }

  lemma {:induction false} TraceNone(sent: seq<Sent>, j: nat)
    requires forall i | 0 <= i < |sent| :: sent[i].job != j
    ensures Trace(sent, j) == []
    decreases |sent|
  {
    if sent != [] {
      TraceNone(sent[..|sent| - 1], j);
    }
  }

  // ----- Calls leave the jobs alone

  lemma SameJobs(s: State, s': State)
    requires LogOk(s) && SentOk(s) && OneLineAtATime(s)
    requires s'.jobs == s.jobs && s'.log == s.log && s'.owners == s.owners && s'.sent == s.sent && s'.cap == s.cap
    requires |s'.txTokens| >= |s.txTokens|
    ensures LogOk(s') && SentOk(s') && OneLineAtATime(s')
  {
    forall j: nat | j < |s'.jobs|
      ensures JobOk(s', j)
    {
      assert JobOk(s, j);
      forall id, p: nat | Owned(s, j, p, id)
        ensures Owned(s', j, p, id)
      {}
    }
    forall p: nat | p < |s'.log|
      ensures EntryOk(s', p)
    {
      assert EntryOk(s, p);
    }
  }

  lemma ConnectStep(s: State, i: nat)
    requires Inv(s) && i < |s.calls| && s.calls[i].Connecting?
    ensures Inv(AdvanceConnect(s, i))
  {
    SameJobs(s, AdvanceConnect(s, i));
  }

  lemma DisconnectStep(s: State, i: nat)
    requires Inv(s) && i < |s.calls| && s.calls[i].Disconnecting?
    ensures Inv(AdvanceDisconnect(s, i))
  {
    SameJobs(s, AdvanceDisconnect(s, i));
  }

  // ----- Jobs

  /** Changing one job's phase leaves the other jobs and their log entries alone. */
  lemma OtherJobs(s: State, s': State, j: nat)
    requires LogOk(s) && j < |s.jobs| == |s'.jobs|
    requires s'.jobs == s.jobs[j := s'.jobs[j]] && s'.jobs[j].source == s.jobs[j].source
    requires s'.cap == s.cap && s'.txTokens == s.txTokens
    requires |s.log| <= |s'.log| && s'.log[..|s.log|] == s.log
    requires |s.owners| <= |s'.owners| && s'.owners[..|s.owners|] == s.owners
    ensures forall k: nat | k < |s.jobs| && k != j :: JobOk(s', k)
  {
    forall k: nat | k < |s.jobs| && k != j
      ensures JobOk(s', k)
    {
      assert JobOk(s, k);
      forall id, p: nat | Owned(s, k, p, id)
        ensures Owned(s', k, p, id)
      {
        assert s'.log[..|s.log|][p] == s.log[p] && s'.owners[..|s.owners|][p] == s.owners[p];
      }
      var phase := s.jobs[k].phase;
      if phase.Lost? || phase.Sending? {
        assert s'.log[..phase.at] == s'.log[..|s.log|][..phase.at] == s.log[..phase.at];
      }
    }
  }

  lemma ArriveLog(s: State, job: Job)
    requires LogOk(s) && job.phase.Arrived? && (job.source.Stream? ==> 0 < job.source.generation < |s.txTokens|)
    ensures LogOk(s.(jobs := s.jobs + [job]))
  {
    var s' := s.(jobs := s.jobs + [job]);
    forall j: nat | j < |s'.jobs|
      ensures JobOk(s', j)
    {
      if j < |s.jobs| {
        assert JobOk(s, j);
        forall id, p: nat | Owned(s, j, p, id)
          ensures Owned(s', j, p, id)
        {}
      }
    }
    forall p: nat | p < |s'.log|
      ensures EntryOk(s', p)
    {
      assert EntryOk(s, p);
    }
  }

  lemma ArriveStep(s: State, source: Source)
    requires Inv(s)
    requires source.Stream? ==> CanTakeLine(s, source.generation)
    ensures Inv(s.(jobs := s.jobs + [Job(source, Arrived)]))
  {
    ArriveLog(s, Job(source, Arrived));
    TraceNone(s.sent, |s.jobs|);
  }

  lemma CheckLog(s: State, j: nat)
    requires LogOk(s) && j < |s.jobs| && s.jobs[j].phase.Arrived?
    requires s.jobs[j].source.Stream? ==> s.slot.Some?
    ensures LogOk(DoCheck(s, j))
  {
    var s' := DoCheck(s, j);
    OtherJobs(s, s', j);
    assert JobOk(s, j);
    assert s.log[..|s.log|] == s.log;
    forall p: nat | p < |s'.log|
      ensures EntryOk(s', p)
    {
      assert EntryOk(s, p);
    }
  }

  lemma CheckStep(s: State, j: nat)
    requires Inv(s) && j < |s.jobs| && s.jobs[j].phase.Arrived?
    ensures Inv(DoCheck(s, j))
  {
    assert JobOk(s, j);
    CheckLog(s, j);
  }

  lemma ClaimWins(s: State, j: nat)
    requires LogOk(s) && j < |s.jobs| && s.jobs[j].phase.Connected?
    requires Claimable(s.cap, s.log, Ids(s.jobs[j].source))
    ensures LogOk(DoClaim(s, j))
  {
    var s' := DoClaim(s, j);
    var ids := Ids(s.jobs[j].source);
    ExtendSound(s.cap, s.log, ids);
    assert s'.log[..|s.log|] == s.log && s'.owners[..|s.owners|] == s.owners;
    OtherJobs(s, s', j);
    assert JobOk(s, j);
    forall id | id in ids
      ensures exists p: nat :: Owned(s', j, p, id)
    {
      var p: nat :| Logged(s'.log, |s.log|, p, id);
      assert Owned(s', j, p, id);
    }
    forall p: nat | p < |s'.log|
      ensures EntryOk(s', p)
    {
      if p < |s.log| {
        assert EntryOk(s, p);
        assert s'.log[p] == s'.log[..|s.log|][p];
      }
    }
  }

  lemma ClaimLoses(s: State, j: nat)
    requires LogOk(s) && j < |s.jobs| && s.jobs[j].phase.Connected?
    requires !Claimable(s.cap, s.log, Ids(s.jobs[j].source))
    ensures LogOk(DoClaim(s, j))
  {
    var s' := DoClaim(s, j);
    OtherJobs(s, s', j);
    assert JobOk(s, j);
    assert s.log[..|s.log|] == s.log;
    forall p: nat | p < |s'.log|
      ensures EntryOk(s', p)
    {
      assert EntryOk(s, p);
    }
  }

  lemma ClaimStep(s: State, j: nat)
    requires Inv(s) && j < |s.jobs| && s.jobs[j].phase.Connected?
    ensures Inv(DoClaim(s, j))
  {
    if Claimable(s.cap, s.log, Ids(s.jobs[j].source)) {
      ClaimWins(s, j);
    } else {
      ClaimLoses(s, j);
    }
  }

  lemma TakeSenderStep(s: State, j: nat)
    requires Inv(s) && j < |s.jobs| && KeepsSender(s.jobs[j])
    ensures Inv(WithPhase(s, j, s.jobs[j].phase.(sender := s.slot)))
  {
    var s' := WithPhase(s, j, s.jobs[j].phase.(sender := s.slot));
    OtherJobs(s, s', j);
    assert JobOk(s, j);
    forall id, p: nat | Owned(s, j, p, id)
      ensures Owned(s', j, p, id)
    {}
    forall p: nat | p < |s'.log|
      ensures EntryOk(s', p)
    {
      assert EntryOk(s, p);
    }
  }

  lemma SendLog(s: State, j: nat, delivered: bool)
    requires LogOk(s) && j < |s.jobs| && s.jobs[j].phase.Sending? && !Finished(s.jobs[j])
    ensures LogOk(DoSend(s, j, delivered))
  {
    var s' := DoSend(s, j, delivered);
    OtherJobs(s, s', j);
    assert JobOk(s, j);
    forall id, p: nat | Owned(s, j, p, id)
      ensures Owned(s', j, p, id)
    {}
    forall p: nat | p < |s'.log|
      ensures EntryOk(s', p)
    {
      assert EntryOk(s, p);
    }
  }

  lemma SendTrace(s: State, j: nat, delivered: bool)
    requires SentOk(s) && j < |s.jobs| && s.jobs[j].phase.Sending? && !Finished(s.jobs[j])
    ensures SentOk(DoSend(s, j, delivered))
  {
    var s' := DoSend(s, j, delivered);
    var r := s'.sent[|s.sent|];
    forall k: nat | k < |s'.jobs|
      ensures Progress(s'.jobs[k]) <= |Plan(s'.jobs[k].source)|
      ensures Trace(s'.sent, k) == Plan(s'.jobs[k].source)[..Progress(s'.jobs[k])]
    {
      TraceAppend(s.sent, r, k);
      var plan, n := Plan(s.jobs[k].source), Progress(s.jobs[k]);
      if k == j {
        Snoc(plan[..n + 1]);
        assert plan[..n + 1][..n] == plan[..n];
      }
    }
  }

  lemma SendStep(s: State, j: nat, delivered: bool)
    requires Inv(s) && j < |s.jobs| && s.jobs[j].phase.Sending? && !Finished(s.jobs[j])
    ensures Inv(DoSend(s, j, delivered))
  {
    SendLog(s, j, delivered);
    SendTrace(s, j, delivered);
  }

  /** Every action preserves the invariant. */
  lemma InvStep(s: State, a: Action)
    requires Inv(s)
    ensures Inv(Apply(s, a))
  {
    match a {
      case StartConnect(_) => SameJobs(s, Apply(s, a));
      case StartReconnect => SameJobs(s, Apply(s, a));
      case StartDisconnect => SameJobs(s, Apply(s, a));
      case Advance(i) =>
        if i < |s.calls| {
          if s.calls[i].Connecting? { ConnectStep(s, i); } else { DisconnectStep(s, i); }
        }
      case RestArrives(r) => ArriveStep(s, Rest(r));
      case LineArrives(g, line) => if CanTakeLine(s, g) { ArriveStep(s, Stream(g, line)); }
      case CheckSlot(j) => if Apply(s, a) != s { CheckStep(s, j); }
      case Claim(j) => if Apply(s, a) != s { ClaimStep(s, j); }
      case TakeSender(j) => if Apply(s, a) != s { TakeSenderStep(s, j); }
      case Send(j, delivered) => if Apply(s, a) != s { SendStep(s, j, delivered); }
    }
  }

  lemma {:induction false} InvRun(s: State, acts: seq<Action>)
    requires Inv(s)
    ensures Inv(Exec(s, acts))
    decreases acts
  {
    if acts != [] {
      InvStep(s, acts[0]);
      InvRun(Apply(s, acts[0]), acts[1..]);
    }
  }

  lemma RunInv(cap: nat, acts: seq<Action>)
    ensures Inv(Run(cap, acts))
  {
    InvRun(Init(cap), acts);
  }

  // ----- At most once

  /** Job j tried to claim `id` when the log had `at` entries. */
  predicate Sighted(s: State, j: nat, id: Id) {
    j < |s.jobs| && id in Ids(s.jobs[j].source) && (s.jobs[j].phase.Lost? || s.jobs[j].phase.Sending?)
  }

  function SightedAt(s: State, j: nat, id: Id): nat
    requires Sighted(s, j, id)
  {
    s.jobs[j].phase.at
  }

  predicate Won(s: State, j: nat, id: Id) {
    Sighted(s, j, id) && s.jobs[j].phase.Sending?
  }

  /** From one sighting of `id` to any other, at most `cap` entries were logged: counting
      the id's own entry, fewer than `cap` others. */
  ghost predicate SeenClosely(s: State, id: Id) {
    forall a: nat, b: nat | Sighted(s, a, id) && Sighted(s, b, id) ::
      SightedAt(s, b, id) <= SightedAt(s, a, id) + s.cap
  }

  /** A job that wins an id another job owns does so more than `cap` log entries later. */
  lemma LaterOwner(s: State, a: nat, b: nat, id: Id, p: nat, q: nat)
    requires Inv(s) && Won(s, a, id) && Won(s, b, id) && a != b
    requires Owned(s, a, p, id) && Owned(s, b, q, id) && p < q
    ensures SightedAt(s, b, id) > SightedAt(s, a, id) + s.cap
  {
    assert EntryOk(s, p) && EntryOk(s, q);
    var at := s.jobs[b].phase.at;
    assert p < at;
    assert JobOk(s, b);
    InWindow(s.cap, s.log[..at], id);
    assert s.log[..at][p] == id;
  }

  lemma OneOwner(s: State, id: Id, a: nat, b: nat)
    requires Inv(s) && SeenClosely(s, id) && Won(s, a, id) && Won(s, b, id)
    ensures a == b
  {
    if a != b {
      assert JobOk(s, a) && JobOk(s, b);
      var p: nat :| Owned(s, a, p, id);
      var q: nat :| Owned(s, b, q, id);
      if p < q { LaterOwner(s, a, b, id, p, q); } else { LaterOwner(s, b, a, id, q, p); }
    }
  }

  lemma {:induction false} InTrace(sent: seq<Sent>, i: nat)
    requires i < |sent|
    ensures sent[i].frame in Trace(sent, sent[i].job)
    decreases |sent|
  {
    var n := |sent| - 1;
    if i < n {
      InTrace(sent[..n], i);
      assert sent[..n][i] == sent[i];
    }
  }

  /** Every frame on the channel about a transaction was sent by a job that won its claim. */
  lemma FrameOwner(s: State, i: nat, id: Id)
    requires Inv(s) && i < |s.sent| && s.sent[i].frame.tx == Some(id)
    ensures Won(s, s.sent[i].job, id)
  {
    var j := s.sent[i].job;
    InTrace(s.sent, i);
    assert Trace(s.sent, j) == Plan(s.jobs[j].source)[..Progress(s.jobs[j])];
    PlanClaimed(s.jobs[j].source, s.sent[i].frame);
  }

  lemma PlanClaimed(source: Source, frame: Frame)
    requires frame in Plan(source) && frame.tx.Some?
    ensures frame.tx.value in Ids(source)
  {
  }

  /** No response names one transaction both as its fill and as its cancel. */
  predicate PairDistinct(source: Source) {
    source.Rest? && source.response.FillResponse? ==> source.response.cancel != Some(source.response.fill)
  }

  ghost predicate Distinct(frames: seq<Frame>) {
    forall i, k | 0 <= i < k < |frames| :: frames[i] != frames[k]
  }

  lemma PlanDistinct(source: Source)
    requires PairDistinct(source) && Ids(source) != []
    ensures Distinct(Plan(source))
  {
  }

  lemma {:induction false} TraceDistinct(sent: seq<Sent>, i: nat, k: nat)
    requires i < k < |sent| && sent[i].job == sent[k].job
    requires Distinct(Trace(sent, sent[i].job))
    ensures sent[i].frame != sent[k].frame
    decreases |sent|
  {
    var n := |sent| - 1;
    var j := sent[i].job;
    var init := Trace(sent[..n], j);
    if k < n {
      assert sent[..n][i] == sent[i] && sent[..n][k] == sent[k];
      assert init == Trace(sent, j)[..|init|];
      TraceDistinct(sent[..n], i, k);
    } else {
      InTrace(sent[..n], i);
      assert sent[..n][i] == sent[i];
      var m :| 0 <= m < |init| && init[m] == sent[i].frame;
      assert Trace(sent, j)[m] == init[m] && Trace(sent, j)[|init|] == sent[k].frame;
    }
  }

  /** At most once: in every run, if a transaction is never seen again after more than
      `cap` log entries, all frames about it come from one publisher and none is repeated. */
  lemma AtMostOnce(cap: nat, acts: seq<Action>, id: Id, i: nat, k: nat)
    requires var s := Run(cap, acts);
             && SeenClosely(s, id)
             && (forall j | 0 <= j < |s.jobs| && id in Ids(s.jobs[j].source) :: PairDistinct(s.jobs[j].source))
             && i < k < |s.sent| && s.sent[i].frame.tx == Some(id) == s.sent[k].frame.tx
    ensures var s := Run(cap, acts); s.sent[i].job == s.sent[k].job && s.sent[i].frame != s.sent[k].frame
  {
    var s := Run(cap, acts);
    RunInv(cap, acts);
    FrameOwner(s, i, id);
    FrameOwner(s, k, id);
    var j := s.sent[i].job;
    OneOwner(s, id, j, s.sent[k].job);
    PlanDistinct(s.jobs[j].source);
    TraceDistinct(s.sent, i, k);
  }

  /** What decides a race, exactly: in every run, a sighting that tried to claim won if and
      only if none of its ids was among the last `cap` ids claimed before it. In particular
      a transaction seen again after `cap` further claims is published again. */
  lemma ClaimDecidesExact(cap: nat, acts: seq<Action>, j: nat)
    requires var s := Run(cap, acts);
             j < |s.jobs| && Ids(s.jobs[j].source) != [] && (s.jobs[j].phase.Lost? || s.jobs[j].phase.Sending?)
    ensures var s := Run(cap, acts); var job := s.jobs[j];
            && job.phase.at <= |s.log|
            && (job.phase.Sending? <==>
                forall p | 0 <= p < job.phase.at && job.phase.at - cap <= p :: s.log[p] !in Ids(job.source))
  {
    var s := Run(cap, acts);
    RunInv(cap, acts);
    CapKept(Init(cap), acts);
    assert JobOk(s, j);
    var before, ids := s.log[..s.jobs[j].phase.at], Ids(s.jobs[j].source);
    forall id | id in ids
      ensures id in Window(cap, before) <==> exists p :: 0 <= p < |before| && |before| - cap <= p && before[p] == id
    {
      InWindow(cap, before, id);
    }
    if s.jobs[j].phase.Lost? {
      var id :| id in ids && id in Window(cap, before);
      var p :| 0 <= p < |before| && |before| - cap <= p && before[p] == id;
      assert s.log[p] in ids;
    } else {
      forall p | 0 <= p < |before| && |before| - cap <= p
        ensures s.log[p] !in ids
      {
        assert before[p] == s.log[p];
      }
    }
  }

  lemma {:induction false} CapKept(s: State, acts: seq<Action>)
    ensures Exec(s, acts).cap == s.cap
    decreases acts
  {
    if acts != [] {
      CapKept(Apply(s, acts[0]), acts[1..]);
    }
  }

  // ----- A fill and its cancel

  /** Neither id of the pair is seen again after more than `cap` log entries. */
  ghost predicate PairSeenClosely(s: State, f: Id, c: Id) {
    SeenClosely(s, f) && SeenClosely(s, c)
  }

  predicate AboutPair(frame: Frame, f: Id, c: Id) {
    frame.tx == Some(f) || frame.tx == Some(c)
  }

  /** A synchronous fill and the cancel that came with it never split: once the REST call
      owns the pair nobody else publishes either; if anybody else won either, the REST
      call publishes neither; and it publishes the cancel only of a partial fill. */
  lemma PairNeverSplits(cap: nat, acts: seq<Action>, r: nat, f: Id, c: Id)
    requires var s := Run(cap, acts);
             && r < |s.jobs| && s.jobs[r].source.Rest? && s.jobs[r].source.response.FillResponse?
             && s.jobs[r].source.response.fill == f && s.jobs[r].source.response.cancel == Some(c) && f != c
             && PairSeenClosely(s, f, c)
    ensures var s := Run(cap, acts);
            forall i | 0 <= i < |s.sent| && AboutPair(s.sent[i].frame, f, c) ::
              s.sent[i].job == r <==> s.jobs[r].phase.Sending?
    ensures var s := Run(cap, acts);
            (exists j: nat :: j != r && (Won(s, j, f) || Won(s, j, c))) ==> !s.jobs[r].phase.Sending?
    ensures var s := Run(cap, acts);
            forall i | 0 <= i < |s.sent| && s.sent[i].job == r && s.sent[i].frame.tx == Some(c) ::
              s.jobs[r].source.response.partial
  {
    var s := Run(cap, acts);
    RunInv(cap, acts);
    forall i | 0 <= i < |s.sent| && AboutPair(s.sent[i].frame, f, c)
      ensures s.sent[i].job == r <==> s.jobs[r].phase.Sending?
    {
      var id := s.sent[i].frame.tx.value;
      FrameOwner(s, i, id);
      if s.jobs[r].phase.Sending? {
        OneOwner(s, id, s.sent[i].job, r);
      }
    }
    forall j: nat | j != r && (Won(s, j, f) || Won(s, j, c))
      ensures !s.jobs[r].phase.Sending?
    {
      if s.jobs[r].phase.Sending? {
        if Won(s, j, f) { OneOwner(s, f, j, r); } else { OneOwner(s, c, j, r); }
      }
    }
    forall i | 0 <= i < |s.sent| && s.sent[i].job == r && s.sent[i].frame.tx == Some(c)
      ensures s.jobs[r].source.response.partial
    {
      InTrace(s.sent, i);
      assert s.sent[i].frame in Plan(s.jobs[r].source);
    }
  }

  // ----- Exactly once

  /** The frames about a transaction that reached a live receiver, in order. */
  function Published(sent: seq<Sent>, id: Id): seq<Frame> {
    if sent == [] then []
    else
      var n := |sent| - 1;
      var r := sent[n];
      if r.frame.tx == Some(id) && r.delivered then Published(sent[..n], id) + [r.frame] else Published(sent[..n], id)
  }

  function About(frames: seq<Frame>, id: Id): seq<Frame> {
    if frames == [] then []
    else
      var n := |frames| - 1;
      if frames[n].tx == Some(id) then About(frames[..n], id) + [frames[n]] else About(frames[..n], id)
  }

  lemma {:induction false} PublishedByOne(sent: seq<Sent>, id: Id, j: nat)
    requires forall i | 0 <= i < |sent| && sent[i].frame.tx == Some(id) :: sent[i].job == j && sent[i].delivered
    ensures Published(sent, id) == About(Trace(sent, j), id)
    decreases |sent|
  {
    if sent != [] {
      var n := |sent| - 1;
      PublishedByOne(sent[..n], id, j);
      if sent[n].job == j {
        assert (Trace(sent[..n], j) + [sent[n].frame])[..|Trace(sent[..n], j)|] == Trace(sent[..n], j);
      }
    }
  }

  /** Every sighting of `id` sees it as a fill. */
  ghost predicate SeenAsFill(s: State, id: Id) {
    forall j | 0 <= j < |s.jobs| && id in Ids(s.jobs[j].source) :: NamesFill(s.jobs[j].source, id)
  }

  predicate NamesFill(source: Source, id: Id) {
    match source
    case Rest(FillResponse(f, c, _, _, _)) => f == id && c != Some(id)
    case Stream(_, FillLine(f, _, _)) => f == Some(id)
    case _ => false
  }

  /** What one publication of a fill is: its order and trade frames, its financing frame
      if it settles carry, and its account snapshot if one could be fetched. */
  function WholeFill(tx: Option<Id>, financing: bool, account: bool): seq<Frame> {
    match (financing, account)
    case (false, false) => [Frame(tx, OrderFrame), Frame(tx, TradeFrame)]
    case (true, false) => [Frame(tx, OrderFrame), Frame(tx, TradeFrame), Frame(tx, FinancingFrame)]
    case (false, true) => [Frame(tx, OrderFrame), Frame(tx, TradeFrame), Frame(tx, AccountFrame)]
    case (true, true) =>
      [Frame(tx, OrderFrame), Frame(tx, TradeFrame), Frame(tx, FinancingFrame), Frame(tx, AccountFrame)]
  }

  /** Whether the fill settles carry, as its response or line says. */
  predicate SettlesCarry(source: Source) {
    match source
    case Rest(FillResponse(_, _, _, financing, _)) => financing
    case Stream(_, FillLine(_, financing, _)) => financing
    case _ => false
  }

  /** Whether the publisher of the fill could fetch an account snapshot. */
  predicate FetchesAccount(source: Source) {
    match source
    case Rest(FillResponse(_, _, _, _, account)) => account
    case Stream(_, FillLine(_, _, account)) => account
    case _ => false
  }

  /** All that job j, the owner of the fill, had to publish of it was published, and nothing else. */
  predicate PublishedWhole(s: State, j: nat, id: Id) {
    && Won(s, j, id)
    && Published(s.sent, id) ==
       WholeFill(Some(id), SettlesCarry(s.jobs[j].source), FetchesAccount(s.jobs[j].source))
  }

  /** The frames are all that the source calls for. */
  ghost predicate SendsAll(source: Source, frames: seq<Frame>) {
    match source
    case Rest(FillResponse(f, c, partial, financing, account)) =>
      if partial && c.Some?
      then frames == WholeFill(Some(f), financing, false) + [Frame(c, OrderFrame)]
                     + (if account then [Frame(Some(f), AccountFrame)] else [])
      else frames == WholeFill(Some(f), financing, account)
    case Rest(CancelResponse(c)) => frames == [Frame(Some(c), OrderFrame)]
    case Stream(_, FillLine(f, financing, account)) => frames == WholeFill(f, financing, account)
    case Stream(_, CancelLine(c)) => frames == [Frame(c, OrderFrame)]
    case Stream(_, OtherLine(n)) => |frames| == n && forall i | 0 <= i < n :: frames[i] == Frame(None, OrderFrame)
  }

  /** In every run, what a finished publisher sent, in order, is all that its response or line
      calls for: for a fill the order, the trade, the carry it settles, the cancel of a partly
      filled remainder, and the account snapshot. */
  lemma PublisherSends(cap: nat, acts: seq<Action>, j: nat)
    requires var s := Run(cap, acts); j < |s.jobs| && s.jobs[j].phase.Sending? && Finished(s.jobs[j])
    ensures var s := Run(cap, acts); SendsAll(s.jobs[j].source, Trace(s.sent, j))
  {
    RunInv(cap, acts);
    FinishedTrace(Run(cap, acts), j);
    PlanSpelled(Run(cap, acts).jobs[j].source);
  }

  lemma PlanSpelled(source: Source)
    ensures SendsAll(source, Plan(source))
  {
  }

  lemma AboutAppend(a: seq<Frame>, frame: Frame, id: Id)
    ensures About(a + [frame], id) == if frame.tx == Some(id) then About(a, id) + [frame] else About(a, id)
  {
    assert (a + [frame])[..|a|] == a;
  }

  lemma AboutFill(id: Id, financing: bool)
    ensures About(FillFrames(Some(id), financing), id) == FillFrames(Some(id), financing)
  {
    var order, trade := Frame(Some(id), OrderFrame), Frame(Some(id), TradeFrame);
    AboutAppend([], order, id);
    AboutAppend([order], trade, id);
    assert [] + [order] == [order] && [order] + [trade] == [order, trade] == FillFrames(Some(id), false);
    AboutAppend([order, trade], Frame(Some(id), FinancingFrame), id);
  }

  /** The part of a fill's plan that is about the fill is one publication of it. */
  lemma PlanOfFill(source: Source, id: Id)
    requires NamesFill(source, id)
    ensures About(Plan(source), id) == WholeFill(Some(id), SettlesCarry(source), FetchesAccount(source))
  {
    var financing, account := SettlesCarry(source), FetchesAccount(source);
    var fill, snapshot := FillFrames(Some(id), financing), Frame(Some(id), AccountFrame);
    AboutFill(id, financing);
    var cancel := if source.Rest? && source.response.partial && source.response.cancel.Some?
                  then [Frame(source.response.cancel, OrderFrame)] else [];
    assert Plan(source) == (fill + cancel) + if account then [snapshot] else [];
    if cancel != [] {
      AboutAppend(fill, cancel[0], id);
    } else {
      assert fill + cancel == fill;
    }
    assert About(fill + cancel, id) == fill;
    if account {
      AboutAppend(fill + cancel, snapshot, id);
    } else {
      assert (fill + cancel) + [] == fill + cancel && fill + [] == fill;
    }
  }

  /** A claim lost means that somebody won. */
  lemma LostToWinner(s: State, a: nat) returns (w: nat, id: Id)
    requires Inv(s) && a < |s.jobs| && s.jobs[a].phase.Lost?
    ensures id in Ids(s.jobs[a].source) && Won(s, w, id) && w != a
  {
    assert JobOk(s, a);
    var at := s.jobs[a].phase.at;
    id :| id in Ids(s.jobs[a].source) && id in Window(s.cap, s.log[..at]);
    InWindow(s.cap, s.log[..at], id);
    var p: nat :| p < |s.log[..at]| && s.log[..at][p] == id;
    assert EntryOk(s, p);
    w := s.owners[p];
  }

  /** Exactly once: after the stream has dealt with a fill's line and every publisher that
      saw the fill has finished, the fill has been published once and completely: the order
      and trade frames, and the carry and the snapshot that its owner's sighting calls for. */
  lemma ExactlyOnce(cap: nat, acts: seq<Action>, id: Id, a: nat)
    requires var s := Run(cap, acts);
             && a < |s.jobs| && s.jobs[a].source.Stream? && NamesFill(s.jobs[a].source, id)
             && (forall j | 0 <= j < |s.jobs| && id in Ids(s.jobs[j].source) :: Finished(s.jobs[j]))
             && SeenClosely(s, id) && SeenAsFill(s, id)
             && (forall i | 0 <= i < |s.sent| && s.sent[i].frame.tx == Some(id) :: s.sent[i].delivered)
    ensures exists w: nat :: PublishedWhole(Run(cap, acts), w, id)
  {
    var s := Run(cap, acts);
    RunInv(cap, acts);
    assert Ids(s.jobs[a].source) == [id];
    assert JobOk(s, a);
    var w: nat := a;
    if s.jobs[a].phase.Lost? {
      var id';
      w, id' := LostToWinner(s, a);
    }
    FillPublished(s, id, w);
    assert PublishedWhole(s, w, id);
  }

  /** A fill won by a finished publisher has been published once and completely. */
  lemma FillPublished(s: State, id: Id, w: nat)
    requires Inv(s) && Won(s, w, id) && Finished(s.jobs[w]) && NamesFill(s.jobs[w].source, id)
    requires SeenClosely(s, id)
    requires forall i | 0 <= i < |s.sent| && s.sent[i].frame.tx == Some(id) :: s.sent[i].delivered
    ensures PublishedWhole(s, w, id)
  {
    PublishedIsPlan(s, id, w);
    PlanOfFill(s.jobs[w].source, id);
  }

  /** What a finished winner published of a transaction is its plan's part about it. */
  lemma PublishedIsPlan(s: State, id: Id, w: nat)
    requires Inv(s) && Won(s, w, id) && Finished(s.jobs[w]) && SeenClosely(s, id)
    requires forall i | 0 <= i < |s.sent| && s.sent[i].frame.tx == Some(id) :: s.sent[i].delivered
    ensures Published(s.sent, id) == About(Plan(s.jobs[w].source), id)
  {
    OneSender(s, id, w);
    FinishedTrace(s, w);
    PublishedByOne(s.sent, id, w);
  }

  lemma OneSender(s: State, id: Id, w: nat)
    requires Inv(s) && Won(s, w, id) && SeenClosely(s, id)
    ensures forall i | 0 <= i < |s.sent| && s.sent[i].frame.tx == Some(id) :: s.sent[i].job == w
  {
    forall i | 0 <= i < |s.sent| && s.sent[i].frame.tx == Some(id)
      ensures s.sent[i].job == w
    {
      FrameOwner(s, i, id);
      OneOwner(s, id, s.sent[i].job, w);
    }
  }

  lemma FinishedTrace(s: State, w: nat)
    requires SentOk(s) && w < |s.jobs| && s.jobs[w].phase.Sending? && Finished(s.jobs[w])
    ensures Trace(s.sent, w) == Plan(s.jobs[w].source)
  {
    var plan := Plan(s.jobs[w].source);
    assert Trace(s.sent, w) == plan[..Progress(s.jobs[w])];
    assert plan[..|plan|] == plan;
  }

  // ----- What becomes of a cancel

  predicate NamesCancel(source: Source, id: Id) {
    match source
    case Rest(FillResponse(f, c, _, _, _)) => c == Some(id) && f != id
    case Rest(CancelResponse(c)) => c == id
    case Stream(_, CancelLine(c)) => c == Some(id)
    case _ => false
  }

  /** The owner publishes no cancel: it came with a fill that filled the order completely. */
  predicate Suppresses(source: Source) {
    source.Rest? && source.response.FillResponse? && !source.response.partial
  }

  lemma AboutOther(f: Id, financing: bool, id: Id)
    requires f != id
    ensures About(FillFrames(Some(f), financing), id) == []
  {
    var order, trade := Frame(Some(f), OrderFrame), Frame(Some(f), TradeFrame);
    AboutAppend([], order, id);
    AboutAppend([order], trade, id);
    assert [] + [order] == [order] && [order] + [trade] == [order, trade] == FillFrames(Some(f), false);
    AboutAppend([order, trade], Frame(Some(f), FinancingFrame), id);
  }

  lemma PlanOfCancel(source: Source, id: Id)
    requires NamesCancel(source, id)
    ensures About(Plan(source), id) == if Suppresses(source) then [] else [Frame(Some(id), OrderFrame)]
  {
    var cancel := Frame(Some(id), OrderFrame);
    AboutAppend([], cancel, id);
    assert [] + [cancel] == [cancel];
    if source.Rest? && source.response.FillResponse? {
      PlanOfPair(source.response, id);
    }
  }

  lemma PlanOfPair(r: Response, id: Id)
    requires r.FillResponse? && r.cancel == Some(id) && r.fill != id
    ensures About(Plan(Rest(r)), id) == if r.partial then [Frame(Some(id), OrderFrame)] else []
  {
    var fill, snapshot := FillFrames(Some(r.fill), r.financing), Frame(Some(r.fill), AccountFrame);
    var c := Frame(Some(id), OrderFrame);
    var cancel := if r.partial then [c] else [];
    var account := if r.account then [snapshot] else [];
    assert Plan(Rest(r)) == (fill + cancel) + account;
    AboutOther(r.fill, r.financing, id);
    AboutAppend(fill, c, id);
    AboutAppend(fill + cancel, snapshot, id);
    assert fill + [] == fill && (fill + cancel) + [] == fill + cancel && [] + [c] == [c];
  }

  /** After the stream has dealt with a cancel's line and every publisher that saw the cancel
      has finished, it has been published once; or not at all, if the call that owns it
      reported a complete fill, which the cancel would contradict. */
  lemma CancelOnceOrSuppressed(cap: nat, acts: seq<Action>, id: Id, a: nat)
    requires var s := Run(cap, acts);
             && a < |s.jobs| && s.jobs[a].source.Stream? && NamesCancel(s.jobs[a].source, id)
             && (forall j | 0 <= j < |s.jobs| && id in Ids(s.jobs[j].source) ::
                   Finished(s.jobs[j]) && NamesCancel(s.jobs[j].source, id))
             && SeenClosely(s, id)
             && (forall i | 0 <= i < |s.sent| && s.sent[i].frame.tx == Some(id) :: s.sent[i].delivered)
    ensures var s := Run(cap, acts);
            exists w: nat :: Won(s, w, id) && Published(s.sent, id) ==
              if Suppresses(s.jobs[w].source) then [] else [Frame(Some(id), OrderFrame)]
  {
    var s := Run(cap, acts);
    RunInv(cap, acts);
    assert Ids(s.jobs[a].source) == [id];
    assert JobOk(s, a);
    var w: nat := a;
    if s.jobs[a].phase.Lost? {
      var id';
      w, id' := LostToWinner(s, a);
    }
    PublishedIsPlan(s, id, w);
    PlanOfCancel(s.jobs[w].source, id);
    assert Won(s, w, id);
  }

  /** If nobody else has seen either id of a synchronous fill and its cancel, the REST call
      that found the channel connected publishes the fill, once and completely. */
  lemma RestPublishesUnseen(cap: nat, acts: seq<Action>, r: nat)
    requires var s := Run(cap, acts);
             && r < |s.jobs| && s.jobs[r].source.Rest? && s.jobs[r].source.response.FillResponse?
             && PairDistinct(s.jobs[r].source)
             && Finished(s.jobs[r]) && !s.jobs[r].phase.Declined?
             && (forall j: nat, id | id in Ids(s.jobs[r].source) && Sighted(s, j, id) :: j == r)
             && (forall i | 0 <= i < |s.sent| && s.sent[i].job == r :: s.sent[i].delivered)
    ensures var s := Run(cap, acts);
            PublishedWhole(s, r, s.jobs[r].source.response.fill)
  {
    var s := Run(cap, acts);
    RunInv(cap, acts);
    var f := s.jobs[r].source.response.fill;
    if s.jobs[r].phase.Lost? {
      var w, id := LostToWinner(s, r);
      assert false;
    }
    assert f in Ids(s.jobs[r].source);
    forall i | 0 <= i < |s.sent| && s.sent[i].frame.tx == Some(f)
      ensures s.sent[i].delivered
    {
      FrameOwner(s, i, f);
    }
    FillPublished(s, f, r);
  }

  // ----- Generations and tokens

  lemma {:induction false} ExecSplit(s: State, a: seq<Action>, b: seq<Action>)
    ensures Exec(s, a + b) == Exec(Exec(s, a), b)
    decreases a
  {
    if a == [] {
      assert a + b == b;
    } else {
      assert (a + b)[1..] == a[1..] + b;
      ExecSplit(Apply(s, a[0]), a[1..], b);
    }
  }

  /** In every run all but the last transaction token and all but the last poll token are cancelled. */
  lemma OneLiveToken(cap: nat, acts: seq<Action>, i: nat, j: nat)
    ensures var s := Run(cap, acts);
            && (i < j < |s.txTokens| ==> s.txTokens[i])
            && (i < j < |s.pollTokens| ==> s.pollTokens[i])
  {
    RunInv(cap, acts);
  }

  /** Generation g is told to stop: its own token or the parent's is cancelled. */
  predicate Stopped(s: State, g: nat) {
    s.parent || (g < |s.txTokens| && s.txTokens[g])
  }

  /** What a stopped generation can still do from `s`: finish the jobs it had. */
  ghost predicate OnlyDrains(s: State, s': State, g: nat) {
    && Stopped(s', g)
    && |s.jobs| <= |s'.jobs| && |s.sent| <= |s'.sent|
    && (forall j | 0 <= j < |s.jobs| :: s'.jobs[j].source == s.jobs[j].source)
    && (forall j | 0 <= j < |s.jobs| && Finished(s.jobs[j]) :: s'.jobs[j] == s.jobs[j])
    && (forall j | |s.jobs| <= j < |s'.jobs| :: !Of(s'.jobs[j], g))
    && (forall i | |s.sent| <= i < |s'.sent| && s'.sent[i].job < |s.jobs| :: !Finished(s.jobs[s'.sent[i].job]))
  }

  lemma DrainJob(s0: State, s: State, s': State, g: nat, j: nat)
    requires OnlyDrains(s0, s, g) && Stopped(s', g)
    requires j < |s.jobs| == |s'.jobs| && !Finished(s.jobs[j])
    requires s'.jobs == s.jobs[j := s'.jobs[j]] && s'.jobs[j].source == s.jobs[j].source
    requires || s'.sent == s.sent
             || (|s'.sent| == |s.sent| + 1 && s'.sent[..|s.sent|] == s.sent && s'.sent[|s.sent|].job == j)
    ensures OnlyDrains(s0, s', g)
  {
    forall i | |s0.sent| <= i < |s'.sent| && s'.sent[i].job < |s0.jobs|
      ensures !Finished(s0.jobs[s'.sent[i].job])
    {
      if i < |s.sent| {
        assert s'.sent[i] == s.sent[i];
      }
    }
  }

  lemma DrainStep(s0: State, s: State, a: Action, g: nat)
    requires OnlyDrains(s0, s, g)
    ensures OnlyDrains(s0, Apply(s, a), g)
  {
    StaysStopped(s, a, g);
    var s' := Apply(s, a);
    if a.CheckSlot? || a.Claim? || a.TakeSender? || a.Send? {
      if s' != s { DrainJob(s0, s, s', g, a.job); }
    } else if a.RestArrives? || a.LineArrives? {
      DrainArrival(s0, s, s', g);
    } else {
      DrainCall(s0, s, s', g);
    }
  }

  lemma DrainCall(s0: State, s: State, s': State, g: nat)
    requires OnlyDrains(s0, s, g) && Stopped(s', g) && s'.jobs == s.jobs && s'.sent == s.sent
    ensures OnlyDrains(s0, s', g)
  {
  }

  lemma StaysStopped(s: State, a: Action, g: nat)
    requires Stopped(s, g)
    ensures Stopped(Apply(s, a), g)
  {
  }

  lemma DrainArrival(s0: State, s: State, s': State, g: nat)
    requires OnlyDrains(s0, s, g) && Stopped(s', g)
    requires || s'.jobs == s.jobs
             || (|s'.jobs| == |s.jobs| + 1 && s'.jobs[..|s.jobs|] == s.jobs && !Of(s'.jobs[|s.jobs|], g))
    requires s'.sent == s.sent
    ensures OnlyDrains(s0, s', g)
  {
    forall j | 0 <= j < |s.jobs|
      ensures s'.jobs[j] == s.jobs[j]
    {
      assert s'.jobs != s.jobs ==> s'.jobs[..|s.jobs|][j] == s.jobs[j];
    }
  }

  lemma {:induction false} DrainRun(s0: State, s: State, acts: seq<Action>, g: nat)
    requires OnlyDrains(s0, s, g)
    ensures OnlyDrains(s0, Exec(s, acts), g)
    decreases acts
  {
    if acts != [] {
      DrainStep(s0, s, acts[0], g);
      DrainRun(s0, Apply(s, acts[0]), acts[1..], g);
    }
  }

  /** A generation stopped after `before` publishes, in any continuation, at most the rest of
      the one line it was already working on. */
  lemma StoppedGenerationDrains(cap: nat, before: seq<Action>, after: seq<Action>, g: nat, i: nat, k: nat)
    requires Stopped(Run(cap, before), g)
    requires var s, s' := Run(cap, before), Run(cap, before + after);
             && |s.sent| <= i < |s'.sent| && |s.sent| <= k < |s'.sent|
             && s'.sent[i].job < |s'.jobs| && Of(s'.jobs[s'.sent[i].job], g)
             && s'.sent[k].job < |s'.jobs| && Of(s'.jobs[s'.sent[k].job], g)
    ensures var s, s' := Run(cap, before), Run(cap, before + after);
            s'.sent[i].job == s'.sent[k].job < |s.jobs| && !Finished(s.jobs[s'.sent[i].job])
  {
    var s, s' := Run(cap, before), Run(cap, before + after);
    RunInv(cap, before);
    ExecSplit(Init(cap), before, after);
    DrainRun(s, s, after, g);
    UnfinishedUnique(s, g, s'.sent[i].job, s'.sent[k].job);
  }

  lemma UnfinishedUnique(s: State, g: nat, i: nat, k: nat)
    requires OneLineAtATime(s) && i < |s.jobs| && k < |s.jobs|
    requires Of(s.jobs[i], g) && Of(s.jobs[k], g) && !Finished(s.jobs[i]) && !Finished(s.jobs[k])
    ensures i == k
  {
  }

  /** Once a disconnect has completed, no generation, present or future, takes another line. */
  lemma SilentAfterDisconnect(cap: nat, before: seq<Action>, after: seq<Action>, c: nat, j: nat)
    requires var s := Run(cap, before); c < |s.calls| && s.calls[c] == Disconnecting(DisconnectDone)
    requires |Run(cap, before).jobs| <= j < |Run(cap, before + after).jobs|
    ensures Run(cap, before + after).jobs[j].source.Rest?
  {
    var s, s' := Run(cap, before), Run(cap, before + after);
    RunInv(cap, before);
    ExecSplit(Init(cap), before, after);
    if s'.jobs[j].source.Stream? {
      DrainRun(s, s, after, s'.jobs[j].source.generation);
      assert false;
    }
  }

  /** A channel, once stored, stays stored; so a stream line never finds none. */
  lemma StreamNeverDeclines(cap: nat, acts: seq<Action>, j: nat)
    requires j < |Run(cap, acts).jobs| && Run(cap, acts).jobs[j].source.Stream?
    ensures Run(cap, acts).slot.Some? && !Run(cap, acts).jobs[j].phase.Declined?
  {
    RunInv(cap, acts);
    assert JobOk(Run(cap, acts), j);
  }

  // ----- Published twice

  /** A cancel line dealt with from arrival to send, by a generation with nothing else to do. */
  function CancelRound(n: nat, id: Id): seq<Action> {
    [LineArrives(1, CancelLine(Some(id)))] + [CheckSlot(n)] + [Claim(n)] + [Send(n, true)]
  }

  lemma ExecOne(s: State, a: Action)
    ensures Exec(s, [a]) == Apply(s, a)
  {
    assert [a][1..] == [];
  }

  lemma ExecFour(s: State, a: Action, b: Action, c: Action, d: Action)
    ensures Exec(s, [a] + [b] + [c] + [d]) == Apply(Apply(Apply(Apply(s, a), b), c), d)
  {
    ExecSplit(s, [a] + [b] + [c], [d]);
    ExecSplit(s, [a] + [b], [c]);
    ExecSplit(s, [a], [b]);
    ExecOne(s, a);
    ExecOne(Apply(s, a), b);
    ExecOne(Apply(Apply(s, a), b), c);
    ExecOne(Apply(Apply(Apply(s, a), b), c), d);
  }

  function CancelSeen(id: Id): Source {
    Stream(1, CancelLine(Some(id)))
  }

  /** The state with one more job, seeing the cancel, in the given phase. */
  function WithJob(s: State, id: Id, phase: Phase): State {
    s.(jobs := s.jobs + [Job(CancelSeen(id), phase)])
  }

  lemma RoundCheck(s: State, id: Id)
    requires s.slot.Some?
    ensures Apply(WithJob(s, id, Arrived), CheckSlot(|s.jobs|)) == WithJob(s, id, Connected)
  {
    var jobs := WithJob(s, id, Arrived).jobs;
    assert jobs[|s.jobs| := Job(CancelSeen(id), Connected)] == WithJob(s, id, Connected).jobs;
  }

  function Claimed(s: State, id: Id): State {
    s.(log := s.log + [id], owners := s.owners + [|s.jobs|])
  }

  lemma RoundClaim(s: State, id: Id)
    requires id !in Window(s.cap, s.log)
    ensures Apply(WithJob(s, id, Connected), Claim(|s.jobs|)) ==
            WithJob(Claimed(s, id), id, Sending(|s.log|, 0, None))
  {
    var n, jobs := |s.jobs|, WithJob(s, id, Connected).jobs;
    ExtendByOne(s.cap, s.log, id);
    assert Claimable(s.cap, s.log, [id]);
    assert Repeat(n, 1) == [n];
    assert jobs[n := Job(CancelSeen(id), Sending(|s.log|, 0, None))]
        == s.jobs + [Job(CancelSeen(id), Sending(|s.log|, 0, None))];
  }

  /** The state after a cancel is claimed and sent. */
  function Told(s: State, id: Id): State {
    Claimed(s, id).(jobs := s.jobs + [Job(CancelSeen(id), Sending(|s.log|, 1, None))],
                    sent := s.sent + [Sent(|s.jobs|, Frame(Some(id), OrderFrame), s.slot, true)])
  }

  lemma RoundSend(s: State, id: Id)
    requires s.slot.Some?
    ensures Apply(WithJob(Claimed(s, id), id, Sending(|s.log|, 0, None)), Send(|s.jobs|, true)) == Told(s, id)
  {
    var jobs := WithJob(Claimed(s, id), id, Sending(|s.log|, 0, None)).jobs;
    assert jobs[|s.jobs| := Job(CancelSeen(id), Sending(|s.log|, 1, None))] == Told(s, id).jobs;
  }

  lemma IdleAgain(s: State, id: Id)
    requires CanTakeLine(s, 1)
    ensures CanTakeLine(Told(s, id), 1)
  {
  }

  /** An unclaimed cancel seen by an idle first generation is claimed and sent. */
  lemma CancelRoundPublishes(s: State, id: Id)
    requires CanTakeLine(s, 1) && s.slot.Some? && id !in Window(s.cap, s.log)
    ensures Exec(s, CancelRound(|s.jobs|, id)) == Told(s, id) && CanTakeLine(Told(s, id), 1)
  {
    var n := |s.jobs|;
    ExecFour(s, LineArrives(1, CancelLine(Some(id))), CheckSlot(n), Claim(n), Send(n, true));
    RoundCheck(s, id);
    RoundClaim(s, id);
    RoundSend(s, id);
    IdleAgain(s, id);
  }

  /** A connect call from start to end. */
  function Connect(): seq<Action> {
    [StartConnect(false)] + ([Advance(0)] + [Advance(0)] + [Advance(0)] + [Advance(0)])
  }

  lemma ConnectedOnce(cap: nat)
    ensures var s := Run(cap, Connect());
            && s.cap == cap && s.slot == Some(0) && s.channels == |s.calls| == 1
            && s.log == [] && s.jobs == [] && s.sent == [] && CanTakeLine(s, 1)
  {
    var s0 := Apply(Init(cap), StartConnect(false));
    ExecSplit(Init(cap), [StartConnect(false)], [Advance(0)] + [Advance(0)] + [Advance(0)] + [Advance(0)]);
    ExecOne(Init(cap), StartConnect(false));
    ExecFour(s0, Advance(0), Advance(0), Advance(0), Advance(0));
    var s2 := Apply(Apply(s0, Advance(0)), Advance(0));
    assert s2.calls == [Connecting(false, SpawnPoll)] && s2.slot == Some(0);
  }

  lemma PublishedTold(s: State, x: Id, id: Id)
    requires s.slot.Some?
    ensures Published(Told(s, x).sent, id) ==
            if x == id then Published(s.sent, id) + [Frame(Some(id), OrderFrame)] else Published(s.sent, id)
  {
    PublishedAppend(s.sent, Sent(|s.jobs|, Frame(Some(x), OrderFrame), s.slot, true), id);
  }

  lemma NextRound(s: State, id: Id, x: Id)
    requires s.cap == 1 && s.slot.Some? && CanTakeLine(s, 1) && id != x && s.log != [] && s.log[|s.log| - 1] == id
    ensures Exec(s, CancelRound(|s.jobs|, x)) == Told(s, x) && CanTakeLine(Told(s, x), 1)
    ensures Told(s, x).cap == 1 && Told(s, x).slot == s.slot && |Told(s, x).jobs| == |s.jobs| + 1
    ensures Told(s, x).log == s.log + [x]
  {
    assert Window(1, s.log) == [id];
    CancelRoundPublishes(s, x);
  }

  lemma ThreeRounds(s: State, id: Id, other: Id)
    requires s.cap == 1 && s.slot.Some? && s.log == [] && s.jobs == [] && CanTakeLine(s, 1) && id != other
    ensures Exec(Exec(Exec(s, CancelRound(0, id)), CancelRound(1, other)), CancelRound(2, id)) ==
            Told(Told(Told(s, id), other), id)
  {
    CancelRoundPublishes(s, id);
    NextRound(Told(s, id), id, other);
    NextRound(Told(Told(s, id), other), other, id);
  }

  lemma ToldTwice(s: State, id: Id, other: Id)
    requires s.slot.Some? && s.sent == [] && id != other
    ensures Published(Told(Told(Told(s, id), other), id).sent, id) ==
            [Frame(Some(id), OrderFrame), Frame(Some(id), OrderFrame)]
  {
    PublishedTold(s, id, id);
    PublishedTold(Told(s, id), other, id);
    PublishedTold(Told(Told(s, id), other), id, id);
  }

  /** With room for one id, a cancel that is delivered again after one other claim is published twice. */
  lemma EvictionPublishesTwice(id: Id, other: Id)
    requires id != other
    ensures var s := Run(1, Connect() + CancelRound(0, id) + CancelRound(1, other) + CancelRound(2, id));
            Published(s.sent, id) == [Frame(Some(id), OrderFrame), Frame(Some(id), OrderFrame)]
  {
    var a, b, c, d := Connect(), CancelRound(0, id), CancelRound(1, other), CancelRound(2, id);
    ExecSplit(Init(1), a + b + c, d);
    ExecSplit(Init(1), a + b, c);
    ExecSplit(Init(1), a, b);
    ConnectedOnce(1);
    ThreeRounds(Run(1, a), id, other);
    ToldTwice(Run(1, a), id, other);
  }

  lemma PublishedAppend(sent: seq<Sent>, r: Sent, id: Id)
    ensures Published(sent + [r], id) ==
            if r.frame.tx == Some(id) && r.delivered then Published(sent, id) + [r.frame] else Published(sent, id)
  {
    assert (sent + [r])[..|sent|] == sent;
  }
}

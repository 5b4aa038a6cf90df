/** Which strategy channel the frames of one publication reach (crates/oanda/src/adapter.rs,
    crates/oanda/src/streaming.rs). A connect repoints the slot to a new channel, and a
    publisher reads the slot frame by frame; except that a REST call sends the frames of a
    fill under one read lock, and its account snapshot on a channel taken before its fetch.
 */
module EventChannels {
  import opened Sequences
  import opened ClaimSet
  import opened EventProtocol

  // ----- Reading and writing the slot

  /** The action reads the slot for the next frame of job j. */
  predicate Reads(s: State, a: Action, j: nat) {
    && j < |s.jobs| && s.jobs[j].phase.Sending?
    && if KeepsSender(s.jobs[j]) then a == TakeSender(j) && s.jobs[j].phase.sender.None?
       else a.Send? && a.job == j && CanSend(s.jobs[j])
  }

  predicate Writes(s: State, a: Action) {
    Apply(s, a).channels != s.channels
  }

  /** Some action of the run repoints the slot. */
  ghost predicate WritesSlot(s: State, acts: seq<Action>)
    decreases acts
  {
    acts != [] && (Writes(s, acts[0]) || WritesSlot(Apply(s, acts[0]), acts[1..]))
  }

  lemma ChannelsGrow(s: State, a: Action)
    ensures s.channels <= Apply(s, a).channels
  {
  }

  lemma {:induction false} CountsWrites(s: State, acts: seq<Action>)
    ensures s.channels <= Exec(s, acts).channels
    ensures s.channels == Exec(s, acts).channels <==> !WritesSlot(s, acts)
    decreases acts
  {
    if acts != [] {
      ChannelsGrow(s, acts[0]);
      CountsWrites(Apply(s, acts[0]), acts[1..]);
    }
  }

  // ----- The invariant

  /** The slot holds the newest channel; a publisher has found one there; what was sent or kept
      for sending is a channel there was; and a kept one is for the last frame only. */
  ghost predicate ChannelOk(s: State) {
    && s.slot == (if s.channels == 0 then None else Some(s.channels - 1))
    && (forall j | 0 <= j < |s.jobs| :: JobChannelOk(s, s.jobs[j]))
    && (forall i | 0 <= i < |s.sent| :: s.sent[i].channel.Some? && s.sent[i].channel.value < s.channels)
  }

  ghost predicate JobChannelOk(s: State, job: Job) {
    && (job.phase.Connected? || job.phase.Sending? ==> s.slot.Some?)
    && (job.phase.Sending? && job.phase.sender.Some? ==>
          job.phase.sender.value < s.channels && (KeepsSender(job) || Finished(job)))
  }

  /** A REST call's account snapshot is the last frame of its plan, and not the first. */
  lemma SnapshotIsLast(source: Source, n: nat)
    requires source.Rest? && n < |Plan(source)| && Plan(source)[n].part.AccountFrame?
    ensures n == |Plan(source)| - 1 && n > 0
  {
  }

  lemma JobsStay(s: State, s': State)
    requires ChannelOk(s) && s'.jobs == s.jobs && s'.sent == s.sent && s.channels <= s'.channels
    requires s'.slot == (if s'.channels == 0 then None else Some(s'.channels - 1))
    ensures ChannelOk(s')
  {
    forall j | 0 <= j < |s'.jobs|
      ensures JobChannelOk(s', s'.jobs[j])
    {
      assert JobChannelOk(s, s.jobs[j]);
    }
  }

  lemma JobMoves(s: State, s': State, j: nat)
    requires ChannelOk(s) && j < |s.jobs| == |s'.jobs| && s'.jobs == s.jobs[j := s'.jobs[j]]
    requires s'.slot == s.slot && s'.channels == s.channels && JobChannelOk(s', s'.jobs[j])
    requires |s.sent| <= |s'.sent| && s'.sent[..|s.sent|] == s.sent
    requires forall i | |s.sent| <= i < |s'.sent| :: s'.sent[i].channel.Some? && s'.sent[i].channel.value < s.channels
    ensures ChannelOk(s')
  {
    forall k | 0 <= k < |s'.jobs|
      ensures JobChannelOk(s', s'.jobs[k])
    {
      assert JobChannelOk(s, s.jobs[k]);
    }
    forall i | 0 <= i < |s.sent|
      ensures s'.sent[i] == s.sent[i]
    {
      assert s'.sent[..|s.sent|][i] == s.sent[i];
    }
  }

  lemma SendChannel(s: State, j: nat, delivered: bool)
    requires ChannelOk(s) && j < |s.jobs| && CanSend(s.jobs[j])
    ensures ChannelOk(DoSend(s, j, delivered))
  {
    var job := s.jobs[j];
    assert JobChannelOk(s, job);
    if KeepsSender(job) {
      SnapshotIsLast(job.source, job.phase.next);
    }
    JobMoves(s, DoSend(s, j, delivered), j);
  }

  /** A line of a stream never finds the slot empty. */
  ghost predicate LinesFindSlot(s: State) {
    forall j | 0 <= j < |s.jobs| && s.jobs[j].source.Stream? :: s.slot.Some?
  }

  lemma InvFindsSlot(s: State)
    requires Inv(s)
    ensures LinesFindSlot(s)
  {
    forall j | 0 <= j < |s.jobs| && s.jobs[j].source.Stream?
      ensures s.slot.Some?
    {
      assert EventProtocol.JobOk(s, j);
    }
  }

  lemma CheckChannel(s: State, j: nat)
    requires ChannelOk(s) && LinesFindSlot(s) && j < |s.jobs| && s.jobs[j].phase.Arrived?
    ensures ChannelOk(DoCheck(s, j))
  {
    JobMoves(s, DoCheck(s, j), j);
  }

  lemma ClaimChannel(s: State, j: nat)
    requires ChannelOk(s) && j < |s.jobs| && s.jobs[j].phase.Connected?
    ensures ChannelOk(DoClaim(s, j))
  {
    assert JobChannelOk(s, s.jobs[j]);
    JobMoves(s, DoClaim(s, j), j);
  }

  lemma TakeSenderChannel(s: State, j: nat)
    requires ChannelOk(s) && j < |s.jobs| && KeepsSender(s.jobs[j])
    ensures ChannelOk(WithPhase(s, j, s.jobs[j].phase.(sender := s.slot)))
  {
    assert JobChannelOk(s, s.jobs[j]);
    JobMoves(s, WithPhase(s, j, s.jobs[j].phase.(sender := s.slot)), j);
  }

  lemma ArriveChannel(s: State, source: Source)
    requires ChannelOk(s)
    ensures ChannelOk(s.(jobs := s.jobs + [Job(source, Arrived)]))
  {
    var s' := s.(jobs := s.jobs + [Job(source, Arrived)]);
    forall j | 0 <= j < |s'.jobs|
      ensures JobChannelOk(s', s'.jobs[j])
    {
      if j < |s.jobs| {
        assert JobChannelOk(s, s.jobs[j]);
      }
    }
  }

  lemma AdvanceChannel(s: State, i: nat)
    requires ChannelOk(s)
    ensures ChannelOk(Apply(s, Advance(i)))
  {
    JobsStay(s, Apply(s, Advance(i)));
  }

  lemma ChannelStep(s: State, a: Action)
    requires ChannelOk(s) && LinesFindSlot(s)
    ensures ChannelOk(Apply(s, a))
  {
    if Apply(s, a) != s {
      match a {
        case RestArrives(r) => ArriveChannel(s, Rest(r));
        case LineArrives(g, line) => ArriveChannel(s, Stream(g, line));
        case CheckSlot(j) => CheckChannel(s, j);
        case Claim(j) => ClaimChannel(s, j);
        case TakeSender(j) => TakeSenderChannel(s, j);
        case Send(j, delivered) => SendChannel(s, j, delivered);
        case Advance(i) => AdvanceChannel(s, i);
        case _ => JobsStay(s, Apply(s, a));
      }
    }
  }

  lemma {:induction false} ChannelRun(s: State, acts: seq<Action>)
    requires Inv(s) && ChannelOk(s)
    ensures ChannelOk(Exec(s, acts))
    decreases acts
  {
    if acts != [] {
      InvFindsSlot(s);
      ChannelStep(s, acts[0]);
      InvStep(s, acts[0]);
      ChannelRun(Apply(s, acts[0]), acts[1..]);
    }
  }

  lemma RunChannels(cap: nat, acts: seq<Action>)
    ensures Inv(Run(cap, acts)) && ChannelOk(Run(cap, acts))
  {
    RunInv(cap, acts);
    ChannelRun(Init(cap), acts);
  }

  // ----- What one action does to one job

  /** What a job may become without sending: what it was, a publisher about to start, one that
      is not, or one that now keeps the slot's channel. */
  ghost predicate Moves(job: Job, job': Job, slot: Option<nat>) {
    || job' == job
    || (job'.source == job.source && !job.phase.Sending? && Progress(job') == 0
        && (job'.phase.Sending? ==> job'.phase.sender.None?))
    || (KeepsSender(job) && job.phase.sender.None? && job' == job.(phase := job.phase.(sender := slot)))
  }

  lemma QuietJob(s: State, a: Action, j: nat)
    requires !a.Send? && j < |s.jobs|
    ensures j < |Apply(s, a).jobs| && Moves(s.jobs[j], Apply(s, a).jobs[j], s.slot)
  {
  }

  lemma QuietSent(s: State, a: Action)
    requires !a.Send?
    ensures Apply(s, a).sent == s.sent
  {
  }

  lemma NewJob(s: State, a: Action, j: nat)
    requires |s.jobs| <= j < |Apply(s, a).jobs|
    ensures Apply(s, a).jobs[j].phase.Arrived? && Apply(s, a).slot == s.slot
  {
  }

  lemma SlotMoves(s: State, a: Action)
    ensures Apply(s, a).slot == s.slot || (!SlotBusy(s) && Apply(s, a).jobs == s.jobs)
  {
  }

  /** In every run, a job that can send sends one frame, its next; it goes to the channel kept for it or
      else to the one in the slot, and is delivered if and only if a receiver is there. */
  lemma SendExact(cap: nat, acts: seq<Action>, j: nat, delivered: bool)
    requires var s := Run(cap, acts); j < |s.jobs| && CanSend(s.jobs[j])
    ensures var s, s' := Run(cap, acts), Apply(Run(cap, acts), Send(j, delivered));
            && |s'.sent| == |s.sent| + 1 && s'.sent[..|s.sent|] == s.sent
            && s'.sent[|s.sent|].job == j && s'.sent[|s.sent|].delivered == delivered
            && s'.sent[|s.sent|].channel.Some?
            && s'.sent[|s.sent|].channel == (if KeepsSender(s.jobs[j]) then s.jobs[j].phase.sender else s.slot)
            && s'.jobs[j].phase == s.jobs[j].phase.(next := s.jobs[j].phase.next + 1)
  {
    RunChannels(cap, acts);
    assert JobChannelOk(Run(cap, acts), Run(cap, acts).jobs[j]);
  }

  // ----- From the first read on

  ghost predicate Silent(s: State, j: nat) {
    forall i | 0 <= i < |s.sent| :: s.sent[i].job != j
  }

  lemma SilentBeforeFirst(s: State, j: nat)
    requires SentOk(s) && j < |s.jobs| && Progress(s.jobs[j]) == 0
    ensures Silent(s, j)
  {
    forall i | 0 <= i < |s.sent|
      ensures s.sent[i].job != j
    {
      if s.sent[i].job == j {
        InTrace(s.sent, i);
        assert false;
      }
    }
  }

  /** Nothing job j sent or keeps is older than channel c, and neither is the slot. */
  ghost predicate NotOlder(s: State, j: nat, c: nat) {
    && j < |s.jobs| && c < s.channels
    && (forall i | 0 <= i < |s.sent| && s.sent[i].job == j :: s.sent[i].channel.Some? && s.sent[i].channel.value >= c)
    && (s.jobs[j].phase.Sending? && s.jobs[j].phase.sender.Some? ==> s.jobs[j].phase.sender.value >= c)
  }

  lemma NotOlderSend(s: State, k: nat, delivered: bool, j: nat, c: nat)
    requires ChannelOk(s) && NotOlder(s, j, c) && k < |s.jobs| && CanSend(s.jobs[k])
    ensures NotOlder(DoSend(s, k, delivered), j, c)
  {
  }

  lemma NotOlderStep(s: State, a: Action, j: nat, c: nat)
    requires ChannelOk(s) && NotOlder(s, j, c)
    ensures NotOlder(Apply(s, a), j, c)
  {
    if !a.Send? {
      QuietJob(s, a, j);
      QuietSent(s, a);
      ChannelsGrow(s, a);
    } else if Apply(s, a) != s {
      NotOlderSend(s, a.job, a.delivered, j, c);
    }
  }

  lemma {:induction false} NotOlderRun(s: State, acts: seq<Action>, j: nat, c: nat)
    requires Inv(s) && ChannelOk(s) && NotOlder(s, j, c)
    ensures NotOlder(Exec(s, acts), j, c)
    decreases acts
  {
    if acts != [] {
      NotOlderStep(s, acts[0], j, c);
      InvFindsSlot(s);
      ChannelStep(s, acts[0]);
      InvStep(s, acts[0]);
      NotOlderRun(Apply(s, acts[0]), acts[1..], j, c);
    }
  }

  lemma SentGrows(s: State, a: Action)
    ensures s.sent <= Apply(s, a).sent
  {
  }

  lemma {:induction false} SentGrowsRun(s: State, acts: seq<Action>)
    ensures s.sent <= Exec(s, acts).sent
    decreases acts
  {
    if acts != [] {
      SentGrows(s, acts[0]);
      SentGrowsRun(Apply(s, acts[0]), acts[1..]);
    }
  }

  // ----- From the last read on

  /** Since state q, job j sent nothing but its last frame, on channel c; or it still keeps c to send it on. */
  ghost predicate LastOn(q: State, s: State, j: nat, c: nat) {
    && j < |s.jobs| && s.jobs[j].phase.Sending? && |q.sent| <= |s.sent| && s.sent[..|q.sent|] == q.sent
    && (forall i | |q.sent| <= i < |s.sent| && s.sent[i].job == j :: s.sent[i].channel == Some(c))
    && (Finished(s.jobs[j]) ==> exists i: nat :: |q.sent| <= i < |s.sent| && s.sent[i].job == j)
    && (!Finished(s.jobs[j]) ==>
          KeepsSender(s.jobs[j]) && s.jobs[j].phase.sender == Some(c)
          && s.jobs[j].phase.next == |Plan(s.jobs[j].source)| - 1)
  }

  lemma LastOnSend(q: State, s: State, k: nat, delivered: bool, j: nat, c: nat)
    requires LastOn(q, s, j, c) && k < |s.jobs| && CanSend(s.jobs[k])
    ensures LastOn(q, DoSend(s, k, delivered), j, c)
  {
    var s' := DoSend(s, k, delivered);
    assert s'.sent[..|q.sent|] == s.sent[..|q.sent|];
    if k == j {
      assert s'.sent[|s.sent|].job == j;
    } else if Finished(s.jobs[j]) {
      var i: nat :| |q.sent| <= i < |s.sent| && s.sent[i].job == j;
      assert s'.sent[i] == s.sent[i];
    }
  }

  lemma LastOnStep(q: State, s: State, a: Action, j: nat, c: nat)
    requires LastOn(q, s, j, c)
    ensures LastOn(q, Apply(s, a), j, c)
  {
    if !a.Send? {
      QuietJob(s, a, j);
      QuietSent(s, a);
    } else if Apply(s, a) != s {
      LastOnSend(q, s, a.job, a.delivered, j, c);
    }
  }

  lemma {:induction false} LastOnRun(q: State, s: State, acts: seq<Action>, j: nat, c: nat)
    requires LastOn(q, s, j, c)
    ensures LastOn(q, Exec(s, acts), j, c)
    decreases acts
  {
    if acts != [] {
      LastOnStep(q, s, acts[0], j, c);
      LastOnRun(q, Apply(s, acts[0]), acts[1..], j, c);
    }
  }

  lemma LastRead(q: State, a: Action, j: nat)
    requires ChannelOk(q) && Reads(q, a, j) && q.jobs[j].phase.next == |Plan(q.jobs[j].source)| - 1
    ensures q.slot.Some? && LastOn(q, Apply(q, a), j, q.slot.value)
  {
    assert JobChannelOk(q, q.jobs[j]);
    var s := Apply(q, a);
    if a.Send? {
      assert s.sent[|q.sent|].job == j;
    }
  }

  // ----- One channel, exactly

  ghost predicate OneChannel(s: State, j: nat) {
    forall i, k | 0 <= i < |s.sent| && 0 <= k < |s.sent| && s.sent[i].job == j == s.sent[k].job ::
      s.sent[i].channel == s.sent[k].channel
  }

  /** The run begins with job j's read of the slot for its first frame. */
  predicate FirstReads(p: State, acts: seq<Action>, j: nat) {
    acts != [] && Reads(p, acts[0], j) && p.jobs[j].phase.next == 0
  }

  /** The run begins with job j's read of the slot for its last frame. */
  predicate LastReads(q: State, acts: seq<Action>, j: nat) {
    acts != [] && Reads(q, acts[0], j) && q.jobs[j].phase.next == |Plan(q.jobs[j].source)| - 1
  }

  predicate Publishes(s: State, j: nat) {
    j < |s.jobs| && Finished(s.jobs[j])
  }

  predicate ReachedBy(s: State, j: nat, i: nat, c: nat) {
    i < |s.sent| && s.sent[i].job == j && s.sent[i].channel == Some(c)
  }

  /** Job j sent on both channels, and on none outside the two. */
  ghost predicate Spanned(s: State, j: nat, lo: nat, hi: nat) {
    && (exists i: nat :: ReachedBy(s, j, i, lo))
    && (exists i: nat :: ReachedBy(s, j, i, hi))
    && (forall i | 0 <= i < |s.sent| && s.sent[i].job == j ::
          s.sent[i].channel.Some? && lo <= s.sent[i].channel.value <= hi)
  }

  lemma SpannedExact(s: State, j: nat, lo: nat, hi: nat)
    requires Spanned(s, j, lo, hi)
    ensures OneChannel(s, j) <==> lo == hi
  {
    var a: nat :| ReachedBy(s, j, a, lo);
    var b: nat :| ReachedBy(s, j, b, hi);
    if OneChannel(s, j) {
      assert s.sent[a].channel == s.sent[b].channel;
    }
  }

  lemma FirstRead(p: State, mid: seq<Action>, j: nat)
    requires Inv(p) && ChannelOk(p) && FirstReads(p, mid, j)
    ensures p.slot.Some? && NotOlder(p, j, p.slot.value)
    ensures ReachedBy(Exec(p, mid), j, |p.sent|, p.slot.value)
  {
    assert JobChannelOk(p, p.jobs[j]);
    SilentBeforeFirst(p, j);
    if KeepsSender(p.jobs[j]) {
      SnapshotIsLast(p.jobs[j].source, 0);
    }
    var s1 := Apply(p, mid[0]);
    assert s1.sent[|p.sent|].channel == p.slot;
    SentGrowsRun(s1, mid[1..]);
  }

  /** What a publication sent spans the channels of its first and its last read. */
  lemma SentSpans(p: State, mid: seq<Action>, rest: seq<Action>, j: nat)
    requires Inv(p) && ChannelOk(p) && FirstReads(p, mid, j)
    requires LastReads(Exec(p, mid), rest, j)
    requires Publishes(Exec(Exec(p, mid), rest), j)
    ensures p.slot.Some? && Exec(p, mid).slot.Some?
    ensures Spanned(Exec(Exec(p, mid), rest), j, p.slot.value, Exec(p, mid).slot.value)
  {
    var q, s := Exec(p, mid), Exec(Exec(p, mid), rest);
    ChannelRun(p, mid);
    FirstRead(p, mid, j);
    NotOlderRun(p, mid, j, p.slot.value);
    InvRun(p, mid);
    NotOlderRun(q, rest, j, p.slot.value);
    LastRead(q, rest[0], j);
    LastOnRun(q, Apply(q, rest[0]), rest[1..], j, q.slot.value);
    assert LastOn(q, s, j, q.slot.value);
    SentGrowsRun(q, rest);
    SpansFrom(p, q, s, j);
  }

  lemma SpansFrom(p: State, q: State, s: State, j: nat)
    requires p.slot.Some? && q.slot.Some? && ChannelOk(q) && q.sent <= s.sent
    requires ReachedBy(q, j, |p.sent|, p.slot.value) && NotOlder(s, j, p.slot.value)
    requires LastOn(q, s, j, q.slot.value) && Finished(s.jobs[j])
    ensures Spanned(s, j, p.slot.value, q.slot.value)
  {
    assert ReachedBy(s, j, |p.sent|, p.slot.value);
    var last: nat :| |q.sent| <= last < |s.sent| && s.sent[last].job == j;
    assert ReachedBy(s, j, last, q.slot.value);
    forall i | 0 <= i < |s.sent| && s.sent[i].job == j
      ensures s.sent[i].channel.Some? && p.slot.value <= s.sent[i].channel.value <= q.slot.value
    {
      if i < |q.sent| {
        assert s.sent[i] == q.sent[i];
      }
    }
  }

  lemma SlotKeptExact(p: State, mid: seq<Action>)
    requires Inv(p) && ChannelOk(p) && p.slot.Some?
    ensures Exec(p, mid).slot.Some?
    ensures p.slot.value == Exec(p, mid).slot.value <==> !WritesSlot(p, mid)
  {
    ChannelRun(p, mid);
    CountsWrites(p, mid);
  }

  /** A publication of several frames reaches a single channel if and only if no connect
      repoints the slot between the read for its first frame and the read for its last. */
  lemma OneChannelExact(cap: nat, before: seq<Action>, mid: seq<Action>, rest: seq<Action>, j: nat)
    requires FirstReads(Run(cap, before), mid, j)
    requires LastReads(Run(cap, before + mid), rest, j)
    requires Publishes(Run(cap, before + mid + rest), j)
    ensures OneChannel(Run(cap, before + mid + rest), j) <==> !WritesSlot(Run(cap, before), mid)
  {
    var p := Run(cap, before);
    RunChannels(cap, before);
    ExecSplit(Init(cap), before, mid);
    ExecSplit(Init(cap), before + mid, rest);
    SentSpans(p, mid, rest, j);
    SlotKeptExact(p, mid);
    SpannedExact(Run(cap, before + mid + rest), j, p.slot.value, Exec(p, mid).slot.value);
  }

  function FillSeen(id: Id): Source {
    Stream(1, FillLine(Some(id), false, false))
  }

  /** A stream generation takes a fill, claims it and sends its first frame. */
  function HalfPublish(id: Id): seq<Action> {
    [LineArrives(1, FillSeen(id).line)] + [CheckSlot(0)] + [Claim(0)] + [Send(0, true)]
  }

  /** A reconnect writes the slot, and the generation sends its next frame. */
  function RepointAndSend(): seq<Action> {
    [StartConnect(false)] + [Advance(1)] + [Advance(1)] + [Send(0, true)]
  }

  lemma FillFound(s: State, id: Id)
    requires s.slot.Some? && s.jobs == [] && CanTakeLine(s, 1)
    ensures Apply(Apply(s, LineArrives(1, FillSeen(id).line)), CheckSlot(0)) ==
            s.(jobs := [Job(FillSeen(id), Connected)])
  {
    var s1 := Apply(s, LineArrives(1, FillSeen(id).line));
    assert s1.jobs == [Job(FillSeen(id), Arrived)];
    assert s1.jobs[0 := Job(FillSeen(id), Connected)] == [Job(FillSeen(id), Connected)];
  }

  lemma FillClaimed(s: State, id: Id)
    requires s.log == [] && s.jobs == [Job(FillSeen(id), Connected)]
    ensures var s' := Apply(s, Claim(0));
            && s'.jobs == [Job(FillSeen(id), Sending(0, 0, None))]
            && s'.slot == s.slot && s'.channels == s.channels && s'.calls == s.calls && s'.sent == s.sent
  {
    assert Claimable(s.cap, s.log, [id]);
    assert s.jobs[0 := Job(FillSeen(id), Sending(0, 0, None))] == [Job(FillSeen(id), Sending(0, 0, None))];
  }

  /** The n-th frame of the fill goes to the channel now in the slot. */
  lemma FillSent(s: State, id: Id, n: nat)
    requires s.slot.Some? && s.jobs == [Job(FillSeen(id), Sending(0, n, None))] && n < 2
    ensures Plan(FillSeen(id)) == [Frame(Some(id), OrderFrame), Frame(Some(id), TradeFrame)]
    ensures Apply(s, Send(0, true)) ==
            s.(jobs := [Job(FillSeen(id), Sending(0, n + 1, None))],
               sent := s.sent + [Sent(0, Plan(FillSeen(id))[n], s.slot, true)])
  {
    var next := Job(FillSeen(id), Sending(0, n + 1, None));
    assert s.jobs[0 := next] == [next];
  }

  lemma HalfPublished(s: State, id: Id)
    requires s.slot.Some? && s.log == [] && s.jobs == [] && s.sent == [] && CanTakeLine(s, 1)
    ensures var s' := Exec(s, HalfPublish(id));
            && s'.jobs == [Job(FillSeen(id), Sending(0, 1, None))]
            && s'.slot == s.slot && s'.channels == s.channels && s'.calls == s.calls
            && s'.sent == [Sent(0, Frame(Some(id), OrderFrame), s.slot, true)]
  {
    ExecFour(s, LineArrives(1, FillSeen(id).line), CheckSlot(0), Claim(0), Send(0, true));
    FillFound(s, id);
    var found := s.(jobs := [Job(FillSeen(id), Connected)]);
    FillClaimed(found, id);
    FillSent(Apply(found, Claim(0)), id, 0);
  }

  lemma SlotRepointed(s: State)
    requires s.channels == |s.calls| == 1 && !SlotBusy(s)
    ensures var s' := Apply(Apply(Apply(s, StartConnect(false)), Advance(1)), Advance(1));
            s'.slot == Some(1) && s'.jobs == s.jobs && s'.sent == s.sent
  {
    var s1 := Apply(s, StartConnect(false));
    assert s1.calls[1] == Connecting(false, StoreConfig);
    assert Apply(s1, Advance(1)).calls[1] == Connecting(false, WriteSlot);
  }

  lemma Repointed(s: State, id: Id)
    requires s.channels == |s.calls| == 1 && s.jobs == [Job(FillSeen(id), Sending(0, 1, None))]
    ensures Exec(s, RepointAndSend()).sent == s.sent + [Sent(0, Frame(Some(id), TradeFrame), Some(1), true)]
  {
    ExecFour(s, StartConnect(false), Advance(1), Advance(1), Send(0, true));
    SlotRepointed(s);
    FillSent(Apply(Apply(Apply(s, StartConnect(false)), Advance(1)), Advance(1)), id, 1);
  }

  /** A reconnect between the two frames of a streamed fill splits it over two channels. */
  lemma ReconnectSplitsFill(cap: nat, id: Id)
    ensures var s := Run(cap, Connect() + HalfPublish(id) + RepointAndSend());
            s.sent == [Sent(0, Frame(Some(id), OrderFrame), Some(0), true),
                       Sent(0, Frame(Some(id), TradeFrame), Some(1), true)]
  {
    ExecSplit(Init(cap), Connect() + HalfPublish(id), RepointAndSend());
    ExecSplit(Init(cap), Connect(), HalfPublish(id));
    ConnectedOnce(cap);
    HalfPublished(Run(cap, Connect()), id);
    Repointed(Exec(Run(cap, Connect()), HalfPublish(id)), id);
  }

  // ----- The frames of a REST fill

  predicate FillPart(r: Response, frame: Frame) {
    r.FillResponse? && frame in FillFrames(Some(r.fill), r.financing)
  }

  /** All a REST call has sent while between two frames of its fill went to the slot's present
      channel; and the frames of its fill, whenever sent, to one channel. */
  ghost predicate FillTogether(s: State) {
    && (forall j, i | 0 <= j < |s.jobs| && MidFill(s.jobs[j]) && 0 <= i < |s.sent| && s.sent[i].job == j ::
          s.sent[i].channel == s.slot)
    && (forall i, k | 0 <= i < k < |s.sent| && s.sent[i].job == s.sent[k].job < |s.jobs| ::
          Together(s.jobs[s.sent[i].job].source, s.sent[i], s.sent[k]))
  }

  predicate Together(source: Source, a: Sent, b: Sent) {
    source.Rest? && PairDistinct(source) && FillPart(source.response, a.frame) && FillPart(source.response, b.frame) ==>
      a.channel == b.channel
  }

  ghost predicate SendersKnown(s: State) {
    forall i | 0 <= i < |s.sent| :: s.sent[i].job < |s.jobs|
  }

  lemma FillFirst(r: Response, n: nat)
    requires r.FillResponse? && PairDistinct(Rest(r)) && n < |Plan(Rest(r))|
    ensures FillPart(r, Plan(Rest(r))[n]) <==> n < |FillFrames(Some(r.fill), r.financing)|
  {
    var fill, plan := FillFrames(Some(r.fill), r.financing), Plan(Rest(r));
    if n < |fill| {
      assert plan[n] == fill[n];
    }
  }

  /** A REST call's fill frame goes where all it has sent so far went. */
  lemma SendJoins(s: State, j: nat)
    requires SentOk(s) && FillTogether(s) && j < |s.jobs| && CanSend(s.jobs[j]) && s.jobs[j].source.Rest?
    requires PairDistinct(s.jobs[j].source)
    requires FillPart(s.jobs[j].source.response, Plan(s.jobs[j].source)[s.jobs[j].phase.next])
    ensures !KeepsSender(s.jobs[j])
    ensures forall i | 0 <= i < |s.sent| && s.sent[i].job == j :: s.sent[i].channel == s.slot
  {
    var job := s.jobs[j];
    FillFirst(job.source.response, job.phase.next);
    if job.phase.next == 0 {
      SilentBeforeFirst(s, j);
    } else {
      assert MidFill(job);
    }
  }

  lemma SendMidFill(s: State, j: nat, delivered: bool)
    requires SentOk(s) && FillTogether(s) && j < |s.jobs| && CanSend(s.jobs[j])
    ensures var s' := DoSend(s, j, delivered);
            MidFill(s'.jobs[j]) ==>
              forall i | 0 <= i < |s'.sent| && s'.sent[i].job == j :: s'.sent[i].channel == s.slot
  {
    if s.jobs[j].phase.next == 0 {
      SilentBeforeFirst(s, j);
    }
  }

  lemma SendTogether(s: State, j: nat, delivered: bool)
    requires SentOk(s) && FillTogether(s) && j < |s.jobs| && CanSend(s.jobs[j])
    ensures FillTogether(DoSend(s, j, delivered))
  {
    var s' := DoSend(s, j, delivered);
    SendMidFill(s, j, delivered);
    forall k, i | 0 <= k < |s'.jobs| && MidFill(s'.jobs[k]) && 0 <= i < |s'.sent| && s'.sent[i].job == k
      ensures s'.sent[i].channel == s'.slot
    {
      if k != j {
        assert s'.jobs[k] == s.jobs[k] && s'.sent[i] == s.sent[i];
      }
    }
    forall i, k | 0 <= i < k < |s'.sent| && s'.sent[i].job == s'.sent[k].job < |s'.jobs|
      ensures Together(s'.jobs[s'.sent[i].job].source, s'.sent[i], s'.sent[k])
    {
      SendPair(s, j, delivered, i, k);
    }
  }

  lemma SendPair(s: State, j: nat, delivered: bool, i: nat, k: nat)
    requires SentOk(s) && FillTogether(s) && j < |s.jobs| && CanSend(s.jobs[j])
    requires var s' := DoSend(s, j, delivered); i < k < |s'.sent| && s'.sent[i].job == s'.sent[k].job < |s'.jobs|
    ensures var s' := DoSend(s, j, delivered); Together(s'.jobs[s'.sent[i].job].source, s'.sent[i], s'.sent[k])
  {
    var s' := DoSend(s, j, delivered);
    assert s'.sent[i] == s.sent[i];
    var source := s'.jobs[s'.sent[i].job].source;
    if k < |s.sent| {
      assert s'.sent[k] == s.sent[k];
      assert Together(source, s.sent[i], s.sent[k]);
    } else if source.Rest? && PairDistinct(source) && FillPart(source.response, s'.sent[k].frame) {
      SendJoins(s, j);
    }
  }

  lemma QuietTogether(s: State, a: Action)
    requires FillTogether(s) && SendersKnown(s) && !a.Send?
    ensures FillTogether(Apply(s, a))
  {
    var s' := Apply(s, a);
    QuietSent(s, a);
    SlotMoves(s, a);
    forall j | 0 <= j < |s.jobs|
      ensures j < |s'.jobs| && s'.jobs[j].source == s.jobs[j].source && (MidFill(s'.jobs[j]) ==> MidFill(s.jobs[j]))
    {
      QuietJob(s, a, j);
    }
    forall j | |s.jobs| <= j < |s'.jobs|
      ensures !MidFill(s'.jobs[j])
    {
      NewJob(s, a, j);
    }
  }

  lemma {:induction false} TogetherRun(s: State, acts: seq<Action>)
    requires Inv(s) && FillTogether(s)
    ensures FillTogether(Exec(s, acts))
    decreases acts
  {
    if acts != [] {
      var a := acts[0];
      if a.Send? {
        if Apply(s, a) != s { SendTogether(s, a.job, a.delivered); }
      } else {
        QuietTogether(s, a);
      }
      InvStep(s, a);
      TogetherRun(Apply(s, a), acts[1..]);
    }
  }

  /** In every run, the order, trade and financing frames of a fill that a REST call publishes
      reach one and the same channel, wherever connects fall. */
  lemma RestFillOnOneChannel(cap: nat, acts: seq<Action>, i: nat, k: nat)
    requires var s := Run(cap, acts);
             && i < k < |s.sent| && s.sent[i].job == s.sent[k].job < |s.jobs|
             && var source := s.jobs[s.sent[i].job].source;
                && source.Rest? && PairDistinct(source)
                && FillPart(source.response, s.sent[i].frame) && FillPart(source.response, s.sent[k].frame)
    ensures Run(cap, acts).sent[i].channel == Run(cap, acts).sent[k].channel
  {
    TogetherRun(Init(cap), acts);
    var s := Run(cap, acts);
    assert Together(s.jobs[s.sent[i].job].source, s.sent[i], s.sent[k]);
  }
}

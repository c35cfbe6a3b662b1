/**
  When the notice that `is_current` lets through may still land behind a newer message.

  `run_pwa_turn_in_background` looks for a reply, asks whether the slot is still its own, and then
  hands the notice to the writer. The last two are not one step. `NoticeIsSafeIffUnexposed` says
  exactly when that is harmless: when no reply of the turn is committed or on its way. A failed read
  of the log, or a reply that is still with the writer when the engine times out, breaks it.
 */
module ChatRace {
  import opened Wrappers
  import opened MessageLog
  import opened InFlight
  import opened ChatProtocol
  import opened ChatInvariant
  import opened ChatTheorems

  // --- The environment in which every run is clean --------------------------------------------------

  /** The terminal check can read the log, and no reply of the turn is still with the writer. */
  ghost predicate PromptStep(s: State, a: Action)
    requires Enabled(s, a)
  {
    a.CheckReply? ==> a.ok && !Pending(s, Id(s, a.t))
  }

  ghost predicate PromptRun(s: State, run: seq<Action>)
    decreases |run|
  {
    run == [] || (Enabled(s, run[0]) && PromptStep(s, run[0]) && PromptRun(Next(s, run[0]), run[1..]))
  }

  ghost predicate UnsettledUnexposed(s: State) {
    forall t <- s.turns :: s.turns[t].phase == Unsettled ==> !Exposed(s, t)
  }

  lemma PromptStepKeeps(s: State, a: Action)
    requires Inv(s) && UnsettledUnexposed(s) && Enabled(s, a) && PromptStep(s, a)
    ensures CleanStep(s, a) && Inv(Next(s, a)) && UnsettledUnexposed(Next(s, a))
  {
    StepKeeps(s, a);
    forall t <- Next(s, a).turns | Next(s, a).turns[t].phase == Unsettled ensures !Exposed(Next(s, a), t) {
      StaysUnexposed(s, a, t);
    }
  }

  lemma StaysUnexposed(s: State, a: Action, t: nat)
    requires Inv(s) && UnsettledUnexposed(s) && Enabled(s, a) && PromptStep(s, a)
    requires t in Next(s, a).turns && Next(s, a).turns[t].phase == Unsettled
    ensures !Exposed(Next(s, a), t)
  {
    if a == CheckReply(t, true) {
      UnsettledSawNothing(s, t);
      assert All(Next(s, a)) == All(s);
    } else {
      UnsettledBefore(s, a, t);
      RowsArriveBySending(s, a, t);
    }
  }

  lemma UnsettledBefore(s: State, a: Action, t: nat)
    requires Enabled(s, a) && PromptStep(s, a) && a != CheckReply(t, true)
    requires t in Next(s, a).turns && Next(s, a).turns[t].phase == Unsettled
    ensures t in s.turns && s.turns[t].phase == Unsettled
  {
  }

  lemma UnsettledSawNothing(s: State, t: nat)
    requires Inv(s) && Enabled(s, CheckReply(t, true)) && !Pending(s, Id(s, t))
    requires Next(s, CheckReply(t, true)).turns[t].phase == Unsettled
    ensures !Exposed(s, t)
  {
    assert TurnOk(s.log, All(s), s.gate, Id(s, t), s.turns[t]);
    assert forall i :: |s.log| <= i < |All(s)| ==> All(s)[i] == s.queue[i - |s.log|];
    assert forall i :: 0 <= i < |s.log| ==> All(s)[i] == s.log[i];
    if Exposed(s, t) {
      var i :| 0 <= i < |All(s)| && All(s)[i].Pwa? && All(s)[i].role != UserRole && All(s)[i].turn == Id(s, t);
      AnswersComeAfter(s, t, i);
    }
  }

  /** Nobody else answers for an unsettled turn. */
  lemma RowsArriveBySending(s: State, a: Action, t: nat)
    requires Inv(s) && Enabled(s, a) && t in s.turns && s.turns[t].phase == Unsettled && !Exposed(s, t)
    requires t in Next(s, a).turns && Next(s, a).turns[t].phase == Unsettled
    ensures !Exposed(Next(s, a), t)
  {
    var s', id := Next(s, a), Id(s, t);
    match a
    case SendAccept(x) => SendOther(s, s', id);
    case SendReply(x) => SendOther(s, s', id);
    case SendNotice(x) => SendOther(s, s', id);
    case SendForeign => SendOther(s, s', id);
    case Commit(ok) =>
      CommitSplit(s);
      AnsweredDrop(s.log, s.queue[0], s.queue[1..], id);
    case _ =>
  }

  lemma SendOther(s: State, s': State, id: TurnId)
    requires !AnsweredBy(All(s), id)
    requires s'.log == s.log && |s'.queue| == |s.queue| + 1 && s.queue <= s'.queue
    requires s'.queue[|s.queue|].Pwa? ==> s'.queue[|s.queue|].turn != id
    ensures !AnsweredBy(All(s'), id)
  {
    assert All(s') == All(s) + [s'.queue[|s.queue|]];
    AnsweredSnoc(All(s), s'.queue[|s.queue|], id);
  }

  /** Reads that work and replies that arrive in time make every run clean. */
  lemma {:induction false} PromptRunsAreClean(s: State, run: seq<Action>)
    requires Inv(s) && UnsettledUnexposed(s) && PromptRun(s, run)
    ensures CleanRun(s, run)
    decreases |run|
  {
    if run != [] {
      PromptStepKeeps(s, run[0]);
      PromptRunsAreClean(Next(s, run[0]), run[1..]);
    }
  }

  /** So then the log is attributed, without any other assumption. */
  lemma PromptRunsAttribute(run: seq<Action>)
    requires PromptRun(INITIAL, run)
    ensures CanRun(INITIAL, run) && Attributed(After(INITIAL, run).log)
  {
    InitialInv();
    PromptRunsAreClean(INITIAL, run);
    RunKeeps(INITIAL, run);
    EveryAnswerBelongsToLatestMessage(After(INITIAL, run));
  }

  // --- The race ---------------------------------------------------------------------------------------

  function Drain(n: nat): seq<Action> {
    if n == 0 then [] else [Commit(true)] + Drain(n - 1)
  }

  /** The writer works off its queue. */
  lemma {:induction false} DrainCommitsAll(s: State, t: nat)
    requires t in s.turns && s.turns[t].phase == Cleared
    ensures var run := Drain(|s.queue|);
            && CanRun(s, run) && CleanRun(s, run)
            && var s' := After(s, run);
               && s'.log == All(s) && s'.queue == [] && s'.gate == s.gate && s'.up == s.up
               && s'.epoch == s.epoch && s'.waiters == s.waiters
               && t in s'.turns && s'.turns[t] == s.turns[t]
    decreases |s.queue|
  {
    if s.queue == [] {
      assert All(s) == s.log;
    } else {
      var s1 := Next(s, Commit(true));
      assert Drain(|s.queue|)[1..] == Drain(|s1.queue|);
      CommitSplit(s);
      DrainCommitsAll(s1, t);
    }
  }

  lemma FreshWaiter(m: map<nat, Waiter>) returns (w: nat)
    ensures w !in m
  {
    w := 0;
    var left := m.Keys;
    while w in m
      invariant forall k <- m.Keys :: k < w || k in left
      decreases left
    {
      if w in left {
        left := left - {w};
      }
      w := w + 1;
    }
  }

  lemma Prepend(s: State, a: Action, rest: seq<Action>)
    requires Enabled(s, a) && !a.CheckCurrent? && CanRun(Next(s, a), rest) && CleanRun(Next(s, a), rest)
    ensures CanRun(s, [a] + rest) && CleanRun(s, [a] + rest)
    ensures After(s, [a] + rest) == After(Next(s, a), rest)
  {
    assert ([a] + rest)[1..] == rest;
  }

  /** A newer request takes the finished slot over. */
  lemma OvertakeAdmits(s: State, t: nat, w: nat, u: UserId) returns (run: seq<Action>)
    requires s.up && t in s.turns && s.turns[t].phase == Cleared && u == s.turns[t].user
    requires Owns(s.gate, u, t) && s.gate.slots[u].sinceId.Some? && w !in s.waiters
    requires HasReplyAfter(s.log, u, s.gate.slots[u].sinceId.value)
    ensures CanRun(s, run) && CleanRun(s, run)
    ensures var s' := After(s, run);
            && s'.log == s.log && s'.queue == s.queue && s'.up && s'.epoch == s.epoch
            && s'.turns == s.turns[s.gate.nextToken + 1 := Turn(u, Holding, None)]
  {
    var s1 := Next(s, Arrive(w, u));
    var s2 := Next(s1, ReadHolder(w, true));
    var s3 := Next(s2, Reclaim(w));
    Prepend(s2, Reclaim(w), []);
    Prepend(s1, ReadHolder(w, true), [Reclaim(w)] + []);
    run := [Arrive(w, u)] + ([ReadHolder(w, true)] + ([Reclaim(w)] + []));
    Prepend(s, Arrive(w, u), [ReadHolder(w, true)] + ([Reclaim(w)] + []));
  }

  /** Its message and the older turn's notice are committed in that order. */
  lemma OvertakeWrites(s: State, t: nat, x: nat, u: UserId) returns (run: seq<Action>)
    requires s.up && s.queue == [] && t != x
    requires x in s.turns && s.turns[x] == Turn(u, Holding, None)
    requires t in s.turns && s.turns[t].phase == Cleared && s.turns[t].user == u
    ensures CanRun(s, run) && CleanRun(s, run)
    ensures After(s, run).log == s.log + [Pwa(u, UserRole, Id(s, x))] + [Pwa(u, Notice, Id(s, t))]
  {
    var message, notice := Pwa(u, UserRole, Id(s, x)), Pwa(u, Notice, Id(s, t));
    var s1 := Next(s, SendAccept(x));
    var s2 := Next(s1, SendNotice(t));
    assert s2.queue == [message, notice];
    var s3 := Next(s2, Commit(true));
    assert s3.queue == [notice] && s3.log == s.log + [message];
    var s4 := Next(s3, Commit(true));
    assert s4.log == s.log + [message] + [notice];
    Prepend(s3, Commit(true), []);
    Prepend(s2, Commit(true), [Commit(true)] + []);
    Prepend(s1, SendNotice(t), [Commit(true)] + ([Commit(true)] + []));
    run := [SendAccept(x)] + ([SendNotice(t)] + ([Commit(true)] + ([Commit(true)] + [])));
    Prepend(s, SendAccept(x), [SendNotice(t)] + ([Commit(true)] + ([Commit(true)] + [])));
  }

  lemma MisplacedNotice(log: Log, u: UserId, x: TurnId, t: TurnId)
    requires x != t
    ensures !Attributed(log + [Pwa(u, UserRole, x)] + [Pwa(u, Notice, t)])
  {
    var l := log + [Pwa(u, UserRole, x)] + [Pwa(u, Notice, t)];
    Snoc(log, Pwa(u, UserRole, x));
    assert l[..|log| + 1] == log + [Pwa(u, UserRole, x)];
    assert !AttributedAt(l, |log| + 1);
  }

  /**
    At the moment `is_current` says yes, the notice is safe in every clean continuation exactly when no
    reply of this turn is committed or on its way.
   */
  lemma NoticeIsSafeIffUnexposed(s: State, t: nat)
    requires Inv(s) && Enabled(s, CheckCurrent(t)) && Owns(s.gate, s.turns[t].user, t)
    ensures !Exposed(s, t) <==>
            forall run :: CanRun(Next(s, CheckCurrent(t)), run) && CleanRun(Next(s, CheckCurrent(t)), run)
                          ==> Attributed(After(Next(s, CheckCurrent(t)), run).log)
  {
    var s1 := Next(s, CheckCurrent(t));
    if Exposed(s, t) {
      var run := ExposedNoticeBreaks(s, t);
    } else {
      StepKeeps(s, CheckCurrent(t));
      forall run | CanRun(s1, run) && CleanRun(s1, run) ensures Attributed(After(s1, run).log) {
        RunKeeps(s1, run);
        var s2 := After(s1, run);
        assert s2.log == All(s2)[..|s2.log|];
        AttributedPrefix(All(s2), |s2.log|);
      }
    }
  }

  /** A turn that owns its slot and has a reply has it above the `sinceId` in its slot. */
  lemma ExposedReply(s: State, t: nat) returns (i: nat)
    requires Inv(s) && Enabled(s, CheckCurrent(t)) && Owns(s.gate, s.turns[t].user, t) && Exposed(s, t)
    ensures s.gate.slots[s.turns[t].user].sinceId.Some?
    ensures s.gate.slots[s.turns[t].user].sinceId.value <= i < |All(s)| && IsAnswer(All(s)[i], s.turns[t].user)
  {
    assert SlotOk(s, s.turns[t].user) && TurnOk(s.log, All(s), s.gate, Id(s, t), s.turns[t]);
    i :| 0 <= i < |All(s)| && All(s)[i].Pwa? && All(s)[i].role != UserRole && All(s)[i].turn == Id(s, t);
    AnswersComeAfter(s, t, i);
  }

  lemma OvertakeBreaks(s: State, t: nat) returns (run: seq<Action>)
    requires s.up && s.queue == [] && t in s.turns && s.turns[t].phase == Cleared && t <= s.gate.nextToken
    requires Owns(s.gate, s.turns[t].user, t) && s.gate.slots[s.turns[t].user].sinceId.Some?
    requires HasReplyAfter(s.log, s.turns[t].user, s.gate.slots[s.turns[t].user].sinceId.value)
    ensures CanRun(s, run) && CleanRun(s, run) && !Attributed(After(s, run).log)
  {
    var u, x := s.turns[t].user, s.gate.nextToken + 1;
    var w := FreshWaiter(s.waiters);
    var admit := OvertakeAdmits(s, t, w, u);
    var write := OvertakeWrites(After(s, admit), t, x, u);
    MisplacedNotice(s.log, u, Id(s, x), Id(s, t));
    run := admit + write;
    RunConcat(s, admit, write);
  }

  lemma ExposedNoticeBreaks(s: State, t: nat) returns (run: seq<Action>)
    requires Inv(s) && Enabled(s, CheckCurrent(t)) && Owns(s.gate, s.turns[t].user, t) && Exposed(s, t)
    ensures var s1 := Next(s, CheckCurrent(t));
            CanRun(s1, run) && CleanRun(s1, run) && !Attributed(After(s1, run).log)
  {
    var s1 := Next(s, CheckCurrent(t));
    var i := ExposedReply(s, t);
    DrainCommitsAll(s1, t);
    var drain := Drain(|s1.queue|);
    var s2 := After(s1, drain);
    assert s2.log[i] == All(s)[i];
    var rest := OvertakeBreaks(s2, t);
    RunConcat(s1, drain, rest);
    run := drain + rest;
  }

  // --- Two ways to be exposed -------------------------------------------------------------------------

  /** A turn of user `u` up to the moment its engine hands over a reply. */
  function ReplyHandedOver(u: UserId): State {
    State(true, 0, [Pwa(u, UserRole, TurnId(0, 1))], [Pwa(u, Reply, TurnId(0, 1))],
          Gate(1, map[u := Slot(1, Some(0))]),
          map[1 := Turn(u, ReplySent, Some(AcceptedMessage(1, 0)))],
          map[0 := Admitted(u, 1)])
  }

  function MessageCommitted(u: UserId): State {
    State(true, 0, [Pwa(u, UserRole, TurnId(0, 1))], [],
          Gate(1, map[u := Slot(1, None)]),
          map[1 := Turn(u, Accepted, Some(AcceptedMessage(1, 0)))],
          map[0 := Admitted(u, 1)])
  }

  function MessageHandedOver(u: UserId): State {
    State(true, 0, [], [Pwa(u, UserRole, TurnId(0, 1))],
          Gate(1, map[u := Slot(1, None)]), map[1 := Turn(u, AcceptSent, None)], map[0 := Admitted(u, 1)])
  }

  lemma MessageHandedOverReachable(u: UserId)
    ensures Reachable(MessageHandedOver(u))
  {
    assert CanRun(INITIAL, []) && CleanRun(INITIAL, []) && After(INITIAL, []) == INITIAL;
    ReachStep(INITIAL, Serve);
    var s1 := Next(INITIAL, Serve);
    ReachStep(s1, Arrive(0, u));
    var s2 := Next(s1, Arrive(0, u));
    assert s2 == State(true, 0, [], [], Gate(1, map[u := Slot(1, None)]), map[1 := Turn(u, Holding, None)], map[0 := Admitted(u, 1)]);
    ReachStep(s2, SendAccept(1));
    assert Next(s2, SendAccept(1)) == MessageHandedOver(u);
  }

  lemma MessageCommittedReachable(u: UserId)
    ensures Reachable(MessageCommitted(u))
  {
    var s := MessageHandedOver(u);
    MessageHandedOverReachable(u);
    ReachStep(s, Commit(true));
    assert Next(s, Commit(true)) == MessageCommitted(u);
  }

  lemma ReplyHandedOverReachable(u: UserId)
    ensures Reachable(ReplyHandedOver(u))
  {
    var s0 := MessageCommitted(u);
    MessageCommittedReachable(u);
    ReachStep(s0, Mark(1));
    var s1 := Next(s0, Mark(1));
    ReachStep(s1, SendReply(1));
    assert Next(s1, SendReply(1)) == ReplyHandedOver(u);
  }

  /** The same turn when its terminal check has seen no reply: `log` and `queue` say where the reply is. */
  function SawNoReply(u: UserId, log: Log, queue: seq<Row>): State {
    ReplyHandedOver(u).(
      log := log, queue := queue, turns := map[1 := Turn(u, Unsettled, Some(AcceptedMessage(1, 0)))])
  }

  lemma SettlesUnsettled(s: State, u: UserId, ok: bool)
    requires s == ReplyHandedOver(u).(log := s.log, queue := s.queue) && Reachable(s)
    requires ok ==> !HasReplyAfter(s.log, u, 0)
    ensures Reachable(SawNoReply(u, s.log, s.queue))
  {
    ReachStep(s, Settle(1));
    ReachStep(Next(s, Settle(1)), CheckReply(1, ok));
    assert Next(Next(s, Settle(1)), CheckReply(1, ok)) == SawNoReply(u, s.log, s.queue);
  }

  /** The engine times out while its reply is with the writer: the log shows nothing yet. */
  lemma LateReplyExposes(u: UserId) returns (s: State)
    ensures Reachable(s) && Enabled(s, CheckCurrent(1)) && Owns(s.gate, s.turns[1].user, 1) && Exposed(s, 1)
    ensures s.log == [Pwa(u, UserRole, TurnId(0, 1))]
  {
    ReplyHandedOverReachable(u);
    SettlesUnsettled(ReplyHandedOver(u), u, true);
    s := SawNoReply(u, ReplyHandedOver(u).log, ReplyHandedOver(u).queue);
    assert All(s)[1] == Pwa(u, Reply, TurnId(0, 1));
  }

  /** The reply is committed but the read of the log fails. */
  lemma FailedReadExposes(u: UserId) returns (s: State)
    ensures Reachable(s) && Enabled(s, CheckCurrent(1)) && Owns(s.gate, s.turns[1].user, 1) && Exposed(s, 1)
    ensures s.queue == []
  {
    var s0 := ReplyHandedOver(u);
    ReplyHandedOverReachable(u);
    ReachStep(s0, Commit(true));
    assert Next(s0, Commit(true)) == s0.(log := All(s0), queue := []);
    SettlesUnsettled(s0.(log := All(s0), queue := []), u, false);
    s := SawNoReply(u, All(s0), []);
    assert All(s)[1] == Pwa(u, Reply, TurnId(0, 1));
  }
}

/**
  Who gets in, and what becomes of a request that nothing interferes with.

  The other modules say what never happens. Here is what does: a request of a user all of whose live
  turns are answered gets a guard by its own steps, a turn left alone ends with exactly one answer and
  a free slot, and nobody else notices either.
 */
module ChatAdmission {
  import opened Wrappers
  import opened MessageLog
  import opened InFlight
  import opened ChatProtocol
  import opened ChatInvariant
  import opened ChatTheorems

  /** A clean run leads from one state to the other. */
  ghost predicate Leads(s: State, run: seq<Action>, s': State) {
    CanRun(s, run) && CleanRun(s, run) && After(s, run) == s'
  }

  lemma LeadsOn(s: State, run: seq<Action>, mid: State, a: Action)
    requires Leads(s, run, mid) && Enabled(mid, a) && CleanStep(mid, a)
    ensures Leads(s, run + [a], Next(mid, a))
  {
    OneStep(mid, a);
    RunConcat(s, run, [a]);
  }

  lemma LeadsNowhere(s: State)
    ensures Leads(s, [], s)
  {
  }

  /** Every live turn of the user has a committed answer. */
  ghost predicate AllAnswered(s: State, u: UserId) {
    forall t <- s.turns :: s.turns[t].user == u ==> AnsweredBy(s.log, Id(s, t))
  }

  // --- Getting in ---------------------------------------------------------------------------------

  /** What it means to get in: a guard with a new token and a slot, and nothing else has changed. */
  ghost predicate GotIn(s: State, w: nat, u: UserId, s': State) {
    var t := s.gate.nextToken + 1;
    && s' == s.(gate := Gate(t, s'.gate.slots), turns := s.turns[t := Turn(u, Holding, None)],
                waiters := s.waiters[w := Admitted(u, t)])
    && t !in s.turns && Owns(s'.gate, u, t)
    && (forall v | v != u :: v in s'.gate.slots <==> v in s.gate.slots)
    && (forall v <- s.gate.slots | v != u :: s'.gate.slots[v] == s.gate.slots[v])
  }

  lemma AdmittedGotIn(s: State, w: nat, u: UserId)
    requires Inv(s)
    ensures GotIn(s, w, u, Admit(s, w, u))
  {
  }

  /** A user without a turn gets in at once, whoever else has one. */
  lemma FreeUserGetsIn(s: State, w: nat, u: UserId)
    requires Reachable(s) && Enabled(s, Arrive(w, u)) && forall t <- s.turns :: s.turns[t].user != u
    ensures GotIn(s, w, u, Next(s, Arrive(w, u)))
  {
    ReachableInv(s);
    NoLeakedSlot(s);
    AdmittedGotIn(s, w, u);
  }

  /** So does, by its own steps and with a read that works, a user all of whose turns are answered. */
  lemma AnsweredUserGetsIn(s: State, w: nat, u: UserId) returns (run: seq<Action>)
    requires Reachable(s) && Enabled(s, Arrive(w, u)) && AllAnswered(s, u)
    ensures run in {[Arrive(w, u)], [Arrive(w, u), ReadHolder(w, true), Reclaim(w)]}
    ensures CanRun(s, run) && CleanRun(s, run) && GotIn(s, w, u, After(s, run))
  {
    ReachableInv(s);
    AdmittedGotIn(s, w, u);
    if u in s.gate.slots {
      var since := HolderIsSeenAnswered(s, u);
      TakesOver(s, w, u, since);
      run := [Arrive(w, u), ReadHolder(w, true), Reclaim(w)];
    } else {
      run := [Arrive(w, u)];
      OneStep(s, Arrive(w, u));
    }
  }

  lemma TakesOver(s: State, w: nat, u: UserId, since: nat)
    requires Enabled(s, Arrive(w, u)) && u in s.gate.slots
    requires s.gate.slots[u].sinceId == Some(since) && HasReplyAfter(s.log, u, since)
    ensures Leads(s, [Arrive(w, u), ReadHolder(w, true), Reclaim(w)], Admit(s, w, u))
  {
    var h := s.gate.slots[u].token;
    var s1 := s.(waiters := s.waiters[w := Checking(u, h, since)]);
    var s2 := s.(waiters := s.waiters[w := Reclaiming(u, h, since)]);
    assert Next(s, Arrive(w, u)) == s1;
    OneStep(s, Arrive(w, u));
    assert s1.waiters[w := Reclaiming(u, h, since)] == s2.waiters;
    LeadsOn(s, [Arrive(w, u)], s1, ReadHolder(w, true));
    assert s2.waiters[w := Admitted(u, s.gate.nextToken + 1)] == Admit(s, w, u).waiters;
    LeadsOn(s, [Arrive(w, u)] + [ReadHolder(w, true)], s2, Reclaim(w));
    assert [Arrive(w, u)] + [ReadHolder(w, true)] + [Reclaim(w)] == [Arrive(w, u), ReadHolder(w, true), Reclaim(w)];
  }

  /** The slot of an answered holder tells a `sinceId` above which its answer is. */
  lemma HolderIsSeenAnswered(s: State, u: UserId) returns (since: nat)
    requires Inv(s) && u in s.gate.slots && AllAnswered(s, u)
    ensures s.gate.slots[u].sinceId == Some(since) && HasReplyAfter(s.log, u, since)
  {
    var h := s.gate.slots[u].token;
    assert SlotOk(s, u) && TurnOk(s.log, All(s), s.gate, Id(s, h), s.turns[h]);
    var i :| 0 <= i < |s.log| && s.log[i].Pwa? && s.log[i].role != UserRole && s.log[i].turn == Id(s, h);
    assert All(s)[i] == s.log[i];
    AnswersComeAfter(s, h, i);
    since := s.gate.slots[u].sinceId.value;
  }

  /**
    While a turn of the user has no answer, a request is refused: at once if the turn's message has not
    been recorded yet, and else after its read of the log, whatever comes of it.
   */
  lemma BusyUserIsRefused(s: State, w: nat, u: UserId, ok: bool)
    requires Reachable(s) && Enabled(s, Arrive(w, u)) && !AllAnswered(s, u)
    ensures var s1 := Next(s, Arrive(w, u));
            && s1 == s.(waiters := s.waiters[w := s1.waiters[w]])
            && (s1.waiters[w] == Rejected(u, Busy)
                || (&& Enabled(s1, ReadHolder(w, ok))
                    && var s2 := Next(s1, ReadHolder(w, ok));
                       s2 == s1.(waiters := s1.waiters[w := Rejected(u, if ok then Unanswered else ReadFailed)])))
  {
    ReachableInv(s);
    var t :| t in s.turns && s.turns[t].user == u && !AnsweredBy(s.log, Id(s, t));
    assert TurnOk(s.log, All(s), s.gate, Id(s, t), s.turns[t]);
    if s.gate.slots[u].sinceId.Some? && HasReplyAfter(s.log, u, s.gate.slots[u].sinceId.value) {
      SeenHolderAnswered(s, u, t, s.gate.slots[u].sinceId.value);
    }
  }

  /** The steps of one request until it has a guard or is refused. */
  predicate OwnStep(a: Action, w: nat, u: UserId) {
    a == Arrive(w, u) || a == Reclaim(w) || (a.ReadHolder? && a.w == w)
  }

  predicate OwnRun(run: seq<Action>, w: nat, u: UserId) {
    forall a <- run :: OwnStep(a, w, u)
  }

  /** What the request's own steps can have done: at most one new turn, its own. */
  ghost predicate OnlyEntered(s: State, w: nat, u: UserId, s': State) {
    && s'.log == s.log && s'.epoch == s.epoch
    && (forall t <- s.turns :: t in s'.turns && s'.turns[t] == s.turns[t])
    && w in s'.waiters
    && match s'.waiters[w]
       case Checking(v, _, _) => v == u
       case Reclaiming(v, _, _) => v == u
       case Admitted(v, t) => v == u && t !in s.turns && t in s'.turns && s'.turns[t] == Turn(u, Holding, None)
       case Rejected(v, _) => v == u
  }

  lemma {:induction false} OwnStepsOnlyEnter(s: State, mid: State, run: seq<Action>, w: nat, u: UserId)
    requires Reachable(mid) && CanRun(mid, run) && OwnRun(run, w, u) && OnlyEntered(s, w, u, mid)
    ensures CleanRun(mid, run) && Reachable(After(mid, run)) && OnlyEntered(s, w, u, After(mid, run))
    decreases |run|
  {
    if run != [] {
      var a := run[0];
      assert a in run;
      ReachableInv(mid);
      ReachStep(mid, a);
      OwnStepsOnlyEnter(s, Next(mid, a), run[1..], w, u);
    }
  }

  /**
    A request gets in by its own steps if and only if every live turn of its user is answered: no false
    conflict, and no second turn while one is at work.
   */
  lemma GetsInIff(s: State, w: nat, u: UserId)
    requires Reachable(s) && Enabled(s, Arrive(w, u))
    ensures AllAnswered(s, u) <==>
              exists run :: CanRun(s, run) && OwnRun(run, w, u) && w in After(s, run).waiters && After(s, run).waiters[w].Admitted?
  {
    if AllAnswered(s, u) {
      var run := AnsweredUserGetsIn(s, w, u);
      assert OwnRun(run, w, u);
    }
    if run :| CanRun(s, run) && OwnRun(run, w, u) && w in After(s, run).waiters && After(s, run).waiters[w].Admitted? {
      InMeansAnswered(s, w, u, run);
    }
  }

  lemma InMeansAnswered(s: State, w: nat, u: UserId, run: seq<Action>)
    requires Reachable(s) && Enabled(s, Arrive(w, u))
    requires CanRun(s, run) && OwnRun(run, w, u) && w in After(s, run).waiters && After(s, run).waiters[w].Admitted?
    ensures AllAnswered(s, u)
  {
    assert run[0] in run && run[0] == Arrive(w, u);
    ReachStep(s, Arrive(w, u));
    ArriveOnlyEnters(s, w, u);
    OwnStepsOnlyEnter(s, Next(s, Arrive(w, u)), run[1..], w, u);
    var s' := After(s, run);
    var x := s'.waiters[w].token;
    EnteredIsUnanswered(s', x);
    forall t <- s.turns | s.turns[t].user == u ensures AnsweredBy(s.log, Id(s, t)) {
      if !AnsweredBy(s.log, Id(s, t)) {
        OneUnansweredTurn(s', t, x);
      }
    }
  }

  lemma ArriveOnlyEnters(s: State, w: nat, u: UserId)
    requires Reachable(s) && Enabled(s, Arrive(w, u))
    ensures OnlyEntered(s, w, u, Next(s, Arrive(w, u)))
  {
    ReachableInv(s);
  }

  lemma EnteredIsUnanswered(s: State, t: nat)
    requires Reachable(s) && t in s.turns && s.turns[t].phase == Holding
    ensures !AnsweredBy(s.log, Id(s, t))
  {
    ReachableInv(s);
    assert TurnOk(s.log, All(s), s.gate, Id(s, t), s.turns[t]);
    assert forall i :: 0 <= i < |s.log| ==> All(s)[i] == s.log[i];
  }

  // --- A turn left alone --------------------------------------------------------------------------

  /** A turn that owns its slot and has no rows, with the writer idle. */
  ghost predicate Alone(s: State, t: nat, u: UserId) {
    && s.up && s.queue == [] && t in s.turns && s.turns[t].user == u && s.turns[t].phase == Holding
    && Owns(s.gate, u, t) && NoRowsBy(s.log, Id(s, t))
  }

  function MessageOf(s: State, t: nat, u: UserId): Row {
    Pwa(u, UserRole, Id(s, t))
  }

  /** The turn's message is committed and the client answered 202. */
  function Answered202(s: State, t: nat, u: UserId): State {
    s.(log := s.log + [MessageOf(s, t, u)],
       gate := s.gate.(slots := s.gate.slots[u := Slot(t, Some(MaxId(s.log, u)))]),
       turns := s.turns[t := Turn(u, Running, Some(AcceptedMessage(|s.log| + 1, MaxId(s.log, u))))])
  }

  lemma AcceptsAlone(s: State, t: nat, u: UserId)
    requires Alone(s, t, u)
    ensures Leads(s, [SendAccept(t), Commit(true), Mark(t)], Answered202(s, t, u))
  {
    LeadsNowhere(s);
    LeadsOn(s, [], s, SendAccept(t));
    var s1 := Next(s, SendAccept(t));
    assert s1.queue == [MessageOf(s, t, u)];
    LeadsOn(s, [] + [SendAccept(t)], s1, Commit(true));
    var s2 := Next(s1, Commit(true));
    assert s2.queue == [] && s2.turns[t].phase == Accepted;
    LeadsOn(s, [] + [SendAccept(t)] + [Commit(true)], s2, Mark(t));
    assert [] + [SendAccept(t)] + [Commit(true)] + [Mark(t)] == [SendAccept(t), Commit(true), Mark(t)];
    assert Next(s2, Mark(t)) == Answered202(s, t, u);
  }

  /** The turn's answer is committed and its guard is about to be dropped. */
  function Ended(s: State, t: nat, u: UserId, role: Role): State
    requires t in s.turns
  {
    s.(log := s.log + [Pwa(u, role, Id(s, t))], turns := s.turns[t := s.turns[t].(phase := Leaving)])
  }

  /** The turn's reply is committed; the engine has not returned yet. */
  function Replied(s: State, t: nat, u: UserId): State
    requires t in s.turns
  {
    s.(log := s.log + [Pwa(u, Reply, Id(s, t))], turns := s.turns[t := s.turns[t].(phase := ReplySent)])
  }

  lemma WritesReply(s: State, t: nat, u: UserId)
    requires InPhase(s, t, Running) && s.turns[t].user == u && s.queue == []
    ensures Leads(s, [SendReply(t), Commit(true)], Replied(s, t, u))
  {
    OneStep(s, SendReply(t));
    var s1 := Next(s, SendReply(t));
    assert s1.queue == [Pwa(u, Reply, Id(s, t))];
    LeadsOn(s, [SendReply(t)], s1, Commit(true));
    assert [SendReply(t)] + [Commit(true)] == [SendReply(t), Commit(true)];
    assert Next(s1, Commit(true)) == Replied(s, t, u);
  }

  lemma SeesReply(s: State, t: nat, u: UserId)
    requires InPhase(s, t, ReplySent) && s.turns[t].user == u && HasReplyAfter(s.log, u, Since(s.turns[t]))
    ensures Leads(s, [Settle(t), CheckReply(t, true)], WithPhase(s, t, Leaving))
  {
    OneStep(s, Settle(t));
    var s1 := Next(s, Settle(t));
    LeadsOn(s, [Settle(t)], s1, CheckReply(t, true));
    assert [Settle(t)] + [CheckReply(t, true)] == [Settle(t), CheckReply(t, true)];
    assert Next(s1, CheckReply(t, true)) == WithPhase(s, t, Leaving);
  }

  lemma RepliesAlone(s: State, t: nat, u: UserId)
    requires InPhase(s, t, Running) && s.turns[t].user == u && s.queue == [] && Since(s.turns[t]) <= |s.log|
    ensures Leads(s, [SendReply(t), Commit(true), Settle(t), CheckReply(t, true)], Ended(s, t, u, Reply))
  {
    var mid := Replied(s, t, u);
    WritesReply(s, t, u);
    assert IsAnswer(mid.log[|s.log|], u);
    SeesReply(mid, t, u);
    LeadsThrough(s, [SendReply(t), Commit(true)], mid, [Settle(t), CheckReply(t, true)], WithPhase(mid, t, Leaving));
    assert [SendReply(t), Commit(true)] + [Settle(t), CheckReply(t, true)] ==
           [SendReply(t), Commit(true), Settle(t), CheckReply(t, true)];
    assert WithPhase(mid, t, Leaving) == Ended(s, t, u, Reply);
  }

  lemma GivesUpAlone(s: State, t: nat, u: UserId)
    requires InPhase(s, t, Running) && s.turns[t].user == u && s.queue == [] && Owns(s.gate, u, t)
    requires !HasReplyAfter(s.log, u, Since(s.turns[t])) && !AnsweredBy(s.log, Id(s, t))
    ensures Leads(s, [Settle(t), CheckReply(t, true), CheckCurrent(t)], WithPhase(s, t, Cleared))
  {
    LeadsNowhere(s);
    LeadsOn(s, [], s, Settle(t));
    var s1 := Next(s, Settle(t));
    LeadsOn(s, [] + [Settle(t)], s1, CheckReply(t, true));
    var s2 := Next(s1, CheckReply(t, true));
    assert s2 == WithPhase(s, t, Unsettled) && All(s2) == s.log;
    LeadsOn(s, [] + [Settle(t)] + [CheckReply(t, true)], s2, CheckCurrent(t));
    assert [] + [Settle(t)] + [CheckReply(t, true)] + [CheckCurrent(t)] == [Settle(t), CheckReply(t, true), CheckCurrent(t)];
    assert Next(s2, CheckCurrent(t)) == WithPhase(s, t, Cleared);
  }

  lemma NoticesAlone(s: State, t: nat, u: UserId)
    requires InPhase(s, t, Cleared) && s.turns[t].user == u && s.queue == []
    ensures Leads(s, [SendNotice(t), Commit(true), Finish(t)], Ended(s, t, u, Notice))
  {
    LeadsNowhere(s);
    LeadsOn(s, [], s, SendNotice(t));
    var s1 := Next(s, SendNotice(t));
    assert s1.queue == [Pwa(u, Notice, Id(s, t))];
    LeadsOn(s, [] + [SendNotice(t)], s1, Commit(true));
    var s2 := Next(s1, Commit(true));
    assert s2.queue == [];
    LeadsOn(s, [] + [SendNotice(t)] + [Commit(true)], s2, Finish(t));
    assert [] + [SendNotice(t)] + [Commit(true)] + [Finish(t)] == [SendNotice(t), Commit(true), Finish(t)];
    assert Next(s2, Finish(t)) == Ended(s, t, u, Notice);
  }

  lemma LeadsThrough(s: State, r1: seq<Action>, mid: State, r2: seq<Action>, end: State)
    requires Leads(s, r1, mid) && Leads(mid, r2, end)
    ensures Leads(s, r1 + r2, end)
  {
    RunConcat(s, r1, r2);
  }

  /** How a turn ends, by whether the engine replies. */
  function Ending(t: nat, replies: bool): seq<Action> {
    if replies then [SendReply(t), Commit(true), Settle(t), CheckReply(t, true)]
    else [Settle(t), CheckReply(t, true), CheckCurrent(t)] + [SendNotice(t), Commit(true), Finish(t)]
  }

  /**
    A turn left alone writes its message and one answer: the engine's reply, or the notice if there is
    none. Then it is gone, its slot is free, and everything else is as before.
   */
  lemma LeftAlone(s: State, t: nat, u: UserId, replies: bool)
    requires Alone(s, t, u)
    ensures var role := if replies then Reply else Notice;
            Leads(s, [SendAccept(t), Commit(true), Mark(t)] + Ending(t, replies) + [Drop(t)],
                  s.(log := s.log + [MessageOf(s, t, u), Pwa(u, role, Id(s, t))],
                     turns := s.turns - {t}, gate := s.gate.(slots := s.gate.slots - {u})))
  {
    var role := if replies then Reply else Notice;
    var s1 := Answered202(s, t, u);
    var s2 := Ended(s1, t, u, role);
    AcceptsAlone(s, t, u);
    if replies {
      RepliesAlone(s1, t, u);
    } else {
      GivesUpAlone(s1, t, u);
      NoticesAlone(WithPhase(s1, t, Cleared), t, u);
      LeadsThrough(s1, [Settle(t), CheckReply(t, true), CheckCurrent(t)], WithPhase(s1, t, Cleared),
                   [SendNotice(t), Commit(true), Finish(t)], Ended(WithPhase(s1, t, Cleared), t, u, Notice));
      assert Ended(WithPhase(s1, t, Cleared), t, u, Notice) == s2;
    }
    LeadsThrough(s, [SendAccept(t), Commit(true), Mark(t)], s1, Ending(t, replies), s2);
    LeadsOn(s, [SendAccept(t), Commit(true), Mark(t)] + Ending(t, replies), s2, Drop(t));
    assert s2.log == s.log + [MessageOf(s, t, u), Pwa(u, role, Id(s, t))];
    assert Next(s2, Drop(t)).turns == s.turns - {t};
    assert Next(s2, Drop(t)).gate.slots == s.gate.slots - {u};
  }

  lemma AloneOnceIn(s: State, w: nat, u: UserId, s': State)
    requires Inv(s) && s.up && s.queue == [] && GotIn(s, w, u, s')
    ensures Alone(s', s.gate.nextToken + 1, u)
  {
    assert All(s) == s.log;
  }

  /** The same for a request from its arrival on, when the writer is idle and the user's turns are answered. */
  lemma RequestLeftAlone(s: State, w: nat, u: UserId, replies: bool) returns (run: seq<Action>)
    requires Reachable(s) && Enabled(s, Arrive(w, u)) && AllAnswered(s, u) && s.queue == []
    ensures CanRun(s, run) && CleanRun(s, run)
    ensures var (s', t) := (After(s, run), s.gate.nextToken + 1);
            && s'.log == s.log + [MessageOf(s, t, u), Pwa(u, if replies then Reply else Notice, Id(s, t))]
            && s'.queue == [] && s'.turns == s.turns
            && u !in s'.gate.slots
            && forall v <- s.gate.slots | v != u :: v in s'.gate.slots && s'.gate.slots[v] == s.gate.slots[v]
  {
    var t := s.gate.nextToken + 1;
    ReachableInv(s);
    run := AnsweredUserGetsIn(s, w, u);
    var s1 := After(s, run);
    AloneOnceIn(s, w, u, s1);
    LeftAlone(s1, t, u, replies);
    var rest := [SendAccept(t), Commit(true), Mark(t)] + Ending(t, replies) + [Drop(t)];
    LeadsThrough(s, run, s1, rest, After(s1, rest));
    run := run + rest;
    assert s1.turns - {t} == s.turns;
  }
}

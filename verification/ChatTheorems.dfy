/** What the chat turn protocol promises, over every clean run. */
module ChatTheorems {
  import opened Wrappers
  import opened MessageLog
  import opened InFlight
  import opened ChatProtocol
  import opened ChatInvariant

  /** States that some clean run from the start arrives at. */
  ghost predicate Reachable(s: State) {
    exists run :: CanRun(INITIAL, run) && CleanRun(INITIAL, run) && After(INITIAL, run) == s
  }

  lemma ReachableInv(s: State)
    requires Reachable(s)
    ensures Inv(s)
  {
    var run :| CanRun(INITIAL, run) && CleanRun(INITIAL, run) && After(INITIAL, run) == s;
    InitialInv();
    RunKeeps(INITIAL, run);
  }

  lemma {:induction false} RunConcat(s: State, r1: seq<Action>, r2: seq<Action>)
    requires CanRun(s, r1) && CleanRun(s, r1) && CanRun(After(s, r1), r2) && CleanRun(After(s, r1), r2)
    ensures CanRun(s, r1 + r2) && CleanRun(s, r1 + r2) && After(s, r1 + r2) == After(After(s, r1), r2)
    decreases |r1|
  {
    if r1 == [] {
      assert r1 + r2 == r2;
    } else {
      assert (r1 + r2)[1..] == r1[1..] + r2;
      RunConcat(Next(s, r1[0]), r1[1..], r2);
    }
  }

  lemma ReachStep(s: State, a: Action)
    requires Reachable(s) && Enabled(s, a) && CleanStep(s, a)
    ensures Reachable(Next(s, a))
  {
    var run :| CanRun(INITIAL, run) && CleanRun(INITIAL, run) && After(INITIAL, run) == s;
    OneStep(s, a);
    RunConcat(INITIAL, run, [a]);
  }

  lemma OneStep(s: State, a: Action)
    requires Enabled(s, a) && CleanStep(s, a)
    ensures CanRun(s, [a]) && CleanRun(s, [a]) && After(s, [a]) == Next(s, a)
  {
    var next: seq<Action> := [];
    assert [a][0] == a && [a][1..] == next;
    assert CanRun(Next(s, a), next) && CleanRun(Next(s, a), next) && After(Next(s, a), next) == Next(s, a);
  }

  // --- Attribution ------------------------------------------------------------------------------

  /** In every interleaving, every assistant row belongs to the turn of the latest message before it. */
  lemma EveryAnswerBelongsToLatestMessage(s: State)
    requires Reachable(s)
    ensures Attributed(s.log)
  {
    ReachableInv(s);
    assert s.log == All(s)[..|s.log|];
    AttributedPrefix(All(s), |s.log|);
  }

  /**
    A client polls for an assistant row with an id above the `sinceId` it was given, which was the
    conversation's highest id when its message was written. Whenever it polls, the row it finds belongs
    to its own message or to a later one.
   */
  lemma PollerNeverSeesOlderAnswer(s: State, u: UserId, p: nat, i: nat)
    requires Reachable(s) && p < |s.log| && IsUser(s.log[p], u)
    requires MaxId(s.log[..p], u) <= i < |s.log| && IsAnswer(s.log[i], u)
    ensures exists q :: p <= q < i && IsUser(s.log[q], u) && s.log[q].turn == s.log[i].turn
  {
    EveryAnswerBelongsToLatestMessage(s);
    assert forall k :: 0 <= k < p ==> s.log[..p][k] == s.log[k];
    AnswerAfterMessage(s.log, u, p, i);
  }

  lemma AnswerAfterMessage(log: Log, u: UserId, p: nat, i: nat)
    requires Attributed(log) && p < i < |log| && IsUser(log[p], u) && IsAnswer(log[i], u)
    ensures exists q :: p <= q < i && IsUser(log[q], u) && log[q].turn == log[i].turn
  {
    assert AttributedAt(log, i);
    LastUserExists(log[..i], u, p);
    var q := LastUserAt(log[..i], u);
    assert IsUser(log[q], u);
  }

  lemma StepGrows(s: State, a: Action)
    requires Enabled(s, a)
    ensures s.log <= Next(s, a).log
  {
  }

  /** Committed rows stay, whatever happens. */
  lemma {:induction false} LogGrows(s: State, run: seq<Action>)
    requires CanRun(s, run)
    ensures s.log <= After(s, run).log
    decreases |run|
  {
    if run != [] {
      StepGrows(s, run[0]);
      LogGrows(Next(s, run[0]), run[1..]);
    }
  }

  /**
    The same from the moment the message is committed: `since` is what the accept answers, and the
    client polls after any number of further steps, crashes and sweeps among them.
   */
  lemma PollsFromAcceptOn(s: State, t: nat, run: seq<Action>, i: nat)
    requires Reachable(s) && InPhase(s, t, AcceptSent) && s.queue != []
    requires s.queue[0] == Pwa(s.turns[t].user, UserRole, Id(s, t))
    requires CanRun(Next(s, Commit(true)), run) && CleanRun(Next(s, Commit(true)), run)
    requires var (s1, s2) := (Next(s, Commit(true)), After(Next(s, Commit(true)), run));
             && s1.turns[t].accepted.Some? && s1.turns[t].accepted.value.sinceId <= i < |s2.log|
             && IsAnswer(s2.log[i], s.turns[t].user)
    ensures var s2 := After(Next(s, Commit(true)), run);
            exists q :: |s.log| <= q < i && IsUser(s2.log[q], s.turns[t].user) && s2.log[q].turn == s2.log[i].turn
  {
    var s1 := Next(s, Commit(true));
    var s2, u := After(s1, run), s.turns[t].user;
    ReachStep(s, Commit(true));
    var past :| CanRun(INITIAL, past) && CleanRun(INITIAL, past) && After(INITIAL, past) == s1;
    RunConcat(INITIAL, past, run);
    LogGrows(s1, run);
    assert s2.log[..|s.log|] == s.log && s2.log[|s.log|] == s.queue[0];
    PollerNeverSeesOlderAnswer(s2, u, |s.log|, i);
  }

  lemma LastUserExists(log: Log, u: UserId, p: nat)
    requires p < |log| && IsUser(log[p], u)
    ensures LastUser(log, u).Some?
  {
    if !IsUser(log[|log| - 1], u) {
      LastUserExists(log[..|log| - 1], u, p);
    }
  }

  // --- The gate ----------------------------------------------------------------------------------

  /** Two live turns of one user never both lack a committed answer. */
  lemma OneUnansweredTurn(s: State, t1: nat, t2: nat)
    requires Reachable(s) && t1 in s.turns && t2 in s.turns && s.turns[t1].user == s.turns[t2].user
    requires !AnsweredBy(s.log, Id(s, t1)) && !AnsweredBy(s.log, Id(s, t2))
    ensures t1 == t2
  {
    ReachableInv(s);
    assert TurnOk(s.log, All(s), s.gate, Id(s, t1), s.turns[t1]);
    assert TurnOk(s.log, All(s), s.gate, Id(s, t2), s.turns[t2]);
  }

  /** No slot outlives its guard: without live turns every slot is free. */
  lemma NoLeakedSlot(s: State)
    requires Reachable(s)
    ensures forall u <- s.gate.slots ::
              s.gate.slots[u].token in s.turns && s.turns[s.gate.slots[u].token].user == u
    ensures s.turns == map[] ==> s.gate.slots == map[]
  {
    ReachableInv(s);
    assert forall u <- s.gate.slots :: SlotOk(s, u);
  }

  /** Dropping one guard never takes the slot from another turn; an unanswered turn keeps its slot. */
  lemma SupersededDropFreesNothing(s: State, stale: nat, t: nat)
    requires Reachable(s) && Enabled(s, Drop(stale)) && t in s.turns && t != stale
    ensures Owns(s.gate, s.turns[t].user, t) ==> Owns(Next(s, Drop(stale)).gate, s.turns[t].user, t)
    ensures !AnsweredBy(s.log, Id(s, t)) ==> Owns(Next(s, Drop(stale)).gate, s.turns[t].user, t)
  {
    ReachableInv(s);
    assert TurnOk(s.log, All(s), s.gate, Id(s, t), s.turns[t]);
  }

  /** A token names one turn only: the turn a step starts has a token nobody has used in this process. */
  lemma TokensAreFresh(s: State, a: Action, t: nat)
    requires Reachable(s) && Enabled(s, a) && t in Next(s, a).turns && t !in s.turns
    ensures t > s.gate.nextToken && NoRowsBy(All(s), Id(s, t))
    ensures forall x <- s.turns :: x < t
    ensures forall u <- s.gate.slots :: s.gate.slots[u].token < t
    ensures forall w <- s.waiters :: s.waiters[w].Admitted? ==> s.waiters[w].token < t
  {
    ReachableInv(s);
    assert forall u <- s.gate.slots :: SlotOk(s, u);
    assert forall w <- s.waiters :: WaiterOk(s, s.waiters[w]);
  }

  predicate NoCrash(run: seq<Action>) {
    Crash !in run
  }

  /** Tokens only go up, and a freed or reassigned slot never goes back to an older token. */
  lemma GateMoves(s: State, a: Action, u: UserId, floor: nat)
    requires Inv(s) && Enabled(s, a) && a != Crash
    requires floor <= s.gate.nextToken && (u in s.gate.slots ==> s.gate.slots[u].token >= floor)
    ensures s.gate.nextToken <= Next(s, a).gate.nextToken
    ensures u in Next(s, a).gate.slots ==> Next(s, a).gate.slots[u].token >= floor
  {
  }

  /**
    Many requests may have seen the same finished holder. Once one of them has taken the slot over,
    the others lose for as long as the slot is taken.
   */
  lemma {:induction false} OneReclaimWins(s: State, w: nat, run: seq<Action>)
    requires Inv(s) && Enabled(s, Reclaim(w)) && MayReclaim(s.gate, s.waiters[w].user, s.waiters[w].holder)
    requires CleanRun(Next(s, Reclaim(w)), run) && CanRun(Next(s, Reclaim(w)), run) && NoCrash(run)
    ensures var s' := After(Next(s, Reclaim(w)), run);
            forall v <- s'.waiters ::
              s'.waiters[v].Reclaiming? && s'.waiters[v].user == s.waiters[w].user
              && s'.waiters[v].holder <= s.gate.nextToken && s.waiters[w].user in s'.gate.slots
              ==> !MayReclaim(s'.gate, s'.waiters[v].user, s'.waiters[v].holder)
  {
    StepKeeps(s, Reclaim(w));
    SlotFloor(Next(s, Reclaim(w)), run, s.waiters[w].user, s.gate.nextToken + 1);
  }

  lemma {:induction false} SlotFloor(s: State, run: seq<Action>, u: UserId, floor: nat)
    requires Inv(s) && CleanRun(s, run) && CanRun(s, run) && NoCrash(run)
    requires floor <= s.gate.nextToken && (u in s.gate.slots ==> s.gate.slots[u].token >= floor)
    ensures u in After(s, run).gate.slots ==> After(s, run).gate.slots[u].token >= floor
    decreases |run|
  {
    if run != [] {
      GateMoves(s, run[0], u, floor);
      StepKeeps(s, run[0]);
      SlotFloor(Next(s, run[0]), run[1..], u, floor);
    }
  }

  /** Where a request can be that arrived at the slot of `h` after the answer above `since`. */
  ghost predicate Promised(s: State, w: nat, u: UserId, h: nat, since: nat) {
    && w in s.waiters
    && h <= s.gate.nextToken && (u in s.gate.slots ==> s.gate.slots[u].token >= h)
    && HasReplyAfter(s.log, u, since)
    && match s.waiters[w]
       case Checking(v, g, x) => v == u && g == h && x == since
       case Reclaiming(v, g, x) => v == u && g == h && x == since
       case Admitted(_, _) => true
       case Rejected(_, why) => why == ReadFailed || (why.Superseded? && why.newer > h)
  }

  lemma PromisedStep(s: State, a: Action, w: nat, u: UserId, h: nat, since: nat)
    requires Inv(s) && Enabled(s, a) && a != Crash && Promised(s, w, u, h, since)
    ensures Promised(Next(s, a), w, u, h, since)
  {
    GateMoves(s, a, u, h);
    StepGrows(s, a);
    var s' := Next(s, a);
    assert HasReplyAfter(s'.log, u, since) by {
      var i :| since <= i < |s.log| && IsAnswer(s.log[i], u);
      assert s'.log[i] == s.log[i];
    }
  }

  lemma {:induction false} PromisedRun(s: State, run: seq<Action>, w: nat, u: UserId, h: nat, since: nat)
    requires Inv(s) && CleanRun(s, run) && CanRun(s, run) && NoCrash(run) && Promised(s, w, u, h, since)
    ensures Promised(After(s, run), w, u, h, since)
    decreases |run|
  {
    if run != [] {
      PromisedStep(s, run[0], w, u, h, since);
      StepKeeps(s, run[0]);
      PromisedRun(Next(s, run[0]), run[1..], w, u, h, since);
    }
  }

  /**
    No false conflict: a request that arrives when the slot holder's answer is already committed is
    refused only if its read failed or a newer request has taken the slot.
   */
  lemma NoFalseConflict(s: State, w: nat, u: UserId, run: seq<Action>)
    requires Inv(s) && Enabled(s, Arrive(w, u)) && u in s.gate.slots
    requires AnsweredBy(s.log, Id(s, s.gate.slots[u].token))
    requires CleanRun(Next(s, Arrive(w, u)), run) && CanRun(Next(s, Arrive(w, u)), run) && NoCrash(run)
    ensures var s' := After(Next(s, Arrive(w, u)), run);
            w in s'.waiters && (s'.waiters[w].Rejected? ==>
              s'.waiters[w].why == ReadFailed
              || (s'.waiters[w].why.Superseded? && s'.waiters[w].why.newer > s.gate.slots[u].token))
  {
    var h := s.gate.slots[u].token;
    assert SlotOk(s, u);
    assert TurnOk(s.log, All(s), s.gate, Id(s, h), s.turns[h]);
    var i :| 0 <= i < |s.log| && s.log[i].Pwa? && s.log[i].role != UserRole && s.log[i].turn == Id(s, h);
    assert All(s)[i] == s.log[i];
    var acc := s.turns[h].accepted.value;
    AnswersComeAfter(s, h, i);
    StepKeeps(s, Arrive(w, u));
    PromisedRun(Next(s, Arrive(w, u)), run, w, u, h, acc.sinceId);
  }

  /** A turn's own answer has an id above its `sinceId`. */
  lemma AnswersComeAfter(s: State, t: nat, i: nat)
    requires Inv(s) && t in s.turns && s.turns[t].accepted.Some?
    requires i < |All(s)| && All(s)[i].Pwa? && All(s)[i].role != UserRole && All(s)[i].turn == Id(s, t)
    ensures IsAnswer(All(s)[i], s.turns[t].user) && s.turns[t].accepted.value.sinceId <= i
  {
    var u, acc := s.turns[t].user, s.turns[t].accepted.value;
    assert TurnOk(s.log, All(s), s.gate, Id(s, t), s.turns[t]);
    assert AttributedAt(All(s), i);
    var q := LastUserAt(All(s)[..i], u);
    assert IsMessage(All(s)[q]) && IsMessage(All(s)[acc.messageId - 1]);
  }
}

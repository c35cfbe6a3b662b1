/**
  What every step of the chat protocol keeps, and so what holds in every reachable state.

  The heart of it is `TurnOk`: a live turn either still owns its user's slot, or its answer is
  committed. The log is looked at together with the rows still on their way (`All`), because the
  order of two rows is settled when they are handed to the writer.
 */
module ChatInvariant {
  import opened Wrappers
  import opened MessageLog
  import opened InFlight
  import opened ChatProtocol

  /** Rows carry the name of an earlier process, or of a turn this process has started. */
  ghost predicate Known(all: Log, epoch: nat, last: nat) {
    forall i :: 0 <= i < |all| && all[i].Pwa? ==>
      all[i].turn.epoch < epoch || (all[i].turn.epoch == epoch && all[i].turn.token <= last)
  }

  /** A turn whose message is still on its way has not answered. */
  ghost predicate PendingUnanswered(log: Log, all: Log) {
    forall i :: |log| <= i < |all| && IsMessage(all[i]) ==> !AnsweredBy(all, all[i].turn)
  }

  /** The rows of a turn all belong to its user. */
  ghost predicate RowsOf(all: Log, id: TurnId, u: UserId) {
    forall i :: 0 <= i < |all| && all[i].Pwa? && all[i].turn == id ==> all[i].user == u
  }

  predicate Sent(turn: Turn) {
    turn.phase == AcceptSent || turn.accepted.Some?
  }

  ghost predicate TurnOk(log: Log, all: Log, g: Gate, id: TurnId, turn: Turn) {
    && (AnsweredBy(log, id) || Owns(g, turn.user, id.token))
    && (Owns(g, turn.user, id.token) && Sent(turn) ==> LastUser(all, turn.user) == Some(id))
    && (turn.phase == Holding ==> NoRowsBy(all, id))
    && (turn.accepted.None? || turn.phase in {Accepted, Running, Cleared} ==> !AnsweredBy(all, id))
    && (turn.phase in {Holding, AcceptSent} ==> turn.accepted.None?)
    && (turn.phase !in {Holding, AcceptSent, Leaving} ==> turn.accepted.Some?)
    && (turn.accepted.Some? ==> Opens(log, turn.user, id, turn.accepted.value))
    && RowsOf(all, id, turn.user)
  }

  ghost predicate LogOk(s: State) {
    && Attributed(All(s))
    && OneMessagePerTurn(All(s))
    && Known(All(s), s.epoch, s.gate.nextToken)
    && PendingUnanswered(s.log, All(s))
  }

  /** A slot belongs to a live guard, and knows that guard's `sinceId` once it has been recorded. */
  ghost predicate SlotOk(s: State, u: UserId)
    requires u in s.gate.slots
  {
    var slot := s.gate.slots[u];
    && slot.token in s.turns
    && s.turns[slot.token].user == u
    && (slot.sinceId.Some? <==> s.turns[slot.token].accepted.Some? && s.turns[slot.token].phase != Accepted)
    && (slot.sinceId.Some? ==> s.turns[slot.token].accepted.value.sinceId == slot.sinceId.value)
  }

  ghost predicate WaiterOk(s: State, w: Waiter) {
    match w
    case Checking(u, h, since) =>
      h <= s.gate.nextToken && (Owns(s.gate, u, h) ==> s.gate.slots[u].sinceId == Some(since))
    case Reclaiming(u, h, since) =>
      && h <= s.gate.nextToken
      && (Owns(s.gate, u, h) ==> s.gate.slots[u].sinceId == Some(since))
      && HasReplyAfter(s.log, u, since)
    case Admitted(_, t) => t <= s.gate.nextToken
    case Rejected(_, _) => true
  }

  ghost predicate Inv(s: State) {
    && LogOk(s)
    && (forall t <- s.turns :: t <= s.gate.nextToken && TurnOk(s.log, All(s), s.gate, Id(s, t), s.turns[t]))
    && (forall u <- s.gate.slots :: SlotOk(s, u))
    && (forall w <- s.waiters :: WaiterOk(s, s.waiters[w]))
    && (!s.up ==> s.queue == [] && s.gate == EMPTY_GATE && s.turns == map[] && s.waiters == map[])
  }

  lemma InitialInv()
    ensures Inv(INITIAL)
  {
  }

  // --- Steps that leave the log and the queue alone ---------------------------------------------

  lemma AdmitKeeps(s: State, w: nat, u: UserId)
    requires Inv(s) && s.up
    requires forall t <- s.turns :: Owns(s.gate, u, t) ==> AnsweredBy(s.log, Id(s, t))
    ensures Inv(Admit(s, w, u))
  {
    var s' := Admit(s, w, u);
    assert All(s') == All(s);
    forall t <- s'.turns
      ensures t <= s'.gate.nextToken && TurnOk(s'.log, All(s'), s'.gate, Id(s', t), s'.turns[t])
    {
      if t in s.turns {
        assert TurnOk(s.log, All(s), s.gate, Id(s, t), s.turns[t]);
      }
    }
    forall v <- s'.gate.slots ensures SlotOk(s', v) {
      if v != u {
        assert SlotOk(s, v);
      }
    }
  }

  lemma ArriveKeeps(s: State, w: nat, u: UserId)
    requires Inv(s) && Enabled(s, Arrive(w, u))
    ensures Inv(Arrived(s, w, u))
  {
    if u !in s.gate.slots {
      AdmitKeeps(s, w, u);
    } else {
      assert SlotOk(s, u);
      var s' := Arrived(s, w, u);
      assert All(s') == All(s);
      assert forall v <- s'.gate.slots :: SlotOk(s, v) ==> SlotOk(s', v);
    }
  }

  lemma ReadKeeps(s: State, w: nat, ok: bool)
    requires Inv(s) && Enabled(s, ReadHolder(w, ok))
    ensures Inv(HolderRead(s, w, ok))
  {
    var s' := HolderRead(s, w, ok);
    assert All(s') == All(s);
    assert WaiterOk(s, s.waiters[w]);
    assert forall v <- s'.gate.slots :: SlotOk(s, v) ==> SlotOk(s', v);
  }

  /** A holder that a waiter has seen answered is answered by its own row. */
  lemma SeenHolderAnswered(s: State, u: UserId, h: nat, since: nat)
    requires Inv(s) && Owns(s.gate, u, h)
    requires s.gate.slots[u].sinceId == Some(since) && HasReplyAfter(s.log, u, since)
    ensures h in s.turns && AnsweredBy(s.log, Id(s, h))
  {
    assert SlotOk(s, u);
    assert TurnOk(s.log, All(s), s.gate, Id(s, h), s.turns[h]);
    ReplyAfterIsOwn(s.log, All(s), u, Id(s, h), s.turns[h].accepted.value);
  }

  lemma ReclaimKeeps(s: State, w: nat)
    requires Inv(s) && Enabled(s, Reclaim(w))
    ensures Inv(Reclaimed(s, w))
  {
    var Reclaiming(u, h, since) := s.waiters[w];
    assert WaiterOk(s, s.waiters[w]);
    if MayReclaim(s.gate, u, h) {
      if Owns(s.gate, u, h) {
        SeenHolderAnswered(s, u, h, since);
      }
      AdmitKeeps(s, w, u);
    } else {
      var s' := Reclaimed(s, w);
      assert All(s') == All(s);
      assert forall v <- s'.gate.slots :: SlotOk(s, v) ==> SlotOk(s', v);
    }
  }

  /** A turn moves on to a phase that asks no more of it than it already fulfils. */
  lemma PhaseKeeps(s: State, t: nat, p: Phase)
    requires Inv(s) && s.up && t in s.turns && s.turns[t].accepted.Some?
    requires s.turns[t].phase != Accepted && p !in {Holding, AcceptSent, Accepted}
    requires p in {Running, Cleared} ==> !AnsweredBy(All(s), Id(s, t))
    ensures Inv(WithPhase(s, t, p))
  {
    var s' := WithPhase(s, t, p);
    assert All(s') == All(s);
    assert TurnOk(s.log, All(s), s.gate, Id(s, t), s.turns[t]);
    forall r <- s'.turns
      ensures r <= s'.gate.nextToken && TurnOk(s'.log, All(s'), s'.gate, Id(s', r), s'.turns[r])
    {
      assert TurnOk(s.log, All(s), s.gate, Id(s, r), s.turns[r]);
    }
    assert forall v <- s'.gate.slots :: SlotOk(s, v) ==> SlotOk(s', v);
    assert forall x <- s.waiters :: WaiterOk(s, s.waiters[x]) ==> WaiterOk(s', s'.waiters[x]);
  }

  lemma MarkKeeps(s: State, t: nat)
    requires Inv(s) && Enabled(s, Mark(t))
    ensures Inv(Next(s, Mark(t)))
  {
    var s' := Next(s, Mark(t));
    var u := s.turns[t].user;
    assert All(s') == All(s);
    assert TurnOk(s.log, All(s), s.gate, Id(s, t), s.turns[t]);
    assert !AnsweredBy(s.log, Id(s, t)) by {
      assert forall i :: 0 <= i < |s.log| ==> s.log[i] == All(s)[i];
    }
    forall r <- s'.turns
      ensures r <= s'.gate.nextToken && TurnOk(s'.log, All(s'), s'.gate, Id(s', r), s'.turns[r])
    {
      assert TurnOk(s.log, All(s), s.gate, Id(s, r), s.turns[r]);
    }
    assert Owns(s.gate, u, t);
    MarkSlots(s, t);
  }

  /** The marked slot is the turn's own and had no `sinceId` before, so no waiter has seen one. */
  lemma MarkSlots(s: State, t: nat)
    requires Inv(s) && Enabled(s, Mark(t)) && Owns(s.gate, s.turns[t].user, t) && s.turns[t].accepted.Some?
    ensures forall v <- Next(s, Mark(t)).gate.slots :: SlotOk(Next(s, Mark(t)), v)
    ensures forall w <- s.waiters :: WaiterOk(Next(s, Mark(t)), s.waiters[w])
  {
    var s' := Next(s, Mark(t));
    assert SlotOk(s, s.turns[t].user);
    forall v <- s'.gate.slots ensures SlotOk(s', v) {
      assert SlotOk(s, v);
    }
    forall w <- s.waiters ensures WaiterOk(s', s.waiters[w]) {
      assert WaiterOk(s, s.waiters[w]);
    }
  }

  lemma DropKeeps(s: State, t: nat)
    requires Inv(s) && Enabled(s, Drop(t))
    ensures Inv(Dropped(s, t))
  {
    var s' := Dropped(s, t);
    assert All(s') == All(s);
    forall r <- s'.turns
      ensures r <= s'.gate.nextToken && TurnOk(s'.log, All(s'), s'.gate, Id(s', r), s'.turns[r])
    {
      assert TurnOk(s.log, All(s), s.gate, Id(s, r), s.turns[r]);
    }
    forall v <- s'.gate.slots ensures SlotOk(s', v) {
      assert SlotOk(s, v);
    }
    assert forall x <- s.waiters :: WaiterOk(s, s.waiters[x]) ==> WaiterOk(s', s'.waiters[x]);
  }

  // --- Steps that hand a row to the writer ------------------------------------------------------

  lemma AnsweredSnoc(all: Log, r: Row, id: TurnId)
    ensures AnsweredBy(all + [r], id) <==>
            AnsweredBy(all, id) || (r.Pwa? && r.role != UserRole && r.turn == id)
  {
    var l := all + [r];
    assert forall i :: 0 <= i < |all| ==> l[i] == all[i];
    assert l[|all|] == r;
  }

  /** A turn that has not answered owns its slot, so nobody has spoken after its message. */
  lemma UnansweredOwns(s: State, t: nat)
    requires Inv(s) && t in s.turns && !AnsweredBy(All(s), Id(s, t))
    ensures !AnsweredBy(s.log, Id(s, t)) && Owns(s.gate, s.turns[t].user, t)
    ensures Sent(s.turns[t]) ==> LastUser(All(s), s.turns[t].user) == Some(Id(s, t))
  {
    assert TurnOk(s.log, All(s), s.gate, Id(s, t), s.turns[t]);
    assert forall i :: 0 <= i < |s.log| ==> s.log[i] == All(s)[i];
  }

  /** A turn that owns its slot hands over a row and moves on. */
  lemma SendKeeps(s: State, t: nat, role: Role, p: Phase)
    requires Inv(s) && s.up && t in s.turns && !AnsweredBy(All(s), Id(s, t))
    requires if role == UserRole then s.turns[t].phase == Holding && p == AcceptSent
             else s.turns[t].phase in {Running, Cleared} && p in {ReplySent, NoticeSent}
    ensures Inv(WithPhase(s, t, p).(queue := s.queue + [Pwa(s.turns[t].user, role, Id(s, t))]))
  {
    var u, id := s.turns[t].user, Id(s, t);
    var r := Pwa(u, role, id);
    var s' := WithPhase(s, t, p).(queue := s.queue + [r]);
    assert All(s') == All(s) + [r];
    UnansweredOwns(s, t);
    assert TurnOk(s.log, All(s), s.gate, id, s.turns[t]);
    AttributedSnoc(All(s), r);
    SendKeepsLog(s, s', t, r);
    SenderOk(s, t, role, p);
    forall x <- s'.turns
      ensures x <= s'.gate.nextToken && TurnOk(s'.log, All(s'), s'.gate, Id(s', x), s'.turns[x])
    {
      if x != t {
        TurnSnoc(s, r, x);
      }
    }
    assert forall v <- s'.gate.slots :: SlotOk(s, v) ==> SlotOk(s', v);
    assert forall x <- s.waiters :: WaiterOk(s, s.waiters[x]) ==> WaiterOk(s', s'.waiters[x]);
  }

  lemma SenderOk(s: State, t: nat, role: Role, p: Phase)
    requires Inv(s) && t in s.turns && !AnsweredBy(All(s), Id(s, t))
    requires if role == UserRole then s.turns[t].phase == Holding && p == AcceptSent
             else s.turns[t].phase in {Running, Cleared} && p in {ReplySent, NoticeSent}
    ensures var r := Pwa(s.turns[t].user, role, Id(s, t));
            TurnOk(s.log, All(s) + [r], s.gate, Id(s, t), s.turns[t].(phase := p))
  {
    var r := Pwa(s.turns[t].user, role, Id(s, t));
    UnansweredOwns(s, t);
    assert TurnOk(s.log, All(s), s.gate, Id(s, t), s.turns[t]);
    Snoc(All(s), r);
    AnsweredSnoc(All(s), r, Id(s, t));
  }

  /** A row of another turn, or of another user, changes nothing for a turn. */
  lemma TurnSnoc(s: State, r: Row, x: nat)
    requires x in s.turns && TurnOk(s.log, All(s), s.gate, Id(s, x), s.turns[x])
    requires r.Pwa? ==> r.turn != Id(s, x)
    requires r.Pwa? && r.role == UserRole && r.user == s.turns[x].user ==> !Owns(s.gate, r.user, x)
    ensures TurnOk(s.log, All(s) + [r], s.gate, Id(s, x), s.turns[x])
  {
    Snoc(All(s), r);
    AnsweredSnoc(All(s), r, Id(s, x));
  }

  lemma SendKeepsLog(s: State, s': State, t: nat, r: Row)
    requires Inv(s) && t in s.turns && r.Pwa? && r.turn == Id(s, t)
    requires s'.log == s.log && s'.queue == s.queue + [r] && s'.epoch == s.epoch && s'.gate == s.gate
    requires Attributed(All(s) + [r])
    requires !AnsweredBy(All(s), Id(s, t))
    requires if r.role == UserRole then s.turns[t].phase == Holding else s.turns[t].phase in {Running, Cleared}
    ensures LogOk(s')
  {
    var all, id := All(s), Id(s, t);
    assert All(s') == all + [r];
    assert TurnOk(s.log, all, s.gate, id, s.turns[t]);
    if r.role != UserRole {
      var at := s.turns[t].accepted.value.messageId - 1;
      assert all[at] == s.log[at];
      assert IsMessage(all[at]);
    }
    forall i | |s.log| <= i < |All(s')| && IsMessage(All(s')[i])
      ensures !AnsweredBy(All(s'), All(s')[i].turn)
    {
      AnsweredSnoc(all, r, All(s')[i].turn);
    }
  }

  lemma ForeignKeeps(s: State)
    requires Inv(s) && s.up
    ensures Inv(Next(s, SendForeign))
  {
    var s' := Next(s, SendForeign);
    assert All(s') == All(s) + [Foreign];
    Snoc(All(s), Foreign);
    AttributedSnoc(All(s), Foreign);
    forall i | |s.log| <= i < |All(s')| && IsMessage(All(s')[i])
      ensures !AnsweredBy(All(s'), All(s')[i].turn)
    {
      AnsweredSnoc(All(s), Foreign, All(s')[i].turn);
    }
    forall x <- s'.turns
      ensures x <= s'.gate.nextToken && TurnOk(s'.log, All(s'), s'.gate, Id(s', x), s'.turns[x])
    {
      TurnSnoc(s, Foreign, x);
    }
    assert forall v <- s'.gate.slots :: SlotOk(s, v) ==> SlotOk(s', v);
    assert forall x <- s.waiters :: WaiterOk(s, s.waiters[x]) ==> WaiterOk(s', s'.waiters[x]);
  }

  // --- Steps of the writer ------------------------------------------------------------------------

  lemma CommitSplit(s: State)
    requires s.queue != []
    ensures All(s) == s.log + [s.queue[0]] + s.queue[1..]
    ensures All(s)[|s.log|] == s.queue[0]
    ensures All(Committed(s, true)) == All(s)
    ensures All(Committed(s, false)) == s.log + s.queue[1..]
  {
    assert s.queue == [s.queue[0]] + s.queue[1..];
  }

  lemma AnsweredGrows(log: Log, more: Log, id: TurnId)
    requires log <= more && AnsweredBy(log, id)
    ensures AnsweredBy(more, id)
  {
    var i :| 0 <= i < |log| && log[i].Pwa? && log[i].role != UserRole && log[i].turn == id;
    assert more[i] == log[i];
  }

  lemma OpensGrows(log: Log, more: Log, u: UserId, id: TurnId, acc: AcceptedMessage)
    requires log <= more && Opens(log, u, id, acc)
    ensures Opens(more, u, id, acc)
  {
  }

  lemma WaiterGrows(s: State, s': State, w: Waiter)
    requires WaiterOk(s, w) && s.log <= s'.log && s'.gate == s.gate
    ensures WaiterOk(s', w)
  {
  }

  /** A turn whose message is at the head of the queue has been accepted by nobody yet. */
  lemma HeadMessage(s: State, t: nat)
    requires Inv(s) && s.queue != [] && t in s.turns
    requires IsMessage(s.queue[0]) && s.queue[0].turn == Id(s, t)
    ensures s.turns[t].phase in {AcceptSent, Leaving} && s.turns[t].accepted.None?
    ensures s.queue[0].user == s.turns[t].user && !AnsweredBy(All(s), Id(s, t))
  {
    CommitSplit(s);
    assert TurnOk(s.log, All(s), s.gate, Id(s, t), s.turns[t]);
    forall i | 0 <= i < |s.log| && IsMessage(s.log[i]) ensures s.log[i].turn != s.queue[0].turn {
      assert All(s)[i] == s.log[i];
      assert IsMessage(All(s)[i]) && IsMessage(All(s)[|s.log|]);
    }
  }

  lemma CommitTurn(s: State, x: nat)
    requires Inv(s) && s.queue != [] && x in s.turns
    ensures x in Committed(s, true).turns
    ensures var s' := Committed(s, true); TurnOk(s'.log, All(s'), s'.gate, Id(s', x), s'.turns[x])
  {
    var s', r, id := Committed(s, true), s.queue[0], Id(s, x);
    CommitSplit(s);
    assert TurnOk(s.log, All(s), s.gate, id, s.turns[x]);
    if IsMessage(r) && r.turn == id {
      HeadMessage(s, x);
      AnsweredSnoc(s.log, r, id);
    } else {
      if AnsweredBy(s.log, id) {
        AnsweredGrows(s.log, s'.log, id);
      }
      if s.turns[x].accepted.Some? {
        OpensGrows(s.log, s'.log, s.turns[x].user, id, s.turns[x].accepted.value);
      }
    }
  }

  lemma CommitKeeps(s: State)
    requires Inv(s) && s.queue != []
    ensures Inv(Committed(s, true))
  {
    var s' := Committed(s, true);
    CommitSplit(s);
    forall x <- s'.turns
      ensures x <= s'.gate.nextToken && TurnOk(s'.log, All(s'), s'.gate, Id(s', x), s'.turns[x])
    {
      CommitTurn(s, x);
    }
    forall v <- s'.gate.slots ensures SlotOk(s', v) {
      assert SlotOk(s, v);
    }
    forall w <- s'.waiters ensures WaiterOk(s', s'.waiters[w]) {
      WaiterGrows(s, s', s.waiters[w]);
    }
  }

  lemma FailTurn(s: State, x: nat)
    requires Inv(s) && s.queue != [] && x in s.turns
    ensures x in Committed(s, false).turns
    ensures var s' := Committed(s, false); TurnOk(s'.log, All(s'), s'.gate, Id(s', x), s'.turns[x])
  {
    var s', r, rest, id := Committed(s, false), s.queue[0], s.queue[1..], Id(s, x);
    var u := s.turns[x].user;
    CommitSplit(s);
    assert TurnOk(s.log, All(s), s.gate, id, s.turns[x]);
    AnsweredDrop(s.log, r, rest, id);
    RowsDrop(s.log, r, rest, id);
    if IsMessage(r) && r.turn == id {
      HeadMessage(s, x);
    } else if Owns(s.gate, u, x) && Sent(s.turns[x]) {
      DropKeepsLastUser(s.log, r, rest, u);
    }
  }

  lemma RowsDrop(log: Log, r: Row, rest: seq<Row>, id: TurnId)
    ensures NoRowsBy(log + [r] + rest, id) ==> NoRowsBy(log + rest, id)
    ensures forall u :: RowsOf(log + [r] + rest, id, u) ==> RowsOf(log + rest, id, u)
  {
    var long, short := log + [r] + rest, log + rest;
    assert forall i :: 0 <= i < |short| ==> short[i] == long[if i < |log| then i else i + 1];
  }

  lemma FailKeepsLog(s: State)
    requires Inv(s) && s.queue != []
    ensures LogOk(Committed(s, false))
  {
    var s', r, rest := Committed(s, false), s.queue[0], s.queue[1..];
    var long, short := All(s), All(s');
    CommitSplit(s);
    assert forall i :: 0 <= i < |short| ==> short[i] == long[if i < |s.log| then i else i + 1];
    AttributedDrop(s.log, r, rest);
    OneMessageDrop(s.log, r, rest);
    forall i | |s.log| <= i < |short| && IsMessage(short[i]) ensures !AnsweredBy(short, short[i].turn) {
      assert short[i] == long[i + 1];
      AnsweredDrop(s.log, r, rest, short[i].turn);
    }
  }

  lemma FailKeeps(s: State)
    requires Inv(s) && s.queue != []
    ensures Inv(Committed(s, false))
  {
    var s' := Committed(s, false);
    FailKeepsLog(s);
    forall x <- s'.turns
      ensures x <= s'.gate.nextToken && TurnOk(s'.log, All(s'), s'.gate, Id(s', x), s'.turns[x])
    {
      FailTurn(s, x);
    }
    forall v <- s'.gate.slots ensures SlotOk(s', v) {
      assert SlotOk(s, v);
    }
    assert forall x <- s.waiters :: WaiterOk(s, s.waiters[x]) ==> WaiterOk(s', s'.waiters[x]);
  }

  // --- Crash and recovery -------------------------------------------------------------------------

  lemma CrashKeeps(s: State)
    requires Inv(s)
    ensures Inv(Next(s.(up := true), Crash))
  {
    var s' := Next(s.(up := true), Crash);
    assert All(s') == s.log == All(s)[..|s.log|];
    AttributedPrefix(All(s), |s.log|);
    assert forall i :: 0 <= i < |s.log| ==> s.log[i] == All(s)[i];
  }

  lemma SweepKeeps(s: State, us: seq<UserId>)
    requires Inv(s) && Enabled(s, Sweep(us))
    ensures Inv(Next(s, Sweep(us)))
  {
    var s' := Next(s, Sweep(us));
    var rows := Notices(s.log, us);
    assert All(s) == s.log && All(s') == s.log + rows;
    SweepAppends(s.log, us);
    forall i | 0 <= i < |All(s')| && All(s')[i].Pwa?
      ensures exists j :: 0 <= j < |s.log| && s.log[j].Pwa? && s.log[j].turn == All(s')[i].turn
    {
      if i >= |s.log| {
        OrphanIsLastUser(s.log, us[i - |s.log|]);
      }
    }
  }

  // --- Runs -----------------------------------------------------------------------------------------

  lemma StepKeeps(s: State, a: Action)
    requires Inv(s) && Enabled(s, a) && CleanStep(s, a)
    ensures Inv(Next(s, a))
  {
    match a
    case Arrive(w, u) => ArriveKeeps(s, w, u);
    case ReadHolder(w, ok) => ReadKeeps(s, w, ok);
    case Reclaim(w) => ReclaimKeeps(s, w);
    case SendAccept(t) => HoldingSends(s, t);
    case Mark(t) => MarkKeeps(s, t);
    case SendReply(t) =>
      assert TurnOk(s.log, All(s), s.gate, Id(s, t), s.turns[t]);
      SendKeeps(s, t, Reply, ReplySent);
    case SendNotice(t) =>
      assert TurnOk(s.log, All(s), s.gate, Id(s, t), s.turns[t]);
      SendKeeps(s, t, Notice, NoticeSent);
    case Settle(t) => PhaseStepKeeps(s, a);
    case CheckReply(t, ok) => PhaseStepKeeps(s, a);
    case CheckCurrent(t) => PhaseStepKeeps(s, a);
    case Finish(t) => PhaseStepKeeps(s, a);
    case Drop(t) => DropKeeps(s, t);
    case Commit(ok) => if ok { CommitKeeps(s); } else { FailKeeps(s); }
    case SendForeign => ForeignKeeps(s);
    case Crash => CrashKeeps(s);
    case Sweep(us) => SweepKeeps(s, us);
    case Serve =>
  }

  lemma HoldingSends(s: State, t: nat)
    requires Inv(s) && Enabled(s, SendAccept(t))
    ensures Inv(Next(s, SendAccept(t)))
  {
    assert TurnOk(s.log, All(s), s.gate, Id(s, t), s.turns[t]);
    SendKeeps(s, t, UserRole, AcceptSent);
  }

  lemma PhaseStepKeeps(s: State, a: Action)
    requires Inv(s) && Enabled(s, a) && CleanStep(s, a)
    requires a.Settle? || a.CheckReply? || a.CheckCurrent? || a.Finish?
    ensures Inv(Next(s, a))
  {
    assert TurnOk(s.log, All(s), s.gate, Id(s, a.t), s.turns[a.t]);
    PhaseKeeps(s, a.t, Next(s, a).turns[a.t].phase);
  }

  lemma {:induction false} RunKeeps(s: State, run: seq<Action>)
    requires Inv(s) && CleanRun(s, run)
    ensures CanRun(s, run) && Inv(After(s, run))
    decreases |run|
  {
    if run != [] {
      StepKeeps(s, run[0]);
      RunKeeps(Next(s, run[0]), run[1..]);
    }
  }
}

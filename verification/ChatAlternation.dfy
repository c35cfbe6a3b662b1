/**
  Runs in which every accepted message gets exactly one answer.

  A quiet run is a clean run in which nobody gives up a guard between the hand-over of the message
  and the end of the turn (no cancelled handler, no panic), no notice fails to be written, and the
  sweep finishes before requests are served. Any other failure may happen, crashes included.
 */
module ChatAlternation {
  import opened Wrappers
  import opened MessageLog
  import opened InFlight
  import opened ChatProtocol
  import opened ChatInvariant
  import opened ChatTheorems

  ghost predicate QuietStep(s: State, a: Action)
    requires Enabled(s, a)
  {
    && CleanStep(s, a)
    && (a.Drop? ==> s.turns[a.t].phase in {Holding, Leaving})
    && (a.Commit? && !a.ok ==> s.queue[0].Pwa? ==> s.queue[0].role != Notice)
    && (a.Serve? ==> forall u :: !Orphaned(s.log, u))
  }

  ghost predicate QuietRun(s: State, run: seq<Action>)
    decreases |run|
  {
    run == [] || (Enabled(s, run[0]) && QuietStep(s, run[0]) && QuietRun(Next(s, run[0]), run[1..]))
  }

  ghost predicate HasNotice(all: Log, id: TurnId) {
    exists i :: 0 <= i < |all| && all[i].Pwa? && all[i].role == Notice && all[i].turn == id
  }

  /** A row on its way belongs to a live turn, and a message to one that waits for it. */
  ghost predicate QueueOk(s: State, i: nat)
    requires i < |s.queue|
  {
    s.queue[i].Pwa? ==>
      && s.queue[i].turn == Id(s, s.queue[i].turn.token)
      && s.queue[i].turn.token in s.turns
      && (s.queue[i].role == UserRole ==> s.turns[s.queue[i].turn.token].phase == AcceptSent)
  }

  /** An unanswered conversation is somebody's business: its slot is held by a turn past `Holding`. */
  ghost predicate Attended(s: State, u: UserId) {
    s.up && Orphaned(All(s), u) ==>
      u in s.gate.slots && s.gate.slots[u].token in s.turns && Sent(s.turns[s.gate.slots[u].token])
  }

  ghost predicate Closing(s: State, t: nat)
    requires t in s.turns
  {
    && (s.turns[t].phase == NoticeSent ==> HasNotice(All(s), Id(s, t)))
    && (s.turns[t].phase == Leaving && s.turns[t].accepted.Some? ==> AnsweredBy(s.log, Id(s, t)))
  }

  ghost predicate QuietInv(s: State) {
    && Inv(s)
    && Alternates(All(s))
    && (forall u :: Attended(s, u))
    && (forall i :: 0 <= i < |s.queue| ==> QueueOk(s, i))
    && (forall t <- s.turns :: Closing(s, t))
  }

  // --- About logs ---------------------------------------------------------------------------------

  /** The most recent message of a conversation is its last row until its turn has answered. */
  lemma UnansweredIsOrphaned(all: Log, u: UserId, id: TurnId)
    requires Attributed(all) && LastUser(all, u) == Some(id) && !AnsweredBy(all, id)
    ensures Orphaned(all, u)
  {
    var p := LastUserAt(all, u);
    LastRowExists(all, u, p);
    var i := LastRowAt(all, u);
    if all[i].role != UserRole {
      assert AttributedAt(all, i);
      assert p < i;
      LastUserBy(all[..i], u, p);
      assert false;
    }
  }

  lemma LastRowExists(log: Log, u: UserId, p: nat)
    requires p < |log| && Belongs(log[p], u)
    ensures LastRow(log, u).Some?
  {
    if !Belongs(log[|log| - 1], u) {
      LastRowExists(log[..|log| - 1], u, p);
    }
  }

  /** A conversation that does not end in a message has an answer after every message. */
  lemma SettledIsAnswered(log: Log, u: UserId, p: nat)
    requires !Orphaned(log, u) && p < |log| && Belongs(log[p], u)
    ensures exists i :: p <= i < |log| && IsAnswer(log[i], u)
    ensures IsUser(log[p], u) ==> HasReplyAfter(log, u, p + 1)
  {
    LastRowExists(log, u, p);
    var i := LastRowAt(log, u);
    assert IsAnswer(log[i], u);
  }

  /** In an alternating, attributed log nobody answers twice. */
  lemma OneAnswerPerTurn(all: Log, i: nat, j: nat)
    requires Attributed(all) && OneMessagePerTurn(all) && Alternates(all)
    requires i < j < |all| && all[i].Pwa? && all[j].Pwa? && all[i].role != UserRole && all[j].role != UserRole
    requires all[i].user == all[j].user
    ensures all[i].turn != all[j].turn
  {
    var u := all[i].user;
    assert AttributedAt(all, i) && AttributedAt(all, j) && AlternatesAt(all, j);
    var p := LastRowAt(all[..j], u);
    LastUserBy(all[..j], u, p);
    assert IsUser(all[p], u) && all[p].turn == all[j].turn;
    assert Belongs(all[..j][i], u);
    assert i < p;
    if all[i].turn == all[j].turn {
      var q := LastUserAt(all[..i], u);
      assert false;
    }
  }

  /** Taking out the last row of a conversation leaves an alternating log. */
  lemma AlternatesDrop(log: Log, r: Row, rest: seq<Row>)
    requires Alternates(log + [r] + rest)
    requires r.Pwa? ==> forall k :: 0 <= k < |rest| ==> !Belongs(rest[k], r.user)
    ensures Alternates(log + rest)
    ensures forall u :: Orphaned(log + rest, u) ==>
              Orphaned(log + [r] + rest, u) || (r.Pwa? && r.role != UserRole && u == r.user)
  {
    var long, short := log + [r] + rest, log + rest;
    forall u ensures LastRow(short, u) == if Belongs(r, u) then LastRow(log, u) else LastRow(long, u) {
      DropLastRow(log, r, rest, u);
    }
    forall i | 0 <= i < |short| ensures AlternatesAt(short, i) {
      if i < |log| {
        assert short[..i] == long[..i];
        assert AlternatesAt(long, i);
      } else if short[i].Pwa? {
        var init := rest[..i - |log|];
        assert rest[i - |log|] == short[i] == long[i + 1];
        assert AlternatesAt(long, i + 1);
        assert long[..i + 1] == log + [r] + init && short[..i] == log + init;
        DropLastRow(log, r, init, short[i].user);
      }
    }
    assert AlternatesAt(long, |log|);
    assert long[..|log|] == log;
  }

  lemma {:induction false} DropLastRow(log: Log, r: Row, rest: seq<Row>, u: UserId)
    requires Belongs(r, u) ==> forall k :: 0 <= k < |rest| ==> !Belongs(rest[k], u)
    ensures LastRow(log + rest, u) == if Belongs(r, u) then LastRow(log, u) else LastRow(log + [r] + rest, u)
    decreases |rest|
  {
    var long, short := log + [r] + rest, log + rest;
    if rest == [] {
      Snoc(log, r);
      assert long == log + [r] && short == log;
    } else {
      var init := rest[..|rest| - 1];
      assert long[..|long| - 1] == log + [r] + init;
      assert short[..|short| - 1] == log + init;
      if !Belongs(rest[|rest| - 1], u) {
        DropLastRow(log, r, init, u);
      }
    }
  }

  // --- Steps ----------------------------------------------------------------------------------------

  /** A live turn's slot, when it owns it and has sent its message, tells who spoke last. */
  lemma OwnerSpokeLast(s: State, t: nat)
    requires Inv(s) && t in s.turns && Owns(s.gate, s.turns[t].user, t) && Sent(s.turns[t])
    ensures LastUser(All(s), s.turns[t].user) == Some(Id(s, t))
    ensures AnsweredBy(s.log, Id(s, t)) ==> !Orphaned(All(s), s.turns[t].user)
    ensures !AnsweredBy(All(s), Id(s, t)) ==> Orphaned(All(s), s.turns[t].user)
  {
    assert TurnOk(s.log, All(s), s.gate, Id(s, t), s.turns[t]);
    if AnsweredBy(s.log, Id(s, t)) {
      AnsweredGrows(s.log, All(s), Id(s, t));
      AnsweredIsNotOrphaned(All(s), s.turns[t].user, Id(s, t));
    }
    if !AnsweredBy(All(s), Id(s, t)) {
      UnansweredIsOrphaned(All(s), s.turns[t].user, Id(s, t));
    }
  }

  lemma AdmitQuiet(s: State, w: nat, u: UserId)
    requires QuietInv(s) && Inv(Admit(s, w, u)) && !Orphaned(All(s), u)
    ensures QuietInv(Admit(s, w, u))
  {
    var s' := Admit(s, w, u);
    assert All(s') == All(s);
    forall v ensures Attended(s', v) {
      assert Attended(s, v);
      assert v in s.gate.slots ==> SlotOk(s, v);
    }
    forall i | 0 <= i < |s'.queue| ensures QueueOk(s', i) {
      assert QueueOk(s, i);
    }
    assert forall t <- s.turns :: Closing(s, t) ==> Closing(s', t);
  }

  /** A waiter's move that does not end in a slot. */
  lemma WaitQuiet(s: State, s': State)
    requires QuietInv(s) && Inv(s') && s' == s.(waiters := s'.waiters)
    ensures QuietInv(s')
  {
    assert All(s') == All(s);
    assert forall v :: Attended(s, v) ==> Attended(s', v);
    assert forall i :: 0 <= i < |s.queue| && QueueOk(s, i) ==> QueueOk(s', i);
    assert forall t <- s.turns :: Closing(s, t) ==> Closing(s', t);
  }

  lemma AcquireQuiet(s: State, a: Action)
    requires QuietInv(s) && Enabled(s, a) && (a.Arrive? || a.ReadHolder? || a.Reclaim?)
    requires Inv(Next(s, a))
    ensures QuietInv(Next(s, a))
  {
    match a
    case Arrive(w, u) =>
      assert Attended(s, u);
      if u !in s.gate.slots { AdmitQuiet(s, w, u); } else { WaitQuiet(s, Next(s, a)); }
    case ReadHolder(w, ok) => WaitQuiet(s, Next(s, a));
    case Reclaim(w) =>
      var Reclaiming(u, h, since) := s.waiters[w];
      assert Attended(s, u) && WaiterOk(s, s.waiters[w]);
      if MayReclaim(s.gate, u, h) {
        if Owns(s.gate, u, h) {
          SeenHolderAnswered(s, u, h, since);
          assert SlotOk(s, u);
          OwnerSpokeLast(s, h);
        }
        AdmitQuiet(s, w, u);
      } else {
        WaitQuiet(s, Next(s, a));
      }
  }

  /** A turn moves on without touching the log or the queue. */
  lemma MoveQuiet(s: State, s': State, t: nat)
    requires QuietInv(s) && Inv(s') && s.up && s'.up && t in s.turns && s'.turns.Keys == s.turns.Keys
    requires s'.log == s.log && s'.queue == s.queue && s'.epoch == s.epoch
    requires s'.gate.slots.Keys == s.gate.slots.Keys
    requires forall u <- s.gate.slots :: s'.gate.slots[u].token == s.gate.slots[u].token
    requires forall x <- s.turns :: x != t ==> s'.turns[x] == s.turns[x]
    requires s.turns[t].phase != AcceptSent && (Sent(s.turns[t]) ==> Sent(s'.turns[t])) && Closing(s', t)
    ensures QuietInv(s')
  {
    assert All(s') == All(s);
    forall v ensures Attended(s', v) {
      assert Attended(s, v);
    }
    forall i | 0 <= i < |s'.queue| ensures QueueOk(s', i) {
      assert QueueOk(s, i);
    }
    forall x <- s'.turns ensures Closing(s', x) {
      assert Closing(s, x);
    }
  }

  lemma TurnQuiet(s: State, a: Action)
    requires QuietInv(s) && Enabled(s, a) && Inv(Next(s, a))
    requires a.Mark? || a.Settle? || a.CheckReply? || a.CheckCurrent? || a.Finish?
    ensures QuietInv(Next(s, a))
  {
    TurnCloses(s, a);
    TurnMoves(s, a);
    MoveQuiet(s, Next(s, a), a.t);
  }

  /** These steps move one turn and touch neither the log nor the queue nor who holds a slot. */
  lemma TurnMoves(s: State, a: Action)
    requires Inv(s) && Enabled(s, a)
    requires a.Mark? || a.Settle? || a.CheckReply? || a.CheckCurrent? || a.Finish?
    ensures var (t, s') := (a.t, Next(s, a));
            && s.up && s'.up && s'.turns.Keys == s.turns.Keys
            && s'.log == s.log && s'.queue == s.queue && s'.epoch == s.epoch
            && s'.gate.slots.Keys == s.gate.slots.Keys
            && (forall u <- s.gate.slots :: s'.gate.slots[u].token == s.gate.slots[u].token)
            && (forall x <- s.turns :: x != t ==> s'.turns[x] == s.turns[x])
            && s.turns[t].phase != AcceptSent && (Sent(s.turns[t]) ==> Sent(s'.turns[t]))
  {
    assert TurnOk(s.log, All(s), s.gate, Id(s, a.t), s.turns[a.t]);
  }

  /** A turn that decides to leave has its answer committed. */
  lemma TurnCloses(s: State, a: Action)
    requires QuietInv(s) && Enabled(s, a) && Inv(Next(s, a))
    requires a.Mark? || a.Settle? || a.CheckReply? || a.CheckCurrent? || a.Finish?
    ensures Closing(Next(s, a), a.t)
  {
    var t := a.t;
    assert TurnOk(s.log, All(s), s.gate, Id(s, t), s.turns[t]) && Closing(s, t);
    if a.CheckReply? && Next(s, a).turns[t].phase == Leaving && Owns(s.gate, s.turns[t].user, t) {
      ReplyAfterIsOwn(s.log, All(s), s.turns[t].user, Id(s, t), s.turns[t].accepted.value);
    }
    if a.Finish? {
      NoticeIsCommitted(s, t);
    }
  }

  lemma NoticeIsCommitted(s: State, t: nat)
    requires HasNotice(All(s), Id(s, t)) && !Pending(s, Id(s, t))
    ensures AnsweredBy(s.log, Id(s, t))
  {
    assert forall i :: |s.log| <= i < |All(s)| ==> All(s)[i] == s.queue[i - |s.log|];
    var i :| 0 <= i < |All(s)| && All(s)[i].Pwa? && All(s)[i].role == Notice && All(s)[i].turn == Id(s, t);
  }

  lemma DropQuiet(s: State, t: nat)
    requires QuietInv(s) && Enabled(s, Drop(t)) && s.turns[t].phase in {Holding, Leaving}
    requires Inv(Dropped(s, t))
    ensures QuietInv(Dropped(s, t))
  {
    var s', u := Dropped(s, t), s.turns[t].user;
    assert All(s') == All(s);
    assert TurnOk(s.log, All(s), s.gate, Id(s, t), s.turns[t]) && Closing(s, t);
    if Owns(s.gate, u, t) && Sent(s.turns[t]) {
      OwnerSpokeLast(s, t);
    }
    forall v ensures Attended(s', v) {
      assert Attended(s, v);
      assert v in s.gate.slots ==> SlotOk(s, v);
    }
    forall i | 0 <= i < |s'.queue| ensures QueueOk(s', i) {
      assert QueueOk(s, i);
      LeaverHasNoRowPending(s, t, i);
    }
    assert forall x <- s'.turns :: Closing(s, x) ==> Closing(s', x);
  }

  /** When a turn leaves, its rows are committed. */
  lemma LeaverHasNoRowPending(s: State, t: nat, i: nat)
    requires QuietInv(s) && t in s.turns && s.turns[t].phase in {Holding, Leaving} && i < |s.queue|
    ensures s.queue[i].Pwa? ==> s.queue[i].turn != Id(s, t)
  {
    var all, id, at := All(s), Id(s, t), |s.log| + i;
    assert TurnOk(s.log, all, s.gate, id, s.turns[t]) && Closing(s, t) && QueueOk(s, i);
    assert all[at] == s.queue[i];
    if s.queue[i].Pwa? && s.queue[i].turn == id {
      assert s.queue[i].role != UserRole;
      if s.turns[t].accepted.Some? {
        var j :| 0 <= j < |s.log| && s.log[j].Pwa? && s.log[j].role != UserRole && s.log[j].turn == id;
        assert all[j] == s.log[j];
        OneAnswerPerTurn(all, j, at);
      }
      assert false;
    }
  }

  lemma SendQuiet(s: State, t: nat, role: Role, p: Phase)
    requires QuietInv(s) && s.up && t in s.turns && !AnsweredBy(All(s), Id(s, t))
    requires if role == UserRole then s.turns[t].phase == Holding && p == AcceptSent
             else s.turns[t].phase in {Running, Cleared} && (role == Notice <==> p == NoticeSent) && p in {ReplySent, NoticeSent}
    requires Inv(WithPhase(s, t, p).(queue := s.queue + [Pwa(s.turns[t].user, role, Id(s, t))]))
    ensures QuietInv(WithPhase(s, t, p).(queue := s.queue + [Pwa(s.turns[t].user, role, Id(s, t))]))
  {
    var u, r := s.turns[t].user, Pwa(s.turns[t].user, role, Id(s, t));
    var s' := WithPhase(s, t, p).(queue := s.queue + [r]);
    assert All(s') == All(s) + [r];
    assert TurnOk(s.log, All(s), s.gate, Id(s, t), s.turns[t]);
    UnansweredOwns(s, t);
    assert SlotOk(s, u) && Attended(s, u);
    if role != UserRole {
      OwnerSpokeLast(s, t);
    }
    AlternatesSnoc(All(s), r);
    SendAttended(s, t, p, r);
    SendQueueOk(s, t, role, p, r);
    SendCloses(s, t, p, r);
  }

  lemma SendAttended(s: State, t: nat, p: Phase, r: Row)
    requires QuietInv(s) && t in s.turns && Owns(s.gate, s.turns[t].user, t)
    requires r.Pwa? && r.user == s.turns[t].user && (p == AcceptSent || s.turns[t].accepted.Some?)
    ensures forall v :: Attended(WithPhase(s, t, p).(queue := s.queue + [r]), v)
  {
    var s' := WithPhase(s, t, p).(queue := s.queue + [r]);
    assert All(s') == All(s) + [r];
    Snoc(All(s), r);
    forall v ensures Attended(s', v) {
      assert Attended(s, v);
    }
  }

  lemma SendQueueOk(s: State, t: nat, role: Role, p: Phase, r: Row)
    requires QuietInv(s) && s.up && t in s.turns && r == Pwa(s.turns[t].user, role, Id(s, t))
    requires s.turns[t].phase in {Holding, Running, Cleared} && (role == UserRole ==> p == AcceptSent)
    ensures forall i :: 0 <= i < |s.queue| + 1 ==> QueueOk(WithPhase(s, t, p).(queue := s.queue + [r]), i)
  {
    var s' := WithPhase(s, t, p).(queue := s.queue + [r]);
    forall i | 0 <= i < |s.queue| + 1 ensures QueueOk(s', i) {
      assert i < |s.queue| ==> QueueOk(s, i);
    }
  }

  lemma SendCloses(s: State, t: nat, p: Phase, r: Row)
    requires QuietInv(s) && t in s.turns && r.Pwa? && r.turn == Id(s, t)
    requires p in {AcceptSent, ReplySent, NoticeSent} && (p == NoticeSent ==> r.role == Notice)
    ensures forall x <- s.turns :: Closing(WithPhase(s, t, p).(queue := s.queue + [r]), x)
  {
    var s' := WithPhase(s, t, p).(queue := s.queue + [r]);
    assert All(s') == All(s) + [r];
    forall x <- s.turns ensures Closing(s', x) {
      assert Closing(s, x);
      NoticeSnoc(All(s), r, Id(s, x));
    }
  }

  lemma NoticeSnoc(all: Log, r: Row, id: TurnId)
    ensures HasNotice(all, id) ==> HasNotice(all + [r], id)
    ensures r.Pwa? && r.role == Notice && r.turn == id ==> HasNotice(all + [r], id)
  {
    assert forall i :: 0 <= i < |all| ==> (all + [r])[i] == all[i];
    assert (all + [r])[|all|] == r;
  }

  lemma ForeignQuiet(s: State)
    requires QuietInv(s) && s.up && Inv(Next(s, SendForeign))
    ensures QuietInv(Next(s, SendForeign))
  {
    var s' := Next(s, SendForeign);
    assert All(s') == All(s) + [Foreign];
    Snoc(All(s), Foreign);
    AlternatesSnoc(All(s), Foreign);
    forall v ensures Attended(s', v) {
      assert Attended(s, v);
    }
    forall i | 0 <= i < |s'.queue| ensures QueueOk(s', i) {
      assert i < |s.queue| ==> QueueOk(s, i);
    }
    forall x <- s'.turns ensures Closing(s', x) {
      assert Closing(s, x);
      NoticeSnoc(All(s), Foreign, Id(s, x));
    }
  }

  /** What is said of the rows on their way holds when the first of them has left the queue. */
  lemma LeavesQueueOk(s: State, ok: bool)
    requires QuietInv(s) && s.queue != []
    ensures forall i :: 0 <= i < |Committed(s, ok).queue| ==> QueueOk(Committed(s, ok), i)
  {
    var s' := Committed(s, ok);
    CommitSplit(s);
    forall i | 0 <= i < |s'.queue| ensures QueueOk(s', i) {
      assert QueueOk(s, i + 1) && QueueOk(s, 0);
      assert All(s)[|s.log| + i + 1] == s.queue[i + 1];
      assert IsMessage(s.queue[i + 1]) ==> IsMessage(All(s)[|s.log| + i + 1]);
      assert IsMessage(s.queue[0]) ==> IsMessage(All(s)[|s.log|]);
    }
  }

  lemma CommitAttended(s: State)
    requires QuietInv(s) && s.queue != []
    ensures forall v :: Attended(Committed(s, true), v)
  {
    CommitSplit(s);
    forall v ensures Attended(Committed(s, true), v) {
      assert Attended(s, v);
    }
  }

  lemma CommitCloses(s: State)
    requires QuietInv(s) && s.queue != []
    ensures forall x <- Committed(s, true).turns :: Closing(Committed(s, true), x)
  {
    var s' := Committed(s, true);
    CommitSplit(s);
    forall x <- s'.turns ensures Closing(s', x) {
      assert Closing(s, x);
      if AnsweredBy(s.log, Id(s, x)) {
        AnsweredGrows(s.log, s'.log, Id(s, x));
      }
    }
  }

  lemma CommitQuiet(s: State)
    requires QuietInv(s) && s.queue != [] && Inv(Committed(s, true))
    ensures QuietInv(Committed(s, true))
  {
    CommitSplit(s);
    CommitAttended(s);
    LeavesQueueOk(s, true);
    CommitCloses(s);
  }

  lemma HeadOwns(s: State)
    requires QuietInv(s) && s.queue != [] && s.queue[0].Pwa? && s.queue[0].role != Notice
    ensures var r := s.queue[0];
            && r.turn == Id(s, r.turn.token) && r.turn.token in s.turns && s.turns[r.turn.token].user == r.user
            && !AnsweredBy(s.log, r.turn) && Owns(s.gate, r.user, r.turn.token)
            && Sent(s.turns[r.turn.token]) && LastUser(All(s), r.user) == Some(r.turn)
  {
    var all, r, t := All(s), s.queue[0], s.queue[0].turn.token;
    assert QueueOk(s, 0);
    assert all[|s.log|] == r;
    assert TurnOk(s.log, all, s.gate, Id(s, t), s.turns[t]);
    if r.role == UserRole {
      HeadMessage(s, t);
      assert forall i :: 0 <= i < |s.log| ==> s.log[i] == all[i];
    } else if AnsweredBy(s.log, r.turn) {
      var j :| 0 <= j < |s.log| && s.log[j].Pwa? && s.log[j].role != UserRole && s.log[j].turn == r.turn;
      assert all[j] == s.log[j];
      OneAnswerPerTurn(all, j, |s.log|);
    }
  }

  lemma SameMessage(all: Log, i: nat, j: nat)
    requires OneMessagePerTurn(all) && i < |all| && j < |all|
    requires IsMessage(all[i]) && IsMessage(all[j]) && all[i].turn == all[j].turn
    ensures i == j
  {
  }

  /** The most recent message of the conversation of the row at the head of the queue. */
  lemma HeadMessageAt(s: State) returns (p: nat)
    requires QuietInv(s) && s.queue != [] && s.queue[0].Pwa? && s.queue[0].role != Notice
    ensures p <= |s.log| && IsUser(All(s)[p], s.queue[0].user) && All(s)[p].turn == s.queue[0].turn
    ensures forall k :: p < k < |All(s)| ==> !IsUser(All(s)[k], s.queue[0].user)
    ensures s.queue[0].role == UserRole ==> !AnsweredBy(All(s), s.queue[0].turn)
  {
    HeadOwns(s);
    var all, r, at := All(s), s.queue[0], |s.log|;
    assert all[at] == r;
    p := LastUserAt(all, r.user);
    if r.role == UserRole {
      SameMessage(all, p, at);
      HeadMessage(s, r.turn.token);
    } else {
      assert AttributedAt(all, at);
      var q := LastUserAt(all[..at], r.user);
      SameMessage(all, q, p);
    }
  }

  /** Nothing of the conversation comes after the answer to its latest message, or after that message unanswered. */
  lemma LastOfConversation(all: Log, p: nat, at: nat)
    requires Attributed(all) && OneMessagePerTurn(all) && Alternates(all)
    requires p <= at < |all| && all[at].Pwa? && IsUser(all[p], all[at].user) && all[p].turn == all[at].turn
    requires forall k :: p < k < |all| ==> !IsUser(all[k], all[at].user)
    requires all[at].role == UserRole ==> !AnsweredBy(all, all[at].turn)
    ensures forall k :: at < k < |all| ==> !Belongs(all[k], all[at].user)
  {
    forall k | at < k < |all| ensures !Belongs(all[k], all[at].user) {
      if Belongs(all[k], all[at].user) {
        assert AttributedAt(all, k);
        LastUserBy(all[..k], all[at].user, p);
        assert all[k].turn == all[at].turn;
        if all[at].role != UserRole {
          OneAnswerPerTurn(all, at, k);
        }
      }
    }
  }

  /** The row at the head of the queue is the last one of its conversation, unless it is a notice. */
  lemma HeadIsLast(s: State)
    requires QuietInv(s) && s.queue != [] && s.queue[0].Pwa? && s.queue[0].role != Notice
    ensures forall k :: 0 <= k < |s.queue[1..]| ==> !Belongs(s.queue[1..][k], s.queue[0].user)
  {
    var p := HeadMessageAt(s);
    assert All(s)[|s.log|] == s.queue[0];
    LastOfConversation(All(s), p, |s.log|);
    assert forall k :: 0 <= k < |s.queue[1..]| ==> s.queue[1..][k] == All(s)[|s.log| + 1 + k];
  }

  lemma FailCloses(s: State)
    requires QuietInv(s) && s.queue != [] && (s.queue[0].Pwa? ==> s.queue[0].role != Notice)
    ensures forall x <- Committed(s, false).turns :: Closing(Committed(s, false), x)
  {
    var s' := Committed(s, false);
    CommitSplit(s);
    forall x <- s'.turns ensures Closing(s', x) {
      assert Closing(s, x);
      NoticeDrop(s.log, s.queue[0], s.queue[1..], Id(s, x));
    }
  }

  lemma FailQuiet(s: State)
    requires QuietInv(s) && s.queue != [] && (s.queue[0].Pwa? ==> s.queue[0].role != Notice)
    requires Inv(Committed(s, false))
    ensures QuietInv(Committed(s, false))
  {
    CommitSplit(s);
    if s.queue[0].Pwa? {
      HeadIsLast(s);
      HeadOwns(s);
    }
    AlternatesDrop(s.log, s.queue[0], s.queue[1..]);
    FailAttended(s);
    LeavesQueueOk(s, false);
    FailCloses(s);
  }

  lemma NoticeDrop(log: Log, r: Row, rest: seq<Row>, id: TurnId)
    requires r.Pwa? ==> r.role != Notice
    ensures HasNotice(log + [r] + rest, id) ==> HasNotice(log + rest, id)
  {
    var long, short := log + [r] + rest, log + rest;
    if HasNotice(long, id) {
      var i :| 0 <= i < |long| && long[i].Pwa? && long[i].role == Notice && long[i].turn == id;
      assert i != |log|;
      assert short[if i < |log| then i else i - 1] == long[i];
    }
  }

  lemma FailAttended(s: State)
    requires QuietInv(s) && s.queue != [] && (s.queue[0].Pwa? ==> s.queue[0].role != Notice)
    requires Inv(Committed(s, false))
    ensures forall u :: Attended(Committed(s, false), u)
  {
    var s', r, rest := Committed(s, false), s.queue[0], s.queue[1..];
    CommitSplit(s);
    if r.Pwa? {
      HeadIsLast(s);
      HeadOwns(s);
    }
    AlternatesDrop(s.log, r, rest);
    forall u ensures Attended(s', u) {
      assert Attended(s, u);
      if IsUser(r, u) {
        DropLastRow(s.log, r, rest, u);
        assert AlternatesAt(All(s), |s.log|);
        assert All(s)[..|s.log|] == s.log;
      }
      assert u in s.gate.slots ==> SlotOk(s, u);
    }
  }

  lemma StepQuiet(s: State, a: Action)
    requires QuietInv(s) && Enabled(s, a) && QuietStep(s, a)
    ensures QuietInv(Next(s, a))
  {
    StepKeeps(s, a);
    match a
    case Arrive(_, _) => AcquireQuiet(s, a);
    case ReadHolder(_, _) => AcquireQuiet(s, a);
    case Reclaim(_) => AcquireQuiet(s, a);
    case SendAccept(t) =>
      assert TurnOk(s.log, All(s), s.gate, Id(s, t), s.turns[t]);
      SendQuiet(s, t, UserRole, AcceptSent);
    case SendReply(t) =>
      assert TurnOk(s.log, All(s), s.gate, Id(s, t), s.turns[t]);
      SendQuiet(s, t, Reply, ReplySent);
    case SendNotice(t) =>
      assert TurnOk(s.log, All(s), s.gate, Id(s, t), s.turns[t]);
      SendQuiet(s, t, Notice, NoticeSent);
    case Mark(t) => TurnQuiet(s, a);
    case Settle(t) => TurnQuiet(s, a);
    case CheckReply(t, _) => TurnQuiet(s, a);
    case CheckCurrent(t) => TurnQuiet(s, a);
    case Finish(t) => TurnQuiet(s, a);
    case Drop(t) => DropQuiet(s, t);
    case Commit(ok) => if ok { CommitQuiet(s); } else { FailQuiet(s); }
    case SendForeign => ForeignQuiet(s);
    case Crash =>
      assert All(Next(s, a)) == s.log == All(s)[..|s.log|];
      AlternatesPrefix(All(s), |s.log|);
    case Sweep(us) =>
      assert All(s) == s.log && All(Next(s, a)) == s.log + Notices(s.log, us);
      SweepAppends(s.log, us);
    case Serve =>
      assert All(s) == s.log && All(Next(s, a)) == s.log;
  }

  lemma {:induction false} QuietRunKeeps(s: State, run: seq<Action>)
    requires QuietInv(s) && QuietRun(s, run)
    ensures CanRun(s, run) && CleanRun(s, run) && QuietInv(After(s, run))
    decreases |run|
  {
    if run != [] {
      StepQuiet(s, run[0]);
      QuietRunKeeps(Next(s, run[0]), run[1..]);
    }
  }

  lemma InitialQuiet()
    ensures QuietInv(INITIAL)
  {
    InitialInv();
  }

  // --- Theorems -------------------------------------------------------------------------------------

  ghost predicate QuietlyReachable(s: State) {
    exists run :: CanRun(INITIAL, run) && QuietRun(INITIAL, run) && After(INITIAL, run) == s
  }

  lemma QuietlyReachableInv(s: State)
    requires QuietlyReachable(s)
    ensures QuietInv(s) && Reachable(s)
  {
    var run :| CanRun(INITIAL, run) && QuietRun(INITIAL, run) && After(INITIAL, run) == s;
    InitialQuiet();
    QuietRunKeeps(INITIAL, run);
  }

  /** In a quiet run every conversation goes message, answer, message, answer, ... */
  lemma QuietRunsAlternate(s: State)
    requires QuietlyReachable(s)
    ensures Alternates(s.log)
  {
    QuietlyReachableInv(s);
    assert s.log == All(s)[..|s.log|];
    AlternatesPrefix(All(s), |s.log|);
  }

  /** In a quiet run, when no turn of the user is at work, every message of the user has been answered. */
  lemma QuietRunsAnswerEverything(s: State, p: nat, u: UserId)
    requires QuietlyReachable(s) && s.up && p < |s.log| && IsUser(s.log[p], u)
    requires forall t <- s.turns :: s.turns[t].user != u
    ensures HasReplyAfter(s.log, u, p + 1)
  {
    QuietlyReachableInv(s);
    forall i | |s.log| <= i < |All(s)| ensures !Belongs(All(s)[i], u) {
      assert QueueOk(s, i - |s.log|) && All(s)[i] == s.queue[i - |s.log|];
      if All(s)[i].Pwa? {
        var t := All(s)[i].turn.token;
        assert TurnOk(s.log, All(s), s.gate, Id(s, t), s.turns[t]);
      }
    }
    assert All(s)[p] == s.log[p];
    assert u in s.gate.slots ==> SlotOk(s, u);
    assert Attended(s, u);
    SettledIsAnswered(All(s), u, p);
    var i :| p + 1 <= i < |All(s)| && IsAnswer(All(s)[i], u);
    assert s.log[i] == All(s)[i];
  }
}

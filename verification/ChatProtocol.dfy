/**
  The chat turn protocol as interleaved atomic steps.

  A step is one critical section of the slot mutex, one read of committed rows, one hand-over of a
  transaction to the single database writer, or one transaction taken off the writer's queue. Any
  number of requests run at once, in any interleaving; guards may be dropped early (a cancelled
  handler, a panicking turn), reads and transactions may fail, and the process may crash.

  The writer is a queue: a transaction is committed, or fails, some time after it was handed over,
  in the order of the hand-overs, whether or not anybody still waits for it.
 */
module ChatProtocol {
  import opened Wrappers
  import opened MessageLog
  import opened InFlight

  /** Where a request with a guard is. */
  datatype Phase =
    | Holding      // has the slot; the rate limit is next
    | AcceptSent   // the user's message is with the writer
    | Accepted     // the message is committed; the slot does not know yet
    | Running      // answered 202; the engine works
    | ReplySent    // the engine's reply is with the writer
    | Settled      // the engine returned, failed or timed out
    | Unsettled    // the log showed no reply, or could not be read
    | Cleared      // the slot was still ours; the notice is next
    | NoticeSent   // the notice is with the writer
    | Leaving      // nothing left to do but to drop the guard

  datatype Turn = Turn(user: UserId, phase: Phase, accepted: Option<AcceptedMessage>)

  function Since(turn: Turn): nat {
    if turn.accepted.Some? then turn.accepted.value.sinceId else 0
  }

  /** Why a request was answered 409. */
  datatype Reason = Busy | Unanswered | ReadFailed | Superseded(newer: nat)

  /** A request that has no guard: it found a held slot, or it is through with `acquire`. */
  datatype Waiter =
    | Checking(user: UserId, holder: nat, since: nat)
    | Reclaiming(user: UserId, holder: nat, since: nat)
    | Admitted(user: UserId, token: nat)
    | Rejected(user: UserId, why: Reason)

  datatype State = State(
    up: bool,                    // serving requests; false between a crash and the end of the sweep
    epoch: nat,                  // counts process starts
    log: Log,                    // committed rows
    queue: seq<Row>,             // transactions handed to the writer
    gate: Gate,
    turns: map<nat, Turn>,       // live guards, by token
    waiters: map<nat, Waiter>)

  datatype Action =
    | Arrive(w: nat, user: UserId)
    | ReadHolder(w: nat, ok: bool)
    | Reclaim(w: nat)
    | SendAccept(t: nat)
    | Mark(t: nat)
    | SendReply(t: nat)
    | Settle(t: nat)
    | CheckReply(t: nat, ok: bool)
    | CheckCurrent(t: nat)
    | SendNotice(t: nat)
    | Finish(t: nat)
    | Drop(t: nat)
    | Commit(ok: bool)
    | SendForeign
    | Crash
    | Sweep(users: seq<UserId>)
    | Serve

  const INITIAL := State(false, 0, [], [], EMPTY_GATE, map[], map[])

  function Id(s: State, t: nat): TurnId {
    TurnId(s.epoch, t)
  }

  /** Every row that is committed or on its way. */
  function All(s: State): Log {
    s.log + s.queue
  }

  predicate InPhase(s: State, t: nat, p: Phase) {
    s.up && t in s.turns && s.turns[t].phase == p
  }

  predicate Pending(s: State, id: TurnId) {
    exists i :: 0 <= i < |s.queue| && s.queue[i].Pwa? && s.queue[i].turn == id
  }

  predicate Enabled(s: State, a: Action) {
    match a
    case Arrive(w, _) => s.up && w !in s.waiters
    case ReadHolder(w, _) => s.up && w in s.waiters && s.waiters[w].Checking?
    case Reclaim(w) => s.up && w in s.waiters && s.waiters[w].Reclaiming?
    case SendAccept(t) => InPhase(s, t, Holding)
    case Mark(t) => InPhase(s, t, Accepted)
    case SendReply(t) => InPhase(s, t, Running)
    // The engine may give up before it writes, after its row is committed, or, on a timeout, while
    // its row is still with the writer.
    case Settle(t) => InPhase(s, t, Running) || InPhase(s, t, ReplySent)
    case CheckReply(t, _) => InPhase(s, t, Settled)
    case CheckCurrent(t) => InPhase(s, t, Unsettled)
    case SendNotice(t) => InPhase(s, t, Cleared)
    case Finish(t) => InPhase(s, t, NoticeSent) && !Pending(s, Id(s, t))
    case Drop(t) => s.up && t in s.turns
    case Commit(_) => s.queue != []
    case SendForeign => s.up
    case Crash => s.up
    case Sweep(us) => !s.up && Distinct(us) && (forall i :: 0 <= i < |us| ==> Orphaned(s.log, us[i]))
    case Serve => !s.up
  }

  function WithPhase(s: State, t: nat, p: Phase): State
    requires t in s.turns
  {
    s.(turns := s.turns[t := s.turns[t].(phase := p)])
  }

  /** A request gets a fresh slot and, with it, a guard. */
  function Admit(s: State, w: nat, u: UserId): State {
    var token := s.gate.nextToken + 1;
    s.(gate := Insert(s.gate, u),
       turns := s.turns[token := Turn(u, Holding, None)],
       waiters := s.waiters[w := Admitted(u, token)])
  }

  function Arrived(s: State, w: nat, u: UserId): State {
    match Look(s.gate, u)
    case Taken(_) => Admit(s, w, u)
    case Refused => s.(waiters := s.waiters[w := Rejected(u, Busy)])
    case Held(holder, since) => s.(waiters := s.waiters[w := Checking(u, holder, since)])
  }

  function HolderRead(s: State, w: nat, ok: bool): State
    requires w in s.waiters && s.waiters[w].Checking?
  {
    var Checking(u, holder, since) := s.waiters[w];
    var next :=
      if !ok then Rejected(u, ReadFailed)
      else if HasReplyAfter(s.log, u, since) then Reclaiming(u, holder, since)
      else Rejected(u, Unanswered);
    s.(waiters := s.waiters[w := next])
  }

  function Reclaimed(s: State, w: nat): State
    requires w in s.waiters && s.waiters[w].Reclaiming?
  {
    var Reclaiming(u, holder, _) := s.waiters[w];
    if MayReclaim(s.gate, u, holder) then Admit(s, w, u)
    else s.(waiters := s.waiters[w := Rejected(u, Superseded(s.gate.slots[u].token))])
  }

  /** The user's message has reached the head of the writer's queue. */
  function Delivered(s: State, r: Row, ok: bool): map<nat, Turn> {
    if r.Pwa? && r.role == UserRole && r.turn == Id(s, r.turn.token)
       && r.turn.token in s.turns && s.turns[r.turn.token].phase == AcceptSent
    then
      var turn := s.turns[r.turn.token];
      s.turns[r.turn.token :=
        if ok then turn.(phase := Accepted,
                         accepted := Some(AcceptedMessage(|s.log| + 1, MaxId(s.log, r.user))))
        else turn.(phase := Leaving)]
    else s.turns
  }

  function Committed(s: State, ok: bool): State
    requires s.queue != []
  {
    s.(log := if ok then s.log + [s.queue[0]] else s.log,
       queue := s.queue[1..],
       turns := Delivered(s, s.queue[0], ok))
  }

  function Dropped(s: State, t: nat): State
    requires t in s.turns
  {
    s.(gate := Released(s.gate, s.turns[t].user, t), turns := s.turns - {t})
  }

  function Next(s: State, a: Action): State
    requires Enabled(s, a)
  {
    match a
    case Arrive(w, u) => Arrived(s, w, u)
    case ReadHolder(w, ok) => HolderRead(s, w, ok)
    case Reclaim(w) => Reclaimed(s, w)
    case SendAccept(t) =>
      WithPhase(s, t, AcceptSent).(queue := s.queue + [Pwa(s.turns[t].user, UserRole, Id(s, t))])
    case Mark(t) =>
      WithPhase(s, t, Running).(gate := Marked(s.gate, s.turns[t].user, t, Since(s.turns[t])))
    case SendReply(t) =>
      WithPhase(s, t, ReplySent).(queue := s.queue + [Pwa(s.turns[t].user, Reply, Id(s, t))])
    case Settle(t) => WithPhase(s, t, Settled)
    case CheckReply(t, ok) =>
      var seen := ok && HasReplyAfter(s.log, s.turns[t].user, Since(s.turns[t]));
      WithPhase(s, t, if seen then Leaving else Unsettled)
    case CheckCurrent(t) =>
      WithPhase(s, t, if Owns(s.gate, s.turns[t].user, t) then Cleared else Leaving)
    case SendNotice(t) =>
      WithPhase(s, t, NoticeSent).(queue := s.queue + [Pwa(s.turns[t].user, Notice, Id(s, t))])
    case Finish(t) => WithPhase(s, t, Leaving)
    case Drop(t) => Dropped(s, t)
    case Commit(ok) => Committed(s, ok)
    case SendForeign => s.(queue := s.queue + [Foreign])
    case Crash => State(false, s.epoch + 1, s.log, [], EMPTY_GATE, map[], map[])
    case Sweep(us) => s.(log := s.log + Notices(s.log, us))
    case Serve => s.(up := true)
  }

  /** Every action of the run can happen when its turn comes. */
  ghost predicate CanRun(s: State, run: seq<Action>)
    decreases |run|
  {
    run == [] || (Enabled(s, run[0]) && CanRun(Next(s, run[0]), run[1..]))
  }

  ghost function After(s: State, run: seq<Action>): State
    requires CanRun(s, run)
    decreases |run|
  {
    if run == [] then s else After(Next(s, run[0]), run[1..])
  }

  // --- Clean runs -----------------------------------------------------------------------------

  /** A reply of `t` is committed or on its way. */
  ghost predicate Exposed(s: State, t: nat) {
    AnsweredBy(All(s), Id(s, t))
  }

  /** The step lets a notice through only for a turn that has no reply, not even one on its way. */
  ghost predicate CleanStep(s: State, a: Action)
    requires Enabled(s, a)
  {
    a.CheckCurrent? && Owns(s.gate, s.turns[a.t].user, a.t) ==> !Exposed(s, a.t)
  }

  ghost predicate CleanRun(s: State, run: seq<Action>)
    decreases |run|
  {
    run == [] ||
    (Enabled(s, run[0]) && CleanStep(s, run[0]) && CleanRun(Next(s, run[0]), run[1..]))
  }
}

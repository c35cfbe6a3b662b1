/**
  The server objects at work: `InFlightTurns` and the message log, changed in place by the steps of
  `chat_send` and `run_pwa_turn_in_background`. Every method is one atomic step, and does to the
  objects what `ChatProtocol.Next` does to their value.
 */
module ChatServer {
  import opened Wrappers
  import opened MessageLog
  import opened InFlight
  import opened Recovery
  import opened ChatProtocol

  class Server {
    const epoch: nat
    const inFlight: InFlightTurns
    const db: MessageDb
    var queue: seq<Row>
    var turns: map<nat, Turn>
    var waiters: map<nat, Waiter>

    ghost function Value(): State
      reads this, inFlight, db
    {
      State(true, epoch, db.rows, queue, inFlight.Value(), turns, waiters)
    }

    /** A process that starts on an existing log, after the sweep. */
    constructor (epoch: nat, log: Log)
      ensures fresh(inFlight) && fresh(db)
      ensures Value() == State(true, epoch, log, [], EMPTY_GATE, map[], map[])
    {
      this.epoch := epoch;
      inFlight := new InFlightTurns();
      db := new MessageDb(log);
      queue, turns, waiters := [], map[], map[];
    }

    method MoveTo(t: nat, p: Phase)
      requires t in turns
      modifies this`turns
      ensures turns == old(turns)[t := old(turns)[t].(phase := p)]
    {
      turns := turns[t := turns[t].(phase := p)];
    }

    /** `acquire`, up to the read. */
    method Arrive(w: nat, u: UserId)
      requires Enabled(Value(), Action.Arrive(w, u))
      modifies this, inFlight
      ensures Value() == Next(old(Value()), Action.Arrive(w, u))
    {
      var look := inFlight.LookFirst(u);
      match look
      case Taken(token) =>
        turns := turns[token := Turn(u, Holding, None)];
        waiters := waiters[w := Admitted(u, token)];
      case Refused =>
        waiters := waiters[w := Rejected(u, Busy)];
      case Held(holder, since) =>
        waiters := waiters[w := Checking(u, holder, since)];
    }

    /** The read outside the lock. */
    method ReadHolder(w: nat, ok: bool)
      requires Enabled(Value(), Action.ReadHolder(w, ok))
      modifies this`waiters
      ensures Value() == Next(old(Value()), Action.ReadHolder(w, ok))
    {
      var Checking(u, holder, since) := waiters[w];
      var seen := db.HasReply(u, since);
      if !ok {
        waiters := waiters[w := Rejected(u, ReadFailed)];
      } else if seen {
        waiters := waiters[w := Reclaiming(u, holder, since)];
      } else {
        waiters := waiters[w := Rejected(u, Unanswered)];
      }
    }

    /** `acquire`, after the read. */
    method Reclaim(w: nat)
      requires Enabled(Value(), Action.Reclaim(w))
      modifies this, inFlight
      ensures Value() == Next(old(Value()), Action.Reclaim(w))
    {
      var Reclaiming(u, holder, _) := waiters[w];
      var won := inFlight.LookAgain(u, holder);
      match won
      case Some(token) =>
        turns := turns[token := Turn(u, Holding, None)];
        waiters := waiters[w := Admitted(u, token)];
      case None =>
        waiters := waiters[w := Rejected(u, Superseded(inFlight.slots[u].token))];
    }

    method SendAccept(t: nat)
      requires Enabled(Value(), Action.SendAccept(t))
      modifies this
      ensures Value() == Next(old(Value()), Action.SendAccept(t))
    {
      queue := queue + [Pwa(turns[t].user, UserRole, TurnId(epoch, t))];
      MoveTo(t, AcceptSent);
    }

    method Mark(t: nat)
      requires Enabled(Value(), Action.Mark(t))
      modifies this`turns, inFlight
      ensures Value() == Next(old(Value()), Action.Mark(t))
    {
      inFlight.MarkAccepted(turns[t].user, t, Since(turns[t]));
      MoveTo(t, Running);
    }

    method SendReply(t: nat)
      requires Enabled(Value(), Action.SendReply(t))
      modifies this
      ensures Value() == Next(old(Value()), Action.SendReply(t))
    {
      queue := queue + [Pwa(turns[t].user, Reply, TurnId(epoch, t))];
      MoveTo(t, ReplySent);
    }

    method Settle(t: nat)
      requires Enabled(Value(), Action.Settle(t))
      modifies this`turns
      ensures Value() == Next(old(Value()), Action.Settle(t))
    {
      MoveTo(t, Settled);
    }

    /** The terminal check: a reply that is seen ends the turn, a failed read does not. */
    method CheckReply(t: nat, ok: bool)
      requires Enabled(Value(), Action.CheckReply(t, ok))
      modifies this`turns
      ensures Value() == Next(old(Value()), Action.CheckReply(t, ok))
    {
      var seen := db.HasReply(turns[t].user, Since(turns[t]));
      MoveTo(t, if ok && seen then Leaving else Unsettled);
    }

    method CheckCurrent(t: nat)
      requires Enabled(Value(), Action.CheckCurrent(t))
      modifies this`turns
      ensures Value() == Next(old(Value()), Action.CheckCurrent(t))
    {
      var current := inFlight.IsCurrent(turns[t].user, t);
      MoveTo(t, if current then Cleared else Leaving);
    }

    method SendNotice(t: nat)
      requires Enabled(Value(), Action.SendNotice(t))
      modifies this
      ensures Value() == Next(old(Value()), Action.SendNotice(t))
    {
      queue := queue + [Pwa(turns[t].user, Notice, TurnId(epoch, t))];
      MoveTo(t, NoticeSent);
    }

    method Drop(t: nat)
      requires Enabled(Value(), Action.Drop(t))
      modifies this`turns, inFlight
      ensures Value() == Next(old(Value()), Action.Drop(t))
    {
      inFlight.DropGuard(turns[t].user, t);
      turns := turns - {t};
    }

    /** The writer commits the transaction at the head of its queue, and its sender hears about it. */
    method Commit(ok: bool)
      requires Enabled(Value(), Action.Commit(ok))
      modifies this, db
      ensures Value() == Next(old(Value()), Action.Commit(ok))
    {
      var r := queue[0];
      queue := queue[1..];
      var waiting := r.Pwa? && r.role == UserRole && r.turn.epoch == epoch
                     && r.turn.token in turns && turns[r.turn.token].phase == AcceptSent;
      if ok && waiting {
        var acc := db.AcceptUserMessage(r.user, r.turn);
        turns := turns[r.turn.token := turns[r.turn.token].(phase := Accepted, accepted := Some(acc))];
      } else if ok {
        db.rows := db.rows + [r];
      } else if waiting {
        MoveTo(r.turn.token, Leaving);
      }
    }
  }
}

/**
  `InFlightTurns`: one slot per user, so that a user has one turn in progress at a time.

  The slot is not freed when a turn's answer appears: it is freed when the turn's guard is dropped.
  In between, a new request may take the slot over after it has read the answer in the log. The gate
  is a value here, and `InFlightTurns` is the object whose lock sections change it in place.
 */
module InFlight {
  import opened Wrappers
  import opened MessageLog

  /** `sinceId` is `None` until the holder's message has been accepted and recorded. */
  datatype Slot = Slot(token: nat, sinceId: Option<nat>)

  datatype Gate = Gate(nextToken: nat, slots: map<UserId, Slot>)

  /** The first lock section of `acquire`. */
  datatype FirstLook = Taken(token: nat) | Refused | Held(token: nat, sinceId: nat)

  const EMPTY_GATE := Gate(0, map[])

  predicate Owns(g: Gate, u: UserId, token: nat) {
    u in g.slots && g.slots[u].token == token
  }

  function Insert(g: Gate, u: UserId): Gate {
    Gate(g.nextToken + 1, g.slots[u := Slot(g.nextToken + 1, None)])
  }

  function Look(g: Gate, u: UserId): FirstLook {
    if u !in g.slots then Taken(g.nextToken + 1)
    else match g.slots[u].sinceId
      case None => Refused
      case Some(since) => Held(g.slots[u].token, since)
  }

  function AfterLook(g: Gate, u: UserId): Gate {
    if u !in g.slots then Insert(g, u) else g
  }

  /** The slot is still the one that was checked, or its guard has been dropped since. */
  predicate MayReclaim(g: Gate, u: UserId, holder: nat) {
    u in g.slots ==> g.slots[u].token == holder
  }

  function AfterReclaim(g: Gate, u: UserId, holder: nat): Gate {
    if MayReclaim(g, u, holder) then Insert(g, u) else g
  }

  function Marked(g: Gate, u: UserId, token: nat, since: nat): Gate {
    if Owns(g, u, token) then g.(slots := g.slots[u := Slot(token, Some(since))]) else g
  }

  function Released(g: Gate, u: UserId, token: nat): Gate {
    if Owns(g, u, token) then g.(slots := g.slots - {u}) else g
  }

  /** The shared object: every method is one critical section of the mutex. */
  class InFlightTurns {
    var nextToken: nat
    var slots: map<UserId, Slot>

    ghost function Value(): Gate
      reads this
    {
      Gate(nextToken, slots)
    }

    constructor ()
      ensures Value() == EMPTY_GATE
    {
      nextToken, slots := 0, map[];
    }

    method InsertSlot(key: UserId) returns (token: nat)
      modifies this
      ensures Value() == Insert(old(Value()), key)
      ensures token == nextToken && token > old(nextToken) && Owns(Value(), key, token)
    {
      nextToken := nextToken + 1;
      token := nextToken;
      slots := slots[key := Slot(token, None)];
    }

    /** `acquire` up to the point where it lets go of the lock. */
    method LookFirst(key: UserId) returns (r: FirstLook)
      modifies this
      ensures r == Look(old(Value()), key)
      ensures r.Taken? <==> key !in old(slots)
      ensures r.Taken? ==> slots == old(slots)[key := Slot(r.token, None)] && r.token == nextToken == old(nextToken) + 1
      ensures !r.Taken? ==> slots == old(slots) && nextToken == old(nextToken)
      ensures Value() == AfterLook(old(Value()), key)
    {
      if key !in slots {
        var token := InsertSlot(key);
        return Taken(token);
      }
      var slot := slots[key];
      match slot.sinceId
      case None => return Refused;
      case Some(since) => return Held(slot.token, since);
    }

    /** `acquire` after the log has shown the holder's answer. */
    method LookAgain(key: UserId, holder: nat) returns (r: Option<nat>)
      modifies this
      ensures r.Some? <==> MayReclaim(old(Value()), key, holder)
      ensures r.Some? ==> r.value == old(nextToken) + 1
      ensures Value() == AfterReclaim(old(Value()), key, holder)
    {
      var stillOurs := key !in slots || slots[key].token == holder;
      if stillOurs {
        var token := InsertSlot(key);
        r := Some(token);
      } else {
        r := None;
      }
    }

    method MarkAccepted(key: UserId, token: nat, since: nat)
      modifies this`slots
      ensures Value() == Marked(old(Value()), key, token, since)
    {
      if key in slots {
        var slot := slots[key];
        if slot.token == token {
          slots := slots[key := slot.(sinceId := Some(since))];
        }
      }
    }

    method IsCurrent(key: UserId, token: nat) returns (r: bool)
      ensures r == Owns(Value(), key, token)
    {
      r := key in slots && slots[key].token == token;
    }

    /** `InFlightGuard::drop`. */
    method DropGuard(key: UserId, token: nat)
      modifies this`slots
      ensures Value() == Released(old(Value()), key, token)
    {
      if key in slots && slots[key].token == token {
        slots := slots - {key};
      }
    }
  }
}

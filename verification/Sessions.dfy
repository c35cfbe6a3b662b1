/**
  The session store: opaque tokens kept by hash, in Redis with an index of hashes per user, and in
  memory when Redis cannot be reached.

  Every operation happens at one time. `up` says whether Redis answers during it. Expired keys are
  not removed from the Redis maps here; they just stop being visible.
 */
module Sessions {
  import opened Wrappers

  type Hash = string
  type UserId = string

  datatype SessionUser = SessionUser(discordId: UserId, username: string, admin: bool)

  datatype Timed<+T> = Timed(value: T, expiresAt: int)

  datatype Redis = Redis(sessions: map<Hash, Timed<SessionUser>>, index: map<UserId, Timed<set<Hash>>>)

  datatype Memory = Memory(sessions: map<Hash, Timed<SessionUser>>, byUser: map<UserId, set<Hash>>)

  datatype Store = Store(redis: Redis, memory: Memory)

  datatype Error = Backend

  predicate LiveKey<K, T>(m: map<K, Timed<T>>, k: K, now: int) {
    k in m && now < m[k].expiresAt
  }

  // --- Redis ------------------------------------------------------------------------------------------

  /** The members of a user's index; an expired key is an empty set. */
  function Members(r: Redis, u: UserId, now: int): set<Hash> {
    if LiveKey(r.index, u, now) then r.index[u].value else {}
  }

  /** SET EX, SADD, EXPIRE. */
  function RedisCreate(r: Redis, h: Hash, user: SessionUser, ttl: nat, now: int): Redis {
    Redis(r.sessions[h := Timed(user, now + ttl)],
          r.index[user.discordId := Timed(Members(r, user.discordId, now) + {h}, now + ttl)])
  }

  /** EXPIRE, which does nothing to a key that is not there. */
  function Touch<K, T>(m: map<K, Timed<T>>, k: K, ttl: nat, now: int): map<K, Timed<T>> {
    if LiveKey(m, k, now) then m[k := Timed(m[k].value, now + ttl)] else m
  }

  /** DEL of the session and SREM from its user's index; an emptied index disappears. */
  function RedisDestroy(r: Redis, h: Hash, now: int): Redis {
    if !LiveKey(r.sessions, h, now) then Redis(r.sessions - {h}, r.index)
    else
      var u := r.sessions[h].value.discordId;
      var left := Members(r, u, now) - {h};
      Redis(r.sessions - {h},
            if left == {} then r.index - {u} else r.index[u := Timed(left, r.index[u].expiresAt)])
  }

  /** DEL of every session in the index, then of the index. */
  function RedisDestroyAll(r: Redis, u: UserId, now: int): Redis {
    Redis(r.sessions - Members(r, u, now), r.index - {u})
  }

  // --- Memory -----------------------------------------------------------------------------------------

  function MemoryCreate(m: Memory, h: Hash, user: SessionUser, ttl: nat, now: int): Memory {
    var u := user.discordId;
    Memory(m.sessions[h := Timed(user, now + ttl)],
           m.byUser[u := (if u in m.byUser then m.byUser[u] else {}) + {h}])
  }

  function MemoryRemove(m: Memory, h: Hash): Memory {
    if h !in m.sessions then m
    else
      var u := m.sessions[h].value.discordId;
      var left := (if u in m.byUser then m.byUser[u] else {}) - {h};
      Memory(m.sessions - {h}, if left == {} then m.byUser - {u} else m.byUser[u := left])
  }

  /** The session, if it has not expired, and what looking it up does to the maps. */
  function MemoryGet(m: Memory, h: Hash, ttl: nat, now: int): (Option<SessionUser>, Memory) {
    if h !in m.sessions then (None, m)
    else if !LiveKey(m.sessions, h, now) then (None, MemoryRemove(m, h))
    else (Some(m.sessions[h].value), m.(sessions := m.sessions[h := Timed(m.sessions[h].value, now + ttl)]))
  }

  function MemoryDestroyAll(m: Memory, u: UserId): Memory {
    if u in m.byUser then Memory(m.sessions - m.byUser[u], m.byUser - {u}) else m
  }

  // --- The store --------------------------------------------------------------------------------------

  /** SET EX refuses a zero TTL, so such a session goes to memory. */
  function Create(s: Store, h: Hash, user: SessionUser, ttl: nat, now: int, up: bool): Store {
    if up && ttl > 0 then s.(redis := RedisCreate(s.redis, h, user, ttl, now))
    else s.(memory := MemoryCreate(s.memory, h, user, ttl, now))
  }

  function Look(s: Store, h: Hash, ttl: nat, now: int, up: bool): (Option<SessionUser>, Store) {
    if up && LiveKey(s.redis.sessions, h, now) then
      var user := s.redis.sessions[h].value;
      (Some(user),
       s.(redis := Redis(Touch(s.redis.sessions, h, ttl, now), Touch(s.redis.index, user.discordId, ttl, now))))
    else
      var (found, memory) := MemoryGet(s.memory, h, ttl, now);
      (found, s.(memory := memory))
  }

  /** Nobody is an answer, unless there is a Redis that should have been asked and could not be. */
  function Answer(found: Option<SessionUser>, up: bool, withRedis: bool): Result<Option<SessionUser>, Error> {
    if found.None? && withRedis && !up then Err(Backend) else Ok(found)
  }

  function Destroy(s: Store, h: Hash, now: int, up: bool): Store {
    Store(if up then RedisDestroy(s.redis, h, now) else s.redis, MemoryRemove(s.memory, h))
  }

  function DestroyAll(s: Store, u: UserId, now: int, up: bool): Store {
    Store(if up then RedisDestroyAll(s.redis, u, now) else s.redis, MemoryDestroyAll(s.memory, u))
  }

  // --- The invariant ----------------------------------------------------------------------------------

  /** A live session is in its user's index, and the index does not expire before it. */
  ghost predicate Indexed(r: Redis, now: int) {
    forall h | LiveKey(r.sessions, h, now) :: IndexedAt(r, h)
  }

  ghost predicate IndexedAt(r: Redis, h: Hash)
    requires h in r.sessions
  {
    var u := r.sessions[h].value.discordId;
    u in r.index && h in r.index[u].value && r.sessions[h].expiresAt <= r.index[u].expiresAt
  }

  /** A hash in a user's index never names somebody else's session. */
  ghost predicate Owned(r: Redis) {
    forall u <- r.index, h <- r.index[u].value :: h in r.sessions ==> r.sessions[h].value.discordId == u
  }

  /** No index outlives the longest life an operation can give it. */
  ghost predicate Bounded(r: Redis, ttl: nat, now: int) {
    && (forall h <- r.sessions :: r.sessions[h].expiresAt <= now + ttl)
    && (forall u <- r.index :: r.index[u].expiresAt <= now + ttl)
  }

  /** No user has an empty index. */
  ghost predicate Filled(r: Redis) {
    forall u <- r.index :: r.index[u].value != {}
  }

  /** The two in-memory maps are inverses of each other, and no user has an empty set. */
  ghost predicate Inverse(m: Memory) {
    && (forall h <- m.sessions :: m.sessions[h].value.discordId in m.byUser
                                  && h in m.byUser[m.sessions[h].value.discordId])
    && (forall u <- m.byUser :: m.byUser[u] != {})
    && (forall u <- m.byUser, h <- m.byUser[u] :: h in m.sessions && m.sessions[h].value.discordId == u)
  }

  ghost predicate Inv(s: Store, ttl: nat, now: int) {
    && Indexed(s.redis, now) && Owned(s.redis) && Bounded(s.redis, ttl, now) && Filled(s.redis)
    && Inverse(s.memory)
  }

  const EMPTY := Store(Redis(map[], map[]), Memory(map[], map[]))

  datatype Op =
    | OpCreate(h: Hash, user: SessionUser)
    | OpGet(h: Hash)
    | OpDestroy(h: Hash)
    | OpDestroyAll(u: UserId)

  /** One operation at one time, with or without Redis. */
  datatype Event = Event(op: Op, now: int, up: bool)

  function Apply(s: Store, e: Event, ttl: nat): Store {
    match e.op
    case OpCreate(h, user) => Create(s, h, user, ttl, e.now, e.up)
    case OpGet(h) => Look(s, h, ttl, e.now, e.up).1
    case OpDestroy(h) => Destroy(s, h, e.now, e.up)
    case OpDestroyAll(u) => DestroyAll(s, u, e.now, e.up)
  }

  /** Tokens are drawn at random: the hash of a new one has not been seen before. */
  predicate FreshHash(s: Store, e: Event) {
    e.op.OpCreate? ==>
      && e.op.h !in s.redis.sessions && e.op.h !in s.memory.sessions
      && forall u <- s.redis.index :: e.op.h !in s.redis.index[u].value
  }

  lemma RedisCreateKeeps(r: Redis, h: Hash, user: SessionUser, ttl: nat, now: int)
    requires Indexed(r, now) && Owned(r) && Bounded(r, ttl, now)
    requires forall u <- r.index :: h !in r.index[u].value
    ensures var r' := RedisCreate(r, h, user, ttl, now); Indexed(r', now) && Owned(r') && Bounded(r', ttl, now)
  {
    var r' := RedisCreate(r, h, user, ttl, now);
    forall k | LiveKey(r'.sessions, k, now) ensures IndexedAt(r', k) {
      if k != h {
        assert LiveKey(r.sessions, k, now) && IndexedAt(r, k);
      }
    }
  }

  lemma RedisTouchKeeps(r: Redis, h: Hash, ttl: nat, now: int)
    requires Indexed(r, now) && Owned(r) && Bounded(r, ttl, now) && LiveKey(r.sessions, h, now)
    ensures var r' := Redis(Touch(r.sessions, h, ttl, now), Touch(r.index, r.sessions[h].value.discordId, ttl, now));
            Indexed(r', now) && Owned(r') && Bounded(r', ttl, now)
  {
    var r' := Redis(Touch(r.sessions, h, ttl, now), Touch(r.index, r.sessions[h].value.discordId, ttl, now));
    assert IndexedAt(r, h);
    forall k | LiveKey(r'.sessions, k, now) ensures IndexedAt(r', k) {
      assert LiveKey(r.sessions, k, now) && IndexedAt(r, k);
    }
  }

  lemma RedisDestroyKeeps(r: Redis, h: Hash, ttl: nat, now: int)
    requires Indexed(r, now) && Owned(r) && Bounded(r, ttl, now)
    ensures var r' := RedisDestroy(r, h, now); Indexed(r', now) && Owned(r') && Bounded(r', ttl, now)
  {
    var r' := RedisDestroy(r, h, now);
    forall k | LiveKey(r'.sessions, k, now) ensures IndexedAt(r', k) {
      assert LiveKey(r.sessions, k, now) && IndexedAt(r, k);
    }
  }

  lemma RedisDestroyAllKeeps(r: Redis, u: UserId, ttl: nat, now: int)
    requires Indexed(r, now) && Owned(r) && Bounded(r, ttl, now)
    ensures var r' := RedisDestroyAll(r, u, now); Indexed(r', now) && Owned(r') && Bounded(r', ttl, now)
    ensures forall h :: LiveKey(r.sessions, h, now) ==>
              (h in RedisDestroyAll(r, u, now).sessions <==> r.sessions[h].value.discordId != u)
  {
    var r' := RedisDestroyAll(r, u, now);
    forall k | LiveKey(r'.sessions, k, now) ensures IndexedAt(r', k) {
      assert LiveKey(r.sessions, k, now) && IndexedAt(r, k);
    }
  }

  lemma MemoryRemoveKeeps(m: Memory, h: Hash)
    requires Inverse(m)
    ensures Inverse(MemoryRemove(m, h))
  {
  }

  lemma MemoryDestroyAllKeeps(m: Memory, u: UserId)
    requires Inverse(m)
    ensures Inverse(MemoryDestroyAll(m, u))
  {
    var all := MemoryDestroyAll(m, u);
    forall v <- all.byUser, k <- all.byUser[v] ensures k in all.sessions && all.sessions[k].value.discordId == v {
      assert v in m.byUser && k in m.byUser[v] && m.sessions[k].value.discordId == v;
      assert v != u && (u in m.byUser ==> k !in m.byUser[u]);
    }
  }

  lemma MemoryCreateKeeps(m: Memory, h: Hash, user: SessionUser, ttl: nat, now: int)
    requires Inverse(m) && h !in m.sessions
    ensures Inverse(MemoryCreate(m, h, user, ttl, now))
  {
  }

  lemma MemoryKeeps(m: Memory, h: Hash, user: SessionUser, u: UserId, ttl: nat, now: int)
    requires Inverse(m)
    ensures h !in m.sessions ==> Inverse(MemoryCreate(m, h, user, ttl, now))
    ensures Inverse(MemoryRemove(m, h)) && Inverse(MemoryGet(m, h, ttl, now).1) && Inverse(MemoryDestroyAll(m, u))
  {
    MemoryRemoveKeeps(m, h);
    MemoryDestroyAllKeeps(m, u);
    if h !in m.sessions {
      MemoryCreateKeeps(m, h, user, ttl, now);
    }
  }

  lemma FilledKeeps(s: Store, e: Event, ttl: nat)
    requires Filled(s.redis)
    ensures Filled(Apply(s, e, ttl).redis)
  {
  }

  /** Every operation keeps the invariant, as time goes on. */
  lemma ApplyKeeps(s: Store, e: Event, ttl: nat, before: int)
    requires Inv(s, ttl, before) && before <= e.now && FreshHash(s, e)
    ensures Inv(Apply(s, e, ttl), ttl, e.now)
  {
    assert Indexed(s.redis, e.now) by {
      forall h | LiveKey(s.redis.sessions, h, e.now) ensures IndexedAt(s.redis, h) {
        assert LiveKey(s.redis.sessions, h, before);
      }
    }
    FilledKeeps(s, e, ttl);
    match e.op
    case OpCreate(h, user) =>
      RedisCreateKeeps(s.redis, h, user, ttl, e.now);
      MemoryKeeps(s.memory, h, user, "", ttl, e.now);
    case OpGet(h) =>
      MemoryKeeps(s.memory, h, SessionUser("", "", false), "", ttl, e.now);
      if LiveKey(s.redis.sessions, h, e.now) {
        RedisTouchKeeps(s.redis, h, ttl, e.now);
      }
    case OpDestroy(h) =>
      RedisDestroyKeeps(s.redis, h, ttl, e.now);
      MemoryKeeps(s.memory, h, SessionUser("", "", false), "", ttl, e.now);
    case OpDestroyAll(u) =>
      RedisDestroyAllKeeps(s.redis, u, ttl, e.now);
      MemoryKeeps(s.memory, "", SessionUser("", "", false), u, ttl, e.now);
  }

  // --- Revocation -------------------------------------------------------------------------------------

  /** No session of `u` can be resolved at `now` or later. */
  ghost predicate Gone(s: Store, u: UserId, now: int) {
    && (forall h :: LiveKey(s.redis.sessions, h, now) ==> s.redis.sessions[h].value.discordId != u)
    && (forall h <- s.memory.sessions :: s.memory.sessions[h].value.discordId != u)
  }

  /**
    `destroy_all_for_user` leaves no session of the user, exactly when Redis answers or had none, and
    it leaves every session of everybody else as it was.
   */
  lemma DestroyAllRevokes(s: Store, u: UserId, ttl: nat, now: int, up: bool)
    requires Inv(s, ttl, now)
    ensures Gone(DestroyAll(s, u, now, up), u, now) <==>
            up || forall h :: LiveKey(s.redis.sessions, h, now) ==> s.redis.sessions[h].value.discordId != u
    ensures var s' := DestroyAll(s, u, now, up);
            forall h :: LiveKey(s.redis.sessions, h, now) && s.redis.sessions[h].value.discordId != u ==>
              h in s'.redis.sessions && s'.redis.sessions[h] == s.redis.sessions[h]
    ensures var s' := DestroyAll(s, u, now, up);
            forall h <- s.memory.sessions :: s.memory.sessions[h].value.discordId != u ==>
              h in s'.memory.sessions && s'.memory.sessions[h] == s.memory.sessions[h]
    ensures var s' := DestroyAll(s, u, now, up);
            && u !in s'.memory.byUser && s'.memory.byUser == s.memory.byUser - {u}
            && (up ==> s'.redis.index == s.redis.index - {u})
  {
    RedisDestroyAllKeeps(s.redis, u, ttl, now);
    var s' := DestroyAll(s, u, now, up);
    if !up {
      assert forall h :: LiveKey(s'.redis.sessions, h, now) <==> LiveKey(s.redis.sessions, h, now);
    }
  }

  /** The times of a run do not go back, and its new hashes are fresh. */
  ghost predicate Run(s: Store, es: seq<Event>, ttl: nat, now: int)
    decreases |es|
  {
    es == [] || (now <= es[0].now && FreshHash(s, es[0]) && Run(Apply(s, es[0], ttl), es[1..], ttl, es[0].now))
  }

  function After(s: Store, es: seq<Event>, ttl: nat): Store
    decreases |es|
  {
    if es == [] then s else After(Apply(s, es[0], ttl), es[1..], ttl)
  }

  function EndTime(es: seq<Event>, now: int): int {
    if es == [] then now else es[|es| - 1].now
  }

  lemma {:induction false} RunKeeps(s: Store, es: seq<Event>, ttl: nat, now: int)
    requires Inv(s, ttl, now) && Run(s, es, ttl, now)
    ensures Inv(After(s, es, ttl), ttl, EndTime(es, now))
    decreases |es|
  {
    if es != [] {
      ApplyKeeps(s, es[0], ttl, now);
      RunKeeps(Apply(s, es[0], ttl), es[1..], ttl, es[0].now);
    }
  }

  predicate NoCreateFor(es: seq<Event>, u: UserId) {
    forall i :: 0 <= i < |es| && es[i].op.OpCreate? ==> es[i].op.user.discordId != u
  }

  /** Looking up, destroying and creating for others bring nobody back. */
  lemma {:induction false} GoneStays(s: Store, es: seq<Event>, ttl: nat, now: int, u: UserId)
    requires Gone(s, u, now) && Run(s, es, ttl, now) && NoCreateFor(es, u)
    ensures Gone(After(s, es, ttl), u, EndTime(es, now))
    decreases |es|
  {
    if es != [] {
      var s1 := Apply(s, es[0], ttl);
      GoneStep(s, es[0], ttl, now, u);
      GoneStays(s1, es[1..], ttl, es[0].now, u);
    }
  }

  lemma GoneStep(s: Store, e: Event, ttl: nat, now: int, u: UserId)
    requires Gone(s, u, now) && now <= e.now && (e.op.OpCreate? ==> e.op.user.discordId != u)
    ensures Gone(Apply(s, e, ttl), u, e.now)
  {
    var s' := Apply(s, e, ttl);
    forall h | LiveKey(s'.redis.sessions, h, e.now) ensures s'.redis.sessions[h].value.discordId != u {
      assert LiveKey(s.redis.sessions, h, now) || e.op.OpCreate?;
    }
  }

  /**
    After any run of the store, revoking a user with Redis up holds for good: whatever happens next,
    short of a new session for that user, no token resolves to the user, with or without Redis.
   */
  lemma RevocationIsFinal(es: seq<Event>, u: UserId, t: int, later: seq<Event>, h: Hash, ttl: nat, start: int,
                          now: int, up: bool)
    requires Run(EMPTY, es + [Event(OpDestroyAll(u), t, true)] + later, ttl, start)
    requires NoCreateFor(later, u) && EndTime(later, t) <= now
    ensures var s := After(EMPTY, es + [Event(OpDestroyAll(u), t, true)] + later, ttl);
            var found := Look(s, h, ttl, now, up).0;
            found.Some? ==> found.value.discordId != u
  {
    var destroy := Event(OpDestroyAll(u), t, true);
    assert es + [destroy] + later == es + ([destroy] + later);
    RunSplit(EMPTY, es, [destroy] + later, ttl, start);
    var s1 := After(EMPTY, es, ttl);
    assert ([destroy] + later)[1..] == later;
    assert Inv(EMPTY, ttl, start);
    RunKeeps(EMPTY, es, ttl, start);
    ApplyKeeps(s1, destroy, ttl, EndTime(es, start));
    var s2 := Apply(s1, destroy, ttl);
    InvLater(s1, ttl, EndTime(es, start), t);
    DestroyAllRevokes(s1, u, ttl, t, true);
    GoneStays(s2, later, ttl, t, u);
  }

  lemma InvLater(s: Store, ttl: nat, before: int, now: int)
    requires Inv(s, ttl, before) && before <= now
    ensures Inv(s, ttl, now)
  {
    forall h | LiveKey(s.redis.sessions, h, now) ensures IndexedAt(s.redis, h) {
      assert LiveKey(s.redis.sessions, h, before);
    }
  }

  lemma {:induction false} RunSplit(s: Store, e1: seq<Event>, e2: seq<Event>, ttl: nat, now: int)
    requires Run(s, e1 + e2, ttl, now)
    ensures Run(s, e1, ttl, now) && Run(After(s, e1, ttl), e2, ttl, EndTime(e1, now))
    ensures After(s, e1 + e2, ttl) == After(After(s, e1, ttl), e2, ttl)
    decreases |e1|
  {
    if e1 == [] {
      assert e1 + e2 == e2;
    } else {
      assert (e1 + e2)[1..] == e1[1..] + e2;
      RunSplit(Apply(s, e1[0], ttl), e1[1..], e2, ttl, e1[0].now);
    }
  }

  // --- What a lookup answers --------------------------------------------------------------------------

  /** Where a session is kept; an event reaches a session in Redis only while Redis answers. */
  datatype Home = InRedis | InMemory

  function HomeOf(up: bool, ttl: nat): Home {
    if up && ttl > 0 then InRedis else InMemory
  }

  predicate Reaches(e: Event, home: Home) {
    home.InMemory? || e.up
  }

  predicate Touches(e: Event, h: Hash, home: Home) {
    e.op == OpGet(h) && Reaches(e, home)
  }

  predicate Ends(e: Event, h: Hash, u: UserId, home: Home) {
    (e.op == OpDestroy(h) || e.op == OpDestroyAll(u)) && Reaches(e, home)
  }

  /** When the session expires after these events: a TTL after it was last looked up. */
  function Expiry(es: seq<Event>, h: Hash, home: Home, ttl: nat, expiry: int): int {
    if es == [] then expiry
    else Expiry(es[1..], h, home, ttl, if Touches(es[0], h, home) then es[0].now + ttl else expiry)
  }

  /** None of the events ends the session, and every lookup comes within a TTL of the one before. */
  predicate Open(es: seq<Event>, h: Hash, u: UserId, home: Home, ttl: nat, expiry: int) {
    es == [] ||
    (&& !Ends(es[0], h, u, home) && (Touches(es[0], h, home) ==> es[0].now < expiry)
     && Open(es[1..], h, u, home, ttl, if Touches(es[0], h, home) then es[0].now + ttl else expiry))
  }

  predicate NoCreateOf(es: seq<Event>, h: Hash) {
    forall i :: 0 <= i < |es| && es[i].op.OpCreate? ==> es[i].op.h != h
  }

  /** The session is in its home only: with its expiry if it is open, and not live if it is not. */
  predicate Resident(s: Store, h: Hash, user: SessionUser, home: Home, open: bool, expiry: int, now: int) {
    match home
    case InRedis =>
      && h !in s.memory.sessions
      && if open then h in s.redis.sessions && s.redis.sessions[h] == Timed(user, expiry)
         else !LiveKey(s.redis.sessions, h, now)
    case InMemory =>
      && h !in s.redis.sessions
      && if open then h in s.memory.sessions && s.memory.sessions[h] == Timed(user, expiry)
         else !LiveKey(s.memory.sessions, h, now)
  }

  lemma RedisResidentStep(s: Store, e: Event, ttl: nat, before: int, h: Hash, user: SessionUser, open: bool, expiry: int)
    requires Inv(s, ttl, before) && before <= e.now && (e.op.OpCreate? ==> e.op.h != h)
    requires Resident(s, h, user, InRedis, open, expiry, before)
    ensures var touched := Touches(e, h, InRedis);
            Resident(Apply(s, e, ttl), h, user, InRedis,
                     open && !Ends(e, h, user.discordId, InRedis) && (touched ==> e.now < expiry),
                     if touched then e.now + ttl else expiry, e.now)
  {
    if LiveKey(s.redis.sessions, h, e.now) {
      assert LiveKey(s.redis.sessions, h, before) && IndexedAt(s.redis, h);
    }
  }

  lemma MemoryResidentStep(s: Store, e: Event, ttl: nat, before: int, h: Hash, user: SessionUser, open: bool, expiry: int)
    requires Inv(s, ttl, before) && before <= e.now && (e.op.OpCreate? ==> e.op.h != h)
    requires Resident(s, h, user, InMemory, open, expiry, before)
    ensures var touched := Touches(e, h, InMemory);
            Resident(Apply(s, e, ttl), h, user, InMemory,
                     open && !Ends(e, h, user.discordId, InMemory) && (touched ==> e.now < expiry),
                     if touched then e.now + ttl else expiry, e.now)
  {
  }

  lemma {:induction false} ResidentRun(s: Store, es: seq<Event>, ttl: nat, now: int, h: Hash, user: SessionUser,
                                       home: Home, open: bool, expiry: int)
    requires Inv(s, ttl, now) && Run(s, es, ttl, now) && NoCreateOf(es, h)
    requires Resident(s, h, user, home, open, expiry, now)
    ensures Resident(After(s, es, ttl), h, user, home,
                     open && Open(es, h, user.discordId, home, ttl, expiry), Expiry(es, h, home, ttl, expiry), EndTime(es, now))
    decreases |es|
  {
    if es != [] {
      var e, s1 := es[0], Apply(s, es[0], ttl);
      var touched := Touches(e, h, home);
      ApplyKeeps(s, e, ttl, now);
      if home.InRedis? {
        RedisResidentStep(s, e, ttl, now, h, user, open, expiry);
      } else {
        MemoryResidentStep(s, e, ttl, now, h, user, open, expiry);
      }
      ResidentRun(s1, es[1..], ttl, e.now, h, user, home,
                  open && !Ends(e, h, user.discordId, home) && (touched ==> e.now < expiry),
                  if touched then e.now + ttl else expiry);
    }
  }

  lemma ResidentTells(s: Store, h: Hash, user: SessionUser, home: Home, open: bool, expiry: int, before: int,
                      ttl: nat, now: int, up: bool)
    requires Resident(s, h, user, home, open, expiry, before) && before <= now
    ensures Look(s, h, ttl, now, up).0 == if open && now < expiry && (home.InRedis? ==> up) then Some(user) else None
  {
  }

  /**
    A lookup told from the history alone. It answers the user exactly when the session was issued, not
    logged out or revoked since, looked up at intervals shorter than the TTL, and can be reached now.
   */
  lemma GetOutcome(past: seq<Event>, made: Event, later: seq<Event>, ttl: nat, start: int, now: int, up: bool, withRedis: bool)
    requires made.op.OpCreate? && Run(EMPTY, past + [made] + later, ttl, start)
    requires NoCreateOf(later, made.op.h) && EndTime(later, made.now) <= now
    ensures var (h, user, home) := (made.op.h, made.op.user, HomeOf(made.up, ttl));
            Answer(Look(After(EMPTY, past + [made] + later, ttl), h, ttl, now, up).0, up, withRedis) ==
              if Open(later, h, user.discordId, home, ttl, made.now + ttl)
                 && now < Expiry(later, h, home, ttl, made.now + ttl) && (home.InRedis? ==> up)
              then Ok(Some(user)) else if up || !withRedis then Ok(None) else Err(Backend)
  {
    var s := Issued(past, made, later, ttl, start);
    var s1 := Apply(s, made, ttl);
    var (h, user, home, expiry) := (made.op.h, made.op.user, HomeOf(made.up, ttl), made.now + ttl);
    ResidentRun(s1, later, ttl, made.now, h, user, home, true, expiry);
    ResidentTells(After(s1, later, ttl), h, user, home, Open(later, h, user.discordId, home, ttl, expiry),
                  Expiry(later, h, home, ttl, expiry), EndTime(later, made.now), ttl, now, up);
  }

  /** The state in which a session of the run is issued. */
  lemma Issued(past: seq<Event>, made: Event, later: seq<Event>, ttl: nat, start: int) returns (s: Store)
    requires made.op.OpCreate? && Run(EMPTY, past + [made] + later, ttl, start)
    ensures FreshHash(s, made) && Inv(Apply(s, made, ttl), ttl, made.now)
    ensures Run(Apply(s, made, ttl), later, ttl, made.now)
    ensures After(EMPTY, past + [made] + later, ttl) == After(Apply(s, made, ttl), later, ttl)
  {
    assert past + [made] + later == past + ([made] + later);
    RunSplit(EMPTY, past, [made] + later, ttl, start);
    assert ([made] + later)[1..] == later;
    assert Inv(EMPTY, ttl, start);
    RunKeeps(EMPTY, past, ttl, start);
    s := After(EMPTY, past, ttl);
    ApplyKeeps(s, made, ttl, EndTime(past, start));
  }

  ghost predicate NeverIssued(es: seq<Event>, h: Hash) {
    forall e <- es :: e.op.OpCreate? ==> e.op.h != h
  }

  lemma {:induction false} UnknownStays(s: Store, es: seq<Event>, ttl: nat, h: Hash)
    requires NeverIssued(es, h) && h !in s.redis.sessions && h !in s.memory.sessions
    ensures h !in After(s, es, ttl).redis.sessions && h !in After(s, es, ttl).memory.sessions
    decreases |es|
  {
    if es != [] {
      assert es[0] in es;
      UnknownStays(Apply(s, es[0], ttl), es[1..], ttl, h);
    }
  }

  /** A token that was never issued resolves to nobody. */
  lemma GetUnissued(es: seq<Event>, h: Hash, ttl: nat, now: int, up: bool)
    requires NeverIssued(es, h)
    ensures Look(After(EMPTY, es, ttl), h, ttl, now, up).0 == None
  {
    UnknownStays(EMPTY, es, ttl, h);
  }

  /** A lookup that finds a session expired in memory removes it, and its user's set with the last of them. */
  lemma ExpiredIsRemoved(s: Store, h: Hash, ttl: nat, now: int, up: bool)
    requires Inv(s, ttl, now) && !LiveKey(s.redis.sessions, h, now)
    requires h in s.memory.sessions && s.memory.sessions[h].expiresAt <= now
    ensures var s' := Look(s, h, ttl, now, up).1;
            && s'.redis == s.redis && s'.memory.sessions == s.memory.sessions - {h}
            && forall u <- s'.memory.byUser :: h !in s'.memory.byUser[u] && s'.memory.byUser[u] != {}
  {
    MemoryRemoveKeeps(s.memory, h);
  }

  /**
    Logging out removes the session from both stores and, if it was live, from its user's index. All
    other sessions, and everybody's other entries, stay.
   */
  lemma LogoutForgets(s: Store, h: Hash, ttl: nat, now: int)
    requires Inv(s, ttl, now)
    ensures var s' := Destroy(s, h, now, true);
            && s'.redis.sessions == s.redis.sessions - {h} && s'.memory.sessions == s.memory.sessions - {h}
            && (LiveKey(s.redis.sessions, h, now) ==> forall u <- s'.redis.index :: h !in s'.redis.index[u].value)
            && (forall u, k | k != h :: k in Members(s'.redis, u, now) <==> k in Members(s.redis, u, now))
  {
    if LiveKey(s.redis.sessions, h, now) {
      assert IndexedAt(s.redis, h);
    }
  }

  /** A session that was just issued resolves until its TTL has passed. */
  lemma CreateThenGet(s: Store, h: Hash, user: SessionUser, ttl: nat, now: int, later: int)
    requires FreshHash(s, Event(OpCreate(h, user), now, true)) && now <= later
    ensures Look(Create(s, h, user, ttl, now, true), h, ttl, later, true).0 ==
            if later < now + ttl then Some(user) else None
    ensures Look(Create(s, h, user, ttl, now, false), h, ttl, later, false).0 ==
            if later < now + ttl then Some(user) else None
  {
  }

  // --- The object -------------------------------------------------------------------------------------

  class SessionStore {
    /** Without Redis the in-memory maps are the whole store. */
    const withRedis: bool
    var redisSessions: map<Hash, Timed<SessionUser>>
    var redisIndex: map<UserId, Timed<set<Hash>>>
    var sessions: map<Hash, Timed<SessionUser>>
    var userSessions: map<UserId, set<Hash>>

    ghost function Value(): Store
      reads this
    {
      Store(Redis(redisSessions, redisIndex), Memory(sessions, userSessions))
    }

    constructor (withRedis: bool)
      ensures Value() == EMPTY && this.withRedis == withRedis
    {
      this.withRedis := withRedis;
      redisSessions, redisIndex, sessions, userSessions := map[], map[], map[], map[];
    }

    method MemCreate(h: Hash, user: SessionUser, ttl: nat, now: int)
      modifies this`sessions, this`userSessions
      ensures Value() == old(Value()).(memory := MemoryCreate(old(Value()).memory, h, user, ttl, now))
    {
      sessions := sessions[h := Timed(user, now + ttl)];
      var u := user.discordId;
      var hashes := if u in userSessions then userSessions[u] else {};
      userSessions := userSessions[u := hashes + {h}];
    }

    method RemoveLocked(h: Hash)
      modifies this`sessions, this`userSessions
      ensures Value() == old(Value()).(memory := MemoryRemove(old(Value()).memory, h))
    {
      if h in sessions {
        var u := sessions[h].value.discordId;
        sessions := sessions - {h};
        var left := (if u in userSessions then userSessions[u] else {}) - {h};
        userSessions := if left == {} then userSessions - {u} else userSessions[u := left];
      }
    }

    method MemGet(h: Hash, ttl: nat, now: int) returns (r: Option<SessionUser>)
      modifies this`sessions, this`userSessions
      ensures r == MemoryGet(old(Value()).memory, h, ttl, now).0
      ensures Value() == old(Value()).(memory := MemoryGet(old(Value()).memory, h, ttl, now).1)
    {
      if h !in sessions {
        return None;
      }
      var e := sessions[h];
      if e.expiresAt <= now {
        RemoveLocked(h);
        return None;
      }
      sessions := sessions[h := Timed(e.value, now + ttl)];
      r := Some(e.value);
    }

    method CreateSession(h: Hash, user: SessionUser, ttl: nat, now: int, up: bool)
      modifies this
      ensures Value() == Create(old(Value()), h, user, ttl, now, withRedis && up)
    {
      if withRedis && up && ttl > 0 {
        var members := if user.discordId in redisIndex && now < redisIndex[user.discordId].expiresAt
                       then redisIndex[user.discordId].value else {};
        redisSessions := redisSessions[h := Timed(user, now + ttl)];
        redisIndex := redisIndex[user.discordId := Timed(members + {h}, now + ttl)];
      } else {
        MemCreate(h, user, ttl, now);
      }
    }

    method GetSession(h: Hash, ttl: nat, now: int, up: bool) returns (r: Result<Option<SessionUser>, Error>)
      modifies this
      ensures r == Answer(Look(old(Value()), h, ttl, now, withRedis && up).0, up, withRedis)
      ensures Value() == Look(old(Value()), h, ttl, now, withRedis && up).1
    {
      if withRedis && up && h in redisSessions && now < redisSessions[h].expiresAt {
        var user := redisSessions[h].value;
        redisSessions := redisSessions[h := Timed(user, now + ttl)];
        if user.discordId in redisIndex && now < redisIndex[user.discordId].expiresAt {
          redisIndex := redisIndex[user.discordId := Timed(redisIndex[user.discordId].value, now + ttl)];
        }
        return Ok(Some(user));
      }
      var found := MemGet(h, ttl, now);
      r := if found.None? && withRedis && !up then Err(Backend) else Ok(found);
    }

    method DestroySession(h: Hash, now: int, up: bool)
      modifies this
      ensures Value() == Destroy(old(Value()), h, now, withRedis && up)
    {
      if withRedis && up {
        var raw := if h in redisSessions && now < redisSessions[h].expiresAt then Some(redisSessions[h].value) else None;
        redisSessions := redisSessions - {h};
        if raw.Some? {
          var u := raw.value.discordId;
          var members := if u in redisIndex && now < redisIndex[u].expiresAt then redisIndex[u].value else {};
          redisIndex := if members - {h} == {} then redisIndex - {u}
                        else redisIndex[u := Timed(members - {h}, redisIndex[u].expiresAt)];
        }
      }
      RemoveLocked(h);
    }

    method DestroyAllForUser(u: UserId, now: int, up: bool)
      modifies this
      ensures Value() == DestroyAll(old(Value()), u, now, withRedis && up)
    {
      if withRedis && up {
        var hashes := if u in redisIndex && now < redisIndex[u].expiresAt then redisIndex[u].value else {};
        redisSessions := redisSessions - hashes;
        redisIndex := redisIndex - {u};
      }
      if u in userSessions {
        var hashes := userSessions[u];
        userSessions := userSessions - {u};
        ghost var removed := {};
        while hashes != {}
          invariant removed + hashes == old(userSessions[u])
          invariant sessions == old(sessions) - removed
          invariant userSessions == old(userSessions) - {u}
          invariant redisSessions == DestroyAll(old(Value()), u, now, withRedis && up).redis.sessions
          invariant redisIndex == DestroyAll(old(Value()), u, now, withRedis && up).redis.index
          decreases hashes
        {
          var h :| h in hashes;
          sessions := sessions - {h};
          hashes, removed := hashes - {h}, removed + {h};
        }
      }
    }
  }
}

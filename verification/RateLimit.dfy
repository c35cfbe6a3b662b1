/**
  The rate limits of code sends and of login failures: at most five in a window of fifteen minutes
  that the first of them opens.

  Times are nanoseconds of one clock that never goes back.
 */
module RateLimit {
  import opened Wrappers

  type Key = string

  const SECOND := 1_000_000_000
  const WINDOW := 15 * 60 * SECOND
  const MAX := 5

  datatype Attempt = Attempt(count: nat, resetAt: int)

  // --- Windows ----------------------------------------------------------------------------------------

  /** One more hit: it joins the window that is open, or opens one. */
  function Hit(a: Option<Attempt>, now: int): Attempt {
    if a.Some? && a.value.resetAt > now then a.value.(count := a.value.count + 1) else Attempt(1, now + WINDOW)
  }

  function Windows(hits: seq<int>): Option<Attempt> {
    if hits == [] then None else Some(Hit(Windows(hits[..|hits| - 1]), hits[|hits| - 1]))
  }

  /** The hits come in order, and no window ever had more of them than this. */
  ghost predicate Capped(hits: seq<int>, cap: int) {
    hits == [] ||
    (var past := hits[..|hits| - 1];
     && Capped(past, cap) && (past != [] ==> past[|past| - 1] <= hits[|hits| - 1])
     && Windows(hits).value.count <= cap)
  }

  /** How many hits are in the half-open interval of fifteen minutes from `a`. */
  function Inside(hits: seq<int>, a: int): nat {
    if hits == [] then 0
    else Inside(hits[..|hits| - 1], a) + if a <= hits[|hits| - 1] < a + WINDOW then 1 else 0
  }

  lemma {:induction false} InsideByWindow(hits: seq<int>, a: int, cap: int)
    requires Capped(hits, cap) && hits != []
    ensures var (w, last) := (Windows(hits).value, hits[|hits| - 1]);
            && 0 < w.count <= cap
            && w.resetAt - WINDOW <= last < w.resetAt
            && (last < a ==> Inside(hits, a) == 0)
            && (w.resetAt - WINDOW < a ==> Inside(hits, a) <= w.count - 1)
            && (a <= w.resetAt - WINDOW < a + WINDOW ==> Inside(hits, a) <= cap - 1 + w.count)
            && Inside(hits, a) <= 2 * cap - 1
  {
    var n := |hits| - 1;
    if n == 0 {
      assert hits[..n] == [];
    } else {
      InsideByWindow(hits[..n], a, cap);
    }
  }

  /** Any interval of fifteen minutes meets at most two windows, and of the first it misses the opening hit. */
  lemma TwoWindows(hits: seq<int>, a: int, cap: int)
    requires Capped(hits, cap) && cap > 0
    ensures Inside(hits, a) <= 2 * cap - 1
  {
    if hits != [] {
      InsideByWindow(hits, a, cap);
    }
  }

  // --- Code sends -------------------------------------------------------------------------------------

  function AttemptOf(m: map<Key, Attempt>, key: Key): Option<Attempt> {
    if key in m then Some(m[key]) else None
  }

  function AllowSend(m: map<Key, Attempt>, key: Key, now: int): (bool, map<Key, Attempt>) {
    var a := AttemptOf(m, key);
    if a.Some? && a.value.resetAt > now && a.value.count >= MAX then (false, m)
    else (true, m[key := Hit(a, now)])
  }

  datatype Send = Send(key: Key, at: int, allowed: bool)

  function AfterSends(sends: seq<Send>): map<Key, Attempt> {
    if sends == [] then map[]
    else AllowSend(AfterSends(sends[..|sends| - 1]), sends[|sends| - 1].key, sends[|sends| - 1].at).1
  }

  /** A sequence of calls at nondecreasing times, with the answers they get. */
  ghost predicate Sends(sends: seq<Send>) {
    sends == [] ||
    (var (past, last) := (sends[..|sends| - 1], sends[|sends| - 1]);
     && Sends(past) && (past != [] ==> past[|past| - 1].at <= last.at)
     && last.allowed == AllowSend(AfterSends(past), last.key, last.at).0)
  }

  function AllowedTimes(sends: seq<Send>, key: Key): seq<int> {
    if sends == [] then []
    else
      var last := sends[|sends| - 1];
      AllowedTimes(sends[..|sends| - 1], key) + if last.allowed && last.key == key then [last.at] else []
  }

  lemma HitsSnoc(hits: seq<int>, at: int, cap: int)
    requires Capped(hits, cap) && (hits != [] ==> hits[|hits| - 1] <= at) && Hit(Windows(hits), at).count <= cap
    ensures Capped(hits + [at], cap) && Windows(hits + [at]) == Some(Hit(Windows(hits), at))
  {
    assert (hits + [at])[..|hits|] == hits;
  }

  lemma {:induction false} SendsAreWindows(sends: seq<Send>, key: Key)
    requires Sends(sends)
    ensures var hits := AllowedTimes(sends, key);
            && AttemptOf(AfterSends(sends), key) == Windows(hits) && Capped(hits, MAX)
            && (hits != [] ==> sends != [] && hits[|hits| - 1] <= sends[|sends| - 1].at)
  {
    if sends != [] {
      var past, last := sends[..|sends| - 1], sends[|sends| - 1];
      SendsAreWindows(past, key);
      if last.allowed && last.key == key {
        HitsSnoc(AllowedTimes(past, key), last.at, MAX);
      } else {
        assert AllowedTimes(sends, key) == AllowedTimes(past, key);
      }
    }
  }

  /** Fifteen minutes never see more than nine code sends of one key. */
  lemma AtMostNineSends(sends: seq<Send>, key: Key, a: int)
    requires Sends(sends)
    ensures Inside(AllowedTimes(sends, key), a) <= 9
  {
    SendsAreWindows(sends, key);
    TwoWindows(AllowedTimes(sends, key), a, MAX);
  }

  lemma SendsSnoc(sends: seq<Send>, s: Send, key: Key)
    requires Sends(sends) && (sends != [] ==> sends[|sends| - 1].at <= s.at)
    requires s.allowed == AllowSend(AfterSends(sends), s.key, s.at).0
    ensures Sends(sends + [s]) && AfterSends(sends + [s]) == AllowSend(AfterSends(sends), s.key, s.at).1
    ensures AllowedTimes(sends + [s], key) == AllowedTimes(sends, key) + if s.allowed && s.key == key then [s.at] else []
  {
    assert (sends + [s])[..|sends|] == sends;
  }

  /** Ten sends: one that opens a window, four at its very end, and five more at once when it is over. */
  function CrowdTime(n: nat): int {
    if n <= 1 then 0 else if n <= 5 then WINDOW - 1 else WINDOW
  }

  function Crowd(key: Key, n: nat): seq<Send> {
    if n == 0 then [] else Crowd(key, n - 1) + [Send(key, CrowdTime(n), true)]
  }

  function CrowdState(key: Key, n: nat): map<Key, Attempt> {
    if n == 0 then map[] else if n <= 5 then map[key := Attempt(n, WINDOW)] else map[key := Attempt(n - 5, 2 * WINDOW)]
  }

  lemma CrowdStep(key: Key, n: nat)
    requires n < 10
    ensures AllowSend(CrowdState(key, n), key, CrowdTime(n + 1)) == (true, CrowdState(key, n + 1))
  {
    assert n == 5 ==> CrowdState(key, n)[key].resetAt == CrowdTime(n + 1);
    assert forall a: Attempt, b: Attempt :: map[key := a][key := b] == map[key := b];
  }

  /** A run, when its last send was, and the records it leaves. */
  ghost predicate Gives(sends: seq<Send>, last: int, m: map<Key, Attempt>) {
    Sends(sends) && (sends != [] ==> sends[|sends| - 1].at == last) && AfterSends(sends) == m
  }

  lemma GivesStep(sends: seq<Send>, last: int, m: map<Key, Attempt>, key: Key, at: int)
    requires Gives(sends, last, m) && last <= at && AllowSend(m, key, at).0
    ensures Gives(sends + [Send(key, at, true)], at, AllowSend(m, key, at).1)
  {
    SendsSnoc(sends, Send(key, at, true), key);
  }

  lemma {:induction false} CrowdIsAllowed(key: Key, n: nat)
    requires n <= 10
    ensures Gives(Crowd(key, n), CrowdTime(n), CrowdState(key, n))
  {
    if n > 0 {
      CrowdIsAllowed(key, n - 1);
      CrowdStep(key, n - 1);
      GivesStep(Crowd(key, n - 1), CrowdTime(n - 1), CrowdState(key, n - 1), key, CrowdTime(n));
    }
  }

  lemma {:induction false} CrowdCount(key: Key, n: nat)
    requires n <= 10
    ensures Inside(AllowedTimes(Crowd(key, n), key), WINDOW - 1) == if n == 0 then 0 else n - 1
  {
    if n > 0 {
      var past, last := Crowd(key, n - 1), Send(key, CrowdTime(n), true);
      CrowdCount(key, n - 1);
      assert (past + [last])[..|past|] == past;
      InsideSnoc(AllowedTimes(past, key), CrowdTime(n), WINDOW - 1);
    }
  }

  /** The bound is met. */
  lemma NineSendsHappen(key: Key)
    ensures Sends(Crowd(key, 10)) && Inside(AllowedTimes(Crowd(key, 10), key), WINDOW - 1) == 9
  {
    CrowdIsAllowed(key, 10);
    CrowdCount(key, 10);
  }

  /** A key is refused only while its window has had five sends. */
  lemma RefusedOnlyAtMax(sends: seq<Send>)
    requires Sends(sends) && sends != [] && !sends[|sends| - 1].allowed
    ensures var (past, last) := (sends[..|sends| - 1], sends[|sends| - 1]);
            var w := Windows(AllowedTimes(past, last.key));
            w.Some? && w.value.count == MAX && last.at < w.value.resetAt
  {
    var past, last := sends[..|sends| - 1], sends[|sends| - 1];
    SendsAreWindows(past, last.key);
    InsideByWindow(AllowedTimes(past, last.key), 0, MAX);
  }

  // --- Login failures ---------------------------------------------------------------------------------

  predicate Locked(m: map<Key, Attempt>, key: Key, now: int) {
    key in m && m[key].count >= MAX && now < m[key].resetAt
  }

  function RecordFailure(m: map<Key, Attempt>, key: Key, now: int): map<Key, Attempt> {
    m[key := Hit(AttemptOf(m, key), now)]
  }

  /**
    A login is first checked against the lock; if it passes it later fails (and is recorded),
    succeeds (and clears the record) or is dropped. Other logins come in between.
   */
  datatype Event = Check(passed: bool) | Fail | Succeed | Drop

  datatype Login = Login(key: Key, at: int, event: Event)

  function Logged(m: map<Key, Attempt>, l: Login): map<Key, Attempt> {
    match l.event
    case Fail => RecordFailure(m, l.key, l.at)
    case Succeed => m - {l.key}
    case _ => m
  }

  function AfterLogins(logins: seq<Login>): map<Key, Attempt> {
    if logins == [] then map[] else Logged(AfterLogins(logins[..|logins| - 1]), logins[|logins| - 1])
  }

  function PendingChange(l: Login, key: Key): int {
    if l.key != key || l.event == Check(false) then 0 else if l.event.Check? then 1 else -1
  }

  /** Logins of a key that have passed the check and have not ended. */
  function Pending(logins: seq<Login>, key: Key): int {
    if logins == [] then 0
    else Pending(logins[..|logins| - 1], key) + PendingChange(logins[|logins| - 1], key)
  }

  /** A login's check answers what the lock says, and only a login that passed it ends. */
  predicate CanLog(m: map<Key, Attempt>, l: Login, pending: int) {
    match l.event
    case Check(passed) => passed == !Locked(m, l.key, l.at)
    case _ => pending > 0
  }

  ghost predicate Logins(logins: seq<Login>) {
    logins == [] ||
    (var (past, last) := (logins[..|logins| - 1], logins[|logins| - 1]);
     && Logins(past) && (past != [] ==> past[|past| - 1].at <= last.at)
     && CanLog(AfterLogins(past), last, Pending(past, last.key)))
  }

  /** Never more than `c` logins of the key are under way. */
  ghost predicate Concurrency(logins: seq<Login>, key: Key, c: int) {
    logins == [] || (Concurrency(logins[..|logins| - 1], key, c) && Pending(logins, key) <= c)
  }

  function NextFailures(hits: seq<int>, l: Login, key: Key): seq<int> {
    if l.key != key then hits else if l.event.Fail? then hits + [l.at] else if l.event.Succeed? then [] else hits
  }

  /** The recorded failures of a key since it was last cleared. */
  function Failures(logins: seq<Login>, key: Key): seq<int> {
    if logins == [] then [] else NextFailures(Failures(logins[..|logins| - 1], key), logins[|logins| - 1], key)
  }

  /**
    The record of the key is its windows; a full window lets in nothing new, so only the logins that
    were under way can still be added to it.
   */
  ghost predicate LoginInv(m: map<Key, Attempt>, key: Key, hits: seq<int>, now: int, pending: int, c: int) {
    && AttemptOf(m, key) == Windows(hits)
    && Capped(hits, MAX - 1 + c)
    && (hits != [] ==> hits[|hits| - 1] <= now)
    && pending >= 0
    && (Locked(m, key, now) ==> m[key].count + pending <= MAX - 1 + c)
  }

  lemma LoginStep(m: map<Key, Attempt>, key: Key, hits: seq<int>, before: int, pending: int, c: int, l: Login)
    requires LoginInv(m, key, hits, before, pending, c) && before <= l.at && c >= 1
    requires l.key == key ==> CanLog(m, l, pending)
    requires pending <= c && pending + PendingChange(l, key) <= c
    ensures LoginInv(Logged(m, l), key, NextFailures(hits, l, key), l.at, pending + PendingChange(l, key), c)
  {
    if l.key == key && l.event.Fail? {
      HitsSnoc(hits, l.at, MAX - 1 + c);
    }
  }

  lemma {:induction false} LoginsAreWindows(logins: seq<Login>, key: Key, c: int, start: int)
    requires Logins(logins) && Concurrency(logins, key, c) && c >= 1
    ensures LoginInv(AfterLogins(logins), key, Failures(logins, key),
                     if logins == [] then start else logins[|logins| - 1].at, Pending(logins, key), c)
    ensures Pending(logins, key) <= c
  {
    if logins != [] {
      var past, last := logins[..|logins| - 1], logins[|logins| - 1];
      LoginsAreWindows(past, key, c, last.at);
      var before := if past == [] then last.at else past[|past| - 1].at;
      LoginStep(AfterLogins(past), key, Failures(past, key), before, Pending(past, key), c, last);
    }
  }

  /**
    With at most `c` logins of a key under way at a time, fifteen minutes never see more than
    `7 + 2c` failures of the key between two clearings.
   */
  lemma FailuresBounded(logins: seq<Login>, key: Key, c: nat, a: int)
    requires Logins(logins) && Concurrency(logins, key, c) && c >= 1
    ensures Inside(Failures(logins, key), a) <= 7 + 2 * c
  {
    LoginsAreWindows(logins, key, c, 0);
    TwoWindows(Failures(logins, key), a, MAX - 1 + c);
  }

  /** One login after the other: at most nine. */
  lemma SequentialFailuresBounded(logins: seq<Login>, key: Key, a: int)
    requires Logins(logins) && Concurrency(logins, key, 1)
    ensures Inside(Failures(logins, key), a) <= 9
  {
    FailuresBounded(logins, key, 1, a);
  }

  /** Checking and then recording a failure, with nothing in between, is what a code send does. */
  lemma CheckThenRecord(m: map<Key, Attempt>, key: Key, now: int)
    ensures AllowSend(m, key, now) == if Locked(m, key, now) then (false, m) else (true, RecordFailure(m, key, now))
  {
  }

  lemma LoginsSnoc(logins: seq<Login>, l: Login, key: Key)
    requires Logins(logins) && (logins != [] ==> logins[|logins| - 1].at <= l.at)
    requires CanLog(AfterLogins(logins), l, Pending(logins, l.key))
    ensures Logins(logins + [l]) && AfterLogins(logins + [l]) == Logged(AfterLogins(logins), l)
    ensures Pending(logins + [l], key) == Pending(logins, key) + PendingChange(l, key)
    ensures Failures(logins + [l], key) == NextFailures(Failures(logins, key), l, key)
  {
    assert (logins + [l])[..|logins|] == logins;
  }

  lemma InsideSnoc(hits: seq<int>, at: int, a: int)
    ensures Inside(hits + [at], a) == Inside(hits, a) + if a <= at < a + WINDOW then 1 else 0
  {
    assert (hits + [at])[..|hits|] == hits;
  }

  /** What a run leaves: its end, the logins under way, the failures inside the interval, the record. */
  datatype Tally = Tally(at: int, pending: int, inside: int, record: Option<Attempt>)

  ghost predicate Leaves(run: seq<Login>, key: Key, c: int, a: int, t: Tally) {
    && Logins(run) && Concurrency(run, key, c) && (run != [] ==> run[|run| - 1].at <= t.at)
    && Pending(run, key) == t.pending && Inside(Failures(run, key), a) == t.inside
    && AttemptOf(AfterLogins(run), key) == t.record
  }

  predicate Lets(record: Option<Attempt>, at: int) {
    record.Some? ==> record.value.count < MAX || record.value.resetAt <= at
  }

  lemma CheckPasses(run: seq<Login>, key: Key, c: int, a: int, t: Tally, at: int)
    requires Leaves(run, key, c, a, t) && t.at <= at && t.pending < c && Lets(t.record, at)
    ensures Leaves(run + [Login(key, at, Check(true))], key, c, a, t.(at := at, pending := t.pending + 1))
  {
    LoginsSnoc(run, Login(key, at, Check(true)), key);
    assert (run + [Login(key, at, Check(true))])[..|run|] == run;
  }

  function Failed(t: Tally, at: int, a: int): Tally {
    Tally(at, t.pending - 1, t.inside + (if a <= at < a + WINDOW then 1 else 0), Some(Hit(t.record, at)))
  }

  lemma FailIsRecorded(run: seq<Login>, key: Key, c: int, a: int, t: Tally, at: int)
    requires Leaves(run, key, c, a, t) && t.at <= at && 0 < t.pending <= c
    ensures Leaves(run + [Login(key, at, Fail)], key, c, a, Failed(t, at, a))
  {
    LoginsSnoc(run, Login(key, at, Fail), key);
    InsideSnoc(Failures(run, key), at, a);
    assert (run + [Login(key, at, Fail)])[..|run|] == run;
  }

  lemma {:induction false} ChecksPass(run: seq<Login>, key: Key, c: int, a: int, t: Tally, at: int, n: nat)
    returns (longer: seq<Login>)
    requires Leaves(run, key, c, a, t) && t.at <= at && t.pending + n <= c && Lets(t.record, at)
    ensures Leaves(longer, key, c, a, t.(at := at, pending := t.pending + n))
  {
    if n == 0 {
      return run;
    }
    var past := ChecksPass(run, key, c, a, t, at, n - 1);
    CheckPasses(past, key, c, a, t.(at := at, pending := t.pending + n - 1), at);
    longer := past + [Login(key, at, Check(true))];
  }

  /** `n` failures at one time; the first of them opens a window unless one is open. */
  function AllFailed(t: Tally, at: int, a: int, n: nat): Tally {
    if n == 0 then t.(at := at)
    else
      var count := if t.record.Some? && t.record.value.resetAt > at then t.record.value.count else 0;
      var resetAt := if t.record.Some? && t.record.value.resetAt > at then t.record.value.resetAt else at + WINDOW;
      Tally(at, t.pending - n, t.inside + (if a <= at < a + WINDOW then n else 0), Some(Attempt(count + n, resetAt)))
  }

  lemma OneMoreFailed(t: Tally, at: int, a: int, n: nat)
    requires n > 0
    ensures Failed(AllFailed(t, at, a, n - 1), at, a) == AllFailed(t, at, a, n)
  {
  }

  lemma {:induction false} FailsAreRecorded(run: seq<Login>, key: Key, c: int, a: int, t: Tally, at: int, n: nat)
    returns (longer: seq<Login>)
    requires Leaves(run, key, c, a, t) && t.at <= at && n <= t.pending <= c
    ensures Leaves(longer, key, c, a, AllFailed(t, at, a, n))
  {
    if n == 0 {
      return run;
    }
    var past := FailsAreRecorded(run, key, c, a, t, at, n - 1);
    FailIsRecorded(past, key, c, a, AllFailed(t, at, a, n - 1), at);
    OneMoreFailed(t, at, a, n);
    longer := past + [Login(key, at, Fail)];
  }

  /** `n` logins at once: all are checked before any of them fails. */
  lemma Burst(run: seq<Login>, key: Key, c: int, a: int, t: Tally, at: int, n: nat) returns (longer: seq<Login>)
    requires Leaves(run, key, c, a, t) && t.at <= at && t.pending == 0 && n <= c && Lets(t.record, at)
    ensures Leaves(longer, key, c, a, AllFailed(t.(pending := n), at, a, n))
  {
    longer := ChecksPass(run, key, c, a, t, at, n);
    longer := FailsAreRecorded(longer, key, c, a, t.(at := at, pending := n), at, n);
  }

  /** Three logins one after the other, then `c` at once, when the window has one failure. */
  lemma FillWindow(run: seq<Login>, key: Key, c: nat, a: int, t: Tally, at: int) returns (longer: seq<Login>)
    requires Leaves(run, key, c, a, t) && t.at <= at && t.pending == 0 && c >= 1 && a <= at < a + WINDOW
    requires t.record.Some? && t.record.value.count == 1 && at < t.record.value.resetAt
    ensures Leaves(longer, key, c, a, Tally(at, 0, t.inside + 3 + c, Some(Attempt(4 + c, t.record.value.resetAt))))
  {
    var reset := t.record.value.resetAt;
    longer := Burst(run, key, c, a, t, at, 1);
    longer := Burst(longer, key, c, a, Tally(at, 0, t.inside + 1, Some(Attempt(2, reset))), at, 1);
    longer := Burst(longer, key, c, a, Tally(at, 0, t.inside + 2, Some(Attempt(3, reset))), at, 1);
    longer := Burst(longer, key, c, a, Tally(at, 0, t.inside + 3, Some(Attempt(4, reset))), at, c);
  }

  /**
    The bound is met for every `c`: one failure opens a window, the window is filled at its very end,
    and so is the next one at its very beginning. With two logins at once nine is exceeded already.
   */
  lemma FailuresBoundMet(key: Key, c: nat) returns (run: seq<Login>)
    requires c >= 1
    ensures Logins(run) && Concurrency(run, key, c) && Inside(Failures(run, key), WINDOW - 1) == 7 + 2 * c
  {
    var a := WINDOW - 1;
    run := Burst([], key, c, a, Tally(0, 0, 0, None), 0, 1);
    run := FillWindow(run, key, c, a, Tally(0, 0, 0, Some(Attempt(1, WINDOW))), a);
    run := Burst(run, key, c, a, Tally(a, 0, 3 + c, Some(Attempt(4 + c, WINDOW))), WINDOW, 1);
    run := FillWindow(run, key, c, a, Tally(WINDOW, 0, 4 + c, Some(Attempt(1, 2 * WINDOW))), WINDOW);
  }

  /** Without a bound on concurrency there is none on the failures: checks can all pass before any is recorded. */
  lemma ConcurrentFailuresUnbounded(key: Key, n: nat)
    ensures exists run :: Logins(run) && Inside(Failures(run, key), 0) == n
  {
    var run := Burst([], key, n, 0, Tally(0, 0, 0, None), 0, n);
  }

  // --- The limiter ------------------------------------------------------------------------------------

  class RateLimiter {
    var login: map<Key, Attempt>
    var registerSend: map<Key, Attempt>

    constructor ()
      ensures login == map[] && registerSend == map[]
    {
      login, registerSend := map[], map[];
    }

    /** The whole seconds left of a lock, rounded up. */
    method LoginLockedSecs(key: Key, now: int) returns (r: Option<int>)
      ensures r.Some? <==> Locked(login, key, now)
      ensures r.Some? ==> (r.value - 1) * SECOND < login[key].resetAt - now <= r.value * SECOND
    {
      if key !in login { return None; }
      var a := login[key];
      if a.count >= MAX {
        if now < a.resetAt {
          var left := a.resetAt - now;
          return Some(left / SECOND + if left % SECOND > 0 then 1 else 0);
        }
      }
      return None;
    }

    method RecordLoginFailure(key: Key, now: int)
      modifies this`login
      ensures login == RecordFailure(old(login), key, now)
    {
      if key in login && login[key].resetAt > now {
        login := login[key := Attempt(login[key].count + 1, login[key].resetAt)];
      } else {
        login := login[key := Attempt(1, now + WINDOW)];
      }
    }

    method ClearLogin(key: Key)
      modifies this`login
      ensures login == old(login) - {key}
    {
      login := login - {key};
    }

    method AllowRegisterSend(key: Key, now: int) returns (allowed: bool)
      modifies this`registerSend
      ensures (allowed, registerSend) == AllowSend(old(registerSend), key, now)
    {
      if key in registerSend && registerSend[key].resetAt > now {
        if registerSend[key].count >= MAX {
          return false;
        }
        registerSend := registerSend[key := Attempt(registerSend[key].count + 1, registerSend[key].resetAt)];
        return true;
      }
      registerSend := registerSend[key := Attempt(1, now + WINDOW)];
      allowed := true;
    }
  }
}

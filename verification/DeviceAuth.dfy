/**
  The device authorization store (RFC 8628): device codes kept by hash, found again by the short code
  their user types.

  Times are nanoseconds of one clock that never goes back. `draws` are the user codes the random
  generator yields before it fails; a user code given to `approve` is already normalised.
 */
module DeviceAuth {
  import opened Wrappers

  type Hash = string
  type UserCode = string
  type UserId = string

  const SECOND := 1_000_000_000
  const TTL := 600 * SECOND
  const INTERVAL := 5 * SECOND

  datatype Record = Record(userCode: UserCode, approved: bool, deviceName: Option<string>,
                           approvedUser: Option<UserId>, expiresAt: int, lastPolledAt: Option<int>)

  datatype Store = Store(byHash: map<Hash, Record>, byUserCode: map<UserCode, Hash>)

  datatype Event =
    | Create(hash: Hash, draws: seq<UserCode>, name: Option<string>)
    | Approve(code: UserCode, user: UserId)
    | Poll(hash: Hash)

  datatype Outcome =
    | Created(code: UserCode) | NoRandom
    | ApproveOk(name: Option<string>) | NotFound | ApproveExpired
    | Expired | SlowDown | Pending | Approved(user: UserId, name: Option<string>)

  /** One operation of a run: when, what, and what it answered. */
  datatype Step = Step(at: int, event: Event, out: Outcome)

  // --- The operations as functions --------------------------------------------------------------------

  function ExpiredHashes(s: Store, now: int): set<Hash> {
    set h | h in s.byHash && s.byHash[h].expiresAt <= now
  }

  function CodesOf(s: Store, hashes: set<Hash>): set<UserCode>
    requires hashes <= s.byHash.Keys
  {
    set h | h in hashes :: s.byHash[h].userCode
  }

  function Sweep(s: Store, now: int): Store {
    Store(s.byHash - ExpiredHashes(s, now), s.byUserCode - CodesOf(s, ExpiredHashes(s, now)))
  }

  /** The first draw that is not taken. */
  function FirstFree(draws: seq<UserCode>, taken: set<UserCode>): (r: Option<UserCode>)
    ensures r.Some? ==> r.value !in taken && r.value in draws
    ensures r.None? ==> forall c <- draws :: c in taken
  {
    if draws == [] then None
    else if draws[0] !in taken then Some(draws[0])
    else FirstFree(draws[1..], taken)
  }

  function DoCreate(s: Store, now: int, h: Hash, draws: seq<UserCode>, name: Option<string>): (Outcome, Store) {
    var swept := Sweep(s, now);
    match FirstFree(draws, swept.byUserCode.Keys)
    case None => (NoRandom, swept)
    case Some(code) =>
      (Created(code), Store(swept.byHash[h := Record(code, false, name, None, now + TTL, None)], swept.byUserCode[code := h]))
  }

  function DoApprove(s: Store, now: int, code: UserCode, user: UserId): (Outcome, Store) {
    var swept := Sweep(s, now);
    if code !in swept.byUserCode then (NotFound, swept)
    else
      var h := swept.byUserCode[code];
      if h !in swept.byHash || swept.byHash[h].expiresAt <= now then (ApproveExpired, swept)
      else
        var rec := swept.byHash[h];
        (ApproveOk(rec.deviceName),
         swept.(byHash := swept.byHash[h := rec.(approved := true, approvedUser := Some(user))]))
  }

  function DoPoll(s: Store, now: int, h: Hash): (Outcome, Store) {
    var swept := Sweep(s, now);
    if h !in swept.byHash || swept.byHash[h].expiresAt <= now then (Expired, swept)
    else
      var rec := swept.byHash[h];
      if rec.lastPolledAt.Some? && now - rec.lastPolledAt.value < INTERVAL then (SlowDown, swept)
      else if !rec.approved || rec.approvedUser.None? then
        (Pending, swept.(byHash := swept.byHash[h := rec.(lastPolledAt := Some(now))]))
      else
        (Approved(rec.approvedUser.value, rec.deviceName),
         Store(swept.byHash - {h}, swept.byUserCode - {rec.userCode}))
  }

  function Do(s: Store, now: int, event: Event): (Outcome, Store) {
    match event
    case Create(h, draws, name) => DoCreate(s, now, h, draws, name)
    case Approve(code, user) => DoApprove(s, now, code, user)
    case Poll(h) => DoPoll(s, now, h)
  }

  // --- The two maps are inverses ----------------------------------------------------------------------

  ghost predicate Inverse(s: Store) {
    && (forall h <- s.byHash :: s.byHash[h].userCode in s.byUserCode && s.byUserCode[s.byHash[h].userCode] == h)
    && (forall c <- s.byUserCode :: s.byUserCode[c] in s.byHash && s.byHash[s.byUserCode[c]].userCode == c)
  }

  lemma SweepKeepsInverse(s: Store, now: int)
    requires Inverse(s)
    ensures Inverse(Sweep(s, now))
    ensures forall h :: h in Sweep(s, now).byHash <==> h in s.byHash && now < s.byHash[h].expiresAt
  {
    var swept, expired := Sweep(s, now), ExpiredHashes(s, now);
    assert forall h <- expired :: s.byHash[h].userCode in CodesOf(s, expired);
    forall c <- swept.byUserCode ensures swept.byUserCode[c] in swept.byHash {
      assert s.byUserCode[c] !in expired;
    }
  }

  /** A new code keeps the maps inverse exactly when its hash is new. */
  lemma CreateKeepsInverseIffNew(s: Store, now: int, h: Hash, draws: seq<UserCode>, name: Option<string>)
    requires Inverse(s) && DoCreate(s, now, h, draws, name).0.Created?
    ensures Inverse(DoCreate(s, now, h, draws, name).1) <==> h !in Sweep(s, now).byHash
  {
    SweepKeepsInverse(s, now);
    var swept := Sweep(s, now);
    var (out, next) := DoCreate(s, now, h, draws, name);
    if h in swept.byHash {
      var stale := swept.byHash[h].userCode;
      assert stale in next.byUserCode && next.byUserCode[stale] == h && next.byHash[h].userCode == out.code != stale;
    }
  }

  lemma StepKeepsInverse(s: Store, now: int, event: Event)
    requires Inverse(s)
    requires event.Create? ==> event.hash !in s.byHash
    ensures Inverse(Do(s, now, event).1)
  {
    SweepKeepsInverse(s, now);
    if event.Create? && Do(s, now, event).0.Created? {
      CreateKeepsInverseIffNew(s, now, event.hash, event.draws, event.name);
    }
  }

  /** Approving finds the record or reports `NotFound`; it never finds an expired one. */
  lemma ApproveOutcomes(s: Store, now: int, code: UserCode, user: UserId)
    requires Inverse(s)
    ensures var out := DoApprove(s, now, code, user).0;
            if exists h :: h in s.byHash && s.byHash[h].userCode == code && now < s.byHash[h].expiresAt
            then out.ApproveOk? else out.NotFound?
  {
    SweepKeepsInverse(s, now);
    if h :| h in s.byHash && s.byHash[h].userCode == code && now < s.byHash[h].expiresAt {
      assert h in Sweep(s, now).byHash;
    }
  }

  // --- What one step does to one record ---------------------------------------------------------------

  /** A record leaves the store by expiring or by being exchanged. */
  lemma StepFate(s: Store, now: int, event: Event, h: Hash)
    requires Inverse(s) && !(event.Create? && event.hash == h)
    ensures h in Do(s, now, event).1.byHash <==>
              h in s.byHash && now < s.byHash[h].expiresAt && !(event == Poll(h) && Do(s, now, event).0.Approved?)
    ensures event == Poll(h) && (h !in s.byHash || s.byHash[h].expiresAt <= now) ==> Do(s, now, event).0.Expired?
  {
    SweepKeepsInverse(s, now);
  }

  /** Approvals of its user code and answered polls change a record, nothing else does. */
  lemma StepRecord(s: Store, now: int, event: Event, h: Hash)
    requires Inverse(s) && !(event.Create? && event.hash == h)
    requires h in s.byHash && h in Do(s, now, event).1.byHash
    ensures var (out, next) := Do(s, now, event);
            var granted := event.Approve? && event.code == s.byHash[h].userCode;
            && (granted ==> out.ApproveOk?)
            && next.byHash[h] == s.byHash[h].(
                 approved := s.byHash[h].approved || granted,
                 approvedUser := if granted then Some(event.user) else s.byHash[h].approvedUser,
                 lastPolledAt := if event == Poll(h) && out.Pending? then Some(now) else s.byHash[h].lastPolledAt)
  {
    SweepKeepsInverse(s, now);
  }

  // --- Runs -------------------------------------------------------------------------------------------

  const EMPTY := Store(map[], map[])

  function After(run: seq<Step>): Store {
    if run == [] then EMPTY
    else Do(After(run[..|run| - 1]), run[|run| - 1].at, run[|run| - 1].event).1
  }

  /** Every step answered what the store answers. */
  ghost predicate Answered(run: seq<Step>) {
    run == [] ||
    (&& Answered(run[..|run| - 1])
     && run[|run| - 1].out == Do(After(run[..|run| - 1]), run[|run| - 1].at, run[|run| - 1].event).0)
  }

  ghost predicate Monotone(run: seq<Step>) {
    forall i, j :: 0 <= i < j < |run| ==> run[i].at <= run[j].at
  }

  /** No two device codes have the same hash. */
  ghost predicate FreshHashes(run: seq<Step>) {
    forall i, j :: 0 <= i < j < |run| && run[i].event.Create? && run[j].event.Create? ==>
      run[i].event.hash != run[j].event.hash
  }

  ghost predicate Run(run: seq<Step>) {
    Monotone(run) && FreshHashes(run) && Answered(run)
  }

  lemma {:induction false} RunPrefix(run: seq<Step>, n: nat)
    requires Run(run) && n <= |run|
    ensures Run(run[..n])
    decreases |run|
  {
    if n < |run| {
      RunPrefix(run[..|run| - 1], n);
      assert run[..|run| - 1][..n] == run[..n];
    } else {
      assert run[..n] == run;
    }
  }

  /** Step `i` issued the device code with hash `h` and user code `code`. */
  ghost predicate Issues(run: seq<Step>, i: nat, h: Hash, code: UserCode) {
    i < |run| && run[i].event.Create? && run[i].event.hash == h && run[i].out == Created(code)
  }

  /** Step `j` is a granted approval of a user code. */
  ghost predicate Grants(run: seq<Step>, j: nat, code: UserCode) {
    j < |run| && run[j].event.Approve? && run[j].event.code == code && run[j].out.ApproveOk?
  }

  /** Step `j` is the last granted approval of a user code, after step `i`. */
  ghost predicate LastGrant(run: seq<Step>, i: nat, j: nat, code: UserCode) {
    i < j && Grants(run, j, code) && forall k :: j < k < |run| ==> !Grants(run, k, code)
  }

  /** Step `e` exchanges the device code with hash `h` for a token. */
  ghost predicate Exchanges(run: seq<Step>, e: nat, h: Hash) {
    e < |run| && run[e].event == Poll(h) && run[e].out.Approved?
  }

  /** Step `e` is a poll that is neither too late nor too early. */
  ghost predicate Heard(run: seq<Step>, e: nat, h: Hash) {
    e < |run| && run[e].event == Poll(h) && (run[e].out.Pending? || run[e].out.Approved?)
  }

  /** The code issued at step `i` has neither expired nor been exchanged when the run ends. */
  ghost predicate Live(run: seq<Step>, i: nat, h: Hash)
    requires i < |run|
  {
    run[|run| - 1].at < run[i].at + TTL && forall e :: i < e < |run| ==> !Exchanges(run, e, h)
  }

  /** A stored record was issued by one step of the run. */
  lemma {:induction false} Origin(run: seq<Step>, h: Hash) returns (i: nat)
    requires Run(run) && h in After(run).byHash
    ensures Issues(run, i, h, After(run).byHash[h].userCode)
    ensures After(run).byHash[h].expiresAt == run[i].at + TTL
  {
    var n := |run| - 1;
    if run[n].event.Create? && run[n].event.hash == h && run[n].out.Created? {
      return n;
    }
    RunPrefix(run, n);
    i := Origin(run[..n], h);
  }

  lemma {:induction false} RunKeepsInverse(run: seq<Step>)
    requires Run(run)
    ensures Inverse(After(run))
  {
    if run != [] {
      var n := |run| - 1;
      RunPrefix(run, n);
      RunKeepsInverse(run[..n]);
      if run[n].event.Create? && run[n].event.hash in After(run[..n]).byHash {
        var i := Origin(run[..n], run[n].event.hash);
        assert false;
      }
      StepKeepsInverse(After(run[..n]), run[n].at, run[n].event);
    }
  }

  lemma {:induction false} Lives(run: seq<Step>, i: nat, h: Hash, code: UserCode)
    requires Run(run) && Issues(run, i, h, code)
    ensures h in After(run).byHash <==> Live(run, i, h)
  {
    if i < |run| - 1 {
      RunPrefix(run, |run| - 1);
      Lives(run[..|run| - 1], i, h, code);
      LiveStep(run, i, h);
      StoredStep(run, i, h, code);
    }
  }

  /** One more step, seen from a code issued before it. */
  lemma StoredStep(run: seq<Step>, i: nat, h: Hash, code: UserCode)
    requires Run(run) && i < |run| - 1 && Issues(run, i, h, code)
    ensures h in After(run).byHash <==>
              && h in After(run[..|run| - 1]).byHash
              && run[|run| - 1].at < run[i].at + TTL && !Exchanges(run, |run| - 1, h)
  {
    var n := |run| - 1;
    var prev, last := After(run[..n]), run[n];
    StoredUntil(run, i, h, code);
    RunPrefix(run, n);
    RunKeepsInverse(run[..n]);
    StoredAfter(prev, last, After(run), h, run[i].at + TTL);
  }

  lemma StoredAfter(prev: Store, last: Step, next: Store, h: Hash, expiresAt: int)
    requires Inverse(prev) && (last.out, next) == Do(prev, last.at, last.event)
    requires !(last.event.Create? && last.event.hash == h)
    requires h in prev.byHash ==> prev.byHash[h].expiresAt == expiresAt
    ensures h in next.byHash <==>
              h in prev.byHash && last.at < expiresAt && !(last.event == Poll(h) && last.out.Approved?)
  {
    StepFate(prev, last.at, last.event, h);
  }

  /** No later step issues the same hash, and a stored record expires its time to live after the issue. */
  lemma StoredUntil(run: seq<Step>, i: nat, h: Hash, code: UserCode)
    requires Run(run) && i < |run| - 1 && Issues(run, i, h, code)
    ensures !(run[|run| - 1].event.Create? && run[|run| - 1].event.hash == h)
    ensures var prev := After(run[..|run| - 1]); h in prev.byHash ==> prev.byHash[h].expiresAt == run[i].at + TTL
  {
    assert run[i].event.hash == h;
    RunPrefix(run, |run| - 1);
    if h in After(run[..|run| - 1]).byHash {
      var o := Origin(run[..|run| - 1], h);
      assert run[o].event.hash == h;
    }
  }

  lemma LiveStep(run: seq<Step>, i: nat, h: Hash)
    requires Run(run) && i < |run| - 1
    ensures Live(run, i, h) <==>
              && Live(run[..|run| - 1], i, h)
              && run[|run| - 1].at < run[i].at + TTL && !Exchanges(run, |run| - 1, h)
  {
    var n := |run| - 1;
    assert forall e :: i < e < n ==> (Exchanges(run[..n], e, h) <==> Exchanges(run, e, h));
  }

  /** The approver on record: nobody, or whoever was granted the last approval since step `i`. */
  ghost predicate ApprovedBy(run: seq<Step>, i: nat, code: UserCode, user: Option<UserId>) {
    match user
    case None => forall j :: i < j < |run| ==> !Grants(run, j, code)
    case Some(u) => exists j: nat :: LastGrant(run, i, j, code) && run[j].event.user == u
  }

  /** The time of the last answered poll since step `i`. */
  ghost predicate LastHeard(run: seq<Step>, i: nat, h: Hash, last: Option<int>) {
    match last
    case None => forall e :: i < e < |run| ==> !Heard(run, e, h)
    case Some(t) =>
      && (exists e :: i < e < |run| && Heard(run, e, h) && run[e].at == t)
      && (forall e :: i < e < |run| && Heard(run, e, h) ==> run[e].at <= t)
  }

  lemma ApprovedByStep(run: seq<Step>, i: nat, code: UserCode, user: Option<UserId>)
    requires i < |run| - 1 && ApprovedBy(run[..|run| - 1], i, code, user)
    ensures Grants(run, |run| - 1, code) ==> ApprovedBy(run, i, code, Some(run[|run| - 1].event.user))
    ensures !Grants(run, |run| - 1, code) ==> ApprovedBy(run, i, code, user)
  {
    var n := |run| - 1;
    assert forall j :: i < j < n ==> (Grants(run[..n], j, code) <==> Grants(run, j, code));
    if Grants(run, n, code) {
      assert LastGrant(run, i, n, code);
    } else if user.Some? {
      var j: nat :| LastGrant(run[..n], i, j, code) && run[..n][j].event.user == user.value;
      assert LastGrant(run, i, j, code);
    }
  }

  lemma LastHeardStep(run: seq<Step>, i: nat, h: Hash, last: Option<int>)
    requires Run(run) && i < |run| - 1 && LastHeard(run[..|run| - 1], i, h, last)
    ensures LastHeard(run, i, h, if Heard(run, |run| - 1, h) then Some(run[|run| - 1].at) else last)
  {
    var n := |run| - 1;
    assert forall e :: i < e < n ==> (Heard(run[..n], e, h) <==> Heard(run, e, h));
    if Heard(run, n, h) {
    } else if last.Some? {
      var e :| i < e < n && Heard(run[..n], e, h) && run[..n][e].at == last.value;
      assert Heard(run, e, h);
    }
  }

  /** What a live record says about the run so far. */
  ghost predicate Tells(run: seq<Step>, i: nat, h: Hash, rec: Record)
    requires i < |run| && run[i].event.Create?
  {
    && rec.expiresAt == run[i].at + TTL && rec.deviceName == run[i].event.name
    && rec.approved == rec.approvedUser.Some?
    && ApprovedBy(run, i, rec.userCode, rec.approvedUser)
    && LastHeard(run, i, h, rec.lastPolledAt)
  }

  lemma {:induction false} RecordTells(run: seq<Step>, i: nat, h: Hash, code: UserCode)
    requires Run(run) && Issues(run, i, h, code) && h in After(run).byHash
    ensures After(run).byHash[h].userCode == code && Tells(run, i, h, After(run).byHash[h])
  {
    var n := |run| - 1;
    RunPrefix(run, n);
    if i < n {
      var prev := After(run[..n]);
      assert run[i].event.hash == h;
      RunKeepsInverse(run[..n]);
      StepFate(prev, run[n].at, run[n].event, h);
      RecordTells(run[..n], i, h, code);
      StepRecord(prev, run[n].at, run[n].event, h);
      ApprovedByStep(run, i, code, prev.byHash[h].approvedUser);
      LastHeardStep(run, i, h, prev.byHash[h].lastPolledAt);
      GrantedHere(run, h, code);
    }
  }

  /** While a code is stored, an approval of it is granted. */
  lemma GrantedHere(run: seq<Step>, h: Hash, code: UserCode)
    requires run != [] && Run(run) && h in After(run).byHash && After(run).byHash[h].userCode == code
    ensures Grants(run, |run| - 1, code) <==> run[|run| - 1].event.Approve? && run[|run| - 1].event.code == code
  {
    RunPrefix(run, |run| - 1);
    RunKeepsInverse(run[..|run| - 1]);
  }

  // --- When a device code is exchanged ----------------------------------------------------------------

  /** A poll at the end of the run comes less than the interval after the last answered one. */
  ghost predicate TooSoon(run: seq<Step>, i: nat, h: Hash, now: int) {
    exists e :: i < e < |run| && Heard(run, e, h) && now - run[e].at < INTERVAL
  }

  /** The outcome of a poll, told from the history alone. */
  ghost predicate PollMeans(run: seq<Step>, i: nat, h: Hash, code: UserCode, now: int, out: Outcome)
    requires i < |run| && run[i].event.Create?
  {
    if now >= run[i].at + TTL || exists e :: i < e < |run| && Exchanges(run, e, h) then out == Expired
    else if TooSoon(run, i, h, now) then out == SlowDown
    else if forall j :: i < j < |run| ==> !Grants(run, j, code) then out == Pending
    else out.Approved? && out.name == run[i].event.name && ApprovedBy(run, i, code, Some(out.user))
  }

  /** A poll of an issued device code is answered by its history: expired or used, too soon, pending, or approved. */
  lemma PollOutcome(run: seq<Step>, i: nat, h: Hash, code: UserCode, now: int, out: Outcome)
    requires Run(run + [Step(now, Poll(h), out)]) && Issues(run, i, h, code)
    ensures PollMeans(run, i, h, code, now, out)
  {
    var all, s := run + [Step(now, Poll(h), out)], After(run);
    RunPrefix(all, |run|);
    assert all[..|run|] == run;
    RunKeepsInverse(run);
    Lives(run, i, h, code);
    StepFate(s, now, Poll(h), h);
    assert all[|run| - 1].at <= all[|run|].at;
    if h in s.byHash {
      RecordTells(run, i, h, code);
    }
  }

  lemma PollInRun(run: seq<Step>, e: nat, i: nat, h: Hash, code: UserCode)
    requires Run(run) && e < |run| && run[e].event == Poll(h) && i < e && Issues(run, i, h, code)
    ensures PollMeans(run[..e], i, h, code, run[e].at, run[e].out)
  {
    RunPrefix(run, e + 1);
    assert run[..e + 1] == run[..e] + [run[e]] == run[..e] + [Step(run[e].at, Poll(h), run[e].out)];
    PollOutcome(run[..e], i, h, code, run[e].at, run[e].out);
  }

  /** A poll that does not answer `Expired` is of a code issued before. */
  lemma PollOrigin(run: seq<Step>, e: nat, h: Hash) returns (i: nat, code: UserCode)
    requires Run(run) && e < |run| && run[e].event == Poll(h) && !run[e].out.Expired?
    ensures i < e && Issues(run, i, h, code)
  {
    RunPrefix(run, e);
    RunPrefix(run, e + 1);
    assert run[..e + 1][..e] == run[..e];
    RunKeepsInverse(run[..e]);
    StepFate(After(run[..e]), run[e].at, run[e].event, h);
    i := Origin(run[..e], h);
    code := After(run[..e]).byHash[h].userCode;
  }

  /** The poll that exchanges a code was preceded by its issue and by an approval; the last approver counts. */
  lemma ExchangeFollowsApproval(run: seq<Step>, e: nat, h: Hash) returns (i: nat, j: nat, code: UserCode)
    requires Run(run) && Exchanges(run, e, h)
    ensures i < j < e && Issues(run, i, h, code) && Grants(run, j, code)
    ensures forall k :: j < k < e ==> !Grants(run, k, code)
    ensures run[e].out == Approved(run[j].event.user, run[i].event.name)
    ensures run[e].at < run[i].at + TTL
  {
    i, code := PollOrigin(run, e, h);
    PollInRun(run, e, i, h, code);
    j :| LastGrant(run[..e], i, j, code) && run[..e][j].event.user == run[e].out.user;
    assert forall k :: 0 <= k < e ==> (Grants(run[..e], k, code) <==> Grants(run, k, code));
  }

  /** A device code is exchanged at most once. */
  lemma ExchangedAtMostOnce(run: seq<Step>, e: nat, f: nat, h: Hash)
    requires Run(run) && Exchanges(run, e, h) && Exchanges(run, f, h)
    ensures e == f
  {
    if e < f {
      NoSecondExchange(run, e, f, h);
    } else if f < e {
      NoSecondExchange(run, f, e, h);
    }
  }

  /** Every poll of a code that has been exchanged is answered `Expired`. */
  lemma NoSecondExchange(run: seq<Step>, e: nat, f: nat, h: Hash)
    requires Run(run) && e < f < |run| && Exchanges(run, e, h) && run[f].event == Poll(h)
    ensures run[f].out == Expired
  {
    var i, code := PollOrigin(run, e, h);
    PollInRun(run, f, i, h, code);
    assert Exchanges(run[..f], e, h);
  }

  // --- How often a device code can be polled ----------------------------------------------------------

  function HeardCount(run: seq<Step>, h: Hash): nat {
    if run == [] then 0
    else
      var last := run[|run| - 1];
      HeardCount(run[..|run| - 1], h) + if last.event == Poll(h) && (last.out.Pending? || last.out.Approved?) then 1 else 0
  }

  /** Answered polls are an interval apart, so no more than this fit between a code's issue and the last of them. */
  function MaxHeard(rec: Record): int {
    match rec.lastPolledAt
    case None => 0
    case Some(last) =>
      if last >= rec.expiresAt then 120 else (last - (rec.expiresAt - TTL)) / INTERVAL + 1
  }

  function MaxHeardOf(s: Store, h: Hash): int {
    if h in s.byHash then MaxHeard(s.byHash[h]) else 120
  }

  lemma {:induction false} HeardMeansIssued(run: seq<Step>, h: Hash) returns (i: nat)
    requires Run(run) && HeardCount(run, h) > 0
    ensures i < |run| && run[i].event.Create? && run[i].event.hash == h
  {
    var n := |run| - 1;
    RunPrefix(run, n);
    if HeardCount(run[..n], h) > 0 {
      i := HeardMeansIssued(run[..n], h);
    } else {
      RunKeepsInverse(run[..n]);
      StepFate(After(run[..n]), run[n].at, run[n].event, h);
      i := Origin(run[..n], h);
    }
  }

  lemma NewHashUnheard(run: seq<Step>, h: Hash)
    requires Run(run) && run != [] && run[|run| - 1].event.Create? && run[|run| - 1].event.hash == h
    ensures HeardCount(run, h) == 0
    ensures h in After(run).byHash ==> After(run).byHash[h].lastPolledAt.None?
  {
    var n := |run| - 1;
    RunPrefix(run, n);
    if HeardCount(run[..n], h) > 0 {
      var i := HeardMeansIssued(run[..n], h);
      assert false;
    }
    if h in After(run[..n]).byHash {
      var i := Origin(run[..n], h);
      assert false;
    }
  }

  lemma {:induction false} HeardSpaced(run: seq<Step>, h: Hash)
    requires Run(run)
    ensures HeardCount(run, h) <= MaxHeardOf(After(run), h) <= 120
  {
    if run != [] {
      var n := |run| - 1;
      if run[n].event.Create? && run[n].event.hash == h {
        NewHashUnheard(run, h);
      } else {
        RunPrefix(run, n);
        RunKeepsInverse(run[..n]);
        HeardSpaced(run[..n], h);
        IssuedBefore(run, h);
        HeardStep(After(run[..n]), run[n].at, run[n].event, h);
      }
    }
  }

  lemma IssuedBefore(run: seq<Step>, h: Hash)
    requires Run(run) && run != []
    ensures var prev := After(run[..|run| - 1]);
            h in prev.byHash ==> prev.byHash[h].expiresAt - TTL <= run[|run| - 1].at
  {
    var n := |run| - 1;
    RunPrefix(run, n);
    if h in After(run[..n]).byHash {
      var i := Origin(run[..n], h);
    }
  }

  lemma SpacedStep(rec: Record, now: int)
    requires rec.expiresAt - TTL <= now < rec.expiresAt
    requires rec.lastPolledAt.Some? ==> now - rec.lastPolledAt.value >= INTERVAL
    ensures MaxHeard(rec) + 1 <= MaxHeard(rec.(lastPolledAt := Some(now))) <= 120
  {
  }

  lemma HeardStep(s: Store, now: int, event: Event, h: Hash)
    requires Inverse(s) && !(event.Create? && event.hash == h) && MaxHeardOf(s, h) <= 120
    requires h in s.byHash ==> s.byHash[h].expiresAt - TTL <= now
    ensures var (out, next) := Do(s, now, event);
            var heard := if event == Poll(h) && (out.Pending? || out.Approved?) then 1 else 0;
            MaxHeardOf(s, h) + heard <= MaxHeardOf(next, h) <= 120
  {
    var (out, next) := Do(s, now, event);
    StepFate(s, now, event, h);
    if h in next.byHash {
      StepRecord(s, now, event, h);
    }
    if event == Poll(h) && h in s.byHash && now < s.byHash[h].expiresAt {
      if !out.SlowDown? {
        SpacedStep(s.byHash[h], now);
      }
    }
  }

  /** At most 120 polls of one device code are answered without `SlowDown` before it is gone. */
  lemma FewPollsAreHeard(run: seq<Step>, h: Hash)
    requires Run(run)
    ensures HeardCount(run, h) <= TTL / INTERVAL == 120
  {
    HeardSpaced(run, h);
  }

  /** The bound is met: a pending code polled every five seconds is heard 120 times. */
  function SteadyPolls(n: nat, h: Hash, code: UserCode): seq<Step> {
    if n == 0 then [Step(0, Create(h, [code], None), Created(code))]
    else SteadyPolls(n - 1, h, code) + [Step((n - 1) * INTERVAL, Poll(h), Pending)]
  }

  lemma {:induction false} SteadyShape(n: nat, h: Hash, code: UserCode)
    ensures var run := SteadyPolls(n, h, code);
            && |run| == n + 1 && HeardCount(run, h) == n
            && run[0] == Step(0, Create(h, [code], None), Created(code))
            && forall k :: 0 < k <= n ==> run[k] == Step((k - 1) * INTERVAL, Poll(h), Pending)
  {
    var run := SteadyPolls(n, h, code);
    if n == 0 {
      assert run[..0] == [];
    } else {
      SteadyShape(n - 1, h, code);
      assert run[..n] == SteadyPolls(n - 1, h, code);
    }
  }

  function SteadyRecord(n: nat, code: UserCode): Record {
    Record(code, false, None, None, TTL, if n == 0 then None else Some((n - 1) * INTERVAL))
  }

  lemma {:induction false} SteadyAnswers(n: nat, h: Hash, code: UserCode)
    requires n <= 120
    ensures Answered(SteadyPolls(n, h, code))
    ensures After(SteadyPolls(n, h, code)) == Store(map[h := SteadyRecord(n, code)], map[code := h])
  {
    if n == 0 {
      var first := Step(0, Create(h, [code], None), Created(code));
      SteadyStart(h, code);
      assert [] + [first] == [first];
    } else {
      SteadyAnswers(n - 1, h, code);
      SteadyPoll(n, h, code);
    }
  }

  lemma SteadyStart(h: Hash, code: UserCode)
    ensures DoCreate(EMPTY, 0, h, [code], None) == (Created(code), Store(map[h := SteadyRecord(0, code)], map[code := h]))
  {
    assert Sweep(EMPTY, 0) == EMPTY;
  }

  lemma SteadyPoll(n: nat, h: Hash, code: UserCode)
    requires 0 < n <= 120
    ensures var s := Store(map[h := SteadyRecord(n - 1, code)], map[code := h]);
            DoPoll(s, (n - 1) * INTERVAL, h) == (Pending, Store(map[h := SteadyRecord(n, code)], map[code := h]))
  {
    var s, now := Store(map[h := SteadyRecord(n - 1, code)], map[code := h]), (n - 1) * INTERVAL;
    assert ExpiredHashes(s, now) == {};
    assert Sweep(s, now) == s;
    assert s.byHash[h := SteadyRecord(n, code)] == map[h := SteadyRecord(n, code)];
  }

  lemma BoundIsMet(h: Hash, code: UserCode)
    ensures Run(SteadyPolls(120, h, code)) && HeardCount(SteadyPolls(120, h, code), h) == 120
  {
    SteadyShape(120, h, code);
    SteadyAnswers(120, h, code);
  }

  // --- The store --------------------------------------------------------------------------------------

  class DeviceAuthStore {
    var byHash: map<Hash, Record>
    var byUserCode: map<UserCode, Hash>

    ghost function Value(): Store
      reads this
    {
      Store(byHash, byUserCode)
    }

    constructor ()
      ensures Value() == EMPTY
    {
      byHash, byUserCode := map[], map[];
    }

    method SweepExpired(now: int)
      modifies this
      ensures Value() == Sweep(old(Value()), now)
    {
      var expired := set h | h in byHash && byHash[h].expiresAt <= now;
      var left := expired;
      while left != {}
        invariant left <= expired
        invariant byHash == old(byHash) - (expired - left)
        invariant byUserCode == old(byUserCode) - CodesOf(old(Value()), expired - left)
      {
        var h :| h in left;
        byUserCode := byUserCode - {byHash[h].userCode};
        byHash := byHash - {h};
        assert expired - (left - {h}) == expired - left + {h};
        left := left - {h};
      }
    }

    /** `token` is the hash of the new device code, unless no token could be drawn. */
    method IssueCode(token: Option<Hash>, draws: seq<UserCode>, name: Option<string>, now: int) returns (out: Outcome)
      modifies this
      ensures token.Some? ==> (out, Value()) == DoCreate(old(Value()), now, token.value, draws, name)
      ensures token.None? ==> out == NoRandom && Value() == old(Value())
    {
      if token.None? { return NoRandom; }
      SweepExpired(now);
      var k := 0;
      while k < |draws| && draws[k] in byUserCode
        invariant k <= |draws|
        invariant FirstFree(draws[k..], byUserCode.Keys) == FirstFree(draws, byUserCode.Keys)
      {
        k := k + 1;
      }
      if k == |draws| { return NoRandom; }
      byUserCode := byUserCode[draws[k] := token.value];
      byHash := byHash[token.value := Record(draws[k], false, name, None, now + TTL, None)];
      out := Created(draws[k]);
    }

    method ApproveCode(code: UserCode, user: UserId, now: int) returns (out: Outcome)
      modifies this
      ensures (out, Value()) == DoApprove(old(Value()), now, code, user)
    {
      SweepExpired(now);
      if code !in byUserCode { return NotFound; }
      var h := byUserCode[code];
      if h !in byHash || byHash[h].expiresAt <= now { return ApproveExpired; }
      out := ApproveOk(byHash[h].deviceName);
      byHash := byHash[h := byHash[h].(approved := true, approvedUser := Some(user))];
    }

    method PollToken(h: Hash, now: int) returns (out: Outcome)
      modifies this
      ensures (out, Value()) == DoPoll(old(Value()), now, h)
    {
      SweepExpired(now);
      if h !in byHash || byHash[h].expiresAt <= now { return Expired; }
      var rec := byHash[h];
      if rec.lastPolledAt.Some? && now - rec.lastPolledAt.value < INTERVAL { return SlowDown; }
      byHash := byHash[h := rec.(lastPolledAt := Some(now))];
      if !rec.approved || rec.approvedUser.None? { return Pending; }
      assert byHash - {h} == Sweep(old(Value()), now).byHash - {h};
      byHash := byHash - {h};
      byUserCode := byUserCode - {rec.userCode};
      out := Approved(rec.approvedUser.value, rec.deviceName);
    }
  }
}

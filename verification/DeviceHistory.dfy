/** What issuing and approving answer, told from the history of a device authorization store. */
module DeviceHistory {
  import opened Wrappers
  import opened DeviceAuth

  /** Step `i` issued the user code, and it can still be approved: neither expired nor exchanged. */
  ghost predicate LiveCode(run: seq<Step>, i: nat, h: Hash, code: UserCode, now: int) {
    Issues(run, i, h, code) && now < run[i].at + TTL && forall e :: i < e < |run| ==> !Exchanges(run, e, h)
  }

  ghost predicate InUse(run: seq<Step>, code: UserCode, now: int) {
    exists i: nat, h :: LiveCode(run, i, h, code, now)
  }

  ghost predicate Until(run: seq<Step>, now: int) {
    run != [] ==> run[|run| - 1].at <= now
  }

  lemma LiveIsStored(run: seq<Step>, i: nat, h: Hash, code: UserCode, now: int)
    requires Run(run) && Until(run, now) && LiveCode(run, i, h, code, now)
    ensures var s := Sweep(After(run), now);
            && code in s.byUserCode && s.byUserCode[code] == h && h in s.byHash && now < s.byHash[h].expiresAt
            && s.byHash[h].deviceName == run[i].event.name
  {
    Lives(run, i, h, code);
    RecordTells(run, i, h, code);
    RunKeepsInverse(run);
    SweepKeepsInverse(After(run), now);
  }

  lemma StoredIsLive(run: seq<Step>, code: UserCode, now: int) returns (i: nat, h: Hash)
    requires Run(run) && Until(run, now) && code in Sweep(After(run), now).byUserCode
    ensures LiveCode(run, i, h, code, now)
  {
    RunKeepsInverse(run);
    SweepKeepsInverse(After(run), now);
    h := Sweep(After(run), now).byUserCode[code];
    i := Origin(run, h);
    Lives(run, i, h, code);
  }

  /** The codes the store takes for used are those in use. */
  lemma TakenIsInUse(run: seq<Step>, code: UserCode, now: int)
    requires Run(run) && Until(run, now)
    ensures code in Sweep(After(run), now).byUserCode <==> InUse(run, code, now)
  {
    if code in Sweep(After(run), now).byUserCode {
      var i, h := StoredIsLive(run, code, now);
    }
    if i: nat, h :| LiveCode(run, i, h, code, now) {
      LiveIsStored(run, i, h, code, now);
    }
  }

  lemma {:induction false} FirstFreeIsFirst(draws: seq<UserCode>, taken: set<UserCode>)
    requires FirstFree(draws, taken).Some?
    ensures exists k :: 0 <= k < |draws| && draws[k] == FirstFree(draws, taken).value
                        && forall j :: 0 <= j < k ==> draws[j] in taken
  {
    if draws[0] in taken {
      FirstFreeIsFirst(draws[1..], taken);
      var k :| 0 <= k < |draws[1..]| && draws[1..][k] == FirstFree(draws[1..], taken).value
               && forall j :: 0 <= j < k ==> draws[1..][j] in taken;
      assert draws[k + 1] == FirstFree(draws, taken).value;
      assert forall j :: 0 < j < k + 1 ==> draws[j] == draws[1..][j - 1];
    }
  }

  lemma LastStep(run: seq<Step>, last: Step)
    requires Run(run + [last])
    ensures Run(run) && Until(run, last.at) && last.out == Do(After(run), last.at, last.event).0
  {
    var all := run + [last];
    RunPrefix(all, |run|);
    assert all[..|run|] == run && all[..|all| - 1] == run;
    assert run != [] ==> all[|run| - 1].at <= all[|run|].at;
  }

  /** The draw is the first that is not in use. */
  ghost predicate FirstUnused(run: seq<Step>, draws: seq<UserCode>, k: nat, now: int) {
    k < |draws| && !InUse(run, draws[k], now) && forall j :: 0 <= j < k ==> InUse(run, draws[j], now)
  }

  /** A device code is issued with the first drawn user code that is not in use; there is none only if all are. */
  lemma CreateOutcome(run: seq<Step>, h: Hash, draws: seq<UserCode>, name: Option<string>, now: int, out: Outcome)
    requires Run(run + [Step(now, Create(h, draws, name), out)])
    ensures if out.Created? then exists k: nat :: FirstUnused(run, draws, k, now) && draws[k] == out.code
            else out == NoRandom && forall j :: 0 <= j < |draws| ==> InUse(run, draws[j], now)
  {
    LastStep(run, Step(now, Create(h, draws, name), out));
    var taken := Sweep(After(run), now).byUserCode.Keys;
    forall j | 0 <= j < |draws| ensures draws[j] in taken <==> InUse(run, draws[j], now) {
      TakenIsInUse(run, draws[j], now);
    }
    if FirstFree(draws, taken).Some? {
      FirstFreeIsFirst(draws, taken);
      var k :| 0 <= k < |draws| && draws[k] == FirstFree(draws, taken).value && forall j :: 0 <= j < k ==> draws[j] in taken;
      assert FirstUnused(run, draws, k, now);
    }
  }

  /** An approval finds the code in use and tells its device's name, or finds none. */
  lemma ApproveOutcome(run: seq<Step>, code: UserCode, user: UserId, now: int, out: Outcome)
    requires Run(run + [Step(now, Approve(code, user), out)])
    ensures InUse(run, code, now) ==> exists i: nat, h :: LiveCode(run, i, h, code, now) && out == ApproveOk(run[i].event.name)
    ensures !InUse(run, code, now) ==> out == NotFound
  {
    LastStep(run, Step(now, Approve(code, user), out));
    TakenIsInUse(run, code, now);
    if i: nat, h :| LiveCode(run, i, h, code, now) {
      LiveIsStored(run, i, h, code, now);
    }
  }

  /** No two codes in use are the same. */
  lemma CodesInUseDiffer(run: seq<Step>, i: nat, j: nat, h1: Hash, h2: Hash, code: UserCode, now: int)
    requires Run(run) && Until(run, now) && LiveCode(run, i, h1, code, now) && LiveCode(run, j, h2, code, now)
    ensures h1 == h2 && i == j
  {
    LiveIsStored(run, i, h1, code, now);
    LiveIsStored(run, j, h2, code, now);
  }
}

/**
  Registration told from the history: who has an account and with which role, what has become of an
  invite code, and when a verify request or an initial setup goes through.
 */
module InviteHistory {
  import opened Wrappers
  import opened Text
  import opened Invites

  // --- Accounts ---------------------------------------------------------------------------------------

  function AccountOf(users: map<Id, Account>, id: Id): Option<Account> {
    if id in users then Some(users[id]) else None
  }

  /** The account an insertion makes: the first user and the listed ones are administrators. */
  function NewAccount(s: State, a: Action, adminIds: set<Id>): Account
    requires Enabled(s, a) && (a.CreateUser? || a.FinishSetup?)
  {
    var reg := s.requests[a.req].reg;
    Account(reg.username, if |s.users| == 0 || reg.id in adminIds then Admin else User,
            if a.CreateUser? then Some(a.req) else None)
  }

  /** What one step does to the account of one id. */
  ghost function AccountStep(s: State, a: Action, adminIds: set<Id>, id: Id, before: Option<Account>): Option<Account>
    requires Enabled(s, a)
  {
    if a == DeleteUser(id) then None
    else if a.SetRole? && a.id == id && before.Some? then Some(before.value.(role := a.role))
    else if Inserts(s, a, id) then Some(NewAccount(s, a, adminIds))
    else before
  }

  ghost function AccountTold(s: State, run: seq<Action>, adminIds: set<Id>, id: Id, before: Option<Account>): Option<Account>
    requires CanRun(s, run, adminIds)
    decreases |run|
  {
    if run == [] then before
    else AccountTold(Next(s, run[0], adminIds), run[1..], adminIds, id, AccountStep(s, run[0], adminIds, id, before))
  }

  lemma AccountMoves(s: State, a: Action, adminIds: set<Id>, id: Id)
    requires Enabled(s, a)
    ensures AccountOf(Next(s, a, adminIds).users, id) == AccountStep(s, a, adminIds, id, AccountOf(s.users, id))
  {
  }

  /** An account is what was inserted for its id last, with the role it was given last, if it was not deleted. */
  lemma {:induction false} AccountIs(s: State, run: seq<Action>, adminIds: set<Id>, id: Id)
    requires CanRun(s, run, adminIds)
    ensures AccountOf(After(s, run, adminIds).users, id) == AccountTold(s, run, adminIds, id, AccountOf(s.users, id))
    decreases |run|
  {
    if run != [] {
      AccountMoves(s, run[0], adminIds, id);
      AccountIs(Next(s, run[0], adminIds), run[1..], adminIds, id);
    }
  }

  ghost predicate ListedAreAdmins(users: map<Id, Account>, adminIds: set<Id>) {
    forall id <- users :: id in adminIds ==> users[id].role.Admin?
  }

  /** Unless roles are changed, the listed users are administrators, first or not. */
  lemma {:induction false} ListedStayAdmins(s: State, run: seq<Action>, adminIds: set<Id>)
    requires CanRun(s, run, adminIds) && ListedAreAdmins(s.users, adminIds) && forall a <- run :: !a.SetRole?
    ensures ListedAreAdmins(After(s, run, adminIds).users, adminIds)
    decreases |run|
  {
    if run != [] {
      assert run[0] in run;
      ListedStayAdmins(Next(s, run[0], adminIds), run[1..], adminIds);
    }
  }

  // --- Invite codes -----------------------------------------------------------------------------------

  function InviteOf(invites: map<Code, Invite>, code: Code): Option<Invite> {
    if code in invites then Some(invites[code]) else None
  }

  /** The seeds offer the code: it is one of them without the space around it, and not empty. */
  ghost predicate Seeds(codes: seq<Code>, code: Code) {
    code != "" && exists i :: 0 <= i < |codes| && Trim(codes[i]) == code
  }

  /** A request takes the code in this step, if the code can be taken. */
  predicate Takes(s: State, a: Action, code: Code)
    requires Enabled(s, a)
  {
    a.Consume? && a.ok && s.requests[a.req].reg.code == code
  }

  /** The life of one code: made once, then withdrawn, deleted or used, and a used one stays. */
  ghost function InviteStep(s: State, a: Action, code: Code, before: Option<Invite>): Option<Invite>
    requires Enabled(s, a)
  {
    match before
    case None =>
      if a.CreateCode? && a.code == code then Some(Invite(Some(a.admin), None, false))
      else if a.Seed? && Seeds(a.codes, code) then Some(Invite(None, None, false))
      else None
    case Some(invite) =>
      if invite.usedBy.Some? then before
      else if a == Delete(code) then None
      else if a == Revoke(code) then Some(invite.(revoked := true))
      else if Takes(s, a, code) && !invite.revoked then Some(invite.(usedBy := Some(s.requests[a.req].reg.id)))
      else before
  }

  ghost function InviteTold(s: State, run: seq<Action>, adminIds: set<Id>, code: Code, before: Option<Invite>): Option<Invite>
    requires CanRun(s, run, adminIds)
    decreases |run|
  {
    if run == [] then before
    else InviteTold(Next(s, run[0], adminIds), run[1..], adminIds, code, InviteStep(s, run[0], code, before))
  }

  lemma {:induction false} SeededIs(invites: map<Code, Invite>, codes: seq<Code>, code: Code)
    ensures InviteOf(Seeded(invites, codes), code) ==
            if code in invites then Some(invites[code])
            else if Seeds(codes, code) then Some(Invite(None, None, false)) else None
  {
    if codes != [] {
      var n := |codes| - 1;
      SeededIs(invites, codes[..n], code);
      assert Seeds(codes, code) <==> Seeds(codes[..n], code) || (code != "" && Trim(codes[n]) == code) by {
        assert forall i :: 0 <= i < n ==> codes[..n][i] == codes[i];
        if Seeds(codes[..n], code) {
          var i :| 0 <= i < n && Trim(codes[..n][i]) == code;
          assert Trim(codes[i]) == code;
        }
        if code != "" && Trim(codes[n]) == code {
          assert Seeds(codes, code);
        }
      }
    }
  }

  lemma InviteMoves(s: State, a: Action, adminIds: set<Id>, code: Code)
    requires Enabled(s, a)
    ensures InviteOf(Next(s, a, adminIds).invites, code) == InviteStep(s, a, code, InviteOf(s.invites, code))
  {
    if a.Seed? {
      SeededIs(s.invites, a.codes, code);
    }
  }

  /** What the table says of a code is what became of that code alone. */
  lemma {:induction false} InviteIs(s: State, run: seq<Action>, adminIds: set<Id>, code: Code)
    requires CanRun(s, run, adminIds)
    ensures InviteOf(After(s, run, adminIds).invites, code) == InviteTold(s, run, adminIds, code, InviteOf(s.invites, code))
    decreases |run|
  {
    if run != [] {
      InviteMoves(s, run[0], adminIds, code);
      InviteIs(Next(s, run[0], adminIds), run[1..], adminIds, code);
    }
  }

  // --- When a request goes through --------------------------------------------------------------------

  /** The history says that the id has an account. */
  ghost predicate Registered(s: State, run: seq<Action>, adminIds: set<Id>, id: Id)
    requires CanRun(s, run, adminIds)
  {
    (id in s.users && DeleteUser(id) !in run) || Enters(s, run, adminIds, id)
  }

  /** A setup may begin exactly when the history has nobody in the table. */
  lemma SetupBeginsIff(s: State, run: seq<Action>, adminIds: set<Id>, req: Req, reg: Registration)
    requires CanRun(s, run, adminIds) && Enabled(After(s, run, adminIds), BeginSetup(req, reg))
    ensures var t := Next(After(s, run, adminIds), BeginSetup(req, reg), adminIds);
            && (In(t, req, SettingUp(reg)) <==> forall id :: !Registered(s, run, adminIds, id))
            && (!In(t, req, SettingUp(reg)) ==> In(t, req, Rejected))
  {
    var t := After(s, run, adminIds);
    forall id ensures id in t.users <==> Registered(s, run, adminIds, id) {
      InTable(s, run, adminIds, id);
    }
    if id :| id in t.users {
      assert Registered(s, run, adminIds, id);
    }
  }

  /** The step is one of this request. */
  predicate By(a: Action, req: Req) {
    match a
    case Verify(r, _) => r == req
    case CheckUser(r, _) => r == req
    case Consume(r, _) => r == req
    case CreateUser(r, _) => r == req
    case BeginSetup(r, _) => r == req
    case FinishSetup(r, _) => r == req
    case Stop(r) => r == req
    case _ => false
  }

  ghost predicate OthersLead(s: State, run: seq<Action>, adminIds: set<Id>, req: Req, t: State) {
    (forall a <- run :: !By(a, req)) && CanRun(s, run, adminIds) && After(s, run, adminIds) == t
  }

  lemma {:induction false} PhaseStays(s: State, run: seq<Action>, adminIds: set<Id>, req: Req, t: State)
    requires OthersLead(s, run, adminIds, req, t) && req in s.requests
    ensures req in t.requests && t.requests[req] == s.requests[req]
    decreases |run|
  {
    if run != [] {
      assert run[0] in run;
      PhaseStays(Next(s, run[0], adminIds), run[1..], adminIds, req, t);
    }
  }

  /** Nothing more comes of the request. */
  predicate Over(phase: Phase) {
    phase.Created? || phase.Burned? || phase.Rejected? || phase.SetUp?
  }

  lemma {:induction false} OverStays(s: State, run: seq<Action>, adminIds: set<Id>, req: Req)
    requires CanRun(s, run, adminIds) && req in s.requests && Over(s.requests[req])
    ensures var t := After(s, run, adminIds); req in t.requests && t.requests[req] == s.requests[req]
    decreases |run|
  {
    if run != [] {
      OverStays(Next(s, run[0], adminIds), run[1..], adminIds, req);
    }
  }

  /** A request that stops is over for good: it registers nobody later, and a code it had taken stays taken. */
  lemma StopIsFinal(s: State, req: Req, run: seq<Action>, adminIds: set<Id>)
    requires Enabled(s, Stop(req)) && CanRun(Next(s, Stop(req), adminIds), run, adminIds)
    ensures var t := After(Next(s, Stop(req), adminIds), run, adminIds);
            && req in t.requests && Over(t.requests[req])
            && (t.requests[req].Created? <==> s.requests[req].Created?)
            && (Spent(t.requests[req]) <==> Spent(s.requests[req]))
            && (s.requests[req].SetUp? <==> t.requests[req].SetUp?)
  {
    OverStays(Next(s, Stop(req), adminIds), run, adminIds, req);
  }

  /** The steps of a verify request with nothing going wrong, other requests coming in between. */
  datatype Passage = Passage(checks: State, consumes: State, creates: State, ends: State)

  ghost predicate Passes(s: State, req: Req, reg: Registration, adminIds: set<Id>, p: Passage,
                         r1: seq<Action>, r2: seq<Action>, r3: seq<Action>)
  {
    && req !in s.requests
    && OthersLead(Next(s, Verify(req, reg), adminIds), r1, adminIds, req, p.checks)
    && In(p.checks, req, Checking(reg))
    && OthersLead(Next(p.checks, CheckUser(req, true), adminIds), r2, adminIds, req, p.consumes)
    && (In(p.consumes, req, Consuming(reg)) ==>
          && OthersLead(Next(p.consumes, Consume(req, true), adminIds), r3, adminIds, req, p.creates)
          && (In(p.creates, req, Creating(reg)) ==> p.ends == Next(p.creates, CreateUser(req, true), adminIds)))
  }

  /**
    A request gets past each step exactly when the tables allow it then: the id is not registered, the
    code is valid, both keys are free. If it gets to the end its user has an account and its code is used.
   */
  lemma VerifyGoesThroughIff(s: State, req: Req, reg: Registration, adminIds: set<Id>, p: Passage,
                             r1: seq<Action>, r2: seq<Action>, r3: seq<Action>)
    requires Passes(s, req, reg, adminIds, p, r1, r2, r3)
    ensures In(p.consumes, req, if reg.id in p.checks.users then Rejected else Consuming(reg))
    ensures reg.id !in p.checks.users ==>
              In(p.creates, req, if Valid(p.consumes.invites, reg.code) then Creating(reg) else Rejected)
    ensures reg.id !in p.checks.users && Valid(p.consumes.invites, reg.code) ==>
              && In(p.ends, req, if CanInsert(p.creates.users, reg) then Created(reg) else Burned(reg))
              && Used(p.ends.invites, reg.code) && p.ends.invites[reg.code].usedBy == Some(reg.id)
              && (if CanInsert(p.creates.users, reg) then
                    && AccountOf(p.ends.users, reg.id) == Some(NewAccount(p.creates, CreateUser(req, true), adminIds))
                    && p.ends.users - {reg.id} == p.creates.users
                  else p.ends.users == p.creates.users)
  {
    PhaseStays(Next(p.checks, CheckUser(req, true), adminIds), r2, adminIds, req, p.consumes);
    if reg.id !in p.checks.users {
      var taken := Next(p.consumes, Consume(req, true), adminIds);
      PhaseStays(taken, r3, adminIds, req, p.creates);
      if Valid(p.consumes.invites, reg.code) {
        UsedIsFinal(taken, r3, adminIds, reg.code);
      }
    }
  }

  /** On its own a request with a valid code, a new id and a new name ends with its user registered. */
  lemma VerifyAlone(s: State, req: Req, reg: Registration, adminIds: set<Id>)
    requires req !in s.requests && Valid(s.invites, reg.code) && CanInsert(s.users, reg)
    ensures var run := [Verify(req, reg), CheckUser(req, true), Consume(req, true), CreateUser(req, true)];
            && CanRun(s, run, adminIds)
            && var t := After(s, run, adminIds);
               && In(t, req, Created(reg))
               && reg.id in t.users && t.users[reg.id].username == reg.username && t.users - {reg.id} == s.users
               && t.invites == s.invites[reg.code := s.invites[reg.code].(usedBy := Some(reg.id))]
  {
    var s1 := Next(s, Verify(req, reg), adminIds);
    var s2 := Next(s1, CheckUser(req, true), adminIds);
    var s3 := Next(s2, Consume(req, true), adminIds);
    RunCons(s3, CreateUser(req, true), [], adminIds);
    RunCons(s2, Consume(req, true), [CreateUser(req, true)] + [], adminIds);
    RunCons(s1, CheckUser(req, true), [Consume(req, true)] + ([CreateUser(req, true)] + []), adminIds);
    RunCons(s, Verify(req, reg), [CheckUser(req, true)] + ([Consume(req, true)] + ([CreateUser(req, true)] + [])), adminIds);
    assert [Verify(req, reg)] + ([CheckUser(req, true)] + ([Consume(req, true)] + ([CreateUser(req, true)] + []))) ==
           [Verify(req, reg), CheckUser(req, true), Consume(req, true), CreateUser(req, true)];
  }

  /** In any run, a check that works turns away exactly the registered ids, and consumes nothing. */
  lemma CheckTurnsAwayIff(s: State, run: seq<Action>, adminIds: set<Id>, req: Req, reg: Registration)
    requires CanRun(s, run, adminIds) && In(After(s, run, adminIds), req, Checking(reg))
    ensures var t := After(s, run, adminIds);
            var u := Next(t, CheckUser(req, true), adminIds);
            && In(u, req, if Registered(s, run, adminIds, reg.id) then Rejected else Consuming(reg))
            && u.invites == t.invites && u.users == t.users
  {
    InTable(s, run, adminIds, reg.id);
  }
}

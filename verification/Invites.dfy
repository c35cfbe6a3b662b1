/**
  Registration by invite code: verify requests consume a code and then create a user, while admins
  create, revoke and delete codes, codes are seeded, users are deleted, and the first user is set up.

  Every statement or transaction is one step, and requests take their steps in any order. A request
  can stop between any two of its steps. `ok` says whether a step's statement succeeds.
 */
module Invites {
  import opened Wrappers
  import opened Text

  type Code = string
  type Id = string
  type Req = nat

  datatype Invite = Invite(createdBy: Option<Id>, usedBy: Option<Id>, revoked: bool)

  datatype Role = Admin | User

  /** `via` is bookkeeping: the verify request that created the user. */
  datatype Account = Account(username: string, role: Role, via: Option<Req>)

  datatype Registration = Registration(id: Id, username: string, code: Code)

  datatype Phase =
    | Checking(reg: Registration)
    | Consuming(reg: Registration)
    | Creating(reg: Registration)
    | Created(reg: Registration)
    | Burned(reg: Registration)
    | Rejected
    | SettingUp(reg: Registration)
    | SetUp

  datatype State = State(invites: map<Code, Invite>, users: map<Id, Account>, requests: map<Req, Phase>)

  datatype Action =
    | Verify(req: Req, reg: Registration)
    | CheckUser(req: Req, ok: bool)
    | Consume(req: Req, ok: bool)
    | CreateUser(req: Req, ok: bool)
    | BeginSetup(req: Req, reg: Registration)
    | FinishSetup(req: Req, ok: bool)
    | Stop(req: Req)
    | CreateCode(code: Code, admin: Id)
    | Revoke(code: Code)
    | Delete(code: Code)
    | Seed(codes: seq<Code>)
    | DeleteUser(id: Id)
    | SetRole(id: Id, role: Role)

  // --- The invite table -------------------------------------------------------------------------------

  predicate Valid(invites: map<Code, Invite>, code: Code) {
    code in invites && invites[code].usedBy.None? && !invites[code].revoked
  }

  function Consumed(invites: map<Code, Invite>, code: Code, id: Id): map<Code, Invite> {
    if Valid(invites, code) then invites[code := invites[code].(usedBy := Some(id))] else invites
  }

  /** INSERT OR IGNORE. */
  function Inserted(invites: map<Code, Invite>, code: Code, creator: Option<Id>): map<Code, Invite> {
    if code in invites then invites else invites[code := Invite(creator, None, false)]
  }

  function Revoked(invites: map<Code, Invite>, code: Code): map<Code, Invite> {
    if Valid(invites, code) then invites[code := invites[code].(revoked := true)] else invites
  }

  function Deleted(invites: map<Code, Invite>, code: Code): map<Code, Invite> {
    if code in invites && invites[code].usedBy.None? then invites - {code} else invites
  }

  function Seeded(invites: map<Code, Invite>, codes: seq<Code>): map<Code, Invite> {
    if codes == [] then invites
    else
      var rest := Seeded(invites, codes[..|codes| - 1]);
      var code := Trim(codes[|codes| - 1]);
      if code == "" then rest else Inserted(rest, code, None)
  }

  // --- The user table ---------------------------------------------------------------------------------

  predicate NameTaken(users: map<Id, Account>, username: string) {
    exists id <- users :: users[id].username == username
  }

  /** The keys of the user table: the id and the username. */
  predicate CanInsert(users: map<Id, Account>, reg: Registration) {
    reg.id !in users && !NameTaken(users, reg.username)
  }

  function RoleFor(users: map<Id, Account>, id: Id, adminIds: set<Id>): Role {
    if users == map[] || id in adminIds then Admin else User
  }

  function WithUser(users: map<Id, Account>, reg: Registration, adminIds: set<Id>, via: Option<Req>): map<Id, Account> {
    users[reg.id := Account(reg.username, RoleFor(users, reg.id, adminIds), via)]
  }

  // --- Steps ------------------------------------------------------------------------------------------

  predicate In(s: State, req: Req, phase: Phase) {
    req in s.requests && s.requests[req] == phase
  }

  predicate Enabled(s: State, a: Action) {
    match a
    case Verify(req, _) => req !in s.requests
    case CheckUser(req, _) => req in s.requests && s.requests[req].Checking?
    case Consume(req, _) => req in s.requests && s.requests[req].Consuming?
    case CreateUser(req, _) => req in s.requests && s.requests[req].Creating?
    case BeginSetup(req, _) => req !in s.requests
    case FinishSetup(req, _) => req in s.requests && s.requests[req].SettingUp?
    case Stop(req) => req in s.requests
    case _ => true
  }

  function To(s: State, req: Req, phase: Phase): State {
    s.(requests := s.requests[req := phase])
  }

  /** A request that stops after it has consumed its code has burned it. */
  function Stopped(phase: Phase): Phase {
    if phase.Creating? then Burned(phase.reg)
    else if phase.Created? || phase.Burned? || phase.SetUp? then phase
    else Rejected
  }

  function Next(s: State, a: Action, adminIds: set<Id>): State
    requires Enabled(s, a)
  {
    match a
    case Verify(req, reg) => To(s, req, Checking(reg))
    case CheckUser(req, ok) =>
      var reg := s.requests[req].reg;
      To(s, req, if ok && reg.id !in s.users then Consuming(reg) else Rejected)
    case Consume(req, ok) =>
      var reg := s.requests[req].reg;
      if ok && Valid(s.invites, reg.code) then
        To(s, req, Creating(reg)).(invites := Consumed(s.invites, reg.code, reg.id))
      else To(s, req, Rejected)
    case CreateUser(req, ok) =>
      var reg := s.requests[req].reg;
      if ok && CanInsert(s.users, reg) then
        To(s, req, Created(reg)).(users := WithUser(s.users, reg, adminIds, Some(req)))
      else To(s, req, Burned(reg))
    case BeginSetup(req, reg) => To(s, req, if s.users == map[] then SettingUp(reg) else Rejected)
    case FinishSetup(req, ok) =>
      var reg := s.requests[req].reg;
      if ok && CanInsert(s.users, reg) then To(s, req, SetUp).(users := WithUser(s.users, reg, adminIds, None))
      else To(s, req, Rejected)
    case Stop(req) => To(s, req, Stopped(s.requests[req]))
    case CreateCode(code, admin) => s.(invites := Inserted(s.invites, code, Some(admin)))
    case Revoke(code) => s.(invites := Revoked(s.invites, code))
    case Delete(code) => s.(invites := Deleted(s.invites, code))
    case Seed(codes) => s.(invites := Seeded(s.invites, codes))
    case DeleteUser(id) => s.(users := s.users - {id})
    case SetRole(id, role) => if id in s.users then s.(users := s.users[id := s.users[id].(role := role)]) else s
  }

  ghost predicate CanRun(s: State, run: seq<Action>, adminIds: set<Id>)
    decreases |run|
  {
    run != [] ==> Enabled(s, run[0]) && CanRun(Next(s, run[0], adminIds), run[1..], adminIds)
  }

  function After(s: State, run: seq<Action>, adminIds: set<Id>): State
    requires CanRun(s, run, adminIds)
    decreases |run|
  {
    if run == [] then s else After(Next(s, run[0], adminIds), run[1..], adminIds)
  }

  // --- A used code is final ---------------------------------------------------------------------------

  predicate Used(invites: map<Code, Invite>, code: Code) {
    code in invites && invites[code].usedBy.Some?
  }

  lemma {:induction false} SeedKeepsCodes(invites: map<Code, Invite>, codes: seq<Code>, code: Code)
    requires code in invites
    ensures code in Seeded(invites, codes) && Seeded(invites, codes)[code] == invites[code]
  {
    if codes != [] {
      SeedKeepsCodes(invites, codes[..|codes| - 1], code);
    }
  }

  lemma StepKeepsUsed(s: State, a: Action, adminIds: set<Id>, code: Code)
    requires Enabled(s, a) && Used(s.invites, code)
    ensures code in Next(s, a, adminIds).invites && Next(s, a, adminIds).invites[code] == s.invites[code]
  {
    if a.Seed? {
      SeedKeepsCodes(s.invites, a.codes, code);
    }
  }

  /** Whatever happens afterwards, a used code keeps its user, and is not revoked, deleted or revived. */
  lemma {:induction false} UsedIsFinal(s: State, run: seq<Action>, adminIds: set<Id>, code: Code)
    requires CanRun(s, run, adminIds) && Used(s.invites, code)
    ensures var t := After(s, run, adminIds); code in t.invites && t.invites[code] == s.invites[code]
    decreases |run|
  {
    if run != [] {
      StepKeepsUsed(s, run[0], adminIds, code);
      UsedIsFinal(Next(s, run[0], adminIds), run[1..], adminIds, code);
    }
  }

  // --- Codes, requests and users ----------------------------------------------------------------------

  /** The request has consumed its code. */
  predicate Spent(phase: Phase) {
    phase.Creating? || phase.Created? || phase.Burned?
  }

  /** A request that has consumed its code is the one its code is used by. */
  ghost predicate SpentOk(s: State) {
    && (forall r <- s.requests :: Spent(s.requests[r]) ==>
          Used(s.invites, s.requests[r].reg.code) && s.invites[s.requests[r].reg.code].usedBy.value == s.requests[r].reg.id)
    && (forall q <- s.requests, r <- s.requests ::
          Spent(s.requests[q]) && Spent(s.requests[r]) && s.requests[q].reg.code == s.requests[r].reg.code ==> q == r)
  }

  predicate SpentBy(s: State, code: Code, r: Req) {
    r in s.requests && Spent(s.requests[r]) && s.requests[r].reg.code == code
  }

  /** Every code used since the start was consumed by a request. */
  ghost predicate UsedOk(s: State, start: map<Code, Invite>) {
    forall c <- s.invites :: Used(s.invites, c) && !Used(start, c) ==> exists r :: SpentBy(s, c, r)
  }

  /** A user that a verify request created is the user of that request. */
  ghost predicate UsersOk(s: State) {
    forall id <- s.users :: s.users[id].via.Some? ==>
      s.users[id].via.value in s.requests && s.requests[s.users[id].via.value].Created?
      && s.requests[s.users[id].via.value].reg.id == id
  }

  ghost predicate NamesOk(s: State) {
    forall id1 <- s.users, id2 <- s.users :: s.users[id1].username == s.users[id2].username ==> id1 == id2
  }

  ghost predicate Inv(s: State, start: map<Code, Invite>) {
    SpentOk(s) && UsedOk(s, start) && UsersOk(s) && NamesOk(s)
  }

  lemma {:induction false} SeedAddsUnused(invites: map<Code, Invite>, codes: seq<Code>, code: Code)
    requires Used(Seeded(invites, codes), code)
    ensures Used(invites, code)
  {
    if codes != [] && code !in invites {
      var rest := Seeded(invites, codes[..|codes| - 1]);
      assert Used(rest, code);
      SeedAddsUnused(invites, codes[..|codes| - 1], code);
    } else if codes != [] {
      SeedKeepsCodes(invites, codes, code);
    }
  }

  /** Only consuming makes a code used. */
  lemma OnlyConsumeUses(s: State, a: Action, adminIds: set<Id>, code: Code)
    requires Enabled(s, a) && Used(Next(s, a, adminIds).invites, code) && !Used(s.invites, code)
    ensures a.Consume? && s.requests[a.req].reg.code == code && Next(s, a, adminIds).requests[a.req].Creating?
  {
    if a.Seed? {
      SeedAddsUnused(s.invites, a.codes, code);
    }
  }

  /** A request that has consumed its code had done so before, or has just found it valid. */
  lemma SpentBefore(s: State, a: Action, adminIds: set<Id>, r: Req)
    requires Enabled(s, a)
    requires r in Next(s, a, adminIds).requests && Spent(Next(s, a, adminIds).requests[r])
    ensures var t := Next(s, a, adminIds);
            && r in s.requests && !s.requests[r].Rejected? && !s.requests[r].SetUp?
            && s.requests[r].reg == t.requests[r].reg
            && (Spent(s.requests[r]) ||
                (a.Consume? && a.req == r && Valid(s.invites, t.requests[r].reg.code)
                 && t.invites == Consumed(s.invites, t.requests[r].reg.code, t.requests[r].reg.id)))
  {
  }

  lemma StepKeepsSpent(s: State, a: Action, adminIds: set<Id>)
    requires Enabled(s, a) && SpentOk(s)
    ensures SpentOk(Next(s, a, adminIds))
  {
    var t := Next(s, a, adminIds);
    forall r <- t.requests | Spent(t.requests[r])
      ensures Used(t.invites, t.requests[r].reg.code)
      ensures t.invites[t.requests[r].reg.code].usedBy.value == t.requests[r].reg.id
    {
      SpentBefore(s, a, adminIds, r);
      if Spent(s.requests[r]) {
        StepKeepsUsed(s, a, adminIds, t.requests[r].reg.code);
      }
    }
    forall q <- t.requests, r <- t.requests
      | Spent(t.requests[q]) && Spent(t.requests[r]) && t.requests[q].reg.code == t.requests[r].reg.code
      ensures q == r
    {
      SpentBefore(s, a, adminIds, q);
      SpentBefore(s, a, adminIds, r);
    }
  }

  lemma StepKeepsUsedOk(s: State, a: Action, adminIds: set<Id>, start: map<Code, Invite>)
    requires Enabled(s, a) && UsedOk(s, start)
    ensures UsedOk(Next(s, a, adminIds), start)
  {
    var t := Next(s, a, adminIds);
    forall c <- t.invites | Used(t.invites, c) && !Used(start, c) ensures exists r :: SpentBy(t, c, r) {
      if Used(s.invites, c) {
        var r :| SpentBy(s, c, r);
        assert SpentBy(t, c, r);
      } else {
        OnlyConsumeUses(s, a, adminIds, c);
        assert SpentBy(t, c, a.req);
      }
    }
  }

  lemma StepKeepsUsers(s: State, a: Action, adminIds: set<Id>)
    requires Enabled(s, a) && UsersOk(s)
    ensures UsersOk(Next(s, a, adminIds))
  {
  }

  lemma StepKeepsNames(s: State, a: Action, adminIds: set<Id>)
    requires Enabled(s, a) && NamesOk(s)
    ensures NamesOk(Next(s, a, adminIds))
  {
  }

  lemma {:induction false} RunKeeps(s: State, run: seq<Action>, adminIds: set<Id>, start: map<Code, Invite>)
    requires CanRun(s, run, adminIds) && Inv(s, start)
    ensures Inv(After(s, run, adminIds), start)
    decreases |run|
  {
    if run != [] {
      StepKeepsSpent(s, run[0], adminIds);
      StepKeepsUsedOk(s, run[0], adminIds, start);
      StepKeepsUsers(s, run[0], adminIds);
      StepKeepsNames(s, run[0], adminIds);
      RunKeeps(Next(s, run[0], adminIds), run[1..], adminIds, start);
    }
  }

  // --- Main results -----------------------------------------------------------------------------------

  /** A state before any request; users and codes may be there already. */
  ghost predicate Initial(s: State) {
    s.requests == map[] && NamesOk(s) && forall id <- s.users :: s.users[id].via.None?
  }

  lemma Reached(s: State, run: seq<Action>, adminIds: set<Id>)
    requires Initial(s) && CanRun(s, run, adminIds)
    ensures Inv(After(s, run, adminIds), s.invites)
  {
    RunKeeps(s, run, adminIds, s.invites);
  }

  /** The code that a user was registered with. */
  function CodeOf(s: State, id: Id): Code
    requires UsersOk(s) && id in s.users && s.users[id].via.Some?
  {
    s.requests[s.users[id].via.value].reg.code
  }

  /** Users created by verify map injectively to codes, each used by its user. */
  lemma UsersHaveCodes(s: State, run: seq<Action>, adminIds: set<Id>, id1: Id, id2: Id)
    requires Initial(s) && CanRun(s, run, adminIds)
    requires var t := After(s, run, adminIds);
             && id1 in t.users && t.users[id1].via.Some? && id2 in t.users && t.users[id2].via.Some?
    ensures var t := After(s, run, adminIds);
            && UsersOk(t)
            && CodeOf(t, id1) in t.invites && t.invites[CodeOf(t, id1)].usedBy == Some(id1)
            && (CodeOf(t, id1) == CodeOf(t, id2) ==> id1 == id2)
  {
    Reached(s, run, adminIds);
  }

  /**
    The codes used since the start are in one-to-one correspondence with the requests that have
    consumed one: those about to create a user, those that did, and those that failed to.
   */
  lemma UsedCodesAreSpent(s: State, run: seq<Action>, adminIds: set<Id>, code: Code)
    requires Initial(s) && CanRun(s, run, adminIds) && !Used(s.invites, code)
    ensures var t := After(s, run, adminIds);
            && (Used(t.invites, code) <==> exists r :: SpentBy(t, code, r))
            && (forall q, r :: SpentBy(t, code, q) && SpentBy(t, code, r) ==> q == r)
            && (forall r :: SpentBy(t, code, r) ==> t.invites[code].usedBy == Some(t.requests[r].reg.id))
  {
    Reached(s, run, adminIds);
  }

  /** Of all the requests with one code only one ever creates a user. */
  lemma OneUserPerCode(s: State, run: seq<Action>, adminIds: set<Id>, q: Req, r: Req)
    requires Initial(s) && CanRun(s, run, adminIds)
    requires var t := After(s, run, adminIds);
             && q in t.requests && t.requests[q].Created? && r in t.requests && t.requests[r].Created?
             && t.requests[q].reg.code == t.requests[r].reg.code
    ensures q == r
  {
    Reached(s, run, adminIds);
  }

  // --- Administrators ---------------------------------------------------------------------------------

  predicate NoRemoval(run: seq<Action>) {
    forall a <- run :: !a.DeleteUser? && !a.SetRole?
  }

  /** At most one user is an administrator without being listed as one, and some user is when there are any. */
  ghost predicate FirstIsAdmin(s: State, adminIds: set<Id>) {
    && (forall id1 <- s.users, id2 <- s.users ::
          id1 !in adminIds && id2 !in adminIds && s.users[id1].role.Admin? && s.users[id2].role.Admin? ==> id1 == id2)
    && (s.users != map[] ==> exists id <- s.users :: s.users[id].role.Admin?)
  }

  lemma InsertKeepsAdmin(s: State, reg: Registration, adminIds: set<Id>, via: Option<Req>, t: State)
    requires FirstIsAdmin(s, adminIds) && reg.id !in s.users
    requires t.users == WithUser(s.users, reg, adminIds, via)
    ensures FirstIsAdmin(t, adminIds)
  {
    if s.users == map[] {
      assert t.users[reg.id].role.Admin?;
    } else {
      var id :| id in s.users && s.users[id].role.Admin?;
      assert t.users[id].role.Admin?;
    }
  }

  /** From an empty system, requests in any order make one administrator who is not listed, or none. */
  lemma {:induction false} OneUnlistedAdmin(s: State, run: seq<Action>, adminIds: set<Id>)
    requires CanRun(s, run, adminIds) && NoRemoval(run) && FirstIsAdmin(s, adminIds)
    ensures FirstIsAdmin(After(s, run, adminIds), adminIds)
    decreases |run|
  {
    if run != [] {
      var a := run[0];
      assert a in run;
      var t := Next(s, a, adminIds);
      if t.users != s.users {
        InsertKeepsAdmin(s, s.requests[a.req].reg, adminIds, if a.CreateUser? then Some(a.req) else None, t);
      }
      OneUnlistedAdmin(t, run[1..], adminIds);
    }
  }

  // --- Setting up twice -------------------------------------------------------------------------------

  /** What finishing a setup does: it does not ask again whether there are users. */
  lemma SetupAddsUser(s: State, req: Req, adminIds: set<Id>)
    requires Enabled(s, FinishSetup(req, true))
    ensures var (reg, t) := (s.requests[req].reg, Next(s, FinishSetup(req, true), adminIds));
            && (t.users != s.users <==> CanInsert(s.users, reg))
            && (t.users != s.users && s.users != map[] && reg.id !in adminIds ==> t.users[reg.id].role.User?)
  {
    var reg, t := s.requests[req].reg, Next(s, FinishSetup(req, true), adminIds);
    if CanInsert(s.users, reg) {
      assert reg.id in t.users && reg.id !in s.users;
    }
  }

  /** The step inserts the user. */
  ghost predicate Inserts(s: State, a: Action, id: Id)
    requires Enabled(s, a)
  {
    && (a.CreateUser? || a.FinishSetup?) && a.ok
    && s.requests[a.req].reg.id == id && CanInsert(s.users, s.requests[a.req].reg)
  }

  /** The run inserts the user and does not delete it after that. */
  ghost predicate Enters(s: State, run: seq<Action>, adminIds: set<Id>, id: Id)
    requires CanRun(s, run, adminIds)
    decreases |run|
  {
    && run != []
    && ((Inserts(s, run[0], id) && DeleteUser(id) !in run[1..])
        || Enters(Next(s, run[0], adminIds), run[1..], adminIds, id))
  }

  /** Who is in the user table, from the history alone. */
  lemma {:induction false} InTable(s: State, run: seq<Action>, adminIds: set<Id>, id: Id)
    requires CanRun(s, run, adminIds)
    ensures id in After(s, run, adminIds).users
            <==> (id in s.users && DeleteUser(id) !in run) || Enters(s, run, adminIds, id)
    decreases |run|
  {
    if run != [] {
      assert run == [run[0]] + run[1..];
      InTable(Next(s, run[0], adminIds), run[1..], adminIds, id);
    }
  }

  ghost predicate SomeoneEnters(s: State, run: seq<Action>, adminIds: set<Id>)
    requires CanRun(s, run, adminIds)
  {
    exists id :: Enters(s, run, adminIds, id)
  }

  lemma AnyInTable(s: State, run: seq<Action>, adminIds: set<Id>)
    requires CanRun(s, run, adminIds) && s.users == map[]
    ensures After(s, run, adminIds).users != map[] <==> SomeoneEnters(s, run, adminIds)
  {
    var t := After(s, run, adminIds);
    if id :| id in t.users {
      InTable(s, run, adminIds, id);
    }
    if id :| Enters(s, run, adminIds, id) {
      InTable(s, run, adminIds, id);
    }
  }

  /**
    A setup that began while there was no user finishes later. If nobody has entered meanwhile, its user
    is the only one, an administrator. It makes one more user exactly when somebody has entered and both
    of its keys are free, and that user is no administrator unless listed.
   */
  lemma SetupAddsSecond(s: State, req: Req, reg: Registration, run: seq<Action>, adminIds: set<Id>)
    requires s.users == map[] && CanRun(s, run, adminIds) && In(After(s, run, adminIds), req, SettingUp(reg))
    ensures var t := After(s, run, adminIds);
            var u := Next(t, FinishSetup(req, true), adminIds);
            && (!SomeoneEnters(s, run, adminIds) ==> u.users == map[reg.id := Account(reg.username, Admin, None)])
            && (t.users != map[] && u.users != t.users <==> SomeoneEnters(s, run, adminIds) && CanInsert(t.users, reg))
            && (t.users != map[] && u.users != t.users && reg.id !in adminIds ==> u.users[reg.id].role.User?)
  {
    AnyInTable(s, run, adminIds);
    SetupAddsUser(After(s, run, adminIds), req, adminIds);
  }

  /** Two setups at once can both succeed, so that a user without a code is there who is not the first. */
  lemma TwoSetups(a: Registration, b: Registration)
    requires a.id != b.id && a.username != b.username
    ensures var s, run := State(map[], map[], map[]), [BeginSetup(0, a), BeginSetup(1, b), FinishSetup(0, true), FinishSetup(1, true)];
            && CanRun(s, run, {})
            && After(s, run, {}).users == map[a.id := Account(a.username, Admin, None), b.id := Account(b.username, User, None)]
  {
    var s := State(map[], map[], map[]);
    var s1 := Next(s, BeginSetup(0, a), {});
    var s2 := Next(s1, BeginSetup(1, b), {});
    var s3 := Next(s2, FinishSetup(0, true), {});
    var s4 := Next(s3, FinishSetup(1, true), {});
    assert s3.users == map[a.id := Account(a.username, Admin, None)];
    assert s4.users == map[a.id := Account(a.username, Admin, None), b.id := Account(b.username, User, None)];
    RunCons(s3, FinishSetup(1, true), [], {});
    assert [FinishSetup(1, true)] + [] == [FinishSetup(1, true)];
    RunCons(s2, FinishSetup(0, true), [FinishSetup(1, true)], {});
    RunCons(s1, BeginSetup(1, b), [FinishSetup(0, true)] + [FinishSetup(1, true)], {});
    RunCons(s, BeginSetup(0, a), [BeginSetup(1, b)] + ([FinishSetup(0, true)] + [FinishSetup(1, true)]), {});
    assert [BeginSetup(0, a)] + ([BeginSetup(1, b)] + ([FinishSetup(0, true)] + [FinishSetup(1, true)])) ==
           [BeginSetup(0, a), BeginSetup(1, b), FinishSetup(0, true), FinishSetup(1, true)];
  }

  lemma RunCons(s: State, a: Action, rest: seq<Action>, adminIds: set<Id>)
    requires Enabled(s, a) && CanRun(Next(s, a, adminIds), rest, adminIds)
    ensures CanRun(s, [a] + rest, adminIds) && After(s, [a] + rest, adminIds) == After(Next(s, a, adminIds), rest, adminIds)
  {
    assert ([a] + rest)[1..] == rest;
  }

  // --- The tables -------------------------------------------------------------------------------------

  /** The statements of the tables as the database runs them; each transaction is one method. */
  class Tables {
    var invites: map<Code, Invite>
    var users: map<Id, Account>

    constructor ()
      ensures invites == map[] && users == map[]
    {
      invites, users := map[], map[];
    }

    method ValidateAndConsumeCode(code: Code, id: Id) returns (consumed: bool)
      modifies this`invites
      ensures consumed == Valid(old(invites), code)
      ensures invites == Consumed(old(invites), code, id)
      ensures consumed ==> Used(invites, code) && invites[code].usedBy == Some(id)
    {
      consumed := code in invites && invites[code].usedBy.None? && !invites[code].revoked;
      if consumed {
        invites := invites[code := invites[code].(usedBy := Some(id))];
      }
    }

    method CreateInviteCode(code: Code, admin: Id)
      modifies this`invites
      ensures invites == Inserted(old(invites), code, Some(admin))
      ensures code in invites && (code !in old(invites) ==> invites[code] == Invite(Some(admin), None, false))
      ensures invites - {code} == old(invites) - {code} && (code in old(invites) ==> invites[code] == old(invites)[code])
    {
      if code !in invites {
        invites := invites[code := Invite(Some(admin), None, false)];
      }
    }

    method RevokeInviteCode(code: Code) returns (revoked: bool)
      modifies this`invites
      ensures revoked == Valid(old(invites), code)
      ensures invites == Revoked(old(invites), code) && !Valid(invites, code)
    {
      revoked := code in invites && invites[code].usedBy.None? && !invites[code].revoked;
      if revoked {
        invites := invites[code := invites[code].(revoked := true)];
      }
    }

    method DeleteInviteCode(code: Code) returns (deleted: bool)
      modifies this`invites
      ensures deleted <==> code in old(invites) && !Used(old(invites), code)
      ensures invites == Deleted(old(invites), code)
      ensures code in invites <==> Used(old(invites), code)
    {
      deleted := code in invites && invites[code].usedBy.None?;
      if deleted {
        invites := invites - {code};
      }
    }

    /** Answers how many codes were new. */
    method SeedInitialCodes(codes: seq<Code>) returns (inserted: nat)
      modifies this`invites
      ensures invites == Seeded(old(invites), codes)
      ensures inserted == |invites| - |old(invites)|
    {
      inserted := 0;
      assert codes[..0] == [];
      for i := 0 to |codes|
        invariant invites == Seeded(old(invites), codes[..i])
        invariant inserted == |invites| - |old(invites)|
      {
        assert codes[..i + 1][..i] == codes[..i];
        var code := Trim(codes[i]);
        if code != "" && code !in invites {
          invites := invites[code := Invite(None, None, false)];
          inserted := inserted + 1;
        }
      }
      assert codes[..|codes|] == codes;
    }

    /** Counts and inserts in one transaction; a taken id or username fails it. */
    method CreateAccount(reg: Registration, adminIds: set<Id>, via: Option<Req>) returns (r: Option<Role>)
      modifies this`users
      ensures r.Some? <==> CanInsert(old(users), reg)
      ensures r.Some? ==> (r.value.Admin? <==> |old(users)| == 0 || reg.id in adminIds)
      ensures r.Some? ==> users == WithUser(old(users), reg, adminIds, via) && users[reg.id].role == r.value
      ensures r.None? ==> users == old(users)
    {
      var role := if |users| == 0 || reg.id in adminIds then Admin else User;
      if reg.id in users || NameTaken(users, reg.username) {
        return None;
      }
      users := users[reg.id := Account(reg.username, role, via)];
      r := Some(role);
    }
  }
}

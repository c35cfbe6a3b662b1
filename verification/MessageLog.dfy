/**
  The append-only `message_logs` table, as the web chat sees it.

  A row's id is its index plus one. Rows of other conversations and other sources share the id
  sequence; they are `Foreign` here. A row of the web chat also says which turn wrote it: that is
  what the attribution theorems talk about, and no operation reads it.
 */
module MessageLog {
  import opened Wrappers

  type UserId = string

  /** A turn is identified by the process that ran it and the slot token it was given there. */
  datatype TurnId = TurnId(epoch: nat, token: nat)

  datatype Role = UserRole | Reply | Notice

  datatype Row = Pwa(user: UserId, role: Role, turn: TurnId) | Foreign

  type Log = seq<Row>

  /** What accepting a message returns: the new row's id and the largest id before it. */
  datatype AcceptedMessage = AcceptedMessage(messageId: nat, sinceId: nat)

  predicate Belongs(r: Row, u: UserId) {
    r.Pwa? && r.user == u
  }

  predicate IsUser(r: Row, u: UserId) {
    Belongs(r, u) && r.role == UserRole
  }

  predicate IsMessage(r: Row) {
    r.Pwa? && r.role == UserRole
  }

  predicate IsAnswer(r: Row, u: UserId) {
    Belongs(r, u) && r.role != UserRole
  }

  /** `COALESCE(MAX(id), 0)` over the rows of one conversation. */
  function MaxId(log: Log, u: UserId): (id: nat)
    ensures id <= |log|
    ensures id > 0 ==> Belongs(log[id - 1], u)
    ensures forall i :: id <= i < |log| ==> !Belongs(log[i], u)
  {
    if log == [] then 0
    else if Belongs(log[|log| - 1], u) then |log|
    else MaxId(log[..|log| - 1], u)
  }

  /** Whether an assistant row with an id above `since` is committed. */
  predicate HasReplyAfter(log: Log, u: UserId, since: nat) {
    exists i :: since <= i < |log| && IsAnswer(log[i], u)
  }

  /** The last row of a conversation. */
  function LastRow(log: Log, u: UserId): (r: Option<Row>)
    ensures r.Some? ==> Belongs(r.value, u)
  {
    if log == [] then None
    else if Belongs(log[|log| - 1], u) then Some(log[|log| - 1])
    else LastRow(log[..|log| - 1], u)
  }

  /** The turn of the most recent user message of a conversation. */
  function LastUser(log: Log, u: UserId): Option<TurnId>
  {
    if log == [] then None
    else if IsUser(log[|log| - 1], u) then Some(log[|log| - 1].turn)
    else LastUser(log[..|log| - 1], u)
  }

  /** A conversation is orphaned when its last row is an unanswered user message. */
  predicate Orphaned(log: Log, u: UserId) {
    LastRow(log, u).Some? && LastRow(log, u).value.role == UserRole
  }

  function Orphans(log: Log): (us: set<UserId>)
    ensures forall u :: u in us <==> Orphaned(log, u)
  {
    var us := set i | 0 <= i < |log| && log[i].Pwa? && Orphaned(log, log[i].user) :: log[i].user;
    assert forall u :: Orphaned(log, u) ==> u in us by {
      forall u | Orphaned(log, u) ensures u in us {
        var i := LastRowAt(log, u);
        assert log[i].user == u;
      }
    }
    us
  }

  lemma LastRowAt(log: Log, u: UserId) returns (i: nat)
    requires LastRow(log, u).Some?
    ensures i < |log| && log[i] == LastRow(log, u).value && Belongs(log[i], u)
    ensures forall j :: i < j < |log| ==> !Belongs(log[j], u)
  {
    if Belongs(log[|log| - 1], u) {
      i := |log| - 1;
    } else {
      i := LastRowAt(log[..|log| - 1], u);
    }
  }

  // --- Attribution --------------------------------------------------------------------------

  /** Every assistant row belongs to the turn of the most recent user message before it. */
  ghost predicate Attributed(log: Log) {
    forall i :: 0 <= i < |log| ==> AttributedAt(log, i)
  }

  ghost predicate AttributedAt(log: Log, i: nat)
    requires i < |log|
  {
    log[i].Pwa? && log[i].role != UserRole ==> LastUser(log[..i], log[i].user) == Some(log[i].turn)
  }

  /** No turn has two user messages. */
  ghost predicate OneMessagePerTurn(log: Log) {
    forall i, j | 0 <= i < j < |log| && IsMessage(log[i]) && IsMessage(log[j]) :: log[i].turn != log[j].turn
  }

  /** The rows of each conversation go user, assistant, user, assistant, ... */
  ghost predicate Alternates(log: Log) {
    forall i :: 0 <= i < |log| ==> AlternatesAt(log, i)
  }

  ghost predicate AlternatesAt(log: Log, i: nat)
    requires i < |log|
  {
    log[i].Pwa? ==> (log[i].role == UserRole <==> !Orphaned(log[..i], log[i].user))
  }

  /** Some assistant row was written by turn `t`. */
  ghost predicate AnsweredBy(log: Log, t: TurnId) {
    exists i :: 0 <= i < |log| && log[i].Pwa? && log[i].role != UserRole && log[i].turn == t
  }

  ghost predicate NoRowsBy(log: Log, t: TurnId) {
    forall i :: 0 <= i < |log| && log[i].Pwa? ==> log[i].turn != t
  }

  // --- Lemmas about appending and dropping ----------------------------------------------------

  lemma Snoc(log: Log, r: Row)
    ensures (log + [r])[..|log|] == log
    ensures forall u :: LastUser(log + [r], u) == if IsUser(r, u) then Some(r.turn) else LastUser(log, u)
    ensures forall u :: LastRow(log + [r], u) == if Belongs(r, u) then Some(r) else LastRow(log, u)
    ensures forall u :: MaxId(log + [r], u) == if Belongs(r, u) then |log| + 1 else MaxId(log, u)
  {
    assert (log + [r])[..|log|] == log;
  }

  /** A row keeps a log attributed exactly when it is no answer or answers the latest message. */
  lemma AttributedSnoc(log: Log, r: Row)
    ensures Attributed(log + [r]) <==>
              Attributed(log) && (r.Pwa? && r.role != UserRole ==> LastUser(log, r.user) == Some(r.turn))
  {
    var l := log + [r];
    forall i | 0 <= i < |log| ensures AttributedAt(l, i) <==> AttributedAt(log, i) {
      assert l[..i] == log[..i];
    }
    assert l[..|log|] == log;
    assert AttributedAt(l, |log|) <==> (r.Pwa? && r.role != UserRole ==> LastUser(log, r.user) == Some(r.turn));
  }

  lemma AttributedPrefix(log: Log, n: nat)
    requires Attributed(log) && n <= |log|
    ensures Attributed(log[..n])
  {
    forall i | 0 <= i < n ensures AttributedAt(log[..n], i) {
      assert log[..n][..i] == log[..i];
      assert AttributedAt(log, i);
    }
  }

  lemma AlternatesSnoc(log: Log, r: Row)
    requires Alternates(log)
    requires r.Pwa? ==> (r.role == UserRole <==> !Orphaned(log, r.user))
    ensures Alternates(log + [r])
  {
    var l := log + [r];
    forall i | 0 <= i < |l| ensures AlternatesAt(l, i) {
      if i < |log| {
        assert l[..i] == log[..i];
        assert AlternatesAt(log, i);
      } else {
        assert l[..i] == log;
      }
    }
  }

  lemma AlternatesPrefix(log: Log, n: nat)
    requires Alternates(log) && n <= |log|
    ensures Alternates(log[..n])
  {
    forall i | 0 <= i < n ensures AlternatesAt(log[..n], i) {
      assert log[..n][..i] == log[..i];
      assert AlternatesAt(log, i);
    }
  }

  /** The most recent user message, as a position. */
  lemma LastUserAt(log: Log, u: UserId) returns (p: nat)
    requires LastUser(log, u).Some?
    ensures p < |log| && IsUser(log[p], u) && log[p].turn == LastUser(log, u).value
    ensures forall i :: p < i < |log| ==> !IsUser(log[i], u)
  {
    if IsUser(log[|log| - 1], u) {
      p := |log| - 1;
    } else {
      p := LastUserAt(log[..|log| - 1], u);
    }
  }

  lemma {:induction false} LastUserBy(log: Log, u: UserId, p: nat)
    requires p < |log| && IsUser(log[p], u)
    requires forall i :: p < i < |log| ==> !IsUser(log[i], u)
    ensures LastUser(log, u) == Some(log[p].turn)
  {
    if p < |log| - 1 {
      LastUserBy(log[..|log| - 1], u, p);
    }
  }

  /** Taking a row out changes nobody's most recent message unless it was that message. */
  lemma {:induction false} DropKeepsLastUser(log: Log, r: Row, rest: seq<Row>, u: UserId)
    requires IsUser(r, u) ==> LastUser(log + [r] + rest, u) != Some(r.turn)
    ensures LastUser(log + rest, u) == LastUser(log + [r] + rest, u)
    decreases |rest|
  {
    var long, short := log + [r] + rest, log + rest;
    if rest == [] {
      Snoc(log, r);
      assert long == log + [r] && short == log;
    } else {
      var init := rest[..|rest| - 1];
      assert long[..|long| - 1] == log + [r] + init;
      assert short[..|short| - 1] == log + init;
      if !IsUser(rest[|rest| - 1], u) {
        DropKeepsLastUser(log, r, init, u);
      }
    }
  }

  lemma AttributedDrop(log: Log, r: Row, rest: seq<Row>)
    requires Attributed(log + [r] + rest)
    requires IsMessage(r) ==> !AnsweredBy(log + [r] + rest, r.turn)
    ensures Attributed(log + rest)
  {
    var long, short := log + [r] + rest, log + rest;
    forall i | 0 <= i < |short| ensures AttributedAt(short, i) {
      if i < |log| {
        assert short[..i] == long[..i];
        assert AttributedAt(long, i);
      } else {
        assert short[i] == long[i + 1];
        assert AttributedAt(long, i + 1);
        assert long[..i + 1] == log + [r] + rest[..i - |log|];
        assert short[..i] == log + rest[..i - |log|];
        if short[i].Pwa? && short[i].role != UserRole {
          DropKeepsLastUser(log, r, rest[..i - |log|], short[i].user);
        }
      }
    }
  }

  lemma OneMessageDrop(log: Log, r: Row, rest: seq<Row>)
    requires OneMessagePerTurn(log + [r] + rest)
    ensures OneMessagePerTurn(log + rest)
  {
    var long, short := log + [r] + rest, log + rest;
    assert forall i :: 0 <= i < |short| ==> short[i] == long[if i < |log| then i else i + 1];
  }

  lemma AnsweredDrop(log: Log, r: Row, rest: seq<Row>, t: TurnId)
    ensures AnsweredBy(log + rest, t) ==> AnsweredBy(log + [r] + rest, t)
  {
    var long, short := log + [r] + rest, log + rest;
    assert forall i :: 0 <= i < |short| ==> short[i] == long[if i < |log| then i else i + 1];
  }

  /** The message `acc` of turn `t` opens the part of the conversation after `acc.sinceId`. */
  ghost predicate Opens(log: Log, u: UserId, t: TurnId, acc: AcceptedMessage) {
    && 0 <= acc.sinceId < acc.messageId <= |log|
    && log[acc.messageId - 1] == Pwa(u, UserRole, t)
    && forall i :: acc.sinceId <= i < acc.messageId - 1 ==> !Belongs(log[i], u)
  }

  /**
    While `t` is the latest turn of its conversation, a reply after its `sinceId` is its own.
    `all` is the log with rows still on their way.
   */
  lemma ReplyAfterIsOwn(log: Log, all: Log, u: UserId, t: TurnId, acc: AcceptedMessage)
    requires log <= all && Attributed(all) && OneMessagePerTurn(all)
    requires LastUser(all, u) == Some(t) && Opens(log, u, t, acc)
    requires HasReplyAfter(log, u, acc.sinceId)
    ensures AnsweredBy(log, t)
  {
    var i :| acc.sinceId <= i < |log| && IsAnswer(log[i], u);
    var at := acc.messageId - 1;
    var p := LastUserAt(all, u);
    assert IsMessage(all[p]) && IsMessage(all[at]);
    assert p == at;
    assert i > at;
    LastUserBy(all[..i], u, at);
    assert AttributedAt(all, i);
  }

  /** While `t` is the latest turn and has answered, its conversation does not end in a message. */
  lemma AnsweredIsNotOrphaned(all: Log, u: UserId, t: TurnId)
    requires Attributed(all) && OneMessagePerTurn(all) && LastUser(all, u) == Some(t)
    requires AnsweredBy(all, t)
    requires forall i :: 0 <= i < |all| && all[i].Pwa? && all[i].turn == t ==> all[i].user == u
    ensures !Orphaned(all, u)
  {
    if Orphaned(all, u) {
      var i :| 0 <= i < |all| && all[i].Pwa? && all[i].role != UserRole && all[i].turn == t;
      assert AttributedAt(all, i);
      var q := LastUserAt(all[..i], u);
      var p := LastRowAt(all, u);
      assert IsMessage(all[q]) && IsMessage(all[p]);
      LastUserBy(all, u, p);
    }
  }

  // --- The recovery sweep's rows ---------------------------------------------------------------

  predicate Distinct(us: seq<UserId>) {
    forall i, j :: 0 <= i < j < |us| ==> us[i] != us[j]
  }

  function NoticeFor(log: Log, u: UserId): Row
    requires Orphaned(log, u)
  {
    Pwa(u, Notice, LastRow(log, u).value.turn)
  }

  /** The rows the recovery sweep writes: each answers the last message of its conversation. */
  function Notices(log: Log, us: seq<UserId>): (rows: seq<Row>)
    requires forall i :: 0 <= i < |us| ==> Orphaned(log, us[i])
    ensures |rows| == |us|
    ensures forall i :: 0 <= i < |us| ==> rows[i] == NoticeFor(log, us[i])
  {
    seq(|us|, i requires 0 <= i < |us| => NoticeFor(log, us[i]))
  }

  /** The last row of an orphaned conversation is its most recent message. */
  lemma OrphanIsLastUser(log: Log, u: UserId)
    requires Orphaned(log, u)
    ensures LastUser(log, u) == Some(LastRow(log, u).value.turn)
    ensures exists i :: 0 <= i < |log| && log[i] == LastRow(log, u).value
  {
    var i := LastRowAt(log, u);
    LastUserBy(log, u, i);
  }

  /** Notices for different conversations can be written one after the other. */
  lemma {:induction false} SweepAppends(log: Log, us: seq<UserId>)
    requires Distinct(us) && forall i :: 0 <= i < |us| ==> Orphaned(log, us[i])
    ensures forall u :: u !in us ==> LastRow(log + Notices(log, us), u) == LastRow(log, u)
    ensures forall u :: LastUser(log + Notices(log, us), u) == LastUser(log, u)
    ensures forall u :: u in us ==> LastRow(log + Notices(log, us), u) == Some(NoticeFor(log, u))
    ensures Attributed(log) ==> Attributed(log + Notices(log, us))
    ensures Alternates(log) ==> Alternates(log + Notices(log, us))
  {
    if us == [] {
      assert log + Notices(log, us) == log;
    } else {
      var init, u := us[..|us| - 1], us[|us| - 1];
      var mid := log + Notices(log, init);
      SweepAppends(log, init);
      assert u !in init;
      assert log + Notices(log, us) == mid + [NoticeFor(log, u)];
      Snoc(mid, NoticeFor(log, u));
      OrphanIsLastUser(log, u);
      if Attributed(log) {
        AttributedSnoc(mid, NoticeFor(log, u));
      }
      if Alternates(log) {
        AlternatesSnoc(mid, NoticeFor(log, u));
      }
    }
  }

  lemma SweptOrphans(log: Log, us: seq<UserId>)
    requires Distinct(us) && forall i :: 0 <= i < |us| ==> Orphaned(log, us[i])
    ensures Orphans(log + Notices(log, us)) == Orphans(log) - set u | u in us
  {
    SweepAppends(log, us);
  }

  lemma {:induction false} CountDistinct(us: seq<UserId>, all: set<UserId>)
    requires Distinct(us) && all == set u | u in us
    ensures |us| == |all|
  {
    if us == [] {
      assert all == {};
    } else {
      var u, init := us[|us| - 1], us[..|us| - 1];
      assert u !in init;
      assert all - {u} == set v | v in init;
      CountDistinct(init, all - {u});
    }
  }
}

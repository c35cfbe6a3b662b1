/** The writes and reads of the message log, and the sweep that runs once before requests are served. */
module Recovery {
  import opened Wrappers
  import opened MessageLog

  /** `ORPHAN_SWEEP_BATCH`. */
  const BATCH := 500

  class MessageDb {
    var rows: Log

    constructor (rows: Log)
      ensures this.rows == rows
    {
      this.rows := rows;
    }

    /** `accept_pwa_user_message`: the largest id and the insert, in one transaction. */
    method AcceptUserMessage(u: UserId, turn: TurnId) returns (acc: AcceptedMessage)
      modifies this
      ensures rows == old(rows) + [Pwa(u, UserRole, turn)]
      ensures acc.messageId == |rows| && acc.sinceId == MaxId(old(rows), u)
      ensures Opens(rows, u, turn, acc)
      ensures !HasReplyAfter(rows, u, acc.sinceId)
    {
      var since := MaxId(rows, u);
      rows := rows + [Pwa(u, UserRole, turn)];
      acc := AcceptedMessage(|rows|, since);
    }

    method HasReply(u: UserId, since: nat) returns (b: bool)
      ensures b == HasReplyAfter(rows, u, since)
    {
      b := exists i :: since <= i < |rows| && IsAnswer(rows[i], u);
    }

    method InsertNotice(u: UserId, turn: TurnId)
      modifies this
      ensures rows == old(rows) + [Pwa(u, Notice, turn)]
    {
      rows := rows + [Pwa(u, Notice, turn)];
    }

    /** The SELECT of one pass: up to `limit` conversations whose last row is a message. */
    method SelectOrphans(limit: nat) returns (batch: seq<UserId>)
      ensures Distinct(batch) && |batch| <= limit
      ensures forall i :: 0 <= i < |batch| ==> Orphaned(rows, batch[i])
      ensures |batch| < limit ==> forall u :: Orphaned(rows, u) ==> u in batch
    {
      batch := [];
      var rest := Orphans(rows);
      while |batch| < limit && rest != {}
        invariant Distinct(batch) && |batch| <= limit
        invariant forall i :: 0 <= i < |batch| ==> Orphaned(rows, batch[i]) && batch[i] !in rest
        invariant forall u <- rest :: Orphaned(rows, u)
        invariant forall u :: Orphaned(rows, u) ==> u in rest || u in batch
        decreases rest
      {
        var u :| u in rest;
        batch, rest := batch + [u], rest - {u};
      }
    }

    /** One transaction: a notice for every selected conversation. */
    method WriteNotices(batch: seq<UserId>)
      requires Distinct(batch) && forall i :: 0 <= i < |batch| ==> Orphaned(rows, batch[i])
      modifies this
      ensures rows == old(rows) + Notices(old(rows), batch)
    {
      ghost var before := rows;
      for i := 0 to |batch|
        invariant rows == before + Notices(before, batch[..i])
      {
        assert batch[..i + 1] == batch[..i] + [batch[i]];
        assert batch[i] !in batch[..i];
        SweepAppends(before, batch[..i]);
        InsertNotice(batch[i], LastRow(rows, batch[i]).value.turn);
      }
      assert batch[..|batch|] == batch;
    }

    /** One pass of the loop, in one transaction. */
    method SweepPass() returns (batch: seq<UserId>)
      modifies this
      ensures Distinct(batch) && |batch| <= BATCH
      ensures forall i :: 0 <= i < |batch| ==> Orphaned(old(rows), batch[i])
      ensures rows == old(rows) + Notices(old(rows), batch)
      ensures |batch| < BATCH ==> Orphans(rows) == {}
      ensures |batch| == BATCH ==> |Orphans(rows)| < |Orphans(old(rows))|
    {
      batch := SelectOrphans(BATCH);
      SweptOrphans(rows, batch);
      ghost var pending := Orphans(rows);
      WriteNotices(batch);
      if |batch| == BATCH {
        assert batch[0] in pending && batch[0] !in Orphans(rows);
        SmallerSet(Orphans(rows), pending);
      }
    }

    /**
      `fail_orphaned_pwa_turns`. `failing` is the pass whose transaction fails, if one does. `swept`
      lists the conversations that got their notice.
     */
    method FailOrphanedTurns(failing: Option<nat>) returns (r: Result<nat, ()>, ghost swept: seq<UserId>)
      modifies this
      ensures Distinct(swept) && forall i :: 0 <= i < |swept| ==> Orphaned(old(rows), swept[i])
      ensures rows == old(rows) + Notices(old(rows), swept)
      ensures r.Ok? ==> r.value == |swept| == |Orphans(old(rows))| && Orphans(rows) == {}
      ensures r.Err? ==> failing.Some? && |swept| == BATCH * failing.value
    {
      var total, pass := 0, 0;
      swept := [];
      assert rows == rows + Notices(rows, swept);
      while true
        invariant Distinct(swept) && forall i :: 0 <= i < |swept| ==> Orphaned(old(rows), swept[i])
        invariant rows == old(rows) + Notices(old(rows), swept)
        invariant total == |swept| == BATCH * pass
        decreases |Orphans(rows)|
      {
        if failing == Some(pass) {
          return Err(()), swept;
        }
        var batch := SweepPass();
        SweepJoins(old(rows), swept, batch);
        swept := swept + batch;
        total := total + |batch|;
        if |batch| < BATCH {
          SweptEverything(old(rows), swept);
          return Ok(total), swept;
        }
        pass := pass + 1;
      }
    }
  }

  /** When nobody is left, the notices went to exactly the orphans. */
  lemma SweptEverything(log: Log, us: seq<UserId>)
    requires Distinct(us) && forall i :: 0 <= i < |us| ==> Orphaned(log, us[i])
    requires Orphans(log + Notices(log, us)) == {}
    ensures |us| == |Orphans(log)|
  {
    SweptOrphans(log, us);
    var left := Orphans(log + Notices(log, us));
    assert forall u :: u in Orphans(log) && u !in us ==> u in left;
    assert Orphans(log) == set u | u in us;
    CountDistinct(us, Orphans(log));
  }

  lemma SmallerSet<T>(a: set<T>, b: set<T>)
    requires a < b
    ensures |a| < |b|
  {
    var d := b - a;
    assert b == a + d && a !! d && d != {};
  }

  /** Two passes of the sweep write what one pass over both batches would. */
  lemma SweepJoins(log: Log, first: seq<UserId>, second: seq<UserId>)
    requires Distinct(first) && forall i :: 0 <= i < |first| ==> Orphaned(log, first[i])
    requires Distinct(second) && forall i :: 0 <= i < |second| ==> Orphaned(log + Notices(log, first), second[i])
    ensures Distinct(first + second)
    ensures forall i :: 0 <= i < |first + second| ==> Orphaned(log, (first + second)[i])
    ensures log + Notices(log, first) + Notices(log + Notices(log, first), second) == log + Notices(log, first + second)
  {
    var mid := log + Notices(log, first);
    SweepAppends(log, first);
    forall i | 0 <= i < |second|
      ensures second[i] !in first && Orphaned(log, second[i]) && NoticeFor(mid, second[i]) == NoticeFor(log, second[i])
    {
      AnsweredNow(log, first, second[i]);
    }
  }

  lemma AnsweredNow(log: Log, us: seq<UserId>, u: UserId)
    requires Distinct(us) && forall i :: 0 <= i < |us| ==> Orphaned(log, us[i])
    requires Orphaned(log + Notices(log, us), u)
    ensures u !in us && LastRow(log + Notices(log, us), u) == LastRow(log, u)
  {
    SweepAppends(log, us);
  }
}

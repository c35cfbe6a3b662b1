/** Crashes: slots, turns and queued transactions are lost, the log stays, and the sweep runs next. */
module ChatRecovery {
  import opened Wrappers
  import opened MessageLog
  import opened InFlight
  import opened ChatProtocol
  import opened ChatInvariant
  import opened ChatTheorems
  import opened ChatAlternation

  ghost predicate EverythingAnswered(log: Log) {
    forall p, u :: 0 <= p < |log| && IsUser(log[p], u) ==> HasReplyAfter(log, u, p + 1)
  }

  function Restarted(s: State, us: seq<UserId>): State
    requires Enabled(s, Crash) && Enabled(Next(s, Crash), Sweep(us))
  {
    Next(Next(s, Crash), Sweep(us))
  }

  /**
    Whatever step the process crashes after, once the sweep is through every message that was ever
    committed has an answer, no committed row is lost, and answers still belong to the message before.
   */
  lemma RestartAnswersEverything(s: State, us: seq<UserId>)
    requires Reachable(s) && Enabled(s, Crash) && Enabled(Next(s, Crash), Sweep(us))
    requires forall u :: Orphaned(s.log, u) ==> u in us
    ensures EverythingAnswered(Restarted(s, us).log)
    ensures s.log <= Restarted(s, us).log && |Restarted(s, us).log| == |s.log| + |Orphans(s.log)|
    ensures Reachable(Restarted(s, us)) && Attributed(Restarted(s, us).log)
  {
    var s1, s2 := Next(s, Crash), Restarted(s, us);
    ReachStep(s, Crash);
    ReachStep(s1, Sweep(us));
    EveryAnswerBelongsToLatestMessage(s2);
    SweepAppends(s.log, us);
    SweptOrphans(s.log, us);
    forall p, u | 0 <= p < |s2.log| && IsUser(s2.log[p], u) ensures HasReplyAfter(s2.log, u, p + 1) {
      assert u !in Orphans(s2.log);
      SettledIsAnswered(s2.log, u, p);
    }
    assert Orphans(s.log) == set u | u in us;
    CountDistinct(us, Orphans(s.log));
  }

  /**
    A client whose message was committed before the crash stops polling after it, whether or not its
    turn was still at work: there is an answer above the `sinceId` it was given.
   */
  lemma RestartEndsPolling(s: State, us: seq<UserId>, u: UserId, p: nat)
    requires Reachable(s) && Enabled(s, Crash) && Enabled(Next(s, Crash), Sweep(us))
    requires forall v :: Orphaned(s.log, v) ==> v in us
    requires p < |s.log| && IsUser(s.log[p], u)
    ensures HasReplyAfter(Restarted(s, us).log, u, MaxId(s.log[..p], u))
  {
    var s2 := Restarted(s, us);
    RestartAnswersEverything(s, us);
    assert s2.log[p] == s.log[p];
    assert HasReplyAfter(s2.log, u, p + 1);
    var i :| p + 1 <= i < |s2.log| && IsAnswer(s2.log[i], u);
  }

  /** The sweep has nothing left to do after itself. */
  lemma SweepIsIdempotent(log: Log, us: seq<UserId>)
    requires Distinct(us) && forall i :: 0 <= i < |us| ==> Orphaned(log, us[i])
    requires forall u :: Orphaned(log, u) ==> u in us
    ensures forall u :: !Orphaned(log + Notices(log, us), u)
    ensures forall u :: |Answers(log + Notices(log, us), u)| ==
                        |Answers(log, u)| + if Orphaned(log, u) then 1 else 0
  {
    SweptOrphans(log, us);
    forall u ensures !Orphaned(log + Notices(log, us), u) {
      assert u !in Orphans(log + Notices(log, us));
    }
    forall u ensures |Answers(log + Notices(log, us), u)| == |Answers(log, u)| + if Orphaned(log, u) then 1 else 0 {
      AnswersAfterSweep(log, us, u);
    }
  }

  /** The assistant rows of one conversation. */
  ghost function Answers(log: Log, u: UserId): seq<Row> {
    if log == [] then []
    else Answers(log[..|log| - 1], u) + if IsAnswer(log[|log| - 1], u) then [log[|log| - 1]] else []
  }

  lemma {:induction false} AnswersAfterSweep(log: Log, us: seq<UserId>, u: UserId)
    requires Distinct(us) && forall i :: 0 <= i < |us| ==> Orphaned(log, us[i])
    ensures |Answers(log + Notices(log, us), u)| == |Answers(log, u)| + if u in us then 1 else 0
  {
    if us == [] {
      assert log + Notices(log, us) == log;
    } else {
      var init, v := us[..|us| - 1], us[|us| - 1];
      var long, mid := log + Notices(log, us), log + Notices(log, init);
      assert v !in init;
      assert long == mid + [NoticeFor(log, v)];
      assert long[..|long| - 1] == mid;
      assert us == init + [v];
      AnswersAfterSweep(log, init, u);
    }
  }

  /**
    Why the sweep must not run while requests are served: a turn at work that owns its slot has its
    conversation swept, so when its reply comes the conversation no longer alternates.
   */
  lemma SweepWhileServingAnswersTwice(s: State, t: nat, us: seq<UserId>)
    requires Reachable(s) && InPhase(s, t, Running) && s.queue == [] && s.turns[t].user in us
    requires Distinct(us) && forall i :: 0 <= i < |us| ==> Orphaned(s.log, us[i])
    ensures var swept := s.log + Notices(s.log, us);
            && AnsweredBy(swept, Id(s, t))
            && !Alternates(swept + [Pwa(s.turns[t].user, Reply, Id(s, t))])
  {
    var u, id, swept := s.turns[t].user, Id(s, t), s.log + Notices(s.log, us);
    ReachableInv(s);
    assert All(s) == s.log;
    UnansweredOwns(s, t);
    OrphanIsLastUser(s.log, u);
    var i :| 0 <= i < |us| && us[i] == u;
    assert swept[|s.log| + i] == NoticeFor(s.log, u) == Pwa(u, Notice, id);
    SweptOrphans(s.log, us);
    assert u !in Orphans(swept);
    var log := swept + [Pwa(u, Reply, id)];
    assert log[..|swept|] == swept && !AlternatesAt(log, |swept|);
  }
}

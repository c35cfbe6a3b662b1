/**
  The one-shot guard with a time to live: of the claims of one key only the first within the time to
  live is granted. Expired entries stay in the map until a claim finds more than 2000 in it.
 */
module Dedup {

  type Key = (string, string)

  const SWEEP_THRESHOLD := 2000

  // --- The guard as a function ------------------------------------------------------------------------

  function Retained(seen: map<Key, int>, now: int): map<Key, int> {
    map k | k in seen && seen[k] > now :: seen[k]
  }

  function Swept(seen: map<Key, int>, now: int): map<Key, int> {
    if |seen| > SWEEP_THRESHOLD then Retained(seen, now) else seen
  }

  function Claim(seen: map<Key, int>, ttl: nat, key: Key, now: int): (bool, map<Key, int>) {
    var swept := Swept(seen, now);
    if key in swept && swept[key] > now then (false, swept) else (true, swept[key := now + ttl])
  }

  // --- Runs -------------------------------------------------------------------------------------------

  datatype Call = Call(key: Key, at: int, granted: bool)

  function After(calls: seq<Call>, ttl: nat): map<Key, int> {
    if calls == [] then map[]
    else Claim(After(calls[..|calls| - 1], ttl), ttl, calls[|calls| - 1].key, calls[|calls| - 1].at).1
  }

  ghost predicate Answered(calls: seq<Call>, ttl: nat) {
    calls == [] ||
    (var last := calls[|calls| - 1];
     && Answered(calls[..|calls| - 1], ttl)
     && last.granted == Claim(After(calls[..|calls| - 1], ttl), ttl, last.key, last.at).0)
  }

  ghost predicate Monotone(calls: seq<Call>) {
    forall i, j :: 0 <= i < j < |calls| ==> calls[i].at <= calls[j].at
  }

  /** An earlier grant of the key has not run out. */
  ghost predicate Holds(calls: seq<Call>, ttl: nat, key: Key, now: int) {
    exists i :: 0 <= i < |calls| && calls[i].granted && calls[i].key == key && now < calls[i].at + ttl
  }

  /** What the map says of a key at a time is what the whole history says of it, swept or not. */
  lemma {:induction false} MapIsHistory(calls: seq<Call>, ttl: nat, key: Key, now: int)
    requires Answered(calls, ttl) && Monotone(calls)
    requires calls != [] ==> calls[|calls| - 1].at <= now
    ensures (key in After(calls, ttl) && now < After(calls, ttl)[key]) <==> Holds(calls, ttl, key, now)
  {
    if calls != [] {
      var n := |calls| - 1;
      var last := calls[n];
      assert n > 0 ==> calls[n - 1].at <= last.at;
      MapIsHistory(calls[..n], ttl, key, now);
      HoldsStep(calls, ttl, key, now);
      if last.key == key && last.granted {
        MapIsHistory(calls[..n], ttl, key, last.at);
      }
    }
  }

  lemma HoldsStep(calls: seq<Call>, ttl: nat, key: Key, now: int)
    requires calls != []
    ensures var last := calls[|calls| - 1];
            Holds(calls, ttl, key, now) <==>
              Holds(calls[..|calls| - 1], ttl, key, now) || (last.granted && last.key == key && now < last.at + ttl)
  {
    var n := |calls| - 1;
    if Holds(calls, ttl, key, now) {
      var i :| 0 <= i < |calls| && calls[i].granted && calls[i].key == key && now < calls[i].at + ttl;
      if i < n {
        assert calls[..n][i] == calls[i];
      }
    }
    if Holds(calls[..n], ttl, key, now) {
      var i :| 0 <= i < n && calls[..n][i].granted && calls[..n][i].key == key && now < calls[..n][i].at + ttl;
      assert calls[i] == calls[..n][i];
    }
  }

  lemma {:induction false} AnsweredPrefix(calls: seq<Call>, ttl: nat, n: nat)
    requires Answered(calls, ttl) && n <= |calls|
    ensures Answered(calls[..n], ttl)
  {
    if n < |calls| {
      AnsweredPrefix(calls[..|calls| - 1], ttl, n);
      assert calls[..|calls| - 1][..n] == calls[..n];
    } else {
      assert calls[..n] == calls;
    }
  }

  /** A claim is granted exactly when every earlier grant of its key is at least the time to live ago. */
  lemma GrantedIff(calls: seq<Call>, ttl: nat, j: nat)
    requires Answered(calls, ttl) && Monotone(calls) && j < |calls|
    ensures calls[j].granted <==>
              forall i :: 0 <= i < j && calls[i].granted && calls[i].key == calls[j].key ==> calls[i].at + ttl <= calls[j].at
  {
    var past, now := calls[..j], calls[j].at;
    AnsweredPrefix(calls, ttl, j + 1);
    assert calls[..j + 1][..j] == past;
    AnsweredPrefix(calls, ttl, j);
    MapIsHistory(past, ttl, calls[j].key, now);
    SweptSame(After(past, ttl), now, calls[j].key);
    assert forall i :: 0 <= i < j ==> past[i] == calls[i];
    if Holds(past, ttl, calls[j].key, now) {
      var i :| 0 <= i < |past| && past[i].granted && past[i].key == calls[j].key && now < past[i].at + ttl;
      assert calls[i].granted && calls[i].key == calls[j].key;
    }
  }

  /** Sweeping does not change what the map says of a key now. */
  lemma SweptSame(seen: map<Key, int>, now: int, key: Key)
    ensures (key in Swept(seen, now) && now < Swept(seen, now)[key]) <==> (key in seen && now < seen[key])
  {
  }

  /** Two grants of one key are at least the time to live apart. */
  lemma GrantsApart(calls: seq<Call>, ttl: nat, i: nat, j: nat)
    requires Answered(calls, ttl) && Monotone(calls) && i < j < |calls|
    requires calls[i].granted && calls[j].granted && calls[i].key == calls[j].key
    ensures calls[i].at + ttl <= calls[j].at
  {
    GrantedIff(calls, ttl, j);
  }

  /** Where sweeping matters: a sweep leaves only grants that have not run out. */
  lemma MapIsSmall(calls: seq<Call>, ttl: nat)
    ensures |After(calls, ttl)| <= SWEEP_THRESHOLD + 1 ||
            forall k <- After(calls, ttl) :: After(calls, ttl)[k] > calls[|calls| - 1].at || k == calls[|calls| - 1].key
  {
    if calls != [] {
      var seen, last := After(calls[..|calls| - 1], ttl), calls[|calls| - 1];
      if |seen| <= SWEEP_THRESHOLD {
        assert After(calls, ttl).Keys == seen.Keys || After(calls, ttl).Keys == seen.Keys + {last.key};
      }
    }
  }

  // --- The guard --------------------------------------------------------------------------------------

  class MessageDedup {
    const ttl: nat
    var seen: map<Key, int>
    /** A thread has panicked while it held the mutex. */
    var poisoned: bool

    constructor (ttl: nat)
      ensures this.ttl == ttl && seen == map[] && !poisoned
    {
      this.ttl := ttl;
      seen, poisoned := map[], false;
    }

    method ClaimAt(keyA: string, keyB: string, now: int) returns (granted: bool)
      modifies this`seen
      ensures !poisoned ==> (granted, seen) == Claim(old(seen), ttl, (keyA, keyB), now)
      ensures poisoned ==> granted && seen == old(seen)
    {
      if poisoned {
        return true;
      }
      if |seen| > SWEEP_THRESHOLD {
        seen := map k | k in seen && seen[k] > now :: seen[k];
      }
      var key := (keyA, keyB);
      if key in seen && seen[key] > now {
        return false;
      }
      seen := seen[key := now + ttl];
      granted := true;
    }
  }
}

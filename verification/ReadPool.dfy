/**
  The read pool: reads borrow connections under a semaphore and give them back.

  Any number of reads are interleaved, one step at a time: getting a permit, taking an idle
  connection, opening one, the closure ending, putting the connection back, dropping the permit. A
  read can be cancelled wherever it awaits. A closure that is already running then keeps its
  connection until it ends, but not the permit: its read is `Detached`.
 */
module ReadPool {
  import opened Wrappers

  type Conn = nat
  type Id = nat

  datatype Phase =
    | Waiting
    | Acquired
    | Opening
    | Running(conn: Conn)
    | Returning(conn: Conn)
    | Leaving
    | Detached(conn: Conn)
    | Done

  /** `nextConn` numbers the connections in the order they are opened. */
  datatype Pool = Pool(permits: int, idle: seq<Conn>, readers: map<Id, Phase>, nextConn: nat)

  datatype Action =
    | Call(id: Id)
    | Acquire(id: Id)
    | Pop(id: Id)
    | Open(id: Id, ok: bool)
    | Finish(id: Id)
    | Panic(id: Id)
    | Push(id: Id)
    | Leave(id: Id)
    | Cancel(id: Id)
    | EndDetached(id: Id)

  /** At least one. */
  function Size(size: nat): (n: nat)
    ensures n >= 1 && n >= size && (size >= 1 ==> n == size)
  {
    if size < 1 then 1 else size
  }

  /** `open_with_size`: one connection is opened at once. */
  function Init(size: nat): Pool {
    Pool(Size(size), [0], map[], 1)
  }

  predicate In(p: Pool, id: Id, phase: Phase) {
    id in p.readers && p.readers[id] == phase
  }

  predicate HasConn(phase: Phase) {
    phase.Running? || phase.Returning? || phase.Detached?
  }

  predicate HoldsPermit(phase: Phase) {
    phase.Acquired? || phase.Opening? || phase.Running? || phase.Returning? || phase.Leaving?
  }

  /** In use, or about to be opened, under a permit. */
  predicate Borrows(phase: Phase) {
    phase.Opening? || phase.Running? || phase.Returning?
  }

  predicate Enabled(p: Pool, a: Action) {
    match a
    case Call(id) => id !in p.readers
    case Acquire(id) => In(p, id, Waiting) && p.permits > 0
    case Pop(id) => In(p, id, Acquired)
    case Open(id, _) => In(p, id, Opening)
    case Finish(id) => id in p.readers && p.readers[id].Running?
    case Panic(id) => id in p.readers && p.readers[id].Running?
    case Push(id) => id in p.readers && p.readers[id].Returning?
    case Leave(id) => In(p, id, Leaving)
    case Cancel(id) => id in p.readers && (p.readers[id].Waiting? || p.readers[id].Acquired? || p.readers[id].Running? || p.readers[id].Returning?)
    case EndDetached(id) => id in p.readers && p.readers[id].Detached?
  }

  function To(p: Pool, id: Id, phase: Phase): Pool {
    p.(readers := p.readers[id := phase])
  }

  function Next(p: Pool, a: Action): Pool
    requires Enabled(p, a)
  {
    match a
    case Call(id) => To(p, id, Waiting)
    case Acquire(id) => To(p, id, Acquired).(permits := p.permits - 1)
    case Pop(id) =>
      if p.idle == [] then To(p, id, Opening)
      else To(p, id, Running(p.idle[|p.idle| - 1])).(idle := p.idle[..|p.idle| - 1])
    case Open(id, ok) =>
      if ok then To(p, id, Running(p.nextConn)).(nextConn := p.nextConn + 1) else To(p, id, Leaving)
    case Finish(id) => To(p, id, Returning(p.readers[id].conn))
    case Panic(id) => To(p, id, Leaving)
    case Push(id) => To(p, id, Leaving).(idle := p.idle + [p.readers[id].conn])
    case Leave(id) => To(p, id, Done).(permits := p.permits + 1)
    case Cancel(id) =>
      (match p.readers[id]
       case Waiting => To(p, id, Done)
       case Running(conn) => To(p, id, Detached(conn)).(permits := p.permits + 1)
       case _ => To(p, id, Done).(permits := p.permits + 1))
    case EndDetached(id) => To(p, id, Done)
  }

  ghost predicate CanRun(p: Pool, run: seq<Action>)
    decreases |run|
  {
    run != [] ==> Enabled(p, run[0]) && CanRun(Next(p, run[0]), run[1..])
  }

  function After(p: Pool, run: seq<Action>): Pool
    requires CanRun(p, run)
    decreases |run|
  {
    if run == [] then p else After(Next(p, run[0]), run[1..])
  }

  // --- Counting reads by phase ------------------------------------------------------------------------

  function Holders(p: Pool): set<Id> {
    set id | id in p.readers && HoldsPermit(p.readers[id])
  }

  function Borrowers(p: Pool): set<Id> {
    set id | id in p.readers && Borrows(p.readers[id])
  }

  function DetachedReads(p: Pool): set<Id> {
    set id | id in p.readers && p.readers[id].Detached?
  }

  /** Connections that are open or about to be: idle, borrowed, and kept by detached closures. */
  function Connections(p: Pool): nat {
    |p.idle| + |Borrowers(p)| + |DetachedReads(p)|
  }

  // --- The invariant ----------------------------------------------------------------------------------

  ghost predicate Counted(p: Pool, size: nat) {
    && p.permits >= 0
    && p.permits + |Holders(p)| == size
    && |p.idle| + |Borrowers(p)| <= size
  }

  /** No connection is in two places at once. */
  ghost predicate Exclusive(p: Pool) {
    && (forall i, j :: 0 <= i < j < |p.idle| ==> p.idle[i] != p.idle[j])
    && (forall c <- p.idle :: c < p.nextConn)
    && (forall id <- p.readers :: HasConn(p.readers[id]) ==> p.readers[id].conn < p.nextConn && p.readers[id].conn !in p.idle)
    && (forall id1 <- p.readers, id2 <- p.readers ::
          id1 != id2 && HasConn(p.readers[id1]) && HasConn(p.readers[id2]) ==> p.readers[id1].conn != p.readers[id2].conn)
  }

  ghost predicate Inv(p: Pool, size: nat) {
    Counted(p, size) && Exclusive(p)
  }

  function Bit(b: bool): int {
    if b then 1 else 0
  }

  lemma WithAndWithout(s: set<Id>, id: Id)
    ensures |s| == |s - {id}| + Bit(id in s)
  {
    if id in s {
      assert s == (s - {id}) + {id};
    } else {
      assert s == s - {id};
    }
  }

  lemma OneMember(before: set<Id>, after: set<Id>, id: Id)
    requires before - {id} == after - {id}
    ensures |after| == |before| + Bit(id in after) - Bit(id in before)
  {
    WithAndWithout(before, id);
    WithAndWithout(after, id);
  }

  lemma OneMoves(p: Pool, q: Pool, id: Id, phase: Phase)
    requires q.readers == p.readers[id := phase]
    ensures |Holders(q)| == |Holders(p)| + Bit(HoldsPermit(phase)) - Bit(id in Holders(p))
    ensures |Borrowers(q)| == |Borrowers(p)| + Bit(Borrows(phase)) - Bit(id in Borrowers(p))
  {
    OneMember(Holders(p), Holders(q), id);
    OneMember(Borrowers(p), Borrowers(q), id);
  }

  /** Who borrows holds a permit. */
  lemma BorrowersHold(p: Pool)
    ensures Borrowers(p) <= Holders(p)
    ensures |Borrowers(p)| <= |Holders(p)|
  {
    Subset(Borrowers(p), Holders(p));
  }

  lemma Subset(a: set<Id>, b: set<Id>)
    requires a <= b
    ensures |a| <= |b|
  {
    assert b == a + (b - a);
  }

  lemma StepKeepsCounted(p: Pool, a: Action, size: nat)
    requires Counted(p, size) && Enabled(p, a)
    ensures Counted(Next(p, a), size)
  {
    var q := Next(p, a);
    var phase := NextPhase(p, a);
    OneMoves(p, q, a.id, phase);
    BorrowersHold(q);
    assert a.id in Holders(p) <==> a.id in p.readers && HoldsPermit(p.readers[a.id]);
    assert a.id in Borrowers(p) <==> a.id in p.readers && Borrows(p.readers[a.id]);
  }

  /** The phase a step takes its read to. */
  function NextPhase(p: Pool, a: Action): (phase: Phase)
    requires Enabled(p, a)
    ensures Next(p, a).readers == p.readers[a.id := phase]
  {
    Next(p, a).readers[a.id]
  }

  lemma StepKeepsExclusive(p: Pool, a: Action)
    requires Exclusive(p) && Enabled(p, a)
    ensures Exclusive(Next(p, a))
  {
    match a
    case Pop(id) => if p.idle != [] { TakesIdle(p, id); } else { KeepsOrDrops(p, id, Opening, p.permits); }
    case Open(id, ok) => if ok { TakesNew(p, id); } else { KeepsOrDrops(p, id, Leaving, p.permits); }
    case Push(id) => GivesBack(p, id);
    case _ => KeepsOrDrops(p, a.id, NextPhase(p, a), Next(p, a).permits);
  }

  /** A read that ends up without a connection, or with the one it had. */
  lemma KeepsOrDrops(p: Pool, id: Id, phase: Phase, permits: int)
    requires Exclusive(p)
    requires HasConn(phase) ==> id in p.readers && HasConn(p.readers[id]) && p.readers[id].conn == phase.conn
    ensures Exclusive(To(p, id, phase).(permits := permits))
  {
  }

  lemma TakesIdle(p: Pool, id: Id)
    requires Exclusive(p) && p.idle != []
    ensures Exclusive(To(p, id, Running(p.idle[|p.idle| - 1])).(idle := p.idle[..|p.idle| - 1]))
  {
    var rest := p.idle[..|p.idle| - 1];
    assert forall c <- rest :: c in p.idle;
    assert p.idle[|p.idle| - 1] !in rest && p.idle[|p.idle| - 1] in p.idle;
  }

  lemma TakesNew(p: Pool, id: Id)
    requires Exclusive(p)
    ensures Exclusive(To(p, id, Running(p.nextConn)).(nextConn := p.nextConn + 1))
  {
  }

  lemma GivesBack(p: Pool, id: Id)
    requires Exclusive(p) && id in p.readers && HasConn(p.readers[id])
    ensures Exclusive(To(p, id, Leaving).(idle := p.idle + [p.readers[id].conn]))
  {
  }

  lemma {:induction false} RunKeeps(p: Pool, run: seq<Action>, size: nat)
    requires Inv(p, size) && CanRun(p, run)
    ensures Inv(After(p, run), size)
    decreases |run|
  {
    if run != [] {
      StepKeepsCounted(p, run[0], size);
      StepKeepsExclusive(p, run[0]);
      RunKeeps(Next(p, run[0]), run[1..], size);
    }
  }

  // --- Main results -----------------------------------------------------------------------------------

  lemma Reached(size: nat, run: seq<Action>)
    requires CanRun(Init(size), run)
    ensures Inv(After(Init(size), run), Size(size))
  {
    RunKeeps(Init(size), run, Size(size));
  }

  /**
    In every interleaving there are at most `size` connections, but for those that cancelled reads
    left to closures that are still running.
   */
  lemma ConnectionsBounded(size: nat, run: seq<Action>)
    requires CanRun(Init(size), run)
    ensures var p := After(Init(size), run);
            Connections(p) <= Size(size) + |DetachedReads(p)|
  {
    Reached(size, run);
  }

  /** No read is cancelled while its closure runs; cancelling it earlier or later is harmless. */
  ghost predicate Uncut(p: Pool, run: seq<Action>)
    requires CanRun(p, run)
    decreases |run|
  {
    run != [] ==> !(run[0].Cancel? && p.readers[run[0].id].Running?) && Uncut(Next(p, run[0]), run[1..])
  }

  lemma {:induction false} NoneDetached(p: Pool, run: seq<Action>)
    requires CanRun(p, run) && Uncut(p, run) && DetachedReads(p) == {}
    ensures DetachedReads(After(p, run)) == {}
    decreases |run|
  {
    if run != [] {
      var q := Next(p, run[0]);
      assert forall id <- q.readers :: q.readers[id].Detached? ==> id in DetachedReads(p);
      NoneDetached(q, run[1..]);
    }
  }

  /**
    If no running closure is cancelled there are never more than `size` connections, whatever fails or
    panics.
   */
  lemma NeverMoreThanSize(size: nat, run: seq<Action>)
    requires CanRun(Init(size), run) && Uncut(Init(size), run)
    ensures Connections(After(Init(size), run)) <= Size(size)
  {
    ConnectionsBounded(size, run);
    NoneDetached(Init(size), run);
  }

  // --- The bound is exact -----------------------------------------------------------------------------

  function Leavers(p: Pool): set<Id> {
    set id | id in p.readers && p.readers[id].Leaving?
  }

  function Arrivals(p: Pool): set<Id> {
    set id | id in p.readers && p.readers[id].Acquired?
  }

  lemma FreshId(m: map<Id, Phase>) returns (id: Id)
    ensures id !in m
  {
    id := 0;
    var left := m.Keys;
    while id in m
      invariant forall k <- m.Keys :: k < id || k in left
      decreases left
    {
      left := left - {id};
      id := id + 1;
    }
  }

  lemma RunCons(p: Pool, a: Action, rest: seq<Action>)
    requires Enabled(p, a) && CanRun(Next(p, a), rest)
    ensures CanRun(p, [a] + rest) && After(p, [a] + rest) == After(Next(p, a), rest)
    ensures Uncut(Next(p, a), rest) && !a.Cancel? ==> Uncut(p, [a] + rest)
  {
    assert ([a] + rest)[1..] == rest;
  }

  /** A read that leaves, or takes or opens a connection, brings the pool nearer to being full. */
  lemma FillStep(p: Pool, a: Action)
    requires Enabled(p, a) && (a.Leave? || a.Pop? || a.Call? || a.Acquire?)
    ensures DetachedReads(Next(p, a)) == DetachedReads(p)
    ensures Leavers(Next(p, a)) == Leavers(p) - (if a.Leave? then {a.id} else {})
    ensures a.Pop? ==> Arrivals(Next(p, a)) == Arrivals(p) - {a.id}
  {
  }

  /** From any state the reads can go on until every permit is held by a read with a connection. */
  lemma {:induction false} Fill(p: Pool, size: nat) returns (run: seq<Action>)
    requires Counted(p, size)
    ensures CanRun(p, run) && Uncut(p, run)
    ensures |Borrowers(After(p, run))| == size && DetachedReads(After(p, run)) == DetachedReads(p)
    decreases Leavers(p), p.permits, Arrivals(p), 0
  {
    if Leavers(p) != {} {
      var id :| id in Leavers(p);
      FillStep(p, Leave(id));
      run := FillFrom(p, Leave(id), size);
    } else if Arrivals(p) != {} {
      var id :| id in Arrivals(p);
      FillStep(p, Pop(id));
      run := FillFrom(p, Pop(id), size);
    } else if p.permits > 0 {
      var id := FreshId(p.readers);
      var q := Next(p, Call(id));
      FillStep(p, Call(id));
      FillStep(q, Acquire(id));
      StepKeepsCounted(p, Call(id), size);
      run := FillFrom(q, Acquire(id), size);
      RunCons(p, Call(id), run);
      run := [Call(id)] + run;
    } else {
      run := [];
      assert Holders(p) == Borrowers(p) + Leavers(p) + Arrivals(p);
    }
  }

  lemma {:induction false} FillFrom(p: Pool, a: Action, size: nat) returns (run: seq<Action>)
    requires Counted(p, size) && Enabled(p, a) && (a.Leave? || a.Pop? || a.Acquire?)
    ensures CanRun(p, run) && Uncut(p, run)
    ensures |Borrowers(After(p, run))| == size && DetachedReads(After(p, run)) == DetachedReads(p)
    decreases Leavers(Next(p, a)), Next(p, a).permits, Arrivals(Next(p, a)), 1
  {
    FillStep(p, a);
    StepKeepsCounted(p, a, size);
    run := Fill(Next(p, a), size);
    RunCons(p, a, run);
    run := [a] + run;
  }

  /** From any state the pool can come to have `size` connections and all the detached ones besides. */
  lemma DetachedCountExtra(p: Pool, size: nat)
    requires Inv(p, size)
    ensures exists run :: CanRun(p, run) && Uncut(p, run) && Connections(After(p, run)) == size + |DetachedReads(p)|
  {
    var run := Fill(p, size);
    RunKeeps(p, run, size);
  }

  /**
    The pool keeps to its size from now on, as long as no further running closure is cancelled, if and
    only if no closure of a cancelled read is still running.
   */
  lemma KeepsToSizeIff(p: Pool, size: nat)
    requires Inv(p, size)
    ensures DetachedReads(p) == {} <==>
              forall run :: CanRun(p, run) && Uncut(p, run) ==> Connections(After(p, run)) <= size
  {
    if DetachedReads(p) == {} {
      forall run | CanRun(p, run) && Uncut(p, run) ensures Connections(After(p, run)) <= size {
        RunKeeps(p, run, size);
        NoneDetached(p, run);
      }
    } else {
      DetachedCountExtra(p, size);
    }
  }

  // --- More about reads -------------------------------------------------------------------------------

  /** No connection is used by two reads, or by a read while it is idle. */
  lemma ConnectionsExclusive(size: nat, run: seq<Action>, id1: Id, id2: Id)
    requires CanRun(Init(size), run)
    requires var p := After(Init(size), run);
             && id1 in p.readers && id2 in p.readers && HasConn(p.readers[id1]) && HasConn(p.readers[id2])
    ensures var p := After(Init(size), run);
            && p.readers[id1].conn !in p.idle
            && (p.readers[id1].conn == p.readers[id2].conn ==> id1 == id2)
  {
    Reached(size, run);
  }

  /** When no read is under way all permits are back, however the reads ended. */
  lemma PermitsComeBack(size: nat, run: seq<Action>)
    requires CanRun(Init(size), run)
    requires forall id <- After(Init(size), run).readers :: !HoldsPermit(After(Init(size), run).readers[id])
    ensures After(Init(size), run).permits == Size(size)
  {
    Reached(size, run);
    assert Holders(After(Init(size), run)) == {};
  }

  /** A read has to wait only while `size` others hold a permit. */
  lemma WaitsOnlyWhenFull(size: nat, run: seq<Action>, id: Id)
    requires CanRun(Init(size), run) && In(After(Init(size), run), id, Waiting)
    ensures Enabled(After(Init(size), run), Acquire(id)) <==> |Holders(After(Init(size), run))| < Size(size)
  {
    Reached(size, run);
  }

  // --- No connection is forgotten ---------------------------------------------------------------------

  /** Reads that have a connection. */
  function ConnHolders(p: Pool): set<Id> {
    set id | id in p.readers && HasConn(p.readers[id])
  }

  /** The step closes a connection: its closure panics or has been cut off, or giving it back is cancelled. */
  predicate Closes(p: Pool, a: Action)
    requires Enabled(p, a)
  {
    a.Panic? || a.EndDetached? || (a.Cancel? && p.readers[a.id].Returning?)
  }

  ghost function Closed(p: Pool, run: seq<Action>): nat
    requires CanRun(p, run)
    decreases |run|
  {
    if run == [] then 0 else Bit(Closes(p, run[0])) + Closed(Next(p, run[0]), run[1..])
  }

  lemma StepConserves(p: Pool, a: Action)
    requires Enabled(p, a)
    ensures var q := Next(p, a);
            q.nextConn - |q.idle| - |ConnHolders(q)| == p.nextConn - |p.idle| - |ConnHolders(p)| + Bit(Closes(p, a))
  {
    var q := Next(p, a);
    OneMember(ConnHolders(p), ConnHolders(q), a.id);
    assert a.id in ConnHolders(p) <==> a.id in p.readers && HasConn(p.readers[a.id]);
    assert a.id in ConnHolders(q) <==> HasConn(NextPhase(p, a));
  }

  lemma {:induction false} RunConserves(p: Pool, run: seq<Action>)
    requires CanRun(p, run)
    ensures var q := After(p, run);
            q.nextConn - |q.idle| - |ConnHolders(q)| == p.nextConn - |p.idle| - |ConnHolders(p)| + Closed(p, run)
    decreases |run|
  {
    if run != [] {
      StepConserves(p, run[0]);
      RunConserves(Next(p, run[0]), run[1..]);
    }
  }

  /**
    Every connection ever opened is idle, with a read, or closed; and it is closed only by a panic, by the
    end of a closure that was cut off, or by a cancellation while it is given back.
   */
  lemma ConnectionsConserved(size: nat, run: seq<Action>)
    requires CanRun(Init(size), run)
    ensures var p := After(Init(size), run);
            p.nextConn == |p.idle| + |ConnHolders(p)| + Closed(Init(size), run)
  {
    RunConserves(Init(size), run);
    assert ConnHolders(Init(size)) == {};
  }

  /** A cancelled read is over, but for a closure that runs on without a permit; its permit is back. */
  lemma CancelledIsOver(p: Pool, id: Id)
    requires Enabled(p, Cancel(id))
    ensures var q := Next(p, Cancel(id));
            && (if p.readers[id].Running? then q.readers[id] == Detached(p.readers[id].conn) else q.readers[id] == Done)
            && q.permits == p.permits + Bit(HoldsPermit(p.readers[id])) && q.idle == p.idle
            && q.readers - {id} == p.readers - {id}
  {
  }

  const CANCELLED: seq<Action> := [Call(0), Acquire(0), Pop(0), Cancel(0)]
  const AFTERWARDS: seq<Action> := [Call(1), Acquire(1), Pop(1), Open(1, true)]

  lemma FourSteps(p: Pool, a1: Action, a2: Action, a3: Action, a4: Action, rest: seq<Action>)
    requires Enabled(p, a1) && Enabled(Next(p, a1), a2) && Enabled(Next(Next(p, a1), a2), a3)
    requires Enabled(Next(Next(Next(p, a1), a2), a3), a4)
    requires CanRun(Next(Next(Next(Next(p, a1), a2), a3), a4), rest)
    ensures CanRun(p, [a1, a2, a3, a4] + rest)
    ensures After(p, [a1, a2, a3, a4] + rest) == After(Next(Next(Next(Next(p, a1), a2), a3), a4), rest)
  {
    var p1 := Next(p, a1);
    var p2 := Next(p1, a2);
    var p3 := Next(p2, a3);
    RunCons(p3, a4, rest);
    RunCons(p2, a3, [a4] + rest);
    RunCons(p1, a2, [a3] + ([a4] + rest));
    RunCons(p, a1, [a2] + ([a3] + ([a4] + rest)));
    assert [a1] + ([a2] + ([a3] + ([a4] + rest))) == [a1, a2, a3, a4] + rest;
  }

  const CANCELLED_POOL := Pool(1, [], map[0 := Detached(0)], 1)
  const CROWDED_POOL := Pool(0, [], map[0 := Detached(0), 1 := Running(1)], 2)

  /** With cancellations the bound of `size` is exceeded: a detached closure keeps its connection. */
  lemma CancelledReadKeepsConnection()
    ensures CanRun(Init(1), CANCELLED + AFTERWARDS)
    ensures Connections(After(Init(1), CANCELLED + AFTERWARDS)) == 2 > Size(1)
  {
    OpensAnother();
    ReadIsCancelled(AFTERWARDS);
    assert Borrowers(CROWDED_POOL) == {1} && DetachedReads(CROWDED_POOL) == {0};
  }

  lemma ReadIsCancelled(rest: seq<Action>)
    requires CanRun(CANCELLED_POOL, rest)
    ensures CanRun(Init(1), CANCELLED + rest) && After(Init(1), CANCELLED + rest) == After(CANCELLED_POOL, rest)
  {
    var p2 := Next(Next(Init(1), Call(0)), Acquire(0));
    assert p2 == Pool(0, [0], map[0 := Acquired], 1);
    assert Next(Next(p2, Pop(0)), Cancel(0)) == CANCELLED_POOL;
    FourSteps(Init(1), Call(0), Acquire(0), Pop(0), Cancel(0), rest);
  }

  lemma OpensAnother()
    ensures CanRun(CANCELLED_POOL, AFTERWARDS) && After(CANCELLED_POOL, AFTERWARDS) == CROWDED_POOL
  {
    var p2 := Next(Next(CANCELLED_POOL, Call(1)), Acquire(1));
    assert p2 == Pool(0, [], map[0 := Detached(0), 1 := Acquired], 1);
    assert Next(Next(p2, Pop(1)), Open(1, true)) == CROWDED_POOL;
    FourSteps(CANCELLED_POOL, Call(1), Acquire(1), Pop(1), Open(1, true), []);
    assert AFTERWARDS + [] == AFTERWARDS;
  }

  // --- The pool itself --------------------------------------------------------------------------------

  /** The shared state; each method is one step of one read. */
  class SharedPool {
    var permits: int
    var idle: seq<Conn>
    var readers: map<Id, Phase>
    var nextConn: nat

    ghost function Value(): Pool
      reads this
    {
      Pool(permits, idle, readers, nextConn)
    }

    constructor (size: nat)
      ensures Value() == Init(size)
    {
      permits := if size < 1 then 1 else size;
      idle, nextConn := [0], 1;
      readers := map[];
    }

    method AcquirePermit(id: Id)
      requires Enabled(Value(), Acquire(id))
      modifies this
      ensures Value() == Next(old(Value()), Acquire(id))
    {
      permits := permits - 1;
      readers := readers[id := Acquired];
    }

    method PopIdle(id: Id) returns (conn: Option<Conn>)
      requires Enabled(Value(), Pop(id))
      modifies this
      ensures Value() == Next(old(Value()), Pop(id))
      ensures conn == if old(idle) == [] then None else Some(old(idle)[|old(idle)| - 1])
    {
      if idle == [] {
        readers := readers[id := Opening];
        return None;
      }
      conn := Some(idle[|idle| - 1]);
      idle := idle[..|idle| - 1];
      readers := readers[id := Running(conn.value)];
    }

    method OpenConn(id: Id, ok: bool) returns (conn: Option<Conn>)
      requires Enabled(Value(), Open(id, ok))
      modifies this
      ensures Value() == Next(old(Value()), Open(id, ok))
      ensures conn == if ok then Some(old(nextConn)) else None
    {
      if !ok {
        readers := readers[id := Leaving];
        return None;
      }
      conn := Some(nextConn);
      nextConn := nextConn + 1;
      readers := readers[id := Running(conn.value)];
    }

    method PushIdle(id: Id, conn: Conn)
      requires Enabled(Value(), Push(id)) && readers[id].conn == conn
      modifies this
      ensures Value() == Next(old(Value()), Push(id))
    {
      idle := idle + [conn];
      readers := readers[id := Leaving];
    }

    method DropPermit(id: Id)
      requires Enabled(Value(), Leave(id))
      modifies this
      ensures Value() == Next(old(Value()), Leave(id))
    {
      permits := permits + 1;
      readers := readers[id := Done];
    }

    method TakeConn(id: Id, opens: bool) returns (conn: Option<Conn>)
      requires In(Value(), id, Acquired)
      modifies this
      ensures permits == old(permits)
      ensures if old(idle) != [] then conn == Some(old(idle)[|old(idle)| - 1]) && idle == old(idle)[..|old(idle)| - 1]
              else idle == [] && conn == if opens then Some(old(nextConn)) else None
      ensures readers == old(readers)[id := if conn.Some? then Running(conn.value) else Leaving]
    {
      conn := PopIdle(id);
      if conn.None? {
        conn := OpenConn(id, opens);
      }
    }

    /**
      A read that nothing interleaves with. It leaves the permits as they were, and the connection it
      used on top of the idle ones, unless the open failed or the closure panicked.
     */
    method Read(id: Id, opens: bool, panics: bool)
      requires Enabled(Value(), Acquire(id))
      modifies this
      ensures permits == old(permits) && readers == old(readers)[id := Done]
      ensures old(idle) != [] && !panics ==> idle == old(idle)
      ensures old(idle) != [] && panics ==> idle == old(idle)[..|old(idle)| - 1]
      ensures old(idle) == [] ==> idle == if opens && !panics then [old(nextConn)] else []
    {
      AcquirePermit(id);
      var conn := TakeConn(id, opens);
      if conn.Some? {
        if panics {
          readers := readers[id := Leaving];
        } else {
          readers := readers[id := Returning(conn.value)];
          PushIdle(id, conn.value);
        }
      }
      DropPermit(id);
    }
  }
}

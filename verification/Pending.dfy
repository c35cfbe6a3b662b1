/**
  Registrations that wait for their one-time code: at most five wrong codes, ten minutes, one success.

  Times are nanoseconds of one clock that never goes back. `draws` are the random four-byte buffers
  the generator yields before it fails.
 */
module Pending {
  import opened Wrappers

  type Id = string
  type Bytes = seq<bv8>

  const TTL := 10 * 60 * 1_000_000_000
  const MAX_ATTEMPTS := 5

  datatype Registration = Registration(username: string, password: string, geminiApiKey: string, inviteCode: string)

  datatype Entry = Entry(reg: Registration, code: Bytes, expiresAt: int, attempts: nat)

  type Entries = map<Id, Entry>

  datatype Outcome = Created | Verified(reg: Registration) | NotFound | Expired | TooManyAttempts | CodeMismatch

  // --- Constant-time equality -------------------------------------------------------------------------

  /** `ct_eq`: no early exit, and true exactly on equal byte strings. */
  method CtEq(a: Bytes, b: Bytes) returns (equal: bool)
    ensures equal <==> a == b
  {
    if |a| != |b| {
      return false;
    }
    var diff: bv8 := 0;
    for i := 0 to |a|
      invariant diff == 0 <==> a[..i] == b[..i]
    {
      assert a[..i + 1] == a[..i] + [a[i]] && b[..i + 1] == b[..i] + [b[i]];
      diff := diff | (a[i] ^ b[i]);
    }
    assert a[..|a|] == a && b[..|b|] == b;
    equal := diff == 0;
  }

  // --- One-time codes ---------------------------------------------------------------------------------

  const BOUND := 1_000_000
  const U32_MAX := 0xFFFF_FFFF
  const LIMIT := U32_MAX - U32_MAX % BOUND

  type Byte = x: int | 0 <= x < 256
  datatype Buffer = Buffer(b0: Byte, b1: Byte, b2: Byte, b3: Byte)

  function FromLe(b: Buffer): int {
    b.b0 + 256 * (b.b1 + 256 * (b.b2 + 256 * b.b3))
  }

  /** The buffers that are not rejected and give this code. */
  ghost predicate Gives(b: Buffer, r: int) {
    FromLe(b) < LIMIT && FromLe(b) % BOUND == r
  }

  /** The first draw under the limit is draw `i`, and gives `v`. */
  ghost predicate FirstGives(draws: seq<Buffer>, i: nat, v: int) {
    i < |draws| && Gives(draws[i], v) && forall j :: 0 <= j < i ==> FromLe(draws[j]) >= LIMIT
  }

  /** `uniform_below_million`: the first draw under the limit decides. */
  method UniformBelowMillion(draws: seq<Buffer>) returns (r: Option<int>)
    ensures r.None? <==> forall i :: 0 <= i < |draws| ==> FromLe(draws[i]) >= LIMIT
    ensures r.Some? ==> exists i :: FirstGives(draws, i, r.value)
    ensures r.Some? ==> 0 <= r.value < BOUND
  {
    var i := 0;
    while i < |draws|
      invariant 0 <= i <= |draws|
      invariant forall j :: 0 <= j < i ==> FromLe(draws[j]) >= LIMIT
    {
      var v := FromLe(draws[i]);
      if v < LIMIT {
        assert FirstGives(draws, i, v % BOUND);
        return Some(v % BOUND);
      }
      i := i + 1;
    }
    return None;
  }

  function ToLe(v: int): (b: Buffer)
    requires 0 <= v <= U32_MAX
    ensures FromLe(b) == v
  {
    var high := v / 256;
    var higher := high / 256;
    Buffer(v % 256, high % 256, higher % 256, higher / 256)
  }

  lemma FromLeInjective(a: Buffer, b: Buffer)
    requires FromLe(a) == FromLe(b)
    ensures a == b
  {
    LowByte(a.b0, a.b1 + 256 * (a.b2 + 256 * a.b3), b.b0, b.b1 + 256 * (b.b2 + 256 * b.b3));
    LowByte(a.b1, a.b2 + 256 * a.b3, b.b1, b.b2 + 256 * b.b3);
    LowByte(a.b2, a.b3, b.b2, b.b3);
  }

  lemma LowByte(x: Byte, p: int, y: Byte, q: int)
    requires x + 256 * p == y + 256 * q
    ensures x == y && p == q
  {
  }

  lemma SameBuffer(a: Buffer, b: Buffer)
    ensures a == b <==> FromLe(a) == FromLe(b)
  {
    if FromLe(a) == FromLe(b) {
      FromLeInjective(a, b);
    }
  }

  lemma LimitIs()
    ensures LIMIT == 4294 * BOUND
  {
    assert U32_MAX == 4294 * BOUND + 967295;
  }

  /** The first `n` buffers, in the order of their values, that give the code `r`. */
  function Multiples(r: int, n: nat): set<Buffer>
    requires 0 <= r < BOUND && n <= 4294
  {
    if n == 0 then {} else Multiples(r, n - 1) + {ToLe((n - 1) * BOUND + r)}
  }

  /** Below `n` times the bound, the last number with this residue is the `n`-th. */
  lemma NextMultiple(v: int, r: int, n: int)
    requires 0 <= r < BOUND && n > 0
    ensures v < n * BOUND && v % BOUND == r <==> (v < (n - 1) * BOUND && v % BOUND == r) || v == (n - 1) * BOUND + r
  {
    var q := v / BOUND;
    assert v == q * BOUND + v % BOUND;
  }

  lemma {:induction false} MultiplesAre(r: int, n: nat)
    requires 0 <= r < BOUND && n <= 4294
    ensures |Multiples(r, n)| == n
    ensures forall b: Buffer :: b in Multiples(r, n) <==> FromLe(b) < n * BOUND && FromLe(b) % BOUND == r
  {
    if n > 0 {
      MultiplesAre(r, n - 1);
      var last := ToLe((n - 1) * BOUND + r);
      forall b: Buffer ensures b in Multiples(r, n) <==> FromLe(b) < n * BOUND && FromLe(b) % BOUND == r {
        NextMultiple(FromLe(b), r, n);
        SameBuffer(b, last);
      }
      assert last !in Multiples(r, n - 1);
    }
  }

  /** Every code is given by exactly 4294 of the accepted buffers: none is likelier than another. */
  lemma EveryCodeEquallyLikely(r: int)
    requires 0 <= r < BOUND
    ensures |Multiples(r, 4294)| == 4294
    ensures forall b: Buffer :: b in Multiples(r, 4294) <==> Gives(b, r)
  {
    MultiplesAre(r, 4294);
    LimitIs();
  }

  const DIGITS: seq<bv8> := [48, 49, 50, 51, 52, 53, 54, 55, 56, 57]

  function Pow10(n: nat): int {
    if n == 0 then 1 else 10 * Pow10(n - 1)
  }

  /** The last `n` decimal digits with leading zeros, as bytes. */
  function Format(v: int, n: nat): (code: Bytes)
    requires v >= 0
    ensures |code| == n
  {
    if n == 0 then [] else Format(v / 10, n - 1) + [DIGITS[v % 10]]
  }

  /** The number that decimal digits stand for. */
  function Decimal(code: Bytes): int {
    if code == [] then 0 else 10 * Decimal(code[..|code| - 1]) + code[|code| - 1] as int - 48
  }

  lemma {:induction false} FormatIsDecimal(v: int, n: nat)
    requires 0 <= v < Pow10(n)
    ensures Decimal(Format(v, n)) == v && forall d <- Format(v, n) :: 48 <= d <= 57
  {
    if n > 0 {
      FormatIsDecimal(v / 10, n - 1);
      assert Format(v, n)[..n - 1] == Format(v / 10, n - 1);
    }
  }

  /** A code is the number in six decimal digits. */
  lemma CodeIsNumber(v: int)
    requires 0 <= v < BOUND
    ensures |Format(v, 6)| == 6 && Decimal(Format(v, 6)) == v && forall d <- Format(v, 6) :: 48 <= d <= 57
  {
    assert Pow10(6) == BOUND by {
      assert Pow10(3) == 1000;
    }
    FormatIsDecimal(v, 6);
  }

  /** The code is that of the first draw under the limit, the low byte first, in six digits. */
  ghost predicate CodeOfDraw(draws: seq<Buffer>, i: nat, code: Bytes) {
    && i < |draws| && FromLe(draws[i]) < LIMIT && (forall j :: 0 <= j < i ==> FromLe(draws[j]) >= LIMIT)
    && |code| == 6 && (forall d <- code :: 48 <= d <= 57)
    && Decimal(code) == (draws[i].b0 + 0x100 * draws[i].b1 + 0x1_0000 * draws[i].b2 + 0x100_0000 * draws[i].b3) % BOUND
  }

  lemma DrawnCode(draws: seq<Buffer>, v: int)
    requires 0 <= v < BOUND && exists i :: FirstGives(draws, i, v)
    ensures exists i :: CodeOfDraw(draws, i, Format(v, 6))
  {
    CodeIsNumber(v);
    var i :| FirstGives(draws, i, v);
    assert CodeOfDraw(draws, i, Format(v, 6));
  }

  /** Different numbers have different codes. */
  lemma {:induction false} FormatInjective(v: int, w: int, n: nat)
    requires 0 <= v < Pow10(n) && 0 <= w < Pow10(n) && Format(v, n) == Format(w, n)
    ensures v == w
  {
    if n > 0 {
      var a, b := Format(v, n), Format(w, n);
      assert a[..n - 1] == Format(v / 10, n - 1) && b[..n - 1] == Format(w / 10, n - 1);
      assert a[n - 1] == DIGITS[v % 10] && b[n - 1] == DIGITS[w % 10];
      FormatInjective(v / 10, w / 10, n - 1);
    }
  }

  /** The codes are exactly as many as the numbers under the bound. */
  lemma CodesDiffer(v: int, w: int)
    requires 0 <= v < BOUND && 0 <= w < BOUND
    ensures Format(v, 6) == Format(w, 6) <==> v == w
  {
    assert Pow10(6) == BOUND by {
      assert Pow10(3) == 1000;
    }
    if Format(v, 6) == Format(w, 6) {
      FormatInjective(v, w, 6);
    }
  }

  // --- The operations as functions --------------------------------------------------------------------

  function Retained(m: Entries, now: int): Entries {
    map id | id in m && m[id].expiresAt > now :: m[id]
  }

  /** `madeAt` is when the entry was made, `now` when it is stored. */
  function DoCreate(m: Entries, now: int, id: Id, reg: Registration, code: Bytes, madeAt: int): Entries {
    Retained(m, now)[id := Entry(reg, code, madeAt + TTL, 0)]
  }

  function DoVerify(m: Entries, now: int, id: Id, code: Bytes): (Outcome, Entries) {
    if id !in m then (NotFound, m)
    else if m[id].expiresAt <= now then (Expired, m - {id})
    else if m[id].attempts >= MAX_ATTEMPTS then (TooManyAttempts, m - {id})
    else if m[id].code == code then (Verified(m[id].reg), m - {id})
    else (CodeMismatch, m[id := m[id].(attempts := m[id].attempts + 1)])
  }

  datatype Event =
    | Create(id: Id, reg: Registration, code: Bytes, madeAt: int)
    | Verify(id: Id, guess: Bytes)

  datatype Step = Step(at: int, event: Event, out: Outcome)

  function Do(m: Entries, now: int, event: Event): (Outcome, Entries) {
    match event
    case Create(id, reg, code, madeAt) => (Created, DoCreate(m, now, id, reg, code, madeAt))
    case Verify(id, guess) => DoVerify(m, now, id, guess)
  }

  // --- Runs -------------------------------------------------------------------------------------------

  function After(run: seq<Step>): Entries {
    if run == [] then map[]
    else Do(After(run[..|run| - 1]), run[|run| - 1].at, run[|run| - 1].event).1
  }

  /** Every step answered what the store answers. */
  ghost predicate Run(run: seq<Step>) {
    run == [] ||
    (&& Run(run[..|run| - 1])
     && run[|run| - 1].out == Do(After(run[..|run| - 1]), run[|run| - 1].at, run[|run| - 1].event).0)
  }

  /** Step `i` is the last to create an entry for the id. */
  ghost predicate LastCreate(run: seq<Step>, i: nat, id: Id) {
    && i < |run| && run[i].event.Create? && run[i].event.id == id
    && forall j :: i < j < |run| ==> !(run[j].event.Create? && run[j].event.id == id)
  }

  /** Step `j` uses up the entry of the id, or sweeps it away when it has expired. */
  ghost predicate Removes(run: seq<Step>, j: nat, id: Id, expiresAt: int)
    requires j < |run|
  {
    match run[j].event
    case Verify(id', _) => id' == id && (run[j].out.Verified? || run[j].out.Expired? || run[j].out.TooManyAttempts?)
    case Create(_, _, _, _) => expiresAt <= run[j].at
  }

  ghost predicate Removed(run: seq<Step>, i: nat, id: Id, expiresAt: int) {
    exists j :: i < j < |run| && Removes(run, j, id, expiresAt)
  }

  /** How many wrong codes have been compared with the id's current entry. */
  function Wrong(run: seq<Step>, id: Id): nat {
    if run == [] then 0
    else
      var last := run[|run| - 1];
      if last.event.id != id then Wrong(run[..|run| - 1], id)
      else if last.event.Create? then 0
      else Wrong(run[..|run| - 1], id) + if last.out == CodeMismatch then 1 else 0
  }

  lemma {:induction false} RunPrefix(run: seq<Step>, n: nat)
    requires Run(run) && n <= |run|
    ensures Run(run[..n])
  {
    if n < |run| {
      RunPrefix(run[..|run| - 1], n);
      assert run[..|run| - 1][..n] == run[..n];
    } else {
      assert run[..n] == run;
    }
  }

  /** What the store holds for an id, told from the history. */
  ghost predicate Tells(run: seq<Step>, i: nat, id: Id, m: Entries)
    requires LastCreate(run, i, id)
  {
    var made := run[i].event;
    && (id in m <==> !Removed(run, i, id, made.madeAt + TTL))
    && (id in m ==> m[id] == Entry(made.reg, made.code, made.madeAt + TTL, Wrong(run, id)))
  }

  lemma RemovedStep(run: seq<Step>, i: nat, id: Id, expiresAt: int)
    requires i < |run| - 1
    ensures Removed(run, i, id, expiresAt) <==>
              Removed(run[..|run| - 1], i, id, expiresAt) || Removes(run, |run| - 1, id, expiresAt)
  {
    var n := |run| - 1;
    assert forall j :: 0 <= j < n ==> (Removes(run[..n], j, id, expiresAt) <==> Removes(run, j, id, expiresAt));
  }

  /** One step, seen from one id. */
  lemma StepFate(m: Entries, now: int, event: Event, id: Id)
    requires !(event.Create? && event.id == id)
    ensures var (out, next) := Do(m, now, event);
            var removed := if event.Create? then id in m && m[id].expiresAt <= now
                           else event.id == id && (out.Verified? || out.Expired? || out.TooManyAttempts?);
            && (id in next <==> id in m && !removed)
            && (id in next ==> next[id] == m[id].(attempts :=
                 m[id].attempts + if event.id == id && out == CodeMismatch then 1 else 0))
  {
  }

  lemma {:induction false} StoreTells(run: seq<Step>, i: nat, id: Id)
    requires Run(run) && LastCreate(run, i, id)
    ensures Tells(run, i, id, After(run))
  {
    var n := |run| - 1;
    if i < n {
      var made := run[i].event;
      StoreTells(run[..n], i, id);
      RemovedStep(run, i, id, made.madeAt + TTL);
      StepFate(After(run[..n]), run[n].at, run[n].event, id);
    }
  }

  lemma {:induction false} NeverCreated(run: seq<Step>, id: Id)
    requires forall j :: 0 <= j < |run| ==> !(run[j].event.Create? && run[j].event.id == id)
    ensures id !in After(run)
  {
    if run != [] {
      NeverCreated(run[..|run| - 1], id);
      StepFate(After(run[..|run| - 1]), run[|run| - 1].at, run[|run| - 1].event, id);
    }
  }

  // --- Main results -----------------------------------------------------------------------------------

  /** The answer to a code, told from the history alone. */
  ghost predicate VerifyMeans(run: seq<Step>, i: nat, id: Id, guess: Bytes, at: int, out: Outcome)
    requires LastCreate(run, i, id)
  {
    var made := run[i].event;
    if Removed(run, i, id, made.madeAt + TTL) then out == NotFound
    else if made.madeAt + TTL <= at then out == Expired
    else if Wrong(run, id) >= MAX_ATTEMPTS then out == TooManyAttempts
    else if made.code == guess then out == Verified(made.reg)
    else out == CodeMismatch
  }

  /** A code is answered by its history: used up, expired, too many wrong ones before it, right, or wrong. */
  lemma VerifyOutcome(run: seq<Step>, i: nat, id: Id, guess: Bytes, at: int, out: Outcome)
    requires Run(run + [Step(at, Verify(id, guess), out)]) && LastCreate(run, i, id)
    ensures VerifyMeans(run, i, id, guess, at, out)
  {
    var all := run + [Step(at, Verify(id, guess), out)];
    assert all[..|all| - 1] == run;
    StoreTells(run, i, id);
  }

  /** Without an entry ever made for the id there is nothing to verify. */
  lemma VerifyUnknown(run: seq<Step>, id: Id, guess: Bytes, at: int, out: Outcome)
    requires Run(run + [Step(at, Verify(id, guess), out)])
    requires forall j :: 0 <= j < |run| ==> !(run[j].event.Create? && run[j].event.id == id)
    ensures out == NotFound
  {
    var all := run + [Step(at, Verify(id, guess), out)];
    assert all[..|all| - 1] == run;
    NeverCreated(run, id);
  }

  lemma {:induction false} WrongIsAttempts(run: seq<Step>, id: Id)
    requires Run(run)
    ensures id in After(run) ==> After(run)[id].attempts == Wrong(run, id)
    ensures Wrong(run, id) <= MAX_ATTEMPTS
  {
    if run != [] {
      var n := |run| - 1;
      WrongIsAttempts(run[..n], id);
      if !(run[n].event.Create? && run[n].event.id == id) {
        StepFate(After(run[..n]), run[n].at, run[n].event, id);
      }
    }
  }

  /** No more than five wrong codes are compared with one entry. */
  lemma AtMostFiveWrong(run: seq<Step>, id: Id)
    requires Run(run)
    ensures Wrong(run, id) <= 5
  {
    WrongIsAttempts(run, id);
  }

  /** Between two successes of one id a new entry was made for it. */
  lemma OneSuccessPerEntry(run: seq<Step>, e: nat, f: nat, id: Id)
    requires Run(run) && e < f < |run|
    requires run[e].event.Verify? && run[e].event.id == id && run[e].out.Verified?
    requires run[f].event.Verify? && run[f].event.id == id && run[f].out.Verified?
    ensures exists j :: e < j < f && run[j].event.Create? && run[j].event.id == id
  {
    StepAt(run, e);
    StepAt(run, f);
    assert id !in After(run[..e + 1]) && id in After(run[..f]);
    if forall j :: e < j < f ==> !(run[j].event.Create? && run[j].event.id == id) {
      GoneStays(run, e, f, id);
    }
  }

  lemma StepAt(run: seq<Step>, k: nat)
    requires Run(run) && k < |run|
    ensures (run[k].out, After(run[..k + 1])) == Do(After(run[..k]), run[k].at, run[k].event)
  {
    RunPrefix(run, k + 1);
    assert run[..k + 1][..k] == run[..k];
  }

  /** A used entry does not come back by itself. */
  lemma {:induction false} GoneStays(run: seq<Step>, e: nat, f: nat, id: Id)
    requires e < f <= |run| && id !in After(run[..e + 1])
    requires forall j :: e < j < f ==> !(run[j].event.Create? && run[j].event.id == id)
    ensures id !in After(run[..f])
    decreases f
  {
    if e + 1 < f {
      GoneStays(run, e, f - 1, id);
      assert run[..f][..f - 1] == run[..f - 1];
      StepFate(After(run[..f - 1]), run[f - 1].at, run[f - 1].event, id);
    }
  }

  // --- The store --------------------------------------------------------------------------------------

  class PendingStore {
    var inner: Entries

    constructor ()
      ensures inner == map[]
    {
      inner := map[];
    }

    /** Answers the code that is sent to the user; `None` when no random number could be drawn. */
    method CreatePending(id: Id, reg: Registration, draws: seq<Buffer>, madeAt: int, now: int) returns (code: Option<Bytes>)
      modifies this
      ensures code.None? <==> forall i :: 0 <= i < |draws| ==> FromLe(draws[i]) >= LIMIT
      ensures code.None? ==> inner == old(inner)
      ensures code.Some? ==> inner == DoCreate(old(inner), now, id, reg, code.value, madeAt)
      ensures code.Some? ==> exists i :: CodeOfDraw(draws, i, code.value)
      ensures code.Some? ==> id in inner && inner[id] == Entry(reg, code.value, madeAt + TTL, 0)
    {
      var v := UniformBelowMillion(draws);
      if v.None? { return None; }
      DrawnCode(draws, v.value);
      var text := Format(v.value, 6);
      inner := map k | k in inner && inner[k].expiresAt > now :: inner[k];
      inner := inner[id := Entry(reg, text, madeAt + TTL, 0)];
      code := Some(text);
    }

    method VerifyCode(id: Id, guess: Bytes, now: int) returns (out: Outcome)
      modifies this
      ensures (out, inner) == DoVerify(old(inner), now, id, guess)
    {
      if id !in inner { return NotFound; }
      var entry := inner[id];
      if entry.expiresAt <= now {
        inner := inner - {id};
        return Expired;
      }
      if entry.attempts >= MAX_ATTEMPTS {
        inner := inner - {id};
        return TooManyAttempts;
      }
      var equal := CtEq(entry.code, guess);
      if equal {
        inner := inner - {id};
        return Verified(entry.reg);
      }
      inner := inner[id := entry.(attempts := entry.attempts + 1)];
      out := CodeMismatch;
    }
  }
}

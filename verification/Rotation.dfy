/**
  Rotating the encryption secret: every encrypted column triple is decrypted with the old key and
  encrypted with the new one, in one transaction.

  A statement of the transaction may fail; `fails` says which. Rows are found again by their key
  columns, as the UPDATE does.
 */
module Rotation {
  import opened Wrappers
  import opened Crypto

  datatype Value = Null | Integer(n: int) | Text(s: string) | Blob(b: Bytes)

  type Row = map<string, Value>
  type Table = seq<Row>
  type Database = map<string, Table>

  datatype Spec = Spec(table: string, keys: seq<string>, enc: string, iv: string, tag: string, userScopedBy: Option<string>)

  const ENCRYPTED_COLUMNS: seq<Spec> := [
    Spec("users", ["discord_id"],
         "gemini_api_key_encrypted", "gemini_api_key_iv", "gemini_api_key_tag", None),
    Spec("users", ["discord_id"],
         "google_refresh_token_encrypted", "google_refresh_token_iv", "google_refresh_token_tag", None),
    Spec("bots", ["id"], "discord_token_encrypted", "discord_token_iv", "discord_token_tag", None),
    Spec("webhook_endpoints", ["id"], "secret_encrypted", "secret_iv", "secret_tag", None),
    Spec("mcp_servers", ["id"],
         "auth_credential_encrypted", "auth_credential_iv", "auth_credential_tag", None),
    Spec("credentials", ["user_id", "service_name"], "encrypted_password", "iv", "auth_tag", Some("user_id"))]

  function Cell(row: Row, col: string): Value {
    if col in row then row[col] else Null
  }

  function ValueStr(v: Value): Option<string> {
    if v.Text? then Some(v.s) else None
  }

  function Columns(spec: Spec): set<string> {
    {spec.enc, spec.iv, spec.tag}
  }

  // --- What the registry must be like -----------------------------------------------------------------

  /** A spec's three columns differ, and neither identify rows nor owners. */
  ghost predicate SpecOk(spec: Spec) {
    && spec.enc != spec.iv && spec.enc != spec.tag && spec.iv != spec.tag
    && (forall k <- spec.keys :: k !in Columns(spec))
    && (spec.userScopedBy.Some? ==> spec.userScopedBy.value !in Columns(spec))
  }

  /** Two specs of one table share no column, keys and owners included. */
  ghost predicate Apart(s1: Spec, s2: Spec) {
    s1.table == s2.table ==>
      && Columns(s1) !! Columns(s2)
      && (forall k <- s1.keys :: k !in Columns(s2))
      && (s1.userScopedBy.Some? ==> s1.userScopedBy.value !in Columns(s2))
  }

  ghost predicate RegistryOk(specs: seq<Spec>) {
    && (forall i :: 0 <= i < |specs| ==> SpecOk(specs[i]))
    && (forall i, j :: 0 <= i < |specs| && 0 <= j < |specs| && i != j ==> Apart(specs[i], specs[j]))
  }

  /** The two specs of `users` are the only ones that share a table, and they share no column. */
  lemma EncryptedColumnsOk()
    ensures RegistryOk(ENCRYPTED_COLUMNS)
  {
    var specs := ENCRYPTED_COLUMNS;
    forall i | 0 <= i < |specs| ensures SpecOk(specs[i]) {
      ColumnsDiffer(i);
    }
    forall i, j | 0 <= i < |specs| && 0 <= j < |specs| && i != j ensures Apart(specs[i], specs[j]) {
      if {i, j} == {0, 1} {
        UsersColumnsDiffer();
      } else {
        TablesDiffer(i, j);
      }
    }
  }

  /** The three columns of a spec differ in length, and so do its keys from them. */
  lemma ColumnsDiffer(i: nat)
    requires i < 6
    ensures SpecOk(ENCRYPTED_COLUMNS[i])
  {
    if i < 2 {
      UsersSpecsOk(i);
    } else if i == 5 {
      CredentialsSpecOk();
    } else {
      IdSpecsOk(i);
    }
  }

  lemma UsersSpecsOk(i: nat)
    requires i < 2
    ensures SpecOk(ENCRYPTED_COLUMNS[i])
  {
    var s := ENCRYPTED_COLUMNS[i];
    assert s.keys == ["discord_id"];
    DifferByLength(s, 10, 10);
  }

  lemma IdSpecsOk(i: nat)
    requires 2 <= i < 5
    ensures SpecOk(ENCRYPTED_COLUMNS[i])
  {
    var s := ENCRYPTED_COLUMNS[i];
    assert s.keys == ["id"];
    DifferByLength(s, 2, 2);
  }

  lemma CredentialsSpecOk()
    ensures SpecOk(ENCRYPTED_COLUMNS[5])
  {
    var s := ENCRYPTED_COLUMNS[5];
    assert s.keys == ["user_id", "service_name"];
    DifferByLength(s, 7, 12);
  }

  lemma DifferByLength(s: Spec, m: nat, n: nat)
    requires |s.enc| != |s.iv| && |s.enc| != |s.tag| && |s.iv| != |s.tag|
    requires m != |s.enc| && m != |s.iv| && m != |s.tag| && n != |s.enc| && n != |s.iv| && n != |s.tag|
    requires forall k <- s.keys :: |k| == m || |k| == n
    requires s.userScopedBy.Some? ==> |s.userScopedBy.value| == m
    ensures SpecOk(s)
  {
  }

  lemma UsersColumnsDiffer()
    ensures Apart(ENCRYPTED_COLUMNS[0], ENCRYPTED_COLUMNS[1]) && Apart(ENCRYPTED_COLUMNS[1], ENCRYPTED_COLUMNS[0])
  {
    var a, b := ENCRYPTED_COLUMNS[0], ENCRYPTED_COLUMNS[1];
    assert a.enc[1] == 'e' && b.tag[1] == 'o';
    assert |a.enc| == 24 && |a.iv| == 17 && |a.tag| == 18;
    assert |b.enc| == 30 && |b.iv| == 23 && |b.tag| == 24;
    assert a.keys == b.keys == ["discord_id"] && |"discord_id"| == 10;
  }

  lemma TablesDiffer(i: nat, j: nat)
    requires i < 6 && j < 6 && i != j && {i, j} != {0, 1}
    ensures ENCRYPTED_COLUMNS[i].table != ENCRYPTED_COLUMNS[j].table
  {
    var lengths := [5, 5, 4, 17, 11, 11];
    assert |ENCRYPTED_COLUMNS[i].table| == lengths[i] && |ENCRYPTED_COLUMNS[j].table| == lengths[j];
    assert ENCRYPTED_COLUMNS[4].table[0] == 'm' && ENCRYPTED_COLUMNS[5].table[0] == 'c';
    assert i in {0, 1} && j in {0, 1} ==> {i, j} == {0, 1};
  }

  // --- What a rotation does to one row ----------------------------------------------------------------

  /** The salts of the users that have one. Fails on a user id or a salt that is not text. */
  function Salts(users: Table): Result<map<string, string>, Error> {
    if users == [] then Ok(map[])
    else match Salts(users[..|users| - 1])
      case Err(e) => Err(e)
      case Ok(m) =>
        var row := users[|users| - 1];
        match (Cell(row, "discord_id"), Cell(row, "salt"))
        case (Text(id), Text(salt)) => Ok(m[id := salt])
        case (Text(_), Null) => Ok(m)
        case _ => Err(Db)
  }

  function UsersOf(db: Database): Table {
    if "users" in db then db["users"] else []
  }

  function AllSalts(db: Database): Result<map<string, string>, Error> {
    if "users" in db then Salts(db["users"]) else Ok(map[])
  }

  /** A user's row that names the user and has a salt. */
  predicate Salted(row: Row, id: string, salt: string) {
    Cell(row, "discord_id") == Text(id) && Cell(row, "salt") == Text(salt)
  }

  /** A row that cannot be read: a user id that is no text, or a salt that is neither text nor absent. */
  predicate Unreadable(row: Row) {
    !Cell(row, "discord_id").Text? || !(Cell(row, "salt").Text? || Cell(row, "salt").Null?)
  }

  /** Row `i` is the last to give the user a salt. */
  ghost predicate LastSalt(users: Table, i: nat, id: string, salt: string) {
    i < |users| && Salted(users[i], id, salt) && forall j, other :: i < j < |users| ==> !Salted(users[j], id, other)
  }

  /** Reading the salts fails exactly on an unreadable row. */
  lemma {:induction false} SaltsFailIff(users: Table)
    ensures Salts(users).Err? <==> exists i :: 0 <= i < |users| && Unreadable(users[i])
  {
    if users != [] {
      var n := |users| - 1;
      SaltsFailIff(users[..n]);
      if i :| 0 <= i < |users| && Unreadable(users[i]) {
        assert i < n ==> Unreadable(users[..n][i]);
      }
    }
  }

  /** Each user who has a salt in some row is given the last of them, and nobody else is given any. */
  lemma {:induction false} SaltsAre(users: Table)
    requires Salts(users).Ok?
    ensures forall id <- Salts(users).value :: exists i :: LastSalt(users, i, id, Salts(users).value[id])
    ensures forall i, id, salt :: 0 <= i < |users| && Salted(users[i], id, salt) ==> id in Salts(users).value
  {
    if users != [] {
      var n, m := |users| - 1, Salts(users).value;
      SaltsAre(users[..n]);
      forall id <- m ensures exists i :: LastSalt(users, i, id, m[id]) {
        if Salted(users[n], id, m[id]) {
          assert LastSalt(users, n, id, m[id]);
        } else {
          var i :| LastSalt(users[..n], i, id, m[id]);
          assert LastSalt(users, i, id, m[id]);
        }
      }
    }
  }

  /** With one row per user, each user who has a salt is given it. */
  lemma SaltIsRead(users: Table, k: nat, id: string, salt: string)
    requires Salts(users).Ok? && k < |users| && Salted(users[k], id, salt)
    requires forall j :: 0 <= j < |users| && Cell(users[j], "discord_id") == Text(id) ==> j == k
    ensures id in Salts(users).value && Salts(users).value[id] == salt
  {
    SaltsAre(users);
    var i :| LastSalt(users, i, id, Salts(users).value[id]);
    assert i == k;
  }

  /** The stored triple, when all three columns are text and there is a ciphertext at all. */
  function Triple(spec: Spec, row: Row): Option<Encrypted> {
    match (ValueStr(Cell(row, spec.enc)), ValueStr(Cell(row, spec.iv)), ValueStr(Cell(row, spec.tag)))
    case (Some(e), Some(iv), Some(tag)) => if e == "" then None else Some(Encrypted(e, iv, tag))
    case _ => None
  }

  /** The key a row is encrypted with: the system key, or the key of the row's owner. `None` skips the row. */
  function KeyOf(c: Primitives, secret: string, salts: map<string, string>, spec: Spec, row: Row): Option<Result<Key, Error>> {
    match spec.userScopedBy
    case None => Some(DeriveSystemKey(c, secret))
    case Some(owner) =>
      match ValueStr(Cell(row, owner))
      case None => None
      case Some(uid) => if uid in salts then Some(DeriveUserKey(c, secret, salts[uid])) else None
  }

  predicate Eligible(c: Primitives, secret: string, salts: map<string, string>, spec: Spec, row: Row) {
    Triple(spec, row).Some? && KeyOf(c, secret, salts, spec, row).Some?
  }

  /** The plaintext a row holds under a secret. */
  function Plaintext(c: Primitives, secret: string, salts: map<string, string>, spec: Spec, row: Row): Result<string, Error>
    requires Eligible(c, secret, salts, spec, row)
  {
    match KeyOf(c, secret, salts, spec, row).value
    case Err(e) => Err(e)
    case Ok(key) => DecryptWithKey(c, key, Triple(spec, row).value)
  }

  function WithTriple(spec: Spec, row: Row, e: Encrypted): Row {
    row[spec.enc := Text(e.encrypted)][spec.iv := Text(e.iv)][spec.tag := Text(e.authTag)]
  }

  predicate SameKeys(spec: Spec, r1: Row, r2: Row) {
    forall k <- spec.keys :: Cell(r1, k) == Cell(r2, k) && Cell(r1, k) != Null
  }

  /** `UPDATE ... SET the triple WHERE the keys match`. */
  function Update(spec: Spec, t: Table, row: Row, e: Encrypted): (r: Table)
    ensures |r| == |t|
    ensures forall i :: 0 <= i < |t| ==> r[i] == if SameKeys(spec, t[i], row) then WithTriple(spec, t[i], e) else t[i]
  {
    seq(|t|, i requires 0 <= i < |t| => if SameKeys(spec, t[i], row) then WithTriple(spec, t[i], e) else t[i])
  }

  /** A row without a key matches nothing, as SQL compares NULL. */
  lemma NullKeysStay(spec: Spec, t: Table, row: Row, e: Encrypted, i: nat, key: string)
    requires i < |t| && key in spec.keys && (Cell(t[i], key) == Null || Cell(row, key) != Cell(t[i], key))
    ensures Update(spec, t, row, e)[i] == t[i]
  {
    assert !SameKeys(spec, t[i], row);
  }

  /** The key columns are a key: no two rows agree on them, and they are not null. */
  ghost predicate KeysUnique(spec: Spec, t: Table) {
    && (forall i :: 0 <= i < |t| ==> SameKeys(spec, t[i], t[i]))
    && (forall i, j :: 0 <= i < |t| && 0 <= j < |t| && SameKeys(spec, t[i], t[j]) ==> i == j)
  }

  ghost predicate AllKeysUnique(specs: seq<Spec>, db: Database) {
    forall s <- specs :: s.table in db ==> KeysUnique(s, db[s.table])
  }

  // --- What a rotation does to the database -----------------------------------------------------------

  datatype Context = Context(c: Primitives, oldSecret: string, newSecret: string, salts: map<string, string>)

  /** The row's triple for this spec has been rotated: same plaintext, new key. */
  ghost predicate Rotated(x: Context, spec: Spec, before: Row, after: Row) {
    if Eligible(x.c, x.oldSecret, x.salts, spec, before) then
      && Eligible(x.c, x.newSecret, x.salts, spec, after)
      && Plaintext(x.c, x.oldSecret, x.salts, spec, before).Ok?
      && Plaintext(x.c, x.newSecret, x.salts, spec, after) == Plaintext(x.c, x.oldSecret, x.salts, spec, before)
    else
      Untouched(spec, before, after)
  }

  ghost predicate Untouched(spec: Spec, before: Row, after: Row) {
    forall col <- Columns(spec) :: Cell(after, col) == Cell(before, col)
  }

  /** Every column that belongs to no spec of the table is as it was. */
  ghost predicate OthersUntouched(specs: seq<Spec>, table: string, before: Row, after: Row) {
    forall col: string :: (forall s <- specs :: s.table == table ==> col !in Columns(s)) ==> Cell(after, col) == Cell(before, col)
  }

  /** The first `n` specs are done, the `n`-th on its first `m` rows; nothing else has changed. */
  ghost predicate Progress(x: Context, specs: seq<Spec>, before: Database, after: Database, n: nat, m: nat) {
    before.Keys == after.Keys && forall t <- before :: TableDone(x, specs, t, before[t], after[t], n, m)
  }

  ghost predicate TableDone(x: Context, specs: seq<Spec>, t: string, before: Table, after: Table, n: nat, m: nat) {
    |before| == |after| && forall i {:trigger RowDone(x, specs, t, before[i], after[i], n, m, i)} ::
      0 <= i < |before| ==> RowDone(x, specs, t, before[i], after[i], n, m, i)
  }

  ghost predicate RowDone(x: Context, specs: seq<Spec>, t: string, before: Row, after: Row, n: nat, m: nat, i: nat) {
    && OthersUntouched(specs, t, before, after)
    && forall s :: 0 <= s < |specs| && specs[s].table == t ==>
         if s < n || (s == n && i < m) then Rotated(x, specs[s], before, after) else Untouched(specs[s], before, after)
  }

  /** The loop over the rows of spec `s`, as they were read: `i` of them are done, `n` of those were eligible. */
  ghost predicate RowsDone(x: Context, specs: seq<Spec>, s: nat, before: Database, rows: Table, after: Database, i: nat, n: nat) {
    && s < |specs| && specs[s].table in before && i <= |rows| == |before[specs[s].table]|
    && Progress(x, specs, before, after, s, i)
    && RestAsRead(specs[s].table, rows, after, i)
    && n == CountRows(x, specs[s], before[specs[s].table], i)
  }

  ghost predicate RestAsRead(t: string, rows: Table, after: Database, i: nat) {
    t in after && |after[t]| == |rows| && forall j :: i <= j < |rows| ==> after[t][j] == rows[j]
  }

  /** How many triples of one spec are eligible among the first `m` rows. */
  function CountRows(x: Context, spec: Spec, t: Table, m: nat): nat
    requires m <= |t|
  {
    if m == 0 then 0
    else CountRows(x, spec, t, m - 1) + if Eligible(x.c, x.oldSecret, x.salts, spec, t[m - 1]) then 1 else 0
  }

  function Count(x: Context, specs: seq<Spec>, db: Database, n: nat): nat
    requires n <= |specs|
  {
    if n == 0 then 0
    else Count(x, specs, db, n - 1) + CountSpec(x, specs[n - 1], db)
  }

  function CountSpec(x: Context, spec: Spec, db: Database): nat {
    if spec.table in db then CountRows(x, spec, db[spec.table], |db[spec.table]|) else 0
  }

  /** Row `i` of spec `s` is eligible. */
  predicate EligibleAt(x: Context, specs: seq<Spec>, db: Database, s: nat, i: nat) {
    && s < |specs| && specs[s].table in db && i < |db[specs[s].table]|
    && Eligible(x.c, x.oldSecret, x.salts, specs[s], db[specs[s].table][i])
  }

  /** Spec and row of the eligible triples: of the specs before `s`, and of the first `m` rows of `s`. */
  function Pairs(x: Context, specs: seq<Spec>, db: Database, s: nat, m: nat): set<(nat, nat)>
    decreases s, m
  {
    if m > 0 then Pairs(x, specs, db, s, m - 1) + if EligibleAt(x, specs, db, s, m - 1) then {(s, m - 1)} else {}
    else if s > 0 then Pairs(x, specs, db, s - 1, RowsIn(specs, db, s - 1))
    else {}
  }

  function RowsIn(specs: seq<Spec>, db: Database, s: nat): nat {
    if s < |specs| && specs[s].table in db then |db[specs[s].table]| else 0
  }

  lemma {:induction false} PairsAre(x: Context, specs: seq<Spec>, db: Database, s: nat, m: nat)
    ensures forall q: nat, i: nat :: (q, i) in Pairs(x, specs, db, s, m) <==>
              EligibleAt(x, specs, db, q, i) && (q < s || (q == s && i < m))
    decreases s, m
  {
    if m > 0 {
      PairsAre(x, specs, db, s, m - 1);
    } else if s > 0 {
      PairsAre(x, specs, db, s - 1, RowsIn(specs, db, s - 1));
    }
  }

  /** How many there are. */
  function CountTo(x: Context, specs: seq<Spec>, db: Database, s: nat, m: nat): nat
    requires s <= |specs| && m <= RowsIn(specs, db, s)
  {
    Count(x, specs, db, s) + if m == 0 then 0 else CountRows(x, specs[s], db[specs[s].table], m)
  }

  lemma CountToStep(x: Context, specs: seq<Spec>, db: Database, s: nat, m: nat)
    requires s <= |specs| && 0 < m <= RowsIn(specs, db, s)
    ensures CountTo(x, specs, db, s, m) == CountTo(x, specs, db, s, m - 1) + if EligibleAt(x, specs, db, s, m - 1) then 1 else 0
  {
  }

  lemma CountToStart(x: Context, specs: seq<Spec>, db: Database, s: nat)
    requires 0 < s <= |specs|
    ensures CountTo(x, specs, db, s, 0) == CountTo(x, specs, db, s - 1, RowsIn(specs, db, s - 1))
  {
  }

  lemma {:induction false} PairsCounted(x: Context, specs: seq<Spec>, db: Database, s: nat, m: nat)
    requires s <= |specs| && m <= RowsIn(specs, db, s)
    ensures |Pairs(x, specs, db, s, m)| == CountTo(x, specs, db, s, m)
    decreases s, m
  {
    if m > 0 {
      PairsCounted(x, specs, db, s, m - 1);
      CountToStep(x, specs, db, s, m);
      PairsAre(x, specs, db, s, m - 1);
    } else if s > 0 {
      PairsCounted(x, specs, db, s - 1, RowsIn(specs, db, s - 1));
      CountToStart(x, specs, db, s);
    }
  }

  /** The number that is returned is that of the eligible triples, each counted once. */
  lemma CountIsPairs(x: Context, specs: seq<Spec>, db: Database)
    ensures var pairs := Pairs(x, specs, db, |specs|, 0);
            && |pairs| == Count(x, specs, db, |specs|)
            && forall s: nat, i: nat :: (s, i) in pairs <==> EligibleAt(x, specs, db, s, i)
  {
    PairsCounted(x, specs, db, |specs|, 0);
    PairsAre(x, specs, db, |specs|, 0);
  }

  // --- When a rotation succeeds -----------------------------------------------------------------------

  /** An eligible row can be re-encrypted: its keys derive, it decrypts, and it encrypts with this nonce. */
  predicate RowReady(x: Context, spec: Spec, row: Row, iv: Option<Bytes>)
    requires Eligible(x.c, x.oldSecret, x.salts, spec, row) && (iv.Some? ==> |iv.value| == IV_LEN)
  {
    && KeyOf(x.c, x.oldSecret, x.salts, spec, row).value.Ok? && KeyOf(x.c, x.newSecret, x.salts, spec, row).value.Ok?
    && Plaintext(x.c, x.oldSecret, x.salts, spec, row).Ok?
    && EncryptWithKey(x.c, KeyOf(x.c, x.newSecret, x.salts, spec, row).value.value, iv,
                      Plaintext(x.c, x.oldSecret, x.salts, spec, row).value).Ok?
  }

  predicate RowPasses(x: Context, spec: Spec, row: Row, iv: Option<Bytes>, fails: bool)
    requires iv.Some? ==> |iv.value| == IV_LEN
  {
    Eligible(x.c, x.oldSecret, x.salts, spec, row) ==> RowReady(x, spec, row, iv) && !fails
  }

  ghost predicate Nonces(rng: nat -> Option<Bytes>) {
    forall i :: rng(i).Some? ==> |rng(i).value| == IV_LEN
  }

  /** Row `i` of a table passes; `n` triples of other tables come before those of this one. */
  ghost predicate PassesAt(x: Context, spec: Spec, t: Table, rng: nat -> Option<Bytes>, fails: nat -> bool, n: nat, i: nat)
    requires Nonces(rng) && i < |t|
  {
    var k := n + CountRows(x, spec, t, i);
    RowPasses(x, spec, t[i], rng(k), fails(k))
  }

  ghost predicate RowsPass(x: Context, spec: Spec, t: Table, rng: nat -> Option<Bytes>, fails: nat -> bool, n: nat, m: nat)
    requires Nonces(rng) && m <= |t|
  {
    forall i {:trigger PassesAt(x, spec, t, rng, fails, n, i)} :: 0 <= i < m ==> PassesAt(x, spec, t, rng, fails, n, i)
  }

  /** After row `i` the rows pass so far, or the spec fails. */
  lemma PassedOrFails(x: Context, spec: Spec, t: Table, rng: nat -> Option<Bytes>, fails: nat -> bool, n: nat, i: nat, done: nat)
    requires Nonces(rng) && i < |t| && done == CountRows(x, spec, t, i) && RowsPass(x, spec, t, rng, fails, n, i)
    ensures if RowPasses(x, spec, t[i], rng(n + done), fails(n + done)) then RowsPass(x, spec, t, rng, fails, n, i + 1)
            else !RowsPass(x, spec, t, rng, fails, n, |t|)
  {
    assert PassesAt(x, spec, t, rng, fails, n, i) <==> RowPasses(x, spec, t[i], rng(n + done), fails(n + done));
  }

  ghost predicate SpecPasses(x: Context, spec: Spec, db: Database, rng: nat -> Option<Bytes>, fails: nat -> bool, n: nat)
    requires Nonces(rng)
  {
    spec.table in db ==> RowsPass(x, spec, db[spec.table], rng, fails, n, |db[spec.table]|)
  }

  ghost predicate SpecsPass(x: Context, specs: seq<Spec>, db: Database, rng: nat -> Option<Bytes>, fails: nat -> bool, n: nat)
    requires Nonces(rng) && n <= |specs|
  {
    forall s :: 0 <= s < n ==> SpecPasses(x, specs[s], db, rng, fails, Count(x, specs, db, s))
  }

  /** Nothing that the rotation needs fails: keys, salts, each eligible triple, each statement and the commit. */
  ghost predicate Succeeds(c: Primitives, oldSecret: string, newSecret: string, specs: seq<Spec>, db: Database,
                           rng: nat -> Option<Bytes>, fails: nat -> bool)
    requires Nonces(rng)
  {
    && c.systemKey(oldSecret).Some? && c.systemKey(newSecret).Some?
    && AllSalts(db).Ok?
    && var x := Context(c, oldSecret, newSecret, AllSalts(db).value);
       SpecsPass(x, specs, db, rng, fails, |specs|) && !fails(Count(x, specs, db, |specs|))
  }

  // --- Lemmas -----------------------------------------------------------------------------------------

  /** What a row is to a spec depends on the columns the spec reads. */
  lemma SameView(x: Context, secret: string, spec: Spec, r1: Row, r2: Row)
    requires Untouched(spec, r1, r2)
    requires spec.userScopedBy.Some? ==> Cell(r1, spec.userScopedBy.value) == Cell(r2, spec.userScopedBy.value)
    ensures Triple(spec, r1) == Triple(spec, r2)
    ensures KeyOf(x.c, secret, x.salts, spec, r1) == KeyOf(x.c, secret, x.salts, spec, r2)
    ensures Eligible(x.c, secret, x.salts, spec, r1) <==> Eligible(x.c, secret, x.salts, spec, r2)
  {
  }

  lemma SameReady(x: Context, spec: Spec, r1: Row, r2: Row, iv: Option<Bytes>, fails: bool)
    requires Untouched(spec, r1, r2) && (iv.Some? ==> |iv.value| == IV_LEN)
    requires spec.userScopedBy.Some? ==> Cell(r1, spec.userScopedBy.value) == Cell(r2, spec.userScopedBy.value)
    ensures RowPasses(x, spec, r1, iv, fails) <==> RowPasses(x, spec, r2, iv, fails)
  {
    SameView(x, x.oldSecret, spec, r1, r2);
    SameView(x, x.newSecret, spec, r1, r2);
  }

  /** Whether the row is skipped does not depend on the secret. */
  lemma EligibleForBoth(x: Context, spec: Spec, row: Row)
    ensures Eligible(x.c, x.oldSecret, x.salts, spec, row) <==> Eligible(x.c, x.newSecret, x.salts, spec, row)
  {
  }

  /** Key and owner columns of a spec are nobody's triple, so they stay. */
  lemma KeysStay(x: Context, specs: seq<Spec>, before: Database, after: Database, n: nat, m: nat, s: nat, i: nat)
    requires RegistryOk(specs) && Progress(x, specs, before, after, n, m)
    requires s < |specs| && specs[s].table in before && i < |before[specs[s].table]|
    ensures var t := specs[s].table;
            && (forall k <- specs[s].keys :: Cell(after[t][i], k) == Cell(before[t][i], k))
            && (specs[s].userScopedBy.Some? ==>
                  Cell(after[t][i], specs[s].userScopedBy.value) == Cell(before[t][i], specs[s].userScopedBy.value))
  {
    var t := specs[s].table;
    assert TableDone(x, specs, t, before[t], after[t], n, m);
    assert RowDone(x, specs, t, before[t][i], after[t][i], n, m, i);
    forall k | k in specs[s].keys || specs[s].userScopedBy == Some(k)
      ensures Cell(after[t][i], k) == Cell(before[t][i], k)
    {
      forall q <- specs | q.table == t ensures k !in Columns(q) {
        var j :| 0 <= j < |specs| && specs[j] == q;
        assert SpecOk(specs[s]);
        assert j != s ==> Apart(specs[s], specs[j]);
      }
    }
  }

  /** A new triple has the plaintext it was made from. */
  lemma NewTripleDecrypts(x: Context, spec: Spec, row: Row, iv: Option<Bytes>, plain: string, e: Encrypted)
    requires Sound(x.c) && SpecOk(spec) && (iv.Some? ==> |iv.value| == IV_LEN)
    requires Eligible(x.c, x.newSecret, x.salts, spec, row)
    requires KeyOf(x.c, x.newSecret, x.salts, spec, row).value.Ok?
    requires EncryptWithKey(x.c, KeyOf(x.c, x.newSecret, x.salts, spec, row).value.value, iv, plain) == Ok(e)
    requires e.encrypted != ""
    ensures var after := WithTriple(spec, row, e);
            Eligible(x.c, x.newSecret, x.salts, spec, after) && Plaintext(x.c, x.newSecret, x.salts, spec, after) == Ok(plain)
  {
    DecryptUndoesEncrypt(x.c, KeyOf(x.c, x.newSecret, x.salts, spec, row).value.value, iv, plain);
  }

  /** Replacing one spec's triple leaves the columns of the others. */
  lemma TripleIsLocal(specs: seq<Spec>, s: nat, row: Row, e: Encrypted)
    requires RegistryOk(specs) && s < |specs|
    ensures forall q :: 0 <= q < |specs| && q != s && specs[q].table == specs[s].table ==>
              Untouched(specs[q], row, WithTriple(specs[s], row, e))
    ensures forall q :: 0 <= q < |specs| && specs[q].table == specs[s].table && specs[q].userScopedBy.Some? ==>
              Cell(WithTriple(specs[s], row, e), specs[q].userScopedBy.value) == Cell(row, specs[q].userScopedBy.value)
    ensures OthersUntouched(specs, specs[s].table, row, WithTriple(specs[s], row, e))
  {
    assert specs[s] in specs;
    forall q | 0 <= q < |specs| && q != s && specs[q].table == specs[s].table
      ensures Untouched(specs[q], row, WithTriple(specs[s], row, e))
    {
      assert Apart(specs[q], specs[s]);
    }
    forall q | 0 <= q < |specs| && specs[q].table == specs[s].table && specs[q].userScopedBy.Some?
      ensures Cell(WithTriple(specs[s], row, e), specs[q].userScopedBy.value) == Cell(row, specs[q].userScopedBy.value)
    {
      assert SpecOk(specs[q]) && (q != s ==> Apart(specs[q], specs[s]));
    }
  }

  /** Skipping an ineligible row is progress. */
  lemma SkipRow(x: Context, specs: seq<Spec>, before: Database, after: Database, s: nat, r: nat)
    requires RegistryOk(specs) && Progress(x, specs, before, after, s, r)
    requires s < |specs| && specs[s].table in before && r < |before[specs[s].table]|
    requires !Eligible(x.c, x.oldSecret, x.salts, specs[s], after[specs[s].table][r])
    ensures Progress(x, specs, before, after, s, r + 1)
  {
    var done := r + 1;
    SameEligibility(x, specs, before, after, s, r);
    forall t <- before ensures TableDone(x, specs, t, before[t], after[t], s, done) {
      assert TableDone(x, specs, t, before[t], after[t], s, r);
      forall i | 0 <= i < |before[t]| ensures RowDone(x, specs, t, before[t][i], after[t][i], s, done, i) {
        assert RowDone(x, specs, t, before[t][i], after[t][i], s, r, i);
      }
    }
  }

  /** The row before the update, the row now, and the triple that goes in. */
  ghost predicate Replacement(x: Context, specs: seq<Spec>, before: Database, after: Database, s: nat, r: nat, e: Encrypted) {
    && RegistryOk(specs) && Progress(x, specs, before, after, s, r)
    && s < |specs| && specs[s].table in before && r < |before[specs[s].table]|
    && KeysUnique(specs[s], after[specs[s].table])
    && Rotated(x, specs[s], before[specs[s].table][r], WithTriple(specs[s], after[specs[s].table][r], e))
  }

  function Replaced(after: Database, spec: Spec, r: nat, e: Encrypted): Database
    requires spec.table in after && r < |after[spec.table]|
  {
    after[spec.table := Update(spec, after[spec.table], after[spec.table][r], e)]
  }

  lemma UpdateHitsOneRow(spec: Spec, t: Table, r: nat, e: Encrypted)
    requires KeysUnique(spec, t) && r < |t|
    ensures Update(spec, t, t[r], e) == t[r := WithTriple(spec, t[r], e)]
  {
  }

  lemma ReplaceRow(x: Context, specs: seq<Spec>, before: Database, after: Database, s: nat, r: nat, e: Encrypted)
    requires Replacement(x, specs, before, after, s, r, e)
    ensures Progress(x, specs, before, Replaced(after, specs[s], r, e), s, r + 1)
  {
    var next, done := Replaced(after, specs[s], r, e), r + 1;
    UpdateHitsOneRow(specs[s], after[specs[s].table], r, e);
    forall t <- before ensures TableDone(x, specs, t, before[t], next[t], s, done) {
      assert TableDone(x, specs, t, before[t], after[t], s, r);
      forall i | 0 <= i < |before[t]| ensures RowDone(x, specs, t, before[t][i], next[t][i], s, done, i) {
        assert RowDone(x, specs, t, before[t][i], after[t][i], s, r, i);
        if t == specs[s].table && i == r {
          ReplacedRowDone(x, specs, before, after, s, r, e);
        }
      }
    }
  }

  lemma ReplacedRowDone(x: Context, specs: seq<Spec>, before: Database, after: Database, s: nat, r: nat, e: Encrypted)
    requires Replacement(x, specs, before, after, s, r, e)
    ensures var t := specs[s].table;
            RowDone(x, specs, t, before[t][r], WithTriple(specs[s], after[t][r], e), s, r + 1, r)
  {
    var t := specs[s].table;
    var a, a' := after[t][r], WithTriple(specs[s], after[t][r], e);
    assert TableDone(x, specs, t, before[t], after[t], s, r);
    assert RowDone(x, specs, t, before[t][r], a, s, r, r);
    TripleIsLocal(specs, s, a, e);
    forall q | 0 <= q < |specs| && q != s && specs[q].table == t
      ensures if q < s then Rotated(x, specs[q], before[t][r], a') else Untouched(specs[q], before[t][r], a')
    {
      SameView(x, x.oldSecret, specs[q], a, a');
      SameView(x, x.newSecret, specs[q], a, a');
    }
  }

  /** The keys of a table's rows are still a key after some rotating. */
  lemma KeysStayUnique(x: Context, specs: seq<Spec>, before: Database, after: Database, n: nat, m: nat, s: nat)
    requires RegistryOk(specs) && Progress(x, specs, before, after, n, m) && s < |specs| && specs[s].table in before
    requires KeysUnique(specs[s], before[specs[s].table])
    ensures KeysUnique(specs[s], after[specs[s].table])
  {
    var b, a := before[specs[s].table], after[specs[s].table];
    forall i | 0 <= i < |b| ensures forall k <- specs[s].keys :: Cell(a[i], k) == Cell(b[i], k) {
      KeysStay(x, specs, before, after, n, m, s, i);
    }
    forall i, j | 0 <= i < |b| && 0 <= j < |b| ensures SameKeys(specs[s], a[i], a[j]) <==> SameKeys(specs[s], b[i], b[j]) {
    }
  }

  lemma NextSpec(x: Context, specs: seq<Spec>, before: Database, after: Database, s: nat)
    requires s < |specs|
    requires if specs[s].table in before then Progress(x, specs, before, after, s, |before[specs[s].table]|)
             else Progress(x, specs, before, after, s, 0)
    ensures Progress(x, specs, before, after, s + 1, 0)
  {
    var m, next := if specs[s].table in before then |before[specs[s].table]| else 0, s + 1;
    forall t <- before ensures TableDone(x, specs, t, before[t], after[t], next, 0) {
      assert TableDone(x, specs, t, before[t], after[t], s, m);
      forall i | 0 <= i < |before[t]| ensures RowDone(x, specs, t, before[t][i], after[t][i], next, 0, i) {
        assert RowDone(x, specs, t, before[t][i], after[t][i], s, m, i);
      }
    }
  }

  lemma NoProgressYet(x: Context, specs: seq<Spec>, db: Database)
    ensures Progress(x, specs, db, db, 0, 0)
  {
  }

  // --- The transaction --------------------------------------------------------------------------------

  class Connection {
    var tables: Database

    /** The salts, read once. A user without a salt is left out. */
    static method ReadSalts(db: Database) returns (r: Result<map<string, string>, Error>)
      ensures r == AllSalts(db)
      ensures r.Err? <==> "users" in db && exists i :: 0 <= i < |db["users"]| && Unreadable(db["users"][i])
      ensures r.Ok? && "users" in db ==>
                forall id <- r.value :: exists i :: LastSalt(db["users"], i, id, r.value[id])
      ensures r.Ok? && "users" in db ==>
                forall i, id, salt :: 0 <= i < |db["users"]| && Salted(db["users"][i], id, salt) ==> id in r.value
    {
      AllSaltsAre(db);
      if "users" !in db {
        return Ok(map[]);
      }
      var users := db["users"];
      var salts: map<string, string> := map[];
      assert users[..0] == [];
      for i := 0 to |users|
        invariant Salts(users[..i]) == Ok(salts)
      {
        assert users[..i + 1][..i] == users[..i];
        match (Cell(users[i], "discord_id"), Cell(users[i], "salt"))
        case (Text(id), Text(salt)) => salts := salts[id := salt];
        case (Text(_), Null) =>
        case _ =>
          SaltsFail(users, i + 1);
          return Err(Db);
      }
      assert users[..|users|] == users;
      return Ok(salts);
    }

    static lemma AllSaltsAre(db: Database)
      ensures AllSalts(db).Err? <==> "users" in db && exists i :: 0 <= i < |db["users"]| && Unreadable(db["users"][i])
      ensures AllSalts(db).Ok? && "users" in db ==>
                && (forall id <- AllSalts(db).value :: exists i :: LastSalt(db["users"], i, id, AllSalts(db).value[id]))
                && (forall i, id, salt :: 0 <= i < |db["users"]| && Salted(db["users"][i], id, salt) ==> id in AllSalts(db).value)
    {
      if "users" in db {
        SaltsFailIff(db["users"]);
        if AllSalts(db).Ok? {
          SaltsAre(db["users"]);
        }
      }
    }

    static lemma {:induction false} SaltsFail(users: Table, n: nat)
      requires n <= |users| && Salts(users[..n]) == Err(Db)
      ensures Salts(users) == Err(Db)
      decreases |users| - n
    {
      if n < |users| {
        assert users[..n + 1][..n] == users[..n];
        SaltsFail(users, n + 1);
      } else {
        assert users[..n] == users;
      }
    }

    /** Decrypts one row's triple with the old key and encrypts the plaintext with the new one. */
    static method Reencrypt(x: Context, spec: Spec, row: Row, iv: Option<Bytes>) returns (r: Result<Encrypted, Error>)
      requires Sound(x.c) && SpecOk(spec) && (iv.Some? ==> |iv.value| == IV_LEN)
      requires Eligible(x.c, x.oldSecret, x.salts, spec, row)
      ensures r.Ok? <==> RowReady(x, spec, row, iv)
      ensures r.Ok? ==> Rotated(x, spec, row, WithTriple(spec, row, r.value))
    {
      EligibleForBoth(x, spec, row);
      var triple := Triple(spec, row).value;
      var oldKey := KeyOf(x.c, x.oldSecret, x.salts, spec, row).value;
      if oldKey.Err? { return Err(oldKey.error); }
      var newKey := KeyOf(x.c, x.newSecret, x.salts, spec, row).value;
      if newKey.Err? { return Err(newKey.error); }
      var plaintext := DecryptWithKey(x.c, oldKey.value, triple);
      if plaintext.Err? { return Err(plaintext.error); }
      r := EncryptWithKey(x.c, newKey.value, iv, plaintext.value);
      NonEmptyStays(x.c, oldKey.value, triple, newKey.value, iv);
      if r.Ok? {
        NewTripleDecrypts(x, spec, row, iv, plaintext.value, r.value);
      }
    }

    /** One row, as read: skipped, or re-encrypted and written back where its keys match. */
    static method RotateRow(x: Context, specs: seq<Spec>, s: nat, ghost before: Database, rows: Table, tx: Database,
                            i: nat, n: nat, iv: Option<Bytes>, fails: bool)
      returns (r: Result<Database, Error>, done: nat)
      requires Sound(x.c) && (iv.Some? ==> |iv.value| == IV_LEN)
      requires RegistryOk(specs) && RowsDone(x, specs, s, before, rows, tx, i, n) && i < |rows|
      requires KeysUnique(specs[s], before[specs[s].table])
      ensures r.Ok? <==> RowPasses(x, specs[s], before[specs[s].table][i], iv, fails)
      ensures r.Ok? ==> RowsDone(x, specs, s, before, rows, r.value, i + 1, done)
    {
      var spec, row := specs[s], rows[i];
      SamePasses(x, specs, before, tx, s, i, iv, fails);
      SameEligibility(x, specs, before, tx, s, i);
      if !Eligible(x.c, x.oldSecret, x.salts, spec, row) {
        SkipRow(x, specs, before, tx, s, i);
        return Ok(tx), n;
      }
      var e := Reencrypt(x, spec, row, iv);
      if e.Err? { return Err(e.error), n; }
      if fails { return Err(Db), n; }
      RotatesRow(x, specs, before, tx, s, i, e.value);
      r, done := Ok(tx[spec.table := Update(spec, tx[spec.table], row, e.value)]), n + 1;
    }

    /** One turn of the loop: with `n` triples of earlier specs and `done` of this one, the next is number `n + done`. */
    static method NextRow(x: Context, specs: seq<Spec>, s: nat, ghost before: Database, rows: Table, tx: Database,
                          rng: nat -> Option<Bytes>, fails: nat -> bool, n: nat, i: nat, done: nat)
      returns (r: Result<Database, Error>, count: nat)
      requires Sound(x.c) && Nonces(rng) && RegistryOk(specs)
      requires RowsDone(x, specs, s, before, rows, tx, i, done) && i < |rows|
      requires KeysUnique(specs[s], before[specs[s].table])
      requires RowsPass(x, specs[s], before[specs[s].table], rng, fails, n, i)
      ensures r.Ok? ==> RowsDone(x, specs, s, before, rows, r.value, i + 1, count)
      ensures if r.Ok? then RowsPass(x, specs[s], before[specs[s].table], rng, fails, n, i + 1)
              else !RowsPass(x, specs[s], before[specs[s].table], rng, fails, n, |before[specs[s].table]|)
    {
      PassedOrFails(x, specs[s], before[specs[s].table], rng, fails, n, i, done);
      r, count := RotateRow(x, specs, s, before, rows, tx, i, done, rng(n + done), fails(n + done));
    }

    /** The rows of one spec's table; `n` triples have been rotated before. */
    static method RotateRows(x: Context, specs: seq<Spec>, s: nat, ghost before: Database, start: Database,
                             rng: nat -> Option<Bytes>, fails: nat -> bool, n: nat)
      returns (r: Result<Database, Error>, done: nat)
      requires Sound(x.c) && Nonces(rng)
      requires RegistryOk(specs) && s < |specs| && Progress(x, specs, before, start, s, 0)
      requires specs[s].table in start && KeysUnique(specs[s], before[specs[s].table])
      ensures r.Ok? <==> RowsPass(x, specs[s], before[specs[s].table], rng, fails, n, |before[specs[s].table]|)
      ensures r.Ok? ==> RowsDone(x, specs, s, before, start[specs[s].table], r.value, |before[specs[s].table]|, done)
    {
      var rows, tx := start[specs[s].table], start;
      done := 0;
      StartRows(x, specs, s, before, start);
      for i := 0 to |rows|
        invariant RowsDone(x, specs, s, before, rows, tx, i, done)
        invariant RowsPass(x, specs[s], before[specs[s].table], rng, fails, n, i)
      {
        var next, count := NextRow(x, specs, s, before, rows, tx, rng, fails, n, i, done);
        if next.Err? { return next, 0; }
        tx, done := next.value, count;
      }
      r := Ok(tx);
    }

    static lemma StartRows(x: Context, specs: seq<Spec>, s: nat, before: Database, start: Database)
      requires s < |specs| && Progress(x, specs, before, start, s, 0) && specs[s].table in start
      ensures RowsDone(x, specs, s, before, start[specs[s].table], start, 0, 0)
    {
      assert TableDone(x, specs, specs[s].table, before[specs[s].table], start[specs[s].table], s, 0);
    }

    /** One spec; a table that does not exist yet is skipped. */
    static method RotateSpec(x: Context, specs: seq<Spec>, s: nat, ghost before: Database, start: Database,
                             rng: nat -> Option<Bytes>, fails: nat -> bool, n: nat)
      returns (r: Result<Database, Error>, done: nat)
      requires Sound(x.c) && Nonces(rng)
      requires RegistryOk(specs) && s < |specs| && Progress(x, specs, before, start, s, 0)
      requires specs[s].table in before ==> KeysUnique(specs[s], before[specs[s].table])
      ensures r.Ok? <==> SpecPasses(x, specs[s], before, rng, fails, n)
      ensures r.Ok? ==> Progress(x, specs, before, r.value, s + 1, 0) && done == CountSpec(x, specs[s], before)
    {
      r, done := Ok(start), 0;
      if specs[s].table in start {
        r, done := RotateRows(x, specs, s, before, start, rng, fails, n);
      }
      if r.Ok? {
        NextSpec(x, specs, before, r.value, s);
      }
    }

    /** All specs, in order. */
    static method RotateSpecs(x: Context, specs: seq<Spec>, db: Database, rng: nat -> Option<Bytes>, fails: nat -> bool)
      returns (r: Result<Database, Error>, rotated: nat)
      requires Sound(x.c) && Nonces(rng)
      requires RegistryOk(specs) && AllKeysUnique(specs, db)
      ensures r.Ok? <==> SpecsPass(x, specs, db, rng, fails, |specs|)
      ensures r.Ok? ==> Progress(x, specs, db, r.value, |specs|, 0) && rotated == Count(x, specs, db, |specs|)
    {
      var tx := db;
      rotated := 0;
      NoProgressYet(x, specs, db);
      for s := 0 to |specs|
        invariant Progress(x, specs, db, tx, s, 0)
        invariant rotated == Count(x, specs, db, s) && SpecsPass(x, specs, db, rng, fails, s)
      {
        assert specs[s] in specs;
        var next, done := RotateSpec(x, specs, s, db, tx, rng, fails, rotated);
        if next.Err? { return Err(next.error), 0; }
        tx, rotated := next.value, rotated + done;
      }
      r := Ok(tx);
    }

    /** The transaction: what the tables would be, and the number of triples. The last statement is the commit. */
    static method Transaction(c: Primitives, oldSecret: string, newSecret: string, db: Database,
                              rng: nat -> Option<Bytes>, fails: nat -> bool)
      returns (r: Result<Database, Error>, rotated: nat)
      requires Sound(c) && Nonces(rng) && AllKeysUnique(ENCRYPTED_COLUMNS, db)
      ensures r.Ok? <==> Succeeds(c, oldSecret, newSecret, ENCRYPTED_COLUMNS, db, rng, fails)
      ensures r.Ok? ==>
                && AllSalts(db).Ok?
                && var x := Context(c, oldSecret, newSecret, AllSalts(db).value);
                   && Progress(x, ENCRYPTED_COLUMNS, db, r.value, |ENCRYPTED_COLUMNS|, 0)
                   && rotated == Count(x, ENCRYPTED_COLUMNS, db, |ENCRYPTED_COLUMNS|)
    {
      var oldSystem := DeriveSystemKey(c, oldSecret);
      if oldSystem.Err? { return Err(oldSystem.error), 0; }
      var newSystem := DeriveSystemKey(c, newSecret);
      if newSystem.Err? { return Err(newSystem.error), 0; }
      var salts := ReadSalts(db);
      if salts.Err? { return Err(salts.error), 0; }
      EncryptedColumnsOk();
      r, rotated := RotateSpecs(Context(c, oldSecret, newSecret, salts.value), ENCRYPTED_COLUMNS, db, rng, fails);
      if r.Ok? && fails(rotated) { return Err(Db), 0; }
    }

    /**
      `rotate_secret_key`. `rng` gives the nonces, `fails` the statements that fail. The tables change
      only with the commit.
     */
    method RotateSecretKey(c: Primitives, oldSecret: string, newSecret: string, rng: nat -> Option<Bytes>, fails: nat -> bool)
      returns (r: Result<nat, Error>)
      requires Sound(c) && Nonces(rng) && AllKeysUnique(ENCRYPTED_COLUMNS, tables)
      modifies this
      ensures oldSecret == newSecret ==> r == Ok(0) && tables == old(tables)
      ensures r.Err? ==> tables == old(tables)
      ensures oldSecret != newSecret ==>
                (r.Ok? <==> Succeeds(c, oldSecret, newSecret, ENCRYPTED_COLUMNS, old(tables), rng, fails))
      ensures r.Ok? && oldSecret != newSecret ==>
                && AllMoved(c, oldSecret, newSecret, ENCRYPTED_COLUMNS, old(tables), tables)
                && AllSalts(old(tables)).Ok?
                && var x := Context(c, oldSecret, newSecret, AllSalts(old(tables)).value);
                   && Progress(x, ENCRYPTED_COLUMNS, old(tables), tables, |ENCRYPTED_COLUMNS|, 0)
                   && r.value == |Pairs(x, ENCRYPTED_COLUMNS, old(tables), |ENCRYPTED_COLUMNS|, 0)|
    {
      if oldSecret == newSecret { return Ok(0); }
      var tx, rotated := Transaction(c, oldSecret, newSecret, tables, rng, fails);
      if tx.Err? { return Err(tx.error); }
      RotationMeans(Context(c, oldSecret, newSecret, AllSalts(tables).value), tables, tx.value);
      tables := tx.value;
      return Ok(rotated);
    }
  }

  lemma RotationMeans(x: Context, before: Database, after: Database)
    requires AllSalts(before) == Ok(x.salts) && AllKeysUnique(ENCRYPTED_COLUMNS, before)
    requires Progress(x, ENCRYPTED_COLUMNS, before, after, |ENCRYPTED_COLUMNS|, 0)
    ensures AllMoved(x.c, x.oldSecret, x.newSecret, ENCRYPTED_COLUMNS, before, after)
    ensures Count(x, ENCRYPTED_COLUMNS, before, |ENCRYPTED_COLUMNS|) == |Pairs(x, ENCRYPTED_COLUMNS, before, |ENCRYPTED_COLUMNS|, 0)|
  {
    EncryptedColumnsOk();
    UsersHaveOneRow(before);
    FinishedMeansMoved(x, ENCRYPTED_COLUMNS, before, after);
    CountIsPairs(x, ENCRYPTED_COLUMNS, before);
  }

  /** So can whether it passes. */
  lemma SamePasses(x: Context, specs: seq<Spec>, before: Database, after: Database, s: nat, r: nat, iv: Option<Bytes>, fails: bool)
    requires RegistryOk(specs) && Progress(x, specs, before, after, s, r) && (iv.Some? ==> |iv.value| == IV_LEN)
    requires s < |specs| && specs[s].table in before && r < |before[specs[s].table]|
    ensures specs[s].table in after && r < |after[specs[s].table]|
    ensures RowPasses(x, specs[s], after[specs[s].table][r], iv, fails) <==>
            RowPasses(x, specs[s], before[specs[s].table][r], iv, fails)
  {
    var t := specs[s].table;
    assert TableDone(x, specs, t, before[t], after[t], s, r);
    assert RowDone(x, specs, t, before[t][r], after[t][r], s, r, r);
    KeysStay(x, specs, before, after, s, r, s, r);
    SameReady(x, specs[s], before[t][r], after[t][r], iv, fails);
  }

  /** Whether a row is eligible can be told from the row as it is when its turn comes. */
  lemma SameEligibility(x: Context, specs: seq<Spec>, before: Database, after: Database, s: nat, r: nat)
    requires RegistryOk(specs) && Progress(x, specs, before, after, s, r)
    requires s < |specs| && specs[s].table in before && r < |before[specs[s].table]|
    ensures Eligible(x.c, x.oldSecret, x.salts, specs[s], after[specs[s].table][r]) <==>
            Eligible(x.c, x.oldSecret, x.salts, specs[s], before[specs[s].table][r])
  {
    var t := specs[s].table;
    assert TableDone(x, specs, t, before[t], after[t], s, r);
    assert RowDone(x, specs, t, before[t][r], after[t][r], s, r, r);
    KeysStay(x, specs, before, after, s, r, s, r);
    SameView(x, x.oldSecret, specs[s], before[t][r], after[t][r]);
  }

  /** Re-encrypting the row as it is now rotates the row as it was. */
  lemma RotatesRow(x: Context, specs: seq<Spec>, before: Database, after: Database, s: nat, r: nat, e: Encrypted)
    requires RegistryOk(specs) && Progress(x, specs, before, after, s, r)
    requires s < |specs| && specs[s].table in before && r < |before[specs[s].table]|
    requires KeysUnique(specs[s], before[specs[s].table])
    requires Eligible(x.c, x.oldSecret, x.salts, specs[s], after[specs[s].table][r])
    requires Rotated(x, specs[s], after[specs[s].table][r], WithTriple(specs[s], after[specs[s].table][r], e))
    ensures Eligible(x.c, x.oldSecret, x.salts, specs[s], before[specs[s].table][r])
    ensures Progress(x, specs, before, Replaced(after, specs[s], r, e), s, r + 1)
    ensures forall j :: r < j < |after[specs[s].table]| ==>
              Replaced(after, specs[s], r, e)[specs[s].table][j] == after[specs[s].table][j]
  {
    var t := specs[s].table;
    assert TableDone(x, specs, t, before[t], after[t], s, r);
    assert RowDone(x, specs, t, before[t][r], after[t][r], s, r, r);
    KeysStay(x, specs, before, after, s, r, s, r);
    SameView(x, x.oldSecret, specs[s], before[t][r], after[t][r]);
    KeysStayUnique(x, specs, before, after, s, r, s);
    UpdateHitsOneRow(specs[s], after[t], r, e);
    ReplaceRow(x, specs, before, after, s, r, e);
  }

  // --- What a finished rotation means -----------------------------------------------------------------

  /** After a rotation of all specs every row of a spec's table is rotated for that spec. */
  lemma FinishedRotation(x: Context, specs: seq<Spec>, before: Database, after: Database, s: nat, i: nat)
    requires Progress(x, specs, before, after, |specs|, 0)
    requires s < |specs| && specs[s].table in before && i < |before[specs[s].table]|
    ensures specs[s].table in after && i < |after[specs[s].table]|
    ensures Rotated(x, specs[s], before[specs[s].table][i], after[specs[s].table][i])
    ensures OthersUntouched(specs, specs[s].table, before[specs[s].table][i], after[specs[s].table][i])
  {
    var t := specs[s].table;
    assert TableDone(x, specs, t, before[t], after[t], |specs|, 0);
    assert RowDone(x, specs, t, before[t][i], after[t][i], |specs|, 0, i);
  }

  // --- A finished rotation, in the cells of the tables ------------------------------------------------

  /** The three cells hold this triple, and there is a ciphertext. */
  predicate Stored(spec: Spec, row: Row, e: Encrypted) {
    && Cell(row, spec.enc) == Text(e.encrypted) && Cell(row, spec.iv) == Text(e.iv) && Cell(row, spec.tag) == Text(e.authTag)
    && e.encrypted != ""
  }

  /** The row now holds a triple with the same plaintext, under the other key. */
  ghost predicate Moved(c: Primitives, oldKey: Key, newKey: Key, spec: Spec, e: Encrypted, after: Row) {
    exists e' :: Stored(spec, after, e') && DecryptWithKey(c, oldKey, e).Ok?
                 && DecryptWithKey(c, newKey, e') == DecryptWithKey(c, oldKey, e)
  }

  /** Moved from the system key of one secret to that of the other. */
  ghost predicate SystemMoved(c: Primitives, oldSecret: string, newSecret: string, spec: Spec, e: Encrypted, after: Row) {
    exists oldKey, newKey ::
      && c.systemKey(oldSecret) == Some(oldKey) && c.systemKey(newSecret) == Some(newKey)
      && Moved(c, oldKey, newKey, spec, e, after)
  }

  /** Moved from the key that one secret gives with the salt to that which the other gives with it. */
  ghost predicate UserMoved(c: Primitives, oldSecret: string, newSecret: string, salt: string, spec: Spec, e: Encrypted, after: Row) {
    exists bytes, oldKey, newKey ::
      && HexDecode(salt) == Some(bytes) && |bytes| >= MIN_SALT_LEN
      && c.userKey(oldSecret, bytes) == Some(oldKey) && c.userKey(newSecret, bytes) == Some(newKey)
      && Moved(c, oldKey, newKey, spec, e, after)
  }

  /** The row's owner, for a spec that has owners, has a salt among these users. */
  ghost predicate OwnerSalted(users: Table, spec: Spec, row: Row, salt: string) {
    && spec.userScopedBy.Some?
    && exists k, id :: 0 <= k < |users| && Salted(users[k], id, salt) && Cell(row, spec.userScopedBy.value) == Text(id)
  }

  /** The row has no triple, or an owner without a salt. */
  ghost predicate Skipped(users: Table, spec: Spec, row: Row) {
    || (forall e :: !Stored(spec, row, e))
    || (spec.userScopedBy.Some? && forall salt :: !OwnerSalted(users, spec, row, salt))
  }

  ghost predicate ByOwner(c: Primitives, oldSecret: string, newSecret: string, users: Table, spec: Spec, before: Row, after: Row) {
    forall e, salt | Stored(spec, before, e) && OwnerSalted(users, spec, before, salt) ::
      UserMoved(c, oldSecret, newSecret, salt, spec, e, after)
  }

  /** A stored triple is moved to the new key; the cells of a skipped row stay. */
  ghost predicate RowMoved(c: Primitives, oldSecret: string, newSecret: string, users: Table, spec: Spec, before: Row, after: Row) {
    if Skipped(users, spec, before) then Untouched(spec, before, after)
    else if spec.userScopedBy.None? then
      forall e | Stored(spec, before, e) :: SystemMoved(c, oldSecret, newSecret, spec, e, after)
    else ByOwner(c, oldSecret, newSecret, users, spec, before, after)
  }

  /** Every row of every spec is moved. */
  ghost predicate AllMoved(c: Primitives, oldSecret: string, newSecret: string, specs: seq<Spec>, before: Database, after: Database) {
    forall s :: 0 <= s < |specs| && specs[s].table in before ==>
      TableMoved(c, oldSecret, newSecret, UsersOf(before), specs[s], before[specs[s].table],
                 if specs[s].table in after then after[specs[s].table] else [])
  }

  ghost predicate TableMoved(c: Primitives, oldSecret: string, newSecret: string, users: Table, spec: Spec, before: Table, after: Table) {
    |before| == |after| && forall i :: 0 <= i < |before| ==> RowMoved(c, oldSecret, newSecret, users, spec, before[i], after[i])
  }

  ghost predicate OneRowPerUser(users: Table) {
    forall j, k :: 0 <= j < |users| && 0 <= k < |users| && Cell(users[j], "discord_id") == Cell(users[k], "discord_id") ==> j == k
  }

  /** The salts that are read are those of the owners' rows. */
  lemma SaltsOfOwners(db: Database, salts: map<string, string>, spec: Spec, row: Row)
    requires AllSalts(db) == Ok(salts) && OneRowPerUser(UsersOf(db)) && spec.userScopedBy.Some?
    ensures forall salt :: OwnerSalted(UsersOf(db), spec, row, salt) <==>
              Cell(row, spec.userScopedBy.value).Text? && Cell(row, spec.userScopedBy.value).s in salts
              && salts[Cell(row, spec.userScopedBy.value).s] == salt
  {
    var users := UsersOf(db);
    SaltsAre(users);
    forall salt | OwnerSalted(users, spec, row, salt)
      ensures Cell(row, spec.userScopedBy.value).s in salts && salts[Cell(row, spec.userScopedBy.value).s] == salt
    {
      var k, id :| 0 <= k < |users| && Salted(users[k], id, salt) && Cell(row, spec.userScopedBy.value) == Text(id);
      SaltIsRead(users, k, id, salt);
    }
    if Cell(row, spec.userScopedBy.value).Text? && Cell(row, spec.userScopedBy.value).s in salts {
      var id := Cell(row, spec.userScopedBy.value).s;
      var i :| LastSalt(users, i, id, salts[id]);
      assert OwnerSalted(users, spec, row, salts[id]);
    }
  }

  lemma StoredIsTriple(spec: Spec, row: Row)
    ensures forall e :: Stored(spec, row, e) <==> Triple(spec, row) == Some(e)
  {
  }

  lemma RotatedSystem(x: Context, spec: Spec, before: Row, after: Row, e: Encrypted)
    requires Rotated(x, spec, before, after) && spec.userScopedBy.None? && Triple(spec, before) == Some(e)
    ensures SystemMoved(x.c, x.oldSecret, x.newSecret, spec, e, after)
  {
    var oldKey, newKey := DeriveSystemKey(x.c, x.oldSecret).value, DeriveSystemKey(x.c, x.newSecret).value;
    StoredIsTriple(spec, after);
    assert Stored(spec, after, Triple(spec, after).value);
    assert Moved(x.c, oldKey, newKey, spec, e, after);
  }

  lemma RotatedUser(x: Context, spec: Spec, before: Row, after: Row, e: Encrypted, id: string)
    requires Rotated(x, spec, before, after) && spec.userScopedBy.Some? && Triple(spec, before) == Some(e)
    requires Cell(before, spec.userScopedBy.value) == Cell(after, spec.userScopedBy.value) == Text(id) && id in x.salts
    ensures UserMoved(x.c, x.oldSecret, x.newSecret, x.salts[id], spec, e, after)
  {
    var salt := x.salts[id];
    assert KeyOf(x.c, x.oldSecret, x.salts, spec, before) == Some(DeriveUserKey(x.c, x.oldSecret, salt));
    assert KeyOf(x.c, x.newSecret, x.salts, spec, after) == Some(DeriveUserKey(x.c, x.newSecret, salt));
    var oldKey, newKey := DeriveUserKey(x.c, x.oldSecret, salt).value, DeriveUserKey(x.c, x.newSecret, salt).value;
    StoredIsTriple(spec, after);
    assert Stored(spec, after, Triple(spec, after).value);
    assert Moved(x.c, oldKey, newKey, spec, e, after);
  }

  /** The rows that are skipped are those that are not eligible. */
  lemma SkippedIff(x: Context, db: Database, spec: Spec, row: Row)
    requires AllSalts(db) == Ok(x.salts) && OneRowPerUser(UsersOf(db))
    ensures Skipped(UsersOf(db), spec, row) <==> !Eligible(x.c, x.oldSecret, x.salts, spec, row)
  {
    StoredIsTriple(spec, row);
    if Triple(spec, row).Some? {
      assert Stored(spec, row, Triple(spec, row).value);
    }
    if spec.userScopedBy.Some? {
      SaltsOfOwners(db, x.salts, spec, row);
      var owner := Cell(row, spec.userScopedBy.value);
      if owner.Text? && owner.s in x.salts {
        assert OwnerSalted(UsersOf(db), spec, row, x.salts[owner.s]);
      }
    }
  }

  lemma RotatedByOwner(x: Context, db: Database, spec: Spec, before: Row, after: Row)
    requires AllSalts(db) == Ok(x.salts) && OneRowPerUser(UsersOf(db)) && Rotated(x, spec, before, after)
    requires spec.userScopedBy.Some? && Cell(after, spec.userScopedBy.value) == Cell(before, spec.userScopedBy.value)
    ensures ByOwner(x.c, x.oldSecret, x.newSecret, UsersOf(db), spec, before, after)
  {
    forall e, salt | Stored(spec, before, e) && OwnerSalted(UsersOf(db), spec, before, salt)
      ensures UserMoved(x.c, x.oldSecret, x.newSecret, salt, spec, e, after)
    {
      SaltsOfOwners(db, x.salts, spec, before);
      RotatedUser(x, spec, before, after, e, Cell(before, spec.userScopedBy.value).s);
    }
  }

  lemma RotatedMeansMoved(x: Context, db: Database, spec: Spec, before: Row, after: Row)
    requires AllSalts(db) == Ok(x.salts) && OneRowPerUser(UsersOf(db)) && Rotated(x, spec, before, after)
    requires spec.userScopedBy.Some? ==> Cell(after, spec.userScopedBy.value) == Cell(before, spec.userScopedBy.value)
    ensures RowMoved(x.c, x.oldSecret, x.newSecret, UsersOf(db), spec, before, after)
  {
    SkippedIff(x, db, spec, before);
    if spec.userScopedBy.Some? {
      RotatedByOwner(x, db, spec, before, after);
    } else {
      forall e | Stored(spec, before, e) ensures SystemMoved(x.c, x.oldSecret, x.newSecret, spec, e, after) {
        RotatedSystem(x, spec, before, after, e);
      }
    }
  }

  /** What a finished rotation means, in terms of the cells and of the keys: every readable secret has moved. */
  lemma FinishedMeansMoved(x: Context, specs: seq<Spec>, before: Database, after: Database)
    requires RegistryOk(specs) && Progress(x, specs, before, after, |specs|, 0)
    requires AllSalts(before) == Ok(x.salts) && OneRowPerUser(UsersOf(before))
    ensures AllMoved(x.c, x.oldSecret, x.newSecret, specs, before, after)
  {
    forall s | 0 <= s < |specs| && specs[s].table in before
      ensures TableMoved(x.c, x.oldSecret, x.newSecret, UsersOf(before), specs[s], before[specs[s].table],
                         if specs[s].table in after then after[specs[s].table] else [])
    {
      var t := specs[s].table;
      assert TableDone(x, specs, t, before[t], after[t], |specs|, 0);
      forall i | 0 <= i < |before[t]|
        ensures RowMoved(x.c, x.oldSecret, x.newSecret, UsersOf(before), specs[s], before[t][i], after[t][i])
      {
        FinishedRotation(x, specs, before, after, s, i);
        KeysStay(x, specs, before, after, |specs|, 0, s, i);
        RotatedMeansMoved(x, before, specs[s], before[t][i], after[t][i]);
      }
    }
  }

  /** The key column of `users` is the user id. */
  lemma UsersHaveOneRow(db: Database)
    requires AllKeysUnique(ENCRYPTED_COLUMNS, db)
    ensures OneRowPerUser(UsersOf(db))
  {
    var spec, users := ENCRYPTED_COLUMNS[0], UsersOf(db);
    assert spec in ENCRYPTED_COLUMNS && spec.table == "users" && spec.keys == ["discord_id"];
    if "users" in db {
      assert KeysUnique(spec, users);
      forall j, k | 0 <= j < |users| && 0 <= k < |users| && Cell(users[j], "discord_id") == Cell(users[k], "discord_id")
        ensures j == k
      {
        assert SameKeys(spec, users[j], users[j]) && "discord_id" in spec.keys;
        assert SameKeys(spec, users[j], users[k]);
      }
    }
  }

  /** Rotating to a new secret and back again leaves every readable row as readable as it was. */
  lemma ThereAndBack(x: Context, specs: seq<Spec>, start: Database, mid: Database, end: Database, s: nat, i: nat)
    requires RegistryOk(specs)
    requires Progress(x, specs, start, mid, |specs|, 0)
    requires Progress(x.(oldSecret := x.newSecret, newSecret := x.oldSecret), specs, mid, end, |specs|, 0)
    requires s < |specs| && specs[s].table in start && i < |start[specs[s].table]|
    ensures specs[s].table in end && i < |end[specs[s].table]|
    ensures var before, after := start[specs[s].table][i], end[specs[s].table][i];
            if Eligible(x.c, x.oldSecret, x.salts, specs[s], before) then
              && Eligible(x.c, x.oldSecret, x.salts, specs[s], after)
              && Plaintext(x.c, x.oldSecret, x.salts, specs[s], after) == Plaintext(x.c, x.oldSecret, x.salts, specs[s], before)
            else
              Untouched(specs[s], before, after)
  {
    var t, back := specs[s].table, x.(oldSecret := x.newSecret, newSecret := x.oldSecret);
    FinishedRotation(x, specs, start, mid, s, i);
    FinishedRotation(back, specs, mid, end, s, i);
    KeysStay(x, specs, start, mid, |specs|, 0, s, i);
    if !Eligible(x.c, x.oldSecret, x.salts, specs[s], start[t][i]) {
      SameView(x, x.newSecret, specs[s], start[t][i], mid[t][i]);
      EligibleForBoth(x, specs[s], start[t][i]);
    }
  }
}

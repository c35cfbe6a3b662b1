/**
  The codec of interactive components: action rows that nest, buttons, and whatever else a server may
  send, told apart by a number.
 */
module Components {
  import opened Wrappers

  /** JSON as the parser reads it: members in order, repeated keys included. `Float` is any other number. */
  datatype Json =
    | Null
    | Bool(b: bool)
    | Int(n: int)
    | Float
    | Str(s: string)
    | Arr(items: seq<Json>)
    | Obj(members: seq<Member>)

  datatype Member = Member(key: string, value: Json)

  type U8 = x: int | 0 <= x < 256

  datatype ActionRow = ActionRow(components: seq<Component>)

  datatype Component =
    | Row(row: ActionRow)
    | Button(style: U8, text: Option<string>, customId: Option<string>, url: Option<string>, disabled: bool)
    | Unknown

  datatype Error = Malformed

  // --- Encoding ---------------------------------------------------------------------------------------

  function Optional(key: string, value: Option<string>): seq<Member> {
    match value
    case None => []
    case Some(s) => [Member(key, Str(s))]
  }

  /** The members of a button that may be absent. */
  function Tail(c: Component): seq<Member>
    requires c.Button?
  {
    Optional("label", c.text) + Optional("custom_id", c.customId) + Optional("url", c.url)
    + if c.disabled then [Member("disabled", Bool(true))] else []
  }

  function Encode(c: Component): Json {
    match c
    case Row(row) => Obj([Member("type", Int(1)), Member("components", Arr(EncodeAll(row.components)))])
    case Button(_, _, _, _, _) => Obj([Member("type", Int(2)), Member("style", Int(c.style))] + Tail(c))
    case Unknown => Obj([Member("type", Int(0))])
  }

  function EncodeAll(cs: seq<Component>): seq<Json> {
    if cs == [] then [] else [Encode(cs[0])] + EncodeAll(cs[1..])
  }

  // --- Decoding ---------------------------------------------------------------------------------------

  function Size(j: Json): nat {
    match j
    case Arr(items) => 1 + ItemsSize(items)
    case Obj(members) => 1 + MembersSize(members)
    case _ => 1
  }

  function ItemsSize(items: seq<Json>): nat {
    if items == [] then 0 else 1 + Size(items[0]) + ItemsSize(items[1..])
  }

  function MembersSize(ms: seq<Member>): nat {
    if ms == [] then 0 else 1 + Size(ms[0].value) + MembersSize(ms[1..])
  }

  /** The fields read so far. */
  datatype Repr = Repr(
    kind: Option<U8>, components: Option<seq<Component>>, style: Option<U8>, text: Option<Option<string>>,
    customId: Option<Option<string>>, url: Option<Option<string>>, disabled: Option<bool>)

  const EMPTY := Repr(None, None, None, None, None, None, None)

  function ToU8(j: Json): Result<U8, Error> {
    if j.Int? && 0 <= j.n < 256 then Ok(j.n) else Err(Malformed)
  }

  function ToOptional(j: Json): Result<Option<string>, Error> {
    if j.Null? then Ok(None) else if j.Str? then Ok(Some(j.s)) else Err(Malformed)
  }

  function ToBool(j: Json): Result<bool, Error> {
    if j.Bool? then Ok(j.b) else Err(Malformed)
  }

  function ToComponents(j: Json): Result<seq<Component>, Error>
    decreases Size(j), 0
  {
    if j.Arr? then DecodeAll(j.items) else Err(Malformed)
  }

  /** Takes in one member: a repeated field is an error, a key that is no field is skipped. */
  function Take(r: Repr, m: Member): Result<Repr, Error>
    decreases Size(m.value), 1
  {
    match m.key
    case "type" =>
      if r.kind.Some? then Err(Malformed)
      else (match ToU8(m.value) case Ok(v) => Ok(r.(kind := Some(v))) case Err(e) => Err(e))
    case "components" =>
      if r.components.Some? then Err(Malformed)
      else (match ToComponents(m.value) case Ok(v) => Ok(r.(components := Some(v))) case Err(e) => Err(e))
    case "style" =>
      if r.style.Some? then Err(Malformed)
      else (match ToU8(m.value) case Ok(v) => Ok(r.(style := Some(v))) case Err(e) => Err(e))
    case "label" =>
      if r.text.Some? then Err(Malformed)
      else (match ToOptional(m.value) case Ok(v) => Ok(r.(text := Some(v))) case Err(e) => Err(e))
    case "custom_id" =>
      if r.customId.Some? then Err(Malformed)
      else (match ToOptional(m.value) case Ok(v) => Ok(r.(customId := Some(v))) case Err(e) => Err(e))
    case "url" =>
      if r.url.Some? then Err(Malformed)
      else (match ToOptional(m.value) case Ok(v) => Ok(r.(url := Some(v))) case Err(e) => Err(e))
    case "disabled" =>
      if r.disabled.Some? then Err(Malformed)
      else (match ToBool(m.value) case Ok(v) => Ok(r.(disabled := Some(v))) case Err(e) => Err(e))
    case _ => Ok(r)
  }

  function TakeAll(r: Repr, ms: seq<Member>): Result<Repr, Error>
    decreases MembersSize(ms)
  {
    if ms == [] then Ok(r)
    else match Take(r, ms[0])
      case Err(e) => Err(e)
      case Ok(next) => TakeAll(next, ms[1..])
  }

  function OrElse<T>(o: Option<T>, default: T): T {
    if o.Some? then o.value else default
  }

  /** The component of the fields: the number decides, the rest has defaults. */
  function Build(r: Repr): Result<Component, Error> {
    match r.kind
    case None => Err(Malformed)
    case Some(kind) =>
      if kind == 1 then Ok(Row(ActionRow(OrElse(r.components, []))))
      else if kind == 2 then
        Ok(Button(OrElse(r.style, 0), OrElse(r.text, None), OrElse(r.customId, None), OrElse(r.url, None), OrElse(r.disabled, false)))
      else Ok(Unknown)
  }

  const FIELDS: seq<string> := ["type", "components", "style", "label", "custom_id", "url", "disabled"]

  /** An array is read as the fields in their order, from the `k`-th. */
  function Named(items: seq<Json>, k: nat): (ms: seq<Member>)
    requires k + |items| <= |FIELDS|
    ensures MembersSize(ms) == ItemsSize(items)
  {
    if items == [] then [] else [Member(FIELDS[k], items[0])] + Named(items[1..], k + 1)
  }

  /** What is neither an object nor an array with at most as many items as fields has no members, and so no type. */
  function Decode(j: Json): Result<Component, Error>
    decreases Size(j)
  {
    var members := if j.Obj? then j.members else if j.Arr? && |j.items| <= |FIELDS| then Named(j.items, 0) else [];
    match TakeAll(EMPTY, members)
    case Err(e) => Err(e)
    case Ok(r) => Build(r)
  }

  function DecodeAll(js: seq<Json>): Result<seq<Component>, Error>
    decreases ItemsSize(js)
  {
    if js == [] then Ok([])
    else match Decode(js[0])
      case Err(e) => Err(e)
      case Ok(c) =>
        match DecodeAll(js[1..])
        case Err(e) => Err(e)
        case Ok(cs) => Ok([c] + cs)
  }

  // --- The round trip ---------------------------------------------------------------------------------

  lemma TakeCons(r: Repr, m: Member, rest: seq<Member>)
    ensures TakeAll(r, [m] + rest) == if Take(r, m).Err? then Take(r, m) else TakeAll(Take(r, m).value, rest)
  {
    assert ([m] + rest)[1..] == rest;
  }

  /** The field an optional member is read to: an absent member leaves no trace. */
  function Field(value: Option<string>): Option<Option<string>> {
    if value.None? then None else Some(value)
  }

  lemma TakeOptional(r: Repr, key: string, value: Option<string>, rest: seq<Member>)
    requires key in {"label", "custom_id", "url"}
    requires (key == "label" ==> r.text.None?) && (key == "custom_id" ==> r.customId.None?) && (key == "url" ==> r.url.None?)
    ensures TakeAll(r, Optional(key, value) + rest) ==
            TakeAll(if key == "label" then r.(text := Field(value))
                    else if key == "custom_id" then r.(customId := Field(value))
                    else r.(url := Field(value)), rest)
  {
    if value.None? {
      assert Optional(key, value) + rest == rest;
    } else {
      TakeCons(r, Member(key, Str(value.value)), rest);
    }
  }

  lemma TakeTail(r: Repr, c: Component)
    requires c.Button? && r.text.None? && r.customId.None? && r.url.None? && r.disabled.None?
    ensures TakeAll(r, Tail(c)) ==
            Ok(r.(text := Field(c.text), customId := Field(c.customId), url := Field(c.url),
                  disabled := if c.disabled then Some(true) else None))
  {
    var last := if c.disabled then [Member("disabled", Bool(true))] else [];
    var urls := Optional("url", c.url) + last;
    var ids := Optional("custom_id", c.customId) + urls;
    assert Tail(c) == Optional("label", c.text) + ids;
    var r1 := r.(text := Field(c.text));
    var r2 := r1.(customId := Field(c.customId));
    var r3 := r2.(url := Field(c.url));
    TakeOptional(r, "label", c.text, ids);
    TakeOptional(r1, "custom_id", c.customId, urls);
    TakeOptional(r2, "url", c.url, last);
    if c.disabled {
      TakeCons(r3, Member("disabled", Bool(true)), []);
      assert [Member("disabled", Bool(true))] + [] == last;
    }
  }

  lemma ButtonRoundTrip(c: Component)
    requires c.Button?
    ensures Decode(Encode(c)) == Ok(c)
  {
    var style := Member("style", Int(c.style));
    assert Encode(c).members == [Member("type", Int(2))] + ([style] + Tail(c));
    TakeCons(EMPTY, Member("type", Int(2)), [style] + Tail(c));
    TakeCons(EMPTY.(kind := Some(2)), style, Tail(c));
    TakeTail(EMPTY.(kind := Some(2), style := Some(c.style)), c);
  }

  lemma {:induction false} RoundTrip(c: Component)
    ensures Decode(Encode(c)) == Ok(c)
    decreases c
  {
    match c
    case Row(row) =>
      RoundTripAll(row.components);
      var second := Member("components", Arr(EncodeAll(row.components)));
      TakeCons(EMPTY, Member("type", Int(1)), [second]);
      TakeCons(EMPTY.(kind := Some(1)), second, []);
      assert Encode(c).members == [Member("type", Int(1))] + [second] && [second] + [] == [second];
    case Button(_, _, _, _, _) => ButtonRoundTrip(c);
    case Unknown =>
      TakeCons(EMPTY, Member("type", Int(0)), []);
      assert Encode(c).members == [Member("type", Int(0))] + [];
  }

  lemma {:induction false} RoundTripAll(cs: seq<Component>)
    ensures DecodeAll(EncodeAll(cs)) == Ok(cs)
    decreases cs
  {
    if cs != [] {
      RoundTrip(cs[0]);
      RoundTripAll(cs[1..]);
      assert EncodeAll(cs)[1..] == EncodeAll(cs[1..]);
      assert cs == [cs[0]] + cs[1..];
    }
  }

  /** Different trees are encoded differently. */
  lemma EncodeInjective(c: Component, d: Component)
    requires Encode(c) == Encode(d)
    ensures c == d
  {
    RoundTrip(c);
    RoundTrip(d);
  }

  // --- What decoding does not depend on ---------------------------------------------------------------

  lemma {:induction false} TakeAllAppend(r: Repr, ms: seq<Member>, rest: seq<Member>)
    ensures TakeAll(r, ms + rest) == if TakeAll(r, ms).Err? then TakeAll(r, ms) else TakeAll(TakeAll(r, ms).value, rest)
    decreases |ms|
  {
    if ms == [] {
      assert ms + rest == rest;
    } else {
      assert (ms + rest)[1..] == ms[1..] + rest;
      if Take(r, ms[0]).Ok? {
        TakeAllAppend(Take(r, ms[0]).value, ms[1..], rest);
      }
    }
  }

  lemma TakeErr(r: Repr, m: Member, n: Member)
    requires m.key != n.key && Take(r, m).Ok?
    ensures Take(Take(r, m).value, n).Err? == Take(r, n).Err?
  {
  }

  lemma TakeBoth(r: Repr, m: Member, n: Member)
    requires m.key != n.key && Take(r, m).Ok? && Take(r, n).Ok?
    ensures Take(Take(r, m).value, n) == Take(Take(r, n).value, m)
  {
  }

  /** Members with different keys are read to the same fields in either order. */
  lemma TakeCommutes(r: Repr, m: Member, n: Member)
    requires m.key != n.key
    ensures (if Take(r, m).Err? then Take(r, m) else Take(Take(r, m).value, n)) ==
            (if Take(r, n).Err? then Take(r, n) else Take(Take(r, n).value, m))
  {
    if Take(r, m).Ok? {
      TakeErr(r, m, n);
    }
    if Take(r, n).Ok? {
      TakeErr(r, n, m);
    }
    if Take(r, m).Ok? && Take(r, n).Ok? {
      TakeBoth(r, m, n);
    } else {
      SameError(if Take(r, m).Err? then Take(r, m) else Take(Take(r, m).value, n),
                if Take(r, n).Err? then Take(r, n) else Take(Take(r, n).value, m));
    }
  }

  lemma SameError(a: Result<Repr, Error>, b: Result<Repr, Error>)
    requires a.Err? && b.Err?
    ensures a == b
  {
    assert a.error == Malformed && b.error == Malformed;
  }

  /** The order of members does not matter. */
  lemma OrderIrrelevant(before: seq<Member>, m: Member, n: Member, after: seq<Member>)
    requires m.key != n.key
    ensures Decode(Obj(before + [m, n] + after)) == Decode(Obj(before + [n, m] + after))
  {
    TakeAllAppend(EMPTY, before, [m, n] + after);
    TakeAllAppend(EMPTY, before, [n, m] + after);
    assert before + [m, n] + after == before + ([m, n] + after);
    assert before + [n, m] + after == before + ([n, m] + after);
    if TakeAll(EMPTY, before).Ok? {
      var r := TakeAll(EMPTY, before).value;
      TakeCommutes(r, m, n);
    }
  }

  /** A member that is no field does not matter, whatever its value. */
  lemma UnknownMemberIgnored(before: seq<Member>, m: Member, after: seq<Member>)
    requires m.key !in FIELDS
    ensures Decode(Obj(before + [m] + after)) == Decode(Obj(before + after))
  {
    assert before + [m] + after == before + ([m] + after);
    TakeAllAppend(EMPTY, before, [m] + after);
    TakeAllAppend(EMPTY, before, after);
    assert forall i :: 0 <= i < |FIELDS| ==> FIELDS[i] != m.key;
    assert FIELDS[0] == "type" && FIELDS[1] == "components" && FIELDS[2] == "style" && FIELDS[3] == "label"
           && FIELDS[4] == "custom_id" && FIELDS[5] == "url" && FIELDS[6] == "disabled";
    if TakeAll(EMPTY, before).Ok? {
      TakeCons(TakeAll(EMPTY, before).value, m, after);
    }
  }
}

/**
  What a component is read from: each field of the object on its own. The codec folds over the members;
  here the result is told from the members themselves.
 */
module ComponentFields {
  import opened Wrappers
  import opened Components

  /** The value of the first member with this key. */
  function Get(ms: seq<Member>, key: string): Option<Json> {
    if ms == [] then None
    else if ms[0].key == key then Some(ms[0].value)
    else Get(ms[1..], key)
  }

  predicate IsField(key: string) {
    key in FIELDS
  }

  /** No field comes twice; other keys may. */
  ghost predicate FieldsOnce(ms: seq<Member>) {
    forall i, j :: 0 <= i < j < |ms| && ms[i].key == ms[j].key ==> !IsField(ms[i].key)
  }

  predicate IsByte(j: Json) {
    j.Int? && 0 <= j.n < 256
  }

  /** The value is of the kind its field asks for; what is under another key does not matter. */
  predicate WellTyped(m: Member) {
    match m.key
    case "type" => IsByte(m.value)
    case "style" => IsByte(m.value)
    case "components" => m.value.Arr? && DecodeAll(m.value.items).Ok?
    case "label" => m.value.Null? || m.value.Str?
    case "custom_id" => m.value.Null? || m.value.Str?
    case "url" => m.value.Null? || m.value.Str?
    case "disabled" => m.value.Bool?
    case _ => true
  }

  function TextOf(j: Option<Json>): Option<string> {
    match j
    case Some(Str(s)) => Some(s)
    case _ => None
  }

  // --- The fold ---------------------------------------------------------------------------------------

  ghost predicate ByteRead(v: Option<U8>, j: Option<Json>) {
    match j
    case None => v.None?
    case Some(x) => IsByte(x) && v.Some? && v.value == x.n
  }

  ghost predicate TextRead(v: Option<Option<string>>, j: Option<Json>) {
    match j
    case None => v.None?
    case Some(x) => (x.Null? || x.Str?) && v == Some(TextOf(j))
  }

  ghost predicate BoolRead(v: Option<bool>, j: Option<Json>) {
    match j
    case None => v.None?
    case Some(x) => x.Bool? && v == Some(x.b)
  }

  ghost predicate ListRead(v: Option<seq<Component>>, j: Option<Json>) {
    match j
    case None => v.None?
    case Some(x) => x.Arr? && v.Some? && DecodeAll(x.items) == Ok(v.value)
  }

  /** The fields read so far are those of the members so far. */
  ghost predicate Reads(r: Repr, ms: seq<Member>) {
    && ByteRead(r.kind, Get(ms, "type")) && ListRead(r.components, Get(ms, "components"))
    && ByteRead(r.style, Get(ms, "style")) && TextRead(r.text, Get(ms, "label"))
    && TextRead(r.customId, Get(ms, "custom_id")) && TextRead(r.url, Get(ms, "url"))
    && BoolRead(r.disabled, Get(ms, "disabled"))
  }

  lemma {:induction false} GetSnoc(ms: seq<Member>, m: Member, key: string)
    ensures Get(ms + [m], key) ==
            if Get(ms, key).Some? then Get(ms, key) else if m.key == key then Some(m.value) else None
  {
    if ms == [] {
      assert [] + [m] == [m];
    } else {
      assert (ms + [m])[0] == ms[0] && (ms + [m])[1..] == ms[1..] + [m];
      GetSnoc(ms[1..], m, key);
    }
  }

  lemma {:induction false} GetIff(ms: seq<Member>, key: string)
    ensures Get(ms, key).Some? <==> exists i :: 0 <= i < |ms| && ms[i].key == key
  {
    if ms != [] {
      GetIff(ms[1..], key);
      if ms[0].key != key {
        if i :| 0 <= i < |ms| && ms[i].key == key {
          assert ms[1..][i - 1] == ms[i];
        }
        if i :| 0 <= i < |ms[1..]| && ms[1..][i].key == key {
          assert ms[i + 1] == ms[1..][i];
        }
      }
    }
  }

  lemma FieldNames(key: string)
    ensures IsField(key) <==> key in {"type", "components", "style", "label", "custom_id", "url", "disabled"}
  {
    assert FIELDS == ["type", "components", "style", "label", "custom_id", "url", "disabled"];
  }

  /** One more member: it is taken exactly when it is well typed and no field that was there before. */
  lemma TakeIff(r: Repr, ms: seq<Member>, m: Member)
    requires Reads(r, ms)
    ensures Take(r, m).Ok? <==> WellTyped(m) && (IsField(m.key) ==> Get(ms, m.key).None?)
  {
    FieldNames(m.key);
  }

  lemma OtherFieldsStay(ms: seq<Member>, m: Member)
    ensures forall key :: key != m.key ==> Get(ms + [m], key) == Get(ms, key)
    ensures Get(ms, m.key).None? ==> Get(ms + [m], m.key) == Some(m.value)
  {
    forall key ensures key != m.key ==> Get(ms + [m], key) == Get(ms, key) {
      GetSnoc(ms, m, key);
    }
    GetSnoc(ms, m, m.key);
  }

  lemma TakeReads(r: Repr, ms: seq<Member>, m: Member)
    requires Reads(r, ms) && Take(r, m).Ok?
    ensures Reads(Take(r, m).value, ms + [m])
  {
    TakeIff(r, ms, m);
    OtherFieldsStay(ms, m);
    FieldNames(m.key);
  }

  lemma OnceSnoc(ms: seq<Member>, m: Member)
    ensures FieldsOnce(ms + [m]) <==> FieldsOnce(ms) && (IsField(m.key) ==> Get(ms, m.key).None?)
  {
    var all := ms + [m];
    GetIff(ms, m.key);
    if FieldsOnce(all) {
      forall i, j | 0 <= i < j < |ms| && ms[i].key == ms[j].key ensures !IsField(ms[i].key) {
        assert all[i] == ms[i] && all[j] == ms[j];
      }
      if Get(ms, m.key).Some? {
        var i :| 0 <= i < |ms| && ms[i].key == m.key;
        assert all[i] == ms[i] && all[|ms|] == m;
      }
    }
  }

  lemma {:induction false} TakeAllReads(ms: seq<Member>)
    ensures TakeAll(EMPTY, ms).Ok? <==> FieldsOnce(ms) && forall m <- ms :: WellTyped(m)
    ensures TakeAll(EMPTY, ms).Ok? ==> Reads(TakeAll(EMPTY, ms).value, ms)
    decreases |ms|
  {
    if ms != [] {
      var n := |ms| - 1;
      var last := ms[n];
      assert ms == ms[..n] + [last];
      assert forall m :: m in ms <==> m in ms[..n] || m == last;
      TakeAllReads(ms[..n]);
      TakeAllAppend(EMPTY, ms[..n], [last]);
      OnceSnoc(ms[..n], last);
      if TakeAll(EMPTY, ms[..n]).Ok? {
        var r := TakeAll(EMPTY, ms[..n]).value;
        TakeCons(r, last, []);
        assert [last] + [] == [last];
        TakeIff(r, ms[..n], last);
        if Take(r, last).Ok? {
          TakeReads(r, ms[..n], last);
        }
      }
    }
  }

  // --- The result -------------------------------------------------------------------------------------

  /** The component that the fields make: by the number in `type`, with defaults for what is absent. */
  ghost predicate Makes(ms: seq<Member>, c: Component) {
    match Get(ms, "type")
    case Some(Int(1)) =>
      c.Row? && (match Get(ms, "components")
                 case Some(Arr(items)) => DecodeAll(items) == Ok(c.row.components)
                 case _ => c.row.components == [])
    case Some(Int(2)) =>
      && c.Button? && c.style == (match Get(ms, "style") case Some(Int(n)) => n case _ => 0)
      && c.text == TextOf(Get(ms, "label")) && c.customId == TextOf(Get(ms, "custom_id")) && c.url == TextOf(Get(ms, "url"))
      && c.disabled == (Get(ms, "disabled") == Some(Bool(true)))
    case Some(_) => c.Unknown?
    case None => false
  }

  /**
    An object decodes exactly when it has a `type`, no field comes twice and each has the right kind of
    value; what it decodes to is told by its fields, and any number but 1 and 2 is an unknown component.
   */
  lemma DecodeObject(ms: seq<Member>)
    ensures Decode(Obj(ms)).Ok? <==>
              Get(ms, "type").Some? && FieldsOnce(ms) && forall m <- ms :: WellTyped(m)
    ensures Decode(Obj(ms)).Ok? ==> Makes(ms, Decode(Obj(ms)).value)
  {
    TakeAllReads(ms);
    if TakeAll(EMPTY, ms).Ok? {
      BuildMakes(TakeAll(EMPTY, ms).value, ms);
    }
  }

  lemma BuildMakes(r: Repr, ms: seq<Member>)
    requires Reads(r, ms)
    ensures Build(r).Ok? <==> Get(ms, "type").Some?
    ensures Build(r).Ok? ==> Makes(ms, Build(r).value)
  {
  }

  function TextField(value: Option<string>): Option<Json> {
    if value.Some? then Some(Str(value.value)) else None
  }

  lemma {:induction false} GetAppend(ms: seq<Member>, rest: seq<Member>, key: string)
    ensures Get(ms + rest, key) == if Get(ms, key).Some? then Get(ms, key) else Get(rest, key)
  {
    if ms == [] {
      assert ms + rest == rest;
    } else {
      assert (ms + rest)[0] == ms[0] && (ms + rest)[1..] == ms[1..] + rest;
      GetAppend(ms[1..], rest, key);
    }
  }

  lemma OneMember(name: string, value: Json, key: string)
    ensures Get([Member(name, value)], key) == if key == name then Some(value) else None
  {
    assert [Member(name, value)][1..] == [];
  }

  lemma ButtonMembers(c: Component, key: string)
    requires c.Button?
    ensures Get(Encode(c).members, key) ==
            match key
            case "type" => Some(Int(2))
            case "style" => Some(Int(c.style))
            case "label" => TextField(c.text)
            case "custom_id" => TextField(c.customId)
            case "url" => TextField(c.url)
            case "disabled" => if c.disabled then Some(Bool(true)) else None
            case _ => None
  {
    var head := [Member("type", Int(2)), Member("style", Int(c.style))];
    var last := if c.disabled then [Member("disabled", Bool(true))] else [];
    var text, ids, url := Optional("label", c.text), Optional("custom_id", c.customId), Optional("url", c.url);
    assert Encode(c).members == head + (((text + ids) + url) + last);
    GetAppend(head, ((text + ids) + url) + last, key);
    GetAppend((text + ids) + url, last, key);
    GetAppend(text + ids, url, key);
    GetAppend(text, ids, key);
    assert head[1..] == [Member("style", Int(c.style))];
  }

  /** What is written: the number of the kind, every field that is there, and nothing for one that is not. */
  lemma EncodeFields(c: Component, key: string)
    ensures Encode(c).Obj?
    ensures Get(Encode(c).members, key) ==
            match c
            case Row(row) =>
              if key == "type" then Some(Int(1))
              else if key == "components" then Some(Arr(EncodeAll(row.components))) else None
            case Button(style, text, customId, url, disabled) =>
              if key == "type" then Some(Int(2))
              else if key == "style" then Some(Int(style))
              else if key == "label" then TextField(text)
              else if key == "custom_id" then TextField(customId)
              else if key == "url" then TextField(url)
              else if key == "disabled" && disabled then Some(Bool(true)) else None
            case Unknown => if key == "type" then Some(Int(0)) else None
  {
    if c.Button? {
      ButtonMembers(c, key);
    } else if c.Row? {
      var list := Arr(EncodeAll(c.row.components));
      OneMember("components", list, key);
      GetAppend([Member("type", Int(1))], [Member("components", list)], key);
      OneMember("type", Int(1), key);
      assert Encode(c).members == [Member("type", Int(1))] + [Member("components", list)];
    } else {
      OneMember("type", Int(0), key);
    }
  }

  /** An array is read as the object with the same values under the field names, and no longer one is. */
  lemma DecodeArray(items: seq<Json>)
    ensures Decode(Arr(items)) == if |items| <= |FIELDS| then Decode(Obj(Named(items, 0))) else Err(Malformed)
    ensures |items| <= |FIELDS| ==>
              |Named(items, 0)| == |items| && forall i :: 0 <= i < |items| ==> Named(items, 0)[i] == Member(FIELDS[i], items[i])
  {
    if |items| <= |FIELDS| {
      NamedAt(items, 0);
    }
  }

  lemma {:induction false} NamedAt(items: seq<Json>, k: nat)
    requires k + |items| <= |FIELDS|
    ensures |Named(items, k)| == |items|
    ensures forall i :: 0 <= i < |items| ==> Named(items, k)[i] == Member(FIELDS[k + i], items[i])
  {
    if items != [] {
      NamedAt(items[1..], k + 1);
    }
  }
}

/** A JSON value as a tree. Texts, layouts and the order of keys are not part of the model. */
module Json {
  import opened Wrappers

  datatype Json =
    | Null
    | Bool(b: bool)
    | Int(n: int)
    | Float(x: real)
    | Str(s: string)
    | Arr(items: seq<Json>)
    | Obj(fields: map<string, Json>)

  const EMPTY_OBJECT: Json := Obj(map[])

  /** `v.get(key).and_then(as_str)`. */
  function StringField(v: Json, key: string): Option<string> {
    if v.Obj? && key in v.fields && v.fields[key].Str? then Some(v.fields[key].s) else None
  }

  /** One field of an object under construction; None is a field that is not written. */
  type Entry = (string, Option<Json>)

  /** The object a row of inserts builds. */
  function Object(entries: seq<Entry>): map<string, Json> {
    if entries == [] then map[]
    else
      var m := Object(entries[..|entries| - 1]);
      var last := entries[|entries| - 1];
      if last.1.Some? then m[last.0 := last.1.value] else m
  }

  predicate DistinctKeys(entries: seq<Entry>) {
    forall i, j :: 0 <= i < j < |entries| ==> entries[i].0 != entries[j].0
  }

  lemma {:induction false} ObjectKeys(entries: seq<Entry>, key: string)
    requires forall i :: 0 <= i < |entries| ==> entries[i].0 != key
    ensures key !in Object(entries)
  {
    if entries != [] {
      ObjectKeys(entries[..|entries| - 1], key);
    }
  }

  /** Each field of a built object is found under its own key, and an unwritten one is absent. */
  lemma {:induction false} ObjectAt(entries: seq<Entry>, i: nat)
    requires i < |entries| && DistinctKeys(entries)
    ensures entries[i].1.Some? ==> entries[i].0 in Object(entries) && Object(entries)[entries[i].0] == entries[i].1.value
    ensures entries[i].1.None? ==> entries[i].0 !in Object(entries)
  {
    var front := entries[..|entries| - 1];
    if i < |front| {
      ObjectAt(front, i);
    } else {
      ObjectKeys(front, entries[i].0);
    }
  }

  /** `serde_json::json!(strings)`. */
  function Strings(xs: seq<string>): (r: seq<Json>)
    ensures |r| == |xs|
    ensures forall i :: 0 <= i < |xs| ==> r[i] == Str(xs[i])
  {
    seq(|xs|, i requires 0 <= i < |xs| => Str(xs[i]))
  }
}

/** Typed reading of one field, as the derived deserialiser does it: missing or `null` is "not given",
    any other value of the wrong type fails the whole document. */
module Decode {
  import opened Wrappers
  import opened Json

  /** Err(()) is a type mismatch; Ok(None) is a field that is absent or null. */
  type Field<T> = Result<Option<T>, ()>

  function Raw(m: map<string, Json>, key: string): Option<Json> {
    if key in m && !m[key].Null? then Some(m[key]) else None
  }

  function StringOf(m: map<string, Json>, key: string): Field<string> {
    match Raw(m, key)
    case None => Ok(None)
    case Some(v) => if v.Str? then Ok(Some(v.s)) else Err(())
  }

  function BoolOf(m: map<string, Json>, key: string): Field<bool> {
    match Raw(m, key)
    case None => Ok(None)
    case Some(v) => if v.Bool? then Ok(Some(v.b)) else Err(())
  }

  predicate IsI32(n: int) {
    -0x8000_0000 <= n <= 0x7fff_ffff
  }

  function IntOf(m: map<string, Json>, key: string): Field<int> {
    match Raw(m, key)
    case None => Ok(None)
    case Some(v) => if v.Int? && IsI32(v.n) then Ok(Some(v.n)) else Err(())
  }

  predicate AllStrings(items: seq<Json>) {
    forall i :: 0 <= i < |items| ==> items[i].Str?
  }

  function StringsOf(m: map<string, Json>, key: string): Field<seq<string>> {
    match Raw(m, key)
    case None => Ok(None)
    case Some(v) =>
      if v.Arr? && AllStrings(v.items)
      then Ok(Some(seq(|v.items|, i requires 0 <= i < |v.items| => v.items[i].s)))
      else Err(())
  }

  function ArrayOf(m: map<string, Json>, key: string): Field<seq<Json>> {
    match Raw(m, key)
    case None => Ok(None)
    case Some(v) => if v.Arr? then Ok(Some(v.items)) else Err(())
  }
}

/** The canon printed insert by insert, and the skill header sanitised key by key. */
module Printing {
  import opened Wrappers
  import opened Text
  import opened Json
  import opened Canon

  lemma ObjectNext(entries: seq<Entry>, i: nat)
    requires i < |entries|
    ensures Object(entries[..i + 1])
         == if entries[i].1.Some? then Object(entries[..i])[entries[i].0 := entries[i].1.value] else Object(entries[..i])
  {
    assert entries[..i + 1][..i] == entries[..i];
  }

  /** Inserts what is given, in order; an absent value inserts nothing. */
  method InsertAll(entries: seq<Entry>) returns (m: map<string, Json>)
    ensures m == Object(entries)
  {
    hide Object;
    m := map[];
    assert entries[..0] == [] && Object([]) == map[] by { NoEntries(); }
    for i := 0 to |entries|
      invariant m == Object(entries[..i])
    {
      ObjectNext(entries, i);
      if entries[i].1.Some? {
        m := m[entries[i].0 := entries[i].1.value];
      }
    }
    assert entries[..|entries|] == entries;
  }

  lemma NoEntries()
    ensures Object([]) == map[]
  {
  }

  /** Prints a version. */
  method PrintList(v: VersionData) returns (canon: Json)
    ensures canon == ListJson(v)
  {
    hide Object, StepEntries, ShownHeader;
    var steps: seq<Json> := [];
    for i := 0 to |v.steps|
      invariant |steps| == i && forall j :: 0 <= j < i ==> steps[j] == EncodeStep(v.steps[j])
    {
      var fields := InsertAll(StepEntries(v.steps[i]));
      steps := steps + [Obj(fields)];
    }
    assert steps == EncodeSteps(v.steps);
    var root := InsertAll(ListEntries(v));
    canon := Obj(root);
  }

  const HEADER_KEY_LIST: seq<string> := ["license", "compatibility", "allowed-tools", "heading"]

  lemma HeaderKeyList()
    ensures forall k :: k in HEADER_KEYS <==> k in HEADER_KEY_LIST
    ensures "metadata" !in HEADER_KEYS
  {
    var a := HEADER_KEY_LIST;
    assert a[0] == "license" && a[1] == "compatibility" && a[2] == "allowed-tools" && a[3] == "heading";
  }

  /** The known texts of a header, one key after another. */
  method TakeTexts(m: map<string, Json>) returns (out: map<string, Json>)
    ensures out == KnownTexts(m)
  {
    hide Blank;
    HeaderKeyList();
    out := map[];
    for i := 0 to |HEADER_KEY_LIST|
      invariant forall k :: k in out <==> k in HEADER_KEY_LIST[..i] && k in m && KnownText(m, k)
      invariant forall k :: k in out ==> out[k] == m[k]
    {
      var key := HEADER_KEY_LIST[i];
      assert key in HEADER_KEY_LIST;
      assert HEADER_KEY_LIST[..i + 1] == HEADER_KEY_LIST[..i] + [key];
      if key in m && m[key].Str? && !Blank(m[key].s) {
        out := out[key := m[key]];
      }
    }
    assert HEADER_KEY_LIST[..|HEADER_KEY_LIST|] == HEADER_KEY_LIST;
  }

  /** The author's metadata: strings only, without the service's own keys. */
  method TakeMetadata(fields: map<string, Json>) returns (clean: map<string, Json>)
    ensures clean == CleanMetadata(Some(Obj(fields)))
  {
    clean := map[];
    var left := fields.Keys;
    while left != {}
      invariant left <= fields.Keys
      invariant forall k :: k in clean <==> k in fields && k !in left && !ForeignPair(fields, k)
      invariant forall k :: k in clean ==> clean[k] == fields[k]
      decreases |left|
    {
      var k :| k in left;
      left := left - {k};
      if !("setfork-" <= k) && fields[k].Str? {
        clean := clean[k := fields[k]];
      }
    }
  }

  /** The header in its admissible form, or nothing. */
  method CleanHeader(v: Json) returns (header: Option<Json>)
    ensures header == SkillHeaderValid(v)
  {
    hide KnownTexts, CleanMetadata;
    if !v.Obj? {
      return None;
    }
    var out := TakeTexts(v.fields);
    var clean: map<string, Json> := map[];
    if "metadata" in v.fields && v.fields["metadata"].Obj? {
      clean := TakeMetadata(v.fields["metadata"].fields);
    } else {
      assert CleanMetadata(Metadata(v.fields)) == map[] by { NoMetadata(Metadata(v.fields)); }
    }
    if clean != map[] {
      out := out["metadata" := Obj(clean)];
    }
    header := if out != map[] then Some(Obj(out)) else None;
  }

  lemma NoMetadata(v: Option<Json>)
    requires v.Some? ==> !v.value.Obj?
    ensures CleanMetadata(v) == map[]
  {
  }
}

/** What a reader of a printed canon sees: the round trip of `list.json`. */
module Reading {
  import opened Wrappers
  import opened Json
  import opened Decode
  import opened Canon

  // ---- the view of a reader --------------------------------------------------

  function SeenRef(r: StepRef): RawRef {
    RawRef(if r.caption != "" then Some(r.caption) else None, r.url)
  }

  function SeenRefs(refs: seq<StepRef>): (r: seq<RawRef>)
    ensures |r| == |refs|
    ensures forall i :: 0 <= i < |refs| ==> r[i] == SeenRef(refs[i])
  {
    seq(|refs|, i requires 0 <= i < |refs| => SeenRef(refs[i]))
  }

  function SeenStep(s: SerStep): RawStep {
    RawStep(Some(s.n), s.blockId,
            if IsStepBlock(s) then None else s.blockType,
            if IsStepBlock(s) || s.content.Null? then None else Some(s.content),
            Some(s.title), Some(s.desc), Some(s.command), ShownImage(s.imageKey), Some(s.level),
            if s.needsHuman then Some(true) else None,
            if s.needsHuman then s.needsHumanAsk else None,
            if s.danger then Some(true) else None,
            Some(s.why), Some(s.section), Some(s.subtasks), Some(SeenRefs(s.refs)))
  }

  function SeenSteps(steps: seq<SerStep>): (r: seq<RawStep>)
    ensures |r| == |steps|
    ensures forall i :: 0 <= i < |steps| ==> r[i] == SeenStep(steps[i])
  {
    seq(|steps|, i requires 0 <= i < |steps| => SeenStep(steps[i]))
  }

  function SeenList(v: VersionData): RawList {
    RawList(Some(v.title), Some(v.desc), Some(v.tags), Some(v.ordered), v.kind, ShownHeader(v.skillHeader),
            Some(v.version), Some(SeenSteps(v.steps)))
  }

  /** Version and step numbers fit the `i32` they are kept in. */
  predicate NumbersFit(v: VersionData) {
    IsI32(v.version) && forall i :: 0 <= i < |v.steps| ==> IsI32(v.steps[i].n)
  }

  lemma DecodeEncodedRef(r: StepRef)
    ensures DecodeRef(EncodeRef(r)) == Some(SeenRef(r))
  {
    var e := [("label", if r.caption != "" then Some(Str(r.caption)) else None), ("url", OptStr(r.url))];
    ObjectAt(e, 0);
    ObjectAt(e, 1);
  }

  lemma StepKeysDistinct(s: SerStep)
    ensures DistinctKeys(StepEntries(s))
  {
  }

  /** What a reader finds under each key of a printed step. */
  lemma PrintedStepAt(s: SerStep, i: nat)
    requires i < 16
    ensures Raw(Object(StepEntries(s)), StepEntries(s)[i].0)
         == if StepEntries(s)[i].1 == Some(Null) then None else StepEntries(s)[i].1
  {
    StepKeysDistinct(s);
    ObjectAt(StepEntries(s), i);
  }

  lemma DecodeEncodedRefs(refs: seq<StepRef>)
    ensures DecodeRefs(EncodeRefs(refs)) == Some(SeenRefs(refs))
  {
    forall i | 0 <= i < |refs| ensures DecodeRef(EncodeRefs(refs)[i]) == Some(SeenRef(refs[i])) {
      DecodeEncodedRef(refs[i]);
    }
    assert DecodeRefs(EncodeRefs(refs)).value == SeenRefs(refs);
  }

  lemma ReadStrings(m: map<string, Json>, key: string, xs: seq<string>)
    requires Raw(m, key) == Some(Arr(Strings(xs)))
    ensures StringsOf(m, key) == Ok(Some(xs))
  {
    assert StringsOf(m, key).value.value == xs;
  }

  /** The fields of an object, read back with their types, are the fields of a step as a reader sees it. */
  predicate ReadsIdentity(m: map<string, Json>, s: SerStep) {
    && IntOf(m, "n") == Ok(Some(s.n))
    && StringOf(m, "blockId") == Ok(s.blockId)
    && StringOf(m, "type") == Ok(if IsStepBlock(s) then None else s.blockType)
    && Raw(m, "content") == (if IsStepBlock(s) || s.content.Null? then None else Some(s.content))
  }

  predicate ReadsTexts(m: map<string, Json>, s: SerStep) {
    && StringOf(m, "title") == Ok(Some(s.title))
    && StringOf(m, "desc") == Ok(Some(s.desc))
    && StringOf(m, "command") == Ok(Some(s.command))
    && StringOf(m, "imageKey") == Ok(ShownImage(s.imageKey))
  }

  predicate ReadsMarks(m: map<string, Json>, s: SerStep) {
    && StringOf(m, "level") == Ok(Some(s.level))
    && BoolOf(m, "needsHuman") == Ok(if s.needsHuman then Some(true) else None)
    && StringOf(m, "needsHumanAsk") == Ok(if s.needsHuman then s.needsHumanAsk else None)
    && BoolOf(m, "danger") == Ok(if s.danger then Some(true) else None)
  }

  predicate ReadsLists(m: map<string, Json>, s: SerStep) {
    && StringOf(m, "why") == Ok(Some(s.why))
    && StringOf(m, "section") == Ok(Some(s.section))
    && StringsOf(m, "subtasks") == Ok(Some(s.subtasks))
    && ArrayOf(m, "refs") == Ok(Some(EncodeRefs(s.refs)))
  }

  lemma PrintedIdentity(s: SerStep)
    requires IsI32(s.n)
    ensures ReadsIdentity(Object(StepEntries(s)), s)
  {
    PrintedStepAt(s, 0); PrintedStepAt(s, 1); PrintedStepAt(s, 2); PrintedStepAt(s, 3);
  }

  lemma PrintedTexts(s: SerStep)
    ensures ReadsTexts(Object(StepEntries(s)), s)
  {
    PrintedStepAt(s, 4); PrintedStepAt(s, 5); PrintedStepAt(s, 6); PrintedStepAt(s, 7);
  }

  lemma PrintedMarks(s: SerStep)
    ensures ReadsMarks(Object(StepEntries(s)), s)
  {
    PrintedStepAt(s, 8); PrintedStepAt(s, 9); PrintedStepAt(s, 10); PrintedStepAt(s, 11);
  }

  lemma PrintedLists(s: SerStep)
    ensures ReadsLists(Object(StepEntries(s)), s)
  {
    PrintedStepAt(s, 12); PrintedStepAt(s, 13); PrintedStepAt(s, 14); PrintedStepAt(s, 15);
    ReadStrings(Object(StepEntries(s)), "subtasks", s.subtasks);
  }

  lemma DecodeRead(m: map<string, Json>, s: SerStep)
    requires ReadsIdentity(m, s) && ReadsTexts(m, s) && ReadsMarks(m, s) && ReadsLists(m, s)
    ensures DecodeStep(Obj(m)) == Some(SeenStep(s))
  {
    DecodeEncodedRefs(s.refs);
  }

  lemma DecodeEncodedStep(s: SerStep)
    requires IsI32(s.n)
    ensures DecodeStep(EncodeStep(s)) == Some(SeenStep(s))
  {
    PrintedIdentity(s);
    PrintedTexts(s);
    PrintedMarks(s);
    PrintedLists(s);
    DecodeRead(Object(StepEntries(s)), s);
  }

  lemma ListKeysDistinct(v: VersionData)
    ensures DistinctKeys(ListEntries(v))
  {
  }

  predicate ReadsMeta(m: map<string, Json>, v: VersionData) {
    && StringOf(m, "title") == Ok(Some(v.title))
    && StringOf(m, "desc") == Ok(Some(v.desc))
    && StringsOf(m, "tags") == Ok(Some(v.tags))
    && BoolOf(m, "ordered") == Ok(Some(v.ordered))
    && StringOf(m, "kind") == Ok(v.kind)
    && Raw(m, "skillHeader") == ShownHeader(v.skillHeader)
    && IntOf(m, "version") == Ok(Some(v.version))
    && ArrayOf(m, "steps") == Ok(Some(EncodeSteps(v.steps)))
  }

  /** What a reader finds under each key of a printed version. */
  lemma PrintedListAt(v: VersionData, i: nat)
    requires i < 9
    ensures Raw(Object(ListEntries(v)), ListEntries(v)[i].0)
         == if ListEntries(v)[i].1 == Some(Null) then None else ListEntries(v)[i].1
  {
    hide ShownHeader;
    ListKeysDistinct(v);
    ObjectAt(ListEntries(v), i);
  }

  lemma HeaderIsNotNull(h: Option<Json>)
    ensures ShownHeader(h) != Some(Null)
  {
  }

  lemma PrintedMeta(v: VersionData)
    requires IsI32(v.version)
    ensures ReadsMeta(Object(ListEntries(v)), v)
  {
    hide Object, ShownHeader;
    HeaderIsNotNull(v.skillHeader);
    PrintedListAt(v, 1); PrintedListAt(v, 2); PrintedListAt(v, 3); PrintedListAt(v, 4);
    PrintedListAt(v, 5); PrintedListAt(v, 6); PrintedListAt(v, 7); PrintedListAt(v, 8);
    ReadStrings(Object(ListEntries(v)), "tags", v.tags);
  }

  lemma DecodeEncodedSteps(steps: seq<SerStep>)
    requires forall i :: 0 <= i < |steps| ==> IsI32(steps[i].n)
    ensures DecodeSteps(EncodeSteps(steps)) == Some(SeenSteps(steps))
  {
    forall i | 0 <= i < |steps| ensures DecodeStep(EncodeSteps(steps)[i]) == Some(SeenStep(steps[i])) {
      DecodeEncodedStep(steps[i]);
    }
    assert DecodeSteps(EncodeSteps(steps)).value == SeenSteps(steps);
  }

  /** Printing loses nothing a reader of the canon is meant to see, for every version. */
  lemma DecodePrinted(v: VersionData)
    requires NumbersFit(v)
    ensures DecodeList(ListJson(v)) == Some(SeenList(v))
  {
    PrintedMeta(v);
    DecodeEncodedSteps(v.steps);
  }

  /** The manifest names its schema, and a printed reference has its caption as label and its address as url. */
  lemma PrintedKeys(v: VersionData, r: StepRef)
    ensures Raw(ListJson(v).fields, "$schema") == Some(Str("https://setfork.com/schema/list.v1.json"))
    ensures EncodeRef(r).Obj?
    ensures StringOf(EncodeRef(r).fields, "label") == Ok(if r.caption != "" then Some(r.caption) else None)
    ensures StringOf(EncodeRef(r).fields, "url") == Ok(r.url)
  {
    hide ShownHeader;
    PrintedListAt(v, 0);
    var e := [("label", if r.caption != "" then Some(Str(r.caption)) else None), ("url", OptStr(r.url))];
    ObjectAt(e, 0);
    ObjectAt(e, 1);
  }

  // ---- the soft reading of any value ----------------------------------------------------------

  /** Missing, `null` or of its type: any other value makes the whole document unreadable. */
  predicate TextOrNothing(m: map<string, Json>, k: string) {
    k in m ==> m[k].Null? || m[k].Str?
  }

  predicate FlagOrNothing(m: map<string, Json>, k: string) {
    k in m ==> m[k].Null? || m[k].Bool?
  }

  predicate NumberOrNothing(m: map<string, Json>, k: string) {
    k in m ==> m[k].Null? || (m[k].Int? && -2_147_483_648 <= m[k].n <= 2_147_483_647)
  }

  predicate TextsOrNothing(m: map<string, Json>, k: string) {
    k in m ==> m[k].Null? || (m[k].Arr? && forall i :: 0 <= i < |m[k].items| ==> m[k].items[i].Str?)
  }

  predicate ShapedRef(v: Json) {
    v.Obj? && TextOrNothing(v.fields, "label") && TextOrNothing(v.fields, "url")
  }

  predicate ShapedStep(v: Json) {
    && v.Obj?
    && var m := v.fields;
    && NumberOrNothing(m, "n") && TextOrNothing(m, "blockId") && TextOrNothing(m, "type")
    && TextOrNothing(m, "title") && TextOrNothing(m, "desc") && TextOrNothing(m, "command")
    && TextOrNothing(m, "imageKey") && TextOrNothing(m, "level")
    && FlagOrNothing(m, "needsHuman") && TextOrNothing(m, "needsHumanAsk") && FlagOrNothing(m, "danger")
    && TextOrNothing(m, "why") && TextOrNothing(m, "section") && TextsOrNothing(m, "subtasks")
    && ("refs" in m ==> m["refs"].Null? || (m["refs"].Arr? && forall i :: 0 <= i < |m["refs"].items| ==> ShapedRef(m["refs"].items[i])))
  }

  predicate ShapedList(v: Json) {
    && v.Obj?
    && var m := v.fields;
    && TextOrNothing(m, "title") && TextOrNothing(m, "desc") && TextsOrNothing(m, "tags") && FlagOrNothing(m, "ordered")
    && TextOrNothing(m, "kind") && NumberOrNothing(m, "version")
    && ("steps" in m ==> m["steps"].Null? || (m["steps"].Arr? && forall i :: 0 <= i < |m["steps"].items| ==> ShapedStep(m["steps"].items[i])))
  }

  function TextAt(m: map<string, Json>, k: string): Option<string> {
    if k in m && m[k].Str? then Some(m[k].s) else None
  }

  function FlagAt(m: map<string, Json>, k: string): Option<bool> {
    if k in m && m[k].Bool? then Some(m[k].b) else None
  }

  function NumberAt(m: map<string, Json>, k: string): Option<int> {
    if k in m && m[k].Int? then Some(m[k].n) else None
  }

  /** What was read is what stands there under each key. */
  predicate RefFound(v: Json, r: RawRef) {
    v.Obj? && r.caption == TextAt(v.fields, "label") && r.url == TextAt(v.fields, "url")
  }

  predicate TextsFound(m: map<string, Json>, k: string, xs: Option<seq<string>>) {
    if k in m && m[k].Arr? then
      xs.Some? && |xs.value| == |m[k].items| && forall i :: 0 <= i < |xs.value| ==> m[k].items[i] == Str(xs.value[i])
    else xs.None?
  }

  predicate StepFound(v: Json, s: RawStep) {
    && v.Obj?
    && var m := v.fields;
    && s.n == NumberAt(m, "n") && s.blockId == TextAt(m, "blockId") && s.blockType == TextAt(m, "type")
    && s.content == (if "content" in m && !m["content"].Null? then Some(m["content"]) else None)
    && s.title == TextAt(m, "title") && s.desc == TextAt(m, "desc") && s.command == TextAt(m, "command")
    && s.imageKey == TextAt(m, "imageKey") && s.level == TextAt(m, "level")
    && s.needsHuman == FlagAt(m, "needsHuman") && s.needsHumanAsk == TextAt(m, "needsHumanAsk") && s.danger == FlagAt(m, "danger")
    && s.why == TextAt(m, "why") && s.section == TextAt(m, "section") && TextsFound(m, "subtasks", s.subtasks)
    && (if "refs" in m && m["refs"].Arr? then
          s.refs.Some? && |s.refs.value| == |m["refs"].items| && forall i :: 0 <= i < |s.refs.value| ==> RefFound(m["refs"].items[i], s.refs.value[i])
        else s.refs.None?)
  }

  predicate ListFound(v: Json, raw: RawList) {
    && v.Obj?
    && var m := v.fields;
    && raw.title == TextAt(m, "title") && raw.desc == TextAt(m, "desc") && TextsFound(m, "tags", raw.tags)
    && raw.ordered == FlagAt(m, "ordered") && raw.kind == TextAt(m, "kind") && raw.version == NumberAt(m, "version")
    && raw.skillHeader == (if "skillHeader" in m && !m["skillHeader"].Null? then Some(m["skillHeader"]) else None)
    && (if "steps" in m && m["steps"].Arr? then
          raw.steps.Some? && |raw.steps.value| == |m["steps"].items|
          && forall i :: 0 <= i < |raw.steps.value| ==> StepFound(m["steps"].items[i], raw.steps.value[i])
        else raw.steps.None?)
  }

  lemma TextRead(m: map<string, Json>)
    ensures forall k :: (StringOf(m, k).Ok? <==> TextOrNothing(m, k)) && (TextOrNothing(m, k) ==> StringOf(m, k) == Ok(TextAt(m, k)))
  {
  }

  lemma FlagRead(m: map<string, Json>)
    ensures forall k :: (BoolOf(m, k).Ok? <==> FlagOrNothing(m, k)) && (FlagOrNothing(m, k) ==> BoolOf(m, k) == Ok(FlagAt(m, k)))
  {
  }

  lemma NumberRead(m: map<string, Json>)
    ensures forall k :: (IntOf(m, k).Ok? <==> NumberOrNothing(m, k)) && (NumberOrNothing(m, k) ==> IntOf(m, k) == Ok(NumberAt(m, k)))
  {
  }

  lemma TextsRead(m: map<string, Json>, k: string)
    ensures StringsOf(m, k).Ok? <==> TextsOrNothing(m, k)
    ensures StringsOf(m, k).Ok? ==> TextsFound(m, k, StringsOf(m, k).value)
  {
  }

  lemma RefIsFound(v: Json)
    ensures DecodeRef(v).Some? <==> ShapedRef(v)
    ensures DecodeRef(v).Some? ==> RefFound(v, DecodeRef(v).value)
  {
  }

  lemma StepIsFound(v: Json)
    ensures DecodeStep(v).Some? <==> ShapedStep(v)
    ensures DecodeStep(v).Some? ==> StepFound(v, DecodeStep(v).value)
  {
    hide DecodeRef, ShapedRef, RefFound, StringOf, BoolOf, IntOf, StringsOf, TextOrNothing, FlagOrNothing, NumberOrNothing,
      TextsOrNothing, TextAt, FlagAt, NumberAt, TextsFound;
    if v.Obj? {
      TextRead(v.fields);
      FlagRead(v.fields);
      NumberRead(v.fields);
      TextsRead(v.fields, "subtasks");
    }
    forall x: Json ensures (DecodeRef(x).Some? <==> ShapedRef(x)) && (DecodeRef(x).Some? ==> RefFound(x, DecodeRef(x).value)) {
      RefIsFound(x);
    }
  }

  /** The soft reading takes exactly the documents in which every field that is given has its type, and finds under each
      key what stands there. */
  lemma SoftReading(v: Json)
    ensures DecodeList(v).Some? <==> ShapedList(v)
    ensures DecodeList(v).Some? ==> ListFound(v, DecodeList(v).value)
  {
    hide DecodeStep, ShapedStep, StepFound, StringOf, BoolOf, IntOf, StringsOf, TextOrNothing, FlagOrNothing, NumberOrNothing,
      TextsOrNothing, TextAt, FlagAt, NumberAt, TextsFound;
    if v.Obj? {
      TextRead(v.fields);
      FlagRead(v.fields);
      NumberRead(v.fields);
      TextsRead(v.fields, "tags");
    }
    forall x: Json ensures (DecodeStep(x).Some? <==> ShapedStep(x)) && (DecodeStep(x).Some? ==> StepFound(x, DecodeStep(x).value)) {
      StepIsFound(x);
    }
  }
}

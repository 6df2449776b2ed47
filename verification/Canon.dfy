/** The block model: what a step is, and how the type of a block is stored. */
module Blocks {
  predicate IsStepType(t: string) {
    t == "" || t == "step"
  }

  function StorageType(t: string): string {
    if IsStepType(t) then "step" else t
  }
}

/** The canon `list.json`: the data of a version, its printed form and the two ways it is read. */
module Canon {
  import opened Wrappers
  import opened Text
  import opened Json
  import opened Decode
  import opened Blocks

  // ---- the data of one version ----------------------------------------------------------------

  datatype StepRef = StepRef(caption: string, url: Option<string>)

  datatype SerStep = SerStep(
    n: int,
    blockType: Option<string>,
    content: Json,
    blockId: Option<string>,
    title: string,
    desc: string,
    command: string,
    imageKey: Option<string>,
    level: string,
    needsHuman: bool,
    needsHumanAsk: Option<string>,
    danger: bool,
    why: string,
    section: string,
    subtasks: seq<string>,
    refs: seq<StepRef>
  )

  datatype VersionData = VersionData(
    version: int,
    note: string,
    ts: int,
    title: string,
    desc: string,
    tags: seq<string>,
    ordered: bool,
    kind: Option<string>,
    skillHeader: Option<Json>,
    steps: seq<SerStep>
  )

  predicate IsStepBlock(s: SerStep) {
    s.blockType.None? || IsStepType(s.blockType.value)
  }

  /** A reference lives when it has an address or a caption. */
  predicate KeepsRef(caption: string, url: Option<string>) {
    !Blank(caption) || (url.Some? && !Blank(url.value))
  }

  predicate IsValidKind(k: string) {
    k in ["procedure", "inventory", "checklist", "criteria", "options", "recipe"]
  }

  // ---- the skill header -----------------------------------------------------------------------

  const HEADER_KEYS: set<string> := {"license", "compatibility", "allowed-tools", "heading"}

  predicate KnownText(m: map<string, Json>, k: string)
    requires k in m
  {
    k in HEADER_KEYS && m[k].Str? && !Blank(m[k].s)
  }

  function KnownTexts(m: map<string, Json>): (r: map<string, Json>)
  {
    map k | k in m && KnownText(m, k) :: m[k]
  }

  predicate ForeignPair(m: map<string, Json>, k: string)
    requires k in m
  {
    "setfork-" <= k || !m[k].Str?
  }

  /** Metadata of the author: string to string, without the service's own keys. */
  function CleanMetadata(v: Option<Json>): map<string, Json> {
    if v.Some? && v.value.Obj? then map k | k in v.value.fields && !ForeignPair(v.value.fields, k) :: v.value.fields[k] else map[]
  }

  function Metadata(m: map<string, Json>): Option<Json> {
    if "metadata" in m then Some(m["metadata"]) else None
  }

  function CleanFields(m: map<string, Json>): map<string, Json> {
    var clean := CleanMetadata(Metadata(m));
    if clean == map[] then KnownTexts(m) else KnownTexts(m)["metadata" := Obj(clean)]
  }

  /** The header in its admissible form: known non-blank strings and clean metadata; None when nothing is left. */
  function SkillHeaderValid(v: Json): Option<Json> {
    if v.Obj? && CleanFields(v.fields) != map[] then Some(Obj(CleanFields(v.fields))) else None
  }

  lemma CleanFieldsIdempotent(m: map<string, Json>)
    ensures CleanFields(CleanFields(m)) == CleanFields(m)
  {
    var c := CleanFields(m);
    var clean := CleanMetadata(Metadata(m));
    assert "metadata" !in HEADER_KEYS && "metadata" !in KnownTexts(m);
    assert KnownTexts(c) == KnownTexts(m);
    assert CleanMetadata(Some(Obj(clean))) == clean;
  }

  /** Cleaning a header that is already clean changes nothing. */
  lemma SkillHeaderIdempotent(v: Json)
    requires SkillHeaderValid(v).Some?
    ensures SkillHeaderValid(SkillHeaderValid(v).value) == SkillHeaderValid(v)
    ensures SkillHeaderValid(v).value.Obj? && SkillHeaderValid(v).value.fields != map[]
  {
    CleanFieldsIdempotent(v.fields);
  }

  /** A text of the header that is kept: one of four keys, with something to read. */
  predicate KeptText(m: map<string, Json>, k: string) {
    && k in m && (k == "license" || k == "compatibility" || k == "allowed-tools" || k == "heading")
    && m[k].Str? && exists i :: 0 <= i < |m[k].s| && !IsSpace(m[k].s[i])
  }

  /** A pair of the metadata that is kept: a text under a key that is not the service's own. */
  predicate KeptPair(m: map<string, Json>, j: string) {
    && "metadata" in m && m["metadata"].Obj? && j in m["metadata"].fields
    && m["metadata"].fields[j].Str? && !("setfork-" <= j)
  }

  lemma KeptTextIsKnown(m: map<string, Json>, k: string)
    requires k in m
    ensures KeptText(m, k) <==> KnownText(m, k)
  {
    hide Blank;
    if m[k].Str? {
      BlankIsAllSpace(m[k].s);
    }
  }

  /** The admissible form holds exactly the kept texts and the kept pairs, with their values; there is none when nothing
      is kept. */
  lemma HeaderHolds(v: Json)
    ensures SkillHeaderValid(v).Some? <==> v.Obj? && exists k :: KeptText(v.fields, k) || KeptPair(v.fields, k)
    ensures SkillHeaderValid(v).Some? ==>
              var kept := SkillHeaderValid(v).value.fields;
              && (forall k :: k in kept && k != "metadata" <==> KeptText(v.fields, k))
              && (forall k :: KeptText(v.fields, k) ==> kept[k] == v.fields[k])
              && ("metadata" in kept <==> exists j :: KeptPair(v.fields, j))
              && ("metadata" in kept ==>
                    && kept["metadata"].Obj?
                    && (forall j :: j in kept["metadata"].fields <==> KeptPair(v.fields, j))
                    && (forall j :: KeptPair(v.fields, j) ==> kept["metadata"].fields[j] == v.fields["metadata"].fields[j]))
  {
    hide KeptText, KnownText;
    if v.Obj? {
      var m := v.fields;
      forall k ensures KeptText(m, k) <==> k in m && KnownText(m, k) {
        if k in m {
          KeptTextIsKnown(m, k);
        } else {
          assert !KeptText(m, k) by { NotKept(m, k); }
        }
      }
      assert !KeptText(m, "metadata") by { NotKept(m, "metadata"); }
      var clean := CleanMetadata(Metadata(m));
      assert forall j :: j in clean <==> KeptPair(m, j);
      assert forall k :: k in KnownTexts(m) <==> KeptText(m, k);
      if clean != map[] {
        var j :| j in clean;
        assert KeptPair(m, j) && "metadata" in CleanFields(m);
      } else if KnownTexts(m) != map[] {
        var k :| k in KnownTexts(m);
      }
    }
  }

  lemma NotKept(m: map<string, Json>, k: string)
    requires k !in m || k == "metadata"
    ensures !KeptText(m, k)
  {
  }

  // ---- printing -------------------------------------------------------------------------------

  function OptStr(s: Option<string>): Option<Json> {
    if s.Some? then Some(Str(s.value)) else None
  }

  function Flag(b: bool): Option<Json> {
    if b then Some(Bool(true)) else None
  }

  /** The picture key as the canon shows it: a blank key is no key. */
  function ShownImage(key: Option<string>): Option<string> {
    if key.Some? && !Blank(key.value) then Some(Trim(key.value)) else None
  }

  function EncodeRef(r: StepRef): Json {
    Obj(Object([("label", if r.caption != "" then Some(Str(r.caption)) else None), ("url", OptStr(r.url))]))
  }

  function EncodeRefs(refs: seq<StepRef>): (r: seq<Json>)
    ensures |r| == |refs|
    ensures forall i :: 0 <= i < |refs| ==> r[i] == EncodeRef(refs[i])
  {
    seq(|refs|, i requires 0 <= i < |refs| => EncodeRef(refs[i]))
  }

  function StepEntries(s: SerStep): (r: seq<Entry>)
    ensures |r| == 16
  {
    [("n", Some(Int(s.n))),
     ("blockId", OptStr(s.blockId)),
     ("type", if IsStepBlock(s) then None else Some(Str(s.blockType.value))),
     ("content", if IsStepBlock(s) then None else Some(s.content)),
     ("title", Some(Str(s.title))),
     ("desc", Some(Str(s.desc))),
     ("command", Some(Str(s.command))),
     ("imageKey", OptStr(ShownImage(s.imageKey))),
     ("level", Some(Str(s.level))),
     ("needsHuman", Flag(s.needsHuman)),
     ("needsHumanAsk", if s.needsHuman then OptStr(s.needsHumanAsk) else None),
     ("danger", Flag(s.danger)),
     ("why", Some(Str(s.why))),
     ("section", Some(Str(s.section))),
     ("subtasks", Some(Arr(Strings(s.subtasks)))),
     ("refs", Some(Arr(EncodeRefs(s.refs))))]
  }

  function EncodeStep(s: SerStep): Json {
    Obj(Object(StepEntries(s)))
  }

  function EncodeSteps(steps: seq<SerStep>): (r: seq<Json>)
    ensures |r| == |steps|
    ensures forall i :: 0 <= i < |steps| ==> r[i] == EncodeStep(steps[i])
  {
    seq(|steps|, i requires 0 <= i < |steps| => EncodeStep(steps[i]))
  }

  const SCHEMA_URL := "https://setfork.com/schema/list.v1.json"

  function ShownHeader(h: Option<Json>): Option<Json> {
    if h.Some? then SkillHeaderValid(h.value) else None
  }

  function ListEntries(v: VersionData): (r: seq<Entry>)
    ensures |r| == 9
  {
    [("$schema", Some(Str(SCHEMA_URL))),
     ("title", Some(Str(v.title))),
     ("desc", Some(Str(v.desc))),
     ("tags", Some(Arr(Strings(v.tags)))),
     ("ordered", Some(Bool(v.ordered))),
     ("kind", OptStr(v.kind)),
     ("skillHeader", ShownHeader(v.skillHeader)),
     ("version", Some(Int(v.version))),
     ("steps", Some(Arr(EncodeSteps(v.steps))))]
  }

  /** The machine-readable snapshot of a version. */
  function ListJson(v: VersionData): Json {
    Obj(Object(ListEntries(v)))
  }

  // ---- soft reading ---------------------------------------------------------------------------

  datatype RawRef = RawRef(caption: Option<string>, url: Option<string>)

  datatype RawStep = RawStep(
    n: Option<int>,
    blockId: Option<string>,
    blockType: Option<string>,
    content: Option<Json>,
    title: Option<string>,
    desc: Option<string>,
    command: Option<string>,
    imageKey: Option<string>,
    level: Option<string>,
    needsHuman: Option<bool>,
    needsHumanAsk: Option<string>,
    danger: Option<bool>,
    why: Option<string>,
    section: Option<string>,
    subtasks: Option<seq<string>>,
    refs: Option<seq<RawRef>>
  )

  datatype RawList = RawList(
    title: Option<string>,
    desc: Option<string>,
    tags: Option<seq<string>>,
    ordered: Option<bool>,
    kind: Option<string>,
    skillHeader: Option<Json>,
    version: Option<int>,
    steps: Option<seq<RawStep>>
  )

  function DecodeRef(v: Json): Option<RawRef> {
    if !v.Obj? then None
    else
      var caption, url := StringOf(v.fields, "label"), StringOf(v.fields, "url");
      if caption.Err? || url.Err? then None else Some(RawRef(caption.value, url.value))
  }

  function DecodeRefs(items: seq<Json>): (r: Option<seq<RawRef>>)
    ensures r.Some? <==> forall i :: 0 <= i < |items| ==> DecodeRef(items[i]).Some?
    ensures r.Some? ==> |r.value| == |items| && forall i :: 0 <= i < |items| ==> DecodeRef(items[i]) == Some(r.value[i])
  {
    hide DecodeRef;
    if items == [] then Some([])
    else
      match (DecodeRef(items[0]), DecodeRefs(items[1..]))
      case (Some(r), Some(rest)) => Some([r] + rest)
      case _ => None
  }

  function DecodeStep(v: Json): Option<RawStep> {
    if !v.Obj? then None
    else
      var m := v.fields;
      var n, blockId, blockType := IntOf(m, "n"), StringOf(m, "blockId"), StringOf(m, "type");
      var title, desc, command := StringOf(m, "title"), StringOf(m, "desc"), StringOf(m, "command");
      var imageKey, level := StringOf(m, "imageKey"), StringOf(m, "level");
      var needsHuman, ask, danger := BoolOf(m, "needsHuman"), StringOf(m, "needsHumanAsk"), BoolOf(m, "danger");
      var why, section := StringOf(m, "why"), StringOf(m, "section");
      var subtasks, refItems := StringsOf(m, "subtasks"), ArrayOf(m, "refs");
      if n.Err? || blockId.Err? || blockType.Err? || title.Err? || desc.Err? || command.Err? || imageKey.Err?
         || level.Err? || needsHuman.Err? || ask.Err? || danger.Err? || why.Err? || section.Err?
         || subtasks.Err? || refItems.Err?
      then None
      else
        var refs := if refItems.value.Some? then DecodeRefs(refItems.value.value) else Some([]);
        if refs.None? then None
        else Some(RawStep(n.value, blockId.value, blockType.value, Raw(m, "content"), title.value, desc.value,
                          command.value, imageKey.value, level.value, needsHuman.value, ask.value, danger.value,
                          why.value, section.value, subtasks.value,
                          if refItems.value.Some? then Some(refs.value) else None))
  }

  function DecodeSteps(items: seq<Json>): (r: Option<seq<RawStep>>)
    ensures r.Some? <==> forall i :: 0 <= i < |items| ==> DecodeStep(items[i]).Some?
    ensures r.Some? ==> |r.value| == |items| && forall i :: 0 <= i < |items| ==> DecodeStep(items[i]) == Some(r.value[i])
  {
    hide DecodeStep;
    if items == [] then Some([])
    else
      match (DecodeStep(items[0]), DecodeSteps(items[1..]))
      case (Some(s), Some(rest)) => Some([s] + rest)
      case _ => None
  }

  /** The soft reading of a manifest; None when the value does not have its shape. */
  function DecodeList(v: Json): Option<RawList> {
    if !v.Obj? then None
    else
      var m := v.fields;
      var title, desc, tags, ordered := StringOf(m, "title"), StringOf(m, "desc"), StringsOf(m, "tags"), BoolOf(m, "ordered");
      var kind, version, stepItems := StringOf(m, "kind"), IntOf(m, "version"), ArrayOf(m, "steps");
      if title.Err? || desc.Err? || tags.Err? || ordered.Err? || kind.Err? || version.Err? || stepItems.Err? then None
      else
        var steps := if stepItems.value.Some? then DecodeSteps(stepItems.value.value) else Some([]);
        if steps.None? then None
        else Some(RawList(title.value, desc.value, tags.value, ordered.value, kind.value, Raw(m, "skillHeader"),
                          version.value, if stepItems.value.Some? then Some(steps.value) else None))
  }
}

/** The rows of Postgres: how they are read into a version, and what a pushed canon writes back.
    A LocaleText column is modelled by the string it projects to. */
module Rows {
  import opened Wrappers
  import opened Text
  import opened Json
  import opened Blocks
  import opened Canon

  // ---- identities and levels ------------------------------------------------------------------

  /** A block identity. Like the text form of a UUID, several texts may parse to one identity,
      but the text written for an identity always parses back to it. */
  type Uuid = nat

  function FormatUuid(u: Uuid): string {
    Dec(u)
  }

  function ParseUuid(s: string): Option<Uuid> {
    if s != "" && AllDigits(s) then Some(ParseDec(s)) else None
  }

  lemma UuidRoundTrip(u: Uuid)
    ensures ParseUuid(FormatUuid(u)) == Some(u) && !Blank(FormatUuid(u))
  {
    ParseDecOfDec(u);
    BlankIsAllSpace(FormatUuid(u));
    assert IsDigit(FormatUuid(u)[0]);
  }

  datatype Level = Required | Recommended | Optional

  function ParseLevel(s: string): Level {
    match Trim(s)
    case "recommended" => Recommended
    case "optional" => Optional
    case _ => Required
  }

  function LevelText(l: Level): string {
    match l
    case Required => "required"
    case Recommended => "recommended"
    case Optional => "optional"
  }

  lemma LevelRoundTrip(l: Level)
    ensures ParseLevel(LevelText(l)) == l
  {
  }

  // ---- rows -----------------------------------------------------------------------------------

  datatype StepRow = StepRow(
    blockType: string,
    content: Json,
    blockId: Option<Uuid>,
    title: string,
    desc: string,
    command: string,
    imageKey: Option<string>,
    level: Level,
    why: string,
    section: string,
    subtasks: seq<string>,
    refs: seq<StepRef>,
    needsHuman: bool,
    needsHumanAsk: string,
    danger: bool
  )

  datatype Meta = Meta(
    title: string,
    desc: string,
    tags: seq<string>,
    ordered: bool,
    kind: Option<string>,
    skillHeader: Option<Json>
  )

  // ---- reading rows into a version ------------------------------------------------------------

  function NonEmpty(xs: seq<string>): (r: seq<string>)
    ensures |r| <= |xs|
    ensures forall i :: 0 <= i < |r| ==> r[i] != ""
  {
    if xs == [] then []
    else NonEmpty(xs[..|xs| - 1]) + (if xs[|xs| - 1] == "" then [] else [xs[|xs| - 1]])
  }

  /** `refs_from_json`: the references that live. */
  function LiveRefs(refs: seq<StepRef>): (r: seq<StepRef>)
    ensures |r| <= |refs|
    ensures forall i :: 0 <= i < |r| ==> KeepsRef(r[i].caption, r[i].url)
  {
    if refs == [] then []
    else
      var last := refs[|refs| - 1];
      LiveRefs(refs[..|refs| - 1]) + (if KeepsRef(last.caption, last.url) then [last] else [])
  }

  /** The bulk reader, `load_bundle_data`: a stored row as a step of the canon. */
  function LoadStep(n: int, r: StepRow): SerStep {
    var isStep := IsStepType(r.blockType);
    SerStep(n, if isStep then None else Some(r.blockType), if isStep then Null else r.content,
            if r.blockId.Some? then Some(FormatUuid(r.blockId.value)) else None,
            r.title, r.desc, r.command, r.imageKey, LevelText(r.level),
            r.needsHuman, if r.needsHumanAsk != "" then Some(r.needsHumanAsk) else None, r.danger,
            r.why, r.section, NonEmpty(r.subtasks), LiveRefs(r.refs))
  }

  /** The row reader of the web write, `ser_step_from_row`: it drops a question without a mark. */
  function SerStepFromRow(n: int, r: StepRow): SerStep {
    LoadStep(n, r).(needsHumanAsk := if r.needsHumanAsk != "" && r.needsHuman then Some(r.needsHumanAsk) else None)
  }

  function LoadSteps(rows: seq<StepRow>): (r: seq<SerStep>)
    ensures |r| == |rows|
    ensures forall i :: 0 <= i < |rows| ==> r[i] == LoadStep(i + 1, rows[i])
  {
    seq(|rows|, i requires 0 <= i < |rows| => LoadStep(i + 1, rows[i]))
  }

  function SerStepsFromRows(rows: seq<StepRow>): (r: seq<SerStep>)
    ensures |r| == |rows|
    ensures forall i :: 0 <= i < |rows| ==> r[i] == SerStepFromRow(i + 1, rows[i])
  {
    seq(|rows|, i requires 0 <= i < |rows| => SerStepFromRow(i + 1, rows[i]))
  }

  function ValidKind(k: Option<string>): Option<string> {
    if k.Some? && IsValidKind(k.value) then k else None
  }

  /** One version as the bulk reader gives it: its own rows under today's meta of the list. */
  function LoadVersion(version: int, note: string, ts: int, meta: Meta, rows: seq<StepRow>): VersionData {
    VersionData(version, note, ts, meta.title, meta.desc, meta.tags, meta.ordered, ValidKind(meta.kind),
                ShownHeader(meta.skillHeader), LoadSteps(rows))
  }

  // ---- the pushed canon -----------------------------------------------------------------------

  datatype ProjStep = ProjStep(
    imageKey: Option<string>,
    needsHuman: Option<bool>,
    needsHumanAsk: Option<string>,
    danger: Option<bool>,
    blockType: string,
    content: Json,
    blockId: Option<string>,
    title: string,
    desc: string,
    command: string,
    level: string,
    why: string,
    section: string,
    subtasks: seq<string>,
    refs: seq<StepRef>
  )

  /** A step block without a title is dropped by the soft reading. */
  predicate Drops(s: RawStep) {
    IsStepType(s.blockType.GetOr("")) && Blank(s.title.GetOr(""))
  }

  function RefOf(r: RawRef): StepRef {
    StepRef(r.caption.GetOr(""), r.url)
  }

  function RefsOf(refs: seq<RawRef>): (r: seq<StepRef>)
    ensures |r| == |refs|
    ensures forall i :: 0 <= i < |refs| ==> r[i] == RefOf(refs[i])
  {
    seq(|refs|, i requires 0 <= i < |refs| => RefOf(refs[i]))
  }

  function ParseStep(s: RawStep): ProjStep {
    var bt := s.blockType.GetOr("");
    ProjStep(s.imageKey, s.needsHuman,
             if s.needsHumanAsk.Some? && !Blank(s.needsHumanAsk.value) then s.needsHumanAsk else None,
             s.danger,
             if IsStepType(bt) then "" else bt,
             if IsStepType(bt) then Null else s.content.GetOr(Null),
             if s.blockId.Some? && !Blank(s.blockId.value) then s.blockId else None,
             s.title.GetOr(""), s.desc.GetOr(""), s.command.GetOr(""), s.level.GetOr(""), s.why.GetOr(""),
             s.section.GetOr(""), s.subtasks.GetOr([]), LiveRefs(RefsOf(s.refs.GetOr([]))))
  }

  function ParseSteps(raw: seq<RawStep>): seq<ProjStep> {
    if raw == [] then []
    else
      var last := raw[|raw| - 1];
      ParseSteps(raw[..|raw| - 1]) + (if Drops(last) then [] else [ParseStep(last)])
  }

  // ---- marks carried over by block identity ---------------------------------------------------

  datatype Marks = Marks(needsHuman: bool, needsHumanAsk: string, imageKey: Option<string>, danger: bool)

  const NO_MARKS := Marks(false, "", None, false)

  function MarksOf(r: StepRow): Marks {
    Marks(r.needsHuman, r.needsHumanAsk, r.imageKey, r.danger)
  }

  /** The marks kept for a block: those of the last row that carries its identity. */
  function MarksFor(rows: seq<StepRow>, id: Uuid): Marks {
    if rows == [] then NO_MARKS
    else if rows[|rows| - 1].blockId == Some(id) then MarksOf(rows[|rows| - 1])
    else MarksFor(rows[..|rows| - 1], id)
  }

  function Carry(rows: seq<StepRow>, blockId: Option<string>): Marks {
    if blockId.Some? && ParseUuid(blockId.value).Some? then MarksFor(rows, ParseUuid(blockId.value).value) else NO_MARKS
  }

  /** Subtasks of a git input: blank ones are dropped, the others trimmed. */
  function CleanSubtasks(xs: seq<string>): (r: seq<string>)
    ensures |r| <= |xs|
    ensures forall i :: 0 <= i < |r| ==> r[i] != "" && Trimmed(r[i])
  {
    if xs == [] then []
    else
      var last := xs[|xs| - 1];
      TrimIdempotent(last);
      CleanSubtasks(xs[..|xs| - 1]) + (if Blank(last) then [] else [Trim(last)])
  }

  function CleanRef(r: StepRef): StepRef {
    StepRef(Trim(r.caption), if r.url.Some? && !Blank(r.url.value) then Some(Trim(r.url.value)) else None)
  }

  function CleanRefs(refs: seq<StepRef>): (r: seq<StepRef>)
    ensures |r| == |LiveRefs(refs)|
    ensures forall i :: 0 <= i < |r| ==> r[i] == CleanRef(LiveRefs(refs)[i])
  {
    var live := LiveRefs(refs);
    seq(|live|, i requires 0 <= i < |live| => CleanRef(live[i]))
  }

  /** A pushed step as a row, with the marks carried over for its block. */
  function RowFrom(s: ProjStep, carry: Marks): StepRow {
    StepRow(
      StorageType(s.blockType),
      if IsStepType(s.blockType) then EMPTY_OBJECT else s.content,
      if s.blockId.Some? then ParseUuid(s.blockId.value) else None,
      Trim(s.title), Trim(s.desc), Trim(s.command),
      (match s.imageKey
       case None => carry.imageKey
       case Some(k) => if Blank(k) then None else Some(Trim(k))),
      ParseLevel(s.level), Trim(s.why), Trim(s.section),
      CleanSubtasks(s.subtasks), CleanRefs(s.refs),
      s.needsHuman.GetOr(carry.needsHuman),
      (match s.needsHuman
       case None => carry.needsHumanAsk
       case Some(up) => if up then Trim(s.needsHumanAsk.GetOr("")) else ""),
      s.danger.GetOr(carry.danger))
  }

  /** A pushed step as a row; `current` are the rows of the version it replaces. */
  function ProjStepRow(s: ProjStep, current: seq<StepRow>): StepRow {
    RowFrom(s, Carry(current, s.blockId))
  }

  function ProjRows(steps: seq<ProjStep>, current: seq<StepRow>): (r: seq<StepRow>)
    ensures |r| == |steps|
    ensures forall i :: 0 <= i < |steps| ==> r[i] == ProjStepRow(steps[i], current)
  {
    seq(|steps|, i requires 0 <= i < |steps| => ProjStepRow(steps[i], current))
  }

  // ---- meta -----------------------------------------------------------------------------------

  function Take20(xs: seq<string>): seq<string> {
    if |xs| <= 20 then xs else xs[..20]
  }

  /** `update_meta`: what was not in the file is not touched. */
  function UpdateMeta(m: Meta, raw: RawList): Meta {
    Meta(
      if raw.title.Some? && !Blank(raw.title.value) then Trim(raw.title.value) else m.title,
      if raw.desc.Some? then Trim(raw.desc.value) else m.desc,
      if raw.tags.Some? then Take20(raw.tags.value) else m.tags,
      raw.ordered.GetOr(m.ordered),
      if ValidKind(raw.kind).Some? then raw.kind else m.kind,
      match raw.skillHeader
      case None => m.skillHeader
      case Some(h) =>
        if h == EMPTY_OBJECT then None
        else if SkillHeaderValid(h).Some? then SkillHeaderValid(h)
        else m.skillHeader)
  }
}

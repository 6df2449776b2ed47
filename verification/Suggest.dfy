/** The canon the core builds from what a client sends for a branch or a resolved merge. The wire carries no marks:
    they are filled in from the database, so that no suggestion can take a mark off. */
module Suggest {
  import opened Wrappers
  import opened Text
  import opened Json
  import opened Blocks
  import opened Canon
  import opened Reading
  import opened Rows
  import opened FixedPoint
  import opened Projection

  datatype WireStep = WireStep(
    n: int, title: string, desc: string, command: string, level: string, why: string, section: string,
    subtasks: seq<string>, refs: seq<StepRef>, blockType: string, content: Json, blockId: string)

  datatype Wire = Wire(version: int, title: string, desc: string, tags: seq<string>, ordered: bool, steps: seq<WireStep>)

  function WireRefs(refs: seq<StepRef>): (r: seq<StepRef>)
    ensures |r| == |refs|
  {
    seq(|refs|, i requires 0 <= i < |refs| => if refs[i].url == Some("") then refs[i].(url := None) else refs[i])
  }

  /** A step of the wire: no picture, no marks. */
  function FromWire(w: WireStep): SerStep {
    var isStep := IsStepType(w.blockType);
    SerStep(w.n, if isStep then None else Some(w.blockType), if isStep then EMPTY_OBJECT else w.content,
            if Blank(w.blockId) then None else Some(w.blockId), w.title, w.desc, w.command, None, w.level,
            false, None, false, w.why, w.section, w.subtasks, WireRefs(w.refs))
  }

  /** The marks of the database put into a step. */
  function WithMarks(s: SerStep, m: Marks): SerStep {
    s.(imageKey := m.imageKey, needsHuman := m.needsHuman,
       needsHumanAsk := if m.needsHumanAsk != "" && m.needsHuman then Some(m.needsHumanAsk) else None,
       danger := m.danger)
  }

  function Marked(steps: seq<WireStep>, current: seq<StepRow>): (r: seq<SerStep>)
    ensures |r| == |steps|
    ensures forall i :: 0 <= i < |steps| ==> r[i] == WithMarks(FromWire(steps[i]), Carry(current, FromWire(steps[i]).blockId))
  {
    seq(|steps|, i requires 0 <= i < |steps| => WithMarks(FromWire(steps[i]), Carry(current, FromWire(steps[i]).blockId)))
  }

  /** The version whose print is the canon: kind, header and marks from the database, the rest from the wire. */
  function Suggested(c: Wire, kind: Option<string>, header: Option<Json>, current: seq<StepRow>): VersionData {
    VersionData(c.version, "", 0, c.title, c.desc, c.tags, c.ordered, ValidKind(kind), header, Marked(c.steps, current))
  }

  method FromListContent(c: Wire) returns (v: VersionData)
    ensures v == VersionData(c.version, "", 0, c.title, c.desc, c.tags, c.ordered, None, None, v.steps)
    ensures |v.steps| == |c.steps| && forall i :: 0 <= i < |c.steps| ==> v.steps[i] == FromWire(c.steps[i])
  {
    var steps := seq(|c.steps|, i requires 0 <= i < |c.steps| => FromWire(c.steps[i]));
    v := VersionData(c.version, "", 0, c.title, c.desc, c.tags, c.ordered, None, None, steps);
  }

  lemma NoMarksIsNothing(w: WireStep)
    ensures WithMarks(FromWire(w), NO_MARKS) == FromWire(w)
  {
    hide WireRefs, Blank;
  }

  /** Builds the canon of a suggestion, filling in the marks step by step. */
  method CanonListJson(c: Wire, kind: Option<string>, header: Option<Json>, current: seq<StepRow>) returns (canon: Json)
    ensures canon == ListJson(Suggested(c, kind, header, current))
  {
    hide FromWire, WithMarks, MarksFor, ListJson, ValidKind;
    var keep := CurrentMarks(current);
    var v := FromListContent(c);
    v := v.(kind := ValidKind(kind), skillHeader := header);
    ghost var plain := v.steps;
    for i := 0 to |v.steps|
      invariant v == VersionData(c.version, "", 0, c.title, c.desc, c.tags, c.ordered, ValidKind(kind), header, v.steps)
      invariant |v.steps| == |plain| == |c.steps|
      invariant forall j :: 0 <= j < i ==> v.steps[j] == WithMarks(plain[j], Carry(current, plain[j].blockId))
      invariant forall j :: i <= j < |plain| ==> v.steps[j] == plain[j]
    {
      var s := v.steps[i];
      NoMarksIsNothing(c.steps[i]);
      if s.blockId.Some? && ParseUuid(s.blockId.value).Some? && ParseUuid(s.blockId.value).value in keep {
        v := v.(steps := v.steps[i := WithMarks(s, keep[ParseUuid(s.blockId.value).value])]);
      } else {
        assert KeptFor(keep, s.blockId) == NO_MARKS;
      }
      assert KeptFor(keep, s.blockId) == Carry(current, s.blockId);
    }
    assert v.steps == Marked(c.steps, current);
    canon := ListJson(v);
  }

  // ---- no mark is lost ------------------------------------------------------------------------

  /** A step whose canon carries the marks `m`, projected over rows that keep `carry` for its block. */
  lemma MarksProjected(s: SerStep, m: Marks, current: seq<StepRow>)
    requires s == WithMarks(s, m)
    ensures MarksOf(ProjStepRow(ParseStep(SeenStep(s)), current)) == Remark(m, Carry(current, ParseStep(SeenStep(s)).blockId))
  {
    hide Trim, ParseUuid, MarksFor, CleanSubtasks, CleanRefs, LiveRefs, RefsOf, SeenRefs;
    ImageShownTwice(m.imageKey);
    if m.needsHuman && m.needsHumanAsk != "" && Blank(m.needsHumanAsk) {
      assert Trim(m.needsHumanAsk) == "";
    }
    assert Trim("") == "" by { EmptyIsTrimmed(); }
  }

  lemma EmptyIsTrimmed()
    ensures Trim("") == ""
  {
  }

  lemma {:induction false} ParsedComeFrom(raw: seq<RawStep>, k: nat)
    requires k < |ParseSteps(raw)|
    ensures exists i :: 0 <= i < |raw| && ParseSteps(raw)[k] == ParseStep(raw[i])
  {
    hide Drops, ParseStep;
    var n := |raw| - 1;
    var front := ParseSteps(raw[..n]);
    if k < |front| {
      ParsedComeFrom(raw[..n], k);
      var i :| 0 <= i < n && front[k] == ParseStep(raw[..n][i]);
      assert raw[i] == raw[..n][i];
    } else {
      assert ParseSteps(raw)[k] == ParseStep(raw[n]);
    }
  }

  /** The block id a wire step and its row agree on. */
  lemma SeenBlockId(w: WireStep, m: Marks)
    ensures ParseStep(SeenStep(WithMarks(FromWire(w), m))).blockId == FromWire(w).blockId
  {
    hide WireRefs, RefsOf, LiveRefs, SeenRefs, Trim;
  }

  /** A row that has the marks its block had in the rows the canon was built from and in the rows it replaces. */
  predicate KeepsMarks(row: StepRow, built: seq<StepRow>, replaced: seq<StepRow>) {
    && row.danger == (CarryOf(built, row).danger || CarryOf(replaced, row).danger)
    && row.needsHuman == (CarryOf(built, row).needsHuman || CarryOf(replaced, row).needsHuman)
    && MarksOf(row) == Remark(CarryOf(built, row), CarryOf(replaced, row))
  }

  /** No suggestion takes a mark off, whatever the client sends and whatever rows it was built over: in every
      version it leads to, each block is marked dangerous exactly when it was so in the rows the canon was built
      from or in the rows it replaces, and likewise for the need of a human. */
  lemma NoMarkIsTakenOff(c: Wire, kind: Option<string>, header: Option<Json>, built: seq<StepRow>, l: Listing, k: nat)
    requires NumbersFit(Suggested(c, kind, header, built))
    ensures var pushed := PushCanon(l, ListJson(Suggested(c, kind, header, built)));
            && pushed.Some?
            && (k < |pushed.value.rows| ==> KeepsMarks(pushed.value.rows[k], built, l.rows))
  {
    hide ListJson, DecodeList, FromWire, WithMarks, ParseStep, SeenStep, ParseSteps, RowFrom, UpdateMeta, MarksFor, ParseUuid, ValidKind;
    var v := Suggested(c, kind, header, built);
    DecodePrinted(v);
    var raw := SeenSteps(v.steps);
    if k < |ParseSteps(raw)| {
      ParsedComeFrom(raw, k);
      var i :| 0 <= i < |raw| && ParseSteps(raw)[k] == ParseStep(raw[i]);
      var plain := FromWire(c.steps[i]);
      var m := Carry(built, plain.blockId);
      WithMarksTwice(plain, m);
      MarksProjected(v.steps[i], m, l.rows);
      SeenBlockId(c.steps[i], m);
      RowBlock(ParseSteps(raw)[k], l.rows);
    }
  }

  lemma WithMarksTwice(s: SerStep, m: Marks)
    ensures WithMarks(WithMarks(s, m), m) == WithMarks(s, m)
  {
  }

  lemma RowBlock(s: ProjStep, rows: seq<StepRow>)
    ensures forall current :: CarryOf(current, ProjStepRow(s, rows)) == Carry(current, s.blockId)
  {
    hide Trim, MarksFor, ParseUuid, CleanSubtasks, CleanRefs;
  }
}

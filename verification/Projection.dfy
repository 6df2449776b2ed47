/** The loops of the projection: reading the steps of a pushed canon and the marks of the current version. */
module Projection {
  import opened Wrappers
  import opened Text
  import opened Blocks
  import opened Canon
  import opened Rows

  lemma ParseStepsNext(raw: seq<RawStep>, i: nat)
    requires i < |raw|
    ensures ParseSteps(raw[..i + 1]) == ParseSteps(raw[..i]) + (if Drops(raw[i]) then [] else [ParseStep(raw[i])])
  {
    hide Drops, ParseStep;
    assert raw[..i + 1][..i] == raw[..i];
  }

  lemma ParseNothing()
    ensures ParseSteps([]) == []
  {
  }

  /** The steps of a manifest: a step block without a title is skipped, everything else is kept in order. */
  method ReadSteps(raw: seq<RawStep>) returns (kept: seq<ProjStep>)
    ensures kept == ParseSteps(raw)
  {
    hide ParseSteps, ParseStep, Blank;
    kept := [];
    assert raw[..0] == [];
    ParseNothing();
    for i := 0 to |raw|
      invariant kept == ParseSteps(raw[..i])
    {
      ParseStepsNext(raw, i);
      var s := raw[i];
      if !(IsStepType(s.blockType.GetOr("")) && Blank(s.title.GetOr(""))) {
        kept := kept + [ParseStep(s)];
      }
    }
    assert raw[..|raw|] == raw;
  }

  function KeptMarks(keep: map<Uuid, Marks>, id: Uuid): Marks {
    if id in keep then keep[id] else NO_MARKS
  }

  lemma MarksForNext(rows: seq<StepRow>, i: nat, id: Uuid)
    requires i < |rows|
    ensures MarksFor(rows[..i + 1], id) == if rows[i].blockId == Some(id) then MarksOf(rows[i]) else MarksFor(rows[..i], id)
  {
    assert rows[..i + 1][..i] == rows[..i];
  }

  /** The marks of the current version by block: of two rows with one identity the later one wins. */
  method CurrentMarks(rows: seq<StepRow>) returns (keep: map<Uuid, Marks>)
    ensures forall id: Uuid :: KeptMarks(keep, id) == MarksFor(rows, id)
  {
    hide MarksFor;
    keep := map[];
    assert rows[..0] == [];
    forall id: Uuid ensures MarksFor([], id) == NO_MARKS { NoRowsNoMarks(id); }
    for i := 0 to |rows|
      invariant forall id: Uuid :: KeptMarks(keep, id) == MarksFor(rows[..i], id)
    {
      ghost var before := keep;
      if rows[i].blockId.Some? {
        keep := keep[rows[i].blockId.value := MarksOf(rows[i])];
      }
      forall id: Uuid ensures KeptMarks(keep, id) == MarksFor(rows[..i + 1], id) {
        MarksForNext(rows, i, id);
        assert KeptMarks(before, id) == MarksFor(rows[..i], id);
      }
    }
    assert rows[..|rows|] == rows;
  }

  lemma NoRowsNoMarks(id: Uuid)
    ensures MarksFor([], id) == NO_MARKS
  {
  }

  function KeptFor(keep: map<Uuid, Marks>, blockId: Option<string>): Marks {
    if blockId.Some? && ParseUuid(blockId.value).Some? then KeptMarks(keep, ParseUuid(blockId.value).value) else NO_MARKS
  }

  /** The rows of a pushed version. */
  method PushedRows(raw: seq<RawStep>, current: seq<StepRow>) returns (rows: seq<StepRow>)
    ensures rows == ProjRows(ParseSteps(raw), current)
  {
    hide ParseSteps, RowFrom, MarksFor, KeptMarks;
    var keep := CurrentMarks(current);
    var steps := ReadSteps(raw);
    rows := [];
    for i := 0 to |steps|
      invariant |rows| == i && forall j :: 0 <= j < i ==> rows[j] == ProjStepRow(steps[j], current)
    {
      assert KeptFor(keep, steps[i].blockId) == Carry(current, steps[i].blockId);
      rows := rows + [RowFrom(steps[i], KeptFor(keep, steps[i].blockId))];
    }
  }

  lemma LoadStepsNext(rows: seq<StepRow>, i: nat)
    requires i < |rows|
    ensures LoadSteps(rows[..i + 1]) == LoadSteps(rows[..i]) + [LoadStep(i + 1, rows[i])]
  {
    hide LoadStep;
  }

  /** The bulk reader puts the rows of a version one after another. */
  method ReadVersionSteps(rows: seq<StepRow>) returns (steps: seq<SerStep>)
    ensures steps == LoadSteps(rows)
  {
    hide LoadStep;
    steps := [];
    for i := 0 to |rows|
      invariant steps == LoadSteps(rows[..i])
    {
      LoadStepsNext(rows, i);
      steps := steps + [LoadStep(i + 1, rows[i])];
    }
    assert rows[..|rows|] == rows;
  }
}

/** The strict reading of the canon: what the soft reading would lose in silence is named, place by place. */
module Strict {
  import opened Wrappers
  import opened Text
  import opened Json
  import opened Decode
  import opened Blocks
  import opened Canon
  import opened Rows

  datatype IssueCode = StepTitleRequired | RefEmpty

  /** `path` is a JSON Pointer as its reference tokens: `/steps/3/title` is ["steps", "3", "title"]. */
  datatype Issue = Issue(path: seq<string>, code: IssueCode)

  datatype LossProbe = LossProbe(blockType: Option<string>, title: Option<string>, refs: Option<seq<RawRef>>)

  function DecodeProbe(v: Json): Option<LossProbe> {
    if !v.Obj? then None
    else
      var blockType, title, refItems := StringOf(v.fields, "type"), StringOf(v.fields, "title"), ArrayOf(v.fields, "refs");
      if blockType.Err? || title.Err? || refItems.Err? then None
      else if refItems.value.None? then Some(LossProbe(blockType.value, title.value, None))
      else
        match DecodeRefs(refItems.value.value)
        case None => None
        case Some(refs) => Some(LossProbe(blockType.value, title.value, Some(refs)))
  }

  function TitlePath(i: nat): seq<string> {
    ["steps", Dec(i), "title"]
  }

  function RefPath(i: nat, k: nat): seq<string> {
    ["steps", Dec(i), "refs", Dec(k)]
  }

  predicate EmptyRef(r: RawRef) {
    !KeepsRef(r.caption.GetOr(""), r.url)
  }

  predicate Untitled(p: LossProbe) {
    IsStepType(p.blockType.GetOr("")) && Blank(p.title.GetOr(""))
  }

  function RefIssues(i: nat, refs: seq<RawRef>): seq<Issue> {
    if refs == [] then []
    else
      var last := |refs| - 1;
      RefIssues(i, refs[..last]) + (if EmptyRef(refs[last]) then [Issue(RefPath(i, last), RefEmpty)] else [])
  }

  function StepIssues(i: nat, v: Json): seq<Issue> {
    match DecodeProbe(v)
    case None => []
    case Some(p) =>
      (if Untitled(p) then [Issue(TitlePath(i), StepTitleRequired)] else []) + RefIssues(i, p.refs.GetOr([]))
  }

  function StepsIssues(items: seq<Json>): seq<Issue> {
    if items == [] then []
    else StepsIssues(items[..|items| - 1]) + StepIssues(|items| - 1, items[|items| - 1])
  }

  function StepItems(value: Json): seq<Json> {
    if value.Obj? && "steps" in value.fields && value.fields["steps"].Arr? then value.fields["steps"].items else []
  }

  function RefIssueAt(i: nat, k: nat, r: RawRef): seq<Issue> {
    if EmptyRef(r) then [Issue(RefPath(i, k), RefEmpty)] else []
  }

  lemma RefIssuesNext(i: nat, refs: seq<RawRef>, k: nat)
    requires k < |refs|
    ensures RefIssues(i, refs[..k + 1]) == RefIssues(i, refs[..k]) + RefIssueAt(i, k, refs[k])
  {
    assert refs[..k + 1][..k] == refs[..k];
  }

  lemma StepsIssuesNext(items: seq<Json>, i: nat)
    requires i < |items|
    ensures StepsIssues(items[..i + 1]) == StepsIssues(items[..i]) + StepIssues(i, items[i])
  {
    assert items[..i + 1][..i] == items[..i];
  }

  /** The references of step `i` that would be lost. */
  method LostReferences(i: nat, refs: seq<RawRef>) returns (out: seq<Issue>)
    ensures out == RefIssues(i, refs)
  {
    hide EmptyRef, RefPath, RefIssues;
    out := [];
    assert refs[..0] == [] && RefIssues(i, []) == [] by { RefIssuesNone(i); }
    for k := 0 to |refs|
      invariant out == RefIssues(i, refs[..k])
    {
      RefIssuesNext(i, refs, k);
      if EmptyRef(refs[k]) {
        out := out + [Issue(RefPath(i, k), RefEmpty)];
      }
    }
    assert refs[..|refs|] == refs;
  }

  /** Every place of the manifest where the soft reading would silently drop something, in file order. */
  method SilentLossIssues(value: Json) returns (out: seq<Issue>)
    ensures out == StepsIssues(StepItems(value))
  {
    hide DecodeProbe, EmptyRef, Untitled, StepItems, TitlePath, RefPath, RefIssues, StepsIssues, StepIssues;
    out := [];
    var items := StepItems(value);
    assert items[..0] == [] && StepsIssues([]) == [] by { StepsIssuesNone(); }
    for i := 0 to |items|
      invariant out == StepsIssues(items[..i])
    {
      StepsIssuesNext(items, i);
      StepIssuesAre(i, items[i]);
      var probe := DecodeProbe(items[i]);
      if probe.Some? {
        var title := if Untitled(probe.value) then [Issue(TitlePath(i), StepTitleRequired)] else [];
        var lost := LostReferences(i, probe.value.refs.GetOr([]));
        out := out + title + lost;
      }
    }
    assert items[..|items|] == items;
  }

  lemma StepIssuesAre(i: nat, v: Json)
    ensures DecodeProbe(v).None? ==> StepIssues(i, v) == []
    ensures DecodeProbe(v).Some? ==>
              StepIssues(i, v) == (if Untitled(DecodeProbe(v).value) then [Issue(TitlePath(i), StepTitleRequired)] else [])
                                  + RefIssues(i, DecodeProbe(v).value.refs.GetOr([]))
  {
    hide DecodeProbe, Untitled, TitlePath, RefIssues;
  }

  lemma RefIssuesNone(i: nat)
    ensures RefIssues(i, []) == []
  {
  }

  lemma StepsIssuesNone()
    ensures StepsIssues([]) == []
  {
  }

  // ---- the issues are exactly the losses of the soft reading ----------------------------------

  function Count(issues: seq<Issue>, code: IssueCode): nat {
    if issues == [] then 0
    else Count(issues[..|issues| - 1], code) + (if issues[|issues| - 1].code == code then 1 else 0)
  }

  lemma {:induction false} CountAppend(a: seq<Issue>, b: seq<Issue>, code: IssueCode)
    ensures Count(a + b, code) == Count(a, code) + Count(b, code)
  {
    if b == [] {
      assert a + b == a;
    } else {
      assert (a + b)[..|a + b| - 1] == a + b[..|b| - 1];
      CountAppend(a, b[..|b| - 1], code);
    }
  }

  lemma ProbeOfStep(v: Json)
    requires DecodeStep(v).Some?
    ensures DecodeProbe(v) == Some(LossProbe(DecodeStep(v).value.blockType, DecodeStep(v).value.title, DecodeStep(v).value.refs))
  {
  }

  lemma {:induction false} RefIssuesCount(i: nat, refs: seq<RawRef>)
    ensures Count(RefIssues(i, refs), RefEmpty) == |RefIssues(i, refs)| == |refs| - |LiveRefs(RefsOf(refs))|
    ensures Count(RefIssues(i, refs), StepTitleRequired) == 0
  {
    hide Blank, KeepsRef;
    if refs != [] {
      var front, last := refs[..|refs| - 1], refs[|refs| - 1];
      RefIssuesCount(i, front);
      assert RefsOf(refs)[..|refs| - 1] == RefsOf(front);
      var tail := if EmptyRef(last) then [Issue(RefPath(i, |refs| - 1), RefEmpty)] else [];
      CountAppend(RefIssues(i, front), tail, RefEmpty);
      CountAppend(RefIssues(i, front), tail, StepTitleRequired);
      assert tail[..0] == [];
    }
  }

  /** The references a step of the file loses in the soft reading. */
  function LostRefs(s: RawStep): nat {
    |s.refs.GetOr([])| - |LiveRefs(RefsOf(s.refs.GetOr([])))|
  }

  lemma StepIssuesCount(i: nat, v: Json)
    requires DecodeStep(v).Some?
    ensures Count(StepIssues(i, v), StepTitleRequired) == if Drops(DecodeStep(v).value) then 1 else 0
    ensures Count(StepIssues(i, v), RefEmpty) == LostRefs(DecodeStep(v).value)
    ensures StepIssues(i, v) == [] <==> !Drops(DecodeStep(v).value) && LostRefs(DecodeStep(v).value) == 0
  {
    hide Blank, DecodeStep, DecodeProbe;
    ProbeOfStep(v);
    var s := DecodeStep(v).value;
    var head := if Drops(s) then [Issue(TitlePath(i), StepTitleRequired)] else [];
    RefIssuesCount(i, s.refs.GetOr([]));
    CountAppend(head, RefIssues(i, s.refs.GetOr([])), StepTitleRequired);
    CountAppend(head, RefIssues(i, s.refs.GetOr([])), RefEmpty);
    assert head == [] || head[..0] == [];
  }

  /** Does the soft reading keep every step and every reference of the file? */
  predicate LosesNothing(steps: seq<RawStep>) {
    && |ParseSteps(steps)| == |steps|
    && forall i :: 0 <= i < |steps| ==> |ParseSteps(steps)[i].refs| == |steps[i].refs.GetOr([])|
  }

  lemma {:induction false} ParseStepsLength(steps: seq<RawStep>)
    ensures |ParseSteps(steps)| <= |steps|
    ensures |ParseSteps(steps)| == |steps| <==> forall i :: 0 <= i < |steps| ==> !Drops(steps[i])
    ensures |ParseSteps(steps)| == |steps| ==> forall i :: 0 <= i < |steps| ==> ParseSteps(steps)[i] == ParseStep(steps[i])
  {
    hide Drops, ParseStep;
    if steps != [] {
      ParseStepsLength(steps[..|steps| - 1]);
    }
  }

  lemma LosesNothingStepwise(steps: seq<RawStep>)
    ensures LosesNothing(steps) <==> forall i :: 0 <= i < |steps| ==> !Drops(steps[i]) && LostRefs(steps[i]) == 0
  {
    hide Drops, ParseSteps;
    ParseStepsLength(steps);
    forall i | 0 <= i < |steps| ensures |ParseStep(steps[i]).refs| == |steps[i].refs.GetOr([])| <==> LostRefs(steps[i]) == 0 {
    }
  }

  lemma DecodeStepsFront(items: seq<Json>, steps: seq<RawStep>)
    requires items != [] && DecodeSteps(items) == Some(steps)
    ensures DecodeSteps(items[..|items| - 1]) == Some(steps[..|items| - 1])
    ensures DecodeStep(items[|items| - 1]) == Some(steps[|items| - 1])
  {
    hide DecodeStep;
    assert DecodeSteps(items[..|items| - 1]).value == steps[..|items| - 1];
  }

  /** How many issues of each kind the file has, step by step. */
  lemma {:induction false} StepsIssuesCount(items: seq<Json>, steps: seq<RawStep>)
    requires DecodeSteps(items) == Some(steps)
    ensures Count(StepsIssues(items), StepTitleRequired) == |steps| - |ParseSteps(steps)|
    ensures StepsIssues(items) == [] <==> forall i :: 0 <= i < |steps| ==> !Drops(steps[i]) && LostRefs(steps[i]) == 0
  {
    hide DecodeStep, DecodeSteps, Drops, ParseStep, LostRefs, StepIssues;
    if items != [] {
      var n := |items| - 1;
      var front, last := items[..n], steps[n];
      DecodeStepsFront(items, steps);
      StepsIssuesCount(front, steps[..n]);
      assert DecodeStep(items[n]) == Some(last);
      StepIssuesCount(n, items[n]);
      assert ParseSteps(steps) == ParseSteps(steps[..n]) + (if Drops(last) then [] else [ParseStep(last)]);
      CountAppend(StepsIssues(front), StepIssues(n, items[n]), StepTitleRequired);
      ParseStepsLength(steps[..n]);
      forall i | 0 <= i < n ensures steps[i] == steps[..n][i] {}
    }
  }

  /** The issues at one step of the file. */
  predicate AtStep(x: Issue, i: nat) {
    |x.path| >= 2 && x.path[1] == Dec(i)
  }

  lemma {:induction false} RefIssuesAtStep(i: nat, refs: seq<RawRef>, j: nat)
    requires j < |RefIssues(i, refs)|
    ensures AtStep(RefIssues(i, refs)[j], i) && RefIssues(i, refs)[j].code == RefEmpty
    ensures exists k :: 0 <= k < |refs| && EmptyRef(refs[k]) && RefIssues(i, refs)[j].path == RefPath(i, k)
  {
    hide Dec, EmptyRef;
    var front := refs[..|refs| - 1];
    if j < |RefIssues(i, front)| {
      RefIssuesAtStep(i, front, j);
      var k :| 0 <= k < |front| && EmptyRef(front[k]) && RefIssues(i, refs)[j].path == RefPath(i, k);
      assert EmptyRef(refs[k]);
    }
  }

  /** Section 4 of RFC 6901: one reference token applied to a value. */
  function Child(v: Json, token: string): Option<Json> {
    match v
    case Obj(fields) => if token in fields then Some(fields[token]) else None
    case Arr(items) =>
      if token != "" && AllDigits(token) && Dec(ParseDec(token)) == token && ParseDec(token) < |items|
      then Some(items[ParseDec(token)]) else None
    case _ => None
  }

  /** The value a pointer names. */
  function Resolve(v: Json, path: seq<string>): Option<Json> {
    if path == [] then Some(v)
    else
      match Child(v, path[0])
      case None => None
      case Some(c) => Resolve(c, path[1..])
  }

  lemma ChildAt(items: seq<Json>, i: nat)
    requires i < |items|
    ensures Child(Arr(items), Dec(i)) == Some(items[i])
  {
    ParseDecOfDec(i);
  }

  lemma ResolveTwo(v: Json, a: string, b: string)
    requires Child(v, a).Some?
    ensures Resolve(v, [a, b]) == Child(Child(v, a).value, b)
  {
    hide Child;
    assert [a, b][1..] == [b] && [b][1..] == [];
    assert Resolve(v, [a, b]) == Resolve(Child(v, a).value, [b]);
    var c := Child(v, a).value;
    if Child(c, b).Some? {
      assert Resolve(c, [b]) == Resolve(Child(c, b).value, []);
    }
  }

  lemma ResolveStep(value: Json, i: nat)
    requires i < |StepItems(value)|
    ensures Resolve(value, ["steps", Dec(i)]) == Some(StepItems(value)[i])
  {
    ChildAt(StepItems(value), i);
    ResolveTwo(value, "steps", Dec(i));
  }

  lemma ResolveRef(v: Json, k: nat)
    requires v.Obj? && "refs" in v.fields && v.fields["refs"].Arr? && k < |v.fields["refs"].items|
    ensures Resolve(v, ["refs", Dec(k)]) == Some(v.fields["refs"].items[k])
  {
    ChildAt(v.fields["refs"].items, k);
    ResolveTwo(v, "refs", Dec(k));
  }

  lemma {:induction false} ResolveFurther(v: Json, head: seq<string>, tail: seq<string>)
    requires Resolve(v, head).Some?
    ensures Resolve(v, head + tail) == Resolve(Resolve(v, head).value, tail)
    decreases |head|
  {
    hide Child;
    if head == [] {
      assert head + tail == tail;
    } else {
      assert (head + tail)[1..] == head[1..] + tail;
      ResolveFurther(Child(v, head[0]).value, head[1..], tail);
    }
  }

  /** Each issue points, by section 4 of RFC 6901, at the very thing that would be lost. */
  predicate PointsAtLoss(value: Json, x: Issue) {
    match x.code
    case StepTitleRequired =>
      && |x.path| == 3 && x.path[2] == "title"
      && (match Resolve(value, x.path[..2])
          case None => false
          case Some(step) => DecodeStep(step).Some? && Drops(DecodeStep(step).value))
    case RefEmpty =>
      match Resolve(value, x.path)
      case None => false
      case Some(ref) => DecodeRef(ref).Some? && EmptyRef(DecodeRef(ref).value)
  }

  lemma TitlePointsAtLoss(value: Json, i: nat)
    requires i < |StepItems(value)| && DecodeStep(StepItems(value)[i]).Some?
    requires Untitled(DecodeProbe(StepItems(value)[i]).GetOr(LossProbe(None, None, None)))
    ensures PointsAtLoss(value, Issue(TitlePath(i), StepTitleRequired)) && AtStep(Issue(TitlePath(i), StepTitleRequired), i)
  {
    hide Blank, DecodeStep, DecodeProbe, Dec, Resolve;
    ProbeOfStep(StepItems(value)[i]);
    ResolveStep(value, i);
    assert TitlePath(i)[..2] == ["steps", Dec(i)];
  }

  lemma RefPointsAtLoss(value: Json, i: nat, k: nat)
    requires i < |StepItems(value)| && DecodeStep(StepItems(value)[i]).Some?
    requires k < |DecodeStep(StepItems(value)[i]).value.refs.GetOr([])|
    requires EmptyRef(DecodeStep(StepItems(value)[i]).value.refs.GetOr([])[k])
    ensures PointsAtLoss(value, Issue(RefPath(i, k), RefEmpty)) && AtStep(Issue(RefPath(i, k), RefEmpty), i)
  {
    hide Blank, DecodeStep, DecodeRef, Dec, Resolve, EmptyRef, StepItems;
    var v := StepItems(value)[i];
    ProbeOfStep(v);
    ResolveStep(value, i);
    ResolveRef(v, k);
    ResolveFurther(value, ["steps", Dec(i)], ["refs", Dec(k)]);
    assert RefPath(i, k) == ["steps", Dec(i)] + ["refs", Dec(k)];
  }

  lemma StepIssuePointsAtLoss(value: Json, i: nat, j: nat)
    requires i < |StepItems(value)| && DecodeStep(StepItems(value)[i]).Some?
    requires j < |StepIssues(i, StepItems(value)[i])|
    ensures PointsAtLoss(value, StepIssues(i, StepItems(value)[i])[j])
    ensures AtStep(StepIssues(i, StepItems(value)[i])[j], i)
  {
    hide DecodeStep, DecodeProbe, PointsAtLoss, AtStep, EmptyRef, StepIssues, Untitled, StepItems, TitlePath, RefPath, RefIssues;
    var v := StepItems(value)[i];
    ProbeOfStep(v);
    StepIssuesAre(i, v);
    var p := DecodeProbe(v).value;
    var head := if Untitled(p) then [Issue(TitlePath(i), StepTitleRequired)] else [];
    if j < |head| {
      TitlePointsAtLoss(value, i);
    } else {
      var refs := p.refs.GetOr([]);
      RefIssuesAtStep(i, refs, j - |head|);
      var k :| 0 <= k < |refs| && EmptyRef(refs[k]) && RefIssues(i, refs)[j - |head|].path == RefPath(i, k);
      RefPointsAtLoss(value, i, k);
    }
  }

  lemma {:induction false} IssueComesFromStep(items: seq<Json>, j: nat)
    requires j < |StepsIssues(items)|
    ensures exists i, k :: 0 <= i < |items| && 0 <= k < |StepIssues(i, items[i])| && StepsIssues(items)[j] == StepIssues(i, items[i])[k]
  {
    hide StepIssues;
    var n := |items| - 1;
    var front := items[..n];
    if j < |StepsIssues(front)| {
      IssueComesFromStep(front, j);
      var i, k :| 0 <= i < |front| && 0 <= k < |StepIssues(i, front[i])| && StepsIssues(front)[j] == StepIssues(i, front[i])[k];
      assert items[i] == front[i];
    } else {
      assert StepsIssues(items)[j] == StepIssues(n, items[n])[j - |StepsIssues(front)|];
    }
  }

  /** Strict reading is exact: on every manifest the soft reading accepts, the list of issues is empty exactly
      when nothing would be lost, its title issues count the dropped steps, the reference issues of each step
      count that step's dropped references, and every issue points at what it is about. */
  lemma StrictIsExact(value: Json, raw: RawList)
    requires DecodeList(value) == Some(raw)
    ensures StepsIssues(StepItems(value)) == [] <==> LosesNothing(raw.steps.GetOr([]))
    ensures Count(StepsIssues(StepItems(value)), StepTitleRequired) == |raw.steps.GetOr([])| - |ParseSteps(raw.steps.GetOr([]))|
    ensures |StepItems(value)| == |raw.steps.GetOr([])|
    ensures forall i :: 0 <= i < |StepItems(value)| ==>
              Count(StepIssues(i, StepItems(value)[i]), RefEmpty) == LostRefs(raw.steps.GetOr([])[i])
    ensures forall j :: 0 <= j < |StepsIssues(StepItems(value))| ==> PointsAtLoss(value, StepsIssues(StepItems(value))[j])
  {
    hide DecodeStep, Drops, ParseSteps, LostRefs, StepsIssues, StepIssues, PointsAtLoss, LosesNothing;
    var items, steps := StepItems(value), raw.steps.GetOr([]);
    assert DecodeSteps(items) == Some(steps) by {
      assert raw.steps.None? ==> items == [];
    }
    StepsIssuesCount(items, steps);
    LosesNothingStepwise(steps);
    forall i | 0 <= i < |items| ensures Count(StepIssues(i, items[i]), RefEmpty) == LostRefs(steps[i]) {
      StepIssuesCount(i, items[i]);
    }
    forall j | 0 <= j < |StepsIssues(items)| ensures PointsAtLoss(value, StepsIssues(items)[j]) {
      IssueComesFromStep(items, j);
      var i, k :| 0 <= i < |items| && 0 <= k < |StepIssues(i, items[i])| && StepsIssues(items)[j] == StepIssues(i, items[i])[k];
      StepIssuePointsAtLoss(value, i, k);
    }
  }

  // ---- every place once -----------------------------------------------------------------------

  lemma IssuesAtOtherStepsDiffer(i: nat, j: nat, x: Issue)
    requires AtStep(x, i) && AtStep(x, j)
    ensures i == j
  {
    ParseDecOfDec(i);
    ParseDecOfDec(j);
  }

  lemma {:induction false} RefIssuesDistinct(i: nat, refs: seq<RawRef>, a: nat, b: nat)
    requires a < b < |RefIssues(i, refs)|
    ensures RefIssues(i, refs)[a].path != RefIssues(i, refs)[b].path
  {
    hide Dec, EmptyRef;
    var n := |refs| - 1;
    var front := refs[..n];
    if b < |RefIssues(i, front)| {
      RefIssuesDistinct(i, front, a, b);
    } else {
      RefIssuesAtStep(i, front, a);
      var k :| 0 <= k < |front| && EmptyRef(front[k]) && RefIssues(i, front)[a].path == RefPath(i, k);
      if Dec(k) == Dec(n) {
        ParseDecOfDec(k);
        ParseDecOfDec(n);
      }
      assert RefPath(i, k)[3] == Dec(k) && RefPath(i, n)[3] == Dec(n);
    }
  }

  lemma StepIssueAt(i: nat, v: Json, j: nat)
    requires j < |StepIssues(i, v)|
    ensures AtStep(StepIssues(i, v)[j], i)
    ensures |StepIssues(i, v)[j].path| == 3 <==> StepIssues(i, v)[j].code == StepTitleRequired
  {
    hide Dec, DecodeProbe, Blank, EmptyRef;
    var p := DecodeProbe(v).value;
    var head := if Untitled(p) then [Issue(TitlePath(i), StepTitleRequired)] else [];
    if j >= |head| {
      RefIssuesAtStep(i, p.refs.GetOr([]), j - |head|);
    }
  }

  lemma StepIssuesDistinct(i: nat, v: Json, a: nat, b: nat)
    requires a < b < |StepIssues(i, v)|
    ensures StepIssues(i, v)[a].path != StepIssues(i, v)[b].path
  {
    hide Dec, DecodeProbe, Untitled, RefIssues, StepIssues;
    StepIssuesAre(i, v);
    var p := DecodeProbe(v).value;
    var head := if Untitled(p) then [Issue(TitlePath(i), StepTitleRequired)] else [];
    if a >= |head| {
      RefIssuesDistinct(i, p.refs.GetOr([]), a - |head|, b - |head|);
    } else {
      RefIssuesAtStep(i, p.refs.GetOr([]), b - |head|);
    }
  }

  /** No two issues name the same place. */
  lemma {:induction false} PathsDistinct(items: seq<Json>, a: nat, b: nat)
    requires a < b < |StepsIssues(items)|
    ensures StepsIssues(items)[a].path != StepsIssues(items)[b].path
  {
    hide StepIssues, AtStep;
    var n := |items| - 1;
    var front := items[..n];
    var m := |StepsIssues(front)|;
    if b < m {
      PathsDistinct(front, a, b);
    } else if a >= m {
      StepIssuesDistinct(n, items[n], a - m, b - m);
    } else {
      IssueComesFromStep(front, a);
      var i, k :| 0 <= i < |front| && 0 <= k < |StepIssues(i, front[i])| && StepsIssues(front)[a] == StepIssues(i, front[i])[k];
      StepIssueAt(i, front[i], k);
      StepIssueAt(n, items[n], b - m);
      var x, y := StepsIssues(items)[a], StepsIssues(items)[b];
      if x.path == y.path {
        SamePathSameStep(x, y, i, n);
      }
    }
  }

  lemma SamePathSameStep(x: Issue, y: Issue, i: nat, j: nat)
    requires AtStep(x, i) && AtStep(y, j) && x.path == y.path
    ensures i == j
  {
    IssuesAtOtherStepsDiffer(i, j, x);
  }
}

/** README.md: the page built from a version, the collapse of blank lines, and the second road to the
    same page from the printed canon. */
module Readme {
  import opened Wrappers
  import opened Text
  import opened Json
  import opened Canon
  import opened Reading
  import opened Fence

  // ---- one step -------------------------------------------------------------------------------

  function RefItem(r: StepRef): string {
    match r.url
    case None => r.caption
    case Some(u) => if Blank(r.caption) then "<" + u + ">" else "[" + r.caption + "](" + u + ")"
  }

  function RefItems(refs: seq<StepRef>): (r: seq<string>)
    ensures |r| == |refs|
    ensures forall i :: 0 <= i < |refs| ==> r[i] == RefItem(refs[i])
  {
    seq(|refs|, i requires 0 <= i < |refs| => RefItem(refs[i]))
  }

  function Shown(items: seq<string>): seq<string> {
    if items == [] then []
    else Shown(items[..|items| - 1]) + (if items[|items| - 1] == "" then [] else [items[|items| - 1]])
  }

  /** A text block with its sources under it. */
  function TextLines(md: string, refs: seq<string>): seq<string> {
    (if md != "" then ["", md, ""] else []) +
    (if refs == [] then [] else (if md == "" then [""] else []) + Indented(refs, "- ") + [""])
  }

  function ImageLines(ref: string, caption: string): seq<string> {
    if ref == "" then [] else ["", "![" + caption + "](" + ref + ")", ""]
  }

  /** A block that is not a step, inline. */
  function InlineLines(s: SerStep): seq<string> {
    if s.blockType == Some("text") then TextLines(StringField(s.content, "md").GetOr(""), Shown(RefItems(s.refs)))
    else if s.blockType == Some("image") then
      ImageLines(StringField(s.content, "ref").GetOr(""), StringField(s.content, "caption").GetOr(""))
    else []
  }

  function Marker(ordered: bool, num: nat): string {
    if ordered then Dec(num) + "." else "-"
  }

  /** The continuation of an item is indented by its marker and one space. */
  function IndentOf(ordered: bool, num: nat): (s: string)
    ensures |s| >= 2 && s == Spaces(|s|)
  {
    Spaces(|Marker(ordered, num)| + 1)
  }

  function LevelNote(level: string): string {
    if level != "" && level != "required" then " _(" + level + ")_" else ""
  }

  /** The lines of a step up to its command. */
  function StepHead(s: SerStep, ordered: bool, num: nat): seq<string> {
    var indent := IndentOf(ordered, num);
    [Marker(ordered, num) + " **" + s.title + "**" + LevelNote(s.level)] +
    (if s.desc != "" then [indent + ReplaceAll(s.desc, "\n", "\n" + indent)] else [])
  }

  function StepTail(s: SerStep, indent: string): seq<string> {
    (if s.why != "" then [indent + "> why: " + s.why] else []) +
    Indented(s.subtasks, indent + "- [ ] ") + Indented(RefItems(s.refs), indent + "- ") + [""]
  }

  function StepLines(s: SerStep, ordered: bool, num: nat): seq<string> {
    var indent := IndentOf(ordered, num);
    StepHead(s, ordered, num) +
    (if s.command != "" then [""] + CodeBlockLines(s.command, indent, "sh") else []) +
    StepTail(s, indent)
  }

  // ---- the page -------------------------------------------------------------------------------

  datatype Page = Page(lines: seq<string>, section: string, num: nat)

  function OpenSection(p: Page, section: string): Page {
    if section != "" && section != p.section
    then Page(p.lines + ["", "## " + section, ""], section, p.num)
    else p
  }

  function AddBlock(p: Page, s: SerStep, ordered: bool): Page {
    if !IsStepBlock(s) then p.(lines := p.lines + InlineLines(s))
    else
      var q := OpenSection(p, s.section);
      Page(q.lines + StepLines(s, ordered, p.num + 1), q.section, p.num + 1)
  }

  function AddBlocks(p: Page, steps: seq<SerStep>, ordered: bool): Page {
    if steps == [] then p
    else AddBlock(AddBlocks(p, steps[..|steps| - 1], ordered), steps[|steps| - 1], ordered)
  }

  function StepCount(steps: seq<SerStep>): nat {
    if steps == [] then 0
    else StepCount(steps[..|steps| - 1]) + (if IsStepBlock(steps[|steps| - 1]) then 1 else 0)
  }

  function Ticked(tags: seq<string>): (r: seq<string>)
    ensures |r| == |tags|
    ensures forall i :: 0 <= i < |tags| ==> r[i] == "`" + tags[i] + "`"
  {
    seq(|tags|, i requires 0 <= i < |tags| => "`" + tags[i] + "`")
  }

  function DecInt(n: int): string {
    if n < 0 then "-" + Dec(-n) else Dec(n)
  }

  function HeaderLines(v: VersionData): seq<string> {
    ["# " + v.title, ""] +
    (if v.desc != "" then [v.desc, ""] else []) +
    (if v.tags != [] then [Join(Ticked(v.tags), " "), ""] else []) +
    ["> " + (if v.ordered then "Ordered list" else "Unordered set") + " \U{00B7} v" + DecInt(v.version)
     + " \U{00B7} " + Dec(StepCount(v.steps)) + " items", ""]
  }

  const GENERATED :=
    "> Generated by SetFork \U{2014} the canonical source is [list.json](./list.json). "
    + "Edit list.json; manual changes to this file are overwritten on the next version."

  const FOOTER: seq<string> := ["", "---", "", GENERATED]

  function PageLines(v: VersionData): seq<string> {
    AddBlocks(Page(HeaderLines(v), "", 0), v.steps, v.ordered).lines + FOOTER
  }

  // ---- collapsing blank lines -----------------------------------------------------------------

  predicate Contains(s: string, part: string) {
    part <= s || (s != "" && Contains(s[1..], part))
  }

  const TRIPLE := "\n\n\n"

  function Halve(s: string): string {
    ReplaceAll(s, TRIPLE, "\n\n")
  }

  /** The text with a newline left out wherever two have just been written; `k` is how many have been. */
  function Squeeze(s: string, k: nat): string {
    if s == "" then ""
    else if s[0] != '\n' then [s[0]] + Squeeze(s[1..], 0)
    else if k >= 2 then Squeeze(s[1..], k)
    else "\n" + Squeeze(s[1..], k + 1)
  }

  lemma TripleHead(s: string)
    requires TRIPLE <= s
    ensures s[0] == '\n' && s[1..][0] == '\n' && s[2..][0] == '\n' && s[1..][1..] == s[2..] && s[2..][1..] == s[3..]
  {
    assert s[0] == TRIPLE[0] && s[1] == TRIPLE[1] && s[2] == TRIPLE[2];
  }

  /** One round of replacement does not change what the text squeezes to. */
  lemma {:induction false} HalveSqueezesAlike(s: string, k: nat)
    requires k <= 2
    ensures Squeeze(Halve(s), k) == Squeeze(s, k)
    decreases |s|
  {
    if |s| >= 3 {
      if TRIPLE <= s {
        TripleHead(s);
        var rest := Halve(s[3..]);
        assert Halve(s) == "\n\n" + rest;
        assert ("\n\n" + rest)[1..] == "\n" + rest && ("\n" + rest)[1..] == rest;
        HalveSqueezesAlike(s[3..], 2);
        assert Squeeze(s[2..], 2) == Squeeze(s[3..], 2);
      } else {
        assert Halve(s) == [s[0]] + Halve(s[1..]) && Halve(s)[1..] == Halve(s[1..]);
        HalveSqueezesAlike(s[1..], if s[0] != '\n' then 0 else if k >= 2 then k else k + 1);
      }
    }
  }

  /** Every round that finds something to replace shortens the text: the loop ends. */
  lemma {:induction false} HalveShortens(s: string)
    ensures |Halve(s)| <= |s|
    ensures Contains(s, TRIPLE) ==> |Halve(s)| < |s|
    decreases |s|
  {
    if |s| >= 3 {
      if TRIPLE <= s {
        HalveShortens(s[3..]);
      } else {
        HalveShortens(s[1..]);
      }
    } else {
      ShortContainsNothing(s);
    }
  }

  lemma {:induction false} ShortContainsNothing(s: string)
    requires |s| < 3
    ensures !Contains(s, TRIPLE)
  {
    if s != "" {
      ShortContainsNothing(s[1..]);
    }
  }

  /** Would this text, after `k` newlines, bring a third one? */
  predicate Overflows(s: string, k: nat) {
    || Contains(s, TRIPLE)
    || (k == 1 && |s| >= 2 && s[0] == s[1] == '\n')
    || (k >= 2 && |s| >= 1 && s[0] == '\n')
  }

  /** A text without three newlines in a row squeezes to itself. */
  lemma {:induction false} NothingToSqueeze(s: string, k: nat)
    requires !Overflows(s, k)
    ensures Squeeze(s, k) == s
  {
    if s != "" {
      if s[0] != '\n' {
        NothingToSqueeze(s[1..], 0);
      } else {
        assert |s| >= 3 && s[1] == s[2] == '\n' ==> TRIPLE <= s;
        NothingToSqueeze(s[1..], k + 1);
      }
    }
  }

  /** The blank-line loop ends, and what it leaves is the text with every run of three or more newlines
      cut down to two. */
  method CollapseBlankLines(s: string) returns (out: string)
    ensures out == Squeeze(s, 0)
    ensures !Contains(out, TRIPLE)
  {
    hide Contains, ReplaceAll, Squeeze;
    out := s;
    while Contains(out, TRIPLE)
      invariant Squeeze(out, 0) == Squeeze(s, 0)
      decreases |out|
    {
      HalveSqueezesAlike(out, 0);
      HalveShortens(out);
      out := Halve(out);
    }
    NothingToSqueeze(out, 0);
  }

  function Render(v: VersionData): string {
    TrimEnd(Squeeze(Join(PageLines(v), "\n"), 0)) + "\n"
  }

  // ---- building the page ----------------------------------------------------------------------

  lemma AddBlocksNext(p: Page, steps: seq<SerStep>, ordered: bool, i: nat)
    requires i < |steps|
    ensures AddBlocks(p, steps[..i + 1], ordered) == AddBlock(AddBlocks(p, steps[..i], ordered), steps[i], ordered)
  {
    assert steps[..i + 1][..i] == steps[..i];
  }

  lemma ShownNext(items: seq<string>, i: nat)
    requires i < |items|
    ensures Shown(items[..i + 1]) == Shown(items[..i]) + (if items[i] == "" then [] else [items[i]])
  {
    assert items[..i + 1][..i] == items[..i];
  }

  method ShownItems(refs: seq<StepRef>) returns (out: seq<string>)
    ensures out == Shown(RefItems(refs))
  {
    hide Shown, RefItem;
    out := [];
    ghost var items := RefItems(refs);
    assert items[..0] == [] && Shown([]) == [] by { ShownNone(); }
    for i := 0 to |refs|
      invariant out == Shown(items[..i])
    {
      ShownNext(items, i);
      var item := RefItem(refs[i]);
      if item != "" {
        out := out + [item];
      }
    }
    assert items[..|items|] == items;
  }

  lemma ShownNone()
    ensures Shown([]) == []
  {
  }

  lemma IndentedNext(xs: seq<string>, indent: string, i: nat)
    requires i < |xs|
    ensures Indented(xs[..i + 1], indent) == Indented(xs[..i], indent) + [indent + xs[i]]
  {
  }

  /** The items of a list, one line each. */
  method Bullets(items: seq<string>, indent: string) returns (lines: seq<string>)
    ensures lines == Indented(items, indent)
  {
    lines := [];
    for i := 0 to |items|
      invariant lines == Indented(items[..i], indent)
    {
      IndentedNext(items, indent, i);
      lines := lines + [indent + items[i]];
    }
    assert items[..|items|] == items;
  }

  /** Writes the lines of one step under the marker `num`. */
  method WriteStep(s: SerStep, ordered: bool, num: nat) returns (lines: seq<string>)
    ensures lines == StepLines(s, ordered, num)
  {
    hide Marker, LevelNote, ReplaceAll, CodeBlockLines, RefItem;
    var indent := IndentOf(ordered, num);
    lines := [Marker(ordered, num) + " **" + s.title + "**" + LevelNote(s.level)];
    if s.desc != "" {
      lines := lines + [indent + ReplaceAll(s.desc, "\n", "\n" + indent)];
    }
    assert lines == StepHead(s, ordered, num);
    if s.command != "" {
      var block := CodeBlock(s.command, indent, "sh");
      lines := lines + [""] + block;
    }
    var tail := WriteTail(s, indent);
    lines := lines + tail;
  }

  method WriteTail(s: SerStep, indent: string) returns (lines: seq<string>)
    ensures lines == StepTail(s, indent)
  {
    hide RefItem;
    lines := if s.why != "" then [indent + "> why: " + s.why] else [];
    var tasks := Bullets(s.subtasks, indent + "- [ ] ");
    var refs := Bullets(RefItems(s.refs), indent + "- ");
    lines := lines + tasks + refs + [""];
  }

  method WriteText(md: string, items: seq<StepRef>) returns (lines: seq<string>)
    ensures lines == TextLines(md, Shown(RefItems(items)))
  {
    hide Shown, RefItem;
    var refs := ShownItems(items);
    lines := if md != "" then ["", md, ""] else [];
    if refs != [] {
      if md == "" {
        lines := [""];
      }
      lines := lines + Indented(refs, "- ") + [""];
    }
  }

  method WriteInline(s: SerStep) returns (lines: seq<string>)
    ensures lines == InlineLines(s)
  {
    hide Shown, RefItem, TextLines, StringField;
    lines := [];
    if s.blockType == Some("text") {
      lines := WriteText(StringField(s.content, "md").GetOr(""), s.refs);
    } else if s.blockType == Some("image") {
      var ref := StringField(s.content, "ref").GetOr("");
      if ref != "" {
        var caption := StringField(s.content, "caption").GetOr("");
        lines := ["", "![" + caption + "](" + ref + ")", ""];
      }
    }
  }

  /** Builds README.md line by line. */
  method BuildReadme(v: VersionData) returns (page: string)
    ensures page == Render(v)
  {
    hide StepLines, InlineLines, Join, Squeeze, TrimEnd, DecInt, StepCount, AddBlocks;
    var lines := ["# " + v.title, ""];
    if v.desc != "" {
      lines := lines + [v.desc, ""];
    }
    if v.tags != [] {
      lines := lines + [Join(Ticked(v.tags), " "), ""];
    }
    lines := lines + ["> " + (if v.ordered then "Ordered list" else "Unordered set") + " \U{00B7} v" + DecInt(v.version)
                      + " \U{00B7} " + Dec(StepCount(v.steps)) + " items", ""];
    var section, num := "", 0;
    ghost var start := Page(lines, "", 0);
    assert start.lines == HeaderLines(v);
    assert v.steps[..0] == [] && AddBlocks(start, [], v.ordered) == start by { AddNoBlocks(start, v.ordered); }
    for i := 0 to |v.steps|
      invariant Page(lines, section, num) == AddBlocks(start, v.steps[..i], v.ordered)
    {
      AddBlocksNext(start, v.steps, v.ordered, i);
      var s := v.steps[i];
      if !IsStepBlock(s) {
        var inline := WriteInline(s);
        lines := lines + inline;
      } else {
        if s.section != "" && s.section != section {
          section := s.section;
          lines := lines + ["", "## " + section, ""];
        }
        num := num + 1;
        var step := WriteStep(s, v.ordered, num);
        lines := lines + step;
      }
    }
    assert v.steps[..|v.steps|] == v.steps;
    lines := lines + FOOTER;
    var out := CollapseBlankLines(Join(lines, "\n"));
    page := TrimEnd(out) + "\n";
  }

  lemma AddNoBlocks(p: Page, ordered: bool)
    ensures AddBlocks(p, [], ordered) == p
  {
  }

  // ---- the second road: the page from the printed canon ---------------------------------------

  function StepFromRaw(index: nat, r: RawStep): SerStep {
    SerStep(r.n.GetOr(index + 1), r.blockType, r.content.GetOr(Null), r.blockId, r.title.GetOr(""), r.desc.GetOr(""),
            r.command.GetOr(""), r.imageKey, r.level.GetOr(""), r.needsHuman.GetOr(false), r.needsHumanAsk,
            r.danger.GetOr(false), r.why.GetOr(""), r.section.GetOr(""), r.subtasks.GetOr([]),
            RefsFromRaw(r.refs.GetOr([])))
  }

  function RefsFromRaw(refs: seq<RawRef>): (r: seq<StepRef>)
    ensures |r| == |refs|
    ensures forall i :: 0 <= i < |refs| ==> r[i] == StepRef(refs[i].caption.GetOr(""), refs[i].url)
  {
    seq(|refs|, i requires 0 <= i < |refs| => StepRef(refs[i].caption.GetOr(""), refs[i].url))
  }

  function StepsFromRaw(raw: seq<RawStep>): (r: seq<SerStep>)
    ensures |r| == |raw|
    ensures forall i :: 0 <= i < |raw| ==> r[i] == StepFromRaw(i, raw[i])
  {
    seq(|raw|, i requires 0 <= i < |raw| => StepFromRaw(i, raw[i]))
  }

  function VersionFromRaw(raw: RawList): VersionData {
    VersionData(raw.version.GetOr(0), "", 0, raw.title.GetOr(""), raw.desc.GetOr(""), raw.tags.GetOr([]),
                raw.ordered.GetOr(true), raw.kind, raw.skillHeader, StepsFromRaw(raw.steps.GetOr([])))
  }

  /** The page for a ready canon; None when the canon does not parse. */
  function ReadmeFromCanon(canon: Json): Option<string> {
    match DecodeList(canon)
    case None => None
    case Some(raw) => Some(Render(VersionFromRaw(raw)))
  }

  /** The fields of a block that its lines are made of. */
  predicate PrintsAlike(a: SerStep, b: SerStep) {
    && IsStepBlock(a) == IsStepBlock(b)
    && a.refs == b.refs
    && (IsStepBlock(a) ==>
          && a.title == b.title && a.desc == b.desc && a.command == b.command && a.level == b.level
          && a.why == b.why && a.section == b.section && a.subtasks == b.subtasks)
    && (!IsStepBlock(a) ==> a.blockType == b.blockType && a.content == b.content)
  }

  lemma SeenPrintsAlike(index: nat, s: SerStep)
    ensures PrintsAlike(StepFromRaw(index, SeenStep(s)), s)
  {
    assert RefsFromRaw(SeenRefs(s.refs)) == s.refs;
  }

  lemma AddAlike(p: Page, a: SerStep, b: SerStep, ordered: bool)
    requires PrintsAlike(a, b)
    ensures AddBlock(p, a, ordered) == AddBlock(p, b, ordered)
  {
    hide LevelNote, CodeBlockLines, ReplaceAll, RefItem, Shown;
  }

  lemma {:induction false} AddAllAlike(p: Page, a: seq<SerStep>, b: seq<SerStep>, ordered: bool)
    requires |a| == |b| && forall i :: 0 <= i < |a| ==> PrintsAlike(a[i], b[i])
    ensures AddBlocks(p, a, ordered) == AddBlocks(p, b, ordered)
    ensures StepCount(a) == StepCount(b)
  {
    hide AddBlock;
    if a != [] {
      var n := |a| - 1;
      AddAllAlike(p, a[..n], b[..n], ordered);
      AddAlike(AddBlocks(p, a[..n], ordered), a[n], b[n], ordered);
    }
  }

  /** Two roads meet: the page made from the printed canon is the page made from the version, for every version. */
  lemma TwoRoadsMeet(v: VersionData)
    requires NumbersFit(v)
    ensures ReadmeFromCanon(ListJson(v)) == Some(Render(v))
  {
    hide ListJson, DecodeList, Join, Squeeze, TrimEnd, AddBlocks, StepCount, SeenStep, StepFromRaw, PrintsAlike;
    DecodePrinted(v);
    var w := VersionFromRaw(SeenList(v));
    forall i | 0 <= i < |v.steps| ensures PrintsAlike(w.steps[i], v.steps[i]) {
      SeenPrintsAlike(i, v.steps[i]);
    }
    AddAllAlike(Page(HeaderLines(v), "", 0), w.steps, v.steps, v.ordered);
    assert HeaderLines(w) == HeaderLines(v);
  }

  // ---- every command block survives -----------------------------------------------------------

  lemma {:induction false} SqueezeFrom(a: string, b: string, k: nat)
    requires b != "" && b[0] != '\n'
    ensures Squeeze(a + b, k) == Squeeze(a, k) + Squeeze(b, 0)
  {
    if a == "" {
      assert a + b == b;
    } else {
      assert (a + b)[1..] == a[1..] + b;
      SqueezeFrom(a[1..], b, if a[0] != '\n' then 0 else if k >= 2 then k else k + 1);
    }
  }

  lemma {:induction false} SqueezeAfter(a: string, b: string, k: nat)
    requires a != "" && a[|a| - 1] != '\n'
    ensures Squeeze(a + b, k) == Squeeze(a, k) + Squeeze(b, 0)
  {
    assert (a + b)[1..] == a[1..] + b;
    if |a| == 1 {
      assert a[1..] + b == b && a == [a[0]];
    } else {
      SqueezeAfter(a[1..], b, if a[0] != '\n' then 0 else if k >= 2 then k else k + 1);
    }
  }

  lemma {:induction false} SqueezeLine(s: string, k: nat)
    requires NoNewline(s)
    ensures Squeeze(s, k) == s
  {
    if s != "" {
      SqueezeLine(s[1..], 0);
    }
  }

  predicate SolidLines(lines: seq<string>) {
    forall i :: 0 <= i < |lines| ==> lines[i] != "" && NoNewline(lines[i])
  }

  lemma JoinNext(lines: seq<string>)
    requires |lines| > 1
    ensures Join(lines, "\n") == lines[0] + ("\n" + Join(lines[1..], "\n"))
  {
  }

  lemma JoinOne(line: string)
    ensures Join([line], "\n") == line
  {
  }

  /** Lines that all carry something have no blank line to lose. */
  lemma {:induction false} SqueezeSolid(lines: seq<string>, k: nat)
    requires SolidLines(lines) && k <= 1
    ensures Squeeze(Join(lines, "\n"), k) == Join(lines, "\n")
  {
    hide Join, Squeeze;
    if lines == [] {
      SqueezeNone(k);
    } else if |lines| == 1 {
      JoinOne(lines[0]);
      assert lines == [lines[0]];
      SqueezeLine(lines[0], k);
    } else {
      var rest := Join(lines[1..], "\n");
      JoinNext(lines);
      SqueezeSolid(lines[1..], 1);
      SqueezeLine(lines[0], k);
      SqueezeAfter(lines[0], "\n" + rest, k);
      SqueezeBreak(rest);
    }
  }

  lemma SqueezeNone(k: nat)
    ensures Join([], "\n") == "" && Squeeze("", k) == ""
  {
  }

  /** One newline is kept. */
  lemma SqueezeBreak(rest: string)
    ensures Squeeze("\n" + rest, 0) == "\n" + Squeeze(rest, 1)
  {
    assert ("\n" + rest)[1..] == rest;
  }

  lemma JoinShorter(lines: seq<string>, shorter: seq<string>)
    requires lines != [] && lines[0] != "" && shorter == [lines[0][1..]] + lines[1..]
    ensures Join(lines, "\n") != "" && Join(lines, "\n")[0] == lines[0][0]
    ensures Join(lines, "\n")[1..] == Join(shorter, "\n")
  {
    assert shorter[1..] == lines[1..];
    if |lines| > 1 {
      var tail := "\n" + Join(lines[1..], "\n");
      assert Join(lines, "\n") == lines[0] + tail && Join(shorter, "\n") == shorter[0] + tail;
      assert (lines[0] + tail)[1..] == lines[0][1..] + tail;
    }
  }

  lemma {:induction false} LinesOfJoin(lines: seq<string>)
    requires lines != [] && forall i :: 0 <= i < |lines| ==> NoNewline(lines[i])
    ensures Lines(Join(lines, "\n")) == lines
    decreases |lines|, |lines[0]|
  {
    hide Join, Lines;
    if lines[0] != "" {
      var shorter := [lines[0][1..]] + lines[1..];
      LinesOfJoin(shorter);
      JoinShorter(lines, shorter);
      LinesOfChar(Join(lines, "\n"));
      assert shorter[1..] == lines[1..] && [lines[0][0]] + shorter[0] == lines[0];
      assert [lines[0]] + lines[1..] == lines;
    } else if |lines| > 1 {
      LinesOfJoin(lines[1..]);
      JoinNext(lines);
      LinesOfBreak(Join(lines[1..], "\n"));
      var rest := "\n" + Join(lines[1..], "\n");
      assert lines[0] == "" && lines[0] + rest == rest;
      assert [lines[0]] + lines[1..] == lines;
    } else {
      assert lines == [""];
      JoinOne("");
      LinesOfNothing();
    }
  }

  lemma LinesOfChar(s: string)
    requires s != "" && s[0] != '\n'
    ensures Lines(s[1..]) != [] ==> Lines(s) == [[s[0]] + Lines(s[1..])[0]] + Lines(s[1..])[1..]
  {
  }

  lemma LinesOfBreak(rest: string)
    ensures Lines("\n" + rest) == [""] + Lines(rest)
  {
    assert ("\n" + rest)[1..] == rest;
  }

  lemma LinesOfNothing()
    ensures Lines("") == [""]
  {
  }

  lemma JoinFirst(lines: seq<string>)
    requires lines != [] && lines[0] != ""
    ensures Join(lines, "\n") != "" && Join(lines, "\n")[0] == lines[0][0]
  {
  }

  /** The lines of a command block are solid, whatever the command. */
  lemma BlockIsSolid(code: string, indent: string, lang: string)
    requires indent != "" && indent == Spaces(|indent|) && NoNewline(lang)
    ensures SolidLines(CodeBlockLines(code, indent, lang)) && CodeBlockLines(code, indent, lang) != []
  {
    hide Lines, LongestTicks, ReplaceAll;
    LinesHaveNoNewline(Normalize(code));
    var text := Normalize(code);
    var bare := BareBlock(code, lang);
    forall i | 0 <= i < |bare| ensures NoNewline(bare[i]) {
      if 1 <= i <= |Lines(text)| {
        assert bare[i] == Lines(text)[i - 1];
      }
    }
  }

  lemma {:induction false} AddBlocksGrows(p: Page, steps: seq<SerStep>, ordered: bool, i: nat)
    requires i <= |steps|
    ensures AddBlocks(p, steps[..i], ordered).lines <= AddBlocks(p, steps, ordered).lines
    ensures AddBlocks(p, steps, ordered).num == p.num + StepCount(steps)
    decreases |steps|
  {
    hide StepLines, InlineLines;
    if i == |steps| {
      assert steps[..i] == steps;
    }
    if steps != [] {
      var n := |steps| - 1;
      AddBlocksGrows(p, steps[..n], ordered, if i <= n then i else n);
      if i <= n {
        assert steps[..n][..i] == steps[..i];
      }
    }
  }

  /** The number a step has on the page. */
  function NumberOf(v: VersionData, i: nat): nat
    requires i < |v.steps|
  {
    StepCount(v.steps[..i]) + 1
  }

  function StartOf(v: VersionData): Page {
    Page(HeaderLines(v), "", 0)
  }

  /** The lines of the page before the command block of step `i`. */
  function LinesBefore(v: VersionData, i: nat): (r: seq<string>)
    requires i < |v.steps|
    ensures r != []
  {
    OpenSection(AddBlocks(StartOf(v), v.steps[..i], v.ordered), v.steps[i].section).lines
      + StepHead(v.steps[i], v.ordered, NumberOf(v, i)) + [""]
  }

  /** The page is the lines before a command block, the block, and lines that end with the footer. */
  lemma PageAroundCommand(v: VersionData, i: nat) returns (after: seq<string>)
    requires i < |v.steps| && IsStepBlock(v.steps[i]) && v.steps[i].command != ""
    ensures PageLines(v) == LinesBefore(v, i)
                            + CodeBlockLines(v.steps[i].command, IndentOf(v.ordered, NumberOf(v, i)), "sh") + after
    ensures after != [] && after[|after| - 1] == GENERATED
  {
    hide StepHead, CodeBlockLines, StepTail, HeaderLines, InlineLines, AddBlocks, StepCount, IndentOf;
    var s, start, num := v.steps[i], StartOf(v), NumberOf(v, i);
    AddBlocksGrows(start, v.steps, v.ordered, i + 1);
    var upTo := AddBlocks(start, v.steps[..i + 1], v.ordered).lines;
    var all := AddBlocks(start, v.steps, v.ordered).lines;
    var indent := IndentOf(v.ordered, num);
    var tail := all[|upTo|..];
    assert all == upTo + tail;
    after := StepTail(s, indent) + tail + FOOTER;
    StepLinesSplit(v, i);
    PageRegroup(LinesBefore(v, i), CodeBlockLines(s.command, indent, "sh"), StepTail(s, indent), tail);
  }

  lemma PageRegroup(before: seq<string>, block: seq<string>, rest: seq<string>, tail: seq<string>)
    ensures before + block + rest + tail + FOOTER == before + block + (rest + tail + FOOTER)
  {
  }

  /** The lines of the page up to and with step `i`. */
  lemma StepLinesSplit(v: VersionData, i: nat)
    requires i < |v.steps| && IsStepBlock(v.steps[i]) && v.steps[i].command != ""
    ensures var indent := IndentOf(v.ordered, NumberOf(v, i));
            AddBlocks(StartOf(v), v.steps[..i + 1], v.ordered).lines
            == LinesBefore(v, i) + CodeBlockLines(v.steps[i].command, indent, "sh") + StepTail(v.steps[i], indent)
  {
    hide StepHead, CodeBlockLines, StepTail, HeaderLines, InlineLines, AddBlocks, StepCount, IndentOf;
    var s, num := v.steps[i], NumberOf(v, i);
    AddBlocksGrows(StartOf(v), v.steps[..i], v.ordered, 0);
    AddBlocksNext(StartOf(v), v.steps, v.ordered, i);
    var open := OpenSection(AddBlocks(StartOf(v), v.steps[..i], v.ordered), s.section).lines;
    var head, block, rest := StepHead(s, v.ordered, num), CodeBlockLines(s.command, IndentOf(v.ordered, num), "sh"), StepTail(s, IndentOf(v.ordered, num));
    assert open + (head + ([""] + block) + rest) == open + head + [""] + block + rest;
  }

  lemma JoinLast(lines: seq<string>)
    requires lines != [] && lines[|lines| - 1] != ""
    ensures Join(lines, "\n") != ""
    ensures Join(lines, "\n")[|Join(lines, "\n")| - 1] == lines[|lines| - 1][|lines[|lines| - 1]| - 1]
  {
    if |lines| > 1 {
      var last := lines[|lines| - 1];
      assert lines == lines[..|lines| - 1] + [last];
      JoinAppend(lines[..|lines| - 1], [last], "\n");
    }
  }

  lemma SqueezeKeepsLast(s: string, k: nat)
    requires s != "" && s[|s| - 1] != '\n'
    ensures Squeeze(s, k) != "" && Squeeze(s, k)[|Squeeze(s, k)| - 1] == s[|s| - 1]
  {
    var last := [s[|s| - 1]];
    assert s == s[..|s| - 1] + last;
    SqueezeFrom(s[..|s| - 1], last, k);
    SqueezeLine(last, 0);
  }

  lemma GeneratedEnds()
    ensures GENERATED != "" && GENERATED[|GENERATED| - 1] == '.'
  {
    var tail := "Edit list.json; manual changes to this file are overwritten on the next version.";
    assert tail[|tail| - 1] == '.';
  }

  lemma ShIsGood()
    ensures GoodLang("sh") && NoNewline("sh")
  {
    assert Trim("sh") == "sh";
  }

  /** A solid block inside a text is kept by the collapse as it is. */
  lemma SqueezeAround(a: string, b: string, c: string)
    requires b != "" && b[0] != '\n' && b[|b| - 1] != '\n' && Squeeze(b, 0) == b
    ensures Squeeze(a + b + ("\n" + c), 0) == Squeeze(a, 0) + b + "\n" + Squeeze(c, 1)
  {
    var tail := "\n" + c;
    assert Squeeze(tail, 0) == "\n" + Squeeze(c, 1) by {
      assert tail[1..] == c;
    }
    hide Squeeze;
    SqueezeFrom(a, b + tail, 0);
    SqueezeAfter(b, tail, 0);
    Regroup(a, b, "\n", c);
    Regroup(Squeeze(a, 0), b, "\n", Squeeze(c, 1));
  }

  lemma Regroup(a: string, b: string, n: string, c: string)
    ensures a + b + (n + c) == a + (b + (n + c)) == a + b + n + c
  {
  }

  /** The command block of every step stands in README.md line for line, and a CommonMark reader of that block
      gets exactly the newline-normalised command, whatever the command. The block is read by itself: a fence that a
      description before it leaves open is not followed. */
  lemma CommandSurvives(v: VersionData, i: nat) returns (rest: string)
    requires i < |v.steps| && IsStepBlock(v.steps[i]) && v.steps[i].command != ""
    ensures var w := |IndentOf(v.ordered, NumberOf(v, i))|;
            var block := Join(CodeBlockLines(v.steps[i].command, Spaces(w), "sh"), "\n");
            && Render(v) == Squeeze(Join(LinesBefore(v, i), "\n") + "\n", 0) + block + "\n" + rest
            && ItemLines(Lines(block), w).Some?
            && ReadFence(ItemLines(Lines(block), w).value)
               == Some(Fenced("sh", Lines(NormalNewlines(v.steps[i].command)), []))
  {
    hide Lines, CodeBlockLines, LinesBefore, PageLines, NumberOf, IndentOf, ReadFence, ItemLines, NormalNewlines,
      IsSpace, Join, Squeeze, TrimEnd, GoodLang;
    var command, indent := v.steps[i].command, IndentOf(v.ordered, NumberOf(v, i));
    var block := CodeBlockLines(command, indent, "sh");
    ShIsGood();
    FenceRoundTrip(command, |indent|, "sh");
    BlockIsSolid(command, indent, "sh");
    LinesOfJoin(block);
    rest := ReadmeAround(v, i, block);
  }

  lemma ReadmeAround(v: VersionData, i: nat, block: seq<string>) returns (rest: string)
    requires i < |v.steps| && IsStepBlock(v.steps[i]) && v.steps[i].command != ""
    requires block == CodeBlockLines(v.steps[i].command, IndentOf(v.ordered, NumberOf(v, i)), "sh")
    requires SolidLines(block) && block != []
    ensures Render(v) == Squeeze(Join(LinesBefore(v, i), "\n") + "\n", 0) + Join(block, "\n") + "\n" + rest
  {
    hide CodeBlockLines, LinesBefore, PageLines, NumberOf, IndentOf, Join, Squeeze, TrimEnd, Render;
    var after := PageAroundCommand(v, i);
    rest := SolidStands(v, LinesBefore(v, i), block, after);
  }

  /** Lines of the page that all carry something stand in README.md as they are. */
  lemma SolidStands(v: VersionData, before: seq<string>, block: seq<string>, after: seq<string>) returns (rest: string)
    requires PageLines(v) == before + block + after && before != [] && after != [] && after[|after| - 1] == GENERATED
    requires SolidLines(block) && block != []
    ensures Render(v) == Squeeze(Join(before, "\n") + "\n", 0) + Join(block, "\n") + "\n" + rest
  {
    hide PageLines, Join, Squeeze, TrimEnd, Render;
    var a, b, c := Join(before, "\n") + "\n", Join(block, "\n"), Join(after, "\n");
    JoinAppend(before + block, after, "\n");
    JoinAppend(before, block, "\n");
    assert Join(PageLines(v), "\n") == a + b + ("\n" + c);
    JoinFirst(block);
    JoinLast(block);
    SqueezeSolid(block, 0);
    GeneratedEnds();
    JoinLast(after);
    TextStands(v, a, b, c);
    rest := Squeeze(c, 1) + "\n";
  }

  /** A solid text of the page stands in README.md as it is. */
  lemma TextStands(v: VersionData, a: string, b: string, c: string)
    requires Join(PageLines(v), "\n") == a + b + ("\n" + c)
    requires b != "" && b[0] != '\n' && b[|b| - 1] != '\n' && Squeeze(b, 0) == b
    requires c != "" && c[|c| - 1] == '.'
    ensures Render(v) == Squeeze(a, 0) + b + "\n" + (Squeeze(c, 1) + "\n")
  {
    hide PageLines, Join, Squeeze, TrimEnd;
    SqueezeAround(a, b, c);
    SqueezeKeepsLast(c, 1);
    var page := Squeeze(a, 0) + b + "\n" + Squeeze(c, 1);
    TrimEndOfSolid(page);
  }

  lemma TrimEndOfSolid(s: string)
    requires s != "" && s[|s| - 1] == '.'
    ensures TrimEnd(s) == s
  {
  }

  // ---- what stands on the page ----------------------------------------------------------------

  /** The text stands on the page as a line of its own. */
  predicate HasLine(page: string, line: string) {
    || (line + "\n" <= page)
    || exists i :: 0 <= i < |page| && page[i] == '\n' && line + "\n" <= page[i + 1..]
  }

  /** A text that breaks no line. */
  predicate OneLine(s: string) {
    s != "" && NoNewline(s)
  }

  lemma {:induction false} SqueezeKeepsBreak(s: string, k: nat)
    requires s != "" && s[|s| - 1] == '\n'
    ensures Squeeze(s, k) == "" || Squeeze(s, k)[|Squeeze(s, k)| - 1] == '\n'
  {
    if |s| > 1 {
      SqueezeKeepsBreak(s[1..], if s[0] != '\n' then 0 else if k >= 2 then k else k + 1);
      if s[0] != '\n' {
        SqueezeKeepsSome(s[1..], 0);
      }
    }
  }

  lemma {:induction false} SqueezeKeepsSome(s: string, k: nat)
    requires s != "" && k < 2
    ensures Squeeze(s, k) != ""
  {
  }

  /** Every line of the page that carries something, but the first, is a line of README.md. */
  lemma LineStands(v: VersionData, k: nat)
    requires 0 < k < |PageLines(v)| - 1 && OneLine(PageLines(v)[k])
    ensures HasLine(Render(v), PageLines(v)[k])
  {
    hide PageLines, Render, Squeeze, Join;
    var lines := PageLines(v);
    var before, block, after := lines[..k], [lines[k]], lines[k + 1..];
    assert lines == before + block + after;
    assert after[|after| - 1] == lines[|lines| - 1];
    PageEnds(v);
    var rest := SolidStands(v, before, block, after);
    JoinOne(lines[k]);
    var head := Join(before, "\n") + "\n";
    SqueezeKeepsBreak(head, 0);
    var a := Squeeze(head, 0);
    StandsAfter(a, lines[k], rest);
  }

  lemma PageEnds(v: VersionData)
    ensures |PageLines(v)| >= 4 && PageLines(v)[|PageLines(v)| - 1] == GENERATED
  {
    hide AddBlocks, HeaderLines;
  }

  lemma StandsAfter(a: string, line: string, rest: string)
    requires a == "" || a[|a| - 1] == '\n'
    ensures HasLine(a + line + "\n" + rest, line)
  {
    var page := a + line + "\n" + rest;
    if a == "" {
      assert page == line + "\n" + rest;
    } else {
      assert page[|a| - 1] == '\n' && page[|a| - 1 + 1..] == line + "\n" + rest;
    }
  }

  /** Line `k` of the blocks, after the title, is a line of README.md. */
  lemma OnPage(v: VersionData, i: nat, k: nat)
    requires i <= |v.steps|
    requires 0 < k < |AddBlocks(StartOf(v), v.steps[..i], v.ordered).lines|
    requires OneLine(AddBlocks(StartOf(v), v.steps[..i], v.ordered).lines[k])
    ensures HasLine(Render(v), AddBlocks(StartOf(v), v.steps[..i], v.ordered).lines[k])
  {
    hide AddBlocks, Render, HasLine, HeaderLines;
    AddBlocksGrows(StartOf(v), v.steps, v.ordered, i);
    var all := AddBlocks(StartOf(v), v.steps, v.ordered).lines;
    assert PageLines(v)[k] == all[k];
    LineStands(v, k);
  }

  /** The lines that block `i` adds to the page. */
  function AddedLines(v: VersionData, i: nat): seq<string>
    requires i < |v.steps|
  {
    var s := v.steps[i];
    var before := AddBlocks(StartOf(v), v.steps[..i], v.ordered);
    if IsStepBlock(s) then OpenSection(Page([], before.section, 0), s.section).lines + StepLines(s, v.ordered, NumberOf(v, i))
    else InlineLines(s)
  }

  lemma AddedIsAdded(v: VersionData, i: nat)
    requires i < |v.steps|
    ensures AddBlocks(StartOf(v), v.steps[..i + 1], v.ordered).lines
         == AddBlocks(StartOf(v), v.steps[..i], v.ordered).lines + AddedLines(v, i)
    ensures AddBlocks(StartOf(v), v.steps[..i], v.ordered).lines != []
  {
    hide StepLines, InlineLines, AddBlocks, StepCount, HeaderLines;
    AddBlocksNext(StartOf(v), v.steps, v.ordered, i);
    AddBlocksGrows(StartOf(v), v.steps[..i], v.ordered, 0);
    AddNoBlocks(StartOf(v), v.ordered);
    HeaderFirst(v);
    assert v.steps[..i][..0] == [];
  }

  lemma HeaderFirst(v: VersionData)
    ensures |HeaderLines(v)| >= 4 && HeaderLines(v)[0] == "# " + v.title
  {
  }

  /** Every line of a block that carries something is a line of README.md. */
  lemma BlockOnPage(v: VersionData, i: nat, x: string)
    requires i < |v.steps| && x in AddedLines(v, i) && OneLine(x)
    ensures HasLine(Render(v), x)
  {
    hide AddBlocks, Render, HasLine, AddedLines;
    AddedIsAdded(v, i);
    var j :| 0 <= j < |AddedLines(v, i)| && AddedLines(v, i)[j] == x;
    OnPage(v, i + 1, |AddBlocks(StartOf(v), v.steps[..i], v.ordered).lines| + j);
  }

  lemma StepOnPage(v: VersionData, i: nat, x: string)
    requires i < |v.steps| && IsStepBlock(v.steps[i]) && x in StepLines(v.steps[i], v.ordered, NumberOf(v, i))
    ensures OneLine(x) ==> HasLine(Render(v), x)
  {
    hide StepLines, AddBlocks, Render, HasLine, NumberOf, OneLine;
    assert x in AddedLines(v, i);
    if OneLine(x) {
      BlockOnPage(v, i, x);
    }
  }

  lemma StepLineIn(v: VersionData, i: nat, x: string)
    requires i < |v.steps|
    ensures var s, num := v.steps[i], NumberOf(v, i);
            x in StepHead(s, v.ordered, num) || x in StepTail(s, IndentOf(v.ordered, num)) ==> x in StepLines(s, v.ordered, num)
  {
    hide StepHead, StepTail, NumberOf, CodeBlockLines;
  }

  /** The heads of the items: a number with a dot, or a dash. */
  function Bullet(ordered: bool, num: nat): string {
    if ordered then Dec(num) + "." else "-"
  }

  /** How a reference reads: a link under its caption, a bare address, or a caption alone. */
  function ReadsAs(r: StepRef): string {
    if r.url.None? then r.caption
    else if Blank(r.caption) then "<" + r.url.value + ">"
    else "[" + r.caption + "](" + r.url.value + ")"
  }

  /** What a step says stands on the page: its title under its number with its level, its description, its reason, every
      subtask with a box and every reference, each on a line of its own and set in under the title, as far as they
      break no line themselves. */
  lemma StepStands(v: VersionData, i: nat)
    requires i < |v.steps| && IsStepBlock(v.steps[i])
    ensures var s, page := v.steps[i], Render(v);
            var bullet := Bullet(v.ordered, NumberOf(v, i));
            var indent := Spaces(|bullet| + 1);
            && (NoNewline(s.title + s.level) ==>
                  HasLine(page, bullet + " **" + s.title + "**"
                                + (if s.level == "" || s.level == "required" then "" else " _(" + s.level + ")_")))
            && (OneLine(s.desc) ==> HasLine(page, indent + s.desc))
            && (OneLine(s.why) ==> HasLine(page, indent + "> why: " + s.why))
            && (forall k :: 0 <= k < |s.subtasks| && NoNewline(s.subtasks[k]) ==> HasLine(page, indent + "- [ ] " + s.subtasks[k]))
            && (forall k :: 0 <= k < |s.refs| && NoNewline(ReadsAs(s.refs[k])) ==> HasLine(page, indent + "- " + ReadsAs(s.refs[k])))
  {
    hide Render, HasLine, NumberOf, Spaces;
    var s, num := v.steps[i], NumberOf(v, i);
    var bullet := Bullet(v.ordered, num);
    var indent := Spaces(|bullet| + 1);
    assert indent == IndentOf(v.ordered, num);
    SpacesBreakNothing(|bullet| + 1);
    BulletBreaksNothing(v.ordered, num);
    HeadStands(v, i);
    if OneLine(s.why) {
      var x := indent + "> why: " + s.why;
      assert x in StepTail(s, indent);
      StepLineIn(v, i, x);
      StepOnPage(v, i, x);
    }
    forall k | 0 <= k < |s.subtasks| && NoNewline(s.subtasks[k]) ensures HasLine(Render(v), indent + "- [ ] " + s.subtasks[k]) {
      var x := indent + "- [ ] " + s.subtasks[k];
      TaskInTail(s, indent, k);
      StepLineIn(v, i, x);
      StepOnPage(v, i, x);
    }
    forall k | 0 <= k < |s.refs| && NoNewline(ReadsAs(s.refs[k])) ensures HasLine(Render(v), indent + "- " + ReadsAs(s.refs[k])) {
      var x := indent + "- " + ReadsAs(s.refs[k]);
      RefInTail(s, indent, k);
      StepLineIn(v, i, x);
      StepOnPage(v, i, x);
    }
  }

  lemma TaskInTail(s: SerStep, indent: string, k: nat)
    requires k < |s.subtasks|
    ensures indent + "- [ ] " + s.subtasks[k] in StepTail(s, indent)
  {
    hide RefItem;
    var tasks := Indented(s.subtasks, indent + "- [ ] ");
    assert tasks[k] == indent + "- [ ] " + s.subtasks[k];
    assert tasks[k] in tasks;
  }

  lemma RefInTail(s: SerStep, indent: string, k: nat)
    requires k < |s.refs|
    ensures indent + "- " + ReadsAs(s.refs[k]) in StepTail(s, indent)
  {
    hide Blank;
    var items := Indented(RefItems(s.refs), indent + "- ");
    assert items[k] == indent + "- " + ReadsAs(s.refs[k]);
    assert items[k] in items;
  }

  lemma HeadStands(v: VersionData, i: nat)
    requires i < |v.steps| && IsStepBlock(v.steps[i])
    ensures var s, page := v.steps[i], Render(v);
            var bullet := Bullet(v.ordered, NumberOf(v, i));
            && (NoNewline(s.title + s.level) ==>
                  HasLine(page, bullet + " **" + s.title + "**"
                                + (if s.level == "" || s.level == "required" then "" else " _(" + s.level + ")_")))
            && (OneLine(s.desc) ==> HasLine(page, Spaces(|bullet| + 1) + s.desc))
  {
    hide Render, HasLine, NumberOf, Spaces, ReplaceAll;
    var s, num := v.steps[i], NumberOf(v, i);
    var bullet := Bullet(v.ordered, num);
    var indent := Spaces(|bullet| + 1);
    assert indent == IndentOf(v.ordered, num);
    SpacesBreakNothing(|bullet| + 1);
    BulletBreaksNothing(v.ordered, num);
    var note := if s.level == "" || s.level == "required" then "" else " _(" + s.level + ")_";
    var title := bullet + " **" + s.title + "**" + note;
    assert title in StepHead(s, v.ordered, num);
    StepLineIn(v, i, title);
    StepOnPage(v, i, title);
    if NoNewline(s.title + s.level) {
      PartsBreakNothing(s.title, s.level);
      assert title != "";
    }
    if OneLine(s.desc) {
      NothingReplaced(s.desc, "\n" + indent);
      var x := indent + s.desc;
      assert x in StepHead(s, v.ordered, num);
      StepLineIn(v, i, x);
      StepOnPage(v, i, x);
    }
  }

  lemma PartsBreakNothing(a: string, b: string)
    requires NoNewline(a + b)
    ensures NoNewline(a) && NoNewline(b)
  {
    assert forall i :: 0 <= i < |a| ==> (a + b)[i] == a[i];
    assert forall i :: 0 <= i < |b| ==> (a + b)[|a| + i] == b[i];
  }

  lemma {:induction false} NothingReplaced(s: string, with: string)
    requires NoNewline(s)
    ensures ReplaceAll(s, "\n", with) == s
  {
    if s != "" {
      NothingReplaced(s[1..], with);
      assert s[0] != "\n"[0];
      assert [s[0]] + s[1..] == s;
    }
  }

  lemma SpacesBreakNothing(n: nat)
    ensures NoNewline(Spaces(n))
  {
  }

  lemma BulletBreaksNothing(ordered: bool, num: nat)
    ensures NoNewline(Bullet(ordered, num)) && Bullet(ordered, num) != ""
  {
    hide Dec;
    assert forall i :: 0 <= i < |Dec(num)| ==> IsDigit(Dec(num)[i]);
  }

  lemma {:induction false} ReplaceSplit(a: string, b: string, with: string)
    ensures ReplaceAll(a + b, "\n", with) == ReplaceAll(a, "\n", with) + ReplaceAll(b, "\n", with)
  {
    if a == "" {
      assert a + b == b;
    } else {
      assert (a + b)[1..] == a[1..] + b;
      ReplaceSplit(a[1..], b, with);
      assert "\n" <= a <==> "\n" <= a + b by {
        assert "\n"[0] == '\n';
      }
    }
  }

  /** What follows a line of a text: nothing, or a line break. */
  predicate LineEnds(rest: string) {
    rest == "" || rest[0] == '\n'
  }

  lemma ReplaceKeepsEnd(rest: string, indent: string)
    requires LineEnds(rest)
    ensures LineEnds(ReplaceAll(rest, "\n", "\n" + indent))
  {
    if rest != "" {
      assert "\n" <= rest by {
        assert "\n"[0] == rest[0];
      }
    }
  }

  lemma ReplaceBreak(indent: string)
    ensures ReplaceAll("\n", "\n", "\n" + indent) == "\n" + indent
  {
  }

  /** A line inside an entry of the page is a line of README.md. */
  lemma InnerLineStands(v: VersionData, k: nat, x: string, line: string, y: string)
    requires 0 < k < |PageLines(v)| - 1 && PageLines(v)[k] == x + "\n" + line + y && OneLine(line) && LineEnds(y)
    ensures HasLine(Render(v), line)
  {
    hide PageLines, Render, Squeeze, Join;
    var lines := PageLines(v);
    var before, after := lines[..k], lines[k + 1..];
    assert lines == before + [lines[k]] + after;
    assert after[|after| - 1] == lines[|lines| - 1];
    PageEnds(v);
    JoinAppend(before + [lines[k]], after, "\n");
    JoinAppend(before, [lines[k]], "\n");
    JoinOne(lines[k]);
    GeneratedEnds();
    JoinLast(after);
    var a := Join(before, "\n") + "\n" + x + "\n";
    var tail := Join(after, "\n");
    var c := if y == "" then tail else y[1..] + "\n" + tail;
    assert y + "\n" + tail == "\n" + c;
    assert Join(lines, "\n") == a + line + ("\n" + c);
    SqueezeLine(line, 0);
    TextStands(v, a, line, c);
    SqueezeKeepsBreak(a, 0);
    StandsAfter(Squeeze(a, 0), line, Squeeze(c, 1) + "\n");
    assert Squeeze(a, 0) + line + "\n" + (Squeeze(c, 1) + "\n") == Render(v);
  }

  /** Every line of a description stands on the page, set in like its first. */
  lemma DescriptionStands(v: VersionData, i: nat, p: string, line: string, q: string)
    requires i < |v.steps| && IsStepBlock(v.steps[i])
    requires v.steps[i].desc == p + "\n" + line + q && OneLine(line) && LineEnds(q)
    ensures HasLine(Render(v), Spaces(|Bullet(v.ordered, NumberOf(v, i))| + 1) + line)
  {
    hide Render, HasLine, NumberOf, Spaces, ReplaceAll, AddBlocks, PageLines;
    var s, num := v.steps[i], NumberOf(v, i);
    var indent := IndentOf(v.ordered, num);
    var with := "\n" + indent;
    ReplaceSplit(p + "\n" + line, q, with);
    ReplaceSplit(p + "\n", line, with);
    ReplaceSplit(p, "\n", with);
    NothingReplaced(line, with);
    ReplaceBreak(indent);
    ReplaceKeepsEnd(q, indent);
    SpacesBreakNothing(|indent|);
    var x, y := indent + ReplaceAll(p, "\n", with), ReplaceAll(q, "\n", with);
    var entry := indent + ReplaceAll(s.desc, "\n", with);
    assert entry == x + "\n" + (indent + line) + y;
    DescriptionEntry(v, i);
    var k :| 0 < k < |PageLines(v)| - 1 && PageLines(v)[k] == entry;
    InnerLineStands(v, k, x, indent + line, y);
  }

  lemma DescriptionEntry(v: VersionData, i: nat)
    requires i < |v.steps| && IsStepBlock(v.steps[i]) && v.steps[i].desc != ""
    ensures var indent := IndentOf(v.ordered, NumberOf(v, i));
            exists k :: 0 < k < |PageLines(v)| - 1 && PageLines(v)[k] == indent + ReplaceAll(v.steps[i].desc, "\n", "\n" + indent)
  {
    hide ReplaceAll, AddBlocks, NumberOf, HeaderLines, CodeBlockLines, StepTail, StepLines, StepCount, Marker, Spaces;
    var indent := IndentOf(v.ordered, NumberOf(v, i));
    var entry := indent + ReplaceAll(v.steps[i].desc, "\n", "\n" + indent);
    assert entry in StepHead(v.steps[i], v.ordered, NumberOf(v, i));
    StepLineIn(v, i, entry);
    assert entry in AddedLines(v, i);
    var j :| 0 <= j < |AddedLines(v, i)| && AddedLines(v, i)[j] == entry;
    AddedIsAdded(v, i);
    AddBlocksGrows(StartOf(v), v.steps, v.ordered, i + 1);
    var k := |AddBlocks(StartOf(v), v.steps[..i], v.ordered).lines| + j;
    assert PageLines(v)[k] == entry;
  }

  /** A section is announced by a heading before the first step that names it. */
  lemma SectionStands(v: VersionData, i: nat)
    requires i < |v.steps| && IsStepBlock(v.steps[i]) && OneLine(v.steps[i].section)
    requires AddBlocks(StartOf(v), v.steps[..i], v.ordered).section != v.steps[i].section
    ensures HasLine(Render(v), "## " + v.steps[i].section)
  {
    hide Render, HasLine, StepLines, AddBlocks, NumberOf;
    var x := "## " + v.steps[i].section;
    assert x in AddedLines(v, i);
    BlockOnPage(v, i, x);
  }

  /** A step of the section that stands open, or of none, adds nothing but its own lines: no heading is repeated. */
  lemma SectionStaysOpen(v: VersionData, i: nat)
    requires i < |v.steps| && IsStepBlock(v.steps[i])
    requires v.steps[i].section == "" || v.steps[i].section == AddBlocks(StartOf(v), v.steps[..i], v.ordered).section
    ensures AddBlocks(StartOf(v), v.steps[..i + 1], v.ordered).lines
         == AddBlocks(StartOf(v), v.steps[..i], v.ordered).lines + StepLines(v.steps[i], v.ordered, NumberOf(v, i))
  {
    hide StepLines, InlineLines, AddBlocks, NumberOf;
    AddedIsAdded(v, i);
  }

  /** The section that stands open after some steps is the last one named. */
  lemma {:induction false} SectionOpen(p: Page, steps: seq<SerStep>, ordered: bool, i: nat)
    requires i < |steps| && IsStepBlock(steps[i]) && steps[i].section != ""
    requires forall j :: i < j < |steps| && IsStepBlock(steps[j]) ==> steps[j].section == "" || steps[j].section == steps[i].section
    ensures AddBlocks(p, steps, ordered).section == steps[i].section
  {
    hide StepLines, InlineLines;
    var n := |steps| - 1;
    if i < n {
      SectionOpen(p, steps[..n], ordered, i);
    }
  }

  /** A text block and an image stand on the page as they are, a text with its sources under it. */
  lemma InlineStands(v: VersionData, i: nat)
    requires i < |v.steps| && !IsStepBlock(v.steps[i])
    ensures var s, page := v.steps[i], Render(v);
            && (s.blockType == Some("text") ==>
                  && (StringField(s.content, "md").Some? && OneLine(StringField(s.content, "md").value) ==>
                        HasLine(page, StringField(s.content, "md").value))
                  && (forall k :: 0 <= k < |s.refs| && OneLine(ReadsAs(s.refs[k])) ==> HasLine(page, "- " + ReadsAs(s.refs[k]))))
            && (s.blockType == Some("image") && StringField(s.content, "ref").Some? && StringField(s.content, "ref").value != "" ==>
                  var x := "![" + StringField(s.content, "caption").GetOr("") + "](" + StringField(s.content, "ref").value + ")";
                  OneLine(x) ==> HasLine(page, x))
  {
    hide Render, HasLine, StringField, Shown, RefItems;
    var s := v.steps[i];
    if s.blockType == Some("text") {
      var md := StringField(s.content, "md").GetOr("");
      if OneLine(md) {
        assert md in AddedLines(v, i);
        BlockOnPage(v, i, md);
      }
      forall k | 0 <= k < |s.refs| && OneLine(ReadsAs(s.refs[k])) ensures HasLine(Render(v), "- " + ReadsAs(s.refs[k])) {
        SourceListed(md, s.refs, k);
        BlockOnPage(v, i, "- " + ReadsAs(s.refs[k]));
      }
    } else if s.blockType == Some("image") && StringField(s.content, "ref").GetOr("") != "" {
      var x := "![" + StringField(s.content, "caption").GetOr("") + "](" + StringField(s.content, "ref").value + ")";
      assert x in AddedLines(v, i);
      if OneLine(x) {
        BlockOnPage(v, i, x);
      }
    }
  }

  lemma {:induction false} ShownHolds(items: seq<string>, k: nat)
    requires k < |items| && items[k] != ""
    ensures items[k] in Shown(items)
  {
    var n := |items| - 1;
    if k < n {
      ShownHolds(items[..n], k);
    }
  }

  lemma SourceListed(md: string, refs: seq<StepRef>, k: nat)
    requires k < |refs| && ReadsAs(refs[k]) != ""
    ensures "- " + ReadsAs(refs[k]) in TextLines(md, Shown(RefItems(refs)))
  {
    hide Shown, Blank;
    var items := Shown(RefItems(refs));
    ShownHolds(RefItems(refs), k);
    var j :| 0 <= j < |items| && items[j] == ReadsAs(refs[k]);
    var lines := Indented(items, "- ");
    assert lines[j] == "- " + ReadsAs(refs[k]);
    assert lines[j] in lines;
  }

  /** The head of the page: its title first, then its description, its tags and the count of its steps. */
  lemma HeadOfPage(v: VersionData)
    ensures OneLine(v.title) ==> "# " + v.title + "\n" <= Render(v)
    ensures OneLine(v.desc) ==> HasLine(Render(v), v.desc)
    ensures var x := "> " + (if v.ordered then "Ordered list" else "Unordered set") + " \U{00B7} v" + DecInt(v.version)
                     + " \U{00B7} " + Dec(StepCount(v.steps)) + " items";
            OneLine(x) ==> HasLine(Render(v), x)
    ensures v.tags != [] && OneLine(Join(Ticked(v.tags), " ")) ==> HasLine(Render(v), Join(Ticked(v.tags), " "))
  {
    hide Render, HasLine, AddBlocks, StepCount, Join, DecInt, Ticked;
    AddNoBlocks(StartOf(v), v.ordered);
    assert v.steps[..0] == [];
    forall k | 0 < k < |HeaderLines(v)| && OneLine(HeaderLines(v)[k]) ensures HasLine(Render(v), HeaderLines(v)[k]) {
      OnPage(v, 0, k);
    }
    TitleStands(v);
    var last := |HeaderLines(v)| - 2;
    assert HeaderLines(v)[last] == "> " + (if v.ordered then "Ordered list" else "Unordered set") + " \U{00B7} v" + DecInt(v.version)
                                   + " \U{00B7} " + Dec(StepCount(v.steps)) + " items";
    if v.desc != "" {
      assert HeaderLines(v)[2] == v.desc;
    }
    if v.tags != [] {
      assert HeaderLines(v)[last - 2] == Join(Ticked(v.tags), " ");
    }
  }

  lemma TitleStands(v: VersionData)
    ensures OneLine(v.title) ==> "# " + v.title + "\n" <= Render(v)
  {
    hide PageLines, Squeeze, Join, TrimEnd;
    if OneLine(v.title) {
      var lines := PageLines(v);
      PageStarts(v);
      PageEnds(v);
      var title, c := "# " + v.title, Join(lines[1..], "\n");
      JoinNext(lines);
      SqueezeFirst(title, c);
      JoinLast(lines[1..]);
      GeneratedEnds();
      SqueezeKeepsLast(c, 1);
      TrimEndOfSolid(title + "\n" + Squeeze(c, 1));
    }
  }

  lemma PageStarts(v: VersionData)
    ensures |PageLines(v)| >= 4 && PageLines(v)[0] == "# " + v.title
  {
    hide AddBlocks;
    AddBlocksGrows(StartOf(v), v.steps, v.ordered, 0);
    AddNoBlocks(StartOf(v), v.ordered);
    assert v.steps[..0] == [];
  }

  lemma SqueezeFirst(line: string, c: string)
    requires OneLine(line)
    ensures Squeeze(line + ("\n" + c), 0) == line + "\n" + Squeeze(c, 1)
  {
    hide Squeeze;
    SqueezeLine(line, 0);
    SqueezeAfter(line, "\n" + c, 0);
    SqueezeBreak(c);
    assert line + ("\n" + Squeeze(c, 1)) == line + "\n" + Squeeze(c, 1);
  }
}

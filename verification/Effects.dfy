/** What each write leaves, field by field: which rows, files, parents and texts come out of which inputs. */
module Effects {
  import opened Wrappers
  import opened Text
  import opened Json
  import opened Canon
  import opened Reading
  import opened Rows
  import opened FixedPoint
  import opened Suggest
  import opened Tree
  import opened AuthoredSets
  import opened Commits
  import opened Notes
  import opened Protocol
  import opened Mechanics
  import opened Safety
  import opened Settle
  import opened Crashes

  // ---- a pushed canon -------------------------------------------------------------------------

  /** The last row of a version number. */
  predicate RowOf(rows: seq<VersionRow>, version: nat, k: nat) {
    k < |rows| && rows[k].version == version && forall j :: k < j < |rows| ==> rows[j].version != version
  }

  lemma {:induction false} StepsAtRow(rows: seq<VersionRow>, version: nat, k: nat)
    requires RowOf(rows, version, k)
    ensures StepsAt(rows, version) == rows[k].steps
  {
    var n := |rows| - 1;
    if k < n {
      StepsAtRow(rows[..n], version, k);
    }
  }

  /** The JSON of the `list.json` a commit carries. */
  function PushedJson(c: Commit): Option<Json> {
    if "list.json" in c.tree && c.tree["list.json"].Leaf? && c.tree["list.json"].mode != Gitlink then JsonOf(c.tree["list.json"].blob)
    else None
  }

  lemma {:induction false} StepsAtNone(rows: seq<VersionRow>, version: nat)
    requires forall k :: 0 <= k < |rows| ==> rows[k].version != version
    ensures StepsAt(rows, version) == []
  {
    if rows != [] {
      StepsAtNone(rows[..|rows| - 1], version);
    }
  }

  /** The steps of the current version: those of its row, or none when it has no row. */
  ghost predicate CurrentSteps(db: Db, steps: seq<StepRow>) {
    || (exists k: nat :: RowOf(db.rows, db.current, k) && steps == db.rows[k].steps)
    || (steps == [] && forall k :: 0 <= k < |db.rows| ==> db.rows[k].version != db.current)
  }

  /** What a push of the tip over a version with these steps gives. */
  function PushOfTip(w: World, steps: seq<StepRow>): Option<Listing> {
    if w.repo.main.None? || PushedJson(w.repo.main.value).None? then None
    else PushCanon(Listing(w.db.current, w.db.meta, steps), PushedJson(w.repo.main.value).value)
  }

  /** Whatever is projected is the push of the canon of the tip over the steps of the current version: the steps of the
      new row are those of `PushCanon`, and so is the meta when its write does not fail. There is nothing to project
      exactly when `PushCanon` has nothing. */
  lemma ProjectedIsPushed(w: World, now: int, steps: seq<StepRow>)
    requires CurrentSteps(w.db, steps)
    ensures var (next, result) := ProjectPushed(w, now);
            match PushOfTip(w, steps)
            case None => (next, result) == (w, Ok(None))
            case Some(pushed) =>
              if Faulty(w.plan) then (next, result) == (Spent(w), Err(()))
              else
                && result == Ok(Some(pushed.version)) && next.db.current == pushed.version == w.db.current + 1
                && next.db.rows == w.db.rows + [VersionRow(pushed.version, NoteFor(w.repo.main.value.message), now, pushed.rows)]
                && next.db.meta == (if Faulty(Rest(w.plan)) then w.db.meta else pushed.meta)
                && next.repo.main == w.repo.main
  {
    hide UpdateMeta, ProjRows, ParseSteps, DecodeList, TagFor, Overlaid, NoteFor, Faulty, Rest;
    if k: nat :| RowOf(w.db.rows, w.db.current, k) && steps == w.db.rows[k].steps {
      StepsAtRow(w.db.rows, w.db.current, k);
    } else {
      StepsAtNone(w.db.rows, w.db.current);
    }
  }

  /** Those of a sequence that are kept, in their order, each in its new form. */
  function Sifted<T, U>(xs: seq<T>, keep: T -> bool, form: T -> U): seq<U> {
    if xs == [] then []
    else
      var last := xs[|xs| - 1];
      Sifted(xs[..|xs| - 1], keep, form) + (if keep(last) then [form(last)] else [])
  }

  function Among<T>(xs: seq<T>, keep: T -> bool): nat {
    if xs == [] then 0 else Among(xs[..|xs| - 1], keep) + (if keep(xs[|xs| - 1]) then 1 else 0)
  }

  /** What is kept keeps its place among what is kept. */
  lemma {:induction false} SiftedAt<T, U>(xs: seq<T>, keep: T -> bool, form: T -> U, i: nat)
    requires i < |xs|
    ensures |Sifted(xs, keep, form)| == Among(xs, keep)
    ensures keep(xs[i]) ==> Among(xs[..i], keep) < Among(xs, keep) && Sifted(xs, keep, form)[Among(xs[..i], keep)] == form(xs[i])
  {
    var n := |xs| - 1;
    if i < n {
      SiftedAt(xs[..n], keep, form, i);
      assert xs[..n][..i] == xs[..i];
    } else if n > 0 {
      SiftedAt(xs[..n], keep, form, 0);
    }
  }

  /** There is something to read in the text. */
  predicate Reads(s: string) {
    exists i :: 0 <= i < |s| && !IsSpace(s[i])
  }

  lemma ReadsIsNotBlank(s: string)
    ensures Reads(s) <==> !Blank(s)
  {
    hide Blank;
    BlankIsAllSpace(s);
  }

  /** A step block needs a title. */
  predicate Titled(s: RawStep) {
    (s.blockType.Some? && s.blockType.value != "" && s.blockType.value != "step") || (s.title.Some? && Reads(s.title.value))
  }

  lemma TitledStays(s: RawStep)
    ensures Drops(s) <==> !Titled(s)
  {
    hide Blank;
    ReadsIsNotBlank(s.title.GetOr(""));
  }

  /** Reading keeps every step with a title, and every other block. */
  lemma {:induction false} ParsedAreTitled(steps: seq<RawStep>)
    ensures ParseSteps(steps) == Sifted(steps, Titled, ParseStep)
  {
    hide ParseStep, Titled, Drops;
    if steps != [] {
      TitledStays(steps[|steps| - 1]);
      ParsedAreTitled(steps[..|steps| - 1]);
    }
  }

  /** A reference needs a caption or an address. */
  predicate RefReads(r: RawRef) {
    (r.caption.Some? && Reads(r.caption.value)) || (r.url.Some? && Reads(r.url.value))
  }

  function RefRow(r: RawRef): StepRef {
    StepRef(Trim(r.caption.GetOr("")), if r.url.Some? && Reads(r.url.value) then Some(Trim(r.url.value)) else None)
  }

  lemma {:induction false} SubtasksAreSifted(xs: seq<string>)
    ensures CleanSubtasks(xs) == Sifted(xs, Reads, Trim)
  {
    hide Reads, Trim, Blank;
    if xs != [] {
      ReadsIsNotBlank(xs[|xs| - 1]);
      SubtasksAreSifted(xs[..|xs| - 1]);
    }
  }

  lemma RefIsRow(r: RawRef)
    ensures KeepsRef(RefOf(r).caption, RefOf(r).url) <==> RefReads(r)
    ensures CleanRef(RefOf(r)) == RefRow(r)
  {
    hide Reads, Trim, Blank;
    ReadsIsNotBlank(r.caption.GetOr(""));
    assert !Reads("") by { NothingReads(); }
    if r.url.Some? {
      ReadsIsNotBlank(r.url.value);
    }
  }

  lemma NothingReads()
    ensures !Reads("")
  {
  }

  lemma {:induction false} RefsAreSifted(refs: seq<RawRef>)
    ensures CleanRefs(RefsOf(refs)) == Sifted(refs, RefReads, RefRow)
  {
    hide RefReads, RefRow, CleanRef, KeepsRef;
    if refs != [] {
      var n := |refs| - 1;
      RefIsRow(refs[n]);
      RefsAreSifted(refs[..n]);
      assert RefsOf(refs)[..n] == RefsOf(refs[..n]);
      assert CleanRefs(RefsOf(refs)) == CleanRefs(RefsOf(refs[..n])) + (if RefReads(refs[n]) then [RefRow(refs[n])] else []);
    }
  }

  /** The last row of a block. */
  predicate LastOf(rows: seq<StepRow>, id: Uuid, j: nat) {
    j < |rows| && rows[j].blockId == Some(id) && forall k :: j < k < |rows| ==> rows[k].blockId != Some(id)
  }

  /** The marks a block had in the rows: those of its last row; none when it had no row, or is no block. */
  ghost predicate Had(rows: seq<StepRow>, id: Option<Uuid>, m: Marks) {
    if id.Some? && exists j: nat :: LastOf(rows, id.value, j) then
      exists j: nat :: LastOf(rows, id.value, j) && m.danger == rows[j].danger && m.imageKey == rows[j].imageKey
                  && m.needsHuman == rows[j].needsHuman && m.needsHumanAsk == rows[j].needsHumanAsk
    else !m.danger && m.imageKey.None? && !m.needsHuman && m.needsHumanAsk == ""
  }

  lemma {:induction false} MarksForLast(rows: seq<StepRow>, id: Uuid)
    ensures Had(rows, Some(id), MarksFor(rows, id))
  {
    if rows != [] {
      var n := |rows| - 1;
      if rows[n].blockId == Some(id) {
        assert LastOf(rows, id, n);
      } else {
        MarksForLast(rows[..n], id);
        forall j: nat ensures LastOf(rows, id, j) <==> LastOf(rows[..n], id, j) {
          if LastOf(rows[..n], id, j) {
            assert rows[j].blockId == Some(id);
          }
        }
      }
    }
  }

  /** The texts and lists of a pushed row are those of its step, trimmed. */
  predicate TextsFollow(r: StepRow, s: RawStep) {
    && r.title == Trim(s.title.GetOr("")) && r.desc == Trim(s.desc.GetOr("")) && r.command == Trim(s.command.GetOr(""))
    && r.why == Trim(s.why.GetOr("")) && r.section == Trim(s.section.GetOr(""))
    && (var level := Trim(s.level.GetOr(""));
        r.level == if level == "recommended" then Recommended else if level == "optional" then Optional else Required)
    && r.subtasks == Sifted(s.subtasks.GetOr([]), Reads, Trim) && r.refs == Sifted(s.refs.GetOr([]), RefReads, RefRow)
    && r.blockId == (if s.blockId.Some? then ParseUuid(s.blockId.value) else None)
    && (if s.blockType.None? || s.blockType.value == "" || s.blockType.value == "step"
        then r.blockType == "step" && r.content == EMPTY_OBJECT
        else r.blockType == s.blockType.value && r.content == s.content.GetOr(Null))
  }

  /** What the file says about a mark holds; what it does not mention stays as the block had it. */
  predicate MarksFollow(r: StepRow, s: RawStep, had: Marks) {
    && r.danger == (if s.danger.Some? then s.danger.value else had.danger)
    && r.needsHuman == (if s.needsHuman.Some? then s.needsHuman.value else had.needsHuman)
    && r.imageKey == (if s.imageKey.None? then had.imageKey
                      else if Reads(s.imageKey.value) then Some(Trim(s.imageKey.value)) else None)
    && r.needsHumanAsk == (if s.needsHuman.None? then had.needsHumanAsk
                           else if s.needsHuman.value then Trim(s.needsHumanAsk.GetOr("")) else "")
  }

  lemma BlankIsNoBlock(s: string)
    requires Blank(s)
    ensures ParseUuid(s).None?
  {
    if s != "" {
      BlankIsAllSpace(s);
      assert IsSpace(s[0]);
    }
  }

  /** One pushed step as its row: every text is that of the step; an absent mark is the one the last row of that block
      had in the version replaced, an explicit one is taken as it is, `false` and `""` included. */
  lemma PushedRowFollows(s: RawStep, current: seq<StepRow>) returns (had: Marks)
    ensures Had(current, ProjStepRow(ParseStep(s), current).blockId, had)
    ensures TextsFollow(ProjStepRow(ParseStep(s), current), s)
    ensures MarksFollow(ProjStepRow(ParseStep(s), current), s, had)
  {
    hide Trim, Blank, Reads, ParseUuid, MarksFor, CleanSubtasks, CleanRefs, LiveRefs, RefsOf, Sifted, RefReads, RefRow, Had;
    var r := ProjStepRow(ParseStep(s), current);
    had := Rows.Carry(current, ParseStep(s).blockId);
    if s.blockId.Some? && Blank(s.blockId.value) {
      BlankIsNoBlock(s.blockId.value);
    }
    if r.blockId.Some? {
      MarksForLast(current, r.blockId.value);
    } else {
      assert Had(current, None, NO_MARKS) by { NothingHad(current); }
    }
    BlankAsk(s.needsHumanAsk);
    CleanOfLive(s.refs.GetOr([]));
    SubtasksAreSifted(s.subtasks.GetOr([]));
    RefsAreSifted(s.refs.GetOr([]));
    ReadsIsNotBlank(s.imageKey.GetOr(""));
  }

  lemma NothingHad(rows: seq<StepRow>)
    ensures Had(rows, None, NO_MARKS)
  {
  }

  lemma BlankAsk(ask: Option<string>)
    ensures Trim((if ask.Some? && !Blank(ask.value) then ask else None).GetOr("")) == Trim(ask.GetOr(""))
  {
  }

  lemma {:induction false} LiveTwice(refs: seq<StepRef>)
    ensures LiveRefs(LiveRefs(refs)) == LiveRefs(refs)
  {
    LiveRefsOfLive(LiveRefs(refs));
  }

  lemma CleanOfLive(refs: seq<RawRef>)
    ensures CleanRefs(LiveRefs(RefsOf(refs))) == CleanRefs(RefsOf(refs))
  {
    hide LiveRefs, CleanRef;
    LiveTwice(RefsOf(refs));
  }

  /** The rows of a pushed version, step by step of the file. */
  lemma PushedRows(l: Listing, canon: Json, i: nat) returns (had: Marks)
    requires PushCanon(l, canon).Some? && i < |DecodeList(canon).value.steps.value|
    ensures var steps := DecodeList(canon).value.steps.value;
            var rows, k := PushCanon(l, canon).value.rows, Among(steps[..i], Titled);
            && |rows| == Among(steps, Titled)
            && (Titled(steps[i]) ==>
                  k < |rows| && TextsFollow(rows[k], steps[i]) && Had(l.rows, rows[k].blockId, had) && MarksFollow(rows[k], steps[i], had))
  {
    hide DecodeList, ParseStep, ParseSteps, RowFrom, Had, TextsFollow, MarksFollow, Titled, UpdateMeta;
    var steps := DecodeList(canon).value.steps.value;
    ParsedAreTitled(steps);
    SiftedAt(steps, Titled, ParseStep, i);
    had := PushedRowFollows(steps[i], l.rows);
  }

  /** The meta after a push, field by field, for any manifest: what the file does not give, or gives in an inadmissible
      form, stays. */
  lemma PushedMeta(m: Meta, raw: RawList)
    ensures var next := UpdateMeta(m, raw);
            && next.title == (if raw.title.Some? && !Blank(raw.title.value) then Trim(raw.title.value) else m.title)
            && next.desc == (if raw.desc.Some? then Trim(raw.desc.value) else m.desc)
            && next.ordered == (if raw.ordered.Some? then raw.ordered.value else m.ordered)
            && (if raw.tags.Some? then FirstTwenty(raw.tags.value, next.tags) else next.tags == m.tags)
            && next.kind == (if raw.kind.Some? && KnownKind(raw.kind.value) then raw.kind else m.kind)
            && next.skillHeader == (if raw.skillHeader.None? then m.skillHeader
                                    else if raw.skillHeader == Some(Obj(map[])) then None
                                    else if SkillHeaderValid(raw.skillHeader.value).Some? then SkillHeaderValid(raw.skillHeader.value)
                                    else m.skillHeader)
  {
    hide Trim, Blank, SkillHeaderValid;
  }

  predicate KnownKind(k: string) {
    || k == "procedure" || k == "inventory" || k == "checklist"
    || k == "criteria" || k == "options" || k == "recipe"
  }

  predicate FirstTwenty(all: seq<string>, some: seq<string>) {
    some <= all && |some| == (if |all| < 20 then |all| else 20)
  }

  // ---- a web write ----------------------------------------------------------------------------

  /** The patch of an edit on the meta: an empty title is ignored, tags are cut at twenty, the rest is taken as sent. */
  predicate Patched(m: Meta, p: MetaPatch, next: Meta) {
    && next.title == (if p.title.Some? && !Blank(p.title.value) then p.title.value else m.title)
    && next.desc == (if p.desc.Some? then p.desc.value else m.desc)
    && next.ordered == (if p.ordered.Some? then p.ordered.value else m.ordered)
    && (if p.tags.Some? then FirstTwenty(p.tags.value, next.tags) else next.tags == m.tags)
    && next.kind == m.kind && next.skillHeader == m.skillHeader
  }

  lemma PatchIsPatched(m: Meta, p: MetaPatch)
    ensures Patched(m, p, PatchMeta(m, p))
  {
    hide Blank;
  }

  /** The author's files of main; none without a main. */
  function FilesOnMain(repo: Repo): set<AuthoredInput> {
    if repo.main.Some? then AuthoredFiles(repo.main.value.tree) else {}
  }

  /** The commit is stamped with the time, the note and the number of a version. */
  predicate Stamped(c: Commit, version: nat, note: string, ts: int) {
    && c.time == ts && c.author == "SetFork"
    && c.message == (if note == "" || note == "initial" || note == "edit" || note == "seeded"
                     then "v" + Dec(version) + "\n" else "v" + Dec(version) + ": " + note + "\n")
  }

  /** A commit of an edit: it stands on main, carries exactly the files that were sent, or else those main had, and its
      canon is the print of a version. */
  lemma EditCommit(v: VersionData, main: Option<Commit>, e: Edit)
    requires e.authored.Some? ==> Accepted(e.authored.value)
    ensures var c := CommitOf(v, main, SourceOf(e));
            && c.parents == (if main.Some? then [main.value] else [])
            && (v.version >= 0 ==> Stamped(c, v.version, v.note, v.ts))
            && AuthoredFiles(c.tree) == (if e.authored.Some? then Elements(e.authored.value)
                                         else if main.Some? then AuthoredFiles(main.value.tree) else {})
            && PushedJson(c) == Some(ListJson(v))
  {
    hide BuildTree, AuthoredFiles, Accepted, ListJson, Dec;
    EditFiles(v, TreeOf(main), e);
    EditCanon(v, TreeOf(main), SourceOf(e));
  }

  lemma EditFiles(v: VersionData, parent: Option<Tree>, e: Edit)
    requires e.authored.Some? ==> Accepted(e.authored.value)
    ensures AuthoredFiles(BuildTree(v, parent, SourceOf(e)))
         == (if e.authored.Some? then Elements(e.authored.value) else if parent.Some? then AuthoredFiles(parent.value) else {})
  {
    hide BuildTree, AuthoredFiles, Accepted;
    if e.authored.Some? {
      ReplaceReadsBack(v, parent, e.authored.value);
    } else if parent.Some? {
      CarryKeepsFiles(v, parent.value);
    } else {
      RootCommitLawful(v);
    }
  }

  lemma EditCanon(v: VersionData, parent: Option<Tree>, source: Source)
    ensures var tree := BuildTree(v, parent, source);
            "list.json" in tree && tree["list.json"] == Leaf(Regular, Printed(ListJson(v)))
  {
    hide BuildTree, VersionFiles;
    var dirs := BuiltFrom(v, parent, source);
    CanonBeside(v, dirs);
  }

  /** What a web write that reached git leaves, whether its rows were lost or not: main is its commit, standing on what
      main was; the commit holds exactly the author's files that were sent, or those main held when the write began;
      and when it is recorded, its row and the patched meta are the ones sent. */
  lemma WebLeaves(w: World, e: Edit, now: int)
    ensures var s := Sync(w, now).0;
            var (next, outcome) := CommitWebVersion(w, e, now);
            outcome.Recorded? || outcome.ProjectionLost? ==>
              && next.repo.main == Some(outcome.commit) && outcome.version == s.db.current + 1
              && TagFor(outcome.version) in next.repo.tags && next.repo.tags[TagFor(outcome.version)] == outcome.commit
              && outcome.commit.parents == (if s.repo.main.Some? then [s.repo.main.value] else [])
              && Stamped(outcome.commit, outcome.version, e.note, e.ts)
              && AuthoredFiles(outcome.commit.tree) == (if e.authored.Some? then Elements(e.authored.value) else FilesOnMain(s.repo))
              && (e.expected.Some? ==> e.expected.value == s.db.current)
              && (outcome.Recorded? ==>
                    && next.db.current == outcome.version
                    && next.db.rows == s.db.rows + [VersionRow(outcome.version, e.note, e.ts, e.rows)]
                    && Patched(s.db.meta, e.patch, next.db.meta))
              && (outcome.ProjectionLost? ==> next.db == s.db)
  {
    hide Sync, WriteVersion, AuthoredFiles, Patched, TagFor, Elements, FilesOnMain, Stamped;
    WriteLeaves(Sync(w, now).0, e);
  }

  lemma WriteLeaves(s: World, e: Edit)
    ensures var (next, outcome) := WriteVersion(s, e);
            outcome.Recorded? || outcome.ProjectionLost? ==>
              && next.repo.main == Some(outcome.commit) && outcome.version == s.db.current + 1
              && TagFor(outcome.version) in next.repo.tags && next.repo.tags[TagFor(outcome.version)] == outcome.commit
              && outcome.commit.parents == (if s.repo.main.Some? then [s.repo.main.value] else [])
              && Stamped(outcome.commit, outcome.version, e.note, e.ts)
              && AuthoredFiles(outcome.commit.tree) == (if e.authored.Some? then Elements(e.authored.value) else FilesOnMain(s.repo))
              && (e.expected.Some? ==> e.expected.value == s.db.current)
              && (outcome.Recorded? ==>
                    && next.db.current == outcome.version
                    && next.db.rows == s.db.rows + [VersionRow(outcome.version, e.note, e.ts, e.rows)]
                    && Patched(s.db.meta, e.patch, next.db.meta))
              && (outcome.ProjectionLost? ==> next.db == s.db)
  {
    hide BuildHistory, CommitOf, InputVerdict, AuthoredFiles, PatchMeta, WebVersion, SourceOf, Patched, TagFor, Faulty, Rest,
      Accepted, Elements, PushedJson, Stamped, ListJson;
    var meta := PatchMeta(s.db.meta, e.patch);
    PatchIsPatched(s.db.meta, e.patch);
    var v := WebVersion(s.db.current + 1, meta, e);
    WebVersionIs(s.db.current + 1, meta, e);
    if e.authored.Some? {
      VerdictIsExact(e.authored.value);
    }
    if e.authored.Some? ==> InputVerdict(e.authored.value).None? {
      EditCommit(v, s.repo.main, e);
      BuiltLeaves(s, v, SourceOf(e));
    }
  }

  lemma WebVersionIs(version: nat, meta: Meta, e: Edit)
    ensures WebVersion(version, meta, e).version == version && WebVersion(version, meta, e).ts == e.ts
    ensures WebVersion(version, meta, e).note == e.note
  {
    hide ValidKind, ShownHeader;
  }

  lemma BuiltLeaves(s: World, v: VersionData, source: Source)
    ensures var (g, result) := BuildHistory(s, [v], s.repo.main, source);
            && g.db == s.db
            && (result.Moved? ==>
                  && g.repo.main == Some(CommitOf(v, s.repo.main, source))
                  && TagFor(v.version) in g.repo.tags && g.repo.tags[TagFor(v.version)] == CommitOf(v, s.repo.main, source))
  {
    hide BuildHistory, CommitOf, TagFor, Lawful, IsAncestor, Overlaid, Faulty, Rest;
    OneBuild(s, v, source);
  }

  predicate Filled(s: string) {
    s != ""
  }

  function Same(s: string): string {
    s
  }

  predicate LiveRef(r: StepRef) {
    Reads(r.caption) || (r.url.Some? && Reads(r.url.value))
  }

  function ShownRef(r: StepRef): RawRef {
    RawRef(if r.caption != "" then Some(r.caption) else None, r.url)
  }

  lemma {:induction false} FilledAreSifted(xs: seq<string>)
    ensures NonEmpty(xs) == Sifted(xs, Filled, Same)
  {
    if xs != [] {
      FilledAreSifted(xs[..|xs| - 1]);
    }
  }

  lemma {:induction false} LiveAreSifted(refs: seq<StepRef>)
    ensures SeenRefs(LiveRefs(refs)) == Sifted(refs, LiveRef, ShownRef)
  {
    hide Reads, Blank;
    if refs != [] {
      var last := refs[|refs| - 1];
      ReadsIsNotBlank(last.caption);
      ReadsIsNotBlank(last.url.GetOr(""));
      LiveAreSifted(refs[..|refs| - 1]);
      assert SeenRef(last) == ShownRef(last);
    }
  }

  /** A printed row, as a reader of the canon finds it. */
  predicate PrintedRow(s: RawStep, n: int, r: StepRow) {
    && s.n == Some(n) && s.blockId == (if r.blockId.Some? then Some(FormatUuid(r.blockId.value)) else None)
    && s.title == Some(r.title) && s.desc == Some(r.desc) && s.command == Some(r.command)
    && s.why == Some(r.why) && s.section == Some(r.section) && s.level == Some(match r.level case Required => "required" case Recommended => "recommended" case Optional => "optional")
    && s.danger == (if r.danger then Some(true) else None)
    && s.needsHuman == (if r.needsHuman then Some(true) else None)
    && s.needsHumanAsk == (if r.needsHuman && r.needsHumanAsk != "" then Some(r.needsHumanAsk) else None)
    && s.imageKey == (if r.imageKey.Some? && Reads(r.imageKey.value) then Some(Trim(r.imageKey.value)) else None)
    && s.subtasks == Some(Sifted(r.subtasks, Filled, Same)) && s.refs == Some(Sifted(r.refs, LiveRef, ShownRef))
    && (if r.blockType == "" || r.blockType == "step" then s.blockType.None? && s.content.None?
        else s.blockType == Some(r.blockType) && s.content == (if r.content.Null? then None else Some(r.content)))
  }

  lemma RowIsPrinted(n: int, r: StepRow)
    ensures PrintedRow(SeenStep(SerStepFromRow(n, r)), n, r)
  {
    hide LiveRefs, NonEmpty, FormatUuid, SeenRefs, Sifted, Reads, Blank, Trim;
    FilledAreSifted(r.subtasks);
    LiveAreSifted(r.refs);
    ReadsIsNotBlank(r.imageKey.GetOr(""));
  }

  /** The canon a web write commits says what was sent: the patched meta, the number, and every row in its place. */
  lemma WebCanon(version: nat, meta: Meta, e: Edit, main: Option<Commit>, i: nat)
    requires version <= MAX_I32 && EditFits(e) && (e.authored.Some? ==> Accepted(e.authored.value))
    ensures var manifest := ManifestOf(CommitOf(WebVersion(version, meta, e), main, SourceOf(e)));
            && manifest.Some?
            && var raw := manifest.value;
            && raw.title == Some(meta.title) && raw.desc == Some(meta.desc) && raw.tags == Some(meta.tags)
            && raw.ordered == Some(meta.ordered) && raw.version == Some(version)
            && raw.kind == (if meta.kind.Some? && KnownKind(meta.kind.value) then meta.kind else None)
            && raw.skillHeader == ShownHeader(meta.skillHeader)
            && raw.steps.Some? && |raw.steps.value| == |e.rows|
            && (i < |e.rows| ==> PrintedRow(raw.steps.value[i], i + 1, e.rows[i]))
  {
    hide ManifestOf, CommitOf, SeenStep, SerStepFromRow, PrintedRow, ShownHeader, SourceOf, Accepted;
    var v := WebVersion(version, meta, e);
    WebVersionFits(version, meta, e);
    HeaderFixed(meta.skillHeader);
    BuiltProjects(v, main, SourceOf(e));
    if i < |e.rows| {
      RowIsPrinted(i + 1, e.rows[i]);
    }
  }

  // ---- merges ---------------------------------------------------------------------------------

  /** A tree with another canon: the canon, its page when it has one, and the attributes are put in, the old steps are
      taken out, and everything else is as it was. */
  ghost predicate CanonPut(root: Tree, next: Tree, canon: Blob) {
    && "list.json" in next && next["list.json"] == Leaf(Regular, canon)
    && ".gitattributes" in next && next[".gitattributes"] == Leaf(Regular, Written("README.md linguist-generated=true\n"))
    && "steps" !in next
    && (if PageFor(canon).Some? then "README.md" in next && next["README.md"] == Leaf(Regular, Written(PageFor(canon).value))
        else ("README.md" in next <==> "README.md" in root) && ("README.md" in root ==> next["README.md"] == root["README.md"]))
    && forall name :: name != "list.json" && name != "README.md" && name != ".gitattributes" && name != "steps" ==>
         (name in next <==> name in root) && (name in root ==> next[name] == root[name])
  }

  lemma CanonIsPut(root: Tree, canon: Blob)
    ensures CanonPut(root, WithCanon(root, canon), canon)
  {
    hide PageFor;
  }

  /** Which history a merge leaves on main: a squash stands on main alone; a fast-forward is the branch itself; else
      the commit stands on main and on the branch. The tree is the merged one. */
  lemma MergeLeaves(w: World, r: MergeRequest, now: int)
    ensures var (next, outcome) := Merge(w, r, now);
            outcome.Merged? ==>
              && w.repo.main.Some? && r.branch in w.repo.branches && next.repo.main == Some(outcome.tip)
              && var main, branch, c := w.repo.main.value, w.repo.branches[r.branch], outcome.tip;
              && !IsAncestor(branch, main) && IsAncestor(main, c)
              && (!r.squash ==> IsAncestor(branch, c))
              && (r.squash ==> c.parents == [main] && r.merged == Some(c.tree))
              && (!r.squash && IsAncestor(main, branch) ==> c == branch)
              && (!r.squash && !IsAncestor(main, branch) ==> c.parents == [main, branch] && r.merged == Some(c.tree))
              && (c == branch || (c.message == r.message && c.author == r.author && c.time == r.time))
  {
    hide IsAncestor, MoveAndProject;
    if w.repo.present && w.repo.main.Some? && r.branch in w.repo.branches {
      var main, branch := w.repo.main.value, w.repo.branches[r.branch];
      var c := MergeCommit(main, branch, r);
      if c.Ok? {
        MoveLeaves(w, c.value, now);
        Reflexive(branch);
        Reflexive(main);
        if c.value.parents == [main, branch] {
          ParentIsAncestor(c.value, 0);
          ParentIsAncestor(c.value, 1);
        }
        if c.value.parents == [main] {
          ParentIsAncestor(c.value, 0);
        }
      }
    }
  }

  lemma MoveLeaves(w: World, c: Commit, now: int)
    ensures var (next, outcome) := MoveAndProject(w, c, now);
            && (outcome.Merged? ==> outcome.tip == c && next.repo.main == Some(c))
            && next.repo.branches == w.repo.branches && next.repo.present == w.repo.present
            && (!outcome.Merged? ==> outcome == MainRefused && next.repo == w.repo && next.db == w.db)
  {
    hide IsAncestor, Lawful, ProjectPushed, Projects, OneMore, TagFor, Faulty, Rest;
    var (moved, result) := UpdateMain(w, c, w.repo.main);
    if result.Moved? {
      ProjectLeaves(moved, now);
      ProjectLeaves(ProjectPushed(moved, now).0, now);
    }
  }

  lemma ProjectLeaves(w: World, now: int)
    ensures var next := ProjectPushed(w, now).0.repo;
            next.main == w.repo.main && next.branches == w.repo.branches && next.present == w.repo.present
  {
    hide ProjectPushed, Projects, TagFor, Overlaid;
    ProjectPushedShape(w, now);
  }

  /** A branch that was merged with its history is merged: asked again, the same merge has nothing to do. */
  lemma MergeAgain(w: World, r: MergeRequest, now: int, plan: seq<bool>, later: int)
    requires Merge(w, r, now).1.Merged? && !r.squash
    ensures var next := Merge(w, r, now).0.(plan := plan);
            Merge(next, r, later) == (next, NothingToMerge)
  {
    hide IsAncestor, MoveAndProject;
    MergeLeaves(w, r, now);
    var c := MergeCommit(w.repo.main.value, w.repo.branches[r.branch], r);
    MoveLeaves(w, c.value, now);
  }

  /** A merge that is refused, has nothing to do or does not apply leaves both stores as they were. */
  lemma MergeRefusedLeaves(w: World, r: MergeRequest, now: int)
    ensures var (next, outcome) := Merge(w, r, now);
            && (!outcome.Merged? ==> next.repo == w.repo && next.db == w.db)
            && (w.repo.present && w.repo.main.Some? && r.branch in w.repo.branches ==>
                  && (outcome.NothingToMerge? <==> IsAncestor(w.repo.branches[r.branch], w.repo.main.value))
                  && (outcome.MergeConflict? ==> r.merged.None?))
            && (outcome.NotFound? <==> !w.repo.present || w.repo.main.None? || r.branch !in w.repo.branches)
  {
    hide IsAncestor, MoveAndProject;
    if w.repo.present && w.repo.main.Some? && r.branch in w.repo.branches {
      var c := MergeCommit(w.repo.main.value, w.repo.branches[r.branch], r);
      if c.Ok? {
        MoveLeaves(w, c.value, now);
      }
    }
  }

  /** Which history a merge resolved by hand leaves: like a merge commit, or main alone for a squash; the tree is that of
      main with the given canon, its author's files untouched. After it a plain merge has nothing to do. */
  lemma ResolveLeaves(w: World, canon: Blob, r: MergeRequest, now: int, plan: seq<bool>, later: int)
    ensures var (next, outcome) := Resolve(w, canon, r, now);
            outcome.Merged? ==>
              && w.repo.main.Some? && r.branch in w.repo.branches && next.repo.main == Some(outcome.tip)
              && var main, branch, c := w.repo.main.value, w.repo.branches[r.branch], outcome.tip;
              && IsAncestor(main, c) && c.message == r.message && c.author == r.author && c.time == r.time
              && (r.squash ==> c.parents == [main])
              && (!r.squash ==> c.parents == [main, branch] && IsAncestor(branch, c)
                                && Merge(next.(plan := plan), r, later).1 == NothingToMerge)
              && CanonPut(main.tree, c.tree, canon)
              && AuthoredFiles(c.tree) == AuthoredFiles(main.tree)
  {
    hide IsAncestor, MoveAndProject, WithCanon, AuthoredFiles, Lawful, PageMatchesCanon, CanonPut;
    if w.repo.present && w.repo.main.Some? && r.branch in w.repo.branches {
      var main, branch := w.repo.main.value, w.repo.branches[r.branch];
      var c := ResolvedCommit(main, branch, canon, r);
      MoveLeaves(w, c, now);
      WithCanonKeeps(main.tree, canon);
      CanonIsPut(main.tree, canon);
      ParentIsAncestor(c, 0);
      if !r.squash {
        ParentIsAncestor(c, 1);
      }
    }
  }

  // ---- suggestions ----------------------------------------------------------------------------

  /** A reference of the wire as a reader of the canon finds it: an empty address is none. */
  predicate PrintedRef(s: RawRef, r: StepRef) {
    && s.caption == (if r.caption == "" then None else Some(r.caption))
    && s.url == (if r.url == Some("") then None else r.url)
  }

  /** A step of the wire, with marks of the database, as a reader of the canon finds it. */
  predicate PrintedWire(s: RawStep, w: WireStep, m: Marks) {
    && s.n == Some(w.n) && s.blockId == (if Blank(w.blockId) then None else Some(w.blockId))
    && s.title == Some(w.title) && s.desc == Some(w.desc) && s.command == Some(w.command)
    && s.level == Some(w.level) && s.why == Some(w.why) && s.section == Some(w.section) && s.subtasks == Some(w.subtasks)
    && s.refs.Some? && |s.refs.value| == |w.refs| && (forall i :: 0 <= i < |w.refs| ==> PrintedRef(s.refs.value[i], w.refs[i]))
    && (if w.blockType == "" || w.blockType == "step" then s.blockType.None? && s.content.None?
        else s.blockType == Some(w.blockType) && s.content == (if w.content.Null? then None else Some(w.content)))
    && s.danger == (if m.danger then Some(true) else None)
    && s.needsHuman == (if m.needsHuman then Some(true) else None)
    && s.needsHumanAsk == (if m.needsHuman && m.needsHumanAsk != "" then Some(m.needsHumanAsk) else None)
    && s.imageKey == (if m.imageKey.Some? && Reads(m.imageKey.value) then Some(Trim(m.imageKey.value)) else None)
  }

  lemma WireIsPrinted(w: WireStep, m: Marks)
    ensures PrintedWire(SeenStep(WithMarks(FromWire(w), m)), w, m)
  {
    hide Blank, Trim, Reads;
    WireRefsAre(w.refs);
    ReadsIsNotBlank(m.imageKey.GetOr(""));
  }

  lemma WireRefsAre(refs: seq<StepRef>)
    ensures forall i :: 0 <= i < |refs| ==> PrintedRef(SeenRefs(WireRefs(refs))[i], refs[i])
  {
  }

  /** The canon of a suggestion says what the wire said, field by field and step by step; kind, header and marks are those
      of the database. */
  lemma SuggestedCanon(c: Wire, kind: Option<string>, header: Option<Json>, current: seq<StepRow>, i: nat) returns (had: Marks)
    requires NumbersFit(Suggested(c, kind, header, current))
    ensures var manifest := DecodeList(ListJson(Suggested(c, kind, header, current)));
            && manifest.Some?
            && var raw := manifest.value;
            && raw.title == Some(c.title) && raw.desc == Some(c.desc) && raw.tags == Some(c.tags)
            && raw.ordered == Some(c.ordered) && raw.version == Some(c.version)
            && raw.kind == (if kind.Some? && KnownKind(kind.value) then kind else None)
            && raw.skillHeader == ShownHeader(header)
            && raw.steps.Some? && |raw.steps.value| == |c.steps|
            && (i < |c.steps| ==>
                  && Had(current, ParseUuid(c.steps[i].blockId), had)
                  && PrintedWire(raw.steps.value[i], c.steps[i], had))
  {
    hide ListJson, DecodeList, FromWire, WithMarks, SeenStep, PrintedWire, Had, MarksFor, ParseUuid, ShownHeader, Blank;
    var v := Suggested(c, kind, header, current);
    DecodePrinted(v);
    had := NO_MARKS;
    if i < |c.steps| {
      var w := c.steps[i];
      WireBlock(w);
      had := Rows.Carry(current, FromWire(w).blockId);
      WireIsPrinted(w, had);
      if Blank(w.blockId) {
        BlankIsNoBlock(w.blockId);
      }
      if ParseUuid(w.blockId).Some? {
        MarksForLast(current, ParseUuid(w.blockId).value);
      } else {
        NothingHad(current);
      }
    }
  }

  lemma WireBlock(w: WireStep)
    ensures FromWire(w).blockId == if Blank(w.blockId) then None else Some(w.blockId)
  {
    hide Blank;
  }

  /** The commit carries these bytes as its canon. */
  predicate HasCanon(c: Commit, canon: Blob) {
    && "list.json" in c.tree && c.tree["list.json"].Leaf?
    && c.tree["list.json"].mode != Gitlink && c.tree["list.json"].blob == canon
  }

  /** A canon put on a branch: only that branch moves, by one commit on its tip; a branch that has moved on since the
      client looked, or carries the canon already, stays with every other ref. */
  lemma SuggestionLeaves(w: World, r: MergeRequest, canon: Blob, expected: Option<Commit>)
    ensures var (next, outcome) := CommitListJson(w, r, canon, expected);
            && next.db == w.db && next.repo.main == w.repo.main && next.repo.tags == w.repo.tags
            && (!outcome.Committed? ==> next.repo == w.repo)
            && (w.repo.present && r.branch in w.repo.branches && expected.Some? && expected.value != w.repo.branches[r.branch] ==>
                  (next, outcome) == (w, BranchStale))
            && (outcome.BranchStale? ==> expected.Some? && r.branch in w.repo.branches && expected.value != w.repo.branches[r.branch])
            && (outcome.Unchanged? <==>
                  && w.repo.present && r.branch in w.repo.branches
                  && (expected.Some? ==> expected.value == w.repo.branches[r.branch])
                  && HasCanon(w.repo.branches[r.branch], canon))
            && (outcome.Unchanged? ==> outcome.tip == w.repo.branches[r.branch])
            && (outcome.Committed? ==>
                  && r.branch in w.repo.branches && outcome.tip.parents == [w.repo.branches[r.branch]]
                  && next.repo.branches == w.repo.branches[r.branch := outcome.tip]
                  && outcome.tip.message == r.message && outcome.tip.author == r.author && outcome.tip.time == r.time
                  && CanonPut(w.repo.branches[r.branch].tree, outcome.tip.tree, canon)
                  && AuthoredFiles(outcome.tip.tree) == AuthoredFiles(w.repo.branches[r.branch].tree))
  {
    hide WithCanon, AuthoredFiles, Lawful, PageMatchesCanon, CanonPut, Faulty, Rest;
    if r.branch in w.repo.branches {
      WithCanonKeeps(w.repo.branches[r.branch].tree, canon);
      CanonIsPut(w.repo.branches[r.branch].tree, canon);
    }
  }

  // ---- the answers of an alignment ------------------------------------------------------------

  /** What each answer tells about the stores before and after, in every state and under any failures. */
  ghost predicate AnswerMeans(w: World, next: World, o: SyncOutcome) {
    match o
    case InSync => next.db == w.db && next.repo == w.repo
    case Bootstrapped(n) => w.repo.main.None? && next.repo.main.Some? && n == |w.db.rows| > 0 && next.db == w.db
    case MainRestored(n) =>
      && w.repo.main.None? && TagFor(n) in w.repo.tags && next.repo == w.repo.(main := Some(w.repo.tags[TagFor(n)])) && next.db == w.db
      && n == (if MaxTag(w.repo.tags) < w.db.current then MaxTag(w.repo.tags) else w.db.current)
    case Appended(from, to) =>
      from == MaxTag(w.repo.tags) + 1 && to == w.db.current == next.db.current && from <= to && next.db == w.db && next.repo.main.Some?
    case ProjectedTip(v) => v == next.db.current == w.db.current + 1 && |next.db.rows| == |w.db.rows| + 1
    case TipNotVersioned(current) => current == w.db.current && next.db == w.db && next.repo.main.Some? && !Projects(next.repo.main.value)
    case Conflict(have, current) =>
      have == MaxTag(w.repo.tags) && current == w.db.current && have != current && next.db == w.db && next.repo.tags == w.repo.tags
    case SyncFailed => next.db == w.db
  }

  lemma AlignAnswers(w: World, now: int)
    requires RowsOk(w.db) && RowsBelow(w.db)
    ensures var (next, outcome) := Align(w, MaxTag(w.repo.tags), now);
            && AnswerMeans(w, next, outcome) && !outcome.Bootstrapped? && !outcome.MainRestored?
  {
    hide MaxTag, TagFor, ProjectPushed, Projects, VersionsAbove, AppendMissing, RowsOk, RowsBelow, TagOnTip, Ascending;
    ProjectPushedShape(w, now);
    if w.repo.main.None? {
      NoMainOnTip(w.repo, w.db.current);
    }
    if MaxTag(w.repo.tags) < w.db.current && Above(w) != [] {
      AppendLeaves(w);
    }
  }

  lemma AppendLeaves(w: World)
    requires Above(w) != []
    ensures var (next, ok) := AppendMissing(w, Above(w));
            next.db == w.db && (ok ==> next.repo.main.Some?)
  {
    hide MaxTag, VersionsAbove, TagAll, TailCommits, Chain, Lawful, IsAncestor;
    var versions := Above(w);
    if w.repo.main.Some? && TailCommits(w.repo.main, versions).Some? {
      TagAllLeaves(w, versions, TailCommits(w.repo.main, versions).value);
    } else {
      var chain := Chain(versions, w.repo.main, Carry);
      TagAllLeaves(UpdateMain(w, chain[|chain| - 1], w.repo.main).0, versions, chain);
    }
  }

  lemma TagAllLeaves(w: World, versions: seq<VersionData>, commits: seq<Commit>)
    requires |versions| == |commits|
    ensures TagAll(w, versions, commits).0.db == w.db && TagAll(w, versions, commits).0.repo.main == w.repo.main
  {
    hide TagAll, Tagged, Settable, TagFor, Overlaid;
    var k := TagAllSetsPrefix(w, versions, commits);
  }

  lemma BootstrapLeaves(w: World)
    requires w.db.rows != []
    ensures var (next, outcome) := Bootstrap(w);
            && outcome.Some? && next.db == w.db
            && (outcome.value.Bootstrapped? ==> outcome.value.versions == |w.db.rows| && next.repo.main.Some?)
            && (outcome.value.Bootstrapped? || outcome.value.SyncFailed?)
  {
    hide AllVersions, TagAll, Chain, Lawful, IsAncestor;
    var ready := InitBare(w).0;
    var versions := AllVersions(w.db);
    var chain := Chain(versions, None, Carry);
    TagAllLeaves(UpdateMain(ready, chain[|chain| - 1], None).0, versions, chain);
  }

  /** An alignment answers what it did: the numbers in its answer are those of the stores. */
  lemma SyncAnswers(w: World, now: int)
    requires RowsOk(w.db) && RowsBelow(w.db) && RepoOk(w.repo)
    ensures AnswerMeans(w, Sync(w, now).0, Sync(w, now).1)
  {
    hide MaxTag, TagFor, Align, Bootstrap, RowsOk, RowsBelow, Lawful, Projects;
    var have := MaxTag(w.repo.tags);
    var restore := Smaller(have, w.db.current);
    if w.db.rows != [] {
      BootstrapLeaves(w);
    } else {
      NothingToBootstrap(w);
    }
    AlignAnswers(w, now);
    if w.repo.present && w.repo.main.None? && restore > 0 && TagFor(restore) in w.repo.tags {
      UpdateMainKeeps(w, w.repo.tags[TagFor(restore)], None);
      AlignAnswers(UpdateMain(w, w.repo.tags[TagFor(restore)], None).0, now);
    }
  }
}

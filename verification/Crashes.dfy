/** Every operation of the service, stopped after any of its writes, leaves a state that one alignment heals. */
module Crashes {
  import opened Wrappers
  import opened Text
  import opened Decode
  import opened Canon
  import opened Reading
  import opened Rows
  import opened Readme
  import opened Tree
  import opened AuthoredSets
  import opened Commits
  import opened Protocol
  import opened Mechanics
  import opened Safety
  import opened Settle
  import opened Recovery

  // ---- generated commits project --------------------------------------------------------------

  lemma CanonBeside(v: VersionData, dirs: Tree)
    requires DirsOnly(dirs)
    ensures "list.json" in VersionFiles(v) + dirs && (VersionFiles(v) + dirs)["list.json"] == Leaf(Regular, Printed(ListJson(v)))
  {
    hide ListJson, Render;
    DirList();
  }

  /** A tree that the service builds for a version carries a canon that becomes a version again. */
  lemma BuiltProjects(v: VersionData, parent: Option<Commit>, source: Source)
    requires NumbersFit(v)
    ensures Projects(CommitOf(v, parent, source))
    ensures ManifestOf(CommitOf(v, parent, source)) == Some(SeenList(v))
  {
    hide VersionFiles, ListJson, DecodeList, BuildTree, SeenSteps, CommitMessage;
    var c := CommitOf(v, parent, source);
    var dirs := BuiltFrom(v, TreeOf(parent), source);
    CanonBeside(v, dirs);
    CommitParent(v, parent, source);
    DecodePrinted(v);
  }

  predicate EditFits(e: Edit) {
    |e.rows| <= MAX_I32
  }

  lemma WebVersionFits(version: nat, meta: Meta, e: Edit)
    requires version <= MAX_I32 && EditFits(e)
    ensures NumbersFit(WebVersion(version, meta, e)) && WebVersion(version, meta, e).version == version
  {
    hide ValidKind, ShownHeader;
    var steps := SerStepsFromRows(e.rows);
    forall i | 0 <= i < |steps| ensures IsI32(steps[i].n) {
      assert steps[i] == SerStepFromRow(i + 1, e.rows[i]);
    }
  }

  // ---- the web write --------------------------------------------------------------------------

  lemma OneCommit(v: VersionData, parent: Option<Commit>, source: Source)
    ensures Chain([v], parent, source) == [CommitOf(v, parent, source)]
  {
    hide CommitOf;
    assert [v][..0] == [] && Chain([], parent, source) == [];
  }

  lemma OneTag(w: World, v: VersionData, c: Commit)
    ensures TagAll(w, [v], [c]) == SetTag(w, v.version, c)
  {
    assert [v][..0] == [] && [c][..0] == [];
    assert TagAll(w, [], []) == (w, true);
  }

  /** Main going to a lawful commit while git is not ahead. */
  lemma MovedLive(repo: Repo, current: nat, tip: Commit)
    requires Live(repo, current) || Fresh(repo)
    requires repo.present && MaxTag(repo.tags) <= current && Lawful(tip.tree)
    ensures Live(repo.(main := Some(tip)), current)
  {
    hide MaxTag, TagFor, Core, Projects, Lawful, Fresh;
    if !Fresh(repo) {
      LiveIsCore(repo, current);
    }
    CoreMove(repo, tip);
    assert repo.(present := true, main := Some(tip)) == repo.(main := Some(tip));
  }

  /** And with its tag: it is the tail of a write until the database has its rows, and aligned then. */
  lemma WrittenTagged(repo: Repo, current: nat, tip: Commit)
    requires Live(repo, current) && MaxTag(repo.tags) <= current < MAX_I32 && Lawful(tip.tree) && Projects(tip)
    ensures var tagged := repo.(main := Some(tip), tags := repo.tags[TagFor(current + 1) := tip]);
            && Live(tagged, current) && Live(tagged, current + 1) && MaxTag(tagged.tags) == current + 1
            && TagFor(current + 1) in tagged.tags && tagged.tags[TagFor(current + 1)] == tip
  {
    hide MaxTag, TagFor, Core, Projects, Lawful;
    LiveIsCore(repo, current);
    MovedLive(repo, current, tip);
    var moved := repo.(main := Some(tip));
    CoreTag(moved, current + 1, tip);
    assert moved.(tags := moved.tags[TagFor(current + 1) := tip])
        == repo.(main := Some(tip), tags := repo.tags[TagFor(current + 1) := tip]);
  }

  /** Building the history of one version: main, then its tag. */
  lemma OneBuild(s: World, v: VersionData, source: Source)
    ensures var tip := CommitOf(v, s.repo.main, source);
            var (moved, result) := UpdateMain(s, tip, s.repo.main);
            BuildHistory(s, [v], s.repo.main, source)
            == if !result.Moved? then (moved, result)
               else (SetTag(moved, v.version, tip).0, if SetTag(moved, v.version, tip).1 then Moved else GitFailed)
  {
    hide UpdateMain, CommitOf, TagAll, SetTag;
    var tip := CommitOf(v, s.repo.main, source);
    OneCommit(v, s.repo.main, source);
    OneTag(UpdateMain(s, tip, s.repo.main).0, v, tip);
  }

  /** Main and the tag of a web write, wherever they stop. */
  ghost predicate Committed(s: World, tip: Commit, g: World, done: bool) {
    && g.db == s.db && Live(g.repo, s.db.current)
    && (done ==>
          && g.repo.main == Some(tip) && Live(g.repo, s.db.current + 1) && MaxTag(g.repo.tags) == s.db.current + 1
          && TagFor(s.db.current + 1) in g.repo.tags && g.repo.tags[TagFor(s.db.current + 1)] == tip)
    && (!done ==> g.repo == s.repo || (g.repo.main == Some(tip) && g.repo.tags == s.repo.tags))
  }

  lemma WebCommitLive(s: World, v: VersionData, source: Source)
    requires Live(s.repo, s.db.current) && MaxTag(s.repo.tags) <= s.db.current && v.version == s.db.current + 1 <= MAX_I32 && NumbersFit(v)
    ensures var (g, result) := BuildHistory(s, [v], s.repo.main, source);
            Committed(s, CommitOf(v, s.repo.main, source), g, result.Moved?)
  {
    hide MaxTag, TagFor, IsAncestor, Core, Projects, Live, Lawful, CommitOf, UpdateMain, BuildHistory, SeenList, ManifestOf,
      NumbersFit, Faulty, Rest, Overlaid;
    var current := s.db.current;
    var tip := CommitOf(v, s.repo.main, source);
    LiveIsCore(s.repo, current);
    OneBuild(s, v, source);
    var (moved, result) := UpdateMain(s, tip, s.repo.main);
    if result.Moved? {
      MovedCore(s, tip);
      MovedLive(s.repo, current, tip);
      BuiltProjects(v, s.repo.main, source);
      WrittenTagged(s.repo, current, tip);
    } else {
      UnmovedLive(s, tip, s.repo.main);
    }
  }

  lemma CommittedDb(db: Db, row: VersionRow, meta: Meta)
    requires DbOk(db) && row.version == db.current + 1
    ensures DbOk(Db(row.version, db.rows + [row], meta)) && Grew(db, Db(row.version, db.rows + [row], meta))
  {
  }

  /** How a web write may end, told by its answer. */
  ghost predicate WebEnd(s: World, e: Edit, next: World, outcome: WebOutcome) {
    && Inv(next) && Kept(s.repo, next.repo) && Grew(s.db, next.db)
    && (next.db != s.db ==> outcome.Recorded?)
    && (outcome.Recorded? ==>
          && outcome.version == next.db.current == s.db.current + 1
          && Aligned(next) && next.repo.main == Some(outcome.commit)
          && (e.expected.Some? ==> e.expected.value == s.db.current))
    && (outcome.ProjectionLost? ==>
          && outcome.version == s.db.current + 1 == MaxTag(next.repo.tags) && Live(next.repo, s.db.current)
          && (e.expected.Some? ==> e.expected.value == s.db.current))
    && (next.repo == s.repo || (next.repo.main.Some? && Projects(next.repo.main.value)))
  }

  lemma RowsLive(s: World, e: Edit, meta: Meta, g: World, tip: Commit)
    requires DbOk(s.db) && Committed(s, tip, g, true) && Projects(tip) && Kept(s.repo, g.repo)
    requires e.expected.Some? ==> e.expected.value == s.db.current
    ensures WebEnd(s, e, CommitRows(g, e, meta, tip).0, CommitRows(g, e, meta, tip).1)
  {
    hide MaxTag, TagFor, Live, Fresh, DbOk, Kept, Grew, Projects;
    GrewSelf(s.db);
    CommittedDb(s.db, VersionRow(s.db.current + 1, e.note, e.ts, e.rows), meta);
  }

  lemma WriteVersionLive(s: World, e: Edit)
    requires DbOk(s.db) && Live(s.repo, s.db.current) && MaxTag(s.repo.tags) <= s.db.current < MAX_I32 && EditFits(e)
    ensures WebEnd(s, e, WriteVersion(s, e).0, WriteVersion(s, e).1)
  {
    hide MaxTag, TagFor, IsAncestor, Live, Fresh, DbOk, BuildHistory, CommitOf, Kept, Grew, InputVerdict, WebVersion,
      PatchMeta, Projects, CommitRows, SeenList, ManifestOf, SourceOf, WebEnd, Committed, NumbersFit;
    WebEndNowhere(s, e);
    var meta := PatchMeta(s.db.meta, e.patch);
    var v := WebVersion(s.db.current + 1, meta, e);
    var (g, result) := BuildHistory(s, [v], s.repo.main, SourceOf(e));
    var tip := CommitOf(v, s.repo.main, SourceOf(e));
    WebVersionFits(s.db.current + 1, meta, e);
    WebCommitLive(s, v, SourceOf(e));
    WebCommitKeeps(s, v, SourceOf(e));
    BuiltProjects(v, s.repo.main, SourceOf(e));
    if result.Moved? {
      CommittedGrew(s, tip, g);
      if e.expected.Some? ==> e.expected.value == s.db.current {
        RowsLive(s, e, meta, g, tip);
      }
    } else {
      WebEndHalfway(s, e, g, tip);
    }
  }

  lemma CommittedGrew(s: World, tip: Commit, g: World)
    requires Committed(s, tip, g, true)
    ensures g.db == s.db
  {
    hide Live, MaxTag, TagFor;
  }

  /** Answers that leave everything as it was. */
  lemma WebEndNowhere(s: World, e: Edit)
    requires DbOk(s.db) && Live(s.repo, s.db.current)
    ensures forall o: WebOutcome :: !o.Recorded? && !o.ProjectionLost? ==> WebEnd(s, e, s, o)
  {
    hide MaxTag, TagFor, Live, Fresh, DbOk, Kept, Grew, Projects;
    KeptSelf(s.repo);
    GrewSelf(s.db);
  }

  /** Answers given when git did not finish. */
  lemma WebEndHalfway(s: World, e: Edit, g: World, tip: Commit)
    requires DbOk(s.db) && Committed(s, tip, g, false) && Kept(s.repo, g.repo) && Projects(tip)
    ensures forall o: WebOutcome :: !o.Recorded? && !o.ProjectionLost? ==> WebEnd(s, e, g, o)
  {
    hide MaxTag, TagFor, Live, Fresh, DbOk, Kept, Grew, Projects;
    GrewSelf(s.db);
  }

  /** A web write from any healable state ends in a healable state, whatever fails on the way; only the answer
      `Recorded` means that the database has the version, and then everything is aligned. */
  lemma WebLive(w: World, e: Edit, now: int)
    requires Inv(w) && Room(w.db) && EditFits(e)
    ensures WebEnd(Sync(w, now).0, e, CommitWebVersion(w, e, now).0, CommitWebVersion(w, e, now).1)
  {
    hide MaxTag, TagFor, Live, Fresh, DbOk, Sync, WriteVersion, Kept, Grew, Projects;
    SyncLive(w, now) by { DbRoom(w.db); }
    var (s, outcome) := Sync(w, now);
    KeptSelf(s.repo);
    GrewSelf(s.db);
    if !outcome.SyncFailed? {
      SyncKeptRoom(w, now);
      WriteVersionLive(s, e);
    }
  }

  lemma GrewSelf(db: Db)
    ensures Grew(db, db)
  {
  }

  lemma DbRoom(db: Db)
    requires Room(db)
    ensures db.current + 1 < MAX_I32
  {
  }

  lemma SyncKeptRoom(w: World, now: int)
    requires Inv(w) && Room(w.db)
    ensures Sync(w, now).0.db.current + 1 < MAX_I32
    ensures Kept(w.repo, Sync(w, now).0.repo) && Grew(w.db, Sync(w, now).0.db)
  {
    hide MaxTag, TagFor, Live, Fresh, DbOk, Sync, RowsOk, RowsBelow, Kept;
    DbIsRowsOk(w.db);
    InvRepoOk(w);
    SyncKeeps(w, now);
  }

  lemma WebCommitKeeps(s: World, v: VersionData, source: Source)
    requires MaxTag(s.repo.tags) <= s.db.current && v.version == s.db.current + 1 <= MAX_I32
    ensures Kept(s.repo, BuildHistory(s, [v], s.repo.main, source).0.repo)
  {
    hide MaxTag, TagFor, Live, BuildHistory, Kept;
    assert Ascending([v], s.db.current);
    BuildHistoryKeeps(s, [v], s.repo.main, source, s.db.current);
  }

  // ---- pushes and merges ----------------------------------------------------------------------

  /** The next alignment will add no version. */
  ghost predicate Counted(w: World) {
    && Live(w.repo, w.db.current)
    && (MaxTag(w.repo.tags) < w.db.current || (MaxTag(w.repo.tags) == w.db.current && TagOnTip(w.repo, w.db.current)))
  }

  /** What an operation leaves: a healable state with every ref and row kept, and no version pending if it added one. */
  ghost predicate Safe(before: World, after: World) {
    && Inv(after) && Kept(before.repo, after.repo) && Grew(before.db, after.db)
    && (after.db != before.db ==> after.db.current == before.db.current + 1 && Counted(after))
  }

  lemma SafeSelf(w: World, next: World)
    requires Inv(w) && next.repo == w.repo && next.db == w.db
    ensures Safe(w, next)
  {
    hide Live, Fresh, MaxTag, DbOk, IsAncestor;
    KeptSelf(w.repo);
    GrewSelf(w.db);
  }

  lemma ProjectionFree(w: World)
    requires Live(w.repo, w.db.current) && w.db.current < MAX_I32
    ensures NextTagFree(w)
  {
    hide MaxTag, TagFor, Core, Projects;
    if MaxTag(w.repo.tags) <= w.db.current {
      NoTagAbove(w.repo.tags, w.db.current + 1);
    }
  }

  lemma ProjectOrLogSafe(w: World, now: int)
    requires DbOk(w.db) && Live(w.repo, w.db.current) && w.db.current < MAX_I32
    ensures Safe(w, ProjectOrLog(w, now))
  {
    hide MaxTag, TagFor, Live, DbOk, ProjectPushed, Kept, Grew, TagOnTip, NextTagFree, Fresh, Faulty, Rest;
    ProjectionFree(w);
    ProjectPushedLive(w, now);
    ProjectPushedKeeps(w, now);
    var (first, result) := ProjectPushed(w, now);
    if result.Err? {
      ProjectionFree(first);
      ProjectPushedLive(first, now);
      ProjectPushedKeeps(first, now);
    }
  }

  /** Main may move from outside unless git is a version ahead of the database. */
  ghost predicate InStep(w: World) {
    Inv(w) && MaxTag(w.repo.tags) <= w.db.current
  }

  lemma InStepRoom(w: World)
    requires InStep(w)
    ensures DbOk(w.db) && (w.repo.main.Some? ==> Live(w.repo, w.db.current) && w.repo.present)
  {
    hide DbOk, MaxTag, TagFor, CanonTags, Lawful, Projects;
  }

  /** After main moved by a push or a merge, through the projection. */
  lemma MovedSafe(w: World, tip: Commit, now: int)
    requires InStep(w) && w.db.current < MAX_I32 && w.repo.present && Lawful(tip.tree)
    requires w.repo.main.Some? ==> IsAncestor(w.repo.main.value, tip)
    ensures Safe(w, ProjectOrLog(Spent(w).(repo := w.repo.(main := Some(tip))), now))
  {
    hide MaxTag, TagFor, Live, DbOk, ProjectOrLog, Grew, Fresh, IsAncestor, Lawful, Counted, Kept;
    MovedLive(w.repo, w.db.current, tip);
    MovedKeeps(w.repo, tip);
    var moved := Spent(w).(repo := w.repo.(main := Some(tip)));
    ProjectOrLogSafe(moved, now);
    KeptTransitive(w.repo, moved.repo, ProjectOrLog(moved, now).repo);
  }

  lemma MovedKeeps(repo: Repo, tip: Commit)
    requires repo.main.Some? ==> IsAncestor(repo.main.value, tip)
    ensures Kept(repo, repo.(main := Some(tip)))
  {
    hide IsAncestor;
  }

  /** A push that both doors would take, stopped anywhere in its projection. */
  lemma PushSafe(w: World, tip: Commit, now: int)
    requires InStep(w) && w.db.current < MAX_I32 && Lawful(tip.tree)
    ensures Safe(w, Push(w, tip, now))
  {
    hide MaxTag, TagFor, Live, DbOk, ProjectOrLog, Grew, Fresh, IsAncestor, Lawful, Counted, Kept, Safe, HookTakes;
    SafeSelf(w, w);
    SafeSelf(w, Spent(w));
    if w.repo.present && PushAccepted(w.repo, tip) {
      MovedSafe(w, tip, now);
    }
  }

  lemma MoveAndProjectSafe(w: World, commit: Commit, now: int)
    requires InStep(w) && w.db.current < MAX_I32 && w.repo.main.Some?
    ensures Safe(w, MoveAndProject(w, commit, now).0)
  {
    hide MaxTag, TagFor, Live, DbOk, ProjectOrLog, Grew, Fresh, IsAncestor, Lawful, Counted, Kept, Safe, UpdateMain, Core;
    InStepRoom(w);
    LiveIsCore(w.repo, w.db.current);
    if UpdateMain(w, commit, w.repo.main).1.Moved? {
      MovedCore(w, commit);
      MovedSafe(w, commit, now);
    } else {
      UnmovedLive(w, commit, w.repo.main);
      SafeSelf(w, UpdateMain(w, commit, w.repo.main).0);
    }
  }

  lemma MergeSafe(w: World, r: MergeRequest, now: int)
    requires InStep(w) && w.db.current < MAX_I32
    ensures Safe(w, Merge(w, r, now).0)
  {
    hide MaxTag, Live, DbOk, MoveAndProject, Fresh, MergeCommit, Safe;
    SafeSelf(w, w);
    if w.repo.main.Some? && r.branch in w.repo.branches {
      var c := MergeCommit(w.repo.main.value, w.repo.branches[r.branch], r);
      if c.Ok? {
        MoveAndProjectSafe(w, c.value, now);
      }
    }
  }

  lemma ResolveSafe(w: World, canon: Blob, r: MergeRequest, now: int)
    requires InStep(w) && w.db.current < MAX_I32
    ensures Safe(w, Resolve(w, canon, r, now).0)
  {
    hide MaxTag, Live, DbOk, MoveAndProject, Fresh, ResolvedCommit, Safe;
    SafeSelf(w, w);
    if w.repo.main.Some? && r.branch in w.repo.branches {
      MoveAndProjectSafe(w, ResolvedCommit(w.repo.main.value, w.repo.branches[r.branch], canon, r), now);
    }
  }

  // ---- alignments -----------------------------------------------------------------------------

  lemma AlignCounted(w: World, now: int)
    requires DbOk(w.db) && Live(w.repo, w.db.current) && w.db.current < MAX_I32
    ensures var next := Align(w, MaxTag(w.repo.tags), now).0;
            next.db != w.db ==> next.db.current == w.db.current + 1 && Counted(next)
  {
    hide MaxTag, TagFor, Live, DbOk, ProjectPushed, AppendMissing, VersionsAbove, Missing, TagOnTip;
    LiveBound(w.repo, w.db.current);
    var have := MaxTag(w.repo.tags);
    if have < w.db.current {
      MissingRows(w.db, have);
      AppendMissingLive(w, VersionsAbove(w.db.meta, w.db.rows, have));
    } else {
      ProjectPushedLive(w, now);
    }
  }

  lemma SyncSafe(w: World, now: int)
    requires Inv(w) && Room(w.db)
    ensures Safe(w, Sync(w, now).0)
  {
    hide MaxTag, TagFor, Live, Fresh, DbOk, Sync, Align, Bootstrap, Kept, Grew, Counted;
    DbRoom(w.db);
    SyncLive(w, now);
    SyncKeptRoom(w, now);
    if Live(w.repo, w.db.current) {
      SyncOfLive(w, now);
      AlignCounted(w, now);
    } else {
      SyncOfFresh(w, now);
      BootstrapLive(w);
    }
  }

  lemma AlignedIsInSync(w: World, now: int)
    requires Aligned(w)
    ensures Sync(w, now) == (w, InSync) && InStep(w) && Counted(w)
  {
    hide MaxTag, TagFor, Live, DbOk, Sync;
    if Live(w.repo, w.db.current) {
      LiveIsCore(w.repo, w.db.current);
      OnTipIsInSync(w, now);
    }
  }

  /** Where no version is pending, a fault-free alignment leaves the database alone. */
  lemma CountedKeepsDb(w: World, now: int)
    requires DbOk(w.db) && Counted(w) && w.db.current <= MAX_I32
    ensures Sync(w, now).0.db == w.db
  {
    hide MaxTag, TagFor, Live, DbOk, Sync, AppendMissing, VersionsAbove, Missing, TagOnTip, ProjectPushed;
    SyncOfLive(w, now);
    if MaxTag(w.repo.tags) < w.db.current {
      MissingRows(w.db, MaxTag(w.repo.tags));
      AppendMissingLive(w, VersionsAbove(w.db.meta, w.db.rows, MaxTag(w.repo.tags)));
    }
  }

  lemma EnsureIsSync(w: World, now: int)
    requires DbOk(w.db)
    ensures Ensure(w, now) == Sync(w, now).0
  {
    hide Sync;
  }

  // ---- refs beside the versions ---------------------------------------------------------------

  /** The same two stores but for branches and release tags. */
  ghost predicate SameVersions(a: World, b: World) {
    && b.db == a.db && b.repo.main == a.repo.main && b.repo.present == a.repo.present
    && MaxTag(b.repo.tags) == MaxTag(a.repo.tags)
    && (forall name :: IsVersionTag(name) ==> (name in b.repo.tags <==> name in a.repo.tags))
    && (forall name :: IsVersionTag(name) && name in a.repo.tags ==> b.repo.tags[name] == a.repo.tags[name])
  }

  lemma VersionTagNames(n: nat)
    requires n <= MAX_I32
    ensures IsVersionTag(TagFor(n))
  {
    hide VersionOfTag, TagFor;
    TagForReads(n);
  }

  lemma SameLive(a: World, b: World)
    requires SameVersions(a, b) && Live(a.repo, a.db.current) && a.db.current + 1 <= MAX_I32
    ensures Live(b.repo, b.db.current)
  {
    hide MaxTag, TagFor, Lawful, Projects, VersionOfTag;
    VersionTagNames(MaxTag(a.repo.tags));
    VersionTagNames(a.db.current + 1);
  }

  lemma SameInv(a: World, b: World)
    requires SameVersions(a, b) && a.db.current + 1 <= MAX_I32
    requires a.repo.present
    ensures Inv(a) ==> Inv(b)
    ensures Aligned(a) ==> Aligned(b)
  {
    hide MaxTag, TagFor, Live, VersionOfTag, DbOk;
    VersionTagNames(a.db.current);
    if Live(a.repo, a.db.current) {
      SameLive(a, b);
    }
  }

  // ---- operations and the recovery theorem ----------------------------------------------------

  /** What the service does under the guard of one list. */
  datatype Op =
    | DoEnsure(now: int)
    | DoSync(now: int)
    | DoWeb(edit: Edit, now: int)
    | DoPush(tip: Commit, now: int)
    | DoMerge(request: MergeRequest, now: int)
    | DoResolve(canon: Blob, request: MergeRequest, now: int)
    | DoBranch(name: string, tip: Commit)
    | DoSuggest(canon: Blob, request: MergeRequest, expected: Option<Commit>)
    | DoRelease(name: string, version: nat)
    | DoTag(name: string, target: Commit)
    | DoUntag(name: string)
    | DoDropBranch(name: string)

  /** Operations on branches and on tags of people write no version. */
  predicate Beside(op: Op) {
    op.DoBranch? || op.DoSuggest? || op.DoRelease? || op.DoTag? || op.DoUntag? || op.DoDropBranch?
  }

  ghost function Exec(w: World, op: Op): World {
    match op
    case DoEnsure(now) => Ensure(w, now)
    case DoSync(now) => Sync(w, now).0
    case DoWeb(edit, now) => CommitWebVersion(w, edit, now).0
    case DoPush(tip, now) => Push(w, tip, now)
    case DoMerge(request, now) => Merge(w, request, now).0
    case DoResolve(canon, request, now) => Resolve(w, canon, request, now).0
    case DoBranch(name, tip) => PushBranch(w, name, tip)
    case DoSuggest(canon, request, expected) => CommitListJson(w, request, canon, expected).0
    case DoRelease(name, version) => Release(w, name, version)
    case DoTag(name, target) => PushTag(w, name, target)
    case DoUntag(name) => DropTag(w, name)
    case DoDropBranch(name) => DropBranch(w, name)
  }

  /** Branches and tags of people, made, moved or deleted, by the service or by a push, do not disturb the versions:
      names that read as versions are reserved at every door. */
  lemma BesideKeepsVersions(w: World, op: Op)
    requires Beside(op) && w.db.current + 1 <= MAX_I32
    ensures SameVersions(w, Exec(w, op))
    ensures Inv(w) ==> Inv(Exec(w, op))
    ensures Aligned(w) ==> Aligned(Exec(w, op))
  {
    hide MaxTag, TagFor, Live, Fresh, DbOk, PushBranch, CommitListJson, Release, PushTag, DropTag, DropBranch, IsMaxTag, SameVersions;
    match op {
      case DoBranch(name, tip) => BranchAside(w, name, tip);
      case DoSuggest(canon, request, expected) => SuggestAside(w, request, canon, expected);
      case DoRelease(name, version) => ReleaseAside(w, name, version);
      case DoTag(name, target) => TagAside(w, name, target);
      case DoUntag(name) => UntagAside(w, name);
      case DoDropBranch(name) => DropBranchAside(w, name);
    }
    if w.repo.present {
      SameInv(w, Exec(w, op));
    }
  }

  lemma BranchAside(w: World, name: string, tip: Commit)
    ensures SameVersions(w, PushBranch(w, name, tip)) && (!w.repo.present ==> PushBranch(w, name, tip) == w)
  {
    hide MaxTag, VersionOfTag, Faulty, Rest, HookTakes;
  }

  lemma SuggestAside(w: World, r: MergeRequest, canon: Blob, expected: Option<Commit>)
    ensures SameVersions(w, CommitListJson(w, r, canon, expected).0)
    ensures !w.repo.present ==> CommitListJson(w, r, canon, expected).0 == w
  {
    hide MaxTag, VersionOfTag, Faulty, Rest, WithCanon, CarriesCanon;
  }

  lemma ReleaseAside(w: World, name: string, version: nat)
    ensures SameVersions(w, Release(w, name, version)) && (!w.repo.present ==> Release(w, name, version) == w)
  {
    hide MaxTag, TagFor, VersionOfTag, Faulty, Rest, IsMaxTag, Fits;
    if VersionOfTag(name).None? && TagFor(version) in w.repo.tags {
      MaxTagOther(w.repo.tags, name, w.repo.tags[TagFor(version)]);
    }
  }

  lemma TagAside(w: World, name: string, c: Commit)
    ensures SameVersions(w, PushTag(w, name, c)) && (!w.repo.present ==> PushTag(w, name, c) == w)
  {
    hide MaxTag, TagFor, VersionOfTag, Faulty, Rest, IsMaxTag, Fits, HookTakes, Reserved;
    VersionsReserved(name);
    if !Reserved(name) {
      MaxTagOther(w.repo.tags, name, c);
    }
  }

  lemma UntagAside(w: World, name: string)
    ensures SameVersions(w, DropTag(w, name)) && (!w.repo.present ==> DropTag(w, name) == w)
  {
    hide MaxTag, TagFor, VersionOfTag, Faulty, Rest, IsMaxTag, Reserved;
    VersionsReserved(name);
    if !Reserved(name) {
      MaxTagRemove(w.repo.tags, name);
    }
  }

  lemma DropBranchAside(w: World, name: string)
    ensures SameVersions(w, DropBranch(w, name)) && (!w.repo.present ==> DropBranch(w, name) == w)
  {
    hide MaxTag, VersionOfTag, Faulty, Rest;
  }

  /** What is asked of an operation: as many steps as fit the numbers, a pushed tree within the limits of both doors. */
  ghost predicate OpFits(op: Op) {
    && (op.DoWeb? ==> EditFits(op.edit))
    && (op.DoPush? ==> Lawful(op.tip.tree))
  }

  lemma WebSafe(w: World, e: Edit, now: int)
    requires Aligned(w) && Room(w.db) && EditFits(e)
    ensures Safe(w, CommitWebVersion(w, e, now).0)
  {
    hide MaxTag, TagFor, Live, Fresh, DbOk, Sync, CommitWebVersion, Kept, Grew, Projects;
    AlignedIsInSync(w, now);
    WebLive(w, e, now);
    var (next, outcome) := CommitWebVersion(w, e, now);
    if outcome.Recorded? {
      AlignedIsInSync(next, now);
    }
  }

  lemma ExecSafe(w: World, op: Op)
    requires Aligned(w) && Room(w.db) && OpFits(op) && !Beside(op)
    ensures Safe(w, Exec(w, op))
  {
    hide MaxTag, TagFor, Live, Fresh, DbOk, Sync, CommitWebVersion, Push, Merge, Resolve, Ensure, Safe, Aligned, InStep, Counted, Lawful;
    DbRoom(w.db);
    AlignedInv(w);
    match op
    case DoEnsure(now) =>
      EnsureIsSync(w, now);
      SyncSafe(w, now);
    case DoSync(now) => SyncSafe(w, now);
    case DoWeb(edit, now) => WebSafe(w, edit, now);
    case DoPush(tip, now) =>
      AlignedIsInSync(w, now);
      PushSafe(w, tip, now);
    case DoMerge(request, now) =>
      AlignedIsInSync(w, now);
      MergeSafe(w, request, now);
    case DoResolve(canon, request, now) =>
      AlignedIsInSync(w, now);
      ResolveSafe(w, canon, request, now);
  }

  lemma AlignedInv(w: World)
    requires Aligned(w)
    ensures Inv(w) && DbOk(w.db)
  {
    hide MaxTag, TagFor, Live, Fresh, DbOk;
  }

  /** The stores after the crash, with no more failures to come. */
  function Restarted(w: World): World {
    w.(plan := [])
  }

  lemma SafeRecovers(w: World, c: World, later: int)
    requires Safe(w, c) && Room(w.db)
    ensures var (r, outcome) := Sync(Restarted(c), later);
            && (TipStranded(c) ==> r == Restarted(c) && outcome == TipNotVersioned(c.db.current))
            && (!TipStranded(c) ==> (Aligned(r) <==> Makeable(c)))
            && w.db.rows <= r.db.rows && w.db.current <= r.db.current <= w.db.current + 1
            && Kept(w.repo, r.repo)
  {
    hide MaxTag, TagFor, Live, Fresh, DbOk, Sync, Kept, Counted, Projects, TagOnTip, Aligned, Makeable;
    var s := Restarted(c);
    StrandedStill(c);
    MakeableStill(c);
    assert Inv(s) && s.db.current + 1 < MAX_I32;
    SyncRecovers(s, later);
    if c.db != w.db {
      CountedStill(c);
      CountedKeepsDb(s, later);
    }
    KeptTransitive(w.repo, c.repo, Sync(s, later).0.repo);
  }

  lemma StrandedStill(c: World)
    ensures TipStranded(Restarted(c)) == TipStranded(c)
  {
    hide MaxTag, TagFor, Live, Projects, TagOnTip;
  }

  lemma MakeableStill(c: World)
    ensures Makeable(Restarted(c)) == Makeable(c)
  {
    hide MaxTag, TagFor, Projects, TagOnTip, Overlaid, VersionsAbove, Settable;
  }

  lemma CountedStill(c: World)
    requires Counted(c)
    ensures Counted(Restarted(c))
  {
    hide MaxTag, TagFor, Live, TagOnTip;
  }

  /** Crash recovery. Start from a list whose two stores agree, run any operation that
      writes versions, let any of its writes fail and
      the process die after any of them. One alignment without failures then ends with the highest tag equal to the
      current version and standing on the tip of main, exactly when git can make the names it has to set; or, when the
      tip carries no readable canon, with that answer and nothing touched. The counter grew by at most one, no row and
      no ref was lost. */
  lemma CrashRecovers(w: World, op: Op, later: int)
    requires Aligned(w) && Room(w.db) && OpFits(op) && !Beside(op)
    ensures var c := Exec(w, op);
            var (r, outcome) := Sync(Restarted(c), later);
            && (TipStranded(c) ==> r == Restarted(c) && outcome == TipNotVersioned(c.db.current))
            && (!TipStranded(c) ==> (Aligned(r) <==> Makeable(c)))
            && w.db.rows <= r.db.rows && w.db.current <= r.db.current <= w.db.current + 1
            && Kept(w.repo, r.repo)
  {
    hide Exec, Safe, Sync, Aligned, TipStranded, Kept, Makeable;
    ExecSafe(w, op);
    SafeRecovers(w, Exec(w, op), later);
  }

  /** The same for an alignment itself, interrupted in any healable state: a bootstrap, a catch-up, a projection. */
  lemma InterruptedSyncRecovers(w: World, now: int, later: int)
    requires Inv(w) && Room(w.db)
    ensures var c := Sync(w, now).0;
            var (r, outcome) := Sync(Restarted(c), later);
            && (TipStranded(c) ==> r == Restarted(c) && outcome == TipNotVersioned(c.db.current))
            && (!TipStranded(c) ==> (Aligned(r) <==> Makeable(c)))
            && w.db.rows <= r.db.rows && w.db.current <= r.db.current <= w.db.current + 1
            && Kept(w.repo, r.repo)
  {
    hide Safe, Sync, Aligned, TipStranded, Kept, Inv, Makeable;
    SyncSafe(w, now);
    SafeRecovers(w, Sync(w, now).0, later);
  }
}

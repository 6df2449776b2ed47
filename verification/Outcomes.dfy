/** When each operation gives which answer, and what the versions it puts into git hold. */
module Outcomes {
  import opened Wrappers
  import opened Text
  import opened Canon
  import opened Reading
  import opened Rows
  import FixedPoint
  import opened Readme
  import opened Tree
  import opened AuthoredSets
  import opened Hook
  import opened Commits
  import opened Protocol
  import opened Mechanics
  import opened Safety
  import opened Settle
  import opened Crashes
  import opened Effects

  // ---- the versions put into git --------------------------------------------------------------

  /** The generated files of every tree the service builds. */
  lemma GeneratedFiles(v: VersionData, parent: Option<Tree>, source: Source)
    ensures var tree := BuildTree(v, parent, source);
            && "list.json" in tree && tree["list.json"] == Leaf(Regular, Printed(ListJson(v)))
            && "README.md" in tree && tree["README.md"] == Leaf(Regular, Written(Render(v)))
            && ".gitattributes" in tree && tree[".gitattributes"] == Leaf(Regular, Written("README.md linguist-generated=true\n"))
  {
    hide ListJson, Render, PlacedDirs, CarriedDirs;
    var dirs := BuiltFrom(v, parent, source);
    DirList();
    assert "README.md" !in dirs && "list.json" !in dirs && ".gitattributes" !in dirs;
  }

  /** A manifest says what the row says under this meta, number by number and step by step. */
  predicate ManifestSays(raw: RawList, meta: Meta, row: VersionRow) {
    && raw.title == Some(meta.title) && raw.desc == Some(meta.desc) && raw.tags == Some(meta.tags)
    && raw.ordered == Some(meta.ordered) && raw.version == Some(row.version)
    && raw.kind == (if meta.kind.Some? && KnownKind(meta.kind.value) then meta.kind else None)
    && raw.skillHeader == ShownHeader(meta.skillHeader)
    && raw.steps.Some? && |raw.steps.value| == |row.steps|
    && forall i :: 0 <= i < |row.steps| ==> PrintedRow(raw.steps.value[i], i + 1, row.steps[i])
  }

  /** The manifest and the page of a commit are those of the row. */
  predicate Shows(c: Commit, meta: Meta, row: VersionRow) {
    && ManifestOf(c).Some? && ManifestSays(ManifestOf(c).value, meta, row)
    && "README.md" in c.tree && c.tree["README.md"] == Leaf(Regular, Written(Render(VersionOf(meta, row))))
  }

  predicate RowFits(row: VersionRow) {
    row.version <= MAX_I32 && |row.steps| <= MAX_I32
  }

  lemma RowVersionFits(meta: Meta, row: VersionRow)
    requires RowFits(row)
    ensures NumbersFit(VersionOf(meta, row))
  {
    hide ValidKind, ShownHeader;
    forall i | 0 <= i < |row.steps| ensures LoadSteps(row.steps)[i].n == i + 1 {
      assert LoadSteps(row.steps)[i] == LoadStep(i + 1, row.steps[i]);
    }
  }

  lemma LoadedIsPrinted(n: int, r: StepRow)
    ensures PrintedRow(SeenStep(LoadStep(n, r)), n, r)
  {
    hide LiveRefs, NonEmpty, FormatUuid, SeenRefs, Sifted, Reads, Blank, Trim;
    FilledAreSifted(r.subtasks);
    LiveAreSifted(r.refs);
    ReadsIsNotBlank(r.imageKey.GetOr(""));
  }

  /** A commit whose tree was built for a row shows the row. */
  lemma BuiltShows(c: Commit, meta: Meta, row: VersionRow, parent: Option<Tree>)
    requires RowFits(row) && c.tree == BuildTree(VersionOf(meta, row), parent, Carry)
    ensures Shows(c, meta, row)
  {
    hide BuildTree, ListJson, Render, DecodeList, SeenStep, LoadStep, PrintedRow, ShownHeader;
    var v := VersionOf(meta, row);
    RowVersionFits(meta, row);
    FixedPoint.HeaderFixed(meta.skillHeader);
    GeneratedFiles(v, parent, Carry);
    DecodePrinted(v);
    forall i | 0 <= i < |row.steps| ensures PrintedRow(SeenSteps(v.steps)[i], i + 1, row.steps[i]) {
      LoadedIsPrinted(i + 1, row.steps[i]);
    }
  }

  lemma CommitStamped(meta: Meta, row: VersionRow, parent: Option<Commit>)
    ensures Stamped(CommitOf(VersionOf(meta, row), parent, Carry), row.version, row.note, row.ts)
  {
    hide BuildTree, LoadSteps, ValidKind, ShownHeader, Dec;
  }

  /** The author's files stay the same along a chain of generated commits. */
  lemma {:induction false} ChainKeepsFiles(versions: seq<VersionData>, parent: Option<Commit>)
    ensures forall i :: 0 <= i < |versions| ==>
              AuthoredFiles(Chain(versions, parent, Carry)[i].tree) == (if parent.Some? then AuthoredFiles(parent.value.tree) else {})
  {
    hide CommitOf, BuildTree, AuthoredFiles;
    if versions != [] {
      var n := |versions| - 1;
      ChainKeepsFiles(versions[..n], parent);
      var tip := TipOf(Chain(versions[..n], parent, Carry), parent);
      CommitParent(versions[n], tip, Carry);
      if tip.Some? {
        CarryKeepsFiles(versions[n], tip.value.tree);
      } else {
        RootCommitLawful(versions[n]);
      }
    }
  }

  lemma {:induction false} RowIsAbove(meta: Meta, rows: seq<VersionRow>, have: nat, i: nat) returns (k: nat)
    requires i < |rows| && rows[i].version > have
    ensures k < |VersionsAbove(meta, rows, have)| && VersionsAbove(meta, rows, have)[k] == VersionOf(meta, rows[i])
  {
    hide VersionOf;
    var n := |rows| - 1;
    if i < n {
      k := RowIsAbove(meta, rows[..n], have, i);
    } else {
      k := |VersionsAbove(meta, rows[..n], have)|;
    }
  }

  /** Each commit at the end of main has the tree of its version, and is in main. */
  lemma {:induction false} TailTrees(tip: Commit, versions: seq<VersionData>, i: nat)
    requires TailCommits(Some(tip), versions).Some? && i < |versions|
    ensures var c := TailCommits(Some(tip), versions).value[i];
            c.tree == BuildTree(versions[i], Some(c.tree), Carry) && IsAncestor(c, tip)
    decreases |versions|
  {
    hide BuildTree;
    var n := |versions| - 1;
    if i < n {
      assert FirstParent(tip).Some?;
      TailTrees(tip.parents[0], versions[..n], i);
      ParentIsAncestor(tip, 0);
      AncestorTransitive(TailCommits(Some(tip), versions).value[i], tip.parents[0], tip);
    }
  }

  /** A version that got its tag: the tag is at a commit that shows the row; it is stamped with it, unless it was in
      main before. */
  ghost predicate Recorded(before: Repo, after: Repo, meta: Meta, row: VersionRow) {
    && TagFor(row.version) in after.tags
    && var c := after.tags[TagFor(row.version)];
    && Shows(c, meta, row)
    && (Stamped(c, row.version, row.note, row.ts) || (before.main.Some? && IsAncestor(c, before.main.value)))
  }

  /** Whatever a catch-up with main in place has made, every version it was to make is recorded, on top of main with the
      files of main. */
  lemma AppendRecords(w: World, i: nat)
    requires RowsOk(w.db) && i < |w.db.rows| && MaxTag(w.repo.tags) < w.db.rows[i].version && RowFits(w.db.rows[i])
    requires AppendMissing(w, Above(w)).1
    ensures Recorded(w.repo, AppendMissing(w, Above(w)).0.repo, w.db.meta, w.db.rows[i])
    ensures FilesOnMain(AppendMissing(w, Above(w)).0.repo) == FilesOnMain(w.repo)
  {
    hide MaxTag, TagFor, VersionsAbove, TagAll, Tagged, TailCommits, Chain, Lawful, IsAncestor, RowsOk, RowFits, Shows, Stamped, VersionOf,
      BuildTree, AuthoredFiles, Ascending, Settable, CommitOf;
    var meta, row := w.db.meta, w.db.rows[i];
    var have, versions := MaxTag(w.repo.tags), Above(w);
    RowsAbove(w.db, have);
    var k := RowIsAbove(meta, w.db.rows, have, i);
    VersionOfNumber(meta, row);
    if w.repo.main.Some? && TailCommits(w.repo.main, versions).Some? {
      var commits := TailCommits(w.repo.main, versions).value;
      var n := TagAllSetsPrefix(w, versions, commits);
      assert versions[..|versions|] == versions && commits[..|commits|] == commits;
      TaggedAt(w.repo.tags, versions, commits, have, k);
      TailTrees(w.repo.main.value, versions, k);
      BuiltShows(commits[k], meta, row, Some(commits[k].tree));
    } else {
      var chain := Chain(versions, w.repo.main, Carry);
      var moved := UpdateMain(w, chain[|chain| - 1], w.repo.main).0;
      var n := TagAllSetsPrefix(moved, versions, chain);
      assert versions[..|versions|] == versions && chain[..|chain|] == chain;
      TaggedAt(w.repo.tags, versions, chain, have, k);
      ChainAt(versions, w.repo.main, Carry, k);
      ChainKeepsFiles(versions, w.repo.main);
      var below := Below(chain, w.repo.main, k);
      CommitParent(versions[k], below, Carry);
      CommitStamped(meta, row, below);
      BuiltShows(chain[k], meta, row, TreeOf(below));
    }
  }

  lemma BootstrapSets(w: World)
    requires Bootstrap(w).1.Some? && Bootstrap(w).1.value.Bootstrapped?
    ensures w.db.rows != []
    ensures var versions := AllVersions(w.db);
            var chain := Chain(versions, None, Carry);
            var repo := Bootstrap(w).0.repo;
            repo.main == Some(chain[|chain| - 1]) && repo.tags == Tagged(w.repo.tags, versions, chain)
  {
    hide AllVersions, TagAll, Tagged, Chain, Lawful, IsAncestor, Settable, Overlaid;
    var versions := AllVersions(w.db);
    var chain := Chain(versions, None, Carry);
    var moved := UpdateMain(InitBare(w).0, chain[|chain| - 1], None).0;
    var n := TagAllSetsPrefix(moved, versions, chain);
    assert versions[..|versions|] == versions && chain[..|chain|] == chain;
  }

  /** A bootstrap records every row, in a history of its own without author's files. */
  lemma BootstrapRecords(w: World, i: nat)
    requires RowsOk(w.db) && i < |w.db.rows| && RowFits(w.db.rows[i])
    requires Bootstrap(w).1.Some? && Bootstrap(w).1.value.Bootstrapped?
    ensures var repo := Bootstrap(w).0.repo;
            && Recorded(NO_REPO, repo, w.db.meta, w.db.rows[i])
            && FilesOnMain(repo) == {}
            && (i > 0 ==> TagFor(w.db.rows[i - 1].version) in repo.tags)
            && repo.tags[TagFor(w.db.rows[i].version)].parents
               == (if i == 0 then [] else [repo.tags[TagFor(w.db.rows[i - 1].version)]])
            && (i == |w.db.rows| - 1 ==> repo.main == Some(repo.tags[TagFor(w.db.rows[i].version)]))
  {
    hide TagFor, AllVersions, Bootstrap, Tagged, Chain, Lawful, IsAncestor, RowsOk, RowFits, Shows, Stamped, VersionOf,
      BuildTree, AuthoredFiles, Ascending, CommitOf;
    var meta, row := w.db.meta, w.db.rows[i];
    var versions := AllVersions(w.db);
    var chain := Chain(versions, None, Carry);
    BootstrapSets(w);
    AllVersionsAscend(w.db);
    VersionOfNumber(meta, row);
    TaggedAt(w.repo.tags, versions, chain, 0, i);
    ChainAt(versions, None, Carry, i);
    ChainKeepsFiles(versions, None);
    var below := Below(chain, None, i);
    if i > 0 {
      TaggedAt(w.repo.tags, versions, chain, 0, i - 1);
      VersionOfNumber(meta, w.db.rows[i - 1]);
    }
    CommitParent(versions[i], below, Carry);
    CommitParents(versions[i], below);
    CommitStamped(meta, row, below);
    BuiltShows(chain[i], meta, row, TreeOf(below));
  }

  lemma CommitParents(v: VersionData, parent: Option<Commit>)
    ensures CommitOf(v, parent, Carry).parents == if parent.Some? then [parent.value] else []
  {
    hide BuildTree, CommitMessage;
  }

  /** Every version an alignment says it has put into git is there, says what its row says, and has cost main no file of
      the author. */
  lemma SyncRecords(w: World, now: int, i: nat)
    requires RowsOk(w.db) && i < |w.db.rows| && MaxTag(w.repo.tags) < w.db.rows[i].version && RowFits(w.db.rows[i])
    requires w.repo.present && w.repo.main.Some? && Sync(w, now).1.Appended?
    ensures Recorded(w.repo, Sync(w, now).0.repo, w.db.meta, w.db.rows[i])
    ensures FilesOnMain(Sync(w, now).0.repo) == FilesOnMain(w.repo)
  {
    hide MaxTag, TagFor, VersionsAbove, AppendMissing, Sync, RowsOk, RowFits, Recorded, FilesOnMain, TagOnTip, ProjectPushed;
    SyncIsAlign(w, now);
    AppendRecords(w, i);
  }

  lemma SyncRecordsAll(w: World, now: int, i: nat)
    requires RowsOk(w.db) && i < |w.db.rows| && RowFits(w.db.rows[i]) && Sync(w, now).1.Bootstrapped?
    ensures Recorded(NO_REPO, Sync(w, now).0.repo, w.db.meta, w.db.rows[i])
    ensures FilesOnMain(Sync(w, now).0.repo) == {}
  {
    hide MaxTag, TagFor, Align, Bootstrap, RowsOk, RowFits, Recorded, FilesOnMain, UpdateMain, ProjectPushed;
    AlignIsNoBootstrap(w, now);
    if w.repo.present && w.repo.main.None? {
      var restore := Smaller(MaxTag(w.repo.tags), w.db.current);
      if restore > 0 && TagFor(restore) in w.repo.tags {
        AlignIsNoBootstrap(UpdateMain(w, w.repo.tags[TagFor(restore)], None).0, now);
      }
    }
    BootstrapRecords(w, i);
  }

  lemma AlignIsNoBootstrap(w: World, now: int)
    ensures forall have: nat :: !Align(w, have, now).1.Bootstrapped?
  {
    hide TagFor, VersionsAbove, AppendMissing, TagOnTip, ProjectPushed;
  }

  // ---- answers of an alignment ----------------------------------------------------------------

  /** What in sync means: with main in place, that git and the database count alike and the tag of the current version is
      at main (a tag that is not there counts as if it were); without main, that there is nothing to build from; without
      a repository, that there are no rows. */
  predicate NothingToDo(w: World, have: nat) {
    if !w.repo.present then w.db.rows == []
    else if w.repo.main.None? then
      (have == 0 && w.db.rows == []) || (have == w.db.current > 0 && TagFor(w.db.current) !in w.repo.tags)
    else
      && have == w.db.current
      && (w.db.current == 0 || TagFor(w.db.current) !in w.repo.tags || w.repo.tags[TagFor(w.db.current)] == w.repo.main.value)
  }

  /** An alignment answers that all is in sync exactly when there is nothing to do, and then does nothing. */
  lemma InSyncMeans(w: World, now: int)
    ensures Sync(w, now).1.InSync? <==> NothingToDo(w, MaxTag(w.repo.tags))
    ensures Sync(w, now).1.InSync? ==> Sync(w, now).0 == w
  {
    hide MaxTag, TagFor, Align, BuildHistory, UpdateMain, InitBare, AllVersions;
    AlignInSync(w, now);
    var restore := Smaller(MaxTag(w.repo.tags), w.db.current);
    if w.repo.present && w.repo.main.None? && restore > 0 && TagFor(restore) in w.repo.tags {
      AlignInSync(UpdateMain(w, w.repo.tags[TagFor(restore)], None).0, now);
    }
  }

  lemma AlignInSync(w: World, now: int)
    ensures var have := MaxTag(w.repo.tags);
            && (w.repo.main.Some? ==>
                  (Align(w, have, now).1.InSync? <==> NothingToDo(w.(repo := w.repo.(present := true)), have)))
            && (w.repo.main.None? ==>
                  (Align(w, have, now).1.InSync? <==>
                    have == w.db.current
                    || (have == 0 && VersionsAbove(w.db.meta, w.db.rows, have) == [] && have < w.db.current)))
            && (Align(w, have, now).1.InSync? ==> Align(w, have, now).0 == w)
            && (w.db.rows == [] ==> VersionsAbove(w.db.meta, w.db.rows, have) == [])
  {
    hide MaxTag, TagFor, AppendMissing, ProjectPushed;
  }

  /** The repository is there after `ensure`, exactly unless making it failed; a list without rows gets an empty one. */
  lemma EnsureMakes(w: World, now: int)
    requires RowsOk(w.db) && RepoOk(w.repo)
    ensures Ensure(w, now).repo.present <==> w.repo.present || !Faulty(w.plan)
    ensures !w.repo.present && w.db.rows == [] && !Faulty(w.plan) ==> Ensure(w, now).repo == NO_REPO.(present := true)
  {
    hide MaxTag, TagFor, Align, BuildHistory, Faulty, Rest, RowsOk, AllVersions, Kept;
    SyncKeeps(w, now);
    if w.repo.present {
      StillPresent(w.repo, Sync(w, now).0.repo);
    } else if w.db.rows != [] {
      NoTagsMax();
      AllVersionsAscend(w.db);
      var ready := InitBare(w).0;
      BuildHistoryKeeps(ready, AllVersions(w.db), None, Carry, 0);
      StillPresent(ready.repo, BuildHistory(ready, AllVersions(w.db), None, Carry).0.repo);
    }
  }

  // ---- answers of a web write -----------------------------------------------------------------

  /** Which answer a web write gives: a list that cannot be aligned is refused with the numbers of the alignment; an edit
      of another version is refused with the two numbers; a set of files that breaks a rule is refused exactly then; and
      each of these leaves everything as the alignment left it. */
  lemma WebAnswers(w: World, e: Edit, now: int)
    ensures var (s, aligned) := Sync(w, now);
            var (next, outcome) := CommitWebVersion(w, e, now);
            var open := !aligned.Conflict? && !aligned.SyncFailed?;
            var current := !(e.expected.Some? && e.expected.value != s.db.current);
            && (outcome.OutOfSync? <==> aligned.Conflict?)
            && (aligned.Conflict? ==> outcome == OutOfSync(aligned.have, aligned.current))
            && (outcome.DbFailed? <==> aligned.SyncFailed?)
            && (outcome.VersionConflict? <==> open && !current)
            && (open && !current ==> outcome == VersionConflict(e.expected.value, s.db.current))
            && (outcome.AuthoredRefused? <==> open && current && e.authored.Some? && !GoodSet(e.authored.value))
            && (outcome.OutOfSync? || outcome.DbFailed? || outcome.VersionConflict? || outcome.AuthoredRefused? ==> next == s)
            && (outcome.WebGitFailed? ==> next.db == s.db)
  {
    hide Sync, WriteVersion, GoodSet;
    WriteAnswers(Sync(w, now).0, e);
  }

  lemma WriteAnswers(s: World, e: Edit)
    ensures var (next, outcome) := WriteVersion(s, e);
            var current := !(e.expected.Some? && e.expected.value != s.db.current);
            && !outcome.OutOfSync? && !outcome.DbFailed?
            && (outcome.VersionConflict? <==> !current)
            && (!current ==> outcome == VersionConflict(e.expected.value, s.db.current))
            && (outcome.AuthoredRefused? <==> current && e.authored.Some? && !GoodSet(e.authored.value))
            && (outcome.VersionConflict? || outcome.AuthoredRefused? ==> next == s)
            && (outcome.WebGitFailed? ==> next.db == s.db)
  {
    hide BuildHistory, CommitOf, InputVerdict, PatchMeta, WebVersion, Lawful, BuildTree, Accepted, GoodSet, UpdateMain, TagFor, Overlaid, Faulty, Rest;
    var v := WebVersion(s.db.current + 1, PatchMeta(s.db.meta, e.patch), e);
    var tip := CommitOf(v, s.repo.main, SourceOf(e));
    BuiltLeaves(s, v, SourceOf(e));
    OneBuild(s, v, SourceOf(e));
    CommitParent(v, s.repo.main, SourceOf(e));
    RefusedIsUnlawful(s, tip);
    if e.authored.Some? {
      VerdictIsExact(e.authored.value);
      if InputVerdict(e.authored.value).None? {
        ReplaceReadsBack(v, TreeOf(s.repo.main), e.authored.value);
      }
    }
  }

  lemma RefusedIsUnlawful(s: World, tip: Commit)
    ensures UpdateMain(s, tip, s.repo.main).1.Refused? <==> !Lawful(tip.tree)
  {
    hide Lawful, IsAncestor;
  }

  // ---- pushes and refs beside the versions ----------------------------------------------------

  /** An accepted push puts main at its tip; a refused one, or one whose write fails, changes no ref and no row. */
  lemma PushLeaves(w: World, tip: Commit, now: int)
    ensures var next := Push(w, tip, now);
            var lands := w.repo.present && w.repo.main != Some(tip) && PushAccepted(w.repo, tip) && !Faulty(w.plan);
            && next.repo.main == (if lands then Some(tip) else w.repo.main)
            && (!lands ==> next.repo == w.repo && next.db == w.db)
            && next.repo.branches == w.repo.branches
  {
    hide PushAccepted, ProjectPushed, Faulty, Rest;
    if w.repo.present && w.repo.main != Some(tip) && PushAccepted(w.repo, tip) && !Faulty(w.plan) {
      var moved := Spent(w).(repo := w.repo.(main := Some(tip)));
      ProjectLeaves(moved, now);
      ProjectLeaves(ProjectPushed(moved, now).0, now);
    }
  }

  /** Some ref is at the commit. */
  ghost predicate RefAt(repo: Repo, c: Commit) {
    || repo.main == Some(c)
    || (exists t :: t in repo.tags && repo.tags[t] == c)
    || (exists b :: b in repo.branches && repo.branches[b] == c)
  }

  /** The hook judges every commit of a push that no ref reaches, and no other. */
  lemma HookJudges(repo: Repo, tip: Commit)
    ensures HookTakes(repo, tip) <==>
              && "list.json" in tip.tree && (tip.tree["list.json"].Leaf? ==> tip.tree["list.json"].mode != Gitlink)
              && forall c :: IsAncestor(c, tip) && (forall r :: RefAt(repo, r) ==> !IsAncestor(c, r)) ==> HookAccepts(c.tree)
  {
    hide IsAncestor, HookAccepts, RefAt;
    forall c ensures Known(repo, c) <==> exists r :: RefAt(repo, r) && IsAncestor(c, r) {
      KnownIsReached(repo, c);
    }
  }

  lemma KnownIsReached(repo: Repo, c: Commit)
    ensures Known(repo, c) <==> exists r :: RefAt(repo, r) && IsAncestor(c, r)
  {
    hide IsAncestor;
    if repo.main.Some? && IsAncestor(c, repo.main.value) {
      assert RefAt(repo, repo.main.value);
    }
    if t :| t in repo.tags && IsAncestor(c, repo.tags[t]) {
      assert RefAt(repo, repo.tags[t]);
    }
    if b :| b in repo.branches && IsAncestor(c, repo.branches[b]) {
      assert RefAt(repo, repo.branches[b]);
    }
  }

  /** After main has moved its tip becomes a version, unless it is no version or the write of the rows fails twice. */
  lemma ProjectionTriedTwice(w: World, now: int)
    requires w.repo.main.Some?
    ensures ProjectOrLog(w, now).db.current
         == if Projects(w.repo.main.value) && !(Faulty(w.plan) && Faulty(Rest(w.plan))) then w.db.current + 1 else w.db.current
  {
    hide ProjectPushed, Projects;
    ProjectPushedShape(w, now);
    ProjectPushedShape(ProjectPushed(w, now).0, now);
  }

  /** `tags` with one more, or another commit under a name that is there. */
  predicate TagPut(a: Repo, b: Repo, name: string, c: Commit) {
    b == a.(tags := a.tags[name := c])
  }

  /** What the operations on the other refs leave: one ref is put or taken away, nothing else; or nothing at all. */
  lemma RefsLeave(w: World, name: string, version: nat, c: Commit)
    ensures var next := Release(w, name, version);
            && next.db == w.db
            && (next.repo == w.repo || (VersionOfTag(name).None? && TagFor(version) in w.repo.tags
                                        && TagPut(w.repo, next.repo, name, w.repo.tags[TagFor(version)])))
            && (w.repo.present && VersionOfTag(name).None? && TagFor(version) in w.repo.tags && Fits(w.repo.tags, name) && !Faulty(w.plan) ==>
                  TagPut(w.repo, next.repo, name, w.repo.tags[TagFor(version)]))
    ensures var next := PushTag(w, name, c);
            && next.db == w.db && (next.repo == w.repo || TagPut(w.repo, next.repo, name, c))
            && (w.repo.present && !Reserved(name) && HookTakes(w.repo, c) && Fits(w.repo.tags, name) && !Faulty(w.plan) ==>
                  TagPut(w.repo, next.repo, name, c))
    ensures var next := DropTag(w, name);
            && next.db == w.db && (next.repo == w.repo || next.repo == w.repo.(tags := w.repo.tags - {name}))
            && (w.repo.present && !Reserved(name) && !Faulty(w.plan) ==> name !in next.repo.tags)
    ensures var next := PushBranch(w, name, c);
            && next.db == w.db && (next.repo == w.repo || next.repo == w.repo.(branches := w.repo.branches[name := c]))
            && (w.repo.present && HookTakes(w.repo, c) && !Faulty(w.plan) ==> name in next.repo.branches && next.repo.branches[name] == c)
    ensures var next := DropBranch(w, name);
            && next.db == w.db && (next.repo == w.repo || next.repo == w.repo.(branches := w.repo.branches - {name}))
            && (w.repo.present && !Faulty(w.plan) ==> name !in next.repo.branches)
  {
    hide HookTakes, Fits, TagFor, Reserved, Faulty, Rest;
  }
}

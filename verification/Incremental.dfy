/** Incremental equals batch: a repository grown one web version at a time is the one built from the database. */
module Incremental {
  import opened Wrappers
  import opened Text
  import opened Canon
  import opened Rows
  import opened Fence
  import opened Readme
  import opened Tree
  import opened AuthoredSets
  import opened Commits
  import opened Protocol
  import opened Mechanics
  import opened Safety
  import opened Settle
  import opened Recovery
  import opened Crashes
  import opened LostTags

  // ---- the two readers of a row ---------------------------------------------------------------

  /** The row reader and the bulk reader print every row alike, even where the steps they make differ. */
  lemma ReadersPrintAlike(n: int, r: StepRow)
    ensures EncodeStep(SerStepFromRow(n, r)) == EncodeStep(LoadStep(n, r))
    ensures PrintsAlike(SerStepFromRow(n, r), LoadStep(n, r))
    ensures SerStepFromRow(n, r) != LoadStep(n, r) <==> r.needsHumanAsk != "" && !r.needsHuman
  {
    hide LiveRefs, NonEmpty, FormatUuid, LevelText, Trim;
    assert StepEntries(SerStepFromRow(n, r)) == StepEntries(LoadStep(n, r));
  }

  /** The version a web write puts into git is, in print, the version the database gives back. */
  lemma WebVersionReadsBack(version: nat, meta: Meta, e: Edit)
    requires version <= MAX_I32 && EditFits(e)
    ensures var row := VersionRow(version, e.note, e.ts, e.rows);
            && ListJson(WebVersion(version, meta, e)) == ListJson(VersionOf(meta, row))
            && Render(WebVersion(version, meta, e)) == Render(VersionOf(meta, row))
  {
    hide SerStepFromRow, LoadStep, EncodeStep, PrintsAlike, ValidKind, ShownHeader, AddBlocks, StepCount, Join, Squeeze, TrimEnd;
    var v, w := WebVersion(version, meta, e), VersionOf(meta, VersionRow(version, e.note, e.ts, e.rows));
    forall i | 0 <= i < |e.rows| ensures EncodeStep(v.steps[i]) == EncodeStep(w.steps[i]) && PrintsAlike(v.steps[i], w.steps[i]) {
      ReadersPrintAlike(i + 1, e.rows[i]);
    }
    assert EncodeSteps(v.steps) == EncodeSteps(w.steps);
    assert ListEntries(v) == ListEntries(w);
    AddAllAlike(StartOf(v), v.steps, w.steps, v.ordered);
    assert HeaderLines(v) == HeaderLines(w);
  }

  lemma SamePrintSameCommit(v: VersionData, w: VersionData, parent: Option<Commit>)
    requires ListJson(v) == ListJson(w) && Render(v) == Render(w)
    requires v.version == w.version && v.note == w.note && v.ts == w.ts
    ensures CommitOf(v, parent, Carry) == CommitOf(w, parent, Carry)
  {
    hide ListJson, Render, CarriedDirs;
    assert VersionFiles(v) == VersionFiles(w);
  }

  lemma WebCommitReadsBack(version: nat, meta: Meta, e: Edit, parent: Option<Commit>)
    requires version <= MAX_I32 && EditFits(e)
    ensures CommitOf(WebVersion(version, meta, e), parent, Carry)
         == CommitOf(VersionOf(meta, VersionRow(version, e.note, e.ts, e.rows)), parent, Carry)
  {
    hide ListJson, Render, CommitOf, SerStepsFromRows, LoadSteps, ValidKind, ShownHeader;
    WebVersionReadsBack(version, meta, e);
    SamePrintSameCommit(WebVersion(version, meta, e), VersionOf(meta, VersionRow(version, e.note, e.ts, e.rows)), parent);
  }

  // ---- the repository built from the database -------------------------------------------------

  /** The repository a bootstrap makes of a database. */
  function BuiltRepo(db: Db): Repo {
    var chain := Chain(AllVersions(db), None, Carry);
    Repo(true, TipOf(chain, None), Tagged(map[], AllVersions(db), chain), map[])
  }

  lemma BootstrapBuilds(db: Db)
    requires DbOk(db) && db.current < MAX_I32
    ensures Bootstrap(World(NO_REPO, db, [])).0 == World(BuiltRepo(db), db, [])
  {
    hide AllVersions, Chain, TagAll, Tagged, Lawful, IsAncestor, DbOk, Ascending, TagFor, Settable, Carries;
    var w := World(NO_REPO, db, []);
    var versions := AllVersions(db);
    var chain := Chain(versions, None, Carry);
    RowsExist(db);
    AllVersionsMissing(db);
    MissingAscends(versions, 0, db.current);
    ChainLawful(versions, None);
    assert Carries(None) by { NothingCarried(); }
    var ready := InitBare(w).0;
    MainMoves(ready, chain[|chain| - 1]);
    var moved := UpdateMain(ready, chain[|chain| - 1], None).0;
    assert Settable(map[], versions) by { EmptySettable(versions); }
    var k := TagAllSetsPrefix(moved, versions, chain);
    assert versions[..k] == versions && chain[..k] == chain;
  }

  lemma EmptySettable(versions: seq<VersionData>)
    ensures Settable(map[], versions)
  {
    hide TagFor;
  }

  lemma BuiltIsInSync(db: Db, now: int)
    requires DbOk(db) && db.current < MAX_I32
    ensures Sync(World(BuiltRepo(db), db, []), now) == (World(BuiltRepo(db), db, []), InSync)
    ensures BuiltRepo(db).main.Some? && Lawful(BuiltRepo(db).main.value.tree)
  {
    hide AllVersions, Chain, Tagged, Lawful, DbOk, Ascending, TagFor, MaxTag, Sync, Carries;
    var versions := AllVersions(db);
    var chain := Chain(versions, None, Carry);
    NoTagsMax();
    AllVersionsMissing(db);
    MissingAscends(versions, 0, db.current);
    ChainLawful(versions, None);
    assert Carries(None) by { NothingCarried(); }
    TaggedMax(map[], versions, chain, 0);
    TaggedAt(map[], versions, chain, 0, |versions| - 1);
    OnTipIsInSync(World(BuiltRepo(db), db, []), now);
  }

  lemma OneMoreRow(db: Db, row: VersionRow)
    requires row.version == db.current + 1
    ensures AllVersions(AddRow(db, row)) == AllVersions(db) + [VersionOf(db.meta, row)]
  {
    hide VersionOf;
  }

  lemma ChainExtends(versions: seq<VersionData>, v: VersionData)
    ensures Chain(versions + [v], None, Carry)
         == Chain(versions, None, Carry) + [CommitOf(v, TipOf(Chain(versions, None, Carry), None), Carry)]
  {
    hide CommitOf;
    assert (versions + [v])[..|versions|] == versions;
  }

  lemma TaggedExtends(versions: seq<VersionData>, commits: seq<Commit>, v: VersionData, c: Commit)
    requires |versions| == |commits|
    ensures Tagged(map[], versions + [v], commits + [c]) == Tagged(map[], versions, commits)[TagFor(v.version) := c]
  {
    hide TagFor;
    assert (versions + [v])[..|versions|] == versions && (commits + [c])[..|versions|] == commits;
  }

  /** One more row builds one more commit and one more tag. */
  lemma BuiltGrows(db: Db, row: VersionRow)
    requires DbOk(db) && row.version == db.current + 1
    ensures var c := CommitOf(VersionOf(db.meta, row), BuiltRepo(db).main, Carry);
            BuiltRepo(AddRow(db, row)) == BuiltRepo(db).(main := Some(c), tags := BuiltRepo(db).tags[TagFor(row.version) := c])
  {
    hide AllVersions, Chain, Tagged, CommitOf, VersionOf, TagFor;
    OneMoreRow(db, row);
    ChainExtends(AllVersions(db), VersionOf(db.meta, row));
    VersionOfNumber(db.meta, row);
    var chain := Chain(AllVersions(db), None, Carry);
    TaggedExtends(AllVersions(db), chain, VersionOf(db.meta, row), CommitOf(VersionOf(db.meta, row), TipOf(chain, None), Carry));
  }

  // ---- growing it one edit at a time ----------------------------------------------------------

  /** An edit that carries files over and leaves the meta of the list alone. */
  predicate Plain(db: Db, e: Edit) {
    && e.authored.None? && EditFits(e)
    && PatchMeta(db.meta, e.patch) == db.meta
    && (e.expected.Some? ==> e.expected.value == db.current)
  }

  lemma WriteBuilds(db: Db, e: Edit)
    requires DbOk(db) && db.current < MAX_I32 && Plain(db, e)
    ensures var row := VersionRow(db.current + 1, e.note, e.ts, e.rows);
            var s := World(BuiltRepo(db), db, []);
            WriteVersion(s, e).0 == World(BuiltRepo(AddRow(db, row)), AddRow(db, row), []) && WriteVersion(s, e).1.Recorded?
  {
    hide AllVersions, Chain, Tagged, CommitOf, VersionOf, TagFor, BuiltRepo, WebVersion, Lawful, IsAncestor, DbOk, PatchMeta, BuildHistory, MaxTag, Overlaid;
    var s := World(BuiltRepo(db), db, []);
    var row := VersionRow(db.current + 1, e.note, e.ts, e.rows);
    BuiltIsInSync(db, 0);
    BuiltGrows(db, row);
    WebCommitReadsBack(db.current + 1, db.meta, e, s.repo.main);
    BuiltPresent(db, db.current + 1);
    WebVersionFits(db.current + 1, db.meta, e);
    PlainBuild(s, WebVersion(db.current + 1, db.meta, e));
  }

  lemma BuiltPresent(db: Db, n: nat)
    ensures BuiltRepo(db).present && !Overlaid(BuiltRepo(db).tags, TagFor(n))
  {
    hide AllVersions, Chain, Tagged, TagFor;
    OverlaidTagged(map[], AllVersions(db), Chain(AllVersions(db), None, Carry), TagFor(n));
  }

  /** One version on a lawful main, with nothing failing. */
  lemma PlainBuild(s: World, v: VersionData)
    requires s.plan == [] && s.repo.main.Some? && Lawful(s.repo.main.value.tree) && !Overlaid(s.repo.tags, TagFor(v.version))
    ensures var c := CommitOf(v, s.repo.main, Carry);
            BuildHistory(s, [v], s.repo.main, Carry)
            == (s.(repo := s.repo.(main := Some(c), tags := s.repo.tags[TagFor(v.version) := c])), Moved)
  {
    hide CommitOf, TagFor, BuildHistory, Lawful, IsAncestor, UpdateMain, BuildTree, Overlaid;
    var c := CommitOf(v, s.repo.main, Carry);
    OneBuild(s, v, Carry);
    CommitParent(v, s.repo.main, Carry);
    CarryKeepsFiles(v, s.repo.main.value.tree);
    StandsOnParent(c, s.repo.main.value);
    MainMoves(s, c);
  }

  lemma StandsOnParent(c: Commit, parent: Commit)
    requires FirstParent(c) == Some(parent)
    ensures IsAncestor(parent, c)
  {
    ParentIsAncestor(c, 0);
  }

  /** The world after some edits, each written without failures. */
  ghost function Grown(w: World, edits: seq<Edit>): World {
    if edits == [] then w else CommitWebVersion(Grown(w, edits[..|edits| - 1]), edits[|edits| - 1], 0).0
  }

  ghost predicate AllPlain(w: World, edits: seq<Edit>) {
    forall i :: 0 <= i < |edits| ==> Plain(Grown(w, edits[..i]).db, edits[i]) && Grown(w, edits[..i]).db.current < MAX_I32
  }

  lemma WebBuilds(db: Db, e: Edit)
    requires DbOk(db) && db.current < MAX_I32 && Plain(db, e)
    ensures var next := CommitWebVersion(World(BuiltRepo(db), db, []), e, 0).0;
            && DbOk(next.db) && next.db.current == db.current + 1 && next.db.rows[..|db.rows|] == db.rows
            && next == World(BuiltRepo(next.db), next.db, [])
  {
    hide Sync, WriteVersion, BuiltRepo, Plain, DbOk, Lawful;
    BuiltIsInSync(db, 0);
    WriteBuilds(db, e);
    CommittedDb(db, VersionRow(db.current + 1, e.note, e.ts, e.rows), db.meta);
  }

  /** A repository grown by any number of web edits has the same commits, the same tags and the same main as one
      built at once from the rows those edits left in the database. */
  lemma {:induction false} GrownIsBuilt(db: Db, edits: seq<Edit>)
    requires DbOk(db) && db.current < MAX_I32 && AllPlain(World(BuiltRepo(db), db, []), edits)
    ensures var g := Grown(World(BuiltRepo(db), db, []), edits);
            && DbOk(g.db) && g.db.current == db.current + |edits|
            && g == World(BuiltRepo(g.db), g.db, [])
            && (g.db.current < MAX_I32 ==> Bootstrap(World(NO_REPO, g.db, [])).0 == g)
  {
    hide BuiltRepo, DbOk, CommitWebVersion, Plain, Bootstrap;
    var w := World(BuiltRepo(db), db, []);
    if edits != [] {
      var n := |edits| - 1;
      forall i | 0 <= i < n ensures edits[..n][..i] == edits[..i] {}
      GrownIsBuilt(db, edits[..n]);
      assert edits[..n] == edits[..|edits| - 1];
      WebBuilds(Grown(w, edits[..n]).db, edits[n]);
    }
    var g := Grown(w, edits);
    if g.db.current < MAX_I32 {
      BootstrapBuilds(g.db);
    }
  }
}

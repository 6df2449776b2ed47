/** Crash recovery: every state a crash can leave is one that a single fault-free alignment heals. */
module Recovery {
  import opened Wrappers
  import opened Text
  import opened Canon
  import opened Rows
  import opened Tree
  import opened AuthoredSets
  import opened Commits
  import opened Protocol
  import opened Mechanics
  import opened Safety
  import opened Settle

  // ---- the invariant --------------------------------------------------------------------------

  /** The version rows are exactly 1..current. */
  predicate DbOk(db: Db) {
    && 1 <= db.current == |db.rows|
    && forall i :: 0 <= i < |db.rows| ==> db.rows[i].version == i + 1
  }

  /** There are numbers left for the versions of the next operation. */
  predicate Room(db: Db) {
    db.current + 3 <= MAX_I32
  }

  predicate IsVersionTag(name: string) {
    VersionOfTag(name).Some?
  }

  /** A history: a lawful tip, and version tags under their own names. */
  ghost predicate Core(repo: Repo) {
    && repo.present && repo.main.Some? && Lawful(repo.main.value.tree)
    && CanonTags(repo.tags)
  }

  /** A history that is not more than one version ahead of the database, and then by a projectable tip. */
  ghost predicate Live(repo: Repo, current: nat) {
    && Core(repo)
    && MaxTag(repo.tags) <= current + 1
    && (MaxTag(repo.tags) == current + 1 ==>
          && TagFor(current + 1) in repo.tags && repo.main == Some(repo.tags[TagFor(current + 1)])
          && Projects(repo.main.value))
  }

  /** Nothing was ever written to git. */
  ghost predicate Fresh(repo: Repo) {
    && repo.main.None? && RepoOk(repo)
    && forall name :: name in repo.tags ==> !IsVersionTag(name)
  }

  ghost predicate Inv(w: World) {
    DbOk(w.db) && (Fresh(w.repo) || Live(w.repo, w.db.current))
  }

  /** Git and the database agree, and the tag of the current version is on the tip. */
  ghost predicate Aligned(w: World) {
    && Inv(w)
    && w.repo.main.Some? && MaxTag(w.repo.tags) == w.db.current
    && TagFor(w.db.current) in w.repo.tags && w.repo.main == Some(w.repo.tags[TagFor(w.db.current)])
  }

  // ---- steps on the history -------------------------------------------------------------------

  lemma FreshMax(repo: Repo)
    requires Fresh(repo)
    ensures MaxTag(repo.tags) == 0 && CanonTags(repo.tags)
  {
    hide MaxTag, VersionOfTag;
    MaxTagIs(repo.tags, 0);
  }

  /** A version tag keeps the names in order. */
  lemma CoreTag(repo: Repo, n: nat, c: Commit)
    requires Core(repo) && n <= MAX_I32
    ensures Core(repo.(tags := repo.tags[TagFor(n) := c]))
    ensures MaxTag(repo.tags[TagFor(n) := c]) == Larger(MaxTag(repo.tags), n)
  {
    hide MaxTag, VersionOfTag, TagFor, Lawful;
    TagForReads(n);
    MaxTagInsert(repo.tags, n, c);
  }

  lemma {:induction false} CoreTagged(repo: Repo, versions: seq<VersionData>, commits: seq<Commit>, have: nat)
    requires Core(repo) && |versions| == |commits| && Ascending(versions, have)
    ensures Core(repo.(tags := Tagged(repo.tags, versions, commits)))
  {
    hide MaxTag, TagFor, Core, Tagged;
    if versions == [] {
      TaggedNone(repo.tags);
    } else {
      var n := |versions| - 1;
      CoreTagged(repo, versions[..n], commits[..n], have);
      TaggedNext(repo.tags, versions, commits);
      CoreTag(repo.(tags := Tagged(repo.tags, versions[..n], commits[..n])), versions[n].version, commits[n]);
    }
  }

  /** Main moving to a lawful commit. */
  lemma CoreMove(repo: Repo, tip: Commit)
    requires (Core(repo) || Fresh(repo)) && Lawful(tip.tree)
    ensures Core(repo.(present := true, main := Some(tip)))
  {
    hide VersionOfTag, TagFor, Lawful;
  }

  lemma TipIsSome(repo: Repo)
    requires Core(repo)
    ensures repo.main.Some? && repo.present
  {
  }

  // ---- the operations keep the invariant, wherever they stop ----------------------------------

  /** `versions` are the versions have + 1 to current. */
  predicate Missing(versions: seq<VersionData>, have: nat, current: nat) {
    && have + |versions| == current && versions != []
    && forall i :: 0 <= i < |versions| ==> versions[i].version == have + 1 + i
  }

  lemma {:induction false} VersionsAboveMissing(meta: Meta, rows: seq<VersionRow>, have: nat)
    requires forall i :: 0 <= i < |rows| ==> rows[i].version == i + 1
    ensures have >= |rows| ==> VersionsAbove(meta, rows, have) == []
    ensures have < |rows| ==> Missing(VersionsAbove(meta, rows, have), have, |rows|)
  {
    hide VersionOf;
    if rows != [] {
      var n := |rows| - 1;
      VersionsAboveMissing(meta, rows[..n], have);
      VersionOfNumber(meta, rows[n]);
    }
  }

  lemma AllVersionsMissing(db: Db)
    requires DbOk(db)
    ensures Missing(AllVersions(db), 0, db.current)
  {
    hide VersionOf;
    forall i | 0 <= i < |db.rows| ensures AllVersions(db)[i].version == i + 1 {
      VersionOfNumber(db.meta, db.rows[i]);
    }
  }

  lemma DbIsRowsOk(db: Db)
    requires DbOk(db) && db.current < MAX_I32
    ensures RowsOk(db) && RowsBelow(db)
  {
  }

  lemma MissingAscends(versions: seq<VersionData>, have: nat, current: nat)
    requires Missing(versions, have, current) && current <= MAX_I32
    ensures Ascending(versions, have)
  {
  }

  /** Wherever a crash stops the tagging, the state stays healable. */
  lemma TagAllLive(w: World, versions: seq<VersionData>, commits: seq<Commit>)
    requires Core(w.repo) && Missing(versions, MaxTag(w.repo.tags), w.db.current) && |versions| == |commits| && w.db.current <= MAX_I32
    ensures var (next, ok) := TagAll(w, versions, commits);
            && Live(next.repo, w.db.current) && next.db == w.db && next.repo.main == w.repo.main
            && MaxTag(next.repo.tags) <= w.db.current && (ok ==> MaxTag(next.repo.tags) == w.db.current)
  {
    hide MaxTag, TagFor, Tagged, Core, TagAll, Ascending, Projects, Settable;
    var have := MaxTag(w.repo.tags);
    var k := TagAllSetsPrefix(w, versions, commits);
    MissingAscends(versions, have, w.db.current);
    AscendingPrefix(versions, have, k);
    CoreTagged(w.repo, versions[..k], commits[..k], have);
    TaggedMax(w.repo.tags, versions[..k], commits[..k], have);
  }

  lemma AscendingPrefix(versions: seq<VersionData>, have: nat, k: nat)
    requires Ascending(versions, have) && k <= |versions|
    ensures Ascending(versions[..k], have)
  {
  }

  /** What is left of a history whose main has not moved. */
  lemma UnmovedLive(w: World, tip: Commit, expected: Option<Commit>)
    requires !UpdateMain(w, tip, expected).1.Moved?
    ensures UpdateMain(w, tip, expected).0.repo == w.repo && UpdateMain(w, tip, expected).0.db == w.db
  {
    hide Lawful, IsAncestor;
  }

  lemma BuildMissingLive(w: World, versions: seq<VersionData>)
    requires Live(w.repo, w.db.current) && Missing(versions, MaxTag(w.repo.tags), w.db.current) && w.db.current <= MAX_I32
    ensures var (next, result) := BuildHistory(w, versions, w.repo.main, Carry);
            && Live(next.repo, w.db.current) && next.db == w.db
            && MaxTag(next.repo.tags) <= w.db.current && (result.Moved? ==> MaxTag(next.repo.tags) == w.db.current)
  {
    hide MaxTag, TagFor, Core, Live, TagAll, Chain, UpdateMain, Lawful;
    LiveIsCore(w.repo, w.db.current);
    var chain := Chain(versions, w.repo.main, Carry);
    var tip := chain[|chain| - 1];
    if UpdateMain(w, tip, w.repo.main).1.Moved? {
      MovedCore(w, tip);
      TagAllLive(UpdateMain(w, tip, w.repo.main).0, versions, chain);
    } else {
      UnmovedLive(w, tip, w.repo.main);
    }
  }

  /** Main moved by the single point: the history goes on. */
  lemma MovedCore(w: World, tip: Commit)
    requires Core(w.repo) && UpdateMain(w, tip, w.repo.main).1.Moved?
    ensures UpdateMain(w, tip, w.repo.main).0 == Spent(w).(repo := w.repo.(main := Some(tip)))
    ensures Core(w.repo.(main := Some(tip))) && Lawful(tip.tree) && IsAncestor(w.repo.main.value, tip)
  {
    hide Lawful, IsAncestor, CanonTags;
  }

  lemma AppendMissingLive(w: World, versions: seq<VersionData>)
    requires Live(w.repo, w.db.current) && Missing(versions, MaxTag(w.repo.tags), w.db.current) && w.db.current <= MAX_I32
    ensures var (next, ok) := AppendMissing(w, versions);
            && Live(next.repo, w.db.current) && next.db == w.db
            && MaxTag(next.repo.tags) <= w.db.current && (ok ==> MaxTag(next.repo.tags) == w.db.current)
  {
    hide MaxTag, TagFor, Core, TagAll, BuildHistory, TailCommits, Projects, Live;
    LiveIsCore(w.repo, w.db.current);
    if TailCommits(w.repo.main, versions).Some? {
      TagAllLive(w, versions, TailCommits(w.repo.main, versions).value);
    } else {
      BuildMissingLive(w, versions);
    }
  }

  lemma LiveIsCore(repo: Repo, current: nat)
    requires Live(repo, current)
    ensures Core(repo) && repo.main.Some? && repo.present
  {
    hide MaxTag, TagFor, Projects, Lawful, CanonTags;
  }

  lemma BootstrapLive(w: World)
    requires DbOk(w.db) && Fresh(w.repo) && w.db.current <= MAX_I32
    ensures var (next, outcome) := Bootstrap(w);
            && next.db == w.db && (Fresh(next.repo) || Live(next.repo, w.db.current))
            && outcome.Some? && (outcome == Some(SyncFailed) || outcome.value.Bootstrapped?)
            && (outcome != Some(SyncFailed) ==> Live(next.repo, w.db.current) && MaxTag(next.repo.tags) == w.db.current)
  {
    hide MaxTag, TagFor, Core, TagAll, Lawful, AllVersions, Live, Chain, UpdateMain, Fresh;
    assert w.db.rows != [] by { RowsExist(w.db); }
    AllVersionsMissing(w.db);
    FreshMax(w.repo);
    var (ready, ok) := InitBare(w);
    FreshStill(w.repo);
    if ok {
      var versions := AllVersions(w.db);
      var chain := Chain(versions, None, Carry);
      var tip := chain[|chain| - 1];
      var (moved, result) := UpdateMain(ready, tip, None);
      if result.Moved? {
        BornCore(ready, tip);
        TagAllLive(moved, versions, chain);
      } else {
        UnmovedLive(ready, tip, None);
      }
    }
  }

  lemma RowsExist(db: Db)
    requires DbOk(db)
    ensures db.rows != []
  {
  }

  lemma FreshStill(repo: Repo)
    requires Fresh(repo)
    ensures Fresh(repo.(present := true)) && repo.main.None?
  {
  }

  lemma BornCore(w: World, tip: Commit)
    requires Fresh(w.repo) && w.repo.present && UpdateMain(w, tip, None).1.Moved?
    ensures UpdateMain(w, tip, None).0 == Spent(w).(repo := w.repo.(main := Some(tip)))
    ensures Core(w.repo.(main := Some(tip)))
  {
    hide Lawful, IsAncestor, CanonTags, Fresh;
    CoreMove(w.repo, tip);
    assert w.repo.(present := true, main := Some(tip)) == w.repo.(main := Some(tip));
  }

  lemma OneMoreDb(w: World, next: World)
    requires DbOk(w.db) && OneMore(w, next)
    ensures DbOk(next.db)
  {
    hide TagFor;
  }

  /** The history after the tip became the next version, whether its tag was set or not. */
  lemma NextVersionLive(repo: Repo, current: nat, tagged: bool)
    requires Live(repo, current) && current < MAX_I32
    ensures Live(if tagged then repo.(tags := repo.tags[TagFor(current + 1) := repo.main.value]) else repo, current + 1)
    ensures MaxTag(repo.tags[TagFor(current + 1) := repo.main.value]) == current + 1
  {
    hide MaxTag, TagFor, Core, Projects;
    TipIsSome(repo);
    CoreTag(repo, current + 1, repo.main.value);
  }

  /** What a projection of a history leaves, whatever failed. */
  ghost predicate Advanced(w: World, next: World, result: Projection) {
    && DbOk(next.db) && Live(next.repo, next.db.current)
    && (result.Err? ==> next == Spent(w))
    && (result == Ok(None) ==> next == w)
    && (next.db == w.db ==> next.repo == w.repo)
    && (next.db.current == w.db.current ==> next.db == w.db && !(result.Ok? && result.value.Some?))
    && (next.db.current != w.db.current ==>
          && result == Ok(Some(next.db.current)) && next.db.current == w.db.current + 1
          && MaxTag(w.repo.tags) <= MaxTag(next.repo.tags) <= next.db.current
          && (MaxTag(next.repo.tags) == next.db.current ==> TagOnTip(next.repo, next.db.current)))
  }

  lemma ProjectPushedLive(w: World, now: int)
    requires DbOk(w.db) && Live(w.repo, w.db.current) && w.db.current < MAX_I32
    ensures Advanced(w, ProjectPushed(w, now).0, ProjectPushed(w, now).1)
  {
    hide MaxTag, TagFor, Live, DbOk, ProjectPushed, Projects;
    ProjectPushedShape(w, now);
    LiveIsCore(w.repo, w.db.current);
    LiveBound(w.repo, w.db.current);
    var next := ProjectPushed(w, now).0;
    if OneMore(w, next) {
      OneMoreDb(w, next);
      NextVersionLive(w.repo, w.db.current, true);
      NextVersionLive(w.repo, w.db.current, false);
    }
  }

  lemma LiveBound(repo: Repo, current: nat)
    requires Live(repo, current)
    ensures MaxTag(repo.tags) <= current + 1
    ensures MaxTag(repo.tags) == current + 1 ==>
              && TagFor(current + 1) in repo.tags && repo.main == Some(repo.tags[TagFor(current + 1)])
              && Projects(repo.main.value)
  {
    hide MaxTag, TagFor, Projects, Core;
  }

  // ---- the alignment --------------------------------------------------------------------------

  /** What an alignment of a healable state leaves, whatever failed on the way. */
  ghost predicate Healable(before: World, after: World, outcome: SyncOutcome) {
    && DbOk(after.db) && Live(after.repo, after.db.current)
    && !outcome.Conflict?
    && (!outcome.SyncFailed? ==> MaxTag(after.repo.tags) <= after.db.current <= MaxTag(after.repo.tags) + 1)
    && (outcome.SyncFailed? ==> after.db == before.db)
  }

  lemma TipTagPresent(repo: Repo, current: nat)
    requires Live(repo, current) && MaxTag(repo.tags) == current && current > 0
    ensures TagFor(current) in repo.tags
  {
    hide MaxTag, TagFor, Projects, Lawful;
    MaxTagPresent(repo.tags);
  }

  lemma AlignLive(w: World, now: int)
    requires DbOk(w.db) && Live(w.repo, w.db.current) && w.db.current < MAX_I32
    ensures var (next, outcome) := Align(w, MaxTag(w.repo.tags), now);
            Healable(w, next, outcome)
  {
    hide MaxTag, TagFor, Core, Live, DbOk, ProjectPushed, AppendMissing, VersionsAbove, Missing;
    LiveBound(w.repo, w.db.current);
    var have, current := MaxTag(w.repo.tags), w.db.current;
    if have < current {
      MissingRows(w.db, have);
      AppendMissingLive(w, VersionsAbove(w.db.meta, w.db.rows, have));
    } else {
      ProjectPushedLive(w, now);
      if have == current + 1 {
        assert TagOnTip(w.repo, have);
        ProjectsIsNotNone(w, now);
      }
    }
  }

  lemma MissingRows(db: Db, have: nat)
    requires DbOk(db) && have < db.current
    ensures Missing(VersionsAbove(db.meta, db.rows, have), have, db.current)
    ensures VersionsAbove(db.meta, db.rows, have) != []
  {
    VersionsAboveMissing(db.meta, db.rows, have);
  }

  lemma ProjectsIsNotNone(w: World, now: int)
    requires w.repo.main.Some? && Projects(w.repo.main.value)
    ensures ProjectPushed(w, now).1 != Ok(None)
  {
    hide TagFor, ProjectedRow, UpdateMeta, ManifestOf, Overlaid;
  }

  lemma SyncOfLive(w: World, now: int)
    requires Live(w.repo, w.db.current)
    ensures Sync(w, now) == Align(w, MaxTag(w.repo.tags), now)
  {
    hide MaxTag, TagFor, Align, Core, Sync, Projects;
    TipIsSome(w.repo);
    SyncIsAlign(w, now);
  }

  lemma SyncOfFresh(w: World, now: int)
    requires DbOk(w.db) && Fresh(w.repo)
    ensures Bootstrap(w).1.Some? && Sync(w, now) == (Bootstrap(w).0, Bootstrap(w).1.value)
  {
    hide MaxTag, TagFor, Align, BuildHistory, Fresh;
    FreshMax(w.repo);
    FreshStill(w.repo);
    RowsExist(w.db);
  }

  /** The alignment keeps the invariant wherever it stops; it never answers with a conflict, and when it does not
      fail at most the tag of the current version is missing. */
  lemma SyncLive(w: World, now: int)
    requires Inv(w) && w.db.current < MAX_I32
    ensures var (next, outcome) := Sync(w, now);
            && Inv(next) && !outcome.Conflict?
            && (!outcome.SyncFailed? ==> Live(next.repo, next.db.current) && next.db.current <= MaxTag(next.repo.tags) + 1 <= next.db.current + 1)
            && (outcome.SyncFailed? ==> next.db == w.db)
  {
    hide MaxTag, TagFor, Live, Fresh, DbOk, Sync, Align, Bootstrap;
    if Live(w.repo, w.db.current) {
      SyncOfLive(w, now);
      AlignLive(w, now);
    } else {
      SyncOfFresh(w, now);
      BootstrapLive(w);
    }
  }

  // ---- recovery -------------------------------------------------------------------------------

  /** The tip of main was not made into a version and cannot be. */
  ghost predicate TipStranded(w: World) {
    && Live(w.repo, w.db.current) && MaxTag(w.repo.tags) == w.db.current
    && !TagOnTip(w.repo, w.db.current) && !Projects(w.repo.main.value)
  }

  /** Git can make every name that an alignment of these stores sets. */
  ghost predicate Makeable(w: World) {
    !Unmakeable(w) && !Mislaid(w)
  }

  lemma AlignedIsTagged(w: World)
    requires Aligned(w)
    ensures w.repo.present && w.repo.main.Some? && MaxTag(w.repo.tags) == w.db.current && TagOnTip(w.repo, w.db.current)
  {
    hide MaxTag, TagFor, DbOk, Projects, Lawful, CanonTags;
  }

  lemma AlignRecovers(w: World, now: int)
    requires w.plan == [] && DbOk(w.db) && Live(w.repo, w.db.current) && w.db.current + 1 < MAX_I32
    ensures var (next, outcome) := Align(w, MaxTag(w.repo.tags), now);
            && next.plan == []
            && (TipStranded(w) ==> next == w && outcome == TipNotVersioned(w.db.current))
            && (!TipStranded(w) ==> !outcome.TipNotVersioned? && (Aligned(next) <==> Makeable(w)))
  {
    hide MaxTag, Align, Live, DbOk, Aligned, Makeable, TipStranded;
    LiveBound(w.repo, w.db.current);
    if MaxTag(w.repo.tags) < w.db.current {
      BehindIsNotStranded(w);
      CatchUpRecovers(w, now);
    } else {
      ProjectionRecovers(w, now);
    }
  }

  lemma BehindIsNotStranded(w: World)
    requires MaxTag(w.repo.tags) < w.db.current
    ensures !TipStranded(w)
  {
    hide MaxTag, Live, TagOnTip, Projects;
  }

  /** Level counters, or git one ahead: the tip is the current version, becomes the next one, or is left alone. */
  lemma ProjectionRecovers(w: World, now: int)
    requires w.plan == [] && DbOk(w.db) && Live(w.repo, w.db.current) && w.db.current + 1 < MAX_I32
    requires w.db.current <= MaxTag(w.repo.tags)
    ensures var (next, outcome) := Align(w, MaxTag(w.repo.tags), now);
            && next.plan == []
            && (TipStranded(w) ==> next == w && outcome == TipNotVersioned(w.db.current))
            && (!TipStranded(w) ==> !outcome.TipNotVersioned? && (Aligned(next) <==> Makeable(w)))
  {
    hide MaxTag, TagFor, Live, DbOk, ProjectPushed, Projects, Overlaid, Fresh, Unmakeable, AppendMissing, Core, TagOnTip;
    LiveBound(w.repo, w.db.current);
    LiveIsCore(w.repo, w.db.current);
    var current := w.db.current;
    DbIsPositive(w.db);
    ProjectionIsDecided(w, now);
    AheadIsMakeable(w);
    TagOnTipWhenAhead(w.repo, current);
    ProjectedIsSettled(w, now, now);
    ProjectPushedLive(w, now);
    if MaxTag(w.repo.tags) == current {
      TipTagPresent(w.repo, current);
      OnTipMeans(w.repo, current);
    }
    var next := ProjectPushed(w, now).0;
    if next.db.current == current + 1 && MaxTag(next.repo.tags) == current + 1 {
      TipTagPresent(next.repo, current + 1);
      OnTipMeans(next.repo, current + 1);
    }
  }

  lemma AheadIsMakeable(w: World)
    requires w.db.current <= MaxTag(w.repo.tags)
    ensures !Unmakeable(w)
  {
    hide MaxTag, Settable, VersionsAbove;
  }

  lemma TagOnTipWhenAhead(repo: Repo, current: nat)
    requires Live(repo, current)
    ensures MaxTag(repo.tags) == current + 1 ==> TagFor(current + 1) in repo.tags && TagOnTip(repo, current + 1)
  {
    hide MaxTag, TagFor, Projects, Core;
  }

  lemma OnTipMeans(repo: Repo, version: nat)
    requires repo.main.Some? && TagFor(version) in repo.tags
    ensures TagOnTip(repo, version) <==> repo.main == Some(repo.tags[TagFor(version)])
  {
    hide TagFor;
  }

  /** Catch-up aligns the stores exactly when git can make the missing names. */
  lemma CatchUpRecovers(w: World, now: int)
    requires w.plan == [] && DbOk(w.db) && Live(w.repo, w.db.current) && w.db.current + 1 < MAX_I32
    requires MaxTag(w.repo.tags) < w.db.current
    ensures var (next, outcome) := Align(w, MaxTag(w.repo.tags), now);
            next.plan == [] && !outcome.TipNotVersioned? && (Aligned(next) <==> Makeable(w))
  {
    hide MaxTag, TagFor, Core, Live, DbOk, Fresh, ProjectPushed, AppendMissing, VersionsAbove, Missing, Projects, LastOnTip, Ascending,
      Settable, Overlaid, Carries, MustBuild, Sync, TagOnTip, RowsOk, RowsBelow;
    var have, current := MaxTag(w.repo.tags), w.db.current;
    LiveIsCore(w.repo, current);
    AlignLive(w, now);
    MissingRows(w.db, have);
    var versions := Above(w);
    MissingAscends(versions, have, current);
    CarriesLawful(w.repo);
    DbIsRowsOk(w.db);
    AppendMissingEnds(w, now);
    var (next, ok) := AppendMissing(w, versions);
    if Settable(w.repo.tags, versions) {
      AppendMissingCalm(w, versions, have);
      CaughtUp(next.repo, versions, have, current);
    } else if Aligned(next) {
      AlignedIsTagged(next);
      OnTipIsInSync(next, now);
    }
  }

  lemma DbIsPositive(db: Db)
    requires DbOk(db)
    ensures db.current >= 1
  {
  }

  lemma CarriesLawful(repo: Repo)
    requires Core(repo)
    ensures Carries(repo.main)
  {
    hide Lawful, CanonTags, FilesLawful;
    LawfulFiles(repo.main.value.tree);
  }

  lemma CaughtUp(repo: Repo, versions: seq<VersionData>, have: nat, current: nat)
    requires Missing(versions, have, current)
    ensures LastOnTip(repo, versions) ==>
              MaxTag(repo.tags) == current && TagFor(current) in repo.tags && repo.main == Some(repo.tags[TagFor(current)])
  {
    hide MaxTag, TagFor;
  }

  lemma ProjectionIsDecided(w: World, now: int)
    requires w.plan == [] && w.repo.main.Some?
    ensures ProjectPushed(w, now).1 == Ok(None) <==> !Projects(w.repo.main.value)
    ensures !ProjectPushed(w, now).1.Err?
  {
    hide TagFor, ProjectedRow, UpdateMeta, ManifestOf, Overlaid;
  }

  /** One fault-free alignment heals every healable state in which git can make the names it sets, and no other: the
      highest tag is then the current version and stands on the tip of main. A tip that carries no readable canon is
      left alone. */
  lemma SyncRecovers(w: World, now: int)
    requires w.plan == [] && Inv(w) && w.db.current + 1 < MAX_I32
    ensures TipStranded(w) ==> Sync(w, now) == (w, TipNotVersioned(w.db.current))
    ensures !TipStranded(w) ==> !Sync(w, now).1.TipNotVersioned? && (Aligned(Sync(w, now).0) <==> Makeable(w))
    ensures Grew(w.db, Sync(w, now).0.db) && Kept(w.repo, Sync(w, now).0.repo)
  {
    hide MaxTag, TagFor, Live, Fresh, DbOk, Sync, Align, Bootstrap, Kept, Grew, RowsOk, RowsBelow, Projects, Makeable;
    DbIsRowsOk(w.db);
    InvRepoOk(w);
    SyncKeeps(w, now);
    if Live(w.repo, w.db.current) {
      SyncOfLive(w, now);
      AlignRecovers(w, now);
    } else {
      SyncOfFresh(w, now);
      BootstrapRecovers(w);
    }
  }

  lemma InvRepoOk(w: World)
    requires Inv(w)
    ensures RepoOk(w.repo)
  {
    hide MaxTag, TagFor, CanonTags, Lawful, Projects;
  }

  lemma BootstrapRecovers(w: World)
    requires w.plan == [] && DbOk(w.db) && Fresh(w.repo) && w.db.current + 1 < MAX_I32
    ensures Bootstrap(w).1.Some? && !Bootstrap(w).1.value.TipNotVersioned?
    ensures Aligned(Bootstrap(w).0) <==> Makeable(w)
  {
    hide MaxTag, TagFor, Live, Fresh, DbOk, BuildHistory, AllVersions, LastOnTip, Ascending, Missing, Settable, VersionsAbove, Carries,
      RowsOk, RowsBelow, Sync;
    BootstrapLive(w);
    RowsExist(w.db);
    FreshMax(w.repo);
    FreshStill(w.repo);
    AllVersionsMissing(w.db);
    MissingAscends(AllVersions(w.db), 0, w.db.current);
    DbIsRowsOk(w.db);
    DbIsPositive(w.db);
    AllIsAbove(w.db);
    BootstrapSettles(w, 0);
    NothingCarried();
    var ready := InitBare(w).0;
    var next := Bootstrap(w).0;
    if Settable(w.repo.tags, AllVersions(w.db)) {
      BuildHistoryCalm(ready, AllVersions(w.db), None, 0);
      CaughtUp(next.repo, AllVersions(w.db), 0, w.db.current);
    } else if Aligned(next) {
      AlignedIsTagged(next);
      OnTipIsInSync(next, 0);
    }
  }
}

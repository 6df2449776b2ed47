/** What an alignment never does, in any state of the two stores and under any failures. */
module Safety {
  import opened Wrappers
  import opened Text
  import opened Canon
  import opened Rows
  import opened Tree
  import opened Commits
  import opened Protocol
  import opened Mechanics

  /** No ref is lost, no tag is moved, main only goes to a descendant. */
  ghost predicate Kept(a: Repo, b: Repo) {
    && (forall name :: name in a.tags ==> name in b.tags && b.tags[name] == a.tags[name])
    && (a.main.Some? ==> b.main.Some? && IsAncestor(a.main.value, b.main.value))
    && a.branches == b.branches
    && (a.present ==> b.present)
  }

  /** The version rows stay as they are; at most one is added, together with the counter. */
  predicate Grew(a: Db, b: Db) {
    && a.rows <= b.rows
    && ((b.rows == a.rows && b.current == a.current)
        || (|b.rows| == |a.rows| + 1 && b.current == a.current + 1 && b.rows[|a.rows|].version == b.current))
  }

  lemma KeptSelf(a: Repo)
    ensures Kept(a, a)
  {
  }

  lemma KeptTransitive(a: Repo, b: Repo, c: Repo)
    requires Kept(a, b) && Kept(b, c)
    ensures Kept(a, c)
  {
    hide IsAncestor;
    if a.main.Some? {
      AncestorTransitive(a.main.value, b.main.value, c.main.value);
    }
  }

  /** The numbers of Postgres: versions are positive, ascending, and there is room for the next one. */
  predicate RowsOk(db: Db) {
    && db.current < MAX_I32
    && (forall i :: 0 <= i < |db.rows| ==> 1 <= db.rows[i].version <= MAX_I32)
    && (forall i, j :: 0 <= i < j < |db.rows| ==> db.rows[i].version < db.rows[j].version)
  }

  lemma VersionOfNumber(meta: Meta, row: VersionRow)
    ensures VersionOf(meta, row).version == row.version
  {
  }

  lemma {:induction false} VersionsAboveCome(meta: Meta, rows: seq<VersionRow>, have: nat, k: nat)
    requires k < |VersionsAbove(meta, rows, have)|
    ensures exists i :: 0 <= i < |rows| && VersionsAbove(meta, rows, have)[k] == VersionOf(meta, rows[i]) && rows[i].version > have
  {
    hide VersionOf;
    var n := |rows| - 1;
    var front := VersionsAbove(meta, rows[..n], have);
    if k < |front| {
      VersionsAboveCome(meta, rows[..n], have, k);
      var i :| 0 <= i < n && front[k] == VersionOf(meta, rows[..n][i]) && rows[..n][i].version > have;
      assert rows[i].version > have;
    } else {
      assert rows[n].version > have;
    }
  }

  lemma {:induction false} VersionsAboveAscend(meta: Meta, rows: seq<VersionRow>, have: nat)
    requires forall i :: 0 <= i < |rows| ==> rows[i].version <= MAX_I32
    requires forall i, j :: 0 <= i < j < |rows| ==> rows[i].version < rows[j].version
    ensures Ascending(VersionsAbove(meta, rows, have), have)
    ensures VersionsAbove(meta, rows, have) != [] <==> rows != [] && rows[|rows| - 1].version > have
    ensures VersionsAbove(meta, rows, have) != [] ==>
              VersionsAbove(meta, rows, have)[|VersionsAbove(meta, rows, have)| - 1].version == rows[|rows| - 1].version
  {
    hide VersionOf;
    if rows != [] {
      var n := |rows| - 1;
      var front := VersionsAbove(meta, rows[..n], have);
      VersionsAboveAscend(meta, rows[..n], have);
      VersionOfNumber(meta, rows[n]);
      forall k | 0 <= k < |front| ensures front[k].version < rows[n].version {
        VersionsAboveCome(meta, rows[..n], have, k);
        var i :| 0 <= i < n && front[k] == VersionOf(meta, rows[..n][i]) && rows[..n][i].version > have;
        VersionOfNumber(meta, rows[i]);
      }
    }
  }

  lemma AllVersionsAscend(db: Db)
    requires RowsOk(db)
    ensures Ascending(AllVersions(db), 0)
  {
    hide LoadSteps, ValidKind, ShownHeader;
  }

  // ---- the building blocks --------------------------------------------------------------------

  lemma UpdateMainKeeps(w: World, tip: Commit, expected: Option<Commit>)
    ensures var (next, result) := UpdateMain(w, tip, expected);
            && Kept(w.repo, next.repo) && next.db == w.db
            && next.repo.tags == w.repo.tags
            && (result.Moved? ==> next.repo == w.repo.(main := Some(tip)))
            && (!result.Moved? ==> next.repo == w.repo)
            && (w.plan == [] ==> next.plan == [] && !result.GitFailed?)
  {
    hide IsAncestor, Lawful;
    if w.repo.main.Some? {
      Reflexive(w.repo.main.value);
    }
  }

  lemma TagAllKeeps(w: World, versions: seq<VersionData>, commits: seq<Commit>, have: nat)
    requires |versions| == |commits| && Ascending(versions, have) && MaxTag(w.repo.tags) <= have
    ensures var (next, ok) := TagAll(w, versions, commits);
            Kept(w.repo, next.repo) && next.db == w.db && next.repo.main == w.repo.main
  {
    hide IsAncestor, MaxTag, Tagged, TagAll;
    var k := TagAllSetsPrefix(w, versions, commits);
    TaggedKeeps(w.repo.tags, versions[..k], commits[..k], have);
    if w.repo.main.Some? {
      Reflexive(w.repo.main.value);
    }
  }

  lemma BuildHistoryKeeps(w: World, versions: seq<VersionData>, parent: Option<Commit>, source: Source, have: nat)
    requires Ascending(versions, have) && MaxTag(w.repo.tags) <= have
    ensures var (next, result) := BuildHistory(w, versions, parent, source);
            Kept(w.repo, next.repo) && next.db == w.db
  {
    hide IsAncestor, MaxTag, TagAll, Chain, UpdateMain, Kept, Ascending, Lawful;
    KeptSelf(w.repo);
    var chain := Chain(versions, parent, source);
    if chain != [] {
      UpdateMainKeeps(w, chain[|chain| - 1], parent);
      var (moved, result) := UpdateMain(w, chain[|chain| - 1], parent);
      if result.Moved? {
        TagAllKeeps(moved, versions, chain, have);
        KeptTransitive(w.repo, moved.repo, TagAll(moved, versions, chain).0.repo);
      }
    }
  }

  lemma AppendMissingKeeps(w: World, versions: seq<VersionData>, have: nat)
    requires Ascending(versions, have) && MaxTag(w.repo.tags) <= have
    ensures var (next, ok) := AppendMissing(w, versions);
            Kept(w.repo, next.repo) && next.db == w.db
  {
    hide IsAncestor, MaxTag, TagAll, Kept, Ascending, BuildHistory, TailCommits;
    KeptSelf(w.repo);
    if versions != [] {
      if w.repo.main.Some? && TailCommits(w.repo.main, versions).Some? {
        TagAllKeeps(w, versions, TailCommits(w.repo.main, versions).value, have);
      } else {
        BuildHistoryKeeps(w, versions, w.repo.main, Carry, have);
      }
    }
  }

  /** The tag of the next version is free or stands on the tip already. */
  predicate NextTagFree(w: World) {
    TagFor(w.db.current + 1) in w.repo.tags && w.repo.main.Some? ==> w.repo.tags[TagFor(w.db.current + 1)] == w.repo.main.value
  }

  lemma ProjectPushedKeeps(w: World, now: int)
    requires NextTagFree(w)
    ensures var (next, result) := ProjectPushed(w, now);
            && Kept(w.repo, next.repo) && Grew(w.db, next.db) && next.repo.main == w.repo.main
            && (result == Ok(None) ==> next == w)
  {
    hide IsAncestor, ProjectPushed, Projects, TagFor;
    ProjectPushedShape(w, now);
    if w.repo.main.Some? {
      Reflexive(w.repo.main.value);
    }
  }

  // ---- the alignment --------------------------------------------------------------------------

  lemma AlignKeeps(w: World, now: int)
    requires RowsOk(w.db)
    ensures var (next, outcome) := Align(w, MaxTag(w.repo.tags), now);
            Kept(w.repo, next.repo) && Grew(w.db, next.db)
  {
    hide IsAncestor, MaxTag, AppendMissing, Kept, Ascending, ProjectPushed, VersionsAbove, TagFor;
    KeptSelf(w.repo);
    var have, current := MaxTag(w.repo.tags), w.db.current;
    if have <= current {
      NoTagAbove(w.repo.tags, current + 1);
      ProjectPushedKeeps(w, now);
    }
    if have < current {
      VersionsAboveAscend(w.db.meta, w.db.rows, have);
      AppendMissingKeeps(w, VersionsAbove(w.db.meta, w.db.rows, have), have);
    }
    if have == current + 1 && TagOnTip(w.repo, have) {
      ProjectPushedKeeps(w, now);
    }
  }

  lemma BootstrapKeeps(w: World)
    requires RowsOk(w.db) && MaxTag(w.repo.tags) == 0
    ensures Kept(w.repo, Bootstrap(w).0.repo) && Bootstrap(w).0.db == w.db
    ensures Bootstrap(w).0.repo == w.repo || Bootstrap(w).0.repo.present
  {
    hide IsAncestor, MaxTag, BuildHistory, Kept, Ascending, RowsOk, AllVersions;
    KeptSelf(w.repo);
    AllVersionsAscend(w.db);
    var (ready, ok) := InitBare(w);
    assert Kept(w.repo, ready.repo) by { PresentKeeps(w.repo); }
    if w.db.rows != [] && ok {
      BuildHistoryKeeps(ready, AllVersions(w.db), None, Carry, 0);
      var built := BuildHistory(ready, AllVersions(w.db), None, Carry).0.repo;
      KeptTransitive(w.repo, ready.repo, built);
      StillPresent(ready.repo, built);
    }
  }

  lemma StillPresent(a: Repo, b: Repo)
    requires Kept(a, b)
    ensures a.present ==> b.present
  {
  }

  lemma PresentKeeps(repo: Repo)
    ensures Kept(repo, repo.(present := true))
  {
  }

  /** A repository that is not there holds nothing. */
  predicate RepoOk(repo: Repo) {
    !repo.present ==> repo == NO_REPO
  }

  lemma NoTagsMax()
    ensures MaxTag(map[]) == 0
  {
  }

  /** In every state and under any failures, an alignment loses no ref, moves no tag, moves main only to a
      descendant, keeps every version row and adds at most one version. */
  lemma SyncKeeps(w: World, now: int)
    requires RepoOk(w.repo) && RowsOk(w.db)
    ensures Kept(w.repo, Sync(w, now).0.repo) && Grew(w.db, Sync(w, now).0.db) && RepoOk(Sync(w, now).0.repo)
  {
    hide IsAncestor, MaxTag, Kept, RowsOk, TagFor, Align, Bootstrap, UpdateMain;
    KeptSelf(w.repo);
    var have := MaxTag(w.repo.tags);
    var restore := Smaller(have, w.db.current);
    NoTagsMax();
    AlignKeeps(w, now);
    if have == 0 {
      BootstrapKeeps(w);
    }
    if w.repo.present && w.repo.main.None? && restore > 0 && TagFor(restore) in w.repo.tags {
      var tip := w.repo.tags[TagFor(restore)];
      UpdateMainKeeps(w, tip, None);
      var (restored, result) := UpdateMain(w, tip, None);
      if result.Moved? {
        AlignKeeps(restored, now);
        KeptTransitive(w.repo, restored.repo, Align(restored, have, now).0.repo);
      }
    }
    StillPresent(w.repo, Sync(w, now).0.repo);
  }
}

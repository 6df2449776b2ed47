/** A fault-free alignment settles the two stores: a second one changes nothing. */
module Settle {
  import opened Wrappers
  import opened Text
  import opened Canon
  import opened Rows
  import opened Tree
  import opened AuthoredSets
  import opened Commits
  import opened Protocol
  import opened Mechanics
  import opened Safety

  /** The answers of an alignment that has nothing left to do. */
  predicate Settled(o: SyncOutcome) {
    o.InSync? || o.TipNotVersioned? || o.Conflict?
  }

  /** No version row is above the counter. */
  predicate RowsBelow(db: Db) {
    db.rows != [] ==> db.rows[|db.rows| - 1].version <= db.current
  }

  /** A fault-free catch-up either leaves everything as it was, exactly when the files of main are unlawful, or ends
      with the last version on the tip of main. */
  lemma BuildHistoryCalm(w: World, versions: seq<VersionData>, parent: Option<Commit>, have: nat)
    requires w.plan == [] && versions != [] && Ascending(versions, have) && MaxTag(w.repo.tags) <= have
    requires parent == w.repo.main && Settable(w.repo.tags, versions)
    ensures var (next, result) := BuildHistory(w, versions, parent, Carry);
            && next.plan == [] && next.db == w.db
            && (result.Moved? <==> Carries(parent))
            && (!result.Moved? ==> next == w)
            && (result.Moved? ==> LastOnTip(next.repo, versions) && (w.repo.present ==> next.repo.present))
  {
    hide IsAncestor, MaxTag, TagAll, Chain, Ascending, Lawful, TagFor, CommitOf, BuildTree, Tagged, Line, Settable, Carries;
    var chain := Chain(versions, parent, Carry);
    var tip := chain[|chain| - 1];
    ChainIsLine(versions, parent, Carry);
    LineAncestors(chain, parent, |chain| - 1, |chain| - 1);
    ChainLawful(versions, parent);
    if Lawful(tip.tree) {
      var (moved, _) := UpdateMain(w, tip, parent);
      TagsLand(moved, versions, chain, have);
    }
  }

  /** The last of the versions is the highest tag, and it stands on the tip of main. */
  ghost predicate LastOnTip(repo: Repo, versions: seq<VersionData>)
  {
    && versions != []
    && MaxTag(repo.tags) == versions[|versions| - 1].version
    && TagFor(MaxTag(repo.tags)) in repo.tags
    && repo.main == Some(repo.tags[TagFor(MaxTag(repo.tags))])
  }

  lemma TagsLand(w: World, versions: seq<VersionData>, commits: seq<Commit>, have: nat)
    requires w.plan == [] && versions != [] && |versions| == |commits| && Ascending(versions, have) && MaxTag(w.repo.tags) <= have
    requires Settable(w.repo.tags, versions) && w.repo.main == Some(commits[|commits| - 1])
    ensures var (next, ok) := TagAll(w, versions, commits);
            && ok && next.plan == [] && next.db == w.db && LastOnTip(next.repo, versions)
            && next.repo.present == w.repo.present && next.repo.main == w.repo.main
  {
    hide MaxTag, TagAll, TagFor, Tagged, Settable;
    TagAllComplete(w, versions, commits);
    var n := |versions| - 1;
    TaggedMax(w.repo.tags, versions, commits, have);
    TaggedAt(w.repo.tags, versions, commits, have, n);
  }

  /** Do the versions have to be committed, not just tagged? */
  ghost predicate MustBuild(repo: Repo, versions: seq<VersionData>) {
    repo.main.Some? ==> TailCommits(repo.main, versions).None?
  }

  lemma AppendMissingCalm(w: World, versions: seq<VersionData>, have: nat)
    requires w.plan == [] && versions != [] && Ascending(versions, have) && MaxTag(w.repo.tags) <= have
    requires Settable(w.repo.tags, versions)
    ensures var (next, ok) := AppendMissing(w, versions);
            && next.plan == [] && next.db == w.db
            && (ok <==> !MustBuild(w.repo, versions) || Carries(w.repo.main))
            && (!ok ==> next == w)
            && (ok ==> LastOnTip(next.repo, versions) && (w.repo.present ==> next.repo.present))
  {
    hide MaxTag, TagAll, TagFor, TailCommits, BuildHistory, LastOnTip, Ascending, Settable, Carries;
    if w.repo.main.Some? && TailCommits(w.repo.main, versions).Some? {
      TailIsLine(w.repo.main, versions);
      TagsLand(w, versions, TailCommits(w.repo.main, versions).value, have);
    } else {
      BuildHistoryCalm(w, versions, w.repo.main, have);
    }
  }

  /** Equal counters with the tag on the tip: nothing to do. */
  lemma OnTipIsInSync(w: World, now: int)
    requires w.repo.present && w.repo.main.Some? && MaxTag(w.repo.tags) == w.db.current && TagOnTip(w.repo, w.db.current)
    ensures Sync(w, now) == (w, InSync)
  {
    hide MaxTag, TagFor, TagOnTip;
  }

  /** No rows above the highest tag, which is below the counter: only a human can help. */
  lemma NoRowsIsConflict(w: World, now: int)
    requires w.repo.present && w.repo.main.Some? && MaxTag(w.repo.tags) < w.db.current
    requires VersionsAbove(w.db.meta, w.db.rows, MaxTag(w.repo.tags)) == []
    ensures Sync(w, now) == (w, Conflict(MaxTag(w.repo.tags), w.db.current))
  {
    hide MaxTag, TagFor, VersionsAbove;
  }

  // ---- catch-up -------------------------------------------------------------------------------

  /** The versions of the database above the highest tag. */
  ghost function Above(w: World): seq<VersionData> {
    VersionsAbove(w.db.meta, w.db.rows, MaxTag(w.repo.tags))
  }

  lemma {:induction false} AboveLater(meta: Meta, rows: seq<VersionRow>, have: nat, k: nat)
    requires forall i :: 0 <= i < |rows| ==> rows[i].version <= MAX_I32
    requires forall i, j :: 0 <= i < j < |rows| ==> rows[i].version < rows[j].version
    requires 0 < k <= |VersionsAbove(meta, rows, have)|
    ensures VersionsAbove(meta, rows, have)[k - 1].version >= 0
    ensures VersionsAbove(meta, rows, VersionsAbove(meta, rows, have)[k - 1].version) == VersionsAbove(meta, rows, have)[k..]
  {
    hide VersionOf;
    var n := |rows| - 1;
    var front := VersionsAbove(meta, rows[..n], have);
    var all := VersionsAbove(meta, rows, have);
    VersionsAboveAscend(meta, rows, have);
    VersionOfNumber(meta, rows[n]);
    if k <= |front| {
      AboveLater(meta, rows[..n], have, k);
      VersionsAboveAscend(meta, rows[..n], have);
      assert all[k - 1] == front[k - 1];
      AboveKnown(meta, rows, have, k);
    } else {
      VersionsAboveAscend(meta, rows[..n], rows[n].version);
      assert all[k..] == [];
    }
  }

  lemma AboveKnown(meta: Meta, rows: seq<VersionRow>, have: nat, k: nat)
    requires rows != [] && forall i, j :: 0 <= i < j < |rows| ==> rows[i].version < rows[j].version
    requires 0 < k <= |VersionsAbove(meta, rows[..|rows| - 1], have)|
    ensures have < VersionsAbove(meta, rows[..|rows| - 1], have)[k - 1].version < rows[|rows| - 1].version
  {
    hide VersionOf;
    var front := rows[..|rows| - 1];
    VersionsAboveCome(meta, front, have, k - 1);
    var i :| 0 <= i < |front| && VersionsAbove(meta, front, have)[k - 1] == VersionOf(meta, front[i]) && front[i].version > have;
    VersionOfNumber(meta, front[i]);
  }

  /** All versions of a list are those above nothing. */
  lemma {:induction false} AllIsAbove(db: Db)
    requires RowsOk(db)
    ensures AllVersions(db) == VersionsAbove(db.meta, db.rows, 0)
    decreases |db.rows|
  {
    hide VersionOf;
    if db.rows != [] {
      var n := |db.rows| - 1;
      AllIsAbove(db.(rows := db.rows[..n]));
      assert AllVersions(db) == AllVersions(db.(rows := db.rows[..n])) + [VersionOf(db.meta, db.rows[n])];
    }
  }

  lemma CaughtUpIsSettled(w: World, versions: seq<VersionData>, now: int)
    requires w.repo.present && RowsOk(w.db) && RowsBelow(w.db) && LastOnTip(w.repo, versions)
    requires w.db.rows != [] && versions[|versions| - 1].version == w.db.rows[|w.db.rows| - 1].version
    ensures Sync(w, now).0 == w && Settled(Sync(w, now).1)
  {
    hide MaxTag, TagFor, Sync;
    if MaxTag(w.repo.tags) == w.db.current {
      OnTipIsInSync(w, now);
    } else {
      VersionsAboveAscend(w.db.meta, w.db.rows, MaxTag(w.repo.tags));
      NoRowsIsConflict(w, now);
    }
  }

  /** A version whose tag git cannot make stops the tagging before it. */
  lemma FirstBarred(w: World, versions: seq<VersionData>, commits: seq<Commit>)
    requires w.plan == [] && versions != [] && |versions| == |commits| && Overlaid(w.repo.tags, TagFor(versions[0].version))
    ensures TagAll(w, versions, commits) == (w, false)
  {
    hide TagFor, Overlaid, TagAll, Tagged, Settable;
    var k := TagAllSetsPrefix(w, versions, commits);
    assert versions[..0] == [] && commits[..0] == [];
    TaggedNone(w.repo.tags);
  }

  lemma AlignCatchesUp(w: World, now: int)
    requires w.repo.present && w.repo.main.Some? && MaxTag(w.repo.tags) < w.db.current && Above(w) != []
    requires TailCommits(w.repo.main, Above(w)).Some?
    ensures var (next, ok) := TagAll(w, Above(w), TailCommits(w.repo.main, Above(w)).value);
            Sync(w, now) == (next, if ok then Appended(MaxTag(w.repo.tags) + 1, w.db.current) else SyncFailed)
  {
    hide MaxTag, TagFor, Sync, TagAll, TailCommits, VersionsAbove, ProjectPushed, TagOnTip;
    SyncIsAlign(w, now);
  }

  /** Where git cannot make all the tags of the versions on main, catch-up stops at the first of them, and every
      alignment after it stops there again. */
  lemma PartlyTaggedStays(w: World, commits: seq<Commit>, later: int)
    requires w.plan == [] && w.repo.present && w.repo.main.Some? && RowsOk(w.db) && RowsBelow(w.db) && Above(w) != []
    requires TailCommits(w.repo.main, Above(w)) == Some(commits) && !Settable(w.repo.tags, Above(w))
    ensures var (u, ok) := TagAll(w, Above(w), commits);
            && !ok && u.plan == [] && u.db == w.db && u.repo.main == w.repo.main && u.repo.present
            && Sync(u, later) == (u, SyncFailed)
  {
    hide MaxTag, TagFor, Sync, TagAll, TailCommits, VersionsAbove, Tagged, Overlaid, Ascending, Settable;
    var have, versions := MaxTag(w.repo.tags), Above(w);
    RowsAbove(w.db, have);
    var k := TagAllSetsPrefix(w, versions, commits);
    assert versions[..|versions|] == versions;
    var u := TagAll(w, versions, commits).0;
    PrefixAscends(versions, have, k);
    TaggedMax(w.repo.tags, versions[..k], commits[..k], have);
    if k == 0 {
      assert versions[..0] == [] && commits[..0] == [] && versions[0..] == versions && commits[0..] == commits;
      TaggedNone(w.repo.tags);
    } else {
      RowsAreNumbers(w.db);
      AboveLater(w.db.meta, w.db.rows, have, k);
    }
    assert Above(u) == versions[k..];
    TailSuffix(w.repo.main, versions, k);
    OverlaidTagged(w.repo.tags, versions[..k], commits[..k], TagFor(versions[k].version));
    assert versions[k..][0] == versions[k];
    FirstBarred(u, versions[k..], commits[k..]);
    BehindTheRows(w.db, have, k);
    AlignCatchesUp(u, later);
  }

  lemma PrefixAscends(versions: seq<VersionData>, have: nat, k: nat)
    requires Ascending(versions, have) && k <= |versions|
    ensures Ascending(versions[..k], have)
  {
  }

  lemma RowsAreNumbers(db: Db)
    requires RowsOk(db)
    ensures forall i :: 0 <= i < |db.rows| ==> db.rows[i].version <= MAX_I32
    ensures forall i, j :: 0 <= i < j < |db.rows| ==> db.rows[i].version < db.rows[j].version
  {
  }

  /** A version with others above it is below the counter. */
  lemma BehindTheRows(db: Db, have: nat, k: nat)
    requires RowsOk(db) && RowsBelow(db) && k < |VersionsAbove(db.meta, db.rows, have)|
    ensures have < db.current && (k > 0 ==> VersionsAbove(db.meta, db.rows, have)[k - 1].version < db.current)
  {
    hide VersionsAbove;
    var versions := VersionsAbove(db.meta, db.rows, have);
    RowsAbove(db, have);
    assert k > 0 ==> versions[k - 1].version < versions[|versions| - 1].version;
  }

  /** A fault-free catch-up in full: it fails exactly when it is stuck or some name cannot be made, and whatever it
      ended with, the next alignment leaves alone. */
  lemma AppendMissingEnds(w: World, later: int)
    requires w.plan == [] && w.repo.present && RowsOk(w.db) && RowsBelow(w.db) && Above(w) != []
    ensures var (next, ok) := AppendMissing(w, Above(w));
            && next.plan == [] && next.db == w.db && next.repo.present
            && (ok <==> Settable(w.repo.tags, Above(w)) && (!MustBuild(w.repo, Above(w)) || Carries(w.repo.main)))
            && (MustBuild(w.repo, Above(w)) && !Carries(w.repo.main) ==> next == w)
            && (!MustBuild(w.repo, Above(w)) || Carries(w.repo.main) ==>
                  && Sync(next, later).0 == next
                  && (if ok then Settled(Sync(next, later).1) else Sync(next, later).1 == SyncFailed))
  {
    hide MaxTag, TagFor, Sync, TagAll, TailCommits, VersionsAbove, BuildHistory, Carries, Settable, Ascending, LastOnTip;
    var have, versions := MaxTag(w.repo.tags), Above(w);
    RowsAbove(w.db, have);
    if Settable(w.repo.tags, versions) {
      AppendMissingCalm(w, versions, have);
      var (next, ok) := AppendMissing(w, versions);
      if ok {
        CaughtUpIsSettled(next, versions, later);
      }
    } else if w.repo.main.Some? && TailCommits(w.repo.main, versions).Some? {
      PartlyTaggedStays(w, TailCommits(w.repo.main, versions).value, later);
    } else {
      BuildPartly(w, later);
    }
  }

  lemma BuildPartly(w: World, later: int)
    requires w.plan == [] && w.repo.present && RowsOk(w.db) && RowsBelow(w.db) && Above(w) != []
    requires !Settable(w.repo.tags, Above(w))
    ensures var (next, result) := BuildHistory(w, Above(w), w.repo.main, Carry);
            && next.plan == [] && next.db == w.db && next.repo.present && !result.Moved?
            && (!Carries(w.repo.main) ==> next == w)
            && (Carries(w.repo.main) ==> Sync(next, later) == (next, SyncFailed))
  {
    hide MaxTag, TagFor, Sync, TagAll, TailCommits, VersionsAbove, Carries, Settable, Chain, Lawful, IsAncestor, Line;
    var versions := Above(w);
    var chain := Chain(versions, w.repo.main, Carry);
    var tip := chain[|chain| - 1];
    ChainIsLine(versions, w.repo.main, Carry);
    LineAncestors(chain, w.repo.main, |chain| - 1, |chain| - 1);
    ChainLawful(versions, w.repo.main);
    if Lawful(tip.tree) {
      var moved := UpdateMain(w, tip, w.repo.main).0;
      ChainIsFound(versions, w.repo.main, Carry);
      assert Above(moved) == versions;
      PartlyTaggedStays(moved, chain, later);
    }
  }

  // ---- the projection -------------------------------------------------------------------------

  /** After a projected tip the counters agree and the tag is on the tip, unless git cannot make its name. */
  lemma ProjectedIsSettled(w: World, now: int, later: int)
    requires w.plan == [] && w.repo.present && w.repo.main.Some? && w.db.current < MAX_I32
    requires MaxTag(w.repo.tags) <= w.db.current + 1 && (MaxTag(w.repo.tags) == w.db.current + 1 ==> TagOnTip(w.repo, w.db.current + 1))
    ensures var (next, result) := ProjectPushed(w, now);
            && next.plan == [] && !result.Err?
            && (result == Ok(None) ==> next == w)
            && (result.Ok? && result.value.Some? ==>
                  && result.value.value == next.db.current == w.db.current + 1 && next.repo.main == w.repo.main && next.repo.present
                  && (MaxTag(w.repo.tags) == w.db.current + 1 || !Overlaid(w.repo.tags, TagFor(w.db.current + 1)) ==>
                        && MaxTag(next.repo.tags) == next.db.current && TagOnTip(next.repo, next.db.current)
                        && Sync(next, later) == (next, InSync))
                  && (!Overlaid(w.repo.tags, TagFor(w.db.current + 1)) ==>
                        next.repo == w.repo.(tags := w.repo.tags[TagFor(next.db.current) := w.repo.main.value]))
                  && (Overlaid(w.repo.tags, TagFor(w.db.current + 1)) ==> next.repo == w.repo))
  {
    hide MaxTag, TagFor, ProjectPushed, Projects, Sync, Overlaid;
    ProjectPushedShape(w, now);
    var next := ProjectPushed(w, now).0;
    if Projects(w.repo.main.value) {
      ProjectPushedTags(w, now);
      MaxTagInsert(w.repo.tags, w.db.current + 1, w.repo.main.value);
      if MaxTag(next.repo.tags) == next.db.current {
        OnTipIsInSync(next, later);
      }
    }
  }

  lemma ProjectPushedTags(w: World, now: int)
    requires w.plan == [] && w.repo.main.Some? && Projects(w.repo.main.value)
    ensures ProjectPushed(w, now).0.repo
         == if Overlaid(w.repo.tags, TagFor(w.db.current + 1)) then w.repo
            else w.repo.(tags := w.repo.tags[TagFor(w.db.current + 1) := w.repo.main.value])
  {
    hide TagFor, ProjectedRow, UpdateMeta, ManifestOf, Overlaid;
  }

  /** Catch-up would have to commit versions on a main whose files no new commit may carry. */
  ghost predicate StuckOnMain(w: World) {
    MaxTag(w.repo.tags) < w.db.current && Above(w) != [] && MustBuild(w.repo, Above(w)) && !Carries(w.repo.main)
  }

  /** Catch-up would have to make a tag whose name others stand under. */
  ghost predicate Unmakeable(w: World) {
    MaxTag(w.repo.tags) < w.db.current && !Settable(w.repo.tags, Above(w))
  }

  /** The tip would become the next version, and git cannot make its tag. */
  ghost predicate Mislaid(w: World) {
    && w.repo.present && w.repo.main.Some? && MaxTag(w.repo.tags) == w.db.current > 0
    && !TagOnTip(w.repo, w.db.current) && Projects(w.repo.main.value)
    && Overlaid(w.repo.tags, TagFor(w.db.current + 1))
  }

  /** What a fault-free alignment ends with: a second one changes nothing, and fails exactly when the first did. */
  ghost predicate Ends(next: World, outcome: SyncOutcome, later: int, fails: bool) {
    && next.plan == []
    && Sync(next, later).0 == next
    && (outcome.SyncFailed? <==> fails)
    && (Sync(next, later).1.SyncFailed? <==> fails)
    && (!fails ==> Settled(Sync(next, later).1))
  }

  lemma AlignSettles(w: World, now: int, later: int)
    requires w.plan == [] && w.repo.present && w.repo.main.Some? && RowsOk(w.db) && RowsBelow(w.db) && !Mislaid(w)
    ensures var (next, outcome) := Align(w, MaxTag(w.repo.tags), now);
            Ends(next, outcome, later, StuckOnMain(w) || Unmakeable(w)) && (StuckOnMain(w) ==> next == w)
  {
    hide MaxTag, TagFor, ProjectPushed, AppendMissing, VersionsAbove, TagOnTip, Ascending, RowsOk, RowsBelow, Settable, MustBuild,
      Carries, Overlaid, Projects;
    var have, current := MaxTag(w.repo.tags), w.db.current;
    assert current < MAX_I32 by { RoomAbove(w.db); }
    SyncIsAlign(w, later);
    if have < current {
      if Above(w) != [] {
        AppendMissingEnds(w, later);
      } else {
        NoneAreSettable(w.repo.tags, Above(w));
      }
    } else {
      ProjectionTimeless(w, now, later);
      ProjectionDecided(w, now);
      if have == current || TagOnTip(w.repo, have) {
        if have <= current + 1 {
          ProjectedIsSettled(w, now, later);
        }
      }
    }
  }

  lemma NoneAreSettable(tags: map<string, Commit>, versions: seq<VersionData>)
    requires versions == []
    ensures Settable(tags, versions)
  {
  }

  lemma ProjectionDecided(w: World, now: int)
    requires w.plan == [] && w.repo.main.Some?
    ensures ProjectPushed(w, now).1 == Ok(None) <==> !Projects(w.repo.main.value)
    ensures !ProjectPushed(w, now).1.Err?
  {
    hide ProjectPushed, Projects, OneMore;
    ProjectPushedShape(w, now);
  }

  /** A mislaid tip becomes a version without a tag; the alignment after that fails for want of the tag, and before it
      does it puts a commit of its own on main, unless the tip looks like that version already or its files cannot
      be carried. */
  lemma AlignMislaid(w: World, now: int, later: int)
    requires w.plan == [] && RowsOk(w.db) && RowsBelow(w.db) && Mislaid(w)
    ensures var (next, outcome) := Align(w, MaxTag(w.repo.tags), now);
            && next.plan == [] && outcome == ProjectedTip(w.db.current + 1) && next.repo == w.repo && OneMore(w, next)
            && Sync(next, later).1.SyncFailed?
            && (Sync(next, later).0 == next <==> !(MustBuild(next.repo, Above(next)) && Carries(next.repo.main)))
  {
    hide MaxTag, TagFor, ProjectPushed, VersionsAbove, TagOnTip, RowsOk, RowsBelow, Carries, Overlaid, Projects, Sync, TailCommits,
      BuildHistory, TagAll;
    assert w.db.current < MAX_I32 by { RoomAbove(w.db); }
    ProjectedIsSettled(w, now, later);
    ProjectionDecided(w, now);
    ProjectPushedShape(w, now);
    var next := Align(w, MaxTag(w.repo.tags), now).0;
    SyncIsAlign(next, later);
    OneAbove(w, next);
    var v := Above(next)[0];
    assert Above(next) == [v];
    if next.repo.main.Some? && TailCommits(next.repo.main, [v]).Some? {
      FirstBarred(next, [v], TailCommits(next.repo.main, [v]).value);
    } else {
      BuildBarred(next, v);
    }
  }

  lemma OneAbove(w: World, next: World)
    requires RowsOk(w.db) && RowsBelow(w.db) && OneMore(w, next) && MaxTag(w.repo.tags) == w.db.current && next.repo == w.repo
    ensures |Above(next)| == 1 && Above(next)[0].version == w.db.current + 1
  {
    hide MaxTag, VersionOf;
    var rows, n := next.db.rows, |w.db.rows|;
    assert rows[..n] == w.db.rows;
    VersionsAboveAscend(next.db.meta, w.db.rows, w.db.current);
    VersionOfNumber(next.db.meta, rows[n]);
  }

  /** One version whose tag cannot be made: main moves to its commit when that is lawful, and that is all. */
  lemma BuildBarred(w: World, v: VersionData)
    requires w.plan == [] && w.repo.main.Some? && Overlaid(w.repo.tags, TagFor(v.version))
    ensures var (next, result) := BuildHistory(w, [v], w.repo.main, Carry);
            && !result.Moved? && (next == w <==> !Carries(w.repo.main))
  {
    hide TagFor, Overlaid, TagAll, Carries, Lawful, IsAncestor, Chain, CommitOf;
    var chain := Chain([v], w.repo.main, Carry);
    var tip := chain[0];
    ChainLawful([v], w.repo.main);
    ChainIsLine([v], w.repo.main, Carry);
    LineAncestors(chain, w.repo.main, 0, 0);
    assert FirstParent(tip) == w.repo.main;
    assert tip.parents[0] < tip;
    var moved := UpdateMain(w, tip, w.repo.main).0;
    FirstBarred(moved, [v], chain);
  }

  lemma SyncIsAlign(w: World, now: int)
    requires w.repo.present && w.repo.main.Some?
    ensures Sync(w, now) == Align(w, MaxTag(w.repo.tags), now)
  {
    hide MaxTag, TagFor, Align;
  }

  /** Whether the tip projects does not depend on the time. */
  lemma ProjectionTimeless(w: World, now: int, later: int)
    ensures ProjectPushed(w, now).1 == ProjectPushed(w, later).1
    ensures ProjectPushed(w, now).1 == Ok(None) ==> ProjectPushed(w, later) == (w, Ok(None)) == ProjectPushed(w, now)
  {
    hide ProjectPushed, Projects, OneMore;
    ProjectPushedShape(w, now);
    ProjectPushedShape(w, later);
  }

  lemma RoomAbove(db: Db)
    requires RowsOk(db)
    ensures db.current < MAX_I32
  {
  }

  lemma RowsAbove(db: Db, have: nat)
    requires RowsOk(db)
    ensures var versions := VersionsAbove(db.meta, db.rows, have);
            && Ascending(versions, have)
            && (versions != [] ==> db.rows != [] && versions[|versions| - 1].version == db.rows[|db.rows| - 1].version)
  {
    hide VersionOf, Ascending;
    VersionsAboveAscend(db.meta, db.rows, have);
  }

  // ---- every state ----------------------------------------------------------------------------

  lemma BootstrapSettles(w: World, later: int)
    requires w.plan == [] && w.repo.main.None? && MaxTag(w.repo.tags) == 0 && RowsOk(w.db) && RowsBelow(w.db) && w.db.rows != []
    ensures Bootstrap(w).1.Some? && Ends(Bootstrap(w).0, Bootstrap(w).1.value, later, Unmakeable(w))
  {
    hide MaxTag, TagFor, BuildHistory, AllVersions, VersionsAbove, RowsOk, RowsBelow, Sync, Settable, TailCommits, Carries;
    AllIsAbove(w.db);
    RowsFirst(w.db);
    var ready := InitBare(w).0;
    assert Above(ready) == Above(w);
    NothingCarried();
    AppendMissingEnds(ready, later);
    assert AppendMissing(ready, Above(w)).0 == BuildHistory(ready, Above(w), None, Carry).0;
  }

  lemma RowsFirst(db: Db)
    requires RowsOk(db) && RowsBelow(db) && db.rows != []
    ensures VersionsAbove(db.meta, db.rows, 0) != [] && db.current > 0
  {
    hide VersionsAbove;
    VersionsAboveAscend(db.meta, db.rows, 0);
  }

  /** With no main to align, either nothing happens or the missing versions become a history of their own. */
  lemma AlignWithoutMainSettles(w: World, now: int, later: int)
    requires w.plan == [] && w.repo.present && w.repo.main.None? && RowsOk(w.db) && RowsBelow(w.db)
    ensures var (next, outcome) := Align(w, MaxTag(w.repo.tags), now);
            && next.plan == [] && (outcome.SyncFailed? <==> Unmakeable(w))
            && ((next == w && Settled(outcome)) || Ends(next, outcome, later, Unmakeable(w)))
  {
    hide MaxTag, TagFor, AppendMissing, VersionsAbove, TagOnTip, RowsOk, RowsBelow, Sync, Settable, Carries;
    var have, current := MaxTag(w.repo.tags), w.db.current;
    assert have == current ==> TagOnTip(w.repo, current) by { NoMainOnTip(w.repo, current); }
    NothingCarried();
    if have < current {
      if Above(w) != [] {
        AppendMissingEnds(w, later);
      } else {
        NoneAreSettable(w.repo.tags, Above(w));
      }
    }
  }

  lemma NoMainOnTip(repo: Repo, version: nat)
    requires repo.main.None?
    ensures TagOnTip(repo, version)
  {
  }

  /** No alignment can go on: either the tag main has to come back from is unlawful itself, or catch-up would have to
      commit versions on a main whose files are. */
  ghost predicate Stuck(w: World) {
    var restore := Smaller(MaxTag(w.repo.tags), w.db.current);
    && w.repo.present
    && if w.repo.main.Some? then StuckOnMain(w)
       else restore > 0 && TagFor(restore) in w.repo.tags && !Lawful(w.repo.tags[TagFor(restore)].tree)
  }

  /** An alignment of these stores would put a commit on main. */
  ghost predicate Builds(w: World) {
    MustBuild(w.repo, Above(w)) && Carries(w.repo.main)
  }

  /** In every state. A fault-free alignment fails exactly when it is stuck or has to make a name git cannot make. A
      second one changes nothing, with one exact exception: the first made a version of a tip whose tag could not be
      made, and the second, missing that tag, builds the version once more. It fails exactly when the first did or
      that tag is missing; otherwise it only answers that all is in sync, that the tip has no version, or that there
      is a conflict. */
  lemma SyncIdempotent(w: World, now: int, later: int)
    requires w.plan == [] && RepoOk(w.repo) && RowsOk(w.db) && RowsBelow(w.db)
    ensures Sync(w, now).1.SyncFailed? <==> Stuck(w) || Unmakeable(w)
    ensures Stuck(w) ==> Sync(w, now).0 == w
    ensures Sync(Sync(w, now).0, later).0 == Sync(w, now).0 <==> !(Mislaid(w) && Builds(Sync(w, now).0))
    ensures Sync(Sync(w, now).0, later).1.SyncFailed? <==> Stuck(w) || Unmakeable(w) || Mislaid(w)
    ensures Sync(Sync(w, now).0, later).1.SyncFailed? || Settled(Sync(Sync(w, now).0, later).1)
  {
    hide MaxTag, TagFor, RowsOk, RowsBelow, Align, Bootstrap, Lawful, StuckOnMain, Unmakeable, MustBuild, Carries, Above, Mislaid, OneMore;
    var have := MaxTag(w.repo.tags);
    var restore := Smaller(have, w.db.current);
    if Mislaid(w) {
      MislaidHasMain(w);
      SyncIsAlign(w, now);
      AlignMislaid(w, now, later);
    } else if !w.repo.present {
      NothingSettles(w, now, later);
    } else if w.repo.main.Some? {
      AlignSettles(w, now, later);
    } else if restore > 0 && TagFor(restore) in w.repo.tags {
      var tip := w.repo.tags[TagFor(restore)];
      UpdateMainKeeps(w, tip, None);
      var (restored, result) := UpdateMain(w, tip, None);
      if result.Moved? {
        RestoredIsNotStuck(restored);
        RestoredIsNotMislaid(w, restored);
        AlignSettles(restored, now, later);
      }
    } else if have == 0 && w.db.rows != [] {
      BootstrapSettles(w, later);
    } else {
      AlignWithoutMainSettles(w, now, later);
      AlignWithoutMainSettles(w, later, later);
      var (next, outcome) := Align(w, have, now);
      if next == w && Settled(outcome) {
        SameAlignment(w, now, later);
      }
    }
  }

  lemma MislaidHasMain(w: World)
    requires Mislaid(w)
    ensures w.repo.present && w.repo.main.Some? && !StuckOnMain(w) && !Unmakeable(w) && MaxTag(w.repo.tags) == w.db.current
  {
    hide MaxTag, TagFor, TagOnTip, Projects, Overlaid;
  }

  lemma RestoredIsNotMislaid(w: World, restored: World)
    requires Smaller(MaxTag(w.repo.tags), w.db.current) > 0 && TagFor(Smaller(MaxTag(w.repo.tags), w.db.current)) in w.repo.tags
    requires restored == w.(repo := w.repo.(main := Some(w.repo.tags[TagFor(Smaller(MaxTag(w.repo.tags), w.db.current))])))
    ensures !Mislaid(restored) && (Unmakeable(restored) <==> Unmakeable(w))
  {
    hide MaxTag, TagFor, Projects, Overlaid, VersionsAbove, Settable;
  }

  lemma NothingSettles(w: World, now: int, later: int)
    requires w.plan == [] && !w.repo.present && RepoOk(w.repo) && RowsOk(w.db) && RowsBelow(w.db)
    ensures Ends(Sync(w, now).0, Sync(w, now).1, later, Unmakeable(w))
  {
    hide MaxTag, TagFor, RowsOk, RowsBelow, Align, Bootstrap, VersionsAbove, Settable;
    NoTagsMax();
    if w.db.rows != [] {
      BootstrapSettles(w, later);
    } else {
      NothingToBootstrap(w);
      assert VersionsAbove(w.db.meta, w.db.rows, 0) == [] by { NoRowsAbove(w.db.meta); }
      NoneAreSettable(w.repo.tags, Above(w));
    }
  }

  lemma NoRowsAbove(meta: Meta)
    ensures VersionsAbove(meta, [], 0) == []
  {
  }

  /** In every state: from the second alignment on nothing changes any more. */
  lemma SyncSettlesAtTwice(w: World, now: int, later: int, last: int)
    requires w.plan == [] && RepoOk(w.repo) && RowsOk(w.db) && RowsBelow(w.db) && w.db.current + 1 < MAX_I32
    ensures var second := Sync(Sync(w, now).0, later).0;
            Sync(second, last).0 == second
  {
    hide MaxTag, TagFor, RowsOk, RowsBelow, Sync, Stuck, Unmakeable, Builds, Mislaid, Kept;
    var first := Sync(w, now).0;
    SyncIdempotent(w, now, later);
    SyncIdempotent(w, now, last);
    if Mislaid(w) {
      MislaidHasMain(w);
      AlignMislaid(w, now, later);
      SyncIsAlign(w, now);
      OneMoreRows(w, first);
      MislaidOnce(w, first);
      SyncIdempotent(first, later, last);
    }
  }

  lemma OneMoreRows(w: World, next: World)
    requires OneMore(w, next) && RowsOk(w.db) && RowsBelow(w.db) && w.db.current + 1 < MAX_I32
    ensures RowsOk(next.db) && RowsBelow(next.db)
  {
    hide TagFor;
    var n := |w.db.rows|;
    assert forall i :: 0 <= i < n ==> next.db.rows[i] == w.db.rows[i];
    assert forall i :: 0 <= i < n ==> w.db.rows[i].version <= w.db.rows[n - 1].version;
  }

  lemma MislaidOnce(w: World, next: World)
    requires Mislaid(w) && next.repo == w.repo && next.db.current == w.db.current + 1
    ensures !Mislaid(next) && RepoOk(next.repo)
  {
    hide MaxTag, TagFor, TagOnTip, Projects, Overlaid;
  }

  lemma RestoredIsNotStuck(w: World)
    requires w.repo.main.Some? && Lawful(w.repo.main.value.tree)
    ensures !StuckOnMain(w)
  {
    hide Lawful, MaxTag, VersionsAbove, MustBuild, FilesLawful;
    LawfulFiles(w.repo.main.value.tree);
  }

  /** Where every tree under main and under the version tags is lawful, no alignment gets stuck. */
  lemma LawfulIsNotStuck(w: World)
    requires w.repo.main.Some? ==> Lawful(w.repo.main.value.tree)
    requires forall name :: name in w.repo.tags ==> Lawful(w.repo.tags[name].tree)
    ensures !Stuck(w)
  {
    hide Lawful, MaxTag, StuckOnMain, TagFor;
    if w.repo.main.Some? {
      RestoredIsNotStuck(w);
    }
  }

  lemma NothingToBootstrap(w: World)
    requires w.db.rows == []
    ensures Bootstrap(w) == (w, None)
  {
  }

  /** Without a main the time of the alignment does not matter: nothing is projected. */
  lemma SameAlignment(w: World, now: int, later: int)
    requires w.repo.main.None?
    ensures Align(w, MaxTag(w.repo.tags), now) == Align(w, MaxTag(w.repo.tags), later)
  {
    hide MaxTag, TagFor, AppendMissing, VersionsAbove, TagOnTip;
  }
}

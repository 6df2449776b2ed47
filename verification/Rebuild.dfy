/** When an alignment builds a history from the database. */
module Rebuild {
  import opened Wrappers
  import opened Text
  import opened Canon
  import opened Rows
  import opened Tree
  import opened Commits
  import opened Protocol
  import opened Mechanics
  import opened Safety
  import opened Settle

  /** The tag a missing main is restored from. */
  ghost function RestoreTag(w: World): string {
    TagFor(Smaller(MaxTag(w.repo.tags), w.db.current))
  }

  /** The history of the versions above the highest tag, built on nothing. */
  ghost function FromNothing(w: World): Option<Commit> {
    TipOf(Chain(VersionsAbove(w.db.meta, w.db.rows, MaxTag(w.repo.tags)), None, Carry), None)
  }

  lemma AlignMain(w: World, now: int)
    requires RowsOk(w.db) && w.repo.main.None?
    ensures var next := Align(w, MaxTag(w.repo.tags), now).0;
            next.repo.main.Some? ==> RowsAreMissing(w) && next.repo.main == FromNothing(w)
  {
    hide MaxTag, TagFor, VersionsAbove, TagOnTip, Ascending, RowsOk, Lawful, Chain, TagAll;
    var have := MaxTag(w.repo.tags);
    var versions := VersionsAbove(w.db.meta, w.db.rows, have);
    if have < w.db.current && versions != [] {
      RowsAbove(w.db, have);
      var chain := Chain(versions, None, Carry);
      UpdateMainKeeps(w, chain[|chain| - 1], None);
      var (moved, result) := UpdateMain(w, chain[|chain| - 1], None);
      if result.Moved? {
        TagAllKeeps(moved, versions, chain, have);
      }
    }
  }

  lemma AlignBringsMain(w: World, now: int)
    requires RowsOk(w.db) && w.repo.main.None? && w.plan == []
    ensures Align(w, MaxTag(w.repo.tags), now).0.repo.main.Some? <==> RowsAreMissing(w)
  {
    hide MaxTag, TagFor, VersionsAbove, TagOnTip, Ascending, RowsOk, Lawful, Chain, TagAll, Carries;
    var have := MaxTag(w.repo.tags);
    var versions := VersionsAbove(w.db.meta, w.db.rows, have);
    if have < w.db.current && versions != [] {
      RowsAbove(w.db, have);
      var chain := Chain(versions, None, Carry);
      ChainLawful(versions, None);
      assert Carries(None) by { NothingCarried(); }
      var moved := UpdateMain(w, chain[|chain| - 1], None).0;
      TagAllKeeps(moved, versions, chain, have);
    }
  }

  /** The tags lag behind the counter, and the database has the versions they lack. */
  ghost predicate RowsAreMissing(w: World) {
    MaxTag(w.repo.tags) < w.db.current && VersionsAbove(w.db.meta, w.db.rows, MaxTag(w.repo.tags)) != []
  }

  ghost predicate HasRestoreTag(w: World) {
    w.db.current > 0 && RestoreTag(w) in w.repo.tags
  }

  /** In a repository that has a version tag but no main, main comes back either as a descendant of the tag of
      the current version (or of the highest one, when that is lower), or, exactly when that tag does not exist,
      as a history built on nothing beside the tags; the latter only while the tags lag behind the counter. When no
      write fails it does come back: exactly when that tag is lawful, or is not there and the database has versions
      to build from. */
  lemma MainComesBack(w: World, now: int)
    requires RowsOk(w.db) && w.repo.present && w.repo.main.None? && MaxTag(w.repo.tags) > 0
    ensures HasRestoreTag(w) ==>
              && (Sync(w, now).0.repo.main.Some? ==> IsAncestor(w.repo.tags[RestoreTag(w)], Sync(w, now).0.repo.main.value))
              && (w.plan == [] ==> (Sync(w, now).0.repo.main.Some? <==> Lawful(w.repo.tags[RestoreTag(w)].tree)))
    ensures !HasRestoreTag(w) ==>
              && (Sync(w, now).0.repo.main.Some? ==> RowsAreMissing(w) && Sync(w, now).0.repo.main == FromNothing(w))
              && (w.plan == [] ==> (Sync(w, now).0.repo.main.Some? <==> RowsAreMissing(w)))
    ensures HasRestoreTag(w) ==> !Sync(w, now).1.InSync?
    ensures HasRestoreTag(w) && w.plan == [] && MaxTag(w.repo.tags) == w.db.current && Lawful(w.repo.tags[RestoreTag(w)].tree) ==>
              Sync(w, now) == (w.(repo := w.repo.(main := Some(w.repo.tags[RestoreTag(w)]))), MainRestored(w.db.current))
  {
    hide MaxTag, TagFor, Align, RowsOk, Lawful, Kept, FromNothing, IsAncestor, VersionsAbove;
    var restore := Smaller(MaxTag(w.repo.tags), w.db.current);
    if restore > 0 && RestoreTag(w) in w.repo.tags {
      var tip := w.repo.tags[RestoreTag(w)];
      UpdateMainKeeps(w, tip, None);
      var (restored, result) := UpdateMain(w, tip, None);
      if result.Moved? {
        OnTipInSync(restored, now);
        AlignKeeps(restored, now);
        KeptMain(restored.repo, Align(restored, MaxTag(w.repo.tags), now).0.repo);
      }
    } else {
      AlignMain(w, now);
      if w.plan == [] {
        AlignBringsMain(w, now);
      }
    }
  }

  lemma OnTipInSync(w: World, now: int)
    requires w.repo.main.Some?
    ensures MaxTag(w.repo.tags) == w.db.current && TagFor(w.db.current) in w.repo.tags && w.repo.main == Some(w.repo.tags[TagFor(w.db.current)]) ==>
              Align(w, MaxTag(w.repo.tags), now) == (w, InSync)
  {
    hide MaxTag, TagFor, ProjectPushed, VersionsAbove, AppendMissing;
  }

  lemma KeptMain(a: Repo, b: Repo)
    requires Kept(a, b) && a.main.Some?
    ensures b.main.Some? && IsAncestor(a.main.value, b.main.value)
  {
    hide IsAncestor;
  }

  /** With tags under the names the service gives, a history with version tags is never built again. */
  lemma TaggedHistoryIsNotRebuilt(w: World, now: int)
    requires RowsOk(w.db) && w.repo.present && w.repo.main.None? && MaxTag(w.repo.tags) > 0
    requires CanonTags(w.repo.tags)
    ensures Sync(w, now).0.repo.main.Some? ==> RestoreTag(w) in w.repo.tags
  {
    hide MaxTag, TagFor, Align, RowsOk, Sync, FromNothing, CanonTags;
    if Sync(w, now).0.repo.main.Some? && RestoreTag(w) !in w.repo.tags {
      MainComesBack(w, now);
      MaxTagPresent(w.repo.tags);
    }
  }

  // ---- a tag the parser reads and the service never writes ------------------------------------

  const OLD: Commit := Commit([], map[], 0, "", "")

  function BareRow(version: nat): VersionRow {
    VersionRow(version, "", 0, [])
  }

  /** Three versions in the database, and the tag of the second under an old name. */
  const SHADOWED: World :=
    World(Repo(true, None, map["v02" := OLD], map[]),
          Db(3, [BareRow(1), BareRow(2), BareRow(3)], Meta("", "", [], true, None, None)), [])

  lemma ShadowedTags()
    ensures MaxTag(SHADOWED.repo.tags) == 2 && TagFor(2) !in SHADOWED.repo.tags && RowsOk(SHADOWED.db)
    ensures VersionsAbove(SHADOWED.db.meta, SHADOWED.db.rows, 2) == [VersionOf(SHADOWED.db.meta, BareRow(3))]
  {
    hide MaxTag, VersionOf;
    LeadingZeroIsRead();
    assert "v02" in SHADOWED.repo.tags;
    MaxTagIs(SHADOWED.repo.tags, 2);
    assert TagFor(2) == TagName(2);
    var rows := SHADOWED.db.rows;
    assert rows[..2] == [BareRow(1), BareRow(2)] && rows[..2][..1] == [BareRow(1)] && [BareRow(1)][..0] == [];
    assert VersionsAbove(SHADOWED.db.meta, [], 2) == [];
    assert VersionsAbove(SHADOWED.db.meta, [BareRow(1)], 2) == [];
    assert VersionsAbove(SHADOWED.db.meta, rows[..2], 2) == [];
  }

  /** `v02` counts as version 2 but `v2` is not there: the history is built anew from the database although a
      version tag exists, and the tagged commit is not part of it. */
  lemma ShadowedTagIsRebuilt(now: int)
    ensures MaxTag(SHADOWED.repo.tags) > 0
    ensures Sync(SHADOWED, now).0.repo.main.Some? && !IsAncestor(OLD, Sync(SHADOWED, now).0.repo.main.value)
  {
    hide MaxTag, TagFor, VersionsAbove, VersionOf, Sync, Lawful, Chain, CommitOf, BuildTree, TagAll;
    ShadowedTags();
    MainComesBack(SHADOWED, now);
    RootOfOne(VersionOf(SHADOWED.db.meta, BareRow(3)));
  }

  lemma RootOfOne(v: VersionData)
    ensures TipOf(Chain([v], None, Carry), None).Some?
    ensures !IsAncestor(OLD, TipOf(Chain([v], None, Carry), None).value)
  {
    hide BuildTree, CommitMessage;
    assert [v][..0] == [];
    var root := CommitOf(v, None, Carry);
    assert Chain([v], None, Carry) == [] + [root] by {
      assert Chain([], None, Carry) == [];
    }
    assert root.author != OLD.author;
  }
}

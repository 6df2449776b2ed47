/** The order of the version tags on the history of main, through every operation and every crash. */
module Order {
  import opened Wrappers
  import opened Text
  import opened Canon
  import opened Tree
  import opened Commits
  import opened Protocol
  import opened Mechanics
  import opened Safety
  import opened Settle
  import opened Recovery
  import opened Crashes
  import opened Reading

  // ---- the order ------------------------------------------------------------------------------

  /** Version tags lie on the history of main, in the order of their numbers. */
  ghost predicate TagsOrdered(tags: map<string, Commit>, tip: Commit) {
    && (forall a :: a in tags && IsVersionTag(a) ==> IsAncestor(tags[a], tip))
    && (forall a, b :: a in tags && b in tags && IsVersionTag(a) && IsVersionTag(b) && TagNumber(a) <= TagNumber(b) ==>
          IsAncestor(tags[a], tags[b]))
  }

  /** Two version tags stand the wrong way round. */
  ghost predicate Crossed(tags: map<string, Commit>) {
    exists a, b :: a in tags && b in tags && IsVersionTag(a) && IsVersionTag(b) && TagNumber(a) <= TagNumber(b) && !IsAncestor(tags[a], tags[b])
  }

  ghost predicate InOrder(repo: Repo) {
    repo.main.Some? ==> TagsOrdered(repo.tags, repo.main.value)
  }

  lemma CrossedIsDisorder(repo: Repo)
    requires Crossed(repo.tags) && repo.main.Some?
    ensures !InOrder(repo)
  {
    hide VersionOfTag, IsAncestor;
  }

  /** Crossed tags stay crossed while no version tag moves. */
  lemma CrossedStays(a: map<string, Commit>, b: map<string, Commit>)
    requires Crossed(a) && forall name :: name in a && IsVersionTag(name) ==> name in b && b[name] == a[name]
    ensures Crossed(b)
  {
    hide VersionOfTag, IsAncestor;
  }

  /** Every version tag is an ancestor of the highest one. */
  lemma HighestIsLast(repo: Repo, a: string)
    requires Core(repo) && TagsOrdered(repo.tags, repo.main.value) && a in repo.tags && IsVersionTag(a)
    ensures TagNumber(a) <= MaxTag(repo.tags)
    ensures TagFor(MaxTag(repo.tags)) in repo.tags && IsAncestor(repo.tags[a], repo.tags[TagFor(MaxTag(repo.tags))])
  {
    hide MaxTag, VersionOfTag, TagFor, IsAncestor, Lawful;
    var m := MaxTag(repo.tags);
    assert IsMaxTag(repo.tags, m);
    var highest := if m > 0 then HighestTag(repo.tags) else a;
    TagForReads(m);
  }

  /** The name of the highest version tag. */
  ghost function HighestTag(tags: map<string, Commit>): (name: string)
    requires MaxTag(tags) > 0
    ensures name in tags && VersionOfTag(name) == Some(MaxTag(tags))
  {
    hide MaxTag, VersionOfTag;
    assert IsMaxTag(tags, MaxTag(tags));
    var name :| name in tags && VersionOfTag(name) == Some(MaxTag(tags));
    name
  }

  lemma HighestOnMain(repo: Repo)
    requires repo.main.Some? && TagsOrdered(repo.tags, repo.main.value)
    requires MaxTag(repo.tags) <= MAX_I32 && TagFor(MaxTag(repo.tags)) in repo.tags
    ensures IsAncestor(repo.tags[TagFor(MaxTag(repo.tags))], repo.main.value)
  {
    hide MaxTag, TagFor, IsAncestor, VersionOfTag;
    TagForReads(MaxTag(repo.tags));
  }

  /** A version tag above all others, on the history and not older than the highest, keeps the order. */
  lemma OrderTag(repo: Repo, n: nat, c: Commit)
    requires Core(repo) && TagsOrdered(repo.tags, repo.main.value) && MaxTag(repo.tags) < n <= MAX_I32
    requires IsAncestor(c, repo.main.value)
    requires TagFor(MaxTag(repo.tags)) in repo.tags ==> IsAncestor(repo.tags[TagFor(MaxTag(repo.tags))], c)
    ensures TagsOrdered(repo.tags[TagFor(n) := c], repo.main.value)
  {
    hide MaxTag, VersionOfTag, TagFor, IsAncestor, Core;
    var tags, all := repo.tags, repo.tags[TagFor(n) := c];
    var m := MaxTag(tags);
    TagForReads(n);
    NoTagAbove(tags, n);
    Reflexive(c);
    forall a | a in tags && IsVersionTag(a) ensures TagNumber(a) <= m && IsAncestor(tags[a], c) {
      HighestIsLast(repo, a);
      AncestorTransitive(tags[a], tags[TagFor(m)], c);
    }
  }

  lemma OrderMove(repo: Repo, tip: Commit)
    requires repo.main.Some? && TagsOrdered(repo.tags, repo.main.value) && IsAncestor(repo.main.value, tip)
    ensures TagsOrdered(repo.tags, tip)
  {
    hide VersionOfTag, IsAncestor;
    forall a | a in repo.tags && IsVersionTag(a) ensures IsAncestor(repo.tags[a], tip) {
      AncestorTransitive(repo.tags[a], repo.main.value, tip);
    }
  }

  // ---- tagging a line of commits --------------------------------------------------------------

  /** The missing versions of a list, as commits at the end of main. */
  ghost predicate Landing(repo: Repo, current: nat, versions: seq<VersionData>, commits: seq<Commit>, base: Option<Commit>) {
    && Missing(versions, MaxTag(repo.tags), current) && |versions| == |commits|
    && Line(commits, base) && repo.main == Some(commits[|commits| - 1])
  }

  /** The highest tag is not older than the first of the commits. */
  ghost predicate Follows(repo: Repo, c: Commit) {
    TagFor(MaxTag(repo.tags)) in repo.tags ==> IsAncestor(repo.tags[TagFor(MaxTag(repo.tags))], c)
  }

  /** What is true of the tags after the first `k` versions of a landing got theirs. */
  ghost predicate Landed(repo: Repo, commits: seq<Commit>, k: nat, tags: map<string, Commit>)
    requires k <= |commits|
  {
    && repo.main.Some? && TagsOrdered(tags, repo.main.value) && MaxTag(tags) == MaxTag(repo.tags) + k
    && (k > 0 ==> TagFor(MaxTag(tags)) in tags && tags[TagFor(MaxTag(tags))] == commits[k - 1])
    && (k == 0 ==> tags == repo.tags)
  }

  lemma LandedNext(repo: Repo, commits: seq<Commit>, base: Option<Commit>, n: nat, tags: map<string, Commit>)
    requires Core(repo.(tags := tags)) && n < |commits| && Line(commits, base) && repo.main == Some(commits[|commits| - 1])
    requires Landed(repo, commits, n, tags) && MaxTag(repo.tags) + |commits| <= MAX_I32
    requires Follows(repo, commits[0])
    ensures Landed(repo, commits, n + 1, tags[TagFor(MaxTag(repo.tags) + n + 1) := commits[n]])
  {
    hide MaxTag, TagFor, IsAncestor, Core, Line, TagsOrdered;
    LineAncestors(commits, base, n, |commits| - 1);
    if n > 0 {
      LineAncestors(commits, base, n - 1, n);
    }
    CoreTag(repo.(tags := tags), MaxTag(repo.tags) + n + 1, commits[n]);
    OrderTag(repo.(tags := tags), MaxTag(repo.tags) + n + 1, commits[n]);
  }

  /** Setting the tags of a landing one by one keeps the order all the way. */
  lemma {:induction false} LandedOrder(repo: Repo, current: nat, versions: seq<VersionData>, commits: seq<Commit>, base: Option<Commit>, k: nat)
    requires Core(repo) && TagsOrdered(repo.tags, repo.main.value)
    requires Landing(repo, current, versions, commits, base) && Follows(repo, commits[0]) && current <= MAX_I32 && k <= |versions|
    ensures Landed(repo, commits, k, Tagged(repo.tags, versions[..k], commits[..k]))
    decreases k
  {
    hide MaxTag, TagFor, IsAncestor, Tagged, Core, Line, Landed, TagsOrdered, Ascending, Follows;
    if k == 0 {
      LandedNone(repo, commits);
    } else {
      var n := k - 1;
      LandedOrder(repo, current, versions, commits, base, n);
      assert versions[..k][..n] == versions[..n] && commits[..k][..n] == commits[..n];
      TaggedNext(repo.tags, versions[..k], commits[..k]);
      MissingAscends(versions, MaxTag(repo.tags), current);
      AscendingPrefix(versions, MaxTag(repo.tags), n);
      CoreTagged(repo, versions[..n], commits[..n], MaxTag(repo.tags));
      LandedNext(repo, commits, base, n, Tagged(repo.tags, versions[..n], commits[..n]));
    }
  }

  lemma LandedNone(repo: Repo, commits: seq<Commit>)
    requires repo.main.Some? && TagsOrdered(repo.tags, repo.main.value)
    ensures Tagged(repo.tags, [], []) == repo.tags && Landed(repo, commits, 0, repo.tags)
  {
    hide MaxTag, TagFor, TagsOrdered;
  }

  /** Does the first tag get set? */
  predicate FirstIsSet(w: World, version: int) {
    !Overlaid(w.repo.tags, TagFor(version)) && !Faulty(w.plan)
  }

  /** Tagging a line keeps the order exactly when the line comes after the highest tag, or not even its first commit
      gets its tag; else two tags are crossed. */
  lemma TagAllOrder(w: World, versions: seq<VersionData>, commits: seq<Commit>, base: Option<Commit>)
    requires Core(w.repo) && TagsOrdered(w.repo.tags, w.repo.main.value)
    requires Landing(w.repo, w.db.current, versions, commits, base) && w.db.current <= MAX_I32
    ensures var next := TagAll(w, versions, commits).0.repo;
            if Follows(w.repo, commits[0]) || !FirstIsSet(w, versions[0].version) then InOrder(next)
            else Crossed(next.tags)
  {
    hide MaxTag, TagFor, IsAncestor, Tagged, Core, Line, TagAll, TagsOrdered, Settable, Overlaid, Ascending;
    var have := MaxTag(w.repo.tags);
    var k := TagAllSetsPrefix(w, versions, commits);
    if Follows(w.repo, commits[0]) {
      LandedOrder(w.repo, w.db.current, versions, commits, base, k);
    } else if k == 0 {
      assert versions[..0] == [] && commits[..0] == [];
      TaggedNone(w.repo.tags);
    } else {
      MissingAscends(versions, have, w.db.current);
      AscendingPrefix(versions, have, k);
      TaggedKeeps(w.repo.tags, versions[..k], commits[..k], have);
      TaggedAt(w.repo.tags, versions[..k], commits[..k], have, 0);
      PairCrossed(Tagged(w.repo.tags, versions[..k], commits[..k]), have);
    }
  }

  lemma PairCrossed(tags: map<string, Commit>, have: nat)
    requires have + 1 <= MAX_I32 && TagFor(have) in tags && TagFor(have + 1) in tags
    requires !IsAncestor(tags[TagFor(have)], tags[TagFor(have + 1)])
    ensures Crossed(tags)
  {
    hide TagFor, VersionOfTag, IsAncestor;
    TagForReads(have);
    TagForReads(have + 1);
  }

  // ---- the alignment and the order ------------------------------------------------------------

  /** The commits that catch-up would take for the missing versions. */
  ghost function Found(w: World): Option<seq<Commit>> {
    TailCommits(w.repo.main, Above(w))
  }

  /** Catch-up would put the tags of missing versions on commits that do not come after the highest tag. */
  ghost predicate Misplaces(w: World) {
    && w.repo.main.Some? && MaxTag(w.repo.tags) < w.db.current
    && Found(w).Some? && Found(w).value != [] && !Follows(w.repo, Found(w).value[0])
    && FirstIsSet(w, MaxTag(w.repo.tags) + 1)
  }

  lemma BuildMissingOrder(w: World, versions: seq<VersionData>)
    requires Live(w.repo, w.db.current) && InOrder(w.repo)
    requires Missing(versions, MaxTag(w.repo.tags), w.db.current) && w.db.current <= MAX_I32
    ensures InOrder(BuildHistory(w, versions, w.repo.main, Carry).0.repo)
  {
    hide MaxTag, TagFor, IsAncestor, Core, Live, TagAll, Chain, UpdateMain, Lawful, Line, TagsOrdered, FirstIsSet;
    LiveIsCore(w.repo, w.db.current);
    var main := w.repo.main.value;
    var chain := Chain(versions, w.repo.main, Carry);
    var tip := chain[|chain| - 1];
    ChainIsLine(versions, w.repo.main, Carry);
    LineAncestors(chain, w.repo.main, 0, |chain| - 1);
    LineAncestors(chain, w.repo.main, 0, 0);
    var (moved, result) := UpdateMain(w, tip, w.repo.main);
    if result.Moved? {
      MovedCore(w, tip);
      OrderMove(w.repo, tip);
      if TagFor(MaxTag(w.repo.tags)) in w.repo.tags {
        HighestOnMain(w.repo);
        AncestorTransitive(w.repo.tags[TagFor(MaxTag(w.repo.tags))], main, chain[0]);
      }
      TagAllOrder(moved, versions, chain, w.repo.main);
    } else {
      UnmovedLive(w, tip, w.repo.main);
    }
  }

  lemma CatchUpOrder(w: World)
    requires DbOk(w.db) && Live(w.repo, w.db.current) && InOrder(w.repo) && w.db.current <= MAX_I32 && MaxTag(w.repo.tags) < w.db.current
    ensures var next := AppendMissing(w, Above(w)).0.repo;
            && next.main.Some?
            && if Misplaces(w) then Crossed(next.tags) else InOrder(next)
  {
    hide MaxTag, TagFor, IsAncestor, Core, Line, TagAll, BuildHistory, TailCommits, Live, TagsOrdered, VersionsAbove, DbOk, FirstIsSet;
    LiveIsCore(w.repo, w.db.current);
    MissingRows(w.db, MaxTag(w.repo.tags));
    var versions := Above(w);
    AppendMissingLive(w, versions);
    LiveIsCore(AppendMissing(w, versions).0.repo, w.db.current);
    if Found(w).Some? {
      var commits := Found(w).value;
      TailIsLine(w.repo.main, versions);
      TagAllOrder(w, versions, commits, FirstParent(commits[0]));
    } else {
      BuildMissingOrder(w, versions);
    }
  }

  lemma BootstrapOrder(w: World)
    requires DbOk(w.db) && Fresh(w.repo) && w.db.current <= MAX_I32
    ensures InOrder(Bootstrap(w).0.repo)
  {
    hide MaxTag, TagFor, IsAncestor, Core, Line, TagAll, AllVersions, Chain, UpdateMain, Fresh, TagsOrdered, FirstIsSet;
    RowsExist(w.db);
    AllVersionsMissing(w.db);
    FreshMax(w.repo);
    FreshStill(w.repo);
    var (ready, ok) := InitBare(w);
    var versions := AllVersions(w.db);
    var chain := Chain(versions, None, Carry);
    var tip := chain[|chain| - 1];
    ChainIsLine(versions, None, Carry);
    if ok && UpdateMain(ready, tip, None).1.Moved? {
      BornCore(ready, tip);
      FreshIsOrdered(w.repo, tip);
      TagAllOrder(UpdateMain(ready, tip, None).0, versions, chain, None);
    } else if ok {
      UnmovedLive(ready, tip, None);
    }
  }

  lemma FreshIsOrdered(repo: Repo, tip: Commit)
    requires Fresh(repo)
    ensures TagsOrdered(repo.tags, tip) && TagFor(MaxTag(repo.tags)) !in repo.tags
  {
    hide MaxTag, TagFor, VersionOfTag, IsAncestor;
    FreshMax(repo);
    TagForReads(0);
  }

  /** A tip that becomes the next version keeps the order, whether its tag is set or not. */
  lemma ProjectPushedOrder(w: World, now: int)
    requires Live(w.repo, w.db.current) && InOrder(w.repo) && w.db.current < MAX_I32
    ensures InOrder(ProjectPushed(w, now).0.repo) && ProjectPushed(w, now).0.repo.main == w.repo.main
    ensures ProjectPushed(w, now).1.Err? ==> ProjectPushed(w, now).0 == Spent(w)
  {
    hide MaxTag, TagFor, ProjectPushed, Projects, Live, TagsOrdered, Overlaid;
    ProjectPushedShape(w, now);
    LiveIsCore(w.repo, w.db.current);
    NextTagOrder(w.repo, w.db.current);
  }

  lemma NextTagOrder(repo: Repo, current: nat)
    requires Live(repo, current) && InOrder(repo) && current < MAX_I32
    ensures repo.main.Some? && InOrder(repo.(tags := repo.tags[TagFor(current + 1) := repo.main.value]))
  {
    hide MaxTag, TagFor, IsAncestor, Core, Projects, TagsOrdered;
    LiveIsCore(repo, current);
    if MaxTag(repo.tags) <= current {
      Reflexive(repo.main.value);
      if TagFor(MaxTag(repo.tags)) in repo.tags {
        HighestOnMain(repo);
      }
      OrderTag(repo, current + 1, repo.main.value);
    } else {
      assert repo.tags[TagFor(current + 1) := repo.main.value] == repo.tags;
    }
  }

  /** An alignment of an ordered list, stopped anywhere or not: the tags are in order after it exactly when catch-up
      had nothing to misplace; else two tags are crossed. */
  lemma SyncOrder(w: World, now: int)
    requires Inv(w) && InOrder(w.repo) && w.db.current < MAX_I32
    ensures var next := Sync(w, now).0.repo;
            if Misplaces(w) then next.main.Some? && Crossed(next.tags) else InOrder(next)
  {
    hide MaxTag, TagFor, Live, Fresh, DbOk, Sync, Align, Bootstrap, InOrder, Found, Follows, FirstIsSet;
    if Live(w.repo, w.db.current) {
      SyncOfLive(w, now);
      AlignOrder(w, now);
    } else {
      SyncOfFresh(w, now);
      FreshStill(w.repo);
      BootstrapOrder(w);
    }
  }

  lemma AlignOrder(w: World, now: int)
    requires DbOk(w.db) && Live(w.repo, w.db.current) && InOrder(w.repo) && w.db.current < MAX_I32
    ensures var next := Align(w, MaxTag(w.repo.tags), now).0.repo;
            if Misplaces(w) then next.main.Some? && Crossed(next.tags) else InOrder(next)
  {
    hide MaxTag, TagFor, Live, DbOk, InOrder, ProjectPushed, AppendMissing, VersionsAbove, Missing, TagOnTip, Follows, FirstIsSet,
      TailCommits;
    LiveBound(w.repo, w.db.current);
    if MaxTag(w.repo.tags) < w.db.current {
      MissingRows(w.db, MaxTag(w.repo.tags));
      CatchUpOrder(w);
    } else {
      ProjectPushedOrder(w, now);
    }
  }

  // ---- the writes keep the order --------------------------------------------------------------

  lemma WebCommitOrder(s: World, v: VersionData, source: Source)
    requires Live(s.repo, s.db.current) && InOrder(s.repo) && MaxTag(s.repo.tags) <= s.db.current
    requires v.version == s.db.current + 1 <= MAX_I32
    ensures InOrder(BuildHistory(s, [v], s.repo.main, source).0.repo)
  {
    hide MaxTag, TagFor, IsAncestor, Live, Lawful, CommitOf, UpdateMain, BuildHistory, TagsOrdered, Faulty, Rest, Overlaid;
    var current := s.db.current;
    var tip := CommitOf(v, s.repo.main, source);
    LiveIsCore(s.repo, current);
    OneBuild(s, v, source);
    if UpdateMain(s, tip, s.repo.main).1.Moved? {
      MovedCore(s, tip);
      OrderMove(s.repo, tip);
      MovedLive(s.repo, current, tip);
      NextTagOrder(s.repo.(main := Some(tip)), current);
    } else {
      UnmovedLive(s, tip, s.repo.main);
    }
  }

  lemma WriteVersionOrder(s: World, e: Edit)
    requires DbOk(s.db) && Live(s.repo, s.db.current) && InOrder(s.repo) && MaxTag(s.repo.tags) <= s.db.current
    requires s.db.current < MAX_I32 && EditFits(e)
    ensures InOrder(WriteVersion(s, e).0.repo)
  {
    hide MaxTag, TagFor, Live, DbOk, BuildHistory, InputVerdict, WebVersion, PatchMeta, InOrder, SourceOf, NumbersFit, CommitOf, Faulty, Rest;
    var meta := PatchMeta(s.db.meta, e.patch);
    var v := WebVersion(s.db.current + 1, meta, e);
    WebVersionFits(s.db.current + 1, meta, e);
    WebCommitOrder(s, v, SourceOf(e));
  }

  /** A web write: only its alignment can misplace tags. */
  lemma WebOrder(w: World, e: Edit, now: int)
    requires Inv(w) && InOrder(w.repo) && Room(w.db) && EditFits(e)
    ensures var next := CommitWebVersion(w, e, now).0.repo;
            if Misplaces(w) then next.main.Some? && Crossed(next.tags) else InOrder(next)
  {
    hide MaxTag, TagFor, Live, Fresh, DbOk, Sync, WriteVersion, InOrder, Misplaces, Grew, Projects, IsAncestor, Crossed;
    SyncLive(w, now) by { DbRoom(w.db); }
    SyncOrder(w, now) by { DbRoom(w.db); }
    WebLive(w, e, now);
    var (s, outcome) := Sync(w, now);
    var next := CommitWebVersion(w, e, now).0;
    if Misplaces(w) {
      CrossedStays(s.repo.tags, next.repo.tags);
    } else if !outcome.SyncFailed? {
      SyncKeptRoom(w, now);
      WriteVersionOrder(s, e);
    }
  }

  /** After main moved, through the projection and its second try. */
  lemma MovedOrder(w: World, tip: Commit, now: int)
    requires InStep(w) && InOrder(w.repo) && w.db.current < MAX_I32
    requires w.repo.present && Lawful(tip.tree)
    requires w.repo.main.Some? ==> IsAncestor(w.repo.main.value, tip)
    ensures InOrder(ProjectOrLog(Spent(w).(repo := w.repo.(main := Some(tip))), now).repo)
  {
    hide MaxTag, TagFor, Live, Fresh, DbOk, TagsOrdered, ProjectPushed, IsAncestor, Lawful;
    var moved := Spent(w).(repo := w.repo.(main := Some(tip)));
    if w.repo.main.Some? {
      OrderMove(w.repo, tip);
    } else {
      InStepFresh(w);
      FreshIsOrdered(w.repo, tip);
    }
    MovedLive(w.repo, w.db.current, tip);
    ProjectPushedOrder(moved, now);
    var first := ProjectPushed(moved, now).0;
    if first == Spent(moved) {
      ProjectPushedOrder(first, now);
    }
  }

  lemma InStepFresh(w: World)
    requires Inv(w) && w.repo.main.None?
    ensures Fresh(w.repo)
  {
    hide MaxTag, TagFor, DbOk, Lawful, CanonTags, Projects, VersionOfTag;
  }
}

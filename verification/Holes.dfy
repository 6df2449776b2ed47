/** When the tag of a version comes and when it cannot: versions passed over by a higher tag, and names that git
    cannot make while others stand under them. */
module Holes {
  import opened Wrappers
  import opened Text
  import opened Canon
  import opened Rows
  import opened Tree
  import opened Commits
  import opened Protocol
  import opened Mechanics
  import opened Safety
  import opened Settle
  import opened Recovery
  import opened Crashes
  import opened Runs

  /** Version `n` exists and a higher tag is set. */
  ghost predicate Passed(w: World, n: nat) {
    w.repo.present && 1 <= n <= w.db.current && n <= MaxTag(w.repo.tags)
  }

  /** The tag of version `n` is not there, and no write of the service can set it. */
  ghost predicate Barred(w: World, n: nat) {
    TagFor(n) !in w.repo.tags && (Overlaid(w.repo.tags, TagFor(n)) || Passed(w, n))
  }

  /** What the service writes on its own takes no tag away, adds none that stands under another, and goes on counting. */
  predicate Onward(a: World, b: World) {
    && a.repo.tags.Keys <= b.repo.tags.Keys && (forall t :: t in b.repo.tags && t !in a.repo.tags ==> '/' !in t)
    && (a.repo.present ==> b.repo.present) && a.db.current <= b.db.current
  }

  ghost predicate StaysBarred(a: World, b: World, n: nat) {
    Onward(a, b) && (Barred(a, n) ==> Barred(b, n))
  }

  lemma MaxTagGrows(a: map<string, Commit>, b: map<string, Commit>)
    requires a.Keys <= b.Keys
    ensures MaxTag(a) <= MaxTag(b)
  {
    hide MaxTag, VersionOfTag;
    assert IsMaxTag(a, MaxTag(a)) && IsMaxTag(b, MaxTag(b));
    if MaxTag(a) > 0 {
      var name :| name in a && VersionOfTag(name) == Some(MaxTag(a));
      assert name in b;
    }
  }

  lemma OverlaidGrows(a: map<string, Commit>, b: map<string, Commit>, name: string)
    requires a.Keys <= b.Keys && Overlaid(a, name)
    ensures Overlaid(b, name)
  {
    hide Under;
    var t :| t in a && Under(name, t);
    assert t in b;
  }

  lemma OverlaidSame(a: World, b: World, name: string)
    requires Onward(a, b)
    ensures Overlaid(b.repo.tags, name) <==> Overlaid(a.repo.tags, name)
  {
    if Overlaid(a.repo.tags, name) {
      OverlaidGrows(a.repo.tags, b.repo.tags, name);
    }
    if t :| t in b.repo.tags && Under(name, t) {
      assert (name + "/")[|name|] == '/' && t[|name|] == '/';
      assert t in a.repo.tags;
    }
  }

  lemma StillBarred(a: World, b: World, n: nat)
    requires Onward(a, b) && (Barred(a, n) ==> TagFor(n) !in b.repo.tags)
    ensures StaysBarred(a, b, n)
  {
    hide MaxTag, TagFor, Overlaid;
    MaxTagGrows(a.repo.tags, b.repo.tags);
    if Overlaid(a.repo.tags, TagFor(n)) {
      OverlaidGrows(a.repo.tags, b.repo.tags, TagFor(n));
    }
  }

  /** The same tags: a world in which only main, branches, rows or failures changed. */
  lemma SameTagsBarred(a: World, b: World, n: nat)
    requires b.repo.tags == a.repo.tags && (a.repo.present ==> b.repo.present) && a.db.current <= b.db.current
    ensures StaysBarred(a, b, n)
  {
    hide TagFor, Overlaid, MaxTag;
    StillBarred(a, b, n);
  }

  lemma BarredOn(a: World, b: World, c: World, n: nat)
    requires StaysBarred(a, b, n) && StaysBarred(b, c, n)
    ensures StaysBarred(a, c, n)
  {
    hide Barred;
  }

  // ---- the writes -----------------------------------------------------------------------------

  lemma SetTagBarred(w: World, version: int, c: Commit, n: nat)
    ensures Onward(w, SetTag(w, version, c).0)
    ensures version != n || Overlaid(w.repo.tags, TagFor(n)) ==> StaysBarred(w, SetTag(w, version, c).0, n)
  {
    hide TagFor, Overlaid, MaxTag, Faulty, Rest;
    TagForIsPlain(version);
    if version != n || Overlaid(w.repo.tags, TagFor(n)) {
      if TagFor(version) == TagFor(n) {
        TagNamesDiffer(version, n);
      }
      StillBarred(w, SetTag(w, version, c).0, n);
    }
  }

  lemma TagForSign(a: int)
    ensures |TagFor(a)| > 1 && (IsDigit(TagFor(a)[1]) <==> a >= 0)
  {
    hide Dec;
    if a >= 0 {
      assert IsDigit(Dec(a)[0]) && TagFor(a)[1] == Dec(a)[0];
    } else {
      assert TagFor(a)[1] == '-';
    }
  }

  lemma TagNamesDiffer(a: int, n: nat)
    requires TagFor(a) == TagFor(n)
    ensures a == n
  {
    hide TagFor;
    TagForSign(a);
    TagForSign(n);
    if a >= 0 {
      TagForInjective(a, n);
    }
  }

  /** While `n` is barred, none of the versions is `n`, unless git cannot make its tag. */
  ghost predicate Others(w: World, versions: seq<VersionData>, n: nat) {
    Barred(w, n) ==> Overlaid(w.repo.tags, TagFor(n)) || forall i :: 0 <= i < |versions| ==> versions[i].version != n
  }

  lemma {:induction false} TagAllBarred(w: World, versions: seq<VersionData>, commits: seq<Commit>, n: nat)
    requires |versions| == |commits|
    ensures Onward(w, TagAll(w, versions, commits).0)
    ensures Others(w, versions, n) ==> StaysBarred(w, TagAll(w, versions, commits).0, n)
  {
    hide TagFor, Overlaid, MaxTag, SetTag, Barred, Onward;
    if versions == [] {
      SameTagsBarred(w, w, n);
    } else {
      var k := |versions| - 1;
      TagAllBarred(w, versions[..k], commits[..k], n);
      var (front, ok) := TagAll(w, versions[..k], commits[..k]);
      if ok {
        var next := SetTag(front, versions[k].version, commits[k]).0;
        OverlaidSame(w, front, TagFor(n));
        SetTagBarred(front, versions[k].version, commits[k], n);
        OnwardOn(w, front, next);
      }
    }
  }

  lemma OnwardOn(a: World, b: World, c: World)
    requires Onward(a, b) && Onward(b, c)
    ensures Onward(a, c)
  {
  }

  lemma UpdateMainBarred(w: World, tip: Commit, expected: Option<Commit>, n: nat)
    ensures StaysBarred(w, UpdateMain(w, tip, expected).0, n)
    ensures UpdateMain(w, tip, expected).0.repo.tags == w.repo.tags
  {
    hide TagFor, Overlaid, MaxTag, Lawful, IsAncestor, Faulty, Rest, Barred;
    SameTagsBarred(w, UpdateMain(w, tip, expected).0, n);
  }

  lemma BuildHistoryBarred(w: World, versions: seq<VersionData>, parent: Option<Commit>, source: Source, n: nat)
    ensures Onward(w, BuildHistory(w, versions, parent, source).0)
    ensures Others(w, versions, n) ==> StaysBarred(w, BuildHistory(w, versions, parent, source).0, n)
  {
    hide TagFor, Overlaid, MaxTag, Chain, UpdateMain, TagAll, Barred, Onward;
    SameTagsBarred(w, w, n);
    var chain := Chain(versions, parent, source);
    if chain != [] {
      UpdateMainBarred(w, chain[|chain| - 1], parent, n);
      var moved := UpdateMain(w, chain[|chain| - 1], parent).0;
      TagAllBarred(moved, versions, chain, n);
      OnwardOn(w, moved, TagAll(moved, versions, chain).0);
    }
  }

  lemma AppendMissingBarred(w: World, versions: seq<VersionData>, n: nat)
    requires Others(w, versions, n)
    ensures StaysBarred(w, AppendMissing(w, versions).0, n)
  {
    hide TagFor, Overlaid, MaxTag, BuildHistory, TailCommits, TagAll, StaysBarred, Others;
    SameTagsBarred(w, w, n);
    BuildHistoryBarred(w, versions, w.repo.main, Carry, n);
    if w.repo.main.Some? && TailCommits(w.repo.main, versions).Some? {
      TagAllBarred(w, versions, TailCommits(w.repo.main, versions).value, n);
    }
  }

  lemma ProjectPushedBarred(w: World, now: int, n: nat)
    ensures StaysBarred(w, ProjectPushed(w, now).0, n)
  {
    hide TagFor, Overlaid, MaxTag, ProjectPushed, Projects;
    ProjectPushedShape(w, now);
    var next := ProjectPushed(w, now).0;
    if TagFor(w.db.current + 1) == TagFor(n) {
      TagForInjective(w.db.current + 1, n);
    }
    TagForIsPlain(w.db.current + 1);
    StillBarred(w, next, n);
  }

  // ---- the alignment --------------------------------------------------------------------------

  lemma AboveIsOthers(w: World, n: nat)
    ensures Others(w, VersionsAbove(w.db.meta, w.db.rows, MaxTag(w.repo.tags)), n)
  {
    hide TagFor, Overlaid, MaxTag, VersionOf, VersionsAbove;
    var have := MaxTag(w.repo.tags);
    var versions := VersionsAbove(w.db.meta, w.db.rows, have);
    forall k | 0 <= k < |versions| ensures versions[k].version > have {
      VersionsAboveCome(w.db.meta, w.db.rows, have, k);
      var i :| 0 <= i < |w.db.rows| && versions[k] == VersionOf(w.db.meta, w.db.rows[i]) && w.db.rows[i].version > have;
      VersionOfNumber(w.db.meta, w.db.rows[i]);
    }
  }

  lemma AlignBarred(w: World, now: int, n: nat)
    ensures StaysBarred(w, Align(w, MaxTag(w.repo.tags), now).0, n)
  {
    hide TagFor, Overlaid, MaxTag, AppendMissing, ProjectPushed, VersionsAbove, TagOnTip, StaysBarred, Others;
    SameTagsBarred(w, w, n);
    ProjectPushedBarred(w, now, n);
    AboveIsOthers(w, n);
    AppendMissingBarred(w, VersionsAbove(w.db.meta, w.db.rows, MaxTag(w.repo.tags)), n);
  }

  lemma BootstrapBarred(w: World, n: nat)
    requires Barred(w, n) ==> Overlaid(w.repo.tags, TagFor(n))
    ensures StaysBarred(w, Bootstrap(w).0, n)
  {
    hide TagFor, Overlaid, MaxTag, BuildHistory, AllVersions, Barred, Onward;
    var ready := InitBare(w).0;
    SameTagsBarred(w, w, n);
    SameTagsBarred(w, ready, n);
    BuildHistoryBarred(ready, AllVersions(w.db), None, Carry, n);
    OnwardOn(w, ready, BuildHistory(ready, AllVersions(w.db), None, Carry).0);
  }

  lemma SyncBarred(w: World, now: int, n: nat)
    ensures StaysBarred(w, Sync(w, now).0, n)
  {
    hide TagFor, Overlaid, MaxTag, Align, Bootstrap, UpdateMain, StaysBarred;
    SameTagsBarred(w, w, n);
    var restore := Smaller(MaxTag(w.repo.tags), w.db.current);
    AlignBarred(w, now, n);
    if !w.repo.present || MaxTag(w.repo.tags) == 0 {
      BootstrapBarred(w, n);
    }
    if TagFor(restore) in w.repo.tags {
      UpdateMainBarred(w, w.repo.tags[TagFor(restore)], None, n);
      var restored := UpdateMain(w, w.repo.tags[TagFor(restore)], None).0;
      AlignBarred(restored, now, n);
      BarredOn(w, restored, Align(restored, MaxTag(w.repo.tags), now).0, n);
    }
  }

  // ---- the operations -------------------------------------------------------------------------

  lemma WriteVersionBarred(s: World, e: Edit, n: nat)
    ensures StaysBarred(s, WriteVersion(s, e).0, n)
  {
    hide TagFor, Overlaid, MaxTag, BuildHistory, CommitOf, InputVerdict, WebVersion, PatchMeta, SourceOf, StaysBarred, Faulty, Rest;
    SameTagsBarred(s, s, n);
    var meta := PatchMeta(s.db.meta, e.patch);
    var v := WebVersion(s.db.current + 1, meta, e);
    WebNumber(s.db.current + 1, meta, e);
    BuildHistoryBarred(s, [v], s.repo.main, SourceOf(e), n);
    var g := BuildHistory(s, [v], s.repo.main, SourceOf(e)).0;
    var tip := CommitOf(v, s.repo.main, SourceOf(e));
    SameTagsBarred(g, CommitRows(g, e, meta, tip).0, n);
    BarredOn(s, g, CommitRows(g, e, meta, tip).0, n);
  }

  lemma WebNumber(version: nat, meta: Meta, e: Edit)
    ensures WebVersion(version, meta, e).version == version
  {
    hide ValidKind, ShownHeader, SerStepsFromRows;
  }

  lemma WebBarred(w: World, e: Edit, now: int, n: nat)
    ensures StaysBarred(w, CommitWebVersion(w, e, now).0, n)
  {
    hide TagFor, Sync, WriteVersion, StaysBarred, Barred;
    SyncBarred(w, now, n);
    var s := Sync(w, now).0;
    WriteVersionBarred(s, e, n);
    BarredOn(w, s, WriteVersion(s, e).0, n);
  }

  lemma ProjectOrLogBarred(w: World, now: int, n: nat)
    ensures StaysBarred(w, ProjectOrLog(w, now), n)
  {
    hide ProjectPushed, StaysBarred;
    ProjectPushedBarred(w, now, n);
    var first := ProjectPushed(w, now).0;
    ProjectPushedBarred(first, now, n);
    BarredOn(w, first, ProjectPushed(first, now).0, n);
  }

  lemma PushBarred(w: World, tip: Commit, now: int, n: nat)
    ensures StaysBarred(w, Push(w, tip, now), n)
  {
    hide ProjectOrLog, StaysBarred, PushAccepted, Faulty, Rest;
    SameTagsBarred(w, w, n);
    SameTagsBarred(w, Spent(w), n);
    var moved := Spent(w).(repo := w.repo.(main := Some(tip)));
    SameTagsBarred(w, moved, n);
    ProjectOrLogBarred(moved, now, n);
    BarredOn(w, moved, ProjectOrLog(moved, now), n);
  }

  lemma MoveBarred(w: World, commit: Commit, now: int, n: nat)
    ensures StaysBarred(w, MoveAndProject(w, commit, now).0, n)
  {
    hide ProjectOrLog, StaysBarred, UpdateMain;
    UpdateMainBarred(w, commit, w.repo.main, n);
    var moved := UpdateMain(w, commit, w.repo.main).0;
    ProjectOrLogBarred(moved, now, n);
    BarredOn(w, moved, ProjectOrLog(moved, now), n);
  }

  lemma MaxTagFits(tags: map<string, Commit>)
    ensures MaxTag(tags) <= MAX_I32
  {
    hide MaxTag, VersionOfTag;
    assert IsMaxTag(tags, MaxTag(tags));
    if MaxTag(tags) > 0 {
      var name :| name in tags && VersionOfTag(name) == Some(MaxTag(tags));
    }
  }

  /** The operations that write versions. */
  lemma WritesBarred(w: World, op: Op, n: nat)
    requires !Beside(op)
    ensures StaysBarred(w, Exec(w, op), n)
  {
    hide TagFor, Sync, CommitWebVersion, Push, MoveAndProject, MergeCommit, ResolvedCommit, IsAncestor, StaysBarred, MaxTag, Overlaid;
    SameTagsBarred(w, w, n);
    match op
    case DoEnsure(now) =>
      SyncBarred(w, now, n);
      SameTagsBarred(w, InitBare(w).0, n);
    case DoSync(now) => SyncBarred(w, now, n);
    case DoWeb(edit, now) => WebBarred(w, edit, now, n);
    case DoPush(tip, now) => PushBarred(w, tip, now, n);
    case DoMerge(request, now) =>
      if w.repo.main.Some? && request.branch in w.repo.branches {
        var c := MergeCommit(w.repo.main.value, w.repo.branches[request.branch], request);
        if c.Ok? {
          MoveBarred(w, c.value, now, n);
        }
      }
    case DoResolve(canon, request, now) =>
      if w.repo.main.Some? && request.branch in w.repo.branches {
        MoveBarred(w, ResolvedCommit(w.repo.main.value, w.repo.branches[request.branch], canon, request), now, n);
      }
  }

  /** No door to the tags of people makes a barred version tag. */
  lemma BesideBars(w: World, op: Op, n: nat)
    requires Barred(w, n) && Beside(op)
    ensures TagFor(n) !in Exec(w, op).repo.tags && (Passed(w, n) ==> Passed(Exec(w, op), n))
  {
    hide TagFor, MaxTag, Overlaid, SameVersions, PushBranch, CommitListJson, Release, PushTag, DropTag, DropBranch, Passed;
    match op {
      case DoBranch(name, tip) => BranchAside(w, name, tip);
      case DoSuggest(canon, request, expected) => SuggestAside(w, request, canon, expected);
      case DoRelease(name, version) => ReleaseAside(w, name, version);
      case DoTag(name, target) => TagAside(w, name, target);
      case DoUntag(name) => UntagAside(w, name);
      case DoDropBranch(name) => DropBranchAside(w, name);
    }
    SamePassed(w, Exec(w, op), n);
    NotMadeBeside(w, op, n);
  }

  lemma SamePassed(a: World, b: World, n: nat)
    requires SameVersions(a, b)
    ensures Passed(a, n) ==> Passed(b, n)
  {
    hide MaxTag, VersionOfTag;
  }

  lemma NotMadeBeside(w: World, op: Op, n: nat)
    requires Barred(w, n) && Beside(op)
    ensures TagFor(n) !in Exec(w, op).repo.tags
  {
    hide TagFor, VersionOfTag, MaxTag, Faulty, Rest, Overlaid, Under, HookTakes, WithCanon, CarriesCanon, Reserved, Fits;
    TagForReserved(n);
    BarredIsNoRelease(w, n);
  }

  /** A barred name is refused as a release too: it reads as a version, or git cannot make it. */
  lemma BarredIsNoRelease(w: World, n: nat)
    requires Barred(w, n)
    ensures VersionOfTag(TagFor(n)).Some? || !Fits(w.repo.tags, TagFor(n))
  {
    hide TagFor, VersionOfTag, MaxTag;
    if Passed(w, n) {
      MaxTagFits(w.repo.tags);
      TagForReads(n);
    }
  }

  lemma AfterBarred(w: World, s: Step, n: nat)
    requires Barred(w, n)
    ensures TagFor(n) !in After(w, s).repo.tags && (Passed(w, n) ==> Passed(After(w, s), n))
  {
    hide TagFor, Exec, MaxTag, Overlaid;
    var v := w.(plan := s.plan);
    SameTagsBarred(w, v, n);
    if Beside(s.op) {
      BesideBars(v, s.op, n);
    } else {
      WritesBarred(v, s.op, n);
      if Passed(v, n) {
        PassedStays(v, Exec(v, s.op), n);
      }
    }
  }

  lemma PassedStays(a: World, b: World, n: nat)
    requires Onward(a, b) && Passed(a, n)
    ensures Passed(b, n)
  {
    hide MaxTag;
    MaxTagGrows(a.repo.tags, b.repo.tags);
  }

  /** A version whose tag was passed over by a higher one never gets its tag: over any run of any operations from any
      state, whatever fails or does not, and whatever tags people make or delete. */
  lemma {:induction false} PassedForever(w: World, steps: seq<Step>, n: nat)
    requires TagFor(n) !in w.repo.tags && Passed(w, n)
    ensures TagFor(n) !in Run(w, steps).repo.tags && Passed(Run(w, steps), n)
  {
    hide After, TagFor, MaxTag, Overlaid;
    if steps != [] {
      PassedForever(w, steps[..|steps| - 1], n);
      AfterBarred(Run(w, steps[..|steps| - 1]), steps[|steps| - 1], n);
    }
  }

  /** And a version whose name has tags under it gets none as long as that is so. */
  lemma {:induction false} NestedWhile(w: World, steps: seq<Step>, n: nat)
    requires TagFor(n) !in w.repo.tags
    requires forall i :: 0 <= i < |steps| ==> Overlaid(Run(w, steps[..i]).repo.tags, TagFor(n))
    ensures TagFor(n) !in Run(w, steps).repo.tags
  {
    hide After, TagFor, MaxTag, Overlaid;
    if steps != [] {
      var k := |steps| - 1;
      forall i | 0 <= i < k ensures steps[..k][..i] == steps[..i] {}
      NestedWhile(w, steps[..k], n);
      AfterBarred(Run(w, steps[..k]), steps[k], n);
    }
  }

  // ---- when a tag comes back ------------------------------------------------------------------

  /** Git can make the names of all versions above `have` up to `n`. */
  ghost predicate FreeUpTo(tags: map<string, Commit>, have: nat, n: nat) {
    forall m: nat :: have < m <= n ==> !Overlaid(tags, TagFor(m))
  }

  lemma MissingTags(w: World, versions: seq<VersionData>, commits: seq<Commit>, n: nat)
    requires w.plan == [] && |versions| == |commits| && Missing(versions, MaxTag(w.repo.tags), w.db.current)
    requires w.db.current <= MAX_I32 && n <= w.db.current
    ensures TagFor(n) in TagAll(w, versions, commits).0.repo.tags
       <==> TagFor(n) in w.repo.tags || (MaxTag(w.repo.tags) < n && FreeUpTo(w.repo.tags, MaxTag(w.repo.tags), n))
  {
    hide TagFor, MaxTag, Overlaid, TagAll, Tagged, Ascending, Settable, FreeUpTo;
    var have := MaxTag(w.repo.tags);
    var k := TagAllSetsPrefix(w, versions, commits);
    MissingAscends(versions, have, w.db.current);
    PrefixTags(w.repo.tags, versions, commits, k, n);
    if have < n {
      PrefixIsFree(w.repo.tags, versions, have, w.db.current, k, n);
    }
  }

  lemma PrefixTags(tags: map<string, Commit>, versions: seq<VersionData>, commits: seq<Commit>, k: nat, n: nat)
    requires |versions| == |commits| && k <= |versions| && Ascending(versions, MaxTag(tags))
    requires forall i :: 0 <= i < |versions| ==> versions[i].version == MaxTag(tags) + 1 + i
    ensures TagFor(n) in Tagged(tags, versions[..k], commits[..k]) <==> TagFor(n) in tags || MaxTag(tags) < n <= MaxTag(tags) + k
  {
    hide TagFor, MaxTag, Tagged, Ascending;
    var have := MaxTag(tags);
    AscendingPrefix(versions, have, k);
    TaggedKeeps(tags, versions[..k], commits[..k], have);
    if have < n <= have + k {
      TaggedAt(tags, versions[..k], commits[..k], have, n - have - 1);
    } else if TagFor(n) in Tagged(tags, versions[..k], commits[..k]) && TagFor(n) !in tags {
      var i :| 0 <= i < k && TagFor(n) == TagFor(versions[..k][i].version);
      TagForInjective(n, versions[i].version);
    }
  }

  lemma PrefixIsFree(tags: map<string, Commit>, versions: seq<VersionData>, have: nat, current: nat, k: nat, n: nat)
    requires Missing(versions, have, current) && k <= |versions| && have < n <= current
    requires Settable(tags, versions[..k]) && (k < |versions| ==> Overlaid(tags, TagFor(versions[k].version)))
    ensures n <= have + k <==> FreeUpTo(tags, have, n)
  {
    hide TagFor, Overlaid, Settable;
    if n <= have + k {
      forall m: nat | have < m <= n ensures !Overlaid(tags, TagFor(m)) {
        SettableAt(tags, versions[..k], m - have - 1);
      }
    } else {
      assert versions[k].version == have + 1 + k;
    }
  }

  /** The tags after a fault-free alignment of a healable list: the tag of a version stands exactly when it stood
      before, or the version is above the highest tag and git can make its name and those of the versions between. */
  lemma TagsAfterSync(w: World, now: int, n: nat)
    requires w.plan == [] && Inv(w) && w.db.current + 1 < MAX_I32 && 1 <= n <= w.db.current
    ensures TagFor(n) in Sync(w, now).0.repo.tags
       <==> TagFor(n) in w.repo.tags || (MaxTag(w.repo.tags) < n && FreeUpTo(w.repo.tags, MaxTag(w.repo.tags), n))
  {
    hide TagFor, MaxTag, Live, Fresh, DbOk, Sync, Align, Bootstrap, FreeUpTo;
    if Live(w.repo, w.db.current) {
      SyncOfLive(w, now);
      AlignTags(w, now, n);
    } else {
      SyncOfFresh(w, now);
      BootstrapTags(w, n);
    }
  }

  lemma AlignTags(w: World, now: int, n: nat)
    requires w.plan == [] && DbOk(w.db) && Live(w.repo, w.db.current) && w.db.current + 1 < MAX_I32 && 1 <= n <= w.db.current
    ensures TagFor(n) in Align(w, MaxTag(w.repo.tags), now).0.repo.tags
       <==> TagFor(n) in w.repo.tags || (MaxTag(w.repo.tags) < n && FreeUpTo(w.repo.tags, MaxTag(w.repo.tags), n))
  {
    hide TagFor, MaxTag, Live, DbOk, FreeUpTo, AppendMissing, ProjectPushed, VersionsAbove, Missing, Projects, TagOnTip, Overlaid;
    LiveIsCore(w.repo, w.db.current);
    if MaxTag(w.repo.tags) < w.db.current {
      MissingRows(w.db, MaxTag(w.repo.tags));
      CatchUpTags(w, n);
    } else {
      ProjectPushedShape(w, now);
      if TagFor(n) == TagFor(w.db.current + 1) {
        TagForInjective(n, w.db.current + 1);
      }
    }
  }

  lemma CatchUpTags(w: World, n: nat)
    requires w.plan == [] && DbOk(w.db) && Live(w.repo, w.db.current) && w.db.current + 1 < MAX_I32 && 1 <= n <= w.db.current
    requires MaxTag(w.repo.tags) < w.db.current
    ensures TagFor(n) in AppendMissing(w, Above(w)).0.repo.tags
       <==> TagFor(n) in w.repo.tags || (MaxTag(w.repo.tags) < n && FreeUpTo(w.repo.tags, MaxTag(w.repo.tags), n))
  {
    hide TagFor, MaxTag, DbOk, FreeUpTo, TagAll, VersionsAbove, Missing, TailCommits, Chain, Core, Projects, Carries, Lawful, IsAncestor,
      Line;
    LiveIsCore(w.repo, w.db.current);
    CarriesLawful(w.repo);
    MissingRows(w.db, MaxTag(w.repo.tags));
    var versions := Above(w);
    if TailCommits(w.repo.main, versions).Some? {
      MissingTags(w, versions, TailCommits(w.repo.main, versions).value, n);
    } else {
      var chain := Chain(versions, w.repo.main, Carry);
      var tip := chain[|chain| - 1];
      ChainLawful(versions, w.repo.main);
      ChainIsLine(versions, w.repo.main, Carry);
      LineAncestors(chain, w.repo.main, |chain| - 1, |chain| - 1);
      MissingTags(UpdateMain(w, tip, w.repo.main).0, versions, chain, n);
    }
  }

  lemma BootstrapTags(w: World, n: nat)
    requires w.plan == [] && DbOk(w.db) && Fresh(w.repo) && w.db.current + 1 < MAX_I32 && 1 <= n <= w.db.current
    ensures TagFor(n) in Bootstrap(w).0.repo.tags
       <==> TagFor(n) in w.repo.tags || (MaxTag(w.repo.tags) < n && FreeUpTo(w.repo.tags, MaxTag(w.repo.tags), n))
  {
    hide TagFor, MaxTag, DbOk, Fresh, FreeUpTo, TagAll, AllVersions, Missing, Chain, Carries, Lawful;
    FreshMax(w.repo);
    FreshStill(w.repo);
    RowsExist(w.db);
    AllVersionsMissing(w.db);
    NothingCarried();
    var versions := AllVersions(w.db);
    var chain := Chain(versions, None, Carry);
    ChainLawful(versions, None);
    var ready := InitBare(w).0;
    MissingTags(UpdateMain(ready, chain[|chain| - 1], None).0, versions, chain, n);
  }

  // ---- recovery under free names --------------------------------------------------------------

  /** A name that is free before an operation that writes versions is free after it: then the crash of that operation
      is healed in full. */
  lemma FreeNameRecovers(w: World, op: Op, later: int)
    requires Aligned(w) && Room(w.db) && OpFits(op) && !Beside(op)
    requires !Overlaid(w.repo.tags, TagFor(w.db.current + 1))
    ensures var c := Exec(w, op);
            !TipStranded(c) ==> Aligned(Sync(Restarted(c), later).0)
  {
    hide Exec, MaxTag, TagFor, Overlaid, Sync, Aligned, Live, Inv, TipStranded, Makeable, Kept, Safe;
    var c := Exec(w, op);
    CrashRecovers(w, op, later);
    ExecSafe(w, op);
    AlignedIsTagged(w);
    var n := c.db.current + 1;
    WritesOnward(w, op);
    OverlaidSame(w, c, TagFor(w.db.current + 1));
    SafeIsMakeable(w, c);
  }

  lemma SafeIsMakeable(w: World, c: World)
    requires Safe(w, c) && Onward(w, c) && MaxTag(w.repo.tags) == w.db.current && Room(w.db)
    requires !Overlaid(c.repo.tags, TagFor(w.db.current + 1))
    ensures Makeable(c)
  {
    hide MaxTag, TagFor, Overlaid, Live, Fresh, DbOk, Kept, TagOnTip, Projects, VersionsAbove, Missing;
    MaxTagGrows(w.repo.tags, c.repo.tags);
    if MaxTag(c.repo.tags) < c.db.current {
      MissingRows(c.db, MaxTag(c.repo.tags));
      OneIsSettable(c.repo.tags, Above(c), w.db.current);
    }
  }

  lemma OneIsSettable(tags: map<string, Commit>, versions: seq<VersionData>, have: nat)
    requires Missing(versions, have, have + 1) && !Overlaid(tags, TagFor(have + 1))
    ensures Settable(tags, versions)
  {
    hide TagFor, Overlaid;
  }

  lemma WritesOnward(w: World, op: Op)
    requires !Beside(op)
    ensures Onward(w, Exec(w, op))
  {
    hide Exec, TagFor, Overlaid, MaxTag;
    WritesBarred(w, op, 0);
  }
}

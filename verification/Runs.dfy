/** Whole runs: any sequence of operations, each with its own failures. */
module Runs {
  import opened Wrappers
  import opened Text
  import opened Canon
  import opened Tree
  import opened Commits
  import opened Protocol
  import opened Mechanics
  import opened Safety
  import opened Recovery
  import opened Crashes
  import opened Order

  /** One operation and which of its writes fail. */
  datatype Step = Step(op: Op, plan: seq<bool>)

  ghost function After(w: World, s: Step): World {
    Exec(w.(plan := s.plan), s.op)
  }

  ghost function Run(w: World, steps: seq<Step>): World {
    if steps == [] then w else After(Run(w, steps[..|steps| - 1]), steps[|steps| - 1])
  }

  // ---- no accepted commit is lost -------------------------------------------------------------

  /** Main never goes back, and the counter never does. */
  ghost predicate Forward(a: World, b: World) {
    && (a.repo.main.Some? ==> b.repo.main.Some? && IsAncestor(a.repo.main.value, b.repo.main.value))
    && a.db.current <= b.db.current
  }

  lemma ForwardSelf(w: World, next: World)
    requires next.repo.main == w.repo.main && w.db.current <= next.db.current
    ensures Forward(w, next)
  {
    if w.repo.main.Some? {
      Reflexive(w.repo.main.value);
    }
  }

  lemma ForwardTransitive(a: World, b: World, c: World)
    requires Forward(a, b) && Forward(b, c)
    ensures Forward(a, c)
  {
    hide IsAncestor;
    if a.repo.main.Some? {
      AncestorTransitive(a.repo.main.value, b.repo.main.value, c.repo.main.value);
    }
  }

  lemma UpdateMainForward(w: World, tip: Commit, expected: Option<Commit>)
    ensures Forward(w, UpdateMain(w, tip, expected).0) && UpdateMain(w, tip, expected).0.db == w.db
  {
    hide IsAncestor, Lawful;
    UpdateMainKeeps(w, tip, expected);
  }

  lemma TagAllForward(w: World, versions: seq<VersionData>, commits: seq<Commit>)
    requires |versions| == |commits|
    ensures Forward(w, TagAll(w, versions, commits).0) && TagAll(w, versions, commits).0.db == w.db
  {
    hide TagAll, Tagged, Forward;
    var k := TagAllSetsPrefix(w, versions, commits);
    ForwardSelf(w, TagAll(w, versions, commits).0);
  }

  lemma BuildHistoryForward(w: World, versions: seq<VersionData>, parent: Option<Commit>, source: Source)
    ensures Forward(w, BuildHistory(w, versions, parent, source).0) && BuildHistory(w, versions, parent, source).0.db == w.db
  {
    hide TagAll, Chain, UpdateMain, Forward;
    ForwardSelf(w, w);
    var chain := Chain(versions, parent, source);
    if chain != [] {
      UpdateMainForward(w, chain[|chain| - 1], parent);
      var moved := UpdateMain(w, chain[|chain| - 1], parent).0;
      TagAllForward(moved, versions, chain);
      ForwardTransitive(w, moved, TagAll(moved, versions, chain).0);
    }
  }

  lemma AppendMissingForward(w: World, versions: seq<VersionData>)
    ensures Forward(w, AppendMissing(w, versions).0) && AppendMissing(w, versions).0.db == w.db
  {
    hide TagAll, BuildHistory, TailCommits, Forward;
    ForwardSelf(w, w);
    BuildHistoryForward(w, versions, w.repo.main, Carry);
    if w.repo.main.Some? && TailCommits(w.repo.main, versions).Some? {
      TagAllForward(w, versions, TailCommits(w.repo.main, versions).value);
    }
  }

  lemma ProjectPushedForward(w: World, now: int)
    ensures Forward(w, ProjectPushed(w, now).0) && ProjectPushed(w, now).0.repo.main == w.repo.main
  {
    hide ProjectPushed, TagFor, Forward, Projects;
    ProjectPushedShape(w, now);
    ForwardSelf(w, ProjectPushed(w, now).0);
  }

  lemma AlignForward(w: World, have: nat, now: int)
    ensures Forward(w, Align(w, have, now).0)
  {
    hide ProjectPushed, AppendMissing, VersionsAbove, TagFor, Forward, TagOnTip;
    ForwardSelf(w, w);
    ProjectPushedForward(w, now);
    AppendMissingForward(w, VersionsAbove(w.db.meta, w.db.rows, have));
  }

  lemma BootstrapForward(w: World)
    ensures Forward(w, Bootstrap(w).0)
  {
    hide BuildHistory, AllVersions, Forward;
    var ready := InitBare(w).0;
    ForwardSelf(w, w);
    ForwardSelf(w, ready);
    BuildHistoryForward(ready, AllVersions(w.db), None, Carry);
    ForwardTransitive(w, ready, BuildHistory(ready, AllVersions(w.db), None, Carry).0);
  }

  lemma SyncForward(w: World, now: int)
    ensures Forward(w, Sync(w, now).0)
  {
    hide Bootstrap, Align, UpdateMain, MaxTag, TagFor, Forward;
    ForwardSelf(w, w);
    var have := MaxTag(w.repo.tags);
    var restore := Smaller(have, w.db.current);
    BootstrapForward(w);
    AlignForward(w, have, now);
    if TagFor(restore) in w.repo.tags {
      UpdateMainForward(w, w.repo.tags[TagFor(restore)], None);
      var restored := UpdateMain(w, w.repo.tags[TagFor(restore)], None).0;
      AlignForward(restored, have, now);
      ForwardTransitive(w, restored, Align(restored, have, now).0);
    }
  }

  lemma WriteVersionForward(s: World, e: Edit)
    ensures var (next, outcome) := WriteVersion(s, e);
            && Forward(s, next)
            && (outcome.Recorded? ==> outcome.version == next.db.current == s.db.current + 1)
            && (outcome.Recorded? && e.expected.Some? ==> e.expected.value == s.db.current)
  {
    hide BuildHistory, CommitOf, Forward, WebVersion, PatchMeta, InputVerdict, Faulty, Rest;
    ForwardSelf(s, s);
    var v := WebVersion(s.db.current + 1, PatchMeta(s.db.meta, e.patch), e);
    BuildHistoryForward(s, [v], s.repo.main, SourceOf(e));
    var g := BuildHistory(s, [v], s.repo.main, SourceOf(e)).0;
    var done := WriteVersion(s, e).0;
    if done.repo == g.repo {
      ForwardSelf(g, done);
      ForwardTransitive(s, g, done);
    }
  }

  lemma WebForward(w: World, e: Edit, now: int)
    ensures var (next, outcome) := CommitWebVersion(w, e, now);
            && Forward(w, next)
            && (outcome.Recorded? ==> w.db.current < outcome.version == next.db.current)
            && (outcome.Recorded? && e.expected.Some? ==> outcome.version == e.expected.value + 1)
  {
    hide Sync, WriteVersion, IsAncestor;
    SyncForward(w, now);
    var s := Sync(w, now).0;
    WriteVersionForward(s, e);
    ForwardTransitive(w, s, WriteVersion(s, e).0);
  }

  lemma ProjectOrLogForward(w: World, now: int)
    ensures Forward(w, ProjectOrLog(w, now))
  {
    hide ProjectPushed, Forward;
    ProjectPushedForward(w, now);
    var first := ProjectPushed(w, now).0;
    ProjectPushedForward(first, now);
    ForwardTransitive(w, first, ProjectPushed(first, now).0);
  }

  lemma PushForward(w: World, tip: Commit, now: int)
    ensures Forward(w, Push(w, tip, now))
  {
    hide ProjectOrLog, IsAncestor, HookTakes;
    ForwardSelf(w, w);
    var moved := Spent(w).(repo := w.repo.(main := Some(tip)));
    ProjectOrLogForward(moved, now);
    if PushAccepted(w.repo, tip) {
      assert Forward(w, moved);
      ForwardTransitive(w, moved, ProjectOrLog(moved, now));
    }
  }

  lemma MoveAndProjectForward(w: World, commit: Commit, now: int)
    ensures Forward(w, MoveAndProject(w, commit, now).0)
  {
    hide ProjectOrLog, UpdateMain, Forward;
    UpdateMainForward(w, commit, w.repo.main);
    var moved := UpdateMain(w, commit, w.repo.main).0;
    ProjectOrLogForward(moved, now);
    ForwardTransitive(w, moved, ProjectOrLog(moved, now));
  }

  lemma SuggestForward(w: World, r: MergeRequest, canon: Blob, expected: Option<Commit>)
    ensures Forward(w, CommitListJson(w, r, canon, expected).0)
  {
    hide Forward, WithCanon, CarriesCanon;
    ForwardSelf(w, CommitListJson(w, r, canon, expected).0);
  }

  lemma ReleaseForward(w: World, name: string, version: nat)
    ensures Forward(w, Release(w, name, version))
  {
    hide Forward, TagFor, VersionOfTag, Fits;
    ForwardSelf(w, Release(w, name, version));
  }

  lemma AfterForward(w: World, s: Step)
    ensures Forward(w, After(w, s))
  {
    hide Sync, CommitWebVersion, Push, MoveAndProject, MergeCommit, ResolvedCommit, IsAncestor, HookTakes, Fits, Reserved;
    var v := w.(plan := s.plan);
    match s.op
    case DoEnsure(now) =>
      SyncForward(v, now);
      ForwardSelf(v, InitBare(v).0);
    case DoSync(now) => SyncForward(v, now);
    case DoWeb(edit, now) => WebForward(v, edit, now);
    case DoPush(tip, now) => PushForward(v, tip, now);
    case DoMerge(request, now) =>
      ForwardSelf(v, v);
      if v.repo.main.Some? && request.branch in v.repo.branches {
        var c := MergeCommit(v.repo.main.value, v.repo.branches[request.branch], request);
        if c.Ok? {
          MoveAndProjectForward(v, c.value, now);
        }
      }
    case DoResolve(canon, request, now) =>
      ForwardSelf(v, v);
      if v.repo.main.Some? && request.branch in v.repo.branches {
        MoveAndProjectForward(v, ResolvedCommit(v.repo.main.value, v.repo.branches[request.branch], canon, request), now);
      }
    case DoBranch(name, tip) => ForwardSelf(v, PushBranch(v, name, tip));
    case DoSuggest(canon, request, expected) => SuggestForward(v, request, canon, expected);
    case DoRelease(name, version) => ReleaseForward(v, name, version);
    case DoTag(name, target) => ForwardSelf(v, PushTag(v, name, target));
    case DoUntag(name) => ForwardSelf(v, DropTag(v, name));
    case DoDropBranch(name) => ForwardSelf(v, DropBranch(v, name));
  }

  lemma RunNext(w: World, steps: seq<Step>, i: nat)
    requires i < |steps|
    ensures Run(w, steps[..i + 1]) == After(Run(w, steps[..i]), steps[i])
  {
    hide After;
    assert steps[..i + 1][..i] == steps[..i];
  }

  /** No accepted commit is lost: whatever operations run from whatever state and whatever fails, every commit main
      ever pointed at stays on its history, and the counter never goes back. */
  lemma {:induction false} NoCommitIsLost(w: World, steps: seq<Step>, i: nat, j: nat)
    requires i <= j <= |steps|
    ensures Forward(Run(w, steps[..i]), Run(w, steps[..j]))
    decreases j
  {
    hide After, Run, Forward;
    if i == j {
      ForwardSelf(Run(w, steps[..i]), Run(w, steps[..i]));
    } else {
      NoCommitIsLost(w, steps, i, j - 1);
      RunNext(w, steps, j - 1);
      AfterForward(Run(w, steps[..j - 1]), steps[j - 1]);
      ForwardTransitive(Run(w, steps[..i]), Run(w, steps[..j - 1]), Run(w, steps[..j]));
    }
  }

  // ---- edits form a chain ---------------------------------------------------------------------

  /** The answer of the web write at step `i` of a run. */
  ghost function AnswerAt(w: World, steps: seq<Step>, i: nat): WebOutcome
    requires i < |steps| && steps[i].op.DoWeb?
  {
    CommitWebVersion(Run(w, steps[..i]).(plan := steps[i].plan), steps[i].op.edit, steps[i].op.now).1
  }

  lemma AnswerCounts(w: World, steps: seq<Step>, i: nat)
    requires i < |steps| && steps[i].op.DoWeb?
    ensures AnswerAt(w, steps, i).Recorded? ==>
              && Run(w, steps[..i]).db.current < AnswerAt(w, steps, i).version == Run(w, steps[..i + 1]).db.current
              && (steps[i].op.edit.expected.Some? ==> AnswerAt(w, steps, i).version == steps[i].op.edit.expected.value + 1)
  {
    hide Run, CommitWebVersion, IsAncestor;
    RunNext(w, steps, i);
    WebForward(Run(w, steps[..i]).(plan := steps[i].plan), steps[i].op.edit, steps[i].op.now);
  }

  /** The web write at step `i` was recorded as version `n`. */
  ghost predicate RecordedAt(w: World, steps: seq<Step>, i: nat, n: nat) {
    i < |steps| && steps[i].op.DoWeb? && AnswerAt(w, steps, i).Recorded? && AnswerAt(w, steps, i).version == n
  }

  /** Edits form a chain: over any run from any state and under any failures the recorded versions strictly grow,
      an edit with a precondition directly follows the version it was based on, and of two edits based on the same
      version at most one is recorded. */
  lemma EditsFormAChain(w: World, steps: seq<Step>, i: nat, j: nat, m: nat, n: nat)
    ensures i < j && RecordedAt(w, steps, i, m) && RecordedAt(w, steps, j, n) ==>
              && m < n
              && (steps[i].op.edit.expected.Some? ==> m == steps[i].op.edit.expected.value + 1)
              && (steps[j].op.edit.expected.Some? ==> steps[i].op.edit.expected != steps[j].op.edit.expected)
  {
    hide Run, CommitWebVersion, IsAncestor, AnswerAt;
    if i < j && RecordedAt(w, steps, i, m) && RecordedAt(w, steps, j, n) {
      AnswerCounts(w, steps, i);
      AnswerCounts(w, steps, j);
      NoCommitIsLost(w, steps, i + 1, j);
    }
  }

  /** A write whose rows were lost is found by the next one: the same edit sent again is never recorded a second
      time. Its alignment either makes the lost version count, and the edit is told so, or fails. */
  lemma LostWriteIsNotRepeated(w: World, e: Edit, now: int, plan: seq<bool>, later: int)
    requires Inv(w) && Room(w.db) && EditFits(e) && e.expected.Some?
    ensures var lost := CommitWebVersion(w, e, now);
            var answer := CommitWebVersion(lost.0.(plan := plan), e, later).1;
            lost.1.ProjectionLost? ==>
              && (answer.DbFailed? || answer == VersionConflict(e.expected.value, e.expected.value + 1))
              && (plan == [] ==> answer.VersionConflict?)
  {
    hide MaxTag, TagFor, Live, Fresh, DbOk, Sync, CommitWebVersion, Kept, Grew, Projects, WriteVersion;
    WebLive(w, e, now);
    SyncKeptRoom(w, now);
    if CommitWebVersion(w, e, now).1.ProjectionLost? {
      var lost := CommitWebVersion(w, e, now).0.(plan := plan);
      TailIsProjected(lost, later);
      AfterSync(lost, e, later);
      if !Sync(lost, later).1.SyncFailed? {
        WrongBase(Sync(lost, later).0, e);
      }
    }
  }

  lemma WrongBase(s: World, e: Edit)
    requires e.expected.Some? && e.expected.value != s.db.current
    ensures WriteVersion(s, e) == (s, VersionConflict(e.expected.value, s.db.current))
  {
    hide BuildHistory, InputVerdict;
  }

  lemma AfterSync(w: World, e: Edit, now: int)
    requires !Sync(w, now).1.Conflict?
    ensures Sync(w, now).1.SyncFailed? ==> CommitWebVersion(w, e, now).1.DbFailed?
    ensures !Sync(w, now).1.SyncFailed? ==> CommitWebVersion(w, e, now) == WriteVersion(Sync(w, now).0, e)
  {
    hide Sync, WriteVersion;
  }

  /** A tagged tip one version ahead of the database is projected by the next alignment, or that alignment fails. */
  lemma TailIsProjected(w: World, now: int)
    requires DbOk(w.db) && Live(w.repo, w.db.current) && MaxTag(w.repo.tags) == w.db.current + 1 && w.db.current < MAX_I32
    ensures var (next, outcome) := Sync(w, now);
            && !outcome.Conflict?
            && (!outcome.SyncFailed? ==> next.db.current == w.db.current + 1)
            && (w.plan == [] ==> !outcome.SyncFailed?)
  {
    hide MaxTag, TagFor, Live, DbOk, Sync, ProjectPushed, AppendMissing, VersionsAbove, Projects;
    SyncOfLive(w, now);
    LiveBound(w.repo, w.db.current);
    ProjectPushedLive(w, now);
    ProjectsIsNotNone(w, now);
    assert TagOnTip(w.repo, w.db.current + 1);
    if w.plan == [] {
      ProjectionIsDecided(w, now);
    }
  }

  // ---- orderly runs ---------------------------------------------------------------------------

  predicate MovesMain(op: Op) {
    op.DoPush? || op.DoMerge? || op.DoResolve?
  }

  /** Pushes and merges come while git is not a version ahead of the database. */
  ghost predicate Orderly(w: World, steps: seq<Step>) {
    forall i :: 0 <= i < |steps| ==>
      && OpFits(steps[i].op) && Room(Run(w, steps[..i]).db)
      && (MovesMain(steps[i].op) ==> MaxTag(Run(w, steps[..i]).repo.tags) <= Run(w, steps[..i]).db.current)
  }

  lemma AfterInv(w: World, s: Step)
    requires Inv(w) && Room(w.db) && OpFits(s.op)
    requires MovesMain(s.op) ==> MaxTag(w.repo.tags) <= w.db.current
    ensures Inv(After(w, s))
  {
    hide MaxTag, TagFor, Live, Fresh, DbOk, Sync, CommitWebVersion, Push, Merge, Resolve, Ensure, Kept, Grew, Counted, Projects,
      Lawful, Beside;
    var v := w.(plan := s.plan);
    DbRoom(v.db);
    match s.op
    case DoEnsure(now) =>
      EnsureIsSync(v, now);
      SyncSafe(v, now);
    case DoSync(now) => SyncSafe(v, now);
    case DoWeb(edit, now) => WebLive(v, edit, now);
    case DoPush(tip, now) => PushSafe(v, tip, now);
    case DoMerge(request, now) => MergeSafe(v, request, now);
    case DoResolve(canon, request, now) => ResolveSafe(v, canon, request, now);
    case _ =>
      OtherwiseBeside(s.op);
      BesideKeepsVersions(v, s.op);
  }

  lemma OtherwiseBeside(op: Op)
    requires !op.DoEnsure? && !op.DoSync? && !op.DoWeb? && !op.DoPush? && !op.DoMerge? && !op.DoResolve?
    ensures Beside(op)
  {
  }

  /** Over any orderly run, whatever fails, the state stays healable: the version rows are exactly 1..current, git
      is at most one version ahead, and then by a tip that projects. */
  lemma {:induction false} OrderlyRunIsHealable(w: World, steps: seq<Step>)
    requires Inv(w) && Orderly(w, steps)
    ensures Inv(Run(w, steps))
  {
    hide Inv, MaxTag, After, Room, OpFits;
    if steps != [] {
      var n := |steps| - 1;
      forall i | 0 <= i < n ensures steps[..n][..i] == steps[..i] {}
      OrderlyRunIsHealable(w, steps[..n]);
      AfterInv(Run(w, steps[..n]), steps[n]);
    }
  }

  // ---- the order of the tags over runs --------------------------------------------------------

  /** Operations that begin with an alignment. */
  predicate Aligns(op: Op) {
    op.DoEnsure? || op.DoSync? || op.DoWeb?
  }

  /** The alignment of a step would misplace tags. */
  ghost predicate MisplacedBy(w: World, s: Step) {
    Aligns(s.op) && Misplaces(w.(plan := s.plan))
  }

  lemma PushOrder(w: World, tip: Commit, now: int)
    requires InStep(w) && Room(w.db) && InOrder(w.repo) && Lawful(tip.tree)
    ensures InOrder(Push(w, tip, now).repo)
  {
    hide MaxTag, ProjectOrLog, IsAncestor, Lawful, InOrder, Inv, HookTakes;
    InOrderOf(w, Spent(w));
    if w.repo.present && PushAccepted(w.repo, tip) && w.repo.main != Some(tip) {
      MovedOrder(w, tip, now);
    }
  }

  lemma InOrderOf(w: World, next: World)
    requires next.repo == w.repo
    ensures InOrder(next.repo) == InOrder(w.repo)
  {
  }

  lemma MoveAndProjectOrder(w: World, commit: Commit, now: int)
    requires InStep(w) && Room(w.db) && InOrder(w.repo) && w.repo.main.Some?
    ensures InOrder(MoveAndProject(w, commit, now).0.repo)
  {
    hide MaxTag, ProjectOrLog, IsAncestor, Lawful, InOrder, Inv, UpdateMain, Core, Live;
    InStepRoom(w);
    LiveIsCore(w.repo, w.db.current);
    if UpdateMain(w, commit, w.repo.main).1.Moved? {
      MovedCore(w, commit);
      MovedOrder(w, commit, now);
    } else {
      UnmovedLive(w, commit, w.repo.main);
    }
  }

  lemma MergeOrder(w: World, r: MergeRequest, now: int)
    requires InStep(w) && Room(w.db) && InOrder(w.repo)
    ensures InOrder(Merge(w, r, now).0.repo)
  {
    hide MaxTag, MoveAndProject, MergeCommit, InOrder, InStep, Room;
    if w.repo.present && w.repo.main.Some? && r.branch in w.repo.branches {
      var c := MergeCommit(w.repo.main.value, w.repo.branches[r.branch], r);
      if c.Ok? {
        MoveAndProjectOrder(w, c.value, now);
      }
    }
  }

  lemma ResolveOrder(w: World, canon: Blob, r: MergeRequest, now: int)
    requires InStep(w) && Room(w.db) && InOrder(w.repo)
    ensures InOrder(Resolve(w, canon, r, now).0.repo)
  {
    hide MaxTag, MoveAndProject, InOrder, InStep, Room, ResolvedCommit;
    if w.repo.present && w.repo.main.Some? && r.branch in w.repo.branches {
      MoveAndProjectOrder(w, ResolvedCommit(w.repo.main.value, w.repo.branches[r.branch], canon, r), now);
    }
  }

  lemma SameOrder(a: World, b: World)
    requires SameVersions(a, b)
    ensures InOrder(b.repo) == InOrder(a.repo)
    ensures Crossed(a.repo.tags) ==> Crossed(b.repo.tags)
  {
    hide MaxTag, IsAncestor, VersionOfTag;
    if Crossed(a.repo.tags) {
      CrossedStays(a.repo.tags, b.repo.tags);
    }
  }

  /** One step of an orderly run: the order is kept exactly when no alignment in it misplaces tags, whatever fails. */
  lemma AfterOrder(w: World, s: Step)
    requires Inv(w) && Room(w.db) && OpFits(s.op) && InOrder(w.repo)
    requires MovesMain(s.op) ==> MaxTag(w.repo.tags) <= w.db.current
    ensures if MisplacedBy(w, s) then After(w, s).repo.main.Some? && Crossed(After(w, s).repo.tags) else InOrder(After(w, s).repo)
  {
    hide MaxTag, TagFor, Live, Fresh, DbOk, Sync, CommitWebVersion, Push, Merge, Resolve, Ensure, InOrder, Lawful, IsAncestor, Misplaces,
      Crossed, Beside;
    var v := w.(plan := s.plan);
    DbRoom(v.db);
    match s.op
    case DoEnsure(now) =>
      EnsureIsSync(v, now);
      SyncOrder(v, now);
    case DoSync(now) => SyncOrder(v, now);
    case DoWeb(edit, now) => WebOrder(v, edit, now);
    case DoPush(tip, now) => PushOrder(v, tip, now);
    case DoMerge(request, now) => MergeOrder(v, request, now);
    case DoResolve(canon, request, now) => ResolveOrder(v, canon, request, now);
    case _ =>
      OtherwiseBeside(s.op);
      BesideKeepsVersions(v, s.op);
      SameOrder(v, Exec(v, s.op));
  }

  lemma KeptCrossed(a: World, b: World)
    requires Kept(a.repo, b.repo) && Crossed(a.repo.tags)
    ensures Crossed(b.repo.tags)
  {
    hide IsAncestor, VersionOfTag, Crossed;
    CrossedStays(a.repo.tags, b.repo.tags);
  }

  /** Version tags never move in an orderly run, so crossed tags stay crossed. */
  lemma AfterCrossed(w: World, s: Step)
    requires Inv(w) && Room(w.db) && OpFits(s.op) && Crossed(w.repo.tags) && w.repo.main.Some?
    requires MovesMain(s.op) ==> MaxTag(w.repo.tags) <= w.db.current
    ensures Crossed(After(w, s).repo.tags) && After(w, s).repo.main.Some?
  {
    hide MaxTag, TagFor, Live, Fresh, DbOk, Sync, CommitWebVersion, Push, Merge, Resolve, Ensure, Lawful, IsAncestor, Crossed, Grew,
      Counted, Projects, Beside;
    var v := w.(plan := s.plan);
    var next := After(w, s);
    DbRoom(v.db);
    match s.op
    case DoEnsure(now) =>
      EnsureIsSync(v, now);
      SyncSafe(v, now);
      KeptCrossed(v, next);
    case DoSync(now) =>
      SyncSafe(v, now);
      KeptCrossed(v, next);
    case DoWeb(edit, now) =>
      SyncKeptRoom(v, now);
      WebLive(v, edit, now);
      KeptCrossed(v, Sync(v, now).0);
      KeptCrossed(Sync(v, now).0, next);
    case DoPush(tip, now) =>
      PushSafe(v, tip, now);
      KeptCrossed(v, next);
    case DoMerge(request, now) =>
      MergeSafe(v, request, now);
      KeptCrossed(v, next);
    case DoResolve(canon, request, now) =>
      ResolveSafe(v, canon, request, now);
      KeptCrossed(v, next);
    case _ =>
      OtherwiseBeside(s.op);
      BesideKeepsVersions(v, s.op);
      SameOrder(v, next);
  }

  /** Over any orderly run, whatever fails: all version tags lie on the history of main in the order of their numbers,
      exactly when no alignment of the run misplaced tags. Once lost, the order does not come back. */
  lemma {:induction false} RunIsOrdered(w: World, steps: seq<Step>)
    requires Inv(w) && InOrder(w.repo) && Orderly(w, steps)
    ensures InOrder(Run(w, steps).repo) <==> forall i :: 0 <= i < |steps| ==> !MisplacedBy(Run(w, steps[..i]), steps[i])
    ensures !InOrder(Run(w, steps).repo) ==> Run(w, steps).repo.main.Some? && Crossed(Run(w, steps).repo.tags)
  {
    hide Inv, MaxTag, After, Room, OpFits, InOrder, MisplacedBy, Crossed;
    if steps != [] {
      var n := |steps| - 1;
      var front := steps[..n];
      forall i | 0 <= i < n ensures front[..i] == steps[..i] && front[i] == steps[i] {}
      RunIsOrdered(w, front);
      OrderlyRunIsHealable(w, front);
      var before := Run(w, front);
      if InOrder(before.repo) {
        AfterOrder(before, steps[n]);
        if MisplacedBy(before, steps[n]) {
          CrossedIsDisorder(Run(w, steps).repo);
        }
      } else {
        AfterCrossed(before, steps[n]);
        CrossedIsDisorder(Run(w, steps).repo);
      }
    }
  }
}

/** Where healing ends: exactly when a push, a first edit, a pushed tree or a release name leaves a state that no
    alignment mends. */
module Limits {
  import opened Wrappers
  import opened Totals
  import opened Text
  import opened Canon
  import opened Reading
  import opened Rows
  import opened Tree
  import opened AuthoredSets
  import opened Hook
  import opened Commits
  import opened Protocol
  import opened Mechanics
  import opened Safety
  import opened Settle
  import opened Recovery
  import opened Crashes
  import opened Order
  import opened Runs
  import opened Holes
  import opened LostTags

  // ---- when a move of main ends in a conflict -------------------------------------------------

  /** While git is not ahead an alignment never answers with a conflict. */
  lemma BehindIsNoConflict(w: World, now: int)
    requires DbOk(w.db) && w.repo.present && w.repo.main.Some? && MaxTag(w.repo.tags) <= w.db.current
    ensures !Sync(w, now).1.Conflict?
  {
    hide MaxTag, TagFor, DbOk, Sync, AppendMissing, VersionsAbove, Missing, TagOnTip, ProjectPushed;
    SyncIsAlign(w, now);
    if MaxTag(w.repo.tags) < w.db.current {
      MissingRows(w.db, MaxTag(w.repo.tags));
    }
  }

  /** One version ahead by a tag that is not on the tip, it always does. */
  lemma AheadOffTipConflicts(w: World, now: int)
    requires w.repo.present && w.repo.main.Some? && MaxTag(w.repo.tags) == w.db.current + 1 && !TagOnTip(w.repo, w.db.current + 1)
    ensures Sync(w, now) == (w, Conflict(w.db.current + 1, w.db.current))
  {
    hide MaxTag, TagFor, Sync, TagOnTip;
    SyncIsAlign(w, now);
  }

  /** Neither the projection of the tip nor its second try gets through. */
  predicate Unprojected(plan: seq<bool>, tip: Commit) {
    !Projects(tip) || (Faulty(plan) && Faulty(Rest(plan)))
  }

  lemma ProjectOrLogShape(w: World, now: int)
    requires w.repo.main.Some?
    ensures var next := ProjectOrLog(w, now);
            if Unprojected(w.plan, w.repo.main.value) then next.repo == w.repo && next.db == w.db
            else exists s: World :: s.repo == w.repo && s.db == w.db && OneMore(s, next)
  {
    hide ProjectPushed, Projects, OneMore;
    ProjectPushedShape(w, now);
    var first := ProjectPushed(w, now).0;
    ProjectPushedShape(first, now);
  }

  lemma OneMoreIsBehind(s: World, next: World)
    requires OneMore(s, next) && DbOk(s.db) && s.db.current < MAX_I32 && MaxTag(s.repo.tags) <= s.db.current + 1
    ensures DbOk(next.db) && MaxTag(next.repo.tags) <= next.db.current
    ensures next.repo.present == s.repo.present && next.repo.main == s.repo.main
  {
    hide MaxTag, TagFor, Overlaid;
    OneMoreDb(s, next);
    MaxTagInsert(s.repo.tags, s.db.current + 1, s.repo.main.value);
  }

  lemma InvBound(w: World)
    requires Inv(w) && Room(w.db)
    ensures MaxTag(w.repo.tags) <= w.db.current + 1 <= MAX_I32
  {
    hide MaxTag, TagFor, Live, Fresh, DbOk;
    if Live(w.repo, w.db.current) {
      LiveBound(w.repo, w.db.current);
    } else {
      FreshMax(w.repo);
    }
  }

  /** After main moved to `tip`: the next alignment finds a conflict exactly when git was a version ahead and the tip
      was not made into that version. */
  lemma MovedConflicts(w: World, tip: Commit, now: int, later: int)
    requires Inv(w) && Room(w.db) && w.repo.present && w.repo.main != Some(tip)
    ensures Sync(Restarted(ProjectOrLog(w.(repo := w.repo.(main := Some(tip))), now)), later).1.Conflict?
       <==> MaxTag(w.repo.tags) == w.db.current + 1 && Unprojected(w.plan, tip)
  {
    hide MaxTag, TagFor, Live, Fresh, DbOk, ProjectOrLog, Sync, OneMore, Projects, TagOnTip;
    var moved := w.(repo := w.repo.(main := Some(tip)));
    var next := ProjectOrLog(moved, now);
    ProjectOrLogShape(moved, now);
    InvBound(w);
    if !Unprojected(w.plan, tip) {
      var s: World :| s.repo == moved.repo && s.db == moved.db && OneMore(s, next);
      OneMoreIsBehind(s, next);
      BehindIsNoConflict(Restarted(next), later);
    } else if MaxTag(w.repo.tags) <= w.db.current {
      BehindIsNoConflict(Restarted(next), later);
    } else {
      AheadIsLive(w);
      TagLeftBehind(w, tip);
      AheadOffTipConflicts(Restarted(next), later);
    }
  }

  lemma AheadIsLive(w: World)
    requires Inv(w) && MaxTag(w.repo.tags) > w.db.current
    ensures MaxTag(w.repo.tags) == w.db.current + 1 && Live(w.repo, w.db.current)
  {
    hide MaxTag, TagFor, Live, Fresh, DbOk;
    if Fresh(w.repo) {
      FreshMax(w.repo);
    } else {
      LiveBound(w.repo, w.db.current);
    }
  }

  lemma TagLeftBehind(w: World, tip: Commit)
    requires Live(w.repo, w.db.current) && MaxTag(w.repo.tags) == w.db.current + 1 && w.repo.main != Some(tip)
    ensures !TagOnTip(w.repo.(main := Some(tip)), w.db.current + 1)
  {
    hide MaxTag, TagFor, Live, Projects;
    LiveBound(w.repo, w.db.current);
  }

  lemma UnmovedIsNoConflict(w: World, c: World, later: int)
    requires Inv(w) && Room(w.db) && c.repo == w.repo && c.db == w.db
    ensures !Sync(Restarted(c), later).1.Conflict?
  {
    hide MaxTag, TagFor, Live, Fresh, DbOk, Sync;
    DbRoom(w.db);
    SyncLive(Restarted(c), later);
  }

  /** The writes of a push or merge: main, then the projection, then its second try. */
  predicate MovesUnprojected(plan: seq<bool>, tip: Commit) {
    !Faulty(plan) && Unprojected(Rest(plan), tip)
  }

  /** A push and the alignment after it, on any healable list and under any failures: they end in a conflict exactly
      when git was a version ahead of the database (a web write whose rows were lost) and the pushed tip did not
      become that version. Tags that lag behind the counter never lead there. */
  lemma PushConflicts(w: World, tip: Commit, now: int, later: int)
    requires Inv(w) && Room(w.db) && w.repo.present && w.repo.main != Some(tip) && PushAccepted(w.repo, tip)
    ensures Sync(Restarted(Push(w, tip, now)), later).1.Conflict?
       <==> MaxTag(w.repo.tags) == w.db.current + 1 && MovesUnprojected(w.plan, tip)
  {
    hide MaxTag, Live, Fresh, DbOk, ProjectOrLog, Sync, PushAccepted, Unprojected;
    if Faulty(w.plan) {
      UnmovedIsNoConflict(w, Push(w, tip, now), later);
    } else {
      MovedConflicts(Spent(w), tip, now, later);
    }
  }

  /** So pushes have to be kept off exactly the lists where git is a version ahead. */
  lemma PushMayConflict(w: World, tip: Commit, now: int, later: int)
    requires Inv(w) && Room(w.db) && w.repo.present && w.repo.main != Some(tip) && PushAccepted(w.repo, tip)
    ensures (exists plan :: Sync(Restarted(Push(w.(plan := plan), tip, now)), later).1.Conflict?)
       <==> MaxTag(w.repo.tags) == w.db.current + 1
  {
    hide MaxTag, Live, Fresh, DbOk, Push, Sync, PushAccepted, Projects, Room;
    forall plan
      ensures Sync(Restarted(Push(w.(plan := plan), tip, now)), later).1.Conflict?
         <==> MaxTag(w.repo.tags) == w.db.current + 1 && MovesUnprojected(plan, tip)
    {
      PushConflicts(w.(plan := plan), tip, now, later);
    }
    assert MovesUnprojected([false, true, true], tip) by {
      assert Rest([false, true, true]) == [true, true] && Rest([true, true]) == [true];
    }
  }

  lemma MoveConflicts(w: World, commit: Commit, now: int, later: int)
    requires Inv(w) && Room(w.db) && w.repo.present && w.repo.main.Some? && w.repo.main != Some(commit)
    requires IsAncestor(w.repo.main.value, commit)
    ensures Sync(Restarted(MoveAndProject(w, commit, now).0), later).1.Conflict?
       <==> MaxTag(w.repo.tags) == w.db.current + 1 && Lawful(commit.tree) && MovesUnprojected(w.plan, commit)
  {
    hide MaxTag, Live, Fresh, DbOk, ProjectOrLog, Sync, Lawful, IsAncestor, Unprojected;
    if Lawful(commit.tree) && !Faulty(w.plan) {
      MovedConflicts(Spent(w), commit, now, later);
    } else {
      UnmovedIsNoConflict(w, MoveAndProject(w, commit, now).0, later);
    }
  }

  /** The same for a merge that has a commit to put on main. */
  lemma MergeConflicts(w: World, r: MergeRequest, now: int, later: int)
    requires Inv(w) && Room(w.db) && w.repo.present && w.repo.main.Some? && r.branch in w.repo.branches
    requires MergeCommit(w.repo.main.value, w.repo.branches[r.branch], r).Ok?
    ensures var commit := MergeCommit(w.repo.main.value, w.repo.branches[r.branch], r).value;
            (Sync(Restarted(Merge(w, r, now).0), later).1.Conflict?
             <==> MaxTag(w.repo.tags) == w.db.current + 1 && Lawful(commit.tree) && MovesUnprojected(w.plan, commit))
  {
    hide MaxTag, Inv, MoveAndProject, Sync, Lawful, IsAncestor, Unprojected;
    var main, branch := w.repo.main.value, w.repo.branches[r.branch];
    var commit := MergeCommit(main, branch, r).value;
    Reflexive(main);
    if commit != branch {
      ParentIsAncestor(commit, 0);
    }
    if commit == main {
      SelfIsNotParent(main);
    }
    assert IsAncestor(main, commit) by {
      if commit.parents != [] && commit.parents[0] == main {
        ParentIsAncestor(commit, 0);
      }
    }
    MoveConflicts(w, commit, now, later);
  }

  lemma SelfIsNotParent(c: Commit)
    ensures c.parents == [] || c.parents[0] != c
  {
    if c.parents != [] {
      assert c.parents[0] < c;
    }
  }

  /** And for a merge resolved by hand. */
  lemma ResolveConflicts(w: World, canon: Blob, r: MergeRequest, now: int, later: int)
    requires Inv(w) && Room(w.db) && w.repo.present && w.repo.main.Some? && r.branch in w.repo.branches
    requires w.repo.branches[r.branch] != w.repo.main.value
    ensures var commit := ResolvedCommit(w.repo.main.value, w.repo.branches[r.branch], canon, r);
            (Sync(Restarted(Resolve(w, canon, r, now).0), later).1.Conflict?
             <==> MaxTag(w.repo.tags) == w.db.current + 1 && Lawful(commit.tree) && MovesUnprojected(w.plan, commit))
  {
    hide MaxTag, Inv, MoveAndProject, Sync, Lawful, IsAncestor, Unprojected, WithCanon;
    var commit := ResolvedCommit(w.repo.main.value, w.repo.branches[r.branch], canon, r);
    ParentIsAncestor(commit, 0);
    SelfIsNotParent(commit);
    MoveConflicts(w, commit, now, later);
  }

  // ---- what a push leaves while tags lag behind -----------------------------------------------

  /** A push that finds the tags behind the counter becomes the next version. When git can make the tag of that version
      the two stores agree again, and the versions it passed over never get theirs, in no run of any operations; when
      it cannot, they stay apart. */
  lemma LaggingPushPassesOver(w: World, tip: Commit, now: int, n: nat, steps: seq<Step>)
    requires Inv(w) && Room(w.db) && w.repo.present && w.plan == [] && MaxTag(w.repo.tags) < n <= w.db.current
    requires w.repo.main != Some(tip) && PushAccepted(w.repo, tip) && Lawful(tip.tree) && Projects(tip)
    ensures var next := Push(w, tip, now);
            && next.repo.main == Some(tip) && next.db.current == w.db.current + 1
            && (Aligned(next) <==> !Overlaid(w.repo.tags, TagFor(w.db.current + 1)))
            && (Aligned(next) ==> TagFor(n) !in Run(next, steps).repo.tags)
  {
    hide MaxTag, TagFor, Live, Fresh, DbOk, PushAccepted, Projects, Lawful, Overlaid, Run, ProjectPushed;
    var moved := w.(repo := w.repo.(main := Some(tip)));
    MovedLive(w.repo, w.db.current, tip);
    ProjectedIsSettled(moved, now, now);
    ProjectPushedLive(moved, now);
    ProjectionIsDecided(moved, now);
    var next := Push(w, tip, now);
    InvBound(w);
    NoTagAbove(w.repo.tags, n);
    if !Overlaid(w.repo.tags, TagFor(w.db.current + 1)) {
      if TagFor(n) == TagFor(w.db.current + 1) {
        TagForInjective(n, w.db.current + 1);
      }
      PassedForever(next, steps, n);
    }
  }

  // ---- when a moved main costs the tags their order -------------------------------------------

  /** A push or merge keeps the order of the tags itself, whatever fails; the alignment after it loses it exactly when
      what it finds at the end of main for the missing versions does not come after the highest tag. */
  lemma MovedThenOrder(w: World, s: Step, later: int)
    requires Inv(w) && Room(w.db) && OpFits(s.op) && InOrder(w.repo) && MovesMain(s.op) && MaxTag(w.repo.tags) <= w.db.current
    ensures var c := Restarted(After(w, s));
            InOrder(c.repo) && (InOrder(Sync(c, later).0.repo) <==> !Misplaces(c))
  {
    hide MaxTag, After, Sync, InOrder, Misplaces, Crossed, Live, Fresh, DbOk, OpFits;
    AfterOrder(w, s);
    AfterInv(w, s);
    MovedRoom(w, s);
    var c := Restarted(After(w, s));
    InOrderOf(After(w, s), c);
    SyncOrder(c, later);
    if Misplaces(c) {
      CrossedIsDisorder(Sync(c, later).0.repo);
    }
  }

  lemma MovedRoom(w: World, s: Step)
    requires Inv(w) && Room(w.db) && OpFits(s.op) && MovesMain(s.op) && MaxTag(w.repo.tags) <= w.db.current
    ensures After(w, s).db.current <= w.db.current + 1 && After(w, s).db.current < MAX_I32
  {
    hide MaxTag, TagFor, Live, Fresh, DbOk, Push, Merge, Resolve, Lawful, Kept, Counted;
    var v := w.(plan := s.plan);
    DbRoom(v.db);
    match s.op
    case DoPush(tip, now) => PushSafe(v, tip, now);
    case DoMerge(request, now) => MergeSafe(v, request, now);
    case DoResolve(canon, request, now) => ResolveSafe(v, canon, request, now);
  }

  /** What a caller can look at before a push: would its line be taken for the missing versions, and not come after the
      highest tag? */
  ghost predicate Sidelines(w: World, tip: Commit) {
    Misplaces(w.(plan := [], repo := w.repo.(main := Some(tip))))
  }

  /** A push whose projection is lost loses the order at the next alignment exactly when its line is a side line. */
  lemma LostPushOrder(w: World, tip: Commit, plan: seq<bool>, now: int, later: int)
    requires Inv(w) && Room(w.db) && InOrder(w.repo) && Lawful(tip.tree) && MaxTag(w.repo.tags) <= w.db.current
    requires w.repo.present && w.repo.main != Some(tip) && PushAccepted(w.repo, tip) && MovesUnprojected(plan, tip)
    ensures InOrder(Sync(Restarted(Push(w.(plan := plan), tip, now)), later).0.repo) <==> !Sidelines(w, tip)
  {
    hide MaxTag, Sync, InOrder, Misplaces, Live, Fresh, DbOk, Lawful, PushAccepted, ProjectOrLog, Projects;
    var s := Step(DoPush(tip, now), plan);
    MovedThenOrder(w, s, later);
    var moved := w.(plan := Rest(plan), repo := w.repo.(main := Some(tip)));
    ProjectOrLogShape(moved, now);
    assert Restarted(After(w, s)) == w.(plan := [], repo := w.repo.(main := Some(tip)));
  }

  /** The same for a merge that has a lawful commit to put on main, a fast-forward among them. */
  lemma LostMergeOrder(w: World, r: MergeRequest, plan: seq<bool>, now: int, later: int)
    requires Inv(w) && Room(w.db) && InOrder(w.repo) && MaxTag(w.repo.tags) <= w.db.current
    requires w.repo.present && w.repo.main.Some? && r.branch in w.repo.branches
    requires var c := MergeCommit(w.repo.main.value, w.repo.branches[r.branch], r);
             c.Ok? && Lawful(c.value.tree) && MovesUnprojected(plan, c.value)
    ensures var commit := MergeCommit(w.repo.main.value, w.repo.branches[r.branch], r).value;
            (InOrder(Sync(Restarted(Merge(w.(plan := plan), r, now).0), later).0.repo) <==> !Sidelines(w, commit))
  {
    hide MaxTag, Sync, InOrder, Misplaces, Live, Fresh, DbOk, Lawful, ProjectOrLog, Projects, IsAncestor;
    var main, branch := w.repo.main.value, w.repo.branches[r.branch];
    var commit := MergeCommit(main, branch, r).value;
    assert IsAncestor(main, commit) by {
      if commit.parents != [] && commit.parents[0] == main {
        ParentIsAncestor(commit, 0);
      }
    }
    MovedThenOrder(w, Step(DoMerge(r, now), plan), later);
    var moved := w.(plan := Rest(plan), repo := w.repo.(main := Some(commit)));
    ProjectOrLogShape(moved, now);
    assert Restarted(After(w, Step(DoMerge(r, now), plan))) == w.(plan := [], repo := w.repo.(main := Some(commit)));
  }

  /** A commit that joins main from beside: its first-parent line is a line of its own that looks like the missing
      versions, and main is only its second parent. */
  function Stray(w: World, have: nat): Commit
    requires VersionsAbove(w.db.meta, w.db.rows, have) != []
  {
    var versions := VersionsAbove(w.db.meta, w.db.rows, have);
    var n := |versions| - 1;
    var side := TipOf(Chain(versions[..n], None, Carry), None);
    CommitOf(versions[n], None, Replace([]))
      .(parents := (if side.Some? then [side.value] else []) + (if w.repo.main.Some? then [w.repo.main.value] else []))
  }

  /** The tree of a version without author's files. */
  lemma BareTree(v: VersionData)
    ensures HookAccepts(Built(v, [])) && Lawful(Built(v, []))
    ensures "list.json" in Built(v, []) && !IsGitlink(Built(v, [])["list.json"])
    ensures Built(v, []) == BuildTree(v, None, Replace([]))
  {
    hide VersionFiles, HookAccepts, Lawful, IsGitlink, NeedsQuotes;
    TwoDoors(v, []);
    BuiltShape(v, []);
  }

  lemma BareCommit(v: VersionData, parent: Option<Commit>, u: VersionData)
    requires parent.Some? ==> parent.value.tree == Built(u, [])
    ensures CommitOf(v, parent, Carry).tree == Built(v, [])
  {
    hide VersionFiles, PlacedDirs, CarriedDirs, CommitMessage;
    NothingPlaced();
    AuthoredBeside(u, map[]);
  }

  lemma NothingPlaced()
    ensures PlacedDirs([]) == map[]
  {
  }

  /** Every commit of a line built on nothing has a bare tree, which the hook takes. */
  lemma {:induction false} BareChain(versions: seq<VersionData>, c: Commit)
    requires versions != []
    ensures TipOf(Chain(versions, None, Carry), None).value.tree == Built(versions[|versions| - 1], [])
    ensures IsAncestor(c, TipOf(Chain(versions, None, Carry), None).value) ==> HookAccepts(c.tree)
  {
    hide Built, HookAccepts, CommitOf, IsAncestor, Lawful, IsGitlink, BuildTree;
    var n := |versions| - 1;
    var below := TipOf(Chain(versions[..n], None, Carry), None);
    var tip := CommitOf(versions[n], below, Carry);
    if n > 0 {
      BareChain(versions[..n], c);
    }
    BareCommit(versions[n], below, versions[if n > 0 then n - 1 else 0]);
    BareTree(versions[n]);
    CommitParents(versions[n], below, Carry);
    AncestorIs(c, tip);
  }

  lemma CommitParents(v: VersionData, parent: Option<Commit>, source: Source)
    ensures CommitOf(v, parent, source).parents == if parent.Some? then [parent.value] else []
  {
    hide BuildTree, CommitMessage;
  }

  lemma AncestorIs(c: Commit, tip: Commit)
    ensures IsAncestor(c, tip) <==> c == tip || exists i :: 0 <= i < |tip.parents| && IsAncestor(c, tip.parents[i])
  {
  }

  lemma StrayTree(w: World, have: nat)
    requires |VersionsAbove(w.db.meta, w.db.rows, have)| >= 2 && w.repo.main.Some?
    ensures Lawful(Stray(w, have).tree) && PushAccepted(w.repo, Stray(w, have))
  {
    hide VersionsAbove, Lawful, HookAccepts, IsGitlink, IsAncestor, Built, BuildTree, Chain, CommitMessage, Known;
    var versions := VersionsAbove(w.db.meta, w.db.rows, have);
    var n := |versions| - 1;
    var tip := Stray(w, have);
    BareTree(versions[n]);
    ParentIsAncestor(tip, |tip.parents| - 1);
    forall c | IsAncestor(c, tip) ensures Known(w.repo, c) || HookAccepts(c.tree) {
      AncestorIs(c, tip);
      BareChain(versions[..n], c);
      MainIsKnown(w.repo, c);
    }
  }

  lemma MainIsKnown(repo: Repo, c: Commit)
    requires repo.main.Some?
    ensures IsAncestor(c, repo.main.value) ==> Known(repo, c)
  {
    hide IsAncestor;
  }

  /** Catch-up takes the side line for the missing versions. */
  lemma StrayIsFound(w: World, have: nat)
    requires |VersionsAbove(w.db.meta, w.db.rows, have)| >= 2
    ensures var versions := VersionsAbove(w.db.meta, w.db.rows, have);
            var front := Chain(versions[..|versions| - 1], None, Carry);
            && TailCommits(Some(Stray(w, have)), versions) == Some(front + [Stray(w, have)])
            && front[0] == CommitOf(versions[0], None, Carry) && front[0].parents == []
  {
    hide VersionsAbove, BuildTree, CommitMessage, TailCommits;
    var versions := VersionsAbove(w.db.meta, w.db.rows, have);
    var n := |versions| - 1;
    var tip := Stray(w, have);
    ChainIsFound(versions[..n], None, Carry);
    ChainAt(versions[..n], None, Carry, 0);
    RebuildIsSame(versions[n], None, Replace([]));
    FoundNext(versions, tip, Chain(versions[..n], None, Carry));
  }

  /** While two or more tags lag behind, the stray commit may always be pushed, and it is a side line exactly when the
      highest tag is no commit of its own line and git can make the next name. */
  lemma StrayIsSideline(w: World)
    requires InStep(w) && Room(w.db) && w.repo.main.Some? && MaxTag(w.repo.tags) + 2 <= w.db.current
    ensures var have := MaxTag(w.repo.tags);
            var tip := Stray(w, have);
            && PushAccepted(w.repo, tip) && Lawful(tip.tree) && w.repo.main != Some(tip)
            && (Sidelines(w, tip) <==>
                  && !Overlaid(w.repo.tags, TagFor(have + 1)) && TagFor(have) in w.repo.tags
                  && w.repo.tags[TagFor(have)] != CommitOf(VersionOf(w.db.meta, w.db.rows[have]), None, Carry))
  {
    hide MaxTag, TagFor, Live, Fresh, DbOk, VersionsAbove, Stray, Lawful, Chain, PushAccepted,
      CommitOf, TailCommits, IsAncestor, Missing, VersionOf, Overlaid;
    var have := MaxTag(w.repo.tags);
    InStepRoom(w);
    MissingRows(w.db, have);
    MissingAtLeast(Above(w), have, w.db.current);
    FirstAbove(w.db, have);
    StrayTree(w, have);
    StrayIsFound(w, have);
    StrayIsNew(w, have);
    RootAncestors(Chain(Above(w)[..|Above(w)| - 1], None, Carry)[0]);
  }

  lemma RootAncestors(root: Commit)
    ensures root.parents == [] ==> forall c :: IsAncestor(c, root) <==> c == root
  {
  }

  /** So while two or more tags lag behind there is a push that both doors take, every new commit of it, and that
      costs the tags their order when its projection is lost: exactly then. */
  lemma StrayPushBreaksOrder(w: World, plan: seq<bool>, now: int, later: int)
    requires InStep(w) && Room(w.db) && InOrder(w.repo) && w.repo.main.Some? && MaxTag(w.repo.tags) + 2 <= w.db.current
    requires MovesUnprojected(plan, Stray(w, MaxTag(w.repo.tags)))
    ensures var have := MaxTag(w.repo.tags);
            var tip := Stray(w, have);
            && PushAccepted(w.repo, tip) && Lawful(tip.tree)
            && (InOrder(Sync(Restarted(Push(w.(plan := plan), tip, now)), later).0.repo) <==>
                  || Overlaid(w.repo.tags, TagFor(have + 1)) || TagFor(have) !in w.repo.tags
                  || w.repo.tags[TagFor(have)] == CommitOf(VersionOf(w.db.meta, w.db.rows[have]), None, Carry))
  {
    hide MaxTag, TagFor, Live, Fresh, DbOk, Stray, Lawful, PushAccepted, CommitOf, VersionOf, Overlaid, Sync, Push, InOrder, Sidelines,
      MovesUnprojected;
    InStepRoom(w);
    assert Above(w) != [] by { MissingRows(w.db, MaxTag(w.repo.tags)); }
    StrayIsSideline(w);
    LostPushOrder(w, Stray(w, MaxTag(w.repo.tags)), plan, now, later);
  }

  /** A lag of one costs nothing as long as the projection is what is lost: the only commit looked at is the tip. */
  lemma LagOfOneKeepsOrder(w: World, tip: Commit)
    requires InStep(w) && Room(w.db) && InOrder(w.repo) && w.repo.main.Some? && MaxTag(w.repo.tags) + 1 == w.db.current
    requires IsAncestor(w.repo.main.value, tip)
    ensures !Sidelines(w, tip)
  {
    hide MaxTag, TagFor, Live, Fresh, DbOk, VersionsAbove, TailCommits, IsAncestor, Missing, Overlaid, TagsOrdered, Line;
    var have := MaxTag(w.repo.tags);
    InStepRoom(w);
    MissingRows(w.db, have);
    MissingAtLeast(Above(w), have, w.db.current);
    var moved := w.(plan := [], repo := w.repo.(main := Some(tip)));
    assert Above(moved) == Above(w);
    if TailCommits(Some(tip), Above(w)).Some? {
      TailIsLine(Some(tip), Above(w));
      if TagFor(have) in w.repo.tags {
        HighestOnMain(w.repo);
        AncestorTransitive(w.repo.tags[TagFor(have)], w.repo.main.value, tip);
      }
    }
  }

  lemma MissingAtLeast(versions: seq<VersionData>, have: nat, current: nat)
    requires Missing(versions, have, current)
    ensures |versions| == current - have && versions[0].version == have + 1
  {
  }

  /** The first version above the highest tag is that of the next row. */
  lemma FirstAbove(db: Db, have: nat)
    requires DbOk(db) && have < db.current
    ensures VersionsAbove(db.meta, db.rows, have) != []
    ensures VersionsAbove(db.meta, db.rows, have)[0] == VersionOf(db.meta, db.rows[have])
  {
    hide VersionOf, VersionsAbove;
    MissingRows(db, have);
    var versions := VersionsAbove(db.meta, db.rows, have);
    VersionsAboveCome(db.meta, db.rows, have, 0);
    var i :| 0 <= i < |db.rows| && versions[0] == VersionOf(db.meta, db.rows[i]) && db.rows[i].version > have;
    VersionOfNumber(db.meta, db.rows[i]);
  }

  lemma StrayIsNew(w: World, have: nat)
    requires VersionsAbove(w.db.meta, w.db.rows, have) != [] && w.repo.main.Some?
    ensures w.repo.main != Some(Stray(w, have))
  {
    hide VersionsAbove, Chain, CommitOf;
    var tip := Stray(w, have);
    assert tip.parents[|tip.parents| - 1] < tip;
  }

  // ---- lists without version rows -------------------------------------------------------------

  /** The edit passes the checks made before anything is written. */
  predicate Admitted(db: Db, e: Edit) {
    && (e.expected.Some? ==> e.expected.value == db.current)
    && (e.authored.Some? ==> Accepted(e.authored.value))
  }

  lemma ReadyPasses(e: Edit)
    requires e.authored.Some? ==> Accepted(e.authored.value)
    ensures e.authored.Some? ==> InputVerdict(e.authored.value).None?
  {
    hide Accepted, InputVerdict;
    if e.authored.Some? {
      VerdictIsExact(e.authored.value);
    }
  }

  /** The new commit of an edit is lawful exactly when it brings files of its own or can carry those of main. */
  lemma EditLawful(v: VersionData, parent: Option<Commit>, e: Edit)
    requires e.authored.Some? ==> Accepted(e.authored.value)
    ensures Lawful(CommitOf(v, parent, SourceOf(e)).tree) <==> e.authored.Some? || Carries(parent)
  {
    hide Lawful, Accepted, CommitOf, BuildTree, Carries;
    CommitParent(v, parent, SourceOf(e));
    if e.authored.Some? {
      ReplaceReadsBack(v, TreeOf(parent), e.authored.value);
    } else {
      CommitLawful(v, parent);
    }
  }

  lemma RowlessInSync(w: World, now: int)
    requires w.db.rows == [] && w.repo.present && w.repo.main.None? && MaxTag(w.repo.tags) == 0
    ensures Sync(w, now) == (w, InSync)
  {
    hide MaxTag, TagFor, AppendMissing, ProjectPushed;
    assert VersionsAbove(w.db.meta, [], 0) == [];
  }

  /** An untagged main over no rows: only the default counter of a list without versions agrees with it. */
  lemma RowlessUntagged(w: World, now: int)
    requires w.db.rows == [] && w.repo.present && w.repo.main.Some? && MaxTag(w.repo.tags) == 0
    ensures Sync(w, now).1.Conflict? <==> w.db.current > 0
  {
    hide Sync, MaxTag, TagFor, TagOnTip;
    assert VersionsAbove(w.db.meta, [], 0) == [];
    SyncIsAlign(w, now);
  }

  lemma TaggedTipIsNoConflict(w: World, now: int)
    requires w.repo.present && w.repo.main.Some? && w.plan == []
    requires TagFor(MaxTag(w.repo.tags)) in w.repo.tags && w.repo.main == Some(w.repo.tags[TagFor(MaxTag(w.repo.tags))])
    requires MaxTag(w.repo.tags) == w.db.current || (MaxTag(w.repo.tags) == w.db.current + 1 && Projects(w.repo.main.value))
    ensures !Sync(w, now).1.Conflict?
  {
    hide MaxTag, TagFor, ProjectPushed, Projects, Sync;
    SyncIsAlign(w, now);
    ProjectionIsDecided(w, now);
  }

  /** The first edit of a list without version rows, and the alignment after it, under any failures: they end in a
      conflict exactly when the counter is not zero and main was written without the tag, because the write stopped
      there or git cannot make the name: the only thing that could be written again is the row that was never
      committed. */
  lemma RowlessEditConflicts(w: World, e: Edit, now: int, later: int)
    requires w.db.rows == [] && Fresh(w.repo) && w.repo.present && w.db.current + 1 < MAX_I32
    requires EditFits(e) && Admitted(w.db, e)
    ensures Sync(Restarted(CommitWebVersion(w, e, now).0), later).1.Conflict?
       <==> w.db.current > 0 && !Faulty(w.plan) && (Overlaid(w.repo.tags, TagFor(w.db.current + 1)) || Faulty(Rest(w.plan)))
  {
    hide MaxTag, TagFor, Lawful, BuildHistory, CommitOf, WebVersion, PatchMeta, Sync, Fresh, Carries, Accepted, InputVerdict,
      Overlaid, SourceOf, NumbersFit, Faulty, Rest;
    FreshMax(w.repo);
    FreshStill(w.repo);
    RowlessInSync(w, now);
    ReadyPasses(e);
    var n := w.db.current + 1;
    var meta := PatchMeta(w.db.meta, e.patch);
    var v := WebVersion(n, meta, e);
    WebVersionFits(n, meta, e);
    RootBuild(w, v, e);
    var (g, result) := BuildHistory(w, [v], None, SourceOf(e));
    var tip := CommitOf(v, None, SourceOf(e));
    var next := CommitWebVersion(w, e, now).0;
    if g.repo.main.None? {
      RowlessInSync(Restarted(next), later);
    } else if g.repo.tags == w.repo.tags {
      RowlessUntagged(Restarted(next), later);
    } else {
      MaxTagInsert(w.repo.tags, n, tip);
      RowlessProjects(v, SourceOf(e));
      TaggedTipIsNoConflict(Restarted(next), later);
    }
  }

  lemma RowlessProjects(v: VersionData, source: Source)
    requires NumbersFit(v)
    ensures Projects(CommitOf(v, None, source))
  {
    hide Projects, CommitOf, NumbersFit;
    BuiltProjects(v, None, source);
  }

  /** The first version in a repository without refs: main, then its tag. */
  lemma RootBuild(w: World, v: VersionData, e: Edit)
    requires Fresh(w.repo) && w.repo.present && 0 <= v.version <= MAX_I32 && (e.authored.Some? ==> Accepted(e.authored.value))
    ensures var tip := CommitOf(v, None, SourceOf(e));
            var (g, result) := BuildHistory(w, [v], None, SourceOf(e));
            && g.db == w.db && (w.plan == [] ==> g.plan == [])
            && TagFor(v.version) !in w.repo.tags
            && if Faulty(w.plan) then g.repo == w.repo && result == GitFailed
               else if Overlaid(w.repo.tags, TagFor(v.version)) || Faulty(Rest(w.plan)) then g.repo == w.repo.(main := Some(tip)) && result == GitFailed
               else g.repo == w.repo.(main := Some(tip), tags := w.repo.tags[TagFor(v.version) := tip]) && result == Moved
  {
    hide Lawful, CommitOf, TagFor, BuildHistory, Fresh, Carries, Accepted, SourceOf, Overlaid, MaxTag;
    FreshMax(w.repo);
    FreshStill(w.repo);
    assert Carries(None) by { NothingCarried(); }
    EditLawful(v, None, e);
    OneBuild(w, v, SourceOf(e));
    FreshHasNoTag(w.repo, v.version);
  }

  lemma FreshHasNoTag(repo: Repo, n: nat)
    requires Fresh(repo) && n <= MAX_I32
    ensures TagFor(n) !in repo.tags
  {
    hide VersionOfTag, TagFor;
    TagForReads(n);
  }

  // ---- when a web write lands -----------------------------------------------------------------

  /** A web write that passes its checks and meets no failure is recorded exactly when git can make the name of its
      version, and the edit brings the author's files itself or may carry those of main. */
  lemma WebWriteLands(s: World, e: Edit)
    requires s.plan == [] && s.repo.present && Admitted(s.db, e)
    ensures WriteVersion(s, e).1.Recorded?
       <==> !Overlaid(s.repo.tags, TagFor(s.db.current + 1)) && (e.authored.Some? || Carries(s.repo.main))
  {
    hide TagFor, Lawful, BuildHistory, CommitOf, WebVersion, PatchMeta, Carries, Accepted, InputVerdict, Overlaid, SourceOf, IsAncestor;
    ReadyPasses(e);
    var meta := PatchMeta(s.db.meta, e.patch);
    var v := WebVersion(s.db.current + 1, meta, e);
    WebNumber(s.db.current + 1, meta, e);
    CommitParent(v, s.repo.main, SourceOf(e));
    OneBuild(s, v, SourceOf(e));
    EditLawful(v, s.repo.main, e);
    if s.repo.main.Some? {
      ParentIsAncestor(CommitOf(v, s.repo.main, SourceOf(e)), 0);
    }
  }

  /** A tree that the hook takes can be carried on exactly when the author's files, with the bytes of their paths,
      fit the limit of `update_main`. */
  lemma HookedCarries(c: Commit)
    requires HookAccepts(c.tree) && Proper(Dir(c.tree))
    ensures Carries(Some(c)) <==> Sum(Weights(Authored(c.tree))) <= AUTHORED_MAX_BYTES
  {
    hide HookAccepts, Proper, Authored, Sum, Weights, PathsAllowed;
    HookThenLawful(c.tree);
    if Lawful(c.tree) {
      LawfulFiles(c.tree);
    }
  }

  /** On a main that only the hook took, every web write that carries the files over is refused, whatever fails or
      not, and nothing is written. */
  lemma OverweightMainStopsCarrying(s: World, e: Edit)
    requires s.repo.present && s.repo.main.Some? && Admitted(s.db, e) && e.authored.None?
    requires HookAccepts(s.repo.main.value.tree) && Proper(Dir(s.repo.main.value.tree)) && !Lawful(s.repo.main.value.tree)
    ensures WriteVersion(s, e) == (s, WebGitFailed)
  {
    hide TagFor, Lawful, BuildHistory, CommitOf, WebVersion, PatchMeta, Carries, HookAccepts, Proper, Accepted, Authored, Sum, Weights;
    var v := WebVersion(s.db.current + 1, PatchMeta(s.db.meta, e.patch), e);
    HookThenLawful(s.repo.main.value.tree);
    HookedCarries(s.repo.main.value);
    OneBuild(s, v, Carry);
    EditLawful(v, s.repo.main, e);
  }

  // ---- a state in which no alignment goes on --------------------------------------------------

  /** A tree with one file of exactly the limit, as a push may bring it. */
  const HEAVY: Commit :=
    Commit([], Built(VersionData(2, "", 0, "", "", [], true, None, None, []), [BIG_FILE]), 0, "", "")

  /** A list with one version row whose repository is still empty. */
  const EMPTY_REPO: World :=
    World(Repo(true, None, map[], map[]), Db(1, [VersionRow(1, "", 0, [])], Meta("", "", [], true, None, None)), [])

  lemma HeavyFiles()
    ensures HookAccepts(HEAVY.tree) && !Carries(Some(HEAVY)) && HEAVY.parents == []
    ensures "list.json" in HEAVY.tree && !IsGitlink(HEAVY.tree["list.json"])
    ensures forall v: VersionData :: v.version == 1 ==> TailCommits(Some(HEAVY), [v]).None?
  {
    hide HookAccepts, Lawful, VersionFiles, PlacedDirs, BIG_FILE, Placeable, InputBytes, ContentBytes, Authored, PathsAllowed, BuildTree,
      AuthoredLawful;
    var w := VersionData(2, "", 0, "", "", [], true, None, None, []);
    PathBytesDivide(w);
    BigFilePlaceable();
    BuiltShape(w, [BIG_FILE]);
    HeavyIsUnlawful(HEAVY.tree);
    assert HEAVY.tree == BuildTree(w, None, Replace([BIG_FILE])) by { BuiltIsBuild(w, [BIG_FILE]); }
    forall v: VersionData | v.version == 1 ensures TailCommits(Some(HEAVY), [v]).None? {
      if HEAVY.tree == BuildTree(v, Some(HEAVY.tree), Carry) {
        TreesTellVersions(w, None, Replace([BIG_FILE]), v, Some(HEAVY.tree), Carry);
      }
    }
  }

  lemma BuiltIsBuild(v: VersionData, files: seq<AuthoredInput>)
    ensures Built(v, files) == BuildTree(v, None, Replace(files))
  {
    hide VersionFiles, PlacedDirs;
  }

  lemma HeavyIsUnlawful(root: Tree)
    requires !Lawful(root) && "list.json" in root && PathsAllowed(Dir(root), "")
    ensures !FilesLawful(root)
  {
    hide Authored, AuthoredLawful, PathsAllowed;
  }

  /** The stores after the push of `HEAVY` whose projection failed twice. */
  const STUCK: World := EMPTY_REPO.(repo := EMPTY_REPO.repo.(main := Some(HEAVY)))

  lemma HeavyPushed(now: int)
    ensures Restarted(Push(EMPTY_REPO.(plan := [false, true, true]), HEAVY, now)) == STUCK
  {
    hide HookAccepts, Carries, TailCommits, Projects, HEAVY, ProjectOrLog, Known, IsGitlink, IsAncestor;
    HeavyFiles();
    RootAncestors(HEAVY);
    assert [false, true, true][1..] == [true, true] && [true, true][1..] == [true];
    ProjectOrLogShape(STUCK.(plan := [true, true]), now);
  }

  /** The hook takes a heavy push into an empty repository; when its projection is lost, catch-up would have to put
      version 1 on top of it and cannot: every alignment from then on fails. */
  lemma HeavyPushSticks(now: int, later: int)
    ensures Restarted(Push(EMPTY_REPO.(plan := [false, true, true]), HEAVY, now)) == STUCK
    ensures Stuck(STUCK) && Sync(STUCK, later) == (STUCK, SyncFailed)
  {
    hide MaxTag, Carries, TailCommits, Sync, HEAVY, VersionOf, VersionsAbove;
    HeavyPushed(now);
    HeavyFiles();
    NoTagsMax();
    var db := STUCK.db;
    OneRowAbove(db.meta, db.rows);
    var v := VersionOf(db.meta, db.rows[0]);
    assert VersionsAbove(db.meta, db.rows, MaxTag(STUCK.repo.tags)) == [v];
    assert TailCommits(Some(HEAVY), [v]).None?;
    SyncIdempotent(STUCK, later, later);
  }

  lemma OneRowAbove(meta: Meta, rows: seq<VersionRow>)
    requires |rows| == 1 && rows[0].version == 1
    ensures VersionsAbove(meta, rows, 0) == [VersionOf(meta, rows[0])] && VersionOf(meta, rows[0]).version == 1
  {
    hide VersionOf;
    VersionOfNumber(meta, rows[0]);
    assert VersionsAbove(meta, [], 0) == [];
  }

  // ---- releases under the name of a version ---------------------------------------------------

  lemma NestedIsNoVersion(n: nat, rest: string)
    ensures VersionOfTag(TagFor(n) + "/" + rest).None? && Under(TagFor(n), TagFor(n) + "/" + rest)
  {
    hide Dec;
    var name := TagFor(n) + "/" + rest;
    assert name[|TagFor(n)|] == '/' && name[1..][|TagFor(n)| - 1] == '/';
    assert name == (TagFor(n) + "/") + rest;
  }

  /** A release under the name of a version that has no tag yet, such as `v9/rc` before version 9, reads as no version
      and is taken; git cannot make the tag of that version as long as some tag stands under its name, whatever is
      done meanwhile. */
  lemma NestedReleaseBarsVersion(w: World, n: nat, rest: string, version: nat, steps: seq<Step>)
    requires w.repo.present && w.plan == [] && TagFor(version) in w.repo.tags && TagFor(n) !in w.repo.tags
    requires Fits(w.repo.tags, TagFor(n) + "/" + rest)
    ensures var next := Release(w, TagFor(n) + "/" + rest, version);
            && TagFor(n) + "/" + rest in next.repo.tags && Overlaid(next.repo.tags, TagFor(n))
            && ((forall i :: 0 < i < |steps| ==> Overlaid(Run(next, steps[..i]).repo.tags, TagFor(n))) ==>
                  TagFor(n) !in Run(next, steps).repo.tags)
  {
    hide TagFor, VersionOfTag, Fits, Under, Run, MaxTag;
    NestedIsNoVersion(n, rest);
    var name := TagFor(n) + "/" + rest;
    var next := Release(w, name, version);
    assert |name| > |TagFor(n)|;
    assert name in next.repo.tags && Under(TagFor(n), name);
    RunNothing(next, steps);
    if forall i :: 0 < i < |steps| ==> Overlaid(Run(next, steps[..i]).repo.tags, TagFor(n)) {
      NestedWhile(next, steps, n);
    }
  }

  lemma RunNothing(w: World, steps: seq<Step>)
    ensures Run(w, steps[..0]) == w
  {
    hide After;
    assert steps[..0] == [];
  }

  /** Deleting the last tag under the name frees it: then the fault-free write of that version sets its tag. */
  lemma UntaggingFrees(w: World, n: nat, name: string, e: Edit)
    requires w.repo.present && w.plan == [] && w.db.current + 1 == n && Admitted(w.db, e)
    requires Under(TagFor(n), name) && name in w.repo.tags && (forall t :: t in w.repo.tags && Under(TagFor(n), t) ==> t == name)
    ensures var freed := DropTag(w, name);
            && !WriteVersion(w, e).1.Recorded?
            && (WriteVersion(freed, e).1.Recorded? <==> e.authored.Some? || Carries(w.repo.main))
  {
    hide TagFor, WriteVersion, Carries, Accepted;
    NestedIsNotReserved(n, name);
    WebWriteLands(w, e);
    WebWriteLands(DropTag(w, name), e);
  }

  lemma NestedIsNotReserved(n: nat, name: string)
    requires Under(TagFor(n), name)
    ensures !Reserved(name)
  {
    hide Dec;
    assert |TagFor(n)| > 0 && name[|TagFor(n)|] == (TagFor(n) + "/")[|TagFor(n)|] == '/';
    assert name[1..][|TagFor(n)| - 1] == '/';
  }

  /** A pushed tip that lacks its page, with the next version name overlaid, on a list in step, its projection lost: the
      first alignment makes a version of it, and the second fails and puts another commit on main. */
  lemma OverlaidNameWanders(w: World, tip: Commit, now: int, first: int, second: int)
    requires Aligned(w) && Room(w.db) && PushAccepted(w.repo, tip) && Lawful(tip.tree) && Projects(tip) && "README.md" !in tip.tree
    requires Overlaid(w.repo.tags, TagFor(w.db.current + 1)) && w.repo.main != Some(tip)
    ensures var c := Restarted(Push(w.(plan := [false, true, true]), tip, now));
            var s := Sync(c, first);
            && Mislaid(c) && !Stuck(c) && s.1.ProjectedTip?
            && Sync(s.0, second).1.SyncFailed? && Sync(s.0, second).0 != s.0
  {
    hide MaxTag, TagFor, DbOk, PushAccepted, Lawful, Projects, Overlaid, Live, ProjectOrLog, Sync, VersionsAbove, TailCommits, Carries,
      TagOnTip, RowsOk, RowsBelow, OneMore;
    AlignedIsTagged(w);
    AlignedInv(w);
    AlignedTag(w);
    DbIsRowsOk(w.db);
    DbIsPositive(w.db);
    var moved := w.(plan := [true, true], repo := w.repo.(main := Some(tip)));
    assert [false, true, true][1..] == [true, true] && [true, true][1..] == [true];
    ProjectOrLogShape(moved, now);
    var c := Restarted(Push(w.(plan := [false, true, true]), tip, now));
    OnTipMeans(c.repo, w.db.current);
    AlignMislaid(c, first, second);
    SyncIsAlign(c, first);
    var s := Sync(c, first).0;
    OneAbove(c, s);
    PagelessIsNotFound(tip, Above(s)[0]);
    assert Above(s) == [Above(s)[0]];
    LawfulCarries(tip);
  }

  lemma AlignedTag(w: World)
    requires Aligned(w)
    ensures TagFor(w.db.current) in w.repo.tags && w.repo.main == Some(w.repo.tags[TagFor(w.db.current)])
  {
    hide TagFor, MaxTag, Inv;
  }

  lemma LawfulCarries(c: Commit)
    requires Lawful(c.tree)
    ensures Carries(Some(c))
  {
    hide Lawful, FilesLawful;
    LawfulFiles(c.tree);
  }

  /** A tree without a page is none that the service built. */
  lemma PagelessIsNotFound(tip: Commit, v: VersionData)
    requires "README.md" !in tip.tree
    ensures TailCommits(Some(tip), [v]).None?
  {
    hide CarriedDirs, GeneratedFile;
    assert "README.md" in BuildTree(v, Some(tip.tree), Carry) by { DirList(); }
  }

  /** Where the version has its tag, git refuses such a release. */
  lemma NestedReleaseRefused(w: World, n: nat, rest: string, version: nat)
    requires TagFor(n) in w.repo.tags
    ensures Release(w, TagFor(n) + "/" + rest, version) == w
  {
    hide TagFor, VersionOfTag, Under;
    NestedIsNoVersion(n, rest);
  }
}

/** The protocol as the service runs it: objects changed write by write. Every method is proved against the
    function of `Protocol` that specifies it. */
module Engine {
  import opened Wrappers
  import opened Text
  import opened Json
  import opened Canon
  import opened Rows
  import opened Tree
  import opened Commits
  import opened Notes
  import opened Protocol
  import opened Mechanics
  import Pushed = Projection

  /** The bare repository: main, tags and branches. */
  class GitRepo {
    var present: bool
    var main: Option<Commit>
    var tags: map<string, Commit>
    var branches: map<string, Commit>

    ghost function Now(): Repo
      reads this
    {
      Repo(present, main, tags, branches)
    }

    function Value(): (r: Repo)
      reads this
      ensures r == Now()
    {
      Repo(present, main, tags, branches)
    }

    constructor ()
      ensures Now() == NO_REPO
    {
      present, main, tags, branches := false, None, map[], map[];
    }
  }

  /** The rows of one list. */
  class Database {
    var current: nat
    var rows: seq<VersionRow>
    var meta: Meta

    ghost function Now(): Db
      reads this
    {
      Db(current, rows, meta)
    }

    constructor (current: nat, rows: seq<VersionRow>, meta: Meta)
      ensures Now() == Db(current, rows, meta)
    {
      this.current, this.rows, this.meta := current, rows, meta;
    }

    /** One transaction: a field that the file did not have, or had in an inadmissible form, stays. */
    method ApplyMeta(raw: RawList)
      modifies this`meta
      ensures meta == UpdateMeta(old(meta), raw)
    {
      hide Trim, Blank, SkillHeaderValid, IsValidKind, Take20;
      var m := meta;
      if raw.title.Some? && !Blank(raw.title.value) {
        m := m.(title := Trim(raw.title.value));
      }
      if raw.desc.Some? {
        m := m.(desc := Trim(raw.desc.value));
      }
      m := UpdateFlags(m, raw);
      assert m.title == UpdateMeta(meta, raw).title && m.desc == UpdateMeta(meta, raw).desc;
      meta := m;
    }
  }

  /** The other fields of a pushed meta, one update after another. */
  method UpdateFlags(meta: Meta, raw: RawList) returns (m: Meta)
    ensures m == UpdateMeta(meta, raw).(title := meta.title, desc := meta.desc)
  {
    hide Trim, Blank, SkillHeaderValid, IsValidKind, Take20;
    m := meta;
    if raw.tags.Some? {
      m := m.(tags := Take20(raw.tags.value));
    }
    if raw.ordered.Some? {
      m := m.(ordered := raw.ordered.value);
    }
    if raw.kind.Some? && IsValidKind(raw.kind.value) {
      m := m.(kind := raw.kind);
    }
    var header := UpdateHeader(meta.skillHeader, raw.skillHeader);
    m := m.(skillHeader := header);
  }

  /** An explicit empty header removes the header; a malformed one is ignored. */
  method UpdateHeader(old_: Option<Json>, pushed: Option<Json>) returns (header: Option<Json>)
    ensures header == match pushed
                      case None => old_
                      case Some(h) =>
                        if h == EMPTY_OBJECT then None else if SkillHeaderValid(h).Some? then SkillHeaderValid(h) else old_
  {
    hide SkillHeaderValid;
    header := old_;
    if pushed.Some? {
      if pushed.value == EMPTY_OBJECT {
        header := None;
      } else if SkillHeaderValid(pushed.value).Some? {
        header := SkillHeaderValid(pushed.value);
      }
    }
  }

  /** The disk and the network: each durable write asks whether it fails. */
  class Faults {
    var plan: seq<bool>

    constructor (plan: seq<bool>)
      ensures this.plan == plan
    {
      this.plan := plan;
    }

    method Write() returns (ok: bool)
      modifies this
      ensures ok == !Faulty(old(plan)) && plan == Rest(old(plan))
    {
      ok := plan == [] || !plan[0];
      plan := if plan == [] then [] else plan[1..];
    }
  }

  // ---- reading --------------------------------------------------------------------------------

  /** The highest version among the tags, in whatever order they are listed. */
  method MaxTagIn(tags: map<string, Commit>) returns (max: nat)
    ensures max == MaxTag(tags)
  {
    hide MaxTag, VersionOfTag;
    max := 0;
    var left := tags.Keys;
    while left != {}
      invariant left <= tags.Keys
      invariant max == 0 || exists name :: name in tags && VersionOfTag(name) == Some(max)
      invariant forall name :: name in tags && name !in left && VersionOfTag(name).Some? ==> VersionOfTag(name).value <= max
      decreases |left|
    {
      var name :| name in left;
      left := left - {name};
      var n := VersionOfTag(name);
      if n.Some? && max < n.value {
        max := n.value;
      }
    }
    MaxTagIs(tags, max);
  }

  lemma VersionsAboveNext(meta: Meta, rows: seq<VersionRow>, have: nat, i: nat)
    requires i < |rows|
    ensures VersionsAbove(meta, rows[..i + 1], have)
         == VersionsAbove(meta, rows[..i], have) + (if rows[i].version > have then [VersionOf(meta, rows[i])] else [])
  {
    hide VersionOf;
    assert rows[..i + 1][..i] == rows[..i];
  }

  lemma VersionsAboveNone(meta: Meta, have: nat)
    ensures VersionsAbove(meta, [], have) == []
  {
  }

  /** Loads the versions above `have`. */
  method LoadVersionsAbove(db: Database, have: nat) returns (versions: seq<VersionData>)
    ensures versions == VersionsAbove(db.meta, db.rows, have)
  {
    hide VersionsAbove, VersionOf;
    versions := [];
    assert db.rows[..0] == [];
    VersionsAboveNone(db.meta, have);
    for i := 0 to |db.rows|
      invariant versions == VersionsAbove(db.meta, db.rows[..i], have)
    {
      VersionsAboveNext(db.meta, db.rows, have, i);
      if db.rows[i].version > have {
        versions := versions + [VersionOf(db.meta, db.rows[i])];
      }
    }
    assert db.rows[..|db.rows|] == db.rows;
  }

  method LoadAllVersions(db: Database) returns (versions: seq<VersionData>)
    ensures versions == AllVersions(db.Now())
  {
    hide VersionOf;
    versions := [];
    for i := 0 to |db.rows|
      invariant |versions| == i && forall j :: 0 <= j < i ==> versions[j] == VersionOf(db.meta, db.rows[j])
    {
      versions := versions + [VersionOf(db.meta, db.rows[i])];
    }
  }

  function Reversed(commits: seq<Commit>): (r: seq<Commit>)
    ensures |r| == |commits|
    ensures forall i :: 0 <= i < |commits| ==> r[i] == commits[|commits| - 1 - i]
  {
    seq(|commits|, i requires 0 <= i < |commits| => commits[|commits| - 1 - i])
  }

  /** What the walk has still to find, put before what it has found. */
  function Joined(rest: Option<seq<Commit>>, found: seq<Commit>): Option<seq<Commit>> {
    match rest
    case None => None
    case Some(front) => Some(front + found)
  }

  lemma TailStep(c: Commit, versions: seq<VersionData>, k: nat, found: seq<Commit>)
    requires 0 < k <= |versions|
    ensures c.tree != BuildTree(versions[k - 1], Some(c.tree), Carry) ==> TailCommits(Some(c), versions[..k]) == None
    ensures c.tree == BuildTree(versions[k - 1], Some(c.tree), Carry) ==>
              Joined(TailCommits(Some(c), versions[..k]), found) == Joined(TailCommits(FirstParent(c), versions[..k - 1]), [c] + found)
  {
    hide BuildTree;
    assert versions[..k][..k - 1] == versions[..k - 1] && versions[..k][k - 1] == versions[k - 1];
    var rest := TailCommits(FirstParent(c), versions[..k - 1]);
    if rest.Some? {
      assert rest.value + [c] + found == rest.value + ([c] + found);
    }
  }

  lemma TailEnds(tip: Option<Commit>, versions: seq<VersionData>)
    ensures TailCommits(tip, []) == Some([])
    ensures versions != [] ==> TailCommits(None, versions) == None
  {
  }

  /** Walks main from the tip, first parent by first parent, comparing trees. */
  method FindTail(tip: Commit, versions: seq<VersionData>) returns (r: Option<seq<Commit>>)
    ensures r == TailCommits(Some(tip), versions)
  {
    hide TailCommits, BuildTree;
    var oids: seq<Commit> := [];
    var cur := Some(tip);
    var k := |versions|;
    assert versions[..k] == versions && Reversed(oids) == [];
    assert Joined(TailCommits(cur, versions[..k]), []) == TailCommits(cur, versions) by { JoinedNothing(TailCommits(cur, versions)); }
    while k > 0
      invariant 0 <= k <= |versions|
      invariant Joined(TailCommits(cur, versions[..k]), Reversed(oids)) == TailCommits(Some(tip), versions)
    {
      if cur.None? {
        TailEnds(None, versions[..k]);
        return None;
      }
      var c := cur.value;
      TailStep(c, versions, k, Reversed(oids));
      if c.tree != BuildTree(versions[k - 1], Some(c.tree), Carry) {
        return None;
      }
      assert Reversed(oids + [c]) == [c] + Reversed(oids);
      oids := oids + [c];
      cur := FirstParent(c);
      k := k - 1;
    }
    TailEnds(cur, versions);
    assert versions[..0] == [] && [] + Reversed(oids) == Reversed(oids);
    return Some(Reversed(oids));
  }

  lemma JoinedNothing(rest: Option<seq<Commit>>)
    ensures Joined(rest, []) == rest
  {
    if rest.Some? {
      assert rest.value + [] == rest.value;
    }
  }

  // ---- the rules of a tree --------------------------------------------------------------------

  /** A leaf of the node stands at `leaf`. */
  predicate HasLeaf(node: Node, path: string, leaf: string) {
    match node
    case Leaf(_, _) => leaf == path
    case Dir(entries) => exists name :: name in entries && HasLeaf(entries[name], Child(path, name), leaf)
  }

  /** Walks a tree and stops at the first leaf outside the allowlist; directories are not judged themselves. */
  method FirstForeignPath(node: Node, path: string) returns (foreign: Option<string>)
    ensures foreign.None? <==> PathsAllowed(node, path)
    ensures foreign.Some? ==> HasLeaf(node, path, foreign.value) && !TreePathAllowed(foreign.value)
    decreases node
  {
    hide TreePathAllowed;
    if node.Leaf? {
      return if TreePathAllowed(path) then None else Some(path);
    }
    var left := node.entries.Keys;
    while left != {}
      invariant left <= node.entries.Keys
      invariant forall name :: name in node.entries && name !in left ==> PathsAllowed(node.entries[name], Child(path, name))
      decreases |left|
    {
      var name :| name in left;
      left := left - {name};
      foreign := FirstForeignPath(node.entries[name], Child(path, name));
      if foreign.Some? {
        return;
      }
    }
    return None;
  }

  /** The checks of `update_main` on a tree, in their order. */
  method TreeViolation(root: Tree) returns (v: Option<Violation>)
    ensures v.None? <==> Lawful(root)
    ensures v == Some(MissingListJson) <==> "list.json" !in root
    ensures v.Some? && v.value.ForeignPath? ==> HasLeaf(Dir(root), "", v.value.path) && !TreePathAllowed(v.value.path)
    ensures v.Some? && !v.value.MissingListJson? && !v.value.ForeignPath? ==> Justified(v.value, Authored(root))
  {
    hide AuthoredLawful, Authored, TreePathAllowed;
    if "list.json" !in root {
      return Some(MissingListJson);
    }
    var foreign := FirstForeignPath(Dir(root), "");
    if foreign.Some? {
      return Some(ForeignPath(foreign.value));
    }
    v := AuthoredViolation(Authored(root));
  }

  // ---- one list -------------------------------------------------------------------------------

  /** A list under its guard: the two stores and the failures to come. */
  class Site {
    const repo: GitRepo
    const db: Database
    const faults: Faults

    ghost function Now(): World
      reads repo, db, faults
    {
      World(repo.Now(), db.Now(), faults.plan)
    }

    constructor (repo: GitRepo, db: Database, faults: Faults)
      ensures this.repo == repo && this.db == db && this.faults == faults
    {
      this.repo, this.db, this.faults := repo, db, faults;
    }

    method UpdateMain(tip: Commit, expected: Option<Commit>) returns (result: MainResult)
      modifies repo, faults
      ensures (Now(), result) == Protocol.UpdateMain(old(Now()), tip, expected)
    {
      hide Lawful, IsAncestor, Faulty, Rest;
      var violation := TreeViolation(tip.tree);
      if violation.Some? {
        return Refused;
      }
      if repo.main != expected {
        return Stale;
      }
      if expected.Some? && !IsAncestor(expected.value, tip) {
        return NonFastForward;
      }
      var ok := faults.Write();
      if !ok {
        return GitFailed;
      }
      repo.main := Some(tip);
      return Moved;
    }

    method SetTag(version: int, c: Commit) returns (ok: bool)
      modifies repo, faults
      ensures (Now(), ok) == Protocol.SetTag(old(Now()), version, c)
    {
      hide TagFor, Faulty, Rest, Overlaid;
      if Overlaid(repo.tags, TagFor(version)) {
        return false;
      }
      ok := faults.Write();
      if ok {
        repo.tags := repo.tags[TagFor(version) := c];
      }
    }

    method TagAll(versions: seq<VersionData>, commits: seq<Commit>) returns (ok: bool)
      requires |versions| == |commits|
      modifies repo, faults
      ensures (Now(), ok) == Protocol.TagAll(old(Now()), versions, commits)
    {
      hide Protocol.TagAll, Protocol.SetTag;
      ghost var start := Now();
      assert versions[..0] == [] && commits[..0] == [];
      TagAllNone(start);
      for i := 0 to |versions|
        invariant (Now(), true) == Protocol.TagAll(start, versions[..i], commits[..i])
      {
        TagAllNext(start, versions, commits, i);
        ok := SetTag(versions[i].version, commits[i]);
        if !ok {
          TagAllStops(start, versions, commits, i + 1);
          return;
        }
      }
      assert versions[..|versions|] == versions && commits[..|commits|] == commits;
      return true;
    }

    method CommitVersion(v: VersionData, parent: Option<Commit>, source: Source) returns (c: Commit)
      ensures c == CommitOf(v, parent, source)
    {
      hide BuildTree;
      var root := WriteTree(v, TreeOf(parent), source);
      c := Commit(if parent.Some? then [parent.value] else [], root, v.ts, AUTHOR_NAME, CommitMessage(v));
    }

    /** Main first, then the tags: a refused main leaves no tag on an orphan. */
    method BuildHistory(versions: seq<VersionData>, base: Option<Commit>, source: Source) returns (result: MainResult)
      modifies repo, faults
      ensures (Now(), result) == Protocol.BuildHistory(old(Now()), versions, base, source)
    {
      hide Chain, CommitOf, Protocol.TagAll, Protocol.UpdateMain;
      var parent := base;
      var commits: seq<Commit> := [];
      assert versions[..0] == [];
      ChainNone(base, source);
      for i := 0 to |versions|
        invariant Now() == old(Now())
        invariant commits == Chain(versions[..i], base, source) && parent == TipOf(commits, base)
      {
        ChainNext(versions, base, source, i);
        var c := CommitVersion(versions[i], parent, source);
        commits := commits + [c];
        parent := Some(c);
      }
      assert versions[..|versions|] == versions;
      if commits == [] {
        return Moved;
      }
      result := UpdateMain(commits[|commits| - 1], base);
      if !result.Moved? {
        return;
      }
      var ok := TagAll(versions, commits);
      result := if ok then Moved else GitFailed;
    }

    method AppendMissing(versions: seq<VersionData>) returns (ok: bool)
      modifies repo, faults
      ensures (Now(), ok) == Protocol.AppendMissing(old(Now()), versions)
    {
      hide Protocol.BuildHistory, Protocol.TagAll, TailCommits;
      if versions == [] {
        return true;
      }
      if repo.main.Some? {
        var commits := FindTail(repo.main.value, versions);
        if commits.Some? {
          ok := TagAll(versions, commits.value);
          return;
        }
      }
      var result := BuildHistory(versions, repo.main, Carry);
      ok := result.Moved?;
    }

    method InitBare() returns (ok: bool)
      modifies repo, faults
      ensures (Now(), ok) == Protocol.InitBare(old(Now()))
    {
      hide Faulty, Rest;
      ok := faults.Write();
      if ok {
        repo.present := true;
      }
    }

    method Bootstrap() returns (outcome: Option<SyncOutcome>)
      modifies repo, faults
      ensures (Now(), outcome) == Protocol.Bootstrap(old(Now()))
    {
      hide Protocol.BuildHistory, AllVersions, Protocol.InitBare;
      if db.rows == [] {
        return None;
      }
      InitKeepsDb(Now());
      var versions := LoadAllVersions(db);
      var ok := InitBare();
      if !ok {
        return Some(SyncFailed);
      }
      var result := BuildHistory(versions, None, Carry);
      return Some(if result.Moved? then Bootstrapped(|db.rows|) else SyncFailed);
    }

    method WriteMeta(raw: RawList)
      modifies db, faults
      ensures Now() == Protocol.WriteMeta(old(Now()), raw)
    {
      hide UpdateMeta, Faulty, Rest;
      var ok := faults.Write();
      if ok {
        db.ApplyMeta(raw);
      }
    }

    /** Ok(None) when the tip carries no canon with steps. */
    method ProjectPushed(now: int) returns (result: Projection)
      modifies repo, db, faults
      ensures (Now(), result) == Protocol.ProjectPushed(old(Now()), now)
    {
      hide ManifestOf, ParseSteps, ProjRows, StepsAt, UpdateMeta, NoteFor, Protocol.SetTag, Protocol.WriteMeta, Faulty, Rest;
      if repo.main.None? || !Projects(repo.main.value) {
        return Ok(None);
      }
      var tip := repo.main.value;
      var raw := ManifestOf(tip).value;
      var rows := Pushed.PushedRows(raw.steps.value, StepsAt(db.rows, db.current));
      var row := VersionRow(db.current + 1, NoteFor(tip.message), now, rows);
      assert row == ProjectedRow(db.Now(), raw, tip.message, now);
      var ok := faults.Write();
      if !ok {
        return Err(());
      }
      db.rows := db.rows + [row];
      db.current := db.current + 1;
      var version := db.current;
      WriteMeta(raw);
      var tagged := SetTag(version, tip);
      return Ok(Some(version));
    }

    method Align(have: nat, now: int) returns (outcome: SyncOutcome)
      modifies repo, db, faults
      ensures (Now(), outcome) == Protocol.Align(old(Now()), have, now)
    {
      hide Protocol.ProjectPushed, Protocol.AppendMissing, VersionsAbove, TagOnTip;
      var current := db.current;
      if have == current {
        if current > 0 && !TagOnTip(repo.Value(), current) {
          var result := ProjectPushed(now);
          return match result
            case Ok(Some(v)) => ProjectedTip(v)
            case Ok(None) => TipNotVersioned(current)
            case Err(_) => SyncFailed;
        }
        return InSync;
      }
      if have < current {
        var versions := LoadVersionsAbove(db, have);
        if versions == [] {
          return if have == 0 && repo.main.None? then InSync else Conflict(have, current);
        }
        var ok := AppendMissing(versions);
        return if ok then Appended(have + 1, current) else SyncFailed;
      }
      if have == current + 1 && TagOnTip(repo.Value(), have) {
        var result := ProjectPushed(now);
        return match result
          case Ok(Some(v)) => ProjectedTip(v)
          case Ok(None) => Conflict(have, current)
          case Err(_) => SyncFailed;
      }
      return Conflict(have, current);
    }

    /** Recognises the state of the two stores and heals it. */
    method Sync(now: int) returns (outcome: SyncOutcome)
      modifies repo, db, faults
      ensures (Now(), outcome) == Protocol.Sync(old(Now()), now)
    {
      hide Protocol.Align, Protocol.Bootstrap, Protocol.UpdateMain, MaxTag, TagFor;
      if !repo.present {
        var built := Bootstrap();
        return built.GetOr(InSync);
      }
      var have := MaxTagIn(repo.tags);
      if repo.main.None? {
        var restore := Smaller(have, db.current);
        if restore > 0 && TagFor(restore) in repo.tags {
          var moved := UpdateMain(repo.tags[TagFor(restore)], None);
          if !moved.Moved? {
            return SyncFailed;
          }
          outcome := Align(have, now);
          return if outcome.InSync? then MainRestored(restore) else outcome;
        }
        if have == 0 && db.rows != [] {
          var built := Bootstrap();
          return built.GetOr(InSync);
        }
      }
      outcome := Align(have, now);
    }

    method WriteVersion(e: Edit) returns (outcome: WebOutcome)
      modifies repo, db, faults
      ensures (Now(), outcome) == Protocol.WriteVersion(old(Now()), e)
    {
      hide Protocol.BuildHistory, CommitOf, InputVerdict, WebVersion, PatchMeta, Faulty, Rest;
      var current := db.current;
      if e.expected.Some? && e.expected.value != current {
        return VersionConflict(e.expected.value, current);
      }
      if e.authored.Some? {
        var violation := AuthoredInputViolation(e.authored.value);
        if violation.Some? {
          return AuthoredRefused;
        }
      }
      if !repo.present {
        return WebGitFailed;
      }
      var meta := PatchMeta(db.meta, e.patch);
      var v := WebVersion(current + 1, meta, e);
      var parent := repo.main;
      var result := BuildHistory([v], parent, SourceOf(e));
      if result.Refused? && e.authored.Some? {
        return AuthoredRefused;
      }
      if !result.Moved? {
        return WebGitFailed;
      }
      var commit := CommitOf(v, parent, SourceOf(e));
      var ok := faults.Write();
      if !ok {
        return ProjectionLost(current + 1, commit);
      }
      db.current, db.rows, db.meta := current + 1, db.rows + [VersionRow(current + 1, e.note, e.ts, e.rows)], meta;
      return Recorded(current + 1, commit);
    }

    method CommitWebVersion(e: Edit, now: int) returns (outcome: WebOutcome)
      modifies repo, db, faults
      ensures (Now(), outcome) == Protocol.CommitWebVersion(old(Now()), e, now)
    {
      hide Protocol.Sync, Protocol.WriteVersion;
      var aligned := Sync(now);
      match aligned {
        case Conflict(have, current) => return OutOfSync(have, current);
        case SyncFailed => return DbFailed;
        case _ => outcome := WriteVersion(e);
      }
    }

    method ProjectOrLog(now: int)
      modifies repo, db, faults
      ensures Now() == Protocol.ProjectOrLog(old(Now()), now)
    {
      hide Protocol.ProjectPushed;
      var result := ProjectPushed(now);
      if result.Err? {
        var again := ProjectPushed(now);
      }
    }

    method MoveAndProject(commit: Commit, now: int) returns (outcome: MergeOutcome)
      modifies repo, db, faults
      ensures (Now(), outcome) == Protocol.MoveAndProject(old(Now()), commit, now)
    {
      hide Protocol.ProjectOrLog, Protocol.UpdateMain;
      var result := UpdateMain(commit, repo.main);
      if !result.Moved? {
        return MainRefused;
      }
      ProjectOrLog(now);
      return Merged(commit);
    }

    method MergeBranch(r: MergeRequest, now: int) returns (outcome: MergeOutcome)
      modifies repo, db, faults
      ensures (Now(), outcome) == Protocol.Merge(old(Now()), r, now)
    {
      hide Protocol.MoveAndProject, MergeCommit;
      if !repo.present || r.branch !in repo.branches || repo.main.None? {
        return NotFound;
      }
      match MergeCommit(repo.main.value, repo.branches[r.branch], r) {
        case Err(refusal) => return refusal;
        case Ok(commit) => outcome := MoveAndProject(commit, now);
      }
    }

    method MergeResolved(canon: Blob, r: MergeRequest, now: int) returns (outcome: MergeOutcome)
      modifies repo, db, faults
      ensures (Now(), outcome) == Protocol.Resolve(old(Now()), canon, r, now)
    {
      hide Protocol.MoveAndProject, WithCanon;
      if !repo.present || r.branch !in repo.branches || repo.main.None? {
        return NotFound;
      }
      var main, branch := repo.main.value, repo.branches[r.branch];
      if main == branch {
        return NothingToMerge;
      }
      var root := EditCanon(main.tree, canon);
      var commit := Commit(if r.squash then [main] else [main, branch], root, r.time, r.author, r.message);
      outcome := MoveAndProject(commit, now);
    }

    method CommitListJson(r: MergeRequest, canon: Blob, expected: Option<Commit>) returns (outcome: BranchOutcome)
      modifies repo, faults
      ensures (Now(), outcome) == Protocol.CommitListJson(old(Now()), r, canon, expected)
    {
      hide WithCanon, CarriesCanon, Faulty, Rest;
      if !repo.present || r.branch !in repo.branches {
        return BranchNotFound;
      }
      var tip := repo.branches[r.branch];
      if expected.Some? && expected.value != tip {
        return BranchStale;
      }
      if CarriesCanon(tip.tree, canon) {
        return Unchanged(tip);
      }
      var root := EditCanon(tip.tree, canon);
      var commit := Commit([tip], root, r.time, r.author, r.message);
      var ok := faults.Write();
      if !ok {
        return BranchGitFailed;
      }
      repo.branches := repo.branches[r.branch := commit];
      return Committed(commit);
    }
  }

  /** Edits a tree entry by entry around a ready canon. */
  method EditCanon(root: Tree, canon: Blob) returns (edited: Tree)
    ensures edited == WithCanon(root, canon)
  {
    hide PageFor;
    edited := root["list.json" := Leaf(Regular, canon)];
    var page := PageFor(canon);
    if page.Some? {
      edited := edited["README.md" := Leaf(Regular, Written(page.value))];
    }
    edited := edited[".gitattributes" := Leaf(Regular, Written(GITATTRIBUTES))];
    if "steps" in edited {
      edited := edited - {"steps"};
    }
  }

  lemma InitKeepsDb(w: World)
    ensures Protocol.InitBare(w).0.db == w.db
  {
  }

  lemma TagAllNone(w: World)
    ensures Protocol.TagAll(w, [], []) == (w, true)
  {
  }

  lemma TagAllNext(w: World, versions: seq<VersionData>, commits: seq<Commit>, i: nat)
    requires i < |versions| == |commits| && Protocol.TagAll(w, versions[..i], commits[..i]).1
    ensures Protocol.TagAll(w, versions[..i + 1], commits[..i + 1])
         == Protocol.SetTag(Protocol.TagAll(w, versions[..i], commits[..i]).0, versions[i].version, commits[i])
  {
    hide Protocol.SetTag;
    assert versions[..i + 1][..i] == versions[..i] && commits[..i + 1][..i] == commits[..i];
  }

  /** The first failure is where the tagging stays. */
  lemma {:induction false} TagAllStops(w: World, versions: seq<VersionData>, commits: seq<Commit>, i: nat)
    requires i <= |versions| == |commits| && !Protocol.TagAll(w, versions[..i], commits[..i]).1
    ensures Protocol.TagAll(w, versions, commits) == Protocol.TagAll(w, versions[..i], commits[..i])
    decreases |versions|
  {
    hide Protocol.SetTag;
    if i == |versions| {
      assert versions[..i] == versions && commits[..i] == commits;
    } else {
      var n := |versions| - 1;
      assert versions[..n][..i] == versions[..i] && commits[..n][..i] == commits[..i];
      TagAllStops(w, versions[..n], commits[..n], i);
    }
  }

  lemma ChainNone(base: Option<Commit>, source: Source)
    ensures Chain([], base, source) == []
  {
  }

  lemma ChainNext(versions: seq<VersionData>, base: Option<Commit>, source: Source, i: nat)
    requires i < |versions|
    ensures Chain(versions[..i + 1], base, source)
         == Chain(versions[..i], base, source) + [CommitOf(versions[i], TipOf(Chain(versions[..i], base, source), base), source)]
  {
    hide CommitOf;
    assert versions[..i + 1][..i] == versions[..i];
  }
}

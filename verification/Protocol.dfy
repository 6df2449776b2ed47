/** The git-first version protocol as functions on the two stores. Every durable write may fail: `plan` says,
    write by write, which ones do (true is a failure, an empty plan has no more failures). A crash is a plan
    whose remaining writes all fail. */
module Protocol {
  import opened Wrappers
  import opened Totals
  import opened Text
  import opened Canon
  import opened Rows
  import opened Readme
  import opened Tree
  import opened Commits
  import opened Notes
  import Hook

  // ---- the two stores -------------------------------------------------------------------------

  datatype Repo = Repo(present: bool, main: Option<Commit>, tags: map<string, Commit>, branches: map<string, Commit>)

  const NO_REPO := Repo(false, None, map[], map[])

  datatype VersionRow = VersionRow(version: nat, note: string, ts: int, steps: seq<StepRow>)

  /** A list in Postgres: its counter, its version rows in ascending order and its meta. */
  datatype Db = Db(current: nat, rows: seq<VersionRow>, meta: Meta)

  datatype World = World(repo: Repo, db: Db, plan: seq<bool>)

  /** Does the next durable write fail? */
  predicate Faulty(plan: seq<bool>) {
    plan != [] && plan[0]
  }

  function Rest(plan: seq<bool>): seq<bool> {
    if plan == [] then [] else plan[1..]
  }

  function Spent(w: World): World {
    w.(plan := Rest(w.plan))
  }

  // ---- version tags ---------------------------------------------------------------------------

  /** `m` is the highest version number among the tags, 0 when there is none. */
  ghost predicate IsMaxTag(tags: map<string, Commit>, m: nat) {
    && (m == 0 || exists name :: name in tags && VersionOfTag(name) == Some(m))
    && forall name :: name in tags && VersionOfTag(name).Some? ==> VersionOfTag(name).value <= m
  }

  function TagNumber(name: string): nat {
    VersionOfTag(name).GetOr(0)
  }

  function Larger(a: nat, b: nat): nat {
    if a < b then b else a
  }

  ghost function MaxTag(tags: map<string, Commit>): (m: nat)
    ensures IsMaxTag(tags, m)
    decreases |tags|
  {
    if tags == map[] then 0
    else
      var name := Pick(tags);
      var rest := tags - {name};
      assert forall t :: t in tags <==> t in rest || t == name;
      Larger(TagNumber(name), MaxTag(rest))
  }

  /** The tag the service writes for a version. */
  function TagFor(version: int): string {
    "v" + DecInt(version)
  }

  // ---- writes to git --------------------------------------------------------------------------

  datatype MainResult = Moved | Refused | Stale | NonFastForward | GitFailed

  /** The single point that moves main: tree rules, then the expected old tip, then fast-forward, then the write. */
  ghost function UpdateMain(w: World, tip: Commit, expected: Option<Commit>): (World, MainResult) {
    if !Lawful(tip.tree) then (w, Refused)
    else if w.repo.main != expected then (w, Stale)
    else if expected.Some? && !IsAncestor(expected.value, tip) then (w, NonFastForward)
    else if Faulty(w.plan) then (Spent(w), GitFailed)
    else (Spent(w).(repo := w.repo.(main := Some(tip))), Moved)
  }

  /** `name` would stand in the directory `dir`. */
  predicate Under(dir: string, name: string) {
    dir + "/" <= name
  }

  /** Git makes no ref where others stand under its name: no `v3` beside `v3/rc`. */
  predicate Overlaid(tags: map<string, Commit>, name: string) {
    exists t :: t in tags && Under(name, t)
  }

  /** Sets one version tag, by force. */
  function SetTag(w: World, version: int, c: Commit): (World, bool) {
    if Overlaid(w.repo.tags, TagFor(version)) then (w, false)
    else if Faulty(w.plan) then (Spent(w), false)
    else (Spent(w).(repo := w.repo.(tags := w.repo.tags[TagFor(version) := c])), true)
  }

  /** Sets the tags of some versions in order and stops at the first failure. */
  function TagAll(w: World, versions: seq<VersionData>, commits: seq<Commit>): (World, bool)
    requires |versions| == |commits|
  {
    if versions == [] then (w, true)
    else
      var n := |versions| - 1;
      var (front, ok) := TagAll(w, versions[..n], commits[..n]);
      if !ok then (front, false) else SetTag(front, versions[n].version, commits[n])
  }

  function TipOf(chain: seq<Commit>, parent: Option<Commit>): Option<Commit> {
    if chain == [] then parent else Some(chain[|chain| - 1])
  }

  /** One commit per version, each on top of the one before. */
  function Chain(versions: seq<VersionData>, parent: Option<Commit>, source: Source): (chain: seq<Commit>)
    ensures |chain| == |versions|
  {
    if versions == [] then []
    else
      var front := Chain(versions[..|versions| - 1], parent, source);
      front + [CommitOf(versions[|versions| - 1], TipOf(front, parent), source)]
  }

  /** Builds the commits of `versions` on `parent`, moves main to the last one, then sets the tags. */
  ghost function BuildHistory(w: World, versions: seq<VersionData>, parent: Option<Commit>, source: Source): (World, MainResult) {
    var chain := Chain(versions, parent, source);
    if chain == [] then (w, Moved)
    else
      var (moved, result) := UpdateMain(w, chain[|chain| - 1], parent);
      if !result.Moved? then (moved, result)
      else
        var (tagged, ok) := TagAll(moved, versions, chain);
        (tagged, if ok then Moved else GitFailed)
  }

  /** The commits of `versions` when all of them lie at the end of main already, compared by tree from the top. */
  function TailCommits(tip: Option<Commit>, versions: seq<VersionData>): (r: Option<seq<Commit>>)
    ensures r.Some? ==> |r.value| == |versions|
    decreases |versions|
  {
    if versions == [] then Some([])
    else
      match tip
      case None => None
      case Some(c) =>
        var n := |versions| - 1;
        if c.tree != BuildTree(versions[n], Some(c.tree), Carry) then None
        else
          match TailCommits(FirstParent(c), versions[..n])
          case None => None
          case Some(front) => Some(front + [c])
  }

  /** Catch-up: versions that lost only their tags get them back, others are committed. */
  ghost function AppendMissing(w: World, versions: seq<VersionData>): (World, bool) {
    if versions == [] then (w, true)
    else
      match if w.repo.main.Some? then TailCommits(w.repo.main, versions) else None
      case Some(commits) => TagAll(w, versions, commits)
      case None =>
        var (built, result) := BuildHistory(w, versions, w.repo.main, Carry);
        (built, result.Moved?)
  }

  function InitBare(w: World): (World, bool) {
    if Faulty(w.plan) then (Spent(w), false) else (Spent(w).(repo := w.repo.(present := true)), true)
  }

  // ---- reading the database -------------------------------------------------------------------

  function VersionOf(meta: Meta, row: VersionRow): VersionData {
    LoadVersion(row.version, row.note, row.ts, meta, row.steps)
  }

  /** The versions above `have`, each under today's meta. */
  function VersionsAbove(meta: Meta, rows: seq<VersionRow>, have: nat): seq<VersionData> {
    if rows == [] then []
    else
      var last := rows[|rows| - 1];
      VersionsAbove(meta, rows[..|rows| - 1], have) + (if last.version > have then [VersionOf(meta, last)] else [])
  }

  function AllVersions(db: Db): (r: seq<VersionData>)
    ensures |r| == |db.rows|
    ensures forall i :: 0 <= i < |r| ==> r[i] == VersionOf(db.meta, db.rows[i])
  {
    seq(|db.rows|, i requires 0 <= i < |db.rows| => VersionOf(db.meta, db.rows[i]))
  }

  /** The step rows of one version. */
  function StepsAt(rows: seq<VersionRow>, version: nat): seq<StepRow> {
    if rows == [] then []
    else if rows[|rows| - 1].version == version then rows[|rows| - 1].steps
    else StepsAt(rows[..|rows| - 1], version)
  }

  // ---- projecting the tip of main -------------------------------------------------------------

  /** The manifest a commit carries. */
  function ManifestOf(c: Commit): Option<RawList> {
    if "list.json" !in c.tree then None
    else
      match c.tree["list.json"]
      case Dir(_) => None
      case Leaf(mode, blob) =>
        if mode == Gitlink || JsonOf(blob).None? then None else DecodeList(JsonOf(blob).value)
  }

  predicate Projects(c: Commit) {
    ManifestOf(c).Some? && ManifestOf(c).value.steps.Some?
  }

  function ProjectedRow(db: Db, raw: RawList, message: string, now: int): VersionRow {
    VersionRow(db.current + 1, NoteFor(message), now, ProjRows(ParseSteps(raw.steps.GetOr([])), StepsAt(db.rows, db.current)))
  }

  function AddRow(db: Db, row: VersionRow): Db {
    Db(db.current + 1, db.rows + [row], db.meta)
  }

  /** Ok(Some(v)) created version v, Ok(None) had nothing to project, Err(()) could not write the version. */
  type Projection = Result<Option<nat>, ()>

  function WriteMeta(w: World, raw: RawList): World {
    if Faulty(w.plan) then Spent(w) else Spent(w).(db := w.db.(meta := UpdateMeta(w.db.meta, raw)))
  }

  /** The tip of main becomes the next version: the rows, then the meta, then the tag. Only the first of
      these writes can fail the projection; the other two are logged. */
  function ProjectPushed(w: World, now: int): (World, Projection) {
    if w.repo.main.None? || !Projects(w.repo.main.value) then (w, Ok(None))
    else
      var tip := w.repo.main.value;
      var raw := ManifestOf(tip).value;
      if Faulty(w.plan) then (Spent(w), Err(()))
      else
        var added := Spent(w).(db := AddRow(w.db, ProjectedRow(w.db, raw, tip.message, now)));
        var (tagged, _) := SetTag(WriteMeta(added, raw), added.db.current, tip);
        (tagged, Ok(Some(added.db.current)))
  }

  // ---- alignment ------------------------------------------------------------------------------

  datatype SyncOutcome =
    | InSync
    | Bootstrapped(versions: nat)
    | MainRestored(version: nat)
    | Appended(from: nat, to: nat)
    | ProjectedTip(version: nat)
    | TipNotVersioned(current: nat)
    | Conflict(have: nat, current: nat)
    | SyncFailed

  /** The whole history from the database; None when there are no rows. */
  ghost function Bootstrap(w: World): (World, Option<SyncOutcome>) {
    if w.db.rows == [] then (w, None)
    else
      var (ready, ok) := InitBare(w);
      if !ok then (ready, Some(SyncFailed))
      else
        var (built, result) := BuildHistory(ready, AllVersions(w.db), None, Carry);
        (built, Some(if result.Moved? then Bootstrapped(|w.db.rows|) else SyncFailed))
  }

  /** A tag or a main that cannot be read counts as being in place. */
  predicate TagOnTip(repo: Repo, version: nat) {
    TagFor(version) in repo.tags && repo.main.Some? ==> Some(repo.tags[TagFor(version)]) == repo.main
  }

  ghost function Align(w: World, have: nat, now: int): (World, SyncOutcome) {
    var current := w.db.current;
    if have == current then
      if current > 0 && !TagOnTip(w.repo, current) then
        match ProjectPushed(w, now)
        case (next, Ok(Some(v))) => (next, ProjectedTip(v))
        case (next, Ok(None)) => (next, TipNotVersioned(current))
        case (next, Err(_)) => (next, SyncFailed)
      else (w, InSync)
    else if have < current then
      var versions := VersionsAbove(w.db.meta, w.db.rows, have);
      if versions == [] then (w, if have == 0 && w.repo.main.None? then InSync else Conflict(have, current))
      else
        var (next, ok) := AppendMissing(w, versions);
        (next, if ok then Appended(have + 1, current) else SyncFailed)
    else if have == current + 1 && TagOnTip(w.repo, have) then
      match ProjectPushed(w, now)
      case (next, Ok(Some(v))) => (next, ProjectedTip(v))
      case (next, Ok(None)) => (next, Conflict(have, current))
      case (next, Err(_)) => (next, SyncFailed)
    else (w, Conflict(have, current))
  }

  function Smaller(a: nat, b: nat): nat {
    if a < b then a else b
  }

  /** `sync_repo_with_db`: recognises what state the two stores are in and heals it. */
  ghost function Sync(w: World, now: int): (World, SyncOutcome) {
    if !w.repo.present then
      match Bootstrap(w)
      case (next, Some(outcome)) => (next, outcome)
      case (next, None) => (next, InSync)
    else
      var have := MaxTag(w.repo.tags);
      var restore := Smaller(have, w.db.current);
      if w.repo.main.Some? then Align(w, have, now)
      else if restore > 0 && TagFor(restore) in w.repo.tags then
        var (restored, result) := UpdateMain(w, w.repo.tags[TagFor(restore)], None);
        if !result.Moved? then (restored, SyncFailed)
        else
          var (next, outcome) := Align(restored, have, now);
          (next, if outcome.InSync? then MainRestored(restore) else outcome)
      else if have == 0 && w.db.rows != [] then
        var (next, outcome) := Bootstrap(w);
        (next, outcome.GetOr(InSync))
      else Align(w, have, now)
  }

  /** `ensure_repo_by_id`: the repository exists afterwards unless a write failed; errors of the alignment are ignored. */
  ghost function Ensure(w: World, now: int): World {
    if !w.repo.present && w.db.rows == [] then InitBare(w).0 else Sync(w, now).0
  }

  // ---- web writes -----------------------------------------------------------------------------

  datatype MetaPatch = MetaPatch(title: Option<string>, desc: Option<string>, tags: Option<seq<string>>, ordered: Option<bool>)

  datatype Edit = Edit(note: string, ts: int, rows: seq<StepRow>, patch: MetaPatch, expected: Option<nat>, authored: Option<seq<AuthoredInput>>)

  datatype WebOutcome =
    | Recorded(version: nat, commit: Commit)
    | VersionConflict(expected: nat, current: nat)
    | OutOfSync(have: nat, current: nat)
    | DbFailed
    | WebGitFailed
    | AuthoredRefused
    | ProjectionLost(version: nat, commit: Commit)

  /** An empty title is ignored, tags are cut at twenty. */
  function PatchMeta(m: Meta, p: MetaPatch): Meta {
    m.(title := if p.title.Some? && !Blank(p.title.value) then p.title.value else m.title,
       desc := p.desc.GetOr(m.desc),
       tags := if p.tags.Some? then Take20(p.tags.value) else m.tags,
       ordered := p.ordered.GetOr(m.ordered))
  }

  /** The version a web write puts into git: its steps come through the row reader. */
  function WebVersion(version: nat, meta: Meta, e: Edit): VersionData {
    VersionData(version, e.note, e.ts, meta.title, meta.desc, meta.tags, meta.ordered, ValidKind(meta.kind),
                ShownHeader(meta.skillHeader), SerStepsFromRows(e.rows))
  }

  function SourceOf(e: Edit): Source {
    if e.authored.Some? then Replace(e.authored.value) else Carry
  }

  /** The write itself, once the two stores agree: git first, with the database transaction open; then the
      transaction commits. */
  ghost function WriteVersion(s: World, e: Edit): (World, WebOutcome) {
    var current := s.db.current;
    if e.expected.Some? && e.expected.value != current then (s, VersionConflict(e.expected.value, current))
    else if e.authored.Some? && InputVerdict(e.authored.value).Some? then (s, AuthoredRefused)
    else if !s.repo.present then (s, WebGitFailed)
    else
      var meta := PatchMeta(s.db.meta, e.patch);
      var v := WebVersion(current + 1, meta, e);
      var (g, result) := BuildHistory(s, [v], s.repo.main, SourceOf(e));
      if result.Refused? && e.authored.Some? then (g, AuthoredRefused)
      else if !result.Moved? then (g, WebGitFailed)
      else CommitRows(g, e, meta, CommitOf(v, s.repo.main, SourceOf(e)))
  }

  /** The rows of the version and the new counter, in one transaction. */
  function CommitRows(g: World, e: Edit, meta: Meta, commit: Commit): (World, WebOutcome) {
    var version := g.db.current + 1;
    if Faulty(g.plan) then (Spent(g), ProjectionLost(version, commit))
    else (Spent(g).(db := Db(version, g.db.rows + [VersionRow(version, e.note, e.ts, e.rows)], meta)), Recorded(version, commit))
  }

  /** `commit_web_version`: the alignment is the precondition of every web write. */
  ghost function CommitWebVersion(w: World, e: Edit, now: int): (World, WebOutcome) {
    var (s, outcome) := Sync(w, now);
    if outcome.Conflict? then (s, OutOfSync(outcome.have, outcome.current))
    else if outcome.SyncFailed? then (s, DbFailed)
    else WriteVersion(s, e)
  }

  // ---- pushes and merges ----------------------------------------------------------------------

  /** The projection after main moved: tried again once when it fails, never undone. */
  function ProjectOrLog(w: World, now: int): World {
    match ProjectPushed(w, now)
    case (next, Err(_)) => ProjectPushed(next, now).0
    case (next, Ok(_)) => next
  }

  /** A commit that some ref holds already: the hook does not look at its tree again. */
  ghost predicate Known(repo: Repo, c: Commit) {
    || (repo.main.Some? && IsAncestor(c, repo.main.value))
    || (exists t :: t in repo.tags && IsAncestor(c, repo.tags[t]))
    || (exists b :: b in repo.branches && IsAncestor(c, repo.branches[b]))
  }

  /** The hook takes a ref at `tip`: a canon is there, and every commit that no ref holds yet has a tree it takes.
      The limits of `update_main` are not asked for. */
  ghost predicate HookTakes(repo: Repo, tip: Commit) {
    && "list.json" in tip.tree && !Hook.IsGitlink(tip.tree["list.json"])
    && forall c :: IsAncestor(c, tip) ==> Known(repo, c) || Hook.HookAccepts(c.tree)
  }

  /** The hook lets a push of main through: nothing that main has is lost. */
  ghost predicate PushAccepted(repo: Repo, tip: Commit) {
    HookTakes(repo, tip) && (repo.main.Some? ==> IsAncestor(repo.main.value, tip))
  }

  ghost function Push(w: World, tip: Commit, now: int): World {
    if !w.repo.present || w.repo.main == Some(tip) || !PushAccepted(w.repo, tip) then w
    else if Faulty(w.plan) then Spent(w)
    else ProjectOrLog(Spent(w).(repo := w.repo.(main := Some(tip))), now)
  }

  ghost function PushBranch(w: World, name: string, tip: Commit): World {
    if !w.repo.present || !HookTakes(w.repo, tip) then w
    else if Faulty(w.plan) then Spent(w)
    else Spent(w).(repo := w.repo.(branches := w.repo.branches[name := tip]))
  }

  /** A branch goes, by the service or by a push. */
  function DropBranch(w: World, name: string): World {
    if !w.repo.present || name !in w.repo.branches then w
    else if Faulty(w.plan) then Spent(w)
    else Spent(w).(repo := w.repo.(branches := w.repo.branches - {name}))
  }

  /** What the merge of two trees and the text of the new commit are is given. */
  datatype MergeRequest = MergeRequest(branch: string, squash: bool, merged: Option<Tree>, time: int, author: string, message: string)

  datatype MergeOutcome = NotFound | NothingToMerge | MergeConflict | MainRefused | Merged(tip: Commit)

  /** The commit a merge would put on main. */
  function MergeCommit(main: Commit, branch: Commit, r: MergeRequest): Result<Commit, MergeOutcome> {
    if IsAncestor(branch, main) then Err(NothingToMerge)
    else if !r.squash && IsAncestor(main, branch) then Ok(branch)
    else if r.merged.None? then Err(MergeConflict)
    else Ok(Commit(if r.squash then [main] else [main, branch], r.merged.value, r.time, r.author, r.message))
  }

  ghost function Merge(w: World, r: MergeRequest, now: int): (World, MergeOutcome) {
    if !w.repo.present || r.branch !in w.repo.branches || w.repo.main.None? then (w, NotFound)
    else
      match MergeCommit(w.repo.main.value, w.repo.branches[r.branch], r)
      case Err(outcome) => (w, outcome)
      case Ok(commit) => MoveAndProject(w, commit, now)
  }

  ghost function MoveAndProject(w: World, commit: Commit, now: int): (World, MergeOutcome) {
    var (moved, result) := UpdateMain(w, commit, w.repo.main);
    if !result.Moved? then (moved, MainRefused) else (ProjectOrLog(moved, now), Merged(commit))
  }

  /** The commit of a merge resolved by hand: the tree of main with the given canon. */
  function ResolvedCommit(main: Commit, branch: Commit, canon: Blob, r: MergeRequest): Commit {
    Commit(if r.squash then [main] else [main, branch], WithCanon(main.tree, canon), r.time, r.author, r.message)
  }

  ghost function Resolve(w: World, canon: Blob, r: MergeRequest, now: int): (World, MergeOutcome) {
    if !w.repo.present || r.branch !in w.repo.branches || w.repo.main.None? then (w, NotFound)
    else if w.repo.main.value == w.repo.branches[r.branch] then (w, NothingToMerge)
    else MoveAndProject(w, ResolvedCommit(w.repo.main.value, w.repo.branches[r.branch], canon, r), now)
  }

  /** May the tag be made beside the others? Git lets it stand neither over nor under another name. */
  predicate Fits(tags: map<string, Commit>, name: string) {
    !Overlaid(tags, name) && forall t :: t in tags ==> !Under(t, name)
  }

  /** A release tag: names that read as versions are reserved. */
  function Release(w: World, name: string, version: nat): World {
    if !w.repo.present || VersionOfTag(name).Some? || TagFor(version) !in w.repo.tags || !Fits(w.repo.tags, name) then w
    else if Faulty(w.plan) then Spent(w)
    else Spent(w).(repo := w.repo.(tags := w.repo.tags[name := w.repo.tags[TagFor(version)]]))
  }

  /** `v` and digits alone: the hook lets nobody make, move or delete such a tag. */
  predicate Reserved(name: string) {
    |name| >= 2 && name[0] == 'v' && AllDigits(name[1..])
  }

  /** A pushed tag, which may also move one that is there. */
  ghost function PushTag(w: World, name: string, c: Commit): World {
    if !w.repo.present || Reserved(name) || !HookTakes(w.repo, c) || !Fits(w.repo.tags, name) then w
    else if Faulty(w.plan) then Spent(w)
    else Spent(w).(repo := w.repo.(tags := w.repo.tags[name := c]))
  }

  /** A tag deleted by a push. */
  function DropTag(w: World, name: string): World {
    if !w.repo.present || Reserved(name) || name !in w.repo.tags then w
    else if Faulty(w.plan) then Spent(w)
    else Spent(w).(repo := w.repo.(tags := w.repo.tags - {name}))
  }

  datatype BranchOutcome = BranchNotFound | BranchStale | Unchanged(tip: Commit) | Committed(tip: Commit) | BranchGitFailed

  predicate CarriesCanon(root: Tree, canon: Blob) {
    "list.json" in root && root["list.json"].Leaf? && root["list.json"].mode != Gitlink && root["list.json"].blob == canon
  }

  /** `commit_list_json`: a ready canon on a branch; main does not move. */
  function CommitListJson(w: World, r: MergeRequest, canon: Blob, expected: Option<Commit>): (World, BranchOutcome) {
    if !w.repo.present || r.branch !in w.repo.branches then (w, BranchNotFound)
    else
      var tip := w.repo.branches[r.branch];
      if expected.Some? && expected.value != tip then (w, BranchStale)
      else if CarriesCanon(tip.tree, canon) then (w, Unchanged(tip))
      else if Faulty(w.plan) then (Spent(w), BranchGitFailed)
      else
        var commit := Commit([tip], WithCanon(tip.tree, canon), r.time, r.author, r.message);
        (Spent(w).(repo := w.repo.(branches := w.repo.branches[r.branch := commit])), Committed(commit))
  }
}

/** Lost tags are not lost commits: what catch-up does with versions that lie on main already. */
module LostTags {
  import opened Wrappers
  import opened Json
  import opened Canon
  import opened Reading
  import opened Tree
  import opened AuthoredSets
  import opened Commits
  import opened Protocol
  import opened Mechanics
  import opened Settle
  import opened Crashes

  /** Trees generated for different version numbers are never equal, whatever files they carry. */
  lemma TreesTellVersions(v: VersionData, p: Option<Tree>, s: Source, w: VersionData, q: Option<Tree>, t: Source)
    requires BuildTree(v, p, s) == BuildTree(w, q, t)
    ensures v.version == w.version
  {
    hide VersionFiles, ListJson;
    var a := BuiltFrom(v, p, s);
    var b := BuiltFrom(w, q, t);
    CanonBeside(v, a);
    CanonBeside(w, b);
    CanonTellsVersion(v, w);
  }

  lemma CanonTellsVersion(v: VersionData, w: VersionData)
    requires ListJson(v) == ListJson(w)
    ensures v.version == w.version
  {
    ListKeysDistinct(v);
    ListKeysDistinct(w);
    ObjectAt(ListEntries(v), 7);
    ObjectAt(ListEntries(w), 7);
  }

  /** Two lists of versions found at the end of the same main end with the same version. */
  lemma TailIsUnambiguous(tip: Option<Commit>, a: seq<VersionData>, b: seq<VersionData>)
    requires a != [] && b != [] && TailCommits(tip, a).Some? && TailCommits(tip, b).Some?
    ensures a[|a| - 1].version == b[|b| - 1].version
  {
    hide BuildTree;
    var tree := Some(tip.value.tree);
    TreesTellVersions(a[|a| - 1], tree, Carry, b[|b| - 1], tree, Carry);
  }

  /** Every version has its own commit under its own tag. */
  predicate OwnTags(tags: map<string, Commit>, versions: seq<VersionData>, commits: seq<Commit>)
    requires |versions| == |commits|
  {
    forall i :: 0 <= i < |versions| ==>
      TagFor(versions[i].version) in tags && tags[TagFor(versions[i].version)] == commits[i]
  }

  /** Setting the tags without failures gives every version its own and moves no other. */
  lemma TagsAreOwn(w: World, versions: seq<VersionData>, commits: seq<Commit>, have: nat)
    requires w.plan == [] && |versions| == |commits| && Ascending(versions, have) && MaxTag(w.repo.tags) <= have
    requires Settable(w.repo.tags, versions)
    ensures var (next, ok) := TagAll(w, versions, commits);
            && ok && next.db == w.db && next.repo.main == w.repo.main
            && OwnTags(next.repo.tags, versions, commits)
            && (forall name :: name in w.repo.tags ==> name in next.repo.tags && next.repo.tags[name] == w.repo.tags[name])
  {
    hide MaxTag, TagFor, Tagged, TagAll, Ascending, Settable;
    TagAllComplete(w, versions, commits);
    TaggedKeeps(w.repo.tags, versions, commits, have);
    forall i | 0 <= i < |versions|
      ensures TagFor(versions[i].version) in Tagged(w.repo.tags, versions, commits)
      ensures Tagged(w.repo.tags, versions, commits)[TagFor(versions[i].version)] == commits[i]
    {
      TaggedAt(w.repo.tags, versions, commits, have, i);
    }
  }

  /** Catch-up with every missing version on main already: no commit is made, main stays, and each of those commits
      gets its own tag, the last one being the tip. */
  lemma TagsComeBack(w: World, versions: seq<VersionData>, have: nat)
    requires w.plan == [] && versions != [] && Ascending(versions, have) && MaxTag(w.repo.tags) <= have
    requires TailCommits(w.repo.main, versions).Some? && Settable(w.repo.tags, versions)
    ensures var commits := TailCommits(w.repo.main, versions).value;
            var (next, ok) := AppendMissing(w, versions);
            && ok && next.repo.main == w.repo.main == Some(commits[|commits| - 1]) && next.db == w.db
            && Line(commits, FirstParent(commits[0])) && OwnTags(next.repo.tags, versions, commits)
            && (forall name :: name in w.repo.tags ==> name in next.repo.tags && next.repo.tags[name] == w.repo.tags[name])
  {
    hide MaxTag, TagFor, TagAll, TailCommits, Ascending, BuildHistory, OwnTags, Line, Settable;
    TailIsLine(w.repo.main, versions);
    assert w.repo.main.Some?;
    TagsAreOwn(w, versions, TailCommits(w.repo.main, versions).value, have);
  }

  /** Each commit of a chain carries the tree of its version over the tree below it. */
  predicate OwnTrees(commits: seq<Commit>, versions: seq<VersionData>, base: Option<Commit>)
    requires |versions| == |commits|
  {
    forall i :: 0 <= i < |versions| ==> commits[i].tree == BuildTree(versions[i], TreeOf(Below(commits, base, i)), Carry)
  }

  lemma ChainTrees(versions: seq<VersionData>, parent: Option<Commit>)
    ensures OwnTrees(Chain(versions, parent, Carry), versions, parent)
  {
    hide BuildTree, CommitOf, Chain, TreeOf;
    var chain := Chain(versions, parent, Carry);
    forall i | 0 <= i < |versions| ensures chain[i].tree == BuildTree(versions[i], TreeOf(Below(chain, parent, i)), Carry) {
      ChainAt(versions, parent, Carry, i);
      CommitParent(versions[i], Below(chain, parent, i), Carry);
    }
  }

  /** Otherwise catch-up puts exactly one commit per missing version on top of main, each with its version's tree. */
  lemma OneCommitPerVersion(w: World, versions: seq<VersionData>, have: nat)
    requires w.plan == [] && versions != [] && Ascending(versions, have) && MaxTag(w.repo.tags) <= have
    requires MustBuild(w.repo, versions) && Carries(w.repo.main) && Settable(w.repo.tags, versions)
    ensures var (next, ok) := AppendMissing(w, versions);
            var added := Chain(versions, w.repo.main, Carry);
            && ok && |added| == |versions| && Line(added, w.repo.main) && next.repo.main == Some(added[|added| - 1])
            && OwnTags(next.repo.tags, versions, added) && OwnTrees(added, versions, w.repo.main)
  {
    hide MaxTag, TagFor, TagAll, TailCommits, Ascending, Chain, UpdateMain, Lawful, OwnTags, OwnTrees, Line, IsAncestor, Settable, Carries;
    var added := Chain(versions, w.repo.main, Carry);
    var tip := added[|added| - 1];
    ChainIsLine(versions, w.repo.main, Carry);
    ChainLawful(versions, w.repo.main);
    ChainTrees(versions, w.repo.main);
    LineAncestors(added, w.repo.main, |added| - 1, |added| - 1);
    MainMoves(w, tip);
    TagsAreOwn(UpdateMain(w, tip, w.repo.main).0, versions, added, have);
  }

  lemma MainMoves(w: World, tip: Commit)
    requires w.plan == [] && Lawful(tip.tree) && (w.repo.main.Some? ==> IsAncestor(w.repo.main.value, tip))
    ensures UpdateMain(w, tip, w.repo.main) == (w.(repo := w.repo.(main := Some(tip))), Moved)
  {
    hide Lawful, IsAncestor;
  }
}

/** What the building blocks of the protocol do: tags, chains of generated commits, tails of main. */
module Mechanics {
  import opened Wrappers
  import opened Text
  import opened Canon
  import opened Rows
  import opened Tree
  import opened AuthoredSets
  import opened Commits
  import opened Protocol

  // ---- the highest version tag ----------------------------------------------------------------

  lemma MaxTagIs(tags: map<string, Commit>, m: nat)
    requires IsMaxTag(tags, m)
    ensures MaxTag(tags) == m
  {
    hide MaxTag, VersionOfTag;
    var n := MaxTag(tags);
    assert IsMaxTag(tags, n);
  }

  lemma TagForReads(n: nat)
    requires n <= MAX_I32
    ensures VersionOfTag(TagFor(n)) == Some(n)
  {
    hide VersionOfTag, Dec;
    TagNameParses(n);
    assert TagFor(n) == TagName(n);
  }

  lemma TagForInjective(a: nat, b: nat)
    requires TagFor(a) == TagFor(b)
    ensures a == b
  {
    hide Dec;
    assert TagFor(a) == TagName(a) && TagFor(b) == TagName(b);
    TagNameInjective(a, b);
  }

  lemma NoTagAbove(tags: map<string, Commit>, n: nat)
    requires MaxTag(tags) < n <= MAX_I32
    ensures TagFor(n) !in tags
  {
    hide MaxTag, VersionOfTag, TagFor;
    TagForReads(n);
    assert IsMaxTag(tags, MaxTag(tags));
  }

  lemma MaxTagInsert(tags: map<string, Commit>, n: nat, c: Commit)
    requires n <= MAX_I32
    ensures MaxTag(tags[TagFor(n) := c]) == Larger(MaxTag(tags), n)
  {
    hide MaxTag, VersionOfTag, TagFor;
    var m := MaxTag(tags);
    assert IsMaxTag(tags, m);
    TagForReads(n);
    var all := tags[TagFor(n) := c];
    assert IsMaxTag(all, Larger(m, n)) by {
      if m > n {
        var name :| name in tags && VersionOfTag(name) == Some(m);
        assert name in all;
      } else {
        assert TagFor(n) in all;
      }
    }
    MaxTagIs(all, Larger(m, n));
  }

  /** A name that is no version leaves the highest version alone. */
  lemma MaxTagOther(tags: map<string, Commit>, name: string, c: Commit)
    requires VersionOfTag(name).None?
    ensures MaxTag(tags[name := c]) == MaxTag(tags)
  {
    hide MaxTag, VersionOfTag;
    var m := MaxTag(tags);
    assert IsMaxTag(tags, m);
    var all := tags[name := c];
    assert IsMaxTag(all, m) by {
      if m > 0 {
        var t :| t in tags && VersionOfTag(t) == Some(m);
        assert t in all;
      }
    }
    MaxTagIs(all, m);
  }

  lemma MaxTagRemove(tags: map<string, Commit>, name: string)
    requires VersionOfTag(name).None?
    ensures MaxTag(tags - {name}) == MaxTag(tags)
  {
    hide MaxTag, VersionOfTag;
    var m := MaxTag(tags);
    assert IsMaxTag(tags, m);
    var rest := tags - {name};
    assert IsMaxTag(rest, m) by {
      if m > 0 {
        var t :| t in tags && VersionOfTag(t) == Some(m);
        assert t in rest;
      }
    }
    MaxTagIs(rest, m);
  }

  /** What reads as a version is reserved. */
  lemma VersionsReserved(name: string)
    ensures VersionOfTag(name).Some? ==> Reserved(name)
  {
  }

  lemma TagForReserved(n: nat)
    ensures Reserved(TagFor(n))
  {
    hide Dec;
    assert TagFor(n)[1..] == Dec(n);
  }

  /** Every tag that reads as a version has the name the service writes. */
  ghost predicate CanonTags(tags: map<string, Commit>) {
    forall name :: name in tags && VersionOfTag(name).Some? ==> name == TagFor(VersionOfTag(name).value)
  }

  lemma MaxTagPresent(tags: map<string, Commit>)
    requires CanonTags(tags) && MaxTag(tags) > 0
    ensures TagFor(MaxTag(tags)) in tags
  {
    hide MaxTag, VersionOfTag, TagFor;
    assert IsMaxTag(tags, MaxTag(tags));
  }

  // ---- names under a version ------------------------------------------------------------------

  /** Git can make the tags of these versions. */
  predicate Settable(tags: map<string, Commit>, versions: seq<VersionData>) {
    forall i :: 0 <= i < |versions| ==> !Overlaid(tags, TagFor(versions[i].version))
  }

  lemma TagForIsPlain(n: int)
    ensures '/' !in TagFor(n)
  {
    hide Dec;
    var digits := Dec(if n < 0 then -n else n);
    assert forall i :: 0 <= i < |digits| ==> IsDigit(digits[i]);
  }

  lemma TagForNotUnder(n: int, dir: string)
    ensures !Under(dir, TagFor(n))
  {
    hide TagFor;
    TagForIsPlain(n);
    assert (dir + "/")[|dir|] == '/';
  }

  /** A version tag stands under no name. */
  lemma OverlaidInsert(tags: map<string, Commit>, n: int, c: Commit, name: string)
    ensures Overlaid(tags[TagFor(n) := c], name) <==> Overlaid(tags, name)
  {
    hide TagFor, Under;
    TagForNotUnder(n, name);
    var all := tags[TagFor(n) := c];
    if Overlaid(tags, name) {
      var t :| t in tags && Under(name, t);
      assert t in all;
    }
  }

  // ---- setting tags in order ------------------------------------------------------------------

  function Tagged(tags: map<string, Commit>, versions: seq<VersionData>, commits: seq<Commit>): map<string, Commit>
    requires |versions| == |commits|
  {
    if versions == [] then tags
    else
      var n := |versions| - 1;
      Tagged(tags, versions[..n], commits[..n])[TagFor(versions[n].version) := commits[n]]
  }

  /** However the writes fail, the tags that end up set are those of a prefix of the versions; without failures, of
      the longest one whose names git can make. */
  lemma {:induction false} TagAllSetsPrefix(w: World, versions: seq<VersionData>, commits: seq<Commit>) returns (k: nat)
    requires |versions| == |commits|
    ensures k <= |versions|
    ensures var (t, ok) := TagAll(w, versions, commits);
            && t.repo == w.repo.(tags := Tagged(w.repo.tags, versions[..k], commits[..k])) && t.db == w.db
            && (ok <==> k == |versions|) && (w.plan == [] ==> t.plan == [])
    ensures Settable(w.repo.tags, versions[..k])
    ensures w.plan == [] && k < |versions| ==> Overlaid(w.repo.tags, TagFor(versions[k].version))
    ensures versions != [] ==> (k > 0 <==> !Overlaid(w.repo.tags, TagFor(versions[0].version)) && !Faulty(w.plan))
  {
    hide TagFor, Overlaid, Settable;
    if versions == [] {
      k := 0;
      NoneSettable(w.repo.tags);
    } else {
      var n := |versions| - 1;
      k := TagAllSetsPrefix(w, versions[..n], commits[..n]);
      assert versions[..n][..k] == versions[..k] && commits[..n][..k] == commits[..k];
      var (front, ok) := TagAll(w, versions[..n], commits[..n]);
      OverlaidTagged(w.repo.tags, versions[..k], commits[..k], TagFor(versions[n].version));
      SettableNext(w.repo.tags, versions);
      if TagAll(w, versions, commits).1 {
        assert versions[..n + 1] == versions && commits[..n + 1] == commits;
        k := n + 1;
      }
    }
  }

  lemma SettableAt(tags: map<string, Commit>, versions: seq<VersionData>, i: nat)
    requires Settable(tags, versions) && i < |versions|
    ensures !Overlaid(tags, TagFor(versions[i].version))
  {
    hide TagFor, Overlaid;
  }

  /** Without failures all tags are set exactly when git can make each of them. */
  lemma TagAllComplete(w: World, versions: seq<VersionData>, commits: seq<Commit>)
    requires w.plan == [] && |versions| == |commits|
    ensures var (t, ok) := TagAll(w, versions, commits);
            && (ok <==> Settable(w.repo.tags, versions)) && t.plan == [] && t.db == w.db
            && (ok ==> t.repo == w.repo.(tags := Tagged(w.repo.tags, versions, commits)))
  {
    hide TagFor, Overlaid, Settable, TagAll, Tagged;
    var k := TagAllSetsPrefix(w, versions, commits);
    assert versions[..|versions|] == versions && commits[..|commits|] == commits;
    if k < |versions| && Settable(w.repo.tags, versions) {
      SettableAt(w.repo.tags, versions, k);
    }
  }

  lemma NoneSettable(tags: map<string, Commit>)
    ensures Settable(tags, [])
  {
  }

  lemma SettableNext(tags: map<string, Commit>, versions: seq<VersionData>)
    requires versions != []
    ensures Settable(tags, versions) <==>
            Settable(tags, versions[..|versions| - 1]) && !Overlaid(tags, TagFor(versions[|versions| - 1].version))
  {
    hide TagFor, Overlaid;
    var n := |versions| - 1;
    forall i | 0 <= i < |versions| && Settable(tags, versions[..n]) && !Overlaid(tags, TagFor(versions[n].version))
      ensures !Overlaid(tags, TagFor(versions[i].version))
    {
      if i < n {
        assert versions[..n][i] == versions[i];
      }
    }
    forall i | 0 <= i < n && Settable(tags, versions) ensures !Overlaid(tags, TagFor(versions[..n][i].version)) {
      assert versions[..n][i] == versions[i];
    }
  }

  lemma {:induction false} OverlaidTagged(tags: map<string, Commit>, versions: seq<VersionData>, commits: seq<Commit>, name: string)
    requires |versions| == |commits|
    ensures Overlaid(Tagged(tags, versions, commits), name) <==> Overlaid(tags, name)
  {
    hide TagFor, Overlaid;
    if versions != [] {
      var n := |versions| - 1;
      OverlaidTagged(tags, versions[..n], commits[..n], name);
      OverlaidInsert(Tagged(tags, versions[..n], commits[..n]), versions[n].version, commits[n], name);
    }
  }

  /** Version numbers in ascending order, all above `have`. */
  predicate Ascending(versions: seq<VersionData>, have: nat) {
    && (forall i :: 0 <= i < |versions| ==> have < versions[i].version <= MAX_I32)
    && (forall i, j :: 0 <= i < j < |versions| ==> versions[i].version < versions[j].version)
  }

  lemma TaggedNext(tags: map<string, Commit>, versions: seq<VersionData>, commits: seq<Commit>)
    requires |versions| == |commits| > 0
    ensures Tagged(tags, versions, commits)
         == Tagged(tags, versions[..|versions| - 1], commits[..|versions| - 1])[TagFor(versions[|versions| - 1].version) := commits[|versions| - 1]]
  {
  }

  /** The highest tag is then the last version set. */
  lemma {:induction false} TaggedMax(tags: map<string, Commit>, versions: seq<VersionData>, commits: seq<Commit>, have: nat)
    requires |versions| == |commits| && Ascending(versions, have) && MaxTag(tags) <= have
    ensures MaxTag(Tagged(tags, versions, commits)) == if versions == [] then MaxTag(tags) else versions[|versions| - 1].version
  {
    hide TagFor, MaxTag, IsMaxTag;
    if versions != [] {
      var n := |versions| - 1;
      TaggedMax(tags, versions[..n], commits[..n], have);
      TaggedNext(tags, versions, commits);
      MaxTagInsert(Tagged(tags, versions[..n], commits[..n]), versions[n].version, commits[n]);
    }
  }

  /** Setting the tags of the versions above the highest tag moves no existing tag and sets no other. */
  lemma {:induction false} TaggedKeeps(tags: map<string, Commit>, versions: seq<VersionData>, commits: seq<Commit>, have: nat)
    requires |versions| == |commits| && Ascending(versions, have) && MaxTag(tags) <= have
    ensures forall name :: name in tags ==> name in Tagged(tags, versions, commits) && Tagged(tags, versions, commits)[name] == tags[name]
    ensures forall name :: name in Tagged(tags, versions, commits) && name !in tags ==>
              exists i :: 0 <= i < |versions| && name == TagFor(versions[i].version)
  {
    hide TagFor, MaxTag, IsMaxTag, Tagged;
    if versions == [] {
      TaggedNone(tags);
    } else {
      var n := |versions| - 1;
      var front, all := Tagged(tags, versions[..n], commits[..n]), Tagged(tags, versions, commits);
      TaggedKeeps(tags, versions[..n], commits[..n], have);
      TaggedNext(tags, versions, commits);
      NoTagAbove(tags, versions[n].version);
      forall name | name in all && name !in tags ensures exists i :: 0 <= i < |versions| && name == TagFor(versions[i].version) {
        if name != TagFor(versions[n].version) {
          var i :| 0 <= i < n && name == TagFor(versions[..n][i].version);
          assert name == TagFor(versions[i].version);
        }
      }
    }
  }

  lemma TaggedNone(tags: map<string, Commit>)
    ensures Tagged(tags, [], []) == tags
  {
  }

  /** Each version has its own commit under its tag. */
  lemma {:induction false} TaggedAt(tags: map<string, Commit>, versions: seq<VersionData>, commits: seq<Commit>, have: nat, i: nat)
    requires |versions| == |commits| && Ascending(versions, have) && i < |versions|
    ensures TagFor(versions[i].version) in Tagged(tags, versions, commits)
    ensures Tagged(tags, versions, commits)[TagFor(versions[i].version)] == commits[i]
  {
    hide TagFor, Tagged;
    var n := |versions| - 1;
    TaggedNext(tags, versions, commits);
    if i < n {
      TaggedAt(tags, versions[..n], commits[..n], have, i);
      if TagFor(versions[i].version) == TagFor(versions[n].version) {
        TagForInjective(versions[i].version, versions[n].version);
      }
    }
  }

  // ---- the projection -------------------------------------------------------------------------

  lemma ProjectedRowVersion(db: Db, raw: RawList, message: string, now: int)
    ensures ProjectedRow(db, raw, message, now).version == db.current + 1
  {
  }

  /** One more version row, and the tag of its number on the tip, or not. */
  ghost predicate OneMore(w: World, next: World) {
    && next.db.current == w.db.current + 1
    && |next.db.rows| == |w.db.rows| + 1 && w.db.rows <= next.db.rows && next.db.rows[|w.db.rows|].version == w.db.current + 1
    && w.repo.main.Some?
    && (|| next.repo == w.repo
        || (!Overlaid(w.repo.tags, TagFor(w.db.current + 1))
            && next.repo == w.repo.(tags := w.repo.tags[TagFor(w.db.current + 1) := w.repo.main.value])))
  }

  /** A projection adds one version, or has nothing to add, or fails at once. */
  lemma ProjectPushedShape(w: World, now: int)
    ensures var (next, result) := ProjectPushed(w, now);
            if w.repo.main.None? || !Projects(w.repo.main.value) then (next, result) == (w, Ok(None))
            else if Faulty(w.plan) then (next, result) == (Spent(w), Err(()))
            else OneMore(w, next) && result == Ok(Some(w.db.current + 1)) && (w.plan == [] ==> next.plan == [])
  {
    hide ProjectedRow, UpdateMeta, ManifestOf, TagFor, Overlaid;
    if w.repo.main.Some? && Projects(w.repo.main.value) && !Faulty(w.plan) {
      ProjectedRowVersion(w.db, ManifestOf(w.repo.main.value).value, w.repo.main.value.message, now);
    }
  }

  // ---- chains of generated commits ------------------------------------------------------------

  function Below(commits: seq<Commit>, base: Option<Commit>, i: nat): Option<Commit>
    requires i < |commits|
  {
    if i == 0 then base else Some(commits[i - 1])
  }

  /** Each commit of a line stands on the one before; the first stands on `base`. */
  predicate Line(commits: seq<Commit>, base: Option<Commit>) {
    forall i :: 0 <= i < |commits| ==> FirstParent(commits[i]) == Below(commits, base, i)
  }

  lemma Reflexive(c: Commit)
    ensures IsAncestor(c, c)
  {
  }

  lemma BelowIsAncestor(commits: seq<Commit>, base: Option<Commit>, j: nat)
    requires Line(commits, base) && j < |commits| && Below(commits, base, j).Some?
    ensures IsAncestor(Below(commits, base, j).value, commits[j])
  {
    hide IsAncestor;
    ParentIsAncestor(commits[j], 0);
  }

  lemma {:induction false} LineAncestors(commits: seq<Commit>, base: Option<Commit>, i: nat, j: nat)
    requires Line(commits, base) && i <= j < |commits|
    ensures IsAncestor(commits[i], commits[j])
    ensures base.Some? ==> IsAncestor(base.value, commits[j])
    decreases j
  {
    hide IsAncestor, Line;
    Reflexive(commits[j]);
    if Below(commits, base, j).Some? {
      BelowIsAncestor(commits, base, j);
    }
    if j > 0 {
      LineAncestors(commits, base, if i < j then i else j - 1, j - 1);
      if i < j {
        AncestorTransitive(commits[i], commits[j - 1], commits[j]);
      }
      if base.Some? {
        AncestorTransitive(base.value, commits[j - 1], commits[j]);
      }
    }
  }

  lemma LineNext(front: seq<Commit>, base: Option<Commit>, c: Commit)
    requires Line(front, base) && FirstParent(c) == TipOf(front, base)
    ensures Line(front + [c], base)
  {
    hide FirstParent;
    var all := front + [c];
    forall i | 0 <= i < |all| ensures FirstParent(all[i]) == Below(all, base, i) {
      if i < |front| {
        assert all[i] == front[i] && Below(all, base, i) == Below(front, base, i);
      }
    }
  }

  /** The commits of a chain stand on each other. */
  lemma {:induction false} ChainIsLine(versions: seq<VersionData>, parent: Option<Commit>, source: Source)
    ensures Line(Chain(versions, parent, source), parent)
  {
    hide CommitOf, BuildTree, FirstParent, Line;
    if versions != [] {
      var n := |versions| - 1;
      var front := Chain(versions[..n], parent, source);
      ChainIsLine(versions[..n], parent, source);
      CommitParent(versions[n], TipOf(front, parent), source);
      LineNext(front, parent, CommitOf(versions[n], TipOf(front, parent), source));
    } else {
      EmptyLine(parent);
    }
  }

  lemma EmptyLine(base: Option<Commit>)
    ensures Line([], base)
  {
  }

  lemma CommitParent(v: VersionData, parent: Option<Commit>, source: Source)
    ensures FirstParent(CommitOf(v, parent, source)) == parent
    ensures CommitOf(v, parent, source).tree == BuildTree(v, TreeOf(parent), source)
  {
    hide BuildTree, CommitMessage;
  }

  /** Each commit of a chain is the commit of its version. */
  lemma {:induction false} ChainAt(versions: seq<VersionData>, parent: Option<Commit>, source: Source, i: nat)
    requires i < |versions|
    ensures Chain(versions, parent, source)[i] == CommitOf(versions[i], Below(Chain(versions, parent, source), parent, i), source)
  {
    hide CommitOf, BuildTree;
    var n := |versions| - 1;
    if i < n {
      ChainAt(versions[..n], parent, source, i);
    }
  }

  /** The author's files that a commit on `parent` would carry over obey the rules. */
  ghost predicate Carries(parent: Option<Commit>) {
    parent.Some? ==> FilesLawful(parent.value.tree)
  }

  lemma NothingCarried()
    ensures Carries(None)
  {
  }

  lemma CommitLawful(v: VersionData, parent: Option<Commit>)
    ensures Lawful(CommitOf(v, parent, Carry).tree) <==> Carries(parent)
    ensures Carries(Some(CommitOf(v, parent, Carry))) <==> Carries(parent)
  {
    hide CommitOf, Lawful, BuildTree, FilesLawful;
    CommitParent(v, parent, Carry);
    if parent.Some? {
      CarryLawful(v, parent.value.tree);
    } else {
      RootCommitLawful(v);
    }
  }

  /** Generated commits on top of main are lawful exactly when the files of main are. */
  lemma {:induction false} ChainLawful(versions: seq<VersionData>, parent: Option<Commit>)
    ensures forall i :: 0 <= i < |versions| ==>
              && (Lawful(Chain(versions, parent, Carry)[i].tree) <==> Carries(parent))
              && (Carries(Some(Chain(versions, parent, Carry)[i])) <==> Carries(parent))
  {
    hide CommitOf, Lawful, Carries;
    if versions != [] {
      var n := |versions| - 1;
      ChainLawful(versions[..n], parent);
      var tip := TipOf(Chain(versions[..n], parent, Carry), parent);
      CommitLawful(versions[n], tip);
    }
  }

  // ---- the tail of main -----------------------------------------------------------------------

  lemma {:induction false} TailIsLine(tip: Option<Commit>, versions: seq<VersionData>)
    requires TailCommits(tip, versions).Some? && versions != []
    ensures var commits := TailCommits(tip, versions).value;
            && commits != [] && Line(commits, FirstParent(commits[0]))
            && Some(commits[|commits| - 1]) == tip
    decreases |versions|
  {
    hide BuildTree;
    var n := |versions| - 1;
    if n > 0 {
      TailIsLine(FirstParent(tip.value), versions[..n]);
      var front := TailCommits(FirstParent(tip.value), versions[..n]).value;
      LineNext(front, FirstParent(front[0]), tip.value);
    }
  }

  /** A chain the service built is found again at the end of main, commit by commit, whatever files it carries. */
  lemma {:induction false} ChainIsFound(versions: seq<VersionData>, parent: Option<Commit>, source: Source)
    ensures versions != [] ==>
              TailCommits(TipOf(Chain(versions, parent, source), parent), versions) == Some(Chain(versions, parent, source))
  {
    hide BuildTree, CommitOf;
    if versions != [] {
      var n := |versions| - 1;
      var front := Chain(versions[..n], parent, source);
      var c := CommitOf(versions[n], TipOf(front, parent), source);
      ChainIsFound(versions[..n], parent, source);
      CommitParent(versions[n], TipOf(front, parent), source);
      RebuildIsSame(versions[n], TreeOf(TipOf(front, parent)), source);
      if n == 0 {
        assert TailCommits(FirstParent(c), versions[..n]) == Some(front);
      }
      FoundNext(versions, c, front);
    }
  }

  lemma FoundNext(versions: seq<VersionData>, c: Commit, front: seq<Commit>)
    requires versions != [] && c.tree == BuildTree(versions[|versions| - 1], Some(c.tree), Carry)
    requires TailCommits(FirstParent(c), versions[..|versions| - 1]) == Some(front)
    ensures TailCommits(Some(c), versions) == Some(front + [c])
  {
    hide BuildTree;
  }

  /** Of versions that lie at the end of main, the last ones do too. */
  lemma {:induction false} TailSuffix(tip: Option<Commit>, versions: seq<VersionData>, k: nat)
    requires TailCommits(tip, versions).Some? && k <= |versions|
    ensures TailCommits(tip, versions[k..]) == Some(TailCommits(tip, versions).value[k..])
    decreases |versions|
  {
    hide BuildTree;
    if k < |versions| {
      var n := |versions| - 1;
      var front := TailCommits(FirstParent(tip.value), versions[..n]).value;
      TailSuffix(FirstParent(tip.value), versions[..n], k);
      assert versions[k..][..n - k] == versions[..n][k..] && versions[k..][n - k] == versions[n];
      FoundNext(versions[k..], tip.value, front[k..]);
      assert (front + [tip.value])[k..] == front[k..] + [tip.value];
    } else {
      assert versions[k..] == [] && TailCommits(tip, versions).value[k..] == [];
    }
  }
}

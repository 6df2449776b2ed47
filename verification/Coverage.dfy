/** What a push brings for the first time: the walk over its commits, and the portions it is asked about in. */
module Coverage {
  import opened Wrappers
  import opened Tree
  import opened Hook
  import opened Commits

  // ---- the texts of a tree --------------------------------------------------------------------

  const TEXT_FILES: set<string> := {"list.json", "README.md"}
  const TEXT_DIRS: set<string> := {"steps", "scripts", "references", "assets"}

  predicate IsBlob(node: Node) {
    node.Leaf? && node.mode != Gitlink
  }

  /** The blobs a tree takes as text, by path. */
  function Listed(root: Tree): set<(string, Blob)> {
    (set name | name in TEXT_FILES && name in root && IsBlob(root[name]) :: (name, root[name].blob)) +
    (set dir, name | dir in TEXT_DIRS && dir in root && root[dir].Dir? && name in root[dir].entries && IsBlob(root[dir].entries[name]) ::
       (dir + "/" + name, root[dir].entries[name].blob))
  }

  function BlobsOf(listed: set<(string, Blob)>): set<Blob> {
    set x | x in listed :: x.1
  }

  /** The blobs the parents of a commit hold already. */
  function Inherited(c: Commit): set<Blob> {
    set i, x | 0 <= i < |c.parents| && x in Listed(c.parents[i].tree) :: x.1
  }

  // ---- the walk -------------------------------------------------------------------------------

  /** A path of the pushed tip, or a path of a commit in its history. */
  datatype Mark = Current(path: string) | Historical(path: string, commit: Commit)

  datatype PushedText = PushedText(mark: Mark, blob: Blob)

  /** Reachable from the push and not from main. */
  predicate IsNew(c: Commit, pushed: Commit, main: Option<Commit>) {
    IsAncestor(c, pushed) && !(main.Some? && IsAncestor(c, main.value))
  }

  /** The answer of `rev-list`: all the new commits, in some order. */
  ghost predicate Enumerates(commits: seq<Commit>, pushed: Commit, main: Option<Commit>) {
    forall c :: c in commits <==> IsNew(c, pushed, main)
  }

  predicate Emitted(out: seq<PushedText>, b: Blob) {
    exists i :: 0 <= i < |out| && out[i].blob == b
  }

  predicate NoRepeats(out: seq<PushedText>) {
    forall i, j :: 0 <= i < j < |out| ==> out[i].blob != out[j].blob
  }

  /** A text is a blob its commit brings, marked by whether the tip still has it under that path. */
  predicate Brought(t: PushedText, c: Commit, pushed: Commit) {
    exists x :: x in Listed(c.tree) && x.1 == t.blob && t.blob !in Inherited(c)
      && t.mark == if x in Listed(pushed.tree) then Current(x.0) else Historical(x.0, c)
  }

  predicate BroughtBySome(t: PushedText, commits: seq<Commit>, pushed: Commit) {
    exists k :: 0 <= k < |commits| && Brought(t, commits[k], pushed)
  }

  /** Everything a commit holds is inherited or emitted. */
  predicate Covered(c: Commit, out: seq<PushedText>) {
    forall x :: x in Listed(c.tree) ==> x.1 in Inherited(c) || Emitted(out, x.1)
  }

  lemma EmittedNext(out: seq<PushedText>, t: PushedText)
    ensures forall b :: Emitted(out + [t], b) <==> Emitted(out, b) || b == t.blob
  {
    forall b ensures Emitted(out + [t], b) <==> Emitted(out, b) || b == t.blob {
      if Emitted(out, b) {
        var i :| 0 <= i < |out| && out[i].blob == b;
        assert (out + [t])[i].blob == b;
      }
      assert (out + [t])[|out|].blob == t.blob;
    }
  }

  lemma RepeatsNext(out: seq<PushedText>, t: PushedText)
    requires NoRepeats(out) && !Emitted(out, t.blob)
    ensures NoRepeats(out + [t])
  {
  }

  /** The texts of one commit that were not seen before. */
  method CommitTexts(c: Commit, pushed: Commit, before: seq<PushedText>, seenBefore: set<Blob>)
    returns (out: seq<PushedText>, seen: set<Blob>)
    requires NoRepeats(before) && forall b :: b in seenBefore <==> Emitted(before, b)
    ensures NoRepeats(out) && before <= out && forall b :: b in seen <==> Emitted(out, b)
    ensures Covered(c, out)
    ensures forall i :: |before| <= i < |out| ==> Brought(out[i], c, pushed)
  {
    hide Listed, Inherited, NoRepeats, Emitted;
    out, seen := before, seenBefore;
    var left := Listed(c.tree);
    var tip := Listed(pushed.tree);
    var inherited := Inherited(c);
    while left != {}
      invariant left <= Listed(c.tree) && NoRepeats(out) && before <= out
      invariant forall b :: b in seen <==> Emitted(out, b)
      invariant forall x :: x in Listed(c.tree) && x !in left ==> x.1 in inherited || Emitted(out, x.1)
      invariant forall i :: |before| <= i < |out| ==> Brought(out[i], c, pushed)
      decreases |left|
    {
      var x :| x in left;
      left := left - {x};
      if x.1 !in inherited && x.1 !in seen {
        var t := PushedText(if x in tip then Current(x.0) else Historical(x.0, c), x.1);
        EmittedNext(out, t);
        RepeatsNext(out, t);
        assert Brought(t, c, pushed);
        seen := seen + {x.1};
        out := out + [t];
      }
    }
  }

  lemma NothingEmitted()
    ensures forall b :: !Emitted([], b)
  {
  }

  lemma EmittedStays(a: seq<PushedText>, b: seq<PushedText>)
    requires a <= b
    ensures forall blob :: Emitted(a, blob) ==> Emitted(b, blob)
  {
    forall blob | Emitted(a, blob) ensures Emitted(b, blob) {
      var i :| 0 <= i < |a| && a[i].blob == blob;
      assert b[i].blob == blob;
    }
  }

  /** Every text a push brings: no blob twice, each one new with its commit, and no commit left uncovered. */
  method PushedTexts(pushed: Commit, main: Option<Commit>, commits: seq<Commit>) returns (out: seq<PushedText>)
    requires Enumerates(commits, pushed, main)
    ensures NoRepeats(out)
    ensures forall c :: IsNew(c, pushed, main) ==> Covered(c, out)
    ensures forall i :: 0 <= i < |out| ==> BroughtBySome(out[i], commits, pushed)
  {
    hide Listed, Inherited, Emitted, IsNew, Brought;
    out := [];
    var seen: set<Blob> := {};
    assert forall b :: !Emitted(out, b) by { NothingEmitted(); }
    for k := 0 to |commits|
      invariant NoRepeats(out) && forall b :: b in seen <==> Emitted(out, b)
      invariant forall j :: 0 <= j < k ==> Covered(commits[j], out)
      invariant forall i :: 0 <= i < |out| ==> BroughtBySome(out[i], commits, pushed)
    {
      var next, nextSeen := CommitTexts(commits[k], pushed, out, seen);
      EmittedStays(out, next);
      forall i | 0 <= i < |next| ensures BroughtBySome(next[i], commits, pushed) {
        if i < |out| {
          assert next[i] == out[i];
        }
      }
      out, seen := next, nextSeen;
    }
    forall c | IsNew(c, pushed, main) ensures Covered(c, out) {
      assert c in commits;
    }
  }

  // ---- nothing new slips past -----------------------------------------------------------------

  /** The blob stands in the tree of some commit main already has. */
  ghost predicate KnownToMain(b: Blob, main: Option<Commit>) {
    main.Some? && exists m :: IsAncestor(m, main.value) && b in BlobsOf(Listed(m.tree))
  }

  lemma NewOrKnown(c: Commit, i: nat, pushed: Commit, main: Option<Commit>)
    requires IsNew(c, pushed, main) && i < |c.parents|
    ensures IsNew(c.parents[i], pushed, main) || (main.Some? && IsAncestor(c.parents[i], main.value))
  {
    ParentIsAncestor(c, i);
    AncestorTransitive(c.parents[i], c, pushed);
  }

  /** Skipping inherited blobs loses nothing of what is listed. */
  lemma {:induction false} ListedCovered(c: Commit, x: (string, Blob), pushed: Commit, main: Option<Commit>, out: seq<PushedText>)
    requires IsNew(c, pushed, main) && x in Listed(c.tree)
    requires forall d :: IsNew(d, pushed, main) ==> Covered(d, out)
    ensures Emitted(out, x.1) || KnownToMain(x.1, main)
    decreases c
  {
    hide Listed, Emitted, IsNew, IsAncestor;
    assert Covered(c, out);
    if !Emitted(out, x.1) {
      var i, y :| 0 <= i < |c.parents| && y in Listed(c.parents[i].tree) && y.1 == x.1;
      NewOrKnown(c, i, pushed, main);
      if IsNew(c.parents[i], pushed, main) {
        ListedCovered(c.parents[i], y, pushed, main, out);
      } else {
        assert x.1 in BlobsOf(Listed(c.parents[i].tree));
      }
    }
  }

  // ---- what is listed -------------------------------------------------------------------------

  /** A file or link with these bytes stands at `path`, somewhere at or under a node that stands at `at`. */
  predicate HasBlob(node: Node, at: string, path: string, blob: Blob) {
    match node
    case Leaf(mode, b) => path == at && blob == b && mode != Gitlink
    case Dir(entries) => exists name :: name in entries && HasBlob(entries[name], Child(at, name), path, blob)
  }

  lemma {:induction false} BlobPathAllowed(node: Node, at: string, path: string, blob: Blob)
    requires PathsAllowed(node, at) && HasBlob(node, at, path, blob)
    ensures TreePathAllowed(path)
  {
    hide TreePathAllowed;
    match node
    case Leaf(_, _) =>
    case Dir(entries) =>
      var name :| name in entries && HasBlob(entries[name], Child(at, name), path, blob);
      BlobPathAllowed(entries[name], Child(at, name), path, blob);
  }

  /** Whatever stands under a node stands at least as deep. */
  lemma {:induction false} BlobIsDeeper(node: Node, at: string, path: string, blob: Blob)
    requires Proper(node) && HasBlob(node, at, path, blob) && at != ""
    ensures Slashes(path) >= Slashes(at)
  {
    hide Slashes;
    match node
    case Leaf(_, _) =>
    case Dir(entries) =>
      var name :| name in entries && HasBlob(entries[name], Child(at, name), path, blob);
      SlashesOfChild(at, name);
      BlobIsDeeper(entries[name], Child(at, name), path, blob);
  }

  lemma AllowedIsShallow(path: string)
    requires TreePathAllowed(path)
    ensures Slashes(path) <= 1
  {
    hide Slashes, NameIn;
    if path in {"README.md", "list.json", ".gitattributes"} {
      DirHasNoSlash(path);
      NoSlashes(path);
    } else if LegacyStep(path) {
      DirHasNoSlash("steps");
      SlashesUnder("steps", path);
      MdHasNoSlash(NameIn("steps", path).value);
    } else {
      var dir :| dir in AUTHORED_DIRS && AuthoredIn(dir, path);
      DirHasNoSlash(dir);
      SlashesUnder(dir, path);
      NoSlashes(NameIn(dir, path).value);
    }
  }

  /** An allowed path of one component is one of the three files of the root. */
  lemma RootPath(path: string)
    requires TreePathAllowed(path) && Slashes(path) == 0
    ensures path == "list.json" || path == "README.md" || path == ".gitattributes"
  {
    hide Slashes, NameIn;
    if LegacyStep(path) {
      DirHasNoSlash("steps");
      SlashesUnder("steps", path);
    } else if AuthoredPath(path) {
      var dir :| dir in AUTHORED_DIRS && AuthoredIn(dir, path);
      DirHasNoSlash(dir);
      SlashesUnder(dir, path);
    }
  }

  /** An allowed path of two components stands in one of four directories. */
  lemma DirPath(dir: string, name: string)
    requires TreePathAllowed(dir + "/" + name) && Component(dir) && Component(name)
    ensures dir == "steps" || dir == "scripts" || dir == "references" || dir == "assets"
  {
    var path := dir + "/" + name;
    assert path[|dir|] == '/';
    if path in {"README.md", "list.json", ".gitattributes"} {
      DirHasNoSlash(path);
    } else if LegacyStep(path) {
      SameDir("steps", dir, name);
    } else {
      var d :| d in AUTHORED_DIRS && AuthoredIn(d, path);
      DirHasNoSlash(d);
      SameDir(d, dir, name);
      assert d == "scripts" || d == "references" || d == "assets";
    }
  }

  lemma EntryListed(root: Tree, name: string, entry: string, path: string, blob: Blob)
    requires name in root && root[name].Dir? && Proper(root[name]) && Component(name) && entry in root[name].entries
    requires HasBlob(root[name].entries[entry], Child(name, entry), path, blob) && TreePathAllowed(path)
    ensures (path, blob) in Listed(root)
  {
    hide TreePathAllowed, Slashes;
    var inner := root[name].entries[entry];
    SlashesOfChild(name, entry);
    AllowedIsShallow(path);
    if inner.Dir? {
      var deeper :| deeper in inner.entries && HasBlob(inner.entries[deeper], Child(Child(name, entry), deeper), path, blob);
      SlashesOfChild(Child(name, entry), deeper);
      BlobIsDeeper(inner.entries[deeper], Child(Child(name, entry), deeper), path, blob);
    } else {
      DirPath(name, entry);
      InDirListed(root, name, entry);
    }
  }

  lemma InDirListed(root: Tree, dir: string, name: string)
    requires dir == "steps" || dir == "scripts" || dir == "references" || dir == "assets"
    requires dir in root && root[dir].Dir? && name in root[dir].entries && IsBlob(root[dir].entries[name])
    ensures (dir + "/" + name, root[dir].entries[name].blob) in Listed(root)
  {
  }

  lemma AtRootListed(root: Tree, name: string)
    requires name == "list.json" || name == "README.md"
    requires name in root && IsBlob(root[name])
    ensures (name, root[name].blob) in Listed(root)
  {
  }

  /** The walk lists everything a lawful tree may hold, submodules and `.gitattributes` apart, under its own path. */
  lemma ListedIsAll(root: Tree, path: string, blob: Blob)
    requires Proper(Dir(root)) && PathsAllowed(Dir(root), "")
    requires HasBlob(Dir(root), "", path, blob) && path != ".gitattributes"
    ensures (path, blob) in Listed(root)
  {
    hide TreePathAllowed, Slashes, Listed, PathsAllowed;
    BlobPathAllowed(Dir(root), "", path, blob);
    var name :| name in root && HasBlob(root[name], Child("", name), path, blob);
    assert Component(name) && Proper(root[name]);
    if root[name].Leaf? {
      NoSlashes(name);
      RootPath(name);
      AtRootListed(root, name);
    } else {
      var entry :| entry in root[name].entries && HasBlob(root[name].entries[entry], Child(name, entry), path, blob);
      EntryListed(root, name, entry, path, blob);
    }
  }

  /** And nothing else: what is listed stands in the tree under that path. */
  lemma ListedStands(root: Tree, x: (string, Blob))
    requires x in Listed(root)
    ensures HasBlob(Dir(root), "", x.0, x.1)
  {
    if name :| name in TEXT_FILES && name in root && IsBlob(root[name]) && x == (name, root[name].blob) {
      assert HasBlob(root[name], Child("", name), x.0, x.1);
    } else {
      var dir, name :| dir in TEXT_DIRS && dir in root && root[dir].Dir? && name in root[dir].entries
        && IsBlob(root[dir].entries[name]) && x == (dir + "/" + name, root[dir].entries[name].blob);
      assert dir != "" by { TextDirNames(dir); }
      assert HasBlob(root[dir].entries[name], Child(dir, name), x.0, x.1);
      assert HasBlob(root[dir], Child("", dir), x.0, x.1);
    }
  }

  lemma TextDirNames(dir: string)
    requires dir in TEXT_DIRS
    ensures dir != ""
  {
  }

  /** The bytes stand at some path in the tree of some commit that main already has. */
  ghost predicate StandsOnMain(b: Blob, main: Option<Commit>) {
    main.Some? && exists m, path :: IsAncestor(m, main.value) && HasBlob(Dir(m.tree), "", path, b)
  }

  lemma KnownStands(b: Blob, main: Option<Commit>)
    requires KnownToMain(b, main)
    ensures StandsOnMain(b, main)
  {
    hide Listed, HasBlob, IsAncestor;
    var m :| IsAncestor(m, main.value) && b in BlobsOf(Listed(m.tree));
    var x :| x in Listed(m.tree) && x.1 == b;
    ListedStands(m.tree, x);
  }

  /** Nothing new slips past: of a push over whose new commits the walk has gone, every file of every new commit, at
      whatever allowed path but `.gitattributes`, was emitted or stands in the tree of a commit main already has. */
  lemma NothingSlipsPast(c: Commit, path: string, blob: Blob, pushed: Commit, main: Option<Commit>, out: seq<PushedText>)
    requires IsNew(c, pushed, main) && Proper(Dir(c.tree)) && PathsAllowed(Dir(c.tree), "")
    requires HasBlob(Dir(c.tree), "", path, blob) && path != ".gitattributes"
    requires forall d :: IsNew(d, pushed, main) ==> Covered(d, out)
    ensures Emitted(out, blob) || StandsOnMain(blob, main)
  {
    hide Listed, HasBlob, IsNew, Covered, Emitted, KnownToMain, StandsOnMain, PathsAllowed, Proper;
    ListedIsAll(c.tree, path, blob);
    ListedCovered(c, (path, blob), pushed, main, out);
    if KnownToMain(blob, main) {
      KnownStands(blob, main);
    }
  }

  /** No parent of the commit lists the blob. */
  ghost predicate NoParentHas(c: Commit, b: Blob) {
    forall i, path :: 0 <= i < |c.parents| ==> (path, b) !in Listed(c.parents[i].tree)
  }

  lemma NotInherited(c: Commit, b: Blob)
    ensures b !in Inherited(c) <==> NoParentHas(c, b)
  {
    hide Listed;
    if NoParentHas(c, b) {
      forall i, x | 0 <= i < |c.parents| && x in Listed(c.parents[i].tree) ensures x.1 != b {
        assert x == (x.0, x.1);
      }
    } else {
      var i, path :| 0 <= i < |c.parents| && (path, b) in Listed(c.parents[i].tree);
      assert (path, b).1 in Inherited(c);
    }
  }

  /** A text that is emitted is a file its commit brings: no parent has those bytes, and the label says whether the
      pushed tip still has them under that path. */
  lemma EmittedIsNew(t: PushedText, commits: seq<Commit>, pushed: Commit)
    requires BroughtBySome(t, commits, pushed)
    ensures exists c, path :: c in commits && HasBlob(Dir(c.tree), "", path, t.blob) && NoParentHas(c, t.blob)
              && (t.mark == Mark.Current(path) || t.mark == Historical(path, c))
    ensures t.mark.Current? ==> HasBlob(Dir(pushed.tree), "", t.mark.path, t.blob)
    ensures t.mark.Historical? ==> (t.mark.path, t.blob) !in Listed(pushed.tree)
  {
    hide Listed, Inherited, HasBlob, NoParentHas;
    var k :| 0 <= k < |commits| && Brought(t, commits[k], pushed);
    NotInherited(commits[k], t.blob);
    var x :| x in Listed(commits[k].tree) && x.1 == t.blob && t.blob !in Inherited(commits[k])
      && t.mark == if x in Listed(pushed.tree) then Mark.Current(x.0) else Historical(x.0, commits[k]);
    ListedStands(commits[k].tree, x);
    if x in Listed(pushed.tree) {
      ListedStands(pushed.tree, x);
    }
  }

  // ---- portions -------------------------------------------------------------------------------

  /** A label and a text, as they are sent. */
  type Sent = (string, string)

  function Weight(t: Sent): nat {
    Utf8Len(t.0) + Utf8Len(t.1)
  }

  function TotalWeight(texts: seq<Sent>): nat {
    if texts == [] then 0 else TotalWeight(texts[..|texts| - 1]) + Weight(texts[|texts| - 1])
  }

  function Flatten(portions: seq<seq<Sent>>): seq<Sent> {
    if portions == [] then [] else Flatten(portions[..|portions| - 1]) + portions[|portions| - 1]
  }

  /** A portion is not empty, and within the limit unless it is a single text. */
  predicate FitPortion(p: seq<Sent>, limit: nat) {
    p != [] && (|p| > 1 ==> TotalWeight(p) <= limit)
  }

  /** A portion was closed only because the next text would not have fitted. */
  predicate Full(p: seq<Sent>, next: Sent, limit: nat) {
    TotalWeight(p) + Weight(next) > limit
  }

  predicate ClosedBefore(p: seq<Sent>, q: seq<Sent>, limit: nat) {
    q != [] && Full(p, q[0], limit)
  }

  /** The bytes of a portion as they are sent: every label and every text. */
  function Written(texts: seq<Sent>): string {
    if texts == [] then "" else Written(texts[..|texts| - 1]) + texts[|texts| - 1].0 + texts[|texts| - 1].1
  }

  lemma {:induction false} Utf8Adds(a: string, b: string)
    ensures Utf8Len(a + b) == Utf8Len(a) + Utf8Len(b)
  {
    if a == "" {
      assert a + b == b;
    } else {
      assert (a + b)[1..] == a[1..] + b;
      Utf8Adds(a[1..], b);
    }
  }

  /** A portion weighs what its labels and texts come to in UTF-8. */
  lemma {:induction false} WeightIsBytes(texts: seq<Sent>)
    ensures TotalWeight(texts) == Utf8Len(Written(texts))
  {
    hide Utf8Len;
    if texts != [] {
      var n := |texts| - 1;
      WeightIsBytes(texts[..n]);
      Utf8Adds(Written(texts[..n]) + texts[n].0, texts[n].1);
      Utf8Adds(Written(texts[..n]), texts[n].0);
    } else {
      NothingWeighs();
    }
  }

  lemma NothingWeighs()
    ensures Utf8Len("") == 0
  {
  }

  lemma FlattenNext(portions: seq<seq<Sent>>, p: seq<Sent>)
    ensures Flatten(portions + [p]) == Flatten(portions) + p
  {
    assert (portions + [p])[..|portions|] == portions;
  }

  lemma WeightNext(texts: seq<Sent>, start: nat, i: nat)
    requires start <= i < |texts|
    ensures TotalWeight(texts[start..i + 1]) == TotalWeight(texts[start..i]) + Weight(texts[i])
  {
    assert texts[start..i + 1][..i - start] == texts[start..i];
  }

  lemma WeightNothing(texts: seq<Sent>, i: nat)
    requires i <= |texts|
    ensures texts[i..i] == [] && TotalWeight(texts[i..i]) == 0
  {
  }

  /** Cuts the texts of a push into portions: together they are exactly the texts, in order; each is within the
      limit unless it is one text; and none was closed while the next text would still have fitted. */
  method TextPortions(texts: seq<Sent>, limit: nat) returns (out: seq<seq<Sent>>)
    ensures Flatten(out) == texts
    ensures forall i :: 0 <= i < |out| ==> FitPortion(out[i], limit)
    ensures forall i :: 0 <= i < |out| - 1 ==> ClosedBefore(out[i], out[i + 1], limit)
  {
    hide TotalWeight, Weight, Flatten;
    out := [];
    var start, size := 0, 0;
    assert Flatten(out) == texts[..0] by { FlattenNothing(); }
    WeightNothing(texts, 0);
    for i := 0 to |texts|
      invariant 0 <= start <= i && (i > 0 ==> start < i)
      invariant Flatten(out) == texts[..start]
      invariant size == TotalWeight(texts[start..i]) && (i - start > 1 ==> size <= limit)
      invariant forall k :: 0 <= k < |out| ==> FitPortion(out[k], limit)
      invariant forall k :: 0 <= k < |out| - 1 ==> ClosedBefore(out[k], out[k + 1], limit)
      invariant out != [] ==> start < |texts| && Full(out[|out| - 1], texts[start], limit)
    {
      var n := Weight(texts[i]);
      if i > start && size + n > limit {
        FlattenNext(out, texts[start..i]);
        assert texts[..start] + texts[start..i] == texts[..i];
        out := out + [texts[start..i]];
        start, size := i, 0;
        WeightNothing(texts, i);
      }
      WeightNext(texts, start, i);
      size := size + n;
    }
    if start < |texts| {
      FlattenNext(out, texts[start..]);
      assert texts[start..|texts|] == texts[start..] && texts[..start] + texts[start..] == texts;
      out := out + [texts[start..]];
    }
  }

  lemma FlattenNothing()
    ensures Flatten([]) == []
  {
  }
}

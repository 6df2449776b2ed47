/** The author's files from input to tree and back, and the two doors that judge a tree. */
module AuthoredSets {
  import opened Wrappers
  import opened Totals
  import opened Canon
  import opened Reading
  import opened Readme
  import opened Tree

  function Elements(files: seq<AuthoredInput>): set<AuthoredInput> {
    set i | 0 <= i < |files| :: files[i]
  }

  // ---- slots and paths ------------------------------------------------------------------------

  lemma DirsDiffer(a: string, b: string, path: string)
    requires a in AUTHORED_DIRS && b in AUTHORED_DIRS
    requires NameIn(a, path).Some? && NameIn(b, path).Some?
    ensures a == b
  {
    assert (a + "/")[0] == path[0] == (b + "/")[0];
    assert a[0] == (a + "/")[0] && b[0] == (b + "/")[0];
    assert "scripts"[0] == 's' && "references"[0] == 'r' && "assets"[0] == 'a';
  }

  lemma NameOfPath(dir: string, name: string)
    ensures NameIn(dir, PathOf((dir, name))) == Some(name)
  {
    assert dir + "/" + name == (dir + "/") + name;
    assert (dir + "/") + name == dir + "/" + name && ((dir + "/") + name)[|dir| + 1..] == name;
  }

  lemma PathOfName(dir: string, path: string)
    requires NameIn(dir, path).Some?
    ensures PathOf((dir, NameIn(dir, path).value)) == path
  {
    assert path == (dir + "/") + path[|dir| + 1..];
  }

  /** The slot a path of an author's file names. */
  ghost function SlotOf(path: string): (s: Slot)
    requires AuthoredPath(path)
    ensures s.0 in AUTHORED_DIRS && AuthoredIn(s.0, path) && NameIn(s.0, path) == Some(s.1)
  {
    var dir :| dir in AUTHORED_DIRS && AuthoredIn(dir, path);
    (dir, NameIn(dir, path).value)
  }

  // ---- the directories built from a set -------------------------------------------------------

  lemma PlacedAt(files: seq<AuthoredInput>, s: Slot)
    ensures s in Authored(PlacedDirs(files)) <==> s.0 in AUTHORED_DIRS && s.1 in FilesIn(files, s.0)
    ensures s in Authored(PlacedDirs(files)) ==> Authored(PlacedDirs(files))[s] == FilesIn(files, s.0)[s.1]
  {
    hide FilesIn;
    if s.0 in AUTHORED_DIRS && s.1 in FilesIn(files, s.0) {
      assert s.0 in PlacedDirs(files);
      assert (s.0, s.1) in Slots(PlacedDirs(files));
    }
  }

  lemma {:induction false} FilesInComeFrom(files: seq<AuthoredInput>, dir: string, name: string)
    requires name in FilesIn(files, dir)
    ensures exists i :: 0 <= i < |files| && NameIn(dir, files[i].path) == Some(name)
  {
    hide NameIn;
    var front, last := files[..|files| - 1], files[|files| - 1];
    if NameIn(dir, last.path) != Some(name) {
      FilesInComeFrom(front, dir, name);
      var i :| 0 <= i < |front| && NameIn(dir, front[i].path) == Some(name);
      assert files[i] == front[i];
    }
  }

  lemma SlotTaken(files: seq<AuthoredInput>, path: string)
    requires AuthoredPath(path) && SlotOf(path) in Authored(PlacedDirs(files))
    ensures SentBefore(files, path)
  {
    hide NameIn, AuthoredIn, PlacedDirs, Authored, FilesIn;
    var s := SlotOf(path);
    PlacedAt(files, s);
    FilesInComeFrom(files, s.0, s.1);
    var i :| 0 <= i < |files| && NameIn(s.0, files[i].path) == Some(s.1);
    PathOfName(s.0, files[i].path);
    PathOfName(s.0, path);
  }

  /** One more file fills one more slot. */
  lemma PlacedNext(front: seq<AuthoredInput>, f: AuthoredInput)
    requires AuthoredPath(f.path) && !SentBefore(front, f.path)
    ensures SlotOf(f.path) !in Authored(PlacedDirs(front))
    ensures Authored(PlacedDirs(front + [f])) == Authored(PlacedDirs(front))[SlotOf(f.path) := NodeOf(f)]
  {
    hide NameIn, AuthoredIn, PlacedDirs, Authored, FilesIn;
    var s := SlotOf(f.path);
    if s in Authored(PlacedDirs(front)) {
      SlotTaken(front, f.path);
    }
    forall t: Slot
      ensures t in Authored(PlacedDirs(front + [f])) <==> t == s || t in Authored(PlacedDirs(front))
      ensures t in Authored(PlacedDirs(front + [f])) ==>
                Authored(PlacedDirs(front + [f]))[t] == if t == s then NodeOf(f) else Authored(PlacedDirs(front))[t]
    {
      PlacedAt(front, t);
      PlacedAt(front + [f], t);
      FilesInNext(front + [f], t.0, |front|);
      assert (front + [f])[..|front|] == front && (front + [f])[..|front| + 1] == front + [f];
      if t.0 in AUTHORED_DIRS && NameIn(t.0, f.path).Some? {
        DirsDiffer(t.0, s.0, f.path);
      }
    }
  }

  /** The files of a set of distinct, well named text files. */
  predicate Placeable(files: seq<AuthoredInput>) {
    && (forall i :: 0 <= i < |files| ==> AuthoredPath(files[i].path) && !HasNul(files[i].content))
    && (forall i, j :: 0 <= i < j < |files| ==> files[i].path != files[j].path)
  }

  lemma FilesOfNext(m: map<Slot, Node>, s: Slot, node: Node)
    requires s !in m && PlainFile(node)
    ensures FilesOf(m[s := node]) == FilesOf(m) + {FileAt(s, node)}
  {
    hide PlainFile;
    var n := m[s := node];
    forall x | x in FilesOf(m) + {FileAt(s, node)} ensures x in FilesOf(n) {
      if x == FileAt(s, node) {
        assert n[s] == node;
      } else {
        var t :| t in m && PlainFile(m[t]) && x == FileAt(t, m[t]);
        assert n[t] == m[t];
      }
    }
  }

  lemma WeightsNext(m: map<Slot, Node>, s: Slot, node: Node)
    requires s !in m
    ensures Sum(Weights(m[s := node])) == Sum(Weights(m)) + Weight(s, node)
    ensures |m[s := node]| == |m| + 1
  {
    hide Sum, Weight;
    WeighNext(m[s := node], s);
    assert m[s := node] - {s} == m;
  }

  /** Placing a set puts each file in its own slot: nothing is lost, nothing added, the sizes add up. */
  lemma {:induction false} PlacedIsSet(files: seq<AuthoredInput>)
    requires Placeable(files)
    ensures FilesOf(Authored(PlacedDirs(files))) == Elements(files)
    ensures |Authored(PlacedDirs(files))| == |files|
    ensures Sum(Weights(Authored(PlacedDirs(files)))) == InputBytes(files)
    ensures forall s :: s in Authored(PlacedDirs(files)) ==>
              && PlainFile(Authored(PlacedDirs(files))[s]) && !HasNul(Authored(PlacedDirs(files))[s].blob)
              && s.0 in AUTHORED_DIRS && AuthoredPath(PathOf(s))
  {
    hide PlacedDirs, Authored, NameIn, AuthoredIn, HasNul, FilesOf, Weights, Sum, Utf8Len, AuthoredPath;
    if files == [] {
      PlacedNothing();
    } else {
      var n := |files| - 1;
      var front, f := files[..n], files[n];
      assert files == front + [f];
      PlacedIsSet(front);
      assert !SentBefore(front, f.path);
      PlacedNext(front, f);
      var s, m := SlotOf(f.path), Authored(PlacedDirs(front));
      PathOfName(s.0, f.path);
      FilesOfNext(m, s, NodeOf(f));
      WeightsNext(m, s, NodeOf(f));
      assert FileAt(s, NodeOf(f)) == f;
      ElementsNext(front, f);
    }
  }

  lemma PlacedNothing()
    ensures Authored(PlacedDirs([])) == map[] && Sum(Weights(map[])) == 0 && FilesOf(map[]) == {}
  {
  }

  lemma ElementsNext(front: seq<AuthoredInput>, f: AuthoredInput)
    ensures Elements(front + [f]) == Elements(front) + {f}
  {
    var all := front + [f];
    forall x | x in Elements(front) + {f} ensures x in Elements(all) {
      if x == f {
        assert all[|front|] == f;
      } else {
        var i :| 0 <= i < |front| && front[i] == x;
        assert all[i] == x;
      }
    }
  }

  lemma PathsDiffer(a: Slot, b: Slot)
    requires a.0 in AUTHORED_DIRS && b.0 in AUTHORED_DIRS && PathOf(a) == PathOf(b)
    ensures a == b
  {
    hide NameIn;
    NameOfPath(a.0, a.1);
    NameOfPath(b.0, b.1);
    DirsDiffer(a.0, b.0, PathOf(a));
  }

  lemma FilesOfSkip(m: map<Slot, Node>, s: Slot, node: Node)
    requires s !in m && !PlainFile(node)
    ensures FilesOf(m[s := node]) == FilesOf(m)
  {
    hide PlainFile;
    forall x | x in FilesOf(m) ensures x in FilesOf(m[s := node]) {
      var t :| t in m && PlainFile(m[t]) && x == FileAt(t, m[t]);
      assert m[s := node][t] == m[t];
    }
  }

  predicate DistinctPaths(out: seq<AuthoredInput>) {
    forall i, j :: 0 <= i < j < |out| ==> out[i].path != out[j].path
  }

  predicate OfSlot(done: map<Slot, Node>, path: string) {
    exists s :: s in done && path == PathOf(s)
  }

  /** What was read is exactly the plain files among the slots that are done, each once. */
  ghost predicate Read(out: seq<AuthoredInput>, done: map<Slot, Node>) {
    && Elements(out) == FilesOf(done) && DistinctPaths(out)
    && (forall s :: s in done ==> s.0 in AUTHORED_DIRS)
    && (forall i :: 0 <= i < |out| ==> OfSlot(done, out[i].path))
  }

  lemma NewPath(done: map<Slot, Node>, path: string, s: Slot)
    requires OfSlot(done, path) && s !in done && s.0 in AUTHORED_DIRS && forall t :: t in done ==> t.0 in AUTHORED_DIRS
    ensures path != PathOf(s)
  {
    hide PathOf;
    var t :| t in done && path == PathOf(t);
    if PathOf(t) == PathOf(s) {
      PathsDiffer(t, s);
    }
  }

  lemma OfSlotNext(done: map<Slot, Node>, path: string, s: Slot, node: Node)
    requires OfSlot(done, path) || path == PathOf(s)
    ensures OfSlot(done[s := node], path)
  {
    hide PathOf;
    if path != PathOf(s) {
      var t :| t in done && path == PathOf(t);
      assert t in done[s := node];
    }
  }

  lemma ReadNext(out: seq<AuthoredInput>, done: map<Slot, Node>, s: Slot, node: Node)
    requires Read(out, done) && s !in done && s.0 in AUTHORED_DIRS
    ensures PlainFile(node) ==> Read(out + [FileAt(s, node)], done[s := node])
    ensures !PlainFile(node) ==> Read(out, done[s := node])
  {
    hide PlainFile, PathOf, FilesOf, Elements, OfSlot;
    forall i | 0 <= i < |out| ensures out[i].path != PathOf(s) && OfSlot(done[s := node], out[i].path) {
      NewPath(done, out[i].path, s);
      OfSlotNext(done, out[i].path, s, node);
    }
    if PlainFile(node) {
      FilesOfNext(done, s, node);
      ElementsNext(out, FileAt(s, node));
      OfSlotNext(done, PathOf(s), s, node);
    } else {
      FilesOfSkip(done, s, node);
    }
  }

  /** Reads the author's files of a tree back, each once; what is not a plain file is passed over. */
  method ReadAuthored(root: Tree) returns (out: seq<AuthoredInput>)
    ensures Elements(out) == AuthoredFiles(root)
    ensures DistinctPaths(out)
  {
    hide PlainFile, PathOf, Read;
    out := [];
    var files := Authored(root);
    var left := Slots(root);
    ghost var done: map<Slot, Node> := map[];
    assert Read(out, done) by { NothingRead(); }
    while left != {}
      invariant left <= files.Keys && done.Keys == files.Keys - left && forall s :: s in done ==> done[s] == files[s]
      invariant Read(out, done)
      decreases |left|
    {
      var s :| s in left;
      left := left - {s};
      ReadNext(out, done, s, files[s]);
      if PlainFile(files[s]) {
        out := out + [FileAt(s, files[s])];
      }
      done := done[s := files[s]];
    }
    assert done == files;
    AllRead(out, done);
  }

  lemma AllRead(out: seq<AuthoredInput>, done: map<Slot, Node>)
    requires Read(out, done)
    ensures Elements(out) == FilesOf(done) && DistinctPaths(out)
  {
  }

  lemma NothingRead()
    ensures Read([], map[])
  {
  }

  // ---- author's directories beside generated files --------------------------------------------

  /** Only directories, and only under the author's names. */
  predicate DirsOnly(dirs: Tree) {
    dirs.Keys <= AUTHORED_DIRS && forall d :: d in dirs ==> dirs[d].Dir?
  }

  lemma AuthoredBeside(v: VersionData, dirs: Tree)
    requires DirsOnly(dirs)
    ensures Authored(VersionFiles(v) + dirs) == Authored(dirs)
    ensures CarriedDirs(VersionFiles(v) + dirs) == dirs
  {
    hide ListJson, Render;
    DirList();
    var root := VersionFiles(v) + dirs;
    forall d | d in AUTHORED_DIRS ensures d in root <==> d in dirs {}
    assert Slots(root) == Slots(dirs);
  }

  lemma GeneratedPathsAllowed(name: string)
    requires name in GENERATED_FILES
    ensures TreePathAllowed(name)
  {
  }

  lemma PathsBeside(v: VersionData, dirs: Tree)
    requires DirsOnly(dirs) && forall d :: d in dirs ==> PathsAllowed(dirs[d], d)
    ensures PathsAllowed(Dir(VersionFiles(v) + dirs), "")
    ensures "list.json" in VersionFiles(v) + dirs && (VersionFiles(v) + dirs)["list.json"] == Leaf(Regular, Printed(ListJson(v)))
  {
    hide ListJson, Render, TreePathAllowed;
    DirList();
    var root := VersionFiles(v) + dirs;
    forall name | name in root ensures PathsAllowed(root[name], Child("", name)) {
      if name in dirs {
        assert root[name] == dirs[name];
      } else {
        GeneratedPathsAllowed(name);
      }
    }
  }

  /** A tree of generated files and lawful author's directories is lawful. */
  lemma LawfulBeside(v: VersionData, dirs: Tree)
    requires DirsOnly(dirs) && AuthoredLawful(Authored(dirs))
    requires forall d :: d in dirs ==> PathsAllowed(dirs[d], d)
    ensures Lawful(VersionFiles(v) + dirs)
  {
    hide VersionFiles, PathsAllowed, AuthoredLawful, Authored;
    AuthoredBeside(v, dirs);
    PathsBeside(v, dirs);
  }

  lemma DirNames(dir: string)
    requires dir in AUTHORED_DIRS
    ensures dir != ""
  {
  }

  lemma PlacedPathsAllowed(files: seq<AuthoredInput>, dir: string)
    requires Placeable(files) && dir in PlacedDirs(files)
    ensures PathsAllowed(PlacedDirs(files)[dir], dir)
  {
    hide FilesIn, AuthoredPath, Authored, NameIn, AuthoredIn, HasNul, Sum, Weights, Utf8Len, LegacyStep, FilesOf, InputBytes;
    PlacedIsSet(files);
    var entries := FilesIn(files, dir);
    assert dir != "" by { DirNames(dir); }
    forall name | name in entries ensures PathsAllowed(entries[name], Child(dir, name)) {
      PlacedAt(files, (dir, name));
      assert PathOf((dir, name)) == Child(dir, name);
    }
  }

  /** A set the service takes always builds a tree that passes both checks of `update_main`, and reading that
      tree back gives exactly that set, with the modes. */
  lemma ReplaceReadsBack(v: VersionData, parent: Option<Tree>, files: seq<AuthoredInput>)
    requires Accepted(files)
    ensures Lawful(BuildTree(v, parent, Replace(files)))
    ensures AuthoredFiles(BuildTree(v, parent, Replace(files))) == Elements(files)
    ensures |Authored(BuildTree(v, parent, Replace(files)))| == |files|
  {
    hide VersionFiles, FilesIn, Authored, PathsAllowed, InputNameOk, FilesOf, Sum, Weights;
    PlacedIsSet(files);
    forall d | d in PlacedDirs(files) ensures PathsAllowed(PlacedDirs(files)[d], d) {
      PlacedPathsAllowed(files, d);
    }
    AuthoredBeside(v, PlacedDirs(files));
    LawfulBeside(v, PlacedDirs(files));
  }

  /** An empty set removes every file. */
  lemma EmptyReplaceReadsNothing(v: VersionData, parent: Option<Tree>)
    ensures Lawful(BuildTree(v, parent, Replace([]))) && AuthoredFiles(BuildTree(v, parent, Replace([]))) == {}
  {
    ReplaceReadsBack(v, parent, []);
    assert Elements([]) == {};
  }

  lemma AuthoredCarried(parent: Tree)
    ensures DirsOnly(CarriedDirs(parent)) && Authored(CarriedDirs(parent)) == Authored(parent)
  {
    assert Slots(CarriedDirs(parent)) == Slots(parent);
  }

  /** Carrying keeps the parent's files as they are, and keeps a lawful tree lawful. */
  lemma CarryKeepsFiles(v: VersionData, parent: Tree)
    ensures Authored(BuildTree(v, Some(parent), Carry)) == Authored(parent)
    ensures AuthoredFiles(BuildTree(v, Some(parent), Carry)) == AuthoredFiles(parent)
    ensures Lawful(parent) ==> Lawful(BuildTree(v, Some(parent), Carry))
  {
    hide VersionFiles, Authored, AuthoredLawful, TreePathAllowed, FilesOf;
    AuthoredCarried(parent);
    AuthoredBeside(v, CarriedDirs(parent));
    if Lawful(parent) {
      forall d | d in CarriedDirs(parent) ensures PathsAllowed(CarriedDirs(parent)[d], d) {
        assert PathsAllowed(parent[d], Child("", d));
      }
      LawfulBeside(v, CarriedDirs(parent));
    }
  }

  /** The author's files and directories of a tree obey the rules, whatever else it holds. */
  ghost predicate FilesLawful(root: Tree) {
    AuthoredLawful(Authored(root)) && forall d :: d in CarriedDirs(root) ==> PathsAllowed(root[d], d)
  }

  lemma LawfulFiles(root: Tree)
    requires Lawful(root)
    ensures FilesLawful(root)
  {
    hide Authored, AuthoredLawful, TreePathAllowed;
    forall d | d in CarriedDirs(root) ensures PathsAllowed(root[d], d) {
      assert PathsAllowed(root[d], Child("", d));
    }
  }

  /** A generated tree that carries files over is lawful exactly when those files are. */
  lemma CarryLawful(v: VersionData, parent: Tree)
    ensures Lawful(BuildTree(v, Some(parent), Carry)) <==> FilesLawful(parent)
    ensures FilesLawful(BuildTree(v, Some(parent), Carry)) <==> FilesLawful(parent)
  {
    hide VersionFiles, Authored, AuthoredLawful, TreePathAllowed, PathsAllowed;
    var dirs := CarriedDirs(parent);
    AuthoredCarried(parent);
    AuthoredBeside(v, dirs);
    var root := BuildTree(v, Some(parent), Carry);
    assert root == VersionFiles(v) + dirs && CarriedDirs(root) == dirs;
    assert FilesLawful(root) <==> FilesLawful(parent);
    if FilesLawful(parent) {
      LawfulBeside(v, dirs);
    }
    if Lawful(root) {
      LawfulFiles(root);
    }
  }

  /** The first commit of a list carries nothing. */
  lemma RootCommitLawful(v: VersionData)
    ensures Lawful(BuildTree(v, None, Carry)) && AuthoredFiles(BuildTree(v, None, Carry)) == {}
    ensures FilesLawful(BuildTree(v, None, Carry))
  {
    hide VersionFiles;
    LawfulFiles(VersionFiles(v) + map[]) by { RootBeside(v); }
    RootBeside(v);
  }

  lemma RootBeside(v: VersionData)
    ensures Lawful(VersionFiles(v) + map[]) && Authored(VersionFiles(v) + map[]) == map[]
  {
    hide VersionFiles;
    assert Slots(map[]) == {} && Authored(map[]) == map[];
    WeighNothing();
    AuthoredBeside(v, map[]);
    LawfulBeside(v, map[]);
  }

  lemma BuiltFrom(v: VersionData, parent: Option<Tree>, source: Source) returns (dirs: Tree)
    ensures DirsOnly(dirs) && BuildTree(v, parent, source) == VersionFiles(v) + dirs
  {
    hide VersionFiles;
    dirs := if source.Replace? then PlacedDirs(source.files) else if parent.Some? then CarriedDirs(parent.value) else map[];
  }

  /** A version's own tree, built again over itself, is the same tree: this is how a lost tag finds its commit. */
  lemma RebuildIsSame(v: VersionData, parent: Option<Tree>, source: Source)
    ensures BuildTree(v, Some(BuildTree(v, parent, source)), Carry) == BuildTree(v, parent, source)
  {
    hide VersionFiles, CarriedDirs;
    var dirs := BuiltFrom(v, parent, source);
    AuthoredBeside(v, dirs);
  }

  // ---- a ready canon in a tree ----------------------------------------------------------------

  lemma AuthoredAside(root: Tree, other: Tree)
    requires forall d :: d in AUTHORED_DIRS ==> (d in root <==> d in other) && (d in root ==> root[d] == other[d])
    ensures Authored(root) == Authored(other)
  {
    assert Slots(root) == Slots(other);
  }

  lemma WithCanonAt(root: Tree, canon: Blob, name: string)
    ensures name !in {"list.json", "README.md", ".gitattributes", "steps"} ==>
              && (name in WithCanon(root, canon) <==> name in root)
              && (name in root ==> WithCanon(root, canon)[name] == root[name])
    ensures name in WithCanon(root, canon) && name !in root ==> name in GENERATED_FILES
    ensures name in WithCanon(root, canon) ==>
              WithCanon(root, canon)[name].Leaf? || (name in root && WithCanon(root, canon)[name] == root[name])
    ensures "list.json" in WithCanon(root, canon) && WithCanon(root, canon)["list.json"] == Leaf(Regular, canon)
    ensures PageFor(canon).Some? ==> PageMatchesCanon(WithCanon(root, canon))
    ensures "steps" !in WithCanon(root, canon)
  {
    hide PageFor;
  }

  lemma GeneratedNames(name: string)
    ensures name in GENERATED_FILES <==> name == "list.json" || name == "README.md" || name == ".gitattributes"
    ensures name in AUTHORED_DIRS ==> name !in {"list.json", "README.md", ".gitattributes", "steps"}
  {
    if name in AUTHORED_DIRS {
      assert name[0] == 's' || name[0] == 'r' || name[0] == 'a';
      assert name == "scripts" || name == "references" || name == "assets";
      assert "scripts"[1] == 'c' && "steps"[1] == 't';
    }
  }

  /** Writing a ready canon into a branch or as a resolved merge keeps the author's files and a lawful tree lawful;
      whenever the canon parses, the page of the new tree is the page of the new canon. */
  lemma WithCanonKeeps(root: Tree, canon: Blob)
    ensures Authored(WithCanon(root, canon)) == Authored(root)
    ensures AuthoredFiles(WithCanon(root, canon)) == AuthoredFiles(root)
    ensures PageFor(canon).Some? ==> PageMatchesCanon(WithCanon(root, canon))
    ensures Lawful(root) ==> Lawful(WithCanon(root, canon))
  {
    hide WithCanon, Authored, AuthoredLawful, TreePathAllowed, PageFor, PageMatchesCanon, FilesOf;
    var edited := WithCanon(root, canon);
    forall d | d in AUTHORED_DIRS ensures (d in root <==> d in edited) && (d in root ==> root[d] == edited[d]) {
      GeneratedNames(d);
      WithCanonAt(root, canon, d);
    }
    AuthoredAside(root, edited);
    WithCanonAt(root, canon, "list.json");
    if Lawful(root) {
      forall name | name in edited ensures PathsAllowed(edited[name], Child("", name)) {
        WithCanonAt(root, canon, name);
        GeneratedNames(name);
        if name in root && edited[name] == root[name] {
          assert PathsAllowed(root[name], Child("", name));
        } else {
          WrittenLeafAllowed(edited[name], name);
        }
      }
    }
  }

  lemma WrittenLeafAllowed(node: Node, name: string)
    requires node.Leaf? && name in GENERATED_FILES
    ensures PathsAllowed(node, Child("", name))
  {
    GeneratedPathsAllowed(name);
  }

  /** A canon the service printed itself always gives a page: every tree it is put into carries that page. */
  lemma PrintedPageMatches(root: Tree, v: VersionData)
    requires NumbersFit(v)
    ensures PageMatchesCanon(WithCanon(root, Printed(ListJson(v))))
    ensures WithCanon(root, Printed(ListJson(v)))["README.md"] == Leaf(Regular, Written(Render(v)))
  {
    hide ListJson, Render, ReadmeFromCanon;
    TwoRoadsMeet(v);
    WithCanonAt(root, Printed(ListJson(v)), "list.json");
  }

  /** Every tree built for a version carries the page of its own canon. */
  lemma BuiltPageMatches(v: VersionData, parent: Option<Tree>, source: Source)
    requires NumbersFit(v)
    ensures PageMatchesCanon(BuildTree(v, parent, source))
  {
    hide ListJson, Render, CarriedDirs, ReadmeFromCanon;
    TwoRoadsMeet(v);
    DirList();
    var dirs := BuiltFrom(v, parent, source);
    assert "list.json" !in dirs && "README.md" !in dirs;
  }
}

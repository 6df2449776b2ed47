/** The accept rule of the pre-receive hook for one tree, and exactly where it differs from `update_main`. */
module Hook {
  import opened Wrappers
  import opened Totals
  import opened Text
  import opened Canon
  import opened Readme
  import opened Tree
  import opened AuthoredSets

  /** Characters for which git prints a path in quotes even with core.quotePath=false. */
  predicate QuotedChar(c: char) {
    c < ' ' || c == '\U{7F}' || c == '"' || c == '\\'
  }

  predicate NeedsQuotes(path: string) {
    exists i :: 0 <= i < |path| && QuotedChar(path[i])
  }

  predicate OneLevelUnder(dir: string, path: string) {
    match NameIn(dir, path)
    case None => false
    case Some(name) => Component(name)
  }

  /** The path as git prints it matches the anchored pattern; a quoted one starts with a quote and never does. */
  predicate HookPath(path: string) {
    && !NeedsQuotes(path)
    && (|| path in {"README.md", "list.json", ".gitattributes"}
        || LegacyStep(path)
        || exists dir :: dir in AUTHORED_DIRS && OneLevelUnder(dir, path))
  }

  /** The paths the hook takes: printed as they are, at the places of the allowlist, dot names in the author's directories
      included. */
  ghost predicate HookStandsWell(path: string) {
    && (forall i :: 0 <= i < |path| ==> path[i] >= ' ' && path[i] != '\U{7F}' && path[i] != '"' && path[i] != '\\')
    && (|| path == "README.md" || path == "list.json" || path == ".gitattributes"
        || exists name :: Component(name) && (path == "steps/" + name + ".md" || UnderAuthors(path, name)))
  }

  lemma OneLevelStands(path: string)
    ensures (exists dir :: dir in AUTHORED_DIRS && OneLevelUnder(dir, path)) <==> exists name :: Component(name) && UnderAuthors(path, name)
  {
    if dir :| dir in AUTHORED_DIRS && OneLevelUnder(dir, path) {
      var name := NameIn(dir, path).value;
      assert path == dir + "/" + name;
      assert "scripts" + "/" == "scripts/" && "references" + "/" == "references/" && "assets" + "/" == "assets/";
      assert UnderAuthors(path, name);
    }
    if name :| Component(name) && UnderAuthors(path, name) {
      var dir := if path == "scripts/" + name then "scripts" else if path == "references/" + name then "references" else "assets";
      assert path == dir + "/" + name;
      PathParts(dir, name);
      assert OneLevelUnder(dir, path);
    }
  }

  lemma HookPathIs(path: string)
    ensures HookPath(path) <==> HookStandsWell(path)
  {
    hide LegacyStep, OneLevelUnder, UnderAuthors;
    OldStepStands(path);
    OneLevelStands(path);
  }

  predicate HookPaths(node: Node, path: string) {
    match node
    case Leaf(_, _) => HookPath(path)
    case Dir(entries) => forall name :: name in entries ==> HookPaths(entries[name], Child(path, name))
  }

  predicate PathsPlain(node: Node, path: string) {
    match node
    case Leaf(_, _) => !NeedsQuotes(path)
    case Dir(entries) => forall name :: name in entries ==> PathsPlain(entries[name], Child(path, name))
  }

  /** `ls-tree -r` lists files, links and submodules, not directories. */
  function Listed(files: map<Slot, Node>): map<Slot, Node> {
    map s | s in files && files[s].Leaf? :: files[s]
  }

  /** The hook weighs contents only. */
  function Contents(files: map<Slot, Node>): (r: map<Slot, nat>)
    ensures r.Keys == files.Keys
  {
    map s | s in files :: if files[s].Leaf? then Size(files[s].blob) else 0
  }

  ghost predicate HookAuthored(files: map<Slot, Node>) {
    && (forall s :: s in files ==> PlainFile(files[s]) && !HasNul(files[s].blob))
    && |files| <= AUTHORED_MAX_FILES
    && Sum(Contents(files)) <= AUTHORED_MAX_BYTES
  }

  predicate IsGitlink(node: Node) {
    node.Leaf? && node.mode == Gitlink
  }

  /** The rules of the hook for the tree of a pushed commit. */
  ghost predicate HookAccepts(root: Tree) {
    && "list.json" in root && !IsGitlink(root["list.json"])
    && HookPaths(Dir(root), "")
    && HookAuthored(Listed(Authored(root)))
  }

  // ---- from update_main to the hook -----------------------------------------------------------

  lemma AllowedIsHookPath(path: string)
    requires TreePathAllowed(path)
    ensures HookPath(path) <==> !NeedsQuotes(path)
  {
    if AuthoredPath(path) {
      var dir :| dir in AUTHORED_DIRS && AuthoredIn(dir, path);
      assert OneLevelUnder(dir, path);
    }
  }

  lemma {:induction false} PathsCompared(node: Node, path: string)
    requires PathsAllowed(node, path)
    ensures HookPaths(node, path) <==> PathsPlain(node, path)
  {
    hide TreePathAllowed, HookPath, NeedsQuotes;
    match node
    case Leaf(_, _) => AllowedIsHookPath(path);
    case Dir(entries) =>
      forall name | name in entries
        ensures HookPaths(entries[name], Child(path, name)) <==> PathsPlain(entries[name], Child(path, name))
      {
        PathsCompared(entries[name], Child(path, name));
      }
  }

  lemma ContentsWeighLess(files: map<Slot, Node>)
    ensures Sum(Contents(files)) <= Sum(Weights(files))
  {
    hide Sum, Utf8Len;
    SumMonotone(Contents(files), Weights(files));
  }

  /** A tree that `update_main` takes is taken by the hook exactly when git prints none of its paths in quotes
      and `list.json` is not a submodule. */
  lemma LawfulThenHook(root: Tree)
    requires Lawful(root)
    ensures HookAccepts(root) <==> PathsPlain(Dir(root), "") && !IsGitlink(root["list.json"])
  {
    hide Authored, Sum, Weights, Contents, HookPaths, PathsPlain, PathsAllowed, HasNul;
    PathsCompared(Dir(root), "");
    var files := Authored(root);
    assert Listed(files) == files;
    ContentsWeighLess(files);
  }

  // ---- from the hook to update_main -----------------------------------------------------------

  /** What git guarantees of a tree: names are components other than the dot names, no directory is empty. */
  predicate Proper(node: Node) {
    match node
    case Leaf(_, _) => true
    case Dir(entries) =>
      && entries.Keys != {}
      && forall name :: name in entries ==> Component(name) && !DotName(name) && Proper(entries[name])
  }

  lemma {:induction false} BaseNameOfName(name: string)
    requires '/' !in name
    ensures BaseName(name) == name
  {
  }

  lemma BaseNameUnder(dir: string, path: string)
    requires OneLevelUnder(dir, path)
    ensures BaseName(path) == NameIn(dir, path).value
  {
    var name := NameIn(dir, path).value;
    BaseNameOf(dir, name);
    assert path == dir + "/" + name;
  }

  lemma HookPathIsAllowed(path: string)
    requires HookPath(path) && !DotName(BaseName(path))
    ensures TreePathAllowed(path)
  {
    if dir :| dir in AUTHORED_DIRS && OneLevelUnder(dir, path) {
      BaseNameUnder(dir, path);
      assert AuthoredIn(dir, path);
    }
  }

  lemma ChildBaseName(path: string, name: string)
    requires Component(name)
    ensures BaseName(Child(path, name)) == name
  {
    if path == "" {
      BaseNameOfName(name);
    } else {
      BaseNameOf(path, name);
    }
  }

  lemma {:induction false} HookPathsAllowed(node: Node, path: string)
    requires HookPaths(node, path) && Proper(node)
    requires node.Leaf? ==> !DotName(BaseName(path))
    ensures PathsAllowed(node, path)
  {
    hide HookPath, TreePathAllowed, BaseName;
    match node
    case Leaf(_, _) => HookPathIsAllowed(path);
    case Dir(entries) =>
      forall name | name in entries ensures PathsAllowed(entries[name], Child(path, name)) {
        ChildBaseName(path, name);
        HookPathsAllowed(entries[name], Child(path, name));
      }
  }

  function Slashes(s: string): nat {
    if s == "" then 0 else Slashes(s[1..]) + (if s[0] == '/' then 1 else 0)
  }

  lemma {:induction false} SlashesAdd(a: string, b: string)
    ensures Slashes(a + b) == Slashes(a) + Slashes(b)
  {
    if a == "" {
      assert a + b == b;
    } else {
      assert (a + b)[1..] == a[1..] + b;
      SlashesAdd(a[1..], b);
    }
  }

  lemma {:induction false} NoSlashes(s: string)
    requires '/' !in s
    ensures Slashes(s) == 0
  {
    if s != "" {
      NoSlashes(s[1..]);
    }
  }

  lemma SlashesUnder(dir: string, path: string)
    requires '/' !in dir && NameIn(dir, path).Some?
    ensures Slashes(path) == 1 + Slashes(NameIn(dir, path).value)
  {
    var name := NameIn(dir, path).value;
    assert path == dir + ("/" + name) && "/" + name == "/" + name;
    NoSlashes(dir);
    SlashesAdd(dir, "/" + name);
    SlashesAdd("/", name);
    assert Slashes("/") == 1;
  }

  lemma MdHasNoSlash(name: string)
    requires EndsWith(name, ".md") && Component(name[..|name| - 3])
    ensures Slashes(name) == 0
  {
    assert name == name[..|name| - 3] + ".md";
    assert '/' !in ".md";
    NoSlashes(name);
  }

  lemma DirHasNoSlash(dir: string)
    requires dir in AUTHORED_DIRS + {"steps", "README.md", "list.json", ".gitattributes"}
    ensures '/' !in dir
  {
  }

  lemma HookPathIsShallow(path: string)
    requires HookPath(path)
    ensures Slashes(path) <= 1
  {
    hide Slashes, NameIn;
    if path in {"README.md", "list.json", ".gitattributes"} {
      DirHasNoSlash(path);
      NoSlashes(path);
    } else if LegacyStep(path) {
      DirHasNoSlash("steps");
      SlashesUnder("steps", path);
      MdHasNoSlash(NameIn("steps", path).value);
    } else {
      var dir :| dir in AUTHORED_DIRS && OneLevelUnder(dir, path);
      DirHasNoSlash(dir);
      SlashesUnder(dir, path);
      NoSlashes(NameIn(dir, path).value);
    }
  }

  lemma SlashesOfChild(path: string, name: string)
    requires path != "" && Component(name)
    ensures Slashes(Child(path, name)) == Slashes(path) + 1 && Child(path, name) != ""
  {
    SlashesAdd(path + "/", name);
    SlashesAdd(path, "/");
    NoSlashes(name);
    assert Slashes("/") == 1;
  }

  /** Nothing stands two levels deep. */
  lemma {:induction false} TooDeep(node: Node, path: string)
    requires Proper(node) && Slashes(path) >= 2 && path != ""
    ensures !HookPaths(node, path)
  {
    hide HookPath, Slashes;
    match node
    case Leaf(_, _) =>
      if HookPath(path) {
        HookPathIsShallow(path);
      }
    case Dir(entries) =>
      var name :| name in entries.Keys;
      SlashesOfChild(path, name);
      TooDeep(entries[name], Child(path, name));
  }

  lemma NoDirInDir(node: Node, path: string)
    requires HookPaths(node, path) && Proper(node) && Slashes(path) == 1 && path != ""
    ensures node.Leaf?
  {
    hide HookPath, Slashes;
    if node.Dir? {
      var name :| name in node.entries.Keys;
      SlashesOfChild(path, name);
      TooDeep(node.entries[name], Child(path, name));
    }
  }

  lemma EntryIsLeaf(root: Tree, s: Slot)
    requires HookPaths(Dir(root), "") && Proper(Dir(root)) && s in Authored(root)
    ensures Authored(root)[s].Leaf?
  {
    hide HookPath, Slashes, Component, DotName;
    assert Proper(root[s.0]) && HookPaths(root[s.0], Child("", s.0));
    DirHasNoSlash(s.0);
    DirNames(s.0);
    NoSlashes(s.0);
    assert Proper(root[s.0].entries[s.1]) && HookPaths(root[s.0].entries[s.1], Child(s.0, s.1));
    SlashesOfChild(s.0, s.1);
    NoDirInDir(root[s.0].entries[s.1], Child(s.0, s.1));
  }

  /** A tree that the hook takes is taken by `update_main` exactly when the author's files, with the bytes of
      their paths, fit the limit. */
  lemma HookThenLawful(root: Tree)
    requires HookAccepts(root) && Proper(Dir(root))
    ensures Lawful(root) <==> Sum(Weights(Authored(root))) <= AUTHORED_MAX_BYTES
  {
    hide Authored, Sum, Weights, Contents, HookPaths, PathsAllowed, HasNul, Proper;
    HookPathsAllowed(Dir(root), "");
    var files := Authored(root);
    forall s | s in files ensures files[s].Leaf? {
      EntryIsLeaf(root, s);
    }
    assert Listed(files) == files;
  }

  // ---- both doors on the trees of sent files --------------------------------------------------

  function ContentBytes(files: seq<AuthoredInput>): nat {
    if files == [] then 0 else ContentBytes(files[..|files| - 1]) + Size(files[|files| - 1].content)
  }

  lemma ContentsNext(m: map<Slot, Node>, s: Slot, node: Node)
    requires s !in m && node.Leaf?
    ensures Sum(Contents(m[s := node])) == Sum(Contents(m)) + Size(node.blob)
  {
    hide Sum;
    SumRemove(Contents(m[s := node]), s);
    assert Contents(m[s := node]) - {s} == Contents(m);
  }

  lemma {:induction false} PlacedContents(files: seq<AuthoredInput>)
    requires Placeable(files)
    ensures Sum(Contents(Authored(PlacedDirs(files)))) == ContentBytes(files)
  {
    hide PlacedDirs, Authored, AuthoredPath, AuthoredIn, NameIn, HasNul, Sum, Contents;
    if files == [] {
      PlacedNothing();
      assert Contents(map[]) == map[] && Sum(Contents(map[])) == 0 by { NoContents(); }
    } else {
      var n := |files| - 1;
      var front, f := files[..n], files[n];
      assert files == front + [f];
      PlacedContents(front);
      assert !SentBefore(front, f.path);
      PlacedNext(front, f);
      ContentsNext(Authored(PlacedDirs(front)), SlotOf(f.path), NodeOf(f));
    }
  }

  lemma NoContents()
    ensures Contents(map[]) == map[] && Sum(Contents(map[])) == 0
  {
  }

  lemma GeneratedPlain(name: string)
    requires name in GENERATED_FILES
    ensures !NeedsQuotes(name)
  {
  }

  /** The built tree has plain paths exactly when the sent files have. */
  lemma BuiltPlain(v: VersionData, files: seq<AuthoredInput>)
    requires Placeable(files)
    ensures PathsPlain(Dir(VersionFiles(v) + PlacedDirs(files)), "")
       <==> forall i :: 0 <= i < |files| ==> !NeedsQuotes(files[i].path)
  {
    hide NeedsQuotes, VersionFiles, AuthoredPath, AuthoredIn, NameIn, HasNul, Sum, Weights, FilesIn;
    var dirs := PlacedDirs(files);
    var root := VersionFiles(v) + dirs;
    PlacedIsSet(files);
    if PathsPlain(Dir(root), "") {
      forall i | 0 <= i < |files| ensures !NeedsQuotes(files[i].path) {
        assert files[i] in FilesOf(Authored(dirs));
        var s :| s in Authored(dirs) && PlainFile(Authored(dirs)[s]) && FileAt(s, Authored(dirs)[s]) == files[i];
        PlainAt(root, dirs, s);
      }
    }
    if forall i :: 0 <= i < |files| ==> !NeedsQuotes(files[i].path) {
      forall name | name in root ensures PathsPlain(root[name], Child("", name)) {
        if name in dirs {
          PlacedPlain(files, name);
        } else {
          LeafPlain(v, name);
        }
      }
    }
  }

  lemma PlainAt(root: Tree, dirs: Tree, s: Slot)
    requires PathsPlain(Dir(root), "") && s in Authored(dirs) && Authored(dirs)[s].Leaf?
    requires s.0 in root && root[s.0] == dirs[s.0]
    ensures !NeedsQuotes(PathOf(s))
  {
    hide NeedsQuotes;
    DirNames(s.0);
    assert PathsPlain(root[s.0], Child("", s.0));
    assert PathsPlain(root[s.0].entries[s.1], Child(s.0, s.1));
  }

  lemma LeafPlain(v: VersionData, name: string)
    requires name in VersionFiles(v)
    ensures PathsPlain(VersionFiles(v)[name], Child("", name))
  {
    hide ListJson, Render, NeedsQuotes;
    GeneratedPlain(name);
  }

  lemma PlacedPlain(files: seq<AuthoredInput>, dir: string)
    requires Placeable(files) && dir in PlacedDirs(files)
    requires forall i :: 0 <= i < |files| ==> !NeedsQuotes(files[i].path)
    ensures PathsPlain(PlacedDirs(files)[dir], Child("", dir))
  {
    hide NeedsQuotes, AuthoredPath, AuthoredIn, NameIn, HasNul, Sum, Weights, FilesIn, Authored;
    PlacedIsSet(files);
    DirNames(dir);
    var entries := FilesIn(files, dir);
    forall name | name in entries ensures PathsPlain(entries[name], Child(dir, name)) {
      PlacedAt(files, (dir, name));
      var s := (dir, name);
      var m := Authored(PlacedDirs(files));
      assert s in m && PlainFile(m[s]) && FileAt(s, m[s]) in FilesOf(m);
      var i :| 0 <= i < |files| && files[i] == FileAt(s, m[s]);
      assert PathOf(s) == Child(dir, name);
    }
  }

  function Built(v: VersionData, files: seq<AuthoredInput>): Tree {
    VersionFiles(v) + PlacedDirs(files)
  }

  lemma PlacedAreDirs(files: seq<AuthoredInput>)
    ensures DirsOnly(PlacedDirs(files))
  {
    hide FilesIn;
  }

  lemma BuiltShape(v: VersionData, files: seq<AuthoredInput>)
    requires Placeable(files)
    ensures Authored(Built(v, files)) == Authored(PlacedDirs(files))
    ensures PathsAllowed(Dir(Built(v, files)), "")
    ensures "list.json" in Built(v, files) && !IsGitlink(Built(v, files)["list.json"])
  {
    hide VersionFiles, PlacedDirs, Authored, PathsAllowed, Placeable;
    var dirs := PlacedDirs(files);
    PlacedAreDirs(files);
    AuthoredBeside(v, dirs);
    forall d | d in dirs ensures PathsAllowed(dirs[d], d) {
      PlacedPathsAllowed(files, d);
    }
    PathsBeside(v, dirs);
  }

  /** What both doors say of the author's files of a built tree. */
  lemma BothWeigh(files: seq<AuthoredInput>)
    requires Placeable(files) && |files| <= AUTHORED_MAX_FILES
    ensures AuthoredLawful(Authored(PlacedDirs(files))) <==> InputBytes(files) <= AUTHORED_MAX_BYTES
    ensures HookAuthored(Listed(Authored(PlacedDirs(files)))) <==> ContentBytes(files) <= AUTHORED_MAX_BYTES
  {
    hide PlacedDirs, Authored, Sum, Weights, Contents, AuthoredPath, HasNul, FilesOf, InputBytes, Placeable;
    PlacedIsSet(files);
    PlacedContents(files);
    assert Listed(Authored(PlacedDirs(files))) == Authored(PlacedDirs(files));
  }

  /** The two doors on the tree of the same fifty files at most: `update_main` weighs contents and paths,
      the hook weighs contents and wants every path plain. */
  lemma TwoDoors(v: VersionData, files: seq<AuthoredInput>)
    requires Placeable(files) && |files| <= AUTHORED_MAX_FILES
    ensures Lawful(Built(v, files)) <==> InputBytes(files) <= AUTHORED_MAX_BYTES
    ensures HookAccepts(Built(v, files)) <==>
            ContentBytes(files) <= AUTHORED_MAX_BYTES && forall i :: 0 <= i < |files| ==> !NeedsQuotes(files[i].path)
  {
    hide VersionFiles, PlacedDirs, Authored, PathsAllowed, HookPaths, PathsPlain, NeedsQuotes, AuthoredLawful, HookAuthored,
      Listed, IsGitlink, Placeable, InputBytes, ContentBytes;
    BothWeigh(files);
    BuiltShape(v, files);
    PathsCompared(Dir(Built(v, files)), "");
    BuiltPlain(v, files);
  }

  // ---- the two differences are real -----------------------------------------------------------

  const QUOTED_FILE := AuthoredInput("scripts/\"", File([], None), false)

  const BIG_FILE := AuthoredInput("scripts/a", File(seq(AUTHORED_MAX_BYTES, i => 1), None), false)

  lemma UnderScripts(name: string)
    requires Component(name) && !DotName(name)
    ensures AuthoredPath("scripts/" + name) && BaseName("scripts/" + name) == name
  {
    var path := "scripts/" + name;
    NameOfPath("scripts", name);
    BaseNameOf("scripts", name);
    assert path == "scripts" + "/" + name by {
      assert "scripts" + "/" == "scripts/";
    }
    assert AuthoredIn("scripts", path) && "scripts" in AUTHORED_DIRS;
  }

  lemma {:induction false} Utf8Bound(s: string)
    ensures |s| <= Utf8Len(s) <= 4 * |s|
  {
    if s != "" {
      Utf8Bound(s[1..]);
    }
  }

  lemma OneFile(f: AuthoredInput)
    ensures InputBytes([f]) == Size(f.content) + Utf8Len(f.path) && ContentBytes([f]) == Size(f.content)
  {
    assert [f][..0] == [];
  }

  lemma QuotedFileAccepted()
    ensures Accepted([QUOTED_FILE]) && NeedsQuotes(QUOTED_FILE.path)
  {
    hide AuthoredPath, BaseName, Utf8Len, InputBytes;
    assert "scripts/\"" == "scripts/" + "\"";
    UnderScripts("\"");
    assert QuotedChar(QUOTED_FILE.path[8]);
    OneFile(QUOTED_FILE);
    Utf8Bound("\"");
    Utf8Bound(QUOTED_FILE.path);
  }

  /** A name with a quote mark passes the input check and `update_main`, and the hook refuses the tree. */
  lemma QuotedNameDivides(v: VersionData)
    ensures Accepted([QUOTED_FILE])
    ensures Lawful(Built(v, [QUOTED_FILE])) && !HookAccepts(Built(v, [QUOTED_FILE]))
  {
    hide Built, AuthoredPath, Lawful, HookAccepts, NeedsQuotes, InputNameOk, InputBytes, ContentBytes;
    QuotedFileAccepted();
    TwoDoors(v, [QUOTED_FILE]);
    assert NeedsQuotes([QUOTED_FILE][0].path);
  }

  lemma BigFilePlaceable()
    ensures Placeable([BIG_FILE]) && !NeedsQuotes(BIG_FILE.path)
    ensures ContentBytes([BIG_FILE]) == AUTHORED_MAX_BYTES < InputBytes([BIG_FILE])
  {
    hide AuthoredPath, BaseName, Utf8Len, InputBytes, ContentBytes;
    assert "scripts/a" == "scripts/" + "a";
    UnderScripts("a");
    OneFile(BIG_FILE);
    Utf8Bound(BIG_FILE.path);
  }

  /** A file of exactly the limit passes the hook, and `update_main` refuses the tree because of its path. */
  lemma PathBytesDivide(v: VersionData)
    ensures HookAccepts(Built(v, [BIG_FILE])) && !Lawful(Built(v, [BIG_FILE]))
  {
    hide Built, AuthoredPath, Lawful, HookAccepts, NeedsQuotes, Placeable, InputBytes, ContentBytes;
    BigFilePlaceable();
    var files := [BIG_FILE];
    TwoDoors(v, files);
  }
}

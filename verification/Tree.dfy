/** The tree of a version: which paths it may hold, the author's files in it, and how it is built. */
module Tree {
  import opened Wrappers
  import opened Totals
  import opened Text
  import opened Json
  import opened Canon
  import opened Readme

  // ---- trees ----------------------------------------------------------------------------------

  datatype Mode = Regular | Executable | Symlink | Gitlink

  /** The bytes of a file. `Printed` and `Written` are texts the service writes itself: the print of a canon and
      a generated page. `File` are bytes from outside, with the JSON value they parse to, if they do. */
  datatype Blob = File(data: seq<bv8>, json: Option<Json>) | Printed(value: Json) | Written(text: string)

  datatype Node = Leaf(mode: Mode, blob: Blob) | Dir(entries: map<string, Node>)

  type Tree = map<string, Node>

  function JsonOf(b: Blob): Option<Json> {
    match b
    case File(_, json) => json
    case Printed(value) => Some(value)
    case Written(_) => None
  }

  // ---- paths ----------------------------------------------------------------------------------

  const AUTHORED_DIRS: set<string> := {"scripts", "references", "assets"}

  /** What follows `dir/` in a path. */
  function NameIn(dir: string, path: string): Option<string> {
    if dir + "/" <= path then Some(path[|dir| + 1..]) else None
  }

  /** One component of a path. */
  predicate Component(name: string) {
    name != "" && '/' !in name
  }

  predicate DotName(name: string) {
    name == "." || name == ".."
  }

  predicate AuthoredIn(dir: string, path: string) {
    match NameIn(dir, path)
    case None => false
    case Some(name) => Component(name) && !DotName(name)
  }

  /** The path of an author's file: exactly one of the three directories, one level deep. */
  predicate AuthoredPath(path: string) {
    exists dir :: dir in AUTHORED_DIRS && AuthoredIn(dir, path)
  }

  predicate EndsWith(s: string, suffix: string) {
    |s| >= |suffix| && s[|s| - |suffix|..] == suffix
  }

  /** The old form `steps/<name>.md`. */
  predicate LegacyStep(path: string) {
    match NameIn("steps", path)
    case None => false
    case Some(name) => EndsWith(name, ".md") && Component(name[..|name| - 3])
  }

  predicate TreePathAllowed(path: string) {
    path in {"README.md", "list.json", ".gitattributes"} || AuthoredPath(path) || LegacyStep(path)
  }

  function Child(path: string, name: string): string {
    if path == "" then name else path + "/" + name
  }

  /** Every leaf at or under a node stands where the allowlist lets it stand. */
  predicate PathsAllowed(node: Node, path: string) {
    match node
    case Leaf(_, _) => TreePathAllowed(path)
    case Dir(entries) => forall name :: name in entries ==> PathsAllowed(entries[name], Child(path, name))
  }

  // ---- the author's files ---------------------------------------------------------------------

  /** A directory of author's files and a name in it. */
  type Slot = (string, string)

  function PathOf(s: Slot): string {
    s.0 + "/" + s.1
  }

  function Slots(root: Tree): set<Slot> {
    set dir, name | dir in AUTHORED_DIRS && dir in root && root[dir].Dir? && name in root[dir].entries :: (dir, name)
  }

  /** What stands in the author's directories of a tree. */
  function Authored(root: Tree): map<Slot, Node> {
    map s | s in Slots(root) :: root[s.0].entries[s.1]
  }

  /** The length of a text in UTF-8. */
  function Utf8Len(s: string): nat {
    if s == "" then 0
    else Utf8Len(s[1..]) + (if s[0] <= '\U{7F}' then 1 else if s[0] <= '\U{7FF}' then 2 else if s[0] <= '\U{FFFF}' then 3 else 4)
  }

  /** Bytes of a file from outside. Generated texts never stand in an author's directory and weigh nothing here. */
  function Size(b: Blob): nat {
    if b.File? then |b.data| else 0
  }

  predicate HasNul(b: Blob) {
    b.File? && 0 in b.data
  }

  predicate PlainFile(node: Node) {
    node.Leaf? && (node.mode == Regular || node.mode == Executable)
  }

  const AUTHORED_MAX_FILES: nat := 50
  const AUTHORED_MAX_BYTES: nat := 1024 * 1024

  function Weight(s: Slot, node: Node): nat {
    Utf8Len(PathOf(s)) + (if node.Leaf? then Size(node.blob) else 0)
  }

  /** The weight of a file is its bytes and the bytes of its path. */
  function Weights(files: map<Slot, Node>): (r: map<Slot, nat>)
    ensures r.Keys == files.Keys
  {
    map s | s in files :: Weight(s, files[s])
  }

  /** The rule for the author's files: plain text files, no more than fifty, a megabyte together. */
  ghost predicate AuthoredLawful(files: map<Slot, Node>) {
    && (forall s :: s in files ==> PlainFile(files[s]) && !HasNul(files[s].blob))
    && |files| <= AUTHORED_MAX_FILES
    && Sum(Weights(files)) <= AUTHORED_MAX_BYTES
  }

  /** A tree that `update_main` lets onto main. */
  ghost predicate Lawful(root: Tree) {
    "list.json" in root && PathsAllowed(Dir(root), "") && AuthoredLawful(Authored(root))
  }

  datatype Violation =
    | MissingListJson
    | ForeignPath(path: string)
    | AuthoredNotFile(path: string)
    | AuthoredBinary(path: string)
    | AuthoredTooMany(files: nat)
    | AuthoredTooLarge(bytes: nat)
    | AuthoredDuplicate(path: string)
    | AuthoredExecutable(path: string)

  /** What a refusal of a tree says is true of the tree. */
  ghost predicate Justified(v: Violation, files: map<Slot, Node>) {
    match v
    case AuthoredNotFile(path) => exists s :: s in files && path == PathOf(s) && !PlainFile(files[s])
    case AuthoredBinary(path) => exists s :: s in files && path == PathOf(s) && PlainFile(files[s]) && HasNul(files[s].blob)
    case AuthoredTooMany(n) => n == AUTHORED_MAX_FILES + 1 <= |files|
    case AuthoredTooLarge(n) => n == Sum(Weights(files)) > AUTHORED_MAX_BYTES
    case _ => false
  }

  lemma WeighNext(left: map<Slot, Node>, s: Slot)
    requires s in left
    ensures Sum(Weights(left)) == Weight(s, left[s]) + Sum(Weights(left - {s}))
    ensures |left - {s}| == |left| - 1
  {
    hide Sum, Weight;
    SumRemove(Weights(left), s);
    assert Weights(left) - {s} == Weights(left - {s});
    assert (left - {s}).Keys == left.Keys - {s};
  }

  lemma WeighNothing()
    ensures Sum(Weights(map[])) == 0
  {
  }

  /** What is wrong with one file by itself. */
  function FileFault(s: Slot, node: Node): (v: Option<Violation>)
    ensures v.None? <==> PlainFile(node) && !HasNul(node.blob)
  {
    if !PlainFile(node) then Some(AuthoredNotFile(PathOf(s)))
    else if HasNul(node.blob) then Some(AuthoredBinary(PathOf(s)))
    else None
  }

  /** Walks the author's files of a tree in the order they are listed. */
  method AuthoredViolation(files: map<Slot, Node>) returns (v: Option<Violation>)
    ensures v.None? <==> AuthoredLawful(files)
    ensures v.Some? ==> Justified(v.value, files)
  {
    hide Sum, Weight, Weights, PlainFile, HasNul, PathOf;
    var left := files;
    var count, bytes := 0, 0;
    while left != map[]
      invariant left.Keys <= files.Keys && forall s :: s in left ==> left[s] == files[s]
      invariant forall s :: s in files && s !in left ==> FileFault(s, files[s]).None?
      invariant count + |left| == |files| && count <= AUTHORED_MAX_FILES
      invariant bytes + Sum(Weights(left)) == Sum(Weights(files))
      decreases |left|
    {
      SomeKey(left);
      var s :| s in left;
      v := FileFault(s, left[s]);
      if v.Some? {
        return;
      }
      count := count + 1;
      bytes := bytes + Weight(s, left[s]);
      if count > AUTHORED_MAX_FILES {
        return Some(AuthoredTooMany(count));
      }
      WeighNext(left, s);
      left := left - {s};
    }
    WeighNothing();
    if bytes > AUTHORED_MAX_BYTES {
      return Some(AuthoredTooLarge(bytes));
    }
    return None;
  }

  lemma SomeKey<K(!new), V>(m: map<K, V>)
    requires m != map[]
    ensures exists k :: k in m
  {
    var k := Pick(m);
  }

  // ---- a set of files sent with an edit -------------------------------------------------------

  datatype AuthoredInput = AuthoredInput(path: string, content: Blob, executable: bool)

  const AUTHORED_NAME_MAX_BYTES: nat := 100

  /** Control characters, `\` and the marks that change the direction of text. */
  predicate BadNameChar(c: char) {
    || c <= '\U{1F}' || '\U{7F}' <= c <= '\U{9F}'
    || c == '\\'
    || c == '\U{200E}' || c == '\U{200F}'
    || '\U{202A}' <= c <= '\U{202E}'
    || '\U{2066}' <= c <= '\U{2069}'
  }

  predicate InputNameOk(path: string) {
    var name := BaseName(path);
    && Utf8Len(name) <= AUTHORED_NAME_MAX_BYTES
    && !("." <= name)
    && forall i :: 0 <= i < |name| ==> !BadNameChar(name[i])
  }

  predicate SentBefore(files: seq<AuthoredInput>, path: string) {
    exists i :: 0 <= i < |files| && files[i].path == path
  }

  /** What is wrong with one file of the set, given those before it. */
  function InputFault(before: seq<AuthoredInput>, f: AuthoredInput): Option<Violation> {
    if !AuthoredPath(f.path) || !InputNameOk(f.path) then Some(ForeignPath(f.path))
    else if f.executable && !("scripts/" <= f.path) then Some(AuthoredExecutable(f.path))
    else if SentBefore(before, f.path) then Some(AuthoredDuplicate(f.path))
    else if HasNul(f.content) then Some(AuthoredBinary(f.path))
    else if |before| + 1 > AUTHORED_MAX_FILES then Some(AuthoredTooMany(|before| + 1))
    else None
  }

  function FirstFault(files: seq<AuthoredInput>): Option<Violation> {
    if files == [] then None
    else
      var front, last := files[..|files| - 1], files[|files| - 1];
      if FirstFault(front).Some? then FirstFault(front) else InputFault(front, last)
  }

  function InputBytes(files: seq<AuthoredInput>): nat {
    if files == [] then 0
    else
      var last := files[|files| - 1];
      InputBytes(files[..|files| - 1]) + Size(last.content) + Utf8Len(last.path)
  }

  function InputVerdict(files: seq<AuthoredInput>): Option<Violation> {
    if FirstFault(files).Some? then FirstFault(files)
    else if InputBytes(files) > AUTHORED_MAX_BYTES then Some(AuthoredTooLarge(InputBytes(files)))
    else None
  }

  /** A set of files the service takes. */
  predicate Accepted(files: seq<AuthoredInput>) {
    && (forall i :: 0 <= i < |files| ==> AuthoredPath(files[i].path) && InputNameOk(files[i].path) && !HasNul(files[i].content))
    && (forall i :: 0 <= i < |files| && files[i].executable ==> "scripts/" <= files[i].path)
    && (forall i, j :: 0 <= i < j < |files| ==> files[i].path != files[j].path)
    && |files| <= AUTHORED_MAX_FILES
    && InputBytes(files) <= AUTHORED_MAX_BYTES
  }

  lemma FirstFaultNext(files: seq<AuthoredInput>, i: nat)
    requires i < |files|
    ensures FirstFault(files[..i + 1]) == if FirstFault(files[..i]).Some? then FirstFault(files[..i]) else InputFault(files[..i], files[i])
    ensures InputBytes(files[..i + 1]) == InputBytes(files[..i]) + Size(files[i].content) + Utf8Len(files[i].path)
  {
    hide InputFault;
    assert files[..i + 1][..i] == files[..i];
  }

  lemma {:induction false} FaultStays(files: seq<AuthoredInput>, i: nat)
    requires i <= |files| && FirstFault(files[..i]).Some?
    ensures FirstFault(files) == FirstFault(files[..i])
    decreases |files|
  {
    hide InputFault;
    if i == |files| {
      assert files[..i] == files;
    } else {
      var front := files[..|files| - 1];
      assert front[..i] == files[..i];
      FaultStays(front, i);
    }
  }

  lemma NoInputNoFault()
    ensures FirstFault([]) == None && InputBytes([]) == 0
  {
  }

  /** Checks a set of files before anything is written. */
  method AuthoredInputViolation(files: seq<AuthoredInput>) returns (v: Option<Violation>)
    ensures v == InputVerdict(files)
  {
    hide AuthoredPath, InputNameOk, HasNul, Utf8Len, FirstFault, InputBytes;
    var seen: set<string> := {};
    var count, bytes := 0, 0;
    assert files[..0] == [];
    NoInputNoFault();
    for i := 0 to |files|
      invariant FirstFault(files[..i]).None?
      invariant forall path :: path in seen <==> SentBefore(files[..i], path)
      invariant count == i && bytes == InputBytes(files[..i])
    {
      var f := files[i];
      FirstFaultNext(files, i);
      if FirstFault(files[..i + 1]).Some? {
        FaultStays(files, i + 1);
      }
      if !AuthoredPath(f.path) || !InputNameOk(f.path) {
        return Some(ForeignPath(f.path));
      }
      if f.executable && !("scripts/" <= f.path) {
        return Some(AuthoredExecutable(f.path));
      }
      if f.path in seen {
        return Some(AuthoredDuplicate(f.path));
      }
      seen := seen + {f.path};
      if HasNul(f.content) {
        return Some(AuthoredBinary(f.path));
      }
      count := count + 1;
      bytes := bytes + Size(f.content) + Utf8Len(f.path);
      if count > AUTHORED_MAX_FILES {
        return Some(AuthoredTooMany(count));
      }
      SentNext(files, i);
    }
    assert files[..|files|] == files;
    if bytes > AUTHORED_MAX_BYTES {
      return Some(AuthoredTooLarge(bytes));
    }
    return None;
  }

  lemma SentNext(files: seq<AuthoredInput>, i: nat)
    requires i < |files|
    ensures forall path :: SentBefore(files[..i + 1], path) <==> SentBefore(files[..i], path) || path == files[i].path
  {
    var front := files[..i];
    assert files[..i + 1] == front + [files[i]];
    forall path ensures SentBefore(front + [files[i]], path) <==> SentBefore(front, path) || path == files[i].path {
      if SentBefore(front, path) {
        var k :| 0 <= k < |front| && front[k].path == path;
        assert (front + [files[i]])[k].path == path;
      }
      assert (front + [files[i]])[|front|].path == files[i].path;
    }
  }

  lemma {:induction false} NoFaultMeans(files: seq<AuthoredInput>)
    ensures FirstFault(files).None? <==>
            && (forall i :: 0 <= i < |files| ==> AuthoredPath(files[i].path) && InputNameOk(files[i].path) && !HasNul(files[i].content))
            && (forall i :: 0 <= i < |files| && files[i].executable ==> "scripts/" <= files[i].path)
            && (forall i, j :: 0 <= i < j < |files| ==> files[i].path != files[j].path)
            && |files| <= AUTHORED_MAX_FILES
  {
    hide AuthoredPath, InputNameOk, HasNul;
    if files != [] {
      var n := |files| - 1;
      var front, last := files[..n], files[n];
      assert files == front + [last];
      NoFaultMeans(front);
      assert SentBefore(front, last.path) <==> exists i :: 0 <= i < n && files[i].path == last.path by {
        if SentBefore(front, last.path) {
          var i :| 0 <= i < |front| && front[i].path == last.path;
          assert files[i].path == last.path;
        }
        if i :| 0 <= i < n && files[i].path == last.path {
          assert front[i].path == last.path;
        }
      }
    }
  }

  /** A character that may stand in the name of a file. */
  predicate NameChar(c: char) {
    && ' ' <= c && c != '/' && c != '\\' && !('\U{7F}' <= c <= '\U{9F}')
    && c != '\U{200E}' && c != '\U{200F}' && !('\U{202A}' <= c <= '\U{202E}') && !('\U{2066}' <= c <= '\U{2069}')
  }

  /** A name an author may give: no dot in front, at most a hundred bytes, every character one that may stand in it. */
  predicate GoodName(name: string) {
    name != "" && name[0] != '.' && Utf8Len(name) <= 100 && forall i :: 0 <= i < |name| ==> NameChar(name[i])
  }

  /** A file an author may send: a text with a good name in one of the three directories, executable only in `scripts`. */
  ghost predicate GoodFile(f: AuthoredInput) {
    && !(f.content.File? && 0 in f.content.data)
    && GoodPath(f.path, f.executable)
  }

  ghost predicate GoodPath(path: string, executable: bool) {
    exists name :: GoodName(name)
      && (path == "scripts/" + name || (!executable && (path == "references/" + name || path == "assets/" + name)))
  }

  /** Good files, each path once, fifty at most, a megabyte together with their paths. */
  ghost predicate GoodSet(files: seq<AuthoredInput>) {
    && (forall i :: 0 <= i < |files| ==> GoodFile(files[i]))
    && (forall i, j :: 0 <= i < j < |files| ==> files[i].path != files[j].path)
    && |files| <= 50 && InputBytes(files) <= 1_048_576
  }

  lemma PathParts(dir: string, name: string)
    requires '/' !in name
    ensures NameIn(dir, dir + "/" + name) == Some(name) && BaseName(dir + "/" + name) == name
  {
    assert (dir + "/" + name)[|dir| + 1..] == name;
    BaseNameOf(dir, name);
  }

  lemma {:induction false} BaseNameOf(prefix: string, name: string)
    requires '/' !in name
    ensures BaseName(prefix + "/" + name) == name
  {
    var s := prefix + "/" + name;
    if prefix == "" {
      assert s == "/" + name && s[1..] == name;
    } else {
      BaseNameOf(prefix[1..], name);
      assert s[1..] == prefix[1..] + "/" + name && s[1..][|prefix| - 1] == '/';
    }
  }

  lemma NameIsGood(name: string)
    requires '/' !in name && name != ""
    ensures GoodName(name) <==> Utf8Len(name) <= 100 && !("." <= name) && forall i :: 0 <= i < |name| ==> !BadNameChar(name[i])
    ensures GoodName(name) ==> !DotName(name)
  {
    hide Utf8Len;
    assert "." <= name <==> name[0] == '.';
  }

  /** What the checks say of a file that stands in one of the three directories. */
  lemma PlacedIsGood(path: string, dir: string, name: string)
    requires path == dir + "/" + name && (dir == "scripts" || dir == "references" || dir == "assets") && Component(name)
    ensures AuthoredPath(path) && InputNameOk(path) <==> GoodName(name)
    ensures "scripts/" <= path <==> dir == "scripts"
  {
    hide Utf8Len, GoodName, BadNameChar, BaseName, DotName;
    PathParts(dir, name);
    NameIsGood(name);
    DirOf(path);
    assert AuthoredIn(dir, path) <==> !DotName(name);
    if d :| d in AUTHORED_DIRS && AuthoredIn(d, path) {
      SameDir(d, dir, name);
    }
  }

  lemma GoodPathIsAllowed(path: string, executable: bool)
    requires GoodPath(path, executable)
    ensures AuthoredPath(path) && InputNameOk(path) && (executable ==> "scripts/" <= path)
  {
    hide InputNameOk, AuthoredPath, GoodName;
    var name :| GoodName(name) && (path == "scripts/" + name || (!executable && (path == "references/" + name || path == "assets/" + name)));
    GoodIsComponent(name);
    var dir := if path == "scripts/" + name then "scripts" else if path == "references/" + name then "references" else "assets";
    assert path == dir + "/" + name;
    PlacedIsGood(path, dir, name);
  }

  lemma SplitPath(path: string) returns (dir: string, name: string)
    requires AuthoredPath(path)
    ensures (dir == "scripts" || dir == "references" || dir == "assets") && Component(name) && path == dir + "/" + name
  {
    hide Component, DotName;
    dir :| dir in AUTHORED_DIRS && AuthoredIn(dir, path);
    name := path[|dir| + 1..];
    assert path == path[..|dir| + 1] + name && path[..|dir| + 1] == dir + "/";
  }

  lemma JoinedNames(name: string)
    ensures "scripts" + "/" + name == "scripts/" + name && "references" + "/" + name == "references/" + name
    ensures "assets" + "/" + name == "assets/" + name
  {
  }

  lemma AllowedPathIsGood(path: string, executable: bool)
    requires AuthoredPath(path) && InputNameOk(path) && (executable ==> "scripts/" <= path)
    ensures GoodPath(path, executable)
  {
    hide InputNameOk, GoodName, AuthoredPath, Component;
    var dir, name := SplitPath(path);
    PlacedIsGood(path, dir, name);
    JoinedNames(name);
  }

  lemma FileIsGood(f: AuthoredInput)
    ensures GoodFile(f) <==> AuthoredPath(f.path) && InputNameOk(f.path) && !HasNul(f.content) && (f.executable ==> "scripts/" <= f.path)
  {
    hide InputNameOk, AuthoredPath, GoodPath;
    if GoodPath(f.path, f.executable) {
      GoodPathIsAllowed(f.path, f.executable);
    }
    if AuthoredPath(f.path) && InputNameOk(f.path) && (f.executable ==> "scripts/" <= f.path) {
      AllowedPathIsGood(f.path, f.executable);
    }
  }

  lemma SameDir(d: string, dir: string, name: string)
    requires '/' !in d && '/' !in dir && NameIn(d, dir + "/" + name).Some?
    ensures d == dir
  {
    var path := dir + "/" + name;
    assert d + "/" <= path && path[|d|] == (d + "/")[|d|] == '/' && path[|dir|] == '/';
    assert forall i :: 0 <= i < |dir| ==> path[i] == dir[i];
    assert forall i :: 0 <= i < |d| ==> path[i] == (d + "/")[i] == d[i];
    assert |d| == |dir|;
    assert d == dir;
  }

  lemma GoodIsComponent(name: string)
    requires GoodName(name)
    ensures Component(name)
  {
  }

  lemma DirOf(path: string)
    ensures "scripts/" <= path ==> !("references/" <= path) && !("assets/" <= path)
  {
    assert "scripts/"[0] == 's' && "references/"[0] == 'r' && "assets/"[0] == 'a';
  }

  /** The check passes exactly the sets that obey every rule at once. */
  lemma VerdictIsExact(files: seq<AuthoredInput>)
    ensures InputVerdict(files).None? <==> Accepted(files)
    ensures Accepted(files) <==> GoodSet(files)
  {
    hide FirstFault, InputBytes, AuthoredPath, InputNameOk, HasNul, GoodFile;
    NoFaultMeans(files);
    forall i | 0 <= i < |files|
      ensures GoodFile(files[i]) <==> AuthoredPath(files[i].path) && InputNameOk(files[i].path) && !HasNul(files[i].content)
                                      && (files[i].executable ==> "scripts/" <= files[i].path)
    {
      FileIsGood(files[i]);
    }
  }

  /** What a refusal of a set says is true of the set. */
  ghost predicate SaidTruly(v: Violation, files: seq<AuthoredInput>) {
    match v
    case ForeignPath(path) => exists i :: 0 <= i < |files| && files[i].path == path && !GoodPath(path, false)
    case AuthoredExecutable(path) => exists i :: 0 <= i < |files| && files[i].path == path && files[i].executable && !GoodPath(path, true)
    case AuthoredDuplicate(path) => exists i, j :: 0 <= i < j < |files| && files[i].path == files[j].path == path
    case AuthoredBinary(path) => exists i :: 0 <= i < |files| && files[i].path == path && files[i].content.File? && 0 in files[i].content.data
    case AuthoredTooMany(n) => n == 51 && |files| >= 51
    case AuthoredTooLarge(n) => n == InputBytes(files) && n > 1_048_576
    case _ => false
  }

  lemma FaultOfLast(before: seq<AuthoredInput>, f: AuthoredInput)
    requires |before| <= 50 && InputFault(before, f).Some?
    ensures SaidTruly(InputFault(before, f).value, before + [f])
  {
    hide AuthoredPath, InputNameOk, GoodPath, InputBytes;
    var files := before + [f];
    assert files[|before|] == f;
    if GoodPath(f.path, false) {
      GoodPathIsAllowed(f.path, false);
    }
    if GoodPath(f.path, true) {
      GoodPathIsAllowed(f.path, true);
    }
    if SentBefore(before, f.path) {
      var i :| 0 <= i < |before| && before[i].path == f.path;
      assert files[i].path == f.path;
    }
  }

  lemma SaidOfMore(v: Violation, front: seq<AuthoredInput>, last: AuthoredInput)
    requires SaidTruly(v, front) && !v.AuthoredTooLarge?
    ensures SaidTruly(v, front + [last])
  {
    hide GoodPath;
    assert forall i :: 0 <= i < |front| ==> (front + [last])[i] == front[i];
  }

  lemma {:induction false} FaultIsTrue(files: seq<AuthoredInput>)
    requires FirstFault(files).Some?
    ensures SaidTruly(FirstFault(files).value, files) && !FirstFault(files).value.AuthoredTooLarge?
  {
    hide SaidTruly, InputFault;
    var n := |files| - 1;
    assert files == files[..n] + [files[n]];
    if FirstFault(files[..n]).Some? {
      FaultIsTrue(files[..n]);
      SaidOfMore(FirstFault(files).value, files[..n], files[n]);
    } else {
      NoFaultMeans(files[..n]);
      FaultOfLast(files[..n], files[n]);
      assert !InputFault(files[..n], files[n]).value.AuthoredTooLarge? by { OneFileIsNotTooLarge(files[..n], files[n]); }
    }
  }

  lemma OneFileIsNotTooLarge(before: seq<AuthoredInput>, f: AuthoredInput)
    ensures InputFault(before, f) != None ==> !InputFault(before, f).value.AuthoredTooLarge?
  {
    hide AuthoredPath, InputNameOk, SentBefore;
  }

  /** A refusal of a set of files is true: there is such a file, such a pair, so many files or so many bytes. */
  lemma VerdictIsTrue(files: seq<AuthoredInput>)
    requires InputVerdict(files).Some?
    ensures SaidTruly(InputVerdict(files).value, files)
  {
    hide FirstFault, InputBytes, GoodPath;
    if FirstFault(files).Some? {
      FaultIsTrue(files);
    }
  }

  predicate UnderAuthors(path: string, name: string) {
    path == "scripts/" + name || path == "references/" + name || path == "assets/" + name
  }

  /** Where a file may stand in a tree: three files of the root, the old steps, and the author's three directories. */
  ghost predicate StandsWell(path: string) {
    || path == "README.md" || path == "list.json" || path == ".gitattributes"
    || (exists name :: Component(name) && path == "steps/" + name + ".md")
    || (exists name :: Component(name) && name != "." && name != ".." && UnderAuthors(path, name))
  }

  lemma OldStepStands(path: string)
    ensures LegacyStep(path) <==> exists name :: Component(name) && path == "steps/" + name + ".md"
  {
    if LegacyStep(path) {
      var name := path[6..][..|path| - 9];
      assert path == "steps/" + name + ".md";
    }
    if name :| Component(name) && path == "steps/" + name + ".md" {
      assert "steps/" <= path && path[6..] == name + ".md" && (name + ".md")[..|name|] == name;
    }
  }

  lemma AuthoredStands(path: string)
    ensures AuthoredPath(path) <==> exists name :: Component(name) && name != "." && name != ".." && UnderAuthors(path, name)
  {
    if dir :| dir in AUTHORED_DIRS && AuthoredIn(dir, path) {
      var name := NameIn(dir, path).value;
      assert path == dir + "/" + name;
      assert "scripts" + "/" == "scripts/" && "references" + "/" == "references/" && "assets" + "/" == "assets/";
    }
    if name :| Component(name) && name != "." && name != ".." && UnderAuthors(path, name) {
      var dir := if path == "scripts/" + name then "scripts" else if path == "references/" + name then "references" else "assets";
      assert path == dir + "/" + name;
      PathParts(dir, name);
      assert AuthoredIn(dir, path);
    }
  }

  /** The allowlist, path by path. */
  lemma AllowedPaths(path: string)
    ensures TreePathAllowed(path) <==> StandsWell(path)
  {
    hide LegacyStep, AuthoredPath;
    OldStepStands(path);
    AuthoredStands(path);
  }

  // ---- building the tree of a version ---------------------------------------------------------

  const GITATTRIBUTES := "README.md linguist-generated=true\n"

  const GENERATED_FILES: set<string> := {"README.md", "list.json", ".gitattributes"}

  function GeneratedFile(v: VersionData, name: string): Node
    requires name in GENERATED_FILES
  {
    Leaf(Regular, if name == "list.json" then Printed(ListJson(v))
                  else if name == "README.md" then Written(Render(v))
                  else Written(GITATTRIBUTES))
  }

  function VersionFiles(v: VersionData): Tree {
    map name | name in GENERATED_FILES :: GeneratedFile(v, name)
  }

  /** Where the author's directories of a new commit come from. */
  datatype Source = Carry | Replace(files: seq<AuthoredInput>)

  function NodeOf(f: AuthoredInput): Node {
    Leaf(if f.executable then Executable else Regular, f.content)
  }

  /** The files of the set that go into `dir`, by name. */
  function FilesIn(files: seq<AuthoredInput>, dir: string): map<string, Node> {
    if files == [] then map[]
    else
      var front, last := FilesIn(files[..|files| - 1], dir), files[|files| - 1];
      match NameIn(dir, last.path)
      case None => front
      case Some(name) => front[name := NodeOf(last)]
  }

  function PlacedDirs(files: seq<AuthoredInput>): Tree {
    map dir | dir in AUTHORED_DIRS && FilesIn(files, dir) != map[] :: Dir(FilesIn(files, dir))
  }

  predicate HasDir(root: Tree, dir: string) {
    dir in root && root[dir].Dir?
  }

  function CarriedDirs(parent: Tree): Tree {
    map dir | dir in AUTHORED_DIRS && HasDir(parent, dir) :: parent[dir]
  }

  function BuildTree(v: VersionData, parent: Option<Tree>, source: Source): Tree {
    match source
    case Replace(files) => VersionFiles(v) + PlacedDirs(files)
    case Carry => VersionFiles(v) + (if parent.Some? then CarriedDirs(parent.value) else map[])
  }

  const AUTHORED_DIR_LIST: seq<string> := ["scripts", "references", "assets"]

  lemma DirList()
    ensures forall dir :: dir in AUTHORED_DIRS <==> dir in AUTHORED_DIR_LIST
    ensures AUTHORED_DIRS !! GENERATED_FILES
    ensures "list.json" in GENERATED_FILES && "README.md" in GENERATED_FILES
  {
    var a := AUTHORED_DIR_LIST;
    assert a[0] == "scripts" && a[1] == "references" && a[2] == "assets";
  }

  function FirstDirs(n: nat): set<string>
    requires n <= 3
  {
    set i | 0 <= i < n :: AUTHORED_DIR_LIST[i]
  }

  /** The directories among the first `n` taken from a source. */
  function TakenDirs(from: Tree, n: nat): Tree
    requires n <= 3
  {
    map dir | dir in FirstDirs(n) && dir in from :: from[dir]
  }

  lemma TakenNext(from: Tree, n: nat)
    requires n < 3
    ensures TakenDirs(from, n + 1)
         == if AUTHORED_DIR_LIST[n] in from then TakenDirs(from, n)[AUTHORED_DIR_LIST[n] := from[AUTHORED_DIR_LIST[n]]]
            else TakenDirs(from, n)
  {
    assert FirstDirs(n + 1) == FirstDirs(n) + {AUTHORED_DIR_LIST[n]};
  }

  lemma TakenAll(from: Tree)
    requires from.Keys <= AUTHORED_DIRS
    ensures TakenDirs(from, 3) == from
  {
    DirList();
    forall dir | dir in from ensures dir in FirstDirs(3) {
      var i :| 0 <= i < 3 && AUTHORED_DIR_LIST[i] == dir;
    }
  }

  lemma FilesInNext(files: seq<AuthoredInput>, dir: string, k: nat)
    requires k < |files|
    ensures FilesIn(files[..k + 1], dir)
         == match NameIn(dir, files[k].path)
            case None => FilesIn(files[..k], dir)
            case Some(name) => FilesIn(files[..k], dir)[name := NodeOf(files[k])]
  {
    assert files[..k + 1][..k] == files[..k];
  }

  /** Collects the files of one directory. */
  method CollectFiles(files: seq<AuthoredInput>, dir: string) returns (entries: map<string, Node>)
    ensures entries == FilesIn(files, dir)
  {
    hide FilesIn, NameIn;
    entries := map[];
    assert files[..0] == [] && FilesIn([], dir) == map[] by { FilesInNone(dir); }
    for k := 0 to |files|
      invariant entries == FilesIn(files[..k], dir)
    {
      FilesInNext(files, dir, k);
      var name := NameIn(dir, files[k].path);
      if name.Some? {
        entries := entries[name.value := NodeOf(files[k])];
      }
    }
    assert files[..|files|] == files;
  }

  lemma FilesInNone(dir: string)
    ensures FilesIn([], dir) == map[]
  {
  }

  /** Puts the directories built from a set of files into a tree. */
  method PlaceDirs(base: Tree, files: seq<AuthoredInput>) returns (root: Tree)
    ensures root == base + PlacedDirs(files)
  {
    hide FilesIn, TakenDirs;
    root := base;
    ghost var placed := PlacedDirs(files);
    assert TakenDirs(placed, 0) == map[] by { TakenNone(placed); }
    for i := 0 to 3
      invariant root == base + TakenDirs(placed, i)
    {
      TakenNext(placed, i);
      var dir := AUTHORED_DIR_LIST[i];
      DirList();
      assert dir in AUTHORED_DIRS;
      var entries := CollectFiles(files, dir);
      if entries != map[] {
        root := root[dir := Dir(entries)];
      }
    }
    TakenAll(placed);
  }

  /** Carries the directories of the parent over, each as the same object. */
  method CarryDirs(base: Tree, parent: Tree) returns (root: Tree)
    ensures root == base + CarriedDirs(parent)
  {
    hide TakenDirs;
    root := base;
    ghost var carried := CarriedDirs(parent);
    assert TakenDirs(carried, 0) == map[] by { TakenNone(carried); }
    for i := 0 to 3
      invariant root == base + TakenDirs(carried, i)
    {
      TakenNext(carried, i);
      var dir := AUTHORED_DIR_LIST[i];
      DirList();
      assert dir in AUTHORED_DIRS;
      if HasDir(parent, dir) {
        root := root[dir := parent[dir]];
      }
    }
    TakenAll(carried);
  }

  lemma TakenNone(from: Tree)
    ensures TakenDirs(from, 0) == map[]
  {
  }

  /** Writes the tree of a version. */
  method WriteTree(v: VersionData, parent: Option<Tree>, source: Source) returns (root: Tree)
    ensures root == BuildTree(v, parent, source)
  {
    hide VersionFiles, PlacedDirs, CarriedDirs;
    root := VersionFiles(v);
    if source.Replace? {
      root := PlaceDirs(root, source.files);
    } else if parent.Some? {
      root := CarryDirs(root, parent.value);
    }
  }

  // ---- putting a ready canon into a tree ------------------------------------------------------

  function PageFor(canon: Blob): Option<string> {
    match JsonOf(canon)
    case None => None
    case Some(json) => ReadmeFromCanon(json)
  }

  /** The tree with a new canon: the page follows it when it parses, the old `steps` go. */
  function WithCanon(root: Tree, canon: Blob): Tree {
    var edited := root["list.json" := Leaf(Regular, canon)];
    var paged := if PageFor(canon).Some? then edited["README.md" := Leaf(Regular, Written(PageFor(canon).value))] else edited;
    paged[".gitattributes" := Leaf(Regular, Written(GITATTRIBUTES))] - {"steps"}
  }

  /** The page of a tree is the page of its canon. */
  predicate PageMatchesCanon(root: Tree) {
    && "list.json" in root && root["list.json"].Leaf?
    && PageFor(root["list.json"].blob).Some?
    && "README.md" in root
    && root["README.md"] == Leaf(Regular, Written(PageFor(root["list.json"].blob).value))
  }

  // ---- reading the author's files back --------------------------------------------------------

  function FileAt(s: Slot, node: Node): AuthoredInput
    requires PlainFile(node)
  {
    AuthoredInput(PathOf(s), node.blob, node.mode == Executable)
  }

  function FilesOf(files: map<Slot, Node>): set<AuthoredInput> {
    set s | s in files && PlainFile(files[s]) :: FileAt(s, files[s])
  }

  /** The author's files of a tree. */
  function AuthoredFiles(root: Tree): set<AuthoredInput> {
    FilesOf(Authored(root))
  }
}

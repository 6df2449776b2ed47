/** Commits as values: a commit is its parents, tree, time and message, and that value is its id. */
module Commits {
  import opened Wrappers
  import opened Canon
  import opened Readme
  import opened Tree

  datatype Commit = Commit(parents: seq<Commit>, tree: Tree, time: int, author: string, message: string)

  /** Ancestor or the same commit. */
  predicate IsAncestor(a: Commit, c: Commit) {
    a == c || exists i :: 0 <= i < |c.parents| && IsAncestor(a, c.parents[i])
  }

  lemma {:induction false} AncestorTransitive(a: Commit, b: Commit, c: Commit)
    requires IsAncestor(a, b) && IsAncestor(b, c)
    ensures IsAncestor(a, c)
    decreases c
  {
    if b != c {
      var i :| 0 <= i < |c.parents| && IsAncestor(b, c.parents[i]);
      AncestorTransitive(a, b, c.parents[i]);
    }
  }

  lemma ParentIsAncestor(c: Commit, i: nat)
    requires i < |c.parents|
    ensures IsAncestor(c.parents[i], c)
  {
  }

  function FirstParent(c: Commit): Option<Commit> {
    if c.parents == [] then None else Some(c.parents[0])
  }

  const AUTHOR_NAME := "SetFork"

  /** The message of a version: its number, and the note when it says something. */
  function CommitMessage(v: VersionData): string {
    if v.note != "" && v.note != "initial" && v.note != "edit" && v.note != "seeded"
    then "v" + DecInt(v.version) + ": " + v.note + "\n"
    else "v" + DecInt(v.version) + "\n"
  }

  function TreeOf(c: Option<Commit>): Option<Tree> {
    match c
    case None => None
    case Some(commit) => Some(commit.tree)
  }

  /** One commit of one version. */
  function CommitOf(v: VersionData, parent: Option<Commit>, source: Source): Commit {
    Commit(if parent.Some? then [parent.value] else [], BuildTree(v, TreeOf(parent), source), v.ts, AUTHOR_NAME, CommitMessage(v))
  }
}

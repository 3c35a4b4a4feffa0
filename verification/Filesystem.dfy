/** The directory that holds the destination, the staged bundle and the retired
    bundle, and the system calls the export makes on it.

    An object is known by its identity, the (device, inode) pair of the running
    system, here a natural number below `next`; an identity is never handed out
    twice. What lies below a directory is a value, because the protocol moves
    whole directories and never looks inside one beyond asking whether it is
    empty. */
module Filesystem {

  type ObjectId = nat
  type Name = string

  datatype Tree = Leaf(bytes: seq<int>, mode: nat) | Branch(below: map<Name, Tree>)
  type Contents = map<Name, Tree>

  datatype Node = Directory(contents: Contents) | Regular | Symlink

  datatype Fs = Fs(links: map<Name, ObjectId>, nodes: map<ObjectId, Node>, next: ObjectId) {

    /** Every name leads to an object, every object was handed out, and a
        directory has one name. */
    ghost predicate Wf() {
      && (forall n <- links :: links[n] in nodes)
      && (forall id <- nodes :: id < next)
      && (forall m, n | m in links && n in links && m != n && links[m] == links[n] :: !nodes[links[m]].Directory?)
    }

    predicate IsDir(n: Name) {
      n in links && links[n] in nodes && nodes[links[n]].Directory?
    }

    predicate IsEmptyDir(n: Name) {
      IsDir(n) && nodes[links[n]].contents == map[]
    }

    /** `n` is the directory `id`, holding exactly `contents`. */
    ghost predicate Holds(n: Name, id: ObjectId, contents: Contents) {
      n in links && links[n] == id && id in nodes && nodes[id] == Directory(contents)
    }
  }

  /** What a call answers: the new file system, and whether it succeeded. */
  datatype Answer = Answer(fs: Fs, ok: bool)

  /** rename(2). Two names of one object: nothing happens. A directory replaces
      nothing or an empty directory; anything else replaces nothing or another
      non-directory. */
  function Rename(fs: Fs, from: Name, to: Name): Answer {
    if from !in fs.links || fs.links[from] !in fs.nodes then
      Answer(fs, false)
    else if to !in fs.links then
      Answer(fs.(links := (fs.links - {from})[to := fs.links[from]]), true)
    else if fs.links[to] == fs.links[from] then
      Answer(fs, true)
    else if fs.IsDir(from) then
      if fs.IsEmptyDir(to) then
        Answer(fs.(links := (fs.links - {from})[to := fs.links[from]], nodes := fs.nodes - {fs.links[to]}), true)
      else
        Answer(fs, false)
    else if fs.IsDir(to) then
      Answer(fs, false)
    else
      Answer(fs.(links := (fs.links - {from})[to := fs.links[from]]), true)
  }

  /** rmdir(2): refuses anything but an empty directory. */
  function RemoveDir(fs: Fs, n: Name): Answer {
    if fs.IsEmptyDir(n) then
      Answer(fs.(links := fs.links - {n}, nodes := fs.nodes - {fs.links[n]}), true)
    else
      Answer(fs, false)
  }

  /** mkdir(2): a new, empty directory with an identity nothing had before. */
  function CreateDir(fs: Fs, n: Name): Answer {
    if n in fs.links then
      Answer(fs, false)
    else
      Answer(fs.(links := fs.links[n := fs.next], nodes := fs.nodes[fs.next := Directory(map[])], next := fs.next + 1), true)
  }

  /** The recursive delete. It works entry by entry, so a failing one (or a
      crash inside one) leaves the directory holding whatever was `left`. */
  function RemoveDirAll(fs: Fs, n: Name, fails: bool, left: Contents): Answer {
    if !fs.IsDir(n) then
      Answer(fs, false)
    else if fails then
      Answer(fs.(nodes := fs.nodes[fs.links[n] := Directory(left)]), false)
    else
      Answer(fs.(links := fs.links - {n}, nodes := fs.nodes - {fs.links[n]}), true)
  }

  /** A call that fails for a reason of its own (permissions, I/O) changes nothing. */
  function Attempt(fs: Fs, fails: bool, done: Answer): Answer {
    if fails then Answer(fs, false) else done
  }

  /** Fill the directory `n` with `contents`. */
  function Write(fs: Fs, n: Name, contents: Contents): Fs {
    if fs.IsDir(n) then fs.(nodes := fs.nodes[fs.links[n] := Directory(contents)]) else fs
  }

  ghost predicate Named(fs: Fs, id: ObjectId) {
    exists n :: n in fs.links && fs.links[n] == id
  }

  /** The object is gone, or what it holds is another thing. */
  ghost predicate Changed(before: Fs, after: Fs, id: ObjectId)
    requires id in before.nodes
  {
    id !in after.nodes || after.nodes[id] != before.nodes[id]
  }

  /** Objects of `before` that are gone, changed, or without the last name they had. */
  ghost function Touched(before: Fs, after: Fs): set<ObjectId> {
    set id | id in before.nodes && (Changed(before, after, id) || (Named(before, id) && !Named(after, id)))
  }

  /** Non-empty directories of `before` that are gone, or hold anything else. */
  ghost function Destroyed(before: Fs, after: Fs): set<ObjectId> {
    set id | id in before.nodes && before.nodes[id].Directory? && before.nodes[id].contents != map[] && Changed(before, after, id)
  }
}

/** The trees an export reads while others may be changing them. Time passes with
    every system call, and the world may be another one at each. A handle is the
    identity of the object it is open on, so it cannot be redirected. */
module LiveTree {
  import opened Options
  import opened Filesystem

  type Time = nat

  type Path = seq<Name>

  datatype Object =
    | File(bytes: seq<int>, mode: nat, links: nat)
    | Folder(entries: map<Name, ObjectId>)
    | Link
    | Special

  type World = map<ObjectId, Object>

  /** The names a directory's iterator gives, and whether it then breaks. */
  datatype Listing = Listing(names: seq<Name>, breaks: bool)

  /** What the system answers: the world at each time, what listing a directory
      gives (names may come and go meanwhile), and which calls fail for a reason
      of their own. */
  datatype Live = Live(at: Time -> World, lists: (Time, ObjectId) -> Option<Listing>, fails: Time -> bool)

  datatype Found = Found(id: ObjectId, what: Object)

  /** What wears `name` in the directory `dir`. */
  function Lookup(w: World, dir: ObjectId, name: Name): Option<Found> {
    if dir in w && w[dir].Folder? && name in w[dir].entries && w[dir].entries[name] in w then
      Some(Found(w[dir].entries[name], w[w[dir].entries[name]]))
    else None
  }

  /** lstat(2) below a handle. */
  function Lstat(live: Live, t: Time, dir: ObjectId, name: Name): Option<Found> {
    if live.fails(t) then None else Lookup(live.at(t), dir, name)
  }

  /** Open a directory below a handle, never through a link; it takes one of the
      `spare` descriptors. */
  function OpenDir(live: Live, t: Time, dir: ObjectId, name: Name, spare: nat): Option<ObjectId> {
    match Lookup(live.at(t), dir, name)
    case Some(Found(id, Folder(_))) => if live.fails(t) || spare == 0 then None else Some(id)
    case _ => None
  }

  /** Open for reading below a handle, never through a link. */
  function OpenFile(live: Live, t: Time, dir: ObjectId, name: Name, spare: nat): Option<ObjectId> {
    match Lookup(live.at(t), dir, name)
    case Some(Found(id, what)) => if what.Link? || live.fails(t) || spare == 0 then None else Some(id)
    case None => None
  }

  /** fstat(2) on a handle. */
  function Fstat(live: Live, t: Time, handle: ObjectId): Option<Object> {
    if live.fails(t) || handle !in live.at(t) then None else Some(live.at(t)[handle])
  }

  /** What a file handle reads. */
  function Read(live: Live, t: Time, handle: ObjectId): Option<seq<int>> {
    match Fstat(live, t, handle)
    case Some(File(bytes, _, _)) => Some(bytes)
    case _ => None
  }
}

/**
 * The filesystem as the scan sees it, in two views.
 *
 * The tree view (`Node`, `Entry`) is what `read_dir`, `DirEntry::file_type`
 * and `fs::metadata` report about directory contents. A symbolic link holds
 * the node it points to, so an acyclic tree of links is unfolded in place.
 *
 * The disk view (`Disk`) is what `fs::metadata(path)` and `File::open(path)`
 * report about one regular file: its modification time and its bytes.
 */
module FileSystem {
  import opened Wrappers
  import opened Types

  datatype Node =
    | File
    | Dir(readable: bool, entries: seq<Entry>)
    | Symlink(target: Node)
    | DanglingSymlink
    | Special

  /**
   * One item yielded by iterating a `ReadDir`: either an `Err` item
   * (`BrokenEntry`) or a `DirEntry`. The two ways of looking up its type
   * fail independently: `DirEntry::file_type` (`typeOk`) may answer from
   * the listing itself, while `fs::metadata` on its path (`metaOk`) needs
   * search permission on the directory, so a readable but unsearchable
   * directory lists entries whose metadata cannot be read.
   */
  datatype Entry =
    | Entry(name: string, node: Node, typeOk: bool, metaOk: bool)
    | BrokenEntry

  datatype IoError = NotFound | PermissionDenied | NotADirectory

  function NodeSize(n: Node): nat
  {
    match n
    case Dir(_, es) => 1 + EntriesSize(es)
    case Symlink(t) => 1 + NodeSize(t)
    case _ => 1
  }

  function EntriesSize(es: seq<Entry>): (r: nat)
    ensures forall i :: 0 <= i < |es| ==> EntrySize(es[i]) <= r
  {
    if es == [] then 0 else EntrySize(es[0]) + EntriesSize(es[1..])
  }

  function EntrySize(e: Entry): nat
  {
    match e
    case Entry(_, n, _, _) => 1 + NodeSize(n)
    case BrokenEntry => 1
  }

  /** The node a path names once every symbolic link on it has been followed. */
  function Resolve(n: Node): (r: Node)
    ensures !r.Symlink?
    ensures NodeSize(r) <= NodeSize(n)
    ensures !n.Symlink? ==> r == n
  {
    match n
    case Symlink(t) => Resolve(t)
    case _ => n
  }

  /** `std::fs::read_dir`: it follows links and fails on anything but a readable directory. */
  function ReadDir(n: Node): (r: Result<seq<Entry>, IoError>)
    ensures r.Success? <==> Resolve(n).Dir? && Resolve(n).readable
    ensures r.Success? ==> r.value == Resolve(n).entries
    ensures r.Success? ==> EntriesSize(r.value) < NodeSize(n)
  {
    match n
    case Dir(readable, es) => if readable then Success(es) else Failure(PermissionDenied)
    case Symlink(t) => ReadDir(t)
    case DanglingSymlink => Failure(NotFound)
    case _ => Failure(NotADirectory)
  }

  /** The entries of a node the walker can list, and none otherwise. */
  function Listing(n: Node): (es: seq<Entry>)
    ensures EntriesSize(es) < NodeSize(n)
  {
    match ReadDir(n)
    case Success(es) => es
    case Failure(_) => []
  }

  /** No two `DirEntry`s of one listing share a name. */
  predicate UniqueNames(es: seq<Entry>)
  {
    forall i, j :: 0 <= i < j < |es| && es[i].Entry? && es[j].Entry? ==> es[i].name != es[j].name
  }

  /** A filesystem as the operating system maintains it: names are unique within every directory. */
  predicate WellFormed(n: Node)
    decreases NodeSize(n)
  {
    match n
    case Dir(_, es) =>
      && UniqueNames(es)
      && forall i :: 0 <= i < |es| && es[i].Entry? ==> WellFormed(es[i].node)
    case Symlink(t) => WellFormed(t)
    case _ => true
  }

  /** A tree without symbolic links, where following links and not following them agree. */
  predicate NoLinks(n: Node)
    decreases NodeSize(n)
  {
    match n
    case Dir(_, es) => forall i :: 0 <= i < |es| && es[i].Entry? ==> NoLinks(es[i].node)
    case Symlink(_) => false
    case DanglingSymlink => false
    case _ => true
  }

  /** Every `DirEntry` below `n` answers both type lookups alike: both succeed or both fail. */
  predicate LookupsAgree(n: Node)
    decreases NodeSize(n)
  {
    match n
    case Dir(_, es) =>
      forall i :: 0 <= i < |es| && es[i].Entry? ==> es[i].typeOk == es[i].metaOk && LookupsAgree(es[i].node)
    case Symlink(t) => LookupsAgree(t)
    case _ => true
  }

  /** The listing of a node whose lookups agree holds entries whose lookups agree. */
  lemma {:induction false} LookupsAgreeListing(n: Node)
    requires LookupsAgree(n)
    ensures forall i :: 0 <= i < |Listing(n)| && Listing(n)[i].Entry? ==>
      Listing(n)[i].typeOk == Listing(n)[i].metaOk && LookupsAgree(Listing(n)[i].node)
    decreases NodeSize(n)
  {
    if n.Symlink? {
      LookupsAgreeListing(n.target);
      assert Listing(n) == Listing(n.target);
    }
  }

  lemma WellFormedResolve(n: Node)
    requires WellFormed(n)
    ensures WellFormed(Resolve(n))
  {
  }

  /** The listing of a well-formed directory has unique names and well-formed children. */
  lemma WellFormedListing(n: Node)
    requires WellFormed(n)
    ensures var es := Listing(n);
      && UniqueNames(es)
      && forall i :: 0 <= i < |es| && es[i].Entry? ==> WellFormed(es[i].node)
  {
    WellFormedResolve(n);
  }

  /** The listing of a directory without links holds no links. */
  lemma NoLinksListing(n: Node)
    requires NoLinks(n)
    ensures forall i :: 0 <= i < |Listing(n)| && Listing(n)[i].Entry? ==> NoLinks(Listing(n)[i].node)
  {
  }

  /**
   * What the disk reports about one regular file. `faultAt`, when present, is
   * the position of the first I/O call on this file that fails, counting the
   * `File::open` as call 0 and every later `metadata`, `stream_position`,
   * `read_exact` and `read_to_end` on the handle in the order they are made.
   */
  datatype FileInfo = FileInfo(mtime: SystemTime, content: seq<byte>, faultAt: Option<nat>)

  /** `fs::metadata(path)` and `File::open(path)`: a path missing from the map fails both. */
  type Disk = map<Path, FileInfo>
}

/** The records of the directory cache (src/dir_cache.h) and the parts of the
    scanner's item records that the cache reads and fills in. */
module CacheTypes {
  import opened Common

  /** The item flags the cache reads or sets (bits of `struct dir.flags`). */
  datatype Flag =
    | FDir      // directory
    | FFile     // regular file
    | FErr      // error while reading
    | FExl      // excluded by pattern
    | FOthFs    // excluded: other file system
    | FKernFs   // excluded: kernel pseudo file system
    | FFrmLnk   // excluded: firmlink
    | FHlnkC    // counted as a hard link
    | FExt      // has an extended-information record

  /** Which fields of the extended record are present (`struct dir_ext.flags`). */
  datatype ExtFlag = EMtime | EUid | EGid | EMode

  /** `struct cache_child`: one directory item's metadata. During parsing a
      directory item also carries its nested items; every copy the registry
      keeps has `children == []`. A name is absent when the cache file gave
      none (NULL in the source). */
  datatype Child = Child(
    name: Option<string>,
    flags: set<Flag>,
    size: i64,
    asize: i64,
    ino: u64,
    dev: u64,
    mtime: u64,
    uid: u32,
    gid: u32,
    nlink: u32,
    mode: u16,
    children: seq<Child>)

  /** The fields of `struct dir` that the cache reads in store and fills in
      during replay. */
  datatype DirInfo = DirInfo(
    flags: set<Flag>,
    size: i64,
    asize: i64,
    ino: u64,
    dev: u64,
    items: int)

  /** `struct dir_ext`. */
  datatype ExtInfo = ExtInfo(
    flags: set<ExtFlag>,
    mtime: u64,
    uid: u32,
    gid: u32,
    mode: u16)

  /** The value held by one `struct cache_entry`. */
  datatype EntryVal = EntryVal(
    path: string,
    mtime: u64,
    dev: u64,
    ino: u64,
    size: i64,
    asize: i64,
    items: int,
    used: bool,
    children: seq<Child>)

  /** A zeroed `struct cache_child` with the given flags (memset + flags). */
  function BlankChild(flags: set<Flag>): (c: Child)
    ensures c.flags == flags && c.name == None && c.children == []
    ensures c.size == 0 && c.asize == 0 && c.ino == 0 && c.dev == 0 && c.mtime == 0
    ensures c.uid == 0 && c.gid == 0 && c.nlink == 0 && c.mode == 0
  {
    Child(None, flags, 0, 0, 0, 0, 0, 0, 0, 0, 0, [])
  }

  /** The field-for-field copy the registry keeps of an item: everything but
      the nested items. */
  function ShallowCopy(c: Child): (r: Child)
    ensures r.children == []
    ensures r.name == c.name && r.flags == c.flags && r.size == c.size && r.asize == c.asize
    ensures r.ino == c.ino && r.dev == c.dev && r.mtime == c.mtime
    ensures r.uid == c.uid && r.gid == c.gid && r.nlink == c.nlink && r.mode == c.mode
  {
    c.(children := [])
  }

  /** The copy loop of store and of load: every item copied shallowly, in order. */
  function ShallowCopies(cs: seq<Child>): (r: seq<Child>)
    ensures |r| == |cs|
    ensures forall i | 0 <= i < |cs| :: r[i] == ShallowCopy(cs[i])
  {
    if cs == [] then [] else [ShallowCopy(cs[0])] + ShallowCopies(cs[1..])
  }

  /** The full path of a directory item below `parent`: a `/` is put between
      them unless the parent is empty or already ends in `/`. */
  function JoinPath(parent: string, name: string): (r: string)
    ensures |r| >= |parent| + |name|
    ensures r[..|parent|] == parent && r[|r| - |name|..] == name
    ensures |parent| > 0 && parent[|parent| - 1] != '/' ==> r == parent + "/" + name
    ensures (|parent| == 0 || parent[|parent| - 1] == '/') ==> r == parent + name
  {
    if |parent| > 0 && parent[|parent| - 1] != '/' then parent + "/" + name else parent + name
  }
}

/** The registry of src/dir_cache.c seen as a value: the hash table from a
    directory's full path to the entry stored for it. The operations of the
    Registry module are proved to change this view as the functions here
    say, and the lemmas here state what those changes mean. */
module RegistrySpec {
  import opened Common
  import opened CacheTypes

  /** `cache_table`: path to entry, with None for the NULL table. */
  type Table = map<string, EntryVal>

  /** Every entry is stored under its own path. */
  predicate Keyed(t: Table) {
    forall k | k in t :: t[k].path == k
  }

  /** The validation triple of dir_cache_lookup. */
  predicate Matches(e: EntryVal, mtime: u64, dev: u64, ino: u64) {
    e.mtime == mtime && e.dev == dev && e.ino == ino
  }

  /** dir_cache_lookup finds an entry: there is a table, a path, an entry
      stored for it, and its triple matches. */
  predicate Hits(t: Option<Table>, path: Option<string>, mtime: u64, dev: u64, ino: u64) {
    t.Some? && path.Some? && path.value in t.value && Matches(t.value[path.value], mtime, dev, ino)
  }

  /** The table after the entries stored for `keys` are marked used. */
  function MarkUsed(t: Table, keys: set<string>): (r: Table)
    ensures r.Keys == t.Keys
  {
    map k | k in t :: if k in keys then t[k].(used := true) else t[k]
  }

  /** Marking changes the used flag of the marked entries only, and sets
      it. */
  lemma MarkUsedAt(t: Table, keys: set<string>, k: string)
    requires k in t
    ensures MarkUsed(t, keys)[k] == if k in keys then t[k].(used := true) else t[k]
    ensures MarkUsed(t, keys)[k].used == (k in keys || t[k].used)
  {
  }

  /** Marking one entry used is a store of that entry with its flag set. */
  lemma MarkOne(t: Table, p: string)
    requires p in t
    ensures MarkUsed(t, {p}) == t[p := t[p].(used := true)]
  {
  }

  /** Each stored entry's items: all that replay reads of the table. */
  function ItemsOf(t: Table): (r: map<string, seq<Child>>)
    ensures r.Keys == t.Keys
  {
    map k | k in t :: t[k].children
  }

  /** Marking leaves every entry's items as they were. */
  lemma ItemsMarked(t: Table, keys: set<string>)
    ensures ItemsOf(MarkUsed(t, keys)) == ItemsOf(t)
  {
  }

  /** The table after dir_cache_lookup. */
  function AfterLookup(t: Option<Table>, path: Option<string>, mtime: u64, dev: u64, ino: u64): Option<Table> {
    if Hits(t, path, mtime, dev, ino) then Some(MarkUsed(t.value, {path.value})) else t
  }

  /** The mtime store records: the extended record's, when it has one. */
  function ExtMtime(ext: Option<ExtInfo>): u64 {
    if ext.Some? && EMtime in ext.value.flags then ext.value.mtime else 0
  }

  /** The entry dir_cache_store makes: marked used, its items copied
      shallowly. */
  function StoredEntry(path: string, d: DirInfo, ext: Option<ExtInfo>, children: seq<Child>): EntryVal {
    EntryVal(path, ExtMtime(ext), d.dev, d.ino, d.size, d.asize, d.items, true, ShallowCopies(children))
  }

  /** The table after dir_cache_store: nothing without a table, a path or a
      directory; otherwise the new entry replaces whatever was stored. */
  function AfterStore(t: Option<Table>, path: Option<string>, d: Option<DirInfo>,
                      ext: Option<ExtInfo>, children: seq<Child>): Option<Table> {
    if t.None? || path.None? || d.None? then t
    else Some(t.value[path.value := StoredEntry(path.value, d.value, ext, children)])
  }

  /** The entry build_cache_entries makes for a directory item read from
      the cache file: not used yet, its item count is its number of nested
      items, which are copied shallowly. */
  function LoadedEntry(path: string, c: Child): EntryVal {
    EntryVal(path, c.mtime, c.dev, c.ino, c.size, c.asize, |c.children|, false, ShallowCopies(c.children))
  }

  /** A directory item with a name: the only items build_cache_entries
      stores. */
  predicate IsDirNamed(c: Child) {
    c.name.Some? && FDir in c.flags
  }

  /** The table after build_cache_entries(c, parent): a directory item is
      stored under its full path unless that path is already taken. */
  function AfterBuild(t: Table, parent: string, c: Child): Table {
    if !IsDirNamed(c) then t
    else
      var p := JoinPath(parent, c.name.value);
      if p in t then t else t[p := LoadedEntry(p, c)]
  }

  /** The table after the top-level items of a cache file, in order, each
      with the empty parent path that dir_cache_load passes. */
  function AfterLoad(t: Table, items: seq<Child>): Table
    decreases |items|
  {
    if items == [] then t else AfterLoad(AfterBuild(t, "", items[0]), items[1..])
  }

  /** The saved entries: the table's entries in the order the hash table is
      walked, used ones only. */
  function Selected(t: Table, order: seq<string>): seq<EntryVal>
    requires forall i | 0 <= i < |order| :: order[i] in t
  {
    if order == [] then []
    else (if t[order[0]].used then [t[order[0]]] else []) + Selected(t, order[1..])
  }

  /** The order of a walk over the whole table: every key once. */
  predicate Enumerates(t: Table, order: seq<string>) {
    && (forall i | 0 <= i < |order| :: order[i] in t)
    && (forall k | k in t :: k in order)
    && (forall i, j | 0 <= i < j < |order| :: order[i] != order[j])
  }

  /** One more top-level item: the table after it is built. */
  lemma {:induction false} LoadAppend(t: Table, items: seq<Child>, c: Child)
    ensures AfterLoad(t, items + [c]) == AfterBuild(AfterLoad(t, items), "", c)
    decreases |items|
  {
    if items == [] {
      assert [c][1..] == [];
    } else {
      assert (items + [c])[1..] == items[1..] + [c];
      LoadAppend(AfterBuild(t, "", items[0]), items[1..], c);
    }
  }

  /** One more slot of the walk. */
  lemma {:induction false} SelectedAppend(t: Table, order: seq<string>, k: string)
    requires forall i | 0 <= i < |order| :: order[i] in t
    requires k in t
    ensures Selected(t, order + [k]) == Selected(t, order) + (if t[k].used then [t[k]] else [])
    decreases |order|
  {
    var last := if t[k].used then [t[k]] else [];
    if order == [] {
      assert [k][1..] == [];
      assert Selected(t, [k]) == last + Selected(t, []);
    } else {
      var head := if t[order[0]].used then [t[order[0]]] else [];
      assert (order + [k])[0] == order[0] && (order + [k])[1..] == order[1..] + [k];
      assert Selected(t, order + [k]) == head + Selected(t, order[1..] + [k]);
      SelectedAppend(t, order[1..], k);
      assert Selected(t, order) == head + Selected(t, order[1..]);
      assert head + (Selected(t, order[1..]) + last) == head + Selected(t, order[1..]) + last;
    }
  }

  /** Marking used twice marks the union. */
  lemma MarkUsedTwice(t: Table, a: set<string>, b: set<string>)
    ensures MarkUsed(MarkUsed(t, a), b) == MarkUsed(t, a + b)
  {
  }

  // ---------------------------------------------------------------------
  // Properties

  /** Lookup is strict: it finds an entry exactly when all three of mtime,
      dev and ino equal the stored ones, and then only that entry's used
      flag changes. */
  lemma LookupStrict(t: Table, path: string, mtime: u64, dev: u64, ino: u64)
    requires path in t
    ensures Hits(Some(t), Some(path), mtime, dev, ino)
        <==> t[path].mtime == mtime && t[path].dev == dev && t[path].ino == ino
    ensures var r := AfterLookup(Some(t), Some(path), mtime, dev, ino).value;
      r.Keys == t.Keys
      && (forall k | k in t && k != path :: r[k] == t[k])
      && r[path] == (if Hits(Some(t), Some(path), mtime, dev, ino) then t[path].(used := true) else t[path])
  {
  }

  /** A directory just stored is found again by the triple it was stored
      with, and by no other; the entry found is the new one. */
  lemma LookupAfterStore(t: Table, path: string, d: DirInfo, ext: Option<ExtInfo>, children: seq<Child>,
                         mtime: u64, dev: u64, ino: u64)
    ensures var s := AfterStore(Some(t), Some(path), Some(d), ext, children);
      && (Hits(s, Some(path), mtime, dev, ino) <==> mtime == ExtMtime(ext) && dev == d.dev && ino == d.ino)
      && s.value[path] == StoredEntry(path, d, ext, children)
      && s.value[path].used
      && (forall k | k in t && k != path :: s.value[k] == t[k])
  {
  }

  /** Storing keeps every entry under its own path. */
  lemma StoreKeyed(t: Table, path: Option<string>, d: Option<DirInfo>, ext: Option<ExtInfo>, children: seq<Child>)
    requires Keyed(t)
    ensures var s := AfterStore(Some(t), path, d, ext, children); s.Some? && Keyed(s.value)
  {
  }

  /** An item of a directory named k. */
  predicate Names(c: Child, k: string) {
    IsDirNamed(c) && c.name.value == k
  }

  /** The first item seen for a path wins: an entry already in the table is
      kept, and a path that is new gets the entry of the first directory
      item that names it. */
  lemma FirstSeenWins(t: Table, items: seq<Child>, k: string)
    ensures k in t ==> k in AfterLoad(t, items) && AfterLoad(t, items)[k] == t[k]
    ensures forall i | 0 <= i < |items| && k !in t && Names(items[i], k)
                       && (forall j | 0 <= j < i :: !Names(items[j], k)) ::
              k in AfterLoad(t, items) && AfterLoad(t, items)[k] == LoadedEntry(k, items[i])
    ensures k in AfterLoad(t, items) <==> k in t || exists i | 0 <= i < |items| :: Names(items[i], k)
  {
    LoadKeepsEntry(t, items, k);
    forall i | 0 <= i < |items| && k !in t && Names(items[i], k) && (forall j | 0 <= j < i :: !Names(items[j], k))
      ensures k in AfterLoad(t, items) && AfterLoad(t, items)[k] == LoadedEntry(k, items[i])
    {
      LoadFirstItem(t, items, k, i);
    }
    LoadDomain(t, items, k);
  }

  lemma {:induction false} LoadKeepsEntry(t: Table, items: seq<Child>, k: string)
    ensures k in t ==> k in AfterLoad(t, items) && AfterLoad(t, items)[k] == t[k]
    decreases |items|
  {
    if items != [] {
      LoadKeepsEntry(AfterBuild(t, "", items[0]), items[1..], k);
    }
  }

  lemma {:induction false} LoadFirstItem(t: Table, items: seq<Child>, k: string, i: nat)
    requires i < |items| && k !in t && Names(items[i], k)
    requires forall j | 0 <= j < i :: !Names(items[j], k)
    ensures k in AfterLoad(t, items) && AfterLoad(t, items)[k] == LoadedEntry(k, items[i])
    decreases i
  {
    var t' := AfterBuild(t, "", items[0]);
    if i == 0 {
      assert JoinPath("", k) == k;
      LoadKeepsEntry(t', items[1..], k);
    } else {
      assert !Names(items[0], k);
      assert items[1..][i - 1] == items[i];
      assert forall j | 0 <= j < i - 1 :: items[1..][j] == items[j + 1];
      LoadFirstItem(t', items[1..], k, i - 1);
    }
  }

  lemma {:induction false} LoadDomain(t: Table, items: seq<Child>, k: string)
    ensures k in AfterLoad(t, items) <==> k in t || exists i | 0 <= i < |items| :: Names(items[i], k)
    decreases |items|
  {
    if items != [] {
      var t' := AfterBuild(t, "", items[0]);
      LoadDomain(t', items[1..], k);
      if IsDirNamed(items[0]) {
        assert JoinPath("", items[0].name.value) == items[0].name.value;
      }
      if exists i | 0 <= i < |items[1..]| :: Names(items[1..][i], k) {
        var i :| 0 <= i < |items[1..]| && Names(items[1..][i], k);
        assert Names(items[i + 1], k);
      }
      if exists i | 0 <= i < |items| :: Names(items[i], k) {
        var i :| 0 <= i < |items| && Names(items[i], k);
        if i > 0 {
          assert Names(items[1..][i - 1], k);
        }
      }
    }
  }

  /** Loading keeps every entry under its own path. */
  lemma {:induction false} LoadKeyed(t: Table, items: seq<Child>)
    requires Keyed(t)
    ensures Keyed(AfterLoad(t, items))
    decreases |items|
  {
    if items != [] {
      LoadKeyed(AfterBuild(t, "", items[0]), items[1..]);
    }
  }

  /** Save persists exactly the used entries: every entry it selects is used
      and stored under its path, and every used entry is selected once. */
  lemma {:induction false} SelectedAreUsed(t: Table, order: seq<string>)
    requires Keyed(t)
    requires forall i | 0 <= i < |order| :: order[i] in t
    requires forall i, j | 0 <= i < j < |order| :: order[i] != order[j]
    ensures forall e | e in Selected(t, order) :: e.used && e.path in order && t[e.path] == e
    ensures forall k | k in order && t[k].used :: t[k] in Selected(t, order)
    ensures forall i, j | 0 <= i < j < |Selected(t, order)| :: Selected(t, order)[i].path != Selected(t, order)[j].path
    decreases |order|
  {
    if order != [] {
      var rest := order[1..];
      SelectedAreUsed(t, rest);
      var head := if t[order[0]].used then [t[order[0]]] else [];
      assert Selected(t, order) == head + Selected(t, rest);
      forall e | e in Selected(t, rest)
        ensures e.path != order[0]
      {
        assert e.path in rest;
      }
    }
  }

  /** With an order that walks the whole table, the saved entries are the
      used entries of the table. */
  lemma SaveSelectsUsed(t: Table, order: seq<string>)
    requires Keyed(t) && Enumerates(t, order)
    ensures forall e | e in Selected(t, order) :: e.used && e.path in t && t[e.path] == e
    ensures forall k | k in t && t[k].used :: t[k] in Selected(t, order)
  {
    SelectedAreUsed(t, order);
  }
}

/** The cache registry of src/dir_cache.c: the module's static state (the
    cache file name, the hash table from path to entry, and the lock), the
    trace replay hands to the scanner, and the public operations over them.
    Each operation is proved to change the table as the RegistrySpec and
    ReplaySpec functions say. */
module Registry {
  import opened Common
  import opened CacheTypes
  import JsonSpec
  import opened JsonParser
  import opened Writer
  import opened CacheLock
  import opened RegistrySpec
  import opened ReplaySpec

  /** What fopen gives dir_cache_load: no file (ENOENT), another error, or
      the file's text. */
  datatype CacheFile = Missing | Unreadable | Contents(text: string)

  /** The table after marking: nothing to mark without a table. */
  function Marked(v: Option<Table>, keys: set<string>): (r: Option<Table>)
    ensures r.Some? == v.Some?
    ensures v.Some? ==> r.value.Keys == v.value.Keys
    ensures v.Some? ==> forall k | k in v.value ::
      r.value[k].used == (k in keys || v.value[k].used) && r.value[k].(used := v.value[k].used) == v.value[k]
  {
    if v.None? then v else Some(MarkUsed(v.value, keys))
  }

  /** The loop of dir_cache_load after the header: -1 on a syntax error. */
  function LoadOutcome(text: string): int {
    if JsonSpec.ParseCacheFile(text).ok then 0 else -1
  }

  /** What dir_cache_load returns once it holds the lock: a missing file is
      0 and any other open error -1; else the parse decides. */
  function FileReturn(f: CacheFile): int {
    match f
    case Missing => 0
    case Unreadable => -1
    case Contents(text) => LoadOutcome(text)
  }

  /** The items dir_cache_load inserts once it holds the lock: those read
      before the end or the first error. */
  function FileItems(f: CacheFile): seq<Child> {
    if f.Contents? then JsonSpec.ParseCacheFile(f.text).items else []
  }

  /** Every path leads to an entry on the list made for that path (so no
      two paths share an entry). */
  predicate IndexOk(index: Option<map<string, nat>>, entries: seq<EntryVal>) {
    index.Some? ==> forall k | k in index.value ::
      index.value[k] < |entries| && entries[index.value[k]].path == k
  }

  /** The table such an index and list stand for. */
  function TableOf(index: Option<map<string, nat>>, entries: seq<EntryVal>): (v: Option<Table>)
    requires IndexOk(index, entries)
    ensures v.Some? == index.Some? && (v.Some? ==> v.value.Keys == index.value.Keys && Keyed(v.value))
  {
    if index.None? then None else Some(map k | k in index.value :: entries[index.value[k]])
  }

  /** The lock trace of an operation that takes the lock and always gives it
      back: the acquisition, then a release if it succeeded. */
  function LockedRun(st: LockState, m: Mode, timeout: int, w: World): Step {
    var a := AcquireSpec(st, m, timeout, w);
    if a.run.outcome == Acquired then
      var r := ReleaseSpec(a.st);
      Step(Run(Acquired, a.run.ops + r.run.ops), r.st)
    else a
  }

  class Cache {
    var cacheFile: Option<string>
    /** `cache_table`: for each path, the entry stored for it, as its place
        in `entryList`; none before init and after destroy. */
    var index: Option<map<string, nat>>
    /** `entry_list`: every entry made and not yet freed, including those a
        store has since replaced in the table; oldest first. */
    var entryList: seq<EntryVal>
    const lock: LockManager
    /** The calls of `dir_output.item` made by replay, in order. */
    var events: seq<Event>

    /** A table exists exactly when a cache file is set, and it leads each
        path to an entry on the list made for that path. */
    ghost predicate Valid()
      reads this`cacheFile, this`index, this`entryList
    {
      (cacheFile.Some? <==> index.Some?) && IndexOk(index, entryList)
    }

    /** The table as a value: the entry each path leads to. */
    ghost function View(): (v: Option<Table>)
      requires Valid()
      reads this`cacheFile, this`index, this`entryList
    {
      TableOf(index, entryList)
    }

    /** What replay reads from the table: each entry's items. */
    ghost function Shape(): ReplaySpec.Shape
      requires Valid()
      reads this`cacheFile, this`index, this`entryList
    {
      if index.None? then map[] else ItemsOf(View().value)
    }

    /** The module's initial state: no file, no table, no entries. */
    constructor ()
      ensures Valid() && cacheFile == None && index == None && entryList == [] && events == []
      ensures fresh(lock) && lock.State() == LockState(None, -1, Shared, false) && lock.ops == []
    {
      cacheFile := None;
      index := None;
      entryList := [];
      lock := new LockManager();
      events := [];
    }

    /** dir_cache_init: a new file name and an empty table; the entries made
        so far stay on the list. */
    method Init(fn: string)
      requires Valid()
      modifies this`cacheFile, this`index, lock
      ensures Valid() && cacheFile == Some(fn) && View() == Some(map[]) && entryList == old(entryList)
      ensures var s := InitSpec(old(lock.State()), Some(fn));
        lock.State() == s.st && lock.ops == old(lock.ops) + s.run.ops
    {
      cacheFile := Some(fn);
      index := Some(map[]);
      var _ := lock.Init(Some(fn));
    }

    /** Set the used flag of the entry at place i of the list. */
    method SetUsed(i: nat, used: bool)
      requires Valid() && i < |entryList|
      modifies this`entryList
      ensures Valid() && entryList == old(entryList)[i := old(entryList)[i].(used := used)]
    {
      entryList := entryList[i := entryList[i].(used := used)];
    }

    /** Mark the entry stored under p used; its items stay as they are. */
    method Touch(p: string)
      requires Valid() && index.Some? && p in index.value
      modifies this`entryList
      ensures Valid() && View() == Marked(old(View()), {p}) && Shape() == old(Shape())
      ensures |entryList| == |old(entryList)|
    {
      ghost var t := View().value;
      SetUsed(index.value[p], true);
      assert View().value == t[p := t[p].(used := true)] by {
        forall k | k in index.value
          ensures View().value[k] == t[p := t[p].(used := true)][k]
        {
          if k != p {
            assert index.value[k] != index.value[p];
          }
        }
      }
      MarkOne(t, p);
      ItemsMarked(t, {p});
    }

    /** dir_cache_lookup: the entry stored for the path when its triple
        matches, which is then marked used; the entry is handed out as its
        place on the list. */
    method Lookup(path: Option<string>, mtime: u64, dev: u64, ino: u64) returns (e: Option<nat>)
      requires Valid()
      modifies this`entryList
      ensures Valid() && View() == AfterLookup(old(View()), path, mtime, dev, ino)
      ensures e.Some? <==> Hits(old(View()), path, mtime, dev, ino)
      ensures e.Some? ==> e.value < |entryList| && entryList[e.value] == View().value[path.value]
    {
      if index.None? || path.None? || path.value !in index.value {
        return None;
      }
      var i := index.value[path.value];
      var entry := entryList[i];
      if entry.mtime != mtime || entry.dev != dev || entry.ino != ino {
        return None;
      }
      Touch(path.value);
      e := Some(i);
    }

    /** Put entry e at the end of the list and make path p lead to it. */
    method Insert(p: string, e: EntryVal)
      requires Valid() && index.Some? && e.path == p
      modifies this`index, this`entryList
      ensures Valid() && View() == Some(old(View()).value[p := e])
      ensures entryList == old(entryList) + [e]
    {
      ghost var t := View().value;
      entryList := entryList + [e];
      index := Some(index.value[p := |entryList| - 1]);
      assert View().value == t[p := e] by {
        forall k | k in index.value
          ensures View().value[k] == t[p := e][k]
        {
          if k != p {
            assert entryList[index.value[k]] == old(entryList)[index.value[k]];
          }
        }
      }
    }

    /** dir_cache_store: a new entry, marked used, replaces whatever was
        stored for the path; the replaced one is marked unused but stays on
        the list. */
    method Store(path: Option<string>, d: Option<DirInfo>, ext: Option<ExtInfo>, children: seq<Child>)
      requires Valid()
      modifies this`index, this`entryList
      ensures Valid() && View() == AfterStore(old(View()), path, d, ext, children)
      ensures old(index).None? || path.None? || d.None? ==> entryList == old(entryList)
      ensures old(index).Some? && path.Some? && d.Some? ==>
        && |entryList| == |old(entryList)| + 1
        && (path.value in old(index).value ==> !entryList[old(index).value[path.value]].used)
        && entryList[|old(entryList)|] == StoredEntry(path.value, d.value, ext, children)
        && (path.value in old(index).value ==>
              var i := old(index).value[path.value];
              entryList == old(entryList)[i := old(entryList)[i].(used := false)]
                           + [StoredEntry(path.value, d.value, ext, children)])
        && (path.value !in old(index).value ==>
              entryList == old(entryList) + [StoredEntry(path.value, d.value, ext, children)])
    {
      if index.None? || path.None? || d.None? {
        return;
      }
      var p := path.value;
      ghost var t := View().value;
      if p in index.value {
        var old_i := index.value[p];
        SetUsed(old_i, false);
        assert View().value == t[p := t[p].(used := false)] by {
          forall k | k in index.value
            ensures View().value[k] == t[p := t[p].(used := false)][k]
          {
            if k != p {
              assert index.value[k] != old_i;
            }
          }
        }
      }
      ghost var mid := View().value;
      var e := StoredEntry(p, d.value, ext, children);
      Insert(p, e);
      assert mid[p := e] == t[p := e];
    }

    /** build_cache_entries(item, parent): a directory item read from the
        file is stored under its full path unless that path is taken. */
    method BuildCacheEntries(item: Child, parent: string)
      requires Valid() && index.Some?
      modifies this`index, this`entryList
      ensures Valid() && View() == Some(AfterBuild(old(View()).value, parent, item))
    {
      if item.name.None? {
        return;
      }
      var p := JoinPath(parent, item.name.value);
      if FDir !in item.flags || p in index.value {
        return;
      }
      Insert(p, LoadedEntry(p, item));
    }

    /** dir_cache_load: under a shared lock taken with a 5 second timeout,
        the items of the cache file are inserted in order until the end or
        the first error. */
    method Load(w: World, f: CacheFile) returns (r: int)
      requires Valid()
      requires cacheFile.Some? ==> AcquireSpec(lock.State(), Shared, 5, w).run.outcome != Pending
      modifies this`index, this`entryList, lock
      ensures Valid() && cacheFile == old(cacheFile)
      ensures old(cacheFile).None? ==> r == -1 && View() == old(View())
      ensures var locked := AcquireSpec(old(lock.State()), Shared, 5, w).run.outcome == Acquired;
        old(cacheFile).Some? ==>
          if locked then r == FileReturn(f) && View() == Some(AfterLoad(old(View()).value, FileItems(f)))
          else r == 0 && View() == old(View())
      ensures old(cacheFile).None? ==> lock.State() == old(lock.State()) && lock.ops == old(lock.ops)
      ensures old(cacheFile).Some? ==> var s := LockedRun(old(lock.State()), Shared, 5, w);
        lock.State() == s.st && lock.ops == old(lock.ops) + s.run.ops
    {
      if cacheFile.None? {
        return -1;
      }
      var got := lock.Acquire(Shared, 5, w);
      if got != Acquired {
        return 0;
      }
      r := LoadFile(f);
    }

    /** dir_cache_load once the lock is held: the file is read, then the
        lock given back. */
    method LoadFile(f: CacheFile) returns (r: int)
      requires Valid() && index.Some?
      modifies this`index, this`entryList, lock
      ensures Valid() && index.Some?
      ensures r == FileReturn(f)
      ensures View() == Some(AfterLoad(old(View()).value, FileItems(f)))
      ensures var s := ReleaseSpec(old(lock.State()));
        lock.State() == s.st && lock.ops == old(lock.ops) + s.run.ops
    {
      if f.Missing? || f.Unreadable? {
        lock.Release();
        return if f.Missing? then 0 else -1;
      }
      r := LoadText(f.text);
      lock.Release();
    }

    /** The parse of dir_cache_load over the file's text. */
    method LoadText(text: string) returns (r: int)
      requires Valid() && index.Some?
      modifies this`index, this`entryList
      ensures Valid() && index.Some?
      ensures r == LoadOutcome(text)
      ensures View() == Some(AfterLoad(old(View()).value, JsonSpec.ParseCacheFile(text).items))
    {
      var p := new Parser(text);
      var ok := p.Header();
      if !ok {
        return -1;
      }
      ghost var whole := JsonSpec.ParseCacheFile(text);
      ghost var items: seq<Child> := [];
      while true
        invariant Valid() && index.Some?
        invariant fresh(p) && p.s == text && whole == JsonSpec.TopItems(text, p.Cur(), items)
        invariant View() == Some(AfterLoad(old(View()).value, items))
        decreases JsonSpec.Left(text, p.Cur())
      {
        var ok, more, item := p.TopPass(items);
        if !more {
          return if ok then 0 else -1;
        }
        BuildCacheEntries(item, "");
        LoadAppend(old(View()).value, items, item);
        items := items + [item];
      }
    }

    /** dir_cache_save: under an exclusive lock taken with a 10 second
        timeout, the header, every used entry in the order the table is
        walked, and the closing `]`. The new text replaces the cache file
        only when every file step succeeds; it is the returned value. */
    method Save(w: World, order: seq<string>, progname: string, progver: string, now: u64, fileOk: bool)
      returns (written: Option<string>)
      requires Valid()
      requires index.Some? ==> Enumerates(View().value, order)
      requires index.Some? ==> UsedNamed(View().value)
      requires cacheFile.Some? ==> AcquireSpec(lock.State(), Exclusive, 10, w).run.outcome != Pending
      modifies lock
      ensures cacheFile.None? ==> written == None && lock.State() == old(lock.State()) && lock.ops == old(lock.ops)
      ensures cacheFile.Some? ==> var s := LockedRun(old(lock.State()), Exclusive, 10, w);
        lock.State() == s.st && lock.ops == old(lock.ops) + s.run.ops
        && (written.Some? <==> s.run.outcome == Acquired && fileOk)
        && (written.Some? ==> written.value == SavedText(View().value, order, HeaderText(progname, progver, now)))
    {
      if cacheFile.None? || index.None? {
        return None;
      }
      var got := lock.Acquire(Exclusive, 10, w);
      if got != Acquired {
        return None;
      }
      var sel := WrittenEntries(order);
      lock.Release();
      SelectedNamed(View().value, order);
      written := if fileOk then Some(SaveText(HeaderText(progname, progver, now), sel)) else None;
    }

    /** The loop of dir_cache_save over the table: the entries it writes,
        in the order of the walk, skipping those not used. */
    method WrittenEntries(order: seq<string>) returns (sel: seq<EntryVal>)
      requires Valid() && index.Some?
      requires forall i | 0 <= i < |order| :: order[i] in index.value
      ensures sel == Selected(View().value, order)
    {
      ghost var t := View().value;
      sel := [];
      var i := 0;
      while i < |order|
        invariant i <= |order|
        invariant sel == Selected(t, order[..i])
      {
        var e := entryList[index.value[order[i]]];
        assert e == t[order[i]];
        assert order[..i + 1] == order[..i] + [order[i]];
        SelectedAppend(t, order[..i], order[i]);
        if e.used {
          sel := sel + [e];
        }
        i := i + 1;
      }
      assert order[..i] == order;
    }

    /** dir_cache_destroy: the lock is cleaned up, every entry on the list
        is freed, and the table and the file name are gone. */
    method Destroy()
      modifies this`cacheFile, this`index, this`entryList, lock
      ensures Valid() && cacheFile == None && index == None && entryList == []
      ensures var s := CleanupSpec(old(lock.State()));
        lock.State() == s.st && lock.ops == old(lock.ops) + s.run.ops
    {
      lock.Cleanup();
      index := None;
      entryList := [];
      cacheFile := None;
    }

    /** dir_cache_replay_recursive(parent, c): the item; for a directory,
        the entry stored under its full path is marked used and its items
        replayed below it, then the directory is closed. The ghost sh is
        what the table holds for replay, which replay does not change. */
    method ReplayRecursive(parent: string, c: Child, ghost sh: ReplaySpec.Shape)
      requires Valid() && Shape() == sh && WellNamed(sh) && Replayable(c)
      modifies this`events, this`entryList
      ensures Valid() && Shape() == sh && |entryList| == |old(entryList)|
      ensures events == old(events) + ReplayChild(sh, parent, c)
      ensures View() == Marked(old(View()), Visited(sh, parent, c))
      decreases |Longer(sh, parent)|, 1, 0
    {
      if FDir !in c.flags {
        VisitedStored(sh, parent, c);
        events := events + [ItemEvent(c)];
        MarkedNothing(View());
      } else {
        ReplayDirChild(parent, c, sh);
      }
    }

    /** A directory item: the item, then what is below its full path. */
    method ReplayDirChild(parent: string, c: Child, ghost sh: ReplaySpec.Shape)
      requires Valid() && Shape() == sh && WellNamed(sh) && Replayable(c) && FDir in c.flags
      modifies this`events, this`entryList
      ensures Valid() && Shape() == sh && |entryList| == |old(entryList)|
      ensures events == old(events) + ReplayChild(sh, parent, c)
      ensures View() == Marked(old(View()), Visited(sh, parent, c))
      decreases |Longer(sh, parent)|, 0, 2
    {
      ghost var e0 := events;
      events := events + [ItemEvent(c)];
      var p := JoinPath(parent, c.name.value);
      JoinLonger(sh, parent, c.name.value);
      ReplayDir(sh, parent, c);
      ReplayBelow(p, sh);
      SeqAssoc(e0, [ItemEvent(c)], SubTree(sh, p), [Close]);
    }

    /** Below a directory's full path: the entry stored there, if any,
        marked used and its items replayed; then the close. */
    method ReplayBelow(p: string, ghost sh: ReplaySpec.Shape)
      requires Valid() && Shape() == sh && WellNamed(sh)
      modifies this`events, this`entryList
      ensures Valid() && Shape() == sh && |entryList| == |old(entryList)|
      ensures events == old(events) + SubTree(sh, p) + [Close]
      ensures View() == Marked(old(View()), VisitedTree(sh, p))
      decreases if p in sh then |Longer(sh, p)| + 1 else 0, 0, 0
    {
      ghost var v0 := View();
      if index.Some? && p in index.value {
        var sub := entryList[index.value[p]];
        assert sh[p] == sub.children;
        Touch(p);
        ReplayItems(p, sub.children, sh);
        MarkedTwice(v0, {p}, VisitedList(sh, p, sub.children));
        assert VisitedTree(sh, p) == {p} + VisitedList(sh, p, sub.children);
      } else {
        MarkedNothing(v0);
      }
      events := events + [Close];
    }

    /** The loop over an entry's items, replayed below its path p: the loop
        of dir_cache_replay_recursive over a sub-entry, and all of
        dir_cache_replay. */
    method ReplayItems(p: string, cs: seq<Child>, ghost sh: ReplaySpec.Shape)
      requires Valid() && Shape() == sh && WellNamed(sh) && AllReplayable(cs)
      modifies this`events, this`entryList
      ensures Valid() && Shape() == sh && |entryList| == |old(entryList)|
      ensures events == old(events) + ReplayList(sh, p, cs)
      ensures View() == Marked(old(View()), VisitedList(sh, p, cs))
      decreases |Longer(sh, p)|, 2, 0
    {
      MarkedNothing(old(View()));
      var i := 0;
      while i < |cs|
        invariant i <= |cs|
        invariant Valid() && Shape() == sh && |entryList| == |old(entryList)|
        invariant events == old(events) + ReplayList(sh, p, cs[..i])
        invariant View() == Marked(old(View()), VisitedList(sh, p, cs[..i]))
      {
        ReplayNext(p, cs, i, old(events), old(View()), sh);
        i := i + 1;
      }
      assert cs[..i] == cs;
    }

    /** One turn of that loop: the item at index i, replayed below p. */
    method ReplayNext(p: string, cs: seq<Child>, i: nat, ghost e0: seq<Event>, ghost v0: Option<Table>,
                      ghost sh: ReplaySpec.Shape)
      requires Valid() && Shape() == sh && WellNamed(sh) && AllReplayable(cs) && i < |cs|
      requires events == e0 + ReplayList(sh, p, cs[..i])
      requires View() == Marked(v0, VisitedList(sh, p, cs[..i]))
      modifies this`events, this`entryList
      ensures Valid() && Shape() == sh && |entryList| == |old(entryList)|
      ensures events == e0 + ReplayList(sh, p, cs[..i + 1])
      ensures View() == Marked(v0, VisitedList(sh, p, cs[..i + 1]))
      decreases |Longer(sh, p)|, 1, 1
    {
      ghost var e1, v1 := events, View();
      ReplayRecursive(p, cs[i], sh);
      NextStep(sh, p, cs, i, e0, e1, events, v0, v1, View());
    }

    /** dir_cache_replay: the items of the entry a lookup handed out,
        replayed under its path, with no close of its own; nothing for a
        NULL entry. */
    method Replay(e: Option<nat>)
      requires Valid() && WellNamed(Shape())
      requires e.Some? ==> e.value < |entryList| && AllReplayable(entryList[e.value].children)
      modifies this`events, this`entryList
      ensures Valid() && Shape() == old(Shape()) && |entryList| == |old(entryList)|
      ensures e.None? ==> events == old(events) && entryList == old(entryList)
      ensures e.Some? ==> var en := old(entryList)[e.value];
        events == old(events) + ReplayList(Shape(), en.path, en.children)
        && View() == Marked(old(View()), VisitedList(Shape(), en.path, en.children))
    {
      if e.Some? {
        var en := entryList[e.value];
        ReplayItems(en.path, en.children, Shape());
      }
    }
  }

  /** One turn of the replay loop, on values: the trace and the marks of
      the items before i, then those of item i. */
  lemma NextStep(sh: ReplaySpec.Shape, p: string, cs: seq<Child>, i: nat,
                 e0: seq<Event>, e1: seq<Event>, e2: seq<Event>, v0: Option<Table>, v1: Option<Table>, v2: Option<Table>)
    requires WellNamed(sh) && AllReplayable(cs) && i < |cs|
    requires e1 == e0 + ReplayList(sh, p, cs[..i]) && e2 == e1 + ReplayChild(sh, p, cs[i])
    requires v1 == Marked(v0, VisitedList(sh, p, cs[..i])) && v2 == Marked(v1, Visited(sh, p, cs[i]))
    ensures e2 == e0 + ReplayList(sh, p, cs[..i + 1])
    ensures v2 == Marked(v0, VisitedList(sh, p, cs[..i + 1]))
  {
    ListStep(sh, p, cs, i);
    MarkedTwice(v0, VisitedList(sh, p, cs[..i]), Visited(sh, p, cs[i]));
  }

  lemma SeqAssoc(a: seq<Event>, b: seq<Event>, c: seq<Event>, d: seq<Event>)
    ensures a + b + c + d == a + (b + c + d)
  {
  }

  lemma MarkedNothing(v: Option<Table>)
    ensures Marked(v, {}) == v
  {
    if v.Some? {
      assert MarkUsed(v.value, {}) == v.value;
    }
  }

  lemma MarkedTwice(v: Option<Table>, a: set<string>, b: set<string>)
    ensures Marked(Marked(v, a), b) == Marked(v, a + b)
  {
    if v.Some? {
      MarkUsedTwice(v.value, a, b);
    }
  }

  /** Every used entry's items are named: what the writer needs. */
  predicate UsedNamed(t: Table) {
    forall k | k in t && t[k].used :: AllNamed(t[k].children)
  }

  lemma {:induction false} SelectedNamed(t: Table, order: seq<string>)
    requires UsedNamed(t) && forall i | 0 <= i < |order| :: order[i] in t
    ensures EntriesNamed(Selected(t, order))
    decreases |order|
  {
    if order != [] {
      SelectedNamed(t, order[1..]);
      var head := if t[order[0]].used then [t[order[0]]] else [];
      assert Selected(t, order) == head + Selected(t, order[1..]);
    }
  }

  /** The text dir_cache_save writes: the header, the used entries in the
      order of the walk, each after `,\n`, and the closing `]`. */
  function SavedText(t: Table, order: seq<string>, header: string): string
    requires UsedNamed(t) && forall i | 0 <= i < |order| :: order[i] in t
  {
    SelectedNamed(t, order);
    SaveText(header, Selected(t, order))
  }
}

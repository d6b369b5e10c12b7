/** What dir_cache_replay and dir_cache_replay_recursive (src/dir_cache.c)
    hand to the scanner's output callback, as a trace of events, and which
    stored entries they mark used. */
module ReplaySpec {
  import opened Common
  import opened CacheTypes

  /** One call of dir_output.item: an item, or the all-NULL call that
      closes the directory opened last. */
  datatype Event = Item(d: DirInfo, name: string, ext: ExtInfo, nlink: u32) | Close

  /** The stored items of every entry, by path: all replay reads of the
      table. */
  type Shape = map<string, seq<Child>>

  /** An item whose fields go to the extended record. */
  predicate HasExt(c: Child) {
    c.mtime != 0 || c.uid != 0 || c.gid != 0 || c.mode != 0
  }

  /** The `struct dir` replay fills in: sizes, ids and flags, FF_EXT added
      when the extended record carries a field, no item count. */
  function ItemDir(c: Child): (d: DirInfo)
    ensures d.size == c.size && d.asize == c.asize && d.ino == c.ino && d.dev == c.dev && d.items == 0
    ensures d.flags - {FExt} == c.flags - {FExt}
    ensures FExt in d.flags <==> FExt in c.flags || HasExt(c)
  {
    DirInfo(if HasExt(c) then c.flags + {FExt} else c.flags, c.size, c.asize, c.ino, c.dev, 0)
  }

  /** The `struct dir_ext` replay fills in: a field's flag is set exactly
      when the field is non-zero. */
  function ItemExt(c: Child): (e: ExtInfo)
    ensures e.mtime == c.mtime && e.uid == c.uid && e.gid == c.gid && e.mode == c.mode
    ensures EMtime in e.flags <==> c.mtime != 0
    ensures EUid in e.flags <==> c.uid != 0
    ensures EGid in e.flags <==> c.gid != 0
    ensures EMode in e.flags <==> c.mode != 0
  {
    ExtInfo((if c.mtime != 0 then {EMtime} else {}) + (if c.uid != 0 then {EUid} else {})
              + (if c.gid != 0 then {EGid} else {}) + (if c.mode != 0 then {EMode} else {}),
            c.mtime, c.uid, c.gid, c.mode)
  }

  /** Replay needs names: the source passes them on and joins directory
      names to the path, and an empty directory name under a path ending
      in `/` would join to the same path again. */
  predicate Replayable(c: Child) {
    c.name.Some? && (FDir in c.flags ==> c.name.value != [])
  }

  predicate AllReplayable(cs: seq<Child>) {
    forall i | 0 <= i < |cs| :: Replayable(cs[i])
  }

  predicate WellNamed(sh: Shape) {
    forall k | k in sh :: AllReplayable(sh[k])
  }

  /** The stored paths longer than p: replay only ever descends into one of
      them, so their number bounds the depth of the recursion. */
  function Longer(sh: Shape, p: string): set<string> {
    set k | k in sh && |k| > |p|
  }

  lemma {:induction false} SubsetCard(a: set<string>, b: set<string>)
    requires a <= b
    ensures |a| <= |b|
    decreases |a|
  {
    if a != {} {
      var x :| x in a;
      SubsetCard(a - {x}, b - {x});
    }
  }

  lemma LongerShrinks(sh: Shape, parent: string, p: string)
    requires p in sh && |p| > |parent|
    ensures |Longer(sh, p)| < |Longer(sh, parent)|
  {
    var below := Longer(sh, parent) - {p};
    assert p in Longer(sh, parent) && |below| == |Longer(sh, parent)| - 1;
    SubsetCard(Longer(sh, p), below);
  }

  /** The event of dir_output.item for a stored item. */
  function ItemEvent(c: Child): Event
    requires c.name.Some?
  {
    Item(ItemDir(c), c.name.value, ItemExt(c), c.nlink)
  }

  /** dir_cache_replay_recursive(parent, c): the item; then, for a
      directory, what is stored under its full path and a close. */
  function ReplayChild(sh: Shape, parent: string, c: Child): seq<Event>
    requires WellNamed(sh) && Replayable(c)
    decreases |Longer(sh, parent)|, 1, 0
  {
    if FDir !in c.flags then [ItemEvent(c)]
    else
      var p := JoinPath(parent, c.name.value);
      JoinLonger(sh, parent, c.name.value);
      [ItemEvent(c)] + SubTree(sh, p) + [Close]
  }

  /** The items of the entry stored under p, none when there is none. */
  function SubTree(sh: Shape, p: string): seq<Event>
    requires WellNamed(sh)
    decreases if p in sh then |Longer(sh, p)| + 1 else 0, 0, 0
  {
    if p in sh then ReplayList(sh, p, sh[p]) else []
  }

  /** The loop over a stored entry's items, in order. */
  function ReplayList(sh: Shape, parent: string, cs: seq<Child>): seq<Event>
    requires WellNamed(sh) && AllReplayable(cs)
    decreases |Longer(sh, parent)|, 2, |cs|
  {
    if cs == [] then []
    else ReplayList(sh, parent, cs[..|cs| - 1]) + ReplayChild(sh, parent, cs[|cs| - 1])
  }

  /** A joined path is longer than its parent, so the entries below it are
      fewer. */
  lemma JoinLonger(sh: Shape, parent: string, name: string)
    requires name != []
    ensures |Longer(sh, JoinPath(parent, name))| + 1 <= |Longer(sh, parent)|
        || JoinPath(parent, name) !in sh
  {
    var p := JoinPath(parent, name);
    if p in sh {
      LongerShrinks(sh, parent, p);
    }
  }

  /** The paths whose entries replay marks used below c. */
  function Visited(sh: Shape, parent: string, c: Child): set<string>
    requires WellNamed(sh) && Replayable(c)
    decreases |Longer(sh, parent)|, 1, 0
  {
    if FDir !in c.flags then {}
    else
      JoinLonger(sh, parent, c.name.value);
      VisitedTree(sh, JoinPath(parent, c.name.value))
  }

  function VisitedTree(sh: Shape, p: string): set<string>
    requires WellNamed(sh)
    decreases if p in sh then |Longer(sh, p)| + 1 else 0, 0, 0
  {
    if p in sh then {p} + VisitedList(sh, p, sh[p]) else {}
  }

  function VisitedList(sh: Shape, parent: string, cs: seq<Child>): set<string>
    requires WellNamed(sh) && AllReplayable(cs)
    decreases |Longer(sh, parent)|, 2, |cs|
  {
    if cs == [] then {}
    else VisitedList(sh, parent, cs[..|cs| - 1]) + Visited(sh, parent, cs[|cs| - 1])
  }

  /** One more item of a list: its replay follows the replay of the items
      before it, and so do the entries it marks. */
  lemma ListStep(sh: Shape, parent: string, cs: seq<Child>, i: nat)
    requires WellNamed(sh) && AllReplayable(cs) && i < |cs|
    ensures ReplayList(sh, parent, cs[..i + 1]) == ReplayList(sh, parent, cs[..i]) + ReplayChild(sh, parent, cs[i])
    ensures VisitedList(sh, parent, cs[..i + 1]) == VisitedList(sh, parent, cs[..i]) + Visited(sh, parent, cs[i])
  {
    assert cs[..i + 1][..i] == cs[..i];
  }

  /** A directory's replay: the item, what is stored under its full path,
      a close. */
  lemma ReplayDir(sh: Shape, parent: string, c: Child)
    requires WellNamed(sh) && Replayable(c) && FDir in c.flags
    ensures var p := JoinPath(parent, c.name.value);
      && ReplayChild(sh, parent, c) == [ItemEvent(c)] + SubTree(sh, p) + [Close]
      && Visited(sh, parent, c) == VisitedTree(sh, p)
  {
  }

  /** Number of directory items opened and of closes in a trace. */
  function Opens(ev: seq<Event>): nat {
    if ev == [] then 0
    else Opens(ev[..|ev| - 1]) + (if ev[|ev| - 1].Item? && FDir in ev[|ev| - 1].d.flags then 1 else 0)
  }

  function Closes(ev: seq<Event>): nat {
    if ev == [] then 0 else Closes(ev[..|ev| - 1]) + (if ev[|ev| - 1].Close? then 1 else 0)
  }

  lemma {:induction false} CountsAppend(a: seq<Event>, b: seq<Event>)
    ensures Opens(a + b) == Opens(a) + Opens(b) && Closes(a + b) == Closes(a) + Closes(b)
    decreases |b|
  {
    if b == [] {
      assert a + b == a;
    } else {
      var b' := b[..|b| - 1];
      assert (a + b)[..|a + b| - 1] == a + b';
      CountsAppend(a, b');
    }
  }

  lemma CountsOne(e: Event)
    ensures Opens([e]) == (if e.Item? && FDir in e.d.flags then 1 else 0)
    ensures Closes([e]) == (if e.Close? then 1 else 0)
  {
    assert [e][..0] == [];
  }

  /** Every directory replay opens is closed once, and nothing else is
      closed: so dir_cache_replay, whose own loop emits no close, leaves
      the caller's directory open for the caller to close. */
  lemma {:induction false} ChildBalanced(sh: Shape, parent: string, c: Child)
    requires WellNamed(sh) && Replayable(c)
    ensures Opens(ReplayChild(sh, parent, c)) == Closes(ReplayChild(sh, parent, c))
    decreases |Longer(sh, parent)|, 1, 0
  {
    CountsOne(ItemEvent(c));
    if FDir in c.flags {
      var p := JoinPath(parent, c.name.value);
      JoinLonger(sh, parent, c.name.value);
      TreeBalanced(sh, p);
      CountsOne(Close);
      CountsAppend(SubTree(sh, p), [Close]);
      CountsAppend([ItemEvent(c)], SubTree(sh, p) + [Close]);
      assert [ItemEvent(c)] + SubTree(sh, p) + [Close] == [ItemEvent(c)] + (SubTree(sh, p) + [Close]);
    }
  }

  lemma {:induction false} TreeBalanced(sh: Shape, p: string)
    requires WellNamed(sh)
    ensures Opens(SubTree(sh, p)) == Closes(SubTree(sh, p))
    decreases if p in sh then |Longer(sh, p)| + 1 else 0, 0, 0
  {
    if p in sh {
      ListBalanced(sh, p, sh[p]);
    }
  }

  lemma {:induction false} ListBalanced(sh: Shape, parent: string, cs: seq<Child>)
    requires WellNamed(sh) && AllReplayable(cs)
    ensures Opens(ReplayList(sh, parent, cs)) == Closes(ReplayList(sh, parent, cs))
    decreases |Longer(sh, parent)|, 2, |cs|
  {
    if cs != [] {
      ListBalanced(sh, parent, cs[..|cs| - 1]);
      ChildBalanced(sh, parent, cs[|cs| - 1]);
      CountsAppend(ReplayList(sh, parent, cs[..|cs| - 1]), ReplayChild(sh, parent, cs[|cs| - 1]));
    }
  }

  /** Replay only marks entries that are stored, and reaches them through
      directories only: a file item is one event and touches nothing. */
  lemma {:induction false} VisitedStored(sh: Shape, parent: string, c: Child)
    requires WellNamed(sh) && Replayable(c)
    ensures Visited(sh, parent, c) <= sh.Keys
    ensures FDir !in c.flags ==> Visited(sh, parent, c) == {} && ReplayChild(sh, parent, c) == [ItemEvent(c)]
    decreases |Longer(sh, parent)|, 1, 0
  {
    if FDir in c.flags {
      JoinLonger(sh, parent, c.name.value);
      VisitedTreeStored(sh, JoinPath(parent, c.name.value));
    }
  }

  lemma {:induction false} VisitedTreeStored(sh: Shape, p: string)
    requires WellNamed(sh)
    ensures VisitedTree(sh, p) <= sh.Keys
    decreases if p in sh then |Longer(sh, p)| + 1 else 0, 0, 0
  {
    if p in sh {
      VisitedListStored(sh, p, sh[p]);
    }
  }

  lemma {:induction false} VisitedListStored(sh: Shape, parent: string, cs: seq<Child>)
    requires WellNamed(sh) && AllReplayable(cs)
    ensures VisitedList(sh, parent, cs) <= sh.Keys
    decreases |Longer(sh, parent)|, 2, |cs|
  {
    if cs != [] {
      VisitedListStored(sh, parent, cs[..|cs| - 1]);
      VisitedStored(sh, parent, cs[|cs| - 1]);
    }
  }
}

/** Reading back a whole saved file: dir_cache_load's header check and item
    loop over what dir_cache_save writes (src/dir_cache.c). */
module FileText {
  import opened Common
  import opened CacheTypes
  import opened JsonSpec
  import opened Writer
  import opened ReadBack
  import opened ReadText
  import opened TreeText
  import opened SkipText

  /** Only directories have children, below every saved entry. */
  predicate EntriesNest(es: seq<EntryVal>) {
    forall i | 0 <= i < |es| :: AllNest(es[i].children)
  }

  /** What a load builds from saved entries: each entry read back as a
      directory item whose parent device is 0. */
  function ReadEntries(es: seq<EntryVal>): (rs: seq<Child>)
    requires EntriesNamed(es)
    ensures |rs| == |es|
  {
    if es == [] then []
    else
      EntryTextAsChild(es[0]);
      [ReadTree(EntryAsChild(es[0]), 0)] + ReadEntries(es[1..])
  }

  lemma RestNamed(es: seq<EntryVal>)
    requires EntriesNamed(es) && es != []
    ensures EntriesNamed(es[1..])
  {
    forall i | 0 <= i < |es| - 1 ensures AllNamed(es[1..][i].children) {
      assert es[1..][i] == es[i + 1];
    }
  }

  /** The saved entries, then the `]` that closes the file's array, read by
      the item loop of dir_cache_load from any list already read. */
  lemma {:induction false} TopRead(s: string, c: Cursor, p: nat, es: seq<EntryVal>, acc: seq<Child>)
    requires EntriesNamed(es) && EntriesNest(es)
    requires c.pos == p && IsAt(s, p, EntriesText(es) + "]")
    ensures TopItems(s, c, acc) == LoadParse(acc + ReadEntries(es), true)
    decreases |es|, 2
  {
    if es == [] {
      assert EntriesText(es) + "]" == "]";
      IsAtChar(s, p, "]", 0);
      TopEnd(s, c, acc);
    } else {
      TopCons(s, c, p, es, acc);
    }
  }

  lemma {:induction false} TopCons(s: string, c: Cursor, p: nat, es: seq<EntryVal>, acc: seq<Child>)
    requires EntriesNamed(es) && EntriesNest(es) && es != []
    requires c.pos == p && IsAt(s, p, EntriesText(es) + "]")
    ensures TopItems(s, c, acc) == LoadParse(acc + ReadEntries(es), true)
    decreases |es|, 1
  {
    var q := TopLayout(s, c, p, es);
    var it := FirstEntry(s, c, p, q, es);
    TopRest(s, c, q, es, acc, it);
  }

  /** The first saved entry reads back as a directory item. */
  lemma FirstEntry(s: string, c: Cursor, p: nat, q: nat, es: seq<EntryVal>) returns (it: Parsed<Child>)
    requires EntriesNamed(es) && EntriesNest(es) && es != [] && Named(EntryAsChild(es[0]))
    requires c.pos == p && SkipWs(s, Step(c, 1)).pos == p + 2
    requires IsAt(s, p + 2, WriteChild(EntryAsChild(es[0]))) && q == p + 2 + |WriteChild(EntryAsChild(es[0]))|
    ensures ParseItem(s, Step(c, 1), 0) == Some(it) && it.v == ReadTree(EntryAsChild(es[0]), 0) && it.next.pos == q
  {
    EntryNests(es, 0);
    it := ItemRead(s, Step(c, 1), p + 2, q, EntryAsChild(es[0]), 0);
  }

  /** After the first entry, the rest. */
  lemma {:induction false} TopRest(s: string, c: Cursor, q: nat, es: seq<EntryVal>, acc: seq<Child>, it: Parsed<Child>)
    requires EntriesNamed(es) && EntriesNest(es) && es != [] && Named(EntryAsChild(es[0]))
    requires EntriesNamed(es[1..]) && IsAt(s, q, EntriesText(es[1..]) + "]")
    requires c.pos < |s| && s[c.pos] == ','
    requires ParseItem(s, Step(c, 1), 0) == Some(it) && it.v == ReadTree(EntryAsChild(es[0]), 0) && it.next.pos == q
    ensures TopItems(s, c, acc) == LoadParse(acc + ReadEntries(es), true)
    decreases |es|, 0
  {
    RestNest(es);
    TopRead(s, it.next, q, es[1..], acc + [it.v]);
    TopStep(s, c, acc, it);
    ReadEntriesCons(es, acc, it.v);
  }

  lemma TopLayout(s: string, c: Cursor, p: nat, es: seq<EntryVal>) returns (q: nat)
    requires EntriesNamed(es) && es != []
    requires c.pos == p && IsAt(s, p, EntriesText(es) + "]")
    ensures EntriesNamed(es[1..]) && Named(EntryAsChild(es[0]))
    ensures p < |s| && s[p] == ',' && SkipWs(s, Step(c, 1)).pos == p + 2
    ensures IsAt(s, p + 2, WriteChild(EntryAsChild(es[0]))) && q == p + 2 + |WriteChild(EntryAsChild(es[0]))|
    ensures IsAt(s, q, EntriesText(es[1..]) + "]")
  {
    RestNamed(es);
    EntryTextAsChild(es[0]);
    var t := EntriesText(es) + "]";
    q := CommaLine(s, p, p + |t|, t, WriteChild(EntryAsChild(es[0])), EntriesText(es[1..]));
    ItemAfterNewline(s, c, p, EntryAsChild(es[0]));
  }

  lemma EntryNests(es: seq<EntryVal>, i: nat)
    requires EntriesNest(es) && i < |es|
    ensures Nests(EntryAsChild(es[i]))
  {
    assert AllNest(es[i].children);
  }

  lemma RestNest(es: seq<EntryVal>)
    requires EntriesNest(es) && es != []
    ensures EntriesNest(es[1..])
  {
    forall i | 0 <= i < |es| - 1 ensures AllNest(es[1..][i].children) {
      assert es[1..][i] == es[i + 1];
    }
  }

  lemma TopEnd(s: string, c: Cursor, acc: seq<Child>)
    requires c.pos < |s| && s[c.pos] == ']'
    ensures TopItems(s, c, acc) == LoadParse(acc, true)
  {
    NoSkip(s, c);
  }

  lemma TopStep(s: string, c: Cursor, acc: seq<Child>, it: Parsed<Child>)
    requires c.pos < |s| && s[c.pos] == ',' && ParseItem(s, Step(c, 1), 0) == Some(it)
    ensures TopItems(s, c, acc) == TopItems(s, it.next, acc + [it.v])
  {
    NoSkip(s, c);
  }

  lemma ReadEntriesCons(es: seq<EntryVal>, acc: seq<Child>, x: Child)
    requires EntriesNamed(es) && es != [] && Named(EntryAsChild(es[0]))
    requires x == ReadTree(EntryAsChild(es[0]), 0)
    ensures EntriesNamed(es[1..])
    ensures acc + [x] + ReadEntries(es[1..]) == acc + ReadEntries(es)
  {
    RestNamed(es);
    assert ReadEntries(es) == [x] + ReadEntries(es[1..]);
  }

  /** The round trip of the cache file: loading what dir_cache_save writes
      gives back, in order and with the load marked successful, every saved
      entry as a directory item whose record is ReadInfo of the entry and
      whose children are its children read back, all the way down. */
  lemma LoadSaved(pn: string, pv: string, ts: u64, es: seq<EntryVal>)
    requires AllPlain(pn) && AllPlain(pv) && EntriesNamed(es) && EntriesNest(es)
    ensures ParseCacheFile(SaveText(HeaderText(pn, pv, ts), es)) == LoadParse(ReadEntries(es), true)
  {
    var h := HeaderText(pn, pv, ts);
    var s := SaveText(h, es);
    SavedLayout(s, h, EntriesText(es));
    LoadText(s, h, pn, pv, ts, es);
  }

  lemma LoadText(s: string, h: string, pn: string, pv: string, ts: u64, es: seq<EntryVal>)
    requires AllPlain(pn) && AllPlain(pv) && EntriesNamed(es) && EntriesNest(es)
    requires h == HeaderText(pn, pv, ts) && IsAt(s, 0, h) && IsAt(s, |h|, EntriesText(es) + "]")
    ensures ParseCacheFile(s) == LoadParse(ReadEntries(es), true)
  {
    var c := HeaderAt(s, h, pn, pv, ts);
    LoadFrom(s, c, es);
  }

  lemma LoadFrom(s: string, c: Cursor, es: seq<EntryVal>)
    requires EntriesNamed(es) && EntriesNest(es)
    requires Header(s) == Some(c) && IsAt(s, c.pos, EntriesText(es) + "]")
    ensures ParseCacheFile(s) == LoadParse(ReadEntries(es), true)
  {
    EntriesFrom(s, c, es);
    CacheFileStep(s, c, LoadParse(ReadEntries(es), true));
  }

  lemma EntriesFrom(s: string, c: Cursor, es: seq<EntryVal>)
    requires EntriesNamed(es) && EntriesNest(es) && IsAt(s, c.pos, EntriesText(es) + "]")
    ensures TopItems(s, c, []) == LoadParse(ReadEntries(es), true)
  {
    TopRead(s, c, c.pos, es, []);
    assert [] + ReadEntries(es) == ReadEntries(es);
  }

  /** The header check stops right after the saved header. */
  lemma HeaderAt(s: string, h: string, pn: string, pv: string, ts: u64) returns (c: Cursor)
    requires AllPlain(pn) && AllPlain(pv) && h == HeaderText(pn, pv, ts) && IsAt(s, 0, h)
    ensures Header(s) == Some(c) && c.pos == |h|
  {
    HeaderRead(s, pn, pv, ts);
    c := Cursor(|h|, 1);
  }

  /** dir_cache_load reads the items from where the header check stops. */
  lemma CacheFileStep(s: string, c: Cursor, r: LoadParse)
    requires Header(s) == Some(c) && TopItems(s, c, []) == r
    ensures ParseCacheFile(s) == r
  {
  }

  lemma SavedLayout(s: string, h: string, t: string)
    requires s == h + t + "]\n"
    ensures IsAt(s, 0, h) && IsAt(s, |h|, t + "]")
  {
    IsAtRest(s, 0);
    assert s[0..] == s == h + ((t + "]") + "\n");
    IsAtSplit(s, 0, h, (t + "]") + "\n");
    IsAtSplit(s, |h|, t + "]", "\n");
  }
}

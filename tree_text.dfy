/** Reading back a whole written item: parse_item and parse_item_children
    over write_cache_child's output, directory by directory
    (src/dir_cache.c). */
module TreeText {
  import opened Common
  import opened CacheTypes
  import opened JsonSpec
  import opened Writer
  import opened ReadBack
  import opened ReadText

  /** Only directories have children, all the way down: write_cache_child
      writes the children of any item, but only an item opened by `[` reads
      them back. */
  predicate Nests(c: Child)
    decreases c
  {
    (FDir !in c.flags ==> c.children == []) && AllNest(c.children)
  }

  predicate AllNest(cs: seq<Child>)
    decreases cs
  {
    forall i | 0 <= i < |cs| :: Nests(cs[i])
  }

  /** What parse_item builds from a written item: the item's record as
      ReadInfo reads it and, for a directory, its children read under the
      directory's device. */
  function ReadTree(c: Child, dev: u64): (r: Child)
    requires Named(c)
    ensures r.name == Some(ReadName(c.name.value)) && r.flags == ReadFlags(c)
    ensures |r.children| == (if FDir in c.flags then |c.children| else 0)
    decreases c, 1
  {
    var info := ReadInfo(c, dev);
    if FDir in c.flags then info.(children := ReadTrees(c.children, info.dev)) else info
  }

  function ReadTrees(cs: seq<Child>, dev: u64): (rs: seq<Child>)
    requires AllNamed(cs)
    ensures |rs| == |cs|
    decreases cs, 0
  {
    if cs == [] then [] else [ReadTree(cs[0], dev)] + ReadTrees(cs[1..], dev)
  }

  // ------------------------------------------------------ the item's kind

  /** What a record's members may do to its kind: DIR is never set or
      cleared, FILE is never set (only `notreg` clears it). */
  predicate KindKept(a: Child, b: Child) {
    (FDir in b.flags <==> FDir in a.flags) && (FFile in b.flags ==> FFile in a.flags)
  }

  lemma MemberKeepsKind(s: string, c: Cursor, ch: Child)
    ensures Member(s, c, ch).Some? ==> KindKept(ch, Member(s, c, ch).value.v)
  {
    match ParseString(s, c, MAX_VAL)
    case None =>
    case Some(k) =>
      match Expect(s, k.next, ':')
      case None =>
      case Some(c2) => ValueKeepsKind(s, c2, CStr(k.v), ch);
  }

  lemma ValueKeepsKind(s: string, c: Cursor, key: string, ch: Child)
    ensures FieldValue(s, c, key, ch).Some? ==> KindKept(ch, FieldValue(s, c, key, ch).value.v)
  {
    if key == "name" || key == "asize" || key == "dsize" {
    } else if key in {"dev", "ino", "mtime", "uid", "gid", "mode", "nlink"} {
      match ParseUint64(s, c)
      case None =>
      case Some(p) => UnsignedKeepsKind(ch, key, p.v);
    } else if key == "hlnkc" || key == "read_error" || key == "notreg" {
    } else if key == "excluded" {
      match ParseString(s, c, EXCL_BUF)
      case None =>
      case Some(p) => assert ExcludedFlag(CStr(p.v)) in {FExl, FOthFs, FKernFs, FFrmLnk};
    }
  }

  lemma UnsignedKeepsKind(ch: Child, key: string, v: u64)
    ensures KindKept(ch, SetUnsigned(ch, key, v))
  {
  }

  lemma {:induction false} FieldsKeepKind(s: string, c: Cursor, ch: Child)
    ensures InfoFields(s, c, ch).Some? ==> KindKept(ch, InfoFields(s, c, ch).value.v)
    decreases Left(s, c), 0
  {
    var c0 := SkipWs(s, c);
    if At(s, c0) != '}' {
      MemberKeepsKind(s, c0, ch);
      match Member(s, c0, ch)
      case None =>
      case Some(f) =>
        AfterKeepsKind(s, f.next, f.v);
    }
  }

  lemma {:induction false} AfterKeepsKind(s: string, c: Cursor, ch: Child)
    ensures AfterMember(s, c, ch).Some? ==> KindKept(ch, AfterMember(s, c, ch).value.v)
    decreases Left(s, c), 1
  {
    var c3 := SkipWs(s, c);
    if At(s, c3) != '}' {
      FieldsKeepKind(s, if At(s, c3) == ',' then Step(c3, 1) else c3, ch);
    }
  }

  /** parse_item makes an item a directory exactly when its text opens with
      `[`; an item that does not is a file unless `notreg` says otherwise,
      and an item that does is never flagged FILE. */
  lemma ItemKind(s: string, c: Cursor, dev: u64)
    requires ParseItem(s, c, dev).Some?
    ensures FDir in ParseItem(s, c, dev).value.v.flags <==> Peek(s, c) == '['
    ensures FFile in ParseItem(s, c, dev).value.v.flags ==> Peek(s, c) != '['
  {
    var c0 := SkipWs(s, c);
    var isDir := At(s, c0) == '[';
    var c1 := if isDir then SkipWs(s, Step(c0, 1)) else c0;
    var blank := BlankChild(if isDir then {FDir} else {FFile});
    match Expect(s, c1, '{')
    case None =>
    case Some(c2) =>
      FieldsKeepKind(s, c2, blank.(dev := dev));
  }

  // ----------------------------------------------------------- text layout

  /** The text write_cache_child writes for a directory and for a file. */
  lemma WriteDir(c: Child)
    requires Named(c) && FDir in c.flags
    ensures WriteChild(c) == "[" + InfoObject(c.name.value, ChildFields(c)) + WriteNested(c.children) + "]"
  {
  }

  lemma WriteFile(c: Child)
    requires Named(c) && FDir !in c.flags
    ensures WriteChild(c) == "" + InfoObject(c.name.value, ChildFields(c)) + WriteNested(c.children) + ""
  {
  }

  lemma InfoOpens(name: string, fs: seq<Field>)
    ensures |InfoObject(name, fs)| > 0 && InfoObject(name, fs)[0] == '{'
  {
  }

  /** `[`, a text i, a text n, then `]`. */
  lemma Bracketed(s: string, p: nat, e: nat, t: string, i: string, n: string)
    requires t == "[" + i + n + "]" && IsAt(s, p, t) && e == p + |t|
    ensures p < |s| && s[p] == '['
    ensures IsAt(s, p + 1, i) && IsAt(s, p + 1 + |i|, n + "]") && e == p + 1 + |i| + |n| + 1
  {
    assert t == "[" + (i + (n + "]"));
    IsAtSplit(s, p, "[", i + (n + "]"));
    IsAtSplit(s, p + 1, i, n + "]");
    IsAtChar(s, p, "[", 0);
  }

  /** A written item opens with `[` exactly when it is a directory, and
      with `{` otherwise. */
  lemma ItemOpens(s: string, p: nat, c: Child)
    requires Named(c) && IsAt(s, p, WriteChild(c))
    ensures p < |s| && (if FDir in c.flags then s[p] == '[' else s[p] == '{')
    ensures s[p] == '[' || s[p] == '{'
  {
    var i := InfoObject(c.name.value, ChildFields(c));
    InfoOpens(c.name.value, ChildFields(c));
    if FDir in c.flags {
      WriteDir(c);
      Opens(s, p, WriteChild(c), "[" + i + WriteNested(c.children), "]");
    } else {
      WriteFile(c);
      Opens(s, p, WriteChild(c), "" + i + WriteNested(c.children), "");
      assert ("" + i + WriteNested(c.children))[0] == i[0];
    }
  }

  /** The first character of a text a + b is that of a. */
  lemma Opens(s: string, p: nat, t: string, a: string, b: string)
    requires t == a + b && |a| > 0 && IsAt(s, p, t)
    ensures p < |s| && s[p] == a[0]
  {
    IsAtChar(s, p, t, 0);
  }

  lemma FileLayout(s: string, p: nat, e: nat, c: Child)
    requires Named(c) && FDir !in c.flags && c.children == []
    requires IsAt(s, p, WriteChild(c)) && e == p + |WriteChild(c)|
    ensures IsAt(s, p, InfoObject(c.name.value, ChildFields(c)))
    ensures e == p + |InfoObject(c.name.value, ChildFields(c))|
  {
    WriteFile(c);
    NoChildren(c.children);
    Bare(s, p, e, WriteChild(c), InfoObject(c.name.value, ChildFields(c)), WriteNested(c.children));
  }

  lemma NoChildren(cs: seq<Child>)
    requires cs == []
    ensures WriteNested(cs) == ""
  {
  }

  /** A text i with nothing around it. */
  lemma Bare(s: string, p: nat, e: nat, t: string, i: string, n: string)
    requires t == "" + i + n + "" && n == "" && IsAt(s, p, t) && e == p + |t|
    ensures IsAt(s, p, i) && e == p + |i|
  {
    assert "" + i == i;
    assert i + n == i;
    assert i + "" == i;
  }

  lemma DirLayout(s: string, p: nat, e: nat, c: Child) returns (q: nat)
    requires Named(c) && FDir in c.flags
    requires IsAt(s, p, WriteChild(c)) && e == p + |WriteChild(c)|
    ensures p + 1 < |s| && s[p] == '[' && s[p + 1] == '{'
    ensures IsAt(s, p + 1, InfoObject(c.name.value, ChildFields(c)))
    ensures q == p + 1 + |InfoObject(c.name.value, ChildFields(c))|
    ensures IsAt(s, q, WriteNested(c.children) + "]") && e == q + |WriteNested(c.children)| + 1
  {
    q := DirParts(s, p, e, c, InfoObject(c.name.value, ChildFields(c)), WriteNested(c.children));
  }

  lemma DirParts(s: string, p: nat, e: nat, c: Child, i: string, n: string) returns (q: nat)
    requires Named(c) && FDir in c.flags && i == InfoObject(c.name.value, ChildFields(c)) && n == WriteNested(c.children)
    requires IsAt(s, p, WriteChild(c)) && e == p + |WriteChild(c)|
    ensures p + 1 < |s| && s[p] == '[' && s[p + 1] == '{'
    ensures IsAt(s, p + 1, i) && q == p + 1 + |i|
    ensures IsAt(s, q, n + "]") && e == q + |n| + 1
  {
    WriteDir(c);
    Bracketed(s, p, e, WriteChild(c), i, n);
    q := p + 1 + |i|;
    InfoOpens(c.name.value, ChildFields(c));
    IsAtChar(s, p + 1, i, 0);
  }

  /** `,\n`, a text w, a text m, then `]`. */
  lemma CommaLine(s: string, p: nat, e: nat, t: string, w: string, m: string) returns (q: nat)
    requires t == ",\n" + w + m + "]" && IsAt(s, p, t) && e == p + |t|
    ensures p + 1 < |s| && s[p] == ',' && s[p + 1] == '\n'
    ensures IsAt(s, p + 2, w) && q == p + 2 + |w|
    ensures IsAt(s, q, m + "]") && e == q + |m| + 1
  {
    assert t == ",\n" + (w + (m + "]"));
    IsAtSplit(s, p, ",\n", w + (m + "]"));
    IsAtSplit(s, p + 2, w, m + "]");
    IsAtChar(s, p, ",\n", 0);
    IsAtChar(s, p, ",\n", 1);
    q := p + 2 + |w|;
  }

  lemma NestedLayout(s: string, p: nat, e: nat, cs: seq<Child>) returns (q: nat)
    requires AllNamed(cs) && cs != []
    requires IsAt(s, p, WriteNested(cs) + "]") && e == p + |WriteNested(cs)| + 1
    ensures p + 1 < |s| && s[p] == ',' && s[p + 1] == '\n'
    ensures IsAt(s, p + 2, WriteChild(cs[0])) && q == p + 2 + |WriteChild(cs[0])|
    ensures IsAt(s, q, WriteNested(cs[1..]) + "]") && e == q + |WriteNested(cs[1..])| + 1
  {
    q := CommaLine(s, p, e, WriteNested(cs) + "]", WriteChild(cs[0]), WriteNested(cs[1..]));
  }

  lemma ListCloses(s: string, p: nat, e: nat, cs: seq<Child>)
    requires AllNamed(cs) && cs == []
    requires IsAt(s, p, WriteNested(cs) + "]") && e == p + |WriteNested(cs)| + 1
    ensures p < |s| && s[p] == ']' && e == p + 1
  {
    assert WriteNested(cs) + "]" == "]";
    IsAtChar(s, p, "]", 0);
  }

  // ----------------------------------------------------------- parser steps

  /** A newline before a character that is not white space is skipped. */
  lemma NewlineSkip(s: string, c: Cursor)
    requires c.pos + 1 < |s| && s[c.pos] == '\n' && !IsWs(s[c.pos + 1])
    ensures SkipWs(s, c).pos == c.pos + 1
  {
    NoSkip(s, Cursor(c.pos + 1, c.line + 1));
  }

  lemma FileStep(s: string, c: Cursor, dev: u64, r: Option<Parsed<Child>>)
    requires SkipWs(s, c).pos < |s| && s[SkipWs(s, c).pos] == '{'
    requires ItemInfo(s, SkipWs(s, c), dev, BlankChild({FFile})) == r
    ensures ParseItem(s, c, dev) == r
  {
  }

  lemma DirStep(s: string, c: Cursor, dev: u64, info: Parsed<Child>, kids: Parsed<seq<Child>>)
    requires SkipWs(s, c).pos + 1 < |s| && s[SkipWs(s, c).pos] == '[' && s[SkipWs(s, c).pos + 1] == '{'
    requires ItemInfo(s, Step(SkipWs(s, c), 1), dev, BlankChild({FDir})) == Some(info)
    requires ChildList(s, info.next, info.v.dev, []) == Some(kids)
    ensures ParseItem(s, c, dev) == Some(Parsed(info.v.(children := kids.v), kids.next))
  {
    NoSkip(s, Step(SkipWs(s, c), 1));
  }

  lemma ListEnd(s: string, c: Cursor, dev: u64, acc: seq<Child>)
    requires c.pos < |s| && s[c.pos] == ']'
    ensures ChildList(s, c, dev, acc) == Some(Parsed(acc, Step(c, 1)))
  {
    NoSkip(s, c);
  }

  lemma ListStep(s: string, c: Cursor, dev: u64, acc: seq<Child>, it: Parsed<Child>, r: Option<Parsed<seq<Child>>>)
    requires c.pos < |s| && s[c.pos] == ','
    requires ParseItem(s, Step(c, 1), dev) == Some(it) && ChildList(s, it.next, dev, acc + [it.v]) == r
    ensures ChildList(s, c, dev, acc) == r
  {
    NoSkip(s, c);
  }

  // ------------------------------------------------------------ the tree

  /** A written item, found after white space, reads back as ReadTree and
      ends where its text ends. */
  lemma {:induction false} ItemRead(s: string, c: Cursor, p: nat, e: nat, ch: Child, dev: u64) returns (r: Parsed<Child>)
    requires Named(ch) && Nests(ch)
    requires SkipWs(s, c).pos == p && IsAt(s, p, WriteChild(ch)) && e == p + |WriteChild(ch)|
    ensures ParseItem(s, c, dev) == Some(r) && r.v == ReadTree(ch, dev) && r.next.pos == e
    decreases ch, 1
  {
    if FDir in ch.flags {
      r := DirRead(s, c, p, e, ch, dev);
    } else {
      r := FileRead(s, c, p, e, ch, dev);
    }
  }

  lemma {:induction false} DirRead(s: string, c: Cursor, p: nat, e: nat, ch: Child, dev: u64) returns (r: Parsed<Child>)
    requires Named(ch) && Nests(ch) && FDir in ch.flags
    requires SkipWs(s, c).pos == p && IsAt(s, p, WriteChild(ch)) && e == p + |WriteChild(ch)|
    ensures ParseItem(s, c, dev) == Some(r) && r.v == ReadTree(ch, dev) && r.next.pos == e
    decreases ch, 0
  {
    var q := DirLayout(s, p, e, ch);
    StepPos(s, c, p);
    var info := InfoAt(s, Step(SkipWs(s, c), 1), p + 1, q, dev, ch, {FDir});
    var kids := ListRead(s, info.next, q, e, ch.children, info.v.dev, []);
    DirStep(s, c, dev, info, kids);
    r := Parsed(info.v.(children := kids.v), kids.next);
    DirTree(ch, dev, info.v, kids.v);
  }

  lemma FileRead(s: string, c: Cursor, p: nat, e: nat, ch: Child, dev: u64) returns (r: Parsed<Child>)
    requires Named(ch) && Nests(ch) && FDir !in ch.flags
    requires SkipWs(s, c).pos == p && IsAt(s, p, WriteChild(ch)) && e == p + |WriteChild(ch)|
    ensures ParseItem(s, c, dev) == Some(r) && r.v == ReadTree(ch, dev) && r.next.pos == e
  {
    FileLayout(s, p, e, ch);
    r := InfoAt(s, SkipWs(s, c), p, e, dev, ch, {FFile});
    FileStep(s, c, dev, Some(r));
    FileTree(ch, dev);
  }

  /** A written item's info object, read from parse_item's blank record. */
  lemma InfoAt(s: string, c: Cursor, p: nat, e: nat, dev: u64, ch: Child, flags: set<Flag>) returns (info: Parsed<Child>)
    requires Named(ch) && flags == StartFlags(ch) && c.pos == p
    requires IsAt(s, p, InfoObject(ch.name.value, ChildFields(ch)))
    requires e == p + |InfoObject(ch.name.value, ChildFields(ch))|
    ensures ItemInfo(s, c, dev, BlankChild(flags)) == Some(info)
    ensures info.v == ReadInfo(ch, dev) && info.next.pos == e
  {
    InfoObjectAt(s, c, e, dev, BlankChild(flags), ch.name.value, ChildFields(ch));
    StartRead(ch, dev, flags);
    info := Parsed(ReadInfo(ch, dev), Cursor(e, c.line));
  }

  lemma StepPos(s: string, c: Cursor, p: nat)
    requires SkipWs(s, c).pos == p
    ensures Step(SkipWs(s, c), 1).pos == p + 1
  {
  }

  /** InfoRead, with parse_item's start flags written out. */
  lemma StartRead(ch: Child, dev: u64, flags: set<Flag>)
    requires ch.name.Some? && flags == StartFlags(ch)
    ensures ApplyFields(ApplyField(BlankChild(flags).(dev := dev), FName(ch.name.value)), ChildFields(ch))
         == ReadInfo(ch, dev)
  {
    InfoRead(ch, dev);
  }

  lemma DirTree(ch: Child, dev: u64, info: Child, kids: seq<Child>)
    requires Named(ch) && FDir in ch.flags && info == ReadInfo(ch, dev)
    requires kids == [] + ReadTrees(ch.children, info.dev)
    ensures info.(children := kids) == ReadTree(ch, dev)
  {
    assert kids == ReadTrees(ch.children, info.dev);
  }

  lemma FileTree(ch: Child, dev: u64)
    requires Named(ch) && FDir !in ch.flags
    ensures ReadInfo(ch, dev) == ReadTree(ch, dev)
  {
  }

  /** The written children of a directory, each after `,\n`, then the `]`
      that closes it, read back as ReadTrees. */
  lemma {:induction false} ListRead(s: string, c: Cursor, p: nat, e: nat, cs: seq<Child>, dev: u64, acc: seq<Child>)
    returns (r: Parsed<seq<Child>>)
    requires AllNamed(cs) && AllNest(cs)
    requires c.pos == p && IsAt(s, p, WriteNested(cs) + "]") && e == p + |WriteNested(cs)| + 1
    ensures ChildList(s, c, dev, acc) == Some(r) && r.v == acc + ReadTrees(cs, dev) && r.next.pos == e
    decreases cs, 1
  {
    if cs == [] {
      ListCloses(s, p, e, cs);
      ListEnd(s, c, dev, acc);
      r := Parsed(acc, Step(c, 1));
    } else {
      r := ListCons(s, c, p, e, cs, dev, acc);
    }
  }

  lemma {:induction false} ListCons(s: string, c: Cursor, p: nat, e: nat, cs: seq<Child>, dev: u64, acc: seq<Child>)
    returns (r: Parsed<seq<Child>>)
    requires AllNamed(cs) && AllNest(cs) && cs != []
    requires c.pos == p && IsAt(s, p, WriteNested(cs) + "]") && e == p + |WriteNested(cs)| + 1
    ensures ChildList(s, c, dev, acc) == Some(r) && r.v == acc + ReadTrees(cs, dev) && r.next.pos == e
    decreases cs, 0
  {
    var q := ConsLayout(s, c, p, e, cs);
    var it := ItemRead(s, Step(c, 1), p + 2, q, cs[0], dev);
    r := ListRead(s, it.next, q, e, cs[1..], dev, acc + [it.v]);
    ListStep(s, c, dev, acc, it, Some(r));
    ReadTreesCons(cs, dev, acc, it.v);
  }

  lemma ConsLayout(s: string, c: Cursor, p: nat, e: nat, cs: seq<Child>) returns (q: nat)
    requires AllNamed(cs) && cs != []
    requires c.pos == p && IsAt(s, p, WriteNested(cs) + "]") && e == p + |WriteNested(cs)| + 1
    ensures p < |s| && s[p] == ',' && SkipWs(s, Step(c, 1)).pos == p + 2
    ensures IsAt(s, p + 2, WriteChild(cs[0])) && q == p + 2 + |WriteChild(cs[0])|
    ensures IsAt(s, q, WriteNested(cs[1..]) + "]") && e == q + |WriteNested(cs[1..])| + 1
  {
    q := NestedLayout(s, p, e, cs);
    ItemAfterNewline(s, c, p, cs[0]);
  }

  /** The `\n` after a comma is skipped up to the item written after it. */
  lemma ItemAfterNewline(s: string, c: Cursor, p: nat, ch: Child)
    requires c.pos == p && p + 1 < |s| && s[p] == ',' && s[p + 1] == '\n'
    requires Named(ch) && IsAt(s, p + 2, WriteChild(ch))
    ensures SkipWs(s, Step(c, 1)).pos == p + 2
  {
    ItemOpens(s, p + 2, ch);
    NewlineBefore(s, c, p);
  }

  lemma NewlineBefore(s: string, c: Cursor, p: nat)
    requires c.pos == p && p + 2 < |s| && s[p + 1] == '\n' && (s[p + 2] == '[' || s[p + 2] == '{')
    ensures SkipWs(s, Step(c, 1)).pos == p + 2
  {
    NewlineSkip(s, Step(c, 1));
  }

  lemma ReadTreesCons(cs: seq<Child>, dev: u64, acc: seq<Child>, x: Child)
    requires AllNamed(cs) && cs != [] && x == ReadTree(cs[0], dev)
    ensures acc + [x] + ReadTrees(cs[1..], dev) == acc + ReadTrees(cs, dev)
  {
    assert ReadTrees(cs, dev) == [x] + ReadTrees(cs[1..], dev);
  }
}

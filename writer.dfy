/** The cache-file writer (write_cache_child and the per-entry writer and
    header of dir_cache_save in src/dir_cache.c), as functions from the
    records to the text they append to the file. */
module Writer {
  import opened Common
  import opened CacheTypes
  import opened Decimal
  import opened JsonEscape

  /** The keys of the members written by output_int64. */
  datatype SignedKey = ASize | DSize

  /** The keys of the members written by output_int. */
  datatype UnsignedKey = Dev | Ino | MTime | Uid | Gid | Mode | NLink

  /** The keys of the members written as `true`. */
  datatype TrueKey = HLnkC | ReadError | NotRegular

  /** The exclusion reasons. */
  datatype Reason = Pattern | OtherFs | KernFs | FrmLnk

  function SignedName(k: SignedKey): string {
    match k
    case ASize => "asize"
    case DSize => "dsize"
  }

  function UnsignedName(k: UnsignedKey): string {
    match k
    case Dev => "dev"
    case Ino => "ino"
    case MTime => "mtime"
    case Uid => "uid"
    case Gid => "gid"
    case Mode => "mode"
    case NLink => "nlink"
  }

  function TrueName(k: TrueKey): string {
    match k
    case HLnkC => "hlnkc"
    case ReadError => "read_error"
    case NotRegular => "notreg"
  }

  function ReasonName(r: Reason): string {
    match r
    case Pattern => "pattern"
    case OtherFs => "otherfs"
    case KernFs => "kernfs"
    case FrmLnk => "frmlnk"
  }

  /** One `"key":value` member of an info object. */
  datatype Field =
    | FName(text: string)                   // "name":"<escaped text>"
    | FSigned(skey: SignedKey, v: i64)      // output_int64
    | FUnsigned(ukey: UnsignedKey, n: u64)  // output_int
    | FTrue(tkey: TrueKey)                  // "key":true
    | FExcluded(reason: Reason)             // "excluded":"<reason>"

  function FieldText(f: Field): string {
    match f
    case FName(t) => "\"name\":\"" + Escape(CStr(t)) + "\""
    case FSigned(k, v) => "\"" + SignedName(k) + "\":" + SignedDigits(v)
    case FUnsigned(k, n) => "\"" + UnsignedName(k) + "\":" + Digits(n)
    case FTrue(k) => "\"" + TrueName(k) + "\":true"
    case FExcluded(r) => "\"excluded\":\"" + ReasonName(r) + "\""
  }

  /** The members after the first, each preceded by a comma. */
  function MoreFields(fs: seq<Field>): string {
    if fs == [] then "" else "," + FieldText(fs[0]) + MoreFields(fs[1..])
  }

  function IfSet(cond: bool, f: Field): (r: seq<Field>)
    ensures cond ==> r == [f]
    ensures !cond ==> r == []
  {
    if cond then [f] else []
  }

  /** `notreg` is written iff none of these flags is set. */
  predicate NotReg(flags: set<Flag>) {
    FDir !in flags && FFile !in flags && FErr !in flags && FExl !in flags
      && FOthFs !in flags && FKernFs !in flags && FFrmLnk !in flags
  }

  /** The one exclusion reason written, by priority pattern > otherfs >
      kernfs > frmlnk. */
  function ExcludedReason(flags: set<Flag>): (r: Option<Reason>)
    ensures r.Some? <==> (FExl in flags || FOthFs in flags || FKernFs in flags || FFrmLnk in flags)
    ensures FExl in flags ==> r == Some(Pattern)
    ensures FExl !in flags && FOthFs in flags ==> r == Some(OtherFs)
  {
    if FExl in flags then Some(Pattern)
    else if FOthFs in flags then Some(OtherFs)
    else if FKernFs in flags then Some(KernFs)
    else if FFrmLnk in flags then Some(FrmLnk)
    else None
  }

  /** Groups of members, written one after the other. */
  function Concat(parts: seq<seq<Field>>): (fs: seq<Field>)
    ensures parts == [] ==> fs == []
  {
    if parts == [] then [] else parts[0] + Concat(parts[1..])
  }

  /** The sizes and the identifying triple, written by both writers in this
      order; zero values are left out. */
  function SizeFields(asize: i64, size: i64, dev: u64, ino: u64, mtime: u64): seq<Field> {
    Concat([IfSet(asize != 0, FSigned(ASize, asize)),
            IfSet(size != 0, FSigned(DSize, size)),
            IfSet(dev != 0, FUnsigned(Dev, dev)),
            IfSet(ino != 0, FUnsigned(Ino, ino)),
            IfSet(mtime != 0, FUnsigned(MTime, mtime))])
  }

  /** The hard-link pair, written only for a link count above 1. */
  function LinkFields(nlink: u32): seq<Field> {
    if nlink > 1 then [FTrue(HLnkC), FUnsigned(NLink, nlink)] else []
  }

  /** The exclusion member, if any. */
  function ExcludedFields(flags: set<Flag>): seq<Field> {
    match ExcludedReason(flags)
    case Some(r) => [FExcluded(r)]
    case None => []
  }

  /** The members only write_cache_child writes, after the sizes. */
  function ItemFields(c: Child): seq<Field> {
    Concat([IfSet(c.uid != 0, FUnsigned(Uid, c.uid)),
            IfSet(c.gid != 0, FUnsigned(Gid, c.gid)),
            IfSet(c.mode != 0, FUnsigned(Mode, c.mode)),
            LinkFields(c.nlink),
            IfSet(FErr in c.flags, FTrue(ReadError)),
            IfSet(NotReg(c.flags), FTrue(NotRegular)),
            ExcludedFields(c.flags)])
  }

  lemma ConcatCons(x: seq<Field>, rest: seq<seq<Field>>)
    ensures Concat([x] + rest) == x + Concat(rest)
  {
    assert ([x] + rest)[1..] == rest;
  }

  lemma Concat5(a: seq<Field>, b: seq<Field>, c: seq<Field>, d: seq<Field>, e: seq<Field>)
    ensures Concat([a, b, c, d, e]) == a + b + c + d + e
  {
    ConcatCons(e, []);
    assert [e] == [e] + [];
    assert Concat([e]) == e;
    ConcatCons(d, [e]);
    assert [d, e] == [d] + [e];
    assert Concat([d, e]) == d + e;
    ConcatCons(c, [d, e]);
    assert [c, d, e] == [c] + [d, e];
    assert Concat([c, d, e]) == c + d + e;
    ConcatCons(b, [c, d, e]);
    assert [b, c, d, e] == [b] + [c, d, e];
    assert Concat([b, c, d, e]) == b + (c + d + e);
    assert b + (c + d + e) == b + c + d + e;
    ConcatCons(a, [b, c, d, e]);
    assert [a, b, c, d, e] == [a] + [b, c, d, e];
    assert Concat([a, b, c, d, e]) == a + (b + c + d + e);
  }

  lemma Concat7(a: seq<Field>, b: seq<Field>, c: seq<Field>, d: seq<Field>, e: seq<Field>, f: seq<Field>, g: seq<Field>)
    ensures Concat([a, b, c, d, e, f, g]) == a + b + c + d + e + f + g
  {
    Concat5(c, d, e, f, g);
    ConcatCons(b, [c, d, e, f, g]);
    ConcatCons(a, [b, c, d, e, f, g]);
    assert [a, b, c, d, e, f, g] == [a] + [b, c, d, e, f, g];
    assert [b, c, d, e, f, g] == [b] + [c, d, e, f, g];
  }

  /** SizeFields and ItemFields written out as plain concatenations. */
  lemma SizeFieldsFlat(asize: i64, size: i64, dev: u64, ino: u64, mtime: u64)
    ensures SizeFields(asize, size, dev, ino, mtime)
         == IfSet(asize != 0, FSigned(ASize, asize)) + IfSet(size != 0, FSigned(DSize, size))
            + IfSet(dev != 0, FUnsigned(Dev, dev)) + IfSet(ino != 0, FUnsigned(Ino, ino))
            + IfSet(mtime != 0, FUnsigned(MTime, mtime))
  {
    Concat5(IfSet(asize != 0, FSigned(ASize, asize)), IfSet(size != 0, FSigned(DSize, size)),
            IfSet(dev != 0, FUnsigned(Dev, dev)), IfSet(ino != 0, FUnsigned(Ino, ino)),
            IfSet(mtime != 0, FUnsigned(MTime, mtime)));
  }

  lemma ItemFieldsFlat(c: Child)
    ensures ItemFields(c)
         == IfSet(c.uid != 0, FUnsigned(Uid, c.uid)) + IfSet(c.gid != 0, FUnsigned(Gid, c.gid))
            + IfSet(c.mode != 0, FUnsigned(Mode, c.mode)) + LinkFields(c.nlink)
            + IfSet(FErr in c.flags, FTrue(ReadError)) + IfSet(NotReg(c.flags), FTrue(NotRegular))
            + ExcludedFields(c.flags)
  {
    Concat7(IfSet(c.uid != 0, FUnsigned(Uid, c.uid)), IfSet(c.gid != 0, FUnsigned(Gid, c.gid)),
            IfSet(c.mode != 0, FUnsigned(Mode, c.mode)), LinkFields(c.nlink),
            IfSet(FErr in c.flags, FTrue(ReadError)), IfSet(NotReg(c.flags), FTrue(NotRegular)),
            ExcludedFields(c.flags));
  }

  /** The members write_cache_child writes after the name, in order. */
  function ChildFields(c: Child): seq<Field> {
    SizeFields(c.asize, c.size, c.dev, c.ino, c.mtime) + ItemFields(c)
  }

  /** An info object: the name member first, then the others. */
  function InfoObject(name: string, fs: seq<Field>): string {
    "{" + FieldText(FName(name)) + MoreFields(fs) + "}"
  }

  /** Every item of a tree has a name (write_cache_child dereferences it). */
  predicate Named(c: Child)
    decreases c
  {
    c.name.Some? && AllNamed(c.children)
  }

  predicate AllNamed(cs: seq<Child>)
    decreases cs
  {
    forall i | 0 <= i < |cs| :: Named(cs[i])
  }

  /** write_cache_child: `[` for a directory, the info object, then each
      nested item on its own line, then `]` for a directory. */
  function WriteChild(c: Child): string
    requires Named(c)
    decreases c, 1
  {
    var dir := FDir in c.flags;
    (if dir then "[" else "")
      + InfoObject(c.name.value, ChildFields(c))
      + WriteNested(c.children)
      + (if dir then "]" else "")
  }

  /** The nested-items loop: `,\n` before each item. */
  function WriteNested(cs: seq<Child>): string
    requires AllNamed(cs)
    decreases cs, 0
  {
    if cs == [] then "" else ",\n" + WriteChild(cs[0]) + WriteNested(cs[1..])
  }

  /** The members the per-entry writer of dir_cache_save writes after the
      path. The entry's item count is not written. */
  function EntryFields(e: EntryVal): seq<Field> {
    SizeFields(e.asize, e.size, e.dev, e.ino, e.mtime)
  }

  /** One saved entry, without the `,\n` that precedes it. */
  function EntryText(e: EntryVal): string
    requires AllNamed(e.children)
  {
    "[" + InfoObject(e.path, EntryFields(e)) + WriteNested(e.children) + "]"
  }

  /** The file header: format version 1.2 and a metadata object. */
  function HeaderText(progname: string, progver: string, timestamp: u64): string {
    "[1,2," + Metadata(progname, progver, timestamp)
  }

  /** The metadata object of the header; the program name and version are
      written as they are, without escaping. */
  function Metadata(progname: string, progver: string, timestamp: u64): string {
    "{" + (MetaString("progname", progname)
      + (MetaString("progver", progver) + MetaNumber("timestamp", Digits(timestamp))))
  }

  /** A metadata member with a string value, and the comma after it. */
  function MetaString(k: string, v: string): string {
    ("\"" + k + "\":") + (("\"" + v + "\"") + ",")
  }

  /** A metadata member with a number, and the brace that closes the object. */
  function MetaNumber(k: string, d: string): string {
    ("\"" + k + "\":") + (d + "}")
  }

  predicate EntriesNamed(es: seq<EntryVal>) {
    forall i | 0 <= i < |es| :: AllNamed(es[i].children)
  }

  /** The saved entries, in order, each on a line of its own after a
      comma: `,\n` before each. */
  function EntriesText(es: seq<EntryVal>): string
    requires EntriesNamed(es)
  {
    if es == [] then "" else ",\n" + EntryText(es[0]) + EntriesText(es[1..])
  }

  /** The whole file dir_cache_save writes for the given used entries. */
  function SaveText(header: string, es: seq<EntryVal>): string
    requires EntriesNamed(es)
  {
    header + EntriesText(es) + "]\n"
  }

  /** The per-entry writer writes exactly what write_cache_child would write
      for a directory item with the entry's path, sizes and triple and no
      other metadata: an entry and a directory child share one format. */
  function EntryAsChild(e: EntryVal): (c: Child)
    ensures c.name == Some(e.path) && c.flags == {FDir} && c.children == e.children
  {
    Child(Some(e.path), {FDir}, e.size, e.asize, e.ino, e.dev, e.mtime, 0, 0, 0, 0, e.children)
  }

  lemma EntryTextAsChild(e: EntryVal)
    requires AllNamed(e.children)
    ensures Named(EntryAsChild(e))
    ensures EntryText(e) == WriteChild(EntryAsChild(e))
  {
    ChildFieldsOfEntry(e);
  }

  /** A directory item with no metadata beyond an entry's has the entry's
      members. */
  lemma ChildFieldsOfEntry(e: EntryVal)
    ensures ChildFields(EntryAsChild(e)) == EntryFields(e)
  {
    var c := EntryAsChild(e);
    ItemFieldsFlat(c);
    assert ItemFields(c) == [];
    assert EntryFields(e) + [] == EntryFields(e);
  }
}

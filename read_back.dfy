/** Reading back what write_cache_child writes, member by member: the key
    and its colon come back as written, each value comes back into the
    field its key names (parse_item_info in src/dir_cache.c), and reading
    all of an item's members in order leaves exactly ReadInfo in the
    record: what of an item survives a save and a load. */
module ReadBack {
  import opened Common
  import opened CacheTypes
  import opened Decimal
  import opened JsonEscape
  import opened JsonSpec
  import opened Writer
  import opened RoundTripText

  /** A byte the writer writes as itself and the reader keeps as itself. */
  predicate Plain(c: char) { !HasShortEscape(c) && !IsControl(c) }

  predicate AllPlain(t: string) { forall i | 0 <= i < |t| :: Plain(t[i]) }

  lemma PlainNoNul(t: string)
    requires AllPlain(t)
    ensures '\0' !in t && CStr(t) == t
  {
    forall i | 0 <= i < |t| ensures t[i] != '\0' {
      assert Plain(t[i]);
    }
  }

  /** The name the reader keeps of a written name: the bytes that survive
      escaping, cut to what the name buffer (MAX_VAL bytes) holds. */
  function ReadName(name: string): string {
    var u := Unescaped(CStr(name));
    u[..Min(|u|, Cap(MAX_VAL))]
  }

  /** A read-back name holds no NUL, so the reader's strdup keeps all of it;
      a plain name that fits the buffer comes back unchanged. */
  lemma ReadNameKept(name: string)
    ensures '\0' !in ReadName(name) && CStr(ReadName(name)) == ReadName(name)
    ensures AllPlain(name) && |name| < MAX_VAL ==> ReadName(name) == name
  {
    var u := Unescaped(CStr(name));
    UnescapedKept(CStr(name));
    var r := ReadName(name);
    forall i | 0 <= i < |r| ensures r[i] != '\0' {
      assert Kept(u[i]);
    }
    if AllPlain(name) && |name| < MAX_VAL {
      PlainNoNul(name);
      assert forall i | 0 <= i < |name| :: Kept(name[i]);
      assert u == name;
      assert u[..|u|] == u;
    }
  }

  /** What reading one member does to the item being filled in. */
  function ApplyField(ch: Child, f: Field): Child {
    match f
    case FName(t) => ch.(name := Some(ReadName(t)))
    case FSigned(k, v) => if k == ASize then ch.(asize := v) else ch.(size := v)
    case FUnsigned(k, n) => SetUnsigned(ch, UnsignedName(k), n)
    case FTrue(k) =>
      (match k
       case HLnkC => ch.(flags := ch.flags + {FHlnkC})
       case ReadError => ch.(flags := ch.flags + {FErr})
       case NotRegular => ch.(flags := ch.flags - {FFile}))
    case FExcluded(r) => ch.(flags := ch.flags + {ExcludedFlag(ReasonName(r))})
  }

  /** Reading the members in order. */
  function ApplyFields(ch: Child, fs: seq<Field>): Child
    decreases |fs|
  {
    if fs == [] then ch else ApplyFields(ApplyField(ch, fs[0]), fs[1..])
  }

  /** The key of a member and the text of its value. */
  function KeyName(f: Field): string {
    match f
    case FName(_) => "name"
    case FSigned(k, _) => SignedName(k)
    case FUnsigned(k, _) => UnsignedName(k)
    case FTrue(k) => TrueName(k)
    case FExcluded(_) => "excluded"
  }

  function ValueText(f: Field): string {
    match f
    case FName(t) => "\"" + Escape(CStr(t)) + "\""
    case FSigned(_, v) => SignedDigits(v)
    case FUnsigned(_, n) => Digits(n)
    case FTrue(_) => "true"
    case FExcluded(r) => "\"" + ReasonName(r) + "\""
  }

  /** Every member the writer writes is a plain key, quoted, a colon and
      the value; the keys fit the reader's key buffer and are written as
      they are. */
  lemma FieldTextSplit(f: Field)
    ensures FieldText(f) == "\"" + KeyName(f) + "\":" + ValueText(f)
    ensures AllPlain(KeyName(f)) && |KeyName(f)| < MAX_VAL
  {
    match f
    case FName(t) => QuotedValueSplit("\"name\":\"", "name", Escape(CStr(t)));
    case FSigned(k, v) => SignedPlain(k);
    case FUnsigned(k, n) => UnsignedPlain(k);
    case FTrue(k) => TruePlain(k);
    case FExcluded(r) => QuotedValueSplit("\"excluded\":\"", "excluded", ReasonName(r));
  }

  lemma QuotedValueSplit(head: string, k: string, e: string)
    requires head == "\"" + k + "\":\"" && AllPlain(k) && |k| < MAX_VAL
    ensures head + e + "\"" == "\"" + k + "\":" + ("\"" + e + "\"")
    ensures AllPlain(k) && |k| < MAX_VAL
  {
  }

  lemma SignedPlain(k: SignedKey)
    ensures AllPlain(SignedName(k)) && |SignedName(k)| < MAX_VAL
  {
    match k
    case ASize =>
    case DSize =>
  }

  lemma UnsignedPlain(k: UnsignedKey)
    ensures AllPlain(UnsignedName(k)) && |UnsignedName(k)| < MAX_VAL
  {
    match k
    case Dev =>
    case Ino =>
    case MTime =>
    case Uid =>
    case Gid =>
    case Mode =>
    case NLink =>
  }

  lemma TruePlain(k: TrueKey)
    ensures AllPlain(TrueName(k)) && |TrueName(k)| < MAX_VAL
  {
    match k
    case HLnkC =>
    case ReadError =>
    case NotRegular =>
  }

  lemma ReasonPlain(r: Reason)
    ensures AllPlain(ReasonName(r)) && |ReasonName(r)| < EXCL_BUF
  {
    match r
    case Pattern =>
    case OtherFs =>
    case KernFs =>
    case FrmLnk =>
  }

  /** A written key and its colon: the reader's key string is the key
      itself, and the colon is consumed. */
  lemma KeyRead(s: string, p: nat, line: int, k: string)
    requires AllPlain(k) && |k| < MAX_VAL && IsAt(s, p, "\"" + k + "\":")
    ensures ParseString(s, Cursor(p, line), MAX_VAL) == Some(Parsed(k, Cursor(p + |k| + 2, line)))
    ensures Expect(s, Cursor(p + |k| + 2, line), ':') == Some(Cursor(p + |k| + 3, line))
    ensures CStr(k) == k
  {
    KeyColonSplit(s, p, k);
    ParsePlainString(s, p, line, k, MAX_VAL);
    ColonRead(s, p + |k| + 2, line);
    PlainNoNul(k);
  }

  lemma KeyColonSplit(s: string, p: nat, k: string)
    requires IsAt(s, p, "\"" + k + "\":")
    ensures IsAt(s, p, "\"" + k + "\"") && p + |k| + 2 < |s| && s[p + |k| + 2] == ':'
  {
    assert "\"" + k + "\":" == ("\"" + k + "\"") + ":";
    IsAtSplit(s, p, "\"" + k + "\"", ":");
    IsAtChar(s, p + |k| + 2, ":", 0);
  }

  lemma ColonRead(s: string, q: nat, line: int)
    requires q < |s| && s[q] == ':'
    ensures Expect(s, Cursor(q, line), ':') == Some(Cursor(q + 1, line))
  {
    assert SkipWs(s, Cursor(q, line)) == Cursor(q, line);
  }

  /** A member whose key and colon were read as above is read as the value
      under that key. */
  lemma MemberAt(s: string, c: Cursor, ch: Child, k: string, c1: Cursor, c2: Cursor)
    requires ParseString(s, c, MAX_VAL) == Some(Parsed(k, c1)) && Expect(s, c1, ':') == Some(c2)
    ensures Member(s, c, ch) == FieldValue(s, c2, CStr(k), ch)
  {
  }

  /** Whether a member ends where the reader stops reading it: a `,` or
      the `}` of the object follows. */
  predicate MemberEnd(s: string, q: nat) {
    q < |s| && (s[q] == ',' || s[q] == '}')
  }

  lemma NameValue(s: string, q: nat, line: int, t: string, ch: Child)
    requires IsAt(s, q, "\"" + Escape(CStr(t)) + "\"")
    ensures FieldValue(s, Cursor(q, line), "name", ch)
         == Some(Parsed(ApplyField(ch, FName(t)), Cursor(q + |Escape(CStr(t))| + 2, line)))
  {
    var next := Cursor(q + |Escape(CStr(t))| + 2, line);
    assert ParseString(s, Cursor(q, line), MAX_VAL) == Some(Parsed(ReadName(t), next)) by {
      ParseStringEscaped(s, q, line, CStr(t), MAX_VAL);
    }
    assert CStr(ReadName(t)) == ReadName(t) by {
      ReadNameKept(t);
    }
    NameKey(s, Cursor(q, line), ch, ReadName(t), next);
  }

  /** The `name` branch stores the string read, cut at its first NUL. */
  lemma NameKey(s: string, c: Cursor, ch: Child, v: string, next: Cursor)
    requires ParseString(s, c, MAX_VAL) == Some(Parsed(v, next))
    ensures FieldValue(s, c, "name", ch) == Some(Parsed(ch.(name := Some(CStr(v))), next))
  {
  }

  lemma SignedValue(s: string, q: nat, line: int, k: SignedKey, v: i64, ch: Child)
    requires IsAt(s, q, SignedDigits(v))
    requires q + |SignedDigits(v)| < |s| && !IsDigit(s[q + |SignedDigits(v)|])
    ensures FieldValue(s, Cursor(q, line), SignedName(k), ch)
         == Some(Parsed(ApplyField(ch, FSigned(k, v)), Cursor(q + |SignedDigits(v)|, line)))
  {
    ParseIntDigits(s, q, line, v);
  }

  lemma UnsignedValue(s: string, q: nat, line: int, k: UnsignedKey, n: u64, ch: Child)
    requires IsAt(s, q, Digits(n))
    requires q + |Digits(n)| < |s| && !IsDigit(s[q + |Digits(n)|]) && s[q + |Digits(n)|] != '.'
    ensures FieldValue(s, Cursor(q, line), UnsignedName(k), ch)
         == Some(Parsed(ApplyField(ch, FUnsigned(k, n)), Cursor(q + |Digits(n)|, line)))
  {
    ParseUintDigits(s, q, line, n);
  }

  lemma TrueValue(s: string, q: nat, e: nat, line: int, k: TrueKey, ch: Child)
    requires q < |s| && s[q] == 't' && e == q + 4
    ensures FieldValue(s, Cursor(q, line), TrueName(k), ch) == Some(Parsed(ApplyField(ch, FTrue(k)), Cursor(e, line)))
  {
    assert SkipWs(s, Cursor(q, line)) == Cursor(q, line);
  }

  lemma ExcludedValue(s: string, q: nat, line: int, r: Reason, ch: Child)
    requires IsAt(s, q, "\"" + ReasonName(r) + "\"")
    ensures FieldValue(s, Cursor(q, line), "excluded", ch)
         == Some(Parsed(ApplyField(ch, FExcluded(r)), Cursor(q + |ReasonName(r)| + 2, line)))
  {
    ReasonPlain(r);
    ReasonRead(s, q, line, ReasonName(r), ch);
  }

  /** Any `excluded` reason short enough for the reader's 16-byte buffer and
      with nothing to escape adds the flag ExcludedFlag gives it: an unknown
      reason adds EXL, `othfs` is read like `otherfs`. */
  lemma ReasonRead(s: string, q: nat, line: int, t: string, ch: Child)
    requires AllPlain(t) && |t| < EXCL_BUF && IsAt(s, q, "\"" + t + "\"")
    ensures FieldValue(s, Cursor(q, line), "excluded", ch)
         == Some(Parsed(ch.(flags := ch.flags + {ExcludedFlag(t)}), Cursor(q + |t| + 2, line)))
  {
    ParsePlainString(s, q, line, t, EXCL_BUF);
    PlainNoNul(t);
    ExcludedDispatch(s, Cursor(q, line), ch, Parsed(t, Cursor(q + |t| + 2, line)));
  }

  /** The `excluded` key reads a string into the 16-byte buffer and adds
      the flag its C string names. */
  lemma ExcludedDispatch(s: string, c: Cursor, ch: Child, p: Parsed<string>)
    requires ParseString(s, c, EXCL_BUF) == Some(p)
    ensures FieldValue(s, c, "excluded", ch) == Some(Parsed(ch.(flags := ch.flags + {ExcludedFlag(CStr(p.v))}), p.next))
  {
  }

  lemma {:induction false} ApplyFieldsConcat(ch: Child, a: seq<Field>, b: seq<Field>)
    ensures ApplyFields(ch, a + b) == ApplyFields(ApplyFields(ch, a), b)
    decreases |a|
  {
    if a == [] {
      assert a + b == b;
    } else {
      assert (a + b)[0] == a[0] && (a + b)[1..] == a[1..] + b;
      ApplyFieldsConcat(ApplyField(ch, a[0]), a[1..], b);
    }
  }

  lemma ApplyOne(ch: Child, f: Field)
    ensures ApplyFields(ch, [f]) == ApplyField(ch, f)
  {
    assert [f][1..] == [];
  }

  lemma ApplyIfSet(ch: Child, cond: bool, f: Field)
    ensures ApplyFields(ch, IfSet(cond, f)) == if cond then ApplyField(ch, f) else ch
  {
    if cond {
      ApplyOne(ch, f);
    }
  }

  /** Reading the sizes and the triple: a member left out (a zero) leaves
      the value the item already had. */
  lemma SizesRead(ch: Child, asize: i64, size: i64, dev: u64, ino: u64, mtime: u64)
    ensures ApplyFields(ch, SizeFields(asize, size, dev, ino, mtime))
         == ch.(asize := if asize != 0 then asize else ch.asize,
                size := if size != 0 then size else ch.size,
                dev := if dev != 0 then dev else ch.dev,
                ino := if ino != 0 then ino else ch.ino,
                mtime := if mtime != 0 then mtime else ch.mtime)
  {
    SizeFieldsFlat(asize, size, dev, ino, mtime);
    var a := IfSet(asize != 0, FSigned(ASize, asize));
    var b := IfSet(size != 0, FSigned(DSize, size));
    var d := IfSet(dev != 0, FUnsigned(Dev, dev));
    var i := IfSet(ino != 0, FUnsigned(Ino, ino));
    var m := IfSet(mtime != 0, FUnsigned(MTime, mtime));
    ApplyFieldsConcat(ch, a + b + d + i, m);
    ApplyFieldsConcat(ch, a + b + d, i);
    ApplyFieldsConcat(ch, a + b, d);
    ApplyFieldsConcat(ch, a, b);
    var c1 := ApplyFields(ch, a);
    ApplyIfSet(ch, asize != 0, FSigned(ASize, asize));
    var c2 := ApplyFields(c1, b);
    ApplyIfSet(c1, size != 0, FSigned(DSize, size));
    var c3 := ApplyFields(c2, d);
    ApplyIfSet(c2, dev != 0, FUnsigned(Dev, dev));
    var c4 := ApplyFields(c3, i);
    ApplyIfSet(c3, ino != 0, FUnsigned(Ino, ino));
    ApplyIfSet(c4, mtime != 0, FUnsigned(MTime, mtime));
  }

  /** The parts of ItemFields: ownership and mode, the hard-link pair, and
      the flag members. */
  function OwnerFields(c: Child): seq<Field> {
    IfSet(c.uid != 0, FUnsigned(Uid, c.uid))
      + IfSet(c.gid != 0, FUnsigned(Gid, c.gid))
      + IfSet(c.mode != 0, FUnsigned(Mode, c.mode))
  }

  function MarkFields(flags: set<Flag>): seq<Field> {
    IfSet(FErr in flags, FTrue(ReadError))
      + IfSet(NotReg(flags), FTrue(NotRegular))
      + ExcludedFields(flags)
  }

  lemma ItemFieldsParts(c: Child)
    ensures ItemFields(c) == OwnerFields(c) + LinkFields(c.nlink) + MarkFields(c.flags)
  {
    ItemFieldsFlat(c);
  }

  /** uid, gid and mode come back as written; each fits its field, so the
      reader's truncation keeps it. */
  lemma OwnerRead(ch: Child, c: Child)
    ensures ApplyFields(ch, OwnerFields(c)) == ch.(uid := if c.uid != 0 then c.uid else ch.uid,
                                                  gid := if c.gid != 0 then c.gid else ch.gid,
                                                  mode := if c.mode != 0 then c.mode else ch.mode)
  {
    var u := IfSet(c.uid != 0, FUnsigned(Uid, c.uid));
    var g := IfSet(c.gid != 0, FUnsigned(Gid, c.gid));
    var m := IfSet(c.mode != 0, FUnsigned(Mode, c.mode));
    ApplyFieldsConcat(ch, u + g, m);
    ApplyFieldsConcat(ch, u, g);
    ApplyIfSet(ch, c.uid != 0, FUnsigned(Uid, c.uid));
    var c1 := ApplyFields(ch, u);
    ApplyIfSet(c1, c.gid != 0, FUnsigned(Gid, c.gid));
    var c2 := ApplyFields(c1, g);
    ApplyIfSet(c2, c.mode != 0, FUnsigned(Mode, c.mode));
  }

  /** `"hlnkc":true,"nlink":n`, written only when n is above 1. */
  lemma LinkRead(ch: Child, nlink: u32)
    ensures ApplyFields(ch, LinkFields(nlink))
         == if nlink > 1 then ch.(nlink := nlink, flags := ch.flags + {FHlnkC}) else ch
  {
    if nlink > 1 {
      var fs := LinkFields(nlink);
      var c1 := ApplyField(ch, fs[0]);
      assert fs[1..] == [fs[1]];
      ApplyOne(c1, fs[1]);
    }
  }

  /** The exclusion flag that survives: only the one of highest priority,
      pattern > otherfs > kernfs > frmlnk. */
  function ExclusionKept(flags: set<Flag>): set<Flag> {
    if FExl in flags then {FExl}
    else if FOthFs in flags then {FOthFs}
    else if FKernFs in flags then {FKernFs}
    else if FFrmLnk in flags then {FFrmLnk}
    else {}
  }

  /** The reason written, read back, names the flag of highest priority. */
  lemma ExclusionRead(flags: set<Flag>)
    ensures ExcludedReason(flags).Some? ==> {ExcludedFlag(ReasonName(ExcludedReason(flags).value))} == ExclusionKept(flags)
    ensures ExcludedReason(flags).None? ==> ExclusionKept(flags) == {}
  {
  }

  /** read_error adds ERR, notreg takes FILE away, and the exclusion
      reason adds the flag of highest priority. */
  lemma MarksRead(ch: Child, flags: set<Flag>)
    ensures ApplyFields(ch, MarkFields(flags))
         == ch.(flags := ((ch.flags + (if FErr in flags then {FErr} else {}))
                          - (if NotReg(flags) then {FFile} else {}))
                         + ExclusionKept(flags))
  {
    var e := IfSet(FErr in flags, FTrue(ReadError));
    var n := IfSet(NotReg(flags), FTrue(NotRegular));
    var x := ExcludedFields(flags);
    ApplyFieldsConcat(ch, e + n, x);
    ApplyFieldsConcat(ch, e, n);
    ApplyIfSet(ch, FErr in flags, FTrue(ReadError));
    var c1 := ApplyFields(ch, e);
    ApplyIfSet(c1, NotReg(flags), FTrue(NotRegular));
    var c2 := ApplyFields(c1, n);
    ExclusionRead(flags);
    if ExcludedReason(flags).Some? {
      ApplyOne(c2, FExcluded(ExcludedReason(flags).value));
    }
  }

  /** The flags the reader ends up with: DIR for a directory, FILE unless
      `notreg` was written, HLNKC for a counted hard link, ERR, and the
      exclusion flag of highest priority. Every other flag is lost. */
  function ReadFlags(c: Child): set<Flag> {
    (if FDir in c.flags then {FDir} else if NotReg(c.flags) then {} else {FFile})
      + (if c.nlink > 1 then {FHlnkC} else {})
      + (if FErr in c.flags then {FErr} else {})
      + ExclusionKept(c.flags)
  }

  /** The flags an item's reading starts from (parse_item). */
  function StartFlags(c: Child): set<Flag> {
    if FDir in c.flags then {FDir} else {FFile}
  }

  /** The flag arithmetic of the members ends in ReadFlags. */
  lemma FlagsRead(c: Child, after: set<Flag>)
    requires after == ((StartFlags(c) + (if c.nlink > 1 then {FHlnkC} else {})
                         + (if FErr in c.flags then {FErr} else {}))
                      - (if NotReg(c.flags) then {FFile} else {}))
                      + ExclusionKept(c.flags)
    ensures after == ReadFlags(c)
  {
  }

  /** Reading the members only write_cache_child writes, from a record
      whose ownership, mode and link count are still zero. */
  lemma ItemFieldsRead(ch: Child, c: Child)
    requires ch.uid == 0 && ch.gid == 0 && ch.mode == 0 && ch.nlink == 0
    requires ch.flags == StartFlags(c)
    ensures ApplyFields(ch, ItemFields(c))
         == ch.(uid := c.uid, gid := c.gid, mode := c.mode,
                nlink := if c.nlink > 1 then c.nlink else 0, flags := ReadFlags(c))
  {
    ItemFieldsParts(c);
    var o := OwnerFields(c);
    var l := LinkFields(c.nlink);
    ApplyFieldsConcat(ch, o + l, MarkFields(c.flags));
    ApplyFieldsConcat(ch, o, l);
    OwnerRead(ch, c);
    var c1 := ApplyFields(ch, o);
    LinkRead(c1, c.nlink);
    var c2 := ApplyFields(c1, l);
    MarksRead(c2, c.flags);
    FlagsRead(c, ApplyFields(c2, MarkFields(c.flags)).flags);
  }

  /** The info object of an item read back below a directory on device
      `parentDev`: the name as ReadName keeps it, the flags as ReadFlags
      says, the sizes, the inode, the mtime, uid, gid and mode as written
      (a zero is left out and read as zero), the device as written unless it
      was zero, in which case the parent's; nlink only when above 1. */
  function ReadInfo(c: Child, parentDev: u64): Child
    requires c.name.Some?
  {
    Child(Some(ReadName(c.name.value)), ReadFlags(c), c.size, c.asize, c.ino,
          if c.dev != 0 then c.dev else parentDev, c.mtime, c.uid, c.gid,
          if c.nlink > 1 then c.nlink else 0, c.mode, [])
  }

  /** Reading, in order, the name and every member write_cache_child writes
      for an item, into the blank record parse_item starts from (its start
      flags and the parent's device), gives ReadInfo. */
  lemma InfoRead(c: Child, dev: u64)
    requires c.name.Some?
    ensures ApplyFields(ApplyField(BlankChild(StartFlags(c)).(dev := dev), FName(c.name.value)), ChildFields(c))
         == ReadInfo(c, dev)
  {
    var ch := ApplyField(BlankChild(StartFlags(c)).(dev := dev), FName(c.name.value));
    var sf := SizeFields(c.asize, c.size, c.dev, c.ino, c.mtime);
    ApplyFieldsConcat(ch, sf, ItemFields(c));
    SizesRead(ch, c.asize, c.size, c.dev, c.ino, c.mtime);
    ItemFieldsRead(ApplyFields(ch, sf), c);
  }

  /** A saved entry's members, read back the same way, give its path (as
      ReadName keeps it), sizes, device, inode and mtime, flagged DIR. */
  lemma EntryRead(e: EntryVal)
    ensures ApplyFields(ApplyField(BlankChild({FDir}), FName(e.path)), EntryFields(e))
         == ReadInfo(EntryAsChild(e), 0)
  {
    ChildFieldsOfEntry(e);
    InfoRead(EntryAsChild(e), 0);
  }
}

/** The cache-file reader of src/dir_cache.c (parse_skip_ws .. parse_item and
    the header check of dir_cache_load) as functions of the input text and a
    cursor. The whole file is one sequence; a position at or past its end
    reads as end of input. */
module JsonSpec {
  import opened Common
  import opened CacheTypes
  import opened Decimal

  /** Size of the parser's key and name buffers (MAX_VAL). */
  const MAX_VAL: int := 32768
  /** Size of the buffer for an `excluded` reason. */
  const EXCL_BUF: int := 16

  /** The reader's position and line counter. The position may run past the
      end: the fixed-width skips for literals do not check the length. */
  datatype Cursor = Cursor(pos: nat, line: int)

  /** Characters left to read: the termination measure of every loop. */
  function Left(s: string, c: Cursor): nat {
    if c.pos < |s| then |s| - c.pos else 0
  }

  function Step(c: Cursor, k: nat): Cursor { Cursor(c.pos + k, c.line) }

  /** The character under the cursor, NUL at end of input (parse_peek). */
  function At(s: string, c: Cursor): char {
    if c.pos < |s| then s[c.pos] else '\0'
  }

  predicate IsWs(ch: char) { ch == ' ' || ch == '\t' || ch == '\r' || ch == '\n' }

  /** Number of newlines in s[i..j]. */
  function NewLines(s: string, i: nat, j: nat): nat
    requires i <= j <= |s|
    decreases j - i
  {
    if i == j then 0 else (if s[i] == '\n' then 1 else 0) + NewLines(s, i + 1, j)
  }

  /** parse_skip_ws: skip blanks, counting newlines. */
  function SkipWs(s: string, c: Cursor): (r: Cursor)
    ensures c.pos <= r.pos && Left(s, r) <= Left(s, c)
    ensures c.pos >= |s| ==> r == c
    ensures c.pos < |s| ==> r.pos <= |s| && r.line == c.line + NewLines(s, c.pos, r.pos)
    ensures r.pos < |s| ==> !IsWs(s[r.pos])
    decreases Left(s, c)
  {
    if c.pos < |s| && IsWs(s[c.pos]) then
      SkipWs(s, Cursor(c.pos + 1, if s[c.pos] == '\n' then c.line + 1 else c.line))
    else c
  }

  /** parse_peek: the next character after blanks, and the cursor there. */
  function Peek(s: string, c: Cursor): char { At(s, SkipWs(s, c)) }

  /** parse_expect: skip blanks, then consume `ch` or fail. */
  function Expect(s: string, c: Cursor, ch: char): (r: Option<Cursor>)
    ensures r.Some? <==> (SkipWs(s, c).pos < |s| && s[SkipWs(s, c).pos] == ch)
    ensures r.Some? ==> r.value == Step(SkipWs(s, c), 1) && Left(s, r.value) < Left(s, c)
  {
    var c1 := SkipWs(s, c);
    if c1.pos < |s| && s[c1.pos] == ch then Some(Step(c1, 1)) else None
  }

  /** A value read and the cursor after it. */
  datatype Parsed<+T> = Parsed(v: T, next: Cursor)

  /** The byte a two-character escape stands for; `u` is handled apart. */
  function Unescape(e: char): Option<char> {
    if e == '"' then Some('"')
    else if e == '\\' then Some('\\')
    else if e == '/' then Some('/')
    else if e == 'b' then Some(8 as char)
    else if e == 'f' then Some(12 as char)
    else if e == 'n' then Some('\n')
    else if e == 'r' then Some('\r')
    else if e == 't' then Some('\t')
    else None
  }

  /** Append to a destination of `cap` bytes, which keeps room for its NUL:
      once it holds cap-1 bytes further bytes are dropped. */
  function Push(acc: string, ch: char, cap: int): (r: string)
    ensures |acc| < cap - 1 ==> r == acc + [ch]
    ensures |acc| >= cap - 1 ==> r == acc
  {
    if |acc| < cap - 1 then acc + [ch] else acc
  }

  /** The loop of parse_string after the opening quote, with what has been
      stored so far. */
  function StrBody(s: string, pos: nat, acc: string, cap: int): (r: Option<(string, nat)>)
    requires |acc| <= Cap(cap)
    ensures r.Some? ==> pos < r.value.1 <= |s| && |r.value.0| <= Cap(cap)
    decreases if pos < |s| then |s| - pos else 0
  {
    if pos >= |s| then None
    else if s[pos] == '"' then Some((acc, pos + 1))
    else if s[pos] == '\\' then
      if pos + 1 >= |s| then None
      else if s[pos + 1] == 'u' then StrBody(s, Common.Min(pos + 6, |s|), acc, cap)
      else match Unescape(s[pos + 1])
        case None => None
        case Some(ch) => StrBody(s, pos + 2, Push(acc, ch, cap), cap)
    else StrBody(s, pos + 1, Push(acc, s[pos], cap), cap)
  }

  /** Most bytes a destination of `cap` bytes holds besides its NUL. */
  function Cap(cap: int): nat { if cap >= 1 then cap - 1 else 0 }

  /** parse_string with a destination of `cap` bytes (cap 0 stands for the
      NULL destination of the skip functions, which stores nothing). */
  function ParseString(s: string, c: Cursor, cap: int): (r: Option<Parsed<string>>)
    ensures r.Some? ==> |r.value.v| <= Cap(cap)
    ensures r.Some? ==> Left(s, r.value.next) < Left(s, c) && r.value.next.pos > c.pos
    ensures r.Some? ==> Expect(s, c, '"').Some? && r.value.next.line == SkipWs(s, c).line
  {
    match Expect(s, c, '"')
    case None => None
    case Some(c1) =>
      match StrBody(s, c1.pos, [], cap)
      case None => None
      case Some((v, p)) => Some(Parsed(v, Cursor(p, c1.line)))
  }

  /** parse_uint64: at least one digit, read modulo 2^64 (no overflow check),
      then an optional `.digits` fraction that is skipped. */
  function ParseUint64(s: string, c: Cursor): (r: Option<Parsed<u64>>)
    ensures r.Some? <==> IsDigit(Peek(s, c))
    ensures r.Some? ==> Left(s, r.value.next) < Left(s, c) && r.value.next.line == SkipWs(s, c).line
  {
    var c1 := SkipWs(s, c);
    if !(c1.pos < |s| && IsDigit(s[c1.pos])) then None
    else
      var q := DigitEnd(s, c1.pos);
      var v: u64 := Wrap(Value(s[c1.pos..q]), TWO_64);
      var q' := if q < |s| && s[q] == '.' then DigitEnd(s, q + 1) else q;
      Some(Parsed(v, Cursor(q', c1.line)))
  }

  /** parse_int64: an optional minus and at least one digit; no fraction. The
      source accumulates in int64_t without an overflow check; the model reads
      the result as the two's complement value of the number modulo 2^64. */
  function ParseInt64(s: string, c: Cursor): (r: Option<Parsed<i64>>)
    ensures r.Some? ==> Left(s, r.value.next) < Left(s, c) && r.value.next.line == SkipWs(s, c).line
  {
    var c1 := SkipWs(s, c);
    var neg := c1.pos < |s| && s[c1.pos] == '-';
    var p := if neg then c1.pos + 1 else c1.pos;
    if !(p < |s| && IsDigit(s[p])) then None
    else
      var q := DigitEnd(s, p);
      var mag: int := Value(s[p..q]);
      Some(Parsed(AsSigned64(Wrap(if neg then -mag else mag, TWO_64)), Cursor(q, c1.line)))
  }

  predicate IsNumberChar(ch: char) {
    ch == '-' || ch == '+' || ch == '.' || ch == 'e' || ch == 'E' || IsDigit(ch)
  }

  /** The end of a run of number characters starting at p. */
  function NumberEnd(s: string, p: nat): (r: nat)
    ensures p <= r && (p <= |s| ==> r <= |s|)
    ensures r < |s| ==> !IsNumberChar(s[r])
    decreases if p < |s| then |s| - p else 0
  {
    if p < |s| && IsNumberChar(s[p]) then NumberEnd(s, p + 1) else p
  }

  /** parse_skip_value: a nested object or array, a string, a literal by its
      first letter (t and n skip 4, f skips 5, unchecked), or a number run. */
  function SkipValue(s: string, c: Cursor): (r: Option<Cursor>)
    ensures r.Some? ==> Left(s, r.value) < Left(s, c)
    decreases Left(s, c), 2
  {
    var c1 := SkipWs(s, c);
    var ch := At(s, c1);
    if ch == '{' then SkipObject(s, c1)
    else if ch == '[' then SkipArray(s, c1)
    else if ch == '"' then
      match ParseString(s, c1, 0)
      case None => None
      case Some(p) => Some(p.next)
    else if ch == 't' || ch == 'n' then Some(Step(c1, 4))
    else if ch == 'f' then Some(Step(c1, 5))
    else if ch == '-' || IsDigit(ch) then Some(Cursor(NumberEnd(s, c1.pos), c1.line))
    else None
  }

  /** parse_skip_object. */
  function SkipObject(s: string, c: Cursor): (r: Option<Cursor>)
    ensures r.Some? ==> Left(s, r.value) < Left(s, c)
    decreases Left(s, c), 1
  {
    match Expect(s, c, '{')
    case None => None
    case Some(c1) =>
      if Peek(s, c1) == '}' then Some(Step(SkipWs(s, c1), 1))
      else SkipMembers(s, c1)
  }

  /** The member loop of parse_skip_object: key, colon, value, then `}` or a
      comma and more. */
  function SkipMembers(s: string, c: Cursor): (r: Option<Cursor>)
    ensures r.Some? ==> Left(s, r.value) < Left(s, c)
    decreases Left(s, c), 0
  {
    match ParseString(s, c, 0)
    case None => None
    case Some(k) =>
      match Expect(s, k.next, ':')
      case None => None
      case Some(c2) =>
        match SkipValue(s, c2)
        case None => None
        case Some(c3) =>
          var c4 := SkipWs(s, c3);
          if At(s, c4) == '}' then Some(Step(c4, 1))
          else if At(s, c4) != ',' then None
          else SkipMembers(s, Step(c4, 1))
  }

  /** parse_skip_array. */
  function SkipArray(s: string, c: Cursor): (r: Option<Cursor>)
    ensures r.Some? ==> Left(s, r.value) < Left(s, c)
    decreases Left(s, c), 1
  {
    match Expect(s, c, '[')
    case None => None
    case Some(c1) =>
      if Peek(s, c1) == ']' then Some(Step(SkipWs(s, c1), 1))
      else SkipElements(s, c1)
  }

  /** The element loop of parse_skip_array. */
  function SkipElements(s: string, c: Cursor): (r: Option<Cursor>)
    ensures r.Some? ==> Left(s, r.value) <= Left(s, c)
    decreases Left(s, c), 3
  {
    match SkipValue(s, c)
    case None => None
    case Some(c1) =>
      var c2 := SkipWs(s, c1);
      if At(s, c2) == ']' then Some(Step(c2, 1))
      else if At(s, c2) != ',' then None
      else SkipElements(s, Step(c2, 1))
  }

  /** The flag an `excluded` reason sets; unknown reasons mean a pattern. */
  function ExcludedFlag(reason: string): (f: Flag)
    ensures f in {FExl, FOthFs, FKernFs, FFrmLnk}
    ensures f == FOthFs <==> reason == "otherfs" || reason == "othfs"
    ensures f == FKernFs <==> reason == "kernfs"
    ensures f == FFrmLnk <==> reason == "frmlnk"
    ensures f == FExl <==> reason !in {"otherfs", "othfs", "kernfs", "frmlnk"}
  {
    if reason == "otherfs" || reason == "othfs" then FOthFs
    else if reason == "kernfs" then FKernFs
    else if reason == "frmlnk" then FFrmLnk
    else FExl
  }

  /** A boolean member: `t` sets the flag and skips 4, anything else skips 5. */
  function BoolFlag(s: string, c: Cursor, ch: Child, f: Flag, set_: bool): (r: Parsed<Child>)
    ensures Left(s, r.next) <= Left(s, c)
  {
    var c1 := SkipWs(s, c);
    if At(s, c1) == 't' then
      Parsed(if set_ then ch.(flags := ch.flags + {f}) else ch.(flags := ch.flags - {f}), Step(c1, 4))
    else Parsed(ch, Step(c1, 5))
  }

  /** The value of one info member, dispatched on its key (compared as a C
      string), applied to the item being filled in. */
  function FieldValue(s: string, c: Cursor, key: string, ch: Child): (r: Option<Parsed<Child>>)
    ensures r.Some? ==> Left(s, r.value.next) <= Left(s, c)
  {
    if key == "name" then
      match ParseString(s, c, MAX_VAL)
      case None => None
      case Some(p) => Some(Parsed(ch.(name := Some(CStr(p.v))), p.next))
    else if key == "asize" || key == "dsize" then
      match ParseInt64(s, c)
      case None => None
      case Some(p) => Some(Parsed(if key == "asize" then ch.(asize := p.v) else ch.(size := p.v), p.next))
    else if key in {"dev", "ino", "mtime", "uid", "gid", "mode", "nlink"} then
      match ParseUint64(s, c)
      case None => None
      case Some(p) => Some(Parsed(SetUnsigned(ch, key, p.v), p.next))
    else if key == "hlnkc" then Some(BoolFlag(s, c, ch, FHlnkC, true))
    else if key == "read_error" then Some(BoolFlag(s, c, ch, FErr, true))
    else if key == "notreg" then Some(BoolFlag(s, c, ch, FFile, false))
    else if key == "excluded" then
      match ParseString(s, c, EXCL_BUF)
      case None => None
      case Some(p) => Some(Parsed(ch.(flags := ch.flags + {ExcludedFlag(CStr(p.v))}), p.next))
    else
      match SkipValue(s, c)
      case None => None
      case Some(c1) => Some(Parsed(ch, c1))
  }

  /** Store an unsigned member, truncated to the field's width; an nlink
      above 1 also marks the item as a counted hard link. */
  function SetUnsigned(ch: Child, key: string, v: u64): Child {
    if key == "dev" then ch.(dev := v)
    else if key == "ino" then ch.(ino := v)
    else if key == "mtime" then ch.(mtime := v)
    else if key == "uid" then ch.(uid := Wrap(v, TWO_32))
    else if key == "gid" then ch.(gid := Wrap(v, TWO_32))
    else if key == "mode" then ch.(mode := Wrap(v, TWO_16))
    else if key == "nlink" then
      ch.(nlink := Wrap(v, TWO_32), flags := if v > 1 then ch.flags + {FHlnkC} else ch.flags)
    else ch
  }

  /** parse_item_info: `{`, then members until `}`; the device defaults to
      the parent's. */
  function ItemInfo(s: string, c: Cursor, parentDev: u64, ch: Child): (r: Option<Parsed<Child>>)
    ensures r.Some? ==> Left(s, r.value.next) < Left(s, c)
  {
    match Expect(s, c, '{')
    case None => None
    case Some(c1) => InfoFields(s, c1, ch.(dev := parentDev))
  }

  /** The member loop of parse_item_info: `}` ends the object, anything
      else must be a member. */
  function InfoFields(s: string, c: Cursor, ch: Child): (r: Option<Parsed<Child>>)
    ensures r.Some? ==> Left(s, r.value.next) < Left(s, c)
    decreases Left(s, c), 0
  {
    var c0 := SkipWs(s, c);
    if At(s, c0) == '}' then Some(Parsed(ch, Step(c0, 1)))
    else
      match Member(s, c0, ch)
      case None => None
      case Some(f) => AfterMember(s, f.next, f.v)
  }

  /** One member: a key (compared as a C string), a colon and its value. */
  function Member(s: string, c: Cursor, ch: Child): (r: Option<Parsed<Child>>)
    ensures r.Some? ==> Left(s, r.value.next) < Left(s, c)
  {
    match ParseString(s, c, MAX_VAL)
    case None => None
    case Some(k) =>
      match Expect(s, k.next, ':')
      case None => None
      case Some(c2) => FieldValue(s, c2, CStr(k.v), ch)
  }

  /** After a member: `}` ends the object; the comma before the next key is
      optional, so anything else starts the next member. */
  function AfterMember(s: string, c: Cursor, ch: Child): (r: Option<Parsed<Child>>)
    ensures r.Some? ==> Left(s, r.value.next) < Left(s, c)
    decreases Left(s, c), 1
  {
    var c3 := SkipWs(s, c);
    if At(s, c3) == '}' then Some(Parsed(ch, Step(c3, 1)))
    else InfoFields(s, if At(s, c3) == ',' then Step(c3, 1) else c3, ch)
  }

  /** parse_item: an item is an info object, or, when it starts with `[`, a
      directory: info object, then `,` item ... `]`. Flags default to FILE,
      or DIR for a directory. Nested items inherit the directory's device. */
  function ParseItem(s: string, c: Cursor, parentDev: u64): (r: Option<Parsed<Child>>)
    ensures r.Some? ==> Left(s, r.value.next) < Left(s, c)
    decreases Left(s, c), 1
  {
    var c0 := SkipWs(s, c);
    var isDir := At(s, c0) == '[';
    var c1 := if isDir then SkipWs(s, Step(c0, 1)) else c0;
    match ItemInfo(s, c1, parentDev, BlankChild(if isDir then {FDir} else {FFile}))
    case None => None
    case Some(info) =>
      if !isDir then Some(info)
      else
        match ChildList(s, info.next, info.v.dev, [])
        case None => None
        case Some(kids) => Some(Parsed(info.v.(children := kids.v), kids.next))
  }

  /** The nested-items loop of parse_item, with the items read so far. */
  function ChildList(s: string, c: Cursor, dev: u64, acc: seq<Child>): (r: Option<Parsed<seq<Child>>>)
    ensures r.Some? ==> Left(s, r.value.next) < Left(s, c)
    decreases Left(s, c), 0
  {
    var c0 := SkipWs(s, c);
    if At(s, c0) == ']' then Some(Parsed(acc, Step(c0, 1)))
    else if At(s, c0) != ',' then None
    else
      match ParseItem(s, Step(c0, 1), dev)
      case None => None
      case Some(it) => ChildList(s, it.next, dev, acc + [it.v])
  }

  /** The header of dir_cache_load: `[`, major version exactly 1, `,`, minor
      version, `,`, a skipped metadata object. */
  function Header(s: string): (r: Option<Cursor>)
  {
    match Expect(s, Cursor(0, 1), '[')
    case None => None
    case Some(c1) =>
      match ParseInt64(s, c1)
      case None => None
      case Some(major) =>
        if major.v != 1 then None
        else
          match Expect(s, major.next, ',')
          case None => None
          case Some(c2) =>
            match ParseInt64(s, c2)
            case None => None
            case Some(minor) =>
              match Expect(s, minor.next, ',')
              case None => None
              case Some(c3) => SkipObject(s, c3)
  }

  /** What the top-level loop of dir_cache_load reads: the items in order and
      whether the closing `]` was reached. Items before a syntax error are
      kept (they have already been inserted). */
  datatype LoadParse = LoadParse(items: seq<Child>, ok: bool)

  function TopItems(s: string, c: Cursor, acc: seq<Child>): LoadParse
    decreases Left(s, c)
  {
    var c0 := SkipWs(s, c);
    if At(s, c0) == ']' then LoadParse(acc, true)
    else if At(s, c0) != ',' then LoadParse(acc, false)
    else
      match ParseItem(s, Step(c0, 1), 0)
      case None => LoadParse(acc, false)
      case Some(it) => TopItems(s, it.next, acc + [it.v])
  }

  function ParseCacheFile(s: string): LoadParse {
    match Header(s)
    case None => LoadParse([], false)
    case Some(c) => TopItems(s, c, [])
  }
}

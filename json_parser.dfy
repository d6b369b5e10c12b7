/** The pull parser of src/dir_cache.c as the source runs it: a context whose
    position and line counter advance in loops. Every method is proved to do
    what the function of the same name in JsonSpec says; a position at or
    past the end of the text reads as end of input. */
module JsonParser {
  import opened Common
  import opened CacheTypes
  import opened Decimal
  import opened JsonSpec

  /** Stepping a 64-bit variable: only the remainder of the value so far
      matters. */
  lemma MulAddMod(a: int, k: int, d: int)
    ensures ((a % TWO_64) * k + d) % TWO_64 == (a * k + d) % TWO_64
  {
    var q, r := a / TWO_64, a % TWO_64;
    assert a * k == (q * TWO_64 + r) * k == r * k + (q * k) * TWO_64;
    AddMultipleMod(r * k + d, q * k);
  }

  lemma AddMultipleMod(x: int, j: int)
    ensures (x + j * TWO_64) % TWO_64 == x % TWO_64
  {
    var q, r := x / TWO_64, x % TWO_64;
    assert x + j * TWO_64 == (q + j) * TWO_64 + r;
  }

  /** Two numbers with the same remainder keep it through `* k + d`. */
  lemma CongruentStep(a: int, b: int, k: int, d: int)
    requires a % TWO_64 == b % TWO_64
    ensures (a * k + d) % TWO_64 == (b * k + d) % TWO_64
  {
    MulAddMod(a, k, d);
    MulAddMod(b, k, d);
  }

  /** Negating the wrapped magnitude wraps the negated magnitude. */
  lemma NegatedWrap(m: int, mag: int)
    requires m == Wrap(mag, TWO_64)
    ensures (-m) % TWO_64 == Wrap(-mag, TWO_64)
  {
    CongruentStep(m, mag, -1, 0);
  }

  /** One more digit: the value of the longer run. */
  lemma ValueStep(s: string, start: nat, p: nat)
    requires start <= p < |s| && AllDigits(s[start..p]) && IsDigit(s[p])
    ensures AllDigits(s[start..p + 1])
    ensures Value(s[start..p + 1]) == Value(s[start..p]) * 10 + (s[p] as int - '0' as int)
  {
    assert s[start..p + 1] == s[start..p] + [s[p]];
    assert s[start..p + 1][..p - start] == s[start..p];
  }

  /** Skipping blanks a second time moves nothing. */
  lemma SkipWsTwice(s: string, c: Cursor)
    ensures JsonSpec.SkipWs(s, JsonSpec.SkipWs(s, c)) == JsonSpec.SkipWs(s, c)
  {
  }

  /** Readers that start by skipping blanks read the same after blanks. */
  lemma ParseStringAfterWs(s: string, c: Cursor, cap: int)
    ensures JsonSpec.ParseString(s, JsonSpec.SkipWs(s, c), cap) == JsonSpec.ParseString(s, c, cap)
  {
    SkipWsTwice(s, c);
  }

  lemma SkipMembersAfterWs(s: string, c: Cursor)
    ensures SkipMembers(s, JsonSpec.SkipWs(s, c)) == SkipMembers(s, c)
  {
    ParseStringAfterWs(s, c, 0);
  }

  lemma SkipElementsAfterWs(s: string, c: Cursor)
    ensures SkipElements(s, JsonSpec.SkipWs(s, c)) == SkipElements(s, c)
  {
    SkipWsTwice(s, c);
    assert JsonSpec.SkipValue(s, JsonSpec.SkipWs(s, c)) == JsonSpec.SkipValue(s, c);
  }

  /** A member followed by a comma: the member loop goes on after it. */
  lemma SkipMembersMore(s: string, c: Cursor, k: Cursor, c2: Cursor, c3: Cursor, n: Cursor)
    requires JsonSpec.ParseString(s, c, 0).Some? && JsonSpec.ParseString(s, c, 0).value.next == k
    requires JsonSpec.Expect(s, k, ':') == Some(c2) && JsonSpec.SkipValue(s, c2) == Some(c3)
    requires At(s, JsonSpec.SkipWs(s, c3)) == ',' && n == Step(JsonSpec.SkipWs(s, c3), 1)
    ensures SkipMembers(s, c) == SkipMembers(s, n)
  {
  }

  /** A member of an item's info object followed by anything but `}`: the
      member loop goes on at n, past a comma if there is one. */
  lemma InfoFieldsMore(s: string, c: Cursor, ch: Child, m: Parsed<Child>, n: Cursor)
    requires At(s, JsonSpec.SkipWs(s, c)) != '}'
    requires JsonSpec.Member(s, JsonSpec.SkipWs(s, c), ch) == Some(m)
    requires var c3 := JsonSpec.SkipWs(s, m.next);
      At(s, c3) != '}' && n == (if At(s, c3) == ',' then Step(c3, 1) else c3)
    ensures InfoFields(s, c, ch) == InfoFields(s, n, m.v)
  {
  }

  /** An item after a comma: the nested-items loop goes on at n with it. */
  lemma ChildListMore(s: string, c: Cursor, dev: u64, acc: seq<Child>, it: Parsed<Child>, n: Cursor)
    requires At(s, JsonSpec.SkipWs(s, c)) == ','
    requires JsonSpec.ParseItem(s, Step(JsonSpec.SkipWs(s, c), 1), dev) == Some(it) && n == it.next
    ensures ChildList(s, c, dev, acc) == ChildList(s, n, dev, acc + [it.v])
  {
  }

  /** A top-level item after a comma: the loop of dir_cache_load goes on at
      n with it. */
  lemma TopItemsMore(s: string, c: Cursor, acc: seq<Child>, it: Parsed<Child>, n: Cursor)
    requires At(s, JsonSpec.SkipWs(s, c)) == ','
    requires JsonSpec.ParseItem(s, Step(JsonSpec.SkipWs(s, c), 1), 0) == Some(it) && n == it.next
    ensures JsonSpec.TopItems(s, c, acc) == JsonSpec.TopItems(s, n, acc + [it.v])
  {
  }

  /** An item that does not start with `[` is its info object alone. */
  lemma ParseItemFile(s: string, c: Cursor, parentDev: u64)
    requires At(s, JsonSpec.SkipWs(s, c)) != '['
    ensures JsonSpec.ParseItem(s, c, parentDev)
         == JsonSpec.ItemInfo(s, JsonSpec.SkipWs(s, c), parentDev, BlankChild({FFile}))
  {
  }

  /** A directory item: its info object after the `[`, then its nested
      items. */
  lemma ParseItemDir(s: string, c: Cursor, parentDev: u64, c1: Cursor,
                     info: Option<Parsed<Child>>, kids: Option<Parsed<seq<Child>>>)
    requires At(s, JsonSpec.SkipWs(s, c)) == '['
    requires c1 == JsonSpec.SkipWs(s, Step(JsonSpec.SkipWs(s, c), 1))
    requires info == JsonSpec.ItemInfo(s, c1, parentDev, BlankChild({FDir}))
    requires info.Some? ==> kids == ChildList(s, info.value.next, info.value.v.dev, [])
    ensures JsonSpec.ParseItem(s, c, parentDev)
         == if info.None? || kids.None? then None
            else Some(Parsed(info.value.v.(children := kids.value.v), kids.value.next))
  {
  }

  /** `struct parse_ctx`: the text, the position in it and the line counter. */
  class Parser {
    const s: string
    var pos: nat
    var line: int

    function Cur(): Cursor
      reads this
    {
      Cursor(pos, line)
    }

    /** The context dir_cache_load sets up: at the start, on line 1. */
    constructor (text: string)
      ensures s == text && Cur() == Cursor(0, 1)
    {
      s := text;
      pos := 0;
      line := 1;
    }

    /** parse_skip_ws. */
    method SkipWs()
      modifies this
      ensures Cur() == JsonSpec.SkipWs(s, old(Cur()))
    {
      while pos < |s| && IsWs(s[pos])
        invariant JsonSpec.SkipWs(s, Cur()) == JsonSpec.SkipWs(s, old(Cur()))
        decreases Left(s, Cur())
      {
        if s[pos] == '\n' {
          line := line + 1;
        }
        pos := pos + 1;
      }
    }

    /** parse_expect. On failure the position is past the blanks. */
    method Expect(ch: char) returns (ok: bool)
      modifies this
      ensures ok == JsonSpec.Expect(s, old(Cur()), ch).Some?
      ensures ok ==> Cur() == JsonSpec.Expect(s, old(Cur()), ch).value
      ensures !ok ==> Cur() == JsonSpec.SkipWs(s, old(Cur()))
    {
      SkipWs();
      ok := pos < |s| && s[pos] == ch;
      if ok {
        pos := pos + 1;
      }
    }

    /** parse_peek: the next character after the blanks, NUL at the end. */
    method Peek() returns (ch: char)
      modifies this
      ensures Cur() == JsonSpec.SkipWs(s, old(Cur())) && ch == JsonSpec.Peek(s, old(Cur()))
    {
      SkipWs();
      ch := if pos < |s| then s[pos] else '\0';
    }

    /** parse_string into a destination of `cap` bytes (0: no destination). */
    method ParseString(cap: int) returns (ok: bool, v: string)
      modifies this
      ensures var r := JsonSpec.ParseString(s, old(Cur()), cap);
        ok == r.Some? && (ok ==> v == r.value.v && Cur() == r.value.next)
    {
      v := [];
      ok := Expect('"');
      if !ok {
        return;
      }
      ghost var want := StrBody(s, pos, [], cap);
      ghost var line0 := line;
      while true
        invariant pos <= |s| && |v| <= Cap(cap) && line == line0
        invariant StrBody(s, pos, v, cap) == want
        decreases |s| - pos
      {
        if pos >= |s| {
          return false, v;
        }
        if s[pos] == '"' {
          pos := pos + 1;
          return;
        }
        if s[pos] == '\\' {
          pos := pos + 1;
          if pos >= |s| {
            return false, v;
          }
          if s[pos] == 'u' {
            // a \uXXXX escape is skipped, stopping at the end of the text
            ghost var p := pos - 1;
            pos := pos + 1;
            var i := 0;
            while i < 4 && pos < |s|
              invariant 0 <= i <= 4 && pos == Min(p + 2 + i, |s|) && line == line0
            {
              pos := pos + 1;
              i := i + 1;
            }
            continue;
          }
          var e := Unescape(s[pos]);
          if e.None? {
            return false, v;
          }
          pos := pos + 1;
          v := Push(v, e.value, cap);
          continue;
        }
        v := Push(v, s[pos], cap);
        pos := pos + 1;
      }
    }

    /** The digit loop shared by both number readers: the run of digits at
        the position, read into a 64-bit variable that wraps around. */
    method Digits() returns (ghost start: nat, m: u64)
      requires pos < |s| && IsDigit(s[pos])
      modifies this
      ensures start == old(pos) && pos == DigitEnd(s, start) && line == old(line)
      ensures m == Wrap(Value(s[start..pos]), TWO_64)
    {
      start := pos;
      m := 0;
      while pos < |s| && IsDigit(s[pos])
        invariant start <= pos <= |s| && DigitEnd(s, pos) == DigitEnd(s, start) && line == old(line)
        invariant AllDigits(s[start..pos]) && m == Wrap(Value(s[start..pos]), TWO_64)
        decreases |s| - pos
      {
        var d := s[pos] as int - '0' as int;
        ValueStep(s, start, pos);
        MulAddMod(Value(s[start..pos]), 10, d);
        m := (m * 10 + d) % TWO_64;
        pos := pos + 1;
      }
    }

    /** parse_uint64. */
    method ParseUint64() returns (ok: bool, v: u64)
      modifies this
      ensures var r := JsonSpec.ParseUint64(s, old(Cur()));
        ok == r.Some? && (ok ==> v == r.value.v && Cur() == r.value.next)
    {
      SkipWs();
      if pos >= |s| || !IsDigit(s[pos]) {
        return false, 0;
      }
      ghost var start;
      start, v := Digits();
      if pos < |s| && s[pos] == '.' {
        SkipFraction();
      }
      ok := true;
    }

    /** parse_uint64's fraction: past the `.`, the digits that follow are
        skipped and not read. */
    method SkipFraction()
      requires pos < |s| && s[pos] == '.'
      modifies this
      ensures pos == DigitEnd(s, old(pos) + 1) && line == old(line)
    {
      pos := pos + 1;
      ghost var f := pos;
      while pos < |s| && IsDigit(s[pos])
        invariant f <= pos <= |s| && DigitEnd(s, pos) == DigitEnd(s, f) && line == old(line)
        decreases |s| - pos
      {
        pos := pos + 1;
      }
    }

    /** parse_int64: the digits accumulate in an int64_t, read here as
        wrapping around, and are negated after a minus sign. */
    method ParseInt64() returns (ok: bool, v: i64)
      modifies this
      ensures var r := JsonSpec.ParseInt64(s, old(Cur()));
        ok == r.Some? && (ok ==> v == r.value.v && Cur() == r.value.next)
    {
      SkipWs();
      var neg := false;
      if pos < |s| && s[pos] == '-' {
        neg := true;
        pos := pos + 1;
      }
      if pos >= |s| || !IsDigit(s[pos]) {
        return false, 0;
      }
      ghost var start;
      var m;
      start, m := Digits();
      ghost var mag: int := Value(s[start..pos]);
      if neg {
        NegatedWrap(m, mag);
        v := AsSigned64((-m) % TWO_64);
      } else {
        v := AsSigned64(m);
      }
      assert v == AsSigned64(Wrap(if neg then -mag else mag, TWO_64));
      ok := true;
    }

    /** parse_skip_value. */
    method SkipValue() returns (ok: bool)
      modifies this
      ensures var r := JsonSpec.SkipValue(s, old(Cur()));
        ok == r.Some? && (ok ==> Cur() == r.value)
      decreases Left(s, Cur()), 2
    {
      var ch := Peek();
      if ch == '{' {
        ok := SkipObject();
      } else if ch == '[' {
        ok := SkipArray();
      } else if ch == '"' {
        var v;
        ok, v := ParseString(0);
      } else if ch == 't' || ch == 'n' {
        pos := pos + 4;
        ok := true;
      } else if ch == 'f' {
        pos := pos + 5;
        ok := true;
      } else if ch == '-' || IsDigit(ch) {
        ghost var p := pos;
        while pos < |s| && IsNumberChar(s[pos])
          invariant p <= pos <= |s| && NumberEnd(s, pos) == NumberEnd(s, p) && line == old(JsonSpec.SkipWs(s, Cur())).line
          decreases |s| - pos
        {
          pos := pos + 1;
        }
        ok := true;
      } else {
        ok := false;
      }
    }

    /** parse_skip_object. */
    method SkipObject() returns (ok: bool)
      modifies this
      ensures var r := JsonSpec.SkipObject(s, old(Cur()));
        ok == r.Some? && (ok ==> Cur() == r.value)
      decreases Left(s, Cur()), 1
    {
      ok := Expect('{');
      if !ok {
        return;
      }
      ghost var c1 := Cur();
      var ch := Peek();
      if ch == '}' {
        pos := pos + 1;
        return;
      }
      ghost var want := SkipMembers(s, c1);
      SkipMembersAfterWs(s, c1);
      while true
        invariant want == SkipMembers(s, Cur())
        invariant Left(s, Cur()) < Left(s, old(Cur()))
        decreases Left(s, Cur())
      {
        var more;
        ok, more := SkipMember();
        if !ok || !more {
          return;
        }
      }
    }

    /** One pass of the member loop of parse_skip_object: a key, a colon, a
        value, then `}` ends the object (more is false) or a comma precedes
        another member. */
    method SkipMember() returns (ok: bool, more: bool)
      modifies this
      ensures !ok ==> SkipMembers(s, old(Cur())) == None
      ensures ok && !more ==> SkipMembers(s, old(Cur())) == Some(Cur())
      ensures ok && more ==> SkipMembers(s, old(Cur())) == SkipMembers(s, Cur())
      ensures ok ==> Left(s, Cur()) < Left(s, old(Cur()))
      decreases Left(s, Cur()), 0
    {
      more := false;
      var key;
      ok, key := ParseString(0);
      if !ok {
        return;
      }
      ghost var k := Cur();
      ok := Expect(':');
      if !ok {
        return;
      }
      ghost var c2 := Cur();
      ok := SkipValue();
      if !ok {
        return;
      }
      ghost var c3 := Cur();
      var ch := Peek();
      if ch == '}' {
        pos := pos + 1;
        return;
      }
      if ch != ',' {
        return false, false;
      }
      pos := pos + 1;
      SkipMembersMore(s, old(Cur()), k, c2, c3, Cur());
      more := true;
    }

    /** parse_skip_array. */
    method SkipArray() returns (ok: bool)
      modifies this
      ensures var r := JsonSpec.SkipArray(s, old(Cur()));
        ok == r.Some? && (ok ==> Cur() == r.value)
      decreases Left(s, Cur()), 1
    {
      ok := Expect('[');
      if !ok {
        return;
      }
      ghost var c1 := Cur();
      var ch := Peek();
      if ch == ']' {
        pos := pos + 1;
        return;
      }
      ghost var want := SkipElements(s, c1);
      SkipElementsAfterWs(s, c1);
      while true
        invariant want == SkipElements(s, Cur())
        invariant Left(s, Cur()) < Left(s, old(Cur()))
        decreases Left(s, Cur())
      {
        ok := SkipValue();
        if !ok {
          return;
        }
        ch := Peek();
        if ch == ']' {
          pos := pos + 1;
          return;
        }
        if ch != ',' {
          return false;
        }
        pos := pos + 1;
      }
    }
    /** A boolean member of parse_item_info: `t` sets (or, for notreg,
        clears) the flag and skips 4 characters, anything else skips 5. */
    method BoolFlag(ch: Child, f: Flag, set_: bool) returns (r: Child)
      modifies this
      ensures var x := JsonSpec.BoolFlag(s, old(Cur()), ch, f, set_);
        r == x.v && Cur() == x.next
    {
      var c := Peek();
      if c == 't' {
        pos := pos + 4;
        r := if set_ then ch.(flags := ch.flags + {f}) else ch.(flags := ch.flags - {f});
      } else {
        pos := pos + 5;
        r := ch;
      }
    }

    /** The value of one member of parse_item_info, chosen by its key. */
    method FieldValue(key: string, ch: Child) returns (ok: bool, r: Child)
      modifies this
      ensures var x := JsonSpec.FieldValue(s, old(Cur()), key, ch);
        ok == x.Some? && (ok ==> r == x.value.v && Cur() == x.value.next)
    {
      r := ch;
      if key == "name" {
        var v;
        ok, v := ParseString(MAX_VAL);
        r := ch.(name := Some(CStr(v)));
      } else if key == "asize" || key == "dsize" {
        var v;
        ok, v := ParseInt64();
        r := if key == "asize" then ch.(asize := v) else ch.(size := v);
      } else if key in {"dev", "ino", "mtime", "uid", "gid", "mode", "nlink"} {
        var v;
        ok, v := ParseUint64();
        r := SetUnsigned(ch, key, v);
      } else if key == "hlnkc" {
        ok := true;
        r := BoolFlag(ch, FHlnkC, true);
      } else if key == "read_error" {
        ok := true;
        r := BoolFlag(ch, FErr, true);
      } else if key == "notreg" {
        ok := true;
        r := BoolFlag(ch, FFile, false);
      } else if key == "excluded" {
        var v;
        ok, v := ParseString(EXCL_BUF);
        r := ch.(flags := ch.flags + {ExcludedFlag(CStr(v))});
      } else {
        ok := SkipValue();
      }
    }

    /** One member of an item's info object: key, colon and value. */
    method Member(ch: Child) returns (ok: bool, r: Child)
      modifies this
      ensures var x := JsonSpec.Member(s, old(Cur()), ch);
        ok == x.Some? && (ok ==> r == x.value.v && Cur() == x.value.next)
    {
      r := ch;
      var key;
      ok, key := ParseString(MAX_VAL);
      if !ok {
        return;
      }
      ok := Expect(':');
      if !ok {
        return;
      }
      ok, r := FieldValue(CStr(key), ch);
    }

    /** parse_item_info. */
    method ItemInfo(parentDev: u64, ch: Child) returns (ok: bool, r: Child)
      modifies this
      ensures var x := JsonSpec.ItemInfo(s, old(Cur()), parentDev, ch);
        ok == x.Some? && (ok ==> r == x.value.v && Cur() == x.value.next)
    {
      r := ch;
      ok := Expect('{');
      if !ok {
        return;
      }
      r := r.(dev := parentDev);
      ghost var want := InfoFields(s, Cur(), r);
      while true
        invariant want == InfoFields(s, Cur(), r)
        decreases Left(s, Cur())
      {
        var more;
        ok, more, r := InfoPass(r);
        if !ok || !more {
          return;
        }
      }
    }

    /** One pass of the loop of parse_item_info: `}` ends the object;
        otherwise a member, then `}` ends it or an optional comma follows. */
    method InfoPass(ch: Child) returns (ok: bool, more: bool, r: Child)
      modifies this
      ensures !ok ==> InfoFields(s, old(Cur()), ch) == None
      ensures ok && !more ==> InfoFields(s, old(Cur()), ch) == Some(Parsed(r, Cur()))
      ensures ok && more ==> InfoFields(s, old(Cur()), ch) == InfoFields(s, Cur(), r)
      ensures ok && more ==> Left(s, Cur()) < Left(s, old(Cur()))
    {
      more := false;
      SkipWs();
      var c := Peek();
      SkipWsTwice(s, old(Cur()));
      if c == '}' {
        pos := pos + 1;
        return true, false, ch;
      }
      ghost var c0 := Cur();
      ok, r := Member(ch);
      if !ok {
        return;
      }
      ghost var m := Parsed(r, Cur());
      SkipWs();
      c := Peek();
      SkipWsTwice(s, m.next);
      if c == '}' {
        pos := pos + 1;
        return;
      }
      if c == ',' {
        pos := pos + 1;
      }
      InfoFieldsMore(s, old(Cur()), ch, m, Cur());
      more := true;
    }

    /** parse_item: flags default to FILE, or DIR when the item starts with
        `[`; a directory's nested items follow its info object, each after a
        comma, up to `]`, and inherit its device. */
    method ParseItem(parentDev: u64) returns (ok: bool, item: Child)
      modifies this
      ensures var x := JsonSpec.ParseItem(s, old(Cur()), parentDev);
        ok == x.Some? && (ok ==> item == x.value.v && Cur() == x.value.next)
      decreases Left(s, Cur()), 1
    {
      SkipWs();
      var c := Peek();
      SkipWsTwice(s, old(Cur()));
      var isDir := c == '[';
      item := BlankChild(if isDir then {FDir} else {FFile});
      if isDir {
        pos := pos + 1;
        SkipWs();
      }
      ghost var c1 := Cur();
      ok, item := ItemInfo(parentDev, item);
      if !isDir {
        ParseItemFile(s, old(Cur()), parentDev);
        return;
      }
      if !ok {
        ParseItemDir(s, old(Cur()), parentDev, c1, None, None);
        return;
      }
      ghost var info := Parsed(item, Cur());
      var kids: seq<Child> := [];
      ghost var want := ChildList(s, Cur(), item.dev, []);
      ParseItemDir(s, old(Cur()), parentDev, c1, Some(info), want);
      while true
        invariant want == ChildList(s, Cur(), item.dev, kids)
        invariant Left(s, Cur()) < Left(s, old(Cur()))
        decreases Left(s, Cur())
      {
        var more;
        ok, more, kids := ChildPass(item.dev, kids);
        if !ok {
          return;
        }
        if !more {
          item := item.(children := kids);
          return;
        }
      }
    }

    /** One pass of the nested-items loop of parse_item: `]` ends the list;
        otherwise a comma and an item, appended to the items read so far. */
    method ChildPass(dev: u64, kids: seq<Child>) returns (ok: bool, more: bool, kids': seq<Child>)
      modifies this
      ensures !ok ==> ChildList(s, old(Cur()), dev, kids) == None
      ensures ok && !more ==> ChildList(s, old(Cur()), dev, kids) == Some(Parsed(kids', Cur()))
      ensures ok && more ==> ChildList(s, old(Cur()), dev, kids) == ChildList(s, Cur(), dev, kids')
      ensures ok && more ==> Left(s, Cur()) < Left(s, old(Cur()))
      decreases Left(s, Cur()), 0
    {
      kids' := kids;
      more := false;
      SkipWs();
      var c := Peek();
      SkipWsTwice(s, old(Cur()));
      if c == ']' {
        pos := pos + 1;
        return true, false, kids;
      }
      if c != ',' {
        return false, false, kids;
      }
      pos := pos + 1;
      var kid;
      ok, kid := ParseItem(dev);
      if !ok {
        return;
      }
      ChildListMore(s, old(Cur()), dev, kids, Parsed(kid, Cur()), Cur());
      kids' := kids + [kid];
      more := true;
    }

    /** One pass of the top-level loop of dir_cache_load: `]` ends the
        file; otherwise a comma and an item, which the caller inserts. The
        items read so far are `acc`. */
    method TopPass(ghost acc: seq<Child>) returns (ok: bool, more: bool, item: Child)
      modifies this
      ensures !more ==> JsonSpec.TopItems(s, old(Cur()), acc) == LoadParse(acc, ok)
      ensures more ==> JsonSpec.TopItems(s, old(Cur()), acc) == JsonSpec.TopItems(s, Cur(), acc + [item])
      ensures more ==> Left(s, Cur()) < Left(s, old(Cur()))
    {
      more := false;
      item := BlankChild({});
      var c := Peek();
      if c == ']' {
        pos := pos + 1;
        return true, false, item;
      }
      if c != ',' {
        return false, false, item;
      }
      pos := pos + 1;
      ok, item := ParseItem(0);
      if !ok {
        return;
      }
      TopItemsMore(s, old(Cur()), acc, Parsed(item, Cur()), Cur());
      more := true;
    }

    /** The header dir_cache_load reads: `[`, a major version that must be
        1, `,`, a minor version, `,`, and a metadata object it skips. */
    method Header() returns (ok: bool)
      requires Cur() == Cursor(0, 1)
      modifies this
      ensures ok == JsonSpec.Header(s).Some? && (ok ==> Cur() == JsonSpec.Header(s).value)
    {
      ok := Expect('[');
      if !ok {
        return;
      }
      var major, minor;
      ok, major := ParseInt64();
      if !ok || major != 1 {
        return false;
      }
      ok := Expect(',');
      if !ok {
        return;
      }
      ok, minor := ParseInt64();
      if !ok {
        return;
      }
      ok := Expect(',');
      if !ok {
        return;
      }
      ok := SkipObject();
    }
  }
}

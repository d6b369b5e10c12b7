/** What parse_skip_value, parse_skip_object and parse_int64 of
    src/dir_cache.c make of the texts the writer produces: a number, an
    escaped string, a literal, a member, and the header of a saved file
    with its metadata object. */
module SkipText {
  import opened Common
  import opened CacheTypes
  import opened Decimal
  import opened JsonEscape
  import opened JsonSpec
  import opened Writer
  import opened RoundTripText
  import opened ReadBack
  import opened ReadText

  predicate AllNumberChars(t: string) {
    forall i | 0 <= i < |t| :: IsNumberChar(t[i])
  }

  /** A run of number characters ends where the text does. */
  lemma {:induction false} NumberEndOf(s: string, p: nat, t: string)
    requires IsAt(s, p, t) && AllNumberChars(t)
    requires p + |t| < |s| && !IsNumberChar(s[p + |t|])
    ensures NumberEnd(s, p) == p + |t|
    decreases |t|
  {
    if t != [] {
      IsAtChar(s, p, t, 0);
      assert t == [t[0]] + t[1..];
      IsAtSplit(s, p, [t[0]], t[1..]);
      NumberEndOf(s, p + 1, t[1..]);
    }
  }

  /** A number the writer wrote is skipped up to its end, whatever follows
      that is not part of a number. */
  lemma SkipNumber(s: string, p: nat, line: int, t: string)
    requires t != [] && (t[0] == '-' || IsDigit(t[0])) && AllNumberChars(t)
    requires IsAt(s, p, t) && p + |t| < |s| && !IsNumberChar(s[p + |t|])
    ensures SkipValue(s, Cursor(p, line)) == Some(Cursor(p + |t|, line))
  {
    IsAtChar(s, p, t, 0);
    NoSkip(s, Cursor(p, line));
    NumberEndOf(s, p, t);
  }

  lemma SkipDigits(s: string, p: nat, line: int, n: nat)
    requires IsAt(s, p, Digits(n)) && p + |Digits(n)| < |s| && !IsNumberChar(s[p + |Digits(n)|])
    ensures SkipValue(s, Cursor(p, line)) == Some(Cursor(p + |Digits(n)|, line))
  {
    SkipNumber(s, p, line, Digits(n));
  }

  lemma SkipSignedDigits(s: string, p: nat, line: int, v: int)
    requires IsAt(s, p, SignedDigits(v)) && p + |SignedDigits(v)| < |s|
    requires !IsNumberChar(s[p + |SignedDigits(v)|])
    ensures SkipValue(s, Cursor(p, line)) == Some(Cursor(p + |SignedDigits(v)|, line))
  {
    var t := SignedDigits(v);
    if v < 0 {
      assert t[0] == '-';
      assert forall i | 1 <= i < |t| :: t[i] == Digits(-v)[i - 1];
    }
    SkipNumber(s, p, line, t);
  }

  /** A string written with output_string is skipped up to its closing
      quote, whatever it holds. */
  lemma SkipQuoted(s: string, p: nat, line: int, x: string)
    requires IsAt(s, p, "\"" + Escape(x) + "\"")
    ensures SkipValue(s, Cursor(p, line)) == Some(Cursor(p + |Escape(x)| + 2, line))
  {
    QuoteThenEscaped(s, p, x);
    NoSkip(s, Cursor(p, line));
    ParseStringEscaped(s, p, line, x, 0);
  }

  lemma SkipTrue(s: string, p: nat, line: int)
    requires IsAt(s, p, "true")
    ensures SkipValue(s, Cursor(p, line)) == Some(Cursor(p + 4, line))
  {
    IsAtChar(s, p, "true", 0);
    NoSkip(s, Cursor(p, line));
  }

  lemma SkipFalse(s: string, p: nat, line: int)
    requires IsAt(s, p, "false")
    ensures SkipValue(s, Cursor(p, line)) == Some(Cursor(p + 5, line))
  {
    IsAtChar(s, p, "false", 0);
    NoSkip(s, Cursor(p, line));
  }

  /** A written key and its colon, then a value the skip reads to r. */
  lemma KeySkipped(s: string, p: nat, line: int, k: string, q: nat)
    requires IsAt(s, p, "\"" + Escape(k) + "\":") && q == p + |Escape(k)| + 3
    ensures ParseString(s, Cursor(p, line), 0).Some?
    ensures Expect(s, ParseString(s, Cursor(p, line), 0).value.next, ':') == Some(Cursor(q, line))
  {
    KeyColonSplit(s, p, Escape(k));
    ParseStringEscaped(s, p, line, k, 0);
    ColonRead(s, q - 1, line);
  }

  /** A member followed by a comma: the member loop goes on after it. */
  lemma SkipMemberComma(s: string, p: nat, line: int, k: string, q: nat, r: nat, e: nat)
    requires IsAt(s, p, "\"" + Escape(k) + "\":") && q == p + |Escape(k)| + 3
    requires SkipValue(s, Cursor(q, line)) == Some(Cursor(r, line)) && r < |s| && s[r] == ',' && e == r + 1
    ensures SkipMembers(s, Cursor(p, line)) == SkipMembers(s, Cursor(e, line))
  {
    KeySkipped(s, p, line, k, q);
    assert Step(Cursor(r, line), 1) == Cursor(e, line);
    MembersComma(s, Cursor(p, line), Cursor(q, line), Cursor(r, line));
  }

  /** The last member, closed by `}`: the object ends after the brace. */
  lemma SkipMemberLast(s: string, p: nat, line: int, k: string, q: nat, r: nat, e: nat)
    requires IsAt(s, p, "\"" + Escape(k) + "\":") && q == p + |Escape(k)| + 3
    requires SkipValue(s, Cursor(q, line)) == Some(Cursor(r, line)) && r < |s| && s[r] == '}' && e == r + 1
    ensures SkipMembers(s, Cursor(p, line)) == Some(Cursor(e, line))
  {
    KeySkipped(s, p, line, k, q);
    assert Step(Cursor(r, line), 1) == Cursor(e, line);
    MembersClose(s, Cursor(p, line), Cursor(q, line), Cursor(r, line));
  }

  /** One turn of the member loop of parse_skip_object, once its key, colon
      and value are read: a comma goes on, a `}` ends the object. */
  lemma MembersComma(s: string, c: Cursor, c2: Cursor, c3: Cursor)
    requires ParseString(s, c, 0).Some? && Expect(s, ParseString(s, c, 0).value.next, ':') == Some(c2)
    requires SkipValue(s, c2) == Some(c3) && c3.pos < |s| && s[c3.pos] == ','
    ensures SkipMembers(s, c) == SkipMembers(s, Step(c3, 1))
  {
    NoSkip(s, c3);
  }

  lemma MembersClose(s: string, c: Cursor, c2: Cursor, c3: Cursor)
    requires ParseString(s, c, 0).Some? && Expect(s, ParseString(s, c, 0).value.next, ':') == Some(c2)
    requires SkipValue(s, c2) == Some(c3) && c3.pos < |s| && s[c3.pos] == '}'
    ensures SkipMembers(s, c) == Some(Step(c3, 1))
  {
    NoSkip(s, c3);
  }

  // ---------------------------------------------------------------- arrays

  /** A value that opens with `[` is skipped as an array. */
  lemma ValueArray(s: string, c: Cursor)
    requires c.pos < |s| && s[c.pos] == '['
    ensures SkipValue(s, c) == SkipArray(s, c)
  {
    NoSkip(s, c);
  }

  /** `[]` is skipped whole. */
  lemma ArrayEmpty(s: string, c: Cursor)
    requires c.pos + 1 < |s| && s[c.pos] == '[' && s[c.pos + 1] == ']'
    ensures SkipArray(s, c) == Some(Step(c, 2))
  {
    NoSkip(s, c);
    NoSkip(s, Step(c, 1));
  }

  /** An array that opens with an element: its elements are skipped in turn. */
  lemma ArrayOpens(s: string, c: Cursor)
    requires c.pos + 1 < |s| && s[c.pos] == '[' && !IsWs(s[c.pos + 1]) && s[c.pos + 1] != ']'
    ensures SkipArray(s, c) == SkipElements(s, Step(c, 1))
  {
    NoSkip(s, c);
    NoSkip(s, Step(c, 1));
  }

  /** An element followed by a comma: the loop goes on after the comma. */
  lemma ElementComma(s: string, c: Cursor, c1: Cursor)
    requires SkipValue(s, c) == Some(c1) && c1.pos < |s| && s[c1.pos] == ','
    ensures SkipElements(s, c) == SkipElements(s, Step(c1, 1))
  {
    NoSkip(s, c1);
  }

  /** The last element, closed by `]`: the array ends after the bracket. */
  lemma ElementLast(s: string, c: Cursor, c1: Cursor)
    requires SkipValue(s, c) == Some(c1) && c1.pos < |s| && s[c1.pos] == ']'
    ensures SkipElements(s, c) == Some(Step(c1, 1))
  {
    NoSkip(s, c1);
  }

  /** The keys parse_item_info acts on. */
  predicate InfoKey(key: string) {
    key in {"name", "asize", "dsize", "dev", "ino", "mtime", "uid", "gid", "mode", "nlink",
            "hlnkc", "read_error", "notreg", "excluded"}
  }

  /** A member under any other key leaves the item as it was: its value,
      whatever it is, is skipped, and reading goes on after it. */
  lemma UnknownKeySkipped(s: string, p: nat, q: nat, e: nat, line: int, key: string, ch: Child)
    requires AllPlain(key) && |key| < MAX_VAL && !InfoKey(key)
    requires IsAt(s, p, "\"" + key + "\":") && q == p + |key| + 3
    requires SkipValue(s, Cursor(q, line)) == Some(Cursor(e, line))
    ensures Member(s, Cursor(p, line), ch) == Some(Parsed(ch, Cursor(e, line)))
  {
    MemberKey(s, p, q, line, key, ch);
  }

  lemma StringMemberText(s: string, p: nat, k: string, v: string)
    requires AllPlain(k) && AllPlain(v) && IsAt(s, p, MetaString(k, v))
    ensures IsAt(s, p, "\"" + Escape(k) + "\":") && IsAt(s, p + |k| + 3, "\"" + Escape(v) + "\"")
    ensures |Escape(k)| == |k| && |Escape(v)| == |v| && |MetaString(k, v)| == |k| + |v| + 6
    ensures s[p + |k| + |v| + 5] == ','
  {
    EscapePlain(k);
    EscapePlain(v);
    IsAtSplit(s, p, "\"" + k + "\":", ("\"" + v + "\"") + ",");
    IsAtSplit(s, p + |k| + 3, "\"" + v + "\"", ",");
    IsAtChar(s, p + |k| + |v| + 5, ",", 0);
  }

  /** A key and a string value, both with nothing to escape, then a comma. */
  lemma StringMemberComma(s: string, p: nat, line: int, k: string, v: string, e: nat)
    requires AllPlain(k) && AllPlain(v) && IsAt(s, p, MetaString(k, v)) && e == p + |MetaString(k, v)|
    ensures SkipMembers(s, Cursor(p, line)) == SkipMembers(s, Cursor(e, line))
  {
    StringMemberText(s, p, k, v);
    SkipQuoted(s, p + |k| + 3, line, v);
    SkipMemberComma(s, p, line, k, p + |k| + 3, p + |k| + |v| + 5, e);
  }

  lemma NumberMemberText(s: string, p: nat, k: string, n: nat)
    requires AllPlain(k) && IsAt(s, p, MetaNumber(k, Digits(n)))
    ensures IsAt(s, p, "\"" + Escape(k) + "\":") && IsAt(s, p + |k| + 3, Digits(n))
    ensures |Escape(k)| == |k| && |MetaNumber(k, Digits(n))| == |k| + |Digits(n)| + 4
    ensures s[p + |k| + 3 + |Digits(n)|] == '}'
  {
    EscapePlain(k);
    IsAtSplit(s, p, "\"" + k + "\":", Digits(n) + "}");
    IsAtSplit(s, p + |k| + 3, Digits(n), "}");
    IsAtChar(s, p + |k| + 3 + |Digits(n)|, "}", 0);
  }

  /** A key and a number, then the `}` that closes the object. */
  lemma NumberMemberLast(s: string, p: nat, line: int, k: string, n: nat, e: nat)
    requires AllPlain(k) && IsAt(s, p, MetaNumber(k, Digits(n))) && e == p + |MetaNumber(k, Digits(n))|
    ensures SkipMembers(s, Cursor(p, line)) == Some(Cursor(e, line))
  {
    NumberMemberText(s, p, k, n);
    var q := p + |k| + 3;
    var r := q + |Digits(n)|;
    SkipDigits(s, q, line, n);
    SkipMemberLast(s, p, line, k, q, r, e);
  }

  /** An object that opens with a member. */
  lemma ObjectOpens(s: string, c: Cursor)
    requires c.pos + 1 < |s| && s[c.pos] == '{' && s[c.pos + 1] == '"'
    ensures SkipObject(s, c) == SkipMembers(s, Step(c, 1))
  {
    NoSkip(s, c);
    NoSkip(s, Step(c, 1));
  }

  /** The header's metadata object is skipped as a whole, whatever the
      timestamp, when the program name and version need no escaping. */
  lemma SkipMetadata(s: string, p: nat, line: int, pn: string, pv: string, ts: u64)
    requires AllPlain(pn) && AllPlain(pv) && IsAt(s, p, Metadata(pn, pv, ts))
    ensures SkipObject(s, Cursor(p, line)) == Some(Cursor(p + |Metadata(pn, pv, ts)|, line))
  {
    KeysPlain();
    var m1, m2 := ObjectText(s, p, MetaString("progname", pn), MetaString("progver", pv),
      MetaNumber("timestamp", Digits(ts)));
    MetadataOpens(s, p, m1, m2, line, "progname", pn, "progver", pv, "timestamp", ts, p + |Metadata(pn, pv, ts)|);
  }

  /** An object of two string members and a number member. */
  lemma MetadataOpens(s: string, p: nat, m1: nat, m2: nat, line: int, k1: string, v1: string, k2: string, v2: string, k3: string, n: nat, e: nat)
    requires AllPlain(k1) && AllPlain(v1) && AllPlain(k2) && AllPlain(v2) && AllPlain(k3)
    requires p + 1 < |s| && s[p] == '{' && s[p + 1] == '"'
    requires IsAt(s, p + 1, MetaString(k1, v1)) && m1 == p + 1 + |MetaString(k1, v1)|
    requires IsAt(s, m1, MetaString(k2, v2)) && m2 == m1 + |MetaString(k2, v2)|
    requires IsAt(s, m2, MetaNumber(k3, Digits(n))) && e == m2 + |MetaNumber(k3, Digits(n))|
    ensures SkipObject(s, Cursor(p, line)) == Some(Cursor(e, line))
  {
    assert Step(Cursor(p, line), 1) == Cursor(p + 1, line);
    ObjectOpens(s, Cursor(p, line));
    ThreeMembers(s, p + 1, m1, m2, line, k1, v1, k2, v2, k3, n, e);
  }

  /** Where the pieces of an object of three members lie. */
  lemma ObjectText(s: string, p: nat, a: string, b: string, d: string) returns (m1: nat, m2: nat)
    requires IsAt(s, p, "{" + (a + (b + d))) && a != [] && a[0] == '"'
    ensures p + 1 < |s| && s[p] == '{' && s[p + 1] == '"'
    ensures IsAt(s, p + 1, a) && m1 == p + 1 + |a|
    ensures IsAt(s, m1, b) && m2 == m1 + |b| && IsAt(s, m2, d)
  {
    IsAtSplit(s, p, "{", a + (b + d));
    IsAtChar(s, p, "{", 0);
    IsAtChar(s, p + 1, a + (b + d), 0);
    IsAtSplit(s, p + 1, a, b + d);
    m1 := p + 1 + |a|;
    IsAtSplit(s, m1, b, d);
    m2 := m1 + |b|;
  }

  lemma ThreeMembers(s: string, p: nat, m1: nat, m2: nat, line: int, k1: string, v1: string, k2: string, v2: string, k3: string, n: nat, e: nat)
    requires AllPlain(k1) && AllPlain(v1) && AllPlain(k2) && AllPlain(v2) && AllPlain(k3)
    requires IsAt(s, p, MetaString(k1, v1)) && m1 == p + |MetaString(k1, v1)|
    requires IsAt(s, m1, MetaString(k2, v2)) && m2 == m1 + |MetaString(k2, v2)|
    requires IsAt(s, m2, MetaNumber(k3, Digits(n))) && e == m2 + |MetaNumber(k3, Digits(n))|
    ensures SkipMembers(s, Cursor(p, line)) == Some(Cursor(e, line))
  {
    StringMemberComma(s, p, line, k1, v1, m1);
    TwoMembers(s, m1, m2, line, k2, v2, k3, n, e);
    MembersChain(s, Cursor(p, line), Cursor(m1, line), Some(Cursor(e, line)));
  }

  lemma TwoMembers(s: string, p: nat, m: nat, line: int, k2: string, v2: string, k3: string, n: nat, e: nat)
    requires AllPlain(k2) && AllPlain(v2) && AllPlain(k3)
    requires IsAt(s, p, MetaString(k2, v2)) && m == p + |MetaString(k2, v2)|
    requires IsAt(s, m, MetaNumber(k3, Digits(n))) && e == m + |MetaNumber(k3, Digits(n))|
    ensures SkipMembers(s, Cursor(p, line)) == Some(Cursor(e, line))
  {
    StringMemberComma(s, p, line, k2, v2, m);
    NumberMemberLast(s, m, line, k3, n, e);
    MembersChain(s, Cursor(p, line), Cursor(m, line), Some(Cursor(e, line)));
  }

  lemma MembersChain(s: string, c: Cursor, d: Cursor, r: Option<Cursor>)
    requires SkipMembers(s, c) == SkipMembers(s, d) && SkipMembers(s, d) == r
    ensures SkipMembers(s, c) == r
  {
  }

  lemma KeysPlain()
    ensures AllPlain("progname") && AllPlain("progver") && AllPlain("timestamp")
  {
  }

  /** A one-digit number followed by a non-digit. */
  lemma OneDigit(s: string, p: nat, line: int, n: nat)
    requires n < 10 && p + 1 < |s| && s[p] == DigitChar(n) && !IsDigit(s[p + 1])
    ensures ParseInt64(s, Cursor(p, line)) == Some(Parsed(n, Cursor(p + 1, line)))
  {
    assert Digits(n) == [s[p]];
    assert IsAt(s, p, SignedDigits(n));
    ParseIntDigits(s, p, line, n);
  }

  /** The header dir_cache_save writes passes the header check of
      dir_cache_load (version 1, then any minor version and a metadata
      object), which stops right after it. */
  lemma HeaderRead(s: string, pn: string, pv: string, ts: u64)
    requires AllPlain(pn) && AllPlain(pv) && IsAt(s, 0, HeaderText(pn, pv, ts))
    ensures Header(s) == Some(Cursor(|HeaderText(pn, pv, ts)|, 1))
  {
    IsAtSplit(s, 0, "[1,2,", Metadata(pn, pv, ts));
    HeaderChars(s);
    SkipMetadata(s, 5, 1, pn, pv, ts);
    HeaderTail(s, Cursor(|HeaderText(pn, pv, ts)|, 1));
  }

  lemma HeaderTail(s: string, e: Cursor)
    requires 5 < |s| && s[0] == '[' && s[1] == '1' && s[2] == ',' && s[3] == '2' && s[4] == ','
    requires SkipObject(s, Cursor(5, 1)) == Some(e)
    ensures Header(s) == Some(e)
  {
    var c1, c2, c3 := MajorRead(s);
    var c5 := MinorRead(s, c3);
    HeaderSteps(s, c1, c2, c3, c5, e);
  }

  /** `[`, the major version 1 and a comma. */
  lemma MajorRead(s: string) returns (c1: Cursor, c2: Cursor, c3: Cursor)
    requires 5 < |s| && s[0] == '[' && s[1] == '1' && s[2] == ','
    ensures Expect(s, Cursor(0, 1), '[') == Some(c1) && ParseInt64(s, c1) == Some(Parsed(1, c2))
    ensures Expect(s, c2, ',') == Some(c3) && c3 == Cursor(3, 1)
  {
    ExpectAt(s, 0, 1, '[');
    OneDigit(s, 1, 1, 1);
    ExpectAt(s, 2, 1, ',');
    c1, c2, c3 := Cursor(1, 1), Cursor(2, 1), Cursor(3, 1);
  }

  /** The minor version 2 and a comma. */
  lemma MinorRead(s: string, c3: Cursor) returns (c5: Cursor)
    requires 5 < |s| && s[3] == '2' && s[4] == ',' && c3 == Cursor(3, 1)
    ensures ParseInt64(s, c3).Some? && Expect(s, ParseInt64(s, c3).value.next, ',') == Some(c5)
    ensures c5 == Cursor(5, 1)
  {
    OneDigit(s, 3, 1, 2);
    ExpectAt(s, 4, 1, ',');
    c5 := Cursor(5, 1);
  }

  lemma HeaderChars(s: string)
    requires IsAt(s, 0, "[1,2,")
    ensures s[0] == '[' && s[1] == '1' && s[2] == ',' && s[3] == '2' && s[4] == ','
  {
    IsAtChar(s, 0, "[1,2,", 0);
    IsAtChar(s, 0, "[1,2,", 1);
    IsAtChar(s, 0, "[1,2,", 2);
    IsAtChar(s, 0, "[1,2,", 3);
    IsAtChar(s, 0, "[1,2,", 4);
  }

  lemma HeaderSteps(s: string, c1: Cursor, c2: Cursor, c3: Cursor, c5: Cursor, e: Cursor)
    requires Expect(s, Cursor(0, 1), '[') == Some(c1)
    requires ParseInt64(s, c1) == Some(Parsed(1, c2))
    requires Expect(s, c2, ',') == Some(c3)
    requires ParseInt64(s, c3).Some? && Expect(s, ParseInt64(s, c3).value.next, ',') == Some(c5)
    requires SkipObject(s, c5) == Some(e)
    ensures Header(s) == Some(e)
  {
  }
}

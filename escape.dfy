/** JSON string escaping as output_string (src/dir_cache.c) does it, and the
    text a reader gets back from it. */
module JsonEscape {
  import opened Common

  const BS: char := 8 as char    // '\b'
  const FF: char := 12 as char   // '\f'

  /** Bytes 0..31 and DEL. */
  predicate IsControl(c: char) { c as int <= 31 || c as int == 127 }

  /** The characters with a short escape (\n \r \b \t \f \\ \"). */
  predicate HasShortEscape(c: char) {
    c == '\n' || c == '\r' || c == BS || c == '\t' || c == FF || c == '\\' || c == '"'
  }

  function HexDigit(d: int): (c: char)
    requires 0 <= d < 16
    ensures !IsControl(c) && c != '"' && c != '\\'
  {
    if d < 10 then ('0' as int + d) as char else ('a' as int + d - 10) as char
  }

  /** The letter of a short escape. */
  function ShortCode(c: char): (e: char)
    requires HasShortEscape(c)
    ensures !IsControl(e)
  {
    if c == '\n' then 'n'
    else if c == '\r' then 'r'
    else if c == BS then 'b'
    else if c == '\t' then 't'
    else if c == FF then 'f'
    else c   // '\\' and '"' stand for themselves after the backslash
  }

  /** The escaped form of one byte: a short escape, `\u00xx` (lower-case hex)
      for the remaining control bytes, the byte itself otherwise. */
  function EscapeChar(c: char): (r: string)
    ensures |r| >= 1
  {
    if HasShortEscape(c) then ['\\', ShortCode(c)]
    else if IsControl(c) then ['\\', 'u', '0', '0', HexDigit(c as int / 16), HexDigit(c as int % 16)]
    else [c]
  }

  /** The escaped form of a whole string. */
  function Escape(s: string): (r: string)
    ensures |r| >= |s|
  {
    if s == [] then [] else EscapeChar(s[0]) + Escape(s[1..])
  }

  /** An escaped string never holds a raw control byte, so an escaped name
      cannot break the one-item-per-line layout of the cache file. */
  lemma {:induction false} EscapeHasNoControl(s: string)
    ensures forall i | 0 <= i < |Escape(s)| :: !IsControl(Escape(s)[i])
  {
    if s != [] {
      EscapeHasNoControl(s[1..]);
      var e := EscapeChar(s[0]);
      assert forall i | 0 <= i < |e| :: !IsControl(e[i]);
    }
  }

  lemma {:induction false} EscapeAppend(s: string, c: char)
    ensures Escape(s + [c]) == Escape(s) + EscapeChar(c)
  {
    if s == [] {
      assert [c][1..] == [];
    } else {
      assert (s + [c])[1..] == s[1..] + [c];
      EscapeAppend(s[1..], c);
    }
  }

  lemma {:induction false} EscapeConcat(a: string, b: string)
    ensures Escape(a + b) == Escape(a) + Escape(b)
  {
    if a == [] {
      assert a + b == b;
    } else {
      assert (a + b)[0] == a[0];
      assert (a + b)[1..] == a[1..] + b;
      EscapeConcat(a[1..], b);
    }
  }

  /** A string with nothing to escape is written verbatim. */
  lemma {:induction false} EscapePlain(s: string)
    requires forall i | 0 <= i < |s| :: !HasShortEscape(s[i]) && !IsControl(s[i])
    ensures Escape(s) == s
  {
    if s != [] {
      EscapePlain(s[1..]);
    }
  }

  /** Whether a byte survives a write/read round trip: the `\u00xx` escapes
      are skipped by the reader, so those bytes are lost. */
  predicate Kept(c: char) { HasShortEscape(c) || !IsControl(c) }

  /** What the reader gets back from Escape(s). */
  function Unescaped(s: string): (r: string)
    ensures |r| <= |s|
  {
    if s == [] then [] else (if Kept(s[0]) then [s[0]] else []) + Unescaped(s[1..])
  }

  /** Every byte read back is one that survives; when all of s survives, all
      of it comes back. */
  lemma {:induction false} UnescapedKept(s: string)
    ensures forall i | 0 <= i < |Unescaped(s)| :: Kept(Unescaped(s)[i])
    ensures (forall i | 0 <= i < |s| :: Kept(s[i])) ==> Unescaped(s) == s
  {
    if s != [] {
      UnescapedKept(s[1..]);
      var head := if Kept(s[0]) then [s[0]] else [];
      assert Unescaped(s) == head + Unescaped(s[1..]);
      assert forall i | 0 <= i < |head| :: Kept(head[i]);
    }
  }

  /** output_string: walk the C string up to its NUL and write each byte's
      escape. */
  method OutputString(s: string) returns (out: string)
    ensures out == Escape(CStr(s))
  {
    ghost var name := CStr(s);
    out := [];
    var i := 0;
    while i < |s| && s[i] != '\0'
      invariant 0 <= i <= |name|
      invariant name[..i] == s[..i]
      invariant out == Escape(s[..i])
    {
      assert s[..i + 1] == s[..i] + [s[i]];
      EscapeAppend(s[..i], s[i]);
      out := out + EscapeChar(s[i]);
      i := i + 1;
    }
    assert s[..i] == name;
  }
}

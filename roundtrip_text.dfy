/** Reading back the pieces the writer produces: escaped strings and
    decimal integers. */
module RoundTripText {
  import opened Common
  import opened Decimal
  import opened JsonEscape
  import opened JsonSpec

  /** The destination after pushing every byte of t onto acc. */
  function PushAll(acc: string, t: string, cap: int): string
    decreases |t|
  {
    if t == [] then acc else PushAll(Push(acc, t[0], cap), t[1..], cap)
  }

  /** A destination of cap bytes keeps the first cap-1 bytes pushed. */
  lemma {:induction false} PushAllKeepsPrefix(acc: string, t: string, cap: int)
    requires |acc| <= Cap(cap)
    ensures PushAll(acc, t, cap) == (acc + t)[..Min(|acc| + |t|, Cap(cap))]
    decreases |t|
  {
    if t == [] {
      assert acc + t == acc;
    } else {
      var acc' := Push(acc, t[0], cap);
      PushAllKeepsPrefix(acc', t[1..], cap);
      if |acc| < Cap(cap) {
        assert acc' + t[1..] == acc + t;
      } else {
        assert acc' == acc;
        assert (acc + t)[..|acc|] == acc;
        assert (acc + t[1..])[..|acc|] == acc;
      }
    }
  }

  /** One escaped byte: the string loop moves past its escape and stores
      the byte unless it was a `\u00xx` escape. */
  lemma StrBodyStep(s: string, p: nat, x0: char, acc: string, cap: int)
    requires IsAt(s, p, EscapeChar(x0)) && p + |EscapeChar(x0)| < |s|
    requires |acc| <= Cap(cap)
    ensures StrBody(s, p, acc, cap)
         == StrBody(s, p + |EscapeChar(x0)|, if Kept(x0) then Push(acc, x0, cap) else acc, cap)
  {
    var e0 := EscapeChar(x0);
    IsAtChar(s, p, e0, 0);
    if HasShortEscape(x0) {
      IsAtChar(s, p, e0, 1);
      assert s[p] == '\\' && Unescape(s[p + 1]) == Some(x0);
    } else if IsControl(x0) {
      IsAtChar(s, p, e0, 1);
      assert s[p] == '\\' && s[p + 1] == 'u';
    } else {
      assert s[p] == x0;
    }
  }

  /** The string loop reads back an escaped text, up to and including the
      closing quote, as the bytes that survive escaping. */
  lemma {:induction false} StrBodyEscaped(s: string, p: nat, x: string, acc: string, cap: int)
    requires IsAt(s, p, Escape(x) + "\"")
    requires |acc| <= Cap(cap)
    ensures StrBody(s, p, acc, cap) == Some((PushAll(acc, Unescaped(x), cap), p + |Escape(x)| + 1))
    decreases |x|, 1
  {
    if x == [] {
      assert Escape(x) + "\"" == "\"" && Unescaped(x) == [];
      StrBodyClose(s, p, acc, cap);
    } else {
      EscapeAtSplit(s, p, x);
      StrBodyStep(s, p, x[0], acc, cap);
      StrBodyCons(s, p, p + |EscapeChar(x[0])|, p + |Escape(x)| + 1, x, acc, cap);
    }
  }

  /** The closing quote ends the string loop. */
  lemma StrBodyClose(s: string, p: nat, acc: string, cap: int)
    requires IsAt(s, p, "\"") && |acc| <= Cap(cap)
    ensures StrBody(s, p, acc, cap) == Some((PushAll(acc, [], cap), p + 1))
  {
    IsAtChar(s, p, "\"", 0);
  }

  /** After the first byte's escape, at q: the escaped rest and its quote. */
  lemma {:induction false} StrBodyCons(s: string, p: nat, q: nat, e: nat, x: string, acc: string, cap: int)
    requires x != [] && e == q + |Escape(x[1..])| + 1
    requires IsAt(s, q, Escape(x[1..]) + "\"")
    requires |acc| <= Cap(cap)
    requires StrBody(s, p, acc, cap) == StrBody(s, q, if Kept(x[0]) then Push(acc, x[0], cap) else acc, cap)
    ensures StrBody(s, p, acc, cap) == Some((PushAll(acc, Unescaped(x), cap), e))
    decreases |x|, 0
  {
    var acc' := if Kept(x[0]) then Push(acc, x[0], cap) else acc;
    StrBodyEscaped(s, q, x[1..], acc', cap);
    UnescapedPush(x, acc, cap);
  }

  /** The escaped text of x followed by a quote starts with the escape of
      its first byte, and the escaped rest follows. */
  lemma EscapeAtSplit(s: string, p: nat, x: string)
    requires x != [] && IsAt(s, p, Escape(x) + "\"")
    ensures var e0 := EscapeChar(x[0]);
      && IsAt(s, p, e0) && IsAt(s, p + |e0|, Escape(x[1..]) + "\"") && p + |e0| < |s|
      && |Escape(x)| == |e0| + |Escape(x[1..])|
  {
    var e0, t := EscapeChar(x[0]), Escape(x[1..]) + "\"";
    EscapeQuoted(x);
    IsAtHead(s, p, Escape(x) + "\"", e0, t);
  }

  lemma IsAtHead(s: string, p: nat, t: string, head: string, tail: string)
    requires IsAt(s, p, t) && t == head + tail && tail != []
    ensures IsAt(s, p, head) && IsAt(s, p + |head|, tail) && p + |head| < |s|
  {
    IsAtSplit(s, p, head, tail);
  }

  lemma EscapeQuoted(x: string)
    requires x != []
    ensures Escape(x) + "\"" == EscapeChar(x[0]) + (Escape(x[1..]) + "\"")
  {
    assert Escape(x) == EscapeChar(x[0]) + Escape(x[1..]);
  }

  lemma UnescapedPush(x: string, acc: string, cap: int)
    requires x != []
    ensures PushAll(acc, Unescaped(x), cap)
         == PushAll(if Kept(x[0]) then Push(acc, x[0], cap) else acc, Unescaped(x[1..]), cap)
  {
    var u := Unescaped(x[1..]);
    if Kept(x[0]) {
      assert Unescaped(x) == [x[0]] + u;
      assert ([x[0]] + u)[0] == x[0] && ([x[0]] + u)[1..] == u;
    } else {
      assert Unescaped(x) == u;
    }
  }

  /** parse_string(output_string(x)): the escaped bytes come back, except the
      `\u00xx`-escaped ones, cut to what the destination holds. */
  lemma ParseStringEscaped(s: string, p: nat, line: int, x: string, cap: int)
    requires IsAt(s, p, "\"" + Escape(x) + "\"")
    ensures ParseString(s, Cursor(p, line), cap)
         == Some(Parsed(Unescaped(x)[..Min(|Unescaped(x)|, Cap(cap))], Cursor(p + |Escape(x)| + 2, line)))
  {
    QuoteThenEscaped(s, p, x);
    StrBodyFromStart(s, p + 1, x, cap);
    ParseStringAtQuote(s, p, line, cap, Unescaped(x)[..Min(|Unescaped(x)|, Cap(cap))], p + |Escape(x)| + 2);
  }

  lemma QuoteThenEscaped(s: string, p: nat, x: string)
    requires IsAt(s, p, "\"" + Escape(x) + "\"")
    ensures p < |s| && s[p] == '"' && IsAt(s, p + 1, Escape(x) + "\"")
  {
    assert "\"" + Escape(x) + "\"" == "\"" + (Escape(x) + "\"");
    IsAtSplit(s, p, "\"", Escape(x) + "\"");
    IsAtChar(s, p, "\"", 0);
  }

  /** The string loop started with an empty destination. */
  lemma StrBodyFromStart(s: string, p: nat, x: string, cap: int)
    requires IsAt(s, p, Escape(x) + "\"")
    ensures StrBody(s, p, [], cap) == Some((Unescaped(x)[..Min(|Unescaped(x)|, Cap(cap))], p + |Escape(x)| + 1))
  {
    var u := Unescaped(x);
    StrBodyEscaped(s, p, x, [], cap);
    PushAllKeepsPrefix([], u, cap);
    assert PushAll([], u, cap) == u[..Min(|u|, Cap(cap))] by {
      assert [] + u == u;
    }
  }

  /** A string that starts right at a quote is what the string loop reads
      after it. */
  lemma ParseStringAtQuote(s: string, p: nat, line: int, cap: int, v: string, q: nat)
    requires p < |s| && s[p] == '"'
    requires StrBody(s, p + 1, [], cap) == Some((v, q))
    ensures ParseString(s, Cursor(p, line), cap) == Some(Parsed(v, Cursor(q, line)))
  {
    assert SkipWs(s, Cursor(p, line)) == Cursor(p, line);
    assert Expect(s, Cursor(p, line), '"') == Some(Cursor(p + 1, line));
  }

  /** A string with nothing to escape or drop reads back unchanged when it
      fits the destination. */
  lemma ParsePlainString(s: string, p: nat, line: int, x: string, cap: int)
    requires forall i | 0 <= i < |x| :: !HasShortEscape(x[i]) && !IsControl(x[i])
    requires |x| <= Cap(cap)
    requires IsAt(s, p, "\"" + x + "\"")
    ensures ParseString(s, Cursor(p, line), cap) == Some(Parsed(x, Cursor(p + |x| + 2, line)))
  {
    EscapePlain(x);
    ParseStringEscaped(s, p, line, x, cap);
    assert forall i | 0 <= i < |x| :: Kept(x[i]);
    UnescapedKept(x);
    assert Min(|x|, Cap(cap)) == |x|;
    assert x[..|x|] == x;
  }

  /** parse_uint64(output_int(n)) == n when the number is followed by
      something that is neither a digit nor a dot. */
  lemma ParseUintDigits(s: string, p: nat, line: int, n: u64)
    requires IsAt(s, p, Digits(n))
    requires p + |Digits(n)| < |s| && !IsDigit(s[p + |Digits(n)|]) && s[p + |Digits(n)|] != '.'
    ensures ParseUint64(s, Cursor(p, line)) == Some(Parsed(n, Cursor(p + |Digits(n)|, line)))
  {
    var d := Digits(n);
    IsAtChar(s, p, d, 0);
    assert SkipWs(s, Cursor(p, line)) == Cursor(p, line);
    DigitEndOf(s, p, d);
    IsAtSlice(s, p, d);
    ValueOfDigits(n);
  }

  /** parse_uint64 does not check for overflow: a number of any length is
      read modulo 2^64. */
  lemma ParseUintWraps(s: string, p: nat, line: int, n: nat)
    requires IsAt(s, p, Digits(n))
    requires p + |Digits(n)| < |s| && !IsDigit(s[p + |Digits(n)|]) && s[p + |Digits(n)|] != '.'
    ensures ParseUint64(s, Cursor(p, line)) == Some(Parsed(n % TWO_64, Cursor(p + |Digits(n)|, line)))
  {
    var d := Digits(n);
    IsAtChar(s, p, d, 0);
    assert SkipWs(s, Cursor(p, line)) == Cursor(p, line);
    DigitEndOf(s, p, d);
    IsAtSlice(s, p, d);
    ValueOfDigits(n);
  }

  /** A `.digits` fraction after an unsigned number is read past and
      dropped: the value is the integer part, and reading ends after the
      fraction. */
  lemma ParseUintFraction(s: string, p: nat, line: int, n: u64, m: nat, e: nat)
    requires IsAt(s, p, Digits(n) + "." + Digits(m)) && e == p + |Digits(n)| + 1 + |Digits(m)|
    requires e < |s| ==> !IsDigit(s[e])
    ensures ParseUint64(s, Cursor(p, line)) == Some(Parsed(n, Cursor(e, line)))
  {
    ValueOfDigits(n);
    FractionRead(s, p, line, Digits(n), Digits(m), n, e);
  }

  lemma FractionRead(s: string, p: nat, line: int, d: string, f: string, n: u64, e: nat)
    requires IsAt(s, p, d + "." + f) && AllDigits(d) && AllDigits(f) && |d| >= 1 && Value(d) == n
    requires e == p + |d| + 1 + |f| && (e < |s| ==> !IsDigit(s[e]))
    ensures ParseUint64(s, Cursor(p, line)) == Some(Parsed(n, Cursor(e, line)))
  {
    var q := p + |d|;
    FractionLayout(s, p, d, f);
    DigitEndOf(s, q + 1, f);
    assert DigitEnd(s, q + 1) == e;
    IntegerPart(s, p, d);
    DigitNoSkip(s, p, line);
    assert p < q < |s| && IsDigit(s[p]) && DigitEnd(s, p) == q;
    assert Value(s[p..q]) == n && s[q] == '.';
    UintRead(s, Cursor(p, line), q, e, n);
  }

  /** No blank is skipped before a digit. */
  lemma DigitNoSkip(s: string, p: nat, line: int)
    requires p < |s| && IsDigit(s[p])
    ensures SkipWs(s, Cursor(p, line)) == Cursor(p, line)
  {
  }

  /** parse_uint64 over an integer part that ends at a dot. */
  lemma UintRead(s: string, c: Cursor, q: nat, e: nat, n: u64)
    requires SkipWs(s, c) == c && c.pos < q < |s| && IsDigit(s[c.pos]) && DigitEnd(s, c.pos) == q
    requires Value(s[c.pos..q]) == n && s[q] == '.' && DigitEnd(s, q + 1) == e
    ensures ParseUint64(s, c) == Some(Parsed(n, Cursor(e, c.line)))
  {
  }

  /** The digits of an integer part, stopped by a non-digit. */
  lemma IntegerPart(s: string, p: nat, d: string)
    requires IsAt(s, p, d) && AllDigits(d) && |d| >= 1
    requires p + |d| < |s| && !IsDigit(s[p + |d|])
    ensures p < |s| && IsDigit(s[p]) && DigitEnd(s, p) == p + |d| && s[p..p + |d|] == d
  {
    IsAtChar(s, p, d, 0);
    DigitEndOf(s, p, d);
    IsAtSlice(s, p, d);
  }

  /** Where the integer part, the dot and the fraction of a number lie. */
  lemma FractionLayout(s: string, p: nat, d: string, f: string)
    requires IsAt(s, p, d + "." + f)
    ensures IsAt(s, p, d) && IsAt(s, p + |d| + 1, f)
    ensures p + |d| < |s| && s[p + |d|] == '.'
  {
    IsAtSplit(s, p, d + ".", f);
    IsAtSplit(s, p, d, ".");
    IsAtChar(s, p + |d|, ".", 0);
  }

  /** parse_int64 reads no fraction: it stops at the dot. */
  lemma ParseIntStopsAtDot(s: string, p: nat, line: int, v: i64, m: nat)
    requires IsAt(s, p, SignedDigits(v) + "." + Digits(m))
    ensures ParseInt64(s, Cursor(p, line)) == Some(Parsed(v, Cursor(p + |SignedDigits(v)|, line)))
    ensures s[p + |SignedDigits(v)|] == '.'
  {
    FractionLayout(s, p, SignedDigits(v), Digits(m));
    ParseIntDigits(s, p, line, v);
  }

  /** parse_int64(output_int64(v)) == v when the number is followed by a
      non-digit. */
  lemma ParseIntDigits(s: string, p: nat, line: int, v: i64)
    requires IsAt(s, p, SignedDigits(v))
    requires p + |SignedDigits(v)| < |s| && !IsDigit(s[p + |SignedDigits(v)|])
    ensures ParseInt64(s, Cursor(p, line)) == Some(Parsed(v, Cursor(p + |SignedDigits(v)|, line)))
  {
    if v < 0 {
      ParseIntNegative(s, p, line, v);
    } else {
      ParseIntNonNegative(s, p, line, v);
    }
  }

  lemma ParseIntNonNegative(s: string, p: nat, line: int, v: i64)
    requires v >= 0
    requires IsAt(s, p, SignedDigits(v))
    requires p + |SignedDigits(v)| < |s| && !IsDigit(s[p + |SignedDigits(v)|])
    ensures ParseInt64(s, Cursor(p, line)) == Some(Parsed(v, Cursor(p + |SignedDigits(v)|, line)))
  {
    var d := Digits(v);
    assert SignedDigits(v) == d;
    IsAtChar(s, p, d, 0);
    assert SkipWs(s, Cursor(p, line)) == Cursor(p, line);
    DigitEndOf(s, p, d);
    IsAtSlice(s, p, d);
    ValueOfDigits(v);
  }

  lemma ParseIntNegative(s: string, p: nat, line: int, v: i64)
    requires v < 0
    requires IsAt(s, p, SignedDigits(v))
    requires p + |SignedDigits(v)| < |s| && !IsDigit(s[p + |SignedDigits(v)|])
    ensures ParseInt64(s, Cursor(p, line)) == Some(Parsed(v, Cursor(p + |SignedDigits(v)|, line)))
  {
    var m: nat := -(v as int);
    assert SignedDigits(v) == "-" + Digits(m);
    NegativeDigits(s, p, m);
    SignedOfNegated(m);
    assert SkipWs(s, Cursor(p, line)) == Cursor(p, line);
  }

  /** The magnitude of a negative int64_t, negated and read back as int64_t. */
  lemma SignedOfNegated(m: int)
    requires 0 < m <= TWO_63
    ensures AsSigned64(Wrap(0 - m, TWO_64)) == 0 - m
  {
    assert (0 - m) % TWO_64 == TWO_64 - m;
  }

  lemma NegativeDigits(s: string, p: nat, m: nat)
    requires IsAt(s, p, "-" + Digits(m))
    requires p + 1 + |Digits(m)| < |s| && !IsDigit(s[p + 1 + |Digits(m)|])
    ensures s[p] == '-' && p + 1 < |s| && IsDigit(s[p + 1])
    ensures DigitEnd(s, p + 1) == p + 1 + |Digits(m)|
    ensures Value(s[p + 1..DigitEnd(s, p + 1)]) == m
  {
    var d := Digits(m);
    IsAtSplit(s, p, "-", d);
    IsAtChar(s, p, "-", 0);
    IsAtChar(s, p + 1, d, 0);
    DigitEndOf(s, p + 1, d);
    IsAtSlice(s, p + 1, d);
    ValueOfDigits(m);
  }
}

/** Decimal integers as the cache file writes them (output_int, output_int64
    in src/dir_cache.c) and the value of a run of digits as the parser reads it. */
module Decimal {
  import opened Common

  predicate IsDigit(c: char) { '0' <= c <= '9' }

  predicate AllDigits(ds: seq<char>) { forall i | 0 <= i < |ds| :: IsDigit(ds[i]) }

  function DigitChar(d: int): (c: char)
    requires 0 <= d < 10
    ensures IsDigit(c) && c as int - '0' as int == d
  {
    ('0' as int + d) as char
  }

  /** The number a run of digits denotes, read left to right as the parser
      loops do (`val = val * 10 + digit`), without any width limit. */
  function Value(ds: seq<char>): nat
    requires AllDigits(ds)
  {
    if |ds| == 0 then 0
    else Value(ds[..|ds| - 1]) * 10 + (ds[|ds| - 1] as int - '0' as int)
  }

  /** The shortest decimal form of n: "0" for zero, otherwise no leading zero. */
  function Digits(n: nat): (r: string)
    ensures |r| >= 1 && AllDigits(r)
    ensures n == 0 <==> r == "0"
    ensures n > 0 ==> r[0] != '0'
  {
    if n < 10 then [DigitChar(n)] else Digits(n / 10) + [DigitChar(n % 10)]
  }

  /** The end of the run of digits starting at p. */
  function DigitEnd(s: string, p: nat): (r: nat)
    ensures p <= r && (p <= |s| ==> r <= |s|)
    ensures p <= |s| ==> AllDigits(s[p..r])
    ensures r < |s| ==> !IsDigit(s[r])
    decreases if p < |s| then |s| - p else 0
  {
    if p < |s| && IsDigit(s[p]) then
      var r := DigitEnd(s, p + 1);
      assert forall i | 0 <= i < r - p :: s[p..r][i] == (if i == 0 then s[p] else s[p + 1..r][i - 1]);
      r
    else p
  }

  lemma {:induction false} DigitEndOf(s: string, p: nat, t: string)
    requires IsAt(s, p, t) && AllDigits(t)
    requires p + |t| < |s| ==> !IsDigit(s[p + |t|])
    ensures DigitEnd(s, p) == p + |t|
    decreases |t|
  {
    if t != [] {
      IsAtChar(s, p, t, 0);
      assert t == [t[0]] + t[1..];
      IsAtSplit(s, p, [t[0]], t[1..]);
      DigitEndOf(s, p + 1, t[1..]);
    }
  }

  /** Reading back what Digits writes gives the number again. */
  lemma {:induction false} ValueOfDigits(n: nat)
    ensures Value(Digits(n)) == n
  {
    if n >= 10 {
      var r := Digits(n);
      assert r[..|r| - 1] == Digits(n / 10);
      ValueOfDigits(n / 10);
    }
  }

  /** Digits is the only minimal form: a digit run without a leading zero (or
      the single "0") is exactly Digits of its value. */
  lemma {:induction false} DigitsOfValue(ds: seq<char>)
    requires |ds| >= 1 && AllDigits(ds)
    requires ds[0] != '0' || |ds| == 1
    ensures Digits(Value(ds)) == ds
  {
    var init := ds[..|ds| - 1];
    var d := ds[|ds| - 1] as int - '0' as int;
    if |ds| == 1 {
      assert Value(ds) == d;
    } else {
      assert init[0] == ds[0];
      DigitsOfValue(init);
      ValueAtLeastOne(init);
      assert Value(ds) == Value(init) * 10 + d;
      assert Value(ds) / 10 == Value(init) && Value(ds) % 10 == d;
      assert ds == init + [ds[|ds| - 1]];
    }
  }

  lemma {:induction false} ValueAtLeastOne(ds: seq<char>)
    requires |ds| >= 1 && AllDigits(ds) && ds[0] != '0'
    ensures Value(ds) >= 1
  {
    if |ds| > 1 {
      var init := ds[..|ds| - 1];
      assert init[0] == ds[0];
      ValueAtLeastOne(init);
    }
  }

  /** A number below 10^k has at most k digits. */
  lemma {:induction false} DigitsLength(n: nat, k: nat)
    requires k >= 1 && n < Pow10(k)
    ensures |Digits(n)| <= k
  {
    if n >= 10 {
      assert k >= 2;
      DigitsLength(n / 10, k - 1);
    }
  }

  function Pow10(k: nat): (r: nat)
    ensures r >= 1
  {
    if k == 0 then 1 else 10 * Pow10(k - 1)
  }

  /** A u64 has at most 20 decimal digits, so output_int's 21-byte buffer
      is enough. */
  lemma U64Digits(n: u64)
    ensures |Digits(n)| <= 20
  {
    assert Pow10(10) == 10000000000;
    assert Pow10(20) == 100000000000000000000;
    DigitsLength(n, 20);
  }

  /** output_int64: a minus sign and the magnitude for negatives. */
  function SignedDigits(n: int): (r: string)
    ensures n >= 0 ==> r == Digits(n)
    ensures n < 0 ==> r == "-" + Digits(-n)
  {
    if n < 0 then "-" + Digits(-n) else Digits(n)
  }

  /** Reverse of a sequence, peeling the last element first. */
  function Rev<T>(s: seq<T>): (r: seq<T>)
    ensures |r| == |s|
  {
    if s == [] then [] else [s[|s| - 1]] + Rev(s[..|s| - 1])
  }

  /** The digits of m still to be produced by output_int's first loop. */
  function Pending(m: nat): (r: string)
    ensures m > 0 ==> |r| == |Digits(m)|
  {
    if m == 0 then [] else Digits(m)
  }

  /** Moving the last pending digit d to the collected buffer keeps the
      digits in order. */
  lemma CollectStep<T>(rest: seq<T>, d: T, pre: seq<T>, want: seq<T>)
    requires (rest + [d]) + Rev(pre) == want
    ensures rest + Rev(pre + [d]) == want
  {
    RevSnoc(pre, d);
    assert rest + ([d] + Rev(pre)) == (rest + [d]) + Rev(pre);
  }

  lemma RevSnoc<T>(s: seq<T>, x: T)
    ensures Rev(s + [x]) == [x] + Rev(s)
  {
    assert (s + [x])[..|s|] == s;
  }

  /** output_int's first loop takes off the last digit. */
  lemma PendingStep(m: nat)
    requires m > 0
    ensures Pending(m) == Pending(m / 10) + [DigitChar(m % 10)]
  {
    if m < 10 {
      assert m / 10 == 0 && m % 10 == m;
    }
  }

  lemma EmitStep(out: string, pending: string, want: string)
    requires |pending| > 0 && out + Rev(pending) == want
    ensures (out + [pending[|pending| - 1]]) + Rev(pending[..|pending| - 1]) == want
  {
  }

  /** output_int: collect the digits least significant first in a 21-byte
      buffer, then emit them from the end of the buffer. */
  method OutputInt(n: u64) returns (out: string)
    ensures out == Digits(n)
  {
    if n == 0 {
      return "0";
    }
    U64Digits(n);
    ghost var want := Digits(n);
    var tmp := new char[21];
    var i := 0;
    var m: nat := n;
    while m > 0
      invariant 0 <= i <= 20
      invariant Pending(m) + Rev(tmp[..i]) == want
      invariant |Pending(m)| + i <= 20
    {
      ghost var pre := tmp[..i];
      var d := DigitChar(m % 10);
      tmp[i] := d;
      assert tmp[..i + 1] == pre + [d];
      PendingStep(m);
      CollectStep(Pending(m / 10), d, pre, want);
      i := i + 1;
      m := m / 10;
    }
    out := [];
    while i > 0
      invariant 0 <= i <= 20
      invariant out + Rev(tmp[..i]) == want
    {
      EmitStep(out, tmp[..i], want);
      assert tmp[..i][..i - 1] == tmp[..i - 1];
      out := out + [tmp[i - 1]];
      i := i - 1;
    }
  }

  /** output_int64. For INT64_MIN the source negates in 64-bit arithmetic,
      which wraps to the same bit pattern; read as uint64_t that is 2^63, the
      magnitude, so the text is still exact. */
  method OutputInt64(n: i64) returns (out: string)
    ensures out == SignedDigits(n)
  {
    if n < 0 {
      var magnitude: u64 := Wrap(-(n as int), TWO_64);
      var digits := OutputInt(magnitude);
      out := "-" + digits;
    } else {
      out := OutputInt(n);
    }
  }
}

/** Shared vocabulary: an optional value, the C integer widths the cache uses,
    and the view of a byte buffer as a NUL-terminated C string. A `char` stands
    for one byte of the original program. */
module Common {

  datatype Option<+T> = None | Some(value: T)

  const TWO_16: int := 0x1_0000
  const TWO_32: int := 0x1_0000_0000
  const TWO_63: int := 0x8000_0000_0000_0000
  const TWO_64: int := 0x1_0000_0000_0000_0000
  const INT64_MAX: int := TWO_63 - 1
  const INT64_MIN: int := -TWO_63

  /** unsigned short, unsigned int, uint64_t, int64_t */
  type u16 = x: int | 0 <= x < TWO_16
  type u32 = x: int | 0 <= x < TWO_32
  type u64 = x: int | 0 <= x < TWO_64
  type i64 = x: int | INT64_MIN <= x < TWO_63

  /** The value an unsigned C variable of 2^bits range holds after `x` is
      stored into it (wrap-around). */
  function Wrap(x: int, modulus: int): (r: int)
    requires modulus > 0
    ensures 0 <= r < modulus
    ensures 0 <= x < modulus ==> r == x
    ensures (x - r) % modulus == 0
  {
    WrapCongruent(x, modulus);
    x % modulus
  }

  /** What a store drops from x is a whole number of moduli. */
  lemma WrapCongruent(x: int, modulus: int)
    requires modulus > 0
    ensures (x - x % modulus) % modulus == 0
  {
    var k := x / modulus;
    assert x - x % modulus == modulus * k;
    MultipleMod(modulus, k);
  }

  lemma MultipleMod(m: int, k: int)
    requires m > 0
    ensures (m * k) % m == 0
  {
    var q := (m * k) / m;
    var r := (m * k) % m;
    var d := k - q;
    assert m * d == r by {
      assert m * k == m * q + r;
      assert m * d == m * k - m * q;
    }
    if d > 0 {
      MulAtLeast(m, d);
    } else if d < 0 {
      MulAtMost(m, d);
    }
  }

  lemma MulAtLeast(m: int, d: int)
    requires m > 0 && d >= 1
    ensures m * d >= m
  {
    assert m * d == m * (d - 1) + m;
    assert m * (d - 1) >= 0;
  }

  lemma MulAtMost(m: int, d: int)
    requires m > 0 && d <= -1
    ensures m * d <= -m
  {
    assert m * d == m * (d + 1) - m;
    assert m * (d + 1) <= 0;
  }

  /** The two's complement reading of a 64-bit pattern. */
  function AsSigned64(x: u64): (r: i64)
    ensures r % TWO_64 == x
    ensures x < TWO_63 ==> r == x
  {
    if x < TWO_63 then x else x - TWO_64
  }

  /** Prefix of a buffer up to (excluding) its first NUL byte: what strlen,
      strcmp and strdup see of it. */
  function CStr(s: seq<char>): (r: seq<char>)
    ensures |r| <= |s| && r == s[..|r|]
    ensures '\0' !in r
    ensures |r| < |s| ==> s[|r|] == '\0'
  {
    if |s| == 0 then []
    else if s[0] == '\0' then []
    else [s[0]] + CStr(s[1..])
  }

  /** t occurs in s at position p. */
  predicate IsAt(s: string, p: nat, t: string)
    decreases |t|
  {
    p + |t| <= |s| && (t == [] || (s[p] == t[0] && IsAt(s, p + 1, t[1..])))
  }

  lemma {:induction false} IsAtSplit(s: string, p: nat, a: string, b: string)
    requires IsAt(s, p, a + b)
    ensures IsAt(s, p, a) && IsAt(s, p + |a|, b)
    decreases |a|
  {
    if a == [] {
      assert a + b == b;
    } else {
      assert (a + b)[0] == a[0] && (a + b)[1..] == a[1..] + b;
      IsAtSplit(s, p + 1, a[1..], b);
    }
  }

  lemma {:induction false} IsAtJoin(s: string, p: nat, a: string, b: string)
    requires IsAt(s, p, a) && IsAt(s, p + |a|, b)
    ensures IsAt(s, p, a + b)
    decreases |a|
  {
    if a == [] {
      assert a + b == b;
    } else {
      assert (a + b)[0] == a[0] && (a + b)[1..] == a[1..] + b;
      IsAtJoin(s, p + 1, a[1..], b);
    }
  }

  lemma {:induction false} IsAtChar(s: string, p: nat, t: string, i: nat)
    requires IsAt(s, p, t) && i < |t|
    ensures s[p + i] == t[i]
    decreases i
  {
    if i > 0 {
      IsAtChar(s, p + 1, t[1..], i - 1);
    }
  }

  /** The rest of s from p occurs at p. */
  lemma {:induction false} IsAtRest(s: string, p: nat)
    requires p <= |s|
    ensures IsAt(s, p, s[p..])
    decreases |s| - p
  {
    if p < |s| {
      assert s[p..][1..] == s[p + 1..];
      IsAtRest(s, p + 1);
    }
  }

  /** The slice of s at p is t. */
  lemma {:induction false} IsAtSlice(s: string, p: nat, t: string)
    requires IsAt(s, p, t)
    ensures s[p..p + |t|] == t
  {
    forall i | 0 <= i < |t| ensures s[p..p + |t|][i] == t[i] {
      IsAtChar(s, p, t, i);
    }
  }

  function Min(a: int, b: int): int { if a <= b then a else b }
}

/** The content of the lock file (write_lock_info, read_lock_info in
    src/dir_cache_lock.c) and the staleness test is_lock_stale built on it.
    The process id and the clock are inputs. */
module LockInfo {
  import opened Common
  import opened Decimal

  /** Age, in seconds, past which a holder is presumed stuck. */
  const STALE_LOCK_THRESHOLD: int := 300

  /** Size of the buffers of write_lock_info and read_lock_info. */
  const INFO_BUF: int := 64

  const TWO_31: int := 0x8000_0000

  /** pid_t, a 32-bit signed integer. */
  type i32 = x: int | -TWO_31 <= x < TWO_31

  /** The text write_lock_info formats with "%ld %ld\n". */
  function LockText(pid: int, ts: int): string {
    SignedDigits(pid) + " " + SignedDigits(ts) + "\n"
  }

  /** write_lock_info's formatting step: snprintf into a 64-byte buffer, which
      fails when the text does not fit. The truncate, write and fsync that
      follow are left to the lock manager's oracle. */
  function WriteLockInfo(pid: int, ts: int): Option<string> {
    var t := LockText(pid, ts);
    if |t| >= INFO_BUF then None else Some(t)
  }

  /** isspace in the C locale. */
  predicate IsSpace(c: char) {
    c == ' ' || c == '\t' || c == '\n' || c == 11 as char || c == 12 as char || c == '\r'
  }

  /** strtol's saturation at the ends of the long range. */
  function Clamp64(v: int): (r: int)
    ensures INT64_MIN <= r <= INT64_MAX
    ensures INT64_MIN <= v <= INT64_MAX ==> r == v
  {
    if v > INT64_MAX then INT64_MAX else if v < INT64_MIN then INT64_MIN else v
  }

  /** Where the digits start: past an optional sign at q. */
  function SignEnd(s: string, q: nat): (r: nat)
    ensures r == q || (r == q + 1 && q < |s|)
  {
    if q < |s| && (s[q] == '-' || s[q] == '+') then q + 1 else q
  }

  /** A long read by `%ld`: blanks, an optional sign, at least one digit.
      An out-of-range number saturates, as strtol does. */
  function ScanLong(s: string, p: nat): (r: Option<(int, nat)>)
    ensures r.Some? ==> INT64_MIN <= r.value.0 <= INT64_MAX && p < r.value.1 <= |s|
    decreases if p < |s| then |s| - p else 0
  {
    if p < |s| && IsSpace(s[p]) then ScanLong(s, p + 1) else ScanNumber(s, p)
  }

  /** The number at q, past the blanks. */
  function ScanNumber(s: string, q: nat): (r: Option<(int, nat)>)
    ensures r.Some? ==> INT64_MIN <= r.value.0 <= INT64_MAX && q < r.value.1 <= |s|
  {
    var d := SignEnd(s, q);
    if !(d < |s| && IsDigit(s[d])) then None
    else
      var (n, e) := Accumulate(s, d, 0);
      Some((Clamp64(if q < |s| && s[q] == '-' then 0 - n else n), e))
  }

  /** strtol's digit loop: `val = val * 10 + digit` while a digit follows;
      the value so far and where the digits end. */
  function Accumulate(s: string, p: nat, acc: nat): (r: (nat, nat))
    ensures p <= r.1 && (p <= |s| ==> r.1 <= |s|)
    ensures p < |s| && IsDigit(s[p]) ==> p < r.1
    decreases if p < |s| then |s| - p else 0
  {
    if p < |s| && IsDigit(s[p]) then Accumulate(s, p + 1, acc * 10 + (s[p] as int - '0' as int))
    else (acc, p)
  }

  /** (pid_t)pid_val: the low 32 bits, read as signed. */
  function AsPid(v: int): (r: i32)
    ensures -TWO_31 <= v < TWO_31 ==> r == v
  {
    var w := Wrap(v, TWO_32);
    if w < TWO_31 then w else w - TWO_32
  }

  /** read_lock_info: read at most 63 bytes; an empty read is a failure;
      sscanf "%ld %ld" must convert both numbers. */
  function ReadLockInfo(content: string): Option<(i32, int)> {
    var buf := content[..Min(|content|, INFO_BUF - 1)];
    if |buf| == 0 then None
    else
      var s := CStr(buf);
      match ScanLong(s, 0)
      case None => None
      case Some((pid, p1)) =>
        match ScanLong(s, p1)
        case None => None
        case Some((ts, _)) => Some((AsPid(pid), ts))
  }

  /** process_alive: a positive pid whose `kill(pid, 0)` succeeded or failed
      only with EPERM (that outcome is the input `killOk`). */
  predicate ProcessAlive(pid: int, killOk: bool) { pid > 0 && killOk }

  /** The test is_lock_stale applies to what read_lock_info returned:
      unreadable or malformed info, a dead holder, or a recorded time more
      than 300 seconds before `now`. */
  predicate StaleVerdict(info: Option<(i32, int)>, killOk: bool, now: int) {
    match info
    case None => true
    case Some((pid, ts)) => !ProcessAlive(pid, killOk) || (ts > 0 && now - ts > STALE_LOCK_THRESHOLD)
  }

  /** is_lock_stale on the lock file's content. */
  predicate IsLockStale(content: string, killOk: bool, now: int) {
    StaleVerdict(ReadLockInfo(content), killOk, now)
  }

  /** The text of an int64 is at most 21 characters long. */
  lemma SignedDigitsLength(v: i64)
    ensures |SignedDigits(v)| <= 21
  {
    if v < 0 {
      U64Digits(-(v as int));
    } else {
      U64Digits(v);
    }
  }

  /** The digit run of Digits(n), followed by a non-digit, is scanned whole
      and has the value n. */
  lemma ReadDigits(s: string, p: nat, n: nat)
    requires IsAt(s, p, Digits(n))
    requires p + |Digits(n)| < |s| && !IsDigit(s[p + |Digits(n)|])
    ensures Accumulate(s, p, 0) == (n, p + |Digits(n)|)
  {
    assert Value([]) == 0;
    AccumulateDigits(s, p, [], Digits(n));
    assert [] + Digits(n) == Digits(n);
    ValueOfDigits(n);
  }

  /** The digit loop, entered with the value of the digits u already read,
      reads the digits t that follow and stops at the non-digit after them. */
  lemma {:induction false} AccumulateDigits(s: string, p: nat, u: string, t: string)
    requires AllDigits(u) && AllDigits(t) && IsAt(s, p, t)
    requires p + |t| < |s| && !IsDigit(s[p + |t|])
    ensures AllDigits(u + t)
    ensures Accumulate(s, p, Value(u)) == (Value(u + t), p + |t|)
    decreases |t|
  {
    if t == [] {
      assert u + t == u;
    } else {
      IsAtChar(s, p, t, 0);
      assert t == [t[0]] + t[1..];
      IsAtSplit(s, p, [t[0]], t[1..]);
      var u' := u + [t[0]];
      assert u'[..|u'| - 1] == u;
      assert Value(u') == Value(u) * 10 + (t[0] as int - '0' as int);
      AccumulateDigits(s, p + 1, u', t[1..]);
      assert u' + t[1..] == u + t;
    }
  }

  /** `%ld` reads back what `%ld` printed, when a non-digit follows. */
  lemma ScanSigned(s: string, p: nat, v: i64)
    requires IsAt(s, p, SignedDigits(v))
    requires p + |SignedDigits(v)| < |s| && !IsDigit(s[p + |SignedDigits(v)|])
    ensures ScanLong(s, p) == Some((v as int, p + |SignedDigits(v)|))
  {
    if v < 0 {
      var m: nat := -(v as int);
      MinusAt(s, p, Digits(m));
      ScanDigitsAt(s, p, p + 1, m);
    } else {
      IsAtChar(s, p, Digits(v), 0);
      ScanDigitsAt(s, p, p, v);
    }
  }

  lemma MinusAt(s: string, p: nat, d: string)
    requires IsAt(s, p, "-" + d)
    ensures p < |s| && s[p] == '-' && IsAt(s, p + 1, d)
  {
    IsAtSplit(s, p, "-", d);
    IsAtChar(s, p, "-", 0);
  }

  /** With no blank at p and the digits of n at d, past the sign, `%ld`
      reads n, negated after a minus. */
  lemma ScanDigitsAt(s: string, p: nat, d: nat, n: nat)
    requires SignEnd(s, p) == d
    requires IsAt(s, d, Digits(n)) && d + |Digits(n)| < |s| && !IsDigit(s[d + |Digits(n)|])
    ensures ScanNumber(s, p)
      == Some((Clamp64(if p < |s| && s[p] == '-' then 0 - n else n), d + |Digits(n)|))
  {
    ReadDigits(s, d, n);
    IsAtChar(s, d, Digits(n), 0);
  }

  /** Where the two parts of a lock text sit. */
  lemma LockTextParts(pid: i64, ts: i64)
    ensures var a := SignedDigits(pid); var b := SignedDigits(ts); var t := LockText(pid, ts);
      && IsAt(t, 0, a) && t[|a|] == ' ' && IsAt(t, |a| + 1, b) && t[|a| + 1 + |b|] == '\n'
      && |t| == |a| + |b| + 2
  {
    LineParts(SignedDigits(pid), SignedDigits(ts));
  }

  /** The layout of "a b\n". */
  lemma LineParts(a: string, b: string)
    ensures var t := a + " " + b + "\n";
      && IsAt(t, 0, a) && t[|a|] == ' ' && IsAt(t, |a| + 1, b) && t[|a| + 1 + |b|] == '\n'
      && |t| == |a| + |b| + 2
  {
    var t := a + " " + b + "\n";
    assert t == a + (" " + (b + "\n"));
    IsAtRest(t, 0);
    assert t[0..] == t;
    IsAtSplit(t, 0, a, " " + (b + "\n"));
    IsAtSplit(t, |a|, " ", b + "\n");
    IsAtSplit(t, |a| + 1, b, "\n");
  }

  /** Both numbers of a lock text are scanned back. */
  lemma ScanLockText(pid: i64, ts: i64)
    ensures var a := SignedDigits(pid);
      && ScanLong(LockText(pid, ts), 0) == Some((pid as int, |a|))
      && ScanLong(LockText(pid, ts), |a|).Some?
      && ScanLong(LockText(pid, ts), |a|).value.0 == ts as int
  {
    LockTextParts(pid, ts);
    ScanPair(LockText(pid, ts), pid, ts);
  }

  lemma ScanPair(t: string, pid: i64, ts: i64)
    requires var a := SignedDigits(pid); var b := SignedDigits(ts);
      && |t| == |a| + |b| + 2
      && IsAt(t, 0, a) && t[|a|] == ' ' && IsAt(t, |a| + 1, b) && t[|a| + 1 + |b|] == '\n'
    ensures var a := SignedDigits(pid);
      && ScanLong(t, 0) == Some((pid as int, |a|))
      && ScanLong(t, |a|).Some? && ScanLong(t, |a|).value.0 == ts as int
  {
    var a := SignedDigits(pid);
    var b := SignedDigits(ts);
    ScanSigned(t, 0, pid);
    ScanSecond(t, |a|, ts);
  }

  lemma ScanSecond(t: string, p: nat, ts: i64)
    requires var b := SignedDigits(ts);
      && |t| == p + |b| + 2
      && t[p] == ' ' && IsAt(t, p + 1, b) && t[p + 1 + |b|] == '\n'
    ensures ScanLong(t, p) == Some((ts as int, p + 1 + |SignedDigits(ts)|))
  {
    ScanSigned(t, p + 1, ts);
  }

  /** A lock text holds no NUL, so its C string is the whole text. */
  lemma LockTextCStr(pid: int, ts: int)
    ensures CStr(LockText(pid, ts)) == LockText(pid, ts)
  {
    SignedNoNul(pid);
    SignedNoNul(ts);
    assert '\0' !in LockText(pid, ts);
  }

  lemma SignedNoNul(n: int)
    ensures '\0' !in SignedDigits(n)
  {
  }

  /** What an exclusive holder writes is read back exactly: its pid and its
      timestamp. */
  lemma LockInfoRoundTrip(pid: i32, ts: i64)
    ensures WriteLockInfo(pid, ts).Some?
    ensures ReadLockInfo(WriteLockInfo(pid, ts).value) == Some((pid, ts as int))
  {
    var t := LockText(pid, ts);
    SignedDigitsLength(pid);
    SignedDigitsLength(ts);
    assert |t| < INFO_BUF - 1;
    assert t[..Min(|t|, INFO_BUF - 1)] == t;
    LockTextCStr(pid, ts);
    ScanLockText(pid, ts);
  }

  /** A lock whose holder is alive and wrote its info at most 300 seconds
      ago is not stale; one whose holder is dead is stale, and so is one
      written more than 300 seconds ago. */
  lemma StalenessOfWrittenInfo(pid: i32, ts: i64, killOk: bool, now: int)
    requires pid > 0
    ensures IsLockStale(LockText(pid, ts), killOk, now)
        <==> !killOk || (ts > 0 && now - ts > STALE_LOCK_THRESHOLD)
  {
    LockInfoRoundTrip(pid, ts);
  }
}

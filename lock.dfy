/** The cache lock of src/dir_cache_lock.c: an advisory flock on the file
    `<cache>.lock`, shared for readers and exclusive for the writer, taken
    with a timeout, exponential back-off between attempts and a one-time
    check for a stale holder.

    The operating system is an oracle (`World`): the result of open, of each
    non-blocking flock attempt together with the seconds elapsed when it was
    checked, the clock, the lock file's content, and whether kill and the
    info write succeed. The calls the lock manager makes are recorded, in
    order, as `LockOp`s. */
module CacheLock {
  import opened Common
  import opened LockInfo

  /** First pause between attempts, in microseconds. */
  const INITIAL_RETRY_DELAY_US: nat := 10000
  /** Largest pause between attempts, in microseconds. */
  const MAX_RETRY_DELAY_US: nat := 500000

  datatype Mode = Shared | Exclusive

  /** A non-blocking flock: granted, held by someone else (EWOULDBLOCK or
      EAGAIN), or any other error. */
  datatype Flock = Granted | Busy | Broken

  /** One pass of the acquisition loop: what flock answered, and
      `time(NULL) - start_time` should the timeout be consulted. */
  datatype Try = Try(flock: Flock, elapsed: int)

  datatype World = World(
    openFd: Option<nat>,   // open(O_RDWR|O_CREAT) of the lock file
    tries: seq<Try>,       // the passes of the loop, as long as it runs
    pid: i32,              // getpid()
    holderInfo: Option<(i32, int)>,  // what read_lock_info returns in the stale check
    killOk: bool,          // kill(holder, 0) succeeded or failed with EPERM
    checkTime: int,        // time(NULL) inside the stale check
    writeTime: i64,        // time(NULL) inside write_lock_info
    writeOk: bool,         // ftruncate, lseek, write and fsync all succeed
    reclaim: bool,         // the exclusive flock taken on a stale lock succeeds
    downgrade: bool)       // the shared flock taken after it succeeds

  /** The system calls of the lock manager, as a trace. */
  datatype LockOp =
    | OpenLock(path: string)
    | TryLock(mode: Mode)
    | Unlock
    | CloseFd(fd: int)
    | ReadInfo
    | WriteInfo(pid: int, time: int)   // write_lock_info: the text LockText(pid, time)
    | Sleep(us: nat)

  /** Acquired (0), Failed (-1), or Pending: the oracle's passes ran out
      while the source would still be retrying. */
  datatype Outcome = Acquired | Failed | Pending

  datatype Run = Run(outcome: Outcome, ops: seq<LockOp>)

  /** The module's static variables: lock_file_path, lock_fd, current_mode
      and lock_held. */
  datatype LockState = LockState(path: Option<string>, fd: int, mode: Mode, held: bool)

  datatype Step = Step(run: Run, st: LockState)

  /** A held lock has an open descriptor and a path. */
  predicate Consistent(st: LockState) {
    st.held ==> st.fd >= 0 && st.path.Some?
  }

  function Prepend(p: seq<LockOp>, r: Run): Run {
    Run(r.outcome, p + r.ops)
  }

  /** `retry_delay *= 2`, capped at MAX_RETRY_DELAY_US. */
  function NextDelay(d: nat): nat {
    if 2 * d > MAX_RETRY_DELAY_US then MAX_RETRY_DELAY_US else 2 * d
  }

  /** write_lock_info succeeds: every system call succeeds. (Its snprintf
      cannot fail: the text of a pid and a time always fits the buffer, as
      LockInfo.LockInfoRoundTrip shows.) */
  predicate Writes(w: World) {
    w.writeOk
  }

  /** An exclusive acquisition writes the holder's info; when that fails the
      lock is dropped and the descriptor closed. */
  function WriteStep(fd: nat, w: World): Run {
    var write := WriteInfo(w.pid, w.writeTime);
    if Writes(w) then Run(Acquired, [write]) else Run(Failed, [write, Unlock, CloseFd(fd)])
  }

  /** After the exclusive flock on a stale lock was granted: keep it and
      write the info, or drop it and take a shared one. */
  function Reclaim(mode: Mode, fd: nat, w: World): Run {
    if mode == Exclusive then WriteStep(fd, w)
    else if w.downgrade then Run(Acquired, [Unlock, TryLock(Shared)])
    else Run(Failed, [Unlock, TryLock(Shared), CloseFd(fd)])
  }

  /** The stale check's verdict on the lock file's holder. */
  predicate HolderStale(w: World) {
    StaleVerdict(w.holderInfo, w.killOk, w.checkTime)
  }

  /** The stale check on a lock file a live-pid holder wrote with
      write_lock_info: when the oracle's answer is what read_lock_info makes
      of that text, the verdict is is_lock_stale of the text, which is "the
      holder is gone or its info is more than 300 seconds old". */
  lemma HolderStaleOfWritten(w: World, holder: i32, ts: i64)
    requires holder > 0
    requires w.holderInfo == ReadLockInfo(LockText(holder, ts))
    ensures HolderStale(w) == IsLockStale(LockText(holder, ts), w.killOk, w.checkTime)
    ensures HolderStale(w) <==> !w.killOk || (ts > 0 && w.checkTime - ts > STALE_LOCK_THRESHOLD)
  {
    LockInfoRoundTrip(holder, ts);
  }

  /** One pass of the `while (1)` of cache_lock_acquire, with `delay` the
      current retry_delay and `stale` the verdict the stale check gives
      (HolderStale(w) in an acquisition; the properties below hold for
      either verdict). Pending means the pass ended in a pause and the loop
      goes on. */
  function Pass(mode: Mode, timeout: int, fd: nat, w: World, stale: bool, i: nat, delay: nat): (r: Run)
    requires i < |w.tries|
    ensures r.ops != [] && r.ops[0] == TryLock(mode)
  {
    var t := w.tries[i];
    match t.flock
    case Granted =>
      if mode == Exclusive then Prepend([TryLock(mode)], WriteStep(fd, w))
      else Run(Acquired, [TryLock(mode)])
    case Broken => Run(Failed, [TryLock(mode), CloseFd(fd)])
    case Busy => Prepend([TryLock(mode)], Contended(mode, timeout, fd, w, stale, i, delay))
  }

  /** The rest of a pass whose flock found the lock held. Only pass 0 can
      be the first busy attempt, so only it reads the lock file and checks
      for a stale holder. */
  function Contended(mode: Mode, timeout: int, fd: nat, w: World, stale: bool, i: nat, delay: nat): Run
    requires i < |w.tries|
  {
    if i == 0 then Prepend([ReadInfo], AfterCheck(mode, timeout, fd, w, stale, delay))
    else Wait(timeout, fd, w.tries[i].elapsed, delay)
  }

  /** After the stale check of pass 0: a stale holder's lock is tried
      exclusively and, when granted, taken over; otherwise the pass ends as
      any contended pass does. */
  function AfterCheck(mode: Mode, timeout: int, fd: nat, w: World, stale: bool, delay: nat): Run
    requires 0 < |w.tries|
  {
    if !stale then Wait(timeout, fd, w.tries[0].elapsed, delay)
    else if w.reclaim then Prepend([TryLock(Exclusive)], Reclaim(mode, fd, w))
    else Prepend([TryLock(Exclusive)], Wait(timeout, fd, w.tries[0].elapsed, delay))
  }

  /** The end of a contended pass: give up when the timeout is 0 or used
      up, otherwise pause for the current delay. */
  function Wait(timeout: int, fd: nat, elapsed: int, delay: nat): Run {
    if timeout == 0 || (timeout > 0 && elapsed >= timeout) then Run(Failed, [CloseFd(fd)])
    else Run(Pending, [Sleep(delay)])
  }

  /** The loop from pass i on. */
  function Loop(mode: Mode, timeout: int, fd: nat, w: World, stale: bool, i: nat, delay: nat): Run
    decreases |w.tries| - i
  {
    if i >= |w.tries| then Run(Pending, [])
    else
      var p := Pass(mode, timeout, fd, w, stale, i, delay);
      if p.outcome == Pending then Prepend(p.ops, Loop(mode, timeout, fd, w, stale, i + 1, NextDelay(delay)))
      else p
  }

  /** cache_lock_release: a no-op unless a lock is held on an open
      descriptor. */
  function ReleaseSpec(st: LockState): Step {
    if !st.held || st.fd < 0 then Step(Run(Acquired, []), st)
    else Step(Run(Acquired, [Unlock, CloseFd(st.fd)]), st.(fd := -1, held := false))
  }

  /** cache_lock_acquire. */
  function AcquireSpec(st: LockState, mode: Mode, timeout: int, w: World): Step {
    if st.path.None? then Step(Run(Failed, []), st)
    else if st.held && (st.mode == Exclusive || mode == Shared) then Step(Run(Acquired, []), st)
    else
      var rel := if st.held then ReleaseSpec(st) else Step(Run(Acquired, []), st);
      var o := OpenSpec(rel.st, mode, timeout, w);
      Step(Prepend(rel.run.ops, o.run), o.st)
  }

  /** The part of cache_lock_acquire from opening the lock file on: the
      loop runs on the new descriptor, and success records the lock. */
  function OpenSpec(st: LockState, mode: Mode, timeout: int, w: World): Step
    requires st.path.Some?
  {
    var pre := [OpenLock(st.path.value)];
    match w.openFd
    case None => Step(Run(Failed, pre), st)
    case Some(fd) =>
      var r := Loop(mode, timeout, fd, w, HolderStale(w), 0, INITIAL_RETRY_DELAY_US);
      Step(Prepend(pre, r), if r.outcome == Acquired then st.(fd := fd, mode := mode, held := true) else st)
  }

  /** cache_lock_init: forget any previous lock, then derive the lock
      file's name from the cache file's. */
  function InitSpec(st: LockState, cachePath: Option<string>): Step {
    var c := ReleaseSpec(st);
    match cachePath
    case None => Step(Run(Failed, c.run.ops), c.st.(path := None))
    case Some(p) => Step(Run(Acquired, c.run.ops), c.st.(path := Some(p + ".lock")))
  }

  /** cache_lock_cleanup: release, then forget the path. */
  function CleanupSpec(st: LockState): Step {
    var c := ReleaseSpec(st);
    Step(c.run, c.st.(path := None))
  }

  // ---------------------------------------------------------------------
  // Properties of the specification.

  /** The pauses of a trace, in order. */
  function Sleeps(ops: seq<LockOp>): (r: seq<nat>)
    ensures |r| <= |ops|
  {
    if ops == [] then []
    else (if ops[0].Sleep? then [ops[0].us] else []) + Sleeps(ops[1..])
  }

  lemma {:induction false} SleepsAppend(a: seq<LockOp>, b: seq<LockOp>)
    ensures Sleeps(a + b) == Sleeps(a) + Sleeps(b)
    decreases |a|
  {
    if a != [] {
      var h := if a[0].Sleep? then [a[0].us] else [];
      assert (a + b)[0] == a[0];
      assert (a + b)[1..] == a[1..] + b;
      SleepsAppend(a[1..], b);
      calc {
        Sleeps(a + b);
        h + Sleeps(a[1..] + b);
        h + (Sleeps(a[1..]) + Sleeps(b));
        (h + Sleeps(a[1..])) + Sleeps(b);
      }
    } else {
      assert a + b == b;
    }
  }

  lemma {:induction false} SleepsNone(ops: seq<LockOp>)
    requires forall k | 0 <= k < |ops| :: !ops[k].Sleep?
    ensures Sleeps(ops) == []
    decreases |ops|
  {
    if ops != [] {
      SleepsNone(ops[1..]);
    }
  }

  /** A pass pauses once, for the current delay, exactly when the loop goes
      on after it. */
  lemma PassSleeps(mode: Mode, timeout: int, fd: nat, w: World, stale: bool, i: nat, delay: nat)
    requires i < |w.tries|
    ensures var p := Pass(mode, timeout, fd, w, stale, i, delay);
      Sleeps(p.ops) == if p.outcome == Pending then [delay] else []
  {
    var p := Pass(mode, timeout, fd, w, stale, i, delay);
    if w.tries[i].flock.Busy? {
      ContendedSleeps(mode, timeout, fd, w, stale, i, delay);
      PrependPauses([TryLock(mode)], Contended(mode, timeout, fd, w, stale, i, delay), delay);
    } else {
      SleepsNone(p.ops);
    }
  }

  /** A run paces correctly: one pause, for delay, exactly when it goes
      on. */
  predicate PausesOnce(r: Run, delay: nat) {
    Sleeps(r.ops) == if r.outcome == Pending then [delay] else []
  }

  lemma PrependPauses(p: seq<LockOp>, r: Run, delay: nat)
    requires forall k | 0 <= k < |p| :: !p[k].Sleep?
    requires PausesOnce(r, delay)
    ensures PausesOnce(Prepend(p, r), delay)
  {
    SleepsNone(p);
    SleepsAppend(p, r.ops);
  }

  lemma WaitPauses(timeout: int, fd: nat, elapsed: int, delay: nat)
    ensures PausesOnce(Wait(timeout, fd, elapsed, delay), delay)
  {
    var r := Wait(timeout, fd, elapsed, delay);
    assert Sleeps(r.ops) == Sleeps(r.ops[1..]) + (if r.ops[0].Sleep? then [r.ops[0].us] else []);
  }

  lemma ReclaimPauses(mode: Mode, fd: nat, w: World, delay: nat)
    ensures PausesOnce(Reclaim(mode, fd, w), delay)
  {
    SleepsNone(Reclaim(mode, fd, w).ops);
  }

  lemma ContendedSleeps(mode: Mode, timeout: int, fd: nat, w: World, stale: bool, i: nat, delay: nat)
    requires i < |w.tries|
    ensures PausesOnce(Contended(mode, timeout, fd, w, stale, i, delay), delay)
  {
    WaitPauses(timeout, fd, w.tries[i].elapsed, delay);
    if i == 0 {
      if stale {
        if w.reclaim {
          ReclaimPauses(mode, fd, w, delay);
          PrependPauses([TryLock(Exclusive)], Reclaim(mode, fd, w), delay);
        } else {
          PrependPauses([TryLock(Exclusive)], Wait(timeout, fd, w.tries[0].elapsed, delay), delay);
        }
      }
      PrependPauses([ReadInfo], AfterCheck(mode, timeout, fd, w, stale, delay), delay);
    }
  }

  lemma PrependTwice(a: seq<LockOp>, b: seq<LockOp>, r: Run)
    ensures Prepend(a, Prepend(b, r)) == Prepend(a + b, r)
  {
    AppendAssoc(a, b, r.ops);
  }

  lemma AppendAssoc(a: seq<LockOp>, b: seq<LockOp>, c: seq<LockOp>)
    ensures a + (b + c) == (a + b) + c
  {
  }

  /** One unfolding of the loop. */
  lemma LoopStep(mode: Mode, timeout: int, fd: nat, w: World, stale: bool, i: nat, delay: nat)
    requires i < |w.tries|
    ensures var p := Pass(mode, timeout, fd, w, stale, i, delay);
      Loop(mode, timeout, fd, w, stale, i, delay)
        == if p.outcome == Pending then Prepend(p.ops, Loop(mode, timeout, fd, w, stale, i + 1, NextDelay(delay))) else p
  {
  }

  function Pow2(k: nat): (r: nat)
    ensures r >= 1
  {
    if k == 0 then 1 else 2 * Pow2(k - 1)
  }

  /** The k-th pause: 10 ms doubled k times, capped at 500 ms. */
  function Backoff(k: nat): nat {
    Min(INITIAL_RETRY_DELAY_US * Pow2(k), MAX_RETRY_DELAY_US)
  }

  lemma NextBackoff(k: nat)
    ensures NextDelay(Backoff(k)) == Backoff(k + 1)
  {
    assert Pow2(k + 1) == 2 * Pow2(k);
  }

  /** sl are the back-off values from the j-th on. */
  predicate BackoffFrom(sl: seq<nat>, j: nat) {
    forall k | 0 <= k < |sl| :: sl[k] == Backoff(j + k)
  }

  /** n pauses starting with d, each the next delay after the one before. */
  function Schedule(d: nat, n: nat): (r: seq<nat>)
    ensures |r| == n
    decreases n
  {
    if n == 0 then [] else [d] + Schedule(NextDelay(d), n - 1)
  }

  /** The pauses of the loop from pass i, entered with delay d, start with
      d and each is the next delay after the one before. */
  lemma {:induction false} LoopSchedule(mode: Mode, timeout: int, fd: nat, w: World, stale: bool, i: nat, d: nat)
    ensures var sl := Sleeps(Loop(mode, timeout, fd, w, stale, i, d).ops); sl == Schedule(d, |sl|)
    decreases |w.tries| - i
  {
    if i < |w.tries| {
      var p := Pass(mode, timeout, fd, w, stale, i, d);
      LoopStep(mode, timeout, fd, w, stale, i, d);
      PassSleeps(mode, timeout, fd, w, stale, i, d);
      if p.outcome == Pending {
        var rest := Loop(mode, timeout, fd, w, stale, i + 1, NextDelay(d));
        LoopSchedule(mode, timeout, fd, w, stale, i + 1, NextDelay(d));
        ScheduleCons(p.ops, rest.ops, d);
      }
    }
  }

  /** A run that pauses once for d, followed by one whose pauses follow the
      schedule from the next delay, follows the schedule from d. */
  lemma ScheduleCons(a: seq<LockOp>, rest: seq<LockOp>, d: nat)
    requires Sleeps(a) == [d]
    requires Sleeps(rest) == Schedule(NextDelay(d), |Sleeps(rest)|)
    ensures Sleeps(a + rest) == Schedule(d, |Sleeps(a + rest)|)
  {
    SleepsAppend(a, rest);
    var n := |Sleeps(rest)|;
    assert Schedule(d, n + 1) == [d] + Schedule(NextDelay(d), n);
  }

  /** The schedule from the j-th delay is the back-off sequence from j. */
  lemma {:induction false} ScheduleBackoff(j: nat, n: nat)
    ensures BackoffFrom(Schedule(Backoff(j), n), j)
    decreases n
  {
    if n > 0 {
      NextBackoff(j);
      ScheduleBackoff(j + 1, n - 1);
      BackoffCons(Schedule(Backoff(j + 1), n - 1), j);
    }
  }

  lemma BackoffCons(sl: seq<nat>, j: nat)
    requires BackoffFrom(sl, j + 1)
    ensures BackoffFrom([Backoff(j)] + sl, j)
  {
    var all := [Backoff(j)] + sl;
    forall k | 0 <= k < |all|
      ensures all[k] == Backoff(j + k)
    {
      if k > 0 {
        assert all[k] == sl[k - 1];
      }
    }
  }

  /** The pauses of a whole acquisition are 10 ms, 20 ms, 40 ms, ... up to
      500 ms and then 500 ms each. */
  lemma AcquireBackoff(mode: Mode, timeout: int, fd: nat, w: World, stale: bool)
    ensures BackoffFrom(Sleeps(Loop(mode, timeout, fd, w, stale, 0, INITIAL_RETRY_DELAY_US).ops), 0)
  {
    var sl := Sleeps(Loop(mode, timeout, fd, w, stale, 0, INITIAL_RETRY_DELAY_US).ops);
    assert Backoff(0) == INITIAL_RETRY_DELAY_US;
    LoopSchedule(mode, timeout, fd, w, stale, 0, INITIAL_RETRY_DELAY_US);
    ScheduleBackoff(0, |sl|);
  }

  /** A failed run ends by closing fd; any other run never closes it. */
  predicate ClosesOnFailure(r: Run, fd: int) {
    && (r.outcome == Failed <==> r.ops != [] && r.ops[|r.ops| - 1] == CloseFd(fd))
    && (r.outcome != Failed ==> CloseFd(fd) !in r.ops)
  }

  /** A pass closes the descriptor exactly when it fails; a pass that goes
      on ends with its pause. */
  lemma PassCloses(mode: Mode, timeout: int, fd: nat, w: World, stale: bool, i: nat, delay: nat)
    requires i < |w.tries|
    ensures var p := Pass(mode, timeout, fd, w, stale, i, delay);
      && ClosesOnFailure(p, fd)
      && (p.outcome == Pending ==> p.ops[|p.ops| - 1] == Sleep(delay))
  {
    var r := Pass(mode, timeout, fd, w, stale, i, delay);
    if w.tries[i].flock.Busy? {
      WaitEnds(timeout, fd, w.tries[i].elapsed, delay);
      if i == 0 {
        if stale {
          if w.reclaim {
            ReclaimEnds(mode, fd, w, delay);
            PrependEnds([TryLock(Exclusive)], Reclaim(mode, fd, w), fd, delay);
          } else {
            PrependEnds([TryLock(Exclusive)], Wait(timeout, fd, w.tries[0].elapsed, delay), fd, delay);
          }
        }
        PrependEnds([ReadInfo], AfterCheck(mode, timeout, fd, w, stale, delay), fd, delay);
      }
      PrependEnds([TryLock(mode)], Contended(mode, timeout, fd, w, stale, i, delay), fd, delay);
    } else if w.tries[i].flock.Granted? && mode == Exclusive {
      ReclaimEnds(Exclusive, fd, w, delay);
      PrependEnds([TryLock(mode)], WriteStep(fd, w), fd, delay);
    }
    assert PassEnd(r, fd, delay);
  }

  /** The way every part of a pass ends: closing fd exactly on failure,
      pausing for delay when it goes on. */
  predicate PassEnd(r: Run, fd: int, delay: nat) {
    && ClosesOnFailure(r, fd)
    && (r.outcome == Pending ==> r.ops != [] && r.ops[|r.ops| - 1] == Sleep(delay))
  }

  lemma WaitEnds(timeout: int, fd: nat, elapsed: int, delay: nat)
    ensures PassEnd(Wait(timeout, fd, elapsed, delay), fd, delay)
  {
  }

  lemma ReclaimEnds(mode: Mode, fd: nat, w: World, delay: nat)
    ensures PassEnd(Reclaim(mode, fd, w), fd, delay) && Reclaim(mode, fd, w).outcome != Pending
  {
  }

  lemma PrependEnds(p: seq<LockOp>, r: Run, fd: int, delay: nat)
    requires PassEnd(r, fd, delay) && r.ops != []
    requires forall k | 0 <= k < |p| :: !p[k].CloseFd?
    ensures PassEnd(Prepend(p, r), fd, delay)
  {
    var all := p + r.ops;
    assert all[|all| - 1] == r.ops[|r.ops| - 1];
    assert CloseFd(fd) !in p;
  }

  /** Prefixing a run with calls that do not close fd and do not end by
      closing it keeps the property. */
  lemma PrependCloses(p: seq<LockOp>, r: Run, fd: int)
    requires ClosesOnFailure(r, fd) && CloseFd(fd) !in p
    requires p != [] && p[|p| - 1] != CloseFd(fd)
    ensures ClosesOnFailure(Prepend(p, r), fd)
  {
    var all := p + r.ops;
    if r.ops != [] {
      assert all[|all| - 1] == r.ops[|r.ops| - 1];
    } else {
      assert all == p;
    }
  }

  /** A failed loop closes the descriptor it was given as its last call; a
      successful or pending one never closes it. */
  lemma {:induction false} LoopClosesOnFailure(mode: Mode, timeout: int, fd: nat, w: World, stale: bool, i: nat, delay: nat)
    ensures ClosesOnFailure(Loop(mode, timeout, fd, w, stale, i, delay), fd)
    decreases |w.tries| - i
  {
    if i < |w.tries| {
      var p := Pass(mode, timeout, fd, w, stale, i, delay);
      PassCloses(mode, timeout, fd, w, stale, i, delay);
      if p.outcome == Pending {
        LoopClosesOnFailure(mode, timeout, fd, w, stale, i + 1, NextDelay(delay));
        PrependCloses(p.ops, Loop(mode, timeout, fd, w, stale, i + 1, NextDelay(delay)), fd);
      }
    }
  }

  /** The lock file is read only as the second call, and only when
      `first` holds. */
  predicate ReadOnlySecond(ops: seq<LockOp>, first: bool) {
    forall k | 0 <= k < |ops| && ops[k] == ReadInfo :: first && k == 1
  }

  /** Only pass 0 reads the lock file, as its second call. */
  lemma PassReads(mode: Mode, timeout: int, fd: nat, w: World, stale: bool, i: nat, delay: nat)
    requires i < |w.tries|
    ensures ReadOnlySecond(Pass(mode, timeout, fd, w, stale, i, delay).ops, i == 0)
  {
    var p := Pass(mode, timeout, fd, w, stale, i, delay);
    if w.tries[i].flock.Busy? {
      var c := Contended(mode, timeout, fd, w, stale, i, delay);
      ContendedReads(mode, timeout, fd, w, stale, i, delay);
      assert p.ops == [TryLock(mode)] + c.ops;
      forall k | 0 <= k < |p.ops| && p.ops[k] == ReadInfo
        ensures i == 0 && k == 1
      {
        assert c.ops[k - 1] == ReadInfo;
      }
    } else {
      assert forall k | 0 <= k < |p.ops| :: p.ops[k] != ReadInfo;
    }
  }

  /** A contended pass reads the lock file first, on pass 0 only. */
  lemma ContendedReads(mode: Mode, timeout: int, fd: nat, w: World, stale: bool, i: nat, delay: nat)
    requires i < |w.tries|
    ensures var ops := Contended(mode, timeout, fd, w, stale, i, delay).ops;
      forall k | 0 <= k < |ops| && ops[k] == ReadInfo :: i == 0 && k == 0
  {
    var wt := Wait(timeout, fd, w.tries[i].elapsed, delay);
    assert ReadInfo !in wt.ops;
    if i == 0 {
      var a := AfterCheck(mode, timeout, fd, w, stale, delay);
      assert ReadInfo !in Reclaim(mode, fd, w).ops;
      assert ReadInfo !in a.ops;
      assert ([ReadInfo] + a.ops)[1..] == a.ops;
    }
  }

  /** The stale check reads the lock file at most once per acquisition, and
      only right after the first attempt. */
  lemma {:induction false} LoopReadsOnce(mode: Mode, timeout: int, fd: nat, w: World, stale: bool, i: nat, delay: nat)
    ensures ReadOnlySecond(Loop(mode, timeout, fd, w, stale, i, delay).ops, i == 0)
    decreases |w.tries| - i
  {
    if i < |w.tries| {
      var p := Pass(mode, timeout, fd, w, stale, i, delay);
      PassReads(mode, timeout, fd, w, stale, i, delay);
      if p.outcome == Pending {
        var rest := Loop(mode, timeout, fd, w, stale, i + 1, NextDelay(delay));
        LoopReadsOnce(mode, timeout, fd, w, stale, i + 1, NextDelay(delay));
        var all := p.ops + rest.ops;
        forall k | 0 <= k < |all| && all[k] == ReadInfo
          ensures i == 0 && k == 1
        {
          if k < |p.ops| {
            assert p.ops[k] == ReadInfo;
          }
        }
      }
    }
  }

  /** A timeout of 0 never sleeps and settles on the first pass. */
  lemma NonBlocking(mode: Mode, fd: nat, w: World, stale: bool)
    requires w.tries != []
    ensures var r := Loop(mode, 0, fd, w, stale, 0, INITIAL_RETRY_DELAY_US);
      r.outcome != Pending && Sleeps(r.ops) == []
  {
    PassSleeps(mode, 0, fd, w, stale, 0, INITIAL_RETRY_DELAY_US);
  }

  /** A positive timeout is a bound: once a pass finds the time used up,
      the loop has settled (acquired or failed) by that pass. */
  lemma {:induction false} TimeoutSettles(mode: Mode, timeout: int, fd: nat, w: World, stale: bool, i: nat, j: nat, delay: nat)
    requires timeout > 0 && i <= j < |w.tries| && w.tries[j].elapsed >= timeout
    ensures Loop(mode, timeout, fd, w, stale, i, delay).outcome != Pending
    decreases j - i
  {
    LoopStep(mode, timeout, fd, w, stale, i, delay);
    if Pass(mode, timeout, fd, w, stale, i, delay).outcome == Pending {
      if i == j {
        WaitSettles(mode, timeout, fd, w, stale, i, delay);
      }
      TimeoutSettles(mode, timeout, fd, w, stale, i + 1, j, NextDelay(delay));
    }
  }

  /** A pass that finds the time used up does not go on. */
  lemma WaitSettles(mode: Mode, timeout: int, fd: nat, w: World, stale: bool, i: nat, delay: nat)
    requires timeout > 0 && i < |w.tries| && w.tries[i].elapsed >= timeout
    ensures Pass(mode, timeout, fd, w, stale, i, delay).outcome != Pending
  {
    assert Wait(timeout, fd, w.tries[i].elapsed, delay).outcome == Failed;
    assert Reclaim(mode, fd, w).outcome != Pending;
  }

  /** With no timeout (-1) and every attempt busy, a lock that is not stale,
      or cannot be reclaimed, is waited for indefinitely: one pause per
      pass, and the loop is still pending when the passes run out. */
  lemma {:induction false} BlockingWaits(mode: Mode, fd: nat, w: World, stale: bool, i: nat, delay: nat)
    requires i <= |w.tries|
    requires forall k | 0 <= k < |w.tries| :: w.tries[k].flock == Busy
    requires !(stale && w.reclaim)
    ensures Loop(mode, -1, fd, w, stale, i, delay).outcome == Pending
    ensures |Sleeps(Loop(mode, -1, fd, w, stale, i, delay).ops)| == |w.tries| - i
    decreases |w.tries| - i
  {
    if i < |w.tries| {
      var p := Pass(mode, -1, fd, w, stale, i, delay);
      var rest := Loop(mode, -1, fd, w, stale, i + 1, NextDelay(delay));
      BusyWaits(mode, fd, w, stale, i, delay);
      PassSleeps(mode, -1, fd, w, stale, i, delay);
      LoopStep(mode, -1, fd, w, stale, i, delay);
      BlockingWaits(mode, fd, w, stale, i + 1, NextDelay(delay));
      PendingPrepend(p, rest, |w.tries| - i - 1);
    }
  }

  /** A pass that pauses once, followed by a pending run with n pauses. */
  lemma PendingPrepend(p: Run, rest: Run, n: nat)
    requires p.outcome == Pending && |Sleeps(p.ops)| == 1
    requires rest.outcome == Pending && |Sleeps(rest.ops)| == n
    ensures Prepend(p.ops, rest).outcome == Pending
    ensures |Sleeps(Prepend(p.ops, rest).ops)| == n + 1
  {
    SleepsAppend(p.ops, rest.ops);
  }

  /** A busy pass without a deadline, whose holder is not reclaimed, goes
      on. */
  lemma BusyWaits(mode: Mode, fd: nat, w: World, stale: bool, i: nat, delay: nat)
    requires i < |w.tries| && w.tries[i].flock == Busy
    requires !(stale && w.reclaim)
    ensures Pass(mode, -1, fd, w, stale, i, delay).outcome == Pending
  {
    assert Wait(-1, fd, w.tries[i].elapsed, delay).outcome == Pending;
    if i == 0 {
      assert AfterCheck(mode, -1, fd, w, stale, delay).outcome == Pending;
    }
  }

  /** An exclusive holder always wrote its pid and time: an acquired
      exclusive lock went through a successful write_lock_info, whose text
      reads back as that pid and time (LockInfo.LockInfoRoundTrip). */
  lemma {:induction false} ExclusiveWritesInfo(timeout: int, fd: nat, w: World, stale: bool, i: nat, delay: nat)
    ensures var r := Loop(Exclusive, timeout, fd, w, stale, i, delay);
      r.outcome == Acquired ==> Writes(w) && WriteInfo(w.pid, w.writeTime) in r.ops
    decreases |w.tries| - i
  {
    if i < |w.tries| {
      var p := Pass(Exclusive, timeout, fd, w, stale, i, delay);
      LoopStep(Exclusive, timeout, fd, w, stale, i, delay);
      if p.outcome == Pending {
        var rest := Loop(Exclusive, timeout, fd, w, stale, i + 1, NextDelay(delay));
        ExclusiveWritesInfo(timeout, fd, w, stale, i + 1, NextDelay(delay));
        if rest.outcome == Acquired {
          var k :| 0 <= k < |rest.ops| && rest.ops[k] == WriteInfo(w.pid, w.writeTime);
          assert (p.ops + rest.ops)[|p.ops| + k] == rest.ops[k];
        }
      } else {
        PassWrites(timeout, fd, w, stale, i, delay);
      }
    }
  }

  /** An exclusive pass that acquires the lock wrote the holder's info. */
  lemma PassWrites(timeout: int, fd: nat, w: World, stale: bool, i: nat, delay: nat)
    requires i < |w.tries|
    ensures var p := Pass(Exclusive, timeout, fd, w, stale, i, delay);
      p.outcome == Acquired ==> Writes(w) && WriteInfo(w.pid, w.writeTime) in p.ops
  {
    if w.tries[i].flock.Busy? && i == 0 && stale && w.reclaim {
      assert Reclaim(Exclusive, fd, w) == WriteStep(fd, w);
    }
  }

  /** A successful acquisition leaves a lock that covers the request on an
      open descriptor; a failed or pending one holds nothing. Acquisition
      keeps the state consistent. */
  lemma AcquireResult(st: LockState, mode: Mode, timeout: int, w: World)
    requires Consistent(st)
    ensures var s := AcquireSpec(st, mode, timeout, w);
      && Consistent(s.st)
      && (s.run.outcome == Acquired ==> s.st.held && (s.st.mode == Exclusive || mode == Shared))
      && (s.run.outcome != Acquired ==> st.path.None? || !s.st.held)
  {
  }

  /** Holding an exclusive lock satisfies any request, and holding a shared
      one satisfies a shared request, without a system call. */
  lemma AlreadyHeld(st: LockState, mode: Mode, timeout: int, w: World)
    requires st.path.Some? && st.held && (st.mode == Exclusive || mode == Shared)
    ensures AcquireSpec(st, mode, timeout, w) == Step(Run(Acquired, []), st)
  {
  }

  /** Upgrading a shared lock to an exclusive one first releases the shared
      lock (unlock and close), so the upgrade is not atomic. */
  lemma UpgradeReleasesFirst(st: LockState, timeout: int, w: World)
    requires st.path.Some? && st.held && st.fd >= 0 && st.mode == Shared
    ensures var ops := AcquireSpec(st, Exclusive, timeout, w).run.ops;
      |ops| >= 3 && ops[..3] == [Unlock, CloseFd(st.fd), OpenLock(st.path.value)]
  {
    var pre := [Unlock, CloseFd(st.fd)] + [OpenLock(st.path.value)];
    assert ReleaseSpec(st).run.ops == [Unlock, CloseFd(st.fd)];
    match w.openFd
    case None =>
      assert pre[..3] == pre;
    case Some(fd) =>
      var r := Loop(Exclusive, timeout, fd, w, HolderStale(w), 0, INITIAL_RETRY_DELAY_US);
      assert AcquireSpec(st, Exclusive, timeout, w).run.ops == pre + r.ops;
      assert (pre + r.ops)[..3] == pre;
  }

  /** Releasing twice is releasing once. */
  lemma ReleaseIdempotent(st: LockState)
    requires Consistent(st)
    ensures var s := ReleaseSpec(st);
      !s.st.held && ReleaseSpec(s.st) == Step(Run(Acquired, []), s.st)
  {
  }

  /** The lock manager: the module's static state, with the trace of the
      system calls it has made. */
  class LockManager {
    var path: Option<string>
    var fd: int
    var mode: Mode
    var held: bool
    var ops: seq<LockOp>

    function State(): LockState
      reads this
    {
      LockState(path, fd, mode, held)
    }

    /** The static initial state: no path, no descriptor, nothing held. */
    constructor ()
      ensures State() == LockState(None, -1, Shared, false) && ops == []
    {
      path := None;
      fd := -1;
      mode := Shared;
      held := false;
      ops := [];
    }

    /** cache_lock_release. */
    method Release()
      modifies this
      ensures var s := ReleaseSpec(old(State()));
        State() == s.st && ops == old(ops) + s.run.ops
    {
      if !held || fd < 0 {
        return;
      }
      ops := ops + [Unlock, CloseFd(fd)];
      fd := -1;
      held := false;
    }

    /** cache_lock_cleanup. */
    method Cleanup()
      modifies this
      ensures var s := CleanupSpec(old(State()));
        State() == s.st && ops == old(ops) + s.run.ops
    {
      Release();
      path := None;
    }

    /** cache_lock_init: 0 on success, -1 without a cache path. */
    method Init(cachePath: Option<string>) returns (r: int)
      modifies this
      ensures var s := InitSpec(old(State()), cachePath);
        State() == s.st && ops == old(ops) + s.run.ops
        && (r == 0 <==> s.run.outcome == Acquired) && (r == 0 || r == -1)
    {
      Cleanup();
      if cachePath.None? {
        return -1;
      }
      path := Some(cachePath.value + ".lock");
      r := 0;
    }

    /** write_lock_info as the acquisition uses it: on failure the new lock
        is dropped and the descriptor closed. */
    method WriteInfoStep(f: nat, w: World) returns (o: Outcome)
      modifies this
      ensures o == WriteStep(f, w).outcome && ops == old(ops) + WriteStep(f, w).ops
      ensures State() == old(State())
    {
      var text := WriteLockInfo(w.pid, w.writeTime);
      LockInfoRoundTrip(w.pid, w.writeTime);
      ops := ops + [WriteInfo(w.pid, w.writeTime)];
      if text.None? || !w.writeOk {
        ops := ops + [Unlock, CloseFd(f)];
        return Failed;
      }
      o := Acquired;
    }

    /** One pass of the acquisition loop on descriptor f. */
    method Attempt(m: Mode, timeout: int, f: nat, w: World, ghost stale: bool, i: nat, delay: nat) returns (o: Outcome)
      requires i < |w.tries| && stale == HolderStale(w)
      modifies this
      ensures var p := Pass(m, timeout, f, w, stale, i, delay);
        o == p.outcome && ops == old(ops) + p.ops
      ensures State() == old(State())
    {
      var t := w.tries[i];
      ops := ops + [TryLock(m)];
      if t.flock == Granted {
        if m == Exclusive {
          o := WriteInfoStep(f, w);
          AppendAssoc(old(ops), [TryLock(m)], WriteStep(f, w).ops);
        } else {
          o := Acquired;
        }
      } else if t.flock == Broken {
        ops := ops + [CloseFd(f)];
        o := Failed;
      } else {
        o := Contend(m, timeout, f, w, stale, i, delay);
        AppendAssoc(old(ops), [TryLock(m)], Contended(m, timeout, f, w, stale, i, delay).ops);
      }
    }

    /** The lock is held by someone else: on the first pass check for a
        stale holder and try to take the lock over; then give up when the
        timeout says so, or pause. */
    method Contend(m: Mode, timeout: int, f: nat, w: World, ghost stale: bool, i: nat, delay: nat) returns (o: Outcome)
      requires i < |w.tries| && stale == HolderStale(w)
      modifies this
      ensures var c := Contended(m, timeout, f, w, stale, i, delay);
        o == c.outcome && ops == old(ops) + c.ops
      ensures State() == old(State())
    {
      if i == 0 {
        var verdict := CheckStale(w);
        o := AfterStaleCheck(m, timeout, f, w, delay, verdict);
        AppendAssoc(old(ops), [ReadInfo], AfterCheck(m, timeout, f, w, stale, delay).ops);
      } else {
        o := GiveUpOrPause(timeout, f, w.tries[i].elapsed, delay);
      }
    }

    /** The first pass after the stale check: with a stale holder, try the
        lock exclusively and take it over when granted. */
    method AfterStaleCheck(m: Mode, timeout: int, f: nat, w: World, delay: nat, stale: bool) returns (o: Outcome)
      requires 0 < |w.tries| && stale == HolderStale(w)
      modifies this
      ensures var a := AfterCheck(m, timeout, f, w, stale, delay);
        o == a.outcome && ops == old(ops) + a.ops
      ensures State() == old(State())
    {
      if !stale {
        o := GiveUpOrPause(timeout, f, w.tries[0].elapsed, delay);
        return;
      }
      ops := ops + [TryLock(Exclusive)];
      if w.reclaim {
        o := TakeOver(m, f, w);
        AppendAssoc(old(ops), [TryLock(Exclusive)], Reclaim(m, f, w).ops);
      } else {
        o := GiveUpOrPause(timeout, f, w.tries[0].elapsed, delay);
        AppendAssoc(old(ops), [TryLock(Exclusive)], Wait(timeout, f, w.tries[0].elapsed, delay).ops);
      }
    }

    /** The timeout test at the end of a contended pass. */
    method GiveUpOrPause(timeout: int, f: nat, elapsed: int, delay: nat) returns (o: Outcome)
      modifies this
      ensures var c := Wait(timeout, f, elapsed, delay);
        o == c.outcome && ops == old(ops) + c.ops
      ensures State() == old(State())
    {
      if timeout == 0 {
        ops := ops + [CloseFd(f)];
        return Failed;
      }
      if timeout > 0 && elapsed >= timeout {
        ops := ops + [CloseFd(f)];
        return Failed;
      }
      ops := ops + [Sleep(delay)];
      o := Pending;
    }

    /** is_lock_stale: read the lock file's info (the oracle gives what
        read_lock_info returns; LockInfo.ReadLockInfo is how that comes from
        the file's bytes), then test the holder. */
    method CheckStale(w: World) returns (stale: bool)
      modifies this
      ensures stale == HolderStale(w)
      ensures ops == old(ops) + [ReadInfo] && State() == old(State())
    {
      ops := ops + [ReadInfo];
      var info := w.holderInfo;
      if info.None? {
        return true;
      }
      var (pid, ts) := info.value;
      if !ProcessAlive(pid, w.killOk) {
        return true;
      }
      stale := ts > 0 && w.checkTime - ts > STALE_LOCK_THRESHOLD;
    }

    /** The exclusive flock on a stale lock was granted. */
    method TakeOver(m: Mode, f: nat, w: World) returns (o: Outcome)
      modifies this
      ensures o == Reclaim(m, f, w).outcome && ops == old(ops) + Reclaim(m, f, w).ops
      ensures State() == old(State())
    {
      if m == Exclusive {
        o := WriteInfoStep(f, w);
      } else {
        ops := ops + [Unlock, TryLock(Shared)];
        if w.downgrade {
          o := Acquired;
        } else {
          ops := ops + [CloseFd(f)];
          o := Failed;
        }
      }
    }

    /** The `while (1)` of cache_lock_acquire on descriptor f, bounded by
        the oracle's passes. */
    method Retry(m: Mode, timeout: int, f: nat, w: World) returns (r: Outcome)
      modifies this
      ensures var l := Loop(m, timeout, f, w, HolderStale(w), 0, INITIAL_RETRY_DELAY_US);
        r == l.outcome && ops == old(ops) + l.ops
      ensures State() == old(State())
    {
      ghost var stale := HolderStale(w);
      ghost var whole := Loop(m, timeout, f, w, stale, 0, INITIAL_RETRY_DELAY_US);
      var i := 0;
      var delay := INITIAL_RETRY_DELAY_US;
      ghost var done: seq<LockOp> := [];
      r := Pending;
      while i < |w.tries|
        invariant i <= |w.tries|
        invariant ops == old(ops) + done && State() == old(State())
        invariant r == Pending
        invariant whole == Prepend(done, Loop(m, timeout, f, w, stale, i, delay))
        decreases |w.tries| - i
      {
        ghost var passOps;
        r, passOps := Round(m, timeout, f, w, stale, i, delay);
        AppendAssoc(old(ops), done, passOps);
        if r != Pending {
          done := done + passOps;
          return;
        }
        PrependTwice(done, passOps, Loop(m, timeout, f, w, stale, i + 1, NextDelay(delay)));
        done := done + passOps;
        delay := NextDelay(delay);
        i := i + 1;
      }
      assert done + [] == done;
    }

    /** One pass, stated as a step of the loop: a pass that ends the loop is
        the rest of the loop, one that goes on is followed by it. */
    method Round(m: Mode, timeout: int, f: nat, w: World, ghost stale: bool, i: nat, delay: nat)
      returns (o: Outcome, ghost passOps: seq<LockOp>)
      requires i < |w.tries| && stale == HolderStale(w)
      modifies this
      ensures ops == old(ops) + passOps && State() == old(State())
      ensures var l := Loop(m, timeout, f, w, stale, i, delay);
        if o == Pending then l == Prepend(passOps, Loop(m, timeout, f, w, stale, i + 1, NextDelay(delay)))
        else l == Run(o, passOps)
    {
      passOps := Pass(m, timeout, f, w, stale, i, delay).ops;
      LoopStep(m, timeout, f, w, stale, i, delay);
      o := Attempt(m, timeout, f, w, stale, i, delay);
    }

    /** cache_lock_acquire, its loop bounded by the oracle's passes. */
    method Acquire(m: Mode, timeout: int, w: World) returns (r: Outcome)
      modifies this
      ensures var s := AcquireSpec(old(State()), m, timeout, w);
        r == s.run.outcome && State() == s.st && ops == old(ops) + s.run.ops
    {
      if path.None? {
        return Failed;
      }
      ghost var relOps: seq<LockOp> := [];
      if held {
        if mode == Exclusive || m == Shared {
          return Acquired;
        }
        relOps := ReleaseSpec(State()).run.ops;
        Release();
      }
      ghost var o := OpenSpec(State(), m, timeout, w);
      r := OpenAndRetry(m, timeout, w);
      AppendAssoc(old(ops), relOps, o.run.ops);
    }

    /** Open the lock file and run the loop on it. */
    method OpenAndRetry(m: Mode, timeout: int, w: World) returns (r: Outcome)
      requires path.Some?
      modifies this
      ensures var s := OpenSpec(old(State()), m, timeout, w);
        r == s.run.outcome && State() == s.st && ops == old(ops) + s.run.ops
    {
      ops := ops + [OpenLock(path.value)];
      if w.openFd.None? {
        return Failed;
      }
      ghost var before := ops;
      r := Retry(m, timeout, w.openFd.value, w);
      AppendAssoc(old(ops), [OpenLock(path.value)], Loop(m, timeout, w.openFd.value, w, HolderStale(w), 0, INITIAL_RETRY_DELAY_US).ops);
      if r == Acquired {
        fd, mode, held := w.openFd.value, m, true;
      }
    }
  }
}

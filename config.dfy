/** The line handling of config_read in src/main.c: each line of a
    configuration file is trimmed, skipped when empty or a comment, and split
    into an option and at most one argument, which are then fed to the
    command-line parser. */
module ConfigLine {
  import opened Common

  predicate IsBlank(c: char) { c == ' ' || c == '\t' }

  /** The characters stripped from the end of a line. */
  predicate IsTrailing(c: char) { c == ' ' || c == '\t' || c == '\r' || c == '\n' }

  /** s without its leading blanks. */
  function LStrip(s: string): (r: string)
    ensures |r| <= |s| && r == s[|s| - |r|..]
    ensures r != [] ==> !IsBlank(r[0])
  {
    if s != [] && IsBlank(s[0]) then LStrip(s[1..]) else s
  }

  /** What LStrip removes is blanks only. */
  lemma {:induction false} LStripRemovesBlanks(s: string)
    ensures forall i | 0 <= i < |s| - |LStrip(s)| :: IsBlank(s[i])
  {
    if s != [] && IsBlank(s[0]) {
      LStripRemovesBlanks(s[1..]);
      assert forall i | 1 <= i < |s| - |LStrip(s)| :: s[i] == s[1..][i - 1];
    }
  }

  /** s without its trailing blanks and line ends. */
  function RStrip(s: string): (r: string)
    ensures |r| <= |s| && r == s[..|r|]
    ensures r != [] ==> !IsTrailing(r[|r| - 1])
  {
    if s != [] && IsTrailing(s[|s| - 1]) then RStrip(s[..|s| - 1]) else s
  }

  /** What RStrip removes is blanks and line ends only. */
  lemma {:induction false} RStripRemovesTrailing(s: string)
    ensures forall i | |RStrip(s)| <= i < |s| :: IsTrailing(s[i])
  {
    if s != [] && IsTrailing(s[|s| - 1]) {
      RStripRemovesTrailing(s[..|s| - 1]);
    }
  }

  /** The trimmed text of a line buffer (the buffer is a C string). */
  function Trimmed(buf: string): string { RStrip(LStrip(CStr(buf))) }

  /** A line that config_read skips: empty, a comment, or `@` alone or
      followed by a comment. */
  predicate Skipped(t: string) {
    t == [] || t[0] == '#' || (t[0] == '@' && (|t| == 1 || t[1] == '#'))
  }

  /** What one line hands to the argument parser: its error mode and its
      argument vector. */
  datatype ConfigArgs = ConfigArgs(ignerror: bool, args: seq<string>)

  /** args is the split of a line body: the option is the text up to the
      first blank and, when anything follows the blanks after it, that rest
      (inner blanks included) is the single argument. */
  predicate SplitOf(body: string, args: seq<string>) {
    && 1 <= |args| <= 2
    && |args[0]| <= |body| && body[..|args[0]|] == args[0]
    && (|args[0]| == 0 <==> body != [] && IsBlank(body[0]))
    && (forall i | 0 <= i < |args[0]| :: !IsBlank(args[0][i]))
    && (|args| == 1 ==> forall i | |args[0]| <= i < |body| :: IsBlank(body[i]))
    && (|args| == 2 ==>
          && 0 < |args[1]| && |args[0]| + |args[1]| < |body|
          && body[|body| - |args[1]|..] == args[1]
          && !IsBlank(args[1][0])
          && forall i | |args[0]| <= i < |body| - |args[1]| :: IsBlank(body[i]))
  }

  /** The trimming part of config_read: skip the leading blanks, take the C
      string from there and cut its trailing blanks and line ends. */
  method Trim(buf: string) returns (line: string)
    ensures line == Trimmed(buf)
  {
    var start := 0;
    assert buf[start..] == buf;
    while start < |buf| && IsBlank(buf[start])
      invariant 0 <= start <= |buf|
      invariant LStrip(CStr(buf)) == LStrip(CStr(buf[start..]))
    {
      StripBlank(buf[start..]);
      assert buf[start..][1..] == buf[start + 1..];
      start := start + 1;
    }
    StripDone(buf[start..]);
    line := CStr(buf[start..]);
    line := CutTrailing(line);
  }

  /** `while (len > 0 && line[len-1] is blank or a line end) len--;
      line[len] = 0;` */
  method CutTrailing(line: string) returns (r: string)
    ensures r == RStrip(line)
  {
    var len := |line|;
    assert line[..len] == line;
    while len > 0 && IsTrailing(line[len - 1])
      invariant 0 <= len <= |line|
      invariant RStrip(line) == RStrip(line[..len])
    {
      assert line[..len - 1] == line[..len][..len - 1];
      len := len - 1;
    }
    r := line[..len];
  }

  /** The splitting part of config_read: scan the option up to the first
      blank, overwrite the blanks after it with NULs, and take what follows
      as the argument. The body is not empty and does not end in a blank
      (after an `@` it may start with one, and the option is then empty). */
  method Split(body: string) returns (args: seq<string>)
    requires body != [] && !IsBlank(body[|body| - 1])
    ensures SplitOf(body, args)
  {
    var tmp := 0;
    while tmp < |body| && !IsBlank(body[tmp])
      invariant 0 <= tmp <= |body|
      invariant forall i | 0 <= i < tmp :: !IsBlank(body[i])
    {
      tmp := tmp + 1;
    }
    var opt := body[..tmp];
    while tmp < |body| && IsBlank(body[tmp])
      invariant |opt| <= tmp <= |body|
      invariant forall i | |opt| <= i < tmp :: IsBlank(body[i])
    {
      tmp := tmp + 1;
    }
    if tmp < |body| {
      args := [opt, body[tmp..]];
    } else {
      args := [opt];
    }
  }

  /** The per-line body of config_read: trim, skip empty and comment lines,
      note a leading `@` (errors in this line are ignored), then split. */
  method ReadLine(buf: string) returns (r: Option<ConfigArgs>)
    ensures r.None? <==> Skipped(Trimmed(buf))
    ensures r.Some? ==>
      var t := Trimmed(buf);
      && r.value.ignerror == (t[0] == '@')
      && SplitOf(if t[0] == '@' then t[1..] else t, r.value.args)
  {
    var line := Trim(buf);
    r := ReadTrimmed(line);
  }

  /** What follows the trimming, on a line that does not end in a blank. */
  method ReadTrimmed(line: string) returns (r: Option<ConfigArgs>)
    requires line == [] || !IsTrailing(line[|line| - 1])
    ensures r.None? <==> Skipped(line)
    ensures r.Some? ==>
      && r.value.ignerror == (line[0] == '@')
      && SplitOf(if line[0] == '@' then line[1..] else line, r.value.args)
  {
    if |line| == 0 || line[0] == '#' {
      return None;
    }
    var body := line;
    if line[0] == '@' {
      body := line[1..];
      if |body| == 0 || body[0] == '#' {
        return None;
      }
    }
    var args := Split(body);
    r := Some(ConfigArgs(line[0] == '@', args));
  }

  /** A leading blank is not a NUL, so it is the first byte of the C string
      and LStrip drops it. */
  lemma StripBlank(t: string)
    requires t != [] && IsBlank(t[0])
    ensures LStrip(CStr(t)) == LStrip(CStr(t[1..]))
  {
    var rest := CStr(t[1..]);
    assert CStr(t) == [t[0]] + rest;
    assert ([t[0]] + rest)[1..] == rest;
  }

  /** Past the blanks, the C string starts with no blank. */
  lemma StripDone(t: string)
    requires t == [] || !IsBlank(t[0])
    ensures LStrip(CStr(t)) == CStr(t)
  {
    if t != [] && t[0] != '\0' {
      assert CStr(t)[0] == t[0];
    }
  }
}

/** The command-line parser of src/main.c (argparser_pop, argparser_shortopt,
    argparser_next, argparser_arg). The parser is a cursor over the argument
    vector; what argparser_next does in place to an argument string (a NUL
    written over the `=` of `--key=value`) is modelled by splitting the
    string into the two parts the program then sees. */
module ArgParse {
  import opened Common

  /** The outcome of argparser_next: 0 (done), 1 (an option in `last`),
      2 (a positional argument in `last`), -1 (an error when errors are
      ignored), or a call to die() (an error otherwise). */
  datatype Step = Done | Opt | Positional | Failed | Died

  /** The fields of `struct argparser`; argc is |argv|. A short cluster in
      progress (`shortopt`) is never empty. */
  datatype ArgState = ArgState(
    argv: seq<string>,
    shortopt: Option<string>,
    last: Option<string>,
    lastArg: Option<string>,
    argsep: bool,
    ignerror: bool)

  predicate ValidState(st: ArgState) {
    st.shortopt.Some? ==> |st.shortopt.value| > 0
  }

  /** What an error does: return -1 when errors are ignored, die otherwise. */
  function Fail(ignerror: bool): Step { if ignerror then Failed else Died }

  /** argparser_pop. */
  function PopSpec(st: ArgState): (r: (Option<string>, ArgState))
    ensures st.argv == [] ==> r == (None, st)
    ensures st.argv != [] ==> r == (Some(st.argv[0]), st.(argv := st.argv[1..]))
  {
    if st.argv == [] then (None, st) else (Some(st.argv[0]), st.(argv := st.argv[1..]))
  }

  /** argparser_shortopt: `last` becomes `-c` for the cluster's first
      character; the rest of the cluster, if any, is kept for the next call. */
  function ShortOptSpec(st: ArgState, buf: string): ArgState
    requires |buf| > 0
  {
    st.(last := Some(['-', buf[0]]), shortopt := if |buf| > 1 then Some(buf[1..]) else None)
  }

  /** The index of the first `=` in s, if any (strchr). */
  function FindEq(s: string): (r: Option<nat>)
    ensures r.Some? ==> r.value < |s| && s[r.value] == '=' && '=' !in s[..r.value]
    ensures r.None? ==> '=' !in s
  {
    if s == [] then None
    else if s[0] == '=' then Some(0)
    else match FindEq(s[1..])
      case None => None
      case Some(i) => Some(i + 1)
  }

  /** argparser_next. A pending `--key=value` value that no option consumed
      is an error; a short cluster in progress yields its next character;
      otherwise the next argument is popped and classified. `--` switches to
      positional-only mode and is not returned. */
  function NextSpec(st: ArgState): (r: (Step, ArgState))
    requires ValidState(st)
    ensures ValidState(r.1)
    ensures r.1.ignerror == st.ignerror
    decreases |st.argv|
  {
    if st.lastArg.Some? then (Fail(st.ignerror), st)
    else if st.shortopt.Some? then (Opt, ShortOptSpec(st, st.shortopt.value))
    else
      var (a, st1) := PopSpec(st);
      var st2 := st1.(last := a);
      if a.None? then (Done, st2)
      else
        var arg := a.value;
        if st2.argsep || |arg| == 0 || arg[0] != '-' then (Positional, st2)
        else if |arg| == 1 then (Fail(st2.ignerror), st2)
        else if arg[1] == '-' && |arg| == 2 then NextSpec(st2.(argsep := true))
        else if arg[1] == '-' then
          match FindEq(arg)
          case None => (Opt, st2)
          case Some(i) => (Opt, st2.(last := Some(arg[..i]), lastArg := Some(arg[i + 1..])))
        else (Opt, ShortOptSpec(st2, arg[1..]))
  }

  /** argparser_arg: the rest of a short cluster, else a pending `=value`,
      else the next argument; if there is none, an error (NULL when errors
      are ignored). */
  function ArgSpec(st: ArgState): (r: (Option<string>, Step, ArgState))
    requires ValidState(st)
    ensures ValidState(r.2)
  {
    if st.shortopt.Some? then (st.shortopt, Opt, st.(shortopt := None))
    else if st.lastArg.Some? then (st.lastArg, Opt, st.(lastArg := None))
    else
      var (a, st1) := PopSpec(st);
      if a.None? then (None, Fail(st.ignerror), st1) else (a, Opt, st1)
  }

  /** The parser has nothing pending from the previous argument. */
  predicate Idle(st: ArgState) { st.shortopt.None? && st.lastArg.None? }

  /** End of input: argparser_next returns 0 exactly when nothing is pending
      and the remaining arguments are none, or only a `--` that has not been
      seen before. */
  lemma {:induction false} NextDone(st: ArgState)
    requires ValidState(st)
    ensures NextSpec(st).0 == Done
        <==> Idle(st) && (st.argv == [] || (!st.argsep && st.argv == ["--"]))
  {
    if Idle(st) && st.argv != [] && !st.argsep && st.argv[0] == "--" {
      var st2 := st.(argv := st.argv[1..], last := Some("--"), argsep := true);
      assert NextSpec(st) == NextSpec(st2);
      assert NextSpec(st2).0 == Done <==> st.argv[1..] == [];
    }
  }

  /** The first `--` is consumed: the call goes on to the argument after it,
      in positional-only mode. */
  lemma SeparatorConsumed(st: ArgState, rest: seq<string>)
    requires ValidState(st) && Idle(st) && !st.argsep && st.argv == ["--"] + rest
    ensures NextSpec(st) == NextSpec(st.(argv := rest, last := Some("--"), argsep := true))
  {
    assert st.argv[1..] == rest;
  }

  /** After `--`, and for an empty argument or one that does not start with
      `-`, the argument is returned as positional, unchanged. */
  lemma PositionalArgument(st: ArgState)
    requires ValidState(st) && Idle(st) && st.argv != []
    requires st.argsep || st.argv[0] == [] || st.argv[0][0] != '-'
    ensures NextSpec(st).0 == Positional
    ensures NextSpec(st).1 == st.(argv := st.argv[1..], last := Some(st.argv[0]))
  {
  }

  /** `--key=value` is split at its first `=`: `last` is `--key` and the
      value waits for argparser_arg; if the next call to argparser_next finds
      it still waiting, that call is an error. */
  lemma {:induction false} LongOptionSplit(st: ArgState, key: string, value: string)
    requires ValidState(st) && Idle(st) && !st.argsep && st.argv != []
    requires '=' !in key && |key| > 0 && st.argv[0] == "--" + key + "=" + value
    ensures NextSpec(st).0 == Opt
    ensures NextSpec(st).1.last == Some("--" + key)
    ensures NextSpec(st).1.lastArg == Some(value)
    ensures NextSpec(NextSpec(st).1).0 == Fail(st.ignerror)
  {
    var arg := st.argv[0];
    assert arg[0] == '-' && arg[1] == '-' && arg[2] == key[0];
    assert arg[|key| + 2] == '=' && arg[..|key| + 2] == "--" + key;
    assert arg[|key| + 3..] == value;
  }

  /** The `last` values produced by n calls of argparser_next, and the state
      after them. */
  function Run(st: ArgState, n: nat): (r: (seq<Option<string>>, ArgState))
    requires ValidState(st)
    ensures ValidState(r.1) && |r.0| == n
    decreases n
  {
    if n == 0 then ([], st)
    else
      var (_, st1) := NextSpec(st);
      var (ls, st2) := Run(st1, n - 1);
      ([st1.last] + ls, st2)
  }

  /** The options of a short cluster: `-` and each of its characters. */
  function ShortOptions(cluster: string): (r: seq<Option<string>>)
    ensures |r| == |cluster|
    ensures forall i | 0 <= i < |cluster| :: r[i] == Some(['-', cluster[i]])
  {
    if cluster == [] then [] else [Some(['-', cluster[0]])] + ShortOptions(cluster[1..])
  }

  /** A cluster in progress yields one option per character, each as an
      option result, and then nothing is pending. */
  lemma {:induction false} ClusterInProgress(st: ArgState, cluster: string)
    requires ValidState(st) && st.lastArg.None? && st.shortopt == Some(cluster)
    ensures Run(st, |cluster|).0 == ShortOptions(cluster)
    ensures Run(st, |cluster|).1 == st.(last := Some(['-', cluster[|cluster| - 1]]), shortopt := None)
    decreases |cluster|
  {
    var st1 := ShortOptSpec(st, cluster);
    assert NextSpec(st) == (Opt, st1);
    if |cluster| > 1 {
      ClusterInProgress(st1, cluster[1..]);
      assert Run(st, |cluster|).0 == [st1.last] + Run(st1, |cluster| - 1).0;
      assert cluster[1..][|cluster[1..]| - 1] == cluster[|cluster| - 1];
    }
  }

  /** `-abc` yields `-a`, `-b`, `-c` on successive calls, consuming one
      argument. */
  lemma ShortCluster(st: ArgState, cluster: string)
    requires ValidState(st) && Idle(st) && !st.argsep && st.argv != []
    requires |cluster| > 0 && cluster[0] != '-' && st.argv[0] == "-" + cluster
    ensures Run(st, |cluster|).0 == ShortOptions(cluster)
    ensures Run(st, |cluster|).1.argv == st.argv[1..]
    ensures Idle(Run(st, |cluster|).1)
  {
    var arg := st.argv[0];
    assert arg[1..] == cluster;
    var st1 := ShortOptSpec(st.(argv := st.argv[1..], last := Some(arg)), cluster);
    assert NextSpec(st) == (Opt, st1);
    if |cluster| > 1 {
      ClusterInProgress(st1, cluster[1..]);
      assert Run(st, |cluster|).0 == [st1.last] + Run(st1, |cluster| - 1).0;
    }
  }

  /** argparser_arg takes its value from the rest of a short cluster first,
      then from a pending `=value`, then from the next argument. */
  lemma ArgPriority(st: ArgState)
    requires ValidState(st)
    ensures st.shortopt.Some? ==> ArgSpec(st).0 == st.shortopt && ArgSpec(st).2.argv == st.argv
    ensures st.shortopt.None? && st.lastArg.Some? ==>
              ArgSpec(st).0 == st.lastArg && ArgSpec(st).2.argv == st.argv && Idle(ArgSpec(st).2)
    ensures Idle(st) && st.argv != [] ==> ArgSpec(st).0 == Some(st.argv[0]) && ArgSpec(st).2.argv == st.argv[1..]
    ensures Idle(st) && st.argv == [] ==> ArgSpec(st).0 == None && ArgSpec(st).1 == Fail(st.ignerror)
  {
  }

  /** `struct argparser` as the program keeps it: a cursor over argv whose
      fields every call updates. */
  class ArgParser {
    var argv: seq<string>
    var shortopt: Option<string>
    var last: Option<string>
    var lastArg: Option<string>
    var argsep: bool
    var ignerror: bool

    ghost function State(): ArgState
      reads this
    {
      ArgState(argv, shortopt, last, lastArg, argsep, ignerror)
    }

    /** A zeroed parser over the given arguments. */
    constructor (args: seq<string>, ignoreErrors: bool)
      ensures State() == ArgState(args, None, None, None, false, ignoreErrors)
    {
      argv := args;
      shortopt := None;
      last := None;
      lastArg := None;
      argsep := false;
      ignerror := ignoreErrors;
    }

    method Pop() returns (a: Option<string>)
      modifies this
      ensures (a, State()) == PopSpec(old(State()))
    {
      if |argv| == 0 {
        return None;
      }
      a := Some(argv[0]);
      argv := argv[1..];
    }

    method ShortOpt(buf: string) returns (r: Step)
      requires |buf| > 0
      modifies this
      ensures r == Opt && State() == ShortOptSpec(old(State()), buf)
    {
      last := Some(['-', buf[0]]);
      shortopt := if |buf| > 1 then Some(buf[1..]) else None;
      r := Opt;
    }

    method Next() returns (r: Step)
      requires ValidState(State())
      modifies this
      ensures (r, State()) == NextSpec(old(State()))
      decreases |argv|
    {
      if lastArg.Some? {
        return Fail(ignerror);
      }
      if shortopt.Some? {
        r := ShortOpt(shortopt.value);
        return;
      }
      last := Pop();
      if last.None? {
        return Done;
      }
      var arg := last.value;
      if argsep || |arg| == 0 || arg[0] != '-' {
        return Positional;
      }
      if |arg| == 1 {
        return Fail(ignerror);
      }
      if arg[1] == '-' && |arg| == 2 {
        argsep := true;
        r := Next();
        return;
      }
      if arg[1] == '-' {
        var eq := FindEq(arg);
        if eq.Some? {
          last := Some(arg[..eq.value]);
          lastArg := Some(arg[eq.value + 1..]);
        }
        return Opt;
      }
      r := ShortOpt(arg[1..]);
    }

    method Arg() returns (a: Option<string>, r: Step)
      requires ValidState(State())
      modifies this
      ensures (a, r, State()) == ArgSpec(old(State()))
    {
      if shortopt.Some? {
        a := shortopt;
        shortopt := None;
        return a, Opt;
      }
      if lastArg.Some? {
        a := lastArg;
        lastArg := None;
        return a, Opt;
      }
      a := Pop();
      r := if a.None? then Fail(ignerror) else Opt;
    }
  }
}

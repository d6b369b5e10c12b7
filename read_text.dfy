/** Reading back the text the writers write: parse_item_info over a written
    info object, parse_item over write_cache_child's output, and
    dir_cache_load's loop over the whole file dir_cache_save writes
    (src/dir_cache.c). Each step names the text it reads and what it
    leaves in the record. */
module ReadText {
  import opened Common
  import opened CacheTypes
  import opened Decimal
  import opened JsonEscape
  import opened JsonSpec
  import opened Writer
  import opened RoundTripText
  import opened ReadBack

  // ---------------------------------------------------------------- members

  /** A written key and its colon: the member is read as the value under
      that key. */
  lemma MemberKey(s: string, p: nat, q: nat, line: int, key: string, ch: Child)
    requires AllPlain(key) && |key| < MAX_VAL && IsAt(s, p, "\"" + key + "\":") && q == p + |key| + 3
    ensures Member(s, Cursor(p, line), ch) == FieldValue(s, Cursor(q, line), key, ch)
  {
    KeyRead(s, p, line, key);
    MemberAt(s, Cursor(p, line), ch, key, Cursor(p + |key| + 2, line), Cursor(q, line));
  }

  /** Where a written member sits: its key and colon at p, its value at q,
      its end at e. */
  lemma FieldAt(s: string, p: nat, e: nat, f: Field) returns (q: nat)
    requires IsAt(s, p, FieldText(f)) && e == p + |FieldText(f)|
    ensures q == p + |KeyName(f)| + 3 && e == q + |ValueText(f)|
    ensures IsAt(s, p, "\"" + KeyName(f) + "\":") && IsAt(s, q, ValueText(f))
  {
    FieldTextSplit(f);
    IsAtSplit(s, p, "\"" + KeyName(f) + "\":", ValueText(f));
    q := p + |KeyName(f)| + 3;
  }

  /** A written member, followed by `,` or `}`, is read into the field its
      key names, and reading stops right after it. */
  lemma MemberRead(s: string, p: nat, e: nat, line: int, f: Field, a: Child, b: Child)
    requires IsAt(s, p, FieldText(f)) && e == p + |FieldText(f)| && MemberEnd(s, e)
    requires b == ApplyField(a, f)
    ensures Member(s, Cursor(p, line), a) == Some(Parsed(b, Cursor(e, line)))
  {
    var q := FieldAt(s, p, e, f);
    ValueMember(s, p, q, e, line, f, a, b);
  }

  lemma ValueMember(s: string, p: nat, q: nat, e: nat, line: int, f: Field, a: Child, b: Child)
    requires q == p + |KeyName(f)| + 3 && e == q + |ValueText(f)|
    requires IsAt(s, p, "\"" + KeyName(f) + "\":") && IsAt(s, q, ValueText(f)) && MemberEnd(s, e)
    requires b == ApplyField(a, f)
    ensures Member(s, Cursor(p, line), a) == Some(Parsed(b, Cursor(e, line)))
  {
    if f.FName? {
      NameField(s, p, q, e, line, f, a, b);
    } else if f.FSigned? {
      SignedField(s, p, q, e, line, f, a, b);
    } else if f.FUnsigned? {
      UnsignedField(s, p, q, e, line, f, a, b);
    } else if f.FTrue? {
      TrueField(s, p, q, e, line, f, a, b);
    } else {
      ExcludedField(s, p, q, e, line, f, a, b);
    }
  }

  lemma NameField(s: string, p: nat, q: nat, e: nat, line: int, f: Field, a: Child, b: Child)
    requires f.FName? && q == p + |KeyName(f)| + 3 && e == q + |ValueText(f)|
    requires IsAt(s, p, "\"" + KeyName(f) + "\":") && IsAt(s, q, ValueText(f)) && MemberEnd(s, e)
    requires b == ApplyField(a, f)
    ensures Member(s, Cursor(p, line), a) == Some(Parsed(b, Cursor(e, line)))
  {
    NameMember(s, p, q, e, line, f.text, a);
  }

  lemma SignedField(s: string, p: nat, q: nat, e: nat, line: int, f: Field, a: Child, b: Child)
    requires f.FSigned? && q == p + |KeyName(f)| + 3 && e == q + |ValueText(f)|
    requires IsAt(s, p, "\"" + KeyName(f) + "\":") && IsAt(s, q, ValueText(f)) && MemberEnd(s, e)
    requires b == ApplyField(a, f)
    ensures Member(s, Cursor(p, line), a) == Some(Parsed(b, Cursor(e, line)))
  {
    SignedMember(s, p, q, e, line, f.skey, f.v, a);
  }

  lemma UnsignedField(s: string, p: nat, q: nat, e: nat, line: int, f: Field, a: Child, b: Child)
    requires f.FUnsigned? && q == p + |KeyName(f)| + 3 && e == q + |ValueText(f)|
    requires IsAt(s, p, "\"" + KeyName(f) + "\":") && IsAt(s, q, ValueText(f)) && MemberEnd(s, e)
    requires b == ApplyField(a, f)
    ensures Member(s, Cursor(p, line), a) == Some(Parsed(b, Cursor(e, line)))
  {
    UnsignedMember(s, p, q, e, line, f.ukey, f.n, a);
  }

  lemma TrueField(s: string, p: nat, q: nat, e: nat, line: int, f: Field, a: Child, b: Child)
    requires f.FTrue? && q == p + |KeyName(f)| + 3 && e == q + |ValueText(f)|
    requires IsAt(s, p, "\"" + KeyName(f) + "\":") && IsAt(s, q, ValueText(f)) && MemberEnd(s, e)
    requires b == ApplyField(a, f)
    ensures Member(s, Cursor(p, line), a) == Some(Parsed(b, Cursor(e, line)))
  {
    TrueMember(s, p, q, e, line, f.tkey, a);
  }

  lemma ExcludedField(s: string, p: nat, q: nat, e: nat, line: int, f: Field, a: Child, b: Child)
    requires f.FExcluded? && q == p + |KeyName(f)| + 3 && e == q + |ValueText(f)|
    requires IsAt(s, p, "\"" + KeyName(f) + "\":") && IsAt(s, q, ValueText(f)) && MemberEnd(s, e)
    requires b == ApplyField(a, f)
    ensures Member(s, Cursor(p, line), a) == Some(Parsed(b, Cursor(e, line)))
  {
    ExcludedMember(s, p, q, e, line, f.reason, a);
  }

  lemma NameMember(s: string, p: nat, q: nat, e: nat, line: int, t: string, ch: Child)
    requires q == p + 7 && IsAt(s, p, "\"" + "name" + "\":") && IsAt(s, q, "\"" + Escape(CStr(t)) + "\"")
    requires e == q + |Escape(CStr(t))| + 2
    ensures Member(s, Cursor(p, line), ch) == Some(Parsed(ApplyField(ch, FName(t)), Cursor(e, line)))
  {
    FieldTextSplit(FName(t));
    NameValue(s, q, line, t, ch);
    MemberKey(s, p, q, line, "name", ch);
  }

  /** A number's digits end at a `,` or `}`. */
  lemma EndNotDigit(s: string, e: nat)
    requires MemberEnd(s, e)
    ensures e < |s| && !IsDigit(s[e]) && s[e] != '.'
  {
  }

  lemma SignedMember(s: string, p: nat, q: nat, e: nat, line: int, k: SignedKey, v: i64, ch: Child)
    requires q == p + |SignedName(k)| + 3 && IsAt(s, p, "\"" + SignedName(k) + "\":")
    requires IsAt(s, q, SignedDigits(v)) && e == q + |SignedDigits(v)| && MemberEnd(s, e)
    ensures Member(s, Cursor(p, line), ch) == Some(Parsed(ApplyField(ch, FSigned(k, v)), Cursor(e, line)))
  {
    SignedPlain(k);
    EndNotDigit(s, e);
    SignedValue(s, q, line, k, v, ch);
    MemberKey(s, p, q, line, SignedName(k), ch);
  }

  lemma UnsignedMember(s: string, p: nat, q: nat, e: nat, line: int, k: UnsignedKey, n: u64, ch: Child)
    requires q == p + |UnsignedName(k)| + 3 && IsAt(s, p, "\"" + UnsignedName(k) + "\":")
    requires IsAt(s, q, Digits(n)) && e == q + |Digits(n)| && MemberEnd(s, e)
    ensures Member(s, Cursor(p, line), ch) == Some(Parsed(ApplyField(ch, FUnsigned(k, n)), Cursor(e, line)))
  {
    UnsignedPlain(k);
    EndNotDigit(s, e);
    UnsignedValue(s, q, line, k, n, ch);
    MemberKey(s, p, q, line, UnsignedName(k), ch);
  }

  lemma TrueMember(s: string, p: nat, q: nat, e: nat, line: int, k: TrueKey, ch: Child)
    requires q == p + |TrueName(k)| + 3 && IsAt(s, p, "\"" + TrueName(k) + "\":") && IsAt(s, q, "true")
    requires e == q + 4
    ensures Member(s, Cursor(p, line), ch) == Some(Parsed(ApplyField(ch, FTrue(k)), Cursor(e, line)))
  {
    TruePlain(k);
    IsAtChar(s, q, "true", 0);
    MemberKey(s, p, q, line, TrueName(k), ch);
    TrueValue(s, q, e, line, k, ch);
  }

  lemma ExcludedMember(s: string, p: nat, q: nat, e: nat, line: int, r: Reason, ch: Child)
    requires q == p + 11 && IsAt(s, p, "\"" + "excluded" + "\":") && IsAt(s, q, "\"" + ReasonName(r) + "\"")
    requires e == q + |ReasonName(r)| + 2
    ensures Member(s, Cursor(p, line), ch) == Some(Parsed(ApplyField(ch, FExcluded(r)), Cursor(e, line)))
  {
    FieldTextSplit(FExcluded(r));
    MemberKey(s, p, q, line, "excluded", ch);
    ExcludedValue(s, q, line, r, ch);
  }

  // ----------------------------------------------------------- info objects

  lemma MoreParts(s: string, p: nat, t: string, m: string)
    requires IsAt(s, p, "," + t + m + "}")
    ensures p < |s| && s[p] == ','
    ensures IsAt(s, p + 1, t) && IsAt(s, p + 1 + |t|, m + "}")
  {
    IsAtSplit(s, p, "," + t + m, "}");
    IsAtSplit(s, p, "," + t, m);
    IsAtSplit(s, p, ",", t);
    IsAtChar(s, p, ",", 0);
    IsAtJoin(s, p + 1 + |t|, m, "}");
  }

  lemma FieldStartsQuoted(s: string, p: nat, f: Field)
    requires IsAt(s, p, FieldText(f))
    ensures p < |s| && s[p] == '"'
  {
    FieldTextSplit(f);
    IsAtChar(s, p, FieldText(f), 0);
  }

  lemma CommaBefore(s: string, p: nat, f: Field)
    requires p < |s| && s[p] == ',' && IsAt(s, p + 1, FieldText(f))
    ensures CommaAt(s, p)
  {
    FieldStartsQuoted(s, p + 1, f);
  }

  /** What follows a member is a `,` or the closing `}`. */
  lemma OpensMember(s: string, p: nat, fs: seq<Field>)
    requires IsAt(s, p, MoreFields(fs) + "}")
    ensures MemberEnd(s, p)
  {
    IsAtChar(s, p, MoreFields(fs) + "}", 0);
  }

  predicate CommaAt(s: string, p: nat) { p + 1 < |s| && s[p] == ',' && s[p + 1] == '"' }

  /** A `}` ends the member loop. */
  lemma CloseBrace(s: string, p: nat, line: int, ch: Child)
    requires p < |s| && s[p] == '}'
    ensures AfterMember(s, Cursor(p, line), ch) == Some(Parsed(ch, Cursor(p + 1, line)))
  {
    assert SkipWs(s, Cursor(p, line)) == Cursor(p, line);
  }

  /** The member loop reads the same from p with a as from q with b. */
  predicate Linked(s: string, line: int, p: nat, q: nat, a: Child, b: Child) {
    AfterMember(s, Cursor(p, line), a) == AfterMember(s, Cursor(q, line), b)
  }

  /** The member loop reads the same from ps[i] as from ps[i + 1]. */
  predicate Joined(s: string, line: int, ps: seq<nat>, chs: seq<Child>, i: nat)
    requires |ps| == |chs| && i + 1 < |ps|
  {
    Linked(s, line, ps[i], ps[i + 1], chs[i], chs[i + 1])
  }

  /** The member loop, run from the comma at ps[k]: when each comma's
      member leads from one step to the next, the loop runs on to the `}`
      at the end. */
  lemma {:induction false} MemberLoop(s: string, line: int, ps: seq<nat>, chs: seq<Child>, k: nat)
    requires |ps| == |chs| && k < |ps|
    requires forall i | k <= i < |ps| - 1 :: Joined(s, line, ps, chs, i)
    requires ps[|ps| - 1] < |s| && s[ps[|ps| - 1]] == '}'
    ensures AfterMember(s, Cursor(ps[k], line), chs[k])
         == Some(Parsed(chs[|chs| - 1], Cursor(ps[|ps| - 1] + 1, line)))
    decreases |ps| - k
  {
    if k == |ps| - 1 {
      CloseBrace(s, ps[k], line, chs[k]);
    } else {
      MemberLoop(s, line, ps, chs, k + 1);
      assert Joined(s, line, ps, chs, k);
    }
  }

  /** Texts, each after a comma. */
  function MoreText(ts: seq<string>): string
    decreases |ts|
  {
    if ts == [] then "" else "," + ts[0] + MoreText(ts[1..])
  }

  /** Where each comma of m == MoreText(ts), followed by `}`, stands, and
      the `}` last. */
  /** The i-th text stands at ps[i] + 1, after a comma, and ends at
      ps[i + 1]. */
  predicate CommaText(s: string, ps: seq<nat>, ts: seq<string>, i: nat)
    requires |ps| == |ts| + 1 && i < |ts|
  {
    ps[i] < |s| && s[ps[i]] == ',' && IsAt(s, ps[i] + 1, ts[i]) && ps[i + 1] == ps[i] + 1 + |ts[i]|
  }

  lemma {:induction false} TextLayout(s: string, p: nat, e: nat, m: string, ts: seq<string>) returns (ps: seq<nat>)
    requires m == MoreText(ts) && IsAt(s, p, m + "}") && e == p + |m| + 1
    ensures |ps| == |ts| + 1 && ps[0] == p && ps[|ts|] + 1 == e
    ensures e - 1 < |s| && s[e - 1] == '}'
    ensures forall i | 0 <= i < |ts| :: CommaText(s, ps, ts, i)
    decreases |ts|
  {
    if ts == [] {
      assert MoreText(ts) + "}" == "}";
      IsAtChar(s, p, "}", 0);
      ps := [p];
    } else {
      assert MoreText(ts) + "}" == "," + ts[0] + MoreText(ts[1..]) + "}";
      MoreParts(s, p, ts[0], MoreText(ts[1..]));
      var rest := TextLayout(s, p + 1 + |ts[0]|, e, MoreText(ts[1..]), ts[1..]);
      ps := [p] + rest;
      forall i | 0 <= i < |ts|
        ensures CommaText(s, ps, ts, i)
      {
        if i > 0 {
          assert CommaText(s, rest, ts[1..], i - 1);
          assert ps[i] == rest[i - 1] && ps[i + 1] == rest[i] && ts[i] == ts[1..][i - 1];
        }
      }
    }
  }

  /** The text of each member. */
  function Texts(fs: seq<Field>): (ts: seq<string>)
    ensures |ts| == |fs|
  {
    seq(|fs|, i requires 0 <= i < |fs| => FieldText(fs[i]))
  }

  lemma {:induction false} MoreFieldsText(fs: seq<Field>)
    ensures MoreFields(fs) == MoreText(Texts(fs))
    decreases |fs|
  {
    if fs != [] {
      assert Texts(fs)[1..] == Texts(fs[1..]);
      MoreFieldsText(fs[1..]);
    }
  }

  /** The item as it stands after each member: the fields applied so far. */
  function Steps(ch: Child, fs: seq<Field>): (chs: seq<Child>)
    ensures |chs| == |fs| + 1
  {
    seq(|fs| + 1, i requires 0 <= i <= |fs| => ApplyFields(ch, fs[..i]))
  }

  lemma StepsNext(ch: Child, fs: seq<Field>, i: nat)
    requires i < |fs|
    ensures Steps(ch, fs)[i + 1] == ApplyField(Steps(ch, fs)[i], fs[i])
  {
    assert fs[..i + 1] == fs[..i] + [fs[i]];
    ApplyFieldsConcat(ch, fs[..i], [fs[i]]);
  }

  lemma StepsEnds(ch: Child, fs: seq<Field>)
    ensures Steps(ch, fs)[0] == ch && Steps(ch, fs)[|fs|] == ApplyFields(ch, fs)
  {
    assert fs[..|fs|] == fs;
  }

  /** Each written member, after its comma, takes the member loop from one
      step to the next. */
  lemma MembersRead(s: string, line: int, fs: seq<Field>, ps: seq<nat>, ch: Child, chs: seq<Child>)
    requires |ps| == |fs| + 1 && chs == Steps(ch, fs)
    requires forall i | 0 <= i < |fs| :: CommaText(s, ps, Texts(fs), i)
    requires ps[|fs|] < |s| && s[ps[|fs|]] == '}'
    ensures forall i | 0 <= i < |ps| - 1 :: Joined(s, line, ps, chs, i)
  {
    forall i | 0 <= i < |ps| - 1
      ensures Joined(s, line, ps, chs, i)
    {
      assert CommaText(s, ps, Texts(fs), i);
      if i + 1 < |fs| {
        assert CommaText(s, ps, Texts(fs), i + 1);
      }
      StepsNext(ch, fs, i);
      MemberStepAt(s, line, fs[i], ps[i], ps[i + 1], chs[i], chs[i + 1]);
      StepEq(s, ps[i], ps[i + 1], line, chs[i], chs[i + 1]);
    }
  }

  /** A comma, then a written member read into its field. */
  lemma MemberStepAt(s: string, line: int, f: Field, p: nat, q: nat, a: Child, b: Child)
    requires p < |s| && s[p] == ',' && IsAt(s, p + 1, FieldText(f)) && q == p + 1 + |FieldText(f)|
    requires MemberEnd(s, q) && b == ApplyField(a, f)
    ensures CommaAt(s, p) && Member(s, Cursor(p + 1, line), a) == Some(Parsed(b, Cursor(q, line)))
  {
    MemberRead(s, p + 1, q, line, f, a, b);
    CommaBefore(s, p, f);
  }

  lemma AfterMoreRead(s: string, p: nat, e: nat, line: int, ch: Child, fs: seq<Field>)
    requires IsAt(s, p, MoreFields(fs) + "}") && e == p + |MoreFields(fs)| + 1
    ensures AfterMember(s, Cursor(p, line), ch) == Some(Parsed(ApplyFields(ch, fs), Cursor(e, line)))
  {
    var ps := FieldsLayout(s, p, e, fs);
    ChainRead(s, line, fs, ps, ch, p, e);
  }

  lemma ChainRead(s: string, line: int, fs: seq<Field>, ps: seq<nat>, ch: Child, p: nat, e: nat)
    requires |ps| == |fs| + 1 && ps[0] == p && ps[|fs|] + 1 == e
    requires forall i | 0 <= i < |fs| :: CommaText(s, ps, Texts(fs), i)
    requires e - 1 < |s| && s[e - 1] == '}'
    ensures AfterMember(s, Cursor(p, line), ch) == Some(Parsed(ApplyFields(ch, fs), Cursor(e, line)))
  {
    var chs := Steps(ch, fs);
    StepsEnds(ch, fs);
    MembersRead(s, line, fs, ps, ch, chs);
    MemberLoopFrom(s, line, ps, chs, p, ch, ApplyFields(ch, fs), e);
  }

  lemma MemberLoopFrom(s: string, line: int, ps: seq<nat>, chs: seq<Child>, p: nat, ch: Child, last: Child, e: nat)
    requires |ps| == |chs| > 0 && ps[0] == p && chs[0] == ch && chs[|chs| - 1] == last && ps[|ps| - 1] + 1 == e
    requires forall i | 0 <= i < |ps| - 1 :: Joined(s, line, ps, chs, i)
    requires e - 1 < |s| && s[e - 1] == '}'
    ensures AfterMember(s, Cursor(p, line), ch) == Some(Parsed(last, Cursor(e, line)))
  {
    MemberLoop(s, line, ps, chs, 0);
  }

  lemma FieldsLayout(s: string, p: nat, e: nat, fs: seq<Field>) returns (ps: seq<nat>)
    requires IsAt(s, p, MoreFields(fs) + "}") && e == p + |MoreFields(fs)| + 1
    ensures |ps| == |fs| + 1 && ps[0] == p && ps[|fs|] + 1 == e
    ensures e - 1 < |s| && s[e - 1] == '}'
    ensures forall i | 0 <= i < |fs| :: CommaText(s, ps, Texts(fs), i)
  {
    MoreFieldsText(fs);
    ps := TextLayout(s, p, e, MoreFields(fs), Texts(fs));
  }


  /** `{`, then a first member that reads as m, then the member loop. */
  lemma InfoStart(s: string, p: nat, line: int, dev: u64, ch: Child, m: Parsed<Child>, r: Option<Parsed<Child>>)
    requires p + 1 < |s| && s[p] == '{' && s[p + 1] == '"'
    requires Member(s, Cursor(p + 1, line), ch.(dev := dev)) == Some(m) && AfterMember(s, m.next, m.v) == r
    ensures ItemInfo(s, Cursor(p, line), dev, ch) == r
  {
    ExpectAt(s, p, line, '{');
    NoSkip(s, Cursor(p + 1, line));
    FieldsStep(s, Cursor(p + 1, line), ch.(dev := dev), m, r);
  }

  lemma ExpectAt(s: string, p: nat, line: int, ch: char)
    requires p < |s| && s[p] == ch && !IsWs(ch)
    ensures Expect(s, Cursor(p, line), ch) == Some(Cursor(p + 1, line))
  {
    NoSkip(s, Cursor(p, line));
  }

  /** The parts of an info object's text. */
  lemma ObjectLayout(s: string, p: nat, e: nat, name: string, fs: seq<Field>) returns (q: nat)
    requires IsAt(s, p, InfoObject(name, fs)) && e == p + |InfoObject(name, fs)|
    ensures p + 1 < |s| && s[p] == '{' && s[p + 1] == '"'
    ensures IsAt(s, p + 1, FieldText(FName(name))) && q == p + 1 + |FieldText(FName(name))|
    ensures IsAt(s, q, MoreFields(fs) + "}") && e == q + |MoreFields(fs)| + 1
  {
    q := p + 1 + |FieldText(FName(name))|;
    var t := FieldText(FName(name));
    assert InfoObject(name, fs) == "{" + t + (MoreFields(fs) + "}");
    IsAtSplit(s, p, "{" + t, MoreFields(fs) + "}");
    IsAtSplit(s, p, "{", t);
    IsAtChar(s, p, "{", 0);
    FieldStartsQuoted(s, p + 1, FName(name));
  }

  /** An info object the writer wrote reads back, through the member loop,
      as its fields applied in order to the record it starts from. */
  lemma InfoObjectRead(s: string, p: nat, e: nat, line: int, dev: u64, ch: Child, name: string, fs: seq<Field>)
    requires IsAt(s, p, InfoObject(name, fs)) && e == p + |InfoObject(name, fs)|
    ensures ItemInfo(s, Cursor(p, line), dev, ch)
         == Some(Parsed(ApplyFields(ApplyField(ch.(dev := dev), FName(name)), fs), Cursor(e, line)))
  {
    var q := ObjectLayout(s, p, e, name, fs);
    FirstMemberRead(s, p, q, e, line, dev, ch, name, fs);
  }

  /** The same, from any cursor at p. */
  lemma InfoObjectAt(s: string, c: Cursor, e: nat, dev: u64, ch: Child, name: string, fs: seq<Field>)
    requires IsAt(s, c.pos, InfoObject(name, fs)) && e == c.pos + |InfoObject(name, fs)|
    ensures ItemInfo(s, c, dev, ch)
         == Some(Parsed(ApplyFields(ApplyField(ch.(dev := dev), FName(name)), fs), Cursor(e, c.line)))
  {
    assert c == Cursor(c.pos, c.line);
    InfoObjectRead(s, c.pos, e, c.line, dev, ch, name, fs);
  }

  lemma FirstMemberRead(s: string, p: nat, q: nat, e: nat, line: int, dev: u64, ch: Child, name: string, fs: seq<Field>)
    requires p + 1 < |s| && s[p] == '{' && s[p + 1] == '"'
    requires IsAt(s, p + 1, FieldText(FName(name))) && q == p + 1 + |FieldText(FName(name))|
    requires IsAt(s, q, MoreFields(fs) + "}") && e == q + |MoreFields(fs)| + 1
    ensures ItemInfo(s, Cursor(p, line), dev, ch)
         == Some(Parsed(ApplyFields(ApplyField(ch.(dev := dev), FName(name)), fs), Cursor(e, line)))
  {
    OpensMember(s, q, fs);
    var b := ApplyField(ch.(dev := dev), FName(name));
    MemberRead(s, p + 1, q, line, FName(name), ch.(dev := dev), b);
    AfterMoreRead(s, q, e, line, b, fs);
    InfoStart(s, p, line, dev, ch, Parsed(b, Cursor(q, line)), Some(Parsed(ApplyFields(b, fs), Cursor(e, line))));
  }

  /** What follows a size written with a fraction: parse_int64 stops at the
      dot (RoundTripText.ParseIntStopsAtDot), and the member loop finds
      there neither `}`, a comma nor a key, so the info object fails. */
  lemma FractionFails(s: string, q: nat, line: int, ch: Child)
    requires q < |s| && s[q] == '.'
    ensures AfterMember(s, Cursor(q, line), ch) == None
  {
    NoSkip(s, Cursor(q, line));
    DotNoMember(s, Cursor(q, line), ch);
  }

  lemma DotNoMember(s: string, c: Cursor, ch: Child)
    requires c.pos < |s| && s[c.pos] == '.'
    ensures InfoFields(s, c, ch) == None
  {
    NoSkip(s, c);
    assert Expect(s, c, '"') == None;
  }

  lemma NoSkip(s: string, c: Cursor)
    requires c.pos < |s| && !IsWs(s[c.pos])
    ensures SkipWs(s, c) == c
  {
  }

  /** After a member, a comma and a member that reads as m: the member loop
      goes on after m. */
  lemma CommaStep(s: string, p: nat, line: int, ch: Child, m: Parsed<Child>, r: Option<Parsed<Child>>)
    requires CommaAt(s, p)
    requires Member(s, Cursor(p + 1, line), ch) == Some(m) && AfterMember(s, m.next, m.v) == r
    ensures AfterMember(s, Cursor(p, line), ch) == r
  {
    NoSkip(s, Cursor(p + 1, line));
    FieldsStep(s, Cursor(p + 1, line), ch, m, r);
    NoSkip(s, Cursor(p, line));
  }

  lemma FieldsStep(s: string, c: Cursor, ch: Child, m: Parsed<Child>, r: Option<Parsed<Child>>)
    requires SkipWs(s, c) == c && At(s, c) != '}'
    requires Member(s, c, ch) == Some(m) && AfterMember(s, m.next, m.v) == r
    ensures InfoFields(s, c, ch) == r
  {
  }

  lemma StepEq(s: string, p: nat, q: nat, line: int, a: Child, b: Child)
    requires CommaAt(s, p) && Member(s, Cursor(p + 1, line), a) == Some(Parsed(b, Cursor(q, line)))
    ensures Linked(s, line, p, q, a, b)
  {
    CommaStep(s, p, line, a, Parsed(b, Cursor(q, line)), AfterMember(s, Cursor(q, line), b));
  }

}

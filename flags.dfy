/// Command-line flags of the sample applications: the `GetFlagArgVal`
/// matcher and its typed variants, the per-application flag tables, and the
/// two styles of `ParseMyArgs` (the batch applications collect input files
/// and remember `--help`; the relighting applications stop at `--help`).
module Flags {
  import opened CStrings

  /// Outcome of `GetFlagArgVal(flag, arg, &val)`: the boolean result and,
  /// when it is true, the value pointer (None is the NULL pointer of a flag
  /// given without '=').
  datatype FlagMatch = NoMatch | Matched(value: Option<string>)

  /// Leading '-' characters.
  function DashCount(s: string): (n: nat)
    ensures n <= |s|
    ensures forall i :: 0 <= i < n ==> s[i] == '-'
    ensures n < |s| ==> s[n] != '-'
  {
    if s != [] && s[0] == '-' then 1 + DashCount(s[1..]) else 0
  }

  function Dashes(n: nat): (r: string)
    ensures |r| == n && forall i :: 0 <= i < n ==> r[i] == '-'
  {
    seq(n, _ => '-')
  }

  /// First occurrence of `c`, as `strchr` finds it.
  function IndexOf(s: string, c: char): (r: Option<nat>)
    ensures r.None? ==> c !in s
    ensures r.Some? ==> r.value < |s| && s[r.value] == c && c !in s[..r.value]
  {
    if s == [] then None
    else if s[0] == c then Some(0)
    else
      var r := IndexOf(s[1..], c);
      if r.Some? then assert s[..r.value + 1] == [s[0]] + s[1..][..r.value]; Some(r.value + 1)
      else None
  }

  /// `GetFlagArgVal(flag, arg, const char**)`: the argument must start with
  /// '-'; all leading dashes are skipped; without '=' the rest must equal the
  /// flag name, with '=' the part before the first '=' must, and the value is
  /// what follows it.
  function GetFlagArgVal(flag: string, arg: string): (r: FlagMatch)
    ensures r.Matched? ==> |arg| > 0 && arg[0] == '-'
  {
    if |arg| == 0 || arg[0] != '-' then NoMatch
    else
      var rest := arg[DashCount(arg)..];
      match IndexOf(rest, '=')
      case None => if rest == flag then Matched(None) else NoMatch
      case Some(k) => if |flag| == k && flag == rest[..k] then Matched(Some(rest[k + 1..])) else NoMatch
  }

  /// A name the matcher can recognise: no '=' and no leading '-'.
  predicate FlagName(flag: string)
  {
    '=' !in flag && (flag == [] || flag[0] != '-')
  }

  /// The argument `--flag` or `--flag=value`, with `d` dashes.
  function FlagArg(d: nat, flag: string, v: Option<string>): string
  {
    Dashes(d) + flag + (if v.Some? then "=" + v.value else "")
  }

  /// Writing a flag with any number of dashes, with or without a value, is
  /// recognised, and the value comes back unchanged.
  lemma {:induction false} GetFlagArgValOfFlagArg(d: nat, flag: string, v: Option<string>)
    requires d >= 1 && FlagName(flag)
    ensures GetFlagArgVal(flag, FlagArg(d, flag, v)) == Matched(v)
  {
    var arg := FlagArg(d, flag, v);
    var tail := flag + (if v.Some? then "=" + v.value else "");
    assert arg == Dashes(d) + tail;
    assert DashCount(arg) == d by {
      assert forall i :: 0 <= i < d ==> arg[i] == '-';
      if |arg| > d { assert arg[d] == tail[0]; }
      DashCountOfPrefix(arg, d);
    }
    assert arg[d..] == tail;
    if v.Some? {
      assert tail[|flag|] == '=';
      assert tail[..|flag|] == flag;
      IndexOfAfter(tail, flag, '=');
      assert tail[|flag| + 1..] == v.value;
    }
  }

  lemma {:induction false} DashCountOfPrefix(s: string, d: nat)
    requires d <= |s| && (forall i :: 0 <= i < d ==> s[i] == '-') && (d < |s| ==> s[d] != '-')
    ensures DashCount(s) == d
  {
    if d > 0 { DashCountOfPrefix(s[1..], d - 1); }
  }

  lemma {:induction false} IndexOfAfter(s: string, prefix: string, c: char)
    requires |prefix| < |s| && s[..|prefix|] == prefix && s[|prefix|] == c && c !in prefix
    ensures IndexOf(s, c) == Some(|prefix|)
  {
    if prefix != [] {
      assert s[1..][..|prefix| - 1] == prefix[1..];
      IndexOfAfter(s[1..], prefix[1..], c);
    }
  }

  /// Conversely, an argument the matcher accepts is exactly such a flag
  /// written with at least one dash.
  lemma {:induction false} GetFlagArgValMatched(flag: string, arg: string)
    requires GetFlagArgVal(flag, arg).Matched?
    ensures DashCount(arg) >= 1
    ensures arg == FlagArg(DashCount(arg), flag, GetFlagArgVal(flag, arg).value)
  {
    var d := DashCount(arg);
    var rest := arg[d..];
    SplitAfterDashes(arg, d);
    match IndexOf(rest, '=')
    case None =>
      assert GetFlagArgVal(flag, arg) == Matched(None) && rest == flag;
      FlagArgBare(d, flag);
    case Some(k) =>
      var v := rest[k + 1..];
      assert GetFlagArgVal(flag, arg) == Matched(Some(v)) && flag == rest[..k];
      SplitAtEquals(rest, k);
      FlagArgValued(d, flag, v);
  }

  lemma {:induction false} SplitAfterDashes(arg: string, d: nat)
    requires d <= |arg| && forall i :: 0 <= i < d ==> arg[i] == '-'
    ensures arg == Dashes(d) + arg[d..]
  {
    assert arg[..d] == Dashes(d);
    assert arg == arg[..d] + arg[d..];
  }

  lemma {:induction false} SplitAtEquals(s: string, k: nat)
    requires k < |s| && s[k] == '='
    ensures s == s[..k] + ("=" + s[k + 1..])
  {
  }

  lemma {:induction false} FlagArgBare(d: nat, flag: string)
    ensures FlagArg(d, flag, None) == Dashes(d) + flag
  {
    assert Dashes(d) + flag + "" == Dashes(d) + flag;
  }

  lemma {:induction false} FlagArgValued(d: nat, flag: string, v: string)
    ensures FlagArg(d, flag, Some(v)) == Dashes(d) + (flag + ("=" + v))
  {
    AppendAssoc(Dashes(d), flag, "=" + v);
  }

  /// Two different names never accept the same argument, so the order of
  /// the `||` chain in `ParseMyArgs` only matters for repeated names.
  lemma {:induction false} GetFlagArgValUnique(f1: string, f2: string, arg: string)
    requires GetFlagArgVal(f1, arg).Matched? && GetFlagArgVal(f2, arg).Matched?
    ensures f1 == f2
  {
  }

  /// `GetFlagArgVal(flag, arg, std::string*)`: the value, or "" for NULL.
  function StringValue(v: Option<string>): (r: string)
    ensures v.Some? ==> r == v.value
    ensures v.None? ==> r == ""
  {
    if v.Some? then v.value else ""
  }

  /// `GetFlagArgVal(flag, arg, bool*)`: true for a bare flag and for
  /// true/on/yes/1 in any case, false for any other value.
  function BoolValue(v: Option<string>): (r: bool)
  {
    v.None? || StrCaseEq(v.value, "true") || StrCaseEq(v.value, "on")
    || StrCaseEq(v.value, "yes") || StrCaseEq(v.value, "1")
  }

  lemma {:induction false} BoolValueFolded(v: Option<string>)
    ensures BoolValue(v) <==> v.None? || Lower(v.value) in {"true", "on", "yes", "1"}
  {
    if v.Some? {
      StrCaseEqIsLowerEq(v.value, "true");
      StrCaseEqIsLowerEq(v.value, "on");
      StrCaseEqIsLowerEq(v.value, "yes");
      StrCaseEqIsLowerEq(v.value, "1");
      assert Lower("true") == "true" && Lower("on") == "on";
      assert Lower("yes") == "yes" && Lower("1") == "1";
    }
  }

  lemma {:induction false} BoolValueExamples()
    ensures BoolValue(Some("YES")) && BoolValue(Some("On")) && BoolValue(None)
    ensures !BoolValue(Some("false")) && !BoolValue(Some("0")) && !BoolValue(Some(""))
  {
    assert !StrCaseEq("false", "true") by { assert ToLower("false"[0]) != ToLower("true"[0]); }
    assert !StrCaseEq("0", "1") by { assert ToLower("0"[0]) != ToLower("1"[0]); }
  }

  /// How a flag's text is stored.  Numbers keep their text: `strtol` and
  /// `strtof` are not interpreted, and a bare numeric flag (NULL text) is
  /// kept as None.
  datatype Kind = Text | Boolean | Number

  datatype Value = TextVal(s: string) | BoolVal(b: bool) | NumVal(raw: Option<string>)

  /// One `GetFlagArgVal(name, arg, &target)` term of the `||` chain.
  datatype Flag = Flag(name: string, target: string, kind: Kind)

  /// The global variables, by name.
  type Store = map<string, Value>

  function Convert(kind: Kind, v: Option<string>): (r: Value)
    ensures kind == Text ==> r == TextVal(StringValue(v))
    ensures kind == Boolean ==> r == BoolVal(BoolValue(v))
    ensures kind == Number ==> r == NumVal(v)
  {
    match kind
    case Text => TextVal(StringValue(v))
    case Boolean => BoolVal(BoolValue(v))
    case Number => NumVal(v)
  }

  /// The `||` chain: the first table entry that accepts the argument, with
  /// the value it saw.
  function FindFlag(table: seq<Flag>, arg: string): (r: Option<(nat, Option<string>)>)
    ensures r.Some? ==> (r.value.0 < |table|
                         && GetFlagArgVal(table[r.value.0].name, arg) == Matched(r.value.1)
                         && forall j :: 0 <= j < r.value.0 ==> GetFlagArgVal(table[j].name, arg) == NoMatch)
    ensures r.None? ==> forall j :: 0 <= j < |table| ==> GetFlagArgVal(table[j].name, arg) == NoMatch
  {
    if table == [] then None
    else
      match GetFlagArgVal(table[0].name, arg)
      case Matched(v) => Some((0, v))
      case NoMatch =>
        var r := FindFlag(table[1..], arg);
        if r.Some? then Some((r.value.0 + 1, r.value.1)) else None
  }

  /// Table entries have names the matcher can recognise, all different.
  predicate WellFormed(table: seq<Flag>)
  {
    (forall i :: 0 <= i < |table| ==> FlagName(table[i].name))
    && (forall i, j :: 0 <= i < j < |table| ==> table[i].name != table[j].name)
  }

  /// Entry `k` has a recognisable name that no earlier entry repeats.
  predicate Selects(table: seq<Flag>, k: nat)
  {
    k < |table| && FlagName(table[k].name) && forall j :: 0 <= j < k ==> table[j].name != table[k].name
  }

  lemma {:induction false} WellFormedSelects(table: seq<Flag>, k: nat)
    requires WellFormed(table) && k < |table|
    ensures Selects(table, k)
  {
  }

  /// `--name=value` selects the entry `name` belongs to.
  lemma {:induction false} FindFlagOfFlagArg(table: seq<Flag>, k: nat, d: nat, v: Option<string>)
    requires Selects(table, k) && d >= 1
    ensures FindFlag(table, FlagArg(d, table[k].name, v)) == Some((k, v))
  {
    var arg := FlagArg(d, table[k].name, v);
    GetFlagArgValOfFlagArg(d, table[k].name, v);
    var r := FindFlag(table, arg);
    if r.Some? && r.value.0 != k {
      GetFlagArgValUnique(table[r.value.0].name, table[k].name, arg);
    }
  }

  predicate DashLed(arg: string)
  {
    |arg| > 0 && arg[0] == '-'
  }

  predicate DoubleDash(arg: string)
  {
    |arg| > 1 && arg[0] == '-' && arg[1] == '-'
  }

  const VerboseTarget := "verbose"

  /// The single-dash loop: every 'v' after the dash sets the verbose flag;
  /// other characters are reported and ignored.
  function SingleDash(store: Store, arg: string): (r: Store)
    requires DashLed(arg)
  {
    if 'v' in arg[1..] then store[VerboseTarget := BoolVal(true)] else store
  }

  /// The loop over the characters of a single-dash argument.
  method ScanSingleDash(store: Store, arg: string) returns (s: Store)
    requires DashLed(arg)
    ensures s == SingleDash(store, arg)
  {
    s := store;
    var j := 1;
    while j < |arg|
      invariant 1 <= j <= |arg|
      invariant s == if 'v' in arg[1..j] then store[VerboseTarget := BoolVal(true)] else store
    {
      assert arg[1..j + 1] == arg[1..j] + [arg[j]];
      if arg[j] == 'v' {
        s := s[VerboseTarget := BoolVal(true)];
      }
      j := j + 1;
    }
    assert arg[1..j] == arg[1..];
  }

  /// Batch applications: `--help` that no table entry claims.
  predicate HelpRequest(table: seq<Flag>, arg: string)
  {
    DoubleDash(arg) && FindFlag(table, arg).None? && GetFlagArgVal("help", arg).Matched?
  }

  /// The text of a string global, "" when it is not one.
  function TextFlag(store: Store, key: string): string
  {
    if key in store && store[key].TextVal? then store[key].s else ""
  }

  /// The value of a boolean global, false when it is not one.
  predicate BoolFlag(store: Store, key: string)
  {
    key in store && store[key].BoolVal? && store[key].b
  }

  datatype Parsed = Parsed(store: Store, inFiles: seq<string>, errs: int)

  /// One pass of the batch applications' loop body.
  function BatchStep(table: seq<Flag>, st: Parsed, arg: string): Parsed
  {
    if !DashLed(arg) then st.(inFiles := st.inFiles + [arg])
    else if DoubleDash(arg) then
      match FindFlag(table, arg)
      case Some((k, v)) => st.(store := st.store[table[k].target := Convert(table[k].kind, v)])
      case None => if GetFlagArgVal("help", arg).Matched? then st.(errs := 1) else st
    else st.(store := SingleDash(st.store, arg))
  }

  function BatchParse(table: seq<Flag>, st: Parsed, args: seq<string>): Parsed
  {
    if args == [] then st
    else BatchStep(table, BatchParse(table, st, args[..|args| - 1]), args[|args| - 1])
  }

  lemma {:induction false} BatchParseSnoc(table: seq<Flag>, st: Parsed, args: seq<string>, a: string)
    ensures BatchParse(table, st, args + [a]) == BatchStep(table, BatchParse(table, st, args), a)
  {
    var all := args + [a];
    assert all[..|all| - 1] == args;
  }

  lemma {:induction false} BatchParseNext(table: seq<Flag>, st: Parsed, argv: seq<string>, i: nat)
    requires 1 <= i < |argv|
    ensures BatchParse(table, st, argv[1..i + 1]) == BatchStep(table, BatchParse(table, st, argv[1..i]), argv[i])
  {
    SliceSnoc(argv, 1, i);
    BatchParseSnoc(table, st, argv[1..i], argv[i]);
  }

  /// The arguments that do not start with '-', in order.
  function InputArgs(args: seq<string>): (r: seq<string>)
    ensures forall a :: a in r <==> a in args && !DashLed(a)
  {
    if args == [] then []
    else
      var r := InputArgs(args[..|args| - 1]);
      assert args == args[..|args| - 1] + [args[|args| - 1]];
      if DashLed(args[|args| - 1]) then r else r + [args[|args| - 1]]
  }

  /// Every argument without a leading dash is an input file, in command-line
  /// order, whatever flags surround it.
  lemma {:induction false} BatchParseInputs(table: seq<Flag>, st: Parsed, args: seq<string>)
    ensures BatchParse(table, st, args).inFiles == st.inFiles + InputArgs(args)
  {
    if args != [] {
      BatchParseInputs(table, st, args[..|args| - 1]);
    }
  }

  /// The error count is 1 exactly when some `--help` was seen (and it was
  /// 1 already, or 0, before).
  lemma {:induction false} BatchParseErrs(table: seq<Flag>, st: Parsed, args: seq<string>)
    ensures BatchParse(table, st, args).errs
            == if exists i :: 0 <= i < |args| && HelpRequest(table, args[i]) then 1 else st.errs
  {
    if args != [] {
      var pre := args[..|args| - 1];
      BatchParseErrs(table, st, pre);
      assert forall i :: 0 <= i < |pre| ==> pre[i] == args[i];
      if exists i :: 0 <= i < |pre| && HelpRequest(table, pre[i]) {
        var i :| 0 <= i < |pre| && HelpRequest(table, pre[i]);
        assert HelpRequest(table, args[i]);
      }
    }
  }

  /// A flag given last sets its global to its converted value.
  lemma {:induction false} BatchParseLastFlag(table: seq<Flag>, st: Parsed, pre: seq<string>, k: nat, v: Option<string>)
    requires Selects(table, k)
    ensures var arg := FlagArg(2, table[k].name, v);
      BatchParse(table, st, pre + [arg]).store
      == BatchParse(table, st, pre).store[table[k].target := Convert(table[k].kind, v)]
  {
    var args := pre + [FlagArg(2, table[k].name, v)];
    FindFlagOfFlagArg(table, k, 2, v);
    assert args[..|args| - 1] == pre;
  }

  /// What reading global `key` back gives once it was set from a flag of
  /// kind `kind` written with value `v`: a string global holds the text,
  /// or "" when the flag was bare; a boolean is true iff the flag was bare
  /// or said true, on, yes or 1 in any case; a number keeps its raw text,
  /// and reads neither as text nor as a boolean.
  predicate ReadsBack(s: Store, key: string, kind: Kind, v: Option<string>)
  {
    && (kind == Text && v.Some? ==> TextFlag(s, key) == v.value)
    && (kind == Text && v.None? ==> TextFlag(s, key) == "")
    && (kind == Boolean ==> (BoolFlag(s, key) <==> v.None? || Lower(v.value) in {"true", "on", "yes", "1"}))
    && (kind != Text ==> TextFlag(s, key) == "")
    && (kind != Boolean ==> !BoolFlag(s, key))
    && (kind == Number ==> key in s && s[key] == NumVal(v))
  }

  /// Storing a converted flag value reads back as the flag said.
  lemma {:induction false} ConvertReadsBack(store: Store, key: string, kind: Kind, v: Option<string>)
    ensures ReadsBack(store[key := Convert(kind, v)], key, kind, v)
  {
    BoolValueFolded(v);
  }

  /// End to end for the batch applications: after `--name=value` or a bare
  /// `--name` as the last argument, the global of `name` reads back as the
  /// flag said (`--in_file=x` gives the text x, a bare `--show` gives true),
  /// whatever came before.
  lemma {:induction false} BatchParseSetsFlag(table: seq<Flag>, st: Parsed, pre: seq<string>, k: nat, v: Option<string>)
    requires Selects(table, k)
    ensures ReadsBack(BatchParse(table, st, pre + [FlagArg(2, table[k].name, v)]).store, table[k].target, table[k].kind, v)
  {
    BatchParseLastFlag(table, st, pre, k, v);
    ConvertReadsBack(BatchParse(table, st, pre).store, table[k].target, table[k].kind, v);
  }

  /// The globals of the batch applications.
  class BatchFlags {
    const table: seq<Flag>
    var store: Store
    var inFiles: seq<string>

    constructor (table: seq<Flag>, defaults: Store)
      ensures this.table == table && store == defaults && inFiles == []
    {
      this.table := table;
      store := defaults;
      inFiles := [];
    }

    /// `ParseMyArgs` of TritonClientApp and BatchAigsEffectApp; `argv[0]` is
    /// the program name.
    method ParseMyArgs(argv: seq<string>) returns (errs: int)
      requires |argv| >= 1
      modifies this
      ensures var r := BatchParse(table, Parsed(old(store), old(inFiles), 0), argv[1..]);
        store == r.store && inFiles == r.inFiles && errs == r.errs
    {
      ghost var st0 := Parsed(store, inFiles, 0);
      errs := 0;
      var i := 1;
      while i < |argv|
        invariant 1 <= i <= |argv|
        invariant BatchParse(table, st0, argv[1..i]) == Parsed(store, inFiles, errs)
      {
        BatchParseNext(table, st0, argv, i);
        errs := Examine(argv[i], errs);
        i := i + 1;
      }
      assert argv[1..i] == argv[1..];
    }

    /// One pass of the loop body: an input file, a table flag, `--help`, or
    /// the single-dash characters.
    method Examine(arg: string, errs: int) returns (errs': int)
      modifies this
      ensures Parsed(store, inFiles, errs') == BatchStep(table, Parsed(old(store), old(inFiles), errs), arg)
    {
      errs' := errs;
      if |arg| > 0 && arg[0] == '-' {
        if |arg| > 1 && arg[1] == '-' {
          var hit := FindFlag(table, arg);
          if hit.Some? {
            var k := hit.value.0;
            store := store[table[k].target := Convert(table[k].kind, hit.value.1)];
          } else if GetFlagArgVal("help", arg).Matched? {
            errs' := 1;
          }
        } else {
          store := ScanSingleDash(store, arg);
        }
      } else {
        inFiles := inFiles + [arg];
      }
    }
  }

  /// What the relighting loop has produced so far: the globals and the
  /// return code (0, or 411 once help was asked for).
  datatype Outcome = Outcome(store: Store, code: int)

  const HelpCode := 411

  /// Relighting applications: one pass of the loop body.
  function RelightStep(table: seq<Flag>, store: Store, arg: string): Outcome
  {
    if !DashLed(arg) then Outcome(store, 0)
    else if DoubleDash(arg) && FindFlag(table, arg).Some? then
      var hit := FindFlag(table, arg).value;
      Outcome(store[table[hit.0].target := Convert(table[hit.0].kind, hit.1)], 0)
    else if GetFlagArgVal("help", arg).Matched? then Outcome(store, HelpCode)
    else if !DoubleDash(arg) then Outcome(SingleDash(store, arg), 0)
    else Outcome(store, 0)
  }

  function RelightParse(table: seq<Flag>, store: Store, args: seq<string>): Outcome
  {
    if args == [] then Outcome(store, 0)
    else
      var o := RelightParse(table, store, args[..|args| - 1]);
      if o.code == HelpCode then o else RelightStep(table, o.store, args[|args| - 1])
  }

  /// One more argument after a pass that did not stop is one more step.
  lemma {:induction false} RelightParseSnoc(table: seq<Flag>, store: Store, args: seq<string>, a: string)
    requires RelightParse(table, store, args).code != HelpCode
    ensures RelightParse(table, store, args + [a]) == RelightStep(table, RelightParse(table, store, args).store, a)
  {
    var all := args + [a];
    assert all[..|all| - 1] == args;
  }

  /// The loop's step over `argv[i]`.
  lemma {:induction false} RelightParseNext(table: seq<Flag>, store: Store, argv: seq<string>, i: nat)
    requires 1 <= i < |argv| && RelightParse(table, store, argv[1..i]).code != HelpCode
    ensures RelightParse(table, store, argv[1..i + 1])
            == RelightStep(table, RelightParse(table, store, argv[1..i]).store, argv[i])
  {
    SliceSnoc(argv, 1, i);
    RelightParseSnoc(table, store, argv[1..i], argv[i]);
  }

  /// The loop's early return after `argv[i]` asked for help.
  lemma {:induction false} RelightParseRest(table: seq<Flag>, store: Store, argv: seq<string>, i: nat)
    requires 1 <= i < |argv| && RelightParse(table, store, argv[1..i + 1]).code == HelpCode
    ensures RelightParse(table, store, argv[1..]) == RelightParse(table, store, argv[1..i + 1])
  {
    RelightParseStopsAtHelp(table, store, argv[1..i + 1], argv[i + 1..]);
    SliceSplit(argv, 1, i + 1);
  }

  /// The loop returns at the first help request: nothing after it is parsed.
  lemma {:induction false} RelightParseStopsAtHelp(table: seq<Flag>, store: Store, args: seq<string>, more: seq<string>)
    requires RelightParse(table, store, args).code == HelpCode
    ensures RelightParse(table, store, args + more) == RelightParse(table, store, args)
  {
    if more != [] {
      var all := args + more;
      assert all[..|all| - 1] == args + more[..|more| - 1];
      RelightParseStopsAtHelp(table, store, args, more[..|more| - 1]);
      assert RelightParse(table, store, all) == RelightParse(table, store, all[..|all| - 1]);
    } else {
      assert args + more == args;
    }
  }

  /// The code is 0 or 411, and 411 exactly when some argument asks for help
  /// and is not a flag of the table.
  lemma {:induction false} RelightParseCode(table: seq<Flag>, store: Store, args: seq<string>)
    ensures var code := RelightParse(table, store, args).code;
      (code == 0 || code == HelpCode)
      && (code == HelpCode <==> exists i :: 0 <= i < |args| && RelightHelp(table, args[i]))
  {
    if args != [] {
      var pre := args[..|args| - 1];
      RelightParseCode(table, store, pre);
      assert forall i :: 0 <= i < |pre| ==> pre[i] == args[i];
      if exists i :: 0 <= i < |pre| && RelightHelp(table, pre[i]) {
        var i :| 0 <= i < |pre| && RelightHelp(table, pre[i]);
        assert RelightHelp(table, args[i]);
      }
    }
  }

  /// Relighting applications: a dash-led argument that asks for help and is
  /// not a flag of the table (a single dash will do: "-help").
  predicate RelightHelp(table: seq<Flag>, arg: string)
  {
    DashLed(arg) && !(DoubleDash(arg) && FindFlag(table, arg).Some?) && GetFlagArgVal("help", arg).Matched?
  }

  /// Arguments without a leading dash are skipped: dropping them changes
  /// nothing.
  lemma {:induction false} RelightParseIgnoresInputs(table: seq<Flag>, store: Store, args: seq<string>, a: string)
    requires !DashLed(a)
    ensures RelightParse(table, store, args + [a]) == RelightParse(table, store, args)
  {
    var all := args + [a];
    assert all[..|all| - 1] == args;
  }

  /// End to end for the relighting applications: unless an earlier
  /// argument asked for help, `--name=value` or a bare `--name` as the last
  /// argument leaves code 0 and the global of `name` reading back as the
  /// flag said.
  lemma {:induction false} RelightParseSetsFlag(table: seq<Flag>, store: Store, pre: seq<string>, k: nat, v: Option<string>)
    requires Selects(table, k) && RelightParse(table, store, pre).code != HelpCode
    ensures var o := RelightParse(table, store, pre + [FlagArg(2, table[k].name, v)]);
      o.code == 0 && ReadsBack(o.store, table[k].target, table[k].kind, v)
  {
    var arg := FlagArg(2, table[k].name, v);
    RelightParseSnoc(table, store, pre, arg);
    FindFlagOfFlagArg(table, k, 2, v);
    assert arg[0] == '-' && arg[1] == '-';
    ConvertReadsBack(RelightParse(table, store, pre).store, table[k].target, table[k].kind, v);
  }

  /// The globals of the relighting applications.
  class RelightFlags {
    const table: seq<Flag>
    var store: Store

    constructor (table: seq<Flag>, defaults: Store)
      ensures this.table == table && store == defaults
    {
      this.table := table;
      store := defaults;
    }

    /// One pass of the loop body: a table flag, a help request, or the
    /// single-dash characters; anything else is skipped.
    method Examine(arg: string) returns (code: int)
      modifies this
      ensures Outcome(store, code) == RelightStep(table, old(store), arg)
    {
      code := 0;
      if |arg| == 0 || arg[0] != '-' {
        return;
      }
      var hit := FindFlag(table, arg);
      if |arg| > 1 && arg[1] == '-' && hit.Some? {
        var k := hit.value.0;
        store := store[table[k].target := Convert(table[k].kind, hit.value.1)];
      } else if GetFlagArgVal("help", arg).Matched? {
        code := HelpCode;
      } else if |arg| < 2 || arg[1] != '-' {
        store := ScanSingleDash(store, arg);
      }
    }

    /// `ParseMyArgs` of RelightingEffectApp and RelightingTritonClientApp.
    method ParseMyArgs(argv: seq<string>) returns (code: int)
      requires |argv| >= 1
      modifies this
      ensures Outcome(store, code) == RelightParse(table, old(store), argv[1..])
    {
      ghost var s0 := store;
      var i := 1;
      while i < |argv|
        invariant 1 <= i <= |argv|
        invariant RelightParse(table, s0, argv[1..i]) == Outcome(store, 0)
      {
        var arg := argv[i];
        RelightParseNext(table, s0, argv, i);
        code := Examine(arg);
        if code == HelpCode {
          RelightParseRest(table, s0, argv, i);
          return;
        }
        i := i + 1;
      }
      assert argv[1..i] == argv[1..];
      code := 0;
    }
  }

  /// TritonClientApp.cpp's `||` chain.
  const TritonTable: seq<Flag> := [
    Flag("effect", "effect", Text),
    Flag("verbose", "verbose", Boolean),
    Flag("url", "tritonURL", Text),
    Flag("grpc", "useTritonGRPC", Boolean),
    Flag("mode", "mode", Number),
    Flag("out_file", "outFile", Text),
    Flag("log", "log", Text),
    Flag("log_level", "logLevel", Number),
    Flag("codec", "codec", Text)
  ]

  const TritonDefaults: Store := map[
    "effect" := TextVal(""), "verbose" := BoolVal(false), "useTritonGRPC" := BoolVal(false),
    "tritonURL" := TextVal("localhost:8001"), "mode" := NumVal(Some("0")),
    "logLevel" := NumVal(Some("1")), "log" := TextVal("stderr"), "outFile" := TextVal(""),
    "codec" := TextVal("avc1")
  ]

  /// BatchAigsEffectApp.cpp's `||` chain.
  const AigsTable: seq<Flag> := [
    Flag("verbose", "verbose", Boolean),
    Flag("mode", "mode", Number),
    Flag("model_dir", "modelDir", Text),
    Flag("out_file", "outFile", Text),
    Flag("log", "log", Text),
    Flag("log_level", "logLevel", Number),
    Flag("codec", "codec", Text)
  ]

  const AigsDefaults: Store := map[
    "verbose" := BoolVal(false), "mode" := NumVal(Some("0")), "logLevel" := NumVal(Some("1")),
    "log" := TextVal("stderr"), "outFile" := TextVal(""), "modelDir" := TextVal(""),
    "codec" := TextVal("avc1")
  ]

  /// RelightingTritonClientApp.cpp's `||` chain (built with USE_TRITON).
  const RelightTritonTable: seq<Flag> := [
    Flag("autorotate", "autorotate", Boolean),
    Flag("cam_res", "camRes", Text),
    Flag("codec", "codec", Text),
    Flag("debug", "debug", Boolean),
    Flag("in_bg", "inBg", Text),
    Flag("in_file", "inFile", Text),
    Flag("in_hdr", "inHDR", Text),
    Flag("in_src", "inFile", Text),
    Flag("log", "log", Text),
    Flag("log_level", "logLevel", Number),
    Flag("mode", "mode", Number),
    Flag("model_dir", "modelsDir", Text),
    Flag("models_dir", "modelsDir", Text),
    Flag("out_dir", "outDir", Text),
    Flag("out_file", "outFile", Text),
    Flag("out_mat", "outMat", Text),
    Flag("pan", "pan", Number),
    Flag("rotation_rate", "rotationRate", Number),
    Flag("show", "show", Boolean),
    Flag("show_mode", "showMode", Text),
    Flag("triton_url", "tritonURL", Text),
    Flag("url", "tritonURL", Text),
    Flag("use_triton_grpc", "useTritonGRPC", Boolean),
    Flag("grpc", "useTritonGRPC", Boolean),
    Flag("verbose", "verbose", Boolean),
    Flag("vfov", "vfov", Number),
    Flag("webcam", "webcam", Boolean)
  ]

  /// RelightingEffectApp.cpp's `||` chain.
  const RelightEffectTable: seq<Flag> := [
    Flag("autorotate", "autorotate", Boolean),
    Flag("bg_mode", "bgMode", Number),
    Flag("cam_res", "camRes", Text),
    Flag("codec", "codec", Text),
    Flag("debug", "debug", Boolean),
    Flag("in_bg", "inBg", Text),
    Flag("in_file", "inFile", Text),
    Flag("in_hdr", "inHDR", Text),
    Flag("in_mask", "inMat", Text),
    Flag("in_mat", "inMat", Text),
    Flag("in_src", "inFile", Text),
    Flag("log", "log", Text),
    Flag("log_level", "logLevel", Number),
    Flag("model_dir", "modelsDir", Text),
    Flag("models_dir", "modelsDir", Text),
    Flag("out_dir", "outDir", Text),
    Flag("out_file", "outFile", Text),
    Flag("pan", "pan", Number),
    Flag("rotation_rate", "rotationRate", Number),
    Flag("show", "show", Boolean),
    Flag("show_mode", "showMode", Text),
    Flag("verbose", "verbose", Boolean),
    Flag("vfov", "vfov", Number),
    Flag("webcam", "webcam", Boolean)
  ]

  /// The string and boolean globals both relighting applications start with.
  const RelightDefaults: Store := map[
    "debug" := BoolVal(false), "verbose" := BoolVal(false), "show" := BoolVal(false),
    "webcam" := BoolVal(false), "autorotate" := BoolVal(false), "codec" := TextVal("avc1"),
    "inFile" := TextVal(""), "outFile" := TextVal(""), "outDir" := TextVal(""),
    "modelsDir" := TextVal(""), "showMode" := TextVal("output"), "camRes" := TextVal(""),
    "inBg" := TextVal(""), "inHDR" := TextVal(""), "log" := TextVal("stderr")
  ]

  /// The batch tables have recognisable names, all different, so each of
  /// their flags selects its own entry.
  lemma {:induction false} TritonTableWellFormed()
    ensures WellFormed(TritonTable)
  {
    DistinctByShape(TritonTable);
  }

  /// Names differing in length or first character are different.
  lemma {:induction false} DistinctByShape(table: seq<Flag>)
    requires forall i :: 0 <= i < |table| ==> |table[i].name| > 0 && table[i].name[0] != '-' && '=' !in table[i].name
    requires forall i, j :: 0 <= i < j < |table| ==>
      |table[i].name| != |table[j].name| || table[i].name[0] != table[j].name[0]
    ensures WellFormed(table)
  {
  }

  lemma {:induction false} AigsTableWellFormed()
    ensures WellFormed(AigsTable)
  {
    DistinctByShape(AigsTable);
  }
}

/** The single-scope option parser (src/Option/OptionParser.php): it scans an
    argv array against one option collection, records every option it meets
    and collects the positional arguments. The scan is first defined as
    functions over the remaining tokens; the methods of `OptionParser` are
    proved to compute exactly that. */
module OptionParsing {

  import opened Base
  import opened Strings
  import opened OptionToken
  import opened OptionSpecs
  import opened OptionResults

  // ---------------------------------------------------------------------
  // Preprocessing: `--` and `--name=value`
  // ---------------------------------------------------------------------

  /** What preprocessing makes of one token before any `--`: a known option
      carrying a value becomes its name part and its value part. */
  function SplitToken(keys: seq<string>, arg: string): (r: seq<string>)
    ensures |r| == 1 || |r| == 2
    ensures |r| == 2 <==> AnyOfOptions(arg, keys) && ContainsOptionValue(arg)
    ensures |r| == 1 ==> r == [arg]
  {
    if AnyOfOptions(arg, keys) && ContainsOptionValue(arg) then
      assert exists k :: 0 <= k < |arg| && arg[k] == '=';
      SplitAsOption(arg)
    else [arg]
  }

  /** Rejoining a split token's parts with `=` restores the token. */
  lemma SplitTokenRejoins(keys: seq<string>, arg: string)
    ensures Join(SplitToken(keys, arg), "=") == arg
  {
    SplitAsOptionRejoins(arg);
  }

  /** `preprocessingArguments` over a prefix of argv: the new argv, the extra
      tokens after the first `--`, and whether a `--` was met. */
  datatype Preprocessed = Preprocessed(newArgv: seq<string>, extra: seq<string>, afterDash: bool)

  function Preprocess(keys: seq<string>, argv: seq<string>): (r: Preprocessed)
    ensures r.afterDash <==> "--" in argv
    decreases |argv|
  {
    if |argv| == 0 then Preprocessed([], [], false)
    else
      var p := Preprocess(keys, argv[..|argv| - 1]);
      var arg := argv[|argv| - 1];
      assert argv == argv[..|argv| - 1] + [arg];
      if arg == "--" then p.(afterDash := true)
      else if p.afterDash then p.(extra := p.extra + [arg])
      else p.(newArgv := p.newArgv + SplitToken(keys, arg))
  }

  /** Every token split as the parser splits it, in order. */
  function SplitAll(keys: seq<string>, ts: seq<string>): (r: seq<string>)
    ensures |r| >= |ts|
    decreases |ts|
  {
    if |ts| == 0 then [] else SplitAll(keys, ts[..|ts| - 1]) + SplitToken(keys, ts[|ts| - 1])
  }

  /** The tokens that are not `--`. */
  function NoDashes(ts: seq<string>): (r: seq<string>)
    ensures "--" !in r
    ensures |r| <= |ts|
    decreases |ts|
  {
    if |ts| == 0 then []
    else if ts[|ts| - 1] == "--" then NoDashes(ts[..|ts| - 1])
    else NoDashes(ts[..|ts| - 1]) + [ts[|ts| - 1]]
  }

  /** Before any `--`, preprocessing only splits tokens. */
  lemma {:induction false} PreprocessNoDash(keys: seq<string>, argv: seq<string>)
    requires "--" !in argv
    ensures Preprocess(keys, argv) == Preprocessed(SplitAll(keys, argv), [], false)
    decreases |argv|
  {
    if |argv| > 0 {
      assert "--" !in argv[..|argv| - 1] by {
        assert forall k :: 0 <= k < |argv| - 1 ==> argv[..|argv| - 1][k] == argv[k];
      }
      PreprocessNoDash(keys, argv[..|argv| - 1]);
    }
  }

  /** After the first `--` nothing reaches the new argv: every later token
      other than `--` itself goes to the extra list, which the parser drops. */
  lemma {:induction false} PreprocessAfterDash(keys: seq<string>, before: seq<string>, after: seq<string>)
    requires "--" !in before
    ensures Preprocess(keys, before + ["--"] + after) ==
      Preprocessed(SplitAll(keys, before), NoDashes(after), true)
    decreases |after|
  {
    if |after| == 0 {
      assert before + ["--"] + after == before + ["--"];
      assert (before + ["--"])[..|before|] == before;
      PreprocessNoDash(keys, before);
    } else {
      var init := after[..|after| - 1];
      PreprocessAfterDash(keys, before, init);
      assert (before + ["--"] + after)[..|before + ["--"] + after| - 1] == before + ["--"] + init;
    }
  }

  /** With no `--` and no known option carrying a value, preprocessing leaves
      argv as it is. */
  lemma {:induction false} SplitAllIdentity(keys: seq<string>, ts: seq<string>)
    requires forall k :: 0 <= k < |ts| ==> !(AnyOfOptions(ts[k], keys) && ContainsOptionValue(ts[k]))
    ensures SplitAll(keys, ts) == ts
    decreases |ts|
  {
    if |ts| > 0 {
      SplitAllIdentity(keys, ts[..|ts| - 1]);
      assert ts == ts[..|ts| - 1] + [ts[|ts| - 1]];
    }
  }

  // ---------------------------------------------------------------------
  // Consuming an option's value
  // ---------------------------------------------------------------------

  /** The guard `$next && !$next->isEmpty() && !$next->anyOfOptions(...)`. */
  predicate Acceptable(next: Option<string>, keys: seq<string>)
  {
    next.Some? && !IsEmpty(next.value) && !AnyOfOptions(next.value, keys)
  }

  datatype Consumed = Consumed(values: map<OptionId, Value>, used: nat)

  function RequireValueMessage(name: string): string
  {
    "Option '" + name + "' requires a value."
  }

  /** `consumeOptionToken`, with `$next` absent at the last position. */
  function Consume(sp: Specs, values: map<OptionId, Value>, id: OptionId, name: string,
                   next: Option<string>): (r: Result<Consumed>)
    requires id in values && id in sp.kind
    ensures r.Success? ==> r.value.values.Keys == values.Keys && r.value.used <= 1
    ensures r.Success? ==> forall j :: j in values && j != id ==> r.value.values[j] == values[j]
  {
    match sp.kind[id]
    case Flag => Success(Consumed(values[id := Bool(true)], 0))
    case Incremental => Success(Consumed(values[id := sp.increase(values[id])], 0))
    case Required =>
      if Acceptable(next, sp.keys) then Success(Consumed(values[id := Str(next.value)], 1))
      else Failure(RequireValue(RequireValueMessage(name)))
    case Multiple =>
      if Acceptable(next, sp.keys) then Success(Consumed(values[id := sp.push(values[id], next.value)], 1))
      else Success(Consumed(values, 0))
    case Optional =>
      if Acceptable(next, sp.keys) then Success(Consumed(values[id := Str(next.value)], 1))
      else Success(Consumed(values, 0))
  }

  /** What `consumeOptionToken` does by kind: flags and incremental options
      take no value; the others take the next token when it is acceptable,
      which a required option must have; and only the option's own value
      changes. */
  lemma ConsumeFacts(sp: Specs, values: map<OptionId, Value>, id: OptionId, name: string, next: Option<string>)
    requires id in values && id in sp.kind
    ensures var r := Consume(sp, values, id, name, next);
      && (r.Success? && r.value.used == 1 ==> Acceptable(next, sp.keys))
      && (IsFlagKind(sp.kind[id]) ==> r.Success? && r.value.used == 0)
      && (sp.kind[id] == Flag ==> r.value.values[id] == Bool(true))
      && (sp.kind[id] == Incremental ==> r.value.values[id] == sp.increase(values[id]))
      && (!IsFlagKind(sp.kind[id]) && Acceptable(next, sp.keys) ==> r.Success? && r.value.used == 1)
      && (sp.kind[id] in {Required, Optional} && Acceptable(next, sp.keys) ==>
            r.value.values[id] == Str(next.value))
      && (sp.kind[id] == Multiple && Acceptable(next, sp.keys) ==>
            r.value.values[id] == sp.push(values[id], next.value))
      && (sp.kind[id] in {Multiple, Optional} && !Acceptable(next, sp.keys) ==>
            r == Success(Consumed(values, 0)))
      && (r.Failure? <==> sp.kind[id] == Required && !Acceptable(next, sp.keys))
      && (r.Failure? ==> r.error == RequireValue(RequireValueMessage(name)))
  {
  }

  const NullNextMessage: string :=
    "consumeOptionToken(): Argument #3 ($next) must be of type Argument, null given"

  /** `consumeOptionToken` as declared: `$next` is a non-nullable `Argument`,
      so the call itself fails when the option is the last token. */
  function ConsumeAsWritten(sp: Specs, values: map<OptionId, Value>, id: OptionId, name: string,
                            next: Option<string>): (r: Result<Consumed>)
    requires id in values && id in sp.kind
    ensures next.None? ==> r == Failure(TypeError(NullNextMessage))
    ensures next.Some? ==> r == Consume(sp, values, id, name, next)
  {
    if next.None? then Failure(TypeError(NullNextMessage)) else Consume(sp, values, id, name, next)
  }

  /** Under the declared type a flag in last position, the commonest use of a
      flag, fails, while the guarded body would simply set it. */
  lemma LastFlagFailsAsWritten(sp: Specs, values: map<OptionId, Value>, id: OptionId, name: string)
    requires id in values && id in sp.kind && sp.kind[id] == Flag
    ensures ConsumeAsWritten(sp, values, id, name, None).Failure?
    ensures Consume(sp, values, id, name, None) == Success(Consumed(values[id := Bool(true)], 0))
  {
  }

  // ---------------------------------------------------------------------
  // The scan
  // ---------------------------------------------------------------------

  /** The parser's state between two tokens: the option values, the recorded
      options by id and the arguments so far. */
  datatype ScanState = ScanState(values: map<OptionId, Value>, keys: map<string, Value>, args: seq<string>)

  datatype Outcome = Done(st: ScanState) | Stopped(error: Error, values: map<OptionId, Value>)

  /** A measure that shrinks at every step, splicing included: a cluster
      weighs its length, any other token 1. */
  function TokenWeight(t: string): nat
  {
    if WithExtraFlagOptions(t) then |t| else 1
  }

  function Weight(ts: seq<string>): nat
  {
    if |ts| == 0 then 0 else TokenWeight(ts[0]) + Weight(ts[1..])
  }

  lemma {:induction false} WeightAppend(a: seq<string>, b: seq<string>)
    ensures Weight(a + b) == Weight(a) + Weight(b)
    decreases |a|
  {
    if |a| == 0 {
      assert a + b == b;
    } else {
      WeightAppend(a[1..], b);
      assert (a + b)[1..] == a[1..] + b;
    }
  }

  lemma {:induction false} WeightExtraFlags(t: string)
    ensures Weight(ExtraFlags(t)) == |ExtraFlags(t)|
    decreases |t|
  {
    if |t| > 2 {
      var init := t[..|t| - 1];
      WeightExtraFlags(init);
      WeightAppend(ExtraFlags(init), [['-', t[|t| - 1]]]);
      assert Weight([['-', t[|t| - 1]]]) == 1 by {
        assert [['-', t[|t| - 1]]][1..] == [];
      }
    }
  }

  /** The tokens as the loop sees them at a position: a cluster is replaced by
      its first flag followed by the extracted ones. */
  function Expanded(rest: seq<string>): (r: seq<string>)
    requires |rest| > 0
    ensures |r| > 0 && !WithExtraFlagOptions(r[0])
    ensures !WithExtraFlagOptions(rest[0]) ==> r == rest
  {
    if WithExtraFlagOptions(rest[0]) then [FirstTwo(rest[0])] + ExtraFlags(rest[0]) + rest[1..]
    else rest
  }

  lemma WeightShrinks(rest: seq<string>, used: nat)
    requires |rest| > 0 && used <= 1 && 1 + used <= |Expanded(rest)|
    ensures Weight(Expanded(rest)[1 + used..]) < Weight(rest)
  {
    var ex := Expanded(rest);
    assert Weight(ex) == TokenWeight(ex[0]) + Weight(ex[1..]);
    if used == 1 {
      assert ex[1..][1..] == ex[2..];
      assert Weight(ex[1..]) == TokenWeight(ex[1]) + Weight(ex[2..]);
    }
    if WithExtraFlagOptions(rest[0]) {
      var t := rest[0];
      assert ex == [FirstTwo(t)] + (ExtraFlags(t) + rest[1..]);
      assert ex[1..] == ExtraFlags(t) + rest[1..];
      WeightAppend(ExtraFlags(t), rest[1..]);
      WeightExtraFlags(t);
    }
  }

  function InvalidOptionMessage(arg: string): string
  {
    "Invalid option: " + arg
  }

  /** What one option token does to the scan: it stops it, or it goes on
      after `used` value tokens with the new state. */
  datatype Step = Stop(error: Error, values: map<OptionId, Value>) | Go(used: nat, st: ScanState)

  /** The body of the loop at an option, `ex` being the tokens from it on
      after any cluster has been spliced: look the option up, consume its
      value and record the option under its id. */
  function OptionStepAt(sp: Specs, ex: seq<string>, st: ScanState): (r: Step)
    requires sp.WellFormed() && st.values.Keys == sp.kind.Keys && |ex| > 0
    ensures r.Go? ==> r.used <= 1 && 1 + r.used <= |ex| && r.st.values.Keys == sp.kind.Keys
    ensures r.Go? ==> r.st.args == st.args
    ensures r.Stop? ==> r.values == st.values
  {
    var next := if |ex| > 1 then Some(ex[1]) else None;
    var name := OptionName(ex[0]);
    // a token with no name (`-` alone) is looked up as `get(null)`, which the
    // collection is taken to answer with no option
    if name.None? || name.value !in sp.lookup then
      Stop(InvalidOption(InvalidOptionMessage(ex[0])), st.values)
    else
      var id := sp.lookup[name.value];
      match Consume(sp, st.values, id, name.value, next)
      case Failure(e) => Stop(e, st.values)
      case Success(c) =>
        ConsumeFacts(sp, st.values, id, name.value, next);
        Go(c.used, ScanState(c.values, st.keys[id := c.values[id]], st.args))
  }

  /** The `for` loop of `parse` from a position on, as a function of the
      tokens from that position. */
  function ScanFrom(sp: Specs, rest: seq<string>, st: ScanState): (r: Outcome)
    requires sp.WellFormed() && st.values.Keys == sp.kind.Keys
    ensures r.Done? ==> r.st.values.Keys == sp.kind.Keys
    ensures r.Stopped? ==> r.values.Keys == sp.kind.Keys
    decreases Weight(rest)
  {
    if |rest| == 0 then Done(st)
    else if !IsOption(rest[0]) then
      ScanFrom(sp, rest[1..], st.(args := st.args + [rest[0]]))
    else
      var ex := Expanded(rest);
      match OptionStepAt(sp, ex, st)
      case Stop(e, v) => Stopped(e, v)
      case Go(used, st') =>
        WeightShrinks(rest, used);
        ScanFrom(sp, ex[1 + used..], st')
  }

  /** `fillDefaultValues` over the specs `ids`, in order. */
  function FillDefaults(sp: Specs, ids: seq<OptionId>, st: ScanState): (r: ScanState)
    requires sp.WellFormed() && st.values.Keys == sp.kind.Keys
    requires forall k :: 0 <= k < |ids| ==> ids[k] in sp.kind
    ensures r.values.Keys == sp.kind.Keys && r.args == st.args
    decreases |ids|
  {
    if |ids| == 0 then st
    else
      var p := FillDefaults(sp, ids[..|ids| - 1], st);
      var id := ids[|ids| - 1];
      if p.values[id] == Null && sp.defaults[id] != Null then
        p.(values := p.values[id := sp.defaults[id]], keys := p.keys[id := sp.defaults[id]])
      else p
  }

  function TypeErrorMessage(): string
  {
    "Argument::__construct(): Argument #1 ($arg) must be of type string, null given"
  }

  const ProgramNameMessage: string := "parse(argv) expects the first argument to be the program name."

  /** `parse($argv)` as a whole: preprocessing, the program-name check, the
      scan from position 1 and the defaults. */
  function ParseSpec(sp: Specs, values: map<OptionId, Value>, argv: seq<string>): (r: Outcome)
    requires sp.WellFormed() && values.Keys == sp.kind.Keys
  {
    var pre := Preprocess(sp.keys, argv).newArgv;
    if |pre| == 0 then Stopped(TypeError(TypeErrorMessage()), values)
    else if IsOption(pre[0]) then Stopped(LogicError(ProgramNameMessage), values)
    else
      match ScanFrom(sp, pre[1..], ScanState(values, map[], []))
      case Stopped(e, v) => Stopped(e, v)
      case Done(st) => Done(FillDefaults(sp, sp.ids, st))
  }

  /** A program name that is not an option leaves the parse to the scan. */
  lemma ParseSpecScan(sp: Specs, values: map<OptionId, Value>, argv: seq<string>, pre: seq<string>)
    requires sp.WellFormed() && values.Keys == sp.kind.Keys
    requires pre == Preprocess(sp.keys, argv).newArgv && |pre| > 0 && !IsOption(pre[0])
    ensures var o := ScanFrom(sp, pre[1..], ScanState(values, map[], []));
      ParseSpec(sp, values, argv) == if o.Stopped? then o else Done(FillDefaults(sp, sp.ids, o.st))
  {
  }

  /** Nothing after the first `--` is parsed: the parse of `before -- after`
      is the parse of `before` alone. */
  lemma ParseIgnoresAfterDash(sp: Specs, values: map<OptionId, Value>, before: seq<string>, after: seq<string>)
    requires sp.WellFormed() && values.Keys == sp.kind.Keys
    requires "--" !in before
    ensures ParseSpec(sp, values, before + ["--"] + after) == ParseSpec(sp, values, before)
  {
    PreprocessAfterDash(sp.keys, before, after);
    PreprocessNoDash(sp.keys, before);
  }

  // ---------------------------------------------------------------------
  // Properties of the scan
  // ---------------------------------------------------------------------

  /** A program name that looks like an option is refused before anything is
      scanned, and the program name never becomes an argument. */
  lemma ProgramNameRefused(sp: Specs, values: map<OptionId, Value>, argv: seq<string>)
    requires sp.WellFormed() && values.Keys == sp.kind.Keys
    requires |argv| > 0 && argv[0] != "--" && IsOption(argv[0])
    requires !(AnyOfOptions(argv[0], sp.keys) && ContainsOptionValue(argv[0]))
    ensures ParseSpec(sp, values, argv) == Stopped(LogicError(ProgramNameMessage), values)
  {
    var pre := Preprocess(sp.keys, argv);
    PrefixFirst(sp.keys, argv);
  }

  /** The first token of the new argv comes from the first token of argv when
      that is neither `--` nor split. */
  lemma {:induction false} PrefixFirst(keys: seq<string>, argv: seq<string>)
    requires |argv| > 0 && argv[0] != "--"
    requires !(AnyOfOptions(argv[0], keys) && ContainsOptionValue(argv[0]))
    ensures |Preprocess(keys, argv).newArgv| > 0 && Preprocess(keys, argv).newArgv[0] == argv[0]
    decreases |argv|
  {
    if |argv| > 1 {
      var init := argv[..|argv| - 1];
      assert init[0] == argv[0];
      PrefixFirst(keys, init);
    }
  }

  /** Recorded values are the live values: every option in the result holds
      the value its spec has at the end of the scan. */
  ghost predicate Snapshot(st: ScanState)
  {
    forall k :: k in st.keys ==> k in st.values && st.keys[k] == st.values[k]
  }

  lemma {:induction false} ScanKeepsSnapshot(sp: Specs, rest: seq<string>, st: ScanState)
    requires sp.WellFormed() && st.values.Keys == sp.kind.Keys
    requires Snapshot(st)
    ensures ScanFrom(sp, rest, st).Done? ==> Snapshot(ScanFrom(sp, rest, st).st)
    decreases Weight(rest)
  {
    if |rest| == 0 {
    } else if !IsOption(rest[0]) {
      var st' := st.(args := st.args + [rest[0]]);
      assert ScanFrom(sp, rest, st) == ScanFrom(sp, rest[1..], st');
      ScanKeepsSnapshot(sp, rest[1..], st');
    } else {
      var ex := Expanded(rest);
      var s := OptionStepAt(sp, ex, st);
      if s.Go? {
        ScanOptionAt(sp, rest, st, ex);
        StepKeepsSnapshot(sp, ex, st);
        ScanKeepsSnapshot(sp, ex[1 + s.used..], s.st);
      }
    }
  }

  /** One option step records the option with the value it leaves its spec. */
  lemma StepKeepsSnapshot(sp: Specs, ex: seq<string>, st: ScanState)
    requires sp.WellFormed() && st.values.Keys == sp.kind.Keys && |ex| > 0
    requires Snapshot(st)
    ensures OptionStepAt(sp, ex, st).Go? ==> Snapshot(OptionStepAt(sp, ex, st).st)
  {
  }

  lemma {:induction false} FillKeepsSnapshot(sp: Specs, ids: seq<OptionId>, st: ScanState)
    requires sp.WellFormed() && st.values.Keys == sp.kind.Keys
    requires forall k :: 0 <= k < |ids| ==> ids[k] in sp.kind
    requires Snapshot(st)
    ensures Snapshot(FillDefaults(sp, ids, st))
    decreases |ids|
  {
    if |ids| > 0 {
      FillKeepsSnapshot(sp, ids[..|ids| - 1], st);
    }
  }

  /** After a successful parse every recorded option holds its spec's value. */
  lemma ParseSnapshot(sp: Specs, values: map<OptionId, Value>, argv: seq<string>)
    requires sp.WellFormed() && values.Keys == sp.kind.Keys
    ensures ParseSpec(sp, values, argv).Done? ==> Snapshot(ParseSpec(sp, values, argv).st)
  {
    var pre := Preprocess(sp.keys, argv).newArgv;
    if |pre| > 0 && !IsOption(pre[0]) {
      var st0 := ScanState(values, map[], []);
      ScanKeepsSnapshot(sp, pre[1..], st0);
      var o := ScanFrom(sp, pre[1..], st0);
      if o.Done? {
        FillKeepsSnapshot(sp, sp.ids, o.st);
      }
    }
  }

  /** After `fillDefaultValues` no spec is left without a value while it has
      a default, and each spec filled in is recorded in the result. */
  lemma {:induction false} FillDefaultsComplete(sp: Specs, ids: seq<OptionId>, st: ScanState)
    requires sp.WellFormed() && st.values.Keys == sp.kind.Keys
    requires forall k :: 0 <= k < |ids| ==> ids[k] in sp.kind
    ensures var r := FillDefaults(sp, ids, st);
      forall k :: 0 <= k < |ids| ==>
        (r.values[ids[k]] == Null ==> sp.defaults[ids[k]] == Null)
        && (st.values[ids[k]] == Null && sp.defaults[ids[k]] != Null ==> ids[k] in r.keys)
    ensures var r := FillDefaults(sp, ids, st);
      forall j :: j in st.values && st.values[j] != Null ==> r.values[j] == st.values[j]
    ensures var r := FillDefaults(sp, ids, st);
      forall j :: j in st.keys ==> j in r.keys
    ensures var r := FillDefaults(sp, ids, st);
      forall j :: j in st.values && r.values[j] != st.values[j] ==> j in r.keys
    decreases |ids|
  {
    if |ids| > 0 {
      var init := ids[..|ids| - 1];
      FillDefaultsComplete(sp, init, st);
      var p := FillDefaults(sp, init, st);
      var r := FillDefaults(sp, ids, st);
      assert forall j :: j in p.keys ==> j in r.keys;
      assert forall j :: j in st.values && r.values[j] != st.values[j] ==> j in r.keys;
      assert forall j :: j in p.values && p.values[j] != Null ==> r.values[j] == p.values[j];
      forall k | 0 <= k < |ids|
        ensures r.values[ids[k]] == Null ==> sp.defaults[ids[k]] == Null
        ensures st.values[ids[k]] == Null && sp.defaults[ids[k]] != Null ==> ids[k] in r.keys
      {
        if k < |ids| - 1 {
          assert ids[k] == init[k];
        }
      }
    }
  }

  /** Only non-option tokens become arguments. */
  ghost predicate ArgumentsAreValues(st: ScanState)
  {
    forall k :: 0 <= k < |st.args| ==> !IsOption(st.args[k])
  }

  lemma {:induction false} ScanArgumentsAreValues(sp: Specs, rest: seq<string>, st: ScanState)
    requires sp.WellFormed() && st.values.Keys == sp.kind.Keys
    requires ArgumentsAreValues(st)
    ensures ScanFrom(sp, rest, st).Done? ==> ArgumentsAreValues(ScanFrom(sp, rest, st).st)
    decreases Weight(rest)
  {
    if |rest| == 0 {
    } else if !IsOption(rest[0]) {
      ScanArgumentsAreValues(sp, rest[1..], st.(args := st.args + [rest[0]]));
    } else {
      var ex := Expanded(rest);
      var s := OptionStepAt(sp, ex, st);
      if s.Go? {
        ScanOptionAt(sp, rest, st, ex);
        ScanArgumentsAreValues(sp, ex[1 + s.used..], s.st);
      }
    }
  }

  /** Tokens without options all become arguments, in order, and nothing is
      recorded. */
  lemma {:induction false} ScanWithoutOptions(sp: Specs, rest: seq<string>, st: ScanState)
    requires sp.WellFormed() && st.values.Keys == sp.kind.Keys
    requires forall k :: 0 <= k < |rest| ==> !IsOption(rest[k])
    ensures ScanFrom(sp, rest, st) == Done(st.(args := st.args + rest))
    decreases |rest|
  {
    if |rest| == 0 {
      assert st.args + rest == st.args;
    } else {
      ScanWithoutOptions(sp, rest[1..], st.(args := st.args + [rest[0]]));
      assert st.args + [rest[0]] + rest[1..] == st.args + rest;
    }
  }

  /** A cluster `-abc` is scanned exactly as the separate flags `-a -b -c`. */
  lemma ClusterIsSeparateFlags(sp: Specs, t: string, rest: seq<string>, st: ScanState)
    requires sp.WellFormed() && st.values.Keys == sp.kind.Keys
    requires WithExtraFlagOptions(t)
    ensures ScanFrom(sp, [t] + rest, st) == ScanFrom(sp, [FirstTwo(t)] + ExtraFlags(t) + rest, st)
  {
    var s1 := [t] + rest;
    var s2 := [FirstTwo(t)] + ExtraFlags(t) + rest;
    assert s1[0] == t && s1[1..] == rest;
    assert s2[0] == FirstTwo(t);
    assert IsOption(FirstTwo(t));
    assert Expanded(s1) == s2;
    assert Expanded(s2) == s2;
  }

  /** An option whose name the collection does not resolve stops the parse
      with `Invalid option: ` and the token as the loop sees it; for a
      cluster that is its first flag only. */
  lemma UnknownOptionStops(sp: Specs, rest: seq<string>, st: ScanState)
    requires sp.WellFormed() && st.values.Keys == sp.kind.Keys
    requires |rest| > 0 && IsOption(rest[0])
    requires var n := OptionName(Expanded(rest)[0]); n.None? || n.value !in sp.lookup
    ensures ScanFrom(sp, rest, st) ==
      Stopped(InvalidOption(InvalidOptionMessage(Expanded(rest)[0])), st.values)
  {
  }

  lemma UnknownClusterMessage(sp: Specs, st: ScanState)
    requires sp.WellFormed() && st.values.Keys == sp.kind.Keys
    requires "a" !in sp.lookup
    ensures ScanFrom(sp, ["-abc"], st) == Stopped(InvalidOption("Invalid option: -a"), st.values)
  {
    var t := "-abc";
    assert WithExtraFlagOptions(t) && IsOption(t);
    assert FirstTwo(t) == "-a";
    assert Expanded([t]) == ["-a"] + ExtraFlags(t) + [t][1..];
    assert Expanded([t])[0] == "-a";
    assert LeadingRun("-a", '-') == 1 by {
      assert LeadingRun("-a"[1..], '-') == 0;
    }
    assert "-a"[1..] == "a";
    assert NameRun("a"[1..]) == 0;
    assert NameRun("a") == 1;
    assert "-a"[1..2] == "a";
    assert OptionName("-a") == Some("a");
    assert InvalidOptionMessage("-a") == "Invalid option: -a";
    UnknownOptionStops(sp, [t], st);
  }

  /** A required option at the end of argv stops the parse with
      `Option '<name>' requires a value.`, keeping the values set so far. */
  lemma RequiredLastStops(sp: Specs, arg: string, st: ScanState)
    requires sp.WellFormed() && st.values.Keys == sp.kind.Keys
    requires IsOption(arg) && !WithExtraFlagOptions(arg)
    requires OptionName(arg).Some? && OptionName(arg).value in sp.lookup
    requires sp.kind[sp.lookup[OptionName(arg).value]] == Required
    ensures ScanFrom(sp, [arg], st) ==
      Stopped(RequireValue(RequireValueMessage(OptionName(arg).value)), st.values)
  {
  }

  lemma ScanNonOptionStep(sp: Specs, rest: seq<string>, st: ScanState)
    requires sp.WellFormed() && st.values.Keys == sp.kind.Keys
    requires |rest| > 0 && !IsOption(rest[0])
    ensures ScanFrom(sp, rest, st) == ScanFrom(sp, rest[1..], st.(args := st.args + [rest[0]]))
  {
  }

  /** At an option the scan does what `OptionStepAt` says on the spliced
      tokens, and the tokens left after it weigh less. */
  lemma ScanOptionAt(sp: Specs, rest: seq<string>, st: ScanState, ex: seq<string>)
    requires sp.WellFormed() && st.values.Keys == sp.kind.Keys
    requires |rest| > 0 && IsOption(rest[0]) && ex == Expanded(rest)
    ensures var s := OptionStepAt(sp, ex, st);
      && (s.Stop? ==> ScanFrom(sp, rest, st) == Stopped(s.error, s.values))
      && (s.Go? ==>
            && Weight(ex[1 + s.used..]) < Weight(rest)
            && ScanFrom(sp, rest, st) == ScanFrom(sp, ex[1 + s.used..], s.st))
  {
    var s := OptionStepAt(sp, ex, st);
    if s.Go? {
      WeightShrinks(rest, s.used);
    }
  }

  /** `ScanOptionAt` for the position `i` of an argv whose tail from `i` is
      the spliced tail of `argv`, stated for the position `i'`, the error
      `err`, the state `st'` and the values `v` an implementation of
      `OptionStepAt` leaves. */
  lemma SplicedScan(sp: Specs, argv: seq<string>, argv': seq<string>, i: nat, st: ScanState, full: Outcome,
                    i': nat, err: Option<Error>, st': ScanState, v: map<OptionId, Value>)
    requires sp.WellFormed() && st.values.Keys == sp.kind.Keys
    requires 1 <= i < |argv| && IsOption(argv[i]) && i < |argv'| && argv'[i..] == Expanded(argv[i..])
    requires ScanFrom(sp, argv[i..], st) == full
    requires var s := OptionStepAt(sp, argv'[i..], st);
      && (err.Some? <==> s.Stop?)
      && (err.Some? ==> err.value == s.error && v == s.values)
      && (err.None? ==> i' == i + 1 + s.used && st' == s.st)
    ensures err.None? ==>
      && st'.values.Keys == sp.kind.Keys
      && 1 <= i' <= |argv'| && Weight(argv'[i'..]) < Weight(argv[i..])
      && ScanFrom(sp, argv'[i'..], st') == full
    ensures err.Some? ==> full == Stopped(err.value, v)
  {
    var ex := argv'[i..];
    ScanOptionAt(sp, argv[i..], st, ex);
    var s := OptionStepAt(sp, ex, st);
    if err.None? {
      var tail := ex[1 + s.used..];
      assert Weight(tail) < Weight(argv[i..]) && ScanFrom(sp, tail, s.st) == full;
      SliceOfSlice(argv', i, 1 + s.used);
      assert tail == argv'[i'..];
    }
  }

  // ---------------------------------------------------------------------
  // The parser object
  // ---------------------------------------------------------------------

  class OptionParser {
    var specs: OptionCollection

    constructor(specs: OptionCollection)
      ensures this.specs == specs
    {
      this.specs := specs;
    }

    method SetSpecs(specs: OptionCollection)
      modifies this
      ensures this.specs == specs
    {
      this.specs := specs;
    }

    /** `preprocessingArguments`. */
    method PreprocessingArguments(argv: seq<string>) returns (newArgv: seq<string>, extra: seq<string>)
      ensures newArgv == Preprocess(specs.specs.keys, argv).newArgv
      ensures extra == Preprocess(specs.specs.keys, argv).extra
    {
      var keys := specs.specs.keys;
      newArgv, extra := [], [];
      var afterDash := false;
      var i := 0;
      while i < |argv|
        invariant 0 <= i <= |argv|
        invariant Preprocess(keys, argv[..i]) == Preprocessed(newArgv, extra, afterDash)
      {
        var arg := argv[i];
        assert argv[..i + 1][..i] == argv[..i];
        if arg == "--" {
          afterDash := true;
        } else if afterDash {
          extra := extra + [arg];
        } else {
          var a := new Argument(arg);
          if AnyOfOptions(a.arg, keys) && ContainsOptionValue(a.arg) {
            var parts := SplitAsOption(a.arg);
            assert exists k :: 0 <= k < |arg| && arg[k] == '=';
            newArgv := newArgv + [parts[0], parts[1]];
            assert [parts[0], parts[1]] == SplitToken(keys, arg);
          } else {
            newArgv := newArgv + [arg];
          }
        }
        i := i + 1;
      }
      assert argv[..i] == argv;
    }

    /** `pushOptionValue`. */
    method PushOptionValue(id: OptionId, next: Option<string>)
      requires specs.Valid() && id in specs.specs.kind
      modifies specs
      ensures specs.Valid()
      ensures next.Some? && !AnyOfOptions(next.value, specs.specs.keys) ==>
        specs.values == old(specs.values)[id := specs.specs.push(old(specs.values)[id], next.value)]
      ensures !(next.Some? && !AnyOfOptions(next.value, specs.specs.keys)) ==>
        specs.values == old(specs.values)
    {
      if next.Some? && !AnyOfOptions(next.value, specs.specs.keys) {
        specs.PushValue(id, next.value);
      }
    }

    /** `consumeOptionToken`: how many following tokens the option took. */
    method ConsumeOptionToken(id: OptionId, name: string, next: Option<string>) returns (r: Result<nat>)
      requires specs.Valid() && id in specs.specs.kind
      modifies specs
      ensures specs.Valid()
      ensures var c := Consume(specs.specs, old(specs.values), id, name, next);
        && (r.Success? <==> c.Success?)
        && (r.Success? ==> r.value == c.value.used && specs.values == c.value.values)
        && (r.Failure? ==> r.error == c.error && specs.values == old(specs.values))
    {
      var k := specs.specs.kind[id];
      if IsFlagKind(k) {
        if k == Incremental {
          specs.IncreaseValue(id);
        } else {
          specs.SetValue(id, Bool(true));
        }
        return Success(0);
      }
      var ok := next.Some? && !IsEmpty(next.value) && !AnyOfOptions(next.value, specs.specs.keys);
      if k == Required {
        if ok {
          specs.SetValue(id, Str(next.value));
          return Success(1);
        }
        return Failure(RequireValue(RequireValueMessage(name)));
      } else if k == Multiple {
        if ok {
          PushOptionValue(id, next);
          return Success(1);
        }
      } else {
        if ok {
          specs.SetValue(id, Str(next.value));
          return Success(1);
        }
      }
      return Success(0);
    }

    /** `fillDefaultValues`. */
    method FillDefaultValues(opts: OptionCollection, result: OptionResult)
      requires opts.Valid()
      modifies opts, result
      ensures opts.Valid()
      ensures var r := FillDefaults(opts.specs, opts.specs.ids,
                                    ScanState(old(opts.values), old(result.keys), old(result.arguments)));
        opts.values == r.values && result.keys == r.keys && result.arguments == r.args
    {
      ghost var st0 := ScanState(opts.values, result.keys, result.arguments);
      var ids := opts.specs.ids;
      var i := 0;
      while i < |ids|
        invariant 0 <= i <= |ids|
        invariant opts.Valid()
        invariant FillDefaults(opts.specs, ids[..i], st0) ==
          ScanState(opts.values, result.keys, result.arguments)
      {
        assert ids[..i + 1][..i] == ids[..i];
        var id := ids[i];
        if opts.values[id] == Null && opts.specs.defaults[id] != Null {
          opts.SetValue(id, opts.specs.defaults[id]);
          result.Set(id, opts.specs.defaults[id]);
        }
        i := i + 1;
      }
      assert ids[..i] == ids;
    }

    /** One pass of the `for` loop of `parse` at position `i`: the token is
        added as an argument, or expanded and consumed as an option. */
    method ScanStep(argv: seq<string>, i: nat, result: OptionResult, ghost full: Outcome)
      returns (argv': seq<string>, i': nat, err: Option<Error>)
      requires specs.Valid() && 1 <= i < |argv|
      requires ScanFrom(specs.specs, argv[i..], ScanState(specs.values, result.keys, result.arguments)) == full
      modifies specs, result
      ensures specs.Valid()
      ensures err.None? ==>
        && 1 <= i' <= |argv'| && Weight(argv'[i'..]) < Weight(argv[i..])
        && ScanFrom(specs.specs, argv'[i'..], ScanState(specs.values, result.keys, result.arguments)) == full
      ensures err.Some? ==> full == Stopped(err.value, specs.values)
    {
      var arg := new Argument(argv[i]);
      if !IsOption(arg.arg) {
        ghost var st := ScanState(specs.values, result.keys, result.arguments);
        result.AddArgument(arg.arg);
        ScanNonOptionStep(specs.specs, argv[i..], st);
        assert argv[i..][1..] == argv[i + 1..];
        assert Weight(argv[i..]) == TokenWeight(argv[i]) + Weight(argv[i + 1..]);
        return argv, i + 1, None;
      }
      argv', i', err := OptionStep(argv, i, result, arg, full);
    }

    /** The option branch of the loop: `arg` holds `argv[i]`, an option. */
    method OptionStep(argv: seq<string>, i: nat, result: OptionResult, arg: Argument, ghost full: Outcome)
      returns (argv': seq<string>, i': nat, err: Option<Error>)
      requires specs.Valid() && 1 <= i < |argv| && arg.arg == argv[i] && IsOption(argv[i])
      requires ScanFrom(specs.specs, argv[i..], ScanState(specs.values, result.keys, result.arguments)) == full
      modifies specs, result, arg
      ensures specs.Valid()
      ensures err.None? ==>
        && 1 <= i' <= |argv'| && Weight(argv'[i'..]) < Weight(argv[i..])
        && ScanFrom(specs.specs, argv'[i'..], ScanState(specs.values, result.keys, result.arguments)) == full
      ensures err.Some? ==> full == Stopped(err.value, specs.values)
    {
      ghost var st := ScanState(specs.values, result.keys, result.arguments);
      argv' := SpliceCluster(argv, i, arg);
      assert ScanState(specs.values, result.keys, result.arguments) == st;
      i', err := ConsumeAt(argv', i, result, arg.arg);
      SplicedScan(specs.specs, argv, argv', i, st, full,
                  i', err, ScanState(specs.values, result.keys, result.arguments), specs.values);
    }

    /** A cluster at `i` is cut to its first flag and the other flags are
        spliced in after it. */
    method SpliceCluster(argv: seq<string>, i: nat, arg: Argument) returns (argv': seq<string>)
      requires i < |argv| && arg.arg == argv[i]
      modifies arg
      ensures i < |argv'| && argv'[i..] == Expanded(argv[i..]) && arg.arg == argv'[i]
    {
      argv' := argv;
      ghost var rest := argv[i..];
      if WithExtraFlagOptions(arg.arg) {
        var flags := arg.ExtractExtraFlagOptions();
        // `array_splice($argv, $i + 1, 0, $extra)`, then the shortened token at `$i`
        argv' := argv'[..i + 1] + flags + argv'[i + 1..];
        argv' := argv'[i := arg.arg];
        assert argv'[i..] == [FirstTwo(rest[0])] + ExtraFlags(rest[0]) + rest[1..];
      }
    }

    /** The lookup of the option at `i` of the spliced argv and the
        consumption of its value, as `OptionStepAt` describes them. */
    method ConsumeAt(argv': seq<string>, i: nat, result: OptionResult, arg: string)
      returns (i': nat, err: Option<Error>)
      requires specs.Valid() && i < |argv'| && arg == argv'[i]
      modifies specs, result
      ensures specs.Valid()
      ensures var s := OptionStepAt(specs.specs, argv'[i..],
                                    ScanState(old(specs.values), old(result.keys), old(result.arguments)));
        && (err.Some? <==> s.Stop?)
        && (err.Some? ==> err.value == s.error && specs.values == s.values)
        && (err.None? ==> i' == i + 1 + s.used && ScanState(specs.values, result.keys, result.arguments) == s.st)
    {
      var sp := specs.specs;
      var next: Option<string> := None;
      if i + 1 < |argv'| {
        next := Some(argv'[i + 1]);
      }
      ghost var ex := argv'[i..];
      assert ex[0] == arg && (if |ex| > 1 then Some(ex[1]) else None) == next;
      var name := OptionName(arg);
      if name.None? || name.value !in sp.lookup {
        return i, Some(InvalidOption(InvalidOptionMessage(arg)));
      }
      var id := sp.lookup[name.value];
      var used := ConsumeOptionToken(id, name.value, next);
      if used.Failure? {
        return i, Some(used.error);
      }
      result.Set(id, specs.values[id]);
      i', err := i + used.value + 1, None;
    }

    /** The `for` loop of `parse` from position 1 on, into `result`. */
    method ScanLoop(argv: seq<string>, result: OptionResult, ghost full: Outcome) returns (err: Option<Error>)
      requires specs.Valid() && |argv| > 0
      requires ScanFrom(specs.specs, argv[1..], ScanState(specs.values, result.keys, result.arguments)) == full
      modifies specs, result
      ensures specs.Valid()
      ensures err.None? <==> full.Done?
      ensures err.None? ==>
        specs.values == full.st.values && result.keys == full.st.keys && result.arguments == full.st.args
      ensures err.Some? ==> err.value == full.error && specs.values == full.values
    {
      var sp := specs.specs;
      ghost var target := full;
      var argv := argv;
      var i := 1;
      while i < |argv|
        invariant 1 <= i <= |argv|
        invariant specs.Valid() && specs.specs == sp
        invariant ScanFrom(sp, argv[i..], ScanState(specs.values, result.keys, result.arguments)) == target
        decreases Weight(argv[i..])
      {
        var e;
        argv, i, e := ScanStep(argv, i, result, target);
        if e.Some? {
          return e;
        }
      }
      assert argv[i..] == [];
      return None;
    }

    /** `parse($argv)`: a fresh result holding exactly what `ParseSpec`
        describes, or the error it stops with; the spec values are those the
        scan leaves in either case. */
    method Parse(argv: seq<string>) returns (r: Result<OptionResult>)
      requires specs.Valid()
      modifies specs
      ensures specs.Valid()
      ensures var out := ParseSpec(specs.specs, old(specs.values), argv);
        && (r.Success? <==> out.Done?)
        && (r.Success? ==>
              (fresh(r.value) && specs.values == out.st.values
               && r.value.keys == out.st.keys && r.value.arguments == out.st.args))
        && (r.Failure? ==> (r.error == out.error && specs.values == out.values))
    {
      var result := new OptionResult();
      var argv', extra := PreprocessingArguments(argv);
      if |argv'| == 0 {
        return Failure(TypeError(TypeErrorMessage()));
      }
      var first := new Argument(argv'[0]);
      if IsOption(first.arg) {
        return Failure(LogicError(ProgramNameMessage));
      }
      ParseSpecScan(specs.specs, specs.values, argv, argv');
      ghost var scanned := ScanFrom(specs.specs, argv'[1..], ScanState(specs.values, map[], []));
      var err := ScanLoop(argv', result, scanned);
      if err.Some? {
        return Failure(err.value);
      }
      FillDefaultValues(specs, result);
      return Success(result);
    }
  }
}

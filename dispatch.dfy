/** The application and its dispatch loop (src/Application.php): `init`
    registers the commands and the global options, `run` parses the options
    after the script name, descends the command tree one token at a time
    (each level parsing its own options), collects the remaining tokens as
    arguments, and then drives the prepare, execute and finish stages. */
module Dispatch {

  import opened Base
  import opened OptionSpecs
  import opened OptionResults
  import opened CommandArgument
  import opened Commands
  import opened Logging

  /** The TypeError of `setProgramName($argv[0])` when `argv` is empty. */
  const ProgramNameNull: string :=
    "Hail\\Console\\Application::setProgramName(): Argument #1 ($programName) must be of type string, null given"

  /** The TypeError of `guessCommand`, declared `: string`, when the corrector
      finds no candidate. */
  const GuessNull: string := "guessCommand(): Return value must be of type string, null returned"

  /** `$this->config[$key] ?? $default`. */
  function Config(config: map<string, Value>, key: string, default: Value): (v: Value)
    ensures key in config && config[key] != Null ==> v == config[key]
    ensures key !in config || config[key] == Null ==> v == default
  {
    if key in config && config[key] != Null then config[key] else default
  }

  /** `getOption($key)` on an option result holding `opts`. */
  function OptionIn(opts: map<string, Value>, key: string): (v: Value)
    ensures key in opts ==> v == opts[key]
    ensures key !in opts ==> v == Null
  {
    if key in opts then opts[key] else Null
  }

  /** The log level `prepare` installs, if any: the debug, verbose and quiet
      options, in that order, and then the `debug` and `verbose` entries of
      the configuration. */
  function LevelChoice(opts: map<string, Value>, config: map<string, Value>): (r: Option<string>)
    ensures r.Some? ==> r.value in LogLevels
  {
    if Truthy(OptionIn(opts, "debug")) then Some("debug")
    else if Truthy(OptionIn(opts, "verbose")) then Some("info")
    else if Truthy(OptionIn(opts, "quiet")) then Some("error")
    else if Truthy(Config(config, "debug", Bool(false))) then Some("debug")
    else if Truthy(Config(config, "verbose", Bool(false))) then Some("info")
    else None
  }

  /** A flag given on the command line decides the level whatever the
      configuration says. */
  lemma OptionsOverrideConfig(opts: map<string, Value>, c1: map<string, Value>, c2: map<string, Value>)
    requires Truthy(OptionIn(opts, "debug")) || Truthy(OptionIn(opts, "verbose")) || Truthy(OptionIn(opts, "quiet"))
    ensures LevelChoice(opts, c1) == LevelChoice(opts, c2)
    ensures LevelChoice(opts, c1).Some?
  {
  }

  /** Debug beats verbose, which beats quiet; without any of the three flags
      the configuration decides as if no option had been read. */
  lemma LevelPriority(opts: map<string, Value>, config: map<string, Value>)
    ensures Truthy(OptionIn(opts, "debug")) ==> LevelChoice(opts, config) == Some("debug")
    ensures !Truthy(OptionIn(opts, "debug")) && Truthy(OptionIn(opts, "verbose")) ==>
      LevelChoice(opts, config) == Some("info")
    ensures !Truthy(OptionIn(opts, "debug")) && !Truthy(OptionIn(opts, "verbose")) && Truthy(OptionIn(opts, "quiet")) ==>
      LevelChoice(opts, config) == Some("error")
    ensures !Truthy(OptionIn(opts, "debug")) && !Truthy(OptionIn(opts, "verbose")) && !Truthy(OptionIn(opts, "quiet")) ==>
      LevelChoice(opts, config) == LevelChoice(map[], config)
  {
  }

  /** Where the option parser stopped and the options it read on the way. */
  datatype Scan = Scan(options: map<string, Value>, pos: nat)

  /** The continuous option parser (src/Option/ContinuousOptionParser.php is
      not part of this model) as two functions: `parse` reads `argv` up to the
      first token that is not an option and gives the token list it works on
      with where it stopped; `continueParse` reads, with the given specs, from
      a position of that list. */
  datatype Scanner = Scanner(
    parse: (Specs, seq<string>) -> Result<(seq<string>, Scan)>,
    continueParse: (Specs, seq<string>, nat) -> Result<Scan>)

  /** What the loop relies on from the parser: it stays within the tokens,
      never moves back, moves on when it read some option, and a parse that
      read none stops before the end (so that the `advance()` after it has a
      token to take). */
  ghost predicate ScannerOk(sc: Scanner)
  {
    && (forall specs, argv :: sc.parse(specs, argv).Success? ==>
          sc.parse(specs, argv).value.1.pos <= |sc.parse(specs, argv).value.0|)
    && (forall specs, tokens, pos: nat :: pos <= |tokens| && sc.continueParse(specs, tokens, pos).Success? ==>
          Moves(sc.continueParse(specs, tokens, pos).value, pos, |tokens|))
  }

  predicate Moves(s: Scan, pos: nat, n: nat)
  {
    && pos <= s.pos <= n
    && (|s.options| > 0 ==> s.pos > pos)
    && (|s.options| == 0 && pos < n ==> s.pos < n)
  }

  /** Every command registered by a command of the tree is in the tree and
      has the registering command as its parent (`addCommand` sets up the
      parent when it creates the command). */
  ghost predicate Closed(tree: set<Command>)
    reads tree`commands, tree`aliases
  {
    forall c :: c in tree ==>
      && (forall n :: n in c.commands ==> c.commands[n] in tree && c.commands[n].parent == c)
      && (forall n :: n in c.aliases ==> c.aliases[n] in tree && c.aliases[n].parent == c)
  }

  /** A command tree as the application builds it: closed, every parent
      chain ends, and no command declares the same argument object twice. */
  ghost predicate TreeOk(tree: set<Command>)
    reads tree`commands, tree`aliases, tree`arguments
  {
    && Closed(tree)
    && forall c :: c in tree ==> c.ChainOk() && c.Distinct()
  }

  /** The declared arguments of the commands of the tree. */
  ghost function ArgsOf(tree: set<Command>): (s: set<Argument>)
    reads tree`arguments
    ensures forall c, j :: c in tree && 0 <= j < |c.arguments| ==> c.arguments[j] in s
    ensures forall c, a :: c in tree && a in c.arguments ==> a in s
  {
    set c, j | c in tree && 0 <= j < |c.arguments| :: c.arguments[j]
  }

  /** The name a token at a command with subcommands stands for: the token
      itself when it is a child's name or alias; otherwise, unless
      no-interact is set, the corrector's guess among the child names; and
      CommandNotFoundException for the token when neither applies. */
  function Pick(c: Command, correct: (string, seq<string>) -> Option<string>, noInteract: bool, a: string): (r: Result<string>)
    reads c`commands, c`aliases, c`commandNames
    ensures r.Failure? <==> !c.HasCommand(a) && (noInteract || correct(a, c.commandNames).None?)
    ensures r.Failure? ==> r.error == CommandNotFound(a)
    ensures c.HasCommand(a) ==> r == Success(a)
    ensures !c.HasCommand(a) && r.Success? ==> r.value == correct(a, c.commandNames).value && !noInteract
  {
    if c.HasCommand(a) then Success(a)
    else if noInteract then Failure(CommandNotFound(a))
    else match correct(a, c.commandNames)
      case None => Failure(CommandNotFound(a))
      case Some(g) => Success(g)
  }

  /** The same choice as written: `guessCommand` is declared to return a
      string, so a corrector that finds nothing raises a TypeError instead of
      reaching the CommandNotFoundException branch. */
  function PickAsWritten(c: Command, correct: (string, seq<string>) -> Option<string>, noInteract: bool, a: string): (r: Result<string>)
    reads c`commands, c`aliases, c`commandNames
    ensures r.Success? ==> r == Pick(c, correct, noInteract, a)
  {
    if c.HasCommand(a) then Success(a)
    else if noInteract then Failure(CommandNotFound(a))
    else match correct(a, c.commandNames)
      case None => Failure(TypeError(GuessNull))
      case Some(g) => Success(g)
  }

  /** An unknown token the corrector cannot place: as written a TypeError,
      intended a CommandNotFoundException naming the token. */
  lemma UnplacedTokenAsWritten(c: Command, correct: (string, seq<string>) -> Option<string>, a: string)
    requires !c.HasCommand(a) && correct(a, c.commandNames).None?
    ensures PickAsWritten(c, correct, false, a) == Failure(TypeError(GuessNull))
    ensures Pick(c, correct, false, a) == Failure(CommandNotFound(a))
  {
  }

  /** What the loop builds: the stack of commands descended into, the
      arguments collected, and the options of the command it ended at. */
  datatype Descent = Descent(stack: seq<Command>, arguments: seq<string>, leafOptions: map<string, Value>)

  /** The `while (!$parser->isEnd())` loop from position `pos`, at `current`
      with option result `opts`: at a command with subcommands the token
      names the next command, which parses its own options and is pushed; at
      one without, options read are merged into the current ones, and
      otherwise one token becomes an argument. */
  ghost function Descend(sc: Scanner, correct: (string, seq<string>) -> Option<string>, noInteract: bool,
                         tokens: seq<string>, pos: nat, current: Command, stack: seq<Command>,
                         arguments: seq<string>, opts: map<string, Value>, tree: set<Command>): (r: Result<Descent>)
    requires ScannerOk(sc) && pos <= |tokens| && Closed(tree) && current in tree
    reads tree`commands, tree`aliases, tree`commandNames, tree`specs
    decreases |tokens| - pos
  {
    if pos == |tokens| then Success(Descent(stack, arguments, opts))
    else if current.HasCommands() then
      match Pick(current, correct, noInteract, tokens[pos])
      case Failure(e) => Failure(e)
      case Success(a) =>
        match current.GetCommand(a)
        case Failure(e) => Failure(e)
        case Success(next) =>
          match sc.continueParse(next.specs, tokens, pos + 1)
          case Failure(e) => Failure(e)
          case Success(st) =>
            assert Moves(st, pos + 1, |tokens|);
            Descend(sc, correct, noInteract, tokens, st.pos, next, stack + [next], arguments, st.options, tree)
    else
      match sc.continueParse(current.specs, tokens, pos)
      case Failure(e) => Failure(e)
      case Success(st) =>
        assert Moves(st, pos, |tokens|);
        if |st.options| > 0 then
          Descend(sc, correct, noInteract, tokens, st.pos, current, stack, arguments, opts + st.options, tree)
        else
          Descend(sc, correct, noInteract, tokens, st.pos + 1, current, stack, arguments + [tokens[st.pos]], opts, tree)
  }

  /** One turn of the loop at a command without subcommands: a failing
      parse ends it, a parse that read options continues after them with
      the options merged, one that read none keeps the token `advance()`
      then takes, the one where the parse stopped, as an argument. */
  lemma LeafStep(sc: Scanner, correct: (string, seq<string>) -> Option<string>, noInteract: bool,
                 tokens: seq<string>, pos: nat, current: Command, stack: seq<Command>,
                 arguments: seq<string>, opts: map<string, Value>, tree: set<Command>)
    requires ScannerOk(sc) && pos < |tokens| && Closed(tree) && current in tree && !current.HasCommands()
    ensures var st := sc.continueParse(current.specs, tokens, pos);
      var d := Descend(sc, correct, noInteract, tokens, pos, current, stack, arguments, opts, tree);
      && (st.Failure? ==> d == Failure(st.error))
      && (st.Success? ==> Moves(st.value, pos, |tokens|))
      && (st.Success? && |st.value.options| > 0 ==>
            d == Descend(sc, correct, noInteract, tokens, st.value.pos, current, stack, arguments, opts + st.value.options, tree))
      && (st.Success? && |st.value.options| == 0 ==>
            && st.value.pos < |tokens|
            && d == Descend(sc, correct, noInteract, tokens, st.value.pos + 1, current, stack,
                            arguments + [tokens[st.value.pos]], opts, tree))
  {
  }

  /** At a command without subcommands the stack stays as it is and every
      turn adds at most one argument, so there are at most as many new
      arguments as tokens left. */
  lemma {:induction false} LeafKeepsStack(sc: Scanner, correct: (string, seq<string>) -> Option<string>, noInteract: bool,
                                          tokens: seq<string>, pos: nat, current: Command, stack: seq<Command>,
                                          arguments: seq<string>, opts: map<string, Value>, tree: set<Command>)
    requires ScannerOk(sc) && pos <= |tokens| && Closed(tree) && current in tree && !current.HasCommands()
    ensures var r := Descend(sc, correct, noInteract, tokens, pos, current, stack, arguments, opts, tree);
      r.Success? ==> r.value.stack == stack && |r.value.arguments| <= |arguments| + |tokens| - pos
    decreases |tokens| - pos
  {
    if pos < |tokens| {
      var st := sc.continueParse(current.specs, tokens, pos);
      if st.Success? {
        assert Moves(st.value, pos, |tokens|);
        if |st.value.options| > 0 {
          LeafKeepsStack(sc, correct, noInteract, tokens, st.value.pos, current, stack, arguments, opts + st.value.options, tree);
        } else {
          LeafKeepsStack(sc, correct, noInteract, tokens, st.value.pos + 1, current, stack, arguments + [tokens[st.value.pos]], opts, tree);
        }
      }
    }
  }

  /** Each stacked command is registered under the command before it (the
      first under `current`), so the stack is a path down the tree. */
  lemma {:induction false} DescentIsPath(sc: Scanner, correct: (string, seq<string>) -> Option<string>, noInteract: bool,
                                         tokens: seq<string>, pos: nat, current: Command, stack: seq<Command>,
                                         arguments: seq<string>, opts: map<string, Value>, tree: set<Command>)
    requires ScannerOk(sc) && pos <= |tokens| && Closed(tree) && current in tree
    requires |stack| > 0 ==> stack[|stack| - 1] == current
    ensures var r := Descend(sc, correct, noInteract, tokens, pos, current, stack, arguments, opts, tree);
      r.Success? ==> PathBelow(r.value.stack, stack, current, tree)
    decreases |tokens| - pos
  {
    if pos < |tokens| {
      if current.HasCommands() {
        var p := Pick(current, correct, noInteract, tokens[pos]);
        if p.Success? && current.GetCommand(p.value).Success? {
          var next := current.GetCommand(p.value).value;
          ChildInTree(tree, current, p.value);
          var st := sc.continueParse(next.specs, tokens, pos + 1);
          if st.Success? {
            assert Moves(st.value, pos + 1, |tokens|);
            assert Descend(sc, correct, noInteract, tokens, pos, current, stack, arguments, opts, tree)
              == Descend(sc, correct, noInteract, tokens, st.value.pos, next, stack + [next], arguments, st.value.options, tree);
            DescentIsPath(sc, correct, noInteract, tokens, st.value.pos, next, stack + [next], arguments, st.value.options, tree);
            var r := Descend(sc, correct, noInteract, tokens, st.value.pos, next, stack + [next], arguments, st.value.options, tree);
            if r.Success? {
              PushedPath(r.value.stack, stack, current, next, tree);
            }
          }
        }
      } else {
        LeafKeepsStack(sc, correct, noInteract, tokens, pos, current, stack, arguments, opts, tree);
      }
    }
  }

  /** `rs` extends `stack`, and the commands it adds form a path of the tree
      starting below `current`. */
  ghost predicate PathBelow(rs: seq<Command>, stack: seq<Command>, current: Command, tree: set<Command>)
  {
    && |rs| >= |stack| && rs[..|stack|] == stack
    && (|rs| > |stack| ==> rs[|stack|].parent == current)
    && (forall i :: |stack| < i < |rs| ==> rs[i].parent == rs[i - 1])
    && (forall i :: |stack| <= i < |rs| ==> rs[i] in tree)
  }

  /** A path below `next` that extends `stack + [next]`, with `next` a child
      of `current` in the tree, is a path below `current` extending `stack`. */
  lemma PushedPath(rs: seq<Command>, stack: seq<Command>, current: Command, next: Command, tree: set<Command>)
    requires next.parent == current && next in tree
    requires PathBelow(rs, stack + [next], next, tree)
    ensures PathBelow(rs, stack, current, tree)
  {
    PrefixOfPrefix(rs, |stack| + 1, |stack|);
    assert rs[|stack|] == next by {
      assert rs[..|stack| + 1][|stack|] == next;
    }
  }

  /** A command found under a command of the tree is in the tree, with that
      command as its parent. */
  lemma ChildInTree(tree: set<Command>, c: Command, a: string)
    requires Closed(tree) && c in tree && c.GetCommand(a).Success?
    ensures c.GetCommand(a).value in tree && c.GetCommand(a).value.parent == c
  {
  }

  lemma InTree(tree: set<Command>, c: Command)
    requires TreeOk(tree) && c in tree
    ensures c.Distinct() && forall j :: 0 <= j < |c.arguments| ==> c.arguments[j] in ArgsOf(tree)
  {
  }

  /** Where a turn of the loop leaves it: further on, at a command of the
      tree, still on the way to `full`. */
  ghost predicate Resumes(sc: Scanner, correct: (string, seq<string>) -> Option<string>, noInteract: bool,
                          tokens: seq<string>, pos: nat, root: Command, tree: set<Command>, full: Result<Descent>,
                          pos': nat, current': Command, stack': seq<Command>, arguments': seq<string>,
                          opts': map<string, Value>)
    reads tree`commands, tree`aliases, tree`commandNames, tree`specs, current', current'.options
  {
    && ScannerOk(sc) && Closed(tree)
    && pos < pos' <= |tokens| && current' in tree && current'.options.keys == opts'
    && Descend(sc, correct, noInteract, tokens, pos', current', stack', arguments', opts', tree) == full
    && (|stack'| == 0 ==> current' == root)
    && (|stack'| > 0 ==> current' == stack'[|stack'| - 1] && current'.parent != null)
  }

  /** One call `run` makes, in the order it makes them. */
  datatype Step =
    | AppPrepared(level: Option<string>)              // Application::prepare, with the level it set
    | Prepared(cmd: Command)                          // a stacked command's prepare
    | Wrapped(cmd: Command, arguments: seq<string>)   // executeWrapper(arguments)
    | Finished(cmd: Command)                          // a command's finish
    | AppFinished(profile: bool)                      // Application::finish, and whether it reports usage

  function PrepareSteps(stack: seq<Command>): (r: seq<Step>)
    ensures |r| == |stack| && forall i :: 0 <= i < |stack| ==> r[i] == Prepared(stack[i])
  {
    seq(|stack|, i requires 0 <= i < |stack| => Prepared(stack[i]))
  }

  function FinishSteps(cmds: seq<Command>): (r: seq<Step>)
    ensures |r| == |cmds| && forall i :: 0 <= i < |cmds| ==> r[i] == Finished(cmds[i])
  {
    seq(|cmds|, i requires 0 <= i < |cmds| => Finished(cmds[i]))
  }

  /** The calls after the loop: the application is prepared first (before
      the loop, in fact), then every stacked command in descent order; the
      leaf's wrapper runs and, unless it raised, the leaf finishes, the rest
      of the stack finishes deepest first, the leaf finishes once more and
      the application finishes. Without a stacked command the application's
      own wrapper runs and nothing finishes. */
  function Lifecycle(level: Option<string>, root: Command, d: Descent, raised: bool, profile: bool): (r: seq<Step>)
  {
    [AppPrepared(level)] + PrepareSteps(d.stack) + AfterPrepare(root, d, raised, profile)
  }

  /** The part of `Lifecycle` from the wrapper on. */
  function AfterPrepare(root: Command, d: Descent, raised: bool, profile: bool): (r: seq<Step>)
  {
    if |d.stack| == 0 then [Wrapped(root, d.arguments)]
    else
      var leaf := d.stack[|d.stack| - 1];
      [Wrapped(leaf, d.arguments)] +
      if raised then [] else Finishes(leaf, d.stack[..|d.stack| - 1], profile)
  }

  /** The finish calls after the leaf's wrapper, `outer` being the commands
      stacked above the leaf. */
  function Finishes(leaf: Command, outer: seq<Command>, profile: bool): (r: seq<Step>)
  {
    [Finished(leaf)] + FinishSteps(Reverse(outer)) + [Finished(leaf), AppFinished(profile)]
  }

  /** The order `LifecycleOrder` states, for a stack of `n` commands. */
  ghost predicate LaidOut(r: seq<Step>, level: Option<string>, stack: seq<Command>, arguments: seq<string>, profile: bool)
  {
    var n := |stack|;
    && n > 0 && |r| == 2 * n + 4
    && r[0] == AppPrepared(level)
    && (forall k :: 1 <= k <= n ==> r[k] == Prepared(stack[k - 1]))
    && r[n + 1] == Wrapped(stack[n - 1], arguments)
    && r[n + 2] == Finished(stack[n - 1])
    && (forall k :: n + 3 <= k < 2 * n + 2 ==> r[k] == Finished(stack[2 * n + 1 - k]))
    && r[2 * n + 2] == Finished(stack[n - 1])
    && r[2 * n + 3] == AppFinished(profile)
  }

  /** Run's order of calls, read back: the application's prepare comes
      first and each stacked command is prepared in descent order before any
      wrapper runs; after a wrapper that did not raise, the leaf finishes
      both straight after it and again just before the application, the
      other commands finish deepest first, and the application finishes
      last. */
  lemma LifecycleOrder(level: Option<string>, root: Command, d: Descent, profile: bool)
    requires |d.stack| > 0
    ensures LaidOut(Lifecycle(level, root, d, false, profile), level, d.stack, d.arguments, profile)
  {
    PreparesFirst(level, root, d, profile);
    FinishesLast(level, root, d, profile);
  }

  /** The first half of `LifecycleOrder`: up to the leaf's wrapper. */
  lemma PreparesFirst(level: Option<string>, root: Command, d: Descent, profile: bool)
    requires |d.stack| > 0
    ensures var r := Lifecycle(level, root, d, false, profile);
      var n := |d.stack|;
      && |r| == 2 * n + 4
      && r[0] == AppPrepared(level)
      && (forall k :: 1 <= k <= n ==> r[k] == Prepared(d.stack[k - 1]))
      && r[n + 1] == Wrapped(d.stack[n - 1], d.arguments)
  {
    var n := |d.stack|;
    var pre := PrepareSteps(d.stack);
    var after := AfterPrepare(root, d, false, profile);
    var r := [AppPrepared(level)] + pre + after;
    assert |after| == n + 3;
    forall k | 1 <= k <= n
      ensures r[k] == Prepared(d.stack[k - 1])
    {
      assert r[k] == pre[k - 1];
    }
    assert r[n + 1] == after[0];
  }

  /** The second half of `LifecycleOrder`: from the leaf's first finish on. */
  lemma FinishesLast(level: Option<string>, root: Command, d: Descent, profile: bool)
    requires |d.stack| > 0
    ensures var r := Lifecycle(level, root, d, false, profile);
      var n := |d.stack|;
      && |r| == 2 * n + 4
      && r[n + 2] == Finished(d.stack[n - 1])
      && (forall k :: n + 3 <= k < 2 * n + 2 ==> r[k] == Finished(d.stack[2 * n + 1 - k]))
      && r[2 * n + 2] == Finished(d.stack[n - 1])
      && r[2 * n + 3] == AppFinished(profile)
  {
    var n := |d.stack|;
    var leaf := d.stack[n - 1];
    var fin := FinishSteps(Reverse(d.stack[..n - 1]));
    var tail := [Finished(leaf)] + fin + [Finished(leaf), AppFinished(profile)];
    var head := [AppPrepared(level)] + PrepareSteps(d.stack) + [Wrapped(leaf, d.arguments)];
    var r := Lifecycle(level, root, d, false, profile);
    assert r == head + tail;
    assert |head| == n + 2;
    forall k | n + 3 <= k < 2 * n + 2
      ensures r[k] == Finished(d.stack[2 * n + 1 - k])
    {
      assert r[k] == tail[k - n - 2] == fin[k - n - 3];
    }
    assert r[n + 2] == tail[0] && r[2 * n + 2] == tail[n] && r[2 * n + 3] == tail[n + 1];
  }

  /** Lines 234 and 246 of run both finish the leaf: after a wrapper that did
      not raise, the leaf's finish is at exactly two positions, and every
      other stacked command's at exactly one. */
  lemma LeafFinishesTwice(level: Option<string>, root: Command, d: Descent, profile: bool)
    requires |d.stack| > 0
    requires forall i, j :: 0 <= i < j < |d.stack| ==> d.stack[i] != d.stack[j]
    ensures var r := Lifecycle(level, root, d, false, profile);
      var n := |d.stack|;
      && (forall k :: 0 <= k < |r| ==> (r[k] == Finished(d.stack[n - 1]) <==> k == n + 2 || k == 2 * n + 2))
      && (forall i, k :: 0 <= i < n - 1 && 0 <= k < |r| ==> (r[k] == Finished(d.stack[i]) <==> k == 2 * n + 1 - i))
  {
    LifecycleOrder(level, root, d, profile);
    FinishPositions(Lifecycle(level, root, d, false, profile), level, d.stack, d.arguments, profile);
  }

  /** The finishing positions of a call sequence laid out as `LifecycleOrder`
      states. */
  lemma FinishPositions(r: seq<Step>, level: Option<string>, stack: seq<Command>, arguments: seq<string>, profile: bool)
    requires LaidOut(r, level, stack, arguments, profile)
    requires forall i, j :: 0 <= i < j < |stack| ==> stack[i] != stack[j]
    ensures forall k :: 0 <= k < |r| ==> (r[k] == Finished(stack[|stack| - 1]) <==> k == |stack| + 2 || k == 2 * |stack| + 2)
    ensures forall i, k :: 0 <= i < |stack| - 1 && 0 <= k < |r| ==> (r[k] == Finished(stack[i]) <==> k == 2 * |stack| + 1 - i)
  {
    var n := |stack|;
    var leaf := stack[n - 1];
    forall k | 0 <= k < |r|
      ensures r[k] == Finished(leaf) <==> k == n + 2 || k == 2 * n + 2
    {
      if n + 3 <= k < 2 * n + 2 {
        var j := 2 * n + 1 - k;
        assert r[k] == Finished(stack[j]) && j < n - 1;
        assert stack[j] != leaf;
      }
    }
    forall i, k | 0 <= i < n - 1 && 0 <= k < |r|
      ensures r[k] == Finished(stack[i]) <==> k == 2 * n + 1 - i
    {
      if n + 3 <= k < 2 * n + 2 {
        var j := 2 * n + 1 - k;
        assert r[k] == Finished(stack[j]);
        assert j == i <==> k == 2 * n + 1 - i;
        assert j != i ==> stack[j] != stack[i];
      } else if k == n + 2 || k == 2 * n + 2 {
        assert stack[i] != leaf;
      }
    }
  }

  /** Without a stacked command the application's wrapper is the only call
      after its prepare, whether or not it raised. */
  lemma NoCommandNoFinish(level: Option<string>, root: Command, d: Descent, raised: bool, profile: bool)
    requires |d.stack| == 0
    ensures Lifecycle(level, root, d, raised, profile) == [AppPrepared(level), Wrapped(root, d.arguments)]
    ensures forall k :: 0 <= k < |Lifecycle(level, root, d, raised, profile)| ==>
      !Lifecycle(level, root, d, raised, profile)[k].Finished? && !Lifecycle(level, root, d, raised, profile)[k].AppFinished?
  {
    assert PrepareSteps(d.stack) == [];
  }

  /** The arguments `run` hands to `executeWrapper`: the tokens as strings. */
  function Strs(a: seq<string>): (r: seq<Value>)
    ensures |r| == |a| && forall i :: 0 <= i < |a| ==> r[i] == Str(a[i])
  {
    seq(|a|, i requires 0 <= i < |a| => Str(a[i]))
  }

  /** The commands table after connecting `cs` in order. */
  function Registered(m: map<string, Command>, cs: seq<Command>): (r: map<string, Command>)
    ensures forall c :: c in cs ==> c.name in r
    ensures forall n :: n in r ==> (n in m && r[n] == m[n]) || r[n] in cs
  {
    if |cs| == 0 then m else Registered(m, cs[..|cs| - 1])[cs[|cs| - 1].name := cs[|cs| - 1]]
  }

  /** The alias table after connecting `cs` in order. */
  function Aliased(m: map<string, Command>, cs: seq<Command>): (r: map<string, Command>)
    ensures forall n :: n in r ==> (n in m && r[n] == m[n]) || r[n] in cs
  {
    if |cs| == 0 then m else Aliased(m, cs[..|cs| - 1]) + AliasMap(cs[|cs| - 1].aliasNames, cs[|cs| - 1])
  }

  /** The option collection after `init`'s eight `addOption` calls:
      v|verbose, d|debug, q|quiet, h|help, version, p|profile, log-path? and
      no-interact, in that order. */
  function GlobalSpecs(add: (Specs, string) -> Specs, s: Specs): Specs
  {
    add(add(add(add(add(add(add(add(s, "v|verbose"), "d|debug"), "q|quiet"), "h|help"), "version"),
      "p|profile"), "log-path?"), "no-interact")
  }

  /** The application: the root of the command tree (whose `config` is the
      application's configuration), the program name and the logger. */
  class Application {
    const root: Command
    var programName: string
    const logger: Logger

    /** `new Application($config)`: an empty option result, the logger and
        the configuration. */
    constructor(config: map<string, Value>, specs: Specs)
      ensures root.isApplication && root.config == config && root.specs == specs
      ensures root.commands == map[] && root.aliases == map[] && root.commandNames == []
      ensures root.Registry() && root.ChainOk() && root.Distinct()
      ensures root.options.keys == map[] && logger.level == 3 && programName == ""
    {
      root := new Command.Application(config, specs);
      logger := new Logger();
      programName := "";
    }

    /** `init()`: connects the given commands (the help command, the
        development group and the configured ones, which the command loader
        creates) in order, then adds the global option specs. */
    method Init(children: seq<Command>, add: (Specs, string) -> Specs, ghost tree: set<Command>)
      requires root.Registry() && TreeOk(tree) && root in tree
      requires forall i :: 0 <= i < |children| ==> children[i] in tree && children[i].parent == root
      modifies root`commandNames, root`commands, root`aliases, root`specs
      ensures root.Registry() && TreeOk(tree)
      ensures root.commands == Registered(old(root.commands), children)
      ensures root.aliases == Aliased(old(root.aliases), children)
      ensures root.specs == GlobalSpecs(add, old(root.specs))
    {
      for i := 0 to |children|
        invariant root.Registry() && TreeOk(tree)
        invariant root.commands == Registered(old(root.commands), children[..i])
        invariant root.aliases == Aliased(old(root.aliases), children[..i])
        invariant root.specs == old(root.specs)
      {
        ConnectChild(children[i], tree);
        assert children[..i + 1][..i] == children[..i];
      }
      assert children[..|children|] == children;
      AddGlobalOptions(add);
    }

    /** One `addCommand($cmd)` call of `init()`, for a command of the tree
        created under the application. */
    method ConnectChild(cmd: Command, ghost tree: set<Command>)
      requires root.Registry() && TreeOk(tree) && root in tree && cmd in tree && cmd.parent == root
      modifies root`commandNames, root`commands, root`aliases
      ensures root.Registry() && TreeOk(tree)
      ensures root.commands == old(root.commands)[cmd.name := cmd]
      ensures root.aliases == old(root.aliases) + AliasMap(cmd.aliasNames, cmd)
    {
      root.ConnectCommand(cmd);
    }

    /** The eight `addOption` calls at the end of `init()`. */
    method AddGlobalOptions(add: (Specs, string) -> Specs)
      modifies root`specs
      ensures root.specs == GlobalSpecs(add, old(root.specs))
    {
      root.AddOption(add, "v|verbose");
      root.AddOption(add, "d|debug");
      root.AddOption(add, "q|quiet");
      root.AddOption(add, "h|help");
      root.AddOption(add, "version");
      root.AddOption(add, "p|profile");
      root.AddOption(add, "log-path?");
      root.AddOption(add, "no-interact");
    }

    /** `prepare()`: sets the logger's level as `LevelChoice` picks it from
        the application's options and configuration, and leaves it alone
        when nothing is picked. */
    method Prepare() returns (level: Option<string>)
      modifies logger`level
      ensures level == LevelChoice(root.options.keys, root.config)
      ensures level.Some? ==> logger.level == LogLevels[level.value]
      ensures level.None? ==> logger.level == old(logger.level)
    {
      if Truthy(root.GetOption("debug")) {
        level := Some("debug");
      } else if Truthy(root.GetOption("verbose")) {
        level := Some("info");
      } else if Truthy(root.GetOption("quiet")) {
        level := Some("error");
      } else if Truthy(Config(root.config, "debug", Bool(false))) {
        level := Some("debug");
      } else if Truthy(Config(root.config, "verbose", Bool(false))) {
        level := Some("info");
      } else {
        level := None;
      }
      if level.Some? {
        logger.SetLevel(level);
      }
    }

    /** `finish()`: whether the usage report is written, which the profile
        option decides. */
    method Finish() returns (profile: bool)
      ensures profile == Truthy(OptionIn(root.options.keys, "profile"))
    {
      profile := Truthy(root.GetOption("profile"));
    }

    /** What `run($argv)` does once `argv` has its script name: the calls in
        order and how it ends, for the parse of `argv` against the
        application's specs and the descent from its result. */
    ghost function Expected(argv: seq<string>, sc: Scanner, correct: (string, seq<string>) -> Option<string>,
                            vt: (Value, string, Value) -> TypeTest, tree: set<Command>): (seq<Step>, Result<bool>)
      requires ScannerOk(sc) && TreeOk(tree) && root in tree
      reads this, root`specs, tree`commands, tree`aliases, tree`commandNames, tree`specs, tree`arguments,
        tree`extensions, ArgsOf(tree)`isa, ArgsOf(tree)`isaOption, ArgsOf(tree)`validValues,
        ArgsOf(tree)`validator, ArgsOf(tree)`optional, ArgsOf(tree)`name
    {
      match sc.parse(root.specs, argv)
      case Failure(e) => ([], Failure(e))
      case Success(p) =>
        var tokens := p.0;
        var scan := p.1;
        var level := LevelChoice(scan.options, root.config);
        var noInteract := Truthy(OptionIn(scan.options, "no-interact"));
        match Descend(sc, correct, noInteract, tokens, scan.pos, root, [], [], scan.options, tree)
        case Failure(e) => ([AppPrepared(level)], Failure(e))
        case Success(d) =>
          DescentIsPath(sc, correct, noInteract, tokens, scan.pos, root, [], [], scan.options, tree);
          var leaf := Leaf(d.stack);
          var err := leaf.WrapperOutcome(vt, Strs(d.arguments)).1;
          (Lifecycle(level, root, d, err.Some?, Truthy(OptionIn(scan.options, "profile"))),
           if err.Some? then Failure(err.value) else Success(true))
    }

    /** `run($argv)`: the program name is `argv[0]` (an empty `argv` passes
        null to `setProgramName` and raises a TypeError before anything
        else); `init` runs before any parsing; the parse of `argv` gives the
        application its options and `prepare` runs; the loop descends; then
        the calls happen in the order `Lifecycle` states and `run` answers
        true unless something raised. An exception ends `run` with the calls
        made so far. */
    method Run(argv: seq<string>, children: seq<Command>, add: (Specs, string) -> Specs, sc: Scanner,
               correct: (string, seq<string>) -> Option<string>, vt: (Value, string, Value) -> TypeTest,
               ghost tree: set<Command>)
      returns (steps: seq<Step>, r: Result<bool>)
      requires ScannerOk(sc) && TreeOk(tree) && root in tree && root.parent == null && root.Registry()
      requires forall i :: 0 <= i < |children| ==> children[i] in tree && children[i].parent == root
      modifies this`programName, root`commandNames, root`commands, root`aliases, root`specs,
        tree`options, ArgsOf(tree)`value, logger`level
      ensures |argv| == 0 ==> steps == [] && r == Failure(TypeError(ProgramNameNull))
      ensures |argv| > 0 ==>
        && programName == argv[0]
        && root.commands == Registered(old(root.commands), children)
        && root.aliases == Aliased(old(root.aliases), children)
        && root.specs == GlobalSpecs(add, old(root.specs))
        && TreeOk(tree)
        && (steps, r) == Expected(argv, sc, correct, vt, tree)
    {
      if |argv| == 0 {
        return [], Failure(TypeError(ProgramNameNull));
      }
      programName := argv[0];
      Init(children, add, tree);
      steps, r := Dispatch(argv, sc, correct, vt, tree);
    }

    /** `run($argv)` after `init`: the parse, `prepare`, the loop and what
        follows it. */
    method Dispatch(argv: seq<string>, sc: Scanner, correct: (string, seq<string>) -> Option<string>,
                    vt: (Value, string, Value) -> TypeTest, ghost tree: set<Command>)
      returns (steps: seq<Step>, r: Result<bool>)
      requires ScannerOk(sc) && TreeOk(tree) && root in tree && root.parent == null
      modifies tree`options, ArgsOf(tree)`value, logger`level
      ensures (steps, r) == Expected(argv, sc, correct, vt, tree)
    {
      var parsed := sc.parse(root.specs, argv);
      if parsed.Failure? {
        return [], Failure(parsed.error);
      }
      var tokens := parsed.value.0;
      var scan := parsed.value.1;
      var level, d := PrepareAndDescend(sc, correct, tokens, scan, tree);
      if d.Failure? {
        return [AppPrepared(level)], Failure(d.error);
      }
      var noInteract := Truthy(OptionIn(scan.options, "no-interact"));
      DescentIsPath(sc, correct, noInteract, tokens, scan.pos, root, [], [], scan.options, tree);
      InTree(tree, Leaf(d.value.stack));
      steps, r := Conclude(level, d.value, vt, tree);
      if |d.value.stack| == 0 {
        var raised := r.Failure?;
        NoCommandNoFinish(level, root, d.value, raised, Truthy(OptionIn(root.options.keys, "profile")));
        NoCommandNoFinish(level, root, d.value, raised, Truthy(OptionIn(scan.options, "profile")));
      }
    }

    /** The application takes the parsed options, `prepare` runs and the
        loop descends from where the parse stopped. */
    method PrepareAndDescend(sc: Scanner, correct: (string, seq<string>) -> Option<string>,
                             tokens: seq<string>, scan: Scan, ghost tree: set<Command>)
      returns (level: Option<string>, d: Result<Descent>)
      requires ScannerOk(sc) && scan.pos <= |tokens| && TreeOk(tree) && root in tree && root.parent == null
      modifies tree`options, logger`level
      ensures level == LevelChoice(scan.options, root.config)
      ensures level.Some? ==> logger.level == LogLevels[level.value]
      ensures level.None? ==> logger.level == old(logger.level)
      ensures d == Descend(sc, correct, Truthy(OptionIn(scan.options, "no-interact")), tokens, scan.pos,
                           root, [], [], scan.options, tree)
      ensures d.Success? && |d.value.stack| > 0 ==> root.options.keys == scan.options
    {
      var res := new OptionResult();
      res.keys := scan.options;
      root.SetOptions(res);
      level := Prepare();
      var noInteract := Truthy(root.GetOption("no-interact"));
      d := DescendTokens(sc, correct, noInteract, tokens, scan.pos, res, tree);
    }

    /** The command whose wrapper runs: the last one stacked, or the
        application when none was. */
    function Leaf(stack: seq<Command>): Command
    {
      if |stack| == 0 then root else stack[|stack| - 1]
    }

    /** Everything after the loop, for the descent `d`: the stacked commands
        are prepared, the leaf's (or the application's) wrapper runs, and
        the finish calls follow. */
    method Conclude(level: Option<string>, d: Descent, vt: (Value, string, Value) -> TypeTest, ghost tree: set<Command>)
      returns (steps: seq<Step>, r: Result<bool>)
      requires Leaf(d.stack).Distinct()
      modifies Leaf(d.stack).arguments`value
      ensures unchanged(tree)
      ensures var err := Leaf(d.stack).WrapperOutcome(vt, Strs(d.arguments)).1;
        && steps == Lifecycle(level, root, d, err.Some?, Truthy(OptionIn(root.options.keys, "profile")))
        && r == if err.Some? then Failure(err.value) else Success(true)
    {
      steps := PrepareAll(level, d.stack);
      var tail;
      tail, r := WrapAndFinish(d, vt);
      steps := steps + tail;
    }

    /** The wrapper of `Leaf(d.stack)` and, unless it raised, the finish calls. */
    method WrapAndFinish(d: Descent, vt: (Value, string, Value) -> TypeTest)
      returns (steps: seq<Step>, r: Result<bool>)
      requires Leaf(d.stack).Distinct()
      modifies Leaf(d.stack).arguments`value
      ensures var err := Leaf(d.stack).WrapperOutcome(vt, Strs(d.arguments)).1;
        && steps == AfterPrepare(root, d, err.Some?, Truthy(OptionIn(root.options.keys, "profile")))
        && r == if err.Some? then Failure(err.value) else Success(true)
    {
      if |d.stack| == 0 {
        var events, err := root.ExecuteWrapper(vt, Strs(d.arguments));
        steps := [Wrapped(root, d.arguments)];
        r := if err.Some? then Failure(err.value) else Success(true);
      } else {
        steps, r := WrapLeaf(d.stack[|d.stack| - 1], d, vt);
      }
    }

    /** The leaf's wrapper and, unless it raised, the finish calls. */
    method WrapLeaf(leaf: Command, d: Descent, vt: (Value, string, Value) -> TypeTest)
      returns (steps: seq<Step>, r: Result<bool>)
      requires |d.stack| > 0 && leaf == d.stack[|d.stack| - 1] && leaf.Distinct()
      modifies leaf.arguments`value
      ensures var err := leaf.WrapperOutcome(vt, Strs(d.arguments)).1;
        && steps == AfterPrepare(root, d, err.Some?, Truthy(OptionIn(root.options.keys, "profile")))
        && r == if err.Some? then Failure(err.value) else Success(true)
    {
      ghost var profile := Truthy(OptionIn(root.options.keys, "profile"));
      var events, err := leaf.ExecuteWrapper(vt, Strs(d.arguments));
      assert Truthy(OptionIn(root.options.keys, "profile")) == profile;
      steps := [Wrapped(leaf, d.arguments)];
      if err.Some? {
        return steps, Failure(err.value);
      }
      var tail := FinishAll(leaf, d.stack[..|d.stack| - 1]);
      steps := steps + tail;
      assert steps == AfterPrepare(root, d, false, profile);
      return steps, Success(true);
    }

    /** The prepare calls before the wrapper: the application's, then each
        stacked command's from the outermost inwards. */
    method PrepareAll(level: Option<string>, stack: seq<Command>) returns (steps: seq<Step>)
      ensures steps == [AppPrepared(level)] + PrepareSteps(stack)
    {
      steps := [AppPrepared(level)];
      for i := 0 to |stack|
        invariant steps == [AppPrepared(level)] + PrepareSteps(stack[..i])
      {
        var events := stack[i].Prepare();
        assert stack[..i + 1] == stack[..i] + [stack[i]];
        steps := steps + [Prepared(stack[i])];
      }
      assert stack[..|stack|] == stack;
    }

    /** The finish calls once the leaf's wrapper has run: the leaf, the
        commands under it from the innermost outwards, the leaf again and
        the application. */
    method FinishAll(leaf: Command, outer: seq<Command>) returns (steps: seq<Step>)
      ensures steps == Finishes(leaf, outer, Truthy(OptionIn(root.options.keys, "profile")))
    {
      var events := leaf.Finish();
      steps := [Finished(leaf)];
      ghost var order := Reverse(outer);
      var rest := outer;
      while |rest| > 0
        invariant |rest| <= |order| && rest == outer[..|rest|]
        invariant steps == [Finished(leaf)] + FinishSteps(order[..|order| - |rest|])
      {
        var cmd := rest[|rest| - 1];
        rest := rest[..|rest| - 1];
        events := cmd.Finish();
        assert order[..|order| - |rest|] == order[..|order| - |rest| - 1] + [cmd];
        steps := steps + [Finished(cmd)];
      }
      assert order[..|order|] == order;
      events := leaf.Finish();
      var profile := Finish();
      steps := steps + [Finished(leaf), AppFinished(profile)];
    }

    /** The `while (!$parser->isEnd())` loop, from where the first parse
        stopped, with `res` as the application's option result. */
    method DescendTokens(sc: Scanner, correct: (string, seq<string>) -> Option<string>, noInteract: bool,
                         tokens: seq<string>, start: nat, res: OptionResult, ghost tree: set<Command>)
      returns (d: Result<Descent>)
      requires ScannerOk(sc) && start <= |tokens| && TreeOk(tree) && root in tree
      requires root.parent == null && root.options == res
      modifies tree`options, res
      ensures d == old(Descend(sc, correct, noInteract, tokens, start, root, [], [], res.keys, tree))
      ensures root.options == res
      ensures d.Success? && |d.value.stack| == 0 ==> res.keys == d.value.leafOptions
      ensures d.Success? && |d.value.stack| > 0 ==>
        res.keys == old(res.keys) && d.value.stack[|d.value.stack| - 1].options.keys == d.value.leafOptions
    {
      ghost var full := Descend(sc, correct, noInteract, tokens, start, root, [], [], res.keys, tree);
      var current := root;
      var stack: seq<Command> := [];
      var arguments: seq<string> := [];
      var pos := start;
      ghost var opts := res.keys;
      while pos < |tokens|
        invariant pos <= |tokens| && current in tree && root.options == res && Closed(tree)
        invariant |stack| == 0 ==> current == root
        invariant |stack| > 0 ==> current == stack[|stack| - 1] && current.parent != null && fresh(current.options)
        invariant (|stack| > 0 || root.HasCommands()) ==> res.keys == old(res.keys)
        invariant current.options.keys == opts
        invariant Descend(sc, correct, noInteract, tokens, pos, current, stack, arguments, opts, tree) == full
        decreases |tokens| - pos
      {
        var stop;
        stop, pos, current, stack, arguments, opts :=
          Step(sc, correct, noInteract, tokens, pos, current, stack, arguments, opts, res, tree, full);
        if stop.Some? {
          return Failure(stop.value);
        }
      }
      return Success(Descent(stack, arguments, current.options.keys));
    }

    /** One turn of the loop, at a command with subcommands or at one
        without. `full` is what the whole loop comes to. */
    method Step(sc: Scanner, correct: (string, seq<string>) -> Option<string>, noInteract: bool,
                tokens: seq<string>, pos: nat, current: Command, stack: seq<Command>,
                arguments: seq<string>, ghost opts: map<string, Value>, res: OptionResult,
                ghost tree: set<Command>, ghost full: Result<Descent>)
      returns (stop: Option<Error>, pos': nat, current': Command, stack': seq<Command>,
               arguments': seq<string>, ghost opts': map<string, Value>)
      requires ScannerOk(sc) && pos < |tokens| && Closed(tree) && current in tree && root in tree
      requires root.parent == null && root.options == res && current.options.keys == opts
      requires |stack| == 0 ==> current == root
      requires |stack| > 0 ==> current == stack[|stack| - 1] && current.parent != null && current.options != res
      requires Descend(sc, correct, noInteract, tokens, pos, current, stack, arguments, opts, tree) == full
      modifies tree`options, current.options
      ensures root.options == res && Closed(tree)
      ensures stop.Some? ==> full == Failure(stop.value)
      ensures stop.None? ==> Resumes(sc, correct, noInteract, tokens, pos, root, tree, full, pos', current', stack', arguments', opts')
      ensures stop.None? ==> ((current' == current && stack' == stack && current.options == old(current.options)) || fresh(current'.options))
      ensures stop.None? && (current != root || root.HasCommands()) ==> res.keys == old(res.keys)
      ensures stop.None? && stack' != stack ==> current.HasCommands()
      ensures root.HasCommands() == old(root.HasCommands())
    {
      if current.HasCommands() {
        stop, pos', current', stack', arguments', opts' :=
          StepInto(sc, correct, noInteract, tokens, pos, current, stack, arguments, opts, res, tree, full);
      } else {
        stop, pos', current', stack', arguments', opts' :=
          StepAtLeaf(sc, correct, noInteract, tokens, pos, current, stack, arguments, opts, res, tree, full);
      }
    }

    /** A turn of the loop at a command with subcommands: the token names
        the next command, the parser moves past it and reads the next
        command's options, and that command is pushed and becomes current.
        `full` is what the whole loop comes to. */
    method StepInto(sc: Scanner, correct: (string, seq<string>) -> Option<string>, noInteract: bool,
                     tokens: seq<string>, pos: nat, current: Command, stack: seq<Command>,
                     arguments: seq<string>, ghost opts: map<string, Value>, res: OptionResult,
                     ghost tree: set<Command>, ghost full: Result<Descent>)
      returns (stop: Option<Error>, pos': nat, current': Command, stack': seq<Command>,
               arguments': seq<string>, ghost opts': map<string, Value>)
      requires ScannerOk(sc) && pos < |tokens| && Closed(tree) && current in tree && root in tree
      requires root.parent == null && root.options == res && current.options.keys == opts
      requires |stack| == 0 ==> current == root
      requires |stack| > 0 ==> current == stack[|stack| - 1] && current.parent != null && current.options != res
      requires current.HasCommands()
      requires Descend(sc, correct, noInteract, tokens, pos, current, stack, arguments, opts, tree) == full
      modifies tree`options
      ensures root.options == res && Closed(tree)
      ensures stop.Some? ==> full == Failure(stop.value)
      ensures stop.None? ==> Resumes(sc, correct, noInteract, tokens, pos, root, tree, full, pos', current', stack', arguments', opts')
      ensures stop.None? ==> fresh(current'.options) && res.keys == old(res.keys)
      ensures root.HasCommands() == old(root.HasCommands())
    {
      var p := Pick(current, correct, noInteract, tokens[pos]);
      if p.Failure? {
        return Some(p.error), pos, current, stack, arguments, opts;
      }
      var next := current.GetCommand(p.value);
      if next.Failure? {
        return Some(next.error), pos, current, stack, arguments, opts;
      }
      ChildInTree(tree, current, p.value);
      var st := sc.continueParse(next.value.specs, tokens, pos + 1);
      if st.Failure? {
        return Some(st.error), pos, current, stack, arguments, opts;
      }
      EnterStep(sc, correct, noInteract, tokens, pos, current, stack, arguments, opts, p.value, next.value, st.value, tree, full);
      return None, st.value.pos, next.value, stack + [next.value], arguments, st.value.options;
    }

    /** A turn of the loop at a command without subcommands: options the
        parser reads are merged into the current ones; when it reads none,
        the token where it stopped becomes an argument. */
    method StepAtLeaf(sc: Scanner, correct: (string, seq<string>) -> Option<string>, noInteract: bool,
                     tokens: seq<string>, pos: nat, current: Command, stack: seq<Command>,
                     arguments: seq<string>, ghost opts: map<string, Value>, res: OptionResult,
                     ghost tree: set<Command>, ghost full: Result<Descent>)
      returns (stop: Option<Error>, pos': nat, current': Command, stack': seq<Command>,
               arguments': seq<string>, ghost opts': map<string, Value>)
      requires ScannerOk(sc) && pos < |tokens| && Closed(tree) && current in tree && root in tree
      requires root.options == res && current.options.keys == opts
      requires |stack| == 0 ==> current == root
      requires |stack| > 0 ==> current == stack[|stack| - 1] && current.parent != null && current.options != res
      requires !current.HasCommands()
      requires Descend(sc, correct, noInteract, tokens, pos, current, stack, arguments, opts, tree) == full
      modifies current.options
      ensures root.options == res && Closed(tree)
      ensures current' == current && stack' == stack && current.options == old(current.options)
      ensures stop.Some? ==> full == Failure(stop.value)
      ensures stop.None? ==> Resumes(sc, correct, noInteract, tokens, pos, root, tree, full, pos', current', stack', arguments', opts')
      ensures current != root ==> res.keys == old(res.keys)
      ensures root.HasCommands() == old(root.HasCommands())
    {
      current', stack' := current, stack;
      LeafStep(sc, correct, noInteract, tokens, pos, current, stack, arguments, opts, tree);
      var st := sc.continueParse(current.specs, tokens, pos);
      if st.Failure? {
        return Some(st.error), pos, current', stack', arguments, opts;
      }
      if |st.value.options| > 0 {
        MergeStep(sc, correct, noInteract, tokens, pos, current, stack, arguments, opts, st.value, tree, full);
        return None, st.value.pos, current', stack', arguments, opts + st.value.options;
      }
      return None, st.value.pos + 1, current', stack', arguments + [tokens[st.value.pos]], opts;
    }

    /** The options a parse at a leaf read are merged into the leaf's
        result, and the loop goes on from where that parse stopped. */
    method MergeStep(sc: Scanner, correct: (string, seq<string>) -> Option<string>, noInteract: bool,
                     tokens: seq<string>, pos: nat, current: Command, stack: seq<Command>,
                     arguments: seq<string>, ghost opts: map<string, Value>, st: Scan,
                     ghost tree: set<Command>, ghost full: Result<Descent>)
      requires ScannerOk(sc) && pos < |tokens| && Closed(tree) && current in tree
      requires current.options.keys == opts && !current.HasCommands()
      requires sc.continueParse(current.specs, tokens, pos) == Success(st) && |st.options| > 0
      requires Descend(sc, correct, noInteract, tokens, pos, current, stack, arguments, opts, tree) == full
      modifies current.options
      ensures current.options.keys == opts + st.options && Closed(tree)
      ensures pos < st.pos <= |tokens|
      ensures Descend(sc, correct, noInteract, tokens, st.pos, current, stack, arguments, opts + st.options, tree) == full
    {
      LeafStep(sc, correct, noInteract, tokens, pos, current, stack, arguments, opts, tree);
      var more := new OptionResult();
      more.keys := st.options;
      current.options.Merge(more);
    }

    /** The command a token named gets the option result its own parse
        read, and the loop goes on at that command. */
    method EnterStep(sc: Scanner, correct: (string, seq<string>) -> Option<string>, noInteract: bool,
                     tokens: seq<string>, pos: nat, current: Command, stack: seq<Command>,
                     arguments: seq<string>, ghost opts: map<string, Value>, name: string, next: Command,
                     st: Scan, ghost tree: set<Command>, ghost full: Result<Descent>)
      requires ScannerOk(sc) && pos < |tokens| && Closed(tree) && current in tree && next in tree
      requires current.HasCommands() && Pick(current, correct, noInteract, tokens[pos]) == Success(name)
      requires current.GetCommand(name) == Success(next)
      requires sc.continueParse(next.specs, tokens, pos + 1) == Success(st)
      requires Descend(sc, correct, noInteract, tokens, pos, current, stack, arguments, opts, tree) == full
      modifies next`options
      ensures fresh(next.options) && next.options.keys == st.options && Closed(tree)
      ensures pos < st.pos <= |tokens|
      ensures Descend(sc, correct, noInteract, tokens, st.pos, next, stack + [next], arguments, st.options, tree) == full
    {
      assert Moves(st, pos + 1, |tokens|);
      assert Descend(sc, correct, noInteract, tokens, st.pos, next, stack + [next], arguments, st.options, tree) == full;
      var o := new OptionResult();
      o.keys := st.options;
      next.SetOptions(o);
    }
  }
}

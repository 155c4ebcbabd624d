/** The command tree (src/CommandTrait.php, src/Command.php): the table of
    subcommands and their aliases, the name trace up the parent chain, the
    declared positional arguments, the extension hooks and the checks
    `executeWrapper` makes before a command runs. */
module Commands {

  import opened Base
  import opened Strings
  import opened OptionSpecs
  import opened OptionResults
  import opened CommandArgument

  /** `Application::NAME`, the name the application node answers. */
  const ApplicationName: string := "Hail-Console"

  /** What PHP raises when `bind` calls `config()` on a missing application. */
  const ConfigOnNull: string := "Call to a member function config() on null"

  const NotExtensionClass: string := "Not an extension class name."
  const NotExtensionObject: string := "Not an extension object."

  /** An extension object: its class name and what `isAvailable()` answers.
      Its own hooks are not part of this model; only the calls to them are. */
  datatype Extension = Extension(className: string, available: bool)

  /** An extension after `bind`: it holds the application's configuration. */
  datatype BoundExtension = Bound(ext: Extension, config: map<string, Value>)

  /** The argument of `extension($x)`: a class name, an extension object or
      any other object. */
  datatype ExtensionArg = ClassName(name: string) | ExtensionObject(e: Extension) | OtherObject

  datatype Stage = PrepareStage | ExecuteStage | FinishStage

  /** What a command does that can be observed: a call of an extension's
      hook, its own `execute`, or the error it logs for a refused argument. */
  datatype Event =
    | Hook(stage: Stage, ext: Extension)
    | Executed(command: string, args: seq<Value>)
    | InvalidArgumentLogged(value: Value)

  /** The calls of one hook on every extension, in registration order. */
  function HookEvents(stage: Stage, exts: seq<BoundExtension>): (r: seq<Event>)
    ensures |r| == |exts|
    ensures forall i :: 0 <= i < |exts| ==> r[i] == Hook(stage, exts[i].ext)
  {
    seq(|exts|, i requires 0 <= i < |exts| => Hook(stage, exts[i].ext))
  }

  /** A registered extension is reached after all the earlier ones. */
  lemma HookEventsAppend(stage: Stage, exts: seq<BoundExtension>, b: BoundExtension)
    ensures HookEvents(stage, exts + [b]) == HookEvents(stage, exts) + [Hook(stage, b.ext)]
  {
  }

  /** Names starting with `_` are hidden. Reading `$name[0]` of an empty
      name gives the empty string, so the empty name is visible. */
  predicate IsHidden(name: string)
  {
    |name| > 0 && name[0] == '_'
  }

  /** The visible names, in the order given. */
  function VisibleNames(names: seq<string>): (r: seq<string>)
  {
    if |names| == 0 then []
    else
      var last := names[|names| - 1];
      VisibleNames(names[..|names| - 1]) + (if IsHidden(last) then [] else [last])
  }

  /** A name is listed exactly when it is registered and visible. */
  lemma {:induction false} VisibleNamesMembers(names: seq<string>, x: string)
    ensures x in VisibleNames(names) <==> x in names && !IsHidden(x)
  {
    if |names| > 0 {
      var init := names[..|names| - 1];
      VisibleNamesMembers(init, x);
      assert names == init + [names[|names| - 1]];
    }
  }

  /** Filtering keeps the registration order. */
  lemma {:induction false} VisibleNamesAppend(a: seq<string>, b: seq<string>)
    ensures VisibleNames(a + b) == VisibleNames(a) + VisibleNames(b)
    decreases |b|
  {
    if |b| == 0 {
      assert a + b == a;
    } else {
      var init := b[..|b| - 1];
      VisibleNamesAppend(a, init);
      assert (a + b)[..|a + b| - 1] == a + init;
    }
  }

  /** The command that `getCommand` answers: an alias first, then a name. */
  function Lookup(commands: map<string, Command>, aliases: map<string, Command>, x: string): (r: Option<Command>)
    ensures r.None? <==> x !in commands && x !in aliases
    ensures x in aliases ==> r == Some(aliases[x])
  {
    if x in aliases then Some(aliases[x])
    else if x in commands then Some(commands[x])
    else None
  }

  /** Each alias of a command, pointing at it. */
  function AliasMap(names: seq<string>, cmd: Command): (m: map<string, Command>)
    ensures m.Keys == set n | n in names
    ensures forall n :: n in m ==> m[n] == cmd
  {
    map n | n in names :: cmd
  }

  /** The `foreach ($cmd->aliases as $alias)` loop of `connectCommand`:
      each alias in turn is pointed at the command. */
  method AddAliases(table: map<string, Command>, names: seq<string>, cmd: Command) returns (t: map<string, Command>)
    ensures t == table + AliasMap(names, cmd)
  {
    t := table;
    for i := 0 to |names|
      invariant t == table + AliasMap(names[..i], cmd)
    {
      assert names[..i + 1] == names[..i] + [names[i]];
      t := t[names[i] := cmd];
    }
    assert names[..|names|] == names;
  }

  /** After `connectCommand`, the new command is found under its name and
      each of its aliases, except that an alias registered earlier keeps
      winning over a name; every other token finds what it found before. */
  lemma ConnectLookup(commands: map<string, Command>, aliases: map<string, Command>, cmd: Command, x: string)
    ensures var r := Lookup(commands[cmd.name := cmd], aliases + AliasMap(cmd.aliasNames, cmd), x);
      && (x in cmd.aliasNames ==> r == Some(cmd))
      && (x !in cmd.aliasNames && x in aliases ==> r == Some(aliases[x]))
      && (x !in cmd.aliasNames && x !in aliases && x == cmd.name ==> r == Some(cmd))
      && (x !in cmd.aliasNames && x != cmd.name ==> r == Lookup(commands, aliases, x))
  {
  }

  /** The non-application commands from `p` up to the root, nearest first:
      the order in which `getCommandNameTraceArray` collects them. */
  function Up(p: Command?): (r: seq<string>)
    requires p == null || p.ChainOk()
    decreases if p == null then 0 else p.depth + 1
  {
    if p == null then []
    else (if p.isApplication then [] else [p.name]) + Up(p.parent)
  }

  /** The same commands, root first. */
  function Ancestry(p: Command?): (r: seq<string>)
    requires p == null || p.ChainOk()
    decreases if p == null then 0 else p.depth + 1
  {
    if p == null then []
    else Ancestry(p.parent) + (if p.isApplication then [] else [p.name])
  }

  lemma {:induction false} ReverseUp(p: Command?)
    requires p == null || p.ChainOk()
    ensures Reverse(Up(p)) == Ancestry(p)
    decreases if p == null then 0 else p.depth + 1
  {
    if p != null {
      ReverseUp(p.parent);
      var own := if p.isApplication then [] else [p.name];
      ReverseAppend(own, Up(p.parent));
      assert Reverse(own) == own;
    }
  }

  lemma {:induction false} ReverseAppend<T>(a: seq<T>, b: seq<T>)
    ensures Reverse(a + b) == Reverse(b) + Reverse(a)
    decreases |a|
  {
    if |a| == 0 {
      assert a + b == b;
    } else {
      ReverseAppend(a[1..], b);
      assert (a + b)[1..] == a[1..] + b;
    }
  }

  /** The trace of a child is its parent's trace followed by its own name;
      when the parent is the application, the application's own name is
      dropped. */
  lemma ChildTrace(c: Command)
    requires c.ChainOk() && c.parent != null
    ensures !c.parent.isApplication ==> c.Trace() == c.parent.Trace() + [c.name]
    ensures c.parent.isApplication ==>
      c.Trace() == c.parent.Trace()[..|c.parent.Trace()| - 1] + [c.name]
  {
    var p := c.parent;
    assert p.ChainOk();
    assert p.Trace()[..|p.Trace()| - 1] == Ancestry(p.parent);
  }

  /** Directly below the root application a command's trace is its own
      name alone. */
  lemma TraceUnderApplication(c: Command)
    requires c.ChainOk() && c.parent != null && c.parent.isApplication && c.parent.parent == null
    ensures c.Trace() == [c.name]
  {
    assert Ancestry(c.parent) == Ancestry(null) + [];
  }

  /** A command node: the application itself (`isApplication`) or a
      subcommand below it. */
  class Command {
    /** `name()`; for a subcommand it is derived from its class name by code
        that is not part of this model. */
    const name: string
    /** `aliases()`. */
    const aliasNames: seq<string>
    const isApplication: bool
    const parent: Command?
    /** Distance from the root, so that walks up the parents end. */
    ghost const depth: nat
    /** The application's configuration (empty on subcommands). */
    const config: map<string, Value>
    /** The number of required parameters of `execute`, which the source
        reads by reflection. */
    const requiredCount: nat

    /** `$commands`: its keys in registration order, and the table. */
    var commandNames: seq<string>
    var commands: map<string, Command>
    var aliases: map<string, Command>
    var options: OptionResult
    /** The option collection, as the unseen `OptionCollection::add` built it. */
    var specs: Specs
    var arguments: seq<Argument>
    var argumentNames: map<Key, Argument>
    var extensions: seq<BoundExtension>
    /** `Command::$application`, the memo of `getApplication`. */
    var application: Command?

    ghost predicate ChainOk()
      decreases depth
    {
      parent == null || (parent.depth < depth && parent.ChainOk())
    }

    /** The keys of the table are the registered names, each once. */
    ghost predicate Registry()
      reads this`commandNames, this`commands
    {
      && (forall i, j :: 0 <= i < j < |commandNames| ==> commandNames[i] != commandNames[j])
      && (forall n :: n in commandNames <==> n in commands)
    }

    /** Every declared argument is a distinct object. */
    ghost predicate Distinct()
      reads this`arguments
    {
      forall i, j :: 0 <= i < j < |arguments| ==> arguments[i] != arguments[j]
    }

    /** `new SomeCommand($parent)`: the parent is kept, the option result
        starts empty, nothing is registered. */
    constructor(name: string, aliasNames: seq<string>, parent: Command?, requiredCount: nat, specs: Specs)
      requires parent != null ==> parent.ChainOk()
      ensures this.name == name && this.aliasNames == aliasNames && this.parent == parent
      ensures !isApplication && this.requiredCount == requiredCount && this.specs == specs
      ensures config == map[] && application == null
      ensures commandNames == [] && commands == map[] && aliases == map[]
      ensures arguments == [] && argumentNames == map[] && extensions == []
      ensures fresh(options) && options.keys == map[] && options.arguments == []
      ensures ChainOk() && Registry() && Distinct()
    {
      this.name := name;
      this.aliasNames := aliasNames;
      this.parent := parent;
      depth := if parent == null then 0 else parent.depth + 1;
      isApplication := false;
      config := map[];
      this.requiredCount := requiredCount;
      commandNames := [];
      commands := map[];
      aliases := map[];
      options := new OptionResult();
      this.specs := specs;
      arguments := [];
      argumentNames := map[];
      extensions := [];
      application := null;
    }

    /** `new Application($config)`: the root, named `Hail-Console`. Its
        `execute(...$arguments)` has no required parameter. */
    constructor Application(config: map<string, Value>, specs: Specs)
      ensures name == ApplicationName && aliasNames == [] && parent == null && isApplication
      ensures this.config == config && requiredCount == 0 && this.specs == specs
      ensures commandNames == [] && commands == map[] && aliases == map[]
      ensures arguments == [] && argumentNames == map[] && extensions == [] && application == null
      ensures fresh(options) && options.keys == map[] && options.arguments == []
      ensures ChainOk() && Registry() && Distinct()
    {
      name := ApplicationName;
      aliasNames := [];
      parent := null;
      depth := 0;
      isApplication := true;
      this.config := config;
      requiredCount := 0;
      commandNames := [];
      commands := map[];
      aliases := map[];
      options := new OptionResult();
      this.specs := specs;
      arguments := [];
      argumentNames := map[];
      extensions := [];
      application := null;
    }

    /** This node and all its ancestors. */
    ghost function Lineage(): (s: set<Command>)
      requires ChainOk()
      ensures this in s
      ensures forall o :: o in s ==> o.depth <= depth
      decreases depth
    {
      {this} + (if parent == null then {} else parent.Lineage())
    }

    /** The application above (or at) this node, if any. */
    function ApplicationOf(): (r: Command?)
      requires ChainOk()
      ensures r != null ==> r.isApplication
      decreases depth
    {
      if isApplication then this
      else if parent == null then null
      else parent.ApplicationOf()
    }

    /** A memo, once set, holds the right answer. */
    ghost predicate MemoOk()
      requires ChainOk()
      reads this`application
    {
      application == null || application == ApplicationOf()
    }

    ghost predicate LineageMemoOk()
      requires ChainOk()
      reads Lineage()`application
      decreases depth
    {
      MemoOk() && (parent != null ==> parent.LineageMemoOk())
    }

    /** `getApplication()`: the application node answers itself; a command
        answers its memo when set, otherwise asks its parent and keeps the
        answer, and answers null without a parent. Memoisation never
        changes the answer. */
    method GetApplication() returns (app: Command?)
      requires ChainOk() && LineageMemoOk()
      modifies Lineage()`application
      ensures app == ApplicationOf() && LineageMemoOk()
      ensures isApplication ==> app == this && application == old(application)
      ensures !isApplication && old(application) != null ==> app == old(application) && application == old(application)
      ensures !isApplication && old(application) == null && parent == null ==> app == null
      ensures !isApplication && old(application) == null ==> application == app
      decreases depth
    {
      if isApplication {
        return this;
      }
      if application != null {
        return application;
      }
      if parent != null {
        app := parent.GetApplication();
        assert this !in parent.Lineage();
        application := app;
        return app;
      }
      return null;
    }

    /** `hasCommands()`. */
    function HasCommands(): (b: bool)
      reads this`commands
      ensures b <==> exists n :: n in commands
    {
      assert |commands| > 0 ==> (var n :| n in commands; n in commands);
      |commands| > 0
    }

    /** `hasCommand($x)`: a registered name or alias. */
    function HasCommand(x: string): (b: bool)
      reads this`commands, this`aliases
      ensures b <==> Lookup(commands, aliases, x).Some?
    {
      x in commands || x in aliases
    }

    /** `getCommand($x)`: aliases are consulted before names; anything else
        raises CommandNotFoundException. */
    function GetCommand(x: string): (r: Result<Command>)
      reads this`commands, this`aliases
      ensures r.Failure? <==> !HasCommand(x)
      ensures r.Failure? ==> r.error == CommandNotFound(x)
      ensures r.Success? ==> Lookup(commands, aliases, x) == Some(r.value)
    {
      if x in aliases then Success(aliases[x])
      else if x in commands then Success(commands[x])
      else Failure(CommandNotFound(x))
    }

    /** `connectCommand($cmd)`: registers the command under its name (a new
        name goes to the end of the list, a known one keeps its place) and
        under each of its aliases. */
    method ConnectCommand(cmd: Command)
      requires Registry()
      modifies this`commandNames, this`commands, this`aliases
      ensures Registry()
      ensures commands == old(commands)[cmd.name := cmd]
      ensures commandNames == if cmd.name in old(commands) then old(commandNames) else old(commandNames) + [cmd.name]
      ensures aliases == old(aliases) + AliasMap(cmd.aliasNames, cmd)
    {
      if cmd.name !in commands {
        assert cmd.name !in commandNames;
        commandNames := commandNames + [cmd.name];
      }
      commands := commands[cmd.name := cmd];
      aliases := AddAliases(aliases, cmd.aliasNames, cmd);
    }

    /** `getCommandList()`: the registered names in registration order. */
    function GetCommandList(): (r: seq<string>)
      reads this`commandNames, this`commands
      requires Registry()
      ensures forall n :: n in r <==> n in commands
    {
      commandNames
    }

    /** `getVisibleCommands()`: the registered commands whose name does not
        start with `_`, in registration order. */
    method GetVisibleCommands() returns (names: seq<string>, table: map<string, Command>)
      requires Registry()
      ensures names == VisibleNames(commandNames)
      ensures forall n :: n in table <==> n in commands && !IsHidden(n)
      ensures forall n :: n in table ==> table[n] == commands[n]
    {
      names := [];
      table := map[];
      for i := 0 to |commandNames|
        invariant names == VisibleNames(commandNames[..i])
        invariant forall n :: n in table <==> n in commandNames[..i] && !IsHidden(n)
        invariant forall n :: n in table ==> table[n] == commands[n]
      {
        var n := commandNames[i];
        assert commandNames[..i + 1][..i] == commandNames[..i];
        assert commandNames[..i + 1] == commandNames[..i] + [n];
        if !IsHidden(n) {
          names := names + [n];
          table := table[n := commands[n]];
        }
      }
      assert commandNames[..|commandNames|] == commandNames;
    }

    /** `getVisibleCommandList()`: the names of the visible commands. */
    method GetVisibleCommandList() returns (names: seq<string>)
      requires Registry()
      ensures names == VisibleNames(commandNames)
      ensures forall n :: n in names <==> n in commands && !IsHidden(n)
    {
      var table;
      names, table := GetVisibleCommands();
      forall n ensures n in names <==> n in commands && !IsHidden(n) {
        VisibleNamesMembers(commandNames, n);
      }
    }

    /** The names from the root down to this command, application nodes
        left out. */
    ghost function Trace(): (r: seq<string>)
      requires ChainOk()
    {
      Ancestry(parent) + [name]
    }

    /** `getCommandNameTraceArray()`: collects this name and then the names
        of the non-application parents walking up, and reverses the list. */
    method GetCommandNameTraceArray() returns (r: seq<string>)
      requires ChainOk()
      ensures r == Trace()
      ensures |r| > 0 && r[|r| - 1] == name
    {
      var stack := [name];
      var p := parent;
      while p != null
        invariant p == null || p.ChainOk()
        invariant stack + Up(p) == [name] + Up(parent)
        decreases if p == null then 0 else p.depth + 1
      {
        if !p.isApplication {
          stack := stack + [p.name];
        }
        p := p.parent;
      }
      r := Reverse(stack);
      ReverseUp(parent);
      ReverseAppend([name], Up(parent));
    }

    /** `getSignature()`: the trace joined with dots. */
    method GetSignature() returns (s: string)
      requires ChainOk()
      ensures s == Join(Trace(), ".")
    {
      var trace := GetCommandNameTraceArray();
      s := Join(trace, ".");
    }

    /** `addArgument($spec, $desc)`: the declaration is appended to the
        list and indexed by its name, as a PHP array key, replacing an
        earlier one of that name; a spec without a name raises. */
    method AddArgument(spec: string, desc: Option<string>) returns (r: Result<Argument>)
      requires Distinct()
      modifies this`arguments, this`argumentNames
      ensures Distinct()
      ensures r.Failure? <==> ParseSpec(spec).Failure?
      ensures r.Failure? ==>
        r.error == ParseSpec(spec).error && arguments == old(arguments) && argumentNames == old(argumentNames)
      ensures r.Success? ==>
        && fresh(r.value) && r.value.name == ParseSpec(spec).value.name
        && arguments == old(arguments) + [r.value]
        && argumentNames == old(argumentNames)[NormalizeKey(StrKey(r.value.name)) := r.value]
    {
      r := NewArgument(spec, desc);
      if r.Success? {
        arguments := arguments + [r.value];
        argumentNames := argumentNames[NormalizeKey(StrKey(r.value.name)) := r.value];
      }
    }

    /** `findArgument($key)`: by name first, then by position, else null;
        `$key` is taken as a PHP array key, so "1" and 1 are the same key. */
    function FindArgument(key: Key): (r: Argument?)
      reads this`argumentNames, this`arguments
      ensures NormalizeKey(key) in argumentNames ==> r == argumentNames[NormalizeKey(key)]
      ensures NormalizeKey(key) !in argumentNames ==>
        (r != null <==> NormalizeKey(key).IntKey? && 0 <= NormalizeKey(key).i < |arguments|)
      ensures NormalizeKey(key) !in argumentNames && r != null ==> r == arguments[NormalizeKey(key).i]
    {
      var k := NormalizeKey(key);
      if k in argumentNames then argumentNames[k]
      else if k.IntKey? && 0 <= k.i < |arguments| then arguments[k.i]
      else null
    }

    /** `getArgument($key)`: the stored value of the argument found, or null. */
    function GetArgument(key: Key): (v: Value)
      reads this`argumentNames, this`arguments, FindArgument(key)
      ensures FindArgument(key) == null ==> v == Null
      ensures FindArgument(key) != null ==> v == FindArgument(key).value
    {
      var a := FindArgument(key);
      if a == null then Null else a.GetValue()
    }

    /** `getOption($key)`: the option recorded under exactly `$key`, else
        null (the kebab-case fallback of `get` is never reached). */
    function GetOption(key: string): (v: Value)
      reads this`options, options
      ensures key in options.keys ==> v == options.keys[key]
      ensures key !in options.keys ==> v == Null
    {
      if options.Has(key) then options.Get(key) else Null
    }

    method SetOptions(o: OptionResult)
      modifies this`options
      ensures options == o
    {
      options := o;
    }

    /** `addOption($spec, $desc, $key)`: the collection's `add` is not part
        of this model and is passed in. */
    method AddOption(add: (Specs, string) -> Specs, spec: string)
      modifies this`specs
      ensures specs == add(old(specs), spec)
    {
      specs := add(specs, spec);
    }

    /** `prepare()`: every extension's `prepare`, in registration order. */
    method Prepare() returns (events: seq<Event>)
      ensures events == HookEvents(PrepareStage, extensions)
    {
      events := RunHooks(PrepareStage);
    }

    /** `finish()`: every extension's `finish`, in registration order. */
    method Finish() returns (events: seq<Event>)
      ensures events == HookEvents(FinishStage, extensions)
    {
      events := RunHooks(FinishStage);
    }

    method RunHooks(stage: Stage) returns (events: seq<Event>)
      ensures events == HookEvents(stage, extensions)
    {
      events := [];
      for i := 0 to |extensions|
        invariant events == HookEvents(stage, extensions[..i])
      {
        events := events + [Hook(stage, extensions[i].ext)];
      }
      assert extensions[..|extensions|] == extensions;
    }

    /** `addExtension($e)`: an unavailable extension raises and is not
        added; otherwise it is bound to this command — which reads the
        application's configuration and raises when there is no
        application — and appended to the list. */
    method AddExtension(e: Extension) returns (err: Option<Error>)
      requires ChainOk() && LineageMemoOk() && !isApplication
      modifies this`extensions, Lineage()`application
      ensures LineageMemoOk()
      ensures !e.available ==>
        err == Some(ExtensionError("Extension " + e.className + " is not available")) && extensions == old(extensions)
      ensures e.available && ApplicationOf() == null ==>
        err == Some(NullCall(ConfigOnNull)) && extensions == old(extensions)
      ensures e.available && ApplicationOf() != null ==>
        err == None && extensions == old(extensions) + [Bound(e, ApplicationOf().config)]
    {
      if !e.available {
        return Some(ExtensionError("Extension " + e.className + " is not available"));
      }
      var app := GetApplication();
      if app == null {
        return Some(NullCall(ConfigOnNull));
      }
      extensions := extensions + [Bound(e, app.config)];
      return None;
    }

    /** `extension($x)`: a class name must name an extension class (`load`
        gives the object `new $x()` makes, or None when it is not an
        extension class); any other object must be an extension. */
    method AddExtensionArg(x: ExtensionArg, load: string -> Option<Extension>) returns (err: Option<Error>)
      requires ChainOk() && LineageMemoOk() && !isApplication
      modifies this`extensions, Lineage()`application
      ensures LineageMemoOk()
      ensures x.OtherObject? ==> err == Some(ExtensionError(NotExtensionObject)) && extensions == old(extensions)
      ensures x.ClassName? && load(x.name).None? ==>
        err == Some(ExtensionError(NotExtensionClass)) && extensions == old(extensions)
      ensures var e := if x.ExtensionObject? then Some(x.e) else if x.ClassName? then load(x.name) else None;
        e.Some? ==>
          && (!e.value.available ==>
                err == Some(ExtensionError("Extension " + e.value.className + " is not available"))
                && extensions == old(extensions))
          && (e.value.available && ApplicationOf() == null ==> err == Some(NullCall(ConfigOnNull)) && extensions == old(extensions))
          && (e.value.available && ApplicationOf() != null ==>
                err == None && extensions == old(extensions) + [Bound(e.value, ApplicationOf().config)])
    {
      match x
      case OtherObject =>
        return Some(ExtensionError(NotExtensionObject));
      case ClassName(n) =>
        var e := load(n);
        if e.None? {
          return Some(ExtensionError(NotExtensionClass));
        }
        err := AddExtension(e.value);
      case ExtensionObject(e) =>
        err := AddExtension(e);
    }

    /** How the values bind to the declared arguments from position `k` on:
        a position without a value (or with null) is skipped when its
        argument is optional and stops the binding when it is required; a
        value is replaced by what validation makes of it, and a refused
        value stops the binding. */
    function Bind(vt: (Value, string, Value) -> TypeTest, args: seq<Value>, k: nat): (b: Binding)
      requires k <= |arguments|
      reads this`arguments, arguments`isa, arguments`isaOption, arguments`validValues,
        arguments`validator, arguments`optional
      ensures b.Missing? ==>
        k <= b.pos < |arguments| && arguments[b.pos].IsRequired() && !(b.pos < |args| && args[b.pos] != Null)
      ensures b.Rejected? ==>
        k <= b.pos < |arguments| && b.pos < |args| && b.value == args[b.pos] && b.value != Null
        && arguments[b.pos].Validated(vt, b.value).None?
      ensures b.AllBound? ==> |b.args| == |args| && forall j :: 0 <= j < k && j < |args| ==> b.args[j] == args[j]
      decreases |arguments| - k
    {
      if k == |arguments| then AllBound(args)
      else if !(k < |args| && args[k] != Null) then
        (if arguments[k].IsRequired() then Missing(k) else Bind(vt, args, k + 1))
      else
        match arguments[k].Validated(vt, args[k])
        case None => Rejected(k, args[k])
        case Some(w) => Bind(vt, args[k := w], k + 1)
    }

    /** `executeWrapper($args)`: binds the values to the declared arguments
        (`BindArguments` stores each accepted value in its argument); a missing required
        one raises RequireValueException, a refused one is logged and
        nothing runs; then too few values for `execute`'s required
        parameters raise, and otherwise every extension's `execute` runs,
        in registration order, before the command's own. */
    method ExecuteWrapper(vt: (Value, string, Value) -> TypeTest, args: seq<Value>)
      returns (events: seq<Event>, err: Option<Error>)
      requires Distinct()
      modifies arguments`value
      ensures (events, err) == WrapperOutcome(vt, args)
    {
      var b := BindArguments(vt, args);
      match b
      case Missing(k) =>
        return [], Some(RequireValue(RequireMessage(k, arguments[k].name)));
      case Rejected(_, v) =>
        return [InvalidArgumentLogged(v)], None;
      case AllBound(bound) =>
        if |bound| < requiredCount {
          return [], Some(ArgumentNotEnough(|bound|, requiredCount));
        }
        events := RunHooks(ExecuteStage);
        events := events + [Executed(name, bound)];
        err := None;
    }

    /** The events and the exception of `executeWrapper($args)`. */
    function WrapperOutcome(vt: (Value, string, Value) -> TypeTest, args: seq<Value>): (seq<Event>, Option<Error>)
      reads this`arguments, arguments`isa, arguments`isaOption, arguments`validValues,
        arguments`validator, arguments`optional, arguments`name, this`extensions
    {
      match Bind(vt, args, 0)
      case Missing(k) => ([], Some(RequireValue(RequireMessage(k, arguments[k].name))))
      case Rejected(_, v) => ([InvalidArgumentLogged(v)], None)
      case AllBound(bound) =>
        if |bound| < requiredCount then ([], Some(ArgumentNotEnough(|bound|, requiredCount)))
        else (HookEvents(ExecuteStage, extensions) + [Executed(name, bound)], None)
    }

    /** What `executeWrapper` does, case by case: a missing required value
        raises RequireValueException naming the argument, a refused value is
        logged and nothing runs, too few values raise
        CommandArgumentNotEnoughException, and otherwise the extensions'
        `execute` hooks run before the command's own `execute`. */
    lemma WrapperOutcomeCases(vt: (Value, string, Value) -> TypeTest, args: seq<Value>)
      ensures var b := Bind(vt, args, 0);
        var (events, err) := WrapperOutcome(vt, args);
        && (b.Missing? ==>
              events == [] && err == Some(RequireValue(RequireMessage(b.pos, arguments[b.pos].name))))
        && (b.Rejected? ==> events == [InvalidArgumentLogged(b.value)] && err == None)
        && (b.AllBound? && |args| < requiredCount ==>
              events == [] && err == Some(ArgumentNotEnough(|args|, requiredCount)))
        && (b.AllBound? && |args| >= requiredCount ==>
              events == HookEvents(ExecuteStage, extensions) + [Executed(name, b.args)] && err == None)
    {
    }

    /** Position `j`, among the first `stop`, held a value. */
    predicate Accepted(vt: (Value, string, Value) -> TypeTest, args: seq<Value>, stop: nat, j: nat)
    {
      j < stop && j < |args| && args[j] != Null
    }

    /** Every argument whose position held a value, among the first `stop`,
        accepted it and stores what validation made of it. */
    ghost predicate Stored(vt: (Value, string, Value) -> TypeTest, args: seq<Value>, stop: nat)
      reads this`arguments, arguments`value, arguments`isa, arguments`isaOption, arguments`validValues,
        arguments`validator
    {
      forall j :: 0 <= j < |arguments| && Accepted(vt, args, stop, j) ==> arguments[j].Holds(vt, args[j])
    }

    /** What every argument stores. */
    ghost function ValuesOf(): (r: seq<Value>)
      reads this`arguments, arguments`value
      ensures |r| == |arguments| && forall j :: 0 <= j < |arguments| ==> r[j] == arguments[j].value
    {
      ValuesIn(arguments)
    }

    /** Arguments not among the accepted ones still store what they did. */
    ghost predicate Kept(vt: (Value, string, Value) -> TypeTest, args: seq<Value>, stop: nat, olds: seq<Value>)
      reads this`arguments, arguments`value
    {
      |olds| == |arguments| &&
      forall j :: 0 <= j < |arguments| && !Accepted(vt, args, stop, j) ==> arguments[j].value == olds[j]
    }

    /** The validation loop of `executeWrapper`. */
    method BindArguments(vt: (Value, string, Value) -> TypeTest, args: seq<Value>) returns (b: Binding)
      requires Distinct()
      modifies arguments`value
      ensures b == Bind(vt, args, 0)
      ensures Stored(vt, args, Reached(b, |arguments|))
      ensures Kept(vt, args, Reached(b, |arguments|), old(ValuesOf()))
    {
      ghost var olds := ValuesOf();
      ghost var full := Bind(vt, args, 0);
      var bound := args;
      var k := 0;
      while k < |arguments|
        invariant 0 <= k <= |arguments|
        invariant |bound| == |args|
        invariant forall j :: k <= j < |args| ==> bound[j] == args[j]
        invariant Bind(vt, bound, k) == full
        invariant Stored(vt, args, k) && Kept(vt, args, k, olds)
      {
        var stop;
        stop, bound := BindStep(vt, args, bound, k, olds, full);
        if stop.Some? {
          return stop.value;
        }
        k := k + 1;
      }
      return AllBound(bound);
    }

    /** One position of the validation loop. */
    method BindStep(vt: (Value, string, Value) -> TypeTest, args: seq<Value>, bound: seq<Value>, k: nat,
                    ghost olds: seq<Value>, ghost full: Binding)
      returns (stop: Option<Binding>, next: seq<Value>)
      requires Distinct() && k < |arguments| && |bound| == |args|
      requires forall j :: k <= j < |args| ==> bound[j] == args[j]
      requires Stored(vt, args, k) && Kept(vt, args, k, olds)
      requires Bind(vt, bound, k) == full
      modifies arguments`value
      ensures stop.Some? ==>
        && stop.value == full
        && Stored(vt, args, Reached(stop.value, |arguments|))
        && Kept(vt, args, Reached(stop.value, |arguments|), olds)
      ensures stop.None? ==>
        && Bind(vt, next, k + 1) == full
        && |next| == |args| && (forall j :: k + 1 <= j < |args| ==> next[j] == args[j])
        && Stored(vt, args, k + 1) && Kept(vt, args, k + 1, olds)
    {
      var a := arguments[k];
      next := bound;
      if !(k < |bound| && bound[k] != Null) {
        if a.IsRequired() {
          return Some(Missing(k)), next;
        }
        assert forall j :: Accepted(vt, args, k + 1, j) ==> Accepted(vt, args, k, j);
        return None, next;
      }
      label Before:
      var ok := a.Validate(vt, bound[k]);
      assert forall j :: 0 <= j < |arguments| && j != k ==> arguments[j] != a;
      if !ok {
        return Some(Rejected(k, bound[k])), next;
      }
      next := bound[k := a.value];
      return None, next;
    }
  }

  /** What each of the arguments stores. */
  ghost function ValuesIn(args: seq<Argument>): (r: seq<Value>)
    reads args`value
    ensures |r| == |args| && forall j :: 0 <= j < |args| ==> r[j] == args[j].value
  {
    if |args| == 0 then [] else ValuesIn(args[..|args| - 1]) + [args[|args| - 1].value]
  }

  /** When the binding from position `k` on gets through, every required
      argument had a value, every value given to a declared argument is what
      validation made of it, and every other position is passed on as given. */
  lemma {:induction false} BindAllBound(c: Command, vt: (Value, string, Value) -> TypeTest, args: seq<Value>, k: nat)
    requires k <= |c.arguments|
    ensures c.Bind(vt, args, k).AllBound? ==>
      forall j :: k <= j < |c.arguments| && c.arguments[j].IsRequired() ==> j < |args| && args[j] != Null
    ensures c.Bind(vt, args, k).AllBound? ==>
      forall j :: k <= j < |c.arguments| && j < |args| && args[j] != Null ==>
        c.arguments[j].Validated(vt, args[j]) == Some(c.Bind(vt, args, k).args[j])
    ensures c.Bind(vt, args, k).AllBound? ==>
      forall j :: 0 <= j < |args| && !(k <= j < |c.arguments| && args[j] != Null) ==>
        c.Bind(vt, args, k).args[j] == args[j]
    decreases |c.arguments| - k
  {
    if k < |c.arguments| {
      if !(k < |args| && args[k] != Null) {
        BindAllBound(c, vt, args, k + 1);
      } else if c.arguments[k].Validated(vt, args[k]).Some? {
        var w := c.arguments[k].Validated(vt, args[k]).value;
        BindAllBound(c, vt, args[k := w], k + 1);
      }
    }
  }

  /** Conversely, the binding gets through when every required argument from
      position `k` on has a value and validation accepts every value given. */
  lemma {:induction false} BindSucceeds(c: Command, vt: (Value, string, Value) -> TypeTest, args: seq<Value>, k: nat)
    requires k <= |c.arguments|
    requires forall j :: k <= j < |c.arguments| && c.arguments[j].IsRequired() ==> j < |args| && args[j] != Null
    requires forall j :: k <= j < |c.arguments| && j < |args| && args[j] != Null ==>
      c.arguments[j].Validated(vt, args[j]).Some?
    ensures c.Bind(vt, args, k).AllBound?
    decreases |c.arguments| - k
  {
    if k < |c.arguments| {
      if !(k < |args| && args[k] != Null) {
        BindSucceeds(c, vt, args, k + 1);
      } else {
        var w := c.arguments[k].Validated(vt, args[k]).value;
        BindSucceeds(c, vt, args[k := w], k + 1);
      }
    }
  }

  /** The message of the RequireValueException for position `k`. */
  function RequireMessage(k: nat, name: string): (m: string)
  {
    "Argument pos " + NatToString(k) + " '" + name + "' requires a value."
  }

  /** How many positions were looked at before the binding stopped. */
  function Reached(b: Binding, n: nat): (r: nat)
  {
    if b.AllBound? then n else b.pos
  }

  /** The outcome of checking the given values against the declared
      arguments: a required one is missing, one is refused, or all bind
      (with the values as validation converted them). */
  datatype Binding = Missing(pos: nat) | Rejected(pos: nat, value: Value) | AllBound(args: seq<Value>)
}

/** The console logger's state and its filtering decision (src/Logger.php):
    a numeric threshold, an indent counter and, per message, whether and in
    which style it is written. The writing itself is left to the caller. */
module Logging {

  import opened Base
  import opened Strings

  /** The PSR-3 level names with their numbers, most severe first. */
  const LogLevels: map<string, int> := map[
    "emergency" := 8, "alert" := 7, "critical" := 6, "error" := 5,
    "warning" := 4, "notice" := 3, "info" := 2, "debug" := 1]

  const LevelStyles: map<string, string> := map[
    "emergency" := "strong_red", "alert" := "strong_red", "critical" := "strong_red",
    "error" := "red", "warning" := "yellow", "notice" := "green",
    "info" := "green", "debug" := "white"]

  /** The threshold `setLevel(null)` installs: above every level, so nothing
      is written. */
  const Silenced: int := 9

  /** `getLevel($name)` for a name: its number, or null. */
  function LevelNumber(name: string): (r: Option<int>)
    ensures r.Some? <==> name in LogLevels
    ensures r.Some? ==> 1 <= r.value <= 8 && r.value == LogLevels[name]
  {
    if name in LogLevels then Some(LogLevels[name]) else None
  }

  /** What one `log` call does: nothing, or one write of the indent (possibly
      empty) followed by the message line in a style. */
  datatype LogOutput = Silent | Written(indentText: string, message: string, style: string)

  class Logger {
    var level: int
    var indent: int
    const indentCharacter: string

    constructor()
      ensures level == 3 && indent == 0 && indentCharacter == "  "
    {
      level := 3;
      indent := 0;
      indentCharacter := "  ";
    }

    /** `setLevel`: a known name sets its number, null silences, any other
        name leaves the threshold as it was. */
    method SetLevel(name: Option<string>)
      modifies this`level
      ensures name.None? ==> level == Silenced
      ensures name.Some? && name.value in LogLevels ==> level == LogLevels[name.value]
      ensures name.Some? && name.value !in LogLevels ==> level == old(level)
      ensures indent == old(indent)
    {
      if name.None? {
        level := Silenced;
      }
      // `$logLevels[null]` looks up the key "", which is not a level name
      var key := if name.Some? then name.value else "";
      if key in LogLevels {
        level := LogLevels[key];
      }
    }

    /** `getLevel()` without a name: the current threshold. */
    function GetLevel(): (r: int)
      reads this
      ensures r == level
    {
      level
    }

    method Indent(n: int)
      modifies this
      ensures indent == old(indent) + n
      ensures level == old(level)
    {
      indent := indent + n;
    }

    /** `unIndent($n)`: never below zero. */
    method UnIndent(n: int)
      modifies this
      ensures indent == if old(indent) - n > 0 then old(indent) - n else 0
      ensures indent >= 0
      ensures level == old(level)
    {
      indent := if indent - n > 0 then indent - n else 0;
    }

    method ResetIndent()
      modifies this
      ensures indent == 0 && level == old(level)
    {
      indent := 0;
    }

    /** The decision `log($name, $message)` takes before writing: an unknown
        level counts as debug; a message below the threshold is dropped; the
        notice level at the default threshold is dimmed; a non-zero indent is
        written first, and a negative one makes `str_repeat` throw. */
    function Log(name: string, message: string): (r: Result<LogOutput>)
      reads this
      ensures var n := if name in LogLevels then LogLevels[name] else 1;
        (r == Success(Silent) <==> n < level)
      ensures r.Success? && r.value.Written? ==>
        r.value.message == message &&
        (r.value.style == "dim" <==> level == 3 && ShownLevel(name) == 3)
      ensures r.Failure? <==> ShownLevel(name) >= level && indent < 0
    {
      var effective := if name in LogLevels then name else "debug";
      if LogLevels[effective] < level then Success(Silent)
      else
        var style := if level == 3 && LogLevels[effective] == 3 then "dim" else LevelStyles[effective];
        if indent == 0 then Success(Written("", message, style))
        else if indent < 0 then Failure(ValueError("str_repeat(): Argument #2 ($times) must be greater than or equal to 0"))
        else Success(Written(Repeat(indentCharacter, indent), message, style))
    }
  }

  /** The number a message is filtered by: its level's, or debug's. */
  function ShownLevel(name: string): (n: int)
    ensures 1 <= n <= 8
    ensures name !in LogLevels ==> n == 1
  {
    if name in LogLevels then LogLevels[name] else 1
  }

  /** Once silenced, the logger writes nothing, whatever the level. */
  lemma SilencedWritesNothing(l: Logger, name: string, message: string)
    requires l.level == Silenced
    ensures l.Log(name, message) == Success(Silent)
  {
  }

  /** A message is written exactly when its level is at or above the threshold,
      and then in the style of its level unless it is the dimmed notice. */
  lemma LogStyle(l: Logger, name: string, message: string)
    requires l.indent >= 0
    requires name in LogLevels && LogLevels[name] >= l.level
    requires !(l.level == 3 && LogLevels[name] == 3)
    ensures l.Log(name, message).Success?
    ensures l.Log(name, message).value == Written(
      if l.indent > 0 then Repeat(l.indentCharacter, l.indent) else "", message, LevelStyles[name])
  {
  }

  /** Unknown level names are treated like debug messages. */
  lemma UnknownIsDebug(l: Logger, name: string, message: string)
    requires name !in LogLevels
    ensures l.Log(name, message) == l.Log("debug", message)
  {
  }

  /** The indent written before a message is the indent character repeated
      once per level. */
  lemma LogIndentLength(l: Logger, name: string, message: string)
    requires l.Log(name, message).Success? && l.Log(name, message).value.Written?
    ensures |l.Log(name, message).value.indentText| == |l.indentCharacter| * l.indent
  {
  }
}

/** Classification of one raw command-line token (src/Option/Argument.php):
    long and short options, flag clusters such as `-abc`, and `name=value`
    tokens. */
module OptionToken {

  import opened Base
  import opened Strings

  /** `isLongOption`: the token starts with `--`. */
  predicate IsLongOption(arg: string)
  {
    |arg| >= 2 && arg[..2] == "--"
  }

  /** `isShortOption`: the first character is `-` and the second is not. A
      missing second character reads as "" in PHP, so `-` by itself counts. */
  predicate IsShortOption(arg: string)
  {
    |arg| >= 1 && arg[0] == '-' && (|arg| < 2 || arg[1] != '-')
  }

  predicate IsOption(arg: string)
  {
    IsShortOption(arg) || IsLongOption(arg)
  }

  /** A token is an option exactly when it starts with a dash. */
  lemma IsOptionIffDash(arg: string)
    ensures IsOption(arg) <==> |arg| > 0 && arg[0] == '-'
    ensures IsLongOption(arg) ==> !IsShortOption(arg)
  {
  }

  predicate IsEmpty(arg: string)
  {
    arg == ""
  }

  /** `getOptionName`: `/^[-]+([a-zA-Z0-9-]+)/`. After the leading dashes the
      name is the longest run of name characters; when no name character
      follows, the regex backtracks and a lone `-` is the name if there were
      at least two dashes. */
  function OptionName(arg: string): (r: Option<string>)
    ensures r.Some? ==> |r.value| > 0 && forall k :: 0 <= k < |r.value| ==> IsNameChar(r.value[k])
    ensures r.Some? ==> |arg| > 0 && arg[0] == '-'
  {
    var d := LeadingRun(arg, '-');
    var n := NameRun(arg[d..]);
    if d == 0 then None
    else if n > 0 then Some(arg[d..d + n])
    else if d >= 2 then Some("-")
    else None
  }

  /** The name is what follows the dashes, stopped by the first character
      that is not a name character: `--foo=bar` gives `foo`. */
  lemma OptionNameOfValueToken(name: string, value: string)
    requires |name| > 0 && IsAlnum(name[0])
    requires forall k :: 0 <= k < |name| ==> IsNameChar(name[k])
    ensures OptionName("--" + name + "=" + value) == Some(name)
    ensures OptionName("-" + name) == Some(name)
  {
    var t := "--" + name + "=" + value;
    assert t[2..] == name + ("=" + value);
    assert LeadingRun(t[2..], '-') == 0;
    assert t[1..][1..] == t[2..];
    assert LeadingRun(t, '-') == 2;
    NameRunStops(name, "=" + value);
    assert t[2..2 + |name|] == name;
    var u := "-" + name;
    assert u[1..] == name + "";
    assert LeadingRun(u[1..], '-') == 0;
    assert LeadingRun(u, '-') == 1;
    NameRunStops(name, "");
    assert u[1..1 + |name|] == name;
  }

  /** The backtracking cases: dashes alone name the option `-` when there are
      two or more, and nothing when there is one. */
  lemma OptionNameDashesOnly()
    ensures OptionName("-") == None
    ensures OptionName("--") == Some("-")
    ensures OptionName("---") == Some("-")
    ensures OptionName("abc") == None
  {
    assert LeadingRun("-", '-') == 1;
    assert LeadingRun("--"[1..], '-') == 1;
    assert LeadingRun("---"[2..], '-') == 1;
    assert LeadingRun("---"[1..], '-') == 2;
  }

  /** `splitAsOption`: `explode('=', $arg, 2)`. */
  function SplitAsOption(arg: string): (parts: seq<string>)
    ensures |parts| == 1 || |parts| == 2
    ensures |parts| == 1 <==> forall k :: 0 <= k < |arg| ==> arg[k] != '='
    ensures |parts| == 2 ==> forall k :: 0 <= k < |parts[0]| ==> parts[0][k] != '='
  {
    match IndexOf(arg, '=')
    case None => [arg]
    case Some(i) => [arg[..i], arg[i + 1..]]
  }

  /** Rejoining the two parts with `=` restores the token; the split is at the
      first `=`. */
  lemma SplitAsOptionRejoins(arg: string)
    ensures Join(SplitAsOption(arg), "=") == arg
  {
    match IndexOf(arg, '=')
    case None =>
    case Some(i) =>
      assert arg == arg[..i] + "=" + arg[i + 1..];
  }

  /** `containsOptionValue`: `/=.+/` — some `=` followed by a character other
      than a newline (`.` does not match a newline). */
  predicate ContainsOptionValue(arg: string)
  {
    exists i :: 0 <= i < |arg| - 1 && arg[i] == '=' && arg[i + 1] != '\n'
  }

  /** The first `=` that `/=(.+)/` can start at. */
  function ValueStart(arg: string, from: nat): (r: Option<nat>)
    requires from <= |arg|
    ensures r.Some? ==> from <= r.value < |arg| - 1 && arg[r.value] == '=' && arg[r.value + 1] != '\n'
    ensures r.Some? ==> forall i :: from <= i < r.value ==> !(arg[i] == '=' && arg[i + 1] != '\n')
    ensures r.None? ==> forall i :: from <= i < |arg| - 1 ==> !(arg[i] == '=' && arg[i + 1] != '\n')
    decreases |arg| - from
  {
    if from + 1 >= |arg| then None
    else if arg[from] == '=' && arg[from + 1] != '\n' then Some(from)
    else ValueStart(arg, from + 1)
  }

  /** Length of the run of non-newline characters of `s`. */
  function LineRun(s: string): (n: nat)
    ensures n <= |s|
    ensures forall k :: 0 <= k < n ==> s[k] != '\n'
    ensures n < |s| ==> s[n] == '\n'
  {
    if |s| == 0 || s[0] == '\n' then 0 else 1 + LineRun(s[1..])
  }

  /** `getOptionValue`: the text after the first usable `=` up to the end of
      that line, or null. */
  function GetOptionValue(arg: string): (r: Option<string>)
    ensures r.Some? <==> ContainsOptionValue(arg)
    ensures r.Some? ==> |r.value| > 0
  {
    match ValueStart(arg, 0)
    case None => None
    case Some(i) =>
      var rest := arg[i + 1..];
      Some(rest[..LineRun(rest)])
  }

  /** `withExtraFlagOptions`: `/^-[a-zA-Z0-9]{2,}/`. */
  predicate WithExtraFlagOptions(arg: string)
  {
    |arg| >= 3 && arg[0] == '-' && IsAlnum(arg[1]) && IsAlnum(arg[2])
  }

  /** A cluster is a short option: it never starts with `--`. */
  lemma ClusterIsShortOption(arg: string)
    requires WithExtraFlagOptions(arg)
    ensures IsShortOption(arg) && !IsLongOption(arg)
  {
  }

  /** The tokens `extractExtraFlagOptions` returns for a token: `-` followed
      by each character from the third on. */
  function ExtraFlags(arg: string): (r: seq<string>)
    ensures |r| == if |arg| > 2 then |arg| - 2 else 0
    ensures forall k :: 0 <= k < |r| ==> r[k] == ['-', arg[k + 2]]
    decreases |arg|
  {
    if |arg| <= 2 then [] else ExtraFlags(arg[..|arg| - 1]) + [['-', arg[|arg| - 1]]]
  }

  /** `substr($arg, 0, 2)`. */
  function FirstTwo(arg: string): (r: string)
    ensures |r| == if |arg| < 2 then |arg| else 2
    ensures r == arg[..|r|]
  {
    if |arg| <= 2 then arg else arg[..2]
  }

  /** The tails of the extracted flags, after the two kept characters, give
      back the original cluster. */
  lemma {:induction false} ExtractRestores(arg: string)
    ensures FirstTwo(arg) + Tails(ExtraFlags(arg)) == arg
    decreases |arg|
  {
    if |arg| > 2 {
      var init := arg[..|arg| - 1];
      ExtractRestores(init);
      ExtractStep(arg);
      InitAndLast(arg);
    }
  }

  /** One more character of a cluster adds one flag, whose tail is that
      character. */
  lemma ExtractStep(arg: string)
    requires |arg| > 2
    ensures var init := arg[..|arg| - 1];
      FirstTwo(arg) + Tails(ExtraFlags(arg)) == (FirstTwo(init) + Tails(ExtraFlags(init))) + [arg[|arg| - 1]]
  {
    var init, last := arg[..|arg| - 1], arg[|arg| - 1];
    var flags := ExtraFlags(init);
    assert ExtraFlags(arg) == flags + [['-', last]];
    TailsAppend(flags, ['-', last]);
    assert Drop1(['-', last]) == [last];
    assert FirstTwo(init) == FirstTwo(arg);
  }

  /** The tokens with their leading dash removed, concatenated. */
  function Tails(ts: seq<string>): (r: string)
  {
    if |ts| == 0 then "" else Tails(ts[..|ts| - 1]) + Drop1(ts[|ts| - 1])
  }

  function Drop1(t: string): string
  {
    if |t| == 0 then "" else t[1..]
  }

  lemma TailsAppend(ts: seq<string>, t: string)
    ensures Tails(ts + [t]) == Tails(ts) + Drop1(t)
  {
    assert (ts + [t])[..|ts|] == ts;
  }

  /** Every extracted token is a two-character option, never a cluster
      itself; it is a short option unless the character was a dash. */
  lemma ExtraFlagsAreShort(arg: string)
    ensures forall k :: 0 <= k < |ExtraFlags(arg)| ==>
      IsOption(ExtraFlags(arg)[k]) && !WithExtraFlagOptions(ExtraFlags(arg)[k])
      && (IsShortOption(ExtraFlags(arg)[k]) <==> arg[k + 2] != '-')
  {
    forall k | 0 <= k < |ExtraFlags(arg)|
      ensures IsOption(ExtraFlags(arg)[k]) && !WithExtraFlagOptions(ExtraFlags(arg)[k])
      ensures IsShortOption(ExtraFlags(arg)[k]) <==> arg[k + 2] != '-'
    {
      assert |ExtraFlags(arg)[k]| == 2;
    }
  }

  /** `anyOfOptions`: the token's option name is one of the collection's keys
      (compared strictly, so a token without a name never qualifies). */
  predicate AnyOfOptions(arg: string, keys: seq<string>)
  {
    var name := OptionName(arg);
    name.Some? && name.value in keys
  }

  /** A token that does not start with a dash is never one of the options. */
  lemma NoDashNeverAnOption(arg: string, keys: seq<string>)
    requires |arg| == 0 || arg[0] != '-'
    ensures !AnyOfOptions(arg, keys)
  {
  }

  /** The mutable token object of the source: `extractExtraFlagOptions`
      shortens it in place. */
  class Argument {
    var arg: string

    constructor(arg: string)
      ensures this.arg == arg
    {
      this.arg := arg;
    }

    /** `extractExtraFlagOptions`: the extra flags after the second character,
        and this token cut down to its first two characters. */
    method ExtractExtraFlagOptions() returns (args: seq<string>)
      modifies this
      ensures args == ExtraFlags(old(arg))
      ensures arg == FirstTwo(old(arg))
    {
      args := [];
      var i := 2;
      while i < |arg|
        invariant 2 <= i <= |arg| || (i == 2 && |arg| < 2)
        invariant |args| == i - 2
        invariant forall k :: 0 <= k < |args| ==> args[k] == ['-', arg[k + 2]]
      {
        args := args + [['-', arg[i]]];
        i := i + 1;
      }
      arg := FirstTwo(arg);
    }

    function ToString(): (r: string)
      reads this
      ensures r == arg
    {
      arg
    }
  }
}

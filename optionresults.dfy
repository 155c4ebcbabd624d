/** The result of one option parse (src/Option/OptionResult.php): the options
    that were met, by id, and the positional arguments in the order they came. */
module OptionResults {

  import opened Base
  import opened Strings

  /** A boundary of `preg_split('/(?<=[a-z])(?=[A-Z])|(?<=[A-Z])(?=[A-Z][a-z])/')`
      before position `p`: lower-to-upper, or the last capital of a run before
      a capitalised word. */
  predicate IsBoundary(s: string, p: int)
  {
    0 < p < |s| &&
    ((IsLower(s[p - 1]) && IsUpper(s[p])) ||
     (IsUpper(s[p - 1]) && IsUpper(s[p]) && p + 1 < |s| && IsLower(s[p + 1])))
  }

  predicate HasBoundary(s: string)
  {
    exists p :: 0 <= p < |s| && IsBoundary(s, p)
  }

  /** The pieces of `s` between boundaries, lowercased and joined with `-`,
      starting the scan at position `from`. */
  function Hyphenate(s: string, from: nat): (r: string)
    requires from <= |s|
    ensures forall k :: 0 <= k < |r| ==> !IsUpper(r[k])
    decreases |s| - from
  {
    if from == |s| then ""
    else
      var c := Lower([s[from]]);
      (if IsBoundary(s, from) then "-" + c else c) + Hyphenate(s, from + 1)
  }

  /** The key `get` retries with: the camelCase name in kebab-case, or the key
      itself when `preg_split` finds nothing to split. */
  function KebabKey(key: string): (r: string)
    ensures !HasBoundary(key) ==> r == key
    ensures HasBoundary(key) ==> forall k :: 0 <= k < |r| ==> !IsUpper(r[k])
  {
    if HasBoundary(key) then Hyphenate(key, 0) else key
  }

  /** A boundary needs a capital at its position. */
  lemma NoCapitalNoBoundary(s: string)
    requires forall k :: 0 <= k < |s| ==> !IsUpper(s[k])
    ensures !HasBoundary(s)
  {
    forall p | 0 <= p < |s|
      ensures !IsBoundary(s, p)
    {
    }
  }

  /** A kebab-case key has no capitals, hence no boundary: retrying it gives
      the key again. */
  lemma KebabKeyIdempotent(key: string)
    ensures KebabKey(KebabKey(key)) == KebabKey(key)
  {
    if HasBoundary(key) {
      NoCapitalNoBoundary(KebabKey(key));
    }
  }

  lemma KebabKeyBaseDir()
    ensures KebabKey("baseDir") == "base-dir"
  {
    var b := "baseDir";
    assert IsBoundary(b, 4);
    assert !IsBoundary(b, 0) && !IsBoundary(b, 1) && !IsBoundary(b, 2) && !IsBoundary(b, 3);
    assert !IsBoundary(b, 5) && !IsBoundary(b, 6);
    assert Hyphenate(b, 6) == "r";
    assert Hyphenate(b, 5) == "ir";
    assert Hyphenate(b, 4) == "-dir";
    assert Hyphenate(b, 3) == "e-dir";
    assert Hyphenate(b, 2) == "se-dir";
    assert Hyphenate(b, 1) == "ase-dir";
  }

  /** Options can never be removed from a result. */
  const UnsetMessage: string := "Options can not unset"

  class OptionResult {
    /** Option id => the value of that option when it was last recorded. */
    var keys: map<string, Value>
    var arguments: seq<string>

    constructor()
      ensures keys == map[] && arguments == []
    {
      keys := map[];
      arguments := [];
    }

    /** `count()`: the number of recorded options; arguments do not count. */
    function Count(): (n: nat)
      reads this
      ensures n == |keys.Keys|
    {
      |keys|
    }

    /** `merge($a)`: `$a`'s options win over same-named ones, arguments are
        concatenated with this result's first. */
    method Merge(a: OptionResult)
      modifies this
      ensures keys == old(keys) + old(a.keys)
      ensures arguments == old(arguments) + old(a.arguments)
    {
      keys := keys + a.keys;
      arguments := arguments + a.arguments;
    }

    /** `has($key)` (and `__isset`, `offsetExists`): the exact key only. */
    function Has(key: string): (b: bool)
      reads this
      ensures b <==> key in keys
    {
      key in keys
    }

    /** `get($key)` (and `__get`, `offsetGet`): the exact key, then its
        kebab-case form, else null. */
    function Get(key: string): (r: Value)
      reads this
      ensures key in keys ==> r == keys[key]
      ensures key !in keys && KebabKey(key) in keys ==> r == keys[KebabKey(key)]
      ensures key !in keys && KebabKey(key) !in keys ==> r == Null
    {
      if key in keys then keys[key]
      else
        var kebab := KebabKey(key);
        if kebab in keys then keys[kebab] else Null
    }

    /** `set($key, $option)` (and `__set`, `offsetSet`). */
    method Set(key: string, value: Value)
      modifies this
      ensures keys == old(keys)[key := value]
      ensures arguments == old(arguments)
    {
      keys := keys[key := value];
    }

    method AddArgument(arg: string)
      modifies this
      ensures arguments == old(arguments) + [arg]
      ensures keys == old(keys)
    {
      arguments := arguments + [arg];
    }

    /** `getArguments()`: the arguments as strings, in insertion order. */
    function GetArguments(): (r: seq<string>)
      reads this
      ensures |r| == |arguments|
      ensures forall k :: 0 <= k < |r| ==> r[k] == arguments[k]
    {
      arguments
    }

    /** `offsetUnset` always refuses and removes nothing. */
    method OffsetUnset(name: string) returns (err: Error)
      ensures err == RuntimeError(UnsetMessage)
    {
      err := RuntimeError(UnsetMessage);
    }

    /** `toArray()`: every recorded option id with its value. */
    method ToArray() returns (arr: map<string, Value>)
      ensures arr.Keys == keys.Keys
      ensures forall k :: k in keys ==> arr[k] == Get(k)
    {
      arr := map[];
      var remaining := keys.Keys;
      while remaining != {}
        invariant remaining <= keys.Keys
        invariant arr.Keys == keys.Keys - remaining
        invariant forall k :: k in arr ==> arr[k] == keys[k]
        decreases remaining
      {
        var k :| k in remaining;
        arr := arr[k := keys[k]];
        remaining := remaining - {k};
      }
    }
  }

  /** After `set($k, ...)`, `has($k)` holds and `get($k)` gives the value just
      recorded, whatever was recorded under `$k` before. */
  lemma SetThenGet(r: OptionResult, key: string, value: Value, keys0: map<string, Value>)
    requires r.keys == keys0[key := value]
    ensures r.Has(key) && r.Get(key) == value
  {
  }

  /** `has` does not fall back to the kebab-case key that `get` tries. */
  lemma HasIsExact(r: OptionResult)
    requires r.keys == map["base-dir" := Str("/tmp")]
    ensures !r.Has("baseDir") && r.Get("baseDir") == Str("/tmp")
  {
    KebabKeyBaseDir();
  }
}

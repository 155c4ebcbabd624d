/** Shared vocabulary of the model: optional values, results carrying the
    exceptions the console library raises, PHP values and PHP array keys. */
module Base {

  datatype Option<+T> = None | Some(value: T)

  /** The exceptions (and the PHP engine errors) the modelled code can raise,
      each with its message. Each tag names the class the source throws. */
  datatype Error =
    | InvalidOption(message: string)                // Exception\InvalidOptionException
    | RequireValue(message: string)                 // Exception\RequireValueException
    | CommandNotFound(message: string)              // Exception\CommandNotFoundException (the token not found)
    | ArgumentNotEnough(given: nat, required: nat)  // Exception\CommandArgumentNotEnoughException
    | ExtensionError(message: string)               // Exception\ExtensionException
    | InvalidArgument(message: string)              // \InvalidArgumentException
    | LogicError(message: string)                   // \LogicException
    | RuntimeError(message: string)                 // \RuntimeException
    | TypeError(message: string)                    // \TypeError from a declared parameter or return type
    | NullCall(message: string)                     // \Error: a member function called on null
    | ValueError(message: string)                   // \ValueError from a built-in function

  datatype Result<+T> = Success(value: T) | Failure(error: Error)

  /** A PHP value as far as this model needs one. */
  datatype Value =
    | Null
    | Bool(b: bool)
    | Int(i: int)
    | Str(s: string)
    | List(items: seq<Value>)

  /** PHP's conversion of a value to bool (what `if ($v)` and `!$v` test). */
  predicate Truthy(v: Value)
  {
    match v
    case Null => false
    case Bool(b) => b
    case Int(i) => i != 0
    case Str(s) => s != "" && s != "0"
    case List(items) => |items| > 0
  }

  /** `array_reverse` on a list. */
  function Reverse<T>(s: seq<T>): (r: seq<T>)
    ensures |r| == |s|
    ensures forall k :: 0 <= k < |s| ==> r[k] == s[|s| - 1 - k]
  {
    if |s| == 0 then [] else Reverse(s[1..]) + [s[0]]
  }

  /** Three facts about sequences, stated once so that proofs about the
      model's own functions can use them without unfolding those functions. */
  lemma InitAndLast<T>(s: seq<T>)
    requires |s| > 0
    ensures s[..|s| - 1] + [s[|s| - 1]] == s
  {
  }

  lemma PrefixOfPrefix<T>(a: seq<T>, i: nat, j: nat)
    requires j <= i <= |a|
    ensures a[..i][..j] == a[..j]
  {
  }

  lemma SliceOfSlice<T>(a: seq<T>, i: nat, j: nat)
    requires i + j <= |a|
    ensures a[i..][j..] == a[i + j..]
  {
  }

  /** A PHP array key: arrays are indexed by integers or by strings. */
  datatype Key = IntKey(i: int) | StrKey(s: string)

  const MinPhpInt: int := -0x8000_0000_0000_0000
  const MaxPhpInt: int := 0x7FFF_FFFF_FFFF_FFFF

  predicate IsDigit(c: char) { '0' <= c <= '9' }

  /** Decimal digits without a leading zero (or the single digit "0"). */
  predicate IsCanonicalDigits(s: string)
  {
    && |s| > 0
    && (forall i :: 0 <= i < |s| ==> IsDigit(s[i]))
    && (s[0] == '0' ==> |s| == 1)
  }

  function DigitsValue(s: string): (n: nat)
    requires forall i :: 0 <= i < |s| ==> IsDigit(s[i])
    decreases |s|
  {
    if |s| == 0 then 0
    else
      assert IsDigit(s[|s| - 1]);
      DigitsValue(s[..|s| - 1]) * 10 + (s[|s| - 1] as int - '0' as int)
  }

  /** The integer a string key stands for when PHP stores it as an integer key:
      an optional minus sign, then canonical digits, within the 64-bit range;
      "-0" stays a string. */
  function IntegerKeyOf(s: string): (r: Option<int>)
    ensures r.Some? ==> MinPhpInt <= r.value <= MaxPhpInt
  {
    if IsCanonicalDigits(s) && DigitsValue(s) <= MaxPhpInt then Some(DigitsValue(s))
    else if |s| > 1 && s[0] == '-' && s[1] != '0' && IsCanonicalDigits(s[1..])
            && -(DigitsValue(s[1..]) as int) >= MinPhpInt
    then Some(-(DigitsValue(s[1..]) as int))
    else None
  }

  /** The key PHP actually uses for `$array[$k]`. */
  function NormalizeKey(k: Key): (r: Key)
    ensures r.StrKey? ==> k.StrKey? && r == k
    ensures k.IntKey? ==> r == k
  {
    match k
    case IntKey(_) => k
    case StrKey(s) =>
      match IntegerKeyOf(s)
      case Some(i) => IntKey(i)
      case None => k
  }

  lemma NormalizeKeyIdempotent(k: Key)
    ensures NormalizeKey(NormalizeKey(k)) == NormalizeKey(k)
  {
  }

  lemma NumericNameIsIntegerKey()
    ensures NormalizeKey(StrKey("12")) == IntKey(12)
    ensures NormalizeKey(StrKey("012")) == StrKey("012")
    ensures NormalizeKey(StrKey("-7")) == IntKey(-7)
    ensures NormalizeKey(StrKey("-0")) == StrKey("-0")
  {
    assert DigitsValue("1") == 1;
    assert "12"[..1] == "1";
    assert DigitsValue("12") == 12;
    assert "-7"[1..] == "7";
    assert DigitsValue("7") == 7;
  }
}

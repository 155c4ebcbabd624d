/** Declarations of a command's positional arguments (src/Argument.php): the
    spec string `name[+|?][=type]`, the optional/multiple flags, and the
    validation of a value against its type, valid values and validator. */
module CommandArgument {

  import opened Base
  import opened Strings

  /** The alternatives of the type group of the spec pattern, in the order
      they are written. */
  const TypeNames: seq<string> := ["bool", "boolean", "string", "int", "number", "date",
    "datetime", "file", "dir", "url", "email", "ip", "ipv6", "ipv4"]

  predicate IsPrefix(p: string, s: string)
  {
    |p| <= |s| && s[..|p|] == p
  }

  /** The first position holding a name character. */
  function NameStart(s: string, from: nat): (r: Option<nat>)
    requires from <= |s|
    ensures r.Some? ==> from <= r.value < |s| && IsNameChar(s[r.value])
    ensures r.Some? ==> forall k :: from <= k < r.value ==> !IsNameChar(s[k])
    ensures r.None? ==> forall k :: from <= k < |s| ==> !IsNameChar(s[k])
    decreases |s| - from
  {
    if from == |s| then None
    else if IsNameChar(s[from]) then Some(from)
    else NameStart(s, from + 1)
  }

  /** The alternative PCRE takes: the first one in the written order that
      matches at this point. */
  function FirstAlternative(rest: string, names: seq<string>): (r: Option<string>)
    ensures r.Some? ==> r.value in names && IsPrefix(r.value, rest)
    ensures r.None? ==> forall k :: 0 <= k < |names| ==> !IsPrefix(names[k], rest)
  {
    if |names| == 0 then None
    else if IsPrefix(names[0], rest) then Some(names[0])
    else FirstAlternative(rest, names[1..])
  }

  /** The longest alternative that matches at this point. */
  function LongestAlternative(rest: string, names: seq<string>): (r: Option<string>)
    ensures r.Some? ==> r.value in names && IsPrefix(r.value, rest)
    ensures r.Some? ==> forall k :: 0 <= k < |names| && IsPrefix(names[k], rest) ==> |names[k]| <= |r.value|
    ensures r.None? ==> forall k :: 0 <= k < |names| ==> !IsPrefix(names[k], rest)
  {
    if |names| == 0 then None
    else
      var tail := LongestAlternative(rest, names[1..]);
      if IsPrefix(names[0], rest) && (tail.None? || |tail.value| < |names[0]|) then Some(names[0])
      else tail
  }

  /** What the spec string declares. */
  datatype SpecParts = SpecParts(name: string, multiple: bool, optional: bool, isa: Option<string>)

  const IncorrectSpec: string := "Incorrect spec string"

  /** `bool` is stored as `boolean`. */
  function NormaliseType(t: string): (r: string)
    ensures r != "bool" && (t != "bool" ==> r == t)
  {
    if t == "bool" then "boolean" else t
  }

  /** `initFromSpecString`, with the type alternative chosen by `pick`. */
  function ParseSpecWith(spec: string, pick: (string, seq<string>) -> Option<string>): (r: Result<SpecParts>)
  {
    match NameStart(spec, 0)
    case None => Failure(InvalidArgument(IncorrectSpec))
    case Some(p) =>
      var n := NameRun(spec[p..]);
      Success(Declared(spec[p..p + n], spec[p + n..], pick))
  }

  /** What follows the name: one `+` or `?`, then `=` and a type. */
  function Declared(name: string, after: string, pick: (string, seq<string>) -> Option<string>): (r: SpecParts)
  {
    var attr := if |after| > 0 && (after[0] == '+' || after[0] == '?') then [after[0]] else "";
    var typed := after[|attr|..];
    var t := if |typed| > 0 && typed[0] == '=' then pick(typed[1..], TypeNames) else None;
    SpecParts(name, attr == "+", attr == "?", if t.Some? then Some(NormaliseType(t.value)) else None)
  }

  /** A spec that starts with its name is read as that name followed by the
      rest. */
  lemma ParseSpecWithName(name: string, tail: string, pick: (string, seq<string>) -> Option<string>)
    requires |name| > 0 && forall k :: 0 <= k < |name| ==> IsNameChar(name[k])
    requires |tail| == 0 || !IsNameChar(tail[0])
    ensures ParseSpecWith(name + tail, pick) == Success(Declared(name, tail, pick))
  {
    var spec := name + tail;
    NameStartIs(spec, 0, 0);
    NameRunStops(name, tail);
    assert spec[0..|name|] == name;
    assert spec[|name|..] == tail;
  }

  /** The spec pattern as written: PCRE stops at the first alternative that
      matches, so `date` shadows `datetime` and `ip` shadows `ipv6`/`ipv4`. */
  function ParseSpecAsWritten(spec: string): (r: Result<SpecParts>)
  {
    ParseSpecWith(spec, FirstAlternative)
  }

  /** The spec pattern as intended: every listed type is recognised in full. */
  function ParseSpec(spec: string): (r: Result<SpecParts>)
  {
    ParseSpecWith(spec, LongestAlternative)
  }

  /** A spec without any name character is refused with "Incorrect spec
      string"; otherwise the name is non-empty, `+` and `?` exclude each
      other, and a type is one of the listed ones with `bool` spelt
      `boolean`. */
  lemma ParseSpecFacts(spec: string)
    ensures var r := ParseSpec(spec);
      && (r.Failure? <==> forall k :: 0 <= k < |spec| ==> !IsNameChar(spec[k]))
      && (r.Failure? ==> r.error == InvalidArgument(IncorrectSpec))
      && (r.Success? ==> |r.value.name| > 0 && !(r.value.multiple && r.value.optional))
      && (r.Success? && r.value.isa.Some? ==>
            r.value.isa.value in TypeNames[1..] && r.value.isa.value != "bool")
  {
    ParseSpecRefused(spec);
    ParseSpecShape(spec);
  }

  /** The refusal half of `ParseSpecFacts`. */
  lemma ParseSpecRefused(spec: string)
    ensures var r := ParseSpec(spec);
      && (r.Failure? <==> forall k :: 0 <= k < |spec| ==> !IsNameChar(spec[k]))
      && (r.Failure? ==> r.error == InvalidArgument(IncorrectSpec))
  {
    match NameStart(spec, 0)
    case None =>
    case Some(p) =>
      assert !(forall k :: 0 <= k < |spec| ==> !IsNameChar(spec[k]));
  }

  /** The acceptance half of `ParseSpecFacts`. */
  lemma ParseSpecShape(spec: string)
    ensures var r := ParseSpec(spec);
      && (r.Success? ==> |r.value.name| > 0 && !(r.value.multiple && r.value.optional))
      && (r.Success? && r.value.isa.Some? ==>
            r.value.isa.value in TypeNames[1..] && r.value.isa.value != "bool")
  {
    var r := ParseSpec(spec);
    match NameStart(spec, 0)
    case None =>
    case Some(p) =>
      var n := NameRun(spec[p..]);
      assert spec[p..p + n][0] == spec[p];
      if r.value.isa.Some? {
        var t :| t in TypeNames && r.value.isa.value == NormaliseType(t);
        NormalisedListed(t);
      }
  }

  /** A listed type, normalised, is listed after `bool` and is not `bool`. */
  lemma NormalisedListed(t: string)
    requires t in TypeNames
    ensures NormaliseType(t) in TypeNames[1..] && NormaliseType(t) != "bool"
  {
    var i :| 0 <= i < |TypeNames| && TypeNames[i] == t;
    if i == 0 {
      assert TypeNames[1..][0] == "boolean";
    } else {
      assert TypeNames[1..][i - 1] == t;
    }
  }

  /** The name is the first maximal run of name characters of the spec. */
  lemma ParseSpecName(spec: string, p: nat)
    requires p < |spec| && IsNameChar(spec[p])
    requires forall k :: 0 <= k < p ==> !IsNameChar(spec[k])
    ensures ParseSpec(spec).Success?
    ensures ParseSpec(spec).value.name == spec[p..p + NameRun(spec[p..])]
  {
    assert NameStart(spec, 0) == Some(p) by {
      NameStartIs(spec, 0, p);
    }
    var n := NameRun(spec[p..]);
    assert ParseSpec(spec) == Success(Declared(spec[p..p + n], spec[p + n..], LongestAlternative));
  }

  lemma {:induction false} NameStartIs(spec: string, from: nat, p: nat)
    requires from <= p < |spec| && IsNameChar(spec[p])
    requires forall k :: from <= k < p ==> !IsNameChar(spec[k])
    ensures NameStart(spec, from) == Some(p)
    decreases p - from
  {
    if from < p {
      NameStartIs(spec, from + 1, p);
    }
  }

  /** A canonical spec `name`, `name+` or `name?`, optionally followed by
      `=type`, declares exactly that: `+` multiple but still required, `?`
      optional, neither required and single. */
  lemma ParseSpecRoundTrip(name: string, attr: string, t: Option<string>)
    requires |name| > 0 && forall k :: 0 <= k < |name| ==> IsNameChar(name[k])
    requires attr in {"", "+", "?"}
    requires t.Some? ==> t.value in TypeNames
    ensures var typed := if t.Some? then "=" + t.value else "";
      ParseSpec(name + (attr + typed)) == Success(SpecParts(name, attr == "+", attr == "?",
                                           if t.Some? then Some(NormaliseType(t.value)) else None))
  {
    var typed := if t.Some? then "=" + t.value else "";
    var tail := attr + typed;
    ParseSpecWithName(name, tail, LongestAlternative);
    assert tail[|attr|..] == typed;
    if t.Some? {
      assert typed[1..] == t.value;
      LongestIsSelf(t.value);
    }
  }

  /** Only the type itself, among the listed types, is a prefix of a listed
      type as long as it. */
  lemma LongestIsSelf(t: string)
    requires t in TypeNames
    ensures LongestAlternative(t, TypeNames) == Some(t)
  {
    var r := LongestAlternative(t, TypeNames);
    assert IsPrefix(t, t);
    assert r.Some? && IsPrefix(r.value, t) && |t| <= |r.value|;
    assert r.value == t[..|r.value|];
  }

  /** A name as the spec grammar reads it. */
  predicate IsName(name: string)
  {
    |name| > 0 && forall k :: 0 <= k < |name| ==> IsNameChar(name[k])
  }

  /** The written order of the alternatives decides for every type that
      starts with `date`: none of the five before it matches. */
  lemma FirstAlternativeDate(rest: string)
    requires IsPrefix("date", rest)
    ensures FirstAlternative(rest, TypeNames) == Some("date")
  {
    assert rest[0] == 'd' by { assert rest[..4][0] == 'd'; }
    Differs(TypeNames[0], rest, 0);
    Differs(TypeNames[1], rest, 0);
    Differs(TypeNames[2], rest, 0);
    Differs(TypeNames[3], rest, 0);
    Differs(TypeNames[4], rest, 0);
    FirstAlternativeSkips(rest, TypeNames, 5);
    assert TypeNames[5..][0] == "date";
  }

  /** Likewise every type that starts with `ip` is read as `ip`. */
  lemma FirstAlternativeIp(rest: string)
    requires IsPrefix("ip", rest)
    ensures FirstAlternative(rest, TypeNames) == Some("ip")
  {
    assert rest[0] == 'i' && rest[1] == 'p' by { assert rest[..2] == "ip"; }
    Differs(TypeNames[0], rest, 0);
    Differs(TypeNames[1], rest, 0);
    Differs(TypeNames[2], rest, 0);
    Differs(TypeNames[3], rest, 1);
    Differs(TypeNames[4], rest, 0);
    Differs(TypeNames[5], rest, 0);
    Differs(TypeNames[6], rest, 0);
    Differs(TypeNames[7], rest, 0);
    Differs(TypeNames[8], rest, 0);
    Differs(TypeNames[9], rest, 0);
    Differs(TypeNames[10], rest, 0);
    FirstAlternativeSkips(rest, TypeNames, 11);
    assert TypeNames[11..][0] == "ip";
  }

  lemma Differs(p: string, s: string, i: nat)
    requires i < |p| && i < |s| && p[i] != s[i]
    ensures !IsPrefix(p, s)
  {
    if |p| <= |s| {
      assert s[..|p|][i] == s[i];
    }
  }

  /** After the name, `=` and a type: no attribute, and the type is the
      alternative `pick` finds in what follows the `=`. */
  lemma DeclaredTyped(name: string, t: string, pick: (string, seq<string>) -> Option<string>)
    ensures var found := pick(t, TypeNames);
      Declared(name, "=" + t, pick)
        == SpecParts(name, false, false, if found.Some? then Some(NormaliseType(found.value)) else None)
  {
    var after := "=" + t;
    assert after[0] == '=';
    assert after[0..] == after;
    assert after[1..] == t;
  }

  /** As written, `<name>=<t>` declares the first alternative that is a
      prefix of `t`. */
  lemma TypedAsWritten(name: string, t: string, found: string)
    requires IsName(name) && FirstAlternative(t, TypeNames) == Some(found)
    ensures ParseSpecAsWritten(name + ("=" + t)) == Success(SpecParts(name, false, false, Some(NormaliseType(found))))
  {
    ParseSpecWithName(name, "=" + t, FirstAlternative);
    DeclaredTyped(name, t, FirstAlternative);
  }

  /** With the longest match a typed spec declares the type written. */
  lemma TypedAsIntended(name: string, t: string)
    requires IsName(name) && t in TypeNames && t != "bool"
    ensures ParseSpec(name + ("=" + t)) == Success(SpecParts(name, false, false, Some(t)))
  {
    ParseSpecRoundTrip(name, "", Some(t));
    assert "" + ("=" + t) == "=" + t;
  }

  /** The two readings differ: as written `<name>=datetime` declares a
      `date`, as intended a `datetime`. */
  lemma DatetimeReadAsDate(name: string, t: string)
    requires IsName(name) && t == "datetime"
    ensures ParseSpecAsWritten(name + ("=" + t)) == Success(SpecParts(name, false, false, Some("date")))
    ensures ParseSpec(name + ("=" + t)) == Success(SpecParts(name, false, false, Some(t)))
  {
    assert t == TypeNames[6];
    assert IsPrefix("date", t) by { assert t[..4] == "date"; }
    FirstAlternativeDate(t);
    TypedAsWritten(name, t, "date");
    TypedAsIntended(name, t);
  }

  /** As written `<name>=ipv6` and `<name>=ipv4` declare an `ip`, as intended
      the type written. */
  lemma IpVersionReadAsIp(name: string, t: string)
    requires IsName(name) && (t == "ipv6" || t == "ipv4")
    ensures ParseSpecAsWritten(name + ("=" + t)) == Success(SpecParts(name, false, false, Some("ip")))
    ensures ParseSpec(name + ("=" + t)) == Success(SpecParts(name, false, false, Some(t)))
  {
    assert t == TypeNames[12] || t == TypeNames[13];
    assert IsPrefix("ip", t) by { assert t[..2] == "ip"; }
    FirstAlternativeIp(t);
    TypedAsWritten(name, t, "ip");
    TypedAsIntended(name, t);
  }

  /** Alternatives before `k` that do not match are skipped. */
  lemma {:induction false} FirstAlternativeSkips(rest: string, names: seq<string>, k: nat)
    requires k <= |names|
    requires forall j :: 0 <= j < k ==> !IsPrefix(names[j], rest)
    ensures FirstAlternative(rest, names) == FirstAlternative(rest, names[k..])
    decreases k
  {
    if k > 0 {
      FirstAlternativeSkips(rest, names[1..], k - 1);
      assert names[1..][k - 1..] == names[k..];
    }
  }

  /** The answer of `ValueType::test` (which is not part of this model):
      false, true with the value `ValueType::parse()` then yields, or
      anything else, which keeps the value as given. */
  datatype TypeTest = TestFalse | TestTrue(parsed: Value) | TestOther

  class Argument {
    var name: string
    var desc: Option<string>
    var isa: Option<string>
    var isaOption: Value
    var optional: bool
    var multiple: bool
    var suggestions: Option<seq<Value>>
    var validValues: Option<seq<Value>>
    var validator: Option<Value -> bool>
    var glob: Option<string>
    var value: Value

    /** The declaration `parts` stands for, with nothing else set. */
    constructor(parts: SpecParts, desc: Option<string>)
      ensures name == parts.name && multiple == parts.multiple && optional == parts.optional
      ensures isa == parts.isa && this.desc == desc
      ensures isaOption == Null && value == Null
      ensures suggestions.None? && validValues.None? && validator.None? && glob.None?
    {
      name := parts.name;
      multiple := parts.multiple;
      optional := parts.optional;
      isa := parts.isa;
      this.desc := desc;
      isaOption := Null;
      suggestions := None;
      validValues := None;
      validator := None;
      glob := None;
      value := Null;
    }

    /** `name()`: the name the spec declared. */
    function Name(): (r: string)
      reads this`name
      ensures r == name
    {
      name
    }

    /** `isa($type, $option)`: `bool` is stored as `boolean`. */
    method Isa(t: string, option: Value)
      modifies this`isa, this`isaOption
      ensures isa == Some(NormaliseType(t)) && isaOption == option
    {
      isa := Some(NormaliseType(t));
      isaOption := option;
    }

    method Desc(d: string)
      modifies this`desc
      ensures desc == Some(d)
    {
      desc := Some(d);
    }

    /** `isRequired()`: exactly when not optional. */
    function IsRequired(): (b: bool)
      reads this`optional
      ensures b <==> !IsOptional()
    {
      optional == false
    }

    function IsOptional(): (b: bool)
      reads this`optional
      ensures b == optional
    {
      optional
    }

    method Optional()
      modifies this`optional
      ensures optional && !IsRequired()
    {
      optional := true;
    }

    /** `multiple($is)`: does not touch optionality. */
    method Multiple(b: bool)
      modifies this`multiple
      ensures multiple == b
    {
      multiple := b;
    }

    method ValidValues(vals: seq<Value>)
      modifies this`validValues
      ensures validValues == Some(vals)
    {
      validValues := Some(vals);
    }

    method Validator(f: Value -> bool)
      modifies this`validator
      ensures validator == Some(f)
    {
      validator := Some(f);
    }

    method Suggestions(vals: seq<Value>)
      modifies this`suggestions
      ensures suggestions == Some(vals)
    {
      suggestions := Some(vals);
    }

    method Glob(g: string)
      modifies this`glob
      ensures glob == Some(g)
    {
      glob := Some(g);
    }

    /** `getSuggestions()`: the empty list when none were given. */
    function GetSuggestions(): (r: seq<Value>)
      reads this`suggestions
      ensures suggestions.None? ==> r == []
      ensures suggestions.Some? ==> r == suggestions.value
    {
      if suggestions.Some? then suggestions.value else []
    }

    /** `getValidValues()`: the empty list when none were given. */
    function GetValidValues(): (r: seq<Value>)
      reads this`validValues
      ensures validValues.None? ==> r == []
      ensures validValues.Some? ==> r == validValues.value
    {
      if validValues.Some? then validValues.value else []
    }

    /** The value `validate($v)` would store, or None when it returns false:
        the type test first (when a type is set), then strict membership in
        the valid values (when there are any), then the validator. */
    function Validated(vt: (Value, string, Value) -> TypeTest, v: Value): (r: Option<Value>)
      reads this`isa, this`isaOption, this`validValues, this`validator
      ensures r.Some? && |GetValidValues()| > 0 ==> r.value in GetValidValues()
      ensures r.Some? && validator.Some? ==> validator.value(r.value)
      ensures r.Some? && (isa.None? || !Truthy(Str(isa.value))) ==> r.value == v
      ensures isa.Some? && Truthy(Str(isa.value)) && vt(v, isa.value, isaOption) == TestFalse ==> r.None?
      ensures isa.Some? && Truthy(Str(isa.value)) && r.Some? ==>
        r.value == (match vt(v, isa.value, isaOption)
                    case TestTrue(p) => p
                    case _ => v)
      // the other direction: a value the type test lets through (converted
      // when it says so), found among the valid values and passed by the
      // validator, is accepted
      ensures var typed := !(isa.Some? && Truthy(Str(isa.value))) || vt(v, isa.value, isaOption) != TestFalse;
        var w := if isa.Some? && Truthy(Str(isa.value)) && vt(v, isa.value, isaOption).TestTrue?
                 then vt(v, isa.value, isaOption).parsed else v;
        (typed && (|GetValidValues()| == 0 || w in GetValidValues()) && (validator.None? || validator.value(w)))
        ==> r == Some(w)
    {
      var typed: Option<Value> :=
        if isa.Some? && Truthy(Str(isa.value)) then
          match vt(v, isa.value, isaOption)
          case TestFalse => None
          case TestTrue(p) => Some(p)
          case TestOther => Some(v)
        else Some(v);
      match typed
      case None => None
      case Some(w) =>
        if |GetValidValues()| > 0 && w !in GetValidValues() then None
        else if validator.Some? && !validator.value(w) then None
        else Some(w)
    }

    /** The stored value is what validating `v` gives. */
    ghost predicate Holds(vt: (Value, string, Value) -> TypeTest, v: Value)
      reads this`value, this`isa, this`isaOption, this`validValues, this`validator
    {
      Validated(vt, v) == Some(value)
    }

    /** `validate($v)`: true exactly when the value passes, and only then is
        the (possibly converted) value stored. */
    method Validate(vt: (Value, string, Value) -> TypeTest, v: Value) returns (ok: bool)
      modifies this`value
      ensures ok <==> Validated(vt, v).Some?
      ensures ok ==> value == Validated(vt, v).value && Holds(vt, v)
      ensures !ok ==> value == old(value)
    {
      var w := v;
      if isa.Some? && Truthy(Str(isa.value)) {
        var test := vt(v, isa.value, isaOption);
        if test == TestFalse {
          return false;
        }
        if test.TestTrue? {
          w := test.parsed;
        }
      }
      var values := GetValidValues();
      if |values| > 0 && w !in values {
        return false;
      }
      if validator.Some? && !validator.value(w) {
        return false;
      }
      value := w;
      return true;
    }

    /** `setValue($v)`: validation whose answer is dropped; never raises. */
    method SetValue(vt: (Value, string, Value) -> TypeTest, v: Value)
      modifies this`value
      ensures Validated(vt, v).Some? ==> value == Validated(vt, v).value
      ensures Validated(vt, v).None? ==> value == old(value)
    {
      var _ := Validate(vt, v);
    }

    function GetValue(): (r: Value)
      reads this`value
      ensures r == value
    {
      value
    }
  }

  /** `new Argument($spec, $desc)`: the spec string's declaration, or the
      exception for a spec without a name. An empty description is not
      stored. */
  method NewArgument(spec: string, desc: Option<string>) returns (r: Result<Argument>)
    ensures ParseSpec(spec).Failure? ==> r == Failure(ParseSpec(spec).error)
    ensures ParseSpec(spec).Success? ==> r.Success? && fresh(r.value)
    ensures r.Success? ==>
      var a := r.value;
      var p := ParseSpec(spec).value;
      a.name == p.name && a.multiple == p.multiple && a.optional == p.optional && a.isa == p.isa
      && a.value == Null && a.desc == (if desc.Some? && Truthy(Str(desc.value)) then desc else None)
  {
    var parts := ParseSpec(spec);
    if parts.Failure? {
      return Failure(parts.error);
    }
    var a := new Argument(parts.value, if desc.Some? && Truthy(Str(desc.value)) then desc else None);
    return Success(a);
  }

  /** A value that fails the valid-value check is refused whatever the
      validator says, and the stored value stays. */
  lemma NotAValidValue(a: Argument, vt: (Value, string, Value) -> TypeTest, v: Value)
    requires a.isa.None? && |a.GetValidValues()| > 0 && v !in a.GetValidValues()
    ensures a.Validated(vt, v).None?
  {
  }
}

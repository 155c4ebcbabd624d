/** The PHP string functions the console library relies on, over `string`
    (= `seq<char>`; one character stands for one byte of the source's strings). */
module Strings {

  import opened Base

  /** `str_repeat($s, $n)`. */
  function Repeat(s: string, n: nat): (r: string)
    ensures |r| == |s| * n
  {
    if n == 0 then "" else s + Repeat(s, n - 1)
  }

  /** Repeating a one-character string gives only that character. */
  lemma {:induction false} RepeatChar(c: char, n: nat)
    ensures |Repeat([c], n)| == n
    ensures forall k :: 0 <= k < n ==> Repeat([c], n)[k] == c
  {
    if n > 0 {
      RepeatChar(c, n - 1);
      assert Repeat([c], n) == [c] + Repeat([c], n - 1);
    }
  }

  lemma {:induction false} RepeatAdd(s: string, m: nat, n: nat)
    ensures Repeat(s, m + n) == Repeat(s, m) + Repeat(s, n)
    decreases m
  {
    if m == 0 {
      assert Repeat(s, 0) == "";
    } else {
      RepeatAdd(s, m - 1, n);
      calc {
        Repeat(s, m + n);
        s + Repeat(s, m - 1 + n);
        s + (Repeat(s, m - 1) + Repeat(s, n));
        (s + Repeat(s, m - 1)) + Repeat(s, n);
      }
    }
  }

  function CountChar(s: string, c: char): (n: nat)
    ensures n <= |s|
  {
    if |s| == 0 then 0 else (if s[0] == c then 1 else 0) + CountChar(s[1..], c)
  }

  lemma {:induction false} CountCharAppend(a: string, b: string, c: char)
    ensures CountChar(a + b, c) == CountChar(a, c) + CountChar(b, c)
    decreases |a|
  {
    if |a| == 0 {
      assert a + b == b;
    } else {
      CountCharAppend(a[1..], b, c);
      assert (a + b)[1..] == a[1..] + b;
    }
  }

  /** The index of the first `c` in `s`, if any. */
  function IndexOf(s: string, c: char): (r: Option<nat>)
    ensures r.Some? ==> (r.value < |s| && s[r.value] == c
      && forall k :: 0 <= k < r.value ==> s[k] != c)
    ensures r.None? ==> forall k :: 0 <= k < |s| ==> s[k] != c
  {
    if |s| == 0 then None
    else if s[0] == c then Some(0)
    else match IndexOf(s[1..], c)
      case None => None
      case Some(i) => Some(i + 1)
  }

  /** `explode($d, $s)` for a one-character delimiter: the pieces between the
      delimiters, in order; a string without the delimiter is one piece. */
  function Split(s: string, d: char): (parts: seq<string>)
    ensures |parts| >= 1
    decreases |s|
  {
    match IndexOf(s, d)
    case None => [s]
    case Some(i) => [s[..i]] + Split(s[i + 1..], d)
  }

  /** `implode($sep, $parts)`. */
  function Join(parts: seq<string>, sep: string): (r: string)
  {
    if |parts| == 0 then ""
    else if |parts| == 1 then parts[0]
    else parts[0] + sep + Join(parts[1..], sep)
  }

  /** Joining the pieces of `explode` with the delimiter restores the string. */
  lemma {:induction false} JoinSplit(s: string, d: char)
    ensures Join(Split(s, d), [d]) == s
    decreases |s|
  {
    match IndexOf(s, d)
    case None =>
    case Some(i) =>
      var rest := Split(s[i + 1..], d);
      JoinSplit(s[i + 1..], d);
      assert Split(s, d) == [s[..i]] + rest;
      assert s == s[..i] + [d] + s[i + 1..];
  }

  /** No piece of `explode` contains the delimiter, and there is one more piece
      than there are delimiters. */
  lemma {:induction false} SplitPieces(s: string, d: char)
    ensures |Split(s, d)| == CountChar(s, d) + 1
    ensures forall k :: 0 <= k < |Split(s, d)| ==> CountChar(Split(s, d)[k], d) == 0
    decreases |s|
  {
    match IndexOf(s, d)
    case None =>
      NoCharCount(s, d);
    case Some(i) =>
      SplitPieces(s[i + 1..], d);
      NoCharCount(s[..i], d);
      assert s == s[..i] + ([d] + s[i + 1..]);
      CountCharAppend(s[..i], [d] + s[i + 1..], d);
      CountCharAppend([d], s[i + 1..], d);
  }

  lemma {:induction false} NoCharCount(s: string, d: char)
    requires forall k :: 0 <= k < |s| ==> s[k] != d
    ensures CountChar(s, d) == 0
    decreases |s|
  {
    if |s| > 0 {
      NoCharCount(s[1..], d);
    }
  }

  /** `addcslashes($s, $q)` for a single printable character `$q`: every
      occurrence of `q` gets a backslash in front of it. */
  function Escape(s: string, q: char): (r: string)
    ensures |r| == |s| + CountChar(s, q)
  {
    if |s| == 0 then ""
    else (if s[0] == q then ['\\', q] else [s[0]]) + Escape(s[1..], q)
  }

  /** The inverse of `Escape`: the character just before each `q` is dropped. */
  function Unescape(e: string, q: char): (s: string)
    decreases |e|
  {
    if |e| == 0 then ""
    else if |e| >= 2 && e[1] == q then [q] + Unescape(e[2..], q)
    else [e[0]] + Unescape(e[1..], q)
  }

  lemma {:induction false} UnescapeEscape(s: string, q: char)
    requires q != '\\'
    ensures Unescape(Escape(s, q), q) == s
    decreases |s|
  {
    if |s| > 0 {
      UnescapeEscape(s[1..], q);
      var e := Escape(s, q);
      if s[0] == q {
        assert e == ['\\', q] + Escape(s[1..], q);
        assert e[2..] == Escape(s[1..], q);
      } else {
        assert e == [s[0]] + Escape(s[1..], q);
        assert e[1..] == Escape(s[1..], q);
        // the escaped tail never starts with `q`, so `e[0]` is kept
        EscapeHead(s[1..], q);
      }
    }
  }

  /** An escaped string never starts with `q`: its first `q` has a backslash before it. */
  lemma EscapeHead(s: string, q: char)
    requires q != '\\'
    ensures |Escape(s, q)| > 0 ==> Escape(s, q)[0] != q
  {
  }

  /** In an escaped string every `q` is preceded by a backslash. */
  lemma {:induction false} EscapeQuotesPreceded(s: string, q: char)
    requires q != '\\'
    ensures forall k :: 0 <= k < |Escape(s, q)| && Escape(s, q)[k] == q ==>
      k > 0 && Escape(s, q)[k - 1] == '\\'
    decreases |s|
  {
    if |s| > 0 {
      EscapeQuotesPreceded(s[1..], q);
      var head := if s[0] == q then ['\\', q] else [s[0]];
      assert Escape(s, q) == head + Escape(s[1..], q);
      EscapeHead(s[1..], q);
    }
  }

  /** `q . addcslashes($s, q) . q`: the string between two `q`s, each inner `q`
      escaped. */
  function Quote(s: string, q: char): (r: string)
    requires q != '\\'
    ensures |r| == |s| + 2 + CountChar(s, q)
    ensures r[0] == q && r[|r| - 1] == q
    ensures r[1..|r| - 1] == Escape(s, q)
  {
    [q] + Escape(s, q) + [q]
  }

  /** Removing the outer quotes and the character before every inner quote gives
      back the quoted string. */
  lemma QuoteRoundTrip(s: string, q: char)
    requires q != '\\'
    ensures Unescape(Quote(s, q)[1..|Quote(s, q)| - 1], q) == s
  {
    UnescapeEscape(s, q);
  }

  /** Between the outer quotes every `q` has a backslash just before it. */
  lemma QuoteInnerEscaped(s: string, q: char)
    requires q != '\\'
    ensures forall k :: 1 <= k < |Quote(s, q)| - 1 && Quote(s, q)[k] == q ==>
      Quote(s, q)[k - 1] == '\\'
  {
    var e := Escape(s, q);
    EscapeQuotesPreceded(s, q);
    assert forall k :: 1 <= k < |Quote(s, q)| - 1 ==> Quote(s, q)[k] == e[k - 1];
    forall k | 1 <= k < |Quote(s, q)| - 1 && Quote(s, q)[k] == q
      ensures Quote(s, q)[k - 1] == '\\'
    {
      assert e[k - 1] == q;
    }
  }

  /** The characters `addcslashes` writes unchanged after its backslash. */
  predicate IsPrintable(c: char) { ' ' <= c <= '~' }

  /** `sprintf("%03o", $b)` for a byte: three octal digits. */
  function Octal3(b: nat): (r: string)
    requires b < 256
    ensures |r| == 3 && forall k :: 0 <= k < 3 ==> '0' <= r[k] <= '7'
    ensures (r[0] as int - '0' as int) * 64 + (r[1] as int - '0' as int) * 8 + (r[2] as int - '0' as int) == b
  {
    [('0' as int + b / 64) as char, ('0' as int + b / 8 % 8) as char, ('0' as int + b % 8) as char]
  }

  /** What `addcslashes` writes after the backslash for a listed character:
      the character itself when it is printable, a C escape for the seven
      control characters that have one, otherwise the byte in octal. */
  function CCode(c: char): (r: string)
    ensures 1 <= |r| <= 3
    ensures forall k :: 0 <= k < |r| ==> IsPrintable(r[k])
    ensures IsPrintable(c) <==> r == [c]
  {
    if IsPrintable(c) then [c]
    else if c == '\n' then "n"
    else if c == '\t' then "t"
    else if c == '\r' then "r"
    else if c == 7 as char then "a"
    else if c == 11 as char then "v"
    else if c == 8 as char then "b"
    else if c == 12 as char then "f"
    else Octal3(c as int % 256)
  }

  /** `addcslashes($s, $charlist)` for a list of single characters: every
      listed character is written as a backslash and its `CCode`. */
  function EscapeAll(s: string, cs: set<char>): (r: string)
    ensures |r| >= |s|
  {
    if |s| == 0 then "" else EscapeChar(s[0], cs) + EscapeAll(s[1..], cs)
  }

  /** A string without a listed character is written unchanged. */
  lemma {:induction false} EscapeAllUnlisted(s: string, cs: set<char>)
    requires forall k :: 0 <= k < |s| ==> s[k] !in cs
    ensures EscapeAll(s, cs) == s
    decreases |s|
  {
    if |s| > 0 {
      EscapeAllUnlisted(s[1..], cs);
      assert s == [s[0]] + s[1..];
    }
  }

  /** One character of `addcslashes`' output. */
  function EscapeChar(c: char, cs: set<char>): (r: string)
    ensures |r| >= 1
    ensures c !in cs ==> r == [c]
  {
    if c in cs then ['\\'] + CCode(c) else [c]
  }

  /** Escaping works character by character. */
  lemma {:induction false} EscapeAllAppend(a: string, b: string, cs: set<char>)
    ensures EscapeAll(a + b, cs) == EscapeAll(a, cs) + EscapeAll(b, cs)
    decreases |a|
  {
    if |a| == 0 {
      assert a + b == b;
    } else {
      assert (a + b)[0] == a[0] && (a + b)[1..] == a[1..] + b;
      EscapeAllAppend(a[1..], b, cs);
    }
  }

  /** A listed character never survives unprintable: what is left of the
      list in the output is printable. */
  lemma {:induction false} EscapeAllPrintsListed(s: string, cs: set<char>)
    ensures forall k :: 0 <= k < |EscapeAll(s, cs)| && EscapeAll(s, cs)[k] in cs ==>
      IsPrintable(EscapeAll(s, cs)[k])
    decreases |s|
  {
    if |s| > 0 {
      EscapeAllPrintsListed(s[1..], cs);
      var head := EscapeChar(s[0], cs);
      assert EscapeAll(s, cs) == head + EscapeAll(s[1..], cs);
      assert forall k :: 0 <= k < |head| && head[k] in cs ==> IsPrintable(head[k]);
    }
  }

  /** A listed tab is written as backslash and `t`. */
  lemma EscapeAllTab()
    ensures EscapeAll("a\tb", {'\t'}) == "a\\tb"
  {
    assert "a\tb"[1..] == "\tb";
    assert "\tb"[1..] == "b";
  }

  /** The inverse of `EscapeAll` for a list of printable characters: a
      backslash followed by a listed character stands for that character. */
  function UnescapeListed(e: string, cs: set<char>): (s: string)
    decreases |e|
  {
    if |e| == 0 then ""
    else if |e| >= 2 && e[0] == '\\' && e[1] in cs then [e[1]] + UnescapeListed(e[2..], cs)
    else [e[0]] + UnescapeListed(e[1..], cs)
  }

  lemma {:induction false} UnescapeListedEscapeAll(s: string, cs: set<char>)
    requires forall c :: c in cs ==> IsPrintable(c)
    ensures UnescapeListed(EscapeAll(s, cs), cs) == s
    decreases |s|
  {
    if |s| > 0 {
      UnescapeListedEscapeAll(s[1..], cs);
      var e := EscapeAll(s, cs);
      var t := EscapeAll(s[1..], cs);
      if s[0] in cs {
        assert e == ['\\', s[0]] + t;
        assert e[2..] == t;
      } else {
        assert e == [s[0]] + t;
        assert e[1..] == t;
        // what follows an unlisted character is never a listed one after a backslash
        if |t| > 0 {
          assert t[0] == '\\' || t[0] !in cs;
        }
      }
    }
  }

  /** For a printable quote character the single-character escape is
      `addcslashes` with that character as the list. */
  lemma {:induction false} EscapeIsEscapeAll(s: string, q: char)
    requires IsPrintable(q)
    ensures Escape(s, q) == EscapeAll(s, {q})
    decreases |s|
  {
    if |s| > 0 {
      EscapeIsEscapeAll(s[1..], q);
    }
  }

  predicate IsSlashed(c: char) { c == '\'' || c == '"' || c == '\\' || c == 0 as char }

  /** `addslashes($s)`: a backslash before each single quote, double quote and
      backslash, and NUL written as backslash-zero. */
  function AddSlashes(s: string): (r: string)
    ensures |r| >= |s|
    ensures forall k :: 0 <= k < |r| ==> r[k] != 0 as char
  {
    if |s| == 0 then ""
    else
      var c := s[0];
      (if c == '\'' || c == '"' || c == '\\' then ['\\', c]
       else if c == 0 as char then ['\\', '0']
       else [c]) + AddSlashes(s[1..])
  }

  /** `stripslashes` on what `addslashes` produces: a backslash is dropped
      and the character after it kept, `\0` standing for NUL. */
  function StripSlashes(e: string): (s: string)
    decreases |e|
  {
    if |e| == 0 then ""
    else if |e| >= 2 && e[0] == '\\' then [if e[1] == '0' then 0 as char else e[1]] + StripSlashes(e[2..])
    else [e[0]] + StripSlashes(e[1..])
  }

  lemma {:induction false} StripSlashesAddSlashes(s: string)
    ensures StripSlashes(AddSlashes(s)) == s
    decreases |s|
  {
    if |s| > 0 {
      StripSlashesAddSlashes(s[1..]);
      var e := AddSlashes(s);
      var t := AddSlashes(s[1..]);
      if IsSlashed(s[0]) {
        assert e[2..] == t;
      } else {
        assert e == [s[0]] + t;
        assert e[1..] == t;
      }
    }
  }

  /** Every quote in the output of `addslashes` has a backslash before it. */
  lemma {:induction false} AddSlashesQuotesPreceded(s: string)
    ensures forall k :: 0 <= k < |AddSlashes(s)| && (AddSlashes(s)[k] == '\'' || AddSlashes(s)[k] == '"') ==>
      k > 0 && AddSlashes(s)[k - 1] == '\\'
    decreases |s|
  {
    if |s| > 0 {
      AddSlashesQuotesPreceded(s[1..]);
      var c := s[0];
      var head := if c == '\'' || c == '"' || c == '\\' then ['\\', c]
                  else if c == 0 as char then ['\\', '0'] else [c];
      var t := AddSlashes(s[1..]);
      assert AddSlashes(s) == head + t;
      // the output never starts with a quote
      if |t| > 0 {
        assert t[0] != '\'' && t[0] != '"';
      }
    }
  }

  predicate IsUpper(c: char) { 'A' <= c <= 'Z' }
  predicate IsLower(c: char) { 'a' <= c <= 'z' }
  predicate IsAlnum(c: char) { IsUpper(c) || IsLower(c) || '0' <= c <= '9' }

  /** The character class `[a-zA-Z0-9-]` of the option and argument grammars. */
  predicate IsNameChar(c: char) { IsAlnum(c) || c == '-' }

  /** `strtolower` on ASCII letters. */
  function Lower(s: string): (r: string)
    ensures |r| == |s|
    ensures forall k :: 0 <= k < |s| ==> !IsUpper(r[k])
    ensures forall k :: 0 <= k < |s| && !IsUpper(s[k]) ==> r[k] == s[k]
  {
    if |s| == 0 then ""
    else [if IsUpper(s[0]) then (s[0] as int + 32) as char else s[0]] + Lower(s[1..])
  }

  /** The decimal form PHP gives an integer in string interpolation. */
  function NatToString(n: nat): (s: string)
    ensures IsCanonicalDigits(s)
  {
    var d := [('0' as int + n % 10) as char];
    if n < 10 then d else NatToString(n / 10) + d
  }

  /** Reading the digits back gives the number. */
  lemma {:induction false} NatToStringValue(n: nat)
    ensures DigitsValue(NatToString(n)) == n
  {
    var s := NatToString(n);
    if n >= 10 {
      NatToStringValue(n / 10);
      assert s[..|s| - 1] == NatToString(n / 10);
    }
  }

  /** Canonical digits are the decimal form of the number they spell. */
  lemma {:induction false} CanonicalDigitsRoundTrip(s: string)
    requires IsCanonicalDigits(s)
    ensures NatToString(DigitsValue(s)) == s
    decreases |s|
  {
    var last := s[|s| - 1];
    assert IsDigit(last);
    if |s| == 1 {
      assert s[..0] == "";
      assert DigitsValue(s) == last as int - '0' as int;
    } else {
      var p := s[..|s| - 1];
      assert p[0] == s[0];
      PositiveDigitsValue(p);
      CanonicalDigitsRoundTrip(p);
      var n := DigitsValue(s);
      assert n == DigitsValue(p) * 10 + (last as int - '0' as int);
      assert n / 10 == DigitsValue(p) && n % 10 == last as int - '0' as int;
      assert s == p + [last];
    }
  }

  lemma {:induction false} PositiveDigitsValue(s: string)
    requires |s| > 0 && (forall i :: 0 <= i < |s| ==> IsDigit(s[i])) && s[0] != '0'
    ensures DigitsValue(s) >= 1
    decreases |s|
  {
    if |s| == 1 {
      assert s[..0] == "";
    } else {
      assert s[..|s| - 1][0] == s[0];
      PositiveDigitsValue(s[..|s| - 1]);
    }
  }

  /** The PHP key rule, both ways: the decimal form of an integer in the
      64-bit range, with a minus sign for a negative one, is stored as that
      integer ... */
  lemma NormalizeDecimalKey(i: int)
    requires MinPhpInt <= i <= MaxPhpInt
    ensures i >= 0 ==> NormalizeKey(StrKey(NatToString(i))) == IntKey(i)
    ensures i < 0 ==> NormalizeKey(StrKey("-" + NatToString(-i))) == IntKey(i)
  {
    if i >= 0 {
      NatToStringValue(i);
    } else {
      var d := NatToString(-i);
      NatToStringValue(-i);
      assert ("-" + d)[1..] == d;
    }
  }

  /** ... and a string stored as an integer key is that integer's decimal
      form. */
  lemma IntegerKeyIsDecimal(s: string)
    requires NormalizeKey(StrKey(s)).IntKey?
    ensures var i := NormalizeKey(StrKey(s)).i;
      && (i >= 0 ==> s == NatToString(i))
      && (i < 0 ==> s == "-" + NatToString(-i))
  {
    if IsCanonicalDigits(s) && DigitsValue(s) <= MaxPhpInt {
      CanonicalDigitsRoundTrip(s);
    } else {
      var t := s[1..];
      PositiveDigitsValue(t);
      CanonicalDigitsRoundTrip(t);
      assert s == "-" + t;
    }
  }

  /** Length of the longest prefix of `s` made of name characters. */
  function NameRun(s: string): (n: nat)
    ensures n <= |s|
    ensures forall k :: 0 <= k < n ==> IsNameChar(s[k])
    ensures n < |s| ==> !IsNameChar(s[n])
  {
    if |s| == 0 || !IsNameChar(s[0]) then 0 else 1 + NameRun(s[1..])
  }

  /** The name run of a name followed by a non-name character is the name. */
  lemma {:induction false} NameRunStops(name: string, rest: string)
    requires forall k :: 0 <= k < |name| ==> IsNameChar(name[k])
    requires |rest| == 0 || !IsNameChar(rest[0])
    ensures NameRun(name + rest) == |name|
    decreases |name|
  {
    if |name| > 0 {
      assert (name + rest)[1..] == name[1..] + rest;
      NameRunStops(name[1..], rest);
    } else {
      assert name + rest == rest;
    }
  }

  /** Number of leading `c` characters. */
  function LeadingRun(s: string, c: char): (n: nat)
    ensures n <= |s|
    ensures forall k :: 0 <= k < n ==> s[k] == c
    ensures n < |s| ==> s[n] != c
  {
    if |s| == 0 || s[0] != c then 0 else 1 + LeadingRun(s[1..], c)
  }
}

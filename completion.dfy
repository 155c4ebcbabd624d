/** Quoting helpers of the shell-completion generators (src/Completion/Util.php). */
module Completion {

  import opened Strings

  /** `Util::qq`: the string in double quotes, each inner `"` escaped with a
      backslash and every other character copied. */
  function Qq(s: string): (r: string)
    ensures |r| == |s| + 2 + CountChar(s, '"')
    ensures r[0] == '"' && r[|r| - 1] == '"'
    ensures r[1..|r| - 1] == Escape(s, '"')
  {
    Quote(s, '"')
  }

  /** Removing the outer quotes and the backslash before every inner quote gives
      back the original string. */
  lemma QqRoundTrip(s: string)
    ensures Unescape(Qq(s)[1..|Qq(s)| - 1], '"') == s
  {
    QuoteRoundTrip(s, '"');
  }

  /** Every `"` between the outer quotes has a backslash just before it. */
  lemma QqInnerQuotesEscaped(s: string)
    ensures forall k :: 1 <= k < |Qq(s)| - 1 && Qq(s)[k] == '"' ==> Qq(s)[k - 1] == '\\'
  {
    QuoteInnerEscaped(s, '"');
  }

  /** `Util::array_qq`: `qq` applied to each element, order and length kept. */
  function ArrayQq(a: seq<string>): (r: seq<string>)
    ensures |r| == |a|
    ensures forall i :: 0 <= i < |a| ==> r[i] == Qq(a[i])
  {
    if |a| == 0 then [] else [Qq(a[0])] + ArrayQq(a[1..])
  }

  /** Every element of `array_qq`'s result unquotes to the element it came from. */
  lemma ArrayQqRoundTrip(a: seq<string>, i: nat)
    requires i < |a|
    ensures Unescape(ArrayQq(a)[i][1..|ArrayQq(a)[i]| - 1], '"') == a[i]
  {
    QqRoundTrip(a[i]);
  }
}

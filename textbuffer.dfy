/** The indented text buffer (src/Buffer.php): content accumulated by append
    operations, an indent level and a cached indent string. */
module TextBuffer {

  import opened Base
  import opened Strings

  /** The text `appendLine` adds for each of `ls`, all with the same prefix. */
  function LinesText(ls: seq<string>, prefix: string): (r: string)
    ensures |ls| == 0 ==> r == ""
  {
    if |ls| == 0 then ""
    else LinesText(ls[..|ls| - 1], prefix) + prefix + ls[|ls| - 1] + "\n"
  }

  /** With a prefix free of newlines, the text for `ls` holds exactly one newline
      per line. */
  lemma {:induction false} LinesTextNewlines(ls: seq<string>, prefix: string)
    requires CountChar(prefix, '\n') == 0
    requires forall k :: 0 <= k < |ls| ==> CountChar(ls[k], '\n') == 0
    ensures CountChar(LinesText(ls, prefix), '\n') == |ls|
    decreases |ls|
  {
    if |ls| > 0 {
      var init := ls[..|ls| - 1];
      LinesTextNewlines(init, prefix);
      CountCharAppend(LinesText(init, prefix) + prefix + ls[|ls| - 1], "\n", '\n');
      CountCharAppend(LinesText(init, prefix) + prefix, ls[|ls| - 1], '\n');
      CountCharAppend(LinesText(init, prefix), prefix, '\n');
      assert CountChar("\n", '\n') == 1;
    }
  }

  /** A block with `k` newlines is written as `k + 1` lines, each ending in a
      newline. */
  lemma BlockLineCount(block: string, prefix: string)
    requires CountChar(prefix, '\n') == 0
    ensures CountChar(LinesText(Split(block, '\n'), prefix), '\n') == CountChar(block, '\n') + 1
  {
    SplitPieces(block, '\n');
    LinesTextNewlines(Split(block, '\n'), prefix);
  }

  class Buffer {
    var content: string
    var indent: int
    var indentChar: string
    var indentCache: string

    /** The cache holds the indent of the current level in the current indent
        character. `setIndentChar` alone can make it stale. */
    ghost predicate CacheFresh()
      reads this
    {
      indent >= 0 && indentCache == Repeat(indentChar, indent)
    }

    constructor(content: string)
      ensures this.content == content
      ensures indent == 0 && indentChar == "  " && indentCache == ""
      ensures CacheFresh()
    {
      this.content := content;
      indent := 0;
      indentChar := "  ";
      indentCache := "";
    }

    /** `makeIndent`: `str_repeat` refuses a negative count. */
    function MakeIndent(level: int): (r: Result<string>)
      reads this
      ensures r.Success? <==> level >= 0
      ensures r.Success? ==> |r.value| == |indentChar| * level
      ensures r.Success? ==> r.value == Repeat(indentChar, level)
    {
      if level < 0 then Failure(ValueError("str_repeat(): Argument #2 ($times) must be greater than or equal to 0"))
      else Success(Repeat(indentChar, level))
    }

    /** The prefix `appendIndent`/`appendLine` use: a fresh indent for a
        non-zero level argument, the cached one for 0. */
    function LinePrefix(level: int): (r: Result<string>)
      reads this
      ensures level == 0 ==> r == Success(indentCache)
      ensures level != 0 ==> r == MakeIndent(level)
    {
      if level != 0 then MakeIndent(level) else Success(indentCache)
    }

    /** `updateIndentCache`. */
    method UpdateIndentCache() returns (err: Option<Error>)
      modifies this
      ensures content == old(content) && indent == old(indent) && indentChar == old(indentChar)
      ensures err.None? <==> indent >= 0
      ensures err.None? ==> CacheFresh()
      ensures err.Some? ==> indentCache == old(indentCache)
    {
      var made := MakeIndent(indent);
      match made
      case Failure(e) => err := Some(e);
      case Success(s) => indentCache := s; err := None;
    }

    /** `indent()`: one level deeper. */
    method Indent() returns (err: Option<Error>)
      modifies this
      ensures indent == old(indent) + 1
      ensures content == old(content) && indentChar == old(indentChar)
      ensures old(indent) >= 0 ==> err.None? && CacheFresh()
      ensures err.None? <==> indent >= 0
      ensures err.Some? ==> indentCache == old(indentCache)
    {
      indent := indent + 1;
      err := UpdateIndentCache();
    }

    /** `setIndent($n)`: the cache is refreshed only when the level changes. */
    method SetIndent(n: int) returns (err: Option<Error>)
      modifies this
      ensures indent == n
      ensures content == old(content) && indentChar == old(indentChar)
      ensures old(indent) == n ==> err.None? && indentCache == old(indentCache)
      ensures old(indent) != n && n >= 0 ==> err.None? && CacheFresh()
      ensures old(indent) != n && n < 0 ==> err.Some? && indentCache == old(indentCache)
    {
      err := None;
      if indent != n {
        indent := n;
        err := UpdateIndentCache();
      }
    }

    function GetIndent(): (r: int)
      reads this
      ensures r == indent
    {
      indent
    }

    /** `setIndentChar` changes the character only; the cache keeps the old one. */
    method SetIndentChar(c: string)
      modifies this
      ensures indentChar == c
      ensures content == old(content) && indent == old(indent) && indentCache == old(indentCache)
    {
      indentChar := c;
    }

    function GetIndentChar(): (r: string)
      reads this
      ensures r == indentChar
    {
      indentChar
    }

    /** `unIndent()`: one level up, never below zero. */
    method UnIndent() returns (err: Option<Error>)
      modifies this
      ensures old(indent) > 0 ==> indent == old(indent) - 1 && err.None? && CacheFresh()
      ensures old(indent) <= 0 ==> indent == old(indent) && err.None? && indentCache == old(indentCache)
      ensures old(indent) >= 0 ==> indent >= 0
      ensures content == old(content) && indentChar == old(indentChar)
    {
      err := None;
      if indent > 0 {
        indent := indent - 1;
        err := UpdateIndentCache();
      }
    }

    method Append(text: string)
      modifies this
      ensures content == old(content) + text
      ensures indent == old(indent) && indentChar == old(indentChar) && indentCache == old(indentCache)
    {
      content := content + text;
    }

    method AppendIndent(level: int) returns (err: Option<Error>)
      modifies this
      ensures LinePrefix(level).Success? ==> err.None? && content == old(content) + LinePrefix(level).value
      ensures LinePrefix(level).Failure? ==> err.Some? && content == old(content)
      ensures err.None? <==> level >= 0
      ensures indent == old(indent) && indentChar == old(indentChar) && indentCache == old(indentCache)
    {
      var prefix := LinePrefix(level);
      match prefix
      case Failure(e) => err := Some(e);
      case Success(p) => content := content + p; err := None;
    }

    /** `appendLine($line, $level)`: prefix, the line, a newline. */
    method AppendLine(line: string, level: int) returns (err: Option<Error>)
      modifies this
      ensures LinePrefix(level).Success? ==>
        err.None? && content == old(content) + LinePrefix(level).value + line + "\n"
      ensures LinePrefix(level).Failure? ==> err.Some? && content == old(content)
      ensures indent == old(indent) && indentChar == old(indentChar) && indentCache == old(indentCache)
    {
      var prefix := LinePrefix(level);
      match prefix
      case Failure(e) => err := Some(e);
      case Success(p) => content := content + p + line + "\n"; err := None;
    }

    /** `appendLines`: one `appendLine` per element, in order. */
    method AppendLines(lines: seq<string>, level: int) returns (err: Option<Error>)
      modifies this
      ensures LinePrefix(level).Success? ==>
        err.None? && content == old(content) + LinesText(lines, LinePrefix(level).value)
      ensures LinePrefix(level).Failure? ==>
        content == old(content) && (err.Some? <==> |lines| > 0)
      ensures indent == old(indent) && indentChar == old(indentChar) && indentCache == old(indentCache)
    {
      err := None;
      var i := 0;
      while i < |lines|
        invariant 0 <= i <= |lines|
        invariant indent == old(indent) && indentChar == old(indentChar) && indentCache == old(indentCache)
        invariant LinePrefix(level).Success? ==>
          content == old(content) + LinesText(lines[..i], LinePrefix(level).value)
        invariant LinePrefix(level).Failure? ==> content == old(content) && i == 0
        invariant err.None?
      {
        var e := AppendLine(lines[i], level);
        if e.Some? {
          return e;
        }
        assert lines[..i + 1][..i] == lines[..i];
        i := i + 1;
      }
      assert lines[..i] == lines;
    }

    /** `appendEscape($line, $charlist)`: `addslashes` without a list,
        `addcslashes` with one. */
    method AppendEscape(line: string, charlist: Option<set<char>>)
      modifies this
      ensures charlist.None? ==> content == old(content) + AddSlashes(line)
      ensures charlist.Some? ==> content == old(content) + EscapeAll(line, charlist.value)
      ensures indent == old(indent) && indentChar == old(indentChar) && indentCache == old(indentCache)
    {
      if charlist.None? {
        content := content + AddSlashes(line);
      } else {
        content := content + EscapeAll(line, charlist.value);
      }
    }

    method AppendQuote(str: string)
      modifies this
      ensures content == old(content) + Quote(str, '"')
      ensures indent == old(indent) && indentChar == old(indentChar) && indentCache == old(indentCache)
    {
      content := content + Quote(str, '"');
    }

    method AppendSingleQuote(str: string)
      modifies this
      ensures content == old(content) + Quote(str, '\'')
      ensures indent == old(indent) && indentChar == old(indentChar) && indentCache == old(indentCache)
    {
      content := content + Quote(str, '\'');
    }

    method NewLine()
      modifies this
      ensures content == old(content) + "\n"
      ensures indent == old(indent) && indentChar == old(indentChar) && indentCache == old(indentCache)
    {
      content := content + "\n";
    }

    /** `appendBlock`: the block split on newlines, one `appendLine` per piece. */
    method AppendBlock(block: string, level: int) returns (err: Option<Error>)
      modifies this
      ensures LinePrefix(level).Success? ==>
        err.None? && content == old(content) + LinesText(Split(block, '\n'), LinePrefix(level).value)
      ensures LinePrefix(level).Failure? ==> err.Some? && content == old(content)
      ensures indent == old(indent) && indentChar == old(indentChar) && indentCache == old(indentCache)
    {
      var lines := Split(block, '\n');
      err := AppendLines(lines, level);
    }

    /** `appendBuffer($buf, $level)`: without a level the other content is
        appended as it is; with one, this buffer's level is set to it for good
        and every line of the other buffer is appended with the cached indent.
        The other buffer may be this one: its lines are taken before appending. */
    method AppendBuffer(buf: Buffer, level: int) returns (err: Option<Error>)
      modifies this
      ensures level == 0 ==>
        (err.None? && content == old(content) + old(buf.content)
         && indent == old(indent) && indentCache == old(indentCache))
      ensures level != 0 ==> indent == level
      ensures level != 0 && (level > 0 || old(indent) == level) ==>
        (err.None? && content == old(content) +
         LinesText(Split(old(buf.content), '\n'),
                   if old(indent) == level then old(indentCache) else Repeat(indentChar, level)))
      ensures level < 0 && old(indent) != level ==>
        (err.Some? && content == old(content) && indentCache == old(indentCache))
      ensures indentChar == old(indentChar)
    {
      if level != 0 {
        err := SetIndent(level);
        if err.Some? {
          return;
        }
        var lines := buf.Lines();
        err := AppendLines(lines, 0);
      } else {
        content := content + buf.ToString();
        err := None;
      }
    }

    /** `lines()`: the content split on newlines. */
    function Lines(): (r: seq<string>)
      reads this
      ensures |r| == CountChar(content, '\n') + 1
      ensures forall k :: 0 <= k < |r| ==> CountChar(r[k], '\n') == 0
      ensures Join(r, "\n") == content
    {
      SplitPieces(content, '\n');
      JoinSplit(content, '\n');
      Split(content, '\n')
    }

    function ToString(): (r: string)
      reads this
      ensures r == content
    {
      content
    }
  }
}

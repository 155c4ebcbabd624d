/** Per-cell attributes of the table component
    (src/Component/Table/CellAttribute.php): overflow handling of a cell's text
    and padding and alignment of a rendered cell. */
module Table {

  import opened Base
  import opened Strings

  const AlignRight: int := 1
  const AlignLeft: int := 2
  const AlignCenter: int := 3

  const Wrap: int := 1
  const Clip: int := 2
  const Ellipsis: int := 3

  datatype PadType = PadRight | PadLeft | PadBoth

  /** `str_pad($s, $width, ' ', $type)`: never shortens; the padding is split
      with the smaller half on the left for `STR_PAD_BOTH`. */
  function StrPad(s: string, width: int, t: PadType): (r: string)
  {
    if width <= |s| then s
    else
      var total := width - |s|;
      match t
      case PadRight => s + Repeat(" ", total)
      case PadLeft => Repeat(" ", total) + s
      case PadBoth => Repeat(" ", total / 2) + s + Repeat(" ", total - total / 2)
  }

  /** The padded cell is as wide as asked, or the cell itself when it is wider;
      the cell text is kept whole, and everything around it is spaces. */
  lemma StrPadShape(s: string, width: int, t: PadType)
    ensures |StrPad(s, width, t)| == if width <= |s| then |s| else width
    ensures var left := LeftPadding(|s|, width, t);
      0 <= left <= |StrPad(s, width, t)| - |s|
      && StrPad(s, width, t)[left..left + |s|] == s
      && (forall k :: 0 <= k < left ==> StrPad(s, width, t)[k] == ' ')
      && (forall k :: left + |s| <= k < |StrPad(s, width, t)| ==> StrPad(s, width, t)[k] == ' ')
  {
    var r := StrPad(s, width, t);
    if width > |s| {
      var total := width - |s|;
      RepeatChar(' ', total);
      RepeatChar(' ', total / 2);
      RepeatChar(' ', total - total / 2);
      var left := LeftPadding(|s|, width, t);
      assert r[left..left + |s|] == s;
    }
  }

  /** How many spaces `StrPad` puts before the text. */
  function LeftPadding(len: nat, width: int, t: PadType): (n: nat)
    ensures width <= len ==> n == 0
    ensures t == PadRight ==> n == 0
  {
    if width <= len then 0
    else match t
      case PadRight => 0
      case PadLeft => width - len
      case PadBoth => (width - len) / 2
  }

  /** `mb_substr($s, 0, $n)`: a negative length leaves that many characters off
      the end. */
  function Prefix(s: string, n: int): (r: string)
    ensures |r| <= |s| && r == s[..|r|]
    ensures 0 <= n <= |s| ==> |r| == n
    ensures n < 0 && -n <= |s| ==> |r| == |s| + n
  {
    if n >= 0 then (if n <= |s| then s[..n] else s)
    else if |s| + n > 0 then s[..|s| + n] else ""
  }

  /** The longest line (`max(array_map('mb_strlen', $lines))`). */
  function MaxLength(lines: seq<string>): (m: nat)
    requires |lines| > 0
    ensures forall k :: 0 <= k < |lines| ==> |lines[k]| <= m
    ensures exists k :: 0 <= k < |lines| && |lines[k]| == m
  {
    if |lines| == 1 then |lines[0]|
    else
      var rest := MaxLength(lines[1..]);
      assert forall k :: 1 <= k < |lines| ==> lines[k] == lines[1..][k - 1];
      if |lines[0]| >= rest then |lines[0]| else rest
  }

  /** The outcome of `handleTextOverflow`: the lines of the cell, or the point
      where the text would be handed to `wordwrap`. */
  datatype Overflow = Lines(lines: seq<string>) | NeedsWordwrap(cell: string, width: int)

  /** The table style's padding settings a cell is rendered with. */
  datatype CellStyle = CellStyle(cellPaddingChar: string, cellPadding: int)

  /** `renderCell`'s value: the padded text, or that text with the colours the
      formatter would decorate it with. */
  datatype Rendered = Plain(text: string) | Decorated(text: string, fg: Value, bg: Value)

  class CellAttribute {
    var alignment: Value
    var textOverflow: int
    var formatter: Option<string -> string>
    var backgroundColor: Value
    var foregroundColor: Value

    constructor()
      ensures alignment == Int(AlignLeft) && textOverflow == Wrap
      ensures formatter.None? && backgroundColor == Null && foregroundColor == Null
    {
      alignment := Int(AlignLeft);
      textOverflow := Wrap;
      formatter := None;
      backgroundColor := Null;
      foregroundColor := Null;
    }

    method SetAlignment(a: Value)
      modifies this
      ensures alignment == a
      ensures textOverflow == old(textOverflow) && formatter == old(formatter)
      ensures backgroundColor == old(backgroundColor) && foregroundColor == old(foregroundColor)
    {
      alignment := a;
    }

    method SetTextOverflow(t: int)
      modifies this
      ensures textOverflow == t
      ensures alignment == old(alignment) && formatter == old(formatter)
      ensures backgroundColor == old(backgroundColor) && foregroundColor == old(foregroundColor)
    {
      textOverflow := t;
    }

    method SetFormatter(f: Option<string -> string>)
      modifies this
      ensures formatter == f
      ensures alignment == old(alignment) && textOverflow == old(textOverflow)
      ensures backgroundColor == old(backgroundColor) && foregroundColor == old(foregroundColor)
    {
      formatter := f;
    }

    method SetBackgroundColor(c: Value)
      modifies this
      ensures backgroundColor == c
      ensures alignment == old(alignment) && textOverflow == old(textOverflow)
      ensures formatter == old(formatter) && foregroundColor == old(foregroundColor)
    {
      backgroundColor := c;
    }

    method SetForegroundColor(c: Value)
      modifies this
      ensures foregroundColor == c
      ensures alignment == old(alignment) && textOverflow == old(textOverflow)
      ensures formatter == old(formatter) && backgroundColor == old(backgroundColor)
    {
      foregroundColor := c;
    }

    function GetForegroundColor(): (r: Value)
      reads this
      ensures r == foregroundColor
    {
      foregroundColor
    }

    function GetBackgroundColor(): (r: Value)
      reads this
      ensures r == backgroundColor
    {
      backgroundColor
    }

    /** `format($cell)`: the formatter's result, or the cell itself without one. */
    function Format(cell: string): (r: string)
      reads this
      ensures formatter.None? ==> r == cell
      ensures formatter.Some? ==> r == formatter.value(cell)
    {
      match formatter
      case None => cell
      case Some(f) => f(cell)
    }

    /** `handleTextOverflow($cell, $maxWidth)`. */
    function HandleTextOverflow(cell: string, maxWidth: int): (r: Overflow)
      reads this
      ensures var lines := Split(cell, '\n');
        && (textOverflow == Wrap ==>
             (r.NeedsWordwrap? <==> MaxLength(lines) > maxWidth)
             && (r.Lines? ==> r.lines == lines))
        && (textOverflow != Wrap ==> r.Lines?)
        && (textOverflow == Ellipsis && |lines[0]| > maxWidth ==>
             r.lines == [Prefix(lines[0], maxWidth - 2) + ".."])
        && (textOverflow == Clip && |lines[0]| > maxWidth ==>
             r.lines == [Prefix(lines[0], maxWidth)])
        && ((textOverflow == Ellipsis || textOverflow == Clip) && |lines[0]| <= maxWidth ==>
             r.lines == lines)
        && (textOverflow !in {Wrap, Clip, Ellipsis} ==> r.lines == lines)
    {
      var lines := Split(cell, '\n');
      if textOverflow == Wrap then
        if MaxLength(lines) > maxWidth then NeedsWordwrap(cell, maxWidth) else Lines(lines)
      else if textOverflow == Ellipsis then
        if |lines[0]| > maxWidth then Lines([Prefix(lines[0], maxWidth - 2) + ".."]) else Lines(lines)
      else if textOverflow == Clip then
        if |lines[0]| > maxWidth then Lines([Prefix(lines[0], maxWidth)]) else Lines(lines)
      else Lines(lines)
    }

    /** The padding type `renderCell` uses: only the integers 1 and 3 select
        right and centre alignment, everything else aligns left. */
    function PadFor(): (t: PadType)
      reads this
      ensures t == PadLeft <==> alignment == Int(AlignRight)
      ensures t == PadBoth <==> alignment == Int(AlignCenter)
    {
      if alignment == Int(AlignLeft) then PadRight
      else if alignment == Int(AlignRight) then PadLeft
      else if alignment == Int(AlignCenter) then PadBoth
      else PadRight
    }

    /** `renderCell($cell, $width, $style)`: padding, the aligned cell, padding;
        decorated when a colour is set. */
    function RenderCell(cell: string, width: int, style: CellStyle): (r: Result<Rendered>)
      reads this
      ensures r.Success? <==> style.cellPadding >= 0
      ensures r.Success? ==>
        var pad := Repeat(style.cellPaddingChar, style.cellPadding);
        r.value.text == pad + StrPad(cell, width, PadFor()) + pad
      ensures r.Success? ==> (r.value.Decorated? <==> Truthy(backgroundColor) || Truthy(foregroundColor))
    {
      if style.cellPadding < 0 then
        Failure(ValueError("str_repeat(): Argument #2 ($times) must be greater than or equal to 0"))
      else
        var pad := Repeat(style.cellPaddingChar, style.cellPadding);
        var out := pad + StrPad(cell, width, PadFor()) + pad;
        if Truthy(backgroundColor) || Truthy(foregroundColor) then
          Success(Decorated(out, foregroundColor, backgroundColor))
        else Success(Plain(out))
    }
  }

  /** Under ELLIPSIS an overlong first line becomes exactly `maxWidth` wide
      (for a width of at least 2), ending in "..". */
  lemma EllipsisWidth(c: CellAttribute, cell: string, maxWidth: int)
    requires c.textOverflow == Ellipsis && maxWidth >= 2
    requires |Split(cell, '\n')[0]| > maxWidth
    ensures var r := c.HandleTextOverflow(cell, maxWidth);
      |r.lines| == 1 && |r.lines[0]| == maxWidth
      && r.lines[0][maxWidth - 2..] == ".."
      && r.lines[0][..maxWidth - 2] == Split(cell, '\n')[0][..maxWidth - 2]
  {
  }

  /** Under CLIP an overlong first line is cut to exactly `maxWidth`
      characters; the other lines are dropped. */
  lemma ClipWidth(c: CellAttribute, cell: string, maxWidth: int)
    requires c.textOverflow == Clip && maxWidth >= 0
    requires |Split(cell, '\n')[0]| > maxWidth
    ensures var r := c.HandleTextOverflow(cell, maxWidth);
      r.lines == [Split(cell, '\n')[0][..maxWidth]]
  {
  }

  /** A rendered cell is the padding, the cell text placed by its alignment
      between spaces, and the padding again. */
  lemma RenderedLayout(c: CellAttribute, cell: string, width: int, style: CellStyle)
    requires style.cellPadding >= 0
    ensures var r := c.RenderCell(cell, width, style);
      var p := |style.cellPaddingChar| * style.cellPadding;
      var inner := if width <= |cell| then |cell| else width;
      var left := LeftPadding(|cell|, width, c.PadFor());
      r.Success? && |r.value.text| == 2 * p + inner
      && r.value.text[p + left..p + left + |cell|] == cell
  {
    var pad := Repeat(style.cellPaddingChar, style.cellPadding);
    var padded := StrPad(cell, width, c.PadFor());
    StrPadShape(cell, width, c.PadFor());
    var left := LeftPadding(|cell|, width, c.PadFor());
    var text := pad + padded + pad;
    assert text[|pad| + left..|pad| + left + |cell|] == padded[left..left + |cell|];
  }
}

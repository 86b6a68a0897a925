/** The dashboard renderer: `Draw` compares the frame with the previous one and redraws
    only from the first changed row. Fed to the terminal, that partial redraw leaves
    exactly what clearing the screen and printing every row would leave. */
module Dashboard {
  import opened Ansi
  import opened Terminal

  type Frame = seq<seq<Item>>  // rows as items; `Lines` gives the text rows

  function Lines(frame: Frame): seq<string> {
    seq(|frame|, i requires 0 <= i < |frame| => Render(frame[i]))
  }

  const HOME: string := [ESC, '['] + "" + ['H']
  const CLEAR: string := [ESC, '['] + "2" + ['J']
  const ERASE_BELOW: string := [ESC, '['] + "" + ['J']
  const TOP_LEFT: string := [ESC, '['] + "1;1" + ['H']
  const ENTER_ALT: string := [ESC, '['] + "?1049" + ['h'] + ([ESC, '['] + "?25" + ['l'])

  /** The cursor address of the first column of a row, counted from one. */
  function RowAddress(n: nat): string { [ESC, '['] + (Decimal(n) + ";1") + ['H'] }

  // ----- The renderer -----

  function ClampAll(lines: seq<string>, width: int): seq<string> {
    seq(|lines|, i requires 0 <= i < |lines| => Clamp(lines[i], width))
  }

  /** The rows Draw works with: clamped on a sized alternate screen, never empty. */
  function Prepared(lines: seq<string>, alt: bool, width: int): (r: seq<string>)
    ensures r != []
  {
    var rows := if alt && width > 0 then ClampAll(lines, width) else lines;
    if rows == [] then [""] else rows
  }

  /** The first index at which `lines` differs from or runs past `prev`, or the length of `lines`. */
  function FirstChanged(prev: seq<string>, lines: seq<string>): (k: nat)
    ensures k <= |lines| && (k < |lines| ==> k >= |prev| || prev[k] != lines[k])
    ensures k <= |prev| && lines[..k] == prev[..k]
  {
    if lines == [] || prev == [] || prev[0] != lines[0] then 0
    else
      assert lines == [lines[0]] + lines[1..] && prev == [prev[0]] + prev[1..];
      1 + FirstChanged(prev[1..], lines[1..])
  }

  function Join(lines: seq<string>, sep: string): string {
    if lines == [] then "" else if |lines| == 1 then lines[0] else lines[0] + (sep + Join(lines[1..], sep))
  }

  /** What Draw writes, given the previous rows and the prepared ones. */
  function DrawOutput(prev: seq<string>, lines: seq<string>, alt: bool): string {
    if lines == prev then ""
    else if !alt then Join(lines, "\n") + "\n\n"
    else
      var k := FirstChanged(prev, lines);
      RowAddress(k + 1) + ERASE_BELOW + Join(lines[k..], "\r\n") + TOP_LEFT
  }

  /** Off the terminal a frame that changed is written as it is, a line each and a blank one. */
  lemma {:induction false} PipedDraw(prev: seq<string>, frame: seq<string>, width: int)
    requires frame != [] && frame != prev
    ensures DrawOutput(prev, Prepared(frame, false, width), false) == AsLines(frame) + "\n"
  {
    JoinedLines(frame);
    assert Join(frame, "\n") + "\n\n" == (Join(frame, "\n") + "\n") + "\n";
  }

  function AsLines(frame: seq<string>): string {
    if frame == [] then "" else frame[0] + "\n" + AsLines(frame[1..])
  }

  lemma {:induction false} JoinedLines(frame: seq<string>)
    requires frame != []
    ensures AsLines(frame) == Join(frame, "\n") + "\n"
  {
    if |frame| > 1 {
      JoinedLines(frame[1..]);
      var rest := Join(frame[1..], "\n");
      assert frame[0] + "\n" + (rest + "\n") == frame[0] + ("\n" + rest) + "\n";
    }
  }

  class Renderer {
    var out: string        // everything written so far
    var prev: seq<string>
    var width: int
    const alt: bool

    constructor (width: int, alt: bool)
      ensures this.width == width && this.alt == alt && prev == []
      ensures out == if alt then ENTER_ALT + HOME + CLEAR else ""
    {
      this.width := width;
      this.alt := alt;
      prev := [];
      out := if alt then ENTER_ALT + HOME + CLEAR else "";
    }

    method Resize(w: int)
      modifies this
      ensures width == w && prev == []
      ensures out == old(out) + if alt then HOME + CLEAR else ""
    {
      width := w;
      prev := [];
      if alt {
        out := out + (HOME + CLEAR);
      } else {
        out := out + "";
      }
    }

    method Draw(frame: seq<string>)
      modifies this`out, this`prev
      ensures prev == Prepared(frame, alt, width)
      ensures out == old(out) + DrawOutput(old(prev), Prepared(frame, alt, width), alt)
    {
      hide Join, FirstChanged, Clamp, RowAddress;
      var lines := frame;
      if alt && width > 0 {
        lines := ClampLoop(lines, width);
      }
      if |lines| == 0 {
        lines := [""];
      }
      var firstChanged := CompareLoop(prev, lines);
      SameRows(prev, lines, firstChanged);
      if firstChanged == -1 && |lines| == |prev| {
        assert out + "" == out;
        return;
      }
      if firstChanged == -1 {
        firstChanged := |lines|;
      }
      var b := "";
      if !alt {
        b := JoinLoop(lines, 0, "\n");
        assert lines[0..] == lines;
        b := b + "\n\n";
      } else {
        var rows := JoinLoop(lines, firstChanged, "\r\n");
        b := RowAddress(firstChanged + 1) + ERASE_BELOW + rows + TOP_LEFT;
      }
      out := out + b;
      prev := lines;
    }
  }

  method ClampLoop(lines: seq<string>, width: int) returns (clamped: seq<string>)
    ensures clamped == ClampAll(lines, width)
  {
    clamped := [];
    var i := 0;
    while i < |lines|
      invariant 0 <= i <= |lines| && clamped == ClampAll(lines, width)[..i]
    {
      var row := ClampANSIWidth(lines[i], width);
      clamped := clamped + [row];
      i := i + 1;
    }
  }

  /** The comparing loop: -1 when no row of `lines` differs from `prev`. */
  method CompareLoop(prev: seq<string>, lines: seq<string>) returns (firstChanged: int)
    ensures firstChanged == if FirstChanged(prev, lines) == |lines| then -1 else FirstChanged(prev, lines)
  {
    firstChanged := -1;
    var i := 0;
    while i < |lines|
      invariant 0 <= i <= |lines| && i <= |prev|
      invariant lines[..i] == prev[..i]
    {
      if i >= |prev| || prev[i] != lines[i] {
        ChangedAt(prev, lines, i);
        return i;
      }
      i := i + 1;
    }
    ChangedAt(prev, lines, i);
  }

  lemma {:induction false} SameRows(prev: seq<string>, lines: seq<string>, changed: int)
    requires changed == if FirstChanged(prev, lines) == |lines| then -1 else FirstChanged(prev, lines)
    ensures changed == -1 && |lines| == |prev| <==> lines == prev
  {
    var k := FirstChanged(prev, lines);
    assert k == |lines| ==> lines[..k] == lines;
    assert k == |prev| ==> prev[..k] == prev;
  }

  lemma {:induction false} ChangedAt(prev: seq<string>, lines: seq<string>, k: nat)
    requires k <= |lines| && k <= |prev| && lines[..k] == prev[..k]
    requires k < |lines| ==> k >= |prev| || prev[k] != lines[k]
    ensures FirstChanged(prev, lines) == k
  {
    var j := FirstChanged(prev, lines);
    assert forall i | 0 <= i < j :: lines[i] == lines[..j][i] && prev[i] == prev[..j][i];
    assert forall i | 0 <= i < k :: lines[i] == lines[..k][i] && prev[i] == prev[..k][i];
  }

  lemma {:induction false} JoinSnoc(lines: seq<string>, last: string, sep: string)
    ensures Join(lines + [last], sep) == if lines == [] then last else Join(lines, sep) + (sep + last)
  {
    if lines == [] {
      assert lines + [last] == [last];
    } else {
      assert (lines + [last])[0] == lines[0] && (lines + [last])[1..] == lines[1..] + [last];
      JoinSnoc(lines[1..], last, sep);
      if |lines| > 1 {
        var rest := Join(lines[1..], sep);
        assert lines[0] + (sep + (rest + (sep + last))) == (lines[0] + (sep + rest)) + (sep + last);
      }
    }
  }

  /** The writing loop: rows from `first` on, separated by `sep`. */
  method JoinLoop(lines: seq<string>, first: nat, sep: string) returns (b: string)
    requires first <= |lines|
    ensures b == Join(lines[first..], sep)
  {
    b := "";
    var i := first;
    while i < |lines|
      invariant first <= i <= |lines| && b == Join(lines[first..i], sep)
    {
      assert lines[first..i + 1] == lines[first..i] + [lines[i]];
      JoinSnoc(lines[first..i], lines[i], sep);
      if i > first {
        b := b + (sep + lines[i]);
      } else {
        b := b + lines[i];
      }
      i := i + 1;
    }
    assert lines[first..i] == lines[first..];
  }
}

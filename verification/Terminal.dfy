/** A small terminal: a grid of styled cells, a cursor, and the control functions the
    dashboard uses, namely CUP (section 8.3.21 of ECMA-48), ED (section 8.3.39), SGR,
    carriage return and line feed. Every rune takes one column; printing past the last
    column wraps. */
module Terminal {
  import opened Ansi

  datatype Cell = Cell(ch: char, style: seq<string>)

  type Row = seq<Cell>

  /** The style of a cell is the list of SGR parameters since the last reset. */
  datatype Mode = Ground | Escaped | InCsi(params: string)

  datatype Term = Term(width: nat, rows: seq<Row>, row: nat, col: nat, style: seq<string>, mode: Mode)

  ghost predicate Valid(t: Term) {
    && t.width > 0 && t.row < |t.rows| && t.col <= t.width
    && forall i | 0 <= i < |t.rows| :: |t.rows[i]| == t.width
  }

  function Blanks(n: nat, style: seq<string>): (r: Row)
    ensures |r| == n && forall i | 0 <= i < n :: r[i] == Cell(' ', style)
  {
    seq(n, _ => Cell(' ', style))
  }

  // ----- Decimal parameters -----

  function Digit(d: nat): char
    requires d < 10
  {
    ('0' as int + d) as char
  }

  function Decimal(n: nat): (s: string)
    ensures s != "" && forall i | 0 <= i < |s| :: '0' <= s[i] <= '9'
  {
    if n < 10 then [Digit(n)] else Decimal(n / 10) + [Digit(n % 10)]
  }

  function DigitValue(c: char): nat {
    if '0' <= c <= '9' then (c as int) - ('0' as int) else 0
  }

  function Number(s: string): nat {
    if s == "" then 0 else 10 * Number(s[..|s| - 1]) + DigitValue(s[|s| - 1])
  }

  lemma {:induction false} NumberOfDecimal(n: nat)
    ensures Number(Decimal(n)) == n
  {
    if n < 10 {
      assert Decimal(n)[..0] == "" && Number(Decimal(n)[..0]) == 0;
    } else {
      NumberOfDecimal(n / 10);
      assert Decimal(n)[..|Decimal(n)| - 1] == Decimal(n / 10);
    }
  }

  /** The index of the first semicolon, or the length. */
  function Semicolon(p: string): (k: nat)
    ensures k <= |p| && (k < |p| ==> p[k] == ';') && forall i | 0 <= i < k :: p[i] != ';'
  {
    if p == "" then 0 else if p[0] == ';' then 0 else 1 + Semicolon(p[1..])
  }

  /** A missing or zero parameter means one. */
  function Param(s: string): (n: nat)
    ensures n >= 1
  {
    if Number(s) == 0 then 1 else Number(s)
  }

  function Min(a: nat, b: nat): nat { if a < b then a else b }

  // ----- Control functions -----

  function MoveTo(t: Term, p: string): (t': Term)
    requires Valid(t)
    ensures Valid(t')
  {
    var k := Semicolon(p);
    var c := if k < |p| then Param(p[k + 1..]) else 1;
    var r := Min(Param(p[..k]), |t.rows|);
    assert 1 <= r <= |t.rows|;
    t.(row := r - 1, col := Min(c, t.width) - 1)
  }

  /** Row `i` once everything from the cursor on is erased. */
  function ErasedRow(t: Term, i: nat): (r: Row)
    requires Valid(t) && i < |t.rows|
    ensures |r| == t.width
  {
    if i < t.row then t.rows[i]
    else if i == t.row then t.rows[i][..t.col] + Blanks(t.width - t.col, t.style)
    else Blanks(t.width, t.style)
  }

  function EraseBelow(t: Term): (t': Term)
    requires Valid(t)
    ensures Valid(t')
  {
    t.(rows := seq(|t.rows|, i requires 0 <= i < |t.rows| => ErasedRow(t, i)))
  }

  function EraseAll(t: Term): (t': Term)
    requires Valid(t)
    ensures Valid(t')
  {
    t.(rows := seq(|t.rows|, i => Blanks(t.width, t.style)))
  }

  function Restyle(style: seq<string>, p: string): seq<string> {
    if p == "" || p == "0" then [] else style + [p]
  }

  /** Unknown control sequences change nothing. */
  function Dispatch(t: Term, p: string, f: char): (t': Term)
    requires Valid(t)
    ensures Valid(t')
  {
    if f == 'H' then MoveTo(t, p)
    else if f == 'J' && (p == "" || p == "0") then EraseBelow(t)
    else if f == 'J' && p == "2" then EraseAll(t)
    else if f == 'm' then t.(style := Restyle(t.style, p))
    else t
  }

  function LineFeed(t: Term): (t': Term)
    requires Valid(t)
    ensures Valid(t') && t'.col == t.col && t'.width == t.width
  {
    if t.row + 1 < |t.rows| then t.(row := t.row + 1)
    else t.(rows := t.rows[1..] + [Blanks(t.width, t.style)])
  }

  function Print(t: Term, c: char): (t': Term)
    requires Valid(t)
    ensures Valid(t')
  {
    var u := if t.col == t.width then LineFeed(t).(col := 0) else t;
    u.(rows := u.rows[u.row := u.rows[u.row][u.col := Cell(c, u.style)]], col := u.col + 1)
  }

  function Feed(t: Term, c: char): (t': Term)
    requires Valid(t)
    ensures Valid(t')
  {
    match t.mode
    case Ground =>
      if c == ESC then t.(mode := Escaped)
      else if c == '\r' then t.(col := 0)
      else if c == '\n' then LineFeed(t)
      else Print(t, c)
    case Escaped => if c == '[' then t.(mode := InCsi("")) else t.(mode := Ground)
    case InCsi(p) =>
      if IsFinal(c) then Dispatch(t.(mode := Ground), p, c) else t.(mode := InCsi(p + [c]))
  }

  function FeedAll(t: Term, s: string): (t': Term)
    requires Valid(t)
    ensures Valid(t')
    decreases |s|
  {
    if s == "" then t else FeedAll(Feed(t, s[0]), s[1..])
  }

  lemma {:induction false} FeedAppend(t: Term, a: string, b: string)
    requires Valid(t)
    ensures FeedAll(t, a + b) == FeedAll(FeedAll(t, a), b)
    decreases |a|
  {
    hide Feed;
    if a == "" {
      assert a + b == b;
    } else {
      assert (a + b)[0] == a[0] && (a + b)[1..] == a[1..] + b;
      FeedAppend(Feed(t, a[0]), a[1..], b);
    }
  }

  predicate NoFinal(p: string) {
    forall i | 0 <= i < |p| :: !IsFinal(p[i])
  }

  lemma {:induction false} FeedParams(t: Term, q: string, p: string, f: char)
    requires Valid(t) && t.mode == InCsi(q) && NoFinal(p) && IsFinal(f)
    ensures FeedAll(t, p + [f]) == Dispatch(t.(mode := Ground), q + p, f)
    decreases |p|
  {
    hide Dispatch;
    if p == "" {
      assert q + p == q && (p + [f])[0] == f && (p + [f])[1..] == "";
    } else {
      assert (p + [f])[0] == p[0] && (p + [f])[1..] == p[1..] + [f];
      assert (q + [p[0]]) + p[1..] == q + p;
      FeedParams(t.(mode := InCsi(q + [p[0]])), q + [p[0]], p[1..], f);
    }
  }

  /** A whole control sequence does what its final byte says. */
  lemma {:induction false} FeedCsi(t: Term, p: string, f: char)
    requires Valid(t) && t.mode == Ground && NoFinal(p) && IsFinal(f)
    ensures FeedAll(t, [ESC, '['] + p + [f]) == Dispatch(t, p, f)
  {
    var s := [ESC, '['] + p + [f];
    assert s[0] == ESC && s[1..][0] == '[' && s[1..][1..] == p + [f];
    assert FeedAll(t, s) == FeedAll(t.(mode := InCsi("")), p + [f]);
    FeedParams(t.(mode := InCsi("")), "", p, f);
    assert "" + p == p;
  }

  // ----- Printing one styled row -----

  /** An item of a frame row: a printable rune or a complete SGR sequence. */
  predicate Showable(it: Item) {
    Complete(it) && (it.Glyph? ==> it.c >= ' ') && (it.Csi? ==> it.final == 'm')
  }

  predicate AllShowable(items: seq<Item>) {
    forall it | it in items :: Showable(it)
  }

  /** The cells `items` print as, from a given style. */
  function CellsOf(items: seq<Item>, style: seq<string>): (r: Row)
    ensures |r| == |Visible(items)|
  {
    if items == [] then []
    else match items[0]
         case Glyph(c) => [Cell(c, style)] + CellsOf(items[1..], style)
         case Csi(p, _) => CellsOf(items[1..], Restyle(style, p))
  }

  function StyleAfter(items: seq<Item>, style: seq<string>): seq<string> {
    if items == [] then style
    else match items[0]
         case Glyph(_) => StyleAfter(items[1..], style)
         case Csi(p, _) => StyleAfter(items[1..], Restyle(style, p))
  }

  /** `t` with `cells` written over its cursor row from the cursor column on. */
  function Written(t: Term, cells: Row, style: seq<string>): (t': Term)
    requires Valid(t) && t.col + |cells| <= t.width
    ensures Valid(t')
  {
    var r := t.rows[t.row];
    t.(rows := t.rows[t.row := r[..t.col] + cells + r[t.col + |cells|..]], col := t.col + |cells|, style := style)
  }

  lemma {:induction false} WrittenTwice(t: Term, a: Row, b: Row, mid: seq<string>, style: seq<string>)
    requires Valid(t) && t.col + |a| + |b| <= t.width
    ensures Written(Written(t, a, mid), b, style) == Written(t, a + b, style)
  {
    var u := Written(t, a, mid);
    var r := t.rows[t.row];
    assert u.rows[u.row][..u.col] + b + u.rows[u.row][u.col + |b|..] == r[..t.col] + (a + b) + r[t.col + |a + b|..];
    assert u.rows[u.row := r[..t.col] + (a + b) + r[t.col + |a + b|..]]
        == t.rows[t.row := r[..t.col] + (a + b) + r[t.col + |a + b|..]];
  }

  lemma {:induction false} PrintItem(t: Term, it: Item)
    requires Valid(t) && t.mode == Ground && Showable(it)
    requires t.col + |Visible([it])| <= t.width
    ensures FeedAll(t, RenderItem(it)) == Written(t, CellsOf([it], t.style), StyleAfter([it], t.style))
  {
    match it {
      case Csi(p, f) =>
        forall i | 0 <= i < |p|
          ensures !IsFinal(p[i])
        {
        }
        FeedCsi(t, p, f);
        assert CellsOf([it], t.style) == [];
        assert StyleAfter([it], t.style) == Restyle(t.style, p);
        assert t.rows[t.row][..t.col] + [] + t.rows[t.row][t.col..] == t.rows[t.row];
        assert t.rows[t.row := t.rows[t.row]] == t.rows;
      case Glyph(c) =>
        assert Visible([it]) == [c] + Visible([]);
        assert CellsOf([it], t.style) == [Cell(c, t.style)];
        assert StyleAfter([it], t.style) == t.style;
        assert [c][0] == c && [c][1..] == "";
        assert FeedAll(t, [c]) == Print(t, c);
        var r := t.rows[t.row];
        assert r[t.col := Cell(c, t.style)] == r[..t.col] + [Cell(c, t.style)] + r[t.col + 1..];
    }
  }

  /** Printing a row that fits overwrites exactly its cells and leaves the style after it. */
  lemma {:induction false} PrintRow(t: Term, items: seq<Item>)
    requires Valid(t) && t.mode == Ground && AllShowable(items)
    requires t.col + |Visible(items)| <= t.width
    ensures FeedAll(t, Render(items)) == Written(t, CellsOf(items, t.style), StyleAfter(items, t.style))
    decreases |items|
  {
    if items == [] {
      assert t.rows[t.row][..t.col] + [] + t.rows[t.row][t.col..] == t.rows[t.row];
      assert t.rows[t.row := t.rows[t.row]] == t.rows;
    } else {
      var it, rest := items[0], items[1..];
      assert items == [it] + rest && Showable(it);
      VisibleAppend([it], rest);
      PrintItem(t, it);
      var u := FeedAll(t, RenderItem(it));
      OneItem(it, rest, t.style);
      hide FeedAll, Written, CellsOf, StyleAfter, Visible, Showable;
      FeedAppend(t, RenderItem(it), Render(rest));
      WrittenShape(t, CellsOf([it], t.style), StyleAfter([it], t.style));
      PrintRow(u, rest);
      WrittenTwice(t, CellsOf([it], t.style), CellsOf(rest, u.style), u.style, StyleAfter(rest, u.style));
    }
  }

  lemma {:induction false} OneItem(it: Item, rest: seq<Item>, style: seq<string>)
    ensures CellsOf([it] + rest, style) == CellsOf([it], style) + CellsOf(rest, StyleAfter([it], style))
    ensures StyleAfter([it] + rest, style) == StyleAfter(rest, StyleAfter([it], style))
  {
    assert ([it] + rest)[1..] == rest;
    assert [it][1..] == [];
    assert CellsOf([], style) == [];
  }

  lemma {:induction false} WrittenShape(t: Term, cells: Row, style: seq<string>)
    requires Valid(t) && t.col + |cells| <= t.width
    ensures var u := Written(t, cells, style);
            u.mode == t.mode && u.col == t.col + |cells| && u.width == t.width && u.style == style
  {
  }
}

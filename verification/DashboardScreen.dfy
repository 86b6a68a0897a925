/** What the terminal shows after any sequence of draws and resizes. */
module DashboardScreen {
  import opened Ansi
  import opened Terminal
  import opened Dashboard

  // ----- The screen a frame stands for -----

  predicate RowFits(items: seq<Item>, w: nat) {
    AllShowable(items) && |Visible(items)| <= w && StyleAfter(items, []) == []
  }

  predicate Fits(frame: Frame, w: nat, h: nat) {
    |frame| <= h && forall i | 0 <= i < |frame| :: RowFits(frame[i], w)
  }

  /** A row's cells followed by blanks. */
  function FrameRow(items: seq<Item>, w: nat): (r: Row)
    requires |Visible(items)| <= w
    ensures |r| == w
  {
    CellsOf(items, []) + Blanks(w - |Visible(items)|, [])
  }

  function RowsOf(frame: Frame, w: nat, h: nat): (rows: seq<Row>)
    requires Fits(frame, w, h)
    ensures |rows| == h && forall i | 0 <= i < h :: |rows[i]| == w
    ensures forall i | 0 <= i < |frame| :: rows[i] == FrameRow(frame[i], w)
    ensures forall i | |frame| <= i < h :: rows[i] == Blanks(w, [])
  {
    seq(h, i requires 0 <= i < h => if i < |frame| then FrameRow(frame[i], w) else Blanks(w, []))
  }

  /** The terminal showing `frame` and nothing else, with the cursor at a given place. */
  function ScreenAt(frame: Frame, w: nat, h: nat, row: nat, col: nat): (t: Term)
    requires Fits(frame, w, h) && w > 0 && row < h && col <= w
    ensures Valid(t) && t.mode == Ground && t.style == [] && t.width == w && |t.rows| == h
  {
    Term(w, RowsOf(frame, w, h), row, col, [], Ground)
  }

  function Screen(frame: Frame, w: nat, h: nat): (t: Term)
    requires Fits(frame, w, h) && w > 0 && h > 0
    ensures Valid(t)
  {
    ScreenAt(frame, w, h, 0, 0)
  }

  // ----- The control sequences Draw uses -----

  lemma {:induction false} FeedControl(t: Term)
    requires Valid(t) && t.mode == Ground
    ensures FeedAll(t, HOME) == t.(row := 0, col := 0)
    ensures FeedAll(t, TOP_LEFT) == t.(row := 0, col := 0)
    ensures FeedAll(t, ERASE_BELOW) == EraseBelow(t)
    ensures FeedAll(t, CLEAR) == EraseAll(t)
  {
    FeedCsi(t, "", 'H');
    FeedCsi(t, "", 'J');
    FeedCsi(t, "2", 'J');
    FeedCsi(t, "1;1", 'H');
    OneSemicolonOne("1");
    assert "1" + ";1" == "1;1";
    assert "1"[..0] == "" && Number("1"[..0]) == 0;
    assert Semicolon("") == 0 && ""[..0] == "";
  }

  lemma {:induction false} OneSemicolonOne(d: string)
    requires forall i | 0 <= i < |d| :: d[i] != ';'
    ensures Semicolon(d + ";1") == |d|
    ensures (d + ";1")[..|d|] == d && (d + ";1")[|d| + 1..] == "1" && Param("1") == 1
    decreases |d|
  {
    assert "1"[..0] == "";
    if d != "" {
      assert (d + ";1")[1..] == d[1..] + ";1";
      OneSemicolonOne(d[1..]);
    }
  }

  lemma {:induction false} FeedRowAddress(t: Term, n: nat)
    requires Valid(t) && t.mode == Ground && 1 <= n <= |t.rows|
    ensures FeedAll(t, RowAddress(n)) == t.(row := n - 1, col := 0)
  {
    var d := Decimal(n);
    OneSemicolonOne(d);
    NumberOfDecimal(n);
    FeedCsi(t, d + ";1", 'H');
  }

  lemma {:induction false} FeedNewline(t: Term)
    requires Valid(t) && t.mode == Ground && t.row + 1 < |t.rows|
    ensures FeedAll(t, "\r\n") == t.(row := t.row + 1, col := 0)
  {
    assert "\r\n"[1..] == "\n" && "\n"[1..] == "";
    assert FeedAll(t, "\r\n") == FeedAll(t.(col := 0), "\n");
  }

  // ----- Printing rows -----

  lemma {:induction false} NextRow(done: Frame, items: seq<Item>, w: nat, h: nat)
    requires w > 0 && Fits(done, w, h) && RowFits(items, w) && |done| < h
    ensures Fits(done + [items], w, h)
    ensures Written(ScreenAt(done, w, h, |done|, 0), CellsOf(items, []), [])
         == ScreenAt(done + [items], w, h, |done|, |Visible(items)|)
  {
    hide Visible, StyleAfter, AllShowable;
    var t := ScreenAt(done, w, h, |done|, 0);
    var blank := t.rows[|done|];
    assert blank[..0] + CellsOf(items, []) + blank[|Visible(items)|..] == FrameRow(items, w);
    assert t.rows[|done| := FrameRow(items, w)] == RowsOf(done + [items], w, h);
  }

  /** Printing one more row below what is shown. */
  lemma {:induction false} PrintNext(done: Frame, items: seq<Item>, w: nat, h: nat)
    requires w > 0 && Fits(done, w, h) && RowFits(items, w) && |done| < h
    ensures Fits(done + [items], w, h)
    ensures FeedAll(ScreenAt(done, w, h, |done|, 0), Render(items))
         == ScreenAt(done + [items], w, h, |done|, |Visible(items)|)
  {
    hide FeedAll, Render, CellsOf, StyleAfter, Visible, AllShowable;
    var t := ScreenAt(done, w, h, |done|, 0);
    PrintRow(t, items);
    NextRow(done, items, w, h);
  }

  lemma {:induction false} PrintRows(done: Frame, rest: Frame, w: nat, h: nat)
    requires w > 0 && rest != [] && Fits(done, w, h) && Fits(done + rest, w, h)
    ensures |done| < h
    ensures var last := rest[|rest| - 1]; RowFits(last, w)
    ensures FeedAll(ScreenAt(done, w, h, |done|, 0), Join(Lines(rest), "\r\n"))
         == ScreenAt(done + rest, w, h, |done + rest| - 1, |Visible(rest[|rest| - 1])|)
    decreases |rest|
  {
    hide FeedAll, RowsOf, ScreenAt, Render, Visible, AllShowable, StyleAfter;
    assert (done + rest)[|done|] == rest[0];
    assert (done + rest)[|done + rest| - 1] == rest[|rest| - 1];
    PrintNext(done, rest[0], w, h);
    if |rest| == 1 {
      assert rest == [rest[0]];
    } else {
      var more := rest[1..];
      assert done + rest == (done + [rest[0]]) + more;
      assert Lines(rest)[1..] == Lines(more);
      PrintRows(done + [rest[0]], more, w, h);
      PrintThenBreak(done, rest[0], Join(Lines(more), "\r\n"), w, h);
    }
  }

  lemma {:induction false} PrintThenBreak(done: Frame, items: seq<Item>, tail: string, w: nat, h: nat)
    requires w > 0 && Fits(done, w, h) && RowFits(items, w) && |done| + 1 < h
    ensures Fits(done + [items], w, h)
    ensures FeedAll(ScreenAt(done, w, h, |done|, 0), Render(items) + ("\r\n" + tail))
         == FeedAll(ScreenAt(done + [items], w, h, |done| + 1, 0), tail)
  {
    PrintNext(done, items, w, h);
    var t := ScreenAt(done, w, h, |done|, 0);
    var u := ScreenAt(done + [items], w, h, |done|, |Visible(items)|);
    FeedNewline(u);
    hide FeedAll;
    FeedAppend(t, Render(items), "\r\n" + tail);
    FeedAppend(u, "\r\n", tail);
  }

  // ----- One draw -----

  /** Clearing the screen and printing every row. */
  function FullRedraw(lines: seq<string>): string {
    HOME + CLEAR + Join(lines, "\r\n") + TOP_LEFT
  }

  lemma {:induction false} ClearScreen(t: Term)
    requires Valid(t) && t.mode == Ground && t.style == []
    ensures FeedAll(t, HOME + CLEAR) == Screen([], t.width, |t.rows|)
  {
    FeedAppend(t, HOME, CLEAR);
    FeedControl(t);
    FeedControl(t.(row := 0, col := 0));
    assert EraseAll(t.(row := 0, col := 0)).rows == RowsOf([], t.width, |t.rows|);
  }

  lemma {:induction false} PrintAll(frame: Frame, w: nat, h: nat)
    requires w > 0 && h > 0 && frame != [] && Fits(frame, w, h)
    ensures FeedAll(FeedAll(Screen([], w, h), Join(Lines(frame), "\r\n")), TOP_LEFT) == Screen(frame, w, h)
  {
    assert frame[..0] == [] && frame[0..] == frame;
    BodyShows(frame, w, h, 0);
  }

  lemma {:induction false} FullRedrawShows(t: Term, frame: Frame)
    requires Valid(t) && t.mode == Ground && t.style == []
    requires frame != [] && Fits(frame, t.width, |t.rows|)
    ensures FeedAll(t, FullRedraw(Lines(frame))) == Screen(frame, t.width, |t.rows|)
  {
    hide FeedAll, RowsOf, Join, ScreenAt, Screen, RowFits, Lines;
    var w, h := t.width, |t.rows|;
    var body := Join(Lines(frame), "\r\n");
    ClearScreen(t);
    PrintAll(frame, w, h);
    FeedAppend(t, HOME + CLEAR, body);
    FeedAppend(t, HOME + CLEAR + body, TOP_LEFT);
  }

  /** Different rows have different texts. */
  lemma {:induction false} RenderInjective(a: seq<Item>, b: seq<Item>)
    requires AllComplete(a) && AllComplete(b) && Render(a) == Render(b)
    ensures a == b
    decreases |a|
  {
    hide AllComplete, Complete, Render, RenderItem;
    RowParts(a);
    RowParts(b);
    if a != [] && b != [] {
      FirstItem(a[0], Render(a[1..]), b[0], Render(b[1..]));
      RenderInjective(a[1..], b[1..]);
      assert a == [a[0]] + a[1..] && b == [b[0]] + b[1..];
    }
  }

  lemma {:induction false} RowParts(items: seq<Item>)
    requires AllComplete(items)
    ensures Render(items) == "" <==> items == []
    ensures items != [] ==>
              && Complete(items[0]) && AllComplete(items[1..])
              && Render(items) == RenderItem(items[0]) + Render(items[1..])
  {
    hide Complete;
  }

  lemma {:induction false} CsiParts(body: string, f: char, rest: string)
    requires Complete(Csi(body, f))
    ensures var s := RenderItem(Csi(body, f)) + rest; var e := CsiEnd(s, 2);
            e == 3 + |body| && s[0] == ESC && s[2..e - 1] == body && s[e - 1] == f && s[e..] == rest
  {
    CsiEndInBody(body, f, rest, 0);
  }

  lemma {:induction false} GlyphParts(c: char, rest: string)
    ensures var s := RenderItem(Glyph(c)) + rest; s[0] == c && s[1..] == rest
  {
  }

  lemma {:induction false} FirstItem(x: Item, s: string, y: Item, t: string)
    requires Complete(x) && Complete(y) && RenderItem(x) + s == RenderItem(y) + t
    ensures x == y && s == t
  {
    match x {
      case Csi(body, f) => CsiParts(body, f, s);
      case Glyph(c) => GlyphParts(c, s);
    }
    match y {
      case Csi(body, f) => CsiParts(body, f, t);
      case Glyph(c) => GlyphParts(c, t);
    }
    hide RenderItem, CsiEnd;
  }

  lemma {:induction false} SameLines(a: Frame, b: Frame, k: nat)
    requires k <= |a| && k <= |b| && Lines(a)[..k] == Lines(b)[..k]
    requires forall i | 0 <= i < k :: AllComplete(a[i]) && AllComplete(b[i])
    ensures a[..k] == b[..k]
  {
    forall i | 0 <= i < k
      ensures a[i] == b[i]
    {
      assert Lines(a)[..k][i] == Render(a[i]) && Lines(b)[..k][i] == Render(b[i]);
      RenderInjective(a[i], b[i]);
    }
  }

  lemma {:induction false} FitsComplete(frame: Frame, w: nat, h: nat, i: nat)
    requires Fits(frame, w, h) && i < |frame|
    ensures AllComplete(frame[i])
  {
    assert RowFits(frame[i], w);
  }

  lemma {:induction false} FitsPrefix(frame: Frame, w: nat, h: nat, k: nat)
    requires Fits(frame, w, h) && k <= |frame|
    ensures Fits(frame[..k], w, h)
  {
  }

  /** Moving to row `k` and erasing below keeps the first `k` rows. */
  lemma {:induction false} KeepRows(frame: Frame, w: nat, h: nat, k: nat)
    requires w > 0 && Fits(frame, w, h) && k <= |frame| && k < h
    ensures Fits(frame[..k], w, h)
    ensures FeedAll(Screen(frame, w, h), RowAddress(k + 1) + ERASE_BELOW) == ScreenAt(frame[..k], w, h, k, 0)
  {
    FitsPrefix(frame, w, h, k);
    var t := Screen(frame, w, h);
    FeedRowAddress(t, k + 1);
    var u := t.(row := k, col := 0);
    FeedControl(u);
    FeedAppend(t, RowAddress(k + 1), ERASE_BELOW);
    var v := ScreenAt(frame[..k], w, h, k, 0);
    assert EraseBelow(u).rows == v.rows by {
      forall i | 0 <= i < h
        ensures EraseBelow(u).rows[i] == v.rows[i]
      {
        if i == k {
          assert u.rows[i][..0] + Blanks(w, []) == Blanks(w, []);
        }
      }
    }
  }

  /** A draw over the previous frame shows the new frame, whatever the two have in common. */
  lemma {:induction false} DrawShows(prev: Frame, frame: Frame, w: nat, h: nat)
    requires w > 0 && h > 0 && Fits(prev, w, h) && Fits(frame, w, h) && frame != []
    ensures FeedAll(Screen(prev, w, h), DrawOutput(Lines(prev), Lines(frame), true)) == Screen(frame, w, h)
  {
    forall i | 0 <= i < |prev| ensures AllComplete(prev[i]) { FitsComplete(prev, w, h, i); }
    forall i | 0 <= i < |frame| ensures AllComplete(frame[i]) { FitsComplete(frame, w, h, i); }
    var k := FirstChanged(Lines(prev), Lines(frame));
    SameLines(prev, frame, k);
    if Lines(frame) == Lines(prev) {
      assert Lines(prev)[..|prev|] == Lines(frame)[..|prev|];
      SameLines(prev, frame, |prev|);
      assert prev == prev[..|prev|] && frame == frame[..|prev|];
    } else {
      SameRows(Lines(prev), Lines(frame), if k == |frame| then -1 else k);
      DrawChanged(prev, frame, w, h, k);
    }
  }

  lemma {:induction false} DrawChanged(prev: Frame, frame: Frame, w: nat, h: nat, k: nat)
    requires w > 0 && Fits(prev, w, h) && Fits(frame, w, h) && frame != [] && k < h
    requires k <= |prev| && k <= |frame| && prev[..k] == frame[..k]
    ensures FeedAll(Screen(prev, w, h), RowAddress(k + 1) + ERASE_BELOW + Join(Lines(frame)[k..], "\r\n") + TOP_LEFT)
         == Screen(frame, w, h)
  {
    hide FeedAll, RowsOf, Fits, Join, RowAddress, Lines, ScreenAt, Screen;
    var t := Screen(prev, w, h);
    var head, body := RowAddress(k + 1) + ERASE_BELOW, Join(Lines(frame[k..]), "\r\n");
    KeepRows(prev, w, h, k);
    LinesTail(frame, k);
    BodyShows(frame, w, h, k);
    FeedAppend(t, head, body);
    FeedAppend(t, head + body, TOP_LEFT);
  }

  lemma {:induction false} LinesTail(frame: Frame, k: nat)
    requires k <= |frame|
    ensures Lines(frame)[k..] == Lines(frame[k..])
  {
  }

  lemma {:induction false} HomeScreen(frame: Frame, w: nat, h: nat, row: nat, col: nat)
    requires w > 0 && Fits(frame, w, h) && row < h && col <= w
    ensures FeedAll(ScreenAt(frame, w, h, row, col), TOP_LEFT) == Screen(frame, w, h)
  {
    hide RowsOf, Fits, FeedAll, EraseAll, EraseBelow;
    FeedControl(ScreenAt(frame, w, h, row, col));
  }

  lemma {:induction false} NothingToPrint(t: Term)
    requires Valid(t)
    ensures FeedAll(t, Join(Lines([]), "\r\n")) == t
  {
  }

  /** From the kept rows on, the rest of the output completes the screen. */
  lemma {:induction false} BodyShows(frame: Frame, w: nat, h: nat, k: nat)
    requires w > 0 && k <= |frame| && k < h && Fits(frame, w, h) && Fits(frame[..k], w, h)
    ensures FeedAll(FeedAll(ScreenAt(frame[..k], w, h, k, 0), Join(Lines(frame[k..]), "\r\n")), TOP_LEFT)
            == Screen(frame, w, h)
  {
    hide FeedAll, RowsOf, Join, ScreenAt, Screen;
    if k < |frame| {
      assert frame == frame[..k] + frame[k..];
      PrintRows(frame[..k], frame[k..], w, h);
      HomeScreen(frame, w, h, |frame| - 1, |Visible(frame[k..][|frame[k..]| - 1])|);
    } else {
      assert frame[..k] == frame && frame[k..] == [];
      NothingToPrint(ScreenAt(frame, w, h, k, 0));
      HomeScreen(frame, w, h, k, 0);
    }
  }

  /** The partial redraw refines clear-and-print-all: the terminal ends in the same
      state, cells, styles and cursor included. */
  lemma {:induction false} PartialRedrawIsFullRedraw(prev: Frame, frame: Frame, w: nat, h: nat)
    requires w > 0 && h > 0 && Fits(prev, w, h) && Fits(frame, w, h) && frame != []
    ensures FeedAll(Screen(prev, w, h), DrawOutput(Lines(prev), Lines(frame), true))
         == FeedAll(Screen(prev, w, h), FullRedraw(Lines(frame)))
  {
    DrawShows(prev, frame, w, h);
    FullRedrawShows(Screen(prev, w, h), frame);
  }

  // ----- Whole sessions -----

  /** The rows of a frame clamped to the terminal width; an empty frame is one empty row. */
  function ClampFrame(frame: Frame, w: nat): (r: Frame)
    ensures r != []
  {
    if frame == [] then [[]] else seq(|frame|, i requires 0 <= i < |frame| => ClampItems(frame[i], w))
  }

  lemma {:induction false} NoCsiNoStyle(items: seq<Item>, style: seq<string>)
    requires !HasCsi(items)
    ensures StyleAfter(items, style) == style
    decreases |items|
  {
    if items != [] {
      assert items[0] in items;
      assert forall it | it in items[1..] :: it in items;
      NoCsiNoStyle(items[1..], style);
    }
  }

  lemma {:induction false} ResetEndsStyle(items: seq<Item>, style: seq<string>)
    requires items != [] && Last(items) == RESET_ITEM
    ensures StyleAfter(items, style) == []
    decreases |items|
  {
    if |items| == 1 {
      assert items[1..] == [];
    } else {
      assert Last(items[1..]) == Last(items);
      ResetEndsStyle(items[1..], match items[0] case Glyph(_) => style case Csi(p, _) => Restyle(style, p));
    }
  }

  lemma {:induction false} ClampedRowFits(items: seq<Item>, w: nat)
    requires AllShowable(items) && w > 0
    ensures RowFits(ClampItems(items, w), w)
  {
    assert AllComplete(items);
    ClampKeepsFirstRunes(items, w);
    var out := ClampItems(items, w);
    if HasCsi(out) {
      ResetEndsStyle(out, []);
    } else {
      NoCsiNoStyle(out, []);
    }
  }

  lemma {:induction false} ClampFrameFits(frame: Frame, w: nat, h: nat)
    requires w > 0 && h > 0 && |frame| <= h && forall i | 0 <= i < |frame| :: AllShowable(frame[i])
    ensures Fits(ClampFrame(frame, w), w, h)
    ensures Lines(ClampFrame(frame, w)) == Prepared(Lines(frame), true, w)
  {
    var r := ClampFrame(frame, w);
    forall i | 0 <= i < |frame|
      ensures RowFits(r[i], w) && Render(r[i]) == Clamp(Render(frame[i]), w)
    {
      assert AllComplete(frame[i]);
      ClampedRowFits(frame[i], w);
      ClampIsClampItems(frame[i], w);
    }
    if frame == [] {
      assert Visible([]) == "" && StyleAfter([], []) == [];
      assert Lines([[]]) == [""];
    }
  }

  /** The renderer's fields and the terminal it writes to. */
  datatype Session = Session(prev: seq<string>, width: int, term: Term)

  /** `After` is the terminal just after the window changed, before the renderer knows:
      a new size and any contents, in ground state with no style pending. */
  datatype Event = DrawFrame(frame: Frame) | Resized(after: Term)

  predicate Possible(e: Event, h: nat) {
    match e
    case DrawFrame(f) => |f| <= h && forall i | 0 <= i < |f| :: AllShowable(f[i])
    case Resized(_) => true
  }

  ghost predicate Usable(t: Term) {
    Valid(t) && t.mode == Ground && t.style == []
  }

  ghost function OnEvent(s: Session, e: Event): Session
    requires Valid(s.term) && (e.Resized? ==> Valid(e.after))
  {
    match e
    case DrawFrame(f) =>
      var lines := Prepared(Lines(f), true, s.width);
      Session(lines, s.width, FeedAll(s.term, DrawOutput(s.prev, lines, true)))
    case Resized(t) => Session([], t.width, FeedAll(t, HOME + CLEAR))
  }

  /** The frame on the screen after `e`, when `shown` was there before. */
  function ShownAfter(shown: Frame, w: nat, e: Event): Frame {
    match e
    case DrawFrame(f) => ClampFrame(f, w)
    case Resized(_) => []
  }

  ghost predicate Shows(s: Session, frame: Frame) {
    && s.prev == Lines(frame) && s.width == s.term.width && s.term.width > 0 && |s.term.rows| > 0
    && Fits(frame, s.term.width, |s.term.rows|)
    && s.term == Screen(frame, s.term.width, |s.term.rows|)
  }

  /** Starting on the alternate screen clears it. */
  lemma {:induction false} StartShowsBlank(t: Term)
    requires Usable(t)
    ensures Shows(Session([], t.width, FeedAll(t, ENTER_ALT + HOME + CLEAR)), [])
  {
    FeedCsi(t, "?1049", 'h');
    FeedCsi(t, "?25", 'l');
    FeedAppend(t, [ESC, '['] + "?1049" + ['h'], [ESC, '['] + "?25" + ['l']);
    assert ENTER_ALT + HOME + CLEAR == ENTER_ALT + (HOME + CLEAR);
    FeedAppend(t, ENTER_ALT, HOME + CLEAR);
    ClearScreen(t);
    assert Lines([]) == [];
  }

  /** Every draw and every resize leaves exactly the last frame, clamped, on a screen
      that is otherwise blank. */
  lemma {:induction false} EventShows(s: Session, shown: Frame, e: Event)
    requires Shows(s, shown) && Possible(e, |s.term.rows|) && (e.Resized? ==> Usable(e.after))
    ensures Shows(OnEvent(s, e), ShownAfter(shown, s.term.width, e))
  {
    match e {
      case DrawFrame(f) =>
        var w, h := s.term.width, |s.term.rows|;
        ClampFrameFits(f, w, h);
        DrawShows(shown, ClampFrame(f, w), w, h);
      case Resized(t) =>
        ClearScreen(t);
        assert Lines([]) == [];
    }
  }

  ghost predicate AllPossible(s: Session, events: seq<Event>)
    requires Valid(s.term)
    decreases |events|
  {
    events == [] ||
    (Possible(events[0], |s.term.rows|) && (events[0].Resized? ==> Usable(events[0].after))
     && Valid(OnEvent(s, events[0]).term) && AllPossible(OnEvent(s, events[0]), events[1..]))
  }

  ghost function Play(s: Session, events: seq<Event>): Session
    requires Valid(s.term) && AllPossible(s, events)
    decreases |events|
  {
    if events == [] then s else Play(OnEvent(s, events[0]), events[1..])
  }

  /** The last frame drawn since the last resize, clamped to the width it was drawn at. */
  ghost function LastShown(s: Session, shown: Frame, events: seq<Event>): Frame
    requires Valid(s.term) && AllPossible(s, events)
    decreases |events|
  {
    if events == [] then shown
    else LastShown(OnEvent(s, events[0]), ShownAfter(shown, s.term.width, events[0]), events[1..])
  }

  /** After any sequence of draws and resizes whose frames fit the height, the screen
      shows the last clamped frame followed by blanks. */
  lemma {:induction false} SessionShowsLastFrame(s: Session, shown: Frame, events: seq<Event>)
    requires Shows(s, shown) && AllPossible(s, events)
    ensures Shows(Play(s, events), LastShown(s, shown, events))
    decreases |events|
  {
    if events != [] {
      EventShows(s, shown, events[0]);
      hide Shows, ShownAfter, OnEvent;
      SessionShowsLastFrame(OnEvent(s, events[0]), ShownAfter(shown, s.term.width, events[0]), events[1..]);
    }
  }
}

/** Clamping a styled row to a number of visible columns. Rows are sequences of
    runes; a control sequence is ESC '[' followed by parameter and intermediate
    bytes and one final byte (section 5.4 of ECMA-48). */
module Ansi {
  const ESC: char := '\U{1b}'
  const RESET: string := [ESC, '[', '0', 'm']

  predicate IsFinal(c: char) { '@' <= c <= '~' }

  predicate HasSuffix(s: string, suffix: string) {
    |suffix| <= |s| && s[|s| - |suffix|..] == suffix
  }

  // ----- The scanner on arbitrary rows -----

  /** The index just past the first final byte at or after `j`, or the end of `s`. */
  function CsiEnd(s: string, j: nat): (k: nat)
    requires j <= |s|
    ensures j <= k <= |s|
    decreases |s| - j
  {
    if j == |s| then j
    else if IsFinal(s[j]) then j + 1
    else CsiEnd(s, j + 1)
  }

  /** How many runes the escape at the front of `s` takes. */
  function EscapeLength(s: string): (n: nat)
    requires s != "" && s[0] == ESC
    ensures 1 <= n <= |s|
  {
    if |s| > 1 && s[1] == '[' then CsiEnd(s, 2) else 1
  }

  /** What is kept of `s` when `w` more runes may show, and whether an escape is in it. */
  function Scan(s: string, w: nat): (r: (string, bool))
    decreases |s|
  {
    if s == "" then ("", false)
    else if s[0] == ESC then
      var n := EscapeLength(s);
      (s[..n] + Scan(s[n..], w).0, true)
    else if w == 0 then ("", false)
    else
      var rest := Scan(s[1..], w - 1);
      ([s[0]] + rest.0, rest.1)
  }

  function Clamp(s: string, w: int): string {
    if w <= 0 then ""
    else
      var (kept, styled) := Scan(s, w);
      if styled && !HasSuffix(kept, RESET) then kept + RESET else kept
  }

  lemma {:induction false} CsiEndShift(s: string, i: nat, j: nat)
    requires i <= j <= |s|
    ensures CsiEnd(s, j) == i + CsiEnd(s[i..], j - i)
    decreases |s| - j
  {
    if j < |s| {
      assert s[i..][j - i] == s[j];
      CsiEndShift(s, i, j + 1);
    }
  }

  lemma {:induction false} CsiEndStep(s: string, j: nat)
    requires j <= |s|
    ensures CsiEnd(s, j) == if j == |s| then j else if IsFinal(s[j]) then j + 1 else CsiEnd(s, j + 1)
  {
  }

  lemma {:induction false} ScanEscape(s: string, i: nat, j: nat, w: nat)
    requires i < j <= |s| && s[i] == ESC
    requires j == if i + 1 < |s| && s[i + 1] == '[' then CsiEnd(s, i + 2) else i + 1
    ensures Scan(s[i..], w) == (s[i..j] + Scan(s[j..], w).0, true)
  {
    if i + 1 < |s| && s[i + 1] == '[' {
      CsiEndShift(s, i, i + 2);
    }
    assert s[i..][..j - i] == s[i..j] && s[i..][j - i..] == s[j..];
  }

  /** Before index `i` the loop has built `b` with `visible` runes, and the scan of the
      rest completes it to the scan of the whole row. */
  ghost predicate SoFar(s: string, w: nat, i: nat, b: string, visible: nat, styled: bool) {
    && i <= |s| && visible <= w
    && b + Scan(s[i..], w - visible).0 == Scan(s, w).0
    && (styled || Scan(s[i..], w - visible).1) == Scan(s, w).1
  }

  lemma {:induction false} SoFarStart(s: string, w: nat)
    ensures SoFar(s, w, 0, "", 0, false)
  {
    assert s[0..] == s;
  }

  lemma {:induction false} SoFarEscape(s: string, w: nat, i: nat, b: string, visible: nat, styled: bool, j: nat)
    requires SoFar(s, w, i, b, visible, styled) && i < j <= |s| && s[i] == ESC
    requires j == if i + 1 < |s| && s[i + 1] == '[' then CsiEnd(s, i + 2) else i + 1
    ensures SoFar(s, w, j, b + s[i..j], visible, true)
  {
    ScanEscape(s, i, j, w - visible);
    hide Scan;
    assert b + (s[i..j] + Scan(s[j..], w - visible).0) == (b + s[i..j]) + Scan(s[j..], w - visible).0;
  }

  lemma {:induction false} SoFarRune(s: string, w: nat, i: nat, b: string, visible: nat, styled: bool)
    requires SoFar(s, w, i, b, visible, styled) && i < |s| && s[i] != ESC && visible < w
    ensures SoFar(s, w, i + 1, b + [s[i]], visible + 1, styled)
  {
    assert s[i..][0] == s[i] && s[i..][1..] == s[i + 1..];
    var rest := Scan(s[i + 1..], w - visible - 1).0;
    assert Scan(s[i..], w - visible).0 == [s[i]] + rest;
    assert b + ([s[i]] + rest) == (b + [s[i]]) + rest;
  }

  lemma {:induction false} SoFarStop(s: string, w: nat, i: nat, b: string, visible: nat, styled: bool)
    requires SoFar(s, w, i, b, visible, styled)
    requires i == |s| || (s[i] != ESC && visible == w)
    ensures Scan(s, w) == (b, styled)
  {
    assert i < |s| ==> s[i..][0] == s[i];
    assert b + "" == b;
  }

  /** Given room enough a row is kept whole, escapes cut short included. */
  lemma {:induction false} WideScan(s: string, w: nat)
    requires w >= |s|
    ensures Scan(s, w) == (s, ESC in s)
    decreases |s|
  {
    if s != "" {
      if s[0] == ESC {
        var n := EscapeLength(s);
        WideScan(s[n..], w);
        assert s == s[..n] + s[n..];
      } else {
        WideScan(s[1..], w - 1);
        assert s == [s[0]] + s[1..];
      }
    }
  }

  /** So the clamp of a row that fits is the row, with a reset after it if it is styled and
      does not end in one. */
  lemma {:induction false} WideClamp(s: string, w: nat)
    requires w >= |s| && w > 0
    ensures Clamp(s, w) ==
            if ESC in s && !(|s| >= 4 && s[|s| - 4..] == [ESC, '[', '0', 'm']) then s + [ESC, '[', '0', 'm'] else s
  {
    hide Scan;
    WideScan(s, w);
  }

  /** The index loop over the row, with its builder and flags. */
  method ClampANSIWidth(s: string, w: int) returns (out: string)
    ensures out == Clamp(s, w)
    ensures w <= 0 ==> out == ""
  {
    hide SoFar, Scan, CsiEnd;
    if w <= 0 {
      return "";
    }
    var b := "";
    var visible: nat := 0;
    var styled := false;
    var i := 0;
    SoFarStart(s, w);
    while i < |s|
      invariant 0 <= i <= |s| && visible <= w
      invariant SoFar(s, w, i, b, visible, styled)
    {
      if s[i] == ESC {
        var j := i + 1;
        if j < |s| && s[j] == '[' {
          j := j + 1;
          while j < |s| && !IsFinal(s[j])
            invariant i + 2 <= j <= |s|
            invariant CsiEnd(s, j) == CsiEnd(s, i + 2)
          {
            CsiEndStep(s, j);
            j := j + 1;
          }
          CsiEndStep(s, j);
          if j < |s| {
            j := j + 1;
          }
        }
        SoFarEscape(s, w, i, b, visible, styled, j);
        b := b + s[i..j];
        styled := true;
        i := j;
      } else {
        if visible >= w {
          break;
        }
        SoFarRune(s, w, i, b, visible, styled);
        b := b + [s[i]];
        i := i + 1;
        visible := visible + 1;
      }
    }
    SoFarStop(s, w, i, b, visible, styled);
    out := b;
    if styled && !HasSuffix(out, RESET) {
      out := out + RESET;
    }
  }

  // ----- Rows with complete escape sequences -----

  datatype Item = Glyph(c: char) | Csi(body: string, final: char)

  const RESET_ITEM: Item := Csi("0", 'm')

  predicate Complete(it: Item) {
    match it
    case Glyph(c) => c != ESC
    case Csi(body, f) => (forall k | 0 <= k < |body| :: ' ' <= body[k] <= '?') && IsFinal(f)
  }

  predicate AllComplete(items: seq<Item>) {
    forall it | it in items :: Complete(it)
  }

  function RenderItem(it: Item): string {
    match it
    case Glyph(c) => [c]
    case Csi(body, f) => [ESC, '['] + body + [f]
  }

  function Render(items: seq<Item>): string {
    if items == [] then "" else RenderItem(items[0]) + Render(items[1..])
  }

  /** The runes that show. */
  function Visible(items: seq<Item>): string {
    if items == [] then ""
    else (if items[0].Glyph? then [items[0].c] else "") + Visible(items[1..])
  }

  predicate HasCsi(items: seq<Item>) {
    exists it | it in items :: it.Csi?
  }

  /** How many items are kept: every item before glyph number `w`, counting from zero. */
  function CutAt(items: seq<Item>, w: nat): (n: nat)
    ensures n <= |items|
  {
    if items == [] then 0
    else if items[0].Csi? then 1 + CutAt(items[1..], w)
    else if w == 0 then 0
    else 1 + CutAt(items[1..], w - 1)
  }

  function ClampItems(items: seq<Item>, w: nat): seq<Item> {
    var kept := items[..CutAt(items, w)];
    if HasCsi(kept) && kept[|kept| - 1] != RESET_ITEM then kept + [RESET_ITEM] else kept
  }

  lemma {:induction false} CsiEndInBody(body: string, f: char, rest: string, k: nat)
    requires Complete(Csi(body, f)) && k <= |body|
    ensures CsiEnd(RenderItem(Csi(body, f)) + rest, 2 + k) == 3 + |body|
    decreases |body| - k
  {
    var s := RenderItem(Csi(body, f)) + rest;
    if k < |body| {
      assert s[2 + k] == body[k];
      CsiEndInBody(body, f, rest, k + 1);
    } else {
      assert s[2 + k] == f;
    }
  }

  lemma {:induction false} AppendTail(a: seq<Item>, b: seq<Item>)
    requires a != []
    ensures (a + b)[0] == a[0] && (a + b)[1..] == a[1..] + b
  {
  }

  lemma {:induction false} Associative(a: string, b: string, c: string)
    ensures a + (b + c) == (a + b) + c
  {
  }

  lemma {:induction false} RenderAppend(a: seq<Item>, b: seq<Item>)
    ensures Render(a + b) == Render(a) + Render(b)
    decreases |a|
  {
    hide RenderItem;
    if a == [] {
      assert a + b == b;
    } else {
      RenderAppend(a[1..], b);
      AppendTail(a, b);
      Associative(RenderItem(a[0]), Render(a[1..]), Render(b));
    }
  }

  lemma {:induction false} VisibleAppend(a: seq<Item>, b: seq<Item>)
    ensures Visible(a + b) == Visible(a) + Visible(b)
    decreases |a|
  {
    if a == [] {
      assert a + b == b;
    } else {
      VisibleAppend(a[1..], b);
      AppendTail(a, b);
      Associative(if a[0].Glyph? then [a[0].c] else "", Visible(a[1..]), Visible(b));
    }
  }

  lemma {:induction false} ScanItem(it: Item, rest: string, w: nat)
    requires Complete(it)
    ensures it.Csi? ==> Scan(RenderItem(it) + rest, w) == (RenderItem(it) + Scan(rest, w).0, true)
    ensures it.Glyph? && w == 0 ==> Scan(RenderItem(it) + rest, w) == ("", false)
    ensures it.Glyph? && w > 0 ==>
              Scan(RenderItem(it) + rest, w) == (RenderItem(it) + Scan(rest, w - 1).0, Scan(rest, w - 1).1)
  {
    var s := RenderItem(it) + rest;
    var n := |RenderItem(it)|;
    assert s[..n] == RenderItem(it) && s[n..] == rest;
    if it.Csi? {
      CsiEndInBody(it.body, it.final, rest, 0);
    }
  }

  lemma {:induction false} CutTail(items: seq<Item>, w: nat)
    requires items != [] && CutAt(items, w) > 0
    ensures var v := if items[0].Csi? then w else w - 1;
            && v >= 0 && items[..CutAt(items, w)] == [items[0]] + items[1..][..CutAt(items[1..], v)]
            && HasCsi(items[..CutAt(items, w)]) == (items[0].Csi? || HasCsi(items[1..][..CutAt(items[1..], v)]))
  {
    var v := if items[0].Csi? then w else w - 1;
    var tail := items[1..][..CutAt(items[1..], v)];
    assert items[..CutAt(items, w)] == [items[0]] + tail;
    assert forall it :: it in [items[0]] + tail <==> it == items[0] || it in tail;
  }

  /** On complete rows the scanner keeps exactly the items before the cut. */
  lemma {:induction false} ScanItems(items: seq<Item>, w: nat)
    requires AllComplete(items)
    ensures Scan(Render(items), w) == (Render(items[..CutAt(items, w)]), HasCsi(items[..CutAt(items, w)]))
    decreases |items|
  {
    if items == [] {
      return;
    }
    assert Complete(items[0]) && AllComplete(items[1..]);
    ScanItem(items[0], Render(items[1..]), w);
    if CutAt(items, w) > 0 {
      var v := if items[0].Csi? then w else w - 1;
      ScanItems(items[1..], v);
      CutTail(items, w);
      hide Scan, HasCsi, RenderItem, AllComplete, CutAt;
      assert ([items[0]] + items[1..][..CutAt(items[1..], v)])[1..] == items[1..][..CutAt(items[1..], v)];
    }
  }

  function Last(items: seq<Item>): Item
    requires items != []
  {
    items[|items| - 1]
  }

  lemma {:induction false} RenderLast(items: seq<Item>)
    requires items != []
    ensures Render(items) == Render(items[..|items| - 1]) + RenderItem(Last(items))
  {
    assert items == items[..|items| - 1] + [Last(items)];
    RenderAppend(items[..|items| - 1], [Last(items)]);
    assert Render([Last(items)]) == RenderItem(Last(items)) + Render([]);
  }

  /** The last rune of a complete row tells which kind its last item is. */
  lemma {:induction false} LastRune(items: seq<Item>)
    requires AllComplete(items) && items != []
    ensures Render(items) != ""
    ensures var s := Render(items); var c := s[|s| - 1];
            if Last(items).Glyph?
            then c == Last(items).c && c != ESC && s[..|s| - 1] == Render(items[..|items| - 1])
            else IsFinal(c) && c == Last(items).final && |s| >= 3 && s[|s| - 2] != ESC
  {
    hide AllComplete, Complete, Render, RenderItem, IsFinal;
    RenderLast(items);
    LastIsComplete(items);
    var s, r, first := Render(items), RenderItem(Last(items)), Render(items[..|items| - 1]);
    LastOfItem(Last(items));
    assert s[|s| - 1] == r[|r| - 1];
    if Last(items).Csi? {
      assert s[|s| - 2] == r[|r| - 2];
    } else {
      assert s[..|s| - 1] == first;
    }
  }

  lemma {:induction false} LastIsComplete(items: seq<Item>)
    requires AllComplete(items) && items != []
    ensures Complete(Last(items))
  {
    hide Complete;
  }

  lemma {:induction false} LastOfItem(it: Item)
    requires Complete(it)
    ensures var r := RenderItem(it);
            if it.Glyph? then r == [it.c] && it.c != ESC
            else |r| >= 3 && r[|r| - 1] == it.final && IsFinal(it.final) && r[|r| - 2] != ESC
  {
    if it.Csi? && it.body != "" {
      assert RenderItem(it)[|it.body| + 1] == it.body[|it.body| - 1];
    }
  }

  predicate EndsInReset(s: string) {
    var n := |s|;
    n >= 4 && s[n - 4] == ESC && s[n - 3] == '[' && s[n - 2] == '0' && s[n - 1] == 'm'
  }

  lemma {:induction false} SuffixRunes(s: string)
    ensures HasSuffix(s, RESET) == EndsInReset(s)
  {
    if |s| >= 4 {
      assert s[|s| - 4..] == [s[|s| - 4], s[|s| - 3], s[|s| - 2], s[|s| - 1]];
    }
  }

  lemma {:induction false} CsiSuffix(p: string, body: string, f: char)
    requires Complete(Csi(body, f))
    ensures EndsInReset(p + RenderItem(Csi(body, f))) <==> body == "0" && f == 'm'
  {
    var r := RenderItem(Csi(body, f));
    var s := p + r;
    var n := |s|;
    assert s[n - 1] == f && s[n - 2] == r[|r| - 2] && s[n - 3] == r[|r| - 3];
    if |body| == 1 {
      assert s[n - 4] == ESC && s[n - 3] == '[' && s[n - 2] == body[0];
    } else if |body| == 0 {
      assert s[n - 2] == '[';
    } else {
      assert s[n - 3] == body[|body| - 2];
    }
  }

  lemma {:induction false} NoResetText(items: seq<Item>)
    requires AllComplete(items) && items != [] && Last(items).Glyph?
    ensures !EndsInReset(Render(items))
  {
    hide RenderItem, Complete, Render;
    LastRune(items);
    if EndsInReset(Render(items)) {
      var a := items[..|items| - 1];
      LastRuneOfPrefix(items);
      LastRune(a);
      LastRuneOfPrefix(a);
      var b := a[..|a| - 1];
      LastRune(b);
      if Last(b).Glyph? {
        LastRuneOfPrefix(b);
        LastRune(b[..|b| - 1]);
      }
    }
  }

  lemma {:induction false} LastRuneOfPrefix(items: seq<Item>)
    requires AllComplete(items) && items != []
    ensures AllComplete(items[..|items| - 1])
    ensures Render([]) == ""
  {
  }

  /** A complete row ends with the reset text only if its last item is the reset. */
  lemma {:induction false} SuffixIsItem(items: seq<Item>)
    requires AllComplete(items)
    ensures HasSuffix(Render(items), RESET) <==> items != [] && Last(items) == RESET_ITEM
  {
    SuffixRunes(Render(items));
    if items != [] {
      RenderLast(items);
      assert Complete(Last(items));
      match Last(items) {
        case Csi(body, f) => CsiSuffix(Render(items[..|items| - 1]), body, f);
        case Glyph(_) => NoResetText(items);
      }
    }
  }

  /** The clamp of a complete row, item by item. */
  lemma {:induction false} ClampIsClampItems(items: seq<Item>, w: nat)
    requires AllComplete(items) && w > 0
    ensures Clamp(Render(items), w) == Render(ClampItems(items, w))
    ensures AllComplete(ClampItems(items, w))
  {
    hide Scan, CutAt, HasSuffix, Render, RenderItem, Complete;
    var kept := items[..CutAt(items, w)];
    ScanItems(items, w);
    SuffixIsItem(kept);
    RenderReset();
    if ClampItems(items, w) != kept {
      RenderAppend(kept, [RESET_ITEM]);
    }
  }

  lemma {:induction false} RenderReset()
    ensures Render([RESET_ITEM]) == RESET && Complete(RESET_ITEM)
  {
    assert Render([RESET_ITEM]) == RenderItem(RESET_ITEM) + Render([]);
  }

  lemma {:induction false} CutShows(items: seq<Item>, w: nat)
    ensures var n := CutAt(items, w);
            && |Visible(items[..n])| <= w
            && (n < |items| ==> items[n].Glyph? && |Visible(items[..n])| == w)
  {
    if items != [] && (items[0].Csi? || w > 0) {
      var v := if items[0].Csi? then w else w - 1;
      CutShows(items[1..], v);
      var n := CutAt(items, w);
      assert items[..n][1..] == items[1..][..n - 1];
    }
  }

  /** The clamped row shows exactly the first min(w, visible) runes, keeps every escape
      before the cut (the cut is at a glyph), and ends with a reset when styled. */
  lemma {:induction false} ClampKeepsFirstRunes(items: seq<Item>, w: nat)
    requires AllComplete(items) && w > 0
    ensures var n := CutAt(items, w); var out := ClampItems(items, w);
            && Clamp(Render(items), w) == Render(out)
            && Visible(out) == (if |Visible(items)| <= w then Visible(items) else Visible(items)[..w])
            && items[..n] <= out && (out == items[..n] || out == items[..n] + [RESET_ITEM])
            && (n < |items| ==> items[n].Glyph?)
            && (HasCsi(out) ==> Last(out) == RESET_ITEM)
            && (!HasCsi(items[..n]) ==> out == items[..n])
  {
    ClampIsClampItems(items, w);
    CutShows(items, w);
    var n := CutAt(items, w);
    assert items == items[..n] + items[n..];
    VisibleAppend(items[..n], items[n..]);
    VisibleAppend(items[..n], [RESET_ITEM]);
    assert Visible([RESET_ITEM]) == "" + Visible([]);
    if n < |items| {
      assert items[n..][0] == items[n];
    }
  }

  lemma {:induction false} CutOfShort(items: seq<Item>, w: nat)
    requires |Visible(items)| <= w
    ensures CutAt(items, w) == |items|
  {
    if items != [] {
      CutOfShort(items[1..], if items[0].Csi? then w else w - 1);
    }
  }

  /** Clamping a clamped row changes nothing. */
  lemma {:induction false} ClampIdempotent(items: seq<Item>, w: int)
    requires AllComplete(items)
    ensures Clamp(Clamp(Render(items), w), w) == Clamp(Render(items), w)
  {
    hide Clamp, Scan, Render, CutAt, Visible, Complete, EscapeLength, CsiEnd, HasSuffix;
    if w <= 0 {
      NoWidth(Render(items), w);
      NoWidth("", w);
    } else {
      var out := ClampItems(items, w);
      ClampKeepsFirstRunes(items, w);
      ClampIsClampItems(items, w);
      CutOfShort(out, w);
      assert out[..|out|] == out;
      ClampIsClampItems(out, w);
    }
  }

  lemma {:induction false} NoWidth(s: string, w: int)
    requires w <= 0
    ensures Clamp(s, w) == ""
  {
  }
}

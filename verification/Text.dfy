/** The string operations the models share. */
module Text {
  import opened Prelude

  /** White space as Go's unicode package has it. */
  predicate IsSpace(c: char) {
    || c == '\t' || c == '\n' || c == '\U{0b}' || c == '\U{0c}' || c == '\r' || c == ' '
    || c == '\U{85}' || c == '\U{a0}' || c == '\U{1680}' || ('\U{2000}' <= c <= '\U{200a}')
    || c == '\U{2028}' || c == '\U{2029}' || c == '\U{202f}' || c == '\U{205f}' || c == '\U{3000}'
  }

  function TrimLeft(s: string, cut: char -> bool): (r: string)
    ensures |r| <= |s|
  {
    if s != [] && cut(s[0]) then TrimLeft(s[1..], cut) else s
  }

  lemma {:induction false} TrimLeftCuts(s: string, cut: char -> bool)
    ensures var r := TrimLeft(s, cut);
            && r == s[|s| - |r|..] && (r != [] ==> !cut(r[0]))
            && forall i | 0 <= i < |s| - |r| :: cut(s[i])
  {
    if s != [] && cut(s[0]) {
      TrimLeftCuts(s[1..], cut);
      var r := TrimLeft(s[1..], cut);
      assert forall i | 0 < i < |s| - |r| :: s[i] == s[1..][i - 1];
    }
  }

  function TrimRight(s: string, cut: char -> bool): (r: string)
    ensures r <= s
    ensures r != [] ==> !cut(r[|r| - 1])
    ensures forall i | |r| <= i < |s| :: cut(s[i])
  {
    if s != [] && cut(s[|s| - 1]) then TrimRight(s[..|s| - 1], cut) else s
  }

  function TrimSpace(s: string): string {
    TrimRight(TrimLeft(s, IsSpace), IsSpace)
  }

  /** What was cut off, on each side. */
  function Lead(s: string): string {
    s[..|s| - |TrimLeft(s, IsSpace)|]
  }

  function Tail(s: string): string {
    TrimLeft(s, IsSpace)[|TrimSpace(s)|..]
  }

  predicate All(s: string, p: char -> bool) {
    forall i | 0 <= i < |s| :: p(s[i])
  }

  lemma {:induction false} TrimParts(s: string)
    ensures s == Lead(s) + TrimSpace(s) + Tail(s)
    ensures All(Lead(s), IsSpace) && All(Tail(s), IsSpace)
    ensures TrimSpace(s) != [] ==> !IsSpace(TrimSpace(s)[0]) && !IsSpace(TrimSpace(s)[|TrimSpace(s)| - 1])
  {
    hide TrimLeft, TrimRight, IsSpace;
    TrimLeftCuts(s, IsSpace);
    var l := TrimLeft(s, IsSpace);
    assert s == Lead(s) + l;
    assert l == TrimSpace(s) + Tail(s);
    assert TrimSpace(s) != [] ==> TrimSpace(s)[0] == l[0];
  }

  /** A text with no white space at its edges is left alone. */
  lemma {:induction false} Trimmed(s: string)
    requires s != [] ==> !IsSpace(s[0]) && !IsSpace(s[|s| - 1])
    ensures TrimSpace(s) == s
  {
    hide IsSpace;
  }

  lemma {:induction false} TrimIdempotent(s: string)
    ensures TrimSpace(TrimSpace(s)) == TrimSpace(s)
  {
    hide TrimSpace, IsSpace;
    TrimParts(s);
    Trimmed(TrimSpace(s));
  }

  /** Any split into white space, a trimmed core and white space is the one TrimSpace finds. */
  lemma {:induction false} TrimUnique(a: string, core: string, b: string)
    requires All(a, IsSpace) && All(b, IsSpace) && core != []
    requires !IsSpace(core[0]) && !IsSpace(core[|core| - 1])
    ensures TrimSpace(a + core + b) == core && Lead(a + core + b) == a && Tail(a + core + b) == b
  {
    hide IsSpace;
    TrimLeftSkips(a, core + b, IsSpace);
    assert a + (core + b) == a + core + b;
    TrimRightSkips(core, b, IsSpace);
    assert (core + b)[|core|..] == b;
  }

  lemma {:induction false} TrimLeftSkips(a: string, s: string, cut: char -> bool)
    requires All(a, cut) && s != [] && !cut(s[0])
    ensures TrimLeft(a + s, cut) == s
    decreases |a|
  {
    if a == [] {
      assert a + s == s;
    } else {
      assert (a + s)[1..] == a[1..] + s;
      TrimLeftSkips(a[1..], s, cut);
    }
  }

  lemma {:induction false} TrimRightSkips(s: string, b: string, cut: char -> bool)
    requires All(b, cut) && s != [] && !cut(s[|s| - 1])
    ensures TrimRight(s + b, cut) == s
    decreases |b|
  {
    if b == [] {
      assert s + b == s;
    } else {
      assert (s + b)[..|s + b| - 1] == s + b[..|b| - 1];
      TrimRightSkips(s, b[..|b| - 1], cut);
    }
  }

  /** Lower case, exact wherever the result is compared with ASCII text: besides A to Z,
      only U+0130 and U+212A lower to an ASCII letter. */
  function LowerChar(c: char): char {
    if 'A' <= c <= 'Z' then c - 'A' + 'a'
    else if c == '\U{0130}' then 'i'
    else if c == '\U{212a}' then 'k'
    else c
  }

  function ToLower(s: string): (r: string)
    ensures |r| == |s| && forall i | 0 <= i < |s| :: r[i] == LowerChar(s[i])
  {
    seq(|s|, i requires 0 <= i < |s| => LowerChar(s[i]))
  }

  /** The letters that have two cases, and that nothing else in ASCII changes. */
  lemma {:induction false} LowerAscii(c: char)
    ensures 'A' <= c <= 'Z' ==> 'a' <= LowerChar(c) <= 'z' && LowerChar(c) as int == c as int + 32
    ensures c < '\U{80}' && !('A' <= c <= 'Z') ==> ToLower([c]) == [c]
  {
  }

  function Contains(s: string, sub: string): bool
    decreases |s|
  {
    sub <= s || (s != [] && Contains(s[1..], sub))
  }

  // ----- Order -----

  /** Order of texts, code point by code point. */
  predicate LessEq(a: string, b: string) {
    a == "" || (b != "" && (a[0] < b[0] || (a[0] == b[0] && LessEq(a[1..], b[1..]))))
  }

  lemma {:induction false} LessEqTotal(a: string, b: string)
    ensures LessEq(a, b) || LessEq(b, a)
    ensures LessEq(a, b) && LessEq(b, a) ==> a == b
  {
    if a != "" && b != "" {
      LessEqTotal(a[1..], b[1..]);
      assert a == [a[0]] + a[1..] && b == [b[0]] + b[1..];
    }
  }

  lemma {:induction false} LessEqTransitive(a: string, b: string, c: string)
    requires LessEq(a, b) && LessEq(b, c)
    ensures LessEq(a, c)
  {
    if a != "" && a[0] == b[0] == c[0] {
      LessEqTransitive(a[1..], b[1..], c[1..]);
    }
  }

  /** Which is dictionary order: a text comes before those it starts, and otherwise the first
      place where two differ decides. */
  lemma {:induction false} LessEqIff(a: string, b: string)
    ensures LessEq(a, b) <==>
            a <= b || exists i :: 0 <= i < |a| && i < |b| && a[..i] == b[..i] && a[i] < b[i]
  {
    if a != "" && b != "" && a[0] == b[0] {
      LessEqIff(a[1..], b[1..]);
      assert a == [a[0]] + a[1..] && b == [b[0]] + b[1..];
      assert a <= b <==> a[1..] <= b[1..];
      if i :| 0 <= i < |a[1..]| && i < |b[1..]| && a[1..][..i] == b[1..][..i] && a[1..][i] < b[1..][i] {
        assert a[..i + 1] == [a[0]] + a[1..][..i] && b[..i + 1] == [b[0]] + b[1..][..i];
        assert a[i + 1] < b[i + 1];
      }
      if i :| 0 <= i < |a| && i < |b| && a[..i] == b[..i] && a[i] < b[i] {
        assert i > 0 && a[1..][..i - 1] == a[..i][1..] && b[1..][..i - 1] == b[..i][1..];
        assert a[1..][i - 1] < b[1..][i - 1];
      }
    } else if a != "" && b != "" && a[0] < b[0] {
      assert a[..0] == b[..0];
    } else if a != "" && b != "" {
      assert forall i | 0 < i < |a| && i < |b| && a[..i] == b[..i] :: a[0] == a[..i][0];
    }
  }

  predicate IsLeast(n: string, names: set<string>) {
    n in names && forall m | m in names :: LessEq(n, m)
  }

  lemma {:induction false} LeastExists(names: set<string>)
    requires names != {}
    ensures exists n :: n in names && IsLeast(n, names)
    decreases |names|
  {
    hide LessEq;
    var x :| x in names;
    LessEqTotal(x, x);
    if names == {x} {
      assert IsLeast(x, names);
    } else {
      LeastExists(names - {x});
      var m :| m in names - {x} && IsLeast(m, names - {x});
      LessEqTotal(x, m);
      var n := if LessEq(x, m) then x else m;
      forall k | k in names ensures LessEq(n, k) {
        if k != x && n == x {
          LessEqTransitive(x, m, k);
        }
      }
      assert IsLeast(n, names);
    }
  }

  lemma {:induction false} LeastUnique(a: string, b: string, names: set<string>)
    requires IsLeast(a, names) && IsLeast(b, names)
    ensures a == b
  {
    LessEqTotal(a, b);
  }

  function Least(names: set<string>): (n: string)
    requires names != {}
    ensures IsLeast(n, names)
  {
    LeastExists(names);
    assert forall a, b | IsLeast(a, names) && IsLeast(b, names) :: a == b by {
      forall a, b | IsLeast(a, names) && IsLeast(b, names) ensures a == b {
        LeastUnique(a, b, names);
      }
    }
    var n :| n in names && IsLeast(n, names);
    n
  }
}

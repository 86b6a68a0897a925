/** Normalizing responses that come line by line: JSON lines and server-sent events. */
module ModelStreams {
  import opened Prelude
  import opened Text
  import opened Json
  import opened ModelAlias
  import opened ModelResponse

  // ----- Lines -----

  function Split(s: string): (r: seq<string>)
    ensures |r| >= 1
  {
    if s == "" then [""]
    else
      var r := Split(s[1..]);
      if s[0] == '\n' then [""] + r else [[s[0]] + r[0]] + r[1..]
  }

  function Join(lines: seq<string>): string
    requires |lines| >= 1
  {
    if |lines| == 1 then lines[0] else lines[0] + "\n" + Join(lines[1..])
  }

  predicate OneLine(s: string) {
    '\n' !in s
  }

  lemma {:induction false} JoinSplit(s: string)
    ensures Join(Split(s)) == s && forall l | l in Split(s) :: OneLine(l)
  {
    hide Join;
    if s == "" {
      JoinOne("");
    } else {
      var r := Split(s[1..]);
      JoinSplit(s[1..]);
      assert s == [s[0]] + s[1..];
      if s[0] == '\n' {
        JoinLine("", r);
      } else {
        JoinFirst([s[0]], r[0], r[1..]);
        assert r == [r[0]] + r[1..] && OneLine(r[0]);
      }
    }
  }

  lemma {:induction false} JoinOne(l: string)
    ensures Join([l]) == l
  {
  }

  lemma {:induction false} JoinLine(l: string, rest: seq<string>)
    requires rest != []
    ensures Join([l] + rest) == l + "\n" + Join(rest)
  {
    assert ([l] + rest)[1..] == rest;
  }

  /** What goes in front of the first line goes in front of all. */
  lemma {:induction false} JoinFirst(a: string, l: string, rest: seq<string>)
    ensures Join([a + l] + rest) == a + Join([l] + rest)
  {
    if rest == [] {
      assert [l] + rest == [l] && [a + l] + rest == [a + l];
    } else {
      JoinLine(l, rest);
      JoinLine(a + l, rest);
      assert (a + l) + "\n" + Join(rest) == a + (l + "\n" + Join(rest));
    }
  }

  lemma {:induction false} SplitOneLine(s: string)
    requires OneLine(s)
    ensures Split(s) == [s]
  {
    if s != "" {
      SplitOneLine(s[1..]);
      assert s == [s[0]] + s[1..];
    }
  }

  lemma {:induction false} SplitPrefix(l: string, rest: string)
    requires OneLine(l)
    ensures Split(l + "\n" + rest) == [l] + Split(rest)
    decreases |l|
  {
    var s := l + "\n" + rest;
    if l == "" {
      assert s[1..] == rest;
    } else {
      assert s[1..] == l[1..] + "\n" + rest;
      SplitPrefix(l[1..], rest);
      assert l == [l[0]] + l[1..];
    }
  }

  lemma {:induction false} SplitJoin(lines: seq<string>)
    requires |lines| >= 1 && forall l | l in lines :: OneLine(l)
    ensures Split(Join(lines)) == lines
    decreases |lines|
  {
    if |lines| == 1 {
      SplitOneLine(lines[0]);
    } else {
      SplitJoin(lines[1..]);
      SplitPrefix(lines[0], Join(lines[1..]));
      assert lines == [lines[0]] + lines[1..];
    }
  }

  // ----- One JSON text -----

  /** Parsing JSON text, and encoding an object. */
  datatype Codec = Codec(parse: string -> Option<Json>, encode: Members -> string)

  /** What the codec is relied on for: the text of an object parses back, is one line from
      brace to brace, and holds no control character; and a trimmed text that parses to an
      object starts with a brace. */
  ghost predicate Sound(c: Codec) {
    (forall m :: EncodesWell(c, m)) && forall t :: ObjectsStart(c, t)
  }

  predicate ObjectsStart(c: Codec, t: string) {
    TrimSpace(t) == t && c.parse(t).Some? && c.parse(t).value.Obj? ==> t != "" && t[0] == '{'
  }

  predicate EncodesWell(c: Codec, m: Members) {
    var t := c.encode(m);
    && |t| >= 2 && t[0] == '{' && t[|t| - 1] == '}' && '\n' !in t && '\r' !in t
    && c.parse(t) == Some(Obj(m))
  }

  /** The text of a response, re-encoded only when a model in it is renamed. */
  function Rewrite(text: string, reverse: Table, c: Codec): string {
    if reverse == map[] || TrimSpace(text) == "" then text
    else match c.parse(text)
         case None => text
         case Some(j) => if Touches(j, reverse) then c.encode(Normalize(j, reverse).members) else text
  }

  /** Parsed again, a rewritten text is the normalized value. */
  lemma {:induction false} RewriteParses(text: string, reverse: Table, c: Codec)
    requires Sound(c) && c.parse(text).Some? && TrimSpace(text) != ""
    ensures c.parse(Rewrite(text, reverse, c)) == Some(Normalize(c.parse(text).value, reverse))
  {
    hide Normalize, Touches, TrimSpace;
    var j := c.parse(text).value;
    if Touches(j, reverse) {
      TouchedIsObject(j, reverse);
      assert EncodesWell(c, Normalize(j, reverse).members);
      if reverse == map[] {
        NothingKnown(j);
      }
    } else {
      UntouchedStays(j, reverse);
    }
  }

  lemma {:induction false} TouchedIsObject(j: Json, reverse: Table)
    requires Touches(j, reverse)
    ensures j.Obj? && Normalize(j, reverse).Obj?
  {
  }

  lemma {:induction false} NothingKnown(j: Json)
    ensures !Touches(j, map[])
  {
    if j.Obj? {
      if MESSAGE in j.members {
        NothingKnown(j.members[MESSAGE]);
      }
      if RESULT in j.members {
        NothingKnown(j.members[RESULT]);
      }
    }
  }

  lemma {:induction false} RewrittenIsOneLine(text: string, reverse: Table, c: Codec)
    requires Sound(c) && Rewrite(text, reverse, c) != text
    ensures exists m :: Rewrite(text, reverse, c) == c.encode(m) && EncodesWell(c, m)
  {
    hide Normalize, Touches, TrimSpace;
    var j := c.parse(text).value;
    TouchedIsObject(j, reverse);
    assert EncodesWell(c, Normalize(j, reverse).members);
  }

  // ----- JSON lines -----

  predicate IsEdge(c: char) {
    c == ' ' || c == '\t' || c == '\r'
  }

  predicate LooksObject(s: string) {
    s != "" && s[0] == '{'
  }

  function RewriteLine(line: string, reverse: Table, c: Codec): string {
    var trimmed := TrimSpace(line);
    if !LooksObject(trimmed) || Rewrite(trimmed, reverse, c) == trimmed then line
    else
      line[..|line| - |TrimLeft(line, IsEdge)|] + Rewrite(trimmed, reverse, c) + line[|TrimRight(line, IsEdge)|..]
  }

  function RewriteLines(lines: seq<string>, reverse: Table, c: Codec): (r: seq<string>)
    ensures |r| == |lines|
  {
    seq(|lines|, i requires 0 <= i < |lines| => RewriteLine(lines[i], reverse, c))
  }

  method RewriteJSONL(body: string, reverse: Table, c: Codec) returns (out: string)
    ensures out == Join(RewriteLines(Split(body), reverse, c))
    ensures Sound(c) ==>
              && |Split(out)| == |Split(body)|
              && forall i | 0 <= i < |Split(body)| :: Normalizes(Split(body)[i], Split(out)[i], reverse, c)
  {
    hide TrimSpace, Rewrite, Split, Join, RewriteLine, Sound, Normalizes;
    JoinSplit(body);
    if Sound(c) {
      JSONLKeepsLines(body, reverse, c);
    }
    if reverse == map[] || TrimSpace(body) == "" {
      NothingToRewrite(body, reverse, c);
      return body;
    }
    var lines := Split(body);
    var changed := false;
    var i := 0;
    while i < |lines|
      invariant i <= |lines| == |Split(body)|
      invariant lines[i..] == Split(body)[i..] && lines[..i] == RewriteLines(Split(body), reverse, c)[..i]
      invariant !changed ==> lines == Split(body)
    {
      var line := lines[i];
      assert line == lines[i..][0] == Split(body)[i];
      LineIs(line, reverse, c);
      ghost var now := RewriteLine(line, reverse, c);
      Steps(lines, Split(body), i, now, RewriteLines(Split(body), reverse, c));
      var trimmed := TrimSpace(line);
      if LooksObject(trimmed) {
        var text := Rewrite(trimmed, reverse, c);
        if text != trimmed {
          var prefix := |line| - |TrimLeft(line, IsEdge)|;
          var suffix := |line| - |TrimRight(line, IsEdge)|;
          var rebuilt := line[..prefix] + text;
          if suffix > 0 {
            rebuilt := rebuilt + line[|line| - suffix..];
          }
          lines := lines[i := rebuilt];
          changed := true;
        }
      }
      i := i + 1;
    }
    assert lines == RewriteLines(Split(body), reverse, c);
    return if changed then Join(lines) else body;
  }

  lemma {:induction false} Steps(xs: seq<string>, orig: seq<string>, i: nat, x: string, want: seq<string>)
    requires i < |xs| == |orig| == |want| && xs[i..] == orig[i..] && xs[..i] == want[..i] && want[i] == x
    ensures xs[i := x][i + 1..] == orig[i + 1..] && xs[i := x][..i + 1] == want[..i + 1]
    ensures x == xs[i] ==> xs[i := x] == xs
  {
    assert xs[i := x][i + 1..] == xs[i..][1..] == orig[i..][1..];
    assert want[..i + 1] == want[..i] + [x] && xs[i := x][..i + 1] == xs[..i] + [x];
  }

  lemma {:induction false} LineIs(line: string, reverse: Table, c: Codec)
    ensures var t := TrimSpace(line); var text := Rewrite(t, reverse, c);
            RewriteLine(line, reverse, c) ==
            if !LooksObject(t) || text == t then line
            else if |line| == |TrimRight(line, IsEdge)| then line[..|line| - |TrimLeft(line, IsEdge)|] + text
            else (line[..|line| - |TrimLeft(line, IsEdge)|] + text) + line[|TrimRight(line, IsEdge)|..]
  {
    hide TrimSpace, Rewrite;
    assert line[|line|..] == "";
  }

  lemma {:induction false} BlankIsAllSpace(s: string)
    ensures TrimSpace(s) == "" <==> All(s, IsSpace)
  {
    hide TrimSpace, IsSpace;
    TrimParts(s);
    assert TrimSpace(s) != "" ==> TrimSpace(s)[0] == s[|Lead(s)|];
  }

  lemma {:induction false} BlankLines(s: string)
    requires All(s, IsSpace)
    ensures forall l | l in Split(s) :: All(l, IsSpace)
  {
    hide IsSpace;
    if s != "" {
      BlankLines(s[1..]);
      var r := Split(s[1..]);
      assert All(r[0], IsSpace) && forall l | l in r[1..] :: l in r;
    }
  }

  lemma {:induction false} NothingToRewrite(body: string, reverse: Table, c: Codec)
    requires reverse == map[] || TrimSpace(body) == ""
    ensures RewriteLines(Split(body), reverse, c) == Split(body)
  {
    hide TrimSpace, Split, IsSpace;
    if TrimSpace(body) == "" {
      BlankIsAllSpace(body);
      BlankLines(body);
      forall i | 0 <= i < |Split(body)| ensures RewriteLine(Split(body)[i], reverse, c) == Split(body)[i] {
        BlankIsAllSpace(Split(body)[i]);
      }
    }
  }

  lemma {:induction false} RewrittenLineIsOneLine(line: string, reverse: Table, c: Codec)
    requires Sound(c) && OneLine(line)
    ensures OneLine(RewriteLine(line, reverse, c))
  {
    hide TrimSpace, Rewrite, Sound;
    var t := TrimSpace(line);
    if LooksObject(t) && Rewrite(t, reverse, c) != t {
      RewrittenIsOneLine(t, reverse, c);
    }
  }

  /** A text and what a client gets for it: where the trimmed text parses to a value that
      names a known model somewhere, a text that parses to the normalized value, and
      otherwise the very same text. */
  ghost predicate Normalizes(was: string, now: string, reverse: Table, c: Codec) {
    var j := c.parse(TrimSpace(was));
    if j.Some? && KnownSomewhere(j.value, reverse) then c.parse(TrimSpace(now)) == Some(Normalize(j.value, reverse))
    else now == was
  }

  /** The rewrite keeps the lines as lines, and every one of them that holds a known model
      comes out normalized. */
  lemma {:induction false} JSONLKeepsLines(body: string, reverse: Table, c: Codec)
    requires Sound(c)
    ensures var out := Join(RewriteLines(Split(body), reverse, c));
            && |Split(out)| == |Split(body)|
            && forall i | 0 <= i < |Split(body)| :: Normalizes(Split(body)[i], Split(out)[i], reverse, c)
  {
    hide Split, Join, RewriteLine, Sound, Normalizes;
    JoinSplit(body);
    var lines := RewriteLines(Split(body), reverse, c);
    forall l | l in lines ensures OneLine(l) {
      var i :| 0 <= i < |lines| && lines[i] == l;
      RewrittenLineIsOneLine(Split(body)[i], reverse, c);
    }
    SplitJoin(lines);
    forall i | 0 <= i < |Split(body)| ensures Normalizes(Split(body)[i], lines[i], reverse, c) {
      LineNormalized(Split(body)[i], reverse, c);
    }
  }

  lemma {:induction false} LineNormalized(line: string, reverse: Table, c: Codec)
    requires Sound(c)
    ensures Normalizes(line, RewriteLine(line, reverse, c), reverse, c)
  {
    hide Sound, Rewrite, Normalize, KnownSomewhere, TrimSpace, TrimLeft, TrimRight;
    var t := TrimSpace(line);
    TextRewritten(line, reverse, c);
    if Rewrite(t, reverse, c) != t && LooksObject(t) {
      EncodedBetweenEdges(line, Rewrite(t, reverse, c), reverse, c);
    }
  }

  /** One trimmed text: whether it is rewritten, and to what. */
  lemma {:induction false} TextRewritten(line: string, reverse: Table, c: Codec)
    requires Sound(c)
    ensures var t := TrimSpace(line); var j := c.parse(t);
            if j.Some? && KnownSomewhere(j.value, reverse) then
              LooksObject(t) && c.parse(Rewrite(t, reverse, c)) == Some(Normalize(j.value, reverse))
            else Rewrite(t, reverse, c) == t
  {
    hide Normalize, Touches, TrimSpace, KnownSomewhere, Sound;
    var t := TrimSpace(line);
    var j := c.parse(t);
    TrimIdempotent(line);
    if j.Some? {
      ReencodedIffKnown(j.value, reverse);
      if Touches(j.value, reverse) {
        TouchedIsObject(j.value, reverse);
        ObjectText(t, c);
        RewriteParses(t, reverse, c);
      }
    }
  }

  lemma {:induction false} ObjectText(t: string, c: Codec)
    requires Sound(c) && TrimSpace(t) == t && c.parse(t).Some? && c.parse(t).value.Obj?
    ensures LooksObject(t)
  {
    hide TrimSpace, EncodesWell;
    assert ObjectsStart(c, t);
  }

  /** Between the edges a rewritten line keeps there is the rewritten text. */
  lemma {:induction false} EncodedBetweenEdges(line: string, text: string, reverse: Table, c: Codec)
    requires Sound(c) && LooksObject(TrimSpace(line)) && Rewrite(TrimSpace(line), reverse, c) == text != TrimSpace(line)
    ensures TrimSpace(RewriteLine(line, reverse, c)) == text
  {
    hide TrimSpace, Rewrite, IsSpace, Sound;
    RewrittenIsOneLine(TrimSpace(line), reverse, c);
    var a, b := line[..|line| - |TrimLeft(line, IsEdge)|], line[|TrimRight(line, IsEdge)|..];
    EdgeIsSpace();
    TrimLeftCuts(line, IsEdge);
    BracesAreNoSpace();
    TrimUnique(a, text, b);
  }

  lemma {:induction false} BracesAreNoSpace()
    ensures !IsSpace('{') && !IsSpace('}')
  {
  }

  /** Around a rewritten object the line keeps its white space exactly when that is spaces,
      tabs and carriage returns only: what else TrimSpace cuts off is lost. */
  lemma {:induction false} EdgesKeptIffPlain(line: string, reverse: Table, c: Codec)
    requires LooksObject(TrimSpace(line)) && Rewrite(TrimSpace(line), reverse, c) != TrimSpace(line)
    ensures RewriteLine(line, reverse, c) == Lead(line) + Rewrite(TrimSpace(line), reverse, c) + Tail(line)
            <==> All(Lead(line), IsEdge) && All(Tail(line), IsEdge)
  {
    hide TrimSpace, Rewrite, Lead, Tail, IsSpace, TrimLeft, TrimRight, All, IsEdge;
    var text := Rewrite(TrimSpace(line), reverse, c);
    FrontEdge(line);
    BackEdge(line);
    var a, b := line[..|line| - |TrimLeft(line, IsEdge)|], line[|TrimRight(line, IsEdge)|..];
    if |a| < |Lead(line)| || |b| < |Tail(line)| {
      ShorterEdges(a, b, Lead(line), Tail(line), text);
    }
  }

  lemma {:induction false} FrontEdge(line: string)
    requires TrimSpace(line) != ""
    ensures var a := line[..|line| - |TrimLeft(line, IsEdge)|];
            |a| <= |Lead(line)| && (if All(Lead(line), IsEdge) then a == Lead(line) else |a| < |Lead(line)|)
  {
    hide TrimSpace, Lead, Tail, IsSpace, TrimLeft, TrimRight, IsEdge;
    var lead, rest := Lead(line), TrimSpace(line) + Tail(line);
    TrimParts(line);
    assert line == lead + rest;
    PrefixWithin(line, lead, rest);
    if All(lead, IsEdge) {
      EdgeIsSpace();
      TrimLeftSkips(lead, rest, IsEdge);
    }
  }

  lemma {:induction false} BackEdge(line: string)
    requires TrimSpace(line) != ""
    ensures var b := line[|TrimRight(line, IsEdge)|..];
            |b| <= |Tail(line)| && (if All(Tail(line), IsEdge) then b == Tail(line) else |b| < |Tail(line)|)
  {
    hide TrimSpace, Lead, Tail, IsSpace, TrimLeft, TrimRight, IsEdge;
    var rest, tail := Lead(line) + TrimSpace(line), Tail(line);
    TrimParts(line);
    assert line == rest + tail && rest[|rest| - 1] == TrimSpace(line)[|TrimSpace(line)| - 1];
    SuffixWithin(line, rest, tail);
    if All(tail, IsEdge) {
      EdgeIsSpace();
      TrimRightSkips(rest, tail, IsEdge);
    }
  }

  lemma {:induction false} ShorterEdges(a: string, b: string, c: string, d: string, text: string)
    requires |a| <= |c| && |b| <= |d| && (|a| < |c| || |b| < |d|)
    ensures a + text + b != c + text + d
  {
    assert |a + text + b| < |c + text + d|;
  }

  /** A vertical tab before a rewritten object, or a no-break space after it, is lost. */
  lemma {:induction false} OtherSpacesLost(core: string, reverse: Table, c: Codec)
    requires LooksObject(core) && !IsSpace(core[|core| - 1]) && Rewrite(core, reverse, c) != core
    ensures RewriteLine("\U{0b}" + core, reverse, c) == Rewrite(core, reverse, c)
    ensures RewriteLine(core + "\U{a0}", reverse, c) == Rewrite(core, reverse, c)
  {
    hide TrimSpace, Rewrite, Lead, Tail;
    var l0, l1 := "\U{0b}" + core, core + "\U{a0}";
    TrimUnique("\U{0b}", core, "");
    TrimUnique("", core, "\U{a0}");
    assert "\U{0b}" + core + "" == l0 && "" + core + "\U{a0}" == l1;
    NoEdges(l0, reverse, c);
    NoEdges(l1, reverse, c);
  }

  lemma {:induction false} NoEdges(line: string, reverse: Table, c: Codec)
    requires line != "" && !IsEdge(line[0]) && !IsEdge(line[|line| - 1])
    requires LooksObject(TrimSpace(line)) && Rewrite(TrimSpace(line), reverse, c) != TrimSpace(line)
    ensures RewriteLine(line, reverse, c) == Rewrite(TrimSpace(line), reverse, c)
  {
    hide TrimSpace, Rewrite;
    assert TrimLeft(line, IsEdge) == line && TrimRight(line, IsEdge) == line;
    assert line[..0] == "" && line[|line|..] == "";
  }

  lemma {:induction false} EdgeIsSpace()
    ensures forall ch | IsEdge(ch) :: IsSpace(ch)
  {
  }

  lemma {:induction false} PrefixWithin(line: string, lead: string, rest: string)
    requires line == lead + rest && rest != "" && !IsSpace(rest[0])
    ensures var n := |line| - |TrimLeft(line, IsEdge)|; n <= |lead| && (n == |lead| ==> All(lead, IsEdge))
  {
    hide IsSpace;
    EdgeIsSpace();
    TrimLeftCuts(line, IsEdge);
    assert line[|lead|] == rest[0];
  }

  lemma {:induction false} SuffixWithin(line: string, rest: string, tail: string)
    requires line == rest + tail && rest != "" && !IsSpace(rest[|rest| - 1])
    ensures var n := |line| - |TrimRight(line, IsEdge)|; n <= |tail| && (n == |tail| ==> All(tail, IsEdge))
  {
    hide IsSpace;
    EdgeIsSpace();
    assert line[|rest| - 1] == rest[|rest| - 1];
    assert forall i | 0 <= i < |tail| :: tail[i] == line[|rest| + i];
  }
}

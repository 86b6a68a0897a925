/** The rewriter of server-sent events against the parser of section 9.2.6 of the WHATWG
    HTML Standard: the client reads the same events, with each data line normalized. */
module EventStream {
  import opened Prelude
  import opened Text
  import opened ModelAlias
  import opened ModelResponse
  import opened ModelStreams

  // ----- The rewriter -----

  const DATA := "data:"

  function RewriteSSELine(line: string, reverse: Table, c: Codec): string {
    if !(DATA <= line) then line
    else
      var payload := TrimSpace(line[|DATA|..]);
      if payload == "" || payload == "[DONE]" || !LooksObject(payload) || Rewrite(payload, reverse, c) == payload
      then line
      else "data: " + Rewrite(payload, reverse, c)
  }

  function DropCR(line: string): string {
    if line != "" && line[|line| - 1] == '\r' then line[..|line| - 1] else line
  }

  /** The lines the scanner yields: an unterminated last line counts unless it is empty;
      each loses one carriage return to the scanner and one to the rewriter. */
  function Scanned(stream: string): seq<string> {
    var all := Split(stream);
    var lines := if all[|all| - 1] == "" then all[..|all| - 1] else all;
    seq(|lines|, i requires 0 <= i < |lines| => DropCR(DropCR(lines[i])))
  }

  function Emitted(lines: seq<string>, reverse: Table, c: Codec): string {
    if lines == [] then ""
    else Emitted(lines[..|lines| - 1], reverse, c) + RewriteSSELine(lines[|lines| - 1], reverse, c) + "\n"
  }

  method WrapSSE(stream: string, reverse: Table, c: Codec) returns (out: string)
    ensures out == Emitted(Scanned(stream), reverse, c)
    ensures Sound(c) && Plain(stream) ==> StreamNormalizes(Parsed(stream), Parsed(out), reverse, c)
  {
    hide RewriteSSELine, Scanned, Sound, Plain, StreamNormalizes, Parsed;
    if Sound(c) && Plain(stream) {
      ClientReadsNormalized(stream, reverse, c);
    }
    var lines := Scanned(stream);
    out := "";
    var i := 0;
    while i < |lines|
      invariant i <= |lines| && out == Emitted(lines[..i], reverse, c)
    {
      assert lines[..i + 1][..i] == lines[..i];
      out := out + RewriteSSELine(lines[i], reverse, c) + "\n";
      i := i + 1;
    }
    assert lines[..i] == lines;
  }

  // ----- The client's parser -----

  /** An event's data is its data lines joined by line feeds. */
  datatype Event = Event(kind: string, data: seq<string>, id: string)

  datatype Reader = Reader(data: seq<string>, kind: string, id: string, retry: string, events: seq<Event>)

  const START: Reader := Reader([], "", "", "", [])

  /** The place of the first colon, or the length. */
  function Colon(line: string): (n: nat)
    ensures n <= |line|
  {
    if line == "" || line[0] == ':' then 0 else 1 + Colon(line[1..])
  }

  function Field(line: string): string {
    line[..Colon(line)]
  }

  function Value(line: string): string {
    var v := if Colon(line) < |line| then line[Colon(line) + 1..] else "";
    if v != "" && v[0] == ' ' then v[1..] else v
  }

  predicate Digits(s: string) {
    s != "" && forall i | 0 <= i < |s| :: '0' <= s[i] <= '9'
  }

  function Read(r: Reader, line: string): Reader {
    if line == "" then
      if r.data == [] then r.(kind := "")
      else
        r.(data := [], kind := "",
           events := r.events + [Event(if r.kind == "" then "message" else r.kind, r.data, r.id)])
    else if line[0] == ':' then r
    else
      var f, v := Field(line), Value(line);
      if f == "data" then r.(data := r.data + [v])
      else if f == "event" then r.(kind := v)
      else if f == "id" then if '\0' in v then r else r.(id := v)
      else if f == "retry" then if Digits(v) then r.(retry := v) else r
      else r
  }

  function ReadAll(lines: seq<string>): Reader {
    if lines == [] then START else Read(ReadAll(lines[..|lines| - 1]), lines[|lines| - 1])
  }

  lemma {:induction false} ReadMore(lines: seq<string>, line: string)
    ensures ReadAll(lines + [line]) == Read(ReadAll(lines), line)
  {
    assert (lines + [line])[..|lines|] == lines;
  }

  const BOM: char := '\U{feff}'

  /** The lines of a stream without carriage returns; a leading byte order mark is
      dropped and a last line with no line feed never completes an event. */
  function Lines(stream: string): seq<string> {
    var s := if stream != "" && stream[0] == BOM then stream[1..] else stream;
    Split(s)[..|Split(s)| - 1]
  }

  function Parsed(stream: string): Reader {
    ReadAll(Lines(stream))
  }

  // ----- The same events, normalized -----

  /** One data line as the client should read it. */
  function NormalData(v: string, reverse: Table, c: Codec): string {
    var payload := TrimSpace(v);
    if LooksObject(payload) && Rewrite(payload, reverse, c) != payload then Rewrite(payload, reverse, c) else v
  }

  function NormalAll(data: seq<string>, reverse: Table, c: Codec): seq<string> {
    seq(|data|, i requires 0 <= i < |data| => NormalData(data[i], reverse, c))
  }

  function NormalEvents(events: seq<Event>, reverse: Table, c: Codec): seq<Event> {
    seq(|events|, i requires 0 <= i < |events| => events[i].(data := NormalAll(events[i].data, reverse, c)))
  }

  function NormalReader(r: Reader, reverse: Table, c: Codec): Reader {
    r.(data := NormalAll(r.data, reverse, c), events := NormalEvents(r.events, reverse, c))
  }

  lemma {:induction false} DataLine(line: string)
    requires DATA <= line
    ensures Field(line) == "data" && line[0] == 'd'
    ensures TrimSpace(Value(line)) == TrimSpace(line[|DATA|..])
  {
    assert line[0] == DATA[0] && line[1] == DATA[1] && line[2] == DATA[2] && line[3] == DATA[3] && line[4] == DATA[4];
    assert line[1..][1..] == line[2..] && line[2..][1..] == line[3..] && line[3..][1..] == line[4..];
    assert Colon(line[4..]) == 0;
    assert Colon(line[3..]) == 1;
    assert Colon(line[2..]) == 2;
    assert Colon(line[1..]) == 3;
    var v := line[|DATA|..];
    if v != "" && v[0] == ' ' {
      assert TrimLeft(v, IsSpace) == TrimLeft(v[1..], IsSpace);
    }
  }

  lemma {:induction false} NotData(line: string)
    requires !(DATA <= line) && Field(line) == "data"
    ensures line == "data"
  {
    ColonThere(line);
    var n := Colon(line);
    StartsWithField(line, n);
  }

  lemma {:induction false} StartsWithField(line: string, n: nat)
    requires n <= |line|
    ensures n < |line| && line[n] == ':' ==> line[..n] + ":" <= line
    ensures n == |line| ==> line[..n] == line
  {
    if n < |line| {
      assert line[..n + 1] == line[..n] + [line[n]];
    }
  }

  lemma {:induction false} ColonThere(line: string)
    ensures Colon(line) < |line| ==> line[Colon(line)] == ':'
  {
    if line != "" && line[0] != ':' {
      ColonThere(line[1..]);
    }
  }

  lemma {:induction false} RewrittenLine(text: string)
    ensures DATA <= "data: " + text && Value("data: " + text) == text
  {
    var line := "data: " + text;
    assert line[..5] == DATA;
    DataLine(line);
    assert Colon(line) == 4;
    assert line[5..] == " " + text;
  }

  /** Reading a rewritten line does what reading the line does, normalized. */
  lemma {:induction false} ReadsNormalized(r: Reader, line: string, reverse: Table, c: Codec)
    ensures Read(NormalReader(r, reverse, c), RewriteSSELine(line, reverse, c))
            == NormalReader(Read(r, line), reverse, c)
  {
    hide TrimSpace, Rewrite, Field, Value, Digits;
    if DATA <= line {
      DataLine(line);
      var payload := TrimSpace(line[|DATA|..]);
      var now := RewriteSSELine(line, reverse, c);
      assert LooksObject(payload) ==> payload != "[DONE]";
      if LooksObject(payload) && Rewrite(payload, reverse, c) != payload {
        RewrittenLine(Rewrite(payload, reverse, c));
        DataLine(now);
      }
      assert Read(NormalReader(r, reverse, c), now).data
             == NormalAll(r.data, reverse, c) + [NormalData(Value(line), reverse, c)];
      assert NormalAll(r.data + [Value(line)], reverse, c)
          == NormalAll(r.data, reverse, c) + [NormalData(Value(line), reverse, c)];
    } else if line == "" {
      EventNormalized(r, reverse, c);
    } else if line[0] != ':' && Field(line) == "data" {
      NotData(line);
      BareData(reverse, c);
      assert NormalAll(r.data + [""], reverse, c) == NormalAll(r.data, reverse, c) + [""];
    }
  }

  lemma {:induction false} BareData(reverse: Table, c: Codec)
    ensures Value("data") == "" && NormalData("", reverse, c) == ""
  {
    ColonThere("data");
  }

  lemma {:induction false} EventNormalized(r: Reader, reverse: Table, c: Codec)
    ensures Read(NormalReader(r, reverse, c), "") == NormalReader(Read(r, ""), reverse, c)
  {
    hide NormalData;
    if r.data != [] {
      var e := Event(if r.kind == "" then "message" else r.kind, r.data, r.id);
      assert NormalEvents(r.events + [e], reverse, c)
          == NormalEvents(r.events, reverse, c) + [e.(data := NormalAll(e.data, reverse, c))];
    } else {
      assert NormalAll(r.data, reverse, c) == [];
    }
  }

  function RewriteAll(lines: seq<string>, reverse: Table, c: Codec): seq<string> {
    seq(|lines|, i requires 0 <= i < |lines| => RewriteSSELine(lines[i], reverse, c))
  }

  lemma {:induction false} ReadsAllNormalized(lines: seq<string>, reverse: Table, c: Codec)
    ensures ReadAll(RewriteAll(lines, reverse, c)) == NormalReader(ReadAll(lines), reverse, c)
  {
    hide Read, RewriteSSELine, NormalData;
    var now := RewriteAll(lines, reverse, c);
    if lines == [] {
      assert NormalReader(START, reverse, c) == START;
    } else {
      var n := |lines| - 1;
      assert now[..n] == RewriteAll(lines[..n], reverse, c);
      ReadsAllNormalized(lines[..n], reverse, c);
      ReadsNormalized(ReadAll(lines[..n]), lines[n], reverse, c);
    }
  }

  lemma {:induction false} EmittedIsJoin(lines: seq<string>, reverse: Table, c: Codec)
    ensures Emitted(lines, reverse, c) == Join(RewriteAll(lines, reverse, c) + [""])
  {
    hide RewriteSSELine;
    if lines == [] {
      assert RewriteAll(lines, reverse, c) == [];
    } else {
      var n := |lines| - 1;
      var l := RewriteSSELine(lines[n], reverse, c);
      EmittedIsJoin(lines[..n], reverse, c);
      assert RewriteAll(lines, reverse, c) == RewriteAll(lines[..n], reverse, c) + [l];
      JoinMore(RewriteAll(lines[..n], reverse, c), l);
    }
  }

  lemma {:induction false} JoinMore(lines: seq<string>, l: string)
    ensures Join(lines + [l] + [""]) == Join(lines + [""]) + l + "\n"
  {
    if lines == [] {
      assert [l] + [""] == [] + [l] + [""];
      assert ([l] + [""])[1..] == [""];
      assert Join([l] + [""]) == l + "\n" + "";
    } else {
      var all := lines + [l] + [""];
      assert all[1..] == lines[1..] + [l] + [""];
      assert (lines + [""])[1..] == lines[1..] + [""];
      JoinMore(lines[1..], l);
      assert Join(all) == lines[0] + "\n" + (Join(lines[1..] + [""]) + l + "\n");
    }
  }

  /** A terminated stream without carriage returns. */
  predicate Plain(stream: string) {
    '\r' !in stream && (stream != "" ==> stream[|stream| - 1] == '\n' && stream[0] != BOM)
  }

  lemma {:induction false} LastLineEmpty(s: string)
    requires s == "" || s[|s| - 1] == '\n'
    ensures var r := Split(s); r[|r| - 1] == ""
  {
    if s != "" {
      if |s| == 1 {
        assert s[1..] == "";
      } else {
        assert s[1..][|s| - 2] == s[|s| - 1];
        LastLineEmpty(s[1..]);
        if |Split(s[1..])| == 1 {
          SplitWithFeed(s[1..]);
        }
      }
    }
  }

  lemma {:induction false} SplitWithFeed(s: string)
    requires s != "" && s[|s| - 1] == '\n'
    ensures |Split(s)| >= 2
  {
    if |s| > 1 && s[0] != '\n' {
      assert s[1..][|s| - 2] == s[|s| - 1];
      SplitWithFeed(s[1..]);
    }
  }

  lemma {:induction false} SplitNoCR(s: string)
    requires '\r' !in s
    ensures forall l | l in Split(s) :: '\r' !in l
  {
    if s != "" {
      SplitNoCR(s[1..]);
      var r := Split(s[1..]);
      assert r[0] in r && forall l | l in r[1..] :: l in r;
    }
  }

  lemma {:induction false} ScannedPlain(stream: string)
    requires Plain(stream)
    ensures Scanned(stream) == Lines(stream) && forall l | l in Lines(stream) :: OneLine(l)
  {
    hide Split;
    LastLineEmpty(stream);
    SplitNoCR(stream);
    JoinSplit(stream);
    var lines := Lines(stream);
    forall i | 0 <= i < |lines| ensures DropCR(DropCR(lines[i])) == lines[i] {
      assert lines[i] in Split(stream);
    }
  }

  /** Lines that each end in the given way. */
  function Ended(lines: seq<string>, end: string): string {
    if lines == [] then "" else lines[0] + end + Ended(lines[1..], end)
  }

  predicate PlainLine(l: string) {
    '\n' !in l && '\r' !in l
  }

  /** Whether lines end in a line feed or in a carriage return and a line feed, the rewriter
      sees the same lines, and so writes the same stream. */
  lemma {:induction false} LineEndsDoNotMatter(lines: seq<string>)
    requires forall l | l in lines :: PlainLine(l)
    ensures Scanned(Ended(lines, "\n")) == lines && Scanned(Ended(lines, "\r\n")) == lines
  {
    hide Scanned, Ended, PlainLine;
    ScannedEnded(lines, "");
    ScannedEnded(lines, "\r");
    assert "" + "\n" == "\n" && "\r" + "\n" == "\r\n";
  }

  lemma {:induction false} ScannedEnded(lines: seq<string>, cr: string)
    requires (forall l | l in lines :: PlainLine(l)) && cr in {"", "\r"}
    ensures Scanned(Ended(lines, cr + "\n")) == lines
  {
    hide Split, Ended, PlainLine, DropCR;
    SplitEnded(lines, cr);
    var all := Split(Ended(lines, cr + "\n"));
    assert all[..|all| - 1] == Suffixed(lines, cr);
    forall i | 0 <= i < |lines| ensures DropCR(DropCR(Suffixed(lines, cr)[i])) == lines[i] {
      assert lines[i] in lines;
      DropsCR(lines[i]);
      assert lines[i] + "" == lines[i];
    }
  }

  lemma {:induction false} DropsCR(l: string)
    requires PlainLine(l)
    ensures DropCR(DropCR(l)) == l && DropCR(DropCR(l + "\r")) == l
  {
    assert (l + "\r")[..|l|] == l;
  }

  function Suffixed(lines: seq<string>, cr: string): seq<string> {
    seq(|lines|, i requires 0 <= i < |lines| => lines[i] + cr)
  }

  lemma {:induction false} SplitEnded(lines: seq<string>, cr: string)
    requires (forall l | l in lines :: PlainLine(l)) && '\n' !in cr
    ensures Split(Ended(lines, cr + "\n")) == Suffixed(lines, cr) + [""]
  {
    if lines != [] {
      var rest := Ended(lines[1..], cr + "\n");
      assert lines[0] in lines;
      SplitEnded(lines[1..], cr);
      assert lines[0] + (cr + "\n") + rest == (lines[0] + cr) + "\n" + rest;
      SplitPrefix(lines[0] + cr, rest);
      assert Suffixed(lines, cr) == [lines[0] + cr] + Suffixed(lines[1..], cr);
    } else {
      SplitOneLine("");
      assert Suffixed(lines, cr) == [];
    }
  }

  lemma {:induction false} RewrittenIsLine(line: string, reverse: Table, c: Codec)
    requires Sound(c) && OneLine(line)
    ensures OneLine(RewriteSSELine(line, reverse, c))
  {
    hide Sound, Rewrite, TrimSpace;
    if RewriteSSELine(line, reverse, c) != line {
      RewrittenIsOneLine(TrimSpace(line[|DATA|..]), reverse, c);
    }
  }

  /** On a plain stream the client reads from the wrapped stream exactly the events of the
      original one, in order, each data line normalized; the last event id and the retry
      time agree as well. */
  lemma {:induction false} WrappedEventsAreNormalized(stream: string, reverse: Table, c: Codec)
    requires Sound(c) && Plain(stream)
    ensures Parsed(Emitted(Scanned(stream), reverse, c)) == NormalReader(Parsed(stream), reverse, c)
  {
    hide Sound, RewriteSSELine, Split, Join, ReadAll, NormalReader;
    ScannedPlain(stream);
    var lines := Lines(stream);
    var now := RewriteAll(lines, reverse, c);
    forall l | l in now + [""] ensures OneLine(l) {
      if l in now {
        var i :| 0 <= i < |now| && now[i] == l;
        RewrittenIsLine(lines[i], reverse, c);
      }
    }
    EmittedIsJoin(lines, reverse, c);
    SplitJoin(now + [""]);
    var out := Emitted(lines, reverse, c);
    assert Split(out)[..|Split(out)| - 1] == now;
    NoBom(stream, reverse, c);
    ReadsAllNormalized(lines, reverse, c);
  }

  lemma {:induction false} NoBom(stream: string, reverse: Table, c: Codec)
    requires Plain(stream)
    ensures var out := Emitted(Lines(stream), reverse, c); out != "" ==> out[0] != BOM
  {
    hide Split, Join;
    var lines := Lines(stream);
    EmittedIsJoin(lines, reverse, c);
    if lines != [] {
      FirstOf(RewriteAll(lines, reverse, c) + [""]);
      JoinSplit(stream);
      LastLineEmpty(stream);
      FirstOf(Split(stream));
      assert RewriteAll(lines, reverse, c)[0] == RewriteSSELine(lines[0], reverse, c);
      RewriteStart(lines[0], reverse, c);
    } else {
      JoinOne("");
      assert RewriteAll(lines, reverse, c) + [""] == [""];
    }
  }

  lemma {:induction false} FirstOf(lines: seq<string>)
    requires |lines| >= 2
    ensures Join(lines) != "" && Join(lines)[0] == if lines[0] == "" then '\n' else lines[0][0]
  {
  }

  lemma {:induction false} RewriteStart(line: string, reverse: Table, c: Codec)
    ensures var now := RewriteSSELine(line, reverse, c);
            if line == "" then now == "" else now != "" && now[0] == line[0]
  {
    hide TrimSpace, Rewrite;
    if DATA <= line {
      assert line[0] == DATA[0] == 'd';
    }
  }

  // ----- What that means for the client -----

  /** Two events that differ only by the models their data lines name. */
  ghost predicate EventNormalizes(was: Event, now: Event, reverse: Table, c: Codec) {
    && now.kind == was.kind && now.id == was.id && |now.data| == |was.data|
    && forall i | 0 <= i < |was.data| :: Normalizes(was.data[i], now.data[i], reverse, c)
  }

  ghost predicate StreamNormalizes(was: Reader, now: Reader, reverse: Table, c: Codec) {
    && |now.events| == |was.events| && now.id == was.id && now.retry == was.retry
    && forall i | 0 <= i < |was.events| :: EventNormalizes(was.events[i], now.events[i], reverse, c)
  }

  lemma {:induction false} DataNormalized(v: string, reverse: Table, c: Codec)
    requires Sound(c)
    ensures Normalizes(v, NormalData(v, reverse, c), reverse, c)
  {
    hide Sound, Rewrite, TrimSpace, KnownSomewhere;
    TextRewritten(v, reverse, c);
    var t := TrimSpace(v);
    if LooksObject(t) && Rewrite(t, reverse, c) != t {
      RewrittenIsOneLine(t, reverse, c);
      BracesAreNoSpace();
      Trimmed(Rewrite(t, reverse, c));
    }
  }

  /** From the wrapped stream the client reads the same events in the same order, and every
      data line that names a known model somewhere reads as the normalized value; all the
      others are the very lines that were sent. */
  lemma {:induction false} ClientReadsNormalized(stream: string, reverse: Table, c: Codec)
    requires Sound(c) && Plain(stream)
    ensures StreamNormalizes(Parsed(stream), Parsed(Emitted(Scanned(stream), reverse, c)), reverse, c)
  {
    hide Sound, Plain, Parsed, Emitted, Scanned, NormalData, Normalizes;
    WrappedEventsAreNormalized(stream, reverse, c);
    var was, now := Parsed(stream), Parsed(Emitted(Scanned(stream), reverse, c));
    forall i | 0 <= i < |was.events| ensures EventNormalizes(was.events[i], now.events[i], reverse, c) {
      var e := was.events[i];
      forall k | 0 <= k < |e.data| ensures Normalizes(e.data[k], now.events[i].data[k], reverse, c) {
        DataNormalized(e.data[k], reverse, c);
      }
    }
  }

  /** A single line: only a data line with a known model changes, and stays a data line. */
  lemma {:induction false} SSELineNormalized(line: string, reverse: Table, c: Codec)
    requires Sound(c)
    ensures var now := RewriteSSELine(line, reverse, c);
            if "data:" <= line then "data:" <= now && Normalizes(line[5..], now[5..], reverse, c) else now == line
  {
    hide Sound, Rewrite, TrimSpace, KnownSomewhere, Normalize;
    if DATA <= line {
      var t := TrimSpace(line[5..]);
      TextRewritten(line[5..], reverse, c);
      if LooksObject(t) && Rewrite(t, reverse, c) != t {
        var text := Rewrite(t, reverse, c);
        var now := "data: " + text;
        RewrittenIsOneLine(t, reverse, c);
        BracesAreNoSpace();
        OneSpaceTrims(text);
        assert now[5..] == " " + text && now[..5] == "data:";
        assert t[0] == '{' && "[DONE]"[0] == '[';
        assert RewriteSSELine(line, reverse, c) == now;
      }
    }
  }

  lemma {:induction false} OneSpaceTrims(text: string)
    requires text != "" && !IsSpace(text[0]) && !IsSpace(text[|text| - 1])
    ensures TrimSpace(" " + text) == text
  {
    hide TrimSpace;
    TrimUnique(" ", text, "");
    assert " " + text + "" == " " + text;
  }

  // ----- The parser reads what a server writes -----

  /** An event a server can send whole. */
  predicate Sendable(e: Event) {
    && e.kind != "" && OneLine(e.kind) && OneLine(e.id) && '\0' !in e.id
    && e.data != [] && forall d | d in e.data :: OneLine(d)
  }

  function DataLines(data: seq<string>): seq<string> {
    seq(|data|, i requires 0 <= i < |data| => "data: " + data[i])
  }

  /** The lines of an event, the blank one that ends it included. */
  function Stanza(e: Event): seq<string> {
    ["event: " + e.kind] + ["id: " + e.id] + DataLines(e.data) + [""]
  }

  function Stanzas(events: seq<Event>): seq<string> {
    if events == [] then [] else Stanzas(events[..|events| - 1]) + Stanza(events[|events| - 1])
  }

  lemma {:induction false} FieldOf(name: string, v: string)
    requires ':' !in name && name != ""
    ensures var line := name + ": " + v; line != "" && line[0] != ':' && Field(line) == name && Value(line) == v
  {
    var line := name + ": " + v;
    ColonAfter(name, " " + v);
    assert line == name + (":" + (" " + v));
    assert line[|name|] == ':' && line[|name| + 1..] == " " + v;
    assert (" " + v)[1..] == v && line[..|name|] == name;
    assert line[0] == name[0] && name[0] in name;
  }

  lemma {:induction false} ColonAfter(name: string, rest: string)
    requires ':' !in name
    ensures Colon(name + (":" + rest)) == |name|
  {
    if name != "" {
      assert (name + (":" + rest))[1..] == name[1..] + (":" + rest);
      assert name[0] in name;
      ColonAfter(name[1..], rest);
    }
  }

  lemma {:induction false} ReadData(lines: seq<string>, data: seq<string>)
    ensures ReadAll(lines + DataLines(data)) == ReadAll(lines).(data := ReadAll(lines).data + data)
    decreases |data|
  {
    hide Read, ReadAll, Field, Value;
    if data == [] {
      assert lines + DataLines(data) == lines && ReadAll(lines).data + data == ReadAll(lines).data;
    } else {
      var n := |data| - 1;
      ReadData(lines, data[..n]);
      assert lines + DataLines(data) == (lines + DataLines(data[..n])) + ["data: " + data[n]];
      ReadMore(lines + DataLines(data[..n]), "data: " + data[n]);
      ReadDataLine(ReadAll(lines + DataLines(data[..n])), data[n]);
      assert data == data[..n] + [data[n]];
      assert ReadAll(lines).data + data[..n] + [data[n]] == ReadAll(lines).data + data;
    }
  }

  lemma {:induction false} ReadDataLine(r: Reader, d: string)
    ensures Read(r, "data: " + d) == r.(data := r.data + [d])
  {
    hide Field, Value;
    FieldOf("data", d);
    assert "data" + ": " + d == "data: " + d;
  }

  lemma {:induction false} ReadHead(r: Reader, e: Event)
    requires Sendable(e)
    ensures Read(Read(r, "event: " + e.kind), "id: " + e.id) == r.(kind := e.kind, id := e.id)
  {
    hide Field, Value;
    FieldOf("event", e.kind);
    FieldOf("id", e.id);
    assert "event" + ": " + e.kind == "event: " + e.kind && "id" + ": " + e.id == "id: " + e.id;
    assert |"event"| == 5 && |"id"| == 2 && |"data"| == 4 && "event"[0] == 'e' && "data"[0] == 'd';
  }

  lemma {:induction false} ReadStanza(lines: seq<string>, e: Event)
    requires Sendable(e) && ReadAll(lines).data == []
    ensures var r := ReadAll(lines + Stanza(e)); r.events == ReadAll(lines).events + [e] && r.data == []
  {
    hide ReadAll, Field, Value;
    var head := lines + ["event: " + e.kind] + ["id: " + e.id];
    ReadMore(lines, "event: " + e.kind);
    ReadMore(lines + ["event: " + e.kind], "id: " + e.id);
    ReadHead(ReadAll(lines), e);
    ReadData(head, e.data);
    ReadMore(head + DataLines(e.data), "");
    assert lines + Stanza(e) == head + DataLines(e.data) + [""];
    assert ReadAll(lines).data + e.data == e.data;
  }

  lemma {:induction false} StanzasRead(events: seq<Event>)
    requires forall e | e in events :: Sendable(e)
    ensures ReadAll(Stanzas(events)).events == events && ReadAll(Stanzas(events)).data == []
  {
    hide Sendable, Stanza, Read;
    if events != [] {
      var n := |events| - 1;
      StanzasRead(events[..n]);
      ReadStanza(Stanzas(events[..n]), events[n]);
      assert events == events[..n] + [events[n]];
    }
  }

  lemma {:induction false} StanzaLines(e: Event)
    requires Sendable(e)
    ensures forall l | l in Stanza(e) :: OneLine(l)
    ensures Stanza(e)[0] != "" && Stanza(e)[0][0] != BOM
  {
    forall l | l in DataLines(e.data) ensures OneLine(l) {
      var i :| 0 <= i < |e.data| && l == "data: " + e.data[i];
      assert e.data[i] in e.data;
    }
    assert OneLine("event: ") && OneLine("id: ") && OneLine("data: ");
  }

  lemma {:induction false} StanzasLines(events: seq<Event>)
    requires forall e | e in events :: Sendable(e)
    ensures forall l | l in Stanzas(events) :: OneLine(l)
    ensures Stanzas(events) != [] ==> Stanzas(events)[0] != "" && Stanzas(events)[0][0] != BOM
    ensures events != [] ==> Stanzas(events) != []
  {
    hide Sendable, OneLine;
    if events != [] {
      var n := |events| - 1;
      StanzasLines(events[..n]);
      StanzaLines(events[n]);
      if n == 0 {
        assert Stanzas(events[..0]) == [] && Stanzas(events) == Stanza(events[0]);
      }
    }
  }

  /** Whatever events a server writes, field by field and each closed by a blank line, are the
      events the client reads. */
  lemma {:induction false} EventsReadBack(events: seq<Event>)
    requires forall e | e in events :: Sendable(e)
    ensures Parsed(Join(Stanzas(events) + [""])).events == events
  {
    hide Sendable, Stanzas, Split, Join, ReadAll, OneLine;
    var lines := Stanzas(events);
    StanzasLines(events);
    StanzasRead(events);
    assert OneLine("") by { EmptyLine(); }
    forall l | l in lines + [""] ensures OneLine(l) {
    }
    SplitJoin(lines + [""]);
    assert (lines + [""])[..|lines|] == lines;
    if lines != [] {
      FirstOf(lines + [""]);
    } else {
      JoinOne("");
      assert lines + [""] == [""];
    }
  }

  lemma {:induction false} EmptyLine()
    ensures OneLine("")
  {
  }
}

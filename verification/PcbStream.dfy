/** What the pcblist parser accepts and what it visits, for every buffer; and the
    round trip through an encoder of sockets. */
module PcbStream {
  import opened Prelude
  import opened PcbList

  // ----- Every buffer -----

  /** Whole sockets are read from `off` for as long as there are any; what stops the
      parse then is a trailer, an error, or the visit itself. */
  lemma {:induction false} Explain(buf: Bytes, off: nat, p: Partial, visited: seq<Row>, go: seq<Row> -> bool)
    returns (gs: seq<Group>)
    requires Sized(p) && p.seen == {}
    ensures (forall g | g in gs :: GroupOk(g)) && GroupsAt(buf, off, gs)
    ensures match VisitAll(gs, visited, go)
            case Ended(o) => Walk(buf, off, p, visited, go) == o
            case GoesOn(v) =>
              Walk(buf, off, p, visited, go) == Outcome(v, !GoodTrailer(buf, off + GroupsLength(gs), {}))
    decreases |buf| + 8 - off
  {
    hide Walk, Settle, SocketOf, RecordOk, AbsorbAll, RecordsAt, GoodTrailer, Pad8, NewKinds;
    assert p.seen < ALL_KINDS by { assert 1 in ALL_KINDS; }
    var g := Gather(buf, off, p, visited, go);
    gs := [];
    if |g| < 6 {
      Unfinished(buf, off, p, visited, go);
    } else {
      assert GroupOk(g);
      WalkRecords(buf, off, g, p, visited, go);
      SettleGroup(buf, off + PaddedLength(g), p, g, visited, go);
      Advances(buf, off, g);
      var next := AbsorbAll(p, g).(seen := {});
      match SocketOf(g) {
        case BadLayout =>
          gs := [g];
        case NoFamily =>
          var rest := Explain(buf, off + PaddedLength(g), next, visited, go);
          gs := [g] + rest;
          assert gs[1..] == rest;
        case Decoded(row) =>
          if go(visited + [row]) {
            var rest := Explain(buf, off + PaddedLength(g), next, visited + [row], go);
            gs := [g] + rest;
            assert gs[1..] == rest;
          } else {
            gs := [g];
          }
      }
      assert GroupsAt(buf, off, gs) by { assert gs[0] == g; }
    }
  }

  lemma {:induction false} Unfinished(buf: Bytes, off: nat, p: Partial, visited: seq<Row>, go: seq<Row> -> bool)
    requires Sized(p) && p.seen == {}
    ensures GoodTrailer(buf, off, {}) ==> Walk(buf, off, p, visited, go) == Outcome(visited, false)
  {
    hide Walk, GoodTrailer;
    if GoodTrailer(buf, off, {}) {
      WalkEnds(buf, off, p, visited, go);
    }
  }

  lemma {:induction false} Advances(buf: Bytes, off: nat, g: Group)
    requires RecordsAt(buf, off, g) && g != [] && RecordOk(g[0])
    ensures PaddedLength(g) > 0 && off <= |buf|
  {
  }

  /** On any bytes whatever: the rows visited are those of whole groups lying one after
      another in the buffer, and the parse that nothing cut short fails unless those
      groups are followed by a trailer. */
  lemma {:induction false} ParseExplained(buf: Bytes, go: seq<Row> -> bool) returns (gs: seq<Group>)
    requires GoodHeader(buf)
    ensures (forall g | g in gs :: GroupOk(g)) && GroupsAt(buf, XINPGEN_LEN, gs)
    ensures match VisitAll(gs, [], go)
            case Ended(o) => Parse(buf, go) == o
            case GoesOn(v) => Parse(buf, go) == Outcome(v, !Stream(buf, gs))
  {
    hide Walk, VisitAll, GroupsAt, GroupOk;
    gs := Explain(buf, XINPGEN_LEN, FRESH, [], go);
  }

  // ----- What a visit does -----

  predicate Consistent(gs: seq<Group>)
    requires forall g | g in gs :: GroupOk(g)
  {
    forall g | g in gs :: !SocketOf(g).BadLayout?
  }

  /** The rows of the sockets that have an address family. */
  function RowsOf(gs: seq<Group>): seq<Row>
    requires forall g | g in gs :: GroupOk(g)
  {
    if gs == [] then []
    else (match SocketOf(gs[0]) case Decoded(row) => [row] case _ => []) + RowsOf(gs[1..])
  }

  /** Over consistent sockets the visit shows the rows in order and ends at the first
      point where the visitor has seen enough. */
  lemma {:induction false} VisitShowsRows(gs: seq<Group>, visited: seq<Row>, go: seq<Row> -> bool)
    requires (forall g | g in gs :: GroupOk(g)) && Consistent(gs)
    ensures match VisitAll(gs, visited, go)
            case GoesOn(v) => v == visited + RowsOf(gs) && forall k | |visited| < k <= |v| :: go(v[..k])
            case Ended(o) =>
              && !o.err && visited < o.visited <= visited + RowsOf(gs) && !go(o.visited)
              && forall k | |visited| < k < |o.visited| :: go(o.visited[..k])
    decreases |gs|
  {
    hide SocketOf, GroupOk;
    if gs != [] {
      match SocketOf(gs[0]) {
        case BadLayout => assert false;
        case NoFamily =>
          VisitShowsRows(gs[1..], visited, go);
          assert RowsOf(gs) == RowsOf(gs[1..]);
        case Decoded(row) =>
          assert RowsOf(gs) == [row] + RowsOf(gs[1..]);
          assert visited + [row] + RowsOf(gs[1..]) == visited + RowsOf(gs);
          assert go(visited + [row]) ==> VisitAll(gs, visited, go) == VisitAll(gs[1..], visited + [row], go);
          VisitShowsRows(gs[1..], visited + [row], go);
          SeenFirst(visited, row, VisitAll(gs, visited, go));
      }
    } else {
      assert visited + RowsOf(gs) == visited;
    }
  }

  lemma {:induction false} SeenFirst(visited: seq<Row>, row: Row, v: Visit)
    ensures var w := match v case GoesOn(w) => w case Ended(o) => o.visited;
            visited + [row] <= w ==> w[..|visited| + 1] == visited + [row]
  {
  }

  function Always(rows: seq<Row>): bool {
    true
  }

  lemma {:induction false} VisitAlways(gs: seq<Group>, visited: seq<Row>)
    requires forall g | g in gs :: GroupOk(g)
    ensures !Consistent(gs) ==> VisitAll(gs, visited, Always).Ended? && VisitAll(gs, visited, Always).out.err
    ensures Consistent(gs) ==> VisitAll(gs, visited, Always) == GoesOn(visited + RowsOf(gs))
    decreases |gs|
  {
    hide SocketOf, GroupOk;
    if gs == [] {
      assert visited + RowsOf(gs) == visited;
    } else {
      assert Consistent(gs) <==> !SocketOf(gs[0]).BadLayout? && Consistent(gs[1..]);
      match SocketOf(gs[0]) {
        case BadLayout =>
        case NoFamily =>
          VisitAlways(gs[1..], visited);
          assert RowsOf(gs) == RowsOf(gs[1..]);
        case Decoded(row) =>
          VisitAlways(gs[1..], visited + [row]);
          assert visited + [row] + RowsOf(gs[1..]) == visited + RowsOf(gs);
      }
    }
  }

  ghost predicate Accepts(buf: Bytes) {
    exists gs: seq<Group> :: Stream(buf, gs) && (forall g | g in gs :: GroupOk(g)) && Consistent(gs)
  }

  /** The parser accepts exactly the well-formed streams of consistent sockets. */
  lemma {:induction false} AcceptsExactlyStreams(buf: Bytes)
    ensures !Parse(buf, Always).err <==> Accepts(buf)
  {
    hide VisitAll, Stream, Consistent, Walk, GroupOk, GoodHeader;
    if Accepts(buf) {
      var gs: seq<Group> :| Stream(buf, gs) && (forall g | g in gs :: GroupOk(g)) && Consistent(gs);
      StreamHeader(buf, gs);
      VisitAlways(gs, []);
      ParseVisitsStream(buf, gs, Always);
    }
    if GoodHeader(buf) {
      var gs := ParseExplained(buf, Always);
      VisitAlways(gs, []);
    }
  }

  lemma {:induction false} StreamHeader(buf: Bytes, gs: seq<Group>)
    requires Stream(buf, gs)
    ensures GoodHeader(buf)
  {
  }

  // ----- Encoding -----

  datatype Sock = Sock(v4: bool, local: Bytes, lport: nat, remote: Bytes, rport: nat, pcb: nat, uid: nat)

  /** A socket the kernel can list. One whose pcb is zero has lost its owner. */
  predicate SockOk(s: Sock) {
    && |s.local| == |s.remote| == (if s.v4 then 4 else 16)
    && s.lport < 65536 && s.rport < 65536 && s.pcb < 18446744073709551616 && s.uid < 4294967296
  }

  function RowOf(s: Sock): Row {
    var addr := (b: Bytes) => if s.v4 then V4(b) else V6(b);
    Row(NewSockKey(AddrPort(addr(s.local), s.lport), AddrPort(addr(s.remote), s.rport)),
        if s.pcb == 0 then SockInfo(0, true) else SockInfo(s.uid, false))
  }

  function Zeros(n: nat): (b: Bytes)
    ensures |b| == n
  {
    seq(n, _ => 0)
  }

  /** What the fields that say nothing hold, byte by byte: the gaps and tails of both
      records, the unused half of an IPv4 address, and, where the owner is gone, whatever the
      kernel left of the owner's address, protocol and family. `dual` marks an IPv4 row that
      carries the IPv6 bit as well. */
  datatype Filler = Filler(
    inpp: nat,
    proto: nat,
    family: nat,
    inet6: bool,
    dual: bool,
    flags: nat,
    a: Bytes,
    b: Bytes,
    c: Bytes,
    d: Bytes,
    remotePad: Bytes,
    localPad: Bytes,
    inpTail: Bytes,
    soTail: Bytes)

  predicate FillerOk(f: Filler) {
    && f.inpp < 18446744073709551616 && f.proto < 4294967296 && f.family < 4294967296 && f.flags < 64
    && |f.a| == 24 && |f.b| == 3 && |f.c| == 20 && |f.d| == 20 && |f.remotePad| == |f.localPad| == 12
    && 80 + |f.inpTail| < 4294967296 && 68 + |f.soTail| < 4294967296
  }

  function Addr16(s: Sock, a: Bytes, pad: Bytes): (b: Bytes)
    requires |a| == (if s.v4 then 4 else 16) && |pad| == 12
    ensures |b| == 16
  {
    if s.v4 then pad + a else a
  }

  function VFlag(s: Sock, f: Filler): Byte
    requires FillerOk(f)
  {
    4 * f.flags + if !s.v4 then 2 else if f.dual then 3 else 1
  }

  /** A live socket's records agree on its pcb; an orphan's inpcb may still name one. */
  function Inpp(s: Sock, f: Filler): nat {
    if s.pcb != 0 then s.pcb else f.inpp
  }

  function Proto(s: Sock, f: Filler): nat {
    if s.pcb != 0 then 6 else f.proto
  }

  function Family(s: Sock, f: Filler): nat {
    if s.pcb == 0 then f.family else if f.inet6 then 30 else 2
  }

  function InpRecord(s: Sock, f: Filler): (r: Bytes)
    requires SockOk(s) && FillerOk(f)
    ensures |r| == 80 + |f.inpTail|
  {
    Enc32(80 + |f.inpTail|) + Enc32(XSO_INPCB) + Enc64(Inpp(s, f)) + EncBe16(s.rport) + EncBe16(s.lport) + f.a
    + [VFlag(s, f)] + f.b + Addr16(s, s.remote, f.remotePad) + Addr16(s, s.local, f.localPad) + f.inpTail
  }

  function SoRecord(s: Sock, f: Filler): (r: Bytes)
    requires SockOk(s) && FillerOk(f)
    ensures |r| == 68 + |f.soTail|
  {
    Enc32(68 + |f.soTail|) + Enc32(XSO_SOCKET) + f.c + Enc64(s.pcb) + Enc32(Proto(s, f)) + Enc32(Family(s, f))
    + f.d + Enc32(s.uid) + f.soTail
  }

  lemma {:induction false} Reads16(b: Bytes, o: nat, n: nat)
    requires n < 65536 && o + 2 <= |b| && b[o..o + 2] == Enc16(n)
    ensures Le16(b, o) == n
  {
    assert b[o] == b[o..o + 2][0] && b[o + 1] == b[o..o + 2][1];
  }

  lemma {:induction false} ReadsBe16(b: Bytes, o: nat, n: nat)
    requires n < 65536 && o + 2 <= |b| && b[o..o + 2] == EncBe16(n)
    ensures Be16(b, o) == n
  {
    assert b[o] == b[o..o + 2][0] && b[o + 1] == b[o..o + 2][1];
  }

  lemma {:induction false} Reads32(b: Bytes, o: nat, n: nat)
    requires n < 4294967296 && o + 4 <= |b| && b[o..o + 4] == Enc32(n)
    ensures Le32(b, o) == n
  {
    hide Le16, Enc16;
    assert b[o..o + 2] == b[o..o + 4][..2] == Enc16(n % 65536);
    assert b[o + 2..o + 4] == b[o..o + 4][2..] == Enc16(n / 65536);
    Reads16(b, o, n % 65536);
    Reads16(b, o + 2, n / 65536);
  }

  lemma {:induction false} Reads64(b: Bytes, o: nat, n: nat)
    requires n < 18446744073709551616 && o + 8 <= |b| && b[o..o + 8] == Enc64(n)
    ensures Le64(b, o) == n
  {
    hide Le32, Enc32;
    assert b[o..o + 4] == b[o..o + 8][..4] == Enc32(n % 4294967296);
    assert b[o + 4..o + 8] == b[o..o + 8][4..] == Enc32(n / 4294967296);
    Reads32(b, o, n % 4294967296);
    Reads32(b, o + 4, n / 4294967296);
  }

  lemma {:induction false} InpFields(s: Sock, f: Filler)
    requires SockOk(s) && FillerOk(f)
    ensures var r := InpRecord(s, f);
            && r[0..4] == Enc32(|r|) && r[4..8] == Enc32(XSO_INPCB) && r[8..16] == Enc64(Inpp(s, f))
            && r[16..18] == EncBe16(s.rport) && r[18..20] == EncBe16(s.lport) && r[44] == VFlag(s, f)
            && r[48..64] == Addr16(s, s.remote, f.remotePad) && r[64..80] == Addr16(s, s.local, f.localPad)
  {
    hide Enc32, Enc64, EncBe16, Addr16, VFlag, Inpp;
  }

  lemma {:induction false} SoFields(s: Sock, f: Filler)
    requires SockOk(s) && FillerOk(f)
    ensures var r := SoRecord(s, f);
            && r[0..4] == Enc32(|r|) && r[4..8] == Enc32(XSO_SOCKET) && r[28..36] == Enc64(s.pcb)
            && r[36..40] == Enc32(Proto(s, f)) && r[40..44] == Enc32(Family(s, f)) && r[64..68] == Enc32(s.uid)
  {
    hide Enc32, Enc64, Proto, Family;
  }

  lemma {:induction false} AddrsDecode(s: Sock, f: Filler)
    requires SockOk(s) && FillerOk(f)
    ensures DecodeAddrs(InpRecord(s, f)) == Some(RowOf(s).key)
  {
    hide Be16, EncBe16, InpRecord, Enc32, Enc64, Unmap;
    var r := InpRecord(s, f);
    InpFields(s, f);
    ReadsBe16(r, 16, s.rport);
    ReadsBe16(r, 18, s.lport);
    if s.v4 {
      assert r[60..64] == r[48..64][12..] == s.remote;
      assert r[76..80] == r[64..80][12..] == s.local;
    }
  }

  /** Decoding the two records of a socket gives its row back, an orphan's whatever its inpcb
      and the zeroed half of its socket record say. */
  lemma {:induction false} RecordsDecode(s: Sock, f: Filler)
    requires SockOk(s) && FillerOk(f)
    ensures DecodePCB(InpRecord(s, f), SoRecord(s, f)) == Decoded(RowOf(s))
  {
    hide Le32, Le64, Enc32, Enc64, EncBe16, InpRecord, SoRecord, DecodeAddrs, Addr16, VFlag;
    var inp, so := InpRecord(s, f), SoRecord(s, f);
    InpFields(s, f);
    SoFields(s, f);
    AddrsDecode(s, f);
    Reads64(inp, 8, Inpp(s, f));
    Reads64(so, 28, s.pcb);
    Reads32(so, 36, Proto(s, f));
    Reads32(so, 40, Family(s, f));
    Reads32(so, 64, s.uid);
  }

  /** What that row says, field by field. */
  lemma {:induction false} RowFields(s: Sock, f: Filler)
    requires SockOk(s) && FillerOk(f)
    ensures DecodePCB(InpRecord(s, f), SoRecord(s, f)).Decoded?
    ensures var Row(key, info) := DecodePCB(InpRecord(s, f), SoRecord(s, f)).row;
            && key.local.port == s.lport && key.remote.port == s.rport
            && (s.v4 ==> key.local.addr == V4(s.local) && key.remote.addr == V4(s.remote))
            && (!s.v4 && !IsMapped(s.local) ==> key.local.addr == V6(s.local))
            && (!s.v4 && !IsMapped(s.remote) ==> key.remote.addr == V6(s.remote))
            && (!s.v4 && IsMapped(s.local) ==> key.local.addr == V4(s.local[12..]))
            && (!s.v4 && IsMapped(s.remote) ==> key.remote.addr == V4(s.remote[12..]))
            && (s.pcb != 0 ==> info == SockInfo(s.uid, false)) && (s.pcb == 0 ==> info.orphan)
  {
    hide Unmap, IsMapped, DecodePCB, InpRecord, SoRecord;
    RecordsDecode(s, f);
    AddrIs(s, s.local);
    AddrIs(s, s.remote);
  }

  lemma {:induction false} AddrIs(s: Sock, b: Bytes)
    requires |b| == (if s.v4 then 4 else 16)
    ensures s.v4 ==> Unmap(V4(b)) == V4(b)
    ensures !s.v4 && !IsMapped(b) ==> Unmap(V6(b)) == V6(b)
    ensures !s.v4 && IsMapped(b) ==> Unmap(V6(b)) == V4(b[12..])
  {
    hide IsMapped;
    if s.v4 {
      UnmapIs(V4(b));
    } else {
      UnmapIs(V6(b));
      if IsMapped(b) {
        assert b[12..] == Unmap(V6(b)).b;
      }
    }
  }

  lemma {:induction false} RecordsAreRecords(s: Sock, f: Filler)
    requires SockOk(s) && FillerOk(f)
    ensures RecordOk(InpRecord(s, f)) && KindOf(InpRecord(s, f)) == XSO_INPCB
    ensures RecordOk(SoRecord(s, f)) && KindOf(SoRecord(s, f)) == XSO_SOCKET
  {
    hide Le32, Enc32, Enc64, EncBe16, InpRecord, SoRecord, Addr16, VFlag;
    var inp, so := InpRecord(s, f), SoRecord(s, f);
    InpFields(s, f);
    SoFields(s, f);
    Reads32(inp, 0, |inp|);
    Reads32(inp, 4, XSO_INPCB);
    Reads32(so, 0, |so|);
    Reads32(so, 4, XSO_SOCKET);
  }

  lemma {:induction false} FindsIt(seen: set<nat>, g: Group, r: Bytes)
    requires (forall x | x in g :: RecordOk(x)) && NewKinds(seen, g) && r in g
    ensures Find(g, KindOf(r)) == r
    decreases |g|
  {
    hide RecordOk, KindOf;
    if r != g[0] {
      SeenNotIn(seen + {KindOf(g[0])}, g[1..]);
      KindIn(g[1..], r);
      FindsIt(seen + {KindOf(g[0])}, g[1..], r);
    }
  }

  lemma {:induction false} KindIn(g: Group, r: Bytes)
    requires (forall x | x in g :: RecordOk(x)) && r in g
    ensures KindOf(r) in Kinds(g)
    decreases |g|
  {
    hide RecordOk, KindOf;
    if r != g[0] {
      KindIn(g[1..], r);
    }
  }

  /** Six records of different kinds, in any order, that include the two of the socket. */
  predicate Describes(g: Group, s: Sock, f: Filler)
    requires SockOk(s) && FillerOk(f)
  {
    GroupOk(g) && InpRecord(s, f) in g && SoRecord(s, f) in g
  }

  lemma {:induction false} GroupDecodes(g: Group, s: Sock, f: Filler)
    requires SockOk(s) && FillerOk(f) && Describes(g, s, f)
    ensures SocketOf(g) == Decoded(RowOf(s))
  {
    hide RecordOk, KindOf, InpRecord, SoRecord, DecodePCB, RowOf, NewKinds;
    RecordsAreRecords(s, f);
    FindsIt({}, g, InpRecord(s, f));
    FindsIt({}, g, SoRecord(s, f));
    SixKinds(g);
    RecordsDecode(s, f);
  }

  function Padded(r: Bytes): (b: Bytes)
    ensures |b| == Pad8(|r|) && r <= b
  {
    r + Zeros(Pad8(|r|) - |r|)
  }

  function EncodeGroup(g: Group): (b: Bytes)
    ensures |b| == PaddedLength(g)
  {
    if g == [] then [] else Padded(g[0]) + EncodeGroup(g[1..])
  }

  function EncodeGroups(gs: seq<Group>): (b: Bytes)
    ensures |b| == GroupsLength(gs)
  {
    if gs == [] then [] else EncodeGroup(gs[0]) + EncodeGroups(gs[1..])
  }

  /** The header and the trailer are an xinpgen each: their own length, then counters. */
  function Encode(gs: seq<Group>, count: Bytes): Bytes
    requires |count| == 20
  {
    Enc32(XINPGEN_LEN) + count + EncodeGroups(gs) + Enc32(XINPGEN_LEN) + count
  }

  lemma {:induction false} GroupIsThere(pre: Bytes, g: Group, post: Bytes)
    ensures RecordsAt(pre + EncodeGroup(g) + post, |pre|, g)
    decreases |g|
  {
    hide Padded, Pad8;
    if g != [] {
      var buf := pre + EncodeGroup(g) + post;
      var pad := Padded(g[0]);
      GroupIsThere(pre + pad, g[1..], post);
      Regroup(pre, pad, EncodeGroup(g[1..]), post);
      assert buf[|pre|..|pre| + |g[0]|] == g[0];
    }
  }

  lemma {:induction false} Regroup(a: Bytes, b: Bytes, c: Bytes, d: Bytes)
    ensures a + b + c + d == a + (b + c) + d == a + b + (c + d)
  {
  }

  lemma {:induction false} GroupsAreThere(pre: Bytes, gs: seq<Group>, post: Bytes)
    ensures GroupsAt(pre + EncodeGroups(gs) + post, |pre|, gs)
    decreases |gs|
  {
    hide EncodeGroup, RecordsAt, PaddedLength;
    if gs != [] {
      var h, t := EncodeGroup(gs[0]), EncodeGroups(gs[1..]);
      GroupIsThere(pre, gs[0], t + post);
      GroupsAreThere(pre + h, gs[1..], post);
      Regroup(pre, h, t, post);
    }
  }

  lemma {:induction false} EncodeIsStream(gs: seq<Group>, count: Bytes)
    requires |count| == 20 && forall g | g in gs :: GroupOk(g)
    ensures Stream(Encode(gs, count), gs)
  {
    hide Enc32, Le32, EncodeGroups, GroupsAt, GroupOk, GroupsLength;
    var buf, e := Encode(gs, count), EncodeGroups(gs);
    var pre, post := Enc32(XINPGEN_LEN) + count, Enc32(XINPGEN_LEN) + count;
    assert buf == pre + e + post;
    GroupsAreThere(pre, gs, post);
    assert buf[0..4] == Enc32(XINPGEN_LEN);
    Reads32(buf, 0, XINPGEN_LEN);
    var o := XINPGEN_LEN + GroupsLength(gs);
    assert buf[o..o + 4] == Enc32(XINPGEN_LEN);
    Reads32(buf, o, XINPGEN_LEN);
  }

  function RowsOfSocks(socks: seq<Sock>): seq<Row> {
    seq(|socks|, i requires 0 <= i < |socks| => RowOf(socks[i]))
  }

  lemma {:induction false} RowsAreTheSocks(gs: seq<Group>, socks: seq<Sock>, fs: seq<Filler>)
    requires |gs| == |socks| == |fs|
    requires forall i | 0 <= i < |gs| :: SockOk(socks[i]) && FillerOk(fs[i]) && Describes(gs[i], socks[i], fs[i])
    ensures (forall g | g in gs :: GroupOk(g)) && Consistent(gs) && RowsOf(gs) == RowsOfSocks(socks)
    decreases |gs|
  {
    hide GroupOk, SocketOf, RowOf, SockOk, FillerOk, InpRecord, SoRecord;
    if gs != [] {
      assert Describes(gs[0], socks[0], fs[0]);
      GroupDecodes(gs[0], socks[0], fs[0]);
      RowsAreTheSocks(gs[1..], socks[1..], fs[1..]);
      assert RowsOfSocks(socks) == [RowOf(socks[0])] + RowsOfSocks(socks[1..]);
    }
  }

  /** Encode any sockets, their records in any order and with any filler: the parser
      visits exactly those sockets, in order, up to where the visitor stops it. */
  lemma {:induction false} ParseInvertsEncode(
      gs: seq<Group>, socks: seq<Sock>, fs: seq<Filler>, count: Bytes, go: seq<Row> -> bool)
    requires |gs| == |socks| == |fs| && |count| == 20
    requires forall i | 0 <= i < |gs| :: SockOk(socks[i]) && FillerOk(fs[i]) && Describes(gs[i], socks[i], fs[i])
    ensures var out, rows := Parse(Encode(gs, count), go), RowsOfSocks(socks);
            && !out.err && out.visited <= rows
            && (forall k | 0 < k < |out.visited| :: go(rows[..k]))
            && (out.visited == rows || (|out.visited| > 0 && !go(out.visited)))
  {
    hide GroupOk, SockOk, FillerOk, Describes, Encode, RowsOf, Consistent, VisitAll, Stream;
    RowsAreTheSocks(gs, socks, fs);
    EncodeIsStream(gs, count);
    ParseVisitsStream(Encode(gs, count), gs, go);
    VisitShowsRows(gs, [], go);
    var out, rows := Parse(Encode(gs, count), go), RowsOfSocks(socks);
    assert [] + rows == rows;
    forall k | 0 < k < |out.visited| ensures go(rows[..k]) {
      assert rows[..k] == out.visited[..k];
    }
  }
}

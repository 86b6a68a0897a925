/** Darwin's pcblist_n buffer: a header, then per TCP socket six length-prefixed
    records in any order, each padded to eight bytes, then a trailer. The parser
    refuses whatever does not match that shape. */
module PcbList {
  import opened Prelude

  // ----- Fixed-width integers -----

  function Le16(b: Bytes, o: nat): nat
    requires o + 2 <= |b|
  {
    (b[o] as int) + 256 * (b[o + 1] as int)
  }

  function Le32(b: Bytes, o: nat): nat
    requires o + 4 <= |b|
  {
    Le16(b, o) + 65536 * Le16(b, o + 2)
  }

  function Le64(b: Bytes, o: nat): nat
    requires o + 8 <= |b|
  {
    Le32(b, o) + 4294967296 * Le32(b, o + 4)
  }

  function Be16(b: Bytes, o: nat): nat
    requires o + 2 <= |b|
  {
    256 * (b[o] as int) + (b[o + 1] as int)
  }

  function Enc16(n: nat): (b: Bytes)
    requires n < 65536
    ensures |b| == 2
  {
    [n % 256, n / 256]
  }

  function Enc32(n: nat): (b: Bytes)
    requires n < 4294967296
    ensures |b| == 4
  {
    Enc16(n % 65536) + Enc16(n / 65536)
  }

  function Enc64(n: nat): (b: Bytes)
    requires n < 18446744073709551616
    ensures |b| == 8
  {
    Enc32(n % 4294967296) + Enc32(n / 4294967296)
  }

  function EncBe16(n: nat): (b: Bytes)
    requires n < 65536
    ensures |b| == 2
  {
    [n / 256, n % 256]
  }

  /** Ports are stored high byte first, everything else low byte first. */
  lemma {:induction false} ByteOrders(b: Bytes)
    requires |b| == 8
    ensures Be16(b, 0) == 256 * (b[0] as int) + (b[1] as int)
    ensures Le32(b, 0) == (b[0] as int) + 256 * (b[1] as int) + 65536 * (b[2] as int) + 16777216 * (b[3] as int)
    ensures Le64(b, 0) == Le32(b, 0) + 4294967296 * Le32(b[4..], 0)
    ensures EncBe16(0x1234) == [0x12, 0x34] && Enc32(0x12345678) == [0x78, 0x56, 0x34, 0x12]
  {
  }

  // ----- Rows -----

  datatype Addr = V4(b: Bytes) | V6(b: Bytes)

  datatype AddrPort = AddrPort(addr: Addr, port: nat)

  datatype SockKey = SockKey(local: AddrPort, remote: AddrPort)

  datatype SockInfo = SockInfo(uid: nat, orphan: bool)

  datatype Row = Row(key: SockKey, info: SockInfo)

  /** ::ffff:a.b.c.d reads as a.b.c.d. */
  function Unmap(a: Addr): Addr {
    if a.V6? && |a.b| == 16 && (forall i | 0 <= i < 10 :: a.b[i] == 0) && a.b[10] == 255 && a.b[11] == 255
    then V4(a.b[12..16]) else a
  }

  function NewSockKey(local: AddrPort, remote: AddrPort): SockKey {
    SockKey(local.(addr := Unmap(local.addr)), remote.(addr := Unmap(remote.addr)))
  }

  /** An IPv6 address that stands for an IPv4 one: ten zero bytes, two of ones, four more. */
  predicate IsMapped(b: Bytes) {
    |b| == 16 && (forall i | 0 <= i < 10 :: b[i] == 0) && b[10] == 255 && b[11] == 255
  }

  lemma {:induction false} UnmapIs(a: Addr)
    ensures forall b: Bytes | |b| == 4 && a == V6([0, 0, 0, 0, 0, 0, 0, 0, 0, 0, 255, 255] + b) :: Unmap(a) == V4(b)
    ensures !(a.V6? && IsMapped(a.b)) ==> Unmap(a) == a
    ensures a.V6? && IsMapped(a.b) ==>
              Unmap(a).V4? && a.b == [0, 0, 0, 0, 0, 0, 0, 0, 0, 0, 255, 255] + Unmap(a).b && |Unmap(a).b| == 4
  {
    forall b: Bytes | |b| == 4 && a == V6([0, 0, 0, 0, 0, 0, 0, 0, 0, 0, 255, 255] + b) ensures Unmap(a) == V4(b) {
      assert a.b[12..16] == b;
    }
    if a.V6? && IsMapped(a.b) {
      assert a.b == a.b[..12] + a.b[12..16];
      assert a.b[..12] == [0, 0, 0, 0, 0, 0, 0, 0, 0, 0, 255, 255];
    }
  }

  /** A key is the two ports and the two addresses, and nothing less: two connections share
      one only if they are the same connection, mapped addresses aside. */
  lemma {:induction false} KeysEqualIff(local: AddrPort, remote: AddrPort, local': AddrPort, remote': AddrPort)
    ensures NewSockKey(local, remote) == NewSockKey(local', remote') <==>
            && local.port == local'.port && remote.port == remote'.port
            && Unmap(local.addr) == Unmap(local'.addr) && Unmap(remote.addr) == Unmap(remote'.addr)
    ensures NewSockKey(local, remote).local.port == local.port && NewSockKey(local, remote).remote.port == remote.port
  {
    hide Unmap;
  }

  // ----- One socket -----

  const XINPGEN_LEN: nat := 24
  const XSO_SOCKET: nat := 1
  const XSO_INPCB: nat := 16
  const ALL_KINDS: set<nat> := {1, 2, 4, 8, 16, 32}
  const INP_MIN_LEN: nat := 80
  const SO_MIN_LEN: nat := 68

  /** The source tests the kind with masks; this is what those tests accept. */
  lemma KindMask(k: bv32)
    ensures (k & 0x3f == k && k & (k - 1) == 0 && k != 0) <==> k in {1, 2, 4, 8, 16, 32}
  {
    assert k & 0x3f == k ==> k <= 63;
  }

  datatype Decoded = BadLayout | NoFamily | Decoded(row: Row)

  function DecodeAddrs(inp: Bytes): Option<SockKey>
    requires |inp| >= INP_MIN_LEN
  {
    var vflag := inp[44];
    var lport, fport := Be16(inp, 18), Be16(inp, 16);
    if vflag % 2 != 0 then
      Some(NewSockKey(AddrPort(V4(inp[76..80]), lport), AddrPort(V4(inp[60..64]), fport)))
    else if (vflag / 2) % 2 != 0 then
      Some(NewSockKey(AddrPort(V6(inp[64..80]), lport), AddrPort(V6(inp[48..64]), fport)))
    else None
  }

  function DecodePCB(inp: Bytes, so: Bytes): Decoded
    requires |inp| >= INP_MIN_LEN && |so| >= SO_MIN_LEN
  {
    var pcb := Le64(so, 28);
    if pcb != 0 && (pcb != Le64(inp, 8) || Le32(so, 36) != 6 || Le32(so, 40) !in {2, 30}) then BadLayout
    else match DecodeAddrs(inp)
         case None => NoFamily
         case Some(key) => Decoded(Row(key, if pcb == 0 then SockInfo(0, true) else SockInfo(Le32(so, 64), false)))
  }

  function Pad8(n: nat): (m: nat)
    ensures n <= m < n + 8 && m % 8 == 0
  {
    (n + 7) / 8 * 8
  }

  // ----- The parser -----

  datatype Outcome = Outcome(visited: seq<Row>, err: bool)

  /** What the loop remembers of the socket it is inside. */
  datatype Partial = Partial(seen: set<nat>, inp: Bytes, so: Bytes)

  const FRESH: Partial := Partial({}, [], [])

  predicate Sized(p: Partial) {
    && (XSO_INPCB in p.seen ==> |p.inp| >= INP_MIN_LEN)
    && (XSO_SOCKET in p.seen ==> |p.so| >= SO_MIN_LEN)
  }

  /** Room for a record header at `off`, a length that is not a trailer's and that fits,
      a known kind not seen yet, and the size that kind needs. */
  predicate GoodRecord(buf: Bytes, off: nat, seen: set<nat>) {
    && off + 8 <= |buf| && Le32(buf, off) > XINPGEN_LEN && off + Le32(buf, off) <= |buf|
    && Le32(buf, off + 4) in ALL_KINDS && Le32(buf, off + 4) !in seen
    && (Le32(buf, off + 4) == XSO_INPCB ==> Le32(buf, off) >= INP_MIN_LEN)
    && (Le32(buf, off + 4) == XSO_SOCKET ==> Le32(buf, off) >= SO_MIN_LEN)
  }

  predicate GoodTrailer(buf: Bytes, off: nat, seen: set<nat>) {
    off + 8 <= |buf| && Le32(buf, off) == XINPGEN_LEN && seen == {}
  }

  function Absorb(p: Partial, kind: nat, data: Bytes): Partial {
    Partial(p.seen + {kind}, if kind == XSO_INPCB then data else p.inp, if kind == XSO_SOCKET then data else p.so)
  }

  /** The parse from `off` on. The visitor may depend on everything visited so far:
      `go` says whether to continue after the last of the rows it is given. */
  function Walk(buf: Bytes, off: nat, p: Partial, visited: seq<Row>, go: seq<Row> -> bool): Outcome
    requires Sized(p)
    decreases |buf| + 8 - off
  {
    if GoodTrailer(buf, off, p.seen) then Outcome(visited, false)
    else if !GoodRecord(buf, off, p.seen) then Outcome(visited, true)
    else
      var n := Le32(buf, off);
      var q := Absorb(p, Le32(buf, off + 4), buf[off..off + n]);
      var next := off + Pad8(n);
      if q.seen != ALL_KINDS then Walk(buf, next, q, visited, go)
      else match DecodePCB(q.inp, q.so)
           case BadLayout => Outcome(visited, true)
           case NoFamily => Walk(buf, next, q.(seen := {}), visited, go)
           case Decoded(row) =>
             if go(visited + [row]) then Walk(buf, next, q.(seen := {}), visited + [row], go)
             else Outcome(visited + [row], false)
  }

  predicate GoodHeader(buf: Bytes) {
    |buf| >= XINPGEN_LEN && Le32(buf, 0) == XINPGEN_LEN
  }

  function Parse(buf: Bytes, go: seq<Row> -> bool): Outcome {
    if GoodHeader(buf) then Walk(buf, XINPGEN_LEN, FRESH, [], go) else Outcome([], true)
  }

  method ParsePCBList(buf: Bytes, go: seq<Row> -> bool) returns (visited: seq<Row>, err: bool)
    ensures Outcome(visited, err) == Parse(buf, go)
  {
    hide Walk, DecodePCB, Pad8, Le32, GoodRecord;
    visited := [];
    if |buf| < XINPGEN_LEN || Le32(buf, 0) != XINPGEN_LEN {
      return visited, true;
    }
    var inp: Bytes, so: Bytes := [], [];
    var seen: set<nat> := {};
    var off := XINPGEN_LEN;
    while true
      invariant Sized(Partial(seen, inp, so))
      invariant Walk(buf, off, Partial(seen, inp, so), visited, go) == Parse(buf, go)
      decreases |buf| + 8 - off
    {
      ghost var p := Partial(seen, inp, so);
      LoopStep(buf, off, p, visited, go);
      if off + 8 > |buf| {
        return visited, true;
      }
      var n := Le32(buf, off);
      if n <= XINPGEN_LEN {
        return visited, n != XINPGEN_LEN || seen != {};
      }
      if off + n > |buf| {
        return visited, true;
      }
      var kind := Le32(buf, off + 4);
      if kind !in ALL_KINDS || kind in seen {
        return visited, true;
      }
      if kind == XSO_INPCB {
        if n < INP_MIN_LEN {
          return visited, true;
        }
        inp := buf[off..off + n];
      } else if kind == XSO_SOCKET {
        if n < SO_MIN_LEN {
          return visited, true;
        }
        so := buf[off..off + n];
      }
      seen := seen + {kind};
      off := off + Pad8(n);
      if seen != ALL_KINDS {
        continue;
      }
      seen := {};
      match DecodePCB(inp, so) {
        case BadLayout =>
          return visited, true;
        case NoFamily =>
        case Decoded(row) =>
          visited := visited + [row];
          if !go(visited) {
            return visited, false;
          }
      }
    }
  }

  /** The parse at `off`, case by case as the loop tests them. */
  lemma {:induction false} LoopStep(buf: Bytes, off: nat, p: Partial, visited: seq<Row>, go: seq<Row> -> bool)
    requires Sized(p)
    ensures var w := Walk(buf, off, p, visited, go);
            if off + 8 > |buf| then w == Outcome(visited, true)
            else
              var n, kind := Le32(buf, off), Le32(buf, off + 4);
              if n <= XINPGEN_LEN then w == Outcome(visited, n != XINPGEN_LEN || p.seen != {})
              else if off + n > |buf| || kind !in ALL_KINDS || kind in p.seen then w == Outcome(visited, true)
              else if (kind == XSO_INPCB && n < INP_MIN_LEN) || (kind == XSO_SOCKET && n < SO_MIN_LEN) then
                w == Outcome(visited, true)
              else
                var q := Absorb(p, kind, buf[off..off + n]);
                && Sized(q)
                && w == (if q.seen != ALL_KINDS then Walk(buf, off + Pad8(n), q, visited, go)
                         else Settle(buf, off + Pad8(n), q, visited, go))
  {
    hide Walk, DecodePCB, Pad8, Le32, Settle;
    if GoodTrailer(buf, off, p.seen) || !GoodRecord(buf, off, p.seen) {
      WalkEnds(buf, off, p, visited, go);
    } else {
      WalkStep(buf, off, p, visited, go);
    }
  }

  // ----- Record streams -----

  predicate RecordOk(r: Bytes) {
    && 24 < |r| && Le32(r, 0) == |r| && Le32(r, 4) in ALL_KINDS
    && (Le32(r, 4) == XSO_INPCB ==> |r| >= INP_MIN_LEN)
    && (Le32(r, 4) == XSO_SOCKET ==> |r| >= SO_MIN_LEN)
  }

  function KindOf(r: Bytes): nat
    requires RecordOk(r)
  {
    Le32(r, 4)
  }

  type Group = seq<Bytes>

  /** What absorbing the records one by one leaves. */
  function AbsorbAll(p: Partial, g: Group): Partial
    requires forall r | r in g :: RecordOk(r)
    decreases |g|
  {
    if g == [] then p else AbsorbAll(Absorb(p, KindOf(g[0]), g[0]), g[1..])
  }

  /** No kind occurs twice, starting from those already seen. */
  predicate NewKinds(seen: set<nat>, g: Group)
    requires forall r | r in g :: RecordOk(r)
    decreases |g|
  {
    g == [] || (KindOf(g[0]) !in seen && NewKinds(seen + {KindOf(g[0])}, g[1..]))
  }

  /** One socket: six records of different kinds, in any order. */
  predicate GroupOk(g: Group) {
    |g| == 6 && (forall r | r in g :: RecordOk(r)) && NewKinds({}, g)
  }

  /** The records lie one after another in `buf` from `off`, each padded to eight bytes. */
  predicate RecordsAt(buf: Bytes, off: nat, g: Group)
    decreases |g|
  {
    g == [] || (off + |g[0]| <= |buf| && buf[off..off + |g[0]|] == g[0] && RecordsAt(buf, off + Pad8(|g[0]|), g[1..]))
  }

  function PaddedLength(g: Group): nat {
    if g == [] then 0 else Pad8(|g[0]|) + PaddedLength(g[1..])
  }

  predicate GroupsAt(buf: Bytes, off: nat, gs: seq<Group>)
    decreases |gs|
  {
    gs == [] || (RecordsAt(buf, off, gs[0]) && GroupsAt(buf, off + PaddedLength(gs[0]), gs[1..]))
  }

  function GroupsLength(gs: seq<Group>): nat {
    if gs == [] then 0 else PaddedLength(gs[0]) + GroupsLength(gs[1..])
  }

  /** The first record of a kind, if there is one. */
  function Find(g: Group, kind: nat): (r: Bytes)
    requires forall r | r in g :: RecordOk(r)
    ensures r != [] ==> r in g && KindOf(r) == kind
    decreases |g|
  {
    if g == [] then [] else if KindOf(g[0]) == kind then g[0] else Find(g[1..], kind)
  }

  /** What visiting the sockets one after another does: stop, fail, or go on. */
  datatype Visit = Ended(out: Outcome) | GoesOn(visited: seq<Row>)

  function SocketOf(g: Group): Decoded
    requires GroupOk(g)
  {
    SixKinds(g);
    DecodePCB(Find(g, XSO_INPCB), Find(g, XSO_SOCKET))
  }

  function VisitAll(gs: seq<Group>, visited: seq<Row>, go: seq<Row> -> bool): Visit
    requires forall g | g in gs :: GroupOk(g)
    decreases |gs|
  {
    if gs == [] then GoesOn(visited)
    else match SocketOf(gs[0])
         case BadLayout => Ended(Outcome(visited, true))
         case NoFamily => VisitAll(gs[1..], visited, go)
         case Decoded(row) =>
           if go(visited + [row]) then VisitAll(gs[1..], visited + [row], go)
           else Ended(Outcome(visited + [row], false))
  }

  lemma {:induction false} FullSet(s: set<nat>)
    requires s <= ALL_KINDS
    ensures |s| <= 6 && (|s| == 6 <==> s == ALL_KINDS)
  {
    assert |ALL_KINDS| == 6;
    assert |ALL_KINDS - s| == 6 - |s|;
    if |s| == 6 {
      assert ALL_KINDS - s == {};
    }
  }

  function Kinds(g: Group): set<nat>
    requires forall r | r in g :: RecordOk(r)
    decreases |g|
  {
    if g == [] then {} else {KindOf(g[0])} + Kinds(g[1..])
  }

  lemma {:induction false} KindsCount(seen: set<nat>, g: Group)
    requires (forall r | r in g :: RecordOk(r)) && NewKinds(seen, g) && seen <= ALL_KINDS
    ensures |seen + Kinds(g)| == |seen| + |g| && seen + Kinds(g) <= ALL_KINDS
    decreases |g|
  {
    if g != [] {
      assert RecordOk(g[0]);
      KindsCount(seen + {KindOf(g[0])}, g[1..]);
      assert seen + {KindOf(g[0])} + Kinds(g[1..]) == seen + Kinds(g);
    } else {
      assert seen + {} == seen;
    }
  }

  lemma {:induction false} FindsKind(g: Group, kind: nat)
    requires (forall r | r in g :: RecordOk(r)) && kind in Kinds(g)
    ensures Find(g, kind) in g && KindOf(Find(g, kind)) == kind
    decreases |g|
  {
    if KindOf(g[0]) != kind {
      FindsKind(g[1..], kind);
    }
  }

  /** A complete group has all six kinds, so both records the decoder needs. */
  lemma {:induction false} SixKinds(g: Group)
    requires GroupOk(g)
    ensures Kinds(g) == ALL_KINDS
    ensures |Find(g, XSO_INPCB)| >= INP_MIN_LEN && |Find(g, XSO_SOCKET)| >= SO_MIN_LEN
  {
    KindsCount({}, g);
    assert {} + Kinds(g) == Kinds(g);
    FullSet(Kinds(g));
    FindsKind(g, XSO_INPCB);
    FindsKind(g, XSO_SOCKET);
  }

  lemma {:induction false} AbsorbKeeps(p: Partial, g: Group)
    requires (forall r | r in g :: RecordOk(r)) && NewKinds(p.seen, g)
    ensures var q := AbsorbAll(p, g);
            && q.seen == p.seen + Kinds(g)
            && q.inp == (if XSO_INPCB in Kinds(g) then Find(g, XSO_INPCB) else p.inp)
            && q.so == (if XSO_SOCKET in Kinds(g) then Find(g, XSO_SOCKET) else p.so)
    decreases |g|
  {
    if g != [] {
      var p' := Absorb(p, KindOf(g[0]), g[0]);
      AbsorbKeeps(p', g[1..]);
      SeenNotIn(p'.seen, g[1..]);
    }
  }

  lemma {:induction false} SeenNotIn(seen: set<nat>, g: Group)
    requires (forall r | r in g :: RecordOk(r)) && NewKinds(seen, g)
    ensures seen !! Kinds(g)
    decreases |g|
  {
    if g != [] {
      SeenNotIn(seen + {KindOf(g[0])}, g[1..]);
    }
  }

  lemma {:induction false} RecordHere(buf: Bytes, off: nat, r: Bytes, seen: set<nat>)
    requires RecordOk(r) && off + |r| <= |buf| && buf[off..off + |r|] == r
    ensures Le32(buf, off) == |r| && Le32(buf, off + 4) == KindOf(r)
    ensures GoodRecord(buf, off, seen) <==> KindOf(r) !in seen
    ensures !GoodTrailer(buf, off, seen)
  {
    assert forall i | 0 <= i < |r| :: r[i] == buf[off + i];
  }

  lemma {:induction false} RecordThere(buf: Bytes, off: nat, seen: set<nat>)
    requires GoodRecord(buf, off, seen)
    ensures var r := buf[off..off + Le32(buf, off)]; RecordOk(r) && KindOf(r) == Le32(buf, off + 4)
  {
    var r := buf[off..off + Le32(buf, off)];
    assert forall i | 0 <= i < |r| :: r[i] == buf[off + i];
  }

  /** What the loop does once the sixth record is in. */
  function Settle(buf: Bytes, next: nat, q: Partial, visited: seq<Row>, go: seq<Row> -> bool): Outcome
    requires Sized(q) && q.seen == ALL_KINDS
  {
    match DecodePCB(q.inp, q.so)
    case BadLayout => Outcome(visited, true)
    case NoFamily => Walk(buf, next, q.(seen := {}), visited, go)
    case Decoded(row) =>
      if go(visited + [row]) then Walk(buf, next, q.(seen := {}), visited + [row], go)
      else Outcome(visited + [row], false)
  }

  lemma {:induction false} AbsorbSized(p: Partial, g: Group)
    requires Sized(p) && forall r | r in g :: RecordOk(r)
    ensures Sized(AbsorbAll(p, g))
    decreases |g|
  {
    if g != [] {
      AbsorbSized(Absorb(p, KindOf(g[0]), g[0]), g[1..]);
    }
  }

  lemma {:induction false} WalkStep(buf: Bytes, off: nat, p: Partial, visited: seq<Row>, go: seq<Row> -> bool)
    requires Sized(p) && !GoodTrailer(buf, off, p.seen) && GoodRecord(buf, off, p.seen)
    ensures var n := Le32(buf, off);
            var q := Absorb(p, Le32(buf, off + 4), buf[off..off + n]);
            && Sized(q)
            && Walk(buf, off, p, visited, go) ==
               if q.seen != ALL_KINDS then Walk(buf, off + Pad8(n), q, visited, go)
               else Settle(buf, off + Pad8(n), q, visited, go)
  {
    hide DecodePCB, Pad8, Le32, GoodTrailer;
  }

  lemma {:induction false} WalkOne(buf: Bytes, off: nat, r: Bytes, p: Partial, visited: seq<Row>, go: seq<Row> -> bool)
    requires Sized(p) && RecordOk(r) && KindOf(r) !in p.seen
    requires off + |r| <= |buf| && buf[off..off + |r|] == r
    ensures Sized(Absorb(p, KindOf(r), r))
    ensures var q := Absorb(p, KindOf(r), r); var next := off + Pad8(|r|);
            Walk(buf, off, p, visited, go) ==
            if q.seen != ALL_KINDS then Walk(buf, next, q, visited, go) else Settle(buf, next, q, visited, go)
  {
    hide Walk, Settle, Pad8, Le32, Absorb, GoodTrailer;
    RecordHere(buf, off, r, p.seen);
    WalkStep(buf, off, p, visited, go);
  }

  /** Walking over the records that complete a socket. */
  lemma {:induction false} WalkRecords(
      buf: Bytes, off: nat, g: Group, p: Partial, visited: seq<Row>, go: seq<Row> -> bool)
    requires Sized(p) && (forall r | r in g :: RecordOk(r)) && NewKinds(p.seen, g) && p.seen <= ALL_KINDS
    requires RecordsAt(buf, off, g) && g != [] && |p.seen| + |g| == 6
    ensures Sized(AbsorbAll(p, g)) && AbsorbAll(p, g).seen == ALL_KINDS
    ensures Walk(buf, off, p, visited, go) == Settle(buf, off + PaddedLength(g), AbsorbAll(p, g), visited, go)
    decreases |g|
  {
    hide Walk, Settle, RecordOk, Pad8, Sized, KindOf, Absorb;
    var r := g[0];
    var q := Absorb(p, KindOf(r), r);
    WalkOne(buf, off, r, p, visited, go);
    AbsorbSized(p, g);
    KindInAll(r);
    OneMore(p, r);
    FullSet(q.seen);
    if |g| == 1 {
      assert g[1..] == [];
    } else {
      WalkRecords(buf, off + Pad8(|r|), g[1..], q, visited, go);
    }
  }

  lemma {:induction false} OneMore(p: Partial, r: Bytes)
    requires RecordOk(r) && KindOf(r) !in p.seen
    ensures var q := Absorb(p, KindOf(r), r); q.seen == p.seen + {KindOf(r)} && |q.seen| == |p.seen| + 1
  {
  }

  lemma {:induction false} KindInAll(r: Bytes)
    requires RecordOk(r)
    ensures KindOf(r) in ALL_KINDS
  {
  }

  lemma {:induction false} SettleGroup(
      buf: Bytes, next: nat, p: Partial, g: Group, visited: seq<Row>, go: seq<Row> -> bool)
    requires Sized(p) && p.seen == {} && GroupOk(g)
    ensures var q := AbsorbAll(p, g);
            && Sized(q) && q.seen == ALL_KINDS
            && Settle(buf, next, q, visited, go) ==
               match SocketOf(g)
               case BadLayout => Outcome(visited, true)
               case NoFamily => Walk(buf, next, q.(seen := {}), visited, go)
               case Decoded(row) =>
                 if go(visited + [row]) then Walk(buf, next, q.(seen := {}), visited + [row], go)
                 else Outcome(visited + [row], false)
  {
    hide Walk, DecodePCB, RecordOk, NewKinds, AbsorbAll;
    AbsorbSized(p, g);
    AbsorbKeeps(p, g);
    SixKinds(g);
  }

  /** Walking over whole groups is visiting their sockets. */
  lemma {:induction false} WalkGroups(
      buf: Bytes, off: nat, gs: seq<Group>, p: Partial, visited: seq<Row>, go: seq<Row> -> bool)
    returns (q: Partial)
    requires Sized(p) && p.seen == {} && (forall g | g in gs :: GroupOk(g)) && GroupsAt(buf, off, gs)
    ensures Sized(q) && q.seen == {}
    ensures Walk(buf, off, p, visited, go) ==
            match VisitAll(gs, visited, go)
            case Ended(o) => o
            case GoesOn(v) => Walk(buf, off + GroupsLength(gs), q, v, go)
    decreases |gs|
  {
    hide Walk, Settle, SocketOf, RecordOk, NewKinds, AbsorbAll, RecordsAt;
    q := p;
    if gs != [] {
      var g := gs[0];
      assert GroupOk(g);
      WalkRecords(buf, off, g, p, visited, go);
      SettleGroup(buf, off + PaddedLength(g), p, g, visited, go);
      var next := AbsorbAll(p, g).(seen := {});
      match SocketOf(g) {
        case BadLayout =>
        case NoFamily =>
          q := WalkGroups(buf, off + PaddedLength(g), gs[1..], next, visited, go);
        case Decoded(row) =>
          if go(visited + [row]) {
            q := WalkGroups(buf, off + PaddedLength(g), gs[1..], next, visited + [row], go);
          }
      }
    }
  }

  // ----- Acceptance -----

  /** Header, sockets one after another, trailer. */
  predicate Stream(buf: Bytes, gs: seq<Group>) {
    && GoodHeader(buf) && (forall g | g in gs :: GroupOk(g)) && GroupsAt(buf, XINPGEN_LEN, gs)
    && GoodTrailer(buf, XINPGEN_LEN + GroupsLength(gs), {})
  }

  /** On a well-formed stream the parser visits exactly its sockets, in order, stopping
      where the visitor says, and fails only at a socket that is inconsistent. */
  lemma {:induction false} ParseVisitsStream(buf: Bytes, gs: seq<Group>, go: seq<Row> -> bool)
    requires Stream(buf, gs)
    ensures Parse(buf, go) ==
            match VisitAll(gs, [], go)
            case Ended(o) => o
            case GoesOn(v) => Outcome(v, false)
  {
    hide GroupsAt, VisitAll, GroupOk, GoodRecord;
    var q := WalkGroups(buf, XINPGEN_LEN, gs, FRESH, [], go);
  }

  /** Where no record can be read the parse ends. */
  lemma {:induction false} WalkEnds(buf: Bytes, off: nat, p: Partial, visited: seq<Row>, go: seq<Row> -> bool)
    requires Sized(p) && (GoodTrailer(buf, off, p.seen) || !GoodRecord(buf, off, p.seen))
    ensures Walk(buf, off, p, visited, go) == Outcome(visited, !GoodTrailer(buf, off, p.seen))
  {
    hide DecodePCB, Pad8, Le32, GoodTrailer, GoodRecord, Settle;
  }

  /** The records read from `off` until a socket is complete or something is wrong. */
  lemma {:induction false} Gather(buf: Bytes, off: nat, p: Partial, visited: seq<Row>, go: seq<Row> -> bool)
    returns (g: Group)
    requires Sized(p) && p.seen < ALL_KINDS
    ensures (forall r | r in g :: RecordOk(r)) && NewKinds(p.seen, g) && RecordsAt(buf, off, g)
    ensures |p.seen| + |g| <= 6
    ensures |p.seen| + |g| < 6 ==>
              && Walk(buf, off, p, visited, go).visited == visited
              && (!Walk(buf, off, p, visited, go).err ==> g == [] && GoodTrailer(buf, off, p.seen))
    ensures g != [] ==> !GoodTrailer(buf, off, p.seen)
    decreases |buf| + 8 - off
  {
    hide Walk, Settle, Pad8, Le32, RecordOk, GoodTrailer, Sized;
    FullSet(p.seen);
    if GoodTrailer(buf, off, p.seen) || !GoodRecord(buf, off, p.seen) {
      g := [];
      WalkEnds(buf, off, p, visited, go);
    } else {
      var r := buf[off..off + Le32(buf, off)];
      RecordThere(buf, off, p.seen);
      WalkOne(buf, off, r, p, visited, go);
      var q := Absorb(p, KindOf(r), r);
      FullSet(q.seen);
      assert q.seen == p.seen + {KindOf(r)};
      if q.seen == ALL_KINDS {
        g := [r];
      } else {
        var rest := Gather(buf, off + Pad8(|r|), q, visited, go);
        TrailerNeedsFresh(buf, off + Pad8(|r|), q.seen);
        g := [r] + rest;
        assert g[1..] == rest;
      }
    }
  }

  lemma {:induction false} TrailerNeedsFresh(buf: Bytes, off: nat, seen: set<nat>)
    requires seen != {}
    ensures !GoodTrailer(buf, off, seen)
  {
  }
}

/** Peeking a TLS ClientHello off a connection and replaying it, records as in section 5.1
    and the handshake header as in section 4 of RFC 8446. */
module ClientHello {
  import opened Prelude

  const HEADER_LEN: nat := 5
  const HANDSHAKE: nat := 22
  const MAX_HELLO: nat := 65536

  // ----- Records -----

  datatype Rec = Rec(kind: Byte, version: Bytes, payload: Bytes)

  predicate RecOk(r: Rec) {
    |r.version| == 2 && |r.payload| < 65536
  }

  function Length(s: Bytes): (n: nat)
    requires |s| >= HEADER_LEN
    ensures n < 65536
  {
    256 * (s[3] as int) + (s[4] as int)
  }

  predicate WholeRecord(s: Bytes) {
    |s| >= HEADER_LEN && |s| >= HEADER_LEN + Length(s)
  }

  /** The whole records a stream starts with. */
  function Records(s: Bytes): (rs: seq<Rec>)
    ensures forall r | r in rs :: RecOk(r)
    decreases |s|
  {
    if !WholeRecord(s) then []
    else
      var n := HEADER_LEN + Length(s);
      [Rec(s[0], s[1..3], s[HEADER_LEN..n])] + Records(s[n..])
  }

  function Wire(r: Rec): Bytes
    requires RecOk(r)
  {
    [r.kind] + r.version + [|r.payload| / 256, |r.payload| % 256] + r.payload
  }

  function WireAll(rs: seq<Rec>): Bytes
    requires forall r | r in rs :: RecOk(r)
    decreases |rs|
  {
    if rs == [] then [] else Wire(rs[0]) + WireAll(rs[1..])
  }

  /** A record on the wire: its type, its version, the length of its payload high byte first,
      the payload; and what a whole handshake record at the front of a stream is. */
  lemma {:induction false} RecordLayout(r: Rec, s: Bytes)
    requires RecOk(r)
    ensures var w := Wire(r);
            && |w| == 5 + |r.payload| && w[0] == r.kind && w[1..3] == r.version && w[5..] == r.payload
            && 256 * (w[3] as int) + (w[4] as int) == |r.payload|
    ensures WholeRecord(s) && s[0] == HANDSHAKE <==>
            |s| >= 5 && s[0] == 22 && |s| >= 5 + 256 * (s[3] as int) + (s[4] as int)
  {
  }

  /** Handshake bytes carried by the records. */
  function Have(rs: seq<Rec>): nat {
    if rs == [] then 0 else |rs[0].payload| + Have(rs[1..])
  }

  function Payloads(rs: seq<Rec>): (b: Bytes)
    ensures |b| == Have(rs)
  {
    if rs == [] then [] else rs[0].payload + Payloads(rs[1..])
  }

  /** The size of the message the first payload announces, its header included. */
  function Need(payload: Bytes): (n: nat)
    requires |payload| >= 4
    ensures n >= 4
  {
    4 + 65536 * (payload[1] as int) + 256 * (payload[2] as int) + (payload[3] as int)
  }

  /** `k` records are a shortest run that covers the announced message, all of them
      handshake records, and before the last of them the run was not too long. */
  predicate IsHello(rs: seq<Rec>, k: nat)
    requires forall r | r in rs :: RecOk(r)
  {
    && 1 <= k <= |rs| && |rs[0].payload| >= 4
    && (forall i | 0 <= i < k :: rs[i].kind == HANDSHAKE)
    && Have(rs[..k]) >= Need(rs[0].payload)
    && (forall j | 1 <= j < k :: Have(rs[..j]) < Need(rs[0].payload) && |WireAll(rs[..j])| <= MAX_HELLO)
  }

  lemma {:induction false} HelloCovers(rs: seq<Rec>, k: nat)
    requires forall r | r in rs :: RecOk(r)
    requires IsHello(rs, k)
    ensures 1 <= k <= |rs| && |rs[0].payload| >= 4 && Have(rs[..k]) >= Need(rs[0].payload)
  {
    hide Have, Need, WireAll, RecOk;
  }

  lemma {:induction false} HelloBefore(rs: seq<Rec>, k: nat, j: nat)
    requires forall r | r in rs :: RecOk(r)
    requires IsHello(rs, k) && 1 <= j < k
    ensures j < |rs| && |rs[0].payload| >= 4 && Have(rs[..j]) < Need(rs[0].payload) && |WireAll(rs[..j])| <= MAX_HELLO
  {
    hide Have, Need, WireAll, RecOk;
  }

  lemma {:induction false} HelloKind(rs: seq<Rec>, k: nat, i: nat)
    requires forall r | r in rs :: RecOk(r)
    requires IsHello(rs, k) && i < k
    ensures k <= |rs| && rs[i].kind == HANDSHAKE
  {
    hide Have, Need, WireAll, RecOk;
  }

  lemma {:induction false} HelloUnique(rs: seq<Rec>, k: nat, k': nat)
    requires forall r | r in rs :: RecOk(r)
    requires IsHello(rs, k) && IsHello(rs, k')
    ensures k == k'
  {
    hide IsHello, Have, Need, WireAll, RecOk;
    HelloCovers(rs, k);
    HelloCovers(rs, k');
    if k < k' {
      HelloBefore(rs, k', k);
    } else if k' < k {
      HelloBefore(rs, k, k');
    }
  }

  lemma {:induction false} WireAppend(rs: seq<Rec>, r: Rec)
    requires (forall x | x in rs :: RecOk(x)) && RecOk(r)
    ensures WireAll(rs + [r]) == WireAll(rs) + Wire(r) && Have(rs + [r]) == Have(rs) + |r.payload|
    decreases |rs|
  {
    hide Wire;
    if rs == [] {
      assert [] + [r] == [r] && [r][1..] == [];
    } else {
      assert (rs + [r])[1..] == rs[1..] + [r];
      WireAppend(rs[1..], r);
      assert Wire(rs[0]) + (WireAll(rs[1..]) + Wire(r)) == Wire(rs[0]) + WireAll(rs[1..]) + Wire(r);
    }
  }

  /** Reading one record off a stream. */
  lemma {:induction false} RecordsOf(s: Bytes)
    requires WholeRecord(s)
    ensures var r := Records(s)[0];
            && Records(s) == [r] + Records(s[HEADER_LEN + Length(s)..])
            && Wire(r) == s[..HEADER_LEN + Length(s)] && r.kind == s[0]
            && r.payload == s[HEADER_LEN..HEADER_LEN + Length(s)]
  {
    var n := HEADER_LEN + Length(s);
    assert s[..n] == [s[0]] + s[1..3] + [s[3], s[4]] + s[HEADER_LEN..n];
    assert Length(s) / 256 == s[3] && Length(s) % 256 == s[4];
  }

  lemma {:induction false} Beyond(s: Bytes, n: nat, w: Bytes)
    requires n <= |s| && w <= s[n..]
    ensures s[..n] + w <= s && s[|s[..n] + w|..] == s[n..][|w|..]
  {
    assert s == s[..n] + s[n..];
  }

  lemma {:induction false} RecordsRest(s: Bytes, k: nat)
    requires k <= |Records(s)|
    ensures var w := WireAll(Records(s)[..k]); w <= s && Records(s[|w|..]) == Records(s)[k..]
    decreases k
  {
    hide Wire, WholeRecord, Length, Records, RecOk;
    var rs := Records(s);
    if k == 0 {
      assert s[0..] == s && rs[0..] == rs;
    } else {
      OneRecord(s);
      RecordsOf(s);
      var n := |Wire(rs[0])|;
      var rest := Records(s[n..]);
      RecordsRest(s[n..], k - 1);
      assert rs[..k] == [rs[0]] + rest[..k - 1] && rs[k..] == rest[k - 1..];
      assert rs[..k][1..] == rest[..k - 1];
      Beyond(s, n, WireAll(rest[..k - 1]));
    }
  }

  lemma {:induction false} OneRecord(s: Bytes)
    requires Records(s) != []
    ensures WholeRecord(s)
  {
  }

  // ----- The reader -----

  /** A connection as the bytes it will ever deliver. */
  class Stream {
    const data: Bytes
    var pos: nat

    ghost predicate Valid()
      reads this
    {
      pos <= |data|
    }

    constructor (data: Bytes)
      ensures Valid() && this.data == data && pos == 0
    {
      this.data := data;
      pos := 0;
    }

    method Peek(n: nat) returns (b: Option<Bytes>)
      requires Valid()
      ensures b == if pos + n <= |data| then Some(data[pos..pos + n]) else None
    {
      return if pos + n <= |data| then Some(data[pos..pos + n]) else None;
    }

    method ReadFull(n: nat) returns (b: Option<Bytes>)
      requires Valid()
      modifies this
      ensures Valid() && pos == if old(pos) + n <= |data| then old(pos) + n else |data|
      ensures b == if old(pos) + n <= |data| then Some(data[old(pos)..old(pos) + n]) else None
    {
      if pos + n > |data| {
        pos := |data|;
        return None;
      }
      b := Some(data[pos..pos + n]);
      pos := pos + n;
    }
  }

  datatype Error = ShortStream | NotHandshake | ShortHeader | TooLarge

  /** What a turn of the loop knows: `k` records read, none of them the last. */
  predicate Reading(rs: seq<Rec>, k: nat)
    requires forall r | r in rs :: RecOk(r)
  {
    && k <= |rs| && (forall i | 0 <= i < k :: rs[i].kind == HANDSHAKE)
    && (k > 0 ==> |rs[0].payload| >= 4)
    && (forall j | 1 <= j <= k :: Have(rs[..j]) < Need(rs[0].payload) && |WireAll(rs[..j])| <= MAX_HELLO)
  }

  ghost predicate SomeHello(rs: seq<Rec>)
    requires forall r | r in rs :: RecOk(r)
  {
    exists k: nat :: IsHello(rs, k)
  }

  lemma {:induction false} NoHelloAfter(rs: seq<Rec>, k: nat)
    requires forall r | r in rs :: RecOk(r)
    requires Reading(rs, k)
    requires k == |rs| || rs[k].kind != HANDSHAKE || (k == 0 && |rs[0].payload| < 4)
             || (|rs[0].payload| >= 4 && Have(rs[..k + 1]) < Need(rs[0].payload) && |WireAll(rs[..k + 1])| > MAX_HELLO)
    ensures !SomeHello(rs)
  {
    hide Need, Have, WireAll, RecOk, IsHello;
    forall n: nat ensures !IsHello(rs, n) {
      if IsHello(rs, n) {
        if n > k {
          HelloKind(rs, n, k);
          if n > k + 1 {
            HelloBefore(rs, n, k + 1);
          }
        }
        HelloCovers(rs, n);
      }
    }
  }

  /** One turn's reading: a whole handshake record, or the reason there is none. */
  method ReadRecord(conn: Stream) returns (r: Result<Bytes, Error>)
    requires conn.Valid()
    modifies conn
    ensures conn.Valid()
    ensures var left := old(conn.data[conn.pos..]);
            && (r.Ok? <==> WholeRecord(left) && left[0] == HANDSHAKE)
            && (r.Ok? ==>
                  && HEADER_LEN <= HEADER_LEN + Length(left) == |r.value| <= |left|
                  && r.value == left[..|r.value|] && conn.pos == old(conn.pos) + |r.value|)
  {
    ghost var left := conn.data[conn.pos..];
    var hdr := conn.Peek(HEADER_LEN);
    if hdr.None? {
      return Err(ShortStream);
    }
    assert hdr.value == left[..HEADER_LEN];
    if hdr.value[0] != HANDSHAKE {
      return Err(NotHandshake);
    }
    var recLen := 256 * (hdr.value[3] as int) + (hdr.value[4] as int);
    var rec := conn.ReadFull(HEADER_LEN + recLen);
    if rec.None? {
      return Err(ShortStream);
    }
    assert rec.value == left[..HEADER_LEN + recLen];
    return Ok(rec.value);
  }

  /** On success the result is, byte for byte, the shortest run of whole handshake records
      that covers the announced ClientHello; there is one exactly when the peek succeeds,
      and the loop ends even if records carry nothing. */
  method PeekClientHello(conn: Stream) returns (r: Result<Bytes, Error>)
    requires conn.Valid()
    modifies conn
    ensures conn.Valid()
    ensures var rs := Records(old(conn.data[conn.pos..]));
            && (r.Ok? <==> SomeHello(rs))
            && (r.Ok? ==> exists k: nat :: IsHello(rs, k) && r.value == WireAll(rs[..k]))
    ensures r.Ok? ==> r.value <= old(conn.data[conn.pos..]) && conn.pos == old(conn.pos) + |r.value|
    ensures r.Ok? ==> |r.value| <= 131076
  {
    hide Need, Have, WireAll, RecOk, IsHello, Reading, Records, Wire, SomeHello, WholeRecord, Length;
    ghost var s := conn.data[conn.pos..];
    ghost var rs := Records(s);
    ghost var k := 0;
    var raw: Bytes := [];
    var needHandshake := 0;
    var have := 0;
    StartReading(rs);
    while true
      invariant conn.Valid() && conn.pos == old(conn.pos) + |raw| && conn.data[conn.pos..] == s[|raw|..]
      invariant k <= |rs| && Reading(rs, k) && raw == WireAll(rs[..k]) && have == Have(rs[..k])
      invariant k == 0 ==> needHandshake == 0 && raw == []
      invariant k > 0 ==> |rs[0].payload| >= 4 && needHandshake == Need(rs[0].payload)
      invariant |raw| <= MAX_HELLO && raw <= s
      decreases 131077 - |raw|
    {
      ghost var left := s[|raw|..];
      RecordsRest(s, k);
      var rec := ReadRecord(conn);
      if rec.Err? {
        NoRecord(s, k);
        NoHelloAfter(rs, k);
        return Err(rec.error);
      }
      NextRecord(s, k);
      raw := raw + rec.value;
      var payload := rec.value[HEADER_LEN..];
      assert payload == left[HEADER_LEN..HEADER_LEN + Length(left)];
      if needHandshake == 0 {
        NeedPositive(rs, k);
        if |payload| < 4 {
          NoHelloAfter(rs, k);
          return Err(ShortHeader);
        }
        needHandshake := 4 + (65536 * (payload[1] as int) + 256 * (payload[2] as int) + (payload[3] as int));
        NeedIs(payload);
      }
      have := have + |payload|;
      if have >= needHandshake {
        HelloHere(rs, k);
        assert conn.pos == old(conn.pos) + |raw|;
        return Ok(raw);
      }
      if |raw| > MAX_HELLO {
        NoHelloAfter(rs, k);
        return Err(TooLarge);
      }
      ReadOn(rs, k);
      k := k + 1;
    }
  }

  lemma {:induction false} StartReading(rs: seq<Rec>)
    requires forall r | r in rs :: RecOk(r)
    ensures Reading(rs, 0) && WireAll(rs[..0]) == [] && Have(rs[..0]) == 0
  {
  }

  lemma {:induction false} NeedIs(payload: Bytes)
    requires |payload| >= 4
    ensures Need(payload) == 4 + (65536 * (payload[1] as int) + 256 * (payload[2] as int) + (payload[3] as int))
  {
  }

  lemma {:induction false} NeedPositive(rs: seq<Rec>, k: nat)
    requires k > 0 ==> |rs| > 0 && |rs[0].payload| >= 4
    ensures k > 0 ==> Need(rs[0].payload) > 0
  {
  }

  /** Where no handshake record starts, the records are at an end or of another kind. */
  lemma {:induction false} NoRecord(s: Bytes, k: nat)
    requires k <= |Records(s)| && WireAll(Records(s)[..k]) <= s
    ensures var left := s[|WireAll(Records(s)[..k])|..];
            !(WholeRecord(left) && left[0] == HANDSHAKE) ==> k == |Records(s)| || Records(s)[k].kind != HANDSHAKE
  {
    hide WireAll, Length, Wire;
    RecordsRest(s, k);
    var left := s[|WireAll(Records(s)[..k])|..];
    if WholeRecord(left) {
      RecordsOf(left);
      assert Records(s)[k] == Records(s)[k..][0];
    }
  }

  lemma {:induction false} NextRecord(s: Bytes, k: nat)
    requires k <= |Records(s)| && WireAll(Records(s)[..k]) <= s
    ensures var rs := Records(s); var w := WireAll(rs[..k]); var left := s[|w|..];
            WholeRecord(left) ==>
              && |left| >= HEADER_LEN && k < |rs| && rs[k].kind == left[0]
              && rs[k].payload == left[HEADER_LEN..HEADER_LEN + Length(left)]
              && WireAll(rs[..k + 1]) == w + left[..HEADER_LEN + Length(left)]
              && Have(rs[..k + 1]) == Have(rs[..k]) + |rs[k].payload|
              && w + left[..HEADER_LEN + Length(left)] <= s
              && s[|w| + HEADER_LEN + Length(left)..] == left[HEADER_LEN + Length(left)..]
  {
    hide WireAll, Length, Wire, Have;
    RecordsRest(s, k);
    var rs := Records(s);
    var left := s[|WireAll(rs[..k])|..];
    if WholeRecord(left) {
      RecordsOf(left);
      assert rs[k] == rs[k..][0];
      assert rs[..k + 1] == rs[..k] + [rs[k]];
      WireAppend(rs[..k], rs[k]);
    }
  }

  lemma {:induction false} HelloHere(rs: seq<Rec>, k: nat)
    requires forall r | r in rs :: RecOk(r)
    requires Reading(rs, k) && k < |rs| && rs[k].kind == HANDSHAKE && |rs[0].payload| >= 4
    requires Have(rs[..k + 1]) >= Need(rs[0].payload)
    ensures IsHello(rs, k + 1) && SomeHello(rs)
  {
    hide Need, Have, WireAll, RecOk;
    assert IsHello(rs, k + 1);
  }

  lemma {:induction false} ReadOn(rs: seq<Rec>, k: nat)
    requires forall r | r in rs :: RecOk(r)
    requires Reading(rs, k) && k < |rs| && rs[k].kind == HANDSHAKE && |rs[0].payload| >= 4
    requires Have(rs[..k + 1]) < Need(rs[0].payload) && |WireAll(rs[..k + 1])| <= MAX_HELLO
    ensures Reading(rs, k + 1)
  {
    hide Need, Have, WireAll, RecOk;
  }

  // ----- The other way round -----

  lemma {:induction false} ReadsBack(r: Rec, rest: Bytes)
    requires RecOk(r)
    ensures Records(Wire(r) + rest) == [r] + Records(rest)
  {
    hide Records;
    var s := Wire(r) + rest;
    assert Length(s) == |r.payload|;
    assert s[..HEADER_LEN + |r.payload|] == Wire(r) && s[HEADER_LEN + |r.payload|..] == rest;
    assert s[1..3] == r.version && s[HEADER_LEN..HEADER_LEN + |r.payload|] == r.payload;
    UnfoldRecords(s);
  }

  lemma {:induction false} UnfoldRecords(s: Bytes)
    requires WholeRecord(s)
    ensures var n := HEADER_LEN + Length(s);
            Records(s) == [Rec(s[0], s[1..3], s[HEADER_LEN..n])] + Records(s[n..])
  {
  }

  lemma {:induction false} AllReadBack(rs: seq<Rec>, rest: Bytes)
    requires forall r | r in rs :: RecOk(r)
    ensures Records(WireAll(rs) + rest) == rs + Records(rest)
    decreases |rs|
  {
    hide Records, Wire;
    if rs == [] {
      assert [] + rest == rest && [] + Records(rest) == Records(rest);
    } else {
      assert WireAll(rs) + rest == Wire(rs[0]) + (WireAll(rs[1..]) + rest);
      ReadsBack(rs[0], WireAll(rs[1..]) + rest);
      AllReadBack(rs[1..], rest);
      assert rs == [rs[0]] + rs[1..];
    }
  }

  /** However a ClientHello is cut into handshake records, and whatever comes after, exactly
      those records are what a peek has to return. */
  lemma {:induction false} FragmentsAreTheHello(rs: seq<Rec>, rest: Bytes)
    requires forall r | r in rs :: RecOk(r)
    requires IsHello(rs, |rs|)
    ensures var seen := Records(WireAll(rs) + rest);
            IsHello(seen, |rs|) && WireAll(seen[..|rs|]) == WireAll(rs) && forall k: nat | IsHello(seen, k) :: k == |rs|
  {
    hide Records, WireAll, Need, RecOk;
    AllReadBack(rs, rest);
    var seen := Records(WireAll(rs) + rest);
    assert forall j | 0 <= j <= |rs| :: seen[..j] == rs[..j];
    forall k: nat | IsHello(seen, k) ensures k == |rs| {
      HelloUnique(seen, k, |rs|);
    }
  }

  /** A handshake message as section 4 of RFC 8446 lays it out: its type, the length of its
      body in three bytes, the body. */
  predicate IsMessage(m: Bytes) {
    |m| >= 4 && |m| == 4 + 65536 * (m[1] as int) + 256 * (m[2] as int) + (m[3] as int)
  }

  function Cut(parts: seq<Bytes>, version: Bytes): (rs: seq<Rec>)
    ensures |rs| == |parts|
  {
    seq(|parts|, i requires 0 <= i < |parts| => Rec(22, version, parts[i]))
  }

  function Concat(parts: seq<Bytes>): Bytes {
    if parts == [] then [] else parts[0] + Concat(parts[1..])
  }

  lemma {:induction false} CutHas(parts: seq<Bytes>, version: Bytes)
    ensures Have(Cut(parts, version)) == |Concat(parts)|
    decreases |parts|
  {
    if parts != [] {
      assert Cut(parts, version)[1..] == Cut(parts[1..], version);
      CutHas(parts[1..], version);
    }
  }

  lemma {:induction false} CutPrefix(parts: seq<Bytes>, version: Bytes, k: nat)
    requires k <= |parts|
    ensures Cut(parts, version)[..k] == Cut(parts[..k], version)
    ensures Concat(parts) == Concat(parts[..k]) + Concat(parts[k..])
    decreases |parts|
  {
    if parts != [] && k > 0 {
      CutPrefix(parts[1..], version, k - 1);
      assert parts[..k][1..] == parts[1..][..k - 1] && parts[k..] == parts[1..][k - 1..];
      assert parts[0] + (Concat(parts[1..][..k - 1]) + Concat(parts[k..]))
          == (parts[0] + Concat(parts[1..][..k - 1])) + Concat(parts[k..]);
    } else if parts != [] {
      assert parts[..0] == [] && parts[0..] == parts;
      assert Concat(parts) == [] + Concat(parts);
    }
  }

  /** A handshake message, cut anywhere into records of type 22 of which the first holds its
      header and the last is not empty, and followed by whatever: that is what a peek returns,
      unless 65536 bytes of records were not enough for all but the last of them. */
  lemma {:induction false} MessageIsPeeked(m: Bytes, parts: seq<Bytes>, version: Bytes, rest: Bytes)
    requires IsMessage(m) && Concat(parts) == m && |version| == 2
    requires parts != [] && |parts[0]| >= 4 && parts[|parts| - 1] != []
    requires forall p | p in parts :: |p| < 65536
    requires (forall r | r in Cut(parts, version) :: RecOk(r))
    requires |WireAll(Cut(parts, version)[..|parts| - 1])| <= 65536
    ensures var seen := Records(WireAll(Cut(parts, version)) + rest);
            IsHello(seen, |parts|) && WireAll(seen[..|parts|]) == WireAll(Cut(parts, version))
            && forall k: nat | IsHello(seen, k) :: k == |parts|
  {
    hide Records, WireAll, Have;
    var rs, n := Cut(parts, version), |parts|;
    assert parts[0] <= m by {
      assert m == parts[0] + Concat(parts[1..]);
    }
    assert Need(parts[0]) == |m|;
    CutHas(parts, version);
    forall j | 1 <= j < n ensures Have(rs[..j]) < |m| && |WireAll(rs[..j])| <= MAX_HELLO {
      CutPrefix(parts, version, j);
      CutHas(parts[..j], version);
      LastNotEmpty(parts[j..]);
      ShorterWire(rs, j, n - 1);
    }
    assert rs[..n] == rs;
    FragmentsAreTheHello(rs, rest);
  }

  lemma {:induction false} LastNotEmpty(parts: seq<Bytes>)
    requires parts != [] && parts[|parts| - 1] != []
    ensures Concat(parts) != []
    decreases |parts|
  {
    if |parts| > 1 {
      LastNotEmpty(parts[1..]);
    }
  }

  lemma {:induction false} ShorterWire(rs: seq<Rec>, j: nat, k: nat)
    requires (forall r | r in rs :: RecOk(r)) && j <= k <= |rs|
    ensures |WireAll(rs[..j])| <= |WireAll(rs[..k])|
    decreases k
  {
    hide WireAll, Wire, RecOk, Have;
    if j < k {
      ShorterWire(rs, j, k - 1);
      assert rs[..k] == rs[..k - 1] + [rs[k - 1]];
      assert RecOk(rs[k - 1]) && forall x | x in rs[..k - 1] :: RecOk(x);
      WireAppend(rs[..k - 1], rs[k - 1]);
    }
  }

  /** The records hold the whole announced message: its header says how long it is. */
  lemma {:induction false} HelloHoldsMessage(rs: seq<Rec>, k: nat)
    requires forall r | r in rs :: RecOk(r)
    requires IsHello(rs, k)
    ensures var b := Payloads(rs[..k]); |b| >= 4 && |b| >= Need(b) && Need(b) == Need(rs[0].payload)
  {
    var first := rs[..k];
    assert first[0] == rs[0];
    assert Payloads(first) == rs[0].payload + Payloads(first[1..]);
  }

  // ----- Replay -----

  /** The peeked bytes first, then the connection; one read never crosses from one to the
      other, and may return less than it was asked for. */
  class ReplayConn {
    const raw: Bytes
    const conn: Stream
    const from: nat
    var at: nat

    ghost predicate Valid()
      reads this, conn
    {
      && at <= |raw| && from <= conn.pos <= |conn.data| && (at < |raw| ==> conn.pos == from)
    }

    /** Everything read so far. */
    ghost function Delivered(): Bytes
      reads this, conn
      requires Valid()
    {
      raw[..at] + conn.data[from..conn.pos]
    }

    constructor (raw: Bytes, conn: Stream)
      requires conn.Valid()
      ensures Valid() && this.raw == raw && this.conn == conn && from == conn.pos && Delivered() == []
    {
      this.raw := raw;
      this.conn := conn;
      this.from := conn.pos;
      this.at := 0;
    }

    method ReadRaw(n: nat) returns (b: Bytes)
      requires Valid() && n > 0 && at < |raw|
      modifies this
      ensures Valid() && Delivered() == old(Delivered()) + b && 0 < |b| <= n
    {
      var m := if n < |raw| - at then n else |raw| - at;
      b := raw[at..at + m];
      assert raw[..at + m] == raw[..at] + b;
      at := at + m;
    }

    method ReadConn(n: nat, ready: nat) returns (b: Bytes, eof: bool)
      requires Valid() && n > 0 && ready > 0 && at == |raw|
      modifies conn
      ensures Valid() && Delivered() == old(Delivered()) + b && |b| <= n
      ensures eof <==> old(conn.pos) == |conn.data|
      ensures eof <==> b == []
    {
      if conn.pos == |conn.data| {
        return [], true;
      }
      var m := if n < ready then n else ready;
      m := if m < |conn.data| - conn.pos then m else |conn.data| - conn.pos;
      assert conn.data[from..conn.pos + m] == conn.data[from..conn.pos] + conn.data[conn.pos..conn.pos + m];
      var got := conn.ReadFull(m);
      return got.value, false;
    }

    lemma {:induction false} AllDelivered()
      requires Valid()
      ensures Delivered() == raw + conn.data[from..] <==> at == |raw| && conn.pos == |conn.data|
    {
      if Delivered() == raw + conn.data[from..] {
        assert |Delivered()| == |raw + conn.data[from..]|;
      } else {
        assert raw[..|raw|] == raw;
        assert conn.data[from..|conn.data|] == conn.data[from..];
      }
    }

    method Read(n: nat, ready: nat) returns (b: Bytes, eof: bool)
      requires Valid() && n > 0 && ready > 0
      modifies this, conn
      ensures Valid() && Delivered() == old(Delivered()) + b && |b| <= n
      ensures eof <==> old(Delivered()) == raw + conn.data[from..]
      ensures !eof ==> b != []
    {
      hide Delivered;
      AllDelivered();
      if at < |raw| {
        b := ReadRaw(n);
        return b, false;
      }
      b, eof := ReadConn(n, ready);
    }
  }

  /** Whatever the peek took off the connection, the replay gives back first, so that the
      reader of the replay sees the stream from its beginning. */
  method PeekThenReplay(conn: Stream) returns (r: Result<ReplayConn, Error>)
    requires conn.Valid()
    modifies conn
    ensures var rs := Records(old(conn.data[conn.pos..]));
            && (r.Ok? <==> SomeHello(rs))
            && (r.Ok? ==> exists k: nat :: IsHello(rs, k) && r.value.raw == WireAll(rs[..k]))
    ensures r.Ok? ==> fresh(r.value) && r.value.conn == conn && r.value.Valid() && r.value.Delivered() == []
                      && r.value.raw + conn.data[r.value.from..] == old(conn.data[conn.pos..])
  {
    hide Records, SomeHello, IsHello, WireAll;
    ghost var s := conn.data[conn.pos..];
    var raw := PeekClientHello(conn);
    if raw.Err? {
      return Err(raw.error);
    }
    var replay := new ReplayConn(raw.value, conn);
    assert s == s[..|raw.value|] + s[|raw.value|..];
    assert conn.data[conn.pos..] == s[|raw.value|..];
    return Ok(replay);
  }
}

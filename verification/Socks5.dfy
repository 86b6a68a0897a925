/** The SOCKS5 client handshake of sections 3 to 6 of RFC 1928, with the username and
    password exchange of section 2 of RFC 1929. */
module Socks5 {
  import opened Prelude

  // ----- What the client says -----

  datatype Creds = Creds(user: Bytes, pass: Bytes)

  datatype Dest = V4(ip: Bytes) | V6(ip: Bytes) | Domain(name: Bytes)

  datatype Request = Request(dest: Dest, port: nat)

  predicate CredsOk(c: Creds) {
    |c.user| <= 255 && |c.pass| <= 255
  }

  predicate DestOk(d: Dest) {
    match d
    case V4(ip) => |ip| == 4
    case V6(ip) => |ip| == 16
    case Domain(name) => |name| <= 255
  }

  predicate RequestOk(q: Request) {
    DestOk(q.dest) && q.port < 65536
  }

  function Greeting(hasAuth: bool): Bytes {
    if hasAuth then [5, 2, 0, 2] else [5, 1, 0]
  }

  function AuthRequest(c: Creds): Bytes
    requires CredsOk(c)
  {
    [1, |c.user|] + c.user + [|c.pass|] + c.pass
  }

  function Address(d: Dest): Bytes
    requires DestOk(d)
  {
    match d
    case V4(ip) => [1] + ip
    case V6(ip) => [4] + ip
    case Domain(name) => [3, |name|] + name
  }

  function ConnectRequest(q: Request): Bytes
    requires RequestOk(q)
  {
    [5, 1, 0] + Address(q.dest) + [q.port / 256, q.port % 256]
  }

  /** The client's messages, byte by byte. */
  lemma {:induction false} MessageLayout(c: Creds, ip: Bytes, ip6: Bytes, name: Bytes, port: nat)
    requires CredsOk(c) && |ip| == 4 && |ip6| == 16 && |name| <= 255 && port < 65536
    ensures Greeting(true) == [5, 2, 0, 2] && Greeting(false) == [5, 1, 0]
    ensures AuthRequest(c) == [1] + [|c.user|] + c.user + [|c.pass|] + c.pass
    ensures ConnectRequest(Request(V4(ip), port)) == [5, 1, 0, 1] + ip + [port / 256, port % 256]
    ensures ConnectRequest(Request(V6(ip6), port)) == [5, 1, 0, 4] + ip6 + [port / 256, port % 256]
    ensures ConnectRequest(Request(Domain(name), port)) == [5, 1, 0, 3, |name|] + name + [port / 256, port % 256]
  {
    assert [5, 1, 0] + ([1] + ip) == [5, 1, 0, 1] + ip;
    assert [5, 1, 0] + ([4] + ip6) == [5, 1, 0, 4] + ip6;
    assert [5, 1, 0] + ([3, |name|] + name) == [5, 1, 0, 3, |name|] + name;
  }

  // ----- How a server reads it -----

  /** The methods a greeting offers, and what follows it. */
  function ReadGreeting(b: Bytes): Option<(Bytes, Bytes)> {
    if |b| >= 2 && b[0] == 5 && |b| >= 2 + (b[1] as int) then
      var n := b[1] as int;
      Some((b[2..2 + n], b[2 + n..]))
    else None
  }

  function ReadAuth(b: Bytes): Option<(Creds, Bytes)> {
    if !(|b| >= 2 && b[0] == 1 && |b| >= 3 + (b[1] as int)) then None
    else
      var u: nat := b[1];
      var p: nat := b[2 + u];
      if |b| < 3 + u + p then None else Some((Creds(b[2..2 + u], b[3 + u..3 + u + p]), b[3 + u + p..]))
  }

  function ReadAddress(b: Bytes): Option<(Dest, Bytes)> {
    if |b| >= 5 && b[0] == 1 then Some((V4(b[1..5]), b[5..]))
    else if |b| >= 17 && b[0] == 4 then Some((V6(b[1..17]), b[17..]))
    else if |b| >= 2 && b[0] == 3 && |b| >= 2 + (b[1] as int) then
      var n := b[1] as int;
      Some((Domain(b[2..2 + n]), b[2 + n..]))
    else None
  }

  function ReadConnect(b: Bytes): Option<(Request, Bytes)> {
    if !(|b| >= 3 && b[..3] == [5, 1, 0]) then None
    else
      match ReadAddress(b[3..])
      case None => None
      case Some(t) =>
        if |t.1| < 2 then None else Some((Request(t.0, 256 * (t.1[0] as int) + (t.1[1] as int)), t.1[2..]))
  }

  lemma {:induction false} GreetingReadsBack(hasAuth: bool, rest: Bytes)
    ensures ReadGreeting(Greeting(hasAuth) + rest) == Some((if hasAuth then [0, 2] else [0], rest))
  {
    var b := Greeting(hasAuth) + rest;
    var n := b[1] as int;
    assert b[2 + n..] == rest;
    assert b[2..2 + n] == if hasAuth then [0, 2] else [0];
  }

  lemma {:induction false} AuthReadsBack(c: Creds, rest: Bytes)
    requires CredsOk(c)
    ensures ReadAuth(AuthRequest(c) + rest) == Some((c, rest))
  {
    var b := AuthRequest(c) + rest;
    var u, p := |c.user|, |c.pass|;
    assert b[2 + u] == p;
    assert b[2..2 + u] == c.user && b[3 + u..3 + u + p] == c.pass && b[3 + u + p..] == rest;
  }

  lemma {:induction false} AddressReadsBack(d: Dest, rest: Bytes)
    requires DestOk(d)
    ensures ReadAddress(Address(d) + rest) == Some((d, rest))
  {
    var b := Address(d) + rest;
    match d {
      case V4(ip) => assert b[1..5] == ip && b[5..] == rest;
      case V6(ip) => assert b[1..17] == ip && b[17..] == rest;
      case Domain(name) => assert b[2..2 + |name|] == name && b[2 + |name|..] == rest;
    }
  }

  lemma {:induction false} ConnectReadsBack(q: Request, rest: Bytes)
    requires RequestOk(q)
    ensures ReadConnect(ConnectRequest(q) + rest) == Some((q, rest))
  {
    hide Address, ReadAddress;
    var port: Bytes := [q.port / 256, q.port % 256];
    var b := ConnectRequest(q) + rest;
    assert b[..3] == [5, 1, 0] && b[3..] == Address(q.dest) + (port + rest);
    AddressReadsBack(q.dest, port + rest);
    assert (port + rest)[2..] == rest;
  }

  // ----- What the server says -----

  /** Where the address that starts with type `atyp` ends, port included. */
  function BoundEnd(b: Bytes, atyp: Byte): Option<nat> {
    if atyp == 1 && |b| >= 6 then Some(6)
    else if atyp == 4 && |b| >= 18 then Some(18)
    else if atyp == 3 && |b| >= 1 && |b| >= 3 + (b[0] as int) then Some(3 + (b[0] as int))
    else None
  }

  /** Bytes through BND.PORT of a reply that grants the connection. */
  function GrantEnd(b: Bytes): Option<nat> {
    if !(|b| >= 4 && b[0] == 5 && b[1] == 0) then None
    else match BoundEnd(b[4..], b[3])
         case None => None
         case Some(n) => Some(4 + n)
  }

  /** A reply that grants the connection, as section 6 of RFC 1928 lays it out. */
  function GrantReply(rsv: Byte, bound: Dest, port: nat): Bytes
    requires DestOk(bound) && port < 65536
  {
    [5, 0, rsv] + Address(bound) + [port / 256, port % 256]
  }

  lemma {:induction false} ReplyEndsThere(rsv: Byte, bound: Dest, port: nat, rest: Bytes)
    requires DestOk(bound) && port < 65536
    ensures GrantEnd(GrantReply(rsv, bound, port) + rest) == Some(|GrantReply(rsv, bound, port)|)
  {
    var b := GrantReply(rsv, bound, port) + rest;
    assert b[3] == Address(bound)[0];
    match bound {
      case V4(ip) =>
      case V6(ip) =>
      case Domain(name) => assert b[4] == |name|;
    }
  }

  /** Where the client sees a granting reply end, there is one, byte for byte. */
  lemma {:induction false} GrantIsReply(b: Bytes) returns (rsv: Byte, bound: Dest, port: nat)
    requires GrantEnd(b).Some?
    ensures DestOk(bound) && port < 65536
    ensures var n := GrantEnd(b).value; n <= |b| && b[..n] == GrantReply(rsv, bound, port)
  {
    hide Address;
    var n := GrantEnd(b).value;
    rsv := b[2];
    port := 256 * (b[n - 2] as int) + (b[n - 1] as int);
    bound := AddressOf(b[3..n - 2]);
    assert b[..n] == [5, 0, rsv] + b[3..n - 2] + [b[n - 2], b[n - 1]];
  }

  lemma {:induction false} AddressOf(a: Bytes) returns (d: Dest)
    requires |a| >= 2
    requires (a[0] == 1 && |a| == 5) || (a[0] == 4 && |a| == 17) || (a[0] == 3 && |a| == 2 + (a[1] as int))
    ensures DestOk(d) && Address(d) == a
  {
    d := if a[0] == 1 then V4(a[1..]) else if a[0] == 4 then V6(a[1..]) else Domain(a[2..]);
    assert a == [a[0]] + a[1..] && a[1..] == [a[1]] + a[2..];
  }

  /** The server picks a method that was offered, accepts the credentials if it asked for
      them, and grants the connection: where its side of the handshake ends. */
  function HandshakeEnd(b: Bytes, hasAuth: bool): Option<nat> {
    if !(|b| >= 2 && b[0] == 5) then None
    else if b[1] == 0 then match GrantEnd(b[2..]) case None => None case Some(n) => Some(2 + n)
    else if b[1] == 2 && hasAuth then
      if !(|b| >= 4 && b[2] == 1 && b[3] == 0) then None
      else match GrantEnd(b[4..]) case None => None case Some(n) => Some(4 + n)
    else None
  }

  /** The two scripts of a server that goes along: it takes the offer without credentials, or
      asks for them and accepts them, and then grants the connection. */
  lemma {:induction false} ScriptEndsThere(rsv: Byte, bound: Dest, port: nat, hasAuth: bool, rest: Bytes)
    requires DestOk(bound) && port < 65536
    ensures var grant := GrantReply(rsv, bound, port);
            && HandshakeEnd([5, 0] + grant + rest, hasAuth) == Some(2 + |grant|)
            && HandshakeEnd([5, 2, 1, 0] + grant + rest, hasAuth) == if hasAuth then Some(4 + |grant|) else None
  {
    hide GrantReply, GrantEnd;
    var grant := GrantReply(rsv, bound, port);
    ReplyEndsThere(rsv, bound, port, rest);
    assert ([5, 0] + grant + rest)[2..] == grant + rest;
    assert ([5, 2, 1, 0] + grant + rest)[4..] == grant + rest;
  }

  /** And there are no others. */
  lemma {:induction false} OnlyTwoScripts(b: Bytes, hasAuth: bool) returns (head: Bytes, grant: Bytes)
    requires HandshakeEnd(b, hasAuth).Some?
    ensures head == [5, 0] || (hasAuth && head == [5, 2, 1, 0])
    ensures HandshakeEnd(b, hasAuth).value == |head + grant| <= |b| && b[..|head + grant|] == head + grant
    ensures exists rsv, bound, port: nat :: DestOk(bound) && port < 65536 && grant == GrantReply(rsv, bound, port)
  {
    hide GrantReply, GrantEnd;
    var from := if b[1] == 0 then 2 else 4;
    head := b[..from];
    assert b[1] == 0 ==> head == [5, 0];
    assert b[1] != 0 ==> head == [5, 2, 1, 0];
    var rsv, bound, port := GrantIsReply(b[from..]);
    grant := b[from..][..GrantEnd(b[from..]).value];
    assert b[..from + |grant|] == head + grant;
  }

  predicate PicksAuth(b: Bytes) {
    |b| >= 2 && b[1] == 2
  }

  // ----- The connection -----

  class Conn {
    const inbox: Bytes     // everything the server will ever send
    const writable: nat    // how many writes go through
    var pos: nat
    var sent: Bytes
    var writes: nat
    var open: bool

    ghost predicate Valid()
      reads this
    {
      pos <= |inbox|
    }

    constructor (inbox: Bytes, writable: nat)
      ensures Valid() && this.inbox == inbox && this.writable == writable
      ensures pos == 0 && sent == [] && writes == 0 && open
    {
      this.inbox := inbox;
      this.writable := writable;
      pos := 0;
      sent := [];
      writes := 0;
      open := true;
    }

    method Write(b: Bytes) returns (ok: bool)
      requires Valid()
      modifies this`sent, this`writes
      ensures ok <==> old(writes) < writable
      ensures sent == (if ok then old(sent) + b else old(sent)) && writes == if ok then old(writes) + 1 else old(writes)
    {
      ok := writes < writable;
      if ok {
        sent := sent + b;
        writes := writes + 1;
      }
    }

    method ReadFull(n: nat) returns (b: Option<Bytes>)
      requires Valid()
      modifies this`pos
      ensures Valid()
      ensures b == if old(pos) + n <= |inbox| then Some(inbox[old(pos)..old(pos) + n]) else None
      ensures pos == if b.Some? then old(pos) + n else |inbox|
    {
      if pos + n > |inbox| {
        pos := |inbox|;
        return None;
      }
      b := Some(inbox[pos..pos + n]);
      pos := pos + n;
    }

    method Close()
      modifies this`open
      ensures !open
    {
      open := false;
    }
  }

  method ConsumeAddr(conn: Conn, atyp: Byte) returns (ok: bool)
    requires conn.Valid()
    modifies conn`pos
    ensures conn.Valid()
    ensures var end := BoundEnd(old(conn.inbox[conn.pos..]), atyp);
            ok == end.Some? && (ok ==> conn.pos == old(conn.pos) + end.value)
  {
    ghost var left := conn.inbox[conn.pos..];
    if atyp == 1 {
      var skip := conn.ReadFull(4 + 2);
      return skip.Some?;
    }
    if atyp == 4 {
      var skip := conn.ReadFull(16 + 2);
      return skip.Some?;
    }
    if atyp == 3 {
      var dlen := conn.ReadFull(1);
      if dlen.None? {
        return false;
      }
      assert dlen.value[0] == left[0];
      var skip := conn.ReadFull(dlen.value[0] as int + 2);
      return skip.Some?;
    }
    return false;
  }

  /** A name the client turns into an address itself, or leaves to the proxy. */
  datatype Resolution = Literal(ip: Dest) | Local(addrs: Option<seq<Dest>>) | Remote

  predicate ResolutionOk(how: Resolution) {
    match how
    case Literal(ip) => !ip.Domain? && DestOk(ip)
    case Local(Some(addrs)) => forall a | a in addrs :: !a.Domain? && DestOk(a)
    case _ => true
  }

  /** What is asked for, unless the name is too long or does not resolve. */
  function Asked(host: Bytes, how: Resolution): Option<Dest> {
    match how
    case Literal(ip) => Some(ip)
    case Local(addrs) => if addrs.Some? && addrs.value != [] then Some(addrs.value[0]) else None
    case Remote => if |host| <= 255 then Some(Domain(host)) else None
  }

  /** The greeting, the credentials if the server wants them, and the answer to them. */
  method Authenticate(conn: Conn, creds: Option<Creds>) returns (ok: bool)
    requires conn.Valid() && conn.pos == 0 && conn.sent == [] && conn.writes == 0
    modifies conn`pos, conn`sent, conn`writes
    ensures conn.Valid()
    ensures ok ==> AuthDone(conn.inbox, creds, conn.pos) && conn.sent == AuthSent(conn.inbox, creds)
                   && conn.writes == (if PicksAuth(conn.inbox) then 2 else 1) <= conn.writable
    ensures conn.sent == [] || conn.sent == Greeting(creds.Some?)
            || (creds.Some? && CredsOk(creds.value) && conn.sent == Greeting(true) + AuthRequest(creds.value))
    ensures !ok ==> (forall end: nat :: !AuthDone(conn.inbox, creds, end))
                    || (conn.writable < if PicksAuth(conn.inbox) then 2 else 1)
  {
    ok := conn.Write(Greeting(creds.Some?));
    if !ok {
      return false;
    }
    assert conn.sent == Greeting(creds.Some?);
    var choice := conn.ReadFull(2);
    if choice.None? || choice.value[0] != 5 {
      return false;
    }
    if choice.value[1] == 0 {
      return true;
    }
    if choice.value[1] != 2 || creds.None? || |creds.value.user| > 255 || |creds.value.pass| > 255 {
      return false;
    }
    ok := conn.Write(AuthRequest(creds.value));
    if !ok {
      return false;
    }
    var resp := conn.ReadFull(2);
    return resp.Some? && resp.value[0] == 1 && resp.value[1] == 0;
  }

  /** The server has picked an offered method and is done with the credentials at `end`. */
  predicate AuthDone(b: Bytes, creds: Option<Creds>, end: nat) {
    && |b| >= 2 && b[0] == 5
    && (if b[1] == 0 then end == 2
        else b[1] == 2 && creds.Some? && CredsOk(creds.value) && |b| >= 4 && b[2] == 1 && b[3] == 0 && end == 4)
  }

  function AuthSent(b: Bytes, creds: Option<Creds>): Bytes {
    Greeting(creds.Some?) + if PicksAuth(b) && creds.Some? && CredsOk(creds.value) then AuthRequest(creds.value) else []
  }

  method Connect(conn: Conn, q: Request) returns (ok: bool)
    requires conn.Valid() && RequestOk(q)
    modifies conn`pos, conn`sent, conn`writes
    ensures conn.Valid()
    ensures var end := GrantEnd(old(conn.inbox[conn.pos..]));
            && (ok <==> end.Some? && old(conn.writes) < conn.writable)
            && (ok ==> conn.pos == old(conn.pos) + end.value && conn.sent == old(conn.sent) + ConnectRequest(q))
    ensures conn.sent == old(conn.sent) || conn.sent == old(conn.sent) + ConnectRequest(q)
  {
    hide BoundEnd, ConnectRequest;
    ghost var left := conn.inbox[conn.pos..];
    ok := conn.Write(ConnectRequest(q));
    if !ok {
      return false;
    }
    var head := conn.ReadFull(4);
    if head.None? {
      return false;
    }
    assert head.value == left[..4] && conn.inbox[conn.pos..] == left[4..];
    if head.value[0] != 5 || head.value[1] != 0 {
      return false;
    }
    ok := ConsumeAddr(conn, head.value[3]);
  }

  /** The whole handshake. It succeeds exactly when the server's bytes are a script that
      picks an offered method, accepts what it asked for and grants the connection; it has
      then read through BND.PORT and no further, so that the tunnel starts at the next
      byte. In every other case the connection is closed. */
  method Dial(conn: Conn, creds: Option<Creds>, host: Bytes, how: Resolution, port: Option<nat>) returns (ok: bool)
    requires conn.Valid() && conn.pos == 0 && conn.sent == [] && conn.writes == 0 && conn.open
    requires ResolutionOk(how) && (port.Some? ==> port.value < 65536)
    modifies conn
    ensures conn.Valid() && (ok <==> conn.open)
    ensures ok <==> && HandshakeEnd(conn.inbox, creds.Some?).Some?
                    && (PicksAuth(conn.inbox) ==> creds.Some? && CredsOk(creds.value))
                    && port.Some? && Asked(host, how).Some?
                    && conn.writable >= if PicksAuth(conn.inbox) then 3 else 2
    ensures ok ==> Requested(conn.inbox, conn.sent, creds, host, how, port)
    ensures ok ==> && conn.pos == HandshakeEnd(conn.inbox, creds.Some?).value
                   && port.Some? && Asked(host, how).Some? && RequestOk(Request(Asked(host, how).value, port.value))
                   && conn.sent ==
                      AuthSent(conn.inbox, creds) + ConnectRequest(Request(Asked(host, how).value, port.value))
  {
    hide GrantEnd, AuthSent, ConnectRequest, Greeting, AuthRequest, ReadGreeting, ReadAuth, ReadConnect;
    ok := Authenticate(conn, creds);
    EndsTogether(conn.inbox, creds);
    if !ok {
      conn.Close();
      return false;
    }
    if port.None? || Asked(host, how).None? {
      conn.Close();
      return false;
    }
    AskedOk(host, how);
    var q := Request(Asked(host, how).value, port.value);
    ok := Connect(conn, q);
    if !ok {
      conn.Close();
    } else {
      SentReadsBack(conn.inbox, creds, q);
    }
  }

  /** What the server reads in what was sent: the offer, with the method it picked among what
      was offered, the credentials if it asked for them, and a request for the port and the
      right address: a literal as it is, a name resolved here as its first address, and any
      other name as a name. */
  predicate Requested(
      inbox: Bytes, sent: Bytes, creds: Option<Creds>, host: Bytes, how: Resolution, port: Option<nat>)
  {
    && ReadGreeting(sent).Some? && |inbox| >= 2 && inbox[1] in ReadGreeting(sent).value.0
    && var rest := ReadGreeting(sent).value.1;
       && (inbox[1] == 2 ==> ReadAuth(rest).Some? && creds == Some(ReadAuth(rest).value.0))
       && var ask := ReadConnect(if inbox[1] == 2 then ReadAuth(rest).value.1 else rest);
          && ask.Some? && ask.value.1 == [] && port == Some(ask.value.0.port)
          && match how
             case Literal(ip) => ask.value.0.dest == ip
             case Local(addrs) => addrs.Some? && addrs.value != [] && ask.value.0.dest == addrs.value[0]
             case Remote => |host| <= 255 && ask.value.0.dest == Domain(host)
  }

  lemma {:induction false} EndsTogether(b: Bytes, creds: Option<Creds>)
    ensures forall end: nat | AuthDone(b, creds, end) ::
              && end <= |b| && (GrantEnd(b[end..]).Some? <==> HandshakeEnd(b, creds.Some?).Some?)
              && (GrantEnd(b[end..]).Some? ==> HandshakeEnd(b, creds.Some?).value == end + GrantEnd(b[end..]).value)
              && (PicksAuth(b) ==> creds.Some? && CredsOk(creds.value))
    ensures HandshakeEnd(b, creds.Some?).Some? && (PicksAuth(b) ==> creds.Some? && CredsOk(creds.value)) ==>
              AuthDone(b, creds, if PicksAuth(b) then 4 else 2)
  {
    hide GrantEnd;
  }

  lemma {:induction false} AskedOk(host: Bytes, how: Resolution)
    requires ResolutionOk(how) && Asked(host, how).Some?
    ensures DestOk(Asked(host, how).value)
  {
  }

  /** What the client has sent after a success reads back, message by message, as the offer
      it made, its credentials if they were asked for, and the very address and port. */
  lemma {:induction false} SentReadsBack(inbox: Bytes, creds: Option<Creds>, q: Request)
    requires HandshakeEnd(inbox, creds.Some?).Some? && RequestOk(q)
    requires PicksAuth(inbox) ==> creds.Some? && CredsOk(creds.value)
    ensures var sent := AuthSent(inbox, creds) + ConnectRequest(q);
            && ReadGreeting(sent).Some?
            && var (methods, rest) := ReadGreeting(sent).value;
               && inbox[1] in methods
               && if PicksAuth(inbox)
                  then ReadAuth(rest).Some? && ReadAuth(rest).value.0 == creds.value
                       && ReadConnect(ReadAuth(rest).value.1) == Some((q, []))
                  else ReadConnect(rest) == Some((q, []))
  {
    hide Greeting, AuthRequest, ConnectRequest, ReadGreeting, ReadAuth, ReadConnect, GrantEnd;
    var ask := ConnectRequest(q);
    assert ask + [] == ask;
    ConnectReadsBack(q, []);
    if PicksAuth(inbox) {
      var auth := AuthRequest(creds.value);
      assert Greeting(true) + auth + ask == Greeting(true) + (auth + ask);
      GreetingReadsBack(true, auth + ask);
      AuthReadsBack(creds.value, ask);
    } else {
      assert Greeting(creds.Some?) + [] + ask == Greeting(creds.Some?) + ask;
      GreetingReadsBack(creds.Some?, ask);
    }
  }
}

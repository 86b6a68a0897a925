/** Who owns the peer socket: collecting the rows of a socket table with an early stop,
    the two platform lookups, and the verdict drawn from at most two of them. */
module PeerLookup {
  import opened Prelude
  import opened PcbList
  import opened PcbStream

  type Found = map<SockKey, SockInfo>

  // ----- The collector -----

  /** A live row wins over an orphan one; otherwise the first row stays. */
  function Record(found: Found, want: set<SockKey>, row: Row): Found {
    if row.key in want && (row.key !in found || (found[row.key].orphan && !row.info.orphan))
    then found[row.key := row.info] else found
  }

  function Collect(rows: seq<Row>, want: set<SockKey>): Found {
    if rows == [] then map[] else Record(Collect(rows[..|rows| - 1], want), want, rows[|rows| - 1])
  }

  function LiveKeys(found: Found): set<SockKey> {
    set k | k in found && !found[k].orphan
  }

  predicate Complete(found: Found, want: set<SockKey>) {
    forall k | k in want :: k in found && !found[k].orphan
  }

  class RowSet {
    const want: set<SockKey>
    var found: Found
    var live: nat

    /** `live` counts the wanted keys that hold a live row. */
    ghost predicate Valid()
      reads this
    {
      found.Keys <= want && live == |LiveKeys(found)|
    }

    constructor (keys: seq<SockKey>)
      ensures Valid() && found == map[] && want == (set k | k in keys)
    {
      want := set k | k in keys;
      found := map[];
      live := 0;
    }

    method Add(row: Row) returns (more: bool)
      requires Valid()
      modifies this
      ensures Valid() && found == Record(old(found), want, row)
      ensures more <==> !Complete(found, want)
    {
      if row.key in want {
        if row.key !in found || (found[row.key].orphan && !row.info.orphan) {
          ghost var before := found;
          found := found[row.key := row.info];
          if !row.info.orphan {
            live := live + 1;
            assert LiveKeys(found) == LiveKeys(before) + {row.key};
          } else {
            assert LiveKeys(found) == LiveKeys(before);
          }
        }
      }
      CompleteByCount(found, want);
      more := live != |want|;
    }
  }

  /** Counting live rows is enough to tell that every wanted key has one. */
  lemma {:induction false} CompleteByCount(found: Found, want: set<SockKey>)
    requires found.Keys <= want
    ensures Complete(found, want) <==> |LiveKeys(found)| == |want|
  {
    var l := LiveKeys(found);
    assert l <= want && |want - l| == |want| - |l|;
    if |l| == |want| {
      assert want - l == {};
    }
    if Complete(found, want) {
      assert want - l == {};
    }
  }

  /** What a table says about a key: its first live row, or its first row. */
  function FirstLive(rows: seq<Row>, k: SockKey): Option<SockInfo> {
    if rows == [] then None
    else if rows[0].key == k && !rows[0].info.orphan then Some(rows[0].info)
    else FirstLive(rows[1..], k)
  }

  function First(rows: seq<Row>, k: SockKey): Option<SockInfo> {
    if rows == [] then None else if rows[0].key == k then Some(rows[0].info) else First(rows[1..], k)
  }

  function Answer(rows: seq<Row>, k: SockKey): Option<SockInfo> {
    if FirstLive(rows, k).Some? then FirstLive(rows, k) else First(rows, k)
  }

  lemma {:induction false} AnswerExtends(rows: seq<Row>, row: Row, k: SockKey)
    ensures FirstLive(rows + [row], k) ==
            if FirstLive(rows, k).Some? then FirstLive(rows, k)
            else if row.key == k && !row.info.orphan then Some(row.info) else None
    ensures First(rows + [row], k) ==
            if First(rows, k).Some? then First(rows, k) else if row.key == k then Some(row.info) else None
    decreases |rows|
  {
    if rows == [] {
      assert rows + [row] == [row] && [row][1..] == [];
    } else {
      assert (rows + [row])[1..] == rows[1..] + [row];
      AnswerExtends(rows[1..], row, k);
    }
  }

  lemma {:induction false} AnswerIsLive(rows: seq<Row>, k: SockKey)
    ensures FirstLive(rows, k).Some? ==> !FirstLive(rows, k).value.orphan && Row(k, FirstLive(rows, k).value) in rows
    ensures FirstLive(rows, k).None? ==> forall row | row in rows && row.key == k :: row.info.orphan
    ensures FirstLive(rows, k).Some? ==> First(rows, k).Some?
    ensures First(rows, k).Some? ==> Row(k, First(rows, k).value) in rows
    ensures First(rows, k).None? ==> forall row | row in rows :: row.key != k
    decreases |rows|
  {
    if rows != [] {
      AnswerIsLive(rows[1..], k);
      assert rows[0] == Row(rows[0].key, rows[0].info);
    }
  }

  /** Collecting every row leaves, for each wanted key, what the table says about it. */
  lemma {:induction false} CollectAnswers(rows: seq<Row>, want: set<SockKey>)
    ensures var m := Collect(rows, want);
            m.Keys <= want && forall k | k in want :: (if k in m then Some(m[k]) else None) == Answer(rows, k)
    decreases |rows|
  {
    if rows != [] {
      var n := |rows| - 1;
      CollectAnswers(rows[..n], want);
      assert rows == rows[..n] + [rows[n]];
      forall k | k in want
        ensures var m := Collect(rows, want); (if k in m then Some(m[k]) else None) == Answer(rows, k)
      {
        AnswerExtends(rows[..n], rows[n], k);
        AnswerIsLive(rows[..n], k);
      }
    }
  }

  /** Once every wanted key has a live row, further rows change nothing. */
  lemma {:induction false} CompleteIsFinal(rows: seq<Row>, more: seq<Row>, want: set<SockKey>)
    requires Complete(Collect(rows, want), want)
    ensures Collect(rows + more, want) == Collect(rows, want)
    decreases |more|
  {
    if more == [] {
      assert rows + more == rows;
    } else {
      var n := |more| - 1;
      CompleteIsFinal(rows, more[..n], want);
      var all := rows + more;
      assert all[..|all| - 1] == rows + more[..n] && all[|all| - 1] == more[n];
    }
  }

  // ----- Linux -----

  /** An open table ends cleanly or at a row that does not parse. */
  datatype Table = Missing(notExist: bool) | Table(rows: seq<Row>, broken: bool)

  datatype Lookup = Failed | Rows(found: Found)

  /** One table read row by row until the collector has all it wants. */
  method Scan(rows: seq<Row>, broken: bool, into: RowSet, ghost before: seq<Row>) returns (ok: bool)
    requires into.Valid() && into.found == Collect(before, into.want)
    modifies into
    ensures into.Valid()
    ensures ok ==> into.found == Collect(before + rows, into.want)
    ensures ok <==> (!broken || (rows != [] && Complete(Collect(before + rows, into.want), into.want)))
  {
    var i := 0;
    assert before + rows[..0] == before;
    while i < |rows|
      invariant i <= |rows| && into.Valid() && into.found == Collect(before + rows[..i], into.want)
      invariant i > 0 ==> !Complete(into.found, into.want)
    {
      ghost var read := before + rows[..i + 1];
      assert read[..|read| - 1] == before + rows[..i] && read[|read| - 1] == rows[i];
      var more := into.Add(rows[i]);
      if !more {
        CompleteIsFinal(read, rows[i + 1..], into.want);
        assert read + rows[i + 1..] == before + rows;
        return true;
      }
      i := i + 1;
    }
    assert rows[..i] == rows;
    ok := !broken;
  }

  /** /proc/net/tcp, then /proc/net/tcp6 unless the first already answered everything. */
  method LinuxLookup(keys: seq<SockKey>, tcp: Table, tcp6: Table) returns (r: Lookup)
    requires keys != []
    ensures var want := set k | k in keys;
            var all := tcp.Table? && tcp6.Table?;
            && (r.Rows? ==> tcp.Table? && r.found == Collect(tcp.rows + if tcp6.Table? then tcp6.rows else [], want))
            && (r.Failed? <==>
                  (tcp.Missing? ||
                   (!Complete(Collect(tcp.rows, want), want) &&
                    (tcp.broken || (if tcp6.Missing? then !tcp6.notExist
                                    else tcp6.broken && !Complete(Collect(tcp.rows + tcp6.rows, want), want))))))
  {
    ghost var want := set k | k in keys;
    assert keys[0] in want;
    var rows := new RowSet(keys);
    if tcp.Missing? {
      return Failed;
    }
    assert [] + tcp.rows == tcp.rows;
    var ok := Scan(tcp.rows, tcp.broken, rows, []);
    if !ok {
      return Failed;
    }
    CompleteByCount(rows.found, rows.want);
    if rows.live == |rows.want| {
      if tcp6.Table? {
        CompleteIsFinal(tcp.rows, tcp6.rows, want);
      }
      assert tcp.rows + [] == tcp.rows;
      return Rows(rows.found);
    }
    if tcp6.Missing? {
      assert tcp.rows + [] == tcp.rows;
      return if tcp6.notExist then Rows(rows.found) else Failed;
    }
    assert tcp6.rows == [] ==> tcp.rows + tcp6.rows == tcp.rows;
    ok := Scan(tcp6.rows, tcp6.broken, rows, tcp.rows);
    return if ok then Rows(rows.found) else Failed;
  }

  // ----- Darwin -----

  /** The collector as a visitor of the parser: it sees all the rows visited so far. */
  function Collector(want: set<SockKey>): seq<Row> -> bool {
    (rows: seq<Row>) => !Complete(Collect(rows, want), want)
  }

  function DarwinLookup(want: set<SockKey>, buf: Bytes): Lookup {
    var out := Parse(buf, Collector(want));
    if out.err then Failed else Rows(Collect(out.visited, want))
  }

  /** However early the parse stops, the lookup is that of a scan of all the sockets. */
  lemma {:induction false} DarwinLookupIsFullScan(
      want: set<SockKey>, gs: seq<Group>, socks: seq<Sock>, fs: seq<Filler>, count: Bytes)
    requires |gs| == |socks| == |fs| && |count| == 20
    requires forall i | 0 <= i < |gs| :: SockOk(socks[i]) && FillerOk(fs[i]) && Describes(gs[i], socks[i], fs[i])
    ensures DarwinLookup(want, Encode(gs, count)) == Rows(Collect(RowsOfSocks(socks), want))
  {
    hide SockOk, FillerOk, Describes, Encode, Parse, RowsOfSocks;
    var go := Collector(want);
    ParseInvertsEncode(gs, socks, fs, count, go);
    var out, rows := Parse(Encode(gs, count), go), RowsOfSocks(socks);
    if out.visited != rows {
      CompleteIsFinal(out.visited, rows[|out.visited|..], want);
      assert out.visited + rows[|out.visited|..] == rows;
    }
  }

  // ----- The verdict -----

  datatype Verdict = LookupFailed | Misread | Orphaned | NotFound | Uid(uid: nat)

  /** Two kernel snapshots stand for the at most two lookups. */
  method PeerUID(local: AddrPort, remote: AddrPort, self: nat, snapshots: seq<Lookup>)
    returns (v: Verdict, calls: nat)
    requires |snapshots| == 2
    ensures 1 <= calls <= 2
    ensures var ours, peer := NewSockKey(local, remote), NewSockKey(remote, local);
            var last := snapshots[calls - 1];
            && (calls == 2 ==> snapshots[0].Rows? && peer !in snapshots[0].found
                               && (ours in snapshots[0].found ==>
                                     snapshots[0].found[ours].orphan || snapshots[0].found[ours].uid == self))
            && (v.LookupFailed? <==> last.Failed?)
            && (last.Rows? ==>
                  var own := ours in last.found && !last.found[ours].orphan && last.found[ours].uid != self;
                  && (v.Misread? <==> own)
                  && (v.NotFound? <==> !own && peer !in last.found)
                  && (v.NotFound? ==> calls == 2)
                  && (v.Orphaned? <==> !own && peer in last.found && last.found[peer].orphan)
                  && (v.Uid? ==> !own && peer in last.found && last.found[peer] == SockInfo(v.uid, false)))
  {
    var ours := NewSockKey(local, remote);
    var peer := NewSockKey(remote, local);
    var attempt := 0;
    while true
      invariant 0 <= attempt <= 1
      invariant attempt == 1 ==> snapshots[0].Rows? && peer !in snapshots[0].found
      invariant attempt == 1 && ours in snapshots[0].found ==>
                  snapshots[0].found[ours].orphan || snapshots[0].found[ours].uid == self
      decreases 1 - attempt
    {
      var rows := snapshots[attempt];
      calls := attempt + 1;
      if rows.Failed? {
        return LookupFailed, calls;
      }
      if ours in rows.found && !rows.found[ours].orphan && rows.found[ours].uid != self {
        return Misread, calls;
      }
      if peer in rows.found {
        var p := rows.found[peer];
        return if p.orphan then Orphaned else Uid(p.uid), calls;
      }
      if attempt == 1 {
        return NotFound, calls;
      }
      attempt := attempt + 1;
    }
  }

  /** A uid is only ever read off the peer's first live row, and only from a table whose
      first live row for our own socket, if it has one, shows our own uid. */
  method PeerUIDFromTables(local: AddrPort, remote: AddrPort, self: nat, t0: seq<Row>, t1: seq<Row>)
    returns (v: Verdict)
    ensures var ours, peer := NewSockKey(local, remote), NewSockKey(remote, local);
            v.Uid? ==>
              exists t | t in {t0, t1} ::
                && FirstLive(t, peer) == Some(SockInfo(v.uid, false)) && Row(peer, SockInfo(v.uid, false)) in t
                && (FirstLive(t, ours).Some? ==> FirstLive(t, ours).value.uid == self)
    ensures var ours, peer := NewSockKey(local, remote), NewSockKey(remote, local);
            v.NotFound? ==> forall row | row in t0 + t1 :: row.key != peer
    ensures NewSockKey(local, remote) == NewSockKey(remote, local) && v.Uid? ==> v.uid == self
    ensures v.Uid? ==>
              exists row | row in t0 + t1 ::
                && row.info == SockInfo(v.uid, false)
                && row.key.local.port == remote.port && row.key.remote.port == local.port
                && row.key.local.addr == Unmap(remote.addr) && row.key.remote.addr == Unmap(local.addr)
    ensures var ours, peer := NewSockKey(local, remote), NewSockKey(remote, local);
            FirstLive(t0, peer).Some? && (FirstLive(t0, ours).Some? ==> FirstLive(t0, ours).value.uid == self) ==>
              v == Uid(FirstLive(t0, peer).value.uid)
  {
    hide Unmap;
    var ours, peer := NewSockKey(local, remote), NewSockKey(remote, local);
    var want := {peer, ours};
    var s0, s1 := Rows(Collect(t0, want)), Rows(Collect(t1, want));
    var calls;
    v, calls := PeerUID(local, remote, self, [s0, s1]);
    CollectAnswers(t0, want);
    CollectAnswers(t1, want);
    forall t, k | t in {t0, t1} && k in want
      ensures FirstLive(t, k).Some? ==> Row(k, FirstLive(t, k).value) in t && !FirstLive(t, k).value.orphan
      ensures First(t, k).Some? ==> Row(k, First(t, k).value) in t
      ensures First(t, k).None? ==> forall row | row in t :: row.key != k
      ensures FirstLive(t, k).None? ==> forall row | row in t && row.key == k :: row.info.orphan
    {
      AnswerIsLive(t, k);
    }
    ghost var t := if calls == 1 then t0 else t1;
    assert t in {t0, t1};
    assert v.Uid? ==> Answer(t, peer) == Some(SockInfo(v.uid, false));
    if v.Uid? {
      var row := Row(peer, SockInfo(v.uid, false));
      assert row in t && row in t0 + t1;
    }
  }

  /** Two rows between the same two ports are told apart by who is local: our own row never
      answers for the peer, unless a socket is connected to itself. */
  lemma {:induction false} OursIsNotThePeer(local: AddrPort, remote: AddrPort)
    ensures NewSockKey(local, remote) == NewSockKey(remote, local) <==>
            local.port == remote.port && Unmap(local.addr) == Unmap(remote.addr)
  {
    hide Unmap, NewSockKey;
    KeysEqualIff(local, remote, remote, local);
  }
}

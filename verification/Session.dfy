/**
 * The session and connection objects as the code has them (pkg/remotedialer/session.go and
 * connection.go): fields updated in place, one call at a time.  Each method is proved against a
 * function on `Tunnel.End`; the lemmas named `...IsARun` show that such a call is one of the runs
 * of the step system, so what holds over all runs holds of these methods.
 */
module Sessions {
  import opened Prelude
  import opened Connections
  import opened Tunnel

  // --- the calls, run without interruption ---

  function CloseNow(e: End, up: bool, id: int, f: Fault): End {
    if id !in e.table then e
    else
      var e1 := Emit(e.(table := e.table - {id}), up, Error(id, f));
      if id in e1.conns then Put(e1, id, Shut(e1.conns[id], Some(f))) else e1
  }

  /** A frame's reader that fails after `left` more bytes. */
  datatype Break = Break(left: nat, fault: Fault)

  /** The next chunk of io.Copy: what is left of the frame, of its reader and of the buffer, whichever is least. */
  function ChunkSize(rest: seq<Byte>, size: nat, broken: Option<Break>): (n: nat)
    requires size > 0
    ensures n <= |rest| && (rest != [] && (broken.None? || broken.value.left > 0) ==> n > 0)
  {
    var n := Min(size, |rest|);
    if broken.Some? then Min(n, broken.value.left) else n
  }

  function AfterReading(broken: Option<Break>, n: nat): Option<Break> {
    if broken.Some? && n <= broken.value.left then Some(broken.value.(left := broken.value.left - n)) else broken
  }

  /** io.Copy of a Data frame into the queue: until its end, a refused chunk or a failing reader. */
  function CopyNow(e: End, up: bool, id: int, rest: seq<Byte>, size: nat, broken: Option<Break>): End
    requires id in e.conns && size > 0
    decreases |rest|
  {
    if broken.Some? && broken.value.left == 0 then CloseNow(e, up, id, broken.value.fault)
    else if rest == [] then e
    else
      var n := ChunkSize(rest, size, broken);
      var (c, refused) := Offer(e.conns[id], rest[..n]);
      if refused.None? then CopyNow(Put(e, id, c), up, id, rest[n..], size, AfterReading(broken, n))
      else CloseNow(e, up, id, refused.value)
  }

  /** serveMessage for Data and Error frames. */
  function ServeNow(e: End, up: bool, f: Frame, size: nat, broken: Option<Break>): End
    requires !f.Connect? && size > 0 && e.table <= e.conns.Keys
  {
    if f.Error? then CloseNow(e, up, f.id, f.fault)
    else if f.id in e.table then CopyNow(e, up, f.id, f.payload, size, broken)
    else Emit(e, up, Error(f.id, NotFound))
  }

  /** session.Close: every entry closed, in this order. */
  function CloseAllNow(e: End, up: bool, ids: seq<int>): End {
    if ids == [] then e
    else CloseNow(CloseAllNow(e, up, ids[..|ids| - 1]), up, ids[|ids| - 1], Disconnect)
  }

  /** The members of a set in some order, each once. */
  ghost predicate Listed(ids: seq<int>, all: set<int>) {
    (forall x :: x in ids <==> x in all) && forall i, j :: 0 <= i < j < |ids| ==> ids[i] != ids[j]
  }

  lemma ListedMore(ids: seq<int>, all: set<int>, id: int)
    requires Listed(ids, all) && id !in all
    ensures Listed(ids + [id], all + {id})
  {}

  lemma CloseAllSnoc(e: End, up: bool, ids: seq<int>, id: int)
    ensures CloseAllNow(e, up, ids + [id]) == CloseNow(CloseAllNow(e, up, ids), up, id, Disconnect)
  {
    assert (ids + [id])[..|ids|] == ids;
  }

  /** It empties the table, closes the queue of every entry, announces each one unless the link has
      failed, and touches no other connection. */
  lemma {:induction false} CloseAllDoes(e: End, up: bool, ids: seq<int>, id: int)
    requires e.table <= e.conns.Keys
    ensures var r := CloseAllNow(e, up, ids);
      && r.table == e.table - (set k | k in ids) && r.conns.Keys == e.conns.Keys
      && (id in e.conns ==> r.conns[id] == if id in ids && id in e.table then Shut(e.conns[id], Some(Disconnect)) else e.conns[id])
      && e.out <= r.out && (up && id in ids && id in e.table ==> Error(id, Disconnect) in r.out)
    decreases |ids|
  {
    if ids != [] {
      var (init, last) := (ids[..|ids| - 1], ids[|ids| - 1]);
      CloseAllDoes(e, up, init, id);
      CloseAllDoes(e, up, init, last);
      assert ids == init + [last];
      assert (set k | k in ids) == (set k | k in init) + {last};
    }
  }

  // --- the objects ---

  class Connection {
    const connID: int
    var err: Option<Fault>
    var items: seq<seq<Byte>>    // what the channel `buf` holds
    var closed: bool             // the channel has been closed
    var readBuf: seq<Byte>
    ghost var accepted: seq<Byte>
    ghost var delivered: seq<Byte>
    ghost var written: seq<Byte>

    ghost function View(): Conn
      reads this
    {
      Conn(items, readBuf, err, if closed then 1 else 0, false, accepted, delivered, written)
    }

    /** The channel is closed exactly when the error is set; the byte account of `ConnOk` follows
        from the functions the methods are proved against. */
    ghost predicate Valid()
      reads this
    {
      (err.Some? <==> closed) && |items| <= QUEUE_SLOTS
    }

    constructor (id: int)
      ensures Valid() && View() == Fresh && connID == id
    {
      connID := id;
      err, items, closed, readBuf := None, [], false, [];
      accepted, delivered, written := [], [], [];
    }

    /** The first call closes the channel; the assertion is Go's rule that a channel is closed once. */
    method DoTunnelClose(e: Option<Fault>)
      requires Valid()
      modifies this
      ensures Valid() && View() == Shut(old(View()), e)
      ensures err == if old(err).Some? then old(err) else if e.Some? then e else Some(ClosedPipe)
    {
      if err.Some? { return; }
      err := e;
      if err.None? { err := Some(ClosedPipe); }
      assert !closed;
      closed := true;
    }

    /** chanWriter.Write; the assertion is Go's rule that a closed channel takes no value. */
    method ChanWrite(chunk: seq<Byte>) returns (n: nat, failure: Option<Fault>)
      requires Valid()
      modifies this
      ensures Valid() && View() == Offer(old(View()), chunk).0 && failure == Offer(old(View()), chunk).1
      ensures failure.Some? <==> old(err).Some? || |old(items)| == 1024
      ensures failure.Some? ==> failure == if old(err).Some? then old(err) else Some(BackedUp)
      ensures n == if failure.None? then |chunk| else 0
      ensures items == if failure.None? then old(items) + [chunk] else old(items)
    {
      if err.Some? { return 0, err; }
      if |items| < QUEUE_SLOTS {
        assert !closed;
        items, accepted := items + [chunk], accepted + chunk;
        return |chunk|, None;
      }
      return 0, Some(BackedUp);
    }

    /** Copies the front of readBuf into b, byte by byte. */
    method CopyData(b: array<Byte>) returns (n: nat)
      modifies this, b
      ensures View() == Connections.CopyData(old(View()), b.Length)
      ensures n == |Prefix(old(readBuf), b.Length)| && b[..n] == Prefix(old(readBuf), b.Length)
      ensures b[n..] == old(b[n..])
    {
      n := 0;
      while n < b.Length && n < |readBuf|
        invariant 0 <= n <= b.Length && n <= |readBuf|
        invariant b[..n] == readBuf[..n] && b[n..] == old(b[n..]) && View() == old(View())
      {
        b[n] := readBuf[n];
        n := n + 1;
        assert b[..n] == readBuf[..n];
      }
      assert Prefix(readBuf, b.Length) == readBuf[..n];
      delivered := delivered + readBuf[..n];
      readBuf := readBuf[n..];
    }

    method Read(b: array<Byte>) returns (r: ReadResult)
      requires Valid()
      modifies this, b
      ensures Valid() && View() == Receive(old(View()), b.Length).0 && r == Receive(old(View()), b.Length).1
      ensures r.Got? ==> b[..|r.data|] == r.data && b[|r.data|..] == old(b[|r.data|..])
      ensures !r.Got? ==> b[..] == old(b[..])
    {
      if b.Length == 0 { return Got([]); }
      if readBuf != [] {
        var n := CopyData(b);
        return Got(b[..n]);
      }
      if items == [] {
        if !closed { return Blocked; }
        return Failed(if err.Some? then err.value else Eof);
      }
      readBuf, items := items[0], items[1..];
      var n := CopyData(b);
      r := Got(b[..n]);
    }
  }

  class Session {
    var conns: map<int, Connection>       // the table
    var nextConnID: int
    var up: bool                          // the websocket has not failed
    var wire: seq<Frame>                  // frames written to it
    ghost var all: map<int, Connection>   // every connection ever made
    ghost var linked: set<int>

    ghost predicate Valid()
      reads this, all.Values
    {
      && conns.Keys <= all.Keys
      && (forall id :: id in conns ==> conns[id] == all[id])
      && (forall id :: id in all ==> all[id].connID == id && all[id].Valid())
    }

    ghost function Values(): map<int, Conn>
      reads this`all, all.Values
    {
      map id | id in all :: all[id].View()
    }

    ghost function View(): End
      reads this, all.Values
    {
      End(Values(), conns.Keys, {}, linked, [], Idle, false, wire)
    }

    /** Frame: when the only connection touched is `id`, only its value changes. */
    twostate lemma OnlyOne(id: int)
      requires old(Valid()) && all == old(all) && id in all && all[id].Valid()
      requires forall j :: j in all && j != id ==> unchanged(all[j])
      requires conns.Keys <= old(conns).Keys && forall i :: i in conns ==> conns[i] == all[i]
      ensures Valid() && Values() == old(Values())[id := all[id].View()]
    {
      forall j | j in all && j != id ensures all[j].View() == old(all[j].View()) && all[j].Valid() {
        assert unchanged(all[j]);
      }
    }

    /** Frame: a new connection enters beside the others. */
    twostate lemma OneMore(id: int, new c: Connection)
      requires old(Valid()) && fresh(c) && c.Valid() && c.connID == id && all == old(all)[id := c] && conns == old(conns)[id := c]
      requires forall o :: o in old(all).Values ==> unchanged(o)
      ensures Valid() && Values() == old(Values())[id := c.View()]
    {
      var (now, was) := (Values(), old(Values())[id := c.View()]);
      assert now.Keys == was.Keys;
      forall j | j in all ensures now[j] == was[j] && all[j].connID == j && all[j].Valid() {
        if j != id {
          var o := old(all)[j];
          assert all[j] == o && o in old(all).Values && unchanged(o);
        }
      }
    }

    constructor ()
      ensures Valid() && View() == NewEnd && nextConnID == 1 && up
    {
      conns, nextConnID, up, wire := map[], 1, true, [];
      all, linked := map[], {};
    }

    /** message.WriteTo for an Error frame: it goes out unless the link has failed. */
    method WriteError(id: int, f: Fault)
      modifies this`wire
      ensures View() == Emit(old(View()), up, Error(id, f))
    {
      if up { wire := wire + [Error(id, f)]; }
    }

    /** connection.Write: refused once the sticky error is set. */
    method Write(conn: Connection, id: int, data: seq<Byte>) returns (n: nat, failure: Option<Fault>)
      requires Valid() && id in all && conn == all[id]
      modifies this`wire, conn
      ensures Valid()
      ensures old(conn.err).Some? ==> n == 0 && failure == old(conn.err) && View() == old(View())
      ensures old(conn.err).None? ==> n == |data| && View() == Emit(old(View()), up, Data(id, data))
      ensures old(conn.err).None? ==> (failure.None? <==> up)
    {
      if conn.err.Some? { return 0, conn.err; }
      if up {
        wire := wire + [Data(id, data)];
        conn.written := conn.written + data;
        OnlyOne(id);
        return |data|, None;
      }
      return |data|, Some(ClosedPipe);
    }

    method CloseConnection(id: int, f: Fault)
      requires Valid()
      modifies this`conns, this`wire, (if id in conns then {conns[id]} else {})
      ensures Valid() && View() == CloseNow(old(View()), up, id, f) && conns == old(conns) - {id}
      ensures up == old(up) && all == old(all)
    {
      if id in conns {
        var conn := conns[id];
        conns := conns - {id};
        WriteError(id, f);
        conn.DoTunnelClose(Some(f));
        OnlyOne(id);
      } else {
        assert conns - {id} == conns;
      }
    }

    /** newConnection and its table entry, as clientConnect and serverConnect begin. */
    method Register(id: int) returns (c: Connection)
      requires Valid()
      modifies this`conns, this`all
      ensures Valid() && fresh(c) && c.View() == Fresh && conns == old(conns)[id := c] && all == old(all)[id := c]
      ensures View() == old(View()).(conns := old(View()).conns[id := Fresh], table := old(View()).table + {id})
    {
      c := new Connection(id);
      conns, all := conns[id := c], all[id := c];
      OneMore(id, c);
    }

    /** The Connect frame of a connection just registered; it is closed again if the link has failed. */
    method WriteConnect(id: int)
      requires Valid() && id in conns
      modifies this`conns, this`wire, this`linked, conns[id]
      ensures Valid() && up == old(up)
      ensures var e := old(View());
              View() == if up then e.(linked := e.linked + {id}, out := e.out + [Connect(id)]) else CloseNow(e, up, id, ClosedPipe)
    {
      if up {
        wire, linked := wire + [Connect(id)], linked + {id};
      } else {
        CloseConnection(id, ClosedPipe);
      }
    }

    /** serverConnect: a new id, a table entry, then the Connect frame; undone if the link has failed. */
    method ServerConnect() returns (conn: Connection?, id: int)
      requires Valid()
      modifies this
      ensures Valid() && id == nextConnID == old(nextConnID) + 1 && up == old(up)
      ensures conn != null <==> up
      ensures var e := old(View()).(conns := old(View()).conns[id := Fresh], table := old(View()).table + {id});
              View() == if up then e.(linked := e.linked + {id}, out := e.out + [Connect(id)])
                        else CloseNow(e, up, id, ClosedPipe)
    {
      nextConnID := nextConnID + 1;
      id := nextConnID;
      var c := Register(id);
      WriteConnect(id);
      conn := if up then c else null;
    }

    /** One chunk of io.Copy. */
    method CopyChunkIn(id: int, chunk: seq<Byte>) returns (failure: Option<Fault>)
      requires Valid() && id in conns
      modifies conns[id]
      ensures Valid() && failure == Offer(old(View()).conns[id], chunk).1
      ensures View() == Put(old(View()), id, Offer(old(View()).conns[id], chunk).0)
    {
      var _, f := conns[id].ChanWrite(chunk);
      OnlyOne(id);
      failure := f;
    }

    /** One turn of io.Copy: the chunk is queued, or refused and the connection closed. */
    method CopyTurn(id: int, rest: seq<Byte>, size: nat, broken: Option<Break>) returns (n: nat, go: bool)
      requires Valid() && size > 0 && id in conns && rest != [] && !(broken.Some? && broken.value.left == 0)
      modifies this`conns, this`wire, conns[id]
      ensures Valid() && all == old(all) && up == old(up) && id in View().conns && 0 < n <= |rest|
      ensures go ==> conns == old(conns)
      ensures CopyNow(old(View()), up, id, rest, size, broken) ==
        if go then CopyNow(View(), up, id, rest[n..], size, AfterReading(broken, n)) else View()
    {
      n := ChunkSize(rest, size, broken);
      ghost var before := View();
      var failure := CopyChunkIn(id, rest[..n]);
      go := failure.None?;
      if !go {
        assert View() == before;
        CloseConnection(id, failure.value);
      }
    }

    /** io.Copy of a Data frame into the connection's queue; `reader` says when the frame's reader fails. */
    method CopyIn(id: int, payload: seq<Byte>, size: nat, reader: Option<Break>)
      requires Valid() && size > 0 && id in conns
      modifies this`conns, this`wire, conns[id]
      ensures Valid() && View() == CopyNow(old(View()), up, id, payload, size, reader)
    {
      var rest, broken := payload, reader;
      ghost var goal, link := CopyNow(View(), up, id, payload, size, reader), up;
      while rest != [] && !(broken.Some? && broken.value.left == 0)
        invariant Valid() && conns == old(conns) && all == old(all) && up == link && id in View().conns
        invariant CopyNow(View(), link, id, rest, size, broken) == goal
        decreases |rest|
      {
        var n, go := CopyTurn(id, rest, size, broken);
        if !go { return; }
        rest, broken := rest[n..], AfterReading(broken, n);
      }
      if broken.Some? && broken.value.left == 0 { CloseConnection(id, broken.value.fault); }
    }

    /** The next entry the map is ranged over. */
    method CloseNext(ghost start: End, ghost order: seq<int>, ghost entries: set<int>) returns (id: int)
      requires Valid() && conns.Keys != {} && View() == CloseAllNow(start, up, order)
      requires conns.Keys <= entries && Listed(order, entries - conns.Keys)
      modifies this`conns, this`wire, conns.Values
      ensures Valid() && View() == CloseAllNow(start, up, order + [id])
      ensures id in old(conns) && conns == old(conns) - {id} && up == old(up)
      ensures Listed(order + [id], entries - conns.Keys)
    {
      id := AnyOf(conns.Keys);
      assert conns[id] in conns.Values;
      CloseAllSnoc(start, up, order, id);
      ListedMore(order, entries - conns.Keys, id);
      assert entries - (conns.Keys - {id}) == entries - conns.Keys + {id};
      CloseConnection(id, Disconnect);
      assert conns.Keys == old(conns).Keys - {id};
    }

    /** session.Close: closes every entry, in the order the map is ranged over, and empties the table. */
    method Close() returns (ghost order: seq<int>)
      requires Valid()
      modifies this`conns, this`wire, conns.Values
      ensures Valid() && View() == CloseAllNow(old(View()), up, order)
      ensures Listed(order, old(conns).Keys)
      ensures conns == map[]
    {
      order := [];
      ghost var start, link, entries := View(), up, conns.Keys;
      while conns.Keys != {}
        invariant Valid() && conns.Values <= old(conns).Values && conns.Keys <= entries
        invariant up == link && View() == CloseAllNow(start, link, order)
        invariant Listed(order, entries - conns.Keys)
        decreases conns.Keys
      {
        var id := CloseNext(start, order, entries);
        order := order + [id];
      }
      assert entries - conns.Keys == entries;
    }

    /** serveMessage; true when serve() has to stop because the Connect is not allowed. */
    method ServeMessage(f: Frame, allowed: bool, size: nat, reader: Option<Break>) returns (stop: bool)
      requires Valid() && size > 0
      modifies this`conns, this`wire, this`all, this`linked, (if f.id in conns then {conns[f.id]} else {})
      ensures Valid() && (stop <==> f.Connect? && !allowed)
      ensures stop ==> View() == old(View())
      ensures f.Connect? && allowed ==> View() == Accept(old(View()), f).(threads := [])
      ensures !f.Connect? ==> View() == ServeNow(old(View()), up, f, size, reader)
    {
      stop := false;
      if f.Connect? {
        if !allowed { return true; }
        var _ := Register(f.id);
        linked := linked + {f.id};
      } else if f.Error? {
        CloseConnection(f.id, f.fault);
      } else if f.id !in conns {
        WriteError(f.id, NotFound);
      } else {
        CopyIn(f.id, f.payload, size, reader);
      }
    }
  }

  // --- an uninterrupted call is a run ---

  /** `e` with finished goroutines listed after those of `base`. */
  predicate SameWork(e: End, want: End, base: End) {
    && e == want.(threads := e.threads)
    && |e.threads| >= |base.threads| && e.threads[..|base.threads|] == base.threads
    && forall i :: |base.threads| <= i < |e.threads| ==> e.threads[i] == []
  }

  /** closeConnection, from the table removal to the closed queue. */
  lemma TailIsARun(s: State, side: Side, id: int, f: Fault) returns (run: seq<Label>)
    requires id in s.At(side).conns && id in s.At(side).table
    ensures var (e, r) := (s.At(side), After(s.With(side, Remove(s.At(side), id, f)), run));
            && r == s.With(side, r.At(side))
            && SameWork(r.At(side), CloseNow(e, s.up, id, f), e)
  {
    var e := s.At(side);
    var t := |e.threads|;
    var l := Run(side, t, true, Eof);
    run := [l, l];
    var s0 := s.With(side, Remove(e, id, f));
    var s1 := Next(s0, l);
    assert s0.At(side).threads[t] == Tail(id, f);
    assert s1.At(side).threads[t] == [Fin(id, f)];
    var s2 := Next(s1, l);
    assert run[1..] == [l] && [l][1..] == [];
    assert After(s0, run) == After(s1, [l]) == s2;
  }

  /** closeConnection by the serve loop. */
  lemma DropIsARun(s: State, side: Side) returns (run: seq<Label>)
    requires s.At(side).loop.Failing? && s.At(side).loop.id in s.At(side).conns
    ensures var (e, r) := (s.At(side), After(s, run));
            && r == s.With(side, r.At(side))
            && SameWork(r.At(side), CloseNow(e.(loop := Idle), s.up, e.loop.id, e.loop.fault), e)
  {
    var e := s.At(side);
    var (id, f) := (e.loop.id, e.loop.fault);
    var base := s.With(side, e.(loop := Idle));
    var tail := [];
    if id in e.table {
      tail := TailIsARun(base, side, id, f);
    }
    run := [Drop(side)] + tail;
    assert run[1..] == tail;
    assert Next(s, Drop(side)) == base.With(side, Remove(e.(loop := Idle), id, f));
  }

  /** The reader fails, and the loop closes the connection. */
  lemma BreakIsARun(s: State, side: Side, fault: Fault) returns (run: seq<Label>)
    requires s.At(side).loop.Copying? && s.At(side).loop.id in s.At(side).conns
    ensures var (e, r) := (s.At(side), After(s, run));
            && r == s.With(side, r.At(side))
            && SameWork(r.At(side), CloseNow(e.(loop := Idle), s.up, e.loop.id, fault), e)
  {
    var (e, l) := (s.At(side), CopyFail(side, fault));
    var t := Next(s, l);
    var more := DropIsARun(t, side);
    assert t.At(side).(loop := Idle) == e.(loop := Idle);
    run := [l] + more;
    assert run[1..] == more;
  }

  /** A chunk is refused, and the loop closes the connection. */
  lemma RefusedIsARun(s: State, side: Side, n: nat) returns (run: seq<Label>)
    requires var e := s.At(side); e.loop.Copying? && e.loop.id in e.conns && 1 <= n <= |e.loop.rest|
    requires var e := s.At(side); Offer(e.conns[e.loop.id], e.loop.rest[..n]).1.Some?
    ensures var (e, r) := (s.At(side), After(s, run));
            && r == s.With(side, r.At(side))
            && SameWork(r.At(side), CloseNow(e.(loop := Idle), s.up, e.loop.id, Offer(e.conns[e.loop.id], e.loop.rest[..n]).1.value), e)
  {
    var (e, l) := (s.At(side), Chunk(side, n));
    var t := Next(s, l);
    var more := DropIsARun(t, side);
    assert t.At(side).(loop := Idle) == e.(loop := Idle);
    run := [l] + more;
    assert run[1..] == more;
  }

  /** io.Copy of the rest of a Data frame, in chunks of at most `size` bytes, until a chunk is refused or the
      reader fails. */
  lemma {:induction false} CopyIsARun(s: State, side: Side, size: nat, broken: Option<Break>) returns (run: seq<Label>)
    requires s.At(side).loop.Copying? && s.At(side).loop.id in s.At(side).conns && size > 0
    ensures var (e, r) := (s.At(side), After(s, run));
            && r == s.With(side, r.At(side))
            && SameWork(r.At(side), CopyNow(e.(loop := Idle), s.up, e.loop.id, e.loop.rest, size, broken), e)
    decreases |s.At(side).loop.rest|
  {
    var e := s.At(side);
    var (id, rest) := (e.loop.id, e.loop.rest);
    var n := ChunkSize(rest, size, broken);
    var l := Chunk(side, n);
    var t := Next(s, l);
    if broken.Some? && broken.value.left == 0 {
      run := BreakIsARun(s, side, broken.value.fault);
    } else if rest == [] {
      run := [l];
      assert run[1..] == [];
    } else if Offer(e.conns[id], rest[..n]).1.Some? {
      run := RefusedIsARun(s, side, n);
    } else {
      var more := CopyIsARun(t, side, size, AfterReading(broken, n));
      assert t.At(side).(loop := Idle) == Put(e.(loop := Idle), id, Offer(e.conns[id], rest[..n]).0);
      run := [l] + more;
      assert run[1..] == more;
    }
  }

  /** serveMessage on a Data frame for no entry. */
  lemma NotFoundIsARun(s: State, side: Side, f: Frame) returns (run: seq<Label>)
    requires f.Data? && f.id !in s.At(side).table
    ensures var (e, r) := (s.At(side), After(s.With(side, Accept(s.At(side), f)), run));
            r == s.With(side, r.At(side)) && SameWork(r.At(side), Emit(e, s.up, Error(f.id, NotFound)), e)
  {
    var e := s.At(side);
    var (k, t) := (|e.threads|, s.With(side, Accept(e, f)));
    run := [Run(side, k, true, Eof)];
    assert t.At(side).threads[k] == [Send(Error(f.id, NotFound))] && t.At(side).threads[k][1..] == [];
    assert run[1..] == [] && After(t, run) == Next(t, run[0]);
  }

  /** serveMessage on a Data or Error frame for an entry. */
  lemma FoundIsARun(s: State, side: Side, f: Frame, size: nat, broken: Option<Break>) returns (run: seq<Label>)
    requires var e := s.At(side); !f.Connect? && f.id in e.table && e.table <= e.conns.Keys && e.loop.Idle? && size > 0
    ensures var (e, r) := (s.At(side), After(s.With(side, Accept(s.At(side), f)), run));
            r == s.With(side, r.At(side)) && SameWork(r.At(side), ServeNow(e, s.up, f, size, broken), e)
  {
    var t := s.With(side, Accept(s.At(side), f));
    assert t.At(side).(loop := Idle) == s.At(side);
    if f.Data? { run := CopyIsARun(t, side, size, broken); } else { run := DropIsARun(t, side); }
  }

  /** serveMessage on a Data or Error frame, run without interruption, is one of the runs of the
      step system: so every guarantee over all runs covers the session object's own method. */
  lemma ServeIsARun(s: State, side: Side, size: nat, broken: Option<Break>) returns (run: seq<Label>)
    requires var (e, p) := (s.At(side), s.Peer(side));
             && e.loop.Idle? && !e.stopped && e.table <= e.conns.Keys && size > 0
             && p.out != [] && !p.out[0].Connect?
    ensures var (e, p, r) := (s.At(side), s.Peer(side), After(s, run));
            && r == s.WithBoth(side, r.At(side), p.(out := p.out[1..]))
            && SameWork(r.At(side), ServeNow(e, s.up, p.out[0], size, broken), e)
  {
    var (e, p) := (s.At(side), s.Peer(side));
    var f := p.out[0];
    var base := s.WithBoth(side, e, p.(out := p.out[1..]));
    var more := [];
    if f.id in e.table { more := FoundIsARun(base, side, f, size, broken); }
    else if f.Data? { more := NotFoundIsARun(base, side, f); }
    run := [Serve(side, true)] + more;
    assert run[1..] == more;
    assert Next(s, Serve(side, true)) == base.With(side, Accept(e, f));
  }

  /** clientConnect up to the start of its dial is the step itself. */
  lemma ConnectIsARun(s: State)
    requires s.cli.loop.Idle? && !s.cli.stopped && s.srv.out != [] && s.srv.out[0].Connect?
    ensures After(s, [Serve(Client, true)]) == s.WithBoth(Client, Accept(s.cli, s.srv.out[0]), s.srv.(out := s.srv.out[1..]))
  {
    assert [Serve(Client, true)][1..] == [];
    assert After(s, [Serve(Client, true)]) == After(Next(s, Serve(Client, true)), []);
  }

  /** serverConnect, with its undoing when the link has failed. */
  lemma ServerConnectIsARun(s: State) returns (run: seq<Label>)
    requires s.next !in s.srv.calling
    ensures var (id, r) := (s.next, After(s, run));
            var e := s.srv.(conns := s.srv.conns[id := Fresh], table := s.srv.table + {id});
            && r == s.(srv := r.srv, next := id + 1)
            && if s.up then r.srv == e.(linked := e.linked + {id}, out := e.out + [Connect(id)])
               else SameWork(r.srv, CloseNow(e, s.up, id, ClosedPipe), e)
  {
    var id := s.next;
    var e := s.srv.(conns := s.srv.conns[id := Fresh], table := s.srv.table + {id});
    var base := s.(srv := e, next := id + 1);
    var tail := [];
    if !s.up { tail := TailIsARun(base, Server, id, ClosedPipe); }
    run := [Call, SendConnect(id)] + tail;
    var t := Next(s, Call);
    assert t.srv.calling - {id} == s.srv.calling;
    assert run[1..] == [SendConnect(id)] + tail && run[1..][1..] == tail;
    assert After(s, run) == After(t, run[1..]) == After(Next(t, SendConnect(id)), tail);
    if !s.up { assert Next(t, SendConnect(id)) == base.With(Server, Remove(e, id, ClosedPipe)); }
  }

  // --- session.Close is a run ---

  /** tunnelClose of one connection. */
  function CloseOne(e: End, up: bool, id: int): End {
    var e1 := Emit(e, up, Error(id, Disconnect));
    if id in e1.conns then Put(e1, id, Shut(e1.conns[id], Some(Disconnect))) else e1
  }

  function CloseEach(e: End, up: bool, ids: seq<int>): End
    decreases |ids|
  {
    if ids == [] then e else CloseEach(CloseOne(e, up, ids[0]), up, ids[1..])
  }

  lemma {:induction false} CloseEachSnoc(e: End, up: bool, ids: seq<int>, id: int)
    ensures CloseEach(e, up, ids + [id]) == CloseOne(CloseEach(e, up, ids), up, id)
    decreases |ids|
  {
    if ids == [] {
      assert ids + [id] == [id] && [id][1..] == [];
      assert CloseEach(e, up, [id]) == CloseEach(CloseOne(e, up, id), up, []);
    } else {
      CloseEachSnoc(CloseOne(e, up, ids[0]), up, ids[1..], id);
      assert (ids + [id])[1..] == ids[1..] + [id];
    }
  }

  /** Taking all entries out first and closing them afterwards comes to the same. */
  lemma {:induction false} EachIsAll(e: End, up: bool, ids: seq<int>)
    requires e.table <= e.conns.Keys && (forall k :: k in ids ==> k in e.table)
    requires forall i, j :: 0 <= i < j < |ids| ==> ids[i] != ids[j]
    ensures CloseEach(e.(table := {}), up, ids) == CloseAllNow(e, up, ids).(table := {})
    decreases |ids|
  {
    if ids != [] {
      var (init, last) := (ids[..|ids| - 1], ids[|ids| - 1]);
      assert ids == init + [last];
      EachIsAll(e, up, init);
      CloseEachSnoc(e.(table := {}), up, init, last);
      CloseAllDoes(e, up, init, last);
      OneIsNow(CloseAllNow(e, up, init), up, last);
    }
  }

  lemma OneIsNow(e: End, up: bool, id: int)
    requires id in e.table
    ensures CloseOne(e.(table := {}), up, id) == CloseNow(e, up, id, Disconnect).(table := {})
  {}

  /** One closing goroutine, from start to end. */
  lemma TailRuns(s: State, side: Side, t: nat, id: int)
    requires t < |s.At(side).threads| && s.At(side).threads[t] == Tail(id, Disconnect)
    ensures var l := Run(side, t, true, Eof);
      Next(Next(s, l), l) == s.With(side, CloseOne(s.At(side), s.up, id).(threads := s.At(side).threads[t := []]))
  {
    var (e, l) := (s.At(side), Run(side, t, true, Eof));
    assert Tail(id, Disconnect)[1..] == [Fin(id, Disconnect)] && [Fin(id, Disconnect)][1..] == [];
    var e1 := Emit(e.(threads := e.threads[t := [Fin(id, Disconnect)]]), s.up, Error(id, Disconnect));
    assert Next(s, l) == s.With(side, e1);
    assert e1.threads[t] == [Fin(id, Disconnect)];
    assert e1.threads[t := []] == e.threads[t := []];
  }

  /** From position k on, the goroutines are finished or close one of `ids` each, every one of them once. */
  ghost predicate Waiting(ts: seq<seq<Op>>, k: nat, ids: seq<int>) {
    && k <= |ts|
    && (forall t :: k <= t < |ts| && ts[t] != [] ==> exists id :: id in ids && ts[t] == Tail(id, Disconnect))
    && (forall id :: id in ids ==> exists t :: k <= t < |ts| && ts[t] == Tail(id, Disconnect))
    && (forall t, u :: k <= t < u < |ts| && ts[t] != [] ==> ts[t] != ts[u])
  }

  /** One of them has finished. */
  lemma WaitingNext(ts: seq<seq<Op>>, k: nat, ids: seq<int>, t: nat)
    requires Waiting(ts, k, ids) && ids != [] && k <= t < |ts| && ts[t] == Tail(ids[0], Disconnect)
    requires forall i, j :: 0 <= i < j < |ids| ==> ids[i] != ids[j]
    ensures Waiting(ts[t := []], k, ids[1..])
  {
    var us := ts[t := []];
    forall u | k <= u < |us| && us[u] != [] ensures exists id :: id in ids[1..] && us[u] == Tail(id, Disconnect) {
      var id :| id in ids && ts[u] == Tail(id, Disconnect);
      assert id != ids[0] && id in ids[1..];
    }
    forall id | id in ids[1..] ensures exists u :: k <= u < |us| && us[u] == Tail(id, Disconnect) {
      var u :| k <= u < |ts| && ts[u] == Tail(id, Disconnect);
      assert ts[u][0] == Send(Error(id, Disconnect)) && ts[t][0] == Send(Error(ids[0], Disconnect));
      assert us[u] == Tail(id, Disconnect);
    }
  }

  /** The closing goroutines, run one after the other in the order of `ids`. */
  lemma {:induction false} TailsAreARun(s: State, side: Side, k: nat, ids: seq<int>) returns (run: seq<Label>)
    requires Waiting(s.At(side).threads, k, ids) && forall i, j :: 0 <= i < j < |ids| ==> ids[i] != ids[j]
    ensures var (e, r) := (s.At(side), After(s, run));
      && r == s.With(side, r.At(side)) && r.At(side) == CloseEach(e, s.up, ids).(threads := r.At(side).threads)
      && Waiting(r.At(side).threads, k, []) && r.At(side).threads[..k] == e.threads[..k]
    decreases |ids|
  {
    if ids == [] {
      run := [];
    } else {
      var e := s.At(side);
      var t :| k <= t < |e.threads| && e.threads[t] == Tail(ids[0], Disconnect);
      var l := Run(side, t, true, Eof);
      TailRuns(s, side, t, ids[0]);
      WaitingNext(e.threads, k, ids, t);
      var s2 := Next(Next(s, l), l);
      var more := TailsAreARun(s2, side, k, ids[1..]);
      run := [l, l] + more;
      AfterTwo(s, l, more);
      EachThreads(CloseOne(e, s.up, ids[0]), s.up, ids[1..], e.threads[t := []]);
    }
  }

  lemma AfterTwo(s: State, l: Label, more: seq<Label>)
    ensures After(s, [l, l] + more) == After(Next(Next(s, l), l), more)
  {
    var run := [l, l] + more;
    assert run[1..] == [l] + more && run[1..][1..] == more;
    assert After(s, run) == After(Next(s, l), run[1..]);
  }

  /** Closing does not look at the goroutines. */
  lemma {:induction false} EachThreads(e: End, up: bool, ids: seq<int>, ts: seq<seq<Op>>)
    ensures CloseEach(e.(threads := ts), up, ids) == CloseEach(e, up, ids).(threads := ts)
    decreases |ids|
  {
    if ids != [] { EachThreads(CloseOne(e, up, ids[0]), up, ids[1..], ts); }
  }

  lemma {:induction false} TailsAt(ids: seq<int>)
    ensures |Tails(ids)| == |ids| && forall i :: 0 <= i < |ids| ==> Tails(ids)[i] == Tail(ids[i], Disconnect)
  {
    if ids != [] { TailsAt(ids[1..]); }
  }

  /** Some goroutine from position |base| on closes id. */
  lemma TailsCover(base: seq<seq<Op>>, all: seq<int>, id: int)
    requires id in all
    ensures var ts := base + Tails(all); exists t :: |base| <= t < |ts| && ts[t] == Tail(id, Disconnect)
  {
    TailsAt(all);
    var i :| 0 <= i < |all| && all[i] == id;
    assert (base + Tails(all))[|base| + i] == Tail(id, Disconnect);
  }

  lemma TailsOnly(base: seq<seq<Op>>, all: seq<int>, t: nat)
    requires |base| <= t < |base + Tails(all)|
    ensures t - |base| < |all| && (base + Tails(all))[t] == Tail(all[t - |base|], Disconnect)
  {
    TailsAt(all);
  }

  /** The goroutines that closing a session starts, to be run in the order of `ids`. */
  lemma TailsWait(base: seq<seq<Op>>, table: set<int>, ids: seq<int>)
    requires Listed(ids, table)
    ensures Waiting(base + Tails(Listing(table)), |base|, ids)
  {
    var (ts, all) := (base + Tails(Listing(table)), Listing(table));
    forall id | id in ids ensures exists t :: |base| <= t < |ts| && ts[t] == Tail(id, Disconnect) { TailsCover(base, all, id); }
    forall t | |base| <= t < |ts| ensures exists id :: id in ids && ts[t] == Tail(id, Disconnect) {
      TailsOnly(base, all, t);
      assert all[t - |base|] in ids;
    }
    forall t, u | |base| <= t < u < |ts| ensures ts[t] != ts[u] {
      TailsOnly(base, all, t);
      TailsOnly(base, all, u);
      TailsDiffer(all[t - |base|], all[u - |base|]);
    }
  }

  lemma TailsDiffer(a: int, b: int)
    requires a != b
    ensures Tail(a, Disconnect) != Tail(b, Disconnect)
  {
    assert Tail(a, Disconnect)[0] == Send(Error(a, Disconnect)) && Tail(b, Disconnect)[0] == Send(Error(b, Disconnect));
  }

  /** session.Close, run without interruption and whatever the order of the entries, is one of the runs of the
      step system. */
  lemma CloseIsARun(s: State, side: Side, ids: seq<int>) returns (run: seq<Label>)
    requires s.At(side).table <= s.At(side).conns.Keys && Listed(ids, s.At(side).table)
    ensures var (e, r) := (s.At(side), After(s, run));
      && r == s.With(side, r.At(side))
      && SameWork(r.At(side), CloseAllNow(e, s.up, ids), e)
  {
    var e := s.At(side);
    var t := Next(s, CloseSession(side));
    TailsWait(e.threads, e.table, ids);
    var tails := TailsAreARun(t, side, |e.threads|, ids);
    run := [CloseSession(side)] + tails;
    assert run[1..] == tails;
    ClosedTable(e, s.up, ids);
    EachThreads(e.(table := {}), s.up, ids, t.At(side).threads);
  }

  lemma ClosedTable(e: End, up: bool, ids: seq<int>)
    requires e.table <= e.conns.Keys && Listed(ids, e.table)
    ensures CloseEach(e.(table := {}), up, ids) == CloseAllNow(e, up, ids)
  {
    EachIsAll(e, up, ids);
    CloseAllDoes(e, up, ids, 0);
    assert forall k :: k in e.table ==> k in ids;
    assert e.table - (set k | k in ids) == {};
  }
}

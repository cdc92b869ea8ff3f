/** What the tunnel guarantees over every run. */
module TunnelTheorems {
  import opened Prelude
  import opened Connections
  import opened Tunnel
  import opened TunnelInvariant

  /** End to end, in every interleaving: what a reader has got is a prefix of what was put into its
      queue, which is a prefix of what the other side has written on that connection. */
  lemma EndToEndPrefix(run: seq<Label>, side: Side, id: int)
    ensures var s := After(Init, run);
            Delivered(s.At(side), id) <= Accepted(s.At(side), id) <= Written(s.Peer(side), id)
  {
    InitOk();
    AfterKeeps(Init, run);
    var s := After(Init, run);
    assert FlowAt(s.Peer(side), s.At(side), id);
    if id in s.At(side).conns {
      assert ConnOk(s.At(side).conns[id]);
    }
  }

  /** The part of a Data frame that the serve loop has not queued yet. */
  function Copied(e: End, id: int): seq<Byte> { if e.loop.Copying? && e.loop.id == id then e.loop.rest else [] }

  lemma Accounted(x: End, e: End, id: int)
    requires FlowAt(x, e, id) && id in e.table && id in e.conns && !(e.loop.Failing? && e.loop.id == id)
    ensures e.conns[id].accepted + Copied(e, id) + Pay(x.out, id) == Written(x, id)
  {
    assert e.conns[id].accepted + [] == e.conns[id].accepted;
  }

  /** Nothing is lost while the entry stays in the receiver's table: the bytes read, buffered, queued, being
      copied and in flight are together exactly the bytes written, unless a chunk of the connection has just
      been refused and it is about to be closed. */
  lemma NothingLostWhileOpen(run: seq<Label>, side: Side, id: int)
    requires var e := After(Init, run).At(side); id in e.table && id in e.conns && !(e.loop.Failing? && e.loop.id == id)
    ensures var s := After(Init, run);
            var c := s.At(side).conns[id];
            c.delivered + c.readBuf + Flatten(c.queue) + Copied(s.At(side), id) + Pay(s.Peer(side).out, id) == Written(s.Peer(side), id)
  {
    InitOk();
    AfterKeeps(Init, run);
    var s := After(Init, run);
    assert FlowAt(s.Peer(side), s.At(side), id);
    Accounted(s.Peer(side), s.At(side), id);
    assert ConnOk(s.At(side).conns[id]);
  }

  // --- connections persist, errors stick ---

  predicate ConnsLater(m: map<int, Conn>, m': map<int, Conn>) {
    forall id :: id in m ==> id in m' && Later(m[id], m'[id])
  }

  lemma LaterTrans(m: map<int, Conn>, m': map<int, Conn>, m'': map<int, Conn>)
    requires ConnsLater(m, m') && ConnsLater(m', m'')
    ensures ConnsLater(m, m'')
  {
    forall id | id in m ensures id in m'' && Later(m[id], m''[id]) {
      assert Later(m[id], m'[id]) && Later(m'[id], m''[id]);
    }
  }

  lemma PutLater(m: map<int, Conn>, id: int, c: Conn)
    requires id in m ==> Later(m[id], c)
    ensures ConnsLater(m, m[id := c])
  {}

  lemma StepLater(e: End, up: bool, op: Op, rest: seq<Op>, t: nat, ok: bool, fault: Fault)
    requires t < |e.threads|
    ensures ConnsLater(e.conns, Step(e, up, op, rest, t, ok, fault).conns)
  {
    if !op.Del? {
      var id := if op.Send? then op.frame.id else op.id;
      if id in e.conns {
        var f := Step(e, up, op, rest, t, ok, fault);
        assert f.conns == e.conns || f.conns == e.conns[id := f.conns[id]];
        PutLater(e.conns, id, f.conns[id]);
      }
    }
  }

  lemma ChunkLater(e: End, n: nat)
    requires EndOk(e) && e.loop.Copying?
    ensures ConnsLater(e.conns, CopyChunk(e, n).conns)
  {
    var (id, rest) := (e.loop.id, e.loop.rest);
    if 1 <= n <= |rest| {
      OfferKeeps(e.conns[id], rest[..n]);
      PutLater(e.conns, id, Offer(e.conns[id], rest[..n]).0);
    }
  }

  lemma AcceptLater(e: End, f: Frame)
    requires f.Connect? ==> f.id !in e.conns
    ensures ConnsLater(e.conns, Accept(e, f).conns)
  {
    if f.Connect? { PutLater(e.conns, f.id, Fresh); }
  }

  lemma ServeLater(s: State, at: Side, allowed: bool, side: Side)
    requires Inv(s)
    ensures ConnsLater(s.At(side).conns, Next(s, Serve(at, allowed)).At(side).conns)
  {
    var p := s.Peer(at);
    SameLater(s.At(side).conns);
    if at == side && p.out != [] {
      if p.out[0].Connect? { ConnectFromServer(s, at); }
      AcceptLater(s.At(side), p.out[0]);
    }
  }

  lemma SameLater(m: map<int, Conn>)
    ensures ConnsLater(m, m)
  {}

  lemma CallLater(s: State, side: Side)
    requires Inv(s)
    ensures ConnsLater(s.At(side).conns, Next(s, Call).At(side).conns)
  {
    SameLater(s.At(side).conns);
    if side.Server? { PutLater(s.srv.conns, s.next, Fresh); }
  }

  lemma ReadLater(s: State, at: Side, id: int, n: nat, side: Side)
    requires Inv(s)
    ensures ConnsLater(s.At(side).conns, Next(s, Read(at, id, n)).At(side).conns)
  {
    var e := s.At(side);
    SameLater(e.conns);
    if at == side && id in e.conns {
      ReceiveKeeps(e.conns[id], n);
      PutLater(e.conns, id, Receive(e.conns[id], n).0);
    }
  }

  lemma ChunkStepLater(s: State, at: Side, n: nat, side: Side)
    requires Inv(s)
    ensures ConnsLater(s.At(side).conns, Next(s, Chunk(at, n)).At(side).conns)
  {
    SameLater(s.At(side).conns);
    if at == side && s.At(side).loop.Copying? { ChunkLater(s.At(side), n); }
  }

  lemma RunLater(s: State, at: Side, t: nat, ok: bool, fault: Fault, side: Side)
    ensures ConnsLater(s.At(side).conns, Next(s, Run(at, t, ok, fault)).At(side).conns)
  {
    var e := s.At(side);
    SameLater(e.conns);
    if at == side && t < |e.threads| && e.threads[t] != [] {
      StepLater(e, s.up, e.threads[t][0], e.threads[t][1..], t, ok, fault);
    }
  }

  predicate MovesBytes(l: Label) { l.Call? || l.Read? || l.Serve? || l.Chunk? || l.Run? }

  lemma QuietLabel(s: State, l: Label, side: Side)
    requires !MovesBytes(l)
    ensures Next(s, l).At(side).conns == s.At(side).conns
  {}

  /** No label discards or replaces a connection, changes a set error, or takes bytes back. */
  lemma NextLater(s: State, l: Label, side: Side)
    requires Inv(s)
    ensures ConnsLater(s.At(side).conns, Next(s, l).At(side).conns)
  {
    if l.Call? { CallLater(s, side); }
    else if l.Read? { ReadLater(s, l.side, l.id, l.n, side); }
    else if l.Serve? { ServeLater(s, l.side, l.allowed, side); }
    else if l.Chunk? { ChunkStepLater(s, l.side, l.n, side); }
    else if l.Run? { RunLater(s, l.side, l.thread, l.ok, l.fault, side); }
    else {
      QuietLabel(s, l, side);
      SameLater(s.At(side).conns);
    }
  }

  lemma {:induction false} AfterLater(s: State, run: seq<Label>, side: Side)
    requires Inv(s)
    ensures ConnsLater(s.At(side).conns, After(s, run).At(side).conns)
    decreases |run|
  {
    if run != [] {
      var t := Next(s, run[0]);
      NextKeeps(s, run[0]);
      NextLater(s, run[0], side);
      AfterLater(t, run[1..], side);
      LaterTrans(s.At(side).conns, t.At(side).conns, After(s, run).At(side).conns);
    }
  }

  /** In every run a queue is closed at most once, exactly when the sticky error is set, and is
      never sent to afterwards. */
  lemma QueueClosedOnce(run: seq<Label>, side: Side, id: int)
    requires id in After(Init, run).At(side).conns
    ensures var c := After(Init, run).At(side).conns[id];
            c.closes <= 1 && (c.closes == 1 <==> c.err.Some?) && !c.crashed
  {
    InitOk();
    AfterKeeps(Init, run);
  }

  /** Once set, the error never changes and the queue takes no further byte. */
  lemma ErrorIsSticky(run: seq<Label>, more: seq<Label>, side: Side, id: int)
    requires id in After(Init, run).At(side).conns && After(Init, run).At(side).conns[id].err.Some?
    ensures var (c, e) := (After(Init, run).At(side).conns[id], After(After(Init, run), more).At(side));
            id in e.conns && e.conns[id].err == c.err && e.conns[id].accepted == c.accepted
  {
    InitOk();
    AfterKeeps(Init, run);
    AfterLater(After(Init, run), more, side);
  }

  /** When Read first reports an error the reader has had every accepted byte, a gap-free prefix of
      what was written; and it stays so: every later Read reports the same error and no byte. */
  lemma ReadErrorIsFinal(run: seq<Label>, more: seq<Label>, side: Side, id: int, n: nat, m: nat)
    requires id in After(Init, run).At(side).conns && m > 0
    requires Receive(After(Init, run).At(side).conns[id], n).1.Failed?
    ensures var c := After(Init, run).At(side).conns[id];
            c.delivered == c.accepted <= Written(After(Init, run).Peer(side), id)
    ensures var (c, e) := (After(Init, run).At(side).conns[id], After(After(Init, run), more).At(side));
            id in e.conns && e.conns[id].delivered == c.delivered
            && Receive(e.conns[id], m).1 == Receive(c, n).1
  {
    var s := After(Init, run);
    var c := s.At(side).conns[id];
    InitOk();
    AfterKeeps(Init, run);
    assert ConnOk(c);
    EndToEndPrefix(run, side, id);
    AfterLater(s, more, side);
    AfterKeeps(s, more);
    FailureStays(c, After(s, more).At(side).conns[id], n, m);
  }

  // --- "connection not found" ---

  lemma KeysStay(s: State, l: Label, side: Side)
    requires l.Read? || l.Chunk?
    ensures Next(s, l).At(side).conns.Keys == s.At(side).conns.Keys
  {}

  lemma RunKeys(s: State, at: Side, t: nat, ok: bool, fault: Fault, side: Side)
    ensures Next(s, Run(at, t, ok, fault)).At(side).conns.Keys == s.At(side).conns.Keys
  {
    var e := s.At(at);
    if t < |e.threads| && e.threads[t] != [] { StepKeys(e, s.up, e.threads[t][0], e.threads[t][1..], t, ok, fault); }
  }

  lemma BornByServe(s: State, at: Side, allowed: bool, side: Side, id: int)
    requires id !in s.At(side).conns
    ensures var e := Next(s, Serve(at, allowed)).At(side); id in e.conns ==> id in e.table
  {}

  /** The step that makes a connection also enters it into the table. */
  lemma BornInTable(s: State, l: Label, side: Side, id: int)
    requires Inv(s) && id !in s.At(side).conns && id in Next(s, l).At(side).conns
    ensures id in Next(s, l).At(side).table
  {
    if l.Read? || l.Chunk? { KeysStay(s, l, side); }
    else if l.Run? { RunKeys(s, l.side, l.thread, l.ok, l.fault, side); }
    else if l.Serve? { BornByServe(s, l.side, l.allowed, side, id); }
    else if !l.Call? { QuietLabel(s, l, side); }
  }

  lemma StepKeys(e: End, up: bool, op: Op, rest: seq<Op>, t: nat, ok: bool, fault: Fault)
    requires t < |e.threads|
    ensures Step(e, up, op, rest, t, ok, fault).conns.Keys == e.conns.Keys
  {}

  lemma {:induction false} EverInTable(s: State, run: seq<Label>, side: Side, id: int) returns (k: nat)
    requires Inv(s) && id !in s.At(side).conns && id in After(s, run).At(side).conns
    ensures k <= |run| && id in After(s, run[..k]).At(side).table
    decreases |run|
  {
    var t := Next(s, run[0]);
    NextKeeps(s, run[0]);
    if id in t.At(side).conns {
      BornInTable(s, run[0], side, id);
      k := 1;
      assert run[..1][1..] == [];
    } else {
      var j := EverInTable(t, run[1..], side, id);
      k := j + 1;
      assert run[..k][1..] == run[1..][..j] && run[..k][0] == run[0];
    }
  }

  lemma EarlierInTable(run: seq<Label>, side: Side, id: int)
    requires id in After(Init, run).At(side).conns && id !in After(Init, run).At(side).table
    ensures exists k :: 0 <= k < |run| && id in After(Init, run[..k]).At(side).table
  {
    InitOk();
    var k := EverInTable(Init, run, side, id);
    assert run[..|run|] == run;
    assert 0 <= k < |run| && id in After(Init, run[..k]).At(side).table;
  }

  /** A Data frame meets "connection not found" only after the receiver had the connection in its
      table and took it out again, never because it overtook its Connect. */
  lemma NotFoundOnlyAfterClose(run: seq<Label>, side: Side)
    requires var s := After(Init, run);
             s.Peer(side).out != [] && s.Peer(side).out[0].Data? && s.Peer(side).out[0].id !in s.At(side).table
    ensures exists k :: 0 <= k < |run| && After(Init, run).Peer(side).out[0].id in After(Init, run[..k]).At(side).table
  {
    InitOk();
    AfterKeeps(Init, run);
    FrontKnown(After(Init, run), side);
    EarlierInTable(run, side, After(Init, run).Peer(side).out[0].id);
  }
}

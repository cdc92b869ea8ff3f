/** How errors travel: when a chunk is refused, what closes a connection, and which error each end is left with. */
module TunnelFaults {
  import opened Prelude
  import opened Connections
  import opened Tunnel
  import opened TunnelInvariant
  import opened TunnelTheorems

  // --- refused chunks ---

  /** In every run: the serve loop gives up on a Data frame in a chunk exactly when the connection has been closed
      or 1024 chunks wait in its queue; otherwise the chunk joins the queue. */
  lemma ChunkRefused(run: seq<Label>, side: Side, n: nat)
    requires var e := After(Init, run).At(side); e.loop.Copying? && 1 <= n <= |e.loop.rest|
    ensures var (e, f) := (After(Init, run).At(side), Next(After(Init, run), Chunk(side, n)).At(side));
      var (id, rest) := (e.loop.id, e.loop.rest);
      && id in e.conns && id in f.conns
      && (f.loop.Failing? <==> e.conns[id].closes == 1 || |e.conns[id].queue| == 1024)
      && (f.loop.Failing? ==> f.conns == e.conns && f.loop == Failing(id, if e.conns[id].err.Some? then e.conns[id].err.value else BackedUp))
      && (!f.loop.Failing? ==> f.loop == Copying(id, rest[n..]) && f.conns[id].queue == e.conns[id].queue + [rest[..n]])
  {
    InitOk();
    AfterKeeps(Init, run);
    var e := After(Init, run).At(side);
    OfferExact(e.conns[e.loop.id], e.loop.rest[..n]);
  }

  /** The end of a frame ends the copy, and nothing else does. */
  lemma ChunkEnds(s: State, side: Side, n: nat)
    requires EndOk(s.At(side)) && s.At(side).loop.Copying?
    ensures Next(s, Chunk(side, n)).At(side).loop.Idle? <==> s.At(side).loop.rest == []
    ensures s.At(side).loop.rest == [] ==> Next(s, Chunk(side, n)).At(side).conns == s.At(side).conns
  {}

  // --- reading to the end ---

  function Again(l: Label, k: nat): (run: seq<Label>)
    ensures |run| == k && forall i :: 0 <= i < k ==> run[i] == l
  {
    seq(k, _ => l)
  }

  lemma {:induction false} ReadsAreARun(s: State, side: Side, id: int, n: nat, k: nat)
    requires id in s.At(side).conns
    ensures var e := After(s, Again(Read(side, id, n), k)).At(side);
      id in e.conns && e.conns[id] == Reads(s.At(side).conns[id], n, k)
    decreases k
  {
    if k > 0 {
      ReadsAreARun(Next(s, Read(side, id, n)), side, id, n, k - 1);
      assert Again(Read(side, id, n), k)[1..] == Again(Read(side, id, n), k - 1);
    }
  }

  /** In every state of every run, enough reads of any size deliver every byte the connection has accepted. */
  lemma ReadToTheEnd(run: seq<Label>, side: Side, id: int, n: nat, k: nat)
    requires id in After(Init, run).At(side).conns && n > 0 && k >= Unread(After(Init, run).At(side).conns[id])
    ensures var (e, s) := (After(After(Init, run), Again(Read(side, id, n), k)).At(side), After(Init, run));
      id in e.conns && e.conns[id].delivered == s.At(side).conns[id].accepted
  {
    InitOk();
    AfterKeeps(Init, run);
    ReadsAreARun(After(Init, run), side, id, n, k);
    ReadsDeliver(After(Init, run).At(side).conns[id], n, k);
  }

  // --- what closes a connection ---

  /** The operation goroutine t would run next. */
  predicate NextOp(e: End, t: nat, op: Op) { t < |e.threads| && e.threads[t] != [] && e.threads[t][0] == op }

  /** A goroutine about to close connection id with this error. */
  predicate Closes(e: End, l: Label, id: int, f: Fault) {
    l.Run? && (NextOp(e, l.thread, Fin(id, f)) || (NextOp(e, l.thread, Piping(id, false)) && l.ok && l.fault == f))
  }

  lemma StepCloses(e: End, up: bool, t: nat, ok: bool, fault: Fault, id: int)
    requires t < |e.threads| && e.threads[t] != [] && id in e.conns && e.conns[id].err.None?
    ensures var e' := Step(e, up, e.threads[t][0], e.threads[t][1..], t, ok, fault);
      && id in e'.conns
      && (forall f, s :: e'.conns[id].err == Some(f) <==> Closes(e, Run(s, t, ok, fault), id, f))
  {}

  /** A step sets the error of a connection exactly if it is a goroutine of that side which closes it with this very
      error. */
  lemma ClosedBy(s: State, l: Label, side: Side, id: int, f: Fault)
    requires Inv(s) && id in s.At(side).conns && s.At(side).conns[id].err.None?
    ensures id in Next(s, l).At(side).conns
    ensures Next(s, l).At(side).conns[id].err == Some(f) <==> l.Run? && l.side == side && Closes(s.At(side), l, id, f)
  {
    var e := s.At(side);
    NextLater(s, l, side);
    if l.Run? {
      if l.side == side && l.thread < |e.threads| && e.threads[l.thread] != [] {
        StepCloses(e, s.up, l.thread, l.ok, l.fault, id);
      }
    } else {
      OpenStays(s, l, side, id);
    }
  }

  lemma OpenStays(s: State, l: Label, side: Side, id: int)
    requires Inv(s) && id in s.At(side).conns && s.At(side).conns[id].err.None? && !l.Run?
    ensures id in Next(s, l).At(side).conns && Next(s, l).At(side).conns[id].err.None?
  {
    if l.Serve? { ServeOpen(s, l.side, l.allowed, side, id); }
    else if l.Read? { ReadOpen(s, l.side, l.id, l.n, side, id); }
    else if l.Chunk? { ChunkOpen(s, l.side, l.n, side, id); }
    else if !l.Call? { QuietLabel(s, l, side); }
  }

  lemma ServeOpen(s: State, at: Side, allowed: bool, side: Side, id: int)
    requires Inv(s) && id in s.At(side).conns
    ensures var e := Next(s, Serve(at, allowed)).At(side); id in e.conns && e.conns[id].err == s.At(side).conns[id].err
  {
    if s.Peer(at).out != [] && s.Peer(at).out[0].Connect? { ConnectFromServer(s, at); }
  }

  lemma ReadOpen(s: State, at: Side, i: int, n: nat, side: Side, id: int)
    requires id in s.At(side).conns
    ensures var e := Next(s, Read(at, i, n)).At(side); id in e.conns && e.conns[id].err == s.At(side).conns[id].err
  {}

  lemma ChunkOpen(s: State, at: Side, n: nat, side: Side, id: int)
    requires id in s.At(side).conns
    ensures var e := Next(s, Chunk(at, n)).At(side); id in e.conns && e.conns[id].err == s.At(side).conns[id].err
  {}

  // --- a goroutine waits for nobody but itself ---

  /** No label of the run is a step of goroutine t of this side. */
  predicate Spares(run: seq<Label>, side: Side, t: nat) {
    forall i :: 0 <= i < |run| ==> !(run[i].Run? && run[i].side == side && run[i].thread == t)
  }

  predicate RunsThread(l: Label, side: Side, t: nat) { l.Run? && l.side == side && l.thread == t }

  lemma ThreadStays(s: State, l: Label, side: Side, t: nat)
    requires t < |s.At(side).threads| && !RunsThread(l, side, t)
    ensures t < |Next(s, l).At(side).threads| && Next(s, l).At(side).threads[t] == s.At(side).threads[t]
  {
    if l.Run? && l.side == side && l.thread < |s.At(side).threads| && s.At(side).threads[l.thread] != [] {
      StepThreads(s.At(side), s.up, l.thread, l.ok, l.fault, t);
    }
  }

  lemma StepThreads(e: End, up: bool, u: nat, ok: bool, fault: Fault, t: nat)
    requires u < |e.threads| && e.threads[u] != [] && t < |e.threads| && t != u
    ensures var e' := Step(e, up, e.threads[u][0], e.threads[u][1..], u, ok, fault);
      t < |e'.threads| && e'.threads[t] == e.threads[t]
  {}

  lemma {:induction false} ThreadWaits(s: State, run: seq<Label>, side: Side, t: nat)
    requires t < |s.At(side).threads| && Spares(run, side, t)
    ensures t < |After(s, run).At(side).threads| && After(s, run).At(side).threads[t] == s.At(side).threads[t]
    decreases |run|
  {
    if run != [] {
      ThreadStays(s, run[0], side, t);
      ThreadWaits(Next(s, run[0]), run[1..], side, t);
    }
  }

  predicate NoDrop(run: seq<Label>, side: Side) { forall i :: 0 <= i < |run| ==> run[i] != Drop(side) }

  lemma {:induction false} FailingWaits(s: State, run: seq<Label>, side: Side)
    requires s.At(side).loop.Failing? && NoDrop(run, side)
    ensures After(s, run).At(side).loop == s.At(side).loop
    decreases |run|
  {
    if run != [] {
      FailingStays(s, run[0], side);
      FailingWaits(Next(s, run[0]), run[1..], side);
    }
  }

  lemma FailingStays(s: State, l: Label, side: Side)
    requires s.At(side).loop.Failing? && l != Drop(side)
    ensures Next(s, l).At(side).loop == s.At(side).loop
  {
    if l.Run? && l.side == side && l.thread < |s.At(side).threads| && s.At(side).threads[l.thread] != [] {
      StepLoop(s.At(side), s.up, l.thread, l.ok, l.fault);
    }
  }

  lemma StepLoop(e: End, up: bool, t: nat, ok: bool, fault: Fault)
    requires t < |e.threads| && e.threads[t] != []
    ensures Step(e, up, e.threads[t][0], e.threads[t][1..], t, ok, fault).loop == e.loop
  {}

  // --- the announcement of a close ---

  /** Goroutine t is about to announce error f for connection id and then to close the connection with it. */
  predicate Due(e: End, t: nat, id: int, f: Fault) {
    t < |e.threads| && |e.threads[t]| >= 2 && e.threads[t][0] == Send(Error(id, f)) && e.threads[t][1] == Fin(id, f)
  }


  /** However everybody else goes on in between, the peer is sent this very error unless the link has failed by
      then, and it becomes the connection's own unless another close has come first. */
  lemma DueIsDone(s: State, side: Side, t: nat, id: int, f: Fault, before: seq<Label>, between: seq<Label>, a: Label, b: Label)
    requires Inv(s) && Due(s.At(side), t, id, f) && Spares(before, side, t) && Spares(between, side, t)
    requires RunsThread(a, side, t) && RunsThread(b, side, t)
    ensures var s1 := After(s, before);
      var s2 := Next(s1, a);
      var s3 := After(s2, between);
      var s4 := Next(s3, b);
      && s2.At(side).out == (if s1.up then s1.At(side).out + [Error(id, f)] else s1.At(side).out)
      && (id in s3.At(side).conns ==>
            id in s4.At(side).conns &&
            s4.At(side).conns[id].err == if s3.At(side).conns[id].err.Some? then s3.At(side).conns[id].err else Some(f))
  {
    ThreadWaits(s, before, side, t);
    var s1 := After(s, before);
    var s2 := Next(s1, a);
    assert s2.At(side).threads[t] == s.At(side).threads[t][1..];
    ThreadWaits(s2, between, side, t);
    assert NextOp(After(s2, between).At(side), t, Fin(id, f));
  }

  /** Whatever else happens before, a loop that has given up on a connection drops its entry, if it is still there, with
      the very error it gave up for. */
  lemma FailingDrops(s: State, side: Side, id: int, f: Fault, before: seq<Label>)
    requires s.At(side).loop == Failing(id, f) && NoDrop(before, side) && id in After(s, before).At(side).table
    ensures var s1 := After(s, before);
      var s2 := Next(s1, Drop(side));
      && s2.At(side).table == s1.At(side).table - {id} && s2.At(side).loop.Idle?
      && Due(s2.At(side), |s1.At(side).threads|, id, f)
  {
    FailingWaits(s, before, side);
  }

  /** A frame reader that fails makes the loop give up with the reader's error; what was copied before stays. */
  lemma ReaderFails(s: State, side: Side, f: Fault)
    requires s.At(side).loop.Copying?
    ensures var e := Next(s, CopyFail(side, f)).At(side);
      e.loop == Failing(s.At(side).loop.id, f) && e.conns == s.At(side).conns && e.table == s.At(side).table
  {}

  /** So an Error frame that is served makes the loop drop the entry, if it is still there, with the very error of the
      frame. */
  lemma ErrorFrameCloses(s: State, side: Side, allowed: bool, id: int, f: Fault, between: seq<Label>)
    requires var (e, p) := (s.At(side), s.Peer(side)); e.loop.Idle? && !e.stopped && p.out != [] && p.out[0] == Error(id, f)
    requires id in s.At(side).table && NoDrop(between, side)
    requires id in After(Next(s, Serve(side, allowed)), between).At(side).table
    ensures var s1 := After(Next(s, Serve(side, allowed)), between);
      var s2 := Next(s1, Drop(side));
      && s2.At(side).table == s1.At(side).table - {id} && s2.At(side).loop.Idle?
      && Due(s2.At(side), |s1.At(side).threads|, id, f)
  {
    FailingDrops(Next(s, Serve(side, allowed)), side, id, f, between);
  }

  /** A dial that fails announces its own error, and then the goroutine closes what is left as the end of the stream. */
  lemma DialFailureDue(s: State, t: nat, id: int, f: Fault)
    requires NextOp(s.cli, t, Dialing(id))
    ensures var e := Next(s, Run(Client, t, false, f)).cli;
      Due(e, t, id, f) && |e.threads[t]| >= 3 && e.threads[t][2] == Del(id, Eof)
  {}

  /** A dial that succeeds goes over to piping and announces nothing. */
  lemma DialPipes(s: State, t: nat, id: int, f: Fault)
    requires NextOp(s.cli, t, Dialing(id))
    ensures var e := Next(s, Run(Client, t, true, f)).cli;
      NextOp(e, t, Piping(id, false)) && e.out == s.cli.out && e.conns == s.cli.conns && e.table == s.cli.table
  {}

  /** A goroutine's closeConnection announces its error exactly if the entry is still in the table. */
  lemma DelDue(s: State, side: Side, t: nat, id: int, f: Fault, ok: bool, x: Fault)
    requires NextOp(s.At(side), t, Del(id, f))
    ensures var e := Next(s, Run(side, t, ok, x)).At(side);
      && e.table == s.At(side).table - {id} && e.conns == s.At(side).conns && e.out == s.At(side).out
      && (if id in s.At(side).table then Due(e, |s.At(side).threads|, id, f) else |e.threads| == |s.At(side).threads|)
  {}

  /** A Write on an open connection whose Connect is out puts exactly its bytes on the link, unless that has failed by
      then; on a closed one it does nothing. */
  lemma WriteSends(s: State, side: Side, id: int, data: seq<Byte>, between: seq<Label>, a: Label)
    requires id in s.At(side).linked && id in s.At(side).conns
    requires Spares(between, side, |s.At(side).threads|) && RunsThread(a, side, |s.At(side).threads|)
    ensures s.At(side).conns[id].err.Some? ==> Next(s, Write(side, id, data)) == s
    ensures s.At(side).conns[id].err.None? ==>
      var s1 := After(Next(s, Write(side, id, data)), between);
      Next(s1, a).At(side).out == if s1.up then s1.At(side).out + [Data(id, data)] else s1.At(side).out
  {
    if s.At(side).conns[id].err.None? { ThreadWaits(Next(s, Write(side, id, data)), between, side, |s.At(side).threads|); }
  }

  /** Close announces the end of the stream. */
  lemma CloseDue(s: State, side: Side, id: int)
    requires id in s.At(side).table
    ensures var e := Next(s, Close(side, id)).At(side);
      e.table == s.At(side).table - {id} && Due(e, |s.At(side).threads|, id, Eof)
  {}

  /** Closing the session announces a disconnect for each entry. */
  lemma CloseSessionDue(s: State, side: Side, id: int) returns (t: nat)
    requires id in s.At(side).table
    ensures Due(Next(s, CloseSession(side)).At(side), t, id, Disconnect) && Next(s, CloseSession(side)).At(side).table == {}
  {
    t := TailFor(s.At(side), Next(s, CloseSession(side)).At(side), Listing(s.At(side).table), id);
  }

  lemma TailFor(e: End, e': End, ids: seq<int>, id: int) returns (t: nat)
    requires id in ids && e'.threads == e.threads + Tails(ids)
    ensures Due(e', t, id, Disconnect)
  {
    var i :| 0 <= i < |ids| && ids[i] == id;
    TailsAt(ids, i);
    t := |e.threads| + i;
    assert e'.threads[t] == Tail(id, Disconnect);
  }

  lemma {:induction false} TailsAt(ids: seq<int>, i: nat)
    requires i < |ids|
    ensures i < |Tails(ids)| && Tails(ids)[i] == Tail(ids[i], Disconnect)
  {
    if i > 0 { TailsAt(ids[1..], i - 1); }
  }

  /** A connection whose Connect cannot be sent is closed as such. */
  lemma ConnectFailureDue(s: State, id: int)
    requires id in s.srv.calling && id in s.srv.table && !s.up
    ensures var e := Next(s, SendConnect(id)).srv;
      e.table == s.srv.table - {id} && Due(e, |s.srv.threads|, id, ClosedPipe) && e.out == s.srv.out
  {}

  /** Data for a connection that is not in the table is answered with "not found", and the link carries that unless
      it has failed by then. */
  lemma NotFoundAnswered(s: State, side: Side, allowed: bool, between: seq<Label>, a: Label)
    requires var (e, p) := (s.At(side), s.Peer(side));
      e.loop.Idle? && !e.stopped && p.out != [] && p.out[0].Data? && p.out[0].id !in e.table
    requires Spares(between, side, |s.At(side).threads|) && RunsThread(a, side, |s.At(side).threads|)
    ensures var s1 := After(Next(s, Serve(side, allowed)), between);
      Next(s1, a).At(side).out ==
        if s1.up then s1.At(side).out + [Error(s.Peer(side).out[0].id, NotFound)] else s1.At(side).out
  {
    ThreadWaits(Next(s, Serve(side, allowed)), between, side, |s.At(side).threads|);
  }

  // --- the end of the link ---

  /** t is the rest of s after its first frames. */
  predicate RestOf(t: seq<Frame>, s: seq<Frame>) { |t| <= |s| && t == s[|s| - |t|..] }

  lemma QuietOut(s: State, l: Label, side: Side)
    requires !l.Run? && !l.Serve? && !l.SendConnect?
    ensures SameOut(s.At(side), Next(s, l).At(side))
  {
    if l.CloseSession? { CloseSessionOut(s, l.side, side); }
    else if l.Chunk? { ChunkOut(s, l.side, l.n, side); }
    else if l.Close? || l.Drop? { RemoveOut(s, l, side); }
  }

  predicate SameOut(e: End, e': End) { e'.out == e.out && e'.stopped == e.stopped }

  lemma CloseSessionOut(s: State, at: Side, side: Side)
    ensures SameOut(s.At(side), Next(s, CloseSession(at)).At(side))
  {}

  lemma ChunkOut(s: State, at: Side, n: nat, side: Side)
    ensures SameOut(s.At(side), Next(s, Chunk(at, n)).At(side))
  {}

  lemma RemoveOut(s: State, l: Label, side: Side)
    requires l.Close? || l.Drop?
    ensures SameOut(s.At(side), Next(s, l).At(side))
  {}

  lemma ServeOut(s: State, at: Side, allowed: bool, side: Side)
    ensures var e := Next(s, Serve(at, allowed)).At(side);
      && (e.out == s.At(side).out || (at != side && s.At(side).out != [] && !s.Peer(side).stopped && e.out == s.At(side).out[1..]))
      && (s.At(side).stopped ==> e.stopped)
  {}

  lemma StepOut(e: End, up: bool, t: nat, ok: bool, fault: Fault)
    requires t < |e.threads| && e.threads[t] != []
    ensures var e' := Step(e, up, e.threads[t][0], e.threads[t][1..], t, ok, fault);
      e'.stopped == e.stopped && e.out <= e'.out && (!up ==> e'.out == e.out)
  {}

  lemma RunOut(s: State, at: Side, t: nat, ok: bool, fault: Fault, side: Side)
    ensures var e := Next(s, Run(at, t, ok, fault)).At(side);
      e.stopped == s.At(side).stopped && s.At(side).out <= e.out && (!s.up ==> e.out == s.At(side).out)
  {
    var e := s.At(at);
    if t < |e.threads| && e.threads[t] != [] { StepOut(e, s.up, t, ok, fault); }
  }

  lemma NextDown(s: State, l: Label, side: Side)
    requires !s.up
    ensures !Next(s, l).up && RestOf(Next(s, l).At(side).out, s.At(side).out)
  {
    if l.Run? { RunOut(s, l.side, l.thread, l.ok, l.fault, side); }
    else if l.Serve? { ServeOut(s, l.side, l.allowed, side); }
    else if !l.SendConnect? { QuietOut(s, l, side); }
  }

  lemma {:induction false} StaysDown(s: State, run: seq<Label>, side: Side)
    requires !s.up
    ensures !After(s, run).up && RestOf(After(s, run).At(side).out, s.At(side).out)
    decreases |run|
  {
    if run != [] {
      NextDown(s, run[0], side);
      StaysDown(Next(s, run[0]), run[1..], side);
    }
  }

  /** A link that has failed stays failed, and whatever happens after, only frames that were on it are still served. */
  lemma LinkFails(s: State, more: seq<Label>, side: Side)
    ensures Next(s, LinkDown) == s.(up := false)
    ensures var t := After(Next(s, LinkDown), more); !t.up && RestOf(t.At(side).out, s.At(side).out)
  {
    StaysDown(Next(s, LinkDown), more, side);
  }

  // --- the end of the serve loop ---

  lemma NextHalts(s: State, l: Label, side: Side)
    requires s.At(side).stopped
    ensures Next(s, l).At(side).stopped && s.Peer(side).out <= Next(s, l).Peer(side).out
  {
    var other := if side.Server? then Client else Server;
    assert s.Peer(side) == s.At(other) && Next(s, l).Peer(side) == Next(s, l).At(other);
    if l.Run? {
      RunOut(s, l.side, l.thread, l.ok, l.fault, side);
      RunOut(s, l.side, l.thread, l.ok, l.fault, other);
    } else if l.Serve? {
      ServeOut(s, l.side, l.allowed, side);
      ServeOut(s, l.side, l.allowed, other);
    } else if !l.SendConnect? {
      QuietOut(s, l, side);
      QuietOut(s, l, other);
    }
  }

  /** A loop that has stopped serves nothing more: whatever happens, it stays stopped, and no frame of the peer leaves
      the link. */
  lemma {:induction false} StaysHalted(s: State, run: seq<Label>, side: Side)
    requires s.At(side).stopped
    ensures After(s, run).At(side).stopped && s.Peer(side).out <= After(s, run).Peer(side).out
    decreases |run|
  {
    if run != [] {
      NextHalts(s, run[0], side);
      StaysHalted(Next(s, run[0]), run[1..], side);
    }
  }

  lemma OnlyServeStops(s: State, l: Label, side: Side)
    requires !s.At(side).stopped && Next(s, l).At(side).stopped
    ensures l.Serve? && l.side == side
  {
    if l.Run? { RunOut(s, l.side, l.thread, l.ok, l.fault, side); }
    else if !l.Serve? && !l.SendConnect? { QuietOut(s, l, side); }
  }

  /** The loop stops exactly at a Connect that is not allowed, leaves every connection as it is, and serves nothing ever
      after. */
  lemma RefusedConnect(s: State, l: Label, side: Side, more: seq<Label>)
    requires !s.At(side).stopped
    ensures Next(s, l).At(side).stopped <==>
      && l == Serve(side, false) && s.At(side).loop.Idle? && s.Peer(side).out != [] && s.Peer(side).out[0].Connect?
    ensures Next(s, l).At(side).stopped ==>
      && Next(s, l).At(side) == s.At(side).(stopped := true)
      && After(Next(s, l), more).At(side).stopped && s.Peer(side).out <= After(Next(s, l), more).Peer(side).out
  {
    if Next(s, l).At(side).stopped {
      OnlyServeStops(s, l, side);
      StaysHalted(Next(s, l), more, side);
    }
  }

  /** The copy that ends first closes the connection with its error and tells nobody. */
  lemma PipeFirst(s: State, t: nat, id: int, first: Fault)
    requires NextOp(s.cli, t, Piping(id, false)) && id in s.cli.conns
    ensures var e := Next(s, Run(Client, t, true, first)).cli;
      && id in e.conns && e.conns[id].err == (if s.cli.conns[id].err.Some? then s.cli.conns[id].err else Some(first))
      && NextOp(e, t, Piping(id, true)) && e.out == s.cli.out
  {}

  /** Once both copies have ended, the peer is told the error of the one from the network, unless the link has failed by
      then; then the goroutine closes what is left as the end of the stream. */
  lemma PipeEnds(s: State, t: nat, id: int, ok: bool, last: Fault, r1: seq<Label>, r2: seq<Label>, a: Label, b: Label)
    requires NextOp(s.cli, t, Piping(id, true))
    requires Spares(r1, Client, t) && Spares(r2, Client, t) && RunsThread(a, Client, t) && RunsThread(b, Client, t)
    ensures var s1 := Next(s, Run(Client, t, ok, last));
      var s2 := Next(After(s1, r1), a);
      var s3 := After(s2, r2);
      && s1.cli.out == s.cli.out && NextOp(After(s1, r1).cli, t, Fin(id, last))
      && Next(s3, b).cli.out == (if s3.up then s3.cli.out + [Error(id, last)] else s3.cli.out)
      && NextOp(Next(s3, b).cli, t, Del(id, Eof))
  {
    var s1 := Next(s, Run(Client, t, ok, last));
    var rest := [Del(id, Eof)] + s.cli.threads[t][1..];
    PipeLast(s, t, id, ok, last);
    ThreadWaits(s1, r1, Client, t);
    var s2 := Next(After(s1, r1), a);
    FinNext(After(s1, r1), t, id, last, [Send(Error(id, last))] + rest, a);
    ThreadWaits(s2, r2, Client, t);
    SendsNext(After(s2, r2), t, Error(id, last), rest, b);
  }

  lemma PipeLast(s: State, t: nat, id: int, ok: bool, last: Fault)
    requires NextOp(s.cli, t, Piping(id, true))
    ensures var (e, rest) := (Next(s, Run(Client, t, ok, last)).cli, [Del(id, Eof)] + s.cli.threads[t][1..]);
      t < |e.threads| && e.threads[t] == [Fin(id, last)] + ([Send(Error(id, last))] + rest) && e.out == s.cli.out
  {}

  lemma FinNext(s: State, t: nat, id: int, f: Fault, rest: seq<Op>, a: Label)
    requires t < |s.cli.threads| && s.cli.threads[t] == [Fin(id, f)] + rest && RunsThread(a, Client, t)
    ensures Next(s, a).cli.threads == s.cli.threads[t := rest]
  {
    assert ([Fin(id, f)] + rest)[1..] == rest;
  }

  lemma SendsNext(s: State, t: nat, f: Frame, rest: seq<Op>, a: Label)
    requires t < |s.cli.threads| && s.cli.threads[t] == [Send(f)] + rest && f.Error? && RunsThread(a, Client, t)
    ensures var e := Next(s, a).cli; e.threads == s.cli.threads[t := rest] && e.out == if s.up then s.cli.out + [f] else s.cli.out
  {
    assert ([Send(f)] + rest)[1..] == rest;
  }
}

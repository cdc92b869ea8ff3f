/**
 * The Error echo dies out.  Error frames beget Error frames, dial goroutines send errors and each
 * closed entry is announced to the peer; a weighted count of frames in flight, table entries,
 * unfinished goroutines and serve-loop work bounds every run without new dials and writes.
 */
module TunnelSilence {
  import opened Prelude
  import opened Connections
  import opened Tunnel
  import opened TunnelInvariant

  const ENTRY := 5      // a table entry pays for its Error frame and its close
  const CALL := 15      // a registered dial pays for its Connect frame

  function FrameWeight(f: Frame): nat {
    match f
    case Data(_, payload) => 4 + |payload|
    case Connect(_) => 14
    case Error(_, _) => 2
  }

  function OpWeight(op: Op): nat {
    match op
    case Send(f) => FrameWeight(f) + 1
    case Fin(_, _) => 1
    case Del(_, _) => 1
    case Dialing(_) => 8
    case Piping(_, oneDone) => if oneDone then 6 else 7
  }

  function LoopWeight(l: Loop): nat {
    match l
    case Idle => 0
    case Copying(_, rest) => 2 + |rest|
    case Failing(_, _) => 1
  }

  function Frames(fs: seq<Frame>): nat { if fs == [] then 0 else FrameWeight(fs[0]) + Frames(fs[1..]) }
  function Prog(p: seq<Op>): nat { if p == [] then 0 else OpWeight(p[0]) + Prog(p[1..]) }
  function Threads(ts: seq<seq<Op>>): nat { if ts == [] then 0 else Prog(ts[0]) + Threads(ts[1..]) }

  function EndWeight(e: End): nat {
    ENTRY * |e.table| + CALL * |e.calling| + Threads(e.threads) + LoopWeight(e.loop) + Frames(e.out)
    + (if e.stopped then 0 else 1)
  }

  function Weight(s: State): nat { EndWeight(s.srv) + EndWeight(s.cli) + (if s.up then 1 else 0) }

  // --- sums over sequences ---

  lemma {:induction false} FramesAppend(fs: seq<Frame>, f: Frame)
    ensures Frames(fs + [f]) == Frames(fs) + FrameWeight(f)
  {
    if fs == [] { assert fs + [f] == [f]; }
    else { FramesAppend(fs[1..], f); assert (fs + [f])[1..] == fs[1..] + [f]; }
  }

  lemma {:induction false} ProgAppend(p: seq<Op>, q: seq<Op>)
    ensures Prog(p + q) == Prog(p) + Prog(q)
  {
    if p == [] { assert p + q == q; }
    else { ProgAppend(p[1..], q); assert (p + q)[1..] == p[1..] + q; }
  }

  lemma {:induction false} ThreadsAppend(ts: seq<seq<Op>>, us: seq<seq<Op>>)
    ensures Threads(ts + us) == Threads(ts) + Threads(us)
  {
    if ts == [] { assert ts + us == us; }
    else { ThreadsAppend(ts[1..], us); assert (ts + us)[1..] == ts[1..] + us; }
  }

  lemma {:induction false} ThreadsUpdate(ts: seq<seq<Op>>, t: nat, p: seq<Op>)
    requires t < |ts|
    ensures Threads(ts[t := p]) + Prog(ts[t]) == Threads(ts) + Prog(p)
  {
    if t > 0 {
      ThreadsUpdate(ts[1..], t - 1, p);
      assert ts[t := p][1..] == ts[1..][t - 1 := p];
    } else {
      assert ts[0 := p][1..] == ts[1..];
    }
  }

  lemma TailWeight(id: int, f: Fault)
    ensures Prog(Tail(id, f)) == 4 && Threads([Tail(id, f)]) == 4
  {
    PairWeight(Fin(id, f), Fin(id, f), Fin(id, f), []);
    assert Tail(id, f)[1..] == [Fin(id, f)] + [];
  }

  lemma {:induction false} TailsWeight(ids: seq<int>)
    ensures Threads(Tails(ids)) == 4 * |ids|
  {
    if ids != [] {
      TailWeight(ids[0], Disconnect);
      TailsWeight(ids[1..]);
      assert Tails(ids)[1..] == Tails(ids[1..]);
    }
  }

  // --- every active step lowers the weight ---

  lemma SpawnWeight(e: End, p: seq<Op>)
    ensures EndWeight(Spawn(e, p)) == EndWeight(e) + Prog(p)
  {
    ThreadsAppend(e.threads, [p]);
    assert Threads([p]) == Prog(p);
  }

  lemma RemoveWeight(e: End, id: int, f: Fault)
    ensures id in e.table ==> EndWeight(Remove(e, id, f)) == EndWeight(e) - 1
    ensures id !in e.table ==> Remove(e, id, f) == e
  {
    if id in e.table {
      var e' := e.(table := e.table - {id});
      assert |e'.table| == |e.table| - 1;
      SpawnWeight(e', Tail(id, f));
      TailWeight(id, f);
    }
  }

  lemma ReplaceWeight(e: End, t: nat, p: seq<Op>)
    requires t < |e.threads|
    ensures EndWeight(e.(threads := e.threads[t := p])) == EndWeight(e) - Prog(e.threads[t]) + Prog(p)
  {
    ThreadsUpdate(e.threads, t, p);
  }

  lemma EmitWeight(e: End, up: bool, f: Frame)
    ensures EndWeight(Emit(e, up, f)) <= EndWeight(e) + FrameWeight(f)
  {
    FramesAppend(e.out, f);
  }

  lemma PairWeight(a: Op, b: Op, c: Op, rest: seq<Op>)
    ensures Prog([a, b, c] + rest) == OpWeight(a) + OpWeight(b) + OpWeight(c) + Prog(rest)
    ensures Prog([a] + rest) == OpWeight(a) + Prog(rest)
  {
    assert ([a] + rest)[1..] == rest;
    assert ([a, b, c] + rest)[1..] == [b, c] + rest;
    assert ([b, c] + rest)[1..] == [c] + rest;
    assert ([c] + rest)[1..] == rest;
    assert Prog([c] + rest) == OpWeight(c) + Prog(rest);
    assert Prog([b, c] + rest) == OpWeight(b) + Prog([c] + rest);
  }

  lemma DialWeight(e: End, up: bool, id: int, rest: seq<Op>, t: nat, ok: bool, fault: Fault)
    requires t < |e.threads| && Prog(e.threads[t]) == OpWeight(Dialing(id)) + Prog(rest)
    ensures EndWeight(Step(e, up, Dialing(id), rest, t, ok, fault)) < EndWeight(e)
  {
    var p := if ok then [Piping(id, false)] + rest else Tail(id, fault) + [Del(id, Eof)] + rest;
    ReplaceWeight(e, t, p);
    PairWeight(Send(Error(id, fault)), Fin(id, fault), Del(id, Eof), rest);
    assert Tail(id, fault) + [Del(id, Eof)] + rest == [Send(Error(id, fault)), Fin(id, fault), Del(id, Eof)] + rest;
    PairWeight(Piping(id, false), Dialing(id), Dialing(id), rest);
  }

  lemma PipeWeight(e: End, up: bool, id: int, oneDone: bool, rest: seq<Op>, t: nat, ok: bool, fault: Fault)
    requires t < |e.threads| && Prog(e.threads[t]) == OpWeight(Piping(id, oneDone)) + Prog(rest)
    ensures EndWeight(Step(e, up, Piping(id, oneDone), rest, t, ok, fault)) < EndWeight(e)
  {
    ReplaceWeight(e, t, [Piping(id, true)] + rest);
    ReplaceWeight(e, t, [Fin(id, fault), Send(Error(id, fault)), Del(id, Eof)] + rest);
    PairWeight(Fin(id, fault), Send(Error(id, fault)), Del(id, Eof), rest);
    PairWeight(Piping(id, true), Dialing(id), Dialing(id), rest);
  }

  lemma StepWeight(e: End, up: bool, t: nat, ok: bool, fault: Fault)
    requires t < |e.threads| && e.threads[t] != []
    ensures EndWeight(Step(e, up, e.threads[t][0], e.threads[t][1..], t, ok, fault)) < EndWeight(e)
  {
    var (op, rest) := (e.threads[t][0], e.threads[t][1..]);
    ReplaceWeight(e, t, rest);
    var done := e.(threads := e.threads[t := rest]);
    match op
    case Send(f) => EmitWeight(done, up, f);
    case Fin(id, f) =>
    case Del(id, f) => RemoveWeight(done, id, f);
    case Dialing(id) => DialWeight(e, up, id, rest, t, ok, fault);
    case Piping(id, oneDone) => PipeWeight(e, up, id, oneDone, rest, t, ok, fault);
  }

  lemma AcceptWeight(e: End, f: Frame)
    requires e.loop.Idle?
    ensures EndWeight(Accept(e, f)) < EndWeight(e) + FrameWeight(f)
  {
    match f
    case Connect(id) =>
      var e' := e.(conns := e.conns[id := Fresh], table := e.table + {id}, linked := e.linked + {id});
      assert |e'.table| <= |e.table| + 1;
      SpawnWeight(e', [Dialing(id)]);
      assert Prog([Dialing(id)]) == 8;
    case Data(id, payload) => SpawnWeight(e, [Send(Error(id, NotFound))]); assert Prog([Send(Error(id, NotFound))]) == 3;
    case Error(id, fault) =>
  }

  /** New work enters only with a dial or a write. */
  predicate NewWork(l: Label) { l.Call? || l.Write? }

  lemma CloseSessionWeight(e: End)
    ensures var f := e.(table := {}, threads := e.threads + Tails(Listing(e.table)));
            f == e || EndWeight(f) < EndWeight(e)
  {
    ThreadsAppend(e.threads, Tails(Listing(e.table)));
    TailsWeight(Listing(e.table));
    if e.table == {} {
      assert Tails(Listing(e.table)) == [];
      assert e.threads + [] == e.threads;
    }
  }

  lemma SendConnectWeight(s: State, id: int)
    requires id in s.srv.calling
    ensures Weight(Next(s, SendConnect(id))) < Weight(s)
  {
    var e := s.srv.(calling := s.srv.calling - {id});
    assert |e.calling| == |s.srv.calling| - 1;
    FramesAppend(e.out, Connect(id));
    RemoveWeight(e, id, ClosedPipe);
  }

  lemma ServeWeight(s: State, side: Side, allowed: bool)
    ensures Next(s, Serve(side, allowed)) == s || Weight(Next(s, Serve(side, allowed))) < Weight(s)
  {
    var (e, p) := (s.At(side), s.Peer(side));
    if e.loop == Idle && !e.stopped && p.out != [] {
      AcceptWeight(e, p.out[0]);
      assert EndWeight(p.(out := p.out[1..])) == EndWeight(p) - FrameWeight(p.out[0]);
    }
  }

  lemma ChunkWeight(e: End, n: nat)
    requires e.loop.Copying? && e.loop.id in e.conns
    ensures CopyChunk(e, n) == e || EndWeight(CopyChunk(e, n)) < EndWeight(e)
  {}

  lemma DropWeight(e: End)
    requires e.loop.Failing?
    ensures EndWeight(Remove(e.(loop := Idle), e.loop.id, e.loop.fault)) < EndWeight(e)
  {
    RemoveWeight(e.(loop := Idle), e.loop.id, e.loop.fault);
  }

  lemma ReadWeight(s: State, side: Side, id: int, n: nat)
    ensures Weight(Next(s, Read(side, id, n))) == Weight(s)
  {}

  lemma CloseWeight(s: State, side: Side, id: int)
    ensures Next(s, Close(side, id)) == s || Weight(Next(s, Close(side, id))) < Weight(s)
  {
    RemoveWeight(s.At(side), id, Eof);
  }

  lemma ShutdownWeight(s: State, side: Side)
    ensures Next(s, CloseSession(side)) == s || Weight(Next(s, CloseSession(side))) < Weight(s)
  {
    CloseSessionWeight(s.At(side));
  }

  lemma CopyWeight(s: State, side: Side, n: nat)
    ensures Next(s, Chunk(side, n)) == s || Weight(Next(s, Chunk(side, n))) < Weight(s)
  {
    var e := s.At(side);
    if e.loop.Copying? && e.loop.id in e.conns { ChunkWeight(e, n); }
  }

  lemma CopyFailWeight(s: State, side: Side, fault: Fault)
    ensures Next(s, CopyFail(side, fault)) == s || Weight(Next(s, CopyFail(side, fault))) < Weight(s)
  {}

  lemma DropStepWeight(s: State, side: Side)
    ensures Next(s, Drop(side)) == s || Weight(Next(s, Drop(side))) < Weight(s)
  {
    if s.At(side).loop.Failing? { DropWeight(s.At(side)); }
  }

  lemma RunWeight(s: State, side: Side, t: nat, ok: bool, fault: Fault)
    ensures Next(s, Run(side, t, ok, fault)) == s || Weight(Next(s, Run(side, t, ok, fault))) < Weight(s)
  {
    var e := s.At(side);
    if t < |e.threads| && e.threads[t] != [] { StepWeight(e, s.up, t, ok, fault); }
  }

  /** Every step other than a dial, a write or a read either changes nothing or lowers the weight. */
  lemma NextWeight(s: State, l: Label)
    requires !NewWork(l)
    ensures l.Read? ==> Weight(Next(s, l)) == Weight(s)
    ensures !l.Read? ==> Next(s, l) == s || Weight(Next(s, l)) < Weight(s)
  {
    if l.Read? { ReadWeight(s, l.side, l.id, l.n); }
    else if l.Serve? { ServeWeight(s, l.side, l.allowed); }
    else if l.Chunk? { CopyWeight(s, l.side, l.n); }
    else if l.CopyFail? { CopyFailWeight(s, l.side, l.fault); }
    else if l.Drop? { DropStepWeight(s, l.side); }
    else if l.Run? { RunWeight(s, l.side, l.thread, l.ok, l.fault); }
    else if l.Close? { CloseWeight(s, l.side, l.id); }
    else if l.CloseSession? { ShutdownWeight(s, l.side); }
    else if l.SendConnect? { if l.id in s.srv.calling { SendConnectWeight(s, l.id); } }
  }

  /** The steps of a run that change the state, local reads not counted. */
  ghost function Moves(s: State, run: seq<Label>): nat
    decreases |run|
  {
    if run == [] then 0
    else (if run[0].Read? || Next(s, run[0]) == s then 0 else 1) + Moves(Next(s, run[0]), run[1..])
  }

  /** With no new dial or write, every run of the two endpoints, however long and however
      interleaved, takes at most Weight(s) steps: no echo goes on for ever. */
  lemma {:induction false} EchoDiesOut(s: State, run: seq<Label>)
    requires forall l :: l in run ==> !NewWork(l)
    ensures Moves(s, run) + Weight(After(s, run)) <= Weight(s)
    decreases |run|
  {
    if run != [] {
      NextWeight(s, run[0]);
      EchoDiesOut(Next(s, run[0]), run[1..]);
    }
  }

  /** Nothing in flight that anybody will still serve, and no goroutine with work left. */
  predicate Silent(s: State) {
    && (s.srv.out == [] || s.cli.stopped) && (s.cli.out == [] || s.srv.stopped)
    && s.srv.loop.Idle? && s.cli.loop.Idle? && s.srv.calling == {}
    && (forall p :: p in s.srv.threads + s.cli.threads ==> p == [])
  }

  predicate Internal(l: Label) { l.SendConnect? || l.Serve? || l.Chunk? || l.Drop? || l.Run? }

  /** While the tunnel is not silent some step of its own is enabled. */
  lemma SomeStep(s: State) returns (l: Label)
    requires Inv(s) && !Silent(s)
    ensures Internal(l) && Next(s, l) != s
  {
    if s.srv.calling != {} {
      l := SendConnect(Pick(s.srv.calling));
    } else if p :| p in s.srv.threads && p != [] {
      var t :| 0 <= t < |s.srv.threads| && s.srv.threads[t] == p;
      l := Run(Server, t, true, Eof);
      StepWeight(s.srv, s.up, t, true, Eof);
    } else if p :| p in s.cli.threads && p != [] {
      var t :| 0 <= t < |s.cli.threads| && s.cli.threads[t] == p;
      l := Run(Client, t, true, Eof);
      StepWeight(s.cli, s.up, t, true, Eof);
    } else {
      var side := if !s.srv.loop.Idle? || (s.cli.loop.Idle? && s.cli.out != [] && !s.srv.stopped) then Server else Client;
      var loop := s.At(side).loop;
      l := if loop.Idle? then Serve(side, true) else if loop.Copying? then Chunk(side, 1) else Drop(side);
      LoopMoves(s, side);
    }
  }

  lemma ServeMoves(s: State, side: Side)
    requires s.At(side).loop.Idle? && !s.At(side).stopped && s.Peer(side).out != []
    ensures Next(s, Serve(side, true)) != s
  {
    assert |s.Peer(side).out[1..]| < |s.Peer(side).out|;
  }

  lemma ChunkMoves(s: State, side: Side)
    requires s.At(side).loop.Copying? && s.At(side).loop.id in s.At(side).conns
    ensures Next(s, Chunk(side, 1)) != s
  {
    var rest := s.At(side).loop.rest;
    if rest != [] { assert |rest[1..]| < |rest|; }
  }

  lemma LoopMoves(s: State, side: Side)
    requires Inv(s)
    ensures s.At(side).loop.Idle? && !s.At(side).stopped && s.Peer(side).out != [] ==> Next(s, Serve(side, true)) != s
    ensures s.At(side).loop.Copying? ==> Next(s, Chunk(side, 1)) != s
    ensures s.At(side).loop.Failing? ==> Next(s, Drop(side)) != s
  {
    var e := s.At(side);
    if e.loop.Idle? && !e.stopped && s.Peer(side).out != [] { ServeMoves(s, side); }
    else if e.loop.Copying? { ChunkMoves(s, side); }
  }

  /** From every reachable state the tunnel's own steps lead, within Weight(s) steps, to silence. */
  lemma {:induction false} FallsSilent(s: State) returns (run: seq<Label>)
    requires Inv(s)
    ensures (forall l :: l in run ==> Internal(l)) && |run| <= Weight(s) && Silent(After(s, run))
    decreases Weight(s)
  {
    if Silent(s) {
      run := [];
    } else {
      var l := SomeStep(s);
      NextWeight(s, l);
      NextKeeps(s, l);
      var more := FallsSilent(Next(s, l));
      run := [l] + more;
      assert run[1..] == more;
    }
  }
}

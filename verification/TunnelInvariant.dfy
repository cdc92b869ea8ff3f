/** The invariant of the tunnel and its proof: every label keeps it, in every state. */
module TunnelInvariant {
  import opened Prelude
  import opened Connections
  import opened Tunnel

  // --- what the link carries ---

  /** Payload bytes in flight for one connection. */
  function Pay(fs: seq<Frame>, id: int): seq<Byte> {
    if fs == [] then [] else PayOf(fs[0], id) + Pay(fs[1..], id)
  }

  function PayOf(f: Frame, id: int): seq<Byte> { if f.Data? && f.id == id then f.payload else [] }

  lemma {:induction false} PayAppend(fs: seq<Frame>, f: Frame, id: int)
    ensures Pay(fs + [f], id) == Pay(fs, id) + PayOf(f, id)
  {
    if fs == [] {
      assert fs + [f] == [f];
    } else {
      PayAppend(fs[1..], f, id);
      var (a, b, c) := (PayOf(fs[0], id), Pay(fs[1..], id), PayOf(f, id));
      assert Pay(fs + [f], id) == a + Pay(fs[1..] + [f], id) by { assert (fs + [f])[1..] == fs[1..] + [f]; }
      assert a + (b + c) == (a + b) + c;
    }
  }

  /** Served in order from a receiver that knows `known`, no Data frame precedes its Connect and
      no Connect repeats. */
  predicate Ordered(fs: seq<Frame>, known: set<int>) {
    fs == [] ||
    match fs[0]
    case Connect(id) => id !in known && Ordered(fs[1..], known + {id})
    case Data(id, _) => id in known && Ordered(fs[1..], known)
    case Error(_, _) => Ordered(fs[1..], known)
  }

  /** The ids the receiver knows once all of `fs` is served. */
  function Known(fs: seq<Frame>, known: set<int>): (r: set<int>)
    ensures known <= r
  {
    if fs == [] then known else Known(fs[1..], if fs[0].Connect? then known + {fs[0].id} else known)
  }

  lemma {:induction false} OrderedAppend(fs: seq<Frame>, f: Frame, known: set<int>)
    requires Ordered(fs, known)
    requires f.Connect? ==> f.id !in Known(fs, known)
    requires f.Data? ==> f.id in Known(fs, known)
    ensures Ordered(fs + [f], known)
    ensures Known(fs + [f], known) == Known(fs, known) + (if f.Connect? then {f.id} else {})
  {
    if fs == [] {
      assert fs + [f] == [f];
    } else {
      OrderedAppend(fs[1..], f, if fs[0].Connect? then known + {fs[0].id} else known);
      assert (fs + [f])[1..] == fs[1..] + [f] && (fs + [f])[0] == fs[0];
    }
  }

  // --- the invariant ---

  predicate OpOk(linked: set<int>, op: Op) {
    op.Send? ==> !op.frame.Connect? && (op.frame.Data? ==> op.frame.id in linked)
  }

  predicate ProgOk(linked: set<int>, prog: seq<Op>) { forall op :: op in prog ==> OpOk(linked, op) }

  predicate EndOk(e: End) {
    && e.table <= e.conns.Keys && e.linked <= e.conns.Keys && e.calling <= e.conns.Keys
    && e.calling !! e.linked
    && (forall id :: id in e.conns ==> ConnOk(e.conns[id]))
    && (forall p :: p in e.threads ==> ProgOk(e.linked, p))
    && (e.loop.Idle? || e.loop.id in e.conns)
  }

  function Accepted(e: End, id: int): seq<Byte> { if id in e.conns then e.conns[id].accepted else [] }
  function Delivered(e: End, id: int): seq<Byte> { if id in e.conns then e.conns[id].delivered else [] }
  function Written(e: End, id: int): seq<Byte> { if id in e.conns then e.conns[id].written else [] }

  /** The end can still take Data for `id`: its Connect has not come yet or the entry is there. */
  predicate Receptive(e: End, id: int) {
    (id !in e.conns || id in e.table) && (e.loop.Idle? || e.loop.id != id)
  }

  /** From x to y nothing is invented, and nothing is lost while y can still take data. */
  predicate FlowAt(x: End, y: End, id: int) {
    && Accepted(y, id) <= Written(x, id)
    && (y.loop.Copying? && y.loop.id == id ==> Accepted(y, id) + y.loop.rest + Pay(x.out, id) == Written(x, id))
    && (Receptive(y, id) ==> Accepted(y, id) + Pay(x.out, id) == Written(x, id))
  }

  ghost predicate Flow(x: End, y: End) { forall id: int :: FlowAt(x, y, id) }

  predicate ClientFrame(conns: set<int>, f: Frame) { !f.Connect? && (f.Data? ==> f.id in conns) }

  predicate Wired(srv: End, cli: End) {
    && Ordered(srv.out, cli.conns.Keys) && Known(srv.out, cli.conns.Keys) == srv.linked
    && cli.linked == cli.conns.Keys && cli.calling == {}
    && (forall f :: f in cli.out ==> ClientFrame(cli.conns.Keys, f))
  }

  ghost predicate Inv(s: State) {
    && EndOk(s.srv) && EndOk(s.cli) && Wired(s.srv, s.cli)
    && (forall id :: id in s.srv.conns ==> id < s.next)
    && Flow(s.srv, s.cli) && Flow(s.cli, s.srv)
  }

  // --- steps that move no payload ---

  /** `f` is `e` after a step that neither moves payload nor touches the link. */
  predicate Tame(e: End, f: End) {
    && f.conns.Keys == e.conns.Keys && f.out == e.out && f.linked == e.linked && f.loop == e.loop
    && f.table <= e.table && f.calling <= e.calling
    && (forall id :: id in e.conns ==>
          f.conns[id].accepted == e.conns[id].accepted && f.conns[id].written == e.conns[id].written)
  }

  lemma TameKeeps(s: State, side: Side, e: End)
    requires Inv(s) && Tame(s.At(side), e) && EndOk(e)
    ensures Inv(s.With(side, e))
  {
    var t := s.With(side, e);
    forall id: int ensures FlowAt(t.srv, t.cli, id) && FlowAt(t.cli, t.srv, id) {
      assert FlowAt(s.srv, s.cli, id) && FlowAt(s.cli, s.srv, id);
    }
    if side.Client? {
      forall f | f in e.out ensures ClientFrame(e.conns.Keys, f) { assert ClientFrame(s.cli.conns.Keys, f); }
    }
  }

  lemma SpawnOk(e: End, prog: seq<Op>)
    requires EndOk(e) && ProgOk(e.linked, prog)
    ensures EndOk(Spawn(e, prog)) && Tame(e, Spawn(e, prog))
  {}

  lemma RemoveOk(e: End, id: int, f: Fault)
    requires EndOk(e)
    ensures EndOk(Remove(e, id, f)) && Tame(e, Remove(e, id, f))
  {
    assert ProgOk(e.linked, Tail(id, f));
  }

  lemma {:induction false} TailsOk(linked: set<int>, ids: seq<int>)
    ensures forall p :: p in Tails(ids) ==> ProgOk(linked, p)
  {
    if ids != [] {
      TailsOk(linked, ids[1..]);
      assert ProgOk(linked, Tail(ids[0], Disconnect));
    }
  }

  lemma CloseSessionOk(e: End)
    requires EndOk(e)
    ensures var f := e.(table := {}, threads := e.threads + Tails(Listing(e.table))); EndOk(f) && Tame(e, f)
  {
    TailsOk(e.linked, Listing(e.table));
  }

  lemma PutOk(e: End, id: int, c: Conn)
    requires EndOk(e) && id in e.conns && ConnOk(c)
    requires c.accepted == e.conns[id].accepted && c.written == e.conns[id].written
    ensures EndOk(Put(e, id, c)) && Tame(e, Put(e, id, c))
  {}

  /** Replacing a goroutine's program. */
  lemma ReplaceOk(e: End, t: nat, prog: seq<Op>)
    requires EndOk(e) && t < |e.threads| && ProgOk(e.linked, prog)
    ensures var f := e.(threads := e.threads[t := prog]); EndOk(f) && Tame(e, f)
  {}

  /** Every goroutine operation other than a link write is tame. */
  lemma StepOk(e: End, up: bool, op: Op, rest: seq<Op>, t: nat, ok: bool, fault: Fault)
    requires EndOk(e) && t < |e.threads| && ProgOk(e.linked, rest) && !op.Send?
    ensures EndOk(Step(e, up, op, rest, t, ok, fault)) && Tame(e, Step(e, up, op, rest, t, ok, fault))
  {
    ReplaceOk(e, t, rest);
    var done := e.(threads := e.threads[t := rest]);
    match op
    case Fin(id, f) =>
      if id in e.conns { PutOk(done, id, Shut(e.conns[id], Some(f))); }
    case Del(id, f) => RemoveOk(done, id, f);
    case Dialing(id) =>
      ReplaceOk(e, t, if ok then [Piping(id, false)] + rest else Tail(id, fault) + [Del(id, Eof)] + rest);
    case Piping(id, oneDone) =>
      ReplaceOk(e, t, [Fin(id, fault), Send(Error(id, fault)), Del(id, Eof)] + rest);
      if ok && !oneDone && id in e.conns {
        ReplaceOk(e, t, [Piping(id, true)] + rest);
        PutOk(e.(threads := e.threads[t := [Piping(id, true)] + rest]), id, Shut(e.conns[id], Some(fault)));
      }
  }

  // --- steps that move payload ---

  lemma EmitAccount(x: End, f: Frame, id: int)
    requires f.Data? ==> f.id in x.conns
    ensures var x' := Emit(x, true, f);
            && Written(x', id) == Written(x, id) + PayOf(f, id) && Pay(x'.out, id) == Pay(x.out, id) + PayOf(f, id)
            && Accepted(x', id) == Accepted(x, id) && (id in x'.conns <==> id in x.conns)
            && x'.table == x.table && x'.loop == x.loop
  {
    PayAppend(x.out, f, id);
  }

  lemma Regroup(a: seq<Byte>, b: seq<Byte>, c: seq<Byte>, d: seq<Byte>)
    ensures a + b + (c + d) == (a + b + c) + d && a + (c + d) == (a + c) + d
  {}

  lemma GrowFlow(x: End, x': End, y: End, more: seq<Byte>, id: int)
    requires FlowAt(x, y, id)
    requires Written(x', id) == Written(x, id) + more && Pay(x'.out, id) == Pay(x.out, id) + more
    ensures FlowAt(x', y, id)
  {
    Regroup(Accepted(y, id), if y.loop.Copying? then y.loop.rest else [], Pay(x.out, id), more);
  }

  lemma EmitFlow(x: End, y: End, f: Frame, id: int)
    requires FlowAt(x, y, id) && FlowAt(y, x, id) && (f.Data? ==> f.id in x.conns)
    ensures FlowAt(Emit(x, true, f), y, id) && FlowAt(y, Emit(x, true, f), id)
  {
    EmitAccount(x, f, id);
    GrowFlow(x, Emit(x, true, f), y, PayOf(f, id), id);
  }

  lemma EmitOk(e: End, f: Frame)
    requires EndOk(e)
    ensures EndOk(Emit(e, true, f)) && Emit(e, true, f).conns.Keys == e.conns.Keys
  {}

  /** Writing a Data or Error frame to the link. */
  lemma EmitKeeps(s: State, side: Side, f: Frame)
    requires Inv(s) && s.up && OpOk(s.At(side).linked, Send(f))
    ensures Inv(s.With(side, Emit(s.At(side), true, f)))
  {
    var e := s.At(side);
    EmitOk(e, f);
    forall id: int ensures FlowAt(Emit(e, true, f), s.Peer(side), id) && FlowAt(s.Peer(side), Emit(e, true, f), id) {
      assert FlowAt(e, s.Peer(side), id) && FlowAt(s.Peer(side), e, id);
      EmitFlow(e, s.Peer(side), f, id);
    }
    assert Flow(Emit(e, true, f), s.Peer(side)) && Flow(s.Peer(side), Emit(e, true, f));
    if side.Server? {
      OrderedAppend(e.out, f, s.cli.conns.Keys);
    }
  }

  lemma CallKeeps(s: State)
    requires Inv(s)
    ensures Inv(Next(s, Call))
  {
    var t := Next(s, Call);
    forall id: int ensures FlowAt(t.srv, t.cli, id) && FlowAt(t.cli, t.srv, id) {
      assert FlowAt(s.srv, s.cli, id) && FlowAt(s.cli, s.srv, id);
      if id == s.next {
        assert id !in s.srv.conns && id !in s.srv.linked && id !in s.cli.conns;
        ClientSilent(s.cli.out, s.cli.conns.Keys, id);
      }
    }
  }

  lemma {:induction false} ClientSilent(fs: seq<Frame>, conns: set<int>, id: int)
    requires id !in conns && forall f :: f in fs ==> ClientFrame(conns, f)
    ensures Pay(fs, id) == []
  {
    if fs != [] {
      assert ClientFrame(conns, fs[0]);
      forall f | f in fs[1..] ensures ClientFrame(conns, f) { assert f in fs; }
      ClientSilent(fs[1..], conns, id);
    }
  }

  lemma SendConnectKeeps(s: State, id: int)
    requires Inv(s) && id in s.srv.calling && s.up
    ensures Inv(Next(s, SendConnect(id)))
  {
    var t := Next(s, SendConnect(id));
    OrderedAppend(s.srv.out, Connect(id), s.cli.conns.Keys);
    forall p | p in t.srv.threads ensures ProgOk(t.srv.linked, p) {
      assert ProgOk(s.srv.linked, p);
    }
    forall k: int ensures FlowAt(t.srv, t.cli, k) && FlowAt(t.cli, t.srv, k) {
      assert FlowAt(s.srv, s.cli, k) && FlowAt(s.cli, s.srv, k);
      PayAppend(s.srv.out, Connect(id), k);
    }
  }

  lemma AcceptConnectOk(e: End, id: int)
    requires EndOk(e) && e.calling == {} && e.linked == e.conns.Keys
    ensures EndOk(Accept(e, Connect(id))) && Accept(e, Connect(id)).conns.Keys == e.conns.Keys + {id}
  {
    var e' := Accept(e, Connect(id));
    assert e'.conns.Keys == e.conns.Keys + {id};
    forall p | p in e'.threads ensures ProgOk(e'.linked, p) {
      if p in e.threads { assert ProgOk(e.linked, p); }
    }
  }

  lemma AcceptConnectSelf(x: End, e: End, id: int)
    requires x.out != [] && x.out[0] == Connect(id) && e.loop.Idle? && id !in e.conns && FlowAt(x, e, id)
    ensures FlowAt(x.(out := x.out[1..]), Accept(e, Connect(id)), id)
  {
    assert Pay(x.out, id) == [] + Pay(x.out[1..], id) == Pay(x.out[1..], id);
  }

  lemma AcceptConnectFlow(x: End, e: End, id: int, k: int)
    requires x.out != [] && x.out[0] == Connect(id) && e.loop.Idle? && id !in e.conns && FlowAt(x, e, k)
    ensures FlowAt(x.(out := x.out[1..]), Accept(e, Connect(id)), k)
  {
    if k == id {
      AcceptConnectSelf(x, e, id);
    } else {
      assert Pay(x.out, k) == [] + Pay(x.out[1..], k) == Pay(x.out[1..], k);
      var e' := Accept(e, Connect(id));
      assert Accepted(e', k) == Accepted(e, k) && (Receptive(e', k) <==> Receptive(e, k));
    }
  }

  lemma AcceptConnectBack(x: End, e: End, id: int, k: int)
    requires x.out != [] && id !in e.conns && FlowAt(e, x, k)
    ensures FlowAt(Accept(e, Connect(id)), x.(out := x.out[1..]), k)
  {}

  /** The client takes a Connect frame. */
  lemma ServeConnectKeeps(s: State, id: int)
    requires Inv(s) && s.cli.loop.Idle? && s.srv.out != [] && s.srv.out[0] == Connect(id)
    ensures Inv(s.WithBoth(Client, Accept(s.cli, Connect(id)), s.srv.(out := s.srv.out[1..])))
  {
    var cli := Accept(s.cli, Connect(id));
    var srv := s.srv.(out := s.srv.out[1..]);
    AcceptConnectOk(s.cli, id);
    forall f | f in cli.out ensures ClientFrame(cli.conns.Keys, f) { assert ClientFrame(s.cli.conns.Keys, f); }
    forall k: int ensures FlowAt(srv, cli, k) && FlowAt(cli, srv, k) {
      assert FlowAt(s.srv, s.cli, k) && FlowAt(s.cli, s.srv, k);
      AcceptConnectFlow(s.srv, s.cli, id, k);
      AcceptConnectBack(s.srv, s.cli, id, k);
    }
  }

  lemma ConnectFromServer(s: State, side: Side)
    requires Inv(s) && s.Peer(side).out != [] && s.Peer(side).out[0].Connect?
    ensures side.Client?
  {
    assert s.cli.out != [] ==> ClientFrame(s.cli.conns.Keys, s.cli.out[0]);
  }

  /** What the receiver of frame f sends, and its peer's reading, are as before. */
  lemma ServeFlowBack(x: End, e: End, f: Frame, id: int)
    requires FlowAt(e, x, id) && !f.Connect? && x.out != []
    ensures FlowAt(Accept(e, f), x.(out := x.out[1..]), id)
  {}

  lemma ServeFlow(x: End, e: End, id: int)
    requires x.out != [] && !x.out[0].Connect? && e.loop.Idle? && (x.out[0].Data? ==> x.out[0].id in e.conns)
    requires FlowAt(x, e, id)
    ensures FlowAt(x.(out := x.out[1..]), Accept(e, x.out[0]), id)
  {
    var (f, a, rest) := (x.out[0], Accepted(e, id), Pay(x.out[1..], id));
    if f.Data? && f.id == id {
      assert Pay(x.out, id) == f.payload + rest;
      assert a + (f.payload + rest) == a + f.payload + rest;
    } else {
      assert Pay(x.out, id) == [] + rest == rest;
    }
  }

  lemma ServeOk(e: End, f: Frame)
    requires EndOk(e) && !f.Connect? && (f.Data? ==> f.id in e.conns)
    ensures EndOk(Accept(e, f)) && Accept(e, f).conns == e.conns && Accept(e, f).out == e.out
  {
    assert ProgOk(e.linked, [Send(Error(f.id, NotFound))]);
  }

  /** Either side takes a Data or Error frame. */
  lemma ServeKeeps(s: State, side: Side)
    requires Inv(s) && s.At(side).loop.Idle? && s.Peer(side).out != [] && !s.Peer(side).out[0].Connect?
    ensures var p := s.Peer(side);
            Inv(s.WithBoth(side, Accept(s.At(side), p.out[0]), p.(out := p.out[1..])))
  {
    var (p, e) := (s.Peer(side), s.At(side));
    var (p', e') := (p.(out := p.out[1..]), Accept(e, p.out[0]));
    if p.out[0].Data? { FrontKnown(s, side); }
    ServeOk(e, p.out[0]);
    forall g | g in p'.out ensures g in p.out {}
    forall id: int ensures FlowAt(p', e', id) && FlowAt(e', p', id) {
      assert FlowAt(p, e, id) && FlowAt(e, p, id);
      ServeFlow(p, e, id);
      ServeFlowBack(p, e, p.out[0], id);
    }
  }

  /** The connection named by a Data frame at the front of the link exists at the receiver. */
  lemma FrontKnown(s: State, side: Side)
    requires Inv(s) && s.Peer(side).out != [] && s.Peer(side).out[0].Data?
    ensures s.Peer(side).out[0].id in s.At(side).conns
  {
    if side.Server? {
      assert ClientFrame(s.cli.conns.Keys, s.cli.out[0]);
    }
  }

  /** A change of the receiver that leaves what it sends alone. */
  lemma ReceiverKeeps(s: State, side: Side, e: End)
    requires Inv(s) && EndOk(e) && Flow(s.Peer(side), e)
    requires s.At(side).conns.Keys == e.conns.Keys && e.out == s.At(side).out
    requires e.linked == s.At(side).linked && e.calling == s.At(side).calling
    requires forall id :: Written(e, id) == Written(s.At(side), id)
    ensures Inv(s.With(side, e))
  {
    var p := s.Peer(side);
    forall id: int ensures FlowAt(e, p, id) { assert FlowAt(s.At(side), p, id); }
    if side.Client? {
      forall f | f in e.out ensures ClientFrame(e.conns.Keys, f) { assert ClientFrame(s.cli.conns.Keys, f); }
    }
  }

  lemma ChunkTaken(x: End, e: End, n: nat)
    requires EndOk(e) && e.loop.Copying? && 1 <= n <= |e.loop.rest| && FlowAt(x, e, e.loop.id)
    ensures FlowAt(x, CopyChunk(e, n), e.loop.id)
  {
    var Copying(c, rest) := e.loop;
    var (a, p) := (Accepted(e, c), Pay(x.out, c));
    assert rest == rest[..n] + rest[n..];
    assert a + (rest[..n] + rest[n..]) + p == (a + rest[..n]) + rest[n..] + p;
  }

  lemma ChunkFlow(x: End, e: End, n: nat, id: int)
    requires EndOk(e) && FlowAt(x, e, id) && e.loop.Copying?
    ensures FlowAt(x, CopyChunk(e, n), id)
  {
    if id == e.loop.id && 1 <= n <= |e.loop.rest| { ChunkTaken(x, e, n); }
  }

  lemma ChunkOk(e: End, n: nat)
    requires EndOk(e) && e.loop.Copying?
    ensures var f := CopyChunk(e, n);
            && EndOk(f) && f.conns.Keys == e.conns.Keys && f.out == e.out && f.linked == e.linked && f.calling == e.calling
            && (forall id :: Written(f, id) == Written(e, id))
  {
    if 1 <= n <= |e.loop.rest| {
      OfferKeeps(e.conns[e.loop.id], e.loop.rest[..n]);
    }
  }

  lemma ChunkKeeps(s: State, side: Side, n: nat)
    requires Inv(s) && s.At(side).loop.Copying?
    ensures Inv(s.With(side, CopyChunk(s.At(side), n)))
  {
    var (e, p) := (s.At(side), s.Peer(side));
    ChunkOk(e, n);
    ChunkFlows(p, e, n);
    ReceiverKeeps(s, side, CopyChunk(e, n));
  }

  lemma ChunkFlows(x: End, e: End, n: nat)
    requires EndOk(e) && Flow(x, e) && e.loop.Copying?
    ensures Flow(x, CopyChunk(e, n))
  {
    forall id: int ensures FlowAt(x, CopyChunk(e, n), id) {
      assert FlowAt(x, e, id);
      ChunkFlow(x, e, n, id);
    }
  }

  lemma CopyFailKeeps(s: State, side: Side, fault: Fault)
    requires Inv(s) && s.At(side).loop.Copying?
    ensures Inv(Next(s, CopyFail(side, fault)))
  {
    var e := s.At(side);
    var e' := e.(loop := Failing(e.loop.id, fault));
    forall id: int ensures FlowAt(s.Peer(side), e', id) { assert FlowAt(s.Peer(side), e, id); }
    ReceiverKeeps(s, side, e');
  }

  lemma DropKeeps(s: State, side: Side)
    requires Inv(s) && s.At(side).loop.Failing?
    ensures Inv(Next(s, Drop(side)))
  {
    var e := s.At(side);
    var e' := Remove(e.(loop := Idle), e.loop.id, e.loop.fault);
    RemoveOk(e.(loop := Idle), e.loop.id, e.loop.fault);
    forall id: int ensures FlowAt(s.Peer(side), e', id) {
      assert FlowAt(s.Peer(side), e, id);
    }
    ReceiverKeeps(s, side, e');
  }

  lemma SendConnectStep(s: State, id: int)
    requires Inv(s)
    ensures Inv(Next(s, SendConnect(id)))
  {
    if id in s.srv.calling {
      if s.up {
        SendConnectKeeps(s, id);
      } else {
        var e := s.srv.(calling := s.srv.calling - {id});
        RemoveOk(e, id, ClosedPipe);
        TameKeeps(s, Server, Remove(e, id, ClosedPipe));
      }
    }
  }

  lemma WriteStep(s: State, side: Side, id: int, data: seq<Byte>)
    requires Inv(s)
    ensures Inv(Next(s, Write(side, id, data)))
  {
    var e := s.At(side);
    if id in e.linked && id in e.conns {
      SpawnOk(e, [Send(Data(id, data))]);
      TameKeeps(s, side, Spawn(e, [Send(Data(id, data))]));
    }
  }

  lemma ReadStep(s: State, side: Side, id: int, n: nat)
    requires Inv(s)
    ensures Inv(Next(s, Read(side, id, n)))
  {
    var e := s.At(side);
    if id in e.conns {
      ReceiveKeeps(e.conns[id], n);
      PutOk(e, id, Receive(e.conns[id], n).0);
      TameKeeps(s, side, Put(e, id, Receive(e.conns[id], n).0));
    }
  }

  lemma CloseStep(s: State, side: Side, id: int)
    requires Inv(s)
    ensures Inv(Next(s, Close(side, id)))
  {
    RemoveOk(s.At(side), id, Eof);
    TameKeeps(s, side, Remove(s.At(side), id, Eof));
  }

  lemma CloseSessionStep(s: State, side: Side)
    requires Inv(s)
    ensures Inv(Next(s, CloseSession(side)))
  {
    var e := s.At(side);
    CloseSessionOk(e);
    TameKeeps(s, side, e.(table := {}, threads := e.threads + Tails(Listing(e.table))));
  }

  lemma ServeStep(s: State, side: Side, allowed: bool)
    requires Inv(s)
    ensures Inv(Next(s, Serve(side, allowed)))
  {
    var (e, p) := (s.At(side), s.Peer(side));
    if e.loop == Idle && !e.stopped && p.out != [] {
      if !p.out[0].Connect? { ServeKeeps(s, side); }
      else if !allowed { TameKeeps(s, side, e.(stopped := true)); }
      else {
        assert side.Client? by { ConnectFromServer(s, side); }
        ServeConnectKeeps(s, p.out[0].id);
      }
    }
  }

  lemma ChunkStep(s: State, side: Side, n: nat)
    requires Inv(s)
    ensures Inv(Next(s, Chunk(side, n)))
  {
    if s.At(side).loop.Copying? { ChunkKeeps(s, side, n); }
  }

  lemma RunStep(s: State, side: Side, t: nat, ok: bool, fault: Fault)
    requires Inv(s)
    ensures Inv(Next(s, Run(side, t, ok, fault)))
  {
    if t < |s.At(side).threads| && s.At(side).threads[t] != [] { RunKeeps(s, side, t, ok, fault); }
  }

  lemma LinkDownStep(s: State)
    requires Inv(s)
    ensures Inv(Next(s, LinkDown))
  {}

  /** Every label keeps the invariant. */
  lemma NextKeeps(s: State, l: Label)
    requires Inv(s)
    ensures Inv(Next(s, l))
  {
    match l
    case Call => CallKeeps(s);
    case SendConnect(id) => SendConnectStep(s, id);
    case Write(side, id, data) => WriteStep(s, side, id, data);
    case Read(side, id, n) => ReadStep(s, side, id, n);
    case Close(side, id) => CloseStep(s, side, id);
    case CloseSession(side) => CloseSessionStep(s, side);
    case Serve(side, allowed) => ServeStep(s, side, allowed);
    case Chunk(side, n) => ChunkStep(s, side, n);
    case CopyFail(side, fault) => if s.At(side).loop.Copying? { CopyFailKeeps(s, side, fault); }
    case Drop(side) => if s.At(side).loop.Failing? { DropKeeps(s, side); }
    case Run(side, t, ok, fault) => RunStep(s, side, t, ok, fault);
    case LinkDown => LinkDownStep(s);
  }

  /** A link write, once it has left its goroutine. */
  lemma SendKeeps(s: State, side: Side, t: nat, f: Frame, rest: seq<Op>)
    requires Inv(s) && t < |s.At(side).threads| && ProgOk(s.At(side).linked, rest) && OpOk(s.At(side).linked, Send(f))
    ensures var e := s.At(side); Inv(s.With(side, Emit(e.(threads := e.threads[t := rest]), s.up, f)))
  {
    var e := s.At(side);
    ReplaceOk(e, t, rest);
    var done := e.(threads := e.threads[t := rest]);
    TameKeeps(s, side, done);
    if s.up {
      EmitKeeps(s.With(side, done), side, f);
      assert s.With(side, done).With(side, Emit(done, true, f)) == s.With(side, Emit(done, true, f));
    }
  }

  lemma ProgSplits(linked: set<int>, prog: seq<Op>)
    requires prog != [] && ProgOk(linked, prog)
    ensures OpOk(linked, prog[0]) && ProgOk(linked, prog[1..])
  {
    forall o | o in prog[1..] ensures OpOk(linked, o) { assert o in prog; }
  }

  lemma RunKeeps(s: State, side: Side, t: nat, ok: bool, fault: Fault)
    requires Inv(s) && t < |s.At(side).threads| && s.At(side).threads[t] != []
    ensures Inv(Next(s, Run(side, t, ok, fault)))
  {
    var e := s.At(side);
    var (op, rest) := (e.threads[t][0], e.threads[t][1..]);
    assert e.threads[t] in e.threads;
    ProgSplits(e.linked, e.threads[t]);
    if op.Send? {
      SendKeeps(s, side, t, op.frame, rest);
    } else {
      StepOk(e, s.up, op, rest, t, ok, fault);
      TameKeeps(s, side, Step(e, s.up, op, rest, t, ok, fault));
    }
  }

  lemma InitOk()
    ensures Inv(Init)
  {}

  lemma {:induction false} AfterKeeps(s: State, run: seq<Label>)
    requires Inv(s)
    ensures Inv(After(s, run))
    decreases |run|
  {
    if run != [] {
      NextKeeps(s, run[0]);
      AfterKeeps(Next(s, run[0]), run[1..]);
    }
  }
}

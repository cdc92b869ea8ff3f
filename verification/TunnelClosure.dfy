/**
 * Nothing leaks.  An entry of either table is owed a removal, and an open queue its close, by some
 * goroutine, frame or call under way; so when the tunnel falls silent with the link up, both tables are
 * empty and every queue on either side has been closed.
 */
module TunnelClosure {
  import opened Prelude
  import opened Connections
  import opened Tunnel
  import opened TunnelInvariant
  import opened TunnelSilence

  /** What a goroutine may still owe a connection: telling the peer, leaving the table, closing the queue. */
  datatype Duty = Tell | Leave | Finish

  predicate Does(op: Op, duty: Duty, id: int) {
    match op
    case Send(f) => duty.Tell? && f.Error? && f.id == id
    case Fin(i, _) => duty.Finish? && i == id
    case Del(i, _) => duty.Leave? && i == id
    case Dialing(i) => i == id
    case Piping(i, _) => i == id
  }

  ghost predicate ProgHas(p: seq<Op>, duty: Duty, id: int) { exists op :: op in p && Does(op, duty, id) }

  ghost predicate Has(ts: seq<seq<Op>>, duty: Duty, id: int) { exists p :: p in ts && ProgHas(p, duty, id) }

  lemma HasMore(ts: seq<seq<Op>>, us: seq<seq<Op>>, duty: Duty, id: int)
    ensures Has(ts, duty, id) || Has(us, duty, id) ==> Has(ts + us, duty, id)
  {
    if Has(ts, duty, id) {
      var p :| p in ts && ProgHas(p, duty, id);
      assert p in ts + us;
    }
    if Has(us, duty, id) {
      var p :| p in us && ProgHas(p, duty, id);
      assert p in ts + us;
    }
  }

  lemma HasSpawned(ts: seq<seq<Op>>, p: seq<Op>, duty: Duty, id: int)
    ensures Has(ts, duty, id) ==> Has(ts + [p], duty, id)
    ensures ProgHas(p, duty, id) ==> Has(ts + [p], duty, id)
  {
    HasMore(ts, [p], duty, id);
    assert p in ts + [p];
  }

  /** Replacing one program by another that owes at least as much. */
  lemma HasReplaced(ts: seq<seq<Op>>, t: nat, p: seq<Op>, duty: Duty, id: int)
    requires t < |ts| && (ProgHas(ts[t], duty, id) ==> ProgHas(p, duty, id))
    ensures Has(ts, duty, id) ==> Has(ts[t := p], duty, id)
  {
    if Has(ts, duty, id) {
      var q :| q in ts && ProgHas(q, duty, id);
      var i :| 0 <= i < |ts| && ts[i] == q;
      assert ts[t := p][i] == if i == t then p else q;
      assert ts[t := p][i] in ts[t := p];
    }
  }

  lemma TailHas(id: int, f: Fault)
    ensures ProgHas(Tail(id, f), Tell, id) && ProgHas(Tail(id, f), Finish, id)
  {
    assert Send(Error(id, f)) in Tail(id, f) && Does(Send(Error(id, f)), Tell, id);
    assert Fin(id, f) in Tail(id, f) && Does(Fin(id, f), Finish, id);
  }

  /** The rest of a program owes what the program does, but for its first operation. */
  lemma RestHas(op: Op, rest: seq<Op>, duty: Duty, id: int)
    ensures ProgHas([op] + rest, duty, id) <==> Does(op, duty, id) || ProgHas(rest, duty, id)
  {
    if Does(op, duty, id) { assert op in [op] + rest; }
    if ProgHas(rest, duty, id) {
      var o :| o in rest && Does(o, duty, id);
      assert o in [op] + rest;
    }
  }

  /** A finished dial or pipe becomes a program that owes the same. */
  lemma EndingHas(id: int, f: Fault, rest: seq<Op>, duty: Duty, k: int)
    requires ProgHas(rest, duty, k) || k == id
    ensures ProgHas(Tail(id, f) + [Del(id, Eof)] + rest, duty, k)
    ensures ProgHas([Fin(id, f), Send(Error(id, f)), Del(id, Eof)] + rest, duty, k)
  {
    var (p, q) := (Tail(id, f) + [Del(id, Eof)] + rest, [Fin(id, f), Send(Error(id, f)), Del(id, Eof)] + rest);
    if k == id {
      var op := match duty case Tell => Send(Error(id, f)) case Leave => Del(id, Eof) case Finish => Fin(id, f);
      assert op in p && op in q && Does(op, duty, k);
    } else {
      var op :| op in rest && Does(op, duty, k);
      assert op in p && op in q;
    }
  }

  /** A goroutine's operation keeps every duty but one it has just done. */
  lemma StepHas(e: End, up: bool, t: nat, ok: bool, fault: Fault, duty: Duty, id: int)
    requires t < |e.threads| && e.threads[t] != [] && Has(e.threads, duty, id)
    ensures var op := e.threads[t][0];
      Has(Step(e, up, op, e.threads[t][1..], t, ok, fault).threads, duty, id)
      || (Does(op, duty, id) && (op.Send? || op.Fin? || op.Del?))
  {
    var (op, rest) := (e.threads[t][0], e.threads[t][1..]);
    assert e.threads[t] == [op] + rest;
    RestHas(op, rest, duty, id);
    match op
    case Send(f) => if !Does(op, duty, id) { HasReplaced(e.threads, t, rest, duty, id); }
    case Fin(i, f) => if !Does(op, duty, id) { HasReplaced(e.threads, t, rest, duty, id); }
    case Del(i, f) =>
      if !Does(op, duty, id) {
        HasReplaced(e.threads, t, rest, duty, id);
        HasSpawned(e.threads[t := rest], Tail(i, f), duty, id);
      }
    case Dialing(i) => DialHas(e, i, rest, t, ok, fault, duty, id);
    case Piping(i, oneDone) => DialHas(e, i, rest, t, ok, fault, duty, id);
  }

  lemma DialHas(e: End, i: int, rest: seq<Op>, t: nat, ok: bool, f: Fault, duty: Duty, id: int)
    requires t < |e.threads| && Has(e.threads, duty, id)
    requires ProgHas(e.threads[t], duty, id) ==> i == id || ProgHas(rest, duty, id)
    ensures Has(e.threads[t := [Piping(i, false)] + rest], duty, id) && Has(e.threads[t := [Piping(i, true)] + rest], duty, id)
    ensures Has(e.threads[t := Tail(i, f) + [Del(i, Eof)] + rest], duty, id)
    ensures Has(e.threads[t := [Fin(i, f), Send(Error(i, f)), Del(i, Eof)] + rest], duty, id)
  {
    RestHas(Piping(i, false), rest, duty, id);
    RestHas(Piping(i, true), rest, duty, id);
    if ProgHas(e.threads[t], duty, id) { EndingHas(i, f, rest, duty, id); }
    HasReplaced(e.threads, t, [Piping(i, false)] + rest, duty, id);
    HasReplaced(e.threads, t, [Piping(i, true)] + rest, duty, id);
    HasReplaced(e.threads, t, Tail(i, f) + [Del(i, Eof)] + rest, duty, id);
    HasReplaced(e.threads, t, [Fin(i, f), Send(Error(i, f)), Del(i, Eof)] + rest, duty, id);
  }

  // --- what is owed ---

  predicate Open(e: End, id: int) { id in e.conns && e.conns[id].err.None? }

  /** An open queue is still in the table or owed its close. */
  ghost predicate FinishAt(e: End, id: int) { Open(e, id) ==> id in e.table || Has(e.threads, Finish, id) }

  /** An entry of the client's table is owed its removal by its dial goroutine. */
  ghost predicate LeaveAt(e: End, id: int) { id in e.table ==> Has(e.threads, Leave, id) }

  ghost predicate ErrorIn(fs: seq<Frame>, id: int) { exists f :: f in fs && f.Error? && f.id == id }

  /** Word that will end the server's entry: its Connect is still to go out or to arrive, or the client
      owes an Error frame, or that frame is on its way or just being served. */
  ghost predicate Told(srv: End, cli: End, id: int) {
    || id in srv.calling || Connect(id) in srv.out || Has(cli.threads, Tell, id) || ErrorIn(cli.out, id)
    || (srv.loop.Failing? && srv.loop.id == id)
  }

  ghost predicate TellAt(srv: End, cli: End, id: int) { id in srv.table ==> Told(srv, cli, id) }

  ghost predicate Owed(s: State) {
    && (forall id: int :: FinishAt(s.srv, id)) && (forall id: int :: FinishAt(s.cli, id))
    && (forall id: int :: LeaveAt(s.cli, id))
    && (s.up ==> forall id: int :: TellAt(s.srv, s.cli, id))
  }

  // --- every step keeps it ---

  lemma RemoveFinish(e: End, k: int, f: Fault, id: int)
    requires FinishAt(e, id)
    ensures FinishAt(Remove(e, k, f), id)
  {
    HasSpawned(e.threads, Tail(k, f), Finish, id);
    TailHas(k, f);
  }

  lemma StepFinish(e: End, up: bool, t: nat, ok: bool, fault: Fault, id: int)
    requires t < |e.threads| && e.threads[t] != [] && FinishAt(e, id)
    ensures FinishAt(Step(e, up, e.threads[t][0], e.threads[t][1..], t, ok, fault), id)
  {
    var (op, rest) := (e.threads[t][0], e.threads[t][1..]);
    if op.Del? {
      var done := e.(threads := e.threads[t := rest]);
      assert e.threads[t] == [op] + rest;
      RestHas(op, rest, Finish, id);
      HasReplaced(e.threads, t, rest, Finish, id);
      RemoveFinish(done, op.id, op.fault, id);
    } else if Has(e.threads, Finish, id) {
      StepHas(e, up, t, ok, fault, Finish, id);
    }
  }

  lemma {:induction false} TailsHas(ids: seq<int>, id: int)
    requires id in ids
    ensures Has(Tails(ids), Finish, id)
  {
    if ids[0] == id {
      TailHas(id, Disconnect);
      assert Tails(ids)[0] == Tail(id, Disconnect);
    } else {
      TailsHas(ids[1..], id);
      HasMore([Tail(ids[0], Disconnect)], Tails(ids[1..]), Finish, id);
    }
  }

  lemma CloseSessionFinish(e: End, id: int)
    requires FinishAt(e, id)
    ensures FinishAt(e.(table := {}, threads := e.threads + Tails(Listing(e.table))), id)
  {
    if id in e.table { TailsHas(Listing(e.table), id); }
    HasMore(e.threads, Tails(Listing(e.table)), Finish, id);
  }

  lemma AcceptFinish(e: End, f: Frame, id: int)
    requires FinishAt(e, id)
    ensures FinishAt(Accept(e, f), id)
  {
    HasSpawned(e.threads, [Dialing(f.id)], Finish, id);
    HasSpawned(e.threads, [Send(Error(f.id, NotFound))], Finish, id);
  }

  /** Labels that only move bytes or drop the link. */
  lemma PlainFinish(s: State, l: Label, side: Side, id: int)
    requires FinishAt(s.At(side), id) && (l.Call? || l.Read? || l.Chunk? || l.CopyFail? || l.LinkDown?)
    ensures FinishAt(Next(s, l).At(side), id)
  {}

  lemma SendConnectFinish(s: State, k: int, side: Side, id: int)
    requires FinishAt(s.At(side), id)
    ensures FinishAt(Next(s, SendConnect(k)).At(side), id)
  {
    if side.Server? { RemoveFinish(s.srv.(calling := s.srv.calling - {k}), k, ClosedPipe, id); }
  }

  lemma ServeFinish(s: State, at: Side, allowed: bool, side: Side, id: int)
    requires FinishAt(s.At(side), id)
    ensures FinishAt(Next(s, Serve(at, allowed)).At(side), id)
  {
    if s.Peer(at).out != [] { AcceptFinish(s.At(side), s.Peer(at).out[0], id); }
  }

  lemma NextFinish(s: State, l: Label, side: Side, id: int)
    requires FinishAt(s.At(side), id)
    ensures FinishAt(Next(s, l).At(side), id)
  {
    var e := s.At(side);
    if l.SendConnect? { SendConnectFinish(s, l.id, side, id); }
    else if l.Serve? { ServeFinish(s, l.side, l.allowed, side, id); }
    else if l.Write? { HasSpawned(e.threads, [Send(Data(l.id, l.data))], Finish, id); }
    else if l.Close? { RemoveFinish(e, l.id, Eof, id); }
    else if l.CloseSession? { CloseSessionFinish(e, id); }
    else if l.Drop? { if e.loop.Failing? { RemoveFinish(e.(loop := Idle), e.loop.id, e.loop.fault, id); } }
    else if l.Run? {
      if l.side == side && l.thread < |e.threads| && e.threads[l.thread] != [] {
        StepFinish(e, s.up, l.thread, l.ok, l.fault, id);
      }
    } else { PlainFinish(s, l, side, id); }
  }

  /** Either the client's entry is gone or somebody still owes it. */
  lemma StepLeave(e: End, up: bool, t: nat, ok: bool, fault: Fault, id: int)
    requires t < |e.threads| && e.threads[t] != [] && LeaveAt(e, id)
    ensures LeaveAt(Step(e, up, e.threads[t][0], e.threads[t][1..], t, ok, fault), id)
  {
    if id in e.table { StepHas(e, up, t, ok, fault, Leave, id); }
  }

  lemma AcceptLeave(e: End, f: Frame, id: int)
    requires LeaveAt(e, id)
    ensures LeaveAt(Accept(e, f), id)
  {
    HasSpawned(e.threads, [Dialing(f.id)], Leave, id);
    HasSpawned(e.threads, [Send(Error(f.id, NotFound))], Leave, id);
    assert Dialing(f.id) in [Dialing(f.id)] && Does(Dialing(f.id), Leave, f.id);
  }

  lemma RemoveLeave(e: End, k: int, f: Fault, id: int)
    requires LeaveAt(e, id)
    ensures LeaveAt(Remove(e, k, f), id)
  {
    HasSpawned(e.threads, Tail(k, f), Leave, id);
  }

  lemma ServeLeave(s: State, at: Side, allowed: bool, id: int)
    requires LeaveAt(s.cli, id)
    ensures LeaveAt(Next(s, Serve(at, allowed)).cli, id)
  {
    if s.Peer(at).out != [] { AcceptLeave(s.cli, s.Peer(at).out[0], id); }
  }

  lemma RunLeave(s: State, at: Side, t: nat, ok: bool, fault: Fault, id: int)
    requires LeaveAt(s.cli, id)
    ensures LeaveAt(Next(s, Run(at, t, ok, fault)).cli, id)
  {
    var e := s.cli;
    if at == Client && t < |e.threads| && e.threads[t] != [] { StepLeave(e, s.up, t, ok, fault, id); }
  }

  /** Labels that neither start nor run a goroutine of the client, and put nothing into its table. */
  lemma PlainLeave(s: State, l: Label, id: int)
    requires LeaveAt(s.cli, id) && (l.Call? || l.SendConnect? || l.Read? || l.Chunk? || l.CopyFail? || l.CloseSession? || l.LinkDown?)
    ensures LeaveAt(Next(s, l).cli, id)
  {}

  lemma NextLeave(s: State, l: Label, id: int)
    requires LeaveAt(s.cli, id)
    ensures LeaveAt(Next(s, l).cli, id)
  {
    var e := s.cli;
    if l.Serve? { ServeLeave(s, l.side, l.allowed, id); }
    else if l.Run? { RunLeave(s, l.side, l.thread, l.ok, l.fault, id); }
    else if l.Write? { HasSpawned(e.threads, [Send(Data(l.id, l.data))], Leave, id); }
    else if l.Close? { RemoveLeave(e, l.id, Eof, id); }
    else if l.Drop? { if e.loop.Failing? { RemoveLeave(e.(loop := Idle), e.loop.id, e.loop.fault, id); } }
    else { PlainLeave(s, l, id); }
  }

  // --- the server's entries ---

  /** `cli'` owes and sends the server at least what `cli` does. */
  ghost predicate TellsOn(cli: End, cli': End, id: int) {
    Has(cli.threads, Tell, id) || ErrorIn(cli.out, id) ==> Has(cli'.threads, Tell, id) || ErrorIn(cli'.out, id)
  }

  lemma EmitTells(e: End, f: Frame, id: int)
    ensures ErrorIn(e.out, id) || (f.Error? && f.id == id) ==> ErrorIn(Emit(e, true, f).out, id)
  {
    var out := e.out + [f];
    assert Emit(e, true, f).out == out;
    if ErrorIn(e.out, id) {
      var g :| g in e.out && g.Error? && g.id == id;
      assert g in out;
    }
    assert f in out;
  }

  lemma StepTells(e: End, t: nat, ok: bool, fault: Fault, id: int)
    requires t < |e.threads| && e.threads[t] != []
    ensures TellsOn(e, Step(e, true, e.threads[t][0], e.threads[t][1..], t, ok, fault), id)
  {
    var (op, rest) := (e.threads[t][0], e.threads[t][1..]);
    if op.Send? { EmitTells(e.(threads := e.threads[t := rest]), op.frame, id); }
    if Has(e.threads, Tell, id) { StepHas(e, true, t, ok, fault, Tell, id); }
  }

  lemma GrownTells(e: End, e': End, us: seq<seq<Op>>, id: int)
    requires e'.threads == e.threads + us && e'.out == e.out
    ensures TellsOn(e, e', id)
  {
    HasMore(e.threads, us, Tell, id);
  }

  lemma ClientTells(s: State, l: Label, id: int)
    requires s.up && !(l.Serve? && l.side.Server?)
    ensures TellsOn(s.cli, Next(s, l).cli, id)
  {
    var (e, e') := (s.cli, Next(s, l).cli);
    if l.Run? {
      if l.side.Client? && l.thread < |e.threads| && e.threads[l.thread] != [] { StepTells(e, l.thread, l.ok, l.fault, id); }
    } else {
      var us := ClientSpawns(s, l);
      GrownTells(e, e', us, id);
    }
  }

  /** Labels other than a goroutine's own step only start goroutines. */
  lemma ClientSpawns(s: State, l: Label) returns (us: seq<seq<Op>>)
    requires !l.Run? && !(l.Serve? && l.side.Server?)
    ensures Next(s, l).cli.threads == s.cli.threads + us && Next(s, l).cli.out == s.cli.out
  {
    us := Next(s, l).cli.threads[|s.cli.threads|..];
  }

  lemma StepTable(e: End, up: bool, op: Op, rest: seq<Op>, t: nat, ok: bool, fault: Fault)
    requires t < |e.threads|
    ensures Step(e, up, op, rest, t, ok, fault).table <= e.table
  {}

  /** Only a new dial enters the server's table. */
  lemma ServerTableGrows(s: State, l: Label, id: int)
    requires Inv(s)
    ensures id in Next(s, l).srv.table ==> id in s.srv.table || (l == Call && id == s.next)
  {
    var e := s.srv;
    if l.Run? {
      if l.side.Server? && l.thread < |e.threads| && e.threads[l.thread] != [] {
        StepTable(e, s.up, e.threads[l.thread][0], e.threads[l.thread][1..], l.thread, l.ok, l.fault);
      }
    } else {
      assert s.cli.out != [] ==> ClientFrame(s.cli.conns.Keys, s.cli.out[0]);
    }
  }

  lemma CallingTold(s: State, l: Label, id: int)
    requires s.up && id in s.srv.calling
    ensures id in Next(s, l).srv.calling || Connect(id) in Next(s, l).srv.out
  {}

  lemma ConnectTold(s: State, l: Label, id: int)
    requires Connect(id) in s.srv.out
    ensures Connect(id) in Next(s, l).srv.out || Has(Next(s, l).cli.threads, Tell, id)
  {
    if l.Serve? && l.side.Client? {
      var out := s.srv.out;
      assert out == [out[0]] + out[1..];
      HasSpawned(s.cli.threads, [Dialing(id)], Tell, id);
      assert Dialing(id) in [Dialing(id)] && Does(Dialing(id), Tell, id);
    } else if l.Run? {
      ServerOutGrows(s, l.side, l.thread, l.ok, l.fault, Connect(id));
    }
  }

  lemma ServerOutGrows(s: State, side: Side, t: nat, ok: bool, fault: Fault, f: Frame)
    requires f in s.srv.out
    ensures f in Next(s, Run(side, t, ok, fault)).srv.out
  {}

  /** The server serves a frame: an Error for this entry is now in its loop, any other leaves the rest in place. */
  lemma ServedTold(s: State, allowed: bool, id: int)
    requires Inv(s) && id in s.srv.table && ErrorIn(s.cli.out, id)
    ensures var t := Next(s, Serve(Server, allowed)); ErrorIn(t.cli.out, id) || (t.srv.loop.Failing? && t.srv.loop.id == id)
  {
    var out := s.cli.out;
    var f :| f in out && f.Error? && f.id == id;
    assert out == [out[0]] + out[1..];
    assert f == out[0] || f in out[1..];
  }

  lemma FailingTold(s: State, l: Label, id: int)
    requires s.srv.loop.Failing? && s.srv.loop.id == id
    ensures (Next(s, l).srv.loop.Failing? && Next(s, l).srv.loop.id == id) || id !in Next(s, l).srv.table
  {}

  lemma NextTell(s: State, l: Label, id: int)
    requires Inv(s) && s.up && TellAt(s.srv, s.cli, id)
    ensures TellAt(Next(s, l).srv, Next(s, l).cli, id)
  {
    var t := Next(s, l);
    if id !in t.srv.table {
    } else if id !in s.srv.table {
      ServerTableGrows(s, l, id);
    } else if id in s.srv.calling {
      CallingTold(s, l, id);
    } else if Connect(id) in s.srv.out {
      ConnectTold(s, l, id);
    } else if s.srv.loop.Failing? && s.srv.loop.id == id {
      FailingTold(s, l, id);
    } else if l.Serve? && l.side.Server? {
      if ErrorIn(s.cli.out, id) { ServedTold(s, l.allowed, id); }
    } else {
      ClientTells(s, l, id);
    }
  }

  /** Every label keeps what is owed. */
  lemma NextOwed(s: State, l: Label)
    requires Inv(s) && Owed(s)
    ensures Owed(Next(s, l))
  {
    var t := Next(s, l);
    forall id: int ensures FinishAt(t.srv, id) { assert FinishAt(s.srv, id); NextFinish(s, l, Server, id); }
    forall id: int ensures FinishAt(t.cli, id) { assert FinishAt(s.cli, id); NextFinish(s, l, Client, id); }
    forall id: int ensures LeaveAt(t.cli, id) { assert LeaveAt(s.cli, id); NextLeave(s, l, id); }
    if t.up {
      LinkStaysDown(s, l);
      forall id: int ensures TellAt(t.srv, t.cli, id) { assert TellAt(s.srv, s.cli, id); NextTell(s, l, id); }
    }
  }

  lemma LinkStaysDown(s: State, l: Label)
    requires Next(s, l).up
    ensures s.up
  {}

  lemma {:induction false} AfterOwed(s: State, run: seq<Label>)
    requires Inv(s) && Owed(s)
    ensures Inv(After(s, run)) && Owed(After(s, run))
    decreases |run|
  {
    if run != [] {
      NextKeeps(s, run[0]);
      NextOwed(s, run[0]);
      AfterOwed(Next(s, run[0]), run[1..]);
    }
  }

  /** Whenever, in any run, the tunnel is silent with the link up and both serve loops alive, no entry is
      left in either table and every queue ever made on either side has been closed. */
  lemma SilentMeansClosed(run: seq<Label>, side: Side, id: int)
    requires var s := After(Init, run); Silent(s) && s.up && !s.srv.stopped && !s.cli.stopped
    ensures var e := After(Init, run).At(side); e.table == {} && (id in e.conns ==> e.conns[id].closes == 1)
  {
    InitOk();
    assert Owed(Init);
    AfterOwed(Init, run);
    var s := After(Init, run);
    forall d: Duty, k: int ensures !Has(s.srv.threads, d, k) && !Has(s.cli.threads, d, k) { NobodyOwes(s, d, k); }
    forall k: int ensures k !in s.cli.table { assert LeaveAt(s.cli, k); }
    forall k: int ensures k !in s.srv.table { assert TellAt(s.srv, s.cli, k); }
    assert FinishAt(s.srv, id) && FinishAt(s.cli, id);
    if id in s.At(side).conns { assert ConnOk(s.At(side).conns[id]); }
  }

  lemma NobodyOwes(s: State, duty: Duty, id: int)
    requires Silent(s)
    ensures !Has(s.srv.threads, duty, id) && !Has(s.cli.threads, duty, id)
  {
    assert forall p :: p in s.srv.threads || p in s.cli.threads ==> p in s.srv.threads + s.cli.threads;
  }
}

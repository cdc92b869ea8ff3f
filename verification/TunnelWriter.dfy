/**
 * The order of writes.  A connection used by one writer at a time puts its frames on the link in the order of
 * its Write calls, so what the peer reads is a prefix of what the writer wrote.
 */
module TunnelWriter {
  import opened Prelude
  import opened Connections
  import opened Tunnel
  import opened TunnelInvariant
  import opened TunnelTheorems

  // --- Data frames a side has still to send ---

  predicate IsData(op: Op, id: int) { op.Send? && op.frame.Data? && op.frame.id == id }

  function ProgCount(p: seq<Op>, id: int): nat { if p == [] then 0 else (if IsData(p[0], id) then 1 else 0) + ProgCount(p[1..], id) }

  /** How many, over all goroutines. */
  function Count(ts: seq<seq<Op>>, id: int): nat { if ts == [] then 0 else ProgCount(ts[0], id) + Count(ts[1..], id) }

  ghost predicate ProgOnly(p: seq<Op>, id: int, d: seq<Byte>) { forall op :: op in p && IsData(op, id) ==> op.frame.payload == d }

  /** Each of them carries these bytes. */
  ghost predicate Only(ts: seq<seq<Op>>, id: int, d: seq<Byte>) { forall p :: p in ts ==> ProgOnly(p, id, d) }

  lemma {:induction false} NoData(p: seq<Op>, id: int)
    requires forall op :: op in p ==> !IsData(op, id)
    ensures ProgCount(p, id) == 0
  {
    if p != [] {
      assert p[0] in p;
      NoData(p[1..], id);
    }
  }

  lemma {:induction false} ProgAppend(p: seq<Op>, q: seq<Op>, id: int)
    ensures ProgCount(p + q, id) == ProgCount(p, id) + ProgCount(q, id)
  {
    if p == [] {
      assert p + q == q;
    } else {
      ProgAppend(p[1..], q, id);
      assert (p + q)[1..] == p[1..] + q;
    }
  }

  lemma {:induction false} CountAppend(ts: seq<seq<Op>>, us: seq<seq<Op>>, id: int)
    ensures Count(ts + us, id) == Count(ts, id) + Count(us, id)
  {
    if ts == [] {
      assert ts + us == us;
    } else {
      CountAppend(ts[1..], us, id);
      assert (ts + us)[1..] == ts[1..] + us;
    }
  }

  lemma {:induction false} CountReplaced(ts: seq<seq<Op>>, t: nat, p: seq<Op>, id: int)
    requires t < |ts|
    ensures Count(ts[t := p], id) + ProgCount(ts[t], id) == Count(ts, id) + ProgCount(p, id)
  {
    if t > 0 {
      CountReplaced(ts[1..], t - 1, p, id);
      assert ts[t := p][1..] == ts[1..][t - 1 := p];
    } else {
      assert ts[0 := p][1..] == ts[1..];
    }
  }

  /** A program without Data frames put before the rest of one. */
  lemma Prefixed(ts: seq<seq<Op>>, t: nat, p: seq<Op>, rest: seq<Op>, id: int, d: seq<Byte>)
    requires t < |ts| && ProgCount(ts[t], id) == ProgCount(rest, id) && forall op :: op in p ==> !IsData(op, id)
    requires forall op :: op in rest ==> op in ts[t]
    ensures Count(ts[t := p + rest], id) == Count(ts, id)
    ensures Only(ts, id, d) ==> Only(ts[t := p + rest], id, d)
  {
    NoData(p, id);
    ProgAppend(p, rest, id);
    CountReplaced(ts, t, p + rest, id);
    if Only(ts, id, d) {
      assert ts[t] in ts;
      assert ProgOnly(p + rest, id, d);
    }
  }

  /** Goroutines without Data frames started beside the others. */
  lemma Started(ts: seq<seq<Op>>, us: seq<seq<Op>>, id: int, d: seq<Byte>)
    requires forall p, op :: p in us && op in p ==> !IsData(op, id)
    ensures Count(ts + us, id) == Count(ts, id) && (Only(ts, id, d) ==> Only(ts + us, id, d))
  {
    CountAppend(ts, us, id);
    CountNone(us, id);
  }

  lemma {:induction false} CountNone(us: seq<seq<Op>>, id: int)
    requires forall p, op :: p in us && op in p ==> !IsData(op, id)
    ensures Count(us, id) == 0
  {
    if us != [] {
      assert us[0] in us;
      NoData(us[0], id);
      CountNone(us[1..], id);
    }
  }

  // --- one goroutine's step ---

  /** The Data frame a side sends in a step, if its connection is this one. */
  predicate Sends(e: End, t: nat, id: int) { t < |e.threads| && e.threads[t] != [] && IsData(e.threads[t][0], id) }

  lemma StepCounts(e: End, up: bool, t: nat, ok: bool, fault: Fault, id: int, d: seq<Byte>)
    requires t < |e.threads| && e.threads[t] != []
    ensures var r := Step(e, up, e.threads[t][0], e.threads[t][1..], t, ok, fault);
      && Count(r.threads, id) + (if Sends(e, t, id) then 1 else 0) == Count(e.threads, id)
      && (Only(e.threads, id, d) ==> Only(r.threads, id, d))
  {
    var (op, rest) := (e.threads[t][0], e.threads[t][1..]);
    assert e.threads[t] == [op] + rest;
    if op.Send? {
      CountReplaced(e.threads, t, rest, id);
      assert Only(e.threads, id, d) ==> ProgOnly(e.threads[t], id, d);
    } else {
      OtherCounts(e, up, t, ok, fault, id, d);
    }
  }

  lemma OtherCounts(e: End, up: bool, t: nat, ok: bool, fault: Fault, id: int, d: seq<Byte>)
    requires t < |e.threads| && e.threads[t] != [] && !e.threads[t][0].Send?
    ensures var r := Step(e, up, e.threads[t][0], e.threads[t][1..], t, ok, fault);
      Count(r.threads, id) == Count(e.threads, id) && (Only(e.threads, id, d) ==> Only(r.threads, id, d))
  {
    var (op, rest) := (e.threads[t][0], e.threads[t][1..]);
    assert e.threads[t] == [op] + rest;
    var r := Step(e, up, op, rest, t, ok, fault);
    if op.Dialing? || op.Piping? {
      var k := op.id;
      var p := if op.Dialing? then (if ok then [Piping(k, false)] else Tail(k, fault) + [Del(k, Eof)])
        else if ok && !op.oneDone && k in e.conns then [Piping(k, true)]
        else [Fin(k, fault), Send(Error(k, fault)), Del(k, Eof)];
      Prefixed(e.threads, t, p, rest, id, d);
      assert r.threads == e.threads[t := p + rest];
    } else {
      Prefixed(e.threads, t, [], rest, id, d);
      assert [] + rest == rest;
      if op.Del? { Started(e.threads[t := rest], [Tail(op.id, op.fault)], id, d); }
    }
  }

  // --- one writer ---

  /** The bytes passed to the Write calls of a run that were not refused, in the order of the calls. */
  ghost function Wrote(s: State, run: seq<Label>, side: Side, id: int): seq<Byte>
    decreases |run|
  {
    if run == [] then []
    else (if Writes(s, run[0], side, id) then run[0].data else []) + Wrote(Next(s, run[0]), run[1..], side, id)
  }

  /** An accepted Write call. */
  predicate Writes(s: State, l: Label, side: Side, id: int) {
    l.Write? && l.side == side && l.id == id && id in s.At(side).linked && id in s.At(side).conns && s.At(side).conns[id].err.None?
  }

  /** Each Write call has put its frame on the link before the next one begins. */
  ghost predicate OneWriter(s: State, run: seq<Label>, side: Side, id: int)
    decreases |run|
  {
    run == [] || ((Writes(s, run[0], side, id) ==> Count(s.At(side).threads, id) == 0) && OneWriter(Next(s, run[0]), run[1..], side, id))
  }

  /** `w` is what has been written by calls: on the link but for the bytes of the call under way. */
  ghost predicate InOrder(s: State, side: Side, id: int, w: seq<Byte>) {
    Written(s.At(side), id) <= w && (s.up ==> Caught(s.At(side), id, w))
  }

  ghost predicate Caught(e: End, id: int, w: seq<Byte>) {
    var sent := Written(e, id);
    sent <= w && (if Count(e.threads, id) == 0 then sent == w else Count(e.threads, id) == 1 && Only(e.threads, id, w[|sent|..]))
  }

  /** e' has the same bytes on the link and the same Data frames to send. */
  ghost predicate SameData(e: End, e': End, id: int, d: seq<Byte>) {
    && Written(e', id) == Written(e, id) && Count(e'.threads, id) == Count(e.threads, id)
    && (Only(e.threads, id, d) ==> Only(e'.threads, id, d))
  }

  lemma RemoveData(e: End, k: int, f: Fault, id: int, d: seq<Byte>)
    ensures SameData(e, Remove(e, k, f), id, d)
  {
    Started(e.threads, [Tail(k, f)], id, d);
  }

  lemma AcceptData(e: End, f: Frame, id: int, d: seq<Byte>)
    requires f.Connect? ==> f.id !in e.conns
    ensures SameData(e, Accept(e, f), id, d)
  {
    Started(e.threads, [[Dialing(f.id)]], id, d);
    Started(e.threads, [[Send(Error(f.id, NotFound))]], id, d);
  }

  lemma {:induction false} TailsNoData(ids: seq<int>, id: int)
    ensures forall p, op :: p in Tails(ids) && op in p ==> !IsData(op, id)
  {
    if ids != [] { TailsNoData(ids[1..], id); }
  }

  lemma CloseSessionData(e: End, id: int, d: seq<Byte>)
    ensures SameData(e, e.(table := {}, threads := e.threads + Tails(Listing(e.table))), id, d)
  {
    TailsNoData(Listing(e.table), id);
    Started(e.threads, Tails(Listing(e.table)), id, d);
  }

  lemma ServeData(s: State, at: Side, allowed: bool, side: Side, id: int, d: seq<Byte>)
    requires Inv(s)
    ensures SameData(s.At(side), Next(s, Serve(at, allowed)).At(side), id, d)
  {
    var p := s.Peer(at);
    if p.out != [] && at == side {
      if p.out[0].Connect? { ConnectFromServer(s, at); }
      AcceptData(s.At(side), p.out[0], id, d);
    }
  }

  lemma WriteData(s: State, l: Label, side: Side, id: int, d: seq<Byte>)
    requires l.Write? && !Writes(s, l, side, id)
    ensures SameData(s.At(side), Next(s, l).At(side), id, d)
  {
    Started(s.At(side).threads, if l.id == id then [] else [[Send(Data(l.id, l.data))]], id, d);
  }

  lemma ReadData(s: State, at: Side, k: int, n: nat, side: Side, id: int, d: seq<Byte>)
    ensures SameData(s.At(side), Next(s, Read(at, k, n)).At(side), id, d)
  {}

  lemma ChunkData(s: State, at: Side, n: nat, side: Side, id: int, d: seq<Byte>)
    ensures SameData(s.At(side), Next(s, Chunk(at, n)).At(side), id, d)
  {}

  lemma PlainData(s: State, l: Label, side: Side, id: int, d: seq<Byte>)
    requires Inv(s) && (l.Call? || l.CopyFail? || l.LinkDown? || (l.Run? && l.side != side))
    ensures SameData(s.At(side), Next(s, l).At(side), id, d)
  {}

  lemma SendConnectData(s: State, k: int, side: Side, id: int, d: seq<Byte>)
    ensures SameData(s.At(side), Next(s, SendConnect(k)).At(side), id, d)
  {
    var e := s.At(side);
    RemoveData(e.(calling := e.calling - {k}), k, ClosedPipe, id, d);
  }

  lemma CloseData(s: State, at: Side, k: int, side: Side, id: int, d: seq<Byte>)
    ensures SameData(s.At(side), Next(s, Close(at, k)).At(side), id, d)
  {
    if at == side { RemoveData(s.At(side), k, Eof, id, d); }
  }

  lemma DropData(s: State, at: Side, side: Side, id: int, d: seq<Byte>)
    ensures SameData(s.At(side), Next(s, Drop(at)).At(side), id, d)
  {
    var e := s.At(side);
    if at == side && e.loop.Failing? { RemoveData(e.(loop := Idle), e.loop.id, e.loop.fault, id, d); }
  }

  lemma ShutdownData(s: State, at: Side, side: Side, id: int, d: seq<Byte>)
    ensures SameData(s.At(side), Next(s, CloseSession(at)).At(side), id, d)
  {
    if at == side { CloseSessionData(s.At(side), id, d); }
  }

  /** Labels that neither write nor run a goroutine of this side. */
  lemma OtherData(s: State, l: Label, side: Side, id: int, d: seq<Byte>)
    requires Inv(s) && !Writes(s, l, side, id) && !(l.Run? && l.side == side)
    ensures SameData(s.At(side), Next(s, l).At(side), id, d)
  {
    if l.Serve? { ServeData(s, l.side, l.allowed, side, id, d); }
    else if l.Write? { WriteData(s, l, side, id, d); }
    else if l.SendConnect? { SendConnectData(s, l.id, side, id, d); }
    else if l.Close? { CloseData(s, l.side, l.id, side, id, d); }
    else if l.CloseSession? { ShutdownData(s, l.side, side, id, d); }
    else if l.Drop? { DropData(s, l.side, side, id, d); }
    else if l.Read? { ReadData(s, l.side, l.id, l.n, side, id, d); }
    else if l.Chunk? { ChunkData(s, l.side, l.n, side, id, d); }
    else { PlainData(s, l, side, id, d); }
  }

  /** The one frame to send goes out. */
  lemma SentCaught(e: End, r: End, id: int, w: seq<Byte>)
    requires Caught(e, id, w) && Count(e.threads, id) == 1 && Count(r.threads, id) == 0
    requires Written(r, id) == Written(e, id) + w[|Written(e, id)|..]
    ensures Caught(r, id, w)
  {
    assert Written(e, id) + w[|Written(e, id)|..] == w;
  }

  /** While the link is up. */
  lemma StepCaught(e: End, t: nat, ok: bool, fault: Fault, id: int, w: seq<Byte>)
    requires EndOk(e) && Caught(e, id, w) && t < |e.threads| && e.threads[t] != [] && OpOk(e.linked, e.threads[t][0])
    ensures Caught(Step(e, true, e.threads[t][0], e.threads[t][1..], t, ok, fault), id, w)
  {
    var (op, d) := (e.threads[t][0], w[|Written(e, id)|..]);
    var r := Step(e, true, op, e.threads[t][1..], t, ok, fault);
    StepCounts(e, true, t, ok, fault, id, d);
    StepWritten(e, true, t, ok, fault, id);
    if IsData(op, id) {
      assert e.threads[t] in e.threads && op in e.threads[t] && ProgOnly(e.threads[t], id, d);
      SentCaught(e, r, id, w);
    }
  }

  /** A goroutine of this side takes a step. */
  lemma RunOrder(s: State, side: Side, t: nat, ok: bool, fault: Fault, id: int, w: seq<Byte>)
    requires Inv(s) && InOrder(s, side, id, w) && t < |s.At(side).threads| && s.At(side).threads[t] != []
    ensures InOrder(Next(s, Run(side, t, ok, fault)), side, id, w)
  {
    var e := s.At(side);
    assert e.threads[t] in e.threads;
    ProgSplits(e.linked, e.threads[t]);
    if s.up { StepCaught(e, t, ok, fault, id, w); } else { StepWritten(e, false, t, ok, fault, id); }
  }

  lemma StepWritten(e: End, up: bool, t: nat, ok: bool, fault: Fault, id: int)
    requires t < |e.threads| && e.threads[t] != [] && EndOk(e) && OpOk(e.linked, e.threads[t][0])
    ensures var op := e.threads[t][0];
      Written(Step(e, up, op, e.threads[t][1..], t, ok, fault), id) ==
        Written(e, id) + if up && IsData(op, id) then op.frame.payload else []
  {}

  lemma WriteOrder(s: State, l: Label, side: Side, id: int, w: seq<Byte>)
    requires InOrder(s, side, id, w) && Writes(s, l, side, id) && Count(s.At(side).threads, id) == 0
    ensures InOrder(Next(s, l), side, id, w + l.data)
  {
    var (e, p) := (s.At(side), [Send(Data(id, l.data))]);
    CountAppend(e.threads, [p], id);
    var ps: seq<seq<Op>> := [p];
    assert p[1..] == [] && ps[1..] == [];
    assert ProgCount(p, id) == 1 + ProgCount(p[1..], id) == 1 && Count(ps, id) == 1 + Count(ps[1..], id) == 1;
    if s.up {
      assert (w + l.data)[|w|..] == l.data;
      NoneOnly(e.threads, id, l.data);
      assert ProgOnly(p, id, l.data);
    }
  }

  lemma {:induction false} NoneOnly(ts: seq<seq<Op>>, id: int, d: seq<Byte>)
    requires Count(ts, id) == 0
    ensures Only(ts, id, d)
  {
    if ts != [] {
      ProgNoneOnly(ts[0], id, d);
      NoneOnly(ts[1..], id, d);
      forall p | p in ts ensures ProgOnly(p, id, d) { assert p == ts[0] || p in ts[1..]; }
    }
  }

  lemma {:induction false} ProgNoneOnly(p: seq<Op>, id: int, d: seq<Byte>)
    requires ProgCount(p, id) == 0
    ensures ProgOnly(p, id, d)
  {
    if p != [] {
      ProgNoneOnly(p[1..], id, d);
      forall op | op in p && IsData(op, id) ensures op.frame.payload == d { assert op == p[0] || op in p[1..]; }
    }
  }

  lemma {:induction false} AfterOrder(s: State, run: seq<Label>, side: Side, id: int, w: seq<Byte>)
    requires Inv(s) && InOrder(s, side, id, w) && OneWriter(s, run, side, id)
    ensures InOrder(After(s, run), side, id, w + Wrote(s, run, side, id))
    decreases |run|
  {
    if run == [] {
      assert w + [] == w;
    } else {
      var l := run[0];
      var (more, t) := (if Writes(s, l, side, id) then l.data else [], Next(s, l));
      NextKeeps(s, l);
      NextOrder(s, l, side, id, w);
      AfterOrder(t, run[1..], side, id, w + more);
      Regroup(w, more, Wrote(t, run[1..], side, id));
    }
  }

  lemma Regroup(a: seq<Byte>, b: seq<Byte>, c: seq<Byte>)
    ensures a + b + c == a + (b + c)
  {}

  lemma NextOrder(s: State, l: Label, side: Side, id: int, w: seq<Byte>)
    requires Inv(s) && InOrder(s, side, id, w) && (Writes(s, l, side, id) ==> Count(s.At(side).threads, id) == 0)
    ensures InOrder(Next(s, l), side, id, w + if Writes(s, l, side, id) then l.data else [])
  {
    assert w + [] == w;
    if Writes(s, l, side, id) {
      WriteOrder(s, l, side, id, w);
    } else if l.Run? && l.side == side {
      if l.thread < |s.At(side).threads| && s.At(side).threads[l.thread] != [] { RunOrder(s, side, l.thread, l.ok, l.fault, id, w); }
    } else {
      OtherData(s, l, side, id, w[|Written(s.At(side), id)|..]);
      SameOrder(s, Next(s, l), side, id, w);
    }
  }

  lemma SameOrder(s: State, t: State, side: Side, id: int, w: seq<Byte>)
    requires InOrder(s, side, id, w) && (t.up ==> s.up)
    requires SameData(s.At(side), t.At(side), id, w[|Written(s.At(side), id)|..])
    ensures InOrder(t, side, id, w)
  {}

  /** With one writer at a time, what is put on the link, and so what the peer has read, is a prefix of what the
      writer wrote, in the order of its calls; while the link is up it is all of it once no call is under way. */
  lemma ReadsWhatWasWritten(run: seq<Label>, side: Side, id: int)
    requires OneWriter(Init, run, side, id)
    ensures var (s, w) := (After(Init, run), Wrote(Init, run, side, id));
      && Delivered(s.Peer(side), id) <= Written(s.At(side), id) <= w
      && (s.up && Count(s.At(side).threads, id) == 0 ==> Written(s.At(side), id) == w)
  {
    InitOk();
    AfterOrder(Init, run, side, id, []);
    var w := Wrote(Init, run, side, id);
    assert [] + w == w;
    EndToEndPrefix(run, if side.Server? then Client else Server, id);
  }
}

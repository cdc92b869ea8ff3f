/**
 * Two sessions joined by a link that is first-in first-out in each direction
 * (pkg/remotedialer/session.go, client_dialer.go).
 *
 * Every block that the code runs under a mutex, every link write and every channel operation is
 * one atomic step.  A goroutine is the list of operations it has still to run; any goroutine of
 * either side may take the next step, so a sequence of labels is an arbitrary interleaving.
 * Goroutines that the code runs to completion before it goes on (the error write and the queue
 * close after a table removal) are left to run at any later time, which only adds interleavings.
 */
module Tunnel {
  import opened Prelude
  import opened Connections

  datatype Frame = Data(id: int, payload: seq<Byte>) | Connect(id: int) | Error(id: int, fault: Fault)

  datatype Op =
    | Send(frame: Frame)               // write one frame to the link
    | Fin(id: int, fault: Fault)       // doTunnelClose
    | Del(id: int, fault: Fault)       // closeConnection
    | Dialing(id: int)                 // clientDial, waiting for the network
    | Piping(id: int, oneDone: bool)   // pipe, one or both copies still running

  datatype Loop =
    | Idle
    | Copying(id: int, rest: seq<Byte>)   // io.Copy of a Data frame into the queue
    | Failing(id: int, fault: Fault)      // about to call closeConnection

  datatype End = End(
    conns: map<int, Conn>,     // every connection object ever made, by connID
    table: set<int>,           // keys of the session's `conns` map
    calling: set<int>,         // serverConnect has registered the id but not sent Connect yet
    linked: set<int>,          // Connect was sent (server) or received (client)
    threads: seq<seq<Op>>,
    loop: Loop,                // the goroutine running serve()
    stopped: bool,             // serve() has returned
    out: seq<Frame>)           // frames written and not yet served by the peer

  datatype Side = Server | Client

  datatype State = State(srv: End, cli: End, next: int, up: bool) {
    function At(side: Side): End { if side.Server? then srv else cli }
    function Peer(side: Side): End { if side.Server? then cli else srv }
    function With(side: Side, e: End): State { if side.Server? then this.(srv := e) else this.(cli := e) }
    function WithBoth(side: Side, e: End, peer: End): State {
      if side.Server? then this.(srv := e, cli := peer) else this.(cli := e, srv := peer)
    }
  }

  datatype Label =
    | Call                                               // serverConnect, up to the table entry
    | SendConnect(id: int)                               // serverConnect, the Connect frame
    | Write(side: Side, id: int, data: seq<Byte>)        // connection.Write, the error check
    | Read(side: Side, id: int, n: nat)                  // connection.Read
    | Close(side: Side, id: int)                         // connection.Close
    | CloseSession(side: Side)                           // session.Close
    | Serve(side: Side, allowed: bool)                   // serveMessage on the next frame
    | Chunk(side: Side, n: nat)                          // one chanWriter.Write of io.Copy
    | CopyFail(side: Side, fault: Fault)                 // io.Copy, the frame's reader fails
    | Drop(side: Side)                                   // closeConnection by the serve loop
    | Run(side: Side, thread: nat, ok: bool, fault: Fault)   // a goroutine's next operation
    | LinkDown

  const NewEnd := End(map[], {}, {}, {}, [], Idle, false, [])
  const Init := State(NewEnd, NewEnd, 2, true)

  function Tail(id: int, f: Fault): seq<Op> { [Send(Error(id, f)), Fin(id, f)] }

  function Spawn(e: End, prog: seq<Op>): End { e.(threads := e.threads + [prog]) }

  /** closeConnection: remove from the table; the one caller that finds the entry closes it. */
  function Remove(e: End, id: int, f: Fault): End {
    if id in e.table then Spawn(e.(table := e.table - {id}), Tail(id, f)) else e
  }

  function Put(e: End, id: int, c: Conn): End { e.(conns := e.conns[id := c]) }

  /** One goroutine per entry of the table, in some order. */
  function Tails(ids: seq<int>): seq<seq<Op>> {
    if ids == [] then [] else [Tail(ids[0], Disconnect)] + Tails(ids[1..])
  }

  ghost function Listing(ids: set<int>): (s: seq<int>)
    ensures |s| == |ids| && forall x :: x in s <==> x in ids
    ensures forall i, j :: 0 <= i < j < |s| ==> s[i] != s[j]
  {
    if ids == {} then [] else [Pick(ids)] + Listing(ids - {Pick(ids)})
  }

  /** A frame leaves this end; once the link has failed it is lost. */
  function Emit(e: End, up: bool, f: Frame): End {
    if !up then e
    else
      var e1 := e.(out := e.out + [f]);
      if f.Data? && f.id in e.conns then Put(e1, f.id, e.conns[f.id].(written := e.conns[f.id].written + f.payload))
      else e1
  }

  function Step(e: End, up: bool, op: Op, rest: seq<Op>, t: nat, ok: bool, fault: Fault): End
    requires t < |e.threads|
  {
    var done := e.(threads := e.threads[t := rest]);
    match op
    case Send(f) => Emit(done, up, f)
    case Fin(id, f) => if id in e.conns then Put(done, id, Shut(e.conns[id], Some(f))) else done
    case Del(id, f) => Remove(done, id, f)
    case Dialing(id) =>
      if ok then e.(threads := e.threads[t := [Piping(id, false)] + rest])
      else e.(threads := e.threads[t := Tail(id, fault) + [Del(id, Eof)] + rest])
    case Piping(id, oneDone) =>
      if ok && !oneDone && id in e.conns then
        Put(e.(threads := e.threads[t := [Piping(id, true)] + rest]), id, Shut(e.conns[id], Some(fault)))
      else e.(threads := e.threads[t := [Fin(id, fault), Send(Error(id, fault)), Del(id, Eof)] + rest])
  }

  /** The loop takes frame `f`; a refused Connect ends serve() for good. */
  function Accept(e: End, f: Frame): End {
    match f
    case Connect(id) =>
      Spawn(e.(conns := e.conns[id := Fresh], table := e.table + {id}, linked := e.linked + {id}), [Dialing(id)])
    case Data(id, payload) =>
      if id in e.table then e.(loop := Copying(id, payload)) else Spawn(e, [Send(Error(id, NotFound))])
    case Error(id, fault) =>
      if id in e.table then e.(loop := Failing(id, fault)) else e
  }

  /** io.Copy: a chunk of n bytes, or the end of the frame. */
  function CopyChunk(e: End, n: nat): End
    requires e.loop.Copying? && e.loop.id in e.conns
  {
    var Copying(id, rest) := e.loop;
    if rest == [] then e.(loop := Idle)
    else if 1 <= n <= |rest| then
      var (c, refused) := Offer(e.conns[id], rest[..n]);
      if refused.None? then Put(e.(loop := Copying(id, rest[n..])), id, c)
      else e.(loop := Failing(id, refused.value))
    else e
  }

  /** The next state; a label that is not enabled leaves the state unchanged. */
  ghost function Next(s: State, l: Label): State {
    match l
    case Call =>
      var e := s.srv;
      s.(next := s.next + 1,
         srv := e.(conns := e.conns[s.next := Fresh], table := e.table + {s.next}, calling := e.calling + {s.next}))
    case SendConnect(id) =>
      if id !in s.srv.calling then s
      else
        var e := s.srv.(calling := s.srv.calling - {id});
        if s.up then s.(srv := e.(linked := e.linked + {id}, out := e.out + [Connect(id)]))
        else s.(srv := Remove(e, id, ClosedPipe))
    case Write(side, id, data) =>
      var e := s.At(side);
      if id in e.linked && id in e.conns && e.conns[id].err.None? then s.With(side, Spawn(e, [Send(Data(id, data))])) else s
    case Read(side, id, n) =>
      var e := s.At(side);
      if id in e.conns then s.With(side, Put(e, id, Receive(e.conns[id], n).0)) else s
    case Close(side, id) => s.With(side, Remove(s.At(side), id, Eof))
    case CloseSession(side) =>
      var e := s.At(side);
      s.With(side, e.(table := {}, threads := e.threads + Tails(Listing(e.table))))
    case Serve(side, allowed) =>
      var (e, p) := (s.At(side), s.Peer(side));
      if e.loop != Idle || e.stopped || p.out == [] then s
      else if p.out[0].Connect? && !allowed then s.With(side, e.(stopped := true))
      else s.WithBoth(side, Accept(e, p.out[0]), p.(out := p.out[1..]))
    case Chunk(side, n) =>
      var e := s.At(side);
      if e.loop.Copying? && e.loop.id in e.conns then s.With(side, CopyChunk(e, n)) else s
    case CopyFail(side, fault) =>
      var e := s.At(side);
      if e.loop.Copying? then s.With(side, e.(loop := Failing(e.loop.id, fault))) else s
    case Drop(side) =>
      var e := s.At(side);
      if e.loop.Failing? then s.With(side, Remove(e.(loop := Idle), e.loop.id, e.loop.fault)) else s
    case Run(side, t, ok, fault) =>
      var e := s.At(side);
      if t < |e.threads| && e.threads[t] != []
      then s.With(side, Step(e, s.up, e.threads[t][0], e.threads[t][1..], t, ok, fault)) else s
    case LinkDown => s.(up := false)
  }

  /** The state after a run: any finite sequence of labels is an interleaving. */
  ghost function After(s: State, run: seq<Label>): State
    decreases |run|
  {
    if run == [] then s else After(Next(s, run[0]), run[1..])
  }
}

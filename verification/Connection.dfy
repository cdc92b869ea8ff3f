/**
 * One end of a multiplexed byte stream (pkg/remotedialer/connection.go).
 *
 * `Conn` is the value of a connection: its 1024-slot queue, the partly consumed `readBuf` and
 * the sticky `err`.  Five history fields record what happened to it (`closes`, `crashed`,
 * `accepted`, `delivered`, `written`); no operation reads them.
 */
module Connections {
  import opened Prelude

  const QUEUE_SLOTS := 1024

  /** The error values that travel through the tunnel. */
  datatype Fault = Eof | ClosedPipe | BackedUp | NotFound | Disconnect | Other(text: seq<Byte>)

  datatype Conn = Conn(
    queue: seq<seq<Byte>>,    // the buffered channel `buf`
    readBuf: seq<Byte>,       // rest of the chunk taken last
    err: Option<Fault>,       // sticky error
    closes: nat,              // times `close(buf)` was executed
    crashed: bool,            // a second close, or a send after a close, was executed
    accepted: seq<Byte>,      // bytes ever put into the queue
    delivered: seq<Byte>,     // bytes ever returned by Read
    written: seq<Byte>)       // bytes this end has put on the link for this connection

  const Fresh := Conn([], [], None, 0, false, [], [], [])

  /** doTunnelClose: the first call records the error and closes the queue. */
  function Shut(c: Conn, e: Option<Fault>): Conn {
    if c.err.Some? then c
    else c.(err := Some(if e.Some? then e.value else ClosedPipe),
            closes := c.closes + 1, crashed := c.crashed || c.closes > 0)
  }

  /** chanWriter.Write: refused when closed or when the queue is full, otherwise queued. */
  function Offer(c: Conn, chunk: seq<Byte>): (Conn, Option<Fault>) {
    if c.err.Some? then (c, c.err)
    else if |c.queue| < QUEUE_SLOTS then
      (c.(queue := c.queue + [chunk], accepted := c.accepted + chunk,
          crashed := c.crashed || c.closes > 0), None)
    else (c, Some(BackedUp))
  }

  datatype ReadResult = Got(data: seq<Byte>) | Failed(fault: Fault) | Blocked

  function Prefix(s: seq<Byte>, n: nat): seq<Byte> { s[..Min(n, |s|)] }

  /** copyData into a buffer of n bytes. */
  function CopyData(c: Conn, n: nat): Conn {
    c.(readBuf := c.readBuf[|Prefix(c.readBuf, n)|..], delivered := c.delivered + Prefix(c.readBuf, n))
  }

  /** Read into a buffer of n bytes. */
  function Receive(c: Conn, n: nat): (Conn, ReadResult) {
    if n == 0 then (c, Got([]))
    else if c.readBuf != [] then (CopyData(c, n), Got(Prefix(c.readBuf, n)))
    else if c.queue != [] then
      var d := c.(readBuf := c.queue[0], queue := c.queue[1..]);
      (CopyData(d, n), Got(Prefix(d.readBuf, n)))
    else if c.closes > 0 then (c, Failed(if c.err.Some? then c.err.value else Eof))
    else (c, Blocked)
  }

  /** What every operation keeps: the sticky error is set exactly when the queue has been closed,
      nothing ever crashed, and no accepted byte is lost, duplicated or reordered. */
  predicate ConnOk(c: Conn) {
    && c.closes == (if c.err.Some? then 1 else 0)
    && !c.crashed
    && |c.queue| <= QUEUE_SLOTS
    && c.delivered + c.readBuf + Flatten(c.queue) == c.accepted
  }

  /** `d` is a later state of the connection `c`. */
  predicate Later(c: Conn, d: Conn) {
    && (c.err.Some? ==> d.err == c.err && d.accepted == c.accepted && |d.queue| <= |c.queue|)
    && c.accepted <= d.accepted && c.delivered <= d.delivered && c.written <= d.written
  }

  lemma ShutKeeps(c: Conn, e: Option<Fault>)
    requires ConnOk(c)
    ensures ConnOk(Shut(c, e)) && Later(c, Shut(c, e))
    ensures Shut(c, e).err.Some? && Shut(c, e).closes == 1
    ensures c.err.None? ==> Shut(c, e).err == if e.Some? then e else Some(ClosedPipe)
    ensures Shut(c, e).queue == c.queue && Shut(c, e).readBuf == c.readBuf
    ensures Shut(c, e).delivered == c.delivered && Shut(c, e).written == c.written
  {}

  lemma OfferKeeps(c: Conn, chunk: seq<Byte>)
    requires ConnOk(c)
    ensures ConnOk(Offer(c, chunk).0) && Later(c, Offer(c, chunk).0)
    ensures Offer(c, chunk).1.None? ==> Offer(c, chunk).0.accepted == c.accepted + chunk
    ensures Offer(c, chunk).1.Some? ==> Offer(c, chunk).0 == c
  {
    FlattenAppend(c.queue, chunk);
    assert c.delivered + c.readBuf + (Flatten(c.queue) + chunk) == c.accepted + chunk;
  }

  /** A chunk is refused exactly when the connection is closed, with its error, or 1024 chunks are waiting. */
  lemma OfferExact(c: Conn, chunk: seq<Byte>)
    requires ConnOk(c)
    ensures Offer(c, chunk).1.Some? <==> c.err.Some? || |c.queue| == 1024
    ensures c.err.Some? ==> Offer(c, chunk).1 == c.err
    ensures c.err.None? && |c.queue| == 1024 ==> Offer(c, chunk).1 == Some(BackedUp)
    ensures Offer(c, chunk).1.None? ==> Offer(c, chunk).0.queue == c.queue + [chunk]
    ensures Offer(c, chunk).0.readBuf == c.readBuf && Offer(c, chunk).0.written == c.written
  {}

  /** Read keeps the byte account and reports an error only when every accepted byte was read. */
  lemma ReceiveKeeps(c: Conn, n: nat)
    requires ConnOk(c)
    ensures ConnOk(Receive(c, n).0) && Later(c, Receive(c, n).0)
    ensures Receive(c, n).0.accepted == c.accepted
    ensures match Receive(c, n).1
            case Got(data) => Receive(c, n).0.delivered == c.delivered + data && |data| <= n
            case Failed(f) => Receive(c, n).0 == c && c.err == Some(f) && c.delivered == c.accepted
            case Blocked => Receive(c, n).0 == c && c.delivered == c.accepted && c.err.None?
  {
    if n == 0 || (c.readBuf == [] && c.queue == []) {
      assert c.readBuf == [] && c.queue == [] ==> c.delivered + c.readBuf + Flatten(c.queue) == c.delivered;
    } else if c.readBuf != [] {
      var p := Prefix(c.readBuf, n);
      assert p + c.readBuf[|p|..] == c.readBuf;
      assert (c.delivered + p) + c.readBuf[|p|..] == c.delivered + c.readBuf;
    } else {
      var p := Prefix(c.queue[0], n);
      assert p + c.queue[0][|p|..] == c.queue[0];
      assert (c.delivered + p) + c.queue[0][|p|..] + Flatten(c.queue[1..]) == c.delivered + c.readBuf + Flatten(c.queue);
    }
  }

  /** Read returns as much as the buffer and the chunk at the front allow, and at least a byte if that is not empty. */
  lemma ReceiveExact(c: Conn, n: nat)
    requires ConnOk(c) && n > 0
    ensures var front := if c.readBuf != [] || c.queue == [] then c.readBuf else c.queue[0];
      && (c.readBuf != [] || c.queue != [] <==> Receive(c, n).1.Got?)
      && (Receive(c, n).1.Got? ==> |Receive(c, n).1.data| == if n < |front| then n else |front|)
      && (front != [] ==> Receive(c, n).1.Got? && Receive(c, n).1.data != [])
      && (Receive(c, n).1 == Blocked <==> c.readBuf == [] && c.queue == [] && c.err.None?)
  {}

  /** k reads in a row, into buffers of n bytes. */
  function Reads(c: Conn, n: nat, k: nat): Conn
    decreases k
  {
    if k == 0 then c else Reads(Receive(c, n).0, n, k - 1)
  }

  /** What reading has still to get through: the accepted bytes not yet delivered, and the chunks they are in. */
  function Unread(c: Conn): nat { |c.readBuf| + |Flatten(c.queue)| + |c.queue| }

  lemma ReadProgress(c: Conn, n: nat)
    requires ConnOk(c) && n > 0 && Unread(c) > 0
    ensures Unread(Receive(c, n).0) < Unread(c)
  {
    if c.readBuf == [] { assert Flatten(c.queue) == c.queue[0] + Flatten(c.queue[1..]); }
  }

  lemma NothingUnread(c: Conn)
    requires ConnOk(c) && Unread(c) == 0
    ensures c.delivered == c.accepted
  {
    assert c.delivered + c.readBuf + Flatten(c.queue) == c.delivered;
  }

  /** Whatever the buffer size, repeated reads deliver every accepted byte, in at most one read for each byte and
      each chunk. */
  lemma {:induction false} ReadsDeliver(c: Conn, n: nat, k: nat)
    requires ConnOk(c) && n > 0 && k >= Unread(c)
    ensures ConnOk(Reads(c, n, k)) && Reads(c, n, k).accepted == c.accepted == Reads(c, n, k).delivered
    decreases k
  {
    ReceiveKeeps(c, n);
    if k == 0 {
      NothingUnread(c);
    } else {
      if Unread(c) > 0 { ReadProgress(c, n); } else { assert Receive(c, n).0 == c; }
      ReadsDeliver(Receive(c, n).0, n, k - 1);
    }
  }

  /** Once Read has failed, every later Read of the connection fails in the same way. */
  lemma FailureStays(c: Conn, d: Conn, n: nat, m: nat)
    requires ConnOk(c) && ConnOk(d) && Later(c, d) && m > 0 && Receive(c, n).1.Failed?
    ensures d.delivered == c.delivered == c.accepted && Receive(d, m).1 == Receive(c, n).1
  {
    ReceiveKeeps(c, n);
    assert |d.delivered| + |d.readBuf| + |Flatten(d.queue)| == |d.accepted|;
    assert d.queue == [] && d.readBuf == [];
    ReceiveKeeps(d, m);
  }
}

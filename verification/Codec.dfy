/**
 * The tunnel's message format (pkg/remotedialer/message.go): zigzag base-128 varints ("Base 128
 * Varints" and "Signed Integers" of the Protocol Buffers encoding specification, as in Go's
 * encoding/binary) followed by the payload.
 */
module Codec {
  import opened Prelude

  const TWO63 := 0x8000_0000_0000_0000
  const HEADER_SIZE := 24
  const TEXT_LIMIT := 100
  const DATA := 1
  const CONNECT := 2
  const ERROR := 3
  const SLASH: Byte := 47
  const EOF_TEXT: seq<Byte> := [69, 79, 70]

  predicate Int64(x: int) { -TWO63 <= x < TWO63 }

  // --- varints ---

  function Zigzag(x: int): nat { if x >= 0 then 2 * x else -2 * x - 1 }
  function Unzigzag(u: nat): int { if u % 2 == 0 then u / 2 else -(u / 2) - 1 }

  function Uvarint(u: nat): seq<Byte> { if u < 128 then [u] else [u % 128 + 128] + Uvarint(u / 128) }
  function Varint(x: int): seq<Byte> { Uvarint(Zigzag(x)) }

  /** ReadUvarint from its i-th byte on: the value of the remaining groups and the unread input. */
  function ReadUvarint(s: seq<Byte>, i: nat): Option<(nat, seq<Byte>)> {
    if s == [] then None
    else if s[0] < 128 then (if i > 9 || (i == 9 && s[0] > 1) then None else Some((s[0], s[1..])))
    else
      var r := ReadUvarint(s[1..], i + 1);
      if r.None? then None else Some((s[0] - 128 + 128 * r.value.0, r.value.1))
  }

  function ReadVarint(s: seq<Byte>): Option<(int, seq<Byte>)> {
    var r := ReadUvarint(s, 0);
    if r.None? then None else Some((Unzigzag(r.value.0), r.value.1))
  }

  /** What a 64-bit value can still hold from the i-th group on; Limit(0) is 2^64. */
  function Limit(i: nat): nat
    requires i <= 9
    decreases 9 - i
  {
    if i == 9 then 2 else 128 * Limit(i + 1)
  }

  lemma LimitIsWord()
    ensures Limit(0) == 2 * TWO63
  {
    assert Limit(7) == 0x8000 && Limit(4) == 128 * 128 * 128 * Limit(7) && Limit(0) == 128 * 128 * 128 * 128 * Limit(4);
  }

  lemma {:induction false} UvarintRoundTrip(u: nat, rest: seq<Byte>, i: nat)
    requires i <= 9 && u < Limit(i)
    ensures ReadUvarint(Uvarint(u) + rest, i) == Some((u, rest))
    decreases u
  {
    var s := Uvarint(u) + rest;
    if u < 128 {
      assert s[1..] == rest;
    } else {
      assert i < 9 && u / 128 < Limit(i + 1);
      UvarintRoundTrip(u / 128, rest, i + 1);
      assert s[1..] == Uvarint(u / 128) + rest;
    }
  }

  lemma VarintRoundTrip(x: int, rest: seq<Byte>)
    requires Int64(x)
    ensures ReadVarint(Varint(x) + rest) == Some((x, rest))
  {
    LimitIsWord();
    UvarintRoundTrip(Zigzag(x), rest, 0);
  }

  /** The encoding by its definition: seven bits a byte, the lowest first, every byte but the last marked by 128. */
  function Groups(s: seq<Byte>): nat { if s == [] then 0 else s[0] % 128 + 128 * Groups(s[1..]) }

  /** The varint at the front of s ends at its k-th byte. */
  predicate EndsAt(s: seq<Byte>, k: nat) { k < |s| && s[k] < 128 && forall j :: 0 <= j < k ==> s[j] >= 128 }

  lemma {:induction false} UvarintValue(u: nat)
    ensures EndsAt(Uvarint(u), |Uvarint(u)| - 1) && Groups(Uvarint(u)) == u
    decreases u
  {
    if u < 128 {
      assert [u][1..] == [];
    } else {
      UvarintValue(u / 128);
      OneGroup(u % 128, Uvarint(u / 128));
    }
  }

  lemma OneGroup(b: nat, s: seq<Byte>)
    requires b < 128 && s != [] && EndsAt(s, |s| - 1)
    ensures EndsAt([b + 128] + s, |s|) && Groups([b + 128] + s) == b + 128 * Groups(s)
  {
    var t := [b + 128] + s;
    assert t[1..] == s && t[0] == b + 128;
    assert EndsAt(t, |s|) by { EndsLater(t, |s|); }
    assert t[0] % 128 == b;
  }

  /** The bytes of an integer: the groups of 2x, or of -2x - 1 below zero. */
  lemma VarintValue(x: int)
    ensures EndsAt(Varint(x), |Varint(x)| - 1)
    ensures Groups(Varint(x)) == if x >= 0 then 2 * x else -2 * x - 1
  {
    UvarintValue(Zigzag(x));
  }

  lemma EndsLater(s: seq<Byte>, k: nat)
    requires s != [] && s[0] >= 128
    ensures k > 0 && EndsAt(s, k) <==> k > 0 && EndsAt(s[1..], k - 1)
  {
    if k > 0 && EndsAt(s[1..], k - 1) {
      forall j | 0 <= j < k ensures s[j] >= 128 { assert j > 0 ==> s[j] == s[1..][j - 1]; }
    }
  }

  lemma {:induction false} ReadAt(s: seq<Byte>, i: nat, k: nat)
    requires EndsAt(s, k)
    ensures ReadUvarint(s, i).Some? <==> i + k < 9 || (i + k == 9 && s[k] <= 1)
    ensures ReadUvarint(s, i).Some? ==> ReadUvarint(s, i).value == (Groups(s[..k + 1]), s[k + 1..])
    decreases k
  {
    assert s[..k + 1][1..] == s[1..][..k];
    if k > 0 {
      EndsLater(s, k);
      ReadAt(s[1..], i + 1, k - 1);
    }
  }

  lemma {:induction false} ReadSomewhere(s: seq<Byte>, i: nat)
    requires ReadUvarint(s, i).Some?
    ensures exists k: nat :: EndsAt(s, k)
    decreases |s|
  {
    if s[0] < 128 {
      assert EndsAt(s, 0);
    } else {
      ReadSomewhere(s[1..], i + 1);
      var k: nat :| EndsAt(s[1..], k);
      EndsLater(s, k + 1);
    }
  }

  /** On any input: a varint is read exactly when it ends within 64 bits, as the value of its groups; what follows
      it is left. */
  lemma ReadExact(s: seq<Byte>)
    ensures ReadUvarint(s, 0).Some? <==> exists k: nat :: EndsAt(s, k) && (k < 9 || (k == 9 && s[k] <= 1))
    ensures forall k: nat :: EndsAt(s, k) && ReadUvarint(s, 0).Some? ==> ReadUvarint(s, 0).value == (Groups(s[..k + 1]), s[k + 1..])
  {
    forall k: nat | EndsAt(s, k)
      ensures ReadUvarint(s, 0).Some? <==> k < 9 || (k == 9 && s[k] <= 1)
      ensures ReadUvarint(s, 0).Some? ==> ReadUvarint(s, 0).value == (Groups(s[..k + 1]), s[k + 1..])
    {
      ReadAt(s, 0, k);
    }
    if ReadUvarint(s, 0).Some? { ReadSomewhere(s, 0); }
  }

  function Pow128(k: nat): nat { if k == 0 then 1 else 128 * Pow128(k - 1) }

  /** A value takes at most k bytes exactly when it is below 128^k. */
  lemma {:induction false} UvarintLength(u: nat, k: nat)
    requires k > 0
    ensures |Uvarint(u)| <= k <==> u < Pow128(k)
    decreases k
  {
    if k == 1 {
      assert Pow128(1) == 128;
    } else if u < 128 {
      PowGrows(k);
    } else {
      UvarintLength(u / 128, k - 1);
      assert u / 128 < Pow128(k - 1) <==> u < 128 * Pow128(k - 1);
    }
  }

  lemma {:induction false} PowGrows(k: nat)
    requires k > 0
    ensures Pow128(k) >= 128
  {
    if k > 1 { PowGrows(k - 1); }
  }

  lemma Powers()
    ensures Pow128(6) == 0x400_0000_0000 && Pow128(7) == 0x2_0000_0000_0000
    ensures Pow128(9) == TWO63 && Pow128(10) == 128 * TWO63
  {
    assert Pow128(3) == 0x20_0000;
    assert Pow128(6) == 128 * 128 * 128 * Pow128(3);
    assert Pow128(9) == 128 * 128 * 128 * Pow128(6);
  }

  // --- messages ---

  datatype Message = Message(id: int, connID: int, kind: int, deadline: int, bytes: seq<Byte>)

  predicate Words(m: Message) { Int64(m.id) && Int64(m.connID) && Int64(m.kind) && Int64(m.deadline) }

  predicate HasDeadline(kind: int) { kind == DATA || kind == CONNECT }

  /** Go's integer division truncates toward zero. */
  function TruncDiv(a: int, b: nat): int
    requires b > 0
  {
    if a >= 0 then a / b else -((-a) / b)
  }

  function Millis(ns: int): int { TruncDiv(ns, 1000000) }

  function NewMessage(id: int, connID: int, deadline: int, bytes: seq<Byte>): Message {
    Message(id, connID, DATA, deadline, bytes)
  }

  function NewConnect(id: int, connID: int, deadlineNs: int, proto: seq<Byte>, address: seq<Byte>): Message {
    Message(id, connID, CONNECT, Millis(deadlineNs), proto + [SLASH] + address)
  }

  function NewError(id: int, connID: int, text: seq<Byte>): Message { Message(id, connID, ERROR, 0, text) }

  function HeaderBytes(m: Message): seq<Byte> {
    Varint(m.id) + Varint(m.connID) + Varint(m.kind) + (if HasDeadline(m.kind) then Varint(m.deadline) else [])
  }

  function Encode(m: Message): seq<Byte> { HeaderBytes(m) + m.bytes }

  /** PutVarint at an offset; false means that the write runs past the buffer, where Go panics. */
  method PutVarint(buf: array<Byte>, offset: nat, x: int) returns (fits: bool, n: nat)
    requires offset <= buf.Length
    modifies buf
    ensures fits <==> offset + |Varint(x)| <= buf.Length
    ensures fits ==> n == |Varint(x)| && buf[..offset + n] == old(buf[..offset]) + Varint(x)
    ensures fits ==> forall i :: offset + n <= i < buf.Length ==> buf[i] == old(buf[i])
  {
    var u := Zigzag(x);
    n := 0;
    ghost var done: seq<Byte> := [];
    while u >= 128
      invariant |done| == n && offset + n <= buf.Length
      invariant buf[..offset + n] == old(buf[..offset]) + done && done + Uvarint(u) == Varint(x)
      invariant forall i :: offset + n <= i < buf.Length ==> buf[i] == old(buf[i])
      decreases u
    {
      if offset + n >= buf.Length { return false, n; }
      buf[offset + n] := u % 128 + 128;
      assert buf[..offset + n + 1] == buf[..offset + n] + [u % 128 + 128];
      assert done + [u % 128 + 128] + Uvarint(u / 128) == done + Uvarint(u);
      done := done + [u % 128 + 128];
      u := u / 128;
      n := n + 1;
    }
    if offset + n >= buf.Length { return false, n; }
    buf[offset + n] := u;
    assert buf[..offset + n + 1] == buf[..offset + n] + [u];
    n := n + 1;
    fits := true;
  }

  /** header: a 24-byte buffer filled at a moving offset; None is the panic of a full buffer. */
  method Header(m: Message) returns (r: Option<seq<Byte>>)
    ensures r.Some? <==> |HeaderBytes(m)| <= 24
    ensures r.Some? ==> r.value == HeaderBytes(m)
  {
    var buf := new Byte[HEADER_SIZE];
    var fits, n := PutVarint(buf, 0, m.id);
    if !fits { return None; }
    var offset := n;
    assert buf[..offset] == Varint(m.id);
    fits, n := PutVarint(buf, offset, m.connID);
    if !fits { return None; }
    offset := offset + n;
    fits, n := PutVarint(buf, offset, m.kind);
    if !fits { return None; }
    offset := offset + n;
    if HasDeadline(m.kind) {
      fits, n := PutVarint(buf, offset, m.deadline);
      if !fits { return None; }
      offset := offset + n;
    }
    assert buf[..offset] == HeaderBytes(m);
    r := Some(buf[..offset]);
  }

  method Bytes(m: Message) returns (r: Option<seq<Byte>>)
    ensures r.Some? <==> |HeaderBytes(m)| <= 24
    ensures r.Some? ==> r.value == Encode(m)
  {
    var h := Header(m);
    if h.None? { return None; }
    r := Some(h.value + m.bytes);
  }

  // --- decoding ---

  /** The first index of `c` in `s`, or the length. */
  function IndexOf(s: seq<Byte>, c: Byte): (i: nat)
    ensures i <= |s| && c !in s[..i] && (i < |s| ==> s[i] == c)
  {
    if s == [] then 0
    else if s[0] == c then 0
    else
      var i := IndexOf(s[1..], c);
      assert s[..1 + i] == [s[0]] + s[1..][..i];
      1 + i
  }

  datatype Decoded = Decoded(
    id: int, connID: int, kind: int, deadline: int,
    proto: seq<Byte>, address: seq<Byte>,    // set for Connect only
    body: seq<Byte>)                         // input not consumed by the decoder

  function Take(s: seq<Byte>, n: nat): seq<Byte> { s[..Min(n, |s|)] }
  function Rest(s: seq<Byte>, n: nat): seq<Byte> { s[Min(n, |s|)..] }

  /** The text before and after the first slash, if there is one. */
  function SplitAddress(text: seq<Byte>): (r: Option<(seq<Byte>, seq<Byte>)>)
    ensures r.None? <==> SLASH !in text
    ensures r.Some? ==> SLASH !in r.value.0 && r.value.0 + [SLASH] + r.value.1 == text
  {
    var i := IndexOf(text, SLASH);
    if i == |text| then None else Some((text[..i], text[i + 1..]))
  }

  /** newServerMessage as a value. */
  function Decode(s: seq<Byte>): Option<Decoded> {
    var a := ReadVarint(s);
    if a.None? then None else
    var b := ReadVarint(a.value.1);
    if b.None? then None else
    var k := ReadVarint(b.value.1);
    if k.None? then None else
    var d := if HasDeadline(k.value.0) then ReadVarint(k.value.1) else Some((0, k.value.1));
    if d.None? then None
    else if k.value.0 != CONNECT then Some(Decoded(a.value.0, b.value.0, k.value.0, d.value.0, [], [], d.value.1))
    else
      var parts := SplitAddress(Take(d.value.1, TEXT_LIMIT));
      if parts.None? then None
      else Some(Decoded(a.value.0, b.value.0, CONNECT, d.value.0, parts.value.0, parts.value.1, Rest(d.value.1, TEXT_LIMIT)))
  }

  /** newServerMessage: a reader cursor consumed field by field. */
  method NewServerMessage(input: seq<Byte>) returns (r: Option<Decoded>)
    ensures r == Decode(input)
  {
    var cursor := input;
    var id := ReadVarint(cursor);
    if id.None? { return None; }
    cursor := id.value.1;
    var connID := ReadVarint(cursor);
    if connID.None? { return None; }
    cursor := connID.value.1;
    var kind := ReadVarint(cursor);
    if kind.None? { return None; }
    cursor := kind.value.1;
    var m := Decoded(id.value.0, connID.value.0, kind.value.0, 0, [], [], cursor);
    if HasDeadline(m.kind) {
      var deadline := ReadVarint(cursor);
      if deadline.None? { return None; }
      m := m.(deadline := deadline.value.0, body := deadline.value.1);
    }
    if m.kind == CONNECT {
      var text := Take(m.body, TEXT_LIMIT);
      var parts := SplitAddress(text);
      if parts.None? { return None; }
      m := m.(proto := parts.value.0, address := parts.value.1, body := Rest(m.body, TEXT_LIMIT));
    }
    r := Some(m);
  }

  /** An error value as the receiver sees it: the text "EOF" becomes io.EOF. */
  datatype Failure = IsEof | Text(text: seq<Byte>)

  function FailureOf(body: seq<Byte>): Failure {
    if Take(body, TEXT_LIMIT) == EOF_TEXT then IsEof else Text(Take(body, TEXT_LIMIT))
  }

  function FailureText(f: Failure): seq<Byte> { if f.IsEof? then EOF_TEXT else f.text }

  /** A received Error message; Err reads the body once and caches the result, but not a failure to read. */
  class Received {
    var err: Option<Failure>
    var body: seq<Byte>
    ghost const original: seq<Byte>
    ghost var lost: nat    // bytes that failed reads have consumed

    ghost predicate Valid()
      reads this
    {
      && lost <= |original|
      && if err.Some? then err.value == FailureOf(original[lost..]) else body == original[lost..]
    }

    constructor (body: seq<Byte>)
      ensures Valid() && original == body && lost == 0 && err.None?
    {
      this.err, this.body, this.original, this.lost := None, body, body, 0;
    }

    /** `fails` is the number of bytes after which the reader fails, if it does; then there is no answer. However
        often it is called, the answer is that of the whole original body unless a read failed before. */
    method Err(fails: Option<nat>) returns (e: Option<Failure>)
      requires Valid()
      modifies this
      ensures Valid() && (e.None? <==> old(err).None? && fails.Some?)
      ensures e.Some? ==> e.value == FailureOf(original[lost..]) && lost == old(lost) && err == e
      ensures e.None? ==> err.None?
    {
      if err.Some? { return err; }
      if fails.Some? {
        var n := Min(fails.value, |Take(body, TEXT_LIMIT)|);
        lost := lost + n;
        assert original[lost..] == body[n..];
        body := body[n..];
        return None;
      }
      var text := Take(body, TEXT_LIMIT);
      body := Rest(body, TEXT_LIMIT);
      err := Some(if text == EOF_TEXT then IsEof else Text(text));
      return err;
    }
  }

  // --- round trips ---

  /** The header decodes to the fields it was made from and leaves the payload. */
  lemma HeaderRoundTrip(m: Message)
    requires Words(m)
    ensures ReadVarint(Encode(m)).Some? && ReadVarint(Encode(m)).value.0 == m.id
    ensures var b := ReadVarint(ReadVarint(Encode(m)).value.1);
            && b.Some? && b.value.0 == m.connID
            && var k := ReadVarint(b.value.1);
               && k.Some? && k.value.0 == m.kind
               && (if HasDeadline(m.kind) then ReadVarint(k.value.1) == Some((m.deadline, m.bytes))
                   else k.value.1 == m.bytes)
  {
    var tail := if HasDeadline(m.kind) then Varint(m.deadline) + m.bytes else m.bytes;
    assert Encode(m) == Varint(m.id) + (Varint(m.connID) + (Varint(m.kind) + tail));
    VarintRoundTrip(m.id, Varint(m.connID) + (Varint(m.kind) + tail));
    VarintRoundTrip(m.connID, Varint(m.kind) + tail);
    VarintRoundTrip(m.kind, tail);
    VarintRoundTrip(m.deadline, m.bytes);
  }

  /** Every message that is not a Connect comes back field by field, payload untouched. */
  lemma MessageRoundTrip(m: Message)
    requires Words(m) && m.kind != CONNECT && (!HasDeadline(m.kind) ==> m.deadline == 0)
    ensures Decode(Encode(m)) == Some(Decoded(m.id, m.connID, m.kind, m.deadline, [], [], m.bytes))
  {
    HeaderRoundTrip(m);
  }

  /** Joining with the first slash is undone by splitting, and only for a protocol without one. */
  lemma {:induction false} SplitJoin(proto: seq<Byte>, address: seq<Byte>)
    ensures SplitAddress(proto + [SLASH] + address) == Some((proto, address)) <==> SLASH !in proto
  {
    var s := proto + [SLASH] + address;
    assert s[|proto|] == SLASH;
    if proto != [] && SLASH !in proto {
      SplitJoin(proto[1..], address);
      assert s[1..] == proto[1..] + [SLASH] + address && s[0] == proto[0];
      assert s[..|proto|] == proto && s[|proto| + 1..] == address;
    }
  }

  lemma SplitLimited(proto: seq<Byte>, address: seq<Byte>)
    ensures var text := proto + [SLASH] + address;
            SplitAddress(Take(text, TEXT_LIMIT)) == Some((proto, address)) <==> SLASH !in proto && |text| <= TEXT_LIMIT
  {
    var text := proto + [SLASH] + address;
    SplitJoin(proto, address);
    if |text| <= TEXT_LIMIT {
      assert Take(text, TEXT_LIMIT) == text;
    }
  }

  /** The first 100 bytes of the joined text hold no slash exactly when the protocol alone fills them without one. */
  lemma NoSlashInLimit(proto: seq<Byte>, address: seq<Byte>)
    ensures SLASH !in Take(proto + [SLASH] + address, TEXT_LIMIT) <==> |proto| >= TEXT_LIMIT && SLASH !in proto[..TEXT_LIMIT]
  {
    var text := proto + [SLASH] + address;
    assert text[|proto|] == SLASH;
    if |proto| >= TEXT_LIMIT {
      assert Take(text, TEXT_LIMIT) == proto[..TEXT_LIMIT];
    } else {
      assert Take(text, TEXT_LIMIT)[|proto|] == SLASH;
    }
  }

  /** d is the number of whole milliseconds in ns nanoseconds, counted toward zero. */
  predicate WholeMillis(d: int, ns: int) {
    if ns >= 0 then 1_000_000 * d <= ns < 1_000_000 * (d + 1) else 1_000_000 * (d - 1) < ns <= 1_000_000 * d
  }

  /** A Connect is refused by the decoder exactly when its protocol fills the first 100 bytes without a slash.
      Otherwise id and connID come back, the deadline in whole milliseconds, and protocol and address exactly when
      the protocol has no slash and the joined text is at most 100 bytes long. */
  lemma ConnectRoundTrip(id: int, connID: int, ns: int, proto: seq<Byte>, address: seq<Byte>)
    requires Int64(id) && Int64(connID) && Int64(ns)
    ensures var m := NewConnect(id, connID, ns, proto, address);
            var d := Decode(Encode(m));
            && (d.None? <==> |proto| >= 100 && 47 !in proto[..100])
            && (d.Some? ==> d.value.id == id && d.value.connID == connID && d.value.kind == CONNECT && WholeMillis(d.value.deadline, ns))
            && (d.Some? && d.value.proto == proto && d.value.address == address
                <==> 47 !in proto && |proto| + 1 + |address| <= 100)
            && (d.Some? ==> d.value.body == if |proto| + 1 + |address| <= 100 then [] else (proto + [47] + address)[100..])
  {
    HeaderRoundTrip(NewConnect(id, connID, ns, proto, address));
    SplitLimited(proto, address);
    NoSlashInLimit(proto, address);
  }

  /** A Data message comes back whole. */
  lemma DataRoundTrip(id: int, connID: int, deadline: int, bytes: seq<Byte>)
    requires Int64(id) && Int64(connID) && Int64(deadline)
    ensures Decode(Encode(NewMessage(id, connID, deadline, bytes))) == Some(Decoded(id, connID, DATA, deadline, [], [], bytes))
  {
    MessageRoundTrip(NewMessage(id, connID, deadline, bytes));
  }

  /** The text of an Error survives exactly when it is at most 100 bytes long; the three bytes "EOF" become the end of
      the stream, and nothing else does. */
  lemma ErrorRoundTrip(id: int, connID: int, text: seq<Byte>)
    requires Int64(id) && Int64(connID)
    ensures var d := Decode(Encode(NewError(id, connID, text)));
            && d.Some? && d.value.id == id && d.value.connID == connID && d.value.kind == ERROR
            && (FailureOf(d.value.body) == IsEof <==> text == [69, 79, 70])
            && (text != [69, 79, 70] ==> FailureOf(d.value.body) == Text(if |text| <= 100 then text else text[..100]))
            && (FailureText(FailureOf(d.value.body)) == text <==> |text| <= 100)
  {
    MessageRoundTrip(NewError(id, connID, text));
  }

  /** The first bytes of each kind of message with ids below 64: two times the id, the connection id, the kind. */
  lemma Kinds(id: int, connID: int, bytes: seq<Byte>)
    requires 0 <= id < 64 && 0 <= connID < 64
    ensures Encode(NewMessage(id, connID, 0, bytes)) == [2 * id, 2 * connID, 2, 0] + bytes
    ensures Encode(NewConnect(id, connID, 1_999_999, bytes, bytes)) == [2 * id, 2 * connID, 4, 2] + bytes + [47] + bytes
    ensures Encode(NewError(id, connID, bytes)) == [2 * id, 2 * connID, 6] + bytes
  {}

  /** On any input: the decoder answers nothing exactly when a field cannot be read, or a Connect has no slash in its
      first 100 bytes. */
  lemma RejectsExact(s: seq<Byte>)
    ensures Decode(s).None? <==>
      var a := ReadVarint(s);
      var b := if a.None? then None else ReadVarint(a.value.1);
      var k := if b.None? then None else ReadVarint(b.value.1);
      var d := if k.None? then None else if k.value.0 in {1, 2} then ReadVarint(k.value.1) else k;
      d.None? || (k.value.0 == 2 && 47 !in if |d.value.1| <= 100 then d.value.1 else d.value.1[..100])
  {}

  // --- the 24-byte header ---

  lemma WordLength(x: int)
    requires Int64(x)
    ensures |Varint(x)| <= 10
  {
    Powers();
    UvarintLength(Zigzag(x), 10);
  }

  lemma KindLength(kind: int)
    requires DATA <= kind <= ERROR
    ensures |Varint(kind)| == 1
  {}

  /** Error headers always fit. */
  lemma ErrorHeaderFits(id: int, connID: int, text: seq<Byte>)
    requires Int64(id) && Int64(connID)
    ensures |HeaderBytes(NewError(id, connID, text))| <= 24
  {
    WordLength(id);
    WordLength(connID);
    KindLength(ERROR);
  }

  /** A deadline in milliseconds made from a 64-bit number of nanoseconds takes at most 7 bytes. */
  lemma MillisLength(ns: int)
    requires Int64(ns)
    ensures |Varint(Millis(ns))| <= 7
  {
    Powers();
    UvarintLength(Zigzag(Millis(ns)), 7);
  }

  ghost predicate AllFit(connID: int) {
    forall id, ns, kind :: Int64(id) && Int64(ns) && HasDeadline(kind) ==>
      |HeaderBytes(Message(id, connID, kind, Millis(ns), []))| <= 24
  }

  /** Data and Connect headers fit for every id and every deadline exactly when the (non-negative)
      connection id is below 2^41. */
  lemma DataHeaderFits(connID: int)
    requires 0 <= connID < TWO63
    ensures AllFit(connID) <==> connID < 0x200_0000_0000
  {
    Powers();
    UvarintLength(Zigzag(connID), 6);
    if connID < 0x200_0000_0000 {
      forall id, ns, kind | Int64(id) && Int64(ns) && HasDeadline(kind)
        ensures |HeaderBytes(Message(id, connID, kind, Millis(ns), []))| <= 24
      {
        WordLength(id);
        MillisLength(ns);
        KindLength(kind);
      }
    } else {
      var id, ns, kind := 0x4000_0000_0000_0000, TWO63 - 1, DATA;
      assert Int64(id) && Int64(ns) && HasDeadline(kind);
      UvarintLength(Zigzag(id), 9);
      UvarintLength(Zigzag(Millis(ns)), 6);
      KindLength(kind);
      assert |HeaderBytes(Message(id, connID, kind, Millis(ns), []))| > HEADER_SIZE;
    }
  }
}

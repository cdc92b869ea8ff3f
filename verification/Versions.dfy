/**
 * Updating a mirrored row from a remote object (pkg/models/clusterresource.go and cluster_api.go):
 * the resource-version check, and what it does to updates that arrive in any order.
 */
module Versions {
  import opened Prelude

  const MAX_UINT32 := 0xFFFF_FFFF
  const MAX_INT32 := 0x7FFF_FFFF
  const ACTIVE := "active"

  predicate Digit(c: char) { '0' <= c <= '9' }
  function DigitValue(c: char): nat
    requires Digit(c)
  {
    c as int - '0' as int
  }

  /** strconv.ParseUint for 32 bits: None is a syntax error, a value out of range is clamped. */
  function ParseDigits(s: string, acc: nat): Option<nat> {
    if s == [] then Some(acc)
    else if !Digit(s[0]) then None
    else
      var n := acc * 10 + DigitValue(s[0]);
      if n > MAX_UINT32 then Some(MAX_UINT32) else ParseDigits(s[1..], n)
  }

  /** The value of strconv.ParseInt(s, 10, 32) with its error ignored. */
  function ParseVersion(s: string): int {
    var neg := s != [] && s[0] == '-';
    var digits := if neg || (s != [] && s[0] == '+') then s[1..] else s;
    var n := if digits == [] then None else ParseDigits(digits, 0);
    if n.None? then 0
    else if neg then -Min(n.value, MAX_INT32 + 1)
    else Min(n.value, MAX_INT32)
  }

  function Decimal(n: nat): string {
    if n < 10 then [('0' as int + n) as char] else Decimal(n / 10) + [('0' as int + n % 10) as char]
  }

  lemma {:induction false} DecimalDigits(n: nat)
    ensures Decimal(n) != [] && forall c :: c in Decimal(n) ==> Digit(c)
  {
    if n >= 10 { DecimalDigits(n / 10); }
  }

  lemma {:induction false} ParseSnoc(s: string, c: char, acc: nat)
    requires Digit(c) && acc <= MAX_UINT32 && forall d :: d in s ==> Digit(d)
    ensures ParseDigits(s, acc).Some? && ParseDigits(s, acc).value <= MAX_UINT32
    ensures ParseDigits(s + [c], acc) == Some(Min(ParseDigits(s, acc).value * 10 + DigitValue(c), MAX_UINT32))
    decreases |s|
  {
    var t := s + [c];
    if s == [] {
      assert t == [c] && t[1..] == [];
    } else {
      assert t[0] == s[0] && t[1..] == s[1..] + [c];
      var n := acc * 10 + DigitValue(s[0]);
      if n <= MAX_UINT32 {
        forall d | d in s[1..] ensures Digit(d) {}
        ParseSnoc(s[1..], c, n);
      }
    }
  }

  lemma {:induction false} ParseDecimalDigits(n: nat)
    ensures ParseDigits(Decimal(n), 0) == Some(Min(n, MAX_UINT32))
  {
    var c := ('0' as int + n % 10) as char;
    if n < 10 {
      assert Decimal(n) == [] + [c];
      ParseSnoc([], c, 0);
    } else {
      ParseDecimalDigits(n / 10);
      DecimalDigits(n / 10);
      ParseSnoc(Decimal(n / 10), c, 0);
    }
  }

  /** A decimal version is read exactly, up to 2^31 - 1. */
  lemma ParseDecimal(n: nat)
    ensures ParseVersion(Decimal(n)) == if n <= 0x7FFF_FFFF then n else 0x7FFF_FFFF
  {
    DecimalDigits(n);
    assert Digit(Decimal(n)[0]);
    ParseDecimalDigits(n);
  }

  /** A sign is read too; below zero the limit is -2^31. */
  lemma ParseSigned(n: nat)
    ensures ParseVersion(['+'] + Decimal(n)) == Min(n, 0x7FFF_FFFF)
    ensures ParseVersion(['-'] + Decimal(n)) == -Min(n, 0x8000_0000)
  {
    DecimalDigits(n);
    ParseDecimalDigits(n);
    SignRead('+', Decimal(n), Min(n, MAX_UINT32));
    SignRead('-', Decimal(n), Min(n, MAX_UINT32));
  }

  lemma SignRead(sign: char, digits: string, v: nat)
    requires sign in {'+', '-'} && digits != [] && ParseDigits(digits, 0) == Some(v)
    ensures ParseVersion([sign] + digits) == if sign == '-' then -Min(v, 0x8000_0000) else Min(v, 0x7FFF_FFFF)
  {
    assert ([sign] + digits)[0] == sign && ([sign] + digits)[1..] == digits;
  }

  lemma {:induction false} ParseStops(s: string, c: char, rest: string, acc: nat)
    requires !Digit(c) && forall d :: d in s ==> Digit(d)
    requires ParseDigits(s, acc).Some? && ParseDigits(s, acc).value < MAX_UINT32
    ensures ParseDigits(s + [c] + rest, acc).None?
    decreases |s|
  {
    var t := s + [c] + rest;
    if s != [] {
      assert t[0] == s[0] && t[1..] == s[1..] + [c] + rest;
      forall d | d in s[1..] ensures Digit(d) {}
      ParseStops(s[1..], c, rest, acc * 10 + DigitValue(s[0]));
    }
  }

  /** A text that is no number counts as version 0: nothing, a lone sign, or a number in range followed by anything but
      a digit. */
  lemma ParseGarbage(n: nat, c: char, rest: string)
    ensures ParseVersion("") == ParseVersion("-") == ParseVersion("+") == 0
    ensures n < 0xFFFF_FFFF && !Digit(c) ==> ParseVersion(Decimal(n) + [c] + rest) == 0
    ensures !Digit(c) && c != '-' && c != '+' ==> ParseVersion([c] + rest) == 0
  {
    assert "-"[1..] == "" && "+"[1..] == "";
    DecimalDigits(n);
    ParseDecimalDigits(n);
    if n < 0xFFFF_FFFF && !Digit(c) {
      ParseStops(Decimal(n), c, rest, 0);
      var text := Decimal(n) + [c] + rest;
      assert text[0] == Decimal(n)[0] && Digit(text[0]);
    }
    if !Digit(c) && c != '-' && c != '+' { assert ([c] + rest)[0] == c; }
  }

  // --- rows ---

  datatype Row = Row(id: int, cluster: string, name: string, externalId: string, version: string, status: string)
  datatype Remote = Remote(uid: string, name: string, version: string)

  function RowVersion(r: Row): int { if r.version != "" then ParseVersion(r.version) else 0 }

  /** Every field a successful update assigns. */
  function Apply(r: Row, o: Remote): Row {
    r.(name := o.name, version := o.version, externalId := o.uid, status := ACTIVE)
  }

  predicate Accepts(r: Row, o: Remote) { ParseVersion(o.version) >= RowVersion(r) }

  function Deliver(r: Row, o: Remote): Row { if Accepts(r, o) then Apply(r, o) else r }

  function DeliverAll(r: Row, os: seq<Remote>): Row
    decreases |os|
  {
    if os == [] then r else DeliverAll(Deliver(r, os[0]), os[1..])
  }

  // --- the row object and the table ---

  /** UPDATE sets only the columns in which the changed copy differs from the copy it was made from. */
  function WriteDiff(stored: Row, was: Row, now: Row): Row {
    Row(stored.id, stored.cluster,
      if was.name != now.name then now.name else stored.name,
      if was.externalId != now.externalId then now.externalId else stored.externalId,
      if was.version != now.version then now.version else stored.version,
      if was.status != now.status then now.status else stored.status)
  }

  /** A copy of the row, fetched earlier and without a lock. */
  class RowObject {
    var name: string
    var version: string
    var externalId: string
    var status: string
    const id: int
    const cluster: string

    function Value(): Row
      reads this
    {
      Row(id, cluster, name, externalId, version, status)
    }

    constructor (r: Row)
      ensures Value() == r
    {
      id, cluster, name, externalId, version, status := r.id, r.cluster, r.name, r.externalId, r.version, r.status;
    }

    /** UpdateFromRemoteObject of the row: a stale object is refused before any field changes. */
    method UpdateFromRemoteObject(o: Remote) returns (ok: bool)
      modifies this
      ensures ok <==> ParseVersion(o.version) >= if old(version) == "" then 0 else ParseVersion(old(version))
      ensures Value() == if ok then old(Value()).(name := o.name, version := o.version) else old(Value())
    {
      var ver := ParseVersion(o.version);
      var cur := 0;
      if version != "" { cur := ParseVersion(version); }
      if ver < cur { return false; }
      if name != o.name { name := o.name; }
      if version != o.version { version := o.version; }
      return true;
    }
  }

  class RowTable {
    var stored: Row

    constructor (r: Row)
      ensures stored == r
    {
      stored := r;
    }

    /** UpdateFromRemoteObject of the API: the check is against the copy, the write to the stored row. `clusterOk`
        and `writeOk` say whether the cluster is found and the database takes the write. */
    method UpdateFromRemoteObject(obj: RowObject, o: Remote, clusterOk: bool, writeOk: bool) returns (ok: bool)
      modifies this, obj
      ensures ok <==>
        && ParseVersion(o.version) >= (if old(obj.version) == "" then 0 else ParseVersion(old(obj.version)))
        && clusterOk && (writeOk || old(obj.Value()) == Row(obj.id, obj.cluster, o.name, o.uid, o.version, "active"))
      ensures stored == if ok then WriteDiff(old(stored), old(obj.Value()), Apply(old(obj.Value()), o)) else old(stored)
      ensures ok ==> stored.id == old(stored).id && stored.cluster == old(stored).cluster
      ensures ok ==> stored.name == (if old(obj.name) != o.name then o.name else old(stored).name)
      ensures ok ==> stored.externalId == (if old(obj.externalId) != o.uid then o.uid else old(stored).externalId)
      ensures ok ==> stored.version == (if old(obj.version) != o.version then o.version else old(stored).version)
      ensures ok ==> stored.status == (if old(obj.status) != "active" then "active" else old(stored).status)
    {
      var before := Row(obj.id, obj.cluster, obj.name, obj.externalId, obj.version, obj.status);
      var accepted := obj.UpdateFromRemoteObject(o);
      if !accepted || !clusterOk { return false; }
      obj.externalId := o.uid;
      obj.status := ACTIVE;
      var after := Row(obj.id, obj.cluster, obj.name, obj.externalId, obj.version, obj.status);
      if after == before { return true; }
      if !writeOk { return false; }
      stored := WriteDiff(stored, before, after);
      obj.name, obj.externalId, obj.version, obj.status := stored.name, stored.externalId, stored.version, stored.status;
      return true;
    }
  }

  // --- any delivery order ---

  function Greatest(os: seq<Remote>, least: int): int {
    if os == [] then least else Greatest(os[1..], Max(least, ParseVersion(os[0].version)))
  }

  lemma {:induction false} GreatestBounds(os: seq<Remote>, least: int)
    ensures Greatest(os, least) >= least
    ensures forall o :: o in os ==> Greatest(os, least) >= ParseVersion(o.version)
    ensures Greatest(os, least) == least || exists o :: o in os && ParseVersion(o.version) == Greatest(os, least)
    decreases |os|
  {
    if os != [] { GreatestBounds(os[1..], Max(least, ParseVersion(os[0].version))); }
  }

  /** The stored version never decreases and ends at the greatest version delivered. */
  lemma {:induction false} EndsAtGreatest(r: Row, os: seq<Remote>)
    ensures RowVersion(DeliverAll(r, os)) == Greatest(os, RowVersion(r)) >= RowVersion(r)
    decreases |os|
  {
    GreatestBounds(os, RowVersion(r));
    if os != [] { EndsAtGreatest(Deliver(r, os[0]), os[1..]); }
  }

  ghost predicate SameObjects(os: seq<Remote>, ps: seq<Remote>) { forall o :: o in os <==> o in ps }

  /** The greatest version, if any delivery reaches it, belongs to one object. */
  ghost predicate OneTop(os: seq<Remote>, top: int) {
    forall a, b :: a in os && b in os && ParseVersion(a.version) == top == ParseVersion(b.version) ==> a == b
  }

  /** The row ends with the fields of the object of the greatest version, if one was accepted at all. */
  lemma {:induction false} EndsAsGreatest(r: Row, os: seq<Remote>, best: Remote)
    requires OneTop(os, Greatest(os, RowVersion(r)))
    requires best in os && ParseVersion(best.version) == Greatest(os, RowVersion(r))
    ensures DeliverAll(r, os) == Apply(r, best) == Row(r.id, r.cluster, best.name, best.uid, best.version, "active")
    decreases |os|
  {
    var s := Deliver(r, os[0]);
    var rest := os[1..];
    var least := Max(RowVersion(r), ParseVersion(os[0].version));
    GreatestBounds(rest, least);
    assert RowVersion(s) == least;
    if best in rest {
      forall a | a in rest ensures a in os {}
      EndsAsGreatest(s, rest, best);
    } else {
      assert s == Apply(r, best);
      forall o | o in rest ensures ParseVersion(o.version) < ParseVersion(best.version) { assert o in os; }
      AllStale(s, rest);
    }
  }

  lemma {:induction false} AllStale(r: Row, os: seq<Remote>)
    requires forall o :: o in os ==> !Accepts(r, o)
    ensures DeliverAll(r, os) == r
    decreases |os|
  {
    if os != [] { AllStale(r, os[1..]); }
  }

  /** Deliveries of the same objects, in any order and any number of times, leave the same row. */
  lemma Confluent(r: Row, os: seq<Remote>, ps: seq<Remote>)
    requires SameObjects(os, ps) && OneTop(os, Greatest(os, RowVersion(r)))
    ensures DeliverAll(r, os) == DeliverAll(r, ps)
  {
    GreatestBounds(os, RowVersion(r));
    GreatestBounds(ps, RowVersion(r));
    if best :| best in os && Accepts(r, best) {
      var top := TopObject(r, os, best);
      EndsAsGreatest(r, os, top);
      EndsAsGreatest(r, ps, top);
    } else {
      AllStale(r, os);
      AllStale(r, ps);
    }
  }

  lemma TopObject(r: Row, os: seq<Remote>, one: Remote) returns (top: Remote)
    requires one in os && Accepts(r, one)
    ensures top in os && ParseVersion(top.version) == Greatest(os, RowVersion(r))
  {
    GreatestBounds(os, RowVersion(r));
    if Greatest(os, RowVersion(r)) == RowVersion(r) { top := one; }
    else { top :| top in os && ParseVersion(top.version) == Greatest(os, RowVersion(r)); }
  }

  lemma {:induction false} DeliverSnoc(r: Row, os: seq<Remote>, o: Remote)
    ensures DeliverAll(r, os + [o]) == Deliver(DeliverAll(r, os), o)
    decreases |os|
  {
    if os == [] {
      assert os + [o] == [o] && [o][1..] == [];
      assert DeliverAll(r, [o]) == DeliverAll(Deliver(r, o), []);
    } else {
      DeliverSnoc(Deliver(r, os[0]), os[1..], o);
      assert (os + [o])[1..] == os[1..] + [o];
    }
  }

  /** Delivering an object of the greatest version once more, last, leaves its fields. */
  lemma TopLast(r: Row, os: seq<Remote>, a: Remote)
    requires a in os && ParseVersion(a.version) == Greatest(os, RowVersion(r))
    ensures SameObjects(os, os + [a]) && DeliverAll(r, os + [a]) == Apply(DeliverAll(r, os), a)
  {
    DeliverSnoc(r, os, a);
    EndsAtGreatest(r, os);
  }

  /** Two objects of the greatest version: the last one delivered wins. */
  lemma TwoTops(r: Row, os: seq<Remote>, a: Remote, b: Remote)
    requires a in os && b in os && a != b
    requires ParseVersion(a.version) == Greatest(os, RowVersion(r)) == ParseVersion(b.version)
    ensures SameObjects(os, os + [a]) && SameObjects(os, os + [b]) && DeliverAll(r, os + [a]) != DeliverAll(r, os + [b])
  {
    TopLast(r, os, a);
    TopLast(r, os, b);
  }

  /** All deliveries of these objects agree exactly when the greatest version belongs to one object. */
  lemma ConfluentExact(r: Row, os: seq<Remote>)
    ensures (forall ps :: SameObjects(os, ps) ==> DeliverAll(r, ps) == DeliverAll(r, os)) <==> OneTop(os, Greatest(os, RowVersion(r)))
  {
    if OneTop(os, Greatest(os, RowVersion(r))) {
      forall ps | SameObjects(os, ps) ensures DeliverAll(r, ps) == DeliverAll(r, os) { Confluent(r, os, ps); }
    } else {
      var a, b :| a in os && b in os && a != b && ParseVersion(a.version) == Greatest(os, RowVersion(r)) == ParseVersion(b.version);
      TwoTops(r, os, a, b);
    }
  }

  // --- versions of 2^31 and more ---

  function At(r: Row, version: nat): Row { r.(version := Decimal(version)) }
  function Sent(o: Remote, version: nat): Remote { o.(version := Decimal(version)) }

  /** The check tells newer from older exactly unless both versions are at or beyond 2^31 - 1. */
  lemma CheckIsExact(r: Row, o: Remote, stored: nat, delivered: nat)
    ensures (Accepts(At(r, stored), Sent(o, delivered)) <==> delivered >= stored) <==> !(0x7FFF_FFFF <= delivered < stored)
  {
    ParseDecimal(stored);
    ParseDecimal(delivered);
    DecimalDigits(stored);
  }

  /** A row at version 2^31 + 1 goes back to version 2^31. */
  lemma LargeVersionsGoBack(r: Row, o: Remote)
    ensures var (row, sent) := (At(r, 0x8000_0001), Sent(o, 0x8000_0000));
      Accepts(row, sent) && Deliver(row, sent).version == sent.version
  {
    CheckIsExact(r, o, 0x8000_0001, 0x8000_0000);
  }

  ghost predicate Below31(o: Remote) { exists n: nat :: n <= MAX_INT32 && o.version == Decimal(n) }

  /** Below 2^31 it is enough that equal version texts mean equal objects. */
  lemma SmallVersionsOneTop(os: seq<Remote>, top: int)
    requires forall o :: o in os ==> Below31(o)
    requires forall a, b :: a in os && b in os && a.version == b.version ==> a == b
    ensures OneTop(os, top)
  {
    forall a, b | a in os && b in os && ParseVersion(a.version) == top == ParseVersion(b.version) ensures a == b {
      assert Below31(a) && Below31(b);
      var n: nat :| n <= MAX_INT32 && a.version == Decimal(n);
      var m: nat :| m <= MAX_INT32 && b.version == Decimal(m);
      ParseDecimal(n);
      ParseDecimal(m);
    }
  }

  // --- deliveries that overlap ---

  /** The stored row, and the copies that events, passes and sync jobs have fetched but not written back. */
  datatype State = State(stored: Row, copies: map<int, Row>)

  datatype Label =
    | Fetch(h: int)                // read the row, without a lock
    | Update(h: int, o: Remote)    // under the row's lock: check the copy, write its changes

  predicate Writes(s: State, l: Label) { l.Update? && l.h in s.copies && Accepts(s.copies[l.h], l.o) }

  function Step(s: State, l: Label): State {
    match l
    case Fetch(h) => s.(copies := s.copies[h := s.stored])
    case Update(h, o) =>
      if h !in s.copies then s
      else
        var copy := s.copies[h];
        State(if Accepts(copy, o) then WriteDiff(s.stored, copy, Apply(copy, o)) else s.stored, s.copies - {h})
  }

  /** A fetch replaces its own copy by the row as stored; an update uses its copy up; nothing else touches a copy. */
  lemma StepCopies(s: State, l: Label, h: int)
    ensures h in Step(s, l).copies <==> l == Fetch(h) || (h in s.copies && !(l.Update? && l.h == h))
    ensures h in Step(s, l).copies ==> Step(s, l).copies[h] == if l == Fetch(h) then s.stored else s.copies[h]
    ensures l.Fetch? ==> Step(s, l).stored == s.stored
  {}

  function Run(s: State, ls: seq<Label>): State
    decreases |ls|
  {
    if ls == [] then s else Run(Step(s, ls[0]), ls[1..])
  }

  /** The objects the updates of a run bring. */
  function Brought(s: State, ls: seq<Label>): seq<Remote>
    decreases |ls|
  {
    if ls == [] then []
    else (if ls[0].Update? && ls[0].h in s.copies then [ls[0].o] else []) + Brought(Step(s, ls[0]), ls[1..])
  }

  /** An accepted update writes a version below the stored one: the row was written since the copy was fetched. */
  predicate Overtaken(s: State, l: Label) {
    Writes(s, l) && s.copies[l.h].version != l.o.version && ParseVersion(l.o.version) < RowVersion(s.stored)
  }

  /** The stored version goes back in a step exactly then. */
  lemma GoesBackExact(s: State, l: Label)
    ensures RowVersion(Step(s, l).stored) < RowVersion(s.stored) <==> Overtaken(s, l)
  {}

  predicate NeverBack(s: State, ls: seq<Label>)
    decreases |ls|
  {
    ls == [] || (RowVersion(Step(s, ls[0]).stored) >= RowVersion(s.stored) && NeverBack(Step(s, ls[0]), ls[1..]))
  }

  predicate NeverOvertaken(s: State, ls: seq<Label>)
    decreases |ls|
  {
    ls == [] || (!Overtaken(s, ls[0]) && NeverOvertaken(Step(s, ls[0]), ls[1..]))
  }

  /** Over every run, overlapping as it may: the stored version never goes back exactly when no update is overtaken. */
  lemma {:induction false} NeverBackExact(s: State, ls: seq<Label>)
    ensures NeverBack(s, ls) <==> NeverOvertaken(s, ls)
    decreases |ls|
  {
    if ls != [] {
      GoesBackExact(s, ls[0]);
      NeverBackExact(Step(s, ls[0]), ls[1..]);
    }
  }

  /** No copy is of a later version than the stored row. */
  ghost predicate Behind(s: State) { forall h :: h in s.copies ==> RowVersion(s.copies[h]) <= RowVersion(s.stored) }

  lemma StepGreatest(s: State, l: Label)
    requires Behind(s) && !Overtaken(s, l)
    ensures Behind(Step(s, l))
    ensures RowVersion(Step(s, l).stored) ==
      if l.Update? && l.h in s.copies then Max(RowVersion(s.stored), ParseVersion(l.o.version)) else RowVersion(s.stored)
  {}

  /** And then the row ends at the greatest version any update brought, stale or not. */
  lemma {:induction false} OverlappingGreatest(s: State, ls: seq<Label>)
    requires Behind(s) && NeverOvertaken(s, ls)
    ensures RowVersion(Run(s, ls).stored) == Greatest(Brought(s, ls), RowVersion(s.stored))
    decreases |ls|
  {
    if ls != [] {
      StepGreatest(s, ls[0]);
      OverlappingGreatest(Step(s, ls[0]), ls[1..]);
      var first := if ls[0].Update? && ls[0].h in s.copies then [ls[0].o] else [];
      assert Brought(s, ls) == first + Brought(Step(s, ls[0]), ls[1..]);
      if first != [] { assert Brought(s, ls)[1..] == Brought(Step(s, ls[0]), ls[1..]); }
      else { assert Brought(s, ls) == Brought(Step(s, ls[0]), ls[1..]); }
    }
  }

  // --- whatever the object ---

  /** The row has been written to a later version since the copy was fetched. */
  predicate CopyBehind(s: State, l: Label) { l.Update? && l.h in s.copies && RowVersion(s.copies[l.h]) < RowVersion(s.stored) }

  ghost predicate NonNegative(s: State) {
    RowVersion(s.stored) >= 0 && forall h :: h in s.copies ==> RowVersion(s.copies[h]) >= 0
  }

  /** Another text for the same version. */
  lemma LeadingZero(n: nat)
    ensures ParseVersion("0" + Decimal(n)) == Min(n, MAX_INT32) && "0" + Decimal(n) != Decimal(n)
  {
    DecimalDigits(n);
    ParseDecimalDigits(n);
    var text := "0" + Decimal(n);
    assert text[1..] == Decimal(n) && text[0] == '0';
    assert ParseDigits(text, 0) == ParseDigits(text[1..], 0);
    assert |text| == |Decimal(n)| + 1;
  }

  lemma VersionRange(r: Row)
    ensures RowVersion(r) <= MAX_INT32
  {}

  /** An object that goes back past a copy that is behind. */
  lemma BehindLowers(s: State, h: int, name: string, uid: string) returns (o: Remote)
    requires h in s.copies && 0 <= RowVersion(s.copies[h]) < RowVersion(s.stored)
    ensures Overtaken(s, Update(h, o))
  {
    var (copy, n) := (s.copies[h], RowVersion(s.copies[h]));
    VersionRange(copy);
    ParseDecimal(n);
    LeadingZero(n);
    o := Remote(uid, name, if copy.version == Decimal(n) then "0" + Decimal(n) else Decimal(n));
  }

  /** An update is sure not to lower the stored version, whatever object it brings, exactly when its copy is not
      behind the row. */
  lemma SafeUpdateExact(s: State, h: int)
    requires NonNegative(s)
    ensures (forall o :: RowVersion(Step(s, Update(h, o)).stored) >= RowVersion(s.stored)) <==>
      (h in s.copies ==> RowVersion(s.stored) <= RowVersion(s.copies[h]))
  {
    if h in s.copies && RowVersion(s.copies[h]) < RowVersion(s.stored) {
      var o := BehindLowers(s, h, "", "");
      GoesBackExact(s, Update(h, o));
    }
  }

  predicate NeverBehind(s: State, ls: seq<Label>)
    decreases |ls|
  {
    ls == [] || (!CopyBehind(s, ls[0]) && NeverBehind(Step(s, ls[0]), ls[1..]))
  }

  /** Any update of the run could bring any object in place of its own. */
  ghost predicate NeverBackWhatever(s: State, ls: seq<Label>)
    decreases |ls|
  {
    ls == [] || (SafeWhatever(s, ls[0]) && NeverBackWhatever(Step(s, ls[0]), ls[1..]))
  }

  ghost predicate SafeWhatever(s: State, l: Label) {
    match l
    case Fetch(_) => true
    case Update(h, _) => forall o :: RowVersion(Step(s, Update(h, o)).stored) >= RowVersion(s.stored)
  }

  lemma StepNonNegative(s: State, l: Label)
    requires NonNegative(s)
    ensures NonNegative(Step(s, l))
  {}

  /** Over every run: no update would go back, whatever object it brought, exactly when no copy is ever behind at
      its update; and then the stored version never goes back. */
  lemma {:induction false} NeverBehindExact(s: State, ls: seq<Label>)
    requires NonNegative(s)
    ensures NeverBackWhatever(s, ls) <==> NeverBehind(s, ls)
    ensures NeverBehind(s, ls) ==> NeverBack(s, ls)
    decreases |ls|
  {
    if ls != [] {
      var l := ls[0];
      if l.Update? { SafeUpdateExact(s, l.h); }
      assert SafeWhatever(s, l) <==> !CopyBehind(s, l);
      GoesBackExact(s, l);
      StepNonNegative(s, l);
      NeverBehindExact(Step(s, l), ls[1..]);
    }
  }

  /** An update does to the stored row what a delivery does exactly when no field agrees with the object in the
      copy only. */
  lemma WriteExact(stored: Row, copy: Row, o: Remote)
    ensures WriteDiff(stored, copy, Apply(copy, o)) == Apply(stored, o) <==>
      && (copy.name == o.name ==> stored.name == o.name)
      && (copy.externalId == o.uid ==> stored.externalId == o.uid)
      && (copy.version == o.version ==> stored.version == o.version)
      && (copy.status == ACTIVE ==> stored.status == ACTIVE)
  {}

  /** Every update finds the row as its copy was fetched. */
  predicate Undisturbed(s: State, ls: seq<Label>)
    decreases |ls|
  {
    ls == [] || ((ls[0].Update? && ls[0].h in s.copies ==> s.copies[ls[0].h] == s.stored) && Undisturbed(Step(s, ls[0]), ls[1..]))
  }

  /** Deliveries that do not overlap are the deliveries of the theorems above, in the order of their updates. */
  lemma {:induction false} UndisturbedDelivers(s: State, ls: seq<Label>)
    requires Undisturbed(s, ls)
    ensures Run(s, ls).stored == DeliverAll(s.stored, Brought(s, ls)) && NeverOvertaken(s, ls)
    decreases |ls|
  {
    if ls != [] {
      var t := Step(s, ls[0]);
      UndisturbedDelivers(t, ls[1..]);
      if ls[0].Update? && ls[0].h in s.copies {
        WriteExact(s.stored, s.stored, ls[0].o);
        assert t.stored == Deliver(s.stored, ls[0].o);
        assert Brought(s, ls) == [ls[0].o] + Brought(t, ls[1..]);
        assert Brought(s, ls)[1..] == Brought(t, ls[1..]);
      } else {
        assert Brought(s, ls) == [] + Brought(t, ls[1..]) == Brought(t, ls[1..]);
      }
    }
  }

  /** A run that goes back: a sync job holds a copy of version 4 and has got version 5; an event writes version
      6; the job finds 5 newer than 4 and writes it. */
  lemma OvertakenRun(row: Row, o: Remote, p: Remote)
    ensures var s := Run(State(At(row, 4), map[]), [Fetch(0), Fetch(1), Update(1, Sent(p, 6))]);
      RowVersion(s.stored) == 6 && RowVersion(Step(s, Update(0, Sent(o, 5))).stored) == 5
  {
    var (r, o6) := (At(row, 4), Sent(p, 6));
    ParseDecimal(4);
    ParseDecimal(5);
    ParseDecimal(6);
    DecimalDigits(4);
    DecimalDigits(5);
    DecimalDigits(6);
    var ls := [Fetch(0), Fetch(1), Update(1, o6)];
    var s2 := State(r, map[0 := r, 1 := r]);
    var s3 := State(WriteDiff(r, r, Apply(r, o6)), map[0 := r]);
    assert Step(State(r, map[]), ls[0]) == State(r, map[0 := r]);
    assert Step(State(r, map[0 := r]), ls[1]) == s2;
    assert Step(s2, ls[2]) == s3 by { assert s2.copies - {1} == s3.copies; }
    assert ls[1..] == [ls[1], ls[2]] && ls[1..][1..] == [ls[2]] && [ls[2]][1..] == [];
    assert Run(s2, [ls[2]]) == Run(s3, []) == s3;
    assert Run(State(r, map[0 := r]), [ls[1], ls[2]]) == Run(s2, [ls[2]]);
  }

  /** A run that tears the row: the job's copy and its object agree on the name, so the name an event wrote in
      between stays, under the job's version. */
  lemma TornRun(row: Row, o: Remote, p: Remote)
    requires row.name == p.name != o.name
    ensures var (r, o5, o6) := (At(row, 4), Sent(o, 5), Sent(p, 6));
      var s := State(WriteDiff(r, r, Apply(r, o5)), map[0 := r]);
      var t := Step(s, Update(0, o6)).stored; t.version == o6.version && t.name == o5.name && t != Apply(s.stored, o6)
  {
    ParseDecimal(4);
    ParseDecimal(6);
    DecimalDigits(4);
  }
}

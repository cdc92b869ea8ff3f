/** One sync pass of a resource table against a cluster (pkg/models/clusterresource.go). */
module Mirror {
  import opened Prelude
  import opened Compare
  import opened Versions

  predicate EndsWith(s: string, t: string) { |t| <= |s| && s[|s| - |t|..] == t }

  /** SyncRemovedClusterResource spares rows in these states. */
  predicate Failed(status: string) { EndsWith(status, "_fail") || EndsWith(status, "_failed") }

  function RowKey(r: Row): string { r.externalId }
  function Uid(o: Remote): string { o.uid }

  type Rows = map<int, Row>

  /** Rows are keyed by their own id and new ids are unused. */
  predicate RowsOk(rows: Rows, next: int) { forall k :: k in rows ==> k < next && rows[k].id == k }

  predicate Of(rows: Rows, k: int, c: string) { k in rows && rows[k].cluster == c }

  /** `local` is the query for cluster c: every row of c once. */
  ghost predicate Lists(local: seq<Row>, rows: Rows, c: string) {
    && (forall r :: r in local ==> Of(rows, r.id, c) && rows[r.id] == r)
    && (forall k :: Of(rows, k, c) ==> rows[k] in local)
    && (forall i, j :: 0 <= i < j < |local| ==> local[i].id != local[j].id)
  }

  // --- the three loops as functions ---

  function Doomed(removed: seq<Row>): set<int> { set r | r in removed && !Failed(r.status) :: r.id }
  function Spared(removed: seq<Row>): set<int> { set r | r in removed && Failed(r.status) :: r.id }

  /** Writes that the database refuses: of existing rows by id, of new ones by the object's uid. */
  datatype Faults = Faults(broken: set<int>, noInsert: set<string>, noWrite: set<string>)

  /** The update of a row succeeds: the version is accepted and, if anything changes, it can be written. */
  predicate Succeeds(r: Row, o: Remote, w: Faults) { Accepts(r, o) && (r.id in w.broken ==> Apply(r, o) == r) }

  /** The rows after the first n updates. */
  function Updated(rows: Rows, db: seq<Row>, ext: seq<Remote>, n: nat, w: Faults): Rows
    requires n <= |db| == |ext|
  {
    if n == 0 then rows
    else
      var m := Updated(rows, db, ext, n - 1, w);
      if Succeeds(db[n - 1], ext[n - 1], w) then m[db[n - 1].id := Apply(db[n - 1], ext[n - 1])] else m
  }

  predicate NameTaken(rows: Rows, c: string, name: string) { exists k :: k in rows && rows[k].cluster == c && rows[k].name == name }

  /** NewFromRemoteObject inserts the row and updates it at once. */
  function NewRow(id: int, c: string, o: Remote): Row { Apply(Row(id, c, o.name, o.uid, "", ""), o) }

  /** A name already present is an error, and so is a refused insert; a version below zero or a refused write
      is one after the row was inserted. */
  datatype Added = Added(rows: Rows, next: int, errors: nat)

  function AddOne(a: Added, c: string, o: Remote, w: Faults): Added {
    if NameTaken(a.rows, c, o.name) || o.uid in w.noInsert then a.(errors := a.errors + 1)
    else if ParseVersion(o.version) < 0 || o.uid in w.noWrite then
      Added(a.rows[a.next := Row(a.next, c, o.name, o.uid, "", "")], a.next + 1, a.errors + 1)
    else Added(a.rows[a.next := NewRow(a.next, c, o)], a.next + 1, a.errors)
  }

  function AddedTo(a: Added, c: string, added: seq<Remote>, n: nat, w: Faults): Added
    requires n <= |added|
  {
    if n == 0 then a else AddOne(AddedTo(a, c, added, n - 1, w), c, added[n - 1], w)
  }

  // --- what a pass without error leaves ---

  /** `ids` and `objs` run in parallel: each remote object has its own row of c, in step with it, and
      every other row of c is a spared one. */
  ghost predicate OneRowEach(rows: Rows, c: string, kept: set<int>, ids: seq<int>, objs: seq<Remote>) {
    && |ids| == |objs|
    && (forall i, j :: 0 <= i < j < |ids| ==> ids[i] != ids[j])
    && (forall i :: 0 <= i < |ids| ==> Of(rows, ids[i], c) && ids[i] !in kept && Apply(rows[ids[i]], objs[i]) == rows[ids[i]])
    && (forall k :: Of(rows, k, c) ==> k in kept || k in ids)
    && (forall k :: k in kept ==> Of(rows, k, c) && Failed(rows[k].status))
  }

  /** Rows of other clusters are the same in both tables. */
  ghost predicate OthersSame(rows: Rows, rows': Rows, c: string) {
    forall k :: (k in rows && rows[k].cluster != c) || (k in rows' && rows'[k].cluster != c) ==>
      k in rows && k in rows' && rows[k] == rows'[k]
  }

  function Ids(rs: seq<Row>): (s: seq<int>)
    ensures |s| == |rs| && forall i :: 0 <= i < |rs| ==> s[i] == rs[i].id
  {
    seq(|rs|, i requires 0 <= i < |rs| => rs[i].id)
  }

  lemma DistinctOnce(local: seq<Row>, r: Row)
    requires forall i, j :: 0 <= i < j < |local| ==> local[i].id != local[j].id
    ensures multiset(local)[r] <= 1
  {
    if local != [] {
      var last := local[|local| - 1];
      assert local == local[..|local| - 1] + [last];
      DistinctOnce(local[..|local| - 1], r);
      if r == last { assert r !in local[..|local| - 1]; }
    }
  }

  lemma Twice(s: seq<Row>, i: nat, j: nat)
    requires i < j < |s| && s[i] == s[j]
    ensures multiset(s)[s[i]] >= 2
  {
    assert s == s[..j] + s[j..];
    assert s[i] in s[..j] && s[j] in s[j..];
  }

  lemma IdsHas(rs: seq<Row>, r: Row)
    requires r in rs
    ensures r.id in Ids(rs)
  {
    var i :| 0 <= i < |rs| && rs[i] == r;
    assert Ids(rs)[i] == r.id;
  }

  /** The diff splits the listed rows into removed and common ones without overlap. */
  lemma SplitRows(local: seq<Row>, rows: Rows, c: string, removed: seq<Row>, common: seq<Row>)
    requires Lists(local, rows, c) && multiset(removed) + multiset(common) == multiset(local)
    ensures forall r :: r in removed || r in common <==> r in local
    ensures forall r, s :: r in removed && s in common ==> r.id != s.id
    ensures forall i, j :: 0 <= i < j < |common| ==> common[i].id != common[j].id
  {
    forall r ensures r in removed || r in common <==> r in local {
      assert r in multiset(removed) + multiset(common) <==> r in multiset(local);
    }
    forall r, s | r in removed && s in common ensures r.id != s.id {
      assert r.id == s.id ==> r == s;
      assert r == s ==> (multiset(removed) + multiset(common))[r] >= 2;
      DistinctOnce(local, r);
    }
    forall i, j | 0 <= i < j < |common| ensures common[i].id != common[j].id {
      assert common[i] in common && common[j] in common;
      if common[i] == common[j] { Twice(common, i, j); }
      assert common[i] == common[j] ==> multiset(local)[common[i]] >= 2;
      DistinctOnce(local, common[i]);
    }
  }

  predicate Touched(db: seq<Row>, n: nat, k: int)
    requires n <= |db|
  {
    exists i :: 0 <= i < n && db[i].id == k
  }

  predicate SameRow(m: Rows, rows: Rows, k: int) { (k in m <==> k in rows) && (k in m ==> m[k] == rows[k]) }

  /** After n updates: the first n rows are in step with their objects, all others as before. */
  ghost predicate InStep(m: Rows, rows: Rows, db: seq<Row>, ext: seq<Remote>, n: nat)
    requires n <= |db| == |ext|
  {
    && (forall i :: 0 <= i < n ==> db[i].id in m && m[db[i].id] == Apply(db[i], ext[i]))
    && (forall k :: Touched(db, n, k) || SameRow(m, rows, k))
  }

  lemma InStepNext(m: Rows, rows: Rows, db: seq<Row>, ext: seq<Remote>, n: nat)
    requires n < |db| == |ext| && InStep(m, rows, db, ext, n) && forall i, j :: 0 <= i < j < |db| ==> db[i].id != db[j].id
    ensures InStep(m[db[n].id := Apply(db[n], ext[n])], rows, db, ext, n + 1)
  {
    var m' := m[db[n].id := Apply(db[n], ext[n])];
    forall k ensures Touched(db, n + 1, k) || SameRow(m', rows, k) {
      assert Touched(db, n, k) || SameRow(m, rows, k);
    }
  }

  /** The rows after n updates that all succeed. */
  function Renewed(rows: Rows, db: seq<Row>, ext: seq<Remote>, n: nat): Rows
    requires n <= |db| == |ext|
  {
    if n == 0 then rows else Renewed(rows, db, ext, n - 1)[db[n - 1].id := Apply(db[n - 1], ext[n - 1])]
  }

  lemma {:induction false} RenewedAt(rows: Rows, db: seq<Row>, ext: seq<Remote>, n: nat)
    requires n <= |db| == |ext| && forall i, j :: 0 <= i < j < |db| ==> db[i].id != db[j].id
    ensures InStep(Renewed(rows, db, ext, n), rows, db, ext, n)
  {
    if n > 0 {
      RenewedAt(rows, db, ext, n - 1);
      InStepNext(Renewed(rows, db, ext, n - 1), rows, db, ext, n - 1);
    }
  }

  lemma {:induction false} UpdatedIsRenewed(rows: Rows, db: seq<Row>, ext: seq<Remote>, n: nat, w: Faults)
    requires n <= |db| == |ext| && forall i :: 0 <= i < |db| ==> Succeeds(db[i], ext[i], w)
    ensures Updated(rows, db, ext, n, w) == Renewed(rows, db, ext, n)
  {
    if n > 0 { UpdatedIsRenewed(rows, db, ext, n - 1, w); }
  }

  lemma {:induction false} ErrorsGrow(a: Added, c: string, added: seq<Remote>, m: nat, n: nat, w: Faults)
    requires m <= n <= |added|
    ensures AddedTo(a, c, added, m, w).errors <= AddedTo(a, c, added, n, w).errors
    decreases n
  {
    if m < n { ErrorsGrow(a, c, added, m, n - 1, w); }
  }

  lemma AddOneAt(a: Added, c: string, o: Remote, w: Faults)
    requires AddOne(a, c, o, w).errors == a.errors
    ensures AddOne(a, c, o, w) == Added(a.rows[a.next := NewRow(a.next, c, o)], a.next + 1, a.errors)
  {}

  /** What n insertions have done: rows next, next + 1, ... mirror their objects, the others stay. */
  ghost predicate Grown(a: Added, c: string, added: seq<Remote>, n: nat, b: Added)
    requires n <= |added|
  {
    && b.errors == a.errors && b.next == a.next + n
    && (forall k :: a.next <= k < a.next + n ==> k in b.rows && b.rows[k] == NewRow(k, c, added[k - a.next]))
    && (forall k :: k < a.next ==> (k in b.rows <==> k in a.rows) && (k in b.rows ==> b.rows[k] == a.rows[k]))
    && (forall k :: k in b.rows ==> k < b.next)
  }

  lemma GrownStep(a: Added, c: string, added: seq<Remote>, n: nat, b: Added, d: Added)
    requires n < |added| && Grown(a, c, added, n, b)
    requires d == Added(b.rows[b.next := NewRow(b.next, c, added[n])], b.next + 1, b.errors)
    ensures Grown(a, c, added, n + 1, d)
  {}

  /** Without errors at the end there was none on the way: each object became a row. */
  lemma AddedStep(a: Added, c: string, added: seq<Remote>, n: nat, w: Faults)
    requires 0 < n <= |added| && AddedTo(a, c, added, |added|, w).errors == a.errors
    ensures var b := AddedTo(a, c, added, n - 1, w);
            AddedTo(a, c, added, n, w) == Added(b.rows[b.next := NewRow(b.next, c, added[n - 1])], b.next + 1, b.errors)
  {
    ErrorsGrow(a, c, added, 0, n - 1, w);
    ErrorsGrow(a, c, added, n - 1, n, w);
    ErrorsGrow(a, c, added, n, |added|, w);
    AddOneAt(AddedTo(a, c, added, n - 1, w), c, added[n - 1], w);
  }

  lemma {:induction false} AddedAt(a: Added, c: string, added: seq<Remote>, n: nat, w: Faults)
    requires n <= |added| && (forall k :: k in a.rows ==> k < a.next)
    requires AddedTo(a, c, added, |added|, w).errors == a.errors
    ensures Grown(a, c, added, n, AddedTo(a, c, added, n, w))
  {
    if n > 0 {
      AddedAt(a, c, added, n - 1, w);
      AddedStep(a, c, added, n, w);
      GrownStep(a, c, added, n - 1, AddedTo(a, c, added, n - 1, w), AddedTo(a, c, added, n, w));
    }
  }

  /** The inputs and outcome of one pass. */
  datatype Pass = Pass(rows: Rows, next: int, c: string, removed: seq<Row>, db: seq<Row>, ext: seq<Remote>, added: seq<Remote>, w: Faults) {
    predicate Ok() { |db| == |ext| }
    function Deleted(): Rows { rows - Doomed(removed) }
    function Kept(stuck: set<int>): Rows { rows - (Doomed(removed) - stuck) }
    function Updates(stuck: set<int>): Rows requires Ok() { Updated(Kept(stuck), db, ext, |db|, w) }
    function Ended(stuck: set<int>): Added requires Ok() { AddedTo(Added(Updates(stuck), next, 0), c, added, |added|, w) }
    function Refreshed(): Rows requires Ok() { Updated(Deleted(), db, ext, |db|, w) }
    function Result(): Added requires Ok() { AddedTo(Added(Refreshed(), next, 0), c, added, |added|, w) }
    predicate Clean() requires Ok() { (forall i :: 0 <= i < |db| ==> Succeeds(db[i], ext[i], w)) && Result().errors == 0 }
    function RowIds(): seq<int> { Ids(db) + seq(|added|, i => next + i) }
    function Objects(): seq<Remote> { ext + added }
  }

  ghost predicate Plan(p: Pass, local: seq<Row>, remote: seq<Remote>) {
    && RowsOk(p.rows, p.next) && Lists(local, p.rows, p.c)
    && Diff(local, RowKey, remote, Uid, p.removed, p.db, p.ext, p.added)
  }

  /** Every row of the cluster is exactly one of: to be deleted, spared, or matched. */
  ghost predicate Kinds(p: Pass) {
    && (forall k :: k in Doomed(p.removed) ==> Of(p.rows, k, p.c) && !Failed(p.rows[k].status))
    && (forall k :: k in Spared(p.removed) ==> Of(p.rows, k, p.c) && Failed(p.rows[k].status))
    && (forall k :: k in Ids(p.db) ==> Of(p.rows, k, p.c) && k !in Doomed(p.removed) && k !in Spared(p.removed))
    && (forall k :: Of(p.rows, k, p.c) ==> k in Doomed(p.removed) || k in Spared(p.removed) || k in Ids(p.db))
    && (forall i, j :: 0 <= i < j < |p.db| ==> p.db[i].id != p.db[j].id)
    && (forall i :: 0 <= i < |p.db| ==> Of(p.rows, p.db[i].id, p.c) && p.rows[p.db[i].id] == p.db[i])
  }

  lemma PlanKinds(p: Pass, local: seq<Row>, remote: seq<Remote>)
    requires Plan(p, local, remote)
    ensures Kinds(p)
  {
    SplitRows(local, p.rows, p.c, p.removed, p.db);
    forall i | 0 <= i < |p.db| ensures Of(p.rows, p.db[i].id, p.c) && p.rows[p.db[i].id] == p.db[i] {
      assert p.db[i] in p.db && p.db[i] in local;
    }
    forall k | Of(p.rows, k, p.c) ensures k in Doomed(p.removed) || k in Spared(p.removed) || k in Ids(p.db) {
      var r := p.rows[k];
      assert r in local;
      if r in p.db { IdsHas(p.db, r); }
    }
    forall k | k in Ids(p.db) ensures k !in Doomed(p.removed) && k !in Spared(p.removed) {
      var i :| 0 <= i < |p.db| && Ids(p.db)[i] == k;
      assert p.db[i] in p.db;
    }
  }

  /** The rows a clean pass leaves below the first new id. */
  ghost predicate OldRows(p: Pass, after: Rows)
    requires p.Ok()
  {
    && (forall i :: 0 <= i < |p.db| ==> p.db[i].id in after && after[p.db[i].id] == Apply(p.db[i], p.ext[i]))
    && (forall k :: k < p.next && k !in Ids(p.db) ==>
          (k in after <==> k in p.rows && k !in Doomed(p.removed)) && (k in after ==> after[k] == p.rows[k]))
  }

  /** The rows it adds. */
  ghost predicate NewRows(p: Pass, after: Rows) {
    && (forall k :: p.next <= k < p.next + |p.added| ==> k in after && after[k] == NewRow(k, p.c, p.added[k - p.next]))
    && (forall k :: k in after ==> k < p.next + |p.added|)
  }

  lemma MatchedKey(p: Pass, k: int) returns (i: nat)
    requires k in Ids(p.db)
    ensures i < |p.db| && p.db[i].id == k
  {
    i :| 0 <= i < |p.db| && Ids(p.db)[i] == k;
  }

  lemma RefreshedAt(p: Pass)
    requires RowsOk(p.rows, p.next) && Kinds(p) && p.Ok() && (forall i :: 0 <= i < |p.db| ==> Succeeds(p.db[i], p.ext[i], p.w))
    ensures OldRows(p, p.Refreshed()) && RowsOk(p.Refreshed(), p.next)
  {
    var after := p.Refreshed();
    UpdatedIsRenewed(p.Deleted(), p.db, p.ext, |p.db|, p.w);
    RenewedAt(p.Deleted(), p.db, p.ext, |p.db|);
    forall k | k !in Ids(p.db) ensures SameRow(after, p.Deleted(), k) {
      assert forall i :: 0 <= i < |p.db| ==> Ids(p.db)[i] in Ids(p.db);
      assert Touched(p.db, |p.db|, k) || SameRow(after, p.Deleted(), k);
    }
    assert OldRows(p, after);
    forall k | k in after ensures k < p.next && after[k].id == k {
      if k in Ids(p.db) {
        var i := MatchedKey(p, k);
        assert after[p.db[i].id] == Apply(p.db[i], p.ext[i]);
      }
    }
  }

  /** The table after a clean pass, row by row. */
  lemma ResultAt(p: Pass, local: seq<Row>, remote: seq<Remote>)
    requires Plan(p, local, remote) && p.Ok() && p.Clean()
    ensures Kinds(p) && OldRows(p, p.Result().rows) && NewRows(p, p.Result().rows)
    ensures RowsOk(p.Result().rows, p.Result().next)
  {
    PlanKinds(p, local, remote);
    RefreshedAt(p);
    var a := Added(p.Refreshed(), p.next, 0);
    AddedAt(a, p.c, p.added, |p.added|, p.w);
    GrownRows(p, a, p.Result());
  }

  lemma GrownOld(p: Pass, a: Added, b: Added)
    requires p.Ok() && RowsOk(p.rows, p.next) && Kinds(p) && OldRows(p, a.rows) && a.next == p.next
    requires Grown(a, p.c, p.added, |p.added|, b)
    ensures OldRows(p, b.rows)
  {
    forall i | 0 <= i < |p.db| ensures p.db[i].id in b.rows && b.rows[p.db[i].id] == Apply(p.db[i], p.ext[i]) {
      assert Of(p.rows, p.db[i].id, p.c);
    }
  }

  lemma GrownIds(p: Pass, a: Added, b: Added)
    requires RowsOk(a.rows, a.next) && Grown(a, p.c, p.added, |p.added|, b)
    ensures RowsOk(b.rows, b.next)
  {
    forall k | k in b.rows ensures k < b.next && b.rows[k].id == k {
      if k >= a.next { assert b.rows[k] == NewRow(k, p.c, p.added[k - a.next]); }
    }
  }

  lemma GrownRows(p: Pass, a: Added, b: Added)
    requires p.Ok() && RowsOk(p.rows, p.next) && Kinds(p) && OldRows(p, a.rows) && RowsOk(a.rows, a.next) && a.next == p.next
    requires Grown(a, p.c, p.added, |p.added|, b)
    ensures OldRows(p, b.rows) && NewRows(p, b.rows) && RowsOk(b.rows, b.next)
  {
    GrownOld(p, a, b);
    GrownIds(p, a, b);
  }

  /** A row id handed out by the pass belongs to a row that mirrors its object. */
  lemma RowIdAt(p: Pass, after: Rows, i: nat)
    requires RowsOk(p.rows, p.next) && p.Ok() && Kinds(p) && OldRows(p, after) && NewRows(p, after) && i < |p.RowIds()|
    ensures var k := p.RowIds()[i];
            Of(after, k, p.c) && k !in Spared(p.removed) && Apply(after[k], p.Objects()[i]) == after[k]
  {
    if i < |p.db| {
      assert p.RowIds()[i] == p.db[i].id == Ids(p.db)[i] && p.Objects()[i] == p.ext[i];
    } else {
      assert p.RowIds()[i] == p.next + (i - |p.db|) && p.Objects()[i] == p.added[i - |p.db|];
    }
  }

  lemma RowIdsDistinct(p: Pass, i: nat, j: nat)
    requires RowsOk(p.rows, p.next) && Kinds(p) && i < j < |p.RowIds()|
    ensures p.RowIds()[i] != p.RowIds()[j]
  {
    assert i < |p.db| ==> p.RowIds()[i] == p.db[i].id;
    assert j < |p.db| ==> p.RowIds()[j] == p.db[j].id;
    assert i >= |p.db| ==> p.RowIds()[i] == p.next + (i - |p.db|);
    assert j >= |p.db| ==> p.RowIds()[j] == p.next + (j - |p.db|);
  }

  /** A row of the cluster after the pass is a spared one or carries one of the pass's ids. */
  lemma RowAccounted(p: Pass, after: Rows, k: int)
    requires RowsOk(p.rows, p.next) && p.Ok() && Kinds(p) && OldRows(p, after) && NewRows(p, after) && Of(after, k, p.c)
    ensures k in Spared(p.removed) || k in p.RowIds()
  {
    if k >= p.next {
      assert p.RowIds()[|p.db| + (k - p.next)] == k;
    } else if k in Ids(p.db) {
      var i := MatchedKey(p, k);
      assert p.RowIds()[i] == k;
    }
  }

  lemma OthersStay(p: Pass, after: Rows)
    requires RowsOk(p.rows, p.next) && p.Ok() && Kinds(p) && OldRows(p, after) && NewRows(p, after)
    ensures OthersSame(p.rows, after, p.c)
  {
    forall k | k in after && k in Ids(p.db) ensures after[k].cluster == p.c {
      var i := MatchedKey(p, k);
      assert after[p.db[i].id] == Apply(p.db[i], p.ext[i]);
    }
  }

  /** A pass that records no error leaves exactly one row per remote object, in step with it; the only
      other rows of the cluster are unmatched ones in a failed state, and other clusters' rows are untouched. */
  lemma PassMirrors(p: Pass, local: seq<Row>, remote: seq<Remote>)
    requires Plan(p, local, remote) && p.Ok() && p.Clean()
    ensures OneRowEach(p.Result().rows, p.c, Spared(p.removed), p.RowIds(), p.Objects())
    ensures multiset(p.Objects()) == multiset(remote)
    ensures OthersSame(p.rows, p.Result().rows, p.c) && RowsOk(p.Result().rows, p.Result().next)
  {
    var after := p.Result().rows;
    ResultAt(p, local, remote);
    OthersStay(p, after);
    assert multiset(p.ext + p.added) == multiset(p.added) + multiset(p.ext);
    Assemble(p, after);
  }

  lemma Assemble(p: Pass, after: Rows)
    requires RowsOk(p.rows, p.next) && p.Ok() && Kinds(p) && OldRows(p, after) && NewRows(p, after)
    ensures OneRowEach(after, p.c, Spared(p.removed), p.RowIds(), p.Objects())
  {
    forall i | 0 <= i < |p.RowIds()|
      ensures Of(after, p.RowIds()[i], p.c) && p.RowIds()[i] !in Spared(p.removed)
      ensures Apply(after[p.RowIds()[i]], p.Objects()[i]) == after[p.RowIds()[i]]
    {
      RowIdAt(p, after, i);
    }
    forall i, j | 0 <= i < j < |p.RowIds()| ensures p.RowIds()[i] != p.RowIds()[j] { RowIdsDistinct(p, i, j); }
    forall k | Of(after, k, p.c) ensures k in Spared(p.removed) || k in p.RowIds() { RowAccounted(p, after, k); }
  }

  // --- the second pass ---

  ghost predicate DistinctUids(os: seq<Remote>) { forall i, j :: 0 <= i < j < |os| ==> os[i].uid != os[j].uid }

  ghost predicate HasUid(os: seq<Remote>, u: string) { exists o :: o in os && o.uid == u }

  /** No spared row carries the id of a remote object. */
  ghost predicate NoClash(rows: Rows, kept: set<int>, remote: seq<Remote>) {
    forall k :: k in kept && k in rows ==> !HasUid(remote, rows[k].externalId)
  }

  lemma SameUidSame(os: seq<Remote>, a: Remote, b: Remote)
    requires DistinctUids(os) && a in os && b in os && a.uid == b.uid
    ensures a == b
  {
    var i :| 0 <= i < |os| && os[i] == a;
    var j :| 0 <= j < |os| && os[j] == b;
    assert i == j;
  }

  lemma DistinctPermuted(os: seq<Remote>, ps: seq<Remote>)
    requires multiset(os) == multiset(ps) && DistinctUids(os)
    ensures DistinctUids(ps) && forall o :: o in os <==> o in ps
  {
    forall o ensures o in os <==> o in ps { assert o in multiset(os) <==> o in multiset(ps); }
    forall i, j | 0 <= i < j < |ps| ensures ps[i].uid != ps[j].uid {
      CountPermuted(os, ps, Uid, ps[i].uid);
      CountAtMostOne(os, Uid, ps[i].uid);
      if ps[i].uid == ps[j].uid { CountTwo(ps, Uid, i, j); }
    }
  }

  /** A matched row of the mirrored table determines its object. */
  lemma RowObject(rows: Rows, c: string, kept: set<int>, ids: seq<int>, objs: seq<Remote>, k: int) returns (i: nat)
    requires OneRowEach(rows, c, kept, ids, objs) && Of(rows, k, c) && k !in kept
    ensures i < |ids| && ids[i] == k && rows[k].externalId == objs[i].uid && Apply(rows[k], objs[i]) == rows[k]
  {
    assert k in ids;
    i :| 0 <= i < |ids| && ids[i] == k;
  }

  lemma MatchedHasUid(rows: Rows, c: string, kept: set<int>, ids: seq<int>, objs: seq<Remote>, k: int)
    requires OneRowEach(rows, c, kept, ids, objs) && Of(rows, k, c) && k !in kept
    ensures HasUid(objs, rows[k].externalId)
  {
    var i := RowObject(rows, c, kept, ids, objs, k);
    assert objs[i] in objs;
  }

  /** In a mirrored table each remote id belongs to exactly one row. */
  lemma OneLocal(local: seq<Row>, rows: Rows, c: string, kept: set<int>, ids: seq<int>, objs: seq<Remote>, o: Remote)
    requires Lists(local, rows, c) && OneRowEach(rows, c, kept, ids, objs) && DistinctUids(objs) && NoClash(rows, kept, objs)
    requires o in objs
    ensures Count(local, RowKey, o.uid) == 1
  {
    forall a, b | 0 <= a < b < |local| ensures !(RowKey(local[a]) == o.uid && RowKey(local[b]) == o.uid) {
      if RowKey(local[a]) == o.uid && RowKey(local[b]) == o.uid {
        assert local[a] in local && local[b] in local && HasUid(objs, o.uid);
        var i := RowObject(rows, c, kept, ids, objs, local[a].id);
        var j := RowObject(rows, c, kept, ids, objs, local[b].id);
      }
    }
    CountAtMostOne(local, RowKey, o.uid);
    var i :| 0 <= i < |objs| && objs[i] == o;
    assert Of(rows, ids[i], c) && rows[ids[i]] in local && RowKey(rows[ids[i]]) == o.uid;
    CountMember(local, RowKey, o.uid);
  }

  lemma {:induction false} UpdatedSame(rows: Rows, db: seq<Row>, ext: seq<Remote>, n: nat, w: Faults)
    requires n <= |db| == |ext|
    requires forall i :: 0 <= i < |db| ==> db[i].id in rows && rows[db[i].id] == db[i] && Apply(db[i], ext[i]) == db[i]
    ensures Updated(rows, db, ext, n, w) == rows
  {
    if n > 0 { UpdatedSame(rows, db, ext, n - 1, w); }
  }

  /** Every remote object is already matched: nothing is added and only spared rows stay unmatched. */
  lemma AllMatched(p: Pass, local: seq<Row>, remote: seq<Remote>, kept: set<int>, ids: seq<int>)
    requires Plan(p, local, remote) && OneRowEach(p.rows, p.c, kept, ids, remote)
    requires DistinctUids(remote) && NoClash(p.rows, kept, remote)
    ensures p.added == [] && forall r :: r in p.removed ==> !HasUid(remote, r.externalId)
  {
    forall o | o in remote ensures Count(p.added, Uid, o.uid) == 0 && Count(p.removed, RowKey, o.uid) == 0 {
      OneLocal(local, p.rows, p.c, kept, ids, remote, o);
      CountAtMostOne(remote, Uid, o.uid);
      CountMember(remote, Uid, o.uid);
      EachKeyPairedMin(local, RowKey, remote, Uid, p.removed, p.db, p.ext, p.added, o.uid);
    }
    forall o | o in p.added ensures o in remote && Count(p.added, Uid, o.uid) > 0 {
      assert o in multiset(p.added) + multiset(p.ext);
      CountMember(p.added, Uid, o.uid);
    }
    assert multiset(p.added) == multiset{} && |multiset(p.added)| == |p.added|;
    forall r | r in p.removed ensures !HasUid(remote, r.externalId) {
      CountMember(p.removed, RowKey, r.externalId);
    }
  }

  lemma PairsInStep(p: Pass, local: seq<Row>, remote: seq<Remote>, kept: set<int>, ids: seq<int>, j: nat)
    requires Plan(p, local, remote) && OneRowEach(p.rows, p.c, kept, ids, remote) && Kinds(p)
    requires DistinctUids(remote) && NoClash(p.rows, kept, remote) && j < |p.db|
    ensures Apply(p.db[j], p.ext[j]) == p.db[j] && Accepts(p.db[j], p.ext[j])
  {
    var k := p.db[j].id;
    assert p.ext[j] in multiset(p.added) + multiset(p.ext);
    assert p.ext[j] in remote && RowKey(p.db[j]) == Uid(p.ext[j]) && HasUid(remote, p.rows[k].externalId);
    var i := RowObject(p.rows, p.c, kept, ids, remote, k);
    SameUidSame(remote, remote[i], p.ext[j]);
  }

  /** A pass that only finds rows already in step has nothing to do. */
  lemma NothingToDo(p: Pass)
    requires p.Ok() && Kinds(p) && p.added == [] && forall r :: r in p.removed ==> Failed(r.status)
    requires forall j :: 0 <= j < |p.db| ==> Apply(p.db[j], p.ext[j]) == p.db[j] && Accepts(p.db[j], p.ext[j])
    ensures p.Clean() && Doomed(p.removed) == {} && p.Result().rows == p.rows
  {
    assert p.Deleted() == p.rows;
    UpdatedSame(p.rows, p.db, p.ext, |p.db|, p.w);
  }

  /** After a pass, a second one on the same remote objects deletes, adds and changes nothing and records
      no error, provided no spared row carries the id of a remote object. */
  lemma SecondPassIdle(p: Pass, local: seq<Row>, remote: seq<Remote>, kept: set<int>, ids: seq<int>)
    requires Plan(p, local, remote) && p.Ok() && OneRowEach(p.rows, p.c, kept, ids, remote)
    requires DistinctUids(remote) && NoClash(p.rows, kept, remote)
    ensures p.Clean() && Doomed(p.removed) == {} && p.added == [] && p.Result().rows == p.rows
  {
    AllMatched(p, local, remote, kept, ids);
    PlanKinds(p, local, remote);
    forall j | 0 <= j < |p.db| ensures Apply(p.db[j], p.ext[j]) == p.db[j] && Accepts(p.db[j], p.ext[j]) {
      PairsInStep(p, local, remote, kept, ids, j);
    }
    forall r | r in p.removed ensures Failed(r.status) { UnmatchedFailed(p, local, remote, kept, ids, r); }
    NothingToDo(p);
  }

  lemma UnmatchedFailed(p: Pass, local: seq<Row>, remote: seq<Remote>, kept: set<int>, ids: seq<int>, r: Row)
    requires Plan(p, local, remote) && OneRowEach(p.rows, p.c, kept, ids, remote)
    requires r in p.removed && !HasUid(remote, r.externalId)
    ensures Failed(r.status)
  {
    assert r in multiset(p.removed) + multiset(p.db);
    assert r in local;
    if r.id !in kept { MatchedHasUid(p.rows, p.c, kept, ids, remote, r.id); }
  }

  /** Two passes in a row on the same remote objects, listed in any order: the second one is idle. */
  lemma TwoPasses(p: Pass, local: seq<Row>, remote: seq<Remote>, q: Pass, local': seq<Row>, remote': seq<Remote>)
    requires Plan(p, local, remote) && p.Ok() && p.Clean()
    requires Plan(q, local', remote') && q.Ok() && q.rows == p.Result().rows && q.c == p.c
    requires multiset(remote') == multiset(remote) && DistinctUids(remote) && NoClash(q.rows, Spared(p.removed), remote)
    ensures q.Clean() && Doomed(q.removed) == {} && q.added == [] && q.Result().rows == q.rows
  {
    PassMirrors(p, local, remote);
    DistinctPermuted(remote, p.Objects());
    assert Plan(q, local', p.Objects());
    forall k | k in Spared(p.removed) && k in q.rows ensures !HasUid(p.Objects(), q.rows[k].externalId) {
      assert !HasUid(remote, q.rows[k].externalId);
    }
    SecondPassIdle(q, local', p.Objects(), Spared(p.removed), p.RowIds());
  }

  /** The proviso is needed: where a spared row shares the id of a live one, any outcome of the diff that
      pairs the live row has a twin that pairs the spared one and deletes the live row. */
  lemma ClashDeletes(p: Pass, local: seq<Row>, remote: seq<Remote>, i: nat, j: nat)
    requires Plan(p, local, remote) && i < |p.removed| && j < |p.db|
    requires p.removed[i].externalId == p.db[j].externalId && !Failed(p.db[j].status)
    ensures var q := p.(removed := p.removed[i := p.db[j]], db := p.db[j := p.removed[i]]);
            Plan(q, local, remote) && p.db[j].id in Doomed(q.removed)
  {
    var q := p.(removed := p.removed[i := p.db[j]], db := p.db[j := p.removed[i]]);
    assert multiset(q.removed) + multiset(q.db) == multiset(p.removed) + multiset(p.db);
    forall k | 0 <= k < |q.db| ensures RowKey(q.db[k]) == Uid(q.ext[k]) { assert RowKey(p.db[k]) == Uid(p.ext[k]); }
    forall x, y | x in q.removed && y in q.added ensures RowKey(x) != Uid(y) {
      assert p.removed[i] in p.removed && RowKey(p.removed[i]) == RowKey(p.db[j]);
      if x != p.db[j] { assert x in p.removed; }
    }
    assert q.removed[i] == p.db[j];
  }

  /** A row and its twin in both tables, for a spared row that carries the id of a remote object. */
  lemma LiveTwin(rows: Rows, c: string, kept: set<int>, ids: seq<int>, objs: seq<Remote>, k: int) returns (live: int)
    requires OneRowEach(rows, c, kept, ids, objs) && k in kept && HasUid(objs, rows[k].externalId)
    ensures Of(rows, live, c) && live != k && rows[live].externalId == rows[k].externalId && !Failed(rows[live].status)
  {
    var o :| o in objs && o.uid == rows[k].externalId;
    var m :| 0 <= m < |objs| && objs[m] == o;
    live := ids[m];
    assert rows[live].status == ACTIVE && ACTIVE[|ACTIVE| - 1] == 'e';
  }

  /** At most one row is paired with each id. */
  lemma PairedOnce(p: Pass, local: seq<Row>, remote: seq<Remote>, i: nat, j: nat)
    requires Plan(p, local, remote) && DistinctUids(remote) && i < j < |p.db|
    ensures p.db[i].externalId != p.db[j].externalId
  {
    var u := p.db[i].externalId;
    EachKeyPairedMin(local, RowKey, remote, Uid, p.removed, p.db, p.ext, p.added, u);
    CountAtMostOne(remote, Uid, u);
    if u == p.db[j].externalId { CountTwo(p.db, RowKey, i, j); }
  }

  /** Of two rows with the id of a remote object, the one that is not paired is removed. */
  lemma OtherRemoved(p: Pass, local: seq<Row>, remote: seq<Remote>, j: nat, b: Row)
    requires Plan(p, local, remote) && DistinctUids(remote) && j < |p.db| && b in local
    requires p.db[j].externalId == b.externalId && p.db[j] != b
    ensures b in p.removed
  {
    SplitRows(local, p.rows, p.c, p.removed, p.db);
    if b in p.db {
      var i :| 0 <= i < |p.db| && p.db[i] == b;
      PairedOnce(p, local, remote, Min(i, j), Max(i, j));
    }
  }

  /** With such a spared row, some outcome of the diff deletes the live row. */
  lemma ClashBreaks(p: Pass, local: seq<Row>, remote: seq<Remote>, kept: set<int>, ids: seq<int>, k: int) returns (q: Pass)
    requires Plan(p, local, remote) && OneRowEach(p.rows, p.c, kept, ids, remote) && DistinctUids(remote)
    requires k in kept && HasUid(remote, p.rows[k].externalId)
    ensures Plan(q, local, remote) && q.rows == p.rows && q.next == p.next && q.c == p.c && Doomed(q.removed) != {}
  {
    var live := LiveTwin(p.rows, p.c, kept, ids, remote, k);
    var a, b := p.rows[live], p.rows[k];
    SplitRows(local, p.rows, p.c, p.removed, p.db);
    assert a in local && b in local && a.id != b.id;
    if a in p.removed {
      q := p;
      assert a.id in Doomed(q.removed);
    } else {
      var j :| 0 <= j < |p.db| && p.db[j] == a;
      OtherRemoved(p, local, remote, j, b);
      var i :| 0 <= i < |p.removed| && p.removed[i] == b;
      ClashDeletes(p, local, remote, i, j);
      q := p.(removed := p.removed[i := p.db[j]], db := p.db[j := p.removed[i]]);
    }
  }

  /** So a second pass is sure to delete nothing exactly when no spared row carries the id of a remote object. */
  lemma IdleIffNoClash(p: Pass, local: seq<Row>, remote: seq<Remote>, kept: set<int>, ids: seq<int>)
    requires Plan(p, local, remote) && OneRowEach(p.rows, p.c, kept, ids, remote) && DistinctUids(remote)
    ensures (forall q :: Plan(q, local, remote) && q.rows == p.rows && q.next == p.next && q.c == p.c ==> Doomed(q.removed) == {})
      <==> NoClash(p.rows, kept, remote)
  {
    if NoClash(p.rows, kept, remote) {
      forall q | Plan(q, local, remote) && q.rows == p.rows && q.next == p.next && q.c == p.c ensures Doomed(q.removed) == {} {
        SecondPassIdle(q, local, remote, kept, ids);
      }
    } else {
      var k :| k in kept && k in p.rows && HasUid(remote, p.rows[k].externalId);
      var q := ClashBreaks(p, local, remote, kept, ids, k);
    }
  }

  /** Two rows of one cluster that share an external id, the second in a failed state. */
  function Live(c: string, u: string): Row { Row(0, c, "a", u, Decimal(1), ACTIVE) }
  function Spare(c: string, u: string): Row { Row(1, c, "a", u, Decimal(1), "delete_fail") }
  function Clashing(c: string, u: string): Rows { map[0 := Live(c, u), 1 := Spare(c, u)] }

  /** The pass over that table and its one remote object; the diff pairs one of the two rows. */
  function ClashPass(c: string, u: string, w: Faults, pairsLive: bool): Pass {
    var (live, spare) := (Live(c, u), Spare(c, u));
    Pass(Clashing(c, u), 2, c, [if pairsLive then spare else live], [if pairsLive then live else spare],
      [Remote(u, "a", Decimal(1))], [], w)
  }

  lemma ClashPlans(c: string, u: string, w: Faults, pairsLive: bool)
    ensures Plan(ClashPass(c, u, w, pairsLive), [Live(c, u), Spare(c, u)], [Remote(u, "a", Decimal(1))])
  {
    var (local, p) := ([Live(c, u), Spare(c, u)], ClashPass(c, u, w, pairsLive));
    assert local[0] == Live(c, u) && local[1] == Spare(c, u);
    assert multiset(p.removed) + multiset(p.db) == multiset(local);
    assert Lists(local, Clashing(c, u), c);
  }

  lemma ClashStatus(c: string, u: string)
    ensures Failed(Spare(c, u).status) && !Failed(Live(c, u).status)
  {
    assert "delete_fail"[|"delete_fail"| - |"_fail"|..] == "_fail";
    assert ACTIVE[|ACTIVE| - 1] == 'e';
  }

  lemma ClashDoomed(c: string, u: string, w: Faults)
    ensures Doomed(ClashPass(c, u, w, true).removed) == {} && Spared(ClashPass(c, u, w, true).removed) == {1}
    ensures Doomed(ClashPass(c, u, w, false).removed) == {0}
  {
    ClashStatus(c, u);
    assert Spare(c, u) in [Spare(c, u)] && Live(c, u) in [Live(c, u)];
  }

  /** The proviso does fail: from this table a first pass over the one remote object is clean and changes nothing,
      and a second, equal pass may pair the failed row instead and delete the live one. */
  lemma ClashRun(c: string, u: string, w: Faults)
    ensures var (local, remote) := ([Live(c, u), Spare(c, u)], [Remote(u, "a", Decimal(1))]);
      var (p, q) := (ClashPass(c, u, w, true), ClashPass(c, u, w, false));
      && Plan(p, local, remote) && p.Ok() && p.Clean() && p.Result().rows == q.rows && Spared(p.removed) == {1}
      && Plan(q, local, remote) && Doomed(q.removed) == {0}
  {
    var p := ClashPass(c, u, w, true);
    ClashPlans(c, u, w, true);
    ClashPlans(c, u, w, false);
    ClashDoomed(c, u, w);
    assert Apply(p.db[0], p.ext[0]) == p.db[0];
    assert p.Deleted() == p.rows;
    UpdatedSame(p.rows, p.db, p.ext, 1, w);
  }

  // --- the table ---

  lemma {:induction false} UpdatedOthers(rows: Rows, c: string, db: seq<Row>, ext: seq<Remote>, n: nat, w: Faults)
    requires n <= |db| == |ext| && forall i :: 0 <= i < |db| ==> db[i].cluster == c && Of(rows, db[i].id, c)
    ensures OthersSame(rows, Updated(rows, db, ext, n, w), c)
  {
    if n > 0 { UpdatedOthers(rows, c, db, ext, n - 1, w); }
  }

  lemma {:induction false} AddedOthers(a: Added, c: string, added: seq<Remote>, n: nat, w: Faults)
    requires n <= |added| && forall k :: k in a.rows ==> k < a.next
    ensures var b := AddedTo(a, c, added, n, w);
            b.next >= a.next && (forall k :: k in b.rows ==> k < b.next) && OthersSame(a.rows, b.rows, c)
  {
    if n > 0 { AddedOthers(a, c, added, n - 1, w); }
  }

  ghost predicate NamesUnique(rows: Rows, c: string) {
    forall k, m :: Of(rows, k, c) && Of(rows, m, c) && rows[k].name == rows[m].name ==> k == m
  }

  /** Adding never gives two rows of the cluster one name, whatever the remote objects are called. */
  lemma {:induction false} AddedNamesUnique(a: Added, c: string, added: seq<Remote>, n: nat, w: Faults)
    requires n <= |added| && NamesUnique(a.rows, c) && forall k :: k in a.rows ==> k < a.next
    ensures NamesUnique(AddedTo(a, c, added, n, w).rows, c)
  {
    if n > 0 {
      AddedNamesUnique(a, c, added, n - 1, w);
      AddedOthers(a, c, added, n - 1, w);
      var (b, o) := (AddedTo(a, c, added, n - 1, w), added[n - 1]);
      assert forall k :: Of(b.rows, k, c) && b.rows[k].name == o.name ==> NameTaken(b.rows, c, o.name);
    }
  }

  // --- every pass, with errors or without ---

  /** The states in which an unmatched row is spared. */
  lemma FailedExact(status: string)
    ensures Failed(status) <==> exists t: string :: status == t + "_fail" || status == t + "_failed"
  {
    if EndsWith(status, "_fail") { assert status == status[..|status| - 5] + "_fail"; }
    if EndsWith(status, "_failed") { assert status == status[..|status| - 7] + "_failed"; }
  }

  /** The row carries the object's fields. */
  predicate Carries(r: Row, o: Remote) { r.name == o.name && r.externalId == o.uid && r.version == o.version && r.status == "active" }

  /** The update of a matched row fails: the object is older than the row, or a change cannot be written. */
  predicate Refused(r: Row, o: Remote, w: Faults) {
    ParseVersion(o.version) < RowVersion(r) || (r.id in w.broken && !Carries(r, o))
  }

  /** A matched row after the update loop: untouched if the update was refused, otherwise in step with its object. */
  predicate Treated(after: Row, r: Row, o: Remote, w: Faults) {
    if Refused(r, o, w) then after == r else Carries(after, o) && after.id == r.id && after.cluster == r.cluster
  }

  /** After n updates, whichever succeed: no row has come or gone, the matched ones are treated, the others as before. */
  ghost predicate AllTreated(m: Rows, rows: Rows, db: seq<Row>, ext: seq<Remote>, n: nat, w: Faults)
    requires n <= |db| == |ext|
  {
    && m.Keys == rows.Keys
    && (forall i :: 0 <= i < n ==> db[i].id in m && Treated(m[db[i].id], db[i], ext[i], w))
    && (forall k :: k in rows ==> Touched(db, n, k) || m[k] == rows[k])
  }

  ghost predicate Fetched(rows: Rows, db: seq<Row>) {
    && (forall i :: 0 <= i < |db| ==> db[i].id in rows && rows[db[i].id] == db[i])
    && (forall i, j :: 0 <= i < j < |db| ==> db[i].id != db[j].id)
  }

  lemma SucceedsExact(r: Row, o: Remote, w: Faults)
    ensures Succeeds(r, o, w) <==> !Refused(r, o, w)
    ensures Succeeds(r, o, w) ==> Treated(Apply(r, o), r, o, w)
  {}

  lemma TreatedNext(m: Rows, r: Row, rows: Rows, db: seq<Row>, ext: seq<Remote>, n: nat, w: Faults)
    requires n < |db| == |ext| && Fetched(rows, db) && AllTreated(m, rows, db, ext, n, w) && Treated(r, db[n], ext[n], w)
    ensures AllTreated(m[db[n].id := r], rows, db, ext, n + 1, w)
  {
    var m' := m[db[n].id := r];
    forall i | 0 <= i < n + 1 ensures db[i].id in m' && Treated(m'[db[i].id], db[i], ext[i], w) {
      assert i < n ==> db[i].id != db[n].id;
    }
    forall k | k in rows ensures Touched(db, n + 1, k) || m'[k] == rows[k] {
      assert Touched(db, n, k) || m[k] == rows[k];
    }
  }

  lemma UpdatedOne(rows: Rows, db: seq<Row>, ext: seq<Remote>, n: nat, w: Faults)
    requires n < |db| == |ext| && Fetched(rows, db) && AllTreated(Updated(rows, db, ext, n, w), rows, db, ext, n, w)
    ensures AllTreated(Updated(rows, db, ext, n + 1, w), rows, db, ext, n + 1, w)
  {
    var m := Updated(rows, db, ext, n, w);
    SucceedsExact(db[n], ext[n], w);
    if Succeeds(db[n], ext[n], w) {
      TreatedNext(m, Apply(db[n], ext[n]), rows, db, ext, n, w);
    } else {
      assert !Touched(db, n, db[n].id);
      assert m[db[n].id] == db[n] && m[db[n].id := db[n]] == m;
      TreatedNext(m, db[n], rows, db, ext, n, w);
    }
  }

  lemma {:induction false} UpdatedExact(rows: Rows, db: seq<Row>, ext: seq<Remote>, n: nat, w: Faults)
    requires n <= |db| == |ext| && Fetched(rows, db)
    ensures AllTreated(Updated(rows, db, ext, n, w), rows, db, ext, n, w)
  {
    if n > 0 {
      UpdatedExact(rows, db, ext, n - 1, w);
      UpdatedOne(rows, db, ext, n - 1, w);
    }
  }

  lemma DoomedSnoc(removed: seq<Row>, i: nat)
    requires i < |removed|
    ensures Doomed(removed[..i + 1]) == Doomed(removed[..i]) + if Failed(removed[i].status) then {} else {removed[i].id}
  {
    assert removed[..i + 1] == removed[..i] + [removed[i]];
  }

  /** A row made for an object: complete, or as inserted when its version is below zero or the write was refused. */
  predicate MadeFor(r: Row, id: int, c: string, o: Remote, w: Faults) {
    && r.id == id && r.cluster == c && r.name == o.name && r.externalId == o.uid && o.uid !in w.noInsert
    && if ParseVersion(o.version) < 0 || o.uid in w.noWrite then r.version == "" && r.status == "" else r.version == o.version && r.status == "active"
  }

  /** The object has a row of its name now, or its insert was refused. */
  predicate Placed(rows: Rows, c: string, o: Remote, w: Faults) { (exists k :: k in rows && rows[k].cluster == c && rows[k].name == o.name) || o.uid in w.noInsert }

  predicate MadeForOne(r: Row, id: int, c: string, added: seq<Remote>, n: nat, w: Faults)
    requires n <= |added|
  {
    exists i :: 0 <= i < n && MadeFor(r, id, c, added[i], w)
  }

  /** After n insertions, whichever succeed: the rows that were there are untouched, every new one is made for an
      object, and every object has been placed. */
  ghost predicate AllPlaced(b: Added, a: Added, c: string, added: seq<Remote>, n: nat, w: Faults)
    requires n <= |added|
  {
    && b.next >= a.next
    && (forall k :: k in a.rows ==> k in b.rows && b.rows[k] == a.rows[k])
    && (forall k :: k in b.rows && k !in a.rows ==> a.next <= k < b.next && MadeForOne(b.rows[k], k, c, added, n, w))
    && (forall i :: 0 <= i < n ==> Placed(b.rows, c, added[i], w))
  }

  /** What one insertion does: the rows that were there stay, at most one is new and made for the object, and there is an
      error exactly when something refuses it. */
  ghost predicate OneAdded(b: Added, a: Added, c: string, o: Remote, w: Faults) {
    && (forall k :: k in a.rows ==> k in b.rows && b.rows[k] == a.rows[k])
    && (forall k :: k in b.rows && k !in a.rows ==> k == a.next < b.next && MadeFor(b.rows[k], k, c, o, w))
    && Placed(b.rows, c, o, w) && a.next <= b.next
    && (b.errors == a.errors || b.errors == a.errors + 1)
    && (b.errors == a.errors <==>
        !NameTaken(a.rows, c, o.name) && o.uid !in w.noInsert && o.uid !in w.noWrite && ParseVersion(o.version) >= 0)
  }

  lemma AddOneExact(a: Added, c: string, o: Remote, w: Faults)
    requires forall k :: k in a.rows ==> k < a.next
    ensures OneAdded(AddOne(a, c, o, w), a, c, o, w)
  {
    var b := AddOne(a, c, o, w);
    if a.next in b.rows { assert b.rows[a.next].cluster == c && b.rows[a.next].name == o.name; }
  }

  lemma OneAddedAt(a: Added, c: string, added: seq<Remote>, n: nat, w: Faults)
    requires 0 < n <= |added| && (forall k :: k in a.rows ==> k < a.next)
    ensures OneAdded(AddedTo(a, c, added, n, w), AddedTo(a, c, added, n - 1, w), c, added[n - 1], w)
  {
    AddedOthers(a, c, added, n - 1, w);
    AddOneExact(AddedTo(a, c, added, n - 1, w), c, added[n - 1], w);
  }

  lemma PlacedStays(rows: Rows, rows': Rows, c: string, o: Remote, w: Faults)
    requires Placed(rows, c, o, w) && forall k :: k in rows ==> k in rows' && rows'[k] == rows[k]
    ensures Placed(rows', c, o, w)
  {}

  lemma PlacedNext(b: Added, m: Added, a: Added, c: string, added: seq<Remote>, n: nat, w: Faults)
    requires n < |added| && AllPlaced(m, a, c, added, n, w) && OneAdded(b, m, c, added[n], w)
    ensures AllPlaced(b, a, c, added, n + 1, w)
  {
    forall i | 0 <= i < n + 1 ensures Placed(b.rows, c, added[i], w) {
      if i < n { PlacedStays(m.rows, b.rows, c, added[i], w); }
    }
    forall k | k in b.rows && k !in a.rows ensures a.next <= k < b.next && MadeForOne(b.rows[k], k, c, added, n + 1, w) {
      if k in m.rows { assert MadeForOne(m.rows[k], k, c, added, n, w); }
    }
  }

  lemma {:induction false} AddedExact(a: Added, c: string, added: seq<Remote>, n: nat, w: Faults)
    requires n <= |added| && forall k :: k in a.rows ==> k < a.next
    ensures AllPlaced(AddedTo(a, c, added, n, w), a, c, added, n, w)
  {
    if n == 0 {
      NonePlaced(a, c, added, w);
    } else {
      AddedExact(a, c, added, n - 1, w);
      OneAddedAt(a, c, added, n, w);
      PlacedNext(AddedTo(a, c, added, n, w), AddedTo(a, c, added, n - 1, w), a, c, added, n - 1, w);
    }
  }

  lemma NonePlaced(a: Added, c: string, added: seq<Remote>, w: Faults)
    ensures AllPlaced(a, a, c, added, 0, w)
  {}

  /** The insert of the n-th object goes through: nothing refuses it and neither a row nor an earlier object has its
      name. */
  predicate Inserts(rows: Rows, c: string, added: seq<Remote>, n: nat, w: Faults)
    requires n < |added|
  {
    var o := added[n];
    && o.uid !in w.noInsert && o.uid !in w.noWrite && ParseVersion(o.version) >= 0
    && (forall k :: k in rows && rows[k].cluster == c ==> rows[k].name != o.name)
    && (forall i :: 0 <= i < n ==> added[i].name != o.name)
  }

  /** As long as all inserts went through, a name is taken by an old row or an earlier object. */
  lemma TakenBy(a: Added, c: string, added: seq<Remote>, n: nat, w: Faults, name: string)
    requires n <= |added| && forall k :: k in a.rows ==> k < a.next
    requires AddedTo(a, c, added, n, w).errors == a.errors
    ensures NameTaken(AddedTo(a, c, added, n, w).rows, c, name) <==>
      NameTaken(a.rows, c, name) || exists i :: 0 <= i < n && added[i].name == name
  {
    AddedPrefix(a, c, added, n, n, w);
    AddedAt(a, c, added[..n], n, w);
    GrownNames(a, c, added[..n], AddedTo(a, c, added, n, w), name);
  }

  lemma GrownNames(a: Added, c: string, added: seq<Remote>, b: Added, name: string)
    requires Grown(a, c, added, |added|, b) && forall k :: k in a.rows ==> k < a.next
    ensures NameTaken(b.rows, c, name) <==> NameTaken(a.rows, c, name) || exists i :: 0 <= i < |added| && added[i].name == name
  {
    if i :| 0 <= i < |added| && added[i].name == name {
      assert b.rows[a.next + i] == NewRow(a.next + i, c, added[i]);
    }
    if k :| k in b.rows && b.rows[k].cluster == c && b.rows[k].name == name {
      if k >= a.next { assert b.rows[k] == NewRow(k, c, added[k - a.next]); }
    }
    if k :| k in a.rows && a.rows[k].cluster == c && a.rows[k].name == name {
      assert k in b.rows && b.rows[k] == a.rows[k];
    }
  }

  lemma {:induction false} AddedPrefix(a: Added, c: string, added: seq<Remote>, m: nat, n: nat, w: Faults)
    requires n <= m <= |added|
    ensures AddedTo(a, c, added[..m], n, w) == AddedTo(a, c, added, n, w)
  {
    if n > 0 { AddedPrefix(a, c, added, m, n - 1, w); }
  }

  /** No insert of the pass fails exactly when each goes through on its own. */
  lemma {:induction false} InsertsExact(a: Added, c: string, added: seq<Remote>, n: nat, w: Faults)
    requires n <= |added| && forall k :: k in a.rows ==> k < a.next
    ensures AddedTo(a, c, added, n, w).errors == a.errors <==> forall i :: 0 <= i < n ==> Inserts(a.rows, c, added, i, w)
  {
    if n > 0 {
      InsertsExact(a, c, added, n - 1, w);
      ErrorsGrow(a, c, added, 0, n - 1, w);
      OneAddedAt(a, c, added, n, w);
      var m := AddedTo(a, c, added, n - 1, w);
      if m.errors == a.errors {
        TakenBy(a, c, added, n - 1, w, added[n - 1].name);
        assert AddedTo(a, c, added, n, w).errors == a.errors <==> Inserts(a.rows, c, added, n - 1, w);
        assert forall i :: 0 <= i < n - 1 ==> Inserts(a.rows, c, added, i, w);
      }
    }
  }

  /** The rows of the table at the end of a pass, some of whose steps may have failed. */
  ghost predicate Outcome(p: Pass, stuck: set<int>, after: Rows)
    requires p.Ok()
  {
    && (forall k :: k in p.rows && k !in Doomed(p.removed) && k !in Ids(p.db) ==> k in after && after[k] == p.rows[k])
    && (forall k :: k in p.rows && k in Doomed(p.removed) ==> (k in after <==> k in stuck) && (k in after ==> after[k] == p.rows[k]))
    && (forall i :: 0 <= i < |p.db| ==> p.db[i].id in after && Treated(after[p.db[i].id], p.db[i], p.ext[i], p.w))
    && (forall k :: k in after && k !in p.rows ==> MadeForOne(after[k], k, p.c, p.added, |p.added|, p.w))
    && (forall i :: 0 <= i < |p.added| ==> Placed(after, p.c, p.added[i], p.w))
  }

  /** So a row that is matched, spared, undeletable or of another cluster never goes, and every other one does. */
  lemma GoneExact(p: Pass, stuck: set<int>, after: Rows, k: int)
    requires Kinds(p) && p.Ok() && Outcome(p, stuck, after) && k in p.rows
    ensures k !in after <==> p.rows[k].cluster == p.c && k !in Ids(p.db) && !Failed(p.rows[k].status) && k !in stuck
  {
    if k in Ids(p.db) { var i := MatchedKey(p, k); }
  }

  /** Rows and objects are matched by external id: pairs share it, and no row to be removed shares it with an object to
      be added. */
  lemma MatchedById(p: Pass, local: seq<Row>, remote: seq<Remote>)
    requires Plan(p, local, remote)
    ensures forall i :: 0 <= i < |p.db| == |p.ext| ==> p.db[i].externalId == p.ext[i].uid
    ensures forall r, o :: r in p.removed && o in p.added ==> r.externalId != o.uid
  {
    forall r, o | r in p.removed && o in p.added ensures r.externalId != o.uid { assert RowKey(r) != Uid(o); }
  }

  lemma FetchedStays(p: Pass, stuck: set<int>)
    requires Kinds(p) && p.Ok()
    ensures Fetched(p.Kept(stuck), p.db)
  {
    forall i | 0 <= i < |p.db| ensures p.db[i].id in p.Kept(stuck) { assert Ids(p.db)[i] in Ids(p.db); }
  }

  /** Every pass, with errors or without: a row of the cluster goes only if it is unmatched, not spared and can be
      deleted, and then it does; a matched row is untouched if its object is stale or its write is refused, and
      otherwise in step; every other row is untouched; new rows are those of the objects that had none. */
  lemma PassOutcome(p: Pass, stuck: set<int>)
    requires RowsOk(p.rows, p.next) && Kinds(p) && p.Ok()
    ensures Outcome(p, stuck, p.Ended(stuck).rows)
  {
    FetchedStays(p, stuck);
    var r1 := p.Kept(stuck);
    UpdatedExact(r1, p.db, p.ext, |p.db|, p.w);
    var r2 := Updated(r1, p.db, p.ext, |p.db|, p.w);
    AddedExact(Added(r2, p.next, 0), p.c, p.added, |p.added|, p.w);
    RowsTreated(p, stuck, r1, r2);
  }

  lemma RowsTreated(p: Pass, stuck: set<int>, r1: Rows, r2: Rows)
    requires RowsOk(p.rows, p.next) && Kinds(p) && p.Ok() && r1 == p.Kept(stuck) && AllTreated(r2, r1, p.db, p.ext, |p.db|, p.w)
    ensures forall k :: k in p.rows && k !in Doomed(p.removed) && k !in Ids(p.db) ==> k in r2 && r2[k] == p.rows[k]
    ensures forall k :: k in Doomed(p.removed) ==> (k in r2 <==> k in stuck) && (k in r2 ==> r2[k] == p.rows[k])
  {
    forall k | k in r1 && k !in Ids(p.db) ensures r2[k] == p.rows[k] {
      assert forall i :: 0 <= i < |p.db| ==> Ids(p.db)[i] in Ids(p.db);
    }
  }

  /** A pass meets no error exactly when no row to be deleted is stuck, no update is refused and every insert goes
      through. */
  ghost predicate AllWell(p: Pass, stuck: set<int>)
    requires p.Ok()
  {
    && Doomed(p.removed) !! stuck
    && (forall i :: 0 <= i < |p.db| ==> !Refused(p.db[i], p.ext[i], p.w))
    && (forall i :: 0 <= i < |p.added| ==> Inserts(p.Updates(stuck), p.c, p.added, i, p.w))
  }

  lemma WellIsClean(p: Pass, stuck: set<int>)
    requires RowsOk(p.rows, p.next) && Kinds(p) && p.Ok() && Doomed(p.removed) !! stuck
    ensures p.Ended(stuck) == p.Result()
    ensures AllWell(p, stuck) <==> p.Clean()
  {
    assert p.Kept(stuck) == p.Deleted();
    KeysBelow(p, p.Deleted(), p.Refreshed());
    InsertsExact(Added(p.Refreshed(), p.next, 0), p.c, p.added, |p.added|, p.w);
    forall i | 0 <= i < |p.db| ensures Succeeds(p.db[i], p.ext[i], p.w) <==> !Refused(p.db[i], p.ext[i], p.w) {
      SucceedsExact(p.db[i], p.ext[i], p.w);
    }
  }

  class Table {
    var rows: Rows
    var next: int

    constructor ()
      ensures rows == map[] && next == 0
    {
      rows, next := map[], 0;
    }

    /** GetClusterModelObjects: the cluster's rows, in no particular order. */
    method GetClusterModelObjects(c: string) returns (local: seq<Row>)
      requires RowsOk(rows, next)
      ensures Lists(local, rows, c)
    {
      local := [];
      var todo := rows.Keys;
      while todo != {}
        invariant todo <= rows.Keys
        invariant forall r :: r in local ==> Of(rows, r.id, c) && rows[r.id] == r && r.id !in todo
        invariant forall k :: Of(rows, k, c) && k !in todo ==> rows[k] in local
        invariant forall i, j :: 0 <= i < j < |local| ==> local[i].id != local[j].id
        decreases |todo|
      {
        var k := AnyOf(todo);
        todo := todo - {k};
        if rows[k].cluster == c { local := local + [rows[k]]; }
      }
    }

    /** SyncRemovedClusterResource in a loop; rows in `stuck` cannot be deleted. */
    method DeleteRemoved(removed: seq<Row>, stuck: set<int>) returns (errors: nat)
      modifies this`rows
      ensures rows == old(rows) - (Doomed(removed) - stuck)
      ensures errors == 0 <==> Doomed(removed) !! stuck
    {
      errors := 0;
      for i := 0 to |removed|
        invariant rows == old(rows) - (Doomed(removed[..i]) - stuck)
        invariant errors == 0 <==> Doomed(removed[..i]) !! stuck
      {
        DoomedSnoc(removed, i);
        if !Failed(removed[i].status) {
          if removed[i].id in stuck {
            errors := errors + 1;
          } else {
            rows := rows - {removed[i].id};
          }
        }
      }
      assert removed[..|removed|] == removed;
    }

    method UpdateCommon(db: seq<Row>, ext: seq<Remote>, w: Faults) returns (errors: nat)
      requires |db| == |ext|
      modifies this`rows
      ensures rows == Updated(old(rows), db, ext, |db|, w)
      ensures errors == 0 <==> forall i :: 0 <= i < |db| ==> Succeeds(db[i], ext[i], w)
    {
      errors := 0;
      for i := 0 to |db|
        invariant rows == Updated(old(rows), db, ext, i, w)
        invariant errors == 0 <==> forall j :: 0 <= j < i ==> Succeeds(db[j], ext[j], w)
      {
        if !Accepts(db[i], ext[i]) || (db[i].id in w.broken && Apply(db[i], ext[i]) != db[i]) {
          errors := errors + 1;
        } else {
          rows := rows[db[i].id := Apply(db[i], ext[i])];
        }
      }
    }

    /** NewFromRemoteObject: refused for a taken name; otherwise inserted, and then updated if the version allows. */
    method NewFromRemoteObject(c: string, o: Remote, w: Faults) returns (ok: bool)
      modifies this`rows, this`next
      ensures Added(rows, next, if ok then 0 else 1) == AddOne(Added(old(rows), old(next), 0), c, o, w)
      ensures ok <==>
        && (forall k :: k in old(rows) && old(rows)[k].cluster == c ==> old(rows)[k].name != o.name)
        && ParseVersion(o.version) >= 0 && o.uid !in w.noInsert + w.noWrite
    {
      if NameTaken(rows, c, o.name) { return false; }
      if o.uid in w.noInsert { return false; }
      var row := Row(next, c, o.name, o.uid, "", "");
      rows := rows[next := row];
      next := next + 1;
      if !Accepts(row, o) || o.uid in w.noWrite { return false; }
      rows := rows[row.id := Apply(row, o)];
      return true;
    }

    method AddNew(c: string, added: seq<Remote>, w: Faults) returns (errors: nat)
      modifies this`rows, this`next
      ensures Added(rows, next, errors) == AddedTo(Added(old(rows), old(next), 0), c, added, |added|, w)
    {
      errors := 0;
      for i := 0 to |added|
        invariant Added(rows, next, errors) == AddedTo(Added(old(rows), old(next), 0), c, added, i, w)
      {
        var ok := NewFromRemoteObject(c, added[i], w);
        if !ok { errors := errors + 1; }
      }
    }

    method AnyInTask(local: seq<Row>, inTask: set<int>) returns (busy: bool)
      ensures busy <==> exists i :: 0 <= i < |local| && local[i].id in inTask
    {
      for i := 0 to |local|
        invariant forall j :: 0 <= j < i ==> local[j].id !in inTask
      {
        if local[i].id in inTask { return true; }
      }
      return false;
    }

    /** The three loops of a pass. */
    method ApplyDiff(c: string, removed: seq<Row>, db: seq<Row>, ext: seq<Remote>, added: seq<Remote>, stuck: set<int>, w: Faults)
      returns (errors: nat)
      requires |db| == |ext| && RowsOk(rows, next) && Kinds(Pass(rows, next, c, removed, db, ext, added, w))
      modifies this
      ensures OthersSame(old(rows), rows, c)
      ensures var p := Pass(old(rows), old(next), c, removed, db, ext, added, w);
        && Outcome(p, stuck, rows) && (errors == 0 <==> AllWell(p, stuck))
        && (errors == 0 ==> p.Clean() && Added(rows, next, 0) == p.Result())
    {
      ghost var p := Pass(rows, next, c, removed, db, ext, added, w);
      var e1 := DeleteRemoved(removed, stuck);
      var e2 := UpdateCommon(db, ext, w);
      DiffOthers(p, Doomed(removed) - stuck);
      var e3 := AddNew(c, added, w);
      errors := e1 + e2 + e3;
      assert Added(rows, next, e3) == p.Ended(stuck);
      PassOutcome(p, stuck);
      if e1 == 0 { WellIsClean(p, stuck); }
      forall i | 0 <= i < |db| ensures Succeeds(db[i], ext[i], w) <==> !Refused(db[i], ext[i], w) { SucceedsExact(db[i], ext[i], w); }
    }

    /** syncClusterResources: refuse while a row is in a task, diff, delete, update, add.  Without error
        `ids` and `objs` list the rows and remote objects now in step, one each. */
    method Sync(c: string, remote: seq<Remote>, inTask: set<int>, stuck: set<int>, w: Faults)
      returns (errors: nat, ids: seq<int>, objs: seq<Remote>, kept: set<int>, ghost p: Pass, ghost local: seq<Row>)
      requires RowsOk(rows, next)
      modifies this
      ensures (exists k :: k in inTask && Of(old(rows), k, c)) ==> errors > 0 && rows == old(rows) && next == old(next)
      ensures (forall k :: k in inTask ==> !Of(old(rows), k, c)) ==>
        && Plan(p, local, remote) && p.rows == old(rows) && p.next == old(next) && p.c == c && p.w == w
        && Outcome(p, stuck, rows) && (errors == 0 <==> AllWell(p, stuck))
      ensures OthersSame(old(rows), rows, c)
      ensures errors == 0 ==> RowsOk(rows, next) && OneRowEach(rows, c, kept, ids, objs) && multiset(objs) == multiset(remote)
      ensures errors == 0 ==> forall k :: k in kept ==> k in old(rows) && rows[k] == old(rows)[k]
    {
      ids, objs, kept := [], [], {};
      var listed := GetClusterModelObjects(c);
      local := listed;
      var start := next;
      p := Pass(rows, next, c, [], [], [], [], w);
      var busy := AnyInTask(listed, inTask);
      if busy { return 1, ids, objs, kept, p, local; }
      var removed, db, ext, added := CompareSets(listed, RowKey, remote, Uid);
      p := Pass(rows, next, c, removed, db, ext, added, w);
      PlanKinds(p, local, remote);
      errors := ApplyDiff(c, removed, db, ext, added, stuck, w);
      if errors == 0 {
        PassMirrors(p, local, remote);
        ResultAt(p, local, remote);
        ids, objs, kept := Ids(db) + seq(|added|, i => start + i), ext + added, Spared(removed);
      }
    }
  }

  /** Whichever of the removed rows could be deleted, rows of other clusters are left alone. */
  lemma DiffOthers(p: Pass, gone: set<int>)
    requires RowsOk(p.rows, p.next) && Kinds(p) && p.Ok() && gone <= Doomed(p.removed)
    ensures var r2 := Updated(p.rows - gone, p.db, p.ext, |p.db|, p.w);
      OthersSame(p.rows, AddedTo(Added(r2, p.next, 0), p.c, p.added, |p.added|, p.w).rows, p.c)
  {
    var r1 := p.rows - gone;
    var r2 := Updated(r1, p.db, p.ext, |p.db|, p.w);
    assert OthersSame(p.rows, r1, p.c);
    assert OthersSame(r1, r2, p.c) by {
      forall i | 0 <= i < |p.db| ensures p.db[i].cluster == p.c && Of(r1, p.db[i].id, p.c) {
        assert Ids(p.db)[i] in Ids(p.db);
      }
      UpdatedOthers(r1, p.c, p.db, p.ext, |p.db|, p.w);
    }
    KeysBelow(p, r1, r2);
    AddedOthers(Added(r2, p.next, 0), p.c, p.added, |p.added|, p.w);
  }

  lemma KeysBelow(p: Pass, r1: Rows, r2: Rows)
    requires RowsOk(p.rows, p.next) && Kinds(p) && p.Ok() && r1.Keys <= p.rows.Keys && r2 == Updated(r1, p.db, p.ext, |p.db|, p.w)
    ensures forall k :: k in r2 ==> k < p.next
  {
    UpdatedKeys(r1, p.db, p.ext, |p.db|, p.w);
    forall k | k in Ids(p.db) ensures k < p.next { assert Of(p.rows, k, p.c); }
  }

  lemma {:induction false} UpdatedKeys(rows: Rows, db: seq<Row>, ext: seq<Remote>, n: nat, w: Faults)
    requires n <= |db| == |ext|
    ensures forall k :: k in Updated(rows, db, ext, n, w) ==> k in rows || k in Ids(db)
  {
    if n > 0 {
      UpdatedKeys(rows, db, ext, n - 1, w);
      assert Ids(db)[n - 1] == db[n - 1].id;
    }
  }
}

/**
 * Joint rows between federated objects and clusters (pkg/models/fed_api.go,
 * pkg/models/federated_resource.go, and the cluster delete of pkg/models/clusters.go).
 */
module Federation {
  import opened Prelude

  type Id = string

  /** A joint row; `resource` is empty until a reconcile binds it. */
  datatype Joint = Joint(fed: Id, cluster: Id, resource: Id)

  type Joints = map<int, Joint>

  predicate Links(joints: Joints, j: int, f: Id, c: Id) { j in joints && joints[j].fed == f && joints[j].cluster == c }

  /** IsAttach2Cluster. */
  predicate Attached(joints: Joints, f: Id, c: Id) { exists j :: j in joints && Links(joints, j, f, c) }

  /** GetAttachedClusters joins with the cluster table: a cluster that is gone is not listed. */
  function AttachedClusters(joints: Joints, clusters: set<Id>, f: Id): set<Id> {
    set j | j in joints && joints[j].fed == f && joints[j].cluster in clusters :: joints[j].cluster
  }

  /** The existing objects with a joint row on c, as the purge queries them. */
  function ObjectsOn(joints: Joints, feds: set<Id>, c: Id): set<Id> {
    set f | f in feds && Attached(joints, f, c)
  }

  /** An attach under way: it has found its cluster, and perhaps also that there is no joint row yet. */
  datatype Attach = Attach(cluster: Id, probed: bool)

  /** A cluster's purge under way: the objects still to visit, and the joint row looked up but not deleted yet. */
  datatype Purge = Purge(todo: set<Id>, held: Option<int>)

  /** `pending`: the object's lock is held by an attach. `purging`: clusters under deletion. */
  datatype State = State(
    feds: set<Id>, clusters: set<Id>, joints: Joints, next: int,
    pending: map<Id, Attach>, purging: map<Id, Purge>)

  datatype Label =
    | CreateFed(f: Id)
    | CreateCluster(c: Id)
    | AttachFind(f: Id, c: Id)             // lock the object, find the cluster
    | AttachProbe(f: Id)                   // IsAttach2Cluster; a row found ends the attach
    | AttachInsert(f: Id)                  // insert, release the lock
    | AttachFail(f: Id)
    | Detach(f: Id, c: Id, j: int)         // under the object's lock
    | DeleteFed(f: Id)                     // guard and delete, under the object's lock
    | PurgeQuery(c: Id)                    // list the objects with a row on c
    | PurgeFetch(c: Id, f: Id, j: int)     // look up the first row of the next object, without its lock
    | PurgeDelete(c: Id)                   // delete the row looked up
    | PurgeFail(c: Id)
    | DropCluster(c: Id)

  /** The row `j` a first-match query returns for (f, c): any matching row if there is one. */
  predicate FirstMatch(joints: Joints, f: Id, c: Id, j: int) { Links(joints, j, f, c) || !Attached(joints, f, c) }

  /** One atomic step; a step that cannot be taken leaves the state alone. */
  function Step(s: State, l: Label): State {
    match l
    case CreateFed(f) => s.(feds := s.feds + {f})
    case CreateCluster(c) => if c in s.purging then s else s.(clusters := s.clusters + {c})
    case AttachFind(f, c) =>
      if f !in s.pending && c in s.clusters then s.(pending := s.pending[f := Attach(c, false)]) else s
    case AttachProbe(f) =>
      if f !in s.pending then s
      else if Attached(s.joints, f, s.pending[f].cluster) then s.(pending := s.pending - {f})
      else s.(pending := s.pending[f := s.pending[f].(probed := true)])
    case AttachInsert(f) =>
      if f in s.pending && s.pending[f].probed then
        s.(joints := s.joints[s.next := Joint(f, s.pending[f].cluster, "")], next := s.next + 1, pending := s.pending - {f})
      else s
    case AttachFail(f) => s.(pending := s.pending - {f})
    case Detach(f, c, j) =>
      if f !in s.pending && Links(s.joints, j, f, c) then s.(joints := s.joints - {j}) else s
    case DeleteFed(f) =>
      if f !in s.pending && AttachedClusters(s.joints, s.clusters, f) == {} then s.(feds := s.feds - {f}) else s
    case PurgeQuery(c) =>
      if c in s.clusters && c !in s.purging then s.(purging := s.purging[c := Purge(ObjectsOn(s.joints, s.feds, c), None)]) else s
    case PurgeFetch(c, f, j) =>
      if c in s.purging && s.purging[c].held == None && f in s.purging[c].todo && FirstMatch(s.joints, f, c, j) then
        s.(purging := s.purging[c := Purge(s.purging[c].todo - {f}, if Attached(s.joints, f, c) then Some(j) else None)])
      else s
    case PurgeDelete(c) =>
      if c in s.purging && s.purging[c].held.Some? then
        s.(joints := s.joints - {s.purging[c].held.value}, purging := s.purging[c := s.purging[c].(held := None)])
      else s
    case PurgeFail(c) => s.(purging := s.purging - {c})
    case DropCluster(c) =>
      if c in s.purging && s.purging[c] == Purge({}, None) then s.(clusters := s.clusters - {c}, purging := s.purging - {c}) else s
  }

  function Run(s: State, ls: seq<Label>): State
    decreases |ls|
  {
    if ls == [] then s else Run(Step(s, ls[0]), ls[1..])
  }

  // --- at most one joint row per object and cluster ---

  ghost predicate Unique(joints: Joints) {
    forall i, j, f, c :: Links(joints, i, f, c) && Links(joints, j, f, c) ==> i == j
  }

  ghost predicate Keyed(s: State) {
    && Unique(s.joints)
    && (forall j :: j in s.joints ==> j < s.next)
    && (forall f, j :: f in s.pending && s.pending[f].probed ==> !Links(s.joints, j, f, s.pending[f].cluster))
    && (forall c :: c in s.purging && s.purging[c].held.Some? ==> s.purging[c].held.value < s.next)
  }

  lemma InsertKeyed(s: State, f: Id)
    requires Keyed(s)
    ensures Keyed(Step(s, AttachInsert(f)))
  {
    var t := Step(s, AttachInsert(f));
    forall i, j, g, c | Links(t.joints, i, g, c) && Links(t.joints, j, g, c) ensures i == j {
      assert i in s.joints ==> i < s.next;
      assert j in s.joints ==> j < s.next;
      assert i < s.next ==> Links(s.joints, i, g, c);
      assert j < s.next ==> Links(s.joints, j, g, c);
    }
    assert forall j, g, c :: Links(t.joints, j, g, c) && j != s.next ==> Links(s.joints, j, g, c);
  }

  lemma FetchKeyed(s: State, c: Id, f: Id, j: int)
    requires Keyed(s)
    ensures Keyed(Step(s, PurgeFetch(c, f, j)))
  {
    assert Links(s.joints, j, f, c) ==> j < s.next;
  }

  lemma ProbeKeyed(s: State, f: Id)
    requires Keyed(s)
    ensures Keyed(Step(s, AttachProbe(f)))
  {
    assert f in s.pending ==> forall j :: Links(s.joints, j, f, s.pending[f].cluster) ==> Attached(s.joints, f, s.pending[f].cluster);
  }

  /** Every step keeps the joint rows unique, whatever else is going on. */
  lemma StepKeyed(s: State, l: Label)
    requires Keyed(s)
    ensures Keyed(Step(s, l))
  {
    if l.AttachInsert? { InsertKeyed(s, l.f); }
    else if l.PurgeFetch? { FetchKeyed(s, l.c, l.f, l.j); }
    else if l.AttachProbe? { ProbeKeyed(s, l.f); }
    else {
      assert forall j, g, c :: Links(Step(s, l).joints, j, g, c) ==> Links(s.joints, j, g, c);
    }
  }

  // --- what a step changes, and nothing else ---

  /** The step deletes row j: a detach of the row's own pair, with the object unlocked, or the delete of a purge that holds
      the row. */
  predicate Deletes(s: State, l: Label, j: int) {
    || (l.Detach? && l.j == j && l.f !in s.pending && Links(s.joints, j, l.f, l.c))
    || (l.PurgeDelete? && l.c in s.purging && s.purging[l.c].held == Some(j))
  }

  /** A row leaves the table exactly then, no row changes, and a row enters exactly when an attach that has found no
      row inserts its own. */
  lemma StepRows(s: State, l: Label, j: int)
    requires Keyed(s)
    ensures j in s.joints ==> (j !in Step(s, l).joints <==> Deletes(s, l, j))
    ensures j in s.joints && j in Step(s, l).joints ==> Step(s, l).joints[j] == s.joints[j]
    ensures j !in s.joints ==> (j in Step(s, l).joints <==> l.AttachInsert? && l.f in s.pending && s.pending[l.f].probed && j == s.next)
    ensures j !in s.joints && j in Step(s, l).joints ==> Step(s, l).joints[j] == Joint(l.f, s.pending[l.f].cluster, "")
  {}

  /** An object goes exactly when its delete finds it unlocked and attached to no existing cluster, a cluster exactly when
      its purge has nothing left to do; they come only by being created. */
  lemma StepTables(s: State, l: Label, x: Id)
    ensures x in s.feds ==> (x !in Step(s, l).feds <==>
      l == DeleteFed(x) && x !in s.pending && forall j :: j in s.joints && s.joints[j].fed == x ==> s.joints[j].cluster !in s.clusters)
    ensures x !in s.feds ==> (x in Step(s, l).feds <==> l == CreateFed(x))
    ensures x in s.clusters ==> (x !in Step(s, l).clusters <==>
      l == DropCluster(x) && x in s.purging && s.purging[x].todo == {} && s.purging[x].held.None?)
    ensures x !in s.clusters ==> (x in Step(s, l).clusters <==> l == CreateCluster(x) && x !in s.purging)
  {
    if l == DeleteFed(x) {
      assert forall j :: j in s.joints && s.joints[j].fed == x && s.joints[j].cluster in s.clusters ==>
        s.joints[j].cluster in AttachedClusters(s.joints, s.clusters, x);
    }
  }

  /** An object is locked by an attach that finds its cluster, and until that attach has found a row, inserted one or
      failed. */
  lemma StepLocks(s: State, l: Label, f: Id)
    ensures f !in s.pending ==> (f in Step(s, l).pending <==> l.AttachFind? && l.f == f && l.c in s.clusters)
    ensures f in s.pending ==> (f !in Step(s, l).pending <==>
      || (l == AttachProbe(f) && exists j :: Links(s.joints, j, f, s.pending[f].cluster))
      || (l == AttachInsert(f) && s.pending[f].probed) || l == AttachFail(f))
    ensures f in s.pending && f in Step(s, l).pending ==>
      && Step(s, l).pending[f].cluster == s.pending[f].cluster
      && (Step(s, l).pending[f].probed <==> s.pending[f].probed || l == AttachProbe(f))
  {
    if l == AttachProbe(f) && f in s.pending && exists j :: Links(s.joints, j, f, s.pending[f].cluster) {
      var j :| Links(s.joints, j, f, s.pending[f].cluster);
      assert Attached(s.joints, f, s.pending[f].cluster);
    }
  }

  /** A purge begins with exactly the existing objects that have a row on the cluster. */
  lemma PurgeLists(s: State, c: Id, f: Id)
    requires c in s.clusters && c !in s.purging
    ensures c in Step(s, PurgeQuery(c)).purging && Step(s, PurgeQuery(c)).purging[c].held.None?
    ensures f in Step(s, PurgeQuery(c)).purging[c].todo <==> f in s.feds && exists j :: Links(s.joints, j, f, c)
  {
    if j :| Links(s.joints, j, f, c) { assert Attached(s.joints, f, c); }
  }

  /** A purge is under way from its query until its cluster is dropped or it fails, and only its own steps change it: each
      lookup takes one object off its list and holds a row of that object on the cluster, if there is one. */
  lemma StepPurges(s: State, l: Label, c: Id)
    ensures c !in s.purging ==> (c in Step(s, l).purging <==> l == PurgeQuery(c) && c in s.clusters)
    ensures c in s.purging ==> (c !in Step(s, l).purging <==> l == PurgeFail(c) || (l == DropCluster(c) && s.purging[c] == Purge({}, None)))
    ensures c in s.purging && c in Step(s, l).purging ==>
      var (p, q) := (s.purging[c], Step(s, l).purging[c]);
      if l.PurgeFetch? && l.c == c && p.held.None? && l.f in p.todo && FirstMatch(s.joints, l.f, c, l.j) then
        q.todo == p.todo - {l.f} && (if q.held.None? then !Attached(s.joints, l.f, c) else Links(s.joints, q.held.value, l.f, c))
      else q == if l == PurgeDelete(c) then Purge(p.todo, None) else p
  {}

  /** A purge holds rows of its own cluster only. */
  ghost predicate HoldsOwn(s: State) {
    forall c :: c in s.purging && s.purging[c].held.Some? && s.purging[c].held.value in s.joints ==>
      s.joints[s.purging[c].held.value].cluster == c
  }

  lemma StepHoldsOwn(s: State, l: Label)
    requires Keyed(s) && HoldsOwn(s)
    ensures HoldsOwn(Step(s, l))
  {
    if l.PurgeFetch? && Attached(s.joints, l.f, l.c) { assert FirstMatch(s.joints, l.f, l.c, l.j) ==> Links(s.joints, l.j, l.f, l.c); }
  }

  /** The step that takes row j away, and the row as it was: a detach of its pair or its own cluster's purge. */
  predicate TakenBy(s: State, l: Label, j: int, row: Joint) {
    j in s.joints && s.joints[j] == row && (l == Detach(row.fed, row.cluster, j) || l == PurgeDelete(row.cluster))
  }

  /** Over every run: a joint row, once there, never changes, and if it goes, some step was a detach of that very object and
      cluster, or the delete of a purge of that cluster. */
  lemma {:induction false} RowStays(s: State, ls: seq<Label>, j: int)
    requires Keyed(s) && HoldsOwn(s) && j in s.joints
    ensures j in Run(s, ls).joints ==> Run(s, ls).joints[j] == s.joints[j]
    ensures j !in Run(s, ls).joints ==> exists i :: 0 <= i < |ls| && TakenBy(Run(s, ls[..i]), ls[i], j, s.joints[j])
    decreases |ls|
  {
    if ls != [] {
      var t := Step(s, ls[0]);
      StepRows(s, ls[0], j);
      StepKeyed(s, ls[0]);
      StepHoldsOwn(s, ls[0]);
      if j in t.joints {
        RowStays(t, ls[1..], j);
        if j !in Run(s, ls).joints {
          var i :| 0 <= i < |ls| - 1 && TakenBy(Run(t, ls[1..][..i]), ls[1..][i], j, s.joints[j]);
          assert ls[..i + 1][1..] == ls[1..][..i];
          assert TakenBy(Run(s, ls[..i + 1]), ls[i + 1], j, s.joints[j]);
        }
      } else {
        RowNeverBack(t, ls[1..], j);
        assert ls[..0] == [] && TakenBy(Run(s, ls[..0]), ls[0], j, s.joints[j]);
      }
    }
  }

  /** Row ids are not used again. */
  lemma {:induction false} RowNeverBack(s: State, ls: seq<Label>, j: int)
    requires Keyed(s) && j !in s.joints && j < s.next
    ensures j !in Run(s, ls).joints
    decreases |ls|
  {
    if ls != [] {
      StepRows(s, ls[0], j);
      StepKeyed(s, ls[0]);
      RowNeverBack(Step(s, ls[0]), ls[1..], j);
    }
  }

  // --- no joint row whose object or cluster is gone ---

  ghost predicate NoDangling(s: State) {
    forall j :: j in s.joints ==> s.joints[j].fed in s.feds && s.joints[j].cluster in s.clusters
  }

  /** A purge under way will still look up the object of a joint row on its cluster, or holds that very row. */
  predicate Caught(s: State, j: int)
    requires j in s.joints
  {
    var c := s.joints[j].cluster;
    c in s.purging ==> s.joints[j].fed in s.purging[c].todo || s.purging[c].held == Some(j)
  }

  ghost predicate Covered(s: State) { forall j :: j in s.joints ==> Caught(s, j) }

  ghost predicate Sound(s: State) { NoDangling(s) && Covered(s) }

  /** An insert is safe when the object and the cluster still exist and no purge of the cluster has
      already looked up the object's row. */
  predicate Safe(s: State, l: Label) {
    l.AttachInsert? && l.f in s.pending && s.pending[l.f].probed ==>
      var c := s.pending[l.f].cluster;
      l.f in s.feds && c in s.clusters && (c in s.purging ==> l.f in s.purging[c].todo)
  }

  lemma QueryCatches(s: State, c: Id)
    requires Sound(s)
    ensures Covered(Step(s, PurgeQuery(c)))
  {
    var t := Step(s, PurgeQuery(c));
    forall j | j in t.joints ensures Caught(t, j) {
      assert Caught(s, j) && Links(s.joints, j, s.joints[j].fed, s.joints[j].cluster);
    }
  }

  lemma FetchCatches(s: State, c: Id, f: Id, i: int)
    requires Keyed(s) && Covered(s)
    ensures Covered(Step(s, PurgeFetch(c, f, i)))
  {
    var t := Step(s, PurgeFetch(c, f, i));
    forall j | j in t.joints ensures Caught(t, j) {
      assert Caught(s, j) && Links(s.joints, j, s.joints[j].fed, s.joints[j].cluster);
    }
  }

  lemma DeleteFedSound(s: State, f: Id)
    requires Sound(s)
    ensures Sound(Step(s, DeleteFed(f)))
  {
    var t := Step(s, DeleteFed(f));
    forall j | j in t.joints ensures t.joints[j].fed in t.feds && Caught(t, j) {
      assert Caught(s, j);
      assert s.joints[j].fed == f ==> s.joints[j].cluster in AttachedClusters(s.joints, s.clusters, f);
    }
  }

  lemma DropSound(s: State, c: Id)
    requires Sound(s)
    ensures Sound(Step(s, DropCluster(c)))
  {
    var t := Step(s, DropCluster(c));
    forall j | j in t.joints ensures t.joints[j].cluster in t.clusters && Caught(t, j) { assert Caught(s, j); }
  }

  /** The steps that add no joint row. */
  lemma ShrinkSound(s: State, l: Label)
    requires Keyed(s) && Sound(s) && !l.AttachInsert?
    ensures Sound(Step(s, l))
  {
    if l.DeleteFed? { DeleteFedSound(s, l.f); }
    else if l.PurgeQuery? { QueryCatches(s, l.c); }
    else if l.PurgeFetch? { FetchCatches(s, l.c, l.f, l.j); }
    else if l.DropCluster? { DropSound(s, l.c); }
    else {
      var t := Step(s, l);
      forall j | j in t.joints ensures Caught(t, j) { assert Caught(s, j); }
    }
  }

  lemma InsertSound(s: State, f: Id)
    requires Keyed(s) && Sound(s)
    ensures Sound(Step(s, AttachInsert(f))) <==> Safe(s, AttachInsert(f))
  {
    var t := Step(s, AttachInsert(f));
    if f in s.pending && s.pending[f].probed {
      assert s.next in t.joints && t.joints[s.next] == Joint(f, s.pending[f].cluster, "");
      forall j | j in t.joints && j != s.next ensures j in s.joints && Caught(t, j) { assert Caught(s, j); }
      assert Safe(s, AttachInsert(f)) ==> Caught(t, s.next);
    }
  }

  /** One step keeps the table sound exactly when it is not an unsafe insert. */
  lemma StepSound(s: State, l: Label)
    requires Keyed(s) && Sound(s)
    ensures Sound(Step(s, l)) <==> Safe(s, l)
  {
    if l.AttachInsert? { InsertSound(s, l.f); } else { ShrinkSound(s, l); }
  }

  ghost predicate AlwaysSound(s: State, ls: seq<Label>)
    decreases |ls|
  {
    Sound(s) && (ls == [] || AlwaysSound(Step(s, ls[0]), ls[1..]))
  }

  predicate AlwaysSafe(s: State, ls: seq<Label>)
    decreases |ls|
  {
    ls == [] || (Safe(s, ls[0]) && AlwaysSafe(Step(s, ls[0]), ls[1..]))
  }

  /** Over every run: the joint rows stay unique, and every state on the way is sound exactly when every
      insert on the way was safe. */
  lemma {:induction false} RunSound(s: State, ls: seq<Label>)
    requires Keyed(s) && Sound(s)
    ensures Keyed(Run(s, ls))
    ensures AlwaysSound(s, ls) <==> AlwaysSafe(s, ls)
    decreases |ls|
  {
    if ls != [] {
      StepKeyed(s, ls[0]);
      StepSound(s, ls[0]);
      RunKeyed(Step(s, ls[0]), ls[1..]);
      if Safe(s, ls[0]) { RunSound(Step(s, ls[0]), ls[1..]); }
    }
  }

  lemma {:induction false} RunKeyed(s: State, ls: seq<Label>)
    requires Keyed(s)
    ensures Keyed(Run(s, ls))
    decreases |ls|
  {
    if ls != [] {
      StepKeyed(s, ls[0]);
      RunKeyed(Step(s, ls[0]), ls[1..]);
    }
  }

  function Start(f: Id, c: Id): State { State({f}, {c}, map[], 0, map[], map[]) }

  /** An attach from start to end. */
  function AttachLabels(f: Id, c: Id): seq<Label> { [AttachFind(f, c), AttachProbe(f), AttachInsert(f)] }

  lemma {:induction false} RunConcat(s: State, a: seq<Label>, b: seq<Label>)
    ensures Run(s, a + b) == Run(Run(s, a), b)
    decreases |a|
  {
    if a == [] {
      assert a + b == b;
    } else {
      RunConcat(Step(s, a[0]), a[1..], b);
      assert (a + b)[1..] == a[1..] + b;
    }
  }

  lemma RunThree(s: State, a: Label, b: Label, c: Label)
    ensures Run(s, [a, b, c]) == Step(Step(Step(s, a), b), c)
  {
    assert [a, b, c][1..] == [b, c] && [b, c][1..] == [c] && [c][1..] == [];
    assert Run(Step(Step(s, a), b), [c]) == Step(Step(Step(s, a), b), c);
    assert Run(Step(s, a), [b, c]) == Run(Step(Step(s, a), b), [c]);
  }

  /** Nobody else is at work on an object that is not attached: the attach adds its row. */
  lemma AttachRuns(s: State, f: Id, c: Id)
    requires f !in s.pending && c in s.clusters && !Attached(s.joints, f, c)
    ensures Run(s, AttachLabels(f, c)) == s.(joints := s.joints[s.next := Joint(f, c, "")], next := s.next + 1)
  {
    RunThree(s, AttachFind(f, c), AttachProbe(f), AttachInsert(f));
    assert s.pending[f := Attach(c, false)][f := Attach(c, true)] - {f} == s.pending;
  }

  /** The unsafe insert does happen: a cluster deleted between an attach's check and its insert leaves a
      joint row without a cluster, and then the object can be deleted under it. */
  lemma DanglingRun(f: Id, c: Id) returns (ls: seq<Label>)
    ensures Keyed(Start(f, c)) && Sound(Start(f, c))
    ensures var t := Run(Start(f, c), ls); t.joints == map[0 := Joint(f, c, "")] && t.feds == {} && t.clusters == {}
  {
    var first, second := [AttachFind(f, c), AttachProbe(f), PurgeQuery(c)], [DropCluster(c), AttachInsert(f), DeleteFed(f)];
    ls := first + second;
    var s0 := Start(f, c);
    RunConcat(s0, first, second);
    RunThree(s0, first[0], first[1], first[2]);
    var s3 := s0.(pending := map[f := Attach(c, true)], purging := map[c := Purge({}, None)]);
    assert ObjectsOn(s0.joints, s0.feds, c) == {};
    assert Run(s0, first) == s3;
    RunThree(s3, second[0], second[1], second[2]);
    assert Step(s3, second[0]) == s0.(clusters := {}, pending := map[f := Attach(c, true)]);
  }

  /** The row of f on c has been looked up by the purge of c, and then detached. */
  lemma FetchedThenDetached(f: Id, c: Id)
    ensures var s := Start(f, c).(joints := map[0 := Joint(f, c, "")], next := 1);
      Run(s, [PurgeQuery(c), PurgeFetch(c, f, 0), Detach(f, c, 0)]) == Start(f, c).(next := 1, purging := map[c := Purge({}, Some(0))])
  {
    var s := Start(f, c).(joints := map[0 := Joint(f, c, "")], next := 1);
    RunThree(s, PurgeQuery(c), PurgeFetch(c, f, 0), Detach(f, c, 0));
    assert Links(s.joints, 0, f, c);
    assert ObjectsOn(s.joints, s.feds, c) == {f};
    var s1 := s.(purging := map[c := Purge({f}, None)]);
    assert Step(s, PurgeQuery(c)) == s1;
    var s2 := s.(purging := map[c := Purge({}, Some(0))]);
    assert Step(s1, PurgeFetch(c, f, 0)) == s2 by { assert {f} - {f} == {}; }
    assert s2.joints - {0} == map[];
  }

  /** The purge that holds the old row deletes it, and the cluster is dropped over the new one. */
  lemma DroppedOverNew(f: Id, c: Id)
    ensures var s := State({f}, {c}, map[1 := Joint(f, c, "")], 2, map[], map[c := Purge({}, Some(0))]);
      var t := Run(s, [PurgeDelete(c), DropCluster(c), AttachFail(f)]); t.joints == s.joints && t.clusters == {}
  {
    var s := State({f}, {c}, map[1 := Joint(f, c, "")], 2, map[], map[c := Purge({}, Some(0))]);
    RunThree(s, PurgeDelete(c), DropCluster(c), AttachFail(f));
    assert s.joints - {0} == s.joints;
    assert Step(s, PurgeDelete(c)) == s.(purging := map[c := Purge({}, None)]);
  }

  lemma RunFour(s: State, a: seq<Label>, b: seq<Label>, c: seq<Label>, d: seq<Label>)
    ensures Run(s, a + b + c + d) == Run(Run(Run(Run(s, a), b), c), d)
  {
    RunConcat(s, a, b);
    RunConcat(s, a + b, c);
    RunConcat(s, a + b + c, d);
  }

  /** So does this one, although the object was on the purge's list: the purge looks up the row, a detach and
      a new attach replace it, and the purge deletes the old row and goes on. */
  lemma ReplacedRun(f: Id, c: Id) returns (ls: seq<Label>)
    ensures var t := Run(Start(f, c), ls); t.joints == map[1 := Joint(f, c, "")] && t.clusters == {}
  {
    var attach, purge := AttachLabels(f, c), [PurgeQuery(c), PurgeFetch(c, f, 0), Detach(f, c, 0)];
    var last := [PurgeDelete(c), DropCluster(c), AttachFail(f)];
    AttachRuns(Start(f, c), f, c);
    FetchedThenDetached(f, c);
    AttachRuns(Start(f, c).(next := 1, purging := map[c := Purge({}, Some(0))]), f, c);
    DroppedOverNew(f, c);
    RunFour(Start(f, c), attach, purge, attach, last);
    ls := attach + purge + attach + last;
  }

  // --- an uncovered joint row is lost for good ---

  /** Joint row j is on a cluster whose purge will not delete it. */
  predicate Missed(s: State, c: Id, j: int) { c in s.purging && j in s.joints && s.joints[j].cluster == c && !Caught(s, j) }

  /** The rest of a cluster's deletion, run without interruption. */
  lemma {:induction false} Drain(s: State, c: Id, j: int) returns (ls: seq<Label>)
    requires Keyed(s) && Missed(s, c, j)
    ensures var t := Run(s, ls); j in t.joints && t.joints[j] == s.joints[j] && c !in t.clusters
    ensures forall l :: l in ls ==> !l.AttachInsert?
    decreases |s.purging[c].todo|, if s.purging[c].held.Some? then 1 else 0
  {
    var l;
    if s.purging[c].held.Some? {
      l := PurgeDelete(c);
    } else if s.purging[c].todo != {} {
      var f := Pick(s.purging[c].todo);
      l := PurgeFetch(c, f, if Attached(s.joints, f, c) then Match(s.joints, f, c) else s.next);
    } else {
      ls := [DropCluster(c)];
      assert ls[1..] == [];
      return;
    }
    StepKeyed(s, l);
    var rest := Drain(Step(s, l), c, j);
    ls := [l] + rest;
    assert ls[1..] == rest;
  }

  ghost function Match(joints: Joints, f: Id, c: Id): (j: int)
    requires Attached(joints, f, c)
    ensures Links(joints, j, f, c)
  {
    var j :| j in joints && Links(joints, j, f, c); j
  }

  /** So soundness is what matters: a state that is not sound either has a joint row without object or
      cluster already, or some run without any insert leads to one. */
  lemma UnsoundIsLost(s: State) returns (ls: seq<Label>)
    requires Keyed(s) && !Sound(s)
    ensures !NoDangling(Run(s, ls))
    ensures forall l :: l in ls ==> !l.AttachInsert?
  {
    if !NoDangling(s) {
      ls := [];
    } else {
      var j :| j in s.joints && !Caught(s, j);
      ls := Drain(s, s.joints[j].cluster, j);
    }
  }
}

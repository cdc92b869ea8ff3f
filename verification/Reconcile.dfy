/** Binding a joint row to the cluster resource it stands for (pkg/models/fed_api.go). */
module Reconcile {
  import opened Prelude
  import opened Federation

  datatype Resource = Resource(cluster: Id, name: string)

  type Resources = map<Id, Resource>

  /** `names` holds the federated objects that exist, with their names. */
  datatype Db = Db(names: map<Id, string>, clusters: set<Id>, joints: Joints, resources: Resources)

  datatype Found = Broken | Absent | Present(id: Id)

  /** What the outside world lets an attempt do; `created` is the id a new row would get, if it can be inserted. */
  datatype World = World(setOk: bool, dataOk: bool, created: Option<Id>)

  /** Crashed: the master object is gone, and the type assertion on it panics. */
  datatype Outcome = Updated(id: Id) | Created(id: Id) | Failed | Crashed

  /** Row ids are never empty. */
  predicate Valid(s: Db) { "" !in s.resources }

  function Named(rs: Resources, c: Id, name: string): set<Id> {
    set r | r in rs && rs[r].cluster == c && rs[r].name == name
  }

  /** FetchClusterResourceByName: two rows of the name are an error. */
  ghost function ByName(rs: Resources, c: Id, name: string): Found {
    var m := Named(rs, c, name);
    if |m| == 1 then Present(Pick(m)) else if |m| > 1 then Broken else Absent
  }

  /** FetchClusterResourceById. */
  function ById(rs: Resources, c: Id, id: Id): Found {
    if c == "" then Broken else if id in rs && rs[id].cluster == c then Present(id) else Absent
  }

  predicate IsUtf8(s: string) { exists i :: 0 <= i < |s| && s[i] as int > 0x7f }

  /** FetchClusterResourceByIdOrName. */
  ghost function ByIdOrName(rs: Resources, c: Id, key: string): Found {
    if c == "" then Broken
    else if !IsUtf8(key) && ById(rs, c, key) != Absent then ById(rs, c, key)
    else ByName(rs, c, key)
  }

  /** IsResourceExist. */
  ghost function Lookup(s: Db, joint: Joint): Found {
    if joint.resource != "" then ById(s.resources, joint.cluster, joint.resource)
    else if joint.cluster in s.clusters && joint.fed in s.names then
      ByIdOrName(s.resources, joint.cluster, s.names[joint.fed])
    else Broken
  }

  /** An attempt after its lookup: the copy of the joint row it works on, and what it found. */
  datatype Attempt = Attempt(j: int, copy: Joint, found: Found)

  ghost function Begin(s: Db, j: int): Attempt
    requires j in s.joints
  {
    Attempt(j, s.joints[j], Lookup(s, s.joints[j]))
  }

  /** SetResource: the update writes the id only where it differs from the copy. */
  function Bind(s: Db, a: Attempt, id: Id): Db {
    if a.j in s.joints && a.copy.resource != id then s.(joints := s.joints[a.j := s.joints[a.j].(resource := id)]) else s
  }

  /** updateResource binds first, then updates. */
  function Update(s: Db, a: Attempt, id: Id, w: World): (Db, Outcome) {
    if !w.setOk then (s, Failed)
    else (Bind(s, a, id), if w.dataOk then Updated(id) else Failed)
  }

  /** DoCreate refuses a name already in use in the cluster; an empty name is not looked at. */
  predicate NameFree(rs: Resources, c: Id, name: string) { name == "" || Named(rs, c, name) == {} }

  /** DoCreate, which checks and inserts under the class lock. */
  predicate Creates(s: Db, a: Attempt, w: World) {
    && a.copy.fed in s.names && w.dataOk && NameFree(s.resources, a.copy.cluster, s.names[a.copy.fed])
    && w.created.Some? && w.created.value !in s.resources && w.created.value != ""
  }

  /** createResource creates first, then binds. */
  function Create(s: Db, a: Attempt, w: World): (Db, Outcome) {
    if !Creates(s, a, w) then (s, Failed)
    else
      var n := w.created.value;
      var t := s.(resources := s.resources[n := Resource(a.copy.cluster, s.names[a.copy.fed])]);
      if w.setOk then (Bind(t, a, n), Created(n)) else (t, Failed)
  }

  /** ReconcileResource after the lookup. */
  function Finish(s: Db, a: Attempt, w: World): (Db, Outcome) {
    if a.found.Broken? || a.copy.cluster !in s.clusters then (s, Failed)
    else if a.copy.fed !in s.names then (s, Crashed)
    else if a.found.Present? then Update(s, a, a.found.id, w)
    else Create(s, a, w)
  }

  /** ReconcileResource with nothing in between. */
  ghost function Reconciled(s: Db, j: int, w: World): (Db, Outcome)
    requires j in s.joints
  {
    Finish(s, Begin(s, j), w)
  }

  // --- what the lookup finds and what an attempt does ---

  predicate InCluster(rs: Resources, c: Id, x: Id) { x in rs && rs[x].cluster == c }

  /** The resource a key stands for in a cluster: by id if the key is plain ASCII, otherwise, or if there is none, the
      only one of that name. */
  ghost predicate Meant(rs: Resources, c: Id, key: string, x: Id) {
    if (forall i :: 0 <= i < |key| ==> key[i] as int <= 127) && InCluster(rs, c, key) then x == key
    else InCluster(rs, c, x) && rs[x].name == key && forall y :: InCluster(rs, c, y) && rs[y].name == key ==> y == x
  }

  ghost predicate NoneMeant(rs: Resources, c: Id, key: string) {
    && (InCluster(rs, c, key) ==> exists i :: 0 <= i < |key| && key[i] as int > 127)
    && forall y :: InCluster(rs, c, y) ==> rs[y].name != key
  }

  lemma ByNameExact(rs: Resources, c: Id, name: string, x: Id)
    ensures ByName(rs, c, name) == Present(x) <==>
      InCluster(rs, c, x) && rs[x].name == name && forall y :: InCluster(rs, c, y) && rs[y].name == name ==> y == x
    ensures ByName(rs, c, name) == Absent <==> forall y :: InCluster(rs, c, y) ==> rs[y].name != name
  {
    var m := Named(rs, c, name);
    assert forall y :: y in m <==> InCluster(rs, c, y) && rs[y].name == name;
    if ByName(rs, c, name) == Present(x) {
      ByNameFinds(rs, c, name);
      forall y | y in m ensures y == x { OnlyMember(m, y, x); }
    }
    if x in m && forall y :: y in m ==> y == x { assert m == {x}; }
    assert |m| == 0 <==> m == {};
  }

  lemma KeyExact(rs: Resources, c: Id, key: string, x: Id)
    requires c != ""
    ensures ByIdOrName(rs, c, key) == Present(x) <==> Meant(rs, c, key, x)
    ensures ByIdOrName(rs, c, key) == Absent <==> NoneMeant(rs, c, key)
  {
    ByNameExact(rs, c, key, x);
  }

  /** The lookup of a joint row finds x exactly when x is in the row's cluster and the row names it, or names nothing and
      its object's name stands for x; it finds nothing exactly when that resource is not there. In all other cases
      (no cluster, no object, several of the name) it fails. */
  lemma LookupExact(s: Db, row: Joint, x: Id)
    ensures Lookup(s, row) == Present(x) <==>
      && row.cluster != ""
      && if row.resource != "" then x == row.resource && InCluster(s.resources, row.cluster, x)
         else row.cluster in s.clusters && row.fed in s.names && Meant(s.resources, row.cluster, s.names[row.fed], x)
    ensures Lookup(s, row) == Absent <==>
      && row.cluster != ""
      && if row.resource != "" then !InCluster(s.resources, row.cluster, row.resource)
         else row.cluster in s.clusters && row.fed in s.names && NoneMeant(s.resources, row.cluster, s.names[row.fed])
  {
    if row.cluster != "" && row.fed in s.names { KeyExact(s.resources, row.cluster, s.names[row.fed], x); }
  }

  /** Cluster and object of the row are there and the lookup did not fail. */
  ghost predicate Ready(s: Db, row: Joint) { !Lookup(s, row).Broken? && row.cluster in s.clusters && row.fed in s.names }

  /** A resource x can be made for the row. */
  ghost predicate Makes(s: Db, row: Joint, w: World, x: Id) {
    && Ready(s, row) && Lookup(s, row).Absent? && w.dataOk && w.created == Some(x) && x !in s.resources && x != ""
    && (s.names[row.fed] == "" || forall y :: InCluster(s.resources, row.cluster, y) ==> s.resources[y].name != s.names[row.fed])
  }

  lemma CreatesExact(s: Db, j: int, w: World, x: Id)
    requires j in s.joints && Ready(s, s.joints[j]) && Lookup(s, s.joints[j]).Absent?
    ensures Creates(s, Begin(s, j), w) && w.created == Some(x) <==> Makes(s, s.joints[j], w, x)
  {
    var (c, name) := (s.joints[j].cluster, s.names[s.joints[j].fed]);
    assert Named(s.resources, c, name) == {} <==> forall y :: InCluster(s.resources, c, y) ==> s.resources[y].name != name by {
      if Named(s.resources, c, name) == {} {
        forall y | InCluster(s.resources, c, y) ensures s.resources[y].name != name { assert y !in Named(s.resources, c, name); }
      }
    }
  }

  /** Every attempt that nothing disturbs: how it ends, which id its row carries then, and which resource is new. */
  lemma OutcomeExact(s: Db, j: int, w: World, x: Id)
    requires j in s.joints
    ensures var ((t, o), row) := (Reconciled(s, j, w), s.joints[j]);
      && (o == Crashed <==> !Lookup(s, row).Broken? && row.cluster in s.clusters && row.fed !in s.names)
      && (o == Updated(x) <==> Ready(s, row) && Lookup(s, row) == Present(x) && w.setOk && w.dataOk)
      && (o == Created(x) <==> Makes(s, row, w, x) && w.setOk)
      && t.joints.Keys == s.joints.Keys && (forall k :: k in s.joints && k != j ==> t.joints[k] == s.joints[k])
      && t.joints[j].fed == row.fed && t.joints[j].cluster == row.cluster
      && (t.joints[j].resource == x && x != row.resource ==>
            w.setOk && ((Ready(s, row) && Lookup(s, row) == Present(x)) || Makes(s, row, w, x)))
      && (w.setOk && ((Ready(s, row) && Lookup(s, row) == Present(x)) || Makes(s, row, w, x)) ==> t.joints[j].resource == x)
      && (Makes(s, row, w, x) ==> t.resources == s.resources[x := Resource(row.cluster, s.names[row.fed])])
      && (t.resources == s.resources || exists y :: Makes(s, row, w, y))
  {
    var row := s.joints[j];
    if Ready(s, row) && Lookup(s, row).Absent? {
      CreatesExact(s, j, w, x);
      if w.created.Some? { CreatesExact(s, j, w, w.created.value); }
    }
  }

  // --- a successful reconcile ---

  /** The joint row names an existing resource of its own cluster. */
  predicate Bound(s: Db, j: int, id: Id) {
    && j in s.joints && s.joints[j].resource == id != ""
    && id in s.resources && s.resources[id].cluster == s.joints[j].cluster
  }

  lemma ByNameFinds(rs: Resources, c: Id, name: string)
    ensures ByName(rs, c, name).Present? ==> ByName(rs, c, name).id in Named(rs, c, name)
  {
    assert |Named(rs, c, name)| == 1 ==> Named(rs, c, name) != {};
  }

  /** A successful reconcile leaves the joint row bound, to a resource that carries the object's name if it is new. */
  lemma ReconcileBinds(s: Db, j: int, w: World)
    requires Valid(s) && j in s.joints
    ensures var (t, o) := Reconciled(s, j, w);
      && Valid(t)
      && (o.Updated? ==> Bound(t, j, o.id) && t.resources == s.resources)
      && (o.Created? ==> Bound(t, j, o.id) && t.resources.Keys == s.resources.Keys + {o.id} && o.id !in s.resources)
      && (o.Created? ==> t.resources[o.id].name == s.names[s.joints[j].fed])
      && (s.joints[j].resource != "" && o.Updated? ==> o.id == s.joints[j].resource)
  {
    var joint := s.joints[j];
    if joint.fed in s.names { ByNameFinds(s.resources, joint.cluster, s.names[joint.fed]); }
  }

  /** A bound joint row: no attempt changes anything, and it succeeds, as an update of that same
      resource, exactly when cluster and object exist and the writes go through. */
  lemma BoundReconcile(s: Db, j: int, id: Id, w: World)
    requires Bound(s, j, id)
    ensures var (t, o) := Reconciled(s, j, w);
      && t == s && (o == Updated(id) || o == Failed || o == Crashed)
      && (o == Updated(id) <==>
        s.joints[j].cluster in s.clusters && s.joints[j].cluster != "" && s.joints[j].fed in s.names && w.setOk && w.dataOk)
  {}

  // --- attempts that overlap each other and everything else ---

  /** The tables and the attempts between their lookup and their writes. */
  datatype Sync = Sync(db: Db, running: map<int, Attempt>)

  datatype Event =
    | Find(a: int, j: int)
    | Commit(a: int, w: World)
    | Insert(id: Id, res: Resource)
    | Remove(id: Id)
    | AddJoint(j: int, joint: Joint)
    | DropJoint(j: int)
    | SetFed(f: Id, name: string)
    | DropFed(f: Id)
    | SetClusters(clusters: set<Id>)

  /** What others do to the tables. */
  function Outside(s: Db, e: Event): Db {
    match e
    case Insert(id, res) => if id in s.resources || id == "" then s else s.(resources := s.resources[id := res])
    case Remove(id) => s.(resources := s.resources - {id})
    case AddJoint(j, joint) => if j in s.joints then s else s.(joints := s.joints[j := joint])
    case DropJoint(j) => s.(joints := s.joints - {j})
    case SetFed(f, name) => s.(names := s.names[f := name])
    case DropFed(f) => s.(names := s.names - {f})
    case SetClusters(clusters) => s.(clusters := clusters)
    case _ => s
  }

  ghost function Apply(s: Sync, e: Event): Sync {
    match e
    case Find(a, j) =>
      if a !in s.running && j in s.db.joints then s.(running := s.running[a := Begin(s.db, j)]) else s
    case Commit(a, w) =>
      if a in s.running then Sync(Finish(s.db, s.running[a], w).0, s.running - {a}) else s
    case _ => s.(db := Outside(s.db, e))
  }

  ghost function ApplyAll(s: Sync, es: seq<Event>): Sync
    decreases |es|
  {
    if es == [] then s else ApplyAll(Apply(s, es[0]), es[1..])
  }

  /** A commit leaves existing resources alone, adds at most the one it may create, and rebinds only its own row. */
  lemma CommitFrame(s: Db, a: Attempt, w: World)
    ensures var t := Finish(s, a, w).0;
      && t.names == s.names && t.clusters == s.clusters && t.joints.Keys == s.joints.Keys
      && (forall r :: r in s.resources ==> r in t.resources && t.resources[r] == s.resources[r])
      && (forall r :: r in t.resources && r !in s.resources ==> Creates(s, a, w) && r == w.created.value)
      && (forall k :: k in s.joints ==> t.joints[k].cluster == s.joints[k].cluster && t.joints[k].fed == s.joints[k].fed)
      && (forall k :: k in s.joints && k != a.j ==> t.joints[k] == s.joints[k])
  {}

  // --- what can unseat a bound row ---

  /** An attempt on the row that began before it was bound to id, and could still write another id: it found
      nothing, or it found another resource than the one its copy of the row names. */
  predicate Dangerous(a: Attempt, j: int, id: Id) {
    a.j == j && (a.found.Absent? || (a.found.Present? && a.found.id != id && a.copy.resource != a.found.id))
  }

  ghost predicate Calm(s: Sync, j: int, id: Id) {
    Bound(s.db, j, id) && forall a :: a in s.running ==> !Dangerous(s.running[a], j, id)
  }

  /** Nobody deletes the row or the resource. */
  predicate Spares(es: seq<Event>, j: int, id: Id) {
    forall i :: 0 <= i < |es| ==> es[i] != Remove(id) && es[i] != DropJoint(j)
  }

  /** A commit on the row of an attempt that is not dangerous changes nothing at all. */
  lemma CalmCommit(s: Sync, a: int, w: World, j: int, id: Id)
    requires Calm(s, j, id) && a in s.running && s.running[a].j == j
    ensures Apply(s, Commit(a, w)).db == s.db
  {
    assert s.db.joints[j := s.db.joints[j].(resource := id)] == s.db.joints;
  }

  lemma EventKeepsCalm(s: Sync, e: Event, j: int, id: Id)
    requires Calm(s, j, id) && e != Remove(id) && e != DropJoint(j)
    ensures Calm(Apply(s, e), j, id)
  {
    if e.Commit? && e.a in s.running {
      if s.running[e.a].j == j { CalmCommit(s, e.a, e.w, j, id); } else { CommitFrame(s.db, s.running[e.a], e.w); }
    }
  }

  lemma {:induction false} CalmStays(s: Sync, es: seq<Event>, j: int, id: Id)
    requires Calm(s, j, id) && Spares(es, j, id)
    ensures Calm(ApplyAll(s, es), j, id)
    decreases |es|
  {
    if es != [] {
      EventKeepsCalm(s, es[0], j, id);
      CalmStays(Apply(s, es[0]), es[1..], j, id);
    }
  }

  /** There is always an unused id. */
  lemma FreshId(used: set<Id>) returns (n: Id)
    ensures n !in used && n != ""
  {
    var k := Longest(used);
    n := seq(k + 1, _ => 'x');
  }

  lemma {:induction false} Longest(used: set<Id>) returns (k: nat)
    ensures forall x :: x in used ==> |x| <= k
  {
    if used == {} {
      k := 0;
    } else {
      var x := Pick(used);
      var m := Longest(used - {x});
      k := if |x| > m then |x| else m;
    }
  }

  /** A dangerous attempt can unseat the row: its cluster comes back, its object is renamed, and it commits. */
  lemma DangerousBreaks(s: Sync, a: int, j: int, id: Id) returns (es: seq<Event>)
    requires Bound(s.db, j, id) && a in s.running && Dangerous(s.running[a], j, id)
    ensures Spares(es, j, id) && !Bound(ApplyAll(s, es).db, j, id)
  {
    var at := s.running[a];
    var n := FreshId(s.db.resources.Keys + {id, at.copy.resource});
    var e1, e2, e3 := SetClusters(s.db.clusters + {at.copy.cluster}), SetFed(at.copy.fed, ""), Commit(a, World(true, true, Some(n)));
    es := [e1, e2, e3];
    var t := Apply(Apply(s, e1), e2);
    ApplyThree(s, e1, e2, e3);
    assert t.running == s.running && Bound(t.db, j, id);
    assert at.found.Absent? ==> Creates(t.db, at, World(true, true, Some(n)));
  }

  lemma ApplyThree(s: Sync, a: Event, b: Event, c: Event)
    ensures ApplyAll(s, [a, b, c]) == Apply(Apply(Apply(s, a), b), c)
  {
    assert [a, b, c][1..] == [b, c] && [b, c][1..] == [c] && [c][1..] == [];
    var t := Apply(s, a);
    assert ApplyAll(t, [b, c]) == ApplyAll(Apply(t, b), [c]) == Apply(Apply(t, b), c);
  }

  /** A bound row is sure to stay bound to its resource, over every run in which neither is deleted, exactly when
      no attempt under way is dangerous. */
  lemma BoundExact(s: Sync, j: int, id: Id)
    requires Bound(s.db, j, id)
    ensures (forall es :: Spares(es, j, id) ==> Bound(ApplyAll(s, es).db, j, id)) <==>
      (forall a :: a in s.running ==> !Dangerous(s.running[a], j, id))
  {
    if forall a :: a in s.running ==> !Dangerous(s.running[a], j, id) {
      forall es | Spares(es, j, id) ensures Bound(ApplyAll(s, es).db, j, id) { CalmStays(s, es, j, id); }
    } else {
      var a :| a in s.running && Dangerous(s.running[a], j, id);
      var es := DangerousBreaks(s, a, j, id);
    }
  }

  /** Such a run: an attempt that found x before x was deleted binds the row to it after another attempt has
      bound the row to a new resource. */
  lemma OvertakenRun(c: Id, f: Id, name: string) returns (s: Sync, es: seq<Event>)
    requires c != "" && name != "" && !IsUtf8(name) && name != "x"
    ensures |es| == 5
    ensures ApplyAll(Sync(Db(map[f := name], {c}, map[0 := Joint(f, c, "")], map["x" := Resource(c, name)]), map[]), es[..4]) == s
    ensures Bound(s.db, 0, "n") && !Bound(Apply(s, es[4]).db, 0, "n")
  {
    var ok := World(true, true, Some("n"));
    es := [Find(1, 0), Remove("x"), Find(2, 0), Commit(2, ok), Commit(1, ok)];
    var d0 := Db(map[f := name], {c}, map[0 := Joint(f, c, "")], map["x" := Resource(c, name)]);
    var a1 := Attempt(0, Joint(f, c, ""), Present("x"));
    assert Begin(d0, 0) == a1 by { OnlyNamed(d0.resources, c, name, "x"); }
    var d1 := d0.(resources := map[]);
    assert d0.resources - {"x"} == map[];
    var a2 := Attempt(0, Joint(f, c, ""), Absent);
    assert Begin(d1, 0) == a2 by { assert Named(d1.resources, c, name) == {}; }
    var d2 := d1.(joints := map[0 := Joint(f, c, "n")], resources := map["n" := Resource(c, name)]);
    assert Named(d1.resources, c, name) == {};
    assert Finish(d1, a2, ok).0 == d2;
    s := Sync(d2, map[1 := a1]);
    var s1, s2, s3 := Sync(d0, map[1 := a1]), Sync(d1, map[1 := a1]), Sync(d1, map[1 := a1, 2 := a2]);
    assert Apply(Sync(d0, map[]), es[0]) == s1 && Apply(s1, es[1]) == s2 && Apply(s2, es[2]) == s3;
    assert Apply(s3, es[3]) == s by { assert s3.running - {2} == s.running; }
    assert es[..4] == [es[0], es[1], es[2], es[3]];
    ApplyFour(Sync(d0, map[]), es[0], es[1], es[2], es[3]);
  }

  lemma ApplyFour(s: Sync, a: Event, b: Event, c: Event, d: Event)
    ensures ApplyAll(s, [a, b, c, d]) == Apply(Apply(Apply(Apply(s, a), b), c), d)
  {
    assert [a, b, c, d][1..] == [b, c, d] && [b, c, d][1..] == [c, d] && [c, d][1..] == [d] && [d][1..] == [];
    var t := Apply(Apply(s, a), b);
    assert ApplyAll(t, [c, d]) == ApplyAll(Apply(t, c), [d]) == Apply(Apply(t, c), d);
    assert ApplyAll(s, [a, b, c, d]) == ApplyAll(Apply(s, a), [b, c, d]) == ApplyAll(t, [c, d]);
  }

  lemma OnlyNamed(rs: Resources, c: Id, name: string, x: Id)
    requires rs == map[x := Resource(c, name)]
    ensures ByName(rs, c, name) == Present(x)
  {
    assert Named(rs, c, name) == {x};
  }

  // --- one resource per name ---

  /** No two resources of a cluster share a name. */
  ghost predicate Singular(rs: Resources) {
    forall a, b :: a in rs && b in rs && rs[a] == rs[b] && rs[a].name != "" ==> a == b
  }

  lemma CommitSingular(s: Db, a: Attempt, w: World)
    requires Singular(s.resources)
    ensures Singular(Finish(s, a, w).0.resources)
  {
    CommitFrame(s, a, w);
    var t := Finish(s, a, w).0;
    if t.resources != s.resources {
      var (n, r) := (w.created.value, Resource(a.copy.cluster, s.names[a.copy.fed]));
      assert t.resources == s.resources[n := r];
      forall x | x in s.resources && r.name != "" ensures s.resources[x] != r {
        assert x !in Named(s.resources, r.cluster, r.name);
      }
    }
  }

  /** What others insert takes a free name too. */
  predicate Polite(s: Db, e: Event) {
    e.Insert? && e.id !in s.resources ==> NameFree(s.resources, e.res.cluster, e.res.name)
  }

  ghost predicate PoliteRun(s: Sync, es: seq<Event>)
    decreases |es|
  {
    es == [] || (Polite(s.db, es[0]) && PoliteRun(Apply(s, es[0]), es[1..]))
  }

  lemma EventSingular(s: Sync, e: Event)
    requires Singular(s.db.resources) && Polite(s.db, e)
    ensures Singular(Apply(s, e).db.resources)
  {
    var rs := s.db.resources;
    if e.Commit? && e.a in s.running { CommitSingular(s.db, s.running[e.a], e.w); }
    if e.Insert? && e.id !in rs {
      forall x | x in rs && e.res.name != "" ensures rs[x] != e.res {
        assert x !in Named(rs, e.res.cluster, e.res.name);
      }
    }
  }

  /** Over every run of attempts, overlapping and failing as they like, no second resource of one name appears
      in a cluster, as long as nobody else inserts one. */
  lemma {:induction false} RunSingular(s: Sync, es: seq<Event>)
    requires Singular(s.db.resources) && PoliteRun(s, es)
    ensures Singular(ApplyAll(s, es).db.resources)
    decreases |es|
  {
    if es != [] {
      EventSingular(s, es[0]);
      RunSingular(Apply(s, es[0]), es[1..]);
    }
  }

  // --- once bound, bound for good ---

  /** What a run may do around a joint row that was `row` at its start, for an object of this name: no resource of
      the name, nor the one the row names, is deleted; the row and its object stay; others insert free names
      only; and no new id equals the name or the id in the row. */
  predicate Gentle(s: Db, e: Event, j: int, row: Joint, name: string) {
    && Polite(s, e)
    && match e
       case Commit(_, w) => w.created != Some(name) && w.created != Some(row.resource)
       case Insert(id, _) => id != name && id != row.resource
       case Remove(id) => id != row.resource && id !in Named(s.resources, row.cluster, name)
       case DropJoint(i) => i != j
       case SetFed(f, _) => f != row.fed
       case DropFed(f) => f != row.fed
       case _ => true
  }

  ghost predicate GentleRun(s: Sync, es: seq<Event>, j: int, row: Joint, name: string)
    decreases |es|
  {
    es == [] || (Gentle(s.db, es[0], j, row, name) && GentleRun(Apply(s, es[0]), es[1..], j, row, name))
  }

  /** The resource the row named at the start exists in its cluster. */
  predicate Here(rs: Resources, row: Joint) { row.resource in rs && rs[row.resource].cluster == row.cluster }

  /** The tables around the row: it names what it named at the start, or a resource of the object's name. */
  ghost predicate RowFair(s: Db, j: int, row: Joint, name: string, here: bool) {
    && Valid(s) && Singular(s.resources) && name !in s.resources && name != "" && row.cluster != ""
    && row.fed in s.names && s.names[row.fed] == name && Here(s.resources, row) == here
    && j in s.joints && s.joints[j].fed == row.fed && s.joints[j].cluster == row.cluster
    && (s.joints[j].resource == row.resource || s.joints[j].resource in Named(s.resources, row.cluster, name))
  }

  /** An attempt on the row: what it can have found, given what its copy of the row names. */
  predicate AttemptFair(rs: Resources, a: Attempt, row: Joint, name: string, here: bool) {
    && a.copy.fed == row.fed && a.copy.cluster == row.cluster
    && (a.copy.resource == row.resource || a.copy.resource in Named(rs, row.cluster, name))
    && (a.found.Absent? ==> !here && a.copy.resource == row.resource)
    && (a.found.Present? ==> a.found.id == a.copy.resource || (a.copy.resource == "" && a.found.id in Named(rs, row.cluster, name)))
  }

  ghost predicate Fair(s: Sync, j: int, row: Joint, name: string, here: bool) {
    && RowFair(s.db, j, row, name, here)
    && forall a :: a in s.running && s.running[a].j == j ==> AttemptFair(s.db.resources, s.running[a], row, name, here)
  }

  /** Two resources of one name in one cluster are one. */
  lemma NamedOnce(rs: Resources, c: Id, name: string, a: Id, b: Id)
    requires Singular(rs) && name != "" && a in Named(rs, c, name) && b in Named(rs, c, name)
    ensures a == b
  {}

  lemma FindFair(s: Db, j: int, row: Joint, name: string, here: bool)
    requires RowFair(s, j, row, name, here)
    ensures AttemptFair(s.resources, Begin(s, j), row, name, here)
  {
    ByNameFinds(s.resources, row.cluster, name);
  }

  /** A commit on the row keeps it fair. */
  lemma OwnCommitFair(s: Db, a: Attempt, w: World, j: int, row: Joint, name: string, here: bool)
    requires RowFair(s, j, row, name, here) && a.j == j && AttemptFair(s.resources, a, row, name, here)
    requires w.created != Some(name) && w.created != Some(row.resource)
    ensures RowFair(Finish(s, a, w).0, j, row, name, here)
  {
    var t := Finish(s, a, w).0;
    CommitFrame(s, a, w);
    CommitSingular(s, a, w);
    assert forall x :: x in Named(s.resources, row.cluster, name) ==> x in Named(t.resources, row.cluster, name);
    if a.found.Absent? && Creates(s, a, w) && t != s {
      assert t.resources == s.resources[w.created.value := Resource(row.cluster, name)];
      assert w.created.value in Named(t.resources, row.cluster, name);
    }
  }

  lemma OtherCommitFair(s: Db, a: Attempt, w: World, j: int, row: Joint, name: string, here: bool)
    requires RowFair(s, j, row, name, here) && a.j != j
    requires w.created != Some(name) && w.created != Some(row.resource)
    ensures RowFair(Finish(s, a, w).0, j, row, name, here)
  {
    var t := Finish(s, a, w).0;
    CommitFrame(s, a, w);
    CommitSingular(s, a, w);
    assert forall x :: x in Named(s.resources, row.cluster, name) ==> x in Named(t.resources, row.cluster, name);
  }

  lemma OutsideFair(s: Db, e: Event, j: int, row: Joint, name: string, here: bool)
    requires RowFair(s, j, row, name, here) && Gentle(s, e, j, row, name)
    ensures RowFair(Outside(s, e), j, row, name, here)
    ensures forall x :: x in Named(s.resources, row.cluster, name) ==> x in Named(Outside(s, e).resources, row.cluster, name)
  {
    EventSingular(Sync(s, map[]), e);
    var t := Outside(s, e);
    assert Singular(t.resources) by { assert e.Find? || e.Commit? || t == Apply(Sync(s, map[]), e).db; }
    forall x | x in Named(s.resources, row.cluster, name) ensures x in Named(t.resources, row.cluster, name) {}
  }

  lemma EventKeepsFair(s: Sync, e: Event, j: int, row: Joint, name: string, here: bool)
    requires Fair(s, j, row, name, here) && Gentle(s.db, e, j, row, name)
    ensures Fair(Apply(s, e), j, row, name, here)
  {
    if e.Find? {
      FindFair(s.db, j, row, name, here);
    } else if e.Commit? {
      if e.a in s.running {
        var a := s.running[e.a];
        CommitFrame(s.db, a, e.w);
        if a.j == j { OwnCommitFair(s.db, a, e.w, j, row, name, here); } else { OtherCommitFair(s.db, a, e.w, j, row, name, here); }
      }
    } else {
      OutsideFair(s.db, e, j, row, name, here);
    }
  }

  /** In a fair state the only id an attempt can write over a bound one is the same. */
  lemma EventKeepsBound(s: Sync, e: Event, j: int, id: Id, row: Joint, name: string, here: bool)
    requires Fair(s, j, row, name, here) && Gentle(s.db, e, j, row, name) && Bound(s.db, j, id)
    ensures Bound(Apply(s, e).db, j, id)
  {
    if e.Commit? && e.a in s.running {
      var a := s.running[e.a];
      CommitFrame(s.db, a, e.w);
      if a.j == j { FairCommit(s.db, a, e.w, j, id, row, name, here); }
    }
  }

  lemma FairCommit(s: Db, a: Attempt, w: World, j: int, id: Id, row: Joint, name: string, here: bool)
    requires RowFair(s, j, row, name, here) && a.j == j && AttemptFair(s.resources, a, row, name, here) && Bound(s, j, id)
    ensures Finish(s, a, w).0 == s
  {
    var named := Named(s.resources, row.cluster, name);
    if a.found.Absent? {
      assert id in named;
    } else if a.found.Present? && a.found.id != a.copy.resource {
      assert row.resource == "" && id in named;
      NamedOnce(s.resources, row.cluster, name, a.found.id, id);
      assert s.joints[j := s.joints[j].(resource := id)] == s.joints;
    }
  }

  lemma {:induction false} FairStays(s: Sync, es: seq<Event>, j: int, row: Joint, name: string, here: bool)
    requires Fair(s, j, row, name, here) && GentleRun(s, es, j, row, name)
    ensures Fair(ApplyAll(s, es), j, row, name, here)
    decreases |es|
  {
    if es != [] {
      EventKeepsFair(s, es[0], j, row, name, here);
      FairStays(Apply(s, es[0]), es[1..], j, row, name, here);
    }
  }

  lemma {:induction false} FairBound(s: Sync, es: seq<Event>, j: int, id: Id, row: Joint, name: string, here: bool)
    requires Fair(s, j, row, name, here) && GentleRun(s, es, j, row, name) && Bound(s.db, j, id)
    ensures Bound(ApplyAll(s, es).db, j, id)
    decreases |es|
  {
    if es != [] {
      EventKeepsFair(s, es[0], j, row, name, here);
      EventKeepsBound(s, es[0], j, id, row, name, here);
      FairBound(Apply(s, es[0]), es[1..], j, id, row, name, here);
    }
  }

  /** From tables in which no two resources share a name, with no attempt on the row under way: over every gentle
      run, attempts overlapping as they like, the moment the row is bound to a resource it is bound to it for
      good, also through attempts that began long before, and none of these changes any table. */
  lemma BoundForGood(s: Sync, es: seq<Event>, more: seq<Event>, j: int, id: Id)
    requires Valid(s.db) && Singular(s.db.resources) && j in s.db.joints && s.db.joints[j].fed in s.db.names
    requires forall a :: a in s.running ==> s.running[a].j != j
    requires var (row, t) := (s.db.joints[j], ApplyAll(s, es));
      var name := s.db.names[row.fed];
      && name != "" && name !in s.db.resources && row.cluster != ""
      && GentleRun(s, es, j, row, name) && GentleRun(t, more, j, row, name) && Bound(t.db, j, id)
    ensures var u := ApplyAll(ApplyAll(s, es), more);
      && Bound(u.db, j, id)
      && forall a, w :: a in u.running && u.running[a].j == j ==> Finish(u.db, u.running[a], w).0 == u.db
  {
    var (row, t) := (s.db.joints[j], ApplyAll(s, es));
    var name, here := s.db.names[row.fed], Here(s.db.resources, row);
    FairStays(s, es, j, row, name, here);
    FairBound(t, more, j, id, row, name, here);
    FairStays(t, more, j, row, name, here);
    var u := ApplyAll(t, more);
    forall a, w | a in u.running && u.running[a].j == j ensures Finish(u.db, u.running[a], w).0 == u.db {
      FairCommit(u.db, u.running[a], w, j, id, row, name, here);
    }
  }

  // --- created, but not bound ---

  /** The row names a resource that is gone, while `blocker` carries the name a new one would need. */
  predicate Stuck(s: Db, j: int, blocker: Id) {
    && j in s.joints && s.joints[j].resource != "" && s.joints[j].cluster != ""
    && ById(s.resources, s.joints[j].cluster, s.joints[j].resource) == Absent
    && s.joints[j].fed in s.names && s.names[s.joints[j].fed] != ""
    && blocker in Named(s.resources, s.joints[j].cluster, s.names[s.joints[j].fed])
  }

  /** Every attempt on a stuck row fails and changes nothing. */
  lemma StuckFails(s: Db, j: int, blocker: Id, w: World)
    requires Stuck(s, j, blocker)
    ensures Reconciled(s, j, w) == (s, Failed)
  {}

  /** The tables after an attempt that created a resource n but could not bind it. */
  function WithNew(s: Db, j: int, n: Id): Db
    requires j in s.joints && s.joints[j].fed in s.names
  {
    s.(resources := s.resources[n := Resource(s.joints[j].cluster, s.names[s.joints[j].fed])])
  }

  lemma NamedNew(s: Db, j: int, n: Id)
    requires j in s.joints && s.joints[j].fed in s.names && n !in s.resources
    ensures Named(WithNew(s, j, n).resources, s.joints[j].cluster, s.names[s.joints[j].fed])
      == Named(s.resources, s.joints[j].cluster, s.names[s.joints[j].fed]) + {n}
  {}

  /** What the next lookup finds. */
  lemma LookupNew(s: Db, j: int, n: Id)
    requires Valid(s) && j in s.joints && Lookup(s, s.joints[j]) == Absent && s.joints[j].cluster in s.clusters
    requires s.joints[j].fed in s.names && n !in s.resources && n != ""
    requires Named(s.resources, s.joints[j].cluster, s.names[s.joints[j].fed]) == {}
    ensures Lookup(WithNew(s, j, n), s.joints[j]) == if s.joints[j].resource in {"", n} then Present(n) else Absent
  {
    NamedNew(s, j, n);
  }

  /** When the resource was created but the binding failed, later attempts adopt it exactly when the row had
      not been bound to anything before (or the very same id comes back); otherwise the row is stuck. */
  lemma AdoptsOrSticks(s: Db, j: int, w: World, w': World)
    requires Valid(s) && j in s.joints && Lookup(s, s.joints[j]) == Absent && s.joints[j].cluster in s.clusters
    requires s.joints[j].fed in s.names && s.names[s.joints[j].fed] != ""
    requires !w.setOk && Creates(s, Begin(s, j), w)
    ensures var n, t := w.created.value, Reconciled(s, j, w).0;
      && t.resources.Keys == s.resources.Keys + {n} && t.joints == s.joints
      && (Lookup(t, t.joints[j]) == Present(n) <==> s.joints[j].resource in {"", n})
      && (Stuck(t, j, n) <==> s.joints[j].resource !in {"", n})
      && Reconciled(t, j, w').0.resources == t.resources
  {
    var n, t := w.created.value, WithNew(s, j, w.created.value);
    assert Reconciled(s, j, w).0 == t;
    LookupNew(s, j, n);
    NamedNew(s, j, n);
    if s.joints[j].resource !in {"", n} { StuckFails(t, j, n, w'); }
  }

  /** The event does not touch the row, its object or either of the two resources concerned. */
  predicate Elsewhere(e: Event, j: int, joint: Joint, blocker: Id) {
    match e
    case Find(_, _) => true
    case Commit(_, w) => w.created != Some(joint.resource)
    case Insert(id, _) => id != joint.resource
    case Remove(id) => id != blocker
    case AddJoint(_, _) => true
    case DropJoint(i) => i != j
    case SetFed(f, _) => f != joint.fed
    case DropFed(f) => f != joint.fed
    case SetClusters(_) => true
  }

  /** Stuck, and no attempt on the row under way found a resource before. */
  predicate StuckForGood(s: Sync, j: int, blocker: Id) {
    && Stuck(s.db, j, blocker)
    && forall a :: a in s.running && s.running[a].j == j ==>
      !s.running[a].found.Present? && s.running[a].copy.fed == s.db.joints[j].fed && s.running[a].copy.cluster == s.db.joints[j].cluster
  }

  lemma EventKeepsStuck(s: Sync, e: Event, j: int, blocker: Id)
    requires StuckForGood(s, j, blocker) && Elsewhere(e, j, s.db.joints[j], blocker)
    ensures StuckForGood(Apply(s, e), j, blocker) && Apply(s, e).db.joints[j] == s.db.joints[j]
  {
    if e.Commit? && e.a in s.running { CommitFrame(s.db, s.running[e.a], e.w); }
    var t := Apply(s, e);
    assert blocker in Named(t.db.resources, s.db.joints[j].cluster, s.db.names[s.db.joints[j].fed]);
  }

  /** Over every run of such events the row stays stuck, and every further attempt on it fails. */
  lemma {:induction false} StuckStays(s: Sync, es: seq<Event>, j: int, blocker: Id, w: World)
    requires StuckForGood(s, j, blocker)
    requires forall i :: 0 <= i < |es| ==> Elsewhere(es[i], j, s.db.joints[j], blocker)
    ensures var t := ApplyAll(s, es).db; Stuck(t, j, blocker) && Reconciled(t, j, w) == (t, Failed)
    decreases |es|
  {
    if es == [] {
      StuckFails(s.db, j, blocker, w);
    } else {
      EventKeepsStuck(s, es[0], j, blocker);
      StuckStays(Apply(s, es[0]), es[1..], j, blocker, w);
    }
  }

  /** Deleting the one resource in the way frees the row: the next attempt can create again. */
  lemma DeletionFrees(s: Db, j: int, blocker: Id, w: World)
    requires Stuck(s, j, blocker) && s.joints[j].cluster in s.clusters
    requires Named(s.resources, s.joints[j].cluster, s.names[s.joints[j].fed]) == {blocker}
    requires w.setOk && w.dataOk && w.created.Some? && w.created.value !in s.resources && w.created.value != ""
    requires w.created.value != s.joints[j].resource
    ensures var (t, o) := Reconciled(Outside(s, Remove(blocker)), j, w); o == Created(w.created.value) && Bound(t, j, w.created.value)
  {
    var (c, name) := (s.joints[j].cluster, s.names[s.joints[j].fed]);
    assert Named(s.resources - {blocker}, c, name) == Named(s.resources, c, name) - {blocker};
  }

  /** Such a run: a row bound to a resource that has gone; the attempt creates a new one but cannot bind it;
      every attempt after that fails. */
  lemma StuckRun(c: Id, f: Id, name: string, w: World)
    requires c != "" && name != ""
    ensures var s := Db(map[f := name], {c}, map[0 := Joint(f, c, "old")], map[]);
      var t := Reconciled(s, 0, World(false, true, Some("new"))).0;
      t.resources == map["new" := Resource(c, name)] && Reconciled(t, 0, w) == (t, Failed)
  {
    var s := Db(map[f := name], {c}, map[0 := Joint(f, c, "old")], map[]);
    assert Named(s.resources, c, name) == {};
    var t := s.(resources := map["new" := Resource(c, name)]);
    assert Reconciled(s, 0, World(false, true, Some("new"))).0 == t;
    StuckFails(t, 0, "new", w);
  }

  // --- the operations in place ---

  class JointStore {
    var names: map<Id, string>
    var clusters: set<Id>
    var joints: Joints
    var resources: Resources

    function View(): Db
      reads this
    {
      Db(names, clusters, joints, resources)
    }

    constructor (s: Db)
      ensures View() == s
    {
      names, clusters, joints, resources := s.names, s.clusters, s.joints, s.resources;
    }

    method FetchByIdOrName(c: Id, key: string) returns (found: Found)
      ensures found == ByIdOrName(resources, c, key)
    {
      if c == "" { return Broken; }
      if !IsUtf8(key) {
        found := ById(resources, c, key);
        if found != Absent { return; }
      }
      var m := Named(resources, c, key);
      if |m| == 1 {
        assert m != {};
        var r := AnyOf(m);
        OnlyMember(m, r, Pick(m));
        return Present(r);
      }
      return if |m| > 1 then Broken else Absent;
    }

    /** IsResourceExist, on a copy of the joint row. */
    method IsResourceExist(joint: Joint) returns (found: Found)
      ensures found == Lookup(View(), joint)
    {
      if joint.resource != "" { return ById(resources, joint.cluster, joint.resource); }
      if joint.cluster !in clusters || joint.fed !in names { return Broken; }
      found := FetchByIdOrName(joint.cluster, names[joint.fed]);
    }

    method SetResource(j: int, copy: Joint, id: Id, setOk: bool) returns (ok: bool)
      modifies this`joints
      ensures ok == setOk
      ensures View() == if setOk then Bind(old(View()), Attempt(j, copy, Broken), id) else old(View())
    {
      if setOk && j in joints && copy.resource != id { joints := joints[j := joints[j].(resource := id)]; }
      ok := setOk;
    }

    /** DoCreate for the object's name in the joint row's cluster. */
    method DoCreate(copy: Joint, w: World) returns (id: Option<Id>)
      requires copy.fed in names
      modifies this`resources
      ensures id.Some? <==> Creates(old(View()), Attempt(0, copy, Broken), w)
      ensures id.Some? ==> id == w.created && resources == old(resources)[id.value := Resource(copy.cluster, names[copy.fed])]
      ensures id.None? ==> resources == old(resources)
    {
      if !w.dataOk || !NameFree(resources, copy.cluster, names[copy.fed]) { return None; }
      if w.created == None || w.created.value in resources || w.created.value == "" { return None; }
      resources := resources[w.created.value := Resource(copy.cluster, names[copy.fed])];
      return w.created;
    }

    method ReconcileResource(j: int, w: World) returns (o: Outcome)
      requires j in joints
      modifies this
      ensures (View(), o) == Reconciled(old(View()), j, w)
    {
      var copy := joints[j];
      var found := IsResourceExist(copy);
      if found.Broken? || copy.cluster !in clusters { return Failed; }
      if copy.fed !in names { return Crashed; }
      if found.Present? {
        var ok := SetResource(j, copy, found.id, w.setOk);
        return if ok && w.dataOk then Updated(found.id) else Failed;
      }
      var id := DoCreate(copy, w);
      if id.None? { return Failed; }
      var ok := SetResource(j, copy, id.value, w.setOk);
      return if ok then Created(id.value) else Failed;
    }
  }

  lemma OnlyMember(m: set<Id>, a: Id, b: Id)
    requires |m| == 1 && a in m && b in m
    ensures a == b
  {
    assert a != b ==> |m - {a}| == 0 && b in m - {a};
  }
}

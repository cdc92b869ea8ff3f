/**
 * The tree of resource managers (pkg/models/syncbase.go): synced parents first
 * (pkg/models/clusterresource.go), purged children first (pkg/models/clusters.go).
 */
module ManagerTree {
  import opened Prelude

  /** A manager with its sub-managers. */
  datatype Tree = Node(man: int, subs: seq<Tree>)

  // --- sync ---

  /** A node of the forest, as the positions on the way down to it. */
  type Path = seq<nat>

  /** All nodes from the i-th tree on, each before the nodes below it. */
  function Preorder(trees: seq<Tree>, here: Path, i: nat): seq<Path>
    requires i <= |trees|
    decreases trees, |trees| - i
  {
    if i == |trees| then []
    else [here + [i]] + Preorder(trees[i].subs, here + [i], 0) + Preorder(trees, here, i + 1)
  }

  /** None of the visits recorded an error. */
  ghost predicate Clean(log: seq<Path>, bad: set<Path>) { forall n :: 0 <= n < |log| ==> log[n] !in bad }

  /** A run over `all` that visits `log`: complete and without error, or stopped at its one error. */
  ghost predicate Visits(log: seq<Path>, all: seq<Path>, bad: set<Path>, failed: bool) {
    && log <= all
    && (!failed ==> log == all && Clean(log, bad))
    && (failed ==> log != [] && log[|log| - 1] in bad && Clean(log[..|log| - 1], bad))
  }

  lemma VisitStops(log: seq<Path>, p: Path, below: seq<Path>, tail: seq<Path>, bad: set<Path>)
    requires Clean(log, bad) && p in bad
    ensures Visits(log + [p], log + ([p] + below + tail), bad, true)
  {
    assert (log + [p])[..|log|] == log;
    assert log + ([p] + below + tail) == log + [p] + (below + tail);
  }

  lemma VisitGoesOn(log: seq<Path>, p: Path, sub: seq<Path>, below: seq<Path>, tail: seq<Path>, bad: set<Path>, err: bool)
    requires Clean(log, bad) && p !in bad && Visits(sub, below, bad, err)
    ensures err ==> Visits(log + [p] + sub, log + ([p] + below + tail), bad, true)
    ensures !err ==> log + ([p] + below + tail) == log + [p] + sub + tail && Clean(log + [p] + sub, bad)
  {
    var now := log + [p] + sub;
    assert below == sub + below[|sub|..];
    assert log + ([p] + below + tail) == now + (below[|sub|..] + tail);
    assert err ==> now[..|now| - 1] == log + [p] + sub[..|sub| - 1];
  }

  /** SyncClusterResources: `log` lists the managers visited; `bad` are those whose pass records an error. */
  method SyncClusterResources(trees: seq<Tree>, here: Path, bad: set<Path>) returns (log: seq<Path>, failed: bool)
    ensures Visits(log, Preorder(trees, here, 0), bad, failed)
    decreases trees
  {
    log := [];
    failed := false;
    for i := 0 to |trees|
      invariant Preorder(trees, here, 0) == log + Preorder(trees, here, i)
      invariant Clean(log, bad)
    {
      var p := here + [i];
      ghost var below, tail := Preorder(trees[i].subs, p, 0), Preorder(trees, here, i + 1);
      if p in bad {
        VisitStops(log, p, below, tail, bad);
        return log + [p], true;
      }
      var sub, err := SyncClusterResources(trees[i].subs, p, bad);
      VisitGoesOn(log, p, sub, below, tail, bad, err);
      log := log + [p] + sub;
      if err { return log, true; }
    }
  }

  predicate ProperPrefix(q: Path, p: Path) { |q| < |p| && p[..|q|] == q }

  /** In pre-order every node comes after each of its ancestors. */
  lemma {:induction false} AncestorsFirst(trees: seq<Tree>, here: Path, i: nat, n: nat, q: Path)
    requires i <= |trees| && n < |Preorder(trees, here, i)|
    requires |here| < |q| && ProperPrefix(q, Preorder(trees, here, i)[n])
    ensures here < Preorder(trees, here, i)[n] && exists m :: 0 <= m < n && Preorder(trees, here, i)[m] == q
    decreases trees, |trees| - i
  {
    var p := here + [i];
    var below := Preorder(trees[i].subs, p, 0);
    var all := Preorder(trees, here, i);
    assert all == [p] + below + Preorder(trees, here, i + 1);
    BelowPrefix(trees, here, i, n);
    assert |all[0]| == |here| + 1;
    if 0 < n <= |below| {
      assert all[n] == below[n - 1];
      BelowPrefix(trees[i].subs, p, 0, n - 1);
      if |q| == |p| {
        assert q == p && all[0] == q;
      } else {
        AncestorsFirst(trees[i].subs, p, 0, n - 1, q);
        var m :| 0 <= m < n - 1 && below[m] == q;
        assert all[m + 1] == q;
      }
    } else if n > |below| {
      var k := n - 1 - |below|;
      assert all[n] == Preorder(trees, here, i + 1)[k];
      AncestorsFirst(trees, here, i + 1, k, q);
      var m :| 0 <= m < k && Preorder(trees, here, i + 1)[m] == q;
      assert all[m + 1 + |below|] == q;
    }
  }

  lemma {:induction false} BelowPrefix(trees: seq<Tree>, here: Path, i: nat, n: nat)
    requires i <= |trees| && n < |Preorder(trees, here, i)|
    ensures here < Preorder(trees, here, i)[n]
    decreases trees, |trees| - i
  {
    var p := here + [i];
    var below := Preorder(trees[i].subs, p, 0);
    if 0 < n <= |below| {
      BelowPrefix(trees[i].subs, p, 0, n - 1);
    } else if n > |below| {
      BelowPrefix(trees, here, i + 1, n - 1 - |below|);
    }
  }

  /** p comes before q: it leads there, or goes down an earlier branch where they part. */
  ghost predicate Before(p: Path, q: Path) { ProperPrefix(p, q) || exists n: nat :: PartAt(p, q, n) }

  predicate PartAt(p: Path, q: Path, n: nat) { n < |p| && n < |q| && p[..n] == q[..n] && p[n] < q[n] }

  lemma {:induction false} BranchFrom(trees: seq<Tree>, here: Path, i: nat, n: nat)
    requires i <= |trees| && n < |Preorder(trees, here, i)|
    ensures var p := Preorder(trees, here, i)[n]; |here| < |p| && p[..|here|] == here && i <= p[|here|]
    decreases trees, |trees| - i
  {
    var p := here + [i];
    var below := Preorder(trees[i].subs, p, 0);
    if 0 < n <= |below| {
      BranchFrom(trees[i].subs, p, 0, n - 1);
      assert Preorder(trees, here, i)[n] == below[n - 1];
      assert below[n - 1][..|here|] == p[..|here|] == here;
    } else if n > |below| {
      BranchFrom(trees, here, i + 1, n - 1 - |below|);
      assert Preorder(trees, here, i)[n] == Preorder(trees, here, i + 1)[n - 1 - |below|];
    }
  }

  /** The sub-managers of one manager come in the order of its list, each with everything below it before the next: the
      positions increase lexicographically. */
  lemma {:induction false} PreorderSorted(trees: seq<Tree>, here: Path, i: nat, n: nat, m: nat)
    requires i <= |trees| && n < m < |Preorder(trees, here, i)|
    ensures Before(Preorder(trees, here, i)[n], Preorder(trees, here, i)[m])
    decreases trees, |trees| - i
  {
    var p := here + [i];
    var below, tail := Preorder(trees[i].subs, p, 0), Preorder(trees, here, i + 1);
    var all := Preorder(trees, here, i);
    if m <= |below| {
      assert all[m] == below[m - 1];
      if n == 0 { BelowPrefix(trees[i].subs, p, 0, m - 1); }
      else { PreorderSorted(trees[i].subs, p, 0, n - 1, m - 1); assert all[n] == below[n - 1]; }
    } else {
      var k := m - 1 - |below|;
      assert all[m] == tail[k];
      if n > |below| {
        assert all[n] == tail[n - 1 - |below|];
        PreorderSorted(trees, here, i + 1, n - 1 - |below|, k);
      } else {
        BranchFrom(trees, here, i + 1, k);
        InBranch(trees, here, i, n);
        assert PartAt(all[n], all[m], |here|);
      }
    }
  }

  lemma InBranch(trees: seq<Tree>, here: Path, i: nat, n: nat)
    requires i < |trees| && n <= |Preorder(trees[i].subs, here + [i], 0)|
    ensures var q := Preorder(trees, here, i)[n]; |here| < |q| && q[..|here|] == here && q[|here|] == i
  {
    var p := here + [i];
    if n > 0 {
      BelowPrefix(trees[i].subs, p, 0, n - 1);
      assert Preorder(trees, here, i)[n] == Preorder(trees[i].subs, p, 0)[n - 1];
      assert Preorder(trees, here, i)[n][..|here|] == p[..|here|] == here;
    }
  }

  /** The path leads to a manager of the forest. */
  predicate IsNode(trees: seq<Tree>, p: Path)
    decreases |p|
  {
    p != [] && p[0] < |trees| && (|p| == 1 || IsNode(trees[p[0]].subs, p[1..]))
  }

  lemma NotUnder(here: Path, i: nat, p: Path)
    requires p == [] || p[0] != i
    ensures !(here + [i] <= here + p)
  {
    assert (here + [i])[|here|] == i;
    assert p != [] ==> (here + p)[|here|] == p[0];
  }

  /** The pre-order lists exactly the managers of the forest. */
  lemma {:induction false} PreorderExact(trees: seq<Tree>, here: Path, i: nat, p: Path)
    requires i <= |trees|
    ensures here + p in Preorder(trees, here, i) <==> IsNode(trees, p) && p[0] >= i
    decreases trees, |trees| - i
  {
    if i < |trees| {
      var top := here + [i];
      var below := Preorder(trees[i].subs, top, 0);
      assert Preorder(trees, here, i) == [top] + below + Preorder(trees, here, i + 1);
      PreorderExact(trees, here, i + 1, p);
      if p == [] || p[0] != i {
        NotUnder(here, i, p);
        BelowAll(trees[i].subs, top, here + p);
      } else {
        PreorderExact(trees[i].subs, top, 0, p[1..]);
        assert here + p == top + p[1..];
        assert p[1..] == [] ==> here + p == top;
        BelowAll(trees[i].subs, top, top);
      }
    }
  }

  lemma BelowAll(trees: seq<Tree>, here: Path, p: Path)
    ensures p in Preorder(trees, here, 0) ==> here < p
  {
    if p in Preorder(trees, here, 0) {
      var n :| 0 <= n < |Preorder(trees, here, 0)| && Preorder(trees, here, 0)[n] == p;
      BelowPrefix(trees, here, 0, n);
    }
  }

  predicate Distinct(ps: seq<Path>) { forall n, m :: 0 <= n < m < |ps| ==> ps[n] != ps[m] }

  lemma DistinctJoin(top: Path, below: seq<Path>, tail: seq<Path>)
    requires Distinct(below) && Distinct(tail) && top !in below && top !in tail
    requires forall q :: q in below ==> q !in tail
    ensures Distinct([top] + below + tail)
  {
    var all := [top] + below + tail;
    forall n, m | 0 <= n < m < |all| ensures all[n] != all[m] {
      assert 0 < n <= |below| ==> all[n] == below[n - 1] && all[n] in below;
      assert 0 < m <= |below| ==> all[m] == below[m - 1] && all[m] in below;
      assert m > |below| ==> all[m] == tail[m - 1 - |below|] && all[m] in tail;
    }
  }

  /** And lists each of them once. */
  lemma {:induction false} PreorderOnce(trees: seq<Tree>, here: Path, i: nat)
    requires i <= |trees|
    ensures Distinct(Preorder(trees, here, i))
    decreases trees, |trees| - i
  {
    if i < |trees| {
      var top := here + [i];
      var below, tail := Preorder(trees[i].subs, top, 0), Preorder(trees, here, i + 1);
      PreorderOnce(trees[i].subs, top, 0);
      PreorderOnce(trees, here, i + 1);
      forall q | q in below || q == top ensures q !in tail { NotLater(trees, here, i, q); }
      BelowAll(trees[i].subs, top, top);
      DistinctJoin(top, below, tail);
    }
  }

  /** What lies at or below the i-th tree is not listed with the later trees. */
  lemma NotLater(trees: seq<Tree>, here: Path, i: nat, q: Path)
    requires i < |trees| && (q == here + [i] || q in Preorder(trees[i].subs, here + [i], 0))
    ensures q !in Preorder(trees, here, i + 1)
  {
    BelowAll(trees[i].subs, here + [i], q);
    var p := q[|here|..];
    assert q == here + p && p[0] == i;
    PreorderExact(trees, here, i + 1, p);
  }

  /** A run visits a manager only after every one of its ancestors was synced without error. */
  lemma SyncedAfterAncestors(trees: seq<Tree>, bad: set<Path>, log: seq<Path>, failed: bool, n: nat, q: Path)
    requires Visits(log, Preorder(trees, [], 0), bad, failed) && n < |log|
    requires |q| > 0 && ProperPrefix(q, log[n])
    ensures q !in bad && exists m :: 0 <= m < n && log[m] == q
  {
    AncestorsFirst(trees, [], 0, n, q);
    var m :| 0 <= m < n && Preorder(trees, [], 0)[m] == q;
    assert log[m] == q && log[..|log| - 1][m] == q;
  }

  // --- registration ---

  /** Each manager's list of sub-managers. */
  type Lists = map<int, seq<int>>

  /** GetSubManagers. */
  function Subs(t: Lists, m: int): seq<int> { if m in t then t[m] else [] }

  /** Sub-managers rank below their manager: the registrations form no cycle. */
  ghost predicate Ranked(t: Lists, rank: int -> nat) {
    forall m, i :: 0 <= i < |Subs(t, m)| ==> rank(Subs(t, m)[i]) < rank(m)
  }

  /** The forest under a manager, as the recursion over GetSubManagers sees it. */
  ghost function Forest(t: Lists, rank: int -> nat, m: int): seq<Tree>
    requires Ranked(t, rank)
    decreases rank(m)
  {
    seq(|Subs(t, m)|, i requires 0 <= i < |Subs(t, m)| => Node(Subs(t, m)[i], Forest(t, rank, Subs(t, m)[i])))
  }

  function ManAt(trees: seq<Tree>, p: Path): int
    requires IsNode(trees, p)
    decreases |p|
  {
    if |p| == 1 then trees[p[0]].man else ManAt(trees[p[0]].subs, p[1..])
  }

  /** s is the i-th sub-manager of m. */
  predicate Place(t: Lists, m: int, i: nat, s: int) { i < |Subs(t, m)| && Subs(t, m)[i] == s }

  /** No manager is registered twice, be it under one manager or under two. */
  ghost predicate OneParent(t: Lists) {
    forall m, i, n, j, s :: Place(t, m, i, s) && Place(t, n, j, s) ==> m == n && i == j
  }

  ghost predicate Registered(t: Lists, s: int) { exists m, i :: Place(t, m, i, s) }

  class SyncableManagers {
    var subManagers: Lists

    constructor ()
      ensures subManagers == map[] && OneParent(subManagers)
    {
      subManagers := map[];
    }

    /** AddSubManager: appended behind the earlier ones. Managers stay registered once each exactly when the new
        ones differ from each other and none was registered before. */
    method AddSubManager(man: int, mans: seq<int>)
      modifies this
      ensures forall m :: Subs(subManagers, m) == Subs(old(subManagers), m) + if m == man then mans else []
      ensures OneParent(old(subManagers)) ==> (OneParent(subManagers) <==> AllNew(old(subManagers), mans))
    {
      ghost var was := subManagers;
      subManagers := subManagers[man := Subs(subManagers, man) + mans];
      if OneParent(was) { RegisteredOnce(was, subManagers, man, mans); }
    }
  }

  ghost predicate AllNew(t: Lists, mans: seq<int>) {
    (forall s :: s in mans ==> !Registered(t, s)) && forall i, j :: 0 <= i < j < |mans| ==> mans[i] != mans[j]
  }

  /** The places after a registration are the earlier ones and those of the new managers. */
  lemma Places(t: Lists, t': Lists, man: int, mans: seq<int>, m: int, i: nat, s: int)
    requires forall m :: Subs(t', m) == Subs(t, m) + if m == man then mans else []
    ensures var k := i - |Subs(t, man)|;
      Place(t', m, i, s) <==> Place(t, m, i, s) || (m == man && 0 <= k < |mans| && mans[k] == s)
  {}

  /** Two places of one manager after a registration of new ones. */
  lemma SamePlace(t: Lists, t': Lists, man: int, mans: seq<int>, m: int, i: nat, n: int, j: nat, s: int)
    requires OneParent(t) && AllNew(t, mans) && forall m :: Subs(t', m) == Subs(t, m) + if m == man then mans else []
    requires Place(t', m, i, s) && Place(t', n, j, s)
    ensures m == n && i == j
  {
    Places(t, t', man, mans, m, i, s);
    Places(t, t', man, mans, n, j, s);
    assert Place(t, m, i, s) || Place(t, n, j, s) ==> Registered(t, s);
  }

  lemma StaysOnce(t: Lists, t': Lists, man: int, mans: seq<int>)
    requires OneParent(t) && AllNew(t, mans) && forall m :: Subs(t', m) == Subs(t, m) + if m == man then mans else []
    ensures OneParent(t')
  {
    forall m, i, n, j, s | Place(t', m, i, s) && Place(t', n, j, s) ensures m == n && i == j {
      SamePlace(t, t', man, mans, m, i, n, j, s);
    }
  }

  lemma RegisteredOnce(t: Lists, t': Lists, man: int, mans: seq<int>)
    requires OneParent(t) && forall m :: Subs(t', m) == Subs(t, m) + if m == man then mans else []
    ensures OneParent(t') <==> AllNew(t, mans)
  {
    var n := |Subs(t, man)|;
    forall k | 0 <= k < |mans| ensures Place(t', man, n + k, mans[k]) { Places(t, t', man, mans, man, n + k, mans[k]); }
    if OneParent(t') {
      forall s | s in mans ensures !Registered(t, s) { NotBefore(t, t', man, mans, s); }
      forall i, j | 0 <= i < j < |mans| ensures mans[i] != mans[j] {
        assert Place(t', man, n + i, mans[i]) && Place(t', man, n + j, mans[j]);
      }
    }
    if AllNew(t, mans) { StaysOnce(t, t', man, mans); }
  }

  lemma NotBefore(t: Lists, t': Lists, man: int, mans: seq<int>, s: int)
    requires OneParent(t') && s in mans && forall m :: Subs(t', m) == Subs(t, m) + if m == man then mans else []
    ensures !Registered(t, s)
  {
    var k :| 0 <= k < |mans| && mans[k] == s;
    var last := |Subs(t, man)| + k;
    Places(t, t', man, mans, man, last, s);
    assert Place(t', man, last, s) && !Place(t, man, last, s);
    if m, i :| Place(t, m, i, s) { Places(t, t', man, mans, m, i, s); }
  }

  /** The manager a path of positions leads to from m, through the lists. */
  predicate Leads(t: Lists, m: int, p: Path)
    decreases |p|
  {
    p == [] || (p[0] < |Subs(t, m)| && Leads(t, Subs(t, m)[p[0]], p[1..]))
  }

  function Follow(t: Lists, m: int, p: Path): int
    requires Leads(t, m, p)
    decreases |p|
  {
    if p == [] then m else Follow(t, Subs(t, m)[p[0]], p[1..])
  }

  /** The forest has exactly the nodes the lists lead to. */
  lemma {:induction false} ForestExact(t: Lists, rank: int -> nat, m: int, p: Path)
    requires Ranked(t, rank) && p != []
    ensures IsNode(Forest(t, rank, m), p) <==> Leads(t, m, p)
    ensures Leads(t, m, p) ==> ManAt(Forest(t, rank, m), p) == Follow(t, m, p)
    decreases |p|
  {
    if p[0] < |Subs(t, m)| {
      var s := Subs(t, m)[p[0]];
      assert Forest(t, rank, m)[p[0]] == Node(s, Forest(t, rank, s));
      if |p| > 1 { ForestExact(t, rank, s, p[1..]); }
    }
  }

  lemma {:induction false} FollowSnoc(t: Lists, m: int, p: Path)
    requires p != [] && Leads(t, m, p)
    ensures var init, last := p[..|p| - 1], p[|p| - 1];
      Leads(t, m, init) && last < |Subs(t, Follow(t, m, init))| && Follow(t, m, p) == Subs(t, Follow(t, m, init))[last]
    decreases |p|
  {
    if |p| > 1 {
      FollowSnoc(t, Subs(t, m)[p[0]], p[1..]);
      assert p[1..][..|p| - 2] == p[..|p| - 1][1..];
    }
  }

  lemma {:induction false} FollowRank(t: Lists, rank: int -> nat, m: int, p: Path)
    requires Ranked(t, rank) && Leads(t, m, p)
    ensures rank(Follow(t, m, p)) <= rank(m) && (p != [] ==> rank(Follow(t, m, p)) < rank(m))
    decreases |p|
  {
    if p != [] { FollowRank(t, rank, Subs(t, m)[p[0]], p[1..]); }
  }

  lemma {:induction false} FollowOnce(t: Lists, rank: int -> nat, m: int, p: Path, q: Path)
    requires Ranked(t, rank) && OneParent(t) && Leads(t, m, p) && Leads(t, m, q) && Follow(t, m, p) == Follow(t, m, q)
    ensures p == q
    decreases |p| + |q|
  {
    FollowRank(t, rank, m, p);
    FollowRank(t, rank, m, q);
    if p != [] && q != [] {
      FollowSnoc(t, m, p);
      FollowSnoc(t, m, q);
      var s := Follow(t, m, p);
      assert Place(t, Follow(t, m, p[..|p| - 1]), p[|p| - 1], s) && Place(t, Follow(t, m, q[..|q| - 1]), q[|q| - 1], s);
      FollowOnce(t, rank, m, p[..|p| - 1], q[..|q| - 1]);
      assert p == p[..|p| - 1] + [p[|p| - 1]] && q == q[..|q| - 1] + [q[|q| - 1]];
    }
  }

  /** Managers registered once each are synced at most once in a run over the forest. */
  lemma EachManagerOnce(t: Lists, rank: int -> nat, root: int, bad: set<Path>, log: seq<Path>, failed: bool, n: nat, m: nat)
    requires Ranked(t, rank) && OneParent(t)
    requires Visits(log, Preorder(Forest(t, rank, root), [], 0), bad, failed) && n < m < |log|
    ensures IsNode(Forest(t, rank, root), log[n]) && IsNode(Forest(t, rank, root), log[m])
    ensures ManAt(Forest(t, rank, root), log[n]) != ManAt(Forest(t, rank, root), log[m])
  {
    var trees := Forest(t, rank, root);
    var all := Preorder(trees, [], 0);
    PreorderOnce(trees, [], 0);
    assert log[n] == all[n] && log[m] == all[m];
    PreorderExact(trees, [], 0, log[n]);
    PreorderExact(trees, [], 0, log[m]);
    assert [] + log[n] == log[n] && [] + log[m] == log[m];
    ForestExact(t, rank, root, log[n]);
    ForestExact(t, rank, root, log[m]);
    if ManAt(trees, log[n]) == ManAt(trees, log[m]) { FollowOnce(t, rank, root, log[n], log[m]); }
  }

  // --- purge ---

  /** Per manager, the cluster of each row. */
  type Database = map<int, map<int, string>>

  function TableOf(db: Database, man: int): map<int, string> { if man in db then db[man] else map[] }

  /** Manager `man` holds row k, and the row belongs to cluster c. */
  predicate Holds(db: Database, man: int, k: int, c: string) { k in TableOf(db, man) && TableOf(db, man)[k] == c }

  /** No row of cluster c is left under any of these managers. */
  ghost predicate Clear(db: Database, mans: set<int>, c: string) {
    forall man, k :: man in mans ==> !Holds(db, man, k, c)
  }

  function Managers(trees: seq<Tree>): set<int> {
    if trees == [] then {} else {trees[0].man} + Managers(trees[0].subs) + Managers(trees[1..])
  }

  /** `db'` is `db` with some rows of cluster c deleted. */
  ghost predicate OnlyDeleted(db: Database, db': Database, c: string) {
    && (forall man, k, d :: Holds(db', man, k, d) ==> Holds(db, man, k, d))
    && (forall man, k, d :: Holds(db, man, k, d) && d != c ==> Holds(db', man, k, d))
  }

  /** One manager's own purge: which node, the database before and after, and whether it finished. */
  datatype Event = Event(node: Tree, before: Database, after: Database, done: bool)

  /** A purge deletes only its own manager's rows of c, once no descendant has any, and all of them if it finishes. */
  ghost predicate EventOk(e: Event, c: string) {
    && OnlyDeleted(e.before, e.after, c)
    && (forall m :: m != e.node.man ==> TableOf(e.after, m) == TableOf(e.before, m))
    && Clear(e.before, Managers(e.node.subs), c)
    && (e.done ==> Clear(e.after, {e.node.man}, c))
  }

  /** The events lead from a to b, one after the other, with nothing changed in between. */
  ghost predicate Replays(log: seq<Event>, a: Database, b: Database, c: string) {
    if log == [] then a == b
    else log[0].before == a && EventOk(log[0], c) && Replays(log[1..], log[0].after, b, c)
  }

  lemma {:induction false} ReplaysConcat(l: seq<Event>, l': seq<Event>, a: Database, b: Database, d: Database, c: string)
    requires Replays(l, a, b, c) && Replays(l', b, d, c)
    ensures Replays(l + l', a, d, c)
  {
    if l == [] {
      assert l + l' == l';
    } else {
      ReplaysConcat(l[1..], l', l[0].after, b, d, c);
      assert (l + l')[1..] == l[1..] + l';
    }
  }

  /** Whatever events lead from a to b, rows of other clusters are untouched and none of c appear. */
  lemma {:induction false} ReplaysDeletes(log: seq<Event>, a: Database, b: Database, c: string)
    requires Replays(log, a, b, c)
    ensures OnlyDeleted(a, b, c)
  {
    if log != [] { ReplaysDeletes(log[1..], log[0].after, b, c); }
  }

  // --- the order of a purge, and where it stops ---

  /** All nodes, each after the nodes below it. */
  function Postorder(trees: seq<Tree>): seq<Tree> {
    if trees == [] then [] else Postorder(trees[0].subs) + [trees[0]] + Postorder(trees[1..])
  }

  function Nodes(log: seq<Event>): seq<Tree> { if log == [] then [] else [log[0].node] + Nodes(log[1..]) }

  /** The purge got as far as `log`, in post-order, and its last manager holds a row that cannot be deleted. */
  ghost predicate StoppedAt(log: seq<Event>, trees: seq<Tree>, db: Database, c: string, stuck: set<int>) {
    && log != [] && !log[|log| - 1].done && Nodes(log) <= Postorder(trees) && log[|log| - 1].node.man in Managers(trees)
    && exists k :: k in stuck && Holds(db, log[|log| - 1].node.man, k, c)
  }

  ghost predicate StuckStay(db: Database, db': Database, c: string, stuck: set<int>) {
    forall man, k :: k in stuck && Holds(db, man, k, c) ==> Holds(db', man, k, c)
  }

  /** None of the managers holds a row of cluster c that cannot be deleted. */
  ghost predicate NoneStuck(db: Database, mans: set<int>, c: string, stuck: set<int>) {
    forall man, k :: man in mans && Holds(db, man, k, c) ==> k !in stuck
  }

  lemma {:induction false} NodesConcat(a: seq<Event>, b: seq<Event>)
    ensures Nodes(a + b) == Nodes(a) + Nodes(b)
  {
    if a == [] {
      assert a + b == b;
    } else {
      NodesConcat(a[1..], b);
      assert (a + b)[1..] == a[1..] + b;
    }
  }

  lemma {:induction false} PostorderConcat(a: seq<Tree>, b: seq<Tree>)
    ensures Postorder(a + b) == Postorder(a) + Postorder(b)
    decreases |a|
  {
    if a == [] {
      assert a + b == b;
    } else {
      PostorderConcat(a[1..], b);
      assert (a + b)[1..] == a[1..] + b && (a + b)[0] == a[0];
      Regroup(Postorder(a[0].subs) + [a[0]], Postorder(a[1..]), Postorder(b));
    }
  }

  lemma Regroup(x: seq<Tree>, y: seq<Tree>, z: seq<Tree>)
    ensures x + (y + z) == x + y + z
  {}

  lemma PostorderPart(a: seq<Tree>, b: seq<Tree>, c: seq<Tree>)
    ensures Postorder(a + b + c) == Postorder(a) + Postorder(b) + Postorder(c)
  {
    PostorderConcat(a + b, c);
    PostorderConcat(a, b);
  }

  lemma PostorderOne(tree: Tree)
    ensures Postorder([tree]) == Postorder(tree.subs) + [tree]
  {
    assert [tree][1..] == [];
  }

  /** The trees done so far: their rows of c are gone, the undeletable ones apart. */
  ghost predicate Progress(log: seq<Event>, done: seq<Tree>, a: Database, b: Database, c: string, stuck: set<int>) {
    Replays(log, a, b, c) && StuckStay(a, b, c, stuck) && Clear(b, Managers(done), c) && Nodes(log) == Postorder(done)
  }

  lemma ClearStays(a: Database, b: Database, mans: set<int>, c: string)
    requires Clear(a, mans, c) && OnlyDeleted(a, b, c)
    ensures Clear(b, mans, c)
  {}

  lemma Joined(log: seq<Event>, done: seq<Tree>, sub: seq<Event>, more: seq<Tree>, a: Database, b: Database, d: Database, c: string, stuck: set<int>)
    requires Progress(log, done, a, b, c, stuck) && Progress(sub, more, b, d, c, stuck)
    ensures Progress(log + sub, done + more, a, d, c, stuck)
  {
    ReplaysConcat(log, sub, a, b, d, c);
    ReplaysDeletes(sub, b, d, c);
    ClearStays(b, d, Managers(done), c);
    NodesConcat(log, sub);
    PostorderConcat(done, more);
    ManagersConcat(done, more);
  }

  /** Its sub-managers done, a manager's own purge completes its tree. */
  lemma TreeDone(tree: Tree, sub: seq<Event>, e: Event, a: Database, b: Database, d: Database, c: string, stuck: set<int>)
    requires Progress(sub, tree.subs, a, b, c, stuck) && e == Event(tree, b, d, true) && EventOk(e, c) && StuckStay(b, d, c, stuck)
    ensures Progress(sub + [e], [tree], a, d, c, stuck)
  {
    assert Replays([e], b, d, c) by { assert [e][1..] == []; }
    ReplaysConcat(sub, [e], a, b, d, c);
    ClearStays(b, d, Managers(tree.subs), c);
    NodesConcat(sub, [e]);
    PostorderOne(tree);
    ManagersSnoc([tree], 0);
    assert [tree][..1] == [tree] && Nodes([e]) == [tree];
  }

  lemma TreeFails(tree: Tree, sub: seq<Event>, e: Event, a: Database, b: Database, d: Database, c: string, stuck: set<int>)
    requires Progress(sub, tree.subs, a, b, c, stuck) && e == Event(tree, b, d, false) && EventOk(e, c) && StuckStay(b, d, c, stuck)
    requires exists k :: k in stuck && Holds(d, tree.man, k, c)
    ensures Replays(sub + [e], a, d, c) && StuckStay(a, d, c, stuck) && StoppedAt(sub + [e], [tree], d, c, stuck)
  {
    assert Replays([e], b, d, c) by { assert [e][1..] == []; }
    ReplaysConcat(sub, [e], a, b, d, c);
    StopsHere(tree, sub, e, d, c, stuck);
  }

  lemma StopsIn(trees: seq<Tree>, i: nat, log: seq<Event>, sub: seq<Event>, db: Database, c: string, stuck: set<int>)
    requires i < |trees| && Nodes(log) == Postorder(trees[..i]) && StoppedAt(sub, [trees[i]], db, c, stuck)
    ensures StoppedAt(log + sub, trees, db, c, stuck)
  {
    var (a, b, d) := (trees[..i], [trees[i]], trees[i + 1..]);
    assert trees == a + b + d;
    NodesConcat(log, sub);
    PostorderPart(a, b, d);
    ManagersConcat(a + b, d);
    ManagersConcat(a, b);
    assert (log + sub)[|log + sub| - 1] == sub[|sub| - 1];
  }

  lemma StopsBelow(tree: Tree, sub: seq<Event>, db: Database, c: string, stuck: set<int>)
    requires StoppedAt(sub, tree.subs, db, c, stuck)
    ensures StoppedAt(sub, [tree], db, c, stuck)
  {
    PostorderOne(tree);
  }

  lemma StopsHere(tree: Tree, sub: seq<Event>, e: Event, db: Database, c: string, stuck: set<int>)
    requires Nodes(sub) == Postorder(tree.subs)
    requires e.node == tree && !e.done && exists k :: k in stuck && Holds(db, tree.man, k, c)
    ensures StoppedAt(sub + [e], [tree], db, c, stuck)
  {
    NodesConcat(sub, [e]);
    PostorderOne(tree);
    assert Nodes([e]) == [tree];
  }

  lemma FailedPurge(trees: seq<Tree>, log: seq<Event>, a: Database, b: Database, c: string, stuck: set<int>)
    requires Replays(log, a, b, c) && StoppedAt(log, trees, b, c, stuck)
    ensures OnlyDeleted(a, b, c) && !NoneStuck(a, Managers(trees), c, stuck)
  {
    ReplaysDeletes(log, a, b, c);
    var man := log[|log| - 1].node.man;
    var k :| k in stuck && Holds(b, man, k, c);
    assert Holds(a, man, k, c);
  }

  class Store {
    var db: Database

    constructor (db: Database)
      ensures this.db == db
    {
      this.db := db;
    }

    /** PurgeAllByCluster of one manager; the rows in `stuck` cannot be deleted. */
    method PurgeManager(man: int, c: string, stuck: set<int>) returns (ok: bool)
      modifies this
      ensures OnlyDeleted(old(db), db, c)
      ensures forall m :: m != man ==> TableOf(db, m) == TableOf(old(db), m)
      ensures forall k :: k in stuck && Holds(old(db), man, k, c) ==> Holds(db, man, k, c)
      ensures ok <==> Clear(db, {man}, c)
      ensures ok <==> forall k :: Holds(old(db), man, k, c) ==> k !in stuck
    {
      var objs := set k | k in TableOf(db, man) && TableOf(db, man)[k] == c;
      while objs != {}
        invariant OnlyDeleted(old(db), db, c)
        invariant forall m :: m != man ==> TableOf(db, m) == TableOf(old(db), m)
        invariant forall k :: k in objs <==> Holds(db, man, k, c)
        invariant forall k :: k in stuck && Holds(old(db), man, k, c) ==> Holds(db, man, k, c)
        decreases |objs|
      {
        var k := AnyOf(objs);
        assert Holds(db, man, k, c);
        if k in stuck { return false; }
        db := db[man := TableOf(db, man) - {k}];
        objs := objs - {k};
      }
      return true;
    }

    /** One turn of the loop: the sub-managers of a manager, then its own rows. */
    method PurgeTree(tree: Tree, c: string, stuck: set<int>) returns (ok: bool, ghost log: seq<Event>)
      modifies this
      ensures ok ==> Progress(log, [tree], old(db), db, c, stuck)
      ensures !ok ==> Replays(log, old(db), db, c) && StuckStay(old(db), db, c, stuck) && StoppedAt(log, [tree], db, c, stuck)
      decreases tree, 1
    {
      ok, log := PurgeSub(tree.subs, c, stuck);
      if !ok {
        StopsBelow(tree, log, db, c, stuck);
        return;
      }
      ghost var mid := db;
      ok := PurgeManager(tree.man, c, stuck);
      ghost var e := Event(tree, mid, db, ok);
      if ok { TreeDone(tree, log, e, old(db), mid, db, c, stuck); } else { TreeFails(tree, log, e, old(db), mid, db, c, stuck); }
      log := log + [e];
    }

    /** purgeSubClusterResource: sub-managers first, then the manager's own rows; stops at the first error, which it
        meets exactly when some manager holds a row that cannot be deleted. */
    method PurgeSub(trees: seq<Tree>, c: string, stuck: set<int>) returns (ok: bool, ghost log: seq<Event>)
      modifies this
      ensures Replays(log, old(db), db, c) && OnlyDeleted(old(db), db, c) && StuckStay(old(db), db, c, stuck)
      ensures ok ==> Clear(db, Managers(trees), c) && Nodes(log) == Postorder(trees)
      ensures !ok ==> StoppedAt(log, trees, db, c, stuck)
      ensures ok <==> NoneStuck(old(db), Managers(trees), c, stuck)
      decreases trees, 0
    {
      log := [];
      for i := 0 to |trees|
        invariant Progress(log, trees[..i], old(db), db, c, stuck)
      {
        ghost var mid := db;
        var treeOk, treeLog := PurgeTree(trees[i], c, stuck);
        if !treeOk {
          ReplaysConcat(log, treeLog, old(db), mid, db, c);
          StopsIn(trees, i, log, treeLog, db, c, stuck);
          FailedPurge(trees, log + treeLog, old(db), db, c, stuck);
          return false, log + treeLog;
        }
        Joined(log, trees[..i], treeLog, [trees[i]], old(db), mid, db, c, stuck);
        log := log + treeLog;
        assert trees[..i + 1] == trees[..i] + [trees[i]];
      }
      assert trees[..|trees|] == trees;
      ReplaysDeletes(log, old(db), db, c);
      ok := true;
    }
  }

  lemma {:induction false} ManagersConcat(a: seq<Tree>, b: seq<Tree>)
    ensures Managers(a + b) == Managers(a) + Managers(b)
    decreases |a|
  {
    if a == [] {
      assert a + b == b;
    } else {
      ManagersConcat(a[1..], b);
      assert (a + b)[1..] == a[1..] + b;
    }
  }

  lemma ManagersSnoc(trees: seq<Tree>, i: nat)
    requires i < |trees|
    ensures Managers(trees[..i + 1]) == Managers(trees[..i]) + {trees[i].man} + Managers(trees[i].subs)
  {
    assert trees[..i + 1] == trees[..i] + [trees[i]];
    ManagersConcat(trees[..i], [trees[i]]);
    assert [trees[i]][1..] == [];
  }

  // --- the purge of everything registered ---

  /** The managers of a forest are those at its nodes. */
  lemma {:induction false} ManagersAt(trees: seq<Tree>, m: int)
    ensures m in Managers(trees) <==> exists p :: IsNode(trees, p) && ManAt(trees, p) == m
    decreases trees
  {
    if trees != [] {
      ManagersAt(trees[0].subs, m);
      ManagersAt(trees[1..], m);
      if m in Managers(trees) { ManagerNode(trees, m); }
      if p :| IsNode(trees, p) && ManAt(trees, p) == m { NodeManager(trees, p); }
    }
  }

  lemma ManagerNode(trees: seq<Tree>, m: int)
    requires trees != [] && m in Managers(trees)
    requires m in Managers(trees[0].subs) ==> exists p :: IsNode(trees[0].subs, p) && ManAt(trees[0].subs, p) == m
    requires m in Managers(trees[1..]) ==> exists p :: IsNode(trees[1..], p) && ManAt(trees[1..], p) == m
    ensures exists p :: IsNode(trees, p) && ManAt(trees, p) == m
  {
    if m == trees[0].man {
      assert IsNode(trees, [0]) && ManAt(trees, [0]) == m;
    } else if m in Managers(trees[0].subs) {
      var p :| IsNode(trees[0].subs, p) && ManAt(trees[0].subs, p) == m;
      assert ([0] + p)[1..] == p;
      assert IsNode(trees, [0] + p) && ManAt(trees, [0] + p) == m;
    } else {
      var p :| IsNode(trees[1..], p) && ManAt(trees[1..], p) == m;
      var q := [p[0] + 1] + p[1..];
      assert q[1..] == p[1..] && trees[1..][p[0]] == trees[q[0]];
      assert IsNode(trees, q) && ManAt(trees, q) == m;
    }
  }

  lemma {:induction false} NodeManager(trees: seq<Tree>, p: Path)
    requires IsNode(trees, p)
    ensures ManAt(trees, p) in Managers(trees)
    decreases |p|, |trees|
  {
    if p[0] == 0 {
      if |p| > 1 { NodeManager(trees[0].subs, p[1..]); }
    } else {
      var q := [p[0] - 1] + p[1..];
      assert q[1..] == p[1..] && trees[1..][q[0]] == trees[p[0]];
      NodeManager(trees[1..], q);
    }
  }

  /** A manager is in the forest exactly when some chain of registrations leads to it. */
  lemma RegisteredManagers(t: Lists, rank: int -> nat, root: int, m: int)
    requires Ranked(t, rank)
    ensures m in Managers(Forest(t, rank, root)) <==> exists p :: p != [] && Leads(t, root, p) && Follow(t, root, p) == m
  {
    var trees := Forest(t, rank, root);
    ManagersAt(trees, m);
    if p :| IsNode(trees, p) && ManAt(trees, p) == m {
      ForestExact(t, rank, root, p);
      assert p != [] && Leads(t, root, p) && Follow(t, root, p) == m;
    }
    if p :| p != [] && Leads(t, root, p) && Follow(t, root, p) == m {
      ForestExact(t, rank, root, p);
      assert IsNode(trees, p) && ManAt(trees, p) == m;
    }
  }

  /** So a successful purge leaves no row of the cluster in any manager that was ever registered below the root. */
  lemma PurgedEverywhere(t: Lists, rank: int -> nat, root: int, db: Database, c: string, p: Path, k: int)
    requires Ranked(t, rank) && Clear(db, Managers(Forest(t, rank, root)), c)
    requires p != [] && Leads(t, root, p)
    ensures !Holds(db, Follow(t, root, p), k, c)
  {
    RegisteredManagers(t, rank, root, Follow(t, root, p));
  }
}

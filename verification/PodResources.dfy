/** A pod's effective requests and limits (pkg/models/pods.go), and a node's sum of them (pkg/models/nodes.go). */
module PodResources {
  import opened Prelude

  /** Resource amounts by name; quantities are exact numbers. */
  type Amounts = map<string, int>

  datatype Container = Container(requests: Amounts, limits: Amounts)

  datatype Pod = Pod(containers: seq<Container>, initContainers: seq<Container>)

  function Requests(cs: seq<Container>): (r: seq<Amounts>)
    ensures |r| == |cs| && forall i :: 0 <= i < |cs| ==> r[i] == cs[i].requests
  {
    seq(|cs|, i requires 0 <= i < |cs| => cs[i].requests)
  }

  function Limits(cs: seq<Container>): (r: seq<Amounts>)
    ensures |r| == |cs| && forall i :: 0 <= i < |cs| ==> r[i] == cs[i].limits
  {
    seq(|cs|, i requires 0 <= i < |cs| => cs[i].limits)
  }

  function Get(a: Amounts, name: string): int { if name in a then a[name] else 0 }

  /** The sum over the containers that name the resource. */
  function Sum(cs: seq<Amounts>, name: string): int {
    if cs == [] then 0 else Sum(cs[..|cs| - 1], name) + Get(cs[|cs| - 1], name)
  }

  predicate Named(cs: seq<Amounts>, name: string) { exists i :: 0 <= i < |cs| && name in cs[i] }

  /** The amounts a pod must be able to get: that of all its containers together, and that of each init container alone. */
  function Needs(cs: seq<Amounts>, inits: seq<Amounts>, name: string): set<int> {
    (if Named(cs, name) then {Sum(cs, name)} else {}) + (set i | 0 <= i < |inits| && name in inits[i] :: inits[i][name])
  }

  /** The greatest of the needs; defined exactly when there is one. */
  ghost predicate Effective(r: Amounts, cs: seq<Amounts>, inits: seq<Amounts>, name: string) {
    var needs := Needs(cs, inits, name);
    && (name in r <==> needs != {})
    && (name in r ==> r[name] in needs && forall n :: n in needs ==> n <= r[name])
  }

  /** At this name, `amounts` has been added to `total`, unless it is still to do. */
  ghost predicate AddedAt(r: Amounts, total: Amounts, amounts: Amounts, todo: set<string>, name: string) {
    && (name in r <==> name in total || (name in amounts && name !in todo))
    && Get(r, name) == Get(total, name) + if name in todo then 0 else Get(amounts, name)
  }

  /** The inner loop that adds one container's amounts. */
  method AddAll(total: Amounts, amounts: Amounts) returns (r: Amounts)
    ensures forall name :: AddedAt(r, total, amounts, {}, name)
  {
    r := total;
    var todo := amounts.Keys;
    while todo != {}
      invariant todo <= amounts.Keys
      invariant forall name :: AddedAt(r, total, amounts, todo, name)
      decreases |todo|
    {
      var name := AnyOf(todo);
      var next := r[name := if name in r then r[name] + amounts[name] else amounts[name]];
      var left := todo - {name};
      forall k ensures AddedAt(next, total, amounts, left, k) { assert AddedAt(r, total, amounts, todo, k); }
      r, todo := next, left;
    }
  }

  function Raised(total: Amounts, amounts: Amounts, todo: set<string>, name: string): int {
    if name !in amounts || name in todo then Get(total, name)
    else if name !in total then amounts[name]
    else Max(total[name], amounts[name])
  }

  /** At this name, `total` has been raised to `amounts` where that is more, unless it is still to do. */
  ghost predicate RaisedAt(r: Amounts, total: Amounts, amounts: Amounts, todo: set<string>, name: string) {
    && (name in r <==> name in total || (name in amounts && name !in todo))
    && (name in r ==> r[name] == Raised(total, amounts, todo, name))
  }

  /** The inner loop that raises the amounts to one init container's. */
  method RaiseAll(total: Amounts, amounts: Amounts) returns (r: Amounts)
    ensures forall name :: RaisedAt(r, total, amounts, {}, name)
  {
    r := total;
    var todo := amounts.Keys;
    while todo != {}
      invariant todo <= amounts.Keys
      invariant forall name :: RaisedAt(r, total, amounts, todo, name)
      decreases |todo|
    {
      var name := AnyOf(todo);
      assert RaisedAt(r, total, amounts, todo, name);
      var next := if name !in r || amounts[name] > r[name] then r[name := amounts[name]] else r;
      var left := todo - {name};
      forall k ensures RaisedAt(next, total, amounts, left, k) { assert RaisedAt(r, total, amounts, todo, k); }
      r, todo := next, left;
    }
  }

  /** PodRequestsAndLimits. */
  method PodRequestsAndLimits(pod: Pod) returns (reqs: Amounts, limits: Amounts)
    ensures forall name :: Effective(reqs, Requests(pod.containers), Requests(pod.initContainers), name)
    ensures forall name :: Effective(limits, Limits(pod.containers), Limits(pod.initContainers), name)
  {
    reqs := EffectiveAmounts(Requests(pod.containers), Requests(pod.initContainers));
    limits := EffectiveAmounts(Limits(pod.containers), Limits(pod.initContainers));
  }

  lemma SnocSum(cs: seq<Amounts>, i: nat, name: string)
    requires i < |cs|
    ensures Sum(cs[..i + 1], name) == Sum(cs[..i], name) + Get(cs[i], name)
    ensures Named(cs[..i + 1], name) <==> Named(cs[..i], name) || name in cs[i]
  {
    assert cs[..i + 1][..i] == cs[..i];
    assert cs[..i + 1][i] == cs[i];
    assert Named(cs[..i], name) ==> Named(cs[..i + 1], name) by {
      assert forall k :: 0 <= k < i ==> cs[..i + 1][k] == cs[..i][k];
    }
  }

  lemma Unnamed(cs: seq<Amounts>, name: string)
    requires !Named(cs, name)
    ensures Sum(cs, name) == 0
  {
    if cs != [] {
      var n := |cs| - 1;
      SnocSum(cs, n, name);
      assert cs[..n + 1] == cs;
      Unnamed(cs[..n], name);
    }
  }

  lemma AddStep(before: Amounts, after: Amounts, cs: seq<Amounts>, i: nat, name: string)
    requires i < |cs| && Effective(before, cs[..i], [], name)
    requires AddedAt(after, before, cs[i], {}, name)
    ensures Effective(after, cs[..i + 1], [], name)
  {
    SnocSum(cs, i, name);
    if !Named(cs[..i], name) { Unnamed(cs[..i], name); }
    assert Needs(cs[..i], [], name) == if Named(cs[..i], name) then {Sum(cs[..i], name)} else {};
    assert Needs(cs[..i + 1], [], name) == if Named(cs[..i + 1], name) then {Sum(cs[..i + 1], name)} else {};
  }

  lemma SnocNeeds(cs: seq<Amounts>, inits: seq<Amounts>, i: nat, name: string)
    requires i < |inits|
    ensures Needs(cs, inits[..i + 1], name) == Needs(cs, inits[..i], name) + if name in inits[i] then {inits[i][name]} else {}
  {
    var a, b := inits[..i + 1], inits[..i];
    assert forall k :: 0 <= k < i ==> a[k] == b[k];
    assert a[i] == inits[i];
  }

  /** The loops over containers and then init containers, for requests or for limits. */
  method EffectiveAmounts(cs: seq<Amounts>, inits: seq<Amounts>) returns (r: Amounts)
    ensures forall name :: Effective(r, cs, inits, name)
  {
    r := map[];
    for i := 0 to |cs|
      invariant forall name :: Effective(r, cs[..i], [], name)
    {
      var next := AddAll(r, cs[i]);
      ghost var seen, more := cs[..i], cs[..i + 1];
      forall name ensures Effective(next, more, [], name) {
        assert Effective(r, seen, [], name) && AddedAt(next, r, cs[i], {}, name);
        AddStep(r, next, cs, i, name);
      }
      r := next;
    }
    assert cs[..|cs|] == cs && inits[..0] == [];
    for i := 0 to |inits|
      invariant forall name :: Effective(r, cs, inits[..i], name)
    {
      var next := RaiseAll(r, inits[i]);
      ghost var seen, more := inits[..i], inits[..i + 1];
      forall name ensures Effective(next, cs, more, name) {
        assert Effective(r, cs, seen, name) && RaisedAt(next, r, inits[i], {}, name);
        RaiseStep(r, next, cs, inits, i, name);
      }
      r := next;
    }
    assert inits[..|inits|] == inits;
  }

  lemma RaiseStep(before: Amounts, after: Amounts, cs: seq<Amounts>, inits: seq<Amounts>, i: nat, name: string)
    requires i < |inits| && Effective(before, cs, inits[..i], name)
    requires RaisedAt(after, before, inits[i], {}, name)
    ensures Effective(after, cs, inits[..i + 1], name)
  {
    SnocNeeds(cs, inits, i, name);
  }

  // --- order does not matter ---

  lemma {:induction false} SumWithout(cs: seq<Amounts>, i: nat, name: string)
    requires i < |cs|
    ensures Sum(cs, name) == Sum(cs[..i] + cs[i + 1..], name) + Get(cs[i], name)
    decreases |cs|
  {
    var n := |cs| - 1;
    if i == n {
      assert cs[..i] + cs[i + 1..] == cs[..n];
    } else {
      SumWithout(cs[..n], i, name);
      var rest := cs[..i] + cs[i + 1..];
      assert rest[|rest| - 1] == cs[n] && rest[..|rest| - 1] == cs[..n][..i] + cs[..n][i + 1..];
    }
  }

  lemma {:induction false} SumPermuted(cs: seq<Amounts>, ds: seq<Amounts>, name: string)
    requires multiset(cs) == multiset(ds)
    ensures Sum(cs, name) == Sum(ds, name)
    decreases |cs|
  {
    if cs == [] {
      assert |multiset(ds)| == 0;
    } else {
      var n := |cs| - 1;
      assert cs[n] in multiset(ds);
      var i :| 0 <= i < |ds| && ds[i] == cs[n];
      SumWithout(ds, i, name);
      assert cs == cs[..n] + [cs[n]];
      assert ds == ds[..i] + [ds[i]] + ds[i + 1..];
      assert multiset(cs) == multiset(cs[..n]) + multiset{cs[n]};
      assert multiset(ds) == multiset(ds[..i] + ds[i + 1..]) + multiset{ds[i]};
      assert multiset(cs[..n]) == multiset(cs) - multiset{cs[n]} == multiset(ds[..i] + ds[i + 1..]);
      SumPermuted(cs[..n], ds[..i] + ds[i + 1..], name);
    }
  }

  lemma NamedPermuted(cs: seq<Amounts>, ds: seq<Amounts>, name: string)
    requires multiset(cs) == multiset(ds)
    ensures Named(cs, name) ==> Named(ds, name)
    ensures forall i :: 0 <= i < |cs| ==> cs[i] in ds
  {
    forall i | 0 <= i < |cs| ensures cs[i] in ds {
      assert cs[i] in multiset(cs);
    }
  }

  lemma NeedsPermuted(cs: seq<Amounts>, ds: seq<Amounts>, inits: seq<Amounts>, jnits: seq<Amounts>, name: string)
    requires multiset(cs) == multiset(ds) && multiset(inits) == multiset(jnits)
    ensures Needs(cs, inits, name) <= Needs(ds, jnits, name)
  {
    SumPermuted(cs, ds, name);
    NamedPermuted(cs, ds, name);
    NamedPermuted(ds, cs, name);
    NamedPermuted(inits, jnits, name);
  }

  /** Reordering containers, or init containers, changes no effective amount. */
  lemma OrderIrrelevant(r: Amounts, r': Amounts, cs: seq<Amounts>, ds: seq<Amounts>, inits: seq<Amounts>, jnits: seq<Amounts>)
    requires multiset(cs) == multiset(ds) && multiset(inits) == multiset(jnits)
    requires forall name :: Effective(r, cs, inits, name)
    requires forall name :: Effective(r', ds, jnits, name)
    ensures r == r'
  {
    forall name ensures (name in r <==> name in r') && (name in r ==> r[name] == r'[name]) {
      NeedsPermuted(cs, ds, inits, jnits, name);
      NeedsPermuted(ds, cs, jnits, inits, name);
      assert Effective(r, cs, inits, name) && Effective(r', ds, jnits, name);
    }
  }

  // --- a node's pods ---

  /** The summing part of getNodeAllocatedResources, for the effective requests of the pods on a node. */
  method NodeAllocated(pods: seq<Amounts>) returns (r: Amounts)
    ensures forall name :: (name in r <==> Named(pods, name)) && Get(r, name) == Sum(pods, name)
  {
    r := map[];
    for i := 0 to |pods|
      invariant forall name :: (name in r <==> Named(pods[..i], name)) && Get(r, name) == Sum(pods[..i], name)
    {
      var next := AddAll(r, pods[i]);
      ghost var more := pods[..i + 1];
      forall name ensures (name in next <==> Named(more, name)) && Get(next, name) == Sum(more, name) {
        assert AddedAt(next, r, pods[i], {}, name);
        SnocSum(pods, i, name);
      }
      r := next;
    }
    assert pods[..|pods|] == pods;
  }
}

/** Comparing pod templates while ignoring the pod-template hash (pkg/models/helper.go). */
module Labels {
  import opened Prelude

  const HASH := "pod-template-hash"

  type Labels = map<string, string>

  /** A pod template: its labels, and everything else as one value. */
  datatype Template = Template(labels: Labels, rest: int)

  /** Indexing a map without the key gives the empty string. */
  function Get(m: Labels, k: string): string { if k in m then m[k] else "" }

  predicate NonEmpty(m: Labels) { forall k :: k in m ==> m[k] != "" }

  /** Every label of b but the hash has the same value in a. */
  predicate Agree(a: Labels, b: Labels) { forall k :: k in b && k != HASH ==> Get(a, k) == b[k] }

  /** What the scan decides: it runs over the larger map, the second on a tie. */
  predicate Scan(l1: Labels, l2: Labels) { if |l1| > |l2| then Agree(l2, l1) else Agree(l1, l2) }

  /** What it is meant to decide. */
  predicate SameButHash(l1: Labels, l2: Labels) { l1 - {HASH} == l2 - {HASH} }

  /** One family it gets wrong: only the second map carries the hash, in place of a label of the first. */
  predicate HashHidesLabel(l1: Labels, l2: Labels) {
    HASH !in l1 && HASH in l2 && |l1| == |l2| && forall k :: k in l2 && k != HASH ==> k in l1 && l1[k] == l2[k]
  }

  /** Label k of the larger map is empty and the smaller map does not have it. */
  predicate EmptyExtra(a: Labels, b: Labels, k: string) { k in b && k != HASH && b[k] == "" && k !in a }

  /** The other family: the larger map differs by labels with empty values, and by those only. */
  predicate EmptyHidesLabel(a: Labels, b: Labels) {
    && (exists k :: k in b && EmptyExtra(a, b, k))
    && (forall k :: k in b && k != HASH ==> EmptyExtra(a, b, k) || (k in a && a[k] == b[k]))
  }

  /** The map that is scanned against, and the one that is scanned. */
  function Smaller(l1: Labels, l2: Labels): Labels { if |l1| > |l2| then l2 else l1 }
  function Larger(l1: Labels, l2: Labels): Labels { if |l1| > |l2| then l1 else l2 }

  /** Equal labels are always recognised. */
  lemma NoFalseNegative(l1: Labels, l2: Labels)
    requires SameButHash(l1, l2)
    ensures Scan(l1, l2)
  {
    var m := l1 - {HASH};
    assert forall k :: k in l1 && k != HASH ==> k in m && m[k] == l1[k];
    assert forall k :: k in l2 && k != HASH ==> k in m && m[k] == l2[k];
  }

  lemma SizeWithout(m: Labels)
    ensures |m - {HASH}| == |m| - if HASH in m then 1 else 0
  {
    assert (m - {HASH}).Keys == m.Keys - {HASH};
    assert |(m - {HASH}).Keys| == |m.Keys| - if HASH in m then 1 else 0;
  }

  lemma SubmapOfSameSize(a: Labels, b: Labels)
    requires (forall k :: k in b ==> k in a && a[k] == b[k]) && |a| <= |b|
    ensures a == b
  {
    assert b.Keys <= a.Keys && |a.Keys| == |a| && |b.Keys| == |b|;
    SubsetOfSameSize(b.Keys, a.Keys);
  }

  lemma {:induction false} SubsetOfSameSize(b: set<string>, a: set<string>)
    requires b <= a && |a| <= |b|
    ensures a == b
  {
    if b != {} {
      var x := Pick(b);
      SubsetOfSameSize(b - {x}, a - {x});
      assert a == (a - {x}) + {x} && b == (b - {x}) + {x};
    }
  }

  /** The scan succeeded over the larger map b, which has no empty extra label and does not carry the hash alone
      on a tie. */
  lemma LargerDecides(a: Labels, b: Labels)
    requires |a| <= |b| && Agree(a, b) && forall k :: k in b ==> !EmptyExtra(a, b, k)
    requires HASH in b && |a| == |b| ==> HASH in a
    ensures SameButHash(a, b)
  {
    SizeWithout(a);
    SizeWithout(b);
    forall k | k in b - {HASH} ensures k in a - {HASH} && (a - {HASH})[k] == (b - {HASH})[k] {
      assert Get(a, k) == b[k] && !EmptyExtra(a, b, k);
    }
    SubmapOfSameSize(a - {HASH}, b - {HASH});
  }

  lemma AgreeIsSubmap(a: Labels, b: Labels)
    requires Agree(a, b) && forall k :: k in b ==> !EmptyExtra(a, b, k)
    ensures forall k :: k in b && k != HASH ==> k in a && a[k] == b[k]
  {
    forall k | k in b && k != HASH ensures k in a && a[k] == b[k] {
      assert Get(a, k) == b[k] && !EmptyExtra(a, b, k);
    }
  }

  /** An empty extra label is overlooked by the scan, but makes the maps different. */
  lemma EmptyExtraDiffers(a: Labels, b: Labels, k: string)
    requires EmptyExtra(a, b, k)
    ensures !SameButHash(a, b)
  {
    assert k in b - {HASH} && k !in a - {HASH};
  }

  lemma HashHidesDiffers(l1: Labels, l2: Labels)
    requires HashHidesLabel(l1, l2)
    ensures Scan(l1, l2) && !SameButHash(l1, l2)
  {
    SizeWithout(l1);
    SizeWithout(l2);
    assert |l1 - {HASH}| != |l2 - {HASH}|;
  }

  lemma EmptyHidesDiffers(a: Labels, b: Labels)
    requires EmptyHidesLabel(a, b)
    ensures Agree(a, b) && !SameButHash(a, b)
  {
    var k :| k in b && EmptyExtra(a, b, k);
    EmptyExtraDiffers(a, b, k);
  }

  lemma NoEmptyExtra(a: Labels, b: Labels)
    requires Agree(a, b) && !EmptyHidesLabel(a, b)
    ensures forall k :: k in b ==> !EmptyExtra(a, b, k)
  {
    forall k | k in b && k != HASH ensures EmptyExtra(a, b, k) || (k in a && a[k] == b[k]) {
      assert Get(a, k) == b[k];
    }
  }

  lemma ScanDecides(l1: Labels, l2: Labels)
    requires Scan(l1, l2) && !HashHidesLabel(l1, l2) && !EmptyHidesLabel(Smaller(l1, l2), Larger(l1, l2))
    ensures SameButHash(l1, l2)
  {
    var (a, b) := (Smaller(l1, l2), Larger(l1, l2));
    NoEmptyExtra(a, b);
    AgreeIsSubmap(a, b);
    LargerDecides(a, b);
  }

  /** The comparison is right exactly outside the two families. */
  lemma ScanExact(l1: Labels, l2: Labels)
    ensures (Scan(l1, l2) <==> SameButHash(l1, l2)) <==>
      !HashHidesLabel(l1, l2) && !EmptyHidesLabel(Smaller(l1, l2), Larger(l1, l2))
  {
    if HashHidesLabel(l1, l2) {
      HashHidesDiffers(l1, l2);
    } else if EmptyHidesLabel(Smaller(l1, l2), Larger(l1, l2)) {
      EmptyHidesDiffers(Smaller(l1, l2), Larger(l1, l2));
    } else if Scan(l1, l2) {
      ScanDecides(l1, l2);
    } else if SameButHash(l1, l2) {
      NoFalseNegative(l1, l2);
    }
  }

  /** Labels without empty values: only the hash can hide a label. */
  lemma ScanExactNonEmpty(l1: Labels, l2: Labels)
    requires NonEmpty(l1) && NonEmpty(l2)
    ensures (Scan(l1, l2) <==> SameButHash(l1, l2)) <==> !HashHidesLabel(l1, l2)
  {
    ScanExact(l1, l2);
  }

  /** Both families have members: here the labels "a" and "b", both empty, are taken for equal. */
  lemma EmptyHides()
    ensures var l1, l2 := map["a" := ""], map["b" := ""]; Scan(l1, l2) && !SameButHash(l1, l2)
  {
    var l1, l2 := map["a" := ""], map["b" := ""];
    assert |"b"| != |HASH|;
    assert |l1| == 1 && |l2| == 1;
    assert EmptyExtra(l1, l2, "b");
    EmptyExtraDiffers(l1, l2, "b");
  }

  /** And here the hash hides one. */
  lemma HashHides(v: string, h: string)
    requires v != "" && h != ""
    ensures var l1, l2 := map["app" := v], map["pod-template-hash" := h];
      NonEmpty(l1) && NonEmpty(l2) && Scan(l1, l2) && !SameButHash(l1, l2) && !Scan(l2, l1)
  {
    var l1, l2 := map["app" := v], map[HASH := h];
    assert "app" != HASH by { assert |"app"| != |HASH|; }
    assert |l1| == 1 && |l2| == 1;
    assert "app" in l1 - {HASH} && "app" !in l2 - {HASH};
    assert Get(l2, "app") == "";
  }

  /** EqualIgnoreHash. */
  method EqualIgnoreHash(t1: Template, t2: Template) returns (equal: bool)
    ensures equal <==> Scan(t1.labels, t2.labels) && t1.rest == t2.rest
  {
    var labels1, labels2 := t1.labels, t2.labels;
    if |labels1| > |labels2| { labels1, labels2 := labels2, labels1; }
    var keys := labels2.Keys;
    while keys != {}
      invariant keys <= labels2.Keys
      invariant forall k :: k in labels2 && k !in keys && k != HASH ==> Get(labels1, k) == labels2[k]
      decreases |keys|
    {
      var k := AnyOf(keys);
      if Get(labels1, k) != labels2[k] && k != HASH { return false; }
      keys := keys - {k};
    }
    return t1.rest == t2.rest;
  }

  predicate Matches(rs: Template, target: Template) { SameButHash(rs.labels, target.labels) && rs.rest == target.rest }

  predicate Recognised(rs: Template, target: Template) { Scan(rs.labels, target.labels) && rs.rest == target.rest }

  /** The index of the first template that p picks, if any. */
  ghost predicate First(p: Template -> bool, rsList: seq<Template>, r: Option<nat>) {
    match r
    case None => forall i :: 0 <= i < |rsList| ==> !p(rsList[i])
    case Some(n) => n < |rsList| && p(rsList[n]) && forall i :: 0 <= i < n ==> !p(rsList[i])
  }

  /** FindNewReplicaSet. */
  method FindNewReplicaSet(deployment: Template, rsList: seq<Template>) returns (r: Option<nat>)
    ensures First(rs => Recognised(rs, deployment), rsList, r)
  {
    for i := 0 to |rsList|
      invariant forall k :: 0 <= k < i ==> !Recognised(rsList[k], deployment)
    {
      var equal := EqualIgnoreHash(rsList[i], deployment);
      if equal { return Some(i); }
    }
    return None;
  }

  /** Among ReplicaSets that carry the hash, and differ from the deployment by more than empty labels if they
      differ, what it finds is the first one with the deployment's template. */
  lemma FirstMatch(deployment: Template, rsList: seq<Template>, r: Option<nat>)
    requires forall i :: 0 <= i < |rsList| ==> HASH in rsList[i].labels
    requires forall i :: 0 <= i < |rsList| ==>
      !EmptyHidesLabel(Smaller(rsList[i].labels, deployment.labels), Larger(rsList[i].labels, deployment.labels))
    ensures First(rs => Recognised(rs, deployment), rsList, r) <==> First(rs => Matches(rs, deployment), rsList, r)
  {
    forall i | 0 <= i < |rsList| ensures Recognised(rsList[i], deployment) <==> Matches(rsList[i], deployment) {
      ScanExact(rsList[i].labels, deployment.labels);
    }
  }
}

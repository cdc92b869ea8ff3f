/** The recursive merge of release values (pkg/models/release.go). */
module DeepMerge {
  import opened Prelude

  /** A nested map; anything that is not a map is a leaf. */
  datatype Value = Leaf(x: int) | Obj(fields: Fields)

  type Fields = map<string, Value>

  /** What the merge leaves at a place where both sides have a value. */
  function Merge(a: Value, b: Value): Value
    decreases b
  {
    if a.Obj? && b.Obj? then
      Obj(map k | k in a.fields.Keys + b.fields.Keys ::
        if k !in b.fields then a.fields[k]
        else if k !in a.fields then b.fields[k]
        else Merge(a.fields[k], b.fields[k]))
    else b
  }

  /** The entries of b outside `todo` have been merged into a copy of a. */
  ghost predicate Partly(out: Fields, a: Fields, b: Fields, todo: set<string>) {
    var done := Merge(Obj(a), Obj(b)).fields;
    && out.Keys == a.Keys + (b.Keys - todo)
    && (forall k :: k in out ==> out[k] == if k in todo then a[k] else done[k])
  }

  /** The copying loop. */
  method Copy(a: Fields) returns (out: Fields)
    ensures out == a
  {
    out := map[];
    var todo := a.Keys;
    while todo != {}
      invariant todo <= a.Keys && out == map k | k in a && k !in todo :: a[k]
      decreases |todo|
    {
      var k := AnyOf(todo);
      out := out[k := a[k]];
      todo := todo - {k};
    }
  }

  lemma PartlyStep(out: Fields, a: Fields, b: Fields, todo: set<string>, k: string)
    requires Partly(out, a, b, todo) && k in todo && todo <= b.Keys
    ensures k in out <==> k in a
    ensures k in out ==> out[k] == a[k]
    ensures Partly(out[k := if k in a then Merge(a[k], b[k]) else b[k]], a, b, todo - {k})
  {}

  lemma PartlyDone(out: Fields, a: Fields, b: Fields)
    requires Partly(out, a, b, {})
    ensures Obj(out) == Merge(Obj(a), Obj(b))
  {
    assert out == Merge(Obj(a), Obj(b)).fields;
  }

  /** mergeMaps: copies a, then puts or merges each entry of b; the arguments are left alone. */
  method MergeMaps(a: Fields, b: Fields) returns (out: Fields)
    ensures Obj(out) == Merge(Obj(a), Obj(b))
    decreases Obj(b)
  {
    out := Copy(a);
    var todo := b.Keys;
    assert Partly(out, a, b, todo);
    while todo != {}
      invariant todo <= b.Keys && Partly(out, a, b, todo)
      decreases |todo|
    {
      var k := AnyOf(todo);
      PartlyStep(out, a, b, todo, k);
      var v := b[k];
      if v.Obj? && k in out && out[k].Obj? {
        assert v == Obj(b).fields[k];
        var m := MergeMaps(out[k].fields, v.fields);
        v := Obj(m);
      }
      out := out[k := v];
      todo := todo - {k};
    }
    PartlyDone(out, a, b);
  }

  // --- identity and idempotence ---

  lemma Identity(v: Value)
    requires v.Obj?
    ensures Merge(Obj(map[]), v) == v && Merge(v, Obj(map[])) == v
  {
    assert Merge(Obj(map[]), v).fields == v.fields;
    assert Merge(v, Obj(map[])).fields == v.fields;
  }

  lemma {:induction false} Idempotent(v: Value)
    ensures Merge(v, v) == v
    decreases v
  {
    if v.Obj? {
      forall k | k in v.fields ensures Merge(v.fields[k], v.fields[k]) == v.fields[k] {
        Idempotent(v.fields[k]);
      }
      assert Merge(v, v).fields == v.fields;
    }
  }

  // --- leaf by leaf ---

  type Path = seq<string>

  /** The value at a path. */
  function At(v: Value, p: Path): Option<Value>
    decreases |p|
  {
    if p == [] then Some(v)
    else if v.Obj? && p[0] in v.fields then At(v.fields[p[0]], p[1..])
    else None
  }

  /** The path ends inside v, or runs into a leaf of v on the way. */
  predicate Covers(v: Value, p: Path)
    decreases |p|
  {
    p == [] || v.Leaf? || (p[0] in v.fields && Covers(v.fields[p[0]], p[1..]))
  }

  /** The merge of two maps has exactly the leaves of the right one, and those of the left one the right does not cover. */
  lemma {:induction false} LeavesOfMerge(a: Value, b: Value, p: Path, x: int)
    ensures At(Merge(a, b), p) == Some(Leaf(x)) <==>
      At(b, p) == Some(Leaf(x)) || (At(a, p) == Some(Leaf(x)) && !Covers(b, p))
    decreases |p|
  {
    if p != [] && a.Obj? && b.Obj? && p[0] in a.fields && p[0] in b.fields {
      LeavesOfMerge(a.fields[p[0]], b.fields[p[0]], p[1..], x);
    }
  }

  // --- associativity ---

  /** Every key of a is in b, all the way down while both are maps. */
  predicate Absorbed(a: Value, b: Value)
    decreases b
  {
    a.Obj? && b.Obj? ==> forall k :: k in a.fields ==> k in b.fields && Absorbed(a.fields[k], b.fields[k])
  }

  lemma {:induction false} AbsorbedExact(a: Value, b: Value)
    ensures Merge(a, b) == b <==> Absorbed(a, b)
    decreases b
  {
    if a.Obj? && b.Obj? {
      forall k | k in a.fields && k in b.fields
        ensures Merge(a.fields[k], b.fields[k]) == b.fields[k] <==> Absorbed(a.fields[k], b.fields[k])
      {
        AbsorbedExact(a.fields[k], b.fields[k]);
      }
      var m := Merge(a, b).fields;
      if Absorbed(a, b) { assert m == b.fields; }
      if Merge(a, b) == b {
        assert m == b.fields;
        forall k | k in a.fields ensures k in b.fields && Absorbed(a.fields[k], b.fields[k]) { assert k in m; }
      }
    }
  }

  /** Wherever the middle value is a leaf between two maps, the left map is absorbed by the right one. */
  predicate Fits(a: Value, b: Value, c: Value)
    decreases c
  {
    a.Obj? && c.Obj? ==>
      if b.Leaf? then Absorbed(a, c)
      else forall k :: k in a.fields && k in b.fields && k in c.fields ==> Fits(a.fields[k], b.fields[k], c.fields[k])
  }

  /** Merging is associative exactly then. */
  lemma {:induction false} AssociativeExact(a: Value, b: Value, c: Value)
    ensures Merge(Merge(a, b), c) == Merge(a, Merge(b, c)) <==> Fits(a, b, c)
    decreases c
  {
    if a.Obj? && c.Obj? {
      if b.Leaf? {
        AbsorbedExact(a, c);
      } else {
        var l, r := Merge(Merge(a, b), c).fields, Merge(a, Merge(b, c)).fields;
        assert l.Keys == r.Keys;
        forall k | k in l
          ensures l[k] == r[k] <==>
            (k in a.fields && k in b.fields && k in c.fields ==> Fits(a.fields[k], b.fields[k], c.fields[k]))
        {
          if k in a.fields && k in b.fields && k in c.fields { AssociativeExact(a.fields[k], b.fields[k], c.fields[k]); }
        }
        if Fits(a, b, c) { assert l == r; }
        if l == r {
          forall k | k in a.fields && k in b.fields && k in c.fields ensures Fits(a.fields[k], b.fields[k], c.fields[k]) {
            assert k in l;
          }
        }
      }
    }
  }

  /** At no path is the middle value a leaf and both outer values maps. */
  ghost predicate NoLeafBetween(a: Value, b: Value, c: Value) {
    forall p :: At(b, p).Some? && At(b, p).value.Leaf? ==>
      !(At(a, p).Some? && At(a, p).value.Obj? && At(c, p).Some? && At(c, p).value.Obj?)
  }

  lemma {:induction false} NoLeafBetweenFits(a: Value, b: Value, c: Value)
    requires NoLeafBetween(a, b, c)
    ensures Fits(a, b, c)
    decreases c
  {
    assert At(a, []) == Some(a) && At(b, []) == Some(b) && At(c, []) == Some(c);
    if a.Obj? && b.Obj? && c.Obj? {
      forall k | k in a.fields && k in b.fields && k in c.fields ensures Fits(a.fields[k], b.fields[k], c.fields[k]) {
        forall p ensures At(a.fields[k], p) == At(a, [k] + p) && At(b.fields[k], p) == At(b, [k] + p) && At(c.fields[k], p) == At(c, [k] + p) {
          assert ([k] + p)[1..] == p;
        }
        NoLeafBetweenFits(a.fields[k], b.fields[k], c.fields[k]);
      }
    }
  }

  /** Merging is associative whenever no leaf of the middle map sits where both outer maps hold maps. */
  lemma Associative(a: Value, b: Value, c: Value)
    requires NoLeafBetween(a, b, c)
    ensures Merge(Merge(a, b), c) == Merge(a, Merge(b, c))
  {
    NoLeafBetweenFits(a, b, c);
    AssociativeExact(a, b, c);
  }

  /** Without that, it is not. */
  lemma NotAssociative(x: int)
    ensures var a, b, c := Obj(map["k" := Obj(map["i" := Leaf(x)])]), Obj(map["k" := Leaf(x)]), Obj(map["k" := Obj(map[])]);
      Merge(Merge(a, b), c) != Merge(a, Merge(b, c))
  {
    var a, b, c := Obj(map["k" := Obj(map["i" := Leaf(x)])]), Obj(map["k" := Leaf(x)]), Obj(map["k" := Obj(map[])]);
    assert "i" in a.fields["k"].fields && "i" !in c.fields["k"].fields;
    assert !Absorbed(a.fields["k"], c.fields["k"]);
    assert !Fits(a.fields["k"], b.fields["k"], c.fields["k"]);
    AssociativeExact(a, b, c);
  }
}

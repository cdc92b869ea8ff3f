/** The sort-merge diff of local rows against remote objects (pkg/models/compare.go). */
module Compare {
  import opened Prelude

  // --- strings.Compare ---

  function Cmp(a: string, b: string): int {
    if a == [] then (if b == [] then 0 else -1)
    else if b == [] then 1
    else if a[0] != b[0] then (if a[0] < b[0] then -1 else 1)
    else Cmp(a[1..], b[1..])
  }

  predicate Below(a: string, b: string) { Cmp(a, b) < 0 }

  lemma {:induction false} CmpEqual(a: string, b: string)
    ensures Cmp(a, b) == 0 <==> a == b
  {
    if a != [] && b != [] && a[0] == b[0] {
      CmpEqual(a[1..], b[1..]);
      assert a == [a[0]] + a[1..] && b == [b[0]] + b[1..];
    }
  }

  lemma {:induction false} CmpSwap(a: string, b: string)
    ensures Cmp(a, b) == -Cmp(b, a)
  {
    if a != [] && b != [] { CmpSwap(a[1..], b[1..]); }
  }

  lemma {:induction false} CmpTrans(a: string, b: string, c: string)
    requires Cmp(a, b) <= 0 && Cmp(b, c) <= 0
    ensures Cmp(a, c) <= 0 && (Cmp(a, c) == 0 ==> Cmp(a, b) == 0 && Cmp(b, c) == 0)
  {
    if a != [] && b != [] && c != [] && a[0] == b[0] == c[0] {
      CmpTrans(a[1..], b[1..], c[1..]);
    }
  }

  /** The first place where two strings differ, with the smaller character in a. */
  predicate SmallerAt(a: string, b: string, n: nat) { n < |a| && n < |b| && a[..n] == b[..n] && a[n] < b[n] }

  /** The comparison is lexicographic: below means a proper prefix, or a smaller character at the first difference. */
  lemma {:induction false} CmpExact(a: string, b: string)
    ensures Cmp(a, b) < 0 <==> (a <= b && a != b) || exists n: nat :: SmallerAt(a, b, n)
  {
    if a != [] && b != [] && a[0] == b[0] {
      CmpExact(a[1..], b[1..]);
      assert a == [a[0]] + a[1..] && b == [b[0]] + b[1..];
      if n: nat :| SmallerAt(a, b, n) {
        assert a[..n][1..] == a[1..][..n - 1] && b[..n][1..] == b[1..][..n - 1];
        assert SmallerAt(a[1..], b[1..], n - 1);
      }
      if n: nat :| SmallerAt(a[1..], b[1..], n) {
        assert a[..n + 1] == [a[0]] + a[1..][..n] && b[..n + 1] == [b[0]] + b[1..][..n];
        assert SmallerAt(a, b, n + 1);
      }
    } else if a != [] && b != [] {
      assert a[0] < b[0] ==> SmallerAt(a, b, 0);
      if n: nat :| SmallerAt(a, b, n) { assert n > 0 ==> a[..n][0] == b[..n][0]; }
    }
  }

  // --- sorting ---

  ghost predicate Sorted<T>(s: seq<T>, key: T -> string) {
    forall i, j :: 0 <= i < j < |s| ==> Cmp(key(s[i]), key(s[j])) <= 0
  }

  /** Sorted but for the element at j, which may belong further left. */
  ghost predicate AlmostSorted<T>(s: seq<T>, key: T -> string, j: nat) {
    && (forall p, q :: 0 <= p < q < |s| && p != j && q != j ==> Cmp(key(s[p]), key(s[q])) <= 0)
    && (forall q :: j < q < |s| ==> j < |s| && Cmp(key(s[j]), key(s[q])) <= 0)
  }

  lemma AlmostIsSorted<T>(s: seq<T>, key: T -> string, j: nat)
    requires AlmostSorted(s, key, j) && j < |s| && (j > 0 ==> Cmp(key(s[j - 1]), key(s[j])) <= 0)
    ensures Sorted(s, key)
  {
    forall p | 0 <= p < j ensures Cmp(key(s[p]), key(s[j])) <= 0 {
      if p < j - 1 { CmpTrans(key(s[p]), key(s[j - 1]), key(s[j])); }
    }
  }

  lemma SwapKeepsAlmost<T>(s: seq<T>, key: T -> string, j: nat)
    requires AlmostSorted(s, key, j) && 0 < j < |s| && Below(key(s[j]), key(s[j - 1]))
    ensures AlmostSorted(s[j := s[j - 1]][j - 1 := s[j]], key, j - 1)
  {
    var t := s[j := s[j - 1]][j - 1 := s[j]];
    forall q | j - 1 < q < |t| ensures Cmp(key(t[j - 1]), key(t[q])) <= 0 {}
  }

  /** sort.Sort over the set's Less and Swap: a sorted permutation, in place. */
  method SortByKey<T>(a: array<T>, key: T -> string)
    modifies a
    ensures Sorted(a[..], key) && multiset(a[..]) == multiset(old(a[..]))
  {
    var i := 0;
    while i < a.Length
      invariant 0 <= i <= a.Length && Sorted(a[..i], key)
      invariant multiset(a[..]) == multiset(old(a[..]))
    {
      Insert(a, key, i);
      i := i + 1;
    }
    assert a[..i] == a[..];
  }

  /** Moves a[i] left into its place in the sorted prefix. */
  method Insert<T>(a: array<T>, key: T -> string, i: nat)
    requires i < a.Length && Sorted(a[..i], key)
    modifies a
    ensures Sorted(a[..i + 1], key) && multiset(a[..]) == multiset(old(a[..]))
  {
    var j := i;
    while j > 0 && Cmp(key(a[j]), key(a[j - 1])) < 0
      invariant 0 <= j <= i && AlmostSorted(a[..i + 1], key, j)
      invariant multiset(a[..]) == multiset(old(a[..]))
    {
      ghost var s := a[..i + 1];
      SwapKeepsAlmost(s, key, j);
      Swap(a, j);
      assert a[..i + 1] == s[j := s[j - 1]][j - 1 := s[j]];
      j := j - 1;
    }
    if j > 0 { CmpSwap(key(a[j - 1]), key(a[j])); }
    AlmostIsSorted(a[..i + 1], key, j);
  }

  method Swap<T>(a: array<T>, j: nat)
    requires 0 < j < a.Length
    modifies a
    ensures a[..] == old(a[..])[j := old(a[j - 1])][j - 1 := old(a[j])]
    ensures multiset(a[..]) == multiset(old(a[..]))
  {
    a[j], a[j - 1] := a[j - 1], a[j];
  }

  // --- the merge ---

  /** Every key of `s` is below the key of t[i], if there is a t[i]. */
  ghost predicate Passed<S, T>(s: seq<S>, skey: S -> string, t: seq<T>, tkey: T -> string, i: nat) {
    i < |t| ==> forall x :: x in s ==> Below(skey(x), tkey(t[i]))
  }

  ghost predicate Apart<L, R>(removed: seq<L>, lkey: L -> string, added: seq<R>, rkey: R -> string) {
    forall x, y :: x in removed && y in added ==> lkey(x) != rkey(y)
  }

  ghost predicate Paired<L, R>(commonDB: seq<L>, lkey: L -> string, commonExt: seq<R>, rkey: R -> string) {
    |commonDB| == |commonExt| && forall k :: 0 <= k < |commonDB| ==> lkey(commonDB[k]) == rkey(commonExt[k])
  }

  /** What the diff promises: both sides are conserved as multisets, pairs share their key index by
      index, and no key is left over on both sides. */
  ghost predicate Diff<L, R>(local: seq<L>, lkey: L -> string, remote: seq<R>, rkey: R -> string,
                             removed: seq<L>, commonDB: seq<L>, commonExt: seq<R>, added: seq<R>) {
    && multiset(removed) + multiset(commonDB) == multiset(local)
    && multiset(added) + multiset(commonExt) == multiset(remote)
    && Paired(commonDB, lkey, commonExt, rkey) && Apart(removed, lkey, added, rkey)
  }

  lemma PassedNext<S, T>(s: seq<S>, skey: S -> string, t: seq<T>, tkey: T -> string, i: nat)
    requires i < |t| && Sorted(t, tkey) && Passed(s, skey, t, tkey, i)
    ensures Passed(s, skey, t, tkey, i + 1)
  {
    if i + 1 < |t| {
      forall x | x in s ensures Below(skey(x), tkey(t[i + 1])) {
        CmpTrans(skey(x), tkey(t[i]), tkey(t[i + 1]));
      }
    }
  }

  lemma PassedApart<L, R>(x: L, lkey: L -> string, added: seq<R>, rkey: R -> string)
    requires forall y :: y in added ==> Below(rkey(y), lkey(x))
    ensures forall y :: y in added ==> lkey(x) != rkey(y)
  {
    forall y | y in added ensures lkey(x) != rkey(y) { CmpEqual(rkey(y), lkey(x)); }
  }

  /** The loop's state after i local and j remote elements. */
  ghost predicate Progress<L, R>(db: seq<L>, lkey: L -> string, ext: seq<R>, rkey: R -> string, i: nat, j: nat,
                                 removed: seq<L>, commonDB: seq<L>, commonExt: seq<R>, added: seq<R>) {
    && i <= |db| && j <= |ext|
    && Diff(db[..i], lkey, ext[..j], rkey, removed, commonDB, commonExt, added)
    && Passed(removed, lkey, ext, rkey, j) && Passed(added, rkey, db, lkey, i)
  }

  lemma Snoc<T>(s: seq<T>, i: nat)
    requires i < |s|
    ensures multiset(s[..i + 1]) == multiset(s[..i]) + multiset{s[i]}
  {
    assert s[..i + 1] == s[..i] + [s[i]];
  }

  lemma TakePair<L, R>(db: seq<L>, lkey: L -> string, ext: seq<R>, rkey: R -> string, i: nat, j: nat,
                       removed: seq<L>, commonDB: seq<L>, commonExt: seq<R>, added: seq<R>)
    requires Progress(db, lkey, ext, rkey, i, j, removed, commonDB, commonExt, added)
    requires Sorted(db, lkey) && Sorted(ext, rkey) && i < |db| && j < |ext| && lkey(db[i]) == rkey(ext[j])
    ensures Progress(db, lkey, ext, rkey, i + 1, j + 1, removed, commonDB + [db[i]], commonExt + [ext[j]], added)
  {
    Snoc(db, i);
    Snoc(ext, j);
    PassedNext(removed, lkey, ext, rkey, j);
    PassedNext(added, rkey, db, lkey, i);
  }

  lemma TakeLocal<L, R>(db: seq<L>, lkey: L -> string, ext: seq<R>, rkey: R -> string, i: nat, j: nat,
                        removed: seq<L>, commonDB: seq<L>, commonExt: seq<R>, added: seq<R>)
    requires Progress(db, lkey, ext, rkey, i, j, removed, commonDB, commonExt, added)
    requires Sorted(db, lkey) && i < |db| && (j < |ext| ==> Below(lkey(db[i]), rkey(ext[j])))
    ensures Progress(db, lkey, ext, rkey, i + 1, j, removed + [db[i]], commonDB, commonExt, added)
  {
    Snoc(db, i);
    PassedApart(db[i], lkey, added, rkey);
    PassedNext(added, rkey, db, lkey, i);
  }

  lemma TakeRemote<L, R>(db: seq<L>, lkey: L -> string, ext: seq<R>, rkey: R -> string, i: nat, j: nat,
                         removed: seq<L>, commonDB: seq<L>, commonExt: seq<R>, added: seq<R>)
    requires Progress(db, lkey, ext, rkey, i, j, removed, commonDB, commonExt, added)
    requires Sorted(ext, rkey) && j < |ext| && (i < |db| ==> Below(rkey(ext[j]), lkey(db[i])))
    ensures Progress(db, lkey, ext, rkey, i, j + 1, removed, commonDB, commonExt, added + [ext[j]])
  {
    Snoc(ext, j);
    PassedApart(ext[j], rkey, removed, lkey);
    PassedNext(removed, lkey, ext, rkey, j);
  }

  /** `s` is in order, and no key of it is above that of t[i], if there is a t[i]. */
  ghost predicate Upto<T>(s: seq<T>, t: seq<T>, key: T -> string, i: nat) {
    Sorted(s, key) && (i < |t| ==> forall x :: x in s ==> Cmp(key(x), key(t[i])) <= 0)
  }

  lemma UptoNext<T>(s: seq<T>, t: seq<T>, key: T -> string, i: nat)
    requires i < |t| && Sorted(t, key) && Upto(s, t, key, i)
    ensures Upto(s, t, key, i + 1) && Upto(s + [t[i]], t, key, i + 1)
  {
    if i + 1 < |t| {
      forall x | x in s ensures Cmp(key(x), key(t[i + 1])) <= 0 { CmpTrans(key(x), key(t[i]), key(t[i + 1])); }
    }
  }

  /** The next element goes to one of the two lists made from its set. */
  lemma InOrderNext<T>(a: seq<T>, b: seq<T>, t: seq<T>, key: T -> string, i: nat)
    requires i < |t| && Sorted(t, key) && Upto(a, t, key, i) && Upto(b, t, key, i)
    ensures Upto(a, t, key, i + 1) && Upto(b, t, key, i + 1) && Upto(a + [t[i]], t, key, i + 1) && Upto(b + [t[i]], t, key, i + 1)
  {
    UptoNext(a, t, key, i);
    UptoNext(b, t, key, i);
  }

  /** The two-index loop over the sorted sets. */
  method MergeSorted<L, R>(db: array<L>, lkey: L -> string, ext: array<R>, rkey: R -> string)
    returns (removed: seq<L>, commonDB: seq<L>, commonExt: seq<R>, added: seq<R>)
    requires Sorted(db[..], lkey) && Sorted(ext[..], rkey)
    ensures Diff(db[..], lkey, ext[..], rkey, removed, commonDB, commonExt, added)
    ensures Sorted(removed, lkey) && Sorted(commonDB, lkey) && Sorted(commonExt, rkey) && Sorted(added, rkey)
  {
    removed, commonDB, commonExt, added := [], [], [], [];
    var i, j := 0, 0;
    ghost var (l, r) := (db[..], ext[..]);
    while i < db.Length || j < ext.Length
      invariant Progress(l, lkey, r, rkey, i, j, removed, commonDB, commonExt, added)
      invariant Upto(removed, l, lkey, i) && Upto(commonDB, l, lkey, i) && Upto(commonExt, r, rkey, j) && Upto(added, r, rkey, j)
      decreases db.Length - i + ext.Length - j
    {
      if i < db.Length { InOrderNext(removed, commonDB, l, lkey, i); }
      if j < ext.Length { InOrderNext(commonExt, added, r, rkey, j); }
      if i < db.Length && j < ext.Length {
        var cmp := Cmp(lkey(db[i]), rkey(ext[j]));
        CmpSwap(lkey(db[i]), rkey(ext[j]));
        CmpEqual(lkey(db[i]), rkey(ext[j]));
        if cmp == 0 {
          TakePair(l, lkey, r, rkey, i, j, removed, commonDB, commonExt, added);
          commonDB, commonExt := commonDB + [db[i]], commonExt + [ext[j]];
          i, j := i + 1, j + 1;
        } else if cmp < 0 {
          TakeLocal(l, lkey, r, rkey, i, j, removed, commonDB, commonExt, added);
          removed := removed + [db[i]];
          i := i + 1;
        } else {
          TakeRemote(l, lkey, r, rkey, i, j, removed, commonDB, commonExt, added);
          added := added + [ext[j]];
          j := j + 1;
        }
      } else if i >= db.Length {
        TakeRemote(l, lkey, r, rkey, i, j, removed, commonDB, commonExt, added);
        added := added + [ext[j]];
        j := j + 1;
      } else {
        TakeLocal(l, lkey, r, rkey, i, j, removed, commonDB, commonExt, added);
        removed := removed + [db[i]];
        i := i + 1;
      }
    }
    assert l[..i] == db[..] && r[..j] == ext[..];
  }

  /** valueSet2Array: the set as an array to be sorted. */
  method ToArray<T>(objs: seq<T>) returns (a: array<T>)
    ensures fresh(a) && a[..] == objs
  {
    a := new T[|objs|](i requires 0 <= i < |objs| => objs[i]);
  }

  /** CompareSetsByFunc. */
  method CompareSets<L, R>(local: seq<L>, lkey: L -> string, remote: seq<R>, rkey: R -> string)
    returns (removed: seq<L>, commonDB: seq<L>, commonExt: seq<R>, added: seq<R>)
    ensures Diff(local, lkey, remote, rkey, removed, commonDB, commonExt, added)
    ensures Sorted(removed, lkey) && Sorted(commonDB, lkey) && Sorted(commonExt, rkey) && Sorted(added, rkey)
  {
    var db := ToArray(local);
    var ext := ToArray(remote);
    SortByKey(db, lkey);
    SortByKey(ext, rkey);
    removed, commonDB, commonExt, added := MergeSorted(db, lkey, ext, rkey);
  }

  // --- counting keys ---

  ghost function Count<T>(s: seq<T>, key: T -> string, k: string): nat {
    if s == [] then 0 else (if key(s[0]) == k then 1 else 0) + Count(s[1..], key, k)
  }

  lemma {:induction false} CountConcat<T>(s: seq<T>, t: seq<T>, key: T -> string, k: string)
    ensures Count(s + t, key, k) == Count(s, key, k) + Count(t, key, k)
  {
    if s == [] {
      assert s + t == t;
    } else {
      CountConcat(s[1..], t, key, k);
      assert (s + t)[1..] == s[1..] + t;
    }
  }

  ghost function Without<T>(t: seq<T>, i: nat): seq<T>
    requires i < |t|
  {
    t[..i] + t[i + 1..]
  }

  lemma WithoutOne<T>(t: seq<T>, i: nat)
    requires i < |t|
    ensures multiset(t) == multiset(Without(t, i)) + multiset{t[i]}
  {
    assert t == t[..i] + [t[i]] + t[i + 1..];
  }

  lemma CountWithout<T>(t: seq<T>, i: nat, key: T -> string, k: string)
    requires i < |t|
    ensures Count(t, key, k) == Count(Without(t, i), key, k) + (if key(t[i]) == k then 1 else 0)
  {
    CountConcat(t[..i], t[i + 1..], key, k);
    CountConcat(t[..i], t[i..], key, k);
    assert t == t[..i] + t[i..] && t[i..][1..] == t[i + 1..];
  }

  /** The count of a key depends on the multiset only. */
  lemma {:induction false} CountPermuted<T>(s: seq<T>, t: seq<T>, key: T -> string, k: string)
    requires multiset(s) == multiset(t)
    ensures Count(s, key, k) == Count(t, key, k)
    decreases |s|
  {
    assert |multiset(s)| == |s| && |multiset(t)| == |t|;
    if s != [] {
      assert s[0] in multiset(t);
      var i :| 0 <= i < |t| && t[i] == s[0];
      WithoutOne(t, i);
      WithoutOne(s, 0);
      assert Without(s, 0) == s[1..];
      assert multiset(s[1..]) == multiset(s) - multiset{s[0]} && multiset(Without(t, i)) == multiset(t) - multiset{t[i]};
      CountPermuted(s[1..], Without(t, i), key, k);
      CountWithout(t, i, key, k);
    }
  }

  lemma CountSide<T>(a: seq<T>, b: seq<T>, whole: seq<T>, key: T -> string, k: string)
    requires multiset(a) + multiset(b) == multiset(whole)
    ensures Count(whole, key, k) == Count(a, key, k) + Count(b, key, k)
  {
    CountConcat(a, b, key, k);
    CountPermuted(a + b, whole, key, k);
  }

  lemma {:induction false} PairedCount<L, R>(s: seq<L>, lkey: L -> string, t: seq<R>, rkey: R -> string, k: string)
    requires Paired(s, lkey, t, rkey)
    ensures Count(s, lkey, k) == Count(t, rkey, k)
  {
    if s != [] {
      PairedCount(s[1..], lkey, t[1..], rkey, k);
    }
  }

  lemma {:induction false} CountMember<T>(s: seq<T>, key: T -> string, k: string)
    ensures Count(s, key, k) > 0 <==> exists x :: x in s && key(x) == k
  {
    if s != [] {
      CountMember(s[1..], key, k);
      assert forall x :: x in s <==> x == s[0] || x in s[1..];
    }
  }

  /** Duplicates included, each key is paired exactly min(local count, remote count) times, and only
      the excess of one side is removed or added. */
  lemma EachKeyPairedMin<L, R>(local: seq<L>, lkey: L -> string, remote: seq<R>, rkey: R -> string,
                               removed: seq<L>, commonDB: seq<L>, commonExt: seq<R>, added: seq<R>, k: string)
    requires Diff(local, lkey, remote, rkey, removed, commonDB, commonExt, added)
    ensures var (l, r) := (Count(local, lkey, k), Count(remote, rkey, k));
            && Count(commonDB, lkey, k) == Count(commonExt, rkey, k) == Min(l, r)
            && Count(removed, lkey, k) == l - Min(l, r) && Count(added, rkey, k) == r - Min(l, r)
  {
    CountSide(removed, commonDB, local, lkey, k);
    CountSide(added, commonExt, remote, rkey, k);
    PairedCount(commonDB, lkey, commonExt, rkey, k);
    CountMember(removed, lkey, k);
    CountMember(added, rkey, k);
  }

  lemma {:induction false} CountAtMostOne<T>(s: seq<T>, key: T -> string, k: string)
    requires forall i, j :: 0 <= i < j < |s| ==> !(key(s[i]) == k && key(s[j]) == k)
    ensures Count(s, key, k) <= 1
  {
    if s != [] {
      CountAtMostOne(s[1..], key, k);
      CountMember(s[1..], key, k);
    }
  }

  lemma CountTwo<T>(s: seq<T>, key: T -> string, i: nat, j: nat)
    requires i < j < |s| && key(s[i]) == key(s[j])
    ensures Count(s, key, key(s[i])) >= 2
  {
    assert s == s[..j] + s[j..];
    CountConcat(s[..j], s[j..], key, key(s[i]));
    CountMember(s[..j], key, key(s[i]));
    CountMember(s[j..], key, key(s[i]));
    assert s[i] in s[..j] && s[j] in s[j..];
  }
}

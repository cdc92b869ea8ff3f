/** The federation operations in place, each holding its locks from start to end. */
module FederationStore {
  import opened Prelude
  import opened Federation

  /** `after` lacks, for each existing object attached to c, exactly one of its joint rows on c, and nothing else. */
  ghost predicate OneEachGone(before: Joints, after: Joints, feds: set<Id>, c: Id) {
    && (forall j :: j in after ==> j in before && after[j] == before[j])
    && (forall j :: j in before && j !in after ==> before[j].cluster == c && before[j].fed in feds)
    && (forall f :: f in ObjectsOn(before, feds, c) ==> GoneFor(before, after, f, c))
    && (forall i, j, f :: Links(before, i, f, c) && Links(before, j, f, c) && i !in after && j !in after ==> i == j)
  }

  ghost predicate GoneFor(before: Joints, after: Joints, f: Id, c: Id) {
    exists j :: Links(before, j, f, c) && j !in after
  }

  /** No two rows on c share an object, and every object that has one exists. */
  ghost predicate Proper(joints: Joints, feds: set<Id>, c: Id) {
    && (forall i, j, f :: Links(joints, i, f, c) && Links(joints, j, f, c) ==> i == j)
    && (forall j, f :: Links(joints, j, f, c) ==> f in feds)
  }

  /** Deleting only the first match per object leaves no row on the cluster exactly when the rows are proper. */
  lemma PurgeExact(before: Joints, after: Joints, feds: set<Id>, c: Id)
    requires OneEachGone(before, after, feds, c)
    ensures (forall j, f :: !Links(after, j, f, c)) <==> Proper(before, feds, c)
  {
    if Proper(before, feds, c) {
      forall j, f ensures !Links(after, j, f, c) {
        if Links(before, j, f, c) { RowGone(before, after, feds, c, j); }
      }
    } else if forall j, f :: !Links(after, j, f, c) {
      assert forall j, f :: Links(before, j, f, c) ==> j !in after by {
        forall j, f | Links(before, j, f, c) ensures j !in after { assert !Links(after, j, f, c); }
      }
      assert false;
    }
  }

  lemma RowGone(before: Joints, after: Joints, feds: set<Id>, c: Id, j: int)
    requires OneEachGone(before, after, feds, c) && Proper(before, feds, c)
    requires j in before && before[j].cluster == c
    ensures j !in after
  {
    var f := before[j].fed;
    assert Links(before, j, f, c);
    assert f in ObjectsOn(before, feds, c);
    assert GoneFor(before, after, f, c);
  }

  /** In a sound table the purge therefore leaves nothing of the cluster, and dropping the cluster keeps the table sound. */
  lemma DeleteKeepsSound(s: State, after: Joints, c: Id)
    requires Keyed(s) && Sound(s) && OneEachGone(s.joints, after, s.feds, c)
    ensures forall j :: j in after <==> j in s.joints && s.joints[j].cluster != c
    ensures c !in s.purging ==> Sound(s.(joints := after, clusters := s.clusters - {c}))
  {
    assert Proper(s.joints, s.feds, c);
    PurgeExact(s.joints, after, s.feds, c);
    assert forall j :: j in after ==> Links(after, j, after[j].fed, after[j].cluster);
  }

  /** The purge has dealt with all objects on c but those in `objs`, whose rows are untouched. */
  ghost predicate PurgedSoFar(before: Joints, now: Joints, feds: set<Id>, objs: set<Id>, c: Id) {
    && objs <= ObjectsOn(before, feds, c)
    && (forall j :: j in now ==> j in before && now[j] == before[j])
    && (forall j :: j in before && j !in now ==> before[j].cluster == c && before[j].fed in feds && before[j].fed !in objs)
    && (forall f :: f in ObjectsOn(before, feds, c) && f !in objs ==> GoneFor(before, now, f, c))
    && (forall i, j, f :: Links(before, i, f, c) && Links(before, j, f, c) && i !in now && j !in now ==> i == j)
  }

  lemma StillAttached(before: Joints, now: Joints, feds: set<Id>, objs: set<Id>, f: Id, c: Id)
    requires PurgedSoFar(before, now, feds, objs, c) && f in objs
    ensures Attached(now, f, c)
  {
    var j := Match(before, f, c);
    assert Links(now, j, f, c);
  }

  lemma PurgeStep(before: Joints, now: Joints, feds: set<Id>, objs: set<Id>, f: Id, c: Id, j: int)
    requires PurgedSoFar(before, now, feds, objs, c) && f in objs && Links(now, j, f, c)
    ensures PurgedSoFar(before, now - {j}, feds, objs - {f}, c)
  {
    var next := now - {j};
    assert Links(before, j, f, c);
    forall g | g in ObjectsOn(before, feds, c) && g !in objs - {f} ensures GoneFor(before, next, g, c) {
      if g != f {
        var i :| Links(before, i, g, c) && i !in now;
        assert Links(before, i, g, c) && i !in next;
      }
    }
    forall i, k, g | Links(before, i, g, c) && Links(before, k, g, c) && i !in next && k !in next ensures i == k {
      assert i != j ==> i !in now && before[i].fed !in objs;
      assert k != j ==> k !in now && before[k].fed !in objs;
    }
  }

  /** `after` is `before` without some deletable rows of existing objects on c. */
  ghost predicate OnlyOnCluster(before: Joints, after: Joints, feds: set<Id>, c: Id, stuck: set<int>) {
    && (forall j :: j in after ==> j in before && after[j] == before[j])
    && (forall j :: j in before && j !in after ==> before[j].cluster == c && before[j].fed in feds && j !in stuck)
  }

  /** No existing object has a row on c that cannot be deleted. */
  ghost predicate NoneStuck(joints: Joints, feds: set<Id>, c: Id, stuck: set<int>) {
    forall j :: j in joints && joints[j].cluster == c && joints[j].fed in feds ==> j !in stuck
  }

  lemma AllDeletable(before: Joints, after: Joints, feds: set<Id>, c: Id, stuck: set<int>)
    requires Unique(before) && OneEachGone(before, after, feds, c) && OnlyOnCluster(before, after, feds, c, stuck)
    ensures NoneStuck(before, feds, c, stuck)
  {
    forall j | j in before && before[j].cluster == c && before[j].fed in feds ensures j !in stuck {
      assert Links(before, j, before[j].fed, c);
      assert before[j].fed in ObjectsOn(before, feds, c);
      assert GoneFor(before, after, before[j].fed, c);
    }
  }

  class FedStore {
    var feds: set<Id>
    var clusters: set<Id>
    var joints: Joints
    var next: int

    /** No operation under way. */
    function View(): State
      reads this
    {
      State(feds, clusters, joints, next, map[], map[])
    }

    constructor (feds: set<Id>, clusters: set<Id>)
      ensures View() == State(feds, clusters, map[], 0, map[], map[])
      ensures Keyed(View()) && Sound(View())
    {
      this.feds, this.clusters, this.joints, this.next := feds, clusters, map[], 0;
    }

    /** GetJointModel: the first row for the pair, whichever it is. */
    method GetJointModel(f: Id, c: Id) returns (r: Option<int>)
      ensures r == None ==> !Attached(joints, f, c)
      ensures r.Some? ==> Links(joints, r.value, f, c)
    {
      r := None;
      if Attached(joints, f, c) {
        var j :| j in joints && Links(joints, j, f, c);
        r := Some(j);
      }
    }

    /** JustAttachCluster; `inserts` says whether the database takes the row. */
    method JustAttachCluster(f: Id, c: Id, inserts: bool) returns (r: Option<int>)
      modifies this
      ensures View() == Run(old(View()), [AttachFind(f, c), AttachProbe(f), if inserts then AttachInsert(f) else AttachFail(f)])
      ensures r == if c in old(clusters) && !Attached(old(joints), f, c) && inserts then Some(old(next)) else None
      ensures joints == if r.Some? then old(joints)[old(next) := Joint(f, c, "")] else old(joints)
      ensures feds == old(feds) && clusters == old(clusters) && next == if r.Some? then old(next) + 1 else old(next)
    {
      ghost var s := View();
      RunThree(s, AttachFind(f, c), AttachProbe(f), if inserts then AttachInsert(f) else AttachFail(f));
      if c !in clusters { return None; }
      var had := GetJointModel(f, c);
      if had.Some? || !inserts { return None; }
      joints := joints[next := Joint(f, c, "")];
      r := Some(next);
      next := next + 1;
    }

    /** detachCluster; `deletes` says whether the row can be deleted. */
    method DetachCluster(f: Id, c: Id, deletes: bool) returns (ok: bool, ghost j: int)
      modifies this
      ensures FirstMatch(old(joints), f, c, j)
      ensures View() == if deletes then Step(old(View()), Detach(f, c, j)) else old(View())
      ensures ok <==> deletes || !Attached(old(joints), f, c)
      ensures old(Unique(joints)) ==> (ok <==> !Attached(joints, f, c))
      ensures joints == if deletes && Attached(old(joints), f, c) then old(joints) - {j} else old(joints)
      ensures feds == old(feds) && clusters == old(clusters) && next == old(next)
    {
      var r := GetJointModel(f, c);
      ok, j := true, 0;
      if r.Some? {
        j := r.value;
        ok := deletes;
        if deletes {
          joints := joints - {r.value};
          assert forall i :: Links(joints, i, f, c) ==> Links(old(joints), i, f, c);
        }
      }
    }

    /** ValidateDeleteCondition, then the delete. */
    method DeleteFed(f: Id) returns (ok: bool)
      modifies this
      ensures View() == Step(old(View()), Federation.DeleteFed(f))
      ensures ok <==> forall j :: j in old(joints) && old(joints)[j].fed == f ==> old(joints)[j].cluster !in old(clusters)
      ensures feds == (if ok then old(feds) - {f} else old(feds)) && joints == old(joints) && clusters == old(clusters)
    {
      ok := AttachedClusters(joints, clusters, f) == {};
      assert forall j :: j in joints && joints[j].fed == f && joints[j].cluster in clusters ==>
        joints[j].cluster in AttachedClusters(joints, clusters, f);
      if ok { feds := feds - {f}; }
    }

    /** PurgeAllByCluster: the objects are queried once, then each loses its first row; rows in `stuck` cannot be deleted. */
    method PurgeAllByCluster(c: Id, stuck: set<int>) returns (ok: bool)
      modifies this`joints
      ensures ok ==> OneEachGone(old(joints), joints, feds, c)
      ensures !ok ==> exists j :: j in stuck && j in joints && joints[j].cluster == c && joints[j].fed in feds
      ensures OnlyOnCluster(old(joints), joints, feds, c, stuck)
      ensures Unique(old(joints)) ==> (ok <==> NoneStuck(old(joints), feds, c, stuck))
    {
      var objs := ObjectsOn(joints, feds, c);
      while objs != {}
        invariant PurgedSoFar(old(joints), joints, feds, objs, c) && OnlyOnCluster(old(joints), joints, feds, c, stuck)
        decreases |objs|
      {
        var f := AnyOf(objs);
        StillAttached(old(joints), joints, feds, objs, f, c);
        var r := GetJointModel(f, c);
        if r.value in stuck {
          assert Links(old(joints), r.value, f, c);
          return false;
        }
        PurgeStep(old(joints), joints, feds, objs, f, c, r.value);
        joints := joints - {r.value};
        objs := objs - {f};
      }
      ok := true;
      if Unique(old(joints)) { AllDeletable(old(joints), joints, feds, c, stuck); }
    }

    /** RealDelete, as far as the federation is concerned; `drops` says whether the cluster row itself goes. */
    method RealDelete(c: Id, stuck: set<int>, drops: bool) returns (ok: bool)
      modifies this
      ensures feds == old(feds) && next == old(next)
      ensures clusters == if ok then old(clusters) - {c} else old(clusters)
      ensures ok ==> drops && OneEachGone(old(joints), joints, feds, c)
      ensures !ok ==> !drops || exists j :: j in stuck && j in joints && joints[j].cluster == c && joints[j].fed in feds
      ensures OnlyOnCluster(old(joints), joints, feds, c, stuck)
      ensures Unique(old(joints)) ==> (ok <==> drops && NoneStuck(old(joints), feds, c, stuck))
      ensures old(Keyed(View()) && Sound(View())) && ok ==>
        Sound(View()) && forall j :: j in joints <==> j in old(joints) && old(joints)[j].cluster != c
    {
      ghost var s := View();
      ok := PurgeAllByCluster(c, stuck);
      if !ok { return; }
      if !drops { return false; }
      clusters := clusters - {c};
      if Keyed(s) && Sound(s) { DeleteKeepsSound(s, joints, c); }
    }
  }
}

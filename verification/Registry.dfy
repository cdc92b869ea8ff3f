/** The registry of live cluster clients (pkg/client/manager.go) and the health check (pkg/models/clusters.go). */
module Registry {
  import opened Prelude

  type Id = string

  /** A built client, named by its place in the order of building; closing it twice would close a channel twice. */
  datatype Client = Client(owner: Id, closes: nat)

  /** Who holds the action lock: nobody, an add that is building, or a remove that has yet to close. */
  datatype Lock = Free | Building(id: Id) | Closing(client: nat)

  datatype State = State(entries: map<Id, nat>, clients: seq<Client>, lock: Lock)

  datatype Label =
    | AddBegin(id: Id, running: bool)
    | AddDone
    | AddFail
    | RemoveBegin(id: Id)
    | RemoveClose

  const Init := State(map[], [], Free)

  /** One atomic step; a step that cannot be taken leaves the state alone. */
  function Step(s: State, l: Label): State {
    match l
    case AddBegin(id, running) => if s.lock == Free && running && id !in s.entries then s.(lock := Building(id)) else s
    case AddDone =>
      if s.lock.Building? then
        State(s.entries[s.lock.id := |s.clients|], s.clients + [Client(s.lock.id, 0)], Free)
      else s
    case AddFail => if s.lock.Building? then s.(lock := Free) else s
    case RemoveBegin(id) =>
      if s.lock == Free && id in s.entries then s.(entries := s.entries - {id}, lock := Closing(s.entries[id])) else s
    case RemoveClose =>
      if s.lock.Closing? && s.lock.client < |s.clients| then
        var c := s.clients[s.lock.client];
        s.(clients := s.clients[s.lock.client := c.(closes := c.closes + 1)], lock := Free)
      else s
  }

  function Run(s: State, ls: seq<Label>): State
    decreases |ls|
  {
    if ls == [] then s else Run(Step(s, ls[0]), ls[1..])
  }

  /** getManager, which takes only the inner lock and so can fall between any two steps. */
  function Lookup(s: State, id: Id): Option<nat> { if id in s.entries then Some(s.entries[id]) else None }

  predicate Live(s: State, i: nat)
    requires i < |s.clients|
  {
    s.clients[i].owner in s.entries && s.entries[s.clients[i].owner] == i
  }

  predicate Leaving(s: State, i: nat) { s.lock == Closing(i) }

  /** Entries are keyed by their own client's cluster; a client is open while it is in the map or being
      taken out of it, and has been closed exactly once otherwise. */
  ghost predicate Inv(s: State) {
    && (forall c :: c in s.entries ==> s.entries[c] < |s.clients| && s.clients[s.entries[c]].owner == c)
    && (forall i :: 0 <= i < |s.clients| ==>
      && !(Live(s, i) && Leaving(s, i))
      && s.clients[i].closes == if Live(s, i) || Leaving(s, i) then 0 else 1)
    && (s.lock.Building? ==> s.lock.id !in s.entries)
    && (s.lock.Closing? ==> s.lock.client < |s.clients|)
  }

  /** `t` is later than `s`: no entry was overwritten by the step, no client reopened or forgotten. */
  ghost predicate Advanced(s: State, t: State) {
    && |s.clients| <= |t.clients|
    && (forall i :: 0 <= i < |s.clients| ==>
      t.clients[i].owner == s.clients[i].owner && s.clients[i].closes <= t.clients[i].closes)
    && (forall i :: 0 <= i < |s.clients| && Live(t, i) ==> Live(s, i))
  }

  lemma StepKeeps(s: State, l: Label)
    requires Inv(s)
    ensures Inv(Step(s, l)) && Advanced(s, Step(s, l))
    ensures forall c :: c in s.entries && c in Step(s, l).entries ==> Step(s, l).entries[c] == s.entries[c]
  {
    match l {
      case AddDone =>
      case RemoveBegin(id) =>
      case RemoveClose =>
      case _ =>
    }
  }

  /** Over every run: the invariant holds at the end, and a client once out of the map never comes back. */
  lemma {:induction false} RunKeeps(s: State, ls: seq<Label>)
    requires Inv(s)
    ensures Inv(Run(s, ls)) && Advanced(s, Run(s, ls))
    decreases |ls|
  {
    if ls != [] {
      StepKeeps(s, ls[0]);
      RunKeeps(Step(s, ls[0]), ls[1..]);
    }
  }

  /** Hence, in every run from the start: no client is closed twice, a lookup never returns a closed one or
      one of another cluster, and between operations a client is closed exactly when it has left the map. */
  lemma ClosedOnce(ls: seq<Label>, i: nat, id: Id)
    requires i < |Run(Init, ls).clients|
    ensures var s := Run(Init, ls);
      && s.clients[i].closes <= 1
      && (s.lock == Free ==> (s.clients[i].closes == 1 <==> !Live(s, i)))
      && (Lookup(s, id) == Some(i) ==> s.clients[i] == Client(id, 0))
      && (Live(s, i) ==> Lookup(s, s.clients[i].owner) == Some(i))
  {
    RunKeeps(Init, ls);
  }

  lemma {:induction false} RunConcat(s: State, a: seq<Label>, b: seq<Label>)
    ensures Run(s, a + b) == Run(Run(s, a), b)
    decreases |a|
  {
    if a == [] {
      assert a + b == b;
    } else {
      RunConcat(Step(s, a[0]), a[1..], b);
      assert (a + b)[1..] == a[1..] + b;
    }
  }

  /** A client seen closed, or out of the map, is never again returned by a lookup, however the run goes on. */
  lemma GoneForGood(ls: seq<Label>, more: seq<Label>, i: nat, id: Id)
    requires i < |Run(Init, ls).clients| && !Live(Run(Init, ls), i)
    ensures Lookup(Run(Init, ls + more), id) != Some(i)
  {
    RunKeeps(Init, ls);
    RunKeeps(Run(Init, ls), more);
    RunConcat(Init, ls, more);
    var t := Run(Init, ls + more);
    assert id in t.entries && t.entries[id] == i ==> Live(t, i);
  }

  // --- the operations in place ---

  function AddLabels(id: Id, running: bool, builds: bool): seq<Label> {
    [AddBegin(id, running), if builds then AddDone else AddFail]
  }

  function RemoveLabels(id: Id): seq<Label> { [RemoveBegin(id), RemoveClose] }

  lemma RunTwo(s: State, a: Label, b: Label)
    ensures Run(s, [a, b]) == Step(Step(s, a), b)
  {
    assert [a, b][1..] == [b] && [b][1..] == [];
    assert Run(Step(s, a), [b]) == Step(Step(s, a), b);
  }

  ghost predicate SameBut(a: map<Id, nat>, b: map<Id, nat>, id: Id) {
    forall k :: k != id ==> (k in a <==> k in b) && (k in a ==> a[k] == b[k])
  }

  class ClustersManager {
    var entries: map<Id, nat>
    var clients: seq<Client>

    /** No operation under way. */
    ghost function View(): State
      reads this
    {
      State(entries, clients, Free)
    }

    constructor ()
      ensures View() == Init && Inv(View())
    {
      entries, clients := map[], [];
    }

    method AddClient(id: Id, running: bool, builds: bool) returns (ok: bool)
      requires Inv(View())
      modifies this
      ensures Inv(View()) && View() == Run(old(View()), AddLabels(id, running, builds))
      ensures ok <==> running && id !in old(entries) && builds
      ensures ok ==> id in entries && entries[id] == old(|clients|)
      ensures !ok ==> entries == old(entries) && clients == old(clients)
      ensures SameBut(old(entries), entries, id)
    {
      ghost var s := View();
      RunTwo(s, AddBegin(id, running), if builds then AddDone else AddFail);
      RunKeeps(s, AddLabels(id, running, builds));
      if !running { return false; }
      if id in entries { return false; }
      if !builds { return false; }
      entries := entries[id := |clients|];
      clients := clients + [Client(id, 0)];
      ok := true;
    }

    method RemoveClient(id: Id)
      requires Inv(View())
      modifies this
      ensures Inv(View()) && View() == Run(old(View()), RemoveLabels(id))
      ensures id !in entries && SameBut(old(entries), entries, id)
    {
      ghost var s := View();
      RunTwo(s, RemoveBegin(id), RemoveClose);
      RunKeeps(s, RemoveLabels(id));
      if id !in entries { return; }
      var i := entries[id];
      entries := entries - {id};
      clients := clients[i := clients[i].(closes := clients[i].closes + 1)];
    }

    method UpdateClient(id: Id, running: bool, builds: bool) returns (ok: bool)
      requires Inv(View())
      modifies this
      ensures Inv(View()) && View() == Run(old(View()), RemoveLabels(id) + AddLabels(id, running, builds))
      ensures ok <==> running && builds
      ensures id in entries <==> ok
      ensures SameBut(old(entries), entries, id)
    {
      RunConcat(View(), RemoveLabels(id), AddLabels(id, running, builds));
      RemoveClient(id);
      ok := AddClient(id, running, builds);
    }
  }

  // --- the health check ---

  const RUNNING := "running"
  const LOST := "lost"

  /** What a pass meets: who answers, whose client builds, whose status can be written, and whose can be written
      back after a client that did not build. */
  datatype World = World(healthy: set<Id>, builds: set<Id>, writable: set<Id>, restorable: set<Id>)

  /** A cluster's status and its client, if it has one. */
  datatype Seen = Seen(status: string, client: Option<nat>)

  /** How a pass may leave a cluster. */
  predicate After(id: Id, before: Seen, after: Seen, w: World) {
    if id !in w.healthy then after == Seen(if id in w.writable then LOST else before.status, None)
    else if before.status == RUNNING then after == before
    else if id in w.writable && id in w.builds then after.status == RUNNING && after.client.Some?
    else if id in w.writable && id !in w.restorable then after == Seen(RUNNING, None)
    else after == Seen(before.status, None)
  }

  /** After its check a cluster has a client only if it answered and is running; one that did not answer has none and
      is lost if that could be written; one that is running has a client, unless it was running without one before
      or its old status could not be written back. */
  lemma CheckedMeans(id: Id, before: Seen, after: Seen, w: World)
    requires After(id, before, after, w)
    ensures after.client.Some? ==> id in w.healthy && after.status == "running"
    ensures id !in w.healthy ==> after.client.None? && after.status == if id in w.writable then "lost" else before.status
    ensures id in w.healthy && before.status == "running" ==> after == before
    ensures id in w.healthy && before.status != "running" ==>
      && (after.client.Some? <==> id in w.writable && id in w.builds)
      && (after.status == "running" <==> id in w.writable && (id in w.builds || id !in w.restorable))
      && (after.status != "running" ==> after.status == before.status)
  {}

  class ClusterTable {
    var status: map<Id, string>
    const registry: ClustersManager

    constructor (status: map<Id, string>, registry: ClustersManager)
      ensures this.status == status && this.registry == registry
    {
      this.status, this.registry := status, registry;
    }

    function Get(id: Id): Seen
      requires id in status
      reads this, registry
    {
      Seen(status[id], if id in registry.entries then Some(registry.entries[id]) else None)
    }

    /** The loop body, for one cluster. */
    method Check(id: Id, w: World)
      requires Inv(registry.View()) && id in status
      modifies this, registry
      ensures Inv(registry.View()) && status.Keys == old(status.Keys)
      ensures After(id, old(Get(id)), Get(id), w)
      ensures forall k :: k in status && k != id ==> Get(k) == old(Get(k))
    {
      ghost var was := registry.entries;
      if id in w.healthy {
        var prev := status[id];
        if prev != RUNNING {
          var current := prev;
          if id in w.writable {
            status := status[id := RUNNING];
            current := RUNNING;
          }
          var ok := registry.UpdateClient(id, current == RUNNING, id in w.builds);
          if !ok && id in w.restorable { status := status[id := prev]; }
        }
      } else {
        if id in w.writable { status := status[id := LOST]; }
        registry.RemoveClient(id);
      }
      assert SameBut(was, registry.entries, id);
    }

    /** ClusterHealthCheckTask over the clusters listed as running or lost. */
    method ClusterHealthCheckTask(listed: seq<Id>, w: World)
      requires Inv(registry.View())
      requires forall i :: 0 <= i < |listed| ==> listed[i] in status
      requires forall i, j :: 0 <= i < j < |listed| ==> listed[i] != listed[j]
      modifies this, registry
      ensures Inv(registry.View()) && status.Keys == old(status.Keys)
      ensures forall i :: 0 <= i < |listed| ==> After(listed[i], old(Get(listed[i])), Get(listed[i]), w)
      ensures forall k :: k in status && k !in listed ==> Get(k) == old(Get(k))
    {
      for n := 0 to |listed|
        invariant Inv(registry.View()) && status.Keys == old(status.Keys)
        invariant forall i :: 0 <= i < n ==> After(listed[i], old(Get(listed[i])), Get(listed[i]), w)
        invariant forall i :: n <= i < |listed| ==> Get(listed[i]) == old(Get(listed[i]))
        invariant forall k :: k in status && k !in listed ==> Get(k) == old(Get(k))
      {
        Check(listed[n], w);
      }
    }
  }
}

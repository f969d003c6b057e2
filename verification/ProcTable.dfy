/**
 The two-level table of opal_hash_table.c: a hash table per jobid, each from vpids to values.
 */
module ProcTable {
  import opened HashTable

  datatype Name = Name(jobid: nat, vpid: nat)

  class Procs<V> {
    const jobs: Table<Table<V>>
    const vpids: nat

    /** The objects of the table. */
    ghost function Inner(): set<object>
      reads this, jobs
    {
      set j | j in jobs.m :: jobs.m[j]
    }

    /** Inner tables are valid and belong to one job each. */
    ghost predicate Linked()
      reads this, jobs, Inner()
    {
      && jobs.Valid()
      && (forall j :: j in jobs.m ==> jobs.m[j].Valid() && (jobs.m[j] as object) != jobs)
      && (forall i, j :: i in jobs.m && j in jobs.m && i != j ==> jobs.m[i] != jobs.m[j])
    }

    /** In addition none of them is empty. */
    ghost predicate Valid()
      reads this, jobs, Inner()
    {
      Linked() && NoEmpty(View())
    }

    /** The map of maps the table stands for. */
    ghost function View(): map<nat, map<nat, V>>
      reads this, jobs, Inner()
    {
      map j | j in jobs.m :: jobs.m[j].m
    }

    /** opal_proc_table_init. */
    constructor (jobids: nat, vpids: nat)
      ensures Valid() && fresh(jobs) && Inner() == {} && View() == map[]
    {
      this.vpids := vpids;
      jobs := new Table(jobids, 1, 2, 2, 1);
    }

    /** opal_proc_table_get_value. */
    method Get(key: Name) returns (r: Option<V>)
      requires Valid()
      ensures r == Find(View(), key)
    {
      hide Part, Rounded, Reachable, Unique, Models, Count;
      var t := jobs.Get(key.jobid);
      if t.None? { return None; }
      r := t.value.Get(key.vpid);
    }

    /** A job gets a table. */
    method AddJob(j: nat, inner: Table<V>)
      requires Linked() && j !in jobs.m && inner.Valid() && inner !in Inner() && (inner as object) != jobs
      modifies jobs
      ensures Linked() && jobs.m == old(jobs.m)[j := inner] && View() == old(View())[j := inner.m]
    {
      hide Part, Rounded, Reachable, Unique, Models, Count, View, Table.Valid, Table.Shape;
      ghost var v, before := View(), jobs.m;
      ViewAll();
      assert forall i :: i in before ==> before[i] in Inner() && before[i].m == v[i] && before[i] != inner;
      jobs.Set(j, inner);
      forall i | i in jobs.m
        ensures jobs.m[i].Valid() && (jobs.m[i] as object) != jobs && jobs.m[i].m == v[j := inner.m][i]
      {
        assert i != j ==> jobs.m[i] == before[i];
      }
      ViewAll();
      assert View().Keys == v[j := inner.m].Keys;
    }

    /** A job loses its table. */
    method DropJob(j: nat)
      requires Linked() && j in jobs.m
      modifies jobs
      ensures Linked() && jobs.m == old(jobs.m) - {j} && View() == old(View()) - {j}
    {
      hide Part, Rounded, Reachable, Unique, Models, Count;
      var gone := jobs.Remove(j);
    }

    /** A value in the table of a job. */
    method SetIn(j: nat, inner: Table<V>, vpid: nat, value: V)
      requires Linked() && j in jobs.m && inner == jobs.m[j]
      modifies inner
      ensures Linked() && jobs.m == old(jobs.m) && View() == old(View())[j := old(inner.m)[vpid := value]]
    {
      hide Part, Rounded, Reachable, Unique, Models, Count;
      inner.Set(vpid, value);
    }

    method RemoveIn(j: nat, inner: Table<V>, vpid: nat) returns (found: bool)
      requires Linked() && j in jobs.m && inner == jobs.m[j]
      modifies inner
      ensures Linked() && jobs.m == old(jobs.m) && View() == old(View())[j := old(inner.m) - {vpid}]
      ensures (found <==> vpid in old(inner.m)) && inner.m == old(inner.m) - {vpid}
      ensures (inner.size == 0 <==> inner.m == map[])
    {
      hide Part, Rounded, Reachable, Unique, Models, Count;
      found := inner.Remove(vpid);
    }

    /** opal_proc_table_set_value. */
    method Set(key: Name, value: V)
      requires Valid()
      modifies jobs, Inner()
      ensures Valid() && fresh(Inner() - old(Inner())) && View() == Put(old(View()), key, value)
    {
      hide Linked, View, Reachable, Unique, Models, Count, NoEmpty;
      LinkedJobs();
      ViewAt(key.jobid);
      ghost var v := View();
      var t := jobs.Get(key.jobid);
      var inner: Table<V>;
      if t.None? {
        inner := new Table(vpids, 1, 2, 2, 1);
        AddJob(key.jobid, inner);
      } else {
        inner := t.value;
      }
      ghost var im := inner.m;
      assert im == if key.jobid in v then v[key.jobid] else map[];
      SetIn(key.jobid, inner, key.vpid, value);
      assert View() == v[key.jobid := im[key.vpid := value]];
      PutNoEmpty(v, key, value);
    }

    /** opal_proc_table_remove_value. */
    method Remove(key: Name) returns (found: bool)
      requires Valid()
      modifies jobs, Inner()
      ensures Valid() && Inner() <= old(Inner())
      ensures (found <==> old(Find(View(), key)).Some?) && View() == Drop(old(View()), key)
    {
      hide Linked, View, Reachable, Unique, Models, Count, NoEmpty;
      LinkedJobs();
      ViewAt(key.jobid);
      ghost var v := View();
      var t := jobs.Get(key.jobid);
      if t.None? { return false; }
      ghost var im := t.value.m;
      found := RemoveIn(key.jobid, t.value, key.vpid);
      assert View() == v[key.jobid := im - {key.vpid}];
      if !found {
        assert im - {key.vpid} == im;
      }
      ghost var w := View();
      if found && t.value.size == 0 {
        DropJob(key.jobid);
        assert w - {key.jobid} == v - {key.jobid};
      }
      assert View() == Drop(v, key);
      DropNoEmpty(v, key);
    }

    /** A stored pair: the job in slot i of the outer table, the vpid in slot k of its table. */
    ghost predicate Stored(i: nat, k: nat)
      reads this, jobs, Inner()
      requires Linked()
    {
      i < |jobs.slots| && jobs.slots[i].Full? && k < |SlotTable(i).slots| && SlotTable(i).slots[k].Full?
    }

    ghost function SlotTable(i: nat): (t: Table<V>)
      reads this, jobs, Inner()
      requires Linked() && i < |jobs.slots| && jobs.slots[i].Full?
      ensures t in Inner() && t.Valid()
    {
      jobs.slots[i].val
    }

    /** opal_proc_table_get_first_key. */
    method First() returns (found: bool, key: Name, value: Option<V>, node1: nat, node2: nat)
      requires Valid()
      ensures found ==> Stored(node1, node2) && forall i: nat, k: nat :: Stored(i, k) ==> !Earlier(i, k, node1, node2)
      ensures found ==>
                && key == Name(jobs.slots[node1].key, SlotTable(node1).slots[node2].key)
                && value == Some(SlotTable(node1).slots[node2].val)
      ensures !found ==> forall i: nat, k: nat :: !Stored(i, k)
    {
      found, key, value, node1, node2 := FirstFrom(0);
    }

    /** The first pair of the jobs from an outer slot on. */
    method FirstFrom(from: nat) returns (found: bool, key: Name, value: Option<V>, node1: nat, node2: nat)
      requires Valid() && from <= |jobs.slots|
      ensures found ==>
                && Stored(node1, node2) && from <= node1
                && forall i: nat, k: nat :: Stored(i, k) && from <= i ==> !Earlier(i, k, node1, node2)
      ensures found ==>
                && key == Name(jobs.slots[node1].key, SlotTable(node1).slots[node2].key)
                && value == Some(SlotTable(node1).slots[node2].val)
      ensures !found ==> forall i: nat, k: nat :: from <= i ==> !Stored(i, k)
    {
      hide Table.Shape;
      key, value, node2 := Name(0, 0), None, 0;
      found, node1 := jobs.NextFrom(from);
      if found {
        var inner := jobs.slots[node1].val;
        JobNonEmpty(node1);
        found, node2 := inner.NextFrom(0);
        key, value := Name(jobs.slots[node1].key, inner.slots[node2].key), Some(inner.slots[node2].val);
      }
    }

    /** opal_proc_table_get_next_key. */
    method Next(in1: nat, in2: nat) returns (found: bool, key: Name, value: Option<V>, node1: nat, node2: nat)
      requires Valid() && Stored(in1, in2)
      ensures found ==> Stored(node1, node2) && Earlier(in1, in2, node1, node2)
      ensures found ==>
                forall i: nat, k: nat :: Stored(i, k) && Earlier(in1, in2, i, k) ==> !Earlier(i, k, node1, node2)
      ensures found ==>
                && key == Name(jobs.slots[node1].key, SlotTable(node1).slots[node2].key)
                && value == Some(SlotTable(node1).slots[node2].val)
      ensures !found ==> forall i: nat, k: nat :: Stored(i, k) ==> !Earlier(in1, in2, i, k)
    {
      hide Reachable, Unique, Count;
      var inner := jobs.slots[in1].val;
      node1 := in1;
      found, node2 := inner.NextFrom(in2 + 1);
      if found {
        key, value := Name(jobs.slots[in1].key, inner.slots[node2].key), Some(inner.slots[node2].val);
      } else {
        found, key, value, node1, node2 := FirstFrom(in1 + 1);
      }
    }

    /** The name stored at a pair of slots. */
    ghost function NameAt(n: (nat, nat)): Name
      reads this, jobs, Inner()
      requires Linked() && Stored(n.0, n.1)
    {
      Name(jobs.slots[n.0].key, SlotTable(n.0).slots[n.1].key)
    }

    /** The slots visited so far, in order, with their names; (i, k) is next if there is one. */
    ghost predicate Visited(nodes: seq<(nat, nat)>, names: seq<Name>, more: bool, i: nat, k: nat)
      reads this, jobs, Inner()
    {
      && Linked() && |nodes| == |names|
      && (forall x :: 0 <= x < |nodes| ==> Stored(nodes[x].0, nodes[x].1) && names[x] == NameAt(nodes[x]))
      && (forall x, y :: 0 <= x < y < |nodes| ==> Earlier(nodes[x].0, nodes[x].1, nodes[y].0, nodes[y].1))
      && (more ==> Stored(i, k) && forall x :: 0 <= x < |nodes| ==> Earlier(nodes[x].0, nodes[x].1, i, k))
      && (forall a: nat, b: nat :: Stored(a, b) ==> (a, b) in nodes || (more && !Earlier(a, b, i, k)))
    }

    /** A whole iteration: first, then next until there is none. */
    method AllNames() returns (names: seq<Name>)
      requires Valid()
      ensures forall i, j :: 0 <= i < j < |names| ==> names[i] != names[j]
      ensures forall n :: n in names <==> Find(View(), n).Some?
    {
      hide Table.Shape, Find, View, Visited;
      names := [];
      ghost var nodes: seq<(nat, nat)> := [];
      var found, key, value, n1, n2 := First();
      StartVisit(found, n1, n2);
      while found
        invariant Visited(nodes, names, found, n1, n2) && (found ==> Stored(n1, n2) && key == NameAt((n1, n2)))
        decreases if found then |jobs.slots| - n1 else -1, if found then |SlotTable(n1).slots| - n2 else 0
      {
        ghost var i, k := n1, n2;
        var n := key;
        found, key, value, n1, n2 := Next(n1, n2);
        VisitStep(nodes, names, i, k, found, n1, n2);
        names, nodes := names + [n], nodes + [(i, k)];
      }
      VisitDone(nodes, names, n1, n2);
    }

    lemma StartVisit(found: bool, n1: nat, n2: nat)
      requires Linked()
      requires (found ==> Stored(n1, n2) && forall i: nat, k: nat :: Stored(i, k) ==> !Earlier(i, k, n1, n2))
      requires !found ==> forall i: nat, k: nat :: !Stored(i, k)
      ensures Visited([], [], found, n1, n2)
    {
    }

    lemma VisitStep(nodes: seq<(nat, nat)>, names: seq<Name>, i: nat, k: nat, found: bool, n1: nat, n2: nat)
      requires Visited(nodes, names, true, i, k)
      requires found ==>
                && Stored(n1, n2) && Earlier(i, k, n1, n2)
                && forall a: nat, b: nat :: Stored(a, b) && Earlier(i, k, a, b) ==> !Earlier(a, b, n1, n2)
      requires !found ==> forall a: nat, b: nat :: Stored(a, b) ==> !Earlier(i, k, a, b)
      ensures Visited(nodes + [(i, k)], names + [NameAt((i, k))], found, n1, n2)
    {
      hide Table.Shape, Table.Valid;
    }

    lemma VisitDone(nodes: seq<(nat, nat)>, names: seq<Name>, i: nat, k: nat)
      requires Visited(nodes, names, false, i, k)
      ensures forall x, y :: 0 <= x < y < |names| ==> names[x] != names[y]
      ensures forall n :: n in names <==> Find(View(), n).Some?
    {
      hide Table.Shape, Table.Valid, Find, View;
      NamesDistinct(nodes, names);
      NamesComplete(nodes, names);
    }

    lemma NamesDistinct(nodes: seq<(nat, nat)>, names: seq<Name>)
      requires Linked() && |nodes| == |names|
      requires forall i :: 0 <= i < |nodes| ==> Stored(nodes[i].0, nodes[i].1) && names[i] == NameAt(nodes[i])
      requires forall i, j :: 0 <= i < j < |nodes| ==> Earlier(nodes[i].0, nodes[i].1, nodes[j].0, nodes[j].1)
      ensures forall i, j :: 0 <= i < j < |names| ==> names[i] != names[j]
    {
      hide Reachable, Models, Count;
      forall i, j | 0 <= i < j < |names| ensures names[i] != names[j] {
        assert SlotTable(nodes[i].0).Valid() && SlotTable(nodes[j].0).Valid();
      }
    }

    lemma NamesComplete(nodes: seq<(nat, nat)>, names: seq<Name>)
      requires Linked() && |nodes| == |names|
      requires forall i :: 0 <= i < |nodes| ==> Stored(nodes[i].0, nodes[i].1) && names[i] == NameAt(nodes[i])
      requires forall i: nat, k: nat :: Stored(i, k) ==> (i, k) in nodes
      ensures forall n :: n in names <==> Find(View(), n).Some?
    {
      hide Linked, Stored, View, Find, Table.Shape, Table.Valid;
      forall n ensures n in names <==> Find(View(), n).Some? {
        if n in names {
          var i :| 0 <= i < |names| && names[i] == n;
          NamedThere(nodes[i].0, nodes[i].1);
        }
        if Find(View(), n).Some? {
          var i, k := SlotsOf(n);
          var x :| 0 <= x < |nodes| && nodes[x] == (i, k);
          assert names[x] == n;
        }
      }
    }

    lemma NamedThere(i: nat, k: nat)
      requires Linked() && Stored(i, k)
      ensures Find(View(), NameAt((i, k))).Some?
    {
      hide Reachable, Unique, Count;
      ViewAt(jobs.slots[i].key);
      assert SlotTable(i).Valid();
    }

    lemma SlotsOf(n: Name) returns (i: nat, k: nat)
      requires Linked() && Find(View(), n).Some?
      ensures Stored(i, k) && NameAt((i, k)) == n
    {
      hide Reachable, Unique, Count;
      ViewAt(n.jobid);
      i :| 0 <= i < |jobs.slots| && jobs.slots[i].Full? && jobs.slots[i].key == n.jobid;
      var t := jobs.m[n.jobid];
      assert t.Valid();
      k :| 0 <= k < |t.slots| && t.slots[k].Full? && t.slots[k].key == n.vpid;
    }

    /** A slot that is in use belongs to a table that is not empty. */
    lemma JobNonEmpty(i: nat)
      requires Valid() && i < |jobs.slots| && jobs.slots[i].Full?
      ensures jobs.slots[i].val in Inner() && exists k: nat :: Stored(i, k)
    {
      hide Reachable, Unique, Count;
      var inner := jobs.slots[i].val;
      ViewAt(jobs.slots[i].key);
      var v :| v in inner.m;
      var k :| 0 <= k < |inner.slots| && inner.slots[k].Full? && inner.slots[k].key == v;
      assert Stored(i, k);
    }

    lemma LinkedJobs()
      requires Linked()
      ensures jobs.Valid()
    {
    }

    lemma ViewAll()
      ensures View().Keys == jobs.m.Keys && forall j :: j in jobs.m ==> View()[j] == jobs.m[j].m
    {
    }

    lemma ViewAt(j: nat)
      ensures j in jobs.m <==> j in View()
      ensures j in jobs.m ==> View()[j] == jobs.m[j].m
    {
    }
  }

  ghost predicate NoEmpty<V>(v: map<nat, map<nat, V>>) { forall j :: j in v ==> v[j] != map[] }

  lemma PutNoEmpty<V>(v: map<nat, map<nat, V>>, key: Name, value: V)
    requires NoEmpty(v)
    ensures NoEmpty(Put(v, key, value))
  {
    assert key.vpid in Put(v, key, value)[key.jobid];
  }

  lemma DropNoEmpty<V>(v: map<nat, map<nat, V>>, key: Name)
    requires NoEmpty(v)
    ensures NoEmpty(Drop(v, key))
  {
  }

  /** Pairs are visited in the order of their outer and inner slots. */
  predicate Earlier(i: nat, k: nat, i': nat, k': nat) { i < i' || (i == i' && k < k') }

  function Find<V>(v: map<nat, map<nat, V>>, key: Name): Option<V> {
    if key.jobid in v && key.vpid in v[key.jobid] then Some(v[key.jobid][key.vpid]) else None
  }

  /** A value stored for a name. */
  function Put<V>(v: map<nat, map<nat, V>>, key: Name, value: V): map<nat, map<nat, V>> {
    v[key.jobid := (if key.jobid in v then v[key.jobid] else map[])[key.vpid := value]]
  }

  /** A name removed, and its job with it if that was the last one. */
  function Drop<V>(v: map<nat, map<nat, V>>, key: Name): map<nat, map<nat, V>> {
    if Find(v, key).None? then v
    else if v[key.jobid] - {key.vpid} == map[] then v - {key.jobid}
    else v[key.jobid := v[key.jobid] - {key.vpid}]
  }

  lemma DropLaw<V>(v: map<nat, map<nat, V>>, key: Name, n: Name)
    ensures Find(Drop(v, key), n) == if n == key then None else Find(v, n)
  {
    if key.jobid in v && key.vpid in v[key.jobid] {
      var rest := v[key.jobid] - {key.vpid};
      if n.jobid == key.jobid && n.vpid != key.vpid && n.vpid in v[key.jobid] {
        assert n.vpid in rest;
      }
    }
  }

  /** Get after Set and after Remove: the table is a map on pairs. */
  lemma MapLaws<V>(v: map<nat, map<nat, V>>, key: Name, value: V, n: Name)
    ensures Find(Put(v, key, value), n) == if n == key then Some(value) else Find(v, n)
    ensures Find(Drop(v, key), n) == if n == key then None else Find(v, n)
  {
    DropLaw(v, key, n);
  }
}

/**
 Whole runs of the hash table and of the table of process names: every sequence of operations answers as a
 finite map does.
 */
module TableRuns {
  import opened HashTable
  import P = ProcTable

  datatype Operation<K, V> = Set(key: K, val: V) | Get(key: K) | Remove(key: K)

  datatype Answer<V> = Done | Value(r: Option<V>) | Removed(found: bool)

  ghost function Lookup<K, V>(m: map<K, V>, key: K): Option<V> { if key in m then Some(m[key]) else None }

  ghost function Effect<K, V>(m: map<K, V>, op: Operation<K, V>): map<K, V> {
    match op
    case Set(k, v) => m[k := v]
    case Get(_) => m
    case Remove(k) => m - {k}
  }

  ghost function Reply<K, V>(m: map<K, V>, op: Operation<K, V>): Answer<V> {
    match op
    case Set(_, _) => Done
    case Get(k) => Value(Lookup(m, k))
    case Remove(k) => Removed(k in m)
  }

  /** The map after some operations on an empty one. */
  ghost function After<K, V>(ops: seq<Operation<K, V>>): map<K, V> {
    if ops == [] then map[] else Effect(After(ops[..|ops| - 1]), ops[|ops| - 1])
  }

  /** The answers are those of a finite map. */
  ghost predicate Answered<K, V>(ops: seq<Operation<K, V>>, answers: seq<Answer<V>>) {
    |answers| == |ops| && forall i :: 0 <= i < |ops| ==> answers[i] == Reply(After(ops[..i]), ops[i])
  }

  lemma AnsweredNext<K, V>(ops: seq<Operation<K, V>>, k: nat, answers: seq<Answer<V>>, a: Answer<V>)
    requires k < |ops| && Answered(ops[..k], answers) && a == Reply(After(ops[..k]), ops[k])
    ensures Answered(ops[..k + 1], answers + [a]) && After(ops[..k + 1]) == Effect(After(ops[..k]), ops[k])
  {
    hide After;
    var next := ops[..k + 1];
    assert next[..k] == ops[..k];
    assert forall i :: 0 <= i <= k ==> next[..i] == ops[..i];
    assert forall i :: 0 <= i < k ==> ops[..k][..i] == ops[..i];
    AfterNext(next);
  }

  lemma AfterNext<K, V>(ops: seq<Operation<K, V>>)
    requires ops != []
    ensures After(ops) == Effect(After(ops[..|ops| - 1]), ops[|ops| - 1])
  {
  }

  method Step<V>(t: Table<V>, op: Operation<nat, V>) returns (a: Answer<V>)
    requires t.Valid()
    modifies t
    ensures t.Valid() && t.m == Effect(old(t.m), op) && a == Reply(old(t.m), op)
  {
    hide Table.Valid;
    match op
    case Set(k, v) => t.Set(k, v); a := Done;
    case Get(k) => var r := t.Get(k); a := Value(r);
    case Remove(k) => var found := t.Remove(k); a := Removed(found);
  }

  /** Every run of set, get and remove, through any growth. */
  method Run<V>(estimated: nat, densityNumer: nat, densityDenom: nat, growthNumer: nat, growthDenom: nat,
          ops: seq<Operation<nat, V>>)
    returns (t: Table<V>, answers: seq<Answer<V>>)
    requires 0 < densityNumer <= densityDenom && 0 < growthDenom <= growthNumer
    ensures fresh(t) && t.Valid() && t.m == After(ops) && Answered(ops, answers)
  {
    hide Table.Valid, Effect, Reply;
    t := new Table<V>(estimated, densityNumer, densityDenom, growthNumer, growthDenom);
    answers := [];
    assert ops[..0] == [];
    for k := 0 to |ops|
      invariant fresh(t) && t.Valid() && t.m == After(ops[..k]) && Answered(ops[..k], answers)
    {
      var a := Step(t, ops[k]);
      AnsweredNext(ops, k, answers, a);
      answers := answers + [a];
    }
    assert ops[..|ops|] == ops;
  }

  // ---------------------------------------------------------------- process names

  /** The two-level map stands for a map on names. */
  ghost predicate Flat<V>(v: map<nat, map<nat, V>>, m: map<P.Name, V>) {
    forall n: P.Name :: P.Find(v, n) == Lookup(m, n)
  }

  lemma FlatPut<V>(v: map<nat, map<nat, V>>, m: map<P.Name, V>, key: P.Name, val: V)
    requires Flat(v, m)
    ensures Flat(P.Put(v, key, val), m[key := val])
  {
    hide P.Find, P.Put;
    forall n: P.Name ensures P.Find(P.Put(v, key, val), n) == Lookup(m[key := val], n) { P.MapLaws(v, key, val, n); }
  }

  lemma FlatDrop<V>(v: map<nat, map<nat, V>>, m: map<P.Name, V>, key: P.Name)
    requires Flat(v, m)
    ensures Flat(P.Drop(v, key), m - {key})
  {
    hide P.Find, P.Drop;
    forall n: P.Name ensures P.Find(P.Drop(v, key), n) == Lookup(m - {key}, n) { P.DropLaw(v, key, n); }
  }

  method NameStep<V>(t: P.Procs<V>, op: Operation<P.Name, V>, ghost m: map<P.Name, V>) returns (a: Answer<V>)
    requires t.Valid() && Flat(t.View(), m)
    modifies t.jobs, t.Inner()
    ensures t.Valid() && Flat(t.View(), Effect(m, op)) && a == Reply(m, op) && fresh(t.Inner() - old(t.Inner()))
  {
    hide P.Procs.Valid, P.Find, P.Put, P.Drop, P.Procs.View;
    match op
    case Set(k, v) =>
      FlatPut(t.View(), m, k, v);
      t.Set(k, v);
      a := Done;
    case Get(k) =>
      var r := t.Get(k);
      a := Value(r);
    case Remove(k) =>
      FlatDrop(t.View(), m, k);
      var found := t.Remove(k);
      a := Removed(found);
  }

  /** Every run of set, get and remove on pairs of jobid and vpid. */
  method NameRun<V>(jobids: nat, vpids: nat, ops: seq<Operation<P.Name, V>>)
    returns (t: P.Procs<V>, answers: seq<Answer<V>>)
    ensures t.Valid() && Flat(t.View(), After(ops)) && Answered(ops, answers)
  {
    hide P.Procs.Valid, P.Procs.View, Effect, Reply;
    t := new P.Procs<V>(jobids, vpids);
    answers := [];
    assert ops[..0] == [];
    for k := 0 to |ops|
      invariant fresh(t.jobs) && fresh(t.Inner()) && t.Valid() && Flat(t.View(), After(ops[..k]))
      invariant Answered(ops[..k], answers)
    {
      var a := NameStep(t, ops[k], After(ops[..k]));
      AnsweredNext(ops, k, answers, a);
      answers := answers + [a];
    }
    assert ops[..|ops|] == ops;
  }
}

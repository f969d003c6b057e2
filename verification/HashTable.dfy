/**
 The open-addressing hash table of opal_hash_table.c: linear probing, growth, and removal that closes the
 gap it makes.
 */
module HashTable {

  datatype Option<V> = None | Some(value: V)

  datatype Slot<V> = Empty | Full(key: nat, val: V)

  /** The slot a key is looked for first. */
  function Home(key: nat, cap: nat): (h: nat)
    requires cap > 0
    ensures h < cap
  {
    key % cap
  }

  function Next(i: nat, cap: nat): nat { if i + 1 == cap then 0 else i + 1 }

  /** How many steps i is after e, going round. */
  function Steps(e: nat, i: nat, cap: nat): int { if i >= e then i - e else i - e + cap }

  /** Slot j is passed when probing from h to i. */
  predicate Between(h: nat, j: nat, i: nat) { if h <= i then h <= j < i else j >= h || j < i }

  // ---------------------------------------------------------------- what a table keeps

  ghost predicate Unique<V>(s: seq<Slot<V>>) {
    forall i, j :: 0 <= i < j < |s| && s[i].Full? && s[j].Full? ==> s[i].key != s[j].key
  }

  /** Every entry can be reached from its home slot through full slots. */
  ghost predicate Reachable<V>(s: seq<Slot<V>>) {
    forall i, j {:trigger s[i], s[j]} ::
      0 <= i < |s| && 0 <= j < |s| && s[i].Full? && Between(Home(s[i].key, |s|), j, i) ==> s[j].Full?
  }

  /** The table holds exactly the entries of m. */
  ghost predicate Models<V>(s: seq<Slot<V>>, m: map<nat, V>) {
    && (forall i :: 0 <= i < |s| && s[i].Full? ==> s[i].key in m && m[s[i].key] == s[i].val)
    && (forall k :: k in m ==> exists i :: 0 <= i < |s| && s[i].Full? && s[i].key == k)
  }

  function Count<V>(s: seq<Slot<V>>): nat {
    if s == [] then 0 else (if s[0].Full? then 1 else 0) + Count(s[1..])
  }

  lemma {:induction false} CountUpdate<V>(s: seq<Slot<V>>, i: nat, x: Slot<V>)
    requires i < |s|
    ensures Count(s[i := x]) == Count(s) - (if s[i].Full? then 1 else 0) + (if x.Full? then 1 else 0)
    decreases |s|
  {
    if i == 0 {
      assert s[i := x][1..] == s[1..];
    } else {
      assert s[i := x][1..] == s[1..][i - 1 := x];
      CountUpdate(s[1..], i - 1, x);
    }
  }

  lemma {:induction false} CountBound<V>(s: seq<Slot<V>>)
    ensures Count(s) <= |s|
    ensures Count(s) < |s| ==> exists i :: 0 <= i < |s| && s[i].Empty?
    decreases |s|
  {
    if s != [] {
      CountBound(s[1..]);
      if Count(s) < |s| {
        if s[0].Empty? {
          assert s[0].Empty?;
        } else {
          var i :| 0 <= i < |s[1..]| && s[1..][i].Empty?;
          assert s[i + 1].Empty?;
        }
      }
    }
  }

  /** calloc: no entries. */
  function Blank<V>(n: nat): seq<Slot<V>> { seq(n, _ => Empty) }

  lemma {:induction false} CountNone<V>(n: nat)
    ensures Count(Blank<V>(n)) == 0
    decreases n
  {
    if n > 0 {
      assert Blank<V>(n)[1..] == Blank<V>(n - 1);
      CountNone<V>(n - 1);
    }
  }

  // ---------------------------------------------------------------- the view from an empty slot

  /** Seen from an empty slot e, probing never passes it, so the table is a line. */
  ghost predicate Line<V>(s: seq<Slot<V>>, e: nat) {
    && (forall i :: 0 <= i < |s| && s[i].Full? ==> Steps(e, Home(s[i].key, |s|), |s|) <= Steps(e, i, |s|))
    && (forall i, j {:trigger s[i], s[j]} :: 0 <= i < |s| && 0 <= j < |s| && s[i].Full? && Passed(s, e, i, j) ==>
              s[j].Full?)
  }

  /** Slot j is passed on the way from the home slot of the entry in slot i to that slot. */
  predicate Passed<V>(s: seq<Slot<V>>, e: nat, i: nat, j: nat)
    requires i < |s| && s[i].Full?
  {
    Steps(e, Home(s[i].key, |s|), |s|) <= Steps(e, j, |s|) < Steps(e, i, |s|)
  }

  /** Between, seen from a slot outside the range. */
  lemma BetweenLine(e: nat, h: nat, j: nat, i: nat, cap: nat)
    requires e < cap && h < cap && j < cap && i < cap
    ensures !Between(h, e, i) ==> Steps(e, h, cap) <= Steps(e, i, cap) || h == i || i == e
    ensures Steps(e, h, cap) <= Steps(e, i, cap) ==>
              (Between(h, j, i) <==> Steps(e, h, cap) <= Steps(e, j, cap) < Steps(e, i, cap))
  {
  }

  lemma ToLine<V>(s: seq<Slot<V>>, e: nat)
    requires Reachable(s) && e < |s| && s[e].Empty?
    ensures Line(s, e)
  {
    forall i | 0 <= i < |s| && s[i].Full? ensures Steps(e, Home(s[i].key, |s|), |s|) <= Steps(e, i, |s|) {
      var h := Home(s[i].key, |s|);
      assert !Between(h, e, i);
      BetweenLine(e, h, e, i, |s|);
    }
    forall i, j | 0 <= i < |s| && 0 <= j < |s| && s[i].Full? && Passed(s, e, i, j) ensures s[j].Full? {
      BetweenLine(e, Home(s[i].key, |s|), j, i, |s|);
    }
  }

  lemma FromLine<V>(s: seq<Slot<V>>, e: nat)
    requires Line(s, e) && e < |s| && s[e].Empty?
    ensures Reachable(s)
  {
    forall i, j | 0 <= i < |s| && 0 <= j < |s| && s[i].Full? && Between(Home(s[i].key, |s|), j, i) ensures s[j].Full? {
      BetweenLine(e, Home(s[i].key, |s|), j, i, |s|);
    }
  }

  // ---------------------------------------------------------------- probing

  /** The slots passed from the home slot of key to slot i are full, with other keys. */
  ghost predicate Probed<V>(s: seq<Slot<V>>, key: nat, i: nat)
    requires |s| > 0
  {
    forall j {:trigger s[j]} :: 0 <= j < |s| && Between(Home(key, |s|), j, i) ==> s[j].Full? && s[j].key != key
  }

  /** An empty slot ends the search. */
  lemma Absent<V>(s: seq<Slot<V>>, key: nat, i: nat)
    requires Reachable(s) && i < |s| && s[i].Empty? && Probed(s, key, i)
    ensures forall j :: 0 <= j < |s| && s[j].Full? ==> s[j].key != key
  {
    forall j | 0 <= j < |s| && s[j].Full? ensures s[j].key != key {
      var h := Home(key, |s|);
      assert Between(h, j, i) || Between(h, i, j) || i == j;
    }
  }

  /** Finds the slot of a key, or the empty slot where the search for it ends. */
  method Probe<V>(s: seq<Slot<V>>, key: nat) returns (i: nat)
    requires |s| > 0 && Reachable(s) && exists e :: 0 <= e < |s| && s[e].Empty?
    ensures i < |s| && Probed(s, key, i) && (s[i].Full? ==> s[i].key == key)
    ensures s[i].Empty? ==> forall j :: 0 <= j < |s| && s[j].Full? ==> s[j].key != key
  {
    ghost var e :| 0 <= e < |s| && s[e].Empty?;
    i := Home(key, |s|);
    while true
      invariant i < |s| && Probed(s, key, i)
      decreases Steps(i, e, |s|)
    {
      if s[i].Empty? {
        Absent(s, key, i);
        return;
      }
      if s[i].key == key { return; }
      assert !Between(Home(key, |s|), e, i);
      ghost var was := i;
      i := Next(i, |s|);
      ProbedNext(s, key, was, i);
    }
  }

  lemma ProbedNext<V>(s: seq<Slot<V>>, key: nat, i: nat, n: nat)
    requires i < |s| && Probed(s, key, i) && s[i].Full? && s[i].key != key && n == Next(i, |s|)
    requires exists e :: 0 <= e < |s| && s[e].Empty?
    ensures Probed(s, key, n)
  {
    var e :| 0 <= e < |s| && s[e].Empty?;
    var h := Home(key, |s|);
    assert !Between(h, e, i) && e != i;
    forall j | 0 <= j < |s| && Between(h, j, n) ensures s[j].Full? && s[j].key != key {
      assert Between(h, j, i) || j == i;
    }
  }

  // ---------------------------------------------------------------- storing

  lemma StoreReachable<V>(s: seq<Slot<V>>, key: nat, val: V, i: nat)
    requires Reachable(s) && Unique(s) && i < |s| && Probed(s, key, i) && (s[i].Full? ==> s[i].key == key)
    requires s[i].Empty? ==> forall j :: 0 <= j < |s| && s[j].Full? ==> s[j].key != key
    ensures Reachable(s[i := Full(key, val)]) && Unique(s[i := Full(key, val)])
  {
  }

  lemma StoreModels<V>(s: seq<Slot<V>>, m: map<nat, V>, key: nat, val: V, i: nat)
    requires Models(s, m) && Unique(s) && i < |s| && (s[i].Full? ==> s[i].key == key)
    requires s[i].Empty? ==> forall j :: 0 <= j < |s| && s[j].Full? ==> s[j].key != key
    ensures Models(s[i := Full(key, val)], m[key := val]) && (s[i].Full? <==> key in m)
  {
    var t, n := s[i := Full(key, val)], m[key := val];
    forall k | k in n ensures exists j :: 0 <= j < |t| && t[j].Full? && t[j].key == k {
      if k == key {
        assert t[i].key == k;
      } else {
        var j :| 0 <= j < |s| && s[j].Full? && s[j].key == k;
        assert t[j] == s[j];
      }
    }
  }

  // ---------------------------------------------------------------- removal

  /** A line, but for one hole that only entries from the k-th slot on may be passing. */
  ghost predicate LineBut<V>(s: seq<Slot<V>>, e: nat, hole: nat, k: nat) {
    && (forall i :: 0 <= i < |s| && s[i].Full? ==> Steps(e, Home(s[i].key, |s|), |s|) <= Steps(e, i, |s|))
    && (forall i, j {:trigger s[i], s[j]} :: 0 <= i < |s| && 0 <= j < |s| && s[i].Full? && Passed(s, e, i, j) ==>
          s[j].Full? || (j == hole && Steps(e, i, |s|) >= k))
  }

  /** The scan is at slot ii, the k-th after e; e and hole are empty, what lies between hole and ii is full. */
  ghost predicate Scanning<V>(s: seq<Slot<V>>, e: nat, hole: nat, ii: nat, k: nat) {
    && e < |s| && hole < |s| && ii < |s| && s[e].Empty? && s[hole].Empty? && hole != e
    && Steps(e, hole, |s|) < k <= |s| && ii == (if k == |s| then e else After(e, k, |s|))
    && LineBut(s, e, hole, k)
  }

  /** The k-th slot after e. */
  function After(e: nat, k: nat, cap: nat): nat { if e + k < cap then e + k else e + k - cap }

  lemma StartScan<V>(s: seq<Slot<V>>, e: nat, ii: nat)
    requires Reachable(s) && e < |s| && s[e].Empty? && ii < |s| && s[ii].Full?
    ensures Scanning(s[ii := Empty], e, ii, Next(ii, |s|), Steps(e, ii, |s|) + 1)
  {
    ToLine(s, e);
    var t, k := s[ii := Empty], Steps(e, ii, |s|) + 1;
    forall i, j | 0 <= i < |t| && 0 <= j < |t| && t[i].Full? && Passed(t, e, i, j)
      ensures t[j].Full? || (j == ii && Steps(e, i, |t|) >= k)
    {
      assert Passed(s, e, i, j) && s[j].Full?;
    }
  }

  /** The scan stops at an empty slot: the gap is closed. */
  lemma ScanDone<V>(s: seq<Slot<V>>, e: nat, hole: nat, ii: nat, k: nat)
    requires Scanning(s, e, hole, ii, k) && s[ii].Empty?
    ensures Reachable(s)
  {
    forall i, j | 0 <= i < |s| && 0 <= j < |s| && s[i].Full? && Passed(s, e, i, j) ensures s[j].Full? {
      assert k < |s| ==> Steps(e, ii, |s|) == k;
      assert s[i].Full? && s[ii].Empty?;
    }
    FromLine(s, e);
  }

  /** The slots from the home slot of the scanned entry up to jj are full. */
  ghost predicate Rehashing<V>(s: seq<Slot<V>>, e: nat, ii: nat, jj: nat)
    requires ii < |s| && s[ii].Full?
  {
    && jj < |s| && Steps(e, Home(s[ii].key, |s|), |s|) <= Steps(e, jj, |s|) <= Steps(e, ii, |s|)
    && forall j {:trigger s[j]} ::
          0 <= j < |s| && Steps(e, Home(s[ii].key, |s|), |s|) <= Steps(e, j, |s|) < Steps(e, jj, |s|) ==> s[j].Full?
  }

  /** Where the scanned entry belongs: the hole, if it was passing it, or where it is. */
  method Rehash<V>(s: seq<Slot<V>>, ii: nat, ghost e: nat, ghost hole: nat, ghost k: nat) returns (jj: nat)
    requires Scanning(s, e, hole, ii, k) && s[ii].Full?
    ensures Rehashing(s, e, ii, jj) && (jj == ii || jj == hole)
  {
    jj := Home(s[ii].key, |s|);
    while jj != ii && s[jj].Full?
      invariant Rehashing(s, e, ii, jj)
      decreases Steps(e, ii, |s|) - Steps(e, jj, |s|)
    {
      jj := Next(jj, |s|);
    }
    if jj != ii { assert Passed(s, e, ii, jj); }
  }

  lemma StayScan<V>(s: seq<Slot<V>>, e: nat, hole: nat, ii: nat, k: nat)
    requires Scanning(s, e, hole, ii, k) && s[ii].Full? && Rehashing(s, e, ii, ii)
    ensures Scanning(s, e, hole, Next(ii, |s|), k + 1)
  {
    forall i, j | 0 <= i < |s| && 0 <= j < |s| && s[i].Full? && Passed(s, e, i, j)
      ensures s[j].Full? || (j == hole && Steps(e, i, |s|) >= k + 1)
    {
      assert Steps(e, i, |s|) == k ==> i == ii;
    }
  }

  lemma MoveScan<V>(s: seq<Slot<V>>, e: nat, hole: nat, ii: nat, k: nat)
    requires Scanning(s, e, hole, ii, k) && s[ii].Full? && Rehashing(s, e, ii, hole)
    ensures Scanning(s[hole := s[ii]][ii := Empty], e, ii, Next(ii, |s|), k + 1)
  {
    var t := s[hole := s[ii]][ii := Empty];
    forall i | 0 <= i < |t| && t[i].Full? ensures Steps(e, Home(t[i].key, |t|), |t|) <= Steps(e, i, |t|) {
      if i != hole { assert t[i] == s[i]; }
    }
    forall i, j | 0 <= i < |t| && 0 <= j < |t| && t[i].Full? && Passed(t, e, i, j)
      ensures t[j].Full? || (j == ii && Steps(e, i, |t|) >= k + 1)
    {
      if i == hole {
        assert s[j].Full? && j != ii;
      } else {
        assert Passed(s, e, i, j);
      }
    }
  }

  lemma DropModels<V>(s: seq<Slot<V>>, m: map<nat, V>, i: nat)
    requires Models(s, m) && Unique(s) && i < |s| && s[i].Full?
    ensures Models(s[i := Empty], m - {s[i].key}) && Unique(s[i := Empty])
  {
    var t, n := s[i := Empty], m - {s[i].key};
    forall k | k in n ensures exists j :: 0 <= j < |t| && t[j].Full? && t[j].key == k {
      var j :| 0 <= j < |s| && s[j].Full? && s[j].key == k;
      assert t[j] == s[j];
    }
  }

  lemma MoveModels<V>(s: seq<Slot<V>>, m: map<nat, V>, hole: nat, ii: nat)
    requires Models(s, m) && Unique(s) && hole < |s| && ii < |s| && s[hole].Empty? && s[ii].Full?
    ensures Models(s[hole := s[ii]][ii := Empty], m) && Unique(s[hole := s[ii]][ii := Empty])
  {
    var t := s[hole := s[ii]][ii := Empty];
    forall k | k in m ensures exists j :: 0 <= j < |t| && t[j].Full? && t[j].key == k {
      var j :| 0 <= j < |s| && s[j].Full? && s[j].key == k;
      if j == ii { assert t[hole].key == k; } else { assert t[j] == s[j]; }
    }
  }

  /** opal_hash_table_remove_elt_at: empties slot ii and moves followers so that all stay reachable. */
  method RemoveAt<V>(s: seq<Slot<V>>, ii: nat, ghost m: map<nat, V>) returns (t: seq<Slot<V>>)
    requires Reachable(s) && Unique(s) && Models(s, m) && ii < |s| && s[ii].Full?
    requires exists e :: 0 <= e < |s| && s[e].Empty?
    ensures |t| == |s| && Reachable(t) && Unique(t) && Models(t, m - {s[ii].key}) && Count(t) == Count(s) - 1
  {
    hide Reachable, Unique, Models, Count, Scanning, Rehashing;
    ghost var e: nat :| 0 <= e < |s| && s[e].Empty?;
    ghost var hole: nat, k: nat := ii, Steps(e, ii, |s|) + 1;
    ghost var n := m - {s[ii].key};
    t := s[ii := Empty];
    StartScan(s, e, ii);
    DropModels(s, m, ii);
    CountUpdate(s, ii, Empty);
    var i: nat := Next(ii, |s|);
    while true
      invariant |t| == |s| && i < |s| && Scanning(t, e, hole, i, k) && k <= |s| && Unique(t) && Models(t, n)
      invariant Count(t) == Count(s) - 1
      decreases |s| - k
    {
      if t[i].Empty? {
        ScanDone(t, e, hole, i, k);
        return;
      }
      ScanParts(t, e, hole, i, k);
      var j := Rehash(t, i, e, hole, k);
      if j == i {
        StayScan(t, e, hole, i, k);
      } else {
        MoveScan(t, e, hole, i, k);
        MoveModels(t, n, hole, i);
        CountUpdate(t, hole, t[i]);
        CountUpdate(t[hole := t[i]], i, Empty);
        t := t[j := t[i]][i := Empty];
        hole := i;
      }
      i, k := Next(i, |s|), k + 1;
      ScanParts(t, e, hole, i, k);
    }
  }

  lemma ScanParts<V>(s: seq<Slot<V>>, e: nat, hole: nat, ii: nat, k: nat)
    requires Scanning(s, e, hole, ii, k)
    ensures k <= |s| && ii < |s| && hole < |s| && s[hole].Empty? && (s[ii].Full? ==> k < |s|)
  {
  }

  // ---------------------------------------------------------------- growth

  /** Capacities are 1 mod 30. */
  function RoundUp(c: nat): (r: nat)
    ensures Rounded(r, c)
  {
    (c + 29) / 30 * 30 + 1
  }

  /** r is the least number above c that is 1 mod 30. */
  predicate Rounded(r: nat, c: nat) { r % 30 == 1 && c < r <= c + 30 }

  /** The given part of a number, rounded down. */
  function Part(n: nat, numer: nat, denom: nat): nat { if denom == 0 then 0 else n * numer / denom }

  /** The first empty slot for a key. */
  method FindFree<V>(s: seq<Slot<V>>, key: nat) returns (i: nat)
    requires |s| > 0 && (exists e :: 0 <= e < |s| && s[e].Empty?)
    requires forall j :: 0 <= j < |s| && s[j].Full? ==> s[j].key != key
    ensures i < |s| && s[i].Empty? && Probed(s, key, i)
  {
    ghost var e :| 0 <= e < |s| && s[e].Empty?;
    i := Home(key, |s|);
    while s[i].Full?
      invariant i < |s| && Probed(s, key, i)
      decreases Steps(i, e, |s|)
    {
      assert !Between(Home(key, |s|), e, i);
      ghost var was := i;
      i := Next(i, |s|);
      ProbedNext(s, key, was, i);
    }
  }

  /** mm holds the entries of the first n slots of s. */
  ghost predicate Prefix<V>(s: seq<Slot<V>>, n: nat, mm: map<nat, V>) {
    && n <= |s| && (forall i :: 0 <= i < n && s[i].Full? ==> s[i].key in mm && mm[s[i].key] == s[i].val)
    && (forall k :: k in mm ==> exists i :: 0 <= i < n && s[i].Full? && s[i].key == k)
  }

  /** opal_hash_grow: every entry inserted into a larger table. */
  method Regrow<V>(s: seq<Slot<V>>, cap: nat, ghost m: map<nat, V>) returns (t: seq<Slot<V>>)
    requires Unique(s) && Models(s, m) && cap > |s|
    ensures |t| == cap && Reachable(t) && Unique(t) && Models(t, m) && Count(t) == Count(s)
  {
    hide Reachable, Unique, Models, Count, Prefix, Probed;
    t := Blank(cap);
    BlankTable<V>(cap);
    StartPrefix(s);
    ghost var mm: map<nat, V> := map[];
    for jj := 0 to |s|
      invariant |t| == cap && Reachable(t) && Unique(t) && Models(t, mm) && Prefix(s, jj, mm)
      invariant Count(t) == Count(s[..jj]) <= jj
    {
      CountStep(s, jj);
      if s[jj].Full? {
        CountBound(t);
        FreshKey(s, jj, mm, t);
        var ii := FindFree(t, s[jj].key);
        StoreReachable(t, s[jj].key, s[jj].val, ii);
        StoreModels(t, mm, s[jj].key, s[jj].val, ii);
        CountUpdate(t, ii, s[jj]);
        t := t[ii := s[jj]];
        PrefixStep(s, jj, mm, mm[s[jj].key := s[jj].val]);
        mm := mm[s[jj].key := s[jj].val];
      } else {
        PrefixStep(s, jj, mm, mm);
      }
    }
    assert s[..|s|] == s;
    WholePrefix(s, m, mm);
  }

  lemma BlankTable<V>(cap: nat)
    ensures Reachable(Blank<V>(cap)) && Unique(Blank<V>(cap)) && Models(Blank<V>(cap), map[])
    ensures Count(Blank<V>(cap)) == 0
  {
    CountNone<V>(cap);
  }

  lemma StartPrefix<V>(s: seq<Slot<V>>)
    ensures Prefix(s, 0, map[]) && Count(s[..0]) == 0
  {
  }

  lemma {:induction false} CountSnoc<V>(s: seq<Slot<V>>, x: Slot<V>)
    ensures Count(s + [x]) == Count(s) + if x.Full? then 1 else 0
    decreases |s|
  {
    if s == [] {
      assert s + [x] == [x];
    } else {
      assert (s + [x])[1..] == s[1..] + [x];
      CountSnoc(s[1..], x);
    }
  }

  lemma CountStep<V>(s: seq<Slot<V>>, j: nat)
    requires j < |s|
    ensures Count(s[..j + 1]) == Count(s[..j]) + if s[j].Full? then 1 else 0
  {
    assert s[..j + 1] == s[..j] + [s[j]];
    CountSnoc(s[..j], s[j]);
  }

  /** The next key is not in the new table yet. */
  lemma FreshKey<V>(s: seq<Slot<V>>, j: nat, mm: map<nat, V>, t: seq<Slot<V>>)
    requires Unique(s) && Prefix(s, j, mm) && j < |s| && s[j].Full? && Models(t, mm)
    ensures s[j].key !in mm && forall i :: 0 <= i < |t| && t[i].Full? ==> t[i].key != s[j].key
  {
  }

  lemma PrefixStep<V>(s: seq<Slot<V>>, j: nat, mm: map<nat, V>, mm': map<nat, V>)
    requires j < |s| && Prefix(s, j, mm) && (s[j].Full? ==> s[j].key !in mm)
    requires mm' == if s[j].Full? then mm[s[j].key := s[j].val] else mm
    ensures Prefix(s, j + 1, mm')
  {
    forall k | k in mm' ensures exists i :: 0 <= i < j + 1 && s[i].Full? && s[i].key == k {
      if k in mm {
        var i :| 0 <= i < j && s[i].Full? && s[i].key == k;
      } else {
        assert s[j].key == k;
      }
    }
  }

  lemma WholePrefix<V>(s: seq<Slot<V>>, m: map<nat, V>, mm: map<nat, V>)
    requires Models(s, m) && Prefix(s, |s|, mm)
    ensures mm == m
  {
    forall k | k in m ensures k in mm && mm[k] == m[k] {
      var i :| 0 <= i < |s| && s[i].Full? && s[i].key == k;
    }
    forall k | k in mm ensures k in m {
      var i :| 0 <= i < |s| && s[i].Full? && s[i].key == k;
    }
  }

  // ---------------------------------------------------------------- the table

  class Table<V> {
    var slots: seq<Slot<V>>
    var size: nat
    var trigger: nat
    const densityNumer: nat
    const densityDenom: nat
    const growthNumer: nat
    const growthDenom: nat

    /** The finite map the table stands for. */
    ghost var m: map<nat, V>

    ghost predicate Shape()
      reads this
    {
      && |slots| > 0 && Reachable(slots) && Unique(slots) && Models(slots, m) && Count(slots) == size == |m|
      && 0 < densityNumer <= densityDenom && 0 < growthDenom <= growthNumer
      && trigger == Part(|slots|, densityNumer, densityDenom) <= |slots|
    }

    /** In addition a slot is empty, so that every probe ends. */
    ghost predicate Valid()
      reads this
    {
      Shape() && size < |slots|
    }

    /** opal_hash_table_init2. */
    constructor (estimated: nat, densityNumer: nat, densityDenom: nat, growthNumer: nat, growthDenom: nat)
      requires 0 < densityNumer <= densityDenom && 0 < growthDenom <= growthNumer
      ensures Valid() && m == map[] && size == 0 && Rounded(|slots|, Part(estimated, densityDenom, densityNumer))
    {
      this.densityNumer, this.densityDenom := densityNumer, densityDenom;
      this.growthNumer, this.growthDenom := growthNumer, growthDenom;
      var capacity := RoundUp(Part(estimated, densityDenom, densityNumer));
      slots := Blank(capacity);
      size := 0;
      m := map[];
      TriggerFits(capacity, densityNumer, densityDenom);
      trigger := Part(capacity, densityNumer, densityDenom);
      new;
      BlankTable<V>(capacity);
    }

    /** opal_hash_table_get_value_uint32. */
    method Get(key: nat) returns (r: Option<V>)
      requires Valid()
      ensures r == if key in m then Some(m[key]) else None
    {
      hide Reachable, Unique, Count;
      CountBound(slots);
      var i := Probe(slots, key);
      r := if slots[i].Full? then Some(slots[i].val) else None;
    }

    /** opal_hash_table_set_value_uint32. */
    method Set(key: nat, val: V)
      requires Valid()
      modifies this
      ensures Valid() && m == old(m)[key := val]
      ensures if key !in old(m) && |m| >= old(trigger)
              then Rounded(|slots|, Part(old(|slots|), growthNumer, growthDenom)) else |slots| == old(|slots|)
    {
      hide Reachable, Unique, Count, Part, Rounded;
      CountBound(slots);
      var i := Probe(slots, key);
      StoreReachable(slots, key, val, i);
      StoreModels(slots, m, key, val, i);
      CountUpdate(slots, i, Full(key, val));
      var added := slots[i].Empty?;
      slots, m := slots[i := Full(key, val)], m[key := val];
      if added {
        size := size + 1;
        CountBound(slots);
        if size >= trigger { Grow(); }
      }
    }

    /** opal_hash_grow. */
    method Grow()
      requires Shape()
      modifies this`slots, this`trigger
      ensures Valid() && Rounded(|slots|, Part(old(|slots|), growthNumer, growthDenom))
    {
      hide Reachable, Unique, Models, Count;
      CountBound(slots);
      GrowthFits(|slots|, growthNumer, growthDenom);
      var capacity := RoundUp(Part(|slots|, growthNumer, growthDenom));
      slots := Regrow(slots, capacity, m);
      TriggerFits(capacity, densityNumer, densityDenom);
      trigger := Part(capacity, densityNumer, densityDenom);
    }

    /** opal_hash_table_remove_value_uint32. */
    method Remove(key: nat) returns (found: bool)
      requires Valid()
      modifies this`slots, this`size, this`m
      ensures Valid() && (found <==> key in old(m)) && m == old(m) - {key} && |slots| == old(|slots|)
    {
      hide Reachable, Unique, Count;
      CountBound(slots);
      var i := Probe(slots, key);
      found := slots[i].Full?;
      if found {
        slots := RemoveAt(slots, i, m);
        DropSize(m, key);
        size, m := size - 1, m - {key};
      } else {
        assert m - {key} == m;
      }
    }

    /** opal_hash_table_get_next_elt: the next full slot from a position on. */
    method NextFrom(from: nat) returns (found: bool, i: nat)
      requires from <= |slots|
      ensures found ==> from <= i < |slots| && slots[i].Full? && forall j :: from <= j < i ==> slots[j].Empty?
      ensures !found ==> forall j :: from <= j < |slots| ==> slots[j].Empty?
    {
      i := from;
      while i < |slots|
        invariant from <= i <= |slots| && forall j :: from <= j < i ==> slots[j].Empty?
      {
        if slots[i].Full? { return true, i; }
        i := i + 1;
      }
      found := false;
    }
  }

  lemma DropSize<V>(m: map<nat, V>, key: nat)
    requires key in m
    ensures |m - {key}| == |m| - 1
  {
    assert m.Keys == (m - {key}).Keys + {key};
  }

  lemma TriggerFits(capacity: nat, numer: nat, denom: nat)
    requires 0 < numer <= denom
    ensures Part(capacity, numer, denom) <= capacity
  {
    MulLe(numer, denom, capacity);
    DivLe(capacity * numer, denom, capacity);
  }

  lemma GrowthFits(capacity: nat, numer: nat, denom: nat)
    requires 0 < denom <= numer
    ensures Part(capacity, numer, denom) >= capacity
  {
    MulLe(denom, numer, capacity);
    DivGe(capacity * numer, denom, capacity);
  }

  lemma MulLe(a: nat, b: nat, c: nat)
    requires a <= b
    ensures c * a <= c * b
  {
  }

  lemma DivLe(n: nat, d: nat, c: nat)
    requires d > 0 && n <= c * d
    ensures 0 <= n / d <= c
  {
    var q := n / d;
    assert q * d <= n;
    assert d * (c + 1) == c * d + d;
    if q > c { MulLe(c + 1, q, d); }
  }

  lemma DivGe(n: nat, d: nat, c: nat)
    requires d > 0 && n >= c * d
    ensures n / d >= c
  {
    var q := n / d;
    assert n < q * d + d;
    assert d * (q + 1) == q * d + d;
    if q < c { MulLe(q + 1, c, d); }
  }
}

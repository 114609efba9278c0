/**
 * The keyed upsert loop the ingest routes and run_baseline share: for each
 * source record, look the row up by its unique key; insert a fresh row when
 * there is none, otherwise overwrite it in place and count an update.
 */
module Upsert {
  import opened Wrappers

  /** When an overwrite counts as an update: the ingest routes count a row only if a field changed, run_baseline counts every overwrite. */
  datatype Counting = CountChanged | CountEvery

  /** `inserted`, `updated` and `total_source` of one table. */
  datatype Report = Report(inserted: nat, updated: nat, totalSource: nat)

  /** The table and the counters an upsert loop carries; `nextId` is the primary key the database hands out next. */
  datatype State<K, V> = State(table: map<K, V>, nextId: int, inserted: nat, updated: nat)

  /**
   * One iteration for record `r`.  `make(r, existing, id)` is the row the record
   * leaves behind: built afresh with primary key `id` when `existing` is None,
   * or the existing row with the record's fields written over it.
   */
  function Step<R, K(==), V(==)>(s: State<K, V>, r: R, key: R -> K, make: (R, Option<V>, int) -> V, counting: Counting): (s': State<K, V>)
    ensures key(r) in s'.table
  {
    var k := key(r);
    if k !in s.table then
      State(s.table[k := make(r, None, s.nextId)], s.nextId + 1, s.inserted + 1, s.updated)
    else
      var v := make(r, Some(s.table[k]), s.nextId);
      State(s.table[k := v], s.nextId, s.inserted,
            if counting == CountEvery || v != s.table[k] then s.updated + 1 else s.updated)
  }

  /** The whole loop over the records, in source order. */
  function Run<R, K(==), V(==)>(s: State<K, V>, rs: seq<R>, key: R -> K, make: (R, Option<V>, int) -> V, counting: Counting): (t: State<K, V>)
    ensures t.table.Keys == s.table.Keys + KeysOf(rs, key)
    decreases |rs|
  {
    if rs == [] then s
    else
      KeysOfSnoc(rs, key);
      Step(Run(s, rs[..|rs| - 1], key, make, counting), rs[|rs| - 1], key, make, counting)
  }

  lemma KeysOfSnoc<R, K>(rs: seq<R>, key: R -> K)
    requires rs != []
    ensures KeysOf(rs, key) == KeysOf(rs[..|rs| - 1], key) + {key(rs[|rs| - 1])}
  {
    var front := rs[..|rs| - 1];
    forall k | k in KeysOf(rs, key) ensures k in KeysOf(front, key) + {key(rs[|rs| - 1])} {
      var i :| 0 <= i < |rs| && key(rs[i]) == k;
      if i < |rs| - 1 {
        assert rs[i] == front[i];
      }
    }
  }

  /** The keys the records name. */
  function KeysOf<R, K(==)>(rs: seq<R>, key: R -> K): (ks: set<K>)
    ensures forall r :: r in rs ==> key(r) in ks
    ensures forall k :: k in ks ==> exists i :: 0 <= i < |rs| && key(rs[i]) == k
  {
    set i | 0 <= i < |rs| :: key(rs[i])
  }

  function AsOption<K(==), V>(m: map<K, V>, k: K): Option<V>
  {
    if k in m then Some(m[k]) else None
  }

  lemma RunPrefix<R, K, V>(s: State<K, V>, rs: seq<R>, i: nat, key: R -> K, make: (R, Option<V>, int) -> V, counting: Counting)
    requires i < |rs|
    ensures Run(s, rs[..i + 1], key, make, counting) == Step(Run(s, rs[..i], key, make, counting), rs[i], key, make, counting)
  {
    assert rs[..i + 1][..i] == rs[..i];
  }

  /** A row no record names is left as it was. */
  lemma {:induction false} RunFrame<R, K, V>(s: State<K, V>, rs: seq<R>, key: R -> K, make: (R, Option<V>, int) -> V, counting: Counting)
    ensures forall k :: k in s.table && k !in KeysOf(rs, key) ==> Run(s, rs, key, make, counting).table[k] == s.table[k]
    decreases |rs|
  {
    if rs != [] {
      RunFrame(s, rs[..|rs| - 1], key, make, counting);
      KeysOfSnoc(rs, key);
    }
  }

  /** Each record bumps at most one counter (exactly one when every overwrite counts), and one primary key is used per insert. */
  lemma {:induction false} RunCounts<R, K, V>(s: State<K, V>, rs: seq<R>, key: R -> K, make: (R, Option<V>, int) -> V, counting: Counting)
    ensures var t := Run(s, rs, key, make, counting);
      && t.inserted >= s.inserted && t.updated >= s.updated
      && (t.inserted - s.inserted) + (t.updated - s.updated) <= |rs|
      && (counting == CountEvery ==> (t.inserted - s.inserted) + (t.updated - s.updated) == |rs|)
      && t.nextId == s.nextId + (t.inserted - s.inserted)
    decreases |rs|
  {
    if rs != [] {
      RunCounts(s, rs[..|rs| - 1], key, make, counting);
    }
  }

  /** `inserted` grows by the number of keys the loop added to the table. */
  lemma {:induction false} RunInsertedKeys<R, K, V>(s: State<K, V>, rs: seq<R>, key: R -> K, make: (R, Option<V>, int) -> V, counting: Counting)
    ensures var t := Run(s, rs, key, make, counting);
      t.inserted - s.inserted == |t.table.Keys - s.table.Keys|
    decreases |rs|
  {
    if rs != [] {
      var front := rs[..|rs| - 1];
      RunInsertedKeys(s, front, key, make, counting);
      RunCounts(s, front, key, make, counting);
      var m := Run(s, front, key, make, counting);
      StepInsertedKeys(m, rs[|rs| - 1], key, make, counting);
      DiffChain(s.table.Keys, m.table.Keys, Run(s, rs, key, make, counting).table.Keys);
    }
  }

  lemma StepInsertedKeys<R, K, V>(m: State<K, V>, r: R, key: R -> K, make: (R, Option<V>, int) -> V, counting: Counting)
    ensures var t := Step(m, r, key, make, counting);
      m.table.Keys <= t.table.Keys && t.inserted - m.inserted == |t.table.Keys - m.table.Keys|
  {
    var t := Step(m, r, key, make, counting);
    if key(r) !in m.table {
      assert t.table.Keys - m.table.Keys == {key(r)};
    } else {
      assert t.table.Keys - m.table.Keys == {};
    }
  }

  lemma DiffChain<K>(a: set<K>, b: set<K>, c: set<K>)
    requires a <= b <= c
    ensures |c - a| == |c - b| + |b - a|
  {
    assert c - a == (c - b) + (b - a);
    assert (c - b) * (b - a) == {};
  }

  /**
   * The row a key ends with is the one its last record made, from the row the
   * loop had for that key just before that record.
   */
  lemma {:induction false} RunLastWins<R, K, V>(s: State<K, V>, rs: seq<R>, i: nat, key: R -> K, make: (R, Option<V>, int) -> V, counting: Counting)
    requires i < |rs|
    requires forall j :: i < j < |rs| ==> key(rs[j]) != key(rs[i])
    ensures var before := Run(s, rs[..i], key, make, counting);
      Run(s, rs, key, make, counting).table[key(rs[i])] == make(rs[i], AsOption(before.table, key(rs[i])), before.nextId)
    decreases |rs|
  {
    if i == |rs| - 1 {
      assert rs[..|rs| - 1] == rs[..i];
    } else {
      var front := rs[..|rs| - 1];
      assert front[..i] == rs[..i];
      RunLastWins(s, front, i, key, make, counting);
    }
  }

  /** No key is named by two records. */
  predicate DistinctKeys<R, K(==)>(rs: seq<R>, key: R -> K)
  {
    forall i, j :: 0 <= i < j < |rs| ==> key(rs[i]) != key(rs[j])
  }

  /** Writing a record over the row it made itself leaves that row as it is. */
  ghost predicate Settled<R(!new), V(!new)>(make: (R, Option<V>, int) -> V)
  {
    forall r, o, id, id' {:trigger make(r, Some(make(r, o, id)), id')} :: make(r, Some(make(r, o, id)), id') == make(r, o, id)
  }

  /** A record meeting the row it made itself changes nothing, counters included. */
  lemma RerunStep<R(!new), K, V(!new)>(z: State<K, V>, r: R, key: R -> K, make: (R, Option<V>, int) -> V, o: Option<V>, id: int)
    requires Settled(make)
    requires key(r) in z.table && z.table[key(r)] == make(r, o, id)
    ensures Step(z, r, key, make, CountChanged) == z
  {
    assert make(r, Some(make(r, o, id)), z.nextId) == make(r, o, id);
    assert z.table[key(r) := make(r, o, id)] == z.table;
  }

  /** Every record finds its own row unchanged: the loop over `rs` from the state it produced. */
  lemma {:induction false} RerunPrefix<R(!new), K, V(!new)>(s: State<K, V>, rs: seq<R>, n: nat, key: R -> K, make: (R, Option<V>, int) -> V)
    requires n <= |rs|
    requires DistinctKeys(rs, key) && Settled(make)
    ensures var t := Run(s, rs, key, make, CountChanged);
      Run(State(t.table, t.nextId, 0, 0), rs[..n], key, make, CountChanged) == State(t.table, t.nextId, 0, 0)
    decreases n
  {
    var t := Run(s, rs, key, make, CountChanged);
    var z := State(t.table, t.nextId, 0, 0);
    if n > 0 {
      var i := n - 1;
      RerunPrefix(s, rs, i, key, make);
      RunPrefix(z, rs, i, key, make, CountChanged);
      var before := Run(s, rs[..i], key, make, CountChanged);
      RunLastWins(s, rs, i, key, make, CountChanged);
      RerunStep(z, rs[i], key, make, AsOption(before.table, key(rs[i])), before.nextId);
    } else {
      assert rs[..0] == [];
    }
  }

  /**
   * Re-running the loop on records with distinct keys, from the state it left,
   * inserts nothing, updates nothing and changes no row.
   */
  lemma Rerun<R(!new), K, V(!new)>(s: State<K, V>, rs: seq<R>, key: R -> K, make: (R, Option<V>, int) -> V)
    requires DistinctKeys(rs, key) && Settled(make)
    ensures var t := Run(s, rs, key, make, CountChanged);
      Run(State(t.table, t.nextId, 0, 0), rs, key, make, CountChanged) == State(t.table, t.nextId, 0, 0)
  {
    RerunPrefix(s, rs, |rs|, key, make);
    assert rs[..|rs|] == rs;
  }

  /** A table without a modelled primary key: the rows a record makes do not depend on the key counter. */
  ghost predicate IgnoresId<R(!new), V(!new)>(make: (R, Option<V>, int) -> V)
  {
    forall r, o, id, id' {:trigger make(r, o, id), make(r, o, id')} :: make(r, o, id) == make(r, o, id')
  }

  /** For such a table the loop writes the same rows and counts whatever the key counter starts at. */
  lemma {:induction false} RunIgnoresNextId<R(!new), K, V(!new)>(table: map<K, V>, a: int, b: int, rs: seq<R>, key: R -> K, make: (R, Option<V>, int) -> V, counting: Counting)
    requires IgnoresId(make)
    ensures var x := Run(State(table, a, 0, 0), rs, key, make, counting);
      var y := Run(State(table, b, 0, 0), rs, key, make, counting);
      x.table == y.table && x.inserted == y.inserted && x.updated == y.updated
    decreases |rs|
  {
    if rs != [] {
      var front := rs[..|rs| - 1];
      var r := rs[|rs| - 1];
      RunIgnoresNextId(table, a, b, front, key, make, counting);
      var xm := Run(State(table, a, 0, 0), front, key, make, counting);
      var ym := Run(State(table, b, 0, 0), front, key, make, counting);
      var o := AsOption(xm.table, key(r));
      assert make(r, o, xm.nextId) == make(r, o, ym.nextId);
      StepIgnoresNextId(xm, ym, r, key, make, counting);
    }
  }

  lemma StepIgnoresNextId<R, K, V>(x: State<K, V>, y: State<K, V>, r: R, key: R -> K, make: (R, Option<V>, int) -> V, counting: Counting)
    requires x.table == y.table && x.inserted == y.inserted && x.updated == y.updated
    requires make(r, AsOption(x.table, key(r)), x.nextId) == make(r, AsOption(x.table, key(r)), y.nextId)
    ensures var x' := Step(x, r, key, make, counting);
      var y' := Step(y, r, key, make, counting);
      x'.table == y'.table && x'.inserted == y'.inserted && x'.updated == y'.updated
  {
  }

  /** Re-running a loop over such a table, on records with distinct keys, changes no row and counts nothing. */
  lemma RerunFromZero<R(!new), K, V(!new)>(s: State<K, V>, rs: seq<R>, key: R -> K, make: (R, Option<V>, int) -> V)
    requires DistinctKeys(rs, key) && Settled(make) && IgnoresId(make)
    ensures var t := Run(s, rs, key, make, CountChanged);
      var again := Run(State(t.table, 0, 0, 0), rs, key, make, CountChanged);
      again.table == t.table && again.inserted == 0 && again.updated == 0
  {
    var t := Run(s, rs, key, make, CountChanged);
    Rerun(s, rs, key, make);
    RunIgnoresNextId(t.table, t.nextId, 0, rs, key, make, CountChanged);
  }
}

/** The chained hash table of FastDFS/common/hash.c, on the linked lists of module Chain. */
module HashTable {
  import opened Chain

  type Key = seq<bv8>

  datatype Option<+T> = None | Some(value: T)

  /** A HashData block, held by value in the node that points to it. */
  datatype HashData<V> = HashData(key: Key, hashCode: nat, value: V)

  // ----------------------------------------------------------------- buckets as sequences

  type Row<V> = seq<HashData<V>>

  ghost predicate KeysDistinct<V>(es: Row<V>) {
    forall a, b :: 0 <= a < b < |es| ==> es[a].key != es[b].key
  }

  /** The entries of bucket `i` of `n` belong there, and no key occurs twice. */
  ghost predicate RowOk<V>(hash: Key -> nat, row: Row<V>, n: nat, i: nat)
    requires n > 0
  {
    && (forall a :: 0 <= a < |row| ==> row[a].hashCode == hash(row[a].key) && row[a].hashCode % n == i)
    && KeysDistinct(row)
  }

  ghost predicate RowsOk<V>(hash: Key -> nat, rows: seq<Row<V>>) {
    forall i :: 0 <= i < |rows| ==> RowOk(hash, rows[i], |rows|, i)
  }

  ghost function Flatten<V>(rows: seq<Row<V>>): Row<V> {
    if rows == [] then [] else Flatten(rows[..|rows| - 1]) + rows[|rows| - 1]
  }

  /** The entries that rehashing to `capacity` puts in bucket `i`, in order. */
  ghost function Pick<V>(es: Row<V>, capacity: nat, i: nat): Row<V>
    requires capacity > 0
  {
    if es == [] then [] else
    var last := es[|es| - 1];
    Pick(es[..|es| - 1], capacity, i) + if last.hashCode % capacity == i then [last] else []
  }

  ghost function Spread<V>(es: Row<V>, capacity: nat): (rows: seq<Row<V>>)
    requires capacity > 0
    ensures |rows| == capacity && forall i :: 0 <= i < capacity ==> rows[i] == Pick(es, capacity, i)
  {
    seq(capacity, i requires 0 <= i < capacity => Pick(es, capacity, i))
  }

  ghost function Total<V>(rows: seq<Row<V>>): nat {
    if rows == [] then 0 else Total(rows[..|rows| - 1]) + |rows[|rows| - 1]|
  }

  lemma {:induction false} FlattenLength<V>(rows: seq<Row<V>>)
    ensures |Flatten(rows)| == Total(rows)
  {
    if rows != [] { FlattenLength(rows[..|rows| - 1]); }
  }

  lemma {:induction false} FlattenMember<V>(rows: seq<Row<V>>, e: HashData<V>)
    ensures e in Flatten(rows) <==> exists i :: 0 <= i < |rows| && e in rows[i]
  {
    if rows != [] {
      var n := |rows| - 1;
      FlattenMember(rows[..n], e);
      if i :| 0 <= i < |rows| && e in rows[i] {
        if i < n { assert e in rows[..n][i]; }
      }
      if i :| 0 <= i < n && e in rows[..n][i] { assert e in rows[i]; }
    }
  }

  lemma {:induction false} PickMember<V>(es: Row<V>, capacity: nat, i: nat, e: HashData<V>)
    requires capacity > 0
    ensures e in Pick(es, capacity, i) <==> e in es && e.hashCode % capacity == i
  {
    if es != [] {
      PickMember(es[..|es| - 1], capacity, i, e);
      assert es == es[..|es| - 1] + [es[|es| - 1]];
    }
  }

  lemma {:induction false} PickDistinct<V>(es: Row<V>, capacity: nat, i: nat)
    requires capacity > 0 && KeysDistinct(es)
    ensures KeysDistinct(Pick(es, capacity, i))
  {
    if es != [] {
      var front, last := es[..|es| - 1], es[|es| - 1];
      PickDistinct(front, capacity, i);
      var p := Pick(front, capacity, i);
      forall a | 0 <= a < |p| ensures p[a].key != last.key {
        PickMember(front, capacity, i, p[a]);
      }
    }
  }

  /** No two entries of a well-formed table have the same key, whatever their buckets. */
  lemma {:induction false} FlattenDistinct<V>(hash: Key -> nat, rows: seq<Row<V>>, n: nat)
    requires RowsOk(hash, rows) && n <= |rows|
    ensures KeysDistinct(Flatten(rows[..n]))
  {
    if n > 0 {
      FlattenDistinct(hash, rows, n - 1);
      assert rows[..n][..n - 1] == rows[..n - 1];
      var front, row := Flatten(rows[..n - 1]), rows[n - 1];
      forall a, b | 0 <= a < |front| && 0 <= b < |row| ensures front[a].key != row[b].key {
        FlattenMember(rows[..n - 1], front[a]);
        var i :| 0 <= i < n - 1 && front[a] in rows[..n - 1][i];
        var c :| 0 <= c < |rows[i]| && rows[i][c] == front[a];
      }
    }
  }

  /** Rehashing any table yields a well-formed one with the same entries, and as many of them. */
  lemma SpreadOk<V>(hash: Key -> nat, rows: seq<Row<V>>, capacity: nat)
    requires RowsOk(hash, rows) && capacity > 0
    ensures RowsOk(hash, Spread(Flatten(rows), capacity))
    ensures forall e :: e in Flatten(Spread(Flatten(rows), capacity)) <==> e in Flatten(rows)
    ensures Total(Spread(Flatten(rows), capacity)) == Total(rows)
  {
    var es: Row<V> := Flatten(rows);
    var rows': seq<Row<V>> := Spread(es, capacity);
    FlattenDistinct(hash, rows, |rows|);
    assert rows[..|rows|] == rows;
    forall i, a | 0 <= i < capacity && 0 <= a < |rows'[i]|
      ensures rows'[i][a].hashCode == hash(rows'[i][a].key) && rows'[i][a].hashCode % capacity == i
    {
      var e := rows'[i][a];
      PickMember(es, capacity, i, e);
      FlattenMember(rows, e);
      var j :| 0 <= j < |rows| && e in rows[j];
      var c :| 0 <= c < |rows[j]| && rows[j][c] == e;
    }
    forall i | 0 <= i < capacity ensures KeysDistinct(rows'[i]) { PickDistinct(es, capacity, i); }
    forall e ensures e in Flatten(rows') <==> e in es {
      FlattenMember(rows', e);
      forall i | 0 <= i < capacity { PickMember(es, capacity, i, e); }
      if e in es { assert e in rows'[e.hashCode % capacity]; }
    }
    SpreadTotal(es, capacity, capacity);
    CountAll(es, capacity);
    assert rows'[..capacity] == rows';
    FlattenLength(rows);
  }

  ghost function Below<V>(es: Row<V>, capacity: nat, n: nat): nat
    requires capacity > 0
  {
    if es == [] then 0 else
    Below(es[..|es| - 1], capacity, n) + if es[|es| - 1].hashCode % capacity < n then 1 else 0
  }

  lemma {:induction false} BelowStep<V>(es: Row<V>, capacity: nat, n: nat)
    requires capacity > 0
    ensures Below(es, capacity, n + 1) == Below(es, capacity, n) + |Pick(es, capacity, n)|
  {
    if es != [] { BelowStep(es[..|es| - 1], capacity, n); }
  }

  lemma {:induction false} CountAll<V>(es: Row<V>, capacity: nat)
    requires capacity > 0
    ensures Below(es, capacity, capacity) == |es| && Below(es, capacity, 0) == 0
  {
    if es != [] { CountAll(es[..|es| - 1], capacity); }
  }

  lemma {:induction false} SpreadTotal<V>(es: Row<V>, capacity: nat, n: nat)
    requires capacity > 0 && n <= capacity
    ensures Total(Spread(es, capacity)[..n]) == Below(es, capacity, n)
  {
    CountAll(es, capacity);
    if n > 0 {
      SpreadTotal(es, capacity, n - 1);
      BelowStep(es, capacity, n - 1);
      assert Spread(es, capacity)[..n][..n - 1] == Spread(es, capacity)[..n - 1];
    }
  }

  // ----------------------------------------------------------------- the finite map

  /** The finite map that a sequence of entries stands for. */
  ghost function ToMap<V>(es: Row<V>): map<Key, V> {
    if es == [] then map[] else ToMap(es[..|es| - 1])[es[|es| - 1].key := es[|es| - 1].value]
  }

  /** The finite map that a table stands for. */
  ghost function Abs<V>(rows: seq<Row<V>>): map<Key, V> {
    ToMap(Flatten(rows))
  }

  lemma {:induction false} ToMapGet<V>(es: Row<V>, a: nat)
    requires KeysDistinct(es) && a < |es|
    ensures es[a].key in ToMap(es) && ToMap(es)[es[a].key] == es[a].value
  {
    if a < |es| - 1 { ToMapGet(es[..|es| - 1], a); }
  }

  lemma {:induction false} ToMapKey<V>(es: Row<V>, key: Key)
    requires key in ToMap(es)
    ensures exists a :: 0 <= a < |es| && es[a].key == key
  {
    var last := |es| - 1;
    if es[last].key != key {
      ToMapKey(es[..last], key);
      var a :| 0 <= a < last && es[..last][a].key == key;
      assert es[a].key == key;
    }
  }

  lemma {:induction false} ToMapSize<V>(es: Row<V>)
    requires KeysDistinct(es)
    ensures |ToMap(es)| == |es|
  {
    if es != [] {
      var front, last := es[..|es| - 1], es[|es| - 1];
      ToMapSize(front);
      if last.key in ToMap(front) { ToMapKey(front, last.key); }
      assert ToMap(es).Keys == ToMap(front).Keys + {last.key};
    }
  }

  lemma ToMapIncluded<V>(es: Row<V>, fs: Row<V>, key: Key)
    requires KeysDistinct(es) && KeysDistinct(fs) && (forall e :: e in es ==> e in fs)
    requires key in ToMap(es)
    ensures key in ToMap(fs) && ToMap(fs)[key] == ToMap(es)[key]
  {
    hide ToMap;
    ToMapKey(es, key);
    var a :| 0 <= a < |es| && es[a].key == key;
    assert es[a] in fs;
    var b :| 0 <= b < |fs| && fs[b] == es[a];
    ToMapGet(es, a);
    ToMapGet(fs, b);
  }

  /** Two lists of the same entries, without repeated keys, stand for the same map. */
  lemma ToMapSame<V>(es: Row<V>, fs: Row<V>)
    requires KeysDistinct(es) && KeysDistinct(fs) && (forall e :: e in es <==> e in fs)
    ensures ToMap(es) == ToMap(fs)
  {
    hide ToMap;
    forall key | key in ToMap(es) ensures key in ToMap(fs) && ToMap(fs)[key] == ToMap(es)[key] {
      ToMapIncluded(es, fs, key);
    }
    forall key | key in ToMap(fs) ensures key in ToMap(es) {
      ToMapIncluded(fs, es, key);
    }
  }

  lemma {:induction false} ToMapConcat<V>(es: Row<V>, fs: Row<V>)
    ensures ToMap(es + fs) == ToMap(es) + ToMap(fs)
  {
    if fs == [] {
      assert es + fs == es;
    } else {
      var n := |fs| - 1;
      ToMapConcat(es, fs[..n]);
      assert (es + fs)[..|es + fs| - 1] == es + fs[..n];
    }
  }

  /** The bucket of a key among `n`. */
  function Slot(hash: Key -> nat, key: Key, n: nat): (b: nat)
    requires n > 0
    ensures b < n
  {
    hash(key) % n
  }

  /** Only the bucket that a key's hash code selects matters for that key. */
  lemma {:induction false} AbsBucket<V>(hash: Key -> nat, rows: seq<Row<V>>, n: nat, key: Key)
    requires RowsOk(hash, rows) && 0 < |rows| && n <= |rows|
    ensures var b, m := Slot(hash, key, |rows|), ToMap(Flatten(rows[..n]));
            (key in m <==> b < n && key in ToMap(rows[b])) && (key in m ==> m[key] == ToMap(rows[b])[key])
  {
    var b := Slot(hash, key, |rows|);
    if n > 0 {
      AbsBucket(hash, rows, n - 1, key);
      assert rows[..n][..n - 1] == rows[..n - 1];
      ToMapConcat(Flatten(rows[..n - 1]), rows[n - 1]);
      if key in ToMap(rows[n - 1]) {
        ToMapKey(rows[n - 1], key);
        assert RowOk(hash, rows[n - 1], |rows|, n - 1);
      }
    }
  }

  lemma AbsLookup<V>(hash: Key -> nat, rows: seq<Row<V>>, key: Key)
    requires RowsOk(hash, rows) && 0 < |rows|
    ensures var row := rows[Slot(hash, key, |rows|)];
            (key in Abs(rows) <==> key in ToMap(row)) && (key in Abs(rows) ==> Abs(rows)[key] == ToMap(row)[key])
  {
    AbsBucket(hash, rows, |rows|, key);
    assert rows[..|rows|] == rows;
  }

  /** The number of entries is the size of the map. */
  lemma AbsSize<V>(hash: Key -> nat, rows: seq<Row<V>>)
    requires RowsOk(hash, rows)
    ensures |Abs(rows)| == Total(rows)
  {
    FlattenDistinct(hash, rows, |rows|);
    assert rows[..|rows|] == rows;
    ToMapSize(Flatten(rows));
    FlattenLength(rows);
  }

  /** Rehashing to any capacity keeps the map. */
  lemma AbsSpread<V>(hash: Key -> nat, rows: seq<Row<V>>, capacity: nat)
    requires RowsOk(hash, rows) && capacity > 0
    ensures Abs(Spread(Flatten(rows), capacity)) == Abs(rows)
  {
    var rows' := Spread(Flatten(rows), capacity);
    SpreadOk(hash, rows, capacity);
    FlattenDistinct(hash, rows, |rows|);
    FlattenDistinct(hash, rows', capacity);
    assert rows[..|rows|] == rows && rows'[..capacity] == rows';
    ToMapSame(Flatten(rows), Flatten(rows'));
  }

  lemma {:induction false} UpdateTotal<V>(rows: seq<Row<V>>, i: nat, row: Row<V>)
    requires i < |rows|
    ensures Total(rows[i := row]) == Total(rows) - |rows[i]| + |row|
  {
    var n := |rows| - 1;
    if i == n {
      assert rows[i := row][..n] == rows[..n];
    } else {
      UpdateTotal(rows[..n], i, row);
      assert rows[i := row][..n] == rows[..n][i := row];
    }
  }

  /** Storing a value under `key` in its bucket stores it in the map. */
  lemma AbsPut<V>(hash: Key -> nat, rows: seq<Row<V>>, key: Key, value: V, row: Row<V>)
    requires RowsOk(hash, rows) && 0 < |rows|
    requires var b := Slot(hash, key, |rows|);
             RowOk(hash, row, |rows|, b) && ToMap(row) == ToMap(rows[b])[key := value]
    ensures var b := Slot(hash, key, |rows|);
            RowsOk(hash, rows[b := row]) && Abs(rows[b := row]) == Abs(rows)[key := value]
  {
    var b := Slot(hash, key, |rows|);
    hide ToMap, Abs, Slot;
    var m, n := Abs(rows[b := row]), Abs(rows)[key := value];
    forall k ensures (k in m <==> k in n) && (k in m ==> m[k] == n[k]) {
      AbsLookup(hash, rows, k);
      AbsLookup(hash, rows[b := row], k);
    }
  }

  /** Removing `key` from its bucket removes it from the map. */
  lemma AbsDrop<V>(hash: Key -> nat, rows: seq<Row<V>>, key: Key, row: Row<V>)
    requires RowsOk(hash, rows) && 0 < |rows|
    requires var b := Slot(hash, key, |rows|); RowOk(hash, row, |rows|, b) && ToMap(row) == ToMap(rows[b]) - {key}
    ensures var b := Slot(hash, key, |rows|); RowsOk(hash, rows[b := row]) && Abs(rows[b := row]) == Abs(rows) - {key}
  {
    var b := Slot(hash, key, |rows|);
    hide ToMap, Abs, Slot;
    var m, n := Abs(rows[b := row]), Abs(rows) - {key};
    forall k ensures (k in m <==> k in n) && (k in m ==> m[k] == n[k]) {
      AbsLookup(hash, rows, k);
      AbsLookup(hash, rows[b := row], k);
    }
  }

  ghost function Without<T>(s: seq<T>, a: nat): seq<T>
    requires a < |s|
  {
    s[..a] + s[a + 1..]
  }

  lemma {:induction false} ToMapSet<V>(row: Row<V>, a: nat, value: V)
    requires KeysDistinct(row) && a < |row|
    ensures ToMap(row[a := row[a].(value := value)]) == ToMap(row)[row[a].key := value]
  {
    var n := |row| - 1;
    var row' := row[a := row[a].(value := value)];
    if a < n {
      ToMapSet(row[..n], a, value);
      assert row'[..n] == row[..n][a := row[..n][a].(value := value)];
    } else {
      assert row'[..n] == row[..n];
    }
  }

  lemma {:induction false} ToMapWithout<V>(row: Row<V>, a: nat)
    requires KeysDistinct(row) && a < |row|
    ensures ToMap(Without(row, a)) == ToMap(row) - {row[a].key}
  {
    var n := |row| - 1;
    if a < n {
      assert KeysDistinct(row[..n]) && row[..n][a].key == row[a].key != row[n].key;
      hide Without, KeysDistinct;
      ToMapWithout(row[..n], a);
      WithoutLast(row, a);
    } else {
      ToMapLast(row);
      assert Without(row, a) == row[..n];
    }
  }

  lemma ToMapLast<V>(row: Row<V>)
    requires KeysDistinct(row) && row != []
    ensures ToMap(row[..|row| - 1]) == ToMap(row) - {row[|row| - 1].key}
  {
    var n := |row| - 1;
    if row[n].key in ToMap(row[..n]) { ToMapKey(row[..n], row[n].key); }
  }

  lemma WithoutLast<T>(s: seq<T>, a: nat)
    requires a < |s| - 1
    ensures var n, t := |s| - 1, Without(s, a);
            |t| == n && t[n - 1] == s[n] && t[..n - 1] == Without(s[..n], a)
  {
  }

  /** A key that is not in its bucket is not in the map. */
  lemma Missing<V>(hash: Key -> nat, rows: seq<Row<V>>, key: Key)
    requires RowsOk(hash, rows) && 0 < |rows|
    requires var row := rows[Slot(hash, key, |rows|)]; forall a :: 0 <= a < |row| ==> row[a].key != key
    ensures key !in Abs(rows)
  {
    AbsLookup(hash, rows, key);
    var row := rows[Slot(hash, key, |rows|)];
    if key in ToMap(row) { ToMapKey(row, key); }
  }

  /** What is found in a bucket is what the map holds. */
  lemma Found<V>(hash: Key -> nat, rows: seq<Row<V>>, b: nat, a: nat)
    requires RowsOk(hash, rows) && b < |rows| && a < |rows[b]|
    ensures Slot(hash, rows[b][a].key, |rows|) == b
    ensures rows[b][a].key in Abs(rows) && Abs(rows)[rows[b][a].key] == rows[b][a].value
  {
    assert RowOk(hash, rows[b], |rows|, b);
    AbsLookup(hash, rows, rows[b][a].key);
    ToMapGet(rows[b], a);
  }

  /** hash_insert with a new key: the entry goes to the end of its bucket. */
  lemma AddEntry<V>(hash: Key -> nat, rows: seq<Row<V>>, e: HashData<V>, rows': seq<Row<V>>)
    requires RowsOk(hash, rows) && 0 < |rows| && e.hashCode == hash(e.key)
    requires var b := Slot(hash, e.key, |rows|);
             && (forall a :: 0 <= a < |rows[b]| ==> rows[b][a].key != e.key)
             && rows' == rows[b := rows[b] + [e]]
    ensures RowsOk(hash, rows') && Abs(rows') == Abs(rows)[e.key := e.value] && Total(rows') == Total(rows) + 1
  {
    var b := Slot(hash, e.key, |rows|);
    assert RowOk(hash, rows[b] + [e], |rows|, b);
    AbsPut(hash, rows, e.key, e.value, rows[b] + [e]);
    UpdateTotal(rows, b, rows[b] + [e]);
  }

  /** hash_insert with a known key: the value is overwritten. */
  lemma SetEntry<V>(hash: Key -> nat, rows: seq<Row<V>>, b: nat, a: nat, value: V, rows': seq<Row<V>>)
    requires RowsOk(hash, rows) && b < |rows| && a < |rows[b]|
    requires rows' == rows[b := rows[b][a := rows[b][a].(value := value)]]
    ensures RowsOk(hash, rows') && Abs(rows') == Abs(rows)[rows[b][a].key := value] && Total(rows') == Total(rows)
  {
    var row := rows[b][a := rows[b][a].(value := value)];
    Found(hash, rows, b, a);
    assert RowOk(hash, rows[b], |rows|, b);
    assert RowOk(hash, row, |rows|, b);
    ToMapSet(rows[b], a, value);
    AbsPut(hash, rows, rows[b][a].key, value, row);
    UpdateTotal(rows, b, row);
  }

  /** hash_delete of a known key. */
  lemma DropEntry<V>(hash: Key -> nat, rows: seq<Row<V>>, b: nat, a: nat, rows': seq<Row<V>>)
    requires RowsOk(hash, rows) && b < |rows| && a < |rows[b]| && rows' == rows[b := Without(rows[b], a)]
    ensures RowsOk(hash, rows') && Abs(rows') == Abs(rows) - {rows[b][a].key} && Total(rows') == Total(rows) - 1
  {
    Found(hash, rows, b, a);
    assert RowOk(hash, rows[b], |rows|, b);
    assert RowOk(hash, Without(rows[b], a), |rows|, b);
    ToMapWithout(rows[b], a);
    AbsDrop(hash, rows, rows[b][a].key, Without(rows[b], a));
    UpdateTotal(rows, b, Without(rows[b], a));
  }

  // ----------------------------------------------------------------- capacities

  /** prime_array */
  const PRIMES: seq<nat> := [
    1, 3, 17, 37, 79, 163, 331, 673, 1361, 2729, 5471, 10949, 21911, 43853, 87719, 175447, 350899, 701819,
    1403641, 2807303, 5614657, 11229331, 22458671, 44917381, 89834777, 179669557, 359339171, 718678369,
    1437356741, 2147483647]

  /** What `pHash->capacity` points to: an element of prime_array, or a cell allocated by hash_best_op. */
  datatype Capacity = Prime(index: nat) | Owned(size: nat)

  predicate CapacityOk(c: Capacity) {
    if c.Prime? then c.index < |PRIMES| else 0 < c.size
  }

  function Size(c: Capacity): (n: nat)
    requires CapacityOk(c)
    ensures n > 0
  {
    if c.Prime? then PRIMES[c.index] else c.size
  }

  /** The search loop of hash_init and _rehash: the first prime above `n`, or the end of the table. */
  method FirstPrimeAbove(n: nat) returns (i: nat)
    ensures i <= |PRIMES| && (forall j :: 0 <= j < i ==> PRIMES[j] <= n) && (i < |PRIMES| ==> n < PRIMES[i])
  {
    i := 0;
    while i < |PRIMES| && PRIMES[i] <= n
      invariant i <= |PRIMES| && forall j :: 0 <= j < i ==> PRIMES[j] <= n
    {
      i := i + 1;
    }
  }

  const ENOMEM: int := 12
  const EINVAL: int := 22

  // ----------------------------------------------------------------- bucket arrays

  type List<V> = ChainList<HashData<V>>

  /** The chains in `items` are valid, disjoint lists within the footprint `R` that hold the rows. */
  ghost predicate Buckets<V>(items: array<List<V>>, rows: seq<Row<V>>, R: set<object>)
    reads R
  {
    && items in R
    && 0 < items.Length == |rows|
    && (forall i :: 0 <= i < items.Length ==> items[i] in R)
    && (forall i, a :: 0 <= i < items.Length && 0 <= a < |items[i].spine| ==>
          items[i].spine[a] in R && items[i].spine[a].owner == items[i])
    && (forall i :: 0 <= i < items.Length ==> items[i].Valid() && items[i].Contents() == rows[i])
    && (forall i, j :: 0 <= i < j < items.Length ==> items[i] != items[j])
  }

  /** _hash_alloc_buckets, when memory is available. */
  method AllocBuckets<V>(n: nat) returns (items: array<List<V>>, ghost R: set<object>)
    requires n > 0
    ensures Buckets(items, Spread<V>([], n), R) && fresh(R) && items.Length == n
  {
    var lists: seq<List<V>> := [];
    R := {};
    while |lists| < n
      invariant |lists| <= n
      invariant forall i :: 0 <= i < |lists| ==> lists[i] in R && lists[i].Valid() && lists[i].spine == []
      invariant forall i, j :: 0 <= i < j < |lists| ==> lists[i] != lists[j]
      invariant fresh(R)
    {
      var list := new ChainList<HashData<V>>();
      lists := lists + [list];
      R := R + {list};
    }
    items := new List<V>[n](i requires 0 <= i < n => lists[i]);
    R := R + {items};
  }

  /** addNode on bucket `b`. */
  method AppendTo<V>(items: array<List<V>>, b: nat, e: HashData<V>, ghost rows: seq<Row<V>>, ghost R: set<object>)
    returns (ghost R': set<object>)
    requires Buckets(items, rows, R) && b < items.Length
    modifies R
    ensures Buckets(items, rows[b := rows[b] + [e]], R') && R <= R' && fresh(R' - R)
  {
    hide ChainList.Valid;
    ghost var list := items[b];
    items[b].AppendNode(e);
    R' := R + {list.spine[|list.spine| - 1]};
    forall i | 0 <= i < items.Length && i != b
      ensures items[i].Valid() && items[i].spine == old(items[i].spine) && items[i].Contents() == rows[i]
    {
      assert items[i] != list;
    }
  }

  /** deleteNodeEx on the `a`-th node of bucket `b`. */
  method RemoveAt<V>(items: array<List<V>>, b: nat, previous: ChainNode?<HashData<V>>, node: ChainNode<HashData<V>>,
                     ghost a: nat, ghost rows: seq<Row<V>>, ghost R: set<object>)
    requires Buckets(items, rows, R) && b < items.Length && a < |rows[b]| == |items[b].spine|
    requires items[b].spine[a] == node && previous == if a == 0 then null else items[b].spine[a - 1]
    modifies R
    ensures Buckets(items, rows[b := Without(rows[b], a)], R)
  {
    hide ChainList.Valid;
    ghost var list := items[b];
    items[b].DeleteNodeEx(previous, node, a);
    forall i | 0 <= i < items.Length && i != b
      ensures items[i].Valid() && items[i].spine == old(items[i].spine) && items[i].Contents() == rows[i]
    {
      assert items[i] != list;
    }
  }

  /** Assigns the value of the `a`-th entry of bucket `b`. */
  method SetValue<V>(items: array<List<V>>, b: nat, node: ChainNode<HashData<V>>, value: V,
                     ghost a: nat, ghost rows: seq<Row<V>>, ghost R: set<object>)
    requires Buckets(items, rows, R) && b < items.Length && a < |rows[b]| == |items[b].spine|
    requires items[b].spine[a] == node
    modifies R
    ensures Buckets(items, rows[b := rows[b][a := rows[b][a].(value := value)]], R)
  {
    hide ChainList.Valid;
    ghost var list := items[b];
    items[b].SetData(node, node.data.(value := value), a);
    forall i | 0 <= i < items.Length && i != b
      ensures items[i].Valid() && items[i].spine == old(items[i].spine) && items[i].Contents() == rows[i]
    {
      assert items[i] != list;
    }
  }

  /** The search of _chain_find_entry and of hash_delete: the node of `key` in bucket `b` and the one before it. */
  method Locate<V>(items: array<List<V>>, key: Key, b: nat, ghost rows: seq<Row<V>>, ghost R: set<object>)
    returns (previous: ChainNode?<HashData<V>>, node: ChainNode?<HashData<V>>, ghost a: nat)
    requires Buckets(items, rows, R) && b < items.Length
    ensures node == null ==> forall i :: 0 <= i < |rows[b]| ==> rows[b][i].key != key
    ensures node != null ==> a < |rows[b]| == |items[b].spine| && items[b].spine[a] == node
    ensures node != null ==> rows[b][a] == node.data && node.data.key == key
    ensures node != null ==> previous == if a == 0 then null else items[b].spine[a - 1]
  {
    previous, node, a := null, items[b].head, 0;
    while node != null
      invariant a <= |rows[b]|
      invariant node == if a < |rows[b]| then items[b].spine[a] else null
      invariant previous == if a == 0 then null else items[b].spine[a - 1]
      invariant forall i :: 0 <= i < a ==> rows[b][i].key != key
      decreases |rows[b]| - a
    {
      if node.data.key == key {
        return;
      }
      previous := node;
      node := node.next;
      a := a + 1;
    }
  }

  lemma SpreadAppend<V>(es: Row<V>, e: HashData<V>, n: nat)
    requires n > 0
    ensures var b, rows := e.hashCode % n, Spread(es, n); Spread(es + [e], n) == rows[b := rows[b] + [e]]
  {
    var b, rows, rows' := e.hashCode % n, Spread(es, n), Spread(es + [e], n);
    assert (es + [e])[..|es|] == es;
    forall i | 0 <= i < n ensures rows'[i] == rows[b := rows[b] + [e]][i] {
      assert rows'[i] == Pick(es + [e], n, i);
    }
  }

  /** The inner loop of _rehash1: the entries of one old chain join their new buckets. */
  method MoveChain<V>(list: List<V>, items: array<List<V>>, ghost done: Row<V>, ghost R: set<object>)
    returns (ghost R': set<object>)
    requires list.Valid() && items.Length > 0 && Buckets(items, Spread(done, items.Length), R)
    requires list !in R && forall n :: n in list.spine ==> n !in R
    modifies R
    ensures Buckets(items, Spread(done + list.Contents(), items.Length), R') && R <= R' && fresh(R' - R)
  {
    hide Buckets;
    R' := R;
    var node := list.head;
    ghost var a := 0;
    assert done + list.Contents()[..0] == done;
    while node != null
      invariant a <= |list.spine| && node == if a < |list.spine| then list.spine[a] else null
      invariant Buckets(items, Spread(done + list.Contents()[..a], items.Length), R')
      invariant R <= R' && fresh(R' - R)
      decreases |list.spine| - a
    {
      ghost var soFar := done + list.Contents()[..a];
      SpreadAppend(soFar, node.data, items.Length);
      assert soFar + [node.data] == done + list.Contents()[..a + 1];
      R' := AppendTo(items, node.data.hashCode % items.Length, node.data, Spread(soFar, items.Length), R');
      node := node.next;
      a := a + 1;
    }
    assert list.Contents()[..a] == list.Contents();
  }

  lemma BucketCount<V>(items: array<List<V>>, rows: seq<Row<V>>, R: set<object>)
    requires Buckets(items, rows, R)
    ensures items.Length == |rows|
  {
  }

  lemma BucketAt<V>(items: array<List<V>>, rows: seq<Row<V>>, R: set<object>, i: nat)
    requires Buckets(items, rows, R) && i < items.Length
    ensures i < |rows| && items[i] in R && items[i].Valid() && items[i].Contents() == rows[i]
    ensures forall n :: n in items[i].spine ==> n in R
  {
    hide ChainList.Valid;
  }

  lemma FlattenNone<V>(rows: seq<Row<V>>)
    ensures Flatten(rows[..0]) == []
  {
  }

  lemma FlattenNext<V>(rows: seq<Row<V>>, p: nat)
    requires p < |rows|
    ensures Flatten(rows[..p + 1]) == Flatten(rows[..p]) + rows[p]
  {
    assert rows[..p + 1][..p] == rows[..p];
  }

  /** The outer loop of _rehash1: every old chain is emptied into the new buckets. */
  method MoveAll<V>(old_items: array<List<V>>, ghost rows: seq<Row<V>>, ghost nodes: set<object>,
                    items: array<List<V>>, ghost R: set<object>) returns (ghost R': set<object>)
    requires Buckets(old_items, rows, nodes) && nodes !! R
    requires items.Length > 0 && Buckets(items, Spread<V>([], items.Length), R)
    modifies R
    ensures Buckets(items, Spread(Flatten(rows), items.Length), R') && R <= R' && fresh(R' - R)
  {
    hide ChainList.Valid, Spread, Flatten, Buckets;
    R' := R;
    var p := 0;
    BucketCount(old_items, rows, nodes);
    FlattenNone(rows);
    while p < old_items.Length
      invariant p <= old_items.Length
      invariant Buckets(old_items, rows, nodes) && nodes !! R' && R <= R' && fresh(R' - R)
      invariant Buckets(items, Spread(Flatten(rows[..p]), items.Length), R')
    {
      FlattenNext(rows, p);
      BucketAt(old_items, rows, nodes, p);
      R' := MoveChain(old_items[p], items, Flatten(rows[..p]), R');
      p := p + 1;
    }
    assert rows[..p] == rows;
  }

  // ----------------------------------------------------------------- conflicts

  /** Two entries of the bucket have different hash codes. */
  ghost predicate Conflicted<V>(row: Row<V>) {
    exists a, b :: 0 <= a < b < |row| && row[a].hashCode != row[b].hashCode
  }

  ghost function Conflicts<V>(rows: seq<Row<V>>): nat {
    if rows == [] then 0 else Conflicts(rows[..|rows| - 1]) + if Conflicted(rows[|rows| - 1]) then 1 else 0
  }

  lemma {:induction false} NoConflicts<V>(rows: seq<Row<V>>)
    ensures Conflicts(rows) == 0 <==> forall i :: 0 <= i < |rows| ==> !Conflicted(rows[i])
  {
    if rows != [] {
      var n := |rows| - 1;
      NoConflicts(rows[..n]);
      if Conflicts(rows) == 0 {
        forall i | 0 <= i < |rows| ensures !Conflicted(rows[i]) { if i < n { assert rows[..n][i] == rows[i]; } }
      } else if Conflicts(rows[..n]) > 0 {
        var i :| 0 <= i < n && Conflicted(rows[..n][i]);
        assert rows[i] == rows[..n][i];
      }
    }
  }

  /** The least number above every hash code. */
  ghost function CodeBound<V>(es: Row<V>): nat {
    if es == [] then 0 else
    var m, last := CodeBound(es[..|es| - 1]), es[|es| - 1];
    if last.hashCode < m then m else last.hashCode + 1
  }

  ghost predicate CodesBelow<V>(es: Row<V>, n: nat) {
    forall e :: e in es ==> e.hashCode < n
  }

  lemma {:induction false} CodeBoundOk<V>(es: Row<V>)
    ensures CodesBelow(es, CodeBound(es))
  {
    if es != [] {
      assert es == es[..|es| - 1] + [es[|es| - 1]];
      CodeBoundOk(es[..|es| - 1]);
    }
  }

  lemma CodesBelowSpread<V>(es: Row<V>, capacity: nat, n: nat)
    requires 0 < capacity && CodesBelow(es, n)
    ensures CodesBelow(Flatten(Spread(es, capacity)), n)
  {
    var rows := Spread(es, capacity);
    forall e | e in Flatten(rows) ensures e.hashCode < n {
      FlattenMember(rows, e);
      var i :| 0 <= i < capacity && e in rows[i];
      PickMember(es, capacity, i, e);
    }
  }

  lemma SmallMod(x: nat, n: nat)
    requires x < n
    ensures x % n == x
  {
  }

  /** Once the capacity exceeds every hash code, a bucket holds a single code. */
  lemma LargeIsConflictFree<V>(es: Row<V>, capacity: nat)
    requires 0 < capacity && CodesBelow(es, capacity)
    ensures Conflicts(Spread(es, capacity)) == 0
  {
    var rows := Spread(es, capacity);
    NoConflicts(rows);
    forall i | 0 <= i < capacity ensures !Conflicted(rows[i]) {
      forall a | 0 <= a < |rows[i]| ensures rows[i][a].hashCode == i {
        PickMember(es, capacity, i, rows[i][a]);
        SmallMod(rows[i][a].hashCode, capacity);
      }
    }
  }

  /** The test of _hash_conflict_count on one chain. */
  method ChainConflicted<V>(list: List<V>) returns (conflicted: bool)
    requires list.Valid()
    ensures conflicted <==> Conflicted(list.Contents())
  {
    ghost var row := list.Contents();
    conflicted := false;
    assert |row| > 1 ==> list.spine[0].next == list.spine[1];
    if list.head == null || list.head.next == null {
      return;
    }
    var node := list.head;
    ghost var a := 0;
    while node != null
      invariant a <= |row| && node == if a < |row| then list.spine[a] else null
      invariant forall x, y :: 0 <= x < a && x < y < |row| ==> row[x].hashCode == row[y].hashCode
      decreases |row| - a
    {
      var sub := node.next;
      ghost var b := a + 1;
      while sub != null
        invariant a < b <= |row| && sub == if b < |row| then list.spine[b] else null
        invariant forall y :: a < y < b ==> row[a].hashCode == row[y].hashCode
        decreases |row| - b
      {
        if node.data.hashCode != sub.data.hashCode {
          assert row[a].hashCode != row[b].hashCode;
          return true;
        }
        sub := sub.next;
        b := b + 1;
      }
      node := node.next;
      a := a + 1;
    }
  }

  /** A conflict takes two entries. */
  lemma {:induction false} ConflictNeedsTwo<V>(rows: seq<Row<V>>)
    requires Conflicts(rows) > 0
    ensures Total(rows) >= 2
  {
    if !Conflicted(rows[|rows| - 1]) { ConflictNeedsTwo(rows[..|rows| - 1]); }
  }

  /** The inner loop of hash_walk. */
  method WalkChain<V>(list: List<V>, before: Row<V>) returns (visited: Row<V>)
    requires list.Valid()
    ensures visited == before + list.Contents()
  {
    visited := before;
    var node := list.head;
    ghost var a := 0;
    while node != null
      invariant a <= |list.spine| && node == if a < |list.spine| then list.spine[a] else null
      invariant visited == before + list.Contents()[..a]
      decreases |list.spine| - a
    {
      visited := visited + [node.data];
      node := node.next;
      a := a + 1;
    }
    assert list.Contents()[..a] == list.Contents();
  }

  predicate HasFactor(c: nat) {
    c % 3 == 0 || c % 5 == 0 || c % 7 == 0
  }

  predicate Coprime210(c: nat) {
    c % 2 == 1 && !HasFactor(c)
  }

  /** An odd number above c that 3, 5 and 7 do not divide. */
  lemma BeforeMultiple(c: nat) returns (limit: nat)
    ensures limit > c + 2 && limit % 2 == 1 && !HasFactor(limit)
  {
    limit := 210 * c + 209;
    assert limit == 2 * (105 * c + 104) + 1;
    assert limit == 3 * (70 * c + 69) + 2 && limit == 5 * (42 * c + 41) + 4 && limit == 7 * (30 * c + 29) + 6;
  }

  lemma SkipOne(d: nat, limit: nat)
    requires d % 2 == 1 && HasFactor(d) && limit % 2 == 1 && !HasFactor(limit) && d <= limit
    ensures !Coprime210(d) && !Coprime210(d + 1) && (d + 2) % 2 == 1 && d + 2 <= limit
  {
  }

  /** The inner loop of hash_best_op: the next odd capacity that 3, 5 and 7 do not divide. */
  method NextCandidate(c: nat) returns (d: nat)
    requires c % 2 == 1
    ensures d > c && Coprime210(d) && forall x :: c < x < d ==> !Coprime210(x)
  {
    hide HasFactor;
    ghost var limit := BeforeMultiple(c);
    d := c + 2;
    while HasFactor(d)
      invariant c < d <= limit && d % 2 == 1 && forall x :: c < x < d ==> !Coprime210(x)
      decreases limit - d
    {
      SkipOne(d, limit);
      d := d + 2;
    }
  }

  ghost function Last(s: seq<nat>): nat
    requires s != []
  {
    s[|s| - 1]
  }

  /** Capacities in the order hash_best_op tries them. */
  ghost predicate Candidates(tried: seq<nat>) {
    && (forall k :: 0 <= k < |tried| ==> Coprime210(tried[k]))
    && (forall j, k :: 0 <= j < k < |tried| ==> tried[j] < tried[k])
  }

  /** The candidates tried are, in order and without a gap, those from the suggested capacity on, if it is above 2 and
      no smaller than the number of entries, else those above about twice that number. */
  ghost predicate FirstTried(suggest: int, count: int, tried: seq<nat>) {
    var from := if suggest > 2 && suggest >= count then suggest else 2 * count;
    && (forall k :: 0 <= k < |tried| ==> from <= tried[k])
    && (tried != [] ==>
          forall x :: from <= x <= Last(tried) && x % 2 == 1 && x % 3 != 0 && x % 5 != 0 && x % 7 != 0 ==> x in tried)
  }

  lemma StartTried(suggest: int, count: int, start: nat, tried: seq<nat>)
    requires NoneSkipped(start, tried) && Candidates(tried)
    requires start == if suggest > 2 && suggest >= count then (if suggest % 2 == 0 then suggest - 1 else suggest - 2)
                      else 2 * (count - 1) + 1
    ensures FirstTried(suggest, count, tried)
  {
    var from := if suggest > 2 && suggest >= count then suggest else 2 * count;
    forall x: nat | Coprime210(x) ensures start < x <==> from <= x { OddFrom(from, start, x); }
    hide HasFactor;
  }

  lemma OddFrom(from: nat, start: nat, x: nat)
    requires x % 2 == 1 && start == if from % 2 == 0 then from - 1 else from - 2
    ensures start < x <==> from <= x
  {
  }

  /** Of the candidates above c none is left out up to the last one tried. */
  ghost predicate NoneSkipped(c: nat, tried: seq<nat>) {
    && (forall k :: 0 <= k < |tried| ==> c < tried[k])
    && (tried != [] ==> forall x :: c < x <= Last(tried) && Coprime210(x) ==> x in tried)
  }

  lemma SkippedStart(c: nat)
    ensures NoneSkipped(c, [])
  {
  }

  lemma CandidateOdd(c: nat)
    requires Coprime210(c)
    ensures c % 2 == 1
  {
  }

  lemma NoneSkippedNext(c: nat, tried: seq<nat>, from: nat, d: nat)
    requires NoneSkipped(c, tried) && from < d && (if tried == [] then from == c else from == Last(tried))
    requires c <= from && forall x :: from < x < d ==> !Coprime210(x)
    ensures NoneSkipped(c, tried + [d])
  {
    forall x | c < x <= d && Coprime210(x) ensures x in tried + [d] {
      if x <= from { assert x in tried; } else { assert (tried + [d])[|tried|] == d; }
    }
  }

  // ----------------------------------------------------------------- the table

  /** Is there a next capacity for _rehash? */
  predicate CanGrow(c: Capacity) {
    if c.Prime? then c.index + 1 < |PRIMES| else 0 < c.size < PRIMES[|PRIMES| - 1]
  }

  /** With fewer entries than this the prime table cannot run out. */
  const MAX_ITEMS: int := 214748364

  lemma RoomToGrow(count: int, c: Capacity, loadFactor: real)
    requires 0 <= count <= MAX_ITEMS && 0.1 <= loadFactor && CapacityOk(c)
    requires count as real / Size(c) as real >= loadFactor
    ensures CanGrow(c)
  {
    var size := Size(c) as real;
    assert count as real == (count as real / size) * size;
    assert (count as real / size) * size >= 0.1 * size;
  }

  class HashArray<V> {
    const hashFunc: Key -> nat
    const loadFactor: real
    var items: array<List<V>>
    var itemCount: int
    var capacity: Capacity
    ghost var rows: seq<Row<V>>
    ghost var nodes: set<object>      // the footprint of the chains

    ghost predicate Held()
      reads this, nodes
    {
      this !in nodes && Buckets(items, rows, nodes)
    }

    ghost predicate Counted()
      reads this
    {
      rows != [] && RowsOk(hashFunc, rows) && itemCount == Total(rows) && 0.1 <= loadFactor <= 1.0
    }

    ghost predicate Sized()
      reads this
    {
      CapacityOk(capacity) && Size(capacity) == |rows|
    }

    /** The chains hold `itemCount` entries, each in the bucket that its hash code selects. */
    ghost predicate Valid()
      reads this, nodes
    {
      Held() && Counted() && Sized()
    }

    constructor (hashFunc: Key -> nat, loadFactor: real, items: array<List<V>>, capacity: Capacity,
                 ghost nodes: set<object>)
      requires CapacityOk(capacity) && Size(capacity) == items.Length
      requires Buckets(items, Spread<V>([], items.Length), nodes)
      ensures Valid() && rows == Spread([], items.Length) && Abs(rows) == map[] && itemCount == 0
      ensures this.hashFunc == hashFunc && this.capacity == capacity && this.nodes == nodes
      ensures this.loadFactor == if 0.1 <= loadFactor <= 1.0 then loadFactor else 0.5
    {
      this.hashFunc := hashFunc;
      this.loadFactor := if 0.1 <= loadFactor <= 1.0 then loadFactor else 0.5;
      this.items := items;
      this.itemCount := 0;
      this.capacity := capacity;
      this.nodes := nodes;
      this.rows := Spread([], items.Length);
      SpreadTotal<V>([], items.Length, items.Length);
      assert Spread<V>([], items.Length)[..items.Length] == Spread<V>([], items.Length);
      new;
      AbsSize(hashFunc, rows);
    }

    /** hash_init */
    static method Init(hashFunc: Key -> nat, capacity: nat, loadFactor: real, allocOk: bool)
      returns (result: int, table: HashArray?<V>)
      ensures result == if PRIMES[|PRIMES| - 1] <= capacity then EINVAL else if allocOk then 0 else ENOMEM
      ensures table != null <==> result == 0
      ensures table != null ==> fresh(table) && fresh(table.nodes) && table.Valid()
      ensures table != null ==> Abs(table.rows) == map[] && table.itemCount == 0 && table.hashFunc == hashFunc
      ensures table != null ==> table.capacity.Prime? && capacity < |table.rows|
      ensures table != null ==> forall j :: 0 <= j < table.capacity.index ==> PRIMES[j] <= capacity
    {
      var i := FirstPrimeAbove(capacity);
      if i == |PRIMES| {
        return EINVAL, null;
      }
      if !allocOk {
        return ENOMEM, null;
      }
      var items, R := AllocBuckets<V>(Size(Prime(i)));
      table := new HashArray<V>(hashFunc, loadFactor, items, Prime(i), R);
      result := 0;
    }

    /** hash_find */
    method Find(key: Key) returns (v: Option<V>)
      requires Valid()
      ensures v == if key in Abs(rows) then Some(Abs(rows)[key]) else None
    {
      hide Slot, Abs, RowsOk, Total;
      var b := Slot(hashFunc, key, Size(capacity));
      var _, node, a := Locate(items, key, b, rows, nodes);
      if node != null {
        Found(hashFunc, rows, b, a);
        v := Some(node.data.value);
      } else {
        Missing(hashFunc, rows, key);
        v := None;
      }
    }

    /** hash_delete */
    method Delete(key: Key) returns (result: int)
      requires Valid()
      modifies this, nodes
      ensures Valid() && nodes == old(nodes) && capacity == old(capacity)
      ensures Abs(rows) == Abs(old(rows)) - {key}
      ensures result == if key in Abs(old(rows)) then 1 else 0
      ensures itemCount == old(itemCount) - result
    {
      hide Slot, Abs, RowsOk, Total, Size, CapacityOk, ChainList.Valid;
      var b := Slot(hashFunc, key, Size(capacity));
      var previous, node, a := Locate(items, key, b, rows, nodes);
      if node != null {
        ghost var rows' := rows[b := Without(rows[b], a)];
        Found(hashFunc, rows, b, a);
        DropEntry(hashFunc, rows, b, a, rows');
        RemoveAt(items, b, previous, node, a, rows, nodes);
        rows := rows';
        itemCount := itemCount - 1;
        result := 1;
      } else {
        Missing(hashFunc, rows, key);
        assert Abs(rows) - {key} == Abs(rows);
        result := 0;
      }
    }

    /** _rehash1; `allocOk` says whether the bucket array can be allocated. */
    method Rehash1(newCapacity: Capacity, allocOk: bool) returns (result: int)
      requires Held() && Counted() && CapacityOk(newCapacity)
      modifies this
      ensures Held() && Counted() && itemCount == old(itemCount) && capacity == newCapacity
      ensures result == if allocOk then 0 else ENOMEM
      ensures rows == if allocOk then Spread(Flatten(old(rows)), Size(newCapacity)) else old(rows)
      ensures allocOk ==> Sized() && Abs(rows) == Abs(old(rows)) && fresh(nodes)
      ensures !allocOk ==> items == old(items) && nodes == old(nodes)
    {
      hide Abs, RowsOk, Total, Buckets, Flatten, Spread;
      var old_items := items;
      capacity := newCapacity;
      if !allocOk {
        return ENOMEM;
      }
      var n := Size(newCapacity);
      var fresh_items, R := AllocBuckets<V>(n);
      R := MoveAll(old_items, rows, nodes, fresh_items, R);
      SpreadOk(hashFunc, rows, n);
      AbsSpread(hashFunc, rows, n);
      items, nodes := fresh_items, R;
      rows := Spread(Flatten(rows), n);
      result := 0;
    }

    /** _rehash */
    method Rehash(allocOk: bool) returns (result: int)
      requires Valid() && CanGrow(capacity)
      modifies this
      ensures Valid() && itemCount == old(itemCount) && Abs(rows) == Abs(old(rows))
      ensures result == if allocOk then 0 else ENOMEM
      ensures allocOk ==> fresh(nodes) && |rows| > |old(rows)| && capacity.Prime?
      ensures allocOk && old(capacity).Prime? ==> capacity == Prime(old(capacity).index + 1)
      ensures allocOk && old(capacity).Owned? ==> forall j :: 0 <= j < capacity.index ==> PRIMES[j] <= |old(rows)|
      ensures allocOk ==> rows == Spread(Flatten(old(rows)), |rows|)
      ensures !allocOk ==> items == old(items) && nodes == old(nodes) && rows == old(rows) && capacity == old(capacity)
    {
      hide Abs, RowsOk, Total, Buckets, Flatten, Spread;
      var oldCapacity := capacity;
      if capacity.Owned? {
        var i := FirstPrimeAbove(Size(capacity));
        capacity := Prime(i);
      } else {
        capacity := Prime(capacity.index + 1);
      }
      result := Rehash1(capacity, allocOk);
      if result != 0 {
        capacity := oldCapacity;
      }
    }
  
    /** Has the load factor been reached? */
    static ghost predicate Reached(count: int, size: nat, loadFactor: real) {
      count as real >= loadFactor * size as real
    }

    static predicate Full(count: int, size: nat, loadFactor: real)
      requires size > 0
    {
      count as real / size as real >= loadFactor
    }

    static lemma FullIff(count: int, size: nat, loadFactor: real)
      requires size > 0
      ensures Full(count, size, loadFactor) <==> Reached(count, size, loadFactor)
    {
      var q := count as real / size as real;
      assert count as real == q * size as real;
      if q < loadFactor { assert (loadFactor - q) * size as real > 0.0; }
    }

    /** item_count is the size of the finite map. */
    lemma CountIsSize()
      requires Valid()
      ensures itemCount == |Abs(rows)|
    {
      AbsSize(hashFunc, rows);
    }

    lemma MayInsert()
      requires Valid() && itemCount < MAX_ITEMS
      ensures rows != [] && (Full(itemCount + 1, |rows|, loadFactor) ==> CanGrow(capacity))
    {
      hide Buckets, RowsOk, Size, CapacityOk, CanGrow;
      CountIsSize();
      if Full(itemCount + 1, |rows|, loadFactor) { RoomToGrow(itemCount + 1, capacity, loadFactor); }
    }

    /** hash_insert; `allocOk` says whether a bucket array can be allocated if the table has to grow. */
    method Insert(key: Key, value: V, allocOk: bool) returns (result: int)
      requires Valid()
      requires key !in Abs(rows) && Full(itemCount + 1, |rows|, loadFactor) ==> CanGrow(capacity)
      modifies this, nodes
      ensures Valid() && Abs(rows) == Abs(old(rows))[key := value] && fresh(nodes - old(nodes))
      ensures result == if key in Abs(old(rows)) then 0 else 1
      ensures itemCount == old(itemCount) + result
      ensures (result == 1 && Reached(itemCount, |old(rows)|, loadFactor) && allocOk) ==>
                |rows| > |old(rows)| && capacity.Prime?
      ensures !(result == 1 && Reached(itemCount, |old(rows)|, loadFactor) && allocOk) ==>
                capacity == old(capacity)
    {
      hide Slot, Abs, RowsOk, Total, ChainList.Valid, CanGrow, Full, Reached;
      var b := Slot(hashFunc, key, Size(capacity));
      var _, node, a := Locate(items, key, b, rows, nodes);
      if node != null {
        Found(hashFunc, rows, b, a);
        Overwrite(value, b, node, a);
        return 0;
      }
      Missing(hashFunc, rows, key);
      AppendNew(key, value, b);
      FullIff(itemCount, Size(capacity), loadFactor);
      if Full(itemCount, Size(capacity), loadFactor) {
        var _ := Rehash(allocOk);
      }
      result := 1;
    }

    /** The part of hash_insert that replaces a value. */
    method Overwrite(value: V, b: nat, node: ChainNode<HashData<V>>, ghost a: nat)
      requires Valid() && b < |rows| && b < items.Length
      requires a < |rows[b]| == |items[b].spine| && items[b].spine[a] == node
      modifies this, nodes
      ensures Valid() && Abs(rows) == Abs(old(rows))[old(rows)[b][a].key := value] && nodes == old(nodes)
      ensures itemCount == old(itemCount) && capacity == old(capacity) && |rows| == |old(rows)|
    {
      hide Slot, Abs, RowsOk, Total, ChainList.Valid, CanGrow;
      ghost var rows' := rows[b := rows[b][a := rows[b][a].(value := value)]];
      SetEntry(hashFunc, rows, b, a, value, rows');
      SetValue(items, b, node, value, a, rows, nodes);
      rows := rows';
    }

    /** The part of hash_insert that adds a node. */
    method AppendNew(key: Key, value: V, b: nat)
      requires Valid() && b == Slot(hashFunc, key, |rows|)
      requires forall a :: 0 <= a < |rows[b]| ==> rows[b][a].key != key
      modifies this, nodes
      ensures Valid() && Abs(rows) == Abs(old(rows))[key := value] && fresh(nodes - old(nodes))
      ensures itemCount == old(itemCount) + 1 && capacity == old(capacity)
    {
      hide Slot, Abs, RowsOk, Total, ChainList.Valid, Size, CapacityOk;
      var e := HashData(key, hashFunc(key), value);
      ghost var rows' := rows[b := rows[b] + [e]];
      AddEntry(hashFunc, rows, e, rows');
      ghost var nodes' := AppendTo(items, b, e, rows, nodes);
      nodes := nodes';
      rows := rows';
      itemCount := itemCount + 1;
    }
  
    /** hash_walk: the entries in the order of the calls to walkFunc. */
    method Walk() returns (visited: seq<HashData<V>>)
      requires Valid()
      ensures visited == Flatten(rows)
      ensures KeysDistinct(visited) && ToMap(visited) == Abs(rows) && |visited| == itemCount == |Abs(rows)|
    {
      hide ChainList.Valid;
      visited := [];
      var p := 0;
      while p < items.Length
        invariant p <= items.Length && visited == Flatten(rows[..p])
      {
        assert rows[..p + 1][..p] == rows[..p];
        visited := WalkChain(items[p], visited);
        p := p + 1;
      }
      assert rows[..p] == rows;
      FlattenDistinct(hashFunc, rows, |rows|);
      FlattenLength(rows);
      AbsSize(hashFunc, rows);
    }

    /** _hash_conflict_count */
    method ConflictCount() returns (n: nat)
      requires Held()
      ensures n == Conflicts(rows)
    {
      hide ChainList.Valid;
      n := 0;
      var p := 0;
      while p < items.Length
        invariant p <= items.Length && n == Conflicts(rows[..p])
      {
        assert rows[..p + 1][..p] == rows[..p];
        var c := ChainConflicted(items[p]);
        n := n + if c then 1 else 0;
        p := p + 1;
      }
      assert rows[..p] == rows;
    }

    /** One round of hash_best_op: rehash to `c` buckets, or go back to the size the table has. */
    method TryCapacity(c: nat, allocOk: bool, ghost bound: nat) returns (error: int, conflicts: nat)
      requires Valid() && c > 0 && CodesBelow(Flatten(rows), bound)
      modifies this
      ensures Valid() && itemCount == old(itemCount) && Abs(rows) == Abs(old(rows)) && conflicts == Conflicts(rows)
      ensures error == if allocOk then 0 else ENOMEM
      ensures allocOk ==> capacity == Owned(c) && |rows| == c && fresh(nodes) && CodesBelow(Flatten(rows), bound)
      ensures allocOk && bound <= c ==> conflicts == 0
      ensures !allocOk ==> capacity == Owned(|rows|) && rows == old(rows) && items == old(items) && nodes == old(nodes)
    {
      hide Abs, RowsOk, Buckets, Flatten, Total, Conflicts;
      ghost var before := rows;
      var oldSize := Size(capacity);
      error := Rehash1(Owned(c), allocOk);
      if error != 0 {
        capacity := Owned(oldSize);
      } else {
        CodesBelowSpread(Flatten(before), c, bound);
        if bound <= c { LargeIsConflictFree(Flatten(before), c); }
      }
      conflicts := ConflictCount();
    }

    /** The search loop of hash_best_op. */
    method SearchCapacity(start: nat, alloc: nat -> bool) returns (error: int, tried: seq<nat>)
      requires Valid() && start % 2 == 1 && Conflicts(rows) > 0
      modifies this
      ensures Valid() && itemCount == old(itemCount) && Abs(rows) == Abs(old(rows))
      ensures nodes == old(nodes) || fresh(nodes)
      ensures tried != [] && Candidates(tried) && error == if alloc(|tried| - 1) then 0 else ENOMEM
      ensures error == 0 ==> Conflicts(rows) == 0 && capacity == Owned(Last(tried))
      ensures error != 0 ==>
                capacity == Owned(|rows|) && |rows| == if |tried| == 1 then |old(rows)| else tried[|tried| - 2]
      ensures error != 0 && |tried| == 1 ==> rows == old(rows) && items == old(items)
      ensures NoneSkipped(start, tried)
    {
      hide Abs, Flatten, Conflicts, HasFactor, CodesBelow, Valid, NoneSkipped, Coprime210;
      SkippedStart(start);
      var c, conflicts := start, 1;
      tried, error := [], 0;
      ghost var bound := CodeBound(Flatten(rows));
      CodeBoundOk(Flatten(rows));
      while conflicts > 0
        invariant Valid() && itemCount == old(itemCount) && Abs(rows) == Abs(old(rows))
        invariant nodes == old(nodes) || fresh(nodes)
        invariant tried == [] ==> rows == old(rows) && items == old(items) && conflicts > 0 && c == start
        invariant tried != [] ==> Last(tried) == c == |rows| && capacity == Owned(c) && alloc(|tried| - 1)
        invariant tried != [] ==> conflicts == Conflicts(rows) && (conflicts > 0 ==> c < bound)
        invariant start <= c && NoneSkipped(start, tried)
        invariant c % 2 == 1 && Candidates(tried) && CodesBelow(Flatten(rows), bound)
        decreases start + bound - c
      {
        var d := NextCandidate(c);
        NoneSkippedNext(start, tried, c, d);
        CandidateOdd(d);
        c, tried := d, tried + [d];
        error, conflicts := TryCapacity(c, alloc(|tried| - 1), bound);
        if error != 0 {
          return;
        }
      }
    }

    /** hash_best_op.  `cellOk` says whether the capacity cell can be allocated and `alloc(k)` whether the
        k-th bucket array can; `tried` are the capacities of the bucket arrays asked for. */
    method BestOp(suggest: int, cellOk: bool, alloc: nat -> bool) returns (result: int, tried: seq<nat>)
      requires Valid()
      modifies this
      ensures Valid() && itemCount == old(itemCount) && Abs(rows) == Abs(old(rows))
      ensures nodes == old(nodes) || fresh(nodes)
      ensures result == 0 || result == 1 || result == -ENOMEM
      ensures result == 0 <==> Conflicts(old(rows)) == 0
      ensures result == 0 ==> capacity == old(capacity) && rows == old(rows) && tried == []
      ensures result == 1 ==>
                Conflicts(rows) == 0 && tried != [] && capacity == Owned(Last(tried)) && alloc(|tried| - 1)
      ensures result == -ENOMEM ==> !cellOk || (tried != [] && !alloc(|tried| - 1))
      ensures result == -ENOMEM ==> |rows| == if |tried| <= 1 then |old(rows)| else tried[|tried| - 2]
      ensures result == -ENOMEM && |tried| <= 1 ==> rows == old(rows) && items == old(items)
      ensures Candidates(tried)
      ensures result != 0 && cellOk ==> tried != [] && FirstTried(suggest, old(itemCount), tried)
    {
      hide Abs, Coprime210, Conflicts, Buckets, RowsOk, Total, Size, CapacityOk, FirstTried, NoneSkipped;
      tried := [];
      var conflicts := ConflictCount();
      if conflicts == 0 {
        return 0, tried;
      }
      if !cellOk {
        return -ENOMEM, tried;
      }
      ConflictNeedsTwo(rows);
      var start: nat := if suggest > 2 && suggest >= itemCount
                        then (if suggest % 2 == 0 then suggest - 1 else suggest - 2)
                        else 2 * (itemCount - 1) + 1;
      var error;
      error, tried := SearchCapacity(start, alloc);
      StartTried(suggest, itemCount, start, tried);
      result := if error != 0 then -1 * error else 1;
    }
  }

  // ----------------------------------------------------------------- every sequence of operations

  datatype Op<V> =
    | InsertOp(key: Key, value: V, allocOk: bool)
    | DeleteOp(key: Key)
    | FindOp(key: Key)
    | BestOp(suggest: int, cellOk: bool, alloc: nat -> bool)

  datatype Answer<V> = Code(code: int) | Value(found: Option<V>)

  /** What a run does to the finite map. */
  ghost function Replayed<V>(ops: seq<Op<V>>, m: map<Key, V>): map<Key, V> {
    if ops == [] then m else
    var before, op := Replayed(ops[..|ops| - 1], m), ops[|ops| - 1];
    match op
    case InsertOp(key, value, _) => before[key := value]
    case DeleteOp(key) => before - {key}
    case _ => before
  }

  /** The answer the finite map gives. */
  ghost predicate Agrees<V>(op: Op<V>, m: map<Key, V>, answer: Answer<V>) {
    match op
    case InsertOp(key, _, _) => answer == Code(if key in m then 0 else 1)
    case DeleteOp(key) => answer == Code(if key in m then 1 else 0)
    case FindOp(key) => answer == Value(if key in m then Some(m[key]) else None)
    case BestOp(_, _, _) => answer == Code(0) || answer == Code(1) || answer == Code(-ENOMEM)
  }

  lemma ReplayedNone<V>(ops: seq<Op<V>>, m: map<Key, V>)
    ensures Replayed(ops[..0], m) == m
  {
  }

  lemma ReplayedNext<V>(ops: seq<Op<V>>, n: nat, m: map<Key, V>)
    requires n < |ops|
    ensures Replayed(ops[..n + 1], m) == Replayed([ops[n]], Replayed(ops[..n], m))
  {
    assert ops[..n + 1][..n] == ops[..n] && [ops[n]][..0] == [];
  }

  /** Any sequence of operations, with any bucket-array allocations failing, answers as the finite map does. */
  method Replay<V>(table: HashArray<V>, ops: seq<Op<V>>) returns (answers: seq<Answer<V>>)
    requires table.Valid()
    requires forall i :: 0 <= i < |ops| && ops[i].InsertOp? ==> |Replayed(ops[..i], Abs(table.rows))| < MAX_ITEMS
    modifies table, table.nodes
    ensures table.Valid() && Abs(table.rows) == Replayed(ops, Abs(old(table.rows)))
    ensures table.itemCount == |Abs(table.rows)|
    ensures |answers| == |ops|
    ensures forall i :: 0 <= i < |ops| ==> Agrees(ops[i], Replayed(ops[..i], Abs(old(table.rows))), answers[i])
  {
    hide HashArray.Valid, Abs, Agrees, Replayed;
    answers := [];
    table.CountIsSize();
    ghost var m := Abs(table.rows);
    var n := 0;
    ReplayedNone(ops, m);
    while n < |ops|
      invariant n <= |ops| && |answers| == n
      invariant table.Valid()
      invariant forall o :: o in table.nodes && o !in old(table.nodes) ==> fresh(o)
      invariant Abs(table.rows) == Replayed(ops[..n], m) && table.itemCount == |Abs(table.rows)|
      invariant forall i :: 0 <= i < n ==> Agrees(ops[i], Replayed(ops[..i], m), answers[i])
    {
      ReplayedNext(ops, n, m);
      var answer := Perform(table, ops[n]);
      answers := answers + [answer];
      n := n + 1;
    }
    assert ops[..n] == ops;
  }

  /** One operation. */
  method Perform<V>(table: HashArray<V>, op: Op<V>) returns (answer: Answer<V>)
    requires table.Valid() && (op.InsertOp? ==> table.itemCount < MAX_ITEMS)
    modifies table, table.nodes
    ensures table.Valid() && Abs(table.rows) == Replayed([op], Abs(old(table.rows)))
    ensures Agrees(op, Abs(old(table.rows)), answer)
    ensures table.itemCount == |Abs(table.rows)|
    ensures forall o :: o in table.nodes && o !in old(table.nodes) ==> fresh(o)
  {
    hide HashArray.Valid, Abs, HashArray.Full, CanGrow, Conflicts, Candidates;
    match op {
      case InsertOp(key, value, allocOk) =>
        table.MayInsert();
        var code := table.Insert(key, value, allocOk);
        answer := Code(code);
      case DeleteOp(key) =>
        var code := table.Delete(key);
        answer := Code(code);
      case FindOp(key) =>
        var found := table.Find(key);
        answer := Value(found);
      case BestOp(suggest, cellOk, alloc) =>
        var code, _ := table.BestOp(suggest, cellOk, alloc);
        answer := Code(code);
    }
    table.CountIsSize();
  }
}

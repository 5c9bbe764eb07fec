/**
 The bucketed hash map. A table of buckets agrees with a mathematical map; every operation, including growth, keeps
 them in agreement.
 */
module HashMap {

  type Bucket<K, V> = seq<(K, V)>

  /** The position of a key in a bucket, or the bucket's length. */
  function Find<K(==), V>(b: Bucket<K, V>, k: K): (i: nat)
    ensures i <= |b| && (i < |b| ==> b[i].0 == k)
    ensures forall j :: 0 <= j < i ==> b[j].0 != k
  {
    if b == [] || b[0].0 == k then 0 else 1 + Find(b[1..], k)
  }

  lemma {:induction false} FindAt<K, V>(b: Bucket<K, V>, k: K, i: nat)
    requires i < |b| ==> b[i].0 == k
    requires i <= |b| && forall j :: 0 <= j < i ==> b[j].0 != k
    ensures Find(b, k) == i
  {
    var f := Find(b, k);
    assert !(f < i);
    assert !(i < f);
  }

  ghost predicate DistinctKeys<K, V>(b: Bucket<K, V>) { forall i, j :: 0 <= i < j < |b| ==> b[i].0 != b[j].0 }

  // ---------------------------------------------------------------- agreement with a map

  function Home<K>(hash: K -> nat, n: nat, k: K): nat
    requires n > 0
  {
    hash(k) % n
  }

  ghost predicate BucketOk<K(!new), V>(hash: K -> nat, n: nat, b: Bucket<K, V>, home: int)
    requires n > 0
  {
    DistinctKeys(b) && forall i :: 0 <= i < |b| ==> Home(hash, n, b[i].0) == home
  }

  /** Each entry is in its key's own bucket, no bucket has a key twice, and none is over its capacity. */
  ghost predicate TableOk<K(!new), V>(hash: K -> nat, n: nat, cap: nat, buckets: seq<Bucket<K, V>>) {
    && n > 0 && cap > 0 && |buckets| == n
    && (forall h :: 0 <= h < n ==> BucketOk(hash, n, buckets[h], h) && |buckets[h]| <= cap)
  }

  ghost predicate KeyOk<K, V>(b: Bucket<K, V>, k: K, m: map<K, V>) {
    && (k in m <==> Find(b, k) < |b|)
    && (k in m ==> Find(b, k) < |b| && b[Find(b, k)].1 == m[k])
  }

  /** Looking a key up in its bucket is looking it up in the map. */
  ghost predicate Agrees<K(!new), V>(hash: K -> nat, n: nat, buckets: seq<Bucket<K, V>>, m: map<K, V>) {
    n > 0 && |buckets| == n && forall k: K :: KeyOk(buckets[Home(hash, n, k)], k, m)
  }

  lemma {:induction false} FindAppend<K, V>(b: Bucket<K, V>, p: (K, V), k: K)
    ensures Find(b + [p], k) == if Find(b, k) < |b| then Find(b, k) else if p.0 == k then |b| else |b| + 1
  {
    var i := if Find(b, k) < |b| then Find(b, k) else if p.0 == k then |b| else |b| + 1;
    FindAt(b + [p], k, i);
  }

  lemma FindStore<K, V>(b: Bucket<K, V>, i: nat, v: V, k: K)
    requires i < |b|
    ensures Find(b[i := (b[i].0, v)], k) == Find(b, k)
  {
    FindAt(b[i := (b[i].0, v)], k, Find(b, k));
  }

  function Remove<T>(b: seq<T>, i: nat): seq<T>
    requires i < |b|
  {
    b[..i] + b[i + 1..]
  }

  lemma {:induction false} FindRemove<K, V>(b: Bucket<K, V>, i: nat, k: K)
    requires i < |b| && DistinctKeys(b)
    ensures k == b[i].0 ==> Find(Remove(b, i), k) == |Remove(b, i)|
    ensures k != b[i].0 ==>
      Find(Remove(b, i), k) == if Find(b, k) <= i then Find(b, k) else Find(b, k) - 1
  {
    var f, r := Find(b, k), Remove(b, i);
    assert forall j :: 0 <= j < |r| ==> r[j] == if j < i then b[j] else b[j + 1];
    if k == b[i].0 {
      FindAt(r, k, |r|);
    } else {
      FindAt(r, k, if f <= i then f else f - 1);
    }
  }

  lemma AppendAgrees<K(!new), V>(hash: K -> nat, n: nat, cap: nat, buckets: seq<Bucket<K, V>>, m: map<K, V>, k: K, v: V)
    requires TableOk(hash, n, cap, buckets) && Agrees(hash, n, buckets, m) && k !in m
    requires |buckets[Home(hash, n, k)]| < cap
    ensures var h := Home(hash, n, k);
            var buckets' := buckets[h := buckets[h] + [(k, v)]];
            TableOk(hash, n, cap, buckets') && Agrees(hash, n, buckets', m[k := v])
  {
    var h := Home(hash, n, k);
    var buckets' := buckets[h := buckets[h] + [(k, v)]];
    assert KeyOk(buckets[h], k, m) && BucketOk(hash, n, buckets[h], h);
    assert BucketOk(hash, n, buckets'[h], h);
    forall x: K ensures KeyOk(buckets'[Home(hash, n, x)], x, m[k := v]) {
      assert KeyOk(buckets[Home(hash, n, x)], x, m);
      if Home(hash, n, x) == h { FindAppend(buckets[h], (k, v), x); }
    }
  }

  lemma StoreAgrees<K(!new), V>(hash: K -> nat, n: nat, cap: nat, buckets: seq<Bucket<K, V>>, m: map<K, V>, h: nat,
      i: nat, v: V)
    requires TableOk(hash, n, cap, buckets) && Agrees(hash, n, buckets, m) && h < n && i < |buckets[h]|
    ensures var k := buckets[h][i].0;
            var buckets' := buckets[h := buckets[h][i := (k, v)]];
            TableOk(hash, n, cap, buckets') && Agrees(hash, n, buckets', m[k := v])
  {
    var k := buckets[h][i].0;
    var buckets' := buckets[h := buckets[h][i := (k, v)]];
    assert BucketOk(hash, n, buckets[h], h) && Home(hash, n, k) == h;
    assert BucketOk(hash, n, buckets'[h], h);
    FindAt(buckets[h], k, i);
    forall x: K ensures KeyOk(buckets'[Home(hash, n, x)], x, m[k := v]) {
      assert KeyOk(buckets[Home(hash, n, x)], x, m);
      if Home(hash, n, x) == h { FindStore(buckets[h], i, v, x); }
    }
  }

  lemma RemoveOk<K(!new), V>(hash: K -> nat, n: nat, b: Bucket<K, V>, home: int, i: nat)
    requires n > 0 && BucketOk(hash, n, b, home) && i < |b|
    ensures BucketOk(hash, n, Remove(b, i), home)
  {
    var r := Remove(b, i);
    assert forall j :: 0 <= j < |r| ==> r[j] == if j < i then b[j] else b[j + 1];
  }

  lemma RemoveAgrees<K(!new), V>(hash: K -> nat, n: nat, cap: nat, buckets: seq<Bucket<K, V>>, m: map<K, V>, k: K,
      i: nat)
    requires TableOk(hash, n, cap, buckets) && Agrees(hash, n, buckets, m)
    requires i < |buckets[Home(hash, n, k)]| && buckets[Home(hash, n, k)][i].0 == k
    ensures var h := Home(hash, n, k);
            var buckets' := buckets[h := Remove(buckets[h], i)];
            TableOk(hash, n, cap, buckets') && Agrees(hash, n, buckets', m - {k})
  {
    var h := Home(hash, n, k);
    var buckets' := buckets[h := Remove(buckets[h], i)];
    assert BucketOk(hash, n, buckets[h], h);
    RemoveOk(hash, n, buckets[h], h, i);
    forall x: K ensures KeyOk(buckets'[Home(hash, n, x)], x, m - {k}) {
      assert KeyOk(buckets[Home(hash, n, x)], x, m);
      if Home(hash, n, x) == h { KeyRemoved(buckets[h], i, x, m); }
    }
  }

  lemma KeyRemoved<K(!new), V>(b: Bucket<K, V>, i: nat, x: K, m: map<K, V>)
    requires i < |b| && DistinctKeys(b) && KeyOk(b, x, m)
    ensures KeyOk(Remove(b, i), x, m - {b[i].0})
  {
    FindRemove(b, i, x);
  }

  function NoBuckets<K, V>(n: nat): (b: seq<Bucket<K, V>>)
    ensures |b| == n && forall h :: 0 <= h < n ==> b[h] == []
  {
    seq(n, _ => [])
  }

  lemma EmptyAgrees<K(!new), V>(hash: K -> nat, n: nat, cap: nat)
    requires n > 0 && cap > 0
    ensures TableOk<K, V>(hash, n, cap, NoBuckets(n)) && Agrees<K, V>(hash, n, NoBuckets(n), map[])
  {
  }

  // ---------------------------------------------------------------- growth

  lemma MulApart(n: int, d: int)
    requires n > 0
    ensures d >= 1 ==> n * d >= n
    ensures d <= -1 ==> n * d <= -n
  {
  }

  lemma ModIs(x: nat, n: nat, q: nat, r: nat)
    requires n > 0 && r < n && x == n * q + r
    ensures x % n == r
  {
    var q', r' := x / n, x % n;
    assert x == n * q' + r';
    MulApart(n, q' - q);
    assert n * (q' - q) == n * q' - n * q;
  }

  lemma DivMod(x: nat, m: nat)
    requires m > 0
    ensures x == m * (x / m) + x % m && 0 <= x % m < m && 0 <= x / m
  {
  }

  lemma TwiceMod(h: nat, n: nat, q: nat, r: nat, a: nat, b: nat)
    requires n > 0 && h == (2 * n) * q + r && r == n * a + b && b < n
    ensures h % n == b
  {
    Distribute(n, q, a);
    ModIs(h, n, 2 * q + a, b);
  }

  /** The bucket in a table of twice the size lies over the one in the old table. */
  lemma DoubleMod(h: nat, n: nat)
    requires n > 0
    ensures (h % (2 * n)) % n == h % n
  {
    var m := 2 * n;
    DivMod(h, m);
    DivMod(h % m, n);
    TwiceMod(h, n, h / m, h % m, (h % m) / n, (h % m) % n);
  }

  lemma Distribute(n: nat, q: nat, a: nat)
    ensures n * (2 * q + a) == (2 * n) * q + n * a
  {
  }

  /** How many entries of an old bucket have been put into the new table so far. */
  function Moved<K, V>(from: seq<Bucket<K, V>>, b: nat, i: nat, h: nat): nat
    requires h < |from|
  {
    if h < b then |from[h]| else if h == b then i else 0
  }

  /** Every new bucket holds at most what has been moved out of the one old bucket it lies over. */
  ghost predicate Bounded<K, V>(from: seq<Bucket<K, V>>, b: nat, i: nat, to: seq<Bucket<K, V>>) {
    && |from| > 0 && |to| == 2 * |from|
    && forall j :: 0 <= j < |to| ==> |to[j]| <= Moved(from, b, i, j % |from|)
  }

  /** The part of the map whose entries have been moved. */
  ghost predicate Partial<K(!new), V>(hash: K -> nat, from: seq<Bucket<K, V>>, b: nat, i: nat, m: map<K, V>,
      part: map<K, V>)
  {
    && |from| > 0
    && (forall k :: k in part ==> k in m && part[k] == m[k])
    && (forall k :: k in m ==>
          (k in part <==> Find(from[Home(hash, |from|, k)], k) < Moved(from, b, i, Home(hash, |from|, k))))
  }

  lemma PartialStart<K(!new), V>(hash: K -> nat, from: seq<Bucket<K, V>>, m: map<K, V>)
    requires |from| > 0
    ensures Partial(hash, from, 0, 0, m, map[])
  {
  }

  lemma PartialRow<K(!new), V>(hash: K -> nat, from: seq<Bucket<K, V>>, b: nat, m: map<K, V>, part: map<K, V>)
    requires b < |from| && Partial(hash, from, b, |from[b]|, m, part)
    ensures Partial(hash, from, b + 1, 0, m, part)
  {
  }

  lemma BoundedRow<K(!new), V>(from: seq<Bucket<K, V>>, b: nat, to: seq<Bucket<K, V>>)
    requires b < |from| && Bounded(from, b, |from[b]|, to)
    ensures Bounded(from, b + 1, 0, to)
  {
  }

  lemma HalfFull<K(!new), V>(hash: K -> nat, cap: nat, from: seq<Bucket<K, V>>, to: seq<Bucket<K, V>>)
    requires TableOk(hash, |from|, cap, from) && Bounded(from, |from|, 0, to)
    ensures forall h :: 0 <= h < |to| ==> |to[h]| <= cap
  {
    forall h | 0 <= h < |to| ensures |to[h]| <= cap {
      assert |to[h]| <= Moved(from, |from|, 0, h % |from|);
      assert |from[h % |from|]| <= cap;
    }
  }

  lemma PartialEnd<K(!new), V>(hash: K -> nat, cap: nat, from: seq<Bucket<K, V>>, m: map<K, V>, part: map<K, V>)
    requires TableOk(hash, |from|, cap, from) && Agrees(hash, |from|, from, m)
    requires Partial(hash, from, |from|, 0, m, part)
    ensures part == m
  {
    forall k | k in m ensures k in part {
      assert KeyOk(from[Home(hash, |from|, k)], k, m);
    }
  }

  /** Moving one entry: it is a key not moved yet, and there is room for it. */
  lemma MoveOne<K(!new), V>(hash: K -> nat, cap: nat, from: seq<Bucket<K, V>>, b: nat, i: nat, m: map<K, V>,
                            to: seq<Bucket<K, V>>, part: map<K, V>)
    requires TableOk(hash, |from|, cap, from) && Agrees(hash, |from|, from, m)
    requires b < |from| && i < |from[b]|
    requires Bounded(from, b, i, to) && Partial(hash, from, b, i, m, part)
    ensures var k := from[b][i].0;
            && k !in part && k in m && m[k] == from[b][i].1
            && |to[Home(hash, |to|, k)]| <= i < cap
            && Partial(hash, from, b, i + 1, m, part[k := m[k]])
    ensures var h := Home(hash, |to|, from[b][i].0); Bounded(from, b, i + 1, to[h := to[h] + [from[b][i]]])
  {
    var n, k := |from|, from[b][i].0;
    assert BucketOk(hash, n, from[b], b) && Home(hash, n, k) == b;
    FindAt(from[b], k, i);
    assert KeyOk(from[b], k, m);
    DoubleMod(hash(k), n);
    PartialMore(hash, from, b, i, m, part, k);
  }

  lemma PartialMore<K(!new), V>(hash: K -> nat, from: seq<Bucket<K, V>>, b: nat, i: nat, m: map<K, V>,
      part: map<K, V>, k: K)
    requires Partial(hash, from, b, i, m, part) && b < |from| && i < |from[b]| && k in m
    requires Home(hash, |from|, k) == b && Find(from[b], k) == i
    ensures Partial(hash, from, b, i + 1, m, part[k := m[k]])
  {
    var p := part[k := m[k]];
    forall x | x in m
      ensures x in p <==> Find(from[Home(hash, |from|, x)], x) < Moved(from, b, i + 1, Home(hash, |from|, x))
    {
      assert x in part <==> Find(from[Home(hash, |from|, x)], x) < Moved(from, b, i, Home(hash, |from|, x));
      assert Home(hash, |from|, x) == b && Find(from[b], x) == i ==> x == from[b][i].0 == k;
    }
  }

  // ---------------------------------------------------------------- the code

  class UnorderedMap<K(==, !new), V> {
    const hash: K -> nat
    const zero: V
    var numBuckets: nat
    var bucketSize: nat
    var buckets: seq<Bucket<K, V>>
    ghost var m: map<K, V>

    ghost predicate Valid()
      reads this
    {
      TableOk(hash, numBuckets, bucketSize, buckets) && Agrees(hash, numBuckets, buckets, m)
    }

    constructor (hash: K -> nat, zero: V)
      ensures Valid() && m == map[] && this.hash == hash && this.zero == zero
    {
      this.hash, this.zero := hash, zero;
      numBuckets, bucketSize, buckets, m := 16, 8, NoBuckets(16), map[];
      new;
      EmptyAgrees<K, V>(hash, 16, 8);
    }

    /** A key's position in its bucket, or the number of entries used there. */
    method Search(k: K) returns (bucket: nat, i: nat)
      requires Valid()
      ensures bucket == Home(hash, numBuckets, k) && bucket < |buckets| && i == Find(buckets[bucket], k)
      ensures i < |buckets[bucket]| <==> k in m
    {
      bucket := Home(hash, numBuckets, k);
      i := 0;
      while i < |buckets[bucket]| && buckets[bucket][i].0 != k
        invariant i <= |buckets[bucket]|
        invariant forall j :: 0 <= j < i ==> buckets[bucket][j].0 != k
      {
        i := i + 1;
      }
      FindAt(buckets[bucket], k, i);
      assert KeyOk(buckets[Home(hash, numBuckets, k)], k, m);
    }

    method Count(k: K) returns (r: int)
      requires Valid()
      ensures r == if k in m then 1 else 0
    {
      var bucket, i := Search(k);
      r := if i < |buckets[bucket]| then 1 else 0;
    }

    /** Where the value of a key is, creating it if need be: growing makes room, so this calls itself once at most. */
    method Index(k: K) returns (bucket: nat, i: nat)
      requires Valid()
      modifies this
      ensures Valid() && m == if k in old(m) then old(m) else old(m)[k := zero]
      ensures bucket < |buckets| && i < |buckets[bucket]| && buckets[bucket][i] == (k, m[k])
      decreases if k !in m && |buckets[Home(hash, numBuckets, k)]| >= bucketSize then 1 else 0
    {
      bucket, i := Search(k);
      if i < |buckets[bucket]| {
        assert KeyOk(buckets[Home(hash, numBuckets, k)], k, m);
        return;
      }
      if |buckets[bucket]| >= bucketSize {
        IncreaseSize();
        bucket, i := Index(k);
      } else {
        AppendAgrees(hash, numBuckets, bucketSize, buckets, m, k, zero);
        buckets := buckets[bucket := buckets[bucket] + [(k, zero)]];
        m := m[k := zero];
      }
    }

    /** Assignment through the reference that indexing returns. */
    method Store(bucket: nat, i: nat, v: V)
      requires Valid() && bucket < |buckets| && i < |buckets[bucket]|
      modifies this
      ensures Valid() && m == old(m)[old(buckets[bucket][i].0) := v]
    {
      StoreAgrees(hash, numBuckets, bucketSize, buckets, m, bucket, i, v);
      m := m[buckets[bucket][i].0 := v];
      buckets := buckets[bucket := buckets[bucket][i := (buckets[bucket][i].0, v)]];
    }

    method Erase(k: K) returns (r: int)
      requires Valid()
      modifies this
      ensures Valid() && m == old(m) - {k} && r == if k in old(m) then 1 else 0
    {
      var bucket, i := Search(k);
      if i < |buckets[bucket]| {
        RemoveAgrees(hash, numBuckets, bucketSize, buckets, m, k, i);
        var b := ShiftDown(buckets[bucket], i);
        buckets := buckets[bucket := b];
        m := m - {k};
        r := 1;
      } else {
        r := 0;
      }
    }

    /** Closes the gap at `i` by moving every later entry one down. */
    static method ShiftDown<T>(b: seq<T>, i: nat) returns (r: seq<T>)
      requires i < |b|
      ensures r == Remove(b, i)
    {
      r := b;
      var l := i;
      while l < |b| - 1
        invariant i <= l <= |b| - 1 && |r| == |b|
        invariant forall j :: i <= j < l ==> r[j] == b[j + 1]
        invariant forall j :: 0 <= j < i || l <= j < |b| ==> r[j] == b[j]
      {
        assert r[l + 1] == b[l + 1];
        r := r[l := r[l + 1]];
        l := l + 1;
      }
      r := r[..|b| - 1];
    }

    /** Adds an entry known to be new; only a full bucket makes the table grow, and once. */
    method Put(k: K, v: V)
      requires Valid() && k !in m
      modifies this
      ensures Valid() && m == old(m)[k := v]
      ensures var h := Home(hash, old(numBuckets), k);
              |old(buckets)[h]| < old(bucketSize) ==>
                && numBuckets == old(numBuckets) && bucketSize == old(bucketSize)
                && buckets == old(buckets)[h := old(buckets)[h] + [(k, v)]]
      ensures |old(buckets)[Home(hash, old(numBuckets), k)]| >= old(bucketSize) ==> numBuckets == 2 * old(numBuckets)
      decreases if |buckets[Home(hash, numBuckets, k)]| >= bucketSize then 1 else 0, 0
    {
      var bucket := Home(hash, numBuckets, k);
      if |buckets[bucket]| >= bucketSize {
        IncreaseSize();
        Put(k, v);
        return;
      }
      AppendAgrees(hash, numBuckets, bucketSize, buckets, m, k, v);
      buckets := buckets[bucket := buckets[bucket] + [(k, v)]];
      m := m[k := v];
    }

    /** Twice the buckets, each twice as large: no bucket overflows on the way, and each ends at most half full. */
    method IncreaseSize()
      requires Valid()
      modifies this
      ensures Valid() && m == old(m) && numBuckets == 2 * old(numBuckets) && bucketSize == 2 * old(bucketSize)
      ensures forall h :: 0 <= h < numBuckets ==> |buckets[h]| < bucketSize
      decreases 0, 4
    {
      ghost var all := m;
      var from, cap := buckets, bucketSize;
      numBuckets, bucketSize := numBuckets * 2, bucketSize * 2;
      buckets, m := NoBuckets(numBuckets), map[];
      EmptyAgrees<K, V>(hash, numBuckets, bucketSize);
      PartialStart(hash, from, all);
      MoveAll(from, cap, all);
      PartialEnd(hash, cap, from, all, m);
      HalfFull(hash, cap, from, buckets);
    }

    method MoveAll(from: seq<Bucket<K, V>>, cap: nat, ghost all: map<K, V>)
      requires Valid() && numBuckets == 2 * |from| && bucketSize == 2 * cap
      requires TableOk(hash, |from|, cap, from) && Agrees(hash, |from|, from, all)
      requires Bounded(from, 0, 0, buckets) && Partial(hash, from, 0, 0, all, m)
      modifies this
      ensures Valid() && numBuckets == old(numBuckets) && bucketSize == old(bucketSize)
      ensures Bounded(from, |from|, 0, buckets) && Partial(hash, from, |from|, 0, all, m)
      decreases 0, 3
    {
      var b := 0;
      while b < |from|
        invariant Valid() && 0 <= b <= |from| && numBuckets == old(numBuckets) && bucketSize == old(bucketSize)
        invariant Bounded(from, b, 0, buckets) && Partial(hash, from, b, 0, all, m)
      {
        MoveBucket(from, cap, b, all);
        BoundedRow(from, b, buckets);
        PartialRow(hash, from, b, all, m);
        b := b + 1;
      }
    }

    method MoveBucket(from: seq<Bucket<K, V>>, cap: nat, b: nat, ghost all: map<K, V>)
      requires Valid() && b < |from| && numBuckets == 2 * |from| && bucketSize == 2 * cap
      requires TableOk(hash, |from|, cap, from) && Agrees(hash, |from|, from, all)
      requires Bounded(from, b, 0, buckets) && Partial(hash, from, b, 0, all, m)
      modifies this
      ensures Valid() && numBuckets == old(numBuckets) && bucketSize == old(bucketSize)
      ensures Bounded(from, b, |from[b]|, buckets) && Partial(hash, from, b, |from[b]|, all, m)
      decreases 0, 2
    {
      var i := 0;
      while i < |from[b]|
        invariant Valid() && 0 <= i <= |from[b]| && numBuckets == old(numBuckets) && bucketSize == old(bucketSize)
        invariant Bounded(from, b, i, buckets) && Partial(hash, from, b, i, all, m)
      {
        MoveEntry(from, cap, b, i, all);
        i := i + 1;
      }
    }

    method MoveEntry(from: seq<Bucket<K, V>>, cap: nat, b: nat, i: nat, ghost all: map<K, V>)
      requires Valid() && b < |from| && i < |from[b]| && numBuckets == 2 * |from| && bucketSize == 2 * cap
      requires TableOk(hash, |from|, cap, from) && Agrees(hash, |from|, from, all)
      requires Bounded(from, b, i, buckets) && Partial(hash, from, b, i, all, m)
      modifies this
      ensures Valid() && numBuckets == old(numBuckets) && bucketSize == old(bucketSize)
      ensures Bounded(from, b, i + 1, buckets) && Partial(hash, from, b, i + 1, all, m)
      decreases 0, 1
    {
      MoveOne(hash, cap, from, b, i, all, buckets, m);
      var e := from[b][i];
      assert e == (e.0, e.1);
      Put(e.0, e.1);
    }

    /** Copies the other map's buckets, entry by entry, into new ones, which are its own if it is the same map. */
    method CopyFrom(other: UnorderedMap<K, V>)
      requires other.Valid() && other.hash == hash
      modifies this
      ensures Valid() && m == if other == this then map[] else old(other.m)
    {
      numBuckets, bucketSize := other.numBuckets, other.bucketSize;
      buckets := NoBuckets(numBuckets);
      CopyRows(other);
      if other == this {
        EmptyAgrees<K, V>(hash, numBuckets, bucketSize);
        m := map[];
      } else {
        m := other.m;
      }
    }

    method CopyRows(other: UnorderedMap<K, V>)
      requires numBuckets == other.numBuckets == |buckets| == |other.buckets|
      modifies this`buckets
      ensures buckets == old(other.buckets)
    {
      ghost var from := other.buckets;
      var b := 0;
      while b < numBuckets
        invariant 0 <= b <= numBuckets == |buckets| && other.buckets == from
        invariant forall h :: 0 <= h < b ==> buckets[h] == from[h]
      {
        var row := CopyRow(other.buckets[b]);
        buckets := buckets[b := row];
        b := b + 1;
      }
    }

    /** Assignment clears first; so a map assigned to itself ends up empty, and any other is copied. */
    method Assign(other: UnorderedMap<K, V>)
      requires Valid() && other.Valid() && other.hash == hash
      modifies this
      ensures Valid() && (m == old(other.m) <==> other != this || old(m) == map[])
      ensures other == this ==> m == map[]
    {
      Clear();
      CopyFrom(other);
    }

    /** Drops every entry and goes back to the initial sizes. */
    method Clear()
      modifies this
      ensures Valid() && m == map[]
    {
      numBuckets, bucketSize, buckets, m := 16, 8, NoBuckets(16), map[];
      EmptyAgrees<K, V>(hash, 16, 8);
    }

    static method CopyRow(b: Bucket<K, V>) returns (r: Bucket<K, V>)
      ensures r == b
    {
      r := [];
      var i := 0;
      while i < |b|
        invariant 0 <= i <= |b| && r == b[..i]
      {
        r := r + [b[i]];
        i := i + 1;
      }
    }
  }
}

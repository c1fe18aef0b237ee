/**
 A chained hash table that doubles when three quarters full.  hash is the hash of a key
 after the secondary mixing; a bucket is its value modulo the bucket count, a power of two.
 */
module Hashmaps {
  import opened Lists
  import opened Options

  datatype Entry<K, V> = Entry(key: K, hash: nat, value: V)

  datatype Table<K, V> = Table(buckets: seq<seq<Entry<K, V>>>, size: nat)

  // ------------------------------------------------------------------------ meaning

  /** e is how the pair of its key appears in a table for m. */
  ghost predicate Stands<K, V>(hash: K -> nat, m: map<K, V>, e: Entry<K, V>) {
    e.key in m && e.value == m[e.key] && e.hash == hash(e.key)
  }

  /** Chain b of n holds exactly the pairs of m that hash there, each once. */
  ghost predicate ChainOk<K(!new), V(!new)>(hash: K -> nat, m: map<K, V>, n: nat, b: nat, chain: seq<Entry<K, V>>)
    requires n > 0
  {
    NoDup(chain) && forall e :: e in chain <==> Stands(hash, m, e) && e.hash % n == b
  }

  ghost predicate Filed<K(!new), V(!new)>(hash: K -> nat, m: map<K, V>, buckets: seq<seq<Entry<K, V>>>) {
    |buckets| > 0 && forall b :: 0 <= b < |buckets| ==> ChainOk(hash, m, |buckets|, b, buckets[b])
  }

  ghost predicate Represents<K(!new), V(!new)>(hash: K -> nat, m: map<K, V>, t: Table<K, V>) {
    Filed(hash, m, t.buckets) && t.size == |m|
  }

  /** A list of entries that holds each pair of m once. */
  ghost predicate Holds<K(!new), V(!new)>(hash: K -> nat, m: map<K, V>, es: seq<Entry<K, V>>) {
    NoDup(es) && forall e :: e in es <==> Stands(hash, m, e)
  }

  // ------------------------------------------------------------------------- chains

  predicate Same<K(==), V>(e: Entry<K, V>, key: K, hash: nat) {
    e.hash == hash && e.key == key
  }

  /** Where the key is in the chain, from i on; the length if it is not. */
  function Position<K(==), V>(chain: seq<Entry<K, V>>, key: K, hash: nat, i: nat): (p: nat)
    requires i <= |chain|
    ensures i <= p <= |chain|
    ensures p < |chain| ==> Same(chain[p], key, hash)
    ensures forall j :: i <= j < p ==> !Same(chain[j], key, hash)
    decreases |chain| - i
  {
    if i == |chain| || Same(chain[i], key, hash) then i else Position(chain, key, hash, i + 1)
  }

  /** The key is found in its chain exactly when the map has it. */
  lemma FoundIff<K(!new), V(!new)>(hash: K -> nat, m: map<K, V>, n: nat, chain: seq<Entry<K, V>>, key: K)
    requires n > 0 && ChainOk(hash, m, n, hash(key) % n, chain)
    ensures var p := Position(chain, key, hash(key), 0);
      && (p < |chain| <==> key in m)
      && (p < |chain| ==> chain[p] == Entry(key, hash(key), m[key]))
  {
    var p := Position(chain, key, hash(key), 0);
    if key in m {
      assert Stands(hash, m, Entry(key, hash(key), m[key]));
      assert Entry(key, hash(key), m[key]) in chain;
    }
    if p < |chain| {
      assert chain[p] in chain;
    }
  }

  function Drop<T>(s: seq<T>, i: nat): seq<T>
    requires i < |s|
  {
    s[..i] + s[i + 1..]
  }

  lemma DropIn<T(!new)>(s: seq<T>, i: nat)
    requires i < |s| && NoDup(s)
    ensures NoDup(Drop(s, i)) && forall x :: x in Drop(s, i) <==> x in s && x != s[i]
  {
    var r := Drop(s, i);
    assert s == s[..i] + [s[i]] + s[i + 1..];
    forall x ensures x in r <==> x in s && x != s[i] {
      if x in s[..i] { var j :| 0 <= j < i && s[j] == x; }
      if x in s[i + 1..] { var j :| 0 <= j < |s| - i - 1 && s[i + 1..][j] == x; assert s[i + 1 + j] == x; }
    }
    forall a, b | 0 <= a < b < |r| ensures r[a] != r[b] {
      assert r[a] == s[if a < i then a else a + 1] && r[b] == s[if b < i then b else b + 1];
    }
  }

  lemma SetIn<T(!new)>(s: seq<T>, i: nat, y: T)
    requires i < |s| && NoDup(s) && (y == s[i] || y !in s)
    ensures NoDup(s[i := y]) && forall x :: x in s[i := y] <==> x == y || (x in s && x != s[i])
  {
    var r := s[i := y];
    forall x ensures x in r <==> x == y || (x in s && x != s[i]) {
      if x in s && x != s[i] { var j :| 0 <= j < |s| && s[j] == x; assert r[j] == x; }
      if x in r && x != y { var j :| 0 <= j < |r| && r[j] == x; assert s[j] == x; }
      assert r[i] == y;
    }
  }

  // --------------------------------------------------------------------------- put

  function PutChain<K(==), V>(chain: seq<Entry<K, V>>, key: K, hash: nat, value: V): seq<Entry<K, V>> {
    var p := Position(chain, key, hash, 0);
    if p < |chain| then chain[p := chain[p].(value := value)] else chain + [Entry(key, hash, value)]
  }

  lemma PutChainOk<K(!new), V(!new)>(hash: K -> nat, m: map<K, V>, n: nat, chain: seq<Entry<K, V>>, key: K, value: V)
    requires n > 0 && ChainOk(hash, m, n, hash(key) % n, chain)
    ensures ChainOk(hash, m[key := value], n, hash(key) % n, PutChain(chain, key, hash(key), value))
  {
    var p, r := Position(chain, key, hash(key), 0), PutChain(chain, key, hash(key), value);
    FoundIff(hash, m, n, chain, key);
    var now := Entry(key, hash(key), value);
    if p < |chain| {
      assert now in chain ==> now == chain[p];
      SetIn(chain, p, now);
    } else {
      assert now !in chain;
      NoDupSnoc(chain, now);
    }
    forall e ensures e in r <==> Stands(hash, m[key := value], e) && e.hash % n == hash(key) % n {
      assert e in chain <==> Stands(hash, m, e) && e.hash % n == hash(key) % n;
    }
  }

  lemma OtherChain<K(!new), V(!new)>(hash: K -> nat, m: map<K, V>, m': map<K, V>, n: nat, b: nat,
                                     chain: seq<Entry<K, V>>, key: K)
    requires n > 0 && ChainOk(hash, m, n, b, chain) && hash(key) % n != b
    requires forall k :: k != key ==> (k in m' <==> k in m) && (k in m ==> m'[k] == m[k])
    ensures ChainOk(hash, m', n, b, chain)
  {
    forall e ensures e in chain <==> Stands(hash, m', e) && e.hash % n == b {
      assert e in chain <==> Stands(hash, m, e) && e.hash % n == b;
    }
  }

  lemma ChainSetFiled<K(!new), V(!new)>(hash: K -> nat, m: map<K, V>, m': map<K, V>,
                                        buckets: seq<seq<Entry<K, V>>>, key: K, chain: seq<Entry<K, V>>)
    requires Filed(hash, m, buckets)
    requires forall k :: k != key ==> (k in m' <==> k in m) && (k in m ==> m'[k] == m[k])
    requires ChainOk(hash, m', |buckets|, hash(key) % |buckets|, chain)
    ensures Filed(hash, m', buckets[hash(key) % |buckets| := chain])
  {
    hide ChainOk;
    var n := |buckets|;
    var now := buckets[hash(key) % n := chain];
    forall b | 0 <= b < n ensures ChainOk(hash, m', n, b, now[b]) {
      if b != hash(key) % n {
        assert ChainOk(hash, m, n, b, buckets[b]);
        OtherChain(hash, m, m', n, b, buckets[b], key);
      }
    }
  }

  // ------------------------------------------------------------------------- rehash

  /** Entries are moved one by one to the head of their new chain. */
  function Moved<K, V>(buckets: seq<seq<Entry<K, V>>>, es: seq<Entry<K, V>>): (r: seq<seq<Entry<K, V>>>)
    requires |buckets| > 0
    ensures |r| == |buckets|
    decreases |es|
  {
    if es == [] then buckets
    else
      var b := es[0].hash % |buckets|;
      Moved(buckets[b := [es[0]] + buckets[b]], es[1..])
  }

  function Empty<K, V>(n: nat): (r: seq<seq<Entry<K, V>>>)
    ensures |r| == n && forall b :: 0 <= b < n ==> r[b] == []
  {
    seq(n, _ => [])
  }

  function Expand<K, V>(t: Table<K, V>): Table<K, V>
    requires |t.buckets| > 0
  {
    if t.size > |t.buckets| * 3 / 4 then t.(buckets := Moved(Empty(2 * |t.buckets|), Flatten(t.buckets))) else t
  }

  /** m without the key k. */
  ghost function Minus<K(!new), V(!new)>(m: map<K, V>, k: K): map<K, V> {
    map x | x in m && x != k :: m[x]
  }

  lemma MoveOne<K(!new), V(!new)>(hash: K -> nat, m: map<K, V>, buckets: seq<seq<Entry<K, V>>>, e: Entry<K, V>)
    requires Filed(hash, m, buckets) && e.key !in m && e.hash == hash(e.key)
    ensures var b := e.hash % |buckets|; Filed(hash, m[e.key := e.value], buckets[b := [e] + buckets[b]])
  {
    var n, m' := |buckets|, m[e.key := e.value];
    var b := e.hash % n;
    assert ChainOk(hash, m, n, b, buckets[b]);
    var chain := [e] + buckets[b];
    assert e !in buckets[b];
    NoDupSnoc(buckets[b], e);
    forall x ensures x in chain <==> Stands(hash, m', x) && x.hash % n == b {
      assert x in buckets[b] <==> Stands(hash, m, x) && x.hash % n == b;
    }
    ChainSetFiled(hash, m, m', buckets, e.key, chain);
  }

  lemma {:induction false} MovedOk<K(!new), V(!new)>(hash: K -> nat, done: map<K, V>, left: map<K, V>,
                                                     buckets: seq<seq<Entry<K, V>>>, es: seq<Entry<K, V>>)
    requires Filed(hash, done, buckets) && Holds(hash, left, es) && done.Keys !! left.Keys
    ensures Filed(hash, done + left, Moved(buckets, es))
    decreases |es|
  {
    if es == [] {
      forall k ensures k !in left {
        if k in left { assert Stands(hash, left, Entry(k, hash(k), left[k])); }
      }
      assert done + left == done;
    } else {
      var e := es[0];
      assert e in es;
      MoveOne(hash, done, buckets, e);
      var rest := Minus(left, e.key);
      TailHolds(hash, left, es);
      var b := e.hash % |buckets|;
      assert done[e.key := e.value] + rest == done + left;
      MovedOk(hash, done[e.key := e.value], rest, buckets[b := [e] + buckets[b]], es[1..]);
    }
  }

  lemma TailHolds<K(!new), V(!new)>(hash: K -> nat, m: map<K, V>, es: seq<Entry<K, V>>)
    requires es != [] && Holds(hash, m, es)
    ensures Holds(hash, Minus(m, es[0].key), es[1..])
  {
    var rest := Minus(m, es[0].key);
    assert es[0] in es;
    forall e ensures e in es[1..] <==> Stands(hash, rest, e) {
      assert e in es <==> Stands(hash, m, e);
      assert es == [es[0]] + es[1..];
      if e in es[1..] { var j :| 0 <= j < |es| - 1 && es[1..][j] == e; assert es[j + 1] == e != es[0]; }
    }
  }

  /** The entries of the chains from b on are the pairs that hash there. */
  ghost function From<K(!new), V(!new)>(hash: K -> nat, m: map<K, V>, n: nat, b: nat): map<K, V>
    requires n > 0
  {
    map x | x in m && hash(x) % n >= b :: m[x]
  }

  lemma {:induction false} FlattenFrom<K(!new), V(!new)>(hash: K -> nat, m: map<K, V>,
                                                         buckets: seq<seq<Entry<K, V>>>, b: nat)
    requires Filed(hash, m, buckets) && b <= |buckets|
    ensures Holds(hash, From(hash, m, |buckets|, b), Flatten(buckets[b..]))
    decreases |buckets| - b
  {
    var n := |buckets|;
    if b < n {
      FlattenFrom(hash, m, buckets, b + 1);
      var chain, rest := buckets[b], Flatten(buckets[b + 1..]);
      assert ChainOk(hash, m, n, b, chain);
      assert buckets[b..][1..] == buckets[b + 1..];
      var es := chain + rest;
      assert Flatten(buckets[b..]) == es;
      forall e ensures e in es <==> Stands(hash, From(hash, m, n, b), e) {
        assert e in chain <==> Stands(hash, m, e) && e.hash % n == b;
        assert e in rest <==> Stands(hash, From(hash, m, n, b + 1), e);
      }
      forall i, j | 0 <= i < j < |es| ensures es[i] != es[j] {
        if i < |chain| <= j { assert es[i] in chain && es[j] in rest; }
      }
    }
  }

  /** Walking all chains meets every pair of the map exactly once. */
  lemma FlattenHolds<K(!new), V(!new)>(hash: K -> nat, m: map<K, V>, buckets: seq<seq<Entry<K, V>>>)
    requires Filed(hash, m, buckets)
    ensures Holds(hash, m, Flatten(buckets))
  {
    FlattenFrom(hash, m, buckets, 0);
    assert buckets[0..] == buckets;
    assert From(hash, m, |buckets|, 0) == m;
  }

  lemma TableHolds<K(!new), V(!new)>(hash: K -> nat, m: map<K, V>, t: Table<K, V>)
    requires Represents(hash, m, t)
    ensures Holds(hash, m, Flatten(t.buckets))
  {
    FlattenHolds(hash, m, t.buckets);
  }

  lemma EmptyFiled<K(!new), V(!new)>(hash: K -> nat, n: nat)
    requires n > 0
    ensures Filed<K, V>(hash, map[], Empty(n))
  {
  }

  /** Rehashing into twice the buckets changes where entries are, not what the table means. */
  lemma ExpandOk<K(!new), V(!new)>(hash: K -> nat, m: map<K, V>, t: Table<K, V>)
    requires Represents(hash, m, t)
    ensures Represents(hash, m, Expand(t))
  {
    hide ChainOk;
    FlattenHolds(hash, m, t.buckets);
    EmptyFiled<K, V>(hash, 2 * |t.buckets|);
    MovedOk(hash, map[], m, Empty(2 * |t.buckets|), Flatten(t.buckets));
    assert map[] + m == m;
  }

  /** The buckets double exactly when they are more than three quarters full. */
  lemma ExpandWhen<K, V>(t: Table<K, V>)
    requires |t.buckets| > 0
    ensures |Expand(t).buckets| == if 4 * t.size > 3 * |t.buckets| then 2 * |t.buckets| else |t.buckets|
  {
    hide Moved, Flatten;
  }

  /** One entry too many is made room for. */
  lemma ExpandLoad<K, V>(t: Table<K, V>)
    requires |t.buckets| > 0
    ensures |Expand(t).buckets| == |t.buckets| || |Expand(t).buckets| == 2 * |t.buckets|
    ensures t.size <= |t.buckets| * 3 / 4 + 1 ==> Loaded(Expand(t))
  {
    hide Moved, Flatten;
  }

  // --------------------------------------------------------------------- operations

  function Index<K, V>(t: Table<K, V>, h: nat): (b: nat)
    requires |t.buckets| > 0
    ensures b < |t.buckets|
  {
    h % |t.buckets|
  }

  /** hashmapPut: the new table and the value replaced, if any. */
  function Put<K(==), V>(hash: K -> nat, t: Table<K, V>, key: K, value: V): (Table<K, V>, Option<V>)
    requires |t.buckets| > 0
  {
    var h := hash(key);
    var chain := t.buckets[Index(t, h)];
    var p := Position(chain, key, h, 0);
    var buckets := t.buckets[Index(t, h) := PutChain(chain, key, h, value)];
    if p < |chain| then (Table(buckets, t.size), Some(chain[p].value))
    else (Expand(Table(buckets, t.size + 1)), None)
  }

  function Get<K(==), V>(hash: K -> nat, t: Table<K, V>, key: K): Option<V>
    requires |t.buckets| > 0
  {
    var h := hash(key);
    var chain := t.buckets[Index(t, h)];
    var p := Position(chain, key, h, 0);
    if p < |chain| then Some(chain[p].value) else None
  }

  function Remove<K(==), V>(hash: K -> nat, t: Table<K, V>, key: K): (Table<K, V>, Option<V>)
    requires |t.buckets| > 0
  {
    var h := hash(key);
    var chain := t.buckets[Index(t, h)];
    var p := Position(chain, key, h, 0);
    if p < |chain| then
      (Table(t.buckets[Index(t, h) := Drop(chain, p)], if t.size > 0 then t.size - 1 else 0), Some(chain[p].value))
    else (t, None)
  }

  ghost function Lookup<K, V>(m: map<K, V>, key: K): Option<V> {
    if key in m then Some(m[key]) else None
  }

  /** At most three quarters full. */
  predicate Loaded<K, V>(t: Table<K, V>) {
    t.size <= |t.buckets| * 3 / 4
  }

  lemma PutOk<K(!new), V(!new)>(hash: K -> nat, m: map<K, V>, t: Table<K, V>, key: K, value: V)
    requires Represents(hash, m, t)
    ensures var (t', was) := Put(hash, t, key, value);
      && Represents(hash, m[key := value], t') && was == Lookup(m, key)
      && (|t'.buckets| == |t.buckets| || |t'.buckets| == 2 * |t.buckets|)
      && (Loaded(t) ==> Loaded(t'))
  {
    hide ChainOk, Expand, PutChain;
    var h := hash(key);
    var chain := t.buckets[Index(t, h)];
    assert ChainOk(hash, m, |t.buckets|, h % |t.buckets|, chain);
    FoundIff(hash, m, |t.buckets|, chain, key);
    PutChainOk(hash, m, |t.buckets|, chain, key, value);
    ChainSetFiled(hash, m, m[key := value], t.buckets, key, PutChain(chain, key, h, value));
    var buckets := t.buckets[Index(t, h) := PutChain(chain, key, h, value)];
    if key in m {
      assert m[key := value].Keys == m.Keys;
      KeysSize(m[key := value]);
      KeysSize(m);
    } else {
      assert m[key := value].Keys == m.Keys + {key};
      KeysSize(m[key := value]);
      KeysSize(m);
      ExpandOk(hash, m[key := value], Table(buckets, t.size + 1));
      ExpandLoad(Table(buckets, t.size + 1));
    }
  }

  lemma KeysSize<K, V>(m: map<K, V>)
    ensures |m| == |m.Keys|
  {
  }

  lemma GetOk<K(!new), V(!new)>(hash: K -> nat, m: map<K, V>, t: Table<K, V>, key: K)
    requires Represents(hash, m, t)
    ensures Get(hash, t, key) == Lookup(m, key)
  {
    hide ChainOk;
    var chain := t.buckets[Index(t, hash(key))];
    assert ChainOk(hash, m, |t.buckets|, hash(key) % |t.buckets|, chain);
    FoundIff(hash, m, |t.buckets|, chain, key);
  }

  lemma RemoveOk<K(!new), V(!new)>(hash: K -> nat, m: map<K, V>, t: Table<K, V>, key: K)
    requires Represents(hash, m, t)
    ensures var (t', was) := Remove(hash, t, key);
      Represents(hash, Minus(m, key), t') && was == Lookup(m, key) && |t'.buckets| == |t.buckets| && t'.size <= t.size
  {
    hide ChainOk, Drop;
    var n := |t.buckets|;
    var chain := t.buckets[Index(t, hash(key))];
    assert ChainOk(hash, m, n, hash(key) % n, chain);
    FoundIff(hash, m, n, chain, key);
    var p := Position(chain, key, hash(key), 0);
    if key in m {
      DropOk(hash, m, n, chain, key, p);
      ChainSetFiled(hash, m, Minus(m, key), t.buckets, key, Drop(chain, p));
      assert Minus(m, key).Keys == m.Keys - {key};
      KeysSize(Minus(m, key));
      KeysSize(m);
    } else {
      assert Minus(m, key) == m;
    }
  }

  lemma DropOk<K(!new), V(!new)>(hash: K -> nat, m: map<K, V>, n: nat, chain: seq<Entry<K, V>>, key: K, p: nat)
    requires n > 0 && ChainOk(hash, m, n, hash(key) % n, chain) && p < |chain|
    requires key in m && chain[p] == Entry(key, hash(key), m[key])
    ensures ChainOk(hash, Minus(m, key), n, hash(key) % n, Drop(chain, p))
  {
    DropIn(chain, p);
    forall e ensures e in Drop(chain, p) <==> Stands(hash, Minus(m, key), e) && e.hash % n == hash(key) % n {
      assert e in chain <==> Stands(hash, m, e) && e.hash % n == hash(key) % n;
    }
  }

  // ------------------------------------------------------------------------- in place

  predicate PowerOfTwo(n: nat) {
    n == 1 || (n > 0 && n % 2 == 0 && PowerOfTwo(n / 2))
  }

  function Pow2(k: nat): nat {
    if k == 0 then 1 else 2 * Pow2(k - 1)
  }

  lemma {:induction false} IsPower(n: nat) returns (k: nat)
    requires PowerOfTwo(n)
    ensures n == Pow2(k)
  {
    if n == 1 {
      k := 0;
    } else {
      k := IsPower(n / 2);
      k := k + 1;
    }
  }

  class Hashmap<K(==,!new), V(==,!new)> {
    const hash: K -> nat
    var buckets: seq<seq<Entry<K, V>>>
    var size: nat
    /** The finite map the table stands for. */
    ghost var model: map<K, V>

    ghost predicate Valid()
      reads this
    {
      && Represents(hash, model, Table(buckets, size))
      && PowerOfTwo(|buckets|) && Loaded(Table(buckets, size))
    }

    constructor (initialCapacity: nat, hash: K -> nat)
      ensures Valid() && model == map[] && this.hash == hash && |buckets| > initialCapacity * 4 / 3
    {
      this.hash := hash;
      var count := BucketCount(initialCapacity * 4 / 3);
      buckets, size, model := Empty(count), 0, map[];
      new;
      EmptyFiled<K, V>(hash, count);
    }

    /** Walks the chain of the key; its length if the key is not there. */
    method Walk(chain: seq<Entry<K, V>>, key: K, h: nat) returns (p: nat)
      ensures p == Position(chain, key, h, 0)
    {
      p := 0;
      while p < |chain|
        invariant p <= |chain| && Position(chain, key, h, p) == Position(chain, key, h, 0)
      {
        if chain[p].hash == h && chain[p].key == key { return; }
        p := p + 1;
      }
    }

    method GetValue(key: K) returns (r: Option<V>)
      requires Valid()
      ensures r == Lookup(model, key)
    {
      GetOk(hash, model, Table(buckets, size), key);
      var h := hash(key);
      var chain := buckets[h % |buckets|];
      var p := Walk(chain, key, h);
      r := if p < |chain| then Some(chain[p].value) else None;
    }

    method PutValue(key: K, value: V) returns (r: Option<V>)
      requires Valid()
      modifies this
      ensures Valid() && model == old(model)[key := value] && r == Lookup(old(model), key)
    {
      hide ChainOk, Expand;
      ghost var t := Table(buckets, size);
      PutOk(hash, model, t, key, value);
      PowerDoubled(|buckets|);
      var h := hash(key);
      var b := h % |buckets|;
      var p := Walk(buckets[b], key, h);
      model := model[key := value];
      if p < |buckets[b]| {
        r := Some(buckets[b][p].value);
        buckets := buckets[b := buckets[b][p := buckets[b][p].(value := value)]];
      } else {
        r := None;
        buckets := buckets[b := buckets[b] + [Entry(key, h, value)]];
        size := size + 1;
        ExpandIfNecessary();
      }
    }

    method ExpandIfNecessary()
      requires |buckets| > 0
      modifies this`buckets
      ensures Table(buckets, size) == Expand(old(Table(buckets, size)))
    {
      if size > |buckets| * 3 / 4 {
        var wider: seq<seq<Entry<K, V>>> := Empty(2 * |buckets|);
        ghost var all := Moved(wider, Flatten(buckets));
        var i := 0;
        assert buckets[0..] == buckets;
        while i < |buckets|
          invariant i <= |buckets| && |wider| == 2 * |buckets| && Moved(wider, Flatten(buckets[i..])) == all
        {
          ghost var rest := Flatten(buckets[i + 1..]);
          assert buckets[i..][1..] == buckets[i + 1..];
          var k := 0;
          assert buckets[i][0..] == buckets[i];
          while k < |buckets[i]|
            invariant k <= |buckets[i]| && |wider| == 2 * |buckets| && Moved(wider, buckets[i][k..] + rest) == all
          {
            var entry := buckets[i][k];
            assert (buckets[i][k..] + rest)[1..] == buckets[i][k + 1..] + rest;
            var index := entry.hash % |wider|;
            wider := wider[index := [entry] + wider[index]];
            k := k + 1;
          }
          assert buckets[i][k..] + rest == rest;
          i := i + 1;
        }
        assert buckets[i..] == [];
        buckets := wider;
      }
    }

    method RemoveKey(key: K) returns (r: Option<V>)
      requires Valid()
      modifies this
      ensures Valid() && model == Minus(old(model), key) && r == Lookup(old(model), key)
    {
      hide ChainOk;
      RemoveOk(hash, model, Table(buckets, size), key);
      var h := hash(key);
      var b := h % |buckets|;
      var p := Walk(buckets[b], key, h);
      model := Minus(model, key);
      if p < |buckets[b]| {
        r := Some(buckets[b][p].value);
        buckets := buckets[b := buckets[b][..p] + buckets[b][p + 1..]];
        size := size - 1;
      } else {
        r := None;
      }
    }
  }

  /** The least power of two above the minimum. */
  method BucketCount(minimum: nat) returns (count: nat)
    ensures PowerOfTwo(count) && count > minimum && (count > 1 ==> count / 2 <= minimum)
  {
    count := 1;
    while count <= minimum
      invariant count >= 1 && PowerOfTwo(count) && (count > 1 ==> count / 2 <= minimum)
    {
      PowerDoubled(count);
      count := 2 * count;
    }
  }

  lemma PowerDoubled(n: nat)
    requires PowerOfTwo(n)
    ensures PowerOfTwo(2 * n)
  {
  }
}

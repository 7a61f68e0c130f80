/** PHP arrays as the adapter uses them: ordered sequences of key/value
    entries in which every key occurs at most once.  Assigning to an existing
    key keeps its position; assigning to a new key appends it. */
module OrderedMap {
  import opened Wrappers
  import opened Sequences

  type OMap<K, V> = seq<(K, V)>

  function Keys<K, V>(m: OMap<K, V>): (ks: seq<K>)
    ensures |ks| == |m|
    ensures forall i :: 0 <= i < |m| ==> ks[i] == m[i].0
  {
    if m == [] then [] else [m[0].0] + Keys(m[1..])
  }

  function Values<K, V>(m: OMap<K, V>): (vs: seq<V>)
    ensures |vs| == |m|
    ensures forall i :: 0 <= i < |m| ==> vs[i] == m[i].1
  {
    if m == [] then [] else [m[0].1] + Values(m[1..])
  }

  predicate Distinct<T(==)>(s: seq<T>) {
    s == [] || (s[0] !in s[1..] && Distinct(s[1..]))
  }

  /** The shape of every PHP array: no key twice. */
  predicate UniqueKeys<K(==,!new), V>(m: OMap<K, V>) {
    Distinct(Keys(m))
  }

  /** $m[$k], or None when the key is not set. */
  function Get<K(==,!new), V>(m: OMap<K, V>, k: K): (r: Option<V>)
    ensures r.Some? <==> k in Keys(m)
  {
    if m == [] then None
    else if m[0].0 == k then Some(m[0].1)
    else Get(m[1..], k)
  }

  /** In an array with unique keys the entry at a key is the one Get finds. */
  lemma {:induction false} GetAt<K(!new), V>(m: OMap<K, V>, i: nat)
    requires UniqueKeys(m) && i < |m|
    ensures Get(m, m[i].0) == Some(m[i].1)
  {
    if i > 0 {
      assert m[i].0 == Keys(m[1..])[i - 1];
      GetAt(m[1..], i - 1);
    }
  }

  /** $m[$k] = $v */
  function Put<K(==,!new), V>(m: OMap<K, V>, k: K, v: V): (r: OMap<K, V>)
    ensures Get(r, k) == Some(v)
    ensures forall k' :: k' != k ==> Get(r, k') == Get(m, k')
    ensures Keys(r) == if k in Keys(m) then Keys(m) else Keys(m) + [k]
    ensures UniqueKeys(m) ==> UniqueKeys(r)
  {
    if m == [] then [(k, v)]
    else if m[0].0 == k then [(k, v)] + m[1..]
    else
      var t := Put(m[1..], k, v);
      PutBehindHead(m, k, v, t);
      [m[0]] + t
  }

  /** Put's contract carries over from the tail to the whole map when the
      first key is another one. */
  lemma PutBehindHead<K(!new), V>(m: OMap<K, V>, k: K, v: V, t: OMap<K, V>)
    requires m != [] && m[0].0 != k
    requires Get(t, k) == Some(v)
    requires forall k' :: k' != k ==> Get(t, k') == Get(m[1..], k')
    requires Keys(t) == if k in Keys(m[1..]) then Keys(m[1..]) else Keys(m[1..]) + [k]
    requires UniqueKeys(m[1..]) ==> UniqueKeys(t)
    ensures Get([m[0]] + t, k) == Some(v)
    ensures forall k' :: k' != k ==> Get([m[0]] + t, k') == Get(m, k')
    ensures Keys([m[0]] + t) == if k in Keys(m) then Keys(m) else Keys(m) + [k]
    ensures UniqueKeys(m) ==> UniqueKeys([m[0]] + t)
  {
    var r := [m[0]] + t;
    assert r[1..] == t;
    assert Keys(r) == [m[0].0] + Keys(t);
    assert Keys(m) == [m[0].0] + Keys(m[1..]);
    assert k in Keys(m) <==> k in Keys(m[1..]);
    if k !in Keys(m[1..]) {
      ConsSnoc(m[0].0, Keys(m[1..]), k);
    }
    forall k' | k' != k
      ensures Get(r, k') == Get(m, k')
    {
      if k' != m[0].0 {
        assert Get(r, k') == Get(t, k');
      }
    }
    if UniqueKeys(m) {
      assert Keys(r)[1..] == Keys(t);
      assert Keys(m)[1..] == Keys(m[1..]);
    }
  }

  /** unset($m[$k]) */
  function Remove<K(==,!new), V>(m: OMap<K, V>, k: K): (r: OMap<K, V>)
    ensures k !in Keys(r)
    ensures forall k' :: k' != k ==> Get(r, k') == Get(m, k')
    ensures forall k' :: k' in Keys(r) ==> k' in Keys(m)
    ensures k !in Keys(m) ==> r == m
    ensures UniqueKeys(m) ==> UniqueKeys(r)
  {
    if m == [] then []
    else
      var t := Remove(m[1..], k);
      if m[0].0 == k then t
      else
        var r := [m[0]] + t;
        assert r[1..] == t;
        assert Keys(r) == [m[0].0] + Keys(t);
        assert Keys(r)[1..] == Keys(t);
        r
  }

  /** array_replace($a, $b): every entry of b assigned into a, in b's order. */
  function Replace<K(==,!new), V>(a: OMap<K, V>, b: OMap<K, V>): (r: OMap<K, V>)
    decreases |b|
  {
    if b == [] then a else Replace(Put(a, b[0].0, b[0].1), b[1..])
  }

  /** array_replace: the keys of b take b's values and every other key keeps
      a's value. */
  lemma {:induction false} ReplaceGet<K(!new), V>(a: OMap<K, V>, b: OMap<K, V>)
    requires UniqueKeys(b)
    ensures forall k :: k in Keys(b) ==> Get(Replace(a, b), k) == Get(b, k)
    ensures forall k :: k !in Keys(b) ==> Get(Replace(a, b), k) == Get(a, k)
    decreases |b|
  {
    if b != [] {
      var a' := Put(a, b[0].0, b[0].1);
      assert Keys(b) == [b[0].0] + Keys(b[1..]);
      ReplaceGet(a', b[1..]);
    }
  }

  /** array_replace: a's keys keep their positions and no key appears twice. */
  lemma {:induction false} ReplaceKeys<K(!new), V>(a: OMap<K, V>, b: OMap<K, V>)
    ensures |a| <= |Replace(a, b)| && Keys(Replace(a, b))[..|a|] == Keys(a)
    ensures UniqueKeys(a) ==> UniqueKeys(Replace(a, b))
    decreases |b|
  {
    if b != [] {
      var a' := Put(a, b[0].0, b[0].1);
      ReplaceKeys(a', b[1..]);
      var ka, ka', kr := Keys(a), Keys(a'), Keys(Replace(a, b));
      assert ka'[..|ka|] == ka by {
        if b[0].0 !in ka {
          SnocPrefix(ka, b[0].0);
        }
      }
      PrefixOfPrefix(kr, |ka|, |ka'|);
    }
  }

  /** The entries of ks and vs paired by position. */
  function Zip<K, V>(ks: seq<K>, vs: seq<V>): (r: OMap<K, V>)
    requires |ks| == |vs|
    ensures Keys(r) == ks && Values(r) == vs
  {
    if ks == [] then [] else [(ks[0], vs[0])] + Zip(ks[1..], vs[1..])
  }

  /** array_combine($ks, $vs): None where PHP rejects lists of different lengths. */
  function Combine<K(==,!new), V>(ks: seq<K>, vs: seq<V>): (r: Option<OMap<K, V>>)
  {
    if |ks| != |vs| then None else Some(Replace([], Zip(ks, vs)))
  }

  lemma {:induction false} PutNewKeyAppends<K(!new), V>(m: OMap<K, V>, k: K, v: V)
    requires k !in Keys(m)
    ensures Put(m, k, v) == m + [(k, v)]
  {
    if m != [] {
      assert Keys(m) == [m[0].0] + Keys(m[1..]);
      assert m[0].0 != k && k !in Keys(m[1..]);
      PutNewKeyAppends(m[1..], k, v);
      assert Put(m, k, v) == [m[0]] + (m[1..] + [(k, v)]);
      ConsSnoc(m[0], m[1..], (k, v));
      HeadTail(m);
    }
  }

  /** Assigning entries with new keys only appends them. */
  lemma {:induction false} ReplaceFreshKeys<K(!new), V>(a: OMap<K, V>, b: OMap<K, V>)
    requires UniqueKeys(b)
    requires forall k :: k in Keys(b) ==> k !in Keys(a)
    ensures Replace(a, b) == a + b
    decreases |b|
  {
    if b != [] {
      var a' := a + [b[0]];
      assert Put(a, b[0].0, b[0].1) == a' by {
        assert Keys(b) == [b[0].0] + Keys(b[1..]);
        PutNewKeyAppends(a, b[0].0, b[0].1);
      }
      assert UniqueKeys(b[1..]) && forall k :: k in Keys(b[1..]) ==> k !in Keys(a') by {
        assert Keys(b) == [b[0].0] + Keys(b[1..]);
        assert Keys(a') == Keys(a) + [b[0].0];
      }
      ReplaceFreshKeys(a', b[1..]);
      AppendHead(a, b);
    }
  }

  /** With distinct keys array_combine pairs the lists by position:
      the i-th key gets the i-th value. */
  lemma CombineDistinct<K(!new), V>(ks: seq<K>, vs: seq<V>)
    requires |ks| == |vs| && Distinct(ks)
    ensures Combine(ks, vs) == Some(Zip(ks, vs))
    ensures Keys(Combine(ks, vs).value) == ks && Values(Combine(ks, vs).value) == vs
  {
    var z := Zip(ks, vs);
    ReplaceFreshKeys([], z);
    assert [] + z == z;
  }

  /** Assigning twice to a key keeps only the second value. */
  lemma {:induction false} PutPut<K(!new), V>(m: OMap<K, V>, k: K, v: V, w: V)
    ensures Put(Put(m, k, v), k, w) == Put(m, k, w)
  {
    if m != [] && m[0].0 != k {
      PutPut(m[1..], k, v, w);
      assert Put(m, k, v)[1..] == Put(m[1..], k, v);
    }
  }

  /** Assigning a key the value it already has changes nothing. */
  lemma {:induction false} PutSame<K(!new), V>(m: OMap<K, V>, k: K)
    requires k in Keys(m)
    ensures Put(m, k, Get(m, k).value) == m
  {
    if m[0].0 != k {
      assert Keys(m) == [m[0].0] + Keys(m[1..]);
      PutSame(m[1..], k);
      assert m == [m[0]] + m[1..];
    }
  }

  /** array_intersect($a, $b): the elements of a that occur in b, in a's order. */
  function Intersect<T(==,!new)>(a: seq<T>, b: seq<T>): (r: seq<T>)
    ensures forall x :: x in r <==> x in a && x in b
    ensures |r| <= |a|
  {
    if a == [] then []
    else if a[0] in b then [a[0]] + Intersect(a[1..], b)
    else Intersect(a[1..], b)
  }

  /** s is t with some elements left out and the rest in their order. */
  predicate SubsequenceOf<T(==)>(s: seq<T>, t: seq<T>)
    decreases |t|
  {
    if s == [] then true
    else if t == [] then false
    else if s[0] == t[0] then SubsequenceOf(s[1..], t[1..])
    else SubsequenceOf(s, t[1..])
  }

  /** array_intersect keeps the order of its first argument. */
  lemma {:induction false} IntersectKeepsOrder<T(!new)>(a: seq<T>, b: seq<T>)
    ensures SubsequenceOf(Intersect(a, b), a)
  {
    if a != [] {
      IntersectKeepsOrder(a[1..], b);
      var r := Intersect(a, b);
      if a[0] in b {
        assert r[0] == a[0] && r[1..] == Intersect(a[1..], b);
      } else if r != [] {
        assert r[0] in r;
        SkipHead(r, a);
      }
    }
  }

  lemma SkipHead<T>(s: seq<T>, t: seq<T>)
    requires t != [] && s != [] && s[0] != t[0] && SubsequenceOf(s, t[1..])
    ensures SubsequenceOf(s, t)
  {
  }

  /** A list with no duplicates keeps none after array_intersect. */
  lemma {:induction false} IntersectDistinct<T(!new)>(a: seq<T>, b: seq<T>)
    requires Distinct(a)
    ensures Distinct(Intersect(a, b))
  {
    if a != [] {
      IntersectDistinct(a[1..], b);
    }
  }

  /** Distinct means no two positions hold the same element. */
  lemma {:induction false} DistinctIndices<T>(s: seq<T>)
    requires Distinct(s)
    ensures forall i, j :: 0 <= i < |s| && 0 <= j < |s| && i != j ==> s[i] != s[j]
  {
    if s != [] {
      DistinctIndices(s[1..]);
      assert forall j :: 1 <= j < |s| ==> s[j] == s[1..][j - 1];
    }
  }
}

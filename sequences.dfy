/** Small facts about sequence concatenation and slicing, stated once for
    any element type so that proofs about arrays and strings can cite them. */
module Sequences {

  lemma HeadTail<T>(s: seq<T>)
    requires s != []
    ensures [s[0]] + s[1..] == s
  {
  }

  lemma Assoc<T>(x: seq<T>, y: seq<T>, z: seq<T>)
    ensures x + (y + z) == (x + y) + z
  {
  }

  lemma ConsSnoc<T>(a: T, s: seq<T>, b: T)
    ensures [a] + (s + [b]) == ([a] + s) + [b]
  {
  }

  lemma Cons2<T>(x: T, y: T, t: seq<T>)
    ensures [x, y] + t == [x] + ([y] + t)
  {
  }

  lemma Cons4<T>(w: T, x: T, y: T, z: T, t: seq<T>)
    ensures [w, x, y, z] + t == [w] + ([x] + ([y] + ([z] + t)))
  {
  }

  lemma SliceOfTail<T>(s: seq<T>, i: nat)
    requires i < |s|
    ensures s[1..][i..] == s[i + 1..]
  {
  }

  lemma ConsParts<T>(x: T, s: seq<T>)
    ensures ([x] + s)[0] == x && ([x] + s)[1..] == s
  {
  }

  lemma SplitAt<T>(s: seq<T>, j: nat)
    requires j < |s|
    ensures s == s[..j] + ([s[j]] + s[j + 1..])
  {
  }

  lemma AppendHead<T>(a: seq<T>, b: seq<T>)
    requires b != []
    ensures a + b == (a + [b[0]]) + b[1..]
  {
    assert b == [b[0]] + b[1..];
  }

  lemma SnocPrefix<T>(s: seq<T>, x: T)
    ensures (s + [x])[..|s|] == s
  {
  }

  lemma PrefixOfPrefix<T>(s: seq<T>, n: nat, m: nat)
    requires n <= m <= |s|
    ensures s[..m][..n] == s[..n]
  {
  }

  lemma TailOfAppend<T>(a: seq<T>, b: seq<T>, n: nat)
    requires n <= |a|
    ensures (a + b)[n..] == a[n..] + b
  {
  }
}

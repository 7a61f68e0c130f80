/** The PHP string functions the adapter relies on: strpos, str_replace
    (one search string, or parallel arrays of search and replacement strings)
    and strtolower, on strings as sequences of characters. */
module Strings {
  import opened Wrappers
  import opened Sequences

  /** The needle starts at position i of the haystack. */
  predicate OccursAt(h: string, n: string, i: nat) {
    i <= |h| && n <= h[i..]
  }

  /** strpos($h, $n): the first position of a non-empty needle, None for PHP's `false`. */
  function StrPos(h: string, n: string): (r: Option<nat>)
    requires n != []
    ensures r.Some? ==> OccursAt(h, n, r.value) && forall j :: 0 <= j < r.value ==> !OccursAt(h, n, j)
    ensures r.None? ==> forall j :: 0 <= j <= |h| ==> !OccursAt(h, n, j)
    decreases |h|
  {
    if n <= h then Some(0)
    else if h == [] then None
    else
      assert h[0..] == h;
      assert forall j :: 1 <= j <= |h| ==> (OccursAt(h, n, j) <==> OccursAt(h[1..], n, j - 1)) by {
        forall j | 1 <= j <= |h| ensures OccursAt(h, n, j) <==> OccursAt(h[1..], n, j - 1) {
          assert h[j..] == h[1..][j - 1..];
        }
      }
      match StrPos(h[1..], n)
      case None => None
      case Some(p) => Some(p + 1)
  }

  /** str_replace($k, $r, $s) for one non-empty search string: the
      occurrences of k are replaced left to right, never overlapping. */
  function ReplaceAll(s: string, k: string, r: string): (t: string)
    decreases |s|
  {
    if k == [] || s == [] then s
    else if k <= s then r + ReplaceAll(s[|k|..], k, r)
    else [s[0]] + ReplaceAll(s[1..], k, r)
  }

  /** str_replace(array_keys($map), array_values($map), $s): each pair is
      applied to the result of the previous ones, in order. */
  function StrReplace(s: string, pairs: seq<(string, string)>): (t: string)
    decreases |pairs|
  {
    if pairs == [] then s else StrReplace(ReplaceAll(s, pairs[0].0, pairs[0].1), pairs[1..])
  }

  /** strtolower on ASCII letters. */
  function Lower(s: string): (t: string)
    ensures |t| == |s|
    ensures forall i :: 0 <= i < |s| ==> t[i] == (if 'A' <= s[i] <= 'Z' then (s[i] as int + 32) as char else s[i])
  {
    if s == [] then [] else [if 'A' <= s[0] <= 'Z' then (s[0] as int + 32) as char else s[0]] + Lower(s[1..])
  }

  /** A string in which k does not occur is left unchanged. */
  lemma {:induction false} ReplaceAllAbsent(s: string, k: string, r: string)
    requires k != []
    requires forall i :: 0 <= i <= |s| ==> !OccursAt(s, k, i)
    ensures ReplaceAll(s, k, r) == s
    decreases |s|
  {
    if s != [] {
      assert !OccursAt(s, k, 0);
      forall i | 0 <= i <= |s[1..]| ensures !OccursAt(s[1..], k, i) {
        assert s[1..][i..] == s[i + 1..];
        assert !OccursAt(s, k, i + 1);
      }
      ReplaceAllAbsent(s[1..], k, r);
    }
  }

  /** A prefix none of whose characters can start an occurrence passes through. */
  lemma {:induction false} ReplaceAllPassPrefix(p: string, t: string, k: string, r: string)
    requires k != []
    requires forall i :: 0 <= i < |p| ==> p[i] != k[0]
    ensures ReplaceAll(p + t, k, r) == p + ReplaceAll(t, k, r)
    decreases |p|
  {
    if p != [] {
      assert (p + t)[0] == p[0];
      assert !(k <= p + t);
      assert (p + t)[1..] == p[1..] + t;
      ReplaceAllPassPrefix(p[1..], t, k, r);
      assert ReplaceAll(p + t, k, r) == [p[0]] + ReplaceAll(p[1..] + t, k, r);
      assert [p[0]] + (p[1..] + ReplaceAll(t, k, r)) == p + ReplaceAll(t, k, r);
    } else {
      assert p + t == t;
    }
  }

  /** An occurrence at the head is replaced. */
  lemma ReplaceAllHead(k: string, t: string, r: string)
    requires k != []
    ensures ReplaceAll(k + t, k, r) == r + ReplaceAll(t, k, r)
  {
    assert k <= k + t;
    assert (k + t)[|k|..] == t;
  }

  /** Every occurrence is removed, not only a leading one: an occurrence after a
      stretch in which no occurrence starts is replaced in place. */
  lemma {:induction false} ReplaceAllInner(a: string, k: string, b: string, r: string)
    requires k != []
    requires forall i :: 0 <= i < |a| ==> !OccursAt(a + k + b, k, i)
    ensures ReplaceAll(a + k + b, k, r) == a + r + ReplaceAll(b, k, r)
    decreases |a|
  {
    var s := a + k + b;
    if a == [] {
      assert s == k + b;
      ReplaceAllHead(k, b, r);
    } else {
      var a', rb := a[1..], ReplaceAll(b, k, r);
      assert !OccursAt(s, k, 0);
      Assoc(a, k, b);
      TailOfAppend(a, k + b, 1);
      Assoc(a', k, b);
      assert s[0] == a[0] && s[1..] == a' + k + b;
      forall i | 0 <= i < |a'| ensures !OccursAt(a' + k + b, k, i) {
        SliceOfTail(s, i);
        assert !OccursAt(s, k, i + 1);
      }
      ReplaceAllInner(a', k, b, r);
      assert ReplaceAll(s, k, r) == [a[0]] + ((a' + r) + rb);
      Assoc([a[0]], a' + r, rb);
      Assoc([a[0]], a', r);
      HeadTail(a);
    }
  }

  /** Replacing by the empty string never makes a string longer. */
  lemma {:induction false} ReplaceAllByEmptyShrinks(s: string, k: string)
    ensures |ReplaceAll(s, k, "")| <= |s|
    decreases |s|
  {
    if k != [] && s != [] {
      if k <= s {
        ReplaceAllByEmptyShrinks(s[|k|..], k);
      } else {
        ReplaceAllByEmptyShrinks(s[1..], k);
      }
    }
  }

  /** Applying a list of pairs one after the other is applying its two halves in turn. */
  lemma {:induction false} StrReplaceAppend(s: string, x: seq<(string, string)>, y: seq<(string, string)>)
    ensures StrReplace(s, x + y) == StrReplace(StrReplace(s, x), y)
    decreases |x|
  {
    if x != [] {
      assert (x + y)[0] == x[0];
      assert (x + y)[1..] == x[1..] + y;
      assert StrReplace(s, x + y) == StrReplace(ReplaceAll(s, x[0].0, x[0].1), x[1..] + y);
      StrReplaceAppend(ReplaceAll(s, x[0].0, x[0].1), x[1..], y);
    } else {
      assert x + y == y;
    }
  }

  /** A prefix none of whose characters starts any search string passes
      through the whole list of pairs. */
  lemma {:induction false} StrReplacePassPrefix(p: string, t: string, pairs: seq<(string, string)>)
    requires forall j :: 0 <= j < |pairs| ==> pairs[j].0 != []
    requires forall j, i :: 0 <= j < |pairs| && 0 <= i < |p| ==> p[i] != pairs[j].0[0]
    ensures StrReplace(p + t, pairs) == p + StrReplace(t, pairs)
    decreases |pairs|
  {
    if pairs != [] {
      ReplaceAllPassPrefix(p, t, pairs[0].0, pairs[0].1);
      StrReplacePassPrefix(p, ReplaceAll(t, pairs[0].0, pairs[0].1), pairs[1..]);
    }
  }

  /** The string starts with something other than c (or is empty). */
  predicate HeadIsNot(s: string, c: char) {
    s == [] || s[0] != c
  }

  /** When no replacement string starts with c, replacing cannot make a
      string start with c. */
  lemma StrReplaceHeadIsNot(s: string, c: char, pairs: seq<(string, string)>)
    requires forall j :: 0 <= j < |pairs| ==> pairs[j].1 != [] && pairs[j].1[0] != c
    requires HeadIsNot(s, c)
    ensures HeadIsNot(StrReplace(s, pairs), c)
    decreases |pairs|
  {
    if pairs != [] {
      var s' := ReplaceAll(s, pairs[0].0, pairs[0].1);
      assert HeadIsNot(s', c);
      StrReplaceHeadIsNot(s', c, pairs[1..]);
    }
  }
}

/** Helpers::escape: the literal escaper applied to every find value that is not
    a `like` pattern.  Six search strings each get a backslash in front of each
    of their characters, by one str_replace over parallel key and value lists. */
module Helpers {
  import opened Strings
  import opened Sequences

  /** The substitution table, in the order of the PHP array literal. */
  const EscapeMap: seq<(string, string)> := [
    ("@", "\\@"),
    ("#", "\\#"),
    ("?", "\\?"),
    ("\"\"", "\\\"\\\""),
    ("*", "\\*"),
    ("//", "\\/\\/")
  ]

  /** escape($str): str_replace over the table, each pair applied to the
      output of the pairs before it. */
  function Escape(s: string): (r: string)
  {
    StrReplace(s, EscapeMap)
  }

  /** The four single characters that are escaped wherever they occur. */
  predicate SingleSpecial(c: char) {
    c == '@' || c == '#' || c == '?' || c == '*'
  }

  /** The two characters that are escaped only when doubled. */
  predicate PairChar(c: char) {
    c == '"' || c == '/'
  }

  /** The reference definition: a single left-to-right scan that escapes a
      special character, or a doubled quote or slash, and moves past it. */
  function EscapeOnePass(s: string): (r: string)
    decreases |s|
  {
    if s == [] then []
    else if SingleSpecial(s[0]) then ['\\', s[0]] + EscapeOnePass(s[1..])
    else if |s| >= 2 && PairChar(s[0]) && s[1] == s[0] then ['\\', s[0], '\\', s[0]] + EscapeOnePass(s[2..])
    else [s[0]] + EscapeOnePass(s[1..])
  }

  /** Some character or doubled pair that the table escapes occurs in s. */
  predicate HasSpecial(s: string) {
    exists i :: 0 <= i < |s| && (SingleSpecial(s[i]) || (i + 1 < |s| && PairChar(s[i]) && s[i + 1] == s[i]))
  }

  /** Joining a and b creates no doubled quote or slash across the seam. */
  predicate NoStraddle(a: string, b: string) {
    a == [] || b == [] || !PairChar(a[|a| - 1]) || b[0] != a[|a| - 1]
  }

  // ---------------------------------------------------------------------
  // Sequential application equals the single pass.

  /** One pair of a list of str_replace pairs acting on a head h that passes
      unchanged through the earlier pairs and whose result e passes unchanged
      through the later ones. */
  lemma TokenAt(h: string, e: string, t: string, pairs: seq<(string, string)>, j: nat)
    requires j < |pairs|
    requires forall i :: 0 <= i < |pairs| ==> pairs[i].0 != []
    requires forall i, c :: 0 <= i < j && 0 <= c < |h| ==> h[c] != pairs[i].0[0]
    requires forall i, c :: j < i < |pairs| && 0 <= c < |e| ==> e[c] != pairs[i].0[0]
    requires ReplaceAll(h + StrReplace(t, pairs[..j]), pairs[j].0, pairs[j].1)
          == e + ReplaceAll(StrReplace(t, pairs[..j]), pairs[j].0, pairs[j].1)
    ensures StrReplace(h + t, pairs) == e + StrReplace(t, pairs)
  {
    var before, rest := pairs[..j], pairs[j + 1..];
    var x := StrReplace(t, before);
    var y := ReplaceAll(x, pairs[j].0, pairs[j].1);
    SplitAt(pairs, j);
    StrReplaceAppend(h + t, before, [pairs[j]] + rest);
    StrReplaceAppend(t, before, [pairs[j]] + rest);
    StrReplacePassPrefix(h, t, before);
    ConsParts(pairs[j], rest);
    assert StrReplace(h + x, [pairs[j]] + rest) == StrReplace(e + y, rest);
    assert StrReplace(x, [pairs[j]] + rest) == StrReplace(y, rest);
    StrReplacePassPrefix(e, y, rest);
  }

  /** A character that is not the start of the search string stays in front. */
  lemma ReplaceAllLoneHead(c: char, t: string, k: string, r: string)
    requires k != [] && !(k <= [c] + t)
    ensures ReplaceAll([c] + t, k, r) == [c] + ReplaceAll(t, k, r)
  {
    assert ([c] + t)[1..] == t;
  }

  /** The table spelled out: every search string is non-empty and every
      replacement begins with a backslash. */
  lemma EscapeMapFacts()
    ensures |EscapeMap| == 6
    ensures forall i :: 0 <= i < 6 ==> EscapeMap[i].0 != [] && EscapeMap[i].1 != [] && EscapeMap[i].1[0] == '\\'
    ensures EscapeMap[0].0 == "@" && EscapeMap[1].0 == "#" && EscapeMap[2].0 == "?"
    ensures EscapeMap[3].0 == "\"\"" && EscapeMap[4].0 == "*" && EscapeMap[5].0 == "//"
    ensures EscapeMap[0].1 == "\\@" && EscapeMap[1].1 == "\\#" && EscapeMap[2].1 == "\\?"
    ensures EscapeMap[3].1 == "\\\"\\\"" && EscapeMap[4].1 == "\\*" && EscapeMap[5].1 == "\\/\\/"
  {
  }

  /** A special single character at the head is escaped and the rest is
      escaped independently. */
  lemma EscapeSingleHead(c: char, t: string)
    requires SingleSpecial(c)
    ensures Escape([c] + t) == ['\\', c] + Escape(t)
  {
    EscapeMapFacts();
    var j: nat := if c == '@' then 0 else if c == '#' then 1 else if c == '?' then 2 else 4;
    assert EscapeMap[j].0 == [c] && EscapeMap[j].1 == ['\\', c];
    ReplaceAllHead([c], StrReplace(t, EscapeMap[..j]), ['\\', c]);
    TokenAt([c], ['\\', c], t, EscapeMap, j);
  }

  /** A doubled quote or slash at the head is escaped as a whole. */
  lemma EscapePairHead(c: char, t: string)
    requires PairChar(c)
    ensures Escape([c, c] + t) == ['\\', c, '\\', c] + Escape(t)
  {
    EscapeMapFacts();
    var j: nat := if c == '"' then 3 else 5;
    var e := ['\\', c, '\\', c];
    assert EscapeMap[j].0 == [c, c] && EscapeMap[j].1 == e;
    ReplaceAllHead([c, c], StrReplace(t, EscapeMap[..j]), e);
    TokenAt([c, c], e, t, EscapeMap, j);
  }

  /** A quote or slash at the head that is not doubled passes through. */
  lemma EscapeLoneHead(c: char, t: string)
    requires PairChar(c) && HeadIsNot(t, c)
    ensures Escape([c] + t) == [c] + Escape(t)
  {
    EscapeMapFacts();
    var j: nat := if c == '"' then 3 else 5;
    var x := StrReplace(t, EscapeMap[..j]);
    StrReplaceHeadIsNot(t, c, EscapeMap[..j]);
    assert !(EscapeMap[j].0 <= [c] + x) by {
      assert EscapeMap[j].0 == [c, c];
      assert HeadIsNot(x, c);
      if x != [] {
        assert ([c] + x)[1] == x[0];
      } else {
        assert |[c] + x| == 1;
      }
    }
    ReplaceAllLoneHead(c, x, EscapeMap[j].0, EscapeMap[j].1);
    TokenAt([c], [c], t, EscapeMap, j);
  }

  /** Any other character at the head passes through. */
  lemma EscapePlainHead(c: char, t: string)
    requires !SingleSpecial(c) && !PairChar(c)
    ensures Escape([c] + t) == [c] + Escape(t)
  {
    EscapeMapFacts();
    StrReplacePassPrefix([c], t, EscapeMap);
  }

  /** Sequential application of the table in its order is one left-to-right
      pass: no replacement text contains a search string of a later pair, and
      no earlier replacement creates or breaks a doubled quote or slash. */
  lemma {:induction false} EscapeIsOnePass(s: string)
    ensures Escape(s) == EscapeOnePass(s)
    decreases |s|
  {
    if s == [] {
      EscapeMapFacts();
      assert StrReplace([], EscapeMap) == [] by {
        assert forall i :: 0 <= i < |EscapeMap| ==> ReplaceAll([], EscapeMap[i].0, EscapeMap[i].1) == [];
      }
    } else if SingleSpecial(s[0]) {
      assert s == [s[0]] + s[1..];
      EscapeSingleHead(s[0], s[1..]);
      EscapeIsOnePass(s[1..]);
    } else if |s| >= 2 && PairChar(s[0]) && s[1] == s[0] {
      assert s == [s[0], s[0]] + s[2..];
      EscapePairHead(s[0], s[2..]);
      EscapeIsOnePass(s[2..]);
    } else if PairChar(s[0]) {
      assert s == [s[0]] + s[1..];
      EscapeLoneHead(s[0], s[1..]);
      EscapeIsOnePass(s[1..]);
    } else {
      assert s == [s[0]] + s[1..];
      EscapePlainHead(s[0], s[1..]);
      EscapeIsOnePass(s[1..]);
    }
  }

  // ---------------------------------------------------------------------
  // Properties of the single pass, and through EscapeIsOnePass of escape.

  /** s with every backslash removed. */
  function WithoutBackslashes(s: string): (r: string)
    ensures '\\' !in r
    ensures |r| <= |s|
  {
    if s == [] then [] else (if s[0] == '\\' then [] else [s[0]]) + WithoutBackslashes(s[1..])
  }

  lemma {:induction false} WithoutBackslashesAppend(a: string, b: string)
    ensures WithoutBackslashes(a + b) == WithoutBackslashes(a) + WithoutBackslashes(b)
    decreases |a|
  {
    if a == [] {
      assert a + b == b;
    } else {
      assert (a + b)[0] == a[0] && (a + b)[1..] == a[1..] + b;
      WithoutBackslashesAppend(a[1..], b);
    }
  }

  lemma StripKept(c: char, x: string)
    requires c != '\\'
    ensures WithoutBackslashes([c] + x) == [c] + WithoutBackslashes(x)
  {
    assert ([c] + x)[1..] == x;
  }

  lemma StripDropped(x: string)
    ensures WithoutBackslashes(['\\'] + x) == WithoutBackslashes(x)
  {
    assert (['\\'] + x)[1..] == x;
  }

  /** The single pass only inserts backslashes: removing all backslashes
      from its output and from its input gives the same string. */
  lemma {:induction false} OnePassStrip(s: string)
    ensures WithoutBackslashes(EscapeOnePass(s)) == WithoutBackslashes(s)
    decreases |s|
  {
    if s != [] {
      var c := s[0];
      if SingleSpecial(c) {
        var t := s[1..];
        OnePassStrip(t);
        HeadTail(s);
        assert EscapeOnePass(s) == ['\\', c] + EscapeOnePass(t);
        Cons2('\\', c, EscapeOnePass(t));
        StripDropped([c] + EscapeOnePass(t));
        StripKept(c, EscapeOnePass(t));
        StripKept(c, t);
      } else if |s| >= 2 && PairChar(c) && s[1] == c {
        var t := s[2..];
        OnePassStrip(t);
        assert s == [c] + ([c] + t) by {
          HeadTail(s);
          HeadTail(s[1..]);
          assert s[1..][1..] == t;
        }
        assert EscapeOnePass(s) == ['\\', c, '\\', c] + EscapeOnePass(t);
        Cons4('\\', c, '\\', c, EscapeOnePass(t));
        StripDropped([c] + (['\\'] + ([c] + EscapeOnePass(t))));
        StripKept(c, ['\\'] + ([c] + EscapeOnePass(t)));
        StripDropped([c] + EscapeOnePass(t));
        StripKept(c, EscapeOnePass(t));
        StripKept(c, [c] + t);
        StripKept(c, t);
      } else {
        var t := s[1..];
        OnePassStrip(t);
        HeadTail(s);
        assert EscapeOnePass(s) == [c] + EscapeOnePass(t);
        if c == '\\' {
          StripDropped(EscapeOnePass(t));
          StripDropped(t);
        } else {
          StripKept(c, EscapeOnePass(t));
          StripKept(c, t);
        }
      }
    }
  }

  /** The single pass never shortens its input, and lengthens every input
      that holds something to escape. */
  lemma {:induction false} OnePassLength(s: string)
    ensures |EscapeOnePass(s)| >= |s|
    ensures HasSpecial(s) ==> |EscapeOnePass(s)| > |s|
    decreases |s|
  {
    if s != [] {
      var n := if !SingleSpecial(s[0]) && |s| >= 2 && PairChar(s[0]) && s[1] == s[0] then 2 else 1;
      var t := s[n..];
      OnePassLength(t);
      if HasSpecial(s) && !SingleSpecial(s[0]) && n == 1 {
        var i :| 0 <= i < |s| && (SingleSpecial(s[i]) || (i + 1 < |s| && PairChar(s[i]) && s[i + 1] == s[i]));
        assert i > 0;
        assert t[i - 1] == s[i];
        assert i < |t| ==> t[i] == s[i + 1];
        assert HasSpecial(t);
      }
    }
  }

  /** A string with nothing to escape passes the single pass unchanged. */
  lemma {:induction false} OnePassIdentity(s: string)
    requires !HasSpecial(s)
    ensures EscapeOnePass(s) == s
    decreases |s|
  {
    if s != [] {
      var t := s[1..];
      assert !SingleSpecial(s[0]) && !(|s| >= 2 && PairChar(s[0]) && s[1] == s[0]);
      assert !HasSpecial(t) by {
        forall i | 0 <= i < |t| ensures !(SingleSpecial(t[i]) || (i + 1 < |t| && PairChar(t[i]) && t[i + 1] == t[i])) {
          assert t[i] == s[i + 1];
          assert i + 1 < |t| ==> t[i + 1] == s[i + 2];
        }
      }
      OnePassIdentity(t);
      assert s == [s[0]] + t;
    }
  }

  lemma NoStraddleTail(a: string, b: string, n: nat)
    requires n <= |a| && NoStraddle(a, b)
    ensures NoStraddle(a[n..], b)
  {
    if a[n..] != [] {
      assert a[n..][|a[n..]| - 1] == a[|a| - 1];
    }
  }

  /** The single pass of a + b is the passes of a and b side by side when
      no doubled quote or slash is formed across the seam. */
  lemma {:induction false} OnePassConcat(a: string, b: string)
    requires NoStraddle(a, b)
    ensures EscapeOnePass(a + b) == EscapeOnePass(a) + EscapeOnePass(b)
    decreases |a|
  {
    var s := a + b;
    if a == [] {
      assert s == b;
    } else if SingleSpecial(a[0]) {
      TailOfAppend(a, b, 1);
      NoStraddleTail(a, b, 1);
      OnePassConcat(a[1..], b);
      assert EscapeOnePass(s) == ['\\', a[0]] + EscapeOnePass(a[1..] + b);
      Assoc(['\\', a[0]], EscapeOnePass(a[1..]), EscapeOnePass(b));
    } else if |a| >= 2 && PairChar(a[0]) && a[1] == a[0] {
      TailOfAppend(a, b, 2);
      NoStraddleTail(a, b, 2);
      OnePassConcat(a[2..], b);
      assert s[0] == a[0] && s[1] == a[1];
      assert EscapeOnePass(s) == ['\\', a[0], '\\', a[0]] + EscapeOnePass(a[2..] + b);
      Assoc(['\\', a[0], '\\', a[0]], EscapeOnePass(a[2..]), EscapeOnePass(b));
    } else {
      TailOfAppend(a, b, 1);
      assert !(|s| >= 2 && PairChar(s[0]) && s[1] == s[0]) by {
        if |a| == 1 && PairChar(a[0]) {
          assert a[|a| - 1] == a[0];
          assert b == [] || b[0] != a[0];
          assert |s| >= 2 ==> s[1] == b[0];
        } else if |a| >= 2 {
          assert s[1] == a[1];
        }
      }
      NoStraddleTail(a, b, 1);
      OnePassConcat(a[1..], b);
      assert EscapeOnePass(s) == [a[0]] + EscapeOnePass(a[1..] + b);
      Assoc([a[0]], EscapeOnePass(a[1..]), EscapeOnePass(b));
    }
  }

  // ---------------------------------------------------------------------
  // escape itself.

  lemma EscapeEmpty()
    ensures Escape([]) == []
  {
    EscapeIsOnePass([]);
  }

  /** A string is returned unchanged exactly when it holds none of @ # ? *
      and no doubled quote or slash; otherwise it grows. */
  lemma EscapeUnchangedIff(s: string)
    ensures Escape(s) == s <==> !HasSpecial(s)
    ensures HasSpecial(s) ==> |Escape(s)| > |s|
  {
    EscapeIsOnePass(s);
    OnePassLength(s);
    if !HasSpecial(s) {
      OnePassIdentity(s);
    }
  }

  /** Only backslashes are added: the output never shrinks, and deleting
      every backslash from output and input gives the same string. */
  lemma EscapeAddsOnlyBackslashes(s: string)
    ensures |Escape(s)| >= |s|
    ensures WithoutBackslashes(Escape(s)) == WithoutBackslashes(s)
  {
    EscapeIsOnePass(s);
    OnePassLength(s);
    OnePassStrip(s);
  }

  /** Escaping works piece by piece wherever no doubled quote or slash is
      cut in two. */
  lemma EscapeConcat(a: string, b: string)
    requires NoStraddle(a, b)
    ensures Escape(a + b) == Escape(a) + Escape(b)
  {
    EscapeIsOnePass(a + b);
    EscapeIsOnePass(a);
    EscapeIsOnePass(b);
    OnePassConcat(a, b);
  }

  /** Every @ # ? * of the input appears in the output behind exactly one
      added backslash, whatever surrounds it. */
  lemma EscapeSpecialChar(a: string, c: char, b: string)
    requires SingleSpecial(c)
    ensures Escape(a + [c] + b) == Escape(a) + ['\\', c] + Escape(b)
  {
    assert a + [c] + b == a + ([c] + b);
    EscapeConcat(a, [c] + b);
    EscapeSingleHead(c, b);
    Assoc(Escape(a), ['\\', c], Escape(b));
  }

  /** A doubled quote or slash that does not continue a run of the same
      character is escaped as a whole: `""` becomes a backslash-quote twice. */
  lemma EscapeDoubled(a: string, c: char, b: string)
    requires PairChar(c) && NoStraddle(a, [c])
    ensures Escape(a + [c, c] + b) == Escape(a) + ['\\', c, '\\', c] + Escape(b)
  {
    assert a + [c, c] + b == a + ([c, c] + b);
    EscapeConcat(a, [c, c] + b);
    EscapePairHead(c, b);
    Assoc(Escape(a), ['\\', c, '\\', c], Escape(b));
  }

  /** A quote or slash with no neighbour of its own kind is left untouched. */
  lemma EscapeLoneChar(a: string, c: char, b: string)
    requires PairChar(c) && NoStraddle(a, [c]) && HeadIsNot(b, c)
    ensures Escape(a + [c] + b) == Escape(a) + [c] + Escape(b)
  {
    assert a + [c] + b == a + ([c] + b);
    EscapeConcat(a, [c] + b);
    EscapeLoneHead(c, b);
    Assoc(Escape(a), [c], Escape(b));
  }

  /** Matching is left to right and never overlaps: three quotes become an
      escaped pair followed by a plain quote. */
  lemma EscapeThreeQuotes()
    ensures Escape("\"\"\"") == "\\\"\\\"\""
  {
    assert "\"\"\"" == ['"', '"'] + ['"'];
    EscapePairHead('"', ['"']);
    assert ['"'] == ['"'] + [];
    EscapeLoneHead('"', []);
    EscapeEmpty();
  }

  /** Escaping is not idempotent: a string holding @ # ? or * is changed
      again by a second escape (`\@` becomes `\\@`). */
  lemma EscapeNotIdempotent(s: string, i: nat)
    requires i < |s| && SingleSpecial(s[i])
    ensures Escape(Escape(s)) != Escape(s)
  {
    var a, c, b := s[..i], s[i], s[i + 1..];
    assert s == a + [c] + b;
    EscapeSpecialChar(a, c, b);
    var e := Escape(s);
    var k := |Escape(a)| + 1;
    assert e[k] == c;
    assert HasSpecial(e);
    EscapeUnchangedIff(e);
  }

  /** Escaping is not injective: an already escaped pair of quotes contains
      nothing to escape, so it escapes to the same text as the raw pair. */
  lemma EscapeNotInjective()
    ensures Escape("\"\"") == Escape("\\\"\\\"") == "\\\"\\\""
  {
    assert "\"\"" == ['"', '"'] + [];
    EscapePairHead('"', []);
    EscapeEmpty();
    var e := "\\\"\\\"";
    assert !HasSpecial(e) by {
      forall i | 0 <= i < |e| ensures !(SingleSpecial(e[i]) || (i + 1 < |e| && PairChar(e[i]) && e[i + 1] == e[i])) {
      }
    }
    EscapeUnchangedIff(e);
  }
}

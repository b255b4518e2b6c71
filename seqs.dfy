/** Sequence combinators the models are specified with, and their properties. */
module Seqs {

  /** The elements of `s` that satisfy `p`, in their original order. */
  function Filter<T(==)>(s: seq<T>, p: T -> bool): (r: seq<T>)
    ensures |r| <= |s|
    ensures forall x :: x in r ==> x in s && p(x)
    ensures forall x :: x in s && p(x) ==> x in r
  {
    if s == [] then []
    else if p(s[0]) then [s[0]] + Filter(s[1..], p)
    else Filter(s[1..], p)
  }

  /** The elements `s[k]` whose flag `f[k]` equals `b`, in their original order. */
  function Pick<T>(s: seq<T>, f: seq<bool>, b: bool): (r: seq<T>)
    requires |f| == |s|
    ensures |r| <= |s|
  {
    if s == [] then []
    else (if f[0] == b then [s[0]] else []) + Pick(s[1..], f[1..], b)
  }

  /** `a` is obtained from `b` by deleting elements: same elements, same relative order. */
  predicate IsSubseq<T(==)>(a: seq<T>, b: seq<T>)
    decreases |b|
  {
    if a == [] then true
    else if b == [] then false
    else if a[0] == b[0] then IsSubseq(a[1..], b[1..])
    else IsSubseq(a, b[1..])
  }

  /** No element occurs twice. */
  predicate Distinct<T(==)>(s: seq<T>) {
    forall i, j :: 0 <= i < j < |s| ==> s[i] != s[j]
  }

  lemma {:induction false} FilterAppend<T>(s: seq<T>, x: T, p: T -> bool)
    ensures Filter(s + [x], p) == Filter(s, p) + (if p(x) then [x] else [])
  {
    if s == [] {
      assert s + [x] == [x];
    } else {
      assert (s + [x])[1..] == s[1..] + [x];
      FilterAppend(s[1..], x, p);
    }
  }

  lemma {:induction false} PickAppend<T>(s: seq<T>, f: seq<bool>, x: T, y: bool, b: bool)
    requires |f| == |s|
    ensures Pick(s + [x], f + [y], b) == Pick(s, f, b) + (if y == b then [x] else [])
  {
    if s == [] {
      assert s + [x] == [x] && f + [y] == [y];
      assert Pick([x], [y], b) == (if y == b then [x] else []) + Pick([], [], b);
    } else {
      var s', f' := s + [x], f + [y];
      assert s'[0] == s[0] && f'[0] == f[0];
      assert s'[1..] == s[1..] + [x];
      assert f'[1..] == f[1..] + [y];
      PickAppend(s[1..], f[1..], x, y, b);
      var head := if f[0] == b then [s[0]] else [];
      calc {
        Pick(s', f', b);
        head + Pick(s[1..] + [x], f[1..] + [y], b);
        head + (Pick(s[1..], f[1..], b) + (if y == b then [x] else []));
        (head + Pick(s[1..], f[1..], b)) + (if y == b then [x] else []);
      }
    }
  }

  /** Picking by a flag and by its negation splits `s` without loss or duplication. */
  lemma {:induction false} PickPartition<T>(s: seq<T>, f: seq<bool>)
    requires |f| == |s|
    ensures |Pick(s, f, true)| + |Pick(s, f, false)| == |s|
    ensures multiset(Pick(s, f, true)) + multiset(Pick(s, f, false)) == multiset(s)
  {
    if s != [] {
      PickPartition(s[1..], f[1..]);
      assert s == [s[0]] + s[1..];
    }
  }

  /** Picking by a flag that is set everywhere keeps the whole sequence. */
  lemma {:induction false} PickAll<T>(s: seq<T>, f: seq<bool>)
    requires |f| == |s|
    requires forall k :: 0 <= k < |f| ==> f[k]
    ensures Pick(s, f, true) == s
    ensures Pick(s, f, false) == []
  {
    if s != [] {
      PickAll(s[1..], f[1..]);
      assert s == [s[0]] + s[1..];
    }
  }

  lemma {:induction false} PickIsSubseq<T>(s: seq<T>, f: seq<bool>, b: bool)
    requires |f| == |s|
    ensures IsSubseq(Pick(s, f, b), s)
  {
    if s != [] {
      PickIsSubseq(s[1..], f[1..], b);
      var rest := Pick(s[1..], f[1..], b);
      if f[0] != b {
        assert Pick(s, f, b) == rest;
        SubseqOfTail(rest, s);
      } else {
        assert Pick(s, f, b) == [s[0]] + rest;
        assert ([s[0]] + rest)[1..] == rest;
      }
    }
  }

  /** A subsequence of the tail is a subsequence of the whole. */
  lemma {:induction false} SubseqOfTail<T>(a: seq<T>, b: seq<T>)
    requires b != [] && IsSubseq(a, b[1..])
    ensures IsSubseq(a, b)
    decreases |b|, |a|
  {
    if a != [] && a[0] == b[0] {
      // IsSubseq(a, b) reduces to IsSubseq(a[1..], b[1..]); drop a[0] from the witness of IsSubseq(a, b[1..])
      SubseqDropHead(a, b[1..]);
    }
  }

  /** Dropping the first element of a subsequence keeps it a subsequence. */
  lemma {:induction false} SubseqDropHead<T>(a: seq<T>, b: seq<T>)
    requires a != [] && IsSubseq(a, b)
    ensures IsSubseq(a[1..], b)
    decreases |b|, |a|
  {
    assert b != [];
    if a[0] == b[0] {
      SubseqOfTail(a[1..], b);
    } else {
      SubseqDropHead(a, b[1..]);
      SubseqOfTail(a[1..], b);
    }
  }

  lemma {:induction false} FilterIsSubseq<T>(s: seq<T>, p: T -> bool)
    ensures IsSubseq(Filter(s, p), s)
  {
    if s != [] {
      FilterIsSubseq(s[1..], p);
      var rest := Filter(s[1..], p);
      if !p(s[0]) {
        SubseqOfTail(rest, s);
      } else {
        assert ([s[0]] + rest)[1..] == rest;
      }
    }
  }

  lemma {:induction false} SubseqMembers<T>(a: seq<T>, b: seq<T>, x: T)
    requires IsSubseq(a, b) && x in a
    ensures x in b
    decreases |b|
  {
    assert b != [];
    if a[0] == b[0] {
      if x != a[0] {
        assert x in a[1..];
        SubseqMembers(a[1..], b[1..], x);
      }
    } else {
      SubseqMembers(a, b[1..], x);
    }
  }

  lemma {:induction false} SubseqTransitive<T>(a: seq<T>, b: seq<T>, c: seq<T>)
    requires IsSubseq(a, b) && IsSubseq(b, c)
    ensures IsSubseq(a, c)
    decreases |c|
  {
    if a != [] {
      assert b != [] && c != [];
      if b[0] == c[0] {
        if a[0] == b[0] {
          SubseqTransitive(a[1..], b[1..], c[1..]);
        } else {
          SubseqTransitive(a, b[1..], c[1..]);
          SubseqOfTail(a, c);
        }
      } else {
        SubseqTransitive(a, b, c[1..]);
        SubseqOfTail(a, c);
      }
    }
  }

  /** A subsequence of a sequence without repetitions has no repetitions. */
  lemma {:induction false} SubseqDistinct<T>(a: seq<T>, b: seq<T>)
    requires IsSubseq(a, b) && Distinct(b)
    ensures Distinct(a)
    decreases |b|
  {
    if a != [] {
      assert Distinct(b[1..]) by {
        forall i, j | 0 <= i < j < |b[1..]| ensures b[1..][i] != b[1..][j] { assert b[1..][i] == b[i + 1]; }
      }
      if a[0] == b[0] {
        SubseqDistinct(a[1..], b[1..]);
        forall j | 0 < j < |a| ensures a[0] != a[j] {
          assert a[j] == a[1..][j - 1];
          SubseqMembers(a[1..], b[1..], a[j]);
          var k :| 0 <= k < |b[1..]| && b[1..][k] == a[j];
          assert b[k + 1] == a[j];
        }
      } else {
        SubseqDistinct(a, b[1..]);
      }
    }
  }

  /** One more element and flag: the picks grow by that element on the matching side. */
  lemma PickStep<T>(s: seq<T>, f: seq<bool>, k: nat)
    requires |f| == |s| && k < |s|
    ensures Pick(s[..k + 1], f[..k + 1], true) == Pick(s[..k], f[..k], true) + (if f[k] then [s[k]] else [])
    ensures Pick(s[..k + 1], f[..k + 1], false) == Pick(s[..k], f[..k], false) + (if f[k] then [] else [s[k]])
  {
    assert s[..k + 1] == s[..k] + [s[k]];
    assert f[..k + 1] == f[..k] + [f[k]];
    PickAppend(s[..k], f[..k], s[k], f[k], true);
    PickAppend(s[..k], f[..k], s[k], f[k], false);
  }

  /** One step of a scan whose element k is chosen: it joins the chosen side, the other side is unchanged. */
  lemma PickTake<T>(s: seq<T>, f: seq<bool>, k: nat, chosen: seq<T>)
    requires |f| == |s| && k < |s| && f[k]
    requires chosen == Pick(s[..k], f[..k], true)
    ensures chosen + [s[k]] == Pick(s[..k + 1], f[..k + 1], true)
    ensures Pick(s[..k + 1], f[..k + 1], false) == Pick(s[..k], f[..k], false)
  {
    PickStep(s, f, k);
  }

  /** One step of a scan whose element k is not chosen: it joins the other side after `prefix`. */
  lemma PickSkip<T>(s: seq<T>, f: seq<bool>, k: nat, prefix: seq<T>, other: seq<T>)
    requires |f| == |s| && k < |s| && !f[k]
    requires other == prefix + Pick(s[..k], f[..k], false)
    ensures other + [s[k]] == prefix + Pick(s[..k + 1], f[..k + 1], false)
    ensures Pick(s[..k + 1], f[..k + 1], true) == Pick(s[..k], f[..k], true)
  {
    PickStep(s, f, k);
  }

  /** The picks of a whole sequence, seen as its longest prefix: the chosen side is a subsequence and the
      two sides together are as long as the sequence. */
  lemma PickWhole<T>(s: seq<T>, f: seq<bool>)
    requires |f| == |s|
    ensures Pick(s[..|s|], f[..|s|], true) == Pick(s, f, true)
    ensures Pick(s[..|s|], f[..|s|], false) == Pick(s, f, false)
    ensures IsSubseq(Pick(s, f, true), s)
    ensures |Pick(s, f, true)| + |Pick(s, f, false)| == |s|
  {
    assert s[..|s|] == s && f[..|s|] == f;
    PickIsSubseq(s, f, true);
    PickPartition(s, f);
  }

  /** Filtering by a test and by its negation splits a sequence: the two results are as long as it. */
  lemma {:induction false} FilterSplit<T>(s: seq<T>, p: T -> bool, q: T -> bool)
    requires forall k :: 0 <= k < |s| ==> q(s[k]) == !p(s[k])
    ensures |Filter(s, p)| + |Filter(s, q)| == |s|
  {
    if s != [] {
      assert q(s[0]) == !p(s[0]);
      FilterSplit(s[1..], p, q);
    }
  }

  lemma AppendAssoc<T>(a: seq<T>, b: seq<T>, c: seq<T>)
    ensures a + (b + c) == (a + b) + c
  {
  }

  /** Picking by the negated flags swaps the two sides. */
  lemma {:induction false} PickNegate<T>(s: seq<T>, f: seq<bool>, g: seq<bool>)
    requires |f| == |s| && |g| == |s|
    requires forall k :: 0 <= k < |s| ==> g[k] == !f[k]
    ensures Pick(s, f, false) == Pick(s, g, true) && Pick(s, f, true) == Pick(s, g, false)
  {
    if s != [] { PickNegate(s[1..], f[1..], g[1..]); }
  }

  lemma {:induction false} SubseqReflexive<T>(s: seq<T>)
    ensures IsSubseq(s, s)
  {
    if s != [] { SubseqReflexive(s[1..]); }
  }
}

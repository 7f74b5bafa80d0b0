/** Order-preserving filtering of sequences (PHP `array_filter`, whose
    iteration keeps the original insertion order). */
module Seqs {

  /** The elements of `s` that satisfy `p`, in their original order. */
  function Filter<T>(s: seq<T>, p: T -> bool): (r: seq<T>)
    ensures |r| <= |s|
  {
    if s == [] then [] else
    (if p(s[0]) then [s[0]] else []) + Filter(s[1..], p)
  }

  /** What `Filter` keeps: members of `s` that pass, and every one of them. */
  lemma {:induction false} FilterMembers<T>(s: seq<T>, p: T -> bool)
    ensures forall i :: 0 <= i < |Filter(s, p)| ==> Filter(s, p)[i] in s && p(Filter(s, p)[i])
    ensures forall i :: 0 <= i < |s| && p(s[i]) ==> s[i] in Filter(s, p)
  {
    if s != [] {
      FilterMembers(s[1..], p);
      var head := if p(s[0]) then [s[0]] else [];
      var r, rest := Filter(s, p), Filter(s[1..], p);
      assert r == head + rest;
      forall i | 0 <= i < |r| ensures r[i] in s && p(r[i]) {
        if i >= |head| {
          assert r[i] == rest[i - |head|];
          assert rest[i - |head|] in s[1..];
        }
      }
      forall i | 0 <= i < |s| && p(s[i]) ensures s[i] in r {
        if i > 0 {
          assert s[i] == s[1..][i - 1];
        }
      }
    }
  }

  /** Filtering distributes over concatenation: this pins `Filter` down as
      the order-preserving selection (together with `Filter([], p) == []`). */
  lemma {:induction false} FilterConcat<T>(a: seq<T>, b: seq<T>, p: T -> bool)
    ensures Filter(a + b, p) == Filter(a, p) + Filter(b, p)
  {
    if a == [] {
      assert a + b == b;
    } else {
      var head := if p(a[0]) then [a[0]] else [];
      assert (a + b)[0] == a[0];
      assert (a + b)[1..] == a[1..] + b;
      FilterConcat(a[1..], b, p);
      AppendAssoc(head, Filter(a[1..], p), Filter(b, p));
    }
  }

  /** Two predicates that agree on the elements of `s` filter it alike. */
  lemma {:induction false} FilterExt<T>(s: seq<T>, p: T -> bool, q: T -> bool)
    requires forall x :: x in s ==> p(x) == q(x)
    ensures Filter(s, p) == Filter(s, q)
  {
    if s != [] {
      FilterExt(s[1..], p, q);
    }
  }

  /** Filtering twice is filtering once by the conjunction. */
  lemma {:induction false} FilterFilter<T>(s: seq<T>, p: T -> bool, q: T -> bool, pq: T -> bool)
    requires forall x :: x in s ==> pq(x) == (p(x) && q(x))
    ensures Filter(Filter(s, p), q) == Filter(s, pq)
  {
    if s != [] {
      FilterFilter(s[1..], p, q, pq);
      var fs := Filter(s, p);
      if p(s[0]) {
        assert fs == [s[0]] + Filter(s[1..], p);
        assert fs != [] && fs[0] == s[0] && fs[1..] == Filter(s[1..], p);
        assert Filter(fs, q) == (if q(s[0]) then [s[0]] else []) + Filter(Filter(s[1..], p), q);
      } else {
        assert fs == Filter(s[1..], p);
      }
    }
  }

  /** An element-wise filter keeps everything when every element passes. */
  lemma {:induction false} FilterAll<T>(s: seq<T>, p: T -> bool)
    requires forall x :: x in s ==> p(x)
    ensures Filter(s, p) == s
  {
    if s != [] {
      FilterAll(s[1..], p);
    }
  }

  /** A predicate and its negation split a sequence into two parts that
      together hold every element exactly as often as `s` does. */
  lemma {:induction false} FilterPartition<T>(s: seq<T>, p: T -> bool, notP: T -> bool)
    requires forall i :: 0 <= i < |s| ==> notP(s[i]) == !p(s[i])
    ensures multiset(Filter(s, p)) + multiset(Filter(s, notP)) == multiset(s)
  {
    if s != [] {
      var head, rest := s[0], s[1..];
      assert forall i :: 0 <= i < |rest| ==> rest[i] == s[i + 1];
      FilterPartition(rest, p, notP);
      assert s == [head] + rest;
      var a, b := multiset(Filter(rest, p)), multiset(Filter(rest, notP));
      if p(head) {
        assert Filter(s, p) == [head] + Filter(rest, p);
        assert Filter(s, notP) == Filter(rest, notP);
        UnionRegroup(multiset{head}, a, b, multiset(rest));
      } else {
        assert Filter(s, p) == Filter(rest, p);
        assert Filter(s, notP) == [head] + Filter(rest, notP);
        UnionRegroup(multiset{head}, b, a, multiset(rest));
      }
    }
  }

  lemma AppendAssoc<T>(a: seq<T>, b: seq<T>, c: seq<T>)
    ensures (a + b) + c == a + (b + c)
  {
  }

  /** Filtering a single element keeps it exactly when it passes. */
  lemma FilterSingle<T>(x: T, p: T -> bool)
    ensures Filter([x], p) == if p(x) then [x] else []
  {
    assert [x][1..] == [];
  }

  /** A non-empty sequence counts as its head plus its tail. */
  lemma MultisetCons<T>(s: seq<T>)
    requires s != []
    ensures multiset(s) == multiset{s[0]} + multiset(s[1..])
  {
    assert s == [s[0]] + s[1..];
  }

  /** Replacing one part of a union by an equal one. */
  lemma UnionSubst<T>(whole: multiset<T>, part: multiset<T>, same: multiset<T>, rest: multiset<T>, result: multiset<T>)
    requires whole == part + rest && part == same && same + rest == result
    ensures whole == result
  {
  }

  /** Adding `h` to one part of a split adds it to the whole. */
  lemma UnionRegroup<T>(h: multiset<T>, a: multiset<T>, b: multiset<T>, whole: multiset<T>)
    requires a + b == whole
    ensures (h + a) + b == h + whole && b + (h + a) == h + whole
  {
  }

  /** Filtering by two predicates that never hold together gives, between
      the two results, exactly what filtering by either one gives. */
  lemma {:induction false} FilterUnion<T>(s: seq<T>, p: T -> bool, q: T -> bool, pq: T -> bool)
    requires forall x :: x in s ==> !(p(x) && q(x)) && pq(x) == (p(x) || q(x))
    ensures multiset(Filter(s, p)) + multiset(Filter(s, q)) == multiset(Filter(s, pq))
  {
    if s != [] {
      FilterUnion(s[1..], p, q, pq);
      var head := s[0];
      assert head in s;
      if p(head) {
        assert Filter(s, p) == [head] + Filter(s[1..], p);
        assert Filter(s, q) == Filter(s[1..], q);
        assert Filter(s, pq) == [head] + Filter(s[1..], pq);
      } else if q(head) {
        assert Filter(s, p) == Filter(s[1..], p);
        assert Filter(s, q) == [head] + Filter(s[1..], q);
        assert Filter(s, pq) == [head] + Filter(s[1..], pq);
      } else {
        assert Filter(s, p) == Filter(s[1..], p);
        assert Filter(s, q) == Filter(s[1..], q);
        assert Filter(s, pq) == Filter(s[1..], pq);
      }
    }
  }
}

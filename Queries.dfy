/**
  The LINQ operators the services apply to their tables (Where, FirstOrDefault,
  SingleOrDefault, Count, Any), as functions over sequences in table order.
 */
module Queries {
  import opened Wrappers

  /** Where: the elements satisfying p, in their original order. */
  function Filter<T>(s: seq<T>, p: T -> bool): (r: seq<T>)
    ensures |r| <= |s|
    ensures forall j :: 0 <= j < |r| ==> p(r[j])
    ensures |r| == 0 <==> forall j :: 0 <= j < |s| ==> !p(s[j])
  {
    if |s| == 0 then []
    else if p(s[0]) then [s[0]] + Filter(s[1..], p)
    else Filter(s[1..], p)
  }

  /**
    Where keeps exactly the elements satisfying p: everything it returns comes
    from s, and every element of s satisfying p is returned.
   */
  lemma {:induction false} FilterMembership<T>(s: seq<T>, p: T -> bool)
    ensures forall j :: 0 <= j < |Filter(s, p)| ==> Filter(s, p)[j] in s
    ensures forall j :: 0 <= j < |s| && p(s[j]) ==> s[j] in Filter(s, p)
  {
    if |s| > 0 {
      FilterMembership(s[1..], p);
      var rest := Filter(s[1..], p);
      if p(s[0]) {
        assert Filter(s, p) == [s[0]] + rest;
      }
      forall j | 0 <= j < |s| && p(s[j]) ensures s[j] in Filter(s, p) {
        if j > 0 {
          assert s[j] == s[1..][j - 1];
        }
      }
    }
  }

  /** FirstOrDefault with a predicate: the index of the first element satisfying p, if any. */
  function FirstIndex<T>(s: seq<T>, p: T -> bool): (r: Option<nat>)
    ensures r.Some? ==> r.value < |s| && p(s[r.value])
    ensures r.Some? ==> forall j :: 0 <= j < r.value ==> !p(s[j])
    ensures r.None? <==> forall j :: 0 <= j < |s| ==> !p(s[j])
  {
    if |s| == 0 then None
    else if p(s[0]) then Some(0)
    else match FirstIndex(s[1..], p)
      case None => None
      case Some(k) => Some(k + 1)
  }

  /** Count with a predicate: how many elements satisfy p. */
  function Count<T>(s: seq<T>, p: T -> bool): (n: nat)
    ensures n <= |s|
    ensures n == 0 <==> forall j :: 0 <= j < |s| ==> !p(s[j])
    ensures n == |s| <==> forall j :: 0 <= j < |s| ==> p(s[j])
  {
    if |s| == 0 then 0
    else (if p(s[0]) then 1 else 0) + Count(s[1..], p)
  }

  /** Counting over a concatenation adds the two counts. */
  lemma {:induction false} CountAppend<T>(a: seq<T>, b: seq<T>, p: T -> bool)
    ensures Count(a + b, p) == Count(a, p) + Count(b, p)
  {
    if |a| == 0 {
      assert a + b == b;
    } else {
      CountAppend(a[1..], b, p);
      assert (a + b)[1..] == a[1..] + b;
    }
  }

  /** Taking a's first element out of both sides of a permutation leaves a permutation. */
  lemma {:induction false} RemoveMatched<T>(a: seq<T>, b: seq<T>, k: nat)
    requires |a| > 0 && multiset(a) == multiset(b)
    requires k < |b| && b[k] == a[0]
    ensures multiset(a[1..]) == multiset(b[..k] + b[k + 1..])
  {
    assert a == [a[0]] + a[1..];
    assert b == (b[..k] + [b[k]]) + b[k + 1..];
    calc {
      multiset(a[1..]) + multiset{a[0]};
      multiset(a);
      multiset(b);
      multiset(b[..k] + [b[k]]) + multiset(b[k + 1..]);
      multiset(b[..k]) + multiset{b[k]} + multiset(b[k + 1..]);
      multiset(b[..k] + b[k + 1..]) + multiset{a[0]};
    }
    var left, right := multiset(a[1..]), multiset(b[..k] + b[k + 1..]);
    forall x ensures left[x] == right[x] {
      assert (left + multiset{a[0]})[x] == (right + multiset{a[0]})[x];
    }
    assert left == right;
  }

  /** Count does not depend on the order of the elements. */
  lemma {:induction false} CountPermutation<T>(a: seq<T>, b: seq<T>, p: T -> bool)
    requires multiset(a) == multiset(b)
    ensures Count(a, p) == Count(b, p)
    decreases |a|
  {
    if |a| == 0 {
      assert |b| == |multiset(b)| == 0;
    } else {
      assert a[0] in multiset(b);
      var k :| 0 <= k < |b| && b[k] == a[0];
      var rest := b[..k] + b[k + 1..];
      RemoveMatched(a, b, k);
      assert b == b[..k] + ([b[k]] + b[k + 1..]);
      CountPermutation(a[1..], rest, p);
      CountAppend(b[..k], [b[k]] + b[k + 1..], p);
      CountAppend(b[..k], b[k + 1..], p);
      assert ([b[k]] + b[k + 1..])[1..] == b[k + 1..];
    }
  }

  /** Two predicates that agree on every element of s count the same elements. */
  lemma {:induction false} CountAgrees<T>(s: seq<T>, p: T -> bool, q: T -> bool)
    requires forall j :: 0 <= j < |s| ==> p(s[j]) == q(s[j])
    ensures Count(s, p) == Count(s, q)
  {
    if |s| > 0 {
      CountAgrees(s[1..], p, q);
    }
  }

  /** The first match of q in Where(s, p) is the first element of s satisfying both p and q. */
  lemma {:induction false} FirstIndexAfterFilter<T>(s: seq<T>, p: T -> bool, q: T -> bool, pq: T -> bool)
    requires forall x :: pq(x) == (p(x) && q(x))
    ensures FirstIndex(Filter(s, p), q).Some? <==> FirstIndex(s, pq).Some?
    ensures FirstIndex(Filter(s, p), q).Some? ==>
      Filter(s, p)[FirstIndex(Filter(s, p), q).value] == s[FirstIndex(s, pq).value]
  {
    if |s| > 0 {
      var rest := Filter(s[1..], p);
      if pq(s[0]) {
        assert Filter(s, p) == [s[0]] + rest;
        assert FirstIndex(Filter(s, p), q) == Some(0);
      } else {
        FirstIndexAfterFilter(s[1..], p, q, pq);
        if p(s[0]) {
          assert Filter(s, p) == [s[0]] + rest;
          assert ([s[0]] + rest)[1..] == rest;
        } else {
          assert Filter(s, p) == rest;
        }
      }
    }
  }

  /** Any with a predicate. */
  function Any<T>(s: seq<T>, p: T -> bool): (b: bool)
    ensures b <==> exists j :: 0 <= j < |s| && p(s[j])
  {
    Count(s, p) > 0
  }

  /** The exception SingleOrDefault throws. */
  datatype QueryError = MoreThanOneMatch

  /**
    SingleOrDefault with a predicate: the index of the only element satisfying
    p, None when there is none, and an error when there are two or more.
   */
  function SingleIndex<T>(s: seq<T>, p: T -> bool): (r: Result<Option<nat>, QueryError>)
    ensures r.Failure? <==> Count(s, p) > 1
    ensures r == Success(None) <==> forall j :: 0 <= j < |s| ==> !p(s[j])
    ensures r.Success? && r.value.Some? ==>
      && r.value.value < |s| && p(s[r.value.value])
      && forall j :: 0 <= j < |s| && j != r.value.value ==> !p(s[j])
  {
    if Count(s, p) > 1 then Failure(MoreThanOneMatch)
    else
      var i := FirstIndex(s, p);
      if i.Some? then
        OnlyMatch(s, p, i.value);
        Success(i)
      else Success(None)
  }

  /** When at most one element satisfies p, a match is the only one. */
  lemma {:induction false} OnlyMatch<T>(s: seq<T>, p: T -> bool, i: nat)
    requires Count(s, p) <= 1
    requires i < |s| && p(s[i])
    ensures forall j :: 0 <= j < |s| && j != i ==> !p(s[j])
  {
    if i == 0 {
      assert Count(s[1..], p) == 0;
      forall j | 0 < j < |s| ensures !p(s[j]) {
        assert s[j] == s[1..][j - 1];
      }
    } else {
      OnlyMatch(s[1..], p, i - 1);
      assert s[i] == s[1..][i - 1];
      forall j | 0 < j < |s| && j != i ensures !p(s[j]) {
        assert s[j] == s[1..][j - 1];
      }
    }
  }

  /** No two elements satisfying p means at most one counted. */
  lemma {:induction false} CountAtMostOne<T>(s: seq<T>, p: T -> bool)
    requires forall i, j :: 0 <= i < j < |s| && p(s[i]) ==> !p(s[j])
    ensures Count(s, p) <= 1
  {
    if |s| > 0 {
      var rest := s[1..];
      forall i, j | 0 <= i < j < |rest| && p(rest[i]) ensures !p(rest[j]) {
        assert rest[i] == s[i + 1] && rest[j] == s[j + 1];
      }
      CountAtMostOne(rest, p);
      if p(s[0]) {
        forall j | 0 <= j < |rest| ensures !p(rest[j]) {
          assert rest[j] == s[j + 1];
        }
      }
    }
  }
}

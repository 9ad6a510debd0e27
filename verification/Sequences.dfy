// Array.prototype.filter, and what is used of it.
module Sequences {
  function Filter<T>(s: seq<T>, p: T -> bool): seq<T> {
    if s == [] then []
    else Filter(s[..|s| - 1], p) + if p(s[|s| - 1]) then [s[|s| - 1]] else []
  }

  lemma {:induction false} FilterIsExact<T>(s: seq<T>, p: T -> bool)
    ensures forall x | x in Filter(s, p) :: x in s && p(x)
    ensures forall x | x in s && p(x) :: x in Filter(s, p)
    ensures (forall x | x in s :: !p(x)) <==> Filter(s, p) == []
  {
    if s != [] {
      FilterIsExact(s[..|s| - 1], p);
      assert s == s[..|s| - 1] + [s[|s| - 1]];
    }
  }

  lemma {:induction false} FilterTwice<T>(s: seq<T>, p: T -> bool, q: T -> bool, both: T -> bool)
    requires forall x | x in s :: both(x) <==> p(x) && q(x)
    ensures Filter(Filter(s, p), q) == Filter(s, both)
  {
    if s != [] {
      var init, last := s[..|s| - 1], s[|s| - 1];
      assert last in s && forall x | x in init :: x in s;
      FilterTwice(init, p, q, both);
      if p(last) {
        assert (Filter(init, p) + [last])[..|Filter(init, p)|] == Filter(init, p);
      } else {
        assert Filter(init, p) + [] == Filter(init, p);
      }
    }
  }

  lemma {:induction false} FilterAppend<T>(a: seq<T>, b: seq<T>, p: T -> bool)
    ensures Filter(a + b, p) == Filter(a, p) + Filter(b, p)
  {
    if b == [] {
      assert a + b == a;
    } else {
      assert (a + b)[..|a + b| - 1] == a + b[..|b| - 1];
      FilterAppend(a, b[..|b| - 1], p);
    }
  }

  lemma {:induction false} FilterAll<T>(s: seq<T>, p: T -> bool)
    ensures (forall x | x in s :: p(x)) ==> Filter(s, p) == s
    ensures (forall x | x in s :: !p(x)) ==> Filter(s, p) == []
  {
    if s != [] {
      assert s[|s| - 1] in s && s == s[..|s| - 1] + [s[|s| - 1]];
      FilterAll(s[..|s| - 1], p);
    }
  }

  lemma {:induction false} FilterSame<T>(s: seq<T>, p: T -> bool, q: T -> bool)
    requires forall x | x in s :: p(x) <==> q(x)
    ensures Filter(s, p) == Filter(s, q)
  {
    if s != [] {
      assert s[|s| - 1] in s && forall x | x in s[..|s| - 1] :: x in s;
      FilterSame(s[..|s| - 1], p, q);
    }
  }

  ghost predicate Distinct<T>(s: seq<T>) {
    forall i, j | 0 <= i < j < |s| :: s[i] != s[j]
  }

  lemma DistinctOneMore<T>(s: seq<T>, x: T)
    requires Distinct(s) && x !in s
    ensures Distinct(s + [x])
  {
  }

  // A filter that only one element of a duplicate-free sequence passes.
  lemma {:induction false} FilterOne<T>(s: seq<T>, p: T -> bool, one: T)
    requires Distinct(s) && one in s && forall x | x in s :: p(x) <==> x == one
    ensures Filter(s, p) == [one]
  {
    var init, last := s[..|s| - 1], s[|s| - 1];
    assert last in s && s == init + [last] && forall x | x in init :: x in s;
    if last == one {
      FilterAll(init, p);
    } else {
      FilterOne(init, p, one);
    }
  }

  // One sequence is the other with elements left out.
  ghost predicate IsSubsequence<T>(t: seq<T>, s: seq<T>)
    decreases |s|
  {
    if s == [] then t == []
    else
      || IsSubsequence(t, s[..|s| - 1])
      || (t != [] && t[|t| - 1] == s[|s| - 1] && IsSubsequence(t[..|t| - 1], s[..|s| - 1]))
  }

  lemma {:induction false} FilterLeavesOut<T>(s: seq<T>, p: T -> bool)
    ensures IsSubsequence(Filter(s, p), s)
  {
    if s != [] {
      FilterLeavesOut(s[..|s| - 1], p);
      var t := Filter(s[..|s| - 1], p);
      if p(s[|s| - 1]) {
        assert Filter(s, p) == t + [s[|s| - 1]] && (t + [s[|s| - 1]])[..|t|] == t;
      } else {
        assert Filter(s, p) == t;
      }
    }
  }
}

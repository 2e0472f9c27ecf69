/** Sequence helpers shared by the model: order-preserving selection, mapping,
    distinctness. `Filter` peels the last element, so a loop that appends the
    elements it keeps maintains `out == Filter(s[..i], keep)`. */
module Seqs {

  function Filter<T>(s: seq<T>, keep: T -> bool): seq<T> {
    if s == [] then []
    else
      var rest := Filter(s[..|s| - 1], keep);
      if keep(s[|s| - 1]) then rest + [s[|s| - 1]] else rest
  }

  function Map<S, T>(s: seq<S>, f: S -> T): (t: seq<T>)
    ensures |t| == |s| && forall i | 0 <= i < |s| :: t[i] == f(s[i])
  {
    seq(|s|, i requires 0 <= i < |s| => f(s[i]))
  }

  ghost predicate Distinct<T>(s: seq<T>) {
    forall i, j | 0 <= i < j < |s| :: s[i] != s[j]
  }

  lemma DistinctEmpty<T>()
    ensures Distinct<T>([])
  {
  }

  lemma DistinctAppend<T>(s: seq<T>, x: T)
    requires Distinct(s) && x !in s
    ensures Distinct(s + [x])
  {
    assert forall i | 0 <= i < |s| :: s[i] in s;
  }

  ghost function Elems<T>(s: seq<T>): set<T> {
    set x | x in s
  }

  lemma {:induction false} FilterStep<T>(s: seq<T>, i: nat, keep: T -> bool)
    requires i < |s|
    ensures Filter(s[..i + 1], keep) == Filter(s[..i], keep) + if keep(s[i]) then [s[i]] else []
  {
    assert s[..i + 1][..i] == s[..i];
  }

  lemma {:induction false} FilterAll<T>(s: seq<T>, keep: T -> bool)
    ensures Filter(s[..|s|], keep) == Filter(s, keep)
  {
    assert s[..|s|] == s;
  }

  lemma {:induction false} FilterMembers<T>(s: seq<T>, keep: T -> bool)
    ensures forall x :: x in Filter(s, keep) <==> x in s && keep(x)
  {
    if s != [] {
      var init := s[..|s| - 1];
      FilterMembers(init, keep);
      assert s == init + [s[|s| - 1]];
    }
  }

  lemma {:induction false} FilterAppend<T>(a: seq<T>, b: seq<T>, keep: T -> bool)
    ensures Filter(a + b, keep) == Filter(a, keep) + Filter(b, keep)
  {
    if b == [] {
      assert a + b == a;
    } else {
      assert (a + b)[..|a + b| - 1] == a + b[..|b| - 1];
      FilterAppend(a, b[..|b| - 1], keep);
    }
  }

  lemma {:induction false} FilterDistinct<T>(s: seq<T>, keep: T -> bool)
    requires Distinct(s)
    ensures Distinct(Filter(s, keep))
  {
    if s != [] {
      FilterDistinct(s[..|s| - 1], keep);
      FilterMembers(s[..|s| - 1], keep);
    }
  }

  /** Keeping everything is the identity; keeping nothing leaves nothing. */
  lemma {:induction false} FilterTrivial<T>(s: seq<T>, keep: T -> bool)
    ensures (forall x | x in s :: keep(x)) ==> Filter(s, keep) == s
    ensures (forall x | x in s :: !keep(x)) ==> Filter(s, keep) == []
  {
    if s != [] {
      var init := s[..|s| - 1];
      FilterTrivial(init, keep);
      assert s == init + [s[|s| - 1]];
    }
  }

  /** Two tests that agree on the elements of s select the same subsequence. */
  lemma {:induction false} FilterAgree<T>(s: seq<T>, f: T -> bool, g: T -> bool)
    requires forall x | x in s :: f(x) == g(x)
    ensures Filter(s, f) == Filter(s, g)
  {
    if s != [] {
      FilterAgree(s[..|s| - 1], f, g);
    }
  }
}

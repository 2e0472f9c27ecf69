/** The byte-wise order of strings and sorting by a string key: what
    slices.Sort, slices.Compact and sort.Slice do in the controller. */
module Order {
  import opened Seqs

  predicate Less(a: string, b: string) {
    b != "" && (a == "" || a[0] < b[0] || (a[0] == b[0] && Less(a[1..], b[1..])))
  }

  lemma {:induction false} Trichotomy(a: string, b: string)
    ensures Less(a, b) || a == b || Less(b, a)
    ensures !(Less(a, b) && Less(b, a)) && !Less(a, a)
  {
    if a != "" {
      Trichotomy(a[1..], a[1..]);
    }
    if a != "" && b != "" {
      Trichotomy(a[1..], b[1..]);
      assert a == [a[0]] + a[1..] && b == [b[0]] + b[1..];
    }
  }

  lemma {:induction false} Transitive(a: string, b: string, c: string)
    requires Less(a, b) && Less(b, c)
    ensures Less(a, c)
  {
    if a != "" && a[0] == b[0] == c[0] {
      Transitive(a[1..], b[1..], c[1..]);
    }
  }

  /** Keys strictly ascend: sorted and without a repeated key. */
  ghost predicate Ascending<T>(s: seq<T>, key: T -> string) {
    forall i, j | 0 <= i < j < |s| :: Less(key(s[i]), key(s[j]))
  }

  ghost predicate DistinctKeys<T>(s: seq<T>, key: T -> string) {
    forall i, j | 0 <= i < j < |s| :: key(s[i]) != key(s[j])
  }

  function Insert<T>(s: seq<T>, x: T, key: T -> string): seq<T> {
    if s == [] || !Less(key(x), key(s[|s| - 1])) then s + [x]
    else Insert(s[..|s| - 1], x, key) + [s[|s| - 1]]
  }

  function SortBy<T>(s: seq<T>, key: T -> string): seq<T> {
    if s == [] then [] else Insert(SortBy(s[..|s| - 1], key), s[|s| - 1], key)
  }

  lemma {:induction false} InsertMembers<T>(s: seq<T>, x: T, key: T -> string)
    ensures multiset(Insert(s, x, key)) == multiset(s) + multiset{x}
  {
    if s != [] {
      var init := s[..|s| - 1];
      InsertMembers(init, x, key);
      assert s == init + [s[|s| - 1]];
    }
  }

  lemma {:induction false} SortMembers<T>(s: seq<T>, key: T -> string)
    ensures multiset(SortBy(s, key)) == multiset(s)
    ensures |SortBy(s, key)| == |s|
    ensures forall x :: x in SortBy(s, key) <==> x in s
  {
    if s != [] {
      var init := s[..|s| - 1];
      SortMembers(init, key);
      InsertMembers(SortBy(init, key), s[|s| - 1], key);
      assert s == init + [s[|s| - 1]];
    }
    assert |SortBy(s, key)| == |multiset(SortBy(s, key))|;
    forall x
      ensures x in SortBy(s, key) <==> x in s
    {
      assert x in SortBy(s, key) <==> x in multiset(SortBy(s, key));
    }
  }

  lemma {:induction false} InsertAscending<T>(s: seq<T>, x: T, key: T -> string)
    requires Ascending(s, key) && forall y | y in s :: key(y) != key(x)
    ensures Ascending(Insert(s, x, key), key)
  {
    if s != [] {
      var init, last := s[..|s| - 1], s[|s| - 1];
      assert s == init + [last];
      if Less(key(x), key(last)) {
        InsertAscending(init, x, key);
        InsertMembers(init, x, key);
        var r := Insert(init, x, key);
        forall i | 0 <= i < |r|
          ensures Less(key(r[i]), key(last))
        {
          assert r[i] in multiset(r);
          assert r[i] in init || r[i] == x;
        }
      } else {
        Trichotomy(key(x), key(last));
        assert last in s;
        forall i | 0 <= i < |s|
          ensures Less(key(s[i]), key(x))
        {
          if i < |s| - 1 {
            Transitive(key(s[i]), key(last), key(x));
          }
        }
      }
    }
  }

  lemma {:induction false} SortAscending<T>(s: seq<T>, key: T -> string)
    requires DistinctKeys(s, key)
    ensures Ascending(SortBy(s, key), key)
  {
    if s != [] {
      var init := s[..|s| - 1];
      SortAscending(init, key);
      SortMembers(init, key);
      forall y | y in SortBy(init, key)
        ensures key(y) != key(s[|s| - 1])
      {
        assert y in multiset(SortBy(init, key)) && y in multiset(init);
        var k :| 0 <= k < |init| && init[k] == y;
        assert s[k] == y;
      }
      InsertAscending(SortBy(init, key), s[|s| - 1], key);
    }
  }

  /** An ascending sequence is fixed by its elements alone. */
  lemma {:induction false} AscendingUnique<T>(a: seq<T>, b: seq<T>, key: T -> string)
    requires Ascending(a, key) && Ascending(b, key)
    requires forall x :: x in a <==> x in b
    ensures a == b
  {
    assert (a == [] || a[0] in a) && (b == [] || b[0] in b);
    if a != [] {
      var i :| 0 <= i < |b| && b[i] == a[0];
      var j :| 0 <= j < |a| && a[j] == b[0];
      Trichotomy(key(a[0]), key(b[0]));
      assert a[0] == b[0];
      forall x
        ensures x in a[1..] <==> x in b[1..]
      {
        Trichotomy(key(a[0]), key(a[0]));
        if x in a[1..] {
          var k :| 0 <= k < |a[1..]| && a[1..][k] == x;
          assert a[k + 1] == x && Less(key(a[0]), key(a[k + 1]));
          assert x in b && x != b[0];
        }
        if x in b[1..] {
          var k :| 0 <= k < |b[1..]| && b[1..][k] == x;
          assert b[k + 1] == x && Less(key(b[0]), key(b[k + 1]));
          assert x in a && x != a[0];
        }
      }
      AscendingUnique(a[1..], b[1..], key);
      assert a == [a[0]] + a[1..] && b == [b[0]] + b[1..];
    }
  }

  // ---- with repeated keys -------------------------------------------------

  ghost predicate IsSortedBy<T>(s: seq<T>, key: T -> string) {
    forall i, j | 0 <= i < j < |s| :: !Less(key(s[j]), key(s[i]))
  }

  lemma NotAboveTransitive(a: string, b: string, c: string)
    requires !Less(b, a) && !Less(c, b)
    ensures !Less(c, a)
  {
    Trichotomy(a, b);
    Trichotomy(b, c);
    Trichotomy(a, c);
    if Less(c, a) {
      if a != b { Transitive(c, a, b); }
    }
  }

  lemma {:induction false} InsertSorted<T>(s: seq<T>, x: T, key: T -> string)
    requires IsSortedBy(s, key)
    ensures IsSortedBy(Insert(s, x, key), key)
  {
    if s != [] {
      var init, last := s[..|s| - 1], s[|s| - 1];
      assert s == init + [last];
      Trichotomy(key(x), key(last));
      if Less(key(x), key(last)) {
        InsertSorted(init, x, key);
        InsertMembers(init, x, key);
        var r := Insert(init, x, key);
        forall i | 0 <= i < |r|
          ensures !Less(key(last), key(r[i]))
        {
          assert r[i] in multiset(r);
          assert r[i] in init || r[i] == x;
        }
      } else {
        forall i | 0 <= i < |s|
          ensures !Less(key(x), key(s[i]))
        {
          if i < |s| - 1 { NotAboveTransitive(key(s[i]), key(last), key(x)); }
        }
      }
    }
  }

  lemma {:induction false} SortSorts<T>(s: seq<T>, key: T -> string)
    ensures IsSortedBy(SortBy(s, key), key)
  {
    if s != [] {
      SortSorts(s[..|s| - 1], key);
      InsertSorted(SortBy(s[..|s| - 1], key), s[|s| - 1], key);
    }
  }

  // ---- strings ------------------------------------------------------------

  function Itself(): string -> string {
    (s: string) => s
  }

  /** slices.Sort of strings. */
  function Sorted(s: seq<string>): seq<string> {
    SortBy(s, Itself())
  }

  ghost predicate IsSorted(s: seq<string>) {
    forall i, j | 0 <= i < j < |s| :: !Less(s[j], s[i])
  }

  lemma SortedIsSorted(s: seq<string>)
    ensures IsSorted(Sorted(s))
    ensures |Sorted(s)| == |s| && forall x :: x in Sorted(s) <==> x in s
  {
    SortMembers(s, Itself());
    SortSorts(s, Itself());
    var r := Sorted(s);
    assert forall i | 0 <= i < |r| :: Itself()(r[i]) == r[i];
  }

  /** slices.Compact: one of every run of equal neighbours. */
  function Compact(s: seq<string>): seq<string> {
    if |s| <= 1 then s
    else
      var rest := Compact(s[..|s| - 1]);
      if s[|s| - 1] == s[|s| - 2] then rest else rest + [s[|s| - 1]]
  }

  lemma {:induction false} CompactAscending(s: seq<string>)
    requires IsSorted(s)
    ensures Ascending(Compact(s), Itself())
    ensures forall x :: x in Compact(s) <==> x in s
  {
    if |s| > 1 {
      var init, last := s[..|s| - 1], s[|s| - 1];
      assert s == init + [last];
      CompactAscending(init);
      var r := Compact(init);
      assert init[|s| - 2] in init;
      if last != init[|s| - 2] {
        forall i | 0 <= i < |r|
          ensures Less(r[i], last)
        {
          assert r[i] in r;
          var k :| 0 <= k < |init| && init[k] == r[i];
          Trichotomy(r[i], last);
          Trichotomy(s[|s| - 2], last);
        }
      }
    }
  }
}

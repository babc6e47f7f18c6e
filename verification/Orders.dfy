/** Insertion orders of dictionaries: sequences without repetition. */
module Orders {
  ghost predicate Distinct<T>(s: seq<T>) {
    forall a, b :: 0 <= a < b < |s| ==> s[a] != s[b]
  }

  ghost predicate Elements<T(!new)>(order: seq<T>, items: set<T>) {
    forall x :: x in order <==> x in items
  }

  function Without<T(==)>(s: seq<T>, x: T): seq<T> {
    if s == [] then []
    else (if s[0] == x then [] else [s[0]]) + Without(s[1..], x)
  }

  lemma {:induction false} WithoutElements<T>(s: seq<T>, x: T)
    ensures forall y :: y in Without(s, x) <==> y in s && y != x
  {
    if s != [] { WithoutElements(s[1..], x); }
  }

  lemma {:induction false} WithoutDistinct<T>(s: seq<T>, x: T)
    requires Distinct(s)
    ensures Distinct(Without(s, x))
  {
    if s != [] {
      WithoutDistinct(s[1..], x);
      WithoutElements(s[1..], x);
      var rest := Without(s[1..], x);
      assert s[0] !in s[1..];
      assert s[0] !in rest;
      forall b | 0 <= b < |rest| ensures rest[b] != s[0] { assert rest[b] in rest; }
    }
  }

  lemma {:induction false} WithoutAbsent<T>(s: seq<T>, x: T)
    requires x !in s
    ensures Without(s, x) == s
  {
    if s != [] {
      assert s[0] in s;
      WithoutAbsent(s[1..], x);
      assert s == [s[0]] + s[1..];
    }
  }

  lemma {:induction false} WithoutLast<T>(s: seq<T>, x: T)
    requires x !in s
    ensures Without(s + [x], x) == s
  {
    if s == [] {
      assert [x][1..] == [];
    } else {
      assert s[0] in s && (s + [x])[1..] == s[1..] + [x];
      WithoutLast(s[1..], x);
      assert s == [s[0]] + s[1..];
    }
  }
}

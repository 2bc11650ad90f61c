/** Lists without repetition. */
module Lists {

  ghost predicate Distinct<T>(s: seq<T>) {
    forall i, j :: 0 <= i < j < |s| ==> s[i] != s[j]
  }

  /** A list without one of its elements. */
  function Without(s: seq<nat>, x: nat): seq<nat> {
    if s == [] then [] else if s[0] == x then s[1..] else [s[0]] + Without(s[1..], x)
  }

  lemma {:induction false} WithoutIs(s: seq<nat>, x: nat)
    requires Distinct(s) && x in s
    ensures Distinct(Without(s, x)) && |Without(s, x)| == |s| - 1
    ensures forall y :: y in Without(s, x) <==> y in s && y != x
  {
    if s[0] != x {
      PoppedFirst(s);
      WithoutIs(s[1..], x);
      PutFirst(Without(s[1..], x), s[0]);
    } else {
      PoppedFirst(s);
    }
  }

  lemma PutFirst(s: seq<nat>, x: nat)
    requires Distinct(s) && x !in s
    ensures Distinct([x] + s) && forall y :: y in [x] + s <==> y in s || y == x
  {
  }

  lemma PoppedFirst(s: seq<nat>)
    requires Distinct(s) && s != []
    ensures Distinct(s[1..]) && s[0] !in s[1..] && forall y :: y in s <==> y in s[1..] || y == s[0]
  {
  }

  lemma PutLast(s: seq<nat>, x: nat)
    requires Distinct(s) && x !in s
    ensures Distinct(s + [x]) && forall y :: y in s + [x] <==> y in s || y == x
  {
  }

  lemma PutAt(s: seq<nat>, k: nat, x: nat)
    requires Distinct(s) && k < |s| && x !in s
    ensures Distinct(s[k := x]) && forall y :: y in s[k := x] <==> (y in s && y != s[k]) || y == x
  {
    forall y
      ensures y in s[k := x] <==> (y in s && y != s[k]) || y == x
    {
      if y in s && y != s[k] {
        var i :| 0 <= i < |s| && s[i] == y;
        assert s[k := x][i] == y;
      }
      assert s[k := x][k] == x;
    }
  }

  lemma {:induction false} Pigeonhole(s: seq<nat>, m: nat)
    requires Distinct(s) && forall x :: x in s ==> x < m
    ensures |s| <= m
    decreases m
  {
    assert s == [] || s[0] in s;
    if m == 0 {
    } else if m - 1 in s {
      WithoutIs(s, m - 1);
      Pigeonhole(Without(s, m - 1), m - 1);
    } else {
      Pigeonhole(s, m - 1);
    }
  }
}

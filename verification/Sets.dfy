/** Facts about finite sets. */
module Sets {

  lemma AnyElement<T>(s: set<T>) returns (a: T)
    requires |s| > 0
    ensures a in s
  {
    a :| a in s;
  }

  /** The sum of a weight over a finite set. */
  ghost function Sum<T(!new)>(s: set<T>, weight: T -> nat): nat {
    if s == {} then 0
    else
      var x :| x in s;
      weight(x) + Sum(s - {x}, weight)
  }

  /** The sum does not depend on the element that is taken out first. */
  lemma {:induction false} SumOut<T(!new)>(s: set<T>, weight: T -> nat, x: T)
    requires x in s
    ensures Sum(s, weight) == weight(x) + Sum(s - {x}, weight)
  {
    var y :| y in s && Sum(s, weight) == weight(y) + Sum(s - {y}, weight);
    if y != x {
      SumOut(s - {y}, weight, x);
      SumOut(s - {x}, weight, y);
      assert s - {y} - {x} == s - {x} - {y};
    }
  }

  lemma SumIn<T(!new)>(s: set<T>, weight: T -> nat, x: T)
    requires x !in s
    ensures Sum(s + {x}, weight) == weight(x) + Sum(s, weight)
  {
    SumOut(s + {x}, weight, x);
    assert s + {x} - {x} == s;
  }

  lemma {:induction false} SumSubset<T(!new)>(s: set<T>, t: set<T>, weight: T -> nat)
    requires s <= t
    ensures Sum(s, weight) <= Sum(t, weight) && |s| <= |t|
    decreases |s|
  {
    if s != {} {
      var x :| x in s;
      SumOut(s, weight, x);
      SumOut(t, weight, x);
      assert s - {x} <= t - {x};
      SumSubset(s - {x}, t - {x}, weight);
    }
  }

  lemma {:induction false} SumSame<T(!new)>(s: set<T>, w: T -> nat, v: T -> nat)
    requires forall x | x in s :: w(x) == v(x)
    ensures Sum(s, w) == Sum(s, v)
  {
    if s != {} {
      var x :| x in s;
      SumOut(s, w, x);
      SumOut(s, v, x);
      SumSame(s - {x}, w, v);
    }
  }

  predicate IsLeast(s: set<nat>, i: nat) {
    i in s && forall j | j in s :: i <= j
  }

  lemma {:induction false} HasLeast(s: set<nat>)
    requires s != {}
    ensures exists i :: IsLeast(s, i)
  {
    var i :| i in s;
    var rest := s - {i};
    assert forall j | j in s :: j == i || j in rest;
    if rest == {} {
      assert IsLeast(s, i);
    } else {
      HasLeast(rest);
      var k :| IsLeast(rest, k);
      assert IsLeast(s, if k < i then k else i);
    }
  }

  function Least(s: set<nat>): (i: nat)
    requires s != {}
    ensures IsLeast(s, i)
  {
    HasLeast(s);
    var i :| i in s && IsLeast(s, i);
    i
  }
}

/** Sequences without repetition, and how many elements finite sets have. */
module Collections {

  ghost predicate NoDup<T>(s: seq<T>) {
    forall i, j :: 0 <= i < j < |s| ==> s[i] != s[j]
  }

  function Interval(low: nat, high: nat): (r: set<nat>)
    requires low <= high
    ensures |r| == high - low && forall p :: p in r <==> low <= p < high
    decreases high
  {
    if low == high then {} else Interval(low, high - 1) + {high - 1}
  }

  lemma CardTwo<T>(a: set<T>, b: set<T>)
    ensures |a + b| <= |a| + |b|
  {
    assert a + b == a + (b - a);
    assert |b - a| <= |b| by {
      SubsetCard(b - a, b);
    }
  }

  lemma {:induction false} SubsetCard<T>(a: set<T>, b: set<T>)
    requires a <= b
    ensures |a| <= |b|
  {
    if a != {} {
      var x :| x in a;
      SubsetCard(a - {x}, b - {x});
    }
  }

  lemma CardFour<T>(a: set<T>, b: set<T>, c: set<T>, d: set<T>)
    ensures |a + b + c + d| <= |a| + |b| + |c| + |d|
  {
    CardTwo(a, b);
    CardTwo(a + b, c);
    CardTwo(a + b + c, d);
  }
}

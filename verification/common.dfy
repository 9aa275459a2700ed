/** Small shared definitions: optional values and counting by injection. */
module Common {

  datatype Option<+T> = None | Some(value: T)

  /** A one-to-one map from `a` into `b` shows that `a` is no larger than `b`. */
  lemma {:induction false} InjectionBoundsSize<A, B>(a: set<A>, b: set<B>, f: map<A, B>)
    requires f.Keys == a
    requires forall x :: x in a ==> f[x] in b
    requires forall x, y :: x in a && y in a && x != y ==> f[x] != f[y]
    ensures |a| <= |b|
    decreases a
  {
    if a != {} {
      var x :| x in a;
      InjectionBoundsSize(a - {x}, b - {f[x]}, f - {x});
    }
  }

  lemma SubsetIsSmaller<T>(a: set<T>, b: set<T>)
    requires a < b
    ensures |a| < |b|
  {
    assert b - a != {};
    var x :| x in b - a;
    assert a <= b - {x};
    InjectionBoundsSize(a, b - {x}, map i | i in a :: i);
  }

  lemma SingletonIff<T>(s: set<T>, x: T)
    requires x in s
    ensures |s| == 1 <==> s == {x}
  {
    assert s == (s - {x}) + {x} && |s| == |s - {x}| + 1;
  }

  /** Of `chosen`, one more is done when one fewer is left. */
  lemma OneFewerLeft<T>(chosen: set<T>, rest: set<T>, x: T)
    requires x in rest && rest <= chosen
    ensures x !in chosen - rest && chosen - (rest - {x}) == chosen - rest + {x}
  {
  }
}

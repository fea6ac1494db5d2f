// Sizes of finite sets.
module FiniteSets {

  // A subset has no more elements.
  lemma {:induction false} SubsetSize<T>(small: set<T>, big: set<T>)
    requires small <= big
    ensures |small| <= |big|
  {
    if x :| x in small {
      SubsetSize(small - {x}, big - {x});
    }
  }

  // An injective image has as many elements as its source.
  lemma {:induction false} ImageSize<T, U>(s: set<T>, f: T -> U, image: set<U>)
    requires image == set x | x in s :: f(x)
    requires forall x, y | x in s && y in s && x != y :: f(x) != f(y)
    ensures |image| == |s|
  {
    if x :| x in s {
      var rest := image - {f(x)};
      assert rest == set y | y in s - {x} :: f(y) by {
        forall u ensures u in rest <==> exists y :: y in s - {x} && f(y) == u {
          if u in rest {
            var y :| y in s && f(y) == u;
            assert y in s - {x};
          }
        }
      }
      ImageSize(s - {x}, f, rest);
    }
  }

  // The numbers from 0 up to n.
  function Below(n: nat): (r: set<int>)
    ensures forall i :: i in r <==> 0 <= i < n
    ensures |r| == n
  {
    if n == 0 then {} else Below(n - 1) + {n - 1}
  }
}

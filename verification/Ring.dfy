// A ring of slots with an input and an output index, as used by the bounded
// buffers and the report queue, against the two logs it stands for: everything
// ever put in and everything ever taken out.
module Ring {
  import opened Modulo

  // The ring holds exactly what has been put in and not yet taken out, in order.
  ghost predicate Represents<T>(items: seq<T>, inIndex: nat, outIndex: nat, put: seq<T>, taken: seq<T>) {
    && 0 < |items|
    && taken <= put
    && |put| <= |taken| + |items|
    && inIndex == |put| % |items|
    && outIndex == |taken| % |items|
    && forall j :: |taken| <= j < |put| ==> items[j % |items|] == put[j]
  }

  // Storing into a ring with room overwrites nothing that is still to be taken.
  lemma PutKeeps<T>(items: seq<T>, inIndex: nat, outIndex: nat, put: seq<T>, taken: seq<T>, x: T)
    requires Represents(items, inIndex, outIndex, put, taken)
    requires |put| < |taken| + |items|
    ensures Represents(items[inIndex := x], (inIndex + 1) % |items|, outIndex, put + [x], taken)
    ensures Represents(items[inIndex := x], inIndex, outIndex, put, taken)
  {
    var n, items' := |items|, items[inIndex := x];
    ModSuccessor(|put|, n);
    forall j | |taken| <= j < |put| ensures items'[j % n] == put[j] {
      ModDistinct(j, |put|, n);
    }
  }

  // Taking from a ring that is not empty yields the oldest element.
  lemma TakeKeeps<T>(items: seq<T>, inIndex: nat, outIndex: nat, put: seq<T>, taken: seq<T>)
    requires Represents(items, inIndex, outIndex, put, taken)
    requires |taken| < |put|
    ensures items[outIndex] == put[|taken|]
    ensures Represents(items, inIndex, (outIndex + 1) % |items|, put, taken + [items[outIndex]])
  {
    ModSuccessor(|taken|, |items|);
    assert items[|taken| % |items|] == put[|taken|];
  }

  // 0, 1, ..., n - 1: what a producer has put in after n items, in order.
  function Upto(n: nat): (r: seq<nat>)
    ensures |r| == n && forall i :: 0 <= i < n ==> r[i] == i
  {
    if n == 0 then [] else Upto(n - 1) + [n - 1]
  }
}

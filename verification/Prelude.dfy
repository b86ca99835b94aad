/** Small shared vocabulary: optional values, bytes, and order-preserving selection. */
module Prelude {
  datatype Option<+T> = None | Some(value: T)

  /** One octet, as stored in a Go []byte or a JavaScript Uint8Array. */
  newtype byte = x: int | 0 <= x < 256

  ghost predicate NoDuplicates<T>(xs: seq<T>) {
    forall i, j :: 0 <= i < j < |xs| ==> xs[i] != xs[j]
  }

  function SetOf<T>(xs: seq<T>): set<T> {
    set x | x in xs
  }

  /** The elements of `xs` that lie in `want`, in their original order. */
  function Pick<T(==)>(xs: seq<T>, want: set<T>): seq<T> {
    if xs == [] then []
    else
      var init := Pick(xs[..|xs| - 1], want);
      if xs[|xs| - 1] in want then init + [xs[|xs| - 1]] else init
  }

  lemma PickSnoc<T>(xs: seq<T>, x: T, want: set<T>)
    ensures Pick(xs + [x], want) == Pick(xs, want) + if x in want then [x] else []
  {
    assert (xs + [x])[..|xs|] == xs;
  }

  lemma {:induction false} PickMembers<T>(xs: seq<T>, want: set<T>)
    ensures SetOf(Pick(xs, want)) == SetOf(xs) * want
    ensures NoDuplicates(xs) ==> NoDuplicates(Pick(xs, want))
  {
    if xs != [] {
      var init, last := xs[..|xs| - 1], xs[|xs| - 1];
      PickMembers(init, want);
      assert SetOf(xs) == SetOf(init) + {last};
      var p := Pick(init, want);
      if last in want {
        assert SetOf(p + [last]) == SetOf(p) + {last};
        if NoDuplicates(xs) {
          assert last !in SetOf(init);
          forall i | 0 <= i < |p| ensures p[i] != last {
            assert p[i] in SetOf(p);
          }
        }
      }
    }
  }

  /** What is selected comes in its original order. */
  lemma {:induction false} PickInOrder<T>(xs: seq<T>, want: set<T>, i: nat, j: nat) returns (p: nat, q: nat)
    requires i < j < |Pick(xs, want)|
    ensures p < q < |xs| && xs[p] == Pick(xs, want)[i] && xs[q] == Pick(xs, want)[j]
  {
    var n := |xs| - 1;
    var init := Pick(xs[..n], want);
    if j < |init| {
      p, q := PickInOrder(xs[..n], want, i, j);
    } else {
      q := n;
      p := PickedFrom(xs[..n], want, i);
    }
  }

  lemma {:induction false} PickedFrom<T>(xs: seq<T>, want: set<T>, i: nat) returns (p: nat)
    requires i < |Pick(xs, want)|
    ensures p < |xs| && xs[p] == Pick(xs, want)[i]
  {
    var n := |xs| - 1;
    if i < |Pick(xs[..n], want)| {
      p := PickedFrom(xs[..n], want, i);
    } else {
      p := n;
    }
  }

  /** Selecting everything but a set, twice, is selecting everything but the union. */
  lemma {:induction false} PickPick<T>(xs: seq<T>, a: set<T>, b: set<T>)
    ensures Pick(Pick(xs, a), b) == Pick(xs, a * b)
  {
    if xs != [] {
      var init, last := xs[..|xs| - 1], xs[|xs| - 1];
      PickPick(init, a, b);
      if last in a {
        PickSnoc(Pick(init, a), last, b);
      }
    }
  }
}

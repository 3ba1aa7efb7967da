/** Sequence helpers used by the dataset, encoding and training models. */
module Seqs {

  /** Concatenation of a list of lists (Rust `flatten`, `concat`). */
  function Flatten<T>(xs: seq<seq<T>>): seq<T>
  {
    if xs == [] then [] else xs[0] + Flatten(xs[1..])
  }

  /** The sum of a list of counts (Rust `iter().sum::<usize>()`). */
  function Sum(xs: seq<nat>): nat
  {
    if xs == [] then 0 else xs[0] + Sum(xs[1..])
  }

  /** The length of every list, in order (Rust `map(|x| x.len())`). */
  function Lengths<T>(xs: seq<seq<T>>): (r: seq<nat>)
    ensures |r| == |xs|
    ensures forall i :: 0 <= i < |xs| ==> r[i] == |xs[i]|
  {
    seq(|xs|, i requires 0 <= i < |xs| => |xs[i]|)
  }

  /** Total number of elements in a list of lists. */
  function TotalLength<T>(xs: seq<seq<T>>): nat
  {
    if xs == [] then 0 else |xs[0]| + TotalLength(xs[1..])
  }

  lemma {:induction false} FlattenAppend<T>(a: seq<seq<T>>, b: seq<seq<T>>)
    ensures Flatten(a + b) == Flatten(a) + Flatten(b)
  {
    if a == [] {
      assert a + b == b;
    } else {
      assert (a + b)[1..] == a[1..] + b;
      FlattenAppend(a[1..], b);
    }
  }

  lemma {:induction false} SumAppend(a: seq<nat>, b: seq<nat>)
    ensures Sum(a + b) == Sum(a) + Sum(b)
  {
    if a == [] {
      assert a + b == b;
    } else {
      assert (a + b)[1..] == a[1..] + b;
      SumAppend(a[1..], b);
    }
  }

  lemma {:induction false} TotalLengthAppend<T>(a: seq<seq<T>>, b: seq<seq<T>>)
    ensures TotalLength(a + b) == TotalLength(a) + TotalLength(b)
  {
    if a == [] {
      assert a + b == b;
    } else {
      assert (a + b)[1..] == a[1..] + b;
      TotalLengthAppend(a[1..], b);
    }
  }

  /** The lengths of two lists of lines, one after the other. */
  lemma LengthsAppend<T>(a: seq<seq<T>>, b: seq<seq<T>>)
    ensures Lengths(a + b) == Lengths(a) + Lengths(b)
  {
  }

  lemma AppendAssoc<T>(a: seq<T>, b: seq<T>, c: seq<T>)
    ensures a + (b + c) == (a + b) + c
  {
  }

  lemma SliceOfAppendHead<T>(a: seq<T>, b: seq<T>, lo: nat, hi: nat)
    requires lo <= hi <= |a|
    ensures (a + b)[lo..hi] == a[lo..hi]
  {
  }

  lemma DropOfAppend<T>(a: seq<T>, b: seq<T>, k: nat)
    requires k <= |a|
    ensures (a + b)[k..] == a[k..] + b
  {
  }

  lemma AppendSplit<T>(a: seq<T>, b: seq<T>)
    ensures (a + b)[..|a|] == a && (a + b)[|a|..] == b
  {
  }

  /** A slice of `a + b` that lies inside `b`. */
  lemma SliceOfAppend<T>(a: seq<T>, b: seq<T>, lo: nat, hi: nat)
    requires |a| <= lo <= hi <= |a| + |b|
    ensures (a + b)[lo..hi] == b[lo - |a|..hi - |a|]
  {
  }

  /** Splitting off the last line. */
  lemma TotalLengthSnoc<T>(xs: seq<seq<T>>)
    requires xs != []
    ensures TotalLength(xs) == TotalLength(xs[..|xs| - 1]) + |xs[|xs| - 1]|
  {
    var init, last := xs[..|xs| - 1], xs[|xs| - 1];
    assert xs == init + [last];
    TotalLengthAppend(init, [last]);
    assert [last][1..] == [];
  }

  /** The total length is the length of the flattened list. */
  lemma {:induction false} TotalLengthIsFlattenLength<T>(xs: seq<seq<T>>)
    ensures TotalLength(xs) == |Flatten(xs)|
  {
    if xs != [] {
      TotalLengthIsFlattenLength(xs[1..]);
    }
  }

  /** List `i` sits in the flattening right after the lists before it. */
  lemma {:induction false} FlattenPart<T>(xs: seq<seq<T>>, i: nat)
    requires i < |xs|
    ensures TotalLength(xs[..i]) + |xs[i]| <= |Flatten(xs)|
    ensures Flatten(xs)[TotalLength(xs[..i])..TotalLength(xs[..i]) + |xs[i]|] == xs[i]
  {
    TotalLengthIsFlattenLength(xs[1..]);
    if i > 0 {
      FlattenPart(xs[1..], i - 1);
      assert xs[..i] == [xs[0]] + xs[1..][..i - 1];
      TotalLengthAppend([xs[0]], xs[1..][..i - 1]);
      assert [xs[0]][1..] == [];
      SliceOfAppend(xs[0], Flatten(xs[1..]), TotalLength(xs[..i]), TotalLength(xs[..i]) + |xs[i]|);
    } else {
      assert xs[..0] == [];
    }
  }

  /** Summing the lengths gives the total length. */
  lemma {:induction false} SumOfLengths<T>(xs: seq<seq<T>>)
    ensures Sum(Lengths(xs)) == TotalLength(xs)
  {
    if xs != [] {
      assert Lengths(xs) == [|xs[0]|] + Lengths(xs[1..]);
      SumOfLengths(xs[1..]);
    }
  }

  /** Scaling every entry scales the sum. */
  function Scaled(xs: seq<nat>, k: nat): (r: seq<nat>)
    ensures |r| == |xs|
    ensures forall i :: 0 <= i < |xs| ==> r[i] == xs[i] * k
  {
    seq(|xs|, i requires 0 <= i < |xs| => xs[i] * k)
  }

  lemma {:induction false} SumScaled(xs: seq<nat>, k: nat)
    ensures Sum(Scaled(xs, k)) == Sum(xs) * k
  {
    if xs != [] {
      assert Scaled(xs, k) == [xs[0] * k] + Scaled(xs[1..], k);
      SumScaled(xs[1..], k);
    }
  }
}

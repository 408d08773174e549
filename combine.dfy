/** The Cartesian product of a list of lists (`Blackjack.combine`).

    `Combine(s)` lists every way of choosing one element from each list
    of `s`, in the order the recursive definition produces them: the
    choice from the first list varies slowest.  A choice is described by
    an index sequence `idx` (one index per list), the tuple it selects
    is `Pick(s, idx)` and its place in the output is `Position(s, idx)`,
    a mixed-radix number whose most significant digit is `idx[0]`. */
module Combination {

  /** Number of tuples in the product: the product of the list lengths. */
  function Product<T>(s: seq<seq<T>>): nat
  {
    if |s| == 0 then 1 else |s[0]| * Product(s[1..])
  }

  /** Each tuple of `tails`, in order, with `x` put in front of it. */
  function PrependAll<T>(x: T, tails: seq<seq<T>>): seq<seq<T>>
  {
    seq(|tails|, j requires 0 <= j < |tails| => [x] + tails[j])
  }

  /** For each element of `head` in turn, all of `tails` prefixed with it. */
  function FlatPrepend<T>(head: seq<T>, tails: seq<seq<T>>): (r: seq<seq<T>>)
    ensures |r| == |head| * |tails|
  {
    if |head| == 0 then [] else PrependAll(head[0], tails) + FlatPrepend(head[1..], tails)
  }

  function Combine<T>(s: seq<seq<T>>): (r: seq<seq<T>>)
    ensures |r| == Product(s)
  {
    if |s| == 0 then [[]] else FlatPrepend(s[0], Combine(s[1..]))
  }

  /** `idx` chooses one valid position in each list of `s`. */
  ghost predicate IsChoice<T>(s: seq<seq<T>>, idx: seq<nat>)
  {
    |idx| == |s| && forall i :: 0 <= i < |s| ==> idx[i] < |s[i]|
  }

  /** The tuple selected by the choice `idx`. */
  function Pick<T>(s: seq<seq<T>>, idx: seq<nat>): seq<T>
    requires IsChoice(s, idx)
  {
    seq(|s|, i requires 0 <= i < |s| => s[i][idx[i]])
  }

  /** The mixed-radix number with digits `idx`, the first most significant. */
  function Position<T>(s: seq<seq<T>>, idx: seq<nat>): nat
    requires IsChoice(s, idx)
  {
    if |s| == 0 then 0 else idx[0] * Product(s[1..]) + Position(s[1..], idx[1..])
  }

  /** The choice whose position is `k`: the inverse of `Position`. */
  function Digits<T>(s: seq<seq<T>>, k: nat): (idx: seq<nat>)
    requires k < Product(s)
    ensures IsChoice(s, idx) && Position(s, idx) == k
  {
    if |s| == 0 then []
    else
      var p := Product(s[1..]);
      DivBelow(k, |s[0]|, p);
      var rest := Digits(s[1..], k % p);
      ConsChoice(s, k / p, rest);
      [k / p] + rest
  }

  /** Lexicographic order on choices: `a` comes before `b`. */
  ghost predicate LexBefore(a: seq<nat>, b: seq<nat>)
  {
    |a| > 0 && |b| > 0 && (a[0] < b[0] || (a[0] == b[0] && LexBefore(a[1..], b[1..])))
  }

  lemma {:induction false} ConsChoice<T>(s: seq<seq<T>>, q: nat, rest: seq<nat>)
    requires |s| > 0 && q < |s[0]| && IsChoice(s[1..], rest)
    ensures IsChoice(s, [q] + rest)
    ensures Position(s, [q] + rest) == q * Product(s[1..]) + Position(s[1..], rest)
  {
    var idx := [q] + rest;
    assert idx[1..] == rest;
    forall i | 1 <= i < |s|
      ensures idx[i] < |s[i]|
    {
      assert idx[i] == rest[i - 1] && s[i] == s[1..][i - 1];
    }
  }

  lemma DivBelow(k: nat, h: nat, p: nat)
    requires k < h * p
    ensures p > 0 && 0 <= k / p < h && k == (k / p) * p + k % p && 0 <= k % p < p
  {
    var q := k / p;
    assert q * p <= k;
    assert (h - q) * p > 0;
  }

  lemma MulBelow(a: nat, x: nat, b: nat, y: nat, p: nat)
    requires a < b && x < p
    ensures a * p + x < b * p + y
  {
    assert b * p >= (a + 1) * p;
  }

  lemma {:induction false} PickCons<T>(s: seq<seq<T>>, idx: seq<nat>)
    requires IsChoice(s, idx) && |s| > 0
    ensures IsChoice(s[1..], idx[1..])
    ensures Pick(s, idx) == [s[0][idx[0]]] + Pick(s[1..], idx[1..])
  {
    assert forall i :: 0 <= i < |s| - 1 ==> s[1..][i] == s[i + 1] && idx[1..][i] == idx[i + 1];
  }

  lemma {:induction false} PositionBound<T>(s: seq<seq<T>>, idx: seq<nat>)
    requires IsChoice(s, idx)
    ensures Position(s, idx) < Product(s)
  {
    if |s| > 0 {
      PickCons(s, idx);
      PositionBound(s[1..], idx[1..]);
      MulBelow(idx[0], Position(s[1..], idx[1..]), |s[0]|, 0, Product(s[1..]));
    }
  }

  lemma {:induction false} FlatPrependAt<T>(head: seq<T>, tails: seq<seq<T>>, i: nat, j: nat)
    requires i < |head| && j < |tails|
    ensures i * |tails| + j < |head| * |tails|
    ensures FlatPrepend(head, tails)[i * |tails| + j] == [head[i]] + tails[j]
  {
    MulBelow(i, j, |head|, 0, |tails|);
    if i > 0 {
      FlatPrependAt(head[1..], tails, i - 1, j);
      assert (i - 1) * |tails| + j + |tails| == i * |tails| + j;
    }
  }

  /** The tuple chosen by `idx` is in the product, at position `Position(s, idx)`. */
  lemma {:induction false} CombineAt<T>(s: seq<seq<T>>, idx: seq<nat>)
    requires IsChoice(s, idx)
    ensures Position(s, idx) < |Combine(s)|
    ensures Combine(s)[Position(s, idx)] == Pick(s, idx)
  {
    PositionBound(s, idx);
    if |s| > 0 {
      PickCons(s, idx);
      var tail := Combine(s[1..]);
      CombineAt(s[1..], idx[1..]);
      FlatPrependAt(s[0], tail, idx[0], Position(s[1..], idx[1..]));
    }
  }

  /** Every tuple of the product is the pick of some choice: tuple `k`
      has one component per list, the `i`-th drawn from `s[i]`. */
  lemma CombineElement<T>(s: seq<seq<T>>, k: nat)
    requires k < |Combine(s)|
    ensures Combine(s)[k] == Pick(s, Digits(s, k))
    ensures |Combine(s)[k]| == |s|
    ensures forall i :: 0 <= i < |s| ==> Combine(s)[k][i] in s[i]
  {
    CombineAt(s, Digits(s, k));
  }

  /** Tuples come out in lexicographic order of their choices: the choice
      from the first list varies slowest. */
  lemma {:induction false} CombineOrdered<T>(s: seq<seq<T>>, a: seq<nat>, b: seq<nat>)
    requires IsChoice(s, a) && IsChoice(s, b) && LexBefore(a, b)
    ensures Position(s, a) < Position(s, b)
  {
    PickCons(s, a);
    PickCons(s, b);
    if a[0] < b[0] {
      PositionBound(s[1..], a[1..]);
      MulBelow(a[0], Position(s[1..], a[1..]), b[0], Position(s[1..], b[1..]), Product(s[1..]));
    } else {
      CombineOrdered(s[1..], a[1..], b[1..]);
    }
  }

  /** With the same digits, different choices land on different positions. */
  lemma {:induction false} PositionInjective<T>(s: seq<seq<T>>, a: seq<nat>, b: seq<nat>)
    requires IsChoice(s, a) && IsChoice(s, b) && a != b
    ensures Position(s, a) != Position(s, b)
  {
    PickCons(s, a);
    PickCons(s, b);
    if a[0] != b[0] {
      PositionBound(s[1..], a[1..]);
      PositionBound(s[1..], b[1..]);
      if a[0] < b[0] {
        MulBelow(a[0], Position(s[1..], a[1..]), b[0], Position(s[1..], b[1..]), Product(s[1..]));
      } else {
        MulBelow(b[0], Position(s[1..], b[1..]), a[0], Position(s[1..], a[1..]), Product(s[1..]));
      }
    } else {
      assert a == [a[0]] + a[1..] && b == [b[0]] + b[1..];
      PositionInjective(s[1..], a[1..], b[1..]);
    }
  }

  /** The product of no lists is one empty tuple. */
  lemma CombineEmpty<T>()
    ensures Combine<T>([]) == [[]]
  {
  }

  lemma {:induction false} ProductOfSingletons<T>(s: seq<seq<T>>)
    requires forall i :: 0 <= i < |s| ==> |s[i]| == 1
    ensures Product(s) == 1
  {
    if |s| > 0 {
      ProductOfSingletons(s[1..]);
    }
  }

  lemma {:induction false} PositionOfFirsts<T>(s: seq<seq<T>>, idx: seq<nat>)
    requires IsChoice(s, idx) && forall i :: 0 <= i < |s| ==> idx[i] == 0
    ensures Position(s, idx) == 0
  {
    if |s| > 0 {
      PickCons(s, idx);
      PositionOfFirsts(s[1..], idx[1..]);
    }
  }

  /** When every list holds one element, the product is that one tuple. */
  lemma CombineSingletons<T>(s: seq<seq<T>>)
    requires forall i :: 0 <= i < |s| ==> |s[i]| == 1
    ensures Combine(s) == [seq(|s|, i requires 0 <= i < |s| => s[i][0])]
  {
    ProductOfSingletons(s);
    var zeros := seq(|s|, i requires 0 <= i < |s| => 0 as nat);
    PositionOfFirsts(s, zeros);
    CombineAt(s, zeros);
    var c := Combine(s);
    assert Pick(s, zeros) == seq(|s|, i requires 0 <= i < |s| => s[i][0]);
    assert |c| == 1 && c == [c[0]];
  }

  /** A product of singletons is the one tuple of their elements. */
  lemma CombineSingleExample()
    ensures Combine([[2], [3], [7], [5]]) == [[2, 3, 7, 5]]
  {
    var single := [[2], [3], [7], [5]];
    CombineSingletons(single);
    var t := Combine(single)[0];
    assert |t| == 4 && t[0] == 2 && t[1] == 3 && t[2] == 7 && t[3] == 5;
    assert t == [2, 3, 7, 5];
  }

  /** One list of two elements doubles the tuples, in that list's order. */
  lemma CombineMultiExample()
    ensures Combine([[2], [3], [1, 11], [5]]) == [[2, 3, 1, 5], [2, 3, 11, 5]]
  {
    var s := [[2], [3], [1, 11], [5]];
    assert Product(s) == 2;
    var first, second := [0, 0, 0, 0], [0, 0, 1, 0];
    CombineAt(s, first);
    CombineAt(s, second);
    PositionOfFirsts(s, first);
    assert Position(s, second) == 1;
    assert Pick(s, first) == [2, 3, 1, 5];
    assert Pick(s, second) == [2, 3, 11, 5];
    var c := Combine(s);
    assert |c| == 2 && c == [c[0], c[1]];
  }
}

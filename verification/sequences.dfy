/** Order-preserving selection over sequences, the model of LINQ's
    `Where` and `Count(predicate)` over an enumeration. */
module Sequences {

  /** The elements of `xs` that satisfy `p`, in their original order. */
  function Where<T(==,!new)>(xs: seq<T>, p: T -> bool): (r: seq<T>)
    ensures |r| <= |xs|
    ensures forall x :: multiset(r)[x] == if p(x) then multiset(xs)[x] else 0
    ensures forall x :: x in r <==> x in xs && p(x)
  {
    if |xs| == 0 then []
    else
      var rest := Where(xs[1..], p);
      assert xs == [xs[0]] + xs[1..];
      if p(xs[0]) then [xs[0]] + rest else rest
  }

  /** Selection distributes over concatenation, so it never reorders. */
  lemma {:induction false} WhereAppend<T(!new)>(a: seq<T>, b: seq<T>, p: T -> bool)
    ensures Where(a + b, p) == Where(a, p) + Where(b, p)
  {
    if |a| == 0 {
      assert a + b == b;
    } else {
      var ab := a + b;
      assert ab[0] == a[0];
      assert ab[1..] == a[1..] + b;
      WhereAppend(a[1..], b, p);
      if p(a[0]) {
        calc {
          Where(ab, p);
          [a[0]] + Where(a[1..] + b, p);
          [a[0]] + (Where(a[1..], p) + Where(b, p));
          ([a[0]] + Where(a[1..], p)) + Where(b, p);
        }
      }
    }
  }

  /** The number of elements of `xs` that satisfy `p`. */
  function CountWhere<T>(xs: seq<T>, p: T -> bool): (n: nat)
    ensures n <= |xs|
  {
    if |xs| == 0 then 0
    else (if p(xs[0]) then 1 else 0) + CountWhere(xs[1..], p)
  }

  /** Counting the satisfying elements is the length of their selection. */
  lemma {:induction false} CountIsLengthOfWhere<T(!new)>(xs: seq<T>, p: T -> bool)
    ensures CountWhere(xs, p) == |Where(xs, p)|
  {
    if |xs| > 0 {
      CountIsLengthOfWhere(xs[1..], p);
    }
  }
}

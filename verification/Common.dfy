/** Small shared vocabulary: optional values, exact minimum, and sums over lists. */
module Common {

  datatype Option<+T> = None | Some(value: T)

  function MinReal(a: real, b: real): real {
    if a < b then a else b
  }

  function MaxInt(a: int, b: int): int {
    if a > b then a else b
  }

  /** Sum of `f` over a list. */
  function Sum<T>(xs: seq<T>, f: T -> real): real {
    if xs == [] then 0.0 else f(xs[0]) + Sum(xs[1..], f)
  }

  lemma {:induction false} SumUpdate<T>(xs: seq<T>, i: nat, x: T, f: T -> real)
    requires i < |xs|
    ensures Sum(xs[i := x], f) == Sum(xs, f) - f(xs[i]) + f(x)
  {
    if i == 0 {
      assert xs[i := x][1..] == xs[1..];
    } else {
      SumUpdate(xs[1..], i - 1, x, f);
      assert xs[i := x][1..] == xs[1..][i - 1 := x];
    }
  }

  lemma {:induction false} SumZero<T>(xs: seq<T>, f: T -> real)
    requires forall x :: x in xs ==> f(x) == 0.0
    ensures Sum(xs, f) == 0.0
  {
    if xs != [] {
      assert forall x :: x in xs[1..] ==> x in xs;
      SumZero(xs[1..], f);
    }
  }
}

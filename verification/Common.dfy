/** Small vocabulary shared by every component: optional values, real arithmetic and sums. */
module Common {

  datatype Option<+T> = None | Some(value: T)

  function Max(a: real, b: real): real { if a >= b then a else b }

  function Min(a: real, b: real): real { if a <= b then a else b }

  function Abs(a: real): real { if a >= 0.0 then a else -a }

  function Last<T>(s: seq<T>): T
    requires s != []
  {
    s[|s| - 1]
  }

  function Init<T>(s: seq<T>): seq<T>
    requires s != []
  {
    s[..|s| - 1]
  }

  /** The sum of a sequence, folded from the left as Python's `sum` does. */
  function Sum(xs: seq<real>): real {
    if |xs| == 0 then 0.0 else Sum(xs[..|xs| - 1]) + xs[|xs| - 1]
  }

  lemma SumAppend(xs: seq<real>, x: real)
    ensures Sum(xs + [x]) == Sum(xs) + x
  {
    assert (xs + [x])[..|xs|] == xs;
  }

  lemma {:induction false} SumConcat(xs: seq<real>, ys: seq<real>)
    ensures Sum(xs + ys) == Sum(xs) + Sum(ys)
  {
    if ys == [] {
      assert xs + ys == xs;
    } else {
      var n := |ys| - 1;
      assert xs + ys == (xs + ys[..n]) + [ys[n]];
      SumAppend(xs + ys[..n], ys[n]);
      SumConcat(xs, ys[..n]);
    }
  }

  /** If every element lies in [lo, hi] then the sum lies in [n * lo, n * hi]. */
  lemma {:induction false} SumBounds(xs: seq<real>, lo: real, hi: real)
    requires forall i :: 0 <= i < |xs| ==> lo <= xs[i] <= hi
    ensures |xs| as real * lo <= Sum(xs) <= |xs| as real * hi
  {
    if |xs| > 0 {
      SumBounds(xs[..|xs| - 1], lo, hi);
    }
  }

  /** Inserts into a sequence sorted by a key, behind the elements whose key is not larger. */
  function InsertBy<T>(s: seq<T>, y: T, key: T -> real): (r: seq<T>)
    ensures |r| == |s| + 1
  {
    if s == [] || key(Last(s)) <= key(y) then s + [y] else InsertBy(Init(s), y, key) + [Last(s)]
  }

  /** Insertion puts the element at one position and shifts what was behind it. */
  lemma {:induction false} InsertAt<T>(s: seq<T>, y: T, key: T -> real) returns (k: nat)
    requires forall r, t :: 0 <= r < t < |s| ==> key(s[r]) <= key(s[t])
    ensures k <= |s| && InsertBy(s, y, key) == s[..k] + [y] + s[k..]
    ensures forall r :: 0 <= r < k ==> key(s[r]) <= key(y)
    ensures forall r :: k <= r < |s| ==> key(y) < key(s[r])
  {
    if s == [] || key(Last(s)) <= key(y) {
      k := |s|;
      assert s[..k] == s && s[k..] == [];
    } else {
      k := InsertAt(Init(s), y, key);
      assert s[..k] == Init(s)[..k] && s[k..] == Init(s)[k..] + [Last(s)];
    }
  }

  lemma Scale(k: real, x: real, y: real)
    requires k >= 0.0 && x <= y
    ensures k * x <= k * y
  {}

  lemma PositiveProduct(a: real, b: real)
    requires a > 0.0 && b > 0.0
    ensures a * b > 0.0
  {}

  lemma DivTimes(x: real, k: real)
    requires k > 0.0
    ensures x / k * k == x && (x >= 0.0 ==> x / k >= 0.0)
  {}

  lemma OneMoreTimes(n: nat, x: real)
    ensures (n + 1) as real * x == n as real * x + x
  {}
}

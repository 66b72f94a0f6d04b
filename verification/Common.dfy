/** What several modules share. */
module Common {

  type byte = x: int | 0 <= x < 256

  datatype Option<+T> = None | Some(value: T)

  /** A slice of a slice. */
  lemma SubSlice<T>(s: seq<T>, a: nat, b: nat, c: nat, d: nat)
    requires a <= b <= |s| && c <= d <= b - a
    ensures s[a..b][c..d] == s[a + c..a + d]
  {
    forall k | 0 <= k < d - c ensures s[a..b][c..d][k] == s[a + c..a + d][k] {
      assert s[a..b][c + k] == s[a + (c + k)];
    }
  }

  function Abs(x: real): (r: real)
    ensures r >= 0.0 && (r == x || r == -x)
  {
    if x < 0.0 then -x else x
  }

  /** The largest magnitude, zero of nothing. */
  function MaxAbs(v: seq<real>): (m: real)
    ensures m >= 0.0 && forall i :: 0 <= i < |v| ==> Abs(v[i]) <= m
    ensures m == 0.0 || exists i :: 0 <= i < |v| && Abs(v[i]) == m
  {
    if v == [] then 0.0 else
      var m := MaxAbs(v[..|v| - 1]);
      if Abs(v[|v| - 1]) > m then Abs(v[|v| - 1]) else m
  }

  /** There is one way to divide with a remainder. */
  lemma QuotientIs(x: int, q: int, r: int, n: int)
    requires 0 <= r < n && x == q * n + r
    ensures x / n == q && x % n == r
  {
    var d := x / n - q;
    assert d * n == r - x % n;
    Multiples(d, n);
  }

  lemma Multiples(d: int, n: int)
    requires n > 0
    ensures (d >= 1 ==> d * n >= n) && (d <= -1 ==> d * n <= -n)
  {
  }
}

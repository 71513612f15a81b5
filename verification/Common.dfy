/** Small shared datatypes and functions. */
module Common {

  datatype Option<+T> = None | Some(value: T)

  /** A value, or the error the program raises in its place. */
  datatype Result<+T> = Ok(value: T) | Err

  function Min(a: int, b: int): int { if a < b then a else b }

  /** The last `n` elements, or all when there are fewer. */
  function Last<T>(xs: seq<T>, n: nat): seq<T> { xs[|xs| - Min(n, |xs|)..] }

  lemma {:induction false} SubsetIsSmaller<T>(a: set<T>, b: set<T>)
    requires a <= b
    ensures |a| <= |b|
    ensures a != b ==> |a| < |b|
  {
    assert b == a + (b - a);
    if a != b {
      assert b - a != {};
    }
  }
}

/** Failure-compatible wrappers and Python's slice rules on sequences. */
module Base {

  /** A value that may be absent (Python's `Optional` / `None`). */
  datatype Option<+T> = None | Some(value: T) {
    function GetOr(default: T): T {
      match this
      case Some(v) => v
      case None => default
    }
  }

  /** The outcome of a computation that the source lets raise an exception. */
  datatype Result<+T> = Ok(value: T) | Raised(error: string)

  /** Clamps a Python slice bound into `0..n`, counting a negative bound from the end. */
  function ClampIndex(k: int, n: nat): (r: nat)
    ensures r <= n
    ensures 0 <= k <= n ==> r == k
    ensures k > n ==> r == n
    ensures k < 0 ==> r == if n + k < 0 then 0 else n + k
  {
    if k >= 0 then (if k <= n then k else n)
    else if n + k < 0 then 0 else n + k
  }

  /** Python's `s[:k]` for any integer `k`, negative ones included. */
  function SliceTo<T>(s: seq<T>, k: int): (r: seq<T>)
    ensures |r| <= |s| && r == s[..|r|]
    ensures 0 <= k ==> |r| == if k <= |s| then k else |s|
    ensures k < 0 ==> |r| == if |s| + k < 0 then 0 else |s| + k
  {
    s[..ClampIndex(k, |s|)]
  }

  /** Python's `s[k:]` for any integer `k`, negative ones included. */
  function SliceFrom<T>(s: seq<T>, k: int): (r: seq<T>)
    ensures |r| <= |s| && r == s[|s| - |r|..]
    ensures 0 <= k ==> |r| == if k <= |s| then |s| - k else 0
    ensures k < 0 ==> |r| == if |s| + k < 0 then |s| else -k
  {
    s[ClampIndex(k, |s|)..]
  }

  /** Python's `enumerate(s, first)` mapped through `f`: the i-th element is
      `f(s[i], first + i)`. */
  function MapNumbered<A, B>(s: seq<A>, first: int, f: (A, int) -> B): (r: seq<B>)
    ensures |r| == |s|
    ensures forall i :: 0 <= i < |s| ==> r[i] == f(s[i], first + i)
  {
    seq(|s|, i requires 0 <= i < |s| => f(s[i], first + i))
  }

  /** Dropping the first element continues the numbering one further on. */
  lemma MapNumberedTail<A, B>(s: seq<A>, first: int, f: (A, int) -> B)
    requires s != []
    ensures MapNumbered(s, first, f)[1..] == MapNumbered(s[1..], first + 1, f)
  {
    var ts := MapNumbered(s, first, f);
    var us := MapNumbered(s[1..], first + 1, f);
    forall i | 0 <= i < |us| ensures ts[1..][i] == us[i] {
      assert s[1..][i] == s[i + 1];
    }
  }

  function Min(a: int, b: int): int { if a <= b then a else b }

  function Max(a: int, b: int): int { if a >= b then a else b }
}

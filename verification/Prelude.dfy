/** Small shared vocabulary: an optional value and facts about duplicate-free sequences. */
module Prelude {

  datatype Option<+T> = None | Some(value: T)

  /** No value occurs at two positions of the sequence. */
  ghost predicate NoDup<T>(s: seq<T>)
  {
    forall i, j :: 0 <= i < j < |s| ==> s[i] != s[j]
  }

  /** The sequence with its element at `k` taken out. */
  function Without<T>(s: seq<T>, k: nat): (r: seq<T>)
    requires k < |s|
    ensures |r| == |s| - 1
  {
    s[..k] + s[k + 1..]
  }

  ghost function Elements<T>(s: seq<T>): set<T>
  {
    set x | x in s
  }

  /** A duplicate-free sequence drawn from a finite set is no longer than the set is large. */
  lemma {:induction false} NoDupFits<T>(s: seq<T>, bound: set<T>)
    requires NoDup(s)
    requires forall x :: x in s ==> x in bound
    ensures |s| <= |bound|
  {
    if s == [] {
    } else {
      var rest := bound - {s[0]};
      forall x | x in s[1..] ensures x in rest {
        var i :| 0 <= i < |s[1..]| && s[1..][i] == x;
        assert s[i + 1] == x;
      }
      NoDupFits(s[1..], rest);
    }
  }

  // ---- arithmetic ----------------------------------------------------------------------------------------

  lemma OneMore(q: nat, n: nat)
    ensures q * (n + 1) == q * n + q
  {
  }

  lemma Monotone(q: nat, a: nat, b: nat)
    requires a <= b
    ensures q * a <= q * b
  {
  }

  /** A number is divided as it was put together. */
  lemma DivIs(q: nat, d: nat, r: nat)
    requires r < q
    ensures (q * d + r) / q == d && (q * d + r) % q == r
  {
    var e := (q * d + r) / q;
    assert q * e <= q * d + r < q * e + q;
    if e < d { OneMore(q, e); Monotone(q, e + 1, d); }
    if e > d { OneMore(q, d); Monotone(q, d + 1, e); }
  }

  /** The one number of `q`s that covers `n` and no more than needed is `n` divided by `q`, rounded up. */
  lemma CeilingIs(n: nat, q: nat, d: nat)
    requires q >= 1 && n <= q * d < n + q
    ensures d == (n + q - 1) / q
  {
    var r := n + q - 1 - q * d;
    assert n + q - 1 == q * d + r && 0 <= r < q;
    DivIs(q, d, r);
  }
}

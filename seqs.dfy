/** Selecting elements by position: `Where` lists the positions a boolean mask accepts,
    `Pick` takes the elements at given positions. Together they are pandas' `df[mask]`
    and the filtering comprehensions of the extractor. */
module Seqs {

  ghost predicate StrictlyIncreasing(idx: seq<nat>) {
    forall k, l :: 0 <= k < l < |idx| ==> idx[k] < idx[l]
  }

  /** The positions below `n` at which `p` holds, in increasing order, each exactly once. */
  function Where(n: nat, p: nat -> bool): (r: seq<nat>)
    ensures forall k :: 0 <= k < |r| ==> r[k] < n && p(r[k])
    ensures forall i :: 0 <= i < n ==> (i in r <==> p(i))
    ensures StrictlyIncreasing(r)
  {
    if n == 0 then [] else Where(n - 1, p) + (if p(n - 1) then [n - 1] else [])
  }

  /** Masks that agree below `n` select the same positions below `n`. */
  lemma {:induction false} WhereAgree(n: nat, p: nat -> bool, q: nat -> bool)
    requires forall i :: 0 <= i < n ==> p(i) == q(i)
    ensures Where(n, p) == Where(n, q)
  {
    if n > 0 {
      WhereAgree(n - 1, p, q);
    }
  }

  /** A mask that holds nowhere below `n` selects nothing. */
  lemma {:induction false} WhereNone(n: nat, p: nat -> bool)
    requires forall i :: 0 <= i < n ==> !p(i)
    ensures Where(n, p) == []
  {
    if n > 0 {
      WhereNone(n - 1, p);
    }
  }

  predicate InBounds<T>(s: seq<T>, idx: seq<nat>) {
    forall k :: 0 <= k < |idx| ==> idx[k] < |s|
  }

  /** The elements of `s` at positions `idx`, in the order of `idx`. */
  function Pick<T>(s: seq<T>, idx: seq<nat>): (r: seq<T>)
    requires InBounds(s, idx)
    ensures |r| == |idx|
  {
    seq(|idx|, k requires 0 <= k < |idx| => s[idx[k]])
  }

  lemma PickSnoc<T>(s: seq<T>, idx: seq<nat>, i: nat)
    requires InBounds(s, idx) && i < |s|
    ensures InBounds(s, idx + [i])
    ensures Pick(s, idx + [i]) == Pick(s, idx) + [s[i]]
  {
    assert InBounds(s, idx + [i]);
  }

  /** One position further, the picked elements grow by the element there exactly
      when the mask accepts it. */
  lemma PickWhereStep<T>(s: seq<T>, n: nat, p: nat -> bool)
    requires n < |s|
    ensures InBounds(s, Where(n, p)) && InBounds(s, Where(n + 1, p))
    ensures Pick(s, Where(n + 1, p)) == Pick(s, Where(n, p)) + (if p(n) then [s[n]] else [])
  {
    if p(n) {
      PickSnoc(s, Where(n, p), n);
    }
  }

  /** Positions that stay inside a prefix pick the same elements from it. */
  lemma PickPrefix<T>(s: seq<T>, m: nat, idx: seq<nat>)
    requires m <= |s| && InBounds(s[..m], idx)
    ensures InBounds(s, idx)
    ensures Pick(s, idx) == Pick(s[..m], idx)
  {
  }
}

/** Index deduplication as `torch.unique(indices, return_inverse=True)`
    performs it: the sorted distinct values of an index sequence, and for
    every original position the place of its value among them. Gathering
    through the distinct values and then through the inverse map yields
    exactly the direct gather; the optimised rigidity loss relies on this. */
module UniqueIndex {
  import opened Seqs

  predicate StrictlyIncreasing(u: seq<nat>) {
    forall a, b :: 0 <= a < b < |u| ==> u[a] < u[b]
  }

  /** Adds `x` to a strictly increasing sequence, keeping it strictly
      increasing and adding nothing else. */
  function Insert(u: seq<nat>, x: nat): (r: seq<nat>)
    requires StrictlyIncreasing(u)
    ensures StrictlyIncreasing(r)
    ensures forall y :: y in r <==> y in u || y == x
  {
    if u == [] then [x]
    else if x < u[0] then [x] + u
    else if x == u[0] then u
    else
      var rest := Insert(u[1..], x);
      assert forall b :: 0 <= b < |rest| ==> u[0] < rest[b] by {
        forall b | 0 <= b < |rest| ensures u[0] < rest[b] {
          assert rest[b] in rest;
          if rest[b] != x {
            var a :| 0 <= a < |u[1..]| && u[1..][a] == rest[b];
            assert u[1 + a] == rest[b];
          }
        }
      }
      [u[0]] + rest
  }

  /** The distinct values of `s` in increasing order (`torch.unique` sorts
      by default). */
  function SortedUnique(s: seq<nat>): (u: seq<nat>)
    ensures StrictlyIncreasing(u)
    ensures forall y :: y in u <==> y in s
  {
    if s == [] then []
    else Insert(SortedUnique(s[..|s| - 1]), s[|s| - 1])
  }

  /** The position of `x` in `u`. */
  function IndexOf(u: seq<nat>, x: nat): (p: nat)
    requires x in u
    ensures p < |u| && u[p] == x
  {
    if u[0] == x then 0 else 1 + IndexOf(u[1..], x)
  }

  /** The inverse map: entry `k` is where `s[k]` sits in `u`. */
  function InverseIndices(s: seq<nat>, u: seq<nat>): (inv: seq<nat>)
    requires forall k :: 0 <= k < |s| ==> s[k] in u
    ensures |inv| == |s| && InRange(inv, |u|)
    ensures forall k :: 0 <= k < |s| ==> u[inv[k]] == s[k]
  {
    seq(|s|, k requires 0 <= k < |s| => IndexOf(u, s[k]))
  }

  /** What `torch.unique(s, return_inverse=True)` promises: the unique
      values are strictly increasing (so distinct) and are exactly the values
      of `s`; every inverse entry is a valid position among them, the only
      position holding that value, and maps back to the original index. */
  lemma UniqueInverse(s: seq<nat>)
    ensures StrictlyIncreasing(SortedUnique(s))
    ensures forall y :: y in SortedUnique(s) <==> y in s
    ensures forall k :: 0 <= k < |s| ==> s[k] in SortedUnique(s)
    ensures var u := SortedUnique(s); var inv := InverseIndices(s, u);
      && |inv| == |s|
      && (forall k :: 0 <= k < |s| ==> inv[k] < |u| && u[inv[k]] == s[k])
      && (forall k, p :: 0 <= k < |s| && 0 <= p < |u| && u[p] == s[k] ==> p == inv[k])
  {
    var u := SortedUnique(s);
    assert forall k :: 0 <= k < |s| ==> s[k] in u;
  }

  /** Every distinct value is in range when every original index is. */
  lemma UniqueInRange(s: seq<nat>, n: nat)
    requires InRange(s, n)
    ensures InRange(SortedUnique(s), n)
  {
    var u := SortedUnique(s);
    forall p | 0 <= p < |u| ensures u[p] < n {
      assert u[p] in s;
    }
  }

  /** Gathering through the unique values and re-expanding through the
      inverse map is the same as gathering directly. */
  lemma RegatherEqualsGather<T>(t: seq<T>, s: seq<nat>)
    requires InRange(s, |t|)
    ensures InRange(SortedUnique(s), |t|)
    ensures forall k :: 0 <= k < |s| ==> s[k] in SortedUnique(s)
    ensures Gather(Gather(t, SortedUnique(s)), InverseIndices(s, SortedUnique(s))) == Gather(t, s)
  {
    UniqueInRange(s, |t|);
    var u := SortedUnique(s);
    assert forall k :: 0 <= k < |s| ==> s[k] in u;
    var inv := InverseIndices(s, u);
    var direct := Gather(t, s);
    var twice := Gather(Gather(t, u), inv);
    forall k | 0 <= k < |s| ensures twice[k] == direct[k] {
      assert u[inv[k]] == s[k];
    }
  }
}

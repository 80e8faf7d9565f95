/**
 Hosts sorted by name in place (lsbatch/cmd/bhosts.c, sort_host): a Shell sort with
 gaps n/2, n/4, ..., 1 that also swaps hosts of equal name.
 */
module HostSort {

  datatype HostInfo = HostInfo(host: string, numJobs: int)

  // ----- strcmp -----

  /* strcmp(a, b) < 0. */
  predicate Less(a: string, b: string)
    decreases |a|
  {
    b != [] && (a == [] || a[0] < b[0] || (a[0] == b[0] && Less(a[1..], b[1..])))
  }

  predicate Le(a: string, b: string) { !Less(b, a) }

  /* `a` and `b` agree up to `k`, where `a` ends or has the smaller character. */
  predicate DiffersAt(a: string, b: string, k: nat) {
    k <= |a| && k < |b| && a[..k] == b[..k] && (k == |a| || a[k] < b[k])
  }

  /** One name is less than another exactly if it ends, or has the smaller character, where
      they first differ. */
  lemma {:induction false} LessIff(a: string, b: string)
    ensures Less(a, b) <==> exists k: nat :: DiffersAt(a, b, k)
    decreases |a|
  {
    if a == [] {
      if b != [] { assert DiffersAt(a, b, 0); }
    } else if b != [] {
      LessIff(a[1..], b[1..]);
      if Less(a, b) {
        if a[0] < b[0] {
          assert DiffersAt(a, b, 0);
        } else {
          var k: nat :| DiffersAt(a[1..], b[1..], k);
          assert a[..k + 1] == [a[0]] + a[1..][..k] && b[..k + 1] == [b[0]] + b[1..][..k];
          assert DiffersAt(a, b, k + 1);
        }
      }
      if k: nat :| DiffersAt(a, b, k) {
        if k > 0 {
          assert a[0] == a[..k][0] == b[..k][0] == b[0];
          assert a[1..][..k - 1] == a[..k][1..] && b[1..][..k - 1] == b[..k][1..];
          assert DiffersAt(a[1..], b[1..], k - 1);
        }
      }
    }
  }

  lemma {:induction false} LeTransitive(a: string, b: string, c: string)
    requires Le(a, b) && Le(b, c)
    ensures Le(a, c)
    decreases |a|
  {
    if a != [] && b != [] && c != [] && a[0] == b[0] == c[0] {
      LeTransitive(a[1..], b[1..], c[1..]);
    }
  }

  /* Names are totally ordered: two that are not Less either way are equal. */
  lemma {:induction false} LeAntisymmetric(a: string, b: string)
    ensures Le(a, b) || Le(b, a)
    ensures Le(a, b) && Le(b, a) <==> a == b
    decreases |a|
  {
    if a != [] && b != [] {
      LeAntisymmetric(a[1..], b[1..]);
      assert a == [a[0]] + a[1..] && b == [b[0]] + b[1..];
    }
  }

  predicate Ordered(x: HostInfo, y: HostInfo) { Le(x.host, y.host) }

  // ----- One insertion -----

  predicate InOrder(s: seq<HostInfo>, p: int, gap: nat) { 0 <= p < |s| - gap ==> Ordered(s[p], s[p + gap]) }

  /* Entries `k` apart are ordered, up to position `i`. */
  predicate GapSorted(s: seq<HostInfo>, k: nat, i: int) {
    forall p :: 0 <= p <= i - k ==> InOrder(s, p, k)
  }

  /* As above but for the pair at `j`, around which the neighbours are ordered. */
  predicate Hole(s: seq<HostInfo>, k: nat, i: int, j: int) {
    (forall p :: 0 <= p <= i - k && p != j ==> InOrder(s, p, k)) &&
    (j + 2 * k <= i ==> InOrder(s, j, 2 * k))
  }

  function Swapped(s: seq<HostInfo>, p: nat, q: nat): (r: seq<HostInfo>)
    requires p < |s| && q < |s|
    ensures |r| == |s|
  {
    s[p := s[q]][q := s[p]]
  }

  ghost predicate Permutes(s: seq<HostInfo>, t: seq<HostInfo>) { multiset(s) == multiset(t) }

  lemma {:induction false} SwapPermutes(s: seq<HostInfo>, p: nat, q: nat)
    requires p < |s| && q < |s|
    ensures Permutes(Swapped(s, p, q), s)
  {
  }

  /* Swapping an unordered pair moves the hole one gap down. */
  lemma {:induction false} SwapMovesHole(s: seq<HostInfo>, k: nat, i: int, j: int)
    requires 0 < k && 0 <= j && j + k <= i < |s| && Hole(s, k, i, j)
    requires !Less(s[j].host, s[j + k].host)
    ensures Hole(Swapped(s, j, j + k), k, i, j - k)
  {
    var t := Swapped(s, j, j + k);
    forall p | 0 <= p <= i - k && p != j - k
      ensures InOrder(t, p, k)
    {
      if p == j + k {
        assert InOrder(s, j, 2 * k);
      } else if p != j {
        assert InOrder(s, p, k);
      }
    }
    assert InOrder(t, j - k, 2 * k) by {
      assert j - k >= 0 ==> InOrder(s, j - k, k);
    }
  }

  /* The loop may stop once the pair at the hole is ordered, or lies before the start. */
  lemma {:induction false} HoleCloses(s: seq<HostInfo>, k: nat, i: int, j: int)
    requires 0 < k <= i < |s| && Hole(s, k, i, j) && j + k <= i
    requires j < 0 || Less(s[j].host, s[j + k].host)
    ensures GapSorted(s, k, i)
  {
    if j >= 0 {
      LeAntisymmetric(s[j].host, s[j + k].host);
      assert InOrder(s, j, k);
    }
  }

  lemma {:induction false} HoleOpens(s: seq<HostInfo>, k: nat, i: int)
    requires 0 < k <= i < |s| && GapSorted(s, k, i - 1)
    ensures Hole(s, k, i, i - k)
  {
  }

  method Exchange(a: array<HostInfo>, p: nat, q: nat)
    requires p < a.Length && q < a.Length
    modifies a
    ensures a[..] == Swapped(old(a[..]), p, q) && Permutes(a[..], old(a[..]))
  {
    SwapPermutes(a[..], p, q);
    var temHost := a[p];
    a[p] := a[q];
    a[q] := temHost;
  }

  /** The innermost loop: entry `i` sinks to its place among the entries `k` apart. */
  method Sink(a: array<HostInfo>, k: nat, i: nat)
    requires 0 < k <= i < a.Length && GapSorted(a[..], k, i - 1)
    modifies a
    ensures GapSorted(a[..], k, i)
    ensures Permutes(a[..], old(a[..]))
  {
    var j := i - k;
    HoleOpens(a[..], k, i);
    while j >= 0
      invariant j + k <= i
      invariant Hole(a[..], k, i, j)
      invariant Permutes(a[..], old(a[..]))
    {
      if Less(a[j].host, a[j + k].host) {
        break;
      }
      SwapMovesHole(a[..], k, i, j);
      Exchange(a, j, j + k);
      j := j - k;
    }
    HoleCloses(a[..], k, i, j);
  }

  /** One pass with gap `k` leaves all entries `k` apart ordered. */
  method GapPass(a: array<HostInfo>, k: nat)
    requires 0 < k
    modifies a
    ensures GapSorted(a[..], k, a.Length - 1)
    ensures Permutes(a[..], old(a[..]))
  {
    var i := k;
    while i < a.Length
      invariant k <= i
      invariant GapSorted(a[..], k, i - 1)
      invariant Permutes(a[..], old(a[..]))
    {
      Sink(a, k, i);
      i := i + 1;
    }
  }

  predicate Sorted(s: seq<HostInfo>) { forall p, q :: 0 <= p < q < |s| ==> Ordered(s[p], s[q]) }

  lemma {:induction false} StepsToSorted(s: seq<HostInfo>, p: nat, q: nat)
    requires GapSorted(s, 1, |s| - 1) && p < q < |s|
    ensures Ordered(s[p], s[q])
    decreases q - p
  {
    assert InOrder(s, p, 1);
    if p + 1 < q {
      StepsToSorted(s, p + 1, q);
      LeTransitive(s[p].host, s[p + 1].host, s[q].host);
    }
  }

  lemma {:induction false} GapOneIsSorted(s: seq<HostInfo>)
    requires GapSorted(s, 1, |s| - 1)
    ensures Sorted(s)
  {
    forall p, q | 0 <= p < q < |s|
      ensures Ordered(s[p], s[q])
    {
      StepsToSorted(s, p, q);
    }
  }

  /** sort_host: the same hosts, in order of name. */
  method SortHost(a: array<HostInfo>)
    modifies a
    ensures Sorted(a[..])
    ensures Permutes(a[..], old(a[..]))
  {
    var k := a.Length / 2;
    while k > 0
      invariant k >= 0
      invariant Permutes(a[..], old(a[..]))
      invariant k == 0 ==> Sorted(a[..])
      decreases k
    {
      GapPass(a, k);
      if k == 1 { GapOneIsSorted(a[..]); }
      k := k / 2;
    }
  }
}

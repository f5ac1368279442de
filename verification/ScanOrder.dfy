/** The order in which sort_them leaves a scan (src/adna.c), and windows of bus
    numbers in it. */
module ScanOrder {
  import opened Config
  import opened Topology

  /** compare_them */
  function CompareThem(a: Dev, b: Dev): int {
    if a.domain < b.domain then -1 else if a.domain > b.domain then 1
    else if a.bus < b.bus then -1 else if a.bus > b.bus then 1
    else if a.dev < b.dev then -1 else if a.dev > b.dev then 1
    else if a.func < b.func then -1 else if a.func > b.func then 1
    else 0
  }

  /** The order is by domain, then bus, then device, then function. It is total,
      and ties are equal addresses, so sorting by it is well defined. */
  lemma CompareIsOrder(a: Dev, b: Dev, c: Dev)
    ensures CompareThem(a, b) < 0 <==>
            || a.domain < b.domain
            || (a.domain == b.domain && a.bus < b.bus)
            || (a.domain == b.domain && a.bus == b.bus && a.dev < b.dev)
            || (a.domain == b.domain && a.bus == b.bus && a.dev == b.dev && a.func < b.func)
    ensures CompareThem(a, b) == -CompareThem(b, a)
    ensures CompareThem(a, b) <= 0 && CompareThem(b, c) <= 0 ==> CompareThem(a, c) <= 0
    ensures CompareThem(a, b) == 0 <==> a.domain == b.domain && a.bus == b.bus && a.dev == b.dev && a.func == b.func
  {
  }

  /** The list as sort_them leaves it. */
  ghost predicate Sorted(scan: seq<Dev>) {
    forall i, j :: 0 <= i < j < |scan| ==> CompareThem(scan[i], scan[j]) <= 0
  }

  /** With distinct addresses there is only one way to sort a list: whatever
      qsort does, sort_them leaves the same order. */
  lemma {:induction false} SortedUnique(a: seq<Dev>, b: seq<Dev>)
    requires Sorted(a) && Sorted(b) && multiset(a) == multiset(b)
    requires DistinctAddresses(a)
    ensures a == b
    decreases |a|
  {
    hide Sorted, DistinctAddresses;
    assert |a| == |multiset(a)| == |b|;
    if a != [] {
      SameHead(a, b);
      SameTail(a, b);
      SortedTail(a);
      SortedTail(b);
      SortedUnique(a[1..], b[1..]);
      assert a == [a[0]] + a[1..] && b == [b[0]] + b[1..];
    }
  }

  ghost predicate DistinctAddresses(a: seq<Dev>) {
    forall i, j :: 0 <= i < j < |a| ==> CompareThem(a[i], a[j]) != 0
  }

  lemma SortedTail(a: seq<Dev>)
    requires a != []
    ensures Sorted(a) ==> Sorted(a[1..])
    ensures DistinctAddresses(a) ==> DistinctAddresses(a[1..])
  {
    hide CompareThem;
  }

  lemma SameTail<T>(a: seq<T>, b: seq<T>)
    requires a != [] && b != [] && a[0] == b[0] && multiset(a) == multiset(b)
    ensures multiset(a[1..]) == multiset(b[1..])
  {
    assert a == [a[0]] + a[1..] && b == [b[0]] + b[1..];
    assert multiset(a[1..]) == multiset(a) - multiset{a[0]} == multiset(b) - multiset{b[0]} == multiset(b[1..]);
  }

  lemma SameHead(a: seq<Dev>, b: seq<Dev>)
    requires a != [] && b != [] && Sorted(a) && Sorted(b) && multiset(a) == multiset(b)
    requires DistinctAddresses(a)
    ensures a[0] == b[0]
  {
    hide CompareThem;
    assert a[0] in multiset(b) && b[0] in multiset(a);
    var i :| 0 <= i < |b| && b[i] == a[0];
    var j :| 0 <= j < |a| && a[j] == b[0];
    CompareIsOrder(a[0], b[0], b[0]);
    assert j > 0 ==> CompareThem(a[0], b[0]) <= 0 && CompareThem(a[0], b[0]) != 0;
    assert i > 0 ==> CompareThem(b[0], a[0]) <= 0;
  }

  /** The domains are ints whose unsigned forms differ when they do. */
  ghost predicate WordDomains(scan: seq<Dev>) {
    forall p | p in scan :: -0x8000_0000 <= p.domain < 0x8000_0000
  }

  /** The window of a bridge device. */
  predicate Window(p: Dev, domain: nat, n: nat) {
    p.IsBridge() && p.Domain() == domain && p.secondary <= n <= p.subordinate
  }

  /** q sits behind p: its own bus and its window are inside p's window. */
  predicate Behind(q: Dev, p: Dev) {
    p.secondary <= q.bus <= p.subordinate && p.secondary <= q.secondary && q.subordinate <= p.subordinate
  }

  /** Bridges of one domain whose windows share a bus. */
  predicate Meet(p: Dev, q: Dev) {
    p.IsBridge() && q.IsBridge() && p.Domain() == q.Domain()
    && p.secondary <= q.subordinate && q.secondary <= p.subordinate
  }

  /** Bus numbers as configuration software assigns them: buses behind a bridge
      are numbered above its own, and windows that meet are nested. */
  ghost predicate Nested(scan: seq<Dev>) {
    && (forall p | p in scan && p.IsBridge() :: p.bus < p.secondary <= p.subordinate)
    && (forall i, j :: 0 <= i < j < |scan| && Meet(scan[i], scan[j]) ==>
          Behind(scan[i], scan[j]) || Behind(scan[j], scan[i]))
  }

  /** Among nested windows of a sorted scan, a later one is inside an earlier one. */
  lemma LaterIsNarrower(scan: seq<Dev>, i: nat, j: nat, domain: nat, n: nat)
    requires Sorted(scan) && WordDomains(scan) && Nested(scan) && i < j < |scan|
    requires Window(scan[i], domain, n) && Window(scan[j], domain, n)
    ensures scan[i].secondary < scan[j].secondary && scan[j].subordinate <= scan[i].subordinate
  {
    assert CompareThem(scan[i], scan[j]) <= 0;
    assert scan[i] in scan && scan[j] in scan;
    SameWord(scan[i].domain, scan[j].domain);
  }

  lemma SameWord(a: int, b: int)
    requires -0x8000_0000 <= a < 0x8000_0000 && -0x8000_0000 <= b < 0x8000_0000
    requires a % TWO32 == b % TWO32
    ensures a == b
  {
    assert a % TWO32 == if a < 0 then a + TWO32 else a;
    assert b % TWO32 == if b < 0 then b + TWO32 else b;
  }
}

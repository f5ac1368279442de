/** Where devices end up in the bus tree: the sort order of the scan and the passes
    of grow_tree (src/ls-tree.c) put a device behind the narrowest window that
    contains its bus, unless the host bridge has come to list that bus. */
module Placement {
  import opened CText
  import opened ScanOrder
  import opened Topology

  predicate SameWindow(a: Bridge, b: Bridge) {
    a.domain == b.domain && a.secondary == b.secondary && a.subordinate == b.subordinate
  }

  /** Attaching a device changes no window and no child list, and gives the host
      bridge only buses that it would receive anyway. */
  ghost predicate SameFrame(t: seq<Bridge>, u: seq<Bridge>) {
    && ChildrenExist(u) && |t| == |u| && t[0].child == u[0].child
    && (forall i :: 0 <= i < |u| ==> SameWindow(t[i], u[i]))
    && (forall domain, n :: FindBus(u[0].buses, domain, n) < |u[0].buses| ==>
          FindBus(t[0].buses, domain, n) < |t[0].buses|)
    && (forall domain, n :: FindBus(t[0].buses, domain, n) < |t[0].buses| ==> Receiver(u, domain, n) == 0)
  }

  lemma {:induction false} SameChild(t: seq<Bridge>, u: seq<Bridge>, child: seq<nat>, domain: nat, n: nat)
    requires forall i :: 0 <= i < |child| ==>
               child[i] < |t| && child[i] < |u| && SameWindow(t[child[i]], u[child[i]])
    ensures Child(t, child, domain, n) == Child(u, child, domain, n)
  {
    if child != [] { SameChild(t, u, child[1..], domain, n); }
  }

  lemma SameReceiver(t: seq<Bridge>, u: seq<Bridge>, domain: nat, n: nat)
    requires SameFrame(t, u)
    ensures Receiver(t, domain, n) == Receiver(u, domain, n)
  {
    SameChild(t, u, u[0].child, domain, n);
  }

  lemma SelfFrame(u: seq<Bridge>)
    requires ChildrenExist(u)
    ensures SameFrame(u, u)
  {
  }

  lemma InsertFrame(t: State, u: seq<Bridge>, d: nat)
    requires SameFrame(t.bridges, u) && ChildrenExist(t.bridges) && d < |t.devs|
    ensures SameFrame(Insert(t, d).bridges, u)
  {
    var dom, n := t.devs[d].Domain(), t.devs[d].bus;
    SameReceiver(t.bridges, u, dom, n);
    var r := Receiver(t.bridges, dom, n);
    if r == 0 {
      var before, after := t.bridges[0].buses, Insert(t, d).bridges[0].buses;
      forall domain, n' | FindBus(u[0].buses, domain, n') < |u[0].buses| ensures FindBus(after, domain, n') < |after| {
        JoinFinds(before, dom, n, d, domain, n');
      }
      forall domain, n' | FindBus(after, domain, n') < |after| ensures Receiver(u, domain, n') == 0 {
        JoinedBus(before, dom, n, d, domain, n');
      }
    }
  }

  /** A joined list has no further buses. */
  lemma JoinedBus(buses: seq<Bus>, domain: nat, n: nat, d: nat, dom': nat, n': nat)
    requires var after := Join(buses, domain, n, d); FindBus(after, dom', n') < |after|
    ensures FindBus(buses, dom', n') < |buses| || (dom' == domain && n' == n)
  {
    var after := Join(buses, domain, n, d);
    var k, j := FindBus(buses, domain, n), FindBus(after, dom', n');
    if k < |buses| {
      assert buses[j].domain == dom' && buses[j].number == n';
    } else if j > 0 {
      assert buses[j - 1].domain == dom' && buses[j - 1].number == n';
    }
  }

  lemma InsertPlace(s: State, d: nat)
    requires ChildrenExist(s.bridges) && d < |s.devs|
    ensures var p := s.devs[d];
            Insert(s, d).parent == s.parent[d := Place(Receiver(s.bridges, p.Domain(), p.bus), p.Domain(), p.bus)]
  {
  }

  /** Every device goes where the tree before any insertion would send it. */
  lemma {:induction false} InsertAllPlaces(u: State, d: nat, k: nat)
    requires ChildrenExist(u.bridges) && d + k <= |u.devs|
    requires SameFrame(u.bridges, u.bridges)
    ensures var t := InsertAll(u, d, k);
            && SameFrame(t.bridges, u.bridges)
            && forall x :: d <= x < d + k ==>
                 x in t.parent && t.parent[x].bridge == Receiver(u.bridges, u.devs[x].Domain(), u.devs[x].bus)
    decreases k
  {
    hide SameFrame, Receiver, Join, Insert;
    if k > 0 {
      var t, x := InsertAll(u, d, k - 1), d + k - 1;
      InsertAllPlaces(u, d, k - 1);
      InsertPlace(t, x);
      InsertFrame(t, u.bridges, x);
      SameReceiver(t.bridges, u.bridges, u.devs[x].Domain(), u.devs[x].bus);
    }
  }

  lemma ChildStep(bridges: seq<Bridge>, child: seq<nat>, domain: nat, n: nat)
    requires child != [] && forall i :: 0 <= i < |child| ==> child[i] < |bridges|
    ensures Child(bridges, child, domain, n) ==
            if bridges[child[0]].Covers(domain, n) then Some(child[0]) else Child(bridges, child[1..], domain, n)
  {
  }

  /** Searching the bridges backwards finds the last one that covers the bus. */
  lemma {:induction false} ChildBackwards(bridges: seq<Bridge>, lo: nat, hi: nat, domain: nat, n: nat)
    requires lo <= hi <= |bridges|
    ensures match Child(bridges, Down(lo, hi), domain, n)
            case Some(r) => lo <= r < hi && bridges[r].Covers(domain, n)
                            && forall j :: r < j < hi ==> !bridges[j].Covers(domain, n)
            case None => forall j :: lo <= j < hi ==> !bridges[j].Covers(domain, n)
    decreases hi
  {
    if lo < hi {
      var child := Down(lo, hi);
      assert child[1..] == Down(lo, hi - 1) && child[0] == hi - 1;
      ChildStep(bridges, child, domain, n);
      ChildBackwards(bridges, lo, hi - 1, domain, n);
      hide Child, Down;
    }
  }

  /** Bridge b is the one of the scanned bridge it names; `base` is the number
      of the scan's first device. */
  ghost predicate Stands(b: Bridge, base: nat, scan: seq<Dev>) {
    && b.brDev.Some? && base <= b.brDev.value < base + |scan|
    && var p := scan[b.brDev.value - base];
       p.IsBridge() && b.domain == p.Domain() && b.secondary == p.secondary && b.subordinate == p.subordinate
  }

  /** The number of the device a bridge stands for. */
  function Owner(b: Bridge): int { if b.brDev.Some? then b.brDev.value else -1 }

  /** From number m on, the bridges are those of the scan, all and in its order. */
  ghost predicate InScanOrder(u: seq<Bridge>, m: nat, base: nat, scan: seq<Dev>) {
    && 0 < m <= |u|
    && (forall i :: m <= i < |u| ==> Stands(u[i], base, scan))
    && (forall i, j :: m <= i < j < |u| ==> Owner(u[i]) < Owner(u[j]))
    && (forall q :: 0 <= q < |scan| && scan[q].IsBridge() ==> Represented(u, m, base + q))
  }

  ghost predicate Represented(u: seq<Bridge>, m: nat, d: nat) {
    exists i :: m <= i < |u| && Owner(u[i]) == d
  }

  /** The tree after the first pass over a scan. */
  function Built(s: State, scan: seq<Dev>): State {
    Build(Scanned(s, scan), |s.devs|, |scan|)
  }

  lemma BuiltOrder(s: State, scan: seq<Dev>)
    ensures var t := Built(s, scan);
            && Belong(s.devs + scan, t.bridges, |s.bridges|, |s.devs|, |s.devs| + |scan|)
            && s.bridges <= t.bridges && t.devs == s.devs + scan
  {
    BuildOrder(Scanned(s, scan), |s.devs|, |scan|);
    hide Build, Belong;
  }

  lemma ScanBridges(s: State, scan: seq<Dev>)
    requires |s.bridges| > 0
    ensures var t := Built(s, scan);
            InScanOrder(t.bridges, |s.bridges|, |s.devs|, scan) && s.bridges <= t.bridges && t.devs == s.devs + scan
  {
    hide Built, Belong, Stands, Represented;
    BuiltOrder(s, scan);
    BelongStands(s, Built(s, scan).bridges, scan);
    forall q | 0 <= q < |scan| && scan[q].IsBridge()
      ensures Represented(Built(s, scan).bridges, |s.bridges|, |s.devs| + q)
    {
      ScanNamed(s, scan, q);
    }
  }

  lemma ScanNamed(s: State, scan: seq<Dev>, q: nat)
    requires |s.bridges| > 0 && q < |scan| && scan[q].IsBridge()
    ensures Represented(Built(s, scan).bridges, |s.bridges|, |s.devs| + q)
  {
    hide Build, Represented;
    var s', d := Scanned(s, scan), |s.devs| + q;
    assert s'.devs[d] == scan[q];
    BuildNames(s', |s.devs|, |scan|, d);
    var t := Built(s, scan);
    ShowRepresented(t.bridges, |s.bridges|, d, t.bridgeOf[d]);
  }

  lemma ShowRepresented(u: seq<Bridge>, m: nat, d: nat, i: nat)
    requires m <= i < |u| && u[i].brDev == Some(d)
    ensures Represented(u, m, d)
  {
    assert Owner(u[i]) == d;
  }

  lemma BelongStands(s: State, bridges: seq<Bridge>, scan: seq<Dev>)
    requires Belong(s.devs + scan, bridges, |s.bridges|, |s.devs|, |s.devs| + |scan|)
    ensures forall i :: |s.bridges| <= i < |bridges| ==> Stands(bridges[i], |s.devs|, scan)
    ensures forall i, j :: |s.bridges| <= i < j < |bridges| ==> Owner(bridges[i]) < Owner(bridges[j])
  {
    forall i | |s.bridges| <= i < |bridges| ensures Stands(bridges[i], |s.devs|, scan) {
      var d := bridges[i].brDev.value;
      assert (s.devs + scan)[d] == scan[d - |s.devs|];
    }
  }

  /** Windows and owners are untouched by the second and third pass. */
  lemma SameScanOrder(t: seq<Bridge>, u: seq<Bridge>, m: nat, base: nat, scan: seq<Dev>)
    requires InScanOrder(t, m, base, scan) && |u| == |t|
    requires forall i :: m <= i < |t| ==> u[i] == WithSecondary(t[i])
    ensures InScanOrder(u, m, base, scan)
  {
    hide WithSecondary, Stands, Owner;
    forall i | m <= i < |u| ensures Stands(u[i], base, scan) && Owner(u[i]) == Owner(t[i]) {
      assert Stands(t[i], base, scan);
      SameStands(t[i], base, scan);
    }
    forall q | 0 <= q < |scan| && scan[q].IsBridge() ensures Represented(u, m, base + q) {
      assert Represented(t, m, base + q);
      var i :| m <= i < |t| && Owner(t[i]) == base + q;
      assert Owner(u[i]) == base + q;
    }
  }

  lemma SameStands(b: Bridge, base: nat, scan: seq<Dev>)
    ensures Stands(WithSecondary(b), base, scan) == Stands(b, base, scan) && Owner(WithSecondary(b)) == Owner(b)
  {
    hide FindBus;
  }

  /** The tree before devices are attached: what the scan added, behind it the
      bridges of earlier scans as they were, and the host's children newest first. */
  ghost predicate Frame(s: State, u: seq<Bridge>, scan: seq<Dev>) {
    && |s.bridges| > 0 && InScanOrder(u, |s.bridges|, |s.devs|, scan)
    && (forall i :: 0 < i < |s.bridges| ==> u[i] == s.bridges[i])
    && u[0] == WithSecondary(s.bridges[0].(child := Down(|s.bridges|, |u|) + s.bridges[0].child))
  }

  lemma ScanFrame(s: State, scan: seq<Dev>)
    requires |s.bridges| > 0
    ensures Frame(s, Framed(s, scan).bridges, scan) && Framed(s, scan).devs == s.devs + scan
  {
    hide Build, Down, InScanOrder, WithSecondary;
    ScanBridges(s, scan);
    var m := |s.bridges|;
    var t := Built(s, scan);
    var h := Hang(t, m);
    var u := Seconds(h, m, |t.bridges| - m);
    assert Framed(s, scan) == u;
    SameScanOrder(t.bridges, u.bridges, m, |s.devs|, scan);
  }

  /** The host bridge lists the bus: bus 0 of domain 0, which is its own, or one
      that an earlier scan left on its list. */
  predicate HostLists(s: State, domain: nat, n: nat)
    requires |s.bridges| > 0
  {
    (domain == 0 && n == 0) || FindBus(s.bridges[0].buses, domain, n) < |s.bridges[0].buses|
  }

  /** Some bridge of the scan has the bus in its window. */
  ghost predicate Covered(scan: seq<Dev>, domain: nat, n: nat) {
    exists q :: 0 <= q < |scan| && Window(scan[q], domain, n)
  }

  /** The bridge of earlier scans whose window contains the bus, or the host bridge. */
  function Earlier(s: State, domain: nat, n: nat): (r: nat)
    requires ChildrenExist(s.bridges)
    ensures r < |s.bridges|
  {
    var c := Child(s.bridges, s.bridges[0].child, domain, n);
    if c == None then 0 else c.value
  }

  /** w is the last scanned window that contains the bus, -1 when none does. */
  ghost predicate LastCover(w: int, scan: seq<Dev>, domain: nat, n: nat) {
    && -1 <= w < |scan|
    && (w >= 0 ==> Window(scan[w], domain, n))
    && forall q :: 0 <= q < |scan| && q > w ==> !Window(scan[q], domain, n)
  }

  lemma {:induction false} ChildConcat(bridges: seq<Bridge>, a: seq<nat>, b: seq<nat>, domain: nat, n: nat)
    requires forall i :: 0 <= i < |a| ==> a[i] < |bridges|
    requires forall i :: 0 <= i < |b| ==> b[i] < |bridges|
    ensures forall i :: 0 <= i < |a + b| ==> (a + b)[i] < |bridges|
    ensures Child(bridges, a + b, domain, n) ==
            var c := Child(bridges, a, domain, n); if c == None then Child(bridges, b, domain, n) else c
  {
    if a == [] {
      assert a + b == b;
    } else {
      ChildConcat(bridges, a[1..], b, domain, n);
      ChildStep(bridges, a, domain, n);
      assert (a + b)[1..] == a[1..] + b && (a + b)[0] == a[0];
      ChildStep(bridges, a + b, domain, n);
      hide Child;
    }
  }

  /** The bridges of the scan are searched before those of earlier scans, the
      last one of the scan first. */
  lemma ScanChild(s: State, u: seq<Bridge>, scan: seq<Dev>, dom: nat, n: nat)
    requires Frame(s, u, scan) && ChildrenExist(s.bridges)
    ensures ChildrenExist(u)
    ensures var c := Child(u, u[0].child, dom, n);
            if Covered(scan, dom, n)
            then c.Some? && c.value >= |s.bridges| && LastCover(Owner(u[c.value]) - |s.devs|, scan, dom, n)
            else (if c == None then 0 else c.value) == Earlier(s, dom, n)
  {
    hide Child, Down, WithSecondary, InScanOrder, Covered, LastCover;
    var m, child := |s.bridges|, s.bridges[0].child;
    HostChild(s.bridges[0].(child := Down(m, |u|) + child));
    assert m <= |u| by { FrameLonger(s, u, scan); }
    assert u[0].child == Down(m, |u|) + child;
    ChildConcat(u, Down(m, |u|), child, dom, n);
    LatestChild(u, m, |s.devs|, scan, dom, n);
    forall i | 0 <= i < |child| ensures SameWindow(u[child[i]], s.bridges[child[i]]) { }
    SameChild(u, s.bridges, child, dom, n);
  }

  lemma FrameLonger(s: State, u: seq<Bridge>, scan: seq<Dev>)
    requires Frame(s, u, scan)
    ensures |s.bridges| <= |u|
  {
  }

  lemma LatestChild(u: seq<Bridge>, m: nat, base: nat, scan: seq<Dev>, dom: nat, n: nat)
    requires InScanOrder(u, m, base, scan)
    ensures var c := Child(u, Down(m, |u|), dom, n);
            if Covered(scan, dom, n)
            then c.Some? && c.value >= m && LastCover(Owner(u[c.value]) - base, scan, dom, n)
            else c == None
  {
    hide Child, Down, InScanOrder, Stands, Represented, Window;
    ScanOrderBound(u, m, base, scan);
    ChildBackwards(u, m, |u|, dom, n);
    var c := Child(u, Down(m, |u|), dom, n);
    forall q | 0 <= q < |scan| && Window(scan[q], dom, n) ensures c.Some? && q <= Owner(u[c.value]) - base {
      var i := WindowBridge(u, m, base, scan, q, dom, n);
      if c.Some? { OwnersRise(u, m, base, scan, i, c.value); }
    }
    if c.Some? { BridgeWindow(u, m, base, scan, c.value, dom, n); }
  }

  lemma ScanOrderBound(u: seq<Bridge>, m: nat, base: nat, scan: seq<Dev>)
    requires InScanOrder(u, m, base, scan)
    ensures m <= |u|
  {
  }

  lemma OwnersRise(u: seq<Bridge>, m: nat, base: nat, scan: seq<Dev>, i: nat, j: nat)
    requires InScanOrder(u, m, base, scan) && m <= i <= j < |u|
    ensures Owner(u[i]) <= Owner(u[j])
  {
    hide Stands, Represented;
  }

  /** The bridge of a scanned window, and the scanned window of a bridge. */
  lemma WindowBridge(u: seq<Bridge>, m: nat, base: nat, scan: seq<Dev>, q: nat, dom: nat, n: nat) returns (i: nat)
    requires InScanOrder(u, m, base, scan) && q < |scan| && Window(scan[q], dom, n)
    ensures m <= i < |u| && Owner(u[i]) == base + q && u[i].Covers(dom, n)
  {
    hide Stands;
    assert Represented(u, m, base + q);
    i :| m <= i < |u| && Owner(u[i]) == base + q;
    assert Stands(u[i], base, scan);
    hide InScanOrder;
    StandsCovers(u[i], base, scan, dom, n);
  }

  lemma BridgeWindow(u: seq<Bridge>, m: nat, base: nat, scan: seq<Dev>, i: nat, dom: nat, n: nat)
    requires InScanOrder(u, m, base, scan) && m <= i < |u| && u[i].Covers(dom, n)
    ensures base <= Owner(u[i]) < base + |scan| && Window(scan[Owner(u[i]) - base], dom, n)
  {
    hide Stands, Represented;
    assert Stands(u[i], base, scan);
    StandsCovers(u[i], base, scan, dom, n);
  }

  lemma StandsCovers(b: Bridge, base: nat, scan: seq<Dev>, dom: nat, n: nat)
    requires Stands(b, base, scan)
    ensures base <= Owner(b) < base + |scan| && (b.Covers(dom, n) <==> Window(scan[Owner(b) - base], dom, n))
  {
  }

  lemma HostChild(b: Bridge)
    ensures WithSecondary(b).child == b.child && SameWindow(WithSecondary(b), b)
  {
  }

  /** Before any device of the scan is attached, the host bridge lists its own
      bus and those of earlier scans. */
  lemma HostLists0(s: State, u: seq<Bridge>, scan: seq<Dev>, dom: nat, n: nat)
    requires Shape(s) && Frame(s, u, scan)
    ensures FindBus(u[0].buses, dom, n) < |u[0].buses| <==> HostLists(s, dom, n)
  {
    hide InScanOrder, Shape;
    var b := s.bridges[0].(child := Down(|s.bridges|, |u|) + s.bridges[0].child);
    assert b.domain == 0 && b.secondary == 0 by { HostZero(s); }
    SecondaryLists(b, dom, n);
  }

  lemma HostZero(s: State)
    requires Shape(s)
    ensures s.bridges[0].domain == 0 && s.bridges[0].secondary == 0 && s.bridges[0].brDev == None
  {
  }

  lemma SecondaryLists(b: Bridge, dom: nat, n: nat)
    ensures var after := WithSecondary(b).buses;
            FindBus(after, dom, n) < |after| <==>
              (dom == b.domain && n == b.secondary) || FindBus(b.buses, dom, n) < |b.buses|
  {
    var after := WithSecondary(b).buses;
    if FindBus(b.buses, dom, n) < |b.buses| { SecondaryFinds(b, dom, n); }
    if FindBus(after, dom, n) < |after| && after != b.buses {
      var k := FindBus(after, dom, n);
      if k > 0 { assert b.buses[k - 1].domain == dom && b.buses[k - 1].number == n; }
    }
    if dom == b.domain && n == b.secondary && after != b.buses {
      assert after[0].domain == dom && after[0].number == n;
    }
  }

  /* ---- where a device goes, on any scan ---- */

  /** On every scan, from every tree: a bus that the host bridge lists keeps its
      devices there. Otherwise the last scanned window that contains the bus gets
      the device, and without one the newest earlier window that does, or the host
      bridge. */
  lemma WherePlaced(s: State, scan: seq<Dev>, x: nat)
    requires Shape(s) && x < |scan|
    ensures var t, d := Grow(s, scan), |s.devs| + x;
            var dom, n := scan[x].Domain(), scan[x].bus;
            ChildrenExist(s.bridges) && d in t.parent && t.parent[d].bridge < |t.bridges| &&
            var r := t.parent[d].bridge;
            if HostLists(s, dom, n) then r == 0
            else if Covered(scan, dom, n)
            then r >= |s.bridges| && LastCover(Owner(t.bridges[r]) - |s.devs|, scan, dom, n)
            else r == Earlier(s, dom, n)
  {
    hide Framed, InsertAll, Frame, Shape, Receiver, HostLists, LastCover;
    var base, dom, n := |s.devs|, scan[x].Domain(), scan[x].bus;
    ShapeChildren(s);
    FramedShape(s, scan);
    var u := Framed(s, scan);
    ShapeChildren(u);
    assert u.devs[base + x] == scan[x];
    SelfFrame(u.bridges);
    InsertAllPlaces(u, base, |scan|);
    InsertAllBridges(u, base, |scan|);
    ScanFrame(s, scan);
    FrameReceiver(s, u.bridges, scan, dom, n);
    var t := InsertAll(u, base, |scan|);
    assert t.parent[base + x].bridge == Receiver(u.bridges, dom, n);
  }

  lemma FrameReceiver(s: State, u: seq<Bridge>, scan: seq<Dev>, dom: nat, n: nat)
    requires Shape(s) && Frame(s, u, scan)
    ensures ChildrenExist(s.bridges) && ChildrenExist(u)
    ensures var r := Receiver(u, dom, n);
            if HostLists(s, dom, n) then r == 0
            else if Covered(scan, dom, n)
            then r >= |s.bridges| && LastCover(Owner(u[r]) - |s.devs|, scan, dom, n)
            else r == Earlier(s, dom, n)
  {
    hide Shape, Frame, HostLists, Covered, LastCover;
    ShapeChildren(s);
    ScanChild(s, u, scan, dom, n);
    HostLists0(s, u, scan, dom, n);
  }

  /** w is a scanned window that contains the bus, and strictly inside all others that do. */
  ghost predicate NarrowestCover(w: int, scan: seq<Dev>, domain: nat, n: nat) {
    && 0 <= w < |scan| && Window(scan[w], domain, n)
    && forall q :: 0 <= q < |scan| && q != w && Window(scan[q], domain, n) ==>
         scan[q].secondary < scan[w].secondary && scan[w].subordinate <= scan[q].subordinate
  }

  /** In a sorted scan with nested windows the last covering window is the
      narrowest one. */
  lemma LastIsNarrowest(w: int, scan: seq<Dev>, dom: nat, n: nat)
    requires Sorted(scan) && WordDomains(scan) && Nested(scan)
    requires LastCover(w, scan, dom, n) && Covered(scan, dom, n)
    ensures NarrowestCover(w, scan, dom, n)
  {
    var q0 :| 0 <= q0 < |scan| && Window(scan[q0], dom, n);
    assert w >= q0;
    forall q | 0 <= q < |scan| && q != w && Window(scan[q], dom, n)
      ensures scan[q].secondary < scan[w].secondary && scan[w].subordinate <= scan[q].subordinate
    {
      assert q < w;
      LaterIsNarrower(scan, q, w, dom, n);
    }
  }

  /** Grown by the scan, the tree has device x of it behind the narrowest window
      of the scan that contains its bus. */
  ghost predicate BehindNarrowest(s: State, scan: seq<Dev>, x: nat)
    requires Shape(s) && x < |scan|
  {
    var t, d := Grow(s, scan), |s.devs| + x;
    && d in t.parent && t.parent[d].bridge < |t.bridges|
    && NarrowestCover(Owner(t.bridges[t.parent[d].bridge]) - |s.devs|, scan, scan[x].Domain(), scan[x].bus)
  }

  /** On every scan that is sorted and has nested windows, a device whose bus is
      in a window goes behind the narrowest such window if and only if the host
      bridge does not list the bus. */
  lemma PlacementIff(s: State, scan: seq<Dev>, x: nat)
    requires Shape(s) && x < |scan| && Sorted(scan) && WordDomains(scan) && Nested(scan)
    requires Covered(scan, scan[x].Domain(), scan[x].bus)
    ensures |s.bridges| > 0
    ensures BehindNarrowest(s, scan, x) <==> !HostLists(s, scan[x].Domain(), scan[x].bus)
  {
    hide Grow, Shape, NarrowestCover, LastCover, Sorted, WordDomains, Nested;
    WherePlaced(s, scan, x);
    GrowKeeps(s, scan);
    var t, dom, n := Grow(s, scan), scan[x].Domain(), scan[x].bus;
    var r := t.parent[|s.devs| + x].bridge;
    if HostLists(s, dom, n) {
      HostZero(t);
      NotNarrowest(-1 - |s.devs|, scan, dom, n);
    } else {
      LastIsNarrowest(Owner(t.bridges[r]) - |s.devs|, scan, dom, n);
    }
  }

  lemma NotNarrowest(w: int, scan: seq<Dev>, dom: nat, n: nat)
    requires w < 0
    ensures !NarrowestCover(w, scan, dom, n)
  {
  }

  /** On the first scan the host bridge lists no bus but its own, which no window
      contains: every device is behind the narrowest window that contains its bus,
      or on a host bus exactly when there is none. */
  lemma FirstPlacement(scan: seq<Dev>, x: nat)
    requires Sorted(scan) && WordDomains(scan) && Nested(scan) && x < |scan|
    ensures Shape(EMPTY)
    ensures var t := Grow(EMPTY, scan);
            var dom, n := scan[x].Domain(), scan[x].bus;
            x in t.parent && t.parent[x].bridge < |t.bridges| &&
            var r := t.parent[x].bridge;
            && (r == 0 <==> !Covered(scan, dom, n))
            && (r > 0 ==> NarrowestCover(Owner(t.bridges[r]), scan, dom, n))
  {
    hide Grow, NarrowestCover, Sorted, WordDomains;
    var dom, n := scan[x].Domain(), scan[x].bus;
    assert Shape(EMPTY);
    WherePlaced(EMPTY, scan, x);
    if Covered(scan, dom, n) { PlacementIff(EMPTY, scan, x); }
  }

  /* ---- bridges and their devices ---- */

  /** Bridges of this scan are told apart by their devices. */
  lemma Owners(s: State, scan: seq<Dev>)
    requires Shape(s)
    ensures var t := Grow(s, scan);
            && (forall i, j :: |s.bridges| <= i < j < |t.bridges| ==> Owner(t.bridges[i]) < Owner(t.bridges[j]))
            && forall q :: 0 <= q < |scan| && scan[q].IsBridge() ==> Named(t, |s.bridges|, |s.devs| + q)
  {
    hide InsertAll, Build, Shape, Framed, Stands, Represented, Down, WithSecondary;
    ShapeChildren(s);
    FramedShape(s, scan);
    var u, base, s' := Framed(s, scan), |s.devs|, Scanned(s, scan);
    ScanFrame(s, scan);
    ShapeChildren(u);
    InsertAllBridges(u, base, |scan|);
    InsertAllShape(u, base, |scan|);
    forall q | 0 <= q < |scan| && scan[q].IsBridge() ensures Named(Grow(s, scan), |s.bridges|, base + q) {
      FramedNames(s, scan, q);
    }
  }

  lemma FramedNames(s: State, scan: seq<Dev>, q: nat)
    requires |s.bridges| > 0 && q < |scan| && scan[q].IsBridge()
    ensures Named(Framed(s, scan), |s.bridges|, |s.devs| + q)
  {
    hide Build, Down, FindBus;
    var s' := Scanned(s, scan);
    assert s'.devs[|s.devs| + q] == scan[q];
    BuildNames(s', |s.devs|, |scan|, |s.devs| + q);
  }

  /** d->bridge is a bridge from number m on, and stands for d. */
  ghost predicate Named(t: State, m: nat, d: nat) {
    d in t.bridgeOf && m <= t.bridgeOf[d] < |t.bridges| && Owner(t.bridges[t.bridgeOf[d]]) == d
  }

  /** The bridges added by a scan stand for devices of that scan, and the host
      bridge for none. */
  lemma OwnersInScan(s: State, scan: seq<Dev>)
    requires Shape(s)
    ensures var t := Grow(s, scan);
            && |t.bridges| > 0 && t.bridges[0].brDev == None
            && forall i :: |s.bridges| <= i < |t.bridges| ==> |s.devs| <= Owner(t.bridges[i]) < |s.devs| + |scan|
  {
    hide InsertAll, Build, Shape, Framed, Represented, Down, WithSecondary;
    ShapeChildren(s);
    GrowKeeps(s, scan);
    HostZero(Grow(s, scan));
    ShapeChildren(Grow(s, scan));
    FramedShape(s, scan);
    var u, base := Framed(s, scan), |s.devs|;
    ScanFrame(s, scan);
    ShapeChildren(u);
    InsertAllBridges(u, base, |scan|);
    forall i | |s.bridges| <= i < |u.bridges| ensures base <= Owner(u.bridges[i]) < base + |scan| {
      assert Stands(u.bridges[i], base, scan);
    }
  }

  lemma OneNarrowest(v: int, w: int, scan: seq<Dev>, dom: nat, n: nat)
    requires NarrowestCover(v, scan, dom, n) && NarrowestCover(w, scan, dom, n)
    ensures v == w
  {
  }

  /** Device x is attached to the bridge of device q exactly when that window is
      its narrowest and the host bridge does not list its bus. */
  lemma BehindBridge(s: State, scan: seq<Dev>, q: nat, x: nat)
    requires Shape(s) && q < |scan| && x < |scan| && scan[q].IsBridge()
    requires Sorted(scan) && WordDomains(scan) && Nested(scan)
    ensures |s.bridges| > 0
    ensures var t := Grow(s, scan);
            var dom, n := scan[x].Domain(), scan[x].bus;
            && |s.devs| + q in t.bridgeOf && |s.devs| + x in t.parent
            && (t.parent[|s.devs| + x].bridge == t.bridgeOf[|s.devs| + q] <==>
                  NarrowestCover(q, scan, dom, n) && !HostLists(s, dom, n))
  {
    hide Grow, Shape, LastCover, Sorted, WordDomains, Nested, HostLists, NarrowestCover;
    WherePlaced(s, scan, x);
    Owners(s, scan);
    var t, base, dom, n := Grow(s, scan), |s.devs|, scan[x].Domain(), scan[x].bus;
    assert Named(t, |s.bridges|, base + q);
    var r, b := t.parent[base + x].bridge, t.bridgeOf[base + q];
    if NarrowestCover(q, scan, dom, n) { NarrowestCovers(q, scan, dom, n); }
    if Covered(scan, dom, n) && !HostLists(s, dom, n) {
      LastIsNarrowest(Owner(t.bridges[r]) - base, scan, dom, n);
      if NarrowestCover(q, scan, dom, n) {
        OneNarrowest(q, Owner(t.bridges[r]) - base, scan, dom, n);
        assert r == b by { assert !(r < b) && !(b < r); }
      }
    }
  }

  lemma NarrowestCovers(q: int, scan: seq<Dev>, dom: nat, n: nat)
    requires NarrowestCover(q, scan, dom, n)
    ensures Covered(scan, dom, n)
  {
  }

  lemma {:induction false} InsertAllBridges(s: State, d: nat, k: nat)
    requires ChildrenExist(s.bridges) && d + k <= |s.devs|
    ensures forall i :: 0 <= i < |s.bridges| ==> InsertAll(s, d, k).bridges[i].brDev == s.bridges[i].brDev
    decreases k
  {
    hide Receiver, Join;
    if k > 0 { InsertAllBridges(s, d, k - 1); }
  }
}

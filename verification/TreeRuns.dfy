/** The bus tree over whole runs: which buses the host bridge comes to list, as a
    condition on the scans alone, and what that means for placement and hubs. */
module TreeRuns {
  import opened Config
  import opened CText
  import opened Placement
  import opened ScanOrder
  import opened Topology

  /* ---- which buses the host bridge comes to list ---- */

  /** Attaching k devices adds exactly the buses of those that go to the host bridge. */
  lemma {:induction false} HostGains(u: State, d: nat, k: nat, dom: nat, n: nat)
    requires ChildrenExist(u.bridges) && d + k <= |u.devs|
    ensures var after := InsertAll(u, d, k).bridges[0].buses;
            FindBus(after, dom, n) < |after| <==>
              FindBus(u.bridges[0].buses, dom, n) < |u.bridges[0].buses| || GivesHost(u, d, k, dom, n)
    decreases k
  {
    hide SameFrame, Receiver, Join, FindBus;
    if k > 0 {
      var t, x := InsertAll(u, d, k - 1), d + k - 1;
      HostGains(u, d, k - 1, dom, n);
      SelfFrame(u.bridges);
      InsertAllPlaces(u, d, k - 1);
      var dom', n' := u.devs[x].Domain(), u.devs[x].bus;
      SameReceiver(t.bridges, u.bridges, dom', n');
      if Receiver(t.bridges, dom', n') == 0 { JoinLists(t.bridges[0].buses, dom', n', x, dom, n); }
      GivesMore(u, d, k, dom, n);
      hide GivesHost;
    }
  }

  lemma JoinLists(buses: seq<Bus>, domain: nat, n: nat, d: nat, dom': nat, n': nat)
    ensures var after := Join(buses, domain, n, d);
            FindBus(after, dom', n') < |after| <==> FindBus(buses, dom', n') < |buses| || (dom' == domain && n' == n)
  {
    hide Join, FindBus;
    var after := Join(buses, domain, n, d);
    if FindBus(after, dom', n') < |after| { JoinedBus(buses, domain, n, d, dom', n'); }
    if FindBus(buses, dom', n') < |buses| || (dom' == domain && n' == n) { JoinFinds(buses, domain, n, d, dom', n'); }
  }

  ghost predicate GivesHost(u: State, d: nat, k: nat, dom: nat, n: nat)
    requires ChildrenExist(u.bridges) && d + k <= |u.devs|
  {
    exists x :: d <= x < d + k && u.devs[x].Domain() == dom && u.devs[x].bus == n && Receiver(u.bridges, dom, n) == 0
  }

  lemma GivesMore(u: State, d: nat, k: nat, dom: nat, n: nat)
    requires ChildrenExist(u.bridges) && d + k <= |u.devs| && k > 0
    ensures var p := u.devs[d + k - 1];
            GivesHost(u, d, k, dom, n) <==>
              (GivesHost(u, d, k - 1, dom, n) || (p.Domain() == dom && p.bus == n && Receiver(u.bridges, dom, n) == 0))
  {
    hide Receiver;
  }

  /** A device of the scan is on the bus. */
  ghost predicate Populated(scan: seq<Dev>, dom: nat, n: nat) {
    exists x :: 0 <= x < |scan| && scan[x].Domain() == dom && scan[x].bus == n
  }

  /** A scan puts a bus on the host bridge's list when a device is on it and no
      window, of this scan or of earlier ones, contains it. */
  lemma HostListsGrow(s: State, scan: seq<Dev>, dom: nat, n: nat)
    requires Shape(s)
    ensures ChildrenExist(s.bridges) && |Grow(s, scan).bridges| > 0
    ensures HostLists(Grow(s, scan), dom, n) <==>
              HostLists(s, dom, n) || (Populated(scan, dom, n) && !Covered(scan, dom, n) && Earlier(s, dom, n) == 0)
  {
    hide Framed, InsertAll, Frame, Shape, Receiver, LastCover, Covered, FindBus;
    ShapeChildren(s);
    FramedShape(s, scan);
    var u, base := Framed(s, scan), |s.devs|;
    ShapeChildren(u);
    ScanFrame(s, scan);
    HostLists0(s, u.bridges, scan, dom, n);
    FrameReceiver(s, u.bridges, scan, dom, n);
    HostGains(u, base, |scan|, dom, n);
    if Populated(scan, dom, n) {
      var x :| 0 <= x < |scan| && scan[x].Domain() == dom && scan[x].bus == n;
      assert u.devs[base + x] == scan[x];
    }
    if GivesHost(u, base, |scan|, dom, n) {
      var x :| base <= x < base + |scan| && u.devs[x].Domain() == dom && u.devs[x].bus == n;
      assert u.devs[x] == scan[x - base];
    }
  }

  /** Every window of a scan stays searchable on later scans. */
  lemma EarlierGrow(s: State, scan: seq<Dev>, dom: nat, n: nat)
    requires Shape(s)
    ensures ChildrenExist(s.bridges) && ChildrenExist(Grow(s, scan).bridges)
    ensures Earlier(Grow(s, scan), dom, n) != 0 <==> Covered(scan, dom, n) || Earlier(s, dom, n) != 0
  {
    hide Framed, InsertAll, Frame, Shape, Receiver, LastCover, Covered, Child;
    ShapeChildren(s);
    FramedShape(s, scan);
    var u, base := Framed(s, scan), |s.devs|;
    ShapeChildren(u);
    ScanFrame(s, scan);
    SelfFrame(u.bridges);
    InsertAllPlaces(u, base, |scan|);
    var t := InsertAll(u, base, |scan|);
    ScanChild(s, u.bridges, scan, dom, n);
    forall i | 0 <= i < |u.bridges[0].child|
      ensures SameWindow(t.bridges[u.bridges[0].child[i]], u.bridges[u.bridges[0].child[i]]) { }
    SameChild(t.bridges, u.bridges, u.bridges[0].child, dom, n);
  }

  /* ---- whole runs ---- */

  /** The tree after these scans. */
  function TreeAfter(scans: seq<seq<Dev>>): (s: State)
    ensures Shape(s) && Hubs(s)
  {
    if scans == [] then EMPTY
    else
      GrowKeeps(TreeAfter(scans[..|scans| - 1]), scans[|scans| - 1]);
      GrowHubs(TreeAfter(scans[..|scans| - 1]), scans[|scans| - 1]);
      Grow(TreeAfter(scans[..|scans| - 1]), scans[|scans| - 1])
  }

  /** No scan up to number k has a window that contains the bus. */
  ghost predicate Uncovered(scans: seq<seq<Dev>>, k: nat, dom: nat, n: nat)
    requires k <= |scans|
  {
    forall j :: 0 <= j < k ==> !Covered(scans[j], dom, n)
  }

  /** Some scan found a device on the bus before any window contained it. */
  ghost predicate Stranded(scans: seq<seq<Dev>>, dom: nat, n: nat) {
    exists k :: 0 <= k < |scans| && Populated(scans[k], dom, n) && Uncovered(scans, k + 1, dom, n)
  }

  lemma {:induction false} EarlierOverRuns(scans: seq<seq<Dev>>, dom: nat, n: nat)
    ensures ChildrenExist(TreeAfter(scans).bridges)
    ensures Earlier(TreeAfter(scans), dom, n) == 0 <==> Uncovered(scans, |scans|, dom, n)
  {
    hide Shape, Grow, Covered;
    ShapeChildren(TreeAfter(scans));
    if scans == [] {
      assert Child([HOST], [], dom, n) == None;
    } else {
      var before := scans[..|scans| - 1];
      EarlierOverRuns(before, dom, n);
      EarlierGrow(TreeAfter(before), scans[|scans| - 1], dom, n);
      hide Earlier;
      assert forall j :: 0 <= j < |before| ==> before[j] == scans[j];
    }
  }

  /** Over every run, the host bridge lists a bus exactly when it is its own, or
      when some scan found a device on it before any window contained it. */
  lemma {:induction false} HostListsOverRuns(scans: seq<seq<Dev>>, dom: nat, n: nat)
    ensures |TreeAfter(scans).bridges| > 0
    ensures HostLists(TreeAfter(scans), dom, n) <==> (dom == 0 && n == 0) || Stranded(scans, dom, n)
  {
    hide Shape, Grow, Covered, Populated, Earlier;
    ShapeChildren(TreeAfter(scans));
    if scans != [] {
      var before, scan := scans[..|scans| - 1], scans[|scans| - 1];
      HostListsOverRuns(before, dom, n);
      EarlierOverRuns(before, dom, n);
      HostListsGrow(TreeAfter(before), scan, dom, n);
      StrandedGrows(scans, dom, n);
      hide HostLists, Stranded, Uncovered;
    }
  }

  lemma StrandedGrows(scans: seq<seq<Dev>>, dom: nat, n: nat)
    requires scans != []
    ensures var before, scan := scans[..|scans| - 1], scans[|scans| - 1];
            Stranded(scans, dom, n) <==>
              (Stranded(before, dom, n)
               || (Populated(scan, dom, n) && !Covered(scan, dom, n) && Uncovered(before, |before|, dom, n)))
  {
    hide Covered, Populated;
    var before, scan := scans[..|scans| - 1], scans[|scans| - 1];
    forall k | 0 < k <= |before| ensures Uncovered(scans, k, dom, n) <==> Uncovered(before, k, dom, n) {
      assert forall j :: 0 <= j < k ==> before[j] == scans[j];
    }
    assert Uncovered(scans, |scans|, dom, n) <==> !Covered(scan, dom, n) && Uncovered(before, |before|, dom, n) by {
      assert forall j :: 0 <= j < |before| ==> before[j] == scans[j];
    }
    if Stranded(before, dom, n) {
      var k :| 0 <= k < |before| && Populated(before[k], dom, n) && Uncovered(before, k + 1, dom, n);
      assert Populated(scans[k], dom, n) && Uncovered(scans, k + 1, dom, n);
    }
    if Stranded(scans, dom, n) {
      var k :| 0 <= k < |scans| && Populated(scans[k], dom, n) && Uncovered(scans, k + 1, dom, n);
      if k < |before| { assert Populated(before[k], dom, n) && Uncovered(before, k + 1, dom, n); }
    }
  }

  /** Over every run: on any sorted scan with nested windows, a device whose bus
      is in a window is behind the narrowest one if and only if its bus is not the
      host's own and no earlier scan found a device on it uncovered. */
  lemma PlacementOverRuns(scans: seq<seq<Dev>>, scan: seq<Dev>, x: nat)
    requires x < |scan| && Sorted(scan) && WordDomains(scan) && Nested(scan)
    requires Covered(scan, scan[x].Domain(), scan[x].bus)
    ensures var dom, n := scan[x].Domain(), scan[x].bus;
            BehindNarrowest(TreeAfter(scans), scan, x) <==> !(dom == 0 && n == 0) && !Stranded(scans, dom, n)
  {
    hide Grow, Shape, Hubs, BehindNarrowest, Stranded, HostLists, Sorted, WordDomains, Nested, Covered;
    PlacementIff(TreeAfter(scans), scan, x);
    HostListsOverRuns(scans, scan[x].Domain(), scan[x].bus);
  }

  /** On any tick of any run, a hub is alive exactly when a device of the scan has
      the port's window as its narrowest one, and its bus was never stranded. */
  lemma HubAliveOverRuns(scans: seq<seq<Dev>>, scan: seq<Dev>, q: nat)
    requires q < |scan| && scan[q].IsBridge() && Sorted(scan) && WordDomains(scan) && Nested(scan)
    ensures HubUp(Grow(TreeAfter(scans), scan), |TreeAfter(scans).devs| + q) <==>
              exists x :: 0 <= x < |scan| && BehindPort(scans, scan, q, x)
  {
    hide Grow, Shape, Hubs, Sorted, WordDomains, Nested, HostLists, NarrowestCover, Stranded;
    var s := TreeAfter(scans);
    var t, base := Grow(s, scan), |s.devs|;
    HubAliveIff(s, scan, base + q);
    GrowKeeps(s, scan);
    forall x | 0 <= x < |scan|
      ensures base + x in t.parent && base + q in t.bridgeOf
      ensures t.parent[base + x].bridge == t.bridgeOf[base + q] <==> BehindPort(scans, scan, q, x)
    {
      BehindBridge(s, scan, q, x);
      HostListsOverRuns(scans, scan[x].Domain(), scan[x].bus);
    }
    hide BehindPort;
    if HubUp(t, base + q) {
      var e :| base <= e < |t.devs| && e in t.parent && t.parent[e].bridge == t.bridgeOf[base + q];
      assert BehindPort(scans, scan, q, e - base);
    }
    if x :| 0 <= x < |scan| && BehindPort(scans, scan, q, x) {
      assert t.parent[base + x].bridge == t.bridgeOf[base + q];
    }
  }

  /** Device x counts for the hub of device q. */
  ghost predicate BehindPort(scans: seq<seq<Dev>>, scan: seq<Dev>, q: nat, x: nat)
    requires x < |scan|
  {
    var dom, n := scan[x].Domain(), scan[x].bus;
    NarrowestCover(q, scan, dom, n) && !(dom == 0 && n == 0) && !Stranded(scans, dom, n)
  }

  /* ---- a hub found before a window contained its bus ---- */

  /** A bridge, a bridge behind it, and a hub; then the two bridges as they were
      numbered before, when no window contained the hub's bus. */
  const OUTER := Dev(0, 0, 1, 0, 0x0604, HEADER_BRIDGE, 0, 1, 3)
  const INNER := Dev(0, 1, 0, 0, 0x0604, HEADER_BRIDGE, 1, 2, 3)
  const HUB := Dev(0, 2, 0, 0, 0x0c03, 0, 0, 0, 0)
  const OUTER0 := Dev(0, 0, 1, 0, 0x0604, HEADER_BRIDGE, 0, 1, 1)
  const INNER0 := Dev(0, 1, 0, 0, 0x0604, HEADER_BRIDGE, 1, 4, 4)

  lemma HubWindows()
    ensures var scan := [OUTER, INNER, HUB];
            && Sorted(scan) && WordDomains(scan) && Nested(scan)
            && (forall n :: NarrowestCover(1, scan, 0, n) <==> 2 <= n <= 3)
  {
    var scan := [OUTER, INNER, HUB];
    assert scan[0] == OUTER && scan[1] == INNER && scan[2] == HUB;
    forall n ensures NarrowestCover(1, scan, 0, n) <==> 2 <= n <= 3 {
      assert Window(scan[0], 0, n) <==> 1 <= n <= 3;
      assert Window(scan[1], 0, n) <==> 2 <= n <= 3;
      assert !Window(scan[2], 0, n);
    }
  }

  /** Renumbered, the inner bridge has the hub in its window. The hub counts for it
      if it was not there before; if it was, it does not count, because the host
      bridge has listed its bus since then. */
  lemma StrandedHubIsMissed()
    ensures var scan := [OUTER, INNER, HUB];
            && HubUp(Grow(TreeAfter([[OUTER0, INNER0]]), scan), |TreeAfter([[OUTER0, INNER0]]).devs| + 1)
            && !HubUp(Grow(TreeAfter([[OUTER0, INNER0, HUB]]), scan), |TreeAfter([[OUTER0, INNER0, HUB]]).devs| + 1)
  {
    hide Grow, TreeAfter, HubUp, NarrowestCover, Sorted, WordDomains, Nested, Stranded;
    var scan := [OUTER, INNER, HUB];
    HubWindows();
    HubAliveOverRuns([[OUTER0, INNER0]], scan, 1);
    HubAliveOverRuns([[OUTER0, INNER0, HUB]], scan, 1);
    NotStranded();
    HubStranded();
    assert scan[2] == HUB;
    assert BehindPort([[OUTER0, INNER0]], scan, 1, 2);
    forall x | 0 <= x < |scan| ensures !BehindPort([[OUTER0, INNER0, HUB]], scan, 1, x) {
      assert scan[x] == OUTER || scan[x] == INNER || scan[x] == HUB;
    }
  }

  lemma NotStranded()
    ensures !Stranded([[OUTER0, INNER0]], 0, 2)
  {
    var scans: seq<seq<Dev>> := [[OUTER0, INNER0]];
    assert !Populated(scans[0], 0, 2);
  }

  lemma HubStranded()
    ensures Stranded([[OUTER0, INNER0, HUB]], 0, 2)
  {
    var scans: seq<seq<Dev>> := [[OUTER0, INNER0, HUB]];
    assert scans[0][2].Domain() == 0 && scans[0][2].bus == 2;
    assert Populated(scans[0], 0, 2);
    assert !Covered(scans[0], 0, 2);
    assert Uncovered(scans, 1, 0, 2);
  }
}

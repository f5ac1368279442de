/** The hotplug daemon (src/adna.c): ports are saved at start-up; every tick the
    tree is grown from a new scan, and every watched port is compared with it.
    Sleeps, timers and the writes to sysfs and to the port's registers are
    recorded as decisions. */
module Hotplug {
  import opened Config
  import opened CText
  import opened Ports
  import Filter
  import Placement
  import ScanOrder
  import Topology
  import TreeRuns

  /** A scanned device, with the link bit of its PCI Express capability. */
  datatype Found = Found(at: Topology.Dev, vendor: U16, device: U16, linkUp: bool)
  {
    function Ids(): Filter.Device {
      Filter.Device(at.domain, at.bus, at.dev, at.func, vendor, device, at.class_)
    }
  }

  /* ---- one tick ---- */

  function Places(scan: seq<Found>): (s: seq<Topology.Dev>)
    ensures |s| == |scan| && forall i :: 0 <= i < |s| ==> s[i] == scan[i].at
  {
    seq(|scan|, i requires 0 <= i < |scan| => scan[i].at)
  }

  /** What a filter selects from the first k devices of a scan, in order;
      `first` is the number of the scan's first device in the tree. */
  function Selected(w: Filter.Wanted, t: Topology.State, first: nat, scan: seq<Found>, k: nat): seq<Seen>
    requires k <= |scan|
  {
    if k == 0 then []
    else
      Selected(w, t, first, scan, k - 1)
      + if Filter.Matches(w, scan[k - 1].Ids())
        then [Seen(scan[k - 1].linkUp, Topology.HubUp(t, first + k - 1))] else []
  }

  /** The tree and the list of watched ports. */
  datatype World = World(tree: Topology.State, ports: seq<Port>)

  ghost predicate Sound(w: World) { Topology.Shape(w.tree) && Topology.Hubs(w.tree) }

  function Tick(w: World, scan: seq<Found>): (v: World)
    requires Sound(w)
    ensures |v.ports| == |w.ports|
    ensures v.tree == Topology.Grow(w.tree, Places(scan))
  {
    var t := Topology.Grow(w.tree, Places(scan));
    World(t, seq(|w.ports|, i requires 0 <= i < |w.ports| =>
      TickPort(w.ports[i], Selected(w.ports[i].wanted, t, |w.tree.devs|, scan, |scan|))))
  }

  lemma TickSound(w: World, scan: seq<Found>)
    requires Sound(w)
    ensures Sound(Tick(w, scan))
  {
    Topology.GrowKeeps(w.tree, Places(scan));
    Topology.GrowHubs(w.tree, Places(scan));
  }

  /** What the source demands of a scan: it follows the bridge of every device
      it finds for a watched port. */
  predicate Followable(ports: seq<Port>, scan: seq<Found>) {
    forall p, f | p in ports && f in scan :: !p.d3 && Filter.Matches(p.wanted, f.Ids()) ==> f.at.IsBridge()
  }

  /** A port whose filter was saved from device e, in a scan with distinct
      addresses, sees nothing when e is absent; otherwise it sees e's link once,
      and a hub exactly when a device of this scan sits behind e's bridge. */
  lemma SavedPortSees(w: World, scan: seq<Found>, z: Filter.Wanted, e: Filter.Device)
    requires Sound(w) && Filter.Addressable(e)
    requires forall a, b :: 0 <= a < b < |scan| ==> !Filter.SameAddress(scan[a].Ids(), scan[b].Ids())
    requires forall f | f in scan && f.Ids() == e :: f.at.IsBridge()
    ensures var t := Topology.Grow(w.tree, Places(scan));
            var first := |w.tree.devs|;
            var seen := Selected(Filter.Remember(z, e), t, first, scan, |scan|);
            && (seen == [] <==> forall f | f in scan :: f.Ids() != e)
            && forall k :: 0 <= k < |scan| && scan[k].Ids() == e ==>
                 first + k in t.bridgeOf && seen == [Seen(scan[k].linkUp, HasDevice(t, first, t.bridgeOf[first + k]))]
  {
    hide Filter.Matches, Filter.Remember, HasDevice, Selected;
    hide Topology.Grow, Topology.Shape, Topology.Hubs, Topology.HubUp;
    var t := Topology.Grow(w.tree, Places(scan));
    var first := |w.tree.devs|;
    Filter.RememberExactly(z, e);
    SelectedOne(Filter.Remember(z, e), e, t, first, scan, |scan|);
    forall k | 0 <= k < |scan| && scan[k].Ids() == e
      ensures first + k in t.bridgeOf && (Topology.HubUp(t, first + k) <==> HasDevice(t, first, t.bridgeOf[first + k]))
    {
      HubUpIff(w, scan, k);
    }
  }

  ghost predicate HasDevice(t: Topology.State, first: nat, bridge: nat) {
    exists e :: first <= e < |t.devs| && e in t.parent && t.parent[e].bridge == bridge
  }

  lemma HubUpIff(w: World, scan: seq<Found>, k: nat)
    requires Sound(w) && k < |scan| && scan[k].at.IsBridge()
    ensures var t := Topology.Grow(w.tree, Places(scan));
            var x := |w.tree.devs| + k;
            x in t.bridgeOf && (Topology.HubUp(t, x) <==> HasDevice(t, |w.tree.devs|, t.bridgeOf[x]))
  {
    var t := Topology.Grow(w.tree, Places(scan));
    hide Topology.Grow, Topology.Shape, Topology.Hubs;
    Topology.HubAliveIff(w.tree, Places(scan), |w.tree.devs| + k);
  }

  lemma HubUpHere(t: Topology.State, x: nat)
    requires HasBuses(t, x)
    ensures Topology.HubUp(t, x) == Topology.HubAlive(t.bridges[t.bridgeOf[x]])
  {
  }

  lemma {:induction false} SelectedOne(w: Filter.Wanted, e: Filter.Device, t: Topology.State, first: nat,
                                       scan: seq<Found>, k: nat)
    requires k <= |scan| && forall f: Filter.Device :: Filter.Matches(w, f) <==> f == e
    requires forall a, b :: 0 <= a < b < |scan| ==> !Filter.SameAddress(scan[a].Ids(), scan[b].Ids())
    ensures var seen := Selected(w, t, first, scan, k);
            && (seen == [] <==> forall j :: 0 <= j < k ==> scan[j].Ids() != e)
            && forall j :: 0 <= j < k && scan[j].Ids() == e ==>
                 seen == [Seen(scan[j].linkUp, Topology.HubUp(t, first + j))]
    decreases k
  {
    hide Filter.Matches, Topology.HubUp;
    if k > 0 { SelectedOne(w, e, t, first, scan, k - 1); }
  }

  /* ---- whole runs ---- */

  function Run(w: World, ticks: seq<seq<Found>>): (v: World)
    requires Sound(w)
    ensures Sound(v) && |v.ports| == |w.ports|
    decreases |ticks|
  {
    if ticks == [] then w
    else
      var u := Run(w, ticks[..|ticks| - 1]);
      TickSound(u, ticks[|ticks| - 1]);
      Tick(u, ticks[|ticks| - 1])
  }

  /** Everything port i gets to see, tick after tick. */
  function History(w: World, ticks: seq<seq<Found>>, i: nat): seq<Seen>
    requires Sound(w) && i < |w.ports|
    decreases |ticks|
  {
    if ticks == [] then []
    else
      var before := ticks[..|ticks| - 1];
      var scan := ticks[|ticks| - 1];
      var u := Run(w, before);
      History(w, before, i) + Selected(w.ports[i].wanted, Tick(u, scan).tree, |u.tree.devs|, scan, |scan|)
  }

  lemma {:induction false} RunPort(w: World, ticks: seq<seq<Found>>, i: nat)
    requires Sound(w) && i < |w.ports|
    ensures Run(w, ticks).ports[i] == TickPort(w.ports[i], History(w, ticks, i))
    decreases |ticks|
  {
    hide ObserveAll, Selected, Sound, Topology.Grow;
    if ticks == [] {
      ObserveNone(w.ports[i]);
    } else {
      var before, scan := ticks[..|ticks| - 1], ticks[|ticks| - 1];
      var u := Run(w, before);
      RunPort(w, before, i);
      var p, h := w.ports[i], History(w, before, i);
      var more := Selected(p.wanted, Tick(u, scan).tree, |u.tree.devs|, scan, |scan|);
      ObserveMore(p, h, more);
      assert u.ports[i].wanted == p.wanted;
    }
  }

  /** Some port without a parent is reset in this tick, and the daemon follows
      NULL. */
  ghost predicate Dies(w: World, scan: seq<Found>)
    requires Sound(w)
  {
    exists i :: 0 <= i < |w.ports| && Killed(w.ports[i], Sees(w, scan, i))
  }

  /** What port i gets to see in a tick. */
  function Sees(w: World, scan: seq<Found>, i: nat): seq<Seen>
    requires Sound(w) && i < |w.ports|
  {
    Selected(w.ports[i].wanted, Tick(w, scan).tree, |w.tree.devs|, scan, |scan|)
  }

  /** The world after these ticks, unless the daemon has died in one of them. */
  ghost function LiveRun(w: World, ticks: seq<seq<Found>>): (v: Option<World>)
    requires Sound(w)
    ensures v.Some? ==> Sound(v.value) && |v.value.ports| == |w.ports|
    decreases |ticks|
  {
    if ticks == [] then Some(w)
    else
      var u := LiveRun(w, ticks[..|ticks| - 1]);
      if u == None || Dies(u.value, ticks[|ticks| - 1]) then None
      else
        TickSound(u.value, ticks[|ticks| - 1]);
        Some(Tick(u.value, ticks[|ticks| - 1]))
  }

  ghost predicate SomeKilled(w: World, ticks: seq<seq<Found>>)
    requires Sound(w)
  {
    exists i :: 0 <= i < |w.ports| && Killed(w.ports[i], History(w, ticks, i))
  }

  /** A run dies if and only if the readings of some port that is not in D3 and
      has no parent lead to a reset. A run that lives is as computed. */
  lemma {:induction false} LiveRunIff(w: World, ticks: seq<seq<Found>>)
    requires Sound(w)
    ensures LiveRun(w, ticks) == if SomeKilled(w, ticks) then None else Some(Run(w, ticks))
    decreases |ticks|
  {
    hide ObserveAll, Selected, Sound, Topology.Grow, Killed, Tick;
    if ticks == [] {
      forall i | 0 <= i < |w.ports| ensures !Killed(w.ports[i], []) { NoneKilled(w.ports[i]); }
    } else {
      var before, scan := ticks[..|ticks| - 1], ticks[|ticks| - 1];
      LiveRunIff(w, before);
      var u := Run(w, before);
      forall i | 0 <= i < |w.ports|
        ensures Killed(w.ports[i], History(w, ticks, i)) <==>
                  Killed(w.ports[i], History(w, before, i)) || Killed(u.ports[i], Sees(u, scan, i))
      {
        RunPort(w, before, i);
        KilledStep(w.ports[i], u.ports[i], History(w, before, i), Sees(u, scan, i));
      }
      KilledLater(w, u, before, ticks, scan);
    }
  }

  lemma NoneKilled(p: Port)
    ensures !Killed(p, [])
  {
  }

  lemma KilledStep(p: Port, q: Port, g: seq<Seen>, h: seq<Seen>)
    requires q == TickPort(p, g)
    ensures q.wanted == p.wanted
    ensures Killed(p, g + h) <==> Killed(p, g) || Killed(q, h)
  {
    hide ObserveAll, FollowsNull;
    KeepsPort(p, g);
    if p.d3 {
      assert !Killed(p, g + h) && !Killed(p, g) && !Killed(q, h);
    } else {
      KilledMore(p, g, h);
    }
  }

  lemma KilledLater(w: World, u: World, before: seq<seq<Found>>, ticks: seq<seq<Found>>, scan: seq<Found>)
    requires Sound(w) && Sound(u) && |u.ports| == |w.ports|
    requires forall i :: 0 <= i < |w.ports| ==>
               (Killed(w.ports[i], History(w, ticks, i)) <==>
                 Killed(w.ports[i], History(w, before, i)) || Killed(u.ports[i], Sees(u, scan, i)))
    ensures SomeKilled(w, ticks) <==> SomeKilled(w, before) || Dies(u, scan)
  {
    hide Killed, History, Sees, Sound;
  }

  /** Over every run of the daemon. It dies exactly when some port without a parent
      is reset. Otherwise a port in D3 is never counted or acted on; any other port
      has taken one decision for each time it was seen, its counters are its down
      readings since its last reset, and its resets keep within both bounds. */
  lemma EveryRun(w: World, ticks: seq<seq<Found>>, i: nat)
    requires Sound(w) && i < |w.ports| && New(w.ports[i])
    ensures LiveRun(w, ticks) == None <==> SomeKilled(w, ticks)
    ensures LiveRun(w, ticks).Some? ==>
              var p, h := LiveRun(w, ticks).value.ports[i], History(w, ticks, i);
              if w.ports[i].d3 then p == w.ports[i]
              else AccountsFor(p, h) && (p.parent == None ==> BothDowns(h) < 10)
  {
    hide Run, LiveRun, History, ObserveAll, AccountsFor, BothDowns, Killed, SomeKilled;
    LiveRunIff(w, ticks);
    var p, h := w.ports[i], History(w, ticks, i);
    RunPort(w, ticks, i);
    Accounted(p, h);
    KeepsPort(p, h);
    if !p.d3 && p.parent == None && BothDowns(h) >= 10 {
      TenDownsKill(p, h);
      KilledSome(w, ticks, i);
    }
  }

  lemma KilledSome(w: World, ticks: seq<seq<Found>>, i: nat)
    requires Sound(w) && i < |w.ports| && Killed(w.ports[i], History(w, ticks, i))
    ensures SomeKilled(w, ticks)
  {
    hide Killed, History, Sound;
  }

  /* ---- start-up ---- */

  /** NumDevice, as count_downstream assigns it: downstream devices up to d. */
  function Number(downstream: set<nat>, d: nat): nat {
    (if d == 0 then 0 else Number(downstream, d - 1)) + if d in downstream then 1 else 0
  }

  /** d->parent_bus->parent_bridge->br_dev */
  function Above(t: Topology.State, d: nat): Option<nat>
    requires d in t.parent && t.parent[d].bridge < |t.bridges|
  {
    t.bridges[t.parent[d].bridge].brDev
  }

  /** d->bridge->first_bus->first_dev */
  function Below(t: Topology.State, d: nat): Option<nat>
    requires HasBuses(t, d)
  {
    var devs := t.bridges[t.bridgeOf[d]].buses[0].devs;
    if devs == [] then None else Some(devs[0])
  }

  /** What save_to_adna_list follows from device d. */
  predicate Linked(t: Topology.State, scan: seq<Found>, d: nat) {
    && d in t.parent && t.parent[d].bridge < |t.bridges| && HasBuses(t, d)
    && (Above(t, d).Some? ==> Above(t, d).value < |scan|)
    && (Below(t, d).Some? ==> Below(t, d).value < |scan|)
  }

  /** The filter saved for a device, if there is one. */
  function Kept(scan: seq<Found>, d: Option<nat>): Option<Filter.Wanted>
    requires d.Some? ==> d.value < |scan|
  {
    if d == None then None else Some(Filter.Remember(Filter.ZEROED, scan[d.value].Ids()))
  }

  /** The port saved for device d of the first scan. */
  function SavedPort(t: Topology.State, scan: seq<Found>, downstream: set<nat>, d: nat): Port
    requires d < |scan| && Linked(t, scan, d)
  {
    Port(Number(downstream, d), Kept(scan, Some(d)).value, Kept(scan, Above(t, d)), Kept(scan, Below(t, d)),
         false, 0, 0, [])
  }

  predicate AllLinked(t: Topology.State, scan: seq<Found>, downstream: set<nat>) {
    forall d :: 0 <= d < |scan| && d in downstream ==> Linked(t, scan, d)
  }

  /** save_to_adna_list for the first k devices: a port for every downstream
      one, the last of them first. */
  function Saved(t: Topology.State, scan: seq<Found>, downstream: set<nat>, k: nat): seq<Port>
    requires k <= |scan| && AllLinked(t, scan, downstream)
  {
    if k == 0 then []
    else
      (if k - 1 in downstream then [SavedPort(t, scan, downstream, k - 1)] else [])
      + Saved(t, scan, downstream, k - 1)
  }

  /** The ports are exactly those saved for the downstream devices, whose
      numbers tell them apart. */
  lemma {:induction false} SavedAre(t: Topology.State, scan: seq<Found>, downstream: set<nat>, k: nat, p: Port)
    requires k <= |scan| && AllLinked(t, scan, downstream)
    ensures p in Saved(t, scan, downstream, k) <==>
              exists d :: 0 <= d < k && d in downstream && p == SavedPort(t, scan, downstream, d)
    decreases k
  {
    hide SavedPort, Linked;
    if k > 0 { SavedAre(t, scan, downstream, k - 1, p); }
  }

  /** The downstream devices among the first k of a scan. */
  function Counted(downstream: set<nat>, k: nat): set<nat> {
    set d | d in downstream && d < k
  }

  /** A device's number is its rank among the downstream ones. */
  lemma {:induction false} NumberIsRank(downstream: set<nat>, d: nat)
    ensures Number(downstream, d) == |Counted(downstream, d + 1)|
  {
    if d > 0 { NumberIsRank(downstream, d - 1); }
    var before := Counted(downstream, d);
    assert d == 0 ==> before == {};
    assert Counted(downstream, d + 1) == if d in downstream then before + {d} else before;
  }

  /** There is one port for each downstream device, and the ports are numbered
      from their count down to 1. */
  lemma {:induction false} SavedOnce(t: Topology.State, scan: seq<Found>, downstream: set<nat>, k: nat)
    requires k <= |scan| && AllLinked(t, scan, downstream)
    ensures var ps := Saved(t, scan, downstream, k);
            && |ps| == |Counted(downstream, k)|
            && forall i :: 0 <= i < |ps| ==> ps[i].num == |ps| - i
    decreases k
  {
    hide Linked, Filter.Remember, Above, Below;
    if k > 0 {
      SavedOnce(t, scan, downstream, k - 1);
      NumberIsRank(downstream, k - 1);
      var before := Counted(downstream, k - 1);
      assert Counted(downstream, k) == if k - 1 in downstream then before + {k - 1} else before;
    } else {
      assert Counted(downstream, 0) == {};
    }
  }

  lemma {:induction false} SavedPlace(t: Topology.State, scan: seq<Found>, downstream: set<nat>, k: nat, d: nat)
    requires k <= |scan| && AllLinked(t, scan, downstream) && d < k && d in downstream
    ensures var ps := Saved(t, scan, downstream, k);
            && 0 < Number(downstream, d) <= |ps|
            && ps[|ps| - Number(downstream, d)] == SavedPort(t, scan, downstream, d)
    decreases k
  {
    hide Linked, SavedPort;
    if d < k - 1 {
      SavedPlace(t, scan, downstream, k - 1, d);
    } else {
      SavedOnce(t, scan, downstream, k - 1);
      NumberIsRank(downstream, d);
      var before := Counted(downstream, d);
      assert Counted(downstream, k) == before + {d};
    }
  }

  lemma {:induction false} NumbersDiffer(downstream: set<nat>, c: nat, d: nat)
    requires c < d && d in downstream
    ensures Number(downstream, c) < Number(downstream, d)
    decreases d
  {
    if c < d - 1 && d - 1 in downstream { NumbersDiffer(downstream, c, d - 1); }
    else if c < d - 1 { NumbersRise(downstream, c, d - 1); }
  }

  lemma {:induction false} NumbersRise(downstream: set<nat>, c: nat, d: nat)
    requires c <= d
    ensures Number(downstream, c) <= Number(downstream, d)
    decreases d
  {
    if c < d { NumbersRise(downstream, c, d - 1); }
  }

  /** adna_set_d3_flag for every number in the set. */
  function Asleep(p: Port, nums: set<nat>): Port {
    if p.num in nums then p.(d3 := true) else p
  }

  /** The numbers that show() passes on: downstream devices that are not in D0. */
  function Shown(downstream: set<nat>, asleep: set<nat>, k: nat): set<nat> {
    set d | d in downstream && d in asleep && d < k :: Number(downstream, d)
  }

  lemma ShownMore(downstream: set<nat>, asleep: set<nat>, d: nat)
    ensures Shown(downstream, asleep, d + 1) ==
            Shown(downstream, asleep, d) + if d in downstream && d in asleep then {Number(downstream, d)} else {}
  {
  }

  lemma LinkedMeans(t: Topology.State, scan: seq<Found>, d: nat)
    requires Linked(t, scan, d)
    ensures d in t.parent && t.parent[d].bridge < |t.bridges| && HasBuses(t, d)
    ensures Above(t, d).Some? ==> Above(t, d).value < |scan|
    ensures Below(t, d).Some? ==> Below(t, d).value < |scan|
  {
  }

  lemma EmptySound()
    ensures Topology.Shape(Topology.EMPTY) && Topology.Hubs(Topology.EMPTY)
  {
  }

  /** In the tree of the first scan everything a port needs can be followed. */
  lemma LinkedAtStart(scan: seq<Found>, downstream: set<nat>)
    requires forall d | d in downstream && d < |scan| :: scan[d].at.IsBridge()
    ensures Topology.Shape(Topology.EMPTY)
    ensures AllLinked(Topology.Grow(Topology.EMPTY, Places(scan)), scan, downstream)
  {
    hide Topology.Grow, Topology.Shape, Topology.Hubs;
    EmptySound();
    var t := Topology.Grow(Topology.EMPTY, Places(scan));
    Topology.GrowKeeps(Topology.EMPTY, Places(scan));
    Placement.OwnersInScan(Topology.EMPTY, Places(scan));
    forall d | 0 <= d < |scan| && d in downstream ensures Linked(t, scan, d) {
      Topology.OnExactlyOneBus(t, d);
      Topology.HubAliveIff(Topology.EMPTY, Places(scan), d);
      if Below(t, d).Some? { FirstBelow(t, d); }
    }
  }

  lemma EmptyOrdered()
    ensures Topology.Ordered(Topology.EMPTY.bridges)
  {
  }

  /** No device on the same bus was found before it. */
  lemma EarliestBelow(t: Topology.State, d: nat)
    requires Topology.Shape(t) && Topology.Ordered(t.bridges) && HasBuses(t, d) && Below(t, d).Some?
    requires Below(t, d).value in t.parent && t.parent[Below(t, d).value].bridge == t.bridgeOf[d]
    ensures forall y | y in t.parent && t.parent[y] == t.parent[Below(t, d).value] :: Below(t, d).value <= y
  {
    hide Topology.Shape;
    var x, bus := Below(t, d).value, t.bridges[t.bridgeOf[d]].buses[0];
    assert bus.devs[0] in bus.devs;
    Topology.OnExactlyOneBus(t, x);
    forall y | y in t.parent && t.parent[y] == t.parent[x] ensures x <= y {
      Topology.OnExactlyOneBus(t, y);
      assert Topology.Increasing(bus.devs);
    }
  }

  lemma FirstBelow(t: Topology.State, d: nat)
    requires Topology.Shape(t) && HasBuses(t, d) && Below(t, d).Some?
    ensures Below(t, d).value < |t.devs|
    ensures Below(t, d).value in t.parent && t.parent[Below(t, d).value].bridge == t.bridgeOf[d]
  {
    var bus := t.bridges[t.bridgeOf[d]].buses[0];
    assert Topology.BusAgrees(t, t.bridgeOf[d], bus) && bus.devs[0] in bus.devs;
  }

  ghost predicate Only(w: Filter.Wanted, e: Filter.Device) {
    forall f: Filter.Device :: Filter.Matches(w, f) <==> f == e
  }

  /** The world after adna_pci_process at start-up. */
  ghost predicate Started(w: World, scan: seq<Found>, downstream: set<nat>, asleep: set<nat>) {
    && w.tree == Topology.Grow(Topology.EMPTY, Places(scan))
    && AllLinked(w.tree, scan, downstream)
    && var ps := Saved(w.tree, scan, downstream, |scan|);
       |w.ports| == |ps| && forall i :: 0 <= i < |ps| ==> w.ports[i] == Asleep(ps[i], Shown(downstream, asleep, |scan|))
  }

  lemma SavedOnly(e: Filter.Device)
    requires Filter.Addressable(e)
    ensures Only(Filter.Remember(Filter.ZEROED, e), e)
  {
    Filter.RememberExactly(Filter.ZEROED, e);
  }

  /** The saved filter accepts the device and nothing else; without a device
      there is no filter. */
  ghost predicate Keeps(w: Option<Filter.Wanted>, scan: seq<Found>, d: Option<nat>)
    requires d.Some? ==> d.value < |scan|
  {
    w.Some? == d.Some? && (w.Some? ==> Only(w.value, scan[d.value].Ids()))
  }

  lemma KeptKeeps(scan: seq<Found>, d: Option<nat>)
    requires d.Some? ==> d.value < |scan| && Filter.Addressable(scan[d.value].Ids())
    ensures Keeps(Kept(scan, d), scan, d)
  {
    hide Filter.Remember, Only, Filter.Addressable;
    if d.Some? { SavedOnly(scan[d.value].Ids()); }
  }

  /** Port p watches device d of the first scan: new, in D3 exactly when the
      device was not in D0, with filters for the device, the bridge above it and
      the first device behind it. */
  ghost predicate Watches(p: Port, t: Topology.State, scan: seq<Found>, asleep: set<nat>, d: nat)
    requires d < |scan| && Linked(t, scan, d)
  {
    && New(p) && (p.d3 <==> d in asleep) && Keeps(Some(p.wanted), scan, Some(d))
    && Keeps(p.parent, scan, Above(t, d)) && Keeps(p.hub, scan, Below(t, d))
  }

  /** At start-up every port watches a downstream device and every downstream
      device has its port. */
  lemma StartedPorts(w: World, scan: seq<Found>, downstream: set<nat>, asleep: set<nat>)
    requires Started(w, scan, downstream, asleep) && forall f | f in scan :: Filter.Addressable(f.Ids())
    ensures forall i :: 0 <= i < |w.ports| ==>
              exists d :: 0 <= d < |scan| && d in downstream && Watches(w.ports[i], w.tree, scan, asleep, d)
    ensures forall d :: 0 <= d < |scan| && d in downstream ==>
              exists i :: 0 <= i < |w.ports| && Watches(w.ports[i], w.tree, scan, asleep, d)
  {
    hide SavedPort, Linked, Watches, Filter.Addressable, Asleep, Topology.Grow, Shown;
    var ps, nums := Saved(w.tree, scan, downstream, |scan|), Shown(downstream, asleep, |scan|);
    forall i | 0 <= i < |w.ports|
      ensures exists d :: 0 <= d < |scan| && d in downstream && Watches(w.ports[i], w.tree, scan, asleep, d)
    {
      assert ps[i] in ps;
      SavedAre(w.tree, scan, downstream, |scan|, ps[i]);
      var d :| 0 <= d < |scan| && d in downstream && ps[i] == SavedPort(w.tree, scan, downstream, d);
      AsleepWatches(w.tree, scan, downstream, asleep, d);
    }
    forall d | 0 <= d < |scan| && d in downstream
      ensures exists i :: 0 <= i < |w.ports| && Watches(w.ports[i], w.tree, scan, asleep, d)
    {
      var p := SavedPort(w.tree, scan, downstream, d);
      SavedAre(w.tree, scan, downstream, |scan|, p);
      var i :| 0 <= i < |ps| && ps[i] == p;
      AsleepWatches(w.tree, scan, downstream, asleep, d);
      assert Watches(w.ports[i], w.tree, scan, asleep, d);
    }
  }

  /** There is exactly one port for each downstream device, and it stands in the
      place that the device's number gives, counted from the end. */
  lemma OnePortEach(w: World, scan: seq<Found>, downstream: set<nat>, asleep: set<nat>)
    requires Started(w, scan, downstream, asleep) && forall f | f in scan :: Filter.Addressable(f.Ids())
    ensures |w.ports| == |Counted(downstream, |scan|)|
    ensures forall i :: 0 <= i < |w.ports| ==> w.ports[i].num == |w.ports| - i
    ensures forall d :: 0 <= d < |scan| && d in downstream ==>
              && 0 < Number(downstream, d) <= |w.ports|
              && Watches(w.ports[|w.ports| - Number(downstream, d)], w.tree, scan, asleep, d)
  {
    hide SavedPort, Linked, Watches, Filter.Addressable, Topology.Grow, Shown, Number;
    SavedOnce(w.tree, scan, downstream, |scan|);
    forall d | 0 <= d < |scan| && d in downstream
      ensures && 0 < Number(downstream, d) <= |w.ports|
              && Watches(w.ports[|w.ports| - Number(downstream, d)], w.tree, scan, asleep, d)
    {
      SavedPlace(w.tree, scan, downstream, |scan|, d);
      AsleepWatches(w.tree, scan, downstream, asleep, d);
    }
  }

  lemma AsleepWatches(t: Topology.State, scan: seq<Found>, downstream: set<nat>, asleep: set<nat>, d: nat)
    requires d < |scan| && d in downstream && Linked(t, scan, d)
    requires forall f | f in scan :: Filter.Addressable(f.Ids())
    ensures var p := SavedPort(t, scan, downstream, d);
            Watches(Asleep(p, Shown(downstream, asleep, |scan|)), t, scan, asleep, d)
  {
    hide Filter.Remember, Only, Filter.Addressable, Linked, Above, Below;
    LinkedMeans(t, scan, d);
    KeptKeeps(scan, Some(d));
    KeptKeeps(scan, Above(t, d));
    KeptKeeps(scan, Below(t, d));
    if Number(downstream, d) in Shown(downstream, asleep, |scan|) && d !in asleep {
      var c :| c in downstream && c in asleep && c < |scan| && Number(downstream, c) == Number(downstream, d);
      if c < d { NumbersDiffer(downstream, c, d); } else { NumbersDiffer(downstream, d, c); }
    }
  }

  /** The parent that resets write to is the narrowest bridge above the port, and
      a port without one is on a bus that no window contains; the hub is the first
      device found on a bus behind the port. */
  lemma SavedNeighbours(scan: seq<Found>, d: nat)
    requires d < |scan| && scan[d].at.IsBridge()
    requires var ds := Places(scan); ScanOrder.Sorted(ds) && ScanOrder.WordDomains(ds) && ScanOrder.Nested(ds)
    ensures Topology.Shape(Topology.EMPTY)
    ensures var t, ds := Topology.Grow(Topology.EMPTY, Places(scan)), Places(scan);
            && Linked(t, scan, d)
            && (Above(t, d) == None <==> !Placement.Covered(ds, ds[d].Domain(), ds[d].bus))
            && (Above(t, d).Some? ==> Placement.NarrowestCover(Above(t, d).value, ds, ds[d].Domain(), ds[d].bus))
            && (Below(t, d) == None <==> !Topology.HubUp(t, d))
            && (Below(t, d).Some? ==>
                  var x := Below(t, d).value;
                  && x in t.parent && t.parent[x].bridge == t.bridgeOf[d]
                  && forall y | y in t.parent && t.parent[y] == t.parent[x] :: x <= y)
  {
    hide Topology.Grow, Topology.Shape, Topology.Hubs, Placement.NarrowestCover, Placement.Covered;
    hide ScanOrder.Sorted, ScanOrder.WordDomains, ScanOrder.Nested, Topology.Ordered;
    EmptySound();
    EmptyOrdered();
    var t, ds := Topology.Grow(Topology.EMPTY, Places(scan)), Places(scan);
    LinkedAtStart(scan, {d});
    Placement.FirstPlacement(ds, d);
    Placement.OwnersInScan(Topology.EMPTY, ds);
    Topology.GrowKeeps(Topology.EMPTY, ds);
    Topology.GrowOrdered(Topology.EMPTY, ds);
    if Below(t, d).Some? {
      FirstBelow(t, d);
      EarliestBelow(t, d);
    }
  }

  /* ---- saved ports over whole runs ---- */

  /** Addresses are distinct, and device e, when found, is a bridge. */
  ghost predicate Clean(scan: seq<Found>, e: Filter.Device) {
    && (forall a, b :: 0 <= a < b < |scan| ==> !Filter.SameAddress(scan[a].Ids(), scan[b].Ids()))
    && forall f | f in scan && f.Ids() == e :: f.at.IsBridge()
  }

  /** Where device e is in a scan, or the scan's length. */
  function Find(scan: seq<Found>, e: Filter.Device, k: nat): (i: nat)
    requires k <= |scan|
    ensures k <= i <= |scan| && (i < |scan| ==> scan[i].Ids() == e)
    ensures forall j :: k <= j < i ==> scan[j].Ids() != e
    decreases |scan| - k
  {
    if k == |scan| || scan[k].Ids() == e then k else Find(scan, e, k + 1)
  }

  /** One tick's reading of device e: its link, and its hub in the grown tree. */
  function Reading(w: World, scan: seq<Found>, e: Filter.Device): seq<Seen>
    requires Sound(w)
  {
    var k := Find(scan, e, 0);
    if k == |scan| then []
    else [Seen(scan[k].linkUp, Topology.HubUp(Topology.Grow(w.tree, Places(scan)), |w.tree.devs| + k))]
  }

  function Readings(w: World, ticks: seq<seq<Found>>, e: Filter.Device): seq<Seen>
    requires Sound(w)
  {
    if ticks == [] then []
    else
      var before := ticks[..|ticks| - 1];
      Readings(w, before, e) + Reading(Run(w, before), ticks[|ticks| - 1], e)
  }

  /** How many ticks found device e. */
  function Times(ticks: seq<seq<Found>>, e: Filter.Device): nat {
    if ticks == [] then 0
    else
      var scan := ticks[|ticks| - 1];
      Times(ticks[..|ticks| - 1], e) + if Find(scan, e, 0) < |scan| then 1 else 0
  }

  lemma SelectedIsReading(w: World, scan: seq<Found>, z: Filter.Wanted, e: Filter.Device)
    requires Sound(w) && Only(z, e) && Clean(scan, e)
    ensures Selected(z, Tick(w, scan).tree, |w.tree.devs|, scan, |scan|) == Reading(w, scan, e)
  {
    hide Filter.Matches, Topology.Grow, Topology.Shape, Topology.Hubs, Topology.HubUp;
    SelectedOne(z, e, Tick(w, scan).tree, |w.tree.devs|, scan, |scan|);
  }

  /** A port that watches device e gets one reading for each tick that finds e,
      and none for any other tick. */
  lemma {:induction false} HistoryIsReadings(w: World, ticks: seq<seq<Found>>, i: nat, e: Filter.Device)
    requires Sound(w) && i < |w.ports| && Only(w.ports[i].wanted, e)
    requires forall scan | scan in ticks :: Clean(scan, e)
    ensures History(w, ticks, i) == Readings(w, ticks, e) && |Readings(w, ticks, e)| == Times(ticks, e)
    decreases |ticks|
  {
    hide Only, Clean, Selected, Run, Tick, Sound;
    if ticks != [] {
      var before, scan := ticks[..|ticks| - 1], ticks[|ticks| - 1];
      assert scan in ticks && forall t | t in before :: t in ticks;
      HistoryIsReadings(w, before, i, e);
      SelectedIsReading(Run(w, before), scan, w.ports[i].wanted, e);
    }
  }

  /** The scans of a run, the one at start-up first. */
  function Scans(first: seq<Found>, ticks: seq<seq<Found>>): seq<seq<Topology.Dev>> {
    if ticks == [] then [Places(first)] else Scans(first, ticks[..|ticks| - 1]) + [Places(ticks[|ticks| - 1])]
  }

  lemma {:induction false} TreeOfRun(w: World, first: seq<Found>, ticks: seq<seq<Found>>)
    requires Sound(w) && Topology.Shape(Topology.EMPTY) && w.tree == Topology.Grow(Topology.EMPTY, Places(first))
    ensures Run(w, ticks).tree == TreeRuns.TreeAfter(Scans(first, ticks))
    decreases |ticks|
  {
    hide Topology.Grow, Sound, Topology.Shape, Topology.Hubs;
    var scans := Scans(first, ticks);
    if ticks == [] {
      assert scans[..0] == [] && TreeRuns.TreeAfter([]) == Topology.EMPTY;
    } else {
      TreeOfRun(w, first, ticks[..|ticks| - 1]);
      assert scans[..|scans| - 1] == Scans(first, ticks[..|ticks| - 1]);
    }
  }

  /** On every tick of every run from start-up, the hub of device k counts as
      alive exactly when a device of the tick has k's window as its narrowest one
      and no scan so far found its bus before a window contained it. */
  lemma HubReading(w: World, first: seq<Found>, ticks: seq<seq<Found>>, scan: seq<Found>, k: nat)
    requires Sound(w) && Topology.Shape(Topology.EMPTY) && w.tree == Topology.Grow(Topology.EMPTY, Places(first))
    requires k < |scan| && scan[k].at.IsBridge()
    requires var ds := Places(scan); ScanOrder.Sorted(ds) && ScanOrder.WordDomains(ds) && ScanOrder.Nested(ds)
    ensures var u := Run(w, ticks);
            Topology.HubUp(Tick(u, scan).tree, |u.tree.devs| + k) <==>
              exists x :: 0 <= x < |scan| && TreeRuns.BehindPort(Scans(first, ticks), Places(scan), k, x)
  {
    hide Topology.Grow, Topology.Shape, Topology.Hubs, Topology.HubUp, TreeRuns.BehindPort, Run;
    hide ScanOrder.Sorted, ScanOrder.WordDomains, ScanOrder.Nested;
    TreeOfRun(w, first, ticks);
    TreeRuns.HubAliveOverRuns(Scans(first, ticks), Places(scan), k);
  }

  /** Over every run from start-up that lives, the port that watches device e is
      left alone in D3. Otherwise it takes one decision for each tick that finds e,
      and its counters are the down readings of those ticks since its last reset. */
  lemma SavedRun(w: World, ticks: seq<seq<Found>>, i: nat, e: Filter.Device)
    requires Sound(w) && i < |w.ports| && New(w.ports[i]) && Only(w.ports[i].wanted, e)
    requires forall scan | scan in ticks :: Clean(scan, e)
    ensures LiveRun(w, ticks) == None <==> SomeKilled(w, ticks)
    ensures LiveRun(w, ticks).Some? ==>
              var p, h := LiveRun(w, ticks).value.ports[i], Readings(w, ticks, e);
              if w.ports[i].d3 then p == w.ports[i]
              else AccountsFor(p, h) && |h| == Times(ticks, e) && (p.parent == None ==> BothDowns(h) < 10)
  {
    hide Sound, Only, Clean, Run, LiveRun, SomeKilled, AccountsFor, BothDowns;
    EveryRun(w, ticks, i);
    HistoryIsReadings(w, ticks, i, e);
  }

  /* ---- which runs die ---- */

  /** A device of the first scan has no bridge above it exactly when its bus is
      the host's own or in no window. */
  lemma ParentIff(scan: seq<Found>, d: nat)
    requires d < |scan|
    ensures Topology.Shape(Topology.EMPTY)
    ensures var t, p := Topology.Grow(Topology.EMPTY, Places(scan)), scan[d].at;
            && d in t.parent && t.parent[d].bridge < |t.bridges|
            && (Above(t, d) == None <==>
                  (p.Domain() == 0 && p.bus == 0) || !Placement.Covered(Places(scan), p.Domain(), p.bus))
  {
    hide Topology.Grow, Topology.Hubs, Placement.Covered;
    EmptySound();
    var ds := Places(scan);
    assert ds[d] == scan[d].at;
    Placement.WherePlaced(Topology.EMPTY, ds, d);
    Placement.OwnersInScan(Topology.EMPTY, ds);
  }

  /** The bus of every downstream device that is in D0 is in a window of the first
      scan, and not the host's own. */
  ghost predicate AllAbove(scan: seq<Found>, downstream: set<nat>, asleep: set<nat>) {
    forall d | d in downstream && d !in asleep && d < |scan| ::
      var p := scan[d].at;
      !(p.Domain() == 0 && p.bus == 0) && Placement.Covered(Places(scan), p.Domain(), p.bus)
  }

  lemma ParentOfPort(w: World, scan: seq<Found>, downstream: set<nat>, asleep: set<nat>, i: nat) returns (d: nat)
    requires Started(w, scan, downstream, asleep) && i < |w.ports|
    ensures d < |scan| && d in downstream && (w.ports[i].d3 <==> d in asleep)
    ensures Linked(w.tree, scan, d) && (w.ports[i].parent == None <==> Above(w.tree, d) == None)
  {
    hide SavedPort, Linked, Topology.Grow, Shown;
    var ps := Saved(w.tree, scan, downstream, |scan|);
    assert ps[i] in ps;
    SavedAre(w.tree, scan, downstream, |scan|, ps[i]);
    d :| 0 <= d < |scan| && d in downstream && ps[i] == SavedPort(w.tree, scan, downstream, d);
    FlagOfPort(w.tree, scan, downstream, asleep, d);
  }

  lemma FlagOfPort(t: Topology.State, scan: seq<Found>, downstream: set<nat>, asleep: set<nat>, d: nat)
    requires d < |scan| && d in downstream && Linked(t, scan, d)
    ensures var p := Asleep(SavedPort(t, scan, downstream, d), Shown(downstream, asleep, |scan|));
            (p.d3 <==> d in asleep) && (p.parent == None <==> Above(t, d) == None)
  {
    hide Filter.Remember, Linked, Above, Below;
    LinkedMeans(t, scan, d);
    if Number(downstream, d) in Shown(downstream, asleep, |scan|) && d !in asleep {
      var c :| c in downstream && c in asleep && c < |scan| && Number(downstream, c) == Number(downstream, d);
      if c < d { NumbersDiffer(downstream, c, d); } else { NumbersDiffer(downstream, d, c); }
    }
  }

  /** When every downstream device in D0 has its bus in a window of the first
      scan, no run from start-up ever dies. */
  lemma CoveredStartLives(w: World, scan: seq<Found>, downstream: set<nat>, asleep: set<nat>, ticks: seq<seq<Found>>)
    requires Sound(w) && Started(w, scan, downstream, asleep) && AllAbove(scan, downstream, asleep)
    ensures LiveRun(w, ticks) == Some(Run(w, ticks))
  {
    hide Run, LiveRun, History, Killed, Started, Linked, Above, Topology.Grow, Sound, Placement.Covered;
    LiveRunIff(w, ticks);
    forall i | 0 <= i < |w.ports| ensures !Killed(w.ports[i], History(w, ticks, i)) {
      var d := ParentOfPort(w, scan, downstream, asleep, i);
      StartedTree(w, scan, downstream, asleep);
      ParentIff(scan, d);
      ParentLives(w.ports[i], History(w, ticks, i));
    }
  }

  lemma StartedTree(w: World, scan: seq<Found>, downstream: set<nat>, asleep: set<nat>)
    requires Started(w, scan, downstream, asleep)
    ensures Topology.Shape(Topology.EMPTY) && w.tree == Topology.Grow(Topology.EMPTY, Places(scan))
  {
    EmptySound();
    hide Topology.Grow, Saved;
  }

  lemma {:induction false} ParentLives(p: Port, h: seq<Seen>)
    requires p.d3 || p.parent.Some?
    ensures !Killed(p, h)
  {
    if h != [] {
      ParentLives(p, h[..|h| - 1]);
      KeepsPort(p, h[..|h| - 1]);
      hide ObserveAll, Observe;
    }
  }

  /* ---- the daemon ---- */

  class Daemon {
    const tree: Topology.Tree
    var ports: seq<Port>

    ghost function Value(): World
      reads this, tree
    {
      World(tree.Value(), ports)
    }

    constructor ()
      ensures fresh(tree) && Value() == World(Topology.EMPTY, []) && Sound(Value())
    {
      var t := new Topology.Tree();
      tree, ports := t, [];
    }

    /** One filter of save_to_adna_list. */
    method Keep(e: Filter.Device) returns (w: Filter.Wanted)
      ensures w == Filter.Remember(Filter.ZEROED, e)
    {
      var f := new Filter.PciFilter(true);
      f.Save(e);
      w := f.Value();
    }

    /** The record that save_to_adna_list makes of one device. */
    method MakePort(scan: seq<Found>, downstream: set<nat>, d: nat, num: nat) returns (p: Port)
      requires d < |scan| && Linked(tree.Value(), scan, d) && num == Number(downstream, d)
      ensures p == SavedPort(tree.Value(), scan, downstream, d)
    {
      hide Filter.Remember, Linked, Number;
      LinkedMeans(tree.Value(), scan, d);
      var this_ := Keep(scan[d].Ids());
      var parent, hub := None, None;
      var br := tree.bridges[tree.parent[d].bridge].brDev;
      if br != None {
        var w := Keep(scan[br.value].Ids());
        parent := Some(w);
      }
      var devs := tree.bridges[tree.bridgeOf[d]].buses[0].devs;
      if devs != [] {
        var w := Keep(scan[devs[0]].Ids());
        hub := Some(w);
      }
      p := Port(num, this_, parent, hub, false, 0, 0, []);
    }

    /** save_to_adna_list: one port in front of the list for every device that
        count_downstream has numbered. */
    method SaveToList(scan: seq<Found>, downstream: set<nat>)
      requires AllLinked(tree.Value(), scan, downstream)
      modifies this`ports
      ensures ports == Saved(tree.Value(), scan, downstream, |scan|) + old(ports)
    {
      hide SavedPort, Linked;
      ghost var t := tree.Value();
      var d, num := 0, 0;
      while d < |scan|
        invariant 0 <= d <= |scan| && num == if d == 0 then 0 else Number(downstream, d - 1)
        invariant ports == Saved(t, scan, downstream, d) + old(ports)
      {
        if d in downstream {
          num := num + 1;
          var p := MakePort(scan, downstream, d, num);
          ports := [p] + ports;
        }
        d := d + 1;
      }
    }

    /** adna_set_d3_flag */
    method SetD3(num: nat)
      modifies this`ports
      ensures |ports| == |old(ports)|
      ensures forall i :: 0 <= i < |ports| ==> ports[i] == Asleep(old(ports)[i], {num})
    {
      var a := 0;
      while a < |ports|
        invariant 0 <= a <= |ports| == |old(ports)|
        invariant forall i :: 0 <= i < a ==> ports[i] == Asleep(old(ports)[i], {num})
        invariant forall i :: a <= i < |ports| ==> ports[i] == old(ports)[i]
      {
        if ports[a].num == num { ports := ports[a := ports[a].(d3 := true)]; }
        a := a + 1;
      }
    }

    /** show: printing a downstream device that is not in D0 flags its port. */
    method Show(count: nat, downstream: set<nat>, asleep: set<nat>)
      modifies this`ports
      ensures |ports| == |old(ports)|
      ensures forall i :: 0 <= i < |ports| ==> ports[i] == Asleep(old(ports)[i], Shown(downstream, asleep, count))
    {
      var d, num := 0, 0;
      while d < count
        invariant 0 <= d <= count && num == if d == 0 then 0 else Number(downstream, d - 1)
        invariant |ports| == |old(ports)|
        invariant forall i :: 0 <= i < |ports| ==> ports[i] == Asleep(old(ports)[i], Shown(downstream, asleep, d))
      {
        ShownMore(downstream, asleep, d);
        if d in downstream {
          num := num + 1;
          if d in asleep { SetD3(num); }
        }
        d := d + 1;
      }
    }

    /** adna_pci_process at start-up; false is ENODEV. */
    method Start(scan: seq<Found>, downstream: set<nat>, asleep: set<nat>) returns (ok: bool)
      requires Value() == World(Topology.EMPTY, [])
      requires forall d | d in downstream && d < |scan| :: scan[d].at.IsBridge()
      modifies this`ports, tree
      ensures ok == exists d :: 0 <= d < |scan| && d in downstream
      ensures ok ==> Sound(Value()) && Started(Value(), scan, downstream, asleep)
      ensures !ok ==> ports == []
    {
      hide Filter.Remember, Saved, AllLinked, Topology.Grow, Topology.Shape, Topology.Hubs;
      assert Topology.Shape(Topology.EMPTY) && Topology.Hubs(Topology.EMPTY) by { EmptySound(); }
      Topology.GrowKeeps(Topology.EMPTY, Places(scan));
      Topology.GrowHubs(Topology.EMPTY, Places(scan));
      LinkedAtStart(scan, downstream);
      tree.GrowTree(Places(scan));
      var d := 0;
      ok := false;
      while d < |scan|
        invariant 0 <= d <= |scan| && (ok <==> exists c :: 0 <= c < d && c in downstream)
      {
        if d in downstream { ok := true; }
        d := d + 1;
      }
      if !ok { return; }
      SaveToList(scan, downstream);
      Show(|scan|, downstream, asleep);
    }

    /** One matching device; false when disable_port follows NULL. */
    method Watch(a: nat, linkUp: bool, hubUp: bool) returns (alive: bool)
      requires a < |ports|
      modifies this`ports
      ensures alive == !FollowsNull(old(ports)[a], Seen(linkUp, hubUp))
      ensures ports == old(ports)[a := Observe(old(ports)[a], Seen(linkUp, hubUp))]
    {
      var p := ports[a];
      if !linkUp { p := p.(linkDown := p.linkDown + 1); }
      if !hubUp { p := p.(hubDown := p.hubDown + 1); }
      var decision := Fine;
      if linkUp && !hubUp {
        decision := Rescan;
      } else if !linkUp && hubUp {
        decision := Remove;
      } else if !linkUp && !hubUp {
        decision := Wait;
        if LIMIT <= p.linkDown || LIMIT <= p.hubDown {
          p := p.(linkDown := 0, hubDown := 0);
          decision := Reset;
        }
      }
      alive := !(decision == Reset && p.parent == None);
      assert (p.done + [decision])[|p.done|] == decision;
      ports := ports[a := p.(done := p.done + [decision])];
    }

    /** The inner loop, for one port that is not in D3; false when it has died. */
    method WatchPort(a: nat, first: nat, scan: seq<Found>) returns (alive: bool)
      requires a < |ports| && !ports[a].d3
      requires forall k :: 0 <= k < |scan| && Filter.Matches(ports[a].wanted, scan[k].Ids()) ==>
                 HasBuses(tree.Value(), first + k)
      modifies this`ports
      ensures var p := old(ports)[a];
              alive == !Killed(p, Selected(p.wanted, tree.Value(), first, scan, |scan|))
      ensures var p := old(ports)[a];
              alive ==> ports == old(ports)[a := ObserveAll(p, Selected(p.wanted, tree.Value(), first, scan, |scan|))]
    {
      hide Filter.Matches, Observe, ObserveAll, Killed, FollowsNull, Topology.HubUp;
      ghost var p, t := ports[a], tree.Value();
      ObserveNone(p);
      NoneKilled(p);
      var d := 0;
      while d < |scan|
        invariant 0 <= d <= |scan| && !Killed(p, Selected(p.wanted, t, first, scan, d))
        invariant ports == old(ports)[a := ObserveAll(p, Selected(p.wanted, t, first, scan, d))]
      {
        KeepsPort(p, Selected(p.wanted, t, first, scan, d));
        if Filter.Matches(ports[a].wanted, scan[d].Ids()) {
          var hubUp := tree.IsHubAlive(first + d);
          assert hubUp == Topology.HubUp(t, first + d) by { HubUpHere(t, first + d); }
          ghost var h := Selected(p.wanted, t, first, scan, d);
          ObserveNext(p, h, Seen(scan[d].linkUp, hubUp));
          KilledNext(p, h, Seen(scan[d].linkUp, hubUp));
          alive := Watch(a, scan[d].linkUp, hubUp);
          if !alive {
            KilledSoFar(p, t, first, scan, d + 1);
            return;
          }
        } else {
          assert Selected(p.wanted, t, first, scan, d) + [] == Selected(p.wanted, t, first, scan, d);
        }
        d := d + 1;
      }
      alive := true;
    }

    /** The outer loop; false when one of the ports has died. */
    method WatchAll(first: nat, scan: seq<Found>) returns (alive: bool)
      requires forall p, k | p in ports && 0 <= k < |scan| && Filter.Matches(p.wanted, scan[k].Ids()) ::
                 !p.d3 ==> HasBuses(tree.Value(), first + k)
      modifies this`ports
      ensures alive <==> forall i :: 0 <= i < |old(ports)| ==> var p := old(ports)[i];
                !Killed(p, Selected(p.wanted, tree.Value(), first, scan, |scan|))
      ensures alive ==> |ports| == |old(ports)|
      ensures alive ==> forall i :: 0 <= i < |ports| ==> var p := old(ports)[i];
                ports[i] == TickPort(p, Selected(p.wanted, tree.Value(), first, scan, |scan|))
    {
      hide Filter.Matches, ObserveAll, Killed, Selected, HasBuses;
      ghost var was, t := ports, tree.Value();
      var a := 0;
      while a < |ports|
        invariant 0 <= a <= |ports| == |was|
        invariant forall i :: 0 <= i < a ==>
                    ports[i] == TickPort(was[i], Selected(was[i].wanted, t, first, scan, |scan|))
        invariant forall i :: 0 <= i < a ==> !Killed(was[i], Selected(was[i].wanted, t, first, scan, |scan|))
        invariant forall i :: a <= i < |ports| ==> ports[i] == was[i]
      {
        if !ports[a].d3 {
          assert ports[a] == was[a] && was[a] in was;
          alive := WatchPort(a, first, scan);
          if !alive { return; }
        } else {
          AsleepLives(was[a], Selected(was[a].wanted, t, first, scan, |scan|));
        }
        a := a + 1;
      }
      alive := true;
    }

    /** adna_timer_callback; false when the daemon has died. */
    method TimerCallback(scan: seq<Found>) returns (alive: bool)
      requires Sound(Value()) && Followable(ports, scan)
      modifies this`ports, tree
      ensures Sound(old(Value())) && alive == !Dies(old(Value()), scan)
      ensures alive ==> Value() == Tick(old(Value()), scan) && Sound(Value())
    {
      hide Filter.Matches, Selected, Killed, Topology.Grow, Topology.Shape, Topology.Hubs, HasBuses;
      ghost var was := Value();
      var first := |tree.devs|;
      TickSound(was, scan);
      AllHaveBuses(was, scan);
      tree.GrowTree(Places(scan));
      alive := WatchAll(first, scan);
      assert forall i :: 0 <= i < |was.ports| ==>
          Sees(was, scan, i) == Selected(was.ports[i].wanted, tree.Value(), first, scan, |scan|);
      assert alive ==> ports == Tick(was, scan).ports;
    }
  }

  lemma AsleepLives(p: Port, h: seq<Seen>)
    requires p.d3
    ensures !Killed(p, h)
  {
  }

  /** A port that died at one reading of a tick has died in the tick. */
  lemma {:induction false} KilledSoFar(p: Port, t: Topology.State, first: nat, scan: seq<Found>, d: nat)
    requires d <= |scan| && Killed(p, Selected(p.wanted, t, first, scan, d))
    ensures Killed(p, Selected(p.wanted, t, first, scan, |scan|))
    decreases |scan| - d
  {
    hide Filter.Matches, FollowsNull, Topology.HubUp, ObserveAll;
    if d < |scan| {
      var h := Selected(p.wanted, t, first, scan, d);
      if Filter.Matches(p.wanted, scan[d].Ids()) {
        KilledNext(p, h, Seen(scan[d].linkUp, Topology.HubUp(t, first + d)));
      } else {
        assert h + [] == h;
      }
      hide Killed;
      KilledSoFar(p, t, first, scan, d + 1);
    }
  }

  /** Device x has a bridge with a bus. */
  predicate HasBuses(t: Topology.State, x: nat) {
    x in t.bridgeOf && t.bridgeOf[x] < |t.bridges| && |t.bridges[t.bridgeOf[x]].buses| > 0
  }

  lemma AllHaveBuses(w: World, scan: seq<Found>)
    requires Sound(w)
    ensures forall k :: 0 <= k < |scan| && scan[k].at.IsBridge() ==>
              HasBuses(Topology.Grow(w.tree, Places(scan)), |w.tree.devs| + k)
  {
    hide Topology.Grow, Topology.Shape, Topology.Hubs;
    forall k | 0 <= k < |scan| && scan[k].at.IsBridge()
      ensures HasBuses(Topology.Grow(w.tree, Places(scan)), |w.tree.devs| + k)
    {
      Topology.HubAliveIff(w.tree, Places(scan), |w.tree.devs| + k);
    }
  }
}

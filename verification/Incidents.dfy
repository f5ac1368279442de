/** Two runs in which the hotplug daemon goes wrong, from the scan at start-up on. */
module Incidents {
  import opened CText
  import opened Hotplug
  import opened Ports
  import Filter
  import Placement
  import Topology
  import TreeRuns

  /** A device of the watched make. */
  function Make(d: Topology.Dev, linkUp: bool): Found { Found(d, 0x10b5, 0x8608, linkUp) }

  /** The decision that a new port takes on its first reading. */
  lemma FirstDecision(w: World, scan: seq<Found>, i: nat, e: Filter.Device, o: Seen)
    requires Sound(w) && i < |w.ports| && New(w.ports[i]) && !w.ports[i].d3 && Only(w.ports[i].wanted, e)
    requires Clean(scan, e) && Reading(w, scan, e) == [o]
    ensures Tick(w, scan).ports[i].done == Observe(w.ports[i], o).done
  {
    hide Only, Clean, Selected, Observe, Reading, Sound, Topology.Grow;
    SelectedIsReading(w, scan, w.ports[i].wanted, e);
    ObserveNext(w.ports[i], [], o);
    ObserveNone(w.ports[i]);
    assert [] + [o] == [o];
  }

  /* ---- a hub that is there but does not count ---- */

  const INNER_IDS: Filter.Device := Make(TreeRuns.INNER, true).Ids()

  function Before(hub: bool): seq<Found> {
    [Make(TreeRuns.OUTER0, true), Make(TreeRuns.INNER0, true)] + if hub then [Make(TreeRuns.HUB, true)] else []
  }

  function After(): seq<Found> {
    [Make(TreeRuns.OUTER, true), Make(TreeRuns.INNER, true), Make(TreeRuns.HUB, true)]
  }

  /** The tick finds the inner bridge with its link up, and its hub exactly when
      that was not there at start-up. */
  lemma InnerReading(w: World, hub: bool)
    requires Sound(w) && Started(w, Before(hub), {1}, {})
    ensures Clean(After(), INNER_IDS) && Reading(w, After(), INNER_IDS) == [Seen(true, !hub)]
  {
    hide Sound, Saved, AllLinked, Shown, Topology.Grow, Topology.Shape, Topology.Hubs, Topology.HubUp;
    var scan := After();
    assert scan[0].Ids() != INNER_IDS && scan[1].Ids() == INNER_IDS && scan[2].Ids() != INNER_IDS;
    assert Find(scan, INNER_IDS, 0) == 1;
    assert Places(scan) == [TreeRuns.OUTER, TreeRuns.INNER, TreeRuns.HUB];
    var first := Places(Before(hub));
    if hub {
      assert first == [TreeRuns.OUTER0, TreeRuns.INNER0, TreeRuns.HUB];
    } else {
      assert first == [TreeRuns.OUTER0, TreeRuns.INNER0];
    }
    StartedTree(w, Before(hub), {1}, {});
    FirstTree(w, Before(hub));
    TreeRuns.StrandedHubIsMissed();
    hide TreeRuns.TreeAfter;
  }

  lemma FirstTree(w: World, first: seq<Found>)
    requires Sound(w) && Topology.Shape(Topology.EMPTY) && w.tree == Topology.Grow(Topology.EMPTY, Places(first))
    ensures w.tree == TreeRuns.TreeAfter([Places(first)])
  {
    hide Sound, Topology.Grow, Topology.Shape;
    TreeOfRun(w, first, []);
  }

  /** The daemon saves the inner bridge as its port. On the tick after the buses
      were renumbered the hub is in the port's window, and the narrowest one that
      contains it; yet a daemon that had seen the hub before takes it for missing
      and rescans, where one that had not finds everything fine. */
  lemma HubNotCounted(w: World, hub: bool)
    requires Sound(w) && Started(w, Before(hub), {1}, {})
    ensures Placement.NarrowestCover(1, Places(After()), 0, TreeRuns.HUB.bus)
    ensures exists i :: 0 <= i < |w.ports| && Only(w.ports[i].wanted, INNER_IDS)
                        && Tick(w, After()).ports[i].done == [if hub then Rescan else Fine]
  {
    hide Sound, Started, Only, Linked, Topology.Grow, Clean, Reading;
    assert Places(After()) == [TreeRuns.OUTER, TreeRuns.INNER, TreeRuns.HUB];
    TreeRuns.HubWindows();
    InnerReading(w, hub);
    assert forall f | f in Before(hub) :: Filter.Addressable(f.Ids());
    assert Before(hub)[1].Ids() == INNER_IDS;
    var i := PortOf(w, Before(hub));
    FirstDecision(w, After(), i, INNER_IDS, Seen(true, !hub));
    assert [] + [if hub then Rescan else Fine] == [if hub then Rescan else Fine];
  }

  /** The port saved for device 1. */
  lemma PortOf(w: World, first: seq<Found>) returns (i: nat)
    requires Started(w, first, {1}, {}) && |first| > 1 && forall f | f in first :: Filter.Addressable(f.Ids())
    ensures i < |w.ports| && New(w.ports[i]) && !w.ports[i].d3 && Only(w.ports[i].wanted, first[1].Ids())
  {
    hide Started, Only, Linked, Filter.Addressable, Watches;
    StartedPorts(w, first, {1}, {});
    StartedLinked(w, first, {1}, {});
    i :| 0 <= i < |w.ports| && Watches(w.ports[i], w.tree, first, {}, 1);
    WatchesMeans(w.ports[i], w.tree, first, {}, 1);
  }

  lemma StartedLinked(w: World, first: seq<Found>, downstream: set<nat>, asleep: set<nat>)
    requires Started(w, first, downstream, asleep)
    ensures AllLinked(w.tree, first, downstream)
  {
  }

  lemma WatchesMeans(p: Port, t: Topology.State, scan: seq<Found>, asleep: set<nat>, d: nat)
    requires d < |scan| && Linked(t, scan, d) && Watches(p, t, scan, asleep, d)
    ensures New(p) && (p.d3 <==> d in asleep) && Only(p.wanted, scan[d].Ids())
    ensures p.parent == None <==> Above(t, d) == None
  {
  }

  /* ---- a port on a host bus that stays down ---- */

  function Alone(): seq<Found> { [Make(TreeRuns.OUTER0, false)] }

  /** n ticks that find the port alone and its link down. */
  function Idle(n: nat): (ticks: seq<seq<Found>>)
    ensures |ticks| == n && forall t | t in ticks :: t == Alone()
  {
    if n == 0 then [] else Idle(n - 1) + [Alone()]
  }

  lemma NoHub(s: Topology.State)
    requires Topology.Shape(s) && Topology.Hubs(s)
    ensures !Topology.HubUp(Topology.Grow(s, Places(Alone())), |s.devs|)
  {
    hide Topology.Grow, Topology.Shape, Topology.Hubs, Placement.HostLists;
    var ds := Places(Alone());
    assert ds == [TreeRuns.OUTER0];
    Topology.HubAliveIff(s, ds, |s.devs|);
    Topology.GrowKeeps(s, ds);
    assert !Placement.NarrowestCover(0, ds, 0, 0);
    Placement.BehindBridge(s, ds, 0, 0);
  }

  lemma {:induction false} IdleReadings(w: World, n: nat)
    requires Sound(w)
    ensures var h := Readings(w, Idle(n), Alone()[0].Ids());
            |h| == n && BothDowns(h) == n && forall o | o in h :: o == Seen(false, false)
  {
    hide Reading, Run, Sound, LinkDowns, HubDowns, BothDowns;
    var e := Alone()[0].Ids();
    if n == 0 {
      NoneBothDown();
    } else {
      IdleReadings(w, n - 1);
      assert Idle(n)[..n - 1] == Idle(n - 1) && Idle(n)[n - 1] == Alone();
      LoneReading(Run(w, Idle(n - 1)));
      OneMore(Readings(w, Idle(n - 1), e), Seen(false, false));
    }
  }

  lemma NoneBothDown()
    ensures BothDowns([]) == 0
  {
  }

  lemma LoneReading(u: World)
    requires Sound(u)
    ensures Reading(u, Alone(), Alone()[0].Ids()) == [Seen(false, false)]
  {
    hide Topology.Grow, Topology.HubUp, Topology.Shape, Topology.Hubs;
    NoHub(u.tree);
    assert Find(Alone(), Alone()[0].Ids(), 0) == 0;
  }

  /** A downstream port at bus 0 has no bridge above it. Down with nothing behind
      it, it ends the daemon at the tenth tick, when disable_port follows the
      missing parent. */
  lemma LonePortDies(w: World, n: nat)
    requires Sound(w) && Started(w, Alone(), {0}, {})
    ensures LiveRun(w, Idle(n)) == None <==> n >= 10
  {
    hide Sound, Started, Only, Topology.Grow, Clean, Readings, LiveRun, Run, History, Killed, BothDowns;
    var e := Alone()[0].Ids();
    assert Clean(Alone(), e) by { LoneClean(); }
    LiveRunIff(w, Idle(n));
    IdleReadings(w, n);
    forall i | 0 <= i < |w.ports| ensures Killed(w.ports[i], History(w, Idle(n), i)) <==> n >= 10 {
      LonePort(w, i);
      HistoryIsReadings(w, Idle(n), i, e);
      DownPort(w.ports[i], History(w, Idle(n), i));
    }
    HasPort(w);
    if n >= 10 { KilledSome(w, Idle(n), 0); }
  }

  lemma LoneClean()
    ensures Clean(Alone(), Alone()[0].Ids())
  {
  }

  lemma HasPort(w: World)
    requires Started(w, Alone(), {0}, {})
    ensures |w.ports| > 0
  {
    hide Linked, Topology.Grow, SavedPort;
    var ps := Saved(w.tree, Alone(), {0}, 1);
    assert ps == [SavedPort(w.tree, Alone(), {0}, 0)] + Saved(w.tree, Alone(), {0}, 0);
  }

  /** Its port is new, not in D3, watches it, and has no parent. */
  lemma LonePort(w: World, i: nat)
    requires Started(w, Alone(), {0}, {}) && i < |w.ports|
    ensures var p := w.ports[i];
            New(p) && !p.d3 && p.parent == None && Only(p.wanted, Alone()[0].Ids())
  {
    hide Started, Only, Linked, Topology.Grow, Watches, Above;
    assert forall f | f in Alone() :: Filter.Addressable(f.Ids());
    StartedPorts(w, Alone(), {0}, {});
    StartedLinked(w, Alone(), {0}, {});
    StartedTree(w, Alone(), {0}, {});
    ParentIff(Alone(), 0);
    assert Watches(w.ports[i], w.tree, Alone(), {}, 0);
    LinkedMeans(w.tree, Alone(), 0);
    WatchesMeans(w.ports[i], w.tree, Alone(), {}, 0);
  }

  /** A port without a parent that only sees itself down dies at the tenth reading. */
  lemma DownPort(p: Port, h: seq<Seen>)
    requires New(p) && !p.d3 && p.parent == None
    requires BothDowns(h) == |h| && forall o | o in h :: o == Seen(false, false)
    ensures Killed(p, h) <==> |h| >= 10
  {
    hide ObserveAll, Killed, BothDowns, Resets;
    EveryTenthFailure(p, h);
    ResetsAre(ObserveAll(p, h).done);
    KilledIff(p, h);
  }
}

/** The bus tree (src/ls-tree.c, grow_tree): bridges chained in scan order, hung
    under the host bridge, and every scanned device attached to a bus. The tree
    of the host bridge persists from one scan to the next. */
module Topology {
  import opened Config
  import opened CText

  /** A scanned device: address, class, header type, and the three bus number
      registers, which bridge and CardBus headers keep at the same places. */
  datatype Dev = Dev(domain: int, bus: Byte, dev: Byte, func: Byte, class_: U16, hdr: nat,
                     primary: Byte, secondary: Byte, subordinate: Byte)
  {
    /** (unsigned) p->domain */
    function Domain(): nat { domain % TWO32 }

    predicate IsBridge() { class_ / 0x100 == 6 && IsBridgeHeader(hdr) }
  }

  /** A bridge is of base class 6 and has header type 1 or 2. */
  lemma BridgeIff(d: Dev)
    ensures d.IsBridge() <==> 0x0600 <= d.class_ < 0x0700 && (d.hdr == 1 || d.hdr == 2)
  {
  }

  /** struct bus; devices are known by their number in the order of scanning. */
  datatype Bus = Bus(domain: nat, number: nat, devs: seq<nat>)

  /** struct bridge. `child` and `buses` are the lists it heads. */
  datatype Bridge = Bridge(domain: nat, primary: nat, secondary: nat, subordinate: nat,
                           brDev: Option<nat>, child: seq<nat>, buses: seq<Bus>)
  {
    /** subordinate - primary, in unsigned 32-bit arithmetic. */
    function Width(): nat { (subordinate - primary) % TWO32 }

    predicate Covers(domain: nat, n: nat) { this.domain == domain && secondary <= n <= subordinate }
  }

  /** host_bridge as it is initialized: primary and subordinate are ~0. */
  const HOST := Bridge(0, TWO32 - 1, 0, TWO32 - 1, None, [], [])

  /** d->parent_bus: the bridge and the key of the bus. */
  datatype Place = Place(bridge: nat, domain: nat, number: nat)

  /** Everything the tree is made of; bridge 0 is the host bridge. */
  datatype State = State(devs: seq<Dev>, bridges: seq<Bridge>, bridgeOf: map<nat, nat>, parent: map<nat, Place>)

  const EMPTY := State([], [HOST], map[], map[])

  /** find_bus: the position of a bus in the list of a bridge, or its length. */
  function FindBus(buses: seq<Bus>, domain: nat, n: nat): (k: nat)
    ensures k <= |buses|
    ensures k < |buses| ==> buses[k].domain == domain && buses[k].number == n
    ensures forall j :: 0 <= j < k ==> !(buses[j].domain == domain && buses[j].number == n)
  {
    if |buses| == 0 || (buses[0].domain == domain && buses[0].number == n) then 0
    else 1 + FindBus(buses[1..], domain, n)
  }

  /* ---- what holds at all times ---- */

  predicate HostFields(b: Bridge) {
    b.domain == 0 && b.primary == TWO32 - 1 && b.secondary == 0 && b.subordinate == TWO32 - 1 && b.brDev == None
  }

  /** Every bridge hangs directly under the host bridge, at most once. */
  ghost predicate Flat(bridges: seq<Bridge>) {
    && |bridges| > 0 && HostFields(bridges[0])
    && (forall i :: 0 < i < |bridges| ==>
          bridges[i].child == [] && bridges[i].subordinate < 0x100 && bridges[i].primary < 0x100)
    && (forall i :: 0 <= i < |bridges[0].child| ==> 0 < bridges[0].child[i] < |bridges|)
    && (forall i, j :: 0 <= i < j < |bridges[0].child| ==> bridges[0].child[i] != bridges[0].child[j])
  }

  /** The children of the host bridge exist. */
  predicate ChildrenExist(bridges: seq<Bridge>) {
    |bridges| > 0 && forall i :: 0 <= i < |bridges[0].child| ==> bridges[0].child[i] < |bridges|
  }

  ghost predicate DistinctBuses(buses: seq<Bus>) {
    forall j, k :: 0 <= j < k < |buses| ==> !(buses[j].domain == buses[k].domain && buses[j].number == buses[k].number)
  }

  /** No list names a device twice, and device d is on this bus exactly when its
      parent link says so. */
  ghost predicate BusAgrees(s: State, i: nat, bus: Bus) {
    && (forall j, k :: 0 <= j < k < |bus.devs| ==> bus.devs[j] != bus.devs[k])
    && (forall d: nat :: d in bus.devs <==> d in s.parent && s.parent[d] == Place(i, bus.domain, bus.number))
    && (forall d | d in bus.devs :: d < |s.devs| && s.devs[d].Domain() == bus.domain && s.devs[d].bus == bus.number)
  }

  /** Every parent link leads to an existing bus. */
  ghost predicate Linked(s: State, d: nat)
    requires d in s.parent
  {
    var p := s.parent[d];
    p.bridge < |s.bridges| && FindBus(s.bridges[p.bridge].buses, p.domain, p.number) < |s.bridges[p.bridge].buses|
  }

  ghost predicate Shape(s: State) {
    && Flat(s.bridges)
    && (forall i :: 0 <= i < |s.bridges| ==> DistinctBuses(s.bridges[i].buses))
    && (forall i, bus :: 0 <= i < |s.bridges| && bus in s.bridges[i].buses ==> BusAgrees(s, i, bus))
    && (forall d | d in s.parent :: Linked(s, d))
  }

  /** A bridge with its secondary bus at the end of the list: buses in front of
      it were made for a device. */
  ghost predicate HubShape(b: Bridge) {
    |b.buses| > 0 && forall k :: 0 <= k < |b.buses| - 1 ==> b.buses[k].devs != []
  }

  /* ---- attaching a device ---- */

  /** The child whose window contains the bus, as the list search finds it. */
  function Child(bridges: seq<Bridge>, child: seq<nat>, domain: nat, n: nat): (r: Option<nat>)
    requires forall i :: 0 <= i < |child| ==> child[i] < |bridges|
    ensures r.Some? ==> r.value in child && r.value < |bridges| && bridges[r.value].Covers(domain, n)
    ensures r == None ==> forall i :: 0 <= i < |child| ==> !bridges[child[i]].Covers(domain, n)
  {
    if child == [] then None
    else if bridges[child[0]].Covers(domain, n) then Some(child[0]) else Child(bridges, child[1..], domain, n)
  }

  /** The bridge that insert_dev gives a device to. */
  function Receiver(bridges: seq<Bridge>, domain: nat, n: nat): (r: nat)
    requires ChildrenExist(bridges)
    ensures r < |bridges|
  {
    if FindBus(bridges[0].buses, domain, n) < |bridges[0].buses| then 0
    else
      var c := Child(bridges, bridges[0].child, domain, n);
      if c == None then 0 else c.value
  }

  /** The end of insert_dev: append to the bus, making it first if need be. */
  function Join(buses: seq<Bus>, domain: nat, n: nat, d: nat): seq<Bus> {
    var k := FindBus(buses, domain, n);
    if k < |buses| then buses[k := buses[k].(devs := buses[k].devs + [d])] else [Bus(domain, n, [d])] + buses
  }

  function Attach(s: State, r: nat, d: nat): State
    requires r < |s.bridges| && d < |s.devs|
  {
    var p := s.devs[d];
    s.(bridges := s.bridges[r := s.bridges[r].(buses := Join(s.bridges[r].buses, p.Domain(), p.bus, d))],
       parent := s.parent[d := Place(r, p.Domain(), p.bus)])
  }

  function Insert(s: State, d: nat): State
    requires ChildrenExist(s.bridges) && d < |s.devs|
  {
    Attach(s, Receiver(s.bridges, s.devs[d].Domain(), s.devs[d].bus), d)
  }

  lemma AttachShape(s: State, r: nat, d: nat)
    requires Shape(s) && r < |s.bridges| && d < |s.devs| && d !in s.parent
    ensures Shape(Attach(s, r, d))
  {
    var t := Attach(s, r, d);
    var dom, n := s.devs[d].Domain(), s.devs[d].bus;
    var old_, new_ := s.bridges[r].buses, t.bridges[r].buses;
    JoinDistinct(old_, dom, n, d);
    forall i, bus | 0 <= i < |t.bridges| && bus in t.bridges[i].buses ensures BusAgrees(t, i, bus) {
      if i == r { JoinAgrees(s, r, d, bus); } else { OtherAgrees(s, r, d, i, bus); }
    }
    forall x | x in t.parent ensures Linked(t, x) {
      if x == d { JoinFinds(old_, dom, n, d, dom, n); }
      else {
        assert Linked(s, x);
        var p := s.parent[x];
        if p.bridge == r { JoinFinds(old_, dom, n, d, p.domain, p.number); }
      }
    }
  }

  lemma JoinDistinct(buses: seq<Bus>, domain: nat, n: nat, d: nat)
    requires DistinctBuses(buses)
    ensures DistinctBuses(Join(buses, domain, n, d))
  {
  }

  /** A joined list still has its buses, and has the one of the new device. */
  lemma JoinFinds(buses: seq<Bus>, domain: nat, n: nat, d: nat, dom': nat, n': nat)
    requires FindBus(buses, dom', n') < |buses| || (dom' == domain && n' == n)
    ensures FindBus(Join(buses, domain, n, d), dom', n') < |Join(buses, domain, n, d)|
  {
    var after := Join(buses, domain, n, d);
    var k := FindBus(buses, domain, n);
    var k' := FindBus(buses, dom', n');
    if k' < |buses| {
      var j := if k < |buses| then k' else k' + 1;
      assert after[j].domain == dom' && after[j].number == n';
    } else {
      assert after[if k < |buses| then k else 0].domain == dom';
    }
  }

  lemma OtherAgrees(s: State, r: nat, d: nat, i: nat, bus: Bus)
    requires Shape(s) && r < |s.bridges| && d < |s.devs| && d !in s.parent
    requires i < |s.bridges| && i != r && bus in s.bridges[i].buses
    ensures BusAgrees(Attach(s, r, d), i, bus)
  {
    assert BusAgrees(s, i, bus);
  }

  lemma JoinAgrees(s: State, r: nat, d: nat, bus: Bus)
    requires Shape(s) && r < |s.bridges| && d < |s.devs| && d !in s.parent
    requires bus in Attach(s, r, d).bridges[r].buses
    ensures BusAgrees(Attach(s, r, d), r, bus)
  {
    hide Flat;
    var dom, n := s.devs[d].Domain(), s.devs[d].bus;
    var before := s.bridges[r].buses;
    var k := FindBus(before, dom, n);
    if bus in before {
      assert BusAgrees(s, r, bus);
      var j :| 0 <= j < |before| && before[j] == bus;
      assert bus.domain == dom && bus.number == n ==> k < |before| && j == k;
    } else if k < |before| {
      assert BusAgrees(s, r, before[k]);
      assert bus == before[k].(devs := before[k].devs + [d]);
    } else {
      assert bus == Bus(dom, n, [d]);
      forall x | x in s.parent ensures s.parent[x] != Place(r, dom, n) { assert Linked(s, x); }
    }
  }

  lemma JoinHub(b: Bridge, domain: nat, n: nat, d: nat)
    requires HubShape(b)
    ensures HubShape(b.(buses := Join(b.buses, domain, n, d)))
  {
  }

  /* ---- the four passes of grow_tree ---- */

  function NewBridge(d: nat, p: Dev): Bridge {
    Bridge(p.Domain(), p.primary, p.secondary, p.subordinate, Some(d), [], [])
  }

  /** First pass, for one device. */
  function AddBridge(s: State, d: nat): State
    requires d < |s.devs|
  {
    if s.devs[d].IsBridge() then
      s.(bridges := s.bridges + [NewBridge(d, s.devs[d])], bridgeOf := s.bridgeOf[d := |s.bridges|])
    else s
  }

  /** First pass over the k devices from number d on. */
  function Build(s: State, d: nat, k: nat): (t: State)
    requires d + k <= |s.devs|
    ensures t.devs == s.devs && t.parent == s.parent && s.bridges <= t.bridges
  {
    if k == 0 then s else AddBridge(Build(s, d, k - 1), d + k - 1)
  }

  /** hi - 1, ..., lo */
  function Down(lo: nat, hi: nat): (s: seq<nat>)
    ensures lo <= hi ==> |s| == hi - lo && forall i :: 0 <= i < |s| ==> s[i] == hi - 1 - i
    ensures lo > hi ==> s == []
  {
    if lo >= hi then [] else [hi - 1] + Down(lo, hi - 1)
  }

  /** Second pass: the bridges from number m on, each at the head of the list. */
  function Hang(s: State, m: nat): State
    requires 0 < m <= |s.bridges|
  {
    var host := s.bridges[0];
    s.(bridges := s.bridges[0 := host.(child := Down(m, |s.bridges|) + host.child)])
  }

  /** Third pass, for one bridge. */
  function WithSecondary(b: Bridge): Bridge {
    if FindBus(b.buses, b.domain, b.secondary) < |b.buses| then b
    else b.(buses := [Bus(b.domain, b.secondary, [])] + b.buses)
  }

  /** Third pass for the host bridge and k bridges from number m on. */
  function Seconds(s: State, m: nat, k: nat): (t: State)
    requires 0 < m && m + k <= |s.bridges|
    ensures |t.bridges| == |s.bridges| && t.devs == s.devs && t.parent == s.parent && t.bridgeOf == s.bridgeOf
    ensures forall i :: 0 <= i < |s.bridges| ==>
              t.bridges[i] == if i == 0 || m <= i < m + k then WithSecondary(s.bridges[i]) else s.bridges[i]
  {
    if k == 0 then s.(bridges := s.bridges[0 := WithSecondary(s.bridges[0])])
    else
      var t := Seconds(s, m, k - 1);
      t.(bridges := t.bridges[m + k - 1 := WithSecondary(t.bridges[m + k - 1])])
  }

  /** Fourth pass over the k devices from number d on. */
  function InsertAll(s: State, d: nat, k: nat): (t: State)
    requires ChildrenExist(s.bridges) && d + k <= |s.devs|
    ensures t.devs == s.devs && |t.bridges| == |s.bridges| && ChildrenExist(t.bridges)
  {
    if k == 0 then s else Insert(InsertAll(s, d, k - 1), d + k - 1)
  }

  lemma ShapeChildren(s: State)
    requires Shape(s)
    ensures ChildrenExist(s.bridges)
  {
  }

  lemma ShapeFlat(s: State)
    requires Shape(s)
    ensures Flat(s.bridges)
  {
  }

  lemma {:induction false} InsertAllShape(s: State, d: nat, k: nat)
    requires Shape(s) && d + k <= |s.devs| && forall x :: d <= x < d + k ==> x !in s.parent
    ensures Shape(InsertAll(s, d, k)) && InsertAll(s, d, k).bridgeOf == s.bridgeOf
    ensures forall x :: x in InsertAll(s, d, k).parent <==> x in s.parent || d <= x < d + k
    ensures forall x | x in s.parent :: InsertAll(s, d, k).parent[x] == s.parent[x]
    decreases k
  {
    hide Shape, Receiver, Join;
    if k > 0 {
      ShapeChildren(s);
      var t, x := InsertAll(s, d, k - 1), d + k - 1;
      InsertAllShape(s, d, k - 1);
      AttachShape(t, Receiver(t.bridges, t.devs[x].Domain(), t.devs[x].bus), x);
    }
  }

  function Scanned(s: State, scan: seq<Dev>): State {
    s.(devs := s.devs + scan)
  }

  /** The tree before devices are attached. */
  function Framed(s: State, scan: seq<Dev>): State
    requires |s.bridges| > 0
  {
    var t := Build(Scanned(s, scan), |s.devs|, |scan|);
    Seconds(Hang(t, |s.bridges|), |s.bridges|, |t.bridges| - |s.bridges|)
  }

  /** grow_tree */
  function Grow(s: State, scan: seq<Dev>): State
    requires Shape(s)
  {
    FramedShape(s, scan);
    assert ChildrenExist(Framed(s, scan).bridges);
    InsertAll(Framed(s, scan), |s.devs|, |scan|)
  }

  lemma AddBridgeShape(s: State, d: nat)
    requires Shape(s) && d < |s.devs|
    ensures Shape(AddBridge(s, d))
  {
    var t := AddBridge(s, d);
    forall i, bus | 0 <= i < |t.bridges| && bus in t.bridges[i].buses ensures BusAgrees(t, i, bus) {
      assert BusAgrees(s, i, bus);
    }
    forall x | x in t.parent ensures Linked(t, x) { assert Linked(s, x); }
  }

  lemma {:induction false} BuildShape(s: State, d: nat, k: nat)
    requires Shape(s) && d + k <= |s.devs|
    ensures Shape(Build(s, d, k))
    decreases k
  {
    hide Shape, AddBridge;
    if k > 0 {
      BuildShape(s, d, k - 1);
      AddBridgeShape(Build(s, d, k - 1), d + k - 1);
    }
  }

  lemma HangShape(s: State, m: nat)
    requires Shape(s) && 0 < m <= |s.bridges|
    requires forall i :: 0 <= i < |s.bridges[0].child| ==> s.bridges[0].child[i] < m
    ensures Shape(Hang(s, m))
  {
    var t := Hang(s, m);
    forall i, bus | 0 <= i < |t.bridges| && bus in t.bridges[i].buses ensures BusAgrees(t, i, bus) {
      assert BusAgrees(s, i, bus);
    }
    forall x | x in t.parent ensures Linked(t, x) { assert Linked(s, x); }
  }

  lemma SecondaryFinds(b: Bridge, domain: nat, n: nat)
    requires FindBus(b.buses, domain, n) < |b.buses|
    ensures FindBus(WithSecondary(b).buses, domain, n) < |WithSecondary(b).buses|
  {
    var after := WithSecondary(b).buses;
    var k := FindBus(b.buses, domain, n);
    assert after[if after == b.buses then k else k + 1] == b.buses[k];
  }

  lemma SecondAgrees(s: State, m: nat, k: nat, i: nat, bus: Bus)
    requires Shape(s) && 0 < m && m + k <= |s.bridges| && i < |s.bridges|
    requires bus in Seconds(s, m, k).bridges[i].buses
    ensures BusAgrees(Seconds(s, m, k), i, bus)
  {
    var b := s.bridges[i];
    if bus in b.buses {
      assert BusAgrees(s, i, bus);
    } else {
      assert bus == Bus(b.domain, b.secondary, []);
      forall x | x in s.parent ensures s.parent[x] != Place(i, b.domain, b.secondary) { assert Linked(s, x); }
    }
  }

  lemma SecondDistinct(b: Bridge)
    requires DistinctBuses(b.buses)
    ensures DistinctBuses(WithSecondary(b).buses)
  {
  }

  lemma SecondsFlat(s: State, m: nat, k: nat)
    requires Flat(s.bridges) && 0 < m && m + k <= |s.bridges|
    ensures Flat(Seconds(s, m, k).bridges)
  {
    hide FindBus;
  }

  lemma SecondsShape(s: State, m: nat, k: nat)
    requires Shape(s) && 0 < m && m + k <= |s.bridges|
    ensures Shape(Seconds(s, m, k))
  {
    var t := Seconds(s, m, k);
    SecondsFlat(s, m, k);
    hide BusAgrees, DistinctBuses, FindBus, WithSecondary, Flat;
    forall i | 0 <= i < |t.bridges| ensures DistinctBuses(t.bridges[i].buses) { SecondDistinct(s.bridges[i]); }
    forall i, bus | 0 <= i < |t.bridges| && bus in t.bridges[i].buses ensures BusAgrees(t, i, bus) {
      SecondAgrees(s, m, k, i, bus);
    }
    forall x | x in t.parent ensures Linked(t, x) {
      assert Linked(s, x);
      var p := s.parent[x];
      SecondaryFinds(s.bridges[p.bridge], p.domain, p.number);
    }
  }

  lemma FramedShape(s: State, scan: seq<Dev>)
    requires Shape(s)
    ensures Shape(Framed(s, scan)) && Framed(s, scan).devs == s.devs + scan && Framed(s, scan).parent == s.parent
    ensures forall x | |s.devs| <= x < |s.devs| + |scan| :: x !in s.parent
  {
    hide Shape;
    ScannedShape(s, scan);
    BuildShape(Scanned(s, scan), |s.devs|, |scan|);
    var t := Build(Scanned(s, scan), |s.devs|, |scan|);
    OldChildren(s, t, |s.bridges|);
    HangShape(t, |s.bridges|);
    SecondsShape(Hang(t, |s.bridges|), |s.bridges|, |t.bridges| - |s.bridges|);
  }

  lemma OldChildren(s: State, t: State, m: nat)
    requires Shape(s) && s.bridges <= t.bridges && m == |s.bridges|
    ensures m > 0 && forall i :: 0 <= i < |t.bridges[0].child| ==> t.bridges[0].child[i] < m
  {
  }

  lemma ScannedShape(s: State, scan: seq<Dev>)
    requires Shape(s)
    ensures Shape(Scanned(s, scan)) && forall x | x in s.parent :: x < |s.devs|
  {
    var t := Scanned(s, scan);
    forall i, bus | 0 <= i < |t.bridges| && bus in t.bridges[i].buses ensures BusAgrees(t, i, bus) {
      assert BusAgrees(s, i, bus);
    }
    forall x | x in s.parent ensures Linked(t, x) && x < |s.devs| {
      assert Linked(s, x);
      var p := s.parent[x];
      var k := FindBus(s.bridges[p.bridge].buses, p.domain, p.number);
      assert BusAgrees(s, p.bridge, s.bridges[p.bridge].buses[k]);
    }
  }

  /* ---- each device on one bus; hubs ---- */

  /** One scan keeps the shape of the tree, whatever the bridge registers say;
      every new device gets exactly one place, and no old one moves. */
  lemma GrowKeeps(s: State, scan: seq<Dev>)
    requires Shape(s)
    ensures var t := Grow(s, scan);
            && Shape(t) && t.devs == s.devs + scan
            && (forall d :: d in t.parent <==> d in s.parent || |s.devs| <= d < |t.devs|)
            && (forall d | d in s.parent :: t.parent[d] == s.parent[d])
  {
    ShapeChildren(s);
    hide Shape, Framed;
    FramedShape(s, scan);
    InsertAllShape(Framed(s, scan), |s.devs|, |scan|);
  }

  /** A device of a tree in shape is on exactly one bus, once, and that bus has
      the device's own domain and number. */
  lemma OnExactlyOneBus(s: State, d: nat)
    requires Shape(s) && d in s.parent
    ensures var p := s.parent[d];
            p.bridge < |s.bridges| &&
            var buses := s.bridges[p.bridge].buses;
            var k := FindBus(buses, p.domain, p.number);
            k < |buses| && d in buses[k].devs && d < |s.devs|
            && p.domain == s.devs[d].Domain() && p.number == s.devs[d].bus
            && (forall i | 0 <= i < |s.bridges| ::
                  forall j | 0 <= j < |s.bridges[i].buses| && d in s.bridges[i].buses[j].devs ::
                    i == p.bridge && j == k)
            && (forall a, b :: 0 <= a < b < |buses[k].devs| ==> buses[k].devs[a] != buses[k].devs[b])
  {
    assert Linked(s, d);
    var p := s.parent[d];
    var buses := s.bridges[p.bridge].buses;
    var k := FindBus(buses, p.domain, p.number);
    assert BusAgrees(s, p.bridge, buses[k]);
    forall i, j | 0 <= i < |s.bridges| && 0 <= j < |s.bridges[i].buses| && d in s.bridges[i].buses[j].devs
      ensures i == p.bridge && j == k
    {
      assert BusAgrees(s, i, s.bridges[i].buses[j]);
    }
  }

  predicate Increasing(devs: seq<nat>) {
    forall j, k :: 0 <= j < k < |devs| ==> devs[j] < devs[k]
  }

  /** Every bus lists its devices in the order in which they were scanned. */
  ghost predicate Ordered(bridges: seq<Bridge>) {
    forall i, bus :: 0 <= i < |bridges| && bus in bridges[i].buses ==> Increasing(bus.devs)
  }

  lemma AttachOrdered(s: State, r: nat, d: nat)
    requires Shape(s) && Ordered(s.bridges) && r < |s.bridges| && d < |s.devs| && forall x | x in s.parent :: x < d
    ensures Ordered(Attach(s, r, d).bridges)
  {
    var dom, n := s.devs[d].Domain(), s.devs[d].bus;
    var before := s.bridges[r].buses;
    var t := Attach(s, r, d);
    forall i, bus | 0 <= i < |t.bridges| && bus in t.bridges[i].buses ensures Increasing(bus.devs) {
      if bus !in s.bridges[i].buses {
        var k := FindBus(before, dom, n);
        if k < |before| {
          assert BusAgrees(s, r, before[k]) && Increasing(before[k].devs);
          assert bus == before[k].(devs := before[k].devs + [d]);
          forall j | 0 <= j < |before[k].devs| ensures before[k].devs[j] < d {
            assert before[k].devs[j] in before[k].devs;
          }
        } else {
          assert bus == Bus(dom, n, [d]);
        }
      } else {
        assert Increasing(bus.devs);
      }
    }
  }

  lemma {:induction false} InsertAllOrdered(s: State, d: nat, k: nat)
    requires Shape(s) && Ordered(s.bridges) && d + k <= |s.devs| && forall x | x in s.parent :: x < d
    requires ChildrenExist(s.bridges)
    ensures Ordered(InsertAll(s, d, k).bridges)
    decreases k
  {
    hide Shape, Ordered, Receiver, Join;
    if k > 0 {
      InsertAllOrdered(s, d, k - 1);
      InsertAllShape(s, d, k - 1);
      var t, x := InsertAll(s, d, k - 1), d + k - 1;
      AttachOrdered(t, Receiver(t.bridges, t.devs[x].Domain(), t.devs[x].bus), x);
    }
  }

  lemma FramedOrdered(s: State, scan: seq<Dev>)
    requires Shape(s) && Ordered(s.bridges)
    ensures Ordered(Framed(s, scan).bridges)
  {
    BuildOrder(Scanned(s, scan), |s.devs|, |scan|);
    var t := Build(Scanned(s, scan), |s.devs|, |scan|);
    hide Build, FindBus, Shape;
    var u := Framed(s, scan);
    forall i, bus | 0 <= i < |u.bridges| && bus in u.bridges[i].buses ensures Increasing(bus.devs) {
      if i < |s.bridges| {
        assert t.bridges[i] == s.bridges[i];
        assert bus in s.bridges[i].buses || bus.devs == [];
      } else {
        assert t.bridges[i].buses == [];
      }
    }
  }

  /** Appending keeps every bus in the order of the scan, over any ticks. */
  lemma GrowOrdered(s: State, scan: seq<Dev>)
    requires Shape(s) && Ordered(s.bridges)
    ensures Ordered(Grow(s, scan).bridges)
  {
    hide Shape, Ordered, Framed;
    ShapeChildren(s);
    ScannedShape(s, scan);
    FramedShape(s, scan);
    FramedOrdered(s, scan);
    ShapeChildren(Framed(s, scan));
    InsertAllOrdered(Framed(s, scan), |s.devs|, |scan|);
  }

  /** Bridges in use before the tick have their secondary bus. */
  ghost predicate Hubs(s: State) { forall i :: 0 < i < |s.bridges| ==> HubShape(s.bridges[i]) }

  lemma FramedHubs(s: State, scan: seq<Dev>)
    requires Shape(s) && Hubs(s)
    ensures Hubs(Framed(s, scan))
  {
    ScannedShape(s, scan);
    BuildOrder(Scanned(s, scan), |s.devs|, |scan|);
    var t := Build(Scanned(s, scan), |s.devs|, |scan|);
    hide Build, FindBus;
    var u := Framed(s, scan);
    forall i | 0 < i < |u.bridges| ensures HubShape(u.bridges[i]) {
      if i < |s.bridges| {
        assert t.bridges[i] == s.bridges[i] && HubShape(s.bridges[i]);
      } else {
        OneBus(t.bridges[i]);
      }
    }
  }

  lemma OneBus(b: Bridge)
    requires b.buses == []
    ensures HubShape(WithSecondary(b))
  {
  }

  lemma {:induction false} InsertAllHubs(s: State, d: nat, k: nat)
    requires ChildrenExist(s.bridges) && d + k <= |s.devs| && Hubs(s)
    ensures Hubs(InsertAll(s, d, k))
    decreases k
  {
    hide HubShape, Join, Receiver;
    if k > 0 {
      var t, x := InsertAll(s, d, k - 1), d + k - 1;
      InsertAllHubs(s, d, k - 1);
      var r := Receiver(t.bridges, t.devs[x].Domain(), t.devs[x].bus);
      forall i | 0 < i < |t.bridges| ensures HubShape(Insert(t, x).bridges[i]) {
        if i == r { JoinHub(t.bridges[r], t.devs[x].Domain(), t.devs[x].bus, x); }
      }
    }
  }

  lemma GrowHubs(s: State, scan: seq<Dev>)
    requires Shape(s) && Hubs(s)
    ensures Hubs(Grow(s, scan))
  {
    ShapeChildren(s);
    hide Shape, Hubs, Framed;
    FramedShape(s, scan);
    FramedHubs(s, scan);
    ShapeChildren(Framed(s, scan));
    InsertAllHubs(Framed(s, scan), |s.devs|, |scan|);
  }

  /** pci_is_hub_alive: the first bus in the bridge's list has a device. */
  predicate HubAlive(b: Bridge)
    requires |b.buses| > 0
  {
    b.buses[0].devs != []
  }

  /** pci_is_hub_alive for device x of a tree. */
  predicate HubUp(t: State, x: nat) {
    && x in t.bridgeOf && t.bridgeOf[x] < |t.bridges|
    && |t.bridges[t.bridgeOf[x]].buses| > 0 && HubAlive(t.bridges[t.bridgeOf[x]])
  }

  lemma {:induction false} BuildNames(s: State, d: nat, k: nat, x: nat)
    requires d + k <= |s.devs| && d <= x < d + k && s.devs[x].IsBridge()
    ensures var t := Build(s, d, k);
            x in t.bridgeOf && |s.bridges| <= t.bridgeOf[x] < |t.bridges| && t.bridges[t.bridgeOf[x]].brDev == Some(x)
    decreases k
  {
    if x < d + k - 1 { BuildNames(s, d, k - 1, x); }
  }

  /** The bridge of a device that was just scanned is one of this scan. */
  lemma GrowNames(s: State, scan: seq<Dev>, x: nat)
    requires Shape(s) && |s.devs| <= x < |s.devs| + |scan| && scan[x - |s.devs|].IsBridge()
    ensures var t := Grow(s, scan); x in t.bridgeOf && |s.bridges| <= t.bridgeOf[x] < |t.bridges|
  {
    BuildNames(Scanned(s, scan), |s.devs|, |scan|, x);
    hide Build, Shape;
    FramedShape(s, scan);
    InsertAllShape(Framed(s, scan), |s.devs|, |scan|);
  }

  /** A hub is alive exactly when a device of this scan sits behind its bridge,
      also when buses were pushed in front of the secondary one. */
  lemma HubAliveIff(s: State, scan: seq<Dev>, x: nat)
    requires Shape(s) && Hubs(s)
    requires |s.devs| <= x < |s.devs| + |scan| && scan[x - |s.devs|].IsBridge()
    ensures var t := Grow(s, scan);
            x in t.bridgeOf && t.bridgeOf[x] < |t.bridges| && |t.bridges[t.bridgeOf[x]].buses| > 0 &&
            (HubAlive(t.bridges[t.bridgeOf[x]]) <==>
              exists e :: |s.devs| <= e < |t.devs| && e in t.parent && t.parent[e].bridge == t.bridgeOf[x])
  {
    hide Grow;
    GrowNames(s, scan, x);
    GrowKeeps(s, scan);
    GrowHubs(s, scan);
    var t := Grow(s, scan);
    var i := t.bridgeOf[x];
    var b := t.bridges[i];
    assert HubShape(b);
    forall d | d in s.parent ensures t.parent[d].bridge < |s.bridges| { assert Linked(s, d); }
    if HubAlive(b) {
      var e := b.buses[0].devs[0];
      assert BusAgrees(t, i, b.buses[0]);
      assert e in t.parent && t.parent[e].bridge == i;
    }
    if e :| |s.devs| <= e < |t.devs| && e in t.parent && t.parent[e].bridge == i {
      OnExactlyOneBus(t, e);
    }
  }

  /* ---- bridges in the order of the scan ---- */

  /** The bridges from number m on belong to scanned bridges numbered in [lo, hi). */
  ghost predicate Belong(devs: seq<Dev>, bridges: seq<Bridge>, m: nat, lo: nat, hi: nat)
    requires hi <= |devs|
  {
    && (forall i :: m <= i < |bridges| ==>
          && bridges[i].brDev.Some? && lo <= bridges[i].brDev.value < hi
          && devs[bridges[i].brDev.value].IsBridge()
          && bridges[i] == NewBridge(bridges[i].brDev.value, devs[bridges[i].brDev.value]))
    && (forall i, j :: m <= i < j < |bridges| ==> bridges[i].brDev.value < bridges[j].brDev.value)
  }

  lemma BelongGrows(devs: seq<Dev>, bridges: seq<Bridge>, m: nat, lo: nat, hi: nat)
    requires m <= |bridges| && lo <= hi < |devs| && devs[hi].IsBridge() && Belong(devs, bridges, m, lo, hi)
    ensures Belong(devs, bridges + [NewBridge(hi, devs[hi])], m, lo, hi + 1)
  {
    var longer := bridges + [NewBridge(hi, devs[hi])];
    assert forall i :: m <= i < |bridges| ==> longer[i] == bridges[i];
  }

  /** Bridges are numbered in the order of scanning. */
  lemma {:induction false} BuildOrder(s: State, d: nat, k: nat)
    requires d + k <= |s.devs|
    ensures Belong(s.devs, Build(s, d, k).bridges, |s.bridges|, d, d + k)
    decreases k
  {
    hide NewBridge;
    if k > 0 {
      var t, x := Build(s, d, k - 1), d + k - 1;
      BuildOrder(s, d, k - 1);
      if s.devs[x].IsBridge() { BelongGrows(s.devs, t.bridges, |s.bridges|, d, x); }
    }
  }

  /* ---- the tree updated in place ---- */

  /** c may be the parent of b: the test in the second pass. */
  predicate MayHold(bridges: seq<Bridge>, c: nat, b: nat)
    requires c < |bridges| && b < |bridges|
  {
    c != b && (c == 0 || bridges[b].domain == bridges[c].domain)
    && bridges[c].secondary <= bridges[b].primary <= bridges[c].subordinate
  }

  predicate OnChain(m: nat, count: nat, c: nat) { c < count && (c == 0 || c >= m) }

  /** What the second pass looks for: of the bridges on the chain before position
      `hi` that may hold b, the first of the narrowest. */
  ghost predicate Chosen(bridges: seq<Bridge>, m: nat, hi: nat, b: nat, best: Option<nat>)
    requires hi <= |bridges| && b < |bridges|
  {
    match best
    case None => forall c: nat :: OnChain(m, hi, c) ==> !MayHold(bridges, c, b)
    case Some(w) =>
      && OnChain(m, hi, w) && MayHold(bridges, w, b)
      && forall c: nat :: OnChain(m, hi, c) && MayHold(bridges, c, b) ==>
           bridges[w].Width() <= bridges[c].Width() && (c < w ==> bridges[w].Width() < bridges[c].Width())
  }

  /** The host bridge spans every bus but has width 0 in unsigned arithmetic, so
      it beats every real bridge: the bridge tree is flat. */
  lemma BestIsHost(bridges: seq<Bridge>, m: nat, b: nat, best: Option<nat>)
    requires Flat(bridges) && OnChain(m, |bridges|, b) && Chosen(bridges, m, |bridges|, b, best)
    ensures best == if b == 0 then None else Some(0)
  {
    assert bridges[0].Width() == 0;
    if b > 0 {
      assert OnChain(m, |bridges|, 0) && MayHold(bridges, 0, b);
    } else {
      assert forall c :: 0 < c < |bridges| ==> !MayHold(bridges, c, 0);
    }
  }

  lemma {:induction false} ChildAt(bridges: seq<Bridge>, child: seq<nat>, i: nat, domain: nat, n: nat)
    requires forall j :: 0 <= j < |child| ==> child[j] < |bridges|
    requires i <= |child| && forall j :: 0 <= j < i ==> !bridges[child[j]].Covers(domain, n)
    requires i < |child| ==> bridges[child[i]].Covers(domain, n)
    ensures Child(bridges, child, domain, n) == if i < |child| then Some(child[i]) else None
  {
    if i > 0 {
      assert forall j :: 0 <= j < i - 1 ==> child[1..][j] == child[j + 1];
      ChildAt(bridges, child[1..], i - 1, domain, n);
    }
  }

  /** new_bus, then the device at its end. */
  lemma JoinFront(buses: seq<Bus>, domain: nat, n: nat, d: nat)
    ensures var longer := [Bus(domain, n, [])] + buses;
            FindBus(buses, domain, n) == |buses| ==>
              longer[0 := longer[0].(devs := longer[0].devs + [d])] == Join(buses, domain, n, d)
  {
    assert [] + [d] == [d];
  }

  lemma DownStart(m: nat, tail: seq<nat>)
    ensures Down(m, m) + tail == tail
    ensures m > 0 ==> Down(m, 0) + tail == tail
  {
  }

  lemma DownStep(m: nat, b: nat, tail: seq<nat>)
    requires m <= b
    ensures Down(m, b + 1) + tail == [b] + (Down(m, b) + tail)
  {
  }

  /** The tree stays flat while bridges are hung. */
  lemma HungFlat(bridges: seq<Bridge>, m: nat, b: nat)
    requires Flat(bridges) && 0 < m && b <= |bridges|
    requires forall i :: 0 <= i < |bridges[0].child| ==> bridges[0].child[i] < m
    ensures Flat(bridges[0 := bridges[0].(child := Down(m, b) + bridges[0].child)])
  {
  }

  lemma ShapeInsertable(s: State)
    requires Shape(s)
    ensures ChildrenExist(s.bridges) && 0 !in s.bridges[0].child
    ensures forall i :: 0 < i < |s.bridges| ==> s.bridges[i].child == []
  {
  }

  class Tree {
    var devs: seq<Dev>
    var bridges: seq<Bridge>
    var bridgeOf: map<nat, nat>
    var parent: map<nat, Place>

    ghost function Value(): State
      reads this
    {
      State(devs, bridges, bridgeOf, parent)
    }

    constructor ()
      ensures Value() == EMPTY
      ensures Shape(Value()) && Hubs(Value())
    {
      devs, bridges, bridgeOf, parent := [], [HOST], map[], map[];
    }

    /** find_bus */
    method BusOf(b: nat, domain: nat, n: nat) returns (k: nat)
      requires b < |bridges|
      ensures k == FindBus(bridges[b].buses, domain, n)
    {
      var buses := bridges[b].buses;
      k := 0;
      while k < |buses| && !(buses[k].domain == domain && buses[k].number == n)
        invariant k <= |buses|
        invariant forall j :: 0 <= j < k ==> !(buses[j].domain == domain && buses[j].number == n)
      {
        k := k + 1;
      }
    }

    /** new_bus */
    method NewBus(b: nat, domain: nat, n: nat)
      requires b < |bridges|
      modifies `bridges
      ensures bridges == old(bridges)[b := old(bridges[b]).(buses := [Bus(domain, n, [])] + old(bridges[b].buses))]
    {
      bridges := bridges[b := bridges[b].(buses := [Bus(domain, n, [])] + bridges[b].buses)];
    }

    /** First pass: the devices from number `first` on. */
    method BuildBridges(first: nat)
      requires first <= |devs|
      modifies `bridges, `bridgeOf
      ensures Value() == Build(old(Value()), first, |devs| - first)
    {
      var d := first;
      while d < |devs|
        invariant first <= d <= |devs|
        invariant Value() == Build(old(Value()), first, d - first)
      {
        var p := devs[d];
        if p.IsBridge() {
          bridgeOf := bridgeOf[d := |bridges|];
          bridges := bridges + [NewBridge(d, p)];
        }
        d := d + 1;
      }
    }

    /** The inner loop of the second pass, over the chain of the host bridge and
        the bridges from number m on. */
    method FindBest(m: nat, b: nat) returns (best: Option<nat>)
      requires 0 < m <= |bridges| && b < |bridges|
      ensures Chosen(bridges, m, |bridges|, b, best)
    {
      best := None;
      var c := 0;
      while c < |bridges|
        invariant c == 0 || m <= c <= |bridges|
        invariant Chosen(bridges, m, c, b, best)
        decreases |bridges| - c
      {
        if MayHold(bridges, c, b) && (best == None || bridges[best.value].Width() > bridges[c].Width()) {
          best := Some(c);
        }
        c := if c == 0 then m else c + 1;
      }
    }

    /** Second pass. */
    method LinkBridges(m: nat)
      requires Flat(bridges) && 0 < m <= |bridges|
      requires forall i :: 0 <= i < |bridges[0].child| ==> bridges[0].child[i] < m
      modifies `bridges
      ensures Value() == Hang(old(Value()), m)
    {
      hide Down, Flat, Chosen;
      var b := 0;
      ghost var host := bridges[0];
      DownStart(m, host.child);
      while b < |bridges|
        invariant b == 0 || m <= b <= |bridges|
        invariant bridges == old(bridges)[0 := host.(child := Down(m, b) + host.child)]
        decreases |bridges| - b
      {
        HungFlat(old(bridges), m, b);
        var best := FindBest(m, b);
        BestIsHost(bridges, m, b, best);
        if b > 0 { DownStep(m, b, host.child); } else { DownStart(m, host.child); }
        if best != None {
          bridges := bridges[best.value := bridges[best.value].(child := [b] + bridges[best.value].child)];
        }
        b := if b == 0 then m else b + 1;
      }
    }

    /** Third pass. */
    method SecondaryBuses(m: nat)
      requires 0 < m <= |bridges|
      modifies `bridges
      ensures |bridges| == |old(bridges)|
      ensures Value() == Seconds(old(Value()), m, |old(bridges)| - m)
    {
      var b := 0;
      while b < |bridges|
        invariant b == 0 || m <= b <= |bridges|
        invariant |bridges| == |old(bridges)|
        invariant Value() == if b == 0 then old(Value()) else Seconds(old(Value()), m, b - m)
        decreases |bridges| - b
      {
        var k := BusOf(b, bridges[b].domain, bridges[b].secondary);
        if k == |bridges[b].buses| { NewBus(b, bridges[b].domain, bridges[b].secondary); }
        b := if b == 0 then m else b + 1;
      }
    }

    /** The end of insert_dev. */
    method Append(d: nat, b: nat, k: nat)
      requires b < |bridges| && d < |devs| && k == FindBus(bridges[b].buses, devs[d].Domain(), devs[d].bus)
      modifies `bridges, `parent
      ensures Value() == Attach(old(Value()), b, d)
    {
      var p := devs[d];
      var at := k;
      if k == |bridges[b].buses| {
        NewBus(b, p.Domain(), p.bus);
        at := 0;
      }
      var bus := bridges[b].buses[at];
      bridges := bridges[b := bridges[b].(buses := bridges[b].buses[at := bus.(devs := bus.devs + [d])])];
      parent := parent[d := Place(b, bus.domain, bus.number)];
      JoinFront(old(bridges[b].buses), p.Domain(), p.bus, d);
      assert bridges[b].buses == Join(old(bridges[b].buses), p.Domain(), p.bus, d);
      assert bridges == old(bridges)[b := old(bridges[b]).(buses := bridges[b].buses)];
    }

    /** insert_dev */
    method InsertDev(d: nat, b: nat)
      requires ChildrenExist(bridges) && d < |devs| && b < |bridges|
      requires forall i :: 0 < i < |bridges| ==> bridges[i].child == []
      requires 0 !in bridges[0].child
      modifies `bridges, `parent
      ensures Value() == if b == 0 then Insert(old(Value()), d) else Attach(old(Value()), b, d)
      decreases b == 0
    {
      var p := devs[d];
      var k := BusOf(b, p.Domain(), p.bus);
      if k == |bridges[b].buses| {
        var child, i := bridges[b].child, 0;
        while i < |child|
          invariant 0 <= i <= |child|
          invariant forall j :: 0 <= j < i ==> !bridges[child[j]].Covers(p.Domain(), p.bus)
        {
          if bridges[child[i]].Covers(p.Domain(), p.bus) {
            ChildAt(bridges, child, i, p.Domain(), p.bus);
            InsertDev(d, child[i]);
            return;
          }
          i := i + 1;
        }
        ChildAt(bridges, child, i, p.Domain(), p.bus);
      }
      Append(d, b, k);
    }

    /** Fourth pass. */
    method InsertDevs(first: nat)
      requires first <= |devs| && Shape(Value()) && forall x :: first <= x < |devs| ==> x !in parent
      modifies `bridges, `parent
      ensures ChildrenExist(old(bridges)) && Value() == InsertAll(old(Value()), first, |devs| - first)
    {
      hide Shape, Insert;
      var d := first;
      ShapeChildren(Value());
      while d < |devs|
        invariant first <= d <= |devs|
        invariant Value() == InsertAll(old(Value()), first, d - first)
      {
        InsertAllShape(old(Value()), first, d - first);
        ShapeInsertable(Value());
        InsertDev(d, 0);
        d := d + 1;
      }
    }

    /** grow_tree, after a scan that found these devices. */
    method GrowTree(scan: seq<Dev>)
      requires Shape(Value())
      modifies this
      ensures Value() == Grow(old(Value()), scan)
    {
      hide Shape, Flat, Build, Down, Seconds, InsertAll;
      var first, m := |devs|, |bridges|;
      ghost var was := Value();
      FramedShape(was, scan);
      ScannedShape(was, scan);
      devs := devs + scan;
      BuildBridges(first);
      BuildShape(Scanned(was, scan), first, |scan|);
      OldChildren(was, Value(), m);
      ShapeFlat(Value());
      LinkBridges(m);
      SecondaryBuses(m);
      assert Value() == Framed(was, scan);
      InsertDevs(first);
    }

    /** pci_is_hub_alive */
    method IsHubAlive(d: nat) returns (alive: bool)
      requires d in bridgeOf && bridgeOf[d] < |bridges| && |bridges[bridgeOf[d]].buses| > 0
      ensures alive == HubAlive(bridges[bridgeOf[d]])
    {
      alive := |bridges[bridgeOf[d]].buses[0].devs| > 0;
    }
  }
}

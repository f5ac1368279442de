/** Bus mapping (src/ls-map.c): bridges found on each bus are entered one inside
    the other, starting from every bus that has not been reached yet. */
module BusMap {
  import opened Config
  import opened CText

  /** struct bus_bridge: the primary bus it claims and the window behind it. */
  datatype Bridge = Bridge(primary: Byte, dev: nat, func: nat, first: Byte, last: Byte)

  /** map_bridge: a window that ends before it starts shrinks to its start. */
  function MakeBridge(primary: Byte, dev: nat, func: nat, first: Byte, last: Byte): Bridge {
    Bridge(primary, dev, func, first, if first > last then first else last)
  }

  /** The registers of a bridge found on a bus. */
  datatype Registers = Registers(primary: Byte, dev: nat, func: nat, first: Byte, last: Byte)

  predicate Between(x: Byte, lo: Byte, hi: Byte) { lo <= x <= hi }

  /** The bridge is the one of these registers, and its window has its first bus
      and every bus between the first and the last, and no other. */
  ghost predicate Maps(b: Bridge, r: Registers) {
    && b.primary == r.primary && b.dev == r.dev && b.func == r.func && b.first == r.first
    && forall x :: Between(x, b.first, b.last) <==> x == r.first || Between(x, r.first, r.last)
  }

  /** The list that map_bridge builds from the bridges found on a bus, the last
      one found first. */
  function BridgeList(found: seq<Registers>): (bs: seq<Bridge>)
    ensures |bs| == |found|
    ensures forall k :: 0 <= k < |bs| ==> Maps(bs[k], found[|found| - 1 - k])
  {
    if found == [] then []
    else
      var r := found[|found| - 1];
      [MakeBridge(r.primary, r.dev, r.func, r.first, r.last)] + BridgeList(found[..|found| - 1])
  }

  /** A pointer to a bridge: the bus it sits on and its place in that bus's list. */
  datatype Ref = Ref(bus: Byte, at: nat)

  /** The buses that a bridge may lead to. */
  datatype Window = Window(lo: Byte, hi: Byte) {
    predicate Contains(w: Window) { lo <= w.lo && w.hi <= hi }
  }
  const EVERYTHING := Window(0, 255)

  const OVERLAP_BUG := 1
  const CROSSING_BUG := 2

  /** bus_info[256] while it is being mapped, with the time each bus was entered. */
  datatype State = State(exists_: set<Byte>, bridges: Byte -> seq<Bridge>, via: map<Byte, Ref>, bugs: map<Ref, nat>,
                         stamp: map<Byte, nat>)
  {
    predicate IsRef(r: Ref) { r.at < |bridges(r.bus)| }

    function First(r: Ref): Byte
      requires IsRef(r)
    {
      bridges(r.bus)[r.at].first
    }

    function Behind(r: Ref): Window
      requires IsRef(r)
    {
      Window(bridges(r.bus)[r.at].first, bridges(r.bus)[r.at].last)
    }

    /** The window through which a bus was entered. */
    function Around(x: Byte): Window {
      if x in via && IsRef(via[x]) then Behind(via[x]) else EVERYTHING
    }

    /** x was entered for itself, or through a bridge that leads to it, sits on a
        bus entered before, and stays inside that bus's window. */
    ghost predicate Entered(x: Byte) {
      if x !in via then x in exists_
      else
        var r := via[x];
        && IsRef(r) && First(r) == x
        && r.bus in stamp && (x in stamp ==> stamp[r.bus] < stamp[x])
        && Around(r.bus).Contains(Behind(r))
    }

    /** A bridge of a mapped bus was entered, or carries the bug that kept it out. */
    ghost predicate Settled(r: Ref)
      requires IsRef(r)
    {
      if First(r) in via && via[First(r)] == r then First(r) in stamp
      else
        r in bugs && ((bugs[r] == OVERLAP_BUG && First(r) in stamp)
                      || (bugs[r] == CROSSING_BUG && !Around(r.bus).Contains(Behind(r))))
    }

    ghost predicate AllSettled(x: Byte, n: nat)
      requires n <= |bridges(x)|
    {
      forall k :: 0 <= k < n ==> Settled(Ref(x, k))
    }

    /** The buses in `open` are being walked, those in `next` are about to be entered. */
    ghost predicate Mapping(open: set<Byte>, next: set<Byte>) {
      && open <= stamp.Keys
      && (forall x | x in stamp :: stamp[x] < |stamp|)
      && (forall x | x in stamp || x in next :: Entered(x))
      && (forall x | x in via :: x in stamp || x in next)
      && (forall x | x in stamp && x !in open :: AllSettled(x, |bridges(x)|))
    }

    /** Bridges of a bus from number k on have not been entered. */
    ghost predicate Ahead(bus: Byte, k: nat) {
      forall x | x in via && via[x].bus == bus :: via[x].at < k
    }

    ghost function Free(): set<Byte> {
      set x: Byte | x !in stamp
    }

    /** What has been mapped before stays as it is, and buses mapped before are
        not the way into anything new. */
    ghost predicate Grown(before: State) {
      && exists_ == before.exists_ && bridges == before.bridges
      && (forall x | x in before.stamp :: x in stamp && stamp[x] == before.stamp[x])
      && (forall x | x in before.via :: x in via && via[x] == before.via[x])
      && (forall x | x in before.stamp && x !in before.via :: x !in via)
      && (forall x | x in via && x !in before.via :: via[x].bus !in before.stamp)
      && (forall r | r in before.bugs && r.bus in before.stamp :: r in bugs && bugs[r] == before.bugs[r])
    }

    /** Of the buses entered since, all but one were entered through a bridge. */
    ghost predicate OneRoot(before: State, bus: Byte) {
      forall x | x in stamp && x !in before.stamp && x != bus :: x in via
    }

    /** The buses entered for themselves are below n, and were entered in ascending
        order. */
    ghost predicate RootsAscend(n: nat) {
      && (forall x | x in stamp && x !in via :: x < n)
      && (forall x, y | x in stamp && x !in via && y in stamp && y !in via && x < y :: stamp[x] < stamp[y])
    }
  }

  lemma GrownTwice(a: State, b: State, c: State)
    requires b.Grown(a) && c.Grown(b)
    ensures c.Grown(a)
  {
  }

  lemma OneRootEnters(s0: State, s: State, t: State, bus: Byte, k: nat)
    requires s.OneRoot(s0, bus) && s.IsRef(Ref(bus, k))
    requires var first := s.First(Ref(bus, k));
             && t.Grown(Point(s, Ref(bus, k))) && t.OneRoot(Point(s, Ref(bus, k)), first)
             && first !in s.via
    ensures t.OneRoot(s0, bus) && t.via[s.First(Ref(bus, k))] == Ref(bus, k)
  {
    assert s.First(Ref(bus, k)) in Point(s, Ref(bus, k)).via;
  }

  /** Entering one more bus for itself, above all the others. */
  lemma AscendGrows(s: State, t: State, n: Byte)
    requires s.RootsAscend(n) && s.Mapping({}, {}) && t.Grown(s) && t.OneRoot(s, n)
    requires n in t.stamp && t.stamp[n] == |s.stamp|
    ensures t.RootsAscend(n + 1)
  {
    hide State.Entered, State.AllSettled;
    assert forall x | x in t.stamp && x !in t.via && x != n :: x in s.stamp && x !in s.via;
  }

  /** Settled bridges stay settled while the mapping grows. */
  lemma SettledGrows(s: State, t: State, x: Byte, n: nat)
    requires t.Grown(s) && x in s.stamp && n <= |s.bridges(x)| && s.AllSettled(x, n)
    ensures t.AllSettled(x, n)
  {
    forall k | 0 <= k < n ensures t.Settled(Ref(x, k)) { assert s.Settled(Ref(x, k)); }
  }

  /** do_map_bridges signs the guestbook of a bus. */
  function Enter(s: State, bus: Byte): State {
    s.(stamp := s.stamp[bus := |s.stamp|])
  }

  lemma EnterKeeps(s: State, bus: Byte, open: set<Byte>)
    requires s.Mapping(open, {bus}) && bus !in s.stamp
    ensures Enter(s, bus).Mapping(open + {bus}, {}) && Enter(s, bus).AllSettled(bus, 0)
  {
    hide State.Settled;
    var t := Enter(s, bus);
    assert |t.stamp| == |s.stamp| + 1 by { assert t.stamp.Keys == s.stamp.Keys + {bus}; }
    forall x | x in s.stamp ensures t.Entered(x) { assert s.Entered(x); }
    assert t.Entered(bus) by { assert s.Entered(bus); }
    forall x | x in t.stamp && x !in open + {bus} ensures t.AllSettled(x, |t.bridges(x)|) {
      EnterSettled(s, bus, x);
    }
  }

  lemma EnterFree(s: State, bus: Byte, open: set<Byte>)
    requires s.Mapping(open, {bus}) && bus !in s.stamp
    ensures Enter(s, bus).Ahead(bus, 0) && Enter(s, bus).Free() < s.Free() && Enter(s, bus).Grown(s)
    ensures Enter(s, bus).Around(bus) == s.Around(bus)
  {
    var t := Enter(s, bus);
    assert bus in s.Free() && bus !in t.Free();
    forall x | x in t.via ensures t.via[x].bus != bus { assert s.Entered(x); }
  }

  lemma EnterSettled(s: State, bus: Byte, x: Byte)
    requires x in s.stamp && s.AllSettled(x, |s.bridges(x)|) && bus !in s.stamp
    ensures Enter(s, bus).AllSettled(x, |s.bridges(x)|)
  {
    var t := Enter(s, bus);
    forall k | 0 <= k < |s.bridges(x)| ensures t.Settled(Ref(x, k)) { assert s.Settled(Ref(x, k)); }
  }

  /** Bridge k of a bus being walked gets its bug. */
  function Mark(s: State, r: Ref, bug: nat): State {
    s.(bugs := s.bugs[r := bug])
  }

  lemma MarkKeeps(s: State, bus: Byte, k: nat, bug: nat, open: set<Byte>)
    requires s.Mapping(open, {}) && bus in open && bus in s.stamp && k < |s.bridges(bus)| && s.AllSettled(bus, k)
    requires s.Ahead(bus, k)
    requires var r := Ref(bus, k);
             && ((bug == OVERLAP_BUG && s.First(r) in s.stamp)
                 || (bug == CROSSING_BUG && !s.Around(bus).Contains(s.Behind(r))))
    ensures Mark(s, Ref(bus, k), bug).Mapping(open, {}) && Mark(s, Ref(bus, k), bug).AllSettled(bus, k + 1)
    ensures Mark(s, Ref(bus, k), bug).Ahead(bus, k + 1)
  {
    var t := Mark(s, Ref(bus, k), bug);
    forall x | x in t.stamp && x !in open ensures t.AllSettled(x, |t.bridges(x)|) {
      assert s.AllSettled(x, |s.bridges(x)|);
      forall j | 0 <= j < |t.bridges(x)| ensures t.Settled(Ref(x, j)) { assert s.Settled(Ref(x, j)); }
    }
    forall j | 0 <= j < k + 1 ensures t.Settled(Ref(bus, j)) {
      if j < k { assert s.Settled(Ref(bus, j)); }
    }
  }

  /** Bridge k of a bus being walked is about to be entered. */
  function Point(s: State, r: Ref): State
    requires s.IsRef(r)
  {
    s.(via := s.via[s.First(r) := r])
  }

  lemma PointKeeps(s: State, bus: Byte, k: nat, open: set<Byte>)
    requires s.Mapping(open, {}) && bus in open && bus in s.stamp && k < |s.bridges(bus)| && s.AllSettled(bus, k)
    requires var r := Ref(bus, k); s.First(r) !in s.stamp && s.Around(bus).Contains(s.Behind(r))
    ensures var t := Point(s, Ref(bus, k));
            t.Mapping(open, {s.First(Ref(bus, k))}) && t.AllSettled(bus, k) && s.First(Ref(bus, k)) !in open
    ensures s.First(Ref(bus, k)) !in s.via
  {
    var r := Ref(bus, k);
    var t := Point(s, r);
    assert s.First(r) !in s.via;
    assert forall x :: x in s.stamp ==> t.Around(x) == s.Around(x);
    forall x | x in t.stamp || x == s.First(r) ensures t.Entered(x) {
      if x in t.stamp { assert s.Entered(x); }
    }
    forall x, j | x in s.stamp && 0 <= j < |s.bridges(x)| && s.Settled(Ref(x, j)) && Ref(x, j) != r
      ensures t.Settled(Ref(x, j))
    {
    }
    forall x | x in t.stamp && x !in open ensures t.AllSettled(x, |t.bridges(x)|) {
      assert s.AllSettled(x, |s.bridges(x)|);
    }
  }

  /** After a bus was walked to the end it needs no more attention. */
  lemma WalkedKeeps(s: State, bus: Byte, open: set<Byte>)
    requires s.Mapping(open + {bus}, {}) && bus in s.stamp && s.AllSettled(bus, |s.bridges(bus)|)
    ensures s.Mapping(open, {})
  {
  }

  lemma FreeShrinks(s: State, t: State)
    requires t.Grown(s)
    ensures t.Free() <= s.Free()
  {
  }

  /** Coming back from the bus behind bridge k. */
  lemma PointReturns(s: State, t: State, bus: Byte, k: nat)
    requires bus in s.stamp && k < |s.bridges(bus)| && s.AllSettled(bus, k) && s.Ahead(bus, k)
    requires Point(s, Ref(bus, k)).AllSettled(bus, k)
    requires s.First(Ref(bus, k)) !in s.stamp
    requires t.Grown(Point(s, Ref(bus, k))) && s.First(Ref(bus, k)) in t.stamp
    ensures t.AllSettled(bus, k + 1) && t.Ahead(bus, k + 1) && t.Around(bus) == s.Around(bus)
  {
    var p := Point(s, Ref(bus, k));
    SettledGrows(p, t, bus, k);
    assert p.via[s.First(Ref(bus, k))] == Ref(bus, k);
    forall j | 0 <= j < k + 1 ensures t.Settled(Ref(bus, j)) { }
  }

  lemma MarkGrown(s0: State, s: State, bus: Byte, k: nat, bug: nat)
    requires s.Grown(s0) && bus !in s0.stamp
    ensures Mark(s, Ref(bus, k), bug).Grown(s0) && Mark(s, Ref(bus, k), bug).Around(bus) == s.Around(bus)
    ensures Mark(s, Ref(bus, k), bug).Free() == s.Free()
  {
  }

  lemma PointGrown(s0: State, s: State, bus: Byte, k: nat)
    requires s.Grown(s0) && bus !in s0.stamp && s.IsRef(Ref(bus, k))
    requires s.First(Ref(bus, k)) !in s.via && s.First(Ref(bus, k)) !in s.stamp && bus in s.stamp
    ensures Point(s, Ref(bus, k)).Grown(s0) && Point(s, Ref(bus, k)).Around(bus) == s.Around(bus)
    ensures Point(s, Ref(bus, k)).Free() == s.Free()
  {
  }

  /* ---- what a finished mapping means ---- */

  /** Every bus that exists was mapped and every bridge of a mapped bus settled. */
  ghost predicate Mapped(s: State) {
    s.Mapping({}, {}) && s.exists_ <= s.stamp.Keys
  }

  /** The buses on the way from x back to the bus where its mapping started. */
  ghost function WayIn(s: State, x: Byte): seq<Byte>
    requires s.Mapping({}, {}) && x in s.stamp
    decreases s.stamp[x]
  {
    assert s.Entered(x);
    if x !in s.via then [x] else [x] + WayIn(s, s.via[x].bus)
  }

  lemma EnteredFrom(s: State, x: Byte)
    requires s.Mapping({}, {}) && x in s.stamp
    ensures if x !in s.via then x in s.exists_
            else
              var p := s.via[x].bus;
              p in s.stamp && s.stamp[p] < s.stamp[x] && s.Around(p).Contains(s.Around(x))
  {
    hide State.Settled, State.AllSettled;
    assert s.Entered(x);
  }

  /** The `via` links form a forest: following them from any mapped bus ends at
      an existing bus that was entered for itself, through buses entered ever
      earlier, and every window on the way lies inside all those around it. */
  lemma {:induction false} Forest(s: State, x: Byte)
    requires s.Mapping({}, {}) && x in s.stamp
    ensures var way := WayIn(s, x);
            var root := way[|way| - 1];
            && root in s.exists_ && root !in s.via
            && (forall y | y in way :: y in s.stamp && s.stamp[y] <= s.stamp[x] && s.Around(y).Contains(s.Around(x)))
            && (forall i, j :: 0 <= i < j < |way| ==> way[i] != way[j])
    decreases s.stamp[x]
  {
    hide State.Settled, State.AllSettled, State.Entered, State.Around;
    EnteredFrom(s, x);
    if x in s.via {
      var p := s.via[x].bus;
      Forest(s, p);
      var rest := WayIn(s, p);
      assert forall y | y in [x] + rest :: y == x || y in rest;
    }
  }

  /** No bus has two ways in: a mapped bus's `via` is the only bridge that was
      entered to it, and it was entered from a bus mapped before. */
  lemma OneWayIn(s: State, r: Ref, r': Ref)
    requires s.Mapping({}, {}) && s.IsRef(r) && s.IsRef(r') && r.bus in s.stamp && r'.bus in s.stamp
    requires r !in s.bugs && r' !in s.bugs && s.First(r) == s.First(r')
    ensures r == r' && s.via[s.First(r)] == r && s.stamp[r.bus] < s.stamp[s.First(r)]
  {
    assert s.AllSettled(r.bus, |s.bridges(r.bus)|) && s.Settled(Ref(r.bus, r.at));
    assert s.AllSettled(r'.bus, |s.bridges(r'.bus)|) && s.Settled(Ref(r'.bus, r'.at));
    assert s.Entered(s.First(r));
  }

  /** bus_info and the mapping that runs over it. */
  class BusInfo {
    const exists_: set<Byte>
    const bridges: Byte -> seq<Bridge>
    var guestbook: array<bool>
    var via: array<Option<Ref>>
    var bugs: map<Ref, nat>
    ghost var stamp: map<Byte, nat>

    ghost predicate Valid()
      reads this, guestbook, via
    {
      guestbook.Length == 256 && via.Length == 256 && forall x: Byte :: guestbook[x] <==> x in stamp
    }

    ghost function Now(): State
      requires Valid()
      reads this, guestbook, via
    {
      State(exists_, bridges, map x: Byte | via[x].Some? :: via[x].value, bugs, stamp)
    }

    /** memset of the freshly allocated bus_info, with the bridges found on each bus. */
    constructor (exists_: set<Byte>, found: Byte -> seq<Registers>)
      ensures Valid() && fresh(guestbook) && fresh(via)
      ensures Now() == State(exists_, bridges, map[], map[], map[])
      ensures forall x: Byte :: bridges(x) == BridgeList(found(x))
    {
      this.exists_, this.bridges := exists_, (x: Byte) => BridgeList(found(x));
      guestbook := new bool[256](_ => false);
      via := new Option<Ref>[256](_ => None);
      bugs, stamp := map[], map[];
    }

    /** do_map_bridges */
    method DoMapBridges(bus: Byte, min: Byte, max: Byte, ghost open: set<Byte>)
      requires Valid() && Now().Mapping(open, {bus}) && bus !in stamp && bus !in open
      requires Now().Around(bus) == Window(min, max)
      modifies this`bugs, this`stamp, guestbook, via
      ensures Valid() && Now().Mapping(open, {}) && bus in stamp && Now().Grown(old(Now()))
      ensures stamp[bus] == |old(stamp)| && Now().OneRoot(old(Now()), bus)
      decreases Now().Free(), 0
    {
      hide State.Mapping, State.AllSettled, State.Ahead, State.Free, State.Grown, State.Around, State.OneRoot;
      ghost var s0 := Now();
      EnterKeeps(s0, bus, open);
      EnterFree(s0, bus, open);
      guestbook[bus] := true;
      stamp := stamp[bus := |stamp|];
      assert Now() == Enter(s0, bus);
      assert Now().OneRoot(s0, bus) by { FirstRoot(s0, bus); }
      var k := 0;
      while k < |bridges(bus)|
        invariant 0 <= k <= |bridges(bus)| && Valid() && bus in stamp && Now().Free() < s0.Free()
        invariant Now().Mapping(open + {bus}, {}) && Now().AllSettled(bus, k) && Now().Ahead(bus, k)
        invariant Now().Grown(s0) && Now().Around(bus) == Window(min, max)
        invariant stamp[bus] == |s0.stamp| && Now().OneRoot(s0, bus)
      {
        DoBridge(bus, k, min, max, open + {bus}, s0);
        k := k + 1;
      }
      WalkedKeeps(Now(), bus, open);
    }

    /** The body of its loop. */
    method DoBridge(bus: Byte, k: nat, min: Byte, max: Byte, ghost open: set<Byte>, ghost s0: State)
      requires Valid() && Now().Mapping(open, {}) && bus in open && bus in stamp && bus !in s0.stamp
      requires k < |bridges(bus)| && Now().AllSettled(bus, k) && Now().Ahead(bus, k) && Now().Free() < s0.Free()
      requires Now().Grown(s0) && Now().Around(bus) == Window(min, max) && Now().OneRoot(s0, bus)
      modifies this`bugs, this`stamp, guestbook, via
      ensures Valid() && Now().Mapping(open, {}) && bus in stamp && Now().AllSettled(bus, k + 1)
      ensures Now().Ahead(bus, k + 1) && Now().Free() < s0.Free()
      ensures Now().Grown(s0) && Now().Around(bus) == Window(min, max)
      ensures stamp[bus] == old(stamp[bus]) && Now().OneRoot(s0, bus)
      ensures var b := bridges(bus)[k];
              if old(guestbook[b.first]) then Now() == old(Now()).(bugs := old(bugs)[Ref(bus, k) := 1])
              else if b.first < min || b.last > max then Now() == old(Now()).(bugs := old(bugs)[Ref(bus, k) := 2])
              else b.first in stamp && via[b.first] == Some(Ref(bus, k))
      decreases Now().Free(), 2
    {
      hide State.Mapping, State.AllSettled, State.Ahead, State.Free, State.Grown, State.OneRoot;
      ghost var s := Now();
      var b := bridges(bus)[k];
      if guestbook[b.first] {
        MarkKeeps(s, bus, k, OVERLAP_BUG, open);
        MarkGrown(s0, s, bus, k, OVERLAP_BUG);
        bugs := bugs[Ref(bus, k) := OVERLAP_BUG];
        assert Now() == Mark(s, Ref(bus, k), OVERLAP_BUG);
        MarkRoots(s0, s, bus, k, OVERLAP_BUG);
      } else if b.first < min || b.last > max {
        MarkKeeps(s, bus, k, CROSSING_BUG, open);
        MarkGrown(s0, s, bus, k, CROSSING_BUG);
        bugs := bugs[Ref(bus, k) := CROSSING_BUG];
        assert Now() == Mark(s, Ref(bus, k), CROSSING_BUG);
        MarkRoots(s0, s, bus, k, CROSSING_BUG);
      } else {
        EnterBridge(bus, k, b.first, b.last, open, s0);
      }
    }

    method EnterBridge(bus: Byte, k: nat, first: Byte, last: Byte, ghost open: set<Byte>, ghost s0: State)
      requires Valid() && Now().Mapping(open, {}) && bus in open && bus in stamp && bus !in s0.stamp
      requires k < |bridges(bus)| && Now().AllSettled(bus, k) && Now().Ahead(bus, k) && Now().Free() < s0.Free()
      requires Now().Grown(s0) && first == bridges(bus)[k].first && last == bridges(bus)[k].last
      requires !guestbook[first] && Now().Around(bus).Contains(Window(first, last)) && Now().OneRoot(s0, bus)
      modifies this`bugs, this`stamp, guestbook, via
      ensures Valid() && Now().Mapping(open, {}) && bus in stamp && Now().AllSettled(bus, k + 1)
      ensures Now().Ahead(bus, k + 1) && Now().Free() < s0.Free()
      ensures Now().Grown(s0) && Now().Around(bus) == old(Now()).Around(bus)
      ensures first in stamp && via[first] == Some(Ref(bus, k))
      ensures stamp[bus] == old(stamp[bus]) && Now().OneRoot(s0, bus)
      decreases Now().Free(), 1
    {
      hide State.Mapping, State.AllSettled, State.Ahead, State.Free, State.Grown, State.OneRoot;
      ghost var s := Now();
      PointKeeps(s, bus, k, open);
      PointGrown(s0, s, bus, k);
      via[first] := Some(Ref(bus, k));
      ghost var t := Point(s, Ref(bus, k));
      assert Now() == t;
      DoMapBridges(first, first, last, open);
      PointReturns(s, Now(), bus, k);
      FreeShrinks(t, Now());
      StampsKept(t, Now());
      GrownTwice(s0, t, Now());
      OneRootEnters(s0, s, Now(), bus, k);
    }

    /** The mapping loop of map_bridges: every bus that exists ends up mapped. */
    method MapBridges()
      requires Valid() && Now().Mapping({}, {})
      modifies this`bugs, this`stamp, guestbook, via
      ensures Valid() && Mapped(Now()) && Now().Grown(old(Now()))
      ensures old(stamp) == map[] ==> Now().RootsAscend(256)
    {
      hide State.Mapping, State.Grown, State.Around, State.OneRoot, State.RootsAscend;
      ghost var s0 := Now();
      GrownRefl(s0);
      if stamp == map[] { NoRoots(s0); }
      var i := 0;
      while i < 256
        invariant 0 <= i <= 256 && Valid() && Now().Mapping({}, {}) && Now().Grown(s0)
        invariant forall x: Byte :: x in exists_ && x < i ==> x in stamp
        invariant s0.stamp == map[] ==> Now().RootsAscend(i)
      {
        RootsBelow(Now(), i);
        if i in exists_ && !guestbook[i] {
          ghost var s := Now();
          RootReady(s, i);
          DoMapBridges(i, 0, 255, {});
          StampsKept(s, Now());
          GrownTwice(s0, s, Now());
          if s0.stamp == map[] { AscendGrows(s, Now(), i); }
        }
        i := i + 1;
      }
    }
  }

  lemma GrownRefl(s: State)
    ensures s.Grown(s)
  {
  }

  lemma StampsKept(s: State, t: State)
    requires t.Grown(s)
    ensures forall x | x in s.stamp :: x in t.stamp && t.stamp[x] == s.stamp[x]
  {
  }

  lemma FirstRoot(s: State, bus: Byte)
    ensures Enter(s, bus).OneRoot(s, bus)
  {
  }

  lemma MarkRoots(s0: State, s: State, bus: Byte, k: nat, bug: nat)
    requires s.OneRoot(s0, bus)
    ensures Mark(s, Ref(bus, k), bug).OneRoot(s0, bus)
  {
  }

  lemma NoRoots(s: State)
    requires s.stamp == map[]
    ensures s.RootsAscend(0)
  {
  }

  lemma RootsBelow(s: State, n: nat)
    ensures s.RootsAscend(n) ==> s.RootsAscend(n + 1)
  {
  }

  /** A bus that exists and is not mapped can be entered for itself. */
  lemma RootReady(s: State, bus: Byte)
    requires s.Mapping({}, {}) && bus in s.exists_ && bus !in s.stamp
    ensures s.Mapping({}, {bus}) && s.Around(bus) == EVERYTHING
  {
  }

  /** The state map_the_bus starts from. */
  lemma FreshMapping(exists_: set<Byte>, bridges: Byte -> seq<Bridge>)
    ensures State(exists_, bridges, map[], map[], map[]).Mapping({}, {})
  {
  }
}

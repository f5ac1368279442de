/** Bus enumeration (lib/generic.c, pci_generic_scan_bus): a depth-first search
    over buses whose edges are read from the bridges found on the way. */
module BusScan {
  import opened Config

  /** Stable configuration space: the byte at (bus, device, function, register). */
  type Space = (Byte, nat, nat, nat) -> Byte

  /** struct pci_dev, as far as the scan fills it in. */
  datatype PciDev = PciDev(bus: Byte, dev: nat, func: nat, vendorId: U16, deviceId: U16, hdrtype: nat)

  function ReadLong(s: Space, bus: Byte, dev: nat, func: nat, pos: nat): U32 {
    Long(s(bus, dev, func, pos), s(bus, dev, func, pos + 1), s(bus, dev, func, pos + 2), s(bus, dev, func, pos + 3))
  }

  /** Something answers at this address. */
  predicate Answers(s: Space, bus: Byte, dev: nat, func: nat) {
    var vd := ReadLong(s, bus, dev, func, VENDOR_ID);
    vd != 0 && vd != 0xffff_ffff
  }

  function HeaderType(s: Space, bus: Byte, dev: nat, func: nat): nat {
    s(bus, dev, func, HEADER_TYPE) % 0x80
  }

  predicate Multifunction(s: Space, bus: Byte, dev: nat) {
    Answers(s, bus, dev, 0) && s(bus, dev, 0, HEADER_TYPE) >= 0x80
  }

  /** A function that exists: functions 1-7 need a multifunction function 0. */
  predicate Present(s: Space, bus: Byte, dev: nat, func: nat) {
    dev < 32 && func < 8 && Answers(s, bus, dev, func) && (func == 0 || Multifunction(s, bus, dev))
  }

  /** The record the scan makes of a function. */
  function Record(s: Space, bus: Byte, dev: nat, func: nat): PciDev {
    var vd := ReadLong(s, bus, dev, func, VENDOR_ID);
    PciDev(bus, dev, func, vd % 0x1_0000, vd / 0x1_0000, HeaderType(s, bus, dev, func))
  }

  /** d is the true record of a function that exists. */
  predicate Genuine(s: Space, d: PciDev) {
    Present(s, d.bus, d.dev, d.func) && d == Record(s, d.bus, d.dev, d.func)
  }

  /** The four id bytes of a function all have the value v. */
  predicate AllIds(s: Space, bus: Byte, dev: nat, func: nat, v: Byte) {
    s(bus, dev, func, 0) == v && s(bus, dev, func, 1) == v && s(bus, dev, func, 2) == v && s(bus, dev, func, 3) == v
  }

  predicate Occupied(s: Space, bus: Byte, dev: nat, func: nat) {
    !AllIds(s, bus, dev, func, 0) && !AllIds(s, bus, dev, func, 0xff)
  }

  /** What the scan links, byte by byte: a function whose id bytes are neither
      all 0 nor all 0xff, in a slot where function 0 has bit 7 of register 0x0e,
      with its vendor, its device and the low seven bits of that register. */
  predicate AsInSpace(s: Space, d: PciDev) {
    && d.dev < 32 && d.func < 8 && Occupied(s, d.bus, d.dev, d.func)
    && (d.func > 0 ==> Occupied(s, d.bus, d.dev, 0) && s(d.bus, d.dev, 0, 0x0e) >= 0x80)
    && d.vendorId == s(d.bus, d.dev, d.func, 0) + 0x100 * s(d.bus, d.dev, d.func, 1)
    && d.deviceId == s(d.bus, d.dev, d.func, 2) + 0x100 * s(d.bus, d.dev, d.func, 3)
    && d.hdrtype < 0x80
    && (d.hdrtype == s(d.bus, d.dev, d.func, 0x0e) || d.hdrtype + 0x80 == s(d.bus, d.dev, d.func, 0x0e))
  }

  lemma RecordBytes(s: Space, bus: Byte, dev: nat, func: nat)
    ensures Answers(s, bus, dev, func) <==> Occupied(s, bus, dev, func)
    ensures var d := Record(s, bus, dev, func);
            && d.vendorId == s(bus, dev, func, 0) + 0x100 * s(bus, dev, func, 1)
            && d.deviceId == s(bus, dev, func, 2) + 0x100 * s(bus, dev, func, 3)
            && d.hdrtype < 0x80
            && (d.hdrtype == s(bus, dev, func, 0x0e) || d.hdrtype + 0x80 == s(bus, dev, func, 0x0e))
  {
    var b0, b1, b2, b3 := s(bus, dev, func, 0), s(bus, dev, func, 1), s(bus, dev, func, 2), s(bus, dev, func, 3);
    assert ReadLong(s, bus, dev, func, 0) == Word(b0, b1) + Word(b2, b3) * 0x1_0000;
  }

  lemma GenuineIff(s: Space, d: PciDev)
    ensures Genuine(s, d) <==> AsInSpace(s, d)
  {
    hide ReadLong, Answers, Occupied;
    RecordBytes(s, d.bus, d.dev, d.func);
    RecordBytes(s, d.bus, d.dev, 0);
  }

  predicate LeadsTo(s: Space, bus: Byte, dev: nat, func: nat, next: Byte) {
    && Present(s, bus, dev, func)
    && IsBridgeHeader(HeaderType(s, bus, dev, func))
    && s(bus, dev, func, SECONDARY_BUS) == next
  }

  /** Some bridge on `bus` has `next` as its secondary bus. */
  ghost predicate Edge(s: Space, bus: Byte, next: Byte) {
    exists dev: nat, func: nat :: LeadsTo(s, bus, dev, func, next)
  }

  /** One bus leads to another through a function the scan links: a PCI-to-PCI
      or a CardBus bridge with the other bus in register 0x19. */
  lemma EdgeIff(s: Space, bus: Byte, next: Byte)
    ensures Edge(s, bus, next) <==>
            exists d: PciDev :: AsInSpace(s, d) && d.bus == bus && (d.hdrtype == 1 || d.hdrtype == 2)
                                && s(bus, d.dev, d.func, 0x19) == next
  {
    hide Present, Record, AsInSpace;
    forall d ensures Genuine(s, d) <==> AsInSpace(s, d) { GenuineIff(s, d); }
    if dev: nat, func: nat :| LeadsTo(s, bus, dev, func, next) {
      var d := Record(s, bus, dev, func);
      RecordPlace(s, bus, dev, func);
      assert AsInSpace(s, d);
    }
    if d: PciDev :| AsInSpace(s, d) && d.bus == bus && (d.hdrtype == 1 || d.hdrtype == 2)
                    && s(bus, d.dev, d.func, 0x19) == next {
      assert Genuine(s, d);
      RecordPlace(s, bus, d.dev, d.func);
      assert LeadsTo(s, bus, d.dev, d.func, next);
    }
  }

  lemma RecordPlace(s: Space, bus: Byte, dev: nat, func: nat)
    ensures var d := Record(s, bus, dev, func);
            d.bus == bus && d.dev == dev && d.func == func && d.hdrtype == HeaderType(s, bus, dev, func)
  {
  }

  ghost predicate IsPath(s: Space, path: seq<Byte>, from: Byte, to: Byte) {
    |path| > 0 && path[0] == from && path[|path| - 1] == to
    && forall i :: 0 <= i < |path| - 1 ==> Edge(s, path[i], path[i + 1])
  }

  ghost predicate Reachable(s: Space, from: Byte, to: Byte) {
    exists path :: IsPath(s, path, from, to)
  }

  lemma ReachFirst(s: Space, from: Byte, mid: Byte, to: Byte)
    requires Edge(s, from, mid) && Reachable(s, mid, to)
    ensures Reachable(s, from, to)
  {
    var path :| IsPath(s, path, mid, to);
    var longer := [from] + path;
    forall i | 0 <= i < |longer| - 1 ensures Edge(s, longer[i], longer[i + 1]) {
      if i > 0 { assert Edge(s, path[i - 1], path[i]); }
    }
    assert IsPath(s, longer, from, to);
  }

  /** A set of buses that is closed under edges contains all that is reachable. */
  lemma {:induction false} ClosedContains(s: Space, closed: set<Byte>, path: seq<Byte>, from: Byte, to: Byte)
    requires from in closed && IsPath(s, path, from, to)
    requires forall x, y | x in closed && Edge(s, x, y) :: y in closed
    ensures to in closed
    decreases |path|
  {
    if |path| > 1 {
      var rest := path[1..];
      assert Edge(s, path[0], path[1]);
      forall i | 0 <= i < |rest| - 1 ensures Edge(s, rest[i], rest[i + 1]) {
        assert Edge(s, path[i + 1], path[i + 2]);
      }
      ClosedContains(s, closed, rest, path[1], to);
    }
  }

  /** The order in which one bus is walked. */
  predicate Before(dev: nat, func: nat, dev': nat, func': nat) {
    dev < dev' || (dev == dev' && func < func')
  }

  /** Among the devices of a bus the later ones come first, none twice. */
  ghost predicate NewestFirst(ds: seq<PciDev>) {
    forall i, j :: 0 <= i < j < |ds| && ds[i].bus == ds[j].bus ==> Before(ds[j].dev, ds[j].func, ds[i].dev, ds[i].func)
  }

  /** What a scan may report: `found` are the genuine records on the buses that
      were newly marked, once each; those buses are reachable from `bus`, and
      nothing they lead to is left unmarked. */
  ghost predicate Scanned(s: Space, bus: Byte, before: set<Byte>, marked: set<Byte>, found: seq<PciDev>) {
    && before + {bus} <= marked
    && (forall x | x in marked - before :: Reachable(s, bus, x))
    && (forall x, y | x in marked - before && Edge(s, x, y) :: y in marked)
    && (forall d :: d in found <==> Genuine(s, d) && d.bus in marked - before)
    && NewestFirst(found)
  }

  /** The same in the middle of scanning `bus`: all before (dev, func) is done. */
  ghost predicate Walked(s: Space, bus: Byte, before: set<Byte>, marked: set<Byte>, dev: nat, func: nat,
                         found: seq<PciDev>)
  {
    && before + {bus} <= marked && bus !in before
    && (forall x | x in marked - before :: Reachable(s, bus, x))
    && (forall x, y | x in marked - before - {bus} && Edge(s, x, y) :: y in marked)
    && (forall dev': nat, func': nat, y: Byte ::
          Before(dev', func', dev, func) && LeadsTo(s, bus, dev', func', y) ==> y in marked)
    && (forall d :: d in found <==> Genuine(s, d) && d.bus in marked - before
                                    && (d.bus == bus ==> Before(d.dev, d.func, dev, func)))
    && NewestFirst(found)
  }

  lemma WalkStart(s: Space, bus: Byte, before: set<Byte>)
    requires bus !in before
    ensures Walked(s, bus, before, before + {bus}, 0, 0, [])
  {
    assert IsPath(s, [bus], bus, bus);
  }

  /** Passing over addresses where no function is present. */
  lemma WalkSkip(s: Space, bus: Byte, before: set<Byte>, marked: set<Byte>, dev: nat, func: nat,
                 dev': nat, func': nat, found: seq<PciDev>)
    requires Walked(s, bus, before, marked, dev, func, found)
    requires forall d: nat, f: nat :: Present(s, bus, d, f) ==> (Before(d, f, dev, func) <==> Before(d, f, dev', func'))
    ensures Walked(s, bus, before, marked, dev', func', found)
  {
    forall d | d in found && d.bus == bus ensures Before(d.dev, d.func, dev', func') {
      assert Present(s, bus, d.dev, d.func);
    }
    forall d | Genuine(s, d) && d.bus in marked - before && (d.bus == bus ==> Before(d.dev, d.func, dev', func'))
      ensures d in found
    {
      if d.bus == bus { assert Present(s, bus, d.dev, d.func); }
    }
  }

  lemma WalkAbsent(s: Space, bus: Byte, before: set<Byte>, marked: set<Byte>, dev: nat, func: nat, found: seq<PciDev>)
    requires Walked(s, bus, before, marked, dev, func, found) && !Answers(s, bus, dev, func)
    ensures Walked(s, bus, before, marked, dev, func + 1, found)
  {
    WalkSkip(s, bus, before, marked, dev, func, dev, func + 1, found);
  }

  /** After function 0 of a single-function device, or function 7 of another,
      the device has no functions left. */
  lemma WalkNextDevice(s: Space, bus: Byte, before: set<Byte>, marked: set<Byte>, dev: nat, func: nat,
                       found: seq<PciDev>)
    requires Walked(s, bus, before, marked, dev, func, found)
    requires func > 0 && (Multifunction(s, bus, dev) ==> func == 8)
    ensures Walked(s, bus, before, marked, dev + 1, 0, found)
  {
    WalkSkip(s, bus, before, marked, dev, func, dev + 1, 0, found);
  }

  /** Linking a function that is not a bridge. */
  lemma WalkLeaf(s: Space, bus: Byte, before: set<Byte>, marked: set<Byte>, dev: nat, func: nat, found: seq<PciDev>)
    requires Walked(s, bus, before, marked, dev, func, found)
    requires Present(s, bus, dev, func) && !IsBridgeHeader(HeaderType(s, bus, dev, func))
    ensures Walked(s, bus, before, marked, dev, func + 1, [Record(s, bus, dev, func)] + found)
  {
  }

  /** Linking a bridge and scanning what is behind it. */
  lemma WalkBridge(s: Space, bus: Byte, before: set<Byte>, marked: set<Byte>, dev: nat, func: nat, found: seq<PciDev>,
                   next: Byte, deeper: set<Byte>, below: seq<PciDev>)
    requires Walked(s, bus, before, marked, dev, func, found)
    requires LeadsTo(s, bus, dev, func, next)
    requires Scanned(s, next, marked, deeper, below)
    ensures Walked(s, bus, before, deeper, dev, func + 1, below + ([Record(s, bus, dev, func)] + found))
  {
    assert Edge(s, bus, next);
    forall x | x in deeper - marked ensures Reachable(s, bus, x) {
      ReachFirst(s, bus, next, x);
    }
  }

  lemma WalkEnd(s: Space, bus: Byte, before: set<Byte>, marked: set<Byte>, found: seq<PciDev>)
    requires Walked(s, bus, before, marked, 32, 0, found)
    ensures Scanned(s, bus, before, marked, found)
  {
  }

  ghost function Marked(busmap: array<bool>): set<Byte>
    requires busmap.Length == 256
    reads busmap
  {
    set x: Byte | busmap[x]
  }

  ghost function Unmarked(busmap: array<bool>): set<Byte>
    requires busmap.Length == 256
    reads busmap
  {
    set x: Byte | !busmap[x]
  }

  lemma Fewer(before: set<Byte>, unmarked: set<Byte>, marked: set<Byte>, remaining: set<Byte>, bus: Byte)
    requires forall x: Byte :: x in before <==> x !in unmarked
    requires forall x: Byte :: x in marked <==> x !in remaining
    requires before <= marked && bus in marked && bus !in before
    ensures remaining < unmarked
  {
    assert bus in unmarked;
  }

  /** struct pci_access: the device list, newest first. */
  class Access {
    const space: Space
    var devices: seq<PciDev>

    constructor (space: Space)
      ensures this.space == space && devices == []
    {
      this.space := space;
      devices := [];
    }

    /** pci_generic_scan_bus; `found` are the records this call linked. */
    method ScanBus(busmap: array<bool>, bus: Byte) returns (ghost found: seq<PciDev>)
      requires busmap.Length == 256
      modifies this`devices, busmap
      ensures devices == found + old(devices)
      ensures Scanned(space, bus, old(Marked(busmap)), Marked(busmap), found)
      decreases Unmarked(busmap), 0
    {
      found := [];
      if busmap[bus] { return; }
      ghost var before, unmarked := Marked(busmap), Unmarked(busmap);
      busmap[bus] := true;
      assert Marked(busmap) == before + {bus};
      WalkStart(space, bus, before);
      var dev := 0;
      while dev < 32
        invariant 0 <= dev <= 32
        invariant devices == found + old(devices)
        invariant Walked(space, bus, before, Marked(busmap), dev, 0, found)
      {
        var multi := false;
        var func := 0;
        while func == 0 || (multi && func < 8)
          invariant 0 <= func <= 8
          invariant if func > 0 then multi == Multifunction(space, bus, dev) else !multi
          invariant devices == found + old(devices)
          invariant Walked(space, bus, before, Marked(busmap), dev, func, found)
          decreases 8 - func
        {
          Fewer(before, unmarked, Marked(busmap), Unmarked(busmap), bus);
          multi, found := ScanFunction(busmap, bus, dev, func, multi, before, found);
          func := func + 1;
        }
        WalkNextDevice(space, bus, before, Marked(busmap), dev, func, found);
        dev := dev + 1;
      }
      WalkEnd(space, bus, before, Marked(busmap), found);
    }

    /** The body of the function loop. */
    method ScanFunction(busmap: array<bool>, bus: Byte, dev: nat, func: nat, multi: bool,
                        ghost before: set<Byte>, ghost found: seq<PciDev>)
      returns (multi': bool, ghost found': seq<PciDev>)
      requires busmap.Length == 256 && dev < 32 && func < 8
      requires if func > 0 then multi && Multifunction(space, bus, dev) else !multi
      requires Walked(space, bus, before, Marked(busmap), dev, func, found)
      modifies this`devices, busmap
      ensures multi' == Multifunction(space, bus, dev)
      ensures |found'| >= |found| && found'[|found'| - |found|..] == found
      ensures devices == found'[..|found'| - |found|] + old(devices)
      ensures Walked(space, bus, before, Marked(busmap), dev, func + 1, found')
      decreases Unmarked(busmap), 1
    {
      multi', found' := multi, found;
      if !Answers(space, bus, dev, func) {
        WalkAbsent(space, bus, before, Marked(busmap), dev, func, found);
        return;
      }
      var ht := space(bus, dev, func, HEADER_TYPE);
      if func == 0 { multi' := ht >= 0x80; }
      var d := Record(space, bus, dev, func);
      devices := [d] + devices;
      if IsBridgeHeader(d.hdrtype) {
        var next := space(bus, dev, func, SECONDARY_BUS);
        ghost var marked := Marked(busmap);
        ghost var below := ScanBus(busmap, next);
        WalkBridge(space, bus, before, marked, dev, func, found, next, Marked(busmap), below);
        found' := below + ([d] + found);
        assert found'[..|found'| - |found|] == below + [d];
      } else {
        WalkLeaf(space, bus, before, Marked(busmap), dev, func, found);
        found' := [d] + found;
      }
    }

    /** pci_generic_scan: exactly the functions present on buses reachable from
        bus 0 are linked, each of them once. */
    method Scan()
      modifies this`devices
      ensures |devices| >= |old(devices)| && devices[|devices| - |old(devices)|..] == old(devices)
      ensures var found := devices[..|devices| - |old(devices)|];
              && (forall d :: d in found <==> AsInSpace(space, d) && Reachable(space, 0, d.bus))
              && NewestFirst(found)
    {
      var busmap := new bool[256](_ => false);
      assert Marked(busmap) == {};
      ghost var found := ScanBus(busmap, 0);
      ghost var marked := Marked(busmap);
      forall x: Byte ensures x in marked <==> Reachable(space, 0, x) {
        if Reachable(space, 0, x) {
          var path :| IsPath(space, path, 0, x);
          ClosedContains(space, marked, path, 0, x);
        }
      }
      assert devices[..|devices| - |old(devices)|] == found;
      forall d ensures Genuine(space, d) <==> AsInSpace(space, d) { GenuineIff(space, d); }
    }
  }
}

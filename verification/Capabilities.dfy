/** Capability lists (lib/caps.c): linked chains inside configuration space that
    an arbitrary device may corrupt or close into a loop. */
module Capabilities {
  import opened Config
  import opened CText

  /** The device's registers; a failed read answers 0xff. */
  type Regs = nat -> Byte

  function LongAt(r: Regs, pos: nat): U32 {
    Long(r(pos), r(pos + 1), r(pos + 2), r(pos + 3))
  }

  datatype Kind = Normal | Extended

  /** struct pci_cap */
  datatype Cap = Cap(addr: nat, id: U16, kind: Kind)

  const CAP_ID_EXP := 0x10
  const EXT_START := 0x100

  /** A place where a list entry may be: whether it carries a capability, and
      where it points (0 ends the list). */
  datatype Node = Node(valid: bool, next: nat)

  /** A list inside configuration space: its start and all its possible nodes. */
  datatype Links = Links(start: nat, nodes: seq<Node>) {
    predicate Inside() {
      start < |nodes| && forall n | n in nodes :: n.next < |nodes|
    }
  }

  function NodeAt(r: Regs, kind: Kind, where: nat): Node {
    if kind == Normal then Node(r(where) != 0xff, Align4(r(where + 1)))
    else Node(LongAt(r, where) != 0 && LongAt(r, where) != 0xffff_ffff, Align4(LongAt(r, where) / 0x10_0000))
  }

  function Room(kind: Kind): nat {
    if kind == Normal then 0x100 else 0x1000
  }

  function ListOf(r: Regs, kind: Kind): (l: Links)
    ensures |l.nodes| == Room(kind) && l.Inside()
    ensures forall w :: 0 <= w < |l.nodes| ==> l.nodes[w] == NodeAt(r, kind, w)
  {
    Links(if kind == Normal then Align4(r(CAPABILITY_LIST)) else EXT_START,
          seq(Room(kind), w requires 0 <= w => NodeAt(r, kind, w)))
  }

  /** The address the chain goes to after its first i entries. */
  function Follow(l: Links, addrs: seq<nat>, i: nat): nat
    requires i <= |addrs|
  {
    if i > 0 && addrs[i - 1] < |l.nodes| then l.nodes[addrs[i - 1]].next else l.start
  }

  /** addrs follows the chain from its start, through entries only, and never
      comes back to an address. */
  ghost predicate Chain(l: Links, addrs: seq<nat>) {
    && (forall a | a in addrs :: 0 < a < |l.nodes| && l.nodes[a].valid)
    && (forall i, j :: 0 <= i < j < |addrs| ==> addrs[i] != addrs[j])
    && (forall i {:trigger Follow(l, addrs, i)} :: 0 <= i < |addrs| ==> addrs[i] == Follow(l, addrs, i))
  }

  /** ... and cannot be followed any further. */
  ghost predicate Complete(l: Links, addrs: seq<nat>) {
    && Chain(l, addrs)
    && var end := Follow(l, addrs, |addrs|);
       end == 0 || end in addrs || end >= |l.nodes| || !l.nodes[end].valid
  }

  lemma ChainShrinks(l: Links, addrs: seq<nat>)
    requires Chain(l, addrs) && addrs != []
    ensures Chain(l, addrs[..|addrs| - 1])
  {
    var shorter := addrs[..|addrs| - 1];
    forall i {:trigger Follow(l, shorter, i)} | 0 <= i < |shorter| ensures shorter[i] == Follow(l, shorter, i) {
      assert addrs[i] == Follow(l, addrs, i);
    }
    forall a | a in shorter ensures 0 < a < |l.nodes| && l.nodes[a].valid { assert a in addrs; }
  }

  /** A complete chain is the longest one: every chain is a prefix of it. */
  lemma {:induction false} CompleteIsLongest(l: Links, addrs: seq<nat>, other: seq<nat>)
    requires Complete(l, addrs) && Chain(l, other)
    ensures other <= addrs
    decreases |other|
  {
    if other != [] {
      var shorter := other[..|other| - 1];
      ChainShrinks(l, other);
      CompleteIsLongest(l, addrs, shorter);
      var k := |shorter|;
      var where := other[k];
      assert where == Follow(l, other, k) == Follow(l, addrs, k);
      assert where in other && (k == |addrs| ==> shorter == addrs);
    }
  }

  lemma ChainGrows(l: Links, addrs: seq<nat>, where: nat)
    requires Chain(l, addrs) && where == Follow(l, addrs, |addrs|)
    requires 0 < where < |l.nodes| && where !in addrs && l.nodes[where].valid
    ensures Chain(l, addrs + [where])
    ensures Follow(l, addrs + [where], |addrs| + 1) == l.nodes[where].next
  {
    var longer := addrs + [where];
    forall i {:trigger Follow(l, longer, i)} | 0 <= i < |longer| ensures longer[i] == Follow(l, longer, i) {
      if i < |addrs| { assert addrs[i] == Follow(l, addrs, i); }
    }
  }

  /** The list register and the links are dword aligned, so the entries are. */
  lemma ChainAligned(r: Regs, kind: Kind, addrs: seq<nat>)
    requires Chain(ListOf(r, kind), addrs)
    ensures forall a | a in addrs :: a % 4 == 0 && 0 < a < Room(kind)
  {
    hide NodeAt;
    var l := ListOf(r, kind);
    StartAligned(r, kind);
    forall i | 0 <= i < |addrs| ensures 0 < addrs[i] < |l.nodes| { assert addrs[i] in addrs; }
    forall i | 0 <= i < |addrs| ensures addrs[i] % 4 == 0 {
      assert addrs[i] == Follow(l, addrs, i);
      if i > 0 {
        assert l.nodes[addrs[i - 1]] == NodeAt(r, kind, addrs[i - 1]);
        NextAligned(r, kind, addrs[i - 1]);
      }
    }
  }

  lemma NextAligned(r: Regs, kind: Kind, where: nat)
    ensures NodeAt(r, kind, where).next % 4 == 0
  {
    hide LongAt;
  }

  lemma StartAligned(r: Regs, kind: Kind)
    ensures ListOf(r, kind).start % 4 == 0
  {
    hide NodeAt;
  }

  function Entry(r: Regs, kind: Kind, where: nat): Cap {
    Cap(where, if kind == Normal then r(where) else LongAt(r, where) % 0x1_0000, kind)
  }

  /** The capabilities recorded for the entries at addrs. */
  function Entries(r: Regs, kind: Kind, addrs: seq<nat>): seq<Cap> {
    if addrs == [] then []
    else Entries(r, kind, addrs[..|addrs| - 1]) + [Entry(r, kind, addrs[|addrs| - 1])]
  }

  lemma EntriesGrow(r: Regs, kind: Kind, addrs: seq<nat>, where: nat)
    ensures Entries(r, kind, addrs + [where]) == Entries(r, kind, addrs) + [Entry(r, kind, where)]
  {
    assert (addrs + [where])[..|addrs|] == addrs;
  }

  lemma NoneYet(r: Regs)
    ensures Chain(ListOf(r, Extended), []) && Follow(ListOf(r, Extended), [], 0) == EXT_START
    ensures Entries(r, Extended, []) == []
  {
  }

  /** The capabilities with this id and kind, in list order. */
  function Matches(caps: seq<Cap>, id: nat, kind: Kind): seq<Cap> {
    if caps == [] then []
    else
      var c := caps[|caps| - 1];
      Matches(caps[..|caps| - 1], id, kind) + (if c.kind == kind && c.id == id then [c] else [])
  }

  /** The status register says that there is a list. */
  predicate HasList(r: Regs) {
    Word(r(STATUS), r(STATUS + 1)) / 0x10 % 2 == 1
  }

  /** The addresses a visited-array has not seen. */
  ghost function Unseen(beenThere: array<bool>): set<int>
    reads beenThere
  {
    set a | 0 <= a < beenThere.Length && !beenThere[a]
  }

  /** The visited-array marks exactly the addresses in addrs. */
  ghost predicate Marks(beenThere: array<bool>, addrs: seq<nat>)
    reads beenThere
  {
    forall a: nat :: a < beenThere.Length ==> (beenThere[a] <==> a in addrs)
  }

  /** The complete chain of the traditional list, if there is one. */
  ghost predicate IsTrad(r: Regs, chain: seq<nat>) {
    if HasList(r) then Complete(ListOf(r, Normal), chain) else chain == []
  }

  /** The capability part of struct pci_dev. */
  class Device {
    const regs: Regs
    var caps: seq<Cap>
    var knownCaps: bool
    var knownExt: bool
    ghost var trad: seq<nat>
    ghost var ext: seq<nat>
    ghost var twice: bool

    /** The list holds the longest chains of what is known, the traditional
        one first, and again when extended capabilities were asked for before it
        was known; extended capabilities need a PCI Express capability. */
    ghost predicate Valid()
      reads this
    {
      && caps == Copies() + Entries(regs, Extended, ext)
      && (twice ==> knownCaps)
      && (if !knownCaps then trad == [] else IsTrad(regs, trad))
      && (knownExt ==> knownCaps)
      && (if !knownExt || !IsExpress() then ext == [] else Complete(ListOf(regs, Extended), ext))
    }

    ghost function Copies(): seq<Cap>
      reads this
    {
      if twice then Entries(regs, Normal, trad) + Entries(regs, Normal, trad) else Entries(regs, Normal, trad)
    }

    ghost predicate IsExpress()
      reads this
    {
      Matches(Entries(regs, Normal, trad), CAP_ID_EXP, Normal) != []
    }

    constructor (regs: Regs)
      ensures Valid() && this.regs == regs && !knownCaps && !knownExt && !twice
    {
      this.regs := regs;
      caps, knownCaps, knownExt := [], false, false;
      trad, ext, twice := [], [], false;
    }

    /** pci_scan_trad_caps: appends the complete chain to the list. */
    method ScanTradCaps() returns (ghost chain: seq<nat>)
      modifies this`caps
      ensures caps == old(caps) + Entries(regs, Normal, chain)
      ensures IsTrad(regs, chain)
    {
      chain := [];
      if HasList(regs) { chain := WalkTradCaps(ListOf(regs, Normal)); }
    }

    /** Its loop. */
    method WalkTradCaps(ghost l: Links) returns (ghost chain: seq<nat>)
      requires l == ListOf(regs, Normal)
      modifies this`caps
      ensures caps == old(caps) + Entries(regs, Normal, chain) && Complete(l, chain)
    {
      chain := [];
      var beenThere := new bool[256](_ => false);
      var where := Align4(regs(CAPABILITY_LIST));
      while where != 0
        invariant where < 256 && Chain(l, chain) && where == Follow(l, chain, |chain|)
        invariant Marks(beenThere, chain)
        invariant caps == old(caps) + Entries(regs, Normal, chain)
        decreases Unseen(beenThere)
      {
        var id := regs(where);
        var next := Align4(regs(where + 1));
        if beenThere[where] { break; }
        assert where in Unseen(beenThere);
        beenThere[where] := true;
        if id == 0xff { break; }
        EntriesGrow(regs, Normal, chain, where);
        ChainGrows(l, chain, where);
        caps := caps + [Cap(where, id, Normal)];
        chain := chain + [where];
        where := next;
      }
    }

    /** pci_scan_ext_caps. Its search for the PCI Express capability fills the
        traditional ones if they are not marked as known, although the caller may
        just have scanned them. */
    method ScanExtCaps()
      requires ext == [] && (twice ==> knownCaps)
      requires caps == Copies() && IsTrad(regs, trad)
      modifies this
      ensures trad == old(trad) && knownCaps && knownExt == old(knownExt) && twice == (old(twice) || !old(knownCaps))
      ensures caps == Copies() + Entries(regs, Extended, ext)
      ensures if IsExpress() then Complete(ListOf(regs, Extended), ext) else ext == []
    {
      hide IsTrad, Matches, Complete, ListOf;
      if !knownCaps {
        ghost var again := ScanTradCaps();
        SameChain(regs, trad, again);
        knownCaps, twice := true, true;
      }
      var express, n := Search(CAP_ID_EXP, Normal, 0);
      CopiesMatch();
      if express == None { return; }
      WalkExtCaps(ListOf(regs, Extended));
    }

    /** Twice the chain has twice the matches. */
    lemma CopiesMatch()
      ensures forall id, kind :: |Matches(Copies(), id, kind)| ==
                (if twice then 2 else 1) * |Matches(Entries(regs, Normal, trad), id, kind)|
    {
      var t := Entries(regs, Normal, trad);
      forall id, kind ensures Matches(t + t, id, kind) == Matches(t, id, kind) + Matches(t, id, kind) {
        MatchesConcat(t, t, id, kind);
      }
    }

    /** The header at `where`: the entry's id and link, or None when it is invalid. */
    method ReadHeader(where: nat, ghost l: Links) returns (header: Option<(U16, nat)>)
      requires l == ListOf(regs, Extended) && where < 0x1000
      ensures header.Some? == l.nodes[where].valid
      ensures header.Some? ==> header.value.1 == l.nodes[where].next < 0x1000
      ensures header.Some? ==> Entry(regs, Extended, where) == Cap(where, header.value.0, Extended)
    {
      var h := LongAt(regs, where);
      assert l.nodes[where] in l.nodes;
      header := if h == 0 || h == 0xffff_ffff then None else Some((h % 0x1_0000, Align4(h / 0x10_0000)));
    }

    method WalkExtCaps(ghost l: Links)
      requires l == ListOf(regs, Extended) && ext == []
      modifies this`caps, this`ext
      ensures caps == old(caps) + Entries(regs, Extended, ext)
      ensures Complete(l, ext)
    {
      hide Chain, Entries, Entry, ListOf;
      NoneYet(regs);
      var beenThere := new bool[0x1000](_ => false);
      var where := EXT_START;
      while true
        invariant Chain(l, ext) && where == Follow(l, ext, |ext|)
        invariant 0 < where < 0x1000 && Marks(beenThere, ext)
        invariant caps == old(caps) + Entries(regs, Extended, ext)
        decreases Unseen(beenThere)
      {
        var header := ReadHeader(where, l);
        if header == None { break; }
        if beenThere[where] { break; }
        assert where in Unseen(beenThere);
        beenThere[where] := true;
        EntriesGrow(regs, Extended, ext, where);
        ChainGrows(l, ext, where);
        caps := caps + [Cap(where, header.value.0, Extended)];
        ext := ext + [where];
        where := header.value.1;
        if where == 0 { break; }
      }
    }

    /** pci_fill_info for traditional capabilities. */
    method FillCaps()
      requires Valid()
      modifies this
      ensures Valid() && knownCaps && knownExt == old(knownExt) && ext == old(ext) && twice == old(twice)
      ensures old(knownCaps) ==> caps == old(caps) && trad == old(trad)
    {
      hide IsTrad, Complete, Matches, ListOf;
      if !knownCaps {
        trad := ScanTradCaps();
        knownCaps := true;
      }
    }

    /** pci_fill_info for extended capabilities, which scans the traditional ones
        first when they are not known. */
    method FillExtCaps()
      requires Valid()
      modifies this
      ensures Valid() && knownCaps && knownExt && twice == (old(twice) || !old(knownCaps))
      ensures old(knownCaps) ==> trad == old(trad)
      ensures old(knownExt) ==> caps == old(caps) && ext == old(ext)
    {
      hide IsTrad, Complete, Matches, ListOf;
      if !knownExt {
        if !knownCaps { trad := ScanTradCaps(); }
        ScanExtCaps();
        knownExt := true;
      }
    }

    /** The loop of pci_find_cap_nr: the capability with index `target` among
        the matching ones, and how many match. */
    method Search(id: nat, kind: Kind, target: nat) returns (found: Option<Cap>, index: nat)
      ensures index == |Matches(caps, id, kind)|
      ensures found == if target < index then Some(Matches(caps, id, kind)[target]) else None
    {
      found, index := None, 0;
      var i := 0;
      while i < |caps|
        invariant 0 <= i <= |caps|
        invariant index == |Matches(caps[..i], id, kind)|
        invariant found == if target < index then Some(Matches(caps[..i], id, kind)[target]) else None
      {
        assert caps[..i + 1][..i] == caps[..i];
        if caps[i].kind == kind && caps[i].id == id {
          if target == index { found := Some(caps[i]); }
          index := index + 1;
        }
        i := i + 1;
      }
      assert caps[..i] == caps;
    }

    /** pci_find_cap_nr: the n-th match and the number of matches among the
        longest valid chains of the device. The number is true, except that
        traditional matches count double once extended capabilities were asked for
        before the traditional ones. */
    method FindCapNr(id: nat, kind: Kind, target: nat) returns (found: Option<Cap>, count: nat)
      requires Valid()
      modifies this
      ensures Valid() && knownCaps && (kind == Extended ==> knownExt)
      ensures twice == (old(twice) || (kind == Extended && !old(knownCaps)))
      ensures count == |Matches(caps, id, kind)|
      ensures found == if target < count then Some(Matches(caps, id, kind)[target]) else None
      ensures count == (if kind == Normal && twice then 2 else 1)
                       * |Matches(Entries(regs, kind, if kind == Normal then trad else ext), id, kind)|
    {
      hide IsTrad, Complete, ListOf, Matches, Entries;
      if kind == Normal { FillCaps(); } else { FillExtCaps(); }
      found, count := Search(id, kind, target);
      CopiesMatch();
      MatchesConcat(Copies(), Entries(regs, Extended, ext), id, kind);
      OtherKind(regs, trad, id);
      OtherKind(regs, ext, id);
    }
  }

  /** Two complete chains of one list are the same. */
  lemma SameChain(r: Regs, a: seq<nat>, b: seq<nat>)
    requires IsTrad(r, a) && IsTrad(r, b)
    ensures a == b
  {
    if HasList(r) {
      CompleteIsLongest(ListOf(r, Normal), a, b);
      CompleteIsLongest(ListOf(r, Normal), b, a);
    }
  }

  lemma {:induction false} MatchesConcat(a: seq<Cap>, b: seq<Cap>, id: nat, kind: Kind)
    ensures Matches(a + b, id, kind) == Matches(a, id, kind) + Matches(b, id, kind)
  {
    if b == [] {
      assert a + b == a;
    } else {
      assert (a + b)[..|a + b| - 1] == a + b[..|b| - 1];
      MatchesConcat(a, b[..|b| - 1], id, kind);
    }
  }

  /** Entries of one kind match no search for the other. */
  lemma {:induction false} OtherKind(r: Regs, addrs: seq<nat>, id: nat)
    ensures Matches(Entries(r, Normal, addrs), id, Extended) == []
    ensures Matches(Entries(r, Extended, addrs), id, Normal) == []
  {
    if addrs != [] {
      OtherKind(r, addrs[..|addrs| - 1], id);
      EntriesLast(r, Normal, addrs);
      EntriesLast(r, Extended, addrs);
      hide Entries;
    }
  }

  lemma EntriesLast(r: Regs, kind: Kind, addrs: seq<nat>)
    requires addrs != []
    ensures var es := Entries(r, kind, addrs);
            es != [] && es[|es| - 1].kind == kind && es[..|es| - 1] == Entries(r, kind, addrs[..|addrs| - 1])
  {
  }

  /** Matches keeps exactly the capabilities that match, in their order: it is
      the subsequence picked by the matching positions. */
  lemma {:induction false} MatchesPick(caps: seq<Cap>, id: nat, kind: Kind) returns (at: seq<nat>)
    ensures |at| == |Matches(caps, id, kind)|
    ensures forall i, j :: 0 <= i < j < |at| ==> at[i] < at[j]
    ensures forall i :: 0 <= i < |at| ==> at[i] < |caps| && Matches(caps, id, kind)[i] == caps[at[i]]
    ensures forall k: nat :: k < |caps| ==> (k in at <==> caps[k].kind == kind && caps[k].id == id)
  {
    at := [];
    if caps != [] {
      var n := |caps| - 1;
      at := MatchesPick(caps[..n], id, kind);
      if caps[n].kind == kind && caps[n].id == id { at := at + [n]; }
    }
  }
}

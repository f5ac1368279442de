/** Capability lists laid out in registers, byte by byte, and what the walks of
    lib/caps.c make of them. */
module CapabilityLayout {
  import opened Config
  import opened Capabilities

  /** The address behind entry i of a list that ends with 0. */
  function After(addrs: seq<nat>, i: nat): nat
    requires i <= |addrs|
  {
    if i < |addrs| then addrs[i] else 0
  }

  ghost predicate Apart(addrs: seq<nat>) {
    forall i, j :: 0 <= i < j < |addrs| ==> addrs[i] != addrs[j]
  }

  /** An id in the first byte, the next address in the second without its two low
      bits. */
  predicate EntrySays(r: Regs, where: nat, id: Byte, next: nat) {
    r(where) == id != 0xff && r(where + 1) - r(where + 1) % 4 == next
  }

  /** Bit 4 of register 6 is set, register 0x34 points to the first capability, and
      each is such an entry. */
  ghost predicate TradLaidOut(r: Regs, addrs: seq<nat>, ids: seq<Byte>) {
    && |addrs| == |ids| && Apart(addrs) && r(6) / 0x10 % 2 == 1
    && r(0x34) - r(0x34) % 4 == After(addrs, 0)
    && forall i :: 0 <= i < |addrs| ==> 0 < addrs[i] < 0x100 && EntrySays(r, addrs[i], ids[i], After(addrs, i + 1))
  }

  /** A header with the id in its first two bytes and the next address in the upper
      twelve bits of the other two; it is neither all 0 nor all 0xff. */
  predicate HeaderSays(r: Regs, where: nat, id: U16, next: nat) {
    && r(where) + 0x100 * r(where + 1) == id
    && (id != 0 || r(where + 2) != 0 || r(where + 3) != 0)
    && (id != 0xffff || r(where + 2) != 0xff || r(where + 3) != 0xff)
    && var up := r(where + 2) / 0x10 + 0x10 * r(where + 3); up - up % 4 == next
  }

  /** The first capability is at 0x100, and each has such a header. */
  ghost predicate ExtLaidOut(r: Regs, addrs: seq<nat>, ids: seq<U16>) {
    && |addrs| == |ids| && Apart(addrs) && addrs != [] && addrs[0] == 0x100
    && forall i :: 0 <= i < |addrs| ==>
         0 < addrs[i] < 0x1000 && HeaderSays(r, addrs[i], ids[i], After(addrs, i + 1))
  }

  lemma ListBit(r: Regs)
    ensures HasList(r) <==> r(6) / 0x10 % 2 == 1
  {
    assert Word(r(6), r(7)) / 0x10 == r(6) / 0x10 + 0x10 * r(7);
  }

  lemma Masked(x: nat)
    ensures Align4(x) == x - x % 4
  {
  }

  lemma {:induction false} EntriesAt(r: Regs, kind: Kind, addrs: seq<nat>)
    ensures |Entries(r, kind, addrs)| == |addrs|
    ensures forall i :: 0 <= i < |addrs| ==> Entries(r, kind, addrs)[i] == Entry(r, kind, addrs[i])
  {
    if addrs != [] { EntriesAt(r, kind, addrs[..|addrs| - 1]); }
  }

  /** The list consists of the entries at addrs, each linked to the next. */
  ghost predicate Linked(l: Links, addrs: seq<nat>) {
    && Apart(addrs) && l.start == After(addrs, 0)
    && forall i :: 0 <= i < |addrs| ==>
         0 < addrs[i] < |l.nodes| && l.nodes[addrs[i]] == Node(true, After(addrs, i + 1))
  }

  lemma LinkedComplete(l: Links, addrs: seq<nat>)
    requires Linked(l, addrs)
    ensures Complete(l, addrs)
  {
    forall i {:trigger Follow(l, addrs, i)} | 0 <= i <= |addrs| ensures Follow(l, addrs, i) == After(addrs, i) {
      if i > 0 { assert l.nodes[addrs[i - 1]].next == After(addrs, i); }
    }
  }

  lemma EntryRead(r: Regs, where: nat, id: Byte, next: nat)
    requires EntrySays(r, where, id, next)
    ensures NodeAt(r, Normal, where) == Node(true, next) && Entry(r, Normal, where) == Cap(where, id, Normal)
  {
    Masked(r(where + 1));
  }

  /** A traditional list that is laid out is found as it is. */
  lemma TradFound(r: Regs, addrs: seq<nat>, ids: seq<Byte>)
    requires TradLaidOut(r, addrs, ids)
    ensures IsTrad(r, addrs)
    ensures Entries(r, Normal, addrs) == seq(|addrs|, i requires 0 <= i < |addrs| => Cap(addrs[i], ids[i], Normal))
  {
    hide Complete, HasList, ListOf, NodeAt, Entry, EntrySays;
    ListBit(r);
    EntriesAt(r, Normal, addrs);
    TradStart(r);
    forall i | 0 <= i < |addrs|
      ensures ListOf(r, Normal).nodes[addrs[i]] == Node(true, After(addrs, i + 1))
      ensures Entry(r, Normal, addrs[i]) == Cap(addrs[i], ids[i], Normal)
    {
      EntryRead(r, addrs[i], ids[i], After(addrs, i + 1));
    }
    LinkedComplete(ListOf(r, Normal), addrs);
  }

  lemma TradStart(r: Regs)
    ensures ListOf(r, Normal).start == r(0x34) - r(0x34) % 4 && ListOf(r, Extended).start == 0x100
  {
    Masked(r(0x34));
  }

  /** A device is taken for a PCI Express one exactly when it has capability 0x10. */
  lemma ExpressIff(r: Regs, addrs: seq<nat>, ids: seq<Byte>)
    requires TradLaidOut(r, addrs, ids)
    ensures Matches(Entries(r, Normal, addrs), CAP_ID_EXP, Normal) != [] <==> 0x10 in ids
  {
    hide TradLaidOut, Matches, IsTrad;
    TradFound(r, addrs, ids);
    var es := Entries(r, Normal, addrs);
    var at := MatchesPick(es, CAP_ID_EXP, Normal);
    SameLength(r, addrs, ids);
    if at != [] { assert ids[at[0]] == 0x10; }
    if k :| 0 <= k < |ids| && ids[k] == 0x10 { assert es[k].id == 0x10 && k in at; }
  }

  /** A device with one capability, PCI Express, at 0x40. */
  const EXPRESS: Regs := k => if k == 6 then 0x10 else if k == 0x34 then 0x40 else if k == 0x40 then 0x10 else 0

  /** Asked for extended capabilities first, it is found to have two of them. */
  lemma ExpressTwice(chain: seq<nat>)
    requires IsTrad(EXPRESS, chain)
    ensures chain == [0x40]
    ensures var t := Entries(EXPRESS, Normal, chain); |Matches(t + t, 0x10, Normal)| == 2
  {
    hide IsTrad, Entries;
    TradFound(EXPRESS, [0x40], [0x10]);
    SameChain(EXPRESS, chain, [0x40]);
    var c := Cap(0x40, 0x10, Normal);
    assert Entries(EXPRESS, Normal, [0x40]) == [c];
    assert Matches([c], 0x10, Normal) == [c] by { assert [c][..0] == []; }
    MatchesConcat([c], [c], 0x10, Normal);
  }

  lemma SameLength(r: Regs, addrs: seq<nat>, ids: seq<Byte>)
    requires TradLaidOut(r, addrs, ids)
    ensures |addrs| == |ids|
  {
  }

  lemma HeaderBytes(r: Regs, where: nat)
    ensures var l := LongAt(r, where);
            && l % 0x1_0000 == r(where) + 0x100 * r(where + 1)
            && l / 0x10_0000 == r(where + 2) / 0x10 + 0x10 * r(where + 3)
            && (l == 0 <==> r(where) + 0x100 * r(where + 1) == 0 && r(where + 2) == 0 && r(where + 3) == 0)
            && (l == 0xffff_ffff <==>
                  r(where) + 0x100 * r(where + 1) == 0xffff && r(where + 2) == 0xff && r(where + 3) == 0xff)
  {
  }

  lemma HeaderRead(r: Regs, where: nat, id: U16, next: nat)
    requires HeaderSays(r, where, id, next)
    ensures NodeAt(r, Extended, where) == Node(true, next) && Entry(r, Extended, where) == Cap(where, id, Extended)
  {
    hide LongAt;
    HeaderBytes(r, where);
    Masked(r(where + 2) / 0x10 + 0x10 * r(where + 3));
  }

  /** An extended list that is laid out is found as it is. */
  lemma ExtFound(r: Regs, addrs: seq<nat>, ids: seq<U16>)
    requires ExtLaidOut(r, addrs, ids)
    ensures Complete(ListOf(r, Extended), addrs)
    ensures Entries(r, Extended, addrs) == seq(|addrs|, i requires 0 <= i < |addrs| => Cap(addrs[i], ids[i], Extended))
  {
    hide Complete, ListOf, NodeAt, Entry, HeaderSays;
    EntriesAt(r, Extended, addrs);
    TradStart(r);
    forall i | 0 <= i < |addrs|
      ensures ListOf(r, Extended).nodes[addrs[i]] == Node(true, After(addrs, i + 1))
      ensures Entry(r, Extended, addrs[i]) == Cap(addrs[i], ids[i], Extended)
    {
      HeaderRead(r, addrs[i], ids[i], After(addrs, i + 1));
    }
    LinkedComplete(ListOf(r, Extended), addrs);
  }

  /** A list ends at an id of 0xff, and at a header that is all 0 or all 0xff. */
  lemma EndMarks(r: Regs, where: nat, v: Byte)
    requires v == 0 || v == 0xff
    ensures r(where) == 0xff ==> !NodeAt(r, Normal, where).valid
    ensures r(where) == r(where + 1) == r(where + 2) == r(where + 3) == v ==> !NodeAt(r, Extended, where).valid
  {
    hide LongAt;
    HeaderBytes(r, where);
  }
}

/** Device filters (lib/filter.c) and the text in which the hotplug daemon
    remembers its ports (src/adna.c, save_to_adna_list): a device's address and
    ids are printed, parsed back as a filter, and matched against later scans. */
module Filter {
  import opened Config
  import opened CText

  /** What a match looks at in struct pci_dev. */
  datatype Device = Device(domain: int, bus: Byte, dev: Byte, func: Byte, vendor: U16, device: U16, class_: U16)

  /** struct pci_filter; a negative field matches anything. */
  datatype Wanted = Wanted(domain: int, bus: int, slot: int, func: int, vendor: int, device: int, class_: int)

  /** After memset(f, 0, sizeof *f), and after pci_filter_init. */
  const ZEROED := Wanted(0, 0, 0, 0, 0, 0, 0)
  const ANYTHING := Wanted(-1, -1, -1, -1, -1, -1, -1)

  datatype Error = NoColon | BadDomain | BadBus | BadSlot | BadFunction | BadVendor | BadDevice | BadClass

  /** strtol(s, &e, 16) that takes all of s and lies within [0, max]. */
  function HexArg(s: string, max: int): (r: Option<int>)
    ensures r.Some? ==> 0 <= r.value <= max
  {
    match ScanHex(s, 0)
    case Some(Scan(v, end)) => if end == |s| && 0 <= v <= max then Some(v) else None
    case None => None
  }

  /** An empty part or a star leaves the field as it is. */
  predicate Given(s: string) { s != "" && s != "*" }

  /** The field after its part was read; None for an invalid part. */
  function Field(old_: int, s: string, max: int): (r: Option<int>)
    ensures r.Some? && Given(s) ==> 0 <= r.value <= max
    ensures r.Some? && !Given(s) ==> r.value == old_
  {
    if Given(s) then HexArg(s, max) else Some(old_)
  }

  /** The last c in s, or |s| (strrchr). */
  function LastIndexOf(s: string, c: char, n: nat): (i: nat)
    requires n <= |s|
    ensures i < n ==> s[i] == c && forall k :: i < k < n ==> s[k] != c
    ensures i >= n ==> i == |s| && forall k :: 0 <= k < n ==> s[k] != c
  {
    if n == 0 then |s| else if s[n - 1] == c then n - 1 else LastIndexOf(s, c, n - 1)
  }

  /** The parts of [[[domain]:][bus]:][slot][.[func]]. */
  datatype SlotParts = SlotParts(domain: string, bus: string, slot: string, func: string)

  function SplitSlot(s: string): SlotParts {
    var colon := LastIndexOf(s, ':', |s|);
    var (domain, bus) := BusParts(if colon < |s| then s[..colon] else "");
    var (slot, func) := FuncParts(if colon < |s| then s[colon + 1..] else s);
    SlotParts(domain, bus, slot, func)
  }

  /** What stands before the last colon. */
  function BusParts(head: string): (string, string) {
    var colon := IndexOf(head, ':', 0);
    if colon < |head| then (head[..colon], head[colon + 1..]) else ("", head)
  }

  /** What stands behind it. */
  function FuncParts(mid: string): (string, string) {
    var dot := IndexOf(mid, '.', 0);
    (mid[..dot], if dot < |mid| then mid[dot + 1..] else "")
  }

  /** The filter and the error after parsing an address; fields before the
      faulty one have been set. */
  function ParseSlot(w: Wanted, s: string): (Wanted, Option<Error>) {
    var p := SplitSlot(s);
    var domain := Field(w.domain, p.domain, 0x7fff_ffff);
    if domain == None then (w, Some(BadDomain)) else
    var w := w.(domain := domain.value);
    var bus := Field(w.bus, p.bus, 0xff);
    if bus == None then (w, Some(BadBus)) else
    var w := w.(bus := bus.value);
    var slot := Field(w.slot, p.slot, 0x1f);
    if slot == None then (w, Some(BadSlot)) else
    var w := w.(slot := slot.value);
    var func := Field(w.func, p.func, 7);
    if func == None then (w, Some(BadFunction)) else
    (w.(func := func.value), None)
  }

  /** The same for [vendor]:[device][:class]. Whether the class is read depends
      on the device part, as in the source. */
  function ParseId(w: Wanted, s: string): (Wanted, Option<Error>) {
    if s == "" then (w, None) else
    var colon := IndexOf(s, ':', 0);
    if colon == |s| then (w, Some(NoColon)) else
    var vendor := Field(w.vendor, s[..colon], 0xffff);
    if vendor == None then (w, Some(BadVendor)) else
    var w := w.(vendor := vendor.value);
    var rest := s[colon + 1..];
    var colon2 := IndexOf(rest, ':', 0);
    var device := Field(w.device, rest[..colon2], 0xffff);
    if device == None then (w, Some(BadDevice)) else
    var w := w.(device := device.value);
    var class_ := if colon2 < |rest| then rest[colon2 + 1..] else "";
    if class_ == "" || rest[..colon2] == "*" then (w, None) else
    var c := HexArg(class_, 0xffff);
    if c == None then (w, Some(BadClass)) else
    (w.(class_ := c.value), None)
  }

  predicate Matches(w: Wanted, d: Device) {
    && (w.domain >= 0 ==> w.domain == d.domain)
    && (w.bus >= 0 ==> w.bus == d.bus)
    && (w.slot >= 0 ==> w.slot == d.dev)
    && (w.func >= 0 ==> w.func == d.func)
    && (w.device >= 0 ==> w.device == d.device)
    && (w.vendor >= 0 ==> w.vendor == d.vendor)
    && (w.class_ >= 0 ==> w.class_ == d.class_)
  }

  /* ---- printing ---- */

  /** snprintf into a buffer of 17 characters. */
  function Printed(s: string): string {
    if |s| > 16 then s[..16] else s
  }

  /** "%04x:%02x:%02x.%d"; a negative domain prints as a 32-bit word. */
  function Address(d: Device): string {
    Join(HexPad(if d.domain >= 0 then d.domain else d.domain % 0x1_0000_0000, 4), HexPad(d.bus, 2),
         HexPad(d.dev, 2), Dec(d.func))
  }

  /** a:b:c.d */
  function Join(a: string, b: string, c: string, d: string): string {
    var head, mid := a + (":" + b), c + ("." + d);
    head + (":" + mid)
  }

  /** "%04x:%04x:%04x" */
  function Idents(d: Device): string {
    HexPad(d.vendor, 4) + ":" + HexPad(d.device, 4) + ":" + HexPad(d.class_, 4)
  }

  /** The filter that remembers a device, made over what the struct held before. */
  function Remember(w: Wanted, d: Device): Wanted {
    ParseId(ParseSlot(w, Printed(Address(d))).0, Printed(Idents(d))).0
  }

  /* ---- there and back ---- */

  /** A device whose address the filter syntax can express. */
  predicate Addressable(d: Device) {
    0 <= d.domain <= 0x7fff_ffff && d.dev < 32 && d.func < 8
  }

  function Exactly(d: Device): Wanted {
    Wanted(d.domain, d.bus, d.dev, d.func, d.vendor, d.device, d.class_)
  }

  lemma HexPadArg(n: nat, w: nat, max: int)
    requires n <= max
    ensures HexArg(HexPad(n, w), max) == Some(n) && Given(HexPad(n, w))
  {
    var s := HexPad(n, w);
    assert s[0..|s|] == s;
    ScanHexDigits(s, 0, |s|);
    HexPadValue(n, w);
    assert IsHex(s[0]);
  }

  lemma DigitArg(n: nat)
    requires n < 8
    ensures HexArg(Dec(n), 7) == Some(n) && Given(Dec(n)) && |Dec(n)| == 1
  {
    var s := Dec(n);
    assert s[0..1] == s && IsHex(s[0]) && HexVal(s[0]) == n;
    assert s[..0] == [];
    ScanHexDigits(s, 0, 1);
  }

  /** Digits contain no separator. */
  predicate Separated(s: string) {
    forall i :: 0 <= i < |s| ==> s[i] != ':' && s[i] != '.'
  }

  lemma FirstIndex(a: string, c: char, rest: string)
    requires forall i :: 0 <= i < |a| ==> a[i] != c
    ensures var s := a + ([c] + rest); IndexOf(s, c, 0) == |a| && s[..|a|] == a && s[|a| + 1..] == rest
  {
    var s := a + ([c] + rest);
    assert s[|a|] == c && forall k :: 0 <= k < |a| ==> s[k] == a[k];
  }

  lemma LastIndex(a: string, c: char, rest: string)
    requires forall i :: 0 <= i < |rest| ==> rest[i] != c
    ensures var s := a + ([c] + rest); LastIndexOf(s, c, |s|) == |a| && s[..|a|] == a && s[|a| + 1..] == rest
  {
    var s := a + ([c] + rest);
    assert s[|a|] == c && s[|a| + 1..] == rest;
    assert forall k :: |a| < k < |s| ==> s[k] == rest[k - |a| - 1];
  }

  lemma SplitAddress(a: string, b: string, c: string, d: string)
    requires Separated(a) && Separated(b) && Separated(c) && Separated(d)
    ensures SplitSlot(Join(a, b, c, d)) == SlotParts(a, b, c, d)
  {
    var head, mid := a + (":" + b), c + ("." + d);
    assert BusParts(head) == (a, b) by { FirstIndex(a, ':', b); }
    assert FuncParts(mid) == (c, d) by { FirstIndex(c, '.', d); }
    NoColonInside(c, d);
    LastIndex(head, ':', mid);
    SplitAtColon(head, mid);
  }

  lemma SplitAtColon(head: string, mid: string)
    requires var s := head + (":" + mid);
             LastIndexOf(s, ':', |s|) == |head| && s[..|head|] == head && s[|head| + 1..] == mid
    ensures var (a, b) := BusParts(head);
            var (c, d) := FuncParts(mid);
            SplitSlot(head + (":" + mid)) == SlotParts(a, b, c, d)
  {
    hide BusParts, FuncParts, LastIndexOf;
  }

  lemma NoColonInside(c: string, d: string)
    requires Separated(c) && Separated(d)
    ensures var mid := c + ("." + d); forall i :: 0 <= i < |mid| ==> mid[i] != ':'
  {
    var mid := c + ("." + d);
    forall i | 0 <= i < |mid| ensures mid[i] != ':' {
      assert mid[i] == if i < |c| then c[i] else if i == |c| then '.' else d[i - |c| - 1];
    }
  }

  lemma EmptyBus()
    ensures BusParts("") == ("", "")
  {
  }

  lemma HexSeparated(n: nat, w: nat)
    ensures Separated(HexPad(n, w)) && Separated(Dec(n))
  {
    assert forall i :: 0 <= i < |HexPad(n, w)| ==> IsHex(HexPad(n, w)[i]);
    assert forall i :: 0 <= i < |Dec(n)| ==> IsDec(Dec(n)[i]);
  }

  lemma Widths(n: nat)
    ensures n < 0x100 ==> |HexPad(n, 2)| == 2
    ensures n < 0x1_0000 ==> |HexPad(n, 4)| == 4
    ensures n < 0x1_0000_0000 ==> |HexPad(n, 4)| <= 8
  {
    Pow16Values();
    assert Pow16(8) == 0x1_0000_0000 by { assert Pow16(6) == 0x100_0000; }
    assert n < Pow16(8) ==> HexWidth(n) <= 8;
  }

  /** Parsing a printed address sets the four address fields to the device's. */
  lemma AddressRoundTrip(w: Wanted, d: Device)
    requires Addressable(d)
    ensures ParseSlot(w, Printed(Address(d))) ==
            (w.(domain := d.domain, bus := d.bus, slot := d.dev, func := d.func), None)
  {
    hide HexPad, Dec, HexArg, SplitSlot;
    Widths(d.domain);
    Widths(d.bus);
    Widths(d.dev);
    DigitArg(d.func);
    HexSeparated(d.domain, 4);
    HexSeparated(d.bus, 2);
    HexSeparated(d.dev, 2);
    HexSeparated(d.func, 2);
    SplitAddress(HexPad(d.domain, 4), HexPad(d.bus, 2), HexPad(d.dev, 2), Dec(d.func));
    HexPadArg(d.domain, 4, 0x7fff_ffff);
    HexPadArg(d.bus, 2, 0xff);
    HexPadArg(d.dev, 2, 0x1f);
  }

  lemma IdentsRoundTrip(w: Wanted, d: Device)
    ensures ParseId(w, Printed(Idents(d))) == (w.(vendor := d.vendor, device := d.device, class_ := d.class_), None)
  {
    hide HexPad, HexArg;
    var a, b, c := HexPad(d.vendor, 4), HexPad(d.device, 4), HexPad(d.class_, 4);
    Widths(d.vendor);
    Widths(d.device);
    Widths(d.class_);
    HexSeparated(d.vendor, 4);
    HexSeparated(d.device, 4);
    HexPadArg(d.vendor, 4, 0xffff);
    HexPadArg(d.device, 4, 0xffff);
    HexPadArg(d.class_, 4, 0xffff);
    var rest := b + (":" + c);
    assert Idents(d) == a + (":" + rest);
    FirstIndex(a, ':', rest);
    FirstIndex(b, ':', c);
  }

  /** A remembered device is matched by all seven fields, whatever the filter
      struct held before. */
  lemma RememberExactly(w: Wanted, d: Device)
    requires Addressable(d)
    ensures Remember(w, d) == Exactly(d)
    ensures forall e :: Matches(Remember(w, d), e) <==> e == d
  {
    hide Printed, Address, Idents, ParseSlot, ParseId;
    AddressRoundTrip(w, d);
    IdentsRoundTrip(w.(domain := d.domain, bus := d.bus, slot := d.dev, func := d.func), d);
  }

  /** A parsed address stays within the syntax, also after an error. */
  lemma ParsedRange(w: Wanted, s: string)
    requires 0 <= w.domain <= 0x7fff_ffff && 0 <= w.slot < 32 && 0 <= w.func < 8
    ensures var w' := ParseSlot(w, s).0; 0 <= w'.domain <= 0x7fff_ffff && 0 <= w'.slot < 32 && 0 <= w'.func < 8
  {
    hide SplitSlot, HexArg;
  }

  /** The exact condition under which a saved port finds its own device again. */
  lemma SavedFindsItselfIff(d: Device)
    ensures Matches(Remember(ZEROED, d), d) <==> Addressable(d)
  {
    hide Printed, Address, Idents, ParseSlot;
    if Addressable(d) {
      RememberExactly(ZEROED, d);
    } else {
      ParsedRange(ZEROED, Printed(Address(d)));
      IdentsRoundTrip(ParseSlot(ZEROED, Printed(Address(d))).0, d);
      hide ParseId;
    }
  }

  /** One entry of sysfs_scan (lib/sysfs.c): the domain must fit a signed
      integer, else the program ends; the other numbers are cut to bytes. */
  function SysfsDevice(domain: U32, bus: U32, dev: U32, func: U32, vendor: U16, device: U16, class_: U16)
    : Option<Device>
  {
    if domain > 0x7fff_ffff then None
    else Some(Device(domain, bus % 0x100, dev % 0x100, func % 0x100, vendor, device, class_))
  }

  /** What the guard of the sysfs back-end gives: a scanned device is recognized
      by its saved port, and alone, if and only if its device and function numbers
      are those of PCI. */
  lemma SysfsFoundIff(domain: U32, bus: U32, dev: U32, func: U32, vendor: U16, device: U16, class_: U16)
    ensures var r := SysfsDevice(domain, bus, dev, func, vendor, device, class_);
            r.Some? ==>
              ((forall e :: Matches(Remember(ZEROED, r.value), e) <==> e == r.value) <==>
                r.value.dev < 32 && r.value.func < 8)
  {
    hide Remember, Matches;
    var r := SysfsDevice(domain, bus, dev, func, vendor, device, class_);
    if r.Some? {
      SavedFindsItselfIff(r.value);
      if Addressable(r.value) { RememberExactly(ZEROED, r.value); }
    }
  }

  /** The filter syntax has no negative domains. Sysfs never yields one; the
      FreeBSD back-end copies an unsigned number without a check. */
  lemma NegativeDomainLost()
    ensures var d := Device(-1, 1, 2, 0, 0x10b5, 0x8608, 0x0604); !Matches(Remember(ZEROED, d), d)
  {
    SavedFindsItselfIff(Device(-1, 1, 2, 0, 0x10b5, 0x8608, 0x0604));
  }

  predicate SameAddress(a: Device, b: Device) {
    a.domain == b.domain && a.bus == b.bus && a.dev == b.dev && a.func == b.func
  }

  /** Each saved port selects at most one device of a scan. */
  lemma SavedSelectsOne(w: Wanted, d: Device, scan: seq<Device>, i: nat, j: nat)
    requires Addressable(d) && i < |scan| && j < |scan|
    requires forall a, b :: 0 <= a < b < |scan| ==> !SameAddress(scan[a], scan[b])
    requires Matches(Remember(w, d), scan[i]) && Matches(Remember(w, d), scan[j])
    ensures i == j && scan[i] == d
  {
    RememberExactly(w, d);
    hide Remember, Matches;
  }

  /* ---- cutting the string in place ---- */

  /** Position i of the string at p is overwritten, when there is one. */
  function CutAt(b: seq<char>, p: nat, s: string, i: nat): (r: seq<char>)
    requires p + |s| <= |b|
    ensures |r| == |b|
  {
    if i < |s| then b[p + i := NUL] else b
  }

  /** What parsing an address leaves of the buffer: NUL at the last colon, at the
      first colon before it, and at the point unless the parser stopped earlier. */
  function SlotCut(b: seq<char>, s: string, err: Option<Error>): seq<char>
    requires |s| < |b|
  {
    var colon := LastIndexOf(s, ':', |s|);
    var (head, mid) := if colon < |s| then (s[..colon], colon + 1) else ("", 0);
    var b1 := CutAt(b, 0, s, colon);
    var b2 := CutAt(b1, 0, head, IndexOf(head, ':', 0));
    if err == Some(BadDomain) || err == Some(BadBus) then b2
    else CutAt(b2, mid, s[mid..], IndexOf(s[mid..], '.', 0))
  }

  /** What parsing ids leaves: NUL at the first colon, and at the second unless
      the vendor was invalid. */
  function IdCut(b: seq<char>, s: string, err: Option<Error>): seq<char>
    requires |s| < |b|
  {
    var colon := IndexOf(s, ':', 0);
    if colon == |s| then b
    else
      var rest := s[colon + 1..];
      if err == Some(BadVendor) then b[colon := NUL]
      else CutAt(b[colon := NUL], colon + 1, rest, IndexOf(rest, ':', 0))
  }

  /** Cutting a C string leaves two. */
  lemma CutString(b: seq<char>, p: nat, s: string, i: nat)
    requires CAt(b, p, s) && i < |s|
    ensures CAt(b[p + i := NUL], p, s[..i]) && CAt(b[p + i := NUL], p + i + 1, s[i + 1..])
  {
    var c := b[p + i := NUL];
    var there := b[p..p + |s|];
    assert forall k :: 0 <= k < |s| ==> there[k] == b[p + k];
    assert c[p..p + i] == s[..i] && c[p + i + 1..p + |s|] == s[i + 1..];
  }

  /** Cutting the first part again leaves the second alone. */
  lemma CutBefore(b: seq<char>, s: string, colon: nat, i: nat)
    requires i <= colon < |s| && CAt(b, colon + 1, s[colon + 1..])
    ensures CAt(CutAt(b, 0, s[..colon], i), colon + 1, s[colon + 1..])
  {
    var mid, c := s[colon + 1..], CutAt(b, 0, s[..colon], i);
    assert c[colon + 1..colon + 1 + |mid|] == b[colon + 1..colon + 1 + |mid|];
  }

  /** A stack buffer with a printed string in it. */
  method Buffer17(s: string) returns (buf: array<char>)
    requires |s| < 17 && NoChar(s, NUL)
    ensures fresh(buf) && CAt(buf[..], 0, s)
  {
    buf := new char[17](k => if 0 <= k < |s| then s[k] else NUL);
    assert buf[..][0..|s|] == s;
  }

  lemma PrintedPlain(d: Device)
    ensures |Printed(Address(d))| < 17 && NoChar(Printed(Address(d)), NUL)
    ensures |Printed(Idents(d))| < 17 && NoChar(Printed(Idents(d)), NUL)
  {
    hide HexPad, Dec;
    forall n: nat, w: nat ensures NoChar(HexPad(n, w), NUL) { HexPadPlain(n, w); }
    DecPlain(d.func);
  }

  lemma HexPadPlain(n: nat, w: nat)
    ensures NoChar(HexPad(n, w), NUL)
  {
    var s := HexPad(n, w);
    forall i | 0 <= i < |s| ensures s[i] != NUL { assert IsHex(s[i]); }
    hide HexPad;
  }

  lemma DecPlain(n: nat)
    ensures NoChar(Dec(n), NUL)
  {
    var s := Dec(n);
    forall i | 0 <= i < |s| ensures s[i] != NUL { assert IsDec(s[i]); }
    hide Dec;
  }

  /** struct pci_filter in place. */
  class PciFilter {
    var domain: int
    var bus: int
    var slot: int
    var func: int
    var vendor: int
    var device: int
    var class_: int

    function Value(): Wanted
      reads this
    {
      Wanted(domain, bus, slot, func, vendor, device, class_)
    }

    /** pci_filter_init, or memset when `zeroed`. */
    constructor (zeroed: bool)
      ensures Value() == if zeroed then ZEROED else ANYTHING
    {
      var v := if zeroed then 0 else -1;
      domain, bus, slot, func := v, v, v, v;
      vendor, device, class_ := v, v, v;
    }

    /** pci_filter_parse_slot_v33, which cuts the buffer at the separators it
        passes. */
    method ParseSlotString(buf: array<char>, ghost str: string) returns (err: Option<Error>)
      requires CAt(buf[..], 0, str)
      modifies this, buf
      ensures (Value(), err) == ParseSlot(old(Value()), str)
      ensures buf[..] == SlotCut(old(buf[..]), str, err)
    {
      hide HexArg, IndexOf, LastIndexOf, BusParts, FuncParts;
      var s := CStringAt(buf, 0, str);
      var mid := 0;
      var colon := LastIndexOf(s, ':', |s|);
      if colon < |s| {
        CutString(buf[..], 0, s, colon);
        buf[colon] := NUL;
        mid := colon + 1;
        CutBefore(buf[..], s, colon, IndexOf(s[..colon], ':', 0));
        err := ParseBusString(buf, s[..colon]);
        if err.Some? { return; }
      } else {
        assert BusParts("") == ("", "") by { EmptyBus(); }
        assert s[0..] == s;
      }
      err := ParseFuncString(buf, mid, s[mid..]);
    }

    /** Its part for what stands before the last colon. */
    method ParseBusString(buf: array<char>, ghost head: string) returns (err: Option<Error>)
      requires CAt(buf[..], 0, head)
      modifies this`domain, this`bus, buf
      ensures var (d, b) := BusParts(head);
              var x, y := Field(old(domain), d, 0x7fff_ffff), Field(old(bus), b, 0xff);
              if x == None then err == Some(BadDomain) && Value() == old(Value())
              else if y == None then err == Some(BadBus) && Value() == old(Value()).(domain := x.value)
              else err == None && Value() == old(Value()).(domain := x.value, bus := y.value)
      ensures buf[..] == CutAt(old(buf[..]), 0, head, IndexOf(head, ':', 0))
    {
      hide HexArg, IndexOf;
      var s := CStringAt(buf, 0, head);
      var at := 0;
      var colon2 := IndexOf(s, ':', 0);
      if colon2 < |s| {
        CutString(buf[..], 0, s, colon2);
        buf[colon2] := NUL;
        at := colon2 + 1;
        var part := CStringAt(buf, 0, s[..colon2]);
        if Given(part) {
          var x := HexArg(part, 0x7fff_ffff);
          if x == None { return Some(BadDomain); }
          domain := x.value;
        }
      }
      assert at == 0 ==> s[0..] == s;
      var busPart := CStringAt(buf, at, s[at..]);
      if Given(busPart) {
        var x := HexArg(busPart, 0xff);
        if x == None { return Some(BadBus); }
        bus := x.value;
      }
      err := None;
    }

    /** Its part for what stands behind the last colon, at position p. */
    method ParseFuncString(buf: array<char>, p: nat, ghost mid: string) returns (err: Option<Error>)
      requires CAt(buf[..], p, mid)
      modifies this`slot, this`func, buf
      ensures var (s, f) := FuncParts(mid);
              var x, y := Field(old(slot), s, 0x1f), Field(old(func), f, 7);
              if x == None then err == Some(BadSlot) && Value() == old(Value())
              else if y == None then err == Some(BadFunction) && Value() == old(Value()).(slot := x.value)
              else err == None && Value() == old(Value()).(slot := x.value, func := y.value)
      ensures buf[..] == CutAt(old(buf[..]), p, mid, IndexOf(mid, '.', 0))
    {
      hide HexArg, IndexOf;
      var s := CStringAt(buf, p, mid);
      var dot := IndexOf(s, '.', 0);
      if dot < |s| {
        CutString(buf[..], p, s, dot);
        buf[p + dot] := NUL;
      }
      assert dot == |s| ==> s[..dot] == s;
      var slotPart := CStringAt(buf, p, s[..dot]);
      if Given(slotPart) {
        var x := HexArg(slotPart, 0x1f);
        if x == None { return Some(BadSlot); }
        slot := x.value;
      }
      if dot < |s| {
        var funcPart := CStringAt(buf, p + dot + 1, s[dot + 1..]);
        if Given(funcPart) {
          var x := HexArg(funcPart, 7);
          if x == None { return Some(BadFunction); }
          func := x.value;
        }
      }
      err := None;
    }

    /** pci_filter_parse_id_v33, which cuts the buffer in the same way. */
    method ParseIdString(buf: array<char>, ghost str: string) returns (err: Option<Error>)
      requires CAt(buf[..], 0, str)
      modifies this, buf
      ensures (Value(), err) == ParseId(old(Value()), str)
      ensures buf[..] == IdCut(old(buf[..]), str, err)
    {
      hide HexArg, IndexOf;
      if buf[0] == NUL { assert str == ""; return None; }
      var s := CStringAt(buf, 0, str);
      var colon := IndexOf(s, ':', 0);
      if colon == |s| { return Some(NoColon); }
      CutString(buf[..], 0, s, colon);
      buf[colon] := NUL;
      var part := CStringAt(buf, 0, s[..colon]);
      if Given(part) {
        var x := HexArg(part, 0xffff);
        if x == None { return Some(BadVendor); }
        vendor := x.value;
      }
      err := ParseDeviceString(buf, colon + 1, s[colon + 1..]);
    }

    /** Its part for what stands behind the first colon, at position p. */
    method ParseDeviceString(buf: array<char>, p: nat, ghost rest: string) returns (err: Option<Error>)
      requires CAt(buf[..], p, rest)
      modifies this`device, this`class_, buf
      ensures var c := IndexOf(rest, ':', 0);
              var x := Field(old(device), rest[..c], 0xffff);
              var k := if c < |rest| then rest[c + 1..] else "";
              if x == None then err == Some(BadDevice) && Value() == old(Value())
              else if k == "" || rest[..c] == "*" then err == None && Value() == old(Value()).(device := x.value)
              else if HexArg(k, 0xffff) == None
              then err == Some(BadClass) && Value() == old(Value()).(device := x.value)
              else err == None && Value() == old(Value()).(device := x.value, class_ := HexArg(k, 0xffff).value)
      ensures buf[..] == CutAt(old(buf[..]), p, rest, IndexOf(rest, ':', 0))
    {
      hide HexArg, IndexOf;
      var s := CStringAt(buf, p, rest);
      var c := IndexOf(s, ':', 0);
      if c < |s| {
        CutString(buf[..], p, s, c);
        buf[p + c] := NUL;
      }
      assert c == |s| ==> s[..c] == s;
      var part := CStringAt(buf, p, s[..c]);
      if Given(part) {
        var x := HexArg(part, 0xffff);
        if x == None { return Some(BadDevice); }
        device := x.value;
      }
      if c < |s| {
        var k := CStringAt(buf, p + c + 1, s[c + 1..]);
        if k != "" && part != "*" {
          var x := HexArg(k, 0xffff);
          if x == None { return Some(BadClass); }
          class_ := x.value;
        }
      }
      err := None;
    }

    /** pci_filter_match_v33 on a device whose ids and class are filled in. */
    method Match(d: Device) returns (ok: bool)
      ensures ok == Matches(Value(), d)
    {
      if (domain >= 0 && domain != d.domain) || (bus >= 0 && bus != d.bus)
         || (slot >= 0 && slot != d.dev) || (func >= 0 && func != d.func) {
        return false;
      }
      if device >= 0 || vendor >= 0 {
        if (device >= 0 && device != d.device) || (vendor >= 0 && vendor != d.vendor) { return false; }
      }
      if class_ >= 0 {
        if class_ != d.class_ { return false; }
      }
      ok := true;
    }

    /** The printing and parsing of save_to_adna_list for one device. */
    method Save(d: Device)
      modifies this
      ensures Value() == Remember(old(Value()), d)
      ensures Addressable(d) ==> forall e :: Matches(Value(), e) <==> e == d
    {
      hide ParseSlot, ParseId, Address, Idents, Matches;
      ghost var before := Value();
      PrintedPlain(d);
      var bdf := Buffer17(Printed(Address(d)));
      var mfg := Buffer17(Printed(Idents(d)));
      var _ := ParseSlotString(bdf, Printed(Address(d)));
      var _ := ParseIdString(mfg, Printed(Idents(d)));
      if Addressable(d) { RememberExactly(before, d); }
    }
  }
}

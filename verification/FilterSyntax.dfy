/** What the text of a filter means (lib/filter.c): which numerals its parts may
    be, how they are separated, and which devices the filter then accepts. */
module FilterSyntax {
  import opened CText
  import opened Numerals
  import opened Filter

  /* ---- numbers ---- */

  /** A part of a filter is taken for a number exactly when all of it is a numeral
      and the number is in the field's range. */
  lemma HexArgIff(s: string, max: int, v: int)
    ensures HexArg(s, max) == Some(v) <==> Numeral(s, v) && 0 <= v <= max
  {
    hide SkipSpace, HexStart, HexRun, HexNum, Unsigned, Numeral;
    NumeralAt(s, v);
    var j := SkipSpace(s, 0);
    var k := if j < |s| && (s[j] == '-' || s[j] == '+') then j + 1 else j;
    assert j < |s| ==> s[j..][0] == s[j] && s[j..][1..] == s[j + 1..];
    UnsignedAt(s, k, if j < |s| && s[j] == '-' then -v else v);
    var d := HexStart(s, k);
    if d + HexRun(s, d) == |s| { assert s[d..d + HexRun(s, d)] == s[d..]; }
  }

  /* ---- addresses ---- */

  predicate NoColon(s: string) { forall i :: 0 <= i < |s| ==> s[i] != ':' }
  predicate NoPoint(s: string) { forall i :: 0 <= i < |s| ==> s[i] != '.' }

  /** What stands behind the last colon: a slot, and a function behind a point. */
  predicate BackText(s: string, slot: string, func: string) {
    NoColon(s) && NoPoint(slot) && (s == slot + ("." + func) || (s == slot && func == ""))
  }

  /** What stands before it: a bus, and a domain before the first colon. */
  predicate FrontText(s: string, domain: string, bus: string) {
    NoColon(domain) && (s == domain + (":" + bus) || (s == bus && domain == "" && NoColon(bus)))
  }

  /** s is a text [[[domain]:][bus]:][slot][.[func]] with these parts. */
  ghost predicate SlotText(s: string, p: SlotParts) {
    || (BackText(s, p.slot, p.func) && p.domain == "" && p.bus == "")
    || exists front, back ::
         s == front + (":" + back) && FrontText(front, p.domain, p.bus) && BackText(back, p.slot, p.func)
  }

  lemma BackIff(s: string, slot: string, func: string)
    requires NoColon(s)
    ensures BackText(s, slot, func) <==> FuncParts(s) == (slot, func)
  {
    hide NoColon;
    var dot := IndexOf(s, '.', 0);
    assert dot < |s| ==> s == s[..dot] + ("." + s[dot + 1..]);
    assert dot == |s| ==> s[..dot] == s;
    if NoPoint(slot) { FirstIndex(slot, '.', func); }
  }

  lemma FrontIff(s: string, domain: string, bus: string)
    ensures FrontText(s, domain, bus) <==> BusParts(s) == (domain, bus)
  {
    var colon := IndexOf(s, ':', 0);
    assert colon < |s| ==> s == s[..colon] + (":" + s[colon + 1..]);
    if NoColon(domain) { FirstIndex(domain, ':', bus); }
  }

  /** Every text is of that form with one choice of parts, and the parser finds it. */
  lemma SlotTextIff(s: string, p: SlotParts)
    ensures SlotText(s, p) <==> p == SplitSlot(s)
  {
    hide BusParts, FuncParts, BackText, FrontText;
    var colon := LastIndexOf(s, ':', |s|);
    EmptyBus();
    if colon < |s| {
      var front, back := s[..colon], s[colon + 1..];
      assert s == front + (":" + back);
      FrontIff(front, p.domain, p.bus);
      BackIff(back, p.slot, p.func);
    } else {
      BackIff(s, p.slot, p.func);
    }
    forall front, back | s == front + (":" + back) && NoColon(back)
      ensures colon == |front| && s[..colon] == front && s[colon + 1..] == back
    {
      LastIndex(front, ':', back);
    }
    forall back, slot, func | BackText(back, slot, func) ensures NoColon(back) { BackPlain(back, slot, func); }
  }

  lemma BackPlain(s: string, slot: string, func: string)
    requires BackText(s, slot, func)
    ensures NoColon(s)
  {
  }

  /* ---- what a filter accepts ---- */

  /** A part is left out, a star, or a numeral up to max. */
  ghost predicate Fitting(part: string, max: int) {
    part == "" || part == "*" || exists v :: Numeral(part, v) && 0 <= v <= max
  }

  /** The number x is what the part asks for. */
  ghost predicate Asks(part: string, x: int) { part == "" || part == "*" || Numeral(part, x) }

  lemma NumeralUnique(s: string, v: int, x: int)
    requires Numeral(s, v) && Numeral(s, x)
    ensures v == x
  {
    hide Numeral, SkipSpace;
    NumeralAt(s, v);
    NumeralAt(s, x);
    var t := s[SkipSpace(s, 0)..];
    var u := if t != "" && (t[0] == '-' || t[0] == '+') then t[1..] else t;
    if |u| > 2 && AllHex(u) { assert IsHex(u[1]); }
  }

  lemma FieldIff(old_: int, part: string, max: int, x: int)
    ensures Field(old_, part, max) != None <==> Fitting(part, max)
    ensures old_ == -1 && max >= 0 && Fitting(part, max) ==>
              var v := Field(old_, part, max).value; (v >= 0 ==> v == x) <==> Asks(part, x)
  {
    hide HexArg, Numeral;
    forall v ensures HexArg(part, max) == Some(v) <==> Numeral(part, v) && 0 <= v <= max { HexArgIff(part, max, v); }
    if HexArg(part, max).Some? && Numeral(part, x) { NumeralUnique(part, HexArg(part, max).value, x); }
  }

  /** An address text is refused for its first part that does not fit; otherwise
      the filter accepts exactly the devices that have what its parts ask for. */
  lemma SlotMeans(s: string, p: SlotParts, d: Device)
    requires SlotText(s, p)
    ensures var (w, err) := ParseSlot(ANYTHING, s);
            && (err == Some(BadDomain) <==> !Fitting(p.domain, 0x7fff_ffff))
            && (err == Some(BadBus) <==> Fitting(p.domain, 0x7fff_ffff) && !Fitting(p.bus, 0xff))
            && (err == Some(BadSlot) <==>
                  Fitting(p.domain, 0x7fff_ffff) && Fitting(p.bus, 0xff) && !Fitting(p.slot, 0x1f))
            && (err == None <==> Fitting(p.domain, 0x7fff_ffff) && Fitting(p.bus, 0xff) && Fitting(p.slot, 0x1f)
                                 && Fitting(p.func, 7))
            && (err == None ==>
                  (Matches(w, d) <==> Asks(p.domain, d.domain) && Asks(p.bus, d.bus) && Asks(p.slot, d.dev)
                                      && Asks(p.func, d.func)))
  {
    hide SlotText, SplitSlot, Field, Fitting, Asks;
    SlotTextIff(s, p);
    FieldIff(-1, p.domain, 0x7fff_ffff, d.domain);
    FieldIff(-1, p.bus, 0xff, d.bus);
    FieldIff(-1, p.slot, 0x1f, d.dev);
    FieldIff(-1, p.func, 7, d.func);
  }

  /* ---- ids ---- */

  /** s is a text vendor:device[:class] with these parts. */
  predicate IdText(s: string, vendor: string, device: string, class_: string) {
    && NoColon(vendor) && NoColon(device)
    && (s == vendor + (":" + (device + (":" + class_))) || (s == vendor + (":" + device) && class_ == ""))
  }

  /** The class part is not looked at when it is empty or the device is a star. */
  predicate ClassGiven(device: string, class_: string) { class_ != "" && device != "*" }

  lemma IdSplit(s: string, vendor: string, device: string, class_: string)
    requires IdText(s, vendor, device, class_)
    ensures s != "" && var colon := IndexOf(s, ':', 0);
            && colon < |s| && s[..colon] == vendor
            && var rest := s[colon + 1..];
               var colon2 := IndexOf(rest, ':', 0);
               rest[..colon2] == device && (if colon2 < |rest| then rest[colon2 + 1..] else "") == class_
  {
    var rest := if s == vendor + (":" + device) then device else device + (":" + class_);
    FirstIndex(vendor, ':', rest);
    FirstIndex(device, ':', class_);
    if rest == device { assert IndexOf(device, ':', 0) == |device| && device[..|device|] == device; }
  }

  /** The same for ids. A class of "*" is refused, unlike one in any other place. */
  lemma IdMeans(s: string, vendor: string, device: string, class_: string, d: Device)
    requires IdText(s, vendor, device, class_)
    ensures var (w, err) := ParseId(ANYTHING, s);
            && (err == Some(BadVendor) <==> !Fitting(vendor, 0xffff))
            && (err == Some(BadDevice) <==> Fitting(vendor, 0xffff) && !Fitting(device, 0xffff))
            && (err == None <==> Fitting(vendor, 0xffff) && Fitting(device, 0xffff)
                                 && (ClassGiven(device, class_) ==> class_ != "*" && Fitting(class_, 0xffff)))
            && (err == None ==>
                  (Matches(w, d) <==> Asks(vendor, d.vendor) && Asks(device, d.device)
                                      && (ClassGiven(device, class_) ==> Numeral(class_, d.class_))))
  {
    hide IdText, Field, Fitting, Asks, HexArg, IndexOf, Numeral;
    IdSplit(s, vendor, device, class_);
    FieldIff(-1, vendor, 0xffff, d.vendor);
    FieldIff(-1, device, 0xffff, d.device);
    ClassIff(class_, d.class_);
  }

  lemma ClassIff(part: string, x: int)
    ensures part != "" ==> (HexArg(part, 0xffff) != None <==> part != "*" && Fitting(part, 0xffff))
    ensures part != "" && HexArg(part, 0xffff) != None ==> (HexArg(part, 0xffff).value == x <==> Numeral(part, x))
    ensures HexArg(part, 0xffff) != None ==> HexArg(part, 0xffff).value >= 0
  {
    hide HexArg, Numeral;
    forall v ensures HexArg(part, 0xffff) == Some(v) <==> Numeral(part, v) && 0 <= v <= 0xffff {
      HexArgIff(part, 0xffff, v);
    }
    StarIsNone();
    if HexArg(part, 0xffff).Some? && Numeral(part, x) { NumeralUnique(part, HexArg(part, 0xffff).value, x); }
  }

  lemma StarIsNone()
    ensures HexArg("*", 0xffff) == None
  {
    assert SkipSpace("*", 0) == 0;
  }

  lemma CutAround(s: string, i: nat)
    requires i < |s|
    ensures s == s[..i] + ([s[i]] + s[i + 1..])
  {
  }

  lemma IdTextFound(s: string) returns (vendor: string, device: string, class_: string)
    requires ':' in s
    ensures IdText(s, vendor, device, class_)
  {
    hide IdText;
    var colon := IndexOf(s, ':', 0);
    assert colon < |s|;
    var rest := s[colon + 1..];
    var colon2 := IndexOf(rest, ':', 0);
    vendor, device := s[..colon], rest[..colon2];
    class_ := if colon2 < |rest| then rest[colon2 + 1..] else "";
    if colon2 < |rest| { CutAround(rest, colon2); }
    Joined(s, vendor, rest, device, class_);
  }

  /** The texts of ids are those with a colon ... */
  lemma IdTextIff(s: string)
    ensures (exists vendor, device, class_ :: IdText(s, vendor, device, class_)) <==> ':' in s
  {
    hide IdText;
    if ':' in s { var vendor, device, class_ := IdTextFound(s); }
    if vendor, device, class_ :| IdText(s, vendor, device, class_) {
      IdSplit(s, vendor, device, class_);
      assert s[IndexOf(s, ':', 0)] == ':';
    }
  }

  lemma Joined(s: string, vendor: string, rest: string, device: string, class_: string)
    requires |vendor| < |s| && s[..|vendor|] == vendor && s[|vendor|] == ':' && s[|vendor| + 1..] == rest
    requires NoColon(vendor) && NoColon(device)
    requires rest == device + (":" + class_) || (rest == device && class_ == "")
    ensures IdText(s, vendor, device, class_)
  {
    assert s == vendor + (":" + rest);
  }

  /** ... and any other is refused for that, unless it is empty. */
  lemma NoIdText(s: string)
    ensures ParseId(ANYTHING, s).1 == Some(Error.NoColon) <==> s != "" && ':' !in s
    ensures ParseId(ANYTHING, "") == (ANYTHING, None)
  {
    hide HexArg;
    assert IndexOf(s, ':', 0) == |s| <==> ':' !in s;
  }

  /** A new filter accepts every device. */
  lemma AnythingMatches(d: Device)
    ensures Matches(ANYTHING, d)
  {
  }
}

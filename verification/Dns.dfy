/** DNS messages (lib/names-net.c): a first pass that finds the sections of an
    arbitrary message and a second one that reads records, which must agree
    (sections 4.1.3 and 4.1.4 of RFC 1035). */
module Dns {
  import opened Config
  import opened CText

  const SECTIONS := 4
  const QUESTION := 0
  const ANSWER := 1

  /* ---- what the two passes mean ---- */

  /** Behind the name at p: labels up to an empty one, or a two-byte pointer
      with something behind it. None when the name is malformed or cut off. */
  function SkipName(m: seq<Byte>, p: nat, end: nat): (r: Option<nat>)
    requires end <= |m|
    ensures r.Some? ==> p < r.value <= end
    decreases end - p
  {
    if p >= end then None
    else if m[p] == 0 then Some(p + 1)
    else if m[p] < 0x40 then SkipName(m, p + 1 + m[p], end)
    else if m[p] < 0xc0 then None
    else if p + 2 < end then Some(p + 2) else None
  }

  function Get16(m: seq<Byte>, p: nat): U16
    requires p + 2 <= |m|
  {
    Word(m[p + 1], m[p])
  }

  function Get32(m: seq<Byte>, p: nat): U32
    requires p + 4 <= |m|
  {
    Get16(m, p) * 0x1_0000 + Get16(m, p + 2)
  }

  /** Behind the record (or question) at p. */
  function SkipRecord(m: seq<Byte>, p: nat, end: nat, question: bool): (r: Option<nat>)
    requires end <= |m|
    ensures r.Some? ==> p < r.value <= end
  {
    var q := SkipName(m, p, end);
    if q == None || q.value + 4 > end then None
    else if question then Some(q.value + 4)
    else if q.value + 10 > end then None
    else
      var next := q.value + 10 + Get16(m, q.value + 8);
      if next > end then None else Some(next)
  }

  function SkipRecords(m: seq<Byte>, p: nat, end: nat, n: nat, question: bool): (r: Option<nat>)
    requires p <= end <= |m|
    ensures r.Some? ==> p <= r.value <= end
    decreases n
  {
    if n == 0 then Some(p)
    else
      var q := SkipRecord(m, p, end, question);
      if q == None then None else SkipRecords(m, q.value, end, n - 1, question)
  }

  /** struct dns_state after dns_parse_packet: how many records the header
      announces for each section, and where the sections start and end. */
  datatype Layout = Layout(counts: seq<nat>, sections: seq<nat>)

  function HeaderCounts(m: seq<Byte>): seq<nat>
    requires |m| >= 12
  {
    [Get16(m, 4), Get16(m, 6), Get16(m, 8), Get16(m, 10)]
  }

  /** The boundaries start behind the header, and every section they enclose is
      made of its announced number of records. */
  ghost predicate Bounded(m: seq<Byte>, bounds: seq<nat>) {
    && |m| >= 12 && 0 < |bounds| <= SECTIONS + 1 && bounds[0] == 12
    && (forall i :: 0 <= i < |bounds| ==> bounds[i] <= |m|)
    && (forall i :: 0 <= i < |bounds| - 1 ==> Encloses(m, bounds, i))
  }

  predicate Encloses(m: seq<Byte>, bounds: seq<nat>, i: nat)
    requires |m| >= 12 && i < SECTIONS && i + 1 < |bounds| && bounds[i] <= |m|
  {
    SkipRecords(m, bounds[i], |m|, HeaderCounts(m)[i], i == QUESTION) == Some(bounds[i + 1])
  }

  /** The message is accepted with this layout. */
  ghost predicate Accepts(m: seq<Byte>, l: Layout) {
    |l.sections| == SECTIONS + 1 && Bounded(m, l.sections) && l.counts == HeaderCounts(m)
  }

  lemma {:induction false} BoundariesMonotone(m: seq<Byte>, l: Layout, i: nat, j: nat)
    requires Accepts(m, l) && i <= j <= SECTIONS
    ensures 12 <= l.sections[i] <= l.sections[j] <= |m|
    decreases j
  {
    if i < j {
      BoundariesMonotone(m, l, i, j - 1);
      assert Encloses(m, l.sections, j - 1);
    } else if i > 0 {
      BoundariesMonotone(m, l, i - 1, i - 1);
      assert Encloses(m, l.sections, i - 1);
    }
  }

  /** Two passes over a message find the same boundaries. */
  lemma {:induction false} BoundsUnique(m: seq<Byte>, a: seq<nat>, b: seq<nat>, i: nat)
    requires Bounded(m, a) && Bounded(m, b) && i < |a| && i < |b|
    ensures a[i] == b[i]
  {
    if i > 0 {
      BoundsUnique(m, a, b, i - 1);
      assert Encloses(m, a, i - 1) && Encloses(m, b, i - 1);
    }
  }

  lemma AddBound(m: seq<Byte>, bounds: seq<nat>, p: nat)
    requires Bounded(m, bounds) && |bounds| <= SECTIONS && p <= |m|
    requires Encloses(m, bounds + [p], |bounds| - 1)
    ensures Bounded(m, bounds + [p])
  {
    var longer := bounds + [p];
    forall i | 0 <= i < |longer| - 1 ensures Encloses(m, longer, i) {
      if i < |bounds| - 1 { assert Encloses(m, bounds, i); }
    }
  }

  /** When a section cannot be skipped, the message has no layout. */
  lemma NoLayout(m: seq<Byte>, bounds: seq<nat>)
    requires Bounded(m, bounds) && |bounds| <= SECTIONS
    requires var i := |bounds| - 1;
             SkipRecords(m, bounds[i], |m|, HeaderCounts(m)[i], i == QUESTION) == None
    ensures !exists l :: Accepts(m, l)
  {
    if l :| Accepts(m, l) {
      var i := |bounds| - 1;
      assert Encloses(m, l.sections, i);
      BoundsUnique(m, bounds, l.sections, i);
    }
  }

  /** One resource record: its fields, where its data are, where it ends. */
  datatype Rr = Rr(kind: U16, class_: U16, ttl: U32, len: U16, data: nat) {
    function Next(): nat { data + len }
  }

  /** A call of dns_parse_rr: 0, -1, or 1 and the record. */
  datatype Parsed = End | Malformed | Record(rr: Rr)

  function ParseRr(m: seq<Byte>, p: nat, end: nat): Parsed
    requires end <= |m|
  {
    if p == end then End
    else
      var q := SkipName(m, p, end);
      if q == None || q.value + 10 > end then Malformed
      else
        Record(Rr(Get16(m, q.value), Get16(m, q.value + 2), Get32(m, q.value + 4), Get16(m, q.value + 8),
                  q.value + 10))
  }

  /** while (dns_parse_rr(s) > 0): the records, and whether it ended with 0. */
  function ReadSection(m: seq<Byte>, p: nat, end: nat): (seq<Rr>, bool)
    requires end <= |m|
    decreases if p <= end then end - p else 0
  {
    match ParseRr(m, p, end)
    case End => ([], true)
    case Malformed => ([], false)
    case Record(rr) =>
      var (rest, ok) := ReadSection(m, rr.Next(), end);
      ([rr] + rest, ok)
  }

  /* ---- the passes agree ---- */

  /** A name that ends before a nearer bound reads the same under that bound. */
  lemma {:induction false} NearerName(m: seq<Byte>, p: nat, near: nat, far: nat)
    requires near <= far <= |m| && SkipName(m, p, far).Some? && SkipName(m, p, far).value < near
    ensures SkipName(m, p, near) == SkipName(m, p, far)
    decreases far - p
  {
    if m[p] != 0 && m[p] < 0x40 { NearerName(m, p + 1 + m[p], near, far); }
  }

  /** The second pass finds a record exactly where the first pass skipped one. */
  lemma RecordAgrees(m: seq<Byte>, p: nat, near: nat)
    requires near <= |m| && SkipRecord(m, p, |m|, false).Some? && SkipRecord(m, p, |m|, false).value <= near
    ensures ParseRr(m, p, near).Record?
    ensures ParseRr(m, p, near).rr.Next() == SkipRecord(m, p, |m|, false).value
    ensures p < ParseRr(m, p, near).rr.data
  {
    NearerName(m, p, near, |m|);
  }

  lemma {:induction false} SectionAgrees(m: seq<Byte>, p: nat, n: nat, end: nat)
    requires p <= |m| && SkipRecords(m, p, |m|, n, false) == Some(end)
    ensures var (rrs, ok) := ReadSection(m, p, end);
            ok && |rrs| == n && forall r | r in rrs :: p < r.data && r.Next() <= end
    decreases n
  {
    if n > 0 {
      var q := SkipRecord(m, p, |m|, false).value;
      RecordAgrees(m, p, end);
      SectionAgrees(m, q, n - 1, end);
    }
  }

  /** In an accepted message, reading any section of resource records yields
      exactly the announced number of records and then the end, never an error,
      and every record's data lie inside its section. */
  lemma AcceptedSection(m: seq<Byte>, l: Layout, i: nat)
    requires Accepts(m, l) && QUESTION < i < SECTIONS
    ensures l.sections[i] <= l.sections[i + 1] <= |m|
    ensures var (rrs, ok) := ReadSection(m, l.sections[i], l.sections[i + 1]);
            ok && |rrs| == l.counts[i]
            && forall r | r in rrs :: l.sections[i] < r.data && r.Next() <= l.sections[i + 1]
  {
    assert Encloses(m, l.sections, i);
    SectionAgrees(m, l.sections[i], l.counts[i], l.sections[i + 1]);
  }

  /* ---- the answer in the text records ---- */

  const CLASS_IN := 1
  const TYPE_TXT := 16

  /** The character strings of a text record: each is a length and that many
      bytes; a string that would pass the end is not read. */
  function Strings(b: seq<Byte>): seq<seq<Byte>> {
    if b == [] || 1 + b[0] > |b| then [] else [b[1..1 + b[0]]] + Strings(b[1 + b[0]..])
  }

  /** A record made of these strings (section 3.3.14 of RFC 1035). */
  function Encoded(ss: seq<seq<Byte>>): seq<Byte>
    requires forall s | s in ss :: |s| < 0x100
  {
    if ss == [] then [] else [|ss[0]|] + ss[0] + Encoded(ss[1..])
  }

  lemma {:induction false} StringsRoundTrip(ss: seq<seq<Byte>>)
    requires forall s | s in ss :: |s| < 0x100
    ensures Strings(Encoded(ss)) == ss
  {
    if ss != [] {
      var b, n := Encoded(ss), |ss[0]|;
      StringsRoundTrip(ss[1..]);
      assert b[0] == n && b[1..1 + n] == ss[0] && b[1 + n..] == Encoded(ss[1..]);
    }
  }

  /** The C string at the start of a buffer that has a NUL behind it. */
  function UpToNul(b: seq<Byte>): (s: seq<Byte>)
    ensures s <= b && 0 !in s && (|s| < |b| ==> b[|s|] == 0)
  {
    if b == [] || b[0] == 0 then [] else [b[0]] + UpToNul(b[1..])
  }

  lemma StringsStep(b: seq<Byte>, j: nat)
    requires j < |b| && j + 1 + b[j] <= |b|
    ensures Strings(b[j..]) == [b[j + 1..j + 1 + b[j]]] + Strings(b[j + 1 + b[j]..])
  {
    var rest := b[j..];
    assert rest[1..1 + rest[0]] == b[j + 1..j + 1 + b[j]] && rest[1 + rest[0]..] == b[j + 1 + b[j]..];
  }

  lemma StringsEnd(b: seq<Byte>, j: nat)
    requires j <= |b| && !(j < |b| && j + 1 + b[j] <= |b|)
    ensures NameIn(Strings(b[j..])) == None
  {
  }

  lemma NameStep(s: seq<Byte>, ss: seq<seq<Byte>>)
    ensures NameIn([s] + ss) == if IsName(s) then Some(UpToNul(s[2..])) else NameIn(ss)
  {
    assert ([s] + ss)[1..] == ss;
  }

  predicate IsName(s: seq<Byte>) { |s| >= 2 && s[0] == 'i' as int && s[1] == '=' as int }

  /** What follows "i=" in the first string that starts with it. */
  function NameIn(ss: seq<seq<Byte>>): Option<seq<Byte>> {
    if ss == [] then None else if IsName(ss[0]) then Some(UpToNul(ss[0][2..])) else NameIn(ss[1..])
  }

  /** The name in a record, if it is an Internet text record. */
  function NameOf(m: seq<Byte>, r: Rr): Option<seq<Byte>>
    requires r.Next() <= |m|
  {
    if r.class_ == CLASS_IN && r.kind == TYPE_TXT then NameIn(Strings(m[r.data..r.Next()])) else None
  }

  /** The name in the first record that has one. */
  function NameFrom(m: seq<Byte>, rrs: seq<Rr>): Option<seq<Byte>>
    requires forall r | r in rrs :: r.Next() <= |m|
  {
    if rrs == [] then None
    else
      assert rrs[0] in rrs;
      var name := NameOf(m, rrs[0]);
      if name.Some? then name else NameFrom(m, rrs[1..])
  }

  lemma NameFromStep(m: seq<Byte>, r: Rr, rest: seq<Rr>)
    requires r.Next() <= |m| && forall x | x in rest :: x.Next() <= |m|
    ensures forall x | x in [r] + rest :: x.Next() <= |m|
    ensures NameFrom(m, [r] + rest) == if NameOf(m, r).Some? then NameOf(m, r) else NameFrom(m, rest)
  {
    assert ([r] + rest)[1..] == rest;
  }

  /** One step of reading a section that reads without error. */
  lemma SectionStep(m: seq<Byte>, p: nat, end: nat)
    requires end <= |m| && ReadSection(m, p, end).1
    requires forall r | r in ReadSection(m, p, end).0 :: r.Next() <= |m|
    ensures match ParseRr(m, p, end)
            case Record(rr) =>
              && rr.Next() <= |m| && p < rr.Next() && p < end && ReadSection(m, rr.Next(), end).1
              && ReadSection(m, p, end).0 == [rr] + ReadSection(m, rr.Next(), end).0
              && forall r | r in ReadSection(m, rr.Next(), end).0 :: r.Next() <= |m|
            case End => NameFrom(m, ReadSection(m, p, end).0) == None
            case Malformed => false
  {
    if ParseRr(m, p, end).Record? {
      var rr := ParseRr(m, p, end).rr;
      assert rr in ReadSection(m, p, end).0;
      assert forall r | r in ReadSection(m, rr.Next(), end).0 :: r in ReadSection(m, p, end).0;
    }
  }

  /* ---- the passes themselves ---- */

  /** dns_skip_name */
  method SkipNameLoop(m: seq<Byte>, p0: nat, end: nat) returns (r: Option<nat>)
    requires end <= |m|
    ensures r == SkipName(m, p0, end)
  {
    var p := p0;
    while p < end
      invariant SkipName(m, p0, end) == SkipName(m, p, end)
      decreases end - p
    {
      var x := m[p];
      p := p + 1;
      if x == 0 { return Some(p); }
      if x < 0x40 {
        p := p + x;
      } else if x >= 0xc0 {
        p := p + 1;
        return if p < end then Some(p) else None;
      } else {
        return None;
      }
    }
    r := None;
  }

  /** struct dns_state, over the message it was set up for. */
  class State {
    const m: seq<Byte>
    var layout: Layout
    var ptr: nat
    var end: nat

    constructor (m: seq<Byte>)
      ensures this.m == m
    {
      this.m := m;
      layout, ptr, end := Layout([], []), 0, 0;
    }

    /** The body of the inner loop of dns_parse_packet. */
    method SkipOne(p: nat, question: bool) returns (r: Option<nat>)
      ensures r == SkipRecord(m, p, |m|, question)
    {
      r := SkipNameLoop(m, p, |m|);
      if r == None || r.value + 4 > |m| { return None; }
      var q := r.value + 4;
      if question { return Some(q); }
      if q + 4 > |m| { return None; }
      q := q + 4;
      if q + 2 > |m| { return None; }
      var len := Get16(m, q);
      q := q + 2 + len;
      r := if q > |m| then None else Some(q);
    }

    /** dns_parse_packet: succeeds exactly on the messages that have a layout. */
    method ParsePacket() returns (ok: bool)
      modifies this`layout
      ensures ok ==> Accepts(m, layout)
      ensures !ok ==> !exists l :: Accepts(m, l)
    {
      if |m| < 12 { return false; }
      var counts := HeaderCounts(m);
      var p: nat, i := 12, 0;
      var sections: seq<nat> := [];
      while i < SECTIONS
        invariant 0 <= i <= SECTIONS && |sections| == i && p <= |m| && Bounded(m, sections + [p])
      {
        sections := sections + [p];
        ghost var start := p;
        var j := 0;
        while j < counts[i]
          invariant 0 <= j <= counts[i] && p <= |m|
          invariant SkipRecords(m, start, |m|, counts[i], i == QUESTION) ==
                    SkipRecords(m, p, |m|, counts[i] - j, i == QUESTION)
        {
          var q := SkipOne(p, i == QUESTION);
          if q == None {
            NoLayout(m, sections);
            return false;
          }
          p := q.value;
          j := j + 1;
        }
        AddBound(m, sections, p);
        i := i + 1;
      }
      layout := Layout(counts, sections + [p]);
      ok := true;
    }

    /** dns_init_section */
    method InitSection(i: nat)
      requires Accepts(m, layout) && i < SECTIONS
      modifies this`ptr, this`end
      ensures ptr == layout.sections[i] && end == layout.sections[i + 1]
    {
      ptr, end := layout.sections[i], layout.sections[i + 1];
    }

    /** dns_parse_rr */
    method NextRr() returns (r: Parsed)
      requires end <= |m|
      modifies this`ptr
      ensures r == ParseRr(m, old(ptr), end)
      ensures ptr == if r.Record? then r.rr.Next() else old(ptr)
    {
      if ptr == end { return End; }
      var q := SkipNameLoop(m, ptr, end);
      if q == None || q.value + 10 > end { return Malformed; }
      var p := q.value;
      var rr := Rr(Get16(m, p), Get16(m, p + 2), Get32(m, p + 4), Get16(m, p + 8), p + 10);
      ptr := rr.Next();
      r := Record(rr);
    }

    /** The loop of pci_id_net_lookup over the records of a section. */
    method Records(i: nat) returns (rrs: seq<Rr>)
      requires Accepts(m, layout) && QUESTION < i < SECTIONS
      modifies this`ptr, this`end
      ensures layout.sections[i] <= layout.sections[i + 1] <= |m|
      ensures |rrs| == layout.counts[i] && rrs == ReadSection(m, layout.sections[i], layout.sections[i + 1]).0
      ensures ptr == end
    {
      AcceptedSection(m, layout, i);
      InitSection(i);
      rrs := [];
      ghost var all := ReadSection(m, ptr, end).0;
      var more := true;
      while more
        invariant end == layout.sections[i + 1] <= |m|
        invariant all == rrs + ReadSection(m, ptr, end).0 && ReadSection(m, ptr, end).1
        invariant !more ==> ptr == end
        decreases more, if ptr <= end then end - ptr else 0
      {
        ghost var rest := ReadSection(m, ptr, end).0;
        var r := NextRr();
        match r {
          case End => more := false;
          case Malformed => more := false;
          case Record(rr) =>
            assert rrs + rest == (rrs + [rr]) + rest[1..];
            rrs := rrs + [rr];
        }
      }
    }

    /** The loop over the strings of one record. */
    method TextName(r: Rr) returns (name: Option<seq<Byte>>)
      requires r.Next() <= |m|
      ensures name == NameIn(Strings(m[r.data..r.Next()]))
    {
      hide Strings, NameIn;
      var data := m[r.data..r.Next()];
      var j := 0;
      assert data[0..] == data;
      while j < r.len && j + 1 + data[j] <= r.len
        invariant 0 <= j <= r.len && NameIn(Strings(data)) == NameIn(Strings(data[j..]))
        decreases r.len - j
      {
        var txt := data[j + 1..j + 1 + data[j]];
        StringsStep(data, j);
        NameStep(txt, Strings(data[j + 1 + data[j]..]));
        if IsName(txt) { return Some(UpToNul(txt[2..])); }
        j := j + 1 + data[j];
      }
      StringsEnd(data, j);
      name := None;
    }

    /** pci_id_net_lookup on the message that came back: the first name that an
        Internet text record of the answer section gives. */
    method Answer() returns (name: Option<seq<Byte>>)
      modifies this
      ensures (exists l :: Accepts(m, l)) ==>
                Accepts(m, layout) && layout.sections[ANSWER] <= layout.sections[ANSWER + 1] <= |m|
                && var rrs := ReadSection(m, layout.sections[ANSWER], layout.sections[ANSWER + 1]).0;
                   (forall r | r in rrs :: r.Next() <= |m|) && name == NameFrom(m, rrs)
      ensures !(exists l :: Accepts(m, l)) ==> name == None
    {
      hide SkipName, Accepts, ReadSection, ParseRr, NameFrom, NameIn, Strings;
      var ok := ParsePacket();
      if !ok { return None; }
      AcceptedSection(m, layout, ANSWER);
      InitSection(ANSWER);
      ghost var all, l, stop := ReadSection(m, ptr, end).0, layout, end;
      while true
        invariant layout == l && end == stop
        invariant ReadSection(m, ptr, end).1 && forall r | r in ReadSection(m, ptr, end).0 :: r.Next() <= |m|
        invariant NameFrom(m, all) == NameFrom(m, ReadSection(m, ptr, end).0)
        decreases if ptr <= end then end - ptr else 0
      {
        SectionStep(m, ptr, end);
        var p := NextRr();
        if !p.Record? { break; }
        NameFromStep(m, p.rr, ReadSection(m, ptr, end).0);
        if p.rr.class_ == CLASS_IN && p.rr.kind == TYPE_TXT {
          name := TextName(p.rr);
          if name.Some? { return; }
        }
      }
      name := None;
    }
  }
}

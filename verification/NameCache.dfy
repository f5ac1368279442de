/** The text file that keeps names found on the network between runs
    (lib/names-cache.c): written from the table, read back into a table. */
module NameCache {
  import opened Config
  import opened CText
  import opened IdPacking
  import opened Numerals
  import T = NameTable

  const VERSION := "#PCI-CACHE-1.0"

  function Hex(n: nat): string { HexPad(n, 1) }

  /* ---- reading ---- */

  /** What sscanf("%d%x%x%x%x%n") found: category, ids, and where it stopped. */
  datatype Scanned = Scanned(cat: int, id1: U32, id2: U32, id3: U32, id4: U32, end: nat)

  function ScanLine(s: string): (r: Option<Scanned>)
    ensures r.Some? ==> r.value.end <= |s|
  {
    var cat := ScanDec(s, 0);
    if cat == None then None else
    var a := ScanHex(s, cat.value.end);
    if a == None then None else
    var b := ScanHex(s, a.value.end);
    if b == None then None else
    var c := ScanHex(s, b.value.end);
    if c == None then None else
    var d := ScanHex(s, c.value.end);
    if d == None then None else
    Some(Scanned(cat.value.value, a.value.value % TWO32, b.value.value % TWO32, c.value.value % TWO32,
                 d.value.value % TWO32, d.value.end))
  }

  function SkipSpaces(s: string, i: nat): (j: nat)
    requires i <= |s|
    ensures i <= j <= |s|
    decreases |s| - i
  {
    if i < |s| && s[i] == ' ' then SkipSpaces(s, i + 1) else i
  }

  /** The C string at the start of a buffer. */
  function CString(buf: string): string {
    buf[..IndexOf(buf, NUL, 0)]
  }

  /** How a line buffer is taken: as the version line, as an entry, or as the
      reason to stop reading. */
  datatype Taken = Version | Entry(scan: Scanned, name: string) | Refused

  function Take(buf: string, first: bool): Taken {
    var line := CString(buf);
    var nl := IndexOf(line, '\n', 0);
    if nl == |line| then Refused
    else
      var s := line[..nl];
      if first then (if s == VERSION then Version else Refused)
      else
        var scan := ScanLine(s);
        if scan == None then Refused else Entry(scan.value, s[SkipSpaces(s, scan.value.end)..])
  }

  /** A name taken from a line buffer is a C string that fits the buffer. */
  lemma TakenName(buf: string, first: bool)
    ensures Take(buf, first).Entry? ==> |Take(buf, first).name| <= |buf| && NoChar(Take(buf, first).name, NUL)
  {
    hide ScanLine, SkipSpaces;
    var line := CString(buf);
    assert forall i :: 0 <= i < |line| ==> line[i] == buf[i] != NUL;
  }

  /** The entry has a category that fits the table's byte. */
  predicate ByteCategory(t: Taken) {
    t.Entry? ==> 0 <= t.scan.cat < 256
  }

  ghost predicate ByteCategories(file: string, pos: nat)
    requires pos <= |file|
    decreases |file| - pos
  {
    if pos == |file| then true
    else
      var r := FGets(file, pos, MAX_LINE);
      var t := Take(r.chunk, pos == 0);
      t.Refused? || (ByteCategory(t) && ByteCategories(file, pos + |r.chunk|))
  }

  /** The effect of one accepted line on the table. */
  function Store(t: Taken, table: map<T.Key, T.Item>): map<T.Key, T.Item> {
    if t.Entry? && ByteCategory(t) then
      T.Put(table, T.MakeKey(t.scan.cat, t.scan.id1, t.scan.id2, t.scan.id3, t.scan.id4), T.Item(t.name, T.Cache))
    else table
  }

  /** The table after reading the file from `pos` on. */
  function LoadFrom(file: string, pos: nat, table: map<T.Key, T.Item>): map<T.Key, T.Item>
    requires pos <= |file|
    decreases |file| - pos
  {
    if pos == |file| then table
    else
      var r := FGets(file, pos, MAX_LINE);
      var t := Take(r.chunk, pos == 0);
      if t.Refused? then table else LoadFrom(file, pos + |r.chunk|, Store(t, table))
  }

  /** The reading loop of pci_id_cache_load, on files whose categories fit the
      byte an entry keeps them in; every file that Flush writes is one. */
  method Load(t: T.NameTable, file: string)
    requires t.Valid() && ByteCategories(file, 0)
    modifies t.Repr
    ensures t.Valid() && fresh(t.Repr - old(t.Repr))
    ensures t.contents == LoadFrom(file, 0, old(t.contents))
  {
    hide Take, FGets, T.Put, T.MakeKey, T.NameTable.Valid, ScanLine;
    var pos, lino := 0, 0;
    while pos < |file|
      invariant 0 <= pos <= |file| && (lino == 0 <==> pos == 0) && lino >= 0
      invariant t.Valid() && fresh(t.Repr - old(t.Repr)) && ByteCategories(file, pos)
      invariant LoadFrom(file, 0, old(t.contents)) == LoadFrom(file, pos, t.contents)
    {
      var r := FGets(file, pos, MAX_LINE);
      lino := lino + 1;
      TakenName(r.chunk, lino == 1);
      match Take(r.chunk, lino == 1) {
        case Refused => break;
        case Version =>
        case Entry(s, name) =>
          var _ := t.Insert(s.cat, s.id1, s.id2, s.id3, s.id4, name, T.Cache);
      }
      pos := pos + |r.chunk|;
    }
  }

  /* ---- writing ---- */

  /** One entry as it is kept in the file. */
  datatype Saved = Saved(key: T.Key, name: string)

  /** "%d %x %x %x %x %s" */
  function NumberLine(cat: nat, a: nat, b: nat, c: nat, d: nat, name: string): string {
    Dec(cat) + " " + Hex(a) + " " + Hex(b) + " " + Hex(c) + " " + Hex(d) + " " + name
  }

  function SaveLine(s: Saved): string {
    NumberLine(s.key.cat, PairFirst(s.key.id12), PairSecond(s.key.id12),
               PairFirst(s.key.id34), PairSecond(s.key.id34), s.name)
  }

  function SaveLines(ss: seq<Saved>): string {
    if ss == [] then "" else SaveLine(ss[0]) + "\n" + SaveLines(ss[1..])
  }

  function SaveText(ss: seq<Saved>): string {
    VERSION + "\n" + SaveLines(ss)
  }

  predicate FromCacheOrNet(src: T.Src) { src == T.Cache || src == T.Net }

  /** The entry is one the cache keeps: found on the network, not negative. */
  predicate Kept(item: T.Item) { FromCacheOrNet(item.src) && item.name != "" }

  /** saved lists keys that are kept, with their names, each once. */
  ghost predicate Selection(saved: seq<Saved>, contents: map<T.Key, T.Item>) {
    && (forall s | s in saved :: s.key in contents && Kept(contents[s.key]) && s.name == contents[s.key].name)
    && (forall i, j :: 0 <= i < j < |saved| ==> saved[i].key != saved[j].key)
  }

  /** The file lists every kept name of the table, each once, and nothing else. */
  ghost predicate Flushed(file: string, contents: map<T.Key, T.Item>) {
    exists saved :: file == SaveText(saved) && Selection(saved, contents) && SavesAll(saved, contents)
  }

  ghost predicate SavesAll(saved: seq<Saved>, contents: map<T.Key, T.Item>) {
    forall k :: k in contents && Kept(contents[k]) ==> Saved(k, contents[k].name) in saved
  }

  /** Every kept key below chain h, and every kept key among `seen`, is saved;
      nothing else is. */
  ghost predicate Written(saved: seq<Saved>, contents: map<T.Key, T.Item>, h: nat, seen: seq<T.Entry>) {
    && Selection(saved, contents)
    && (forall s | s in saved :: T.Slot(s.key) < h || exists e :: e in seen && e.key == s.key)
    && (forall k :: k in contents && Kept(contents[k]) && (T.Slot(k) < h || exists e :: e in seen && e.key == k) ==>
          Saved(k, contents[k].name) in saved)
  }

  /** Passing an entry that is not kept. */
  lemma WrittenSkip(saved: seq<Saved>, contents: map<T.Key, T.Item>, h: nat, seen: seq<T.Entry>, e: T.Entry)
    requires Written(saved, contents, h, seen) && e.key in contents && !Kept(contents[e.key])
    ensures Written(saved, contents, h, seen + [e])
  {
    hide T.Slot;
  }

  /** Writing an entry of chain h that is kept. */
  lemma WrittenOne(saved: seq<Saved>, contents: map<T.Key, T.Item>, h: nat, seen: seq<T.Entry>, e: T.Entry)
    requires Written(saved, contents, h, seen) && e.key in contents && Kept(contents[e.key])
    requires T.Slot(e.key) == h && (forall x | x in seen :: x.key != e.key)
    ensures Written(saved + [Saved(e.key, contents[e.key].name)], contents, h, seen + [e])
  {
    hide T.Slot;
  }

  lemma WrittenChain(saved: seq<Saved>, contents: map<T.Key, T.Item>, h: nat, chain: seq<T.Entry>)
    requires Written(saved, contents, h, chain)
    requires forall e | e in chain :: T.Slot(e.key) == h
    requires forall k :: k in contents && T.Slot(k) == h ==> T.OnChain(chain, k)
    ensures Written(saved, contents, h + 1, [])
  {
    hide T.Slot;
    forall k | k in contents && Kept(contents[k]) && T.Slot(k) < h + 1 ensures Saved(k, contents[k].name) in saved {
      if T.Slot(k) == h {
        assert T.OnChain(chain, k);
        var i :| 0 <= i < |chain| && chain[i].key == k;
        assert chain[i] in chain;
      }
    }
  }

  /** Whether an earlier entry of the chain stands for the same key. */
  method WrittenBefore(chain: seq<T.Entry>, i: nat) returns (found: bool)
    requires i < |chain| && T.DistinctKeys(chain)
    ensures !found
  {
    var j := 0;
    while j < i && !(FromCacheOrNet(chain[j].src) && chain[j].key == chain[i].key)
      invariant 0 <= j <= i
    {
      j := j + 1;
    }
    found := j < i;
  }

  /** The writing loops of pci_id_cache_flush: every kept name, each once. None
      stands for the access through a NULL table, which happens when and only
      when nothing was ever stored. */
  method Flush(t: T.NameTable) returns (written: Option<string>)
    requires t.Valid()
    ensures written == None <==> t.contents == map[]
    ensures written.Some? ==> Flushed(written.value, t.contents)
  {
    if t.hash == null { return None; }
    var file;
    ghost var saved: seq<Saved>;
    file, saved := VERSION + "\n", [];
    var h := 0;
    while h < HASH_SIZE
      invariant 0 <= h <= HASH_SIZE
      invariant file == SaveText(saved) && Written(saved, t.contents, h, [])
    {
      file, saved := FlushChain(t, h, file, saved);
      h := h + 1;
    }
    hide T.Slot;
    assert SavesAll(saved, t.contents);
    written := Some(file);
  }

  method FlushChain(t: T.NameTable, h: nat, file0: string, ghost saved0: seq<Saved>)
    returns (file: string, ghost saved: seq<Saved>)
    requires t.Valid() && t.hash != null && h < HASH_SIZE
    requires file0 == SaveText(saved0) && Written(saved0, t.contents, h, [])
    ensures file == SaveText(saved) && Written(saved, t.contents, h + 1, [])
  {
    hide SaveLine, Written, T.Slot, T.OnChain;
    file, saved := file0, saved0;
    var chain := t.hash[h];
    var i := 0;
    assert chain[..0] == [];
    while i < |chain|
      invariant 0 <= i <= |chain|
      invariant file == SaveText(saved) && Written(saved, t.contents, h, chain[..i])
    {
      var e := chain[i];
      assert e in t.hash[h] && chain[..i + 1] == chain[..i] + [e];
      var name := t.arena.Fetch(e.at, T.NAME_OFFSET, t.contents[e.key].name);
      if FromCacheOrNet(e.src) && name != "" {
        var before := WrittenBefore(chain, i);
        if !before {
          WrittenOne(saved, t.contents, h, chain[..i], e);
          SaveGrows(saved, Saved(e.key, name));
          file := file + SaveLine(Saved(e.key, name)) + "\n";
          saved := saved + [Saved(e.key, name)];
        }
      } else {
        WrittenSkip(saved, t.contents, h, chain[..i], e);
      }
      i := i + 1;
    }
    assert chain[..i] == chain;
    WrittenChain(saved, t.contents, h, chain);
  }

  lemma {:induction false} LinesGrow(ss: seq<Saved>, s: Saved)
    ensures SaveLines(ss + [s]) == SaveLines(ss) + (SaveLine(s) + "\n")
  {
    hide SaveLine;
    if ss == [] {
      assert [s][1..] == [];
    } else {
      assert (ss + [s])[1..] == ss[1..] + [s];
      LinesGrow(ss[1..], s);
    }
  }

  lemma SaveGrows(ss: seq<Saved>, s: Saved)
    ensures SaveText(ss + [s]) == SaveText(ss) + SaveLine(s) + "\n"
  {
    hide SaveLine, SaveLines;
    LinesGrow(ss, s);
  }

  /* ---- there and back ---- */

  /** Names that survive the file: one line, no leading space, short enough. */
  predicate Writable(s: Saved) {
    && |SaveLine(s)| + 1 < MAX_LINE
    && |s.name| > 0 && s.name[0] != ' '
    && forall i :: 0 <= i < |s.name| ==> s.name[i] != NUL && s.name[i] != '\n'
  }

  /** A hexadecimal field behind a space, read from that space on. */
  lemma FieldReads(before: string, n: nat, after: string)
    ensures var s := before + (" " + (Hex(n) + (" " + after)));
            ScanHex(s, |before|) == Some(Scan(n, |before| + 1 + |Hex(n)|))
  {
    hide ScanHex, HexNum, HexPad;
    var s := before + (" " + (Hex(n) + (" " + after)));
    var i, w := |before| + 1, |Hex(n)|;
    assert s[i..i + w] == Hex(n);
    assert s[i - 1] == ' ' && s[i + w] == ' ';
    ScanHexDigits(s, i, w);
    HexPadValue(n, 1);
  }

  lemma CategoryReads(n: nat, after: string)
    ensures ScanDec(Dec(n) + (" " + after), 0) == Some(Scan(n, |Dec(n)|))
  {
    hide ScanDec, DecNum, Dec;
    var s := Dec(n) + (" " + after);
    assert s[0..|Dec(n)|] == Dec(n);
    assert s[|Dec(n)|] == ' ';
    ScanDecDigits(s, 0, |Dec(n)|);
    DecValue(n);
  }

  /** Each prefix of a written line is followed by a space and the rest. */
  lemma SaveLineSplits(cat: string, a: string, b: string, c: string, d: string, name: string)
    ensures var line := cat + " " + a + " " + b + " " + c + " " + d + " " + name;
            var r4 := " " + name;
            var r3 := " " + (d + r4);
            var r2 := " " + (c + r3);
            var r1 := " " + (b + r2);
            && line == cat + (" " + (a + r1))
            && line == (cat + " " + a) + r1
            && line == (cat + " " + a + " " + b) + r2
            && line == (cat + " " + a + " " + b + " " + c) + r3
            && line == (cat + " " + a + " " + b + " " + c + " " + d) + r4
  {
  }

  /** sscanf takes the numbers of a line apart, whatever they are. */
  lemma NumbersScan(cat: nat, a: U32, b: U32, c: U32, d: U32, name: string)
    ensures var line := NumberLine(cat, a, b, c, d, name);
            && |name| + 1 <= |line| && line[|line| - |name| - 1..] == " " + name
            && ScanLine(line) == Some(Scanned(cat, a, b, c, d, |line| - |name| - 1))
  {
    hide Dec, HexPad, ScanHex, ScanDec;
    var line := NumberLine(cat, a, b, c, d, name);
    SaveLineSplits(Dec(cat), Hex(a), Hex(b), Hex(c), Hex(d), name);
    var r4 := " " + name;
    var r3 := " " + (Hex(d) + r4);
    var r2 := " " + (Hex(c) + r3);
    var r1 := " " + (Hex(b) + r2);
    var p1 := Dec(cat) + " " + Hex(a);
    var p2 := p1 + " " + Hex(b);
    var p3 := p2 + " " + Hex(c);
    CategoryReads(cat, Hex(a) + r1);
    FieldReads(Dec(cat), a, Hex(b) + r2);
    FieldReads(p1, b, Hex(c) + r3);
    FieldReads(p2, c, Hex(d) + r4);
    FieldReads(p3, d, name);
    var end := |p3 + " " + Hex(d)|;
    assert line[end..] == r4;
  }

  /** A cache line with any category below 2^20 and any ids is accepted. Its entry
      keeps a byte of the category, and sits in the chain of that byte's key if
      and only if the category is one; a lookup never compares equal otherwise. */
  lemma CategoryFiledIff(cat: nat, a: U32, b: U32, c: U32, d: U32, name: string)
    requires cat < 0x10_0000
    ensures var line := NumberLine(cat, a, b, c, d, name);
            && ScanLine(line).Some? && ScanLine(line).value.cat == cat
            && (IdHash(cat, IdPair(a, b), IdPair(c, d)) == T.Slot(T.MakeKey(cat % 0x100, a, b, c, d)) <==> cat < 0x100)
            && (cat % 0x100 == cat <==> cat < 0x100)
  {
    hide ScanLine, NumberLine, IdHash, IdPair;
    NumbersScan(cat, a, b, c, d, name);
    FiledIff(cat, IdPair(a, b), IdPair(c, d));
  }

  /** sscanf takes the fields of a line apart again. */
  lemma SaveLineScans(s: Saved)
    ensures var line := SaveLine(s);
            var k := s.key;
            && |s.name| + 1 <= |line|
            && line[|line| - |s.name| - 1..] == " " + s.name
            && ScanLine(line) == Some(Scanned(k.cat, PairFirst(k.id12), PairSecond(k.id12),
                                              PairFirst(k.id34), PairSecond(k.id34), |line| - |s.name| - 1))
  {
    hide ScanLine, NumberLine;
    var k := s.key;
    NumbersScan(k.cat, PairFirst(k.id12), PairSecond(k.id12), PairFirst(k.id34), PairSecond(k.id34), s.name);
  }

  /** The reader takes a written line back as the entry it was. */
  lemma SaveLineTaken(s: Saved)
    requires Writable(s)
    ensures var k := s.key;
            Take(SaveLine(s) + "\n", false) ==
              Entry(Scanned(k.cat, PairFirst(k.id12), PairSecond(k.id12), PairFirst(k.id34), PairSecond(k.id34),
                            |SaveLine(s)| - |s.name| - 1), s.name)
    ensures NoChar(SaveLine(s), '\n')
  {
    hide SaveLine, ScanLine;
    var line := SaveLine(s);
    var buf := line + "\n";
    SaveLineScans(s);
    SaveLinePlain(s);
    assert IndexOf(buf, NUL, 0) == |buf| && buf[..|buf|] == buf;
    assert forall i :: 0 <= i < |line| ==> buf[i] == line[i] != '\n';
    assert buf[|line|] == '\n' && buf[..|line|] == line;
    var end := |line| - |s.name| - 1;
    assert line[end] == line[end..][0] && line[end + 1] == line[end..][1];
    assert SkipSpaces(line, end) == end + 1;
    assert line[end + 1..] == line[end..][1..] == s.name;
  }

  predicate OneLine(s: string) {
    forall i :: 0 <= i < |s| ==> s[i] != NUL && s[i] != '\n'
  }

  lemma SaveLinePlain(s: Saved)
    requires Writable(s)
    ensures OneLine(SaveLine(s))
  {
    hide Dec, HexPad;
    NumbersPlain(s.key.cat);
    NumbersPlain(PairFirst(s.key.id12));
    NumbersPlain(PairSecond(s.key.id12));
    NumbersPlain(PairFirst(s.key.id34));
    NumbersPlain(PairSecond(s.key.id34));
  }

  lemma NumbersPlain(n: nat)
    ensures OneLine(Dec(n)) && OneLine(Hex(n))
  {
    assert forall i :: 0 <= i < |Dec(n)| ==> IsDec(Dec(n)[i]);
    assert forall i :: 0 <= i < |Hex(n)| ==> IsHex(Hex(n)[i]);
  }

  /** What is written for an entry: its category in decimal, its four ids in
      hexadecimal, its name. */
  lemma LineOfEntry(cat: Byte, a: U16, b: U16, c: U16, d: U16, name: string)
    ensures SaveLine(Saved(T.MakeKey(cat, a, b, c, d), name)) ==
            Dec(cat) + " " + HexPad(a, 1) + " " + HexPad(b, 1) + " " + HexPad(c, 1) + " " + HexPad(d, 1) + " " + name
  {
    hide Dec, HexPad, IdPair, PairFirst, PairSecond;
    PairRoundTrip(a, b);
    PairRoundTrip(c, d);
  }

  /** A table with a single name that is kept has one entry written. */
  lemma OneSaved(saved: seq<Saved>, key: T.Key, item: T.Item)
    requires Kept(item) && Selection(saved, map[key := item]) && SavesAll(saved, map[key := item])
    ensures saved == [Saved(key, item.name)]
  {
    var contents := map[key := item];
    assert contents[key] == item && Saved(key, contents[key].name) in saved;
    forall j | 0 <= j < |saved| ensures saved[j] == Saved(key, item.name) { assert saved[j] in saved; }
    OnlyOne(saved, Saved(key, item.name));
  }

  lemma OnlyOne(saved: seq<Saved>, s: Saved)
    requires s in saved && forall j :: 0 <= j < |saved| ==> saved[j] == s
    requires forall i, j :: 0 <= i < |saved| && 0 <= j < |saved| && saved[i].key == saved[j].key ==> i == j
    ensures saved == [s]
  {
    assert saved[0].key == saved[|saved| - 1].key;
  }

  lemma OneLineText(s: Saved)
    ensures SaveText([s]) == VERSION + "\n" + (SaveLine(s) + "\n")
  {
    hide SaveLine;
    assert [s][1..] == [];
    assert SaveLines([s]) == SaveLine(s) + "\n" + SaveLines([]);
  }

  /** The whole file of a table with one name from the network. */
  lemma OneNameFile(file: string)
    requires Flushed(file, map[T.MakeKey(1, 0x8086, 0, 0, 0) := T.Item("Intel", T.Net)])
    ensures file == "#PCI-CACHE-1.0\n1 8086 0 0 0 Intel\n"
  {
    hide SaveLine, SaveText, T.MakeKey, Selection, SavesAll;
    var key, item := T.MakeKey(1, 0x8086, 0, 0, 0), T.Item("Intel", T.Net);
    var saved: seq<Saved> :| file == SaveText(saved) && Selection(saved, map[key := item])
                             && SavesAll(saved, map[key := item]);
    OneSaved(saved, key, item);
    OneLineText(Saved(key, "Intel"));
    IntelLine();
  }

  lemma IntelLine()
    ensures SaveLine(Saved(T.MakeKey(1, 0x8086, 0, 0, 0), "Intel")) == "1 8086 0 0 0 Intel"
  {
    hide SaveLine, T.MakeKey, Dec, HexPad;
    LineOfEntry(1, 0x8086, 0, 0, 0, "Intel");
    IntelDigits();
  }

  lemma IntelDigits()
    ensures Dec(1) == "1" && HexPad(0x8086, 1) == "8086" && HexPad(0, 1) == "0"
  {
    assert Pow16(3) == 0x1000 && Pow16(4) == 0x1_0000;
    assert HexWidth(0x8086) == 4;
    assert HexFixed(8, 1) == "8" by { assert HexFixed(0, 0) == ""; }
    assert HexFixed(0x80, 2) == "80";
    assert HexFixed(0x808, 3) == "808";
    assert HexFixed(0x8086, 4) == "8086";
    assert HexFixed(0, 1) == "0" by { assert HexFixed(0, 0) == ""; }
    assert HexWidth(0) == 1;
  }

  /** The table after first-write-wins insertion of these names as cache entries. */
  function Merge(table: map<T.Key, T.Item>, ss: seq<Saved>): map<T.Key, T.Item>
    decreases |ss|
  {
    if ss == [] then table else Merge(T.Put(table, ss[0].key, T.Item(ss[0].name, T.Cache)), ss[1..])
  }

  /** Reading one written line. */
  lemma LoadStep(file: string, pos: nat, s: Saved, table: map<T.Key, T.Item>)
    requires 0 < pos < |file| && Writable(s) && FGets(file, pos, MAX_LINE) == Read(SaveLine(s) + "\n", false)
    ensures LoadFrom(file, pos, table) ==
            LoadFrom(file, pos + |SaveLine(s)| + 1, T.Put(table, s.key, T.Item(s.name, T.Cache)))
    ensures ByteCategories(file, pos) <==> ByteCategories(file, pos + |SaveLine(s)| + 1)
  {
    hide FGets, Take, SaveLine, IdPair, T.Put, Writable;
    SaveLineTaken(s);
    PairOfHalves(s.key.id12);
    PairOfHalves(s.key.id34);
  }

  lemma {:induction false} LoadLines(before: string, ss: seq<Saved>, table: map<T.Key, T.Item>)
    requires |before| > 0 && forall s | s in ss :: Writable(s)
    ensures LoadFrom(before + SaveLines(ss), |before|, table) == Merge(table, ss)
    ensures ByteCategories(before + SaveLines(ss), |before|)
    decreases |ss|
  {
    hide LoadFrom, FGets, Take, SaveLine, T.Put, ByteCategories;
    var file := before + SaveLines(ss);
    if ss == [] {
      assert file == before;
      LoadEnd(file, table);
    } else {
      var line := SaveLine(ss[0]);
      var before' := before + (line + "\n");
      assert file == before' + SaveLines(ss[1..]);
      SaveLineTaken(ss[0]);
      assert |line| + 1 < MAX_LINE;
      FGetsLine(before, line, SaveLines(ss[1..]), MAX_LINE);
      LoadStep(file, |before|, ss[0], table);
      LoadLines(before', ss[1..], T.Put(table, ss[0].key, T.Item(ss[0].name, T.Cache)));
    }
  }

  lemma LoadEnd(file: string, table: map<T.Key, T.Item>)
    ensures LoadFrom(file, |file|, table) == table && ByteCategories(file, |file|)
  {
  }

  lemma VersionTaken()
    ensures Take(VERSION + "\n", true) == Version
  {
    var buf := VERSION + "\n";
    assert buf[|VERSION|] == '\n' && buf[..|VERSION|] == VERSION && buf[..|buf|] == buf;
    assert forall i :: 0 <= i < |VERSION| ==> buf[i] == VERSION[i] != '\n';
    assert IndexOf(buf, NUL, 0) == |buf|;
  }

  /** The version line is recognized and passed. */
  lemma LoadVersion(rest: string, table: map<T.Key, T.Item>)
    ensures var file := VERSION + "\n" + rest;
            LoadFrom(file, 0, table) == LoadFrom(file, |VERSION| + 1, table)
            && (ByteCategories(file, 0) <==> ByteCategories(file, |VERSION| + 1))
  {
    hide Take, FGets;
    VersionTaken();
    FGetsLine("", VERSION, rest, MAX_LINE);
    assert "" + (VERSION + "\n") + rest == VERSION + "\n" + rest;
  }

  lemma {:induction false} MergeHas(table: map<T.Key, T.Item>, ss: seq<Saved>, k: T.Key)
    requires forall i, j :: 0 <= i < j < |ss| ==> ss[i].key != ss[j].key
    requires forall s | s in ss :: s.key !in table
    ensures k in Merge(table, ss) <==> k in table || exists s :: s in ss && s.key == k
    ensures k in table ==> Merge(table, ss)[k] == table[k]
    ensures forall s | s in ss && s.key == k :: Merge(table, ss)[k] == T.Item(s.name, T.Cache)
    decreases |ss|
  {
    if ss != [] {
      MergeHas(T.Put(table, ss[0].key, T.Item(ss[0].name, T.Cache)), ss[1..], k);
      assert forall s :: s in ss <==> s == ss[0] || s in ss[1..];
    }
  }

  /** Flushing a table and loading the file into an empty one reproduces, for
      every key, exactly the non-empty names that came from cache or network. */
  lemma CacheRoundTrip(contents: map<T.Key, T.Item>, file: string)
    requires Flushed(file, contents)
    requires forall k :: k in contents && Kept(contents[k]) ==> Writable(Saved(k, contents[k].name))
    ensures ByteCategories(file, 0)
    ensures LoadFrom(file, 0, map[]) ==
            map k | k in contents && (contents[k].src == T.Cache || contents[k].src == T.Net) && contents[k].name != ""
                  :: T.Item(contents[k].name, T.Cache)
  {
    hide LoadFrom, SaveLines, SaveLine, ByteCategories, Writable;
    var saved: seq<Saved> :| file == SaveText(saved) && Selection(saved, contents) && SavesAll(saved, contents);
    forall s | s in saved ensures Writable(s) { assert s == Saved(s.key, contents[s.key].name); }
    LoadVersion(SaveLines(saved), map[]);
    LoadLines(VERSION + "\n", saved, map[]);
    var loaded := Merge(map[], saved);
    var kept := map k | k in contents && Kept(contents[k]) :: T.Item(contents[k].name, T.Cache);
    forall k ensures k in loaded <==> k in kept
             ensures k in loaded && k in kept ==> loaded[k] == kept[k]
    {
      MergeHas(map[], saved, k);
    }
  }

  /** What was read from a cache file is in the next one that is written. */
  lemma CacheSurvives(contents: map<T.Key, T.Item>, file: string)
    requires Flushed(file, contents)
    requires forall k :: k in contents ==>
               contents[k].src == T.Cache && contents[k].name != "" && Writable(Saved(k, contents[k].name))
    ensures LoadFrom(file, 0, map[]) == contents
  {
    hide LoadFrom, Flushed, Writable;
    CacheRoundTrip(contents, file);
  }

  /* ---- files that are not taken ---- */

  /** A file whose first line is anything but the version is ignored. */
  lemma OtherVersionIgnored(line: string, rest: string, table: map<T.Key, T.Item>)
    requires OneLine(line) && line != VERSION && |line| + 1 < MAX_LINE
    ensures LoadFrom(line + "\n" + rest, 0, table) == table
  {
    hide FGets, ScanLine;
    FGetsLine("", line, rest, MAX_LINE);
    assert "" + (line + "\n") + rest == line + "\n" + rest;
    LineOf(line);
  }

  lemma LineOf(line: string)
    requires OneLine(line)
    ensures var buf := line + "\n";
            CString(buf) == buf && IndexOf(buf, '\n', 0) == |line| && buf[..|line|] == line
  {
    var buf := line + "\n";
    assert forall i :: 0 <= i < |line| ==> buf[i] == line[i];
    assert buf[|line|] == '\n' && IndexOf(buf, NUL, 0) == |buf| && buf[..|buf|] == buf;
  }

  /** Reading stops where a line is not ended within the buffer ... */
  lemma UnendedStops(file: string, pos: nat, table: map<T.Key, T.Item>)
    requires pos < |file| && '\n' !in FGets(file, pos, MAX_LINE).chunk
    ensures LoadFrom(file, pos, table) == table
  {
    hide FGets, ScanLine;
    var buf := FGets(file, pos, MAX_LINE).chunk;
    var line := CString(buf);
    assert forall i :: 0 <= i < |line| ==> line[i] == buf[i];
  }

  /** ... or does not begin with five numbers. */
  lemma MalformedStops(before: string, line: string, rest: string, table: map<T.Key, T.Item>)
    requires before != "" && OneLine(line) && |line| + 1 < MAX_LINE && ScanLine(line) == None
    ensures LoadFrom(before + (line + "\n") + rest, |before|, table) == table
  {
    hide FGets, ScanLine;
    FGetsLine(before, line, rest, MAX_LINE);
    LineOf(line);
  }

  /** The numbers that a line begins with: a decimal one and four hexadecimal
      ones, each up to where its digits end. */
  ghost predicate FiveNumbers(s: string, c: Scanned) {
    exists p0: nat, p1: nat, p2: nat, p3: nat ::
      && p0 <= p1 <= p2 <= p3 <= c.end <= |s| && DecimalUpTo(s, 0, p0, c.cat)
      && HexUpTo(s, p0, p1, c.id1) && HexUpTo(s, p1, p2, c.id2) && HexUpTo(s, p2, p3, c.id3)
      && HexUpTo(s, p3, c.end, c.id4)
  }

  /** A hexadecimal numeral at s[i..j], cut to 32 bits, behind which no digit stands. */
  ghost predicate HexUpTo(s: string, i: nat, j: nat, id: U32) {
    i <= j <= |s| && (j < |s| ==> !IsHex(s[j])) && exists v :: Numeral(s[i..j], v) && v % TWO32 == id
  }

  ghost predicate DecimalUpTo(s: string, i: nat, j: nat, v: int) {
    i <= j <= |s| && (j < |s| ==> !IsDec(s[j])) && Decimal(s[i..j], v)
  }

  /** What is taken as an entry does begin with five numbers. */
  lemma EntryNumbers(s: string)
    requires ScanLine(s).Some?
    ensures FiveNumbers(s, ScanLine(s).value)
  {
    hide ScanHex, ScanDec, HexUpTo, DecimalUpTo;
    var cat := ScanDec(s, 0).value;
    var a := ScanHex(s, cat.end).value;
    var b := ScanHex(s, a.end).value;
    var c := ScanHex(s, b.end).value;
    DecimalScanned(s, 0);
    HexScanned(s, cat.end);
    HexScanned(s, a.end);
    HexScanned(s, b.end);
    HexScanned(s, c.end);
  }

  lemma HexScanned(s: string, i: nat)
    requires i <= |s| && ScanHex(s, i).Some?
    ensures HexUpTo(s, i, ScanHex(s, i).value.end, ScanHex(s, i).value.value % TWO32)
  {
    hide ScanHex, Numeral;
    ScannedNumeral(s, i);
  }

  lemma DecimalScanned(s: string, i: nat)
    requires i <= |s| && ScanDec(s, i).Some?
    ensures DecimalUpTo(s, i, ScanDec(s, i).value.end, ScanDec(s, i).value.value)
  {
    hide ScanDec, Decimal;
    ScannedDecimal(s, i);
  }
}

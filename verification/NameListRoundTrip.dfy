/** The text form of an ID database and its way back through the parser. */
module NameListRoundTrip {
  import opened Config
  import opened CText
  import opened NameTable
  import opened NameList

  /* ---- rows: the lines of a database ---- */

  /** A line that stores a name, the heading of a block of generic subsystems, the
      heading of a block of another kind, a line inside such a block, or a remark. */
  datatype AnyRow =
    | EntryRow(ctx: Context, name: string)
    | SubsystemsOf(vendor: U16)
    | Foreign(text: string)
    | Ignored(text: string)
    | Remark(text: string)
  {
    predicate Real() { EntryRow? ==> In(ctx.cat, ID_VENDOR, ID_PROGIF) }
  }
  type Row = r: AnyRow | r.Real() witness SubsystemsOf(0)

  function Nest(cat: int): nat {
    if cat == ID_DEVICE || cat == ID_GEN_SUBSYSTEM || cat == ID_SUBCLASS then 1
    else if cat == ID_SUBSYSTEM || cat == ID_PROGIF then 2 else 0
  }

  /** What a line of this category shows of its ids. */
  function Ids(c: Context): string {
    if c.cat == ID_VENDOR then HexPad(c.id1, 4)
    else if c.cat == ID_DEVICE || c.cat == ID_GEN_SUBSYSTEM then HexPad(c.id2, 4)
    else if c.cat == ID_SUBSYSTEM then HexPad(c.id3, 4) + " " + HexPad(c.id4, 4)
    else if c.cat == ID_CLASS then "C " + HexPad(c.id1, 2)
    else if c.cat == ID_SUBCLASS then HexPad(c.id2, 2)
    else HexPad(c.id3, 2)
  }

  function Indent(n: nat): string {
    if n == 0 then "" else if n == 1 then "\t" else "\t\t"
  }

  function Render(row: Row): string {
    match row
    case EntryRow(c, name) => Indent(Nest(c.cat)) + (Ids(c) + ("  " + name))
    case SubsystemsOf(v) => "S " + HexPad(v, 4)
    case Foreign(text) => text
    case Ignored(text) => text
    case Remark(text) => text
  }

  /** Blanks, and behind them nothing or a number sign and any text. */
  ghost predicate IsRemark(t: string) {
    exists n: nat :: RemarkAt(t, n)
  }

  ghost predicate RemarkAt(t: string, n: nat) {
    n <= |t| && (forall i :: 0 <= i < n ==> IsBlank(t[i])) && (n == |t| || t[n] == '#')
  }

  predicate NoBlankEnd(t: string) { |t| > 0 && !IsBlank(t[|t| - 1]) }

  /** Of a row that is given as text: a capital letter other than C and S and a
      blank open a foreign block, its lines are indented. */
  ghost predicate WellPut(row: Row) {
    match row
    case Foreign(t) => |t| >= 2 && 'A' <= t[0] <= 'Z' && t[0] != 'C' && t[0] != 'S' && t[1] == ' ' && NoBlankEnd(t)
    case Ignored(t) => NoBlankEnd(t) && t[0] == '\t' && !IsRemark(t)
    case Remark(t) => IsRemark(t)
    case _ => true
  }

  /** Names survive when they are one line without blanks at the ends. */
  predicate WellNamed(name: string) {
    && |name| > 0 && !IsBlank(name[0]) && !IsBlank(name[|name| - 1])
    && forall i :: 0 <= i < |name| ==> name[i] != NUL && name[i] != '\n' && name[i] != '\r'
  }

  /** Zeros where the category has no id, bytes where it has class codes. */
  predicate Canonical(c: Context) {
    && In(c.cat, ID_VENDOR, ID_PROGIF)
    && (c.cat == ID_VENDOR || c.cat == ID_CLASS ==> c.id2 == 0)
    && (c.cat != ID_SUBSYSTEM && c.cat != ID_PROGIF ==> c.id3 == 0)
    && (c.cat != ID_SUBSYSTEM ==> c.id4 == 0)
    && (In(c.cat, ID_CLASS, ID_PROGIF) ==> c.id1 < 0x100 && c.id2 < 0x100 && c.id3 < 0x100)
  }

  /** Entry c may stand where ctx is in force: its parents are those of ctx. */
  predicate Follows(ctx: Context, c: Context) {
    && Canonical(c)
    && (c.cat == ID_DEVICE ==> In(ctx.cat, ID_VENDOR, ID_SUBSYSTEM) && c.id1 == ctx.id1)
    && (c.cat == ID_SUBSYSTEM ==> In(ctx.cat, ID_DEVICE, ID_SUBSYSTEM) && c.id1 == ctx.id1 && c.id2 == ctx.id2)
    && (c.cat == ID_GEN_SUBSYSTEM ==> ctx.cat == ID_GEN_SUBSYSTEM && c.id1 == ctx.id1)
    && (c.cat == ID_SUBCLASS ==> In(ctx.cat, ID_CLASS, ID_PROGIF) && c.id1 == ctx.id1)
    && (c.cat == ID_PROGIF ==> In(ctx.cat, ID_CLASS, ID_PROGIF) && c.id1 == ctx.id1 && c.id2 == ctx.id2)
  }

  ghost predicate Writable(row: Row) {
    && (row.EntryRow? ==> Canonical(row.ctx) && WellNamed(row.name))
    && (row.Foreign? || row.Ignored? || row.Remark? ==> Plain(row.text)) && WellPut(row)
  }

  /** What may stand behind the text of a line: a blank, and a line end, or
      nothing at the end of the file. */
  predicate Ending(end: string, last: bool) {
    var k := if end != "" && IsBlank(end[0]) then 1 else 0;
    if last then end[k..] == "" else end[k..] == "\n" || end[k..] == "\r\n"
  }

  /* ---- one line there and back ---- */

  lemma IdFieldReads(pre: string, id: nat, w: nat, rest: string)
    requires (w == 2 && id < 0x100) || (w == 4 && id < 0x1_0000)
    requires |rest| > 0 && IsBlank(rest[0])
    ensures IdField(pre + (HexPad(id, w) + rest), |pre|, w) == Some(id)
  {
    var s := pre + (HexPad(id, w) + rest);
    Pow16Values();
    HexPadValue(id, w);
    assert s[|pre|..|pre| + w] == HexPad(id, w);
    assert s[|pre| + w] == rest[0];
  }

  lemma VendorReads(table: map<Key, Item>, ctx: Context, id: U16, rest: string)
    requires |rest| > 0 && IsBlank(rest[0])
    ensures TopLevel(table, ctx, HexPad(id, 4) + rest) == Named(Context(ID_VENDOR, id, 0, 0, 0), 5)
  {
    var s := HexPad(id, 4) + rest;
    Pow16Values();
    IdFieldReads("", id, 4, rest);
    assert "" + s == s;
    assert s[0] == HexPad(id, 4)[0] && s[1] == HexPad(id, 4)[1];
  }

  lemma ClassReads(table: map<Key, Item>, ctx: Context, id: Byte, rest: string)
    requires |rest| > 0 && IsBlank(rest[0])
    ensures TopLevel(table, ctx, "C " + HexPad(id, 2) + rest) == Named(Context(ID_CLASS, id, 0, 0, 0), 5)
  {
    Pow16Values();
    IdFieldReads("C ", id, 2, rest);
    assert "C " + (HexPad(id, 2) + rest) == "C " + HexPad(id, 2) + rest;
  }

  lemma NestedFieldReads(id: U16, w: nat, rest: string)
    requires (w == 2 && id < 0x100) || w == 4
    requires |rest| > 0 && IsBlank(rest[0])
    ensures |HexPad(id, w)| == w && IdField(HexPad(id, w) + rest, 0, w) == Some(id)
  {
    Pow16Values();
    IdFieldReads("", id, w, rest);
    assert "" + (HexPad(id, w) + rest) == HexPad(id, w) + rest;
  }

  lemma SubsystemReads(id: U16, id': U16, rest: string)
    requires |rest| > 0 && IsBlank(rest[0])
    ensures var s := HexPad(id, 4) + " " + HexPad(id', 4) + rest;
            |HexPad(id, 4)| == |HexPad(id', 4)| == 4 && IdField(s, 0, 4) == Some(id) && IdField(s, 5, 4) == Some(id')
  {
    hide HexPad, IdField, Pow16;
    var s := HexPad(id, 4) + " " + HexPad(id', 4) + rest;
    NestedFieldReads(id', 4, rest);
    NestedFieldReads(id, 4, " " + HexPad(id', 4) + rest);
    assert HexPad(id, 4) + (" " + HexPad(id', 4) + rest) == s;
    IdFieldReads(HexPad(id, 4) + " ", id', 4, rest);
    assert (HexPad(id, 4) + " ") + (HexPad(id', 4) + rest) == s;
  }

  lemma HexPadLength(id: U16, w: nat)
    requires (w == 2 && id < 0x100) || w == 4
    ensures |HexPad(id, w)| == w
  {
    Pow16Values();
  }

  /** An entry's line is recognized as that entry, with the name behind its ids. */
  lemma HeadingReads(table: map<Key, Item>, ctx: Context, c: Context, rest: string)
    requires Follows(ctx, c) && |rest| > 0 && IsBlank(rest[0])
    ensures Heading(table, ctx, Nest(c.cat), Ids(c) + rest) == Named(c, |Ids(c)| + 1)
  {
    hide HexPad, IdField, TopLevel, Pow16;
    if c.cat == ID_CLASS { HexPadLength(c.id1, 2); } else { HexPadLength(c.id1, 4); }
    if c.cat == ID_VENDOR {
      VendorReads(table, ctx, c.id1, rest);
    } else if c.cat == ID_CLASS {
      ClassReads(table, ctx, c.id1, rest);
    } else if c.cat == ID_SUBSYSTEM {
      SubsystemReads(c.id3, c.id4, rest);
    } else {
      NestedFieldReads(if c.cat == ID_PROGIF then c.id3 else c.id2, if c.cat >= ID_CLASS then 2 else 4, rest);
    }
  }

  lemma HexPlain(n: nat, w: nat)
    ensures Plain(HexPad(n, w))
  {
    var s := HexPad(n, w);
    forall i | 0 <= i < |s| ensures s[i] != NUL && s[i] != '\n' && s[i] != '\r' {
      assert IsHex(s[i]);
    }
  }

  lemma IdsPlain(c: Context)
    ensures Plain(Ids(c)) && |Ids(c)| > 0 && !IsBlank(Ids(c)[0]) && Ids(c)[0] != '#'
  {
    HexPlain(c.id1, 4);
    HexPlain(c.id2, 4);
    HexPlain(c.id3, 4);
    HexPlain(c.id4, 4);
    HexPlain(c.id1, 2);
    HexPlain(c.id2, 2);
    HexPlain(c.id3, 2);
  }

  /** Where the text in front of an ending is cut. */
  lemma EndFound(s: string, end: string, last: bool)
    requires Plain(s) && Ending(end, last)
    ensures var chunk, k := s + end, if end != "" && IsBlank(end[0]) then 1 else 0;
            && EndOfLine(chunk, 0) == |s| + k && (k == 1 ==> IsBlank(chunk[|s|])) && chunk[..|s|] == s
            && (At(chunk, |s| + k) == NUL <==> last)
  {
    var chunk, e := s + end, EndOfLine(s + end, 0);
    var k := if end != "" && IsBlank(end[0]) then 1 else 0;
    assert forall i :: 0 <= i < |s| ==> chunk[i] == s[i];
    assert forall i :: 0 <= i < |end| ==> chunk[|s| + i] == end[i];
    assert |end| > k ==> end[k..][0] == end[k];
  }

  lemma PlainLine(s: string, end: string, last: bool)
    requires Plain(s) && NoBlankEnd(s) && Ending(end, last)
    ensures LineText(Read(s + end, last)) == Some(s)
  {
    hide Ending;
    EndFound(s, end, last);
    assert (s + end)[|s| - 1] == s[|s| - 1];
  }

  /** The parser's test for a comment or an empty line finds exactly the remarks. */
  lemma CommentIff(t: string)
    ensures Comment(t) <==> IsRemark(t)
  {
    var b := Blanks(t, 0);
    if n: nat :| RemarkAt(t, n) {
      assert n <= b;
      assert b <= n;
    }
    if Comment(t) { assert RemarkAt(t, b); }
  }

  /** Cutting a blank off a remark leaves a remark, and the parser skips it. */
  lemma RemarkLine(st: State, t: string, end: string, last: bool)
    requires Plain(t) && IsRemark(t) && Ending(end, last)
    ensures Buffer(st, Read(t + end, last)) == Go(st)
  {
    hide Ending, Heading;
    EndFound(t, end, last);
    var text := LineText(Read(t + end, last)).value;
    assert text == t || (t != "" && text == t[..|t| - 1]);
    if t != "" { ShorterRemark(t); }
    CommentIff(text);
  }

  lemma ShorterRemark(t: string)
    requires IsRemark(t) && t != ""
    ensures IsRemark(t[..|t| - 1])
  {
    var n: nat :| RemarkAt(t, n);
    var s := t[..|t| - 1];
    assert RemarkAt(s, if n <= |s| then n else |s|);
  }

  lemma EntryPlain(tabs: string, ids: string, name: string)
    requires Plain(tabs) && Plain(ids) && WellNamed(name)
    ensures var s := tabs + (ids + ("  " + name)); Plain(s) && !IsBlank(s[|s| - 1])
  {
    var rest := "  " + name;
    var s := tabs + (ids + rest);
    assert Plain(rest) && rest[|rest| - 1] == name[|name| - 1];
    assert s[|s| - 1] == rest[|rest| - 1];
  }

  /** The text of a row is a single line that no step of the reader cuts. */
  lemma RowPlain(row: Row)
    requires Writable(row)
    ensures Plain(Render(row)) && (row.Remark? || NoBlankEnd(Render(row)))
  {
    match row
    case EntryRow(c, name) =>
      IdsPlain(c);
      EntryPlain(Indent(Nest(c.cat)), Ids(c), name);
    case SubsystemsOf(v) =>
      HexPlain(v, 4);
      assert IsHex(HexPad(v, 4)[|HexPad(v, 4)| - 1]);
    case _ =>
  }

  /* ---- all rows ---- */

  function AfterRow(st: State, row: Row): State {
    match row
    case EntryRow(c, name) => State(c, st.table[ContextKey(c) := Item(name, Local)])
    case SubsystemsOf(v) => st.(ctx := st.ctx.(cat := ID_GEN_SUBSYSTEM, id1 := v))
    case Foreign(_) => st.(ctx := st.ctx.(cat := ID_UNKNOWN))
    case _ => st
  }

  const START := State(NOWHERE, map[])

  /** The parser after the first n rows. */
  function Through(rows: seq<Row>, n: nat): State
    requires n <= |rows|
  {
    if n == 0 then START else AfterRow(Through(rows, n - 1), rows[n - 1])
  }

  function VendorKey(v: U16): Key {
    MakeKey(ID_VENDOR, v, 0, 0, 0)
  }

  /** The row may come next: it has its place, a new key, a known vendor. */
  predicate Legal(st: State, row: Row) {
    match row
    case EntryRow(c, _) => Follows(st.ctx, c) && ContextKey(c) !in st.table
    case SubsystemsOf(v) => Find(st.table, LOCAL_ONLY, VendorKey(v)) != None
    case Ignored(_) => st.ctx.cat == ID_UNKNOWN
    case _ => true
  }

  lemma TabsThen(n: nat, s: string)
    requires n <= 2 && |s| > 0 && !IsBlank(s[0]) && s[0] != '#'
    ensures var t := Indent(n) + s; !Comment(t) && Tabs(t, 0) == n && t[n..] == s
  {
    var t := Indent(n) + s;
    assert forall k :: 0 <= k < n ==> t[k] == '\t';
    assert t[n] == s[0];
    assert Blanks(t, 0) == n;
  }

  lemma WellStarted(name: string)
    requires WellNamed(name)
    ensures |name| > 0 && !IsBlank(name[0])
  {
  }

  lemma NameBehind(ids: string, name: string)
    requires WellNamed(name)
    ensures var s := ids + ("  " + name); Blanks(s, |ids| + 1) == |ids| + 2 && s[|ids| + 2..] == name
  {
    hide WellNamed;
    var rest := "  " + name;
    var s := ids + rest;
    assert |name| > 0 && !IsBlank(name[0]) by { WellStarted(name); }
    assert s[|ids| + 1] == rest[1] && s[|ids| + 2] == rest[2] == name[0];
    assert s[|ids| + 2..] == rest[2..] == name;
  }

  lemma NamedLine(st: State, t: string, nest: nat, c: Context, n: nat)
    requires !Comment(t) && Tabs(t, 0) == nest && n <= |t| - nest && In(c.cat, ID_VENDOR, ID_PROGIF)
    requires Heading(st.table, st.ctx, nest, t[nest..]) == Named(c, n)
    requires Blanks(t[nest..], n) < |t| - nest && ContextKey(c) !in st.table
    ensures Line(st, t) == Go(AfterRow(st, EntryRow(c, t[nest..][Blanks(t[nest..], n)..])))
  {
  }

  lemma EntryLine(st: State, c: Context, name: string)
    requires WellNamed(name) && In(c.cat, ID_VENDOR, ID_PROGIF) && Legal(st, EntryRow(c, name))
    ensures Line(st, Render(EntryRow(c, name))) == Go(AfterRow(st, EntryRow(c, name)))
  {
    hide Ids, Heading, Comment, Line, Blanks, Tabs, AfterRow, Plain, Indent;
    var ids, nest := Ids(c), Nest(c.cat);
    var s := ids + ("  " + name);
    IdsPlain(c);
    assert s[0] == ids[0];
    TabsThen(nest, s);
    NameBehind(ids, name);
    HeadingReads(st.table, st.ctx, c, "  " + name);
    NamedLine(st, Indent(nest) + s, nest, c, |ids| + 1);
  }

  lemma SubsystemsLine(st: State, v: U16)
    requires Legal(st, SubsystemsOf(v))
    ensures Line(st, Render(SubsystemsOf(v))) == Go(AfterRow(st, SubsystemsOf(v)))
  {
    var t := Render(SubsystemsOf(v));
    Pow16Values();
    HexPadValue(v, 4);
    assert t[0] == 'S' && Blanks(t, 0) == 0 && Tabs(t, 0) == 0;
    assert t[0..] == t;
    assert t[2..6] == HexPad(v, 4);
  }

  /** Another kind of block, and a line of it. */
  lemma ForeignLine(st: State, row: Row)
    requires Writable(row) && Legal(st, row) && (row.Foreign? || row.Ignored?)
    ensures Line(st, row.text) == Go(AfterRow(st, row))
  {
    var t := row.text;
    if row.Foreign? {
      assert Blanks(t, 0) == 0 && Tabs(t, 0) == 0 && t[0..] == t;
    } else {
      assert Tabs(t, 0) > 0;
      CommentIff(t);
    }
  }

  lemma RowLine(st: State, row: Row, end: string, last: bool)
    requires Writable(row) && Legal(st, row) && Ending(end, last)
    ensures Buffer(st, Read(Render(row) + end, last)) == Go(AfterRow(st, row))
  {
    hide Line, Writable, Legal, LineText, WellNamed, Ending;
    if row.Remark? {
      RemarkText(row);
      RemarkLine(st, row.text, end, last);
    } else {
      RowPlain(row);
      PlainLine(Render(row), end, last);
      match row {
        case EntryRow(c, name) => NamedText(row); EntryLine(st, c, name);
        case SubsystemsOf(v) => SubsystemsLine(st, v);
        case _ => ForeignLine(st, row);
      }
    }
  }

  lemma RemarkText(row: Row)
    requires Writable(row) && row.Remark?
    ensures Plain(row.text) && IsRemark(row.text)
  {
  }

  lemma NamedText(row: Row)
    requires Writable(row) && row.EntryRow?
    ensures WellNamed(row.name)
  {
  }

  /* ---- files ---- */

  /** Every line with its ending fits the reader's buffer; the last one need not
      have a line end. */
  ghost predicate Fits(rows: seq<Row>, ends: seq<string>) {
    && |ends| == |rows|
    && forall i {:trigger rows[i]} :: 0 <= i < |rows| ==>
         || (Ending(ends[i], false) && |Render(rows[i])| + |ends[i]| < MAX_LINE)
         || (i == |rows| - 1 && Ending(ends[i], true) && |Render(rows[i])| + |ends[i]| + 1 < MAX_LINE)
  }

  /** The file with the lines of rows[n..]. */
  function FileFrom(rows: seq<Row>, ends: seq<string>, n: nat): string
    requires n <= |rows| == |ends|
    decreases |rows| - n
  {
    if n == |rows| then "" else Render(rows[n]) + ends[n] + FileFrom(rows, ends, n + 1)
  }

  lemma LinesStep(file: string, pos: nat, st: State, r: Read, next: State)
    requires pos < |file| && FGets(file, pos, MAX_LINE) == r && Buffer(st, r) == Go(next)
    ensures Lines(file, pos, st) == Lines(file, pos + |r.chunk|, next)
  {
    hide Buffer, FGets;
  }

  lemma LinesEnd(file: string, st: State)
    ensures Lines(file, |file|, st) == Go(st)
  {
  }

  lemma FileStep(rows: seq<Row>, ends: seq<string>, n: nat)
    requires n <= |rows| == |ends|
    ensures FileFrom(rows, ends, n) ==
            if n == |rows| then "" else Render(rows[n]) + ends[n] + FileFrom(rows, ends, n + 1)
  {
  }

  /** fgets reads the text and the ending of one line. */
  lemma LineRead(before: string, text: string, end: string, after: string, last: bool)
    requires Plain(text) && Ending(end, last) && (last ==> after == "" && |text + end| > 0)
    requires |text| + |end| + (if last then 1 else 0) < MAX_LINE
    ensures FGets(before + (text + end) + after, |before|, MAX_LINE) == Read(text + end, last)
  {
    hide FGets;
    var k := if end != "" && IsBlank(end[0]) then 1 else 0;
    if last {
      assert NoChar(text + end, '\n');
      FGetsLast(before, text + end, MAX_LINE);
      assert before + (text + end) + after == before + (text + end);
    } else {
      var line := text + end[..|end| - 1];
      assert end == end[..k] + end[k..];
      assert end[|end| - 1] == '\n' && forall i :: 0 <= i < |end| - 1 ==> end[i] != '\n';
      assert forall i :: 0 <= i < |line| ==> line[i] == if i < |text| then text[i] else end[i - |text|];
      assert line + "\n" == text + end;
      FGetsLine(before, line, after, MAX_LINE);
    }
  }

  /** One line of the file is read and takes the parser through its row. */
  lemma OneRow(before: string, row: Row, end: string, after: string, last: bool, st: State)
    requires Writable(row) && Legal(st, row) && Ending(end, last) && (last ==> after == "")
    requires |Render(row)| + |end| + (if last then 1 else 0) < MAX_LINE
    ensures var file, next := before + (Render(row) + end) + after, |before| + |Render(row) + end|;
            Lines(file, |before|, st) == Lines(file, next, AfterRow(st, row))
  {
    hide Lines, Buffer, FGets, AfterRow, Render, Legal, Writable, LineText, Ending;
    var text := Render(row);
    RowPlain(row);
    RowLine(st, row, end, last);
    if text + end == "" {
      assert text == "";
      NothingLeft(st, row);
    } else {
      LineRead(before, text, end, after, last);
      LinesStep(before + (text + end) + after, |before|, st, Read(text + end, last), AfterRow(st, row));
    }
  }

  /** Parsing the lines of legal rows takes the parser through the rows. */
  lemma {:induction false} LinesOfRows(rows: seq<Row>, ends: seq<string>, n: nat, before: string)
    requires n <= |rows| && Fits(rows, ends)
    requires forall i :: 0 <= i < |rows| ==> Writable(rows[i]) && Legal(Through(rows, i), rows[i])
    ensures Lines(before + FileFrom(rows, ends, n), |before|, Through(rows, n)) == Go(Through(rows, |rows|))
    decreases |rows| - n
  {
    hide Lines, AfterRow, Render, Legal, Writable, FileFrom, Ending;
    FileStep(rows, ends, n);
    if n < |rows| {
      var text, end, after := Render(rows[n]), ends[n], FileFrom(rows, ends, n + 1);
      var before' := before + (text + end);
      assert before + FileFrom(rows, ends, n) == before' + after;
      var last := !Ending(end, false);
      if last { FileStep(rows, ends, n + 1); }
      OneRow(before, rows[n], end, after, last, Through(rows, n));
      LinesOfRows(rows, ends, n + 1, before');
    } else {
      LinesEnd(before, Through(rows, n));
      assert before + FileFrom(rows, ends, n) == before;
    }
  }

  lemma NothingLeft(st: State, row: Row)
    requires Writable(row) && Render(row) == ""
    ensures AfterRow(st, row) == st
  {
    RowPlain(row);
  }

  /* ---- what the rows store ---- */

  ghost predicate Stores(row: Row, k: Key) {
    row.EntryRow? && ContextKey(row.ctx) == k
  }

  lemma {:induction false} TableThrough(rows: seq<Row>, n: nat, k: Key)
    requires n <= |rows|
    ensures k in Through(rows, n).table <==> exists i :: 0 <= i < n && Stores(rows[i], k)
    decreases n
  {
    if n > 0 { TableThrough(rows, n - 1, k); }
  }

  ghost predicate DistinctContexts(rows: seq<Row>) {
    forall i, j :: 0 <= i < j < |rows| && rows[i].EntryRow? && rows[j].EntryRow? ==> rows[i].ctx != rows[j].ctx
  }

  /** Two rows with different contexts store under different keys. */
  lemma OneRowPerKey(rows: seq<Row>, i: nat, j: nat, k: Key)
    requires i < |rows| && j < |rows| && DistinctContexts(rows) && Stores(rows[i], k) && Stores(rows[j], k)
    ensures i == j
  {
    var a, b := rows[i].ctx, rows[j].ctx;
    KeyInjective(a.cat, a.id1, a.id2, a.id3, a.id4, b.cat, b.id1, b.id2, b.id3, b.id4);
  }

  lemma {:induction false} NameThrough(rows: seq<Row>, n: nat, i: nat)
    requires i < n <= |rows| && DistinctContexts(rows) && rows[i].EntryRow?
    ensures ContextKey(rows[i].ctx) in Through(rows, n).table
    ensures Through(rows, n).table[ContextKey(rows[i].ctx)] == Item(rows[i].name, Local)
    decreases n
  {
    if i < n - 1 {
      NameThrough(rows, n - 1, i);
      if rows[n - 1].EntryRow? && ContextKey(rows[n - 1].ctx) == ContextKey(rows[i].ctx) {
        OneRowPerKey(rows, i, n - 1, ContextKey(rows[i].ctx));
      }
    }
  }

  /* ---- databases ---- */

  datatype Subsystem = Subsystem(vendor: U16, device: U16, name: string)
  datatype Device = Device(id: U16, name: string, subsystems: seq<Subsystem>)
  datatype Vendor = Vendor(id: U16, name: string, devices: seq<Device>)
  datatype GenericSubsystem = GenericSubsystem(id: U16, name: string)
  datatype ProgIf = ProgIf(id: Byte, name: string)
  datatype SubClass = SubClass(id: Byte, name: string, progIfs: seq<ProgIf>)
  datatype Class = Class(id: Byte, name: string, subClasses: seq<SubClass>)
  datatype Block =
    | VendorBlock(v: Vendor)
    | SubsystemBlock(vendor: U16, subsystems: seq<GenericSubsystem>)
    | ForeignBlock(heading: string, lines: seq<string>)
    | ClassBlock(c: Class)

  function SubsystemRows(v: U16, d: U16, ss: seq<Subsystem>): seq<Row> {
    if ss == [] then []
    else [EntryRow(Context(ID_SUBSYSTEM, v, d, ss[0].vendor, ss[0].device), ss[0].name)] + SubsystemRows(v, d, ss[1..])
  }

  function DeviceRows(v: U16, ds: seq<Device>): seq<Row> {
    if ds == [] then []
    else [EntryRow(Context(ID_DEVICE, v, ds[0].id, 0, 0), ds[0].name)]
         + SubsystemRows(v, ds[0].id, ds[0].subsystems) + DeviceRows(v, ds[1..])
  }

  function GenericRows(v: U16, gs: seq<GenericSubsystem>): seq<Row> {
    if gs == [] then []
    else [EntryRow(Context(ID_GEN_SUBSYSTEM, v, gs[0].id, 0, 0), gs[0].name)] + GenericRows(v, gs[1..])
  }

  function ProgIfRows(c: Byte, s: Byte, ps: seq<ProgIf>): seq<Row> {
    if ps == [] then []
    else [EntryRow(Context(ID_PROGIF, c, s, ps[0].id, 0), ps[0].name)] + ProgIfRows(c, s, ps[1..])
  }

  function SubClassRows(c: Byte, ss: seq<SubClass>): seq<Row> {
    if ss == [] then []
    else [EntryRow(Context(ID_SUBCLASS, c, ss[0].id, 0, 0), ss[0].name)]
         + ProgIfRows(c, ss[0].id, ss[0].progIfs) + SubClassRows(c, ss[1..])
  }

  function IgnoredRows(lines: seq<string>): seq<Row> {
    if lines == [] then [] else [Ignored(lines[0])] + IgnoredRows(lines[1..])
  }

  function BlockRows(b: Block): seq<Row> {
    match b
    case VendorBlock(v) => [EntryRow(Context(ID_VENDOR, v.id, 0, 0, 0), v.name)] + DeviceRows(v.id, v.devices)
    case SubsystemBlock(v, gs) => [SubsystemsOf(v)] + GenericRows(v, gs)
    case ForeignBlock(heading, lines) => [Foreign(heading)] + IgnoredRows(lines)
    case ClassBlock(c) => [EntryRow(Context(ID_CLASS, c.id, 0, 0, 0), c.name)] + SubClassRows(c.id, c.subClasses)
  }

  function Rows(db: seq<Block>): seq<Row> {
    if db == [] then [] else BlockRows(db[0]) + Rows(db[1..])
  }

  predicate IsVendorRow(row: Row, v: U16) {
    row.EntryRow? && row.ctx == Context(ID_VENDOR, v, 0, 0, 0)
  }

  /** Writable names, distinct ids, and generic subsystems behind their vendor. */
  ghost predicate WellFormed(db: seq<Block>) {
    var rows := Rows(db);
    && (forall i :: 0 <= i < |rows| ==> Writable(rows[i]))
    && DistinctContexts(rows)
    && (forall i :: 0 <= i < |rows| && rows[i].SubsystemsOf? ==>
          exists j :: 0 <= j < i && IsVendorRow(rows[j], rows[i].vendor))
  }

  /* ---- a tree of rows keeps every row behind its parents ---- */

  function Next(ctx: Context, row: Row): Context {
    match row
    case EntryRow(c, _) => c
    case SubsystemsOf(v) => ctx.(cat := ID_GEN_SUBSYSTEM, id1 := v)
    case Foreign(_) => ctx.(cat := ID_UNKNOWN)
    case _ => ctx
  }

  function End(ctx: Context, rows: seq<Row>): Context
    decreases |rows|
  {
    if rows == [] then ctx else End(Next(ctx, rows[0]), rows[1..])
  }

  /** The row may stand where ctx is in force. */
  predicate Fitting(ctx: Context, row: Row) {
    (row.EntryRow? ==> Follows(ctx, row.ctx)) && (row.Ignored? ==> ctx.cat == ID_UNKNOWN)
  }

  predicate Chained(ctx: Context, rows: seq<Row>)
    decreases |rows|
  {
    rows == [] || (Fitting(ctx, rows[0]) && Chained(Next(ctx, rows[0]), rows[1..]))
  }

  lemma {:induction false} ChainedConcat(ctx: Context, a: seq<Row>, b: seq<Row>)
    ensures Chained(ctx, a + b) <==> Chained(ctx, a) && Chained(End(ctx, a), b)
    ensures End(ctx, a + b) == End(End(ctx, a), b)
    decreases |a|
  {
    if a == [] {
      assert a + b == b;
    } else {
      ChainedConcat(Next(ctx, a[0]), a[1..], b);
      assert (a + b)[1..] == a[1..] + b;
    }
  }

  predicate InVendor(ctx: Context, v: U16) { In(ctx.cat, ID_VENDOR, ID_SUBSYSTEM) && ctx.id1 == v }
  predicate InDevice(ctx: Context, v: U16, d: U16) { InVendor(ctx, v) && ctx.cat != ID_VENDOR && ctx.id2 == d }
  predicate InClass(ctx: Context, c: Byte) { In(ctx.cat, ID_CLASS, ID_PROGIF) && ctx.id1 == c }
  predicate InSubClass(ctx: Context, c: Byte, s: Byte) { InClass(ctx, c) && ctx.id2 == s }

  lemma {:induction false} SubsystemsChained(ctx: Context, v: U16, d: U16, ss: seq<Subsystem>)
    requires InDevice(ctx, v, d)
    ensures Chained(ctx, SubsystemRows(v, d, ss)) && InDevice(End(ctx, SubsystemRows(v, d, ss)), v, d)
    decreases |ss|
  {
    if ss != [] {
      var row := EntryRow(Context(ID_SUBSYSTEM, v, d, ss[0].vendor, ss[0].device), ss[0].name);
      SubsystemsChained(Next(ctx, row), v, d, ss[1..]);
      ChainedConcat(ctx, [row], SubsystemRows(v, d, ss[1..]));
    }
  }

  lemma {:induction false} DevicesChained(ctx: Context, v: U16, ds: seq<Device>)
    requires InVendor(ctx, v)
    ensures Chained(ctx, DeviceRows(v, ds)) && InVendor(End(ctx, DeviceRows(v, ds)), v)
    decreases |ds|
  {
    if ds != [] {
      var row := EntryRow(Context(ID_DEVICE, v, ds[0].id, 0, 0), ds[0].name);
      var subs := SubsystemRows(v, ds[0].id, ds[0].subsystems);
      SubsystemsChained(row.ctx, v, ds[0].id, ds[0].subsystems);
      ChainedConcat(ctx, [row], subs);
      DevicesChained(End(ctx, [row] + subs), v, ds[1..]);
      ChainedConcat(ctx, [row] + subs, DeviceRows(v, ds[1..]));
    }
  }

  lemma {:induction false} GenericChained(ctx: Context, v: U16, gs: seq<GenericSubsystem>)
    requires ctx.cat == ID_GEN_SUBSYSTEM && ctx.id1 == v
    ensures Chained(ctx, GenericRows(v, gs))
    decreases |gs|
  {
    if gs != [] {
      var row := EntryRow(Context(ID_GEN_SUBSYSTEM, v, gs[0].id, 0, 0), gs[0].name);
      GenericChained(Next(ctx, row), v, gs[1..]);
      ChainedConcat(ctx, [row], GenericRows(v, gs[1..]));
    }
  }

  lemma {:induction false} ProgIfsChained(ctx: Context, c: Byte, s: Byte, ps: seq<ProgIf>)
    requires InSubClass(ctx, c, s)
    ensures Chained(ctx, ProgIfRows(c, s, ps)) && InSubClass(End(ctx, ProgIfRows(c, s, ps)), c, s)
    decreases |ps|
  {
    if ps != [] {
      var row := EntryRow(Context(ID_PROGIF, c, s, ps[0].id, 0), ps[0].name);
      ProgIfsChained(Next(ctx, row), c, s, ps[1..]);
      ChainedConcat(ctx, [row], ProgIfRows(c, s, ps[1..]));
    }
  }

  lemma {:induction false} SubClassesChained(ctx: Context, c: Byte, ss: seq<SubClass>)
    requires InClass(ctx, c)
    ensures Chained(ctx, SubClassRows(c, ss)) && InClass(End(ctx, SubClassRows(c, ss)), c)
    decreases |ss|
  {
    if ss != [] {
      var row := EntryRow(Context(ID_SUBCLASS, c, ss[0].id, 0, 0), ss[0].name);
      var progIfs := ProgIfRows(c, ss[0].id, ss[0].progIfs);
      ProgIfsChained(row.ctx, c, ss[0].id, ss[0].progIfs);
      ChainedConcat(ctx, [row], progIfs);
      SubClassesChained(End(ctx, [row] + progIfs), c, ss[1..]);
      ChainedConcat(ctx, [row] + progIfs, SubClassRows(c, ss[1..]));
    }
  }

  lemma {:induction false} IgnoredChained(ctx: Context, lines: seq<string>)
    requires ctx.cat == ID_UNKNOWN
    ensures Chained(ctx, IgnoredRows(lines))
    decreases |lines|
  {
    if lines != [] {
      IgnoredChained(ctx, lines[1..]);
      ChainedConcat(ctx, [Ignored(lines[0])], IgnoredRows(lines[1..]));
    }
  }

  lemma BlockChained(ctx: Context, b: Block)
    ensures Chained(ctx, BlockRows(b))
  {
    match b
    case VendorBlock(v) =>
      var row := EntryRow(Context(ID_VENDOR, v.id, 0, 0, 0), v.name);
      DevicesChained(row.ctx, v.id, v.devices);
      ChainedConcat(ctx, [row], DeviceRows(v.id, v.devices));
    case SubsystemBlock(v, gs) =>
      GenericChained(Next(ctx, SubsystemsOf(v)), v, gs);
      ChainedConcat(ctx, [SubsystemsOf(v)], GenericRows(v, gs));
    case ForeignBlock(heading, lines) =>
      IgnoredChained(Next(ctx, Foreign(heading)), lines);
      ChainedConcat(ctx, [Foreign(heading)], IgnoredRows(lines));
    case ClassBlock(c) =>
      var row := EntryRow(Context(ID_CLASS, c.id, 0, 0, 0), c.name);
      SubClassesChained(row.ctx, c.id, c.subClasses);
      ChainedConcat(ctx, [row], SubClassRows(c.id, c.subClasses));
  }

  lemma {:induction false} DatabaseChained(ctx: Context, db: seq<Block>)
    ensures Chained(ctx, Rows(db))
    decreases |db|
  {
    if db != [] {
      BlockChained(ctx, db[0]);
      DatabaseChained(End(ctx, BlockRows(db[0])), db[1..]);
      ChainedConcat(ctx, BlockRows(db[0]), Rows(db[1..]));
    }
  }

  lemma {:induction false} ChainedAt(rows: seq<Row>, i: nat)
    requires Chained(NOWHERE, rows) && i < |rows|
    ensures Fitting(Through(rows, i).ctx, rows[i])
  {
    ContextThrough(rows, i);
    assert rows == rows[..i] + rows[i..];
    ChainedConcat(NOWHERE, rows[..i], rows[i..]);
  }

  lemma {:induction false} ContextThrough(rows: seq<Row>, i: nat)
    requires i <= |rows|
    ensures Through(rows, i).ctx == End(NOWHERE, rows[..i])
  {
    if i > 0 {
      ContextThrough(rows, i - 1);
      assert rows[..i] == rows[..i - 1] + [rows[i - 1]];
      ChainedConcat(NOWHERE, rows[..i - 1], [rows[i - 1]]);
    }
  }

  lemma RowsLegal(db: seq<Block>, i: nat)
    requires WellFormed(db) && i < |Rows(db)|
    ensures Legal(Through(Rows(db), i), Rows(db)[i])
  {
    hide Writable, Follows, MakeKey, Through;
    var rows := Rows(db);
    DatabaseChained(NOWHERE, db);
    ChainedAt(rows, i);
    match rows[i]
    case EntryRow(c, _) =>
      TableThrough(rows, i, ContextKey(c));
      if ContextKey(c) in Through(rows, i).table {
        var j :| 0 <= j < i && Stores(rows[j], ContextKey(c));
        OneRowPerKey(rows, j, i, ContextKey(c));
      }
    case SubsystemsOf(v) =>
      var j :| 0 <= j < i && IsVendorRow(rows[j], v);
      NameThrough(rows, i, j);
    case _ =>
  }

  /* ---- remarks between the rows ---- */

  /** The rows that are not remarks. */
  function Entries(rows: seq<Row>): seq<Row> {
    if rows == [] then []
    else Entries(rows[..|rows| - 1]) + if rows[|rows| - 1].Remark? then [] else [rows[|rows| - 1]]
  }

  lemma EntriesNext(rows: seq<Row>, n: nat)
    requires n < |rows|
    ensures Entries(rows[..n + 1]) == Entries(rows[..n]) + if rows[n].Remark? then [] else [rows[n]]
  {
    assert rows[..n + 1][..n] == rows[..n];
  }

  lemma {:induction false} EntriesBegin(rows: seq<Row>, n: nat)
    requires n <= |rows|
    ensures Entries(rows[..n]) <= Entries(rows)
    decreases |rows| - n
  {
    if n < |rows| {
      EntriesNext(rows, n);
      EntriesBegin(rows, n + 1);
    } else {
      assert rows[..n] == rows;
    }
  }

  /** Remarks leave the parser where it is. */
  lemma {:induction false} ThroughRemarks(rows: seq<Row>, n: nat)
    requires n <= |rows|
    ensures |Entries(rows[..n])| <= |Entries(rows)|
    ensures Through(rows, n) == Through(Entries(rows), |Entries(rows[..n])|)
  {
    EntriesBegin(rows, n);
    if n > 0 {
      ThroughRemarks(rows, n - 1);
      EntriesNext(rows, n - 1);
      assert !rows[n - 1].Remark? ==> Entries(rows[..n])[|Entries(rows[..n - 1])|] == rows[n - 1];
    }
  }

  /** A text of the database: its rows in order, with remarks among them. */
  ghost predicate TextOf(rows: seq<Row>, db: seq<Block>) {
    Entries(rows) == Rows(db) && forall i :: 0 <= i < |rows| && rows[i].Remark? ==> Writable(rows[i])
  }

  lemma TextLegal(db: seq<Block>, rows: seq<Row>, i: nat)
    requires WellFormed(db) && TextOf(rows, db) && i < |rows|
    ensures Writable(rows[i]) && Legal(Through(rows, i), rows[i])
  {
    hide Writable, Follows, MakeKey, Through, AfterRow, Rows;
    ThroughRemarks(rows, i);
    EntriesNext(rows, i);
    EntriesBegin(rows, i + 1);
    if !rows[i].Remark? {
      var k := |Entries(rows[..i])|;
      assert Entries(rows[..i + 1])[k] == rows[i];
      assert Rows(db)[k] == rows[i];
      RowsLegal(db, k);
    }
  }

  /** The table has the keys of the rows and no others, with their names. */
  ghost predicate ExactlyStored(rows: seq<Row>, table: map<Key, Item>) {
    && (forall k :: k in table <==> exists i :: 0 <= i < |rows| && Stores(rows[i], k))
    && forall i :: 0 <= i < |rows| && rows[i].EntryRow? ==>
         ContextKey(rows[i].ctx) in table && table[ContextKey(rows[i].ctx)] == Item(rows[i].name, Local)
  }

  /** Any text of a well-formed database, with remarks and foreign blocks, blanks
      before line ends, either kind of line end and none at the end of the file,
      is accepted, and exactly the database is stored. */
  lemma DatabaseRoundTrip(db: seq<Block>, text: seq<Row>, ends: seq<string>)
    requires WellFormed(db) && TextOf(text, db) && Fits(text, ends)
    ensures var rows := Rows(db);
            var o := Lines(FileFrom(text, ends, 0), 0, START);
            o.Go? && ExactlyStored(rows, o.state.table)
  {
    hide Lines, Legal, Writable, FileFrom, AfterRow, ExactlyStored, Rows, DistinctContexts, TextOf, WellFormed;
    var rows := Rows(db);
    forall i | 0 <= i < |text| ensures Writable(text[i]) && Legal(Through(text, i), text[i]) { TextLegal(db, text, i); }
    LinesOfRows(text, ends, 0, "");
    assert "" + FileFrom(text, ends, 0) == FileFrom(text, ends, 0);
    ThroughRemarks(text, |text|);
    assert text[..|text|] == text;
    WellFormedDistinct(db);
    RowsOfText(text, db);
    StoredExactly(rows);
  }

  lemma RowsOfText(text: seq<Row>, db: seq<Block>)
    requires TextOf(text, db)
    ensures Entries(text) == Rows(db)
  {
  }

  lemma WellFormedDistinct(db: seq<Block>)
    requires WellFormed(db)
    ensures DistinctContexts(Rows(db))
  {
  }

  lemma StoredExactly(rows: seq<Row>)
    requires DistinctContexts(rows)
    ensures ExactlyStored(rows, Through(rows, |rows|).table)
  {
    hide Through, DistinctContexts, Stores, MakeKey;
    forall k ensures k in Through(rows, |rows|).table <==> exists i :: 0 <= i < |rows| && Stores(rows[i], k) {
      TableThrough(rows, |rows|, k);
    }
    forall i | 0 <= i < |rows| && rows[i].EntryRow?
      ensures ContextKey(rows[i].ctx) in Through(rows, |rows|).table
      ensures Through(rows, |rows|).table[ContextKey(rows[i].ctx)] == Item(rows[i].name, Local)
    {
      NameThrough(rows, |rows|, i);
    }
  }
}

/** Which lines of an ID list are accepted, and as what (lib/names-parse.c):
    the converse of reading what was written. */
module NameListLines {
  import opened Config
  import opened CText
  import opened NameTable
  import opened NameList
  import opened NameListRoundTrip

  /** Hexadecimal digits, of either case, that denote n. */
  predicate Digits(s: string, w: nat, n: nat) { |s| == w && AllHex(s) && HexNum(s) == n }

  /** The ids in front of a name, as a line of this category shows them. */
  predicate SpellsIds(u: string, c: Context) {
    if c.cat == ID_VENDOR then Digits(u, 4, c.id1)
    else if c.cat == ID_DEVICE || c.cat == ID_GEN_SUBSYSTEM then Digits(u, 4, c.id2)
    else if c.cat == ID_SUBSYSTEM then
      |u| == 9 && Digits(u[..4], 4, c.id3) && IsBlank(u[4]) && Digits(u[5..], 4, c.id4)
    else if c.cat == ID_CLASS then |u| == 4 && u[..2] == "C " && Digits(u[2..], 2, c.id1)
    else if c.cat == ID_SUBCLASS then Digits(u, 2, c.id2)
    else Digits(u, 2, c.id3)
  }

  predicate AllBlank(s: string) { forall i :: 0 <= i < |s| ==> IsBlank(s[i]) }

  /** Tabs, ids, blanks and a name. */
  ghost predicate SpellsEntry(t: string, c: Context, name: string) {
    exists u, gap :: t == Indent(Nest(c.cat)) + (u + (gap + name)) && Spaced(u, gap, c, name)
  }

  predicate Spaced(u: string, gap: string, c: Context, name: string) {
    SpellsIds(u, c) && gap != "" && AllBlank(gap) && name != "" && !IsBlank(name[0])
  }

  predicate ForeignHead(t: string) { |t| >= 2 && 'A' <= t[0] <= 'Z' && t[0] != 'C' && t[0] != 'S' && t[1] == ' ' }

  /** The line is a way to write this row. */
  ghost predicate Spells(t: string, row: Row) {
    match row
    case EntryRow(c, name) => SpellsEntry(t, c, name)
    case SubsystemsOf(v) => |t| == 6 && t[..2] == "S " && Digits(t[2..], 4, v)
    case Foreign(text) => text == t && ForeignHead(t)
    case Ignored(text) => text == t && t != "" && t[0] == '\t' && !IsRemark(t)
    case Remark(text) => text == t && IsRemark(t)
  }

  /** Contexts that the parser can be in. */
  predicate Regular(ctx: Context) {
    In(ctx.cat, -1, ID_PROGIF) && (In(ctx.cat, ID_CLASS, ID_PROGIF) ==> ctx.id1 < 0x100 && ctx.id2 < 0x100)
  }

  lemma HexIff(s: string, i: nat, w: nat, n: nat)
    ensures IdHex(s, i, w) == Some(n) <==> i + w <= |s| && Digits(s[i..i + w], w, n)
  {
  }

  lemma FieldIff(s: string, i: nat, w: nat, n: nat)
    ensures IdField(s, i, w) == Some(n) <==> i + w < |s| && Digits(s[i..i + w], w, n) && IsBlank(s[i + w])
  {
    HexIff(s, i, w, n);
  }

  /** Entry c stands at the start of s, with a blank at s[n - 1]. */
  predicate Opens(ctx: Context, nest: nat, s: string, c: Context, n: nat) {
    && Follows(ctx, c) && nest == Nest(c.cat)
    && 0 < n <= |s| && SpellsIds(s[..n - 1], c) && IsBlank(s[n - 1])
  }

  lemma TopNamedIff(table: map<Key, Item>, ctx: Context, s: string, c: Context, n: nat)
    requires Regular(ctx)
    ensures TopLevel(table, ctx, s) == Named(c, n) <==>
            (c.cat == ID_VENDOR || c.cat == ID_CLASS) && Opens(ctx, 0, s, c, n)
  {
    hide IdField, IdHex, HexNum, AllHex;
    FieldIff(s, 2, 2, c.id1);
    FieldIff(s, 0, 4, c.id1);
    if n == 5 && n <= |s| {
      assert s[..4][2..] == s[2..4] && s[..4][..2] == s[..2];
      if c.cat == ID_VENDOR && Digits(s[..4], 4, c.id1) { FirstTwo(s); }
    }
  }

  lemma FirstTwo(s: string)
    requires |s| >= 4 && AllHex(s[..4])
    ensures IsHex(s[0]) && IsHex(s[1]) && s[1] != ' '
  {
    assert s[..4][0] == s[0] && s[..4][1] == s[1];
  }

  lemma NestedNamedIff(ctx: Context, nest: nat, s: string, c: Context, n: nat)
    requires Regular(ctx) && nest > 0
    ensures Nested(ctx, nest, s) == Named(c, n) <==> Opens(ctx, nest, s, c, n)
  {
    hide IdField, IdHex, HexNum, AllHex;
    FieldIff(s, 0, 4, c.id2);
    FieldIff(s, 0, 2, c.id2);
    FieldIff(s, 0, 2, c.id3);
    FieldIff(s, 0, 4, c.id3);
    FieldIff(s, 5, 4, c.id4);
    if n == 10 && n <= |s| { assert s[..9][..4] == s[..4] && s[..9][5..] == s[5..9]; }
  }

  lemma HeadingNamedIff(table: map<Key, Item>, ctx: Context, nest: nat, s: string, c: Context, n: nat)
    requires Regular(ctx)
    ensures Heading(table, ctx, nest, s) == Named(c, n) <==> Opens(ctx, nest, s, c, n)
  {
    hide TopLevel, Nested, SpellsIds;
    if nest == 0 { TopNamedIff(table, ctx, s, c, n); } else { NestedNamedIff(ctx, nest, s, c, n); }
  }

  /** Lines that store nothing are headings of blocks or stand in a foreign block. */
  lemma QuietIff(table: map<Key, Item>, ctx: Context, nest: nat, s: string, d: Context)
    ensures Heading(table, ctx, nest, s) == Quiet(d) <==>
              if nest > 0 then ctx.cat == ID_UNKNOWN && d == ctx
              else || (ForeignHead(s) && d == ctx.(cat := ID_UNKNOWN))
                   || (Spells(s, SubsystemsOf(d.id1)) && Find(table, LOCAL_ONLY, VendorKey(d.id1)) != None
                       && d == ctx.(cat := ID_GEN_SUBSYSTEM, id1 := d.id1))
  {
    hide IdField, IdHex, HexNum, AllHex, MakeKey;
    HexIff(s, 2, 4, d.id1);
    if |s| == 6 { assert s[2..] == s[2..6]; }
  }

  lemma IdsStart(u: string, c: Context)
    requires SpellsIds(u, c)
    ensures u != "" && !IsBlank(u[0]) && u[0] != '#'
  {
    if c.cat == ID_CLASS {
      assert u[0] == u[..2][0];
    } else if c.cat == ID_SUBSYSTEM {
      assert u[0] == u[..4][0];
    } else {
      assert IsHex(u[0]);
    }
  }

  /** A spelled entry is found by the parser. */
  lemma EntryRead(st: State, t: string, c: Context, name: string) returns (n: nat)
    requires Regular(st.ctx) && SpellsEntry(t, c, name) && Follows(st.ctx, c)
    ensures !Comment(t) && var nest := Tabs(t, 0); var s := t[nest..];
            && Heading(st.table, st.ctx, nest, s) == Named(c, n)
            && n <= |s| && Blanks(s, n) < |s| && s[Blanks(s, n)..] == name
  {
    hide SpellsIds, Follows, Heading, Comment, Blanks, Tabs, AllBlank;
    var u, gap :| t == Indent(Nest(c.cat)) + (u + (gap + name)) && Spaced(u, gap, c, name);
    var s := u + (gap + name);
    n := |u| + 1;
    IdsStart(u, c);
    TabsThen(Nest(c.cat), s);
    SpacedOpens(st.ctx, u, gap, c, name);
    HeadingNamedIff(st.table, st.ctx, Nest(c.cat), s, c, n);
    GapSkipped(u, gap, name);
  }

  lemma SpacedOpens(ctx: Context, u: string, gap: string, c: Context, name: string)
    requires Spaced(u, gap, c, name) && Follows(ctx, c)
    ensures u + (gap + name) != "" && Opens(ctx, Nest(c.cat), u + (gap + name), c, |u| + 1)
  {
    hide SpellsIds, Follows;
    var s := u + (gap + name);
    assert s[..|u|] == u && s[|u|] == gap[0];
  }

  lemma GapSkipped(u: string, gap: string, name: string)
    requires gap != "" && AllBlank(gap) && name != "" && !IsBlank(name[0])
    ensures var s := u + (gap + name);
            |u| + 1 <= |s| && Blanks(s, |u| + 1) == |u| + |gap| && s[|u| + |gap|..] == name
  {
    var s := u + (gap + name);
    assert forall i :: |u| <= i < |u| + |gap| ==> s[i] == gap[i - |u|];
    assert s[|u| + |gap|] == name[0];
  }

  /** A line that spells a row that may come next is read as that row. */
  lemma SpelledLine(st: State, t: string, row: Row)
    requires Regular(st.ctx) && Spells(t, row) && Legal(st, row)
    ensures Line(st, t) == Go(AfterRow(st, row))
  {
    hide SpellsEntry, Heading, Follows, MakeKey;
    match row
    case EntryRow(c, name) =>
      var _ := EntryRead(st, t, c, name);
      hide Comment;
    case Remark(_) =>
      CommentIff(t);
    case SubsystemsOf(v) =>
      assert t[0] == 'S' && Blanks(t, 0) == 0 && Tabs(t, 0) == 0 && t[0..] == t;
      QuietIff(st.table, st.ctx, 0, t, st.ctx.(cat := ID_GEN_SUBSYSTEM, id1 := v));
    case Foreign(_) =>
      assert Blanks(t, 0) == 0 && Tabs(t, 0) == 0 && t[0..] == t;
      QuietIff(st.table, st.ctx, 0, t, st.ctx.(cat := ID_UNKNOWN));
    case Ignored(_) =>
      CommentIff(t);
      QuietIff(st.table, st.ctx, Tabs(t, 0), t[Tabs(t, 0)..], st.ctx);
  }

  /** The parts of a line that is found to be an entry. */
  lemma PartsSpelled(s: string, c: Context, n: nat)
    requires 0 < n <= |s| && SpellsIds(s[..n - 1], c) && IsBlank(s[n - 1]) && Blanks(s, n) < |s|
    ensures var start := Blanks(s, n);
            s == s[..n - 1] + (s[n - 1..start] + s[start..]) && Spaced(s[..n - 1], s[n - 1..start], c, s[start..])
  {
    hide SpellsIds;
    var gap := s[n - 1..Blanks(s, n)];
    forall i | 0 <= i < |gap| ensures IsBlank(gap[i]) { assert gap[i] == s[n - 1 + i]; }
  }

  lemma IndentSpelled(t: string)
    requires Tabs(t, 0) <= 2
    ensures t == Indent(Tabs(t, 0)) + t[Tabs(t, 0)..]
  {
    var n := Tabs(t, 0);
    assert t[..n] == Indent(n);
  }

  lemma EntrySpelled(st: State, t: string, c: Context, n: nat)
    requires Regular(st.ctx)
    requires var nest := Tabs(t, 0); var s := t[nest..];
             Heading(st.table, st.ctx, nest, s) == Named(c, n) && n <= |s| && Blanks(s, n) < |s|
    ensures var s := t[Tabs(t, 0)..];
            SpellsEntry(t, c, s[Blanks(s, n)..]) && Follows(st.ctx, c)
  {
    hide SpellsIds, SpellsEntry, Follows, Heading, Spaced, Blanks, Tabs, Regular, Indent;
    var nest := Tabs(t, 0);
    var s := t[nest..];
    HeadingNamedIff(st.table, st.ctx, nest, s, c, n);
    PartsSpelled(s, c, n);
    IndentSpelled(t);
    EntryFrom(t, s[..n - 1], s[n - 1..Blanks(s, n)], c, s[Blanks(s, n)..]);
  }

  lemma EntryFrom(t: string, u: string, gap: string, c: Context, name: string)
    requires t == Indent(Nest(c.cat)) + (u + (gap + name)) && Spaced(u, gap, c, name)
    ensures SpellsEntry(t, c, name)
  {
  }

  lemma QuietRow(st: State, t: string, d: Context) returns (row: Row)
    requires !Comment(t) && Heading(st.table, st.ctx, Tabs(t, 0), t[Tabs(t, 0)..]) == Quiet(d)
    ensures Spells(t, row) && Legal(st, row) && AfterRow(st, row) == State(d, st.table)
  {
    hide Heading, Digits, Find, VendorKey;
    var nest := Tabs(t, 0);
    QuietIff(st.table, st.ctx, nest, t[nest..], d);
    CommentIff(t);
    hide IsRemark;
    if nest > 0 { return Ignored(t); }
    assert t[nest..] == t;
    row := if ForeignHead(t) && d == st.ctx.(cat := ID_UNKNOWN) then Foreign(t) else SubsystemsOf(d.id1);
  }

  /** Every accepted line spells a row that may come next, and is read as it. */
  lemma AcceptedLine(st: State, t: string) returns (row: Row)
    requires Regular(st.ctx) && Line(st, t).Go?
    ensures Spells(t, row) && Legal(st, row) && Line(st, t) == Go(AfterRow(st, row))
  {
    hide SpellsEntry, Heading, Follows, MakeKey, Blanks, Digits, IsRemark;
    if Comment(t) {
      CommentIff(t);
      return Remark(t);
    }
    var nest := Tabs(t, 0);
    var s := t[nest..];
    match Heading(st.table, st.ctx, nest, s) {
      case Quiet(d) =>
        row := QuietRow(st, t, d);
      case Named(c, n) =>
        EntrySpelled(st, t, c, n);
        row := EntryRow(c, s[Blanks(s, n)..]);
    }
  }

  /** The line is an entry in its place whose key is stored. */
  ghost predicate Repeats(st: State, t: string, c: Context, name: string) {
    SpellsEntry(t, c, name) && Follows(st.ctx, c) && ContextKey(c) in st.table
  }

  /** A line is refused as a duplicate exactly when it repeats an entry ... */
  lemma DuplicateIff(st: State, t: string)
    requires Regular(st.ctx)
    ensures Line(st, t) == Stop(DuplicateEntry, st.table) <==>
            exists c, name :: Repeats(st, t, c, name)
  {
    hide SpellsEntry, MakeKey, Comment, Blanks;
    var nest := Tabs(t, 0);
    var s := t[nest..];
    HeadingErrors(st.table, st.ctx, nest, s);
    hide Heading;
    if c, name :| Repeats(st, t, c, name) {
      var _ := EntryRead(st, t, c, name);
    }
    if Line(st, t) == Stop(DuplicateEntry, st.table) {
      var h := Heading(st.table, st.ctx, nest, s);
      EntrySpelled(st, t, h.ctx, h.name);
      assert Repeats(st, t, h.ctx, s[Blanks(s, h.name)..]);
    }
  }

  lemma HeadingErrors(table: map<Key, Item>, ctx: Context, nest: nat, s: string)
    ensures var h := Heading(table, ctx, nest, s);
            && (h.Fail? ==> h.error == ParseError || h.error == VendorDoesNotExist)
            && (h == Fail(VendorDoesNotExist) <==>
                  nest == 0 && exists v: U16 ::
                    Spells(s, SubsystemsOf(v)) && Find(table, LOCAL_ONLY, VendorKey(v)) == None)
  {
    hide IdField, IdHex, HexNum, AllHex, MakeKey;
    forall v: U16 ensures IdHex(s, 2, 4) == Some(v) <==> |s| >= 6 && Digits(s[2..6], 4, v) { HexIff(s, 2, 4, v); }
    if |s| == 6 { assert s[2..] == s[2..6]; }
    if Heading(table, ctx, nest, s) == Fail(VendorDoesNotExist) {
      assert s[..2] == "S ";
      assert Spells(s, SubsystemsOf(IdHex(s, 2, 4).value));
    }
  }

  /** ... and for its vendor exactly when it is the heading of generic subsystems
      of one that is not stored. */
  lemma NoVendorIff(st: State, t: string)
    ensures Line(st, t) == Stop(VendorDoesNotExist, st.table) <==>
            exists v: U16 :: Spells(t, SubsystemsOf(v)) && Find(st.table, LOCAL_ONLY, VendorKey(v)) == None
  {
    hide Heading, Find, Digits, MakeKey, Comment, Tabs, Blanks;
    var nest := Tabs(t, 0);
    HeadingErrors(st.table, st.ctx, nest, t[nest..]);
    assert nest == 0 ==> t[nest..] == t;
    StartsWithS(t);
  }

  lemma StartsWithS(t: string)
    ensures |t| == 6 && t[..2] == "S " ==> !Comment(t) && Tabs(t, 0) == 0
  {
    if |t| == 6 && t[..2] == "S " { assert t[0] == t[..2][0]; }
  }

  /** Refusing a line leaves the table as it was. */
  lemma RefusalKeeps(st: State, t: string)
    ensures Line(st, t).Stop? ==> Line(st, t).table == st.table && Line(st, t).error != LineTooLong
  {
    hide Heading;
    HeadingErrors(st.table, st.ctx, Tabs(t, 0), t[Tabs(t, 0)..]);
  }

  /* ---- whole files ---- */

  lemma RegularNext(st: State, row: Row)
    requires Regular(st.ctx) && Legal(st, row)
    ensures Regular(AfterRow(st, row).ctx)
  {
  }

  /** The lines of the file from `pos` on spell the rows from k on, each in its
      place. */
  ghost predicate Tells(file: string, pos: nat, rows: seq<Row>, k: nat)
    requires pos <= |file| && k <= |rows|
    decreases |file| - pos
  {
    if pos == |file| then k == |rows|
    else
      var r := FGets(file, pos, MAX_LINE);
      && k < |rows| && LineText(r).Some? && Spells(LineText(r).value, rows[k]) && Legal(Through(rows, k), rows[k])
      && Tells(file, pos + |r.chunk|, rows, k + 1)
  }

  lemma {:induction false} ToldAccepted(file: string, pos: nat, rows: seq<Row>, k: nat)
    requires pos <= |file| && k <= |rows| && Tells(file, pos, rows, k) && Regular(Through(rows, k).ctx)
    ensures Lines(file, pos, Through(rows, k)) == Go(Through(rows, |rows|))
    decreases |file| - pos
  {
    hide FGets, LineText, Spells, Legal, Line, AfterRow, Regular;
    if pos < |file| {
      var r := FGets(file, pos, MAX_LINE);
      SpelledLine(Through(rows, k), LineText(r).value, rows[k]);
      RegularNext(Through(rows, k), rows[k]);
      ToldAccepted(file, pos + |r.chunk|, rows, k + 1);
    }
  }

  lemma {:induction false} ThroughPrefix(rows: seq<Row>, more: seq<Row>, n: nat)
    requires n <= |rows|
    ensures Through(rows + more, n) == Through(rows, n)
  {
    if n > 0 { ThroughPrefix(rows, more, n - 1); }
  }

  lemma {:induction false} AcceptedTold(file: string, pos: nat, before: seq<Row>) returns (rows: seq<Row>)
    requires pos <= |file| && Regular(Through(before, |before|).ctx) && Lines(file, pos, Through(before, |before|)).Go?
    ensures before <= rows && Tells(file, pos, rows, |before|)
    decreases |file| - pos
  {
    hide FGets, LineText, Spells, Legal, Line, AfterRow, Regular;
    rows := before;
    if pos < |file| {
      var r, n := FGets(file, pos, MAX_LINE), |before|;
      var row := AcceptedLine(Through(before, n), LineText(r).value);
      RegularNext(Through(before, n), row);
      ThroughPrefix(before, [row], n);
      rows := AcceptedTold(file, pos + |r.chunk|, before + [row]);
      var more := rows[n + 1..];
      assert rows == before + ([row] + more) && rows[n] == row;
      ThroughPrefix(before, [row] + more, n);
    }
  }

  /** A file is accepted, and leaves a table, if and only if its lines spell rows
      that are each in their place, and that table is what the rows store. */
  lemma AcceptedFileIff(file: string, st: State)
    ensures Lines(file, 0, START) == Go(st) <==>
            exists rows :: Tells(file, 0, rows, 0) && st == Through(rows, |rows|)
  {
    hide Lines, Tells;
    if rows :| Tells(file, 0, rows, 0) && st == Through(rows, |rows|) {
      ToldAccepted(file, 0, rows, 0);
    }
    if Lines(file, 0, START) == Go(st) {
      var rows := AcceptedTold(file, 0, []);
      ToldAccepted(file, 0, rows, 0);
    }
  }

  /** Where the buffer fills up without a line end, the file is refused. */
  lemma LongLineRefused(file: string, pos: nat, st: State)
    requires pos + MAX_LINE - 1 <= |file|
    requires forall i :: pos <= i < pos + MAX_LINE - 1 ==> file[i] != NUL && file[i] != '\n' && file[i] != '\r'
    ensures Lines(file, pos, st) == Stop(LineTooLong, st.table)
  {
    var r := FGets(file, pos, MAX_LINE);
    assert IndexOf(file, '\n', pos) >= pos + MAX_LINE - 1;
    assert forall i :: 0 <= i < |r.chunk| ==> r.chunk[i] == file[pos + i];
    assert |r.chunk| == MAX_LINE - 1 && !r.eof;
    assert EndOfLine(r.chunk, 0) == |r.chunk|;
  }
}

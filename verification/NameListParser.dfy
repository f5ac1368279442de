/** id_parse_list itself (lib/names-parse.c): the loops over lines and
    characters, working on the name table in place. */
module NameListParser {
  import opened CText
  import T = NameTable
  import opened NameList

  /** id_hex */
  method IdHexLoop(p: string, at: nat, cnt: nat) returns (r: Option<nat>)
    ensures r == IdHex(p, at, cnt)
  {
    var x, i := 0, 0;
    while i < cnt
      invariant 0 <= i <= cnt && (i > 0 ==> at + i <= |p|)
      invariant i > 0 ==> AllHex(p[at..at + i]) && x == HexNum(p[at..at + i])
      invariant i == 0 ==> x == 0
    {
      var c := At(p, at + i);
      if !IsHex(c) {
        assert at + cnt <= |p| ==> p[at..at + cnt][i] == c;
        return None;
      }
      assert p[at..at + (i + 1)] == p[at..at + i] + [c];
      assert p[at..at + (i + 1)][..i] == p[at..at + i];
      x := x * 16 + HexVal(c);
      i := i + 1;
    }
    if cnt == 0 {
      if at > |p| { return None; }
      assert p[at..at] == [];
    }
    r := Some(x);
  }

  method IdFieldLoop(p: string, at: nat, cnt: nat) returns (r: Option<nat>)
    ensures r == IdField(p, at, cnt)
  {
    r := IdHexLoop(p, at, cnt);
    if !IsBlank(At(p, at + cnt)) { r := None; }
  }

  method SkipBlanks(s: string, from: nat) returns (i: nat)
    requires from <= |s|
    ensures i == Blanks(s, from)
  {
    i := from;
    while i < |s| && IsBlank(s[i])
      invariant from <= i <= |s| && Blanks(s, from) == Blanks(s, i)
    {
      i := i + 1;
    }
  }

  method CountTabs(s: string) returns (i: nat)
    ensures i == Tabs(s, 0)
  {
    i := 0;
    while i < |s| && s[i] == '\t'
      invariant 0 <= i <= |s| && Tabs(s, 0) == Tabs(s, i)
    {
      i := i + 1;
    }
  }

  /** The top of the line loop: find the end of the line and cut it off,
      together with one blank before it. */
  method CutLine(r: Read) returns (t: Option<string>)
    ensures t == LineText(r)
    ensures t.Some? ==> |t.value| <= |r.chunk| && NoChar(t.value, NUL)
  {
    var p := 0;
    while p < |r.chunk| && r.chunk[p] != NUL && r.chunk[p] != '\n' && r.chunk[p] != '\r'
      invariant 0 <= p <= |r.chunk| && EndOfLine(r.chunk, 0) == EndOfLine(r.chunk, p)
    {
      p := p + 1;
    }
    if At(r.chunk, p) == NUL && !r.eof { return None; }
    if p > 0 && IsBlank(r.chunk[p - 1]) { p := p - 1; }
    t := Some(r.chunk[..p]);
  }

  /** The switch over indentation and category. */
  method ReadHeading(t: T.NameTable, ctx: Context, nest: nat, p: string) returns (h: Head)
    requires t.Valid()
    ensures h == Heading(t.contents, ctx, nest, p)
  {
    if nest == 0 {
      h := ReadTopLevel(t, ctx, p);
    } else if ctx.cat == T.ID_UNKNOWN {
      h := Quiet(ctx);
    } else if nest == 1 && T.ID_VENDOR <= ctx.cat <= T.ID_GEN_SUBSYSTEM {
      var id2 := IdFieldLoop(p, 0, 4);
      if id2 == None { return Fail(ParseError); }
      var cat: int := if ctx.cat == T.ID_GEN_SUBSYSTEM then T.ID_GEN_SUBSYSTEM else T.ID_DEVICE;
      h := Named(Context(cat, ctx.id1, id2.value, 0, 0), 5);
    } else if nest == 1 && T.ID_CLASS <= ctx.cat <= T.ID_PROGIF {
      var id2 := IdFieldLoop(p, 0, 2);
      if id2 == None { return Fail(ParseError); }
      h := Named(Context(T.ID_SUBCLASS, ctx.id1, id2.value, 0, 0), 3);
    } else if nest == 2 && T.ID_DEVICE <= ctx.cat <= T.ID_SUBSYSTEM {
      var id3 := IdFieldLoop(p, 0, 4);
      if id3 == None { return Fail(ParseError); }
      var id4 := IdFieldLoop(p, 5, 4);
      if id4 == None { return Fail(ParseError); }
      h := Named(Context(T.ID_SUBSYSTEM, ctx.id1, ctx.id2, id3.value, id4.value), 10);
    } else if nest == 2 && T.ID_CLASS <= ctx.cat <= T.ID_PROGIF {
      var id3 := IdFieldLoop(p, 0, 2);
      if id3 == None { return Fail(ParseError); }
      h := Named(Context(T.ID_PROGIF, ctx.id1, ctx.id2, id3.value, 0), 3);
    } else {
      h := Fail(ParseError);
    }
  }

  method ReadTopLevel(t: T.NameTable, ctx: Context, p: string) returns (h: Head)
    requires t.Valid()
    ensures h == TopLevel(t.contents, ctx, p)
  {
    if At(p, 0) == 'C' && At(p, 1) == ' ' {
      var id1 := IdFieldLoop(p, 2, 2);
      if id1 == None { return Fail(ParseError); }
      h := Named(Context(T.ID_CLASS, id1.value, 0, 0, 0), 5);
    } else if At(p, 0) == 'S' && At(p, 1) == ' ' {
      var id1 := IdHexLoop(p, 2, 4);
      if id1 == None || |p| != 6 { return Fail(ParseError); }
      var vendor := t.Lookup(LOCAL_ONLY, T.ID_VENDOR, id1.value, 0, 0, 0);
      if vendor == None { return Fail(VendorDoesNotExist); }
      h := Quiet(ctx.(cat := T.ID_GEN_SUBSYSTEM, id1 := id1.value));
    } else if 'A' <= At(p, 0) <= 'Z' && At(p, 1) == ' ' {
      h := Quiet(ctx.(cat := T.ID_UNKNOWN));
    } else {
      var id1 := IdFieldLoop(p, 0, 4);
      if id1 == None { return Fail(ParseError); }
      h := Named(Context(T.ID_VENDOR, id1.value, 0, 0, 0), 5);
    }
  }

  /** The body of the line loop, after the line has been cut. */
  method ParseLine(t: T.NameTable, ctx: Context, line: string) returns (err: Option<Error>, ctx': Context)
    requires t.Valid() && T.Storable(line)
    modifies t.Repr
    ensures t.Valid() && fresh(t.Repr - old(t.Repr))
    ensures match Line(State(ctx, old(t.contents)), line)
            case Stop(e, table) => err == Some(e) && t.contents == table
            case Go(st) => err == None && t.contents == st.table && ctx' == st.ctx
  {
    hide Heading, Blanks, Tabs;
    err, ctx' := None, ctx;
    var b := SkipBlanks(line, 0);
    if b == |line| || line[b] == '#' { return; }
    var nest := CountTabs(line);
    var p := line[nest..];
    var h := ReadHeading(t, ctx, nest, p);
    match h {
      case Fail(e) => err := Some(e);
      case Quiet(c) => ctx' := c;
      case Named(c, at) =>
        var start := SkipBlanks(p, at);
        if start == |p| { return Some(ParseError), ctx; }
        var dup := t.Insert(c.cat, c.id1, c.id2, c.id3, c.id4, p[start..], T.Local);
        if dup { return Some(DuplicateEntry), ctx; }
        ctx' := c;
    }
  }

  /** id_parse_list: reads the file to its end or to the first bad line. */
  method ParseList(t: T.NameTable, file: string) returns (err: Option<Error>, lino: nat)
    requires t.Valid()
    modifies t.Repr
    ensures t.Valid() && fresh(t.Repr - old(t.Repr))
    ensures match Lines(file, 0, State(NOWHERE, old(t.contents)))
            case Stop(e, table) => err == Some(e) && t.contents == table
            case Go(st) => err == None && t.contents == st.table
  {
    hide Line, LineText, FGets, T.NameTable.Valid;
    var pos, ctx := 0, NOWHERE;
    lino := 0;
    while pos < |file|
      invariant 0 <= pos <= |file|
      invariant t.Valid() && fresh(t.Repr - old(t.Repr))
      invariant Lines(file, 0, State(NOWHERE, old(t.contents))) == Lines(file, pos, State(ctx, t.contents))
    {
      lino := lino + 1;
      var r := FGets(file, pos, MAX_LINE);
      var line := CutLine(r);
      if line == None { return Some(LineTooLong), lino; }
      err, ctx := ParseLine(t, ctx, line.value);
      if err.Some? { return; }
      pos := pos + |r.chunk|;
    }
    err := None;
  }
}

/** Parsing the ID list (lib/names-parse.c, id_parse_list): an indentation-driven
    grammar over bounded lines, filling the name table. */
module NameList {
  import opened Config
  import opened CText
  import opened NameTable

  predicate IsBlank(c: char) { c == ' ' || c == '\t' }

  /** The category and ids in force, i.e. of the last heading or entry. */
  datatype Context = Context(cat: int, id1: U16, id2: U16, id3: U16, id4: U16)

  /** Before any heading. */
  const NOWHERE := Context(-1, 0, 0, 0, 0)

  datatype Error = LineTooLong | ParseError | VendorDoesNotExist | DuplicateEntry

  /* ---- one line ---- */

  /** The first NUL, newline or carriage return of a line buffer. */
  function EndOfLine(chunk: string, i: nat): (e: nat)
    requires i <= |chunk|
    ensures i <= e <= |chunk|
    ensures e < |chunk| ==> chunk[e] == NUL || chunk[e] == '\n' || chunk[e] == '\r'
    ensures forall k :: i <= k < e ==> chunk[k] != NUL && chunk[k] != '\n' && chunk[k] != '\r'
    decreases |chunk| - i
  {
    if i == |chunk| || chunk[i] == NUL || chunk[i] == '\n' || chunk[i] == '\r' then i else EndOfLine(chunk, i + 1)
  }

  /** The text of a line: without its end and without one trailing blank.
      None when the buffer does not hold the whole line. */
  function LineText(r: Read): Option<string> {
    var e := EndOfLine(r.chunk, 0);
    if At(r.chunk, e) == NUL && !r.eof then None
    else Some(r.chunk[..if e > 0 && IsBlank(r.chunk[e - 1]) then e - 1 else e])
  }

  function Blanks(s: string, i: nat): (j: nat)
    requires i <= |s|
    ensures i <= j <= |s| && (j < |s| ==> !IsBlank(s[j])) && forall k :: i <= k < j ==> IsBlank(s[k])
    decreases |s| - i
  {
    if i < |s| && IsBlank(s[i]) then Blanks(s, i + 1) else i
  }

  function Tabs(s: string, i: nat): (j: nat)
    requires i <= |s|
    ensures i <= j <= |s| && (j < |s| ==> s[j] != '\t') && forall k :: i <= k < j ==> s[k] == '\t'
    decreases |s| - i
  {
    if i < |s| && s[i] == '\t' then Tabs(s, i + 1) else i
  }

  /** id_hex: w hexadecimal digits at s[i..]. */
  function IdHex(s: string, i: nat, w: nat): (r: Option<nat>)
    ensures r.Some? ==> i + w <= |s|
    ensures r.Some? && w == 2 ==> r.value < 0x100
    ensures r.Some? && w == 4 ==> r.value < 0x1_0000
  {
    if i + w <= |s| && AllHex(s[i..i + w]) then
      HexNumBound(s[i..i + w]);
      Pow16Values();
      Some(HexNum(s[i..i + w]))
    else None
  }

  /** id_hex at s[i..], with a blank behind it. */
  function IdField(s: string, i: nat, w: nat): (r: Option<nat>)
    ensures r.Some? ==> i + w < |s|
    ensures r.Some? && w == 2 ==> r.value < 0x100
    ensures r.Some? && w == 4 ==> r.value < 0x1_0000
  {
    if IsBlank(At(s, i + w)) then IdHex(s, i, w) else None
  }

  /** What a line with nested or top-level text s turns out to be: an error, a
      line that stores nothing, or an entry whose name starts at s[name..]. */
  datatype Head = Fail(error: Error) | Quiet(ctx: Context) | Named(ctx: Context, name: nat)

  predicate In(cat: int, a: int, b: int) { a <= cat <= b }

  /** Lines that are not indented. */
  function TopLevel(table: map<Key, Item>, ctx: Context, s: string): (h: Head)
    ensures h.Named? ==> h.name <= |s| && In(h.ctx.cat, ID_VENDOR, ID_PROGIF)
  {
    if At(s, 0) == 'C' && At(s, 1) == ' ' then
      var id := IdField(s, 2, 2);
      if id == None then Fail(ParseError) else Named(Context(ID_CLASS, id.value, 0, 0, 0), 5)
    else if At(s, 0) == 'S' && At(s, 1) == ' ' then
      var id := IdHex(s, 2, 4);
      if id == None || |s| != 6 then Fail(ParseError)
      else if Find(table, LOCAL_ONLY, MakeKey(ID_VENDOR, id.value, 0, 0, 0)) == None then Fail(VendorDoesNotExist)
      else Quiet(ctx.(cat := ID_GEN_SUBSYSTEM, id1 := id.value))
    else if 'A' <= At(s, 0) <= 'Z' && At(s, 1) == ' ' then
      Quiet(ctx.(cat := ID_UNKNOWN))
    else
      var id := IdField(s, 0, 4);
      if id == None then Fail(ParseError) else Named(Context(ID_VENDOR, id.value, 0, 0, 0), 5)
  }

  /** pci_id_lookup with no flags. */
  const LOCAL_ONLY := Flags(false, false, false, false, false)

  /** Lines indented by `nest` tabs. */
  function Nested(ctx: Context, nest: nat, s: string): (h: Head)
    ensures h.Named? ==> h.name <= |s| && In(h.ctx.cat, ID_VENDOR, ID_PROGIF)
  {
    if ctx.cat == ID_UNKNOWN then Quiet(ctx)
    else if nest == 1 && In(ctx.cat, ID_VENDOR, ID_GEN_SUBSYSTEM) then
      var id := IdField(s, 0, 4);
      if id == None then Fail(ParseError)
      else Named(Context(if ctx.cat == ID_GEN_SUBSYSTEM then ctx.cat else ID_DEVICE, ctx.id1, id.value, 0, 0), 5)
    else if nest == 1 && In(ctx.cat, ID_CLASS, ID_PROGIF) then
      var id := IdField(s, 0, 2);
      if id == None then Fail(ParseError) else Named(Context(ID_SUBCLASS, ctx.id1, id.value, 0, 0), 3)
    else if nest == 2 && In(ctx.cat, ID_DEVICE, ID_SUBSYSTEM) then
      var id, id' := IdField(s, 0, 4), IdField(s, 5, 4);
      if id == None || id' == None then Fail(ParseError)
      else Named(Context(ID_SUBSYSTEM, ctx.id1, ctx.id2, id.value, id'.value), 10)
    else if nest == 2 && In(ctx.cat, ID_CLASS, ID_PROGIF) then
      var id := IdField(s, 0, 2);
      if id == None then Fail(ParseError) else Named(Context(ID_PROGIF, ctx.id1, ctx.id2, id.value, 0), 3)
    else Fail(ParseError)
  }

  function Heading(table: map<Key, Item>, ctx: Context, nest: nat, s: string): (h: Head)
    ensures h.Named? ==> h.name <= |s| && In(h.ctx.cat, ID_VENDOR, ID_PROGIF)
  {
    if nest == 0 then TopLevel(table, ctx, s) else Nested(ctx, nest, s)
  }

  function ContextKey(c: Context): Key
    requires 0 <= c.cat < 256
  {
    MakeKey(c.cat, c.id1, c.id2, c.id3, c.id4)
  }

  /** The parser between two lines. */
  datatype State = State(ctx: Context, table: map<Key, Item>)
  datatype Outcome = Stop(error: Error, table: map<Key, Item>) | Go(state: State)

  predicate Comment(t: string) {
    var b := Blanks(t, 0);
    b == |t| || t[b] == '#'
  }

  /** The effect of one line of text. */
  function Line(st: State, t: string): Outcome {
    if Comment(t) then Go(st)
    else
      var nest := Tabs(t, 0);
      var s := t[nest..];
      match Heading(st.table, st.ctx, nest, s)
      case Fail(e) => Stop(e, st.table)
      case Quiet(ctx) => Go(State(ctx, st.table))
      case Named(ctx, name) =>
        var start := Blanks(s, name);
        if start == |s| then Stop(ParseError, st.table)
        else if ContextKey(ctx) in st.table then Stop(DuplicateEntry, st.table)
        else Go(State(ctx, st.table[ContextKey(ctx) := Item(s[start..], Local)]))
  }

  /** The effect of the line buffer that one read filled. */
  function Buffer(st: State, r: Read): Outcome {
    var t := LineText(r);
    if t == None then Stop(LineTooLong, st.table) else Line(st, t.value)
  }

  /** The effect of the file from `pos` on. */
  function Lines(file: string, pos: nat, st: State): Outcome
    requires pos <= |file|
    decreases |file| - pos
  {
    if pos == |file| then Go(st)
    else
      var r := FGets(file, pos, MAX_LINE);
      var o := Buffer(st, r);
      if o.Go? then Lines(file, pos + |r.chunk|, o.state) else o
  }
}

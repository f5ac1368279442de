/** Hexadecimal dumps of configuration space: printed by src/adna.c
    (show_hex_dump), read back by the dump back-end of the library (lib/dump.c). */
module Dump {
  import opened Config
  import opened CText
  import C = ConfigCache

  const BUFFER := 255
  const MAX_CONFIG := 4096

  /** struct dump_data; `allocated` is |data|. */
  datatype Data = Data(len: nat, data: seq<Byte>)

  /** A device of the dump. */
  datatype Device = Device(domain: nat, bus: nat, dev: nat, func: nat, dd: Data)

  datatype Error = LineTooLong | TooMuch | Malformed

  /** dump_alloc_data */
  function Alloc(n: nat): (d: Data)
    ensures d.len == 0 && |d.data| == n
  {
    Data(0, seq(n, _ => 0xff))
  }

  /* ---- what a line means ---- */

  /** dump_validate: '#' stands for a hexadecimal digit. */
  predicate Validate(s: string, fmt: string, i: nat)
    requires i <= |fmt|
    decreases |fmt| - i
  {
    i == |fmt| || ((if fmt[i] == '#' then IsHex(At(s, i)) else At(s, i) == fmt[i]) && Validate(s, fmt, i + 1))
  }

  /** The number the hexadecimal digits at s[i..] stand for. */
  function HexAt(s: string, i: nat): nat {
    if i <= |s| then HexNum(s[i..i + HexRun(s, i)]) else 0
  }

  /** The device a header line announces. The function number is read as a
      decimal, so a line with a letter there is no header. */
  function Header(s: string): Option<Device> {
    if Validate(s, "##:##.# ", 0) && IsDec(At(s, 6)) then
      Some(Device(0, HexAt(s, 0), HexAt(s, 3), At(s, 6) as int - '0' as int, Alloc(256)))
    else if Validate(s, "####:##:##.# ", 0) && IsDec(At(s, 11)) then
      Some(Device(HexAt(s, 0), HexAt(s, 5), HexAt(s, 8), At(s, 11) as int - '0' as int, Alloc(256)))
    else if Validate(s, "#####:##:##.# ", 0) && IsDec(At(s, 12)) then
      Some(Device(HexAt(s, 0), HexAt(s, 6), HexAt(s, 9), At(s, 12) as int - '0' as int, Alloc(256)))
    else None
  }

  /** Two digits and the end of a column at s[z..]. */
  predicate Column(s: string, z: nat) {
    IsHex(At(s, z)) && IsHex(At(s, z + 1)) && (At(s, z + 2) == NUL || At(s, z + 2) == ' ')
  }

  /** The value of a column. */
  function TwoDigits(a: char, b: char): Byte
    requires IsHex(a) && IsHex(b)
  {
    HexVal(a) * 16 + HexVal(b)
  }

  /** Writing a byte at i, in a larger buffer when the present one is full: the
      new buffer keeps the first 256 bytes, but its length starts at 0 again. */
  function Put(dd: Data, i: nat, j: Byte): (d: Data)
    requires i < MAX_CONFIG && |dd.data| >= 256
    ensures |d.data| >= |dd.data| || |d.data| == MAX_CONFIG
    ensures i < |d.data|
  {
    var big := if i >= |dd.data| then Data(0, dd.data[..256] + Alloc(MAX_CONFIG).data[256..]) else dd;
    Data(if i + 1 > big.len then i + 1 else big.len, big.data[i := j])
  }

  /** A device being filled, or the error that ends the program. */
  datatype Filled = Good(dd: Data) | Bad(error: Error)

  /** The columns of a data line from z on; the next goes to address i. */
  function Columns(s: string, z: nat, i: nat, dd: Data): (f: Filled)
    requires z <= |s| && |dd.data| >= 256
    ensures f.Good? ==> |f.dd.data| >= 256
    decreases |s| - z
  {
    if !Column(s, z) then (if z < |s| && s[z] != NUL then Bad(Malformed) else Good(dd))
    else if i >= MAX_CONFIG then Bad(TooMuch)
    else
      Columns(s, if At(s, z + 2) == NUL then z + 2 else z + 3, i + 1, Put(dd, i, TwoDigits(s[z], s[z + 1])))
  }

  /** A line "xx: ..." or "xxx: ...". */
  predicate DataLine(s: string) {
    Validate(s, "##: ", 0) || Validate(s, "###: ", 0)
  }

  /** The devices, newest first, and whether data lines still belong to the newest. */
  datatype State = State(devices: seq<Device>, open: bool)
  datatype Outcome = Go(st: State) | Stop(error: Error)

  predicate Sane(st: State) {
    (st.open ==> |st.devices| > 0) && forall d | d in st.devices :: |d.dd.data| >= 256
  }

  /** The effect of one line of text. */
  function Line(st: State, s: string): (o: Outcome)
    requires Sane(st)
    ensures o.Go? ==> Sane(o.st)
  {
    var h := Header(s);
    if h.Some? then Go(State([h.value] + st.devices, true))
    else if s == "" then Go(st.(open := false))
    else if st.open && DataLine(s) then
      var d := st.devices[0];
      var z := IndexOf(s, ' ', 0);
      match Columns(s, if z < |s| then z + 1 else z, HexAt(s, 0), d.dd)
      case Bad(e) => Stop(e)
      case Good(dd) => Go(st.(devices := [d.(dd := dd)] + st.devices[1..]))
    else Go(st)
  }

  /** The text of a line buffer, without newline and carriage return. */
  function LineText(chunk: string): Option<string> {
    var c := chunk[..IndexOf(chunk, NUL, 0)];
    var n := IndexOf(c, '\n', 0);
    if n == |c| then None else Some(c[..if n > 0 && c[n - 1] == '\r' then n - 1 else n])
  }

  function Buffer(st: State, chunk: string): (o: Outcome)
    requires Sane(st)
    ensures o.Go? ==> Sane(o.st)
  {
    if LineText(chunk) == None then Stop(LineTooLong) else Line(st, LineText(chunk).value)
  }

  /** The effect of the file from `pos` on. */
  function Lines(file: string, pos: nat, st: State): Outcome
    requires pos <= |file| && Sane(st)
    decreases |file| - pos
  {
    if pos == |file| then Go(st)
    else
      var chunk := FGets(file, pos, BUFFER).chunk;
      var o := Buffer(st, chunk);
      if o.Go? then Lines(file, pos + |chunk|, o.st) else o
  }

  /** dump_read: the bytes of a device, when the dump has all of them. */
  function Read_(d: Device, pos: nat, len: nat): (r: Option<seq<Byte>>)
    requires d.dd.len <= |d.dd.data|
    ensures r.Some? <==> pos + len <= d.dd.len
  {
    if pos + len > d.dd.len then None else Some(d.dd.data[pos..pos + len])
  }

  /* ---- the reader ---- */

  /** struct pci_access with the dump back-end. */
  class Access {
    var devices: seq<Device>
    var open: bool

    function Value(): State
      reads this
    {
      State(devices, open)
    }

    constructor ()
      ensures Value() == State([], false)
    {
      devices, open := [], false;
    }

    /** The column loop of dump_init. */
    method FillColumns(s: string, z0: nat, i0: nat) returns (err: Option<Error>)
      requires Sane(Value()) && open && z0 <= |s|
      modifies this`devices
      ensures match Columns(s, z0, i0, old(devices[0].dd))
              case Bad(e) => err == Some(e)
              case Good(dd) => err == None && devices == [old(devices[0]).(dd := dd)] + old(devices[1..])
    {
      hide Put;
      var z, i := z0, i0;
      while Column(s, z)
        invariant z0 <= z <= |s| && 0 <= i
        invariant |devices| > 0 && |devices[0].dd.data| >= 256
        invariant devices == [old(devices[0]).(dd := devices[0].dd)] + old(devices[1..])
        invariant Columns(s, z, i, devices[0].dd) == Columns(s, z0, i0, old(devices[0].dd))
        decreases |s| - z
      {
        if i >= MAX_CONFIG { return Some(TooMuch); }
        var dd := Put(devices[0].dd, i, TwoDigits(s[z], s[z + 1]));
        devices := devices[0 := devices[0].(dd := dd)];
        i := i + 1;
        z := z + 2;
        if At(s, z) != NUL { z := z + 1; }
      }
      err := if z < |s| && s[z] != NUL then Some(Malformed) else None;
    }

    /** The body of the line loop of dump_init. */
    method TakeLine(s: string) returns (err: Option<Error>)
      requires Sane(Value())
      modifies this
      ensures match Line(old(Value()), s)
              case Stop(e) => err == Some(e)
              case Go(st) => err == None && Value() == st
    {
      hide Header, Columns, DataLine;
      err := None;
      var h := Header(s);
      if h.Some? {
        devices, open := [h.value] + devices, true;
      } else if s == "" {
        open := false;
      } else if open && DataLine(s) {
        var z := IndexOf(s, ' ', 0);
        err := FillColumns(s, if z < |s| then z + 1 else z, HexAt(s, 0));
      }
    }

    /** dump_init */
    method Init(file: string) returns (err: Option<Error>)
      requires Sane(Value())
      modifies this
      ensures match Lines(file, 0, old(Value()))
              case Stop(e) => err == Some(e)
              case Go(st) => err == None && Value() == st
    {
      hide Line, LineText, FGets;
      var pos := 0;
      while pos < |file|
        invariant 0 <= pos <= |file| && Sane(Value())
        invariant Lines(file, 0, old(Value())) == Lines(file, pos, Value())
      {
        var chunk := FGets(file, pos, BUFFER).chunk;
        var s := LineText(chunk);
        if s == None { return Some(LineTooLong); }
        err := TakeLine(s.value);
        if err.Some? { return; }
        pos := pos + |chunk|;
      }
      err := None;
    }
  }

  /* ---- the writer ---- */

  /** What is printed before the column of address k, the column, and what is
      printed behind it. */
  function Label(k: nat): string { if k % 16 == 0 then HexPad(k, 2) + ":" else "" }
  function Cell(b: Byte): string { " " + HexPad(b, 2) }
  function LineEnd(k: nat): string { if k % 16 == 15 then "\n" else "" }

  /** What show_hex_dump has printed after the first i bytes. */
  function Body(image: seq<Byte>, i: nat): string
    requires i <= |image|
  {
    if i == 0 then "" else Body(image, i - 1) + Label(i - 1) + Cell(image[i - 1]) + LineEnd(i - 1)
  }

  lemma BodyStep(image: seq<Byte>, i: nat)
    requires i <= |image|
    ensures Body(image, 0) == ""
    ensures i < |image| ==> Body(image, i + 1) == Body(image, i) + Label(i) + Cell(image[i]) + LineEnd(i)
  {
  }

  lemma Pieces(i: nat, b: Byte)
    ensures Label(i) == if i % 16 == 0 then HexPad(i, 2) + ":" else ""
    ensures Cell(b) == " " + HexPad(b, 2)
    ensures LineEnd(i) == if i % 16 == 15 then "\n" else ""
    ensures forall s: string :: s + "" == s
  {
  }

  /** The first n bytes of the hardware. */
  function Image(hw: nat -> Byte, n: nat): (image: seq<Byte>)
    ensures |image| == n && forall k :: 0 <= k < n ==> image[k] == hw(k)
  {
    seq(n, k requires 0 <= k => hw(k))
  }

  /** show_hex_dump on a scanned device: the standard 256 bytes, or all 4096 when
      they are asked for and can be fetched, as the hardware has them. The byte
      reads never end in the internal-bug exit. */
  method ShowHexDump(d: C.Device, optHex: nat) returns (out: string, ghost image: seq<Byte>)
    requires d.Valid() && forall k :: 0 <= k < 256 ==> d.Has(k)
    modifies d`readCount, d`config, d`present, d.config, d.present
    ensures d.Valid() && image == Image(d.hw, |image|) && out == Body(image, |image|)
    ensures |image| == 256 || |image| == MAX_CONFIG
    ensures |image| == MAX_CONFIG <==> optHex >= 4 && forall k :: 0 <= k < MAX_CONFIG ==> d.Has(k)
  {
    var cnt := DumpSize(d, optHex);
    image := Image(d.hw, cnt);
    label Sized:
    out := PrintHex(d, cnt, image);
    assert forall k: nat :: d.Has(k) <==> old@Sized(d.Has(k));
  }

  /** How many bytes are printed, after the fetches that this takes. */
  method DumpSize(d: C.Device, optHex: nat) returns (cnt: nat)
    requires d.Valid() && forall k :: 0 <= k < 256 ==> d.Has(k)
    modifies d`readCount, d`config, d`present, d.config, d.present
    ensures d.Valid() && (cnt == 256 || cnt == MAX_CONFIG)
    ensures cnt == MAX_CONFIG <==> optHex >= 4 && forall k :: 0 <= k < MAX_CONFIG ==> d.Has(k)
    ensures forall k :: 0 <= k < cnt ==> d.Has(k)
  {
    cnt := 256;
    if optHex >= 3 {
      var ok := FetchAll(d, cnt, 256);
      if ok {
        cnt := 256;
        if optHex >= 4 {
          var more := FetchAll(d, 256, MAX_CONFIG);
          if more { cnt := MAX_CONFIG; }
        }
      }
    }
  }

  /** config_fetch for [from, to) behind bytes that are present. */
  method FetchAll(d: C.Device, from: nat, to: nat) returns (ok: bool)
    requires d.Valid() && from <= to <= MAX_CONFIG && forall k :: 0 <= k < from ==> d.Has(k)
    modifies d`readCount, d`config, d`present, d.config, d.present
    ensures d.Valid()
    ensures (d.config == old(d.config) || fresh(d.config)) && (d.present == old(d.present) || fresh(d.present))
    ensures ok <==> forall k :: 0 <= k < to ==> d.Has(k)
    ensures forall k :: 0 <= k < from ==> d.Has(k)
    ensures from == to ==> ok
  {
    ghost var p, n;
    ok, p, n := d.Fetch(from, to - from);
    if !ok { assert n > 0 && !d.Has(p); }
  }

  /** Its printing loop. */
  method PrintHex(d: C.Device, cnt: nat, ghost image: seq<Byte>) returns (out: string)
    requires d.Valid() && image == Image(d.hw, cnt) && forall k :: 0 <= k < cnt ==> d.Has(k)
    ensures out == Body(image, cnt)
  {
    hide HexPad, Body, Label, Cell, LineEnd;
    out := "";
    assert Body(image, 0) == "" by { BodyStep(image, 0); }
    var i := 0;
    while i < cnt
      invariant 0 <= i <= cnt && out == Body(image, i)
    {
      ghost var before := out;
      assert d.Has(i);
      var b := d.GetByte(i);
      BodyStep(image, i);
      Pieces(i, image[i]);
      if i % 16 == 0 { out := out + (HexPad(i, 2) + ":"); }
      out := out + (" " + HexPad(b.value, 2));
      if i % 16 == 15 { out := out + "\n"; }
      assert out == before + Label(i) + Cell(image[i]) + LineEnd(i);
      i := i + 1;
    }
  }

  /** n columns from address i on. */
  function Cells(image: seq<Byte>, i: nat, n: nat): string
    requires i + n <= |image|
    decreases n
  {
    if n == 0 then "" else Cell(image[i]) + Cells(image, i + 1, n - 1)
  }

  /** The row of 16 bytes at address a, without its newline. */
  function Row(image: seq<Byte>, a: nat): string
    requires a + 16 <= |image|
  {
    HexPad(a, 2) + ":" + Cells(image, a, 16)
  }

  /** The rows from address a to the end. */
  function Rows(image: seq<Byte>, a: nat): string
    requires a <= |image| && (|image| - a) % 16 == 0
    decreases |image| - a
  {
    if a == |image| then "" else Row(image, a) + "\n" + Rows(image, a + 16)
  }

  lemma NoCells(image: seq<Byte>, i: nat)
    requires i <= |image|
    ensures Cells(image, i, 0) == "" && forall s: string :: s + "" == s && "" + s == s
  {
  }

  lemma CellsFirst(image: seq<Byte>, i: nat, n: nat)
    requires n > 0 && i + n <= |image|
    ensures Cells(image, i, n) == Cell(image[i]) + Cells(image, i + 1, n - 1)
  {
  }

  lemma {:induction false} CellsGrow(image: seq<Byte>, i: nat, n: nat)
    requires i + n < |image|
    ensures Cells(image, i, n + 1) == Cells(image, i, n) + Cell(image[i + n])
    decreases n
  {
    hide Cell, Cells;
    CellsFirst(image, i, n + 1);
    if n == 0 {
      NoCells(image, i);
      NoCells(image, i + 1);
    } else {
      CellsGrow(image, i + 1, n - 1);
      CellsFirst(image, i, n);
    }
  }

  /** Inside a row the body is the rows before, the address and some cells. */
  lemma {:induction false} BodyInRow(image: seq<Byte>, a: nat, n: nat)
    requires a % 16 == 0 && n < 16 && a + n < |image|
    ensures Body(image, a + n) + Label(a + n) + Cell(image[a + n]) ==
            Body(image, a) + Label(a) + Cells(image, a, n + 1)
    decreases n
  {
    hide Cell, Label, LineEnd;
    if n == 0 {
      assert Cells(image, a, 1) == Cell(image[a]) + "";
    } else {
      NoLabel(a, n);
      BodyInRow(image, a, n - 1);
      CellsGrow(image, a, n);
    }
  }

  lemma NoLabel(a: nat, n: nat)
    requires a % 16 == 0 && 0 < n < 16
    ensures Label(a + n) == "" && LineEnd(a + n - 1) == ""
  {
    assert (a + n) % 16 == n && (a + n - 1) % 16 == n - 1;
  }

  lemma BodyRow(image: seq<Byte>, a: nat)
    requires a % 16 == 0 && a + 16 <= |image|
    ensures Body(image, a + 16) == Body(image, a) + (Row(image, a) + "\n")
  {
    hide HexPad, Cell, Cells, LineEnd, Label;
    RowEnds(a);
    BodyInRow(image, a, 15);
    var b := Body(image, a);
    assert Body(image, a + 16) == b + (HexPad(a, 2) + ":") + Cells(image, a, 16) + "\n";
  }

  lemma RowEnds(a: nat)
    requires a % 16 == 0
    ensures Label(a) == HexPad(a, 2) + ":" && LineEnd(a + 15) == "\n"
  {
    hide HexPad;
    assert (a + 15) % 16 == 15;
  }

  /** The printed body is its rows. */
  lemma {:induction false} BodyIsRows(image: seq<Byte>, a: nat)
    requires a % 16 == 0 && a <= |image| && (|image| - a) % 16 == 0
    ensures Body(image, |image|) == Body(image, a) + Rows(image, a)
    decreases |image| - a
  {
    hide Row, Body;
    if a < |image| {
      BodyRow(image, a);
      BodyIsRows(image, a + 16);
    }
  }

  /* ---- there and back ---- */

  lemma CellDigits(b: Byte)
    ensures var s := HexPad(b, 2);
            |s| == 2 && IsHex(s[0]) && IsHex(s[1]) && TwoDigits(s[0], s[1]) == b
  {
    var s := HexPad(b, 2);
    Pow16Values();
    HexPadValue(b, 2);
    assert s[..1][..0] == [] && HexNum(s[..1]) == HexVal(s[0]);
  }

  /** Writing n bytes of the image, one after the other. */
  function Store(dd: Data, image: seq<Byte>, i: nat, n: nat): (d: Data)
    requires i + n <= |image| <= MAX_CONFIG && |dd.data| >= 256
    ensures |d.data| >= 256
    decreases n
  {
    if n == 0 then dd else Store(Put(dd, i, image[i]), image, i + 1, n - 1)
  }

  /** The first i bytes of the image have been read, and nothing else. */
  ghost predicate Loaded(dd: Data, image: seq<Byte>, i: nat)
    requires i <= |image| <= MAX_CONFIG
  {
    dd.len == i && |dd.data| == (if i <= 256 then 256 else MAX_CONFIG) && dd.data[..i] == image[..i]
  }

  /** Also when the write at 256 moves the data to a new buffer. */
  lemma PutLoads(dd: Data, image: seq<Byte>, i: nat)
    requires i < |image| <= MAX_CONFIG && Loaded(dd, image, i)
    ensures Loaded(Put(dd, i, image[i]), image, i + 1)
  {
    var d := Put(dd, i, image[i]);
    assert image[..i + 1] == image[..i] + [image[i]];
    assert d.data[..i] == dd.data[..i];
    assert d.data[..i + 1] == d.data[..i] + [d.data[i]];
  }

  lemma {:induction false} StoreLoads(dd: Data, image: seq<Byte>, i: nat, n: nat)
    requires i + n <= |image| <= MAX_CONFIG && Loaded(dd, image, i)
    ensures Loaded(Store(dd, image, i, n), image, i + n)
    decreases n
  {
    hide Put, Loaded;
    LoadedRoom(dd, image, i);
    if n > 0 {
      PutLoads(dd, image, i);
      StoreLoads(Put(dd, i, image[i]), image, i + 1, n - 1);
    }
  }

  lemma LoadedRoom(dd: Data, image: seq<Byte>, i: nat)
    requires i <= |image| <= MAX_CONFIG && Loaded(dd, image, i)
    ensures |dd.data| >= 256
  {
  }

  /** Where a printed cell stands in a line, the column loop finds its byte and
      the next cell, or the end. */
  lemma CellReads(pre: string, b: Byte, rest: string)
    requires rest == "" || rest[0] == ' '
    ensures var s := pre + (Cell(b) + rest);
            var z := |pre| + 1;
            && z + 2 <= |s| && Column(s, z) && TwoDigits(s[z], s[z + 1]) == b
            && (if rest == "" then At(s, z + 2) == NUL && z + 2 == |s| else At(s, z + 2) == ' ')
            && |pre + Cell(b)| == z + 2
  {
    CellDigits(b);
    var h := HexPad(b, 2);
    var s := pre + (Cell(b) + rest);
    var z := |pre| + 1;
    assert s[z] == h[0] && s[z + 1] == h[1];
    assert rest != "" ==> s[z + 2] == rest[0];
    hide HexPad;
  }

  lemma CellsStart(image: seq<Byte>, i: nat, n: nat)
    requires i + n <= |image|
    ensures n > 0 ==> Cells(image, i, n) != "" && Cells(image, i, n)[0] == ' '
    ensures n == 0 ==> Cells(image, i, n) == ""
  {
  }

  lemma ColumnsStep(s: string, z: nat, z': nat, i: nat, dd: Data, b: Byte)
    requires z + 2 <= z' <= |s| && |dd.data| >= 256 && i < MAX_CONFIG
    requires Column(s, z) && TwoDigits(s[z], s[z + 1]) == b
    requires z' == if At(s, z + 2) == NUL then z + 2 else z + 3
    ensures Columns(s, z, i, dd) == Columns(s, z', i + 1, Put(dd, i, b))
  {
    hide Put, TwoDigits;
  }

  lemma {:induction false} ColumnsRead(pre: string, image: seq<Byte>, i: nat, n: nat, dd: Data)
    requires 0 < n && i + n <= |image| <= MAX_CONFIG && |dd.data| >= 256
    ensures var s := pre + Cells(image, i, n);
            |pre| + 1 <= |s| && Columns(s, |pre| + 1, i, dd) == Good(Store(dd, image, i, n))
    decreases n
  {
    hide Cell, Column, Put, TwoDigits, Columns;
    var rest := Cells(image, i + 1, n - 1);
    var s := pre + Cells(image, i, n);
    var z := |pre| + 1;
    CellsStart(image, i + 1, n - 1);
    CellReads(pre, image[i], rest);
    var next := Put(dd, i, image[i]);
    if n == 1 {
      ColumnsStep(s, z, z + 2, i, dd, image[i]);
      ColumnsEnd(s, i + 1, next);
    } else {
      ColumnsStep(s, z, z + 3, i, dd, image[i]);
      ColumnsRead(pre + Cell(image[i]), image, i + 1, n - 1, next);
      assert s == pre + Cell(image[i]) + rest;
    }
  }

  lemma ColumnsEnd(s: string, i: nat, dd: Data)
    requires |dd.data| >= 256
    ensures Columns(s, |s|, i, dd) == Good(dd)
  {
  }

  lemma CellPlain(b: Byte)
    ensures Plain(Cell(b)) && |Cell(b)| == 3
  {
    CellDigits(b);
  }

  lemma {:induction false} CellsPlain(image: seq<Byte>, i: nat, n: nat)
    requires i + n <= |image|
    ensures Plain(Cells(image, i, n)) && |Cells(image, i, n)| == 3 * n
    decreases n
  {
    hide HexPad, Cells, Cell;
    if n == 0 {
      NoCells(image, i);
    } else {
      CellsFirst(image, i, n);
      CellPlain(image[i]);
      CellsPlain(image, i + 1, n - 1);
    }
  }

  /** The character at i is what the format asks for. */
  predicate Fits(s: string, fmt: string, i: nat)
    requires i < |fmt|
  {
    if fmt[i] == '#' then IsHex(At(s, i)) else At(s, i) == fmt[i]
  }

  lemma {:induction false} ValidateMeans(s: string, fmt: string, i: nat)
    requires i <= |fmt|
    ensures Validate(s, fmt, i) <==> forall k :: i <= k < |fmt| ==> Fits(s, fmt, k)
    decreases |fmt| - i
  {
    if i < |fmt| {
      ValidateMeans(s, fmt, i + 1);
      assert Validate(s, fmt, i) <==> Fits(s, fmt, i) && Validate(s, fmt, i + 1);
    }
  }

  lemma ShortAddressRow(s: string)
    requires |s| >= 4 && IsHex(s[0]) && IsHex(s[1]) && s[2] == ':' && s[3] == ' '
    ensures Header(s) == None && DataLine(s)
  {
    ValidateMeans(s, "##:##.# ", 0);
    ValidateMeans(s, "####:##:##.# ", 0);
    ValidateMeans(s, "#####:##:##.# ", 0);
    ValidateMeans(s, "##: ", 0);
    assert !Fits(s, "##:##.# ", 3) && !Fits(s, "####:##:##.# ", 3) && !Fits(s, "#####:##:##.# ", 3);
    hide Validate, HexAt;
  }

  lemma LongAddressRow(s: string)
    requires |s| >= 5 && IsHex(s[0]) && IsHex(s[1]) && IsHex(s[2]) && s[3] == ':' && s[4] == ' '
    ensures Header(s) == None && DataLine(s)
  {
    ValidateMeans(s, "##:##.# ", 0);
    ValidateMeans(s, "####:##:##.# ", 0);
    ValidateMeans(s, "#####:##:##.# ", 0);
    ValidateMeans(s, "###: ", 0);
    assert !Fits(s, "##:##.# ", 2) && !Fits(s, "####:##:##.# ", 3) && !Fits(s, "#####:##:##.# ", 3);
    hide Validate, HexAt;
  }

  lemma AddressDigits(a: nat)
    requires a < MAX_CONFIG
    ensures |HexPad(a, 2)| == 2 || |HexPad(a, 2)| == 3
  {
    Pow16Values();
    assert Pow16(3) == 0x1000;
    assert HexWidth(a) <= 3;
  }

  /** A row's address is read back, and a row is no header line. */
  lemma RowAddress(a: nat, cells: string)
    requires a < MAX_CONFIG && cells != "" && cells[0] == ' '
    ensures var s := HexPad(a, 2) + ":" + cells;
            && Header(s) == None && DataLine(s) && HexAt(s, 0) == a
            && IndexOf(s, ' ', 0) == |HexPad(a, 2)| + 1 && Plain(HexPad(a, 2))
  {
    hide HexPad, Header, DataLine, HexNum;
    var h := HexPad(a, 2);
    var s := h + ":" + cells;
    AddressDigits(a);
    HexPadValue(a, 2);
    assert forall k :: 0 <= k < |h| ==> s[k] == h[k] && IsHex(h[k]);
    assert s[|h|] == ':' && s[|h| + 1] == ' ';
    assert s[0..|h|] == h;
    HexRunExact(s, 0, |h|);
    if |h| == 2 { ShortAddressRow(s); } else { LongAddressRow(s); }
  }

  lemma PlainLine(s: string)
    requires Plain(s)
    ensures LineText(s + "\n") == Some(s) && NoChar(s, '\n')
  {
    var c := s + "\n";
    assert forall k :: 0 <= k < |s| ==> c[k] == s[k];
    assert c[|s|] == '\n' && c[..|c|] == c && c[..|s|] == s;
    assert IndexOf(c, NUL, 0) == |c|;
  }

  /** A printed row adds its 16 bytes to the newest device. */
  lemma RowReads(st: State, image: seq<Byte>, a: nat)
    requires Sane(st) && st.open && a + 16 <= |image| <= MAX_CONFIG
    ensures var d := st.devices[0];
            Buffer(st, Row(image, a) + "\n") ==
              Go(st.(devices := [d.(dd := Store(d.dd, image, a, 16))] + st.devices[1..]))
    ensures Plain(Row(image, a)) && |Row(image, a)| + 1 < BUFFER
  {
    hide HexPad, Cells, Header, DataLine, HexAt, Columns, LineText, Store, IndexOf, Line;
    var h, cells := HexPad(a, 2), Cells(image, a, 16);
    var s := Row(image, a);
    CellsStart(image, a, 16);
    CellsPlain(image, a, 16);
    AddressDigits(a);
    RowAddress(a, cells);
    RowPlain(h, cells);
    PlainLine(s);
    ColumnsRead(h + ":", image, a, 16, st.devices[0].dd);
    DataLineEffect(st, s, |h| + 1, a, Store(st.devices[0].dd, image, a, 16));
  }

  lemma DataLineEffect(st: State, s: string, space: nat, a: nat, dd: Data)
    requires Sane(st) && st.open && Header(s) == None && DataLine(s) && space < |s| && |dd.data| >= 256
    requires IndexOf(s, ' ', 0) == space && HexAt(s, 0) == a
    requires Columns(s, space + 1, a, st.devices[0].dd) == Good(dd)
    ensures Line(st, s) == Go(st.(devices := [st.devices[0].(dd := dd)] + st.devices[1..]))
  {
    hide Header, DataLine, IndexOf, HexAt, Columns;
  }

  lemma RowPlain(h: string, cells: string)
    requires Plain(h) && Plain(cells)
    ensures Plain(h + ":" + cells)
  {
  }

  lemma LinesStep(file: string, pos: nat, st: State, text: string, next: State)
    requires Sane(st) && Sane(next) && pos < |file| && FGets(file, pos, BUFFER) == Read(text + "\n", false)
    requires Buffer(st, text + "\n") == Go(next)
    ensures pos + |text| + 1 <= |file| && Lines(file, pos, st) == Lines(file, pos + |text| + 1, next)
  {
    hide Buffer, FGets, Sane;
  }

  /** Reading the printed rows from address a on completes the newest device. */
  lemma {:induction false} RowsRead(before: string, image: seq<Byte>, a: nat, st: State)
    requires Sane(st) && st.open && a <= |image| <= MAX_CONFIG && (|image| - a) % 16 == 0
    requires Loaded(st.devices[0].dd, image, a)
    ensures var o := Lines(before + Rows(image, a), |before|, st);
            && o.Go? && o.st.open && |o.st.devices| == |st.devices| && o.st.devices[1..] == st.devices[1..]
            && o.st.devices[0] == st.devices[0].(dd := o.st.devices[0].dd)
            && Loaded(o.st.devices[0].dd, image, |image|)
    decreases |image| - a
  {
    hide Lines, Buffer, Row, FGets, Store, Loaded, Plain, LineText;
    var file := before + Rows(image, a);
    if a == |image| {
      assert file == before;
      LinesEnd(file, st);
    } else {
      var d, text := st.devices[0], Row(image, a);
      var next := st.(devices := [d.(dd := Store(d.dd, image, a, 16))] + st.devices[1..]);
      var before' := before + (text + "\n");
      assert file == before' + Rows(image, a + 16);
      RowReads(st, image, a);
      PlainLine(text);
      StoreLoads(d.dd, image, a, 16);
      FGetsLine(before, text, Rows(image, a + 16), BUFFER);
      LinesStep(file, |before|, st, text, next);
      RowsRead(before', image, a + 16, next);
    }
  }

  lemma LinesEnd(file: string, st: State)
    requires Sane(st)
    ensures Lines(file, |file|, st) == Go(st)
  {
  }

  lemma HeaderBlank(s: string)
    requires Header(s).Some?
    ensures Header(s).value.dd == Alloc(256)
  {
    hide Validate, HexAt;
  }

  lemma PrintedRows(image: seq<Byte>)
    requires |image| % 16 == 0
    ensures Body(image, |image|) == Rows(image, 0)
  {
    BodyIsRows(image, 0);
    hide Rows;
    assert Body(image, 0) == "";
  }

  lemma HeaderOpens(header: string, image: seq<Byte>)
    requires Header(header).Some? && Plain(header) && |image| <= MAX_CONFIG
    ensures var st := State([Header(header).value], true);
            Buffer(State([], false), header + "\n") == Go(st) && Sane(st) && Loaded(st.devices[0].dd, image, 0)
  {
    PlainLine(header);
    HeaderBlank(header);
    var d := Header(header).value;
    assert [d] + [] == [d];
    assert d.dd.data[..0] == image[..0];
    hide Header, LineText;
  }

  /** A device header line followed by the printed image, for any image of whole
      rows up to 4096 bytes: the dump reader finds that device with every byte
      of the image and exactly its length. */
  lemma DumpRoundTrip(header: string, image: seq<Byte>)
    requires Header(header).Some? && Plain(header) && |header| + 1 < BUFFER
    requires |image| % 16 == 0 && |image| <= MAX_CONFIG
    ensures var o := Lines(header + "\n" + Body(image, |image|), 0, State([], false));
            && o.Go? && |o.st.devices| == 1
            && o.st.devices[0] == Header(header).value.(dd := o.st.devices[0].dd)
            && o.st.devices[0].dd.len == |image|
            && |o.st.devices[0].dd.data| >= |image| && o.st.devices[0].dd.data[..|image|] == image
  {
    hide Lines, FGets, Rows, Body, Plain, LineText, Header, Buffer;
    PrintedRows(image);
    var st0, d := State([], false), Header(header).value;
    var st := State([d], true);
    var file := header + "\n" + Rows(image, 0);
    assert "" + (header + "\n") + Rows(image, 0) == file;
    PlainLine(header);
    FGetsLine("", header, Rows(image, 0), BUFFER);
    HeaderOpens(header, image);
    LinesStep(file, 0, st0, header, st);
    RowsRead(header + "\n", image, 0, st);
    assert image[..|image|] == image;
  }

  /** Every byte printed can then be read through the back-end, and none more. */
  lemma DumpReadsBack(header: string, image: seq<Byte>, pos: nat, len: nat)
    requires Header(header).Some? && Plain(header) && |header| + 1 < BUFFER
    requires |image| % 16 == 0 && |image| <= MAX_CONFIG
    ensures var o := Lines(header + "\n" + Body(image, |image|), 0, State([], false));
            && o.Go? && |o.st.devices| == 1 && o.st.devices[0].dd.len <= |o.st.devices[0].dd.data|
            && Read_(o.st.devices[0], pos, len) ==
               if pos + len <= |image| then Some(image[pos..pos + len]) else None
  {
    hide Lines, Body, Header;
    DumpRoundTrip(header, image);
    var d := Lines(header + "\n" + Body(image, |image|), 0, State([], false)).st.devices[0];
    if pos + len <= |image| {
      assert d.dd.data[pos..pos + len] == d.dd.data[..|image|][pos..pos + len];
    }
  }

  /* ---- what any accepted dump yields ---- */

  /** A byte that a dump gives for an address. */
  datatype Given = Given(at: nat, value: Byte)

  /** The columns of a data line from z on, with their addresses. */
  function LineBytes(s: string, z: nat, i: nat): seq<Given>
    requires z <= |s|
    decreases |s| - z
  {
    if !Column(s, z) then []
    else [Given(i, TwoDigits(s[z], s[z + 1]))] + LineBytes(s, if At(s, z + 2) == NUL then z + 2 else z + 3, i + 1)
  }

  /** The bytes given so far for every device, newest device first. */
  datatype Log = Log(devices: seq<seq<Given>>, open: bool)

  function LineLog(l: Log, s: string): Log {
    if Header(s).Some? then Log([[]] + l.devices, true)
    else if s == "" then l.(open := false)
    else if l.open && l.devices != [] && DataLine(s) then
      var z := IndexOf(s, ' ', 0);
      l.(devices := [l.devices[0] + LineBytes(s, if z < |s| then z + 1 else z, HexAt(s, 0))] + l.devices[1..])
    else l
  }

  /** The log of a file from `pos` on. */
  function FileLog(file: string, pos: nat, l: Log): Log
    requires pos <= |file|
    decreases |file| - pos
  {
    if pos == |file| then l
    else
      var chunk := FGets(file, pos, BUFFER).chunk;
      var s := LineText(chunk);
      if s == None then l else FileLog(file, pos + |chunk|, LineLog(l, s.value))
  }

  /** The last value given for an address; 0xff when there is none. */
  function Latest(gs: seq<Given>, k: nat): Byte {
    if gs == [] then 0xff
    else if gs[|gs| - 1].at == k then gs[|gs| - 1].value else Latest(gs[..|gs| - 1], k)
  }

  /** One more than the highest address given. */
  function Highest(gs: seq<Given>): nat {
    if gs == [] then 0
    else
      var h := Highest(gs[..|gs| - 1]);
      if gs[|gs| - 1].at + 1 > h then gs[|gs| - 1].at + 1 else h
  }

  ghost predicate Reflects(dd: Data, gs: seq<Given>) {
    && (|dd.data| == 256 || |dd.data| == MAX_CONFIG)
    && dd.len == Highest(gs) <= |dd.data|
    && forall k :: 0 <= k < |dd.data| ==> dd.data[k] == Latest(gs, k)
  }

  lemma OneMoreGiven(gs: seq<Given>, g: Given)
    ensures Highest(gs + [g]) == if g.at + 1 > Highest(gs) then g.at + 1 else Highest(gs)
    ensures forall k :: Latest(gs + [g], k) == if g.at == k then g.value else Latest(gs, k)
  {
    assert (gs + [g])[..|gs + [g]| - 1] == gs;
  }

  lemma {:induction false} NothingAbove(gs: seq<Given>, k: nat)
    requires k >= Highest(gs)
    ensures Latest(gs, k) == 0xff
  {
    if gs != [] { NothingAbove(gs[..|gs| - 1], k); }
  }

  /** Also when the length restarts: the data only move for an address that is
      higher than all given before. */
  lemma PutReflects(dd: Data, gs: seq<Given>, i: nat, j: Byte)
    requires Reflects(dd, gs) && i < MAX_CONFIG
    ensures Reflects(Put(dd, i, j), gs + [Given(i, j)])
  {
    hide Latest, Highest;
    OneMoreGiven(gs, Given(i, j));
    var d := Put(dd, i, j);
    forall k | 0 <= k < |d.data| ensures d.data[k] == Latest(gs + [Given(i, j)], k) {
      if k >= |dd.data| { NothingAbove(gs, k); }
    }
  }

  lemma ReflectsRoom(dd: Data, gs: seq<Given>)
    requires Reflects(dd, gs)
    ensures |dd.data| >= 256
  {
  }

  lemma {:induction false} ColumnsReflect(s: string, z: nat, i: nat, dd: Data, gs: seq<Given>)
    requires z <= |s| && Reflects(dd, gs) && Columns(s, z, i, dd).Good?
    ensures Reflects(Columns(s, z, i, dd).dd, gs + LineBytes(s, z, i))
    decreases |s| - z
  {
    hide Reflects, Put;
    if Column(s, z) {
      var z' := if At(s, z + 2) == NUL then z + 2 else z + 3;
      var g := Given(i, TwoDigits(s[z], s[z + 1]));
      ReflectsRoom(dd, gs);
      PutReflects(dd, gs, i, g.value);
      ColumnsReflect(s, z', i + 1, Put(dd, i, g.value), gs + [g]);
      assert (gs + [g]) + LineBytes(s, z', i + 1) == gs + ([g] + LineBytes(s, z', i + 1));
    } else {
      assert gs + [] == gs;
    }
  }

  /** Every device of the state has exactly the bytes of the log. */
  ghost predicate AllReflect(st: State, l: Log) {
    && st.open == l.open && |st.devices| == |l.devices|
    && forall d :: 0 <= d < |st.devices| ==> Reflects(st.devices[d].dd, l.devices[d])
  }

  lemma LineReflects(st: State, l: Log, s: string)
    requires Sane(st) && AllReflect(st, l) && Line(st, s).Go?
    ensures AllReflect(Line(st, s).st, LineLog(l, s))
  {
    hide Reflects, Columns, LineBytes, DataLine, HexAt;
    if Header(s).Some? {
      NewReflects(s);
    } else if s != "" && st.open && DataLine(s) {
      var z := IndexOf(s, ' ', 0);
      ColumnsReflect(s, if z < |s| then z + 1 else z, HexAt(s, 0), st.devices[0].dd, l.devices[0]);
    }
    hide Header;
  }

  lemma NewReflects(s: string)
    requires Header(s).Some?
    ensures Reflects(Header(s).value.dd, [])
  {
    hide Validate, HexAt;
  }

  lemma {:induction false} LinesReflect(file: string, pos: nat, st: State, l: Log)
    requires pos <= |file| && Sane(st) && AllReflect(st, l) && Lines(file, pos, st).Go?
    ensures AllReflect(Lines(file, pos, st).st, FileLog(file, pos, l))
    decreases |file| - pos
  {
    hide Line, LineLog, AllReflect, LineText, FGets, Sane;
    if pos < |file| {
      var chunk := FGets(file, pos, BUFFER).chunk;
      var s := LineText(chunk);
      LineReflects(st, l, s.value);
      LinesReflect(file, pos + |chunk|, Line(st, s.value).st, LineLog(l, s.value));
    }
  }

  /** In every accepted dump, each device holds the last value given for each
      address, 0xff elsewhere, and its length is the highest address plus one,
      although the length restarts when the data move to a larger buffer. */
  lemma AcceptedDump(file: string)
    requires Lines(file, 0, State([], false)).Go?
    ensures AllReflect(Lines(file, 0, State([], false)).st, FileLog(file, 0, Log([], false)))
  {
    LinesReflect(file, 0, State([], false), Log([], false));
  }
}

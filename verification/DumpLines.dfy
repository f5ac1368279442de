/** Which lines of a dump file are headers and data lines, what is in them, and
    which are refused (lib/dump.c, dump_init). */
module DumpLines {
  import opened Config
  import opened CText
  import opened Dump

  /** Exactly w hexadecimal digits at s[i..], denoting n. */
  predicate Spelled(s: string, i: nat, w: nat, n: nat) {
    i + w <= |s| && AllHex(s[i..i + w]) && HexNum(s[i..i + w]) == n
  }

  /** Bus, device and function, and a space, at s[i..]. */
  predicate BusDevFunc(s: string, i: nat, bus: nat, dev: nat, func: nat) {
    && i + 8 <= |s| && Spelled(s, i, 2, bus) && s[i + 2] == ':' && Spelled(s, i + 3, 2, dev) && s[i + 5] == '.'
    && func < 10 && s[i + 6] as int == '0' as int + func && s[i + 7] == ' '
  }

  /** The line begins with this address, with a domain of w digits in front, or
      without one when w is 0. */
  predicate AddressLine(s: string, w: nat, domain: nat, bus: nat, dev: nat, func: nat) {
    if w == 0 then domain == 0 && BusDevFunc(s, 0, bus, dev, func)
    else Spelled(s, 0, w, domain) && w < |s| && s[w] == ':' && BusDevFunc(s, w + 1, bus, dev, func)
  }

  predicate AllHexFor(s: string, i: nat, w: nat) { i + w <= |s| && forall k :: i <= k < i + w ==> IsHex(s[k]) }

  /** What dump_validate asks of bus, device and function at s[i..]. */
  predicate Shape(s: string, i: nat) {
    && i + 8 <= |s| && AllHexFor(s, i, 2) && s[i + 2] == ':' && AllHexFor(s, i + 3, 2) && s[i + 5] == '.'
    && IsHex(s[i + 6]) && s[i + 7] == ' '
  }

  lemma ShapesValid(s: string)
    ensures Validate(s, "##:##.# ", 0) <==> Shape(s, 0)
    ensures Validate(s, "####:##:##.# ", 0) <==> AllHexFor(s, 0, 4) && |s| > 4 && s[4] == ':' && Shape(s, 5)
    ensures Validate(s, "#####:##:##.# ", 0) <==> AllHexFor(s, 0, 5) && |s| > 5 && s[5] == ':' && Shape(s, 6)
  {
    ShortValid(s);
    LongValid(s, "####:##:##.# ", 4);
    LongValid(s, "#####:##:##.# ", 5);
  }

  lemma ShortValid(s: string)
    ensures Validate(s, "##:##.# ", 0) <==> Shape(s, 0)
  {
    var fmt := "##:##.# ";
    ValidateMeans(s, fmt, 0);
    hide Validate;
    if Validate(s, fmt, 0) {
      assert Fits(s, fmt, 0) && Fits(s, fmt, 1) && Fits(s, fmt, 2) && Fits(s, fmt, 3);
      assert Fits(s, fmt, 4) && Fits(s, fmt, 5) && Fits(s, fmt, 6) && Fits(s, fmt, 7);
    }
  }

  lemma LongValid(s: string, fmt: string, w: nat)
    requires (w == 4 && fmt == "####:##:##.# ") || (w == 5 && fmt == "#####:##:##.# ")
    ensures Validate(s, fmt, 0) <==> AllHexFor(s, 0, w) && |s| > w && s[w] == ':' && Shape(s, w + 1)
  {
    ValidateMeans(s, fmt, 0);
    hide Validate;
    if Validate(s, fmt, 0) {
      assert Fits(s, fmt, 0) && Fits(s, fmt, 1) && Fits(s, fmt, 2) && Fits(s, fmt, 3) && Fits(s, fmt, 4);
      assert Fits(s, fmt, w) && Fits(s, fmt, w + 1) && Fits(s, fmt, w + 2) && Fits(s, fmt, w + 3);
      assert Fits(s, fmt, w + 4) && Fits(s, fmt, w + 5) && Fits(s, fmt, w + 6) && Fits(s, fmt, w + 7);
      assert Fits(s, fmt, w + 8);
    }
  }

  lemma HexAtIs(s: string, i: nat, w: nat, n: nat)
    requires AllHexFor(s, i, w) && i + w < |s| && !IsHex(s[i + w])
    ensures Spelled(s, i, w, n) <==> HexAt(s, i) == n
  {
    HexRunExact(s, i, w);
  }

  lemma BusDevFuncIff(s: string, i: nat, bus: nat, dev: nat, func: nat)
    ensures BusDevFunc(s, i, bus, dev, func) <==>
            Shape(s, i) && HexAt(s, i) == bus && HexAt(s, i + 3) == dev && IsDec(At(s, i + 6))
            && At(s, i + 6) as int - '0' as int == func
  {
    hide HexAt, HexNum;
    if BusDevFunc(s, i, bus, dev, func) {
      assert s[i] == s[i..i + 2][0] && s[i + 1] == s[i..i + 2][1];
      assert s[i + 3] == s[i + 3..i + 5][0] && s[i + 4] == s[i + 3..i + 5][1];
    }
    if Shape(s, i) {
      HexAtIs(s, i, 2, bus);
      HexAtIs(s, i + 3, 2, dev);
    }
  }

  lemma DomainIff(s: string, w: nat, domain: nat)
    requires w < |s| && s[w] == ':'
    ensures Spelled(s, 0, w, domain) <==> AllHexFor(s, 0, w) && HexAt(s, 0) == domain
  {
    hide HexAt, HexNum;
    if Spelled(s, 0, w, domain) { assert forall k :: 0 <= k < w ==> s[k] == s[0..w][k]; }
    if AllHexFor(s, 0, w) { HexAtIs(s, 0, w, domain); }
  }

  /** A line is the header of a device exactly when it begins with the device's
      address; its data then are empty. */
  lemma HeaderIff(s: string, domain: nat, bus: nat, dev: nat, func: nat)
    ensures Header(s) == Some(Device(domain, bus, dev, func, Alloc(256))) <==>
            AddressLine(s, 0, domain, bus, dev, func) || AddressLine(s, 4, domain, bus, dev, func)
            || AddressLine(s, 5, domain, bus, dev, func)
  {
    hide Validate, HexAt, BusDevFunc, Spelled;
    ShapesValid(s);
    BusDevFuncIff(s, 0, bus, dev, func);
    BusDevFuncIff(s, 5, bus, dev, func);
    BusDevFuncIff(s, 6, bus, dev, func);
    if |s| > 4 && s[4] == ':' { DomainIff(s, 4, domain); }
    if |s| > 5 && s[5] == ':' { DomainIff(s, 5, domain); }
  }

  /** The line begins with an address of w digits, a colon and a space. */
  predicate DataAt(s: string, w: nat, a: nat) { Spelled(s, 0, w, a) && w + 2 <= |s| && s[w] == ':' && s[w + 1] == ' ' }

  lemma DataValid(s: string, fmt: string, w: nat)
    requires (w == 2 && fmt == "##: ") || (w == 3 && fmt == "###: ")
    ensures Validate(s, fmt, 0) <==> w + 2 <= |s| && AllHexFor(s, 0, w) && s[w] == ':' && s[w + 1] == ' '
    ensures Validate(s, fmt, 0) ==> IndexOf(s, ' ', 0) == w + 1
  {
    ValidateMeans(s, fmt, 0);
    hide Validate;
    if Validate(s, fmt, 0) {
      assert Fits(s, fmt, 0) && Fits(s, fmt, 1) && Fits(s, fmt, w) && Fits(s, fmt, w - 1) && Fits(s, fmt, w + 1);
    }
  }

  /** A line is a data line exactly when it begins with an address of two or three
      digits and a colon; its columns start behind the space. */
  lemma DataLineIff(s: string, a: nat)
    ensures DataLine(s) && HexAt(s, 0) == a <==> DataAt(s, 2, a) || DataAt(s, 3, a)
    ensures DataAt(s, 2, a) ==> IndexOf(s, ' ', 0) == 3
    ensures DataAt(s, 3, a) ==> IndexOf(s, ' ', 0) == 4
  {
    hide Validate, HexAt, Spelled, IndexOf;
    DataValid(s, "##: ", 2);
    DataValid(s, "###: ", 3);
    if |s| > 2 && s[2] == ':' { DomainIff(s, 2, a); }
    if |s| > 3 && s[3] == ':' { DomainIff(s, 3, a); }
    ShortOfHex(s, a);
  }

  lemma ShortOfHex(s: string, a: nat)
    ensures DataAt(s, 2, a) ==> s[2] == ':'
    ensures DataAt(s, 3, a) ==> s[3] == ':'
  {
  }

  /* ---- columns ---- */

  /** t begins with n columns: two digits each, a space between them. */
  predicate Begins(t: string, n: nat) {
    n == 0 || (|t| >= 2 && IsHex(t[0]) && IsHex(t[1])
               && if |t| == 2 then n == 1 else t[2] == ' ' && Begins(t[3..], n - 1))
  }

  /** t is n columns; a space may follow the last one. */
  predicate Consists(t: string, n: nat) {
    if n == 0 then t == ""
    else |t| >= 2 && IsHex(t[0]) && IsHex(t[1]) && if |t| == 2 then n == 1 else t[2] == ' ' && Consists(t[3..], n - 1)
  }

  /** t is columns that all fit when the first one has address i. */
  ghost predicate AllFit(t: string, i: nat) { exists n: nat :: Consists(t, n) && (n > 0 ==> i + n <= 4096) }

  /** t begins with columns that do not. */
  ghost predicate Overflow(t: string, i: nat) { exists n: nat :: n > 0 && Begins(t, n) && i + n > 4096 }

  predicate OneColumn(t: string) { |t| >= 2 && IsHex(t[0]) && IsHex(t[1]) && (|t| == 2 || t[2] == ' ') }
  function Behind(t: string): string { if |t| <= 2 then "" else t[3..] }

  lemma ColumnTaken(t: string, i: nat)
    requires OneColumn(t)
    ensures AllFit(t, i) <==> i < 4096 && AllFit(Behind(t), i + 1)
    ensures Overflow(t, i) <==> i >= 4096 || Overflow(Behind(t), i + 1)
  {
    forall n: nat ensures Consists(t, n + 1) <==> Consists(Behind(t), n) {}
    forall n: nat ensures n > 0 ==> (Begins(t, n + 1) <==> Begins(Behind(t), n)) {}
    assert Begins(t, 1) && t != "";
    if n: nat :| Consists(t, n) && (n > 0 ==> i + n <= 4096) { assert Consists(Behind(t), n - 1); }
    if n: nat :| Consists(Behind(t), n) && (n > 0 ==> i + 1 + n <= 4096) { assert Consists(t, n + 1); }
    if n: nat :| n > 0 && Begins(t, n) && i + n > 4096 { assert n > 1 ==> Begins(Behind(t), n - 1); }
    if n: nat :| n > 0 && Begins(Behind(t), n) && i + 1 + n > 4096 { assert Begins(t, n + 1); }
  }

  lemma NoColumn(t: string, i: nat)
    requires !OneColumn(t)
    ensures (AllFit(t, i) <==> t == "") && !Overflow(t, i)
  {
    assert Consists("", 0);
  }

  lemma ColumnNext(s: string, z: nat, i: nat, dd: Data)
    requires z <= |s| && NoChar(s, NUL) && |dd.data| >= 256 && OneColumn(s[z..])
    ensures var z' := if |s| == z + 2 then z + 2 else z + 3;
            && z + 2 <= z' <= |s| && s[z'..] == Behind(s[z..])
            && Columns(s, z, i, dd) ==
               if i < MAX_CONFIG then Columns(s, z', i + 1, Put(dd, i, TwoDigits(s[z], s[z + 1]))) else Bad(TooMuch)
  {
    hide Put, TwoDigits;
    assert At(s, z) == s[z..][0] && At(s, z + 1) == s[z..][1] && (|s| > z + 2 ==> s[z + 2] == s[z..][2]);
  }

  lemma ColumnMissing(s: string, z: nat, i: nat, dd: Data)
    requires z <= |s| && NoChar(s, NUL) && |dd.data| >= 256 && !OneColumn(s[z..])
    ensures Columns(s, z, i, dd) == if z < |s| then Bad(Malformed) else Good(dd)
  {
    var t := s[z..];
    assert forall k :: 0 <= k < |t| ==> t[k] == s[z + k];
  }

  /** The columns of a line are all stored exactly when there is nothing else in
      the line and their addresses are below 4096; too much is reported exactly
      when some column would pass that. */
  lemma {:induction false} ColumnsIff(s: string, z: nat, i: nat, dd: Data)
    requires z <= |s| && NoChar(s, NUL) && |dd.data| >= 256
    ensures Columns(s, z, i, dd).Good? <==> AllFit(s[z..], i)
    ensures Columns(s, z, i, dd) == Bad(TooMuch) <==> Overflow(s[z..], i)
    decreases |s| - z
  {
    hide Put, TwoDigits, Columns, AllFit, Overflow;
    if OneColumn(s[z..]) {
      ColumnNext(s, z, i, dd);
      ColumnTaken(s[z..], i);
      if i < MAX_CONFIG {
        ColumnsIff(s, if |s| == z + 2 then z + 2 else z + 3, i + 1, Put(dd, i, TwoDigits(s[z], s[z + 1])));
      }
    } else {
      ColumnMissing(s, z, i, dd);
      NoColumn(s[z..], i);
    }
  }

  /* ---- files ---- */

  /** A carriage return in front of the newline makes no difference. */
  lemma EitherLineEnd(st: State, s: string)
    requires Sane(st) && Plain(s)
    ensures Buffer(st, s + "\r\n") == Buffer(st, s + "\n") == Line(st, s)
  {
    hide Line;
    PlainLine(s);
    var c := s + "\r\n";
    assert forall k :: 0 <= k < |s| ==> c[k] == s[k];
    assert c[|s|] == '\r' && c[|s| + 1] == '\n' && c[..|c|] == c && c[..|s|] == s;
    assert IndexOf(c, NUL, 0) == |c| && IndexOf(c, '\n', 0) == |s| + 1;
  }

  /** A line that is not ended within the buffer, by a newline in front of any NUL,
      makes the file refused. */
  lemma UnendedRefused(file: string, pos: nat, st: State)
    requires pos < |file| && Sane(st)
    requires var chunk := FGets(file, pos, BUFFER).chunk;
             forall k :: 0 <= k < |chunk| && chunk[k] == '\n' ==> exists j :: 0 <= j < k && chunk[j] == NUL
    ensures Lines(file, pos, st) == Stop(LineTooLong)
  {
    var chunk := FGets(file, pos, BUFFER).chunk;
    var c := chunk[..IndexOf(chunk, NUL, 0)];
    assert forall k :: 0 <= k < |c| ==> c[k] == chunk[k];
  }

  /** "%04x:%02x:%02x.%d ", and anything behind it. */
  function HeaderText(domain: nat, bus: Byte, dev: Byte, func: nat, rest: string): string {
    HexPad(domain, 4) + ":" + HexPad(bus, 2) + ":" + HexPad(dev, 2) + "." + Dec(func) + " " + rest
  }

  /** The header line of a device and its printed image are read back. */
  lemma PrintedDumpRead(domain: nat, bus: Byte, dev: Byte, func: nat, rest: string, image: seq<Byte>)
    requires domain < 0x10_0000 && func < 10 && Plain(rest) && |rest| < 200
    requires |image| % 16 == 0 && |image| <= MAX_CONFIG
    ensures var header := HeaderText(domain, bus, dev, func, rest);
            var o := Lines(header + "\n" + Body(image, |image|), 0, State([], false));
            && o.Go? && |o.st.devices| == 1
            && var d := o.st.devices[0];
               && d.domain == domain && d.bus == bus && d.dev == dev && d.func == func && d.dd.len == |image|
               && |d.dd.data| >= |image| && d.dd.data[..|image|] == image
  {
    hide Lines, Body, Header, Plain;
    var header := HeaderText(domain, bus, dev, func, rest);
    HeaderPrinted(domain, bus, dev, func, rest);
    DumpRoundTrip(header, image);
  }

  /** Where the parts of a header line stand. */
  lemma PartsAt(m: string, b: string, d: string, f: char, rest: string)
    requires |b| == 2 && |d| == 2 && Plain(m) && Plain(b) && Plain(d) && Plain([f]) && Plain(rest)
    ensures var h, w := m + ":" + b + ":" + d + "." + [f] + " " + rest, |m|;
            && |h| == w + 9 + |rest| && Plain(h)
            && h[0..w] == m && h[w] == ':' && h[w + 1..w + 3] == b && h[w + 3] == ':' && h[w + 4..w + 6] == d
            && h[w + 6] == '.' && h[w + 7] == f && h[w + 8] == ' '
  {
    var h, w := m + ":" + b + ":" + d + "." + [f] + " " + rest, |m|;
    var a := m + ":" + b + ":" + d + ".";
    assert Plain(a) by { assert a == m + (":" + b + ":" + d + "."); }
    assert h == a + ([f] + " " + rest);
    assert forall k :: 0 <= k < |a| ==> h[k] == a[k];
    assert a[w + 1..w + 3] == b && a[w + 4..w + 6] == d;
  }

  lemma HeaderPrinted(domain: nat, bus: Byte, dev: Byte, func: nat, rest: string)
    requires domain < 0x10_0000 && func < 10 && Plain(rest) && |rest| < 200
    ensures var header := HeaderText(domain, bus, dev, func, rest);
            && Header(header) == Some(Device(domain, bus, dev, func, Alloc(256)))
            && Plain(header) && |header| + 1 < BUFFER
  {
    hide HexPad, HexNum, Header, AllHex, HexFixed, Plain;
    var m, b, d := HexPad(domain, 4), HexPad(bus, 2), HexPad(dev, 2);
    AddressWidths(domain, bus, dev);
    HexPadPlain(domain, 4);
    HexPadPlain(bus, 2);
    HexPadPlain(dev, 2);
    assert Dec(func) == [('0' as int + func) as char];
    DigitPlain(func);
    PartsAt(m, b, d, Dec(func)[0], rest);
    var header := m + ":" + b + ":" + d + "." + Dec(func) + " " + rest;
    assert AddressLine(header, |m|, domain, bus, dev, func);
    HeaderIff(header, domain, bus, dev, func);
  }

  lemma DigitPlain(func: nat)
    requires func < 10
    ensures Plain([('0' as int + func) as char])
  {
  }

  lemma AddressWidths(domain: nat, bus: Byte, dev: Byte)
    requires domain < 0x10_0000
    ensures |HexPad(domain, 4)| == 4 || |HexPad(domain, 4)| == 5
    ensures |HexPad(bus, 2)| == 2 && |HexPad(dev, 2)| == 2
    ensures HexNum(HexPad(domain, 4)) == domain && HexNum(HexPad(bus, 2)) == bus && HexNum(HexPad(dev, 2)) == dev
  {
    Pow16Values();
    assert Pow16(5) == 0x10_0000;
    HexPadValue(domain, 4);
    HexPadValue(bus, 2);
    HexPadValue(dev, 2);
  }

  lemma HexPadPlain(n: nat, w: nat)
    ensures Plain(HexPad(n, w))
  {
    var s := HexPad(n, w);
    assert forall i :: 0 <= i < |s| ==> IsHex(s[i]);
  }
}

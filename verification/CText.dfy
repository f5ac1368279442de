/** Text as the C library handles it: hexadecimal and decimal fields, bounded
    line reads, and the number scanners that sit behind strtol and sscanf.
    A file, a line and a C string are all `string`s here; `At` supplies the
    terminating NUL a C string carries. */
module CText {

  datatype Option<+T> = None | Some(value: T)

  /** The longest line, and its terminator, that the name files may have (lib/names.h). */
  const MAX_LINE := 1024

  const NUL: char := '\0'

  /** s[i], where a C string continues with its terminator. */
  function At(s: string, i: nat): char {
    if i < |s| then s[i] else NUL
  }

  ghost predicate NoChar(s: string, c: char) {
    forall i :: 0 <= i < |s| ==> s[i] != c
  }

  /** The first index of c at or after `from`, or |s| (strchr). */
  function IndexOf(s: string, c: char, from: nat): (i: nat)
    requires from <= |s|
    ensures from <= i <= |s|
    ensures i < |s| ==> s[i] == c
    ensures forall k :: from <= k < i ==> s[k] != c
    decreases |s| - from
  {
    if from == |s| || s[from] == c then from else IndexOf(s, c, from + 1)
  }

  /** The C string s stands in a buffer at position p. */
  ghost predicate CAt(b: seq<char>, p: nat, s: string) {
    p + |s| < |b| && b[p..p + |s|] == s && b[p + |s|] == NUL && NoChar(s, NUL)
  }

  /** Read a C string up to its NUL. */
  method CStringAt(buf: array<char>, p: nat, ghost s: string) returns (r: string)
    requires CAt(buf[..], p, s)
    ensures r == s
  {
    var e := p;
    ghost var b := buf[..];
    ghost var there := b[p..p + |s|];
    assert forall k :: 0 <= k < |s| ==> there[k] == b[p + k];
    while buf[e] != NUL
      invariant p <= e <= p + |s|
      decreases p + |s| - e
    {
      e := e + 1;
    }
    assert e == p + |s| by { assert b[e] == NUL; }
    r := buf[p..e];
  }

  /** Characters that no step of the line reader takes for the end of a line. */
  predicate Plain(s: string) {
    forall i :: 0 <= i < |s| ==> s[i] != NUL && s[i] != '\n' && s[i] != '\r'
  }

  /* ---- hexadecimal ---- */

  predicate IsHex(c: char) {
    '0' <= c <= '9' || 'a' <= c <= 'f' || 'A' <= c <= 'F'
  }

  function HexVal(c: char): (v: nat)
    requires IsHex(c)
    ensures v < 16
  {
    if '0' <= c <= '9' then c as int - '0' as int
    else if 'a' <= c <= 'f' then c as int - 'a' as int + 10
    else c as int - 'A' as int + 10
  }

  function HexDigit(v: nat): (c: char)
    requires v < 16
    ensures IsHex(c) && HexVal(c) == v && !('A' <= c <= 'Z')
  {
    if v < 10 then ('0' as int + v) as char else ('a' as int + v - 10) as char
  }

  /** The sixteen digits, as they are printed and in either case as they are read. */
  lemma HexTable(v: nat)
    requires v < 16
    ensures HexDigit(v) == "0123456789abcdef"[v] && HexVal("0123456789abcdef"[v]) == v
    ensures HexVal("0123456789ABCDEF"[v]) == v
  {
  }

  predicate AllHex(s: string) {
    forall i :: 0 <= i < |s| ==> IsHex(s[i])
  }

  /** The number a string of hexadecimal digits denotes. */
  function HexNum(s: string): nat
    requires AllHex(s)
  {
    if |s| == 0 then 0 else HexNum(s[..|s| - 1]) * 16 + HexVal(s[|s| - 1])
  }

  /** How many hexadecimal digits s starts with, from position i on. */
  function HexRun(s: string, i: nat): (n: nat)
    requires i <= |s|
    ensures i + n <= |s|
    ensures AllHex(s[i..i + n])
    ensures i + n < |s| ==> !IsHex(s[i + n])
    decreases |s| - i
  {
    if i < |s| && IsHex(s[i]) then
      var n := 1 + HexRun(s, i + 1);
      assert s[i..i + n] == [s[i]] + s[i + 1..i + n];
      n
    else 0
  }

  function Pow16(w: nat): (p: nat)
    ensures p > 0
  {
    if w == 0 then 1 else 16 * Pow16(w - 1)
  }

  /** n in exactly w lower-case digits, low digits kept. */
  function HexFixed(n: nat, w: nat): (s: string)
    ensures |s| == w && AllHex(s)
    ensures forall i :: 0 <= i < w ==> !('A' <= s[i] <= 'Z')
  {
    if w == 0 then "" else HexFixed(n / 16, w - 1) + [HexDigit(n % 16)]
  }

  /** The number of digits "%x" prints. */
  function HexWidth(n: nat): (w: nat)
    ensures w >= 1 && n < Pow16(w)
    ensures forall v :: 1 <= v && n < Pow16(v) ==> w <= v
  {
    if n < 16 then
      assert Pow16(1) == 16;
      1
    else
      var w := 1 + HexWidth(n / 16);
      assert forall v :: 1 <= v && n < Pow16(v) ==> w <= v by {
        forall v | 1 <= v && n < Pow16(v) ensures w <= v {
          assert Pow16(1) == 16;
          assert n / 16 < Pow16(v - 1);
        }
      }
      w
  }

  /** printf("%0<w>x", n): at least w digits, more when n needs them. */
  function HexPad(n: nat, w: nat): (s: string)
    ensures AllHex(s) && |s| >= w && |s| >= 1
    ensures 1 <= w && n < Pow16(w) ==> |s| == w
  {
    HexFixed(n, if HexWidth(n) < w then w else HexWidth(n))
  }

  lemma {:induction false} HexNumBound(s: string)
    requires AllHex(s)
    ensures HexNum(s) < Pow16(|s|)
  {
    if |s| > 0 { HexNumBound(s[..|s| - 1]); }
  }

  lemma Pow16Values()
    ensures Pow16(1) == 0x10 && Pow16(2) == 0x100 && Pow16(4) == 0x1_0000
  {
    assert Pow16(3) == 0x1000;
  }

  lemma {:induction false} HexFixedValue(n: nat, w: nat)
    requires n < Pow16(w)
    ensures HexNum(HexFixed(n, w)) == n
  {
    if w > 0 {
      var s := HexFixed(n, w);
      assert s[..w - 1] == HexFixed(n / 16, w - 1);
      HexFixedValue(n / 16, w - 1);
    }
  }

  /** Printing and reading back a hexadecimal number. */
  lemma {:induction false} HexPadValue(n: nat, w: nat)
    ensures HexNum(HexPad(n, w)) == n
  {
    var k := if HexWidth(n) < w then w else HexWidth(n);
    Pow16Monotone(HexWidth(n), k);
    HexFixedValue(n, k);
  }

  lemma {:induction false} Pow16Monotone(v: nat, w: nat)
    requires v <= w
    ensures Pow16(v) <= Pow16(w)
    decreases w
  {
    if v < w { Pow16Monotone(v, w - 1); }
  }

  /** A run of digits ends where the first other character stands. */
  lemma {:induction false} HexRunExact(s: string, i: nat, n: nat)
    requires i + n <= |s| && AllHex(s[i..i + n])
    requires i + n < |s| ==> !IsHex(s[i + n])
    ensures HexRun(s, i) == n
    decreases n
  {
    if n > 0 {
      assert IsHex(s[i..i + n][0]);
      assert s[i + 1..i + n] == s[i..i + n][1..];
      HexRunExact(s, i + 1, n - 1);
    }
  }

  /* ---- decimal ---- */

  predicate IsDec(c: char) { '0' <= c <= '9' }

  ghost predicate AllDec(s: string) {
    forall i :: 0 <= i < |s| ==> IsDec(s[i])
  }

  function DecNum(s: string): nat
    requires AllDec(s)
  {
    if |s| == 0 then 0 else DecNum(s[..|s| - 1]) * 10 + (s[|s| - 1] as int - '0' as int)
  }

  function DecRun(s: string, i: nat): (n: nat)
    requires i <= |s|
    ensures i + n <= |s|
    ensures AllDec(s[i..i + n])
    ensures i + n < |s| ==> !IsDec(s[i + n])
    decreases |s| - i
  {
    if i < |s| && IsDec(s[i]) then
      var n := 1 + DecRun(s, i + 1);
      assert s[i..i + n] == [s[i]] + s[i + 1..i + n];
      n
    else 0
  }

  /** printf("%d", n) for a number that is not negative. */
  function Dec(n: nat): (s: string)
    ensures |s| >= 1 && AllDec(s)
  {
    var d := ('0' as int + n % 10) as char;
    if n < 10 then [d] else Dec(n / 10) + [d]
  }

  lemma {:induction false} DecValue(n: nat)
    ensures DecNum(Dec(n)) == n
  {
    var s := Dec(n);
    if n < 10 {
      assert s[..|s| - 1] == [];
    } else {
      assert s[..|s| - 1] == Dec(n / 10);
      DecValue(n / 10);
    }
  }

  lemma {:induction false} DecRunExact(s: string, i: nat, n: nat)
    requires i + n <= |s| && AllDec(s[i..i + n])
    requires i + n < |s| ==> !IsDec(s[i + n])
    ensures DecRun(s, i) == n
    decreases n
  {
    if n > 0 {
      assert IsDec(s[i..i + n][0]);
      assert s[i + 1..i + n] == s[i..i + n][1..];
      DecRunExact(s, i + 1, n - 1);
    }
  }

  /* ---- number scanners ---- */

  predicate IsSpace(c: char) {
    c == ' ' || '\t' <= c <= '\r'
  }

  function SkipSpace(s: string, i: nat): (j: nat)
    requires i <= |s|
    ensures i <= j <= |s|
    decreases |s| - i
  {
    if i < |s| && IsSpace(s[i]) then SkipSpace(s, i + 1) else i
  }

  /** What a scanner found: the value and the index just past it. */
  datatype Scan = Scan(value: int, end: nat)

  /** Where the digits of a hexadecimal subject sequence start: after an
      optional "0x" that is followed by a digit. */
  function HexStart(s: string, i: nat): (j: nat)
    requires i <= |s|
    ensures i <= j <= |s|
  {
    if i + 2 < |s| && s[i] == '0' && (s[i + 1] == 'x' || s[i + 1] == 'X') && IsHex(s[i + 2])
    then i + 2 else i
  }

  /** White space, a sign, an optional "0x", digits: the subject sequence of
      strtol(s + i, &end, 16). None when there are no digits. */
  function ScanHex(s: string, i: nat): (r: Option<Scan>)
    requires i <= |s|
    ensures r.Some? ==> i < r.value.end <= |s|
  {
    var j := SkipSpace(s, i);
    var neg := j < |s| && s[j] == '-';
    var k := HexStart(s, if j < |s| && (s[j] == '-' || s[j] == '+') then j + 1 else j);
    var n := HexRun(s, k);
    if n == 0 then None
    else
      var v: int := HexNum(s[k..k + n]);
      Some(Scan(if neg then -v else v, k + n))
  }

  function ScanDec(s: string, i: nat): (r: Option<Scan>)
    requires i <= |s|
    ensures r.Some? ==> i < r.value.end <= |s|
  {
    var j := SkipSpace(s, i);
    var neg := j < |s| && s[j] == '-';
    var k := if j < |s| && (s[j] == '-' || s[j] == '+') then j + 1 else j;
    var n := DecRun(s, k);
    if n == 0 then None
    else
      var v: int := DecNum(s[k..k + n]);
      Some(Scan(if neg then -v else v, k + n))
  }

  /** Scanning digits that stand alone, after at most one space. */
  lemma {:induction false} ScanHexDigits(s: string, i: nat, n: nat)
    requires i + n <= |s| && n > 0 && AllHex(s[i..i + n])
    requires i + n < |s| ==> !IsHex(s[i + n]) && s[i + n] != 'x' && s[i + n] != 'X'
    ensures ScanHex(s, i) == Some(Scan(HexNum(s[i..i + n]), i + n))
    ensures i > 0 && s[i - 1] == ' ' ==> ScanHex(s, i - 1) == ScanHex(s, i)
  {
    hide HexNum;
    assert IsHex(s[i..i + n][0]);
    assert SkipSpace(s, i) == i;
    assert HexStart(s, i) == i by {
      if i + 1 < i + n { assert IsHex(s[i..i + n][1]); }
    }
    HexRunExact(s, i, n);
    hide HexRun, HexStart;
    if i > 0 && s[i - 1] == ' ' { assert SkipSpace(s, i - 1) == i; }
  }

  lemma {:induction false} ScanDecDigits(s: string, i: nat, n: nat)
    requires i + n <= |s| && n > 0 && AllDec(s[i..i + n])
    requires i + n < |s| ==> !IsDec(s[i + n])
    ensures ScanDec(s, i) == Some(Scan(DecNum(s[i..i + n]), i + n))
  {
    assert IsDec(s[i..i + n][0]);
    assert SkipSpace(s, i) == i;
    DecRunExact(s, i, n);
  }

  /* ---- bounded line reads ---- */

  /** What one fgets(buf, size, f) call does at position `pos`: the characters
      stored, and whether it met the end of the file. */
  datatype Read = Read(chunk: string, eof: bool)

  /** fgets stores at most size - 1 characters and stops after a newline. */
  function FGets(file: string, pos: nat, size: nat): (r: Read)
    requires pos < |file| && size >= 2
    ensures 1 <= |r.chunk| && pos + |r.chunk| <= |file|
    ensures r.chunk == file[pos..pos + |r.chunk|]
    ensures |r.chunk| < size
  {
    var nl := IndexOf(file, '\n', pos);
    var stop := if nl < |file| then nl + 1 else nl;
    if stop - pos <= size - 1 then Read(file[pos..stop], nl == |file| && stop - pos < size - 1)
    else Read(file[pos..pos + size - 1], false)
  }

  /** A newline-terminated line that fits is read whole. */
  lemma {:induction false} FGetsLine(before: string, line: string, after: string, size: nat)
    requires NoChar(line, '\n') && |line| + 1 < size
    ensures FGets(before + (line + "\n") + after, |before|, size) == Read(line + "\n", false)
  {
    var f := before + (line + "\n") + after;
    var p := |before|;
    var nl := IndexOf(f, '\n', p);
    assert f[p + |line|] == '\n';
    forall k | p <= k < p + |line| ensures f[k] != '\n' {
      assert f[k] == line[k - p];
    }
    assert nl == p + |line|;
    assert f[p..nl + 1] == line + "\n";
  }

  /** A last line without a newline is read whole, and meets the end. */
  lemma FGetsLast(before: string, line: string, size: nat)
    requires NoChar(line, '\n') && 0 < |line| && |line| + 1 < size
    ensures FGets(before + line, |before|, size) == Read(line, true)
  {
    var f, p := before + line, |before|;
    forall k | p <= k < |f| ensures f[k] != '\n' { assert f[k] == line[k - p]; }
    assert f[p..] == line;
  }
}

/** The numbers that strtol and sscanf take from a text: spaces, a sign, an
    optional 0x, and digits. */
module Numerals {
  import opened CText

  predicate AllSpace(s: string) { forall i :: 0 <= i < |s| ==> IsSpace(s[i]) }

  /** Hexadecimal digits that denote n. */
  predicate Digits(s: string, n: int) { s != "" && AllHex(s) && HexNum(s) == n }

  /** The digits may have 0x in front. */
  predicate Unsigned(s: string, n: int) {
    Digits(s, n) || (|s| > 2 && s[0] == '0' && (s[1] == 'x' || s[1] == 'X') && Digits(s[2..], n))
  }

  /** A sign may stand in front of that. */
  predicate Signed(s: string, v: int) {
    if s != "" && s[0] == '-' then Unsigned(s[1..], -v)
    else if s != "" && s[0] == '+' then Unsigned(s[1..], v)
    else Unsigned(s, v)
  }

  /** And white space in front of everything. */
  ghost predicate Numeral(s: string, v: int) {
    exists i :: 0 <= i <= |s| && AllSpace(s[..i]) && Signed(s[i..], v)
  }

  lemma {:induction false} SpacesSkipped(s: string, i: nat)
    requires i <= |s|
    ensures forall k :: i <= k < SkipSpace(s, i) ==> IsSpace(s[k])
    ensures SkipSpace(s, i) < |s| ==> !IsSpace(s[SkipSpace(s, i)])
    decreases |s| - i
  {
    if i < |s| && IsSpace(s[i]) { SpacesSkipped(s, i + 1); }
  }

  /** A signed numeral starts with no space, so it starts where the spaces end. */
  lemma NumeralAt(s: string, v: int)
    ensures Numeral(s, v) <==> Signed(s[SkipSpace(s, 0)..], v)
  {
    hide SkipSpace;
    var j := SkipSpace(s, 0);
    SpacesSkipped(s, 0);
    assert AllSpace(s[..j]);
    if i :| 0 <= i <= |s| && AllSpace(s[..i]) && Signed(s[i..], v) {
      SignedStart(s[i..], v);
      assert s[i..][0] == s[i];
      assert forall k :: 0 <= k < i ==> s[..i][k] == s[k];
    }
  }

  lemma SignedStart(t: string, v: int)
    requires Signed(t, v)
    ensures t != "" && !IsSpace(t[0])
  {
    if t[0] != '-' && t[0] != '+' { assert IsHex(t[0]); }
  }

  /** What a text that starts at k looks like. */
  lemma UnsignedMeans(s: string, k: nat, n: int)
    requires k <= |s|
    ensures var d := HexStart(s, k);
            Unsigned(s[k..], n) <==> d < |s| && AllHex(s[d..]) && HexNum(s[d..]) == n
  {
    hide HexNum;
    var t := s[k..];
    assert |t| > 0 ==> t[0] == s[k];
    assert |t| > 1 ==> t[1] == s[k + 1];
    assert |t| > 2 ==> t[2..] == s[k + 2..];
    if Digits(t, n) && |t| > 1 { assert IsHex(t[1]); }
    if |t| > 2 && Digits(t[2..], n) { assert IsHex(t[2..][0]); }
    if |t| > 2 && AllHex(t) { assert IsHex(t[1]); }
  }

  /** The digits from k on, behind an optional 0x, are all that is left. */
  lemma UnsignedAt(s: string, k: nat, n: int)
    requires k <= |s|
    ensures var d := HexStart(s, k);
            Unsigned(s[k..], n) <==> HexRun(s, d) > 0 && d + HexRun(s, d) == |s| && HexNum(s[d..]) == n
  {
    hide HexNum, HexRun, HexStart, Unsigned, AllHex;
    UnsignedMeans(s, k, n);
    RunIff(s, HexStart(s, k));
  }

  lemma RunIff(s: string, d: nat)
    requires d <= |s|
    ensures d + HexRun(s, d) == |s| <==> AllHex(s[d..])
  {
    hide HexRun;
    if AllHex(s[d..]) { AllRun(s, d); }
    if d + HexRun(s, d) == |s| { assert s[d..d + HexRun(s, d)] == s[d..]; }
  }

  lemma AllRun(s: string, d: nat)
    requires d <= |s| && AllHex(s[d..])
    ensures HexRun(s, d) == |s| - d
  {
    assert s[d..d + (|s| - d)] == s[d..];
    HexRunExact(s, d, |s| - d);
  }

  /** Decimal digits, behind spaces and a sign. */
  ghost predicate Decimal(s: string, v: int) {
    exists i :: 0 <= i <= |s| && AllSpace(s[..i]) && SignedDecimal(s[i..], v)
  }

  ghost predicate DecDigits(s: string, n: int) { s != "" && AllDec(s) && DecNum(s) == n }

  ghost predicate SignedDecimal(s: string, v: int) {
    if s != "" && s[0] == '-' then DecDigits(s[1..], -v)
    else if s != "" && s[0] == '+' then DecDigits(s[1..], v)
    else DecDigits(s, v)
  }

  /** A numeral behind spaces. */
  lemma NumeralBehind(s: string, i: nat, j: nat, end: nat, v: int)
    requires i <= j <= end <= |s| && (forall k :: i <= k < j ==> IsSpace(s[k])) && Signed(s[j..end], v)
    ensures Numeral(s[i..end], v)
  {
    hide Signed;
    var t := s[i..end];
    assert t[..j - i] == s[i..j] && t[j - i..] == s[j..end];
    assert AllSpace(t[..j - i]);
  }

  /** What a scan takes is a numeral, and no digit stands behind it. */
  lemma ScannedNumeral(s: string, i: nat)
    requires i <= |s| && ScanHex(s, i).Some?
    ensures var r := ScanHex(s, i).value;
            i <= r.end <= |s| && (r.end < |s| ==> !IsHex(s[r.end])) && Numeral(s[i..r.end], r.value)
  {
    hide SkipSpace, HexRun, HexNum, Numeral;
    var j, end := SkipSpace(s, i), ScanHex(s, i).value.end;
    SpacesSkipped(s, i);
    var signed := j < |s| && (s[j] == '-' || s[j] == '+');
    var k := HexStart(s, if signed then j + 1 else j);
    assert s[k..end] == s[j..end][k - j..];
    NumeralBehind(s, i, j, end, ScanHex(s, i).value.value);
  }

  lemma ScannedDecimal(s: string, i: nat)
    requires i <= |s| && ScanDec(s, i).Some?
    ensures var r := ScanDec(s, i).value;
            i <= r.end <= |s| && (r.end < |s| ==> !IsDec(s[r.end])) && Decimal(s[i..r.end], r.value)
  {
    hide SkipSpace, DecRun, DecNum, Decimal;
    var j, end := SkipSpace(s, i), ScanDec(s, i).value.end;
    SpacesSkipped(s, i);
    var k := if j < |s| && (s[j] == '-' || s[j] == '+') then j + 1 else j;
    assert s[k..end] == s[j..end][k - j..];
    DecimalBehind(s, i, j, end, ScanDec(s, i).value.value);
  }

  lemma DecimalBehind(s: string, i: nat, j: nat, end: nat, v: int)
    requires i <= j <= end <= |s| && (forall k :: i <= k < j ==> IsSpace(s[k])) && SignedDecimal(s[j..end], v)
    ensures Decimal(s[i..end], v)
  {
    hide SignedDecimal;
    var t := s[i..end];
    assert t[..j - i] == s[i..j] && t[j - i..] == s[j..end];
    assert AllSpace(t[..j - i]);
  }
}

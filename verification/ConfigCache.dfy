/** The growing partial copy of a device's configuration space
    (src/adna.c, config_fetch and get_conf_*). */
module ConfigCache {
  import opened Config
  import opened CText
  import opened IdPacking

  function Min(a: nat, b: nat): nat { if a < b then a else b }

  /** The buffer size after n doublings in unsigned 32-bit arithmetic. */
  function Doubled(n: nat): U32 {
    if n == 0 then 256
    else if Doubled(n - 1) < 0x8000_0000 then Doubled(n - 1) * 2 else Doubled(n - 1) * 2 - TWO32
  }

  /** From a live buffer, the doubling reaches the end of a request if and only
      if that is at most 2^31; the loop of config_fetch never ends otherwise. */
  lemma DoublingEndsIff(end: U32, k: nat)
    requires Doubled(k) > 0
    ensures (exists n :: n >= k && Doubled(n) >= end) <==> end <= 0x8000_0000
  {
    hide Doubled;
    DoublingValue(k);
    DoublingValue(23);
    if end <= 0x8000_0000 {
      assert 23 >= k && Doubled(23) >= end;
    } else {
      forall n: nat ensures Doubled(n) <= 0x8000_0000 { DoublingValue(n); }
    }
  }

  /** The size is a power of two up to 2^31, and 0 from then on. */
  lemma {:induction false} DoublingValue(n: nat)
    ensures Doubled(n) == if n <= 23 then Shl(1, n + 8) else 0
    ensures Doubled(n) <= 0x8000_0000 && (n == 23 ==> Doubled(n) == 0x8000_0000)
    decreases n
  {
    ShlWord();
    assert Shl(1, 32) == 2 * Shl(1, 31);
    if n == 0 {
      ShlNibble(1, 0);
      ShlNibble(1, 4);
    } else {
      DoublingValue(n - 1);
      if n <= 23 { ShlRises(n + 8, 31); }
    }
    hide Shl, Doubled;
  }

  lemma {:induction false} ShlRises(j: nat, k: nat)
    requires j <= k
    ensures 0 < Shl(1, j) <= Shl(1, k) && (j < k ==> Shl(1, j) < Shl(1, k))
    decreases k
  {
    if j < k { ShlRises(j, k - 1); } else if j > 0 { ShlRises(j - 1, j - 1); }
  }

  /** struct device, as far as the cache goes. The hardware is fixed; the n-th
      block read moves `transfers(n)` bytes and fails when that is too few. */
  class Device {
    const hw: nat -> Byte
    const transfers: nat -> nat
    var readCount: nat
    var config: array<Byte>
    var present: array<bool>

    /** Every byte marked present equals the hardware byte. */
    ghost predicate Valid()
      reads this, config, present
    {
      && config.Length == present.Length >= 256
      && forall k :: 0 <= k < present.Length && present[k] ==> config[k] == hw(k)
    }

    ghost predicate Has(k: nat)
      reads this, present
    {
      k < present.Length && present[k]
    }

    /** scan_device: a cache of the 256 bytes that were just read. */
    constructor (hw: nat -> Byte, transfers: nat -> nat)
      ensures Valid() && this.hw == hw && this.transfers == transfers
      ensures fresh(config) && fresh(present) && config.Length == 256
      ensures forall k: nat :: Has(k) <==> k < 256
    {
      this.hw, this.transfers, readCount := hw, transfers, 0;
      config := new Byte[256](k requires 0 <= k => hw(k));
      present := new bool[256](_ => true);
    }

    /** pci_read_block: on failure only a prefix of the range has arrived. */
    method ReadBlock(pos: nat, len: nat) returns (ok: bool)
      requires pos + len <= config.Length
      modifies this`readCount, config
      ensures var n := Min(transfers(old(readCount)), len);
              && (forall k :: 0 <= k < config.Length ==>
                    config[k] == if pos <= k < pos + n then hw(k) else old(config[k]))
              && readCount == old(readCount) + 1 && ok == (n == len)
    {
      var n := Min(transfers(readCount), len);
      readCount := readCount + 1;
      forall k | pos <= k < pos + n { config[k] := hw(k); }
      ok := n == len;
    }

    /** The doubling of config_fetch: the new part of both buffers is unknown. */
    method Grow(end: nat)
      requires Valid() && config.Length < end <= 0x8000_0000
      modifies this`config, this`present
      ensures Valid() && fresh(config) && fresh(present) && config.Length >= end
      ensures forall k: nat :: Has(k) <==> old(Has(k))
      ensures present.Length >= old(present.Length)
      ensures forall k :: 0 <= k < old(config.Length) ==> config[k] == old(config[k])
    {
      var size := config.Length;
      while end > size
        invariant size >= config.Length
        decreases end - size
      {
        size := size * 2;
      }
      var config', present' := new Byte[size], new bool[size](_ => false);
      forall k | 0 <= k < config.Length { config'[k] := config[k]; }
      forall k | 0 <= k < present.Length { present'[k] := present[k]; }
      config, present := config', present';
    }

    /** config_fetch: on success the whole range is present; nothing that was
        present is lost or changed, also when the read fails or the buffers move.
        Only the range [p, p + n) from the first to the last missing byte is read,
        in one transfer, and not at all when no byte is missing. Ranges end below
        2^31, where the unsigned doubling cannot wrap. */
    method Fetch(pos0: nat, len0: nat) returns (ok: bool, ghost p: nat, ghost n: nat)
      requires Valid() && pos0 + len0 <= 0x8000_0000
      modifies this`readCount, this`config, this`present, config, present
      ensures Valid() && (config == old(config) || fresh(config)) && (present == old(present) || fresh(present))
      ensures forall k: nat :: Has(k) <==> old(Has(k)) || (ok && pos0 <= k < pos0 + len0)
      ensures forall k: nat :: old(Has(k)) ==> Has(k) && config[k] == old(config[k])
      ensures pos0 <= p && p + n <= pos0 + len0
      ensures forall k :: pos0 <= k < pos0 + len0 && !(p <= k < p + n) ==> old(Has(k))
      ensures n > 0 ==> !old(Has(p)) && !old(Has(p + n - 1))
      ensures if n == 0 then ok && readCount == old(readCount)
              else readCount == old(readCount) + 1 && ok == (transfers(old(readCount)) >= n)
    {
      var pos, len := pos0, len0;
      var end := pos + len;
      while pos < config.Length && len > 0 && present[pos]
        invariant pos0 <= pos && 0 <= len && pos + len == end
        invariant forall k :: pos0 <= k < pos ==> Has(k)
        decreases len
      {
        pos, len := pos + 1, len - 1;
      }
      while pos + len <= config.Length && len > 0 && present[pos + len - 1]
        invariant pos0 <= pos && 0 <= len && pos + len <= end
        invariant forall k :: pos + len <= k < end ==> Has(k)
        decreases len
      {
        len := len - 1;
      }
      p, n := pos, len;
      if len == 0 { return true, p, n; }
      if end > config.Length {
        Grow(end);
      }
      ok := ReadBlock(pos, len);
      assert forall k: nat :: Has(k) <==> old(Has(k));
      if ok {
        label Marking:
        forall k | pos <= k < pos + len { present[k] := true; }
        assert forall k: nat :: Has(k) <==> old@Marking(Has(k)) || pos <= k < pos + len;
      }
    }

    /** check_conf_range: false is the internal-bug exit. */
    method CheckRange(pos0: nat, len0: nat) returns (ok: bool)
      requires Valid() && pos0 + len0 <= present.Length
      ensures ok <==> forall k :: pos0 <= k < pos0 + len0 ==> Has(k)
    {
      var pos, len := pos0, len0;
      while len > 0
        invariant pos0 <= pos && pos + len == pos0 + len0
        invariant forall k :: pos0 <= k < pos ==> Has(k)
      {
        if !present[pos] { assert !Has(pos); return false; }
        pos, len := pos + 1, len - 1;
      }
      ok := true;
    }

    method GetByte(pos: nat) returns (r: Option<Byte>)
      requires Valid() && pos + 1 <= present.Length
      ensures r == if Has(pos) then Some(hw(pos)) else None
    {
      var ok := CheckRange(pos, 1);
      r := if ok then Some(config[pos]) else None;
    }

    method GetWord(pos: nat) returns (r: Option<U16>)
      requires Valid() && pos + 2 <= present.Length
      ensures r == if Has(pos) && Has(pos + 1) then Some(Word(hw(pos), hw(pos + 1))) else None
    {
      var ok := CheckRange(pos, 2);
      r := if ok then Some(Word(config[pos], config[pos + 1])) else None;
    }

    method GetLong(pos: nat) returns (r: Option<U32>)
      requires Valid() && pos + 4 <= present.Length
      ensures r == if Has(pos) && Has(pos + 1) && Has(pos + 2) && Has(pos + 3)
                   then Some(Long(hw(pos), hw(pos + 1), hw(pos + 2), hw(pos + 3))) else None
    {
      var ok := CheckRange(pos, 4);
      r := if ok then Some(Long(config[pos], config[pos + 1], config[pos + 2], config[pos + 3])) else None;
    }
  }

  /** The way the rest of the program reads a register: fetch, then get. The
      value is the hardware's, and the get never dies. */
  method FetchLong(d: Device, pos: nat) returns (r: Option<U32>)
    requires d.Valid() && pos + 4 <= 0x8000_0000
    modifies d`readCount, d`config, d`present, d.config, d.present
    ensures d.Valid()
    ensures r.Some? ==> r.value == Long(d.hw(pos), d.hw(pos + 1), d.hw(pos + 2), d.hw(pos + 3))
    ensures r == None ==> exists k :: pos <= k < pos + 4 && !old(d.Has(k))
    ensures r == None ==> forall k: nat :: d.Has(k) <==> old(d.Has(k))
  {
    var ok, p, n := d.Fetch(pos, 4);
    if !ok { return None; }
    assert d.Has(pos) && d.Has(pos + 1) && d.Has(pos + 2) && d.Has(pos + 3);
    r := d.GetLong(pos);
  }
}

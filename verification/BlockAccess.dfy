/** Block access to configuration space (lib/generic.c, pci_generic_block_op):
    any byte range is served by naturally aligned accesses of 1, 2 or 4 bytes. */
module BlockAccess {
  import opened Config

  /** One access issued to the back-end. */
  datatype Op = Op(pos: nat, size: nat) {
    predicate Aligned() {
      size == 1 || (size == 2 && pos % 2 == 0) || (size == 4 && pos % 4 == 0)
    }
  }

  /** ops cover [pos, pos + len) in order, without gap or overlap. */
  predicate Tiles(ops: seq<Op>, pos: nat, len: nat) {
    if ops == [] then len == 0
    else ops[0].Aligned() && ops[0].pos == pos && ops[0].size <= len
         && Tiles(ops[1..], pos + ops[0].size, len - ops[0].size)
  }

  /** The widest aligned access at pos that does not pass pos + len. */
  function Widest(pos: nat, len: nat): (s: nat)
    requires len > 0
    ensures Op(pos, s).Aligned() && s <= len
  {
    if pos % 4 == 0 && len >= 4 then 4 else if pos % 2 == 0 && len >= 2 then 2 else 1
  }

  /** The widest-first tiling of a range. */
  function Tiling(pos: nat, len: nat): (ops: seq<Op>)
    decreases len
  {
    if len == 0 then []
    else
      var s := Widest(pos, len);
      [Op(pos, s)] + Tiling(pos + s, len - s)
  }

  lemma {:induction false} TilingTiles(pos: nat, len: nat)
    ensures Tiles(Tiling(pos, len), pos, len)
    decreases len
  {
    if len > 0 {
      var s := Widest(pos, len);
      TilingTiles(pos + s, len - s);
      assert Tiling(pos, len)[1..] == Tiling(pos + s, len - s);
    }
  }

  /** Every access has 1, 2 or 4 bytes and starts at a multiple of its size. */
  lemma {:induction false} TilingNatural(pos: nat, len: nat)
    ensures forall op | op in Tiling(pos, len) ::
              (op.size == 1 || op.size == 2 || op.size == 4) && op.pos % op.size == 0
    decreases len
  {
    if len > 0 {
      var s := Widest(pos, len);
      TilingNatural(pos + s, len - s);
    }
  }

  /** From a multiple of four on there is one access for every four bytes, and one
      or two for what is left. */
  lemma {:induction false} TilingCount(q: nat, n: nat, rest: nat)
    requires rest < 4
    ensures |Tiling(4 * q, 4 * n + rest)| == n + if rest == 0 then 0 else if rest == 3 then 2 else 1
    decreases n
  {
    if n > 0 {
      FourOnFour(q);
      TilingStep(4 * q, 4 * n + rest, 4);
      TilingCount(q + 1, n - 1, rest);
      assert 4 * q + 4 == 4 * (q + 1) && 4 * n + rest - 4 == 4 * (n - 1) + rest;
    } else {
      RestOnFour(4 * q, rest);
    }
  }

  lemma FourOnFour(q: nat)
    ensures 4 * q % 4 == 0
  {
  }

  lemma RestOnFour(pos: nat, rest: nat)
    requires rest < 4 && pos % 4 == 0
    ensures |Tiling(pos, rest)| == if rest == 0 then 0 else if rest == 3 then 2 else 1
  {
    hide Tiling;
    Parity(pos);
    NoTiling(pos + rest);
    if rest == 3 {
      Parity4(pos);
      TilingStep(pos, 3, 2);
      TilingStep(pos + 2, 1, 1);
    } else if rest > 0 {
      TilingStep(pos, rest, rest);
    }
  }

  lemma NoTiling(pos: nat)
    ensures Tiling(pos, 0) == []
  {
  }

  lemma TilingStep(pos: nat, len: nat, s: nat)
    requires 0 < len && s == Widest(pos, len)
    ensures Tiling(pos, len) == [Op(pos, s)] + Tiling(pos + s, len - s)
  {
  }

  lemma Parity(pos: nat)
    ensures pos % 2 == 1 ==> (pos + 1) % 2 == 0
    ensures pos % 2 == 0 && pos % 4 != 0 ==> (pos + 2) % 4 == 0
    ensures pos % 4 == 0 ==> (pos + 4) % 4 == 0 && pos % 2 == 0
  {
    if pos % 4 == 0 { assert pos == pos / 4 * 4; }
  }

  lemma Parity4(pos: nat)
    requires pos % 4 == 0
    ensures (pos + 2) % 4 == 2 && (pos + 2) % 2 == 0
  {
    var q := pos / 4;
    assert pos + 2 == 4 * q + 2 && pos + 2 == 2 * (2 * q + 1);
  }

  lemma Narrow42(pos: nat, len: nat)
    requires pos % 4 == 0 && len >= 4
    ensures |Tiling(pos, len)| == |Tiling(pos + 2, len - 2)|
  {
    hide Tiling;
    Parity4(pos);
    assert Widest(pos + 2, len - 2) == 2;
    TilingStep(pos, len, 4);
    TilingStep(pos + 2, len - 2, 2);
  }

  lemma Narrow41(pos: nat, len: nat)
    requires pos % 4 == 0 && len >= 4
    ensures |Tiling(pos, len)| < |Tiling(pos + 1, len - 1)|
  {
    assert Widest(pos + 1, len - 1) == 1;
    TilingStep(pos + 1, len - 1, 1);
    Narrow42(pos, len);
  }

  lemma Narrow21(pos: nat, len: nat)
    requires len >= 2 && Widest(pos, len) == 2
    ensures |Tiling(pos, len)| == |Tiling(pos + 1, len - 1)|
  {
    assert Widest(pos + 1, len - 1) == 1;
    TilingStep(pos, len, 2);
    TilingStep(pos + 1, len - 1, 1);
  }

  /** Starting with a narrower access never pays off. */
  lemma NarrowStep(pos: nat, len: nat, s: nat)
    requires s <= len && Op(pos, s).Aligned()
    ensures |Tiling(pos, len)| <= 1 + |Tiling(pos + s, len - s)|
  {
    var w := Widest(pos, len);
    if s == w { TilingStep(pos, len, w); }
    else if w == 2 { Narrow21(pos, len); }
    else if s == 2 { Narrow42(pos, len); }
    else { Narrow41(pos, len); }
  }

  /** No aligned cover of the range is shorter than the widest-first one. */
  lemma {:induction false} TilingMinimal(ops: seq<Op>, pos: nat, len: nat)
    requires Tiles(ops, pos, len)
    ensures |Tiling(pos, len)| <= |ops|
    decreases |ops|
  {
    if ops != [] {
      var s := ops[0].size;
      TilingMinimal(ops[1..], pos + s, len - s);
      NarrowStep(pos, len, s);
    }
  }

  /** A device behind a back-end: its configuration bytes, the accesses seen so
      far, and an arbitrary fixed answer to whether the n-th access succeeds. */
  class Device {
    var space: seq<Byte>
    var log: seq<Op>
    const answers: nat -> bool

    constructor (space: seq<Byte>, answers: nat -> bool)
      ensures this.space == space && this.answers == answers && log == []
    {
      this.space, this.answers, log := space, answers, [];
    }

    /** Whether access number n can be served. */
    ghost predicate Serves(n: nat, op: Op)
      reads this`space
    {
      op.pos + op.size <= |space| && answers(n)
    }

    /** methods->read and methods->write for one aligned access. */
    method Access(op: Op, buf: array<Byte>, off: nat, write: bool) returns (ok: bool)
      requires op.Aligned() && off + op.size <= buf.Length
      modifies this`space, this`log, buf
      ensures log == old(log) + [op]
      ensures ok == old(Serves(|log|, op))
      ensures Effect(ok, write, op, off, old(space), old(buf[..]), space, buf[..])
    {
      ok := op.pos + op.size <= |space| && answers(|log|);
      log := log + [op];
      if ok && write {
        space := space[..op.pos] + buf[off..off + op.size] + space[op.pos + op.size..];
      } else if ok {
        forall k | 0 <= k < op.size { buf[off + k] := space[op.pos + k]; }
      }
    }
  }

  /** What one access does to the device and the buffer. */
  ghost predicate Effect(ok: bool, write: bool, op: Op, off: nat,
                         space0: seq<Byte>, buf0: seq<Byte>, space: seq<Byte>, buf: seq<Byte>)
  {
    && |space| == |space0| && |buf| == |buf0|
    && (ok ==> op.pos + op.size <= |space0| && off + op.size <= |buf0|)
    && (!(ok && write) ==> space == space0)
    && (!(ok && !write) ==> buf == buf0)
    && (ok && write ==> forall k :: 0 <= k < |space| ==>
          space[k] == if op.pos <= k < op.pos + op.size then buf0[off + (k - op.pos)] else space0[k])
    && (ok && !write ==> forall k :: 0 <= k < |buf| ==>
          buf[k] == if off <= k < off + op.size then space0[op.pos + (k - off)] else buf0[k])
  }

  /** What a run over the range that reached `end` did to buffer and device. */
  ghost predicate Moved(write: bool, pos: nat, end: nat,
                        space0: seq<Byte>, buf0: seq<Byte>, space: seq<Byte>, buf: seq<Byte>)
  {
    && pos <= end && end - pos <= |buf0| && (end <= |space0| || end == pos)
    && |space| == |space0| && |buf| == |buf0|
    && (if write then
          && buf == buf0
          && (forall k :: 0 <= k < |space| ==>
               space[k] == if pos <= k < end then buf0[k - pos] else space0[k])
        else
          && space == space0
          && (forall k :: 0 <= k < |buf| ==>
               buf[k] == if k < end - pos then space0[pos + k] else buf0[k]))
  }

  /** A run, then one more access right where it stands. */
  lemma MovedOn(ok: bool, write: bool, pos: nat, op: Op, space0: seq<Byte>, buf0: seq<Byte>,
                space1: seq<Byte>, buf1: seq<Byte>, space2: seq<Byte>, buf2: seq<Byte>)
    requires Moved(write, pos, op.pos, space0, buf0, space1, buf1)
    requires Effect(ok, write, op, op.pos - pos, space1, buf1, space2, buf2)
    ensures Moved(write, pos, if ok then op.pos + op.size else op.pos, space0, buf0, space2, buf2)
  {
    if ok && write {
      forall k | 0 <= k < |space2|
        ensures space2[k] == if pos <= k < op.pos + op.size then buf0[k - pos] else space0[k]
      {
        if op.pos <= k < op.pos + op.size {
          assert (op.pos - pos) + (k - op.pos) == k - pos;
        }
      }
    } else if ok {
      forall k | 0 <= k < |buf2|
        ensures buf2[k] == if k < op.pos + op.size - pos then space0[pos + k] else buf0[k]
      {
        if op.pos - pos <= k < op.pos - pos + op.size {
          assert op.pos + (k - (op.pos - pos)) == pos + k;
        }
      }
    }
  }

  /** A block operation as it was asked for, and the state it started from. */
  datatype Job = Job(write: bool, pos: nat, len: nat, log: seq<Op>, space: seq<Byte>, buf: seq<Byte>)

  /** Accesses ops, the first `good` of them successful, were issued in this job. */
  ghost predicate Issued(d: Device, job: Job, ops: seq<Op>, good: nat)
    reads d
  {
    && d.log == job.log + ops && good <= |ops| && |d.space| == |job.space|
    && forall n :: 0 <= n < good ==> d.Serves(|job.log| + n, ops[n])
  }

  /** The state of a job between two accesses: `ops` of its tiling were issued
      and succeeded, [job.pos, pos) has moved, [pos, pos + len) remains. */
  ghost predicate Running(d: Device, buf: array<Byte>, job: Job, ops: seq<Op>, pos: nat, len: nat)
    reads d, buf
  {
    && pos + len == job.pos + job.len && job.len <= |job.buf|
    && Tiling(job.pos, job.len) == ops + Tiling(pos, len)
    && Issued(d, job, ops, |ops|)
    && Moved(job.write, job.pos, pos, job.space, job.buf, d.space, buf[..])
  }

  /** The job ended at an access that failed. */
  ghost predicate Failed(d: Device, buf: array<Byte>, job: Job, ops: seq<Op>)
    reads d, buf
  {
    && ops != [] && ops <= Tiling(job.pos, job.len) && ops[|ops| - 1].pos <= job.pos + job.len
    && Issued(d, job, ops, |ops| - 1)
    && !d.Serves(|job.log| + |ops| - 1, ops[|ops| - 1])
    && Moved(job.write, job.pos, ops[|ops| - 1].pos, job.space, job.buf, d.space, buf[..])
  }

  /** The next access of a job, which is the widest possible one. */
  method Next(d: Device, pos: nat, size: nat, buf: array<Byte>, off: nat, write: bool,
              ghost job: Job, ghost len: nat, ghost ops: seq<Op>)
    returns (ok: bool, ghost ops': seq<Op>)
    requires 0 < len && size == Widest(pos, len) && off == pos - job.pos && write == job.write
    requires Running(d, buf, job, ops, pos, len)
    modifies d`space, d`log, buf
    ensures if ok then Running(d, buf, job, ops', pos + size, len - size) else Failed(d, buf, job, ops')
  {
    ghost var op := Op(pos, size);
    ok := d.Access(Op(pos, size), buf, off, write);
    ops' := ops + [op];
    TilingStep(pos, len, size);
    MovedOn(ok, write, job.pos, op, job.space, job.buf, old(d.space), old(buf[..]), d.space, buf[..]);
    assert ops + Tiling(pos, len) == ops' + Tiling(pos + size, len - size);
    forall n | 0 <= n < |ops| ensures d.Serves(|job.log| + n, ops'[n]) {
      assert old(d.Serves(|job.log| + n, ops[n]));
    }
    assert d.log == job.log + ops';
  }

  /** `if (when) { r(d, pos, buf, size) ... }`: one conditional access and the
      move of the cursor behind it. */
  method NextIf(when: bool, d: Device, pos: nat, size: nat, len: nat, buf: array<Byte>, write: bool,
                pos0: nat, ghost job: Job, ghost ops: seq<Op>)
    returns (ok: bool, pos': nat, len': nat, ghost ops': seq<Op>)
    requires when ==> 0 < len && size == Widest(pos, len)
    requires pos0 == job.pos && write == job.write && pos >= pos0
    requires Running(d, buf, job, ops, pos, len)
    modifies d`space, d`log, buf
    ensures if ok then Running(d, buf, job, ops', pos', len') else Failed(d, buf, job, ops')
    ensures ok ==> pos' == (if when then pos + size else pos) && len' == (if when then len - size else len)
  {
    ok, pos', len', ops' := true, pos, len, ops;
    if when {
      ok, ops' := Next(d, pos, size, buf, pos - pos0, write, job, len, ops);
      if ok { pos', len' := pos + size, len - size; }
    }
  }

  /** The accesses that bring the position to a multiple of four. */
  method Head(d: Device, pos0: nat, len0: nat, buf: array<Byte>, write: bool, ghost job: Job)
    returns (ok: bool, pos: nat, len: nat, ghost ops: seq<Op>)
    requires pos0 == job.pos && write == job.write && Running(d, buf, job, [], pos0, len0)
    modifies d`space, d`log, buf
    ensures if ok then Running(d, buf, job, ops, pos, len) else Failed(d, buf, job, ops)
    ensures ok ==> pos >= pos0 && (len >= 2 ==> pos % 4 == 0)
  {
    Parity(pos0);
    ok, pos, len, ops := NextIf(pos0 % 2 == 1 && len0 >= 1, d, pos0, 1, len0, buf, write, pos0, job, []);
    if ok {
      Parity(pos);
      ok, pos, len, ops := NextIf(pos % 4 != 0 && len >= 2, d, pos, 2, len, buf, write, pos0, job, ops);
    }
  }

  /** The accesses for the fewer than four bytes left at the end. */
  method Tail(d: Device, pos1: nat, len1: nat, buf: array<Byte>, write: bool, pos0: nat,
              ghost job: Job, ghost ops1: seq<Op>)
    returns (ok: bool, ghost ops: seq<Op>)
    requires pos0 == job.pos && write == job.write && Running(d, buf, job, ops1, pos1, len1)
    requires pos1 >= pos0 && len1 < 4 && (len1 >= 2 ==> pos1 % 4 == 0)
    modifies d`space, d`log, buf
    ensures if ok then Running(d, buf, job, ops, pos1 + len1, 0) else Failed(d, buf, job, ops)
  {
    var pos, len;
    Parity(pos1);
    ok, pos, len, ops := NextIf(len1 >= 2, d, pos1, 2, len1, buf, write, pos0, job, ops1);
    if ok {
      ok, pos, len, ops := NextIf(len != 0, d, pos, 1, len, buf, write, pos0, job, ops);
    }
  }

  lemma Starts(d: Device, buf: array<Byte>, job: Job)
    requires job.len <= buf.Length && job.log == d.log && job.space == d.space && job.buf == buf[..]
    ensures Running(d, buf, job, [], job.pos, job.len)
  {
  }

  lemma Finished(d: Device, buf: array<Byte>, job: Job, ops: seq<Op>)
    requires Running(d, buf, job, ops, job.pos + job.len, 0)
    ensures ops == Tiling(job.pos, job.len)
  {
  }

  lemma WidestFour(pos: nat, len: nat)
    requires pos % 4 == 0 && len >= 4
    ensures Widest(pos, len) == 4 && (pos + 4) % 4 == 0
  {
    Parity(pos);
  }

  /** pci_generic_block_op: the accesses issued are the widest-first tiling, or
      the part of it up to and including the first access that failed; exactly
      the bytes before the failed access moved. */
  method BlockOp(d: Device, pos0: nat, buf: array<Byte>, len0: nat, write: bool)
    returns (ok: bool, ghost ops: seq<Op>)
    requires len0 <= buf.Length
    modifies d`space, d`log, buf
    ensures var job := Job(write, pos0, len0, old(d.log), old(d.space), old(buf[..]));
            if ok then ops == Tiling(pos0, len0) && Running(d, buf, job, ops, pos0 + len0, 0)
            else Failed(d, buf, job, ops)
  {
    hide Running, Failed, Tiling, Widest;
    ghost var job := Job(write, pos0, len0, d.log, d.space, buf[..]);
    Starts(d, buf, job);
    var pos, len;
    ok, pos, len, ops := Head(d, pos0, len0, buf, write, job);
    if !ok { return; }
    while len >= 4
      invariant pos >= pos0 && (len >= 2 ==> pos % 4 == 0)
      invariant Running(d, buf, job, ops, pos, len)
    {
      WidestFour(pos, len);
      ok, pos, len, ops := NextIf(true, d, pos, 4, len, buf, write, pos0, job, ops);
      if !ok { return; }
    }
    ok, ops := Tail(d, pos, len, buf, write, pos0, job, ops);
    if ok { Finished(d, buf, job, ops); }
  }

  /** pci_generic_block_read: a successful read leaves the device's bytes in the buffer. */
  method BlockRead(d: Device, pos: nat, buf: array<Byte>, len: nat) returns (ok: bool)
    requires len <= buf.Length
    modifies d`space, d`log, buf
    ensures d.space == old(d.space)
    ensures buf[len..] == old(buf[len..])
    ensures ok && len > 0 ==> pos + len <= |d.space| && buf[..len] == d.space[pos..pos + len]
    ensures ok ==> d.log == old(d.log) + Tiling(pos, len)
  {
    ghost var ops;
    ok, ops := BlockOp(d, pos, buf, len, false);
    assert forall k :: len <= k < buf.Length ==> buf[k] == old(buf[..])[k];
  }

  /** pci_generic_block_write: a successful write leaves the buffer's bytes in
      the device and nothing else changed. */
  method BlockWrite(d: Device, pos: nat, buf: array<Byte>, len: nat) returns (ok: bool)
    requires len <= buf.Length
    modifies d`space, d`log, buf
    ensures buf[..] == old(buf[..]) && |d.space| == old(|d.space|)
    ensures ok && len > 0 ==> pos + len <= |d.space| && d.space[pos..pos + len] == buf[..len]
    ensures ok ==> forall k :: 0 <= k < |d.space| && !(pos <= k < pos + len) ==> d.space[k] == old(d.space)[k]
    ensures ok ==> d.log == old(d.log) + Tiling(pos, len)
  {
    ghost var ops;
    ok, ops := BlockOp(d, pos, buf, len, true);
  }
}

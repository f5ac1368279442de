/** The bump allocator behind the name table (lib/names-hash.c, id_alloc): blocks
    are cut from 8 KB buckets and never given back one by one. */
module Arena {
  import opened CText

  const BUCKET_SIZE := 8192
  /** __alignof__ and sizeof of struct id_bucket on a 64-bit machine. */
  const ALIGNMENT := 8
  const BUCKET_HEADER := 16

  /** BUCKET_ALIGN: the next multiple of the alignment, always beyond n. */
  function BucketAlign(n: nat): (r: nat)
    ensures n < r <= n + ALIGNMENT && r % ALIGNMENT == 0
  {
    n + ALIGNMENT - n % ALIGNMENT
  }

  /** The part of every bucket that requests can use. */
  const ROOM: int := BUCKET_SIZE - BucketAlign(BUCKET_HEADER)

  datatype Block = Block(bucket: nat, pos: nat, size: nat) {
    predicate Fits() {
      pos % ALIGNMENT == 0 && BUCKET_HEADER <= pos && pos + size <= BUCKET_SIZE
    }

    predicate Apart(other: Block) {
      bucket != other.bucket || pos + size <= other.pos || other.pos + other.size <= pos
    }
  }

  /** The blocks handed out from the first n buckets are aligned, lie inside
      their bucket behind its header, end before `full` in the last bucket, and
      do not overlap. `full` may have been rounded past the bucket. */
  ghost predicate Layout(blocks: seq<Block>, n: nat, full: nat) {
    && full % ALIGNMENT == 0 && BUCKET_HEADER <= full
    && (forall b | b in blocks :: b.Fits() && b.bucket < n && (b.bucket == n - 1 ==> b.pos + b.size <= full))
    && (forall i, j :: 0 <= i < j < |blocks| ==> blocks[i].Apart(blocks[j]))
  }

  /** The first block of a bucket lies inside it if and only if the request is at
      most ROOM, which id_alloc does not check. */
  lemma FirstFitsIff(bucket: nat, size: nat)
    ensures Block(bucket, BucketAlign(BUCKET_HEADER), size).Fits() <==> size <= ROOM
  {
  }

  lemma LayoutGrows(blocks: seq<Block>, n: nat, full: nat, b: Block)
    requires Layout(blocks, n, full) && n > 0
    requires b.bucket == n - 1 && b.pos == full && full + b.size <= BUCKET_SIZE
    ensures Layout(blocks + [b], n, BucketAlign(full + b.size))
  {
    var longer := blocks + [b];
    forall c | c in longer ensures c.Fits() && c.bucket < n {
      assert c in blocks || c == b;
    }
    forall i, j | 0 <= i < j < |longer| ensures longer[i].Apart(longer[j]) {
      assert longer[i] in blocks;
    }
  }

  /** The bytes start, at off, with this C string. */
  ghost predicate Holds(bytes: seq<char>, off: nat, text: string) {
    off + |text| < |bytes| && bytes[off..off + |text|] == text && bytes[off + |text|] == NUL && NoChar(text, NUL)
  }

  /** A string and its NUL written at an offset of a block are found there. */
  lemma Stored(before: seq<char>, after: seq<char>, pos: nat, size: nat, off: nat, text: string)
    requires |before| == |after| && pos + size <= |after| && off + |text| + 1 <= size && NoChar(text, NUL)
    requires forall k :: 0 <= k < |after| ==>
               after[k] == if pos + off <= k <= pos + off + |text| then At(text, k - pos - off) else before[k]
    ensures Holds(after[pos..pos + size], off, text)
  {
    SliceOfSlice(after, pos, size, off, |text|);
    var there := after[pos + off..pos + off + |text|];
    forall k | 0 <= k < |text| ensures there[k] == text[k] { assert there[k] == after[pos + off + k]; }
    assert there == text;
  }

  lemma SliceOfSlice(s: string, at: nat, n: nat, off: nat, m: nat)
    requires at + n <= |s| && off + m <= n
    ensures s[at..at + n][off..off + m] == s[at + off..at + off + m]
  {
    var x, y := s[at..at + n][off..off + m], s[at + off..at + off + m];
    forall k | 0 <= k < m ensures x[k] == y[k] {
      assert s[at..at + n][off + k] == s[at + (off + k)];
    }
  }

  lemma TextAt(s: string, at: nat, n: nat, off: nat, text: string)
    requires at + n <= |s| && Holds(s[at..at + n], off, text)
    ensures at + off + |text| < |s| && s[at + off + |text|] == NUL
    ensures forall i :: at + off <= i < at + off + |text| ==> s[i] == text[i - at - off] != NUL
  {
    var bytes := s[at..at + n];
    forall i | at + off <= i < at + off + |text| ensures s[i] == text[i - at - off] != NUL {
      assert bytes[off..off + |text|][i - at - off] == bytes[i - at];
    }
  }

  /** memcpy of a string and its NUL. */
  method CopyString(mem: array<char>, at: nat, text: string)
    requires at + |text| + 1 <= mem.Length
    modifies mem
    ensures forall k {:trigger mem[..][k]} :: 0 <= k < mem.Length ==>
              mem[..][k] == if at <= k <= at + |text| then At(text, k - at) else old(mem[..])[k]
  {
    forall k | 0 <= k <= |text| { mem[at + k] := At(text, k); }
    assert forall k :: 0 <= k < mem.Length ==>
        mem[k] == if at <= k <= at + |text| then At(text, k - at) else old(mem[k]);
  }

  class Arena {
    var buckets: seq<array<char>>
    var full: nat
    ghost var blocks: seq<Block>
    ghost var Repr: set<object>

    ghost predicate Valid()
      reads this, Repr
      ensures Valid() ==> this in Repr
    {
      && this in Repr
      && (forall i :: 0 <= i < |buckets| ==> buckets[i] in Repr && buckets[i].Length == BUCKET_SIZE)
      && (forall i, j :: 0 <= i < j < |buckets| ==> buckets[i] != buckets[j])
      && Layout(blocks, |buckets|, full)
    }

    /** The contents of a block. */
    ghost function Bytes(b: Block): seq<char>
      requires Valid() && b in blocks
      reads this, Repr
    {
      buckets[b.bucket][b.pos..b.pos + b.size]
    }

    constructor ()
      ensures Valid() && fresh(Repr) && blocks == []
    {
      buckets, full := [], BUCKET_HEADER;
      blocks := [];
      Repr := {this};
    }

    /** id_alloc: a new block; the old ones and what is in them stay. */
    method Alloc(size: nat) returns (b: Block)
      requires Valid() && size <= ROOM
      modifies this
      ensures Valid() && fresh(Repr - old(Repr)) && old(Repr) <= Repr
      ensures blocks == old(blocks) + [b]
      ensures var another := old(|buckets|) == 0 || old(full) + size > BUCKET_SIZE;
              && |buckets| == old(|buckets|) + (if another then 1 else 0)
              && b == Block(|buckets| - 1, if another then BucketAlign(BUCKET_HEADER) else old(full), size)
              && full == BucketAlign(b.pos + size)
      ensures forall c | c in old(blocks) :: Bytes(c) == old(Bytes(c))
    {
      if |buckets| == 0 || full + size > BUCKET_SIZE {
        NewBucket();
      }
      b := Block(|buckets| - 1, full, size);
      LayoutGrows(blocks, |buckets|, full, b);
      full := BucketAlign(full + size);
      blocks := blocks + [b];
    }

    method NewBucket()
      requires Valid()
      modifies this
      ensures Valid() && fresh(Repr - old(Repr)) && old(Repr) <= Repr
      ensures |buckets| == old(|buckets|) + 1 && full == BucketAlign(BUCKET_HEADER)
      ensures blocks == old(blocks) && forall c | c in blocks :: Bytes(c) == old(Bytes(c))
    {
      var bucket := new char[BUCKET_SIZE];
      buckets := buckets + [bucket];
      Repr := Repr + {bucket};
      full := BucketAlign(BUCKET_HEADER);
    }

    /** memcpy of a C string into the block allocated last. No other block changes. */
    method Store(b: Block, off: nat, text: string)
      requires Valid() && |blocks| > 0 && b == blocks[|blocks| - 1]
      requires off + |text| + 1 <= b.size && NoChar(text, NUL)
      modifies Repr - {this}
      ensures Valid() && Holds(Bytes(b), off, text)
      ensures forall c | c in blocks[..|blocks| - 1] :: Bytes(c) == old(Bytes(c))
    {
      hide Holds, NoChar;
      var mem := buckets[b.bucket];
      ghost var before := mem[..];
      CopyString(mem, b.pos + off, text);
      Stored(before, mem[..], b.pos, b.size, off, text);
      assert mem[..][b.pos..b.pos + b.size] == Bytes(b);
      forall i | 0 <= i < |blocks| - 1 ensures Bytes(blocks[i]) == old(Bytes(blocks[i])) {
        var c := blocks[i];
        assert c.Apart(blocks[|blocks| - 1]);
        if c.bucket == b.bucket {
          assert mem[..][c.pos..c.pos + c.size] == before[c.pos..c.pos + c.size];
        }
      }
    }

    /** Read the C string at an offset of a block, up to its NUL. */
    method Fetch(b: Block, off: nat, ghost text: string) returns (s: string)
      requires Valid() && b in blocks && Holds(Bytes(b), off, text)
      ensures s == text
    {
      var mem, start := buckets[b.bucket], b.pos + off;
      var i := start;
      assert mem[..][b.pos..b.pos + b.size] == Bytes(b);
      TextAt(mem[..], b.pos, b.size, off, text);
      hide Holds, NoChar;
      while mem[i] != NUL
        invariant start <= i <= start + |text| && mem[start..i] == text[..i - start]
        decreases start + |text| - i
      {
        i := i + 1;
      }
      s := mem[start..i];
    }
  }
}

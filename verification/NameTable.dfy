/** The table of names (lib/names-hash.c): hash chains of entries whose text
    lives in the bump arena. It behaves as a map that keeps the first text
    stored for a key. */
module NameTable {
  import opened Config
  import opened CText
  import opened IdPacking
  import A = Arena

  /** enum id_entry_src, in increasing rank. */
  datatype Src = UnknownSrc | Cache | Net | Hwdb | Local {
    function Rank(): nat {
      match this case UnknownSrc => 0 case Cache => 1 case Net => 2 case Hwdb => 3 case Local => 4
    }
  }

  /** enum id_entry_type */
  const ID_UNKNOWN: Byte := 0
  const ID_VENDOR: Byte := 1
  const ID_DEVICE: Byte := 2
  const ID_SUBSYSTEM: Byte := 3
  const ID_GEN_SUBSYSTEM: Byte := 4
  const ID_CLASS: Byte := 5
  const ID_SUBCLASS: Byte := 6
  const ID_PROGIF: Byte := 7

  /** The lookup flags that choose sources (PCI_LOOKUP_*). */
  datatype Flags = Flags(network: bool, skipLocal: bool, cache: bool, refreshCache: bool, noHwdb: bool)

  /** A key as the table compares it: category and packed ids. */
  datatype Key = Key(cat: Byte, id12: U32, id34: U32)

  function MakeKey(cat: Byte, id1: U32, id2: U32, id3: U32, id4: U32): Key {
    Key(cat, IdPair(id1, id2), IdPair(id3, id4))
  }

  /** With 16-bit ids, keys are equal only when all components are. */
  lemma KeyInjective(cat: Byte, a1: U16, a2: U16, a3: U16, a4: U16, cat': Byte, b1: U16, b2: U16, b3: U16, b4: U16)
    requires MakeKey(cat, a1, a2, a3, a4) == MakeKey(cat', b1, b2, b3, b4)
    ensures cat == cat' && a1 == b1 && a2 == b2 && a3 == b3 && a4 == b4
  {
    PairRoundTrip(a1, a2);
    PairRoundTrip(a3, a4);
    PairRoundTrip(b1, b2);
    PairRoundTrip(b3, b4);
  }

  datatype Item = Item(name: string, src: Src)

  /** Whether the flags let a lookup see entries from this source. */
  predicate Allowed(src: Src, f: Flags) {
    match src
    case Local => !f.skipLocal
    case Net => f.network
    case Cache => f.cache
    case Hwdb => !f.skipLocal && !f.noHwdb
    case UnknownSrc => true
  }

  /** What a lookup in a table with these contents answers. */
  function Find(contents: map<Key, Item>, f: Flags, key: Key): Option<string> {
    if key in contents && Allowed(contents[key].src, f) then Some(contents[key].name) else None
  }

  /** A first-write-wins insertion. */
  function Put(contents: map<Key, Item>, key: Key, item: Item): map<Key, Item> {
    if key in contents then contents else contents[key := item]
  }

  /** A run of insertions, in order. */
  function PutAll(contents: map<Key, Item>, puts: seq<(Key, Item)>): map<Key, Item> {
    if puts == [] then contents
    else Put(PutAll(contents, puts[..|puts| - 1]), puts[|puts| - 1].0, puts[|puts| - 1].1)
  }

  ghost predicate Mentions(puts: seq<(Key, Item)>, k: Key) {
    exists i :: 0 <= i < |puts| && puts[i].0 == k
  }

  /** Over any run into an empty table the keys are those inserted ... */
  lemma {:induction false} PutAllKeys(puts: seq<(Key, Item)>, k: Key)
    ensures k in PutAll(map[], puts) <==> Mentions(puts, k)
  {
    if puts != [] {
      var n := |puts| - 1;
      var shorter := puts[..n];
      PutAllKeys(shorter, k);
      if Mentions(shorter, k) {
        var i :| 0 <= i < n && shorter[i].0 == k;
        assert puts[i].0 == k;
      }
      assert puts == shorter + [puts[n]];
    }
  }

  /** ... and every key keeps the item it was first inserted with. */
  lemma {:induction false} FirstWriteWins(puts: seq<(Key, Item)>, i: nat)
    requires i < |puts| && forall j :: 0 <= j < i ==> puts[j].0 != puts[i].0
    ensures puts[i].0 in PutAll(map[], puts) && PutAll(map[], puts)[puts[i].0] == puts[i].1
    decreases |puts|
  {
    var n := |puts| - 1;
    if i < n {
      FirstWriteWins(puts[..n], i);
    } else {
      PutAllKeys(puts[..n], puts[n].0);
    }
  }

  function Slot(key: Key): (h: nat)
    ensures h < HASH_SIZE
  {
    IdHash(key.cat, key.id12, key.id34)
  }

  /** struct id_entry: sizeof 24 and offsetof(name) 18 on a 64-bit machine. The
      link is the position in the chain; the text is in memory. */
  const ENTRY_SIZE := 24
  const NAME_OFFSET := 18
  datatype Entry = Entry(key: Key, src: Src, at: A.Block)

  /** The longest text whose entry fits a bucket. */
  const MAX_TEXT: int := A.ROOM - ENTRY_SIZE

  ghost predicate Storable(text: string) {
    NoChar(text, NUL) && |text| <= MAX_TEXT
  }

  ghost predicate OnChain(chain: seq<Entry>, key: Key) {
    exists i :: 0 <= i < |chain| && chain[i].key == key
  }

  ghost predicate DistinctKeys(chain: seq<Entry>) {
    forall i, j :: 0 <= i < j < |chain| ==> chain[i].key != chain[j].key
  }

  /** An entry filed in chain h that agrees with the contents. */
  ghost predicate Filed(e: Entry, h: nat, contents: map<Key, Item>) {
    && Slot(e.key) == h
    && e.key in contents && contents[e.key].src == e.src
    && e.at.size == ENTRY_SIZE + |contents[e.key].name|
  }

  /** A new key at the head of a chain leaves the rest of the chain findable. */
  lemma HeadOfChain(e: Entry, chain: seq<Entry>, contents: map<Key, Item>)
    requires DistinctKeys(chain) && e.key !in contents
    requires forall x | x in chain :: x.key in contents
    ensures DistinctKeys([e] + chain) && OnChain([e] + chain, e.key)
    ensures forall k :: OnChain(chain, k) ==> OnChain([e] + chain, k)
  {
    var longer := [e] + chain;
    assert longer[0].key == e.key;
    forall k | OnChain(chain, k) ensures OnChain(longer, k) {
      var i :| 0 <= i < |chain| && chain[i].key == k;
      assert longer[i + 1].key == k;
    }
  }

  class NameTable {
    var hash: array?<seq<Entry>>
    var arena: A.Arena
    ghost var contents: map<Key, Item>
    ghost var Repr: set<object>

    /** Valid, and the chains exist as soon as there is an entry. */
    ghost predicate Valid()
      reads this, Repr
      ensures Valid() ==> this in Repr
    {
      Chained() && (hash != null ==> contents != map[])
    }

    /** Keys are unique, every entry sits in the chain of its hash, every stored
        key is on its chain, and memory holds every text. */
    ghost predicate Chained()
      reads this, Repr
      ensures Chained() ==> this in Repr
    {
      && this in Repr && arena in Repr && arena.Repr <= Repr && this !in arena.Repr && arena.Valid()
      && (hash == null ==> contents == map[])
      && (hash != null ==>
            && hash in Repr && hash !in arena.Repr && hash.Length == HASH_SIZE
            && (forall h :: 0 <= h < HASH_SIZE ==> DistinctKeys(hash[h]))
            && (forall h, e :: 0 <= h < HASH_SIZE && e in hash[h] ==>
                  Filed(e, h, contents) && e.at in arena.blocks
                  && A.Holds(arena.Bytes(e.at), NAME_OFFSET, contents[e.key].name))
            && (forall k :: k in contents ==> OnChain(hash[Slot(k)], k)))
    }

    constructor ()
      ensures Valid() && fresh(Repr) && contents == map[]
    {
      hash := null;
      var a := new A.Arena();
      arena := a;
      contents := map[];
      Repr := {this} + a.Repr;
    }

    /** The walk at the start of pci_id_insert. */
    method IsStored(key: Key) returns (found: bool)
      requires Valid()
      ensures found == (key in contents)
    {
      if hash == null { return false; }
      var chain := hash[Slot(key)];
      var i := 0;
      while i < |chain| && chain[i].key != key
        invariant 0 <= i <= |chain|
        invariant forall j :: 0 <= j < i ==> chain[j].key != key
      {
        i := i + 1;
      }
      found := i < |chain|;
      if found { assert chain[i] in hash[Slot(key)]; }
    }

    /** The part of id_alloc that creates the chains. */
    method AllocHash()
      requires Chained()
      modifies this
      ensures Chained() && fresh(Repr - old(Repr)) && hash != null && contents == old(contents) && arena == old(arena)
      ensures old(hash) != null ==> hash == old(hash)
    {
      if hash == null {
        hash := new seq<Entry>[HASH_SIZE](_ => []);
        Repr := Repr + {hash};
      }
    }

    /** id_alloc and memcpy for a new entry that is not yet on a chain. */
    method NewEntry(key: Key, text: string, src: Src) returns (e: Entry)
      requires Chained() && Storable(text) && hash != null
      modifies this`Repr, arena.Repr
      ensures Chained() && fresh(Repr - old(Repr)) && old(Repr) <= Repr
      ensures e.key == key && e.src == src && e.at.size == ENTRY_SIZE + |text|
      ensures e.at in arena.blocks && A.Holds(arena.Bytes(e.at), NAME_OFFSET, text)
    {
      hide Slot, A.Holds, OnChain, DistinctKeys;
      var at := arena.Alloc(ENTRY_SIZE + |text|);
      arena.Store(at, NAME_OFFSET, text);
      Repr := Repr + arena.Repr;
      e := Entry(key, src, at);
    }

    /** pci_id_insert: the first text stored for a key stays, and no other entry
        is touched; true means that the key was there already. */
    method Insert(cat: Byte, id1: U32, id2: U32, id3: U32, id4: U32, text: string, src: Src) returns (dup: bool)
      requires Valid() && Storable(text)
      modifies Repr
      ensures Valid() && fresh(Repr - old(Repr))
      ensures var key := MakeKey(cat, id1, id2, id3, id4);
              dup == (key in old(contents)) && contents == Put(old(contents), key, Item(text, src))
    {
      var key := MakeKey(cat, id1, id2, id3, id4);
      dup := IsStored(key);
      if dup { return; }
      AllocHash();
      var e := NewEntry(key, text, src);
      Link(e, text);
    }

    /** Put a new entry at the head of its chain. */
    method Link(e: Entry, ghost text: string)
      requires Chained() && hash != null && e.key !in contents
      requires e.at.size == ENTRY_SIZE + |text| && e.at in arena.blocks
      requires A.Holds(arena.Bytes(e.at), NAME_OFFSET, text)
      modifies this`contents, hash
      ensures Valid() && contents == old(contents)[e.key := Item(text, e.src)]
    {
      hide Slot, A.Holds, OnChain, DistinctKeys;
      var h := Slot(e.key);
      ghost var before := hash[..];
      ghost var chain := hash[h];
      HeadOfChain(e, chain, contents);
      hash[h] := [e] + hash[h];
      contents := contents[e.key := Item(text, e.src)];
      assert forall g :: 0 <= g < HASH_SIZE && g != h ==> hash[g] == before[g];
      forall k | k in contents ensures OnChain(hash[Slot(k)], k) {
        if k != e.key { assert OnChain(before[Slot(k)], k); }
      }
      forall g, x | 0 <= g < HASH_SIZE && x in hash[g]
        ensures Filed(x, g, contents) && x.at in arena.blocks
                && A.Holds(arena.Bytes(x.at), NAME_OFFSET, contents[x.key].name)
      {
        if x in before[g] {
          assert Filed(x, g, old(contents));
        } else {
          assert x == e && g == h;
        }
      }
    }

    /** pci_id_lookup: the stored text when its source is allowed, else NULL. */
    method Lookup(flags: Flags, cat: Byte, id1: U32, id2: U32, id3: U32, id4: U32) returns (name: Option<string>)
      requires Valid()
      ensures name == Find(contents, flags, MakeKey(cat, id1, id2, id3, id4))
    {
      hide Slot, A.Holds, MakeKey;
      var key := MakeKey(cat, id1, id2, id3, id4);
      if hash == null { return None; }
      var chain := hash[Slot(key)];
      var best: Option<Entry> := None;
      var i := 0;
      while i < |chain|
        invariant 0 <= i <= |chain|
        invariant best.Some? ==> best.value in chain && best.value.key == key && Allowed(best.value.src, flags)
        invariant best == None ==> forall j :: 0 <= j < i ==> chain[j].key != key || !Allowed(chain[j].src, flags)
      {
        var n := chain[i];
        if n.key == key && Allowed(n.src, flags) && (best == None || best.value.src.Rank() < n.src.Rank()) {
          best := Some(n);
        }
        i := i + 1;
      }
      if best == None { return None; }
      var text := arena.Fetch(best.value.at, NAME_OFFSET, contents[key].name);
      name := Some(text);
    }
  }
}

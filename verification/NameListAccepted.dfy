/** What every accepted ID list guarantees about the table it fills. */
module NameListAccepted {
  import opened CText
  import opened NameTable
  import opened NameList
  import opened NameListRoundTrip

  /** The vendor, device or class that c belongs to is stored, and so is its
      subclass unless that is 0: a line with two tabs directly under a class line
      is accepted as a program interface of subclass 0. */
  ghost predicate Grounded(c: Context, table: map<Key, Item>) {
    && (In(c.cat, ID_VENDOR, ID_GEN_SUBSYSTEM) ==> VendorKey(c.id1) in table)
    && (In(c.cat, ID_DEVICE, ID_SUBSYSTEM) ==> MakeKey(ID_DEVICE, c.id1, c.id2, 0, 0) in table)
    && (In(c.cat, ID_CLASS, ID_PROGIF) ==> MakeKey(ID_CLASS, c.id1, 0, 0, 0) in table)
    && (In(c.cat, ID_SUBCLASS, ID_PROGIF) ==> c.id2 == 0 || MakeKey(ID_SUBCLASS, c.id1, c.id2, 0, 0) in table)
  }

  /** k is a key with 16-bit ids, zeros where its category has none, and the
      parents it needs are stored. */
  ghost predicate Proper(k: Key, table: map<Key, Item>) {
    exists c :: Canonical(c) && ContextKey(c) == k && Grounded(c, table)
  }

  ghost predicate Sound(st: State) {
    && (forall k :: k in st.table ==> Proper(k, st.table) && st.table[k].src == Local && st.table[k].name != "")
    && Grounded(st.ctx, st.table)
    && (In(st.ctx.cat, ID_CLASS, ID_PROGIF) ==> st.ctx.id1 < 0x100 && st.ctx.id2 < 0x100)
    && (st.ctx.cat == ID_CLASS ==> st.ctx.id2 == 0)
  }

  lemma GroundedGrows(c: Context, table: map<Key, Item>, k: Key, item: Item)
    requires Grounded(c, table)
    ensures Grounded(c, table[k := item])
  {
  }

  /** The entry a line makes is canonical and has the parents it needs. */
  lemma NamedGrounded(st: State, nest: nat, s: string, item: Item)
    requires Sound(st) && Heading(st.table, st.ctx, nest, s).Named?
    ensures var h := Heading(st.table, st.ctx, nest, s);
            Canonical(h.ctx) && Grounded(h.ctx, st.table[ContextKey(h.ctx) := item])
  {
  }

  lemma SubsystemsGrounded(st: State, nest: nat, s: string)
    requires Sound(st) && Heading(st.table, st.ctx, nest, s).Quiet?
    ensures Sound(State(Heading(st.table, st.ctx, nest, s).ctx, st.table))
  {
  }

  lemma EntrySound(st: State, c: Context, item: Item)
    requires Sound(st) && Canonical(c) && ContextKey(c) !in st.table && item.src == Local && item.name != ""
    requires Grounded(c, st.table[ContextKey(c) := item])
    ensures Sound(State(c, st.table[ContextKey(c) := item]))
  {
    hide MakeKey, VendorKey;
    var table := st.table[ContextKey(c) := item];
    forall k | k in table ensures Proper(k, table) {
      if k in st.table {
        var d :| Canonical(d) && ContextKey(d) == k && Grounded(d, st.table);
        GroundedGrows(d, st.table, ContextKey(c), item);
      }
    }
  }

  /** The key of the entry on this line, if it is an entry. */
  function EntryKey(st: State, t: string): Option<Key> {
    if Comment(t) then None
    else
      var nest := Tabs(t, 0);
      var h := Heading(st.table, st.ctx, nest, t[nest..]);
      if h.Named? then Some(ContextKey(h.ctx)) else None
  }

  lemma LineSound(st: State, t: string)
    requires Sound(st) && Line(st, t).Go?
    ensures Sound(Line(st, t).state)
    ensures var k := EntryKey(st, t);
            if k == None then Line(st, t).state.table == st.table
            else k.value !in st.table && Line(st, t).state.table.Keys == st.table.Keys + {k.value}
  {
    hide Heading, Comment, Sound;
    if !Comment(t) {
      var nest := Tabs(t, 0);
      var s := t[nest..];
      match Heading(st.table, st.ctx, nest, s)
      case Fail(_) =>
      case Quiet(ctx) => SubsystemsGrounded(st, nest, s);
      case Named(c, name) =>
        var item := Item(s[Blanks(s, name)..], Local);
        NamedGrounded(st, nest, s, item);
        EntrySound(st, c, item);
    }
  }

  /** A program interface directly under a class: its subclass need not be stored. */
  lemma OrphanProgif(table: map<Key, Item>)
    requires MakeKey(ID_PROGIF, 1, 0, 2, 0) !in table
    ensures Line(State(Context(ID_CLASS, 1, 0, 0, 0), table), "\t\t02  y") ==
            Go(State(Context(ID_PROGIF, 1, 0, 2, 0), table[MakeKey(ID_PROGIF, 1, 0, 2, 0) := Item("y", Local)]))
  {
    hide MakeKey, AllHex, HexNum;
    var t := "\t\t02  y";
    assert Blanks(t, 0) == Blanks(t, 1) == Blanks(t, 2) == 2;
    assert Tabs(t, 0) == Tabs(t, 1) == Tabs(t, 2) == 2;
    var s := t[2..];
    assert s == "02  y" && s[0..2] == "02";
    ReadTwo();
    assert Blanks(s, 3) == Blanks(s, 4) == 4 && s[4..] == "y";
  }

  lemma ReadTwo()
    ensures AllHex("02") && HexNum("02") == 2
  {
  }

  /** The keys of the entries of a file, in file order. */
  function EntryKeys(file: string, pos: nat, st: State): seq<Key>
    requires pos <= |file|
    decreases |file| - pos
  {
    if pos == |file| then []
    else
      var r := FGets(file, pos, MAX_LINE);
      var o := Buffer(st, r);
      if o.Go? then BufferKeys(st, r) + EntryKeys(file, pos + |r.chunk|, o.state) else []
  }

  function BufferKeys(st: State, r: Read): seq<Key> {
    var t := LineText(r);
    if t.Some? && EntryKey(st, t.value).Some? then [EntryKey(st, t.value).value] else []
  }

  /** Going from one table to another stored exactly these keys, all of them new. */
  ghost predicate Stored(keys: seq<Key>, before: map<Key, Item>, after: map<Key, Item>) {
    && (forall k :: k in after <==> k in before || k in keys)
    && |after| == |before| + |keys|
  }

  lemma BufferSound(st: State, r: Read)
    requires Sound(st) && Buffer(st, r).Go?
    ensures Sound(Buffer(st, r).state)
    ensures Stored(BufferKeys(st, r), st.table, Buffer(st, r).state.table)
  {
    hide Sound, Line, LineText, EntryKey;
    var t := LineText(r).value;
    LineSound(st, t);
    var before, after := st.table, Buffer(st, r).state.table;
    if k :| EntryKey(st, t) == Some(k) {
      assert |after.Keys| == |before.Keys + {k}| == |before.Keys| + 1;
      assert forall x :: x in after <==> x in after.Keys;
    }
  }

  lemma StoredTwice(a: seq<Key>, b: seq<Key>, t0: map<Key, Item>, t1: map<Key, Item>, t2: map<Key, Item>)
    requires Stored(a, t0, t1) && Stored(b, t1, t2)
    ensures Stored(a + b, t0, t2)
  {
  }

  /** In an accepted file every key stored is proper, every entry line has
      stored its key, and no two entry lines share one. */
  lemma {:induction false} AcceptedFile(file: string, pos: nat, st: State)
    requires pos <= |file| && Sound(st) && Lines(file, pos, st).Go?
    ensures Sound(Lines(file, pos, st).state)
    ensures Stored(EntryKeys(file, pos, st), st.table, Lines(file, pos, st).state.table)
    decreases |file| - pos
  {
    hide Sound, FGets, Buffer, BufferKeys, Stored;
    if pos < |file| {
      var r := FGets(file, pos, MAX_LINE);
      var next := Buffer(st, r).state;
      BufferSound(st, r);
      AcceptedFile(file, pos + |r.chunk|, next);
      StoredTwice(BufferKeys(st, r), EntryKeys(file, pos + |r.chunk|, next),
                  st.table, next.table, Lines(file, pos, st).state.table);
    } else {
      StoredNone(st.table);
    }
  }

  lemma StoredNone(table: map<Key, Item>)
    ensures Stored([], table, table)
  {
  }

  /** The same for a file read into an empty table. */
  lemma AcceptedFromEmpty(file: string)
    requires Lines(file, 0, START).Go?
    ensures var table, keys := Lines(file, 0, START).state.table, EntryKeys(file, 0, START);
            && (forall k :: k in table ==> Proper(k, table) && table[k].src == Local && table[k].name != "")
            && (forall k :: k in table <==> k in keys)
            && |table| == |keys|
  {
    AcceptedFile(file, 0, START);
  }
}

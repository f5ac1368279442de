/** Looking a name up in all its sources (lib/names.c, id_lookup): the table,
    the cache file, hwdb and the network, tried in turn by a retry loop. */
module NameLookup {
  import opened Config
  import opened CText
  import T = NameTable
  import C = NameCache

  /** What one lookup can meet outside the table: the cache file when one is
      named and exists, the answer of hwdb, the answers of the network. */
  datatype World = World(flags: T.Flags, key: T.Key, cacheNamed: bool, cacheFile: Option<string>,
                         hwdb: Option<string>, net: nat -> Option<string>)
  {
    ghost predicate Valid() {
      && (cacheFile.Some? ==> C.ByteCategories(cacheFile.value, 0))
      && (hwdb.Some? ==> T.Storable(hwdb.value))
      && (forall n :: net(n).Some? ==> T.Storable(net(n).value))
    }
  }

  /** The loop between two probes. The cache status is 0 (not read), 1 (read or
      unavailable) or 2 (to be written). */
  datatype State = State(table: map<T.Key, T.Item>, cacheStatus: nat, triedHwdb: bool, asked: nat)

  datatype Run = Running(s: State) | Finished(name: Option<string>, s: State)

  function Find(w: World, s: State): Option<string> {
    T.Find(s.table, w.flags, w.key)
  }

  function Add(w: World, s: State, name: string, src: T.Src): State {
    s.(table := T.Put(s.table, w.key, T.Item(name, src)))
  }

  /** pci_id_cache_load: whether a file was read, and the state after it. */
  function LoadCache(w: World, s: State): (bool, State) {
    if !w.cacheNamed then (false, s.(cacheStatus := 1))
    else if w.flags.refreshCache then (false, s.(cacheStatus := 2))
    else if w.cacheFile == None then (false, s.(cacheStatus := 1))
    else (true, s.(cacheStatus := 1, table := C.LoadFrom(w.cacheFile.value, 0, s.table)))
  }

  predicate TriesCache(w: World, s: State) { w.flags.cache && s.cacheStatus == 0 }
  predicate TriesHwdb(w: World, s: State) { !s.triedHwdb && !w.flags.skipLocal && !w.flags.noHwdb }

  /** The part of the loop body behind the cache. */
  function AskOutside(w: World, s: State): Run {
    if TriesHwdb(w, s) && w.hwdb.Some? then
      Running(Add(w, s.(triedHwdb := true), w.hwdb.value, T.Hwdb))
    else
      var s := if TriesHwdb(w, s) then s.(triedHwdb := true) else s;
      if !w.flags.network then Finished(None, s)
      else if w.net(s.asked).Some? then
        var s' := Add(w, s.(asked := s.asked + 1), w.net(s.asked).value, T.Net);
        Running(if s'.cacheStatus >= 1 then s'.(cacheStatus := 2) else s')
      else Running(Add(w, s.(asked := s.asked + 1), "", T.Net))
  }

  /** One probe and what it leads to. */
  function Probe(w: World, s: State): Run {
    var name := Find(w, s);
    if name.Some? then Finished(if name.value != "" then name else None, s)
    else if TriesCache(w, s) then
      var (read, s') := LoadCache(w, s);
      if read then Running(s') else AskOutside(w, s')
    else AskOutside(w, s)
  }

  /** The loop after n probes. */
  function After(w: World, s: State, n: nat): Run {
    if n == 0 then Running(s)
    else
      var r := After(w, s, n - 1);
      if r.Running? then Probe(w, r.s) else r
  }

  /** The table has the key, from a source these flags do not let show. */
  predicate Hidden(w: World, s: State) {
    w.key in s.table && !T.Allowed(s.table[w.key].src, w.flags)
  }

  /** Loading a cache file never changes what the table has, and what it adds
      comes from the cache. */
  lemma {:induction false} LoadKeeps(file: string, pos: nat, table: map<T.Key, T.Item>, k: T.Key)
    requires pos <= |file|
    ensures var t := C.LoadFrom(file, pos, table);
            && (k in table ==> k in t && t[k] == table[k])
            && (k in t && k !in table ==> t[k].src == T.Cache)
    decreases |file| - pos
  {
    hide C.Take, FGets, T.MakeKey;
    if pos < |file| {
      var r := FGets(file, pos, MAX_LINE);
      var t := C.Take(r.chunk, pos == 0);
      if !t.Refused? { LoadKeeps(file, pos + |r.chunk|, C.Store(t, table), k); }
    }
  }

  /** What a probe finds missing and fetches is visible at the next probe: the
      probe ends the loop, makes the key visible, or spends the cache. */
  lemma ProbeProgress(w: World, s: State)
    requires !Hidden(w, s) && Probe(w, s).Running?
    ensures var s' := Probe(w, s).s;
            !Hidden(w, s') && (Find(w, s') == None ==> TriesCache(w, s) && !TriesCache(w, s'))
  {
    if TriesCache(w, s) && LoadCache(w, s).0 {
      LoadKeeps(w.cacheFile.value, 0, s.table, w.key);
    }
  }

  /** Without the network, a probe that does not end the loop spends the cache
      or spends hwdb. */
  lemma OfflineProgress(w: World, s: State)
    requires !w.flags.network && Probe(w, s).Running?
    ensures var s' := Probe(w, s).s;
            || (TriesCache(w, s) && !TriesCache(w, s') && s'.triedHwdb == s.triedHwdb)
            || (TriesHwdb(w, s) && !TriesHwdb(w, s') && !TriesCache(w, s'))
  {
  }

  /** The loop ends after at most three probes when the network is off or no
      entry for the key is hidden by the flags ... */
  lemma ThreeProbes(w: World, s: State)
    requires !w.flags.network || !Hidden(w, s)
    ensures After(w, s, 3).Finished?
  {
    var r1, r2 := After(w, s, 1), After(w, s, 2);
    assert r1 == Probe(w, s) by { assert After(w, s, 0) == Running(s); }
    if r1.Running? {
      assert r2 == Probe(w, r1.s);
      if r2.Running? {
        assert After(w, s, 3) == Probe(w, r2.s);
        if !Hidden(w, s) {
          ProbeProgress(w, s);
          ProbeProgress(w, r1.s);
        } else {
          OfflineProgress(w, s);
          OfflineProgress(w, r1.s);
          if Probe(w, r2.s).Running? { OfflineProgress(w, r2.s); }
        }
      }
    }
  }

  /** A hidden entry stays, so nothing found elsewhere can be inserted. */
  lemma BlockedProbe(w: World, s: State)
    requires w.flags.network && Hidden(w, s)
    ensures Probe(w, s).Running? && Hidden(w, Probe(w, s).s)
  {
    hide C.LoadFrom;
    if TriesCache(w, s) && LoadCache(w, s).0 {
      LoadKeeps(w.cacheFile.value, 0, s.table, w.key);
    }
  }

  /** ... and otherwise it never ends. */
  lemma {:induction false} Diverges(w: World, s: State, n: nat)
    requires w.flags.network && Hidden(w, s)
    ensures After(w, s, n).Running? && Hidden(w, After(w, s, n).s)
  {
    hide Probe, Hidden;
    if n > 0 {
      Diverges(w, s, n - 1);
      BlockedProbe(w, After(w, s, n - 1).s);
    }
  }

  /** A vendor that pci.ids knows, asked for on the network with the local list
      skipped: the answer can never be stored, so the loop never ends. */
  lemma SkippedLocalNameDiverges(n: nat)
    ensures var key := T.MakeKey(T.ID_VENDOR, 0x8086, 0, 0, 0);
            var w := World(T.Flags(true, true, false, false, false), key, false, None, None, n => Some("Intel"));
            After(w, State(map[key := T.Item("Intel Corporation", T.Local)], 0, false, 0), n).Running?
  {
    var key := T.MakeKey(T.ID_VENDOR, 0x8086, 0, 0, 0);
    var w := World(T.Flags(true, true, false, false, false), key, false, None, None, n => Some("Intel"));
    Diverges(w, State(map[key := T.Item("Intel Corporation", T.Local)], 0, false, 0), n);
  }

  /** The exact condition under which id_lookup returns. */
  lemma TerminatesIff(w: World, s: State)
    ensures (exists n :: After(w, s, n).Finished?) <==> !(w.flags.network && Hidden(w, s))
  {
    if w.flags.network && Hidden(w, s) {
      forall n: nat ensures !After(w, s, n).Finished? { Diverges(w, s, n); }
    } else {
      ThreeProbes(w, s);
    }
  }

  /** An empty name is a negative entry. */
  function NonEmpty(name: string): Option<string> {
    if name != "" then Some(name) else None
  }

  /** The state after the cache has been read, if this lookup reads it. */
  function Cached(w: World, s: State): State {
    if TriesCache(w, s) && LoadCache(w, s).0 then LoadCache(w, s).1 else s
  }

  /** What a lookup returns: the first of table, cache file, hwdb and network
      that has an answer. */
  function Answer(w: World, s: State): Option<string> {
    if Find(w, s).Some? then NonEmpty(Find(w, s).value)
    else if Find(w, Cached(w, s)).Some? then NonEmpty(Find(w, Cached(w, s)).value)
    else if Hidden(w, s) then None
    else if TriesHwdb(w, s) && w.hwdb.Some? then NonEmpty(w.hwdb.value)
    else if w.flags.network && w.net(s.asked).Some? then NonEmpty(w.net(s.asked).value)
    else None
  }

  lemma FinishedStays(w: World, s: State, n: nat, m: nat)
    requires n <= m && After(w, s, n).Finished?
    ensures After(w, s, m) == After(w, s, n)
    decreases m
  {
    if n < m { FinishedStays(w, s, n, m - 1); }
  }

  /** A probe past the cache answers, or makes the answer visible. */
  lemma OutsideAnswer(w: World, s: State)
    requires !w.flags.network || !Hidden(w, s)
    requires Find(w, s) == None && !TriesCache(w, s)
    ensures match Probe(w, s)
            case Finished(name, _) => name == Answer(w, s)
            case Running(s') => Answer(w, s') == Answer(w, s) && !TriesCache(w, s')
                                && (!w.flags.network || !Hidden(w, s'))
  {
  }

  lemma ProbeAnswer(w: World, s: State)
    requires !w.flags.network || !Hidden(w, s)
    ensures match Probe(w, s)
            case Finished(name, _) => name == Answer(w, s)
            case Running(s') => Answer(w, s') == Answer(w, s) && (!w.flags.network || !Hidden(w, s'))
  {
    hide C.LoadFrom;
    if Find(w, s).Some? {
    } else if TriesCache(w, s) {
      var (read, s') := LoadCache(w, s);
      if read {
        LoadKeeps(w.cacheFile.value, 0, s.table, w.key);
      } else {
        OutsideAnswer(w, s');
      }
    } else {
      OutsideAnswer(w, s);
    }
  }

  lemma {:induction false} AfterAnswer(w: World, s: State, n: nat)
    requires !w.flags.network || !Hidden(w, s)
    ensures match After(w, s, n)
            case Finished(name, _) => name == Answer(w, s)
            case Running(s') => Answer(w, s') == Answer(w, s) && (!w.flags.network || !Hidden(w, s'))
  {
    hide Probe, Answer, Hidden;
    if n > 0 {
      AfterAnswer(w, s, n - 1);
      if After(w, s, n - 1).Running? { ProbeAnswer(w, After(w, s, n - 1).s); }
    }
  }

  /** No lookup, whether it returns or not, changes or drops an entry. */
  lemma {:induction false} LookupKeeps(w: World, s: State, n: nat, k: T.Key)
    requires k in s.table
    ensures k in After(w, s, n).s.table && After(w, s, n).s.table[k] == s.table[k]
  {
    if n > 0 {
      LookupKeeps(w, s, n - 1, k);
      if After(w, s, n - 1).Running? { ProbeKeeps(w, After(w, s, n - 1).s, k); }
    }
    hide Probe;
  }

  lemma ProbeKeeps(w: World, s: State, k: T.Key)
    requires k in s.table
    ensures k in Probe(w, s).s.table && Probe(w, s).s.table[k] == s.table[k]
  {
    hide C.LoadFrom;
    if TriesCache(w, s) && LoadCache(w, s).0 {
      LoadKeeps(w.cacheFile.value, 0, s.table, k);
    }
  }

  /* ---- what a lookup stores, and when the cache is to be written ---- */

  /** The cache file of this lookup is to be replaced, not read. */
  predicate Refreshes(w: World, s: State) {
    Find(w, s) == None && TriesCache(w, s) && w.cacheNamed && w.flags.refreshCache
  }

  /** Neither the table nor the cache file has a name, and one could be stored. */
  predicate Missed(w: World, s: State) {
    Find(w, s) == None && Find(w, Cached(w, s)) == None && !Hidden(w, s)
  }

  /** The network is asked, because hwdb is not or has no name. */
  predicate AsksNet(w: World, s: State) {
    Missed(w, s) && w.flags.network && !(TriesHwdb(w, s) && w.hwdb.Some?)
  }

  /** The table that a lookup leaves: what was there, what the cache file adds
      when it is read, and the answer of the first source outside that has one
      under its own name, or an empty name when the network has none. */
  function StoredBy(w: World, s: State): map<T.Key, T.Item> {
    var had := if Find(w, s).Some? then s.table else Cached(w, s).table;
    if !Missed(w, s) then had
    else if TriesHwdb(w, s) && w.hwdb.Some? then had[w.key := T.Item(w.hwdb.value, T.Hwdb)]
    else if !w.flags.network then had
    else had[w.key := T.Item(if w.net(s.asked).Some? then w.net(s.asked).value else "", T.Net)]
  }

  /** The network is asked once or not at all. */
  function AskedAfter(w: World, s: State): nat { s.asked + if AsksNet(w, s) then 1 else 0 }

  /** The cache is in use by the time the network is asked. */
  predicate InUse(w: World, s: State) { s.cacheStatus >= 1 || TriesCache(w, s) }

  /** The cache is to be written after a lookup. */
  predicate Dirties(w: World, s: State) {
    s.cacheStatus >= 2 || Refreshes(w, s) || (AsksNet(w, s) && w.net(s.asked).Some? && InUse(w, s))
  }

  lemma ProbeStores(w: World, s: State)
    requires (!w.flags.network || !Hidden(w, s)) && s.cacheStatus <= 2
    ensures match Probe(w, s)
            case Finished(_, t) =>
              && t.table == StoredBy(w, s) && t.cacheStatus <= 2 && (t.cacheStatus == 2 <==> Dirties(w, s))
              && t.asked == AskedAfter(w, s)
            case Running(t) =>
              && StoredBy(w, t) == StoredBy(w, s) && t.cacheStatus <= 2 && (Dirties(w, t) <==> Dirties(w, s))
              && AskedAfter(w, t) == AskedAfter(w, s) && (!w.flags.network || !Hidden(w, t))
  {
    hide C.LoadFrom, AskOutside;
    if Find(w, s) == None {
      var (read, t) := if TriesCache(w, s) then LoadCache(w, s) else (false, s);
      if read { LoadKeeps(w.cacheFile.value, 0, s.table, w.key); } else { OutsideStores(w, t); }
    }
  }

  /** The same for the part behind the cache. */
  lemma OutsideStores(w: World, s: State)
    requires (!w.flags.network || !Hidden(w, s)) && s.cacheStatus <= 2 && Find(w, s) == None && !TriesCache(w, s)
    ensures match AskOutside(w, s)
            case Finished(_, t) =>
              && t.table == StoredBy(w, s) && t.cacheStatus <= 2 && (t.cacheStatus == 2 <==> Dirties(w, s))
              && t.asked == AskedAfter(w, s)
            case Running(t) =>
              && StoredBy(w, t) == StoredBy(w, s) && t.cacheStatus <= 2 && (Dirties(w, t) <==> Dirties(w, s))
              && AskedAfter(w, t) == AskedAfter(w, s) && (!w.flags.network || !Hidden(w, t))
  {
    hide LoadCache;
  }

  /** Over all probes: when a lookup has ended, the table is that one, the network
      was asked only for a key that is not found elsewhere, and once, and the cache
      is to be written if and only if it was before, or this lookup refreshed it,
      or the network gave a name while it was in use. */
  lemma {:induction false} LookupLeaves(w: World, s: State, n: nat)
    requires (!w.flags.network || !Hidden(w, s)) && s.cacheStatus <= 2
    ensures match After(w, s, n)
            case Finished(_, t) =>
              && t.table == StoredBy(w, s) && t.cacheStatus <= 2 && (t.cacheStatus == 2 <==> Dirties(w, s))
              && t.asked == AskedAfter(w, s)
            case Running(t) =>
              && StoredBy(w, t) == StoredBy(w, s) && t.cacheStatus <= 2 && (Dirties(w, t) <==> Dirties(w, s))
              && AskedAfter(w, t) == AskedAfter(w, s) && (!w.flags.network || !Hidden(w, t))
  {
    hide Probe, StoredBy, Dirties, Hidden, AskedAfter;
    if n > 0 {
      LookupLeaves(w, s, n - 1);
      if After(w, s, n - 1).Running? { ProbeStores(w, After(w, s, n - 1).s); }
    }
  }

  /** A name that the network gave while the cache was in use is in the file that
      the next flush writes, and reading that file brings it back. */
  lemma FetchedNameKept(w: World, s: State, file: string)
    requires s.cacheStatus <= 2 && AsksNet(w, s) && InUse(w, s)
    requires w.net(s.asked).Some? && w.net(s.asked).value != ""
    requires var t := StoredBy(w, s);
             && C.Flushed(file, t)
             && forall k :: k in t && C.Kept(t[k]) ==> C.Writable(C.Saved(k, t[k].name))
    ensures var r := After(w, s, 3);
            r.Finished? && r.s.cacheStatus == 2 && C.Flushed(file, r.s.table)
    ensures w.key in C.LoadFrom(file, 0, map[])
            && C.LoadFrom(file, 0, map[])[w.key] == T.Item(w.net(s.asked).value, T.Cache)
  {
    hide Probe, C.LoadFrom, C.Flushed, C.Writable;
    ThreeProbes(w, s);
    LookupLeaves(w, s, 3);
    C.CacheRoundTrip(StoredBy(w, s), file);
  }

  /** Vendor 8086 asked for on the network, with an empty table and no cache file:
      the name is found and the cache then holds it. */
  lemma IntelFetched(file: string)
    ensures var key := T.MakeKey(1, 0x8086, 0, 0, 0);
            var w := World(T.Flags(true, false, true, false, true), key, true, None, None, n => Some("Intel"));
            var r := After(w, State(map[], 0, false, 0), 3);
            && r.Finished? && r.name == Some("Intel") && r.s.cacheStatus == 2
            && (C.Flushed(file, r.s.table) ==> file == "#PCI-CACHE-1.0\n1 8086 0 0 0 Intel\n")
  {
    hide Probe, C.Flushed, T.MakeKey;
    var key := T.MakeKey(1, 0x8086, 0, 0, 0);
    var w := World(T.Flags(true, false, true, false, true), key, true, None, None, n => Some("Intel"));
    var s := State(map[], 0, false, 0);
    ThreeProbes(w, s);
    LookupLeaves(w, s, 3);
    AfterAnswer(w, s, 3);
    assert StoredBy(w, s) == map[key := T.Item("Intel", T.Net)];
    if C.Flushed(file, map[key := T.Item("Intel", T.Net)]) { C.OneNameFile(file); }
  }

  /** A lookup sees the entries of exactly the sources it asks. */
  lemma SeenIffAsked(w: World)
    ensures T.Allowed(T.Local, w.flags) <==> !w.flags.skipLocal
    ensures T.Allowed(T.Net, w.flags) <==> w.flags.network
    ensures var s := State(map[], 0, false, 0);
            && (T.Allowed(T.Cache, w.flags) <==> TriesCache(w, s)) && (TriesCache(w, s) <==> w.flags.cache)
            && (T.Allowed(T.Hwdb, w.flags) <==> TriesHwdb(w, s))
            && (TriesHwdb(w, s) <==> !w.flags.skipLocal && !w.flags.noHwdb)
  {
  }

  /* ---- when the cache is to be written but there is no table ---- */

  /** Neither hwdb nor the network can add an entry. */
  predicate InVain(w: World) {
    !w.flags.network && (w.hwdb == None || w.flags.skipLocal || w.flags.noHwdb)
  }

  /** ... while the lookup asks for a refresh of the cache. */
  predicate RefreshesInVain(w: World) {
    InVain(w) && w.flags.cache && w.cacheNamed && w.flags.refreshCache
  }

  /** A first lookup leaves a cache that is to be written while nothing is stored
      if and only if it refreshes in vain; pci_id_cache_flush then follows a NULL
      pointer. */
  lemma DirtyEmptyIff(w: World, s: State)
    requires s.table == map[] && s.cacheStatus == 0 && !s.triedHwdb
    ensures var r := After(w, s, 3);
            r.Finished? && ((r.s.cacheStatus == 2 && r.s.table == map[]) <==> RefreshesInVain(w))
  {
    ThreeProbes(w, s);
    EmptyStep(w, s);
    hide After, InVain;
  }

  /** A refresh with local names skipped, the network off and an empty table. */
  lemma RefreshedInVain(key: T.Key)
    ensures var w := World(T.Flags(false, true, true, true, true), key, true, None, None, n => None);
            var r := After(w, State(map[], 0, false, 0), 3);
            r.Finished? && r.s.cacheStatus == 2 && r.s.table == map[]
  {
    DirtyEmptyIff(World(T.Flags(false, true, true, true, true), key, true, None, None, n => None),
                  State(map[], 0, false, 0));
  }

  /* ---- the same over any sequence of lookups ---- */

  /** The state after lookups, each of which returns or has stored something. */
  function Session(ws: seq<World>): State {
    if ws == [] then State(map[], 0, false, 0)
    else After(ws[|ws| - 1], Session(ws[..|ws| - 1]), 3).s.(triedHwdb := false)
  }

  /** The first lookup that uses the cache refreshes it. */
  ghost predicate FirstRefreshes(ws: seq<World>) {
    exists j :: 0 <= j < |ws| && RefreshesInVain(ws[j]) && NoCache(ws, j)
  }

  ghost predicate NoCache(ws: seq<World>, j: nat)
    requires j <= |ws|
  {
    forall k :: 0 <= k < j ==> !ws[k].flags.cache
  }

  /** One lookup on a table without entries. */
  lemma EmptyStep(w: World, s: State)
    requires s.table == map[] && !s.triedHwdb
    ensures var t := After(w, s, 3).s;
            && (!InVain(w) ==> t.table != map[])
            && (InVain(w) && !TriesCache(w, s) ==> t.table == map[] && t.cacheStatus == s.cacheStatus)
            && (InVain(w) && TriesCache(w, s) && RefreshesInVain(w) ==> t.table == map[] && t.cacheStatus == 2)
            && (InVain(w) && TriesCache(w, s) && !RefreshesInVain(w) ==> t.cacheStatus == 1)
            && (RefreshesInVain(w) ==> w.flags.cache)
  {
    ThreeProbes(w, s);
    EmptyProbe(w, s);
    hide Probe;
    assert After(w, s, 1) == Probe(w, s) by { assert After(w, s, 0) == Running(s); }
    if After(w, s, 1).Finished? {
      FinishedStays(w, s, 1, 3);
    } else {
      var s1 := After(w, s, 1).s;
      assert After(w, s, 2) == Probe(w, s1);
      if s1.table != map[] { KeepsAllocated(w, s, 1, 3); } else { EmptyProbe(w, s1); }
      if InVain(w) { VainProbe(w, s1); }
      if After(w, s, 2).Finished? { FinishedStays(w, s, 2, 3); } else { KeepsAllocated(w, s, 2, 3); }
    }
  }

  lemma EmptyProbe(w: World, s: State)
    requires s.table == map[] && !s.triedHwdb
    ensures var r := Probe(w, s);
            && (r.Finished? ==> InVain(w) && r.s.table == map[])
            && (r.Finished? ==>
                  r.s.cacheStatus == if !TriesCache(w, s) then s.cacheStatus else if RefreshesInVain(w) then 2 else 1)
            && (r.Running? ==> r.s.table != map[] || (TriesCache(w, s) && !TriesCache(w, r.s)))
            && (r.Running? && InVain(w) ==>
                  TriesCache(w, s) && r.s.cacheStatus == 1 && !r.s.triedHwdb && !RefreshesInVain(w))
            && (r.Running? && r.s.table == map[] ==> !r.s.triedHwdb)
  {
    hide C.LoadFrom;
  }

  /** Without hwdb and the network, a lookup that has read the cache ends. */
  lemma VainProbe(w: World, s: State)
    requires InVain(w) && !TriesCache(w, s)
    ensures Probe(w, s).Finished? && Probe(w, s).s.cacheStatus == s.cacheStatus
  {
  }

  /** Over any sequence of lookups, the cache is to be written while nothing is
      stored if and only if no lookup could add an entry and the first one that
      used the cache refreshed it. */
  lemma {:induction false} SessionDirtyEmptyIff(ws: seq<World>)
    ensures var s := Session(ws);
            && !s.triedHwdb
            && (s.table == map[] && s.cacheStatus == 2 <==> (forall w | w in ws :: InVain(w)) && FirstRefreshes(ws))
            && (s.table == map[] ==> s.cacheStatus <= 2 && forall w | w in ws :: InVain(w))
            && (s.table == map[] && s.cacheStatus == 0 <==> (forall w | w in ws :: InVain(w)) && NoCache(ws, |ws|))
  {
    hide After, InVain, RefreshesInVain;
    if ws != [] {
      var before, w := ws[..|ws| - 1], ws[|ws| - 1];
      SessionDirtyEmptyIff(before);
      var s := Session(before);
      assert ws == before + [w];
      FirstGrows(before, w);
      if s.table == map[] {
        EmptyStep(w, s);
      } else {
        assert After(w, s, 0).s.table != map[] by { NoProbe(w, s); }
        KeepsAllocated(w, s, 0, 3);
      }
    }
  }

  lemma NoProbe(w: World, s: State)
    ensures After(w, s, 0).s == s
  {
  }

  lemma FirstGrows(before: seq<World>, w: World)
    ensures var ws := before + [w];
            && (NoCache(ws, |ws|) <==> NoCache(before, |before|) && !w.flags.cache)
            && (FirstRefreshes(ws) <==> FirstRefreshes(before) || (RefreshesInVain(w) && NoCache(before, |before|)))
  {
    var ws := before + [w];
    forall j | 0 <= j <= |before| ensures NoCache(ws, j) <==> NoCache(before, j) {
      assert forall k :: 0 <= k < j ==> ws[k] == before[k];
    }
    assert ws[|before|] == w && forall k :: 0 <= k < |before| ==> ws[k] == before[k];
    if FirstRefreshes(before) {
      var j :| 0 <= j < |before| && RefreshesInVain(before[j]) && NoCache(before, j);
      assert RefreshesInVain(ws[j]) && NoCache(ws, j);
    }
    if RefreshesInVain(w) && NoCache(before, |before|) {
      assert RefreshesInVain(ws[|before|]) && NoCache(ws, |before|);
    }
    hide RefreshesInVain;
  }

  /** What is stored once stays stored. */
  lemma {:induction false} KeepsAllocated(w: World, s: State, n: nat, m: nat)
    requires n <= m && After(w, s, n).s.table != map[]
    ensures After(w, s, m).s.table != map[]
    decreases m
  {
    hide Probe;
    if n < m {
      KeepsAllocated(w, s, n, m - 1);
      if After(w, s, m - 1).Running? { ProbeAllocated(w, After(w, s, m - 1).s); }
    }
  }

  lemma ProbeAllocated(w: World, s: State)
    requires s.table != map[]
    ensures Probe(w, s).s.table != map[]
  {
    var k :| k in s.table;
    ProbeKeeps(w, s, k);
    hide Probe;
  }

  /** The lookup part of struct pci_access. */
  class Access {
    var table: T.NameTable
    var cacheStatus: nat
    var asked: nat

    constructor ()
      ensures fresh(this) && table.Valid() && fresh(table.Repr) && this !in table.Repr
      ensures table.contents == map[] && cacheStatus == 0
    {
      table := new T.NameTable();
      cacheStatus, asked := 0, 0;
    }

    ghost predicate Valid()
      reads this, table, table.Repr
    {
      this !in table.Repr && table.Valid()
    }

    /** The state of the loop when hwdb has or has not been tried. */
    ghost function Now(triedHwdb: bool): State
      reads this, table
    {
      State(table.contents, cacheStatus, triedHwdb, asked)
    }

    /** pci_id_cache_load */
    method CacheLoad(w: World) returns (read: bool)
      requires Valid() && w.Valid()
      modifies this`cacheStatus, table.Repr
      ensures Valid() && table == old(table) && fresh(table.Repr - old(table.Repr))
      ensures forall tried :: (read, Now(tried)) == LoadCache(w, old(Now(tried)))
    {
      cacheStatus := 1;
      if !w.cacheNamed { return false; }
      if w.flags.refreshCache {
        cacheStatus := 2;
        return false;
      }
      if w.cacheFile == None { return false; }
      C.Load(table, w.cacheFile.value);
      read := true;
    }

    /** pci_id_cache_dirty */
    method CacheDirty()
      modifies this`cacheStatus
      ensures cacheStatus == if old(cacheStatus) >= 1 then 2 else old(cacheStatus)
    {
      if cacheStatus >= 1 { cacheStatus := 2; }
    }

    /** pci_id_cache_flush: nothing to write, the file, or (crashed) a NULL table.
        A temporary file that cannot be opened ends it before the table is used. */
    method CacheFlush(named: bool, writable: bool) returns (file: Option<string>, crashed: bool)
      requires Valid()
      modifies this`cacheStatus
      ensures cacheStatus == 0 && Valid()
      ensures crashed <==> old(cacheStatus) >= 2 && named && writable && table.contents == map[]
      ensures file.Some? <==> old(cacheStatus) >= 2 && named && writable && table.contents != map[]
      ensures file.Some? ==> C.Flushed(file.value, table.contents)
    {
      var status := cacheStatus;
      cacheStatus := 0;
      if status < 2 || !named || !writable { return None, false; }
      file := C.Flush(table);
      crashed := file == None;
    }

    /** id_lookup, called where it returns: the answer of the first source that
        has one, after at most three probes of the table. */
    method IdLookup(w: World, cat: Byte, id1: U32, id2: U32, id3: U32, id4: U32)
      returns (name: Option<string>, ghost probes: nat)
      requires Valid() && w.Valid() && w.key == T.MakeKey(cat, id1, id2, id3, id4)
      requires !(w.flags.network && Hidden(w, Now(false)))
      modifies this`cacheStatus, this`asked, table.Repr
      ensures Valid() && table == old(table) && fresh(table.Repr - old(table.Repr))
      ensures probes <= 3
      ensures name == Answer(w, old(Now(false)))
      ensures After(w, old(Now(false)), probes).Finished?
      ensures var s := After(w, old(Now(false)), probes).s;
              table.contents == s.table && cacheStatus == s.cacheStatus && asked == s.asked
      ensures forall k :: k in old(table.contents) ==>
                k in table.contents && table.contents[k] == old(table.contents)[k]
    {
      hide Probe, Answer, Hidden;
      ghost var s := Now(false);
      var triedHwdb := false;
      probes := 0;
      while true
        invariant Valid() && table == old(table) && fresh(table.Repr - old(table.Repr))
        invariant After(w, s, probes) == Running(Now(triedHwdb))
        invariant probes < 3
        decreases 3 - probes
      {
        ghost var before := Now(triedHwdb);
        var done;
        done, name, triedHwdb := ProbeOnce(w, cat, id1, id2, id3, id4, triedHwdb);
        probes := probes + 1;
        ThreeProbes(w, s);
        AfterAnswer(w, s, probes);
        if done { break; }
        if probes >= 3 { FinishedStays(w, s, 3, probes); }
      }
      forall k | k in s.table ensures k in table.contents && table.contents[k] == s.table[k] {
        LookupKeeps(w, s, probes, k);
      }
    }

    /** The body of the retry loop; `done` means return. */
    method ProbeOnce(w: World, cat: Byte, id1: U32, id2: U32, id3: U32, id4: U32, tried: bool)
      returns (done: bool, name: Option<string>, triedHwdb: bool)
      requires Valid() && w.Valid() && w.key == T.MakeKey(cat, id1, id2, id3, id4)
      modifies this`cacheStatus, this`asked, table.Repr
      ensures Valid() && table == old(table) && fresh(table.Repr - old(table.Repr))
      ensures Probe(w, old(Now(tried))) == if done then Finished(name, Now(triedHwdb)) else Running(Now(triedHwdb))
    {
      hide AskOutside, C.LoadFrom, T.MakeKey;
      triedHwdb := tried;
      name := table.Lookup(w.flags, cat, id1, id2, id3, id4);
      if name.Some? {
        if name.value == "" { name := None; }
        return true, name, triedHwdb;
      }
      if w.flags.cache && cacheStatus == 0 {
        var read := CacheLoad(w);
        if read { return false, None, triedHwdb; }
      }
      done, triedHwdb := AskOnce(w, cat, id1, id2, id3, id4, triedHwdb);
      name := None;
    }

    /** The part of the loop body behind the cache. */
    method AskOnce(w: World, cat: Byte, id1: U32, id2: U32, id3: U32, id4: U32, tried: bool)
      returns (done: bool, triedHwdb: bool)
      requires Valid() && w.Valid() && w.key == T.MakeKey(cat, id1, id2, id3, id4)
      modifies this`cacheStatus, this`asked, table.Repr
      ensures Valid() && table == old(table) && fresh(table.Repr - old(table.Repr))
      ensures AskOutside(w, old(Now(tried))) == if done then Finished(None, Now(triedHwdb)) else Running(Now(triedHwdb))
    {
      hide T.Put, T.MakeKey;
      done, triedHwdb := false, tried;
      if !triedHwdb && !w.flags.skipLocal && !w.flags.noHwdb {
        triedHwdb := true;
        if w.hwdb.Some? {
          var _ := table.Insert(cat, id1, id2, id3, id4, w.hwdb.value, T.Hwdb);
          return;
        }
      }
      if w.flags.network {
        var answer := w.net(asked);
        asked := asked + 1;
        if answer.Some? {
          var _ := table.Insert(cat, id1, id2, id3, id4, answer.value, T.Net);
          CacheDirty();
        } else {
          var _ := table.Insert(cat, id1, id2, id3, id4, "", T.Net);
        }
        return;
      }
      done := true;
    }
  }
}

# Verified model of the Adnacom hotplug daemon and its PCI library

The daemon watches PCI Express downstream ports. On every tick it scans the
configuration space, grows a tree of buses and bridges, looks at each watched
port and decides whether to rescan, remove or reset what is behind it. The
library below it enumerates buses, walks capability lists, and turns numeric ids
into names through a hash table that is filled from a text database, a cache
file and DNS.

Each module models one part of that. Operations that the source performs step
by step are methods, mostly of classes with the source's own fields, and are
proved against specification functions; the theorems are lemmas about those
functions. Configuration space, files, packets and answers from outside are
arbitrary inputs.

| module | part of the program |
|---|---|
| `Config`, `CText`, `Numerals` | little-endian registers; printing and scanning of numbers, `fgets` |
| `BlockAccess`, `BusScan` | block access and bus enumeration (`lib/generic.c`) |
| `Capabilities`, `CapabilityLayout` | capability chains (`lib/caps.c`): the walks, and lists laid out byte by byte |
| `ConfigCache` | the growing copy of a device's configuration space (`src/adna.c`) |
| `IdPacking`, `Arena`, `NameTable` | ids, allocator and hash table (`lib/names.h`, `lib/names-hash.c`) |
| `NameList`, `NameListParser`, `NameListRoundTrip`, `NameListAccepted`, `NameListLines` | the ID database (`lib/names-parse.c`): specification, program, what written files and accepted files store, and which files are accepted |
| `NameCache`, `NameLookup` | cache file and lookup loop (`lib/names-cache.c`, `lib/names.c`) |
| `Dns`, `DnsRoundTrip` | DNS messages (`lib/names-net.c`; sections 4.1.1 to 4.1.4 of RFC 1035): the passes, and messages put together byte by byte |
| `Filter`, `FilterSyntax` | device filters (`lib/filter.c`) and the daemon's port records |
| `Dump`, `DumpLines` | hex dump writer and reader (`src/adna.c`, `lib/dump.c`), and what its lines are |
| `BusMap` | bus mapping (`src/ls-map.c`) |
| `Topology` | the bus tree (`src/ls-tree.c`) |
| `ScanOrder`, `Placement` | the sort order of the scan, and where devices end up in the tree |
| `TreeRuns` | the same over whole runs, as a condition on the scans alone |
| `Ports` | one watched port: counters and decisions (`src/adna.c`) |
| `Hotplug` | the daemon: start-up, ticks and whole runs (`src/adna.c`) |
| `Incidents` | two concrete runs in which it goes wrong |

## Where the code does not do what one would expect

- The second pass of `grow_tree` looks for the narrowest bridge that may hold
  another one. `host_bridge` has both ends of its range at `~0`, so its width is
  0 in unsigned arithmetic and it always wins: the tree of bridges is flat
  (`Topology.BestIsHost`). Devices still end up behind the narrowest window,
  because of the sort order and the insertion at the head.
- That fails for a bus that the host bridge has come to list, and its list
  persists over ticks. A device in a window is behind the narrowest one if and
  only if its bus is not the host's own and no earlier scan found a device on it
  before any window contained it (`Placement.PlacementIff`,
  `TreeRuns.HostListsOverRuns`, `TreeRuns.PlacementOverRuns`). A hub that was
  there before the bridges were renumbered around it therefore does not count
  for its port, which is rescanned although all is well
  (`TreeRuns.StrandedHubIsMissed` has the two scans, `Incidents.HubNotCounted`
  the daemon's decision).
- `disable_port` uses the bridge above a port without asking whether there is
  one. The daemon follows a NULL pointer exactly when a port that is not in D3
  and has no parent is reset (`Hotplug.LiveRunIff`, `Ports.KilledIff`), which ten
  wholly-down readings bring about (`Ports.TenDownsKill`,
  `Incidents.LonePortDies`). A port has no parent exactly when its bus is the
  host's own or in no window of the first scan (`Hotplug.ParentIff`); when there
  is none, no run dies so (`Hotplug.CoveredStartLives`).
- `id_lookup` does not return when network lookup is allowed while the table
  holds an entry for the key that the flags hide: no answer can ever be stored
  (`NameLookup.TerminatesIff`; a concrete case is
  `NameLookup.SkippedLocalNameDiverges`).
- A cache that is refreshed while nothing can be found is to be written although
  there is no table, and the flush follows a NULL pointer once it has opened its
  temporary file (`NameLookup.DirtyEmptyIff`, over any sequence of lookups
  `NameLookup.SessionDirtyEmptyIff`, `NameLookup.Access.CacheFlush`;
  `NameLookup.RefreshedInVain` is such a lookup).
- A cache line with a category from 256 to below 2^20 is filed in a chain where
  its entry cannot be found (`NameCache.CategoryFiledIff` has the condition,
  `IdPacking.WideCategoryMisfiled` an input). From 2^20 on a category can meet
  the right chain by chance (`IdPacking.WideCategoryMeetsByte`).
- The ID database accepts a program interface directly under a class, with no
  subclass between them (`NameListAccepted.OrphanProgif`).
- Two ids come back out of their packed word if and only if both fit 16 bits
  (`IdPacking.PairRoundTripIff`, `IdPacking.WideIdsCollide`).
- When extended capabilities are asked for before the traditional ones, the
  traditional list is scanned twice and its matches count double from then on
  (`Capabilities.Device.FindCapNr`; `CapabilityLayout.ExpressTwice` is a device where
  one capability counts as two).
- `config_fetch` would never return for a request that ends beyond 2^31
  (`ConfigCache.DoublingEndsIff`). The daemon makes none: it asks for fixed
  offsets and for capability offsets, which lie inside the 4096-byte space.
- The filter syntax has no negative domains (`Filter.SavedFindsItselfIff`). The
  sysfs back-end that the daemon runs on refuses them, so there a saved port
  finds its device whenever its numbers are those of PCI
  (`Filter.SysfsFoundIff`); the FreeBSD back-end (lib/fbsd-device.c:147) copies
  an unsigned number unchecked.
- In an id filter a class of "*" is refused, and behind a device of "*" the class
  is not read at all (`FilterSyntax.IdMeans`).
- `BUCKET_ALIGN` adds a full unit to a number that is aligned already, so `full`
  may end past the bucket; no block does (`Arena.Layout`).
- Moving a dump to the 4096-byte buffer restarts its length at 0. This is
  harmless for every accepted dump, because the data only move for an address
  that is higher than all before (`Dump.PutReflects`, `Dump.AcceptedDump`).

## Model

| member | source | states |
|---|---|---|
| Config.LongDigits | lib/access.c:104-125 | byte k of a register is its digit k in base 256 |
| BlockAccess.Device.Access | lib/generic.c:182-213 | one naturally aligned access either moves its 1, 2 or 4 bytes between device and buffer or fails and moves none, and is logged |
| BlockAccess.TilingTiles | lib/generic.c:182-213 | the sequence of accesses covers the range in order, without gap or overlap, each naturally aligned |
| BlockAccess.TilingMinimal | lib/generic.c:182-213 | no sequence of aligned accesses that covers the range is shorter |
| BlockAccess.TilingNatural | lib/generic.c:182-213 | every access has 1, 2 or 4 bytes at a multiple of its size |
| BlockAccess.TilingCount | lib/generic.c:182-213 | from a multiple of four on, one access for every four bytes and one or two for the rest |
| BlockAccess.BlockOp | lib/generic.c:182-213 | on success exactly those accesses were issued and all bytes moved; on failure a prefix was issued, the last one failed, and the bytes before it moved |
| BlockAccess.BlockRead | lib/generic.c:215-219 | a successful read leaves the device's bytes in the buffer, nothing behind them and nothing in the device changed |
| BlockAccess.BlockWrite | lib/generic.c:221-225 | a successful write leaves the buffer's bytes in the device and every other byte as it was |
| BusScan.WalkBridge | lib/generic.c:13-66 | linking a bridge and scanning behind it keeps the account of functions found and buses entered |
| BusScan.ClosedContains | lib/generic.c:13-66 | a set of buses closed under bridge edges contains every bus reachable from it |
| BusScan.Access.ScanBus | lib/generic.c:13-66 | for any stable space, also with cyclic bridges, one call terminates, enters the buses it can reach that were not entered yet, and links their functions |
| BusScan.GenuineIff | lib/generic.c:29-50 | what is linked, byte by byte: ids neither all 0 nor all 0xff, in a slot that function 0 announces in bit 7 of register 0x0e, with the little-endian vendor and device and the low seven bits of the header type |
| BusScan.EdgeIff | lib/generic.c:51-61 | one bus leads to another through a function with header type 1 or 2 and that bus in register 0x19 |
| BusScan.Access.Scan | lib/generic.c:68-75 | the devices linked are exactly those, on buses reachable from bus 0, with the bytes of the space, and on each bus the later ones first, none twice |
| Capabilities.CompleteIsLongest | lib/caps.c:31-81 | what a walk records when it stops is the longest chain: every non-repeating valid chain is a prefix of it |
| Capabilities.ChainAligned | lib/caps.c:31-81 | recorded addresses are dword aligned, nonzero and inside the space |
| Capabilities.Device.ScanTradCaps | lib/caps.c:31-54 | the traditional list is appended completely, in order, for any register contents |
| Capabilities.Device.ScanExtCaps | lib/caps.c:56-81 | the extended list is appended completely when the device has a PCI Express capability, otherwise nothing is |
| Capabilities.Device.Search | lib/caps.c:123-147 | the capability with the given index among the matching ones, and the number of matching ones |
| Capabilities.SameChain | lib/caps.c:31-54 | two scans of one list record the same chain |
| Capabilities.Device.FillExtCaps | lib/caps.c:83-94 | asked for first, extended capabilities bring a second copy of the traditional ones; otherwise nothing known changes |
| Capabilities.Device.FindCapNr | lib/caps.c:123-147 | the n-th match and the number of matches over the longest valid chains, whatever was filled before; traditional matches count double exactly when extended ones were asked for first |
| CapabilityLayout.TradFound | lib/caps.c:31-54 | a traditional list laid out in registers 6, 0x34 and two bytes per entry is found with its addresses and ids, and is complete |
| CapabilityLayout.ExtFound | lib/caps.c:56-81 | an extended list laid out in four-byte headers from 0x100 on is found with its addresses and ids, and is complete |
| CapabilityLayout.EndMarks | lib/caps.c:31-81 | an id of 0xff, and a header all 0 or all 0xff, end the list |
| CapabilityLayout.ExpressIff | lib/caps.c:62-63 | the device counts as PCI Express exactly when it has capability 0x10 |
| CapabilityLayout.ExpressTwice | lib/caps.c:83-94 | a device with one PCI Express capability, which counts as two when extended ones were asked for first |
| Capabilities.MatchesPick | lib/caps.c:123-147 | the matching capabilities are a subsequence in list order, and none is missed |
| ConfigCache.DoublingEndsIff | src/adna.c:365-366 | in 32-bit arithmetic the doubling ends if and only if the request ends at or before 2^31 |
| ConfigCache.Device.Grow | src/adna.c:362-370 | doubling makes room, keeps every present byte, and marks nothing new |
| ConfigCache.Device.ReadBlock | src/adna.c:371-371 | exactly the first bytes of the range have arrived, all of them on success, and every other byte is as it was |
| ConfigCache.Device.Fetch | src/adna.c:350-375 | present bytes always equal the hardware and are never lost; success makes the whole range present; only the span from the first to the last missing byte is read |
| ConfigCache.Device.CheckRange | src/adna.c:423-430 | passes exactly when the whole range is present |
| ConfigCache.Device.GetByte | src/adna.c:432-436 | the hardware's byte, or the internal-bug exit when it is not present |
| ConfigCache.Device.GetWord | src/adna.c:438-442 | the hardware's little-endian word, under the same condition |
| ConfigCache.Device.GetLong | src/adna.c:444-451 | the hardware's little-endian long, under the same condition |
| ConfigCache.FetchLong | src/adna.c:350-451 | after a successful fetch the get returns the hardware's value and never dies |
| IdPacking.PairValue | lib/names.h:43-46 | shift and or of two 16-bit ids is their base-65536 number |
| IdPacking.PairRoundTrip | lib/names.h:43-56 | both ids come back out of the pair |
| IdPacking.PairRoundTripIff | lib/names.h:43-56 | they do if and only if both fit 16 bits |
| IdPacking.PairOfHalves | lib/names.h:43-56 | every 32-bit word is the pair of its halves |
| IdPacking.WideIdsCollide | lib/names.h:43-46 | ids beyond 16 bits can pack to the same word |
| IdPacking.IdHash | lib/names-hash.c:53-59 | the hash is a chain number |
| IdPacking.FiledIff | lib/names-hash.c:53-80 | for all ids and all categories below 2^20: an entry sits in the chain of its own hash if and only if its category is a byte |
| IdPacking.WideCategoryMisfiled | lib/names-hash.c:53-80 | category 256 is filed in chain 4093, its byte 0 belongs to chain 0 |
| IdPacking.WideCategoryMeetsByte | lib/names-hash.c:53-80 | beyond 2^20 there is a category that meets the chain of its byte |
| Arena.LayoutGrows | lib/names-hash.c:28-51 | a further block keeps all blocks aligned, behind the bucket header, inside their bucket and pairwise disjoint, although `full` may be rounded past the bucket |
| Arena.FirstFitsIff | lib/names-hash.c:30-51 | the first block of a bucket lies inside it if and only if the request is at most what the header leaves |
| Arena.Arena.Alloc | lib/names-hash.c:30-51 | a new bucket only when the request does not fit; the block starts at the fill mark; every earlier block keeps its place and bytes |
| Arena.Arena.Store | lib/names-hash.c:74-81 | the text and its NUL are in the newest block and no other block changed |
| Arena.Arena.Fetch | lib/names-hash.c:85-115 | reading up to the NUL returns the text that was stored |
| NameTable.KeyInjective | lib/names-hash.c:62-73 | with 16-bit ids equal keys mean equal categories and ids |
| NameTable.NameTable.IsStored | lib/names-hash.c:62-73 | walking the key's chain finds exactly the stored keys |
| NameTable.NameTable.NewEntry | lib/names-hash.c:74-81 | the entry has room for its text, which is in memory, and older texts stay |
| NameTable.NameTable.Link | lib/names-hash.c:79-83 | keys stay unique over all chains, every entry sits in the chain of its hash, memory holds every text |
| NameTable.NameTable.Insert | lib/names-hash.c:62-83 | the table is a map in which the first write of a key wins; the result tells whether the key was there |
| NameTable.NameTable.Lookup | lib/names-hash.c:85-115 | the stored text when its source is allowed by the flags, otherwise NULL |
| NameTable.PutAllKeys | lib/names-hash.c:62-83 | after any sequence of inserts the keys are exactly those inserted |
| NameTable.FirstWriteWins | lib/names-hash.c:62-83 | after any sequence of inserts each key has the text and source of its first insert |
| CText.HexTable | lib/names-parse.c:60-77 | the sixteen digits, read in either case |
| NameListParser.IdHexLoop | lib/names-parse.c:60-77 | exactly so many hexadecimal digits and their value, otherwise an error |
| NameListParser.CutLine | lib/names-parse.c:98-105 | the text before the line end without one trailing blank; too long exactly when no line end was read before the end of the file |
| NameListParser.ReadTopLevel | lib/names-parse.c:118-149 | the entry or block an unindented line opens, or its error |
| NameListParser.ReadHeading | lib/names-parse.c:113-205 | the same for every indentation and category |
| NameListParser.ParseLine | lib/names-parse.c:107-211 | the effect of one line on table and context is the specified one, errors included |
| NameListParser.ParseList | lib/names-parse.c:85-214 | the whole file is processed line by line up to the first error, over the real hash table |
| NameListRoundTrip.CommentIff | lib/names-parse.c:107-111 | the lines skipped are exactly blanks, and blanks, a number sign and any text |
| NameListRoundTrip.HeadingReads | lib/names-parse.c:113-205 | the ids of a written entry are read back as that entry |
| NameListRoundTrip.LinesOfRows | lib/names-parse.c:95-213 | reading written rows takes the parser through those rows |
| NameListRoundTrip.RowsLegal | lib/names-parse.c:95-213 | in a well-formed database every row has its place: parents first, no key twice, known vendors, lines of foreign blocks inside them |
| NameListRoundTrip.DatabaseRoundTrip | lib/names-parse.c:85-214 | any text of a well-formed database, with comments, empty lines and foreign blocks, a blank before a line end, either kind of line end and none at the end of the file, is accepted and stores exactly that database |
| NameListAccepted.LineSound | lib/names-parse.c:107-211 | an accepted line adds at most one key, a new one, and keeps the table well formed |
| NameListAccepted.AcceptedFile | lib/names-parse.c:85-214 | reading on from any sound table, each entry line stored its key and no two share one |
| NameListAccepted.AcceptedFromEmpty | lib/names-parse.c:85-214 | in every accepted file stored keys have 16-bit ids, zeros in unused fields and non-empty names; the vendor, device or class above a key is stored, and the subclass of a program interface unless it is 0; a repeated key is never accepted |
| NameListAccepted.OrphanProgif | lib/names-parse.c:192-200 | a program interface directly under a class is stored although there is no subclass |
| NameListLines.SpelledLine | lib/names-parse.c:107-211 | a line that spells a row which may come next is read as that row |
| NameListLines.AcceptedLine | lib/names-parse.c:107-211 | every accepted line spells such a row: tabs, ids in hexadecimal digits of either case, blanks and a name, or a heading, a line of a foreign block, a comment |
| NameListLines.AcceptedFileIff | lib/names-parse.c:85-214 | a file is accepted, and leaves a table, if and only if its lines spell rows that are each in their place, and the table is what the rows store |
| NameListLines.DuplicateIff | lib/names-parse.c:209-210 | "Duplicate entry" exactly for an entry in its place whose key is stored |
| NameListLines.NoVendorIff | lib/names-parse.c:127-134 | "Vendor does not exist" exactly for the heading of generic subsystems of a vendor that is not stored |
| NameListLines.RefusalKeeps | lib/names-parse.c:107-211 | refusing a line leaves the table as it was |
| NameListLines.LongLineRefused | lib/names-parse.c:98-102 | a line that fills the buffer without an end is refused |
| NameCache.SaveLineScans | lib/names-cache.c:93-101 | `sscanf` takes the five numbers of a written line apart again, for any ids and name |
| NameCache.SaveLineTaken | lib/names-cache.c:75-105 | the reader takes a written line back as the entry it was |
| NameCache.Load | lib/names-cache.c:46-112 | loading a file inserts its entries in order up to the first malformed line, over the real hash table |
| NameCache.NumbersScan | lib/names-cache.c:94-94 | `sscanf` takes any five numbers of a line apart again |
| NameCache.CategoryFiledIff | lib/names-cache.c:92-100 | a line with any category below 2^20 is accepted, and its entry is filed in the chain of its key if and only if the category is a byte |
| NameCache.Flush | lib/names-cache.c:147-169 | exactly the non-empty names from cache or network are written, each once; the NULL access happens if and only if nothing is stored |
| NameCache.CacheRoundTrip | lib/names-cache.c:46-182 | loading a written file into an empty table gives, for every key, exactly the non-empty names from cache or network |
| NameCache.CacheSurvives | lib/names-cache.c:46-182 | names read from a cache file are in the next one that is written |
| NameCache.LineOfEntry | lib/names-cache.c:163-168 | an entry is written as its category in decimal, its four ids in hexadecimal, and its name |
| NameCache.OneNameFile | lib/names-cache.c:147-169 | the whole file of a table that holds vendor 8086 from the network |
| NameCache.OtherVersionIgnored | lib/names-cache.c:79-89 | a file whose first line is not the version leaves the table as it was |
| NameCache.UnendedStops | lib/names-cache.c:75-107 | reading stops at a line that is not ended within the buffer |
| NameCache.MalformedStops | lib/names-cache.c:93-107 | reading stops at a line that does not begin with five numbers |
| NameCache.EntryNumbers | lib/names-cache.c:94-94 | a line taken as an entry does begin with a decimal and four hexadecimal numbers, each up to where its digits end |
| NameLookup.ThreeProbes | lib/names.c:16-54 | the lookup ends within three probes when network lookup is off or no entry for the key is hidden by the flags |
| NameLookup.Diverges | lib/names.c:16-54 | otherwise it never ends |
| NameLookup.SkippedLocalNameDiverges | lib/names.c:16-54 | a concrete lookup that never ends: local names skipped, network on, local name stored |
| NameLookup.TerminatesIff | lib/names.c:16-54 | the exact condition under which it ends |
| NameLookup.AfterAnswer | lib/names.c:16-54 | what a lookup that ended returns is the answer of the first source that has one, in the order of the code |
| NameLookup.LookupKeeps | lib/names.c:16-54 | no number of probes changes or drops an entry |
| NameLookup.LookupLeaves | lib/names.c:16-54 | when a lookup has ended, the table is the old one with what the cache file adds and the answer of the first outside source under that source's name; the network was asked once or not at all; the cache is to be written if and only if it was before, or this lookup refreshed it, or the network gave a name while it was in use |
| NameLookup.FetchedNameKept | lib/names.c:38-46 | such a name is in the file that the next flush writes, and reading that file brings it back |
| NameLookup.IntelFetched | lib/names.c:16-54 | a concrete lookup on the network: its answer, its dirty cache, and the file that is then written |
| NameLookup.SeenIffAsked | lib/names-hash.c:95-110 | a lookup sees the entries of exactly the sources that it asks |
| NameLookup.KeepsAllocated | lib/names.c:16-54 | once an entry is stored, the table exists for good |
| NameLookup.DirtyEmptyIff | lib/names.c:16-54 | a first lookup leaves a cache to be written without a table if and only if it refreshes the cache and neither hwdb nor the network can add an entry |
| NameLookup.RefreshedInVain | lib/names.c:16-54 | a concrete lookup that does: refresh asked for, local names and hwdb skipped, network off |
| NameLookup.SessionDirtyEmptyIff | lib/names.c:16-54 | over any sequence of lookups, the cache is to be written without a table if and only if no lookup could add an entry and the first one that used the cache refreshed it |
| NameLookup.Access.CacheFlush | lib/names-cache.c:114-182 | nothing unless the cache is dirty, has a name and its temporary file can be opened; then the file, or a crash if and only if the table was never allocated |
| NameLookup.Access.CacheLoad | lib/names-cache.c:46-112 | the cache is read at most once, and never when a refresh is asked for |
| NameLookup.Access.CacheDirty | lib/names-cache.c:199-204 | the cache is marked dirty only when it is in use |
| NameLookup.Access.ProbeOnce | lib/names.c:16-54 | one round of the loop is the specified probe |
| NameLookup.Access.AskOnce | lib/names.c:28-50 | the part behind the cache: hwdb once, then the network, inserting what came back |
| NameLookup.Access.IdLookup | lib/names.c:16-54 | whenever it ends, at most three probes, the specified answer, and no old entry changed |
| Dns.SkipNameLoop | lib/names-net.c:60-81 | where a name ends, or that it is malformed or cut off |
| Dns.State.SkipOne | lib/names-net.c:84-127 | where a question or record ends |
| Dns.BoundsUnique | lib/names-net.c:84-127 | section boundaries are determined by the message |
| Dns.BoundariesMonotone | lib/names-net.c:84-127 | boundaries never decrease and lie within the packet |
| Dns.NoLayout | lib/names-net.c:84-127 | when a section cannot be skipped, no layout exists |
| Dns.State.ParsePacket | lib/names-net.c:83-127 | a message is accepted exactly when it has a layout |
| Dns.NearerName | lib/names-net.c:60-81 | a name that ends before a nearer bound reads the same under that bound |
| Dns.RecordAgrees | lib/names-net.c:136-157 | the second pass finds a record exactly where the first pass skipped one |
| Dns.SectionAgrees | lib/names-net.c:129-157 | the second pass finds as many records in a section as the first one skipped |
| Dns.AcceptedSection | lib/names-net.c:60-157 | in an accepted message every section after the questions reads as its count of records, then the end, never an error, with all data inside the section |
| Dns.State.InitSection | lib/names-net.c:129-134 | the cursor is put on the section |
| Dns.State.NextRr | lib/names-net.c:136-157 | the next record, the end or an error, and where the cursor is then |
| Dns.State.Records | lib/names-net.c:136-157 | iterating over a section of an accepted message yields its records and stops at its end |
| Dns.StringsRoundTrip | lib/names-net.c:226-232 | the strings of a text record come apart as they were put together |
| Dns.SectionStep | lib/names-net.c:219-219 | every step in a section that reads without error moves the cursor and stays in the message |
| Dns.State.TextName | lib/names-net.c:226-237 | what follows "i=" in the first string of the record that starts with it, up to a NUL |
| Dns.State.Answer | lib/names-net.c:211-241 | the name in the first Internet text record of the answer section that has one; none for a malformed message |
| DnsRoundTrip.MessageRoundTrip | lib/names-net.c:60-157 | a message put together big-endian from a header, questions and records is accepted with the layout of its parts and no other, and every section of records reads back as written: type, class, ttl and data |
| DnsRoundTrip.AcceptedIff | lib/names-net.c:60-127 | a message is accepted if and only if it begins with one put together from valid parts |
| DnsRoundTrip.NameRefused | lib/names-net.c:60-81 | a pointer with nothing behind it, and labels of the two reserved kinds, are refused |
| DnsRoundTrip.MessageAnswered | lib/names-net.c:211-241 | on such a message the lookup answers with the name in the first record of type 16 and class 1 in its answer section that has one |
| DnsRoundTrip.TextAnswered | lib/names-net.c:226-237 | a record whose first string is "i=" and a name, in front of any others, is answered with that name |
| DnsRoundTrip.NoTextNoAnswer | lib/names-net.c:219-225 | without an Internet text record there is no answer |
| Filter.AddressRoundTrip | lib/filter.c:28-80 | parsing a printed address sets the four address fields to the device's |
| Filter.IdentsRoundTrip | lib/filter.c:84-120 | parsing printed ids sets vendor, device and class to the device's |
| Filter.RememberExactly | src/adna.c:1063-1069 | the saved filter accepts a device if and only if all seven fields are equal |
| Filter.SavedFindsItselfIff | src/adna.c:1063-1069 | a saved port accepts its own device exactly when the address can be written: domain not negative, slot and function in range |
| Filter.SysfsFoundIff | lib/sysfs.c:214-225 | a device from sysfs is accepted by its saved port, and alone, if and only if its device and function numbers are those of PCI |
| Filter.NegativeDomainLost | lib/fbsd-device.c:147-147 | with a negative domain, which only a back-end without that guard yields, a device is not accepted |
| Filter.SavedSelectsOne | src/adna.c:1063-1069 | a saved port selects at most one device of a scan with distinct addresses |
| Filter.CutString | lib/filter.c:38-43 | overwriting a separator leaves the strings before and behind it |
| Filter.PciFilter.ParseSlotString | lib/filter.c:28-80 | the fields and errors of the specification, fields before an error included, and exactly the separators passed are overwritten in the buffer |
| Filter.PciFilter.ParseIdString | lib/filter.c:84-120 | the same for ids |
| Filter.PciFilter.ParseDeviceString | lib/filter.c:100-119 | the part behind the first colon: device, and the class unless the device part is a star |
| Filter.PciFilter.Match | lib/filter.c:122-144 | accepts exactly the devices that agree in every field that is not negative |
| Filter.PciFilter.Save | src/adna.c:1063-1069 | printing and parsing leave a filter that accepts exactly the device |
| FilterSyntax.HexArgIff | lib/filter.c:45-77 | a part is taken for a number exactly when all of it is a numeral and it is in the field's range |
| FilterSyntax.SlotTextIff | lib/filter.c:24-80 | every text is of the form [[[domain]:][bus]:][slot][.[func]] with one choice of parts, and the parser finds it |
| FilterSyntax.SlotMeans | lib/filter.c:28-134 | an address is refused for its first part that does not fit, otherwise the filter accepts exactly the devices that have what its parts ask for |
| FilterSyntax.IdTextIff | lib/filter.c:82-120 | the texts [vendor]:[device][:class] are those with a colon |
| FilterSyntax.IdMeans | lib/filter.c:84-144 | the same as for addresses, for ids |
| FilterSyntax.NoIdText | lib/filter.c:89-93 | any other text is refused for that, unless it is empty |
| FilterSyntax.AnythingMatches | lib/filter.c:19-23 | a new filter accepts every device |
| Dump.DumpSize | src/adna.c:908-914 | 4096 bytes exactly when they are asked for and all present after the fetch, otherwise 256 |
| Dump.ShowHexDump | src/adna.c:904-924 | what is printed is the hardware's image of that size, and no byte read dies |
| Dump.PrintHex | src/adna.c:916-923 | the loop prints the address, columns and line ends of the specification |
| Dump.BodyIsRows | src/adna.c:904-924 | what is printed is the rows of 16 bytes, one after the other |
| Dump.PutLoads | lib/dump.c:106-115 | storing the next byte keeps the loaded prefix, also when the data move to the 4096-byte buffer |
| Dump.Access.FillColumns | lib/dump.c:97-124 | the column loop stores the columns of a line or stops at the first bad one |
| Dump.Access.TakeLine | lib/dump.c:71-125 | a header line opens a device, an empty line closes it, a data line fills it, all else is ignored or refused as specified |
| Dump.Access.Init | lib/dump.c:57-128 | a dump file is read line by line to its end or first error |
| Dump.RowsRead | lib/dump.c:57-128 | reading printed rows completes the newest device |
| Dump.DumpRoundTrip | lib/dump.c:34-128 | a header line and the printed body of any image of full rows, up to 4096 bytes, read back as one device with every byte and the exact length |
| Dump.PutReflects | lib/dump.c:106-115 | storing one more byte keeps the last value of every address and the highest address, also when the data move |
| Dump.AcceptedDump | lib/dump.c:57-128 | in every accepted dump each device has the last value given for each address, 0xff elsewhere, and the highest address plus one as its length |
| Dump.DumpReadsBack | lib/dump.c:140-157 | every printed byte can then be read, and none beyond |
| DumpLines.HeaderIff | lib/dump.c:82-89 | a line is the header of a device exactly when it begins with the device's address: domain of four, five or no digits, bus, device, function |
| DumpLines.DataLineIff | lib/dump.c:92-97 | a data line begins with an address of two or three digits, a colon and a space |
| DumpLines.ColumnsIff | lib/dump.c:98-124 | the columns of a line are stored exactly when there is nothing else in it and all are below 4096; too much is reported exactly when one is not |
| DumpLines.EitherLineEnd | lib/dump.c:71-80 | a carriage return in front of the newline makes no difference |
| DumpLines.UnendedRefused | lib/dump.c:71-77 | a line not ended within the buffer makes the file refused |
| DumpLines.PrintedDumpRead | lib/dump.c:57-128 | a printed address and image are read back as that device with those bytes |
| BusMap.FreshMapping | src/ls-map.c:163-181 | the zeroed table satisfies the invariant of the mapping |
| BusMap.BridgeList | src/ls-map.c:28-50 | one bridge for each bridge found, in reverse order, with its registers; its window has its first bus, every bus from there to its last, and no other |
| BusMap.BusInfo.constructor | src/ls-map.c:170-171 | nothing is visited, and every bus has the list built from what was found on it |
| BusMap.BusInfo.DoBridge | src/ls-map.c:107-119 | a bridge to a bus already entered gets bug 1, otherwise one that leaves the window bug 2, and any other is entered; everything mapped before stays |
| BusMap.BusInfo.EnterBridge | src/ls-map.c:114-118 | a bridge is entered with its own window, inside the window of its bus |
| BusMap.BusInfo.DoMapBridges | src/ls-map.c:101-120 | on any bridge data it terminates, enters each bus at most once, and keeps the invariant |
| BusMap.BusInfo.MapBridges | src/ls-map.c:122-130 | every existing bus ends up visited, and those entered for themselves were entered in ascending order |
| BusMap.Forest | src/ls-map.c:101-130 | following `via` from any mapped bus never repeats a bus and ends at an existing bus entered for itself; every window on the way contains the ones entered from it |
| BusMap.OneWayIn | src/ls-map.c:101-130 | a bridge without a bug is the one way into its bus, from a bus entered before |
| ScanOrder.CompareIsOrder | src/adna.c:453-476 | the comparison is by domain, bus, device and function, in this order; it is total and its ties are equal addresses |
| ScanOrder.SortedUnique | src/adna.c:494-515 | with distinct addresses there is only one sorted list |
| Topology.Tree.BusOf | src/ls-tree.c:17-26 | the first bus of the list with that domain and number |
| Topology.Tree.NewBus | src/ls-tree.c:28-40 | an empty bus at the head of the list, nothing else changed |
| Topology.Tree.InsertDev | src/ls-tree.c:42-67 | the device goes to a bus of the bridge, to the first child whose window covers it, or to a new bus in front |
| Topology.Tree.Append | src/ls-tree.c:57-66 | the device is the last one on its bus and points to it |
| Topology.BridgeIff | src/ls-tree.c:80-83 | a bridge is of base class 6 and has header type 1 or 2 |
| Topology.Tree.BuildBridges | src/ls-tree.c:75-111 | one bridge per bridge device of the scan, in its order |
| Topology.Tree.FindBest | src/ls-tree.c:117-123 | the first of the narrowest bridges on the chain that may hold the bridge, widths in 32-bit unsigned arithmetic |
| Topology.BestIsHost | src/ls-tree.c:15-15 | that is always the host bridge, and for the host bridge there is none: the tree is flat |
| Topology.Tree.LinkBridges | src/ls-tree.c:113-129 | all bridges of the scan become children of the host bridge, the last one first, before those of earlier scans |
| Topology.Tree.SecondaryBuses | src/ls-tree.c:131-135 | every bridge of the scan and the host bridge have their secondary bus |
| Topology.Tree.InsertDevs | src/ls-tree.c:137-140 | the fourth pass inserts all devices of the scan in order |
| Topology.Tree.GrowTree | src/ls-tree.c:69-141 | the four passes in place are the specified growth of the tree, which persists from scan to scan |
| Topology.GrowKeeps | src/ls-tree.c:69-141 | for any bridge registers and any number of scans the tree keeps its shape; each new device gets one place and no old one moves |
| Topology.OnExactlyOneBus | src/ls-tree.c:42-67 | a placed device is on exactly one bus list, once, and that bus has its domain and number |
| Topology.GrowOrdered | src/ls-tree.c:59-66 | every bus lists its devices in scan order, over any number of scans |
| Topology.GrowHubs | src/ls-tree.c:131-140 | the secondary bus stays last in a bridge's list and buses in front of it are never empty |
| Topology.GrowNames | src/ls-tree.c:105-105 | a scanned bridge device points to a bridge of this scan |
| Topology.HubAliveIff | src/adna.c:282-285 | a hub is alive exactly when a device of this scan is behind the device's bridge, also with buses pushed in front |
| Topology.Tree.IsHubAlive | src/adna.c:282-285 | whether the first bus of the device's bridge has a device |
| Placement.ChildBackwards | src/ls-tree.c:51-56 | the search meets the last scanned bridge whose window covers the bus first |
| Placement.WherePlaced | src/ls-tree.c:69-141 | on any scan, from any tree: the host bridge for a bus it lists, else the last scanned window that contains the bus, else the newest earlier one, else the host bridge |
| ScanOrder.LaterIsNarrower | src/adna.c:453-476 | among nested windows of a sorted scan the later one is strictly inside the earlier one |
| Placement.PlacementIff | src/ls-tree.c:69-141 | on every sorted scan with nested windows a device in a window is behind the narrowest one if and only if the host bridge does not list its bus |
| Placement.FirstPlacement | src/ls-tree.c:69-141 | on the first scan every device is behind the narrowest window that contains its bus, or on a host bus exactly when there is none |
| TreeRuns.HostListsGrow | src/ls-tree.c:42-67 | a scan adds to the host bridge's list exactly the buses with a device that no window of this or an earlier scan contains |
| TreeRuns.EarlierGrow | src/ls-tree.c:126-127 | windows of earlier scans stay searchable, and those of a scan join them |
| TreeRuns.HostListsOverRuns | src/ls-tree.c:69-141 | over every run the host bridge lists a bus if and only if it is its own or some scan found a device on it before any window contained it |
| TreeRuns.PlacementOverRuns | src/ls-tree.c:69-141 | placement behind the narrowest window, on any scan of any run, as a condition on the scans alone |
| Placement.BehindBridge | src/ls-tree.c:69-141 | a device is attached to a bridge of its scan exactly when that window is its narrowest one and the host bridge does not list its bus |
| TreeRuns.HubAliveOverRuns | src/adna.c:282-285 | on any tick of any run a hub is alive exactly when a device of the scan has the port's window as its narrowest one and its bus was never stranded on the host bridge |
| TreeRuns.StrandedHubIsMissed | src/ls-tree.c:42-67 | two scans after which a hub in the inner bridge's window does not count for it, and that it does when the first scan did not have the hub |
| Hotplug.Daemon.Watch | src/adna.c:1285-1324 | counting and the four branches for one observed device; the NULL access exactly at the reset of a port without a parent |
| Hotplug.Daemon.WatchPort | src/adna.c:1278-1326 | one port is compared with every device its filter accepts, in scan order, up to a NULL access |
| Hotplug.Daemon.WatchAll | src/adna.c:1271-1327 | every port that is not in D3 is treated so and ports in D3 stay as they are, unless one of them follows NULL |
| Hotplug.Daemon.TimerCallback | src/adna.c:1255-1329 | one tick grows the tree and updates all ports as specified, or ends the daemon exactly when a port without a parent is reset |
| Hotplug.Daemon.SaveToList | src/adna.c:1048-1104 | one new port record per downstream device, the last one first, with its number and its filters for the device, the bridge above it and the first device behind it |
| Hotplug.Daemon.SetD3 | src/adna.c:1173-1180 | exactly the ports with that number are flagged |
| Hotplug.Daemon.Show | src/adna.c:1025-1033 | exactly the ports of downstream devices that are not in D0 are flagged |
| Hotplug.Daemon.Start | src/adna.c:1152-1171 | start-up grows the tree from the first scan, saves the ports and flags those in D3; ENODEV exactly when there is no downstream device |
| Hotplug.NumbersDiffer | src/adna.c:478-492 | downstream devices have different numbers |
| Hotplug.LinkedAtStart | src/adna.c:1076-1097 | in the first tree everything that saving a port follows exists |
| Hotplug.StartedPorts | src/adna.c:1048-1104 | every port is new, in D3 exactly when its device is not in D0, and its filters accept the device, the bridge above and the first device behind it and nothing else; every downstream device has one |
| Hotplug.OnePortEach | src/adna.c:1048-1104 | there is exactly one port for each downstream device, the ports are numbered from their count down to 1, and each device's port stands where its number says |
| Hotplug.NumberIsRank | src/adna.c:478-492 | a device's number is its rank among the downstream ones |
| Hotplug.SavedNeighbours | src/adna.c:1076-1097 | the saved parent, which resets write to, is the narrowest bridge above the port, and missing exactly when no window contains its bus; the saved hub is the first device found on a bus behind it |
| Hotplug.SavedPortSees | src/adna.c:1278-1282 | per tick a saved port sees nothing when its device is absent, otherwise the device's link once, and a hub exactly when a device of this scan is behind its bridge |
| Ports.CountersSinceReset | src/adna.c:1285-1319 | after any history the counters are the link-down and hub-down readings since the last reset, with one decision per reading |
| Ports.EveryDecision | src/adna.c:1296-1323 | each decision follows from the readings since the last reset: reset exactly when wholly down with a counter of at least ten, the other branches from the reading alone |
| Ports.KilledIff | src/adna.c:126-239 | over any history a port follows NULL if and only if it is not in D3, has no parent, and one of its decisions is a reset |
| Ports.TenDownsKill | src/adna.c:126-239 | ten wholly-down readings of a port without a parent are enough |
| Ports.ResetBounds | src/adna.c:1310-1320 | resets are at least a tenth of the wholly-down readings, and eleven times the resets at most all down readings |
| Ports.EveryTenthFailure | src/adna.c:1310-1319 | when link and hub always fail together, there is a reset at exactly every tenth failure |
| Hotplug.HistoryIsReadings | src/adna.c:1278-1282 | over every run, as long as the daemon lives, a saved port gets one reading for each tick that finds its device, and none for any other |
| Hotplug.TreeOfRun | src/ls-tree.c:69-141 | the tree of a run is the one of its scans, the first at start-up |
| Hotplug.HubReading | src/adna.c:282-285 | the hub of a reading, on any tick of any run from start-up, is alive exactly under the condition of `TreeRuns.HubAliveOverRuns` |
| Hotplug.RunPort | src/adna.c:1255-1329 | over whole runs of the daemon, as long as it lives, a port depends only on what it was shown, tick after tick |
| Hotplug.LiveRunIff | src/adna.c:1255-1329 | a run of ticks goes to its end, and then is the specified one, if and only if no port's readings make it follow NULL |
| Hotplug.EveryRun | src/adna.c:1255-1329 | over every run: it dies exactly when a port without a parent is reset; otherwise a port in D3 is never counted or acted on, any other satisfies all of the above at once, and one without a parent was wholly down less than ten times |
| Hotplug.SavedRun | src/adna.c:1255-1329 | the same for a saved port with the ticks counted as the source counts them: one decision per tick that finds its device, and its down readings since the last reset |
| Hotplug.ParentIff | src/adna.c:1074-1086 | a device of the first scan has no bridge above it if and only if its bus is the host's own or in no window |
| Hotplug.CoveredStartLives | src/adna.c:126-239 | when the bus of every downstream device in D0 is in a window of the first scan and not the host's own, no run from start-up follows NULL |
| Incidents.LonePortDies | src/adna.c:1310-1319 | a port on bus 0 that stays down with nothing behind it ends the daemon at the tenth tick, not before |
| Incidents.HubNotCounted | src/adna.c:1278-1303 | the daemon saves the inner bridge as a port; after the renumbering it rescans it if the hub was there at start-up, and finds it fine if not |

## Left out

- NameCache.Load: requires categories that fit a byte; what happens to others is stated by `NameCache.CategoryFiledIff`, not carried through the table.
- NameCache.CategoryFiledIff: categories below 2^20; larger ones can meet their chain by chance, and negative ones, which `sscanf` takes as well, are not modelled.
- IdPacking.FiledIff: the same bound.
- NameCache.CacheRoundTrip: `sscanf` is modelled without overflow and a lone "0x", which written files do not contain.
- NameLookup.Access.IdLookup: can only be called when it returns; `NameLookup.TerminatesIff` shows that the condition is exact.
- ConfigCache.Device.Fetch: requests end at or before 2^31, beyond which it does not return (`ConfigCache.DoublingEndsIff`); sharing of the buffer with the library's own cache pointer is not modelled.
- ConfigCache.Device.Grow: the same bound.
- ConfigCache.FetchLong: the same bound.
- NameLookup.Access.CacheLoad: categories that fit a byte, as for `NameCache.Load`.
- Topology.Tree.GrowTree: buses, bridges and devices are numbered values in lists instead of linked structures, so pointer aliasing is not captured; the order of every list is.
- Hotplug.Daemon.Watch: the counters are unbounded where the source has `int`; system calls are taken to succeed and a watched device to have a PCI Express capability, where the source exits or crashes otherwise.
- Hotplug.Daemon.Start: which devices are downstream ports and which are in D0 are inputs, as is the link state of a watched device; they are single fields of the PCI Express and power management capabilities.
- Arena.Arena.Alloc: requests fit one bucket, as the source assumes (`Arena.FirstFitsIff` has the bound); sizes are those of a 64-bit machine (alignment 8, header 16, entry 24, name at 18).
- Dns.State.Answer: the query name and the resolver are not modelled; the message that came back is an input.
- BusMap.BusInfo.MapBridges: the bridges found on each bus are given; `do_map_bus`, which scans and filters them, is not modelled, and the result is stated through `via` because `map_bridge` leaves `bug` unset.
- `qsort` itself: any sorted permutation is accepted, and `ScanOrder.SortedUnique` shows there is only one.
- `id_lookup_subsys`, `format_name` and the hwdb and DNS back-ends: a lookup's outside answers are inputs.
- Freeing, rescanning with `PCI_FILL_RESCAN`, `pci_generic_fill_info` and the operating-system back-ends.
- Timers, signals, sleeps, writes to sysfs and to port registers: recorded as decisions.
- Capability decoders, verbose printers, tree drawing, `setpci`, parameters, option parsing and the v30 filter wrappers: printing and plumbing without hard invariants.

// A FAT32 volume as the boot loader reads it: the fields of the boot sector, the file allocation
// table as a relation between clusters, and the directory.  All sector and cluster numbers are
// 32-bit words; a card is a map from the sectors that can be read to their contents.
module FatVolume {

  import opened Bytes
  import opened Division

  const SECTOR_SIZE := 512
  const END_OF_CHAIN := 0x0FFF_FFF8
  const LAST_CLUSTER := 0x0FFF_FFFF
  const ENTRY_SIZE := 32

  type Sector = s: seq<Byte> | |s| == SECTOR_SIZE witness seq<Byte>(SECTOR_SIZE, _ => 0)

  type Card = map<nat, Sector>

  function Word(x: int): (w: nat)
    ensures w < 0x1_0000_0000
    ensures 0 <= x < 0x1_0000_0000 ==> w == x
  {
    x % 0x1_0000_0000
  }

  // looks_like_fat32_bpb
  predicate LooksLikeFat32(s: Sector) {
    && Le16(s, 11) == SECTOR_SIZE
    && s[13] != 0
    && Le16(s, 14) != 0
    && s[16] != 0
    && Le32(s, 36) != 0
    && Le32(s, 44) >= 2
  }

  const NAME: seq<Byte> := [66, 79, 79, 84, 32, 32, 32, 32, 66, 73, 78]

  // name_match: "BOOT    BIN"
  predicate NameMatch(s: Sector, off: nat)
    requires off + ENTRY_SIZE <= SECTOR_SIZE
  {
    && s[off] == NAME[0] && s[off + 1] == NAME[1] && s[off + 2] == NAME[2] && s[off + 3] == NAME[3]
    && s[off + 4] == NAME[4] && s[off + 5] == NAME[5] && s[off + 6] == NAME[6] && s[off + 7] == NAME[7]
    && s[off + 8] == NAME[8] && s[off + 9] == NAME[9] && s[off + 10] == NAME[10]
  }

  // ---- the volume

  datatype Volume = Volume(card: Card, fatLba: nat, dataLba: nat, perCluster: nat)

  datatype Mounted = Mounted(volume: Volume, root: nat) | NotMounted(code: int)

  // Where the volume starts: at sector 0, or where the first partition does.
  function PartitionStart(first: Sector): nat {
    if !LooksLikeFat32(first) && first[510] == 0x55 && first[511] == 0xAA && first[0x1BE + 4] != 0 then
      Le32(first, 0x1BE + 8)
    else 0
  }

  function Mount(card: Card): Mounted {
    if 0 !in card then NotMounted(-1)
    else
      var part := PartitionStart(card[0]);
      if part !in card then NotMounted(-1)
      else
        var s := card[part];
        if Le16(s, 11) != SECTOR_SIZE then NotMounted(-2)
        else
          var fatLba := Word(part + Le16(s, 14));
          var dataLba := Word(fatLba + Word((s[16] as int) * Le32(s, 36)));
          Mounted(Volume(card, fatLba, dataLba, s[13]), Le32(s, 44))
  }

  // What the codes of a failed mount say: a sector that cannot be read, or one without a volume.
  lemma MountCodes(card: Card)
    ensures Mount(card) == NotMounted(-1) <==> 0 !in card || PartitionStart(card[0]) !in card
    ensures Mount(card) == NotMounted(-2) <==>
              0 in card && PartitionStart(card[0]) in card && Le16(card[PartitionStart(card[0])], 11) != 512
    ensures Mount(card).NotMounted? ==> Mount(card).code == -1 || Mount(card).code == -2
  {
    hide PartitionStart;
    hide Le16;
    hide Le32;
  }

  function FirstSector(v: Volume, c: nat): nat { Word(v.dataLba + Word((c - 2) * v.perCluster)) }

  // The sector numbered s of cluster c.
  function SectorOf(v: Volume, c: nat, s: nat): nat { Word(FirstSector(v, c) + s) }

  // The clusters tile the data area: cluster 2 begins it, the sectors of a cluster follow one
  // another, and the next cluster follows its last sector.
  lemma ClustersTile(v: Volume, c: nat, s: nat)
    requires c >= 2 && s < v.perCluster && v.dataLba + (c - 1) * v.perCluster < 0x1_0000_0000
    ensures SectorOf(v, 2, 0) == v.dataLba
    ensures SectorOf(v, c, s) + 1 == if s + 1 < v.perCluster then SectorOf(v, c, s + 1) else SectorOf(v, c + 1, 0)
  {
    SectorNumber(v, c, s);
    assert (c + 1 - 2) * v.perCluster == (c - 1) * v.perCluster;
  }

  lemma SectorNumber(v: Volume, c: nat, s: nat)
    requires c >= 2 && s < v.perCluster && v.dataLba + (c - 1) * v.perCluster < 0x1_0000_0000
    ensures (c - 2) * v.perCluster >= 0 && (c - 1) * v.perCluster == (c - 2) * v.perCluster + v.perCluster
    ensures SectorOf(v, c, s) == v.dataLba + (c - 2) * v.perCluster + s
  {
    Product(c - 2, v.perCluster);
  }

  // No two sectors of clusters share a place.
  lemma SectorsApart(v: Volume, c: nat, s: nat, d: nat, t: nat)
    requires c >= 2 && s < v.perCluster && v.dataLba + (c - 1) * v.perCluster < 0x1_0000_0000
    requires d >= 2 && t < v.perCluster && v.dataLba + (d - 1) * v.perCluster < 0x1_0000_0000
    ensures SectorOf(v, c, s) == SectorOf(v, d, t) <==> c == d && s == t
  {
    SectorNumber(v, c, s);
    SectorNumber(v, d, t);
    Quotient(c - 2, s, v.perCluster);
    Quotient(d - 2, t, v.perCluster);
    hide SectorOf;
  }

  // What the table says follows a cluster.
  datatype Link = At(cluster: nat) | Ended | Unreadable

  function TableSector(v: Volume, c: nat): nat { Word(v.fatLba + Word(c * 4) / 512) }

  function AsLink(c: nat): Link {
    if c < END_OF_CHAIN then At(c) else Ended
  }

  function Next(v: Volume, c: nat): Link {
    if TableSector(v, c) !in v.card then Unreadable
    else AsLink(TableEntry(v.card[TableSector(v, c)], c))
  }

  function TableEntry(s: Sector, c: nat): nat {
    TableOffset(c);
    Le32(s, Word(c * 4) % 512) % 0x1000_0000
  }

  lemma TableOffset(c: nat)
    ensures Word(c * 4) % 512 + 4 <= SECTOR_SIZE
  {
  }

  // The cluster i steps after c.
  function Chain(v: Volume, c: nat, i: nat): Link {
    if i == 0 then AsLink(c)
    else
      var before := Chain(v, c, i - 1);
      if before.At? then Next(v, before.cluster) else before
  }

  // ---- the contents of a file

  datatype Place = Place(lba: nat) | Nowhere(unreadable: bool)

  // Where the k-th sector of the file that starts at cluster c is.
  function Locate(v: Volume, c: nat, k: nat): Place
    requires v.perCluster > 0
  {
    match Chain(v, c, k / v.perCluster)
    case At(d) => Place(SectorOf(v, d, k % v.perCluster))
    case Ended => Nowhere(false)
    case Unreadable => Nowhere(true)
  }

  // It is there and can be read.
  predicate HasSector(v: Volume, c: nat, k: nat)
    requires v.perCluster > 0
  {
    var place := Locate(v, c, k);
    place.Place? && place.lba in v.card
  }

  function FileSector(v: Volume, c: nat, k: nat): Sector
    requires v.perCluster > 0 && HasSector(v, c, k)
  {
    v.card[Locate(v, c, k).lba]
  }

  predicate HasSectors(v: Volume, c: nat, n: nat)
    requires v.perCluster > 0
  {
    forall k :: 0 <= k < n ==> HasSector(v, c, k)
  }

  function SectorsFor(size: nat): nat { (size + SECTOR_SIZE - 1) / SECTOR_SIZE }

  // Byte i of the file: the clusters of its chain, one after the other.
  function FileByte(v: Volume, c: nat, i: nat): Byte
    requires v.perCluster > 0
  {
    if HasSector(v, c, i / SECTOR_SIZE) then FileSector(v, c, i / SECTOR_SIZE)[i % SECTOR_SIZE] else 0
  }

  lemma ByteOfSector(v: Volume, c: nat, k: nat, j: nat)
    requires v.perCluster > 0 && HasSector(v, c, k) && j < SECTOR_SIZE
    ensures FileByte(v, c, k * SECTOR_SIZE + j) == FileSector(v, c, k)[j]
  {
    assert (k * SECTOR_SIZE + j) / SECTOR_SIZE == k && (k * SECTOR_SIZE + j) % SECTOR_SIZE == j;
    hide HasSector;
    hide FileSector;
  }

  // The sectors of i clusters.
  function Base(v: Volume, i: nat): nat {
    Product(i, v.perCluster);
    i * v.perCluster
  }

  lemma BaseNext(v: Volume, i: nat)
    ensures Base(v, 0) == 0 && Base(v, i + 1) == Base(v, i) + v.perCluster
  {
  }

  // The sector after s sectors of the i-th cluster.
  lemma PlaceInChain(v: Volume, c: nat, i: nat, s: nat)
    requires s < v.perCluster && Chain(v, c, i).At?
    ensures Locate(v, c, Base(v, i) + s) == Place(SectorOf(v, Chain(v, c, i).cluster, s))
  {
    Quotient(i, s, v.perCluster);
    hide SectorOf;
    hide Chain;
  }

  lemma PlaceBehind(v: Volume, c: nat, i: nat)
    requires v.perCluster > 0 && !Chain(v, c, i).At?
    ensures Locate(v, c, Base(v, i)) == Nowhere(Chain(v, c, i).Unreadable?)
  {
    Quotient(i, 0, v.perCluster);
    hide SectorOf;
    hide Chain;
  }

  lemma Quotient(i: nat, s: nat, n: nat)
    requires s < n
    ensures i * n + s >= 0 && (i * n + s) / n == i && (i * n + s) % n == s
  {
    Product(i, n);
    QuotientIs(i * n + s, n, i, s);
  }

  lemma Product(a: nat, b: nat)
    ensures a * b >= 0
  {
  }

  // ---- the directory

  datatype Entry = Entry(start: nat, size: nat)

  // The entry at off is the boot file's: it has the name and is no long-name entry.  (That it is
  // neither free nor deleted follows from the name.)
  predicate IsBootFile(s: Sector, off: nat)
    requires off + ENTRY_SIZE <= SECTOR_SIZE
  {
    NameMatch(s, off) && s[off + 11] != 0x0F
  }

  // Outright: the eleven characters of BOOT.BIN as a directory spells it, in an entry that is not
  // part of a long name; such an entry is neither free nor deleted.
  lemma BootFileExactly(s: Sector, off: nat)
    requires off + ENTRY_SIZE <= SECTOR_SIZE
    ensures IsBootFile(s, off) <==>
              s[off..off + 11] == [0x42, 0x4F, 0x4F, 0x54, 0x20, 0x20, 0x20, 0x20, 0x42, 0x49, 0x4E] && s[off + 11] != 0x0F
    ensures IsBootFile(s, off) ==> s[off] != 0 && s[off] != 0xE5
  {
    var t := s[off..off + 11];
    assert forall i :: 0 <= i < 11 ==> t[i] == s[off + i];
    assert t == [t[0], t[1], t[2], t[3], t[4], t[5], t[6], t[7], t[8], t[9], t[10]];
  }

  function EntryAt(s: Sector, off: nat): Entry
    requires off + ENTRY_SIZE <= SECTOR_SIZE
  {
    Entry((Le16(s, off + 20) as int) * 0x1_0000 + Le16(s, off + 26), Le32(s, off + 28))
  }

  datatype Hit = Hit(entry: Entry) | Miss

  // The first entry of the boot file among those from index i on.
  function ScanSector(s: Sector, i: nat): (h: Hit)
    requires i <= SECTOR_SIZE / ENTRY_SIZE
    decreases SECTOR_SIZE / ENTRY_SIZE - i
  {
    if i == SECTOR_SIZE / ENTRY_SIZE then Miss
    else if IsBootFile(s, i * ENTRY_SIZE) then Hit(EntryAt(s, i * ENTRY_SIZE))
    else ScanSector(s, i + 1)
  }

  lemma {:induction false} ScanExact(s: Sector, i: nat)
    requires i <= SECTOR_SIZE / ENTRY_SIZE
    ensures var h := ScanSector(s, i);
            && (h.Miss? <==> forall j :: i <= j < SECTOR_SIZE / ENTRY_SIZE ==> !IsBootFile(s, j * ENTRY_SIZE))
            && (h.Hit? ==> exists j :: i <= j < SECTOR_SIZE / ENTRY_SIZE && IsBootFile(s, j * ENTRY_SIZE) &&
                                       h.entry == EntryAt(s, j * ENTRY_SIZE) &&
                                       forall k :: i <= k < j ==> !IsBootFile(s, k * ENTRY_SIZE))
    decreases SECTOR_SIZE / ENTRY_SIZE - i
  {
    hide IsBootFile;
    hide EntryAt;
    if i < SECTOR_SIZE / ENTRY_SIZE && !IsBootFile(s, i * ENTRY_SIZE) {
      ScanExact(s, i + 1);
    }
  }

  // What a search comes to.  An entry without clusters is passed over; after it the search goes
  // on from the entry of the table for LAST_CLUSTER, and `passed` says so.
  datatype Search = Found(entry: Entry) | Nothing(passed: bool) | Failed | OutOfSteps

  // The sectors of directory cluster c from s on.
  function ScanCluster(v: Volume, c: nat, s: nat, passed: bool): Search
    decreases v.perCluster - s
  {
    if s >= v.perCluster then Nothing(passed)
    else if SectorOf(v, c, s) !in v.card then Failed
    else
      var hit := ScanSector(v.card[SectorOf(v, c, s)], 0);
      if hit.Hit? && hit.entry.start != 0 then Found(hit.entry)
      else ScanCluster(v, c, s + 1, passed || hit.Hit?)
  }

  // The directory from cluster c on, through at most `steps` clusters.
  function SearchFrom(v: Volume, c: nat, steps: nat): Search
    decreases steps
  {
    if c >= END_OF_CHAIN then Nothing(false)
    else if steps == 0 then OutOfSteps
    else
      var r := ScanCluster(v, c, 0, false);
      if !r.Nothing? then r
      else
        var last := if r.passed then LAST_CLUSTER else c;
        if TableSector(v, last) !in v.card then Failed
        else SearchFrom(v, TableEntry(v.card[TableSector(v, last)], last), steps - 1)
  }

  // ---- what a search finds

  // Sector s of cluster c is a directory sector without the boot file.
  predicate Unlisted(v: Volume, c: nat, s: nat) {
    var lba := SectorOf(v, c, s);
    lba in v.card && forall j :: 0 <= j < SECTOR_SIZE / ENTRY_SIZE ==> !IsBootFile(v.card[lba], j * ENTRY_SIZE)
  }

  // So are the first n sectors of the cluster.
  predicate UnlistedUpTo(v: Volume, link: Link, n: nat) {
    link.At? && forall s :: 0 <= s < n ==> Unlisted(v, link.cluster, s)
  }

  // The first entry of the boot file in sector s of cluster c is e.
  ghost predicate Lists(v: Volume, c: nat, s: nat, e: Entry) {
    var lba := SectorOf(v, c, s);
    lba in v.card && ScanSector(v.card[lba], 0) == Hit(e)
  }

  lemma {:induction false} ScanPasses(v: Volume, c: nat, s: nat, t: nat)
    requires s <= t <= v.perCluster && forall u :: s <= u < t ==> Unlisted(v, c, u)
    ensures ScanCluster(v, c, s, false) == ScanCluster(v, c, t, false)
    decreases t - s
  {
    if s < t {
      assert Unlisted(v, c, s);
      ScanExact(v.card[SectorOf(v, c, s)], 0);
      ScanPasses(v, c, s + 1, t);
    }
  }

  // The search comes to the first sector of the directory's chain that lists the boot file, if
  // all before it can be read, however many clusters that takes.
  lemma {:induction false} FirstListedFound(v: Volume, c: nat, n: nat, s: nat, e: Entry, steps: nat)
    requires s < v.perCluster && n < steps && e.start != 0
    requires forall i :: 0 <= i < n ==> UnlistedUpTo(v, Chain(v, c, i), v.perCluster)
    requires UnlistedUpTo(v, Chain(v, c, n), s) && Lists(v, Chain(v, c, n).cluster, s, e)
    ensures SearchFrom(v, c, steps) == Found(e)
    decreases n
  {
    hide ScanCluster;
    hide SectorOf;
    hide TableEntry;
    hide TableSector;
    hide Lists;
    hide Unlisted;
    assert Chain(v, c, 0) == AsLink(c);
    if n == 0 {
      ListedFound(v, c, s, e);
    } else {
      assert UnlistedUpTo(v, Chain(v, c, 0), v.perCluster);
      AllPassed(v, c);
      assert UnlistedUpTo(v, Chain(v, c, n), s);
      SecondAt(v, c, n);
      var d := Next(v, c).cluster;
      ChainFromNext(v, c, n - 1);
      forall i | 0 <= i < n - 1 ensures UnlistedUpTo(v, Chain(v, d, i), v.perCluster) {
        ChainFromNext(v, c, i);
        assert UnlistedUpTo(v, Chain(v, c, i + 1), v.perCluster);
      }
      FirstListedFound(v, d, n - 1, s, e, steps - 1);
    }
  }

  lemma ListedFound(v: Volume, c: nat, s: nat, e: Entry)
    requires UnlistedUpTo(v, At(c), s) && s < v.perCluster && Lists(v, c, s, e) && e.start != 0
    ensures ScanCluster(v, c, 0, false) == Found(e)
  {
    ScanPasses(v, c, 0, s);
    hide SectorOf;
  }

  lemma AllPassed(v: Volume, c: nat)
    requires UnlistedUpTo(v, At(c), v.perCluster)
    ensures ScanCluster(v, c, 0, false) == Nothing(false)
  {
    ScanPasses(v, c, 0, v.perCluster);
  }

  lemma {:induction false} SecondAt(v: Volume, c: nat, n: nat)
    requires n > 0 && Chain(v, c, n).At?
    ensures c < END_OF_CHAIN && Next(v, c).At?
  {
    if n == 1 {
      assert Chain(v, c, 0) == AsLink(c);
    } else {
      SecondAt(v, c, n - 1);
    }
  }

  lemma {:induction false} ChainFromNext(v: Volume, c: nat, i: nat)
    requires c < END_OF_CHAIN && Next(v, c).At?
    ensures Chain(v, Next(v, c).cluster, i) == Chain(v, c, i + 1)
  {
    if i > 0 {
      ChainFromNext(v, c, i - 1);
    }
  }

  // And what it finds is listed in a sector of the card, with clusters.
  lemma {:induction false} FoundIsListed(v: Volume, c: nat, steps: nat)
    ensures var r := SearchFrom(v, c, steps);
            r.Found? ==> r.entry.start != 0 && exists d, s :: 0 <= s < v.perCluster && Lists(v, d, s, r.entry)
    decreases steps
  {
    if c < END_OF_CHAIN && steps > 0 {
      ScanIsListed(v, c, 0, false);
      var r := ScanCluster(v, c, 0, false);
      if r.Nothing? {
        var last := if r.passed then LAST_CLUSTER else c;
        if TableSector(v, last) in v.card {
          FoundIsListed(v, TableEntry(v.card[TableSector(v, last)], last), steps - 1);
        }
      }
    }
  }

  lemma {:induction false} ScanIsListed(v: Volume, c: nat, s: nat, passed: bool)
    ensures var r := ScanCluster(v, c, s, passed);
            r != OutOfSteps &&
            (r.Found? ==> r.entry.start != 0 && exists u :: 0 <= u < v.perCluster && Lists(v, c, u, r.entry))
    decreases v.perCluster - s
  {
    if s < v.perCluster && SectorOf(v, c, s) in v.card {
      var hit := ScanSector(v.card[SectorOf(v, c, s)], 0);
      if hit.Hit? && hit.entry.start != 0 {
        assert Lists(v, c, s, hit.entry);
      } else {
        ScanIsListed(v, c, s + 1, passed || hit.Hit?);
      }
    }
  }

  // More steps do not change what a search that ended came to.
  lemma {:induction false} MoreSteps(v: Volume, c: nat, steps: nat, more: nat)
    requires steps <= more && SearchFrom(v, c, steps) != OutOfSteps
    ensures SearchFrom(v, c, more) == SearchFrom(v, c, steps)
    decreases steps
  {
    if c < END_OF_CHAIN && steps > 0 {
      var r := ScanCluster(v, c, 0, false);
      if r.Nothing? {
        var last := if r.passed then LAST_CLUSTER else c;
        if TableSector(v, last) in v.card {
          MoreSteps(v, TableEntry(v.card[TableSector(v, last)], last), steps - 1, more - 1);
        }
      }
    }
  }

  // ---- the end of the directory

  const ENTRIES := SECTOR_SIZE / ENTRY_SIZE

  // Entry j is free, and by the specification so are all that follow it in the directory.
  predicate MarksEnd(s: Sector, j: nat)
    requires j < ENTRIES
  {
    s[j * ENTRY_SIZE] == 0
  }

  // What a reader of the directory sees in a sector that stops at such an entry.
  datatype Sight = Listed(entry: Entry) | EndSeen | NoneSeen

  function SpecifiedScan(s: Sector, i: nat): Sight
    requires i <= ENTRIES
    decreases ENTRIES - i
  {
    if i == ENTRIES then NoneSeen
    else if MarksEnd(s, i) then EndSeen
    else if IsBootFile(s, i * ENTRY_SIZE) then Listed(EntryAt(s, i * ENTRY_SIZE))
    else SpecifiedScan(s, i + 1)
  }

  predicate BootAt(s: Sector, k: nat)
    requires k < ENTRIES
  {
    IsBootFile(s, k * ENTRY_SIZE)
  }

  // The end is marked at entry j, in front of every entry of the boot file from i on.
  ghost predicate EndsAt(s: Sector, i: nat, j: nat)
    requires i <= j < ENTRIES
  {
    MarksEnd(s, j) && forall l :: i <= l < j ==> !IsBootFile(s, l * ENTRY_SIZE)
  }

  ghost predicate EndsFirst(s: Sector, i: nat)
    requires i <= ENTRIES
  {
    exists j :: i <= j < ENTRIES && EndsAt(s, i, j)
  }

  // An entry of the boot file lies behind the end.
  ghost predicate Stale(s: Sector, i: nat)
    requires i <= ENTRIES
  {
    exists j, k :: i <= j < k < ENTRIES && EndsAt(s, i, j) && BootAt(s, k)
  }

  lemma NameIsNoEnd(s: Sector, i: nat)
    requires i < ENTRIES && IsBootFile(s, i * ENTRY_SIZE)
    ensures !MarksEnd(s, i)
  {
  }

  // The loader does not stop there.  Its scan finds what the specified one finds exactly if no
  // entry of the file lies behind the end.
  lemma {:induction false} ScanMeetsSpecification(s: Sector, i: nat)
    requires i <= ENTRIES
    ensures SpecifiedScan(s, i) == EndSeen <==> EndsFirst(s, i)
    ensures !EndsFirst(s, i) ==>
              SpecifiedScan(s, i) == if ScanSector(s, i).Hit? then Listed(ScanSector(s, i).entry) else NoneSeen
    ensures (SpecifiedScan(s, i).Listed? <==> ScanSector(s, i).Hit?) <==> !Stale(s, i)
    decreases ENTRIES - i
  {
    hide IsBootFile;
    hide EntryAt;
    hide MarksEnd;
    if i < ENTRIES {
      if IsBootFile(s, i * ENTRY_SIZE) {
        NameIsNoEnd(s, i);
        NotEndingFirst(s, i);
      } else if MarksEnd(s, i) {
        assert EndsAt(s, i, i);
        EndingHere(s, i);
      } else {
        ScanMeetsSpecification(s, i + 1);
        EndsFromNext(s, i);
      }
    }
  }

  lemma EndingHere(s: Sector, i: nat)
    requires i < ENTRIES && MarksEnd(s, i) && !IsBootFile(s, i * ENTRY_SIZE)
    ensures ScanSector(s, i).Hit? <==> Stale(s, i)
  {
    hide IsBootFile;
    hide EntryAt;
    hide MarksEnd;
    assert EndsAt(s, i, i);
    ScanExact(s, i);
    if ScanSector(s, i).Hit? {
      var k :| i <= k < ENTRIES && IsBootFile(s, k * ENTRY_SIZE);
      assert BootAt(s, k);
    }
  }

  // Behind an entry of the file no end comes first.
  lemma NotEndingFirst(s: Sector, i: nat)
    requires i < ENTRIES && IsBootFile(s, i * ENTRY_SIZE) && !MarksEnd(s, i)
    ensures !EndsFirst(s, i) && !Stale(s, i)
  {
    hide IsBootFile;
    hide MarksEnd;
    forall j | i <= j < ENTRIES ensures !EndsAt(s, i, j) {
      assert j > i ==> IsBootFile(s, i * ENTRY_SIZE);
    }
  }

  lemma EndsFromNext(s: Sector, i: nat)
    requires i < ENTRIES && !IsBootFile(s, i * ENTRY_SIZE) && !MarksEnd(s, i)
    ensures EndsFirst(s, i) <==> EndsFirst(s, i + 1)
    ensures Stale(s, i) <==> Stale(s, i + 1)
  {
    hide IsBootFile;
    hide MarksEnd;
    assert !EndsAt(s, i, i);
    forall j | i < j < ENTRIES ensures EndsAt(s, i, j) == EndsAt(s, i + 1, j) {
    }
    EndsShift(s, i, i + 1);
  }

  lemma EndsShift(s: Sector, i: nat, n: nat)
    requires i < n == i + 1 <= ENTRIES && !EndsAt(s, i, i)
    requires forall j :: n <= j < ENTRIES ==> EndsAt(s, i, j) == EndsAt(s, n, j)
    ensures EndsFirst(s, i) <==> EndsFirst(s, n)
    ensures Stale(s, i) <==> Stale(s, n)
  {
    hide EndsAt;
    hide IsBootFile;
    forall j, k | n <= j < k < ENTRIES ensures EndsAt(s, i, j) && BootAt(s, k) <==> EndsAt(s, n, j) && BootAt(s, k) {
    }
  }

  // The specified search: as the loader's, but the directory ends with the first sector that
  // marks its end in front of the file.
  datatype Stretch = Decided(search: Search) | Onward(passed: bool)

  function SpecifiedCluster(v: Volume, c: nat, s: nat, passed: bool): Stretch
    decreases v.perCluster - s
  {
    if s >= v.perCluster then Onward(passed)
    else if SectorOf(v, c, s) !in v.card then Decided(Failed)
    else
      match SpecifiedScan(v.card[SectorOf(v, c, s)], 0)
      case EndSeen => Decided(Nothing(false))
      case Listed(e) => if e.start != 0 then Decided(Found(e)) else SpecifiedCluster(v, c, s + 1, true)
      case NoneSeen => SpecifiedCluster(v, c, s + 1, passed)
  }

  function SpecifiedSearch(v: Volume, c: nat, steps: nat): Search
    decreases steps
  {
    if c >= END_OF_CHAIN then Nothing(false)
    else if steps == 0 then OutOfSteps
    else
      var r := SpecifiedCluster(v, c, 0, false);
      if r.Decided? then r.search
      else
        var last := if r.passed then LAST_CLUSTER else c;
        if TableSector(v, last) !in v.card then Failed
        else SpecifiedSearch(v, TableEntry(v.card[TableSector(v, last)], last), steps - 1)
  }

  // Going through the directory, a sector that marks its end is met before the file is found:
  // among the sectors of a cluster, and in the clusters of the chain.
  ghost predicate EndInCluster(v: Volume, c: nat, s: nat)
    decreases v.perCluster - s
  {
    s < v.perCluster && SectorOf(v, c, s) in v.card &&
    var sector := v.card[SectorOf(v, c, s)];
    EndsFirst(sector, 0) ||
    (!(ScanSector(sector, 0).Hit? && ScanSector(sector, 0).entry.start != 0) && EndInCluster(v, c, s + 1))
  }

  ghost predicate EndMet(v: Volume, c: nat, steps: nat)
    decreases steps
  {
    c < END_OF_CHAIN && steps > 0 &&
    (EndInCluster(v, c, 0) ||
     var r := ScanCluster(v, c, 0, false);
     r.Nothing? &&
     var last := if r.passed then LAST_CLUSTER else c;
     TableSector(v, last) in v.card &&
     EndMet(v, TableEntry(v.card[TableSector(v, last)], last), steps - 1))
  }

  lemma {:induction false} ClusterMeetsSpecification(v: Volume, c: nat, s: nat, passed: bool)
    ensures EndInCluster(v, c, s) ==> SpecifiedCluster(v, c, s, passed) == Decided(Nothing(false))
    ensures !EndInCluster(v, c, s) ==>
              var r := ScanCluster(v, c, s, passed);
              SpecifiedCluster(v, c, s, passed) == if r.Nothing? then Onward(r.passed) else Decided(r)
    decreases v.perCluster - s
  {
    hide SectorOf;
    hide SpecifiedScan;
    hide ScanSector;
    hide EndsFirst;
    if s < v.perCluster && SectorOf(v, c, s) in v.card {
      var sector := v.card[SectorOf(v, c, s)];
      ScanMeetsSpecification(sector, 0);
      var hit := ScanSector(sector, 0);
      if !EndsFirst(sector, 0) && !(hit.Hit? && hit.entry.start != 0) {
        ClusterMeetsSpecification(v, c, s + 1, passed || hit.Hit?);
      }
    }
  }

  // The loader's search comes to what the specified one comes to exactly if it meets no end of
  // the directory, or finds nothing behind it: where it meets one, the specified search ends
  // without the file.
  lemma {:induction false} SearchMeetsSpecification(v: Volume, c: nat, steps: nat)
    ensures SpecifiedSearch(v, c, steps) == if EndMet(v, c, steps) then Nothing(false) else SearchFrom(v, c, steps)
    ensures SearchFrom(v, c, steps).Found? ==>
              (SpecifiedSearch(v, c, steps) == SearchFrom(v, c, steps) <==> !EndMet(v, c, steps))
    decreases steps
  {
    hide ScanCluster;
    hide SpecifiedCluster;
    hide EndInCluster;
    hide TableEntry;
    hide TableSector;
    if c < END_OF_CHAIN && steps > 0 {
      ClusterMeetsSpecification(v, c, 0, false);
      var r := ScanCluster(v, c, 0, false);
      if !EndInCluster(v, c, 0) && r.Nothing? {
        var last := if r.passed then LAST_CLUSTER else c;
        if TableSector(v, last) in v.card {
          SearchMeetsSpecification(v, TableEntry(v.card[TableSector(v, last)], last), steps - 1);
        }
      }
    }
  }

  // A sector whose first entry is free and whose second is an old one of the boot file.
  function StaleSector(): Sector {
    seq<Byte>(SECTOR_SIZE, i requires 0 <= i < SECTOR_SIZE => StaleByte(i))
  }

  function StaleByte(i: nat): Byte {
    if 32 <= i < 43 then NAME[i - 32] else if i == 58 then 3 else 0
  }

  // The loader takes it for the file; by the specification the directory has ended.
  lemma StaleEntryFound() returns (s: Sector)
    ensures s == StaleSector()
    ensures ScanSector(s, 0) == Hit(Entry(3, 0)) && SpecifiedScan(s, 0) == EndSeen
  {
    s := StaleSector();
    assert !IsBootFile(s, 0 * ENTRY_SIZE) && MarksEnd(s, 0);
    assert IsBootFile(s, 1 * ENTRY_SIZE) && EntryAt(s, 1 * ENTRY_SIZE) == Entry(3, 0);
    SecondEntry(s, 0);
  }

  lemma SecondEntry(s: Sector, i: nat)
    requires i + 1 < ENTRIES && !IsBootFile(s, i * ENTRY_SIZE) && IsBootFile(s, (i + 1) * ENTRY_SIZE)
    ensures ScanSector(s, i) == Hit(EntryAt(s, (i + 1) * ENTRY_SIZE))
    ensures MarksEnd(s, i) ==> SpecifiedScan(s, i) == EndSeen
  {
    hide IsBootFile;
    hide EntryAt;
    assert ScanSector(s, i) == ScanSector(s, i + 1);
  }
}

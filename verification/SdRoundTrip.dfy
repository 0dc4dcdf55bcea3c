// The image that make_sd_image.py lays out, read by fatboot_load: whatever boot file and size the
// program accepts, the loader finds that file, and it loads it exactly if it is a boot image.
module SdRoundTrip {

  import opened Bytes
  import opened BootImage
  import opened FatVolume
  import opened FatBoot
  import opened SdImage

  // The sectors of an image.
  function AsCard(s: seq<Byte>): Card {
    map k: nat | 0 <= k < |s| / SECTOR_SIZE :: SectorIn(s, k)
  }

  function SectorIn(s: seq<Byte>, k: nat): Sector
    requires k < |s| / SECTOR_SIZE
  {
    s[k * SECTOR_SIZE..k * SECTOR_SIZE + SECTOR_SIZE]
  }

  // What an image looks like sector by sector.
  lemma SectorByte(s: seq<Byte>, boot: seq<Byte>, mib: nat, k: nat, j: nat)
    requires Accepts(boot, mib) && IsImage(s, boot, mib) && k < Sectors(mib) && j < SECTOR_SIZE
    ensures k in AsCard(s) && AsCard(s)[k][j] == ImageByte(boot, mib, k * SECTOR_SIZE + j)
  {
    hide ImageByte;
    assert |s| / SECTOR_SIZE == Sectors(mib);
  }

  function VolumeOf(s: seq<Byte>, mib: nat): Volume
    requires mib > 0
  {
    Volume(AsCard(s), RESERVED, DataStart(mib), 1)
  }

  // Four bytes of a sector that are those of a word.
  lemma WordAt(s: seq<Byte>, i: nat, v: nat)
    requires v < LIMIT && i + 4 <= |s| && forall k :: 0 <= k < 4 ==> s[i + k] == ToLe32(v)[k]
    ensures Le32(s, i) == v
  {
    var w := ToLe32(v);
    assert s[i + 0] == w[0] && s[i + 1] == w[1] && s[i + 2] == w[2] && s[i + 3] == w[3];
  }

  lemma HalfAt(s: seq<Byte>, i: nat, v: nat)
    requires v < 0x1_0000 && i + 2 <= |s| && s[i] == ToLe16(v)[0] && s[i + 1] == ToLe16(v)[1]
    ensures Le16(s, i) == v
  {
  }

  // ---- the boot sector

  lemma BootSectorOf(s: seq<Byte>, boot: seq<Byte>, mib: nat)
    requires Accepts(boot, mib) && IsImage(s, boot, mib)
    ensures 0 in AsCard(s)
    ensures forall j :: 0 <= j < SECTOR_SIZE ==>
              AsCard(s)[0][j] == BootSectorByte(Sectors(mib), TableSize(Sectors(mib)), j)
  {
    forall j | 0 <= j < SECTOR_SIZE
      ensures 0 in AsCard(s) && AsCard(s)[0][j] == BootSectorByte(Sectors(mib), TableSize(Sectors(mib)), j)
    {
      SectorByte(s, boot, mib, 0, j);
    }
  }

  lemma Fields(b: Sector, sectors: nat, table: nat)
    requires 0 < sectors < LIMIT && 0 < table < LIMIT
    requires forall j :: 0 <= j < SECTOR_SIZE ==> b[j] == BootSectorByte(sectors, table, j)
    ensures Le16(b, 11) == SECTOR_SIZE && b[13] == 1 && Le16(b, 14) == RESERVED && b[16] == 1
    ensures Le32(b, 36) == table && Le32(b, 44) == ROOT
    ensures LooksLikeFat32(b) && PartitionStart(b) == 0
  {
    HalfAt(b, 11, SECTOR_SIZE);
    HalfAt(b, 14, RESERVED);
    WordAt(b, 36, table);
    WordAt(b, 44, ROOT);
    hide BootSectorByte;
    hide Le32;
    hide Le16;
  }

  lemma Mounts(s: seq<Byte>, boot: seq<Byte>, mib: nat)
    requires Accepts(boot, mib) && IsImage(s, boot, mib)
    ensures Mount(AsCard(s)) == Mounted(VolumeOf(s, mib), ROOT)
  {
    BootSectorOf(s, boot, mib);
    NeverEnlarged(mib, 0);
    Fields(AsCard(s)[0], Sectors(mib), TableSize(Sectors(mib)));
    hide BootSectorByte;
    hide LooksLikeFat32;
    hide PartitionStart;
    hide Le32;
    hide Le16;
  }

  // ---- the table

  // The table sector and its entry for cluster e.
  lemma EntryOf(s: seq<Byte>, boot: seq<Byte>, mib: nat, e: nat)
    requires Accepts(boot, mib) && IsImage(s, boot, mib) && e < FIRST + Clusters(boot)
    ensures var v := VolumeOf(s, mib);
            && TableSector(v, e) in v.card
            && TableEntry(v.card[TableSector(v, e)], e) == TableValue(Clusters(boot), Clusters(boot), e) % 0x1000_0000
  {
    hide Clusters;
    hide TableSize;
    hide IsImage;
    hide Sectors;
    hide Word;
    hide TableValue;
    hide TableEntry;
    hide ToLe32;
    hide ImageByte;
    var v, n := VolumeOf(s, mib), Clusters(boot);
    var k, o := TableSector(v, e), Word(e * 4) % 512;
    EntryPlace(v, boot, mib, e);
    TableValueFits(boot, mib, e);
    forall i | 0 <= i < 4
      ensures k in v.card && v.card[k][o + i] == ToLe32(TableValue(n, n, e))[i]
    {
      SectorByte(s, boot, mib, k, o + i);
      EntryByte(boot, mib, e, i);
    }
    SectorByte(s, boot, mib, k, o);
    TableEntryAt(v.card[k], e, TableValue(n, n, e));
  }

  lemma TableValueFits(boot: seq<Byte>, mib: nat, e: nat)
    requires Accepts(boot, mib) && e < FIRST + Clusters(boot)
    ensures TableValue(Clusters(boot), Clusters(boot), e) < LIMIT
  {
    SmallCluster(boot, e);
  }

  lemma TableEntryAt(sector: Sector, e: nat, w: nat)
    requires w < LIMIT && Word(e * 4) % 512 + 4 <= SECTOR_SIZE
    requires forall i :: 0 <= i < 4 ==> sector[Word(e * 4) % 512 + i] == ToLe32(w)[i]
    ensures TableEntry(sector, e) == w % 0x1000_0000
  {
    hide Word;
    hide ToLe32;
    WordAt(sector, Word(e * 4) % 512, w);
  }

  lemma SmallCluster(boot: seq<Byte>, e: nat)
    requires |boot| < LIMIT && e < FIRST + Clusters(boot)
    ensures e < 0x0080_0004 < END_OF_CHAIN && Word(e * 4) == e * 4
  {
  }

  lemma EntryPlace(v: Volume, boot: seq<Byte>, mib: nat, e: nat)
    requires Accepts(boot, mib) && e < FIRST + Clusters(boot) && v.fatLba == RESERVED
    ensures var k, o := TableSector(v, e), Word(e * 4) % 512;
            && o + 4 <= SECTOR_SIZE && k < Sectors(mib)
            && k * SECTOR_SIZE + o == RESERVED * SECTOR_SIZE + e * 4
  {
    SmallCluster(boot, e);
    TableLongEnough(boot, mib);
  }

  lemma EntryByte(boot: seq<Byte>, mib: nat, e: nat, i: nat)
    requires Accepts(boot, mib) && e < FIRST + Clusters(boot) && i < 4
    ensures ImageByte(boot, mib, RESERVED * SECTOR_SIZE + e * 4 + i) ==
            ToLe32(TableValue(Clusters(boot), Clusters(boot), e))[i]
  {
    TableLongEnough(boot, mib);
    var o := e * 4 + i;
    assert o / 4 == e && o % 4 == i;
    assert RESERVED * SECTOR_SIZE + o < DataStart(mib) * SECTOR_SIZE;
    hide ToLe32;
    hide TableValue;
  }

  ghost predicate InOrder(v: Volume, i: nat) { Next(v, FIRST + i) == At(FIRST + i + 1) }

  lemma NextOf(s: seq<Byte>, boot: seq<Byte>, mib: nat, i: nat)
    requires Accepts(boot, mib) && IsImage(s, boot, mib) && i + 1 < Clusters(boot)
    ensures InOrder(VolumeOf(s, mib), i)
  {
    hide Clusters;
    hide TableSize;
    hide IsImage;
    hide Sectors;
    hide Chain;
    hide Word;
    LinkValue(boot, mib, i);
    EntryOf(s, boot, mib, FIRST + i);
    Follows(VolumeOf(s, mib), i);
  }

  lemma LinkValue(boot: seq<Byte>, mib: nat, i: nat)
    requires Accepts(boot, mib) && i + 1 < Clusters(boot)
    ensures TableValue(Clusters(boot), Clusters(boot), FIRST + i) % 0x1000_0000 == FIRST + i + 1 < END_OF_CHAIN
  {
    SmallCluster(boot, FIRST + i + 1);
    assert TableValue(Clusters(boot), Clusters(boot), FIRST + i) == FIRST + i + 1;
    hide Clusters;
    hide Accepts;
  }

  lemma Follows(v: Volume, i: nat)
    requires TableSector(v, FIRST + i) in v.card
    requires TableEntry(v.card[TableSector(v, FIRST + i)], FIRST + i) == FIRST + i + 1 < END_OF_CHAIN
    ensures InOrder(v, i)
  {
    hide TableEntry;
    hide TableSector;
  }

  // Clusters that follow one another make a chain in their order.
  lemma {:induction false} ChainInOrder(v: Volume, i: nat)
    requires forall j :: 0 <= j < i ==> InOrder(v, j)
    ensures Chain(v, FIRST, i) == At(FIRST + i)
  {
    hide Next;
    if i > 0 {
      ChainInOrder(v, i - 1);
      assert InOrder(v, i - 1);
    }
  }

  lemma ChainOf(s: seq<Byte>, boot: seq<Byte>, mib: nat, i: nat)
    requires Accepts(boot, mib) && IsImage(s, boot, mib) && i < Clusters(boot)
    ensures Chain(VolumeOf(s, mib), FIRST, i) == At(FIRST + i)
  {
    hide Clusters;
    hide TableSize;
    hide IsImage;
    hide Sectors;
    hide Chain;
    hide Word;
    var v := VolumeOf(s, mib);
    forall j | 0 <= j < i ensures InOrder(v, j) {
      NextOf(s, boot, mib, j);
    }
    ChainInOrder(v, i);
  }

  // ---- the directory

  lemma RootByteOf(s: seq<Byte>, boot: seq<Byte>, mib: nat, j: nat)
    requires Accepts(boot, mib) && IsImage(s, boot, mib) && j < SECTOR_SIZE
    ensures DataStart(mib) in AsCard(s) && AsCard(s)[DataStart(mib)][j] == RootByte(|boot|, j)
  {
    SectorByte(s, boot, mib, DataStart(mib), j);
    hide RootByte;
  }

  lemma RootListing(r: Sector, size: nat)
    requires size < LIMIT && forall j :: 0 <= j < SECTOR_SIZE ==> r[j] == RootByte(size, j)
    ensures ScanSector(r, 0) == Hit(Entry(FIRST, size))
  {
    HalfAt(r, 20, FIRST / 0x1_0000);
    HalfAt(r, 26, FIRST % 0x1_0000);
    WordAt(r, 28, size);
    assert IsBootFile(r, 0);
    hide RootByte;
    hide IsBootFile;
    hide Le32;
    hide Le16;
  }

  lemma FileFound(s: seq<Byte>, boot: seq<Byte>, mib: nat, steps: nat)
    requires Accepts(boot, mib) && IsImage(s, boot, mib) && steps > 0
    ensures SearchFrom(VolumeOf(s, mib), ROOT, steps) == Found(Entry(FIRST, |boot|))
  {
    var v, e := VolumeOf(s, mib), Entry(FIRST, |boot|);
    forall j | 0 <= j < SECTOR_SIZE
      ensures DataStart(mib) in v.card && v.card[DataStart(mib)][j] == RootByte(|boot|, j)
    {
      RootByteOf(s, boot, mib, j);
    }
    assert v.card[DataStart(mib)][0] == RootByte(|boot|, 0);
    RootListing(v.card[DataStart(mib)], |boot|);
    assert SectorOf(v, ROOT, 0) == DataStart(mib);
    assert Lists(v, ROOT, 0, e);
    assert Chain(v, ROOT, 0) == At(ROOT);
    FirstListedFound(v, ROOT, 0, 0, e, steps);
  }

  // ---- the file

  lemma ContentOf(s: seq<Byte>, boot: seq<Byte>, mib: nat, k: nat)
    requires Accepts(boot, mib) && IsImage(s, boot, mib) && k < Clusters(boot)
    ensures var v := VolumeOf(s, mib);
            && HasSector(v, FIRST, k)
            && forall j :: 0 <= j < SECTOR_SIZE && k * SECTOR_SIZE + j < |boot| ==>
                 FileSector(v, FIRST, k)[j] == boot[k * SECTOR_SIZE + j]
  {
    hide Clusters;
    hide TableSize;
    hide IsImage;
    hide Sectors;
    hide Chain;
    hide Word;
    var v, lba := VolumeOf(s, mib), DataStart(mib) + 1 + k;
    FileSectorPlace(s, boot, mib, k);
    SectorByte(s, boot, mib, lba, 0);
    SectorPlaced(v, FIRST, k);
    forall j | 0 <= j < SECTOR_SIZE && k * SECTOR_SIZE + j < |boot|
      ensures v.card[lba][j] == boot[k * SECTOR_SIZE + j]
    {
      SectorByte(s, boot, mib, lba, j);
      FileByteAt(boot, mib, k * SECTOR_SIZE + j);
    }
  }

  lemma FileSectorPlace(s: seq<Byte>, boot: seq<Byte>, mib: nat, k: nat)
    requires Accepts(boot, mib) && IsImage(s, boot, mib) && k < Clusters(boot)
    ensures var v := VolumeOf(s, mib);
            && v.card == AsCard(s) && v.perCluster == 1
            && DataStart(mib) + 1 + k < Sectors(mib)
            && Locate(v, FIRST, k) == Place(DataStart(mib) + 1 + k)
  {
    ChainOf(s, boot, mib, k);
    var v := VolumeOf(s, mib);
    hide IsImage;
    hide Locate;
    hide Chain;
    ClusterPlace(v, k);
  }

  lemma FileByteAt(boot: seq<Byte>, mib: nat, i: nat)
    requires Accepts(boot, mib) && i < |boot|
    ensures ImageByte(boot, mib, DataStart(mib) * SECTOR_SIZE + SECTOR_SIZE + i) == boot[i]
  {
  }

  // With one sector a cluster, the file's sectors follow the root directory.
  lemma ClusterPlace(v: Volume, k: nat)
    requires v.perCluster == 1 && v.dataLba + 1 + k < LIMIT && Chain(v, FIRST, k) == At(FIRST + k)
    ensures Locate(v, FIRST, k) == Place(v.dataLba + 1 + k)
  {
    assert k / v.perCluster == k && k % v.perCluster == 0;
    assert SectorOf(v, FIRST + k, 0) == v.dataLba + 1 + k;
    hide SectorOf;
    hide Chain;
  }

  lemma WholeContent(s: seq<Byte>, boot: seq<Byte>, mib: nat)
    requires Accepts(boot, mib) && IsImage(s, boot, mib)
    ensures HasSectors(VolumeOf(s, mib), FIRST, SectorsFor(|boot|))
    ensures forall i :: 0 <= i < |boot| ==> FileByte(VolumeOf(s, mib), FIRST, i) == boot[i]
  {
    var v := VolumeOf(s, mib);
    forall k | 0 <= k < SectorsFor(|boot|) ensures HasSector(v, FIRST, k) {
      ContentOf(s, boot, mib, k);
    }
    forall i | 0 <= i < |boot| ensures FileByte(v, FIRST, i) == boot[i] {
      ContentOf(s, boot, mib, i / SECTOR_SIZE);
      assert i == i / SECTOR_SIZE * SECTOR_SIZE + i % SECTOR_SIZE;
    }
  }

  // ---- the round trip

  // The loader's conditions hold of the file found exactly if the file given is a boot image;
  // and what memory then holds is its payload.
  lemma RoundTrip(s: seq<Byte>, boot: seq<Byte>, mib: nat, dst: nat)
    requires Accepts(boot, mib) && IsImage(s, boot, mib)
    ensures var v, e := VolumeOf(s, mib), Entry(FIRST, |boot|);
            && Mount(AsCard(s)) == Mounted(v, ROOT)
            && (forall steps :: steps > 0 ==> SearchFrom(v, ROOT, steps) == Found(e))
            && (Bootable(v, e, dst) <==> IsBootImage(boot, dst))
            && (forall m :: |boot| >= HEADER_SIZE ==>
                 (Holds(m, v, FIRST, dst, |boot|) <==> m == Placed(dst, boot[HEADER_SIZE..])))
  {
    var v, e := VolumeOf(s, mib), Entry(FIRST, |boot|);
    Mounts(s, boot, mib);
    forall steps | steps > 0 ensures SearchFrom(v, ROOT, steps) == Found(e) {
      FileFound(s, boot, mib, steps);
    }
    WholeContent(s, boot, mib);
    hide Bootable;
    hide Holds;
    hide HasSectors;
    ContentDecides(v, FIRST, boot, dst);
  }

  // ---- what the specification asks of the image besides

  // The boot sector is signed and gives the number of sectors; the media byte is that of the
  // table's first entry, and the second is an end mark; the chains of the root directory and of
  // the file end where they should, and all further entries are free; and the directory has no
  // end before the file's entry, so that a search by the specification finds it too.
  lemma ImageConforms(s: seq<Byte>, boot: seq<Byte>, mib: nat)
    requires Accepts(boot, mib) && IsImage(s, boot, mib)
    ensures |s| == mib * 1024 * 1024 && s[510] == 0x55 && s[511] == 0xAA && s[0] == 0xEB && s[2] == 0x90
    ensures Le32(s, 32) == |s| / 512 && s[21] == s[32 * 512] && s[21] >= 0xF8
    ensures Chain(VolumeOf(s, mib), ROOT, 1) == Ended
    ensures boot != [] ==> Chain(VolumeOf(s, mib), FIRST, (|boot| + 511) / 512) == Ended
    ensures forall j :: 32 * 512 + 4 * (3 + (|boot| + 511) / 512) <= j < DataStart(mib) * 512 ==> s[j] == 0
    ensures forall steps :: steps > 0 ==> SpecifiedSearch(VolumeOf(s, mib), ROOT, steps) == Found(Entry(FIRST, |boot|))
  {
    FirstBytes(s, boot, mib);
    RootEnds(s, boot, mib);
    if boot != [] {
      FileEnds(s, boot, mib);
    }
    FreeBehind(s, boot, mib);
    forall steps | steps > 0 ensures SpecifiedSearch(VolumeOf(s, mib), ROOT, steps) == Found(Entry(FIRST, |boot|)) {
      FoundBySpecification(s, boot, mib, steps);
    }
  }

  lemma FirstBytes(s: seq<Byte>, boot: seq<Byte>, mib: nat)
    requires Accepts(boot, mib) && IsImage(s, boot, mib)
    ensures |s| == mib * 1024 * 1024 && s[510] == 0x55 && s[511] == 0xAA && s[0] == 0xEB && s[2] == 0x90
    ensures Le32(s, 32) == |s| / 512 && s[21] == s[32 * 512] && s[21] >= 0xF8
  {
    WordAt(s, 32, Sectors(mib));
  }

  lemma RootEnds(s: seq<Byte>, boot: seq<Byte>, mib: nat)
    requires Accepts(boot, mib) && IsImage(s, boot, mib)
    ensures Chain(VolumeOf(s, mib), ROOT, 1) == Ended
  {
    EntryOf(s, boot, mib, ROOT);
    assert TableValue(Clusters(boot), Clusters(boot), ROOT) == LAST_CLUSTER;
    hide TableEntry;
    hide TableSector;
    hide IsImage;
    hide Clusters;
    assert Chain(VolumeOf(s, mib), ROOT, 0) == At(ROOT);
  }

  lemma FileEnds(s: seq<Byte>, boot: seq<Byte>, mib: nat)
    requires Accepts(boot, mib) && IsImage(s, boot, mib) && boot != []
    ensures Chain(VolumeOf(s, mib), FIRST, Clusters(boot)) == Ended
  {
    hide TableEntry;
    hide TableSector;
    hide IsImage;
    hide Clusters;
    hide AsCard;
    hide Chain;
    var n := LastValue(boot, mib);
    EntryOf(s, boot, mib, FIRST + n - 1);
    ChainOf(s, boot, mib, n - 1);
    EndsBehind(VolumeOf(s, mib), FIRST + n - 1, n);
  }

  lemma LastValue(boot: seq<Byte>, mib: nat) returns (n: nat)
    requires Accepts(boot, mib) && boot != []
    ensures n == Clusters(boot) > 0 && TableValue(n, n, FIRST + n - 1) % 0x1000_0000 == LAST_CLUSTER
  {
    n := Clusters(boot);
  }

  lemma EndsBehind(v: Volume, c: nat, n: nat)
    requires n > 0 && Chain(v, FIRST, n - 1) == At(c) && TableSector(v, c) in v.card
    requires TableEntry(v.card[TableSector(v, c)], c) == LAST_CLUSTER
    ensures Chain(v, FIRST, n) == Ended
  {
    hide TableEntry;
    hide TableSector;
  }

  lemma FreeBehind(s: seq<Byte>, boot: seq<Byte>, mib: nat)
    requires Accepts(boot, mib) && IsImage(s, boot, mib)
    ensures forall j :: 32 * 512 + 4 * (3 + (|boot| + 511) / 512) <= j < DataStart(mib) * 512 ==> s[j] == 0
  {
    forall j | 32 * 512 + 4 * (3 + (|boot| + 511) / 512) <= j < DataStart(mib) * 512 ensures s[j] == 0 {
      assert s[j] == ImageByte(boot, mib, j);
      assert TableValue(Clusters(boot), Clusters(boot), (j - 32 * 512) / 4) == 0;
      FreeBytes((j - 32 * 512) % 4);
    }
  }

  lemma FreeBytes(i: nat)
    requires i < 4
    ensures ToLe32(0)[i] == 0
  {
  }

  lemma FoundBySpecification(s: seq<Byte>, boot: seq<Byte>, mib: nat, steps: nat)
    requires Accepts(boot, mib) && IsImage(s, boot, mib) && steps > 0
    ensures SpecifiedSearch(VolumeOf(s, mib), ROOT, steps) == Found(Entry(FIRST, |boot|))
  {
    var v, e := VolumeOf(s, mib), Entry(FIRST, |boot|);
    FileFound(s, boot, mib, steps);
    SearchMeetsSpecification(v, ROOT, steps);
    RootFirst(s, boot, mib);
    hide IsImage;
    hide AsCard;
    assert ScanCluster(v, ROOT, 0, false) == Found(e);
    assert !EndInCluster(v, ROOT, 0);
  }

  // The file's entry is the first of the root directory.
  lemma RootFirst(s: seq<Byte>, boot: seq<Byte>, mib: nat)
    requires Accepts(boot, mib) && IsImage(s, boot, mib)
    ensures var v := VolumeOf(s, mib);
            && SectorOf(v, ROOT, 0) in v.card && !EndsFirst(v.card[SectorOf(v, ROOT, 0)], 0)
            && ScanSector(v.card[SectorOf(v, ROOT, 0)], 0) == Hit(Entry(FIRST, |boot|))
  {
    var v := VolumeOf(s, mib);
    forall j | 0 <= j < SECTOR_SIZE
      ensures DataStart(mib) in v.card && v.card[DataStart(mib)][j] == RootByte(|boot|, j)
    {
      RootByteOf(s, boot, mib, j);
    }
    assert v.card[DataStart(mib)][0] == RootByte(|boot|, 0);
    RootListing(v.card[DataStart(mib)], |boot|);
    assert SectorOf(v, ROOT, 0) == DataStart(mib);
    assert IsBootFile(v.card[DataStart(mib)], 0 * ENTRY_SIZE);
    NotEndingFirst(v.card[DataStart(mib)], 0);
    hide AsCard;
  }

  // The two programs, one after the other.
  method MakeAndLoad(boot: seq<Byte>, mib: int, dst: nat, steps: nat)
      returns (made: bool, code: int, memory: map<nat, Byte>, size: nat)
    requires steps > 0
    ensures made <==> Accepts(boot, mib)
    ensures made ==> (code == 0 <==> IsBootImage(boot, dst))
    ensures made && code == 0 ==> memory == Placed(dst, boot[HEADER_SIZE..]) && size == |boot| - HEADER_SIZE
  {
    code, memory, size := -1, map[], 0;
    var img;
    made, img := MakeImage(boot, mib);
    if made {
      RoundTrip(img[..], boot, mib, dst);
      var loader := new FatLoader(AsCard(img[..]));
      var ended;
      hide Mount;
      hide SearchFrom;
      hide Bootable;
      hide Holds;
      hide Placed;
      hide IsImage;
      ended, code := loader.Load(dst, steps);
      memory, size := loader.memory, loader.sizeOut;
    }
  }
}

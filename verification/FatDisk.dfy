// Cards described by what is on them: the sectors before the volume, its reserved sectors, the
// copies of the file allocation table and the data area, cluster by cluster.  On every such card,
// with any number of sectors a cluster, the loader finds the file its root directory lists and
// takes the bytes of the file's clusters, in the order of their chain.
module FatDisk {

  import opened Bytes
  import opened BootImage
  import opened Division
  import opened FatBoot
  import opened FatVolume

  datatype Disk = Disk(
    before: seq<Sector>,          // in front of the volume: nothing, or what the partition table is in
    reserved: seq<Sector>,        // the first is the boot sector of the volume
    tables: seq<seq<Sector>>,     // the copies of the table
    clusters: seq<seq<Sector>>)   // the first is cluster 2

  function Flat<T>(xs: seq<seq<T>>): seq<T> {
    if xs == [] then [] else Flat(xs[..|xs| - 1]) + xs[|xs| - 1]
  }

  // All sectors, in their order on the card.
  function Laid(d: Disk): seq<Sector> {
    d.before + d.reserved + Flat(d.tables) + Flat(d.clusters)
  }

  function CardOf(d: Disk): Card {
    map k: nat | 0 <= k < |Laid(d)| :: Laid(d)[k]
  }

  predicate Even<T>(xs: seq<seq<T>>, n: nat) {
    forall i :: 0 <= i < |xs| ==> |xs[i]| == n
  }

  lemma {:induction false} FlatAt<T>(xs: seq<seq<T>>, n: nat, i: nat, j: nat)
    requires Even(xs, n) && i < |xs| && j < n
    ensures 0 <= n * i + j < |Flat(xs)| && Flat(xs)[n * i + j] == xs[i][j]
    decreases |xs|
  {
    FlatLength(xs[..|xs| - 1], n);
    FlatLength(xs, n);
    if i < |xs| - 1 {
      FlatAt(xs[..|xs| - 1], n, i, j);
    }
  }

  lemma {:induction false} FlatLength<T>(xs: seq<seq<T>>, n: nat)
    requires Even(xs, n)
    ensures |Flat(xs)| == n * |xs|
    decreases |xs|
  {
    if xs != [] {
      FlatLength(xs[..|xs| - 1], n);
      assert n * |xs| == n * (|xs| - 1) + n;
    }
  }

  // ---- a formatted card

  function PerCluster(d: Disk): nat { if d.clusters == [] then 0 else |d.clusters[0]| }

  function TableLength(d: Disk): nat { if d.tables == [] then 0 else |d.tables[0]| }

  // The fields of the boot sector say how the volume is laid out.
  predicate Fields(d: Disk)
    requires d.reserved != []
  {
    var b := d.reserved[0];
    && Le16(b, 11) == SECTOR_SIZE && b[13] == PerCluster(d) && Le16(b, 14) == |d.reserved|
    && b[16] == |d.tables| && Le32(b, 36) == TableLength(d)
  }

  function Root(d: Disk): nat
    requires d.reserved != []
  {
    Le32(d.reserved[0], 44)
  }

  // The sector cannot be taken for the boot sector of a FAT32 volume: some field of it is absurd.
  predicate NoBootSector(s: Sector) {
    || Le16(s, 11) != 512 || s[13] == 0 || Le16(s, 14) == 0 || s[16] == 0
    || Le32(s, 36) == 0 || Le32(s, 44) < 2
  }

  // The volume starts the card, or the card has a partition table that says where it starts.
  predicate Marked(d: Disk)
    requires d.reserved != []
  {
    if d.before == [] then Root(d) >= 2
    else
      var m := d.before[0];
      && NoBootSector(m) && m[510] == 0x55 && m[511] == 0xAA && m[0x1BE + 4] != 0
      && Le32(m, 0x1BE + 8) == |d.before|
  }

  // The word of the table for cluster c.
  function Link32(d: Disk, c: nat): nat
    requires d.tables != [] && 4 * c + 4 <= |Flat<Byte>(d.tables[0])|
  {
    Le32(Flat<Byte>(d.tables[0]), 4 * c) % 0x1000_0000
  }

  predicate Formatted(d: Disk) {
    && d.reserved != [] && d.tables != [] && d.clusters != [] && d.tables[0] != [] && d.clusters[0] != []
    && Even(d.tables, TableLength(d)) && Even(d.clusters, PerCluster(d))
    && Fields(d) && Marked(d)
    && |Laid(d)| < 0x1_0000_0000 && |d.clusters| + 2 <= END_OF_CHAIN && |d.clusters| + 2 <= 128 * TableLength(d)
  }

  predicate IsCluster(d: Disk, c: nat) { 2 <= c < |d.clusters| + 2 }

  // ---- where things are

  function TableStart(d: Disk): nat { |d.before| + |d.reserved| }

  function DataStart(d: Disk): nat { TableStart(d) + |Flat(d.tables)| }

  function VolumeOf(d: Disk): Volume {
    Volume(CardOf(d), TableStart(d), DataStart(d), PerCluster(d))
  }

  lemma BootSectorAt(d: Disk)
    requires d.reserved != []
    ensures |d.before| in CardOf(d) && CardOf(d)[|d.before|] == d.reserved[0]
    ensures d.before != [] ==> 0 in CardOf(d) && CardOf(d)[0] == d.before[0]
  {
    hide Flat;
    assert Laid(d)[|d.before|] == d.reserved[0];
    assert d.before != [] ==> Laid(d)[0] == d.before[0];
  }

  lemma TableSectorAt(d: Disk, k: nat)
    requires Formatted(d) && k < TableLength(d)
    ensures TableStart(d) + k < 0x1_0000_0000 && TableStart(d) + k in CardOf(d) && CardOf(d)[TableStart(d) + k] == d.tables[0][k]
  {
    hide Flat;
    hide Fields;
    hide Marked;
    FlatAt(d.tables, TableLength(d), 0, k);
  }

  lemma ClusterSectorAt(d: Disk, c: nat, s: nat)
    requires Formatted(d) && IsCluster(d, c) && s < PerCluster(d)
    ensures var k := PerCluster(d) * (c - 2) + s;
            && 0 <= k && DataStart(d) + k < 0x1_0000_0000
            && DataStart(d) + k in CardOf(d) && CardOf(d)[DataStart(d) + k] == d.clusters[c - 2][s]
  {
    hide Flat;
    hide Fields;
    hide Marked;
    FlatAt(d.clusters, PerCluster(d), c - 2, s);
  }

  // ---- the loader's view of it

  lemma Starts(d: Disk)
    requires Formatted(d)
    ensures 0 in CardOf(d) && PartitionStart(CardOf(d)[0]) == |d.before|
  {
    hide CardOf;
    hide Le16;
    hide Le32;
    hide Flat;
    hide Even;
    BootSectorAt(d);
    TableLengthFits(d);
  }

  lemma TableLengthFits(d: Disk)
    requires Formatted(d)
    ensures |Flat(d.tables)| == TableLength(d) * |d.tables| < 0x1_0000_0000 && TableLength(d) > 0
    ensures PerCluster(d) > 0 && d.reserved != []
  {
    FlatLength(d.tables, TableLength(d));
    hide Flat;
  }

  // The loader recognises the volume and finds the table and the data area where they are.
  lemma MountsAny(d: Disk)
    requires Formatted(d)
    ensures Mount(CardOf(d)) == Mounted(VolumeOf(d), Root(d))
  {
    hide CardOf;
    hide PartitionStart;
    hide Le16;
    hide Le32;
    hide Flat;
    hide Even;
    hide Marked;
    BootSectorAt(d);
    Starts(d);
    TableLengthFits(d);
    FieldsSay(d);
    hide Formatted;
    hide Fields;
  }

  lemma FieldsSay(d: Disk)
    requires Formatted(d)
    ensures d.reserved != [] && TableStart(d) < 0x1_0000_0000 && DataStart(d) < 0x1_0000_0000
    ensures var b := d.reserved[0];
            && Le16(b, 11) == SECTOR_SIZE && b[13] == PerCluster(d) && Le16(b, 14) == |d.reserved|
            && b[16] == |d.tables| && Le32(b, 36) == TableLength(d)
  {
    hide Flat;
    hide Le16;
    hide Le32;
  }

  // Sector s of cluster c is read from where it was laid.
  lemma ClusterRead(d: Disk, c: nat, s: nat)
    requires Formatted(d) && IsCluster(d, c) && s < PerCluster(d)
    ensures var v := VolumeOf(d);
            && SectorOf(v, c, s) in v.card && v.card[SectorOf(v, c, s)] == d.clusters[c - 2][s]
  {
    hide CardOf;
    hide Flat;
    hide Formatted;
    ClusterSectorAt(d, c, s);
    ClusterSectorAt(d, c, 0);
    SectorComputed(VolumeOf(d), c, s, PerCluster(d) * (c - 2));
  }

  lemma SectorComputed(v: Volume, c: nat, s: nat, k: nat)
    requires c >= 2 && k == v.perCluster * (c - 2) && v.dataLba + k + s < 0x1_0000_0000
    ensures SectorOf(v, c, s) == v.dataLba + k + s
  {
    assert (c - 2) * v.perCluster == k;
  }

  lemma TableRead(d: Disk, c: nat)
    requires Formatted(d) && IsCluster(d, c)
    ensures 4 * c + 4 <= |Flat<Byte>(d.tables[0])|
    ensures Next(VolumeOf(d), c) == AsLink(Link32(d, c))
  {
    hide Flat;
    hide CardOf;
    hide Le32;
    var k, o := c / 128, 4 * c % 512;
    WordOfTable(d.tables[0], c);
    TableSectorAt(d, k);
    assert TableSector(VolumeOf(d), c) == TableStart(d) + k;
  }

  // Four bytes of the table are four bytes of one of its sectors.
  lemma WordOfTable(t: seq<Sector>, c: nat)
    requires c < 128 * |t| && 4 * c < 0x1_0000_0000
    ensures 4 * c + 4 <= |Flat<Byte>(t)| && Word(c * 4) / 512 == c / 128 < |t|
    ensures Word(c * 4) % 512 + 4 <= 512 && Le32(Flat<Byte>(t), 4 * c) == Le32(t[c / 128], Word(c * 4) % 512)
  {
    var k, o := c / 128, 4 * (c % 128);
    assert Word(c * 4) == 4 * c == 512 * k + o;
    FlatLength<Byte>(t, 512);
    var a, b := Flat<Byte>(t)[4 * c..4 * c + 4], t[k][o..o + 4];
    forall i | 0 <= i < 4 ensures a[i] == b[i] {
      FlatAt<Byte>(t, 512, k, o + i);
      assert 512 * k + (o + i) == 4 * c + i;
    }
    SameWord(Flat<Byte>(t), t[k], 4 * c, o);
  }

  lemma SameWord(a: seq<Byte>, b: seq<Byte>, i: nat, j: nat)
    requires i + 4 <= |a| && j + 4 <= |b| && a[i..i + 4] == b[j..j + 4]
    ensures Le32(a, i) == Le32(b, j)
  {
    var s, t := a[i..i + 4], b[j..j + 4];
    assert s[0] == t[0] && s[1] == t[1] && s[2] == t[2] && s[3] == t[3];
  }

  // ---- chains of clusters

  // Clusters of the volume, each of which the table says follows the one before.
  predicate IsPath(d: Disk, path: seq<nat>)
    requires Formatted(d)
  {
    path != [] && forall i :: 0 <= i < |path| ==> IsCluster(d, path[i]) && (i + 1 < |path| ==> Linked(d, path[i], path[i + 1]))
  }

  predicate Linked(d: Disk, c: nat, next: nat)
    requires Formatted(d)
  {
    4 * c + 4 <= |Flat<Byte>(d.tables[0])| && Link32(d, c) == next
  }

  // Their sectors, one cluster after the other, and the bytes of these.
  function SectorsOf(d: Disk, path: seq<nat>): seq<Sector>
    requires Formatted(d) && IsPath(d, path)
  {
    Flat(ClustersOf(d, path))
  }

  function ClustersOf(d: Disk, path: seq<nat>): (r: seq<seq<Sector>>)
    requires Formatted(d) && IsPath(d, path)
    ensures |r| == |path| && Even(r, PerCluster(d))
  {
    seq(|path|, i requires 0 <= i < |path| => d.clusters[path[i] - 2])
  }

  function ContentOf(d: Disk, path: seq<nat>): seq<Byte>
    requires Formatted(d) && IsPath(d, path)
  {
    Flat<Byte>(SectorsOf(d, path))
  }

  lemma {:induction false} ChainIsPath(d: Disk, path: seq<nat>, i: nat)
    requires Formatted(d) && IsPath(d, path) && i < |path|
    ensures Chain(VolumeOf(d), path[0], i) == At(path[i])
    decreases i
  {
    hide Formatted;
    hide Next;
    if i > 0 {
      ChainIsPath(d, path, i - 1);
      NextOnPath(d, path, i - 1);
    } else {
      FirstOnPath(d, path);
    }
  }

  lemma NextOnPath(d: Disk, path: seq<nat>, i: nat)
    requires Formatted(d) && IsPath(d, path) && i + 1 < |path|
    ensures Next(VolumeOf(d), path[i]) == At(path[i + 1])
  {
    hide Next;
    TableRead(d, path[i]);
    assert Linked(d, path[i], path[i + 1]) && IsCluster(d, path[i + 1]);
  }

  lemma FirstOnPath(d: Disk, path: seq<nat>)
    requires Formatted(d) && IsPath(d, path)
    ensures AsLink(path[0]) == At(path[0]) && PerCluster(d) > 0
  {
    assert IsCluster(d, path[0]);
    hide Flat;
  }

  // Sector k of a chain is where the loader looks for it, and is there.
  lemma SectorRead(d: Disk, path: seq<nat>, k: nat)
    requires Formatted(d) && IsPath(d, path) && PerCluster(d) > 0 && k < PerCluster(d) * |path|
    ensures HasSector(VolumeOf(d), path[0], k)
    ensures k < |SectorsOf(d, path)| && FileSector(VolumeOf(d), path[0], k) == SectorsOf(d, path)[k]
  {
    hide Formatted;
    hide Chain;
    hide SectorOf;
    hide Flat;
    hide CardOf;
    var n := PerCluster(d);
    var i, s := k / n, k % n;
    assert k == n * i + s;
    BelowProduct(n, |path|, i, s);
    ChainIsPath(d, path, i);
    assert IsCluster(d, path[i]);
    ClusterRead(d, path[i], s);
    SectorListed(d, path, i, s);
  }

  lemma SectorListed(d: Disk, path: seq<nat>, i: nat, s: nat)
    requires Formatted(d) && IsPath(d, path) && i < |path| && s < PerCluster(d)
    ensures 0 <= PerCluster(d) * i + s < |SectorsOf(d, path)| && IsCluster(d, path[i])
    ensures SectorsOf(d, path)[PerCluster(d) * i + s] == d.clusters[path[i] - 2][s]
  {
    hide Formatted;
    FlatAt(ClustersOf(d, path), PerCluster(d), i, s);
  }

  lemma BelowProduct(n: nat, m: nat, i: nat, s: nat)
    requires n * i + s < n * m && n > 0
    ensures i < m
  {
    if m < i {
      Steps(n, m, i);
    }
  }

  // The loader takes every byte of a chain from its place.
  lemma ContentRead(d: Disk, path: seq<nat>, boot: seq<Byte>)
    requires Formatted(d) && IsPath(d, path) && PerCluster(d) > 0 && boot <= ContentOf(d, path)
    ensures Contains(VolumeOf(d), path[0], boot)
  {
    hide Formatted;
    hide HasSector;
    hide FileSector;
    hide Flat;
    var v, c := VolumeOf(d), path[0];
    FlatLength(ClustersOf(d, path), PerCluster(d));
    FlatLength<Byte>(SectorsOf(d, path), 512);
    forall k | 0 <= k < SectorsFor(|boot|) ensures HasSector(v, c, k) {
      SectorRead(d, path, k);
    }
    forall i | 0 <= i < |boot| ensures FileByte(v, c, i) == boot[i] {
      SectorRead(d, path, i / SECTOR_SIZE);
      FlatAt<Byte>(SectorsOf(d, path), 512, i / SECTOR_SIZE, i % SECTOR_SIZE);
      assert 512 * (i / SECTOR_SIZE) + i % SECTOR_SIZE == i;
    }
  }

  // ---- the directory

  predicate ListsNothing(s: Sector) {
    forall j :: 0 <= j < SECTOR_SIZE / ENTRY_SIZE ==> !IsBootFile(s, j * ENTRY_SIZE)
  }

  // The first of these directory sectors that names the boot file is number k, with this entry.
  predicate Listing(s: seq<Sector>, k: nat, e: Entry) {
    && k < |s| && e.start != 0 && ScanSector(s[k], 0) == Hit(e)
    && forall i :: 0 <= i < k ==> ListsNothing(s[i])
  }

  // The search goes through the root directory's chain and finds that entry.
  lemma FoundAny(d: Disk, path: seq<nat>, k: nat, e: Entry, steps: nat)
    requires Formatted(d) && IsPath(d, path) && PerCluster(d) > 0 && Listing(SectorsOf(d, path), k, e)
    requires k / PerCluster(d) < steps
    ensures SearchFrom(VolumeOf(d), path[0], steps) == FatVolume.Found(e)
  {
    hide *;
    FoundAt(d, path, k, e, steps, k / PerCluster(d), k % PerCluster(d));
  }

  lemma FoundAt(d: Disk, path: seq<nat>, k: nat, e: Entry, steps: nat, q: nat, r: nat)
    requires Formatted(d) && IsPath(d, path) && Listing(SectorsOf(d, path), k, e)
    requires k == PerCluster(d) * q + r && r < PerCluster(d) && q < steps
    ensures SearchFrom(VolumeOf(d), path[0], steps) == FatVolume.Found(e)
  {
    hide Formatted;
    hide Listing;
    hide SearchFrom;
    hide Chain;
    hide UnlistedUpTo;
    hide Lists;
    hide CardOf;
    hide SectorsOf;
    var v, n := VolumeOf(d), PerCluster(d);
    ListedPlace(d, path, k, e, q, r);
    forall i | 0 <= i < q ensures UnlistedUpTo(v, Chain(v, path[0], i), v.perCluster) {
      Steps(n, i, q);
      UnlistedCluster(d, path, k, e, i, n);
    }
    UnlistedCluster(d, path, k, e, q, r);
    FirstListedFound(v, path[0], q, r, e, steps);
  }

  lemma ListedPlace(d: Disk, path: seq<nat>, k: nat, e: Entry, i: nat, s: nat)
    requires Formatted(d) && IsPath(d, path) && Listing(SectorsOf(d, path), k, e)
    requires k == PerCluster(d) * i + s && s < PerCluster(d)
    ensures i < |path| && e.start != 0
    ensures Chain(VolumeOf(d), path[0], i) == At(path[i]) && Lists(VolumeOf(d), path[i], s, e)
  {
    hide Formatted;
    hide Chain;
    hide SectorOf;
    hide Flat;
    hide CardOf;
    FlatLength(ClustersOf(d, path), PerCluster(d));
    BelowProduct(PerCluster(d), |path|, i, s);
    ChainIsPath(d, path, i);
    assert IsCluster(d, path[i]);
    ClusterRead(d, path[i], s);
    SectorListed(d, path, i, s);
  }

  // The first m sectors of the i-th cluster, all before the listing one, list nothing.
  lemma UnlistedCluster(d: Disk, path: seq<nat>, k: nat, e: Entry, i: nat, m: nat)
    requires Formatted(d) && IsPath(d, path) && PerCluster(d) > 0 && Listing(SectorsOf(d, path), k, e)
    requires i < |path| && m <= PerCluster(d) && PerCluster(d) * i + m <= k
    ensures UnlistedUpTo(VolumeOf(d), Chain(VolumeOf(d), path[0], i), m)
  {
    hide Formatted;
    hide Chain;
    hide SectorOf;
    hide Flat;
    hide CardOf;
    var v, n := VolumeOf(d), PerCluster(d);
    ChainIsPath(d, path, i);
    assert IsCluster(d, path[i]);
    forall s | 0 <= s < m ensures Unlisted(v, path[i], s) {
      ClusterRead(d, path[i], s);
      SectorListed(d, path, i, s);
      assert ListsNothing(SectorsOf(d, path)[n * i + s]);
    }
  }

  // ---- the whole loader

  // The card holds a volume whose root directory, along the chain `root`, lists the boot file
  // first in sector k, and whose chain `file` starts with the bytes of that file.
  ghost predicate Bears(d: Disk, root: seq<nat>, k: nat, file: seq<nat>, boot: seq<Byte>) {
    && Formatted(d) && IsPath(d, root) && root[0] == Root(d) && IsPath(d, file)
    && |boot| < 0x1_0000_0000 && boot <= ContentOf(d, file)
    && Listing(SectorsOf(d, root), k, Entry(file[0], |boot|))
  }

  // Whatever else is on the card and wherever the clusters lie: the loader comes to the file,
  // boots it exactly if it is a boot image, and then leaves its payload in memory.
  lemma LoadsAny(d: Disk, root: seq<nat>, k: nat, file: seq<nat>, boot: seq<Byte>, dst: nat)
    requires Bears(d, root, k, file, boot)
    ensures var v, e := VolumeOf(d), Entry(file[0], |boot|);
            && Mount(CardOf(d)) == Mounted(v, Root(d)) && v.perCluster > 0
            && (forall steps :: k / v.perCluster < steps ==> SearchFrom(v, Root(d), steps) == FatVolume.Found(e))
            && (Bootable(v, e, dst) <==> IsBootImage(boot, dst))
            && (forall m :: |boot| >= HEADER_SIZE ==>
                 (Holds(m, v, e.start, dst, |boot|) <==> m == Placed(dst, boot[HEADER_SIZE..])))
  {
    hide Flat;
    hide CardOf;
    hide Listing;
    hide SearchFrom;
    hide Bootable;
    hide Holds;
    hide Contains;
    hide Placed;
    hide Mount;
    hide Formatted;
    TableLengthFits(d);
    MountsAny(d);
    ContentRead(d, file, boot);
    ContentDecides(VolumeOf(d), file[0], boot, dst);
    forall steps | k / PerCluster(d) < steps
      ensures SearchFrom(VolumeOf(d), Root(d), steps) == FatVolume.Found(Entry(file[0], |boot|))
    {
      FoundAny(d, root, k, Entry(file[0], |boot|), steps);
    }
  }

  // fatboot_load on such a card.
  method LoadFrom(d: Disk, ghost root: seq<nat>, ghost k: nat, ghost file: seq<nat>, ghost boot: seq<Byte>, dst: nat, steps: nat)
      returns (ended: bool, code: int, memory: map<nat, Byte>, size: nat)
    requires Bears(d, root, k, file, boot) && PerCluster(d) > 0 && k / PerCluster(d) < steps
    ensures ended && (code == 0 <==> IsBootImage(boot, dst))
    ensures code == 0 ==> memory == Placed(dst, boot[HEADER_SIZE..]) && size == |boot| - HEADER_SIZE
  {
    LoadsAny(d, root, k, file, boot, dst);
    hide *;
    var loader := new FatLoader(CardOf(d));
    ended, code := loader.Load(dst, steps);
    memory, size := loader.memory, loader.sizeOut;
  }
}

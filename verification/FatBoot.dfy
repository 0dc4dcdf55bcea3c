// The FAT32 boot loader: fatboot_load with its loops over the sector buffer.
module FatBoot {

  import opened Bytes
  import opened BootImage
  import opened FatVolume

  predicate Spans(dst: nat, n: nat, a: nat) { dst <= a < dst + n }

  // The bytes of s, written to memory from dst on.
  function Placed(dst: nat, s: seq<Byte>): map<nat, Byte> {
    map a: nat | dst <= a < dst + |s| && Spans(dst, |s|, a) :: s[a - dst]
  }

  // What memory holds after that.
  function Written(m: map<nat, Byte>, dst: nat, s: seq<Byte>): map<nat, Byte> { m + Placed(dst, s) }

  lemma WrittenAt(m: map<nat, Byte>, dst: nat, s: seq<Byte>)
    ensures var w := Written(m, dst, s);
            && (forall a :: a in w <==> a in m || Spans(dst, |s|, a))
            && (forall a <- w :: w[a] == if Spans(dst, |s|, a) then s[a - dst] else m[a])
  {
  }

  lemma PlaceNone(m: map<nat, Byte>, dst: nat, s: seq<Byte>)
    requires s == []
    ensures Written(m, dst, s) == m
  {
  }

  lemma PlaceOne(m: map<nat, Byte>, dst: nat, s: seq<Byte>, b: Byte)
    ensures Written(m, dst, s + [b]) == Written(m, dst, s)[dst + |s| := b]
  {
  }

  // ---- what loading a file comes to

  // The file is long enough, its first sector can be read, the header in it is good and declares
  // the size the file has.
  predicate HeaderGood(v: Volume, e: Entry, dst: nat)
    requires v.perCluster > 0 && e.size < 0x1_0000_0000
  {
    && e.size >= HEADER_SIZE && HasSector(v, e.start, 0)
    && var parsed := ParseHeader(FileSector(v, e.start, 0), dst);
       && parsed.Parsed?
       && ValidFileSize(e.size, parsed.text, parsed.data)
  }

  predicate Bootable(v: Volume, e: Entry, dst: nat)
    requires v.perCluster > 0 && e.size < 0x1_0000_0000
  {
    HeaderGood(v, e, dst) && HasSectors(v, e.start, SectorsFor(e.size))
  }

  // Sector k is the first that cannot be had.
  predicate FirstMissing(v: Volume, c: nat, k: nat)
    requires v.perCluster > 0
  {
    HasSectors(v, c, k) && !HasSector(v, c, k)
  }

  // What the error codes stand for.
  ghost predicate Explained(v: Volume, e: Entry, dst: nat, code: int)
    requires v.perCluster > 0 && e.size < 0x1_0000_0000
  {
    if code == 0 then Bootable(v, e, dst)
    else if code == -5 then
      e.size < HEADER_SIZE || (HasSector(v, e.start, 0) && !ParseHeader(FileSector(v, e.start, 0), dst).Parsed?)
    else if code == -6 then
      e.size >= HEADER_SIZE && HasSector(v, e.start, 0) && !HeaderGood(v, e, dst) &&
      ParseHeader(FileSector(v, e.start, 0), dst).Parsed?
    else
      e.size >= HEADER_SIZE &&
      exists k :: 0 <= k < SectorsFor(e.size) && FirstMissing(v, e.start, k) && (k > 0 ==> HeaderGood(v, e, dst)) &&
                  code == if Locate(v, e.start, k) == Nowhere(false) then -4 else -1
  }

  // The code is determined by the card: success is reported exactly for a bootable file, and no
  // two codes fit the same card.
  lemma OneCode(v: Volume, e: Entry, dst: nat, code: int, other: int)
    requires v.perCluster > 0 && e.size < 0x1_0000_0000
    requires Explained(v, e, dst, code) && Explained(v, e, dst, other)
    ensures code == other
  {
    hide HasSector;
    hide FileSector;
    hide Locate;
    hide ParseHeader;
    assert SectorsFor(e.size) > 0 || e.size < HEADER_SIZE;
    if code !in {0, -5, -6} {
      var k :| 0 <= k < SectorsFor(e.size) && FirstMissing(v, e.start, k) && (k > 0 ==> HeaderGood(v, e, dst)) &&
               code == if Locate(v, e.start, k) == Nowhere(false) then -4 else -1;
      assert k > 0 ==> HasSector(v, e.start, 0);
    }
    if other !in {0, -5, -6} {
      var k :| 0 <= k < SectorsFor(e.size) && FirstMissing(v, e.start, k) && (k > 0 ==> HeaderGood(v, e, dst)) &&
               other == if Locate(v, e.start, k) == Nowhere(false) then -4 else -1;
      assert k > 0 ==> HasSector(v, e.start, 0);
    }
  }

  // Memory holds the first n bytes of the file, without the header, from dst on, and nothing else
  // has been written.
  ghost predicate Holds(memory: map<nat, Byte>, v: Volume, c: nat, dst: nat, n: nat)
    requires v.perCluster > 0
  {
    && (forall a :: a in memory <==> dst <= a < dst + n - HEADER_SIZE)
    && (forall a <- memory :: memory[a] == FileByte(v, c, HEADER_SIZE + a - dst))
  }

  // The end of the k-th sector of a file of this size, or of the file.
  function Taken(size: nat, k: nat): nat {
    if k * SECTOR_SIZE < size then k * SECTOR_SIZE else size
  }

  lemma SectorBytes(v: Volume, c: nat, k: nat)
    requires v.perCluster > 0 && HasSector(v, c, k)
    ensures forall j :: 0 <= j < SECTOR_SIZE ==> FileByte(v, c, k * SECTOR_SIZE + j) == FileSector(v, c, k)[j]
  {
    forall j | 0 <= j < SECTOR_SIZE ensures FileByte(v, c, k * SECTOR_SIZE + j) == FileSector(v, c, k)[j] {
      ByteOfSector(v, c, k, j);
    }
  }

  // Bytes skip to n of a piece of the file that starts at `start`.
  lemma HoldsAppend(m: map<nat, Byte>, v: Volume, c: nat, dst: nat, start: nat, skip: nat, n: nat, sector: Sector)
    requires v.perCluster > 0 && skip <= n <= SECTOR_SIZE
    requires if start == 0 then m == map[] && skip == HEADER_SIZE
             else Holds(m, v, c, dst, start) && skip == 0 && start >= HEADER_SIZE
    requires forall j :: skip <= j < n ==> sector[j] == FileByte(v, c, start + j)
    ensures Holds(Written(m, dst + start + skip - HEADER_SIZE, sector[skip..n]), v, c, dst, start + n)
  {
    hide FileByte;
    hide Written;
    var out, piece := dst + start + skip - HEADER_SIZE, sector[skip..n];
    WrittenAt(m, out, piece);
    var after := Written(m, out, piece);
    forall a <- after ensures after[a] == FileByte(v, c, HEADER_SIZE + a - dst) {
      if Spans(out, |piece|, a) {
        var j := skip + (a - out);
        assert after[a] == piece[a - out] == sector[j];
        assert HEADER_SIZE + a - dst == start + j;
      }
    }
    forall a: nat | dst <= a < dst + (start + n) - HEADER_SIZE ensures a in after {
      assert a in m || Spans(out, |piece|, a);
    }
  }

  // ---- a file whose bytes are known

  // The file is a boot image for this address, and nothing more.
  predicate IsBootImage(boot: seq<Byte>, dst: nat) {
    HasImage(boot, dst) && |boot| == ImageSize(boot, dst)
  }

  // All of boot is there, from cluster c on.
  ghost predicate Contains(v: Volume, c: nat, boot: seq<Byte>)
    requires v.perCluster > 0
  {
    HasSectors(v, c, SectorsFor(|boot|)) && forall i :: 0 <= i < |boot| ==> FileByte(v, c, i) == boot[i]
  }

  // The loader's conditions hold of such a file exactly if it is a boot image, and what memory
  // then holds is its payload.
  lemma ContentDecides(v: Volume, c: nat, boot: seq<Byte>, dst: nat)
    requires v.perCluster > 0 && |boot| < 0x1_0000_0000 && Contains(v, c, boot)
    ensures Bootable(v, Entry(c, |boot|), dst) <==> IsBootImage(boot, dst)
    ensures forall m :: |boot| >= HEADER_SIZE ==>
              (Holds(m, v, c, dst, |boot|) <==> m == Placed(dst, boot[HEADER_SIZE..]))
  {
    BootableExactly(v, c, boot, dst);
    forall m | |boot| >= HEADER_SIZE
      ensures Holds(m, v, c, dst, |boot|) <==> m == Placed(dst, boot[HEADER_SIZE..])
    {
      HeldExactly(m, v, c, boot, dst);
    }
  }

  lemma BootableExactly(v: Volume, c: nat, boot: seq<Byte>, dst: nat)
    requires v.perCluster > 0 && |boot| < 0x1_0000_0000 && Contains(v, c, boot)
    ensures Bootable(v, Entry(c, |boot|), dst) <==> IsBootImage(boot, dst)
  {
    hide HasSector;
    hide FileSector;
    if |boot| >= HEADER_SIZE {
      HeaderIn(v, c, boot, dst);
      var p := ParseHeader(boot, dst);
      if p.Parsed? {
        ValidFileSizeExact(|boot|, p.text, p.data);
      }
    }
  }

  lemma HeaderIn(v: Volume, c: nat, boot: seq<Byte>, dst: nat)
    requires v.perCluster > 0 && |boot| >= HEADER_SIZE && Contains(v, c, boot)
    ensures HasSector(v, c, 0) && ParseHeader(FileSector(v, c, 0), dst) == ParseHeader(boot, dst)
  {
    hide HasSector;
    hide FileSector;
    hide FileByte;
    assert HasSector(v, c, 0);
    SectorBytes(v, c, 0);
    var first := FileSector(v, c, 0);
    forall j | 0 <= j < HEADER_SIZE ensures first[j] == boot[j] {
      assert FileByte(v, c, 0 * SECTOR_SIZE + j) == first[j];
    }
    SameHeader(first, boot[..HEADER_SIZE], dst);
    PrefixHeader(boot, dst);
  }

  lemma PrefixHeader(boot: seq<Byte>, dst: nat)
    requires |boot| >= HEADER_SIZE
    ensures ParseHeader(boot[..HEADER_SIZE], dst) == ParseHeader(boot, dst)
  {
  }

  lemma HeldExactly(m: map<nat, Byte>, v: Volume, c: nat, boot: seq<Byte>, dst: nat)
    requires v.perCluster > 0 && |boot| >= HEADER_SIZE
    requires forall i :: 0 <= i < |boot| ==> FileByte(v, c, i) == boot[i]
    ensures Holds(m, v, c, dst, |boot|) <==> m == Placed(dst, boot[HEADER_SIZE..])
  {
    hide FileByte;
    var p := Placed(dst, boot[HEADER_SIZE..]);
    assert forall a <- p :: p[a] == boot[HEADER_SIZE + a - dst];
    if Holds(m, v, c, dst, |boot|) {
      forall a <- m ensures a in p && m[a] == p[a] {
        assert Spans(dst, |boot| - HEADER_SIZE, a);
      }
      forall a <- p ensures a in m {
      }
    }
  }

  lemma SectorPlaced(v: Volume, c: nat, k: nat)
    requires v.perCluster > 0 && Locate(v, c, k).Place?
    ensures HasSector(v, c, k) <==> Locate(v, c, k).lba in v.card
    ensures HasSector(v, c, k) ==> FileSector(v, c, k) == v.card[Locate(v, c, k).lba]
  {
    hide Locate;
  }

  // The first sector that cannot be had explains the code.
  lemma MissingExplained(v: Volume, e: Entry, dst: nat, k: nat, code: int)
    requires v.perCluster > 0 && HEADER_SIZE <= e.size < 0x1_0000_0000 && k < SectorsFor(e.size)
    requires FirstMissing(v, e.start, k) && (k > 0 ==> HeaderGood(v, e, dst))
    requires code == if Locate(v, e.start, k) == Nowhere(false) then -4 else -1
    ensures Explained(v, e, dst, code)
  {
    hide FirstMissing;
    hide Locate;
    hide HeaderGood;
  }

  lemma SameHeader(s: Sector, h: seq<Byte>, dst: nat)
    requires |h| == HEADER_SIZE && forall i :: 0 <= i < HEADER_SIZE ==> h[i] == s[i]
    ensures ParseHeader(h, dst) == ParseHeader(s, dst)
  {
  }

  lemma NoRoomForOne(size: nat, k: nat)
    ensures k * SECTOR_SIZE < size <==> k < SectorsFor(size)
    ensures Taken(size, k + 1) - Taken(size, k) == if size - Taken(size, k) < SECTOR_SIZE then size - Taken(size, k) else SECTOR_SIZE
  {
  }

  class FatLoader {
    const card: Card
    const sector: array<Byte>
    var memory: map<nat, Byte>
    var payloadOut: nat
    var fileOff: nat
    var remaining: nat
    var textSize: nat
    var dataSize: nat
    var sizeOut: nat

    constructor (card: Card)
      ensures this.card == card && sector.Length == SECTOR_SIZE && fresh(sector) && memory == map[]
    {
      this.card := card;
      sector := new Byte[SECTOR_SIZE](_ => 0);
      memory, payloadOut, fileOff, remaining, textSize, dataSize, sizeOut := map[], 0, 0, 0, 0, 0, 0;
    }

    method ReadBlock(lba: nat) returns (ok: bool)
      requires sector.Length == SECTOR_SIZE
      modifies sector
      ensures ok <==> lba in card
      ensures ok ==> sector[..] == card[lba]
    {
      ok := lba in card;
      if ok {
        var s := card[lba];
        for i := 0 to SECTOR_SIZE
          invariant forall j :: 0 <= j < i ==> sector[j] == s[j]
        {
          sector[i] := s[i];
        }
      }
    }

    // copy_payload: words first, then the bytes that are left.
    method CopyPayload(dst: nat, src: seq<Byte>) returns (end: nat)
      modifies this`memory
      ensures memory == Written(old(memory), dst, src)
      ensures end == dst + |src|
    {
      var count, from: nat := |src|, 0;
      end := dst;
      PlaceNone(memory, dst, src[..0]);
      hide Written;
      while count >= 4
        invariant count == |src| - from && from <= |src| && end == dst + from
        invariant memory == Written(old(memory), dst, src[..from])
      {
        for k := 0 to 4
          invariant memory == Written(old(memory), dst, src[..from + k])
        {
          CopyByte(src, from + k, end + k, old(memory), dst);
        }
        from, end, count := from + 4, end + 4, count - 4;
      }
      while count > 0
        invariant count == |src| - from && from <= |src| && end == dst + from
        invariant memory == Written(old(memory), dst, src[..from])
      {
        CopyByte(src, from, end, old(memory), dst);
        from, end, count := from + 1, end + 1, count - 1;
      }
      assert src[..from] == src;
    }

    method CopyByte(src: seq<Byte>, from: nat, to: nat, ghost before: map<nat, Byte>, ghost dst: nat)
      requires from < |src| && to == dst + from
      requires memory == Written(before, dst, src[..from])
      modifies this`memory
      ensures memory == Written(before, dst, src[..from + 1])
    {
      PlaceOne(before, dst, src[..from], src[from]);
      assert src[..from + 1] == src[..from] + [src[from]];
      hide Written;
      memory := memory[to := src[from]];
    }

    method MatchEntry(off: nat) returns (listed: bool)
      requires sector.Length == SECTOR_SIZE && off + ENTRY_SIZE <= SECTOR_SIZE
      ensures listed <==> IsBootFile(sector[..], off)
    {
      if sector[off] == 0 {
        return false;
      }
      if sector[off] == 0xE5 || sector[off + 11] == 0x0F {
        return false;
      }
      return NameMatch(sector[..], off);
    }

    // The loop over the entries of a directory sector.
    method ScanEntries() returns (hit: Hit)
      requires sector.Length == SECTOR_SIZE
      ensures hit == ScanSector(sector[..], 0)
    {
      hide IsBootFile;
      hide EntryAt;
      var off := 0;
      var s: Sector := sector[..];
      while off < SECTOR_SIZE
        invariant off <= SECTOR_SIZE && off % ENTRY_SIZE == 0
        invariant ScanSector(s, 0) == ScanSector(s, off / ENTRY_SIZE)
      {
        assert off / ENTRY_SIZE * ENTRY_SIZE == off;
        var listed := MatchEntry(off);
        if listed {
          return Hit(EntryAt(s, off));
        }
        off := off + ENTRY_SIZE;
      }
      return Miss;
    }

    // The table's entry for a cluster.
    method FollowTable(v: Volume, cluster: nat) returns (ok: bool, next: nat)
      requires sector.Length == SECTOR_SIZE && v.card == card
      modifies sector
      ensures ok <==> TableSector(v, cluster) in card
      ensures ok ==> next == TableEntry(card[TableSector(v, cluster)], cluster)
    {
      var fatSector := Word(v.fatLba + Word(cluster * 4) / 512);
      ok := ReadBlock(fatSector);
      next := 0;
      if ok {
        TableOffset(cluster);
        var fatOff := Word(cluster * 4) % 512;
        next := Le32(sector[..], fatOff) % 0x1000_0000;
      }
    }

    // The sectors of one directory cluster: the inner loop of the search.
    method SearchCluster(v: Volume, cluster: nat) returns (found: Search)
      requires sector.Length == SECTOR_SIZE && v.card == card
      modifies sector
      ensures found == ScanCluster(v, cluster, 0, false)
    {
      hide ScanSector;
      var first := FirstSector(v, cluster);
      var s, passed := 0, false;
      while s < v.perCluster
        invariant s <= v.perCluster
        invariant ScanCluster(v, cluster, 0, false) == ScanCluster(v, cluster, s, passed)
      {
        assert SectorOf(v, cluster, s) == Word(first + s);
        var ok := ReadBlock(Word(first + s));
        if !ok {
          return Failed;
        }
        var hit := ScanEntries();
        if hit.Hit? {
          if hit.entry.start != 0 {
            return Found(hit.entry);
          }
          passed := true;
        }
        s := s + 1;
      }
      return Nothing(passed);
    }

    // The loop over the clusters of the root directory, for at most `steps` of them.
    method SearchRoot(v: Volume, root: nat, steps: nat) returns (found: Search)
      requires sector.Length == SECTOR_SIZE && v.card == card
      modifies sector
      ensures found == SearchFrom(v, root, steps)
    {
      hide ScanCluster;
      hide TableEntry;
      hide TableSector;
      var cluster: nat, left: nat := root, steps;
      while cluster < END_OF_CHAIN && left > 0
        invariant SearchFrom(v, root, steps) == SearchFrom(v, cluster, left)
        decreases left
      {
        found := SearchCluster(v, cluster);
        if !found.Nothing? {
          return;
        }
        var ok, next := FollowTable(v, if found.passed then LAST_CLUSTER else cluster);
        if !ok {
          return Failed;
        }
        cluster, left := next, left - 1;
      }
      return if cluster < END_OF_CHAIN then OutOfSteps else Nothing(false);
    }

    // k sectors of the file have been taken.
    ghost predicate Loading(v: Volume, e: Entry, dst: nat, k: nat)
      requires v.perCluster > 0 && e.size < 0x1_0000_0000
      reads this
    {
      && sector.Length == SECTOR_SIZE && v.card == card && e.size >= HEADER_SIZE
      && fileOff == Taken(e.size, k) && remaining == e.size - fileOff
      && HasSectors(v, e.start, k)
      && (k == 0 ==> memory == map[] && payloadOut == dst)
      && (k > 0 ==> HeaderGood(v, e, dst) && textSize + dataSize == e.size - HEADER_SIZE
                    && dst + e.size - HEADER_SIZE <= LOAD_LIMIT
                    && payloadOut == dst + fileOff - HEADER_SIZE && Holds(memory, v, e.start, dst, fileOff))
    }

    // Nothing outside the window of the payload has been written.
    ghost predicate Within(e: Entry, dst: nat)
      reads this
    {
      forall a <- memory :: dst <= a < LOAD_LIMIT && a < dst + e.size - HEADER_SIZE
    }

    lemma StaysWithin(v: Volume, e: Entry, dst: nat, k: nat)
      requires v.perCluster > 0 && e.size < 0x1_0000_0000 && Loading(v, e, dst, k)
      ensures Within(e, dst)
    {
      hide HeaderGood;
      hide HasSectors;
      hide FileByte;
    }

    // The header in the first sector.
    method TakeHeader(v: Volume, e: Entry, dst: nat) returns (code: int)
      requires v.perCluster > 0 && HEADER_SIZE <= e.size < 0x1_0000_0000 && sector.Length == SECTOR_SIZE
      requires HasSector(v, e.start, 0) && sector[..] == FileSector(v, e.start, 0)
      modifies this`textSize, this`dataSize
      ensures code == 0 || code == -5 || code == -6
      ensures code == 0 <==> HeaderGood(v, e, dst)
      ensures code == 0 ==> textSize + dataSize == e.size - HEADER_SIZE && dst + e.size - HEADER_SIZE <= LOAD_LIMIT
      ensures code == -5 <==> !ParseHeader(FileSector(v, e.start, 0), dst).Parsed?
    {
      hide HasSector;
      hide FileSector;
      var header := new Byte[HEADER_SIZE](_ => 0);
      for i := 0 to HEADER_SIZE
        invariant forall j :: 0 <= j < i ==> header[j] == sector[j]
      {
        header[i] := sector[i];
      }
      SameHeader(sector[..], header[..], dst);
      var parsed := ParseHeader(header[..], dst);
      if !parsed.Parsed? {
        return -5;
      }
      textSize, dataSize := parsed.text, parsed.data;
      if !ValidFileSize(e.size, textSize, dataSize) {
        return -6;
      }
      return 0;
    }

    // The body of the inner loop, once sector k is in the buffer.
    method TakeSector(v: Volume, e: Entry, dst: nat, ghost k: nat) returns (code: int)
      requires v.perCluster > 0 && e.size < 0x1_0000_0000 && Loading(v, e, dst, k) && remaining > 0
      requires HasSector(v, e.start, k) && sector[..] == FileSector(v, e.start, k)
      modifies this
      ensures code == 0 ==> Loading(v, e, dst, k + 1)
      ensures code != 0 ==> k == 0 && code < 0 && Explained(v, e, dst, code) && memory == map[]
      ensures remaining <= old(remaining) && (code == 0 ==> remaining < old(remaining))
    {
      hide HasSector;
      hide FileSector;
      hide ParseHeader;
      hide ValidFileSize;
      hide FileByte;
      hide Holds;
      NoRoomForOne(e.size, k);
      var skip := 0;
      if fileOff == 0 {
        code := TakeHeader(v, e, dst);
        if code != 0 {
          return;
        }
        skip := HEADER_SIZE;
      }
      CopyOut(v, e, dst, k, skip);
      code := 0;
    }

    // The rest of that body: sector k goes to memory, the first one without the header.
    method CopyOut(v: Volume, e: Entry, dst: nat, ghost k: nat, skip: nat)
      requires v.perCluster > 0 && e.size < 0x1_0000_0000 && Loading(v, e, dst, k) && remaining > 0
      requires HasSector(v, e.start, k) && sector[..] == FileSector(v, e.start, k)
      requires HeaderGood(v, e, dst) && skip == if k == 0 then HEADER_SIZE else 0
      requires textSize + dataSize == e.size - HEADER_SIZE && dst + e.size - HEADER_SIZE <= LOAD_LIMIT
      modifies this`memory, this`payloadOut, this`fileOff, this`remaining
      ensures Loading(v, e, dst, k + 1)
      ensures remaining < old(remaining)
    {
      hide HasSector;
      hide FileSector;
      hide HeaderGood;
      hide FileByte;
      NoRoomForOne(e.size, k);
      var n := if remaining < SECTOR_SIZE then remaining else SECTOR_SIZE;
      SectorBytes(v, e.start, k);
      HoldsAppend(memory, v, e.start, dst, k * SECTOR_SIZE, skip, n, sector[..]);
      hide Written;
      hide Holds;
      payloadOut := CopyPayload(payloadOut, sector[..][skip..n]);
      fileOff := fileOff + n;
      remaining := remaining - n;
    }

    // One cluster of the file: the inner loop.  i clusters have been taken.
    method TakeCluster(v: Volume, e: Entry, dst: nat, cluster: nat, ghost i: nat) returns (code: int)
      requires v.perCluster > 0 && e.size < 0x1_0000_0000 && Chain(v, e.start, i) == At(cluster)
      requires Loading(v, e, dst, Base(v, i)) && remaining > 0
      modifies this, sector
      ensures code == 0 ==> remaining < old(remaining)
      ensures code == 0 && remaining > 0 ==> Loading(v, e, dst, Base(v, i + 1))
      ensures code == 0 && remaining == 0 ==> exists k :: Loading(v, e, dst, k)
      ensures code != 0 ==> Explained(v, e, dst, code) && code < 0 && Within(e, dst)
    {
      hide Explained;
      BaseNext(v, i);
      hide Base;
      hide Chain;
      hide FirstSector;
      hide Word;
      hide HeaderGood;
      hide Holds;
      hide HasSector;
      var first := FirstSector(v, cluster);
      var s := 0;
      ghost var k := Base(v, i);
      while s < v.perCluster && remaining > 0
        invariant s <= v.perCluster && k == Base(v, i) + s && Loading(v, e, dst, k)
        invariant remaining <= old(remaining) && (s > 0 ==> remaining < old(remaining))
      {
        assert SectorOf(v, cluster, s) == Word(first + s);
        PlaceInChain(v, e.start, i, s);
        SectorPlaced(v, e.start, k);
        var ok := ReadBlock(Word(first + s));
        NoRoomForOne(e.size, k);
        if !ok {
          MissingExplained(v, e, dst, k, -1);
          StaysWithin(v, e, dst, k);
          return -1;
        }
        code := TakeSector(v, e, dst, k);
        if code != 0 {
          return;
        }
        s, k := s + 1, k + 1;
      }
      code := 0;
    }

    // The loop over the clusters of the file.  It ends on every card, even where the chain runs
    // in a circle, and it succeeds exactly for a bootable file, whose payload memory then holds.
    method LoadFile(v: Volume, e: Entry, dst: nat) returns (code: int)
      requires v.perCluster > 0 && e.size < 0x1_0000_0000 && v.card == card && sector.Length == SECTOR_SIZE
      requires memory == map[]
      modifies this, sector
      ensures Explained(v, e, dst, code) && code <= 0
      ensures code == 0 <==> Bootable(v, e, dst)
      ensures code == 0 ==> Holds(memory, v, e.start, dst, e.size) && sizeOut == e.size - HEADER_SIZE
      ensures code == 0 ==> dst + e.size - HEADER_SIZE <= LOAD_LIMIT
      ensures Within(e, dst)
    {
      hide HasSector;
      hide FileByte;
      hide ParseHeader;
      hide ValidFileSize;
      if e.size < HEADER_SIZE {
        return -5;
      }
      BaseNext(v, 0);
      hide HeaderGood;
      hide Base;
      hide TableSector;
      hide TableEntry;
      hide Explained;
      hide Bootable;
      hide Holds;
      hide Locate;
      payloadOut, fileOff, textSize, dataSize, remaining := dst, 0, 0, 0, e.size;
      var cluster: nat := e.start;
      ghost var i: nat := 0;
      assert Loading(v, e, dst, 0);
      assert Chain(v, e.start, 0) == AsLink(cluster);
      while remaining > 0 && cluster < END_OF_CHAIN
        invariant if remaining > 0 then Loading(v, e, dst, Base(v, i)) && Chain(v, e.start, i) == AsLink(cluster)
                  else exists k :: Loading(v, e, dst, k)
        decreases remaining
      {
        code := TakeCluster(v, e, dst, cluster, i);
        if code != 0 {
          AnotherCode(v, e, dst, code);
          return;
        }
        if remaining > 0 {
          var ok, next := FollowTable(v, cluster);
          assert Chain(v, e.start, i + 1) == Next(v, cluster);
          i := i + 1;
          if !ok {
            StopAt(v, e, dst, i);
            return -1;
          }
          cluster := next;
        }
      }
      if remaining > 0 {
        StopAt(v, e, dst, i);
      } else {
        FileTaken(v, e, dst);
      }
      sizeOut := textSize + dataSize;
      return if remaining == 0 then 0 else -4;
    }

    lemma AnotherCode(v: Volume, e: Entry, dst: nat, code: int)
      requires v.perCluster > 0 && e.size < 0x1_0000_0000 && Explained(v, e, dst, code) && code != 0
      ensures !Bootable(v, e, dst)
    {
      if Bootable(v, e, dst) {
        OneCode(v, e, dst, code, 0);
        assert false;
      }
    }

    // The chain has ended, or cannot be followed, before the file was complete.
    lemma StopAt(v: Volume, e: Entry, dst: nat, i: nat)
      requires v.perCluster > 0 && e.size < 0x1_0000_0000 && Loading(v, e, dst, Base(v, i)) && remaining > 0
      requires !Chain(v, e.start, i).At?
      ensures Explained(v, e, dst, if Chain(v, e.start, i).Ended? then -4 else -1)
      ensures !Bootable(v, e, dst) && Within(e, dst)
    {
      var k := Base(v, i);
      PlaceBehind(v, e.start, i);
      NoRoomForOne(e.size, k);
      StaysWithin(v, e, dst, k);
      var code := if Chain(v, e.start, i).Ended? then -4 else -1;
      MissingExplained(v, e, dst, k, code);
      AnotherCode(v, e, dst, code);
    }

    lemma FileTaken(v: Volume, e: Entry, dst: nat)
      requires v.perCluster > 0 && e.size < 0x1_0000_0000 && remaining == 0
      requires exists k :: Loading(v, e, dst, k)
      ensures Bootable(v, e, dst) && Holds(memory, v, e.start, dst, e.size) && Within(e, dst)
      ensures textSize + dataSize == e.size - HEADER_SIZE && dst + e.size - HEADER_SIZE <= LOAD_LIMIT
    {
      var k :| Loading(v, e, dst, k);
      NoRoomForOne(e.size, k);
      StaysWithin(v, e, dst, k);
      hide HeaderGood;
      hide Holds;
      hide HasSector;
    }

    // The boot sector, of the card or of its first partition.
    method MountVolume() returns (m: Mounted)
      requires sector.Length == SECTOR_SIZE
      modifies sector
      ensures m == Mount(card) && (m.Mounted? ==> m.volume.card == card)
    {
      hide LooksLikeFat32;
      var ok := ReadBlock(0);
      if !ok {
        return NotMounted(-1);
      }
      var part := PartitionStart(sector[..]);
      ok := ReadBlock(part);
      if !ok {
        return NotMounted(-1);
      }
      var bytesPerSector, perCluster, reserved := Le16(sector[..], 11), sector[13], Le16(sector[..], 14);
      var fats, fatSize, root := sector[16], Le32(sector[..], 36), Le32(sector[..], 44);
      if bytesPerSector != SECTOR_SIZE {
        return NotMounted(-2);
      }
      var fatLba := Word(part + reserved);
      var dataLba := Word(fatLba + Word((fats as int) * fatSize));
      return Mounted(Volume(card, fatLba, dataLba, perCluster), root);
    }

    lemma SizeIsWord(v: Volume, e: Entry)
      requires exists d, s :: 0 <= s < v.perCluster && Lists(v, d, s, e)
      ensures v.perCluster > 0 && e.size < 0x1_0000_0000
    {
      var d, s :| 0 <= s < v.perCluster && Lists(v, d, s, e);
      ScanExact(v.card[SectorOf(v, d, s)], 0);
    }

    // fatboot_load.  The search of the root directory goes through at most `steps` clusters.
    method Load(dst: nat, steps: nat) returns (ended: bool, code: int)
      requires sector.Length == SECTOR_SIZE && memory == map[]
      modifies this, sector
      ensures var m := Mount(card);
              if m.NotMounted? then ended && code == m.code
              else
                var r := SearchFrom(m.volume, m.root, steps);
                && (ended <==> r != OutOfSteps)
                && (r == Failed ==> code == -1)
                && (r.Nothing? ==> code == -3)
                && (r.Found? ==>
                      && m.volume.perCluster > 0 && r.entry.size < 0x1_0000_0000
                      && Explained(m.volume, r.entry, dst, code)
                      && (code == 0 <==> Bootable(m.volume, r.entry, dst))
                      && (code == 0 ==> Holds(memory, m.volume, r.entry.start, dst, r.entry.size))
                      && (code == 0 ==> sizeOut == r.entry.size - HEADER_SIZE)
                      && Within(r.entry, dst))
                && (!r.Found? ==> memory == map[])
      ensures forall a <- memory :: dst <= a < LOAD_LIMIT
    {
      hide Mount;
      hide SearchFrom;
      hide Lists;
      hide Explained;
      hide Bootable;
      hide Holds;
      ended, code := true, -1;
      var mounted := MountVolume();
      if mounted.NotMounted? {
        return true, mounted.code;
      }
      var v := mounted.volume;
      var r := SearchRoot(v, mounted.root, steps);
      FoundIsListed(v, mounted.root, steps);
      match r
      case OutOfSteps =>
        ended := false;
      case Failed =>
      case Nothing(_) =>
        code := -3;
      case Found(e) =>
        SizeIsWord(v, e);
        code := LoadFile(v, e, dst);
    }
  }
}

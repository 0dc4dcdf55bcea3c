// make_sd_image.py: the sizes it accepts, the table it reckons with, and the volume it lays out
// for the simulator, byte by byte.
module SdImage {

  import opened Bytes
  import opened FatVolume

  const RESERVED := 32
  const ROOT := 2
  const FIRST := 3
  const LIMIT := 0x1_0000_0000

  // ---- the layout

  function Sectors(mib: nat): nat { mib * 2048 }

  // The size of the table that the program starts from.
  function TableSize(sectors: nat): (n: nat)
    requires sectors >= RESERVED
  {
    (sectors - RESERVED + 127) / 128
  }

  // A table of this size has an entry for every cluster that is left.
  predicate Suffices(sectors: nat, table: nat) {
    RESERVED + table + (table * 128 - 2) >= sectors
  }

  // The loop that sizes the table.  Its body is never run.
  method SizeTable(mib: nat) returns (table: nat)
    requires mib > 0
    ensures table == TableSize(Sectors(mib)) == 16 * mib
    ensures Suffices(Sectors(mib), table)
  {
    var sectors := Sectors(mib);
    table := (sectors - RESERVED + 127) / 128;
    ghost var rounds := 0;
    while RESERVED + table + (table * 128 - 2) < sectors
      invariant table == Enlarged(sectors, rounds)
      invariant rounds > 0 ==> !Suffices(sectors, Enlarged(sectors, rounds - 1))
      decreases Left(sectors, table)
    {
      table, rounds := table + 1, rounds + 1;
    }
    NeverEnlarged(mib, rounds);
  }

  // How often the table could still grow.
  ghost function Left(sectors: nat, table: nat): nat
    decreases sectors - table
  {
    if table >= sectors then 0 else 1 + Left(sectors, table + 1)
  }

  ghost function Enlarged(sectors: nat, rounds: nat): nat
    requires sectors >= RESERVED
  {
    if rounds == 0 then TableSize(sectors) else Enlarged(sectors, rounds - 1) + 1
  }

  lemma {:induction false} NeverEnlarged(mib: nat, rounds: nat)
    requires mib > 0
    ensures TableSize(Sectors(mib)) == 16 * mib && Enlarged(Sectors(mib), rounds) == 16 * mib + rounds
    ensures Suffices(Sectors(mib), Enlarged(Sectors(mib), rounds))
  {
    if rounds > 0 {
      NeverEnlarged(mib, rounds - 1);
    }
  }

  // The table is meant to be the smallest that will do.  It is exactly for up to 6 MiB.
  lemma SmallestExactly(mib: nat)
    requires mib > 0
    ensures (forall t :: 0 <= t < TableSize(Sectors(mib)) ==> !Suffices(Sectors(mib), t)) <==> mib <= 6
  {
    var n := TableSize(Sectors(mib));
    assert n == 16 * mib;
    assert mib > 6 ==> Suffices(Sectors(mib), n - 1);
  }

  // At the default size of 16 MiB, 254 sectors would do where 256 are used.
  lemma DefaultNotSmallest()
    ensures TableSize(Sectors(16)) == 256 && Suffices(Sectors(16), 254)
  {
  }

  function DataStart(mib: nat): nat
    requires mib > 0
  {
    RESERVED + TableSize(Sectors(mib))
  }

  function Clusters(boot: seq<Byte>): nat { (|boot| + SECTOR_SIZE - 1) / SECTOR_SIZE }

  // The program makes an image of this file in this size.
  predicate Accepts(boot: seq<Byte>, mib: int) {
    mib > 0 && Sectors(mib) < LIMIT && |boot| < LIMIT && DataStart(mib) + 1 + Clusters(boot) <= Sectors(mib)
  }

  // The other test of the program, for the length of the table, can then not fail.
  lemma TableLongEnough(boot: seq<Byte>, mib: nat)
    requires mib > 0 && DataStart(mib) + 1 + Clusters(boot) <= Sectors(mib)
    ensures FIRST + Clusters(boot) <= TableSize(Sectors(mib)) * 512 / 4
  {
  }

  // ---- what is at each byte of the image

  function BootSectorByte(sectors: nat, table: nat, j: nat): Byte
    requires j < SECTOR_SIZE && sectors < LIMIT && table < LIMIT
  {
    if j < 3 then JUMP[j]
    else if j < 11 then SYSTEM_NAME[j - 3]
    else if j < 13 then ToLe16(SECTOR_SIZE)[j - 11]
    else if j == 13 then 1
    else if j < 16 then ToLe16(RESERVED)[j - 14]
    else if j == 16 then 1
    else if j == 21 then 0xF8
    else if 32 <= j < 36 then ToLe32(sectors)[j - 32]
    else if 36 <= j < 40 then ToLe32(table)[j - 36]
    else if 44 <= j < 48 then ToLe32(ROOT)[j - 44]
    else if j == 510 then 0x55
    else if j == 511 then 0xAA
    else 0
  }

  const JUMP: seq<Byte> := [0xEB, 0x58, 0x90]
  const SYSTEM_NAME: seq<Byte> := [77, 83, 68, 79, 83, 53, 46, 48]

  // Entry e of the table, with the first `filled` of the n clusters of the file entered.
  function TableValue(n: nat, filled: nat, e: nat): nat {
    if e == 0 then 0x0FFF_FFF8
    else if e == 1 || e == ROOT then LAST_CLUSTER
    else if FIRST <= e < FIRST + filled then (if e - FIRST == n - 1 then LAST_CLUSTER else e + 1)
    else 0
  }

  function TableByte(n: nat, filled: nat, o: nat): Byte
    requires FIRST + filled < LIMIT
  {
    ToLe32(TableValue(n, filled, o / 4))[o % 4]
  }

  function RootByte(size: nat, o: nat): Byte
    requires o < SECTOR_SIZE && size < LIMIT
  {
    if o < 11 then NAME[o]
    else if o == 11 then 0x20
    else if 20 <= o < 22 then ToLe16(FIRST / 0x1_0000)[o - 20]
    else if 26 <= o < 28 then ToLe16(FIRST % 0x1_0000)[o - 26]
    else if 28 <= o < 32 then ToLe32(size)[o - 28]
    else 0
  }

  function ImageByte(boot: seq<Byte>, mib: nat, j: nat): Byte
    requires Accepts(boot, mib)
  {
    var table := RESERVED * SECTOR_SIZE;
    var root := DataStart(mib) * SECTOR_SIZE;
    var file := root + SECTOR_SIZE;
    if j < SECTOR_SIZE then BootSectorByte(Sectors(mib), TableSize(Sectors(mib)), j)
    else if j < table then 0
    else if j < root then TableByte(Clusters(boot), Clusters(boot), j - table)
    else if j < file then RootByte(|boot|, j - root)
    else if j < file + |boot| then boot[j - file]
    else 0
  }

  ghost predicate IsImage(s: seq<Byte>, boot: seq<Byte>, mib: nat)
    requires Accepts(boot, mib)
  {
    |s| == Sectors(mib) * SECTOR_SIZE && forall j :: 0 <= j < |s| ==> s[j] == ImageByte(boot, mib, j)
  }

  // ---- the program

  // Assignment of bytes to a slice.
  method Put(img: array<Byte>, at: nat, bytes: seq<Byte>)
    requires at + |bytes| <= img.Length
    modifies img
    ensures forall j :: 0 <= j < img.Length ==> img[j] == if at <= j < at + |bytes| then bytes[j - at] else old(img[j])
  {
    for i := 0 to |bytes|
      invariant forall j :: 0 <= j < img.Length ==> img[j] == if at <= j < at + i then bytes[j - at] else old(img[j])
    {
      img[at + i] := bytes[i];
    }
  }

  method WriteBootSector(img: array<Byte>, sectors: nat, table: nat)
    requires img.Length >= SECTOR_SIZE && sectors < LIMIT && table < LIMIT
    requires forall j :: 0 <= j < SECTOR_SIZE ==> img[j] == 0
    modifies img
    ensures forall j :: 0 <= j < SECTOR_SIZE ==> img[j] == BootSectorByte(sectors, table, j)
    ensures forall j :: SECTOR_SIZE <= j < img.Length ==> img[j] == old(img[j])
  {
    Put(img, 0, JUMP);
    Put(img, 3, SYSTEM_NAME);
    Put(img, 11, ToLe16(SECTOR_SIZE));
    img[13] := 1;
    Put(img, 14, ToLe16(RESERVED));
    img[16] := 1;
    img[21] := 0xF8;
    Put(img, 32, ToLe32(sectors));
    Put(img, 36, ToLe32(table));
    Put(img, 44, ToLe32(ROOT));
    img[510], img[511] := 0x55, 0xAA;
  }

  method WriteRoot(img: array<Byte>, at: nat, size: nat)
    requires at + SECTOR_SIZE <= img.Length && size < LIMIT
    requires forall j :: at <= j < at + SECTOR_SIZE ==> img[j] == 0
    modifies img
    ensures forall j :: 0 <= j < img.Length ==> img[j] == if at <= j < at + SECTOR_SIZE then RootByte(size, j - at) else old(img[j])
  {
    Put(img, at, NAME);
    img[at + 11] := 0x20;
    Put(img, at + 20, ToLe16(FIRST / 0x1_0000));
    Put(img, at + 26, ToLe16(FIRST % 0x1_0000));
    Put(img, at + 28, ToLe32(size));
  }

  // The bytes of the table from `at` to `end`, of which the first `filled` file entries are done.
  ghost predicate TableDone(img: array<Byte>, at: nat, end: nat, n: nat, filled: nat)
    requires at <= end <= img.Length && FIRST + filled < LIMIT
    reads img
  {
    forall j :: at <= j < end ==> img[j] == TableByte(n, filled, j - at)
  }

  // The three entries in front of the file's.
  method WriteReserved(img: array<Byte>, at: nat, end: nat, n: nat)
    requires at + 12 <= end <= img.Length
    requires forall j :: at <= j < end ==> img[j] == 0
    modifies img
    ensures TableDone(img, at, end, n, 0)
    ensures forall j :: 0 <= j < img.Length && !(at <= j < end) ==> img[j] == old(img[j])
  {
    Put(img, at, [0xF8, 0xFF, 0xFF, 0x0F]);
    Put(img, at + 4, [0xFF, 0xFF, 0xFF, 0x0F]);
    Put(img, at + 4 * ROOT, [0xFF, 0xFF, 0xFF, 0x0F]);
    assert ToLe32(0x0FFF_FFF8) == [0xF8, 0xFF, 0xFF, 0x0F] && ToLe32(LAST_CLUSTER) == [0xFF, 0xFF, 0xFF, 0x0F];
    assert ToLe32(0) == [0, 0, 0, 0];
  }

  // The loop over the clusters of the file.
  method FillTable(img: array<Byte>, at: nat, end: nat, n: nat)
    requires at + 4 * (FIRST + n) <= end <= img.Length && FIRST + n < LIMIT
    requires TableDone(img, at, end, n, 0)
    modifies img
    ensures TableDone(img, at, end, n, n)
    ensures forall j :: 0 <= j < img.Length && !(at <= j < end) ==> img[j] == old(img[j])
  {
    for i := 0 to n
      invariant TableDone(img, at, end, n, i)
      invariant forall j :: 0 <= j < img.Length && !(at <= j < end) ==> img[j] == old(img[j])
    {
      var cl := FIRST + i;
      var nxt := if i == n - 1 then LAST_CLUSTER else cl + 1;
      ghost var before := img[..];
      Put(img, at + cl * 4, ToLe32(nxt));
      forall j | at <= j < end ensures img[j] == TableByte(n, i + 1, j - at) {
        EntryFilled(n, i, j - at);
        assert before[j] == TableByte(n, i, j - at);
      }
    }
  }

  lemma EntryFilled(n: nat, i: nat, o: nat)
    requires i < n && FIRST + n < LIMIT
    ensures var cl := FIRST + i;
            TableByte(n, i + 1, o) ==
            if cl * 4 <= o < cl * 4 + 4 then ToLe32(if i == n - 1 then LAST_CLUSTER else cl + 1)[o - cl * 4] else TableByte(n, i, o)
  {
  }

  // The whole program, up to writing the image out.
  method MakeImage(boot: seq<Byte>, mib: int) returns (ok: bool, img: array<Byte>)
    ensures ok <==> Accepts(boot, mib)
    ensures ok ==> IsImage(img[..], boot, mib)
    ensures fresh(img)
  {
    hide BootSectorByte;
    hide TableByte;
    hide RootByte;
    ok := false;
    if mib <= 0 {
      img := new Byte[0];
      return;
    }
    var sectors := Sectors(mib);
    img := new Byte[sectors * SECTOR_SIZE](_ => 0);
    var table := SizeTable(mib);
    var data := RESERVED + table;
    if sectors >= LIMIT {
      return;
    }
    WriteBootSector(img, sectors, table);
    var at, root := RESERVED * SECTOR_SIZE, data * SECTOR_SIZE;
    var clusters := (|boot| + 511) / 512;
    WriteReserved(img, at, root, clusters);
    if FIRST + clusters > table * SECTOR_SIZE / 4 {
      return;
    }
    if data + (FIRST - 2) + clusters > sectors {
      return;
    }
    FillTable(img, at, root, clusters);
    if |boot| >= LIMIT {
      return;
    }
    WriteRoot(img, root, |boot|);
    Put(img, root + SECTOR_SIZE, boot);
    ok := true;
  }
}

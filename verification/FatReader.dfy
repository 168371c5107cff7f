/**
 * A reader's view of a freshly formatted card, found from the boot sector alone: allocation tables,
 * FSInfo, backups and root directory (Microsoft FAT32 File System Specification v1.03, "FAT Data
 * Structure" and "FAT32 FSInfo Sector Structure and Backup Boot Sector").
 */
module FatReader {
  import opened Bits
  import opened Fat32

  // ---- Allocation tables ------------------------------------------------------------------

  /** Byte position of the entry of cluster k in table i. */
  function EntryAt(g: Geometry, i: nat, k: nat): nat {
    TableStart(g, i) * g.sectorBytes + 4 * k
  }

  predicate Readable(image: seq<byte>, g: Geometry, i: nat, k: nat) {
    EntryAt(g, i, k) + 4 <= |image|
  }

  /** The low 28 bits of an entry; the top four are reserved. */
  function Entry(image: seq<byte>, g: Geometry, i: nat, k: nat): nat
    requires Readable(image, g, i, k)
  {
    U32At(image, EntryAt(g, i, k)) % 0x1000_0000
  }

  predicate EndOfChain(entry: nat) {
    entry >= 0x0FFF_FFF8
  }

  lemma HeadBytes()
    ensures TableHead() == [0xF8, 0xFF, 0xFF, 0x0F, 0xFF, 0xFF, 0xFF, 0xFF, 0xFF, 0xFF, 0xFF, 0x0F]
  {
  }

  /** Byte j of table i: the head, and then zeros. */
  lemma TableBytes(total: nat, l: Layout, i: nat, j: nat)
    requires Fits(total, l) && l.fatSectors >= 1 && i < 2 && j < l.fatSectors * SECTOR
    ensures var at := (RESERVED + i * l.fatSectors) * SECTOR + j;
            at < |Image(total, l)| && Image(total, l)[at] == if j < 12 then TableHead()[j] else 0
  {
    hide Front, TableHead;
    var size := l.fatSectors * SECTOR;
    assert (RESERVED + i * l.fatSectors) * SECTOR + j == RESERVED * SECTOR + i * size + j;
    var front := Front(total, l);
    var one := front + TableHead() + Zeros(size - 12);
    assert Image(total, l) == one + (TableHead() + Zeros(size - 12 + l.clusters * SECTOR));
    if i == 0 {
      assert Image(total, l)[RESERVED * SECTOR + j] == one[RESERVED * SECTOR + j];
    } else {
      assert |one| == RESERVED * SECTOR + size;
    }
  }

  lemma FourBytes(s: seq<byte>, at: nat, b0: byte, b1: byte, b2: byte, b3: byte)
    requires at + 4 <= |s| && s[at] == b0 && s[at + 1] == b1 && s[at + 2] == b2 && s[at + 3] == b3
    ensures U32At(s, at) == b0 + 0x100 * b1 as int + 0x1_0000 * (b2 + 0x100 * b3 as int)
  {
  }

  /** The geometry that the boot sector of a formatted card gives. */
  lemma GeometryOf(total: nat, l: Layout)
    requires Fits(total, l) && total <= U32_MAX
    ensures Decode(SectorAt(Image(total, l), 0)) == Geometry(512, 1, 32, 2, 0, total, l.fatSectors, 2)
  {
    hide Image, BootSector, Decode;
    ImageSectors(total, l);
    BootDecodes(total, l.fatSectors);
  }

  lemma EntryValue(total: nat, l: Layout, i: nat, k: nat)
    requires Fits(total, l) && total <= U32_MAX && i < 2 && k < l.clusters + 2
    ensures var image := Image(total, l);
            var g := Decode(SectorAt(image, 0));
            && Readable(image, g, i, k)
            && Entry(image, g, i, k) ==
               if k == 0 then 0x0FFF_FFF8 else if k < 3 then 0x0FFF_FFFF else 0
  {
    hide Image, Decode, TableHead, U32At;
    GeometryOf(total, l);
    HeadBytes();
    var image := Image(total, l);
    var at := (RESERVED + i * l.fatSectors) * SECTOR + 4 * k;
    assert 4 * k + 4 <= l.fatSectors * SECTOR;
    TableBytes(total, l, i, 4 * k);
    TableBytes(total, l, i, 4 * k + 1);
    TableBytes(total, l, i, 4 * k + 2);
    TableBytes(total, l, i, 4 * k + 3);
    FourBytes(image, at, image[at], image[at + 1], image[at + 2], image[at + 3]);
  }

  /** What the specification asks of the entry of cluster k: by the root directory, the media byte, and freedom. */
  predicate EntryInOrder(entry: nat, k: nat, root: nat, media: nat) {
    && (k == root ==> EndOfChain(entry))
    && (k == 0 ==> entry == 0x0FFF_FF00 + media)
    && (k == 1 ==> EndOfChain(entry))
    && (k >= 2 && k != root ==> entry == 0)
  }

  /**
   * In both tables the root directory's cluster is an end of chain, entry 0 carries the media byte
   * of the boot sector, entry 1 is an end mark, and every other cluster of the volume is free.
   */
  lemma TablesRead(total: nat, l: Layout, i: nat, k: nat)
    requires Fits(total, l) && total <= U32_MAX && i < 2 && k < l.clusters + 2
    ensures var image := Image(total, l);
            var boot := SectorAt(image, 0);
            var g := Decode(boot);
            && g.tables == 2 && Readable(image, g, i, k)
            && EntryInOrder(Entry(image, g, i, k), k, g.rootCluster, boot[21])
  {
    hide Image, Decode, Entry, Readable, BootSector, SectorAt;
    GeometryOf(total, l);
    EntryValue(total, l, i, k);
    ImageSectors(total, l);
    MediaByte(total, l.fatSectors);
  }

  lemma MediaByte(total: nat, fatSectors: nat)
    ensures BootSector(total, fatSectors)[21] == 0xF8
  {
    hide Sizes, Extended;
  }

  // ---- Free clusters ----------------------------------------------------------------------

  /** How many of the clusters from 2 up to n are free, by table i. */
  function FreeBelow(image: seq<byte>, g: Geometry, i: nat, n: nat): nat
    requires forall k :: 2 <= k < n ==> Readable(image, g, i, k)
  {
    if n <= 2 then 0 else FreeBelow(image, g, i, n - 1) + if Entry(image, g, i, n - 1) == 0 then 1 else 0
  }

  lemma {:induction false} FreeClusters(total: nat, l: Layout, i: nat, n: nat)
    requires Fits(total, l) && total <= U32_MAX && i < 2 && n <= l.clusters + 2
    ensures var image := Image(total, l);
            var g := Decode(SectorAt(image, 0));
            && (forall k :: 2 <= k < n ==> Readable(image, g, i, k))
            && FreeBelow(image, g, i, n) == if n <= 3 then 0 else n - 3
  {
    hide Image, Decode, Entry, Readable;
    if n > 2 {
      FreeClusters(total, l, i, n - 1);
      EntryValue(total, l, i, n - 1);
    }
  }

  // ---- FSInfo and the backups -------------------------------------------------------------

  lemma InfoFields(clusters: nat)
    requires 1 <= clusters <= U32_MAX
    ensures var s := FsInfo(clusters);
            && U32At(s, 0) == 0x4161_5252 && U32At(s, 484) == 0x6141_7272 && U32At(s, 508) == 0xAA55_0000
            && U32At(s, 488) == clusters - 1 && U32At(s, 492) == 3
  {
    hide Le32, U32At;
    var s := FsInfo(clusters);
    assert s[0..4] == Le32(0x4161_5252) && s[484..488] == Le32(0x6141_7272);
    assert s[488..492] == Le32(clusters - 1) && s[492..496] == Le32(3) && s[508..512] == Le32(0xAA55_0000);
    U32Of(s, 0, 0x4161_5252);
    U32Of(s, 484, 0x6141_7272);
    U32Of(s, 488, clusters - 1);
    U32Of(s, 492, 3);
    U32Of(s, 508, 0xAA55_0000);
  }

  lemma PointersOf(total: nat, fatSectors: nat)
    requires total <= U32_MAX && fatSectors <= U32_MAX
    ensures var b := BootSector(total, fatSectors); U16At(b, 48) == 1 && U16At(b, 50) == 6
  {
    hide Bpb, Extended, Le16, Le32, U16At;
    var b, s := BootSector(total, fatSectors), Sizes(total, fatSectors);
    assert b[32..52] == s;
    assert s[16..18] == Le16(1) && s[18..20] == Le16(6);
    assert b[48..50] == b[32..52][16..18] && b[50..52] == b[32..52][18..20];
    U16Of(b, 48, 1);
    U16Of(b, 50, 6);
  }

  /**
   * FSInfo lies where the boot sector says, signed three times; it gives exactly the number of free
   * entries in either table and the first free one. The backup boot sector lies where the boot
   * sector says, equal to the first, with FSInfo's copy behind it.
   */
  lemma InfoRead(total: nat, l: Layout, i: nat)
    requires Fits(total, l) && total <= U32_MAX && l.clusters >= MIN_CLUSTERS && i < 2
    ensures var image := Image(total, l);
            var boot := SectorAt(image, 0);
            var g, at, backup := Decode(boot), U16At(boot, 48), U16At(boot, 50);
            && at < g.reserved && backup + at < g.reserved && backup != 0
            && var info := SectorAt(image, at);
            && U32At(info, 0) == 0x4161_5252 && U32At(info, 484) == 0x6141_7272 && U32At(info, 508) == 0xAA55_0000
            && (forall k :: 2 <= k < l.clusters + 2 ==> Readable(image, g, i, k))
            && U32At(info, 488) == FreeBelow(image, g, i, l.clusters + 2)
            && var first := U32At(info, 492);
            && 2 <= first < l.clusters + 2 && FreeBelow(image, g, i, first) == 0 && Entry(image, g, i, first) == 0
            && SectorAt(image, backup) == boot && SectorAt(image, backup + at) == info
  {
    hide Image, Decode, Entry, Readable, BootSector, FsInfo, U32At, U16At, SectorAt;
    GeometryOf(total, l);
    ImageSectors(total, l);
    PointersOf(total, l.fatSectors);
    InfoFields(l.clusters);
    FreeClusters(total, l, i, l.clusters + 2);
    FreeClusters(total, l, i, 3);
    EntryValue(total, l, i, 3);
  }

  // ---- The root directory -----------------------------------------------------------------

  /** Byte j of data cluster k is there and zero. */
  predicate BlankAt(image: seq<byte>, g: Geometry, k: nat, j: nat)
    requires k >= 2
  {
    var at := ClusterSector(g, k) * g.sectorBytes + j;
    at < |image| && image[at] == 0
  }

  /** The root directory is one cluster of zeros: its first entry already says that there are no more. */
  lemma RootIsEmpty(total: nat, l: Layout, j: nat)
    requires Fits(total, l) && total <= U32_MAX && l.clusters >= MIN_CLUSTERS && j < SECTOR
    ensures var image := Image(total, l);
            var g := Decode(SectorAt(image, 0));
            g.rootCluster >= 2 && BlankAt(image, g, g.rootCluster, j)
  {
    hide Front, TableHead, Decode, SectorAt;
    GeometryOf(total, l);
    var size := l.fatSectors * SECTOR;
    var most := Front(total, l) + TableHead() + Zeros(size - 12) + TableHead();
    assert Image(total, l) == most + Zeros(size - 12 + l.clusters * SECTOR);
    assert (RESERVED + 2 * l.fatSectors) * SECTOR + j >= |most|;
  }

  /** A byte string that spells a text. */
  predicate Spells(bytes: seq<byte>, text: string) {
    |bytes| == |text| && forall i :: 0 <= i < |bytes| ==> bytes[i] as char == text[i]
  }

  lemma Names()
    ensures Spells(OEM, "MSWIN4.1") && Spells(LABEL, "PICOCALC   ") && Spells(FSTYPE, "FAT32   ")
  {
  }

  /** The boot sector opens with a jump and carries its geometry, its serial number, and the volume's names. */
  lemma BootIsNamed(total: nat, fatSectors: nat)
    ensures var b := BootSector(total, fatSectors);
            && b[..3] == [0xEB, 0x58, 0x90] && Spells(b[3..11], "MSWIN4.1")
            && b[17..32] == [0, 0, 0, 0, 0xF8, 0, 0, 63, 0, 255, 0, 0, 0, 0, 0]
            && b[64] == 0x80 && b[66] == 0x29 && b[67..71] == [0x78, 0x56, 0x34, 0x12]
            && Spells(b[71..82], "PICOCALC   ") && Spells(b[82..90], "FAT32   ")
  {
    hide Bpb, Sizes, Extended, Le32, Spells;
    Names();
    SerialBytes();
    var b := BootSector(total, fatSectors);
    HeadExtended(b, Bpb() + Sizes(total, fatSectors));
    assert b == Bpb() + (Sizes(total, fatSectors) + Extended() + Zeros(420) + [0x55, 0xAA]);
    BpbFields(b, Sizes(total, fatSectors) + Extended() + Zeros(420) + [0x55, 0xAA]);
  }

  /** The drive number, the signature of the extended fields, the serial number, the label and the type. */
  lemma HeadExtended(b: seq<byte>, head: seq<byte>)
    requires |head| == 52 && b == head + Extended() + Zeros(420) + [0x55, 0xAA]
    ensures b[64] == 0x80 && b[66] == 0x29 && b[67..71] == Le32(0x1234_5678)
    ensures b[71..82] == LABEL && b[82..90] == FSTYPE
  {
    hide Le32;
    var e := Extended();
    assert b[52..90] == e;
    assert e[12] == 0x80 && e[14] == 0x29 && e[15..19] == Le32(0x1234_5678);
    assert e[19..30] == LABEL && e[30..38] == FSTYPE;
    assert b[64] == b[52..90][12] && b[66] == b[52..90][14] && b[67..71] == b[52..90][15..19];
    assert b[71..82] == b[52..90][19..30] && b[82..90] == b[52..90][30..38];
  }

  lemma SerialBytes()
    ensures Le32(0x1234_5678) == [0x78, 0x56, 0x34, 0x12]
  {
  }

  /** Bytes 17 to 32: no fixed root directory and no 16-bit sizes; 63 sectors a track, 255 heads, nothing hidden. */
  lemma BpbFields(b: seq<byte>, rest: seq<byte>)
    requires b == Bpb() + rest
    ensures b[..3] == [0xEB, 0x58, 0x90] && b[3..11] == OEM
    ensures b[17..32] == [0, 0, 0, 0, 0xF8, 0, 0, 63, 0, 255, 0, 0, 0, 0, 0]
  {
    var h := Bpb();
    assert h[17..32] == [0, 0, 0, 0, 0xF8, 0, 0, 63, 0, 255, 0, 0, 0, 0, 0] by {
      assert h[17..19] == Le16(0);
    }
    assert b[17..32] == h[17..32];
  }
}

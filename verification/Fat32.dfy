/**
 * The FAT32 formatter: table sizing by iteration, the sectors written in place, and
 * the geometry a reader decodes from them (Microsoft FAT32 File System Specification
 * v1.03, "Boot Sector and BPB Structure" and "FAT Type Determination").
 */
module Fat32 {
  import opened Bits

  const SECTOR: nat := 512
  const RESERVED: nat := 32
  const MIN_CLUSTERS: nat := 65_525
  const U32_MAX: nat := 0xFFFF_FFFF

  datatype Layout = Layout(fatSectors: nat, clusters: nat)

  /** Table sectors needed for so many clusters and the two reserved entries. */
  function Required(clusters: nat): nat {
    ((clusters + 2) * 4 + 511) / SECTOR
  }

  /** They hold the four bytes of every entry, and one sector fewer would not. */
  lemma RequiredIsLeast(clusters: nat)
    ensures (Required(clusters) - 1) * 512 < 4 * (clusters + 2) <= Required(clusters) * 512
  {
  }

  // ----- sizing --------------------------------------------------------------------

  /** What the sizing loop must deliver: tables that fit the clusters left over beside them. */
  predicate Fits(total: nat, l: Layout) {
    && RESERVED + 2 * l.fatSectors + l.clusters == total
    && l.clusters >= 1 && Required(l.clusters) <= l.fatSectors
  }

  /** Grow the table until it covers the clusters that remain; two passes always do. */
  method SizeTables(total: nat) returns (r: Option<Layout>, ghost passes: nat)
    ensures passes <= 2
    ensures r.Some? ==> Fits(total, r.value)
    ensures r.Some? ==> total > 34 && r.value.fatSectors == var n := Required(total - 34); if n > 1 then n else 1
    ensures r.None? ==> forall l: Layout :: !Fits(total, l)
  {
    var fatSectors := 1;
    passes := 0;
    while true
      invariant passes <= 1 && 1 <= fatSectors
      invariant passes == 0 ==> fatSectors == 1
      invariant passes == 1 ==> total > 34 && fatSectors == Required(total - 34) > 1
      decreases 2 - passes
    {
      passes := passes + 1;
      var overhead := RESERVED + 2 * fatSectors;
      if total <= overhead {
        forall l: Layout ensures !Fits(total, l) { NothingFits(total, fatSectors, l); }
        return None, passes;
      }
      var clusters := total - overhead;
      var required := Required(clusters);
      if required <= fatSectors {
        return Some(Layout(fatSectors, clusters)), passes;
      }
      fatSectors := required;
    }
  }

  /** When even the first estimate leaves no room for data, no table size does. */
  lemma NothingFits(total: nat, fatSectors: nat, l: Layout)
    requires total <= RESERVED + 2 * fatSectors
    requires fatSectors == 1 || (total > 34 && fatSectors == Required(total - 34))
    ensures !Fits(total, l)
  {
  }

  // ----- little-endian fields --------------------------------------------------------

  function Le16(n: nat): (b: seq<byte>)
    ensures |b| == 2
  {
    [n % 256, n / 256 % 256]
  }

  function Le32(n: nat): (b: seq<byte>)
    ensures |b| == 4
  {
    Le16(n % 0x1_0000) + Le16(n / 0x1_0000)
  }

  function U16At(s: seq<byte>, i: nat): nat
    requires i + 2 <= |s|
  {
    s[i] + 256 * s[i + 1] as int
  }

  function U32At(s: seq<byte>, i: nat): nat
    requires i + 4 <= |s|
  {
    U16At(s, i) + 0x1_0000 * U16At(s, i + 2)
  }

  lemma U16Of(s: seq<byte>, i: nat, n: nat)
    requires n < 0x1_0000 && i + 2 <= |s| && s[i..i + 2] == Le16(n)
    ensures U16At(s, i) == n
  {
    assert s[i] == s[i..i + 2][0] && s[i + 1] == s[i..i + 2][1];
    assert n / 256 % 256 == n / 256;
  }

  lemma U32Of(s: seq<byte>, i: nat, n: nat)
    requires n <= U32_MAX && i + 4 <= |s| && s[i..i + 4] == Le32(n)
    ensures U32At(s, i) == n
  {
    hide Le16, U16At;
    assert s[i..i + 2] == s[i..i + 4][..2] && s[i + 2..i + 4] == s[i..i + 4][2..];
    U16Of(s, i, n % 0x1_0000);
    U16Of(s, i + 2, n / 0x1_0000);
  }

  function Zeros(n: nat): (z: seq<byte>)
    ensures |z| == n && forall i :: 0 <= i < n ==> z[i] == 0
  {
    seq(n, _ => 0)
  }

  // ----- the sectors --------------------------------------------------------------------

  const OEM: seq<byte> := [0x4D, 0x53, 0x57, 0x49, 0x4E, 0x34, 0x2E, 0x31]
  const LABEL: seq<byte> := [0x50, 0x49, 0x43, 0x4F, 0x43, 0x41, 0x4C, 0x43, 0x20, 0x20, 0x20]
  const FSTYPE: seq<byte> := [0x46, 0x41, 0x54, 0x33, 0x32, 0x20, 0x20, 0x20]

  /** Bytes 0..32 of the boot sector: jump, OEM name and the fields shared with FAT12 and FAT16. */
  function Bpb(): (b: seq<byte>)
    ensures |b| == 32
  {
    BpbHead() + Le16(0) + [0xF8] + Le16(0) + Le16(63) + Le16(255) + Le32(0)
  }

  function BpbHead(): (b: seq<byte>)
    ensures |b| == 19
  {
    [0xEB, 0x58, 0x90] + OEM + Le16(SECTOR) + [1] + Le16(RESERVED) + [2] + Le16(0)
  }

  /** Bytes 32..52: the two sizes, then root cluster 2, FSInfo sector 1, backup sector 6. */
  function Sizes(total: nat, fatSectors: nat): (b: seq<byte>)
    ensures |b| == 20
  {
    Le32(total) + Le32(fatSectors) + Le16(0) + Le16(0) + Le32(2) + Le16(1) + Le16(6)
  }

  /** Bytes 52..90: drive number, extended signature, serial, label and type. */
  function Extended(): (b: seq<byte>)
    ensures |b| == 38
  {
    Zeros(12) + [0x80] + Zeros(1) + [0x29] + Le32(0x1234_5678) + LABEL + FSTYPE
  }

  function BootSector(total: nat, fatSectors: nat): (b: seq<byte>)
    ensures |b| == SECTOR
  {
    Bpb() + Sizes(total, fatSectors) + Extended() + Zeros(420) + [0x55, 0xAA]
  }

  function FsInfo(clusters: nat): (b: seq<byte>)
    requires clusters >= 1
    ensures |b| == SECTOR
  {
    Le32(0x4161_5252) + Zeros(480) + Le32(0x6141_7272) + Le32(clusters - 1) + Le32(3) + Zeros(12) + Le32(0xAA55_0000)
  }

  /** Media descriptor, end-of-chain mark and the root directory's single cluster. */
  function TableHead(): (b: seq<byte>)
    ensures |b| == 12
  {
    Le32(0x0FFF_FFF8) + Le32(0xFFFF_FFFF) + Le32(0x0FFF_FFFF)
  }

  // ----- writing in place ------------------------------------------------------------------

  method Put(a: array<byte>, at: nat, bytes: seq<byte>)
    requires at + |bytes| <= a.Length
    modifies a
    ensures a[..at + |bytes|] == old(a[..at]) + bytes
    ensures forall i :: at + |bytes| <= i < a.Length ==> a[i] == old(a[i])
  {
    forall i | 0 <= i < |bytes| {
      a[at + i] := bytes[i];
    }
  }

  /** The array still holds the zeros it was filled with from `from` on. */
  ghost predicate Blank(a: array<byte>, from: nat)
    reads a
  {
    forall i :: from <= i < a.Length ==> a[i] == 0
  }

  method WriteBpb(a: array<byte>)
    requires a.Length >= SECTOR && Blank(a, 0)
    modifies a
    ensures a[..32] == Bpb() && Blank(a, 32)
  {
    hide Le16, Le32, BpbHead;
    WriteBpbHead(a);
    Put(a, 19, Le16(0));
    Put(a, 21, [0xF8]);
    Put(a, 22, Le16(0));
    Put(a, 24, Le16(63));
    Put(a, 26, Le16(255));
    Put(a, 28, Le32(0));
  }

  method WriteBpbHead(a: array<byte>)
    requires a.Length >= SECTOR && Blank(a, 0)
    modifies a
    ensures a[..19] == BpbHead() && Blank(a, 19)
  {
    hide Le16, Le32;
    Put(a, 0, [0xEB, 0x58, 0x90]);
    Put(a, 3, OEM);
    Put(a, 11, Le16(SECTOR));
    Put(a, 13, [1]);
    Put(a, 14, Le16(RESERVED));
    Put(a, 16, [2]);
    Put(a, 17, Le16(0));
  }

  method WriteSizes(a: array<byte>, total: nat, fatSectors: nat)
    requires a.Length >= SECTOR && a[..32] == Bpb() && Blank(a, 32)
    modifies a
    ensures a[..52] == Bpb() + Sizes(total, fatSectors) && Blank(a, 52)
  {
    hide Le16, Le32, Bpb;
    Put(a, 32, Le32(total));
    Put(a, 36, Le32(fatSectors));
    Put(a, 40, Le16(0));
    Put(a, 42, Le16(0));
    Put(a, 44, Le32(2));
    Put(a, 48, Le16(1));
    Put(a, 50, Le16(6));
    assert a[..52] == Bpb() + Sizes(total, fatSectors);
  }

  method WriteExtended(a: array<byte>, ghost head: seq<byte>)
    requires a.Length >= SECTOR && |head| == 52 && a[..52] == head && Blank(a, 52)
    modifies a
    ensures a[..SECTOR] == head + Extended() + Zeros(420) + [0x55, 0xAA] && Blank(a, SECTOR)
  {
    hide Le32;
    assert a[..64] == a[..52] + Zeros(12);
    Put(a, 64, [0x80]);
    assert a[..66] == a[..65] + Zeros(1);
    Put(a, 66, [0x29]);
    Put(a, 67, Le32(0x1234_5678));
    Put(a, 71, LABEL);
    Put(a, 82, FSTYPE);
    assert a[..90] == head + Extended();
    assert a[..510] == a[..90] + Zeros(420);
    Put(a, 510, [0x55, 0xAA]);
  }

  /** Everything the formatter leaves on the card, sector by sector. */
  function Image(total: nat, l: Layout): (image: seq<byte>)
    requires Fits(total, l) && l.fatSectors >= 1
    ensures |image| == total * SECTOR
  {
    Front(total, l) + TableHead() + Zeros(l.fatSectors * SECTOR - 12) + TableHead()
    + Zeros(l.fatSectors * SECTOR - 12 + l.clusters * SECTOR)
  }

  /** The reserved area: boot sector and FSInfo, with their backups at sector 6. */
  function Front(total: nat, l: Layout): (front: seq<byte>)
    requires l.clusters >= 1
    ensures |front| == RESERVED * SECTOR
  {
    var pair := BootSector(total, l.fatSectors) + FsInfo(l.clusters);
    pair + Zeros(4 * SECTOR) + pair + Zeros(24 * SECTOR)
  }

  method WriteFsInfo(a: array<byte>, ghost boot: seq<byte>, clusters: nat)
    requires a.Length >= 2 * SECTOR && |boot| == SECTOR && a[..SECTOR] == boot && Blank(a, SECTOR) && clusters >= 1
    modifies a
    ensures a[..2 * SECTOR] == boot + FsInfo(clusters) && Blank(a, 2 * SECTOR)
  {
    hide Le32;
    Put(a, 512, Le32(0x4161_5252));
    assert a[..996] == a[..516] + Zeros(480);
    Put(a, 996, Le32(0x6141_7272));
    Put(a, 1000, Le32(clusters - 1));
    Put(a, 1004, Le32(3));
    assert a[..1020] == a[..1008] + Zeros(12);
    Put(a, 1020, Le32(0xAA55_0000));
    assert a[..1024] == boot + FsInfo(clusters);
  }

  /** Copy one sector onto a later, still blank one. */
  method CopySector(a: array<byte>, from: nat, to: nat)
    requires from < to && (to + 1) * SECTOR <= a.Length && Blank(a, to * SECTOR)
    modifies a
    ensures var front := old(a[..to * SECTOR]);
            a[..(to + 1) * SECTOR] == front + front[from * SECTOR..(from + 1) * SECTOR]
    ensures Blank(a, (to + 1) * SECTOR)
  {
    var sector := a[from * SECTOR..(from + 1) * SECTOR];
    assert sector == a[..to * SECTOR][from * SECTOR..(from + 1) * SECTOR];
    Put(a, to * SECTOR, sector);
  }

  method WriteFront(a: array<byte>, total: nat, l: Layout)
    requires a.Length >= RESERVED * SECTOR && l.clusters >= 1 && Blank(a, 0)
    modifies a
    ensures a[..RESERVED * SECTOR] == Front(total, l) && Blank(a, 8 * SECTOR)
  {
    hide Bpb, Sizes, Extended, FsInfo;
    WriteBpb(a);
    WriteSizes(a, total, l.fatSectors);
    WriteExtended(a, Bpb() + Sizes(total, l.fatSectors));
    ghost var boot := BootSector(total, l.fatSectors);
    assert a[..SECTOR] == boot;
    WriteFsInfo(a, boot, l.clusters);
    ghost var info, gap := FsInfo(l.clusters), Zeros(4 * SECTOR);
    assert a[..6 * SECTOR] == boot + info + gap;
    FirstSectors(boot, info, gap);
    CopySector(a, 0, 6);
    FirstSectors(boot, info, gap + boot);
    assert boot + info + gap + boot == boot + info + (gap + boot);
    CopySector(a, 1, 7);
    assert a[..8 * SECTOR] == boot + info + gap + (boot + info);
    assert a[..RESERVED * SECTOR] == a[..8 * SECTOR] + Zeros(24 * SECTOR);
  }

  lemma FirstSectors(first: seq<byte>, second: seq<byte>, rest: seq<byte>)
    requires |first| == |second| == SECTOR
    ensures var s := first + second + rest; s[0..SECTOR] == first && s[SECTOR..2 * SECTOR] == second
  {
  }

  lemma SmallestCard(total: nat)
    ensures total > 34 ==>
      var n := Required(total - 34); total - RESERVED - 2 * n >= MIN_CLUSTERS <==> total >= 66_599
    ensures total >= 66_599 ==>
      exists l: Layout :: Fits(total, l)
  {
    if total >= 66_599 {
      var n := Required(total - 34);
      assert Fits(total, Layout(n, total - RESERVED - 2 * n));
    }
  }

  /**
   * Lay down an empty volume. The smallest card accepted has 66 599 sectors; a card that
   * is refused is left untouched.
   */
  method FormatFat32(a: array<byte>) returns (r: Option<Layout>)
    requires a.Length % SECTOR == 0
    modifies a
    ensures var total := a.Length / SECTOR;
      && (r.Some? <==> 66_599 <= total <= U32_MAX)
      && (r.Some? ==> Fits(total, r.value) && r.value.clusters >= MIN_CLUSTERS && a[..] == Image(total, r.value))
      && (r.None? ==> a[..] == old(a[..]))
  {
    hide Front, TableHead;
    var total := a.Length / SECTOR;
    if total > U32_MAX {
      return None;
    }
    ghost var passes;
    r, passes := SizeTables(total);
    SmallestCard(total);
    if r.None? {
      return;
    }
    var l := r.value;
    if l.clusters < MIN_CLUSTERS {
      return None;
    }
    forall i | 0 <= i < a.Length {
      a[i] := 0;
    }
    WriteFront(a, total, l);
    WriteTables(a, Front(total, l), l);
  }

  method WriteTables(a: array<byte>, ghost front: seq<byte>, l: Layout)
    requires l.clusters >= 1 && l.fatSectors >= 1
    requires a.Length == (RESERVED + 2 * l.fatSectors + l.clusters) * SECTOR
    requires |front| == RESERVED * SECTOR && a[..RESERVED * SECTOR] == front && Blank(a, RESERVED * SECTOR)
    modifies a
    ensures a[..] == front + TableHead() + Zeros(l.fatSectors * SECTOR - 12) + TableHead()
                     + Zeros(l.fatSectors * SECTOR - 12 + l.clusters * SECTOR)
  {
    hide TableHead;
    var first, size := RESERVED * SECTOR, l.fatSectors * SECTOR;
    Put(a, first, TableHead());
    assert a[..first + size] == a[..first + 12] + Zeros(size - 12);
    Put(a, first + size, TableHead());
    // Cluster 2, the root directory, is already blank.
    var root := first + 2 * size;
    forall i | root <= i < root + SECTOR {
      a[i] := 0;
    }
    assert a[..] == a[..first + size + 12] + Zeros(size - 12 + l.clusters * SECTOR);
  }

  // ----- what a reader finds ------------------------------------------------------------

  datatype Geometry = Geometry(sectorBytes: nat, perCluster: nat, reserved: nat, tables: nat, rootEntries: nat,
                               total: nat, tableSectors: nat, rootCluster: nat)

  function Decode(boot: seq<byte>): Geometry
    requires |boot| == SECTOR
  {
    Geometry(U16At(boot, 11), boot[13], U16At(boot, 14), boot[16], U16At(boot, 17), U32At(boot, 32), U32At(boot, 36),
             U32At(boot, 44))
  }

  /** First sector of table i. */
  function TableStart(g: Geometry, i: nat): nat {
    g.reserved + i * g.tableSectors
  }

  /** First sector of data cluster k, and the byte range of its entry inside a table. */
  function ClusterSector(g: Geometry, k: nat): nat
    requires k >= 2
  {
    g.reserved + g.tables * g.tableSectors + (k - 2) * g.perCluster
  }

  /** The cluster count that decides the FAT type. */
  function CountOfClusters(g: Geometry): int
    requires g.perCluster >= 1
  {
    (g.total - (g.reserved + g.tables * g.tableSectors)) / g.perCluster
  }

  function SectorAt(image: seq<byte>, n: nat): (s: seq<byte>)
    requires (n + 1) * SECTOR <= |image|
    ensures |s| == SECTOR
  {
    image[n * SECTOR..(n + 1) * SECTOR]
  }

  lemma SharedFields(b: seq<byte>)
    requires |b| == SECTOR && b[..32] == Bpb()
    ensures U16At(b, 11) == SECTOR && b[13] == 1 && U16At(b, 14) == RESERVED && b[16] == 2 && U16At(b, 17) == 0
  {
    hide Le16, Le32, U16At;
    assert b[11..13] == b[..32][11..13] == Le16(SECTOR);
    assert b[14..16] == b[..32][14..16] == Le16(RESERVED);
    assert b[17..19] == b[..32][17..19] == Le16(0);
    assert b[13] == b[..32][13] && b[16] == b[..32][16];
    U16Of(b, 11, SECTOR);
    U16Of(b, 14, RESERVED);
    U16Of(b, 17, 0);
  }

  lemma SizesListed(total: nat, fatSectors: nat)
    requires total <= U32_MAX && fatSectors <= U32_MAX
    ensures var s := Sizes(total, fatSectors);
            s[..4] == Le32(total) && s[4..8] == Le32(fatSectors) && s[12..16] == Le32(2)
  {
    hide Le16, Le32;
    var s := Sizes(total, fatSectors);
    var front := Le32(total) + Le32(fatSectors) + Le16(0) + Le16(0);
    assert s == front + (Le32(2) + Le16(1) + Le16(6));
    assert s[..12] == front;
    assert front[..4] == Le32(total) && front[4..8] == Le32(fatSectors);
    assert s[..4] == s[..12][..4] && s[4..8] == s[..12][4..8];
  }

  lemma Inside(b: seq<byte>, lo: nat, hi: nat, i: nat, j: nat)
    requires lo + j <= hi <= |b| && i <= j
    ensures b[lo..hi][i..j] == b[lo + i..lo + j]
  {
    var x, y := b[lo..hi][i..j], b[lo + i..lo + j];
    assert |x| == |y| && forall k :: 0 <= k < |x| ==> x[k] == y[k];
  }

  lemma SizeFields(b: seq<byte>, total: nat, fatSectors: nat)
    requires |b| == SECTOR && b[32..52] == Sizes(total, fatSectors) && total <= U32_MAX && fatSectors <= U32_MAX
    ensures U32At(b, 32) == total && U32At(b, 36) == fatSectors && U32At(b, 44) == 2
  {
    hide Le16, Le32, U32At, Sizes;
    SizesListed(total, fatSectors);
    Inside(b, 32, 52, 0, 4);
    Inside(b, 32, 52, 4, 8);
    Inside(b, 32, 52, 12, 16);
    U32Of(b, 32, total);
    U32Of(b, 36, fatSectors);
    U32Of(b, 44, 2);
  }

  lemma BootDecodes(total: nat, fatSectors: nat)
    requires total <= U32_MAX && fatSectors <= U32_MAX
    ensures Decode(BootSector(total, fatSectors)) == Geometry(SECTOR, 1, RESERVED, 2, 0, total, fatSectors, 2)
    ensures BootSector(total, fatSectors)[510..] == [0x55, 0xAA]
  {
    hide Bpb, Sizes, Extended, U16At, U32At;
    var b := BootSector(total, fatSectors);
    assert b[..32] == Bpb();
    assert b[32..52] == Sizes(total, fatSectors);
    SharedFields(b);
    SizeFields(b, total, fatSectors);
  }

  lemma ImageSectors(total: nat, l: Layout)
    requires Fits(total, l) && l.fatSectors >= 1
    ensures var image := Image(total, l);
      && SectorAt(image, 0) == SectorAt(image, 6) == BootSector(total, l.fatSectors)
      && SectorAt(image, 1) == SectorAt(image, 7) == FsInfo(l.clusters)
      && image[RESERVED * SECTOR..RESERVED * SECTOR + 12] == TableHead()
      && var second := (RESERVED + l.fatSectors) * SECTOR; image[second..second + 12] == TableHead()
  {
    hide BootSector, FsInfo, TableHead;
    var image, front := Image(total, l), Front(total, l);
    assert image[..RESERVED * SECTOR] == front;
    assert front[0..512] == front[3072..3584] == BootSector(total, l.fatSectors);
    assert front[512..1024] == front[3584..4096] == FsInfo(l.clusters);
    assert image[0..512] == front[0..512] && image[3072..3584] == front[3072..3584];
    assert image[512..1024] == front[512..1024] && image[3584..4096] == front[3584..4096];
  }

  /**
   * Both copies of the boot sector decode to the layout: a FAT32 volume whose reserved
   * area, two tables and clusters are disjoint and end exactly at the last sector, with
   * an entry for every cluster in both tables.
   */
  lemma MountsAsLaidOut(total: nat, l: Layout, k: nat)
    requires Fits(total, l) && total <= U32_MAX && l.clusters >= MIN_CLUSTERS
    ensures var image := Image(total, l);
      && Decode(SectorAt(image, 0)) == Decode(SectorAt(image, 6))
      && var g := Decode(SectorAt(image, 0));
      && CountOfClusters(g) == l.clusters
      && TableStart(g, 0) == RESERVED && TableStart(g, 1) == TableStart(g, 0) + l.fatSectors
      && ClusterSector(g, 2) == TableStart(g, 1) + l.fatSectors
      && ClusterSector(g, 2 + l.clusters) == total
      && (2 <= k < 2 + l.clusters ==> TableStart(g, 1) + l.fatSectors <= ClusterSector(g, k) < total)
      && (k < 2 + l.clusters ==> 4 * k + 4 <= l.fatSectors * SECTOR)
  {
    hide Image, BootSector, Decode;
    ImageSectors(total, l);
    BootDecodes(total, l.fatSectors);
  }
}

/** The packed little-endian layouts of the super block, the FAT blocks and the root directory block. */
module DiskFormat {
  import opened FsTypes

  const ENTRY_SIZE := 32

  type EntryBytes = s: seq<byte> | |s| == ENTRY_SIZE witness seq(ENTRY_SIZE, i => 0)
  type FatBlock = s: seq<u16> | |s| == FAT_SIZE witness seq(FAT_SIZE, i => 0)
  type RootList = s: seq<RootEntry> | |s| == FILE_MAX
    witness seq(FILE_MAX, i => RootEntry(seq(FILENAME_LEN, j => 0), 0, 0, seq(10, j => 0)))

  function Put16(x: u16): seq<byte> { [x % 256, x / 256] }

  function Get16(lo: byte, hi: byte): u16 { lo + 256 * hi }

  function Put32(x: u32): seq<byte> { [x % 256, x / 256 % 256, x / 0x1_0000 % 256, x / 0x100_0000] }

  function Get32(a: byte, b: byte, c: byte, d: byte): u32 { a + 256 * (b + 256 * (c + 256 * d)) }

  // ---------------------------------------------------------------- super block

  function PutSuper(sb: SuperBlock): Block {
    sb.signature + Put16(sb.total) + Put16(sb.rootIndex) + Put16(sb.startIndex) + Put16(sb.dataCount)
    + [sb.fatCount] + sb.padding
  }

  function GetSuper(b: Block): SuperBlock {
    SuperBlock(b[..8], Get16(b[8], b[9]), Get16(b[10], b[11]), Get16(b[12], b[13]), Get16(b[14], b[15]), b[16], b[17..])
  }

  /** Reading back a written super block restores it. */
  lemma SuperRoundTrip(sb: SuperBlock)
    ensures GetSuper(PutSuper(sb)) == sb
  {
    var b := PutSuper(sb);
    assert b[..8] == sb.signature;
    assert b[17..] == sb.padding;
  }

  /** Writing back a super block as it was read restores the block. */
  lemma SuperBack(b: Block)
    ensures PutSuper(GetSuper(b)) == b
  {
    hide Put16, Get16;
    Back16(b[8], b[9]);
    Back16(b[10], b[11]);
    Back16(b[12], b[13]);
    Back16(b[14], b[15]);
    assert b == b[..8] + [b[8], b[9]] + [b[10], b[11]] + [b[12], b[13]] + [b[14], b[15]] + [b[16]] + b[17..];
  }

  lemma Back16(lo: byte, hi: byte)
    ensures Put16(Get16(lo, hi)) == [lo, hi]
  {
  }

  // ---------------------------------------------------------------- FAT blocks

  function PutFat(row: FatBlock): Block {
    seq(BLOCK_SIZE, k requires 0 <= k < BLOCK_SIZE => Put16(row[k / 2])[k % 2])
  }

  function GetFat(b: Block): FatBlock {
    seq(FAT_SIZE, y requires 0 <= y < FAT_SIZE => Get16(b[2 * y], b[2 * y + 1]))
  }

  lemma FatRoundTrip(row: FatBlock)
    ensures GetFat(PutFat(row)) == row
  {
    var b := PutFat(row);
    forall y | 0 <= y < FAT_SIZE ensures GetFat(b)[y] == row[y] {
      assert 2 * y / 2 == y && (2 * y + 1) / 2 == y;
    }
  }

  lemma FatBack(b: Block)
    ensures PutFat(GetFat(b)) == b
  {
    hide Put16, Get16;
    forall k | 0 <= k < BLOCK_SIZE ensures PutFat(GetFat(b))[k] == b[k] {
      Back16(b[2 * (k / 2)], b[2 * (k / 2) + 1]);
    }
  }

  // ---------------------------------------------------------------- root directory

  function PutEntry(e: RootEntry): EntryBytes {
    e.filename + Put32(e.size) + Put16(e.first) + e.padding
  }

  function GetEntry(b: EntryBytes): RootEntry {
    RootEntry(b[..16], Get32(b[16], b[17], b[18], b[19]), Get16(b[20], b[21]), b[22..])
  }

  lemma EntryRoundTrip(e: RootEntry)
    ensures GetEntry(PutEntry(e)) == e
  {
    var b := PutEntry(e);
    assert b[..16] == e.filename;
    assert b[22..] == e.padding;
    Word32(e.size);
  }

  lemma Word32(x: u32)
    ensures var b := Put32(x); Get32(b[0], b[1], b[2], b[3]) == x
  {
    var y := x / 256;
    var z := y / 256;
    assert z == x / 0x1_0000 && z / 256 == x / 0x100_0000;
    assert x == x % 256 + 256 * y && y == y % 256 + 256 * z && z == z % 256 + 256 * (z / 256);
  }

  function PutRoot(root: RootList): Block {
    seq(BLOCK_SIZE, k requires 0 <= k < BLOCK_SIZE => PutEntry(root[k / ENTRY_SIZE])[k % ENTRY_SIZE])
  }

  function GetRoot(b: Block): RootList {
    seq(FILE_MAX, i requires 0 <= i < FILE_MAX => GetEntry(b[ENTRY_SIZE * i..ENTRY_SIZE * i + ENTRY_SIZE]))
  }

  lemma RootRoundTrip(root: RootList)
    ensures GetRoot(PutRoot(root)) == root
  {
    hide PutEntry, GetEntry, PutRoot;
    var b := PutRoot(root);
    forall i | 0 <= i < FILE_MAX ensures GetRoot(b)[i] == root[i] {
      CellOf(root, i);
      EntryRoundTrip(root[i]);
    }
    assert GetRoot(b) == root;
  }

  lemma CellOf(root: RootList, i: nat)
    requires i < FILE_MAX
    ensures PutRoot(root)[ENTRY_SIZE * i..ENTRY_SIZE * i + ENTRY_SIZE] == PutEntry(root[i])
  {
    hide PutEntry;
    forall k | 0 <= k < ENTRY_SIZE ensures PutRoot(root)[ENTRY_SIZE * i + k] == PutEntry(root[i])[k] {
      assert (ENTRY_SIZE * i + k) / ENTRY_SIZE == i && (ENTRY_SIZE * i + k) % ENTRY_SIZE == k;
    }
  }

  lemma EntryBack(b: EntryBytes)
    ensures PutEntry(GetEntry(b)) == b
  {
    hide Put16, Get16, Put32, Get32;
    Back16(b[20], b[21]);
    Back32(b[16], b[17], b[18], b[19]);
    assert b == b[..16] + [b[16], b[17], b[18], b[19]] + [b[20], b[21]] + b[22..];
  }

  lemma Back32(a: byte, b: byte, c: byte, d: byte)
    ensures Put32(Get32(a, b, c, d)) == [a, b, c, d]
  {
    Shift(Get32(a, b, c, d), a, b, c + 256 * (d as int));
  }

  lemma Shift(x: nat, a: byte, b: byte, z: nat)
    requires x == a + 256 * (b + 256 * z)
    ensures x % 256 == a && x / 256 % 256 == b && x / 0x1_0000 % 256 == z % 256 && x / 0x100_0000 == z / 256
  {
    assert x / 256 == b + 256 * z;
    assert x / 0x1_0000 == z;
    assert z == z % 256 + 256 * (z / 256);
  }

  lemma RootBack(b: Block)
    ensures PutRoot(GetRoot(b)) == b
  {
    hide PutEntry, GetEntry;
    forall k | 0 <= k < BLOCK_SIZE ensures PutRoot(GetRoot(b))[k] == b[k] {
      EntryBack(b[ENTRY_SIZE * (k / ENTRY_SIZE)..ENTRY_SIZE * (k / ENTRY_SIZE) + ENTRY_SIZE]);
    }
  }
}

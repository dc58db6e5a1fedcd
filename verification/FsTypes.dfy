/** The constants and record types of the FAT file system, and C strings held in fixed-size fields. */
module FsTypes {
  const BLOCK_SIZE := 4096
  const FAT_SIZE := 2048
  const FAT_EOC := 0xFFFF
  const FD_MAX := 32
  const FILENAME_LEN := 16
  const FILE_MAX := 128

  type byte = x: int | 0 <= x < 256
  type u16 = x: int | 0 <= x < 0x1_0000
  type u32 = x: int | 0 <= x < 0x1_0000_0000

  /** One disk block. */
  type Block = s: seq<byte> | |s| == BLOCK_SIZE witness seq(BLOCK_SIZE, i => 0)

  type Signature = s: seq<byte> | |s| == 8 witness seq(8, i => 0)
  type SuperPadding = s: seq<byte> | |s| == 4079 witness seq(4079, i => 0)
  type RawName = s: seq<byte> | |s| == FILENAME_LEN witness seq(FILENAME_LEN, i => 0)
  type RootPadding = s: seq<byte> | |s| == 10 witness seq(10, i => 0)

  datatype SuperBlock = SuperBlock(
    signature: Signature,
    total: u16,
    rootIndex: u16,
    startIndex: u16,
    dataCount: u16,
    fatCount: byte,
    padding: SuperPadding)

  datatype RootEntry = RootEntry(filename: RawName, size: u32, first: u16, padding: RootPadding)

  datatype FileDes = FileDes(fileIndex: nat, offset: nat, open: nat)

  /** A NUL-terminated string argument, without its terminator. */
  type CString = s: seq<byte> | 0 !in s

  /** The C string stored at the start of a byte field: everything before the first NUL. */
  function CStr(raw: seq<byte>): (s: CString)
    ensures |s| <= |raw|
  {
    if raw == [] || raw[0] == 0 then [] else [raw[0]] + CStr(raw[1..])
  }

  /** strcpy of a name into a filename field; the bytes after the terminator keep their old values. */
  function StrCpy(raw: RawName, s: CString): RawName
    requires |s| < FILENAME_LEN
  {
    s + [0] + raw[|s| + 1..]
  }

  lemma {:induction false} CStrStops(s: CString, rest: seq<byte>)
    ensures CStr(s + [0] + rest) == s
  {
    var raw := s + [0] + rest;
    if s == [] {
      assert raw[0] == 0;
    } else {
      assert raw[1..] == s[1..] + [0] + rest;
      CStrStops(s[1..], rest);
    }
  }

  lemma StrCpyReadsBack(raw: RawName, s: CString)
    requires |s| < FILENAME_LEN
    ensures CStr(StrCpy(raw, s)) == s
  {
    CStrStops(s, raw[|s| + 1..]);
  }

  function Min(a: int, b: int): int { if a <= b then a else b }

  function Max(a: int, b: int): int { if a <= b then b else a }

  /** The number of blocks that `n` bytes occupy. */
  function BlocksFor(n: nat): nat { (n + BLOCK_SIZE - 1) / BLOCK_SIZE }
}

/**
  The on-disk format shared by the kernel and the image builder (src/fsformat.h):
  512-byte blocks holding little-endian 32-bit words, directory entries and the
  write-ahead log header, with the decoders that mounting uses.
 */
module FsFormat {

  const U32: int := 0x1_0000_0000

  type byte = x: int | 0 <= x < 256
  type u32 = x: int | 0 <= x < 0x1_0000_0000

  const FS_MAGIC: u32 := 0x52465332
  const BSIZE: nat := 512
  const MAXFILES: nat := 8
  const NAMELEN: nat := 56
  const DIRBLOCK: nat := 1
  const LOGHDR: nat := 2
  const LOGSTART: nat := 3
  const LOGN: nat := 16
  const DATASTART: nat := LOGSTART + LOGN
  const MAXBLK: nat := 8192

  type Block = b: seq<byte> | |b| == 512 witness seq(512, i => 0)
  type NameField = s: seq<byte> | |s| == 56 witness seq(56, i => 0)

  datatype Dirent = Dirent(name: NameField, size: u32, start: u32)

  type Dir = d: seq<Dirent> | |d| == 8 witness seq(8, i => Dirent(seq(56, j => 0), 0, 0))

  datatype Superblock = Superblock(magic: u32, nfiles: u32, nextFree: u32, total: u32)

  datatype LogHeader = LogHeader(committed: u32, n: u32, blk: seq<u32>)

  function ZeroBlock(): Block { seq(512, i => 0) }
  function ZeroName(): NameField { seq(56, i => 0) }

  // ---- 32-bit words in blocks ----

  function ByteOf(v: u32, k: nat): byte
    requires k < 4
  {
    if k == 0 then v % 256
    else if k == 1 then (v / 0x100) % 256
    else if k == 2 then (v / 0x1_0000) % 256
    else (v / 0x100_0000) % 256
  }

  function WordAt(b: Block, off: nat): u32
    requires off + 4 <= 512
  {
    var b0: int, b1: int, b2: int, b3: int := b[off], b[off + 1], b[off + 2], b[off + 3];
    b0 + 0x100 * b1 + 0x1_0000 * b2 + 0x100_0000 * b3
  }

  /** A block holding the given words from offset 0 on, and zeros after them. */
  function EncodeWords(ws: seq<u32>): Block
    requires |ws| <= 128
  {
    seq(512, j requires 0 <= j < 512 => if j / 4 < |ws| then ByteOf(ws[j / 4], j % 4) else 0)
  }

  lemma EncodedWord(ws: seq<u32>, i: nat)
    requires i < |ws| <= 128
    ensures WordAt(EncodeWords(ws), 4 * i) == ws[i]
  {
    hide ByteOf;
    var b := EncodeWords(ws);
    assert b[4 * i] == ByteOf(ws[i], 0) && b[4 * i + 1] == ByteOf(ws[i], 1);
    assert b[4 * i + 2] == ByteOf(ws[i], 2) && b[4 * i + 3] == ByteOf(ws[i], 3);
    BytesMakeWord(ws[i]);
  }

  /** The four bytes of a word, lowest first. */
  function Le32(v: u32): (b: seq<byte>)
    ensures |b| == 4
  {
    [v % 256, v / 256 % 256, v / 65536 % 256, v / 16777216]
  }

  lemma LowDigit(v: nat, d: nat, q: nat)
    requires d < 256
    ensures v == d + 256 * q <==> d == v % 256 && q == v / 256
  {
  }

  lemma NestedQuotients(v: nat)
    ensures v / 65536 == v / 256 / 256 && v / 16777216 == v / 256 / 256 / 256
  {
    var q := v / 65536;
    assert q == v / 256 / 256;
    assert v / 16777216 == q / 256;
  }

  lemma FourDigits(v: u32, b0: byte, b1: byte, b2: byte, b3: byte)
    ensures v == b0 + 0x100 * b1 + 0x1_0000 * b2 + 0x100_0000 * b3 <==> [b0, b1, b2, b3] == Le32(v)
  {
    NestedQuotients(v);
    LowDigit(v, b0, b1 + 256 * (b2 + 256 * b3));
    LowDigit(v / 256, b1, b2 + 256 * b3);
    LowDigit(v / 256 / 256, b2, b3);
  }

  lemma BytesMakeWord(v: u32)
    ensures ByteOf(v, 0) + 0x100 * ByteOf(v, 1) + 0x1_0000 * ByteOf(v, 2) + 0x100_0000 * ByteOf(v, 3) == v
  {
    FourDigits(v, ByteOf(v, 0), ByteOf(v, 1), ByteOf(v, 2), ByteOf(v, 3));
  }

  lemma Le32Word(b: Block, off: nat, v: u32)
    requires off + 4 <= 512
    ensures WordAt(b, off) == v <==> b[off..off + 4] == Le32(v)
  {
    FourDigits(v, b[off], b[off + 1], b[off + 2], b[off + 3]);
    hide Le32;
    assert b[off..off + 4] == [b[off], b[off + 1], b[off + 2], b[off + 3]];
  }

  /** The magic number on disk. */
  lemma MagicBytes(b: Block)
    ensures DecodeSuper(b).magic == FS_MAGIC <==> b[..4] == [0x32, 0x53, 0x46, 0x52]
  {
    Le32Word(b, 0, FS_MAGIC);
    assert b[0..4] == b[..4];
  }

  // ---- superblock and log header ----

  function EncodeSuper(sb: Superblock): Block {
    EncodeWords([sb.magic, sb.nfiles, sb.nextFree, sb.total])
  }

  function DecodeSuper(b: Block): Superblock {
    Superblock(WordAt(b, 0), WordAt(b, 4), WordAt(b, 8), WordAt(b, 12))
  }

  lemma SuperRoundTrip(sb: Superblock)
    ensures DecodeSuper(EncodeSuper(sb)) == sb
  {
    var ws: seq<u32> := [sb.magic, sb.nfiles, sb.nextFree, sb.total];
    EncodedWord(ws, 0);
    EncodedWord(ws, 1);
    EncodedWord(ws, 2);
    EncodedWord(ws, 3);
  }

  /** The header block: committed, n, then LOGN destinations, the unused ones zero. */
  function HeaderWords(committed: u32, blks: seq<u32>): (ws: seq<u32>)
    requires |blks| <= LOGN
    ensures |ws| == LOGN + 2
  {
    [committed, |blks|] + blks + seq(LOGN - |blks|, i => 0)
  }

  function EncodeHeader(committed: u32, blks: seq<u32>): Block
    requires |blks| <= LOGN
  {
    EncodeWords(HeaderWords(committed, blks))
  }

  function DecodeHeader(b: Block): LogHeader {
    LogHeader(WordAt(b, 0), WordAt(b, 4), seq(LOGN, i requires 0 <= i < LOGN => WordAt(b, 4 * (i + 2))))
  }

  lemma HeaderRoundTrip(committed: u32, blks: seq<u32>)
    requires |blks| <= LOGN
    ensures var h := DecodeHeader(EncodeHeader(committed, blks));
            h.committed == committed && h.n == |blks| && h.blk[..|blks|] == blks
  {
    hide EncodeWords, WordAt;
    var ws := HeaderWords(committed, blks);
    EncodedWord(ws, 0);
    EncodedWord(ws, 1);
    forall i | 0 <= i < |blks| ensures WordAt(EncodeWords(ws), 4 * (i + 2)) == blks[i] {
      EncodedWord(ws, i + 2);
    }
  }

  // ---- directory ----

  function DirentByte(e: Dirent, j: nat): byte
    requires j < 64
  {
    if j < 56 then e.name[j]
    else if j < 60 then ByteOf(e.size, j - 56)
    else ByteOf(e.start, j - 60)
  }

  function EncodeDir(dir: Dir): Block {
    seq(512, j requires 0 <= j < 512 => DirentByte(dir[j / 64], j % 64))
  }

  function DecodeDirent(b: Block, i: nat): Dirent
    requires i < MAXFILES
  {
    Dirent(b[64 * i..64 * i + 56], WordAt(b, 64 * i + 56), WordAt(b, 64 * i + 60))
  }

  function DecodeDir(b: Block): Dir {
    seq(8, i requires 0 <= i < 8 => DecodeDirent(b, i))
  }

  lemma DirRoundTrip(dir: Dir)
    ensures DecodeDir(EncodeDir(dir)) == dir
  {
    var b := EncodeDir(dir);
    forall i | 0 <= i < 8 ensures DecodeDirent(b, i) == dir[i] {
      DirentRoundTrip(dir, i);
    }
  }

  lemma DirByteAt(dir: Dir, i: nat, t: nat)
    requires i < 8 && t < 64
    ensures EncodeDir(dir)[64 * i + t] == DirentByte(dir[i], t)
  {
    assert (64 * i + t) / 64 == i && (64 * i + t) % 64 == t;
  }

  lemma DirName(dir: Dir, i: nat)
    requires i < 8
    ensures EncodeDir(dir)[64 * i..64 * i + 56] == dir[i].name
  {
    forall t | 0 <= t < 56 ensures EncodeDir(dir)[64 * i + t] == dir[i].name[t] {
      DirByteAt(dir, i, t);
    }
  }

  lemma DirSize(dir: Dir, i: nat)
    requires i < 8
    ensures WordAt(EncodeDir(dir), 64 * i + 56) == dir[i].size
  {
    DirByteAt(dir, i, 56);
    DirByteAt(dir, i, 57);
    DirByteAt(dir, i, 58);
    DirByteAt(dir, i, 59);
    BytesMakeWord(dir[i].size);
  }

  lemma DirStart(dir: Dir, i: nat)
    requires i < 8
    ensures WordAt(EncodeDir(dir), 64 * i + 60) == dir[i].start
  {
    DirByteAt(dir, i, 60);
    DirByteAt(dir, i, 61);
    DirByteAt(dir, i, 62);
    DirByteAt(dir, i, 63);
    BytesMakeWord(dir[i].start);
  }

  lemma DirentRoundTrip(dir: Dir, i: nat)
    requires i < 8
    ensures DecodeDirent(EncodeDir(dir), i) == dir[i]
  {
    DirName(dir, i);
    DirSize(dir, i);
    DirStart(dir, i);
  }
}

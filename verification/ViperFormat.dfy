/** The ViperFS on-disk format shared by the image writer and the checker (tools/viperfs_format.h):
    little-endian words, bitmap bits, inode records, the superblock and directory record headers. */
module ViperFormat {

  type u8 = x: int | 0 <= x < 256

  const BLOCK_SIZE := 4096
  const PTRS_PER_BLOCK := 512
  const INODES_PER_BLOCK := 16
  const INODE_WORDS := 32
  const ROOT_INODE := 2
  const MAGIC := 0x5346_5056
  const VERSION := 1
  const LABEL := 0x534F_4472_6570_6956
  const TYPE_DIR := 0x4000
  const MODE_DIR := 0x4007
  const MODE_FILE := 0x8006
  const FT_FILE: u8 := 1
  const FT_DIR: u8 := 2
  const FT_LINK: u8 := 7
  const U32 := 0x1_0000_0000
  const U64 := 0x1_0000_0000_0000_0000

  function Zeros(n: nat): (z: seq<u8>)
    ensures |z| == n && forall i :: 0 <= i < n ==> z[i] == 0
  {
    seq(n, _ => 0)
  }

  type Block = b: seq<u8> | |b| == BLOCK_SIZE witness Zeros(BLOCK_SIZE)

  // ---------------------------------------------------------- little-endian numbers

  function Pow256(n: nat): (p: nat)
    ensures p > 0
  {
    if n == 0 then 1 else 256 * Pow256(n - 1)
  }

  function LE(b: seq<u8>): nat {
    if b == [] then 0 else b[0] + 256 * LE(b[1..])
  }

  function ToBytes(v: nat, n: nat): (b: seq<u8>)
    ensures |b| == n
  {
    if n == 0 then [] else [v % 256] + ToBytes(v / 256, n - 1)
  }

  lemma {:induction false} LEToBytes(v: nat, n: nat)
    requires v < Pow256(n)
    ensures LE(ToBytes(v, n)) == v
  {
    if n > 0 {
      LEToBytes(v / 256, n - 1);
      assert ToBytes(v, n)[1..] == ToBytes(v / 256, n - 1);
    }
  }

  lemma Sizes()
    ensures Pow256(2) == 0x1_0000 && Pow256(8) == U64
  {
    assert Pow256(4) == 0x1_0000_0000;
    assert Pow256(6) == 0x1_0000_0000_0000;
  }

  // ------------------------------------------------------------------- 64-bit words

  function Words(b: Block): (ws: seq<nat>)
    ensures |ws| == PTRS_PER_BLOCK
  {
    seq(PTRS_PER_BLOCK, i requires 0 <= i < PTRS_PER_BLOCK => LE(b[8 * i..8 * i + 8]))
  }

  function PackSeq(ws: seq<nat>): (b: seq<u8>)
    ensures |b| == 8 * |ws|
  {
    if ws == [] then [] else PackSeq(ws[..|ws| - 1]) + ToBytes(ws[|ws| - 1], 8)
  }

  function Pack(ws: seq<nat>): Block
    requires |ws| == PTRS_PER_BLOCK
  {
    PackSeq(ws)
  }

  lemma {:induction false} PackSeqAt(ws: seq<nat>, i: nat)
    requires i < |ws|
    ensures PackSeq(ws)[8 * i..8 * i + 8] == ToBytes(ws[i], 8)
  {
    var t := ws[..|ws| - 1];
    if i < |t| {
      PackSeqAt(t, i);
      assert PackSeq(ws)[8 * i..8 * i + 8] == PackSeq(t)[8 * i..8 * i + 8];
    }
  }

  /** Writing words and reading them back is the identity. */
  lemma WordsPack(ws: seq<nat>)
    requires |ws| == PTRS_PER_BLOCK && forall i :: 0 <= i < |ws| ==> ws[i] < U64
    ensures Words(Pack(ws)) == ws
  {
    forall i | 0 <= i < PTRS_PER_BLOCK ensures Words(Pack(ws))[i] == ws[i] {
      PackSeqAt(ws, i);
      Sizes();
      LEToBytes(ws[i], 8);
    }
  }

  // --------------------------------------------------------------------- bitmap bits

  function Pow2(n: nat): (p: nat)
    ensures p > 0
  {
    if n == 0 then 1 else 2 * Pow2(n - 1)
  }

  /** `(b & (1 << k)) != 0`. */
  predicate BitOf(b: nat, k: nat) {
    if k == 0 then b % 2 == 1 else BitOf(b / 2, k - 1)
  }

  /** `b | (1 << k)`. */
  function OrBit(b: nat, k: nat): nat {
    if k == 0 then (if b % 2 == 1 then b else b + 1) else 2 * OrBit(b / 2, k - 1) + b % 2
  }

  lemma {:induction false} OrBitAt(b: nat, k: nat, j: nat)
    ensures BitOf(OrBit(b, k), j) <==> j == k || BitOf(b, j)
  {
    if k > 0 && j > 0 { OrBitAt(b / 2, k - 1, j - 1); }
  }

  lemma {:induction false} OrBitBound(b: nat, k: nat, n: nat)
    requires k < n && b < Pow2(n)
    ensures OrBit(b, k) < Pow2(n)
  {
    var half := Pow2(n - 1);
    assert Pow2(n) == 2 * half && b / 2 < half;
    if k > 0 { OrBitBound(b / 2, k - 1, n - 1); }
    assert b == 2 * (b / 2) + b % 2;
  }

  lemma {:induction false} ZeroByte(k: nat)
    ensures !BitOf(0, k)
  {
    if k > 0 { ZeroByte(k - 1); }
  }

  function OrByte(b: u8, k: nat): u8
    requires k < 8
  {
    assert Pow2(4) == 16 && Pow2(8) == 256;
    OrBitBound(b, k, 8);
    OrBit(b, k)
  }

  predicate Bit(bitmap: seq<u8>, i: nat)
    requires i / 8 < |bitmap|
  {
    BitOf(bitmap[i / 8], i % 8)
  }

  function SetBit(bitmap: seq<u8>, i: nat): (r: seq<u8>)
    requires i / 8 < |bitmap|
    ensures |r| == |bitmap|
  {
    bitmap[i / 8 := OrByte(bitmap[i / 8], i % 8)]
  }

  lemma SetBitAt(bitmap: seq<u8>, i: nat, j: nat)
    requires i / 8 < |bitmap| && j / 8 < |bitmap|
    ensures Bit(SetBit(bitmap, i), j) <==> i == j || Bit(bitmap, j)
  {
    if i / 8 == j / 8 {
      OrBitAt(bitmap[i / 8], i % 8, j % 8);
    }
  }

  // ------------------------------------------------------------------------- inodes

  datatype Inode = Inode(num: nat, mode: nat, size: nat, blocks: nat, time: nat,
                         direct: seq<nat>, indirect: nat, doubleIndirect: nat)

  const NoPtrs: seq<nat> := [0, 0, 0, 0, 0, 0, 0, 0, 0, 0, 0, 0]
  const ZeroInode := Inode(0, 0, 0, 0, 0, NoPtrs, 0, 0)

  predicate InodeFits(i: Inode) {
    && i.num < U64 && i.mode < U32 && i.size < U64 && i.blocks < U64 && i.time < U64
    && |i.direct| == 12 && (forall k :: 0 <= k < 12 ==> i.direct[k] < U64)
    && i.indirect < U64 && i.doubleIndirect < U64
  }

  predicate TableFits(inodes: seq<Inode>) {
    forall i :: 0 <= i < |inodes| ==> InodeFits(inodes[i])
  }

  /** The 256-byte record as 32 words; flags, generation and reserved words are zero. */
  function InodeToWords(i: Inode): (ws: seq<nat>)
    requires |i.direct| == 12
    ensures |ws| == INODE_WORDS
  {
    [i.num, i.mode, i.size, i.blocks, i.time, i.time, i.time] + i.direct + [i.indirect, i.doubleIndirect] + seq(11, _ => 0)
  }

  function InodeFromWords(ws: seq<nat>): Inode
    requires |ws| == INODE_WORDS
  {
    Inode(ws[0], ws[1] % U32, ws[2], ws[3], ws[4], ws[7..19], ws[19], ws[20])
  }

  lemma InodeRoundTrip(i: Inode)
    requires InodeFits(i)
    ensures InodeFromWords(InodeToWords(i)) == i
    ensures forall k :: 0 <= k < INODE_WORDS ==> InodeToWords(i)[k] < U64
  {
    assert InodeToWords(i)[7..19] == i.direct;
  }

  /** Block `j` of the inode table. */
  function InodeBlock(inodes: seq<Inode>, j: nat): Block
    requires INODES_PER_BLOCK * (j + 1) <= |inodes|
    requires TableFits(inodes)
  {
    Pack(seq(PTRS_PER_BLOCK, w requires 0 <= w < PTRS_PER_BLOCK =>
                InodeToWords(inodes[INODES_PER_BLOCK * j + w / INODE_WORDS])[w % INODE_WORDS]))
  }

  function InodeOf(b: Block, k: nat): Inode
    requires k < INODES_PER_BLOCK
  {
    InodeFromWords(Words(b)[INODE_WORDS * k..INODE_WORDS * (k + 1)])
  }

  lemma InodeBlockAt(inodes: seq<Inode>, j: nat, k: nat)
    requires INODES_PER_BLOCK * (j + 1) <= |inodes| && k < INODES_PER_BLOCK
    requires TableFits(inodes)
    ensures InodeOf(InodeBlock(inodes, j), k) == inodes[INODES_PER_BLOCK * j + k]
  {
    var ws := seq(PTRS_PER_BLOCK, w requires 0 <= w < PTRS_PER_BLOCK =>
                    InodeToWords(inodes[INODES_PER_BLOCK * j + w / INODE_WORDS])[w % INODE_WORDS]);
    forall w | 0 <= w < PTRS_PER_BLOCK ensures ws[w] < U64 {
      InodeRoundTrip(inodes[INODES_PER_BLOCK * j + w / INODE_WORDS]);
    }
    WordsPack(ws);
    var one := InodeToWords(inodes[INODES_PER_BLOCK * j + k]);
    forall f | 0 <= f < INODE_WORDS ensures ws[INODE_WORDS * k..INODE_WORDS * (k + 1)][f] == one[f] {
      assert (INODE_WORDS * k + f) / INODE_WORDS == k && (INODE_WORDS * k + f) % INODE_WORDS == f;
    }
    assert ws[INODE_WORDS * k..INODE_WORDS * (k + 1)] == one;
    InodeRoundTrip(inodes[INODES_PER_BLOCK * j + k]);
  }

  // --------------------------------------------------------------------- superblock

  datatype Super = Super(magic: nat, version: nat, blockSize: nat, total: nat, free: nat, inodeCount: nat, root: nat,
                         bitmapStart: nat, bitmapBlocks: nat, tableStart: nat, tableBlocks: nat, dataStart: nat)

  function SuperBlock(sb: Super): Block {
    Pack([sb.magic + U32 * sb.version, sb.blockSize, sb.total, sb.free, sb.inodeCount, sb.root, sb.bitmapStart,
          sb.bitmapBlocks, sb.tableStart, sb.tableBlocks, sb.dataStart, 0, 0, LABEL] + seq(498, _ => 0))
  }

  function SuperOf(b: Block): Super {
    var w := Words(b);
    Super(w[0] % U32, w[0] / U32, w[1], w[2], w[3], w[4], w[5], w[6], w[7], w[8], w[9], w[10])
  }

  lemma SuperRoundTrip(sb: Super)
    requires sb.magic < U32 && sb.version < U32 && sb.blockSize < U64 && sb.total < U64 && sb.free < U64
    requires sb.inodeCount < U64 && sb.root < U64 && sb.bitmapStart < U64 && sb.bitmapBlocks < U64
    requires sb.tableStart < U64 && sb.tableBlocks < U64 && sb.dataStart < U64
    ensures SuperOf(SuperBlock(sb)) == sb
  {
    WordsPack([sb.magic + U32 * sb.version, sb.blockSize, sb.total, sb.free, sb.inodeCount, sb.root, sb.bitmapStart,
               sb.bitmapBlocks, sb.tableStart, sb.tableBlocks, sb.dataStart, 0, 0, LABEL] + seq(498, _ => 0));
  }

  // -------------------------------------------------------------- directory records

  /** `n` bytes of a block buffer; bytes past its end read as zero. */
  function Peek(b: Block, at: nat, n: nat): (r: seq<u8>)
    ensures |r| == n
  {
    seq(n, i requires 0 <= i < n => if at + i < BLOCK_SIZE then b[at + i] else 0)
  }

  /** A directory record: a 12-byte header (inode, record length, name length, type) and the name. */
  datatype Rec = Rec(ino: nat, len: nat, ftype: u8, name: seq<u8>)

  const HEADER := 12

  function RecAt(b: Block, pos: nat): Rec {
    Rec(LE(Peek(b, pos, 8)), LE(Peek(b, pos + 8, 2)), Peek(b, pos + 11, 1)[0], Peek(b, pos + HEADER, Peek(b, pos + 10, 1)[0]))
  }

  /** The space a record with this name needs: header and name, rounded up to 8. */
  function Need(name: seq<u8>): nat {
    (HEADER + |name| + 7) / 8 * 8
  }

  function Splice(b: Block, at: nat, bytes: seq<u8>): Block
    requires at + |bytes| <= BLOCK_SIZE
  {
    b[..at] + bytes + b[at + |bytes|..]
  }

  function HeaderBytes(r: Rec): (h: seq<u8>)
    requires |r.name| < 256
    ensures |h| == HEADER + |r.name|
  {
    ToBytes(r.ino, 8) + ToBytes(r.len, 2) + [|r.name|, r.ftype] + r.name
  }

  lemma PeekSplice(b: Block, at: nat, bytes: seq<u8>, from: nat, n: nat)
    requires at + |bytes| <= BLOCK_SIZE
    ensures from + n <= at || at + |bytes| <= from ==> Peek(Splice(b, at, bytes), from, n) == Peek(b, from, n)
    ensures at <= from && from + n <= at + |bytes| ==> Peek(Splice(b, at, bytes), from, n) == bytes[from - at..from - at + n]
  {
  }

  lemma RecWritten(b: Block, pos: nat, r: Rec)
    requires |r.name| < 256 && pos + HEADER + |r.name| <= BLOCK_SIZE && r.ino < U64 && r.len < 0x1_0000
    ensures RecAt(Splice(b, pos, HeaderBytes(r)), pos) == r
  {
    var h := HeaderBytes(r);
    PeekSplice(b, pos, h, pos, 8);
    PeekSplice(b, pos, h, pos + 8, 2);
    PeekSplice(b, pos, h, pos + 10, 1);
    PeekSplice(b, pos, h, pos + 11, 1);
    PeekSplice(b, pos, h, pos + HEADER, |r.name|);
    assert h[0..8] == ToBytes(r.ino, 8) && h[8..10] == ToBytes(r.len, 2);
    assert h[10..11] == [|r.name|] && h[11..12] == [r.ftype] && h[12..12 + |r.name|] == r.name;
    Sizes();
    LEToBytes(r.ino, 8);
    LEToBytes(r.len, 2);
  }

  lemma RecKept(b: Block, at: nat, bytes: seq<u8>, pos: nat)
    requires at + |bytes| <= BLOCK_SIZE
    requires pos + HEADER + |RecAt(b, pos).name| <= at || at + |bytes| <= pos
    ensures RecAt(Splice(b, at, bytes), pos) == RecAt(b, pos)
  {
    PeekSplice(b, at, bytes, pos, 8);
    PeekSplice(b, at, bytes, pos + 8, 2);
    PeekSplice(b, at, bytes, pos + 10, 1);
    PeekSplice(b, at, bytes, pos + 11, 1);
    PeekSplice(b, at, bytes, pos + HEADER, |RecAt(b, pos).name|);
  }

  lemma RecLenChanged(b: Block, pos: nat, len: nat)
    requires pos + HEADER <= BLOCK_SIZE && len < 0x1_0000
    ensures RecAt(Splice(b, pos + 8, ToBytes(len, 2)), pos) == RecAt(b, pos).(len := len)
  {
    var h := ToBytes(len, 2);
    PeekSplice(b, pos + 8, h, pos, 8);
    PeekSplice(b, pos + 8, h, pos + 8, 2);
    PeekSplice(b, pos + 8, h, pos + 10, 1);
    PeekSplice(b, pos + 8, h, pos + 11, 1);
    PeekSplice(b, pos + 8, h, pos + HEADER, |RecAt(b, pos).name|);
    assert h[0..2] == h;
    Sizes();
    LEToBytes(len, 2);
  }
}

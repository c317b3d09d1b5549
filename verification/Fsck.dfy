/** What `fsck.viperfs` computes (tools/fsck.viperfs.cpp), as functions of the image. */
module Fsck {
  import opened Sequences
  import opened ViperFormat

  /** A loaded image: the file's blocks, its superblock, inode table and allocation bitmap. */
  datatype Fs = Fs(disk: seq<Block>, sb: Super, inodes: seq<Inode>, bitmap: seq<u8>)

  /** The checker's global state. */
  datatype Res = Res(errors: nat, warnings: nat, visited: set<nat>, owners: map<nat, seq<nat>>, computed: seq<u8>)

  /** A block outside the file reads as zeros. */
  function Read(disk: seq<Block>, b: nat): Block {
    if b < |disk| then disk[b] else Zeros(BLOCK_SIZE)
  }

  predicate Covers(fs: Fs, r: Res) {
    fs.sb.total <= 8 * |r.computed|
  }

  // --------------------------------------------------------------- block pointers

  /** The pointers of a list that name a block of the image. */
  function InRange(ptrs: seq<nat>, total: nat): seq<nat> {
    if ptrs == [] then []
    else InRange(ptrs[..|ptrs| - 1], total) +
         if 0 < ptrs[|ptrs| - 1] < total then [ptrs[|ptrs| - 1]] else []
  }

  function CountBad(ptrs: seq<nat>, total: nat): nat {
    if ptrs == [] then 0
    else CountBad(ptrs[..|ptrs| - 1], total) + if ptrs[|ptrs| - 1] != 0 && ptrs[|ptrs| - 1] >= total then 1 else 0
  }

  function CountZero(ptrs: seq<nat>): nat {
    if ptrs == [] then 0
    else CountZero(ptrs[..|ptrs| - 1]) + if ptrs[|ptrs| - 1] == 0 then 1 else 0
  }

  /** Blocks a file of this size needs; the sum is taken in 64 bits. */
  function ExpectedBlocks(size: nat): nat {
    (size + 4095) % U64 / BLOCK_SIZE
  }

  function Min(a: nat, b: nat): nat {
    if a < b then a else b
  }

  function DirectPtrs(inode: Inode): seq<nat>
    requires |inode.direct| == 12
  {
    inode.direct[..Min(12, ExpectedBlocks(inode.size))]
  }

  function IndirectPtrs(fs: Fs, inode: Inode): seq<nat> {
    var n := ExpectedBlocks(inode.size);
    Words(Read(fs.disk, inode.indirect))[..Min(PTRS_PER_BLOCK, if n < 12 then 0 else n - 12)]
  }

  /** Claims made through the first `n` pointers of a double-indirect block. */
  function DoubleClaims(fs: Fs, l1: seq<nat>): seq<nat> {
    if l1 == [] then [] else
    var p := l1[|l1| - 1];
    DoubleClaims(fs, l1[..|l1| - 1]) +
    if 0 < p < fs.sb.total then [p] + InRange(Words(Read(fs.disk, p)), fs.sb.total) else []
  }

  function DoubleBad(fs: Fs, l1: seq<nat>): nat {
    if l1 == [] then 0 else
    var p := l1[|l1| - 1];
    DoubleBad(fs, l1[..|l1| - 1]) +
    if 0 < p < fs.sb.total then CountBad(Words(Read(fs.disk, p)), fs.sb.total) else if p == 0 then 0 else 1
  }

  function IndirectList(fs: Fs, inode: Inode): seq<nat> {
    if 0 < inode.indirect < fs.sb.total then [inode.indirect] + InRange(IndirectPtrs(fs, inode), fs.sb.total) else []
  }

  function IndirectErrors(fs: Fs, inode: Inode): nat {
    if inode.indirect == 0 then 0 else if inode.indirect >= fs.sb.total then 1 else CountBad(IndirectPtrs(fs, inode), fs.sb.total)
  }

  function DoubleList(fs: Fs, inode: Inode): seq<nat> {
    if 0 < inode.doubleIndirect < fs.sb.total
    then [inode.doubleIndirect] + DoubleClaims(fs, Words(Read(fs.disk, inode.doubleIndirect))) else []
  }

  function DoubleErrors(fs: Fs, inode: Inode): nat {
    if inode.doubleIndirect == 0 then 0 else if inode.doubleIndirect >= fs.sb.total then 1
    else DoubleBad(fs, Words(Read(fs.disk, inode.doubleIndirect)))
  }

  /** Every block an inode claims, in the order the checker claims them. */
  function BlockList(fs: Fs, inode: Inode): seq<nat>
    requires |inode.direct| == 12
  {
    if inode.size == 0 then []
    else InRange(DirectPtrs(inode), fs.sb.total) + IndirectList(fs, inode) + DoubleList(fs, inode)
  }

  function BlockErrors(fs: Fs, inode: Inode): nat
    requires |inode.direct| == 12
  {
    if inode.size == 0 then 0
    else CountBad(DirectPtrs(inode), fs.sb.total) + IndirectErrors(fs, inode) + DoubleErrors(fs, inode)
  }

  function BlockWarnings(inode: Inode): nat
    requires |inode.direct| == 12
  {
    if inode.size == 0 then 0 else CountZero(DirectPtrs(inode))
  }

  function OwnersOf(r: Res, b: nat): seq<nat> {
    if b in r.owners then r.owners[b] else []
  }

  function Claim(fs: Fs, r: Res, b: nat, ino: nat): (r': Res)
    requires Covers(fs, r)
    ensures Covers(fs, r') && |r'.computed| == |r.computed|
  {
    if b == 0 || b >= fs.sb.total then r
    else r.(owners := r.owners[b := OwnersOf(r, b) + [ino]], computed := SetBit(r.computed, b))
  }

  function ClaimAll(fs: Fs, r: Res, bs: seq<nat>, ino: nat): (r': Res)
    requires Covers(fs, r)
    ensures Covers(fs, r') && |r'.computed| == |r.computed|
    ensures r'.visited == r.visited && r'.errors == r.errors && r'.warnings == r.warnings
  {
    if bs == [] then r else Claim(fs, ClaimAll(fs, r, bs[..|bs| - 1], ino), bs[|bs| - 1], ino)
  }

  function Report(r: Res, errors: nat, warnings: nat): Res {
    r.(errors := r.errors + errors, warnings := r.warnings + warnings)
  }

  function CheckBlocks(fs: Fs, r: Res, ino: nat): (r': Res)
    requires Covers(fs, r) && ino < |fs.inodes| && |fs.inodes[ino].direct| == 12
    ensures Covers(fs, r') && r'.visited == r.visited && r.errors <= r'.errors
  {
    var inode := fs.inodes[ino];
    ClaimAll(fs, Report(r, BlockErrors(fs, inode), BlockWarnings(inode)), BlockList(fs, inode), ino)
  }

  function IndirectAt(disk: seq<Block>, b: nat, k: nat): nat
    requires k < PTRS_PER_BLOCK
  {
    if b == 0 then 0 else Words(Read(disk, b))[k]
  }

  /** The block that holds block `k` of a file: directly, through one or through two levels of pointers. */
  function BlockPtr(disk: seq<Block>, inode: Inode, k: nat): nat
    requires |inode.direct| == 12
  {
    if k < 12 then inode.direct[k]
    else if k - 12 < PTRS_PER_BLOCK then IndirectAt(disk, inode.indirect, k - 12)
    else if k - 12 - PTRS_PER_BLOCK < PTRS_PER_BLOCK * PTRS_PER_BLOCK then
      var j := k - 12 - PTRS_PER_BLOCK;
      var l1 := IndirectAt(disk, inode.doubleIndirect, j / PTRS_PER_BLOCK);
      if l1 == 0 then 0 else IndirectAt(disk, l1, j % PTRS_PER_BLOCK)
    else 0
  }

  // ------------------------------------------------------------------ directories

  const DOT: seq<u8> := [46]
  const DOTDOT: seq<u8> := [46, 46]

  /** A byte buffer read as a C string stops at its first zero byte. */
  function CStr(name: seq<u8>): seq<u8> {
    if name == [] || name[0] == 0 then [] else [name[0]] + CStr(name[1..])
  }

  predicate IsDot(e: Rec, self: nat) {
    CStr(e.name) == DOT || (|e.name| == 1 && e.ftype == FT_DIR && e.ino == self)
  }

  predicate IsDotDot(e: Rec) {
    CStr(e.name) == DOTDOT || (|e.name| == 2 && e.ftype == FT_DIR && e.name[0] == 0)
  }

  predicate Loaded(fs: Fs) {
    |fs.inodes| == fs.sb.inodeCount && forall i :: 0 <= i < |fs.inodes| ==> |fs.inodes[i].direct| == 12
  }

  ghost function Unvisited(fs: Fs, r: Res): nat {
    |Below(|fs.inodes|) - r.visited|
  }

  lemma VisitDecreases(fs: Fs, r: Res, r': Res, ino: nat)
    requires ino < |fs.inodes| && ino !in r.visited && r.visited + {ino} <= r'.visited
    ensures Unvisited(fs, r') < Unvisited(fs, r)
  {
    var a, b := Below(|fs.inodes|) - r.visited, Below(|fs.inodes|) - r'.visited;
    assert b <= a - {ino};
    SubsetSize(b, a - {ino});
  }

  lemma VisitedGrows(fs: Fs, r: Res, r': Res)
    requires r.visited <= r'.visited
    ensures Unvisited(fs, r') <= Unvisited(fs, r)
  {
    SubsetSize(Below(|fs.inodes|) - r'.visited, Below(|fs.inodes|) - r.visited);
  }

  function Finish(r: Res, dot: bool, dotdot: bool): Res {
    Report(r, (if dot then 0 else 1) + (if dotdot then 0 else 1), 0)
  }

  function CheckDir(fs: Fs, r: Res, ino: nat): (r': Res)
    requires Covers(fs, r) && Loaded(fs) && ino < |fs.inodes|
    ensures Covers(fs, r') && r.visited <= r'.visited && r.errors <= r'.errors
    decreases Unvisited(fs, r), 0
  {
    if ino in r.visited then Report(r, 1, 0) else
    var inode := fs.inodes[ino];
    var r1 := r.(visited := r.visited + {ino});
    if inode.mode / 0x1000 % 0x10 * 0x1000 != TYPE_DIR then Report(r1, 1, 0) else
    var r2 := CheckBlocks(fs, r1, ino);
    if inode.size == 0 || inode.direct[0] == 0 then Report(r2, 1, 0) else
    VisitDecreases(fs, r, r2, ino);
    CheckEntries(fs, r2, ino, Read(fs.disk, inode.direct[0]), 0, false, false)
  }

  function CheckEntries(fs: Fs, r: Res, self: nat, data: Block, pos: nat, dot: bool, dotdot: bool): (r': Res)
    requires Covers(fs, r) && Loaded(fs) && self < |fs.inodes|
    ensures Covers(fs, r') && r.visited <= r'.visited && r.errors <= r'.errors
    decreases Unvisited(fs, r), 1 + if pos < BLOCK_SIZE then BLOCK_SIZE - pos else 0
  {
    if pos >= fs.inodes[self].size || pos >= BLOCK_SIZE then Finish(r, dot, dotdot) else
    var e := RecAt(data, pos);
    if e.len == 0 || e.len > BLOCK_SIZE - pos then Finish(Report(r, 1, 0), dot, dotdot) else
    var r1 := CheckEntry(fs, r, self, e);
    VisitedGrows(fs, r, r1);
    CheckEntries(fs, r1, self, data, pos + e.len,
                 dot || (e.ino != 0 && IsDot(e, self)), dotdot || (e.ino != 0 && !IsDot(e, self) && IsDotDot(e)))
  }

  function CheckEntry(fs: Fs, r: Res, self: nat, e: Rec): (r': Res)
    requires Covers(fs, r) && Loaded(fs) && self < |fs.inodes|
    ensures Covers(fs, r') && r.visited <= r'.visited && r.errors <= r'.errors
    decreases Unvisited(fs, r), 1
  {
    if e.ino == 0 then r
    else if IsDot(e, self) then Report(r, (if CStr(e.name) == DOT then 0 else 1) + (if e.ino == self then 0 else 1), 0)
    else if IsDotDot(e) then Report(r, if CStr(e.name) == DOTDOT then 0 else 1, 0)
    else if e.ino >= fs.sb.inodeCount || fs.inodes[e.ino].num == 0 || e.ino == self then Report(r, 1, 0)
    else if e.ftype == FT_DIR then CheckDir(fs, r, e.ino)
    else if e.ftype == FT_FILE || e.ftype == FT_LINK then
      var r1 := CheckBlocks(fs, r, e.ino);
      r1.(visited := r1.visited + {e.ino})
    else r
  }

  // ------------------------------------------------------------------- whole check

  function CountOrphans(inodes: seq<Inode>, visited: set<nat>, n: nat): nat
    requires n <= |inodes|
  {
    if n <= ROOT_INODE then 0
    else CountOrphans(inodes, visited, n - 1) + if inodes[n - 1].num != 0 && n - 1 !in visited then 1 else 0
  }

  function CheckTree(fs: Fs, r: Res): (r': Res)
    requires Covers(fs, r) && Loaded(fs) && fs.sb.root < |fs.inodes|
    ensures Covers(fs, r')
  {
    if fs.inodes[fs.sb.root].num == 0 then Report(r, 1, 0) else
    var r1 := CheckDir(fs, r, fs.sb.root);
    Report(r1, 0, CountOrphans(fs.inodes, r1.visited, |fs.inodes|))
  }

  ghost function Shared(r: Res): set<nat> {
    set b | b in r.owners && |r.owners[b]| > 1
  }

  /** Blocks below `n` that are claimed but marked free, and data blocks marked used but not claimed. */
  function UsedButFree(fs: Fs, r: Res, n: nat): nat
    requires n <= 8 * |r.computed| && n <= 8 * |fs.bitmap|
  {
    if n == 0 then 0
    else UsedButFree(fs, r, n - 1) + if Bit(r.computed, n - 1) && !Bit(fs.bitmap, n - 1) then 1 else 0
  }

  function FreeButUsed(fs: Fs, r: Res, n: nat): nat
    requires n <= 8 * |r.computed| && n <= 8 * |fs.bitmap|
  {
    if n == 0 then 0
    else FreeButUsed(fs, r, n - 1) +
         if !Bit(r.computed, n - 1) && Bit(fs.bitmap, n - 1) && n - 1 >= fs.sb.dataStart then 1 else 0
  }

  function CountUsed(bitmap: seq<u8>, n: nat): nat
    requires n <= 8 * |bitmap|
  {
    if n == 0 then 0 else CountUsed(bitmap, n - 1) + if Bit(bitmap, n - 1) then 1 else 0
  }

  /** At most ten mismatches of either kind are reported one by one. */
  ghost function CheckAllocation(fs: Fs, r: Res): Res
    requires Covers(fs, r) && fs.sb.total <= 8 * |fs.bitmap|
  {
    Report(r, |Shared(r)| + Min(10, UsedButFree(fs, r, fs.sb.total)),
           Min(10, FreeButUsed(fs, r, fs.sb.total)) +
           if fs.sb.total - CountUsed(fs.bitmap, fs.sb.total) == fs.sb.free then 0 else 1)
  }

  // ------------------------------------------------------------------ loading

  predicate SuperUsable(sb: Super) {
    sb.magic == MAGIC && sb.blockSize == BLOCK_SIZE
  }

  function SuperErrors(sb: Super): nat {
    (if sb.tableStart == (sb.bitmapStart + sb.bitmapBlocks) % U64 then 0 else 1) +
    (if sb.dataStart == (sb.tableStart + sb.tableBlocks) % U64 then 0 else 1)
  }

  function SuperWarnings(sb: Super): nat {
    (if sb.version == VERSION then 0 else 1) + (if sb.bitmapStart == 1 then 0 else 1) +
    (if sb.root == ROOT_INODE then 0 else 1)
  }

  /** The superblock is usable and the bitmap and inode table can be read. */
  predicate Opens(disk: seq<Block>) {
    |disk| > 0 &&
    var sb := SuperOf(disk[0]);
    && SuperUsable(sb)
    && (sb.bitmapBlocks == 0 || sb.bitmapStart + sb.bitmapBlocks <= |disk|)
    && (sb.tableBlocks == 0 || sb.tableStart + sb.tableBlocks <= |disk|)
  }

  function Load(disk: seq<Block>): (fs: Fs)
    requires Opens(disk)
    ensures Loaded(fs)
  {
    var sb := SuperOf(disk[0]);
    Fs(disk, sb,
       seq(sb.inodeCount, i requires 0 <= i < sb.inodeCount =>
             if i / INODES_PER_BLOCK < sb.tableBlocks
             then InodeOf(disk[sb.tableStart + i / INODES_PER_BLOCK], i % INODES_PER_BLOCK) else ZeroInode),
       seq(sb.bitmapBlocks * BLOCK_SIZE, i requires 0 <= i < sb.bitmapBlocks * BLOCK_SIZE =>
             disk[sb.bitmapStart + i / BLOCK_SIZE][i % BLOCK_SIZE]))
  }

  function CountMisnumbered(inodes: seq<Inode>, n: nat): nat
    requires n <= |inodes|
  {
    if n == 0 then 0
    else CountMisnumbered(inodes, n - 1) + if inodes[n - 1].num != 0 && inodes[n - 1].num != n - 1 then 1 else 0
  }

  function MarkFirst(bitmap: seq<u8>, n: nat): (r: seq<u8>)
    requires n <= 8 * |bitmap|
    ensures |r| == |bitmap|
  {
    if n == 0 then bitmap else SetBit(MarkFirst(bitmap, n - 1), n - 1)
  }

  /** What the checker takes for granted: its root is in the table and the bitmap covers every block. */
  predicate Checkable(fs: Fs) {
    Loaded(fs) && fs.sb.root < |fs.inodes| && fs.sb.total <= 8 * |fs.bitmap|
  }

  function Start(fs: Fs): (r: Res)
    requires Checkable(fs)
    ensures Covers(fs, r)
  {
    Res(SuperErrors(fs.sb), SuperWarnings(fs.sb) + CountMisnumbered(fs.inodes, |fs.inodes|), {}, map[],
        MarkFirst(Zeros(|fs.bitmap|), Min(fs.sb.dataStart, fs.sb.total)))
  }

  /** The state a completed check ends in. */
  ghost function Checked(fs: Fs): Res
    requires Checkable(fs)
  {
    CheckAllocation(fs, CheckTree(fs, Start(fs)))
  }
}

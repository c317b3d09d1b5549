/** The value of a `DiskImage`, the directory tree it stores, and how the two agree. */
module MkfsImage {
  import opened ViperFormat
  import opened Mkfs
  import opened Fsck

  const DIRECT := 12

  /** The fields of a `DiskImage`; the output file is a sequence of blocks, zero where never written. */
  datatype Img = Img(total: nat, bitmapBlocks: nat, tableBlocks: nat, disk: seq<Block>, bitmap: seq<u8>,
                     inodes: seq<Inode>, nextBlock: nat, nextInode: nat, used: nat)

  function DataStart(img: Img): nat {
    1 + img.bitmapBlocks + img.tableBlocks
  }

  /** The stored tree, by inode number: inodes 0 and 1 are reserved. Inode `i` owns the blocks from
      `start[i]` up to `start[i + 1]`. */
  datatype Node = Unused | Dir(parent: nat, kids: seq<Ent>) | File(data: seq<u8>)

  /** `par[i]` is the directory that lists inode `i`, or 0 if none does. */
  datatype Tree = Tree(nodes: seq<Node>, start: seq<nat>, par: seq<nat>)

  // --------------------------------------------------------------------- file data

  function Chunks(size: nat): nat {
    (size + BLOCK_SIZE - 1) / BLOCK_SIZE
  }

  /** The `k`-th 4096-byte chunk of a file, padded with zeros. */
  function Chunk(data: seq<u8>, k: nat): Block
    requires k < Chunks(|data|)
  {
    var hi := if BLOCK_SIZE * (k + 1) <= |data| then BLOCK_SIZE * (k + 1) else |data|;
    data[BLOCK_SIZE * k..hi] + Zeros(BLOCK_SIZE * (k + 1) - hi)
  }

  /** Chunks the writer stores: twelve directly and at most 512 through the indirect block. */
  function Stored(size: nat): nat {
    if Chunks(size) <= DIRECT + PTRS_PER_BLOCK then Chunks(size) else DIRECT + PTRS_PER_BLOCK
  }

  /** Where chunk `k` of a file goes: the indirect block takes the place after the direct blocks. */
  function Place(lo: nat, k: nat): nat {
    if k < DIRECT then lo + k else lo + k + 1
  }

  function Span(size: nat): nat {
    if Stored(size) <= DIRECT then Stored(size) else Stored(size) + 1
  }

  function DirectOf(lo: nat, n: nat): (d: seq<nat>)
    ensures |d| == 12
  {
    seq(12, k requires 0 <= k < 12 => if k < n then lo + k else 0)
  }

  function IndirectPtr(lo: nat, n: nat, k: nat): nat {
    if DIRECT + k < n then Place(lo, DIRECT + k) else 0
  }

  function IndirectOf(lo: nat, n: nat): (d: seq<nat>)
    ensures |d| == PTRS_PER_BLOCK
  {
    seq(PTRS_PER_BLOCK, k requires 0 <= k < PTRS_PER_BLOCK => IndirectPtr(lo, n, k))
  }

  function FileInode(ino: nat, size: nat, time: nat, lo: nat): Inode {
    Inode(ino, MODE_FILE, size, Chunks(size), time, DirectOf(lo, Stored(size)),
          if Stored(size) > DIRECT then lo + DIRECT else 0, 0)
  }

  function DirInode(ino: nat, time: nat, lo: nat): Inode {
    Inode(ino, MODE_DIR, BLOCK_SIZE, 1, time, DirectOf(lo, 1), 0, 0)
  }

  // --------------------------------------------------------------------- invariant

  /** Blocks are handed out in order: exactly those below `nextBlock` are marked used. */
  predicate BitsBelow(img: Img) {
    forall b: nat :: b < 8 * |img.bitmap| ==> (Bit(img.bitmap, b) <==> b < img.nextBlock)
  }

  predicate Geometry(img: Img) {
    && |img.disk| == img.total < 0x80_0000_0000
    && |img.bitmap| == img.bitmapBlocks * BLOCK_SIZE && img.total <= 8 * |img.bitmap|
    && |img.inodes| == img.tableBlocks * INODES_PER_BLOCK
    && DataStart(img) < img.total
    && DataStart(img) <= img.nextBlock <= img.total
    && img.used == img.nextBlock
    && 3 <= img.nextInode
  }

  function DirEntries(i: nat, n: Node): seq<Ent>
    requires n.Dir?
  {
    DotEntries(i, n.parent) + n.kids
  }

  predicate ChunkAt(img: Img, data: seq<u8>, lo: nat, k: nat) {
    k < Chunks(|data|) ==> Place(lo, k) < |img.disk| && img.disk[Place(lo, k)] == Chunk(data, k)
  }

  predicate HoldsFile(img: Img, i: nat, data: seq<u8>, lo: nat, hi: nat)
    requires i < |img.inodes| && hi <= |img.disk|
  {
    && |data| < U64 - BLOCK_SIZE
    && hi == lo + Span(|data|)
    && img.inodes[i] == FileInode(i, |data|, img.inodes[i].time, lo)
    && (forall k: nat :: k < Stored(|data|) ==> ChunkAt(img, data, lo, k))
    && (Stored(|data|) > DIRECT ==> img.disk[lo + DIRECT] == Pack(IndirectOf(lo, Stored(|data|))))
  }

  predicate HoldsDir(img: Img, i: nat, n: Node, lo: nat, hi: nat)
    requires i < |img.inodes| && hi <= |img.disk| && n.Dir?
  {
    && hi == lo + 1
    && img.inodes[i] == DirInode(i, img.inodes[i].time, lo)
    && Tiles(img.disk[lo], DirEntries(i, n), 0)
  }

  /** Node `n` is what inode `i` and the blocks from `lo` to `hi` store. */
  predicate Holds(img: Img, i: nat, n: Node, lo: nat, hi: nat)
    requires |img.disk| == img.total
  {
    && i < |img.inodes| && DataStart(img) <= lo <= hi <= img.total
    && img.inodes[i].time < U64
    && (n.Unused? ==> img.inodes[i] == ZeroInode && lo == hi)
    && (n.Dir? ==> HoldsDir(img, i, n, lo, hi))
    && (n.File? ==> HoldsFile(img, i, n.data, lo, hi))
  }

  predicate HoldsAt(img: Img, tree: Tree, i: nat)
    requires |tree.start| == |tree.nodes| + 1 && i < |tree.nodes| && |img.disk| == img.total
  {
    Holds(img, i, tree.nodes[i], tree.start[i], tree.start[i + 1])
  }

  predicate Stores(img: Img, tree: Tree) {
    && Geometry(img) && BitsBelow(img)
    && |tree.nodes| == img.nextInode <= |img.inodes|
    && |tree.start| == |tree.nodes| + 1
    && tree.start[0] == DataStart(img)
    && tree.start[|tree.nodes|] == img.nextBlock
    && (forall i: nat :: i < |tree.nodes| ==> HoldsAt(img, tree, i))
    && (forall i :: |tree.nodes| <= i < |img.inodes| ==> img.inodes[i] == ZeroInode)
  }

  // ------------------------------------------------------------------ tree updates

  predicate IsDir(tree: Tree, i: nat) {
    ROOT_INODE <= i < |tree.nodes| && tree.nodes[i].Dir?
  }

  function AddNode(tree: Tree, n: Node, par: nat, hi: nat): Tree {
    Tree(tree.nodes + [n], tree.start + [hi], tree.par + [par])
  }

  function AddKid(tree: Tree, p: nat, e: Ent): Tree
    requires IsDir(tree, p)
  {
    tree.(nodes := tree.nodes[p := tree.nodes[p].(kids := tree.nodes[p].kids + [e])])
  }

  /** A node only depends on its inode and its own blocks. */
  lemma HoldsFrame(img: Img, img': Img, i: nat, n: Node, lo: nat, hi: nat)
    requires |img.disk| == img.total == img'.total == |img'.disk| && DataStart(img') == DataStart(img)
    requires Holds(img, i, n, lo, hi) && i < |img'.inodes| && img'.inodes[i] == img.inodes[i]
    requires forall b :: lo <= b < hi ==> img'.disk[b] == img.disk[b]
    ensures Holds(img', i, n, lo, hi)
  {
    if n.File? {
      forall k: nat | k < Stored(|n.data|) ensures ChunkAt(img', n.data, lo, k) {
        assert ChunkAt(img, n.data, lo, k);
        assert lo <= Place(lo, k) < hi;
      }
    }
  }

  lemma {:induction false} StartMonotone(img: Img, tree: Tree, i: nat, j: nat)
    requires Stores(img, tree) && i <= j <= |tree.nodes|
    ensures DataStart(img) <= tree.start[i] <= tree.start[j] <= img.nextBlock
    decreases j - i, |tree.nodes| - j
  {
    if i < j {
      assert HoldsAt(img, tree, i);
      StartMonotone(img, tree, i + 1, j);
    } else if j < |tree.nodes| {
      assert HoldsAt(img, tree, j);
      StartMonotone2(img, tree, j);
    } else if i > 0 {
      assert HoldsAt(img, tree, i - 1);
    }
  }

  lemma {:induction false} StartMonotone2(img: Img, tree: Tree, j: nat)
    requires Stores(img, tree) && j <= |tree.nodes|
    ensures tree.start[j] <= img.nextBlock
    decreases |tree.nodes| - j
  {
    if j < |tree.nodes| {
      assert HoldsAt(img, tree, j);
      StartMonotone2(img, tree, j + 1);
    }
  }

  /** Adding a node behind the others keeps them: its inode and blocks are new. */
  lemma AddNodeStores(img: Img, img': Img, tree: Tree, n: Node, par: nat)
    requires Stores(img, tree) && Geometry(img') && BitsBelow(img')
    requires img'.total == img.total && img'.bitmapBlocks == img.bitmapBlocks && img'.tableBlocks == img.tableBlocks
    requires img'.nextInode == img.nextInode + 1 <= |img.inodes|
    requires img'.inodes == img.inodes[img.nextInode := img'.inodes[img.nextInode]]
    requires forall b :: 0 <= b < img.nextBlock ==> img'.disk[b] == img.disk[b]
    requires Holds(img', img.nextInode, n, img.nextBlock, img'.nextBlock)
    ensures Stores(img', AddNode(tree, n, par, img'.nextBlock))
  {
    var tree' := AddNode(tree, n, par, img'.nextBlock);
    forall i: nat | i < |tree'.nodes| ensures HoldsAt(img', tree', i) {
      if i < |tree.nodes| {
        assert HoldsAt(img, tree, i);
        StartMonotone(img, tree, i + 1, |tree.nodes|);
        HoldsFrame(img, img', i, tree.nodes[i], tree.start[i], tree.start[i + 1]);
      }
    }
  }

  /** Rewriting one directory block changes that directory only. */
  lemma AddKidStores(img: Img, tree: Tree, p: nat, e: Ent)
    requires Stores(img, tree) && IsDir(tree, p) && EntFits(e)
    requires Used(DirEntries(p, tree.nodes[p])) + Need(e.name) <= BLOCK_SIZE
    ensures var lo := tree.start[p];
            && lo < |img.disk| && Tiles(img.disk[lo], DirEntries(p, tree.nodes[p]), 0)
            && EntFits(DirEntries(p, tree.nodes[p])[|DirEntries(p, tree.nodes[p])| - 1])
            && Stores(img.(disk := img.disk[lo := AppendEnt(img.disk[lo], DirEntries(p, tree.nodes[p]), 0, e)]), AddKid(tree, p, e))
  {
    assert HoldsAt(img, tree, p);
    var lo, ents := tree.start[p], DirEntries(p, tree.nodes[p]);
    TilesFits(img.disk[lo], ents, 0);
    AppendTiles(img.disk[lo], ents, 0, e);
    var b := AppendEnt(img.disk[lo], ents, 0, e);
    var img', tree' := img.(disk := img.disk[lo := b]), AddKid(tree, p, e);
    assert DirEntries(p, tree'.nodes[p]) == ents + [e];
    forall i: nat | i < |tree'.nodes| ensures HoldsAt(img', tree', i) {
      assert HoldsAt(img, tree, i);
      if i != p {
        Disjoint(img, tree, i, p);
        HoldsFrame(img, img', i, tree.nodes[i], tree.start[i], tree.start[i + 1]);
      }
    }
  }

  lemma Disjoint(img: Img, tree: Tree, i: nat, j: nat)
    requires Stores(img, tree) && i < |tree.nodes| && j < |tree.nodes| && i != j
    ensures tree.start[i + 1] <= tree.start[j] || tree.start[j + 1] <= tree.start[i]
  {
    if i < j { StartMonotone(img, tree, i + 1, j); } else { StartMonotone(img, tree, j + 1, i); }
  }

  // ------------------------------------------------------------------- tree shape

  /** The name fits the length byte, and nobody takes it for `.` or `..`. */
  predicate NameOk(name: seq<u8>) {
    |name| < 256 && CStr(name) != Dot && CStr(name) != DotDot && !(|name| == 2 && name[0] == 0)
  }

  lemma NotDots(name: seq<u8>)
    requires NameOk(name)
    ensures name != Dot && name != DotDot
  {
    assert CStr(Dot) == Dot && CStr(DotDot) == DotDot by { assert [46, 46][1..] == [46] && [46][1..] == []; }
  }

  lemma {:induction false} PlainCStr(name: seq<u8>)
    requires forall k :: 0 <= k < |name| ==> name[k] != 0
    ensures CStr(name) == name
  {
    if name != [] { PlainCStr(name[1..]); }
  }

  /** Every C string that fits the length byte is usable, except `.` and `..`. */
  lemma PlainNameOk(name: seq<u8>)
    requires |name| < 256 && name != Dot && name != DotDot && forall k :: 0 <= k < |name| ==> name[k] != 0
    ensures NameOk(name)
  {
    PlainCStr(name);
  }

  predicate KidOk(tree: Tree, d: nat, e: Ent)
    requires |tree.par| == |tree.nodes|
  {
    && 3 <= e.ino < |tree.nodes| && tree.par[e.ino] == d
    && e.ftype == (if tree.nodes[e.ino].Dir? then FT_DIR else FT_FILE)
    && NameOk(e.name)
  }

  predicate KidsOk(tree: Tree, d: nat)
    requires |tree.par| == |tree.nodes|
  {
    IsDir(tree, d) ==>
      && (forall e :: e in tree.nodes[d].kids ==> KidOk(tree, d, e))
      && (forall j, k :: 0 <= j < k < |tree.nodes[d].kids| ==> tree.nodes[d].kids[j].ino < tree.nodes[d].kids[k].ino)
  }

  predicate Listed(kids: seq<Ent>, i: nat) {
    exists k :: 0 <= k < |kids| && kids[k].ino == i
  }

  /** The inode is the root or listed somewhere. */
  predicate Attached(tree: Tree, i: nat) {
    i == ROOT_INODE || (3 <= i < |tree.par| && tree.par[i] != 0)
  }

  predicate PlacedAt(tree: Tree, i: nat)
    requires |tree.par| == |tree.nodes|
  {
    3 <= i < |tree.nodes| ==>
      && !tree.nodes[i].Unused?
      && (tree.par[i] != 0 ==>
            && (tree.nodes[i].Dir? ==> tree.nodes[i].parent == tree.par[i])
            && tree.par[i] < i && IsDir(tree, tree.par[i]) && Attached(tree, tree.par[i])
            && Listed(tree.nodes[tree.par[i]].kids, i))
  }

  /** Every inode above the root is in use; it is listed once, in one attached directory with a smaller
      number, or nowhere. */
  ghost predicate Shape(tree: Tree) {
    && |tree.par| == |tree.nodes| >= 3
    && tree.nodes[0].Unused? && tree.nodes[1].Unused? && IsDir(tree, ROOT_INODE)
    && (forall d: nat :: KidsOk(tree, d))
    && (forall i: nat :: PlacedAt(tree, i))
  }

  /** No inode was left unlisted. */
  predicate AllListed(tree: Tree) {
    forall i :: 3 <= i < |tree.par| ==> tree.par[i] != 0
  }

  /** Creating a node and listing it in an attached directory keeps the shape. */
  lemma AddShape(tree: Tree, n: Node, p: nat, hi: nat, e: Ent)
    requires Shape(tree) && IsDir(tree, p) && Attached(tree, p) && !n.Unused? && (n.Dir? ==> n == Dir(p, []))
    requires e.ino == |tree.nodes| && e.ftype == (if n.Dir? then FT_DIR else FT_FILE) && NameOk(e.name)
    ensures IsDir(AddNode(tree, n, p, hi), p)
    ensures Shape(AddKid(AddNode(tree, n, p, hi), p, e))
  {
    var t1 := AddNode(tree, n, p, hi);
    var t2 := AddKid(t1, p, e);
    forall d: nat ensures KidsOk(t2, d) {
      assert KidsOk(tree, d);
      if IsDir(t2, d) && d < |tree.nodes| {
        forall f | f in t2.nodes[d].kids ensures KidOk(t2, d, f) {
          if f != e || d != p { assert f in tree.nodes[d].kids && KidOk(tree, d, f); }
        }
        var kids := t2.nodes[d].kids;
        forall j, k | 0 <= j < k < |kids| ensures kids[j].ino < kids[k].ino {
          assert kids[j] == tree.nodes[d].kids[j] && kids[j] in tree.nodes[d].kids && KidOk(tree, d, kids[j]);
        }
      }
    }
    forall i: nat ensures PlacedAt(t2, i) {
      assert PlacedAt(tree, i);
      if 3 <= i < |tree.nodes| && tree.par[i] != 0 {
        var k :| 0 <= k < |tree.nodes[tree.par[i]].kids| && tree.nodes[tree.par[i]].kids[k].ino == i;
        assert t2.nodes[t2.par[i]].kids[k].ino == i;
      } else if i == |tree.nodes| {
        var last := |tree.nodes[p].kids|;
        assert t2.nodes[p].kids[last] == e;
      }
    }
  }

  /** Creating a node that no directory lists keeps the shape too. */
  lemma AddUnlistedShape(tree: Tree, n: Node, hi: nat)
    requires Shape(tree) && !n.Unused? && (n.Dir? ==> n.kids == [])
    ensures Shape(AddNode(tree, n, 0, hi))
  {
    var t := AddNode(tree, n, 0, hi);
    forall d: nat ensures KidsOk(t, d) {
      assert KidsOk(tree, d);
      if IsDir(t, d) && d < |tree.nodes| {
        forall f | f in t.nodes[d].kids ensures KidOk(t, d, f) { assert KidOk(tree, d, f); }
      }
    }
    forall i: nat ensures PlacedAt(t, i) { assert PlacedAt(tree, i); }
  }

  // ------------------------------------------------------------------ finished image

  function FinalSuper(img: Img): Super
    requires img.used <= img.total
  {
    Super(MAGIC, VERSION, BLOCK_SIZE, img.total, img.total - img.used, img.tableBlocks * INODES_PER_BLOCK, ROOT_INODE,
          1, img.bitmapBlocks, 1 + img.bitmapBlocks, img.tableBlocks, DataStart(img))
  }

  function BitmapBlock(bitmap: seq<u8>, j: nat): Block
    requires BLOCK_SIZE * (j + 1) <= |bitmap|
  {
    bitmap[BLOCK_SIZE * j..BLOCK_SIZE * (j + 1)]
  }

  /** The last byte of the image is set to zero to extend the file to its full size. */
  function ZeroLast(b: Block): Block {
    b[BLOCK_SIZE - 1 := 0]
  }

  function FinalBlock(img: Img, b: nat): Block
    requires Geometry(img) && TableFits(img.inodes) && b < img.total
  {
    if b == 0 then SuperBlock(FinalSuper(img))
    else if b <= img.bitmapBlocks then BitmapBlock(img.bitmap, b - 1)
    else if b < DataStart(img) then InodeBlock(img.inodes, b - 1 - img.bitmapBlocks)
    else if b == img.total - 1 then ZeroLast(img.disk[b])
    else img.disk[b]
  }

  /** The image file after the superblock was rewritten and `finalize` ran. */
  function FinalDisk(img: Img): (d: seq<Block>)
    requires Geometry(img) && TableFits(img.inodes)
    ensures |d| == img.total && forall b :: 0 <= b < img.total ==> d[b] == FinalBlock(img, b)
  {
    seq(img.total, b requires 0 <= b < img.total => FinalBlock(img, b))
  }
}

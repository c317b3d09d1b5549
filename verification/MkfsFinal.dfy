/** What a finished image holds: metadata at its place, and every file readable through its inode. */
module MkfsFinal {
  import opened ViperFormat
  import opened Fsck
  import opened MkfsImage
  import opened MkfsClip
  import opened Agreement
  import opened Resolve

  /** Extending the file loses no stored byte. */
  predicate LastByteKept(img: Img)
    requires Geometry(img)
  {
    img.nextBlock < img.total || img.disk[img.total - 1][BLOCK_SIZE - 1] == 0
  }

  lemma StoredFits(img: Img, tree: Tree)
    requires Stores(img, tree)
    ensures TableFits(img.inodes)
  {
    forall i | 0 <= i < |img.inodes| ensures InodeFits(img.inodes[i]) {
      if i < |tree.nodes| {
        assert HoldsAt(img, tree, i);
        InodeFitsAt(img, i, tree.nodes[i], tree.start[i], tree.start[i + 1]);
      }
    }
  }

  lemma InodeFitsAt(img: Img, i: nat, n: Node, lo: nat, hi: nat)
    requires Geometry(img) && Holds(img, i, n, lo, hi)
    ensures InodeFits(img.inodes[i])
  {
    if n.File? {
      assert Chunks(|n.data|) <= |n.data|;
      var d := DirectOf(lo, Stored(|n.data|));
      forall k | 0 <= k < 12 ensures d[k] < U64 { }
    }
  }

  /** Data blocks survive finalisation exactly when the last byte does. */
  lemma DataSurvives(img: Img)
    requires Geometry(img) && TableFits(img.inodes)
    ensures LastByteKept(img) <==> forall b :: DataStart(img) <= b < img.nextBlock ==> FinalDisk(img)[b] == img.disk[b]
  {
    var last := img.total - 1;
    if LastByteKept(img) {
      forall b | DataStart(img) <= b < img.nextBlock ensures FinalDisk(img)[b] == img.disk[b] {
        if b == last { assert ZeroLast(img.disk[b]) == img.disk[b]; }
      }
    } else {
      assert FinalDisk(img)[last][BLOCK_SIZE - 1] == 0 != img.disk[last][BLOCK_SIZE - 1];
    }
  }

  lemma SuperLoads(img: Img)
    requires Geometry(img) && TableFits(img.inodes)
    ensures SuperOf(FinalDisk(img)[0]) == FinalSuper(img) && Opens(FinalDisk(img))
  {
    SuperRoundTrip(FinalSuper(img));
  }

  lemma InodesLoad(img: Img)
    requires Geometry(img) && TableFits(img.inodes) && Opens(FinalDisk(img)) && SuperOf(FinalDisk(img)[0]) == FinalSuper(img)
    ensures Load(FinalDisk(img)).inodes == img.inodes
  {
    hide InodeOf, InodeBlock, SuperOf;
    var d := FinalDisk(img);
    forall i | 0 <= i < |img.inodes| ensures Load(d).inodes[i] == img.inodes[i] {
      var j, k := i / INODES_PER_BLOCK, i % INODES_PER_BLOCK;
      assert j < img.tableBlocks;
      assert d[1 + img.bitmapBlocks + j] == InodeBlock(img.inodes, j);
      InodeBlockAt(img.inodes, j, k);
    }
  }

  lemma BitmapLoads(img: Img)
    requires Geometry(img) && TableFits(img.inodes) && Opens(FinalDisk(img)) && SuperOf(FinalDisk(img)[0]) == FinalSuper(img)
    ensures Load(FinalDisk(img)).bitmap == img.bitmap
  {
    var d := FinalDisk(img);
    forall i | 0 <= i < |img.bitmap| ensures Load(d).bitmap[i] == img.bitmap[i] {
      var j := i / BLOCK_SIZE;
      assert j < img.bitmapBlocks;
      assert d[1 + j] == BitmapBlock(img.bitmap, j);
    }
  }

  /** The checker loads what the writer wrote, less the last byte. */
  lemma FinalIsFinished(img: Img, tree: Tree)
    requires Stores(img, tree) && Shape(tree)
    ensures TableFits(img.inodes) && Opens(FinalDisk(img))
    ensures Finished(Zeroed(img), Clipped(img.total, tree), Load(FinalDisk(img)))
  {
    StoredFits(img, tree);
    SuperLoads(img);
    InodesLoad(img);
    BitmapLoads(img);
    ClippedStores(img, tree);
    ClippedShape(img.total, tree);
    hide Stores, Shape, Clipped, Load, Opens;
    SameFinal(img);
    DataSurvives(Zeroed(img));
    LoadedFrom(FinalDisk(img));
  }

  lemma LoadedFrom(d: seq<Block>)
    requires Opens(d)
    ensures Load(d).disk == d && Load(d).sb == SuperOf(d[0])
  {
  }

  /** Writer and checker agree: the checker reports no error on a finished image, and no warning either exactly
      when every inode in use is listed. That the last byte was zeroed makes no difference to it. */
  lemma WriterPassesChecker(img: Img, tree: Tree)
    requires Stores(img, tree) && Shape(tree) && tree.nodes[ROOT_INODE].parent == ROOT_INODE
    ensures TableFits(img.inodes) && Opens(FinalDisk(img))
    ensures var fs := Load(FinalDisk(img));
            Checkable(fs) && Checked(fs).errors == 0 && (Checked(fs).warnings == 0 <==> AllListed(tree))
  {
    FinalIsFinished(img, tree);
    ClippedShape(img.total, tree);
    FinishedIsClean(Zeroed(img), Clipped(img.total, tree), Load(FinalDisk(img)));
  }

  /** Writer and kernel agree: components are followed through a finished image as through the stored tree, less the
      last byte. */
  lemma KernelFollows(img: Img, tree: Tree, comps: seq<seq<u8>>)
    requires Stores(img, tree) && Shape(tree) && tree.nodes[ROOT_INODE].parent == ROOT_INODE
    ensures TableFits(img.inodes) && Opens(FinalDisk(img))
    ensures WalkFrom(Load(FinalDisk(img)), ROOT_INODE, comps) == TreeWalk(Clipped(img.total, tree), ROOT_INODE, comps)
  {
    FinalIsFinished(img, tree);
    WalkStored(Zeroed(img), Clipped(img.total, tree), Load(FinalDisk(img)), ROOT_INODE, comps);
  }

  // ----------------------------------------------------------------- file round trip

  lemma PointerResolves(d: seq<Block>, inode: Inode, lo: nat, k: nat)
    requires inode == FileInode(inode.num, inode.size, inode.time, lo) && k < Stored(inode.size) && 0 < lo
    requires Stored(inode.size) > 12 ==>
               lo + 12 < |d| && lo + Stored(inode.size) < U64 && d[lo + 12] == Pack(IndirectOf(lo, Stored(inode.size)))
    ensures BlockPtr(d, inode, k) == Place(lo, k)
  {
    if k >= 12 { WordsPack(IndirectOf(lo, Stored(inode.size))); }
  }

  /** Reading block `k` of a file through the checker's pointer resolution yields the `k`-th chunk, less the last byte
      of the image. */
  lemma ReadBack(img: Img, tree: Tree, i: nat, k: nat)
    requires Stores(img, tree) && i < |tree.nodes| && tree.nodes[i].File? && k < Stored(|tree.nodes[i].data|)
    ensures TableFits(img.inodes) && i < |img.inodes| && |img.inodes[i].direct| == 12
    ensures var d, n := FinalDisk(img), Clipped(img.total, tree).nodes[i];
            var p := BlockPtr(d, img.inodes[i], k);
            n.File? && |n.data| == |tree.nodes[i].data| && 0 < p < |d| && d[p] == Chunk(n.data, k)
  {
    StoredFits(img, tree);
    ClippedStores(img, tree);
    SameFinal(img);
    var img', tree' := Zeroed(img), Clipped(img.total, tree);
    assert LastByteKept(img') && img'.inodes == img.inodes;
    assert tree'.nodes[i].File? && |tree'.nodes[i].data| == |tree.nodes[i].data|;
    hide Clipped, Zeroed, FinalDisk;
    KeptReadBack(img', tree', i, k);
  }

  lemma KeptReadBack(img: Img, tree: Tree, i: nat, k: nat)
    requires Stores(img, tree) && LastByteKept(img)
    requires i < |tree.nodes| && tree.nodes[i].File? && k < Stored(|tree.nodes[i].data|)
    ensures TableFits(img.inodes) && i < |img.inodes| && |img.inodes[i].direct| == 12
    ensures var d := FinalDisk(img);
            var p := BlockPtr(d, img.inodes[i], k);
            0 < p < |d| && d[p] == Chunk(tree.nodes[i].data, k)
  {
    assert HoldsAt(img, tree, i);
    StoredFits(img, tree);
    DataSurvives(img);
    var data, lo := tree.nodes[i].data, tree.start[i];
    StartMonotone(img, tree, i + 1, |tree.nodes|);
    assert ChunkAt(img, data, lo, k);
    assert lo <= Place(lo, k) < lo + Span(|data|);
    hide Words, FinalBlock;
    PointerResolves(FinalDisk(img), img.inodes[i], lo, k);
  }

  predicate Readable(d: seq<Block>, inode: Inode, data: seq<u8>, k: nat)
    requires |inode.direct| == 12 && k < Chunks(|data|)
  {
    BlockPtr(d, inode, k) != 0 && Read(d, BlockPtr(d, inode, k)) == Chunk(data, k)
  }

  /** A stored chunk reads back exactly unless it is the one that lost a byte. */
  lemma ChunkReadable(img: Img, tree: Tree, i: nat, k: nat)
    requires Stores(img, tree) && i < |tree.nodes| && tree.nodes[i].File? && k < Stored(|tree.nodes[i].data|)
    ensures TableFits(img.inodes) && i < |img.inodes| && |img.inodes[i].direct| == 12
    ensures Readable(FinalDisk(img), img.inodes[i], tree.nodes[i].data, k) <==>
              !(DataLostAt(img.total, tree, i) && k + 1 == Stored(|tree.nodes[i].data|))
  {
    var data := tree.nodes[i].data;
    ReadBack(img, tree, i, k);
    ChunkClip(data, k);
    hide Stores, FinalDisk, BlockPtr, Chunk;
    if OwnsLast(img.total, tree, i) { LastChunkByte(data, k); }
  }

  lemma LastChunkByte(data: seq<u8>, k: nat)
    requires k < Stored(|data|)
    ensures k < Chunks(|data|)
    ensures k + 1 == Stored(|data|) ==>
              (ZeroLast(Chunk(data, k)) == Chunk(data, k) <==>
                 !(BLOCK_SIZE * Stored(|data|) <= |data| && data[BLOCK_SIZE * Stored(|data|) - 1] != 0))
  {
    var c := Chunk(data, k);
    assert ZeroLast(c)[BLOCK_SIZE - 1] == 0;
    assert c[BLOCK_SIZE - 1] == 0 ==> ZeroLast(c) == c;
  }

  /** The whole file can be read back exactly when it has at most 12 + 512 blocks, the pointer of every later block
      being zero, and does not own the byte that is zeroed. */
  lemma ReadBackExactly(img: Img, tree: Tree, i: nat)
    requires Stores(img, tree) && i < |tree.nodes| && tree.nodes[i].File?
    ensures TableFits(img.inodes) && i < |img.inodes| && |img.inodes[i].direct| == 12
    ensures var d, data := FinalDisk(img), tree.nodes[i].data;
            (forall k: nat :: k < Chunks(|data|) ==> Readable(d, img.inodes[i], data, k)) <==>
              Chunks(|data|) <= 12 + 512 && !DataLostAt(img.total, tree, i)
  {
    StoredFits(img, tree);
    assert HoldsAt(img, tree, i);
    var d, data := FinalDisk(img), tree.nodes[i].data;
    if Chunks(|data|) <= 12 + 512 {
      forall k: nat | k < Chunks(|data|)
        ensures Readable(d, img.inodes[i], data, k) <==> !(DataLostAt(img.total, tree, i) && k + 1 == Chunks(|data|))
      {
        ChunkReadable(img, tree, i, k);
      }
      hide Readable;
      assert DataLostAt(img.total, tree, i) ==> !Readable(d, img.inodes[i], data, Chunks(|data|) - 1);
    } else {
      assert !Readable(d, img.inodes[i], data, 12 + 512);
    }
  }
}

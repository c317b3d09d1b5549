/** The image writer itself: `DiskImage` and the operations of tools/mkfs.viperfs.cpp, updating the image
    in place. Each does what the plan says it does, and fails exactly when the plan says so. */
module MkfsTool {
  import opened ViperFormat
  import opened Mkfs
  import opened MkfsImage
  import opened MkfsPaths
  import opened MkfsPlan

  class DiskImage {
    var total: nat
    var bitmapBlocks: nat
    var tableBlocks: nat
    var disk: seq<Block>
    var bitmap: seq<u8>
    var inodes: seq<Inode>
    var nextBlock: nat
    var nextInode: nat
    var used: nat
    var dirs: map<seq<u8>, nat>
    ghost var tree: Tree

    function Value(): Img
      reads this
    {
      Img(total, bitmapBlocks, tableBlocks, disk, bitmap, inodes, nextBlock, nextInode, used)
    }

    ghost function Here(): Site
      reads this
    {
      Site(tree, dirs)
    }

    ghost function Lim(): Limits
      reads this
    {
      Limits(total, |inodes|)
    }

    /** The image stores the tree, and every directory in the map is the one its path leads to. */
    ghost predicate Valid()
      reads this
    {
      Stores(Value(), tree) && Rooted(Here())
    }

    /** Lay out an empty image of `sizeMb` megabytes and reserve its metadata blocks. */
    constructor (sizeMb: nat)
      requires 1 <= sizeMb < 0x8000_0000
      ensures Blank(Value()) && dirs == map[]
      ensures total == BlocksOf(sizeMb) && bitmapBlocks == BitmapOf(sizeMb) && tableBlocks == TableOf(sizeMb)
    {
      var blocks := sizeMb * 1024 * 1024 / BLOCK_SIZE;
      var bits := (blocks + BLOCK_SIZE * 8 - 1) / (BLOCK_SIZE * 8);
      var tabs := if blocks / 64 + 1 < 4 then 4 else blocks / 64 + 1;
      total, bitmapBlocks, tableBlocks := blocks, bits, tabs;
      disk := seq(blocks, _ => Zeros(BLOCK_SIZE));
      inodes := seq(tabs * INODES_PER_BLOCK, _ => ZeroInode);
      bitmap := Zeros(bits * BLOCK_SIZE);
      used, nextBlock, nextInode := 1 + bits + tabs, 1 + bits + tabs, ROOT_INODE + 1;
      dirs := map[];
      tree := Tree([], [], []);
      new;
      LayoutFits(sizeMb, blocks, bits, tabs);
      Reserve(1 + bits + tabs);
    }

    /** Mark the first `n` blocks of a clear bitmap used. */
    method Reserve(n: nat)
      requires n <= 8 * |bitmap| && forall b: nat :: b < 8 * |bitmap| ==> !Bit(bitmap, b)
      modifies this`bitmap
      ensures |bitmap| == old(|bitmap|) && forall b: nat :: b < 8 * |bitmap| ==> (Bit(bitmap, b) <==> b < n)
    {
      hide Bit;
      for i := 0 to n
        invariant |bitmap| == old(|bitmap|)
        invariant forall b: nat :: b < 8 * |bitmap| ==> (Bit(bitmap, b) <==> b < i)
      {
        forall b: nat | b < 8 * |bitmap| ensures Bit(SetBit(bitmap, i), b) <==> b < i + 1 {
          SetBitAt(bitmap, i, b);
        }
        bitmap := SetBit(bitmap, i);
      }
    }

    /** The root directory: inode 2, its own parent. */
    method CreateRoot(now: nat) returns (ok: bool)
      requires Blank(Value()) && now < U64
      modifies this
      ensures ok && Valid() && Here() == FirstSite(DataStart(old(Value()))) && Lim() == old(Lim())
      ensures DataStart(Value()) == DataStart(old(Value()))
    {
      FirstRooted(DataStart(Value()));
      hide NewDirBlock, Tiles, Rooted;
      var b;
      ok, b := AllocWrite(NewDirBlock(ROOT_INODE, ROOT_INODE));
      inodes := inodes[ROOT_INODE := Inode(ROOT_INODE, MODE_DIR, BLOCK_SIZE, 1, now, NoPtrs[0 := b], 0, 0)];
      tree := FirstTree(b);
      DirHeld(Value(), ROOT_INODE, ROOT_INODE, b);
      RootTree(Value(), tree, b);
      hide Stores;
      dirs := map[[] := ROOT_INODE];
    }

    /** The inode of a directory path, creating it and its parents where missing: the one the path leads to. */
    method EnsureDirectory(path: seq<u8>, now: nat) returns (r: Made)
      requires Valid() && Sited(Here()) && now < U64 && PathOk(path)
      modifies this
      ensures r == Ensure(old(Lim()), old(Here()), path).1 && Lim() == old(Lim())
      ensures r.Made? ==> Valid() && Sited(Here()) && Here() == Ensure(old(Lim()), old(Here()), path).0
      ensures r.Made? && r.ino != 0 ==> IsDir(tree, r.ino) && Attached(tree, r.ino) && PathTo(tree, r.ino) == Parts(path)
      decreases |path|
    {
      EnsureFinds(Lim(), Here(), path);
      hide Stores, Rooted, Sited, Put, PathTo, Parts;
      var p := Normalize(path);
      if p == [] { return Made(ROOT_INODE); }
      if p in dirs { return Made(dirs[p]); }
      ParentOk(path);
      r := EnsureDirectory(ParentPath(p), now);
      if r.Exit? || r.ino == 0 { return; }
      r := EnterDirectory(r.ino, p, now);
    }

    /** Make directory `p` under `d` and remember it. */
    method EnterDirectory(d: nat, p: seq<u8>, now: nat) returns (r: Made)
      requires Valid() && Sited(Here()) && IsDir(tree, d) && Attached(tree, d) && NameOk(BaseName(p)) && now < U64
      requires Parts(p) == PathTo(tree, d) + [BaseName(p)]
      modifies this
      ensures r == EnterDir(old(Lim()), old(Here()), d, p).1 && Lim() == old(Lim())
      ensures r.Made? ==> Valid() && Sited(Here()) && Here() == EnterDir(old(Lim()), old(Here()), d, p).0
    {
      EnterDirFinds(Lim(), Here(), d, p);
      hide Stores, Rooted, Sited, Put, PathTo, Parts;
      r := AddDirectory(d, BaseName(p), now);
      if r.Made? && r.ino != 0 { dirs := dirs[p := r.ino]; }
    }

    /** Write the superblock, the bitmap and the inode table, and set the last byte of the file. */
    method Finalize() returns (image: seq<Block>)
      requires Geometry(Value()) && TableFits(inodes)
      ensures image == FinalDisk(Value())
    {
      hide SuperBlock, InodeBlock, BitmapBlock, ZeroLast;
      var d := disk[0 := SuperBlock(FinalSuper(Value()))];
      var i := 0;
      while i < bitmapBlocks
        invariant i <= bitmapBlocks && |d| == total
        invariant forall b :: 0 <= b < total ==> d[b] == if b <= i then FinalBlock(Value(), b) else disk[b]
      {
        d := d[1 + i := BitmapBlock(bitmap, i)];
        i := i + 1;
      }
      i := 0;
      while i < tableBlocks
        invariant i <= tableBlocks && |d| == total
        invariant forall b :: 0 <= b < total ==> d[b] == if b <= bitmapBlocks + i then FinalBlock(Value(), b) else disk[b]
      {
        d := d[1 + bitmapBlocks + i := InodeBlock(inodes, i)];
        i := i + 1;
      }
      image := d[total - 1 := ZeroLast(d[total - 1])];
    }

    /** First-fit scan for a free block. */
    method AllocBlock() returns (ok: bool, b: nat)
      requires total <= 8 * |bitmap|
      modifies this`bitmap, this`nextBlock, this`used
      ensures ok ==> old(nextBlock) <= b < total && !Bit(old(bitmap), b)
      ensures ok ==> forall c: nat :: old(nextBlock) <= c < b ==> Bit(old(bitmap), c)
      ensures ok ==> bitmap == SetBit(old(bitmap), b) && nextBlock == b + 1 && used == old(used) + 1
      ensures !ok ==> bitmap == old(bitmap) && used == old(used)
      ensures !ok ==> forall c: nat :: old(nextBlock) <= c < total ==> Bit(old(bitmap), c)
    {
      while nextBlock < total
        invariant bitmap == old(bitmap) && used == old(used) && old(nextBlock) <= nextBlock
        invariant forall c: nat :: old(nextBlock) <= c < nextBlock && c < total ==> Bit(bitmap, c)
      {
        if !Bit(bitmap, nextBlock) {
          bitmap := SetBit(bitmap, nextBlock);
          used := used + 1;
          nextBlock := nextBlock + 1;
          return true, nextBlock - 1;
        }
        nextBlock := nextBlock + 1;
      }
      return false, 0;
    }

    /** In an image under construction the scan always stops at once. */
    method Alloc() returns (ok: bool, b: nat)
      requires Geometry(Value()) && BitsBelow(Value())
      modifies this`bitmap, this`nextBlock, this`used
      ensures ok <==> old(nextBlock) < total
      ensures ok ==> b == old(nextBlock) && nextBlock == b + 1 && Geometry(Value()) && BitsBelow(Value())
    {
      assert nextBlock < total ==> !Bit(bitmap, nextBlock);
      ok, b := AllocBlock();
      if ok {
        forall c: nat | c < 8 * |bitmap| ensures Bit(bitmap, c) <==> c < nextBlock {
          SetBitAt(old(bitmap), b, c);
        }
      }
    }

    /** Allocate a block and write it. */
    method AllocWrite(content: Block) returns (ok: bool, b: nat)
      requires Geometry(Value()) && BitsBelow(Value())
      modifies this`bitmap, this`nextBlock, this`used, this`disk
      ensures ok <==> old(nextBlock) < total
      ensures ok ==> b == old(nextBlock) && nextBlock == b + 1 && disk == old(disk)[b := content]
      ensures ok ==> Geometry(Value()) && BitsBelow(Value())
    {
      ok, b := Alloc();
      if ok { disk := disk[b := content]; }
    }

    /** Create a file: inode, data blocks, and an entry in its directory. */
    method AddFile(parent: nat, name: seq<u8>, data: seq<u8>, now: nat) returns (r: Made)
      requires Valid() && IsDir(tree, parent) && Attached(tree, parent) && NameOk(name) && now < U64
      requires |data| < U64 - BLOCK_SIZE
      modifies this
      ensures r == Put(old(Lim()), old(tree), parent, name, File(data)).1 && Lim() == old(Lim()) && dirs == old(dirs)
      ensures r.Made? ==> Valid() && tree == Put(old(Lim()), old(tree), parent, name, File(data)).0
      ensures r.Made? && r.ino != 0 ==>
                r.ino < |tree.nodes| && tree.nodes[r.ino] == File(data) && PathTo(tree, r.ino) == PathTo(old(tree), parent) + [name]
    {
      PutRooted(Lim(), Here(), parent, name, File(data));
      hide Put, PathTo, Grows, AllListed;
      var ok, ino := NewFile(data, now);
      if !ok { return Exit; }
      hide Stores, Shape;
      r := Attach(parent, name, File(data), old(tree));
    }

    /** Inode and data blocks of a file that no directory lists yet. */
    method NewFile(data: seq<u8>, now: nat) returns (ok: bool, ino: nat)
      requires Stores(Value(), tree) && Sized(tree) && now < U64 && |data| < U64 - BLOCK_SIZE
      modifies this
      ensures dirs == old(dirs) && Lim() == old(Lim())
      ensures ok <==> Fits(old(Lim()), old(tree), File(data))
      ensures ok ==> Stores(Value(), tree) && ino == |old(tree).nodes|
      ensures ok ==> tree == AddNode(old(tree), File(data), 0, EndOf(old(tree)) + Span(|data|))
    {
      StoresFacts(Value(), tree);
      hide Stores, Geometry, BitsBelow, FileInode, Chunk, Written;
      ghost var base := Value();
      if nextInode >= |inodes| { return false, 0; }
      ino := nextInode;
      nextInode := nextInode + 1;
      inodes := inodes[ino := Inode(ino, MODE_FILE, |data|, Chunks(|data|), now, NoPtrs, 0, 0)];
      FileStarts(base, Value(), data, now);
      ok := WriteData(ino, data, base);
      if !ok { return; }
      WrittenFacts(base, Value(), data, Stored(|data|), Stored(|data|) > DIRECT);
      tree := AddNode(tree, File(data), 0, nextBlock);
      NewFileStores(base, Value(), old(tree), data, 0);
    }

    /** All blocks of a file that are stored. */
    method WriteData(ino: nat, data: seq<u8>, ghost base: Img) returns (ok: bool)
      requires ino == base.nextInode && Written(base, Value(), data, 0, false)
      modifies this`bitmap, this`nextBlock, this`used, this`disk, this`inodes
      ensures |inodes| == old(|inodes|)
      ensures ok <==> base.nextBlock + Span(|data|) <= total
      ensures ok ==> Written(base, Value(), data, Stored(|data|), Stored(|data|) > DIRECT)
      ensures ok && Stored(|data|) > DIRECT ==> base.nextBlock + DIRECT < |disk|
      ensures ok && Stored(|data|) > DIRECT ==> disk[base.nextBlock + DIRECT] == Pack(IndirectOf(base.nextBlock, Stored(|data|)))
    {
      hide Written, IndirectOf;
      ok := WriteDirect(ino, data, base);
      if ok && Chunks(|data|) > DIRECT { ok := WriteIndirect(ino, data, base); }
    }

    /** The first twelve blocks, named by the inode itself. */
    method WriteDirect(ino: nat, data: seq<u8>, ghost base: Img) returns (ok: bool)
      requires ino == base.nextInode && Written(base, Value(), data, 0, false)
      modifies this`bitmap, this`nextBlock, this`used, this`disk, this`inodes
      ensures |inodes| == old(|inodes|)
      ensures ok <==> base.nextBlock + (if Chunks(|data|) < DIRECT then Chunks(|data|) else DIRECT) <= total
      ensures ok ==> Written(base, Value(), data, if Chunks(|data|) < DIRECT then Chunks(|data|) else DIRECT, false)
    {
      hide Chunk;
      var i := 0;
      while i < Chunks(|data|) && i < DIRECT
        invariant i <= Chunks(|data|) && i <= DIRECT && |inodes| == old(|inodes|)
        invariant Written(base, Value(), data, i, false)
      {
        ghost var was := Value();
        var b;
        ok, b := AllocWrite(Chunk(data, i));
        if !ok { return; }
        inodes := inodes[ino := inodes[ino].(direct := inodes[ino].direct[i := b])];
        WroteDirect(base, was, Value(), data, i);
        i := i + 1;
      }
      ok := true;
    }

    /** The following blocks, named by one indirect block, which is written last. */
    method WriteIndirect(ino: nat, data: seq<u8>, ghost base: Img) returns (ok: bool)
      requires ino == base.nextInode && Chunks(|data|) > DIRECT && Written(base, Value(), data, DIRECT, false)
      modifies this`bitmap, this`nextBlock, this`used, this`disk, this`inodes
      ensures |inodes| == old(|inodes|)
      ensures ok <==> base.nextBlock + Stored(|data|) + 1 <= total
      ensures ok ==> Written(base, Value(), data, Stored(|data|), true)
      ensures ok ==> base.nextBlock + DIRECT < |disk|
      ensures ok ==> disk[base.nextBlock + DIRECT] == Pack(IndirectOf(base.nextBlock, Stored(|data|)))
    {
      var indirect;
      ghost var was := Value();
      ok, indirect := Alloc();
      if !ok { return; }
      inodes := inodes[ino := inodes[ino].(indirect := indirect)];
      GotIndirect(base, was, Value(), data);
      var ptrs;
      ok, ptrs := WriteThroughIndirect(data, base);
      if !ok { return; }
      was := Value();
      disk := disk[indirect := Pack(ptrs)];
      WrotePointers(base, was, Value(), data, ptrs);
    }

    method WriteThroughIndirect(data: seq<u8>, ghost base: Img) returns (ok: bool, ptrs: seq<nat>)
      requires Chunks(|data|) > DIRECT && Written(base, Value(), data, DIRECT, true)
      modifies this`bitmap, this`nextBlock, this`used, this`disk
      ensures ok <==> base.nextBlock + Stored(|data|) + 1 <= total
      ensures ok ==> Written(base, Value(), data, Stored(|data|), true)
      ensures ok ==> ptrs == IndirectOf(base.nextBlock, Stored(|data|))
    {
      hide Chunk, DirectOf, BitsBelow;
      ok, ptrs := true, seq(PTRS_PER_BLOCK, _ => 0);
      assert ptrs == IndirectOf(base.nextBlock, DIRECT);
      var i := 0;
      while DIRECT + i < Stored(|data|)
        invariant DIRECT + i <= Stored(|data|) && ok
        invariant Written(base, Value(), data, DIRECT + i, true)
        invariant ptrs == IndirectOf(base.nextBlock, DIRECT + i)
      {
        ghost var was := Value();
        var b;
        ok, b := AllocWrite(Chunk(data, DIRECT + i));
        if !ok { return; }
        WroteIndirect(base, was, Value(), data, DIRECT + i);
        ptrs := ptrs[i := b];
        assert ptrs == IndirectOf(base.nextBlock, DIRECT + i + 1);
        i := i + 1;
      }
    }

    /** Append an entry to a directory, or leave it unchanged when its block has no room. */
    method AddDirEntry(parent: nat, e: Ent) returns (ok: bool)
      requires Stores(Value(), tree) && IsDir(tree, parent) && EntFits(e)
      modifies this`disk, this`tree
      ensures ok <==> HasRoom(old(tree), parent, e.name)
      ensures ok ==> tree == AddKid(old(tree), parent, e) && Stores(Value(), tree)
      ensures !ok ==> disk == old(disk) && tree == old(tree)
    {
      var at := DirBlockOf(parent);
      var block;
      ok, block := SplitLastRecord(disk[at], e, DirEntries(parent, tree.nodes[parent]));
      if ok {
        AddKidStores(Value(), tree, parent, e);
        hide Stores, AppendEnt, DirEntries;
        disk := disk[at := block];
        tree := AddKid(tree, parent, e);
      }
    }

    /** Create a subdirectory: inode, one block with `.` and `..`, and an entry in its parent. */
    method AddDirectory(parent: nat, name: seq<u8>, now: nat) returns (r: Made)
      requires Valid() && IsDir(tree, parent) && Attached(tree, parent) && NameOk(name) && now < U64
      modifies this
      ensures r == Put(old(Lim()), old(tree), parent, name, Dir(parent, [])).1 && Lim() == old(Lim()) && dirs == old(dirs)
      ensures r.Made? ==> Valid() && tree == Put(old(Lim()), old(tree), parent, name, Dir(parent, [])).0
      ensures r.Made? && r.ino != 0 ==> IsDir(tree, r.ino) && PathTo(tree, r.ino) == PathTo(old(tree), parent) + [name]
    {
      PutRooted(Lim(), Here(), parent, name, Dir(parent, []));
      hide Put, PathTo, Grows, AllListed;
      var ok, ino := NewDirectory(parent, now);
      if !ok { return Exit; }
      hide Stores, Shape;
      r := Attach(parent, name, Dir(parent, []), old(tree));
    }

    method NewDirectory(parent: nat, now: nat) returns (ok: bool, ino: nat)
      requires Stores(Value(), tree) && Sized(tree) && IsDir(tree, parent) && now < U64
      modifies this
      ensures dirs == old(dirs) && Lim() == old(Lim())
      ensures ok <==> Fits(old(Lim()), old(tree), Dir(parent, []))
      ensures ok ==> Stores(Value(), tree) && ino == |old(tree).nodes|
      ensures ok ==> tree == AddNode(old(tree), Dir(parent, []), 0, EndOf(old(tree)) + 1)
    {
      StoresFacts(Value(), tree);
      hide Stores, NewDirBlock, BitsBelow;
      ghost var base, t := Value(), tree;
      if nextInode >= |inodes| { return false, 0; }
      ino := nextInode;
      nextInode := nextInode + 1;
      inodes := inodes[ino := Inode(ino, MODE_DIR, 0, 0, now, NoPtrs, 0, 0)];
      SameBits(base, Value());
      var b;
      ok, b := AllocWrite(NewDirBlock(ino, parent));
      if !ok { return; }
      inodes := inodes[ino := Inode(ino, MODE_DIR, BLOCK_SIZE, 1, now, NoPtrs[0 := b], 0, 0)];
      SameBits(Img(total, bitmapBlocks, tableBlocks, disk, bitmap, base.inodes, nextBlock, base.nextInode, used), Value());
      tree := AddNode(t, Dir(parent, []), 0, nextBlock);
      NewDirStores(base, Value(), t, parent);
    }

    /** List a just created node in its directory; zero when the directory is full. */
    method Attach(parent: nat, name: seq<u8>, n: Node, ghost t: Tree) returns (r: Made)
      requires Stores(Value(), tree) && Sized(t) && IsDir(t, parent) && |name| < 256 && !n.Unused?
      requires Fits(Lim(), t, n) && tree == AddNode(t, n, 0, EndOf(t) + SpanOf(n))
      modifies this`disk, this`tree
      ensures Stores(Value(), tree) && (tree, r) == Put(Lim(), t, parent, name, n)
    {
      StoresFacts(Value(), tree);
      assert nextInode < U64;
      hide Stores, Geometry, BitsBelow, Used, Need;
      var e := Ent(nextInode - 1, TypeOf(n), name);
      var ok := AddDirEntry(parent, e);
      if !ok { return Made(0); }
      ParFree(Value(), tree, t.par + [parent]);
      tree := tree.(par := t.par + [parent]);
      r := Made(e.ino);
    }

    /** The block of a directory, from its first direct pointer. */
    method DirBlockOf(d: nat) returns (at: nat)
      requires Stores(Value(), tree) && IsDir(tree, d)
      ensures at == tree.start[d] && at < |disk| && Tiles(disk[at], DirEntries(d, tree.nodes[d]), 0)
    {
      assert HoldsAt(Value(), tree, d);
      at := inodes[d].direct[0];
    }
  }

  lemma StoresFacts(img: Img, tree: Tree)
    requires Stores(img, tree) && Sized(tree)
    ensures Geometry(img) && BitsBelow(img) && |tree.nodes| == img.nextInode <= |img.inodes| && EndOf(tree) == img.nextBlock
  {
  }

  lemma SameBits(img: Img, img': Img)
    requires BitsBelow(img) && img'.bitmap == img.bitmap && img'.nextBlock == img.nextBlock
    ensures BitsBelow(img')
  {
  }

  lemma FileStarts(base: Img, img: Img, data: seq<u8>, now: nat)
    requires Geometry(base) && BitsBelow(base) && base.nextInode < |base.inodes| && now < U64
    requires img == base.(nextInode := base.nextInode + 1,
                          inodes := base.inodes[base.nextInode :=
                            Inode(base.nextInode, MODE_FILE, |data|, Chunks(|data|), now, NoPtrs, 0, 0)])
    ensures Written(base, img, data, 0, false)
  {
    assert NoPtrs == DirectOf(base.nextBlock, 0);
  }

  lemma WrittenFacts(base: Img, img: Img, data: seq<u8>, n: nat, ind: bool)
    requires Written(base, img, data, n, ind)
    ensures img.nextBlock == base.nextBlock + if ind then n + 1 else n
  {
  }

  /** What is stored does not depend on the record of parents. */
  lemma ParFree(img: Img, tree: Tree, par: seq<nat>)
    requires Stores(img, tree)
    ensures Stores(img, tree.(par := par))
  {
    forall i: nat | i < |tree.nodes| ensures HoldsAt(img, tree.(par := par), i) { assert HoldsAt(img, tree, i); }
  }

  /** What allocating one inode and `span` blocks changes. */
  predicate Allocated(img: Img, img': Img, span: nat) {
    && Geometry(img') && BitsBelow(img')
    && img'.total == img.total && img'.bitmapBlocks == img.bitmapBlocks && img'.tableBlocks == img.tableBlocks
    && img'.nextInode == img.nextInode + 1 <= |img.inodes| == |img'.inodes|
    && img'.inodes == img.inodes[img.nextInode := img'.inodes[img.nextInode]]
    && img'.nextBlock == img.nextBlock + span
    && |img'.disk| == |img.disk| && img.nextBlock <= |img.disk|
    && (forall b :: 0 <= b < img.nextBlock ==> img'.disk[b] == img.disk[b])
  }

  /** The first `n` chunks of a file are stored, and the indirect block is allocated if `ind`. */
  predicate Written(base: Img, img: Img, data: seq<u8>, n: nat, ind: bool) {
    && Allocated(base, img, if ind then n + 1 else n) && n <= Stored(|data|) && (n <= DIRECT || ind) && (ind ==> n >= DIRECT)
    && DataStart(base) <= base.nextBlock
    && var ino, lo := base.nextInode, base.nextBlock;
       && img.inodes[ino].time < U64
       && img.inodes[ino] == Inode(ino, MODE_FILE, |data|, Chunks(|data|), img.inodes[ino].time,
                                   DirectOf(lo, n), if ind then lo + DIRECT else 0, 0)
       && forall k: nat :: k < n ==> ChunkAt(img, data, lo, k)
  }

  lemma WroteDirect(base: Img, was: Img, img: Img, data: seq<u8>, n: nat)
    requires Written(base, was, data, n, false) && n < DIRECT && n < Chunks(|data|)
    requires Allocated(base, img, n + 1) && img.disk == was.disk[was.nextBlock := Chunk(data, n)]
    requires img.inodes == was.inodes[base.nextInode :=
                             was.inodes[base.nextInode].(direct := was.inodes[base.nextInode].direct[n := was.nextBlock])]
    ensures Written(base, img, data, n + 1, false)
  {
    assert DirectOf(base.nextBlock, n)[n := base.nextBlock + n] == DirectOf(base.nextBlock, n + 1);
    forall k: nat | k < n + 1 ensures ChunkAt(img, data, base.nextBlock, k) {
      if k < n { assert ChunkAt(was, data, base.nextBlock, k); }
    }
  }

  lemma GotIndirect(base: Img, was: Img, img: Img, data: seq<u8>)
    requires Written(base, was, data, DIRECT, false)
    requires Allocated(base, img, DIRECT + 1) && img.disk == was.disk
    requires img.inodes == was.inodes[base.nextInode := was.inodes[base.nextInode].(indirect := was.nextBlock)]
    ensures Written(base, img, data, DIRECT, true)
  {
    forall k: nat | k < DIRECT ensures ChunkAt(img, data, base.nextBlock, k) {
      assert ChunkAt(was, data, base.nextBlock, k);
    }
  }

  lemma WroteIndirect(base: Img, was: Img, img: Img, data: seq<u8>, n: nat)
    requires Written(base, was, data, n, true) && DIRECT <= n < Stored(|data|)
    requires Allocated(base, img, n + 2) && img.disk == was.disk[was.nextBlock := Chunk(data, n)] && img.inodes == was.inodes
    ensures Written(base, img, data, n + 1, true)
  {
    assert DirectOf(base.nextBlock, n) == DirectOf(base.nextBlock, n + 1);
    forall k: nat | k < n + 1 ensures ChunkAt(img, data, base.nextBlock, k) {
      if k < n { assert ChunkAt(was, data, base.nextBlock, k); }
    }
  }

  lemma WrotePointers(base: Img, was: Img, img: Img, data: seq<u8>, ptrs: seq<nat>)
    requires Written(base, was, data, Stored(|data|), true) && |ptrs| == PTRS_PER_BLOCK
    requires img == was.(disk := was.disk[base.nextBlock + DIRECT := Pack(ptrs)])
    ensures Written(base, img, data, Stored(|data|), true)
  {
    forall k: nat | k < Stored(|data|) ensures ChunkAt(img, data, base.nextBlock, k) {
      assert ChunkAt(was, data, base.nextBlock, k);
    }
  }

  lemma NewFileStores(img: Img, img': Img, t: Tree, data: seq<u8>, parent: nat)
    requires Stores(img, t) && |data| < U64 - BLOCK_SIZE
    requires Written(img, img', data, Stored(|data|), Stored(|data|) > DIRECT)
    requires Stored(|data|) > DIRECT ==> img'.disk[img.nextBlock + DIRECT] == Pack(IndirectOf(img.nextBlock, Stored(|data|)))
    ensures Stores(img', AddNode(t, File(data), parent, img'.nextBlock))
  {
    assert Holds(img', img.nextInode, File(data), img.nextBlock, img'.nextBlock);
    AddNodeStores(img, img', t, File(data), parent);
  }

  lemma NewDirStores(img: Img, img': Img, t: Tree, parent: nat)
    requires Stores(img, t) && parent < |t.nodes| && Allocated(img, img', 1)
    requires var ino, b := img.nextInode, img.nextBlock;
             && b < |img'.disk| && img'.disk[b] == NewDirBlock(ino, parent)
             && img'.inodes[ino] == Inode(ino, MODE_DIR, BLOCK_SIZE, 1, img'.inodes[ino].time, NoPtrs[0 := b], 0, 0)
             && img'.inodes[ino].time < U64
    ensures Stores(img', AddNode(t, Dir(parent, []), 0, img'.nextBlock))
  {
    DirHeld(img', img.nextInode, parent, img.nextBlock);
    AddNodeStores(img, img', t, Dir(parent, []), 0);
  }

  /** The image right after its layout: nothing stored yet, the metadata blocks reserved. */
  predicate Blank(img: Img) {
    && Geometry(img) && BitsBelow(img) && img.nextBlock == DataStart(img) && img.nextInode == 3 <= |img.inodes|
    && forall i :: 0 <= i < |img.inodes| ==> img.inodes[i] == ZeroInode
  }

  lemma LayoutFits(sizeMb: nat, blocks: nat, bits: nat, tabs: nat)
    requires 1 <= sizeMb < 0x8000_0000 && blocks == sizeMb * 1024 * 1024 / BLOCK_SIZE
    requires bits == (blocks + BLOCK_SIZE * 8 - 1) / (BLOCK_SIZE * 8)
    requires tabs == if blocks / 64 + 1 < 4 then 4 else blocks / 64 + 1
    ensures 256 <= blocks < 0x80_0000_0000 && blocks <= 8 * BLOCK_SIZE * bits && 1 + bits + tabs < blocks
    ensures tabs >= 4
    ensures forall b: nat :: b < 8 * |Zeros(bits * BLOCK_SIZE)| ==> !Bit(Zeros(bits * BLOCK_SIZE), b)
  {
    forall b: nat | b < 8 * (bits * BLOCK_SIZE) ensures !Bit(Zeros(bits * BLOCK_SIZE), b) { ZeroByte(b % 8); }
  }

  lemma RootTree(img: Img, t: Tree, b: nat)
    requires t == FirstTree(b)
    requires Geometry(img) && BitsBelow(img) && b == DataStart(img) && img.nextBlock == b + 1 && img.nextInode == 3 <= |img.inodes|
    requires forall i :: 0 <= i < |img.inodes| && i != ROOT_INODE ==> img.inodes[i] == ZeroInode
    requires Holds(img, ROOT_INODE, Dir(ROOT_INODE, []), b, b + 1)
    ensures Stores(img, t)
  {
    assert HoldsAt(img, t, 0) && HoldsAt(img, t, 1) && HoldsAt(img, t, 2);
  }

  /** A fresh directory inode and block hold an empty directory. */
  lemma DirHeld(img: Img, ino: nat, parent: nat, b: nat)
    requires Geometry(img) && ino < |img.inodes| && parent < U64 && DataStart(img) <= b && img.nextBlock == b + 1
    requires img.inodes[ino] == Inode(ino, MODE_DIR, BLOCK_SIZE, 1, img.inodes[ino].time, NoPtrs[0 := b], 0, 0)
    requires img.inodes[ino].time < U64 && b < |img.disk| && img.disk[b] == NewDirBlock(ino, parent)
    ensures Holds(img, ino, Dir(parent, []), b, b + 1)
  {
    NewDirTiles(ino, parent);
    assert NoPtrs[0 := b] == DirectOf(b, 1);
    assert DotEntries(ino, parent) + [] == DotEntries(ino, parent);
  }

  /** Walk the records of a directory block to the last one and split it for the new entry. */
  method SplitLastRecord(data: Block, e: Ent, ghost ents: seq<Ent>) returns (ok: bool, block: Block)
    requires Tiles(data, ents, 0) && EntFits(e)
    ensures EntFits(ents[|ents| - 1])
    ensures ok <==> Used(ents) + Need(e.name) <= BLOCK_SIZE
    ensures block == if ok then AppendEnt(data, ents, 0, e) else data
  {
    block := data;
    TilesFits(block, ents, 0);
    var pos := 0;
    ghost var k := 0;
    ScanStart(data, ents, e);
    hide Scanned, Tiles, Used, RecAt, AppendEnt, SplitRec, Need, HeaderBytes, ToBytes, Splice;
    while pos < BLOCK_SIZE
      invariant block == data && Scanned(block, ents, k, pos, e)
      decreases BLOCK_SIZE - pos
    {
      var entry := RecAt(block, pos); // its length is never zero, so the walk does not end here
      var actual := Need(entry.name);
      ScanHere(data, ents, k, pos, e);
      if entry.len > actual {
        var remaining := entry.len - actual;
        if remaining >= Need(e.name) {
          block := SplitAt(data, pos, e, ents, k);
          return true, block;
        }
      }
      ScanNext(data, ents, k, pos, e);
      pos := pos + entry.len;
      k := k + 1;
    }
    ScanHere(data, ents, k, pos, e);
    return false, block;
  }

  /** Write the new record into the slack of the one at `pos` and shorten that one. */
  method SplitAt(data: Block, pos: nat, e: Ent, ghost ents: seq<Ent>, ghost k: nat) returns (block: Block)
    requires Scanned(data, ents, k, pos, e) && k < |ents| && Tiles(data, ents, 0) && EntFits(e)
    requires RecAt(data, pos).len >= Need(RecAt(data, pos).name) + Need(e.name)
    ensures Used(ents) + Need(e.name) <= BLOCK_SIZE && EntFits(ents[|ents| - 1])
    ensures block == AppendEnt(data, ents, 0, e)
  {
    hide Scanned, Tiles, Used, RecAt, AppendEnt, SplitRec, Need, HeaderBytes, ToBytes, Splice;
    LastScanned(data, ents, k, pos, e);
    var entry := RecAt(data, pos);
    var actual := Need(entry.name);
    NeedBounds(entry.name);
    NeedBounds(e.name);
    SplitBytes(data, pos, ents[k], e);
    block := Splice(data, pos + actual, HeaderBytes(Rec(e.ino, entry.len - actual, e.ftype, e.name)));
    block := Splice(block, pos + 8, ToBytes(actual, 2));
  }

  lemma SplitBytes(b: Block, pos: nat, last: Ent, e: Ent)
    requires pos + Need(last.name) + Need(e.name) <= BLOCK_SIZE && EntFits(last) && EntFits(e)
    ensures var next := pos + Need(last.name);
            && next + HEADER + |e.name| <= BLOCK_SIZE
            && Splice(Splice(b, next, HeaderBytes(Rec(e.ino, BLOCK_SIZE - next, e.ftype, e.name))), pos + 8,
                      ToBytes(Need(last.name), 2)) == SplitRec(b, pos, last, e)
  {
  }

  /** The scan stands at the record of entry `k`, or past the last one. */
  ghost predicate Scanned(b: Block, ents: seq<Ent>, k: nat, pos: nat, e: Ent) {
    && k <= |ents| && (k == |ents| <==> pos >= BLOCK_SIZE)
    && (k < |ents| ==> Tiles(b, ents[k..], pos) && pos + Used(ents[k..]) == Used(ents))
    && (k == |ents| ==> Used(ents) + Need(e.name) > BLOCK_SIZE)
  }

  lemma ScanStart(b: Block, ents: seq<Ent>, e: Ent)
    requires Tiles(b, ents, 0)
    ensures Scanned(b, ents, 0, 0, e)
  {
    assert ents[0..] == ents;
  }

  lemma ScanHere(b: Block, ents: seq<Ent>, k: nat, pos: nat, e: Ent)
    requires Scanned(b, ents, k, pos, e)
    ensures if pos < BLOCK_SIZE then k < |ents| && RecAt(b, pos).name == ents[k].name
            else Used(ents) + Need(e.name) > BLOCK_SIZE
  {
    if pos < BLOCK_SIZE { TilesHead(b, ents[k..], pos); }
  }

  /** Only the last record has room, and splitting it appends the entry. */
  lemma LastScanned(b: Block, ents: seq<Ent>, k: nat, pos: nat, e: Ent)
    requires Scanned(b, ents, k, pos, e) && k < |ents| && Tiles(b, ents, 0) && EntFits(e)
    requires RecAt(b, pos).len >= Need(RecAt(b, pos).name) + Need(e.name)
    ensures k == |ents| - 1 && RecAt(b, pos).len == BLOCK_SIZE - pos && RecAt(b, pos).name == ents[k].name
    ensures Used(ents) + Need(e.name) <= BLOCK_SIZE && EntFits(ents[|ents| - 1])
    ensures pos + Need(ents[k].name) + Need(e.name) <= BLOCK_SIZE
    ensures AppendEnt(b, ents, 0, e) == SplitRec(b, pos, ents[k], e)
  {
    NeedBounds(e.name);
    hide Need, SplitRec, RecAt, AppendEnt;
    assert k == |ents| - 1;
    assert ents[k..] == [ents[k]] && Used(ents[k..]) == Need(ents[k].name) + Used(ents[k..][1..]);
    AppendAtLast(b, ents, 0, e);
  }

  lemma ScanNext(b: Block, ents: seq<Ent>, k: nat, pos: nat, e: Ent)
    requires Scanned(b, ents, k, pos, e) && k < |ents| && Tiles(b, ents, 0) && EntFits(e)
    requires RecAt(b, pos).len < Need(RecAt(b, pos).name) + Need(e.name)
    ensures RecAt(b, pos).len > 0 && Scanned(b, ents, k + 1, pos + RecAt(b, pos).len, e)
  {
    hide Need, RecAt, Tiles, Used;
    NeedBounds(ents[k].name);
    TilesHead(b, ents[k..], pos);
    assert ents[k..][1..] == ents[k + 1..];
    UsedFrom(ents, k);
    if k + 1 < |ents| {
      TilesHead(b, ents[k + 1..], pos + Need(ents[k].name));
      NeedBounds(ents[k + 1].name);
    }
  }

  lemma UsedFrom(ents: seq<Ent>, k: nat)
    requires k < |ents|
    ensures Used(ents[k..]) == Need(ents[k].name) + Used(ents[k + 1..])
    ensures k + 1 == |ents| ==> Used(ents[k + 1..]) == 0
  {
    assert ents[k..][1..] == ents[k + 1..];
  }
}

/** How the kernel finds a file in an image (kernel/fs/vfs/vfs.cpp, kernel/fs/viperfs/viperfs.cpp), and that on a
    finished image it walks the tree the writer stored. */
module Resolve {
  import opened ViperFormat
  import opened Fsck
  import opened Mkfs
  import opened MkfsImage
  import opened MkfsPaths
  import opened Agreement

  // -------------------------------------------------------------------------- the kernel

  datatype Scan = Found(ino: nat) | Malformed | Absent

  /** The records of one block of a directory, up to `limit`; the first with this name counts. */
  function ScanBlock(b: Block, limit: nat, pos: nat, name: seq<u8>): Scan
    requires limit <= BLOCK_SIZE
    decreases limit - pos
  {
    if pos >= limit then Absent
    else
      var e := RecAt(b, pos);
      if e.len == 0 then Absent
      else if e.len < HEADER || pos + e.len > limit then Malformed
      else if e.ino != 0 && e.name == name then Found(e.ino)
      else ScanBlock(b, limit, pos + e.len, name)
  }

  /** From block `k` of the directory on; a missing block reads as zeros. */
  function LookupFrom(disk: seq<Block>, inode: Inode, k: nat, name: seq<u8>): nat
    requires |inode.direct| == 12
    decreases if inode.size > BLOCK_SIZE * k then inode.size - BLOCK_SIZE * k else 0
  {
    if inode.size <= BLOCK_SIZE * k then 0
    else
      var p := BlockPtr(disk, inode, k);
      var b := if p == 0 then Zeros(BLOCK_SIZE) else Read(disk, p);
      match ScanBlock(b, Min(BLOCK_SIZE, inode.size - BLOCK_SIZE * k), 0, name)
      case Found(ino) => ino
      case Malformed => 0
      case Absent => LookupFrom(disk, inode, k + 1, name)
  }

  predicate IsDirectory(inode: Inode) {
    inode.mode / 0x1000 % 0x10 * 0x1000 == TYPE_DIR
  }

  /** The inode a directory lists under a name, 0 if none. */
  function Lookup(disk: seq<Block>, inode: Inode, name: seq<u8>): nat
    requires |inode.direct| == 12
  {
    if IsDirectory(inode) then LookupFrom(disk, inode, 0, name) else 0
  }

  /** Follow the components from inode `ino`; 0 if one is missing, too long, or not in a directory. */
  function WalkFrom(fs: Fs, ino: nat, comps: seq<seq<u8>>): nat
    requires Loaded(fs)
    decreases |comps|
  {
    if ino >= |fs.inodes| then 0
    else if comps == [] then fs.inodes[ino].num
    else if |comps[0]| > 255 || !IsDirectory(fs.inodes[ino]) then 0
    else
      var next := Lookup(fs.disk, fs.inodes[ino], comps[0]);
      if next == 0 then 0 else WalkFrom(fs, next, comps[1..])
  }

  function ResolvePath(fs: Fs, path: seq<u8>): nat
    requires Loaded(fs)
  {
    WalkFrom(fs, ROOT_INODE, Components(path))
  }

  // ---------------------------------------------------------------------------- the tree

  function First(ents: seq<Ent>, name: seq<u8>): nat {
    if ents == [] then 0
    else if ents[0].ino != 0 && ents[0].name == name then ents[0].ino
    else First(ents[1..], name)
  }

  function TreeWalk(tree: Tree, d: nat, comps: seq<seq<u8>>): nat
    decreases |comps|
  {
    if d >= |tree.nodes| then 0
    else if comps == [] then d
    else if |comps[0]| > 255 || !IsDir(tree, d) then 0
    else
      var x := First(DirEntries(d, tree.nodes[d]), comps[0]);
      if x == 0 then 0 else TreeWalk(tree, x, comps[1..])
  }

  lemma {:induction false} FirstIn(ents: seq<Ent>, name: seq<u8>)
    requires First(ents, name) != 0
    ensures exists e :: e in ents && e.ino == First(ents, name) && e.name == name
  {
    if ents[0].ino != 0 && ents[0].name == name {
      assert ents[0] in ents;
    } else {
      FirstIn(ents[1..], name);
      var e :| e in ents[1..] && e.ino == First(ents[1..], name) && e.name == name;
      assert e in ents;
    }
  }

  /** In a block the writer tiled, the scan finds the first entry of that name. */
  lemma {:induction false} ScanTiled(b: Block, ents: seq<Ent>, pos: nat, name: seq<u8>)
    requires Tiles(b, ents, pos)
    ensures ScanBlock(b, BLOCK_SIZE, pos, name) == if First(ents, name) == 0 then Absent else Found(First(ents, name))
    decreases |ents|
  {
    NeedBounds(ents[0].name);
    hide Need, RecAt;
    if |ents| > 1 {
      ScanTiled(b, ents[1..], pos + Need(ents[0].name), name);
    } else {
      assert ents[1..] == [];
      assert ScanBlock(b, BLOCK_SIZE, BLOCK_SIZE, name) == Absent;
    }
  }

  lemma LookupStored(img: Img, tree: Tree, fs: Fs, d: nat, name: seq<u8>)
    requires Finished(img, tree, fs) && IsDir(tree, d)
    ensures d < |fs.inodes| && |fs.inodes[d].direct| == 12 && IsDirectory(fs.inodes[d]) && fs.inodes[d].num == d
    ensures Lookup(fs.disk, fs.inodes[d], name) == First(DirEntries(d, tree.nodes[d]), name)
  {
    assert HoldsAt(img, tree, d);
    StartMonotone(img, tree, d + 1, |tree.nodes|);
    var inode, lo := fs.inodes[d], tree.start[d];
    assert BlockPtr(fs.disk, inode, 0) == lo && Read(fs.disk, lo) == img.disk[lo];
    ScanTiled(img.disk[lo], DirEntries(d, tree.nodes[d]), 0, name);
    assert LookupFrom(fs.disk, inode, 1, name) == 0;
  }

  lemma FileStored(img: Img, tree: Tree, fs: Fs, i: nat)
    requires Finished(img, tree, fs) && 3 <= i < |tree.nodes| && !tree.nodes[i].Dir?
    ensures i < |fs.inodes| && |fs.inodes[i].direct| == 12 && !IsDirectory(fs.inodes[i]) && fs.inodes[i].num == i
  {
    assert HoldsAt(img, tree, i) && PlacedAt(tree, i);
  }

  /** Entries of an attached directory lead to attached inodes. */
  lemma EntryAttached(tree: Tree, d: nat, name: seq<u8>)
    requires Shape(tree) && IsDir(tree, d) && Attached(tree, d) && tree.nodes[ROOT_INODE].parent == ROOT_INODE
    requires First(DirEntries(d, tree.nodes[d]), name) != 0
    ensures var x := First(DirEntries(d, tree.nodes[d]), name); Attached(tree, x) && x < |tree.nodes|
  {
    var ents := DirEntries(d, tree.nodes[d]);
    FirstIn(ents, name);
    var e :| e in ents && e.ino == First(ents, name) && e.name == name;
    assert PlacedAt(tree, d) && KidsOk(tree, d);
    if e in tree.nodes[d].kids { assert KidOk(tree, d, e); }
  }

  /** The kernel walks the image as the tree says. */
  lemma {:induction false} WalkStored(img: Img, tree: Tree, fs: Fs, d: nat, comps: seq<seq<u8>>)
    requires Finished(img, tree, fs) && Loaded(fs) && tree.nodes[ROOT_INODE].parent == ROOT_INODE
    requires Attached(tree, d) && d < |tree.nodes|
    ensures WalkFrom(fs, d, comps) == TreeWalk(tree, d, comps)
    decreases |comps|
  {
    if IsDir(tree, d) {
      LookupStored(img, tree, fs, d, if comps == [] then [] else comps[0]);
      if comps != [] && First(DirEntries(d, tree.nodes[d]), comps[0]) != 0 {
        EntryAttached(tree, d, comps[0]);
        WalkStored(img, tree, fs, First(DirEntries(d, tree.nodes[d]), comps[0]), comps[1..]);
      }
    } else {
      FileStored(img, tree, fs, d);
    }
  }

  /** So a path resolves in a finished image as in the tree it stores. */
  lemma ResolveStored(img: Img, tree: Tree, fs: Fs, path: seq<u8>)
    requires Finished(img, tree, fs) && Loaded(fs) && tree.nodes[ROOT_INODE].parent == ROOT_INODE
    ensures ResolvePath(fs, path) == TreeWalk(tree, ROOT_INODE, Parts(path))
  {
    SamePath(path);
    WalkStored(img, tree, fs, ROOT_INODE, Components(path));
  }
}

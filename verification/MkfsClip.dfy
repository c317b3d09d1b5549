/** Finishing an image zeroes its last byte (tools/mkfs.viperfs.cpp). The result is the finished form of another
    tree: the one whose last name or last file lost that byte. */
module MkfsClip {
  import opened ViperFormat
  import opened Fsck
  import opened Mkfs
  import opened MkfsImage

  // --------------------------------------------------------------------------- directories

  function ZeroEnd(name: seq<u8>): seq<u8> {
    if name == [] then [] else name[|name| - 1 := 0]
  }

  /** Entries from `pos` on, once the last byte of their block is zero: only a name that reaches it changes. */
  function Clip(ents: seq<Ent>, pos: nat): (r: seq<Ent>)
    ensures |r| == |ents| && forall k :: 0 <= k < |ents| - 1 ==> r[k] == ents[k]
    ensures forall k :: 0 <= k < |ents| ==> r[k] == ents[k].(name := r[k].name)
    decreases |ents|
  {
    if ents == [] then []
    else if |ents| > 1 then [ents[0]] + Clip(ents[1..], pos + Need(ents[0].name))
    else if pos + HEADER + |ents[0].name| == BLOCK_SIZE then [ents[0].(name := ZeroEnd(ents[0].name))]
    else ents
  }

  lemma PeekZero(b: Block, from: nat, n: nat)
    requires from + n <= BLOCK_SIZE
    ensures Peek(ZeroLast(b), from, n) == if from + n < BLOCK_SIZE then Peek(b, from, n) else ZeroEnd(Peek(b, from, n))
  {
  }

  lemma {:induction false} ClipTiles(b: Block, ents: seq<Ent>, pos: nat)
    requires Tiles(b, ents, pos)
    ensures Tiles(ZeroLast(b), Clip(ents, pos), pos)
    decreases |ents|
  {
    NeedBounds(ents[0].name);
    ClipRec(b, pos, ents[0].name);
    if |ents| > 1 {
      TilesHead(b, ents[1..], pos + Need(ents[0].name));
      NeedBounds(ents[1].name);
      ClipTiles(b, ents[1..], pos + Need(ents[0].name));
      assert Clip(ents, pos)[1..] == Clip(ents[1..], pos + Need(ents[0].name));
    }
  }

  lemma ClipRec(b: Block, pos: nat, name: seq<u8>)
    requires RecAt(b, pos).name == name && pos + Need(name) <= BLOCK_SIZE
    ensures RecAt(ZeroLast(b), pos) == RecAt(b, pos).(name := if pos + HEADER + |name| == BLOCK_SIZE then ZeroEnd(name) else name)
  {
    NeedBounds(name);
    PeekZero(b, pos, 8);
    PeekZero(b, pos + 8, 2);
    PeekZero(b, pos + 10, 1);
    PeekZero(b, pos + 11, 1);
    PeekZero(b, pos + HEADER, |name|);
  }

  /** The last name, of entries from `pos` on, reaches the end of the block, and not with a zero byte. */
  predicate AtEnd(ents: seq<Ent>, pos: nat) {
    ents != [] && pos + Used(ents) == BLOCK_SIZE
    && var name := ents[|ents| - 1].name; |name| % 8 == 4 && name[|name| - 1] != 0
  }

  lemma {:induction false} ClipChanges(ents: seq<Ent>, pos: nat)
    requires pos % 8 == 0
    ensures Clip(ents, pos) != ents <==> AtEnd(ents, pos)
    decreases |ents|
  {
    hide Clip, AtEnd;
    if ents == [] {
      assert Clip(ents, pos) == ents && !AtEnd([], pos) by { NothingAtEnd(pos); }
    } else {
      var e, rest := ents[0], ents[1..];
      assert ents == [e] + rest;
      if rest == [] {
        assert ents == [e];
        ClipOneChanges(e, pos);
      } else {
        NeedBounds(e.name);
        ClipFirst(e, rest, pos);
        AtEndFirst(e, rest, pos);
        hide Need;
        ClipChanges(rest, pos + Need(e.name));
        SameRest(e, Clip(rest, pos + Need(e.name)), rest);
      }
    }
  }

  lemma NothingAtEnd(pos: nat)
    ensures !AtEnd([], pos)
  {
  }

  lemma AtEndFirst(e: Ent, rest: seq<Ent>, pos: nat)
    requires rest != []
    ensures AtEnd([e] + rest, pos) <==> AtEnd(rest, pos + Need(e.name))
  {
    hide Need;
    assert ([e] + rest)[1..] == rest;
  }

  lemma ClipOneChanges(e: Ent, pos: nat)
    requires pos % 8 == 0
    ensures Clip([e], pos) != [e] <==> AtEnd([e], pos)
  {
    ClipOne(e, pos);
    Reaches(pos, e.name);
    ZeroEndChanges(e.name);
    hide Clip, Need, ZeroEnd;
    assert Used([e]) == Need(e.name) + Used([e][1..]) == Need(e.name);
  }

  lemma SameRest<T>(e: T, a: seq<T>, b: seq<T>)
    ensures [e] + a == [e] + b <==> a == b
  {
    if [e] + a == [e] + b { assert ([e] + a)[1..] == a && ([e] + b)[1..] == b; }
  }

  lemma ClipOne(e: Ent, pos: nat)
    ensures Clip([e], pos) == [if pos + HEADER + |e.name| == BLOCK_SIZE then e.(name := ZeroEnd(e.name)) else e]
  {
  }

  lemma Reaches(pos: nat, name: seq<u8>)
    requires pos % 8 == 0
    ensures pos + HEADER + |name| == BLOCK_SIZE <==> pos + Need(name) == BLOCK_SIZE && |name| % 8 == 4
  {
  }

  lemma ZeroEndChanges(name: seq<u8>)
    ensures ZeroEnd(name) != name <==> name != [] && name[|name| - 1] != 0
  {
    if name != [] { assert ZeroEnd(name)[|name| - 1] == 0; }
  }

  lemma ClipDots(i: nat, n: Node)
    requires n.Dir?
    ensures Clip(DirEntries(i, n), 0) == DirEntries(i, n.(kids := Clip(n.kids, 32)))
  {
    hide Clip;
    var dot, up := Ent(i, FT_DIR, Dot), Ent(n.parent, FT_DIR, DotDot);
    ClipFirst(dot, [up] + n.kids, 0);
    if n.kids == [] {
      assert [up] + n.kids == [up] && Clip(n.kids, 32) == [];
      ClipOne(up, 16);
    } else {
      ClipFirst(up, n.kids, 16);
    }
    assert DirEntries(i, n) == [dot] + ([up] + n.kids);
    assert DirEntries(i, n.(kids := Clip(n.kids, 32))) == [dot] + ([up] + Clip(n.kids, 32));
  }

  lemma ClipFirst(e: Ent, rest: seq<Ent>, pos: nat)
    requires rest != []
    ensures Clip([e] + rest, pos) == [e] + Clip(rest, pos + Need(e.name))
  {
    assert ([e] + rest)[1..] == rest;
  }

  lemma {:induction false} ClipName(ents: seq<Ent>, pos: nat, k: nat)
    requires pos % 8 == 0 && k < |ents| && NameOk(ents[k].name)
    ensures NameOk(Clip(ents, pos)[k].name)
    decreases |ents|
  {
    NeedBounds(ents[0].name);
    if |ents| > 1 {
      if k > 0 { ClipName(ents[1..], pos + Need(ents[0].name), k - 1); }
    } else if pos + HEADER + |ents[0].name| == BLOCK_SIZE {
      ZeroEndOk(ents[0].name);
    }
  }

  lemma ZeroEndOk(name: seq<u8>)
    requires NameOk(name) && |name| % 8 == 4
    ensures NameOk(ZeroEnd(name))
  {
    DotsFrom(name);
    DotsFrom(ZeroEnd(name));
  }

  lemma DotsFrom(name: seq<u8>)
    requires |name| >= 3
    ensures CStr(name) == Dot <==> name[0] == 46 && name[1] == 0
    ensures CStr(name) == DotDot <==> name[0] == 46 && name[1] == 46 && name[2] == 0
  {
    var a, b := name[1..], name[2..];
    assert a[1..] == b && a[0] == name[1] && b[0] == name[2];
    assert CStr(name) == if name[0] == 0 then [] else [name[0]] + CStr(a);
    assert CStr(a) == if a[0] == 0 then [] else [a[0]] + CStr(b);
    assert b[0] == 0 <==> CStr(b) == [];
    assert name[0] != 0 ==> CStr(name)[0] == name[0];
    assert name[0] != 0 && name[1] != 0 ==> CStr(name)[1] == CStr(a)[0] == name[1] && |CStr(name)| == 2 + |CStr(b)|;
  }

  // --------------------------------------------------------------------------------- nodes

  function ClipData(data: seq<u8>): (r: seq<u8>)
    ensures |r| == |data|
  {
    var end := BLOCK_SIZE * Stored(|data|);
    if 0 < end <= |data| then data[end - 1 := 0] else data
  }

  function ClipNode(n: Node): Node {
    match n
    case Unused => Unused
    case Dir(parent, kids) => Dir(parent, Clip(kids, 32))
    case File(data) => File(ClipData(data))
  }

  /** Node `i` owns the last block of an image of `total` blocks. */
  predicate OwnsLast(total: nat, tree: Tree, i: nat) {
    i < |tree.nodes| && i + 1 < |tree.start| && tree.start[i] < tree.start[i + 1] == total
  }

  function Clipped(total: nat, tree: Tree): Tree {
    tree.(nodes := seq(|tree.nodes|, i requires 0 <= i < |tree.nodes| =>
                         if OwnsLast(total, tree, i) then ClipNode(tree.nodes[i]) else tree.nodes[i]))
  }

  /** A name is lost: that of the last entry of the directory in the last block. */
  predicate NameLostAt(total: nat, tree: Tree, d: nat) {
    OwnsLast(total, tree, d) && tree.nodes[d].Dir? && AtEnd(tree.nodes[d].kids, 32)
  }

  predicate NameLost(total: nat, tree: Tree) {
    exists d :: 0 <= d < |tree.nodes| && NameLostAt(total, tree, d)
  }

  /** A file loses the last byte of its last stored block. */
  predicate DataLostAt(total: nat, tree: Tree, i: nat) {
    && OwnsLast(total, tree, i) && tree.nodes[i].File?
    && var data := tree.nodes[i].data;
       var end := BLOCK_SIZE * Stored(|data|);
       0 < end <= |data| && data[end - 1] != 0
  }

  lemma ClipNodeChanges(total: nat, tree: Tree, i: nat)
    requires OwnsLast(total, tree, i)
    ensures ClipNode(tree.nodes[i]) != tree.nodes[i] <==> NameLostAt(total, tree, i) || DataLostAt(total, tree, i)
  {
    match tree.nodes[i]
    case Unused =>
    case Dir(parent, kids) => ClipChanges(kids, 32);
    case File(data) =>
      var end := BLOCK_SIZE * Stored(|data|);
      if 0 < end <= |data| { assert ClipData(data)[end - 1] == 0; }
  }

  // -------------------------------------------------------------------------------- images

  function Zeroed(img: Img): Img
    requires 0 < |img.disk| == img.total
  {
    img.(disk := img.disk[img.total - 1 := ZeroLast(img.disk[img.total - 1])])
  }

  lemma ChunkClip(data: seq<u8>, k: nat)
    requires k < Stored(|data|)
    ensures k < Chunks(|data|) && Chunk(ClipData(data), k) ==
              if k + 1 == Stored(|data|) then ZeroLast(Chunk(data, k)) else Chunk(data, k)
  {
  }

  lemma FileClipped(img: Img, i: nat, data: seq<u8>, lo: nat)
    requires |img.disk| == img.total > 0 && i < |img.inodes| && HoldsFile(img, i, data, lo, img.total) && lo < img.total
    ensures HoldsFile(Zeroed(img), i, ClipData(data), lo, img.total)
  {
    hide ClipData, Pack, Chunk, FileInode;
    var img', n := Zeroed(img), Stored(|data|);
    forall k: nat | k < n ensures ChunkAt(img', ClipData(data), lo, k) {
      assert ChunkAt(img, data, lo, k);
      ChunkClip(data, k);
    }
  }

  lemma NodeClipped(img: Img, i: nat, n: Node, lo: nat)
    requires |img.disk| == img.total && Holds(img, i, n, lo, img.total) && lo < img.total
    ensures Holds(Zeroed(img), i, ClipNode(n), lo, img.total)
  {
    match n
    case Unused =>
    case Dir(parent, kids) =>
      ClipTiles(img.disk[lo], DirEntries(i, n), 0);
      ClipDots(i, n);
    case File(data) => FileClipped(img, i, data, lo);
  }

  /** With its last byte zero, the image stores the clipped tree. */
  lemma ClippedStores(img: Img, tree: Tree)
    requires Stores(img, tree)
    ensures Stores(Zeroed(img), Clipped(img.total, tree))
  {
    var img', tree' := Zeroed(img), Clipped(img.total, tree);
    forall i: nat | i < |tree'.nodes| ensures HoldsAt(img', tree', i) {
      assert HoldsAt(img, tree, i);
      if OwnsLast(img.total, tree, i) {
        NodeClipped(img, i, tree.nodes[i], tree.start[i]);
      } else {
        HoldsFrame(img, img', i, tree.nodes[i], tree.start[i], tree.start[i + 1]);
      }
    }
  }

  lemma ClippedShape(total: nat, tree: Tree)
    requires Shape(tree)
    ensures Shape(Clipped(total, tree)) && (AllListed(Clipped(total, tree)) <==> AllListed(tree))
  {
    var tree' := Clipped(total, tree);
    forall d: nat ensures KidsOk(tree', d) {
      assert KidsOk(tree, d);
      if IsDir(tree', d) {
        forall e | e in tree'.nodes[d].kids ensures KidOk(tree', d, e) {
          var k :| 0 <= k < |tree'.nodes[d].kids| && tree'.nodes[d].kids[k] == e;
          assert KidOk(tree, d, tree.nodes[d].kids[k]);
          ClipName(tree.nodes[d].kids, 32, k);
        }
      }
    }
    forall i: nat ensures PlacedAt(tree', i) {
      assert PlacedAt(tree, i);
      if 3 <= i < |tree.nodes| && tree.par[i] != 0 {
        var kids := tree.nodes[tree.par[i]].kids;
        var k :| 0 <= k < |kids| && kids[k].ino == i;
        assert tree'.nodes[tree.par[i]].kids[k].ino == i;
      }
    }
  }

  lemma SameFinal(img: Img)
    requires Geometry(img) && TableFits(img.inodes)
    ensures Geometry(Zeroed(img)) && FinalDisk(Zeroed(img)) == FinalDisk(img)
  {
    var img' := Zeroed(img);
    assert ZeroLast(ZeroLast(img.disk[img.total - 1])) == ZeroLast(img.disk[img.total - 1]);
    forall b | 0 <= b < img.total ensures FinalBlock(img', b) == FinalBlock(img, b) { }
  }
}

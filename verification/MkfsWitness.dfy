/** Arguments on which `mkfs.viperfs` does not do what one would expect of it: the conditions of the theorems about
    its images are not empty. */
module MkfsWitness {
  import opened ViperFormat
  import opened Mkfs
  import opened MkfsImage
  import opened MkfsPaths
  import opened MkfsPlan
  import opened Resolve
  import opened MkfsNames
  import opened MkfsFinal
  import opened MkfsMain

  const A: seq<u8> := [65]

  /** One file of `n` full chunks of ones, put into the root directory. */
  function Ones(n: nat): (data: seq<u8>)
    ensures |data| == BLOCK_SIZE * n
  {
    seq(BLOCK_SIZE * n, _ => 1)
  }

  function OneFile(n: nat): seq<Arg> {
    [AddRoot(A, Contents(Ones(n)))]
  }

  lemma NameA()
    ensures BaseName(A) == A && NameOk(A) && Need(A) == 16
  {
    assert LastSlash(A) == 1;
    PlainNameOk(A);
  }

  lemma OneFileOk(n: nat)
    requires BLOCK_SIZE * n < U64 - BLOCK_SIZE
    ensures forall a :: a in OneFile(n) ==> ArgOk(a)
  {
    NameA();
  }

  /** The plan for one file: inode 3, in the blocks after the root directory, if there are enough of them. */
  lemma OneFilePlan(sizeMb: nat, n: nat)
    requires 1 + BitmapOf(sizeMb) + TableOf(sizeMb) + 1 + Span(BLOCK_SIZE * n) <= BlocksOf(sizeMb)
    ensures var p, b := PlanOf(sizeMb, OneFile(n)), 1 + BitmapOf(sizeMb) + TableOf(sizeMb);
            && p.Planned? && p.made == [3]
            && |p.site.tree.nodes| == 4 && p.site.tree.nodes[3] == File(Ones(n))
            && p.site.tree.start == [b, b, b, b + 1, b + 1 + Span(BLOCK_SIZE * n)]
  {
    var b, args := 1 + BitmapOf(sizeMb) + TableOf(sizeMb), OneFile(n);
    var lim, s, a := LimitsOf(sizeMb), FirstSite(b), args[0];
    NameA();
    FirstRooted(b);
    FreshRoom(b);
    hide BlocksOf, BitmapOf, TableOf, Span, Ones, Used, Need, BaseName, NameOk;
    assert lim.inodes >= 64 by { ManyInodes(sizeMb); }
    assert Fits(lim, s.tree, File(Ones(n)));
    assert args[..0] == [];
    assert RunPlan(lim, s, []) == Planned(s, []);
    assert RunPlan(lim, s, args) == Planned(Enter(lim, s, a).0, [] + [3]);
  }

  lemma ManyInodes(sizeMb: nat)
    ensures LimitsOf(sizeMb).inodes >= 64
  {
  }

  lemma FreshRoom(b: nat)
    ensures IsDir(FirstTree(b), ROOT_INODE) && HasRoom(FirstTree(b), ROOT_INODE, A)
  {
    var ents := DirEntries(ROOT_INODE, Dir(ROOT_INODE, []));
    assert ents == [Ent(ROOT_INODE, FT_DIR, Dot), Ent(ROOT_INODE, FT_DIR, DotDot)];
    var tail := ents[1..];
    assert tail == [Ent(ROOT_INODE, FT_DIR, DotDot)] && tail[1..] == [];
    assert Need(Dot) == 16 && Need(DotDot) == 16;
    assert Used(tail) == Need(tail[0].name) + Used(tail[1..]);
    assert Used(ents) == Need(ents[0].name) + Used(tail);
  }

  /** A file that fills a 1 MB image to its last block loses its last byte. */
  method LosesLastByte(now: nat) returns (image: seq<Block>, made: seq<nat>, ghost raw: Img, ghost tree: Tree)
    requires now < U64
    ensures Built(1, OneFile(247), image, made, raw, tree) && made == [3] && 3 < |raw.inodes|
    ensures Geometry(raw) && !LastByteKept(raw)
    ensures |raw.inodes[3].direct| == 12 && !Readable(image, raw.inodes[3], Ones(247), 246)
  {
    OneFileOk(247);
    Full();
    OneFilePlan(1, 247);
    hide PlanOf, OneFile, Ones;
    var done, free;
    done, image, made, free, raw, tree := BuildImage(1, OneFile(247), now);
    LastByteGone(raw, tree);
  }

  lemma Full()
    ensures BlocksOf(1) == 256 && BitmapOf(1) == 1 && TableOf(1) == 5 && Span(BLOCK_SIZE * 247) == 248
    ensures Chunks(BLOCK_SIZE * 247) == 247 && Stored(BLOCK_SIZE * 247) == 247
  {
  }

  lemma LastByteGone(raw: Img, tree: Tree)
    requires Stores(raw, tree) && TableFits(raw.inodes) && raw.total == 256
    requires |tree.nodes| == 4 && tree.nodes[3] == File(Ones(247)) && tree.start == [7, 7, 7, 8, 256]
    ensures 3 < |raw.inodes| && !LastByteKept(raw)
    ensures |raw.inodes[3].direct| == 12 && !Readable(FinalDisk(raw), raw.inodes[3], Ones(247), 246)
  {
    Full();
    LastStored(raw, tree);
    LastWritten(raw);
    LastChunk();
    hide Stores, FinalDisk, Ones, Chunk, Pack, TableFits;
    PointerResolves(FinalDisk(raw), raw.inodes[3], 8, 246);
  }

  /** The file's last chunk lies in the last block, and its pointers in block 20. */
  lemma LastStored(raw: Img, tree: Tree)
    requires Stores(raw, tree) && raw.total == 256
    requires |tree.nodes| == 4 && tree.nodes[3] == File(Ones(247)) && tree.start == [7, 7, 7, 8, 256]
    ensures Geometry(raw) && raw.nextBlock == 256 && DataStart(raw) == 7 && 3 < |raw.inodes|
    ensures raw.inodes[3] == FileInode(3, BLOCK_SIZE * 247, raw.inodes[3].time, 8)
    ensures 246 < Chunks(|Ones(247)|) && raw.disk[255] == Chunk(Ones(247), 246)
    ensures raw.disk[20] == Pack(IndirectOf(8, 247))
  {
    Full();
    hide Ones, Chunk, Pack, BitsBelow;
    assert HoldsAt(raw, tree, 3);
    assert ChunkAt(raw, Ones(247), 8, 246);
  }

  lemma LastWritten(raw: Img)
    requires Geometry(raw) && TableFits(raw.inodes) && raw.total == 256 && DataStart(raw) == 7
    ensures |FinalDisk(raw)| == 256
    ensures FinalDisk(raw)[255] == ZeroLast(raw.disk[255]) && FinalDisk(raw)[20] == raw.disk[20]
  {
  }

  lemma LastChunk()
    ensures 246 < Chunks(|Ones(247)|) && Chunk(Ones(247), 246)[BLOCK_SIZE - 1] == 1
  {
  }

  /** A file of 525 chunks is built without complaint, and its last chunk cannot be read. */
  method LosesChunks(now: nat) returns (image: seq<Block>, made: seq<nat>, ghost raw: Img, ghost tree: Tree)
    requires now < U64
    ensures Built(3, OneFile(525), image, made, raw, tree) && made == [3] && 3 < |raw.inodes|
    ensures |raw.inodes[3].direct| == 12 && Chunks(|Ones(525)|) == 525
    ensures !forall k: nat :: k < 525 ==> Readable(image, raw.inodes[3], Ones(525), k)
  {
    OneFileOk(525);
    Long();
    OneFilePlan(3, 525);
    hide PlanOf, OneFile, Ones;
    var done, free;
    done, image, made, free, raw, tree := BuildImage(3, OneFile(525), now);
    ReadBackExactly(raw, tree, 3);
  }

  lemma Long()
    ensures BlocksOf(3) == 768 && BitmapOf(3) == 1 && TableOf(3) == 13 && Span(BLOCK_SIZE * 525) == 525
    ensures Chunks(BLOCK_SIZE * 525) == 525
  {
  }

  /** Two files for one destination: both get an inode, and the second is never found. */
  lemma SecondHidden()
    ensures var args := [AddRoot(A, Contents([])), AddRoot(A, Contents([]))];
            var p := PlanOf(1, args);
            && p.Planned? && p.made == [3, 4] && Clash(args, p.made, 0, 1)
            && TreeWalk(p.site.tree, ROOT_INODE, Spot(args[1])) == 3
  {
    var b, args := 7, [AddRoot(A, Contents([])), AddRoot(A, Contents([]))];
    var lim, s0 := LimitsOf(1), FirstSite(b);
    Full();
    NameA();
    FirstRooted(b);
    FreshRoom(b);
    var s1 := Enter(lim, s0, args[0]).0;
    assert s1.tree == AddKid(AddNode(s0.tree, File([]), ROOT_INODE, 8), ROOT_INODE, Ent(3, FT_FILE, A));
    SecondRoom(b);
    var s2 := Enter(lim, s1, args[1]).0;
    TwoArgs(lim, s0, args[0], args[1], s1, 3, s2, 4);
    FirstA(s2.tree);
  }

  lemma SecondRoom(b: nat)
    ensures HasRoom(AddKid(AddNode(FirstTree(b), File([]), ROOT_INODE, b + 1), ROOT_INODE, Ent(3, FT_FILE, A)), ROOT_INODE, A)
  {
    NameA();
    var kid := Ent(3, FT_FILE, A);
    var t := AddKid(AddNode(FirstTree(b), File([]), ROOT_INODE, b + 1), ROOT_INODE, kid);
    assert t.nodes[ROOT_INODE].kids == [kid];
    var ents := DirEntries(ROOT_INODE, Dir(ROOT_INODE, [kid]));
    var tail := ents[1..];
    assert tail == [Ent(ROOT_INODE, FT_DIR, DotDot), kid] && tail[1..] == [kid] && [kid][1..] == [];
    assert Need(Dot) == 16 && Need(DotDot) == 16;
    assert Used([kid]) == 16 + Used([kid][1..]);
    assert Used(tail) == 16 + Used(tail[1..]);
    assert Used(ents) == 16 + Used(tail);
  }

  lemma FirstA(tree: Tree)
    requires IsDir(tree, ROOT_INODE) && |tree.nodes| == 5
    requires tree.nodes[ROOT_INODE].kids == [Ent(3, FT_FILE, A), Ent(4, FT_FILE, A)]
    ensures TreeWalk(tree, ROOT_INODE, [A]) == 3
  {
    var ents := DirEntries(ROOT_INODE, tree.nodes[ROOT_INODE]);
    assert ents[1..][1..][0] == Ent(3, FT_FILE, A);
    assert First(ents, A) == First(ents[1..], A) == First(ents[1..][1..], A) == 3;
    assert [A][1..] == [];
  }

  const PathAB: seq<u8> := [97, 47, 98]
  const PathAAB: seq<u8> := [97, 47, 47, 98]

  lemma SplitAB()
    ensures Normalize(PathAB) == PathAB && ParentPath(PathAB) == [97] && BaseName(PathAB) == [98]
    ensures Normalize(PathAAB) == PathAAB && ParentPath(PathAAB) == [97, 47] && BaseName(PathAAB) == [98]
    ensures Normalize([97, 47]) == [97] == Normalize([97]) && ParentPath([97]) == [] && BaseName([97]) == [97]
  {
    assert LastSlash([97]) == 1;
    assert PathAB[..2] == [97, 47] && LastSlash([97, 47]) == 1;
    assert PathAAB[..3] == [97, 47, 47] && LastSlash([97, 47, 47]) == 2;
    assert [97, 47][..1] == [97] && StripBack([97]) == [97];
  }

  lemma SmallRoom(tree: Tree, d: nat, name: seq<u8>)
    requires IsDir(tree, d) && |tree.nodes[d].kids| <= 1 && |name| == 1
    requires forall e :: e in tree.nodes[d].kids ==> |e.name| == 1
    ensures HasRoom(tree, d, name)
  {
    var ents, kids := DirEntries(d, tree.nodes[d]), tree.nodes[d].kids;
    var tail := ents[1..];
    assert tail[1..] == kids;
    assert Need(Dot) == 16 && Need(DotDot) == 16 && Need(name) == 16;
    assert Used(ents) == 16 + Used(tail);
    assert Used(tail) == 16 + Used(tail[1..]);
    if kids != [] {
      assert kids[0] in kids && kids[1..] == [];
      assert Used(kids) == Need(kids[0].name) + Used(kids[1..]);
    }
  }

  const Small := Limits(256, 80)

  /** A small directory of a small image has room for one more. */
  lemma MakesDir(s: Site, d: nat, p: seq<u8>)
    requires Sited(s) && IsDir(s.tree, d) && |s.tree.nodes| < 80 && EndOf(s.tree) < 256 && |BaseName(p)| == 1
    requires |s.tree.nodes[d].kids| <= 1 && forall e :: e in s.tree.nodes[d].kids ==> |e.name| == 1
    ensures var ino := |s.tree.nodes|;
            var (t, r) := EnterDir(Small, s, d, p);
            && r == Made(ino) && t.dirs == s.dirs[p := ino] && ino > d
            && |t.tree.nodes| == ino + 1 && EndOf(t.tree) == EndOf(s.tree) + 1 && t.tree.nodes[ino] == Dir(d, [])
            && t.tree.nodes[d].Dir? && t.tree.nodes[d].kids == s.tree.nodes[d].kids + [Ent(ino, FT_DIR, BaseName(p))]
  {
    hide BaseName;
    SmallRoom(s.tree, d, BaseName(p));
  }

  lemma EnsureStep(lim: Limits, s: Site, path: seq<u8>, s1: Site, d: nat)
    requires Sited(s) && Sited(s1) && IsDir(s1.tree, d) && d != 0
    requires Normalize(path) != [] && Normalize(path) !in s.dirs
    requires Ensure(lim, s, ParentPath(Normalize(path))) == (s1, Made(d))
    ensures Ensure(lim, s, path) == EnterDir(lim, s1, d, Normalize(path))
  {
  }

  lemma EnsureKnown(lim: Limits, s: Site, path: seq<u8>)
    requires Sited(s)
    ensures Normalize(path) == [] ==> Ensure(lim, s, path) == (s, Made(ROOT_INODE))
    ensures Normalize(path) != [] && Normalize(path) in s.dirs ==> Ensure(lim, s, path) == (s, Made(s.dirs[Normalize(path)]))
  {
  }

  lemma MakeA() returns (s: Site)
    ensures Sited(FirstSite(7)) && Sited(s) && Ensure(Small, FirstSite(7), [97, 47]) == (s, Made(3))
    ensures |s.tree.nodes| == 4 && EndOf(s.tree) == 9 && s.tree.nodes[3] == Dir(2, [])
    ensures s.dirs == map[[] := 2, [97] := 3]
  {
    var s0 := FirstSite(7);
    FirstRooted(7);
    SplitAB();
    EnsureKnown(Small, s0, []);
    assert Normalize([]) == [];
    hide Ensure, Normalize, ParentPath, BaseName, Put;
    EnsureStep(Small, s0, [97, 47], s0, ROOT_INODE);
    MakesDir(s0, ROOT_INODE, [97]);
    s := EnterDir(Small, s0, ROOT_INODE, [97]).0;
  }

  lemma MakeAAB() returns (s: Site)
    ensures Sited(FirstSite(7)) && Sited(s) && Ensure(Small, FirstSite(7), PathAAB) == (s, Made(4))
    ensures |s.tree.nodes| == 5 && EndOf(s.tree) == 10 && IsDir(s.tree, 3)
    ensures s.tree.nodes[3].kids == [Ent(4, FT_DIR, [98])] && s.dirs == map[[] := 2, [97] := 3, PathAAB := 4]
  {
    var s1 := MakeA();
    SplitAB();
    hide Ensure, Normalize, ParentPath, BaseName, Put, Sited;
    EnsureStep(Small, FirstSite(7), PathAAB, s1, 3);
    MakesDir(s1, 3, PathAAB);
    s := EnterDir(Small, s1, 3, PathAAB).0;
  }

  lemma MakeTwice(s: Site)
    requires Sited(s) && |s.tree.nodes| == 5 && EndOf(s.tree) == 10 && IsDir(s.tree, 3)
    requires s.tree.nodes[3].kids == [Ent(4, FT_DIR, [98])] && s.dirs == map[[] := 2, [97] := 3, PathAAB := 4]
    ensures Ensure(Small, s, PathAB).1 == Made(5)
  {
    SplitAB();
    EnsureKnown(Small, s, [97]);
    hide Ensure, Normalize, ParentPath, BaseName, Put, Sited;
    EnsureStep(Small, s, PathAB, s, 3);
    MakesDir(s, 3, PathAB);
  }

  lemma TwoArgs(lim: Limits, s: Site, a: Arg, b: Arg, s1: Site, i: nat, s2: Site, j: nat)
    requires Sited(s) && Sited(s1) && i != 0 && j != 0
    requires Enter(lim, s, a) == (s1, Made(i)) && Enter(lim, s1, b) == (s2, Made(j))
    ensures RunPlan(lim, s, [a, b]) == Planned(s2, [i, j])
  {
    hide Enter;
    assert [a, b][..1] == [a] && [a][..0] == [];
    assert RunPlan(lim, s, []) == Planned(s, []);
    assert RunPlan(lim, s, [a]) == Planned(s1, [] + [i]);
  }

  lemma TwoMkdirs()
    ensures Sited(FirstSite(7))
    ensures var p := RunPlan(Small, FirstSite(7), [Mkdir(PathAAB), Mkdir(PathAB)]); p.Planned? && p.made == [4, 5]
  {
    SplitAB();
    var s := MakeAAB();
    MakeTwice(s);
    hide Ensure, Normalize, FirstSite, Sited, RunPlan;
    TwoArgs(Small, FirstSite(7), Mkdir(PathAAB), Mkdir(PathAB), s, 4, Ensure(Small, s, PathAB).0, 5);
  }

  lemma SmallPlan(args: seq<Arg>)
    ensures Sited(FirstSite(7)) && PlanOf(1, args) == RunPlan(Small, FirstSite(7), args)
  {
    Full();
    FirstRooted(7);
  }

  /** The same two components spelt once with a doubled slash: the writer takes the spellings for different paths
      and makes the directory twice, although no file is in the way. */
  lemma DoubledSlash()
    ensures var args := [Mkdir(PathAAB), Mkdir(PathAB)];
            var p := PlanOf(1, args);
            && Spot(args[0]) == Spot(args[1]) && p.Planned? && p.made == [4, 5]
            && (forall i: nat, j: nat :: !Clash(args, p.made, i, j)) && SpeltTwice(args, 0, 1, PathAAB, PathAB)
  {
    hide PlanOf, RunPlan, FirstSite, Sited, Parts, SpeltTwice;
    SmallPlan([Mkdir(PathAAB), Mkdir(PathAB)]);
    TwoMkdirs();
    SameParts();
    TwoSpellings();
  }

  lemma TwoSpellings()
    ensures SpeltTwice([Mkdir(PathAAB), Mkdir(PathAB)], 0, 1, PathAAB, PathAB)
  {
    SplitAB();
    SameParts();
  }

  lemma SameParts()
    ensures Parts(PathAAB) == Parts(PathAB)
  {
    SplitAB();
    assert Parts([97, 47]) == Parts([97]);
  }
}

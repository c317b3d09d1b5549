/** The program `mkfs.viperfs`: build an image from its arguments (tools/mkfs.viperfs.cpp). */
module MkfsMain {
  import opened ViperFormat
  import opened Fsck
  import opened MkfsImage
  import opened MkfsPaths
  import opened MkfsPlan
  import opened Resolve
  import opened MkfsNames
  import opened MkfsClip
  import opened MkfsLost
  import opened MkfsFinal
  import opened MkfsTool

  /** One argument: the outcome and the new state are what the plan says. */
  method Process(img: DiskImage, a: Arg, now: nat) returns (r: Made)
    requires img.Valid() && Sited(img.Here()) && ArgOk(a) && now < U64
    modifies img
    ensures r == Enter(old(img.Lim()), old(img.Here()), a).1 && img.Lim() == old(img.Lim())
    ensures !Ends(a, r) ==> img.Valid() && Sited(img.Here()) && img.Here() == Enter(old(img.Lim()), old(img.Here()), a).0
  {
    match a
    case Mkdir(path) =>
      MkdirNames(path);
      hide Stores, Rooted, Sited, Ensure, Normalize, Parts, NameOk, Spot;
      r := img.EnsureDirectory(Normalize(path), now);
    case AddAt(path, file) =>
      if file.Missing? { return Made(0); }
      AddAtNames(path, file);
      hide Stores, Rooted, Sited, Ensure, Normalize, Parts, Put, NameOk, BaseName, ParentPath, Spot;
      r := img.EnsureDirectory(ParentPath(Normalize(path)), now);
      if r.Exit? || r.ino == 0 { return; }
      r := EnterHost(img, r.ino, BaseName(Normalize(path)), file.data, now);
    case AddRoot(path, file) =>
      if file.Missing? { return Made(0); }
      assert Spot(a)[0] == BaseName(path);
      hide Stores, Rooted, Sited, Put, NameOk, BaseName;
      r := EnterHost(img, ROOT_INODE, BaseName(path), file.data, now);
  }

  method EnterHost(img: DiskImage, d: nat, name: seq<u8>, data: seq<u8>, now: nat) returns (r: Made)
    requires img.Valid() && Sited(img.Here()) && IsDir(img.tree, d) && Attached(img.tree, d) && NameOk(name) && now < U64
    requires |data| < U64 - BLOCK_SIZE
    modifies img
    ensures r == EnterFile(old(img.Lim()), old(img.Here()), d, name, data).1 && img.Lim() == old(img.Lim())
    ensures r.Made? ==>
              img.Valid() && Sited(img.Here()) && img.Here() == EnterFile(old(img.Lim()), old(img.Here()), d, name, data).0
  {
    hide Stores, Rooted, Sited, Put, PathTo;
    r := img.AddFile(d, name, data, now);
  }

  lemma MkdirNames(path: seq<u8>)
    requires ArgOk(Mkdir(path))
    ensures PathOk(Normalize(path))
  {
    assert Spot(Mkdir(path)) == Parts(path);
    NormalizeOk(path);
  }

  lemma AddAtNames(path: seq<u8>, file: Host)
    requires ArgOk(AddAt(path, file))
    ensures PathOk(ParentPath(Normalize(path))) && NameOk(BaseName(Normalize(path)))
  {
    var a, up := AddAt(path, file), ParentPath(Normalize(path));
    assert Spot(a)[|Parts(up)|] == BaseName(Normalize(path));
    forall k | 0 <= k < |Parts(up)| ensures NameOk(Parts(up)[k]) { assert Spot(a)[k] == Parts(up)[k]; }
  }

  // --------------------------------------------------------------------- the whole program

  /** `image` is the file form of the image value `raw`, which stores the tree planned for the arguments. */
  ghost predicate Built(sizeMb: nat, args: seq<Arg>, image: seq<Block>, made: seq<nat>, raw: Img, tree: Tree) {
    var p := PlanOf(sizeMb, args);
    && p.Planned? && made == p.made && tree == p.site.tree && Rooted(p.site)
    && Stores(raw, tree) && TableFits(raw.inodes) && image == FinalDisk(raw)
  }

  /** Build an image. The program finishes exactly when its plan does; `made[i]` is then the inode for argument
      `i`, and `free` the number of unallocated blocks it prints. */
  method BuildImage(sizeMb: nat, args: seq<Arg>, now: nat)
      returns (done: bool, image: seq<Block>, made: seq<nat>, free: nat, ghost raw: Img, ghost tree: Tree)
    requires 1 <= sizeMb < 0x8000_0000 && now < U64 && forall a :: a in args ==> ArgOk(a)
    ensures done <==> PlanOf(sizeMb, args).Planned?
    ensures done ==> Built(sizeMb, args, image, made, raw, tree) && raw.total == BlocksOf(sizeMb) && free == raw.total - raw.nextBlock
    ensures done ==> |made| == |args| && forall i :: 0 <= i < |args| ==> MadeAt(tree, args[i], made[i])
    ensures done ==>
              && Opens(image) && Checkable(Load(image)) && Checked(Load(image)).errors == 0
              && (Checked(Load(image)).warnings == 0 <==> forall i: nat :: !Dropped(args, made, i))
    ensures done ==> (AllRead(image, args, made) <==> forall i: nat :: !DataLost(raw, tree, made, i))
    ensures done ==>
              (AllFoundIn(image, args, made) <==>
                 (forall i: nat, j: nat :: !Clash(args, made, i, j)) && !Respelt(args) && !NameLost(raw.total, tree))
  {
    done, image, made, free := false, [], [], 0;
    var img := StartImage(sizeMb, now);
    raw, tree := img.Value(), img.tree;
    assert PlanOf(sizeMb, args) == RunPlan(img.Lim(), img.Here(), args);
    hide Stores, Rooted, Sited, RunPlan, PlanOf, FinalDisk, Checked, Load, Opens, MadeAt, ArgOk, AllRead, AllFoundIn, Respelt, Clash,
         NameLost, DataLost;
    var ok;
    ok, made := EnterAll(img, args, now);
    if !ok { return; }
    raw, tree := img.Value(), img.tree;
    image, free := FinishImage(img);
    done := true;
    BuiltPlaces(sizeMb, args, image, made, raw, tree);
    BuiltClean(sizeMb, args, image, made, raw, tree);
    BuiltReads(sizeMb, args, image, made, raw, tree);
    BuiltFound(sizeMb, args, image, made, raw, tree);
  }

  method StartImage(sizeMb: nat, now: nat) returns (img: DiskImage)
    requires 1 <= sizeMb < 0x8000_0000 && now < U64
    ensures fresh(img) && img.Valid() && Sited(img.Here())
    ensures img.Lim() == LimitsOf(sizeMb) && img.Here() == FirstSite(1 + BitmapOf(sizeMb) + TableOf(sizeMb))
  {
    img := new DiskImage(sizeMb);
    var ok := img.CreateRoot(now);
    FirstRooted(1 + BitmapOf(sizeMb) + TableOf(sizeMb));
  }

  method FinishImage(img: DiskImage) returns (image: seq<Block>, free: nat)
    requires img.Valid()
    ensures Geometry(img.Value()) && TableFits(img.inodes)
    ensures image == FinalDisk(img.Value()) && free == img.total - img.nextBlock
  {
    StoredFits(img.Value(), img.tree);
    StoredGeometry(img.Value(), img.tree);
    hide Stores, Rooted, TableFits;
    free := img.total - img.used;
    image := img.Finalize();
  }

  /** All arguments in turn, until one ends the program. */
  method EnterAll(img: DiskImage, args: seq<Arg>, now: nat) returns (ok: bool, made: seq<nat>)
    requires img.Valid() && Sited(img.Here()) && now < U64 && forall a :: a in args ==> ArgOk(a)
    modifies img
    ensures img.Lim() == old(img.Lim())
    ensures ok <==> RunPlan(old(img.Lim()), old(img.Here()), args).Planned?
    ensures ok ==> img.Valid() && RunPlan(old(img.Lim()), old(img.Here()), args) == Planned(img.Here(), made)
  {
    hide Sited, RunPlan, ArgOk, DiskImage.Valid, DiskImage.Here, DiskImage.Lim;
    ghost var lim, first := img.Lim(), img.Here();
    made := [];
    PlanNone(lim, first);
    assert args[..0] == [];
    var i := 0;
    while i < |args|
      invariant i == |made| <= |args|
      invariant img.Valid() && Sited(img.Here()) && img.Lim() == lim
      invariant RunPlan(lim, first, args[..i]) == Planned(img.Here(), made)
    {
      var ends, ino := EnterNext(img, args, i, now, lim, first, made);
      if ends { return false, made; }
      made := made + [ino];
      i := i + 1;
    }
    assert args[..|args|] == args;
    ok := true;
  }

  /** The argument `i`, after the ones before it were entered. */
  method EnterNext(img: DiskImage, args: seq<Arg>, i: nat, now: nat, ghost lim: Limits, ghost first: Site, ghost made: seq<nat>)
      returns (ends: bool, ino: nat)
    requires img.Valid() && Sited(img.Here()) && now < U64 && i < |args| && ArgOk(args[i])
    requires img.Lim() == lim && Sited(first) && RunPlan(lim, first, args[..i]) == Planned(img.Here(), made)
    modifies img
    ensures img.Lim() == lim
    ensures ends ==> RunPlan(lim, first, args).Failed?
    ensures !ends ==>
              img.Valid() && Sited(img.Here()) && RunPlan(lim, first, args[..i + 1]) == Planned(img.Here(), made + [ino])
  {
    hide Sited, Enter, RunPlan, ArgOk, DiskImage.Valid, DiskImage.Here, DiskImage.Lim;
    PlanStep(lim, first, args, i, img.Here(), made);
    var r := Process(img, args[i], now);
    ends, ino := r.Exit? || (r.ino == 0 && !args[i].AddRoot?), 0;
    if ends {
      PlanFails(lim, first, args, i + 1);
    } else {
      ino := r.ino;
    }
  }

  lemma StoredGeometry(img: Img, tree: Tree)
    requires Stores(img, tree)
    ensures Geometry(img)
  {
  }

  lemma PlanNone(lim: Limits, s: Site)
    requires Sited(s)
    ensures RunPlan(lim, s, []) == Planned(s, [])
  {
  }

  lemma PlanStep(lim: Limits, s: Site, args: seq<Arg>, i: nat, at: Site, made: seq<nat>)
    requires Sited(s) && Sited(at) && i < |args| && RunPlan(lim, s, args[..i]) == Planned(at, made)
    ensures var (s', r) := Enter(lim, at, args[i]);
            RunPlan(lim, s, args[..i + 1]) == if Ends(args[i], r) then Failed else Planned(s', made + [r.ino])
  {
    hide Sited, Enter;
    assert args[..i + 1][..i] == args[..i] && args[..i + 1][i] == args[i];
  }

  lemma {:induction false} PlanFails(lim: Limits, s: Site, args: seq<Arg>, i: nat)
    requires Sited(s) && i <= |args| && RunPlan(lim, s, args[..i]).Failed?
    ensures RunPlan(lim, s, args).Failed?
    decreases |args| - i
  {
    hide Sited, Enter;
    if i == |args| {
      assert args[..i] == args;
    } else {
      assert args[..i + 1][..i] == args[..i];
      PlanFails(lim, s, args, i + 1);
    }
  }

  /** Every argument's file or directory is listed at the place it asked for. */
  lemma BuiltPlaces(sizeMb: nat, args: seq<Arg>, image: seq<Block>, made: seq<nat>, raw: Img, tree: Tree)
    requires Built(sizeMb, args, image, made, raw, tree) && forall a :: a in args ==> ArgOk(a)
    ensures |made| == |args| && (forall i :: 0 <= i < |args| ==> MadeAt(tree, args[i], made[i])) && PlanOf(sizeMb, args).Planned?
    ensures Rooted(PlanOf(sizeMb, args).site) && (AllListed(tree) <==> forall i: nat :: !Dropped(args, made, i))
  {
    var b := 1 + BitmapOf(sizeMb) + TableOf(sizeMb);
    FirstRooted(b);
    assert PlanOf(sizeMb, args) == RunPlan(LimitsOf(sizeMb), FirstSite(b), args);
    hide PlanOf, RunPlan, FirstSite, FirstTree, Rooted, Stores, ArgOk, MadeAt, AllListed;
    PlanFinds(LimitsOf(sizeMb), FirstSite(b), args);
  }

  /** The checker finds no error, and nothing to warn of either exactly when no file that was read was left out
      for want of room in the root directory. */
  lemma BuiltClean(sizeMb: nat, args: seq<Arg>, image: seq<Block>, made: seq<nat>, raw: Img, tree: Tree)
    requires Built(sizeMb, args, image, made, raw, tree) && (forall a :: a in args ==> ArgOk(a))
    ensures Opens(image) && Checkable(Load(image)) && Checked(Load(image)).errors == 0
    ensures Checked(Load(image)).warnings == 0 <==> forall i: nat :: !Dropped(args, made, i)
  {
    BuiltPlaces(sizeMb, args, image, made, raw, tree);
    assert Shape(tree) && tree.nodes[ROOT_INODE].parent == ROOT_INODE;
    hide Stores, Shape, PlanOf, FinalDisk, Checked;
    WriterPassesChecker(raw, tree);
  }

  /** The kernel, following the components of an argument's place from the root of the image, reaches the inode
      reported for it. */
  predicate FoundIn(image: seq<Block>, a: Arg, ino: nat) {
    Opens(image) && WalkFrom(Load(image), ROOT_INODE, Spot(a)) == ino
  }

  predicate AllFoundIn(image: seq<Block>, args: seq<Arg>, made: seq<nat>) {
    forall i :: 0 <= i < |args| && i < |made| && made[i] != 0 ==> FoundIn(image, args[i], made[i])
  }

  /** The kernel finds every destination exactly when no file's destination is the path of another argument or a
      directory on the way to it, no directory is spelt in two ways, and no name reaches the last byte. */
  lemma BuiltFound(sizeMb: nat, args: seq<Arg>, image: seq<Block>, made: seq<nat>, raw: Img, tree: Tree)
    requires Built(sizeMb, args, image, made, raw, tree) && raw.total == BlocksOf(sizeMb)
    requires forall a :: a in args ==> ArgOk(a)
    ensures AllFoundIn(image, args, made) <==>
              (forall i: nat, j: nat :: !Clash(args, made, i, j)) && !Respelt(args) && !NameLost(raw.total, tree)
  {
    BuiltPlaces(sizeMb, args, image, made, raw, tree);
    assert Shape(tree) && tree.nodes[ROOT_INODE].parent == ROOT_INODE;
    PlanFound(sizeMb, args);
    hide Stores, Shape, PlanOf, FinalDisk, Spot, TreeWalk, WalkFrom, Respelt, Clash, NameLost, Clipped;
    forall i: nat | i < |args| && i < |made|
      ensures FoundIn(image, args[i], made[i]) <==> FoundAt(Clipped(raw.total, tree), args[i], made[i])
    {
      KernelFollows(raw, tree, Spot(args[i]));
    }
  }

  /** The place of a `--mkdir` or `--add` argument is what its path resolves to, unless it names no file. */
  lemma SpotResolves(fs: Fs, a: Arg)
    requires Loaded(fs) && !a.AddRoot? && (a.AddAt? ==> Normalize(a.path) != [])
    ensures ResolvePath(fs, a.path) == WalkFrom(fs, ROOT_INODE, Spot(a))
  {
    SamePath(a.path);
    PartsStep(a.path);
  }

  /** Stored chunk `k` of a file can be read through its inode. */
  predicate FileReads(image: seq<Block>, ino: nat, data: seq<u8>, k: nat) {
    && Opens(image) && ino < |Load(image).inodes|
    && (k < Stored(|data|) ==> Readable(image, Load(image).inodes[ino], data, k))
  }

  predicate ReadAt(image: seq<Block>, args: seq<Arg>, made: seq<nat>, i: nat, k: nat) {
    i < |args| && i < |made| && made[i] != 0 && !args[i].Mkdir? ==>
      args[i].file.Contents? && FileReads(image, made[i], args[i].file.data, k)
  }

  /** Every chunk that was stored of a file can be read through the inode reported for it. */
  ghost predicate AllRead(image: seq<Block>, args: seq<Arg>, made: seq<nat>) {
    forall i: nat, k: nat :: ReadAt(image, args, made, i, k)
  }

  /** The file that argument `i` put into the image owns the byte that is zeroed, and it was not zero before. */
  predicate DataLost(raw: Img, tree: Tree, made: seq<nat>, i: nat) {
    i < |made| && made[i] != 0 && DataLostAt(raw.total, tree, made[i])
  }

  /** Every stored chunk of every argument's file reads back exactly when none of them lost the last byte. */
  lemma BuiltReads(sizeMb: nat, args: seq<Arg>, image: seq<Block>, made: seq<nat>, raw: Img, tree: Tree)
    requires Built(sizeMb, args, image, made, raw, tree) && forall a :: a in args ==> ArgOk(a)
    ensures AllRead(image, args, made) <==> forall i: nat :: !DataLost(raw, tree, made, i)
  {
    hide Built, ReadAt, ArgOk;
    forall i: nat, k: nat ensures !DataLost(raw, tree, made, i) ==> ReadAt(image, args, made, i, k) {
      BuiltReadAt(sizeMb, args, image, made, raw, tree, i, k);
    }
    forall i: nat ensures DataLost(raw, tree, made, i) ==> !AllRead(image, args, made) {
      if DataLost(raw, tree, made, i) {
        var k := BuiltUnreadAt(sizeMb, args, image, made, raw, tree, i);
      }
    }
  }

  lemma BuiltReadAt(sizeMb: nat, args: seq<Arg>, image: seq<Block>, made: seq<nat>, raw: Img, tree: Tree, i: nat, k: nat)
    requires Built(sizeMb, args, image, made, raw, tree) && forall a :: a in args ==> ArgOk(a)
    ensures !DataLost(raw, tree, made, i) ==> ReadAt(image, args, made, i, k)
  {
    BuiltPlaces(sizeMb, args, image, made, raw, tree);
    hide Stores, PlanOf, FinalDisk, PathTo, Spot, FileReads, Rooted, DataLostAt, ArgOk;
    if i < |args| && made[i] != 0 && !args[i].Mkdir? {
      assert MadeAt(tree, args[i], made[i]);
      FileInImage(raw, tree, made[i], k);
    }
  }

  lemma BuiltUnreadAt(sizeMb: nat, args: seq<Arg>, image: seq<Block>, made: seq<nat>, raw: Img, tree: Tree, i: nat)
      returns (k: nat)
    requires Built(sizeMb, args, image, made, raw, tree) && (forall a :: a in args ==> ArgOk(a)) && DataLost(raw, tree, made, i)
    ensures !ReadAt(image, args, made, i, k)
  {
    BuiltPlaces(sizeMb, args, image, made, raw, tree);
    assert MadeAt(tree, args[i], made[i]);
    LostHasChunk(raw.total, tree, made[i]);
    hide Stores, PlanOf, FinalDisk, PathTo, Spot, FileReads, Rooted, DataLostAt, ArgOk;
    k := Stored(|tree.nodes[made[i]].data|) - 1;
    FileInImage(raw, tree, made[i], k);
  }

  lemma LostHasChunk(total: nat, tree: Tree, i: nat)
    requires DataLostAt(total, tree, i)
    ensures tree.nodes[i].File? && Stored(|tree.nodes[i].data|) > 0
  {
  }

  lemma FileInImage(img: Img, tree: Tree, ino: nat, k: nat)
    requires Stores(img, tree) && TableFits(img.inodes) && ino < |tree.nodes| && tree.nodes[ino].File?
    ensures FileReads(FinalDisk(img), ino, tree.nodes[ino].data, k) <==>
              !(DataLostAt(img.total, tree, ino) && k + 1 == Stored(|tree.nodes[ino].data|))
  {
    SuperLoads(img);
    InodesLoad(img);
    if k < Stored(|tree.nodes[ino].data|) { ChunkReadable(img, tree, ino, k); }
  }
}

/** What `mkfs.viperfs` builds from its arguments (tools/mkfs.viperfs.cpp), as functions on the stored tree: which
    inode each argument gets, where it is listed, and when the program gives up. */
module MkfsPlan {
  import opened ViperFormat
  import opened Mkfs
  import opened MkfsImage
  import opened MkfsPaths

  // ------------------------------------------------------------------------ one addition

  /** The size of an image: its blocks and its inodes. */
  datatype Limits = Limits(blocks: nat, inodes: nat)

  /** An exit from the middle of the program, or the new inode number, zero on failure. */
  datatype Made = Exit | Made(ino: nat)

  predicate Sized(tree: Tree) {
    |tree.start| == |tree.nodes| + 1 && |tree.par| == |tree.nodes|
  }

  function EndOf(tree: Tree): nat
    requires Sized(tree)
  {
    tree.start[|tree.nodes|]
  }

  function SpanOf(n: Node): nat {
    match n
    case Unused => 0
    case Dir(_, _) => 1
    case File(data) => Span(|data|)
  }

  function TypeOf(n: Node): u8 {
    if n.Dir? then FT_DIR else FT_FILE
  }

  /** There is an inode for the node and there are blocks for all its data. */
  predicate Fits(lim: Limits, tree: Tree, n: Node)
    requires Sized(tree)
  {
    |tree.nodes| < lim.inodes && EndOf(tree) + SpanOf(n) <= lim.blocks
  }

  /** The block of directory `d` has room for one more name. */
  predicate HasRoom(tree: Tree, d: nat, name: seq<u8>)
    requires IsDir(tree, d)
  {
    Used(DirEntries(d, tree.nodes[d])) + Need(name) <= BLOCK_SIZE
  }

  /** Create node `n` under `name` in directory `d`. Without blocks or inodes the program ends; without room in
      the directory the node exists but is listed nowhere. */
  function Put(lim: Limits, tree: Tree, d: nat, name: seq<u8>, n: Node): (r: (Tree, Made))
    requires Sized(tree) && IsDir(tree, d)
    ensures Sized(r.0)
  {
    if !Fits(lim, tree, n) then (tree, Exit)
    else
      var ino, hi := |tree.nodes|, EndOf(tree) + SpanOf(n);
      if HasRoom(tree, d, name) then (AddKid(AddNode(tree, n, d, hi), d, Ent(ino, TypeOf(n), name)), Made(ino))
      else (AddNode(tree, n, 0, hi), Made(0))
  }

  predicate KeptAt(t: Tree, t': Tree, i: nat)
    requires i < |t.nodes| <= |t'.nodes|
  {
    && (t.nodes[i].File? ==> t'.nodes[i] == t.nodes[i])
    && (t.nodes[i].Dir? ==> t'.nodes[i].Dir? && t'.nodes[i].parent == t.nodes[i].parent && t.nodes[i].kids <= t'.nodes[i].kids)
  }

  /** Files stay as they are and where they are; directories only gain entries. */
  predicate Grows(t: Tree, t': Tree) {
    && |t.nodes| <= |t'.nodes| && t.start <= t'.start && t.par <= t'.par
    && forall i: nat :: i < |t.nodes| ==> KeptAt(t, t', i)
  }

  lemma GrowsThen(a: Tree, b: Tree, c: Tree)
    requires Grows(a, b) && Grows(b, c)
    ensures Grows(a, c)
  {
    forall i: nat | i < |a.nodes| ensures KeptAt(a, c, i) {
      assert KeptAt(a, b, i) && KeptAt(b, c, i);
    }
  }

  lemma GrowsSame(t: Tree)
    ensures Grows(t, t)
  {
    forall i: nat | i < |t.nodes| ensures KeptAt(t, t, i) { }
  }

  lemma DirKept(t: Tree, t': Tree, d: nat)
    requires Grows(t, t') && IsDir(t, d)
    ensures IsDir(t', d)
  {
    assert KeptAt(t, t', d);
  }

  lemma PutGrows(lim: Limits, tree: Tree, d: nat, name: seq<u8>, n: Node)
    requires Sized(tree) && IsDir(tree, d)
    ensures Grows(tree, Put(lim, tree, d, name, n).0)
  {
    var t := Put(lim, tree, d, name, n).0;
    forall i: nat | i < |tree.nodes| ensures KeptAt(tree, t, i) { }
  }

  // -------------------------------------------------------------------------- arguments

  /** The tree under construction and the directories made so far, by normalized path. */
  datatype Site = Site(tree: Tree, dirs: map<seq<u8>, nat>)

  predicate DirKnown(s: Site, p: seq<u8>) {
    p in s.dirs ==> IsDir(s.tree, s.dirs[p])
  }

  ghost predicate Sited(s: Site) {
    Sized(s.tree) && IsDir(s.tree, ROOT_INODE) && forall p :: DirKnown(s, p)
  }

  lemma SiteGrows(s: Site, t: Tree)
    requires Sited(s) && Grows(s.tree, t) && Sized(t)
    ensures Sited(s.(tree := t))
  {
    DirKept(s.tree, t, ROOT_INODE);
    var s' := s.(tree := t);
    forall p ensures DirKnown(s', p) {
      assert DirKnown(s, p);
      if p in s.dirs { DirKept(s.tree, t, s.dirs[p]); }
    }
  }

  lemma SiteMore(s: Site, p: seq<u8>, d: nat)
    requires Sited(s) && IsDir(s.tree, d)
    ensures Sited(s.(dirs := s.dirs[p := d]))
  {
    var s' := s.(dirs := s.dirs[p := d]);
    forall q ensures DirKnown(s', q) { assert DirKnown(s, q); }
  }

  /** The inode of a directory path, creating it and its parents where missing. */
  ghost function Ensure(lim: Limits, s: Site, path: seq<u8>): (r: (Site, Made))
    requires Sited(s)
    ensures Sited(r.0) && (r.1.Made? && r.1.ino != 0 ==> IsDir(r.0.tree, r.1.ino))
    decreases |path|
  {
    var p := Normalize(path);
    if p == [] then (s, Made(ROOT_INODE))
    else if p in s.dirs then
      assert DirKnown(s, p);
      (s, Made(s.dirs[p]))
    else
      var (s1, r) := Ensure(lim, s, ParentPath(p));
      if r.Exit? || r.ino == 0 then (s1, r)
      else EnterDir(lim, s1, r.ino, p)
  }

  /** Make directory `p` under directory `d` and remember it. */
  ghost function EnterDir(lim: Limits, s: Site, d: nat, p: seq<u8>): (r: (Site, Made))
    requires Sited(s) && IsDir(s.tree, d)
    ensures Sited(r.0) && (r.1.Made? && r.1.ino != 0 ==> IsDir(r.0.tree, r.1.ino))
  {
    var (t, r) := Put(lim, s.tree, d, BaseName(p), Dir(d, []));
    PutGrows(lim, s.tree, d, BaseName(p), Dir(d, []));
    SiteGrows(s, t);
    if r.Exit? || r.ino == 0 then (s.(tree := t), r)
    else
      SiteMore(s.(tree := t), p, r.ino);
      (Site(t, s.dirs[p := r.ino]), r)
  }

  /** A host file as the program finds it. */
  datatype Host = Missing | Contents(data: seq<u8>)

  datatype Arg =
    | Mkdir(path: seq<u8>)
    | AddAt(path: seq<u8>, file: Host)   // `--add`: the path is the destination in the image
    | AddRoot(path: seq<u8>, file: Host) // the path is the host's, and its last part the name in the image

  /** The components of the place an argument asks for. */
  function Spot(a: Arg): seq<seq<u8>> {
    match a
    case Mkdir(path) => Parts(path)
    case AddAt(path, _) => Parts(ParentPath(Normalize(path))) + [BaseName(Normalize(path))]
    case AddRoot(path, _) => [BaseName(path)]
  }

  /** Names fit the length byte and avoid `.` and `..`; sizes fit 64 bits. */
  predicate ArgOk(a: Arg) {
    && (forall k :: 0 <= k < |Spot(a)| ==> NameOk(Spot(a)[k]))
    && (!a.Mkdir? && a.file.Contents? ==> |a.file.data| < U64 - BLOCK_SIZE)
  }

  ghost function EnterFile(lim: Limits, s: Site, d: nat, name: seq<u8>, data: seq<u8>): (r: (Site, Made))
    requires Sited(s) && IsDir(s.tree, d)
    ensures Sited(r.0)
  {
    var (t, r) := Put(lim, s.tree, d, name, File(data));
    PutGrows(lim, s.tree, d, name, File(data));
    SiteGrows(s, t);
    (s.(tree := t), r)
  }

  /** What one argument does. */
  ghost function Enter(lim: Limits, s: Site, a: Arg): (r: (Site, Made))
    requires Sited(s)
    ensures Sited(r.0)
  {
    match a
    case Mkdir(path) => Ensure(lim, s, Normalize(path))
    case AddAt(path, file) =>
      if file.Missing? then (s, Made(0))
      else
        var (s1, r) := Ensure(lim, s, ParentPath(Normalize(path)));
        if r.Exit? || r.ino == 0 then (s1, r) else EnterFile(lim, s1, r.ino, BaseName(Normalize(path)), file.data)
    case AddRoot(path, file) =>
      if file.Missing? then (s, Made(0)) else EnterFile(lim, s, ROOT_INODE, BaseName(path), file.data)
  }

  /** The program gave up, or the finished tree and the inode of each argument: zero for a host file that could
      not be put into the root directory, which the program ignores. */
  datatype Plan = Failed | Planned(site: Site, made: seq<nat>)

  predicate Ends(a: Arg, r: Made) {
    r.Exit? || (r.ino == 0 && !a.AddRoot?)
  }

  ghost function RunPlan(lim: Limits, s: Site, args: seq<Arg>): (p: Plan)
    requires Sited(s)
    ensures p.Planned? ==> Sited(p.site) && |p.made| == |args|
  {
    if args == [] then Planned(s, [])
    else
      var a, before := args[|args| - 1], RunPlan(lim, s, args[..|args| - 1]);
      if before.Failed? then Failed
      else
        var (s', r) := Enter(lim, before.site, a);
        if Ends(a, r) then Failed else Planned(s', before.made + [r.ino])
  }

  /** An argument without an inode of its own: a host file that is missing, or that the root directory, as the
      arguments before it left it, had no room for. */
  ghost predicate Passed(lim: Limits, s: Site, args: seq<Arg>, i: nat)
    requires Sited(s)
  {
    && i < |args| && args[i].AddRoot?
    && var before := RunPlan(lim, s, args[..i]);
       before.Planned? && (args[i].file.Missing? || !HasRoom(before.site.tree, ROOT_INODE, BaseName(args[i].path)))
  }

  /** Those are the arguments for which a finished plan reports 0. */
  lemma {:induction false} PlanPasses(lim: Limits, s: Site, args: seq<Arg>, i: nat)
    requires Sited(s) && RunPlan(lim, s, args).Planned? && i < |args|
    ensures RunPlan(lim, s, args).made[i] == 0 <==> Passed(lim, s, args, i)
  {
    hide Enter, HasRoom, BaseName, Sited;
    var n := |args| - 1;
    if i < n {
      PlanPasses(lim, s, args[..n], i);
      assert args[..n][..i] == args[..i];
    } else {
      EnterPasses(lim, RunPlan(lim, s, args[..n]).site, args[n]);
    }
  }

  lemma EnterPasses(lim: Limits, s: Site, a: Arg)
    requires Sited(s) && !Ends(a, Enter(lim, s, a).1)
    ensures IsDir(s.tree, ROOT_INODE)
    ensures Enter(lim, s, a).1.ino == 0 <==>
              a.AddRoot? && (a.file.Missing? || !HasRoom(s.tree, ROOT_INODE, BaseName(a.path)))
  {
    hide Ensure, HasRoom, BaseName;
  }

  // ------------------------------------------------------------------------------ layout

  function BlocksOf(sizeMb: nat): nat {
    sizeMb * 1024 * 1024 / BLOCK_SIZE
  }

  /** One bit per block. */
  function BitmapOf(sizeMb: nat): nat {
    (BlocksOf(sizeMb) + BLOCK_SIZE * 8 - 1) / (BLOCK_SIZE * 8)
  }

  /** One table block per 64 blocks, and at least four. */
  function TableOf(sizeMb: nat): nat {
    if BlocksOf(sizeMb) / 64 + 1 < 4 then 4 else BlocksOf(sizeMb) / 64 + 1
  }

  function LimitsOf(sizeMb: nat): Limits {
    Limits(BlocksOf(sizeMb), TableOf(sizeMb) * INODES_PER_BLOCK)
  }

  /** A fresh image: the root directory in the first data block. */
  function FirstTree(b: nat): Tree {
    Tree([Unused, Unused, Dir(ROOT_INODE, [])], [b, b, b, b + 1], [0, 0, 0])
  }

  function FirstSite(b: nat): Site {
    Site(FirstTree(b), map[[] := ROOT_INODE])
  }

  /** What the program makes of its arguments. */
  ghost function PlanOf(sizeMb: nat, args: seq<Arg>): (p: Plan)
    ensures p.Planned? ==> |p.made| == |args|
  {
    FirstRooted(1 + BitmapOf(sizeMb) + TableOf(sizeMb));
    RunPlan(LimitsOf(sizeMb), FirstSite(1 + BitmapOf(sizeMb) + TableOf(sizeMb)), args)
  }

  // -------------------------------------------------------------------------------- places

  /** The name under which inode `x` is listed. */
  function NameIn(kids: seq<Ent>, x: nat): seq<u8> {
    if kids == [] then [] else if kids[0].ino == x then kids[0].name else NameIn(kids[1..], x)
  }

  /** The names on the way from the root to inode `x`. */
  function PathTo(tree: Tree, x: nat): seq<seq<u8>>
    decreases x
  {
    if x <= ROOT_INODE || x >= |tree.par| || tree.par[x] >= x || !IsDir(tree, tree.par[x]) then []
    else PathTo(tree, tree.par[x]) + [NameIn(tree.nodes[tree.par[x]].kids, x)]
  }

  lemma {:induction false} NameInMore(kids: seq<Ent>, more: seq<Ent>, x: nat)
    requires Listed(kids, x)
    ensures NameIn(kids + more, x) == NameIn(kids, x)
  {
    if kids[0].ino != x {
      var k :| 0 <= k < |kids| && kids[k].ino == x;
      assert kids[1..][k - 1].ino == x;
      NameInMore(kids[1..], more, x);
      assert (kids + more)[1..] == kids[1..] + more;
    }
  }

  lemma {:induction false} NameInLast(kids: seq<Ent>, e: Ent)
    requires !Listed(kids, e.ino)
    ensures NameIn(kids + [e], e.ino) == e.name
  {
    if kids != [] {
      assert kids[0].ino != e.ino;
      forall k | 0 <= k < |kids| - 1 ensures kids[1..][k].ino != e.ino { }
      NameInLast(kids[1..], e);
      assert (kids + [e])[1..] == kids[1..] + [e];
    }
  }

  /** Nothing that is listed ever moves. */
  lemma {:induction false} PathKept(t: Tree, t': Tree, x: nat)
    requires Shape(t) && Grows(t, t') && Attached(t, x) && x < |t.nodes|
    ensures PathTo(t', x) == PathTo(t, x) && Attached(t', x)
    decreases x
  {
    if x > ROOT_INODE {
      assert PlacedAt(t, x);
      var d := t.par[x];
      PathKept(t, t', d);
      assert KeptAt(t, t', d);
      var kids, kids' := t.nodes[d].kids, t'.nodes[d].kids;
      NameInMore(kids, kids'[|kids|..], x);
      assert kids' == kids + kids'[|kids|..];
    }
  }

  /** The invariant of the construction: the tree has its shape, and each known path leads to its directory. */
  predicate DirFound(s: Site, p: seq<u8>) {
    p in s.dirs ==> IsDir(s.tree, s.dirs[p]) && Attached(s.tree, s.dirs[p]) && PathTo(s.tree, s.dirs[p]) == Parts(p)
  }

  ghost predicate Rooted(s: Site) {
    && Sized(s.tree) && Shape(s.tree) && s.tree.nodes[ROOT_INODE].parent == ROOT_INODE
    && forall p :: DirFound(s, p)
  }

  lemma RootedSited(s: Site)
    requires Rooted(s)
    ensures Sited(s)
  {
    forall p ensures DirKnown(s, p) { assert DirFound(s, p); }
  }

  lemma RootedGrows(s: Site, t: Tree)
    requires Rooted(s) && Grows(s.tree, t) && Sized(t) && Shape(t)
    ensures Rooted(s.(tree := t))
  {
    assert KeptAt(s.tree, t, ROOT_INODE);
    var s' := s.(tree := t);
    forall p ensures DirFound(s', p) {
      assert DirFound(s, p);
      if p in s.dirs {
        DirKept(s.tree, t, s.dirs[p]);
        PathKept(s.tree, t, s.dirs[p]);
      }
    }
  }

  /** A node put into a directory is listed there under its name, if the directory has room. */
  lemma PutPlaces(lim: Limits, tree: Tree, d: nat, name: seq<u8>, n: Node)
    requires Sized(tree) && Shape(tree) && IsDir(tree, d) && Attached(tree, d) && NameOk(name)
    requires !n.Unused? && (n.Dir? ==> n == Dir(d, []))
    ensures var (t, r) := Put(lim, tree, d, name, n);
            r.Made? ==>
              && Shape(t) && Grows(tree, t) && |t.nodes| == |tree.nodes| + 1
              && (r.ino != 0 ==> r.ino == |tree.nodes| && Attached(t, r.ino) && t.nodes[r.ino] == n
                                 && PathTo(t, r.ino) == PathTo(tree, d) + [name])
              && (AllListed(t) <==> AllListed(tree) && r.ino != 0)
  {
    PutGrows(lim, tree, d, name, n);
    if Fits(lim, tree, n) {
      if HasRoom(tree, d, name) {
        PutListed(lim, tree, d, name, n);
      } else {
        PutUnlisted(lim, tree, d, name, n);
      }
    }
    hide Put, Shape, Grows, PathTo, NameOk, AllListed;
  }

  lemma PutListed(lim: Limits, tree: Tree, d: nat, name: seq<u8>, n: Node)
    requires Sized(tree) && Shape(tree) && IsDir(tree, d) && Attached(tree, d) && NameOk(name)
    requires !n.Unused? && (n.Dir? ==> n == Dir(d, [])) && Fits(lim, tree, n) && HasRoom(tree, d, name)
    ensures var (t, r) := Put(lim, tree, d, name, n);
            && r == Made(|tree.nodes|) && |tree.nodes| != 0 && Shape(t) && |t.nodes| == |tree.nodes| + 1
            && Attached(t, r.ino) && t.nodes[r.ino] == n
            && PathTo(t, r.ino) == PathTo(tree, d) + [name] && (AllListed(t) <==> AllListed(tree))
  {
    assert |tree.par| >= 3;
    var ino, hi := |tree.nodes|, EndOf(tree) + SpanOf(n);
    var t := AddKid(AddNode(tree, n, d, hi), d, Ent(ino, TypeOf(n), name));
    assert Put(lim, tree, d, name, n) == (t, Made(ino));
    assert t.par == tree.par + [d] && |t.nodes| == ino + 1;
    hide Put, Fits, HasRoom, Shape, PathTo, NameOk, AllListed;
    ListedPlaces(tree, d, name, n, hi);
    ListedMore(tree, t, d);
  }

  lemma PutUnlisted(lim: Limits, tree: Tree, d: nat, name: seq<u8>, n: Node)
    requires Sized(tree) && Shape(tree) && IsDir(tree, d)
    requires !n.Unused? && (n.Dir? ==> n == Dir(d, [])) && Fits(lim, tree, n) && !HasRoom(tree, d, name)
    ensures var (t, r) := Put(lim, tree, d, name, n);
            r == Made(0) && Shape(t) && |t.nodes| == |tree.nodes| + 1 && !AllListed(t)
  {
    AddUnlistedShape(tree, n, EndOf(tree) + SpanOf(n));
    ListedMore(tree, Put(lim, tree, d, name, n).0, 0);
  }

  lemma ListedMore(tree: Tree, t: Tree, d: nat)
    requires t.par == tree.par + [d] && |tree.par| >= 3
    ensures AllListed(t) <==> AllListed(tree) && d != 0
  {
    assert t.par[|tree.par|] == d;
    if AllListed(t) {
      forall i | 3 <= i < |tree.par| ensures tree.par[i] != 0 { assert t.par[i] != 0; }
    }
  }

  lemma ListedPlaces(tree: Tree, d: nat, name: seq<u8>, n: Node, hi: nat)
    requires Sized(tree) && Shape(tree) && IsDir(tree, d) && Attached(tree, d) && NameOk(name)
    requires !n.Unused? && (n.Dir? ==> n == Dir(d, []))
    ensures var ino := |tree.nodes|;
            var t := AddKid(AddNode(tree, n, d, hi), d, Ent(ino, TypeOf(n), name));
            Shape(t) && Attached(t, ino) && t.nodes[ino] == n && PathTo(t, ino) == PathTo(tree, d) + [name]
  {
    var e, kids := Ent(|tree.nodes|, TypeOf(n), name), tree.nodes[d].kids;
    var t := AddKid(AddNode(tree, n, d, hi), d, e);
    AddShape(tree, n, d, hi, e);
    forall i: nat | i < |tree.nodes| ensures KeptAt(tree, t, i) { }
    PathKept(tree, t, d);
    assert KidsOk(tree, d);
    forall k | 0 <= k < |kids| ensures kids[k].ino != e.ino { assert KidOk(tree, d, kids[k]); }
    NameInLast(kids, e);
  }

  /** A directory path, once ensured, leads to the directory returned. */
  lemma {:induction false} EnsureFinds(lim: Limits, s: Site, path: seq<u8>)
    requires Sited(s) && Rooted(s) && PathOk(path)
    ensures var (s', r) := Ensure(lim, s, path);
            && (r.Made? ==> Rooted(s') && Grows(s.tree, s'.tree) && (AllListed(s'.tree) <==> AllListed(s.tree) && r.ino != 0))
            && (r.Made? && r.ino != 0 ==>
                  IsDir(s'.tree, r.ino) && Attached(s'.tree, r.ino) && PathTo(s'.tree, r.ino) == Parts(path))
    decreases |path|
  {
    GrowsSame(s.tree);
    var p := Normalize(path);
    if p == [] {
    } else if p in s.dirs {
      assert DirFound(s, p);
      PartsNormalize(path);
    } else {
      ParentOk(path);
      EnsureFinds(lim, s, ParentPath(p));
      var (s1, r) := Ensure(lim, s, ParentPath(p));
      if r.Made? && r.ino != 0 {
        PartsStep(path);
        PartsNormalize(path);
        EnterDirFinds(lim, s1, r.ino, p);
        var (s2, r2) := EnterDir(lim, s1, r.ino, p);
        if r2.Made? { GrowsThen(s.tree, s1.tree, s2.tree); }
      }
    }
  }

  /** Putting a node into a directory keeps the invariant, and the node is listed at its place if at all. */
  lemma PutRooted(lim: Limits, s: Site, d: nat, name: seq<u8>, n: Node)
    requires Rooted(s) && IsDir(s.tree, d) && Attached(s.tree, d) && NameOk(name)
    requires !n.Unused? && (n.Dir? ==> n == Dir(d, []))
    ensures var (t, r) := Put(lim, s.tree, d, name, n);
            r.Made? ==>
              && Rooted(s.(tree := t)) && Grows(s.tree, t) && (AllListed(t) <==> AllListed(s.tree) && r.ino != 0)
              && (r.ino != 0 ==> r.ino == |s.tree.nodes| && Attached(t, r.ino) && |t.nodes| == r.ino + 1 && t.nodes[r.ino] == n
                                 && PathTo(t, r.ino) == PathTo(s.tree, d) + [name])
  {
    PutPlaces(lim, s.tree, d, name, n);
    var (t, r) := Put(lim, s.tree, d, name, n);
    if r.Made? { RootedGrows(s, t); }
  }

  lemma EnterDirFinds(lim: Limits, s: Site, d: nat, p: seq<u8>)
    requires Sited(s) && Rooted(s) && IsDir(s.tree, d) && Attached(s.tree, d) && NameOk(BaseName(p))
    requires Parts(p) == PathTo(s.tree, d) + [BaseName(p)]
    ensures var (s', r) := EnterDir(lim, s, d, p);
            && (r.Made? ==> Rooted(s') && Grows(s.tree, s'.tree) && (AllListed(s'.tree) <==> AllListed(s.tree) && r.ino != 0))
            && (r.Made? && r.ino != 0 ==>
                  IsDir(s'.tree, r.ino) && Attached(s'.tree, r.ino) && PathTo(s'.tree, r.ino) == Parts(p))
  {
    PutRooted(lim, s, d, BaseName(p), Dir(d, []));
    var (s', r) := EnterDir(lim, s, d, p);
    hide Put, Grows, PathTo, Parts, BaseName, Shape;
    if r.Made? && r.ino != 0 {
      forall q ensures DirFound(s', q) { assert DirFound(s.(tree := s'.tree), q); }
    }
  }

  /** What an argument left in the tree under the inode reported for it. */
  predicate MadeAt(tree: Tree, a: Arg, ino: nat) {
    if ino == 0 then a.AddRoot?
    else
      && ino < |tree.nodes| && Attached(tree, ino) && PathTo(tree, ino) == Spot(a)
      && (if a.Mkdir? then tree.nodes[ino].Dir? else a.file.Contents? && tree.nodes[ino] == File(a.file.data))
  }

  /** The place an argument asked for is where its inode is listed, and an inode is left unlisted exactly when
      a file was read that did not fit into its directory. */
  ghost predicate Entered(s: Site, a: Arg, s': Site, r: Made) {
    !Ends(a, r) ==>
      && Rooted(s') && Grows(s.tree, s'.tree) && MadeAt(s'.tree, a, r.ino)
      && (AllListed(s'.tree) <==> AllListed(s.tree) && (r.ino == 0 ==> a.file.Missing?))
  }

  lemma EnterFinds(lim: Limits, s: Site, a: Arg)
    requires Sited(s) && Rooted(s) && ArgOk(a)
    ensures Entered(s, a, Enter(lim, s, a).0, Enter(lim, s, a).1)
  {
    hide Sited, Rooted, Entered;
    match a
    case Mkdir(path) => MkdirFinds(lim, s, path);
    case AddAt(path, file) => AddAtFinds(lim, s, path, file);
    case AddRoot(path, file) => AddRootFinds(lim, s, path, file);
  }

  lemma MkdirFinds(lim: Limits, s: Site, path: seq<u8>)
    requires Sited(s) && Rooted(s) && ArgOk(Mkdir(path))
    ensures Entered(s, Mkdir(path), Ensure(lim, s, Normalize(path)).0, Ensure(lim, s, Normalize(path)).1)
  {
    assert Spot(Mkdir(path)) == Parts(path);
    PartsNormalize(path);
    NormalizeOk(path);
    EnsureFinds(lim, s, Normalize(path));
    hide Normalize, Parts, Ensure, Rooted, Grows, PathTo;
  }

  lemma AddRootFinds(lim: Limits, s: Site, path: seq<u8>, file: Host)
    requires Sited(s) && Rooted(s) && ArgOk(AddRoot(path, file))
    ensures var a := AddRoot(path, file); Entered(s, a, Enter(lim, s, a).0, Enter(lim, s, a).1)
  {
    GrowsSame(s.tree);
    assert Spot(AddRoot(path, file))[0] == BaseName(path);
    if file.Contents? {
      EnterFileFinds(lim, s, ROOT_INODE, BaseName(path), file.data);
      assert PathTo(s.tree, ROOT_INODE) == [];
      hide Rooted, Grows, PathTo, EnterFile;
    }
  }

  lemma AddAtFinds(lim: Limits, s: Site, path: seq<u8>, file: Host)
    requires Sited(s) && Rooted(s) && ArgOk(AddAt(path, file))
    ensures var a := AddAt(path, file); Entered(s, a, Enter(lim, s, a).0, Enter(lim, s, a).1)
  {
    if file.Contents? {
      var a, up, name := AddAt(path, file), ParentPath(Normalize(path)), BaseName(Normalize(path));
      assert Spot(a)[|Parts(up)|] == name;
      assert PathOk(up) by { forall k | 0 <= k < |Parts(up)| ensures NameOk(Parts(up)[k]) { assert Spot(a)[k] == Parts(up)[k]; } }
      EnsureFinds(lim, s, up);
      hide Normalize, Parts, Ensure, Rooted, Grows, PathTo;
      var (s1, r) := Ensure(lim, s, up);
      if r.Made? && r.ino != 0 {
        EnterFileFinds(lim, s1, r.ino, name, file.data);
        var (s2, r2) := EnterFile(lim, s1, r.ino, name, file.data);
        if r2.Made? { GrowsThen(s.tree, s1.tree, s2.tree); }
      }
    }
  }

  lemma EnterFileFinds(lim: Limits, s: Site, d: nat, name: seq<u8>, data: seq<u8>)
    requires Sited(s) && Rooted(s) && IsDir(s.tree, d) && Attached(s.tree, d) && NameOk(name)
    ensures var (s', r) := EnterFile(lim, s, d, name, data);
            r.Made? ==>
              && Rooted(s') && Grows(s.tree, s'.tree)
              && (AllListed(s'.tree) <==> AllListed(s.tree) && r.ino != 0)
              && (r.ino != 0 ==> r.ino == |s.tree.nodes| && Attached(s'.tree, r.ino)
                                 && s'.tree.nodes[r.ino] == File(data) && PathTo(s'.tree, r.ino) == PathTo(s.tree, d) + [name])
  {
    PutRooted(lim, s, d, name, File(data));
  }

  lemma MadeKept(t: Tree, t': Tree, a: Arg, ino: nat)
    requires Shape(t) && Grows(t, t') && MadeAt(t, a, ino)
    ensures MadeAt(t', a, ino)
  {
    if ino != 0 {
      PathKept(t, t', ino);
      assert KeptAt(t, t', ino);
    }
  }

  /** The arguments whose file was read but found no room in the root directory. */
  predicate Dropped(args: seq<Arg>, made: seq<nat>, i: nat) {
    i < |args| && i < |made| && made[i] == 0 && args[i].AddRoot? && args[i].file.Contents?
  }

  /** Every argument of a finished plan is at its place, and an inode is unlisted exactly when a file was dropped. */
  lemma {:induction false} PlanFinds(lim: Limits, s: Site, args: seq<Arg>)
    requires Sited(s) && Rooted(s) && AllListed(s.tree) && forall a :: a in args ==> ArgOk(a)
    ensures var p := RunPlan(lim, s, args);
            p.Planned? ==>
              && Rooted(p.site) && Grows(s.tree, p.site.tree)
              && (forall i :: 0 <= i < |args| ==> MadeAt(p.site.tree, args[i], p.made[i]))
              && (AllListed(p.site.tree) <==> forall i: nat :: !Dropped(args, p.made, i))
  {
    GrowsSame(s.tree);
    if args != [] {
      var rest, a := args[..|args| - 1], args[|args| - 1];
      assert args == rest + [a];
      PlanFinds(lim, s, rest);
      var before := RunPlan(lim, s, rest);
      if before.Planned? {
        EnterFinds(lim, before.site, a);
        var (s', r) := Enter(lim, before.site, a);
        hide Rooted, Grows, Enter, MadeAt, AllListed, Dropped, ArgOk;
        if !Ends(a, r) { PlanFindsMore(s, rest, before, a, s', r.ino); }
      }
    }
  }

  lemma PlanFindsMore(s: Site, rest: seq<Arg>, before: Plan, a: Arg, s': Site, ino: nat)
    requires before.Planned? && Rooted(before.site) && Grows(s.tree, before.site.tree) && |before.made| == |rest|
    requires forall i :: 0 <= i < |rest| ==> MadeAt(before.site.tree, rest[i], before.made[i])
    requires AllListed(before.site.tree) <==> forall i: nat :: !Dropped(rest, before.made, i)
    requires Grows(before.site.tree, s'.tree) && MadeAt(s'.tree, a, ino) && (ino == 0 ==> a.AddRoot?)
    requires AllListed(s'.tree) <==> AllListed(before.site.tree) && (ino == 0 ==> a.file.Missing?)
    ensures Grows(s.tree, s'.tree)
    ensures var args, made := rest + [a], before.made + [ino];
            && (forall i :: 0 <= i < |args| ==> MadeAt(s'.tree, args[i], made[i]))
            && (AllListed(s'.tree) <==> forall i: nat :: !Dropped(args, made, i))
  {
    assert Shape(before.site.tree);
    hide Rooted, Grows, MadeAt, AllListed, Dropped;
    GrowsThen(s.tree, before.site.tree, s'.tree);
    forall i | 0 <= i < |rest| ensures MadeAt(s'.tree, rest[i], before.made[i]) {
      MadeKept(before.site.tree, s'.tree, rest[i], before.made[i]);
    }
    DroppedMore(rest, before.made, a, ino);
  }

  lemma DroppedMore(args: seq<Arg>, made: seq<nat>, a: Arg, ino: nat)
    requires |made| == |args| && (ino == 0 ==> a.AddRoot?)
    ensures (forall i: nat :: !Dropped(args + [a], made + [ino], i)) <==>
              (forall i: nat :: !Dropped(args, made, i)) && (ino == 0 ==> a.file.Missing?)
  {
    var args', made' := args + [a], made + [ino];
    forall i: nat ensures Dropped(args', made', i) <==> if i < |args| then Dropped(args, made, i) else Dropped(args', made', i) { }
    assert Dropped(args', made', |args|) <==> ino == 0 && a.AddRoot? && a.file.Contents?;
    if forall i: nat :: !Dropped(args', made', i) {
      forall i: nat ensures !Dropped(args, made, i) { assert !Dropped(args', made', i); }
    }
  }

  lemma FirstRooted(b: nat)
    ensures Rooted(FirstSite(b)) && Sited(FirstSite(b)) && AllListed(FirstTree(b))
  {
    var s := FirstSite(b);
    forall d: nat ensures KidsOk(s.tree, d) { }
    forall i: nat ensures PlacedAt(s.tree, i) { }
    RootedSited(s);
  }
}

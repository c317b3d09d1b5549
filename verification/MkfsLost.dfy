/** Which destinations of `mkfs.viperfs` are found again once the last byte of the image was zeroed. */
module MkfsLost {
  import opened ViperFormat
  import opened MkfsImage
  import opened MkfsPaths
  import opened MkfsPlan
  import opened Resolve
  import opened MkfsNames
  import opened MkfsFound
  import opened MkfsClip

  lemma SameEntries(total: nat, tree: Tree, d: nat)
    requires d < |tree.nodes| && !NameLostAt(total, tree, d)
    ensures tree.nodes[d].Dir? ==> Clipped(total, tree).nodes[d] == tree.nodes[d]
    ensures Clipped(total, tree).nodes[d].Dir? <==> tree.nodes[d].Dir?
  {
    if OwnsLast(total, tree, d) { ClipNodeChanges(total, tree, d); }
  }

  /** If no name was lost, every walk goes as before. */
  lemma {:induction false} SameWalk(total: nat, tree: Tree, d: nat, comps: seq<seq<u8>>)
    requires !NameLost(total, tree)
    ensures TreeWalk(Clipped(total, tree), d, comps) == TreeWalk(tree, d, comps)
    decreases |comps|
  {
    if d < |tree.nodes| && comps != [] && |comps[0]| <= 255 {
      assert !NameLostAt(total, tree, d);
      SameEntries(total, tree, d);
      hide Clipped;
      if IsDir(tree, d) {
        SameWalk(total, tree, First(DirEntries(d, tree.nodes[d]), comps[0]), comps[1..]);
      }
    }
  }

  lemma PathSplit(tree: Tree, x: nat)
    requires Shape(tree) && Attached(tree, x) && 3 <= x < |tree.nodes|
    ensures IsDir(tree, tree.par[x]) && Attached(tree, tree.par[x])
    ensures PathTo(tree, x) == PathTo(tree, tree.par[x]) + [NameIn(tree.nodes[tree.par[x]].kids, x)]
  {
    assert PlacedAt(tree, x);
  }

  /** What keeps its path has a directory that keeps its path, and keeps its name there. */
  lemma PathsUp(total: nat, tree: Tree, x: nat)
    requires Shape(tree) && Attached(tree, x) && 3 <= x < |tree.nodes| && PathTo(Clipped(total, tree), x) == PathTo(tree, x)
    ensures var d, tree' := tree.par[x], Clipped(total, tree);
            && IsDir(tree, d) && IsDir(tree', d) && PathTo(tree', d) == PathTo(tree, d)
            && NameIn(tree'.nodes[d].kids, x) == NameIn(tree.nodes[d].kids, x)
  {
    var d, tree' := tree.par[x], Clipped(total, tree);
    ClippedShape(total, tree);
    PathSplit(tree, x);
    PathSplit(tree', x);
    assert tree'.par == tree.par;
    hide Shape, Clipped, PathTo, NameIn;
    SplitLast(PathTo(tree', d), NameIn(tree'.nodes[d].kids, x), PathTo(tree, d), NameIn(tree.nodes[d].kids, x));
  }

  lemma SplitLast<T>(a: seq<T>, x: T, b: seq<T>, y: T)
    requires a + [x] == b + [y]
    ensures a == b && x == y
  {
    assert (a + [x])[..|a|] == a && (b + [y])[..|b|] == b && (a + [x])[|a|] == x && (b + [y])[|b|] == y;
  }

  /** The last entry of the directory that lost a name. */
  lemma NameChanged(total: nat, tree: Tree, d: nat) returns (y: nat)
    requires Shape(tree) && NameLostAt(total, tree, d)
    ensures 3 <= y < |tree.nodes| && Attached(tree, y) && tree.par[y] == d
    ensures Clipped(total, tree).nodes[d].Dir?
    ensures NameIn(Clipped(total, tree).nodes[d].kids, y) != NameIn(tree.nodes[d].kids, y)
  {
    var kids, kids' := tree.nodes[d].kids, Clip(tree.nodes[d].kids, 32);
    var k := |kids| - 1;
    ClipChanges(kids, 32);
    assert IsDir(tree, d) && KidsOk(tree, d) && KidOk(tree, d, kids[k]);
    y := kids[k].ino;
    NameInAt(kids, k);
    NameInAt(kids', k);
    assert kids'[k] == kids[k] ==> kids' == kids;
  }

  /** On the way to something that keeps its path every directory keeps its path. */
  lemma {:induction false} ChainPaths(total: nat, s: Site, path: seq<u8>, k: seq<u8>)
    requires Shape(s.tree) && Sized(s.tree) && Keyed(s) && OnChain(path, k) && At(s, path) != 0
    requires PathTo(Clipped(total, s.tree), At(s, path)) == PathTo(s.tree, At(s, path))
    ensures k in s.dirs && PathTo(Clipped(total, s.tree), s.dirs[k]) == PathTo(s.tree, s.dirs[k])
    decreases |path|
  {
    var p := Normalize(path);
    assert KeyLinked(s, p);
    if k != p {
      PathsUp(total, s.tree, s.dirs[p]);
      ChainPaths(total, s, ParentPath(p), k);
    }
  }

  lemma FoundKeepsPath(total: nat, s: Site, args: seq<Arg>, made: seq<nat>, j: nat)
    requires Sprung(s, args, made) && j < |args| && made[j] != 0 && ArgOk(args[j])
    requires AllFound(Clipped(total, s.tree), args, made)
    ensures PathTo(Clipped(total, s.tree), made[j]) == PathTo(s.tree, made[j])
  {
    SprungAt(s, args, made, j, j);
    SprungKeyed(s, args, made);
    ClippedShape(total, s.tree);
    hide Sprung, Shape, Clipped, Keyed, PathTo;
    WalkFinds(Clipped(total, s.tree), Spot(args[j]));
  }

  /** A lost name hides what some argument asked for. */
  lemma LostHides(total: nat, s: Site, args: seq<Arg>, made: seq<nat>)
    requires Sprung(s, args, made) && NameLost(total, s.tree) && forall a :: a in args ==> ArgOk(a)
    ensures !AllFound(Clipped(total, s.tree), args, made)
  {
    if AllFound(Clipped(total, s.tree), args, made) {
      var d :| 0 <= d < |s.tree.nodes| && NameLostAt(total, s.tree, d);
      SprungKeyed(s, args, made);
      var y := NameChanged(total, s.tree, d);
      LostKeepsPath(total, s, args, made, y);
      hide Sprung, Shape, Keyed, Clipped, NameIn, PathTo, NameLostAt;
      PathsUp(total, s.tree, y);
    }
  }

  lemma LostKeepsPath(total: nat, s: Site, args: seq<Arg>, made: seq<nat>, y: nat)
    requires Sprung(s, args, made) && (forall a :: a in args ==> ArgOk(a)) && AllFound(Clipped(total, s.tree), args, made)
    requires 3 <= y < |s.tree.nodes| && Attached(s.tree, y)
    ensures PathTo(Clipped(total, s.tree), y) == PathTo(s.tree, y)
  {
    SprungKeyed(s, args, made);
    assert FileMade(s.tree, args, made, y) && Sized(s.tree);
    hide Shape, Keyed, Clipped, PathTo, Spot, Parts, OnChain, DirOf, ArgOk;
    if s.tree.nodes[y].Dir? {
      var p := KeyOf(s, args, made, y);
      var j := AskedBy(s, args, made, p);
      DirKeepsPath(total, s, args, made, j, p);
    } else {
      var j :| 0 <= j < |made| && j < |args| && made[j] == y && !args[j].Mkdir?;
      FoundKeepsPath(total, s, args, made, j);
    }
  }

  lemma DirKeepsPath(total: nat, s: Site, args: seq<Arg>, made: seq<nat>, j: nat, p: seq<u8>)
    requires Sprung(s, args, made) && j < |args| && ArgOk(args[j]) && OnChain(DirOf(args[j]), p)
    requires AllFound(Clipped(total, s.tree), args, made)
    ensures p in s.dirs && PathTo(Clipped(total, s.tree), s.dirs[p]) == PathTo(s.tree, s.dirs[p])
  {
    SprungAt(s, args, made, j, j);
    SprungKeyed(s, args, made);
    assert Sized(s.tree);
    NoChain();
    hide Sprung, Shape, Keyed, Clipped, PathTo, Spot, Parts, ArgOk;
    FoundKeepsPath(total, s, args, made, j);
    if args[j].AddAt? { PathsUp(total, s.tree, made[j]); }
    ChainPaths(total, s, DirOf(args[j]), p);
  }

  /** Every destination is found in what remains exactly when no places clash, no directory is spelt in two ways, and
      no name reached the last byte. */
  lemma FoundExactlyLess(total: nat, s: Site, args: seq<Arg>, made: seq<nat>)
    requires Sprung(s, args, made) && forall a :: a in args ==> ArgOk(a)
    ensures AllFound(Clipped(total, s.tree), args, made) <==>
              (forall i: nat, j: nat :: !Clash(args, made, i, j)) && !Respelt(args) && !NameLost(total, s.tree)
  {
    hide Sprung, Clash, Respelt, Clipped, Spot, TreeWalk;
    if NameLost(total, s.tree) {
      LostHides(total, s, args, made);
    } else {
      FoundExactly(s, args, made);
      forall i: nat | i < |args| && i < |made|
        ensures FoundAt(Clipped(total, s.tree), args[i], made[i]) <==> FoundAt(s.tree, args[i], made[i])
      {
        SameWalk(total, s.tree, ROOT_INODE, Spot(args[i]));
      }
    }
  }

  /** What the program builds: every destination is found again exactly when no file's destination is the path of
      another argument or a directory on the way to it, no directory is spelt in two ways, and no name is lost. */
  lemma PlanFound(sizeMb: nat, args: seq<Arg>)
    requires forall a :: a in args ==> ArgOk(a)
    ensures var p, total := PlanOf(sizeMb, args), BlocksOf(sizeMb);
            p.Planned? ==>
              (AllFound(Clipped(total, p.site.tree), args, p.made) <==>
                 (forall i: nat, j: nat :: !Clash(args, p.made, i, j)) && !Respelt(args) && !NameLost(total, p.site.tree))
  {
    PlanSprung(sizeMb, args);
    var p := PlanOf(sizeMb, args);
    hide Sprung, PlanOf, RunPlan, Clash, Respelt, NameLost, AllFound;
    if p.Planned? { FoundExactlyLess(BlocksOf(sizeMb), p.site, args, p.made); }
  }
}

/** Along a whole plan: everything listed was asked for by some argument, so the rule for which destinations are
    found is a rule about the arguments. */
module MkfsFound {
  import opened ViperFormat
  import opened MkfsImage
  import opened MkfsPaths
  import opened MkfsPlan
  import opened MkfsNames

  predicate KeyNew(s: Site, s': Site, a: Arg, p: seq<u8>) {
    && (p in s.dirs ==> p in s'.dirs && s'.dirs[p] == s.dirs[p])
    && (p in s'.dirs ==> p in s.dirs || (OnTheWay(a, Parts(p)) && OnChain(DirOf(a), p)))
  }

  predicate FileNew(t: Tree, t': Tree, a: Arg, ino: nat, z: nat) {
    |t.nodes| <= z < |t'.nodes| && Attached(t', z) && !t'.nodes[z].Dir? ==> z == ino && !a.Mkdir?
  }

  /** What one argument adds: directories on its way, and its own file under a new inode. */
  ghost predicate Springs(s: Site, a: Arg, s': Site, ino: nat) {
    && Rooted(s') && Keyed(s') && Grows(s.tree, s'.tree) && MadeAt(s'.tree, a, ino) && Reached(s', a, ino)
    && (forall p :: KeyNew(s, s', a, p))
    && (forall z: nat :: FileNew(s.tree, s'.tree, a, ino, z))
    && (!a.Mkdir? && ino != 0 ==> |s.tree.nodes| <= ino)
  }

  lemma SprungMore(s: Site, args: seq<Arg>, made: seq<nat>, a: Arg, s': Site, ino: nat)
    requires Sprung(s, args, made) && Springs(s, a, s', ino)
    ensures Sprung(s', args + [a], made + [ino])
  {
    var args', made' := args + [a], made + [ino];
    assert Rooted(s) && Shape(s.tree) && Rooted(s') && Keyed(s');
    hide Rooted, Keyed, Shape, PathTo, Parts, Spot, Grows;
    forall p ensures KeyAsked(s', args', p) { AskedMore(s, args, a, s', p); }
    forall z: nat ensures FileMade(s'.tree, args', made', z) { FileMore(s, args, made, a, s', ino, z); }
    forall i: nat, j: nat ensures InOrder(args', made', i, j) { OrderMore(s, args, made, a, s', ino, i, j); }
    forall i: nat | i < |args'| ensures MadeAt(s'.tree, args'[i], made'[i]) && Reached(s', args'[i], made'[i]) {
      if i < |args| {
        SprungAt(s, args, made, i, i);
        MadeKept(s.tree, s'.tree, args[i], made[i]);
        ReachedKept(s, a, s', args[i], made[i]);
      }
    }
  }

  lemma ReachedKept(s: Site, a: Arg, s': Site, b: Arg, ino: nat)
    requires Reached(s, b, ino) && Grows(s.tree, s'.tree) && forall p :: KeyNew(s, s', a, p)
    ensures Reached(s', b, ino)
  {
    forall p | p in s.dirs ensures p in s'.dirs && s'.dirs[p] == s.dirs[p] { assert KeyNew(s, s', a, p); }
    if !b.AddRoot? { AtKept(s, s', DirOf(b)); }
  }

  lemma AskedMore(s: Site, args: seq<Arg>, a: Arg, s': Site, p: seq<u8>)
    requires KeyAsked(s, args, p) && KeyNew(s, s', a, p)
    ensures KeyAsked(s', args + [a], p)
  {
    if p in s'.dirs && p != [] {
      if p in s.dirs {
        var j :| 0 <= j < |args| && OnTheWay(args[j], Parts(p)) && OnChain(DirOf(args[j]), p);
        assert (args + [a])[j] == args[j];
      } else {
        assert (args + [a])[|args|] == a;
      }
    }
  }

  lemma FileMore(s: Site, args: seq<Arg>, made: seq<nat>, a: Arg, s': Site, ino: nat, z: nat)
    requires |made| == |args| && FileMade(s.tree, args, made, z) && FileNew(s.tree, s'.tree, a, ino, z)
    requires Shape(s.tree) && Sized(s.tree) && Sized(s'.tree) && Grows(s.tree, s'.tree)
    ensures FileMade(s'.tree, args + [a], made + [ino], z)
  {
    var args', made' := args + [a], made + [ino];
    if 3 <= z < |s'.tree.nodes| && !s'.tree.nodes[z].Dir? && Attached(s'.tree, z) {
      if z < |s.tree.nodes| {
        KindKept(s.tree, s'.tree, z);
        var j :| 0 <= j < |made| && j < |args| && made[j] == z && !args[j].Mkdir?;
        assert made'[j] == z && args'[j] == args[j];
      } else {
        assert made'[|made|] == z && args'[|args|] == a;
      }
    }
  }

  lemma OrderMore(s: Site, args: seq<Arg>, made: seq<nat>, a: Arg, s': Site, ino: nat, i: nat, j: nat)
    requires Sprung(s, args, made) && (!a.Mkdir? && ino != 0 ==> |s.tree.nodes| <= ino)
    ensures InOrder(args + [a], made + [ino], i, j)
  {
    if i < |args| { SprungAt(s, args, made, i, i); }
    if i < |args| && j < |args| { SprungAt(s, args, made, i, j); }
  }

  // ------------------------------------------------------------------- the three arguments

  lemma MkdirSprings(lim: Limits, s: Site, path: seq<u8>)
    requires Sited(s) && Rooted(s) && Keyed(s) && ArgOk(Mkdir(path))
    ensures var (s', r) := Enter(lim, s, Mkdir(path)); !Ends(Mkdir(path), r) ==> Springs(s, Mkdir(path), s', r.ino)
  {
    var a := Mkdir(path);
    hide Normalize, Parts, Rooted, Keyed, Grows, PathTo, Sited, Ensure, Springs, PathOk, MadeAt, AllListed;
    EnterFinds(lim, s, a);
    var (s', r) := Enter(lim, s, a);
    if !Ends(a, r) {
      MkdirOk(path);
      EnsureSprings(lim, s, Normalize(path));
      MkdirNews(s, s', path, r.ino);
      SpringsIf(s, a, s', r.ino);
    }
  }

  lemma MkdirOk(path: seq<u8>)
    requires ArgOk(Mkdir(path))
    ensures PathOk(Normalize(path)) && Normalize(Normalize(path)) == Normalize(path)
  {
    assert Spot(Mkdir(path)) == Parts(path);
    NormalizeOk(path);
    NormalizeAgain(path);
  }

  lemma MkdirNews(s: Site, s': Site, path: seq<u8>, ino: nat)
    requires Added(s, s', Normalize(path))
    ensures forall p :: KeyNew(s, s', Mkdir(path), p)
    ensures forall z: nat :: FileNew(s.tree, s'.tree, Mkdir(path), ino, z)
  {
    forall p ensures KeyNew(s, s', Mkdir(path), p) {
      assert KeyAdded(s, s', Normalize(path), p);
      SameChain(path, p);
      if OnChain(path, p) { ChainParts(path, p); }
    }
  }

  lemma SameChain(path: seq<u8>, p: seq<u8>)
    ensures OnChain(Normalize(path), p) <==> OnChain(path, p)
  {
    NormalizeAgain(path);
  }

  /** A file put into a directory. */
  lemma FileSprings(lim: Limits, s: Site, d: nat, name: seq<u8>, data: seq<u8>)
    requires Sited(s) && Rooted(s) && Keyed(s) && IsDir(s.tree, d) && Attached(s.tree, d) && NameOk(name)
    ensures var (s', r) := EnterFile(lim, s, d, name, data);
            r.Made? ==>
              && Keyed(s') && s'.dirs == s.dirs && Grows(s.tree, s'.tree) && |s.tree.nodes| <= |s'.tree.nodes|
              && (r.ino != 0 ==> r.ino == |s.tree.nodes| && 3 <= r.ino < |s'.tree.par| && s'.tree.par[r.ino] == d)
              && (forall z: nat :: |s.tree.nodes| <= z < |s'.tree.nodes| && Attached(s'.tree, z) ==> z == r.ino)
  {
    PutRooted(lim, s, d, name, File(data));
    var (s', r) := EnterFile(lim, s, d, name, data);
    if r.Made? {
      assert |s'.tree.nodes| == |s.tree.nodes| + 1 && !s'.tree.nodes[|s.tree.nodes|].Dir?;
      assert s'.tree.par == s.tree.par + [if r.ino == 0 then 0 else d];
      forall z: nat ensures NoNewDir(s.tree, s'.tree, z) { }
      assert Shape(s.tree);
      hide Put, Rooted, Keyed, Shape, PathTo, Grows;
      KeyedGrows(s, s'.tree);
    }
  }

  lemma AddRootSprings(lim: Limits, s: Site, path: seq<u8>, file: Host)
    requires Sited(s) && Rooted(s) && Keyed(s) && ArgOk(AddRoot(path, file))
    ensures var a := AddRoot(path, file);
            var (s', r) := Enter(lim, s, a);
            !Ends(a, r) ==> Springs(s, a, s', r.ino)
  {
    var a := AddRoot(path, file);
    EnterFinds(lim, s, a);
    assert Spot(a)[0] == BaseName(path);
    var (s', r) := Enter(lim, s, a);
    if file.Contents? { FileSprings(lim, s, ROOT_INODE, BaseName(path), file.data); }
    hide EnterFile, Rooted, Keyed, Grows, Parts, PathTo;
    if !Ends(a, r) {
      forall z: nat ensures FileNew(s.tree, s'.tree, a, r.ino, z) { }
    }
  }

  lemma AddAtSprings(lim: Limits, s: Site, path: seq<u8>, file: Host)
    requires Sited(s) && Rooted(s) && Keyed(s) && ArgOk(AddAt(path, file))
    ensures var a := AddAt(path, file);
            var (s', r) := Enter(lim, s, a);
            !Ends(a, r) ==> Springs(s, a, s', r.ino)
  {
    var a, up, name := AddAt(path, file), ParentPath(Normalize(path)), BaseName(Normalize(path));
    hide Normalize, Parts, Spot, Rooted, Keyed, Grows, PathTo, NameOk, Sited, At, OnChain, BaseName, ParentPath, Ensure, EnterFile,
         Added, Springs, Enter, ArgOk, PathOk, MadeAt, AllListed, Reached;
    EnterFinds(lim, s, a);
    var (s', r) := Enter(lim, s, a);
    if !Ends(a, r) {
      AddAtSplit(path, file);
      EnterAddAt(lim, s, path, file);
      var (s1, r1) := Ensure(lim, s, up);
      EnsureSprings(lim, s, up);
      EnsureFinds(lim, s, up);
      FileSprings(lim, s1, r1.ino, name, file.data);
      NoFewer(s.tree, s1.tree);
      AddAtNews(s, s1, s', a, r.ino);
      AddAtReached(s1, s', a, r1.ino, r.ino);
      SpringsIf(s, a, s', r.ino);
    }
  }

  lemma SpringsIf(s: Site, a: Arg, s': Site, ino: nat)
    requires Rooted(s') && Keyed(s') && Grows(s.tree, s'.tree) && MadeAt(s'.tree, a, ino) && Reached(s', a, ino)
    requires (forall p :: KeyNew(s, s', a, p)) && (forall z: nat :: FileNew(s.tree, s'.tree, a, ino, z))
    requires !a.Mkdir? && ino != 0 ==> |s.tree.nodes| <= ino
    ensures Springs(s, a, s', ino)
  {
  }

  /** An `--add` that does not end the program is a directory path followed by a file. */
  lemma EnterAddAt(lim: Limits, s: Site, path: seq<u8>, file: Host)
    requires Sited(s) && !Ends(AddAt(path, file), Enter(lim, s, AddAt(path, file)).1)
    ensures var (s1, r1) := Ensure(lim, s, ParentPath(Normalize(path)));
            && file.Contents? && r1.Made? && r1.ino != 0
            && Enter(lim, s, AddAt(path, file)) == EnterFile(lim, s1, r1.ino, BaseName(Normalize(path)), file.data)
  {
    hide Normalize, BaseName, ParentPath, Ensure, EnterFile, Sited;
  }

  lemma NoFewer(t: Tree, t': Tree)
    requires Grows(t, t')
    ensures |t.nodes| <= |t'.nodes|
  {
  }

  lemma AddAtSplit(path: seq<u8>, file: Host)
    requires ArgOk(AddAt(path, file))
    ensures var up, name := ParentPath(Normalize(path)), BaseName(Normalize(path));
            PathOk(up) && NameOk(name) && Parts(up) < Spot(AddAt(path, file))
  {
    var a, up, name := AddAt(path, file), ParentPath(Normalize(path)), BaseName(Normalize(path));
    assert Spot(a)[|Parts(up)|] == name;
    forall k | 0 <= k < |Parts(up)| ensures NameOk(Parts(up)[k]) { assert Spot(a)[k] == Parts(up)[k]; }
  }

  lemma AddAtReached(s1: Site, s': Site, a: Arg, d: nat, ino: nat)
    requires a.AddAt? && s'.dirs == s1.dirs && d == At(s1, DirOf(a)) != 0
    requires 3 <= ino < |s'.tree.par| && s'.tree.par[ino] == d
    ensures Reached(s', a, ino)
  {
  }

  lemma AddAtNews(s: Site, s1: Site, s': Site, a: Arg, ino: nat)
    requires a.AddAt? && Parts(DirOf(a)) < Spot(a) && Added(s, s1, DirOf(a)) && s'.dirs == s1.dirs
    requires |s1.tree.nodes| <= |s'.tree.nodes| && Grows(s1.tree, s'.tree)
    requires forall z: nat :: |s1.tree.nodes| <= z < |s'.tree.nodes| && Attached(s'.tree, z) ==> z == ino
    ensures forall p :: KeyNew(s, s', a, p)
    ensures forall z: nat :: FileNew(s.tree, s'.tree, a, ino, z)
  {
    hide Spot, Parts, OnChain, DirOf;
    forall p ensures KeyNew(s, s', a, p) {
      assert KeyAdded(s, s1, DirOf(a), p);
      if OnChain(DirOf(a), p) { ChainParts(DirOf(a), p); }
    }
    forall z: nat ensures FileNew(s.tree, s'.tree, a, ino, z) {
      if |s.tree.nodes| <= z < |s1.tree.nodes| { assert KeptAt(s1.tree, s'.tree, z); }
    }
  }

  lemma EnterSprings(lim: Limits, s: Site, a: Arg)
    requires Sited(s) && Rooted(s) && Keyed(s) && ArgOk(a)
    ensures var (s', r) := Enter(lim, s, a); !Ends(a, r) ==> Springs(s, a, s', r.ino)
  {
    hide Springs, Rooted, Keyed, Sited, Enter;
    match a
    case Mkdir(path) => MkdirSprings(lim, s, path);
    case AddAt(path, file) => AddAtSprings(lim, s, path, file);
    case AddRoot(path, file) => AddRootSprings(lim, s, path, file);
  }

  // ------------------------------------------------------------------------ whole plans

  lemma {:induction false} PlanSprings(lim: Limits, s: Site, args: seq<Arg>)
    requires Sited(s) && Sprung(s, [], []) && forall a :: a in args ==> ArgOk(a)
    ensures var p := RunPlan(lim, s, args); p.Planned? ==> Sprung(p.site, args, p.made)
  {
    if args != [] {
      var rest, a := args[..|args| - 1], args[|args| - 1];
      assert args == rest + [a];
      PlanSprings(lim, s, rest);
      var before := RunPlan(lim, s, rest);
      if before.Planned? {
        assert Rooted(before.site) && Keyed(before.site);
        EnterSprings(lim, before.site, a);
        var (s', r) := Enter(lim, before.site, a);
        hide Sprung, Springs, Rooted, Keyed, Enter;
        if !Ends(a, r) { SprungMore(before.site, rest, before.made, a, s', r.ino); }
      }
    } else {
      assert [] + [] == args;
    }
  }

  lemma FirstSprung(b: nat)
    ensures Sprung(FirstSite(b), [], [])
  {
    FirstRooted(b);
    var s := FirstSite(b);
    forall z: nat ensures DirKeyed(s, z) { }
    forall p ensures KeyLinked(s, p) && KeyAsked(s, [], p) { }
    forall p, q ensures KeyOnce(s, p, q) { }
    forall z: nat ensures FileMade(s.tree, [], [], z) { }
  }

  /** Everything listed in what the program builds was asked for by some argument. */
  lemma PlanSprung(sizeMb: nat, args: seq<Arg>)
    requires forall a :: a in args ==> ArgOk(a)
    ensures var p := PlanOf(sizeMb, args); p.Planned? ==> Sprung(p.site, args, p.made)
  {
    hide Sprung, RunPlan, FirstSite, Sited, ArgOk, BitmapOf, TableOf;
    var b := 1 + BitmapOf(sizeMb) + TableOf(sizeMb);
    FirstSprung(b);
    FirstRooted(b);
    PlanSprings(LimitsOf(sizeMb), FirstSite(b), args);
  }

  // -------------------------------------------------------------------- plain spellings

  /** Only doubled slashes spell a directory in two ways. */
  lemma PlainNotRespelt(args: seq<Arg>)
    requires forall a :: a in args ==> Plain(Normalize(DirOf(a)))
    ensures !Respelt(args)
  {
    forall i: nat, j: nat, p, q ensures !SpeltTwice(args, i, j, p, q) {
      if SpeltTwice(args, i, j, p, q) {
        PlainChain(DirOf(args[i]), p);
        PlainChain(DirOf(args[j]), q);
        PlainSpelling(p, q);
      }
    }
  }

  lemma {:induction false} PlainChain(path: seq<u8>, k: seq<u8>)
    requires OnChain(path, k) && Plain(Normalize(path))
    ensures Plain(k)
    decreases |path|
  {
    var p := Normalize(path);
    if k != p { PlainChain(ParentPath(p), k); }
  }
}

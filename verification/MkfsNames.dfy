/** Which destinations of `mkfs.viperfs` a lookup finds again. The writer never looks whether a name is taken, and
    a lookup takes the first entry of a name, so an entry can hide a later one. */
module MkfsNames {
  import opened ViperFormat
  import opened Mkfs
  import opened MkfsImage
  import opened MkfsPaths
  import opened MkfsPlan
  import opened Resolve

  // -------------------------------------------------------------------- hidden and visible

  /** Neither the inode nor a directory on the way to it stands behind an entry of the same name. */
  predicate Visible(tree: Tree, x: nat)
    decreases x
  {
    x == ROOT_INODE ||
    (&& 3 <= x < |tree.par| && tree.par[x] < x && IsDir(tree, tree.par[x])
     && var d := tree.par[x];
        First(DirEntries(d, tree.nodes[d]), NameIn(tree.nodes[d].kids, x)) == x && Visible(tree, d))
  }

  lemma {:induction false} WalkSnoc(tree: Tree, d: nat, comps: seq<seq<u8>>, name: seq<u8>)
    ensures TreeWalk(tree, d, comps + [name]) ==
              var y := TreeWalk(tree, d, comps);
              if y == 0 || y >= |tree.nodes| || |name| > 255 || !IsDir(tree, y) then 0
              else TreeWalk(tree, First(DirEntries(y, tree.nodes[y]), name), [])
    decreases |comps|
  {
    if comps == [] {
      assert ([] + [name])[1..] == [];
    } else if d < |tree.nodes| && |comps[0]| <= 255 && IsDir(tree, d) {
      var x := First(DirEntries(d, tree.nodes[d]), comps[0]);
      assert (comps + [name])[1..] == comps[1..] + [name];
      WalkSnoc(tree, x, comps[1..], name);
    }
  }

  lemma {:induction false} NameInAt(kids: seq<Ent>, k: nat)
    requires k < |kids| && forall i, j :: 0 <= i < j < |kids| ==> kids[i].ino < kids[j].ino
    ensures NameIn(kids, kids[k].ino) == kids[k].name
  {
    if k > 0 { NameInAt(kids[1..], k - 1); }
  }

  /** A kid found under a name is listed under that name. */
  lemma KidNamed(tree: Tree, d: nat, name: seq<u8>)
    requires Shape(tree) && IsDir(tree, d) && NameOk(name) && First(DirEntries(d, tree.nodes[d]), name) != 0
    ensures var x := First(DirEntries(d, tree.nodes[d]), name);
            3 <= x < |tree.nodes| && tree.par[x] == d && NameIn(tree.nodes[d].kids, x) == name
  {
    var ents, kids := DirEntries(d, tree.nodes[d]), tree.nodes[d].kids;
    FirstIn(ents, name);
    NotDots(name);
    var e :| e in ents && e.ino == First(ents, name) && e.name == name;
    assert e in kids && KidsOk(tree, d) && KidOk(tree, d, e);
    var k: nat :| k < |kids| && kids[k] == e;
    NameInAt(kids, k);
  }

  predicate NamesOk(c: seq<seq<u8>>) {
    forall k :: 0 <= k < |c| ==> NameOk(c[k])
  }

  /** What a walk finds has the path that was walked, and is visible. */
  lemma {:induction false} WalkFinds(tree: Tree, c: seq<seq<u8>>)
    requires Shape(tree) && NamesOk(c) && TreeWalk(tree, ROOT_INODE, c) != 0
    ensures var x := TreeWalk(tree, ROOT_INODE, c);
            Attached(tree, x) && x < |tree.nodes| && PathTo(tree, x) == c && Visible(tree, x)
    decreases |c|
  {
    if c != [] {
      var up, name := c[..|c| - 1], c[|c| - 1];
      assert c == up + [name];
      WalkSnoc(tree, ROOT_INODE, up, name);
      WalkFinds(tree, up);
      var y := TreeWalk(tree, ROOT_INODE, up);
      KidNamed(tree, y, name);
      var x := First(DirEntries(y, tree.nodes[y]), name);
      assert PlacedAt(tree, x);
    }
  }

  lemma {:induction false} PathNames(tree: Tree, x: nat)
    requires Shape(tree) && Attached(tree, x) && x < |tree.nodes|
    ensures NamesOk(PathTo(tree, x))
    decreases x
  {
    if x > ROOT_INODE {
      assert PlacedAt(tree, x);
      var d := tree.par[x];
      PathNames(tree, d);
      ListedName(tree, d, x);
    }
  }

  lemma ListedName(tree: Tree, d: nat, x: nat)
    requires Shape(tree) && IsDir(tree, d) && Listed(tree.nodes[d].kids, x)
    ensures NameOk(NameIn(tree.nodes[d].kids, x))
  {
    var kids := tree.nodes[d].kids;
    assert KidsOk(tree, d);
    var k :| 0 <= k < |kids| && kids[k].ino == x;
    NameInAt(kids, k);
    assert KidOk(tree, d, kids[k]);
  }

  lemma {:induction false} VisibleFound(tree: Tree, x: nat)
    requires Shape(tree) && Attached(tree, x) && x < |tree.nodes| && Visible(tree, x)
    ensures TreeWalk(tree, ROOT_INODE, PathTo(tree, x)) == x
    decreases x
  {
    if x > ROOT_INODE {
      assert PlacedAt(tree, x);
      var d := tree.par[x];
      VisibleFound(tree, d);
      ListedName(tree, d, x);
      WalkSnoc(tree, ROOT_INODE, PathTo(tree, d), NameIn(tree.nodes[d].kids, x));
    }
  }

  /** A listed inode is found under its path exactly when nothing hides it. */
  lemma FoundIfVisible(tree: Tree, x: nat)
    requires Shape(tree) && Attached(tree, x) && x < |tree.nodes|
    ensures TreeWalk(tree, ROOT_INODE, PathTo(tree, x)) == x <==> Visible(tree, x)
  {
    PathNames(tree, x);
    if Visible(tree, x) { VisibleFound(tree, x); }
    if TreeWalk(tree, ROOT_INODE, PathTo(tree, x)) == x { WalkFinds(tree, PathTo(tree, x)); }
  }

  /** What is not visible is hidden by another listed inode with the same path as it or as one of its
      directories. */
  lemma {:induction false} HiddenBy(tree: Tree, x: nat) returns (y: nat, z: nat)
    requires Shape(tree) && Attached(tree, x) && x < |tree.nodes| && !Visible(tree, x)
    ensures 3 <= y <= x && 3 <= z < |tree.nodes| && z != y && Attached(tree, y) && Attached(tree, z)
    ensures PathTo(tree, z) == PathTo(tree, y) <= PathTo(tree, x)
    ensures y == x || (IsDir(tree, y) && |PathTo(tree, y)| < |PathTo(tree, x)|)
    decreases x
  {
    assert PlacedAt(tree, x);
    var d := tree.par[x];
    if !Visible(tree, d) {
      y, z := HiddenBy(tree, d);
    } else {
      var kids := tree.nodes[d].kids;
      var name := NameIn(kids, x);
      ListedName(tree, d, x);
      y, z := x, First(DirEntries(d, tree.nodes[d]), name);
      FirstExists(tree, d, x);
      KidNamed(tree, d, name);
      assert PlacedAt(tree, z);
    }
  }

  lemma FirstExists(tree: Tree, d: nat, x: nat)
    requires Shape(tree) && IsDir(tree, d) && Listed(tree.nodes[d].kids, x)
    ensures First(DirEntries(d, tree.nodes[d]), NameIn(tree.nodes[d].kids, x)) != 0
  {
    var kids := tree.nodes[d].kids;
    assert KidsOk(tree, d);
    var k :| 0 <= k < |kids| && kids[k].ino == x;
    NameInAt(kids, k);
    assert KidOk(tree, d, kids[k]);
    assert DirEntries(d, tree.nodes[d])[k + 2] == kids[k];
    SomeFirst(DirEntries(d, tree.nodes[d]), k + 2);
  }

  lemma {:induction false} SomeFirst(ents: seq<Ent>, k: nat)
    requires k < |ents| && ents[k].ino != 0
    ensures First(ents, ents[k].name) != 0
  {
    if k > 0 { SomeFirst(ents[1..], k - 1); }
  }

  // ---------------------------------------------------------- where listed inodes come from

  /** The directory remembered for a path, 0 if none. */
  function At(s: Site, path: seq<u8>): nat {
    var p := Normalize(path);
    if p == [] then ROOT_INODE else if p in s.dirs then s.dirs[p] else 0
  }

  predicate DirKeyed(s: Site, z: nat) {
    3 <= z < |s.tree.nodes| && s.tree.nodes[z].Dir? && Attached(s.tree, z) ==> exists p :: p in s.dirs && s.dirs[p] == z
  }

  predicate KeyLinked(s: Site, p: seq<u8>) {
    p in s.dirs && p != [] ==>
      3 <= s.dirs[p] < |s.tree.par| && s.tree.par[s.dirs[p]] == At(s, ParentPath(p)) != 0
  }

  predicate KeyOnce(s: Site, p: seq<u8>, q: seq<u8>) {
    p in s.dirs && q in s.dirs && s.dirs[p] == s.dirs[q] ==> p == q
  }

  /** Each directory is remembered once, and lies in the one remembered for the path without its last part. */
  ghost predicate Keyed(s: Site) {
    && (forall z: nat :: DirKeyed(s, z)) && (forall p :: KeyLinked(s, p))
    && (forall p, q :: KeyOnce(s, p, q))
  }

  predicate KeysKept(s: Site, s': Site) {
    forall p :: p in s.dirs ==> p in s'.dirs && s'.dirs[p] == s.dirs[p]
  }

  lemma AtKept(s: Site, s': Site, path: seq<u8>)
    requires KeysKept(s, s') && At(s, path) != 0
    ensures At(s', path) == At(s, path)
  {
  }

  /** What hides a directory hides all that is looked up through it. */
  lemma {:induction false} VisibleChain(s: Site, path: seq<u8>, k: seq<u8>)
    requires Keyed(s) && OnChain(path, k) && At(s, path) != 0 && Visible(s.tree, At(s, path))
    ensures k in s.dirs && Visible(s.tree, s.dirs[k])
    decreases |path|
  {
    var p := Normalize(path);
    assert KeyLinked(s, p);
    if k != p { VisibleChain(s, ParentPath(p), k); }
  }

  /** The directory path an argument is looked up through. */
  function DirOf(a: Arg): seq<u8> {
    match a
    case Mkdir(path) => path
    case AddAt(path, _) => ParentPath(Normalize(path))
    case AddRoot(_, _) => []
  }

  predicate SpeltTwice(args: seq<Arg>, i: nat, j: nat, p: seq<u8>, q: seq<u8>) {
    && i < |args| && j < |args| && OnChain(DirOf(args[i]), p) && OnChain(DirOf(args[j]), q)
    && p != q && Parts(p) == Parts(q)
  }

  /** Some directory on the way of two arguments is spelt in two ways, which only doubled slashes allow. */
  ghost predicate Respelt(args: seq<Arg>) {
    exists i: nat, j: nat, p, q :: SpeltTwice(args, i, j, p, q)
  }

  /** `c` is a directory on the way to what the argument asks for, or what `--mkdir` asks for. */
  predicate OnTheWay(a: Arg, c: seq<seq<u8>>) {
    c <= Spot(a) && (c == Spot(a) ==> a.Mkdir?)
  }

  predicate KeyAsked(s: Site, args: seq<Arg>, p: seq<u8>) {
    p in s.dirs && p != [] ==>
      exists j :: 0 <= j < |args| && OnTheWay(args[j], Parts(p)) && OnChain(DirOf(args[j]), p)
  }

  /** The argument's inode is, or lies in, the directory remembered for its path. */
  predicate Reached(s: Site, a: Arg, ino: nat) {
    !a.AddRoot? ==>
      var d := At(s, DirOf(a));
      d != 0 && if a.Mkdir? then ino == d else 3 <= ino < |s.tree.par| && s.tree.par[ino] == d
  }

  predicate FileMade(tree: Tree, args: seq<Arg>, made: seq<nat>, z: nat) {
    3 <= z < |tree.nodes| && !tree.nodes[z].Dir? && Attached(tree, z) ==>
      exists j :: 0 <= j < |made| && j < |args| && made[j] == z && !args[j].Mkdir?
  }

  predicate InOrder(args: seq<Arg>, made: seq<nat>, i: nat, j: nat) {
    i < j < |args| && j < |made| && !args[i].Mkdir? && !args[j].Mkdir? && made[j] != 0 ==> made[i] < made[j]
  }

  /** Everything listed was asked for by some argument. */
  ghost predicate Sprung(s: Site, args: seq<Arg>, made: seq<nat>) {
    && |made| == |args| && Rooted(s) && Keyed(s)
    && (forall p :: KeyAsked(s, args, p))
    && (forall z: nat :: FileMade(s.tree, args, made, z))
    && (forall i: nat, j: nat :: InOrder(args, made, i, j))
    && (forall i: nat :: i < |args| ==> MadeAt(s.tree, args[i], made[i]) && Reached(s, args[i], made[i]))
  }

  // ------------------------------------------------------------------------ the exact rule

  /** The place of file `i` is the place of another argument, or a directory on the way to it. */
  predicate Clash(args: seq<Arg>, made: seq<nat>, i: nat, j: nat) {
    && i < |args| && j < |args| && i < |made| && j < |made| && i != j && made[i] != 0 && made[j] != 0
    && !args[i].Mkdir? && Spot(args[i]) <= Spot(args[j])
  }

  ghost predicate AllFound(tree: Tree, args: seq<Arg>, made: seq<nat>) {
    forall i: nat :: i < |args| && i < |made| && made[i] != 0 ==> FoundAt(tree, args[i], made[i])
  }

  predicate FoundAt(tree: Tree, a: Arg, ino: nat) {
    TreeWalk(tree, ROOT_INODE, Spot(a)) == ino
  }

  lemma {:induction false} WalkPrefix(tree: Tree, c: seq<seq<u8>>, more: seq<seq<u8>>)
    requires TreeWalk(tree, ROOT_INODE, c) < |tree.nodes| && !IsDir(tree, TreeWalk(tree, ROOT_INODE, c)) && more != []
    ensures TreeWalk(tree, ROOT_INODE, c + more) == 0
    decreases |more|
  {
    var rest, last := more[..|more| - 1], more[|more| - 1];
    WalkSnoc(tree, ROOT_INODE, c + rest, last);
    assert (c + rest) + [last] == c + more;
    if rest == [] {
      assert c + rest == c;
    } else {
      WalkPrefix(tree, c, rest);
    }
  }

  lemma SprungAt(s: Site, args: seq<Arg>, made: seq<nat>, i: nat, j: nat)
    requires Sprung(s, args, made) && i < |args| && j < |args|
    ensures |made| == |args| && MadeAt(s.tree, args[i], made[i]) && Reached(s, args[i], made[i])
    ensures InOrder(args, made, i, j) && InOrder(args, made, j, i)
  {
  }

  lemma ClashHides(s: Site, args: seq<Arg>, made: seq<nat>, i: nat, j: nat)
    requires Sprung(s, args, made) && Clash(args, made, i, j) && FoundAt(s.tree, args[i], made[i])
    ensures !FoundAt(s.tree, args[j], made[j])
  {
    hide Sprung, Spot, PathTo, TreeWalk;
    SprungAt(s, args, made, i, j);
    SprungAt(s, args, made, j, i);
    if Spot(args[i]) != Spot(args[j]) { DeeperHidden(s.tree, args[i], made[i], args[j], made[j]); }
  }

  lemma DeeperHidden(tree: Tree, a: Arg, x: nat, b: Arg, y: nat)
    requires FoundAt(tree, a, x) && x < |tree.nodes| && !IsDir(tree, x) && Spot(a) < Spot(b) && y != 0
    ensures !FoundAt(tree, b, y)
  {
    hide Spot, TreeWalk;
    var c, d := Spot(a), Spot(b);
    assert c + d[|c|..] == d;
    WalkPrefix(tree, c, d[|c|..]);
  }

  /** An argument that is found was found through visible directories. */
  lemma FoundThrough(s: Site, args: seq<Arg>, made: seq<nat>, i: nat, p: seq<u8>)
    requires Sprung(s, args, made) && AllFound(s.tree, args, made) && i < |args| && OnChain(DirOf(args[i]), p)
    ensures p in s.dirs && TreeWalk(s.tree, ROOT_INODE, Parts(p)) == s.dirs[p]
  {
    hide Sprung, OnChain, PathTo, TreeWalk, Spot, Parts, Normalize, ParentPath;
    SprungAt(s, args, made, i, i);
    SprungKeyed(s, args, made);
    hide Keyed, Shape;
    NoChain();
    FoundIfVisible(s.tree, made[i]);
    VisibleChain(s, DirOf(args[i]), p);
    SprungDir(s, args, made, p);
    VisibleFound(s.tree, s.dirs[p]);
  }

  lemma NoChain()
    ensures forall k :: !OnChain([], k)
  {
  }

  lemma SprungKeyed(s: Site, args: seq<Arg>, made: seq<nat>)
    requires Sprung(s, args, made)
    ensures Rooted(s) && Keyed(s) && Shape(s.tree)
  {
  }

  lemma SprungDir(s: Site, args: seq<Arg>, made: seq<nat>, p: seq<u8>)
    requires Sprung(s, args, made) && p in s.dirs
    ensures IsDir(s.tree, s.dirs[p]) && Attached(s.tree, s.dirs[p]) && PathTo(s.tree, s.dirs[p]) == Parts(p)
  {
    assert DirFound(s, p);
  }

  /** Two spellings make two directories of the same path, and only one of them can be found. */
  lemma RespeltHides(s: Site, args: seq<Arg>, made: seq<nat>, i: nat, j: nat, p: seq<u8>, q: seq<u8>)
    requires Sprung(s, args, made) && SpeltTwice(args, i, j, p, q)
    ensures !AllFound(s.tree, args, made)
  {
    assert KeyOnce(s, p, q);
    if AllFound(s.tree, args, made) {
      FoundThrough(s, args, made, i, p);
      FoundThrough(s, args, made, j, q);
    }
  }

  /** Without respelt directories two listed directories never have the same path. */
  lemma DirsApart(s: Site, args: seq<Arg>, made: seq<nat>, y: nat, z: nat)
    requires Sprung(s, args, made) && !Respelt(args) && 3 <= y < |s.tree.nodes| && 3 <= z < |s.tree.nodes|
    requires s.tree.nodes[y].Dir? && s.tree.nodes[z].Dir? && Attached(s.tree, y) && Attached(s.tree, z)
    requires PathTo(s.tree, y) == PathTo(s.tree, z)
    ensures y == z
  {
    hide Sprung, PathTo, Parts, OnChain, DirOf, Spot;
    var p := KeyOf(s, args, made, y);
    var q := KeyOf(s, args, made, z);
    var i := AskedBy(s, args, made, p);
    var j := AskedBy(s, args, made, q);
    assert !SpeltTwice(args, i, j, p, q);
  }

  /** Whatever hides a destination is another argument's: one of the two is a file that stands in the way. */
  lemma HiddenClash(s: Site, args: seq<Arg>, made: seq<nat>, i: nat) returns (f: nat, g: nat)
    requires Sprung(s, args, made) && i < |args| && made[i] != 0 && !FoundAt(s.tree, args[i], made[i]) && !Respelt(args)
    ensures Clash(args, made, f, g)
  {
    SprungAt(s, args, made, i, i);
    SprungKeyed(s, args, made);
    FoundIfVisible(s.tree, made[i]);
    hide Sprung, Shape, Rooted, Keyed, PathTo, TreeWalk, Visible, Spot, Respelt;
    var y, z := HiddenBy(s.tree, made[i]);
    if s.tree.nodes[z].Dir? {
      assert !s.tree.nodes[y].Dir? by { if s.tree.nodes[y].Dir? { DirsApart(s, args, made, y, z); } }
      f, g := DirHidesFile(s, args, made, i, z);
    } else {
      f := FileHides(s, args, made, i, z);
      g := i;
    }
  }

  lemma FileHides(s: Site, args: seq<Arg>, made: seq<nat>, i: nat, z: nat) returns (f: nat)
    requires Sprung(s, args, made) && i < |args| && made[i] != 0
    requires 3 <= z < |s.tree.nodes| && !s.tree.nodes[z].Dir? && Attached(s.tree, z) && PathTo(s.tree, z) <= Spot(args[i])
    requires z != made[i]
    ensures Clash(args, made, f, i)
  {
    assert FileMade(s.tree, args, made, z);
    f :| 0 <= f < |made| && f < |args| && made[f] == z && !args[f].Mkdir?;
    SprungAt(s, args, made, f, f);
    hide Sprung, PathTo, Spot;
  }

  lemma OneName(a: Arg)
    ensures a.AddRoot? ==> |Spot(a)| == 1
  {
  }

  lemma DirHidesFile(s: Site, args: seq<Arg>, made: seq<nat>, i: nat, z: nat) returns (f: nat, g: nat)
    requires Sprung(s, args, made) && i < |args| && made[i] != 0 && !args[i].Mkdir?
    requires 3 <= z < |s.tree.nodes| && s.tree.nodes[z].Dir? && Attached(s.tree, z) && PathTo(s.tree, z) == Spot(args[i])
    ensures Clash(args, made, f, g)
  {
    hide Sprung, PathTo, Spot, Parts;
    var p := KeyOf(s, args, made, z);
    var j := AskedBy(s, args, made, p);
    OneName(args[j]);
    SprungAt(s, args, made, j, j);
    f, g := i, j;
  }

  lemma KeyOf(s: Site, args: seq<Arg>, made: seq<nat>, z: nat) returns (p: seq<u8>)
    requires Sprung(s, args, made) && 3 <= z < |s.tree.nodes| && s.tree.nodes[z].Dir? && Attached(s.tree, z)
    ensures p in s.dirs && s.dirs[p] == z && p != [] && PathTo(s.tree, z) == Parts(p) != []
  {
    assert DirKeyed(s, z) && PlacedAt(s.tree, z);
    p :| p in s.dirs && s.dirs[p] == z;
    assert DirFound(s, p);
    assert PathTo(s.tree, z) != [];
  }

  lemma AskedBy(s: Site, args: seq<Arg>, made: seq<nat>, p: seq<u8>) returns (j: nat)
    requires Sprung(s, args, made) && p in s.dirs && p != []
    ensures j < |args| && OnTheWay(args[j], Parts(p)) && OnChain(DirOf(args[j]), p)
  {
    assert KeyAsked(s, args, p);
    j :| 0 <= j < |args| && OnTheWay(args[j], Parts(p)) && OnChain(DirOf(args[j]), p);
  }

  /** Every destination is found under its own path exactly when no file's destination is the path of another
      argument or a directory on the way to it, and no directory is spelt in two ways. */
  lemma FoundExactly(s: Site, args: seq<Arg>, made: seq<nat>)
    requires Sprung(s, args, made)
    ensures AllFound(s.tree, args, made) <==> (forall i: nat, j: nat :: !Clash(args, made, i, j)) && !Respelt(args)
  {
    hide Sprung, SpeltTwice;
    if AllFound(s.tree, args, made) {
      forall i: nat, j: nat ensures !Clash(args, made, i, j) {
        if Clash(args, made, i, j) { ClashHides(s, args, made, i, j); }
      }
      forall i: nat, j: nat, p, q ensures !SpeltTwice(args, i, j, p, q) {
        if SpeltTwice(args, i, j, p, q) { RespeltHides(s, args, made, i, j, p, q); }
      }
    }
    if (forall i: nat, j: nat :: !Clash(args, made, i, j)) && !Respelt(args) {
      hide Respelt;
      forall i: nat | i < |args| && i < |made| && made[i] != 0 ensures FoundAt(s.tree, args[i], made[i]) {
        if !FoundAt(s.tree, args[i], made[i]) { var f, g := HiddenClash(s, args, made, i); }
      }
    }
  }

  // -------------------------------------------------------------------- along a whole plan

  /** Whatever is new in `t` is no directory, or is listed nowhere. */
  predicate NoNewDir(s: Tree, t: Tree, z: nat) {
    |s.nodes| <= z < |t.nodes| && Attached(t, z) ==> !t.nodes[z].Dir?
  }

  lemma KeyedGrows(s: Site, t: Tree)
    requires Keyed(s) && Shape(s.tree) && Sized(s.tree) && Sized(t) && Grows(s.tree, t)
    requires forall z: nat :: NoNewDir(s.tree, t, z)
    ensures Keyed(s.(tree := t))
  {
    var s' := s.(tree := t);
    forall z: nat ensures DirKeyed(s', z) {
      assert DirKeyed(s, z) && NoNewDir(s.tree, t, z);
      if z < |s.tree.nodes| { KindKept(s.tree, t, z); }
    }
    forall p ensures KeyLinked(s', p) {
      assert KeyLinked(s, p);
      if p in s.dirs && p != [] { AtKept(s, s', ParentPath(p)); }
    }
    forall p, q ensures KeyOnce(s', p, q) { assert KeyOnce(s, p, q); }
  }

  lemma KindKept(s: Tree, t: Tree, z: nat)
    requires Grows(s, t) && Sized(s) && Sized(t) && Shape(s) && z < |s.nodes|
    ensures 3 <= z ==> (t.nodes[z].Dir? <==> s.nodes[z].Dir?)
    ensures Attached(t, z) <==> Attached(s, z)
  {
    assert PlacedAt(s, z) && KeptAt(s, t, z);
  }

  /** What a directory path adds: directories on the way, each remembered under what was looked up for it. */
  ghost predicate Added(s: Site, s': Site, path: seq<u8>) {
    && (forall p :: KeyAdded(s, s', path, p))
    && (forall z: nat :: |s.tree.nodes| <= z < |s'.tree.nodes| ==> s'.tree.nodes[z].Dir?)
  }

  predicate KeyAdded(s: Site, s': Site, path: seq<u8>, p: seq<u8>) {
    && (p in s.dirs ==> p in s'.dirs && s'.dirs[p] == s.dirs[p])
    && (p in s'.dirs ==> p in s.dirs || OnChain(path, p))
  }

  lemma AddedThen(s: Site, s1: Site, s2: Site, path: seq<u8>)
    requires Normalize(path) != [] && Added(s, s1, ParentPath(Normalize(path))) && Added(s1, s2, path) && Grows(s1.tree, s2.tree)
    ensures Added(s, s2, path)
  {
    var up := ParentPath(Normalize(path));
    forall p ensures KeyAdded(s, s2, path, p) { assert KeyAdded(s, s1, up, p) && KeyAdded(s1, s2, path, p); }
    forall z: nat | |s.tree.nodes| <= z < |s2.tree.nodes| ensures s2.tree.nodes[z].Dir? {
      if z < |s1.tree.nodes| { assert KeptAt(s1.tree, s2.tree, z); }
    }
  }

  lemma AddedNone(s: Site, path: seq<u8>)
    ensures Added(s, s, path)
  {
    forall p ensures KeyAdded(s, s, path, p) { }
  }

  lemma EnterDirSprings(lim: Limits, s: Site, d: nat, path: seq<u8>)
    requires Sited(s) && Rooted(s) && Keyed(s) && IsDir(s.tree, d) && Attached(s.tree, d) && NameOk(BaseName(Normalize(path)))
    requires Normalize(path) != [] && Normalize(path) !in s.dirs && d == At(s, ParentPath(Normalize(path)))
    ensures var (s', r) := EnterDir(lim, s, d, Normalize(path));
            r.Made? && r.ino != 0 ==> Keyed(s') && Added(s, s', path) && Grows(s.tree, s'.tree) && r.ino == At(s', path)
  {
    var p := Normalize(path);
    PutRooted(lim, s, d, BaseName(p), Dir(d, []));
    var (s', r) := EnterDir(lim, s, d, p);
    assert r.Made? && r.ino != 0 ==> s'.tree.par == s.tree.par + [d];
    assert Sized(s.tree) && Shape(s.tree) && |s.tree.nodes| >= 3;
    hide Put, PathTo, Parts, BaseName, Shape, Keyed, Rooted, Grows, Normalize, ParentPath;
    if r.Made? && r.ino != 0 {
      KeyedMore(s, s'.tree, p, d);
      AddedOne(s, s', path);
    }
  }

  lemma AddedOne(s: Site, s': Site, path: seq<u8>)
    requires Normalize(path) != [] && Normalize(path) !in s.dirs && s'.dirs == s.dirs[Normalize(path) := |s.tree.nodes|]
    requires |s'.tree.nodes| == |s.tree.nodes| + 1 && s'.tree.nodes[|s.tree.nodes|].Dir?
    ensures Added(s, s', path)
  {
    forall q ensures KeyAdded(s, s', path, q) { }
  }

  lemma KeyedMore(s: Site, t: Tree, p: seq<u8>, d: nat)
    requires Sited(s) && Keyed(s) && Shape(s.tree) && Sized(s.tree) && Sized(t) && Grows(s.tree, t) && p !in s.dirs
    requires 3 <= |s.tree.nodes| && t.par == s.tree.par + [d] && d == At(s, ParentPath(p)) != 0
    ensures Keyed(Site(t, s.dirs[p := |s.tree.nodes|]))
  {
    var s' := Site(t, s.dirs[p := |s.tree.nodes|]);
    hide Shape, Grows, Normalize, ParentPath;
    forall z: nat ensures DirKeyed(s', z) {
      assert DirKeyed(s, z);
      if z < |s.tree.nodes| {
        KindKept(s.tree, t, z);
        if 3 <= z && s.tree.nodes[z].Dir? && Attached(s.tree, z) {
          var q :| q in s.dirs && s.dirs[q] == z;
          assert s'.dirs[q] == z;
        }
      } else if z == |s.tree.nodes| {
        assert s'.dirs[p] == z;
      }
    }
    forall q ensures KeyLinked(s', q) {
      assert KeyLinked(s, q);
      AtKept(s, s', ParentPath(p));
      if q in s.dirs && q != [] { AtKept(s, s', ParentPath(q)); }
    }
    forall q, k ensures KeyOnce(s', q, k) { assert KeyOnce(s, q, k) && DirKnown(s, q) && DirKnown(s, k); }
  }

  lemma {:induction false} EnsureSprings(lim: Limits, s: Site, path: seq<u8>)
    requires Sited(s) && Rooted(s) && Keyed(s) && PathOk(path)
    ensures var (s', r) := Ensure(lim, s, path);
            r.Made? && r.ino != 0 ==> Keyed(s') && Added(s, s', path) && Grows(s.tree, s'.tree) && r.ino == At(s', path)
    decreases |path|
  {
    var p := Normalize(path);
    AddedNone(s, path);
    GrowsSame(s.tree);
    if p != [] && p !in s.dirs {
      var up := ParentPath(p);
      ParentOk(path);
      EnsureSprings(lim, s, up);
      EnsureFinds(lim, s, up);
      var (s1, r) := Ensure(lim, s, up);
      if r.Made? && r.ino != 0 {
        NotOnItsWay(path);
        assert KeyAdded(s, s1, up, p);
        EnterDirSprings(lim, s1, r.ino, path);
        var (s2, r2) := EnterDir(lim, s1, r.ino, p);
        hide Ensure, EnterDir, Rooted, Keyed, Parts, PathTo, Normalize, ParentPath, At;
        if r2.Made? && r2.ino != 0 {
          AddedThen(s, s1, s2, path);
          GrowsThen(s.tree, s1.tree, s2.tree);
        }
      }
    }
  }

  lemma NotOnItsWay(path: seq<u8>)
    requires Normalize(path) != []
    ensures !OnChain(ParentPath(Normalize(path)), Normalize(path))
  {
    var p := Normalize(path);
    PartsStep(path);
    PartsNormalize(path);
    if OnChain(ParentPath(p), p) { ChainParts(ParentPath(p), p); }
  }
}

/** A run of `mkfs.viperfs` that loses a name: a directory in the last block of the image, filled to its last byte. */
module MkfsCrowd {
  import opened ViperFormat
  import opened Mkfs
  import opened MkfsImage
  import opened MkfsPaths
  import opened MkfsPlan
  import opened MkfsNames
  import opened MkfsFound
  import opened MkfsClip
  import opened MkfsWitness

  const D: seq<u8> := [100]

  /** Sixteen different names that together fill a directory: fifteen of 252 bytes and one of 92. */
  function Label(i: nat): (name: seq<u8>)
    requires i < 16
    ensures |name| == (if i < 15 then 252 else 92) && name[0] == 65 + i
    ensures forall k :: 0 <= k < |name| ==> name[k] != 0 && name[k] != SLASH
  {
    [65 + i] + seq(if i < 15 then 251 else 91, _ => 97)
  }

  function Path(i: nat): seq<u8>
    requires i < 16
  {
    D + [SLASH] + Label(i)
  }

  /** A file that leaves one block, a directory that takes it, and `n` empty files in that directory. */
  function Crowd(n: nat): seq<Arg>
    requires n <= 16
  {
    [AddRoot(A, Contents(Ones(246))), Mkdir(D)] + seq(n, i requires 0 <= i < n => AddAt(Path(i), Contents([])))
  }

  lemma Paths(i: nat)
    requires i < 16
    ensures Normalize(Path(i)) == Path(i) && ParentPath(Path(i)) == D && BaseName(Path(i)) == Label(i)
    ensures Normalize(D) == D && ParentPath(D) == [] && BaseName(D) == D && Normalize([]) == []
  {
    var p := Path(i);
    assert p[1] == SLASH && forall k :: 2 <= k < |p| ==> p[k] == Label(i)[k - 2];
    assert LastSlash(p) == 1;
    assert p[..1] == D && p[2..] == Label(i);
    assert LastSlash(D) == 1;
  }

  lemma {:induction false} UsedMore(ents: seq<Ent>, e: Ent)
    ensures Used(ents + [e]) == Used(ents) + Need(e.name)
  {
    if ents == [] {
      assert [e][1..] == [];
    } else {
      UsedMore(ents[1..], e);
      assert (ents + [e])[1..] == ents[1..] + [e];
    }
  }

  lemma UsedDots(i: nat, n: Node)
    requires n.Dir?
    ensures Used(DirEntries(i, n)) == 32 + Used(n.kids)
  {
    var ents := DirEntries(i, n);
    var tail := ents[1..];
    assert tail[1..] == n.kids && Need(Dot) == 16 && Need(DotDot) == 16;
    assert Used(ents) == 16 + Used(tail) && Used(tail) == 16 + Used(tail[1..]);
  }

  // ----------------------------------------------------------------------- the whole plan

  /** After the file, the directory and `n` entries: directory 4 has the last block, and has them in it. */
  ghost predicate Crowded(s: Site, n: nat) {
    && Sited(s) && |s.tree.nodes| == 5 + n && s.tree.start[4] == 255 && s.tree.start[5] == 256 && EndOf(s.tree) == 256
    && s.tree.nodes[4].Dir? && |s.tree.nodes[4].kids| == n
    && Used(s.tree.nodes[4].kids) == 264 * (if n < 16 then n else 15) + (if n < 16 then 0 else 104)
    && s.dirs == map[[] := 2, D := 4]
    && (0 < n <= 16 ==> s.tree.nodes[4].kids[n - 1].name == Label(n - 1))
  }

  lemma OneMore(s: Site, n: nat)
    requires n < 16 && Crowded(s, n)
    ensures var (s', r) := Enter(Small, s, AddAt(Path(n), Contents([]))); r == Made(5 + n) && Crowded(s', n + 1)
  {
    hide Ensure, Normalize, ParentPath, BaseName, Label, Path, Sited;
    Paths(n);
    EnsureKnown(Small, s, D);
    RootSited(s);
    var tree, name := s.tree, Label(n);
    UsedDots(4, tree.nodes[4]);
    UsedMore(tree.nodes[4].kids, Ent(5 + n, FT_FILE, name));
    assert Span(0) == 0;
    assert Need(name) == if n < 15 then 264 else 104;
    hide Used, Need;
    assert HasRoom(tree, 4, name) && Fits(Small, tree, File([]));
    var s' := EnterFile(Small, s, 4, name, []).0;
    assert s'.tree.nodes[4].kids == tree.nodes[4].kids + [Ent(5 + n, FT_FILE, name)];
  }

  lemma CrowdMore(n: nat)
    requires n < 16
    ensures Crowd(n + 1) == Crowd(n) + [AddAt(Path(n), Contents([]))]
  {
    hide Path, Ones;
  }

  /** The file takes blocks 8 to 254 and the directory block 255. */
  lemma First() returns (s: Site)
    ensures Sited(FirstSite(7)) && RunPlan(Small, FirstSite(7), Crowd(0)) == Planned(s, [3, 4]) && Crowded(s, 0)
  {
    var s0 := FirstSite(7);
    FirstRooted(7);
    NameA();
    FreshRoom(7);
    assert Span(BLOCK_SIZE * 246) == 247;
    var data := Ones(246);
    hide Ones;
    assert Crowd(0) == [AddRoot(A, Contents(data)), Mkdir(D)];
    var s1 := FileFirst(s0, data);
    s := DirNext(s1);
    hide Enter, RunPlan, FirstSite, Crowded;
    TwoArgs(Small, s0, AddRoot(A, Contents(data)), Mkdir(D), s1, 3, s, 4);
  }

  lemma FileFirst(s: Site, data: seq<u8>) returns (s1: Site)
    requires s == FirstSite(7) && Sited(s) && Span(|data|) == 247 && BaseName(A) == A && HasRoom(FirstTree(7), ROOT_INODE, A)
    ensures Enter(Small, s, AddRoot(A, Contents(data))) == (s1, Made(3)) && Sited(s1)
    ensures |s1.tree.nodes| == 4 && s1.tree.start == [7, 7, 7, 8, 255] && s1.dirs == map[[] := 2]
    ensures IsDir(s1.tree, 2) && s1.tree.nodes[2].kids == [Ent(3, FT_FILE, A)]
  {
    hide BaseName, Used, Need, Span;
    s1 := EnterFile(Small, s, ROOT_INODE, A, data).0;
  }

  lemma DirNext(s: Site) returns (s1: Site)
    requires Sited(s) && |s.tree.nodes| == 4 && s.tree.start == [7, 7, 7, 8, 255] && s.dirs == map[[] := 2]
    requires IsDir(s.tree, 2) && s.tree.nodes[2].kids == [Ent(3, FT_FILE, A)]
    ensures Enter(Small, s, Mkdir(D)) == (s1, Made(4)) && Crowded(s1, 0)
  {
    hide Ensure, Normalize, ParentPath, BaseName, Put, Sited, Label, Path;
    Paths(0);
    EnsureKnown(Small, s, []);
    RootSited(s);
    EnsureStep(Small, s, D, s, ROOT_INODE);
    MakesDir(s, ROOT_INODE, D);
    s1 := EnterDir(Small, s, ROOT_INODE, D).0;
    PutStart(Small, s.tree, ROOT_INODE, D, Dir(ROOT_INODE, []));
    assert s1.tree.start == s.tree.start + [256];
  }

  lemma RootSited(s: Site)
    requires Sited(s)
    ensures Sized(s.tree) && IsDir(s.tree, ROOT_INODE)
  {
  }

  lemma PutStart(lim: Limits, tree: Tree, d: nat, name: seq<u8>, n: Node)
    requires Sized(tree) && IsDir(tree, d)
    ensures var (t, r) := Put(lim, tree, d, name, n); r.Made? ==> t.start == tree.start + [EndOf(tree) + SpanOf(n)]
  {
  }

  lemma {:induction false} CrowdPlan(n: nat) returns (s: Site, made: seq<nat>)
    requires n <= 16
    ensures Sited(FirstSite(7)) && RunPlan(Small, FirstSite(7), Crowd(n)) == Planned(s, made) && Crowded(s, n)
  {
    if n == 0 {
      s := First();
      made := [3, 4];
    } else {
      var before, m := CrowdPlan(n - 1);
      OneMore(before, n - 1);
      CrowdMore(n - 1);
      var a := AddAt(Path(n - 1), Contents([]));
      s := Enter(Small, before, a).0;
      made := m + [4 + n];
      hide Enter, FirstSite, Crowd, Crowded, Path;
      assert (Crowd(n - 1) + [a])[..|Crowd(n - 1)|] == Crowd(n - 1);
    }
  }

  // --------------------------------------------------------------------------- the witness

  ghost predicate Sound(a: Arg, spot: seq<seq<u8>>) {
    ArgOk(a) && Plain(Normalize(DirOf(a))) && Spot(a) == spot
  }

  lemma FileSound(data: seq<u8>)
    requires |data| < U64 - BLOCK_SIZE
    ensures Sound(AddRoot(A, Contents(data)), [A])
  {
    NameA();
    hide BaseName, NameOk;
  }

  lemma PartsD()
    ensures Parts(D) == [D] && Parts([]) == [] && Plain(D) && NameOk(D) && Normalize(D) == D
  {
    Paths(0);
    PlainNameOk(D);
    hide Normalize, ParentPath, BaseName, NameOk, Label, Path;
    assert [] + [D] == [D];
  }

  lemma DirSound()
    ensures Sound(Mkdir(D), [D])
  {
    PartsD();
    hide Normalize, Parts, NameOk;
  }

  lemma KidSound(i: nat)
    requires i < 16
    ensures Sound(AddAt(Path(i), Contents([])), [D, Label(i)])
  {
    PartsD();
    Paths(i);
    PlainNameOk(Label(i));
    hide Normalize, Parts, NameOk, ParentPath, BaseName, Path, Label, Plain;
    assert [D] + [Label(i)] == [D, Label(i)];
  }

  function SpotAt(i: nat): seq<seq<u8>>
    requires i < 18
  {
    if i == 0 then [A] else if i == 1 then [D] else [D, Label(i - 2)]
  }

  lemma Places(i: nat)
    requires i < 18
    ensures |Crowd(16)| == 18 && Sound(Crowd(16)[i], SpotAt(i)) && (Crowd(16)[i].Mkdir? <==> i == 1)
  {
    hide Sound, Path, Label, Ones;
    if i == 0 { FileSound(Ones(246)); } else if i == 1 { DirSound(); } else { KidSound(i - 2); }
  }

  lemma Apart(i: nat, j: nat)
    requires i < 18 && j < 18 && i != j && i != 1
    ensures !(SpotAt(i) <= SpotAt(j))
  {
    hide Label;
    if i == 0 {
      assert SpotAt(j)[0] == D != A;
    } else if j >= 2 {
      assert SpotAt(i)[1] == Label(i - 2) && SpotAt(j)[1] == Label(j - 2);
    }
  }

  /** Nothing clashes and nothing is spelt twice, and yet the last name is lost. */
  lemma LosesName()
    ensures var args := Crowd(16);
            var p := PlanOf(1, args);
            && (forall a :: a in args ==> ArgOk(a)) && p.Planned? && NameLost(BlocksOf(1), p.site.tree)
            && (forall i: nat, j: nat :: !Clash(args, p.made, i, j)) && !Respelt(args)
  {
    hide PlanOf, RunPlan, Crowd, ArgOk, Plain, DirOf, Label, Spot, Respelt, NameLost, FirstSite, SpotAt;
    var args := Crowd(16);
    var s, made := CrowdPlan(16);
    SmallPlan(args);
    Full();
    LastLost(s);
    Places(0);
    forall i: nat | i < |args| ensures Sound(args[i], SpotAt(i)) && (args[i].Mkdir? <==> i == 1) { Places(i); }
    forall i: nat, j: nat ensures !Clash(args, made, i, j) {
      if i < |args| && j < |args| && i != j && i != 1 { Apart(i, j); }
    }
    PlainNotRespelt(args);
  }

  lemma LastLost(s: Site)
    requires Crowded(s, 16)
    ensures NameLost(256, s.tree)
  {
    hide Sited;
    RootSited(s);
    assert NameLostAt(256, s.tree, 4);
  }
}

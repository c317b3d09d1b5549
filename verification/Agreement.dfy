/** Writer and checker agree: the checker finds nothing to report in a finished image. */
module Agreement {
  import opened ViperFormat
  import opened Fsck
  import opened FsckSound
  import opened Mkfs
  import opened MkfsImage

  /** `fs` is the loaded form of the finished image `img`, which stores `tree`. */
  ghost predicate Finished(img: Img, tree: Tree, fs: Fs) {
    && Stores(img, tree) && Shape(tree)
    && fs.inodes == img.inodes && fs.bitmap == img.bitmap && |fs.disk| == img.total
    && fs.sb == FinalSuper(img)
    && (forall b :: DataStart(img) <= b < img.nextBlock ==> fs.disk[b] == img.disk[b])
  }

  // ----------------------------------------------------- an inode's block list

  function Range(a: nat, b: nat): (s: seq<nat>)
    requires a <= b
    ensures |s| == b - a && forall k :: 0 <= k < b - a ==> s[k] == a + k
  {
    seq(b - a, k requires 0 <= k < b - a => a + k)
  }

  lemma {:induction false} AllGood(ptrs: seq<nat>, total: nat)
    requires AllInRange(ptrs, total)
    ensures InRange(ptrs, total) == ptrs && CountBad(ptrs, total) == 0 && CountZero(ptrs) == 0
  {
    if ptrs != [] {
      AllGood(ptrs[..|ptrs| - 1], total);
      assert ptrs == ptrs[..|ptrs| - 1] + [ptrs[|ptrs| - 1]];
    }
  }

  lemma ChunkCount(size: nat)
    requires size < U64 - BLOCK_SIZE
    ensures ExpectedBlocks(size) == Chunks(size) && (Chunks(size) == 0 <==> size == 0)
    ensures Min(12, Chunks(size)) == Min(12, Stored(size))
    ensures Stored(size) > 12 ==> Min(PTRS_PER_BLOCK, Chunks(size) - 12) == Stored(size) - 12
  {
  }

  lemma PointerRanges(lo: nat, n: nat)
    requires n <= DIRECT + PTRS_PER_BLOCK
    ensures DirectOf(lo, n)[..Min(12, n)] == Range(lo, lo + Min(12, n))
    ensures n > 12 ==> IndirectOf(lo, n)[..n - 12] == Range(lo + 13, lo + n + 1)
  {
  }

  predicate WrittenFile(fs: Fs, inode: Inode, lo: nat) {
    && 0 < inode.size < U64 - BLOCK_SIZE && inode == FileInode(inode.num, inode.size, inode.time, lo)
    && 0 < lo && lo + Span(inode.size) <= fs.sb.total <= |fs.disk| && fs.sb.total < U64
    && (Stored(inode.size) > 12 ==> fs.disk[lo + 12] == Pack(IndirectOf(lo, Stored(inode.size))))
  }

  lemma FileDirectPtrs(fs: Fs, inode: Inode, lo: nat)
    requires WrittenFile(fs, inode, lo)
    ensures DirectPtrs(inode) == Range(lo, lo + Min(12, Stored(inode.size)))
  {
    ChunkCount(inode.size);
    PointerRanges(lo, Stored(inode.size));
  }

  lemma FileIndirectPtrs(fs: Fs, inode: Inode, lo: nat)
    requires WrittenFile(fs, inode, lo) && Stored(inode.size) > 12
    ensures IndirectPtrs(fs, inode) == Range(lo + 13, lo + Stored(inode.size) + 1)
  {
    ChunkCount(inode.size);
    PointerRanges(lo, Stored(inode.size));
    WordsPack(IndirectOf(lo, Stored(inode.size)));
  }

  /** Pointers that run through `n` data blocks from `lo` on, with the indirect block after the twelfth. */
  lemma ConsecutiveList(fs: Fs, inode: Inode, lo: nat, n: nat)
    requires inode.size > 0 && |inode.direct| == 12 && inode.doubleIndirect == 0
    requires 0 < lo && lo + (if n > 12 then n + 1 else n) <= fs.sb.total
    requires DirectPtrs(inode) == Range(lo, lo + Min(12, n))
    requires if n > 12 then inode.indirect == lo + 12 && IndirectPtrs(fs, inode) == Range(lo + 13, lo + n + 1)
             else inode.indirect == 0
    ensures BlockList(fs, inode) == Range(lo, lo + if n > 12 then n + 1 else n)
    ensures BlockErrors(fs, inode) == 0 && BlockWarnings(inode) == 0
  {
    hide Range, InRange, CountBad, CountZero, DirectPtrs, IndirectPtrs, DoubleClaims, DoubleBad, Words;
    AllGood(Range(lo, lo + Min(12, n)), fs.sb.total);
    if n > 12 {
      AllGood(Range(lo + 13, lo + n + 1), fs.sb.total);
      RangeAround(lo, n);
    }
  }

  lemma RangeAround(lo: nat, n: nat)
    requires n > 12
    ensures Range(lo, lo + n + 1) == Range(lo, lo + 12) + ([lo + 12] + Range(lo + 13, lo + n + 1))
  {
  }

  /** What an inode written for a file whose blocks start at `lo` claims. */
  lemma FileBlockList(fs: Fs, inode: Inode, lo: nat)
    requires WrittenFile(fs, inode, lo)
    ensures BlockList(fs, inode) == Range(lo, lo + Span(inode.size))
    ensures BlockErrors(fs, inode) == 0 && BlockWarnings(inode) == 0
  {
    FileDirectPtrs(fs, inode, lo);
    if Stored(inode.size) > 12 { FileIndirectPtrs(fs, inode, lo); }
    ConsecutiveList(fs, inode, lo, Stored(inode.size));
  }

  lemma DirBlockList(fs: Fs, inode: Inode, lo: nat)
    requires inode == DirInode(inode.num, inode.time, lo) && 0 < lo < fs.sb.total
    ensures BlockList(fs, inode) == Range(lo, lo + 1)
    ensures BlockErrors(fs, inode) == 0 && BlockWarnings(inode) == 0
  {
    ChunkCount(BLOCK_SIZE);
    PointerRanges(lo, 1);
    AllGood(Range(lo, lo + 1), fs.sb.total);
  }

  /** The checker claims exactly the interval of blocks the writer gave the inode, in order. */
  lemma NodeBlockList(img: Img, tree: Tree, fs: Fs, i: nat)
    requires Finished(img, tree, fs) && i < |tree.nodes|
    ensures |fs.inodes[i].direct| == 12 && 0 < tree.start[i] <= tree.start[i + 1] <= fs.sb.total
    ensures BlockList(fs, fs.inodes[i]) == Range(tree.start[i], tree.start[i + 1])
    ensures BlockErrors(fs, fs.inodes[i]) == 0 && BlockWarnings(fs.inodes[i]) == 0
  {
    hide BlockList, BlockErrors, BlockWarnings, Range, BitsBelow, Shape, Tiles, Pack;
    assert HoldsAt(img, tree, i);
    StartMonotone(img, tree, i + 1, |tree.nodes|);
    if tree.nodes[i].Dir? {
      DirBlockList(fs, fs.inodes[i], tree.start[i]);
    } else {
      if tree.nodes[i].File? { ChunkCount(|tree.nodes[i].data|); }
      if tree.nodes[i].File? && |tree.nodes[i].data| > 0 {
        FileBlockList(fs, fs.inodes[i], tree.start[i]);
      } else {
        EmptyBlockList(fs, fs.inodes[i], tree.start[i]);
      }
    }
  }

  lemma EmptyBlockList(fs: Fs, inode: Inode, lo: nat)
    requires inode.size == 0 && |inode.direct| == 12
    ensures BlockList(fs, inode) == Range(lo, lo)
    ensures BlockErrors(fs, inode) == 0 && BlockWarnings(inode) == 0
  {
  }

  lemma TimesRange(a: nat, b: nat, x: nat)
    requires a <= b
    ensures Times(Range(a, b), x) == if a <= x < b then 1 else 0
    ensures x in Range(a, b) <==> a <= x < b
    decreases b
  {
    if a < b {
      TimesRange(a, b - 1, x);
      assert Range(a, b) == Range(a, b - 1) + [b - 1];
    } else {
      assert Range(a, b) == [];
    }
  }

  // ------------------------------------------------------------ the checker's state

  predicate Inside(tree: Tree, i: nat, b: nat) {
    i + 1 < |tree.start| && tree.start[i] <= b < tree.start[i + 1]
  }

  /** Block `b` is claimed exactly when a visited inode owns it, by that inode alone, and it is marked. */
  ghost predicate ClaimedRight(img: Img, tree: Tree, r: Res, b: nat)
    requires img.total <= 8 * |r.computed|
  {
    && (b in r.owners <==> exists i :: i in r.visited && Inside(tree, i, b))
    && (forall i :: i in r.visited && Inside(tree, i, b) ==> OwnersOf(r, b) == [i])
    && (b < img.total ==> (Bit(r.computed, b) <==> b < DataStart(img) || b in r.owners))
  }

  /** The state reached on a finished image once the inodes in `visited` were visited: nothing reported. */
  ghost predicate Canon(img: Img, tree: Tree, r: Res, visited: set<nat>) {
    && r.errors == 0 && r.warnings == 0 && r.visited == visited
    && (forall i :: i in visited ==> i < |tree.nodes|)
    && img.total <= 8 * |r.computed|
    && (forall b: nat :: ClaimedRight(img, tree, r, b))
  }

  lemma ClaimIntervalAt(img: Img, tree: Tree, fs: Fs, r: Res, r': Res, i: nat, b: nat)
    requires Finished(img, tree, fs) && Canon(img, tree, r, r.visited) && i < |tree.nodes| && i !in r.visited
    requires Covers(fs, r) && 0 < tree.start[i] <= tree.start[i + 1] <= fs.sb.total
    requires r' == ClaimAll(fs, r, Range(tree.start[i], tree.start[i + 1]), i).(visited := r.visited + {i})
    ensures ClaimedRight(img, tree, r', b)
  {
    assert ClaimedRight(img, tree, r, b);
    ClaimAllAt(fs, r, Range(tree.start[i], tree.start[i + 1]), i, b);
    TimesRange(tree.start[i], tree.start[i + 1], b);
    if Inside(tree, i, b) {
      forall j | j in r.visited ensures !Inside(tree, j, b) { Disjoint(img, tree, i, j); }
      RepeatMore([], i, 0);
      assert i in r'.visited && Inside(tree, i, b);
    } else {
      RepeatMore(OwnersOf(r, b), i, 0);
      assert OwnersOf(r', b) == OwnersOf(r, b);
      if b in r.owners {
        var j :| j in r.visited && Inside(tree, j, b);
        assert j in r'.visited;
      }
    }
  }

  lemma VisitCanon(img: Img, tree: Tree, fs: Fs, r: Res, i: nat)
    requires Finished(img, tree, fs) && Canon(img, tree, r, r.visited) && i < |tree.nodes| && i !in r.visited
    requires |fs.inodes[i].direct| == 12
    ensures Canon(img, tree, CheckBlocks(fs, r, i).(visited := r.visited + {i}), r.visited + {i})
  {
    NodeBlockList(img, tree, fs, i);
    var r' := CheckBlocks(fs, r, i).(visited := r.visited + {i});
    assert Report(r, 0, 0) == r;
    forall b: nat ensures ClaimedRight(img, tree, r', b) {
      ClaimIntervalAt(img, tree, fs, r, r', i, b);
    }
  }

  // ------------------------------------------------------------------- subtrees

  /** `x` is `d` or lies below it. */
  predicate Under(tree: Tree, d: nat, x: nat)
    decreases x
  {
    x == d || (d < x < |tree.par| && tree.par[x] < x && Under(tree, d, tree.par[x]))
  }

  ghost function Sub(tree: Tree, d: nat): set<nat> {
    set x | 0 <= x < |tree.nodes| && Under(tree, d, x)
  }

  predicate UnderKid(tree: Tree, kids: seq<Ent>, k: nat, x: nat) {
    exists j :: k <= j < |kids| && Under(tree, kids[j].ino, x)
  }

  /** Everything below the kids from the `k`-th on. */
  ghost function SubFrom(tree: Tree, kids: seq<Ent>, k: nat): set<nat> {
    set x | 0 <= x < |tree.nodes| && UnderKid(tree, kids, k, x)
  }

  lemma {:induction false} UnderLeast(tree: Tree, d: nat, x: nat)
    requires Under(tree, d, x)
    ensures d <= x
  {
  }

  lemma {:induction false} UnderFromKid(tree: Tree, d: nat, c: nat, x: nat)
    requires Shape(tree) && 3 <= c < |tree.nodes| && tree.par[c] == d && Under(tree, c, x)
    ensures Under(tree, d, x)
    decreases x
  {
    assert PlacedAt(tree, c);
    if x != c { UnderFromKid(tree, d, c, tree.par[x]); }
  }

  lemma {:induction false} UnderViaKid(tree: Tree, d: nat, x: nat)
    requires Shape(tree) && IsDir(tree, d) && Under(tree, d, x) && x != d && x < |tree.nodes|
    ensures UnderKid(tree, tree.nodes[d].kids, 0, x)
    decreases x
  {
    assert PlacedAt(tree, x);
    var kids := tree.nodes[d].kids;
    if tree.par[x] == d {
      var k :| 0 <= k < |kids| && kids[k].ino == x;
      assert Under(tree, kids[k].ino, x);
    } else {
      UnderViaKid(tree, d, tree.par[x]);
      var k :| 0 <= k < |kids| && Under(tree, kids[k].ino, tree.par[x]);
      assert Under(tree, kids[k].ino, x);
    }
  }

  lemma {:induction false} KidsApart(tree: Tree, d: nat, a: nat, b: nat, x: nat)
    requires Shape(tree) && 3 <= a < b < |tree.nodes| && tree.par[a] == d == tree.par[b]
    requires Under(tree, a, x)
    ensures !Under(tree, b, x)
    decreases x
  {
    assert PlacedAt(tree, a) && PlacedAt(tree, b);
    if x == b {
      UnderLeast(tree, a, d);
    } else if x != a && Under(tree, b, x) {
      KidsApart(tree, d, a, b, tree.par[x]);
    }
  }

  lemma SubSplit(tree: Tree, d: nat)
    requires Shape(tree) && IsDir(tree, d)
    ensures Sub(tree, d) == {d} + SubFrom(tree, tree.nodes[d].kids, 0)
    ensures d !in SubFrom(tree, tree.nodes[d].kids, 0)
  {
    var kids := tree.nodes[d].kids;
    assert KidsOk(tree, d);
    forall x | x in Sub(tree, d) && x != d ensures x in SubFrom(tree, kids, 0) {
      UnderViaKid(tree, d, x);
    }
    forall x | x in SubFrom(tree, kids, 0) ensures x in Sub(tree, d) && x != d {
      var j :| 0 <= j < |kids| && Under(tree, kids[j].ino, x);
      assert KidOk(tree, d, kids[j]) && PlacedAt(tree, kids[j].ino);
      UnderFromKid(tree, d, kids[j].ino, x);
    }
  }

  lemma SubFromStep(tree: Tree, d: nat, k: nat)
    requires Shape(tree) && IsDir(tree, d) && k < |tree.nodes[d].kids|
    ensures var kids := tree.nodes[d].kids;
            && SubFrom(tree, kids, k) == Sub(tree, kids[k].ino) + SubFrom(tree, kids, k + 1)
            && Sub(tree, kids[k].ino) !! SubFrom(tree, kids, k + 1)
            && kids[k].ino in Sub(tree, kids[k].ino)
  {
    var kids := tree.nodes[d].kids;
    assert KidsOk(tree, d) && KidOk(tree, d, kids[k]);
    forall x | x in SubFrom(tree, kids, k + 1) ensures x !in Sub(tree, kids[k].ino) {
      var j :| k + 1 <= j < |kids| && Under(tree, kids[j].ino, x);
      assert KidOk(tree, d, kids[j]);
      if Under(tree, kids[k].ino, x) { KidsApart(tree, d, kids[k].ino, kids[j].ino, x); }
    }
    assert Under(tree, kids[k].ino, kids[k].ino);
  }

  lemma FileSub(tree: Tree, i: nat)
    requires Shape(tree) && 3 <= i < |tree.nodes| && !tree.nodes[i].Dir?
    ensures Sub(tree, i) == {i}
  {
    forall x | x in Sub(tree, i) ensures x == i {
      if x != i { NoneBelowFile(tree, i, x); }
    }
  }

  lemma {:induction false} NoneBelowFile(tree: Tree, i: nat, x: nat)
    requires Shape(tree) && 3 <= i < |tree.nodes| && !tree.nodes[i].Dir? && i < x < |tree.nodes|
    ensures !Under(tree, i, x)
    decreases x
  {
    assert PlacedAt(tree, x);
    if tree.par[x] > i { NoneBelowFile(tree, i, tree.par[x]); }
  }

  /** Below the root is what some directory lists. */
  lemma {:induction false} UnderRoot(tree: Tree, x: nat)
    requires Shape(tree) && x < |tree.nodes|
    ensures Under(tree, ROOT_INODE, x) <==> Attached(tree, x)
    decreases x
  {
    assert PlacedAt(tree, x);
    if x > ROOT_INODE { UnderRoot(tree, tree.par[x]); }
  }

  // ---------------------------------------------------------------------- the walk

  lemma ReportNothing(r: Res)
    ensures Report(r, 0, 0) == r
  {
  }

  /** One step of the scan over a tiled directory block. */
  lemma EntryStep(fs: Fs, r: Res, self: nat, data: Block, ents: seq<Ent>, pos: nat, dot: bool, dotdot: bool)
    requires Covers(fs, r) && Loaded(fs) && self < |fs.inodes| && fs.inodes[self].size == BLOCK_SIZE
    requires Tiles(data, ents, pos)
    ensures var e := RecAt(data, pos);
            var r1 := CheckEntry(fs, r, self, e);
            var dot1, dotdot1 := dot || (e.ino != 0 && IsDot(e, self)), dotdot || (e.ino != 0 && !IsDot(e, self) && IsDotDot(e));
            CheckEntries(fs, r, self, data, pos, dot, dotdot) ==
            if |ents| == 1 then Finish(r1, dot1, dotdot1)
            else CheckEntries(fs, r1, self, data, pos + Need(ents[0].name), dot1, dotdot1)
  {
    hide CheckEntry, IsDot, IsDotDot, RecAt, Finish;
  }

  /** `.` and `..` are recognised and pass. */
  lemma DotEntry(fs: Fs, r: Res, self: nat, e: Rec)
    requires Covers(fs, r) && Loaded(fs) && 0 < self < |fs.inodes| && e.ino == self && e.name == Dot
    ensures IsDot(e, self) && CheckEntry(fs, r, self, e) == r
  {
    PlainCStr(Dot);
    ReportNothing(r);
  }

  lemma DotDotEntry(fs: Fs, r: Res, self: nat, e: Rec)
    requires Covers(fs, r) && Loaded(fs) && self < |fs.inodes| && e.ino != 0 && e.name == DotDot
    ensures !IsDot(e, self) && IsDotDot(e) && CheckEntry(fs, r, self, e) == r
  {
    PlainCStr(DotDot);
    ReportNothing(r);
  }

  lemma DotStep(fs: Fs, r: Res, self: nat, data: Block, ents: seq<Ent>)
    requires Covers(fs, r) && Loaded(fs) && 0 < self < |fs.inodes| && fs.inodes[self].size == BLOCK_SIZE
    requires |ents| >= 2 && Tiles(data, ents, 0) && ents[0] == Ent(self, FT_DIR, Dot)
    ensures CheckEntries(fs, r, self, data, 0, false, false) == CheckEntries(fs, r, self, data, 16, true, false)
    ensures Tiles(data, ents[1..], 16)
  {
    hide CheckEntries, CheckEntry, CheckDir;
    DotEntry(fs, r, self, RecAt(data, 0));
    EntryStep(fs, r, self, data, ents, 0, false, false);
  }

  lemma DotDotStep(fs: Fs, r: Res, self: nat, data: Block, ents: seq<Ent>)
    requires Covers(fs, r) && Loaded(fs) && self < |fs.inodes| && fs.inodes[self].size == BLOCK_SIZE
    requires |ents| >= 1 && Tiles(data, ents, 16) && ents[0].name == DotDot && ents[0].ino != 0
    ensures CheckEntries(fs, r, self, data, 16, true, false) ==
            if |ents| == 1 then r else CheckEntries(fs, r, self, data, 32, true, true)
    ensures |ents| > 1 ==> Tiles(data, ents[1..], 32)
  {
    hide CheckEntries, CheckEntry, CheckDir;
    DotDotEntry(fs, r, self, RecAt(data, 16));
    EntryStep(fs, r, self, data, ents, 16, true, false);
    ReportNothing(r);
  }

  /** A listed inode is checked as a directory or as a file. */
  lemma KidStep(img: Img, tree: Tree, fs: Fs, r: Res, d: nat, e: Ent, len: nat)
    requires Finished(img, tree, fs) && Covers(fs, r) && Loaded(fs) && IsDir(tree, d) && KidOk(tree, d, e)
    ensures d < |fs.inodes| && e.ino < |fs.inodes|
    ensures var raw := Rec(e.ino, len, e.ftype, e.name);
            && !IsDot(raw, d) && !IsDotDot(raw)
            && CheckEntry(fs, r, d, raw) ==
               if tree.nodes[e.ino].Dir? then CheckDir(fs, r, e.ino)
               else CheckBlocks(fs, r, e.ino).(visited := r.visited + {e.ino})
  {
    assert PlacedAt(tree, e.ino);
    assert HoldsAt(img, tree, e.ino);
  }

  /** A directory's own block is claimed, then its entries are scanned. */
  lemma DirOpens(fs: Fs, r: Res, d: nat, lo: nat)
    requires Covers(fs, r) && Loaded(fs) && d < |fs.inodes| && d !in r.visited
    requires fs.inodes[d] == DirInode(d, fs.inodes[d].time, lo) && lo != 0
    ensures CheckDir(fs, r, d) ==
            CheckEntries(fs, CheckBlocks(fs, r.(visited := r.visited + {d}), d), d, Read(fs.disk, lo), 0, false, false)
  {
    hide CheckEntries, CheckBlocks;
  }

  lemma DirVisited(img: Img, tree: Tree, fs: Fs, r: Res, d: nat)
    requires Finished(img, tree, fs) && Canon(img, tree, r, r.visited) && Covers(fs, r) && Loaded(fs)
    requires IsDir(tree, d) && d !in r.visited
    ensures d < |fs.inodes| && tree.start[d] < |img.disk|
    ensures Canon(img, tree, CheckBlocks(fs, r.(visited := r.visited + {d}), d), r.visited + {d})
    ensures Read(fs.disk, tree.start[d]) == img.disk[tree.start[d]]
  {
    assert HoldsAt(img, tree, d);
    VisitCanon(img, tree, fs, r, d);
    VisitedLater(fs, r, d);
    StartMonotone(img, tree, d + 1, |tree.nodes|);
  }

  /** The two entries every directory starts with report nothing, and its children come next. */
  lemma DirScan(img: Img, tree: Tree, fs: Fs, r: Res, d: nat)
    requires Finished(img, tree, fs) && Canon(img, tree, r, r.visited) && Covers(fs, r) && Loaded(fs)
    requires IsDir(tree, d) && tree.nodes[d].parent != 0 && d !in r.visited
    ensures d < |fs.inodes| && tree.start[d] < |img.disk|
    ensures var kids, data := tree.nodes[d].kids, img.disk[tree.start[d]];
            var r2 := CheckBlocks(fs, r.(visited := r.visited + {d}), d);
            && CheckDir(fs, r, d) == (if kids == [] then r2 else CheckEntries(fs, r2, d, data, 32, true, true))
            && (kids != [] ==> Tiles(data, kids, 32))
  {
    assert HoldsAt(img, tree, d);
    hide CheckEntries, CheckEntry, CheckDir, CheckBlocks, Canon, Stores, Shape, Tiles;
    DirVisited(img, tree, fs, r, d);
    DirOpens(fs, r, d, tree.start[d]);
    var r2 := CheckBlocks(fs, r.(visited := r.visited + {d}), d);
    var ents := DirEntries(d, tree.nodes[d]);
    assert ents[1..][1..] == tree.nodes[d].kids;
    DotStep(fs, r2, d, img.disk[tree.start[d]], ents);
    DotDotStep(fs, r2, d, img.disk[tree.start[d]], ents[1..]);
  }

  /** Checking a directory visits its subtree and reports nothing. */
  lemma {:induction false} WalkDir(img: Img, tree: Tree, fs: Fs, r: Res, d: nat)
    requires Finished(img, tree, fs) && Canon(img, tree, r, r.visited) && Covers(fs, r) && Loaded(fs)
    requires IsDir(tree, d) && tree.nodes[d].parent != 0 && Sub(tree, d) !! r.visited
    ensures d < |fs.inodes| && Canon(img, tree, CheckDir(fs, r, d), r.visited + Sub(tree, d))
    decreases |tree.nodes| - d, 1, 0
  {
    assert HoldsAt(img, tree, d);
    SubSplit(tree, d);
    hide CheckEntries, CheckEntry, CheckDir, CheckBlocks, Canon, Stores, Shape, Sub, SubFrom, Tiles;
    DirVisited(img, tree, fs, r, d);
    DirScan(img, tree, fs, r, d);
    var kids := tree.nodes[d].kids;
    var r2 := CheckBlocks(fs, r.(visited := r.visited + {d}), d);
    Regroup(r.visited, Sub(tree, d), {d}, SubFrom(tree, kids, 0));
    if kids == [] {
      NoKidsLeft(tree, kids);
    } else {
      WalkKids(img, tree, fs, r2, d, 0, 32);
    }
  }

  lemma {:induction false} WalkKids(img: Img, tree: Tree, fs: Fs, r: Res, d: nat, k: nat, pos: nat)
    requires Finished(img, tree, fs) && Canon(img, tree, r, r.visited) && Covers(fs, r) && Loaded(fs)
    requires IsDir(tree, d) && k < |tree.nodes[d].kids| && tree.start[d] < |img.disk|
    requires Tiles(img.disk[tree.start[d]], tree.nodes[d].kids[k..], pos)
    requires SubFrom(tree, tree.nodes[d].kids, k) !! r.visited
    ensures d < |fs.inodes|
    ensures Canon(img, tree, CheckEntries(fs, r, d, img.disk[tree.start[d]], pos, true, true),
                  r.visited + SubFrom(tree, tree.nodes[d].kids, k))
    decreases |tree.nodes| - d, 0, |tree.nodes[d].kids| - k, 1
  {
    assert HoldsAt(img, tree, d);
    SubFromStep(tree, d, k);
    hide CheckEntries, CheckEntry, Canon, Stores, Shape, Tiles, RecAt, Need, SubFrom, Sub;
    var kids, data := tree.nodes[d].kids, img.disk[tree.start[d]];
    Regroup(r.visited, SubFrom(tree, kids, k), Sub(tree, kids[k].ino), SubFrom(tree, kids, k + 1));
    WalkEntry(img, tree, fs, r, d, k, pos);
    var r1 := CheckEntry(fs, r, d, RecAt(data, pos));
    if k + 1 == |kids| {
      NoKidsLeft(tree, kids);
    } else {
      WalkKids(img, tree, fs, r1, d, k + 1, pos + Need(kids[k].name));
    }
  }

  /** One entry of the scan: what it lists is walked. */
  lemma {:induction false} WalkEntry(img: Img, tree: Tree, fs: Fs, r: Res, d: nat, k: nat, pos: nat)
    requires Finished(img, tree, fs) && Canon(img, tree, r, r.visited) && Covers(fs, r) && Loaded(fs)
    requires IsDir(tree, d) && k < |tree.nodes[d].kids| && tree.start[d] < |img.disk|
    requires Tiles(img.disk[tree.start[d]], tree.nodes[d].kids[k..], pos)
    requires Sub(tree, tree.nodes[d].kids[k].ino) !! r.visited
    ensures d < |fs.inodes|
    ensures var kids, data := tree.nodes[d].kids, img.disk[tree.start[d]];
            var r1 := CheckEntry(fs, r, d, RecAt(data, pos));
            && Canon(img, tree, r1, r1.visited) && r1.visited == r.visited + Sub(tree, kids[k].ino)
            && (k + 1 < |kids| ==> Tiles(data, kids[k + 1..], pos + Need(kids[k].name)))
            && CheckEntries(fs, r, d, data, pos, true, true) ==
               if k + 1 == |kids| then r1 else CheckEntries(fs, r1, d, data, pos + Need(kids[k].name), true, true)
    decreases |tree.nodes| - d, 0, |tree.nodes[d].kids| - k, 0
  {
    hide CheckEntries, CheckEntry, Canon, Need, Sub, IsDot, IsDotDot, BitsBelow;
    assert HoldsAt(img, tree, d) && KidsOk(tree, d);
    var kids, data := tree.nodes[d].kids, img.disk[tree.start[d]];
    var e, raw := kids[k], RecAt(data, pos);
    assert kids[k..][1..] == kids[k + 1..] && kids[k..][0] == e;
    assert KidOk(tree, d, e) && raw == Rec(e.ino, raw.len, e.ftype, e.name);
    hide Stores, Shape, Tiles, RecAt, KidOk;
    EntryStep(fs, r, d, data, kids[k..], pos, true, true);
    TilesHead(data, kids[k..], pos);
    WalkKid(img, tree, fs, r, d, e, raw.len);
    ReportNothing(CheckEntry(fs, r, d, raw));
  }

  lemma Regroup(visited: set<nat>, all: set<nat>, kid: set<nat>, rest: set<nat>)
    requires all == kid + rest && kid !! rest && all !! visited
    ensures kid !! visited && rest !! visited + kid && visited + all == (visited + kid) + rest
    ensures visited + {} == visited
  {
  }

  lemma NoKidsLeft(tree: Tree, kids: seq<Ent>)
    ensures SubFrom(tree, kids, |kids|) == {}
  {
  }

  lemma {:induction false} WalkKid(img: Img, tree: Tree, fs: Fs, r: Res, d: nat, e: Ent, len: nat)
    requires Finished(img, tree, fs) && Canon(img, tree, r, r.visited) && Covers(fs, r) && Loaded(fs)
    requires IsDir(tree, d) && KidOk(tree, d, e) && Sub(tree, e.ino) !! r.visited
    ensures d < |fs.inodes|
    ensures var r1 := CheckEntry(fs, r, d, Rec(e.ino, len, e.ftype, e.name));
            && Canon(img, tree, r1, r1.visited) && r1.visited == r.visited + Sub(tree, e.ino)
            && !IsDot(Rec(e.ino, len, e.ftype, e.name), d)
            && !IsDotDot(Rec(e.ino, len, e.ftype, e.name))
    decreases |tree.nodes| - d, 0, 0
  {
    assert PlacedAt(tree, e.ino) && Under(tree, e.ino, e.ino);
    KidStep(img, tree, fs, r, d, e, len);
    hide CheckEntry, CheckDir;
    if tree.nodes[e.ino].Dir? {
      WalkDir(img, tree, fs, r, e.ino);
    } else {
      assert HoldsAt(img, tree, e.ino);
      FileSub(tree, e.ino);
      VisitCanon(img, tree, fs, r, e.ino);
    }
  }

  // ------------------------------------------------------------- the whole check

  lemma {:induction false} MarkFirstAt(bitmap: seq<u8>, n: nat, b: nat)
    requires n <= 8 * |bitmap| && b < 8 * |bitmap|
    ensures Bit(MarkFirst(bitmap, n), b) <==> b < n || Bit(bitmap, b)
  {
    if n > 0 {
      MarkFirstAt(bitmap, n - 1, b);
      SetBitAt(MarkFirst(bitmap, n - 1), n - 1, b);
    }
  }

  lemma {:induction false} NumberedRight(img: Img, tree: Tree, fs: Fs, n: nat)
    requires Finished(img, tree, fs) && n <= |fs.inodes|
    ensures CountMisnumbered(fs.inodes, n) == 0
  {
    if n > 0 {
      NumberedRight(img, tree, fs, n - 1);
      if n - 1 < |tree.nodes| { assert HoldsAt(img, tree, n - 1); }
    }
  }

  /** The orphans the checker counts are the inodes that no directory lists. */
  lemma {:induction false} Orphans(img: Img, tree: Tree, fs: Fs, n: nat)
    requires Finished(img, tree, fs) && n <= |fs.inodes|
    ensures CountOrphans(fs.inodes, Sub(tree, ROOT_INODE), n) == 0 <==>
              forall i :: 3 <= i < n && i < |tree.par| ==> tree.par[i] != 0
  {
    if n > ROOT_INODE {
      Orphans(img, tree, fs, n - 1);
      hide Stores, Shape, Sub;
      OrphanAt(img, tree, fs, n - 1);
    }
  }

  lemma OrphanAt(img: Img, tree: Tree, fs: Fs, i: nat)
    requires Finished(img, tree, fs) && ROOT_INODE <= i < |fs.inodes|
    ensures |tree.par| == |tree.nodes|
    ensures fs.inodes[i].num != 0 && i !in Sub(tree, ROOT_INODE) <==> 3 <= i < |tree.par| && tree.par[i] == 0
  {
    if i < |tree.nodes| {
      assert HoldsAt(img, tree, i) && PlacedAt(tree, i);
      UnderRoot(tree, i);
    }
  }

  lemma StartCanon(img: Img, tree: Tree, fs: Fs)
    requires Finished(img, tree, fs)
    ensures Checkable(fs) && Canon(img, tree, Start(fs), {})
  {
    forall i: nat | i < |fs.inodes| ensures |fs.inodes[i].direct| == 12 {
      if i < |tree.nodes| { NodeBlockList(img, tree, fs, i); }
    }
    NumberedRight(img, tree, fs, |fs.inodes|);
    hide ClaimedRight, CountMisnumbered, MarkFirst, Zeros;
    forall b: nat ensures ClaimedRight(img, tree, Start(fs), b) { StartClaimed(img, tree, fs, b); }
  }

  lemma StartClaimed(img: Img, tree: Tree, fs: Fs, b: nat)
    requires Finished(img, tree, fs) && Checkable(fs)
    ensures img.total <= 8 * |Start(fs).computed| && ClaimedRight(img, tree, Start(fs), b)
  {
    hide Shape, CountMisnumbered, MarkFirst;
    if b < img.total {
      ZeroByte(b % 8);
      MarkFirstAt(Zeros(|fs.bitmap|), DataStart(img), b);
    }
  }

  /** After the walk every block in use is claimed and nothing else is. */
  lemma {:induction false} OwnerOfBlock(img: Img, tree: Tree, b: nat, n: nat) returns (i: nat)
    requires Stores(img, tree) && n <= |tree.nodes| && DataStart(img) <= b < tree.start[n]
    ensures i < n && Inside(tree, i, b)
  {
    if b >= tree.start[n - 1] {
      i := n - 1;
    } else {
      i := OwnerOfBlock(img, tree, b, n - 1);
    }
  }

  lemma ComputedIsStored(img: Img, tree: Tree, fs: Fs, r: Res, b: nat)
    requires Finished(img, tree, fs) && Canon(img, tree, r, Sub(tree, ROOT_INODE)) && b < img.total
    ensures Bit(r.computed, b) ==> Bit(fs.bitmap, b)
    ensures AllListed(tree) ==> (Bit(r.computed, b) <==> Bit(fs.bitmap, b))
    ensures b in r.owners ==> |r.owners[b]| == 1
  {
    assert ClaimedRight(img, tree, r, b);
    if DataStart(img) <= b < img.nextBlock {
      InUseIsClaimed(img, tree, r, b);
    } else if b in r.owners {
      var i :| i in r.visited && Inside(tree, i, b);
      StartMonotone(img, tree, i, i + 1);
    }
  }

  lemma InUseIsClaimed(img: Img, tree: Tree, r: Res, b: nat)
    requires Stores(img, tree) && Shape(tree) && Canon(img, tree, r, Sub(tree, ROOT_INODE))
    requires DataStart(img) <= b < img.nextBlock
    ensures AllListed(tree) ==> b in r.owners
    ensures b in r.owners ==> |r.owners[b]| == 1
  {
    assert ClaimedRight(img, tree, r, b);
    var i := OwnerOfBlock(img, tree, b, |tree.nodes|);
    assert HoldsAt(img, tree, i);
    UnderRoot(tree, i);
  }

  lemma {:induction false} NoMismatch(fs: Fs, r: Res, n: nat)
    requires n <= 8 * |r.computed| && n <= 8 * |fs.bitmap|
    requires forall b: nat :: b < n ==> (Bit(r.computed, b) ==> Bit(fs.bitmap, b))
    ensures UsedButFree(fs, r, n) == 0
    ensures (forall b: nat :: b < n ==> (Bit(r.computed, b) <==> Bit(fs.bitmap, b))) ==> FreeButUsed(fs, r, n) == 0
  {
    if n > 0 { NoMismatch(fs, r, n - 1); }
  }

  lemma {:induction false} CountPrefix(img: Img, n: nat)
    requires BitsBelow(img) && n <= 8 * |img.bitmap|
    ensures CountUsed(img.bitmap, n) == Min(n, img.nextBlock)
  {
    if n > 0 { CountPrefix(img, n - 1); }
  }

  lemma NoSharing(img: Img, tree: Tree, fs: Fs, r: Res)
    requires Finished(img, tree, fs) && Canon(img, tree, r, Sub(tree, ROOT_INODE))
    ensures Shared(r) == {}
  {
    forall b | b in r.owners ensures |r.owners[b]| == 1 {
      assert ClaimedRight(img, tree, r, b);
      var i :| i in r.visited && Inside(tree, i, b);
    }
  }

  lemma TreeCanon(img: Img, tree: Tree, fs: Fs)
    requires Finished(img, tree, fs) && tree.nodes[ROOT_INODE].parent == ROOT_INODE
    ensures Checkable(fs) && fs.sb.root == ROOT_INODE && fs.inodes[ROOT_INODE].num != 0
    ensures Canon(img, tree, CheckDir(fs, Start(fs), ROOT_INODE), Sub(tree, ROOT_INODE))
  {
    StartCanon(img, tree, fs);
    assert HoldsAt(img, tree, ROOT_INODE);
    WalkDir(img, tree, fs, Start(fs), ROOT_INODE);
    assert {} + Sub(tree, ROOT_INODE) == Sub(tree, ROOT_INODE);
  }

  /** On a finished image the checker never reports an error; it visits exactly what hangs below the root, and
      it has no warning either exactly when every inode in use is listed in some directory. */
  lemma FinishedIsClean(img: Img, tree: Tree, fs: Fs)
    requires Finished(img, tree, fs) && tree.nodes[ROOT_INODE].parent == ROOT_INODE
    ensures Checkable(fs) && Checked(fs).errors == 0 && Checked(fs).visited == Sub(tree, ROOT_INODE)
    ensures Checked(fs).warnings == 0 <==> AllListed(tree)
  {
    TreeCanon(img, tree, fs);
    Orphans(img, tree, fs, |fs.inodes|);
    var r0 := CheckDir(fs, Start(fs), ROOT_INODE);
    var r := CheckTree(fs, Start(fs));
    assert r == Report(r0, 0, CountOrphans(fs.inodes, Sub(tree, ROOT_INODE), |fs.inodes|));
    hide CheckDir, CheckTree, Start;
    Allocation(img, tree, fs, r0, r);
  }

  lemma Allocation(img: Img, tree: Tree, fs: Fs, r0: Res, r: Res)
    requires Finished(img, tree, fs) && Canon(img, tree, r0, Sub(tree, ROOT_INODE))
    requires r.owners == r0.owners && r.computed == r0.computed && Covers(fs, r) && fs.sb.total <= 8 * |fs.bitmap|
    ensures CheckAllocation(fs, r).errors == r.errors && CheckAllocation(fs, r).visited == r.visited
    ensures r.warnings <= CheckAllocation(fs, r).warnings
    ensures AllListed(tree) ==> CheckAllocation(fs, r).warnings == r.warnings
  {
    NoSharing(img, tree, fs, r0);
    assert Shared(r) == Shared(r0);
    forall b: nat | b < img.total
      ensures Bit(r.computed, b) ==> Bit(fs.bitmap, b)
      ensures AllListed(tree) ==> (Bit(r.computed, b) <==> Bit(fs.bitmap, b))
    {
      ComputedIsStored(img, tree, fs, r0, b);
    }
    NoMismatch(fs, r, img.total);
    CountPrefix(img, img.total);
  }
}

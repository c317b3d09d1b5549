/** A check that reports no error is right: over every image, each visited inode owns its blocks alone. */
module FsckSound {
  import opened ViperFormat
  import opened Fsck

  // ------------------------------------------------------------ the claimed blocks

  predicate AllInRange(bs: seq<nat>, total: nat) {
    forall k :: 0 <= k < |bs| ==> 0 < bs[k] < total
  }

  lemma {:induction false} InRangeIsInRange(ptrs: seq<nat>, total: nat)
    ensures AllInRange(InRange(ptrs, total), total)
  {
    if ptrs != [] { InRangeIsInRange(ptrs[..|ptrs| - 1], total); }
  }

  lemma {:induction false} DoubleClaimsInRange(fs: Fs, l1: seq<nat>)
    ensures AllInRange(DoubleClaims(fs, l1), fs.sb.total)
  {
    if l1 != [] {
      DoubleClaimsInRange(fs, l1[..|l1| - 1]);
      InRangeIsInRange(Words(Read(fs.disk, l1[|l1| - 1])), fs.sb.total);
    }
  }

  lemma BlockListInRange(fs: Fs, inode: Inode)
    requires |inode.direct| == 12
    ensures AllInRange(BlockList(fs, inode), fs.sb.total)
  {
    InRangeIsInRange(DirectPtrs(inode), fs.sb.total);
    InRangeIsInRange(IndirectPtrs(fs, inode), fs.sb.total);
    DoubleClaimsInRange(fs, Words(Read(fs.disk, inode.doubleIndirect)));
    BothInRange(InRange(DirectPtrs(inode), fs.sb.total), IndirectList(fs, inode), fs.sb.total);
    BothInRange(InRange(DirectPtrs(inode), fs.sb.total) + IndirectList(fs, inode), DoubleList(fs, inode), fs.sb.total);
  }

  lemma BothInRange(a: seq<nat>, b: seq<nat>, total: nat)
    requires AllInRange(a, total) && AllInRange(b, total)
    ensures AllInRange(a + b, total)
  {
  }

  function Times(s: seq<nat>, x: nat): nat {
    multiset(s)[x]
  }

  lemma TimesSplit(s: seq<nat>, x: nat)
    requires s != []
    ensures Times(s, x) == Times(s[..|s| - 1], x) + if s[|s| - 1] == x then 1 else 0
  {
    assert s == s[..|s| - 1] + [s[|s| - 1]];
  }

  function Repeat(x: nat, n: nat): (s: seq<nat>)
    ensures |s| == n
  {
    if n == 0 then [] else Repeat(x, n - 1) + [x]
  }

  lemma TimesRepeat(s: seq<nat>, y: nat, n: nat, x: nat)
    ensures Times(s + Repeat(y, n), x) == Times(s, x) + if x == y then n else 0
  {
    if n == 0 {
      assert s + Repeat(y, 0) == s;
    } else {
      TimesRepeat(s, y, n - 1, x);
      assert s + Repeat(y, n) == (s + Repeat(y, n - 1)) + [y];
    }
  }

  lemma ClaimAt(fs: Fs, r: Res, last: nat, ino: nat, b: nat)
    requires Covers(fs, r) && 0 < last < fs.sb.total
    ensures var r' := Claim(fs, r, last, ino);
            && OwnersOf(r', b) == (if b == last then OwnersOf(r, b) + [ino] else OwnersOf(r, b))
            && (b in r'.owners <==> b in r.owners || b == last)
            && (b < fs.sb.total ==> (Bit(r'.computed, b) <==> Bit(r.computed, b) || b == last))
  {
    if b < fs.sb.total { SetBitAt(r.computed, last, b); }
  }

  lemma RepeatMore(was: seq<nat>, x: nat, n: nat)
    ensures (was + Repeat(x, n)) + [x] == was + Repeat(x, n + 1)
    ensures was + Repeat(x, 0) == was
  {
    assert Repeat(x, n + 1) == Repeat(x, n) + [x];
  }

  lemma {:induction false} ClaimAllOwners(fs: Fs, r: Res, bs: seq<nat>, ino: nat, b: nat)
    requires Covers(fs, r) && AllInRange(bs, fs.sb.total)
    ensures OwnersOf(ClaimAll(fs, r, bs, ino), b) == OwnersOf(r, b) + Repeat(ino, Times(bs, b))
  {
    hide Claim, Bit, Repeat, OwnersOf;
    if bs == [] {
      RepeatMore(OwnersOf(r, b), ino, 0);
    } else {
      var t, last := bs[..|bs| - 1], bs[|bs| - 1];
      ClaimAllOwners(fs, r, t, ino, b);
      ClaimAt(fs, ClaimAll(fs, r, t, ino), last, ino, b);
      assert ClaimAll(fs, r, bs, ino) == Claim(fs, ClaimAll(fs, r, t, ino), last, ino);
      hide ClaimAll;
      TimesSplit(bs, b);
      RepeatMore(OwnersOf(r, b), ino, Times(t, b));
    }
  }

  lemma {:induction false} ClaimAllMarks(fs: Fs, r: Res, bs: seq<nat>, ino: nat, b: nat)
    requires Covers(fs, r) && AllInRange(bs, fs.sb.total)
    ensures var r' := ClaimAll(fs, r, bs, ino);
            && (b in r'.owners <==> b in r.owners || b in bs)
            && (b < fs.sb.total ==> (Bit(r'.computed, b) <==> Bit(r.computed, b) || b in bs))
  {
    if bs != [] {
      var t, last := bs[..|bs| - 1], bs[|bs| - 1];
      assert bs == t + [last];
      ClaimAllMarks(fs, r, t, ino, b);
      ClaimAt(fs, ClaimAll(fs, r, t, ino), last, ino, b);
      assert ClaimAll(fs, r, bs, ino) == Claim(fs, ClaimAll(fs, r, t, ino), last, ino);
      hide Claim, ClaimAll, Bit, OwnersOf;
    }
  }

  /** Claiming a list adds the inode to a block's owners once per occurrence, and marks the block. */
  lemma ClaimAllAt(fs: Fs, r: Res, bs: seq<nat>, ino: nat, b: nat)
    requires Covers(fs, r) && AllInRange(bs, fs.sb.total)
    ensures var r' := ClaimAll(fs, r, bs, ino);
            && OwnersOf(r', b) == OwnersOf(r, b) + Repeat(ino, Times(bs, b))
            && (b in r'.owners <==> b in r.owners || b in bs)
            && (b < fs.sb.total ==> (Bit(r'.computed, b) <==> Bit(r.computed, b) || b in bs))
  {
    hide ClaimAll, Bit, OwnersOf, Repeat, Times;
    ClaimAllOwners(fs, r, bs, ino, b);
    ClaimAllMarks(fs, r, bs, ino, b);
  }

  // ---------------------------------------------------------- the walk's invariant

  ghost predicate Accounted(fs: Fs, r: Res, i: nat)
    requires Loaded(fs)
  {
    && i < |fs.inodes|
    && BlockErrors(fs, fs.inodes[i]) == 0
    && forall b :: Times(BlockList(fs, fs.inodes[i]), b) <= Times(OwnersOf(r, b), i)
  }

  predicate ClaimOk(fs: Fs, r: Res, b: nat)
    requires Covers(fs, r)
  {
    b in r.owners ==> 0 < b < fs.sb.total && |r.owners[b]| > 0 && Bit(r.computed, b)
  }

  /** Claims name marked blocks of the image, and while no error was reported every visited
      inode has claimed its whole block list. */
  ghost predicate Sound(fs: Fs, r: Res) {
    && Loaded(fs) && Covers(fs, r)
    && (forall b: nat :: ClaimOk(fs, r, b))
    && (r.errors == 0 ==> forall i :: i in r.visited ==> Accounted(fs, r, i))
  }

  ghost predicate Grown(r: Res, r': Res) {
    && r.errors <= r'.errors
    && forall b: nat, i: nat :: Times(OwnersOf(r, b), i) <= Times(OwnersOf(r', b), i)
  }

  lemma AccountedGrown(fs: Fs, r: Res, r': Res, i: nat)
    requires Loaded(fs) && Accounted(fs, r, i) && Grown(r, r')
    ensures Accounted(fs, r', i)
  {
  }

  lemma ReportSound(fs: Fs, r: Res, errors: nat, warnings: nat)
    requires Sound(fs, r)
    ensures Sound(fs, Report(r, errors, warnings)) && Grown(r, Report(r, errors, warnings))
  {
    var r' := Report(r, errors, warnings);
    forall b: nat ensures ClaimOk(fs, r', b) { assert ClaimOk(fs, r, b); }
    assert forall b: nat :: OwnersOf(r', b) == OwnersOf(r, b);
    if r'.errors == 0 {
      forall i | i in r'.visited ensures Accounted(fs, r', i) { AccountedGrown(fs, r, r', i); }
    }
  }

  /** Claiming the blocks of an inode and counting it as visited keeps the invariant. */
  lemma VisitSound(fs: Fs, r: Res, ino: nat, visited: set<nat>)
    requires Sound(fs, r) && ino < |fs.inodes| && visited <= r.visited + {ino}
    ensures var r' := CheckBlocks(fs, r.(visited := visited), ino).(visited := visited);
            Sound(fs, r') && Grown(r, r')
  {
    hide ClaimAll, BlockList, BlockErrors, BlockWarnings, Repeat, BitOf;
    var inode := fs.inodes[ino];
    var bs := BlockList(fs, inode);
    var r0 := Report(r.(visited := visited), BlockErrors(fs, inode), BlockWarnings(inode));
    var r' := CheckBlocks(fs, r.(visited := visited), ino).(visited := visited);
    BlockListInRange(fs, inode);
    assert forall b: nat :: OwnersOf(r, b) == OwnersOf(r0, b);
    forall b: nat, x: nat
      ensures Times(OwnersOf(r', b), x) == Times(OwnersOf(r, b), x) + if x == ino then Times(bs, b) else 0
    {
      ClaimAllAt(fs, r0, bs, ino, b);
      TimesRepeat(OwnersOf(r, b), ino, Times(bs, b), x);
    }
    forall b: nat ensures ClaimOk(fs, r', b) {
      assert ClaimOk(fs, r, b);
      ClaimAllAt(fs, r0, bs, ino, b);
      if b in bs { assert 0 < b < fs.sb.total && Times(bs, b) > 0; }
    }
    if r'.errors == 0 {
      forall i | i in r'.visited ensures Accounted(fs, r', i) {
        if i != ino { AccountedGrown(fs, r, r', i); }
      }
    }
  }

  lemma GrownThen(r: Res, r1: Res, r2: Res)
    requires Grown(r, r1) && Grown(r1, r2)
    ensures Grown(r, r2)
  {
  }

  lemma {:induction false} CheckDirSound(fs: Fs, r: Res, ino: nat)
    requires Sound(fs, r) && ino < |fs.inodes|
    ensures Sound(fs, CheckDir(fs, r, ino)) && Grown(r, CheckDir(fs, r, ino))
    decreases Unvisited(fs, r), 0
  {
    var inode := fs.inodes[ino];
    var r1 := r.(visited := r.visited + {ino});
    ReportSound(fs, r, 1, 0);
    if ino !in r.visited {
      if inode.mode / 0x1000 % 0x10 * 0x1000 != TYPE_DIR {
        FailedSound(fs, r, Report(r1, 1, 0));
      } else {
        var r2 := CheckBlocks(fs, r1, ino);
        VisitSound(fs, r, ino, r1.visited);
        assert r2.(visited := r1.visited) == r2;
        ReportSound(fs, r2, 1, 0);
        if inode.size != 0 && inode.direct[0] != 0 {
          VisitDecreases(fs, r, r2, ino);
          CheckEntriesSound(fs, r2, ino, Read(fs.disk, inode.direct[0]), 0, false, false);
        }
      }
    }
  }

  /** Once an error is on record only the claims matter. */
  lemma FailedSound(fs: Fs, r: Res, r': Res)
    requires Sound(fs, r) && r'.owners == r.owners && r'.computed == r.computed && r'.errors == r.errors + 1
    ensures Sound(fs, r') && Grown(r, r')
  {
    forall b: nat ensures ClaimOk(fs, r', b) { assert ClaimOk(fs, r, b); }
  }

  lemma {:induction false} CheckEntriesSound(fs: Fs, r: Res, self: nat, data: Block, pos: nat, dot: bool, dotdot: bool)
    requires Sound(fs, r) && self < |fs.inodes|
    ensures var r' := CheckEntries(fs, r, self, data, pos, dot, dotdot); Sound(fs, r') && Grown(r, r')
    decreases Unvisited(fs, r), 1 + if pos < BLOCK_SIZE then BLOCK_SIZE - pos else 0
  {
    hide Accounted, Grown, CheckEntry, RecAt;
    var e := RecAt(data, pos);
    ReportSound(fs, r, (if dot then 0 else 1) + (if dotdot then 0 else 1), 0);
    if pos < fs.inodes[self].size && pos < BLOCK_SIZE {
      if e.len == 0 || e.len > BLOCK_SIZE - pos {
        ReportSound(fs, r, 1, 0);
        ReportSound(fs, Report(r, 1, 0), (if dot then 0 else 1) + (if dotdot then 0 else 1), 0);
        GrownThen(r, Report(r, 1, 0), Finish(Report(r, 1, 0), dot, dotdot));
      } else {
        var r1 := CheckEntry(fs, r, self, e);
        CheckEntrySound(fs, r, self, e);
        VisitedGrows(fs, r, r1);
        var dot1, dotdot1 := dot || (e.ino != 0 && IsDot(e, self)), dotdot || (e.ino != 0 && !IsDot(e, self) && IsDotDot(e));
        CheckEntriesSound(fs, r1, self, data, pos + e.len, dot1, dotdot1);
        GrownThen(r, r1, CheckEntries(fs, r1, self, data, pos + e.len, dot1, dotdot1));
      }
    }
  }

  lemma {:induction false} CheckEntrySound(fs: Fs, r: Res, self: nat, e: Rec)
    requires Sound(fs, r) && self < |fs.inodes|
    ensures Sound(fs, CheckEntry(fs, r, self, e)) && Grown(r, CheckEntry(fs, r, self, e))
    decreases Unvisited(fs, r), 1
  {
    var r' := CheckEntry(fs, r, self, e);
    if e.ino == 0 || r' == r {
    } else if IsDot(e, self) {
      ReportSound(fs, r, (if CStr(e.name) == DOT then 0 else 1) + (if e.ino == self then 0 else 1), 0);
    } else if IsDotDot(e) {
      ReportSound(fs, r, if CStr(e.name) == DOTDOT then 0 else 1, 0);
    } else if e.ino >= fs.sb.inodeCount || fs.inodes[e.ino].num == 0 || e.ino == self {
      ReportSound(fs, r, 1, 0);
    } else if e.ftype == FT_DIR {
      CheckDirSound(fs, r, e.ino);
    } else {
      VisitSound(fs, r, e.ino, r.visited + {e.ino});
      VisitedLater(fs, r, e.ino);
    }
  }

  lemma VisitedLater(fs: Fs, r: Res, ino: nat)
    requires Covers(fs, r) && Loaded(fs) && ino < |fs.inodes|
    ensures var v := r.visited + {ino};
            CheckBlocks(fs, r, ino).(visited := v) == CheckBlocks(fs, r.(visited := v), ino)
  {
    hide BlockList, BlockErrors, BlockWarnings, ClaimAll;
    var inode := fs.inodes[ino];
    ClaimIgnoresVisited(fs, Report(r, BlockErrors(fs, inode), BlockWarnings(inode)), BlockList(fs, inode), ino, r.visited + {ino});
  }

  lemma {:induction false} ClaimIgnoresVisited(fs: Fs, r: Res, bs: seq<nat>, ino: nat, v: set<nat>)
    requires Covers(fs, r)
    ensures ClaimAll(fs, r, bs, ino).(visited := v) == ClaimAll(fs, r.(visited := v), bs, ino)
  {
    if bs != [] { ClaimIgnoresVisited(fs, r, bs[..|bs| - 1], ino, v); }
  }

  // ---------------------------------------------------------------------- theorem

  lemma {:induction false} UsedButFreeNone(fs: Fs, r: Res, n: nat, b: nat)
    requires n <= 8 * |r.computed| && n <= 8 * |fs.bitmap| && UsedButFree(fs, r, n) == 0 && b < n && Bit(r.computed, b)
    ensures Bit(fs.bitmap, b)
  {
    if b < n - 1 { UsedButFreeNone(fs, r, n - 1, b); }
  }

  /** The state before the allocation check satisfies the walk's invariant; without errors each block
      has at most one owner and is marked used on disk. */
  lemma WalkSound(fs: Fs, r: Res)
    requires Checkable(fs) && r == CheckTree(fs, Start(fs))
    ensures Sound(fs, r)
    ensures CheckAllocation(fs, r).errors == 0 ==>
              r.errors == 0 && Shared(r) == {} && UsedButFree(fs, r, fs.sb.total) == 0
  {
    forall b: nat ensures ClaimOk(fs, Start(fs), b) { }
    CheckDirSound(fs, Start(fs), fs.sb.root);
    ReportSound(fs, Start(fs), 1, 0);
    var r1 := CheckDir(fs, Start(fs), fs.sb.root);
    ReportSound(fs, r1, 0, CountOrphans(fs.inodes, r1.visited, |fs.inodes|));
  }

  lemma OneOwner(fs: Fs, r: Res, i: nat, b: nat)
    requires Sound(fs, r) && r.errors == 0 && Shared(r) == {} && i in r.visited
    ensures i < |fs.inodes| && |OwnersOf(r, b)| <= 1
    ensures Times(BlockList(fs, fs.inodes[i]), b) <= Times(OwnersOf(r, b), i) <= 1
    ensures b in BlockList(fs, fs.inodes[i]) ==> b in r.owners && r.owners[b] == [i]
  {
    assert Accounted(fs, r, i);
    assert b !in Shared(r);
    if |OwnersOf(r, b)| == 1 { assert OwnersOf(r, b) == [OwnersOf(r, b)[0]]; }
  }

  /** Soundness: when a check of any image ends without an error, then for every visited inode all
      block pointers are in range, no block is listed twice, every listed block is nonzero, inside the
      image and marked used on disk, and no other visited inode lists it. */
  lemma NoErrorMeansSoleOwners(fs: Fs, i: nat)
    requires Checkable(fs) && Checked(fs).errors == 0 && i in Checked(fs).visited
    ensures i < |fs.inodes| && BlockErrors(fs, fs.inodes[i]) == 0
    ensures forall b :: b in BlockList(fs, fs.inodes[i]) ==> 0 < b < fs.sb.total && Bit(fs.bitmap, b)
    ensures forall b :: Times(BlockList(fs, fs.inodes[i]), b) <= 1
    ensures forall j, b :: j in Checked(fs).visited && j != i && b in BlockList(fs, fs.inodes[i]) ==>
              j < |fs.inodes| && b !in BlockList(fs, fs.inodes[j])
  {
    var r := CheckTree(fs, Start(fs));
    WalkSound(fs, r);
    assert Accounted(fs, r, i);
    forall b: nat ensures Times(BlockList(fs, fs.inodes[i]), b) <= 1 {
      OneOwner(fs, r, i, b);
    }
    forall b | b in BlockList(fs, fs.inodes[i]) ensures 0 < b < fs.sb.total && Bit(fs.bitmap, b) {
      OneOwner(fs, r, i, b);
      assert ClaimOk(fs, r, b);
      UsedButFreeNone(fs, r, fs.sb.total, b);
    }
    forall j, b | j in r.visited && j != i && b in BlockList(fs, fs.inodes[i])
      ensures j < |fs.inodes| && b !in BlockList(fs, fs.inodes[j])
    {
      OneOwner(fs, r, i, b);
      OneOwner(fs, r, j, b);
    }
  }
}

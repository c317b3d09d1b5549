/** The checker program: global state updated through loops and recursion, proved against `Fsck`. */
module FsckTool {
  import opened ViperFormat
  import opened Fsck

  // ------------------------------------------------- how claims and reports combine

  lemma {:induction false} ReportClaim(fs: Fs, r: Res, bs: seq<nat>, ino: nat, e: nat, w: nat)
    requires Covers(fs, r)
    ensures ClaimAll(fs, Report(r, e, w), bs, ino) == Report(ClaimAll(fs, r, bs, ino), e, w)
  {
    if bs != [] { ReportClaim(fs, r, bs[..|bs| - 1], ino, e, w); }
  }

  lemma {:induction false} ClaimAllAppend(fs: Fs, r: Res, a: seq<nat>, b: seq<nat>, ino: nat)
    requires Covers(fs, r)
    ensures ClaimAll(fs, r, a + b, ino) == ClaimAll(fs, ClaimAll(fs, r, a, ino), b, ino)
  {
    if b == [] {
      assert a + b == a;
    } else {
      ClaimAllAppend(fs, r, a, b[..|b| - 1], ino);
      assert (a + b)[..|a + b| - 1] == a + b[..|b| - 1];
    }
  }

  /** The state after claiming `bs` for an inode and reporting `e` errors and `w` warnings. */
  function After(fs: Fs, r: Res, ino: nat, bs: seq<nat>, e: nat, w: nat): Res
    requires Covers(fs, r)
  {
    Report(ClaimAll(fs, r, bs, ino), e, w)
  }

  /** One pointer: claimed, reported, or a hole, which counts among the direct ones. */
  function Pointed(fs: Fs, s: Res, ino: nat, p: nat, holes: bool): Res
    requires Covers(fs, s)
  {
    if p == 0 then Report(s, 0, if holes then 1 else 0)
    else if p >= fs.sb.total then Report(s, 1, 0)
    else Claim(fs, s, p, ino)
  }

  /** A first-level pointer of a double indirect block: passed over, reported, or claimed and followed. */
  function Followed(fs: Fs, s: Res, ino: nat, p: nat): Res
    requires Covers(fs, s)
  {
    if p == 0 then s
    else if p >= fs.sb.total then Report(s, 1, 0)
    else
      var ws := Words(Read(fs.disk, p));
      After(fs, Claim(fs, s, p, ino), ino, InRange(ws, fs.sb.total), CountBad(ws, fs.sb.total), 0)
  }

  lemma AfterThen(fs: Fs, r: Res, ino: nat, a: seq<nat>, e: nat, w: nat, b: seq<nat>, e': nat, w': nat)
    requires Covers(fs, r)
    ensures Covers(fs, After(fs, r, ino, a, e, w))
    ensures After(fs, After(fs, r, ino, a, e, w), ino, b, e', w') == After(fs, r, ino, a + b, e + e', w + w')
  {
    ClaimAllAppend(fs, r, a, b, ino);
    ReportClaim(fs, ClaimAll(fs, r, a, ino), b, ino, e, w);
  }

  lemma AfterOne(fs: Fs, r: Res, ino: nat, b: nat)
    requires Covers(fs, r)
    ensures After(fs, r, ino, [b], 0, 0) == Claim(fs, r, b, ino)
    ensures After(fs, r, ino, [], 0, 0) == r
  {
    assert [b][..|[b]| - 1] == [];
    assert ClaimAll(fs, r, [], ino) == r;
  }

  class Checker {
    const fs: Fs
    var errors: nat
    var warnings: nat
    var visited: set<nat>
    var owners: map<nat, seq<nat>>
    var computed: seq<u8>

    function State(): Res
      reads this
    {
      Res(errors, warnings, visited, owners, computed)
    }

    predicate Ready()
      reads this
    {
      Covers(fs, State()) && Loaded(fs)
    }

    constructor (fs: Fs)
      requires Checkable(fs)
      ensures this.fs == fs && State() == Start(fs) && Ready()
    {
      this.fs := fs;
      errors, warnings := SuperErrors(fs.sb), SuperWarnings(fs.sb);
      visited, owners, computed := {}, map[], Zeros(|fs.bitmap|);
      new;
      var i := 0;
      while i < fs.sb.dataStart && i < fs.sb.total
        invariant i <= Min(fs.sb.dataStart, fs.sb.total) && computed == MarkFirst(Zeros(|fs.bitmap|), i)
        invariant errors == SuperErrors(fs.sb) && warnings == SuperWarnings(fs.sb) && visited == {} && owners == map[]
      {
        computed := SetBit(computed, i);
        i := i + 1;
      }
      CheckNumbers();
    }

    /** An allocated inode carries its own number. */
    method CheckNumbers()
      modifies this`warnings
      ensures warnings == old(warnings) + CountMisnumbered(fs.inodes, |fs.inodes|)
    {
      var i := 0;
      while i < |fs.inodes|
        invariant i <= |fs.inodes| && warnings == old(warnings) + CountMisnumbered(fs.inodes, i)
      {
        if fs.inodes[i].num != 0 && fs.inodes[i].num != i { warnings := warnings + 1; }
        i := i + 1;
      }
    }

    method ClaimBlock(b: nat, ino: nat)
      requires Ready()
      modifies this
      ensures State() == Claim(fs, old(State()), b, ino) && Ready()
    {
      if b == 0 || b >= fs.sb.total { return; }
      owners := owners[b := (if b in owners then owners[b] else []) + [ino]];
      computed := SetBit(computed, b);
    }

    method ScanPtr(p: nat, ino: nat, holes: bool)
      requires Ready()
      modifies this
      ensures State() == Pointed(fs, old(State()), ino, p, holes) && Ready()
    {
      if p != 0 {
        if p >= fs.sb.total {
          errors := errors + 1;
        } else {
          ClaimBlock(p, ino);
        }
      } else if holes {
        warnings := warnings + 1;
      }
    }

    /** Claim the blocks a pointer list names; report pointers outside the image and, for direct
        pointers, holes. */
    method ScanPtrs(ptrs: seq<nat>, ino: nat, holes: bool)
      requires Ready()
      modifies this
      ensures Ready()
      ensures State() == After(fs, old(State()), ino, InRange(ptrs, fs.sb.total), CountBad(ptrs, fs.sb.total),
                               if holes then CountZero(ptrs) else 0)
    {
      var i := 0;
      assert ptrs[..0] == [];
      ScanNothing(fs, State(), ino);
      hide After, InRange, CountBad, CountZero, Pointed;
      while i < |ptrs|
        invariant i <= |ptrs| && Ready()
        invariant State() == After(fs, old(State()), ino, InRange(ptrs[..i], fs.sb.total), CountBad(ptrs[..i], fs.sb.total),
                                   if holes then CountZero(ptrs[..i]) else 0)
      {
        assert ptrs[..i + 1][..i] == ptrs[..i] && ptrs[..i + 1][i] == ptrs[i];
        PtrStep(fs, old(State()), ino, ptrs[..i + 1], holes);
        ScanPtr(ptrs[i], ino, holes);
        i := i + 1;
      }
      assert ptrs[..|ptrs|] == ptrs;
    }

    /** Claim every block an inode points to. */
    method CheckInodeBlocks(ino: nat)
      requires Ready() && ino < |fs.inodes|
      modifies this
      ensures State() == CheckBlocks(fs, old(State()), ino) && Ready()
    {
      var inode := fs.inodes[ino];
      WholeCheck(fs, State(), ino);
      PartSkipped(fs, State(), ino);
      hide CheckBlocks, After, InRange, CountBad, CountZero, IndirectList, IndirectErrors, DoubleList, DoubleErrors;
      if inode.size == 0 { return; }
      ScanPtrs(DirectPtrs(inode), ino, true);
      if inode.indirect != 0 { CheckIndirect(ino); }
      if inode.doubleIndirect != 0 { CheckDouble(ino); }
    }

    method CheckIndirect(ino: nat)
      requires Ready() && ino < |fs.inodes| && fs.inodes[ino].indirect != 0
      modifies this
      ensures State() == After(fs, old(State()), ino, IndirectList(fs, fs.inodes[ino]), IndirectErrors(fs, fs.inodes[ino]), 0)
      ensures Ready()
    {
      var inode := fs.inodes[ino];
      if inode.indirect >= fs.sb.total {
        errors := errors + 1;
      } else {
        ClaimBlock(inode.indirect, ino);
        ScanPtrs(IndirectPtrs(fs, inode), ino, false);
        ghost var r := old(State());
        AfterOne(fs, r, ino, inode.indirect);
        AfterThen(fs, r, ino, [inode.indirect], 0, 0, InRange(IndirectPtrs(fs, inode), fs.sb.total),
                  CountBad(IndirectPtrs(fs, inode), fs.sb.total), 0);
      }
    }

    method CheckDouble(ino: nat)
      requires Ready() && ino < |fs.inodes| && fs.inodes[ino].doubleIndirect != 0
      modifies this
      ensures State() == After(fs, old(State()), ino, DoubleList(fs, fs.inodes[ino]), DoubleErrors(fs, fs.inodes[ino]), 0)
      ensures Ready()
    {
      var inode := fs.inodes[ino];
      if inode.doubleIndirect >= fs.sb.total {
        errors := errors + 1;
      } else {
        ClaimBlock(inode.doubleIndirect, ino);
        var l1 := Words(Read(fs.disk, inode.doubleIndirect));
        ScanDouble(l1, ino);
        ghost var r := old(State());
        AfterOne(fs, r, ino, inode.doubleIndirect);
        AfterThen(fs, r, ino, [inode.doubleIndirect], 0, 0, DoubleClaims(fs, l1), DoubleBad(fs, l1), 0);
      }
    }

    method FollowDouble(p: nat, ino: nat)
      requires Ready()
      modifies this
      ensures State() == Followed(fs, old(State()), ino, p) && Ready()
    {
      if p != 0 {
        if p >= fs.sb.total {
          errors := errors + 1;
        } else {
          ClaimBlock(p, ino);
          ScanPtrs(Words(Read(fs.disk, p)), ino, false);
        }
      }
    }

    method ScanDouble(l1: seq<nat>, ino: nat)
      requires Ready()
      modifies this
      ensures State() == After(fs, old(State()), ino, DoubleClaims(fs, l1), DoubleBad(fs, l1), 0) && Ready()
    {
      var i := 0;
      ghost var r := State();
      assert l1[..0] == [];
      assert State() == After(fs, r, ino, DoubleClaims(fs, l1[..0]), DoubleBad(fs, l1[..0]), 0);
      hide After, DoubleClaims, DoubleBad, InRange, CountBad, CountZero, Words, Claim, Followed;
      while i < |l1|
        invariant i <= |l1| && Ready()
        invariant State() == After(fs, r, ino, DoubleClaims(fs, l1[..i]), DoubleBad(fs, l1[..i]), 0)
      {
        assert l1[..i + 1][..i] == l1[..i] && l1[..i + 1][i] == l1[i];
        DoubleStep(fs, r, ino, l1[..i + 1]);
        FollowDouble(l1[i], ino);
        i := i + 1;
      }
      assert l1[..|l1|] == l1;
    }

    /** Check one directory entry: `.` and `..` by their names, anything else as a child. */
    method CheckDirEntry(self: nat, e: Rec) returns (dot: bool, dotdot: bool)
      requires Ready() && self < |fs.inodes|
      modifies this
      ensures State() == CheckEntry(fs, old(State()), self, e) && Ready()
      ensures dot <==> e.ino != 0 && IsDot(e, self)
      ensures dotdot <==> e.ino != 0 && !IsDot(e, self) && IsDotDot(e)
      decreases Unvisited(fs, State()), 1
    {
      dot, dotdot := false, false;
      if e.ino == 0 { return; }
      if IsDot(e, self) {
        if CStr(e.name) != DOT { errors := errors + 1; }
        dot := true;
        if e.ino != self { errors := errors + 1; }
      } else if IsDotDot(e) {
        if CStr(e.name) != DOTDOT { errors := errors + 1; }
        dotdot := true;
      } else if e.ino >= fs.sb.inodeCount || fs.inodes[e.ino].num == 0 || e.ino == self {
        errors := errors + 1;
      } else if e.ftype == FT_DIR {
        CheckDirectory(e.ino);
      } else if e.ftype == FT_FILE || e.ftype == FT_LINK {
        CheckInodeBlocks(e.ino);
        visited := visited + {e.ino};
      }
    }

    /** Check a directory and everything below it. The set of unvisited inodes shrinks with every
        nested call, so the recursion ends on every image. */
    method CheckDirectory(ino: nat)
      requires Ready() && ino < |fs.inodes|
      modifies this
      ensures State() == CheckDir(fs, old(State()), ino) && Ready()
      decreases Unvisited(fs, State()), 0
    {
      if ino in visited { errors := errors + 1; return; }
      visited := visited + {ino};
      var inode := fs.inodes[ino];
      if inode.mode / 0x1000 % 0x10 * 0x1000 != TYPE_DIR { errors := errors + 1; return; }
      CheckInodeBlocks(ino);
      if inode.size == 0 || inode.direct[0] == 0 { errors := errors + 1; return; }
      VisitDecreases(fs, old(State()), State(), ino);
      ScanEntries(ino, Read(fs.disk, inode.direct[0]));
    }

    method ScanEntries(ino: nat, data: Block)
      requires Ready() && ino < |fs.inodes|
      modifies this
      ensures State() == CheckEntries(fs, old(State()), ino, data, 0, false, false) && Ready()
      decreases Unvisited(fs, State()), BLOCK_SIZE + 2
    {
      ghost var r := State();
      var dot, dotdot, pos := false, false, 0;
      while pos < fs.inodes[ino].size && pos < BLOCK_SIZE
        invariant Ready() && r.visited <= State().visited
        invariant CheckEntries(fs, r, ino, data, 0, false, false) == CheckEntries(fs, State(), ino, data, pos, dot, dotdot)
        decreases BLOCK_SIZE - pos
      {
        var e := RecAt(data, pos);
        if e.len == 0 || e.len > BLOCK_SIZE - pos {
          errors := errors + 1;
          break;
        }
        VisitedGrows(fs, r, State());
        var isDot, isDotDot := CheckDirEntry(ino, e);
        dot, dotdot := dot || isDot, dotdot || isDotDot;
        pos := pos + e.len;
      }
      assert Finish(State(), dot, dotdot) == CheckEntries(fs, r, ino, data, 0, false, false);
      if !dot { errors := errors + 1; }
      if !dotdot { errors := errors + 1; }
    }

    /** Walk the tree from the root, then look for allocated inodes that were not met. */
    method CheckDirectoryTree()
      requires Ready() && fs.sb.root < |fs.inodes|
      modifies this
      ensures State() == CheckTree(fs, old(State())) && Ready()
    {
      if fs.inodes[fs.sb.root].num == 0 { errors := errors + 1; return; }
      CheckDirectory(fs.sb.root);
      ghost var r := State();
      var i := ROOT_INODE;
      while i < |fs.inodes|
        invariant State() == Report(r, 0, CountOrphans(fs.inodes, r.visited, if i <= |fs.inodes| then i else |fs.inodes|))
      {
        if fs.inodes[i].num != 0 && i !in visited { warnings := warnings + 1; }
        i := i + 1;
      }
    }

    /** Blocks with several owners, and the two bitmaps against each other and the superblock. */
    method CheckBlockAllocation()
      requires Ready() && fs.sb.total <= 8 * |fs.bitmap|
      modifies this
      ensures State() == CheckAllocation(fs, old(State())) && Ready()
    {
      ghost var r := State();
      CheckShared();
      CompareBitmaps(r);
    }

    method CheckShared()
      modifies this`errors
      ensures errors == old(errors) + |Shared(State())|
    {
      var todo := owners.Keys;
      ghost var found: set<nat> := {};
      while todo != {}
        invariant todo <= owners.Keys
        invariant found == set b | b in owners.Keys - todo && |owners[b]| > 1
        invariant errors == old(errors) + |found|
        decreases |todo|
      {
        var b :| b in todo;
        todo := todo - {b};
        if |owners[b]| > 1 {
          errors := errors + 1;
          found := found + {b};
        }
      }
      assert found == Shared(State());
    }

    method CompareBitmaps(ghost r: Res)
      requires Ready() && fs.sb.total <= 8 * |fs.bitmap|
      requires State() == Report(r, |Shared(r)|, 0)
      modifies this`errors, this`warnings
      ensures State() == CheckAllocation(fs, r)
    {
      var total := fs.sb.total;
      var diskUsed, usedButFree, freeButUsed := 0, 0, 0;
      var i := 0;
      while i < total
        invariant i <= total && diskUsed == CountUsed(fs.bitmap, i) <= i
        invariant usedButFree == UsedButFree(fs, r, i) && freeButUsed == FreeButUsed(fs, r, i)
        invariant State() == Report(r, |Shared(r)| + Min(10, usedButFree), Min(10, freeButUsed))
      {
        if Bit(fs.bitmap, i) { diskUsed := diskUsed + 1; }
        if Bit(computed, i) && !Bit(fs.bitmap, i) {
          if usedButFree < 10 { errors := errors + 1; }
          usedButFree := usedButFree + 1;
        } else if !Bit(computed, i) && Bit(fs.bitmap, i) && i >= fs.sb.dataStart {
          if freeButUsed < 10 { warnings := warnings + 1; }
          freeButUsed := freeButUsed + 1;
        }
        i := i + 1;
      }
      if total - diskUsed != fs.sb.free { warnings := warnings + 1; }
    }
  }

  /** The three parts of a block list, one after the other. */
  lemma WholeList(fs: Fs, r: Res, ino: nat)
    requires Covers(fs, r) && Loaded(fs) && ino < |fs.inodes|
    ensures var inode, total := fs.inodes[ino], fs.sb.total;
            CheckBlocks(fs, r, ino) ==
            if inode.size == 0 then r else
            After(fs, r, ino, (InRange(DirectPtrs(inode), total) + IndirectList(fs, inode)) + DoubleList(fs, inode),
                  CountBad(DirectPtrs(inode), total) + IndirectErrors(fs, inode) + DoubleErrors(fs, inode), CountZero(DirectPtrs(inode)))
  {
    var inode := fs.inodes[ino];
    ReportClaim(fs, r, BlockList(fs, inode), ino, BlockErrors(fs, inode), BlockWarnings(inode));
    assert inode.size == 0 ==> ClaimAll(fs, r, [], ino) == r;
  }

  // The checker's state after the direct, the indirect and the double-indirect pointers of an inode.

  function Directed(fs: Fs, r: Res, ino: nat): (r': Res)
    requires Covers(fs, r) && Loaded(fs) && ino < |fs.inodes|
    ensures Covers(fs, r')
  {
    var ptrs := DirectPtrs(fs.inodes[ino]);
    After(fs, r, ino, InRange(ptrs, fs.sb.total), CountBad(ptrs, fs.sb.total), CountZero(ptrs))
  }

  function Indirected(fs: Fs, r: Res, ino: nat): (r': Res)
    requires Covers(fs, r) && Loaded(fs) && ino < |fs.inodes|
    ensures Covers(fs, r')
  {
    After(fs, Directed(fs, r, ino), ino, IndirectList(fs, fs.inodes[ino]), IndirectErrors(fs, fs.inodes[ino]), 0)
  }

  function Doubled(fs: Fs, r: Res, ino: nat): (r': Res)
    requires Covers(fs, r) && Loaded(fs) && ino < |fs.inodes|
    ensures Covers(fs, r')
  {
    After(fs, Indirected(fs, r, ino), ino, DoubleList(fs, fs.inodes[ino]), DoubleErrors(fs, fs.inodes[ino]), 0)
  }

  lemma WholeCheck(fs: Fs, r: Res, ino: nat)
    requires Covers(fs, r) && Loaded(fs) && ino < |fs.inodes|
    ensures CheckBlocks(fs, r, ino) == if fs.inodes[ino].size == 0 then r else Doubled(fs, r, ino)
  {
    hide CheckBlocks, After, InRange, CountBad, CountZero, DirectPtrs, IndirectList, IndirectErrors, DoubleList, DoubleErrors;
    var inode, ptrs := fs.inodes[ino], DirectPtrs(fs.inodes[ino]);
    var a, e, w := InRange(ptrs, fs.sb.total), CountBad(ptrs, fs.sb.total), CountZero(ptrs);
    var b, e2 := a + IndirectList(fs, inode), e + IndirectErrors(fs, inode);
    WholeList(fs, r, ino);
    AfterThen(fs, r, ino, a, e, w, IndirectList(fs, inode), IndirectErrors(fs, inode), 0);
    AfterThen(fs, r, ino, b, e2, w, DoubleList(fs, inode), DoubleErrors(fs, inode), 0);
  }

  /** A pointer that is 0 is passed over. */
  lemma PartSkipped(fs: Fs, r: Res, ino: nat)
    requires Covers(fs, r) && Loaded(fs) && ino < |fs.inodes|
    ensures fs.inodes[ino].indirect == 0 ==> Indirected(fs, r, ino) == Directed(fs, r, ino)
    ensures fs.inodes[ino].doubleIndirect == 0 ==> Doubled(fs, r, ino) == Indirected(fs, r, ino)
  {
    hide After, InRange, CountBad, CountZero, DirectPtrs, IndirectPtrs, DoubleClaims, DoubleBad, Words;
    NoneAfter(fs, Directed(fs, r, ino), ino);
    NoneAfter(fs, Indirected(fs, r, ino), ino);
  }

  lemma NoneAfter(fs: Fs, r: Res, ino: nat)
    requires Covers(fs, r)
    ensures After(fs, r, ino, [], 0, 0) == r
  {
  }

  lemma DoubleStep(fs: Fs, r: Res, ino: nat, l1: seq<nat>)
    requires Covers(fs, r) && l1 != []
    ensures var t := l1[..|l1| - 1];
            var s := After(fs, r, ino, DoubleClaims(fs, t), DoubleBad(fs, t), 0);
            && Covers(fs, s)
            && After(fs, r, ino, DoubleClaims(fs, l1), DoubleBad(fs, l1), 0) == Followed(fs, s, ino, l1[|l1| - 1])
  {
    if 0 < l1[|l1| - 1] < fs.sb.total {
      DoubleFollow(fs, r, ino, l1);
    } else {
      DoublePass(fs, r, ino, l1);
    }
  }

  lemma DoublePass(fs: Fs, r: Res, ino: nat, l1: seq<nat>)
    requires Covers(fs, r) && l1 != [] && !(0 < l1[|l1| - 1] < fs.sb.total)
    ensures var t, p := l1[..|l1| - 1], l1[|l1| - 1];
            After(fs, r, ino, DoubleClaims(fs, l1), DoubleBad(fs, l1), 0) ==
              Report(After(fs, r, ino, DoubleClaims(fs, t), DoubleBad(fs, t), 0), if p == 0 then 0 else 1, 0)
  {
    DoubleUnfold(fs, l1);
    hide DoubleClaims, DoubleBad, After;
    var t := l1[..|l1| - 1];
    assert DoubleClaims(fs, l1) == DoubleClaims(fs, t);
    ReportMore(fs, r, ino, DoubleClaims(fs, t), DoubleBad(fs, t), if l1[|l1| - 1] == 0 then 0 else 1);
  }

  lemma DoubleFollow(fs: Fs, r: Res, ino: nat, l1: seq<nat>)
    requires Covers(fs, r) && l1 != [] && 0 < l1[|l1| - 1] < fs.sb.total
    ensures var t, p, total := l1[..|l1| - 1], l1[|l1| - 1], fs.sb.total;
            var s, ws := After(fs, r, ino, DoubleClaims(fs, t), DoubleBad(fs, t), 0), Words(Read(fs.disk, p));
            && Covers(fs, s) && Covers(fs, Claim(fs, s, p, ino))
            && After(fs, r, ino, DoubleClaims(fs, l1), DoubleBad(fs, l1), 0) ==
                 After(fs, Claim(fs, s, p, ino), ino, InRange(ws, total), CountBad(ws, total), 0)
  {
    DoubleUnfold(fs, l1);
    var t, p, total := l1[..|l1| - 1], l1[|l1| - 1], fs.sb.total;
    var ws := Words(Read(fs.disk, p));
    ClaimThenScan(fs, r, ino, DoubleClaims(fs, t), DoubleBad(fs, t), p, InRange(ws, total), CountBad(ws, total));
    hide DoubleClaims, DoubleBad, After, InRange, CountBad, Words, ClaimAll;
  }

  lemma ReportMore(fs: Fs, r: Res, ino: nat, bs: seq<nat>, e: nat, e': nat)
    requires Covers(fs, r)
    ensures Report(After(fs, r, ino, bs, e, 0), e', 0) == After(fs, r, ino, bs, e + e', 0)
  {
  }

  lemma DoubleUnfold(fs: Fs, l1: seq<nat>)
    requires l1 != []
    ensures var t, p, total := l1[..|l1| - 1], l1[|l1| - 1], fs.sb.total;
            var ws := Words(Read(fs.disk, p));
            && DoubleClaims(fs, l1) == DoubleClaims(fs, t) + (if 0 < p < total then [p] + InRange(ws, total) else [])
            && DoubleBad(fs, l1) == DoubleBad(fs, t) + if 0 < p < total then CountBad(ws, total) else if p == 0 then 0 else 1
  {
  }

  lemma ClaimThenScan(fs: Fs, r: Res, ino: nat, bs: seq<nat>, e: nat, p: nat, more: seq<nat>, e': nat)
    requires Covers(fs, r)
    ensures var s := After(fs, r, ino, bs, e, 0);
            Covers(fs, s) && After(fs, Claim(fs, s, p, ino), ino, more, e', 0) == After(fs, r, ino, bs + ([p] + more), e + e', 0)
  {
    var s := After(fs, r, ino, bs, e, 0);
    AfterOne(fs, s, ino, p);
    AfterThen(fs, s, ino, [p], 0, 0, more, e', 0);
    AfterThen(fs, r, ino, bs, e, 0, [p] + more, e', 0);
  }

  lemma ScanNothing(fs: Fs, r: Res, ino: nat)
    requires Covers(fs, r)
    ensures After(fs, r, ino, InRange([], fs.sb.total), CountBad([], fs.sb.total), 0) == r && CountZero([]) == 0
  {
  }

  /** One more pointer: claimed, reported, or passed over. */
  lemma PtrStep(fs: Fs, r: Res, ino: nat, ptrs: seq<nat>, holes: bool)
    requires Covers(fs, r) && ptrs != []
    ensures var t, p, total := ptrs[..|ptrs| - 1], ptrs[|ptrs| - 1], fs.sb.total;
            var s := After(fs, r, ino, InRange(t, total), CountBad(t, total), if holes then CountZero(t) else 0);
            var s' := After(fs, r, ino, InRange(ptrs, total), CountBad(ptrs, total), if holes then CountZero(ptrs) else 0);
            Covers(fs, s) && s' == Pointed(fs, s, ino, p, holes)
  {
    var t, p, total := ptrs[..|ptrs| - 1], ptrs[|ptrs| - 1], fs.sb.total;
    var e, w := CountBad(t, total), if holes then CountZero(t) else 0;
    var s := After(fs, r, ino, InRange(t, total), e, w);
    if 0 < p < total {
      AfterThen(fs, r, ino, InRange(t, total), e, w, [p], 0, 0);
      AfterOne(fs, s, ino, p);
    } else {
      assert InRange(ptrs, total) == InRange(t, total);
    }
  }

  /** The program: load an image and check it. An image that cannot be opened is an error. */
  method CheckImage(disk: seq<Block>) returns (errors: nat, warnings: nat)
    requires Opens(disk) ==> Checkable(Load(disk))
    ensures !Opens(disk) ==> errors > 0
    ensures Opens(disk) ==> errors == Checked(Load(disk)).errors && warnings == Checked(Load(disk)).warnings
  {
    if !Opens(disk) { return 1, 0; }
    var checker := new Checker(Load(disk));
    checker.CheckDirectoryTree();
    checker.CheckBlockAllocation();
    return checker.errors, checker.warnings;
  }
}

/** The serialised cache refines one map from block number to contents. */
module CacheRefinement {
  import opened Sequences
  import opened CacheCore
  import opened BlockCache

  // ----------------------------------------------------------------- get and friends

  /** Holds change by one on the slot returned and nowhere else; what was held keeps block and contents. */
  predicate HoldsMove(c: Cache, c': Cache, r: Option, i: nat) {
    i < |c.core.slots| == |c'.core.slots| ==>
      var s, s' := c.core.slots[i], c'.core.slots[i];
      && s'.refs == s.refs + (if r == Some(i) then 1 else 0)
      && (s.refs > 0 ==> s'.num == s.num && s'.data == s.data && s'.valid == s.valid && (s.dirty ==> s'.dirty))
      && (s.pinned ==> s'.pinned && s'.num == s.num && s'.valid == s.valid)
  }

  ghost predicate Moves(c: Cache, c': Cache, r: Option) {
    |c.core.slots| == |c'.core.slots| && forall i: nat :: HoldsMove(c, c', r, i)
  }

  lemma MovesThen(a: Cache, b: Cache, c: Cache, r: Option)
    requires Moves(a, b, r) && Moves(b, c, None)
    ensures Moves(a, c, r)
  {
    forall i: nat ensures HoldsMove(a, c, r, i) { assert HoldsMove(a, b, r, i) && HoldsMove(b, c, None, i); }
  }

  lemma SameViewThen(a: Cache, b: Cache, c: Cache)
    requires |a.core.chains| > 0 && |b.core.chains| > 0 && |c.core.chains| > 0 && SameView(a, b) && SameView(b, c)
    ensures SameView(a, c)
  {
    forall n: nat ensures View(c, n) == View(a, n) { assert View(b, n) == View(a, n); }
  }

  lemma RefillMoves(c: Cache, v: nat, n: nat, touch: bool, read: Read, dirty: bool, refs: nat)
    requires |c.core.chains| > 0 && v < |c.core.slots| && Evictable(c.core.slots[v]) && refs <= 1
    ensures Moves(c, Refill(c, v, n, touch, read, dirty, refs), if read.Good? && refs == 1 then Some(v) else None)
  {
    RefillSlots(c, v, n, touch, read, dirty, refs);
  }

  lemma PrefetchView(c: Cache, n: nat, read: Read)
    requires Inv(c)
    ensures var c' := Prefetch(c, n, read); Inv(c') && SameView(c, c') && Moves(c, c', None) && c'.last == c.last
  {
    var c' := Prefetch(c, n, read);
    if FindAny(c.core, n).None? && Victim(c.core).Some? {
      RefillView(c, Victim(c.core).value, n, false, read, false, 0);
      RefillMoves(c, Victim(c.core).value, n, false, read, false, 0);
    } else {
      assert Moves(c, c', None);
    }
  }

  lemma {:induction false} ReadAheadView(c: Cache, n: nat, i: nat, depth: nat, io: nat -> Read)
    requires Inv(c)
    ensures var c' := ReadAhead(c, n, i, depth, io);
            Inv(c') && SameView(c, c') && Moves(c, c', None) && c'.last == c.last
    decreases depth + 1 - i
  {
    hide Prefetch, Ordered, Coherent, ChainOk, SlotOk, Apart, Permutation, View, Moves, SameView, FindIn, VictimIn;
    var c' := ReadAhead(c, n, i, depth, io);
    if i > depth || (FindAny(c.core, n + i).None? && Victim(c.core).None?) {
      StayView(c);
    } else {
      var c1 := Prefetch(c, n + i, io(n + i));
      PrefetchView(c, n + i, io(n + i));
      ReadAheadView(c1, n, i + 1, depth, io);
      MovesThen(c, c1, c', None);
      SameViewThen(c, c1, c');
    }
  }

  lemma ReadAheadStep(c: Cache, n: nat, i: nat, depth: nat, io: nat -> Read)
    requires |c.core.chains| > 0
    ensures ReadAhead(c, n, i, depth, io) ==
              if i > depth || (FindAny(c.core, n + i).None? && Victim(c.core).None?) then c
              else ReadAhead(Prefetch(c, n + i, io(n + i)), n, i + 1, depth, io)
  {
  }

  lemma StayView(c: Cache)
    requires Inv(c)
    ensures SameView(c, c) && Moves(c, c, None)
  {
  }

  lemma LastView(c: Cache, last: nat)
    requires Inv(c)
    ensures Inv(c.(last := last)) && SameView(c, c.(last := last))
  {
    var c' := c.(last := last);
    forall i: nat ensures Coherent(c', i) { assert Coherent(c, i); }
  }

  lemma HitView(c: Cache, i: nat)
    requires Inv(c) && i < |c.core.slots| && c.core.slots[i].valid
    ensures Inv(Hit(c, i)) && SameView(c, Hit(c, i)) && Moves(c, Hit(c, i), Some(i))
  {
    var s := c.core.slots[i].(refs := c.core.slots[i].refs + 1);
    SlotNote(c, i, s);
    var c1 := c.(core := SetSlot(c.core, i, s));
    TouchView(c1, i);
    forall n: nat ensures View(Hit(c, i), n) == View(c, n) { assert View(c1, n) == View(c, n); }
  }

  /** A call that asks for a block gives nothing exactly when the block is not cached and either every
      slot is held or pinned or the device cannot read it. */
  predicate Denied(c: Cache, n: nat, read: Read)
    requires |c.core.chains| > 0
  {
    Find(c.core, n).None? && ((forall s :: s in c.core.slots ==> !Evictable(s)) || read.Bad?)
  }

  lemma NoVictim(c: Cache)
    requires Inv(c)
    ensures Victim(c.core).None? <==> forall s :: s in c.core.slots ==> !Evictable(s)
  {
    if s :| s in c.core.slots && Evictable(s) {
      var i: nat :| i < |c.core.slots| && c.core.slots[i] == s;
      VictimIsOldest(c.core, i);
    }
  }

  /** `get` never changes what any block is seen to contain, whether or not reads fail and whatever is read
      ahead; it returns, newly held, a slot with exactly the block's contents, or is denied. */
  lemma GetRefines(c: Cache, n: nat, depth: nat, io: nat -> Read)
    requires Inv(c)
    ensures var (c', r) := Get(c, n, depth, io);
            && Inv(c') && SameView(c, c') && Moves(c, c', r)
            && (r.Some? ==> Holds(c', n, r.value) && c'.core.slots[r.value].data == View(c, n))
            && (r.None? <==> Denied(c, n, io(n)))
  {
    var (c', r) := Get(c, n, depth, io);
    FindAnyIsFind(c, n);
    NoVictim(c);
    if FindAny(c.core, n).Some? {
      var i := FindAny(c.core, n).value;
      HitView(c, i);
      LastView(Hit(c, i), n);
      ViewIs(c, n);
    } else if Victim(c.core).Some? {
      MissView(c, n, depth, io);
    } else {
      assert Moves(c, c', r);
    }
  }

  lemma MissView(c: Cache, n: nat, depth: nat, io: nat -> Read)
    requires Inv(c) && FindAny(c.core, n).None? && Victim(c.core).Some?
    ensures var (c', r) := Get(c, n, depth, io);
            && Inv(c') && SameView(c, c') && Moves(c, c', r)
            && (r.Some? ==> Holds(c', n, r.value) && c'.core.slots[r.value].data == View(c, n))
  {
    var (c', r) := Get(c, n, depth, io);
    var v := Victim(c.core).value;
    var c1 := Refill(c, v, n, true, io(n), false, 1);
    RefillView(c, v, n, true, io(n), false, 1);
    RefillMoves(c, v, n, true, io(n), false, 1);
    if io(n).Good? {
      RefillSlots(c, v, n, true, io(n), false, 1);
      var c2 := c1.(last := n);
      LastView(c1, n);
      assert Moves(c, c2, Some(v)) by {
        forall i: nat ensures HoldsMove(c, c2, Some(v), i) { assert HoldsMove(c, c1, Some(v), i); }
      }
      if n == c.last + 1 {
        ReadAheadView(c2, n, 1, depth, io);
        MovesThen(c, c2, c', Some(v));
        assert HoldsMove(c2, c', None, v);
      } else {
        assert c' == c2;
      }
      forall m: nat ensures View(c', m) == View(c, m) { assert View(c1, m) == View(c, m) == View(c2, m); }
      assert Holds(c', n, v);
      ViewIs(c', n);
    }
  }

  /** `get_for_write` likewise, and leaves the block marked for write-back. */
  lemma GetForWriteRefines(c: Cache, n: nat, io: nat -> Read)
    requires Inv(c)
    ensures var (c', r) := GetForWrite(c, n, io);
            && Inv(c') && SameView(c, c') && Moves(c, c', r)
            && (r.Some? ==> Holds(c', n, r.value) && c'.core.slots[r.value].data == View(c, n)
                            && c'.core.slots[r.value].dirty)
            && (r.None? <==> Denied(c, n, io(n)))
  {
    var (c', r) := GetForWrite(c, n, io);
    FindAnyIsFind(c, n);
    NoVictim(c);
    if FindAny(c.core, n).Some? {
      var i := FindAny(c.core, n).value;
      var h := Hit(c, i);
      HitView(c, i);
      SlotNote(h, i, h.core.slots[i].(dirty := true));
      assert Moves(c, c', r) by {
        forall k: nat ensures HoldsMove(c, c', r, k) { assert HoldsMove(c, h, r, k); }
      }
      forall m: nat ensures View(c', m) == View(c, m) { assert View(h, m) == View(c, m); }
      ViewIs(c, n);
    } else if Victim(c.core).Some? {
      var v := Victim(c.core).value;
      RefillView(c, v, n, true, io(n), true, 1);
      RefillMoves(c, v, n, true, io(n), true, 1);
      RefillSlots(c, v, n, true, io(n), true, 1);
      if io(n).Good? {
        assert Holds(c', n, v);
        ViewIs(c', n);
      }
    } else {
      assert Moves(c, c', r);
    }
  }

  // -------------------------------------------------------- release, pin, invalidate

  function Released(s: Slot): Slot {
    if s.refs > 0 then s.(refs := s.refs - 1) else s
  }

  function Unpinned(s: Slot, n: nat): Slot {
    if s.valid && s.num == n then s.(pinned := false) else s
  }

  function Dropped(s: Slot, n: nat): Slot {
    if s.valid && s.num == n then s.(valid := false, dirty := false, pinned := false) else s
  }

  /** `release` takes one hold from its slot and changes nothing else. */
  lemma ReleaseRefines(c: Cache, i: nat)
    requires Inv(c)
    ensures Inv(Release(c, i)) && SameView(c, Release(c, i))
    ensures Release(c, i).core.slots == if i < |c.core.slots| then c.core.slots[i := Released(c.core.slots[i])] else c.core.slots
  {
    if i < |c.core.slots| && c.core.slots[i].refs > 0 {
      assert SlotOk(c.core, {}, i);
      SlotNote(c, i, c.core.slots[i].(refs := c.core.slots[i].refs - 1));
    }
  }

  lemma SetPinnedRefines(c: Cache, i: nat, pinned: bool)
    requires Inv(c) && i < |c.core.slots|
    ensures Inv(SetPinned(c, i, pinned)) && SameView(c, SetPinned(c, i, pinned))
    ensures pinned ==> Moves(c, SetPinned(c, i, pinned), None)
  {
    assert SlotOk(c.core, {}, i);
    SlotNote(c, i, c.core.slots[i].(pinned := pinned));
  }

  /** After a successful `pin` the block is cached and pinned; `pin` fails exactly when `get` would. It gives
      no hold, and every slot that was held or pinned keeps its block. */
  lemma PinRefines(c: Cache, n: nat, io: nat -> Read)
    requires Inv(c)
    ensures var (c', ok) := Pin(c, n, io);
            && Inv(c') && SameView(c, c') && Moves(c, c', None)
            && (ok ==> exists i: nat :: Holds(c', n, i) && c'.core.slots[i].pinned)
            && (!ok <==> Denied(c, n, io(n)))
  {
    var (c', ok) := Pin(c, n, io);
    FindAnyIsFind(c, n);
    NoVictim(c);
    if Find(c.core, n).Some? {
      var i := Find(c.core, n).value;
      SetPinnedRefines(c, i, true);
      assert Holds(c', n, i);
    } else if Victim(c.core).Some? {
      PinLoads(c, n, io);
    } else {
      assert Moves(c, c', None);
    }
  }

  lemma PinLoads(c: Cache, n: nat, io: nat -> Read)
    requires Inv(c) && Find(c.core, n).None? && FindAny(c.core, n).None? && Victim(c.core).Some?
    ensures var (c', ok) := Pin(c, n, io);
            && Inv(c') && SameView(c, c') && Moves(c, c', None) && ok == io(n).Good?
            && (ok ==> exists i: nat :: Holds(c', n, i) && c'.core.slots[i].pinned)
  {
    var (c', ok) := Pin(c, n, io);
    var v := Victim(c.core).value;
    var c1 := Refill(c, v, n, true, io(n), false, 0);
    RefillView(c, v, n, true, io(n), false, 0);
    RefillMoves(c, v, n, true, io(n), false, 0);
    RefillSlots(c, v, n, true, io(n), false, 0);
    if io(n).Good? {
      SetPinnedRefines(c1, v, true);
      assert Holds(c', n, v);
      MovesThen(c, c1, c', None);
      SameViewThen(c, c1, c');
    }
  }

  /** The slot that `find` gives is the only one with a valid copy. */
  lemma FoundAlone(c: Cache, n: nat, k: nat)
    requires Inv(c)
    ensures Holds(c, n, k) <==> Find(c.core, n) == Some(k)
  {
    FindAnyIsFind(c, n);
    if Find(c.core, n).Some? { AloneHolder(c, Find(c.core, n).value, k); }
  }

  /** `unpin` takes the pin off the slot that holds the block and changes nothing else. */
  lemma UnpinRefines(c: Cache, n: nat)
    requires Inv(c)
    ensures var c' := Unpin(c, n);
            && Inv(c') && SameView(c, c') && |c'.core.slots| == |c.core.slots|
            && forall k: nat :: k < |c.core.slots| ==> c'.core.slots[k] == Unpinned(c.core.slots[k], n)
  {
    if Find(c.core, n).Some? { SetPinnedRefines(c, Find(c.core, n).value, false); }
    forall k: nat | k < |c.core.slots| ensures Unpin(c, n).core.slots[k] == Unpinned(c.core.slots[k], n) {
      FoundAlone(c, n, k);
    }
  }

  /** Invalidation drops the cached copy, held or not, and saves it first: no block's contents change, and
      no other slot does. */
  lemma InvalidateRefines(c: Cache, n: nat)
    requires Inv(c)
    ensures var c' := Invalidate(c, n);
            && Inv(c') && SameView(c, c') && (forall i: nat :: !Holds(c', n, i)) && View(c', n) == Dev(c'.dev, n)
            && |c'.core.slots| == |c.core.slots|
            && forall k: nat :: k < |c.core.slots| ==> c'.core.slots[k] == Dropped(c.core.slots[k], n)
  {
    InvalidateView(c, n);
    forall k: nat | k < |c.core.slots| ensures Invalidate(c, n).core.slots[k] == Dropped(c.core.slots[k], n) {
      FoundAlone(c, n, k);
    }
  }

  lemma InvalidateView(c: Cache, n: nat)
    requires Inv(c)
    ensures var c' := Invalidate(c, n);
            Inv(c') && SameView(c, c') && (forall i: nat :: !Holds(c', n, i)) && View(c', n) == Dev(c'.dev, n)
  {
    var c' := Invalidate(c, n);
    FindAnyIsFind(c, n);
    if Find(c.core, n).Some? {
      var v := Find(c.core, n).value;
      var s := c.core.slots[v];
      DropStruct(c.core, {}, v, s.(valid := false, dirty := false, pinned := false));
      assert Ordered(c'.core);
      assert Coherent(c, v);
      forall i: nat ensures Coherent(c', i) && !Holds(c', n, i) { AloneHolder(c, v, i); assert Coherent(c, i); }
      forall m: nat ensures View(c', m) == View(c, m) {
        ViewIs(c, m);
        ViewIs(c', m);
        if m != n {
          assert !Holds(c, m, v);
          SameHolds(c, c', m);
        }
      }
    }
    ViewIs(c', n);
  }

  // -------------------------------------------------------------------------- sync

  predicate Sorted(slots: seq<Slot>, l: seq<nat>) {
    forall j, k :: 0 <= j < k < |l| ==> Num(slots, l[j]) <= Num(slots, l[k])
  }

  lemma {:induction false} InsertSorted(slots: seq<Slot>, l: seq<nat>, x: nat)
    requires Sorted(slots, l) && NoDup(l) && x !in l
    ensures Sorted(slots, InsertByNum(slots, l, x)) && NoDup(InsertByNum(slots, l, x))
  {
    if l == [] || Num(slots, l[|l| - 1]) <= Num(slots, x) {
      forall y | y in l ensures Num(slots, y) <= Num(slots, x) { AtMostLast(slots, l, y); }
      LargestLast(slots, l, x);
    } else {
      var t, last := l[..|l| - 1], l[|l| - 1];
      hide Sorted, NoDup;
      forall y | y in t ensures y != last && Num(slots, y) <= Num(slots, last) { AtMostLast(slots, l, y); }
      WithoutLast(slots, l);
      InsertSorted(slots, t, x);
      LargestLast(slots, InsertByNum(slots, t, x), last);
    }
  }

  lemma WithoutLast(slots: seq<Slot>, l: seq<nat>)
    requires l != [] && Sorted(slots, l) && NoDup(l)
    ensures Sorted(slots, l[..|l| - 1]) && NoDup(l[..|l| - 1])
  {
  }

  lemma AtMostLast(slots: seq<Slot>, l: seq<nat>, y: nat)
    requires l != [] && Sorted(slots, l) && NoDup(l) && y in l
    ensures Num(slots, y) <= Num(slots, l[|l| - 1])
    ensures y in l[..|l| - 1] ==> y != l[|l| - 1]
  {
    var k :| 0 <= k < |l| && l[k] == y;
  }

  lemma LargestLast(slots: seq<Slot>, l: seq<nat>, x: nat)
    requires Sorted(slots, l) && NoDup(l)
    requires forall y :: y in l ==> y != x && Num(slots, y) <= Num(slots, x)
    ensures Sorted(slots, l + [x]) && NoDup(l + [x])
  {
    forall k | 0 <= k < |l| ensures l[k] != x && Num(slots, l[k]) <= Num(slots, x) { assert l[k] in l; }
  }

  lemma {:induction false} SortSorted(slots: seq<Slot>, l: seq<nat>)
    requires NoDup(l)
    ensures Sorted(slots, SortByNum(slots, l)) && NoDup(SortByNum(slots, l))
  {
    if l != [] {
      var t := l[..|l| - 1];
      SortSorted(slots, t);
      InsertSorted(slots, SortByNum(slots, t), l[|l| - 1]);
    }
  }

  function Nums(slots: seq<Slot>, l: seq<nat>): (r: seq<nat>)
    ensures |r| == |l| && forall k :: 0 <= k < |l| ==> r[k] == Num(slots, l[k])
  {
    if l == [] then [] else Nums(slots, l[..|l| - 1]) + [Num(slots, l[|l| - 1])]
  }

  /** Flushing some slots once each: those are clean and saved, the rest is as before. */
  lemma {:induction false} FlushEachSlots(c: Cache, l: seq<nat>)
    requires NoDup(l)
    requires forall i :: i in l ==> i < |c.core.slots| && c.core.slots[i].valid && c.core.slots[i].dirty
    ensures var c' := FlushEach(c, l);
            && |c'.core.slots| == |c.core.slots| && c'.writes == c.writes + Nums(c.core.slots, l)
            && forall i: nat :: i < |c.core.slots| ==>
                 c'.core.slots[i] == if i in l then c.core.slots[i].(dirty := false) else c.core.slots[i]
  {
    if l != [] {
      var t, x := l[..|l| - 1], l[|l| - 1];
      assert l == t + [x] && x in l && x !in t && forall i :: i in t ==> i in l;
      FlushEachSlots(c, t);
      hide FlushEach, NoDup;
      FlushNext(c, FlushEach(c, t), t, x);
    } else {
      assert c.writes + [] == c.writes;
    }
  }

  lemma FlushNext(c: Cache, c1: Cache, t: seq<nat>, x: nat)
    requires x < |c.core.slots| && c.core.slots[x].valid && c.core.slots[x].dirty && x !in t
    requires |c1.core.slots| == |c.core.slots| && c1.writes == c.writes + Nums(c.core.slots, t)
    requires forall i: nat :: i < |c.core.slots| ==>
               c1.core.slots[i] == if i in t then c.core.slots[i].(dirty := false) else c.core.slots[i]
    ensures var c' := FlushClean(c1, x);
            && |c'.core.slots| == |c.core.slots| && c'.writes == c.writes + Nums(c.core.slots, t + [x])
            && forall i: nat :: i < |c.core.slots| ==>
                 c'.core.slots[i] == if i in t + [x] then c.core.slots[i].(dirty := false) else c.core.slots[i]
  {
    assert (t + [x])[..|t|] == t;
    assert c.writes + Nums(c.core.slots, t) + [Num(c.core.slots, x)] == c.writes + Nums(c.core.slots, t + [x]);
  }

  lemma {:induction false} FlushEachView(c: Cache, l: seq<nat>)
    requires Inv(c)
    ensures Inv(FlushEach(c, l)) && SameView(c, FlushEach(c, l))
  {
    if l != [] {
      var t, x := l[..|l| - 1], l[|l| - 1];
      FlushEachView(c, t);
      hide Inv, View;
      FlushOne(FlushEach(c, t), x);
      SameViewThen(c, FlushEach(c, t), FlushEach(c, l));
    }
  }

  lemma FlushOne(c: Cache, x: nat)
    requires Inv(c)
    ensures var c' := FlushClean(c, x); |c.core.chains| > 0 && |c'.core.chains| > 0 && Inv(c') && SameView(c, c')
  {
    if x < |c.core.slots| && c.core.slots[x].valid && c.core.slots[x].dirty { FlushDirty(c, x); }
  }

  lemma FlushDirty(c: Cache, x: nat)
    requires Inv(c) && x < |c.core.slots| && c.core.slots[x].valid && c.core.slots[x].dirty
    ensures var c' := FlushClean(c, x); Inv(c') && SameView(c, c')
  {
    var c' := FlushClean(c, x);
    SetSlotStruct(c.core, {}, x, c.core.slots[x].(dirty := false));
    assert Ordered(c'.core);
    forall i: nat ensures Coherent(c', i) { AloneHolder(c, x, i); assert Coherent(c, i); }
    forall m: nat ensures View(c', m) == View(c, m) {
      if m == c.core.slots[x].num { assert Holds(c, m, x); }
      SameHolds(c, c', m);
    }
  }

  /** After `sync` the device agrees with the cache everywhere, nothing is dirty, and the writes issued are
      the dirty blocks, each once, in strictly ascending order. */
  lemma SyncRefines(c: Cache)
    requires Inv(c)
    ensures var c' := Sync(c);
            var w := Nums(c.core.slots, SyncOrder(c.core.slots));
            && Inv(c') && SameView(c, c')
            && (forall n: nat :: Dev(c'.dev, n) == View(c, n))
            && |c'.core.slots| == |c.core.slots|
            && (forall k: nat :: k < |c.core.slots| ==> c'.core.slots[k] == c.core.slots[k].(dirty := false))
            && c'.writes == c.writes + w
            && (forall j, k :: 0 <= j < k < |w| ==> w[j] < w[k])
            && (forall n: nat :: n in w <==> exists i: nat :: Holds(c, n, i) && c.core.slots[i].dirty)
  {
    var c' := Sync(c);
    var l := SyncOrder(c.core.slots);
    SortSorted(c.core.slots, DirtyBelow(c.core.slots, |c.core.slots|));
    FlushEachView(c, l);
    FlushEachSlots(c, l);
    forall i: nat | i < |c'.core.slots| ensures c'.core.slots[i] == c.core.slots[i].(dirty := false) {
      assert SlotOk(c.core, {}, i);
    }
    forall n: nat ensures Dev(c'.dev, n) == View(c, n) {
      assert View(c', n) == View(c, n);
      ViewIs(c', n);
      if i: nat :| Holds(c', n, i) { assert Coherent(c', i); }
    }
    SyncWrites(c, l);
  }

  lemma SyncWrites(c: Cache, l: seq<nat>)
    requires Struct(c.core, {}) && NoDup(l) && Sorted(c.core.slots, l)
    requires forall i: nat :: i in l <==> i < |c.core.slots| && c.core.slots[i].valid && c.core.slots[i].dirty
    ensures var w := Nums(c.core.slots, l);
            && (forall j, k :: 0 <= j < k < |w| ==> w[j] < w[k])
            && (forall n: nat :: n in w <==> exists i: nat :: Holds(c, n, i) && c.core.slots[i].dirty)
  {
    var w := Nums(c.core.slots, l);
    forall j, k | 0 <= j < k < |w| ensures w[j] < w[k] {
      assert l[j] in l && l[k] in l;
      AloneHolder(c, l[j], l[k]);
    }
    forall n: nat ensures n in w <==> exists i: nat :: Holds(c, n, i) && c.core.slots[i].dirty {
      if n in w {
        var k :| 0 <= k < |w| && w[k] == n;
        assert l[k] in l && Holds(c, n, l[k]);
      }
      if i: nat :| Holds(c, n, i) && c.core.slots[i].dirty {
        assert i in l;
        var k :| 0 <= k < |l| && l[k] == i;
        assert w[k] == n;
      }
    }
  }

  // ------------------------------------------------------------------- start and store

  /** An empty cache of `blocks` slots: all invalid, the list in pool order. */
  function Init(blocks: nat, buckets: nat, junk: seq<Data>, dev: Device): Cache
    requires |junk| == blocks
  {
    Cache(Core(seq(blocks, i requires 0 <= i < blocks => Slot(0, junk[i], false, false, false, 0)),
               seq(buckets, _ => []), seq(blocks, i => i), []), dev, [], 0)
  }

  lemma InitInv(blocks: nat, buckets: nat, junk: seq<Data>, dev: Device)
    requires |junk| == blocks && buckets > 0
    ensures Inv(Init(blocks, buckets, junk, dev))
    ensures forall n: nat :: View(Init(blocks, buckets, junk, dev), n) == Dev(dev, n)
  {
    var c := Init(blocks, buckets, junk, dev);
    forall h: nat ensures ChainOk(c.core, h) { }
    forall i: nat ensures SlotOk(c.core, {}, i) { }
    forall i: nat, j: nat ensures Apart(c.core, i, j) { }
  }

  /** A store through a slot whose block is marked for write-back changes that block and no other. */
  lemma StoreRefines(c: Cache, i: nat, data: Data)
    requires Inv(c) && i < |c.core.slots| && c.core.slots[i].valid && c.core.slots[i].dirty
    ensures Inv(Store(c, i, data))
    ensures forall n: nat :: View(Store(c, i, data), n) == if n == c.core.slots[i].num then data else View(c, n)
  {
    var c' := Store(c, i, data);
    SetSlotStruct(c.core, {}, i, c.core.slots[i].(data := data));
    assert Ordered(c'.core);
    forall k: nat ensures Coherent(c', k) { assert Coherent(c, k); }
    forall n: nat ensures View(c', n) == if n == c.core.slots[i].num then data else View(c, n) {
      if n == c.core.slots[i].num {
        ViewIs(c', n);
        assert Holds(c', n, i);
      } else {
        SameHolds(c, c', n);
      }
    }
  }

  /** Changing a slot's contents moves nothing. */
  lemma StoreStruct(c: Cache, i: nat, data: Data)
    requires Inv(c) && i < |c.core.slots| && c.core.slots[i].valid
    ensures var c' := Store(c, i, data);
            && Struct(c'.core, {}) && Ordered(c'.core) && Find(c'.core, c.core.slots[i].num) == Some(i)
            && forall k: nat :: k != i ==> !Holds(c', c.core.slots[i].num, k)
  {
    var c' := Store(c, i, data);
    SetSlotStruct(c.core, {}, i, c.core.slots[i].(data := data));
    assert Ordered(c'.core);
    FindAnyIsFind(c', c.core.slots[i].num);
    assert Holds(c', c.core.slots[i].num, i);
    forall k: nat ensures k != i ==> !Holds(c', c.core.slots[i].num, k) { AloneHolder(c', i, k); }
  }

  lemma StoreSeen(c: Cache, i: nat, data: Data)
    requires Inv(c) && i < |c.core.slots| && c.core.slots[i].valid
    ensures |Store(c, i, data).core.chains| > 0 && View(Store(c, i, data), c.core.slots[i].num) == data
    ensures Inv(Store(c, i, data)) <==> c.core.slots[i].dirty || data == Dev(c.dev, c.core.slots[i].num)
  {
    var c' := Store(c, i, data);
    StoreStruct(c, i, data);
    if c.core.slots[i].dirty || data == Dev(c.dev, c.core.slots[i].num) {
      forall k: nat ensures Coherent(c', k) { assert Coherent(c, k); }
    } else {
      assert !Coherent(c', i);
    }
  }

  lemma StoreInvalidated(c: Cache, i: nat, data: Data)
    requires Inv(c) && i < |c.core.slots| && c.core.slots[i].valid
    ensures var n := c.core.slots[i].num;
            var c' := Invalidate(Store(c, i, data), n);
            && Inv(c') && View(c', n) == (if c.core.slots[i].dirty then data else Dev(c.dev, n))
            && |c'.core.slots| == |c.core.slots| && c'.core.slots[i] == Dropped(c.core.slots[i].(data := data), n)
  {
    var n, c1 := c.core.slots[i].num, Store(c, i, data);
    var c', s := Invalidate(c1, n), c1.core.slots[i];
    StoreStruct(c, i, data);
    DropStruct(c1.core, {}, i, s.(valid := false, dirty := false, pinned := false));
    assert Ordered(c'.core);
    forall k: nat ensures Coherent(c', k) && !Holds(c', n, k) {
      assert Coherent(c, k) && (k != i ==> !Holds(c1, n, k));
    }
    ViewIs(c', n);
  }

  lemma {:induction false} FlushEachDev(c: Cache, l: seq<nat>, n: nat)
    requires forall k :: k in l && k < |c.core.slots| ==> c.core.slots[k].num != n
    ensures var c' := FlushEach(c, l);
            && Dev(c'.dev, n) == Dev(c.dev, n) && |c'.core.slots| == |c.core.slots|
            && forall k: nat :: k < |c.core.slots| ==> c'.core.slots[k].num == c.core.slots[k].num
  {
    if l != [] { FlushEachDev(c, l[..|l| - 1], n); }
  }

  lemma StoreSynced(c: Cache, i: nat, data: Data)
    requires Inv(c) && i < |c.core.slots| && c.core.slots[i].valid
    ensures var n := c.core.slots[i].num;
            Dev(Sync(Store(c, i, data)).dev, n) == if c.core.slots[i].dirty then data else Dev(c.dev, n)
  {
    var n, c1 := c.core.slots[i].num, Store(c, i, data);
    StoreSeen(c, i, data);
    if c.core.slots[i].dirty {
      SyncRefines(c1);
    } else {
      StoreStruct(c, i, data);
      forall k | k in SyncOrder(c1.core.slots) && k < |c1.core.slots| ensures c1.core.slots[k].num != n {
        assert k != i ==> !Holds(c1, n, k);
      }
      FlushEachDev(c1, SyncOrder(c1.core.slots), n);
    }
  }

  /** The slot is taken for another block `m`, which may or may not be read in: the store is written back first
      exactly when the block is marked. */
  lemma StoreEvicted(c: Cache, i: nat, data: Data, m: nat, touch: bool, read: Read, dirty: bool, refs: nat)
    requires Inv(c) && i < |c.core.slots| && c.core.slots[i].valid && FindAny(c.core, m).None?
    ensures var n := c.core.slots[i].num;
            var c' := Refill(Store(c, i, data), i, m, touch, read, dirty, refs);
            |c'.core.chains| > 0 && View(c', n) == if c.core.slots[i].dirty then data else Dev(c.dev, n)
  {
    var n, c1 := c.core.slots[i].num, Store(c, i, data);
    var c' := Refill(c1, i, m, touch, read, dirty, refs);
    StoreStruct(c, i, data);
    FindAnyIsFind(c, m);
    FindAnyIsFind(c1, m);
    assert Holds(c, n, i);
    forall k: nat ensures !Holds(c1, m, k) { assert !Holds(c, m, k); }
    RefillStruct(c1, i, m, touch, read, dirty, refs);
    RefillSlots(c1, i, m, touch, read, dirty, refs);
    hide Refill;
    forall k: nat ensures !Holds(c', n, k) { assert k != i ==> !Holds(c1, n, k); }
    ViewIs(c', n);
  }

  /** Clients see what was stored in a valid slot whether or not the block is marked. It outlives the slot exactly
      when the block is marked or the store changed nothing: the same condition decides whether a flush brings it
      to the device, whether the block reads as stored after it was invalidated, and whether the cache keeps its
      invariant. */
  lemma StoreNeedsMark(c: Cache, i: nat, data: Data)
    requires Inv(c) && i < |c.core.slots| && c.core.slots[i].valid
    ensures var n, c1 := c.core.slots[i].num, Store(c, i, data);
            var kept := c.core.slots[i].dirty || data == Dev(c.dev, n);
            && |c1.core.chains| > 0 && View(c1, n) == data
            && (Inv(c1) <==> kept)
            && (Dev(Sync(c1).dev, n) == data <==> kept)
            && |Invalidate(c1, n).core.chains| > 0 && (View(Invalidate(c1, n), n) == data <==> kept)
  {
    hide View, Sync, Invalidate, Coherent, Ordered;
    StoreSeen(c, i, data);
    StoreSynced(c, i, data);
    StoreInvalidated(c, i, data);
  }

  lemma GetAlone(c: Cache, n: nat)
    requires Inv(c) && |c.core.slots| == 1 && !c.core.slots[0].valid && Evictable(c.core.slots[0])
    ensures var (c', r) := Get(c, n, 0, _ => Good);
            && r == Some(0) && Inv(c') && c'.dev == c.dev
            && c'.core.slots == [Slot(n, Dev(c.dev, n), true, false, c.core.slots[0].pinned, 1)]
  {
    GetRefines(c, n, 0, _ => Good);
    FindAnyIsFind(c, n);
    VictimIsOldest(c.core, 0);
    RefillSlots(c, 0, n, true, Good, false, 1);
  }

  /** A run that loses any store: get a block, change it without a mark, release it, invalidate it, get it again. The
      client then reads what the block held before. */
  lemma StoreLost(n: nat, data: Data, junk: Data, dev: Device)
    ensures var (c1, r1) := Get(Init(1, 1, [junk], dev), n, 0, _ => Good);
            && r1 == Some(0) && |c1.core.slots| == 1
            && var c2 := Release(Store(c1, 0, data), 0);
               && |c2.core.chains| > 0 && View(c2, n) == data
               && |Invalidate(c2, n).core.chains| > 0
               && var (c3, r3) := Get(Invalidate(c2, n), n, 0, _ => Good);
                  r3 == Some(0) && |c3.core.slots| == 1 && c3.core.slots[0].data == Dev(dev, n)
  {
    var c0 := Init(1, 1, [junk], dev);
    InitInv(1, 1, [junk], dev);
    hide Inv, Get, View, Invalidate, Store;
    GetAlone(c0, n);
    var c1 := Get(c0, n, 0, _ => Good).0;
    ReleaseRefines(c1, 0);
    var c := Release(c1, 0);
    ReleaseAfterStore(c1, 0, data);
    StoreSeen(c, 0, data);
    StoreInvalidated(c, 0, data);
    GetAlone(Invalidate(Store(c, 0, data), n), n);
  }

  lemma ReleaseAfterStore(c: Cache, i: nat, data: Data)
    requires i < |c.core.slots|
    ensures |Release(c, i).core.slots| == |c.core.slots|
    ensures Release(Store(c, i, data), i) == Store(Release(c, i), i, data)
  {
    assert Release(Store(c, i, data), i).core.slots == Store(Release(c, i), i, data).core.slots;
  }
}

/** Runs of the serialised cache as its clients see them: every client keeps the blocks it was given until it
    releases them, and what it reads and writes there is one memory, determined by the calls alone. */
module CacheClients {
  import opened CacheCore
  import opened BlockCache
  import opened CacheRefinement

  // ------------------------------------------------------------------------- the ledger

  /** A block obtained and not yet released, and the slot it was given in. It is no longer live once the block
      was invalidated. */
  datatype Hold = Hold(num: nat, slot: nat, live: bool)

  /** What clients know from their calls: the holds, oldest first, and the blocks that were marked for
      write-back since the last `sync` and held ever since. */
  datatype Ledger = Ledger(holds: seq<Hold>, marked: set<nat>)

  datatype Op =
    | OpGet(n: nat, depth: nat, io: nat -> Read)
    | OpGetForWrite(n: nat, io: nat -> Read)
    | OpRelease(h: nat)                         // of the `h`-th hold
    | OpStore(h: nat, data: Data, mark: bool)   // through the `h`-th hold, then marking the block if `mark`
    | OpPin(n: nat, io: nat -> Read)
    | OpUnpin(n: nat)
    | OpInvalidate(n: nat)
    | OpSync

  /** A call and the slot it returned, if any. */
  datatype Call = Call(op: Op, out: Option)

  predicate Held(holds: seq<Hold>, n: nat) {
    exists k :: 0 <= k < |holds| && holds[k].live && holds[k].num == n
  }

  function Without(holds: seq<Hold>, h: nat): seq<Hold>
    requires h < |holds|
  {
    holds[..h] + holds[h + 1..]
  }

  function Stale(x: Hold, n: nat): Hold {
    if x.num == n then x.(live := false) else x
  }

  function AllStale(holds: seq<Hold>, n: nat): (r: seq<Hold>)
    ensures |r| == |holds| && forall k :: 0 <= k < |holds| ==> r[k] == Stale(holds[k], n)
  {
    seq(|holds|, k requires 0 <= k < |holds| => Stale(holds[k], n))
  }

  /** The ledger after a call. */
  function Noted(l: Ledger, call: Call): Ledger {
    match call.op
    case OpGet(n, _, _) => if call.out.Some? then l.(holds := l.holds + [Hold(n, call.out.value, true)]) else l
    case OpGetForWrite(n, _) =>
      if call.out.Some? then Ledger(l.holds + [Hold(n, call.out.value, true)], l.marked + {n}) else l
    case OpRelease(h) =>
      if h >= |l.holds| then l else
      var rest, n := Without(l.holds, h), l.holds[h].num;
      Ledger(rest, if Held(rest, n) then l.marked else l.marked - {n})
    case OpStore(h, _, mark) => if mark && h < |l.holds| then l.(marked := l.marked + {l.holds[h].num}) else l
    case OpInvalidate(n) => Ledger(AllStale(l.holds, n), l.marked - {n})
    case OpSync => l.(marked := {})
    case OpPin(_, _) => l
    case OpUnpin(_) => l
  }

  function LedgerAfter(calls: seq<Call>, k: nat): Ledger
    requires k <= |calls|
  {
    if k == 0 then Ledger([], {}) else Noted(LedgerAfter(calls, k - 1), calls[k - 1])
  }

  /** The rules for clients: release only what was obtained, once; change a block's contents only through a
      live hold, and mark it unless it is marked already. */
  predicate Legal(l: Ledger, op: Op) {
    match op
    case OpRelease(h) => h < |l.holds|
    case OpStore(h, _, mark) => h < |l.holds| && l.holds[h].live && (mark || l.holds[h].num in l.marked)
    case _ => true
  }

  /** The contents of block `n` after `k` calls in a memory without a cache: the last store to it, or what it
      held at the start. */
  function Memory(calls: seq<Call>, k: nat, start: Data, n: nat): Data
    requires k <= |calls|
  {
    if k == 0 then start
    else
      var op, l := calls[k - 1].op, LedgerAfter(calls, k - 1);
      if op.OpStore? && op.h < |l.holds| && l.holds[op.h].num == n then op.data
      else Memory(calls, k - 1, start, n)
  }

  // --------------------------------------------------------------------------- the run

  function StoreThrough(c: Cache, i: nat, data: Data, mark: bool): Cache {
    if i < |c.core.slots| then
      c.(core := SetSlot(c.core, i, c.core.slots[i].(data := data, dirty := c.core.slots[i].dirty || mark)))
    else c
  }

  function Step(c: Cache, l: Ledger, op: Op): (Cache, Option)
    requires |c.core.chains| > 0 && Legal(l, op)
  {
    match op
    case OpGet(n, depth, io) => Get(c, n, depth, io)
    case OpGetForWrite(n, io) => GetForWrite(c, n, io)
    case OpRelease(h) => (Release(c, l.holds[h].slot), None)
    case OpStore(h, data, mark) => (StoreThrough(c, l.holds[h].slot, data, mark), None)
    case OpPin(n, io) => (Pin(c, n, io).0, None)
    case OpUnpin(n) => (Unpin(c, n), None)
    case OpInvalidate(n) => (Invalidate(c, n), None)
    case OpSync => (Sync(c), None)
  }

  ghost predicate StepAt(path: seq<Cache>, calls: seq<Call>, k: nat)
    requires k < |calls| && |path| == |calls| + 1
  {
    var l := LedgerAfter(calls, k);
    |path[k].core.chains| > 0 && Legal(l, calls[k].op) && (path[k + 1], calls[k].out) == Step(path[k], l, calls[k].op)
  }

  /** A run from a cache that nobody holds anything of, in which every client keeps the rules. */
  ghost predicate IsRun(path: seq<Cache>, calls: seq<Call>) {
    && |path| == |calls| + 1
    && Inv(path[0]) && (forall i: nat :: i < |path[0].core.slots| ==> path[0].core.slots[i].refs == 0)
    && forall k: nat :: k < |calls| ==> StepAt(path, calls, k)
  }

  // ------------------------------------------------------------- cache and ledger agree

  function Count(holds: seq<Hold>, i: nat): nat {
    if holds == [] then 0 else Count(holds[..|holds| - 1], i) + if holds[|holds| - 1].slot == i then 1 else 0
  }

  predicate HoldOk(c: Cache, l: Ledger, k: nat) {
    k < |l.holds| ==>
      var h := l.holds[k];
      && h.slot < |c.core.slots|
      && (h.live ==> Holds(c, h.num, h.slot) && (h.num in l.marked ==> c.core.slots[h.slot].dirty))
  }

  predicate RefsAt(c: Cache, l: Ledger, i: nat) {
    i < |c.core.slots| ==> c.core.slots[i].refs == Count(l.holds, i)
  }

  predicate MarkedHeld(l: Ledger, n: nat) {
    n in l.marked ==> Held(l.holds, n)
  }

  /** Each slot is held as often as the ledger says; each live hold's slot has its block, marked if the ledger
      says so. */
  ghost predicate Agree(c: Cache, l: Ledger) {
    && (forall i: nat :: RefsAt(c, l, i))
    && (forall k: nat :: HoldOk(c, l, k))
    && (forall n: nat :: MarkedHeld(l, n))
  }

  lemma {:induction false} CountAt(holds: seq<Hold>, k: nat)
    requires k < |holds|
    ensures Count(holds, holds[k].slot) > 0
  {
    if k < |holds| - 1 { CountAt(holds[..|holds| - 1], k); }
  }

  lemma {:induction false} CountWithout(holds: seq<Hold>, h: nat, i: nat)
    requires h < |holds|
    ensures Count(Without(holds, h), i) + (if holds[h].slot == i then 1 else 0) == Count(holds, i)
  {
    var rest, last := holds[..|holds| - 1], holds[|holds| - 1];
    assert holds == rest + [last];
    CountMore(rest, last, i);
    if h == |holds| - 1 {
      assert Without(holds, h) == rest;
    } else {
      CountWithout(rest, h, i);
      assert Without(holds, h) == Without(rest, h) + [last];
      hide Count, Without;
      CountMore(Without(rest, h), last, i);
    }
  }

  lemma {:induction false} CountStale(holds: seq<Hold>, n: nat, i: nat)
    ensures Count(AllStale(holds, n), i) == Count(holds, i)
  {
    if holds != [] {
      CountStale(holds[..|holds| - 1], n, i);
      assert AllStale(holds, n)[..|holds| - 1] == AllStale(holds[..|holds| - 1], n);
    }
  }

  lemma CountMore(holds: seq<Hold>, x: Hold, i: nat)
    ensures Count(holds + [x], i) == Count(holds, i) + if x.slot == i then 1 else 0
  {
    assert (holds + [x])[..|holds|] == holds;
  }

  lemma HeldMore(holds: seq<Hold>, x: Hold, n: nat)
    requires Held(holds, n)
    ensures Held(holds + [x], n)
  {
    var k :| 0 <= k < |holds| && holds[k].live && holds[k].num == n;
    assert (holds + [x])[k] == holds[k];
  }

  /** A held slot is not reused, so holds survive whatever moves no other hold. */
  lemma MovesKeepHolds(c: Cache, c': Cache, l: Ledger, r: Option)
    requires Agree(c, l) && Moves(c, c', r)
    ensures forall k: nat :: HoldOk(c', l, k)
  {
    forall k: nat ensures HoldOk(c', l, k) {
      assert HoldOk(c, l, k);
      if k < |l.holds| {
        CountAt(l.holds, k);
        assert RefsAt(c, l, l.holds[k].slot) && HoldsMove(c, c', r, l.holds[k].slot);
      }
    }
  }

  lemma StillAgree(c: Cache, c': Cache, l: Ledger)
    requires Agree(c, l) && Moves(c, c', None)
    ensures Agree(c', l)
  {
    MovesKeepHolds(c, c', l, None);
    forall i: nat ensures RefsAt(c', l, i) { assert RefsAt(c, l, i) && HoldsMove(c, c', None, i); }
  }

  /** A new hold: the slot returned has the block, and if the block is marked it is so in that slot, because
      no two slots have valid copies of one block. */
  lemma NewHold(c: Cache, c': Cache, l: Ledger, n: nat, i: nat, marked: set<nat>)
    requires Agree(c, l) && Inv(c') && Moves(c, c', Some(i)) && Holds(c', n, i)
    requires marked == l.marked || (marked == l.marked + {n} && c'.core.slots[i].dirty)
    ensures Agree(c', Ledger(l.holds + [Hold(n, i, true)], marked))
  {
    var x := Hold(n, i, true);
    var l' := Ledger(l.holds + [x], marked);
    MovesKeepHolds(c, c', l, Some(i));
    forall j: nat ensures RefsAt(c', l', j) {
      CountMore(l.holds, x, j);
      assert RefsAt(c, l, j) && HoldsMove(c, c', Some(i), j);
    }
    forall m: nat ensures MarkedHeld(l', m) {
      assert MarkedHeld(l, m);
      if m == n { assert l'.holds[|l.holds|] == x; } else if m in l.marked { HeldMore(l.holds, x, m); }
    }
    forall k: nat ensures HoldOk(c', l', k) {
      assert HoldOk(c', l, k);
      if k < |l.holds| {
        AloneHolder(c', i, l.holds[k].slot);
      } else if k == |l.holds| && n in l.marked {
        assert MarkedHeld(l, n);
        var j: nat :| j < |l.holds| && l.holds[j].live && l.holds[j].num == n;
        assert HoldOk(c', l, j);
        AloneHolder(c', i, l.holds[j].slot);
      }
    }
  }

  lemma ReleaseAgrees(c: Cache, l: Ledger, h: nat)
    requires Inv(c) && Agree(c, l) && h < |l.holds|
    ensures Agree(Release(c, l.holds[h].slot), Noted(l, Call(OpRelease(h), None)))
  {
    var c', l' := Release(c, l.holds[h].slot), Noted(l, Call(OpRelease(h), None));
    assert HoldOk(c, l, h) && RefsAt(c, l, l.holds[h].slot);
    CountAt(l.holds, h);
    forall i: nat ensures RefsAt(c', l', i) {
      CountWithout(l.holds, h, i);
      assert RefsAt(c, l, i);
    }
    forall k: nat ensures HoldOk(c', l', k) {
      assert HoldOk(c, l, if k < h then k else k + 1);
    }
    forall n: nat ensures MarkedHeld(l', n) { ReleaseMarked(l, h, n); }
  }

  lemma ReleaseMarked(l: Ledger, h: nat, n: nat)
    requires h < |l.holds| && MarkedHeld(l, n)
    ensures MarkedHeld(Noted(l, Call(OpRelease(h), None)), n)
  {
    if n in l.marked && n != l.holds[h].num {
      var k :| 0 <= k < |l.holds| && l.holds[k].live && l.holds[k].num == n;
      var j := if k < h then k else k - 1;
      assert Without(l.holds, h)[j] == l.holds[k];
    }
  }

  /** Slots may lose pins and marks as long as holds keep their blocks and no ledger mark is lost. */
  lemma SlotsAgree(c: Cache, c': Cache, l: Ledger, l': Ledger)
    requires Agree(c, l) && |c'.core.slots| == |c.core.slots| && l'.holds == l.holds && (l'.marked == l.marked || l'.marked == {})
    requires forall i: nat :: i < |c.core.slots| ==>
               var s, s' := c.core.slots[i], c'.core.slots[i];
               s'.refs == s.refs && s'.num == s.num && s'.valid == s.valid && (l'.marked == {} || s'.dirty == s.dirty)
    ensures Agree(c', l')
  {
    forall i: nat ensures RefsAt(c', l', i) { assert RefsAt(c, l, i); }
    forall k: nat ensures HoldOk(c', l', k) { assert HoldOk(c, l, k); }
    forall n: nat ensures MarkedHeld(l', n) { assert MarkedHeld(l, n); }
  }

  lemma InvalidateAgrees(c: Cache, l: Ledger, n: nat)
    requires Inv(c) && Agree(c, l)
    ensures Agree(Invalidate(c, n), Noted(l, Call(OpInvalidate(n), None)))
  {
    var c', l' := Invalidate(c, n), Noted(l, Call(OpInvalidate(n), None));
    InvalidateRefines(c, n);
    hide Invalidate, Inv;
    forall i: nat ensures RefsAt(c', l', i) { CountStale(l.holds, n, i); assert RefsAt(c, l, i); }
    forall k: nat ensures HoldOk(c', l', k) { assert HoldOk(c, l, k); }
    forall m: nat ensures MarkedHeld(l', m) {
      assert MarkedHeld(l, m);
      if m in l'.marked {
        var k :| 0 <= k < |l.holds| && l.holds[k].live && l.holds[k].num == m;
        assert l'.holds[k] == l.holds[k];
      }
    }
  }

  /** A store through a hold changes that hold's block, and no other block. */
  lemma StoreAgrees(c: Cache, l: Ledger, h: nat, data: Data, mark: bool)
    requires Inv(c) && Agree(c, l) && Legal(l, OpStore(h, data, mark))
    ensures var c' := StoreThrough(c, l.holds[h].slot, data, mark);
            && Inv(c') && Agree(c', Noted(l, Call(OpStore(h, data, mark), None)))
            && forall n: nat :: View(c', n) == if n == l.holds[h].num then data else View(c, n)
  {
    var i := l.holds[h].slot;
    assert HoldOk(c, l, h);
    var marked := c.core.slots[i].(dirty := true);
    var c1 := c.(core := SetSlot(c.core, i, marked));
    SlotNote(c, i, marked);
    StoreRefines(c1, i, data);
    var c' := StoreThrough(c, i, data, mark);
    assert c' == Store(c1, i, data);
    forall n: nat ensures View(c', n) == if n == l.holds[h].num then data else View(c, n) {
      assert View(c1, n) == View(c, n);
    }
    MarkAgrees(c, c', l, h, mark);
  }

  lemma MarkAgrees(c: Cache, c': Cache, l: Ledger, h: nat, mark: bool)
    requires Inv(c) && Agree(c, l) && h < |l.holds| && l.holds[h].live && |c'.core.slots| == |c.core.slots|
    requires var i := l.holds[h].slot;
             && (forall k: nat :: k < |c.core.slots| && k != i ==> c'.core.slots[k] == c.core.slots[k])
             && (i < |c.core.slots| ==> c'.core.slots[i] == c.core.slots[i].(data := c'.core.slots[i].data, dirty := true))
    ensures Agree(c', if mark then l.(marked := l.marked + {l.holds[h].num}) else l)
  {
    var l' := if mark then l.(marked := l.marked + {l.holds[h].num}) else l;
    assert HoldOk(c, l, h);
    forall k: nat ensures RefsAt(c', l', k) { assert RefsAt(c, l, k); }
    forall n: nat ensures MarkedHeld(l', n) { assert MarkedHeld(l, n); }
    forall k: nat ensures HoldOk(c', l', k) {
      assert HoldOk(c, l, k);
      if k < |l.holds| { AloneHolder(c, l.holds[h].slot, l.holds[k].slot); }
    }
  }

  // ------------------------------------------------------------------------ refinement

  /** Every legal call keeps the invariant and the agreement with the ledger, and only a store changes what
      some block contains: the block of the hold it goes through. */
  lemma StepRefines(c: Cache, l: Ledger, op: Op)
    requires Inv(c) && Agree(c, l) && Legal(l, op)
    ensures var (c', out) := Step(c, l, op);
            && Inv(c') && Agree(c', Noted(l, Call(op, out)))
            && forall n: nat :: View(c', n) == if op.OpStore? && n == l.holds[op.h].num then op.data else View(c, n)
  {
    hide Agree, View, Get, GetForWrite, Pin, Unpin, Invalidate, Sync, Release, StoreThrough, Ordered, Coherent;
    var (c', out) := Step(c, l, op);
    match op
    case OpGet(n, depth, io) =>
      GetRefines(c, n, depth, io);
      if out.Some? { NewHold(c, c', l, n, out.value, l.marked); } else { StillAgree(c, c', l); }
    case OpGetForWrite(n, io) =>
      GetForWriteRefines(c, n, io);
      if out.Some? { NewHold(c, c', l, n, out.value, l.marked + {n}); } else { StillAgree(c, c', l); }
    case OpRelease(h) =>
      ReleaseRefines(c, l.holds[h].slot);
      ReleaseAgrees(c, l, h);
    case OpStore(h, data, mark) => StoreAgrees(c, l, h, data, mark);
    case OpPin(n, io) =>
      PinRefines(c, n, io);
      StillAgree(c, c', l);
    case OpUnpin(n) =>
      UnpinRefines(c, n);
      SlotsAgree(c, c', l, l);
    case OpInvalidate(n) =>
      InvalidateRefines(c, n);
      InvalidateAgrees(c, l, n);
    case OpSync =>
      SyncRefines(c);
      SlotsAgree(c, c', l, l.(marked := {}));
  }

  lemma StepView(c: Cache, l: Ledger, op: Op, n: nat)
    requires Inv(c) && Agree(c, l) && Legal(l, op)
    ensures Inv(Step(c, l, op).0)
    ensures View(Step(c, l, op).0, n) == if op.OpStore? && n == l.holds[op.h].num then op.data else View(c, n)
  {
    StepRefines(c, l, op);
  }

  lemma StartAgrees(c: Cache)
    requires forall i: nat :: i < |c.core.slots| ==> c.core.slots[i].refs == 0
    ensures Agree(c, Ledger([], {}))
  {
  }

  lemma {:induction false} RunInv(path: seq<Cache>, calls: seq<Call>, k: nat)
    requires IsRun(path, calls) && k <= |calls|
    ensures Inv(path[k]) && Agree(path[k], LedgerAfter(calls, k))
  {
    if k == 0 {
      StartAgrees(path[0]);
    } else {
      RunInv(path, calls, k - 1);
      assert StepAt(path, calls, k - 1);
      hide Inv, Agree, Step;
      StepRefines(path[k - 1], LedgerAfter(calls, k - 1), calls[k - 1].op);
      assert calls[k - 1] == Call(calls[k - 1].op, calls[k - 1].out);
    }
  }

  /** In every run every block is seen exactly as in the memory without a cache, which the calls determine. */
  lemma {:induction false} RunRefines(path: seq<Cache>, calls: seq<Call>, k: nat, n: nat)
    requires IsRun(path, calls) && k <= |calls|
    ensures Inv(path[k]) && View(path[k], n) == Memory(calls, k, View(path[0], n), n)
  {
    RunInv(path, calls, k);
    InvChains(path[0]);
    if k > 0 {
      RunRefines(path, calls, k - 1, n);
      hide IsRun, Inv, View, Memory;
      NextRefines(path, calls, k - 1, View(path[0], n), n);
    }
  }

  lemma NextRefines(path: seq<Cache>, calls: seq<Call>, k: nat, start: Data, n: nat)
    requires IsRun(path, calls) && k < |calls| && Inv(path[k]) && View(path[k], n) == Memory(calls, k, start, n)
    ensures |path[k + 1].core.chains| > 0 && View(path[k + 1], n) == Memory(calls, k + 1, start, n)
  {
    RunInv(path, calls, k);
    RunStep(path, calls, k);
    hide IsRun, Inv, View, Memory, Agree, Step, LedgerAfter, Legal;
    StepMemory(calls, path[k], k + 1, start, n);
  }

  lemma InvChains(c: Cache)
    requires Inv(c)
    ensures |c.core.chains| > 0
  {
  }

  /** The cache follows the memory through one call. */
  lemma StepMemory(calls: seq<Call>, c: Cache, k: nat, start: Data, n: nat)
    requires 0 < k <= |calls| && Inv(c)
    requires var l := LedgerAfter(calls, k - 1); Agree(c, l) && Legal(l, calls[k - 1].op)
    requires View(c, n) == Memory(calls, k - 1, start, n)
    ensures var c' := Step(c, LedgerAfter(calls, k - 1), calls[k - 1].op).0;
            |c'.core.chains| > 0 && View(c', n) == Memory(calls, k, start, n)
  {
    hide Agree, View, Step, LedgerAfter;
    StepView(c, LedgerAfter(calls, k - 1), calls[k - 1].op, n);
  }

  lemma RunStep(path: seq<Cache>, calls: seq<Call>, k: nat)
    requires IsRun(path, calls) && k < |calls|
    ensures var l := LedgerAfter(calls, k);
            && |path[k].core.chains| > 0 && Legal(l, calls[k].op)
            && path[k + 1] == Step(path[k], l, calls[k].op).0 && calls[k].out == Step(path[k], l, calls[k].op).1
  {
    assert StepAt(path, calls, k);
  }

  /** A held block never moves: however long a client keeps it, its slot holds that block and reads as the
      memory does. */
  lemma HoldReadsMemory(path: seq<Cache>, calls: seq<Call>, k: nat, h: nat)
    requires IsRun(path, calls) && k <= |calls| && h < |LedgerAfter(calls, k).holds| && |path[0].core.chains| > 0
    ensures var x := LedgerAfter(calls, k).holds[h];
            x.live ==> Holds(path[k], x.num, x.slot)
                       && path[k].core.slots[x.slot].data == Memory(calls, k, View(path[0], x.num), x.num)
  {
    var x := LedgerAfter(calls, k).holds[h];
    RunRefines(path, calls, k, x.num);
    RunInv(path, calls, k);
    assert HoldOk(path[k], LedgerAfter(calls, k), h);
    ViewIs(path[k], x.num);
  }

  /** Two live holds share a slot exactly when they are holds on the same block. */
  lemma HoldsApart(path: seq<Cache>, calls: seq<Call>, k: nat, g: nat, h: nat)
    requires IsRun(path, calls) && k <= |calls|
    requires var holds := LedgerAfter(calls, k).holds; g < |holds| && h < |holds| && holds[g].live && holds[h].live
    ensures var holds := LedgerAfter(calls, k).holds; holds[g].slot == holds[h].slot <==> holds[g].num == holds[h].num
  {
    RunInv(path, calls, k);
    var l := LedgerAfter(calls, k);
    assert HoldOk(path[k], l, g) && HoldOk(path[k], l, h);
    AloneHolder(path[k], l.holds[g].slot, l.holds[h].slot);
  }

  /** A block obtained at any time holds the last contents stored in it. */
  lemma GetReadsMemory(path: seq<Cache>, calls: seq<Call>, k: nat)
    requires IsRun(path, calls) && k < |calls| && |path[0].core.chains| > 0
    requires (calls[k].op.OpGet? || calls[k].op.OpGetForWrite?) && calls[k].out.Some?
    ensures var n, i := calls[k].op.n, calls[k].out.value;
            Holds(path[k + 1], n, i) && path[k + 1].core.slots[i].data == Memory(calls, k, View(path[0], n), n)
  {
    var op := calls[k].op;
    RunRefines(path, calls, k, op.n);
    assert StepAt(path, calls, k);
    hide Memory, View, Inv, LedgerAfter, Get, GetForWrite;
    if op.OpGet? {
      GetRefines(path[k], op.n, op.depth, op.io);
    } else {
      GetForWriteRefines(path[k], op.n, op.io);
    }
  }

  /** A flush at any time puts exactly the memory on the device. */
  lemma SyncWritesMemory(path: seq<Cache>, calls: seq<Call>, k: nat, n: nat)
    requires IsRun(path, calls) && k < |calls| && |path[0].core.chains| > 0 && calls[k].op.OpSync?
    ensures Dev(path[k + 1].dev, n) == Memory(calls, k, View(path[0], n), n)
  {
    RunRefines(path, calls, k, n);
    assert StepAt(path, calls, k);
    hide Memory, View, Inv, LedgerAfter, Sync;
    SyncSaves(path[k], n);
  }

  lemma SyncSaves(c: Cache, n: nat)
    requires Inv(c)
    ensures Dev(Sync(c).dev, n) == View(c, n)
  {
    SyncRefines(c);
  }
}

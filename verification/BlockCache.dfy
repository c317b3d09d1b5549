/** The block cache with its calls serialised (kernel/fs/cache.cpp): hit, miss with write-back, read-ahead,
    pinning, invalidation and the ordered flush, and the single map of blocks that all of it stands for.
    Device writes succeed; a device read may fail and then leaves anything in the buffer. */
module BlockCache {
  import opened Sequences
  import opened CacheCore

  type Device = map<nat, Data>

  function Dev(d: Device, n: nat): Data {
    if n in d then d[n] else []
  }

  /** What reading a block brings during one call. */
  datatype Read = Good | Bad(junk: Data)

  /** `writes` lists the block numbers written to the device, oldest first. */
  datatype Cache = Cache(core: Core, dev: Device, writes: seq<nat>, last: nat)

  // -------------------------------------------------------------------- operations

  /** Write one slot's data to the device. */
  function Flush(c: Cache, i: nat): Cache
    requires i < |c.core.slots|
  {
    var s := c.core.slots[i];
    c.(dev := c.dev[s.num := s.data], writes := c.writes + [s.num])
  }

  /** Reuse victim `v` for block `n`: write back, reserve, move to the front unless read ahead, then read. */
  function Refill(c: Cache, v: nat, n: nat, touch: bool, read: Read, dirty: bool, refs: nat): Cache
    requires |c.core.chains| > 0 && v < |c.core.slots|
  {
    var s := c.core.slots[v];
    var c1 := if s.valid && s.dirty then Flush(c, v) else c;
    var reserved := Reserve(c.core, v, n);
    var core := if touch then Touch(reserved, v) else reserved;
    c1.(core := match read
                case Good => Loaded(core, v, Dev(c1.dev, n), dirty, refs)
                case Bad(junk) => LoadFailed(core, v, junk))
  }

  /** Bring in one block that nobody asked for yet, unless it is cached or no slot is free. */
  function Prefetch(c: Cache, n: nat, read: Read): Cache
    requires |c.core.chains| > 0
  {
    if FindAny(c.core, n).Some? then c
    else match Victim(c.core)
         case None => c
         case Some(v) => Refill(c, v, n, false, read, false, 0)
  }

  /** Blocks n + i .. n + depth; stops at the first for which no slot is free. */
  function ReadAhead(c: Cache, n: nat, i: nat, depth: nat, io: nat -> Read): Cache
    requires |c.core.chains| > 0
    decreases depth + 1 - i
  {
    if i > depth || (FindAny(c.core, n + i).None? && Victim(c.core).None?) then c
    else ReadAhead(Prefetch(c, n + i, io(n + i)), n, i + 1, depth, io)
  }

  function Hit(c: Cache, i: nat): Cache
    requires i < |c.core.slots|
  {
    var s := c.core.slots[i];
    c.(core := Touch(SetSlot(c.core, i, s.(refs := s.refs + 1)), i))
  }

  function Get(c: Cache, n: nat, depth: nat, io: nat -> Read): (Cache, Option)
    requires |c.core.chains| > 0
  {
    match FindAny(c.core, n)
    case Some(i) => (Hit(c, i).(last := n), Some(i))
    case None =>
      match Victim(c.core)
      case None => (c, None)
      case Some(v) =>
        var c1 := Refill(c, v, n, true, io(n), false, 1);
        if io(n).Bad? then (c1, None)
        else
          var c2 := c1.(last := n);
          (if n == c.last + 1 then ReadAhead(c2, n, 1, depth, io) else c2, Some(v))
  }

  function GetForWrite(c: Cache, n: nat, io: nat -> Read): (Cache, Option)
    requires |c.core.chains| > 0
  {
    match FindAny(c.core, n)
    case Some(i) =>
      var h := Hit(c, i);
      (h.(core := SetSlot(h.core, i, h.core.slots[i].(dirty := true))), Some(i))
    case None =>
      match Victim(c.core)
      case None => (c, None)
      case Some(v) => (Refill(c, v, n, true, io(n), true, 1), if io(n).Bad? then None else Some(v))
  }

  function Release(c: Cache, i: nat): Cache {
    if i < |c.core.slots| && c.core.slots[i].refs > 0 then
      c.(core := SetSlot(c.core, i, c.core.slots[i].(refs := c.core.slots[i].refs - 1)))
    else c
  }

  function SetPinned(c: Cache, i: nat, pinned: bool): Cache
    requires i < |c.core.slots|
  {
    c.(core := SetSlot(c.core, i, c.core.slots[i].(pinned := pinned)))
  }

  function Pin(c: Cache, n: nat, io: nat -> Read): (Cache, bool)
    requires |c.core.chains| > 0
  {
    match Find(c.core, n)
    case Some(i) => (SetPinned(c, i, true), true)
    case None =>
      match Victim(c.core)
      case None => (c, false)
      case Some(v) =>
        var c1 := Refill(c, v, n, true, io(n), false, 0);
        if io(n).Bad? then (c1, false) else (SetPinned(c1, v, true), true)
  }

  function Unpin(c: Cache, n: nat): Cache
    requires |c.core.chains| > 0
  {
    match Find(c.core, n)
    case Some(i) => SetPinned(c, i, false)
    case None => c
  }

  function Invalidate(c: Cache, n: nat): Cache
    requires |c.core.chains| > 0
  {
    match Find(c.core, n)
    case Some(i) =>
      var s := c.core.slots[i];
      var c1 := if s.dirty then Flush(c, i) else c;
      c1.(core := SetSlot(Unlink(c.core, i), i, s.(valid := false, dirty := false, pinned := false)))
    case None => c
  }

  /** The slots holding unsaved data, in pool order. */
  function DirtyBelow(slots: seq<Slot>, k: nat): (r: seq<nat>)
    requires k <= |slots|
    ensures NoDup(r) && forall i: nat :: i in r <==> i < k && slots[i].valid && slots[i].dirty
  {
    if k == 0 then []
    else
      var r := DirtyBelow(slots, k - 1);
      if slots[k - 1].valid && slots[k - 1].dirty then r + [k - 1] else r
  }

  function Num(slots: seq<Slot>, i: nat): nat {
    if i < |slots| then slots[i].num else 0
  }

  /** Insert behind every slot whose number is not larger. */
  function InsertByNum(slots: seq<Slot>, l: seq<nat>, x: nat): (r: seq<nat>)
    ensures |r| == |l| + 1 && forall y :: y in r <==> y == x || y in l
  {
    if l == [] || Num(slots, l[|l| - 1]) <= Num(slots, x) then l + [x]
    else InsertByNum(slots, l[..|l| - 1], x) + [l[|l| - 1]]
  }

  function SortByNum(slots: seq<Slot>, l: seq<nat>): (r: seq<nat>)
    ensures |r| == |l| && forall y :: y in r <==> y in l
  {
    if l == [] then [] else InsertByNum(slots, SortByNum(slots, l[..|l| - 1]), l[|l| - 1])
  }

  function FlushClean(c: Cache, i: nat): Cache {
    if i < |c.core.slots| && c.core.slots[i].valid && c.core.slots[i].dirty then
      Flush(c, i).(core := SetSlot(c.core, i, c.core.slots[i].(dirty := false)))
    else c
  }

  function FlushEach(c: Cache, order: seq<nat>): Cache {
    if order == [] then c else FlushClean(FlushEach(c, order[..|order| - 1]), order[|order| - 1])
  }

  function SyncOrder(slots: seq<Slot>): seq<nat> {
    SortByNum(slots, DirtyBelow(slots, |slots|))
  }

  function Sync(c: Cache): Cache {
    FlushEach(c, SyncOrder(c.core.slots))
  }

  /** A client stores new contents in a block it holds for writing. */
  function Store(c: Cache, i: nat, data: Data): Cache
    requires i < |c.core.slots|
  {
    c.(core := SetSlot(c.core, i, c.core.slots[i].(data := data)))
  }

  // ----------------------------------------------------------------------- meaning

  predicate Coherent(c: Cache, i: nat) {
    i < |c.core.slots| && c.core.slots[i].valid && !c.core.slots[i].dirty ==>
      c.core.slots[i].data == Dev(c.dev, c.core.slots[i].num)
  }

  ghost predicate Inv(c: Cache) {
    && Struct(c.core, {})
    && Ordered(c.core)
    && forall i: nat :: Coherent(c, i)
  }

  predicate Holds(c: Cache, n: nat, i: nat) {
    i < |c.core.slots| && c.core.slots[i].valid && c.core.slots[i].num == n
  }

  /** The contents of block `n` as clients see it: the valid cached copy if there is one, else the device's. */
  function View(c: Cache, n: nat): Data
    requires |c.core.chains| > 0
  {
    match Find(c.core, n)
    case Some(i) => c.core.slots[i].data
    case None => Dev(c.dev, n)
  }

  lemma ViewIs(c: Cache, n: nat)
    requires Struct(c.core, {})
    ensures forall i: nat :: Holds(c, n, i) ==> View(c, n) == c.core.slots[i].data
    ensures (forall i: nat :: !Holds(c, n, i)) ==> View(c, n) == Dev(c.dev, n)
  {
    FindIsValid(c.core, {}, n);
    if forall i: nat :: !Holds(c, n, i) {
      forall i: nat | i < |c.core.slots| && c.core.slots[i].valid ensures c.core.slots[i].num != n {
        assert !Holds(c, n, i);
      }
    }
  }

  /** With calls serialised nothing is ever found half loaded. */
  lemma FindAnyIsFind(c: Cache, n: nat)
    requires Struct(c.core, {})
    ensures FindAny(c.core, n) == Find(c.core, n)
    ensures FindAny(c.core, n).None? <==> forall i: nat :: !Holds(c, n, i)
    ensures FindAny(c.core, n).Some? ==> Holds(c, n, FindAny(c.core, n).value)
  {
    FindAnyIsLinked(c.core, {}, n);
    FindIsValid(c.core, {}, n);
    var f := FindAny(c.core, n);
    if f.Some? {
      assert SlotOk(c.core, {}, f.value);
    }
    forall i: nat | Holds(c, n, i) ensures f.Some? {
      assert SlotOk(c.core, {}, i);
    }
    if f.Some? { assert Holds(c, n, f.value); }
  }

  ghost predicate SameView(c: Cache, c': Cache)
    requires |c.core.chains| > 0 && |c'.core.chains| > 0
  {
    forall n: nat :: View(c', n) == View(c, n)
  }

  /** Changing only holds, pins, or the dirty mark upwards. */
  lemma SlotNote(c: Cache, i: nat, s: Slot)
    requires Inv(c) && i < |c.core.slots|
    requires var o := c.core.slots[i]; s.num == o.num && s.valid == o.valid && s.data == o.data
    requires (s.dirty ==> s.valid) && (c.core.slots[i].dirty ==> s.dirty)
    ensures var c' := c.(core := SetSlot(c.core, i, s)); Inv(c') && SameView(c, c')
  {
    var c' := c.(core := SetSlot(c.core, i, s));
    SetSlotStruct(c.core, {}, i, s);
    forall k: nat ensures Coherent(c', k) { assert Coherent(c, k); }
    forall n: nat ensures View(c', n) == View(c, n) { SameHolds(c, c', n); }
  }

  /** Views agree where the same slots hold the block with the same data and the device agrees. */
  lemma SameHolds(c: Cache, c': Cache, n: nat)
    requires Struct(c.core, {}) && Struct(c'.core, {})
    requires forall i: nat :: Holds(c, n, i) <==> Holds(c', n, i)
    requires forall i: nat :: Holds(c, n, i) && Holds(c', n, i) ==> c.core.slots[i].data == c'.core.slots[i].data
    requires (forall i: nat :: !Holds(c, n, i)) ==> Dev(c'.dev, n) == Dev(c.dev, n)
    ensures View(c', n) == View(c, n)
  {
    ViewIs(c, n);
    ViewIs(c', n);
  }

  lemma TouchView(c: Cache, i: nat)
    requires Inv(c) && i < |c.core.slots|
    ensures var c' := c.(core := Touch(c.core, i)); Inv(c') && SameView(c, c')
  {
    var c' := c.(core := Touch(c.core, i));
    TouchStruct(c.core, {}, i);
    TouchOrdered(c.core, i);
    forall k: nat ensures Coherent(c', k) { assert Coherent(c, k); }
    forall n: nat ensures View(c', n) == View(c, n) { SameHolds(c, c', n); }
  }

  // ------------------------------------------------------------------------ misses

  /** What reusing a slot leaves of the structure and the order. */
  lemma RefillStruct(c: Cache, v: nat, n: nat, touch: bool, read: Read, dirty: bool, refs: nat)
    requires Struct(c.core, {}) && Ordered(c.core) && v < |c.core.slots| && FindAny(c.core, n).None?
    ensures var c' := Refill(c, v, n, touch, read, dirty, refs); Struct(c'.core, {}) && Ordered(c'.core)
  {
    var r := Reserve(c.core, v, n);
    ReserveStruct(c.core, {}, v, n);
    assert {} + {v} == {v} && {v} - {v} == {};
    if touch {
      TouchStruct(r, {v}, v);
      TouchOrdered(r, v);
    }
    var t := if touch then Touch(r, v) else r;
    assert t.slots == r.slots;
    var c1 := if c.core.slots[v].valid && c.core.slots[v].dirty then Flush(c, v) else c;
    LoadedStruct(t, {v}, v, Dev(c1.dev, n), dirty, refs);
    if read.Bad? { LoadFailedStruct(t, {v}, v, read.junk); }
  }

  /** What reusing a slot leaves in the slots and on the device. */
  lemma RefillSlots(c: Cache, v: nat, n: nat, touch: bool, read: Read, dirty: bool, refs: nat)
    requires |c.core.chains| > 0 && v < |c.core.slots|
    ensures var c' := Refill(c, v, n, touch, read, dirty, refs);
            var s := c.core.slots[v];
            && |c'.core.slots| == |c.core.slots|
            && (forall i: nat :: i < |c.core.slots| && i != v ==> c'.core.slots[i] == c.core.slots[i])
            && c'.dev == (if s.valid && s.dirty then c.dev[s.num := s.data] else c.dev)
            && c'.core.slots[v] == if read.Good? then Slot(n, Dev(c'.dev, n), true, dirty, s.pinned, refs)
                                   else Slot(0, read.junk, false, false, s.pinned, 0)
  {
  }

  lemma RefillView(c: Cache, v: nat, n: nat, touch: bool, read: Read, dirty: bool, refs: nat)
    requires Inv(c) && v < |c.core.slots| && FindAny(c.core, n).None?
    ensures var c' := Refill(c, v, n, touch, read, dirty, refs); Inv(c') && SameView(c, c')
  {
    var c' := Refill(c, v, n, touch, read, dirty, refs);
    var s := c.core.slots[v];
    RefillStruct(c, v, n, touch, read, dirty, refs);
    RefillSlots(c, v, n, touch, read, dirty, refs);
    FindAnyIsFind(c, n);
    hide Refill;
    assert Coherent(c, v);
    forall i: nat ensures Coherent(c', i) { AloneHolder(c, v, i); assert Coherent(c, i) && (i != v ==> !Holds(c, n, i)); }
    forall m: nat ensures View(c', m) == View(c, m) { RefillViewAt(c, c', v, n, m); }
  }

  lemma AloneHolder(c: Cache, v: nat, i: nat)
    requires Struct(c.core, {})
    ensures v < |c.core.slots| && Holds(c, c.core.slots[v].num, i) && c.core.slots[v].valid ==> i == v
  {
    if v < |c.core.slots| && Holds(c, c.core.slots[v].num, i) && c.core.slots[v].valid {
      assert SlotOk(c.core, {}, i) && SlotOk(c.core, {}, v) && Apart(c.core, i, v);
    }
  }

  lemma RefillViewAt(c: Cache, c': Cache, v: nat, n: nat, m: nat)
    requires Struct(c.core, {}) && Struct(c'.core, {}) && v < |c.core.slots| == |c'.core.slots|
    requires forall i: nat :: !Holds(c, n, i)
    requires forall i: nat :: i < |c.core.slots| && i != v ==> c'.core.slots[i] == c.core.slots[i]
    requires var s := c.core.slots[v];
             && Coherent(c, v)
             && c'.dev == (if s.valid && s.dirty then c.dev[s.num := s.data] else c.dev)
    requires var s' := c'.core.slots[v]; s'.valid ==> s'.num == n && s'.data == Dev(c'.dev, n)
    ensures View(c', m) == View(c, m)
  {
    ViewIs(c, m);
    ViewIs(c', m);
    var s := c.core.slots[v];
    assert !Holds(c, n, v);
    if i: nat :| Holds(c, m, i) && i != v {
      assert Holds(c', m, i);
    } else if Holds(c, m, v) {
      forall i: nat ensures !Holds(c', m, i) { assert i != v ==> !Holds(c, m, i); }
    } else {
      forall i: nat ensures !Holds(c, m, i) && (i != v ==> !Holds(c', m, i)) { assert i == v || !Holds(c, m, i); }
      assert s.valid ==> s.num != m;
      if !Holds(c', m, v) { assert forall i: nat :: !Holds(c', m, i); }
    }
  }
}

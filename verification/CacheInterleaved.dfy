/** Any number of callers of the block cache, switching wherever the code drops the cache lock
    (kernel/fs/cache.cpp). Each step is what one caller does between taking the lock and dropping it, or a client's
    change of a block it holds, which takes no lock.
    Contents of blocks play no part here, so what a read brings is any data. */
module CacheInterleaved {
  import opened CacheCore
  import opened BlockCache
  import opened CacheRefinement

  /** Where a caller stands while it does not have the lock. */
  datatype Pc =
    | Idle
    | Loading(v: nat, n: nat, write: bool, prev: nat)  // in get or get_for_write, reading block n into v
    | Ahead(n: nat, k: nat)                            // reading ahead of n, about to try n + k
    | AheadLoading(v: nat, n: nat, k: nat)             // reading block n + k into v
    | Syncing(v: nat, rest: seq<nat>)                  // in sync, writing slot v, the rest still to do

  /** `held` counts the blocks obtained and not yet released. */
  datatype Caller = Caller(pc: Pc, held: multiset<nat>)

  /** `loading` are the slots reserved for a read in progress. */
  datatype World = World(core: Core, callers: seq<Caller>, last: nat, loading: set<nat>)

  // ------------------------------------------------------------------------- steps

  function SetCaller(w: World, t: nat, x: Caller): World
    requires t < |w.callers|
  {
    w.(callers := w.callers[t := x])
  }

  function AddRefs(c: Core, i: nat, d: int): Core
    requires i < |c.slots|
  {
    var r := c.slots[i].refs + d;
    SetSlot(c, i, c.slots[i].(refs := if r < 0 then 0 else r))
  }

  /** Take the lock and look the block up; on a miss reserve a victim. */
  function Lookup(w: World, t: nat, n: nat, write: bool): World
    requires t < |w.callers| && |w.core.chains| > 0
  {
    var x := w.callers[t];
    match FindAny(w.core, n)
    case Some(i) =>
      if !w.core.slots[i].valid then w
      else
        var c1 := Touch(AddRefs(w.core, i, 1), i);
        var c2 := if write then SetSlot(c1, i, c1.slots[i].(dirty := true)) else c1;
        SetCaller(w, t, x.(held := x.held + multiset{i})).(core := c2, last := if write then w.last else n)
    case None =>
      match Victim(w.core)
      case None => w
      case Some(v) =>
        SetCaller(w, t, x.(pc := Loading(v, n, write, w.last)))
        .(core := Touch(Reserve(w.core, v, n), v), loading := w.loading + {v})
  }

  /** Take the lock after the read: publish the block, or give the slot back. */
  function Finish(w: World, t: nat, ok: bool, data: Data): World
    requires t < |w.callers| && |w.core.chains| > 0
    requires w.callers[t].pc.Loading? && w.callers[t].pc.v < |w.core.slots|
  {
    var x := w.callers[t];
    var pc := x.pc;
    var w' := w.(loading := w.loading - {pc.v});
    if ok then
      var s := w.core.slots[pc.v];
      var next := if !pc.write && pc.n == pc.prev + 1 then Ahead(pc.n, 1) else Idle;
      SetCaller(w', t, Caller(next, x.held + multiset{pc.v}))
      .(core := Loaded(w.core, pc.v, data, pc.write || s.dirty, s.refs), last := if pc.write then w.last else pc.n)
    else
      SetCaller(w', t, x.(pc := Idle)).(core := LoadFailed(w.core, pc.v, data))
  }

  function TryAhead(w: World, t: nat, depth: nat): World
    requires t < |w.callers| && |w.core.chains| > 0 && w.callers[t].pc.Ahead?
  {
    var x := w.callers[t];
    var n, k := x.pc.n, x.pc.k;
    if k > depth then SetCaller(w, t, x.(pc := Idle))
    else if FindAny(w.core, n + k).Some? then SetCaller(w, t, x.(pc := Ahead(n, k + 1)))
    else match Victim(w.core)
         case None => SetCaller(w, t, x.(pc := Idle))
         case Some(v) =>
           SetCaller(w, t, x.(pc := AheadLoading(v, n, k)))
           .(core := Reserve(w.core, v, n + k), loading := w.loading + {v})
  }

  function FinishAhead(w: World, t: nat, ok: bool, data: Data): World
    requires t < |w.callers| && |w.core.chains| > 0
    requires w.callers[t].pc.AheadLoading? && w.callers[t].pc.v < |w.core.slots|
  {
    var x := w.callers[t];
    var pc := x.pc;
    SetCaller(w, t, x.(pc := Ahead(pc.n, pc.k + 1)))
    .(loading := w.loading - {pc.v},
      core := if ok then Loaded(w.core, pc.v, data, w.core.slots[pc.v].dirty, 0) else LoadFailed(w.core, pc.v, data))
  }

  /** With the lock, move on to the next slot of the list that is still valid and dirty, hold it, drop the lock. */
  function SyncFrom(w: World, t: nat, rest: seq<nat>): World
    requires t < |w.callers|
  {
    if rest == [] then SetCaller(w, t, w.callers[t].(pc := Idle))
    else if rest[0] < |w.core.slots| && w.core.slots[rest[0]].valid && w.core.slots[rest[0]].dirty then
      SetCaller(w, t, w.callers[t].(pc := Syncing(rest[0], rest[1..]))).(core := AddRefs(w.core, rest[0], 1))
    else SyncFrom(w, t, rest[1..])
  }

  /** Take the lock after the write: the slot is clean and let go. */
  function SyncDone(w: World, t: nat): World
    requires t < |w.callers| && w.callers[t].pc.Syncing? && w.callers[t].pc.v < |w.core.slots|
  {
    var pc := w.callers[t].pc;
    var c := AddRefs(w.core, pc.v, -1);
    SyncFrom(SetCaller(w, t, w.callers[t].(pc := Idle))
             .(core := SetSlot(c, pc.v, c.slots[pc.v].(dirty := false))), t, pc.rest)
  }

  function LetGo(w: World, t: nat, i: nat): World
    requires t < |w.callers| && i < |w.core.slots|
  {
    var x := w.callers[t];
    SetCaller(w, t, x.(held := x.held - multiset{i})).(core := AddRefs(w.core, i, -1))
  }

  /** Without the lock: change a held block's contents and mark it for write-back. */
  function Change(w: World, i: nat, data: Data, mark: bool): World
    requires i < |w.core.slots|
  {
    var s := w.core.slots[i];
    w.(core := SetSlot(w.core, i, s.(data := data, dirty := s.dirty || mark)))
  }

  datatype Act =
    | ActLookup(n: nat, write: bool)
    | ActFinish(ok: bool, data: Data)
    | ActTryAhead(depth: nat)
    | ActFinishAhead(ok: bool, data: Data)
    | ActSync
    | ActSyncDone
    | ActRelease(i: nat)
    | ActChange(i: nat, data: Data, mark: bool)

  /** Which actions caller `t` can take now; blocks are released and changed only by callers that hold them. */
  predicate Enabled(w: World, t: nat, a: Act) {
    && t < |w.callers| && |w.core.chains| > 0
    && var pc := w.callers[t].pc;
       match a
       case ActLookup(_, _) => pc.Idle?
       case ActFinish(_, _) => pc.Loading? && pc.v < |w.core.slots|
       case ActTryAhead(_) => pc.Ahead?
       case ActFinishAhead(_, _) => pc.AheadLoading? && pc.v < |w.core.slots|
       case ActSync => pc.Idle?
       case ActSyncDone => pc.Syncing? && pc.v < |w.core.slots|
       case ActRelease(i) => pc.Idle? && i in w.callers[t].held && i < |w.core.slots|
       case ActChange(i, _, _) => pc.Idle? && i in w.callers[t].held && i < |w.core.slots|
  }

  function Next(w: World, t: nat, a: Act): World
    requires Enabled(w, t, a)
  {
    match a
    case ActLookup(n, write) => Lookup(w, t, n, write)
    case ActFinish(ok, data) => Finish(w, t, ok, data)
    case ActTryAhead(depth) => TryAhead(w, t, depth)
    case ActFinishAhead(ok, data) => FinishAhead(w, t, ok, data)
    case ActSync => SyncFrom(w, t, SyncOrder(w.core.slots))
    case ActSyncDone => SyncDone(w, t)
    case ActRelease(i) => LetGo(w, t, i)
    case ActChange(i, data, mark) => Change(w, i, data, mark)
  }

  // -------------------------------------------------------------------- accounting

  predicate Loads(x: Caller, i: nat) {
    match x.pc
    case Loading(v, _, _, _) => v == i
    case AheadLoading(v, _, _) => v == i
    case _ => false
  }

  /** Times a caller counts in a slot's reference count. */
  function Uses(x: Caller, i: nat): nat {
    x.held[i] + (if Loads(x, i) || (x.pc.Syncing? && x.pc.v == i) then 1 else 0)
  }

  function Refs(callers: seq<Caller>, i: nat): nat {
    if callers == [] then 0 else Refs(callers[..|callers| - 1], i) + Uses(callers[|callers| - 1], i)
  }

  function Loaders(callers: seq<Caller>, i: nat): nat {
    if callers == [] then 0
    else Loaders(callers[..|callers| - 1], i) + (if Loads(callers[|callers| - 1], i) then 1 else 0)
  }

  lemma {:induction false} RefsAt(callers: seq<Caller>, t: nat, x: Caller, i: nat)
    requires t < |callers|
    ensures Uses(callers[t], i) <= Refs(callers, i)
    ensures Refs(callers[t := x], i) == Refs(callers, i) - Uses(callers[t], i) + Uses(x, i)
  {
    var e := |callers| - 1;
    var u := callers[t := x];
    if t == e {
      assert u[..e] == callers[..e];
    } else {
      RefsAt(callers[..e], t, x, i);
      assert u[..e] == callers[..e][t := x];
    }
  }

  lemma {:induction false} LoadersAt(callers: seq<Caller>, t: nat, x: Caller, i: nat)
    requires t < |callers|
    ensures (if Loads(callers[t], i) then 1 else 0) <= Loaders(callers, i)
    ensures Loaders(callers[t := x], i) ==
              Loaders(callers, i) - (if Loads(callers[t], i) then 1 else 0) + (if Loads(x, i) then 1 else 0)
  {
    var e := |callers| - 1;
    var u := callers[t := x];
    if t == e {
      assert u[..e] == callers[..e];
    } else {
      LoadersAt(callers[..e], t, x, i);
      assert u[..e] == callers[..e][t := x];
    }
  }

  /** Reference counts, validity and loaders of one slot agree with where the callers stand. */
  predicate SlotAccount(w: World, i: nat) {
    && (i < |w.core.slots| ==>
          var s := w.core.slots[i];
          && s.refs == Refs(w.callers, i)
          && Loaders(w.callers, i) == (if i in w.loading then 1 else 0)
          && (i in w.loading ==> s.refs == 1)
          && (s.refs > 0 ==> s.valid || i in w.loading))
    && (i >= |w.core.slots| ==> Refs(w.callers, i) == 0)
  }

  predicate CallerAccount(w: World, t: nat) {
    t < |w.callers| ==>
      match w.callers[t].pc
      case Loading(v, n, _, _) => v in w.loading && v < |w.core.slots| && w.core.slots[v].num == n
      case AheadLoading(v, n, k) => v in w.loading && v < |w.core.slots| && w.core.slots[v].num == n + k
      case _ => true
  }

  ghost predicate Safe(w: World) {
    && Struct(w.core, w.loading)
    && (forall i: nat :: SlotAccount(w, i))
    && (forall t: nat :: CallerAccount(w, t))
  }

  // ------------------------------------------------------------ every step is safe

  lemma AddRefsStruct(c: Core, loading: set<nat>, i: nat, d: int)
    requires Struct(c, loading) && i < |c.slots|
    ensures Struct(AddRefs(c, i, d), loading)
  {
    assert SlotOk(c, loading, i);
    SetSlotStruct(c, loading, i, AddRefs(c, i, d).slots[i]);
  }

  /** A slot in use is not the victim, and a victim is in nobody's hands. */
  lemma VictimFree(w: World, v: nat)
    requires Safe(w) && Victim(w.core) == Some(v)
    ensures v < |w.core.slots| && Refs(w.callers, v) == 0 && v !in w.loading
  {
    assert SlotAccount(w, v);
  }

  lemma HitSafe(w: World, t: nat, n: nat, write: bool)
    requires Safe(w) && t < |w.callers| && w.callers[t].pc.Idle?
    requires FindAny(w.core, n).Some? && w.core.slots[FindAny(w.core, n).value].valid
    ensures Safe(Lookup(w, t, n, write))
  {
    var w' := Lookup(w, t, n, write);
    var i := FindAny(w.core, n).value;
    AddRefsStruct(w.core, w.loading, i, 1);
    var c1 := Touch(AddRefs(w.core, i, 1), i);
    TouchStruct(AddRefs(w.core, i, 1), w.loading, i);
    SetSlotStruct(c1, w.loading, i, c1.slots[i].(dirty := true));
    assert SlotOk(w.core, w.loading, i);
    forall k: nat ensures SlotAccount(w', k) {
      assert SlotAccount(w, k);
      RefsAt(w.callers, t, w'.callers[t], k);
      LoadersAt(w.callers, t, w'.callers[t], k);
    }
    forall u: nat ensures CallerAccount(w', u) { assert CallerAccount(w, u); }
  }

  /** Reserving the victim for block `m`, with or without moving it to the front. */
  lemma ReserveSafe(w: World, t: nat, v: nat, m: nat, pc: Pc, touch: bool, w': World)
    requires Safe(w) && t < |w.callers| && FindAny(w.core, m).None? && Victim(w.core) == Some(v)
    requires !w.callers[t].pc.Syncing? && !w.callers[t].pc.Loading? && !w.callers[t].pc.AheadLoading?
    requires (pc.Loading? && pc.v == v && pc.n == m) || (pc.AheadLoading? && pc.v == v && pc.n + pc.k == m)
    requires v < |w.core.slots|
    requires var r := Reserve(w.core, v, m);
             w' == SetCaller(w, t, w.callers[t].(pc := pc))
                   .(core := if touch then Touch(r, v) else r, loading := w.loading + {v})
    ensures Safe(w')
  {
    VictimFree(w, v);
    ReserveStruct(w.core, w.loading, v, m);
    TouchStruct(Reserve(w.core, v, m), w.loading + {v}, v);
    forall k: nat ensures SlotAccount(w', k) {
      assert SlotAccount(w, k);
      RefsAt(w.callers, t, w'.callers[t], k);
      LoadersAt(w.callers, t, w'.callers[t], k);
    }
    forall u: nat ensures CallerAccount(w', u) { assert CallerAccount(w, u); }
  }

  lemma LookupSafe(w: World, t: nat, n: nat, write: bool)
    requires Safe(w) && t < |w.callers| && w.callers[t].pc.Idle?
    ensures Safe(Lookup(w, t, n, write))
  {
    var f := FindAny(w.core, n);
    if f.Some? && w.core.slots[f.value].valid {
      HitSafe(w, t, n, write);
    } else if f.None? && Victim(w.core).Some? {
      var v := Victim(w.core).value;
      ReserveSafe(w, t, v, n, Loading(v, n, write, w.last), true, Lookup(w, t, n, write));
    }
  }

  /** The slot a caller is loading is loaded by no one else and counted once, for that caller. */
  lemma SoleLoader(w: World, t: nat, v: nat)
    requires Safe(w) && t < |w.callers| && Loads(w.callers[t], v)
    ensures v in w.loading && v < |w.core.slots|
    ensures Refs(w.callers, v) == 1 && Loaders(w.callers, v) == 1 && w.callers[t].held[v] == 0
    ensures forall u: nat :: u < |w.callers| && u != t ==> !Loads(w.callers[u], v)
  {
    assert CallerAccount(w, t) && SlotAccount(w, v);
    RefsAt(w.callers, t, w.callers[t], v);
    var x := w.callers[t].(pc := Idle);
    LoadersAt(w.callers, t, x, v);
    forall u: nat | u < |w.callers| && u != t ensures !Loads(w.callers[u], v) {
      LoadersAt(w.callers[t := x], u, x, v);
    }
  }

  lemma FinishSafe(w: World, t: nat, ok: bool, data: Data)
    requires Safe(w) && Enabled(w, t, ActFinish(ok, data))
    ensures Safe(Finish(w, t, ok, data))
  {
    var w', v := Finish(w, t, ok, data), w.callers[t].pc.v;
    SoleLoader(w, t, v);
    var s := w.core.slots[v];
    LoadedStruct(w.core, w.loading, v, data, w.callers[t].pc.write || s.dirty, s.refs);
    LoadFailedStruct(w.core, w.loading, v, data);
    forall k: nat ensures SlotAccount(w', k) {
      assert SlotAccount(w, k);
      RefsAt(w.callers, t, w'.callers[t], k);
      LoadersAt(w.callers, t, w'.callers[t], k);
    }
    forall u: nat ensures CallerAccount(w', u) { assert CallerAccount(w, u); }
  }

  lemma FinishAheadSafe(w: World, t: nat, ok: bool, data: Data)
    requires Safe(w) && Enabled(w, t, ActFinishAhead(ok, data))
    ensures Safe(FinishAhead(w, t, ok, data))
  {
    var w', v := FinishAhead(w, t, ok, data), w.callers[t].pc.v;
    SoleLoader(w, t, v);
    LoadedStruct(w.core, w.loading, v, data, w.core.slots[v].dirty, 0);
    LoadFailedStruct(w.core, w.loading, v, data);
    forall k: nat ensures SlotAccount(w', k) {
      assert SlotAccount(w, k);
      RefsAt(w.callers, t, w'.callers[t], k);
      LoadersAt(w.callers, t, w'.callers[t], k);
    }
    forall u: nat ensures CallerAccount(w', u) { assert CallerAccount(w, u); }
  }

  /** Moving a caller between places that use no slot. */
  lemma MoveSafe(w: World, t: nat, pc: Pc)
    requires Safe(w) && t < |w.callers|
    requires (w.callers[t].pc.Idle? || w.callers[t].pc.Ahead?) && (pc.Idle? || pc.Ahead?)
    ensures Safe(SetCaller(w, t, w.callers[t].(pc := pc)))
  {
    var w' := SetCaller(w, t, w.callers[t].(pc := pc));
    forall k: nat ensures SlotAccount(w', k) {
      assert SlotAccount(w, k);
      RefsAt(w.callers, t, w'.callers[t], k);
      LoadersAt(w.callers, t, w'.callers[t], k);
    }
    forall u: nat ensures CallerAccount(w', u) { assert CallerAccount(w, u); }
  }

  lemma TryAheadSafe(w: World, t: nat, depth: nat)
    requires Safe(w) && Enabled(w, t, ActTryAhead(depth))
    ensures Safe(TryAhead(w, t, depth))
  {
    var n, k := w.callers[t].pc.n, w.callers[t].pc.k;
    MoveSafe(w, t, Idle);
    MoveSafe(w, t, Ahead(n, k + 1));
    if k <= depth && FindAny(w.core, n + k).None? && Victim(w.core).Some? {
      var v := Victim(w.core).value;
      ReserveSafe(w, t, v, n + k, AheadLoading(v, n, k), false, TryAhead(w, t, depth));
    }
  }

  lemma {:induction false} SyncFromSafe(w: World, t: nat, rest: seq<nat>)
    requires Safe(w) && t < |w.callers| && w.callers[t].pc.Idle?
    ensures Safe(SyncFrom(w, t, rest))
  {
    if rest == [] {
      MoveSafe(w, t, Idle);
    } else if rest[0] < |w.core.slots| && w.core.slots[rest[0]].valid && w.core.slots[rest[0]].dirty {
      StartWriteSafe(w, t, rest[0], rest[1..]);
    } else {
      SyncFromSafe(w, t, rest[1..]);
    }
  }

  lemma StartWriteSafe(w: World, t: nat, i: nat, rest: seq<nat>)
    requires Safe(w) && t < |w.callers| && w.callers[t].pc.Idle?
    requires i < |w.core.slots| && w.core.slots[i].valid
    ensures Safe(SetCaller(w, t, w.callers[t].(pc := Syncing(i, rest))).(core := AddRefs(w.core, i, 1)))
  {
    var w' := SetCaller(w, t, w.callers[t].(pc := Syncing(i, rest))).(core := AddRefs(w.core, i, 1));
    AddRefsStruct(w.core, w.loading, i, 1);
    assert SlotOk(w.core, w.loading, i);
    forall k: nat ensures SlotAccount(w', k) {
      assert SlotAccount(w, k);
      RefsAt(w.callers, t, w'.callers[t], k);
      LoadersAt(w.callers, t, w'.callers[t], k);
    }
    forall u: nat ensures CallerAccount(w', u) { assert CallerAccount(w, u); }
  }

  lemma SyncDoneSafe(w: World, t: nat)
    requires Safe(w) && Enabled(w, t, ActSyncDone)
    ensures Safe(SyncDone(w, t))
  {
    var v := w.callers[t].pc.v;
    var c := AddRefs(w.core, v, -1);
    var x := w.callers[t].(pc := Idle);
    var w' := SetCaller(w, t, x).(core := SetSlot(c, v, c.slots[v].(dirty := false)));
    AddRefsStruct(w.core, w.loading, v, -1);
    SetSlotStruct(c, w.loading, v, c.slots[v].(dirty := false));
    UsedNotLoading(w, t, v);
    forall k: nat ensures SlotAccount(w', k) {
      assert SlotAccount(w, k);
      RefsAt(w.callers, t, x, k);
      LoadersAt(w.callers, t, x, k);
    }
    forall u: nat ensures CallerAccount(w', u) { assert CallerAccount(w, u); }
    SyncFromSafe(w', t, w.callers[t].pc.rest);
  }

  /** A slot held by a caller, or being written by one, is valid and not being loaded. */
  lemma UsedNotLoading(w: World, t: nat, i: nat)
    requires Safe(w) && t < |w.callers|
    requires w.callers[t].held[i] > 0 || (w.callers[t].pc.Syncing? && w.callers[t].pc.v == i)
    ensures i < |w.core.slots| && i !in w.loading && w.core.slots[i].valid && w.core.slots[i].refs > 0
  {
    assert SlotAccount(w, i);
    RefsAt(w.callers, t, w.callers[t], i);
    if i in w.loading {
      OneLoaderExists(w.callers, i);
      var u: nat :| u < |w.callers| && Loads(w.callers[u], i);
      SoleLoader(w, u, i);
      if u != t {
        var idle := Caller(Idle, multiset{});
        RefsAt(w.callers, u, idle, i);
        RefsAt(w.callers[u := idle], t, idle, i);
      }
    }
  }

  lemma {:induction false} OneLoaderExists(callers: seq<Caller>, i: nat)
    requires Loaders(callers, i) > 0
    ensures exists u: nat :: u < |callers| && Loads(callers[u], i)
  {
    var e := |callers| - 1;
    if !Loads(callers[e], i) {
      OneLoaderExists(callers[..e], i);
      var u: nat :| u < e && Loads(callers[..e][u], i);
      assert Loads(callers[u], i);
    }
  }

  lemma LetGoSafe(w: World, t: nat, i: nat)
    requires Safe(w) && Enabled(w, t, ActRelease(i))
    ensures Safe(LetGo(w, t, i))
  {
    var w' := LetGo(w, t, i);
    AddRefsStruct(w.core, w.loading, i, -1);
    UsedNotLoading(w, t, i);
    forall k: nat ensures SlotAccount(w', k) {
      assert SlotAccount(w, k);
      RefsAt(w.callers, t, w'.callers[t], k);
      LoadersAt(w.callers, t, w'.callers[t], k);
    }
    forall u: nat ensures CallerAccount(w', u) { assert CallerAccount(w, u); }
  }

  lemma ChangeSafe(w: World, t: nat, i: nat, data: Data, mark: bool)
    requires Safe(w) && Enabled(w, t, ActChange(i, data, mark))
    ensures Safe(Change(w, i, data, mark))
  {
    var w' := Change(w, i, data, mark);
    UsedNotLoading(w, t, i);
    SetSlotStruct(w.core, w.loading, i, w'.core.slots[i]);
    forall k: nat ensures SlotAccount(w', k) { assert SlotAccount(w, k); }
    forall u: nat ensures CallerAccount(w', u) { assert CallerAccount(w, u); }
  }

  /** Every step any caller can take keeps the structure and the accounts. */
  lemma NextSafe(w: World, t: nat, a: Act)
    requires Safe(w) && Enabled(w, t, a)
    ensures Safe(Next(w, t, a))
  {
    match a
    case ActLookup(n, write) => LookupSafe(w, t, n, write);
    case ActFinish(ok, data) => FinishSafe(w, t, ok, data);
    case ActTryAhead(depth) => TryAheadSafe(w, t, depth);
    case ActFinishAhead(ok, data) => FinishAheadSafe(w, t, ok, data);
    case ActSync => SyncFromSafe(w, t, SyncOrder(w.core.slots));
    case ActSyncDone => SyncDoneSafe(w, t);
    case ActRelease(i) => LetGoSafe(w, t, i);
    case ActChange(i, data, mark) => ChangeSafe(w, t, i, data, mark);
  }

  // -------------------------------------------------------------------------- runs

  /** Nobody in the cache and nothing held. */
  ghost predicate Start(w: World) {
    && Struct(w.core, {}) && w.loading == {}
    && (forall i: nat :: i < |w.core.slots| ==> w.core.slots[i].refs == 0)
    && forall t: nat :: t < |w.callers| ==> w.callers[t] == Caller(Idle, multiset{})
  }

  lemma {:induction false} NoUses(callers: seq<Caller>, i: nat)
    requires forall t: nat :: t < |callers| ==> callers[t] == Caller(Idle, multiset{})
    ensures Refs(callers, i) == 0 && Loaders(callers, i) == 0
  {
    if callers != [] { NoUses(callers[..|callers| - 1], i); }
  }

  lemma StartSafe(w: World)
    requires Start(w)
    ensures Safe(w)
  {
    forall i: nat ensures SlotAccount(w, i) { NoUses(w.callers, i); }
  }

  datatype Turn = Turn(t: nat, act: Act)

  ghost predicate StepAt(path: seq<World>, turns: seq<Turn>, k: nat)
    requires k < |turns| && |path| == |turns| + 1
  {
    Enabled(path[k], turns[k].t, turns[k].act) && path[k + 1] == Next(path[k], turns[k].t, turns[k].act)
  }

  ghost predicate IsRun(path: seq<World>, turns: seq<Turn>) {
    |path| == |turns| + 1 && Start(path[0]) && forall k: nat :: k < |turns| ==> StepAt(path, turns, k)
  }

  lemma {:induction false} RunSafe(path: seq<World>, turns: seq<Turn>, k: nat)
    requires IsRun(path, turns) && k <= |turns|
    ensures Safe(path[k])
  {
    if k == 0 {
      StartSafe(path[0]);
    } else {
      RunSafe(path, turns, k - 1);
      assert StepAt(path, turns, k - 1);
      NextSafe(path[k - 1], turns[k - 1].t, turns[k - 1].act);
    }
  }

  /** In every state of every interleaving: no two slots are linked under one block number; a slot linked
      but not yet valid has exactly one loader and reference count 1; every slot's reference count is the
      number of times it is held, loaded or written. */
  lemma InterleavedStructure(path: seq<World>, turns: seq<Turn>, k: nat)
    requires IsRun(path, turns) && k <= |turns|
    ensures var w := path[k];
            && |w.core.chains| > 0
            && (forall i: nat, j: nat :: Linked(w.core, i) && Linked(w.core, j) && i != j ==>
                  w.core.slots[i].num != w.core.slots[j].num)
            && (forall i: nat :: Linked(w.core, i) && !w.core.slots[i].valid ==>
                  && w.core.slots[i].refs == 1
                  && exists t: nat :: t < |w.callers| && Loads(w.callers[t], i)
                       && forall u: nat :: u < |w.callers| && u != t ==> !Loads(w.callers[u], i))
            && (forall i: nat :: i < |w.core.slots| ==> w.core.slots[i].refs == Refs(w.callers, i))
            && Permutation(w.core.lru, |w.core.slots|)
  {
    RunSafe(path, turns, k);
    var w := path[k];
    forall i: nat, j: nat | Linked(w.core, i) && Linked(w.core, j) && i != j
      ensures w.core.slots[i].num != w.core.slots[j].num
    {
      assert Apart(w.core, i, j);
    }
    forall i: nat | i < |w.core.slots| ensures w.core.slots[i].refs == Refs(w.callers, i) {
      assert SlotAccount(w, i);
    }
    forall i: nat | Linked(w.core, i) && !w.core.slots[i].valid
      ensures w.core.slots[i].refs == 1
      ensures exists t: nat :: t < |w.callers| && Loads(w.callers[t], i)
                && forall u: nat :: u < |w.callers| && u != t ==> !Loads(w.callers[u], i)
    {
      assert SlotOk(w.core, w.loading, i) && SlotAccount(w, i);
      OneLoaderExists(w.callers, i);
      var t: nat :| t < |w.callers| && Loads(w.callers[t], i);
      SoleLoader(w, t, i);
    }
  }

  lemma {:induction false} SyncFromSlots(w: World, t: nat, rest: seq<nat>, i: nat)
    requires t < |w.callers| && i < |w.core.slots|
    ensures var w' := SyncFrom(w, t, rest);
            && |w'.core.slots| == |w.core.slots|
            && w'.core.slots[i].num == w.core.slots[i].num && w'.core.slots[i].valid == w.core.slots[i].valid
            && w'.core.slots[i].dirty == w.core.slots[i].dirty
  {
    if rest != [] && !(rest[0] < |w.core.slots| && w.core.slots[rest[0]].valid && w.core.slots[rest[0]].dirty) {
      SyncFromSlots(w, t, rest[1..], i);
    }
  }

  /** A slot in use is neither taken as a victim nor touched by another's load. */
  lemma LookupSlots(w: World, t: nat, n: nat, write: bool, i: nat)
    requires Enabled(w, t, ActLookup(n, write)) && i < |w.core.slots| && w.core.slots[i].valid && w.core.slots[i].refs > 0
    ensures var s, slots := w.core.slots[i], Lookup(w, t, n, write).core.slots;
            |slots| == |w.core.slots| && slots[i].num == s.num && slots[i].valid && (s.dirty ==> slots[i].dirty)
  {
  }

  lemma TryAheadSlots(w: World, t: nat, depth: nat, i: nat)
    requires Enabled(w, t, ActTryAhead(depth)) && i < |w.core.slots| && w.core.slots[i].valid && w.core.slots[i].refs > 0
    ensures |TryAhead(w, t, depth).core.slots| == |w.core.slots| && TryAhead(w, t, depth).core.slots[i] == w.core.slots[i]
  {
  }

  lemma FinishSlots(w: World, t: nat, a: Act, i: nat)
    requires Safe(w) && Enabled(w, t, a) && (a.ActFinish? || a.ActFinishAhead?) && i < |w.core.slots| && i !in w.loading
    ensures |Next(w, t, a).core.slots| == |w.core.slots| && Next(w, t, a).core.slots[i] == w.core.slots[i]
  {
    SoleLoader(w, t, w.callers[t].pc.v);
  }

  lemma SyncDoneSlots(w: World, t: nat, i: nat)
    requires Enabled(w, t, ActSyncDone) && i < |w.core.slots|
    ensures var s, slots := w.core.slots[i], SyncDone(w, t).core.slots;
            && |slots| == |w.core.slots| && slots[i].num == s.num && slots[i].valid == s.valid
            && slots[i].dirty == (s.dirty && w.callers[t].pc.v != i)
  {
    var v := w.callers[t].pc.v;
    var c := AddRefs(w.core, v, -1);
    var w1 := SetCaller(w, t, w.callers[t].(pc := Idle)).(core := SetSlot(c, v, c.slots[v].(dirty := false)));
    SyncFromSlots(w1, t, w.callers[t].pc.rest, i);
  }

  /** A `sync` that was writing slot `i` comes back and takes its mark off. */
  predicate Unmarks(w: World, t: nat, a: Act, i: nat) {
    a.ActSyncDone? && t < |w.callers| && w.callers[t].pc.Syncing? && w.callers[t].pc.v == i
  }

  /** Whatever step anyone takes, a block held by caller `u` stays in its slot, valid; and if it is marked for
      write-back it stays so exactly when no `sync` that was writing it comes back. */
  lemma HeldStep(w: World, t: nat, a: Act, u: nat, i: nat)
    requires Safe(w) && Enabled(w, t, a) && u < |w.callers| && w.callers[u].held[i] > 0
    ensures i < |w.core.slots| && i < |Next(w, t, a).core.slots|
    ensures Next(w, t, a).core.slots[i].num == w.core.slots[i].num && Next(w, t, a).core.slots[i].valid
    ensures w.core.slots[i].dirty ==> (Next(w, t, a).core.slots[i].dirty <==> !Unmarks(w, t, a, i))
  {
    hide Safe, SyncFrom, SyncDone, Lookup, Finish, TryAhead, FinishAhead;
    UsedNotLoading(w, u, i);
    match a
    case ActLookup(n, write) => LookupSlots(w, t, n, write, i);
    case ActFinish(ok, data) => FinishSlots(w, t, a, i);
    case ActTryAhead(depth) => TryAheadSlots(w, t, depth, i);
    case ActFinishAhead(ok, data) => FinishSlots(w, t, a, i);
    case ActSync => SyncFromSlots(w, t, SyncOrder(w.core.slots), i);
    case ActSyncDone => SyncDoneSlots(w, t, i);
    case ActRelease(j) =>
    case ActChange(j, data, mark) =>
  }

  /** A block obtained and not given back keeps its slot and number through any interleaving. */
  lemma {:induction false} HeldKeepsBlock(path: seq<World>, turns: seq<Turn>, j: nat, k: nat, u: nat, i: nat)
    requires IsRun(path, turns) && j <= k <= |turns|
    requires forall m: nat :: j <= m < k ==> u < |path[m].callers| && path[m].callers[u].held[i] > 0
    requires i < |path[j].core.slots| && path[j].core.slots[i].valid
    ensures i < |path[k].core.slots|
    ensures path[k].core.slots[i].num == path[j].core.slots[i].num && path[k].core.slots[i].valid
  {
    if j < k {
      HeldKeepsBlock(path, turns, j, k - 1, u, i);
      RunSafe(path, turns, k - 1);
      assert StepAt(path, turns, k - 1);
      HeldStep(path[k - 1], turns[k - 1].t, turns[k - 1].act, u, i);
    }
  }

  /** A mark that a client set on a block it still holds is there until a `sync` that wrote the block takes it off. */
  lemma {:induction false} MarkKept(path: seq<World>, turns: seq<Turn>, j: nat, k: nat, u: nat, i: nat)
    requires IsRun(path, turns) && j <= k <= |turns|
    requires forall m: nat :: j <= m < k ==> u < |path[m].callers| && path[m].callers[u].held[i] > 0
    requires forall m: nat :: j <= m < k ==> !Unmarks(path[m], turns[m].t, turns[m].act, i)
    requires i < |path[j].core.slots| && path[j].core.slots[i].dirty
    ensures i < |path[k].core.slots| && path[k].core.slots[i].dirty
  {
    if j < k {
      MarkKept(path, turns, j, k - 1, u, i);
      RunSafe(path, turns, k - 1);
      assert StepAt(path, turns, k - 1);
      HeldStep(path[k - 1], turns[k - 1].t, turns[k - 1].act, u, i);
    }
  }

  // ------------------------------------------------------------------------ a lost mark

  /** A cache of one slot, and two callers who have done nothing. */
  function Small(): World {
    World(Init(1, 1, [[]], map[]).core, [Caller(Idle, multiset{}), Caller(Idle, multiset{})], 0, {})
  }

  lemma SmallStarts()
    ensures Start(Small()) && FindAny(Small().core, 5).None? && Victim(Small().core) == Some(0)
  {
    InitInv(1, 1, [[]], map[]);
  }

  /** Caller 0 asks for block 5, to write to it, and gets it. */
  lemma SmallAsked() returns (w: World)
    ensures Enabled(Small(), 0, ActLookup(5, true)) && w == Next(Small(), 0, ActLookup(5, true))
    ensures |w.core.chains| > 0 && w.core.slots == [Slot(5, [], false, false, false, 1)]
    ensures w.callers == [Caller(Loading(0, 5, true, 0), multiset{}), Caller(Idle, multiset{})]
  {
    SmallStarts();
    w := Lookup(Small(), 0, 5, true);
  }

  lemma SmallGot(w: World, data: Data) returns (w': World)
    requires |w.core.chains| > 0 && w.core.slots == [Slot(5, [], false, false, false, 1)]
    requires w.callers == [Caller(Loading(0, 5, true, 0), multiset{}), Caller(Idle, multiset{})]
    ensures Enabled(w, 0, ActFinish(true, data)) && w' == Next(w, 0, ActFinish(true, data))
    ensures |w'.core.chains| > 0 && w'.core.slots == [Slot(5, data, true, true, false, 1)]
    ensures w'.callers == [Caller(Idle, multiset{0}), Caller(Idle, multiset{})]
  {
    w' := Finish(w, 0, true, data);
    assert multiset{} + multiset{0} == multiset{0};
  }

  /** Caller 1 flushes; before its write is over, caller 0 changes the block and marks it. */
  lemma SmallSynced(w: World, before: Data, data: Data) returns (w1: World, w2: World, w3: World)
    requires |w.core.chains| > 0 && w.core.slots == [Slot(5, before, true, true, false, 1)]
    requires w.callers == [Caller(Idle, multiset{0}), Caller(Idle, multiset{})]
    ensures Enabled(w, 1, ActSync) && w1 == Next(w, 1, ActSync)
    ensures Enabled(w1, 0, ActChange(0, data, true)) && w2 == Next(w1, 0, ActChange(0, data, true))
    ensures Enabled(w2, 1, ActSyncDone) && w3 == Next(w2, 1, ActSyncDone)
    ensures w1.callers == [Caller(Idle, multiset{0}), Caller(Syncing(0, []), multiset{})]
    ensures w1.core.slots == [Slot(5, before, true, true, false, 2)]
    ensures w3.core.slots == [Slot(5, data, true, false, false, 1)] && |w3.callers| == 2 && 0 in w3.callers[0].held
  {
    hide SyncOrder;
    OneDirty(w.core.slots[0]);
    w1 := SyncFrom(w, 1, SyncOrder(w.core.slots));
    assert SyncOrder(w.core.slots)[1..] == [];
    assert w1.callers == [Caller(Idle, multiset{0}), Caller(Syncing(0, []), multiset{})];
    w2 := Change(w1, 0, data, true);
    w3 := SmallDone(w2, data);
  }

  lemma SmallDone(w: World, data: Data) returns (w': World)
    requires |w.core.chains| > 0 && w.core.slots == [Slot(5, data, true, true, false, 2)]
    requires w.callers == [Caller(Idle, multiset{0}), Caller(Syncing(0, []), multiset{})]
    ensures Enabled(w, 1, ActSyncDone) && w' == Next(w, 1, ActSyncDone)
    ensures w'.core.slots == [Slot(5, data, true, false, false, 1)] && |w'.callers| == 2 && 0 in w'.callers[0].held
  {
    w' := SyncDone(w, 1);
  }

  lemma OneDirty(s: Slot)
    requires s.valid && s.dirty
    ensures SyncOrder([s]) == [0]
  {
    assert DirtyBelow([s], 1) == [0];
    assert SortByNum([s], [0]) == [0] by { assert [0][..0] == []; }
  }

  /** A run in which a client marks a block it holds while another caller's `sync` is writing it: the mark is gone
      afterwards, although the contents were changed after the write began. */
  lemma MarkLost(before: Data, data: Data) returns (path: seq<World>, turns: seq<Turn>)
    ensures IsRun(path, turns) && |turns| == 5
    ensures turns[2..] == [Turn(1, ActSync), Turn(0, ActChange(0, data, true)), Turn(1, ActSyncDone)]
    ensures path[3].callers == [Caller(Idle, multiset{0}), Caller(Syncing(0, []), multiset{})]
    ensures path[3].core.slots == [Slot(5, before, true, true, false, 2)]
    ensures path[5].core.slots == [Slot(5, data, true, false, false, 1)]
    ensures |path[5].callers| == 2 && 0 in path[5].callers[0].held
  {
    hide Enabled, Small, Start, Lookup, Finish, SyncFrom, SyncDone, Change, Next, FindAny, Victim;
    SmallStarts();
    var w1 := SmallAsked();
    var w2 := SmallGot(w1, before);
    var w3, w4, w5 := SmallSynced(w2, before, data);
    path := [Small(), w1, w2, w3, w4, w5];
    turns := [Turn(0, ActLookup(5, true)), Turn(0, ActFinish(true, before)), Turn(1, ActSync),
              Turn(0, ActChange(0, data, true)), Turn(1, ActSyncDone)];
    forall k: nat | k < |turns| ensures StepAt(path, turns, k) { }
  }
}

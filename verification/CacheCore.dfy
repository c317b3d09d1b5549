/** The block cache's bookkeeping (kernel/fs/cache.cpp, kernel/lib/lru_list.hpp) as a value: a fixed pool of
    slots, hash chains of slot numbers, and the list of slots from most to least recently touched. */
module CacheCore {
  import opened Sequences

  /** A block's contents. */
  type Data = seq<int>

  datatype Slot = Slot(num: nat, data: Data, valid: bool, dirty: bool, pinned: bool, refs: nat)

  datatype Option = None | Some(value: nat)

  /** `touched` records every move to the front of the list, oldest first. */
  datatype Core = Core(slots: seq<Slot>, chains: seq<seq<nat>>, lru: seq<nat>, touched: seq<nat>)

  // -------------------------------------------------------------------- operations

  function Bucket(c: Core, n: nat): nat
    requires |c.chains| > 0
  {
    n % |c.chains|
  }

  /** The first slot of a chain with block number `n`, valid or being loaded. */
  function FindIn(slots: seq<Slot>, chain: seq<nat>, n: nat): (r: Option)
    ensures r.Some? ==> r.value in chain && r.value < |slots| && slots[r.value].num == n
    ensures r.None? ==> forall i :: i in chain && i < |slots| ==> slots[i].num != n
  {
    if chain == [] then None
    else if chain[0] < |slots| && slots[chain[0]].num == n then Some(chain[0])
    else FindIn(slots, chain[1..], n)
  }

  function FindAny(c: Core, n: nat): Option
    requires |c.chains| > 0
  {
    FindIn(c.slots, c.chains[Bucket(c, n)], n)
  }

  /** As `FindIn`, but passing over slots that hold no data yet. */
  function FindValidIn(slots: seq<Slot>, chain: seq<nat>, n: nat): (r: Option)
    ensures r.Some? ==> r.value in chain && r.value < |slots| && slots[r.value].num == n && slots[r.value].valid
    ensures r.None? ==> forall i :: i in chain && i < |slots| ==> slots[i].num != n || !slots[i].valid
  {
    if chain == [] then None
    else if chain[0] < |slots| && slots[chain[0]].valid && slots[chain[0]].num == n then Some(chain[0])
    else FindValidIn(slots, chain[1..], n)
  }

  function Find(c: Core, n: nat): Option
    requires |c.chains| > 0
  {
    FindValidIn(c.slots, c.chains[Bucket(c, n)], n)
  }

  function Link(c: Core, i: nat): Core
    requires |c.chains| > 0 && i < |c.slots|
  {
    var h := Bucket(c, c.slots[i].num);
    c.(chains := c.chains[h := [i] + c.chains[h]])
  }

  function RemoveFirst(s: seq<nat>, x: nat): seq<nat> {
    if s == [] then [] else if s[0] == x then s[1..] else [s[0]] + RemoveFirst(s[1..], x)
  }

  function Unlink(c: Core, i: nat): Core
    requires |c.chains| > 0 && i < |c.slots|
  {
    var h := Bucket(c, c.slots[i].num);
    c.(chains := c.chains[h := RemoveFirst(c.chains[h], i)])
  }

  function Touch(c: Core, i: nat): Core {
    c.(lru := [i] + RemoveFirst(c.lru, i), touched := c.touched + [i])
  }

  predicate Evictable(s: Slot) {
    s.refs == 0 && !s.pinned
  }

  /** From the tail of the list: the first slot nobody holds or has pinned. */
  function VictimIn(slots: seq<Slot>, lru: seq<nat>): (r: Option)
    ensures r.Some? ==> r.value in lru && r.value < |slots| && Evictable(slots[r.value])
    ensures r.None? ==> forall i :: i in lru && i < |slots| ==> !Evictable(slots[i])
  {
    if lru == [] then None else
    var last := lru[|lru| - 1];
    if last < |slots| && Evictable(slots[last]) then Some(last) else VictimIn(slots, lru[..|lru| - 1])
  }

  function Victim(c: Core): Option {
    VictimIn(c.slots, c.lru)
  }

  /** Take slot `v` away from its block and reserve it, invalid and held once, for block `n`. */
  function Reserve(c: Core, v: nat, n: nat): Core
    requires |c.chains| > 0 && v < |c.slots|
  {
    var c1 := if c.slots[v].valid then Unlink(c, v) else c;
    Link(c1.(slots := c1.slots[v := c.slots[v].(num := n, valid := false, dirty := false, refs := 1)]), v)
  }

  /** The load of a reserved slot succeeded with `data`, or failed and the slot is given back. */
  function Loaded(c: Core, v: nat, data: Data, dirty: bool, refs: nat): Core
    requires v < |c.slots|
  {
    c.(slots := c.slots[v := c.slots[v].(data := data, valid := true, dirty := dirty, refs := refs)])
  }

  function LoadFailed(c: Core, v: nat, junk: Data): Core
    requires |c.chains| > 0 && v < |c.slots|
  {
    var c1 := Unlink(c, v);
    c1.(slots := c1.slots[v := c.slots[v].(num := 0, data := junk, refs := 0)])
  }

  function SetSlot(c: Core, i: nat, s: Slot): Core
    requires i < |c.slots|
  {
    c.(slots := c.slots[i := s])
  }

  // --------------------------------------------------------------------- structure

  predicate Linked(c: Core, i: nat)
    requires |c.chains| > 0
  {
    i < |c.slots| && i in c.chains[Bucket(c, c.slots[i].num)]
  }

  predicate ChainOk(c: Core, h: nat) {
    h < |c.chains| ==>
      && NoDup(c.chains[h])
      && forall i :: i in c.chains[h] ==> i < |c.slots| && Bucket(c, c.slots[i].num) == h
  }

  predicate SlotOk(c: Core, loading: set<nat>, i: nat)
    requires |c.chains| > 0
  {
    i < |c.slots| ==>
      && (Linked(c, i) <==> c.slots[i].valid || i in loading)
      && (i in loading ==> !c.slots[i].valid && !c.slots[i].dirty)
      && (c.slots[i].dirty ==> c.slots[i].valid)
  }

  predicate Apart(c: Core, i: nat, j: nat)
    requires |c.chains| > 0
  {
    Linked(c, i) && Linked(c, j) && i != j ==> c.slots[i].num != c.slots[j].num
  }

  predicate Permutation(l: seq<nat>, n: nat) {
    |l| == n && NoDup(l) && forall i :: i in l ==> i < n
  }

  /** Chains hold exactly the valid slots and those being loaded, each under its own block number;
      no two linked slots have the same number; the list orders all slots. */
  ghost predicate Struct(c: Core, loading: set<nat>) {
    && |c.chains| > 0
    && (forall h: nat :: ChainOk(c, h))
    && (forall i: nat :: SlotOk(c, loading, i))
    && (forall i: nat, j: nat :: Apart(c, i, j))
    && Permutation(c.lru, |c.slots|)
    && (forall i :: i in loading ==> i < |c.slots|)
  }

  // ------------------------------------------------------------------- what is kept

  /** Removing is cutting out the one place where the element stands. */
  lemma {:induction false} RemoveFirstCuts(s: seq<nat>, k: nat)
    requires NoDup(s) && k < |s|
    ensures RemoveFirst(s, s[k]) == s[..k] + s[k + 1..]
  {
    if k > 0 {
      RemoveFirstCuts(s[1..], k - 1);
      assert s[..k] == [s[0]] + s[1..][..k - 1];
    }
  }

  lemma {:induction false} RemoveFirstAbsent(s: seq<nat>, x: nat)
    requires x !in s
    ensures RemoveFirst(s, x) == s
  {
    if s != [] { RemoveFirstAbsent(s[1..], x); }
  }

  lemma RemoveFirstFacts(s: seq<nat>, x: nat)
    requires NoDup(s)
    ensures NoDup(RemoveFirst(s, x)) && x !in RemoveFirst(s, x)
    ensures forall y :: y != x ==> (y in RemoveFirst(s, x) <==> y in s)
    ensures |RemoveFirst(s, x)| == if x in s then |s| - 1 else |s|
  {
    if x !in s {
      RemoveFirstAbsent(s, x);
    } else {
      var k :| 0 <= k < |s| && s[k] == x;
      RemoveFirstCuts(s, k);
      var r := s[..k] + s[k + 1..];
      forall y | y != x && y in s ensures y in r {
        var j :| 0 <= j < |s| && s[j] == y;
        assert r[if j < k then j else j - 1] == y;
      }
    }
  }

  /** Lookup finds the one linked slot with the number, if there is one. */
  lemma FindAnyIsLinked(c: Core, loading: set<nat>, n: nat)
    requires Struct(c, loading)
    ensures FindAny(c, n).None? <==> forall i: nat :: Linked(c, i) ==> c.slots[i].num != n
    ensures FindAny(c, n).Some? ==> Linked(c, FindAny(c, n).value) && c.slots[FindAny(c, n).value].num == n
    ensures forall i: nat :: Linked(c, i) && c.slots[i].num == n ==> FindAny(c, n) == Some(i)
  {
    var h := Bucket(c, n);
    assert ChainOk(c, h);
    forall i: nat | Linked(c, i) && c.slots[i].num == n ensures FindAny(c, n) == Some(i) {
      assert i in c.chains[h];
      assert FindAny(c, n).Some?;
      assert Apart(c, i, FindAny(c, n).value);
    }
  }

  /** Among valid slots lookup is exact, whatever is being loaded. */
  lemma FindIsValid(c: Core, loading: set<nat>, n: nat)
    requires Struct(c, loading)
    ensures Find(c, n).None? <==> forall i: nat :: i < |c.slots| && c.slots[i].valid ==> c.slots[i].num != n
    ensures forall i: nat :: i < |c.slots| && c.slots[i].valid && c.slots[i].num == n ==> Find(c, n) == Some(i)
  {
    var h := Bucket(c, n);
    assert ChainOk(c, h);
    forall i: nat | i < |c.slots| && c.slots[i].valid && c.slots[i].num == n ensures Find(c, n) == Some(i) {
      assert SlotOk(c, loading, i);
      assert Find(c, n).Some?;
      assert Apart(c, i, Find(c, n).value);
    }
  }

  /** Changing a slot without its number or link state keeps the structure. */
  lemma SetSlotStruct(c: Core, loading: set<nat>, i: nat, s: Slot)
    requires Struct(c, loading) && i < |c.slots| && s.num == c.slots[i].num && s.valid == c.slots[i].valid
    requires s.dirty ==> s.valid
    ensures Struct(SetSlot(c, i, s), loading)
  {
    var c' := SetSlot(c, i, s);
    forall h: nat ensures ChainOk(c', h) { assert ChainOk(c, h); }
    forall k: nat ensures SlotOk(c', loading, k) { assert SlotOk(c, loading, k); }
    forall k: nat, j: nat ensures Apart(c', k, j) { assert Apart(c, k, j); }
  }

  lemma TouchStruct(c: Core, loading: set<nat>, i: nat)
    requires Struct(c, loading) && i < |c.slots|
    ensures Struct(Touch(c, i), loading)
  {
    var c' := Touch(c, i);
    InPermutation(c.lru, |c.slots|, i);
    RemoveFirstFacts(c.lru, i);
    forall h: nat ensures ChainOk(c', h) { assert ChainOk(c, h); }
    forall k: nat ensures SlotOk(c', loading, k) { assert SlotOk(c, loading, k); }
    forall k: nat, j: nat ensures Apart(c', k, j) { assert Apart(c, k, j); }
  }

  /** A permutation of the slots holds every slot. */
  lemma InPermutation(l: seq<nat>, n: nat, i: nat)
    requires Permutation(l, n) && i < n
    ensures i in l
  {
    ElementsOfNoDup(l);
    assert Elements(l) <= Below(n);
    if i !in l {
      SubsetSize(Elements(l), Below(n) - {i});
    }
  }

  /** What unlinking does to membership. */
  lemma UnlinkAt(c: Core, v: nat)
    requires |c.chains| > 0 && v < |c.slots| && (forall h: nat :: ChainOk(c, h))
    ensures forall h: nat :: ChainOk(Unlink(c, v), h)
    ensures forall i: nat :: Linked(Unlink(c, v), i) <==> Linked(c, i) && i != v
  {
    var c', h0 := Unlink(c, v), Bucket(c, c.slots[v].num);
    assert ChainOk(c, h0);
    RemoveFirstFacts(c.chains[h0], v);
    forall h: nat ensures ChainOk(c', h) { assert ChainOk(c, h); }
  }

  /** Slots outside every chain may change their number freely; linking one adds just that slot. */
  lemma RelinkAt(c: Core, v: nat, s: Slot)
    requires |c.chains| > 0 && v < |c.slots| && (forall h: nat :: ChainOk(c, h))
    requires forall h :: 0 <= h < |c.chains| ==> v !in c.chains[h]
    ensures var c' := Link(SetSlot(c, v, s), v);
            && (forall h: nat :: ChainOk(c', h))
            && forall i: nat :: i != v ==> (Linked(c', i) <==> Linked(c, i))
    ensures Linked(Link(SetSlot(c, v, s), v), v)
  {
    var c1 := SetSlot(c, v, s);
    var c' := Link(c1, v);
    forall h: nat ensures ChainOk(c', h) {
      assert ChainOk(c, h);
    }
  }

  lemma NotInChains(c: Core, v: nat)
    requires |c.chains| > 0 && v < |c.slots| && (forall h: nat :: ChainOk(c, h)) && !Linked(c, v)
    ensures forall h :: 0 <= h < |c.chains| ==> v !in c.chains[h]
  {
    forall h | 0 <= h < |c.chains| ensures v !in c.chains[h] { assert ChainOk(c, h); }
  }

  /** Reserving a slot that nobody loads makes it the one linked slot of the new block. */
  lemma ReserveStruct(c: Core, loading: set<nat>, v: nat, n: nat)
    requires Struct(c, loading) && v < |c.slots| && v !in loading && FindAny(c, n).None?
    ensures Struct(Reserve(c, v, n), loading + {v})
    ensures forall i: nat :: i != v ==> (Linked(Reserve(c, v, n), i) <==> Linked(c, i))
    ensures Linked(Reserve(c, v, n), v)
  {
    FindAnyIsLinked(c, loading, n);
    UnlinkAt(c, v);
    assert SlotOk(c, loading, v);
    var c1 := if c.slots[v].valid then Unlink(c, v) else c;
    var s := c.slots[v].(num := n, valid := false, dirty := false, refs := 1);
    var c' := Reserve(c, v, n);
    NotInChains(c1, v);
    RelinkAt(c1, v, s);
    assert c' == Link(SetSlot(c1, v, s), v);
    forall i: nat ensures SlotOk(c', loading + {v}, i) { assert SlotOk(c, loading, i); }
    forall i: nat, j: nat ensures Apart(c', i, j) { assert Apart(c, i, j); }
  }

  lemma LoadedStruct(c: Core, loading: set<nat>, v: nat, data: Data, dirty: bool, refs: nat)
    requires Struct(c, loading) && v in loading
    ensures v < |c.slots| && Struct(Loaded(c, v, data, dirty, refs), loading - {v})
  {
    var c' := Loaded(c, v, data, dirty, refs);
    forall h: nat ensures ChainOk(c', h) { assert ChainOk(c, h); }
    forall i: nat ensures SlotOk(c', loading - {v}, i) { assert SlotOk(c, loading, i); }
    forall i: nat, j: nat ensures Apart(c', i, j) { assert Apart(c, i, j); }
  }

  lemma LoadFailedStruct(c: Core, loading: set<nat>, v: nat, junk: Data)
    requires Struct(c, loading) && v in loading
    ensures v < |c.slots| && Struct(LoadFailed(c, v, junk), loading - {v})
    ensures forall i: nat :: Linked(LoadFailed(c, v, junk), i) <==> Linked(c, i) && i != v
  {
    assert SlotOk(c, loading, v);
    UnlinkAt(c, v);
    var c1, c' := Unlink(c, v), LoadFailed(c, v, junk);
    NotInChains(c1, v);
    forall h: nat ensures ChainOk(c', h) { assert ChainOk(c1, h); }
    forall i: nat ensures SlotOk(c', loading - {v}, i) { assert SlotOk(c, loading, i); }
    forall i: nat, j: nat ensures Apart(c', i, j) { assert Apart(c, i, j); }
  }

  /** Dropping a valid slot from its chain. */
  lemma DropStruct(c: Core, loading: set<nat>, v: nat, s: Slot)
    requires Struct(c, loading) && v < |c.slots| && v !in loading && !s.valid && !s.dirty && s.num == c.slots[v].num
    ensures Struct(SetSlot(Unlink(c, v), v, s), loading)
    ensures forall i: nat :: Linked(SetSlot(Unlink(c, v), v, s), i) <==> Linked(c, i) && i != v
  {
    UnlinkAt(c, v);
    var c1, c' := Unlink(c, v), SetSlot(Unlink(c, v), v, s);
    assert c1.slots == c.slots && |c1.chains| == |c.chains| && c1.lru == c.lru;
    hide Unlink, NoDup;
    forall h: nat ensures ChainOk(c', h) { assert ChainOk(c1, h); }
    forall i: nat ensures Linked(c', i) <==> Linked(c, i) && i != v { assert Linked(c1, i) <==> Linked(c, i) && i != v; }
    hide Linked;
    forall i: nat ensures SlotOk(c', loading, i) { assert SlotOk(c, loading, i); }
    forall i: nat, j: nat ensures Apart(c', i, j) { assert Apart(c, i, j); }
  }

  // ------------------------------------------------------------- least recently used

  /** When a slot was last touched, counted in touches; 0 for never. */
  function LastTouch(touched: seq<nat>, i: nat): nat {
    if touched == [] then 0
    else if touched[|touched| - 1] == i then |touched|
    else LastTouch(touched[..|touched| - 1], i)
  }

  /** `a` was touched longer ago than `b`; slots never touched are taken from the last one down. */
  predicate Older(touched: seq<nat>, a: nat, b: nat) {
    || LastTouch(touched, a) < LastTouch(touched, b)
    || (LastTouch(touched, a) == 0 && LastTouch(touched, b) == 0 && b < a)
  }

  ghost predicate Ordered(c: Core) {
    forall j: nat, k: nat :: j < k < |c.lru| ==> Older(c.touched, c.lru[k], c.lru[j])
  }

  lemma {:induction false} LastTouchBound(touched: seq<nat>, i: nat)
    ensures LastTouch(touched, i) <= |touched|
  {
    if touched != [] { LastTouchBound(touched[..|touched| - 1], i); }
  }

  lemma LastTouchThen(touched: seq<nat>, i: nat, x: nat)
    ensures LastTouch(touched + [i], x) == if x == i then |touched| + 1 else LastTouch(touched, x)
  {
    assert (touched + [i])[..|touched|] == touched;
  }

  /** Where the elements are once the one at place `p` has moved to the front. */
  function Before(p: nat, k: nat): nat {
    if k == 0 then p else if k <= p then k - 1 else k
  }

  lemma MovedAt(l: seq<nat>, p: nat, k: nat)
    requires NoDup(l) && p < |l| && k < |l|
    ensures |RemoveFirst(l, l[p])| == |l| - 1
    ensures Before(p, k) < |l| && ([l[p]] + RemoveFirst(l, l[p]))[k] == l[Before(p, k)]
  {
    RemoveFirstCuts(l, p);
    hide RemoveFirst, NoDup;
    var r := l[..p] + l[p + 1..];
    if k > 0 { assert ([l[p]] + r)[k] == r[k - 1] == l[Before(p, k)]; }
  }

  lemma TouchOrdered(c: Core, i: nat)
    requires Permutation(c.lru, |c.slots|) && i < |c.slots| && Ordered(c)
    ensures Ordered(Touch(c, i))
  {
    InPermutation(c.lru, |c.slots|, i);
    var p: nat :| p < |c.lru| && c.lru[p] == i;
    var l, lru, touched := c.lru, Touch(c, i).lru, Touch(c, i).touched;
    MovedAt(l, p, 0);
    hide Older, RemoveFirst;
    forall j: nat, k: nat | j < k < |lru| ensures Older(touched, lru[k], lru[j]) {
      MovedAt(l, p, j);
      MovedAt(l, p, k);
      if j == 0 {
        NewestFirst(c.touched, l[Before(p, k)], i);
      } else {
        assert Older(c.touched, l[Before(p, k)], l[Before(p, j)]);
        StillOlder(c.touched, l[Before(p, k)], l[Before(p, j)], i);
      }
    }
  }

  lemma NewestFirst(touched: seq<nat>, a: nat, i: nat)
    requires a != i
    ensures Older(touched + [i], a, i)
  {
    LastTouchThen(touched, i, i);
    LastTouchThen(touched, i, a);
    LastTouchBound(touched, a);
  }

  lemma StillOlder(touched: seq<nat>, a: nat, b: nat, i: nat)
    requires Older(touched, a, b) && a != i && b != i
    ensures Older(touched + [i], a, b)
  {
    LastTouchThen(touched, i, a);
    LastTouchThen(touched, i, b);
  }

  /** The slot chosen stands behind every other slot that could be chosen. */
  lemma {:induction false} VictimIsLast(slots: seq<Slot>, lru: seq<nat>, k: nat)
    requires k < |lru| && lru[k] < |slots| && Evictable(slots[lru[k]])
    ensures exists j: nat :: k <= j < |lru| && VictimIn(slots, lru) == Some(lru[j])
  {
    var e := |lru| - 1;
    if lru[e] < |slots| && Evictable(slots[lru[e]]) {
      assert VictimIn(slots, lru) == Some(lru[e]);
    } else {
      VictimIsLast(slots, lru[..e], k);
      var j: nat :| k <= j < e && VictimIn(slots, lru[..e]) == Some(lru[..e][j]);
      assert VictimIn(slots, lru) == Some(lru[j]);
    }
  }

  /** The victim is the slot touched longest ago among those that are neither held nor pinned, and there
      is none only when every slot is held or pinned. */
  lemma VictimIsOldest(c: Core, i: nat)
    requires Permutation(c.lru, |c.slots|) && Ordered(c) && i < |c.slots| && Evictable(c.slots[i])
    ensures Victim(c).Some? && Victim(c).value < |c.slots| && Evictable(c.slots[Victim(c).value])
    ensures Victim(c).value == i || Older(c.touched, Victim(c).value, i)
  {
    InPermutation(c.lru, |c.slots|, i);
    var k: nat :| k < |c.lru| && c.lru[k] == i;
    VictimIsLast(c.slots, c.lru, k);
    var j: nat :| k <= j < |c.lru| && Victim(c) == Some(c.lru[j]);
    if k < j { assert Older(c.touched, c.lru[j], c.lru[k]); }
  }
}

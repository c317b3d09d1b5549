/** The capability table of kernel/cap/table.cpp.

    `Slots` is the value of a table: its entry array, the head of the free list that is
    threaded through the `object` fields of unused entries, and the count of live entries. */
module CapTable {
  import opened Handles
  import opened Sequences

  const KIND_INVALID := 0
  const NO_PARENT := 0xFFFF_FFFF
  const END := 0xFFFF_FFFF

  datatype Entry = Entry(obj: nat, rights: Rights, parent: nat, kind: nat, gen: nat)

  datatype Slots = Slots(entries: seq<Entry>, freeHead: nat, count: int)

  // ---------------------------------------------------------------- invariant

  predicate Live(s: Slots, i: nat) {
    i < |s.entries| && s.entries[i].kind != KIND_INVALID
  }

  function Head(l: seq<nat>): nat {
    if l == [] then END else l[0]
  }

  predicate LinkedAt(entries: seq<Entry>, l: seq<nat>, k: nat) {
    k < |l| ==> l[k] < |entries| && entries[l[k]].obj == Head(l[k + 1..])
  }

  predicate Linked(entries: seq<Entry>, l: seq<nat>) {
    forall k: nat :: k < |l| ==> LinkedAt(entries, l, k)
  }

  /** `l` is the chain that starts at `freeHead` and follows the `object` fields, and it
      visits every unused slot exactly once. */
  predicate FreeList(s: Slots, l: seq<nat>) {
    && s.freeHead == Head(l)
    && NoDup(l)
    && Linked(s.entries, l)
    && (forall i :: 0 <= i < |s.entries| ==> (s.entries[i].kind == KIND_INVALID <==> i in l))
    && |l| + s.count == |s.entries|
  }

  predicate Bounded(s: Slots) {
    && 1 <= |s.entries| <= 0xFFFFFF
    && forall i :: 0 <= i < |s.entries| ==> s.entries[i].gen < GENERATIONS
  }

  /** The slots met when walking from `head` along the `object` fields, at most `fuel` of them. */
  function Walk(entries: seq<Entry>, head: nat, fuel: nat): seq<nat>
    decreases fuel
  {
    if fuel == 0 || head >= |entries| then []
    else [head] + Walk(entries, entries[head].obj % WORD, fuel - 1)
  }

  function FreeOf(s: Slots): seq<nat> {
    Walk(s.entries, s.freeHead, |s.entries|)
  }

  /** The well-formed table: the walk from `freeHead` meets every unused slot exactly once. */
  predicate Wf(s: Slots) {
    Bounded(s) && FreeList(s, FreeOf(s))
  }

  ghost function LiveSet(s: Slots): set<nat> {
    set i | 0 <= i < |s.entries| && Live(s, i)
  }

  // --------------------------------------------------------------- operations

  function Empty(capacity: nat): Slots
    requires 1 <= capacity
  {
    Slots(seq(capacity, (i: nat) => Entry(if i + 1 < capacity then i + 1 else END, 0, NO_PARENT, KIND_INVALID, 0)), 0, 0)
  }

  predicate Resolves(s: Slots, h: Handle) {
    && h != HANDLE_INVALID
    && Live(s, Index(h))
    && s.entries[Index(h)].gen == Gen(h)
  }

  /** Pop the free list and fill the slot; the generation stays as the slot's last use left it. */
  function Fill(s: Slots, obj: nat, kind: nat, rights: Rights, parent: nat): (Slots, Handle)
    requires Bounded(s)
  {
    if s.freeHead >= |s.entries| then (s, HANDLE_INVALID) else
    var e := s.entries[s.freeHead];
    (Slots(s.entries[s.freeHead := Entry(obj, rights, parent, kind, e.gen)], e.obj % WORD, s.count + 1),
     MakeHandle(s.freeHead, e.gen))
  }

  function Insert(s: Slots, obj: nat, kind: nat, rights: Rights): (Slots, Handle)
    requires Bounded(s)
  {
    Fill(s, obj, kind, rights, NO_PARENT)
  }

  function Derive(s: Slots, h: Handle, rights: Rights): (Slots, Handle)
    requires Bounded(s)
  {
    if !Resolves(s, h) || !HasRights(s.entries[Index(h)].rights, CAP_DERIVE) then (s, HANDLE_INVALID) else
    var e := s.entries[Index(h)];
    Fill(s, e.obj, e.kind, e.rights & rights, Index(h))
  }

  /** Push slot `i` on the free list under its next generation. */
  function Release(s: Slots, i: nat, parent: nat): Slots
    requires i < |s.entries|
  {
    var e := s.entries[i];
    Slots(s.entries[i := Entry(s.freeHead, 0, parent, KIND_INVALID, (e.gen + 1) % GENERATIONS)], i, s.count - 1)
  }

  /** `remove` compares no generation: a stale handle frees whatever now lives in its slot. */
  function Remove(s: Slots, h: Handle): Slots {
    if h == HANDLE_INVALID || !Live(s, Index(h)) then s
    else Release(s, Index(h), s.entries[Index(h)].parent)
  }

  // -------------------------------------------------- the allocator's invariant

  lemma {:induction false} WalkIsList(entries: seq<Entry>, l: seq<nat>, fuel: nat)
    requires |l| <= fuel && |entries| <= 0xFFFFFF
    requires Linked(entries, l)
    ensures Walk(entries, Head(l), fuel) == l
  {
    if l != [] {
      assert LinkedAt(entries, l, 0);
      forall k: nat | k < |l| - 1 ensures LinkedAt(entries, l[1..], k) {
        assert LinkedAt(entries, l, k + 1);
        assert l[1..][k + 1..] == l[k + 2..];
      }
      WalkIsList(entries, l[1..], fuel - 1);
      assert l == [l[0]] + l[1..];
    }
  }

  lemma ListInRange(s: Slots, l: seq<nat>)
    requires FreeList(s, l)
    ensures forall x :: x in l ==> x < |s.entries|
    ensures Elements(l) <= Below(|s.entries|)
  {
    forall x | x in l ensures x < |s.entries| {
      var k :| 0 <= k < |l| && l[k] == x;
      assert LinkedAt(s.entries, l, k);
    }
  }

  /** The free list is determined by the table. */
  lemma FreeListIsWalk(s: Slots, l: seq<nat>)
    requires Bounded(s) && FreeList(s, l)
    ensures FreeOf(s) == l && Wf(s)
  {
    ElementsOfNoDup(l);
    ListInRange(s, l);
    SubsetSize(Elements(l), Below(|s.entries|));
    WalkIsList(s.entries, l, |s.entries|);
  }

  lemma EmptyWf(capacity: nat)
    requires 1 <= capacity <= 0xFFFFFF
    ensures Wf(Empty(capacity))
  {
    var l := seq(capacity, (i: nat) => i);
    forall i: nat | i < capacity ensures i in l {
      assert l[i] == i;
    }
    forall k: nat | k < |l| ensures LinkedAt(Empty(capacity).entries, l, k) {
    }
    assert FreeList(Empty(capacity), l);
    FreeListIsWalk(Empty(capacity), l);
  }

  /** Filling a slot pops the first free slot. */
  lemma FillPops(s: Slots, obj: nat, kind: nat, rights: Rights, parent: nat)
    requires Wf(s) && kind != KIND_INVALID && FreeOf(s) != []
    ensures FreeOf(s)[0] == s.freeHead < |s.entries|
    ensures Wf(Fill(s, obj, kind, rights, parent).0)
    ensures FreeOf(Fill(s, obj, kind, rights, parent).0) == FreeOf(s)[1..]
  {
    var l := FreeOf(s);
    ListInRange(s, l);
    assert l[0] == s.freeHead && s.freeHead in l;
    assert LinkedAt(s.entries, l, 0);
    var s' := Fill(s, obj, kind, rights, parent).0;
    assert s'.freeHead == Head(l[1..]) by {
      if |l| > 1 { assert l[1] in l; }
    }
    forall k: nat | k < |l| - 1 ensures LinkedAt(s'.entries, l[1..], k) {
      assert LinkedAt(s.entries, l, k + 1);
      assert l[1..][k] == l[k + 1] != l[0];
      assert l[1..][k + 1..] == l[k + 2..];
    }
    forall i | 0 <= i < |s.entries| ensures s'.entries[i].kind == KIND_INVALID <==> i in l[1..] {
      assert i in l <==> i == l[0] || i in l[1..];
    }
    FreeListIsWalk(s', l[1..]);
  }

  lemma FillWf(s: Slots, obj: nat, kind: nat, rights: Rights, parent: nat)
    requires Wf(s) && kind != KIND_INVALID
    ensures Wf(Fill(s, obj, kind, rights, parent).0)
    ensures s.freeHead == END || s.freeHead < |s.entries|
    ensures s.freeHead == END <==> s.count == |s.entries|
    ensures s.freeHead != END ==> !Live(s, s.freeHead)
  {
    var l := FreeOf(s);
    if l != [] {
      FillPops(s, obj, kind, rights, parent);
      assert s.freeHead in l;
    }
  }

  lemma DeriveWf(s: Slots, h: Handle, rights: Rights)
    requires Wf(s)
    ensures Wf(Derive(s, h, rights).0)
    ensures s.freeHead == END || s.freeHead < |s.entries|
  {
    FillWf(s, 0, 1, 0, 0);
    if Resolves(s, h) {
      var e := s.entries[Index(h)];
      FillWf(s, e.obj, e.kind, e.rights & rights, Index(h));
    }
  }

  lemma ReleaseWf(s: Slots, i: nat, parent: nat)
    requires Wf(s) && Live(s, i)
    ensures Wf(Release(s, i, parent))
    ensures FreeOf(Release(s, i, parent)) == [i] + FreeOf(s)
  {
    var l := FreeOf(s);
    var s', m := Release(s, i, parent), [i] + l;
    assert i !in l;
    forall k: nat | k < |m| ensures LinkedAt(s'.entries, m, k) {
      assert m[k + 1..] == l[k..];
      if k > 0 { assert LinkedAt(s.entries, l, k - 1) && m[k] == l[k - 1]; }
    }
    forall j | 0 <= j < |s.entries| ensures s'.entries[j].kind == KIND_INVALID <==> j in m {
      assert j in m <==> j == i || j in l;
    }
    FreeListIsWalk(s', m);
  }

  lemma RemoveWf(s: Slots, h: Handle)
    requires Wf(s)
    ensures Wf(Remove(s, h))
  {
    if h != HANDLE_INVALID && Live(s, Index(h)) { ReleaseWf(s, Index(h), s.entries[Index(h)].parent); }
  }

  /** In a well-formed table `count_` is the number of live entries, so the free list has
      capacity - count entries and each unused slot is on it once. */
  lemma CountIsLive(s: Slots)
    requires Wf(s)
    ensures |LiveSet(s)| == s.count
  {
    var l := FreeOf(s);
    ElementsOfNoDup(l);
    ListInRange(s, l);
    assert LiveSet(s) == Below(|s.entries|) - Elements(l);
  }
}

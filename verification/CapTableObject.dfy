/** The table object itself: entries updated in place, proved against the value functions. */
module CapTableObject {
  import opened Handles
  import opened CapTable
  import opened Derivation
  import opened Revocation
  import CapRuns

  class Table {
    const entries: array<Entry>
    var freeHead: nat
    var count: int

    ghost function State(): Slots
      reads this, entries
    {
      Slots(entries[..], freeHead, count)
    }

    constructor (capacity: nat)
      requires 1 <= capacity <= 0xFFFFFF
      ensures fresh(entries)
      ensures State() == Empty(capacity) && Wf(State()) && Forest(State())
    {
      entries := new Entry[capacity](_ => Entry(0, 0, 0, KIND_INVALID, 0));
      freeHead, count := 0, 0;
      new;
      var i := 0;
      while i < capacity - 1
        invariant 0 <= i <= capacity - 1
        invariant freeHead == 0 && count == 0
        invariant forall k :: 0 <= k < i ==> entries[k] == Entry(k + 1, 0, NO_PARENT, KIND_INVALID, 0)
      {
        entries[i] := Entry(i + 1, 0, NO_PARENT, KIND_INVALID, 0);
        i := i + 1;
      }
      entries[capacity - 1] := Entry(END, 0, NO_PARENT, KIND_INVALID, 0);
      assert entries[..] == Empty(capacity).entries;
      EmptyWf(capacity);
      assert Ranked(State(), seq(capacity, _ => 0));
    }

    method Insert(obj: nat, kind: nat, rights: Rights) returns (h: Handle)
      requires Wf(State()) && kind != KIND_INVALID
      modifies this`freeHead, this`count, entries
      ensures (State(), h) == CapTable.Insert(old(State()), obj, kind, rights)
      ensures Wf(State()) && CapRuns.Step(old(State()), CapRuns.Insert(obj, kind, rights), State(), h)
      ensures h == HANDLE_INVALID <==> old(State()).count == entries.Length
    {
      FillWf(State(), obj, kind, rights, NO_PARENT);
      if freeHead == END { return HANDLE_INVALID; }
      var index := freeHead;
      freeHead := entries[index].obj % WORD;
      entries[index] := Entry(obj, rights, NO_PARENT, kind, entries[index].gen);
      count := count + 1;
      HandleRoundTrip(index, entries[index].gen);
      h := MakeHandle(index, entries[index].gen);
    }

    method InsertBounded(obj: nat, kind: nat, rights: Rights, bound: Rights) returns (h: Handle)
      requires Wf(State()) && kind != KIND_INVALID
      modifies this`freeHead, this`count, entries
      ensures (State(), h) == CapTable.Insert(old(State()), obj, kind, rights & bound)
      ensures Wf(State()) && CapRuns.Step(old(State()), CapRuns.InsertBounded(obj, kind, rights, bound), State(), h)
      ensures h == HANDLE_INVALID <==> old(State()).count == entries.Length
    {
      h := Insert(obj, kind, rights & bound);
    }

    /** `get`: the entry a handle resolves to, whatever its kind and rights. */
    method Lookup(h: Handle) returns (ok: bool, e: Entry)
      requires Wf(State())
      ensures ok <==> Resolves(State(), h)
      ensures ok ==> e == State().entries[Index(h)]
    {
      ok, e := false, Entry(0, 0, 0, KIND_INVALID, 0);
      if h == HANDLE_INVALID || Index(h) >= entries.Length { return; }
      if entries[Index(h)].kind == KIND_INVALID || entries[Index(h)].gen != Gen(h) { return; }
      return true, entries[Index(h)];
    }

    /** `get_with_rights`: the slot of a resolving handle of the right kind and rights. */
    method Get(h: Handle, kind: nat, required: Rights) returns (ok: bool, e: Entry)
      requires Wf(State())
      ensures ok <==> Resolves(State(), h) && State().entries[Index(h)].kind == kind
                      && HasRights(State().entries[Index(h)].rights, required)
      ensures ok ==> e == State().entries[Index(h)]
    {
      ok, e := false, Entry(0, 0, 0, KIND_INVALID, 0);
      if h == HANDLE_INVALID || Index(h) >= entries.Length { return; }
      var found := entries[Index(h)];
      if found.kind == KIND_INVALID || found.gen != Gen(h) { return; }
      if found.kind != kind || !HasRights(found.rights, required) { return; }
      return true, found;
    }

    method Remove(h: Handle)
      requires Wf(State())
      modifies this`freeHead, this`count, entries
      ensures State() == CapTable.Remove(old(State()), h)
      ensures Wf(State()) && CapRuns.Step(old(State()), CapRuns.Remove(h), State(), HANDLE_INVALID)
    {
      if h == HANDLE_INVALID || Index(h) >= entries.Length { return; }
      var i := Index(h);
      if entries[i].kind == KIND_INVALID { return; }
      ReleaseWf(State(), i, entries[i].parent);
      FreeSlot(i, entries[i].parent);
    }

    /** Bump the generation, clear the entry and push it on the free list. */
    method FreeSlot(i: nat, parent: nat)
      requires i < entries.Length
      modifies this`freeHead, this`count, entries
      ensures State() == Release(old(State()), i, parent)
    {
      entries[i] := Entry(freeHead, 0, parent, KIND_INVALID, (entries[i].gen + 1) % GENERATIONS);
      freeHead := i;
      count := count - 1;
    }

    method Derive(h: Handle, rights: Rights) returns (d: Handle)
      requires Wf(State())
      modifies this`freeHead, this`count, entries
      ensures (State(), d) == CapTable.Derive(old(State()), h, rights)
      ensures Wf(State()) && CapRuns.Step(old(State()), CapRuns.Derive(h, rights), State(), d)
      ensures old(Forest(State())) ==> Forest(State())
    {
      DeriveWf(State(), h, rights);
      if Forest(State()) { DeriveForest(State(), h, rights); }
      d := DeriveUnlocked(h, rights);
    }

    method DeriveUnlocked(h: Handle, rights: Rights) returns (d: Handle)
      requires Bounded(State()) && (freeHead == END || freeHead < entries.Length)
      modifies this`freeHead, this`count, entries
      ensures (State(), d) == CapTable.Derive(old(State()), h, rights)
    {
      if h == HANDLE_INVALID || Index(h) >= entries.Length { return HANDLE_INVALID; }
      var e := entries[Index(h)];
      if e.kind == KIND_INVALID || e.gen != Gen(h) { return HANDLE_INVALID; }
      if !HasRights(e.rights, CAP_DERIVE) { return HANDLE_INVALID; }
      if freeHead == END { return HANDLE_INVALID; }
      var index := freeHead;
      freeHead := entries[index].obj % WORD;
      entries[index] := Entry(e.obj, e.rights & rights, Index(h), e.kind, entries[index].gen);
      count := count + 1;
      d := MakeHandle(index, entries[index].gen);
    }

    /** The recursion over the mutating array, where it ends within `fuel` levels. */
    method RevokeUnlocked(h: Handle, ghost fuel: nat) returns (revoked: nat)
      requires Bounded(State()) && RevokeIn(State(), h, fuel).Returns?
      modifies this`freeHead, this`count, entries
      ensures RevokeIn(old(State()), h, fuel) == Returns(State(), revoked)
      decreases fuel, 0
    {
      if h == HANDLE_INVALID || Index(h) >= entries.Length { return 0; }
      var index := Index(h);
      if entries[index].kind == KIND_INVALID || entries[index].gen != Gen(h) { return 0; }
      revoked := RevokeChildren(index, fuel - 1);
      FreeSlot(index, NO_PARENT);
      revoked := revoked + 1;
    }

    method RevokeChildren(index: nat, ghost fuel: nat) returns (revoked: nat)
      requires Bounded(State()) && ChildrenIn(State(), index, entries.Length, fuel).Returns?
      modifies this`freeHead, this`count, entries
      ensures ChildrenIn(old(State()), index, entries.Length, fuel) == Returns(State(), revoked)
      decreases fuel, entries.Length + 1
    {
      revoked := 0;
      for i := 0 to entries.Length
        invariant ChildrenIn(old(State()), index, i, fuel) == Returns(State(), revoked)
      {
        ChildrenBefore(old(State()), index, i + 1, entries.Length, fuel);
        if entries[i].kind != KIND_INVALID && entries[i].parent == index {
          var more := RevokeUnlocked(MakeHandle(i, entries[i].gen), fuel);
          revoked := revoked + more;
        }
      }
    }

    /** Off every cycle of parent links, revocation frees exactly the derivation closure of a resolving handle
        and reports its size. */
    method Revoke(h: Handle) returns (revoked: nat)
      requires Wf(State()) && !(Resolves(State(), h) && OnCycle(State(), Index(h)))
      modifies this`freeHead, this`count, entries
      ensures Revoked(old(State()), State(), h) && Wf(State())
      ensures CapRuns.Step(old(State()), CapRuns.Revoke(h), State(), HANDLE_INVALID)
      ensures revoked == RevokedCount(old(State()), h)
      ensures count == old(count) - revoked
      ensures old(Acyclic(State())) ==> Acyclic(State())
      ensures old(Forest(State())) ==> Forest(State())
    {
      ghost var fuel := OffCycleRevokes(State(), h);
      revoked := RevokeUnlocked(h, fuel);
      RevokeKeeps(old(State()), State(), h);
    }
  }

  lemma RevokeKeeps(s: Slots, t: Slots, h: Handle)
    requires Wf(s) && Revoked(s, t, h)
    ensures Wf(t) && t.count == s.count - RevokedCount(s, h)
    ensures Acyclic(s) ==> Acyclic(t)
    ensures Forest(s) ==> Forest(t)
  {
    if Acyclic(s) { RevokeAcyclic(s, t, h); }
    if Forest(s) { RevokeForest(s, t, h); }
  }
}

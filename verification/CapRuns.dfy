/** Whole runs of a capability table: what holds in every reachable table, and for how long
    an issued handle keeps resolving. */
module CapRuns {
  import opened Handles
  import opened CapTable
  import opened Derivation
  import opened Revocation

  datatype Op =
    | Insert(obj: nat, kind: nat, rights: Rights)
    | InsertBounded(obj: nat, kind: nat, rights: Rights, bound: Rights)
    | Derive(h: Handle, rights: Rights)
    | Remove(h: Handle)
    | Revoke(h: Handle)

  /** One call, the table before and after it, and the handle it returned. A call of `revoke` is a step
      exactly where it returns: not on a slot whose parent links lead back to it. */
  ghost predicate Step(s: Slots, op: Op, t: Slots, out: Handle) {
    Bounded(s) &&
    match op
    case Insert(obj, kind, rights) =>
      kind != KIND_INVALID && (t, out) == CapTable.Insert(s, obj, kind, rights)
    case InsertBounded(obj, kind, rights, bound) =>
      kind != KIND_INVALID && (t, out) == CapTable.Insert(s, obj, kind, rights & bound)
    case Derive(h, rights) => (t, out) == CapTable.Derive(s, h, rights)
    case Remove(h) => t == CapTable.Remove(s, h) && out == HANDLE_INVALID
    case Revoke(h) => !(Resolves(s, h) && OnCycle(s, Index(h))) && Revoked(s, t, h) && out == HANDLE_INVALID
  }

  /** The rule under which every derived capability keeps its parent: `remove` only slots nothing live
      derives from. */
  ghost predicate Disciplined(s: Slots, op: Op) {
    op.Remove? ==> !exists c: nat :: Child(s, c, Index(op.h))
  }

  datatype Call = Call(op: Op, out: Handle)

  ghost predicate StepAt(trace: seq<Slots>, calls: seq<Call>, k: nat)
    requires k < |calls| < |trace|
  {
    Step(trace[k], calls[k].op, trace[k + 1], calls[k].out)
  }

  ghost predicate Run(trace: seq<Slots>, calls: seq<Call>) {
    && |trace| == |calls| + 1
    && 1 <= |trace[0].entries| <= 0xFFFFFF
    && trace[0] == Empty(|trace[0].entries|)
    && forall k: nat :: k < |calls| ==> StepAt(trace, calls, k)
  }

  lemma StepWf(s: Slots, op: Op, t: Slots, out: Handle)
    requires Wf(s) && Step(s, op, t, out)
    ensures Wf(t)
  {
    if op.Derive? {
      DeriveWf(s, op.h, op.rights);
    } else if op.Remove? {
      RemoveWf(s, op.h);
    } else if !op.Revoke? {
      FillWf(s, op.obj, op.kind, if op.Insert? then op.rights else op.rights & op.bound, NO_PARENT);
    }
  }

  lemma StepForest(s: Slots, op: Op, t: Slots, out: Handle)
    requires Wf(s) && Forest(s) && Step(s, op, t, out) && Disciplined(s, op)
    ensures Forest(t)
  {
    match op
    case Insert(obj, kind, rights) => InsertForest(s, obj, kind, rights);
    case InsertBounded(obj, kind, rights, bound) => InsertForest(s, obj, kind, rights & bound);
    case Derive(h, rights) => DeriveForest(s, h, rights);
    case Remove(h) => if h != HANDLE_INVALID && Live(s, Index(h)) { RemoveForest(s, h); }
    case Revoke(h) => RevokeForest(s, t, h);
  }

  /** Every reachable table is well formed: its free list visits each unused slot exactly once and
      has capacity - count entries. */
  lemma {:induction false} ReachableWf(trace: seq<Slots>, calls: seq<Call>, k: nat)
    requires Run(trace, calls) && k < |trace|
    ensures Wf(trace[k]) && |LiveSet(trace[k])| == trace[k].count
    ensures |FreeOf(trace[k])| == |trace[k].entries| - trace[k].count
  {
    if k == 0 {
      EmptyWf(|trace[0].entries|);
    } else {
      ReachableWf(trace, calls, k - 1);
      assert StepAt(trace, calls, k - 1);
      StepWf(trace[k - 1], calls[k - 1].op, trace[k], calls[k - 1].out);
    }
    CountIsLive(trace[k]);
  }

  /** Under the removal rule the parent links form a forest in every reachable table. */
  lemma {:induction false} ReachableForest(trace: seq<Slots>, calls: seq<Call>, k: nat)
    requires Run(trace, calls) && k < |trace|
    requires forall j :: 0 <= j < |calls| ==> Disciplined(trace[j], calls[j].op)
    ensures Forest(trace[k])
  {
    if k == 0 {
      var rank: seq<nat> := seq(|trace[0].entries|, _ => 0);
      assert Ranked(trace[0], rank);
    } else {
      ReachableForest(trace, calls, k - 1);
      ReachableWf(trace, calls, k - 1);
      assert StepAt(trace, calls, k - 1);
      StepForest(trace[k - 1], calls[k - 1].op, trace[k], calls[k - 1].out);
    }
  }

  /** The call derives from a descendant of an orphan of the slot it fills. */
  ghost predicate Cycles(s: Slots, op: Op) {
    Bounded(s) && op.Derive? && CapTable.Derive(s, op.h, op.rights).0 != s && ClosesCycle(s, op.h)
  }

  lemma StepAcyclic(s: Slots, op: Op, t: Slots, out: Handle)
    requires Wf(s) && Acyclic(s) && Step(s, op, t, out)
    ensures Acyclic(t) <==> !Cycles(s, op)
  {
    match op
    case Insert(obj, kind, rights) => InsertAcyclic(s, obj, kind, rights);
    case InsertBounded(obj, kind, rights, bound) => InsertAcyclic(s, obj, kind, rights & bound);
    case Derive(h, rights) => if t != s { DeriveAcyclic(s, h, rights); }
    case Remove(h) => RemoveAcyclic(s, h);
    case Revoke(h) => RevokeAcyclic(s, t, h);
  }

  /** Without any rule: parent links are free of cycles throughout a run exactly when no call of it derives
      from a descendant of an orphan of the slot it fills. Until then every `revoke` returns. */
  lemma {:induction false} ReachableAcyclic(trace: seq<Slots>, calls: seq<Call>, n: nat)
    requires Run(trace, calls) && n < |trace|
    ensures (forall k: nat :: k <= n ==> Acyclic(trace[k])) <==>
              forall k: nat :: k < n ==> !Cycles(trace[k], calls[k].op)
  {
    if n == 0 {
      assert Acyclic(trace[0]);
    } else {
      ReachableAcyclic(trace, calls, n - 1);
      ReachableWf(trace, calls, n - 1);
      assert StepAt(trace, calls, n - 1);
      if Acyclic(trace[n - 1]) { StepAcyclic(trace[n - 1], calls[n - 1].op, trace[n], calls[n - 1].out); }
    }
  }

  // -------------------------------------------------------------- handle lifetime

  predicate FreedBy(s: Slots, t: Slots, i: nat) {
    Live(s, i) && !Live(t, i)
  }

  /** How often slot `i` was freed between states `j` and `k` of a run. */
  function Frees(trace: seq<Slots>, i: nat, j: nat, k: nat): nat
    requires j <= k < |trace|
  {
    if j == k then 0
    else Frees(trace, i, j, k - 1) + if FreedBy(trace[k - 1], trace[k], i) then 1 else 0
  }

  /** A step leaves a slot alone, fills it while it was free, or frees it under its next generation. */
  lemma StepSlot(s: Slots, op: Op, t: Slots, out: Handle, i: nat)
    requires Wf(s) && Step(s, op, t, out) && i < |s.entries|
    ensures |t.entries| == |s.entries|
    ensures t.entries[i].gen == if FreedBy(s, t, i) then (s.entries[i].gen + 1) % GENERATIONS else s.entries[i].gen
    ensures Live(s, i) && Live(t, i) ==> t.entries[i] == s.entries[i]
  {
    FillWf(s, 0, 1, 0, 0);
    if op.Revoke? && Resolves(s, op.h) {
      var gone := Closure(s, Index(op.h));
      assert FreedAt(s, t, gone, i);
    }
  }

  /** The handle a call returns names the slot it filled. */
  lemma StepIssues(s: Slots, op: Op, t: Slots, out: Handle)
    requires Wf(s) && Step(s, op, t, out) && out != HANDLE_INVALID
    ensures Resolves(t, out) && !Live(s, Index(out))
  {
    FillWf(s, 0, 1, 0, 0);
    HandleRoundTrip(s.freeHead, s.entries[s.freeHead].gen);
  }

  lemma {:induction false} GenerationCountsFrees(trace: seq<Slots>, calls: seq<Call>, i: nat, j: nat, k: nat)
    requires Run(trace, calls) && j <= k < |trace| && i < |trace[j].entries|
    ensures |trace[k].entries| == |trace[j].entries|
    ensures trace[k].entries[i].gen == (trace[j].entries[i].gen + Frees(trace, i, j, k)) % GENERATIONS
    ensures Live(trace[j], i) && Frees(trace, i, j, k) == 0 ==> trace[k].entries[i] == trace[j].entries[i]
  {
    if j < k {
      GenerationCountsFrees(trace, calls, i, j, k - 1);
      RunSlot(trace, calls, i, k - 1);
      hide Run, FreedBy, Live;
      ModNext(trace[j].entries[i].gen + Frees(trace, i, j, k - 1));
      RunLive(trace, i, k - 1);
    } else {
      ReachableWf(trace, calls, j);
    }
  }

  lemma RunSlot(trace: seq<Slots>, calls: seq<Call>, i: nat, k: nat)
    requires Run(trace, calls) && k < |calls| && i < |trace[k].entries|
    ensures var s, t := trace[k], trace[k + 1];
            && |t.entries| == |s.entries|
            && t.entries[i].gen == (if FreedBy(s, t, i) then (s.entries[i].gen + 1) % GENERATIONS
                                    else s.entries[i].gen)
            && (Live(s, i) && Live(t, i) ==> t.entries[i] == s.entries[i])
  {
    ReachableWf(trace, calls, k);
    assert StepAt(trace, calls, k);
    StepSlot(trace[k], calls[k].op, trace[k + 1], calls[k].out, i);
  }

  lemma RunLive(trace: seq<Slots>, i: nat, k: nat)
    requires k + 1 < |trace|
    ensures Live(trace[k], i) && !FreedBy(trace[k], trace[k + 1], i) ==> Live(trace[k + 1], i)
  {
  }

  lemma ModNext(n: nat)
    ensures (n % GENERATIONS + 1) % GENERATIONS == (n + 1) % GENERATIONS
  {
  }

  lemma ModSame(g: nat, n: nat)
    requires g < GENERATIONS
    ensures (g + n) % GENERATIONS == g <==> n % GENERATIONS == 0
  {
  }

  /** A handle issued by call `k` resolves in a later state exactly when its slot is live there and
      was freed a multiple of 256 times in between. */
  lemma IssuedHandleResolves(trace: seq<Slots>, calls: seq<Call>, k: nat, j: nat)
    requires Run(trace, calls) && k < |calls| && k < j < |trace| && calls[k].out != HANDLE_INVALID
    ensures var h := calls[k].out;
            Resolves(trace[j], h) <==>
              Live(trace[j], Index(h)) && Frees(trace, Index(h), k + 1, j) % GENERATIONS == 0
  {
    var h := calls[k].out;
    ReachableWf(trace, calls, k);
    ReachableWf(trace, calls, k + 1);
    assert StepAt(trace, calls, k);
    StepIssues(trace[k], calls[k].op, trace[k + 1], h);
    GenerationCountsFrees(trace, calls, Index(h), k + 1, j);
    ModSame(Gen(h), Frees(trace, Index(h), k + 1, j));
  }

  /** Below 256 reuses of the slot detection is exact: the handle resolves exactly while the capability
      it was issued for has not been freed, and then to that very capability. */
  lemma HandleExactBelowWrap(trace: seq<Slots>, calls: seq<Call>, k: nat, j: nat)
    requires Run(trace, calls) && k < |calls| && k < j < |trace| && calls[k].out != HANDLE_INVALID
    requires Frees(trace, Index(calls[k].out), k + 1, j) < GENERATIONS
    ensures var h := calls[k].out;
            && (Resolves(trace[j], h) <==> Frees(trace, Index(h), k + 1, j) == 0)
            && (Resolves(trace[j], h) ==> Index(h) < |trace[k + 1].entries|
                                          && trace[j].entries[Index(h)] == trace[k + 1].entries[Index(h)])
  {
    var h := calls[k].out;
    ReachableWf(trace, calls, k);
    assert StepAt(trace, calls, k);
    StepIssues(trace[k], calls[k].op, trace[k + 1], h);
    GenerationCountsFrees(trace, calls, Index(h), k + 1, j);
    IssuedHandleResolves(trace, calls, k, j);
  }

  // ------------------------------------------------------------------ stale removal

  /** What lives in slot `i` in state `j` is what call `m` put there. */
  predicate Occupies(trace: seq<Slots>, calls: seq<Call>, m: nat, j: nat, i: nat)
    requires j < |trace| && |trace| == |calls| + 1
  {
    m < j && calls[m].out != HANDLE_INVALID && Index(calls[m].out) == i && Frees(trace, i, m + 1, j) == 0
  }

  lemma StepFills(s: Slots, op: Op, t: Slots, out: Handle, i: nat)
    requires Wf(s) && Step(s, op, t, out) && !Live(s, i) && Live(t, i)
    ensures out != HANDLE_INVALID && Index(out) == i
  {
    FillWf(s, 0, 1, 0, 0);
    RevokeOnlyFrees(s, op, t, out);
    if s.freeHead != END { HandleRoundTrip(s.freeHead, s.entries[s.freeHead].gen); }
  }

  lemma RevokeOnlyFrees(s: Slots, op: Op, t: Slots, out: Handle)
    requires Step(s, op, t, out)
    ensures op.Revoke? ==> FewerLinks(s, t)
  {
    if op.Revoke? && Resolves(s, op.h) { KilledFewer(s, t, Closure(s, Index(op.h))); }
  }

  /** A slot is live exactly while some call's capability occupies it. */
  lemma {:induction false} Occupant(trace: seq<Slots>, calls: seq<Call>, i: nat, j: nat) returns (m: nat)
    requires Run(trace, calls) && j < |trace| && Live(trace[j], i)
    ensures Occupies(trace, calls, m, j, i)
  {
    if j == 0 {
      assert false;
    } else {
      assert StepAt(trace, calls, j - 1);
      if Live(trace[j - 1], i) {
        m := Occupant(trace, calls, i, j - 1);
      } else {
        ReachableWf(trace, calls, j - 1);
        StepFills(trace[j - 1], calls[j - 1].op, trace[j], calls[j - 1].out, i);
        m := j - 1;
      }
    }
  }

  lemma {:induction false} FreesMonotone(trace: seq<Slots>, i: nat, j: nat, k: nat, l: nat)
    requires j <= k <= l < |trace|
    ensures Frees(trace, i, j, k) <= Frees(trace, i, j, l)
  {
    if k < l { FreesMonotone(trace, i, j, k, l - 1); }
  }

  /** An occupied slot holds the very entry that was put there. */
  lemma OccupantKept(trace: seq<Slots>, calls: seq<Call>, m: nat, j: nat, i: nat)
    requires Run(trace, calls) && j < |trace| && Occupies(trace, calls, m, j, i)
    ensures Live(trace[m + 1], i) && Live(trace[j], i) && trace[j].entries[i] == trace[m + 1].entries[i]
  {
    ReachableWf(trace, calls, m);
    assert StepAt(trace, calls, m);
    StepIssues(trace[m], calls[m].op, trace[m + 1], calls[m].out);
    GenerationCountsFrees(trace, calls, i, m + 1, j);
  }

  lemma OneOccupant(trace: seq<Slots>, calls: seq<Call>, m: nat, n: nat, j: nat, i: nat)
    requires Run(trace, calls) && j < |trace| && Occupies(trace, calls, m, j, i)
    requires n < j && calls[n].out != HANDLE_INVALID && Index(calls[n].out) == i
    ensures n <= m
  {
    if m < n {
      FreesMonotone(trace, i, m + 1, n, j);
      OccupantKept(trace, calls, m, n, i);
      ReachableWf(trace, calls, n);
      assert StepAt(trace, calls, n);
      StepIssues(trace[n], calls[n].op, trace[n + 1], calls[n].out);
    }
  }

  /** `remove` by a handle that call `k` returned changes nothing exactly when the slot is not live.
      Otherwise it frees one capability and leaves the other slots alone: the one call `k` put there exactly
      when the slot was not freed since, and else one that a later call put there. */
  lemma RemoveFrees(trace: seq<Slots>, calls: seq<Call>, k: nat, j: nat)
    requires Run(trace, calls) && k < |calls| && k < j < |trace| && calls[k].out != HANDLE_INVALID
    ensures var h, s := calls[k].out, trace[j];
            var i, t := Index(h), CapTable.Remove(s, h);
            && (t == s <==> !Live(s, i))
            && (forall x: nat :: x != i ==> (Live(t, x) <==> Live(s, x)) && (Live(s, x) ==> t.entries[x] == s.entries[x]))
            && (Live(s, i) ==> !Live(t, i) && exists m: nat :: Occupies(trace, calls, m, j, i) && k <= m)
            && (forall m: nat :: Occupies(trace, calls, m, j, i) ==> k <= m)
            && (Occupies(trace, calls, k, j, i) <==> Live(s, i) && Frees(trace, i, k + 1, j) == 0)
  {
    var h, s := calls[k].out, trace[j];
    var i := Index(h);
    if Live(s, i) {
      var m := Occupant(trace, calls, i, j);
      OneOccupant(trace, calls, m, k, j, i);
    }
    forall m: nat | Occupies(trace, calls, m, j, i) ensures k <= m { OneOccupant(trace, calls, m, k, j, i); }
    if Occupies(trace, calls, k, j, i) { OccupantKept(trace, calls, k, j, i); }
  }

  /** The documented promise, that a stale handle is rejected, therefore holds of `remove` exactly when the
      slot is still its own or holds nothing. */
  lemma RemoveRejectsStale(trace: seq<Slots>, calls: seq<Call>, k: nat, j: nat)
    requires Run(trace, calls) && k < |calls| && k < j < |trace| && calls[k].out != HANDLE_INVALID
    ensures var h, s := calls[k].out, trace[j];
            (forall m: nat :: m != k && Occupies(trace, calls, m, j, Index(h)) ==> Live(CapTable.Remove(s, h), Index(h)))
              <==> Frees(trace, Index(h), k + 1, j) == 0 || !Live(s, Index(h))
  {
    var h, s := calls[k].out, trace[j];
    var i := Index(h);
    RemoveFrees(trace, calls, k, j);
    forall m: nat | Occupies(trace, calls, m, j, i) ensures Live(s, i) && (Frees(trace, i, k + 1, j) == 0 ==> m == k) {
      OccupantKept(trace, calls, m, j, i);
      if Occupies(trace, calls, k, j, i) { OneOccupant(trace, calls, k, m, j, i); }
    }
    if Live(s, i) && Frees(trace, i, k + 1, j) != 0 {
      var m: nat :| Occupies(trace, calls, m, j, i) && k <= m;
      assert m != k;
    }
  }

  /** A run in which a stale handle, rejected by every lookup, frees the capability of a later call. */
  lemma StaleRemoval() returns (trace: seq<Slots>, calls: seq<Call>)
    ensures Run(trace, calls) && |calls| == 4
    ensures calls[3].op == Remove(calls[0].out) && !Resolves(trace[3], calls[0].out)
    ensures calls[2].op.Insert? && Resolves(trace[3], calls[2].out) && !Resolves(trace[4], calls[2].out)
  {
    var a, b := MakeHandle(0, 0), MakeHandle(0, 1);
    var free := Entry(END, 0, NO_PARENT, KIND_INVALID, 0);
    var s0 := Slots([free], 0, 0);
    var s1 := Slots([Entry(7, CAP_ALL, NO_PARENT, 1, 0)], END, 1);
    var s2 := Slots([free.(gen := 1)], 0, 0);
    var s3 := Slots([Entry(8, CAP_ALL, NO_PARENT, 1, 1)], END, 1);
    var s4 := Slots([free.(gen := 2)], 0, 0);
    assert s0 == Empty(1);
    assert s0.entries[0 := s1.entries[0]] == s1.entries && s1.entries[0 := s2.entries[0]] == s2.entries;
    assert s2.entries[0 := s3.entries[0]] == s3.entries && s3.entries[0 := s4.entries[0]] == s4.entries;
    assert Step(s0, Insert(7, 1, CAP_ALL), s1, a);
    assert Step(s1, Remove(a), s2, HANDLE_INVALID);
    assert Step(s2, Insert(8, 1, CAP_ALL), s3, b);
    assert Step(s3, Remove(a), s4, HANDLE_INVALID);
    calls := [Call(Insert(7, 1, CAP_ALL), a), Call(Remove(a), HANDLE_INVALID), Call(Insert(8, 1, CAP_ALL), b),
              Call(Remove(a), HANDLE_INVALID)];
    trace := [s0, s1, s2, s3, s4];
    assert StepAt(trace, calls, 0) && StepAt(trace, calls, 1) && StepAt(trace, calls, 2) && StepAt(trace, calls, 3);
  }

  // ------------------------------------------------------------------ a reachable cycle

  /** Without the removal rule a cycle is reachable: removing a capability that others derive from lets its
      slot be reused below its own descendant. Revoking either of the two slots then never returns. */
  lemma RemovedParentCycle() returns (trace: seq<Slots>, calls: seq<Call>)
    ensures Run(trace, calls) && |calls| == 4 && OnCycle(trace[4], 0)
    ensures calls[3].out != HANDLE_INVALID && Wf(trace[4])
    ensures forall fuel: nat :: RevokeIn(trace[4], calls[3].out, fuel).Deeper?
  {
    trace, calls := CycleRun();
    var s, h := trace[4], calls[3].out;
    assert DescendsIn(s, 0, 1, 1);
    ReachableWf(trace, calls, 4);
    forall fuel: nat ensures RevokeIn(s, h, fuel).Deeper? { CycleNeverReturns(s, h, fuel); }
  }

  lemma CycleRun() returns (trace: seq<Slots>, calls: seq<Call>)
    ensures Run(trace, calls) && |calls| == 4
    ensures var s := trace[4];
            && |s.entries| == 2 && Live(s, 0) && Live(s, 1) && s.entries[0].parent == 1 && s.entries[1].parent == 0
            && Resolves(s, calls[3].out) && Index(calls[3].out) == 0
  {
    var r: Rights := CAP_DERIVE;
    var a, b := MakeHandle(0, 0), MakeHandle(1, 0);
    var free := Entry(END, 0, NO_PARENT, KIND_INVALID, 0);
    var s0 := Slots([free.(obj := 1), free], 0, 0);
    var s1 := Slots([Entry(7, r, NO_PARENT, 1, 0), free], 1, 1);
    var s2 := Slots([Entry(7, r, NO_PARENT, 1, 0), Entry(7, r, 0, 1, 0)], END, 2);
    var s3 := Slots([free.(gen := 1), Entry(7, r, 0, 1, 0)], 0, 1);
    var s4 := Slots([Entry(7, r, 1, 1, 1), Entry(7, r, 0, 1, 0)], END, 2);
    assert s0 == Empty(2);
    assert s0.entries[0 := s1.entries[0]] == s1.entries;
    assert s1.entries[1 := s2.entries[1]] == s2.entries;
    assert s2.entries[0 := s3.entries[0]] == s3.entries;
    assert s3.entries[0 := s4.entries[0]] == s4.entries;
    assert Step(s0, Insert(7, 1, r), s1, a);
    assert Step(s1, Derive(a, r), s2, b);
    assert Step(s2, Remove(a), s3, HANDLE_INVALID);
    assert Step(s3, Derive(b, r), s4, MakeHandle(0, 1));
    calls := [Call(Insert(7, 1, r), a), Call(Derive(a, r), b), Call(Remove(a), HANDLE_INVALID),
                  Call(Derive(b, r), MakeHandle(0, 1))];
    trace := [s0, s1, s2, s3, s4];
    assert StepAt(trace, calls, 0) && StepAt(trace, calls, 1) && StepAt(trace, calls, 2) && StepAt(trace, calls, 3);
    assert Run(trace, calls);
  }
}

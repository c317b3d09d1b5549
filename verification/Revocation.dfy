/** Recursive revocation (kernel/cap/table.cpp, `revoke_unlocked`): when the recursion ends, and what it frees. */
module Revocation {
  import opened Handles
  import opened CapTable
  import opened Derivation

  /** The old free list is the tail of the new one. */
  predicate Pushed(s: Slots, t: Slots) {
    && |FreeOf(s)| <= |FreeOf(t)|
    && FreeOf(t)[|FreeOf(t)| - |FreeOf(s)|..] == FreeOf(s)
  }

  /** `t` is `s` with exactly the live slots `gone` freed, each under its next generation. */
  ghost predicate Killed(s: Slots, t: Slots, gone: set<nat>) {
    Freed(s, t, gone) && Wf(t) && Pushed(s, t)
  }

  predicate FreedAt(s: Slots, t: Slots, gone: set<nat>, x: nat)
    requires x < |s.entries| == |t.entries|
  {
    t.entries[x] == if x in gone
                    then Entry(t.entries[x].obj, 0, NO_PARENT, KIND_INVALID, (s.entries[x].gen + 1) % GENERATIONS)
                    else s.entries[x]
  }

  ghost predicate Freed(s: Slots, t: Slots, gone: set<nat>) {
    && |t.entries| == |s.entries|
    && gone <= LiveSet(s)
    && (forall x: nat :: x < |s.entries| ==> FreedAt(s, t, gone, x))
    && t.count == s.count - |gone|
  }

  lemma KilledNone(s: Slots)
    requires Wf(s)
    ensures Killed(s, s, {})
  {
  }

  lemma KilledOne(s: Slots, i: nat)
    requires Wf(s) && Live(s, i)
    ensures Killed(s, Release(s, i, NO_PARENT), {i})
  {
    ReleaseWf(s, i, NO_PARENT);
  }

  lemma KilledThen(s: Slots, t: Slots, u: Slots, a: set<nat>, b: set<nat>)
    requires Killed(s, t, a) && Killed(t, u, b)
    ensures a !! b && Killed(s, u, a + b)
  {
    FreedThen(s, t, u, a, b);
  }

  lemma FreedThen(s: Slots, t: Slots, u: Slots, a: set<nat>, b: set<nat>)
    requires Freed(s, t, a) && Freed(t, u, b)
    ensures a !! b && Freed(s, u, a + b)
  {
    forall x | x in b ensures x !in a && Live(s, x) {
      assert Live(t, x) && FreedAt(s, t, a, x);
    }
    forall x: nat | x < |s.entries| ensures FreedAt(s, u, a + b, x) {
      assert FreedAt(s, t, a, x) && FreedAt(t, u, b, x);
    }
    assert |a + b| == |a| + |b|;
  }

  // ------------------------------------------------------------- the recursion

  /** How a call ends whose recursion may go `fuel` levels down: it returns, or it would have to go deeper. */
  datatype Outcome = Returns(table: Slots, revoked: nat) | Deeper

  function RevokeIn(s: Slots, h: Handle, fuel: nat): (o: Outcome)
    requires Bounded(s)
    ensures o.Returns? ==> Bounded(o.table) && |o.table.entries| == |s.entries|
    decreases fuel, 0
  {
    if !Resolves(s, h) then Returns(s, 0)
    else if fuel == 0 then Deeper
    else match ChildrenIn(s, Index(h), |s.entries|, fuel - 1)
         case Returns(t, revoked) => Returns(Release(t, Index(h), NO_PARENT), revoked + 1)
         case Deeper => Deeper
  }

  /** The loop over the first `k` slots: each one that is then a child of `p` is revoked in turn. */
  function ChildrenIn(s: Slots, p: nat, k: nat, fuel: nat): (o: Outcome)
    requires Bounded(s) && k <= |s.entries|
    ensures o.Returns? ==> Bounded(o.table) && |o.table.entries| == |s.entries|
    decreases fuel, k
  {
    if k == 0 then Returns(s, 0)
    else match ChildrenIn(s, p, k - 1, fuel)
         case Deeper => Deeper
         case Returns(t, revoked) =>
           if !Child(t, k - 1, p) then Returns(t, revoked)
           else match RevokeIn(t, MakeHandle(k - 1, t.entries[k - 1].gen), fuel)
                case Returns(u, more) => Returns(u, revoked + more)
                case Deeper => Deeper
  }

  lemma {:induction false} ChildrenBefore(s: Slots, p: nat, k: nat, n: nat, fuel: nat)
    requires Bounded(s) && k <= n <= |s.entries| && ChildrenIn(s, p, n, fuel).Returns?
    ensures ChildrenIn(s, p, k, fuel).Returns?
    decreases n
  {
    if k < n { ChildrenBefore(s, p, k, n - 1, fuel); }
  }

  /** A call that returns does the same however much deeper it might have gone. */
  lemma {:induction false} RevokeDeeper(s: Slots, h: Handle, fuel: nat, more: nat)
    requires Bounded(s) && fuel <= more && RevokeIn(s, h, fuel).Returns?
    ensures RevokeIn(s, h, more) == RevokeIn(s, h, fuel)
    decreases fuel, 0
  {
    if Resolves(s, h) { ChildrenDeeper(s, Index(h), |s.entries|, fuel - 1, more - 1); }
  }

  lemma {:induction false} ChildrenDeeper(s: Slots, p: nat, k: nat, fuel: nat, more: nat)
    requires Bounded(s) && k <= |s.entries| && fuel <= more && ChildrenIn(s, p, k, fuel).Returns?
    ensures ChildrenIn(s, p, k, more) == ChildrenIn(s, p, k, fuel)
    decreases fuel, k
  {
    if k > 0 {
      ChildrenDeeper(s, p, k - 1, fuel, more);
      var t := ChildrenIn(s, p, k - 1, fuel).table;
      if Child(t, k - 1, p) { RevokeDeeper(t, MakeHandle(k - 1, t.entries[k - 1].gen), fuel, more); }
    }
  }

  // ------------------------------------------------------------- subtrees

  /** The subtrees of distinct siblings are disjoint below a slot that has a level. */
  lemma {:induction false} SiblingsDisjoint(s: Slots, level: seq<int>, p: nat, c: nat, d: nat, x: nat, n: nat)
    requires Levels(s, level) && Live(s, p) && level[p] >= 0
    requires Child(s, c, p) && Child(s, d, p) && c != d && DescendsIn(s, c, x, n)
    ensures !Descends(s, d, x)
    decreases n
  {
    assert LevelAt(s, level, c) && LevelAt(s, level, d);
    DescendsStep(s, d, x);
    if x == c {
      if Descends(s, d, p) { DescendsLevel(s, level, d, p); }
    } else if x == d {
      assert DescendsIn(s, c, p, n - 1);
      DescendsLevel(s, level, c, p);
    } else {
      SiblingsDisjoint(s, level, p, c, d, s.entries[x].parent, n - 1);
    }
  }

  /** A slot is below `a` when it is `a` or lies below some child of `a`. */
  lemma {:induction false} DescendsViaChild(s: Slots, a: nat, x: nat, n: nat) returns (c: nat)
    requires DescendsIn(s, a, x, n) && x != a
    ensures Child(s, c, a) && Descends(s, c, x)
    decreases n
  {
    var q := s.entries[x].parent;
    if q == a { c := x; } else { c := DescendsViaChild(s, a, q, n - 1); }
    DescendsStep(s, c, x);
  }

  lemma DescendsFromChild(s: Slots, a: nat, c: nat, x: nat)
    requires Child(s, c, a) && Live(s, a) && Descends(s, c, x)
    ensures Descends(s, a, x)
  {
    DescendsStep(s, a, a);
    DescendsStep(s, a, c);
    DescendsThen(s, a, c, x);
  }

  // ----------------------------------------------------- freeing a set of slots

  lemma KilledFewer(s: Slots, t: Slots, gone: set<nat>)
    requires Killed(s, t, gone)
    ensures FewerLinks(s, t)
  {
    forall i: nat | Live(t, i) ensures Live(s, i) && t.entries[i].parent == s.entries[i].parent {
      assert FreedAt(s, t, gone, i);
    }
  }

  lemma LevelsFewer(s: Slots, t: Slots, level: seq<int>)
    requires Levels(s, level) && FewerLinks(s, t) && |t.entries| == |s.entries|
    ensures Levels(t, level)
  {
    forall i: nat | i < |t.entries| ensures LevelAt(t, level, i) { assert LevelAt(s, level, i); }
  }

  lemma {:induction false} DescendsAfterKill(s: Slots, t: Slots, gone: set<nat>, c: nat, x: nat, n: nat)
    requires Killed(s, t, gone) && gone !! Closure(s, c) && DescendsIn(s, c, x, n)
    ensures DescendsIn(t, c, x, n)
    decreases n
  {
    assert x in Closure(s, c) && FreedAt(s, t, gone, x);
    if x != c { DescendsAfterKill(s, t, gone, c, s.entries[x].parent, n - 1); }
  }

  lemma ClosureAfterKill(s: Slots, t: Slots, gone: set<nat>, c: nat)
    requires Killed(s, t, gone) && gone !! Closure(s, c)
    ensures Closure(t, c) == Closure(s, c)
  {
    KilledFewer(s, t, gone);
    forall x: nat ensures Descends(t, c, x) <==> Descends(s, c, x) {
      if Descends(t, c, x) { DescendsMore(s, t, c, x); }
      if n: nat :| DescendsIn(s, c, x, n) { DescendsAfterKill(s, t, gone, c, x, n); }
    }
  }

  /** The slots below the children of `p` with index under `n`. */
  ghost function BelowChildren(s: Slots, p: nat, n: nat): set<nat> {
    set x, c | 0 <= x < |s.entries| && 0 <= c < n && Child(s, c, p) && Descends(s, c, x) :: x
  }

  lemma NotBelowItself(s: Slots, level: seq<int>, p: nat, n: nat)
    requires Levels(s, level) && Live(s, p) && level[p] >= 0
    ensures p !in BelowChildren(s, p, n)
  {
    if p in BelowChildren(s, p, n) {
      var c :| 0 <= c < n && Child(s, c, p) && Descends(s, c, p);
      assert LevelAt(s, level, c);
      DescendsLevel(s, level, c, p);
    }
  }

  lemma NextChildDisjoint(s: Slots, level: seq<int>, p: nat, n: nat)
    requires Levels(s, level) && Live(s, p) && level[p] >= 0 && Child(s, n, p)
    ensures BelowChildren(s, p, n) !! Closure(s, n)
    ensures n !in BelowChildren(s, p, n)
    ensures BelowChildren(s, p, n + 1) == BelowChildren(s, p, n) + Closure(s, n)
  {
    forall x | x in BelowChildren(s, p, n) ensures x !in Closure(s, n) {
      var c :| 0 <= c < n && Child(s, c, p) && Descends(s, c, x);
      var m: nat :| DescendsIn(s, c, x, m);
      SiblingsDisjoint(s, level, p, c, n, x, m);
    }
    DescendsStep(s, n, n);
    assert n in Closure(s, n);
  }

  lemma ClosureIsChildren(s: Slots, p: nat)
    requires Live(s, p)
    ensures Closure(s, p) == BelowChildren(s, p, |s.entries|) + {p}
  {
    DescendsStep(s, p, p);
    forall x | x in Closure(s, p) && x != p ensures x in BelowChildren(s, p, |s.entries|) {
      var n: nat :| DescendsIn(s, p, x, n);
      var c := DescendsViaChild(s, p, x, n);
    }
    forall x | x in BelowChildren(s, p, |s.entries|) ensures x in Closure(s, p) {
      var c :| 0 <= c < |s.entries| && Child(s, c, p) && Descends(s, c, x);
      DescendsFromChild(s, p, c, x);
    }
  }

  // ------------------------------------------------- the loop over the mutating array

  /** After the first `n` slots were looked at: the subtrees of `p`'s children among them are gone. */
  ghost predicate Swept(s: Slots, o: Outcome, p: nat, n: nat) {
    o.Returns? && Killed(s, o.table, BelowChildren(s, p, n)) && o.revoked == |BelowChildren(s, p, n)|
  }

  lemma SweptChild(s: Slots, t: Slots, level: seq<int>, p: nat, i: nat)
    requires Wf(s) && Levels(s, level) && Live(s, p) && level[p] >= 0
    requires Killed(s, t, BelowChildren(s, p, i)) && Child(t, i, p)
    ensures Wf(t) && Levels(t, level) && level[p] < level[i]
    ensures Resolves(t, MakeHandle(i, t.entries[i].gen)) && Index(MakeHandle(i, t.entries[i].gen)) == i
    ensures Child(s, i, p) && Closure(t, i) == Closure(s, i)
  {
    var gone := BelowChildren(s, p, i);
    HandleRoundTrip(i, t.entries[i].gen);
    KilledFewer(s, t, gone);
    LevelsFewer(s, t, level);
    assert LevelAt(s, level, i) && FreedAt(s, t, gone, i);
    NextChildDisjoint(s, level, p, i);
    ClosureAfterKill(s, t, gone, i);
  }

  lemma SweepSkip(s: Slots, t: Slots, level: seq<int>, p: nat, i: nat)
    requires Levels(s, level) && Live(s, p) && level[p] >= 0 && i < |s.entries|
    requires Killed(s, t, BelowChildren(s, p, i)) && !Child(t, i, p)
    ensures BelowChildren(s, p, i + 1) == BelowChildren(s, p, i)
  {
    assert FreedAt(s, t, BelowChildren(s, p, i), i);
    if Child(s, i, p) { NextChildDisjoint(s, level, p, i); }
  }

  /** Revoking `h` frees the whole derivation closure of its slot and nothing else. */
  ghost predicate Revoked(s: Slots, t: Slots, h: Handle) {
    if Resolves(s, h) then Killed(s, t, Closure(s, Index(h))) else t == s
  }

  ghost function RevokedCount(s: Slots, h: Handle): nat {
    if Resolves(s, h) then |Closure(s, Index(h))| else 0
  }

  ghost predicate RevokedBy(s: Slots, o: Outcome, h: Handle) {
    o.Returns? && Revoked(s, o.table, h) && o.revoked == RevokedCount(s, h)
  }

  predicate AtMost(level: seq<int>, top: int) {
    forall i :: 0 <= i < |level| ==> level[i] <= top
  }

  lemma {:induction false} LevelledRevokes(s: Slots, h: Handle, level: seq<int>, top: int, fuel: nat)
    requires Wf(s) && Levels(s, level) && AtMost(level, top)
    requires Resolves(s, h) ==> level[Index(h)] >= 0 && top - level[Index(h)] < fuel
    ensures RevokedBy(s, RevokeIn(s, h, fuel), h)
    decreases fuel, 0
  {
    if Resolves(s, h) {
      var p := Index(h);
      LevelledSweeps(s, p, |s.entries|, level, top, fuel - 1);
      var o := ChildrenIn(s, p, |s.entries|, fuel - 1);
      var gone := BelowChildren(s, p, |s.entries|);
      NotBelowItself(s, level, p, |s.entries|);
      ClosureIsChildren(s, p);
      assert FreedAt(s, o.table, gone, p);
      KilledOne(o.table, p);
      KilledThen(s, o.table, Release(o.table, p, NO_PARENT), gone, {p});
    }
  }

  lemma {:induction false} LevelledSweeps(s: Slots, p: nat, k: nat, level: seq<int>, top: int, fuel: nat)
    requires Wf(s) && Levels(s, level) && AtMost(level, top) && Live(s, p)
    requires level[p] >= 0 && top - level[p] <= fuel && k <= |s.entries|
    ensures Swept(s, ChildrenIn(s, p, k, fuel), p, k)
    decreases fuel, k
  {
    if k == 0 {
      KilledNone(s);
      assert BelowChildren(s, p, 0) == {};
    } else {
      LevelledSweeps(s, p, k - 1, level, top, fuel);
      LevelledSweep(s, ChildrenIn(s, p, k - 1, fuel).table, p, k, level, top, fuel);
    }
  }

  lemma {:induction false} LevelledSweep(s: Slots, t: Slots, p: nat, k: nat, level: seq<int>, top: int, fuel: nat)
    requires Wf(s) && Levels(s, level) && AtMost(level, top) && Live(s, p)
    requires level[p] >= 0 && top - level[p] <= fuel && 0 < k <= |s.entries|
    requires Swept(s, ChildrenIn(s, p, k - 1, fuel), p, k - 1) && t == ChildrenIn(s, p, k - 1, fuel).table
    ensures Swept(s, ChildrenIn(s, p, k, fuel), p, k)
    decreases fuel, k, 0
  {
    hide Killed, Closure, BelowChildren, Levels;
    if Child(t, k - 1, p) {
      var h := MakeHandle(k - 1, t.entries[k - 1].gen);
      SweptChild(s, t, level, p, k - 1);
      LevelledRevokes(t, h, level, top, fuel);
      NextChildDisjoint(s, level, p, k - 1);
      KilledThen(s, t, RevokeIn(t, h, fuel).table, BelowChildren(s, p, k - 1), Closure(s, k - 1));
    } else {
      SweepSkip(s, t, level, p, k - 1);
    }
  }

  // ------------------------------------------------------------------- termination

  /** A set of slots that only point at each other, each of them pointed at. */
  ghost predicate Knot(s: Slots, knot: set<nat>) {
    forall x: nat :: KnotAt(s, knot, x)
  }

  ghost predicate KnotAt(s: Slots, knot: set<nat>, x: nat) {
    x in knot ==> Live(s, x) && s.entries[x].parent in knot && exists c: nat :: c in knot && Child(s, c, x)
  }

  predicate KeepsAll(s: Slots, t: Slots, knot: set<nat>)
    requires |s.entries| == |t.entries|
  {
    forall x: nat :: x in knot && x < |s.entries| ==> t.entries[x] == s.entries[x]
  }

  /** However deep it may go, a call on a slot of a knot does not return, and no other call touches it. */
  lemma {:induction false} KnotRevoke(s: Slots, h: Handle, knot: set<nat>, fuel: nat)
    requires Bounded(s) && Knot(s, knot)
    ensures var o := RevokeIn(s, h, fuel);
            o.Returns? ==> KeepsAll(s, o.table, knot) && !(Resolves(s, h) && Index(h) in knot)
    decreases fuel, 0
  {
    if Resolves(s, h) && fuel > 0 {
      KnotChildren(s, Index(h), knot, |s.entries|, fuel - 1);
      if Index(h) in knot { assert KnotAt(s, knot, Index(h)); }
    }
  }

  lemma {:induction false} KnotChildren(s: Slots, p: nat, knot: set<nat>, k: nat, fuel: nat)
    requires Bounded(s) && Knot(s, knot) && k <= |s.entries|
    ensures var o := ChildrenIn(s, p, k, fuel);
            o.Returns? ==> KeepsAll(s, o.table, knot) && forall c: nat :: c < k && c in knot ==> !Child(s, c, p)
    decreases fuel, k
  {
    if k > 0 {
      KnotChildren(s, p, knot, k - 1, fuel);
      var o := ChildrenIn(s, p, k - 1, fuel);
      if o.Returns? && Child(o.table, k - 1, p) {
        var h := MakeHandle(k - 1, o.table.entries[k - 1].gen);
        HandleRoundTrip(k - 1, o.table.entries[k - 1].gen);
        KnotKept(s, o.table, knot);
        KnotRevoke(o.table, h, knot, fuel);
      }
    }
  }

  lemma KnotKept(s: Slots, t: Slots, knot: set<nat>)
    requires Knot(s, knot) && |s.entries| == |t.entries| && KeepsAll(s, t, knot)
    ensures Knot(t, knot)
  {
    forall x: nat ensures KnotAt(t, knot, x) {
      assert KnotAt(s, knot, x);
      if x in knot {
        var c: nat :| c in knot && Child(s, c, x);
        assert Child(t, c, x);
      }
    }
  }

  /** The slots between `a` and itself on a cycle. */
  lemma CycleKnot(s: Slots, a: nat) returns (knot: set<nat>)
    requires OnCycle(s, a)
    ensures a in knot && Knot(s, knot)
  {
    knot := set x | 0 <= x < |s.entries| && Descends(s, a, x) && Descends(s, x, a);
    DescendsStep(s, a, a);
    forall x: nat ensures KnotAt(s, knot, x) {
      if x in knot {
        KnotUp(s, a, x);
        var c := KnotDown(s, a, x);
        DescendsStep(s, a, x);
      }
    }
  }

  lemma KnotUp(s: Slots, a: nat, x: nat)
    requires OnCycle(s, a) && Descends(s, a, x) && Descends(s, x, a)
    ensures var q := s.entries[x].parent; Descends(s, a, q) && Descends(s, q, a) && q < |s.entries|
  {
    var q := s.entries[x].parent;
    DescendsStep(s, a, x);
    DescendsStep(s, a, q);
    DescendsStep(s, q, q);
    DescendsStep(s, q, x);
    DescendsThen(s, q, x, a);
  }

  lemma KnotDown(s: Slots, a: nat, x: nat) returns (c: nat)
    requires OnCycle(s, a) && Descends(s, a, x) && Descends(s, x, a)
    ensures Child(s, c, x) && Descends(s, a, c) && Descends(s, c, a) && c < |s.entries|
  {
    var top := s.entries[a].parent;
    DescendsThen(s, x, a, top);
    if top == x {
      c := a;
      DescendsStep(s, a, a);
    } else {
      var n: nat :| DescendsIn(s, x, top, n);
      c := DescendsViaChild(s, x, top, n);
      DescendsStep(s, c, a);
      DescendsStep(s, a, c);
    }
  }

  lemma OffCycleRevokes(s: Slots, h: Handle) returns (fuel: nat)
    requires Wf(s) && !(Resolves(s, h) && OnCycle(s, Index(h)))
    ensures RevokedBy(s, RevokeIn(s, h, fuel), h)
  {
    fuel := 0;
    if Resolves(s, h) {
      OffCycleHasLevels(s, Index(h));
      var level: seq<int> :| Levels(s, level) && level[Index(h)] >= 0;
      fuel := Top(level) + 1;
      LevelledRevokes(s, h, level, Top(level), fuel);
    }
  }

  lemma CycleNeverReturns(s: Slots, h: Handle, fuel: nat)
    requires Bounded(s) && Resolves(s, h) && OnCycle(s, Index(h))
    ensures RevokeIn(s, h, fuel).Deeper?
  {
    var knot := CycleKnot(s, Index(h));
    KnotRevoke(s, h, knot, fuel);
  }

  /** Revocation returns exactly when the handle does not resolve to a slot on a cycle of parent links; it
      then frees exactly what descends from that slot and reports how many slots that were. */
  lemma RevokeReturns(s: Slots, h: Handle)
    requires Wf(s)
    ensures (exists fuel: nat :: RevokeIn(s, h, fuel).Returns?) <==> !(Resolves(s, h) && OnCycle(s, Index(h)))
    ensures forall fuel: nat :: RevokeIn(s, h, fuel).Returns? ==> RevokedBy(s, RevokeIn(s, h, fuel), h)
  {
    if Resolves(s, h) && OnCycle(s, Index(h)) {
      forall fuel: nat ensures RevokeIn(s, h, fuel).Deeper? { CycleNeverReturns(s, h, fuel); }
    } else {
      var enough := OffCycleRevokes(s, h);
      hide RevokeIn, Revoked;
      assert RevokeIn(s, h, enough).Returns?;
      forall fuel: nat | RevokeIn(s, h, fuel).Returns? ensures RevokedBy(s, RevokeIn(s, h, fuel), h) {
        if fuel <= enough { RevokeDeeper(s, h, fuel, enough); } else { RevokeDeeper(s, h, enough, fuel); }
      }
    }
  }

  ghost function Top(level: seq<int>): (top: nat)
    ensures AtMost(level, top)
  {
    if level == [] then 0 else
    var t := Top(level[..|level| - 1]);
    if level[|level| - 1] > t then level[|level| - 1] else t
  }

  // ----------------------------------------------------------------- what is kept

  lemma RevokeAcyclic(s: Slots, t: Slots, h: Handle)
    requires Acyclic(s) && Revoked(s, t, h)
    ensures Acyclic(t)
  {
    if Resolves(s, h) { KilledFewer(s, t, Closure(s, Index(h))); }
    AcyclicFewer(s, t);
  }

  lemma ClosureDownClosed(s: Slots, a: nat, x: nat)
    requires Live(s, x) && s.entries[x].parent in Closure(s, a)
    ensures x in Closure(s, a)
  {
    DescendsStep(s, a, x);
  }

  lemma RevokeForest(s: Slots, t: Slots, h: Handle)
    requires Wf(s) && Forest(s) && Revoked(s, t, h)
    ensures Wf(t) && Forest(t)
  {
    var rank: seq<nat> :| Ranked(s, rank);
    if Resolves(s, h) {
      var gone := Closure(s, Index(h));
      forall i: nat | i < |t.entries| ensures RankedAt(t, rank, i) {
        assert RankedAt(s, rank, i) && FreedAt(s, t, gone, i);
        if Live(t, i) && s.entries[i].parent != NO_PARENT {
          assert FreedAt(s, t, gone, s.entries[i].parent);
          if s.entries[i].parent in gone { ClosureDownClosed(s, Index(h), i); }
        }
      }
      assert Ranked(t, rank);
    }
  }
}

/** The parent links of a capability table: which slots descend from which, when the links cycle, and what
    each call does to them (kernel/cap/table.cpp). */
module Derivation {
  import opened Handles
  import opened CapTable

  predicate Child(s: Slots, c: nat, p: nat) {
    Live(s, c) && s.entries[c].parent == p
  }

  /** `a` is met going up from `x`, after at most `n` links. */
  predicate DescendsIn(s: Slots, a: nat, x: nat, n: nat)
    decreases n
  {
    Live(s, x) && (x == a || (n > 0 && DescendsIn(s, a, s.entries[x].parent, n - 1)))
  }

  /** The reflexive and transitive closure of "derived from". */
  ghost predicate Descends(s: Slots, a: nat, x: nat) {
    exists n: nat :: DescendsIn(s, a, x, n)
  }

  lemma DescendsStep(s: Slots, a: nat, x: nat)
    ensures Descends(s, a, x) <==> Live(s, x) && (x == a || Descends(s, a, s.entries[x].parent))
  {
    if n: nat :| DescendsIn(s, a, x, n) {
      if x != a { assert DescendsIn(s, a, s.entries[x].parent, n - 1); }
    }
    if Live(s, x) {
      if x == a {
        assert DescendsIn(s, a, x, 0);
      } else if n: nat :| DescendsIn(s, a, s.entries[x].parent, n) {
        assert DescendsIn(s, a, x, n + 1);
      }
    }
  }

  lemma {:induction false} DescendsThen(s: Slots, a: nat, b: nat, x: nat)
    requires Descends(s, a, b) && Descends(s, b, x)
    ensures Descends(s, a, x)
  {
    var n: nat :| DescendsIn(s, b, x, n);
    DescendsInThen(s, a, b, x, n);
  }

  lemma {:induction false} DescendsInThen(s: Slots, a: nat, b: nat, x: nat, n: nat)
    requires Descends(s, a, b) && DescendsIn(s, b, x, n)
    ensures Descends(s, a, x)
    decreases n
  {
    DescendsStep(s, a, x);
    if x != b { DescendsInThen(s, a, b, s.entries[x].parent, n - 1); }
  }

  ghost function Closure(s: Slots, a: nat): set<nat> {
    set x | 0 <= x < |s.entries| && Descends(s, a, x)
  }

  /** Going up from `a` leads back to `a`. */
  ghost predicate OnCycle(s: Slots, a: nat) {
    Live(s, a) && Descends(s, a, s.entries[a].parent)
  }

  ghost predicate Acyclic(s: Slots) {
    forall a: nat :: !OnCycle(s, a)
  }

  // ------------------------------------------------------------ depth below a slot

  /** A level for some slots, negative for the others: the children of a slot with a level lie deeper. */
  predicate LevelAt(s: Slots, level: seq<int>, i: nat)
    requires |level| == |s.entries|
  {
    Live(s, i) && Live(s, s.entries[i].parent) && level[s.entries[i].parent] >= 0 ==> level[s.entries[i].parent] < level[i]
  }

  predicate Levels(s: Slots, level: seq<int>) {
    && |level| == |s.entries|
    && forall i: nat :: i < |s.entries| ==> LevelAt(s, level, i)
  }

  lemma {:induction false} BelowLevel(s: Slots, level: seq<int>, a: nat, x: nat, n: nat)
    requires Levels(s, level) && DescendsIn(s, a, x, n) && a < |level| && level[a] >= 0
    ensures x == a || level[a] < level[x]
    decreases n
  {
    if x != a {
      BelowLevel(s, level, a, s.entries[x].parent, n - 1);
      assert LevelAt(s, level, x);
    }
  }

  lemma DescendsLevel(s: Slots, level: seq<int>, a: nat, x: nat)
    requires Levels(s, level) && Descends(s, a, x) && a < |level| && level[a] >= 0
    ensures Live(s, x) && (x == a || level[a] < level[x])
  {
    var n: nat :| DescendsIn(s, a, x, n);
    BelowLevel(s, level, a, x, n);
  }

  /** Links from `x` up to `a`. */
  function Depth(s: Slots, a: nat, x: nat, n: nat): nat
    requires DescendsIn(s, a, x, n)
    decreases n
  {
    if x == a then 0 else 1 + Depth(s, a, s.entries[x].parent, n - 1)
  }

  lemma {:induction false} DepthIs(s: Slots, a: nat, x: nat, n: nat, m: nat)
    requires DescendsIn(s, a, x, n) && DescendsIn(s, a, x, m)
    ensures Depth(s, a, x, n) == Depth(s, a, x, m)
    decreases n
  {
    if x != a { DepthIs(s, a, s.entries[x].parent, n - 1, m - 1); }
  }

  ghost function DepthOf(s: Slots, a: nat, x: nat): nat
    requires Descends(s, a, x)
  {
    var n: nat :| DescendsIn(s, a, x, n);
    Depth(s, a, x, n)
  }

  lemma DepthStep(s: Slots, a: nat, x: nat)
    requires Descends(s, a, x) && x != a
    ensures Live(s, x) && Descends(s, a, s.entries[x].parent)
    ensures DepthOf(s, a, x) == 1 + DepthOf(s, a, s.entries[x].parent)
  {
    DescendsStep(s, a, x);
    var n: nat :| DescendsIn(s, a, x, n) && DepthOf(s, a, x) == Depth(s, a, x, n);
    var m: nat :| DescendsIn(s, a, s.entries[x].parent, m) && DepthOf(s, a, s.entries[x].parent) == Depth(s, a, s.entries[x].parent, m);
    assert Depth(s, a, x, n) == 1 + Depth(s, a, s.entries[x].parent, n - 1);
    DepthIs(s, a, s.entries[x].parent, n - 1, m);
  }

  /** A slot is off every cycle exactly when its descendants have levels. */
  lemma OffCycleHasLevels(s: Slots, a: nat)
    requires Live(s, a)
    ensures !OnCycle(s, a) <==> exists level: seq<int> :: Levels(s, level) && level[a] >= 0
  {
    if !OnCycle(s, a) {
      var level: seq<int> := seq(|s.entries|, x requires 0 <= x < |s.entries| => if Descends(s, a, x) then DepthOf(s, a, x) else -1);
      forall i: nat | i < |s.entries| ensures LevelAt(s, level, i) {
        DescendsStep(s, a, i);
        if Descends(s, a, i) && i != a { DepthStep(s, a, i); }
      }
      DescendsStep(s, a, a);
      assert Levels(s, level) && level[a] >= 0;
    }
    if level: seq<int> :| Levels(s, level) && level[a] >= 0 {
      if OnCycle(s, a) {
        DescendsLevel(s, level, a, s.entries[a].parent);
        assert LevelAt(s, level, a);
      }
    }
  }

  // --------------------------------------------------------- what calls do to cycles

  /** Every link of `t` is a link of `s`. */
  ghost predicate FewerLinks(s: Slots, t: Slots) {
    forall i: nat :: Live(t, i) ==> Live(s, i) && t.entries[i].parent == s.entries[i].parent
  }

  lemma {:induction false} DescendsInMore(s: Slots, t: Slots, a: nat, x: nat, n: nat)
    requires FewerLinks(s, t) && DescendsIn(t, a, x, n)
    ensures DescendsIn(s, a, x, n)
    decreases n
  {
    if x != a { DescendsInMore(s, t, a, s.entries[x].parent, n - 1); }
  }

  lemma DescendsMore(s: Slots, t: Slots, a: nat, x: nat)
    requires FewerLinks(s, t) && Descends(t, a, x)
    ensures Descends(s, a, x)
  {
    var n: nat :| DescendsIn(t, a, x, n);
    DescendsInMore(s, t, a, x, n);
  }

  lemma AcyclicFewer(s: Slots, t: Slots)
    requires FewerLinks(s, t) && Acyclic(s)
    ensures Acyclic(t)
  {
    forall a: nat ensures !OnCycle(t, a) {
      if OnCycle(t, a) {
        DescendsMore(s, t, a, t.entries[a].parent);
        assert OnCycle(s, a);
      }
    }
  }

  /** No removal closes a cycle, whatever derives from the removed capability. */
  lemma RemoveAcyclic(s: Slots, h: Handle)
    requires Acyclic(s)
    ensures Acyclic(Remove(s, h))
  {
    AcyclicFewer(s, Remove(s, h));
  }

  /** `t` is `s` with the free slot `f` filled below `p`. */
  predicate FilledBelow(s: Slots, t: Slots, f: nat, p: nat) {
    && f < |s.entries| == |t.entries| && !Live(s, f) && Live(t, f) && t.entries[f].parent == p
    && forall i: nat :: i < |s.entries| && i != f ==> t.entries[i] == s.entries[i]
  }

  /** Going up in `t` without meeting `f` is going up in `s`. */
  lemma {:induction false} AvoidsFilled(s: Slots, t: Slots, f: nat, p: nat, a: nat, x: nat, n: nat)
    requires FilledBelow(s, t, f, p) && DescendsIn(t, a, x, n) && a != f
    ensures Descends(s, a, x) || (Descends(t, f, x) && Descends(t, a, p))
    decreases n
  {
    DescendsStep(s, a, x);
    DescendsStep(t, f, x);
    if x == f {
      assert DescendsIn(t, a, p, n - 1);
    } else if x != a {
      AvoidsFilled(s, t, f, p, a, s.entries[x].parent, n - 1);
    }
  }

  /** Below `f` in `t` are the orphans that still name `f` as their parent, and what descends from them. */
  lemma {:induction false} BelowFilled(s: Slots, t: Slots, f: nat, p: nat, x: nat, n: nat) returns (o: nat)
    requires FilledBelow(s, t, f, p) && DescendsIn(t, f, x, n) && x != f
    ensures Child(s, o, f) && Descends(s, o, x)
    decreases n
  {
    var q := s.entries[x].parent;
    if q == f { o := x; } else { o := BelowFilled(s, t, f, p, q, n - 1); }
    DescendsStep(s, o, x);
  }

  /** A fill closes a cycle exactly when the new parent already descends from an orphan of the slot. */
  lemma FillCycle(s: Slots, t: Slots, f: nat, p: nat)
    requires FilledBelow(s, t, f, p) && p != f
    ensures OnCycle(t, f) <==> exists o: nat :: Child(s, o, f) && Descends(s, o, p)
  {
    if OnCycle(t, f) {
      var n: nat :| DescendsIn(t, f, p, n);
      var o := BelowFilled(s, t, f, p, p, n);
    }
    if o: nat :| Child(s, o, f) && Descends(s, o, p) {
      DescendsMore(t, s, o, p);
      DescendsStep(t, f, f);
      DescendsStep(t, f, o);
      DescendsThen(t, f, o, p);
    }
  }

  lemma FillAcyclic(s: Slots, t: Slots, f: nat, p: nat)
    requires FilledBelow(s, t, f, p) && p != f
    ensures Acyclic(t) <==> Acyclic(s) && !exists o: nat :: Child(s, o, f) && Descends(s, o, p)
  {
    FillCycle(s, t, f, p);
    if Acyclic(t) { AcyclicFewer(t, s); }
    if Acyclic(s) && !OnCycle(t, f) {
      forall x: nat ensures !OnCycle(t, x) {
        if OnCycle(t, x) && x != f {
          var n: nat :| DescendsIn(t, x, t.entries[x].parent, n);
          AvoidsFilled(s, t, f, p, x, t.entries[x].parent, n);
          assert !OnCycle(s, x);
          DescendsStep(t, f, x);
          DescendsThen(t, f, x, p);
          assert false;
        }
      }
    }
  }

  /** The handle's slot descends from an orphan of the slot that `derive` is about to fill. */
  ghost predicate ClosesCycle(s: Slots, h: Handle) {
    exists o: nat :: Child(s, o, s.freeHead) && Descends(s, o, Index(h))
  }

  /** A successful derive keeps the links acyclic exactly when its source descends from no orphan of the
      slot it fills. */
  lemma DeriveAcyclic(s: Slots, h: Handle, rights: Rights)
    requires Wf(s) && Derive(s, h, rights).0 != s
    ensures Acyclic(Derive(s, h, rights).0) <==> Acyclic(s) && !ClosesCycle(s, h)
  {
    FillWf(s, 0, 1, 0, 0);
    FillAcyclic(s, Derive(s, h, rights).0, s.freeHead, Index(h));
  }

  /** A root entry closes no cycle: it has no parent. */
  lemma InsertAcyclic(s: Slots, obj: nat, kind: nat, rights: Rights)
    requires Wf(s) && kind != KIND_INVALID
    ensures Acyclic(Insert(s, obj, kind, rights).0) <==> Acyclic(s)
  {
    FillWf(s, obj, kind, rights, NO_PARENT);
    if s.freeHead != END {
      var t := Insert(s, obj, kind, rights).0;
      FillAcyclic(s, t, s.freeHead, NO_PARENT);
      if o: nat :| Child(s, o, s.freeHead) && Descends(s, o, NO_PARENT) { DescendsStep(s, o, NO_PARENT); }
    }
  }

  // ---------------------------------------------------------------- no orphans at all

  /** A live derived entry has a live parent of smaller rank. */
  predicate RankedAt(s: Slots, rank: seq<nat>, i: nat)
    requires |rank| == |s.entries|
  {
    Live(s, i) && s.entries[i].parent != NO_PARENT ==>
      Live(s, s.entries[i].parent) && rank[s.entries[i].parent] < rank[i]
  }

  /** Ranks fall along parent links, so the links cannot cycle. */
  predicate Ranked(s: Slots, rank: seq<nat>) {
    && |rank| == |s.entries|
    && forall i: nat :: i < |s.entries| ==> RankedAt(s, rank, i)
  }

  /** The links form a forest: no cycles, and every derived capability still has its parent. */
  ghost predicate Forest(s: Slots) {
    exists rank: seq<nat> :: Ranked(s, rank)
  }

  lemma ForestAcyclic(s: Slots)
    requires Bounded(s) && Forest(s)
    ensures Acyclic(s)
  {
    var rank: seq<nat> :| Ranked(s, rank);
    forall a: nat ensures !OnCycle(s, a) {
      if Live(s, a) {
        var level: seq<int> := seq(|rank|, i requires 0 <= i < |rank| => rank[i]);
        forall i: nat | i < |s.entries| ensures LevelAt(s, level, i) { assert RankedAt(s, rank, i); }
        assert Levels(s, level) && level[a] >= 0;
        OffCycleHasLevels(s, a);
      }
    }
  }

  lemma DeriveForest(s: Slots, h: Handle, rights: Rights)
    requires Wf(s) && Forest(s)
    ensures Forest(Derive(s, h, rights).0)
  {
    var rank: seq<nat> :| Ranked(s, rank);
    var (s', h') := Derive(s, h, rights);
    if s' == s {
      assert Ranked(s', rank);
    } else {
      FillWf(s, 0, 1, 0, 0);
      var rank' := rank[s.freeHead := rank[Index(h)] + 1];
      forall i: nat | i < |s.entries| ensures RankedAt(s', rank', i) {
        assert RankedAt(s, rank, i);
      }
      assert Ranked(s', rank');
    }
  }

  lemma InsertForest(s: Slots, obj: nat, kind: nat, rights: Rights)
    requires Wf(s) && Forest(s) && kind != KIND_INVALID
    ensures Forest(Insert(s, obj, kind, rights).0)
  {
    var rank: seq<nat> :| Ranked(s, rank);
    var s' := Insert(s, obj, kind, rights).0;
    FillWf(s, obj, kind, rights, NO_PARENT);
    forall i: nat | i < |s.entries| ensures RankedAt(s', rank, i) {
      assert RankedAt(s, rank, i);
    }
    assert Ranked(s', rank);
  }

  /** Removing a live slot keeps the forest exactly when no live entry was derived from it. */
  lemma RemoveForest(s: Slots, h: Handle)
    requires Bounded(s) && Forest(s) && h != HANDLE_INVALID && Live(s, Index(h))
    ensures Forest(Remove(s, h)) <==> !exists c: nat :: Child(s, c, Index(h))
  {
    var i, s' := Index(h), Remove(s, h);
    var rank: seq<nat> :| Ranked(s, rank);
    if c: nat :| Child(s, c, i) {
      assert RankedAt(s, rank, c);
      assert Live(s', c) && s'.entries[c].parent == i && !Live(s', i);
      forall r: seq<nat> ensures !Ranked(s', r) {
        if |r| == |s'.entries| { assert !RankedAt(s', r, c); }
      }
    } else {
      forall c: nat | c < |s.entries| ensures RankedAt(s', rank, c) {
        assert RankedAt(s, rank, c) && !Child(s, c, i);
      }
      assert Ranked(s', rank);
    }
  }
}

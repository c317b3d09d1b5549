/** How many capabilities can spring from a set of roots: messages move them and never copy them. */
module CapPopulation {
  import opened Handles
  import opened Sequences
  import opened CapTable
  import opened CapRuns
  import opened CapTransfer
  import opened CapDomains
  import ChannelRing

  type Cap = ChannelRing.Cap

  // ------------------------------------------------------------------------ counting

  function Sum(xs: seq<nat>): nat {
    if xs == [] then 0 else Sum(xs[..|xs| - 1]) + xs[|xs| - 1]
  }

  lemma {:induction false} SumSet(xs: seq<nat>, i: nat, x: nat)
    requires i < |xs|
    ensures Sum(xs[i := x]) + xs[i] == Sum(xs) + x
  {
    var rest := xs[..|xs| - 1];
    if i == |xs| - 1 {
      assert xs[i := x][..i] == rest;
    } else {
      SumSet(rest, i, x);
      assert xs[i := x][..|xs| - 1] == rest[i := x];
    }
  }

  lemma {:induction false} SumFirst(xs: seq<nat>)
    requires xs != []
    ensures Sum(xs) == xs[0] + Sum(xs[1..])
  {
    if |xs| > 1 {
      SumFirst(xs[..|xs| - 1]);
      assert xs[1..][..|xs| - 2] == xs[..|xs| - 1][1..];
    }
  }

  lemma {:induction false} SumZero(xs: seq<nat>)
    requires forall k :: 0 <= k < |xs| ==> xs[k] == 0
    ensures Sum(xs) == 0
  {
    if xs != [] { SumZero(xs[..|xs| - 1]); }
  }

  /** The live slots of a table whose capability descends from one of the roots `o`. */
  ghost function Own(d: Domain, o: set<nat>): set<nat> {
    set i | 0 <= i < |d.origin| && Live(d.table, i) && d.origin[i] in o
  }

  /** Those among the first `n` capabilities of a message. */
  function InMessage(m: seq<Parcel>, n: nat, o: set<nat>): nat
    requires n <= |m|
  {
    if n == 0 then 0 else InMessage(m, n - 1, o) + if m[n - 1].origin in o then 1 else 0
  }

  function Loads(q: seq<seq<Parcel>>, o: set<nat>): seq<nat> {
    seq(|q|, k requires 0 <= k < |q| => InMessage(q[k], |q[k]|, o))
  }

  function QueueLoads(qs: seq<seq<seq<Parcel>>>, o: set<nat>): seq<nat> {
    seq(|qs|, k requires 0 <= k < |qs| => Sum(Loads(qs[k], o)))
  }

  ghost function Holdings(ds: seq<Domain>, o: set<nat>): seq<nat> {
    seq(|ds|, k requires 0 <= k < |ds| => |Own(ds[k], o)|)
  }

  /** The capabilities that descend from the roots `o`, in tables and in flight. */
  ghost function Population(s: System, o: set<nat>): nat {
    Sum(Holdings(s.domains, o)) + Sum(QueueLoads(s.queues, o))
  }

  lemma HoldingsSet(ds: seq<Domain>, d: nat, x: Domain, o: set<nat>)
    requires d < |ds|
    ensures Sum(Holdings(ds[d := x], o)) + |Own(ds[d], o)| == Sum(Holdings(ds, o)) + |Own(x, o)|
  {
    SumSet(Holdings(ds, o), d, |Own(x, o)|);
    assert Holdings(ds[d := x], o) == Holdings(ds, o)[d := |Own(x, o)|];
  }

  lemma QueueLoadsSet(qs: seq<seq<seq<Parcel>>>, q: nat, x: seq<seq<Parcel>>, o: set<nat>)
    requires q < |qs|
    ensures Sum(QueueLoads(qs[q := x], o)) + Sum(Loads(qs[q], o)) == Sum(QueueLoads(qs, o)) + Sum(Loads(x, o))
  {
    SumSet(QueueLoads(qs, o), q, Sum(Loads(x, o)));
    assert QueueLoads(qs[q := x], o) == QueueLoads(qs, o)[q := Sum(Loads(x, o))];
  }

  lemma LoadsPut(q: seq<seq<Parcel>>, m: seq<Parcel>, o: set<nat>)
    ensures Sum(Loads(q + [m], o)) == Sum(Loads(q, o)) + InMessage(m, |m|, o)
  {
    hide InMessage;
    assert Loads(q + [m], o) == Loads(q, o) + [InMessage(m, |m|, o)];
    hide Loads;
    assert (Loads(q, o) + [InMessage(m, |m|, o)])[..|Loads(q, o)|] == Loads(q, o);
  }

  lemma LoadsTake(q: seq<seq<Parcel>>, o: set<nat>)
    requires q != []
    ensures Sum(Loads(q, o)) == InMessage(q[0], |q[0]|, o) + Sum(Loads(q[1..], o))
  {
    SumFirst(Loads(q, o));
    assert Loads(q, o)[1..] == Loads(q[1..], o);
  }

  // ------------------------------------------------------------------- calls on a table

  /** One call on a table adds at most the capability it was asked for. */
  lemma TableStepOwn(roots: seq<Cap>, d: Domain, op: Op, out: Handle, d': Domain, roots': seq<Cap>, o: set<nat>)
    requires DomainGood(roots, d) && TableStep(roots, d, op, out, d', roots')
    ensures |Own(d', o)| <= |Own(d, o)| + Born(roots, d, op, out, o)
  {
    StepSlot(d.table, op, d'.table, out, 0);
    var more := if Born(roots, d, op, out, o) == 1 then {Index(out)} else {};
    forall i | i in Own(d', o) ensures i in Own(d, o) + more {
      FilledSlot(d.table, op, d'.table, out, i);
      if Live(d.table, i) && out != HANDLE_INVALID { StepIssues(d.table, op, d'.table, out); }
    }
    SubsetSize(Own(d', o), Own(d, o) + more);
    assert |Own(d, o) + more| <= |Own(d, o)| + |more|;
  }

  /** A successful derivation from a capability of the roots `o`. */
  function Derived(d: Domain, op: Op, out: Handle, o: set<nat>): nat {
    if out != HANDLE_INVALID && op.Derive? && Index(op.h) < |d.origin| && d.origin[Index(op.h)] in o then 1 else 0
  }

  function Born(roots: seq<Cap>, d: Domain, op: Op, out: Handle, o: set<nat>): nat {
    if out != HANDLE_INVALID && (op.Insert? || op.InsertBounded?) && |roots| in o then 1 else Derived(d, op, out, o)
  }

  // ------------------------------------------------------------------------ messages

  predicate Marks(own: set<nat>, picks: seq<nat>, m: seq<Parcel>, o: set<nat>, k: nat) {
    k < |picks| && k < |m| ==> (picks[k] in own <==> m[k].origin in o)
  }

  lemma {:induction false} TakesOwn(own: set<nat>, picks: seq<nat>, m: seq<Parcel>, n: nat, o: set<nat>)
    requires n <= |picks| == |m| && NoDup(picks) && forall k: nat :: Marks(own, picks, m, o, k)
    ensures |own - Elements(picks[..n])| + InMessage(m, n, o) == |own|
  {
    hide NoDup;
    if n == 0 {
      assert own - Elements(picks[..0]) == own;
    } else {
      TakesOwn(own, picks, m, n - 1, o);
      hide Elements;
      MinusNext(own, picks, n);
      assert Marks(own, picks, m, o, n - 1);
    }
  }

  lemma MinusNext(own: set<nat>, l: seq<nat>, n: nat)
    requires 0 < n <= |l| && NoDup(l)
    ensures |own - Elements(l[..n])| == |own - Elements(l[..n - 1])| - if l[n - 1] in own then 1 else 0
  {
    var x, before := l[n - 1], Elements(l[..n - 1]);
    assert l[..n] == l[..n - 1] + [x];
    assert Elements(l[..n]) == before + {x} && x !in before;
    assert own - Elements(l[..n]) == (own - before) - {x};
  }

  /** A send loses nothing and copies nothing. */
  lemma SendOwn(roots: seq<Cap>, d: Domain, hs: seq<Handle>, d': Domain, m: seq<Parcel>, o: set<nat>)
    requires DomainGood(roots, d) && SendStep(d, hs, d', m)
    ensures |Own(d', o)| + InMessage(m, |m|, o) == |Own(d, o)|
  {
    var picks := Picks(d.table, hs);
    ExtractConserves(d.table, hs);
    PicksLive(d.table, hs);
    hide Wf, Extract, Picks, LiveCaps;
    forall k: nat ensures Marks(Own(d, o), picks, m, o, k) { }
    hide Own;
    TakesOwn(Own(d, o), picks, m, |picks|, o);
    assert picks[..|picks|] == picks;
    OwnAfterSend(d, d', picks, o);
  }

  lemma OwnAfterSend(d: Domain, d': Domain, picks: seq<nat>, o: set<nat>)
    requires d'.origin == d.origin && |d'.table.entries| == |d.table.entries| == |d.origin|
    requires forall i: nat :: Untouched(d.table, d'.table, picks, i)
    ensures Own(d', o) == Own(d, o) - Elements(picks)
  {
    forall i | 0 <= i < |d.origin| ensures i in Own(d', o) <==> i in Own(d, o) - Elements(picks) {
      assert Untouched(d.table, d'.table, picks, i);
    }
  }

  ghost function Landing(free: seq<nat>, m: seq<Parcel>, n: nat, o: set<nat>): set<nat>
    requires n <= |m| && n <= |free|
  {
    set k | 0 <= k < n && m[k].origin in o :: free[k]
  }

  lemma {:induction false} LandingSize(free: seq<nat>, m: seq<Parcel>, n: nat, o: set<nat>)
    requires n <= |m| && n <= |free|
    ensures |Landing(free, m, n, o)| <= InMessage(m, n, o)
  {
    if n == 0 {
      assert Landing(free, m, 0, o) == {};
    } else {
      LandingSize(free, m, n - 1, o);
      var last := if m[n - 1].origin in o then {free[n - 1]} else {};
      assert Landing(free, m, n, o) == Landing(free, m, n - 1, o) + last;
      hide Landing;
      assert |Landing(free, m, n - 1, o) + last| <= |Landing(free, m, n - 1, o)| + |last|;
    }
  }

  lemma {:induction false} InMessageGrows(m: seq<Parcel>, n: nat, k: nat, o: set<nat>)
    requires n <= k <= |m|
    ensures InMessage(m, n, o) <= InMessage(m, k, o)
  {
    if n < k { InMessageGrows(m, n, k - 1, o); }
  }

  /** A receive installs each capability of the message at most once. */
  lemma ReceiveOwn(roots: seq<Cap>, d: Domain, m: seq<Parcel>, bound: Rights, d': Domain, o: set<nat>)
    requires DomainGood(roots, d) && MessageGood(roots, m) && ReceiveStep(d, m, bound, d')
    ensures |Own(d', o)| <= |Own(d, o)| + InMessage(m, |m|, o)
  {
    var caps, free := MaskAll(CapsIn(m), bound), FreeOf(d.table);
    forall k | 0 <= k < |caps| ensures caps[k].kind != KIND_INVALID { MaskedGood(roots, m, bound, k); }
    InstallAdds(d.table, caps);
    var n := Room(|free|, caps);
    OwnLanded(d, d', free, m, n, o);
    LandingSize(free, m, n, o);
    InMessageGrows(m, n, |m|, o);
    SubsetSize(Own(d', o), Own(d, o) + Landing(free, m, n, o));
    assert |Own(d, o) + Landing(free, m, n, o)| <= |Own(d, o)| + |Landing(free, m, n, o)|;
  }

  lemma OwnLanded(d: Domain, d': Domain, free: seq<nat>, m: seq<Parcel>, n: nat, o: set<nat>)
    requires n <= |m| && n <= |free| && NoDup(free) && (forall k :: 0 <= k < |free| ==> free[k] < |d.origin|)
    requires d'.origin == Settle(d.origin, free, m, n) && |d'.table.entries| == |d.table.entries| == |d.origin|
    requires var used := free[..n]; forall i: nat :: Kept(used, d.table, d'.table, i)
    ensures Own(d', o) <= Own(d, o) + Landing(free, m, n, o)
  {
    forall i | i in Own(d', o) ensures i in Own(d, o) + Landing(free, m, n, o) {
      SettleAt(d.origin, free, m, n, i);
      if i in free[..n] {
        var k: nat :| k < n && free[k] == i;
      } else {
        KeptAt(free[..n], d.table, d'.table, i);
      }
    }
  }

  // ---------------------------------------------------------------------------- runs

  function DerivedIn(s: System, e: Event, o: set<nat>): nat {
    if e.OnTable? && e.d < |s.domains| then Derived(s.domains[e.d], e.op, e.out, o) else 0
  }

  /** How many of the roots `o` exist. */
  ghost function Granted(roots: seq<Cap>, o: set<nat>): nat {
    |(set i | i in o && i < |roots|)|
  }

  lemma GrantedOne(roots: seq<Cap>, o: nat)
    ensures Granted(roots, {o}) <= 1
  {
    var one := {o};
    SubsetSize((set i | i in one && i < |roots|), one);
  }

  lemma GrantedMore(roots: seq<Cap>, c: Cap, o: set<nat>)
    ensures Granted(roots + [c], o) == Granted(roots, o) + if |roots| in o then 1 else 0
  {
    var more := if |roots| in o then {|roots|} else {};
    assert (set i | i in o && i < |roots + [c]|) == (set i | i in o && i < |roots|) + more;
  }

  /** An event adds a capability only by granting its root or deriving from one that exists. */
  lemma EventPopulation(s: System, e: Event, s': System, o: set<nat>)
    requires Good(s) && Happens(s, e, s')
    ensures Population(s', o) + Granted(s.roots, o) <= Population(s, o) + Granted(s'.roots, o) + DerivedIn(s, e, o)
  {
    hide DomainGood, QueueGood, MessageGood, TableStep, SendStep, ReceiveStep, Sum, Own;
    match e
    case OnTable(d, op, out) =>
      TableStepOwn(s.roots, s.domains[d], op, out, s'.domains[d], s'.roots, o);
      HoldingsSet(s.domains, d, s'.domains[d], o);
      RootsGrow(s.roots, s.domains[d], op, out, s'.domains[d], s'.roots, o);
    case SendTo(d, q, handles) =>
      var m :| SendStep(s.domains[d], handles, s'.domains[d], m) && s'.queues == s.queues[q := s.queues[q] + [m]];
      SendOwn(s.roots, s.domains[d], handles, s'.domains[d], m, o);
      HoldingsSet(s.domains, d, s'.domains[d], o);
      QueueLoadsSet(s.queues, q, s.queues[q] + [m], o);
      LoadsPut(s.queues[q], m, o);
    case ReceiveFrom(d, q, bound) =>
      QueueShrinks(s.roots, s.queues[q]);
      ReceiveOwn(s.roots, s.domains[d], s.queues[q][0], bound, s'.domains[d], o);
      HoldingsSet(s.domains, d, s'.domains[d], o);
      QueueLoadsSet(s.queues, q, s.queues[q][1..], o);
      LoadsTake(s.queues[q], o);
    case Post(q) =>
      QueueLoadsSet(s.queues, q, s.queues[q] + [[]], o);
      LoadsPut(s.queues[q], [], o);
    case Discard(q) =>
      QueueLoadsSet(s.queues, q, s.queues[q][1..], o);
      LoadsTake(s.queues[q], o);
  }

  lemma RootsGrow(roots: seq<Cap>, d: Domain, op: Op, out: Handle, d': Domain, roots': seq<Cap>, o: set<nat>)
    requires DomainGood(roots, d) && TableStep(roots, d, op, out, d', roots')
    ensures Born(roots, d, op, out, o) + Granted(roots, o) <= Derived(d, op, out, o) + Granted(roots', o)
  {
    hide Granted;
    if out != HANDLE_INVALID {
      StepIssues(d.table, op, d'.table, out);
      StepSlot(d.table, op, d'.table, out, 0);
      if op.Insert? || op.InsertBounded? { GrantedMore(roots, Root(op), o); }
    }
  }

  /** Successful derivations from capabilities of the roots `o` among the first `k` events. */
  function Derivations(path: seq<System>, events: seq<Event>, o: set<nat>, k: nat): nat
    requires k <= |events| < |path|
  {
    if k == 0 then 0 else Derivations(path, events, o, k - 1) + DerivedIn(path[k - 1], events[k - 1], o)
  }

  /** Nothing is ever duplicated: in every state of every run, the capabilities that spring from a set of roots, in
      all tables and all messages together, are no more than those roots and the derivations made from them. */
  lemma {:induction false} NoDuplication(path: seq<System>, events: seq<Event>, o: set<nat>, k: nat)
    requires IsRun(path, events) && k <= |events|
    ensures Population(path[k], o) <= Granted(path[k].roots, o) + Derivations(path, events, o, k)
  {
    if k == 0 {
      NothingYet(path[0], o);
    } else {
      NoDuplication(path, events, o, k - 1);
      NoAmplification(path, events, k - 1, k - 1);
      assert HappensAt(path, events, k - 1);
      EventPopulation(path[k - 1], events[k - 1], path[k], o);
    }
  }

  lemma NothingYet(s: System, o: set<nat>)
    requires forall d :: 0 <= d < |s.domains| ==>
               1 <= |s.domains[d].table.entries| && s.domains[d].table == Empty(|s.domains[d].table.entries|)
    requires forall q :: 0 <= q < |s.queues| ==> s.queues[q] == []
    ensures Population(s, o) == 0
  {
    forall d | 0 <= d < |s.domains| ensures Own(s.domains[d], o) == {} { }
    SumZero(Holdings(s.domains, o));
    SumZero(QueueLoads(s.queues, o));
  }
}

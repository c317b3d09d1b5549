/** Tables and channel rings together, as the calls of kernel/ipc/channel.cpp change them: each call is one
    event of the model that records where capabilities come from, or none. */
module CapSystems {
  import opened Handles
  import opened CapTable
  import opened CapRuns
  import opened CapTransfer
  import opened CapDomains
  import opened CapPopulation
  import Ring = ChannelRing

  type Cap = Ring.Cap

  datatype Concrete = Concrete(tables: seq<Slots>, chans: seq<Ring.Chan>)

  datatype Act =
    | Call(d: nat, op: Op, out: Handle)
    | Send(d: nat, q: nat, data: Ring.Payload, size: nat, handles: seq<Handle>, sender: nat)
    | SendBare(q: nat, sent: Ring.ChanOp) // a caller without a table, or the blocking form
    | Receive(d: nat, q: nat, bound: Rights, handles: seq<Handle>)
    | ReceiveBare(q: nat)
    | Resize(q: nat, capacity: nat)

  predicate Bare(op: Ring.ChanOp) {
    Ring.Sane(op) && (op.Send? || (op.TrySend? && op.caps == []))
  }

  /** What a call does to the tables and the rings. The methods of `CapTableObject.Table` ensure `Step`, those of
      `ChannelObject.Channel` ensure `Sends`, `Receives` and `Ring.Next`. */
  ghost predicate Does(c: Concrete, a: Act, c': Concrete) {
    && |c'.tables| == |c.tables| && |c'.chans| == |c.chans|
    && match a
       case Call(d, op, out) =>
         && d < |c.tables| && c' == c.(tables := c.tables[d := c'.tables[d]])
         && Step(c.tables[d], op, c'.tables[d], out)
       case Send(d, q, data, size, handles, sender) =>
         && d < |c.tables| && q < |c.chans|
         && c' == Concrete(c.tables[d := c'.tables[d]], c.chans[q := c'.chans[q]])
         && Sends(c.tables[d], c.chans[q], data, size, handles, sender, c'.tables[d], c'.chans[q])
       case SendBare(q, op) =>
         && q < |c.chans| && Ring.RingOk(c.chans[q].ring) && Bare(op)
         && c' == c.(chans := c.chans[q := Ring.Next(c.chans[q], op)])
       case Receive(d, q, bound, handles) =>
         && d < |c.tables| && q < |c.chans|
         && c' == Concrete(c.tables[d := c'.tables[d]], c.chans[q := c'.chans[q]])
         && Receives(c.tables[d], c.chans[q], bound, c'.tables[d], handles, c'.chans[q])
       case ReceiveBare(q) =>
         && q < |c.chans| && Ring.RingOk(c.chans[q].ring)
         && c' == c.(chans := c.chans[q := Ring.Next(c.chans[q], Ring.TryRecv)])
       case Resize(q, capacity) =>
         && q < |c.chans| && Ring.RingOk(c.chans[q].ring)
         && c' == c.(chans := c.chans[q := Ring.Next(c.chans[q], Ring.SetCapacity(capacity))])
  }

  /** The events a call is: one, or none if it was refused or moves no message. */
  function EventsOf(c: Concrete, a: Act): seq<Event> {
    match a
    case Call(d, op, out) => [OnTable(d, op, out)]
    case Send(d, q, data, size, handles, sender) =>
      if q < |c.chans| && Ring.SendCode(c.chans[q], size, |handles|) == Ring.Ok then [SendTo(d, q, handles)] else []
    case SendBare(q, op) => if q < |c.chans| && Accepts(c.chans[q], op) then [Post(q)] else []
    case Receive(d, q, bound, _) => if q < |c.chans| && HasMessage(c.chans[q]) then [ReceiveFrom(d, q, bound)] else []
    case ReceiveBare(q) => if q < |c.chans| && HasMessage(c.chans[q]) then [Discard(q)] else []
    case Resize(_, _) => []
  }

  predicate Accepts(c: Ring.Chan, op: Ring.ChanOp) {
    || (op.TrySend? && Ring.SendCode(c, op.size, op.handles) == Ring.Ok)
    || (op.Send? && Ring.LegacySendCode(c, op.size) == Ring.Ok)
  }

  predicate HasMessage(c: Ring.Chan) {
    Ring.RingOk(c.ring) && Ring.RecvCode(c).Got?
  }

  /** A queue of parcels stands for a queue of messages with the same capabilities. */
  predicate Carries(q: seq<seq<Parcel>>, pending: seq<Ring.Message>) {
    |q| == |pending| && forall k :: 0 <= k < |q| ==> CapsIn(q[k]) == pending[k].caps
  }

  predicate ChanIs(q: seq<seq<Parcel>>, c: Ring.Chan) {
    Ring.RingOk(c.ring) && Carries(q, Ring.Pending(c.ring))
  }

  predicate Represents(s: System, c: Concrete) {
    && |s.domains| == |c.tables| && (forall d :: 0 <= d < |c.tables| ==> s.domains[d].table == c.tables[d])
    && |s.queues| == |c.chans| && (forall q :: 0 <= q < |c.chans| ==> ChanIs(s.queues[q], c.chans[q]))
  }

  // ------------------------------------------------------------------- one call, one event

  /** The record of roots can follow any call on a table. */
  lemma TableStepExists(roots: seq<Cap>, d: Domain, op: Op, t: Slots, out: Handle) returns (d': Domain, roots': seq<Cap>)
    requires DomainGood(roots, d) && Step(d.table, op, t, out)
    ensures TableStep(roots, d, op, out, d', roots') && d'.table == t
  {
    assert |d.table.entries| > 0;
    hide Step, Wf, SlotGood, Root;
    d', roots' := Domain(t, d.origin), roots;
    if out != HANDLE_INVALID {
      StepSlot(d.table, op, t, out, 0);
      StepIssues(d.table, op, t, out);
      FilledSlot(d.table, op, t, out, Index(out));
      if op.Insert? || op.InsertBounded? {
        d', roots' := Domain(t, d.origin[Index(out) := |roots|]), roots + [Root(op)];
      } else if op.Derive? {
        d' := Domain(t, d.origin[Index(out) := d.origin[Index(op.h)]]);
      }
    }
  }

  lemma SendStepExists(roots: seq<Cap>, d: Domain, hs: seq<Handle>) returns (d': Domain, m: seq<Parcel>)
    requires DomainGood(roots, d)
    ensures SendStep(d, hs, d', m) && CapsIn(m) == Extract(d.table, hs).1
  {
    PicksLive(d.table, hs);
    d', m := d.(table := Extract(d.table, hs).0), ParcelsAt(d, Picks(d.table, hs));
    SendGood(roots, d, hs, d', m);
  }

  lemma ReceiveStepExists(roots: seq<Cap>, d: Domain, m: seq<Parcel>, bound: Rights) returns (d': Domain)
    requires DomainGood(roots, d)
    ensures ReceiveStep(d, m, bound, d')
  {
    ListInRange(d.table, FreeOf(d.table));
    var free := FreeOf(d.table);
    forall k | 0 <= k < |free| ensures free[k] < |d.origin| { assert free[k] in free; }
    d' := Domain(Install(d.table, MaskAll(CapsIn(m), bound)).0, Settle(d.origin, free, m, Room(|free|, CapsIn(m))));
  }

  lemma CarriesPut(q: seq<seq<Parcel>>, pending: seq<Ring.Message>, m: seq<Parcel>, x: Ring.Message)
    requires Carries(q, pending) && CapsIn(m) == x.caps
    ensures Carries(q + [m], pending + [x])
  {
  }

  lemma CarriesTake(q: seq<seq<Parcel>>, x: Ring.Message, rest: seq<Ring.Message>)
    requires Carries(q, [x] + rest)
    ensures |q| > 0 && CapsIn(q[0]) == x.caps && Carries(q[1..], rest)
  {
    assert ([x] + rest)[0] == x;
    forall k | 0 <= k < |q| - 1 ensures CapsIn(q[1..][k]) == rest[k].caps { assert ([x] + rest)[k + 1] == rest[k]; }
  }

  /** An accepted send adds one message with its capabilities; a refused one changes nothing. */
  lemma SentIs(q: seq<seq<Parcel>>, c: Ring.Chan, op: Ring.ChanOp, m: seq<Parcel>)
    requires ChanIs(q, c) && Ring.Sane(op) && (op.TrySend? || op.Send?)
    requires CapsIn(m) == if op.TrySend? then op.caps else []
    ensures !Accepts(c, op) ==> Ring.Next(c, op) == c
    ensures Accepts(c, op) ==> ChanIs(q + [m], Ring.Next(c, op))
  {
    Ring.NextOk(c, op);
    if Accepts(c, op) {
      var x := Ring.Incoming(c, op)[0];
      assert Ring.Pending(Ring.Next(c, op).ring) == Ring.Pending(c.ring) + [x];
      CarriesPut(q, Ring.Pending(c.ring), m, x);
    }
  }

  lemma ReceivedIs(q: seq<seq<Parcel>>, c: Ring.Chan)
    requires ChanIs(q, c)
    ensures !HasMessage(c) ==> Ring.Next(c, Ring.TryRecv) == c
    ensures HasMessage(c) ==>
              |q| > 0 && CapsIn(q[0]) == c.ring.slots[c.ring.read].caps && ChanIs(q[1..], Ring.Next(c, Ring.TryRecv))
  {
    Ring.NextOk(c, Ring.TryRecv);
    if Ring.RecvCode(c).Got? {
      var x, rest := c.ring.slots[c.ring.read], Ring.Pending(Ring.Next(c, Ring.TryRecv).ring);
      assert Ring.Pending(c.ring) + [] == Ring.Pending(c.ring) == [x] + rest;
      CarriesTake(q, x, rest);
    }
  }

  lemma ResizedIs(q: seq<seq<Parcel>>, c: Ring.Chan, capacity: nat)
    requires ChanIs(q, c)
    ensures ChanIs(q, Ring.Next(c, Ring.SetCapacity(capacity)))
  {
    Ring.NextOk(c, Ring.SetCapacity(capacity));
    Ring.SamePending(c.ring, Ring.Next(c, Ring.SetCapacity(capacity)).ring);
  }

  /** Every call on tables and rings is its event of the model, or leaves the model as it is. */
  lemma Simulates(s: System, c: Concrete, a: Act, c': Concrete) returns (s': System)
    requires Good(s) && Represents(s, c) && Does(c, a, c')
    ensures Represents(s', c') && Explains(s, EventsOf(c, a), s')
  {
    hide Good, DomainGood, QueueGood, ChanIs, Step, TableStep, SendStep, ReceiveStep, Ring.Next;
    s' := s;
    match a
    case Call(d, op, out) => s' := SimulatesCall(s, c, d, op, out, c');
    case Send(d, q, data, size, handles, sender) => s' := SimulatesSend(s, c, a, c');
    case SendBare(q, op) =>
      SentIs(s.queues[q], c.chans[q], op, []);
      if Accepts(c.chans[q], op) { s' := s.(queues := s.queues[q := s.queues[q] + [[]]]); }
    case Receive(d, q, bound, handles) => s' := SimulatesReceive(s, c, a, c');
    case ReceiveBare(q) =>
      ReceivedIs(s.queues[q], c.chans[q]);
      if HasMessage(c.chans[q]) { s' := s.(queues := s.queues[q := s.queues[q][1..]]); }
    case Resize(q, capacity) => ResizedIs(s.queues[q], c.chans[q], capacity);
  }

  ghost predicate Explains(s: System, events: seq<Event>, s': System) {
    if events == [] then s' == s else |events| == 1 && Happens(s, events[0], s')
  }

  lemma SimulatesCall(s: System, c: Concrete, d: nat, op: Op, out: Handle, c': Concrete) returns (s': System)
    requires Good(s) && Represents(s, c) && Does(c, Act.Call(d, op, out), c')
    ensures Represents(s', c') && Happens(s, OnTable(d, op, out), s')
  {
    assert DomainGood(s.roots, s.domains[d]);
    hide DomainGood, QueueGood, ChanIs, Step, TableStep;
    var d', roots' := TableStepExists(s.roots, s.domains[d], op, c'.tables[d], out);
    s' := System(s.domains[d := d'], s.queues, roots');
  }

  lemma SimulatesSend(s: System, c: Concrete, a: Act, c': Concrete) returns (s': System)
    requires Good(s) && Represents(s, c) && a.Send? && Does(c, a, c')
    ensures Represents(s', c') && Explains(s, EventsOf(c, a), s')
  {
    var d, q := a.d, a.q;
    assert DomainGood(s.roots, s.domains[d]);
    hide DomainGood, QueueGood, ChanIs, Ring.Next, Extract;
    var (t, caps) := Extract(c.tables[d], a.handles);
    var d', m := SendStepExists(s.roots, s.domains[d], a.handles);
    var op := Ring.TrySend(a.data, a.size, |a.handles|, caps, a.sender);
    SentIs(s.queues[q], c.chans[q], op, m);
    if Accepts(c.chans[q], op) {
      s' := System(s.domains[d := d'], s.queues[q := s.queues[q] + [m]], s.roots);
      assert d'.table == t;
      hide SendStep;
      assert s'.domains[d] == d' && s'.queues == s.queues[q := s.queues[q] + [m]];
    } else {
      s' := s;
    }
  }

  lemma SimulatesReceive(s: System, c: Concrete, a: Act, c': Concrete) returns (s': System)
    requires Good(s) && Represents(s, c) && a.Receive? && Does(c, a, c')
    ensures Represents(s', c') && Explains(s, EventsOf(c, a), s')
  {
    hide DomainGood, QueueGood, ChanIs, Ring.Next, Install, MaskAll, Settle, FreeOf, CapsIn, Bounded, Ring.RingOk, ReceiveStep;
    var d, q := a.d, a.q;
    assert DomainGood(s.roots, s.domains[d]);
    ReceivedIs(s.queues[q], c.chans[q]);
    if HasMessage(c.chans[q]) {
      var d' := ReceiveStepExists(s.roots, s.domains[d], s.queues[q][0], a.bound);
      s' := System(s.domains[d := d'], s.queues[q := s.queues[q][1..]], s.roots);
    } else {
      s' := s;
    }
  }

  // ---------------------------------------------------------------------------- runs

  ghost predicate DoesAt(path: seq<Concrete>, acts: seq<Act>, k: nat)
    requires k < |acts| && |path| == |acts| + 1
  {
    Does(path[k], acts[k], path[k + 1])
  }

  predicate Fresh(c: Concrete) {
    && (forall d :: 0 <= d < |c.tables| ==> 1 <= |c.tables[d].entries| <= 0xFFFFFF && c.tables[d] == Empty(|c.tables[d].entries|))
    && (forall q :: 0 <= q < |c.chans| ==> Ring.RingOk(c.chans[q].ring) && c.chans[q].ring.count == 0)
  }

  /** A run from empty tables and empty rings. */
  ghost predicate IsConcreteRun(path: seq<Concrete>, acts: seq<Act>) {
    && |path| == |acts| + 1 && Fresh(path[0])
    && forall k: nat :: k < |acts| ==> DoesAt(path, acts, k)
  }

  lemma StartSystem(c: Concrete) returns (s: System)
    requires Fresh(c)
    ensures Represents(s, c) && CapDomains.IsRun([s], []) && s.roots == []
  {
    s := System(seq(|c.tables|, d requires 0 <= d < |c.tables| => Domain(c.tables[d], seq(|c.tables[d].entries|, _ => 0))),
                seq(|c.chans|, _ => []), []);
  }

  lemma RunExtends(path: seq<System>, events: seq<Event>, e: Event, s': System)
    requires CapDomains.IsRun(path, events) && Happens(path[|events|], e, s')
    ensures CapDomains.IsRun(path + [s'], events + [e])
  {
    hide Happens;
    var path', events' := path + [s'], events + [e];
    forall k: nat | k < |events'| ensures HappensAt(path', events', k) {
      if k < |events| { assert HappensAt(path, events, k); }
    }
    assert path'[0] == path[0];
  }

  /** The events of the first `k` calls. */
  function EventsUpTo(path: seq<Concrete>, acts: seq<Act>, k: nat): seq<Event>
    requires k <= |acts| < |path|
  {
    if k == 0 then [] else EventsUpTo(path, acts, k - 1) + EventsOf(path[k - 1], acts[k - 1])
  }

  lemma {:induction false} EventsPrefix(path: seq<Concrete>, acts: seq<Act>, j: nat, k: nat)
    requires j <= k <= |acts| < |path|
    ensures EventsUpTo(path, acts, j) <= EventsUpTo(path, acts, k)
  {
    hide EventsOf;
    if j < k { EventsPrefix(path, acts, j, k - 1); }
  }

  /** What a call brings in from outside: the capability of a successful insertion. */
  function Grants(a: Act): seq<Cap> {
    if a.Call? && a.out != HANDLE_INVALID && (a.op.Insert? || a.op.InsertBounded?) then [Root(a.op)] else []
  }

  /** The capabilities that the first `k` calls brought in, oldest first. */
  function RootsOf(acts: seq<Act>, k: nat): seq<Cap>
    requires k <= |acts|
  {
    if k == 0 then [] else RootsOf(acts, k - 1) + Grants(acts[k - 1])
  }

  lemma {:induction false} RootsPrefix(acts: seq<Act>, j: nat, k: nat)
    requires j <= k <= |acts|
    ensures RootsOf(acts, j) <= RootsOf(acts, k)
  {
    hide Grants;
    if j < k { RootsPrefix(acts, j, k - 1); }
  }

  lemma RootsStep(s: System, c: Concrete, a: Act, s': System)
    requires Good(s) && Explains(s, EventsOf(c, a), s')
    ensures s'.roots == s.roots + Grants(a)
  {
    if a.Call? && a.out != HANDLE_INVALID {
      assert DomainGood(s.roots, s.domains[a.d]);
      StepSlot(s.domains[a.d].table, a.op, s'.domains[a.d].table, a.out, 0);
      StepIssues(s.domains[a.d].table, a.op, s'.domains[a.d].table, a.out);
    }
  }

  /** After call `j` the model has had the events of the calls so far, stands for the tables and rings, and its
      roots are what the calls brought in. */
  ghost predicate FollowsAt(path: seq<Concrete>, acts: seq<Act>, states: seq<System>, j: nat)
    requires j <= |acts| < |path|
  {
    var n := |EventsUpTo(path, acts, j)|;
    n < |states| && Represents(states[n], path[j]) && states[n].roots == RootsOf(acts, j)
  }

  /** The events of any calls are a run of the model, and it stands for the tables and rings all along. */
  lemma {:induction false} RunRepresented(path: seq<Concrete>, acts: seq<Act>, k: nat) returns (states: seq<System>)
    requires IsConcreteRun(path, acts) && k < |path|
    ensures CapDomains.IsRun(states, EventsUpTo(path, acts, k))
    ensures forall j: nat :: j <= k ==> FollowsAt(path, acts, states, j)
  {
    if k == 0 {
      var s := StartSystem(path[0]);
      states := [s];
    } else {
      states := RunRepresented(path, acts, k - 1);
      states := RunOneMore(path, acts, k - 1, states);
    }
  }

  lemma RunOneMore(path: seq<Concrete>, acts: seq<Act>, k: nat, states: seq<System>) returns (states': seq<System>)
    requires IsConcreteRun(path, acts) && k < |acts| && CapDomains.IsRun(states, EventsUpTo(path, acts, k))
    requires forall j: nat :: j <= k ==> FollowsAt(path, acts, states, j)
    ensures CapDomains.IsRun(states', EventsUpTo(path, acts, k + 1))
    ensures forall j: nat :: j <= k + 1 ==> FollowsAt(path, acts, states', j)
  {
    hide Represents, Good, Happens, Does, EventsOf, Grants, Fresh;
    var events, more := EventsUpTo(path, acts, k), EventsOf(path[k], acts[k]);
    NoAmplification(states, events, |events|, |events|);
    assert FollowsAt(path, acts, states, k) && DoesAt(path, acts, k);
    var s' := Simulates(states[|events|], path[k], acts[k], path[k + 1]);
    RootsStep(states[|events|], path[k], acts[k], s');
    states' := if more == [] then states else states + [s'];
    if more == [] {
      assert events + more == events;
    } else {
      RunExtends(states, events, more[0], s');
      assert more == [more[0]];
    }
    hide CapDomains.IsRun;
    assert FollowsAt(path, acts, states', k + 1);
    forall j: nat | j <= k ensures FollowsAt(path, acts, states', j) {
      assert FollowsAt(path, acts, states, j);
      EventsPrefix(path, acts, j, k);
    }
  }

  // --------------------------------------------------------------------- what calls cannot do

  /** `c` is for the object and of the kind of some root, with no right that root lacks. */
  ghost predicate FromRoot(roots: seq<Cap>, c: Cap) {
    exists o: nat :: Sprung(roots, c, o)
  }

  predicate QueuedAt(c: Concrete, q: nat, m: nat, j: nat) {
    && q < |c.chans| && |c.chans[q].ring.slots| > 0 && m < |Ring.Pending(c.chans[q].ring)|
    && j < |Ring.Pending(c.chans[q].ring)[m].caps|
  }

  /** No amplification: whatever the calls, every live capability of every table and every one queued in a ring was
      brought in by one of the insertions among them, with at least its rights. */
  lemma CallsWithin(path: seq<Concrete>, acts: seq<Act>, k: nat)
    requires IsConcreteRun(path, acts) && k < |path|
    ensures forall d: nat, i: nat :: d < |path[k].tables| && Live(path[k].tables[d], i) ==>
              FromRoot(RootsOf(acts, k), CapOf(path[k].tables[d].entries[i]))
    ensures forall q: nat, m: nat, j: nat :: QueuedAt(path[k], q, m, j) ==>
              FromRoot(RootsOf(acts, k), Ring.Pending(path[k].chans[q].ring)[m].caps[j])
  {
    var states := RunRepresented(path, acts, k);
    var events := EventsUpTo(path, acts, k);
    NoAmplification(states, events, |events|, |events|);
    assert FollowsAt(path, acts, states, k);
    WithinRoots(states[|events|], path[k]);
  }

  lemma WithinRoots(s: System, c: Concrete)
    requires Good(s) && Represents(s, c)
    ensures forall d: nat, i: nat :: d < |c.tables| && Live(c.tables[d], i) ==> FromRoot(s.roots, CapOf(c.tables[d].entries[i]))
    ensures forall q: nat, m: nat, j: nat :: QueuedAt(c, q, m, j) ==>
              FromRoot(s.roots, Ring.Pending(c.chans[q].ring)[m].caps[j])
  {
    forall d: nat, i: nat | d < |c.tables| && Live(c.tables[d], i)
      ensures FromRoot(s.roots, CapOf(c.tables[d].entries[i]))
    {
      assert DomainGood(s.roots, s.domains[d]) && SlotGood(s.roots, s.domains[d], i);
    }
    forall q: nat, m: nat, j: nat | QueuedAt(c, q, m, j)
      ensures FromRoot(s.roots, Ring.Pending(c.chans[q].ring)[m].caps[j])
    {
      assert ChanIs(s.queues[q], c.chans[q]) && QueueGood(s.roots, s.queues[q]);
      var x := s.queues[q][m];
      assert CapsIn(x)[j] == x[j].cap && ParcelGood(s.roots, x[j]);
    }
  }

  predicate Is(c: Cap, obj: nat, kind: nat) {
    c.obj == obj && c.kind == kind
  }

  function Among(caps: seq<Cap>, n: nat, obj: nat, kind: nat): nat
    requires n <= |caps|
  {
    if n == 0 then 0 else Among(caps, n - 1, obj, kind) + if Is(caps[n - 1], obj, kind) then 1 else 0
  }

  ghost function Holding(t: Slots, obj: nat, kind: nat): set<nat> {
    set i | 0 <= i < |t.entries| && Live(t, i) && Is(CapOf(t.entries[i]), obj, kind)
  }

  function Queued(c: Ring.Chan, obj: nat, kind: nat): seq<nat> {
    var q := if |c.ring.slots| > 0 then Ring.Pending(c.ring) else [];
    seq(|q|, m requires 0 <= m < |q| => Among(q[m].caps, |q[m].caps|, obj, kind))
  }

  /** The capabilities for one object and of one kind, in all tables and all rings. */
  ghost function Total(c: Concrete, obj: nat, kind: nat): nat {
    Sum(seq(|c.tables|, d requires 0 <= d < |c.tables| => |Holding(c.tables[d], obj, kind)|))
    + Sum(seq(|c.chans|, q requires 0 <= q < |c.chans| => Sum(Queued(c.chans[q], obj, kind))))
  }

  /** A successful derivation from a capability for that object and of that kind. */
  function DerivedBy(c: Concrete, a: Act, obj: nat, kind: nat): nat {
    if a.Call? && a.out != HANDLE_INVALID && a.op.Derive? && a.d < |c.tables| && Live(c.tables[a.d], Index(a.op.h))
       && Is(CapOf(c.tables[a.d].entries[Index(a.op.h)]), obj, kind) then 1 else 0
  }

  function Derives(path: seq<Concrete>, acts: seq<Act>, obj: nat, kind: nat, k: nat): nat
    requires k <= |acts| < |path|
  {
    if k == 0 then 0 else Derives(path, acts, obj, kind, k - 1) + DerivedBy(path[k - 1], acts[k - 1], obj, kind)
  }

  /** The roots for that object and of that kind. */
  ghost function Kin(roots: seq<Cap>, obj: nat, kind: nat): set<nat> {
    set o | 0 <= o < |roots| && Is(roots[o], obj, kind)
  }

  lemma {:induction false} KinSize(roots: seq<Cap>, n: nat, obj: nat, kind: nat)
    requires n <= |roots|
    ensures |Kin(roots[..n], obj, kind)| == Among(roots, n, obj, kind)
  {
    if n > 0 {
      KinSize(roots, n - 1, obj, kind);
      KinMore(roots, n, obj, kind);
      hide Kin;
    }
  }

  lemma KinMore(roots: seq<Cap>, n: nat, obj: nat, kind: nat)
    requires 0 < n <= |roots|
    ensures |Kin(roots[..n], obj, kind)| == |Kin(roots[..n - 1], obj, kind)| + if Is(roots[n - 1], obj, kind) then 1 else 0
  {
    var before := Kin(roots[..n - 1], obj, kind);
    assert n - 1 !in before;
    assert Kin(roots[..n], obj, kind) == before + if Is(roots[n - 1], obj, kind) then {n - 1} else {};
  }

  lemma KinGranted(roots: seq<Cap>, obj: nat, kind: nat)
    ensures Granted(roots, Kin(roots, obj, kind)) == Among(roots, |roots|, obj, kind)
  {
    KinSize(roots, |roots|, obj, kind);
    assert roots[..|roots|] == roots;
    assert (set o | o in Kin(roots, obj, kind) && o < |roots|) == Kin(roots, obj, kind);
  }

  lemma KinIs(roots: seq<Cap>, all: seq<Cap>, c: Cap, o: nat, obj: nat, kind: nat)
    requires Sprung(roots, c, o) && roots <= all
    ensures o in Kin(all, obj, kind) <==> Is(c, obj, kind)
  {
  }

  lemma {:induction false} InMessageIs(roots: seq<Cap>, m: seq<Parcel>, n: nat, obj: nat, kind: nat)
    requires MessageGood(roots, m) && n <= |m|
    ensures |CapsIn(m)| == |m| && InMessage(m, n, Kin(roots, obj, kind)) == Among(CapsIn(m), n, obj, kind)
  {
    if n > 0 {
      InMessageIs(roots, m, n - 1, obj, kind);
      assert ParcelGood(roots, m[n - 1]);
      KinIs(roots, roots, m[n - 1].cap, m[n - 1].origin, obj, kind);
    }
  }

  lemma OwnIs(roots: seq<Cap>, d: Domain, obj: nat, kind: nat)
    requires DomainGood(roots, d)
    ensures Own(d, Kin(roots, obj, kind)) == Holding(d.table, obj, kind)
  {
    forall i: nat | i < |d.origin| && Live(d.table, i)
      ensures d.origin[i] in Kin(roots, obj, kind) <==> Is(CapOf(d.table.entries[i]), obj, kind)
    {
      assert SlotGood(roots, d, i);
      KinIs(roots, roots, CapOf(d.table.entries[i]), d.origin[i], obj, kind);
    }
  }

  lemma LoadsIs(roots: seq<Cap>, q: seq<seq<Parcel>>, c: Ring.Chan, obj: nat, kind: nat)
    requires QueueGood(roots, q) && ChanIs(q, c)
    ensures Loads(q, Kin(roots, obj, kind)) == Queued(c, obj, kind)
  {
    forall k | 0 <= k < |q|
      ensures InMessage(q[k], |q[k]|, Kin(roots, obj, kind)) == Among(CapsIn(q[k]), |CapsIn(q[k])|, obj, kind)
    {
      InMessageIs(roots, q[k], |q[k]|, obj, kind);
    }
  }

  lemma PopulationIs(s: System, c: Concrete, obj: nat, kind: nat)
    requires Good(s) && Represents(s, c)
    ensures Population(s, Kin(s.roots, obj, kind)) == Total(c, obj, kind)
  {
    var kin := Kin(s.roots, obj, kind);
    hide DomainGood, QueueGood, ChanIs, Own, Holding, Loads, Queued, Kin, Sum;
    forall d | 0 <= d < |s.domains| ensures |Own(s.domains[d], kin)| == |Holding(c.tables[d], obj, kind)| {
      OwnIs(s.roots, s.domains[d], obj, kind);
    }
    assert Holdings(s.domains, kin) == seq(|c.tables|, d requires 0 <= d < |c.tables| => |Holding(c.tables[d], obj, kind)|);
    forall q | 0 <= q < |s.queues| ensures Loads(s.queues[q], kin) == Queued(c.chans[q], obj, kind) {
      LoadsIs(s.roots, s.queues[q], c.chans[q], obj, kind);
    }
    assert QueueLoads(s.queues, kin) == seq(|c.chans|, q requires 0 <= q < |c.chans| => Sum(Queued(c.chans[q], obj, kind)));
  }

  lemma DerivedIs(s: System, c: Concrete, a: Act, s': System, all: seq<Cap>, obj: nat, kind: nat)
    requires Good(s) && Represents(s, c) && Explains(s, EventsOf(c, a), s') && s.roots <= all && EventsOf(c, a) != []
    ensures DerivedIn(s, EventsOf(c, a)[0], Kin(all, obj, kind)) == DerivedBy(c, a, obj, kind)
  {
    if a.Call? && a.out != HANDLE_INVALID && a.op.Derive? {
      var d := s.domains[a.d];
      assert DomainGood(s.roots, d) && SlotGood(s.roots, d, Index(a.op.h));
      StepIssues(d.table, a.op, s'.domains[a.d].table, a.out);
      FilledSlot(d.table, a.op, s'.domains[a.d].table, a.out, Index(a.out));
      KinIs(s.roots, all, CapOf(d.table.entries[Index(a.op.h)]), d.origin[Index(a.op.h)], obj, kind);
    }
  }

  /** The derivations of the model run are the successful derives among the calls. */
  lemma {:induction false} DerivationsAre(path: seq<Concrete>, acts: seq<Act>, states: seq<System>, j: nat, k: nat, obj: nat, kind: nat)
    requires IsConcreteRun(path, acts) && j <= k <= |acts| && CapDomains.IsRun(states, EventsUpTo(path, acts, k))
    requires forall i: nat :: i <= k ==> FollowsAt(path, acts, states, i)
    ensures |EventsUpTo(path, acts, j)| <= |EventsUpTo(path, acts, k)|
    ensures Derivations(states, EventsUpTo(path, acts, k), Kin(RootsOf(acts, k), obj, kind), |EventsUpTo(path, acts, j)|)
         == Derives(path, acts, obj, kind, j)
  {
    hide Does, Represents, Happens, Kin, DerivedBy, DerivedIn, EventsOf, Grants, Good;
    EventsPrefix(path, acts, j, k);
    if j > 0 {
      DerivationsAre(path, acts, states, j - 1, k, obj, kind);
      var events, n, more := EventsUpTo(path, acts, k), |EventsUpTo(path, acts, j - 1)|, EventsOf(path[j - 1], acts[j - 1]);
      assert FollowsAt(path, acts, states, j - 1);
      if more != [] {
        OneEvent(path[j - 1], acts[j - 1]);
        assert EventsUpTo(path, acts, j)[n] == more[0];
        assert events[n] == more[0];
        assert HappensAt(states, events, n);
        NoAmplification(states, events, n, n);
        RootsPrefix(acts, j - 1, k);
        DerivedIs(states[n], path[j - 1], acts[j - 1], states[n + 1], RootsOf(acts, k), obj, kind);
      } else {
        NoEvent(path[j - 1], acts[j - 1], obj, kind);
      }
    }
  }

  lemma OneEvent(c: Concrete, a: Act)
    ensures |EventsOf(c, a)| <= 1
  {
  }

  lemma NoEvent(c: Concrete, a: Act, obj: nat, kind: nat)
    requires EventsOf(c, a) == []
    ensures DerivedBy(c, a, obj, kind) == 0
  {
  }

  /** No duplication: whatever the calls, the capabilities for one object and of one kind, in all tables and all
      rings, are no more than the insertions and the derivations of such capabilities among the calls. */
  lemma CallsCount(path: seq<Concrete>, acts: seq<Act>, k: nat, obj: nat, kind: nat)
    requires IsConcreteRun(path, acts) && k < |path|
    ensures Total(path[k], obj, kind)
              <= Among(RootsOf(acts, k), |RootsOf(acts, k)|, obj, kind) + Derives(path, acts, obj, kind, k)
  {
    var states := RunRepresented(path, acts, k);
    var events, kin := EventsUpTo(path, acts, k), Kin(RootsOf(acts, k), obj, kind);
    assert FollowsAt(path, acts, states, k);
    NoAmplification(states, events, |events|, |events|);
    NoDuplication(states, events, kin, |events|);
    PopulationIs(states[|events|], path[k], obj, kind);
    DerivationsAre(path, acts, states, k, k, obj, kind);
    KinGranted(RootsOf(acts, k), obj, kind);
  }

  /** The same root by root, in the run of the model that the calls are: its roots are the insertions among the
      calls, every capability is within its root, and those of one root are at most one more than the
      derivations made from them. */
  lemma CallsConserve(path: seq<Concrete>, acts: seq<Act>, k: nat) returns (states: seq<System>)
    requires IsConcreteRun(path, acts) && k < |path|
    ensures CapDomains.IsRun(states, EventsUpTo(path, acts, k))
    ensures var events := EventsUpTo(path, acts, k);
            var s := states[|events|];
            && Represents(s, path[k]) && Good(s) && s.roots == RootsOf(acts, k)
            && forall o: nat :: o < |s.roots| ==> Population(s, {o}) <= 1 + Derivations(states, events, {o}, |events|)
  {
    states := RunRepresented(path, acts, k);
    var events := EventsUpTo(path, acts, k);
    var s := states[|events|];
    assert FollowsAt(path, acts, states, k);
    NoAmplification(states, events, |events|, |events|);
    forall o: nat | o < |s.roots| ensures Population(s, {o}) <= 1 + Derivations(states, events, {o}, |events|) {
      NoDuplication(states, events, {o}, |events|);
      GrantedOne(s.roots, o);
    }
  }
}

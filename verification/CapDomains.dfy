/** Any number of capability tables and channels: where each capability came from, through insertions,
    derivations, removals, revocations and messages. */
module CapDomains {
  import opened Handles
  import opened Sequences
  import opened CapTable
  import opened CapRuns
  import opened Derivation
  import opened Revocation
  import opened ChannelRing
  import opened CapTransfer

  /** A capability in flight and the root it descends from. */
  datatype Parcel = Parcel(cap: Cap, origin: nat)

  /** A table with the root of each slot's current capability. */
  datatype Domain = Domain(table: Slots, origin: seq<nat>)

  /** `roots` lists the capabilities put into tables from outside, oldest first. */
  datatype System = System(domains: seq<Domain>, queues: seq<seq<seq<Parcel>>>, roots: seq<Cap>)

  /** `c` is a capability for its root's object, of its root's kind, with no right the root lacks. */
  predicate Sprung(roots: seq<Cap>, c: Cap, o: nat) {
    o < |roots| && c.obj == roots[o].obj && c.kind == roots[o].kind && Within(c.rights, roots[o].rights)
  }

  predicate SlotGood(roots: seq<Cap>, d: Domain, i: nat) {
    i < |d.origin| && Live(d.table, i) ==> Sprung(roots, CapOf(d.table.entries[i]), d.origin[i])
  }

  ghost predicate DomainGood(roots: seq<Cap>, d: Domain) {
    && Wf(d.table) && |d.origin| == |d.table.entries|
    && forall i: nat :: SlotGood(roots, d, i)
  }

  predicate ParcelGood(roots: seq<Cap>, p: Parcel) {
    p.cap.kind != KIND_INVALID && Sprung(roots, p.cap, p.origin)
  }

  predicate MessageGood(roots: seq<Cap>, m: seq<Parcel>) {
    forall k :: 0 <= k < |m| ==> ParcelGood(roots, m[k])
  }

  predicate QueueGood(roots: seq<Cap>, q: seq<seq<Parcel>>) {
    forall k :: 0 <= k < |q| ==> MessageGood(roots, q[k])
  }

  ghost predicate Good(s: System) {
    && (forall k :: 0 <= k < |s.domains| ==> DomainGood(s.roots, s.domains[k]))
    && forall q :: 0 <= q < |s.queues| ==> QueueGood(s.roots, s.queues[q])
  }

  // ----------------------------------------------------------------- calls on a table

  /** The capability that an insertion brings in from outside. */
  function Root(op: Op): Cap
    requires op.Insert? || op.InsertBounded?
  {
    Cap(op.obj, op.kind, if op.Insert? then op.rights else op.rights & op.bound)
  }

  /** A call on one table, and what it means for the record of roots: an insertion starts a new root, a
      derived capability has the root of its parent. */
  ghost predicate TableStep(roots: seq<Cap>, d: Domain, op: Op, out: Handle, d': Domain, roots': seq<Cap>) {
    && Step(d.table, op, d'.table, out)
    && var i := Index(out);
       if out == HANDLE_INVALID || i >= |d.origin| then d'.origin == d.origin && roots' == roots
       else if op.Insert? || op.InsertBounded? then d'.origin == d.origin[i := |roots|] && roots' == roots + [Root(op)]
       else if op.Derive? then
         Index(op.h) < |d.origin| && d'.origin == d.origin[i := d.origin[Index(op.h)]] && roots' == roots
       else d'.origin == d.origin && roots' == roots
  }

  lemma SprungMore(roots: seq<Cap>, roots': seq<Cap>, c: Cap, o: nat)
    requires Sprung(roots, c, o) && roots <= roots'
    ensures Sprung(roots', c, o)
  {
  }

  lemma SprungSelf(roots: seq<Cap>, c: Cap)
    ensures Sprung(roots + [c], c, |roots|)
  {
  }

  lemma SprungLess(roots: seq<Cap>, c: Cap, o: nat, r: Rights)
    requires Sprung(roots, c, o)
    ensures Sprung(roots, c.(rights := c.rights & r), o)
  {
    MaskWithin(c.rights, r);
    WithinTransitive(c.rights & r, c.rights, roots[o].rights);
  }

  /** The capability a call was asked to put into a slot. */
  predicate Placed(s: Slots, op: Op, e: Entry) {
    match op
    case Insert(_, _, _) => CapOf(e) == Root(op)
    case InsertBounded(_, _, _, _) => CapOf(e) == Root(op)
    case Derive(h, rights) =>
      Live(s, Index(h))
      && CapOf(e) == Cap(s.entries[Index(h)].obj, s.entries[Index(h)].kind, s.entries[Index(h)].rights & rights)
    case Remove(h) => false
    case Revoke(h) => false
  }

  /** What a call leaves in a slot: what was there, or the capability it was asked to put there. */
  lemma FilledSlot(s: Slots, op: Op, t: Slots, out: Handle, i: nat)
    requires Wf(s) && Step(s, op, t, out) && Live(t, i)
    ensures Live(s, i) ==> t.entries[i] == s.entries[i]
    ensures !Live(s, i) ==> out != HANDLE_INVALID && Index(out) == i && Placed(s, op, t.entries[i])
  {
    if Live(s, i) {
      StepSlot(s, op, t, out, i);
    } else {
      StepFills(s, op, t, out, i);
      RevokeOnlyFrees(s, op, t, out);
      hide FreeList, HasRights, OnCycle, Revoked;
    }
  }

  lemma TableStepGood(roots: seq<Cap>, d: Domain, op: Op, out: Handle, d': Domain, roots': seq<Cap>)
    requires DomainGood(roots, d) && TableStep(roots, d, op, out, d', roots')
    ensures DomainGood(roots', d') && roots <= roots'
  {
    StepWf(d.table, op, d'.table, out);
    StepSlot(d.table, op, d'.table, out, 0);
    forall i: nat ensures SlotGood(roots', d', i) {
      if i < |d'.origin| && Live(d'.table, i) { TableSlotGood(roots, d, op, out, d', roots', i); }
    }
  }

  lemma TableSlotGood(roots: seq<Cap>, d: Domain, op: Op, out: Handle, d': Domain, roots': seq<Cap>, i: nat)
    requires DomainGood(roots, d) && TableStep(roots, d, op, out, d', roots')
    requires i < |d'.origin| && Live(d'.table, i)
    ensures SlotGood(roots', d', i)
  {
    if Live(d.table, i) {
      OldSlotGood(roots, d, op, out, d', roots', i);
    } else {
      NewSlotGood(roots, d, op, out, d', roots', i);
    }
  }

  lemma OldSlotGood(roots: seq<Cap>, d: Domain, op: Op, out: Handle, d': Domain, roots': seq<Cap>, i: nat)
    requires DomainGood(roots, d) && TableStep(roots, d, op, out, d', roots')
    requires i < |d'.origin| && Live(d'.table, i) && Live(d.table, i)
    ensures SlotGood(roots', d', i)
  {
    FilledSlot(d.table, op, d'.table, out, i);
    if out != HANDLE_INVALID { StepIssues(d.table, op, d'.table, out); }
    hide Wf, Step, Sprung, Index, Resolves;
    assert SlotGood(roots, d, i);
    SprungMore(roots, roots', CapOf(d.table.entries[i]), d.origin[i]);
  }

  lemma NewSlotGood(roots: seq<Cap>, d: Domain, op: Op, out: Handle, d': Domain, roots': seq<Cap>, i: nat)
    requires DomainGood(roots, d) && TableStep(roots, d, op, out, d', roots')
    requires i < |d'.origin| && Live(d'.table, i) && !Live(d.table, i)
    ensures SlotGood(roots', d', i)
  {
    FilledSlot(d.table, op, d'.table, out, i);
    if op.Derive? {
      DerivedGood(roots, d, op.h, op.rights, d', i);
    } else {
      hide Wf, Step, Sprung, Index;
      SprungSelf(roots, CapOf(d'.table.entries[i]));
    }
  }

  lemma DerivedGood(roots: seq<Cap>, d: Domain, h: Handle, rights: Rights, d': Domain, i: nat)
    requires Index(h) < |d.origin| && Live(d.table, Index(h)) && SlotGood(roots, d, Index(h))
    requires i < |d'.origin| && Live(d'.table, i) && d'.origin[i] == d.origin[Index(h)]
    requires var e := CapOf(d.table.entries[Index(h)]); CapOf(d'.table.entries[i]) == e.(rights := e.rights & rights)
    ensures SlotGood(roots, d', i)
  {
    SprungLess(roots, CapOf(d.table.entries[Index(h)]), d.origin[Index(h)], rights);
  }

  // ------------------------------------------------------------------------ messages

  function ParcelsAt(d: Domain, at: seq<nat>): (r: seq<Parcel>)
    requires forall k :: 0 <= k < |at| ==> at[k] < |d.origin| && at[k] < |d.table.entries|
    ensures |r| == |at|
    ensures forall k :: 0 <= k < |at| ==> r[k] == Parcel(CapOf(d.table.entries[at[k]]), d.origin[at[k]])
  {
    seq(|at|, k requires 0 <= k < |at| => Parcel(CapOf(d.table.entries[at[k]]), d.origin[at[k]]))
  }

  function CapsIn(m: seq<Parcel>): (r: seq<Cap>)
    ensures |r| == |m| && forall k :: 0 <= k < |m| ==> r[k] == m[k].cap
  {
    seq(|m|, k requires 0 <= k < |m| => m[k].cap)
  }

  lemma PicksLive(t: Slots, hs: seq<Handle>)
    ensures forall k :: 0 <= k < |Picks(t, hs)| ==> Live(t, Picks(t, hs)[k])
  {
    forall k | 0 <= k < |Picks(t, hs)| ensures Live(t, Picks(t, hs)[k]) {
      assert Picks(t, hs)[k] in Picks(t, hs);
    }
  }

  /** A send takes the sendable capabilities out of the table, with their roots, into the message. */
  ghost predicate SendStep(d: Domain, hs: seq<Handle>, d': Domain, m: seq<Parcel>) {
    && |d.origin| == |d.table.entries|
    && d' == d.(table := Extract(d.table, hs).0)
    && var picks := Picks(d.table, hs);
       && (forall k :: 0 <= k < |picks| ==> picks[k] < |d.origin|)
       && m == ParcelsAt(d, picks)
  }

  lemma {:induction false} SendGood(roots: seq<Cap>, d: Domain, hs: seq<Handle>, d': Domain, m: seq<Parcel>)
    requires DomainGood(roots, d) && SendStep(d, hs, d', m)
    ensures DomainGood(roots, d') && MessageGood(roots, m)
    ensures CapsIn(m) == Extract(d.table, hs).1
    ensures LiveCaps(d.table) == LiveCaps(d'.table) + multiset(CapsIn(m))
  {
    ExtractConserves(d.table, hs);
    PicksLive(d.table, hs);
    hide Wf, Extract, Picks, Sprung, LiveCaps;
    assert CapsIn(m) == CapsAt(d.table, Picks(d.table, hs));
    StillGood(roots, d, d', Picks(d.table, hs));
    PickedGood(roots, d, Picks(d.table, hs));
  }

  lemma StillGood(roots: seq<Cap>, d: Domain, d': Domain, picks: seq<nat>)
    requires DomainGood(roots, d) && Wf(d'.table) && d'.origin == d.origin && |d'.table.entries| == |d.table.entries|
    requires forall i: nat :: Untouched(d.table, d'.table, picks, i)
    ensures DomainGood(roots, d')
  {
    hide Wf, Sprung;
    forall i: nat ensures SlotGood(roots, d', i) {
      assert SlotGood(roots, d, i) && Untouched(d.table, d'.table, picks, i);
    }
  }

  lemma PickedGood(roots: seq<Cap>, d: Domain, picks: seq<nat>)
    requires DomainGood(roots, d) && forall k :: 0 <= k < |picks| ==> Live(d.table, picks[k])
    ensures (forall k :: 0 <= k < |picks| ==> picks[k] < |d.origin|) && MessageGood(roots, ParcelsAt(d, picks))
  {
    hide Wf, Sprung;
    forall k | 0 <= k < |picks| ensures ParcelGood(roots, ParcelsAt(d, picks)[k]) {
      assert SlotGood(roots, d, picks[k]);
    }
  }

  /** Roots follow the capabilities into the slots they land in. */
  function Settle(origin: seq<nat>, free: seq<nat>, m: seq<Parcel>, n: nat): (r: seq<nat>)
    requires n <= |m| && n <= |free| && forall k :: 0 <= k < |free| ==> free[k] < |origin|
    ensures |r| == |origin|
  {
    if n == 0 then origin else Settle(origin, free, m, n - 1)[free[n - 1] := m[n - 1].origin]
  }

  lemma {:induction false} SettleAt(origin: seq<nat>, free: seq<nat>, m: seq<Parcel>, n: nat, i: nat)
    requires n <= |m| && n <= |free| && NoDup(free) && (forall k :: 0 <= k < |free| ==> free[k] < |origin|)
    requires i < |origin|
    ensures i !in free[..n] ==> Settle(origin, free, m, n)[i] == origin[i]
    ensures forall k: nat :: k < n && free[k] == i ==> Settle(origin, free, m, n)[i] == m[k].origin
  {
    if n > 0 {
      SettleAt(origin, free, m, n - 1, i);
      assert free[..n] == free[..n - 1] + [free[n - 1]];
    }
  }

  /** A receive installs the message's capabilities, masked, with their roots. */
  ghost predicate ReceiveStep(d: Domain, m: seq<Parcel>, bound: Rights, d': Domain) {
    && Bounded(d.table)
    && d'.table == Install(d.table, MaskAll(CapsIn(m), bound)).0
    && var free := FreeOf(d.table);
       && (forall k :: 0 <= k < |free| ==> free[k] < |d.origin|)
       && d'.origin == Settle(d.origin, free, m, Room(|free|, CapsIn(m)))
  }

  lemma MaskedGood(roots: seq<Cap>, m: seq<Parcel>, bound: Rights, k: nat)
    requires MessageGood(roots, m) && k < |m|
    ensures var c := MaskAll(CapsIn(m), bound)[k]; c.kind != KIND_INVALID && Sprung(roots, c, m[k].origin)
  {
    assert ParcelGood(roots, m[k]);
    SprungLess(roots, m[k].cap, m[k].origin, bound);
  }

  /** Each queued capability arrives at most once, in message order while there is room, with no right
      outside the bounding set. */
  lemma {:induction false} ReceiveGood(roots: seq<Cap>, d: Domain, m: seq<Parcel>, bound: Rights, d': Domain)
    requires DomainGood(roots, d) && MessageGood(roots, m) && ReceiveStep(d, m, bound, d')
    ensures DomainGood(roots, d')
    ensures LiveCaps(d'.table) ==
              LiveCaps(d.table) + multiset(MaskAll(CapsIn(m), bound)[..Room(|FreeOf(d.table)|, CapsIn(m))])
  {
    var caps, free := MaskAll(CapsIn(m), bound), FreeOf(d.table);
    forall k | 0 <= k < |caps| ensures caps[k].kind != KIND_INVALID && Sprung(roots, caps[k], m[k].origin) {
      MaskedGood(roots, m, bound, k);
    }
    InstallAdds(d.table, caps);
    Landed(roots, d, m, caps, d');
  }

  lemma {:induction false} Landed(roots: seq<Cap>, d: Domain, m: seq<Parcel>, caps: seq<Cap>, d': Domain)
    requires DomainGood(roots, d) && |caps| == |m|
    requires forall k :: 0 <= k < |caps| ==> Sprung(roots, caps[k], m[k].origin)
    requires Installed(d.table, d'.table, Install(d.table, caps).1, caps)
    requires var free := FreeOf(d.table);
             && (forall k :: 0 <= k < |free| ==> free[k] < |d.origin|)
             && d'.origin == Settle(d.origin, free, m, Room(|free|, caps))
    ensures DomainGood(roots, d')
  {
    var hs, free := Install(d.table, caps).1, FreeOf(d.table);
    var n := Room(|free|, caps);
    assert NoDup(free);
    forall i: nat ensures SlotGood(roots, d', i) {
      if i < |d.origin| && Live(d'.table, i) {
        SettleAt(d.origin, free, m, n, i);
        if i in free[..n] {
          var k: nat :| k < n && free[k] == i;
          assert Lands(free, d'.table, hs, caps, k);
        } else {
          assert SlotGood(roots, d, i);
          KeptAt(free[..n], d.table, d'.table, i);
        }
      }
    }
  }

  lemma KeptAt(used: seq<nat>, t: Slots, t': Slots, i: nat)
    requires forall j: nat :: Kept(used, t, t', j)
    requires i < |t.entries| == |t'.entries| && i !in used
    ensures t'.entries[i] == t.entries[i]
  {
    assert Kept(used, t, t', i);
  }

  // ---------------------------------------------------------------------------- runs

  datatype Event =
    | OnTable(d: nat, op: Op, out: Handle)
    | SendTo(d: nat, q: nat, handles: seq<Handle>)
    | ReceiveFrom(d: nat, q: nat, bound: Rights)
    | Post(q: nat)     // a message without capabilities
    | Discard(q: nat)  // a receive that takes no handles, or the end of a channel

  ghost predicate Happens(s: System, e: Event, s': System) {
    match e
    case OnTable(d, op, out) =>
      && d < |s.domains| == |s'.domains| && s'.queues == s.queues
      && TableStep(s.roots, s.domains[d], op, out, s'.domains[d], s'.roots)
      && s'.domains == s.domains[d := s'.domains[d]]
    case SendTo(d, q, handles) =>
      && d < |s.domains| == |s'.domains| && q < |s.queues| == |s'.queues| && s'.roots == s.roots
      && (exists m :: SendStep(s.domains[d], handles, s'.domains[d], m) && s'.queues == s.queues[q := s.queues[q] + [m]])
      && s'.domains == s.domains[d := s'.domains[d]]
    case ReceiveFrom(d, q, bound) =>
      && d < |s.domains| == |s'.domains| && q < |s.queues| && |s.queues[q]| > 0 && s'.roots == s.roots
      && ReceiveStep(s.domains[d], s.queues[q][0], bound, s'.domains[d])
      && s'.domains == s.domains[d := s'.domains[d]]
      && s'.queues == s.queues[q := s.queues[q][1..]]
    case Post(q) => q < |s.queues| && s' == s.(queues := s.queues[q := s.queues[q] + [[]]])
    case Discard(q) =>
      q < |s.queues| && |s.queues[q]| > 0 && s' == s.(queues := s.queues[q := s.queues[q][1..]])
  }

  lemma DomainMore(roots: seq<Cap>, roots': seq<Cap>, d: Domain)
    requires DomainGood(roots, d) && roots <= roots'
    ensures DomainGood(roots', d)
  {
    forall i: nat ensures SlotGood(roots', d, i) {
      assert SlotGood(roots, d, i);
      if i < |d.origin| && Live(d.table, i) { SprungMore(roots, roots', CapOf(d.table.entries[i]), d.origin[i]); }
    }
  }

  lemma QueueMore(roots: seq<Cap>, roots': seq<Cap>, q: seq<seq<Parcel>>)
    requires QueueGood(roots, q) && roots <= roots'
    ensures QueueGood(roots', q)
  {
    forall k, j | 0 <= k < |q| && 0 <= j < |q[k]| ensures ParcelGood(roots', q[k][j]) {
      assert MessageGood(roots, q[k]);
      assert ParcelGood(roots, q[k][j]);
      SprungMore(roots, roots', q[k][j].cap, q[k][j].origin);
    }
  }

  lemma {:induction false} EventGood(s: System, e: Event, s': System)
    requires Good(s) && Happens(s, e, s')
    ensures Good(s') && s.roots <= s'.roots
  {
    hide DomainGood, QueueGood, TableStep, SendStep, ReceiveStep;
    match e
    case OnTable(d, op, out) =>
      TableStepGood(s.roots, s.domains[d], op, out, s'.domains[d], s'.roots);
      forall k | 0 <= k < |s'.domains| ensures DomainGood(s'.roots, s'.domains[k]) {
        if k != d { DomainMore(s.roots, s'.roots, s.domains[k]); }
      }
      forall q | 0 <= q < |s'.queues| ensures QueueGood(s'.roots, s'.queues[q]) {
        QueueMore(s.roots, s'.roots, s.queues[q]);
      }
    case SendTo(d, q, handles) =>
      var m :| SendStep(s.domains[d], handles, s'.domains[d], m) && s'.queues == s.queues[q := s.queues[q] + [m]];
      SendGood(s.roots, s.domains[d], handles, s'.domains[d], m);
      QueueGrows(s.roots, s.queues[q], m);
    case ReceiveFrom(d, q, bound) =>
      QueueShrinks(s.roots, s.queues[q]);
      ReceiveGood(s.roots, s.domains[d], s.queues[q][0], bound, s'.domains[d]);
    case Post(q) => QueueGrows(s.roots, s.queues[q], []);
    case Discard(q) => QueueShrinks(s.roots, s.queues[q]);
  }

  lemma QueueGrows(roots: seq<Cap>, q: seq<seq<Parcel>>, m: seq<Parcel>)
    requires QueueGood(roots, q) && MessageGood(roots, m)
    ensures QueueGood(roots, q + [m])
  {
  }

  lemma QueueShrinks(roots: seq<Cap>, q: seq<seq<Parcel>>)
    requires QueueGood(roots, q) && |q| > 0
    ensures MessageGood(roots, q[0]) && QueueGood(roots, q[1..])
  {
  }

  ghost predicate HappensAt(path: seq<System>, events: seq<Event>, k: nat)
    requires k < |events| && |path| == |events| + 1
  {
    Happens(path[k], events[k], path[k + 1])
  }

  /** A run from empty tables and empty channels. */
  ghost predicate IsRun(path: seq<System>, events: seq<Event>) {
    && |path| == |events| + 1
    && (forall d :: 0 <= d < |path[0].domains| ==>
          var t := path[0].domains[d].table;
          1 <= |t.entries| <= 0xFFFFFF && t == Empty(|t.entries|) && |path[0].domains[d].origin| == |t.entries|)
    && (forall q :: 0 <= q < |path[0].queues| ==> path[0].queues[q] == [])
    && forall k: nat :: k < |events| ==> HappensAt(path, events, k)
  }

  /** In every state of every run, each live capability in any table and each one in flight has the object
      and kind of the root it descends from, and no right that root lacked; roots are never altered. */
  lemma {:induction false} NoAmplification(path: seq<System>, events: seq<Event>, j: nat, k: nat)
    requires IsRun(path, events) && j <= k <= |events|
    ensures Good(path[k]) && path[j].roots <= path[k].roots
  {
    if k == 0 {
      forall d | 0 <= d < |path[0].domains| ensures DomainGood(path[0].roots, path[0].domains[d]) {
        EmptyWf(|path[0].domains[d].table.entries|);
      }
    } else if j == k {
      NoAmplification(path, events, k - 1, k - 1);
      assert HappensAt(path, events, k - 1);
      EventGood(path[k - 1], events[k - 1], path[k]);
    } else {
      NoAmplification(path, events, j, k - 1);
      assert HappensAt(path, events, k - 1);
      EventGood(path[k - 1], events[k - 1], path[k]);
    }
  }
}

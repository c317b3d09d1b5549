/** Capabilities in messages (kernel/ipc/channel.cpp): what a send takes out of the sender's table and what a
    receive puts into the receiver's. */
module CapTransfer {
  import opened Handles
  import opened Sequences
  import opened CapTable
  import opened ChannelRing

  function CapOf(e: Entry): Cap {
    Cap(e.obj, e.kind, e.rights)
  }

  predicate Sendable(t: Slots, h: Handle) {
    Resolves(t, h) && HasRights(t.entries[Index(h)].rights, CAP_TRANSFER)
  }

  /** The sending loop: each handle that resolves and may be transferred is copied out and removed; the
      others are skipped. */
  function Extract(t: Slots, hs: seq<Handle>): (Slots, seq<Cap>) {
    if hs == [] then (t, [])
    else
      var h := hs[|hs| - 1];
      var (t1, caps) := Extract(t, hs[..|hs| - 1]);
      if Sendable(t1, h) then (Remove(t1, h), caps + [CapOf(t1.entries[Index(h)])]) else (t1, caps)
  }

  /** Rights outside the receiver's bounding set are dropped. */
  function Mask(c: Cap, bound: Rights): Cap {
    c.(rights := c.rights & bound)
  }

  function MaskAll(caps: seq<Cap>, bound: Rights): (r: seq<Cap>)
    ensures |r| == |caps| && forall k :: 0 <= k < |caps| ==> r[k] == Mask(caps[k], bound)
  {
    seq(|caps|, k requires 0 <= k < |caps| => Mask(caps[k], bound))
  }

  /** The receiving loop, on the masked capabilities: each is inserted while there is room. */
  function Install(t: Slots, caps: seq<Cap>): (r: (Slots, seq<Handle>))
    requires Bounded(t)
    ensures Bounded(r.0)
  {
    if caps == [] then (t, [])
    else
      var c := caps[|caps| - 1];
      var (t1, hs) := Install(t, caps[..|caps| - 1]);
      var (t2, h) := Insert(t1, c.obj, c.kind, c.rights);
      if h != HANDLE_INVALID then (t2, hs + [h]) else (t2, hs)
  }

  // ---------------------------------------------------------------- whole calls

  /** `try_send` by the owner of a table: the ring takes the message with the capabilities that left the table, or
      refuses it and nothing changes. */
  predicate Sends(t: Slots, c: Chan, data: Payload, size: nat, hs: seq<Handle>, sender: nat, t': Slots, c': Chan) {
    var (t1, caps) := Extract(t, hs);
    var op := TrySend(data, size, |hs|, caps, sender);
    && RingOk(c.ring) && Sane(op)
    && c' == Next(c, op) && t' == if SendCode(c, size, |hs|) == Ok then t1 else t
  }

  /** `try_recv` by the owner of a table: the oldest message leaves the ring and its capabilities, masked, enter the
      table under the handles returned; without a message nothing changes. */
  predicate Receives(t: Slots, c: Chan, bound: Rights, t': Slots, handles: seq<Handle>, c': Chan) {
    && RingOk(c.ring) && Bounded(t) && c' == Next(c, TryRecv)
    && (t', handles) ==
       if RecvCode(c).Got? then Install(t, MaskAll(c.ring.slots[c.ring.read].caps, bound)) else (t, [])
  }

  lemma InstallNext(t: Slots, caps: seq<Cap>, i: nat)
    requires Bounded(t) && i < |caps|
    ensures var (t1, hs) := Install(t, caps[..i]);
            var (t2, h) := Insert(t1, caps[i].obj, caps[i].kind, caps[i].rights);
            Install(t, caps[..i + 1]) == (t2, if h != HANDLE_INVALID then hs + [h] else hs)
  {
    assert caps[..i + 1][..i] == caps[..i];
  }

  // ---------------------------------------------------------------------- multisets

  ghost function One(e: Entry): multiset<Cap> {
    if e.kind != KIND_INVALID then multiset{CapOf(e)} else multiset{}
  }

  /** The capabilities living in the first `k` slots. */
  ghost function LiveBelow(entries: seq<Entry>, k: nat): multiset<Cap>
    requires k <= |entries|
  {
    if k == 0 then multiset{} else LiveBelow(entries, k - 1) + One(entries[k - 1])
  }

  ghost function LiveCaps(t: Slots): multiset<Cap> {
    LiveBelow(t.entries, |t.entries|)
  }

  lemma {:induction false} LiveBelowFrame(entries: seq<Entry>, i: nat, e: Entry, k: nat)
    requires k <= i < |entries|
    ensures LiveBelow(entries[i := e], k) == LiveBelow(entries, k)
  {
    if k > 0 { LiveBelowFrame(entries, i, e, k - 1); }
  }

  lemma {:induction false} LiveBelowSet(entries: seq<Entry>, i: nat, e: Entry, k: nat)
    requires i < k <= |entries|
    ensures LiveBelow(entries[i := e], k) + One(entries[i]) == LiveBelow(entries, k) + One(e)
  {
    hide One;
    var y := LiveBelow(entries, k - 1);
    if i == k - 1 {
      LiveBelowFrame(entries, i, e, i);
      assert (y + One(e)) + One(entries[i]) == (y + One(entries[i])) + One(e);
    } else {
      LiveBelowSet(entries, i, e, k - 1);
      Exchange(LiveBelow(entries[i := e], k - 1), y, One(entries[i]), One(e), One(entries[k - 1]));
    }
  }

  lemma Exchange<T>(x: multiset<T>, y: multiset<T>, a: multiset<T>, b: multiset<T>, c: multiset<T>)
    requires x + a == y + b
    ensures (x + c) + a == (y + c) + b
  {
    assert (x + c) + a == (x + a) + c;
    assert (y + c) + b == (y + b) + c;
  }

  /** Emptying one slot takes one capability away; filling a free one adds one. */
  lemma RemoveTakes(t: Slots, h: Handle)
    requires Resolves(t, h)
    ensures LiveCaps(t) == LiveCaps(Remove(t, h)) + multiset{CapOf(t.entries[Index(h)])}
  {
    var i := Index(h);
    var e := Remove(t, h).entries[i];
    LiveBelowSet(t.entries, i, e, |t.entries|);
    assert Remove(t, h).entries == t.entries[i := e];
    assert LiveCaps(t) + One(e) == LiveCaps(t);
  }

  // --------------------------------------------------------------------------- send

  /** The slots a send empties: those named by a sendable handle, each once. */
  function Picks(t: Slots, hs: seq<Handle>): (r: seq<nat>)
    ensures NoDup(r) && |r| <= |hs|
    ensures forall i :: i in r <==> exists k :: 0 <= k < |hs| && Sendable(t, hs[k]) && Index(hs[k]) == i
  {
    if hs == [] then []
    else
      var h := hs[|hs| - 1];
      var r := Picks(t, hs[..|hs| - 1]);
      assert forall i :: i in r ==> exists k :: 0 <= k < |hs| - 1 && Sendable(t, hs[..|hs| - 1][k]) && Index(hs[k]) == i;
      if Sendable(t, h) && Index(h) !in r then r + [Index(h)] else r
  }

  function CapsAt(t: Slots, at: seq<nat>): (r: seq<Cap>)
    ensures |r| == |at|
    ensures forall k :: 0 <= k < |at| && at[k] < |t.entries| ==> r[k] == CapOf(t.entries[at[k]])
  {
    if at == [] then []
    else
      var i := at[|at| - 1];
      CapsAt(t, at[..|at| - 1]) + [if i < |t.entries| then CapOf(t.entries[i]) else Cap(0, 0, 0)]
  }

  predicate Untouched(t: Slots, t': Slots, picks: seq<nat>, i: nat) {
    i < |t.entries| == |t'.entries| ==>
      if i in picks then !Live(t', i) else t'.entries[i] == t.entries[i]
  }

  /** A send takes exactly the capabilities that its sendable handles name, each once however often it is
      named; nothing is lost or made: what the table held is what it still holds and what travels. */
  lemma {:induction false} ExtractConserves(t: Slots, hs: seq<Handle>)
    requires Wf(t)
    ensures var (t', caps) := Extract(t, hs);
            && Wf(t') && |t'.entries| == |t.entries|
            && caps == CapsAt(t, Picks(t, hs))
            && (forall i: nat :: Untouched(t, t', Picks(t, hs), i))
            && LiveCaps(t) == LiveCaps(t') + multiset(caps)
  {
    if hs == [] {
      assert multiset(Extract(t, hs).1) == multiset{};
      assert LiveCaps(t) == LiveCaps(t) + multiset{};
    } else {
      hide Wf, LiveCaps, Resolves, Remove;
      var h, rest := hs[|hs| - 1], hs[..|hs| - 1];
      ExtractConserves(t, rest);
      ExtractStep(t, Extract(t, rest).0, Extract(t, rest).1, Picks(t, rest), h);
    }
  }

  lemma ExtractStep(t: Slots, t1: Slots, caps: seq<Cap>, picks: seq<nat>, h: Handle)
    requires Wf(t) && Wf(t1) && |t1.entries| == |t.entries| && caps == CapsAt(t, picks)
    requires forall i: nat :: Untouched(t, t1, picks, i)
    requires LiveCaps(t) == LiveCaps(t1) + multiset(caps)
    ensures Sendable(t1, h) <==> Sendable(t, h) && Index(h) !in picks
    ensures Sendable(t1, h) ==>
              var i, t2 := Index(h), Remove(t1, h);
              && Wf(t2) && |t2.entries| == |t.entries| && CapOf(t1.entries[i]) == CapOf(t.entries[i])
              && caps + [CapOf(t.entries[i])] == CapsAt(t, picks + [i])
              && (forall j: nat :: Untouched(t, t2, picks + [i], j))
              && LiveCaps(t) == LiveCaps(t2) + multiset(caps + [CapOf(t.entries[i])])
  {
    hide Index, HasRights, FreeList, FreeOf, LiveCaps;
    var i := Index(h);
    assert Untouched(t, t1, picks, i);
    if Sendable(t1, h) {
      RemoveWf(t1, h);
      RemoveTakes(t1, h);
      TakenOnce(t, t1, picks, h);
      CapsCarried(LiveCaps(t), LiveCaps(t1), LiveCaps(Remove(t1, h)), caps, CapOf(t.entries[i]));
      assert (picks + [i])[..|picks|] == picks;
    }
  }

  lemma TakenOnce(t: Slots, t1: Slots, picks: seq<nat>, h: Handle)
    requires |t1.entries| == |t.entries| && Resolves(t1, h) && forall i: nat :: Untouched(t, t1, picks, i)
    ensures forall j: nat :: Untouched(t, Remove(t1, h), picks + [Index(h)], j)
  {
    forall j: nat ensures Untouched(t, Remove(t1, h), picks + [Index(h)], j) { assert Untouched(t, t1, picks, j); }
  }

  lemma CapsCarried(all: multiset<Cap>, before: multiset<Cap>, after: multiset<Cap>, caps: seq<Cap>, c: Cap)
    requires all == before + multiset(caps) && before == after + multiset{c}
    ensures all == after + multiset(caps + [c])
  {
    assert multiset(caps + [c]) == multiset(caps) + multiset{c};
  }

  // ------------------------------------------------------------------------ receive

  predicate Valid(caps: seq<Cap>) {
    forall k :: 0 <= k < |caps| ==> caps[k].kind != KIND_INVALID
  }

  /** How many of the capabilities find room in `free` slots. */
  function Room(free: nat, caps: seq<Cap>): nat {
    if |caps| <= free then |caps| else free
  }

  /** The `k`-th capability landed in the `k`-th free slot, and the handle returned names it there. */
  predicate Lands(free: seq<nat>, t: Slots, hs: seq<Handle>, caps: seq<Cap>, k: nat) {
    k < |hs| && k < |caps| && k < |free| ==>
      Index(hs[k]) == free[k] && Resolves(t, hs[k]) && CapOf(t.entries[Index(hs[k])]) == caps[k]
  }

  predicate Kept(used: seq<nat>, t: Slots, t': Slots, i: nat) {
    i < |t.entries| == |t'.entries| && i !in used ==> t'.entries[i] == t.entries[i]
  }

  /** The first capabilities of the message, as many as there are free slots, each
      once, are in the table; nothing else changed. */
  ghost predicate Installed(t: Slots, t': Slots, hs: seq<Handle>, caps: seq<Cap>) {
    var l := FreeOf(t);
    var m := Room(|l|, caps);
    && Wf(t') && |t'.entries| == |t.entries| && FreeOf(t') == l[m..] && |hs| == m
    && (forall k: nat :: Lands(l, t', hs, caps, k))
    && (forall i: nat :: Kept(l[..m], t, t', i))
    && LiveCaps(t') == LiveCaps(t) + multiset(caps[..m])
  }

  /** Inserting while a slot is free: the first free slot holds the capability, under the handle returned. */
  lemma InsertAdds(t: Slots, c: Cap)
    requires Wf(t) && c.kind != KIND_INVALID && FreeOf(t) != []
    ensures var (t', h) := Insert(t, c.obj, c.kind, c.rights);
            var x := FreeOf(t)[0];
            && Wf(t') && |t'.entries| == |t.entries| && FreeOf(t') == FreeOf(t)[1..]
            && h != HANDLE_INVALID && Index(h) == x < |t.entries| && Resolves(t', h)
            && CapOf(t'.entries[x]) == c
            && (forall i: nat :: i < |t.entries| && i != x ==> t'.entries[i] == t.entries[i])
            && LiveCaps(t') == LiveCaps(t) + multiset{c}
  {
    FillPops(t, c.obj, c.kind, c.rights, NO_PARENT);
    var t', i := Insert(t, c.obj, c.kind, c.rights).0, t.freeHead;
    assert i in FreeOf(t);
    HandleRoundTrip(i, t.entries[i].gen);
    LiveBelowSet(t.entries, i, t'.entries[i], |t.entries|);
    assert LiveCaps(t') + multiset{} == LiveCaps(t');
  }

  lemma {:induction false} InstallAdds(t: Slots, caps: seq<Cap>)
    requires Wf(t) && Valid(caps)
    ensures Installed(t, Install(t, caps).0, Install(t, caps).1, caps)
  {
    if caps == [] {
      InstallsNone(t);
    } else {
      hide Installed, FreeList, Insert, LiveCaps;
      var rest := caps[..|caps| - 1];
      InstallAdds(t, rest);
      InstallStep(t, Install(t, rest).0, Install(t, rest).1, caps);
    }
  }

  lemma InstallsNone(t: Slots)
    requires Wf(t)
    ensures Installed(t, t, [], [])
  {
    var none: seq<Cap> := [];
    assert multiset(none[..0]) == multiset{};
    assert LiveCaps(t) == LiveCaps(t) + multiset{};
    assert FreeOf(t)[0..] == FreeOf(t);
  }

  lemma InstallStep(t: Slots, t1: Slots, hs: seq<Handle>, caps: seq<Cap>)
    requires Wf(t) && Valid(caps) && caps != [] && Bounded(t1) && Installed(t, t1, hs, caps[..|caps| - 1])
    ensures var c := caps[|caps| - 1];
            var (t', h) := Insert(t1, c.obj, c.kind, c.rights);
            Installed(t, t', if h != HANDLE_INVALID then hs + [h] else hs, caps)
  {
    if |hs| < |FreeOf(t)| {
      InstallRoom(t, t1, hs, caps);
    } else {
      InstallFull(t, t1, hs, caps);
    }
  }

  lemma InstallFull(t: Slots, t1: Slots, hs: seq<Handle>, caps: seq<Cap>)
    requires Wf(t) && Valid(caps) && caps != [] && Bounded(t1) && Installed(t, t1, hs, caps[..|caps| - 1])
    requires |hs| >= |FreeOf(t)|
    ensures var c := caps[|caps| - 1];
            Insert(t1, c.obj, c.kind, c.rights) == (t1, HANDLE_INVALID) && Installed(t, t1, hs, caps)
  {
    var rest, l := caps[..|caps| - 1], FreeOf(t);
    FillWf(t1, 0, 1, 0, 0);
    assert FreeOf(t1) == [];
    hide FreeOf, LiveCaps, Resolves;
    assert rest[..|l|] == caps[..|l|];
    forall k: nat ensures Lands(l, t1, hs, caps, k) { assert Lands(l, t1, hs, rest, k); }
  }

  lemma InstallRoom(t: Slots, t1: Slots, hs: seq<Handle>, caps: seq<Cap>)
    requires Wf(t) && Valid(caps) && caps != [] && Bounded(t1) && Installed(t, t1, hs, caps[..|caps| - 1])
    requires |hs| < |FreeOf(t)|
    ensures var c := caps[|caps| - 1];
            var (t', h) := Insert(t1, c.obj, c.kind, c.rights);
            h != HANDLE_INVALID && Installed(t, t', hs + [h], caps)
  {
    var rest, c, l := caps[..|caps| - 1], caps[|caps| - 1], FreeOf(t);
    assert NoDup(l);
    var (t', h) := Insert(t1, c.obj, c.kind, c.rights);
    assert Wf(t1) && |t1.entries| == |t.entries| && |hs| == |rest| && FreeOf(t1) == l[|rest|..];
    assert LiveCaps(t1) == LiveCaps(t) + multiset(rest) by { assert rest[..|rest|] == rest; }
    RoomAll(l, t, t1, t', hs, h, caps);
    InstalledFrom(t, t', hs + [h], caps);
  }

  lemma InstalledFrom(t: Slots, t': Slots, hs: seq<Handle>, caps: seq<Cap>)
    requires |caps| <= |FreeOf(t)| && |hs| == |caps|
    requires Wf(t') && |t'.entries| == |t.entries| && FreeOf(t') == FreeOf(t)[|caps|..]
    requires forall k: nat :: Lands(FreeOf(t), t', hs, caps, k)
    requires var used := FreeOf(t)[..|caps|]; forall i: nat :: Kept(used, t, t', i)
    requires LiveCaps(t') == LiveCaps(t) + multiset(caps)
    ensures Installed(t, t', hs, caps)
  {
    assert caps[..|caps|] == caps;
  }

  lemma RoomAll(l: seq<nat>, t: Slots, t1: Slots, t': Slots, hs: seq<Handle>, h: Handle, caps: seq<Cap>)
    requires caps != [] && |hs| == |caps| - 1 < |l| && NoDup(l) && caps[|hs|].kind != KIND_INVALID
    requires Wf(t1) && |t1.entries| == |t.entries| && FreeOf(t1) == l[|hs|..]
    requires (t', h) == Insert(t1, caps[|hs|].obj, caps[|hs|].kind, caps[|hs|].rights)
    requires var rest := caps[..|caps| - 1];
             && (forall k: nat :: Lands(l, t1, hs, rest, k))
             && LiveCaps(t1) == LiveCaps(t) + multiset(rest)
    requires var used := l[..|hs|]; forall i: nat :: Kept(used, t, t1, i)
    ensures h != HANDLE_INVALID && Wf(t') && |t'.entries| == |t.entries| && FreeOf(t') == l[|caps|..]
    ensures forall k: nat :: Lands(l, t', hs + [h], caps, k)
    ensures var used := l[..|caps|]; forall i: nat :: Kept(used, t, t', i)
    ensures LiveCaps(t') == LiveCaps(t) + multiset(caps)
  {
    hide Wf, FreeOf, LiveCaps, Insert, Resolves, Index, NoDup;
    var m := |hs|;
    InsertAdds(t1, caps[m]);
    assert l[m..][0] == l[m] && l[m..][1..] == l[m + 1..];
    KeptThen(l[..m], l[..m + 1], t, t1, t', l[m]);
    LandsThen(l, t1, t', hs, h, caps);
    CapsLanded(LiveCaps(t), LiveCaps(t1), LiveCaps(t'), caps[..m], caps);
  }

  lemma KeptThen(used: seq<nat>, used': seq<nat>, t: Slots, t1: Slots, t': Slots, x: nat)
    requires used' == used + [x] && |t1.entries| == |t.entries| == |t'.entries|
    requires forall i: nat :: Kept(used, t, t1, i)
    requires forall i: nat :: i < |t.entries| && i != x ==> t'.entries[i] == t1.entries[i]
    ensures forall i: nat :: Kept(used', t, t', i)
  {
    forall i: nat ensures Kept(used', t, t', i) { assert Kept(used, t, t1, i); }
  }

  lemma CapsLanded(all: multiset<Cap>, before: multiset<Cap>, after: multiset<Cap>, rest: seq<Cap>, caps: seq<Cap>)
    requires caps != [] && rest == caps[..|caps| - 1]
    requires before == all + multiset(rest)
    requires after == before + multiset{caps[|caps| - 1]}
    ensures after == all + multiset(caps)
  {
    var c := caps[|caps| - 1];
    assert caps == rest + [c];
    assert multiset(rest + [c]) == multiset(rest) + multiset{c};
  }

  lemma LandsThen(l: seq<nat>, t1: Slots, t': Slots, hs: seq<Handle>, h: Handle, caps: seq<Cap>)
    requires caps != [] && |hs| == |caps| - 1 < |l| && NoDup(l) && |t'.entries| == |t1.entries|
    requires var rest := caps[..|caps| - 1]; forall k: nat :: Lands(l, t1, hs, rest, k)
    requires forall i: nat :: i < |t1.entries| && i != l[|hs|] ==> t'.entries[i] == t1.entries[i]
    requires h != HANDLE_INVALID && Index(h) == l[|hs|] < |t'.entries| && Resolves(t', h)
    requires CapOf(t'.entries[l[|hs|]]) == caps[|hs|]
    ensures forall k: nat :: Lands(l, t', hs + [h], caps, k)
  {
    hide Index, Gen;
    var rest := caps[..|caps| - 1];
    forall k: nat ensures Lands(l, t', hs + [h], caps, k) { assert Lands(l, t1, hs, rest, k); }
  }
}

/** The life of channels under reference-counted wrappers (kernel/kobj/channel.cpp, kernel/ipc/channel.cpp):
    wrappers are created with both ends, or around one end of an open channel, and each end is given up in a
    step of its own when the wrapper dies. */
module ChannelLifetime {
  const ID_LIMIT := 0x1_0000_0000

  datatype Slot = Slot(id: nat, open: bool, sendRefs: nat, recvRefs: nat)

  /** A wrapper and the ends of the channel it still owns. */
  datatype Wrapper = Wrapper(id: nat, send: bool, recv: bool)

  datatype Option = None | Some(value: nat)

  /** `nextId` is the identifier the next channel gets; it is kept in 32 bits. */
  datatype World = World(slots: seq<Slot>, nextId: nat, wrappers: seq<Wrapper>)

  // -------------------------------------------------------------------- operations

  function FreeFrom(slots: seq<Slot>, i: nat): (r: Option)
    requires i <= |slots|
    ensures r.None? ==> forall j :: i <= j < |slots| ==> slots[j].open
    ensures r.Some? ==> i <= r.value < |slots| && !slots[r.value].open
    decreases |slots| - i
  {
    if i == |slots| then None else if !slots[i].open then Some(i) else FreeFrom(slots, i + 1)
  }

  function FindFrom(slots: seq<Slot>, id: nat, i: nat): (r: Option)
    requires i <= |slots|
    ensures r.None? ==> forall j :: i <= j < |slots| ==> !(slots[j].open && slots[j].id == id)
    ensures r.Some? ==> i <= r.value < |slots| && slots[r.value].open && slots[r.value].id == id
    decreases |slots| - i
  {
    if i == |slots| then None
    else if slots[i].id == id && slots[i].open then Some(i)
    else FindFrom(slots, id, i + 1)
  }

  /** A channel with both ends counted once, and the wrapper that owns them. */
  function Create(w: World): World {
    match FreeFrom(w.slots, 0)
    case None => w
    case Some(i) =>
      World(w.slots[i := Slot(w.nextId, true, 1, 1)], (w.nextId + 1) % ID_LIMIT,
            w.wrappers + [Wrapper(w.nextId, true, true)])
  }

  function AddRef(s: Slot, send: bool): Slot {
    if send then s.(sendRefs := s.sendRefs + 1) else s.(recvRefs := s.recvRefs + 1)
  }

  /** Give up one count of one end; a channel with no counts left is freed. */
  function DropRef(s: Slot, send: bool): Slot {
    var d := if send then s.(sendRefs := if s.sendRefs > 0 then s.sendRefs - 1 else 0)
             else s.(recvRefs := if s.recvRefs > 0 then s.recvRefs - 1 else 0);
    if d.sendRefs == 0 && d.recvRefs == 0 then d.(open := false, id := 0) else d
  }

  function Wrap(w: World, id: nat, send: bool): World {
    match FindFrom(w.slots, id, 0)
    case None => w
    case Some(i) =>
      w.(slots := w.slots[i := AddRef(w.slots[i], send)], wrappers := w.wrappers + [Wrapper(id, send, !send)])
  }

  /** The destructor's step for one end. */
  function GiveUp(w: World, k: nat, send: bool): World
    requires k < |w.wrappers|
  {
    var x := w.wrappers[k];
    var x' := if send then x.(send := false) else x.(recv := false);
    var w' := w.(wrappers := w.wrappers[k := x']);
    match FindFrom(w.slots, x.id, 0)
    case None => w'
    case Some(i) => w'.(slots := w.slots[i := DropRef(w.slots[i], send)])
  }

  datatype Op = OpCreate | OpWrap(id: nat, send: bool) | OpGiveUp(k: nat, send: bool)

  /** Fewer than 2^32 - 1 channels are ever created; a dying wrapper gives up its sending end first. */
  predicate Enabled(w: World, op: Op) {
    match op
    case OpCreate => w.nextId + 1 < ID_LIMIT
    case OpWrap(id, send) => true
    case OpGiveUp(k, send) =>
      k < |w.wrappers| && if send then w.wrappers[k].send else w.wrappers[k].recv && !w.wrappers[k].send
  }

  function Next(w: World, op: Op): World
    requires Enabled(w, op)
  {
    match op
    case OpCreate => Create(w)
    case OpWrap(id, send) => Wrap(w, id, send)
    case OpGiveUp(k, send) => GiveUp(w, k, send)
  }

  // --------------------------------------------------------------------- invariant

  predicate Owns(x: Wrapper, id: nat, send: bool) {
    x.id == id && if send then x.send else x.recv
  }

  function Owners(ws: seq<Wrapper>, id: nat, send: bool): nat {
    if ws == [] then 0
    else Owners(ws[..|ws| - 1], id, send) + (if Owns(ws[|ws| - 1], id, send) then 1 else 0)
  }

  lemma {:induction false} OwnersSet(ws: seq<Wrapper>, k: nat, x: Wrapper, id: nat, send: bool)
    requires k < |ws|
    ensures (if Owns(ws[k], id, send) then 1 else 0) <= Owners(ws, id, send)
    ensures Owners(ws[k := x], id, send) ==
              Owners(ws, id, send) - (if Owns(ws[k], id, send) then 1 else 0) + (if Owns(x, id, send) then 1 else 0)
  {
    var e := |ws| - 1;
    var u := ws[k := x];
    if k == e {
      assert u[..e] == ws[..e];
    } else {
      OwnersSet(ws[..e], k, x, id, send);
      assert u[..e] == ws[..e][k := x];
    }
  }

  lemma OwnersAdd(ws: seq<Wrapper>, x: Wrapper, id: nat, send: bool)
    ensures Owners(ws + [x], id, send) == Owners(ws, id, send) + (if Owns(x, id, send) then 1 else 0)
  {
    assert (ws + [x])[..|ws|] == ws;
  }

  predicate IsOpen(w: World, id: nat) {
    exists i :: 0 <= i < |w.slots| && w.slots[i].open && w.slots[i].id == id
  }

  predicate SlotOk(w: World, i: nat) {
    i < |w.slots| && w.slots[i].open ==>
      var s := w.slots[i];
      && 0 < s.id < w.nextId
      && s.sendRefs == Owners(w.wrappers, s.id, true) && s.recvRefs == Owners(w.wrappers, s.id, false)
      && s.sendRefs + s.recvRefs > 0
  }

  /** Identifiers of open channels are distinct and not zero; each end's count is the number of wrappers that
      own it; a channel is open exactly while some wrapper owns an end of it. */
  ghost predicate Inv(w: World) {
    && 0 < w.nextId < ID_LIMIT
    && (forall i: nat :: SlotOk(w, i))
    && (forall i: nat, j: nat :: i < j < |w.slots| && w.slots[i].open && w.slots[j].open ==>
          w.slots[i].id != w.slots[j].id)
    && forall id: nat, send: bool :: Owners(w.wrappers, id, send) > 0 ==> IsOpen(w, id)
  }

  lemma NextIdFresh(w: World)
    requires Inv(w)
    ensures !IsOpen(w, w.nextId) && forall send: bool :: Owners(w.wrappers, w.nextId, send) == 0
  {
    forall j | 0 <= j < |w.slots| ensures !(w.slots[j].open && w.slots[j].id == w.nextId) { assert SlotOk(w, j); }
  }

  lemma CreateInv(w: World)
    requires Inv(w) && w.nextId + 1 < ID_LIMIT
    ensures Inv(Create(w))
  {
    NextIdFresh(w);
    hide Owners;
    var w' := Create(w);
    if FreeFrom(w.slots, 0).Some? {
      var i, x := FreeFrom(w.slots, 0).value, Wrapper(w.nextId, true, true);
      assert w'.nextId == w.nextId + 1;
      forall j: nat ensures SlotOk(w', j) { CreatedSlot(w, w', i, j); }
      forall j: nat, k: nat | j < k < |w'.slots| && w'.slots[j].open && w'.slots[k].open
        ensures w'.slots[j].id != w'.slots[k].id
      {
        assert SlotOk(w, j) && SlotOk(w, k);
      }
      forall id: nat, send: bool | Owners(w'.wrappers, id, send) > 0 ensures IsOpen(w', id) {
        OwnersAdd(w.wrappers, x, id, send);
        StillOpen(w, w', i, id);
      }
    }
  }

  lemma CreatedSlot(w: World, w': World, i: nat, j: nat)
    requires Inv(w) && i < |w.slots| && (forall send: bool :: Owners(w.wrappers, w.nextId, send) == 0)
    requires w' == World(w.slots[i := Slot(w.nextId, true, 1, 1)], w.nextId + 1,
                         w.wrappers + [Wrapper(w.nextId, true, true)])
    ensures SlotOk(w', j)
  {
    hide Owners;
    assert SlotOk(w, j);
    if j < |w.slots| && w'.slots[j].open {
      OwnersAdd(w.wrappers, Wrapper(w.nextId, true, true), w'.slots[j].id, true);
      OwnersAdd(w.wrappers, Wrapper(w.nextId, true, true), w'.slots[j].id, false);
    }
  }

  /** A channel in another slot stays open. */
  lemma StillOpen(w: World, w': World, i: nat, id: nat)
    requires i < |w.slots| == |w'.slots| && forall j :: 0 <= j < |w.slots| && j != i ==> w'.slots[j] == w.slots[j]
    requires w.slots[i].open && w.slots[i].id == id ==> w'.slots[i].open && w'.slots[i].id == id
    ensures IsOpen(w, id) ==> IsOpen(w', id)
    ensures w'.slots[i].open ==> IsOpen(w', w'.slots[i].id)
  {
    if IsOpen(w, id) {
      var j :| 0 <= j < |w.slots| && w.slots[j].open && w.slots[j].id == id;
      assert w'.slots[j].open && w'.slots[j].id == id;
    }
  }

  lemma WrapInv(w: World, id: nat, send: bool)
    requires Inv(w)
    ensures Inv(Wrap(w, id, send))
  {
    var w' := Wrap(w, id, send);
    if FindFrom(w.slots, id, 0).Some? {
      var i, x := FindFrom(w.slots, id, 0).value, Wrapper(id, send, !send);
      forall j: nat ensures SlotOk(w', j) {
        assert SlotOk(w, j);
        if j < |w.slots| && w'.slots[j].open {
          OwnersAdd(w.wrappers, x, w'.slots[j].id, true);
          OwnersAdd(w.wrappers, x, w'.slots[j].id, false);
        }
      }
      forall n: nat, e: bool | Owners(w'.wrappers, n, e) > 0 ensures IsOpen(w', n) {
        OwnersAdd(w.wrappers, x, n, e);
        StillOpen(w, w', i, n);
      }
    }
  }

  lemma GiveUpInv(w: World, k: nat, send: bool)
    requires Inv(w) && Enabled(w, OpGiveUp(k, send))
    ensures Inv(GiveUp(w, k, send))
  {
    var w', x := GiveUp(w, k, send), w.wrappers[k];
    var x' := w'.wrappers[k];
    OwnersSet(w.wrappers, k, x', x.id, send);
    assert IsOpen(w, x.id);
    var i := FindFrom(w.slots, x.id, 0).value;
    forall j: nat ensures SlotOk(w', j) {
      assert SlotOk(w, j) && SlotOk(w, i);
      if j < |w.slots| && w.slots[j].open {
        OwnersSet(w.wrappers, k, x', w.slots[j].id, true);
        OwnersSet(w.wrappers, k, x', w.slots[j].id, false);
      }
    }
    forall n: nat, e: bool | Owners(w'.wrappers, n, e) > 0 ensures IsOpen(w', n) {
      OwnersSet(w.wrappers, k, x', n, e);
      if n == x.id {
        OwnersSet(w.wrappers, k, x', n, true);
        OwnersSet(w.wrappers, k, x', n, false);
        assert SlotOk(w, i);
        assert w'.slots[i].open && w'.slots[i].id == n;
      } else {
        StillOpen(w, w', i, n);
      }
    }
  }

  lemma NextInv(w: World, op: Op)
    requires Inv(w) && Enabled(w, op)
    ensures Inv(Next(w, op))
  {
    match op
    case OpCreate => CreateInv(w);
    case OpWrap(id, send) => WrapInv(w, id, send);
    case OpGiveUp(k, send) => GiveUpInv(w, k, send);
  }

  /** A channel is freed by exactly those steps after which no wrapper owns an end of it any more. */
  lemma FreedWithLastWrapper(w: World, op: Op, i: nat)
    requires Inv(w) && Enabled(w, op) && i < |w.slots| && w.slots[i].open
    ensures var w', id := Next(w, op), w.slots[i].id;
            && i < |w'.slots|
            && (!w'.slots[i].open <==> Owners(w'.wrappers, id, true) == 0 && Owners(w'.wrappers, id, false) == 0)
            && (w'.slots[i].open ==> w'.slots[i].id == id)
            && (!w'.slots[i].open ==> op.OpGiveUp? && w.wrappers[op.k].id == id)
  {
    var w', id := Next(w, op), w.slots[i].id;
    NextInv(w, op);
    assert SlotOk(w, i) && SlotOk(w', i);
    if op.OpGiveUp? {
      var k := op.k;
      OwnersSet(w.wrappers, k, w'.wrappers[k], id, true);
      OwnersSet(w.wrappers, k, w'.wrappers[k], id, false);
      OwnersSet(w.wrappers, k, w'.wrappers[k], w.wrappers[k].id, op.send);
    }
  }

  // -------------------------------------------------------------------------- runs

  predicate StepAt(path: seq<World>, ops: seq<Op>, k: nat)
    requires k < |ops| && |path| == |ops| + 1
  {
    Enabled(path[k], ops[k]) && path[k + 1] == Next(path[k], ops[k])
  }

  predicate IsRun(path: seq<World>, ops: seq<Op>) {
    && |path| == |ops| + 1
    && path[0].nextId == 1 && path[0].wrappers == []
    && (forall i :: 0 <= i < |path[0].slots| ==> !path[0].slots[i].open)
    && forall k: nat :: k < |ops| ==> StepAt(path, ops, k)
  }

  lemma {:induction false} RunInv(path: seq<World>, ops: seq<Op>, k: nat)
    requires IsRun(path, ops) && k <= |ops|
    ensures Inv(path[k])
  {
    if k > 0 {
      RunInv(path, ops, k - 1);
      assert StepAt(path, ops, k - 1);
      NextInv(path[k - 1], ops[k - 1]);
    }
  }

  // -------------------------------------------------------------- the channel table

  /** The global table of channels, searched and updated in place. */
  class Registry {
    const channels: array<Slot>
    var nextId: nat

    ghost function State(wrappers: seq<Wrapper>): World
      reads this, channels
    {
      World(channels[..], nextId, wrappers)
    }

    /** `init`: every slot free, and a run starts here. */
    constructor (size: nat)
      ensures fresh(channels) && channels.Length == size && IsRun([State([])], [])
    {
      channels := new Slot[size](_ => Slot(0, true, 0, 0));
      nextId := 1;
      new;
      for i := 0 to size
        invariant nextId == 1 && forall k :: 0 <= k < i ==> channels[k] == Slot(0, false, 0, 0)
      {
        channels[i] := Slot(0, false, 0, 0);
      }
    }

    method FindOpen(id: nat) returns (r: Option)
      ensures r == FindFrom(channels[..], id, 0)
    {
      for i := 0 to channels.Length
        invariant FindFrom(channels[..], id, 0) == FindFrom(channels[..], id, i)
      {
        if channels[i].id == id && channels[i].open { return Some(i); }
      }
      r := None;
    }

    /** The new channel's identifier, or nothing when every slot is taken. */
    method CreateChannel(ghost ws: seq<Wrapper>) returns (r: Option)
      modifies this, channels
      ensures State(if r.Some? then ws + [Wrapper(r.value, true, true)] else ws) == Create(old(State(ws)))
    {
      for i := 0 to channels.Length
        invariant State(ws) == old(State(ws)) && FreeFrom(channels[..], 0) == FreeFrom(channels[..], i)
      {
        if !channels[i].open {
          r := Some(nextId);
          channels[i] := Slot(nextId, true, 1, 1);
          nextId := (nextId + 1) % ID_LIMIT;
          return;
        }
      }
      r := None;
    }

    method AddEndpointRef(id: nat, send: bool, ghost ws: seq<Wrapper>) returns (ok: bool)
      modifies channels
      ensures State(if ok then ws + [Wrapper(id, send, !send)] else ws) == Wrap(old(State(ws)), id, send)
    {
      var f := FindOpen(id);
      if f.None? { return false; }
      channels[f.value] := AddRef(channels[f.value], send);
      ok := true;
    }

    method CloseEndpointById(id: nat, send: bool, ghost ws: seq<Wrapper>, ghost k: nat) returns (ok: bool)
      requires k < |ws| && ws[k].id == id
      modifies channels
      ensures State(GiveUp(old(State(ws)), k, send).wrappers) == GiveUp(old(State(ws)), k, send)
      ensures ok == FindFrom(old(channels[..]), id, 0).Some?
    {
      var f := FindOpen(id);
      if f.None? { return false; }
      var s := channels[f.value];
      if send {
        if s.sendRefs > 0 { s := s.(sendRefs := s.sendRefs - 1); }
      } else {
        if s.recvRefs > 0 { s := s.(recvRefs := s.recvRefs - 1); }
      }
      if s.sendRefs == 0 && s.recvRefs == 0 { s := s.(open := false, id := 0); }
      channels[f.value] := s;
      ok := true;
    }
  }
}

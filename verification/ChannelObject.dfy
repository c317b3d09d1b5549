/** A channel object and the two tables it moves capabilities between (kernel/ipc/channel.cpp), updated in
    place and proved against the queue and the transfer functions. */
module ChannelObject {
  import opened Handles
  import opened CapTable
  import opened CapTableObject
  import opened ChannelRing
  import opened CapTransfer

  /** What every slot of a buffer satisfies, used or not. */
  predicate MessageOk(m: Message) {
    m.size <= MAX_MSG_SIZE && |m.caps| <= MAX_HANDLES_PER_MSG && CapTransfer.Valid(m.caps)
  }

  class Channel {
    const buffer: array<Message>
    var readIdx: nat
    var writeIdx: nat
    var count: nat
    var capacity: nat
    var open: bool
    var recvRefs: nat

    ghost function State(): Chan
      reads this, buffer
    {
      Chan(Ring(buffer[..], readIdx, writeIdx, count, capacity), open, recvRefs)
    }

    ghost predicate Valid()
      reads this, buffer
    {
      RingOk(State().ring) && forall k :: 0 <= k < buffer.Length ==> MessageOk(buffer[k])
    }

    /** `init_channel`: an open, empty channel; an unusable capacity becomes the default. */
    constructor (requested: nat, garbage: seq<nat>)
      requires |garbage| == MAX_MSG_SIZE
      ensures Valid() && fresh(buffer) && open && Pending(State().ring) == []
      ensures capacity == if 0 < requested <= MAX_PENDING then requested else DEFAULT_PENDING
    {
      buffer := new Message[MAX_PENDING](_ => Message(garbage, 0, 0, []));
      readIdx, writeIdx, count, open, recvRefs := 0, 0, 0, true, 0;
      capacity := if 0 < requested <= MAX_PENDING then requested else DEFAULT_PENDING;
    }

    /** Copy a message into the slot at the write index and advance it. */
    method PutMessage(data: Payload, size: nat, sender: nat, caps: seq<Cap>)
      requires Valid() && count < capacity && size <= MAX_MSG_SIZE && (data.Some? ==> size <= |data.bytes|)
      requires |caps| <= MAX_HANDLES_PER_MSG && CapTransfer.Valid(caps)
      modifies this`writeIdx, this`count, buffer
      ensures Valid() && State() == old(State()).(ring := Put(old(State()).ring,
                Written(old(State()).ring.slots[old(writeIdx)], data, size, sender, caps)))
      ensures Pending(State().ring) == Pending(old(State()).ring) +
                [Written(old(State()).ring.slots[old(writeIdx)], data, size, sender, caps)]
    {
      PutPending(State().ring, Written(State().ring.slots[writeIdx], data, size, sender, caps));
      var m := buffer[writeIdx];
      buffer[writeIdx] := Message(if data.Some? then data.bytes[..size] + m.bytes[size..] else m.bytes, size, sender, caps);
      writeIdx := (writeIdx + 1) % buffer.Length;
      count := count + 1;
    }

    /** Take the handles that resolve and may be transferred out of the sender's table. */
    method TakeHandles(handles: seq<Handle>, ct: Table) returns (caps: seq<Cap>)
      requires Wf(ct.State())
      modifies ct, ct.entries
      ensures (ct.State(), caps) == Extract(old(ct.State()), handles) && Wf(ct.State())
      ensures |caps| <= |handles| && CapTransfer.Valid(caps)
    {
      caps := [];
      for i := 0 to |handles|
        invariant (ct.State(), caps) == Extract(old(ct.State()), handles[..i]) && Wf(ct.State())
        invariant |caps| <= i && CapTransfer.Valid(caps)
      {
        assert handles[..i + 1][..i] == handles[..i];
        var ok, e := ct.Lookup(handles[i]);
        if !ok || !HasRights(e.rights, CAP_TRANSFER) { continue; }
        caps := caps + [Cap(e.obj, e.kind, e.rights)];
        ct.Remove(handles[i]);
      }
      assert handles[..|handles|] == handles;
    }

    /** `try_send`: nothing changes unless the answer is `Ok`; then the message, with the capabilities that
        left the sender's table, is the last of the queue. A caller without a table sends none. */
    method TrySend(data: Payload, size: nat, handles: seq<Handle>, ct: Table?, sender: nat) returns (code: Code)
      requires Valid() && (data.Some? ==> size <= |data.bytes|)
      requires ct != null ==> Wf(ct.State()) && ct as object != this && ct.entries as object != buffer
      modifies this, buffer, ct, if ct == null then {} else {ct.entries}
      ensures Valid() && code == SendCode(old(State()), size, |handles|)
      ensures code != Ok ==> State() == old(State())
      ensures ct != null ==>
                Wf(ct.State()) && ct.State() == if code == Ok then Extract(old(ct.State()), handles).0 else old(ct.State())
      ensures ct != null ==> Sends(old(ct.State()), old(State()), data, size, handles, sender, ct.State(), State())
      ensures ct == null ==> State() == Next(old(State()), ChanOp.TrySend(data, size, |handles|, [], sender))
    {
      if !open { return InvalidHandle; }
      if recvRefs == 0 { return ChannelClosed; }
      if size > MAX_MSG_SIZE { return MsgTooLarge; }
      if |handles| > MAX_HANDLES_PER_MSG { return InvalidArg; }
      if count >= capacity { return WouldBlock; }
      code := Ok;
      var caps := [];
      if ct != null {
        caps := TakeHandles(handles, ct);
      }
      PutMessage(data, size, sender, caps);
    }

    /** One round of the blocking `send`; `WouldBlock` is where the sender queues up and yields. */
    method SendOnce(data: Payload, size: nat, sender: nat) returns (code: Code)
      requires Valid() && (data.Some? ==> size <= |data.bytes|)
      modifies this, buffer
      ensures Valid() && code == LegacySendCode(old(State()), size)
      ensures State() == Next(old(State()), Send(data, size, sender))
    {
      if size > MAX_MSG_SIZE { return MsgTooLarge; }
      if !open { return InvalidHandle; }
      if count >= capacity { return WouldBlock; }
      PutMessage(data, size, sender, []);
      code := Ok;
    }

    /** Copy out at most `room` bytes of the oldest message and advance the read index. */
    method TakeMessage(room: nat) returns (size: nat, bytes: seq<nat>)
      requires Valid() && count > 0
      modifies this`readIdx, this`count
      ensures Valid() && State() == old(State()).(ring := Take(old(State()).ring))
      ensures Pending(old(State()).ring) == [old(buffer[readIdx])] + Pending(State().ring)
      ensures var m := old(buffer[readIdx]);
              MessageOk(m) && size == m.size && bytes == m.bytes[..if size <= room then size else room]
    {
      TakePending(State().ring);
      var m := buffer[readIdx];
      size := m.size;
      var n := if size <= room then size else room;
      bytes := m.bytes[..n];
      readIdx := (readIdx + 1) % buffer.Length;
      count := count - 1;
    }

    method RecvOnce(room: nat) returns (code: Code, bytes: seq<nat>)
      requires Valid()
      modifies this
      ensures Valid() && code == RecvCode(old(State())) && State() == Next(old(State()), Recv)
      ensures code.Got? ==>
                var m := old(buffer[readIdx]);
                MessageOk(m) && bytes == m.bytes[..if m.size <= room then m.size else room]
    {
      bytes := [];
      if !open { return InvalidHandle, []; }
      if count == 0 { return WouldBlock, []; }
      var size;
      size, bytes := TakeMessage(room);
      code := Got(size);
    }

    /** Put capabilities into the receiver's table, masked by its bounding set. */
    method GiveHandles(caps: seq<Cap>, bound: Rights, ct: Table) returns (handles: seq<Handle>)
      requires Wf(ct.State()) && CapTransfer.Valid(caps)
      modifies ct, ct.entries
      ensures Wf(ct.State()) && (ct.State(), handles) == Install(old(ct.State()), MaskAll(caps, bound))
    {
      handles := [];
      ghost var masked := MaskAll(caps, bound);
      for i := 0 to |caps|
        invariant Wf(ct.State()) && (ct.State(), handles) == Install(old(ct.State()), masked[..i])
      {
        InstallNext(old(ct.State()), masked, i);
        hide Install, CapTable.Insert;
        var h := ct.InsertBounded(caps[i].obj, caps[i].kind, caps[i].rights, bound);
        if h != HANDLE_INVALID { handles := handles + [h]; }
      }
      assert masked[..|caps|] == masked;
    }

    /** `try_recv`: the oldest message leaves the queue, its capabilities enter the receiver's table while
        there is room, and the handles returned name them. */
    method TryRecv(room: nat, ct: Table?, bound: Rights) returns (code: Code, bytes: seq<nat>, handles: seq<Handle>)
      requires Valid()
      requires ct != null ==> Wf(ct.State()) && ct as object != this && ct.entries as object != buffer
      modifies this, ct, if ct == null then {} else {ct.entries}
      ensures Valid() && code == RecvCode(old(State())) && State() == Next(old(State()), ChanOp.TryRecv)
      ensures !code.Got? ==> handles == [] && (ct != null ==> ct.State() == old(ct.State()))
      ensures code.Got? ==>
                var m := old(buffer[readIdx]);
                && MessageOk(m) && Pending(old(State()).ring) == [m] + Pending(State().ring)
                && bytes == m.bytes[..if m.size <= room then m.size else room]
                && (ct == null ==> handles == [])
      ensures ct != null ==>
                Wf(ct.State()) && Receives(old(ct.State()), old(State()), bound, ct.State(), handles, State())
    {
      bytes, handles := [], [];
      if !open { return InvalidHandle, [], []; }
      if count == 0 { return WouldBlock, [], []; }
      var m := buffer[readIdx];
      var size;
      size, bytes := TakeMessage(room);
      if ct != null {
        handles := GiveHandles(m.caps, bound, ct);
      }
      code := Got(size);
    }

    method SetCapacity(newCapacity: nat) returns (code: Code)
      requires Valid()
      modifies this`capacity
      ensures Valid() && code == CapacityCode(old(State()), newCapacity)
      ensures State() == Next(old(State()), ChanOp.SetCapacity(newCapacity))
      ensures Pending(State().ring) == Pending(old(State()).ring)
    {
      if !open { return InvalidHandle; }
      if newCapacity == 0 || newCapacity > buffer.Length { return InvalidArg; }
      if newCapacity < count { return Busy; }
      capacity := newCapacity;
      code := Ok;
    }
  }
}

/** A channel's message ring (kernel/ipc/channel.cpp, kernel/ipc/channel.hpp) against a bounded queue. */
module ChannelRing {
  import opened Handles
  import opened Rings

  const MAX_MSG_SIZE := 8192
  const MAX_HANDLES_PER_MSG := 4
  const MAX_PENDING := 16
  const DEFAULT_PENDING := 16

  /** A capability on its way from one table to another. */
  datatype Cap = Cap(obj: nat, kind: nat, rights: Rights)

  /** A buffer slot. `bytes` is the slot's whole byte array, of which `size` are the message's. */
  datatype Message = Message(bytes: seq<nat>, size: nat, sender: nat, caps: seq<Cap>)

  /** `None` is a null data pointer. */
  datatype Payload = None | Some(bytes: seq<nat>)

  datatype Ring = Ring(slots: seq<Message>, read: nat, write: nat, count: nat, capacity: nat)

  datatype Chan = Chan(ring: Ring, open: bool, recvRefs: nat)

  datatype Code =
    | Ok
    | Got(size: nat)
    | InvalidHandle
    | ChannelClosed
    | MsgTooLarge
    | InvalidArg
    | WouldBlock
    | Busy

  predicate RingOk(r: Ring) {
    && r.read < |r.slots|
    && 0 < r.capacity <= |r.slots|
    && r.count <= r.capacity
    && r.write == Around(r.read + r.count, |r.slots|)
    && forall i :: 0 <= i < |r.slots| ==> |r.slots[i].bytes| == MAX_MSG_SIZE
  }

  /** The queue the ring stands for, oldest message first. */
  function Pending(r: Ring): (q: seq<Message>)
    requires |r.slots| > 0
    ensures |q| == r.count && forall k :: 0 <= k < r.count ==> q[k] == r.slots[Around(r.read + k, |r.slots|)]
  {
    seq(r.count, k requires 0 <= k < r.count => r.slots[Around(r.read + k, |r.slots|)])
  }

  // -------------------------------------------------------------------- operations

  /** A slot after a message was copied in: no data leaves the bytes of the slot's last message. */
  function Written(m: Message, data: Payload, size: nat, sender: nat, caps: seq<Cap>): (r: Message)
    requires |m.bytes| == MAX_MSG_SIZE && size <= MAX_MSG_SIZE && (data.Some? ==> size <= |data.bytes|)
    ensures |r.bytes| == MAX_MSG_SIZE
  {
    Message(if data.Some? then data.bytes[..size] + m.bytes[size..] else m.bytes, size, sender, caps)
  }

  function Put(r: Ring, m: Message): Ring
    requires RingOk(r)
  {
    Ring(r.slots[r.write := m], r.read, Around(r.write + 1, |r.slots|), r.count + 1, r.capacity)
  }

  function Take(r: Ring): Ring
    requires RingOk(r) && r.count > 0
  {
    Ring(r.slots, Around(r.read + 1, |r.slots|), r.write, r.count - 1, r.capacity)
  }

  /** What `try_send` answers; only on `Ok` does anything change. */
  function SendCode(c: Chan, size: nat, handles: nat): Code {
    if !c.open then InvalidHandle
    else if c.recvRefs == 0 then ChannelClosed
    else if size > MAX_MSG_SIZE then MsgTooLarge
    else if handles > MAX_HANDLES_PER_MSG then InvalidArg
    else if c.ring.count >= c.ring.capacity then WouldBlock
    else Ok
  }

  /** The blocking form has no handles and does not look at the receiving end. */
  function LegacySendCode(c: Chan, size: nat): Code {
    if size > MAX_MSG_SIZE then MsgTooLarge
    else if !c.open then InvalidHandle
    else if c.ring.count >= c.ring.capacity then WouldBlock
    else Ok
  }

  function RecvCode(c: Chan): Code
    requires RingOk(c.ring)
  {
    if !c.open then InvalidHandle
    else if c.ring.count == 0 then WouldBlock
    else Got(c.ring.slots[c.ring.read].size)
  }

  function CapacityCode(c: Chan, capacity: nat): Code {
    if !c.open then InvalidHandle
    else if capacity == 0 || capacity > |c.ring.slots| then InvalidArg
    else if capacity < c.ring.count then Busy
    else Ok
  }

  // ----------------------------------------------------------- the ring is a queue

  /** Sending appends to the queue. */
  lemma PutPending(r: Ring, m: Message)
    requires RingOk(r) && r.count < r.capacity && |m.bytes| == MAX_MSG_SIZE
    ensures RingOk(Put(r, m)) && Pending(Put(r, m)) == Pending(r) + [m]
  {
  }

  /** Receiving takes the oldest message off the queue. */
  lemma TakePending(r: Ring)
    requires RingOk(r) && r.count > 0
    ensures RingOk(Take(r)) && Pending(r) == [r.slots[r.read]] + Pending(Take(r))
  {
  }

  // -------------------------------------------------------------------------- runs

  datatype ChanOp =
    | TrySend(data: Payload, size: nat, handles: nat, caps: seq<Cap>, sender: nat)
    | Send(data: Payload, size: nat, sender: nat)
    | TryRecv
    | Recv
    | SetCapacity(capacity: nat)

  /** Callers pass at least as many bytes as they say. */
  predicate Sane(op: ChanOp) {
    (op.TrySend? || op.Send?) && op.data.Some? ==> op.size <= |op.data.bytes|
  }

  function Next(c: Chan, op: ChanOp): Chan
    requires RingOk(c.ring) && Sane(op)
  {
    match op
    case TrySend(data, size, handles, caps, sender) =>
      if SendCode(c, size, handles) != Ok then c
      else c.(ring := Put(c.ring, Written(c.ring.slots[c.ring.write], data, size, sender, caps)))
    case Send(data, size, sender) =>
      if LegacySendCode(c, size) != Ok then c
      else c.(ring := Put(c.ring, Written(c.ring.slots[c.ring.write], data, size, sender, [])))
    case TryRecv => if !RecvCode(c).Got? then c else c.(ring := Take(c.ring))
    case Recv => if !RecvCode(c).Got? then c else c.(ring := Take(c.ring))
    case SetCapacity(capacity) =>
      if CapacityCode(c, capacity) != Ok then c else c.(ring := c.ring.(capacity := capacity))
  }

  ghost predicate StepAt(path: seq<Chan>, ops: seq<ChanOp>, k: nat)
    requires k < |ops| && |path| == |ops| + 1
  {
    RingOk(path[k].ring) && Sane(ops[k]) && path[k + 1] == Next(path[k], ops[k])
  }

  /** A run of an open channel that starts empty. */
  ghost predicate IsRun(path: seq<Chan>, ops: seq<ChanOp>) {
    && |path| == |ops| + 1
    && RingOk(path[0].ring) && path[0].ring.count == 0
    && forall k: nat :: k < |ops| ==> StepAt(path, ops, k)
  }

  /** The message a call puts in the channel, if its answer is `Ok`: the caller's size, bytes and
      capabilities; a null pointer leaves the bytes the slot had. */
  function Incoming(c: Chan, op: ChanOp): seq<Message>
    requires RingOk(c.ring) && Sane(op)
  {
    var slot := c.ring.slots[c.ring.write];
    if op.TrySend? && SendCode(c, op.size, op.handles) == Ok then [Written(slot, op.data, op.size, op.sender, op.caps)]
    else if op.Send? && LegacySendCode(c, op.size) == Ok then [Written(slot, op.data, op.size, op.sender, [])]
    else []
  }

  /** The message a call hands out, if it answers with a size. */
  function Outgoing(c: Chan, op: ChanOp): seq<Message>
    requires RingOk(c.ring)
  {
    if (op.TryRecv? || op.Recv?) && RecvCode(c).Got? then [c.ring.slots[c.ring.read]] else []
  }

  /** The messages accepted and handed out by the first `k` calls, oldest first. */
  function Accepted(path: seq<Chan>, ops: seq<ChanOp>, k: nat): seq<Message>
    requires k <= |ops| < |path| && forall j :: 0 <= j < k ==> RingOk(path[j].ring) && Sane(ops[j])
  {
    if k == 0 then [] else Accepted(path, ops, k - 1) + Incoming(path[k - 1], ops[k - 1])
  }

  function Delivered(path: seq<Chan>, ops: seq<ChanOp>, k: nat): seq<Message>
    requires k <= |ops| < |path| && forall j :: 0 <= j < k ==> RingOk(path[j].ring)
  {
    if k == 0 then [] else Delivered(path, ops, k - 1) + Outgoing(path[k - 1], ops[k - 1])
  }

  lemma SamePending(r: Ring, r': Ring)
    requires |r.slots| > 0 && r'.slots == r.slots && r'.read == r.read && r'.count == r.count
    ensures Pending(r') == Pending(r)
  {
  }

  /** One call on the ring is one call on the queue. */
  lemma NextOk(c: Chan, op: ChanOp)
    requires RingOk(c.ring) && Sane(op)
    ensures RingOk(Next(c, op).ring)
    ensures Pending(c.ring) + Incoming(c, op) == Outgoing(c, op) + Pending(Next(c, op).ring)
  {
    hide Pending, Written, Around;
    match op
    case TrySend(data, size, handles, caps, sender) =>
      if SendCode(c, size, handles) == Ok {
        PutPending(c.ring, Written(c.ring.slots[c.ring.write], data, size, sender, caps));
      }
    case Send(data, size, sender) =>
      if LegacySendCode(c, size) == Ok {
        PutPending(c.ring, Written(c.ring.slots[c.ring.write], data, size, sender, []));
      }
    case TryRecv => if RecvCode(c).Got? { TakePending(c.ring); }
    case Recv => if RecvCode(c).Got? { TakePending(c.ring); }
    case SetCapacity(capacity) => assert Pending(Next(c, op).ring) == Pending(c.ring) by { SamePending(c.ring, Next(c, op).ring); }
  }

  lemma {:induction false} RunOk(path: seq<Chan>, ops: seq<ChanOp>, k: nat)
    requires IsRun(path, ops) && k <= |ops|
    ensures RingOk(path[k].ring)
  {
    if k > 0 {
      RunOk(path, ops, k - 1);
      assert StepAt(path, ops, k - 1);
      NextOk(path[k - 1], ops[k - 1]);
    }
  }

  lemma RunSane(path: seq<Chan>, ops: seq<ChanOp>)
    requires IsRun(path, ops)
    ensures forall j :: 0 <= j < |ops| ==> RingOk(path[j].ring) && Sane(ops[j])
  {
    forall j | 0 <= j < |ops| ensures RingOk(path[j].ring) && Sane(ops[j]) { assert StepAt(path, ops, j); }
  }

  /** In every run of the five calls, capacity changes included: what was handed out is a prefix of what was
      accepted, in order, and the rest is what the ring holds; the write index is always the read index
      plus the count, around the ring, and the count never exceeds the capacity. */
  lemma {:induction false} ChannelIsFifo(path: seq<Chan>, ops: seq<ChanOp>, k: nat)
    requires IsRun(path, ops) && k <= |ops|
    ensures forall j :: 0 <= j < |ops| ==> RingOk(path[j].ring) && Sane(ops[j])
    ensures var r := path[k].ring;
            && |r.slots| > 0 && r.count <= r.capacity <= |r.slots| && r.write == (r.read + r.count) % |r.slots|
            && Accepted(path, ops, k) == Delivered(path, ops, k) + Pending(r)
  {
    RunSane(path, ops);
    RunOk(path, ops, k);
    if k > 0 {
      ChannelIsFifo(path, ops, k - 1);
      assert StepAt(path, ops, k - 1);
      var c, op := path[k - 1], ops[k - 1];
      hide IsRun, Next, Incoming, Outgoing, Pending, Sane;
      NextOk(c, op);
      Shift(Delivered(path, ops, k - 1), Pending(c.ring), Incoming(c, op), Outgoing(c, op), Pending(path[k].ring));
    }
  }

  lemma Shift<T>(d: seq<T>, q: seq<T>, into: seq<T>, out: seq<T>, q': seq<T>)
    requires q + into == out + q'
    ensures (d + q) + into == (d + out) + q'
  {
    assert (d + q) + into == d + (q + into);
    assert (d + out) + q' == d + (out + q');
  }
}

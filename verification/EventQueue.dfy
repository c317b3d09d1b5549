/** The lock-free input event queue (kernel/input/input.cpp): one producer and one consumer, interleaved at
    every load of an index, every access to a slot and every store of an index. Memory is taken to be
    sequentially consistent. */
module EventQueue {
  import opened Rings

  type Event = int

  /** Where the producer stands in `push_event`. `taken` counts the events removed since it loaded the head. */
  datatype Producer =
    | PIdle
    | PTail(ev: Event, tail: nat)                        // loaded its own tail
    | PHead(ev: Event, tail: nat, head: nat, taken: nat) // loaded the consumer's head
    | PWritten(ev: Event, tail: nat)                     // wrote the slot, about to publish

  /** Where the consumer stands in `get_event`. `seen` is how many events it knows to be there. */
  datatype Consumer =
    | CIdle
    | CHead(head: nat)
    | CTail(head: nat, tail: nat, seen: int)
    | CRead(head: nat, ev: Event)

  /** `accepted` and `delivered` are the events published and handed out, oldest first. */
  datatype Queue = Queue(ring: seq<Event>, head: nat, tail: nat, p: Producer, c: Consumer,
                         accepted: seq<Event>, delivered: seq<Event>)

  // ------------------------------------------------------------------------- steps

  datatype Act = Push(ev: Event) | LoadHead | WriteSlot | Publish | Get | LoadTail | ReadSlot | Advance

  predicate Enabled(q: Queue, a: Act) {
    match a
    case Push(_) => q.p.PIdle?
    case LoadHead => q.p.PTail?
    case WriteSlot => q.p.PHead?
    case Publish => q.p.PWritten?
    case Get => q.c.CIdle?
    case LoadTail => q.c.CHead?
    case ReadSlot => q.c.CTail?
    case Advance => q.c.CRead?
  }

  function Next(q: Queue, a: Act): Queue
    requires Enabled(q, a) && |q.ring| > 0
  {
    var n := |q.ring|;
    match a
    case Push(ev) => q.(p := PTail(ev, q.tail))
    case LoadHead => q.(p := PHead(q.p.ev, q.p.tail, q.head, 0))
    case WriteSlot =>
      if Around(q.p.tail + 1, n) == q.p.head || q.p.tail >= n then q.(p := PIdle)
      else q.(ring := q.ring[q.p.tail := q.p.ev], p := PWritten(q.p.ev, q.p.tail))
    case Publish => q.(tail := Around(q.p.tail + 1, n), p := PIdle, accepted := q.accepted + [q.p.ev])
    case Get => q.(c := CHead(q.head))
    case LoadTail => q.(c := CTail(q.c.head, q.tail, |q.accepted| - |q.delivered|))
    case ReadSlot =>
      if q.c.head == q.c.tail || q.c.head >= n then q.(c := CIdle)
      else q.(c := CRead(q.c.head, q.ring[q.c.head]))
    case Advance =>
      q.(head := Around(q.c.head + 1, n), c := CIdle, delivered := q.delivered + [q.c.ev],
         p := if q.p.PHead? then q.p.(taken := q.p.taken + 1) else q.p)
  }

  // --------------------------------------------------------------------- invariant

  /** The unread events, in order, lie in the slots from the head on. */
  predicate UnreadAt(q: Queue, k: nat) {
    k < |q.accepted| - |q.delivered| && q.head < |q.ring| ==>
      q.ring[Around(q.head + k, |q.ring|)] == q.accepted[|q.delivered| + k]
  }

  ghost predicate Inv(q: Queue) {
    var n, m := |q.ring|, |q.accepted| - |q.delivered|;
    && 0 <= m < n && q.head < n && q.tail == Around(q.head + m, n)
    && q.delivered == q.accepted[..|q.delivered|]
    && (forall k: nat :: UnreadAt(q, k))
    && (match q.p
        case PIdle => true
        case PTail(_, tail) => tail == q.tail
        case PHead(_, tail, head, taken) =>
          tail == q.tail && head < n && q.head == Around(head + taken, n) && taken + m < n
        case PWritten(ev, tail) => tail == q.tail && m + 1 < n && q.ring[tail] == ev)
    && (match q.c
        case CIdle => true
        case CHead(head) => head == q.head
        case CTail(head, tail, seen) => head == q.head && 0 <= seen <= m && tail == Around(head + seen, n)
        case CRead(head, ev) => head == q.head && m > 0 && ev == q.accepted[|q.delivered|])
  }

  /** Loads and the dropped event change no slot and no index. */
  lemma LookInv(q: Queue, a: Act)
    requires Inv(q) && Enabled(q, a) && (a.Push? || a.LoadHead? || a.Get? || a.LoadTail?)
    ensures Inv(Next(q, a))
  {
    hide Around;
    var q' := Next(q, a);
    forall k: nat ensures UnreadAt(q', k) { assert UnreadAt(q, k); }
  }

  /** The slot of the `k`-th unread event is as it was. */
  predicate NotOverwritten(q: Queue, q': Queue, k: nat) {
    k < |q.accepted| - |q.delivered| && 0 < |q.ring| == |q'.ring| ==>
      var i := Around(q.head + k, |q.ring|);
      i < |q.ring| && q'.ring[i] == q.ring[i]
  }

  /** The slot written is not one of those still unread. */
  lemma WriteInv(q: Queue)
    requires Inv(q) && Enabled(q, WriteSlot)
    ensures Inv(Next(q, WriteSlot))
    ensures forall k: nat :: NotOverwritten(q, Next(q, WriteSlot), k)
  {
    hide Around;
    var q' := Next(q, WriteSlot);
    forall k: nat ensures NotOverwritten(q, q', k) { }
    forall k: nat ensures UnreadAt(q', k) { assert UnreadAt(q, k) && NotOverwritten(q, q', k); }
  }

  /** An event is dropped exactly when the ring was full as the producer loaded the head, and the consumer goes
      away empty-handed exactly when nothing was there as it loaded the tail. */
  lemma RefusesExactly(q: Queue)
    requires Inv(q)
    ensures q.p.PHead? ==>
              (Next(q, WriteSlot).p.PIdle? <==> |q.accepted| - |q.delivered| + q.p.taken == |q.ring| - 1)
    ensures q.c.CTail? ==> (Next(q, ReadSlot).c.CIdle? <==> q.c.seen == 0)
  {
    hide Around;
  }

  lemma PublishInv(q: Queue)
    requires Inv(q) && Enabled(q, Publish)
    ensures Inv(Next(q, Publish))
  {
    hide Around;
    var q' := Next(q, Publish);
    forall k: nat ensures UnreadAt(q', k) { assert UnreadAt(q, k); }
  }

  lemma ReadInv(q: Queue)
    requires Inv(q) && Enabled(q, ReadSlot)
    ensures Inv(Next(q, ReadSlot))
  {
    hide Around;
    var q' := Next(q, ReadSlot);
    assert UnreadAt(q, 0);
    forall k: nat ensures UnreadAt(q', k) { assert UnreadAt(q, k); }
  }

  lemma AdvanceInv(q: Queue)
    requires Inv(q) && Enabled(q, Advance)
    ensures Inv(Next(q, Advance))
  {
    hide Around;
    var q' := Next(q, Advance);
    forall k: nat ensures UnreadAt(q', k) { assert UnreadAt(q, k + 1); }
  }

  lemma NextInv(q: Queue, a: Act)
    requires Inv(q) && Enabled(q, a)
    ensures Inv(Next(q, a))
  {
    match a
    case WriteSlot => WriteInv(q);
    case Publish => PublishInv(q);
    case ReadSlot => ReadInv(q);
    case Advance => AdvanceInv(q);
    case _ => LookInv(q, a);
  }

  // -------------------------------------------------------------------------- runs

  predicate StepAt(path: seq<Queue>, acts: seq<Act>, k: nat)
    requires k < |acts| && |path| == |acts| + 1
  {
    Enabled(path[k], acts[k]) && |path[k].ring| > 0 && path[k + 1] == Next(path[k], acts[k])
  }

  /** A run from the empty queue with both sides idle. */
  predicate IsRun(path: seq<Queue>, acts: seq<Act>) {
    && |path| == |acts| + 1
    && |path[0].ring| > 0 && path[0] == Queue(path[0].ring, 0, 0, PIdle, CIdle, [], [])
    && forall k: nat :: k < |acts| ==> StepAt(path, acts, k)
  }

  /** However the two sides interleave: what was delivered is a prefix of what was accepted, in order, and at
      most one event fewer than the ring has slots is pending. */
  lemma {:induction false} DeliversInOrder(path: seq<Queue>, acts: seq<Act>, k: nat)
    requires IsRun(path, acts) && k <= |acts|
    ensures Inv(path[k])
    ensures path[k].delivered <= path[k].accepted
    ensures |path[k].accepted| - |path[k].delivered| <= |path[k].ring| - 1
  {
    if k > 0 {
      DeliversInOrder(path, acts, k - 1);
      assert StepAt(path, acts, k - 1);
      NextInv(path[k - 1], acts[k - 1]);
    }
  }
}

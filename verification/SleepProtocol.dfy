/** Sleeping and waking (kernel/ipc/poll.cpp): any number of tasks in `sleep_ms`, the timer interrupt,
    cancellers, notifiers and task teardown, switching wherever the poll lock is dropped. Setting a blocked
    task ready and putting it on the run queue is one step. Identifiers are taken from an unbounded counter. */
module SleepProtocol {
  import opened Sequences
  import opened SleepTimers

  datatype Run = Running | Ready | Blocked

  /** Where a task stands in `sleep_ms`; `expire` is when its timer runs out. */
  datatype Pc =
    | Idle
    | Looping(id: nat, expire: nat)                  // about to take the lock and look at its timer
    | Waiting(id: nat, expire: nat)                  // registered and blocked
    | Cleaning(id: nat, expire: nat)                 // out of the loop, about to cancel its timer
    | Leaving(id: nat, expire: nat, waiter: Option)  // timer cancelled, about to wake the waiter found there

  /** `cut`: another party cancelled or cleared the task's timer; `cleared`: it was cleared, without a wake. */
  datatype Task = Task(run: Run, pc: Pc, cut: bool, cleared: bool)

  /** `pending[a]` are the tasks party `a` picked under the lock and has still to wake; `queue` is the run queue. */
  datatype World = World(timers: seq<Timer>, nextId: nat, clock: nat, tasks: seq<Task>, pending: seq<seq<nat>>,
                         queue: seq<nat>)

  // ------------------------------------------------------------------------- steps

  function SetTask(w: World, t: nat, x: Task): World
    requires t < |w.tasks|
  {
    w.(tasks := w.tasks[t := x])
  }

  /** Recheck that the task is blocked, make it ready and enqueue it. */
  function Wake(w: World, u: nat): World {
    if u < |w.tasks| && w.tasks[u].run.Blocked? then
      SetTask(w, u, w.tasks[u].(run := Ready)).(queue := w.queue + [u])
    else w
  }

  /** `sleep_ms(ms)` creates its timer; with no free slot it returns an error at once. */
  function Begin(w: World, t: nat, ms: nat): World
    requires t < |w.tasks|
  {
    match FreeFrom(w.timers, 0)
    case None => w
    case Some(i) =>
      SetTask(w, t, Task(Running, Looping(w.nextId, w.clock + ms), false, false))
      .(timers := w.timers[i := Timer(w.nextId, w.clock + ms, true, None)], nextId := w.nextId + 1)
  }

  /** Under the lock: leave the loop if the timer is gone or has run out, else register and block. */
  function Check(w: World, t: nat): World
    requires t < |w.tasks| && w.tasks[t].pc.Looping?
  {
    var x := w.tasks[t];
    var id, e := x.pc.id, x.pc.expire;
    match Find(w.timers, id)
    case None => SetTask(w, t, x.(pc := Cleaning(id, e)))
    case Some(i) =>
      if w.clock >= w.timers[i].expire then SetTask(w, t, x.(pc := Cleaning(id, e)))
      else SetTask(w, t, x.(run := Blocked, pc := Waiting(id, e))).(timers := w.timers[i := w.timers[i].(waiter := Some(t))])
  }

  function CancelOwn(w: World, t: nat): World
    requires t < |w.tasks| && w.tasks[t].pc.Cleaning?
  {
    var x := w.tasks[t];
    match Find(w.timers, x.pc.id)
    case None => SetTask(w, t, x.(pc := Leaving(x.pc.id, x.pc.expire, None)))
    case Some(i) =>
      SetTask(w, t, x.(pc := Leaving(x.pc.id, x.pc.expire, w.timers[i].waiter)))
      .(timers := w.timers[i := Stop(w.timers[i])])
  }

  /** Wake the waiter found, if any, and return VOK. */
  function Return(w: World, t: nat): World
    requires t < |w.tasks| && w.tasks[t].pc.Leaving?
  {
    var o := w.tasks[t].pc.waiter;
    var w1 := SetTask(w, t, w.tasks[t].(pc := Idle));
    if o.Some? then Wake(w1, o.value) else w1
  }

  /** The scheduler takes a ready task off the queue; a sleeper goes round its loop. */
  function Dispatch(w: World, t: nat): World
    requires t < |w.tasks|
  {
    var x := w.tasks[t];
    var pc := if x.pc.Waiting? then Looping(x.pc.id, x.pc.expire) else x.pc;
    SetTask(w, t, x.(run := Running, pc := pc)).(queue := Without(w.queue, t))
  }

  function Without(q: seq<nat>, t: nat): (r: seq<nat>)
    ensures forall u :: u in r <==> u in q && u != t
  {
    if q == [] then [] else if q[0] == t then Without(q[1..], t) else [q[0]] + Without(q[1..], t)
  }

  lemma {:induction false} WithoutNoDup(q: seq<nat>, t: nat)
    requires NoDup(q)
    ensures NoDup(Without(q, t))
  {
    if q != [] {
      WithoutNoDup(q[1..], t);
      assert q[0] !in q[1..];
    }
  }

  /** The timer interrupt read the clock at `now` and sweeps the table under the lock. */
  function Sweep(w: World, a: nat, now: nat): World
    requires a < |w.pending|
  {
    w.(timers := Swept(w.timers, now),
       pending := w.pending[a := w.pending[a] + Collected(w.timers, now, |w.timers|)])
  }

  /** Some party cancels any timer, `cut` marking the sleeper it belonged to. */
  function CancelOther(w: World, a: nat, id: nat): World
    requires a < |w.pending|
  {
    match Find(w.timers, id)
    case None => w
    case Some(i) =>
      var o := w.timers[i].waiter;
      Cut(w, id).(timers := w.timers[i := Stop(w.timers[i])],
                  pending := if o.Some? then w.pending[a := w.pending[a] + [o.value]] else w.pending)
  }

  predicate Sleeps(x: Task, id: nat) {
    (x.pc.Looping? || x.pc.Waiting? || x.pc.Cleaning?) && x.pc.id == id
  }

  /** Mark the sleeper whose timer another party takes away. */
  function Cut(w: World, id: nat): World {
    w.(tasks := seq(|w.tasks|, t requires 0 <= t < |w.tasks| =>
      if Sleeps(w.tasks[t], id) then w.tasks[t].(cut := true) else w.tasks[t]))
  }

  /** Teardown of task `u`: every timer it waits on is stopped, and nobody is woken. */
  function Clear(w: World, u: nat): World
    requires u < |w.tasks|
  {
    var ts, x := Cleared(w.timers, u), w.tasks[u];
    SetTask(w, u, x.(cut := x.cut || ts != w.timers, cleared := x.cleared || ts != w.timers)).(timers := ts)
  }

  /** A notifier picks any tasks that wait for its event. */
  function Notify(w: World, a: nat, who: seq<nat>): World
    requires a < |w.pending|
  {
    w.(pending := w.pending[a := w.pending[a] + who])
  }

  function WakeNext(w: World, a: nat): World
    requires a < |w.pending| && |w.pending[a]| > 0
  {
    Wake(w.(pending := w.pending[a := w.pending[a][1..]]), w.pending[a][0])
  }

  datatype Act =
    | Tick(ms: nat)
    | ActBegin(t: nat, ms: nat)
    | ActCheck(t: nat)
    | ActCancelOwn(t: nat)
    | ActReturn(t: nat)
    | ActDispatch(t: nat)
    | ActSweep(a: nat, now: nat)
    | ActCreate(ms: nat)          // a timer nobody sleeps on
    | ActCancelOther(a: nat, id: nat)
    | ActClear(u: nat)
    | ActNotify(a: nat, who: seq<nat>)
    | ActWakeNext(a: nat)

  predicate Enabled(w: World, act: Act) {
    match act
    case Tick(ms) => true
    case ActBegin(t, ms) => t < |w.tasks| && w.tasks[t].run.Running? && w.tasks[t].pc.Idle? && ms > 0
    case ActCheck(t) => t < |w.tasks| && w.tasks[t].run.Running? && w.tasks[t].pc.Looping?
    case ActCancelOwn(t) => t < |w.tasks| && w.tasks[t].run.Running? && w.tasks[t].pc.Cleaning?
    case ActReturn(t) => t < |w.tasks| && w.tasks[t].run.Running? && w.tasks[t].pc.Leaving?
    case ActDispatch(t) => t < |w.tasks| && w.tasks[t].run.Ready?
    case ActSweep(a, now) => a < |w.pending| && now <= w.clock
    case ActCreate(ms) => true
    case ActCancelOther(a, id) => a < |w.pending|
    case ActClear(u) => u < |w.tasks|
    case ActNotify(a, who) => a < |w.pending|
    case ActWakeNext(a) => a < |w.pending| && |w.pending[a]| > 0
  }

  function Create(w: World, ms: nat): World {
    match FreeFrom(w.timers, 0)
    case None => w
    case Some(i) => w.(timers := w.timers[i := Timer(w.nextId, w.clock + ms, true, None)], nextId := w.nextId + 1)
  }

  function Next(w: World, act: Act): World
    requires Enabled(w, act)
  {
    match act
    case Tick(ms) => w.(clock := w.clock + ms)
    case ActBegin(t, ms) => Begin(w, t, ms)
    case ActCheck(t) => Check(w, t)
    case ActCancelOwn(t) => CancelOwn(w, t)
    case ActReturn(t) => Return(w, t)
    case ActDispatch(t) => Dispatch(w, t)
    case ActSweep(a, now) => Sweep(w, a, now)
    case ActCreate(ms) => Create(w, ms)
    case ActCancelOther(a, id) => CancelOther(w, a, id)
    case ActClear(u) => Clear(w, u)
    case ActNotify(a, who) => Notify(w, a, who)
    case ActWakeNext(a) => WakeNext(w, a)
  }

  // --------------------------------------------------------------------- invariant

  /** Task `t` has been picked by a party that will wake it. */
  ghost predicate Picked(w: World, t: nat) {
    exists a: nat :: a < |w.pending| && t in w.pending[a]
  }

  /** `t` is the waiter of its timer, which still runs. */
  ghost predicate Registered(w: World, t: nat)
    requires t < |w.tasks| && !w.tasks[t].pc.Idle?
  {
    exists i: nat :: Runs(w.timers, i, w.tasks[t].pc.id) && w.timers[i].waiter == Some(t)
  }

  predicate TimerOk(w: World, i: nat) {
    i < |w.timers| && w.timers[i].active ==>
      && 0 < w.timers[i].id < w.nextId
      && (w.timers[i].waiter.Some? ==>
            var u := w.timers[i].waiter.value;
            u < |w.tasks| && Sleeps(w.tasks[u], w.timers[i].id))
  }

  ghost predicate TaskOk(w: World, t: nat) {
    t < |w.tasks| ==>
      var x := w.tasks[t];
      && (!x.pc.Idle? ==> 0 < x.pc.id < w.nextId)
      && (x.pc.Looping? || x.pc.Waiting? || x.pc.Cleaning? ==>
            && (forall i: nat :: Runs(w.timers, i, x.pc.id) ==> w.timers[i].expire == x.pc.expire)
            && (!Active(w.timers, x.pc.id) ==> w.clock >= x.pc.expire || x.cut))
      && (x.pc.Cleaning? || x.pc.Leaving? ==> w.clock >= x.pc.expire || x.cut)
      && (x.pc.Leaving? ==> !Active(w.timers, x.pc.id) && (x.pc.waiter.Some? ==> x.pc.waiter == Some(t)))
      && (x.pc.Waiting? && x.run.Blocked? ==> Registered(w, t) || Picked(w, t) || x.cleared)
      && (x.run.Ready? <==> t in w.queue)
  }

  predicate TimersApart(w: World, i: nat, j: nat) {
    i < j < |w.timers| && w.timers[i].active && w.timers[j].active ==> w.timers[i].id != w.timers[j].id
  }

  predicate TasksApart(w: World, t: nat, u: nat) {
    t < u < |w.tasks| && !w.tasks[t].pc.Idle? && !w.tasks[u].pc.Idle? ==> w.tasks[t].pc.id != w.tasks[u].pc.id
  }

  ghost predicate Inv(w: World) {
    && 0 < w.nextId
    && NoDup(w.queue) && (forall u :: u in w.queue ==> u < |w.tasks|)
    && (forall i: nat :: TimerOk(w, i))
    && (forall t: nat :: TaskOk(w, t))
    && (forall i: nat, j: nat :: TimersApart(w, i, j))
    && forall t: nat, u: nat :: TasksApart(w, t, u)
  }

  // ------------------------------------------------------------ every step is safe

  /** Timers that may have been stopped but not otherwise changed leave the table in order. */
  ghost predicate OnlyStopped(w: World, w': World) {
    && |w'.timers| == |w.timers| && w'.nextId == w.nextId && |w'.tasks| == |w.tasks|
    && (forall i: nat :: i < |w.timers| ==> w'.timers[i] == w.timers[i] || w'.timers[i] == Stop(w.timers[i]))
    && forall t: nat :: t < |w.tasks| ==> w'.tasks[t].pc == w.tasks[t].pc
  }

  lemma StoppedApart(w: World, w': World)
    requires Inv(w) && OnlyStopped(w, w')
    ensures forall i: nat :: TimerOk(w', i)
    ensures forall i: nat, j: nat :: TimersApart(w', i, j)
    ensures forall t: nat, u: nat :: TasksApart(w', t, u)
    ensures forall i: nat, id: nat :: Runs(w'.timers, i, id) ==> Runs(w.timers, i, id)
  {
    forall i: nat ensures TimerOk(w', i) { assert TimerOk(w, i); }
    forall i: nat, j: nat ensures TimersApart(w', i, j) { assert TimersApart(w, i, j); }
    forall t: nat, u: nat ensures TasksApart(w', t, u) { assert TasksApart(w, t, u); }
  }

  lemma TickInv(w: World, ms: nat)
    requires Inv(w)
    ensures Inv(w.(clock := w.clock + ms))
  {
    var w' := w.(clock := w.clock + ms);
    StoppedApart(w, w');
    forall t: nat ensures TaskOk(w', t) { assert TaskOk(w, t); KeepsPlace(w, w', t); }
  }

  /** With the same timers and at least the same pending wakes a task keeps its place. */
  lemma KeepsPlace(w: World, w': World, t: nat)
    requires t < |w.tasks| == |w'.tasks| ==> w.tasks[t].pc == w'.tasks[t].pc
    requires w'.timers == w.timers && |w'.pending| == |w.pending|
    requires forall a: nat :: a < |w.pending| && t in w.pending[a] ==> t in w'.pending[a]
    ensures t < |w.tasks| == |w'.tasks| && !w.tasks[t].pc.Idle? && Registered(w, t) ==> Registered(w', t)
    ensures Picked(w, t) ==> Picked(w', t)
  {
    if Picked(w, t) {
      var a: nat :| a < |w.pending| && t in w.pending[a];
      assert t in w'.pending[a];
    }
  }

  lemma CreateTimers(w: World, w': World, i: nat, e: nat)
    requires Inv(w) && i < |w.timers| && !w.timers[i].active
    requires w'.timers == w.timers[i := Timer(w.nextId, e, true, None)] && w'.nextId == w.nextId + 1
    requires |w'.tasks| == |w.tasks|
    requires forall t: nat :: t < |w.tasks| && w'.tasks[t].pc != w.tasks[t].pc ==> w.tasks[t].pc.Idle?
    ensures forall k: nat :: TimerOk(w', k)
    ensures forall j: nat, k: nat :: TimersApart(w', j, k)
    ensures forall j: nat, id: nat :: Runs(w.timers, j, id) ==> Runs(w'.timers, j, id) && w'.timers[j] == w.timers[j]
    ensures forall j: nat, id: nat :: Runs(w'.timers, j, id) && id != w.nextId ==> Runs(w.timers, j, id)
  {
    forall k: nat ensures TimerOk(w', k) { assert TimerOk(w, k); }
    forall j: nat, k: nat ensures TimersApart(w', j, k) {
      assert TimersApart(w, j, k) && TimerOk(w, j) && TimerOk(w, k);
    }
  }

  lemma CreateInv(w: World, ms: nat)
    requires Inv(w)
    ensures Inv(Create(w, ms))
  {
    var w' := Create(w, ms);
    if FreeFrom(w.timers, 0).Some? {
      CreateTimers(w, w', FreeFrom(w.timers, 0).value, w.clock + ms);
      forall t: nat ensures TaskOk(w', t) { OldTaskOk(w, w', t); }
      forall t: nat, u: nat ensures TasksApart(w', t, u) { assert TasksApart(w, t, u); }
    }
  }

  /** A task that did not move keeps its standing when only a new timer appeared. */
  lemma OldTaskOk(w: World, w': World, t: nat)
    requires TaskOk(w, t) && |w'.tasks| == |w.tasks| && w'.clock == w.clock && w.nextId <= w'.nextId
    requires t < |w.tasks| ==> w'.tasks[t] == w.tasks[t]
    requires w'.pending == w.pending && w'.queue == w.queue
    requires forall j: nat, id: nat :: Runs(w.timers, j, id) ==> Runs(w'.timers, j, id) && w'.timers[j] == w.timers[j]
    requires forall j: nat, id: nat :: Runs(w'.timers, j, id) && id != w.nextId ==> Runs(w.timers, j, id)
    ensures TaskOk(w', t)
  {
    if t < |w.tasks| && !w.tasks[t].pc.Idle? {
      var id := w.tasks[t].pc.id;
      assert Active(w.timers, id) ==> Active(w'.timers, id);
      assert Active(w'.timers, id) ==> Active(w.timers, id);
      if Registered(w, t) {
        var i: nat :| Runs(w.timers, i, id) && w.timers[i].waiter == Some(t);
        assert Runs(w'.timers, i, id);
      }
      assert Picked(w, t) ==> Picked(w', t);
    }
  }

  lemma BeginInv(w: World, t: nat, ms: nat)
    requires Inv(w) && Enabled(w, ActBegin(t, ms))
    ensures Inv(Begin(w, t, ms))
  {
    var w' := Begin(w, t, ms);
    if FreeFrom(w.timers, 0).Some? {
      var i := FreeFrom(w.timers, 0).value;
      CreateTimers(w, w', i, w.clock + ms);
      forall u: nat ensures TaskOk(w', u) {
        assert TaskOk(w, u);
        if u != t {
          OldTaskOk(w, w', u);
        } else {
          assert Runs(w'.timers, i, w.nextId);
          forall j: nat | Runs(w'.timers, j, w.nextId) ensures j == i { assert TimerOk(w, j); }
        }
      }
      forall u: nat, v: nat ensures TasksApart(w', u, v) {
        assert TasksApart(w, u, v) && TaskOk(w, u) && TaskOk(w, v);
      }
    }
  }

  /** Slot `i` held the running timer of task `t`, and it was stopped. */
  predicate Taken(w: World, w': World, t: nat, i: nat) {
    && t < |w.tasks| && i < |w.timers| == |w'.timers|
    && w'.timers[i] != w.timers[i] && w.timers[i].active && Sleeps(w.tasks[t], w.timers[i].id)
  }

  /** A task stays in order when timers were stopped, if whoever stopped its own timer had reason to and
      either picked it or cleared it. */
  lemma StoppedTaskOk(w: World, w': World, t: nat)
    requires Inv(w) && OnlyStopped(w, w') && t < |w.tasks| && w'.clock == w.clock
    requires w'.tasks[t].run == w.tasks[t].run && (t in w'.queue <==> t in w.queue)
    requires (w.tasks[t].cut ==> w'.tasks[t].cut) && (w.tasks[t].cleared ==> w'.tasks[t].cleared)
    requires Picked(w, t) ==> Picked(w', t)
    requires forall i: nat :: Taken(w, w', t, i) ==>
               && (w'.clock >= w.timers[i].expire || w'.tasks[t].cut)
               && (w.timers[i].waiter == Some(t) ==> Picked(w', t) || w'.tasks[t].cleared)
    ensures TaskOk(w', t)
  {
    StoppedApart(w, w');
    assert TaskOk(w, t);
    var x := w.tasks[t];
    if !x.pc.Idle? {
      var id := x.pc.id;
      if Active(w.timers, id) && !Active(w'.timers, id) {
        var i: nat :| Runs(w.timers, i, id);
        assert !Runs(w'.timers, i, id);
        assert Sleeps(x, id) ==> Taken(w, w', t, i);
      }
      if Active(w'.timers, id) {
        var i: nat :| Runs(w'.timers, i, id);
        assert Runs(w.timers, i, id);
      }
      if Registered(w, t) {
        var i: nat :| Runs(w.timers, i, id) && w.timers[i].waiter == Some(t);
        if w'.timers[i] == w.timers[i] { assert Runs(w'.timers, i, id) && Registered(w', t); }
        assert x.pc.Waiting? && w'.timers[i] != w.timers[i] ==> Taken(w, w', t, i);
      }
    }
  }

  lemma PickedMore(w: World, w': World, t: nat)
    requires |w'.pending| == |w.pending|
    requires forall a: nat :: a < |w.pending| && t in w.pending[a] ==> t in w'.pending[a]
    ensures Picked(w, t) ==> Picked(w', t)
  {
    if Picked(w, t) {
      var a: nat :| a < |w.pending| && t in w.pending[a];
      assert t in w'.pending[a];
    }
  }

  lemma SweepInv(w: World, a: nat, now: nat)
    requires Inv(w) && Enabled(w, ActSweep(a, now))
    ensures Inv(Sweep(w, a, now))
  {
    var w' := Sweep(w, a, now);
    StoppedApart(w, w');
    forall t: nat ensures TaskOk(w', t) {
      if t < |w.tasks| {
        assert TaskOk(w, t);
        PickedMore(w, w', t);
        forall i: nat | Taken(w, w', t, i)
          ensures w'.clock >= w.timers[i].expire && (w.timers[i].waiter == Some(t) ==> Picked(w', t))
        {
          assert Expired(w.timers[i], now);
          if w.timers[i].waiter == Some(t) { assert t in w'.pending[a]; }
        }
        StoppedTaskOk(w, w', t);
      }
    }
  }

  lemma CancelOtherInv(w: World, a: nat, id: nat)
    requires Inv(w) && Enabled(w, ActCancelOther(a, id))
    ensures Inv(CancelOther(w, a, id))
  {
    var w' := CancelOther(w, a, id);
    if Find(w.timers, id).Some? {
      var i := Find(w.timers, id).value;
      StoppedApart(w, w');
      forall t: nat ensures TaskOk(w', t) {
        if t < |w.tasks| {
          assert TaskOk(w, t);
          PickedMore(w, w', t);
          if w.timers[i].waiter == Some(t) { assert t in w'.pending[a]; }
          StoppedTaskOk(w, w', t);
        }
      }
    }
  }

  lemma ClearInv(w: World, u: nat)
    requires Inv(w) && Enabled(w, ActClear(u))
    ensures Inv(Clear(w, u))
  {
    var w' := Clear(w, u);
    StoppedApart(w, w');
    forall t: nat ensures TaskOk(w', t) {
      if t < |w.tasks| {
        assert TaskOk(w, t);
        PickedMore(w, w', t);
        forall i: nat | Taken(w, w', t, i)
          ensures t == u && w'.tasks[t].cut && w'.tasks[t].cleared
        {
          assert TimerOk(w, i);
          assert TasksApart(w, t, u) && TasksApart(w, u, t);
          assert w'.timers != w.timers;
        }
        StoppedTaskOk(w, w', t);
      }
    }
  }

  lemma CheckInv(w: World, t: nat)
    requires Inv(w) && Enabled(w, ActCheck(t))
    ensures Inv(Check(w, t))
  {
    var w' := Check(w, t);
    var id := w.tasks[t].pc.id;
    assert TaskOk(w, t);
    forall u: nat, v: nat ensures TasksApart(w', u, v) { assert TasksApart(w, u, v); }
    forall i: nat, j: nat ensures TimersApart(w', i, j) { assert TimersApart(w, i, j); }
    forall i: nat ensures TimerOk(w', i) { assert TimerOk(w, i); }
    forall j: nat, n: nat ensures Runs(w'.timers, j, n) <==> Runs(w.timers, j, n) { }
    forall u: nat ensures TaskOk(w', u) {
      if u < |w.tasks| {
        assert TaskOk(w, u);
        if u == t {
          var f := Find(w.timers, id);
          if w'.tasks[t].pc.Waiting? { assert Runs(w'.timers, f.value, id); }
        } else {
          assert TasksApart(w, t, u) && TasksApart(w, u, t);
          OtherTaskOk(w, w', t, u);
        }
      }
    }
  }

  /** A task that did not move keeps its standing when another one registered on its own timer. */
  lemma OtherTaskOk(w: World, w': World, t: nat, u: nat)
    requires TaskOk(w, u) && t < |w.tasks| == |w'.tasks| && u < |w.tasks| && u != t && !w.tasks[t].pc.Idle?
    requires w'.tasks[u] == w.tasks[u] && w'.clock == w.clock && w'.nextId == w.nextId
    requires w'.pending == w.pending && w'.queue == w.queue && |w'.timers| == |w.timers|
    requires forall j: nat, n: nat :: Runs(w'.timers, j, n) <==> Runs(w.timers, j, n)
    requires forall j: nat :: j < |w.timers| ==> w'.timers[j].expire == w.timers[j].expire
    requires forall j: nat :: j < |w.timers| && w.timers[j].id != w.tasks[t].pc.id ==> w'.timers[j] == w.timers[j]
    requires !w.tasks[u].pc.Idle? ==> w.tasks[u].pc.id != w.tasks[t].pc.id
    ensures TaskOk(w', u)
  {
    if !w.tasks[u].pc.Idle? {
      var id := w.tasks[u].pc.id;
      assert Active(w'.timers, id) <==> Active(w.timers, id);
      if Registered(w, u) {
        var i: nat :| Runs(w.timers, i, id) && w.timers[i].waiter == Some(u);
        assert Runs(w'.timers, i, id) && w'.timers[i].waiter == Some(u);
      }
      assert Picked(w, u) ==> Picked(w', u);
    }
  }

  lemma CancelOwnInv(w: World, t: nat)
    requires Inv(w) && Enabled(w, ActCancelOwn(t))
    ensures Inv(CancelOwn(w, t))
  {
    var w', id := CancelOwn(w, t), w.tasks[t].pc.id;
    var f := Find(w.timers, id);
    assert TaskOk(w, t);
    if f.Some? { assert TimerOk(w, f.value); }
    forall u: nat, v: nat ensures TasksApart(w', u, v) { assert TasksApart(w, u, v); }
    forall i: nat, j: nat ensures TimersApart(w', i, j) { assert TimersApart(w, i, j); }
    forall i: nat ensures TimerOk(w', i) { CancelOwnTimer(w, t, i); }
    assert !Active(w'.timers, id) by {
      forall i: nat ensures !Runs(w'.timers, i, id) {
        assert Runs(w'.timers, i, id) ==> Runs(w.timers, i, id);
        if f.Some? { assert TimersApart(w, i, f.value) && TimersApart(w, f.value, i); }
      }
    }
    forall u: nat ensures TaskOk(w', u) {
      if u < |w.tasks| {
        assert TaskOk(w, u) && TasksApart(w, t, u) && TasksApart(w, u, t);
        if u == t {
          if f.Some? && w.timers[f.value].waiter.Some? { OwnWaiter(w, t, f.value); }
        } else {
          UnrelatedTaskOk(w, w', t, u);
        }
      }
    }
  }

  /** No timer still running waits on the task whose own timer was cancelled. */
  lemma CancelOwnTimer(w: World, t: nat, i: nat)
    requires Inv(w) && Enabled(w, ActCancelOwn(t))
    ensures TimerOk(CancelOwn(w, t), i)
  {
    var id := w.tasks[t].pc.id;
    var f := Find(w.timers, id);
    assert TimerOk(w, i);
    if f.Some? { assert TimersApart(w, i, f.value) && TimersApart(w, f.value, i); }
    if i < |w.timers| && w.timers[i].active && w.timers[i].waiter == Some(t) { assert Runs(w.timers, i, id); }
  }

  /** The only task ever registered on a sleeper's timer is the sleeper. */
  lemma OwnWaiter(w: World, t: nat, i: nat)
    requires Inv(w) && t < |w.tasks| && i < |w.timers| && w.timers[i].active && w.timers[i].waiter.Some?
    requires Sleeps(w.tasks[t], w.timers[i].id)
    ensures w.timers[i].waiter == Some(t)
  {
    assert TimerOk(w, i);
    var u := w.timers[i].waiter.value;
    assert TasksApart(w, t, u) && TasksApart(w, u, t);
  }

  lemma UnrelatedTaskOk(w: World, w': World, t: nat, u: nat)
    requires TaskOk(w, u) && t < |w.tasks| == |w'.tasks| && u < |w.tasks| && u != t && !w.tasks[t].pc.Idle?
    requires w'.tasks[u] == w.tasks[u] && w'.clock == w.clock && w'.nextId == w.nextId
    requires w'.pending == w.pending && w'.queue == w.queue && |w'.timers| == |w.timers|
    requires forall j: nat :: j < |w.timers| && w'.timers[j] != w.timers[j] ==>
               w.timers[j].active && w.timers[j].id == w.tasks[t].pc.id && !w'.timers[j].active
    requires !w.tasks[u].pc.Idle? ==> w.tasks[u].pc.id != w.tasks[t].pc.id
    ensures TaskOk(w', u)
  {
    if !w.tasks[u].pc.Idle? {
      var id := w.tasks[u].pc.id;
      forall j: nat ensures Runs(w'.timers, j, id) <==> Runs(w.timers, j, id) { }
      assert Active(w'.timers, id) <==> Active(w.timers, id);
      if Registered(w, u) {
        var i: nat :| Runs(w.timers, i, id) && w.timers[i].waiter == Some(u);
        assert Runs(w'.timers, i, id) && w'.timers[i].waiter == Some(u);
      }
      assert Picked(w, u) ==> Picked(w', u);
    }
  }

  lemma WakeInv(w: World, w1: World, u: nat)
    requires Inv(w) && (w1 == w || exists a: nat :: Popped(w, w1, a, u))
    ensures Inv(Wake(w1, u))
  {
    var w' := Wake(w1, u);
    StoppedApart(w, w');
    forall t: nat ensures TaskOk(w', t) {
      if t < |w.tasks| {
        assert TaskOk(w, t);
        StillPicked(w, w', u, t);
        RescheduledOk(w, w', t);
      }
    }
    assert u < |w.tasks| && w.tasks[u].run.Blocked? ==> u !in w.queue by { assert TaskOk(w, u); }
  }

  /** Making a task ready, or taking another off a list, leaves its bookkeeping in order. */
  lemma RescheduledOk(w: World, w': World, t: nat)
    requires TaskOk(w, t) && t < |w.tasks| && |w'.tasks| == |w.tasks|
    requires w'.timers == w.timers && w'.clock == w.clock && w'.nextId == w.nextId
    requires w'.tasks[t] == w.tasks[t].(run := w'.tasks[t].run) && (w'.tasks[t].run.Ready? <==> t in w'.queue)
    requires w'.tasks[t].run.Blocked? ==> w.tasks[t].run.Blocked? && (Picked(w, t) ==> Picked(w', t))
    ensures TaskOk(w', t)
  {
    assert !w.tasks[t].pc.Idle? && Registered(w, t) ==> Registered(w', t);
  }

  /** Party `a` took the first task off its list. */
  predicate Popped(w: World, w1: World, a: nat, u: nat) {
    a < |w.pending| && |w.pending[a]| > 0 && u == w.pending[a][0] && w1 == w.(pending := w.pending[a := w.pending[a][1..]])
  }

  lemma StillPicked(w: World, w': World, u: nat, t: nat)
    requires |w'.pending| == |w.pending|
    requires forall a: nat :: a < |w.pending| && t != u && t in w.pending[a] ==> t in w'.pending[a]
    ensures t != u && Picked(w, t) ==> Picked(w', t)
  {
    if t != u && Picked(w, t) {
      var a: nat :| a < |w.pending| && t in w.pending[a];
      assert t in w'.pending[a];
    }
  }

  lemma NotifyInv(w: World, a: nat, who: seq<nat>)
    requires Inv(w) && a < |w.pending|
    ensures Inv(Notify(w, a, who))
  {
    var w' := Notify(w, a, who);
    StoppedApart(w, w');
    forall t: nat ensures TaskOk(w', t) {
      if t < |w.tasks| {
        PickedMore(w, w', t);
        StoppedTaskOk(w, w', t);
      }
    }
  }

  lemma DispatchInv(w: World, t: nat)
    requires Inv(w) && Enabled(w, ActDispatch(t))
    ensures Inv(Dispatch(w, t))
  {
    var w' := Dispatch(w, t);
    WithoutNoDup(w.queue, t);
    forall u: nat, v: nat ensures TasksApart(w', u, v) { assert TasksApart(w, u, v); }
    forall i: nat ensures TimerOk(w', i) { assert TimerOk(w, i); }
    forall i: nat, j: nat ensures TimersApart(w', i, j) { assert TimersApart(w, i, j); }
    forall u: nat ensures TaskOk(w', u) {
      if u < |w.tasks| {
        assert TaskOk(w, u);
        KeepsPlace(w, w'.(tasks := w.tasks), u);
        if u != t && !w.tasks[u].pc.Idle? && Registered(w, u) {
          var i: nat :| Runs(w.timers, i, w.tasks[u].pc.id) && w.timers[i].waiter == Some(u);
          assert Runs(w'.timers, i, w'.tasks[u].pc.id);
        }
        assert Picked(w, u) ==> Picked(w', u);
      }
    }
  }

  lemma ReturnInv(w: World, t: nat)
    requires Inv(w) && Enabled(w, ActReturn(t))
    ensures Inv(Return(w, t))
  {
    var w1 := SetTask(w, t, w.tasks[t].(pc := Idle));
    assert TaskOk(w, t);
    forall u: nat, v: nat ensures TasksApart(w1, u, v) { assert TasksApart(w, u, v); }
    forall i: nat ensures TimerOk(w1, i) { assert TimerOk(w, i); }
    forall i: nat, j: nat ensures TimersApart(w1, i, j) { assert TimersApart(w, i, j); }
    forall u: nat ensures TaskOk(w1, u) {
      if u < |w.tasks| {
        assert TaskOk(w, u);
        if u != t && !w.tasks[u].pc.Idle? && Registered(w, u) {
          var i: nat :| Runs(w.timers, i, w.tasks[u].pc.id) && w.timers[i].waiter == Some(u);
          assert Runs(w1.timers, i, w1.tasks[u].pc.id);
        }
        assert Picked(w, u) ==> Picked(w1, u);
      }
    }
    if w.tasks[t].pc.waiter.Some? { WakeInv(w1, w1, w.tasks[t].pc.waiter.value); }
  }

  lemma NextInv(w: World, act: Act)
    requires Inv(w) && Enabled(w, act)
    ensures Inv(Next(w, act))
  {
    match act
    case Tick(ms) => TickInv(w, ms);
    case ActBegin(t, ms) => BeginInv(w, t, ms);
    case ActCheck(t) => CheckInv(w, t);
    case ActCancelOwn(t) => CancelOwnInv(w, t);
    case ActReturn(t) => ReturnInv(w, t);
    case ActDispatch(t) => DispatchInv(w, t);
    case ActSweep(a, now) => SweepInv(w, a, now);
    case ActCreate(ms) => CreateInv(w, ms);
    case ActCancelOther(a, id) => CancelOtherInv(w, a, id);
    case ActClear(u) => ClearInv(w, u);
    case ActNotify(a, who) => NotifyInv(w, a, who);
    case ActWakeNext(a) =>
      var u, w1 := w.pending[a][0], w.(pending := w.pending[a := w.pending[a][1..]]);
      assert Popped(w, w1, a, u);
      WakeInv(w, w1, u);
  }

  // -------------------------------------------------------------------- consequences

  /** Whatever step is taken, a task joins the run queue only by going from blocked to ready. */
  lemma EnqueuesOnlyBlocked(w: World, act: Act, u: nat)
    requires Inv(w) && Enabled(w, act) && u in Next(w, act).queue && u !in w.queue
    ensures u < |w.tasks| == |Next(w, act).tasks|
    ensures w.tasks[u].run.Blocked? && Next(w, act).tasks[u].run.Ready?
  {
    NextInv(w, act);
    assert TaskOk(Next(w, act), u);
  }

  /** A sweep that read the clock at or after the expiry of a registered sleeper picks it and stops its timer. */
  lemma SweepPicksExpired(w: World, a: nat, now: nat, t: nat)
    requires Inv(w) && Enabled(w, ActSweep(a, now)) && t < |w.tasks| && w.tasks[t].pc.Waiting?
    requires Registered(w, t) && now >= w.tasks[t].pc.expire
    ensures t in Sweep(w, a, now).pending[a] && !Active(Sweep(w, a, now).timers, w.tasks[t].pc.id)
  {
    var w', id := Sweep(w, a, now), w.tasks[t].pc.id;
    assert TaskOk(w, t);
    var i: nat :| Runs(w.timers, i, id) && w.timers[i].waiter == Some(t);
    forall j: nat ensures !Runs(w'.timers, j, id) {
      assert TimersApart(w, i, j) && TimersApart(w, j, i);
    }
  }

  /** Once a timer has been stopped, by whomever, its identifier never runs again: it is collected once. */
  lemma StoppedForGood(w: World, act: Act, id: nat)
    requires Inv(w) && Enabled(w, act) && id < w.nextId && !Active(w.timers, id)
    ensures id < Next(w, act).nextId && !Active(Next(w, act).timers, id)
  {
    var w' := Next(w, act);
    forall i: nat ensures !Runs(w'.timers, i, id) {
      assert !Runs(w.timers, i, id);
    }
  }

  /** Another party cancels the timer the task sleeps on, or the task is torn down while a timer waits on it. */
  ghost predicate CutsShort(w: World, act: Act, t: nat) {
    t < |w.tasks| &&
    ((act.ActCancelOther? && Active(w.timers, act.id) && Sleeps(w.tasks[t], act.id))
     || (act.ActClear? && act.u == t && exists i :: 0 <= i < |w.timers| && w.timers[i].active && w.timers[i].waiter == Some(t)))
  }

  /** Only a cancellation of the task's own timer by another party, or the task's teardown, cuts a sleep short. */
  lemma CutOnlyByOthers(w: World, act: Act, t: nat)
    requires Inv(w) && Enabled(w, act) && t < |w.tasks| && !w.tasks[t].cut
    requires t < |Next(w, act).tasks| && Next(w, act).tasks[t].cut
    ensures CutsShort(w, act, t)
  {
    if act.ActClear? {
      var ts := Cleared(w.timers, t);
      if act.u == t && ts != w.timers {
        var i: nat :| i < |ts| && ts[i] != w.timers[i];
        assert w.timers[i].active && w.timers[i].waiter == Some(t);
      }
    }
  }

  predicate StepAt(path: seq<World>, acts: seq<Act>, k: nat)
    requires k < |acts| && |path| == |acts| + 1
  {
    Enabled(path[k], acts[k]) && path[k + 1] == Next(path[k], acts[k])
  }

  /** A run from a state where nobody sleeps and no timer runs. */
  ghost predicate IsRun(path: seq<World>, acts: seq<Act>) {
    && |path| == |acts| + 1
    && path[0].nextId > 0 && NoDup(path[0].queue)
    && (forall u :: u in path[0].queue ==> u < |path[0].tasks|)
    && (forall i :: 0 <= i < |path[0].timers| ==> !path[0].timers[i].active)
    && (forall t: nat :: t < |path[0].tasks| ==>
          path[0].tasks[t].pc.Idle? && (path[0].tasks[t].run.Ready? <==> t in path[0].queue))
    && forall k: nat :: k < |acts| ==> StepAt(path, acts, k)
  }

  lemma {:induction false} RunInv(path: seq<World>, acts: seq<Act>, k: nat)
    requires IsRun(path, acts) && k <= |acts|
    ensures Inv(path[k])
  {
    if k > 0 {
      RunInv(path, acts, k - 1);
      assert StepAt(path, acts, k - 1);
      NextInv(path[k - 1], acts[k - 1]);
    }
  }

  /** No wake-up is lost: in every interleaving a task blocked in `sleep_ms` is the registered waiter of its
      still running timer, or some party has picked it and will wake it, or its task is being torn down. And
      no task is on the run queue twice. */
  lemma NoLostWakeup(path: seq<World>, acts: seq<Act>, k: nat, t: nat)
    requires IsRun(path, acts) && k <= |acts| && t < |path[k].tasks|
    requires path[k].tasks[t].pc.Waiting? && path[k].tasks[t].run.Blocked?
    ensures Registered(path[k], t) || Picked(path[k], t) || path[k].tasks[t].cleared
    ensures NoDup(path[k].queue) && t !in path[k].queue
  {
    RunInv(path, acts, k);
    assert TaskOk(path[k], t);
  }

  /** `sleep_ms` returns VOK only after its expiry, unless another party cancelled or cleared its timer; and on
      return its timer slot is free, for good. */
  lemma SleepsLongEnough(path: seq<World>, acts: seq<Act>, k: nat)
    requires IsRun(path, acts) && k < |acts| && acts[k].ActReturn?
    ensures var w, t := path[k], acts[k].t;
            && t < |w.tasks| && w.tasks[t].pc.Leaving?
            && (w.clock >= w.tasks[t].pc.expire || w.tasks[t].cut)
            && !Active(path[k + 1].timers, w.tasks[t].pc.id)
  {
    RunInv(path, acts, k);
    assert StepAt(path, acts, k);
    assert TaskOk(path[k], acts[k].t);
  }

  /** While a task is in one sleep its timer's identifier and expiry stay what they were set to. */
  lemma SameSleep(w: World, act: Act, t: nat)
    requires Enabled(w, act) && t < |w.tasks| && !w.tasks[t].pc.Idle?
    ensures t < |Next(w, act).tasks|
    ensures var pc, pc' := w.tasks[t].pc, Next(w, act).tasks[t].pc;
            !pc'.Idle? ==> pc'.id == pc.id && pc'.expire == pc.expire
  {
  }

  lemma {:induction false} SleepKept(path: seq<World>, acts: seq<Act>, j: nat, k: nat, t: nat)
    requires IsRun(path, acts) && j <= k <= |acts|
    requires forall m: nat :: j <= m <= k ==> t < |path[m].tasks| && !path[m].tasks[t].pc.Idle?
    ensures path[k].tasks[t].pc.expire == path[j].tasks[t].pc.expire
  {
    if j < k {
      SleepKept(path, acts, j, k - 1, t);
      assert StepAt(path, acts, k - 1);
      SameSleep(path[k - 1], acts[k - 1], t);
    }
  }

  /** A sleep that was cut short was so by some act since. */
  lemma {:induction false} CutBy(path: seq<World>, acts: seq<Act>, j: nat, k: nat, t: nat) returns (m: nat)
    requires IsRun(path, acts) && j <= k <= |acts| && t < |path[j].tasks| && !path[j].tasks[t].cut
    requires forall m: nat :: j <= m <= k ==> t < |path[m].tasks|
    requires path[k].tasks[t].cut
    ensures j <= m < k && CutsShort(path[m], acts[m], t)
  {
    if path[k - 1].tasks[t].cut {
      m := CutBy(path, acts, j, k - 1, t);
    } else {
      RunInv(path, acts, k - 1);
      assert StepAt(path, acts, k - 1);
      CutOnlyByOthers(path[k - 1], acts[k - 1], t);
      m := k - 1;
    }
  }

  /** So a call of `sleep_ms(ms)` that returns VOK has lasted at least `ms`, unless meanwhile another party cancelled
      its timer or its task was torn down. */
  lemma SleepLasts(path: seq<World>, acts: seq<Act>, j: nat, k: nat)
    requires IsRun(path, acts) && j < k < |acts| && acts[j].ActBegin? && acts[k] == ActReturn(acts[j].t)
    requires forall m: nat :: j < m <= k ==> acts[j].t < |path[m].tasks| && !path[m].tasks[acts[j].t].pc.Idle?
    ensures path[k].clock >= path[j].clock + acts[j].ms
            || exists m: nat :: j < m < k && CutsShort(path[m], acts[m], acts[j].t)
  {
    var t := acts[j].t;
    assert StepAt(path, acts, j);
    SleepKept(path, acts, j + 1, k, t);
    SleepsLongEnough(path, acts, k);
    assert !path[j + 1].tasks[t].cut;
    if path[k].tasks[t].cut { var m := CutBy(path, acts, j + 1, k, t); }
  }

  // -------------------------------------------------------------------------- waking

  /** A blocked task stays blocked or becomes ready, and stays on the list it was picked for while it is blocked. */
  lemma BlockedStep(w: World, act: Act, a: nat, t: nat)
    requires Inv(w) && Enabled(w, act) && t < |w.tasks| && w.tasks[t].run.Blocked? && a < |w.pending| && t in w.pending[a]
    ensures var w' := Next(w, act);
            && t < |w'.tasks| && a < |w'.pending|
            && (w'.tasks[t].run.Ready? || (w'.tasks[t].run.Blocked? && t in w'.pending[a]))
  {
    var w' := Next(w, act);
    if act.ActWakeNext? && act.a == a && w.pending[a][0] != t {
      var k :| 0 <= k < |w.pending[a]| && w.pending[a][k] == t;
      assert w'.pending[a][k - 1] == t;
    }
  }

  /** A task picked for a list is made ready before the list is used up. */
  lemma {:induction false} PickedWakes(path: seq<World>, acts: seq<Act>, j: nat, k: nat, a: nat, t: nat) returns (m: nat)
    requires IsRun(path, acts) && j <= k <= |acts| && t < |path[j].tasks| && path[j].tasks[t].run.Blocked?
    requires a < |path[j].pending| && t in path[j].pending[a]
    requires a < |path[k].pending| && t !in path[k].pending[a]
    ensures j <= m < k && t < |path[m].tasks| && t < |path[m + 1].tasks|
    ensures path[m].tasks[t].run.Blocked? && path[m + 1].tasks[t].run.Ready?
    decreases k - j
  {
    RunInv(path, acts, j);
    assert StepAt(path, acts, j);
    BlockedStep(path[j], acts[j], a, t);
    if path[j + 1].tasks[t].run.Ready? {
      m := j;
    } else {
      m := PickedWakes(path, acts, j + 1, k, a, t);
    }
  }

  /** Expired sleepers wake: a sweep that reads the clock at or after the expiry of a blocked, registered sleeper
      has made it ready, or somebody else has, by the time the list it collects is used up. */
  lemma SweptWakes(path: seq<World>, acts: seq<Act>, j: nat, k: nat, t: nat) returns (m: nat)
    requires IsRun(path, acts) && j < k <= |acts| && acts[j].ActSweep? && t < |path[j].tasks|
    requires path[j].tasks[t].pc.Waiting? && path[j].tasks[t].run.Blocked? && Registered(path[j], t)
    requires acts[j].now >= path[j].tasks[t].pc.expire
    requires acts[j].a < |path[k].pending| && path[k].pending[acts[j].a] == []
    ensures j < m < k && t < |path[m].tasks| && t < |path[m + 1].tasks|
    ensures path[m].tasks[t].run.Blocked? && path[m + 1].tasks[t].run.Ready?
  {
    RunInv(path, acts, j);
    assert StepAt(path, acts, j);
    SweepPicksExpired(path[j], acts[j].a, acts[j].now, t);
    m := PickedWakes(path, acts, j + 1, k, acts[j].a, t);
  }
}

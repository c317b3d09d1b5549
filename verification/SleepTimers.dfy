/** The timer table of the poll subsystem (kernel/ipc/poll.cpp): what each section under the poll lock does. */
module SleepTimers {

  datatype Option = None | Some(value: nat)

  /** `waiter` is the task registered on the timer. */
  datatype Timer = Timer(id: nat, expire: nat, active: bool, waiter: Option)

  const FREE := Timer(0, 0, false, None)

  predicate Runs(ts: seq<Timer>, i: nat, id: nat) {
    i < |ts| && ts[i].active && ts[i].id == id
  }

  ghost predicate Active(ts: seq<Timer>, id: nat) {
    exists i: nat :: Runs(ts, i, id)
  }

  // -------------------------------------------------------------------- operations

  function FindFrom(ts: seq<Timer>, id: nat, i: nat): (r: Option)
    requires i <= |ts|
    ensures r.Some? ==> i <= r.value && Runs(ts, r.value, id)
    ensures r.None? ==> forall j: nat :: i <= j ==> !Runs(ts, j, id)
    decreases |ts| - i
  {
    if i == |ts| then None else if ts[i].id == id && ts[i].active then Some(i) else FindFrom(ts, id, i + 1)
  }

  function Find(ts: seq<Timer>, id: nat): (r: Option)
    ensures r.Some? <==> Active(ts, id)
    ensures r.Some? ==> Runs(ts, r.value, id)
  {
    FindFrom(ts, id, 0)
  }

  function FreeFrom(ts: seq<Timer>, i: nat): (r: Option)
    requires i <= |ts|
    ensures r.Some? ==> i <= r.value < |ts| && !ts[r.value].active
    ensures r.None? ==> forall j :: i <= j < |ts| ==> ts[j].active
    decreases |ts| - i
  {
    if i == |ts| then None else if !ts[i].active then Some(i) else FreeFrom(ts, i + 1)
  }

  function Stop(t: Timer): Timer {
    t.(id := 0, active := false, waiter := None)
  }

  predicate Expired(t: Timer, now: nat) {
    t.active && t.waiter.Some? && now >= t.expire
  }

  /** The sweep of `check_timers`: every expired timer with a waiter is stopped and its waiter collected. */
  function Swept(ts: seq<Timer>, now: nat): (r: seq<Timer>)
    ensures |r| == |ts|
    ensures forall i :: 0 <= i < |ts| ==> r[i] == if Expired(ts[i], now) then Stop(ts[i]) else ts[i]
  {
    seq(|ts|, i requires 0 <= i < |ts| => if Expired(ts[i], now) then Stop(ts[i]) else ts[i])
  }

  function Collected(ts: seq<Timer>, now: nat, k: nat): (r: seq<nat>)
    requires k <= |ts|
    ensures forall i :: 0 <= i < k && Expired(ts[i], now) ==> ts[i].waiter.value in r
    ensures forall u :: u in r ==> exists i :: 0 <= i < k && Expired(ts[i], now) && ts[i].waiter == Some(u)
  {
    if k == 0 then []
    else
      var r := Collected(ts, now, k - 1);
      if Expired(ts[k - 1], now) then r + [ts[k - 1].waiter.value] else r
  }

  function Cleared(ts: seq<Timer>, u: nat): (r: seq<Timer>)
    ensures |r| == |ts|
    ensures forall i :: 0 <= i < |ts| ==> r[i] == if ts[i].active && ts[i].waiter == Some(u) then Stop(ts[i]) else ts[i]
  {
    seq(|ts|, i requires 0 <= i < |ts| => if ts[i].active && ts[i].waiter == Some(u) then Stop(ts[i]) else ts[i])
  }

  // --------------------------------------------------------------- the table itself

  class Table {
    const timers: array<Timer>
    var nextId: nat

    /** `init`: whatever the memory held, no timer runs. */
    constructor (memory: seq<Timer>)
      ensures fresh(timers) && timers.Length == |memory| && nextId == 1
      ensures forall i :: 0 <= i < |memory| ==> timers[i] == FREE
    {
      timers := new Timer[|memory|](i requires 0 <= i < |memory| => memory[i]);
      nextId := 1;
      new;
      for i := 0 to timers.Length
        invariant nextId == 1 && forall k :: 0 <= k < i ==> timers[k] == FREE
      {
        timers[i] := FREE;
      }
    }

    /** `timer_create` under the lock. */
    method Create(now: nat, timeout: nat) returns (r: Option)
      modifies this, timers
      ensures r.None? <==> FreeFrom(old(timers[..]), 0).None?
      ensures r.None? ==> timers[..] == old(timers[..]) && nextId == old(nextId)
      ensures r.Some? ==>
                && r.value == old(nextId) && nextId == old(nextId) + 1
                && timers[..] == old(timers[..])[FreeFrom(old(timers[..]), 0).value
                                                 := Timer(r.value, now + timeout, true, None)]
    {
      for i := 0 to timers.Length
        invariant timers[..] == old(timers[..]) && nextId == old(nextId)
        invariant FreeFrom(timers[..], 0) == FreeFrom(timers[..], i)
      {
        if !timers[i].active {
          r := Some(nextId);
          timers[i] := Timer(nextId, now + timeout, true, None);
          nextId := nextId + 1;
          return;
        }
      }
      r := None;
    }

    method FindTimer(id: nat) returns (r: Option)
      ensures r == Find(timers[..], id)
    {
      for i := 0 to timers.Length
        invariant Find(timers[..], id) == FindFrom(timers[..], id, i)
      {
        if timers[i].id == id && timers[i].active { return Some(i); }
      }
      r := None;
    }

    /** `timer_cancel` under the lock: the waiter to wake afterwards, if any. */
    method Cancel(id: nat) returns (found: bool, waiter: Option)
      modifies timers
      ensures found == Active(old(timers[..]), id)
      ensures !found ==> timers[..] == old(timers[..]) && waiter == None
      ensures found ==>
                var i := Find(old(timers[..]), id).value;
                timers[..] == old(timers[..])[i := Stop(old(timers[i]))] && waiter == old(timers[i]).waiter
    {
      var f := FindTimer(id);
      if f.None? { return false, None; }
      found, waiter := true, timers[f.value].waiter;
      timers[f.value] := Stop(timers[f.value]);
    }

    /** The sweep: expired waiters, in table order, and their timers stopped. */
    method CheckTimers(now: nat) returns (wake: seq<nat>)
      modifies timers
      ensures timers[..] == Swept(old(timers[..]), now)
      ensures wake == Collected(old(timers[..]), now, timers.Length)
    {
      ghost var ts := timers[..];
      wake := [];
      for i := 0 to timers.Length
        invariant forall j :: 0 <= j < i ==> timers[j] == Swept(ts, now)[j]
        invariant forall j :: i <= j < timers.Length ==> timers[j] == ts[j]
        invariant wake == Collected(ts, now, i)
      {
        if timers[i].active && timers[i].waiter.Some? && now >= timers[i].expire {
          wake := wake + [timers[i].waiter.value];
          timers[i] := Stop(timers[i]);
        }
      }
    }

    method ClearWaiter(u: nat)
      modifies timers
      ensures timers[..] == Cleared(old(timers[..]), u)
    {
      ghost var ts := timers[..];
      for i := 0 to timers.Length
        invariant forall j :: 0 <= j < i ==> timers[j] == Cleared(ts, u)[j]
        invariant forall j :: i <= j < timers.Length ==> timers[j] == ts[j]
      {
        if timers[i].active && timers[i].waiter == Some(u) { timers[i] := Stop(timers[i]); }
      }
    }
  }
}

/** The queue of src/scheduler.h and src/scheduler.cpp: one locked operation at a time. */
module Scheduler {
  import opened Wrappers
  import opened Tasks

  /** What `ts` puts into the queue: `scheduleNoLock` drops a null fiber or an empty function. */
  function Runnable(ts: seq<Option<Task>>): seq<Task> {
    if ts == [] then [] else Runnable(ts[..|ts| - 1]) + Pushed(ts[|ts| - 1])
  }

  function Pushed(t: Option<Task>): seq<Task> {
    if t.Some? then [t.value] else []
  }

  class Scheduler {
    var fibers: seq<Task>
    var active: nat
    var stopRequested: bool
    var autoStop: bool

    constructor ()
      ensures fibers == [] && active == 0 && stopRequested && !autoStop
    {
      fibers, active, stopRequested, autoStop := [], 0, true, false;
    }

    method ScheduleNoLock(t: Option<Task>) returns (needTickle: bool)
      modifies this`fibers
      ensures fibers == old(fibers) + if t.Some? then [t.value] else []
      ensures needTickle == (old(fibers) == [])
    {
      needTickle := fibers == [];
      if t.Some? {
        fibers := fibers + [t.value];
      }
    }

    /** `tickled`: whether idle workers are told, so that the queue never stops being empty unnoticed. */
    method Schedule(t: Option<Task>) returns (tickled: bool)
      modifies this`fibers
      ensures fibers == old(fibers) + if t.Some? then [t.value] else []
      ensures tickled == (old(fibers) == [])
    {
      tickled := ScheduleNoLock(t);
    }

    /** The batch keeps its order and idle workers are told at most once. */
    method ScheduleAll(ts: seq<Option<Task>>) returns (tickled: bool)
      modifies this`fibers
      ensures fibers == old(fibers) + Runnable(ts)
      ensures tickled == (old(fibers) == [] && ts != [])
    {
      tickled := false;
      var i := 0;
      while i < |ts|
        invariant 0 <= i <= |ts|
        invariant fibers == old(fibers) + Runnable(ts[..i])
        invariant tickled == (old(fibers) == [] && i > 0)
      {
        var need := ScheduleNoLock(ts[i]);
        tickled := need || tickled;
        i := i + 1;
        assert ts[..i][..i - 1] == ts[..i - 1];
      }
      assert ts[..i] == ts;
    }

    /** The scan at the head of the worker loop: it takes the first task that is not an executing fiber, counts the
        worker as active, and tells another worker if tasks are left behind the one taken. */
    method TakeTask(states: map<nat, FiberState>) returns (t: Option<Task>, tickled: bool)
      modifies this`fibers, this`active
      ensures match FirstReady(old(fibers), states, 0)
              case None => t == None && fibers == old(fibers) && active == old(active) && !tickled
              case Some(i) =>
                && t == Some(old(fibers)[i]) && fibers == WithoutTask(old(fibers), i) && active == old(active) + 1
                && tickled == (i + 1 < |old(fibers)|)
      ensures t.None?
          <==> forall k :: 0 <= k < |old(fibers)| ==>
                 var x := old(fibers)[k]; x.FiberTask? && x.f in states && states[x.f] == EXEC
      ensures t.Some? ==>
                && !(t.value.FiberTask? && t.value.f in states && states[t.value.f] == EXEC)
                && exists i ::
                     && 0 <= i < |old(fibers)| && t.value == old(fibers)[i]
                     && fibers == old(fibers)[..i] + old(fibers)[i + 1..]
                     && forall k :: 0 <= k < i ==>
                          var x := old(fibers)[k]; x.FiberTask? && x.f in states && states[x.f] == EXEC
    {
      FirstReadyBounds(fibers, states, 0);
      t := None;
      var i := 0;
      while i < |fibers| && t.None?
        invariant 0 <= i <= |fibers| && i <= |old(fibers)|
        invariant FirstReady(old(fibers), states, 0) == FirstReady(old(fibers), states, i)
        invariant t.None? ==> fibers == old(fibers) && active == old(active)
        invariant t.Some? ==>
                    && i < |old(fibers)| && FirstReady(old(fibers), states, i) == Some(i) && t.value == old(fibers)[i]
                    && fibers == WithoutTask(old(fibers), i) && active == old(active) + 1
        decreases |old(fibers)| - i, t.None?
      {
        if Skipped(fibers[i], states) {
          i := i + 1;
        } else {
          t := Some(fibers[i]);
          fibers := WithoutTask(fibers, i);
          active := active + 1;
        }
      }
      tickled := i < |fibers|;
    }

    predicate Stopping()
      reads this
    {
      autoStop && stopRequested && fibers == [] && active == 0
    }
  }

  /** A batch without its null entries, in order. */
  lemma {:induction false} RunnableParts(a: seq<Option<Task>>, b: seq<Option<Task>>, t: Task)
    ensures Runnable(a + b) == Runnable(a) + Runnable(b)
    ensures Runnable([Some(t)]) == [t] && Runnable([None]) == []
    decreases |b|
  {
    var one: seq<Option<Task>>, none: seq<Option<Task>> := [Some(t)], [None];
    assert one[..0] == [] && none[..0] == [];
    if b == [] {
      assert a + b == a;
    } else {
      var front := b[..|b| - 1];
      RunnableParts(a, front, t);
      assert (a + b)[..|a + b| - 1] == a + front;
    }
  }

  /** The scan takes task `i` exactly when it is the first in the queue that is not an executing fiber. */
  lemma FirstReadyIsFirst(queue: seq<Task>, states: map<nat, FiberState>, i: nat)
    requires i < |queue|
    ensures FirstReady(queue, states, 0) == Some(i)
        <==> !(queue[i].FiberTask? && queue[i].f in states && states[queue[i].f] == EXEC)
             && forall k :: 0 <= k < i ==>
                  queue[k].FiberTask? && queue[k].f in states && states[queue[k].f] == EXEC
  {
    FirstReadyBounds(queue, states, 0);
  }
}

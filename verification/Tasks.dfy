/** Tasks, fiber states and events shared by the scheduler and the event table (src/scheduler.h, src/fiber.h,
    src/iocontext.h). */
module Tasks {
  import opened Wrappers

  datatype FiberState = INIT | EXEC | TERM

  /** READ is EPOLLIN (0x1) and WRITE is EPOLLOUT (0x4); a mask of the two is a set. */
  datatype Event = READ | WRITE

  datatype Key = Key(fd: nat, event: Event)

  /** A fiber or a callback; a `do_io` timeout callback names the shared info and the event it will cancel. */
  datatype Task = FiberTask(f: nat) | UserCb | TimeoutCb(info: nat, key: Key)

  /** The queue without its `i`th task. */
  function WithoutTask(queue: seq<Task>, i: nat): seq<Task>
    requires i < |queue|
  {
    queue[..i] + queue[i + 1..]
  }

  predicate Skipped(t: Task, states: map<nat, FiberState>) {
    t.FiberTask? && t.f in states && states[t.f] == EXEC
  }

  /** The first task from `i` on that is not a fiber still executing. */
  function FirstReady(queue: seq<Task>, states: map<nat, FiberState>, i: nat): (r: Option<nat>)
    requires i <= |queue|
    ensures r.Some? ==> i <= r.value < |queue|
    decreases |queue| - i
  {
    if i == |queue| then None
    else if Skipped(queue[i], states) then FirstReady(queue, states, i + 1)
    else Some(i)
  }

  lemma {:induction false} FirstReadyBounds(queue: seq<Task>, states: map<nat, FiberState>, i: nat)
    requires i <= |queue|
    ensures var r := FirstReady(queue, states, i);
      && (r.Some? ==>
            i <= r.value < |queue| && !Skipped(queue[r.value], states)
            && forall k :: i <= k < r.value ==> Skipped(queue[k], states))
      && (r.None? ==> forall k :: i <= k < |queue| ==> Skipped(queue[k], states))
    decreases |queue| - i
  {
    if i < |queue| && Skipped(queue[i], states) {
      FirstReadyBounds(queue, states, i + 1);
    }
  }
}

/** What the worker protocol guarantees in every reachable state, over every interleaving. */
module ProtocolTheorems {
  import opened Wrappers
  import opened Tasks
  import opened Protocol
  import opened ProtocolSteps

  /** No fiber executes on two workers, whatever the interleaving. */
  lemma OneWorkerPerFiber(s: State, v: nat, w: nat, f: nat)
    requires Reachable(s) && v < |s.workers| && w < |s.workers|
    requires OnFiber(s.workers[v].pc) == Some(f) && OnFiber(s.workers[w].pc) == Some(f)
    ensures v == w
  {
    ReachableInv(s);
  }

  /** A fiber a worker is about to swap in is INIT, is on no other worker, queue entry or event, and nobody else
      took it. */
  lemma SwapInAssertionHolds(s: State, w: nat)
    requires Reachable(s) && w < |s.workers| && s.workers[w].pc.Holding? && s.workers[w].pc.t.FiberTask?
    ensures var f := s.workers[w].pc.t.f;
      && f in s.fibers && s.fibers[f].state == INIT
      && FiberTask(f) !in s.queue
      && (forall k :: k in s.regs ==> s.regs[k] != FiberTask(f))
      && (forall v :: 0 <= v < |s.workers| && v != w ==>
            s.workers[v].pc != s.workers[w].pc && OnFiber(s.workers[v].pc) != Some(f))
  {
    ReachableInv(s);
    HeldIsReady(s, w, s.workers[w].pc.t.f);
  }

  /** A live fiber that is on no worker is in exactly one place: once in the queue, or in one event, or in one worker's
      hands. */
  ghost predicate InExactlyOnePlace(s: State, f: nat) {
    var queued, registered, held := FiberTask(f) in s.queue, exists k :: k in s.regs && s.regs[k] == FiberTask(f),
      exists w :: 0 <= w < |s.workers| && s.workers[w].pc == Holding(FiberTask(f));
    && (queued || registered || held)
    && !(queued && registered) && !(queued && held) && !(registered && held)
    && (forall i, j :: 0 <= i < j < |s.queue| && s.queue[i] == FiberTask(f) ==> s.queue[j] != FiberTask(f))
    && (forall k, l :: k in s.regs && l in s.regs && s.regs[k] == FiberTask(f) && s.regs[l] == FiberTask(f) ==> k == l)
  }

  lemma WaitingFiberIsInOnePlace(s: State, f: nat)
    requires Reachable(s) && f in s.fibers && s.fibers[f].state == INIT
    ensures InExactlyOnePlace(s, f)
  {
    ReachableInv(s);
    assert FiberOk(s.fibers[f], PcOf(s.workers, s.fibers[f].on));
  }

  /** Each wait ends with exactly one queueing of the fiber: while it is registered it has been queued once for every
      earlier wait, and otherwise once for every wait. */
  lemma QueuedOncePerWait(s: State, f: nat)
    requires Reachable(s) && f in s.fibers
    ensures (exists k :: k in s.regs && s.regs[k] == FiberTask(f)) ==> s.fibers[f].wakes + 1 == s.fibers[f].waits
    ensures !(exists k :: k in s.regs && s.regs[k] == FiberTask(f)) ==> s.fibers[f].wakes == s.fibers[f].waits
  {
    ReachableInv(s);
    assert FiberOk(s.fibers[f], PcOf(s.workers, s.fibers[f].on));
  }

  /** When `stopping` holds every fiber has terminated and nothing is left that could start one. */
  lemma StoppingMeansDone(s: State)
    requires Reachable(s) && Stopping(s)
    ensures s.queue == [] && s.regs == map[] && s.timers == map[]
    ensures forall f :: f in s.fibers ==> s.fibers[f].state == TERM
    ensures forall w :: 0 <= w < |s.workers| ==>
              !IsActive(s.workers[w]) && !s.workers[w].pc.Marking? && !s.workers[w].owes
  {
    ReachableInv(s);
    assert |s.regs| == 0;
    forall f | f in s.fibers ensures s.fibers[f].state == TERM {
      assert FiberOk(s.fibers[f], PcOf(s.workers, s.fibers[f].on));
      if s.fibers[f].on.Some? {
        CountedWorker(s.workers, s.fibers[f].on.value);
      }
      if s.fibers[f].place.Held? {
        CountedWorker(s.workers, s.fibers[f].place.w);
      }
    }
    forall w | 0 <= w < |s.workers|
      ensures !IsActive(s.workers[w]) && !s.workers[w].pc.Marking? && !s.workers[w].owes
    {
      CountedWorker(s.workers, w);
      if s.workers[w].pc.Marking? {
        OnWorker(s, w, s.workers[w].pc.f);
      }
    }
  }

  /** No later step makes `stopping` false. */
  lemma StoppingStays(s: State, step: Step)
    requires Reachable(s) && Stopping(s) && Enabled(s, step)
    ensures Stopping(Apply(s, step))
  {
    ReachableInv(s);
    StepKeepsStopping(s, step);
  }

  /** No worker leaves `run` while work is outstanding. */
  lemma LeavingMeansDone(s: State, w: nat)
    requires Reachable(s) && w < |s.workers| && s.workers[w].pc == Left
    ensures Stopping(s)
    ensures s.queue == [] && s.regs == map[] && s.timers == map[]
    ensures forall f :: f in s.fibers ==> s.fibers[f].state == TERM
  {
    ReachableInv(s);
    assert s.workers[w].idleOver;
    StoppingMeansDone(s);
  }

  /** An armed timeout belongs to a `do_io` call still in progress: no call leaves its timer behind. */
  lemma TimeoutsBelongToCalls(s: State, t: nat)
    requires Reachable(s) && t in s.timers && s.timers[t].TimeoutCb?
    ensures s.timers[t].info in s.infos
    ensures var f := s.infos[s.timers[t].info].owner;
      f in s.fibers && s.fibers[f].state != TERM && HasTimer(s.fibers[f].pos) && s.fibers[f].pos.timer == Some(t)
      && s.fibers[f].pos.key == s.timers[t].key
  {
    ReachableInv(s);
    var f := s.infos[s.timers[t].info].owner;
    assert FiberOk(s.fibers[f], PcOf(s.workers, s.fibers[f].on));
  }
}

/** What wakes a fiber that waits in `do_io` with a timeout (src/hook.cpp): either its own timeout still can, or the
    wait is left to its event for good. */
module ProtocolWaking {
  import opened Wrappers
  import opened Tasks
  import opened Protocol
  import opened ProtocolSteps
  import opened ProtocolTimeouts

  // ---------- Runs in which nobody else touches an event ----------

  /** Readiness, a cancel, or another call: what may happen to event `key` besides the timeout of the call that
      waits. */
  predicate Foreign(step: Step, key: Key) {
    (step.Ready? && step.key == key) || (step.Cancel? && step.key == key) || (step.BeginIo? && step.key == key)
  }

  /** A run without such steps. */
  ghost predicate Alone(states: seq<State>, steps: seq<Step>, key: Key) {
    && |states| == |steps| + 1
    && forall i :: 0 <= i < |steps| ==>
         Enabled(states[i], steps[i]) && !Foreign(steps[i], key) && states[i + 1] == Apply(states[i], steps[i])
  }

  ghost predicate InTableFor(s: State, f: nat, key: Key) {
    f in s.fibers && s.fibers[f].place == InTable(key)
  }

  /** However the run goes on, the fiber stays in the table until somebody else touches its event. */
  ghost predicate LeftToEvent(s: State, f: nat, key: Key) {
    forall states, steps :: Alone(states, steps, key) && states[0] == s ==> InTableFor(states[|steps|], f, key)
  }

  /** No `do_io` call but that of fiber `f` is about event `key`. */
  ghost predicate SoleCall(s: State, f: nat, key: Key) {
    forall g :: g in s.fibers && HasInfo(s.fibers[g].pos) && s.fibers[g].pos.key == key ==> g == f
  }

  /** Fiber `f` waits for event `key` with a timeout, and no other call is about this event. */
  ghost predicate WaitsAlone(s: State, f: nat, key: Key) {
    InTableFor(s, f, key) && HasTimer(s.fibers[f].pos) && SoleCall(s, f, key)
  }

  // ---------- A lost timeout stays lost ----------

  /** What a step does to a fiber, seen from event `key`: no call for it begins and no cancelling. */
  ghost predicate Bystander(s: State, s': State, g: nat, key: Key) {
    g in s'.fibers ==>
      && (HasInfo(s'.fibers[g].pos) && s'.fibers[g].pos.key == key ==>
            g in s.fibers && HasInfo(s.fibers[g].pos) && s.fibers[g].pos.key == key)
      && (s'.fibers[g].pos == Expiring(key) ==> g in s.fibers && s.fibers[g].pos == Expiring(key))
  }

  lemma LoopBystander(s: State, step: Step, g: nat, key: Key)
    requires Enabled(s, step) && IsLoopStep(step)
    ensures Bystander(s, ApplyLoop(s, step), g, key)
  {
  }

  lemma IdleBystander(s: State, step: Step, g: nat, key: Key)
    requires Enabled(s, step) && IsIdleStep(step)
    ensures Bystander(s, ApplyIdle(s, step), g, key)
  {
  }

  lemma UserBystander(s: State, step: Step, g: nat, key: Key)
    requires Enabled(s, step) && IsUserStep(step)
    ensures Bystander(s, ApplyUser(s, step), g, key)
  {
  }

  lemma ExternalBystander(s: State, step: Step, g: nat, key: Key)
    requires Enabled(s, step) && IsExternal(step)
    ensures Bystander(s, ApplyExternal(s, step), g, key)
  {
  }

  predicate IsWaitStep(step: Step) {
    step.TimeoutCancel? || step.AddEvent? || step.Yield?
  }

  predicate IsTryStep(step: Step) {
    step.BeginIo? || step.IoDone? || step.IoAgain? || step.AddFails?
  }

  predicate IsAfterStep(step: Step) {
    step.DropTimer? || step.AfterWake? || step.TimeoutTest?
  }

  lemma TryBystander(s: State, step: Step, g: nat, key: Key)
    requires Enabled(s, step) && IsTryStep(step) && !Foreign(step, key)
    ensures Bystander(s, ApplyIo(s, step), g, key)
  {
  }

  lemma AfterBystander(s: State, step: Step, g: nat, key: Key)
    requires Enabled(s, step) && IsAfterStep(step) && !step.TimeoutTest?
    ensures Bystander(s, ApplyIo(s, step), g, key)
  {
  }

  lemma WaitBystander(s: State, step: Step, g: nat, key: Key)
    requires Enabled(s, step) && IsWaitStep(step)
    ensures Bystander(s, ApplyIo(s, step), g, key)
  {
  }

  lemma TakeStays(s: State, w: nat, f: nat, key: Key)
    requires Good(s) && Enabled(s, Take(w)) && InTableFor(s, f, key)
    ensures InTableFor(TakeOut(s, w, NextTask(s).value), f, key)
  {
    hide TableInv, StackInv, IoInv, CountInv, NextTask;
  }

  lemma SwapInStays(s: State, w: nat, g: nat, f: nat, key: Key)
    requires Good(s) && Enabled(s, SwapIn(w, g)) && InTableFor(s, f, key)
    ensures InTableFor(ApplyLoop(s, SwapIn(w, g)), f, key)
  {
    HeldIsReady(s, w, g);
    hide Good;
  }

  lemma LoopStays(s: State, step: Step, f: nat, key: Key)
    requires Good(s) && Enabled(s, step) && IsLoopStep(step) && InTableFor(s, f, key)
    ensures InTableFor(ApplyLoop(s, step), f, key)
  {
    hide Good, TakeOut, NextTask;
    if step.Take? {
      TakeStays(s, step.w, f, key);
    } else if step.SwapIn? {
      hide ApplyLoop, Enabled;
      SwapInStays(s, step.w, step.f, f, key);
    }
  }

  lemma IdleStays(s: State, step: Step, f: nat, key: Key)
    requires Good(s) && Enabled(s, step) && IsIdleStep(step) && InTableFor(s, f, key) && !Foreign(step, key)
    ensures InTableFor(ApplyIdle(s, step), f, key)
  {
    hide IoInv, CountInv;
  }

  lemma UserStays(s: State, step: Step, f: nat, key: Key)
    requires Good(s) && Enabled(s, step) && IsUserStep(step) && InTableFor(s, f, key) && !Foreign(step, key)
    ensures InTableFor(ApplyUser(s, step), f, key)
  {
    hide IoInv, CountInv;
  }

  lemma ExternalStays(s: State, step: Step, f: nat, key: Key)
    requires Good(s) && Enabled(s, step) && IsExternal(step) && InTableFor(s, f, key)
    ensures InTableFor(ApplyExternal(s, step), f, key)
  {
    hide IoInv, CountInv;
  }

  lemma TryStays(s: State, step: Step, f: nat, key: Key)
    requires Enabled(s, step) && IsTryStep(step) && InTableFor(s, f, key)
    ensures InTableFor(ApplyIo(s, step), f, key)
  {
  }

  lemma AfterStays(s: State, step: Step, f: nat, key: Key)
    requires Enabled(s, step) && IsAfterStep(step) && InTableFor(s, f, key)
    ensures InTableFor(ApplyIo(s, step), f, key)
  {
  }

  lemma WaitStays(s: State, step: Step, f: nat, key: Key)
    requires Good(s) && Enabled(s, step) && IsWaitStep(step) && InTableFor(s, f, key)
    requires !(step.TimeoutCancel? && PosOn(s, step.w).key == key)
    ensures InTableFor(ApplyIo(s, step), f, key)
  {
    hide QueueInv, WorkerInv, IoInv, CountInv;
    if step.AddEvent? {
      assert FiberOk(s.fibers[f], PcOf(s.workers, s.fibers[f].on));
    }
  }

  /** A callback that marks a call for event `key` marks that of the fiber that waits for it, and not twice. */
  lemma TestBystander(s: State, w: nat, f: nat, g: nat, key: Key)
    requires Good(s) && TimeoutInv(s) && Enabled(s, TimeoutTest(w)) && WaitsAlone(s, f, key) && TimeoutLost(s, f)
    ensures Bystander(s, ApplyIo(s, TimeoutTest(w)), g, key)
  {
    hide PlaceInv, CountInv, TimerInv, Pending;
    var p := PosOn(s, w);
    ExecutingIsPending(s, s.workers[w].pc.f);
    if p.key == key && p.info in s.infos {
      assert s.infos[p.info].owner == f && s.fibers[f].pos.info == p.info;
    }
  }

  lemma StepBystander(s: State, step: Step, f: nat, g: nat, key: Key)
    requires Good(s) && TimeoutInv(s) && Enabled(s, step) && !Foreign(step, key)
    requires WaitsAlone(s, f, key) && TimeoutLost(s, f)
    ensures Bystander(s, Apply(s, step), g, key)
  {
    hide Good, TimeoutInv, WaitsAlone, TimeoutLost, Bystander, Foreign, Enabled;
    if IsExternal(step) {
      ExternalBystander(s, step, g, key);
    } else if IsIdleStep(step) {
      IdleBystander(s, step, g, key);
    } else if IsUserStep(step) {
      UserBystander(s, step, g, key);
    } else if IsLoopStep(step) {
      LoopBystander(s, step, g, key);
    } else if step.TimeoutTest? {
      TestBystander(s, step.w, f, g, key);
    } else if IsWaitStep(step) {
      WaitBystander(s, step, g, key);
    } else if IsTryStep(step) {
      TryBystander(s, step, g, key);
    } else {
      AfterBystander(s, step, g, key);
    }
  }

  lemma StepStays(s: State, step: Step, f: nat, key: Key)
    requires Good(s) && Enabled(s, step) && InTableFor(s, f, key) && !Foreign(step, key)
    requires !(step.TimeoutCancel? && PosOn(s, step.w).key == key)
    ensures InTableFor(Apply(s, step), f, key)
  {
    hide Good, InTableFor;
    if IsExternal(step) {
      ExternalStays(s, step, f, key);
    } else if IsIdleStep(step) {
      IdleStays(s, step, f, key);
    } else if IsUserStep(step) {
      UserStays(s, step, f, key);
    } else if IsLoopStep(step) {
      LoopStays(s, step, f, key);
    } else if IsWaitStep(step) {
      WaitStays(s, step, f, key);
    } else if IsTryStep(step) {
      TryStays(s, step, f, key);
    } else {
      AfterStays(s, step, f, key);
    }
  }

  lemma ParkedFor(s: State, f: nat, key: Key)
    requires Good(s) && InTableFor(s, f, key)
    ensures s.fibers[f].pos.Parked? && s.fibers[f].pos.key == key
  {
    hide QueueInv, TableInv, WorkerInv, IoInv, CountInv;
    assert FiberOk(s.fibers[f], PcOf(s.workers, s.fibers[f].on));
  }

  lemma IoParkedFollows(s: State, step: Step, f: nat)
    requires Enabled(s, step) && IsIoStep(step) && f in s.fibers && s.fibers[f].pos.Parked?
    ensures f in ApplyIo(s, step).fibers
    ensures var p := ApplyIo(s, step).fibers[f].pos; p == s.fibers[f].pos || p.Woken?
  {
    hide Enabled, ApplyIo;
    IoRuns(s, step);
    if s.workers[step.w].pc == Running(f) {
      WaiterYields(s, step, f);
    } else {
      IoUntouched(s, step, f);
    }
  }

  /** A parked fiber is at most resumed. */
  lemma ParkedFollows(s: State, step: Step, f: nat)
    requires Enabled(s, step) && f in s.fibers && s.fibers[f].pos.Parked?
    ensures f in Apply(s, step).fibers
    ensures var p := Apply(s, step).fibers[f].pos; p == s.fibers[f].pos || p.Woken?
  {
    if !IsIoStep(step) {
      hide Enabled, Apply;
      StepUntouched(s, step, f);
    } else {
      hide *;
      IoKinds(s, step);
      IoParkedFollows(s, step, f);
    }
  }

  lemma TryKeepsMark(s: State, step: Step, i: nat)
    requires Enabled(s, step) && IsTryStep(step) && i in s.infos && i < s.nextId && s.infos[i].cancelled
    ensures i in ApplyIo(s, step).infos ==> ApplyIo(s, step).infos[i].cancelled
  {
  }

  lemma AfterKeepsMark(s: State, step: Step, i: nat)
    requires Enabled(s, step) && IsAfterStep(step) && i in s.infos && s.infos[i].cancelled
    ensures i in ApplyIo(s, step).infos ==> ApplyIo(s, step).infos[i].cancelled
  {
  }

  lemma WaitKeepsInfos(s: State, step: Step)
    requires Enabled(s, step) && IsWaitStep(step)
    ensures ApplyIo(s, step).infos == s.infos
  {
  }

  /** The steps of `do_io` in three groups. */
  lemma IoKinds(s: State, step: Step)
    requires Enabled(s, step) && IsIoStep(step)
    ensures Apply(s, step) == ApplyIo(s, step) && (IsTryStep(step) || IsAfterStep(step) || IsWaitStep(step))
  {
    hide Enabled, ApplyLoop, ApplyIdle, ApplyUser, ApplyIo, ApplyExternal;
  }

  /** The mark on a call stays until the call is over. */
  lemma MarkStays(s: State, step: Step, f: nat, i: nat)
    requires Enabled(s, step) && f in s.fibers && i in s.infos && i < s.nextId && s.infos[i].cancelled
    ensures i in Apply(s, step).infos ==> Apply(s, step).infos[i].cancelled
  {
    hide *;
    if !IsIoStep(step) {
      StepUntouched(s, step, f);
    } else {
      IoKinds(s, step);
      if IsTryStep(step) {
        TryKeepsMark(s, step, i);
      } else if IsAfterStep(step) {
        AfterKeepsMark(s, step, i);
      } else {
        WaitKeepsInfos(s, step);
      }
    }
  }

  lemma InfoKnown(s: State, f: nat)
    requires Good(s) && f in s.fibers && HasInfo(s.fibers[f].pos)
    ensures s.fibers[f].pos.info in s.infos && s.fibers[f].pos.info < s.nextId
  {
    hide PlaceInv, CountInv, TimerInv;
  }

  lemma LostAfter(s: State, s': State, f: nat, key: Key)
    requires WaitsAlone(s, f, key) && TimeoutLost(s, f) && s.fibers[f].pos.key == key
    requires InTableFor(s', f, key) && s'.fibers[f].pos == s.fibers[f].pos
    requires var i := s.fibers[f].pos.info; i in s'.infos && s'.infos[i].cancelled
    requires forall g :: Bystander(s, s', g, key)
    ensures WaitsAlone(s', f, key) && TimeoutLost(s', f)
  {
    forall g | g in s'.fibers ensures s'.fibers[g].pos != Expiring(key) {
      assert Bystander(s, s', g, key);
    }
    forall g | g in s'.fibers && HasInfo(s'.fibers[g].pos) && s'.fibers[g].pos.key == key ensures g == f {
      assert Bystander(s, s', g, key);
    }
  }

  /** Nothing but its event wakes a fiber whose timeout is lost, and the timeout stays lost. */
  lemma LostStays(s: State, step: Step, f: nat, key: Key)
    requires Good(s) && TimeoutInv(s) && Enabled(s, step) && !Foreign(step, key)
    requires WaitsAlone(s, f, key) && TimeoutLost(s, f)
    ensures WaitsAlone(Apply(s, step), f, key) && TimeoutLost(Apply(s, step), f)
  {
    hide Good, TimeoutInv, Apply, Foreign, Bystander;
    var s' := Apply(s, step);
    StepKeeps(s, step);
    ParkedFor(s, f, key);
    assert step.TimeoutCancel? ==> s.fibers[s.workers[step.w].pc.f].pos == PosOn(s, step.w);
    hide Enabled;
    StepStays(s, step, f, key);
    ParkedFor(s', f, key);
    ParkedFollows(s, step, f);
    InfoKnown(s, f);
    InfoKnown(s', f);
    MarkStays(s, step, f, s.fibers[f].pos.info);
    forall g ensures Bystander(s, s', g, key) {
      StepBystander(s, step, f, g, key);
    }
    LostAfter(s, s', f, key);
  }

  lemma {:induction false} LostAlong(states: seq<State>, steps: seq<Step>, i: nat, f: nat, key: Key)
    requires Alone(states, steps, key) && i < |states|
    requires Reachable(states[0]) && WaitsAlone(states[0], f, key) && TimeoutLost(states[0], f)
    ensures Reachable(states[i]) && WaitsAlone(states[i], f, key) && TimeoutLost(states[i], f)
    decreases i
  {
    hide Reachable, WaitsAlone, TimeoutLost, Enabled, Apply, TimeoutInv;
    if i > 0 {
      LostAlong(states, steps, i - 1, f, key);
      var s, step := states[i - 1], steps[i - 1];
      assert Enabled(s, step) && !Foreign(step, key) && states[i] == Apply(s, step);
      ReachableInv(s);
      ReachableTimeouts(s);
      LostStays(s, step, f, key);
      RunOn(s, step);
    }
  }

  /** A wait whose timeout is lost is left to its event, over every run. */
  lemma LostIsLeft(s: State, f: nat, key: Key)
    requires Reachable(s) && WaitsAlone(s, f, key) && TimeoutLost(s, f)
    ensures LeftToEvent(s, f, key)
  {
    forall states, steps | Alone(states, steps, key) && states[0] == s ensures InTableFor(states[|steps|], f, key) {
      LostAlong(states, steps, |steps|, f, key);
    }
  }
}

/** What enters the queue, what leaves it, and that nothing is dropped on the way (src/scheduler.cpp, src/scheduler.h,
    src/iomanager_epoll.cpp, src/timer.cpp). */
module ProtocolAccounts {
  import opened Wrappers
  import opened Tasks
  import opened Protocol
  import opened ProtocolSteps
  import opened ProtocolTheorems
  import opened ProtocolWaking

  // ---------- What one step does to queue, timers and table ----------

  /** What a step puts into the queue: what is submitted or spawned, what expires, what is triggered. */
  function Arriving(s: State, step: Step): seq<Task>
    requires Enabled(s, step)
  {
    match step
    case Submit => [UserCb]
    case Spawn(_) => [UserCb]
    case SubmitFiber(f) => [FiberTask(f)]
    case SpawnFiber(_, f) => [FiberTask(f)]
    case Expire(_, t, _) => [s.timers[t]]
    case Ready(_, key) => [s.regs[key]]
    case Cancel(_, key) => [s.regs[key]]
    case TimeoutCancel(w) => if PosOn(s, w).key in s.regs then [s.regs[PosOn(s, w).key]] else []
    case _ => []
  }

  /** A timer leaves the set only into the queue or by a cancel: of user code, or of the call that set it. */
  ghost predicate TimerLawful(s: State, step: Step, s': State, t: nat)
    requires Enabled(s, step) && t in s.timers
  {
    if t in s'.timers then s'.timers[t] == s.timers[t]
    else
      || (step.Expire? && step.t == t && s'.queue == s.queue + [s.timers[t]])
      || (step.CancelTimer? && step.t == t && s.timers[t] == UserCb)
      || ((step.DropTimer? || step.AddFails?) && PosOn(s, step.w).timer == Some(t))
  }

  /** A registration leaves the table only into the queue. */
  ghost predicate RegistrationLawful(s: State, s': State, key: Key)
    requires key in s.regs
  {
    if key in s'.regs then s'.regs[key] == s.regs[key] else s'.queue == s.queue + [s.regs[key]]
  }

  ghost predicate Lawful(s: State, step: Step, s': State)
    requires Enabled(s, step)
  {
    && (forall t :: t in s.timers && t < s.nextId ==> TimerLawful(s, step, s', t))
    && (forall key :: key in s.regs ==> RegistrationLawful(s, s', key))
    && (!step.Take? ==> s'.queue == s.queue + Arriving(s, step))
    && (!step.RequestStop? ==> s'.autoStop == s.autoStop && s'.stopRequested == s.stopRequested)
  }

  lemma LoopLawful(s: State, step: Step)
    requires Enabled(s, step) && IsLoopStep(step)
    ensures Lawful(s, step, ApplyLoop(s, step))
  {
    hide NextTask, HeldFiber, WithoutTask;
  }

  lemma IdleLawful(s: State, step: Step)
    requires Enabled(s, step) && IsIdleStep(step)
    ensures Lawful(s, step, ApplyIdle(s, step))
  {
    hide Triggered;
  }

  lemma UserLawful(s: State, step: Step)
    requires Enabled(s, step) && IsUserStep(step)
    ensures Lawful(s, step, ApplyUser(s, step))
  {
    hide Triggered;
  }

  lemma ExternalLawful(s: State, step: Step)
    requires Enabled(s, step) && IsExternal(step)
    ensures Lawful(s, step, ApplyExternal(s, step))
  {
  }

  lemma TryLawful(s: State, step: Step)
    requires Enabled(s, step) && IsTryStep(step)
    ensures Lawful(s, step, ApplyIo(s, step))
  {
  }

  lemma AfterLawful(s: State, step: Step)
    requires Enabled(s, step) && IsAfterStep(step)
    ensures Lawful(s, step, ApplyIo(s, step))
  {
  }

  lemma WaitLawful(s: State, step: Step)
    requires Enabled(s, step) && IsWaitStep(step)
    ensures Lawful(s, step, ApplyIo(s, step))
  {
    hide Triggered;
  }

  lemma StepLawful(s: State, step: Step)
    requires Enabled(s, step)
    ensures Lawful(s, step, Apply(s, step))
  {
    hide Lawful, Enabled, ApplyLoop, ApplyIdle, ApplyUser, ApplyIo, ApplyExternal;
    if IsExternal(step) {
      ExternalLawful(s, step);
    } else if IsIdleStep(step) {
      IdleLawful(s, step);
    } else if IsUserStep(step) {
      UserLawful(s, step);
    } else if IsLoopStep(step) {
      LoopLawful(s, step);
    } else {
      IoKinds(s, step);
      if IsTryStep(step) {
        TryLawful(s, step);
      } else if IsAfterStep(step) {
        AfterLawful(s, step);
      } else {
        WaitLawful(s, step);
      }
    }
  }

  // ---------- What is in the workers' hands ----------

  function InHand(wk: Worker): multiset<Task> {
    if wk.pc.Holding? then multiset{wk.pc.t} else multiset{}
  }

  function InHands(ws: seq<Worker>): multiset<Task> {
    if ws == [] then multiset{} else InHands(ws[..|ws| - 1]) + InHand(ws[|ws| - 1])
  }

  /** The tasks that have been submitted and not been started. */
  function Outstanding(s: State): multiset<Task> {
    multiset(s.queue) + InHands(s.workers)
  }

  /** What a step starts. */
  function Starting(s: State, step: Step): multiset<Task>
    requires Enabled(s, step)
  {
    match step
    case SwapIn(_, f) => multiset{FiberTask(f)}
    case SkipDead(_, f) => multiset{FiberTask(f)}
    case StartCallback(w, _) => multiset{s.workers[w].pc.t}
    case _ => multiset{}
  }

  /** Only the worker that takes the step may change what it holds: it loses what it starts, and gains what it takes. */
  ghost predicate HandsLawful(s: State, step: Step, s': State)
    requires Enabled(s, step)
  {
    && |s'.workers| == |s.workers|
    && if IsExternal(step) then s'.workers == s.workers
       else
         && (forall v :: 0 <= v < |s.workers| && v != step.w ==> s'.workers[v] == s.workers[v])
         && (step.Take? ==>
               && InHand(s.workers[step.w]) == multiset{} && NextTask(s).Some?
               && InHand(s'.workers[step.w]) == multiset{s.queue[NextTask(s).value]}
               && s'.queue == WithoutTask(s.queue, NextTask(s).value))
         && (!step.Take? ==> InHand(s'.workers[step.w]) + Starting(s, step) == InHand(s.workers[step.w]))
  }

  lemma TakeHands(s: State, w: nat)
    requires Enabled(s, Take(w))
    ensures HandsLawful(s, Take(w), TakeOut(s, w, NextTask(s).value))
  {
    hide NextTask, HeldFiber, WithoutTask;
  }

  lemma StartHands(s: State, step: Step)
    requires Enabled(s, step) && (step.SwapIn? || step.SkipDead? || step.StartCallback?)
    ensures HandsLawful(s, step, ApplyLoop(s, step))
  {
    hide NextTask;
  }

  lemma TurnHands(s: State, step: Step)
    requires Enabled(s, step) && (step.GoIdle? || step.Leave?)
    ensures HandsLawful(s, step, ApplyLoop(s, step))
  {
    hide NextTask;
  }

  /** A worker with the same task in its hands before and after has neither taken nor started anything. */
  lemma SameHands(s: State, step: Step, s': State)
    requires Enabled(s, step) && !IsExternal(step) && !step.Take?
    requires !step.SwapIn? && !step.SkipDead? && !step.StartCallback? && |s'.workers| == |s.workers|
    requires forall v :: 0 <= v < |s.workers| && v != step.w ==> s'.workers[v] == s.workers[v]
    requires var pc, pc' := s.workers[step.w].pc, s'.workers[step.w].pc; pc == pc' || (!pc.Holding? && !pc'.Holding?)
    ensures HandsLawful(s, step, s')
  {
    hide Enabled, NextTask, WithoutTask;
  }

  lemma BackHands(s: State, step: Step)
    requires Enabled(s, step) && (step.LowerCount? || step.Mark?)
    ensures HandsLawful(s, step, ApplyLoop(s, step))
  {
    hide NextTask, TakeOut, HandsLawful;
    SameHands(s, step, ApplyLoop(s, step));
  }

  lemma LoopHands(s: State, step: Step)
    requires Enabled(s, step) && IsLoopStep(step)
    ensures HandsLawful(s, step, ApplyLoop(s, step))
  {
    hide HandsLawful, Enabled, TakeOut;
    if step.Take? {
      TakeHands(s, step.w);
    } else if step.GoIdle? || step.Leave? {
      TurnHands(s, step);
    } else if step.LowerCount? || step.Mark? {
      BackHands(s, step);
    } else {
      StartHands(s, step);
    }
  }

  lemma IdleHands(s: State, step: Step)
    requires Enabled(s, step) && IsIdleStep(step)
    ensures HandsLawful(s, step, ApplyIdle(s, step))
  {
    hide Triggered, HandsLawful;
    SameHands(s, step, ApplyIdle(s, step));
  }

  lemma UserHands(s: State, step: Step)
    requires Enabled(s, step) && IsUserStep(step)
    ensures HandsLawful(s, step, ApplyUser(s, step))
  {
    hide Triggered, HandsLawful;
    SameHands(s, step, ApplyUser(s, step));
  }

  lemma TryHands(s: State, step: Step)
    requires Enabled(s, step) && IsTryStep(step)
    ensures HandsLawful(s, step, ApplyIo(s, step))
  {
    hide HandsLawful;
    SameHands(s, step, ApplyIo(s, step));
  }

  lemma AfterHands(s: State, step: Step)
    requires Enabled(s, step) && IsAfterStep(step)
    ensures HandsLawful(s, step, ApplyIo(s, step))
  {
    hide HandsLawful;
    SameHands(s, step, ApplyIo(s, step));
  }

  lemma WaitHands(s: State, step: Step)
    requires Enabled(s, step) && IsWaitStep(step)
    ensures HandsLawful(s, step, ApplyIo(s, step))
  {
    hide Triggered, HandsLawful;
    SameHands(s, step, ApplyIo(s, step));
  }

  lemma ExternalHands(s: State, step: Step)
    requires Enabled(s, step) && IsExternal(step)
    ensures HandsLawful(s, step, ApplyExternal(s, step))
  {
  }

  lemma StepHands(s: State, step: Step)
    requires Enabled(s, step)
    ensures HandsLawful(s, step, Apply(s, step))
  {
    hide HandsLawful, Enabled, ApplyLoop, ApplyIdle, ApplyUser, ApplyIo, ApplyExternal;
    if IsExternal(step) {
      ExternalHands(s, step);
    } else if IsIdleStep(step) {
      IdleHands(s, step);
    } else if IsUserStep(step) {
      UserHands(s, step);
    } else if IsLoopStep(step) {
      LoopHands(s, step);
    } else {
      IoKinds(s, step);
      if IsTryStep(step) {
        TryHands(s, step);
      } else if IsAfterStep(step) {
        AfterHands(s, step);
      } else {
        WaitHands(s, step);
      }
    }
  }

  lemma Swapped(a: multiset<Task>, a': multiset<Task>, x: multiset<Task>, x': multiset<Task>, l: multiset<Task>)
    requires a' + x == a + x'
    ensures (a' + l) + x == (a + l) + x'
  {
    assert (a' + l) + x == (a' + x) + l;
  }

  lemma Cancelled(a: multiset<Task>, b: multiset<Task>, c: multiset<Task>)
    requires a + c == b + c
    ensures a == b
  {
    forall t ensures a[t] == b[t] {
      assert (a + c)[t] == (b + c)[t];
    }
  }

  lemma {:induction false} HandsChange(ws: seq<Worker>, ws': seq<Worker>, w: nat)
    requires |ws'| == |ws| && w < |ws| && forall v :: 0 <= v < |ws| && v != w ==> ws'[v] == ws[v]
    ensures InHands(ws') + InHand(ws[w]) == InHands(ws) + InHand(ws'[w])
    decreases |ws|
  {
    var last := |ws| - 1;
    hide InHand;
    if w < last {
      HandsChange(ws[..last], ws'[..last], w);
      Swapped(InHands(ws[..last]), InHands(ws'[..last]), InHand(ws[w]), InHand(ws'[w]), InHand(ws[last]));
    } else {
      assert ws'[..last] == ws[..last];
    }
  }

  lemma {:induction false} InOneHand(ws: seq<Worker>, w: nat)
    requires w < |ws|
    ensures InHand(ws[w]) <= InHands(ws)
    decreases |ws|
  {
    if w < |ws| - 1 {
      InOneHand(ws[..|ws| - 1], w);
      assert ws[..|ws| - 1][w] == ws[w];
    }
  }

  lemma WithoutOne(queue: seq<Task>, i: nat)
    requires i < |queue|
    ensures multiset(WithoutTask(queue, i)) + multiset{queue[i]} == multiset(queue)
  {
    assert queue == queue[..i] + [queue[i]] + queue[i + 1..];
  }

  // ---------- Conservation of tasks ----------

  /** A step starts what leaves the outstanding tasks, and what it puts into the queue joins them. */
  lemma StepConserves(s: State, step: Step)
    requires Enabled(s, step)
    ensures Outstanding(Apply(s, step)) + Starting(s, step) == Outstanding(s) + multiset(Arriving(s, step))
  {
    hide Enabled, Apply, Lawful, HandsLawful, InHands, InHand, NextTask, WithoutTask;
    var s' := Apply(s, step);
    if IsExternal(step) {
      OutsideAccount(s, step);
    } else if step.Take? {
      TakeAccount(s, step);
    } else {
      WorkerAccount(s, step);
    }
  }

  lemma OutsideAccount(s: State, step: Step)
    requires Enabled(s, step) && IsExternal(step)
    ensures Outstanding(Apply(s, step)) + Starting(s, step) == Outstanding(s) + multiset(Arriving(s, step))
  {
    StepLawful(s, step);
    StepHands(s, step);
    assert Starting(s, step) == multiset{};
    Rearrange(s, Apply(s, step), Arriving(s, step), multiset{}, multiset{}, multiset{});
  }

  lemma TakeAccount(s: State, step: Step)
    requires Enabled(s, step) && step.Take?
    ensures Outstanding(Apply(s, step)) + Starting(s, step) == Outstanding(s) + multiset(Arriving(s, step))
  {
    StepHands(s, step);
    assert Starting(s, step) == multiset{} && Arriving(s, step) == [] && step.w < |s.workers|;
    var s', i := Apply(s, step), NextTask(s).value;
    HandsChange(s.workers, s'.workers, step.w);
    WithoutOne(s.queue, i);
    hide *;
    assert multiset(Arriving(s, step)) == multiset{};
    Moved1(multiset(s.queue), multiset(s'.queue), InHands(s.workers), InHands(s'.workers), multiset{s.queue[i]});
    OutstandingIs(s);
    OutstandingIs(s');
  }

  lemma Moved1(q: multiset<Task>, q': multiset<Task>, h: multiset<Task>, h': multiset<Task>, x: multiset<Task>)
    requires q' + x == q && h' == h + x
    ensures q' + h' == q + h
  {
  }

  lemma OutstandingIs(s: State)
    ensures Outstanding(s) == multiset(s.queue) + InHands(s.workers)
  {
  }

  lemma WorkerAccount(s: State, step: Step)
    requires Enabled(s, step) && !step.Take? && !IsExternal(step)
    ensures Outstanding(Apply(s, step)) + Starting(s, step) == Outstanding(s) + multiset(Arriving(s, step))
  {
    StepLawful(s, step);
    StepHands(s, step);
    WorkerThere(s, step);
    var s', w := Apply(s, step), step.w;
    HandsChange(s.workers, s'.workers, w);
    Rearrange(s, s', Arriving(s, step), InHand(s.workers[w]), InHand(s'.workers[w]), Starting(s, step));
  }

  /** The queue grows by `more`; one hand changes from `before` to `after` by starting `started`. */
  lemma Rearrange(s: State, s': State, more: seq<Task>, before: multiset<Task>, after: multiset<Task>,
                  started: multiset<Task>)
    requires s'.queue == s.queue + more && after + started == before
    requires InHands(s'.workers) + before == InHands(s.workers) + after
    ensures Outstanding(s') + started == Outstanding(s) + multiset(more)
  {
    hide InHands;
    assert multiset(s'.queue) == multiset(s.queue) + multiset(more);
    var h, h' := InHands(s.workers), InHands(s'.workers);
    assert (h' + started) + after == h + after;
    Cancelled(h' + started, h, after);
  }

  lemma WorkerThere(s: State, step: Step)
    requires Enabled(s, step) && !IsExternal(step)
    ensures step.w < |s.workers|
  {
  }

  /** What the first `n` steps of a run put into the queue. */
  ghost function Entered(states: seq<State>, steps: seq<Step>, n: nat): multiset<Task>
    requires Run(states, steps) && n <= |steps|
  {
    if n == 0 then multiset{} else Entered(states, steps, n - 1) + multiset(Arriving(states[n - 1], steps[n - 1]))
  }

  /** What they started. */
  ghost function Started(states: seq<State>, steps: seq<Step>, n: nat): multiset<Task>
    requires Run(states, steps) && n <= |steps|
  {
    if n == 0 then multiset{} else Started(states, steps, n - 1) + Starting(states[n - 1], steps[n - 1])
  }

  lemma {:induction false} NothingInHands(ws: seq<Worker>)
    requires forall w :: 0 <= w < |ws| ==> !ws[w].pc.Holding?
    ensures InHands(ws) == multiset{}
    decreases |ws|
  {
    if ws != [] {
      NothingInHands(ws[..|ws| - 1]);
    }
  }

  /** Over every run, whatever entered the queue has been started or is still outstanding, each task as often. */
  lemma {:induction false} RunConserves(states: seq<State>, steps: seq<Step>, n: nat)
    requires Run(states, steps) && n <= |steps|
    ensures Outstanding(states[n]) + Started(states, steps, n) == Entered(states, steps, n)
    decreases n
  {
    if n == 0 {
      NothingInHands(states[0].workers);
    } else {
      hide Outstanding, Starting, Arriving, Apply, Enabled;
      RunConserves(states, steps, n - 1);
      assert states[n] == Apply(states[n - 1], steps[n - 1]);
      StepConserves(states[n - 1], steps[n - 1]);
      Carried(Outstanding(states[n - 1]), Outstanding(states[n]), Started(states, steps, n - 1),
              Starting(states[n - 1], steps[n - 1]), Entered(states, steps, n - 1),
              multiset(Arriving(states[n - 1], steps[n - 1])));
    }
  }

  lemma Carried(o: multiset<Task>, o': multiset<Task>, started: multiset<Task>, more: multiset<Task>,
                entered: multiset<Task>, arrived: multiset<Task>)
    requires o + started == entered && o' + more == o + arrived
    ensures o' + (started + more) == entered + arrived
  {
    assert (o' + more) + started == (o + started) + arrived;
  }

  /** When the manager may stop, everything that was submitted, fired or triggered has been started: each callback and
      each fiber as often as it entered the queue. */
  lemma StoppingMeansStarted(states: seq<State>, steps: seq<Step>)
    requires Run(states, steps) && Stopping(states[|steps|])
    ensures Started(states, steps, |steps|) == Entered(states, steps, |steps|)
  {
    var s := states[|steps|];
    StoppingMeansDone(s);
    RunConserves(states, steps, |steps|);
    forall w | 0 <= w < |s.workers| ensures !s.workers[w].pc.Holding? {
      assert !IsActive(s.workers[w]);
    }
    NothingInHands(s.workers);
    OutstandingIs(s);
    hide *;
    assert Outstanding(s) == multiset{};
  }

  /** So it has when a worker has left. */
  lemma LeavingMeansStarted(states: seq<State>, steps: seq<Step>, w: nat)
    requires Run(states, steps) && w < |states[|steps|].workers| && states[|steps|].workers[w].pc == Left
    ensures Started(states, steps, |steps|) == Entered(states, steps, |steps|)
  {
    hide Entered, Started;
    assert Reachable(states[|steps|]);
    LeavingMeansDone(states[|steps|], w);
    StoppingMeansStarted(states, steps);
  }

  // ---------- What the counts count ----------

  /** A timer that expires is queued with its own callback, and goes on exactly if it is recurring. */
  lemma ExpiryQueues(s: State, w: nat, t: nat, recurring: bool)
    requires Enabled(s, Expire(w, t, recurring))
    ensures Arriving(s, Expire(w, t, recurring)) == [s.timers[t]]
    ensures var s' := Apply(s, Expire(w, t, recurring));
      s'.queue == s.queue + [s.timers[t]] && s'.timers == if recurring then s.timers else s.timers - {t}
  {
  }

  /** An event that becomes ready or is cancelled queues whoever registered for it. */
  lemma TriggerQueues(s: State, step: Step, key: Key)
    requires Enabled(s, step) && key in s.regs
    requires || ((step.Ready? || step.Cancel?) && step.key == key)
             || (step.TimeoutCancel? && PosOn(s, step.w) == Expiring(key))
    ensures Arriving(s, step) == [s.regs[key]]
    ensures Apply(s, step).queue == s.queue + [s.regs[key]] && Apply(s, step).regs == s.regs - {key}
  {
  }

  /** What is submitted is queued. */
  lemma SubmissionQueues(s: State, step: Step)
    requires Enabled(s, step) && (step.Submit? || step.Spawn? || step.SubmitFiber? || step.SpawnFiber?)
    ensures Arriving(s, step) == if step.Submit? || step.Spawn? then [UserCb] else [FiberTask(step.f)]
    ensures Apply(s, step).queue == s.queue + if step.Submit? || step.Spawn? then [UserCb] else [FiberTask(step.f)]
  {
  }

  /** Worker `w` executes task `t`: a fiber where it was, a callback on a new fiber at its start. */
  predicate RunsTask(s: State, s': State, w: nat, t: Task) {
    && w < |s'.workers| && s'.workers[w].pc.Running? && s'.workers[w].pc.f in s'.fibers
    && var f := s'.workers[w].pc.f;
       match t
       case FiberTask(g) => f == g
       case UserCb => f !in s.fibers && s'.fibers[f].pos == User
       case TimeoutCb(info, key) => f !in s.fibers && s'.fibers[f].pos == TimedOut(info, key)
  }

  predicate IsStart(step: Step) {
    step.SwapIn? || step.SkipDead? || step.StartCallback?
  }

  /** What is started is what the worker had in its hands, and it executes then. */
  lemma StartRuns(s: State, step: Step)
    requires Good(s) && Enabled(s, step) && IsStart(step)
    ensures step.w < |s.workers| && s.workers[step.w].pc.Holding?
    ensures Starting(s, step) == multiset{s.workers[step.w].pc.t}
    ensures RunsTask(s, ApplyLoop(s, step), step.w, s.workers[step.w].pc.t)
  {
    if step.SkipDead? {
      HeldIsReady(s, step.w, step.f);
    }
    hide Good;
  }

  /** Nothing else is started. */
  lemma OnlyStarts(s: State, step: Step)
    requires Enabled(s, step) && !IsStart(step)
    ensures Starting(s, step) == multiset{}
  {
  }

  // ---------- What becomes of timers and registrations ----------

  /** A timer that was armed and is gone has expired into the queue, or was cancelled by user code or by its call. */
  ghost predicate TimerGone(s: State, step: Step, s': State, t: nat, cb: Task)
    requires Enabled(s, step)
  {
    && t in s.timers && s.timers[t] == cb && t !in s'.timers
    && (|| (step.Expire? && step.t == t && s'.queue == s.queue + [cb])
        || (step.CancelTimer? && step.t == t && cb == UserCb)
        || ((step.DropTimer? || step.AddFails?) && PosOn(s, step.w).timer == Some(t)))
  }

  lemma TimerOnce(states: seq<State>, steps: seq<Step>, i: nat, t: nat)
    requires Run(states, steps) && i < |steps| && t in states[i].timers
    ensures Enabled(states[i], steps[i])
    ensures if t in states[i + 1].timers then states[i + 1].timers[t] == states[i].timers[t]
            else TimerGone(states[i], steps[i], states[i + 1], t, states[i].timers[t])
  {
    var s, step := states[i], steps[i];
    assert Enabled(s, step) && states[i + 1] == Apply(s, step);
    RunInv(states, steps, i);
    TimerKnown(s, t);
    StepLawful(s, step);
    assert TimerLawful(s, step, states[i + 1], t);
    hide Apply, Enabled, Inv, Lawful, Run;
  }

  lemma TimerKnown(s: State, t: nat)
    requires Inv(s) && t in s.timers
    ensures t < s.nextId
  {
    hide QueueInv, TableInv, WorkerInv, FibersInv, InfoInv, CountInv, OverInv;
  }

  lemma {:induction false} TimerFate(states: seq<State>, steps: seq<Step>, i: nat, n: nat, t: nat) returns (k: nat)
    requires Run(states, steps) && i <= n <= |steps| && t in states[i].timers && t !in states[n].timers
    ensures i <= k < n && Enabled(states[k], steps[k])
    ensures TimerGone(states[k], steps[k], states[k + 1], t, states[i].timers[t])
    decreases n - i
  {
    hide Apply, Enabled, TimerGone;
    TimerOnce(states, steps, i, t);
    if t in states[i + 1].timers {
      k := TimerFate(states, steps, i + 1, n, t);
    } else {
      k := i;
    }
  }

  /** A registration that is gone has been triggered: whoever registered was queued. */
  ghost predicate RegistrationGone(s: State, s': State, key: Key, waiter: Task) {
    key in s.regs && s.regs[key] == waiter && key !in s'.regs && s'.queue == s.queue + [waiter]
  }

  lemma RegistrationOnce(states: seq<State>, steps: seq<Step>, i: nat, key: Key)
    requires Run(states, steps) && i < |steps| && key in states[i].regs
    ensures if key in states[i + 1].regs then states[i + 1].regs[key] == states[i].regs[key]
            else RegistrationGone(states[i], states[i + 1], key, states[i].regs[key])
  {
    var s, step := states[i], steps[i];
    assert Enabled(s, step) && states[i + 1] == Apply(s, step);
    StepLawful(s, step);
    assert RegistrationLawful(s, states[i + 1], key);
    hide Apply, Enabled, Lawful, Run;
  }

  lemma {:induction false} RegistrationFate(states: seq<State>, steps: seq<Step>, i: nat, n: nat, key: Key)
    returns (k: nat)
    requires Run(states, steps) && i <= n <= |steps| && key in states[i].regs && key !in states[n].regs
    ensures i <= k < n && RegistrationGone(states[k], states[k + 1], key, states[i].regs[key])
    decreases n - i
  {
    hide Apply, Enabled, RegistrationGone;
    RegistrationOnce(states, steps, i, key);
    if key in states[i + 1].regs {
      k := RegistrationFate(states, steps, i + 1, n, key);
    } else {
      k := i;
    }
  }

  /** A new timer holds a callback of user code, under a handle of its own. */
  lemma ArmsTimer(s: State, step: Step)
    requires Good(s) && Enabled(s, step) && (step.SubmitTimer? || step.AddTimer?)
    ensures s.nextId !in s.timers && Apply(s, step).timers == s.timers[s.nextId := UserCb]
  {
    hide PlaceInv, CountInv;
  }

  /** A new registration is of the callback of user code, or of the fiber that executes. */
  lemma Registers(s: State, step: Step)
    requires Enabled(s, step) && (step.AddCallback? || step.AddEvent?)
    ensures var key := if step.AddCallback? then step.key else PosOn(s, step.w).key;
      key !in s.regs && Apply(s, step).regs
        == s.regs[key := if step.AddCallback? then UserCb else FiberTask(s.workers[step.w].pc.f)]
  {
  }

  /** A call that was marked as timed out ends; any other tries again. */
  lemma MarkedCallEnds(s: State, w: nat)
    requires Enabled(s, AfterWake(w))
    ensures var p, p' := PosOn(s, w), Apply(s, AfterWake(w)).fibers[s.workers[w].pc.f].pos;
      p' == if s.infos[p.info].cancelled then User else Trying(p.key, p.info, p.timed)
  {
  }

  // ---------- When the manager may stop ----------

  lemma {:induction false} NoneCounted(ws: seq<Worker>)
    ensures Active(ws) == 0 <==> forall w :: 0 <= w < |ws| ==> !IsActive(ws[w])
    ensures Owing(ws) == 0 <==> forall w :: 0 <= w < |ws| ==> !ws[w].owes
    decreases |ws|
  {
    if ws != [] {
      var last := |ws| - 1;
      NoneCounted(ws[..last]);
      assert forall w :: 0 <= w < last ==> ws[..last][w] == ws[w];
    }
  }

  /** The counters tell the truth: the manager may stop exactly if it was asked to and nothing is queued, armed,
      registered, in a worker's hands or in execution. */
  lemma StoppingExactly(s: State)
    requires Reachable(s)
    ensures Stopping(s) <==>
      && s.autoStop && s.stopRequested && s.queue == [] && s.timers == map[] && s.regs == map[]
      && forall w :: 0 <= w < |s.workers| ==> !IsActive(s.workers[w]) && !s.workers[w].owes
  {
    ReachableInv(s);
    NoneCounted(s.workers);
    hide QueueInv, TableInv, WorkerInv, FibersInv, InfoInv, TimerInv, OverInv, IsActive;
    assert |s.regs| == 0 <==> s.regs == map[];
  }

  /** It never stops unasked. */
  lemma StopsOnlyIfAsked(states: seq<State>, steps: seq<Step>, n: nat)
    requires Run(states, steps) && n <= |steps| && Stopping(states[n])
    ensures RequestStop in steps[..n]
  {
    AskedBefore(states, steps, n);
  }

  lemma AskedOnce(states: seq<State>, steps: seq<Step>, i: nat)
    requires Run(states, steps) && i < |steps|
    ensures steps[i] == RequestStop || states[i + 1].autoStop == states[i].autoStop
  {
    var s, step := states[i], steps[i];
    assert Enabled(s, step) && states[i + 1] == Apply(s, step);
    StepLawful(s, step);
    hide Apply, Enabled, Run;
  }

  lemma {:induction false} AskedBefore(states: seq<State>, steps: seq<Step>, n: nat)
    requires Run(states, steps) && n <= |steps| && states[n].autoStop
    ensures RequestStop in steps[..n]
    decreases n
  {
    hide Apply, Enabled;
    if n > 0 {
      AskedOnce(states, steps, n - 1);
      assert steps[..n] == steps[..n - 1] + [steps[n - 1]];
      if steps[n - 1] != RequestStop {
        AskedBefore(states, steps, n - 1);
      }
    }
  }
}

/** What becomes of the timeout of a `do_io` call (src/hook.cpp): it is never forgotten while the call has not been
    marked as timed out, but it can run too early to wake the fiber. */
module ProtocolTimeouts {
  import opened Wrappers
  import opened Tasks
  import opened Protocol
  import opened ProtocolSteps

  /** A timeout callback that has fired and has not yet looked at its call: queued, in a worker's hands, or
      executing. */
  ghost predicate Pending(queue: seq<Task>, workers: seq<Worker>, fibers: map<nat, Fiber>, t: Task) {
    t.TimeoutCb?
    && (t in queue
        || (exists w :: 0 <= w < |workers| && workers[w].pc == Holding(t))
        || (exists g :: g in fibers && fibers[g].pos == TimedOut(t.info, t.key)))
  }

  ghost predicate PendingIn(s: State, t: Task) {
    Pending(s.queue, s.workers, s.fibers, t)
  }

  /** The call that callback `t` was made for waits for the event that `t` will cancel. */
  ghost predicate Fits(t: Task, infos: map<nat, Info>, fibers: map<nat, Fiber>)
    requires t.TimeoutCb?
  {
    t.info in infos ==>
      infos[t.info].owner in fibers && HasInfo(fibers[infos[t.info].owner].pos)
      && fibers[infos[t.info].owner].pos.key == t.key
  }

  /** The timeout of the wait that fiber `f` has begun is still to come, unless the call is marked as timed out. */
  ghost predicate Watched(s: State, f: nat)
    requires f in s.fibers && HasTimer(s.fibers[f].pos)
  {
    var p := s.fibers[f].pos;
    (p.info in s.infos && s.infos[p.info].cancelled) || p.timer.value in s.timers
    || PendingIn(s, TimeoutCb(p.info, p.key))
  }

  ghost predicate TimeoutInv(s: State) {
    && (forall t :: PendingIn(s, t) ==> t.info < s.nextId && Fits(t, s.infos, s.fibers))
    && (forall f :: f in s.fibers && HasTimer(s.fibers[f].pos) ==> Watched(s, f))
  }

  /** Nothing that matters to a timeout changes but where fired callbacks are. */
  ghost predicate Quiet(s: State, s': State) {
    && s'.infos == s.infos && s'.timers == s.timers && s'.nextId == s.nextId
    && (forall t :: PendingIn(s, t) <==> PendingIn(s', t))
    && (forall g :: g in s.fibers ==> g in s'.fibers && SameIo(s.fibers[g].pos, s'.fibers[g].pos))
    && (forall g :: g in s'.fibers && g !in s.fibers ==> !HasInfo(s'.fibers[g].pos))
  }

  lemma QuietKeeps(s: State, s': State)
    requires TimeoutInv(s) && Quiet(s, s')
    ensures TimeoutInv(s')
  {
    hide Pending;
    forall f | f in s'.fibers && HasTimer(s'.fibers[f].pos) ensures Watched(s', f) {
      assert Watched(s, f);
    }
  }

  // ---------- Where callbacks go ----------

  lemma QueuedOther(queue: seq<Task>, workers: seq<Worker>, fibers: map<nat, Fiber>, t0: Task, t: Task)
    requires !t0.TimeoutCb?
    ensures Pending(queue + [t0], workers, fibers, t) <==> Pending(queue, workers, fibers, t)
  {
  }

  /** A worker that holds no callback, before and after. */
  lemma OtherWorker(queue: seq<Task>, workers: seq<Worker>, fibers: map<nat, Fiber>, w: nat, wk: Worker, t: Task)
    requires w < |workers| && !(workers[w].pc.Holding? && workers[w].pc.t.TimeoutCb?)
    requires !(wk.pc.Holding? && wk.pc.t.TimeoutCb?)
    ensures Pending(queue, workers[w := wk], fibers, t) <==> Pending(queue, workers, fibers, t)
  {
    var after := workers[w := wk];
    assert forall v :: 0 <= v < |workers| && v != w ==> after[v] == workers[v];
    if exists v :: 0 <= v < |workers| && workers[v].pc == Holding(t) && t.TimeoutCb? {
      var v :| 0 <= v < |workers| && workers[v].pc == Holding(t) && t.TimeoutCb?;
      assert after[v].pc == Holding(t);
    }
  }

  /** A fiber that is not about to look at a call, before and after. */
  lemma OtherFiber(queue: seq<Task>, workers: seq<Worker>, fibers: map<nat, Fiber>, f: nat, fb: Fiber, t: Task)
    requires (f in fibers ==> !fibers[f].pos.TimedOut?) && !fb.pos.TimedOut?
    ensures Pending(queue, workers, fibers[f := fb], t) <==> Pending(queue, workers, fibers, t)
  {
    var after := fibers[f := fb];
    if t.TimeoutCb? && exists g :: g in fibers && fibers[g].pos == TimedOut(t.info, t.key) {
      var g :| g in fibers && fibers[g].pos == TimedOut(t.info, t.key);
      assert g in after && after[g].pos == TimedOut(t.info, t.key);
    }
  }

  /** The scan moves a callback from the queue into a worker's hands. */
  lemma TakenPending(queue: seq<Task>, workers: seq<Worker>, fibers: map<nat, Fiber>, i: nat, w: nat, wk: Worker,
                     t: Task)
    requires i < |queue| && w < |workers| && !workers[w].pc.Holding? && wk.pc == Holding(queue[i])
    ensures Pending(WithoutTask(queue, i), workers[w := wk], fibers, t) <==> Pending(queue, workers, fibers, t)
  {
    var queue', workers' := WithoutTask(queue, i), workers[w := wk];
    assert workers'[w].pc == Holding(queue[i]);
    if t in queue && t != queue[i] {
      var k :| 0 <= k < |queue| && queue[k] == t;
      assert queue'[if k < i then k else k - 1] == t;
    }
    if exists v :: 0 <= v < |workers| && workers[v].pc == Holding(t) {
      var v :| 0 <= v < |workers| && workers[v].pc == Holding(t);
      assert workers'[v].pc == Holding(t);
    }
  }

  /** A callback starts to execute on a fresh fiber. */
  lemma StartedPending(queue: seq<Task>, workers: seq<Worker>, fibers: map<nat, Fiber>, w: nat, wk: Worker, f: nat,
                       fb: Fiber, t: Task)
    requires w < |workers| && workers[w].pc.Holding? && !wk.pc.Holding? && f !in fibers
             && fb.pos == StartPos(workers[w].pc.t)
    ensures Pending(queue, workers[w := wk], fibers[f := fb], t) <==> Pending(queue, workers, fibers, t)
  {
    var workers', fibers' := workers[w := wk], fibers[f := fb];
    assert f in fibers' && fibers'[f] == fb;
    if t.TimeoutCb? && exists v :: 0 <= v < |workers| && workers[v].pc == Holding(t) {
      var v :| 0 <= v < |workers| && workers[v].pc == Holding(t);
      assert v != w ==> workers'[v].pc == Holding(t);
    }
    if t.TimeoutCb? && exists g :: g in fibers && fibers[g].pos == TimedOut(t.info, t.key) {
      var g :| g in fibers && fibers[g].pos == TimedOut(t.info, t.key);
      assert g in fibers' && fibers'[g].pos == TimedOut(t.info, t.key);
    }
  }

  lemma TriggeredPending(queue: seq<Task>, workers: seq<Worker>, fibers: map<nat, Fiber>, t0: Task, t: Task)
    requires t0.FiberTask? ==> t0.f in fibers && fibers[t0.f].pos.Parked?
    ensures Pending(queue, workers, Triggered(fibers, t0), t) <==> Pending(queue, workers, fibers, t)
  {
    if t0.FiberTask? {
      OtherFiber(queue, workers, fibers, t0.f, Triggered(fibers, t0)[t0.f], t);
    }
  }

  // ---------- Steps that are quiet ----------

  predicate SameTimes(s: State, s': State) {
    s'.infos == s.infos && s'.timers == s.timers && s'.nextId == s.nextId
  }

  predicate HoldsNoCallback(wk: Worker) {
    !(wk.pc.Holding? && wk.pc.t.TimeoutCb?)
  }

  lemma PcQuiet(s: State, s': State, w: nat, wk: Worker)
    requires s'.queue == s.queue && s'.fibers == s.fibers && SameTimes(s, s')
    requires w < |s.workers| && s'.workers == s.workers[w := wk] && HoldsNoCallback(s.workers[w]) && HoldsNoCallback(wk)
    ensures Quiet(s, s')
  {
    forall t ensures PendingIn(s, t) <==> PendingIn(s', t) {
      OtherWorker(s.queue, s.workers, s.fibers, w, wk, t);
    }
  }

  /** One worker and one fiber change, and the fiber stays in its call. */
  lemma HandedQuiet(s: State, s': State, w: nat, wk: Worker, f: nat, fb: Fiber)
    requires s'.queue == s.queue && s'.fibers == s.fibers[f := fb] && SameTimes(s, s')
    requires w < |s.workers| && s'.workers == s.workers[w := wk] && HoldsNoCallback(s.workers[w]) && HoldsNoCallback(wk)
    requires f in s.fibers && SameIo(s.fibers[f].pos, fb.pos) && !s.fibers[f].pos.TimedOut? && !fb.pos.TimedOut?
    ensures Quiet(s, s')
  {
    forall t ensures PendingIn(s, t) <==> PendingIn(s', t) {
      OtherWorker(s.queue, s.workers, s.fibers, w, wk, t);
      OtherFiber(s.queue, s'.workers, s.fibers, f, fb, t);
    }
  }

  /** A callback or a new fiber goes into the queue. */
  lemma SubmittedQuiet(s: State, s': State, t0: Task)
    requires s'.queue == s.queue + [t0] && !t0.TimeoutCb? && s'.workers == s.workers && SameTimes(s, s')
    requires t0.UserCb? ==> s'.fibers == s.fibers
    requires t0.FiberTask? ==> t0.f !in s.fibers && s'.fibers == s.fibers[t0.f := NewFiber(Queued)]
    ensures Quiet(s, s')
  {
    forall t ensures PendingIn(s, t) <==> PendingIn(s', t) {
      QueuedOther(s.queue, s.workers, s.fibers, t0, t);
      if t0.FiberTask? {
        OtherFiber(s'.queue, s.workers, s.fibers, t0.f, NewFiber(Queued), t);
      }
    }
  }

  lemma TriggerQuiet(s: State, w: nat, key: Key)
    requires PlaceInv(s) && MayGo(s, w) && key in s.regs && HoldsNoCallback(s.workers[w])
    ensures Quiet(s, Trigger(s, w, key))
  {
    var s', t0 := Trigger(s, w, key), s.regs[key];
    if t0.FiberTask? {
      assert FiberOk(s.fibers[t0.f], PcOf(s.workers, s.fibers[t0.f].on));
    }
    forall t ensures PendingIn(s, t) <==> PendingIn(s', t) {
      QueuedOther(s.queue, s.workers, s.fibers, t0, t);
      TriggeredPending(s'.queue, s.workers, s.fibers, t0, t);
      OtherWorker(s'.queue, s.workers, s'.fibers, w, s.workers[w].(owes := true), t);
    }
  }

  lemma TakeQuiet(s: State, w: nat, i: nat)
    requires w < |s.workers| && s.workers[w].pc == Looking && i < |s.queue|
    requires s.queue[i].FiberTask? && s.queue[i].f in s.fibers ==> !s.fibers[s.queue[i].f].pos.TimedOut?
    ensures Quiet(s, TakeOut(s, w, i))
  {
    var s', t0 := TakeOut(s, w, i), s.queue[i];
    forall t ensures PendingIn(s, t) <==> PendingIn(s', t) {
      TakenPending(s.queue, s.workers, s.fibers, i, w, s'.workers[w], t);
      if t0.FiberTask? && t0.f in s.fibers {
        OtherFiber(s'.queue, s'.workers, s.fibers, t0.f, s'.fibers[t0.f], t);
      }
    }
  }

  lemma StartQuiet(s: State, s': State, w: nat, f: nat)
    requires w < |s.workers| && s.workers[w].pc.Holding? && f !in s.fibers
    requires s' == Handed(s, w, Running(f), f, Fiber(EXEC, StartPos(s.workers[w].pc.t), Free, Some(w), 0, 0))
    ensures Quiet(s, s')
  {
    forall t ensures PendingIn(s, t) <==> PendingIn(s', t) {
      StartedPending(s.queue, s.workers, s.fibers, w, s'.workers[w], f, s'.fibers[f], t);
    }
  }

  // ---------- Steps that change timers and infos ----------

  lemma UserTimerKeeps(s: State)
    requires TimeoutInv(s)
    ensures TimeoutInv(TimerSubmitted(s))
  {
    hide Pending, Fits;
    var s' := TimerSubmitted(s);
    assert forall t :: PendingIn(s', t) <==> PendingIn(s, t);
    forall f | f in s'.fibers && HasTimer(s'.fibers[f].pos) ensures Watched(s', f) {
      assert Watched(s, f);
    }
  }

  lemma CancelTimerKeeps(s: State, t: nat)
    requires TimeoutInv(s) && IoInv(s) && t in s.timers && s.timers[t].UserCb?
    ensures TimeoutInv(s.(timers := s.timers - {t}))
  {
    hide Pending, Fits;
    var s' := s.(timers := s.timers - {t});
    assert forall u :: PendingIn(s', u) <==> PendingIn(s, u);
    forall f | f in s'.fibers && HasTimer(s'.fibers[f].pos) ensures Watched(s', f) {
      assert Watched(s, f);
    }
  }

  /** A timer fires: its callback is now in the queue. */
  lemma ExpireKeeps(s: State, t: nat, recurring: bool)
    requires TimeoutInv(s) && IoInv(s) && t in s.timers && (recurring ==> s.timers[t].UserCb?)
    ensures TimeoutInv(Expired(s, t, recurring))
  {
    var s', cb := Expired(s, t, recurring), s.timers[t];
    forall u | PendingIn(s', u) ensures u.info < s'.nextId && Fits(u, s'.infos, s'.fibers) {
      if u != cb {
        assert PendingIn(s, u);
      }
    }
    forall f | f in s'.fibers && HasTimer(s'.fibers[f].pos) ensures Watched(s', f) {
      assert Watched(s, f);
      var p := s.fibers[f].pos;
      assert cb in s'.queue;
      if PendingIn(s, TimeoutCb(p.info, p.key)) {
        assert PendingIn(s', TimeoutCb(p.info, p.key));
      }
    }
  }

  lemma MovedPending(s: State, f: nat, pos: Pos, infos: map<nat, Info>, timers: map<nat, Task>, nextId: nat, t: Task)
    requires f in s.fibers && !s.fibers[f].pos.TimedOut? && !pos.TimedOut?
    ensures PendingIn(Moved(s, f, pos, infos, timers, nextId), t) <==> PendingIn(s, t)
  {
    OtherFiber(s.queue, s.workers, s.fibers, f, s.fibers[f].(pos := pos), t);
  }

  lemma MovedQuiet(s: State, f: nat, pos: Pos)
    requires f in s.fibers && !s.fibers[f].pos.TimedOut? && !pos.TimedOut? && SameIo(s.fibers[f].pos, pos)
    ensures Quiet(s, Moved(s, f, pos, s.infos, s.timers, s.nextId))
  {
    forall t ensures PendingIn(s, t) <==> PendingIn(Moved(s, f, pos, s.infos, s.timers, s.nextId), t) {
      MovedPending(s, f, pos, s.infos, s.timers, s.nextId, t);
    }
  }

  lemma EventAddedQuiet(s: State, f: nat)
    requires f in s.fibers && s.fibers[f].pos.Armed?
    ensures Quiet(s, EventAdded(s, f, s.fibers[f]))
  {
    forall t ensures PendingIn(s, t) <==> PendingIn(EventAdded(s, f, s.fibers[f]), t) {
      OtherFiber(s.queue, s.workers, s.fibers, f, Registered(s.fibers[f]), t);
    }
  }

  lemma CallStartedKeeps(s: State, f: nat, key: Key, timed: bool)
    requires TimeoutInv(s) && IoInv(s) && f in s.fibers && s.fibers[f].pos == User
    ensures TimeoutInv(CallStarted(s, f, key, timed))
  {
    hide Pending;
    var s' := CallStarted(s, f, key, timed);
    forall t ensures PendingIn(s', t) <==> PendingIn(s, t) {
      MovedPending(s, f, Trying(key, s.nextId, timed), s'.infos, s'.timers, s'.nextId, t);
    }
    forall g | g in s'.fibers && HasTimer(s'.fibers[g].pos) ensures Watched(s', g) {
      assert Watched(s, g);
    }
  }

  lemma TimeoutSetKeeps(s: State, f: nat, p: Pos)
    requires TimeoutInv(s) && IoInv(s) && f in s.fibers && p == s.fibers[f].pos && p.Trying?
    ensures TimeoutInv(TimeoutSet(s, f, p))
  {
    hide Pending;
    var s' := TimeoutSet(s, f, p);
    forall t ensures PendingIn(s', t) <==> PendingIn(s, t) {
      MovedPending(s, f, s'.fibers[f].pos, s'.infos, s'.timers, s'.nextId, t);
    }
    forall g | g in s'.fibers && HasTimer(s'.fibers[g].pos) ensures Watched(s', g) {
      if g != f {
        assert Watched(s, g);
      }
    }
  }

  /** The timer of one call goes; no other call has the same. */
  lemma OthersTimer(s: State, f: nat, g: nat)
    requires IoInv(s) && f in s.fibers && g in s.fibers && f != g && HasTimer(s.fibers[f].pos)
             && HasTimer(s.fibers[g].pos)
    ensures s.fibers[g].pos.timer.value in s.timers ==> s.fibers[g].pos.timer != s.fibers[f].pos.timer
  {
  }

  lemma TimerDroppedKeeps(s: State, f: nat, p: Pos)
    requires TimeoutInv(s) && IoInv(s) && f in s.fibers && p == s.fibers[f].pos && p.Woken? && p.timer.Some?
    ensures TimeoutInv(Moved(s, f, Woken(p.key, p.info, p.timed, None), s.infos, Without(s.timers, p.timer), s.nextId))
  {
    hide Pending;
    var s' := Moved(s, f, Woken(p.key, p.info, p.timed, None), s.infos, Without(s.timers, p.timer), s.nextId);
    forall t ensures PendingIn(s', t) <==> PendingIn(s, t) {
      MovedPending(s, f, s'.fibers[f].pos, s'.infos, s'.timers, s'.nextId, t);
    }
    forall g | g in s'.fibers && HasTimer(s'.fibers[g].pos) ensures Watched(s', g) {
      assert Watched(s, g);
      OthersTimer(s, f, g);
    }
  }

  lemma CallOverKeeps(s: State, f: nat, timers: map<nat, Task>)
    requires TimeoutInv(s) && IoInv(s) && f in s.fibers && HasInfo(s.fibers[f].pos)
    requires timers == if MayHaveTimer(s.fibers[f].pos) then Without(s.timers, s.fibers[f].pos.timer) else s.timers
    ensures TimeoutInv(Moved(s, f, User, s.infos - {s.fibers[f].pos.info}, timers, s.nextId))
  {
    hide Pending;
    var s' := Moved(s, f, User, s.infos - {s.fibers[f].pos.info}, timers, s.nextId);
    forall t ensures PendingIn(s', t) <==> PendingIn(s, t) {
      MovedPending(s, f, User, s'.infos, s'.timers, s'.nextId, t);
    }
    forall g | g in s'.fibers && HasTimer(s'.fibers[g].pos) ensures Watched(s', g) {
      assert Watched(s, g);
      if HasTimer(s.fibers[f].pos) {
        OthersTimer(s, f, g);
      }
    }
  }

  /** The callback looks at its call: from then on the call is over or marked. */
  lemma TimeoutTestKeeps(s: State, f: nat, p: Pos, pos: Pos, infos: map<nat, Info>)
    requires TimeoutInv(s) && IoInv(s) && f in s.fibers && p == s.fibers[f].pos && p.TimedOut? && !pos.TimedOut?
             && !HasInfo(pos)
    requires p.info in s.infos ==> infos == s.infos[p.info := s.infos[p.info].(cancelled := true)]
    requires p.info !in s.infos ==> infos == s.infos
    ensures TimeoutInv(Moved(s, f, pos, infos, s.timers, s.nextId))
  {
    var s' := Moved(s, f, pos, infos, s.timers, s.nextId);
    forall t: Task | t.TimeoutCb? && (PendingIn(s', t) || (PendingIn(s, t) && t != TimeoutCb(p.info, p.key)))
      ensures PendingIn(s, t) && (t == TimeoutCb(p.info, p.key) || PendingIn(s', t))
    {
      LookedPending(s, s', f, p, t);
    }
    hide Pending;
    forall g | g in s'.fibers && HasTimer(s'.fibers[g].pos) ensures Watched(s', g) {
      assert Watched(s, g);
    }
  }

  lemma LookedPending(s: State, s': State, f: nat, p: Pos, t: Task)
    requires f in s.fibers && p == s.fibers[f].pos && p.TimedOut? && s'.queue == s.queue && s'.workers == s.workers
    requires f in s'.fibers && s'.fibers == s.fibers[f := s'.fibers[f]] && !s'.fibers[f].pos.TimedOut? && t.TimeoutCb?
    ensures PendingIn(s', t) ==> PendingIn(s, t)
    ensures PendingIn(s, t) && t != TimeoutCb(p.info, p.key) ==> PendingIn(s', t)
  {
    if t != TimeoutCb(p.info, p.key) && exists g :: g in s.fibers && s.fibers[g].pos == TimedOut(t.info, t.key) {
      var g :| g in s.fibers && s.fibers[g].pos == TimedOut(t.info, t.key);
      assert g in s'.fibers && s'.fibers[g].pos == TimedOut(t.info, t.key);
    }
  }

  // ---------- Every step ----------

  lemma TakeTimeouts(s: State, w: nat)
    requires Good(s) && TimeoutInv(s) && Enabled(s, Take(w))
    ensures TimeoutInv(TakeOut(s, w, NextTask(s).value))
  {
    var i := NextTask(s).value;
    FirstReadyBounds(s.queue, FiberStates(s), 0);
    if s.queue[i].FiberTask? {
      ReadyIsOff(s, i);
      assert FiberOk(s.fibers[s.queue[i].f], PcOf(s.workers, s.fibers[s.queue[i].f].on));
    }
    TakeQuiet(s, w, i);
    QuietKeeps(s, TakeOut(s, w, i));
  }

  lemma SwapInTimeouts(s: State, w: nat, f: nat)
    requires Good(s) && TimeoutInv(s) && Enabled(s, SwapIn(w, f))
    ensures TimeoutInv(ApplyLoop(s, SwapIn(w, f)))
  {
    hide TimeoutInv, QueueInv, TableInv, IoInv, CountInv, Quiet;
    var s' := ApplyLoop(s, SwapIn(w, f));
    HeldIsReady(s, w, f);
    HandedQuiet(s, s', w, s'.workers[w], f, s'.fibers[f]);
    QuietKeeps(s, s');
  }

  lemma StartTimeouts(s: State, w: nat, f: nat)
    requires Good(s) && TimeoutInv(s) && Enabled(s, StartCallback(w, f))
    ensures TimeoutInv(ApplyLoop(s, StartCallback(w, f)))
  {
    hide TimeoutInv, QueueInv, TableInv, IoInv, CountInv, Quiet;
    var s' := ApplyLoop(s, StartCallback(w, f));
    StartQuiet(s, s', w, f);
    QuietKeeps(s, s');
  }

  /** A fiber has swapped out, and its worker moves on. */
  lemma OffTimeouts(s: State, step: Step)
    requires Good(s) && TimeoutInv(s) && Enabled(s, step) && (step.LowerCount? || step.Mark?)
    ensures TimeoutInv(ApplyLoop(s, step))
  {
    hide TimeoutInv, QueueInv, TableInv, IoInv, CountInv, Quiet;
    var s' := ApplyLoop(s, step);
    OnWorker(s, step.w, step.f);
    assert s.fibers[step.f := s.fibers[step.f]] == s.fibers;
    HandedQuiet(s, s', step.w, s'.workers[step.w], step.f, s'.fibers[step.f]);
    QuietKeeps(s, s');
  }

  /** A worker never holds a dead fiber. */
  lemma NothingDead(s: State, w: nat, f: nat)
    requires Good(s)
    ensures !Enabled(s, SkipDead(w, f))
  {
    if Holds(s, w, f) {
      HeldIsReady(s, w, f);
    }
  }

  lemma LoopTimeouts(s: State, step: Step)
    requires Good(s) && TimeoutInv(s) && Enabled(s, step) && IsLoopStep(step)
    ensures TimeoutInv(ApplyLoop(s, step))
  {
    hide TimeoutInv, PlaceInv, IoInv, CountInv;
    if step.Take? {
      TakeTimeouts(s, step.w);
    } else if step.SwapIn? {
      SwapInTimeouts(s, step.w, step.f);
    } else if step.StartCallback? {
      StartTimeouts(s, step.w, step.f);
    } else if step.LowerCount? || step.Mark? {
      OffTimeouts(s, step);
    } else if step.SkipDead? {
      NothingDead(s, step.w, step.f);
    } else {
      PcTimeouts(s, ApplyLoop(s, step), step.w);
    }
  }

  /** A worker that is on no fiber looks around, or settles what it owes. */
  lemma PcTimeouts(s: State, s': State, w: nat)
    requires Good(s) && TimeoutInv(s) && s'.queue == s.queue && s'.fibers == s.fibers && SameTimes(s, s')
    requires w < |s.workers| == |s'.workers| && s'.workers == s.workers[w := s'.workers[w]]
    requires !s.workers[w].pc.Holding? && !s'.workers[w].pc.Holding?
    ensures TimeoutInv(s')
  {
    hide TimeoutInv, QueueInv, TableInv, IoInv, CountInv, Quiet;
    PcQuiet(s, s', w, s'.workers[w]);
    QuietKeeps(s, s');
  }

  lemma TriggerTimeouts(s: State, w: nat, key: Key)
    requires Good(s) && TimeoutInv(s) && MayGo(s, w) && key in s.regs && HoldsNoCallback(s.workers[w])
    ensures TimeoutInv(Trigger(s, w, key))
  {
    hide TimeoutInv, QueueInv, TableInv, IoInv, CountInv, Quiet;
    TriggerQuiet(s, w, key);
    QuietKeeps(s, Trigger(s, w, key));
  }

  lemma OwingHoldsNothing(s: State, w: nat)
    requires PlaceInv(s) && w < |s.workers| && s.workers[w].owes
    ensures !s.workers[w].pc.Holding?
  {
  }

  lemma IdleTimeouts(s: State, step: Step)
    requires Good(s) && TimeoutInv(s) && Enabled(s, step) && IsIdleStep(step)
    ensures TimeoutInv(ApplyIdle(s, step))
  {
    hide TimeoutInv, PlaceInv, IoInv, CountInv;
    if step.Expire? {
      ExpireKeeps(s, step.t, step.recurring);
    } else if step.Ready? {
      TriggerTimeouts(s, step.w, step.key);
    } else {
      if step.Settle? {
        OwingHoldsNothing(s, step.w);
      }
      PcTimeouts(s, ApplyIdle(s, step), step.w);
    }
  }

  lemma SubmittedTimeouts(s: State, f: nat)
    requires Good(s) && TimeoutInv(s)
    ensures TimeoutInv(CallbackSubmitted(s))
    ensures f !in s.fibers ==> TimeoutInv(FiberSubmitted(s, f))
  {
    SubmittedQuiet(s, CallbackSubmitted(s), UserCb);
    QuietKeeps(s, CallbackSubmitted(s));
    if f !in s.fibers {
      SubmittedQuiet(s, FiberSubmitted(s, f), FiberTask(f));
      QuietKeeps(s, FiberSubmitted(s, f));
    }
  }

  lemma FinishTimeouts(s: State, w: nat)
    requires Good(s) && TimeoutInv(s) && Enabled(s, Finish(w))
    ensures TimeoutInv(ApplyUser(s, Finish(w)))
  {
    hide TimeoutInv, QueueInv, TableInv, IoInv, CountInv, Quiet;
    var s', f := ApplyUser(s, Finish(w)), s.workers[w].pc.f;
    HandedQuiet(s, s', w, s'.workers[w], f, s'.fibers[f]);
    QuietKeeps(s, s');
  }

  lemma AddCallbackTimeouts(s: State, s': State)
    requires Good(s) && TimeoutInv(s) && s'.queue == s.queue && s'.workers == s.workers && s'.fibers == s.fibers
    requires SameTimes(s, s')
    ensures TimeoutInv(s')
  {
    assert Quiet(s, s');
    QuietKeeps(s, s');
  }

  lemma UserTimeouts(s: State, step: Step)
    requires Good(s) && TimeoutInv(s) && Enabled(s, step) && IsUserStep(step)
    ensures TimeoutInv(ApplyUser(s, step))
  {
    hide TimeoutInv, PlaceInv, IoInv, CountInv;
    match step
    case Finish(w) => FinishTimeouts(s, w);
    case Spawn(w) => SubmittedTimeouts(s, 0);
    case SpawnFiber(w, f) => SubmittedTimeouts(s, f);
    case AddTimer(w) => UserTimerKeeps(s);
    case CancelTimer(w, t) => CancelTimerKeeps(s, t);
    case AddCallback(w, key) => AddCallbackTimeouts(s, ApplyUser(s, step));
    case Cancel(w, key) => TriggerTimeouts(s, w, key);
  }

  lemma MovedTimeouts(s: State, w: nat, f: nat, pos: Pos)
    requires Good(s) && TimeoutInv(s) && Executes(s, w, f) && SameIo(PosOn(s, w), pos)
    requires !PosOn(s, w).TimedOut? && !pos.TimedOut?
    ensures TimeoutInv(Moved(s, f, pos, s.infos, s.timers, s.nextId))
  {
    hide TimeoutInv, QueueInv, TableInv, IoInv, CountInv, Quiet;
    MovedQuiet(s, f, pos);
    QuietKeeps(s, Moved(s, f, pos, s.infos, s.timers, s.nextId));
  }

  lemma CallTimeouts(s: State, step: Step)
    requires Good(s) && TimeoutInv(s) && Enabled(s, step)
    requires step.BeginIo? || step.IoDone? || step.IoAgain? || step.AddFails? || step.DropTimer?
    ensures TimeoutInv(ApplyIo(s, step))
  {
    hide TimeoutInv, PlaceInv, IoInv, CountInv;
    var f, p := s.workers[step.w].pc.f, PosOn(s, step.w);
    match step
    case BeginIo(_, key, timed) => CallStartedKeeps(s, f, key, timed);
    case IoDone(_) => CallOverKeeps(s, f, s.timers);
    case IoAgain(w) =>
      if p.timed { TimeoutSetKeeps(s, f, p); } else { MovedTimeouts(s, w, f, Armed(p.key, p.info, false, None)); }
    case AddFails(_) => CallOverKeeps(s, f, Without(s.timers, p.timer));
    case DropTimer(_) => TimerDroppedKeeps(s, f, p);
  }

  lemma TestTimeouts(s: State, w: nat)
    requires Good(s) && TimeoutInv(s) && Enabled(s, TimeoutTest(w))
    ensures TimeoutInv(ApplyIo(s, TimeoutTest(w)))
  {
    hide TimeoutInv, PlaceInv, IoInv, CountInv, Fits, Watched;
    var f, p := s.workers[w].pc.f, PosOn(s, w);
    if p.info !in s.infos {
      TimeoutTestKeeps(s, f, p, User, s.infos);
    } else {
      var infos := s.infos[p.info := s.infos[p.info].(cancelled := true)];
      if s.infos[p.info].cancelled {
        assert infos == s.infos;
        TimeoutTestKeeps(s, f, p, User, s.infos);
      } else {
        TimeoutTestKeeps(s, f, p, Expiring(p.key), infos);
      }
    }
  }

  lemma CancelTimeouts(s: State, w: nat)
    requires Good(s) && TimeoutInv(s) && Enabled(s, TimeoutCancel(w))
    ensures TimeoutInv(ApplyIo(s, TimeoutCancel(w)))
  {
    hide TimeoutInv, QueueInv, TableInv, IoInv, CountInv, Quiet;
    var f, key := s.workers[w].pc.f, PosOn(s, w).key;
    SameCallGood(s, w, f, User);
    MovedTimeouts(s, w, f, User);
    if key in s.regs {
      TriggerTimeouts(Moved(s, f, User, s.infos, s.timers, s.nextId), w, key);
    }
  }

  lemma WaitTimeouts(s: State, step: Step)
    requires Good(s) && TimeoutInv(s) && Enabled(s, step) && (step.AddEvent? || step.Yield? || step.AfterWake?)
    ensures TimeoutInv(ApplyIo(s, step))
  {
    hide TimeoutInv, QueueInv, TableInv, IoInv, CountInv, Quiet;
    var w := step.w;
    var f, p, s' := s.workers[w].pc.f, PosOn(s, w), ApplyIo(s, step);
    if step.AddEvent? {
      EventAddedQuiet(s, f);
      QuietKeeps(s, s');
    } else if step.Yield? {
      PcTimeouts(s, s', w);
    } else if s.infos[p.info].cancelled {
      CallOverKeeps(s, f, s.timers);
    } else {
      MovedTimeouts(s, w, f, Trying(p.key, p.info, p.timed));
    }
  }

  lemma ExternalTimeouts(s: State, step: Step)
    requires Good(s) && TimeoutInv(s) && Enabled(s, step) && IsExternal(step)
    ensures TimeoutInv(ApplyExternal(s, step))
  {
    hide TimeoutInv, PlaceInv, IoInv, CountInv;
    match step
    case Submit => SubmittedTimeouts(s, 0);
    case SubmitFiber(f) => SubmittedTimeouts(s, f);
    case SubmitTimer => UserTimerKeeps(s);
    case RequestStop => AddCallbackTimeouts(s, ApplyExternal(s, step));
  }

  lemma StepKeepsTimeouts(s: State, step: Step)
    requires Good(s) && TimeoutInv(s) && Enabled(s, step)
    ensures TimeoutInv(Apply(s, step))
  {
    hide TimeoutInv, PlaceInv, IoInv, CountInv;
    if IsExternal(step) {
      ExternalTimeouts(s, step);
    } else if IsIdleStep(step) {
      IdleTimeouts(s, step);
    } else if IsUserStep(step) {
      UserTimeouts(s, step);
    } else if IsLoopStep(step) {
      LoopTimeouts(s, step);
    } else if step.AddEvent? || step.Yield? || step.AfterWake? {
      WaitTimeouts(s, step);
    } else if step.TimeoutTest? {
      TestTimeouts(s, step.w);
    } else if step.TimeoutCancel? {
      CancelTimeouts(s, step.w);
    } else {
      CallTimeouts(s, step);
    }
  }

  lemma {:induction false} RunTimeouts(states: seq<State>, steps: seq<Step>, i: nat)
    requires Run(states, steps) && i < |states|
    ensures TimeoutInv(states[i])
    decreases i
  {
    if i == 0 {
      assert forall t :: !PendingIn(states[0], t);
    } else {
      RunInv(states, steps, i - 1);
      RunTimeouts(states, steps, i - 1);
      StepKeepsTimeouts(states[i - 1], steps[i - 1]);
    }
  }

  lemma ReachableTimeouts(s: State)
    requires Reachable(s)
    ensures TimeoutInv(s)
  {
    var states, steps :| Run(states, steps) && states[|steps|] == s;
    RunTimeouts(states, steps, |steps|);
  }

  // ---------- What a timeout is worth ----------

  /** The timeout of a wait is never forgotten: until the call is marked as timed out the timer is armed, or its
      callback is queued, in a worker's hands, or about to look at the call. */
  lemma TimeoutStillToCome(s: State, f: nat)
    requires Reachable(s) && f in s.fibers && HasTimer(s.fibers[f].pos)
    ensures var p := s.fibers[f].pos;
      p.info in s.infos
      && (s.infos[p.info].cancelled || p.timer.value in s.timers || PendingIn(s, TimeoutCb(p.info, p.key)))
  {
    ReachableInv(s);
    ReachableTimeouts(s);
    assert Watched(s, f);
  }

  /** A callback that is to cancel an event is that of a call that waits for this event, or of one that has returned. */
  lemma TimeoutFitsCall(s: State, t: Task)
    requires Reachable(s) && PendingIn(s, t)
    ensures t.info in s.infos ==>
              && s.infos[t.info].owner in s.fibers && HasInfo(s.fibers[s.infos[t.info].owner].pos)
              && s.fibers[s.infos[t.info].owner].pos.key == t.key
  {
    ReachableTimeouts(s);
  }

  ghost predicate Cancelling(s: State, key: Key) {
    exists g :: g in s.fibers && s.fibers[g].pos == Expiring(key)
  }

  /** Fiber `f` waits with a timeout that has been used up: its call is marked and nobody is about to cancel its
      event. */
  ghost predicate TimeoutLost(s: State, f: nat) {
    && f in s.fibers && s.fibers[f].pos.Parked? && s.fibers[f].place.InTable? && HasTimer(s.fibers[f].pos)
    && s.fibers[f].pos.info in s.infos && s.infos[s.fibers[f].pos.info].cancelled
    && !Cancelling(s, s.fibers[f].pos.key)
  }

  /** Fibers that a step of worker `w` does not execute keep their place in their code, except that one may be
      resumed. */
  ghost predicate Untouched(s: State, s': State, g: nat) {
    && g in s.fibers && g in s'.fibers
    && (s'.fibers[g].pos == s.fibers[g].pos || (s.fibers[g].pos.Parked? && s'.fibers[g].pos.Woken?))
  }

  lemma LoopUntouched(s: State, step: Step, g: nat)
    requires Enabled(s, step) && IsLoopStep(step) && g in s.fibers
    ensures Untouched(s, ApplyLoop(s, step), g) && ApplyLoop(s, step).infos == s.infos
  {
  }

  lemma IdleUntouched(s: State, step: Step, g: nat)
    requires Enabled(s, step) && IsIdleStep(step) && g in s.fibers
    ensures Untouched(s, ApplyIdle(s, step), g) && ApplyIdle(s, step).infos == s.infos
  {
  }

  lemma UserUntouched(s: State, step: Step, g: nat)
    requires Enabled(s, step) && IsUserStep(step) && g in s.fibers
    ensures Untouched(s, ApplyUser(s, step), g) && ApplyUser(s, step).infos == s.infos
  {
  }

  lemma ExternalUntouched(s: State, step: Step, g: nat)
    requires Enabled(s, step) && IsExternal(step) && g in s.fibers
    ensures Untouched(s, ApplyExternal(s, step), g) && ApplyExternal(s, step).infos == s.infos
  {
  }

  lemma CallUntouched(s: State, step: Step, g: nat)
    requires Enabled(s, step) && IsIoStep(step) && !step.TimeoutCancel? && !step.AddEvent? && !step.Yield?
    requires g in s.fibers && s.workers[step.w].pc != Running(g)
    ensures Untouched(s, ApplyIo(s, step), g)
  {
  }

  lemma IoUntouched(s: State, step: Step, g: nat)
    requires Enabled(s, step) && IsIoStep(step) && g in s.fibers && s.workers[step.w].pc != Running(g)
    ensures Untouched(s, ApplyIo(s, step), g)
  {
    if !step.TimeoutCancel? && !step.AddEvent? && !step.Yield? {
      hide Enabled, ApplyIo;
      CallUntouched(s, step, g);
    }
  }

  /** Waiting in the table, with a timeout that still counts. */
  ghost predicate TimeoutCounts(s: State, f: nat) {
    f in s.fibers && s.fibers[f].place.InTable? && HasTimer(s.fibers[f].pos) && !TimeoutLost(s, f)
  }

  /** Steps that are not part of `do_io`. */
  lemma OtherStepsKeepTimeout(s: State, step: Step, f: nat)
    requires Good(s) && Enabled(s, step) && TimeoutCounts(s, f) && !IsIoStep(step)
    ensures !TimeoutLost(Apply(s, step), f)
  {
    hide PlaceInv, CountInv, TimerInv, Apply;
    var s' := Apply(s, step);
    StepUntouched(s, step, f);
    if Cancelling(s, s.fibers[f].pos.key) {
      var g :| g in s.fibers && s.fibers[g].pos == Expiring(s.fibers[f].pos.key);
      StepUntouched(s, step, g);
      assert s'.fibers[g].pos == Expiring(s.fibers[f].pos.key);
    }
  }

  lemma StepUntouched(s: State, step: Step, g: nat)
    requires Enabled(s, step) && !IsIoStep(step) && g in s.fibers
    ensures Untouched(s, Apply(s, step), g) && Apply(s, step).infos == s.infos
  {
    if IsExternal(step) {
      ExternalUntouched(s, step, g);
    } else if IsIdleStep(step) {
      IdleUntouched(s, step, g);
    } else if IsUserStep(step) {
      UserUntouched(s, step, g);
    } else {
      LoopUntouched(s, step, g);
    }
  }

  /** A callback that cancels the event of a waiting fiber takes it out of the table. */
  lemma CancelWakes(s: State, w: nat, f: nat, r: nat, key: Key)
    requires Good(s) && TimeoutCounts(s, f) && key == s.fibers[f].pos.key
    requires Executes(s, w, r) && PosOn(s, w) == Expiring(key)
    ensures key in s.regs && f in Trigger(Moved(s, r, User, s.infos, s.timers, s.nextId), w, key).fibers
    ensures Trigger(Moved(s, r, User, s.infos, s.timers, s.nextId), w, key).fibers[f].place == Queued
  {
    hide IoInv, CountInv, QueueInv, WorkerInv;
    assert FiberOk(s.fibers[f], PcOf(s.workers, s.fibers[f].on));
    assert s.regs[key] == FiberTask(f);
  }

  lemma ExecutingIsPending(s: State, r: nat)
    requires r in s.fibers && s.fibers[r].pos.TimedOut?
    ensures PendingIn(s, TimeoutCb(s.fibers[r].pos.info, s.fibers[r].pos.key))
  {
  }

  /** A callback that marks the call of a waiting fiber is about to cancel its event. */
  lemma TestCancels(s: State, s': State, w: nat, f: nat, r: nat, p: Pos)
    requires Good(s) && TimeoutInv(s) && TimeoutCounts(s, f) && Executes(s, w, r) && p == PosOn(s, w) && p.TimedOut?
    requires if p.info !in s.infos || s.infos[p.info].cancelled then
               s' == Moved(s, r, User, s.infos, s.timers, s.nextId)
             else
               s' == Moved(s, r, Expiring(p.key), s.infos[p.info := s.infos[p.info].(cancelled := true)], s.timers,
                           s.nextId)
    ensures !TimeoutLost(s', f)
  {
    hide PlaceInv, CountInv, TimerInv, Pending;
    var key := s.fibers[f].pos.key;
    ExecutingIsPending(s, r);
    if p.info == s.fibers[f].pos.info && p.info in s.infos && !s.infos[p.info].cancelled {
      assert s'.fibers[r].pos == Expiring(key);
    } else if Cancelling(s, key) {
      var g :| g in s.fibers && s.fibers[g].pos == Expiring(key);
      assert s'.fibers[g].pos == Expiring(key);
    }
  }

  lemma IoKeepsInfos(s: State, step: Step, i: nat)
    requires Enabled(s, step) && IsIoStep(step) && !step.TimeoutTest? && i in s.infos && i < s.nextId
    ensures i in ApplyIo(s, step).infos ==> ApplyIo(s, step).infos[i] == s.infos[i]
  {
  }

  /** Who executes a step of `do_io` other than a callback's cancelling is not about to cancel. */
  lemma CancellerElsewhere(s: State, step: Step, g: nat)
    requires Enabled(s, step) && IsIoStep(step) && g in s.fibers && s.fibers[g].pos.Expiring?
    requires !(step.TimeoutCancel? && PosOn(s, step.w) == s.fibers[g].pos)
    ensures s.workers[step.w].pc != Running(g)
  {
  }

  /** A step by the waiting fiber itself can only be its yield. */
  lemma WaiterYields(s: State, step: Step, f: nat)
    requires Enabled(s, step) && IsIoStep(step) && f in s.fibers && s.fibers[f].pos.Parked?
    requires s.workers[step.w].pc == Running(f)
    ensures step.Yield? && ApplyIo(s, step).fibers == s.fibers && ApplyIo(s, step).infos == s.infos
  {
  }

  lemma IoRuns(s: State, step: Step)
    requires Enabled(s, step) && IsIoStep(step)
    ensures Runs(s, step.w)
  {
  }

  lemma InTableIsParked(s: State, f: nat)
    requires Good(s) && f in s.fibers && s.fibers[f].place.InTable?
    ensures s.fibers[f].pos.Parked?
  {
    hide QueueInv, TableInv, WorkerInv, IoInv, CountInv;
    assert FiberOk(s.fibers[f], PcOf(s.workers, s.fibers[f].on));
  }

  lemma IoStepsKeepTimeout(s: State, step: Step, f: nat)
    requires Good(s) && Enabled(s, step) && TimeoutCounts(s, f) && IsIoStep(step)
    requires !step.TimeoutTest? && !(step.TimeoutCancel? && PosOn(s, step.w).key == s.fibers[f].pos.key)
    ensures !TimeoutLost(ApplyIo(s, step), f)
  {
    hide PlaceInv, CountInv, TimerInv, Enabled, ApplyIo;
    InTableIsParked(s, f);
    IoRuns(s, step);
    var s', key := ApplyIo(s, step), s.fibers[f].pos.key;
    IoKeepsInfos(s, step, s.fibers[f].pos.info);
    if s.workers[step.w].pc == Running(f) {
      WaiterYields(s, step, f);
    } else {
      IoUntouched(s, step, f);
    }
    if Cancelling(s, key) {
      var g :| g in s.fibers && s.fibers[g].pos == Expiring(key);
      CancellerElsewhere(s, step, g);
      IoUntouched(s, step, g);
      assert s'.fibers[g].pos == Expiring(key);
    }
  }

  lemma DoIoKeepsTimeout(s: State, step: Step, f: nat)
    requires Good(s) && TimeoutInv(s) && Enabled(s, step) && TimeoutCounts(s, f) && IsIoStep(step)
    ensures !TimeoutLost(ApplyIo(s, step), f)
  {
    hide PlaceInv, IoInv, CountInv, TimeoutInv, TimeoutLost, TimeoutCounts;
    if step.TimeoutTest? {
      TestCancels(s, ApplyIo(s, step), step.w, f, s.workers[step.w].pc.f, PosOn(s, step.w));
    } else if step.TimeoutCancel? && PosOn(s, step.w).key == WaitsFor(s, f) {
      CancelWakes(s, step.w, f, s.workers[step.w].pc.f, PosOn(s, step.w).key);
      QueuedNotLost(ApplyIo(s, step), f);
    } else {
      IoStepsKeepTimeout(s, step, f);
    }
  }

  ghost function WaitsFor(s: State, f: nat): Key
    requires TimeoutCounts(s, f)
  {
    s.fibers[f].pos.key
  }

  lemma QueuedNotLost(s: State, f: nat)
    requires f in s.fibers && s.fibers[f].place == Queued
    ensures !TimeoutLost(s, f)
  {
  }

  /** Once its event has been added in time, no step loses a timeout: it stays on its way until the fiber is queued. */
  lemma TimeoutKeptInTable(s: State, step: Step, f: nat)
    requires Reachable(s) && Enabled(s, step) && TimeoutCounts(s, f)
    ensures !TimeoutLost(Apply(s, step), f)
  {
    hide QueueInv, TableInv, WorkerInv, FibersInv, InfoInv, TimerInv, CountInv, TimeoutInv, TimeoutLost, TimeoutCounts,
      Enabled, ApplyIo, ApplyExternal, ApplyIdle, ApplyUser, ApplyLoop, OverInv;
    ReachableInv(s);
    ReachableTimeouts(s);
    if IsIoStep(step) {
      DoIoKeepsTimeout(s, step, f);
    } else {
      OtherStepsKeepTimeout(s, step, f);
    }
  }

  // ---------- A run that loses a timeout ----------

  lemma RunOn(s: State, step: Step)
    requires Reachable(s) && Enabled(s, step)
    ensures Reachable(Apply(s, step))
  {
    hide Apply, Enabled;
    var states, steps :| Run(states, steps) && states[|steps|] == s;
    var states', steps' := states + [Apply(s, step)], steps + [step];
    forall i | 0 <= i < |steps'|
      ensures Enabled(states'[i], steps'[i]) && states'[i + 1] == Apply(states'[i], steps'[i])
    {
      assert i < |steps| ==> states'[i] == states[i] && states'[i + 1] == states[i + 1] && steps'[i] == steps[i];
    }
    assert Run(states', steps') && states'[|steps'|] == Apply(s, step);
  }

  function Standing(pc: Pc): Worker {
    Worker(pc, false, false)
  }

  /** Two workers, no event yet, and this much else. */
  function Moment(pc0: Pc, pc1: Pc, queue: seq<Task>, fibers: map<nat, Fiber>, active: nat, timers: map<nat, Task>,
                  infos: map<nat, Info>, nextId: nat): State {
    State([Standing(pc0), Standing(pc1)], queue, fibers, map[], 0, active, timers, infos, nextId, false, false)
  }

  lemma Start()
    ensures Reachable(Moment(Looking, Looking, [], map[], 0, map[], map[], 0))
  {
    var s0 := Moment(Looking, Looking, [], map[], 0, map[], map[], 0);
    var none: seq<Step> := [];
    assert Run([s0], none) && [s0][|none|] == s0;
  }

  /** One more step of a run, to a state given in full. */
  lemma Goes(s: State, step: Step, s': State)
    requires Reachable(s) && Enabled(s, step)
    requires Apply(s, step).workers == s'.workers && Apply(s, step).queue == s'.queue
    requires Apply(s, step).fibers == s'.fibers && Apply(s, step).regs == s'.regs
    requires Apply(s, step).pending == s'.pending && Apply(s, step).active == s'.active
    requires Apply(s, step).timers == s'.timers && Apply(s, step).infos == s'.infos
    requires Apply(s, step).nextId == s'.nextId
    requires Apply(s, step).autoStop == s'.autoStop && Apply(s, step).stopRequested == s'.stopRequested
    ensures Reachable(s')
  {
    RunOn(s, step);
    assert Apply(s, step) == s';
  }

  function Calling(pos: Pos): map<nat, Fiber> {
    map[0 := Fiber(EXEC, pos, Free, Some(0), 0, 0)]
  }

  /** A callback is queued and taken by worker 0. */
  lemma CallbackTaken()
    ensures Reachable(Moment(Holding(UserCb), Looking, [], map[], 1, map[], map[], 0))
  {
    hide Reachable;
    Start();
    var s0 := Moment(Looking, Looking, [], map[], 0, map[], map[], 0);
    var s1 := Moment(Looking, Looking, [UserCb], map[], 0, map[], map[], 0);
    Goes(s0, Submit, s1);
    Goes(s1, Take(0), Moment(Holding(UserCb), Looking, [], map[], 1, map[], map[], 0));
  }

  lemma CallbackStarts()
    ensures Reachable(Moment(Running(0), Looking, [], Calling(User), 1, map[], map[], 0))
  {
    hide Reachable;
    CallbackTaken();
    var s2 := Moment(Holding(UserCb), Looking, [], map[], 1, map[], map[], 0);
    Goes(s2, StartCallback(0, 0), Moment(Running(0), Looking, [], Calling(User), 1, map[], map[], 0));
  }

  /** It begins a timed call, is told to wait and sets the timer. */
  lemma CallWaits(key: Key)
    ensures Reachable(Moment(Running(0), Looking, [], Calling(Armed(key, 0, true, Some(1))), 1,
                             map[1 := TimeoutCb(0, key)], map[0 := Info(0, false)], 2))
  {
    hide Reachable;
    CallbackStarts();
    var s3 := Moment(Running(0), Looking, [], Calling(User), 1, map[], map[], 0);
    var s4 := Moment(Running(0), Looking, [], Calling(Trying(key, 0, true)), 1, map[], map[0 := Info(0, false)], 1);
    Goes(s3, BeginIo(0, key, true), s4);
    Goes(s4, IoAgain(0), Moment(Running(0), Looking, [], Calling(Armed(key, 0, true, Some(1))), 1,
                                map[1 := TimeoutCb(0, key)], map[0 := Info(0, false)], 2));
  }

  /** Before it adds its event, worker 1 gets past its stop test. */
  lemma IdleWaits(key: Key)
    ensures Reachable(Moment(Running(0), Waiting, [], Calling(Armed(key, 0, true, Some(1))), 1,
                             map[1 := TimeoutCb(0, key)], map[0 := Info(0, false)], 2))
  {
    hide Reachable;
    CallWaits(key);
    var fibers, timers, infos :=
        Calling(Armed(key, 0, true, Some(1))), map[1 := TimeoutCb(0, key)], map[0 := Info(0, false)];
    var s5 := Moment(Running(0), Looking, [], fibers, 1, timers, infos, 2);
    var s6 := Moment(Running(0), Idle, [], fibers, 1, timers, infos, 2);
    Goes(s5, GoIdle(1), s6);
    assert 1 in s6.timers;
    Goes(s6, TestStop(1), Moment(Running(0), Waiting, [], fibers, 1, timers, infos, 2));
  }

  /** The timer fires there. */
  lemma TimerFires(key: Key)
    ensures Reachable(Moment(Running(0), Waiting, [TimeoutCb(0, key)], Calling(Armed(key, 0, true, Some(1))), 1, map[],
                             map[0 := Info(0, false)], 2))
  {
    hide Reachable;
    IdleWaits(key);
    var fibers, timers, infos :=
        Calling(Armed(key, 0, true, Some(1))), map[1 := TimeoutCb(0, key)], map[0 := Info(0, false)];
    var s7 := Moment(Running(0), Waiting, [], fibers, 1, timers, infos, 2);
    Goes(s7, Expire(1, 1, false), Moment(Running(0), Waiting, [TimeoutCb(0, key)], fibers, 1, map[], infos, 2));
  }

  function Both(pos: Pos, other: Fiber): map<nat, Fiber> {
    map[0 := Fiber(EXEC, pos, Free, Some(0), 0, 0), 1 := other]
  }

  /** Worker 1 takes the callback. */
  lemma TimeoutTaken(key: Key)
    ensures Reachable(Moment(Running(0), Holding(TimeoutCb(0, key)), [], Calling(Armed(key, 0, true, Some(1))), 2,
                             map[], map[0 := Info(0, false)], 2))
  {
    hide Reachable;
    TimerFires(key);
    var cb, fibers, infos := TimeoutCb(0, key), Calling(Armed(key, 0, true, Some(1))), map[0 := Info(0, false)];
    var s8 := Moment(Running(0), Waiting, [cb], fibers, 1, map[], infos, 2);
    var s9 := Moment(Running(0), Looking, [cb], fibers, 1, map[], infos, 2);
    Goes(s8, IdleBack(1), s9);
    Goes(s9, Take(1), Moment(Running(0), Holding(cb), [], fibers, 2, map[], infos, 2));
  }

  lemma TimeoutStarts(key: Key)
    ensures Reachable(Moment(Running(0), Running(1), [],
                             Both(Armed(key, 0, true, Some(1)), Fiber(EXEC, TimedOut(0, key), Free, Some(1), 0, 0)), 2,
                                 map[], map[0 := Info(0, false)], 2))
  {
    hide Reachable;
    TimeoutTaken(key);
    var cb, fibers, infos := TimeoutCb(0, key), Calling(Armed(key, 0, true, Some(1))), map[0 := Info(0, false)];
    var s10 := Moment(Running(0), Holding(cb), [], fibers, 2, map[], infos, 2);
    Goes(s10, StartCallback(1, 1),
         Moment(Running(0), Running(1), [],
                Both(Armed(key, 0, true, Some(1)), Fiber(EXEC, TimedOut(0, key), Free, Some(1), 0, 0)), 2, map[],
                infos, 2));
  }

  /** The callback marks the call and finds no event to cancel. */
  lemma TimeoutFindsNothing(key: Key)
    ensures Reachable(Moment(Running(0), Running(1), [],
                             Both(Armed(key, 0, true, Some(1)), Fiber(EXEC, User, Free, Some(1), 0, 0)), 2, map[],
                             map[0 := Info(0, true)], 2))
  {
    hide Reachable;
    TimeoutStarts(key);
    var pos := Armed(key, 0, true, Some(1));
    var s11 :=
        Moment(Running(0), Running(1), [], Both(pos, Fiber(EXEC, TimedOut(0, key), Free, Some(1), 0, 0)), 2, map[],
               map[0 := Info(0, false)], 2);
    var s12 := Moment(Running(0), Running(1), [], Both(pos, Fiber(EXEC, Expiring(key), Free, Some(1), 0, 0)), 2, map[],
                      map[0 := Info(0, true)], 2);
    Goes(s11, TimeoutTest(1), s12);
    Goes(s12, TimeoutCancel(1),
         Moment(Running(0), Running(1), [], Both(pos, Fiber(EXEC, User, Free, Some(1), 0, 0)), 2, map[],
                map[0 := Info(0, true)], 2));
  }

  /** The callback is over. */
  lemma TimeoutEnds(key: Key)
    ensures Reachable(Moment(Running(0), Looking, [],
                             Both(Armed(key, 0, true, Some(1)), Fiber(TERM, User, Free, None, 0, 0)), 1, map[],
                             map[0 := Info(0, true)], 2))
  {
    hide Reachable;
    TimeoutFindsNothing(key);
    var pos, infos := Armed(key, 0, true, Some(1)), map[0 := Info(0, true)];
    var s13 :=
        Moment(Running(0), Running(1), [], Both(pos, Fiber(EXEC, User, Free, Some(1), 0, 0)), 2, map[], infos, 2);
    var s14 :=
        Moment(Running(0), Returned(1), [], Both(pos, Fiber(TERM, User, Free, Some(1), 0, 0)), 2, map[], infos, 2);
    Goes(s13, Finish(1), s14);
    Goes(s14, LowerCount(1, 1),
         Moment(Running(0), Looking, [], Both(pos, Fiber(TERM, User, Free, None, 0, 0)), 1, map[], infos, 2));
  }

  /** The fiber waits in the table; the call is marked already. */
  function LateWait(key: Key, pc: Pc, state: FiberState, on: Option<nat>, active: nat): State {
    State([Standing(pc), Standing(Looking)], [],
          map[0 := Fiber(state, Parked(key, 0, true, Some(1)), InTable(key), on, 1, 0),
              1 := Fiber(TERM, User, Free, None, 0, 0)],
          map[key := FiberTask(0)], 1, active, map[], map[0 := Info(0, true)], 2, false, false)
  }

  /** The fiber adds its event after all, and yields. */
  lemma EventAddedLate(key: Key)
    ensures Reachable(LateWait(key, Returned(0), EXEC, Some(0), 1))
  {
    hide Reachable;
    TimeoutEnds(key);
    var dead := Fiber(TERM, User, Free, None, 0, 0);
    var s15 :=
        Moment(Running(0), Looking, [], Both(Armed(key, 0, true, Some(1)), dead), 1, map[], map[0 := Info(0, true)], 2);
    Goes(s15, AddEvent(0), LateWait(key, Running(0), EXEC, Some(0), 1));
    Goes(LateWait(key, Running(0), EXEC, Some(0), 1), Yield(0), LateWait(key, Returned(0), EXEC, Some(0), 1));
  }

  /** Nothing is left queued, armed or executing that would wake it at its timeout. */
  lemma TimeoutCanBeLost(key: Key) returns (s: State)
    ensures Reachable(s) && TimeoutLost(s, 0) && s.fibers[0].state == INIT && s.regs == map[key := FiberTask(0)]
    ensures s.queue == [] && s.timers == map[] && s.active == 0 && s == LateWait(key, Looking, INIT, None, 0)
    ensures forall g :: g in s.fibers && g != 0 ==> s.fibers[g].state == TERM
  {
    hide Reachable;
    EventAddedLate(key);
    s := LateWait(key, Looking, INIT, None, 0);
    Goes(LateWait(key, Returned(0), EXEC, Some(0), 1), LowerCount(0, 0), LateWait(key, Marking(0), EXEC, Some(0), 0));
    Goes(LateWait(key, Marking(0), EXEC, Some(0), 0), Mark(0, 0), s);
  }
}

/** Every step of the worker protocol keeps its invariant. */
module ProtocolSteps {
  import opened Wrappers
  import opened Tasks
  import opened Protocol

  // ---------- What changes keep ----------

  ghost predicate StackInv(workers: seq<Worker>, fibers: map<nat, Fiber>) {
    WorkerInv(workers, fibers) && FibersInv(fibers, workers)
  }

  /** Who refers to which fiber. */
  ghost predicate PlaceInv(s: State) {
    QueueInv(s.queue, s.fibers) && TableInv(s.regs, s.fibers) && StackInv(s.workers, s.fibers)
  }

  ghost predicate IoParts(infos: map<nat, Info>, timers: map<nat, Task>, fibers: map<nat, Fiber>, nextId: nat) {
    InfoInv(infos, fibers, nextId) && TimerInv(timers, infos, fibers, nextId)
  }

  ghost predicate IoInv(s: State) {
    IoParts(s.infos, s.timers, s.fibers, s.nextId)
  }

  ghost predicate Good(s: State) {
    PlaceInv(s) && IoInv(s) && CountInv(s)
  }

  predicate SameIo(p: Pos, q: Pos) {
    && HasInfo(p) == HasInfo(q) && (HasInfo(p) ==> p.info == q.info && p.key == q.key)
    && HasTimer(p) == HasTimer(q) && (HasTimer(p) ==> p.timer == q.timer)
  }

  /** Fibers may change everything but their `do_io` call, and new ones are in none. */
  lemma IoKept(s: State, fibers: map<nat, Fiber>)
    requires IoInv(s)
    requires forall g :: g in s.fibers ==> g in fibers && SameIo(s.fibers[g].pos, fibers[g].pos)
    requires forall g :: g in fibers && g !in s.fibers ==> !HasInfo(fibers[g].pos)
    ensures IoParts(s.infos, s.timers, fibers, s.nextId)
  {
  }

  /** A worker that refers to no fiber, before and after. */
  lemma WorkerMoved(workers: seq<Worker>, fibers: map<nat, Fiber>, w: nat, wk: Worker)
    requires StackInv(workers, fibers) && w < |workers|
    requires OnFiber(workers[w].pc).None? && OnFiber(wk.pc).None?
    requires !(workers[w].pc.Holding? && workers[w].pc.t.FiberTask?) && !(wk.pc.Holding? && wk.pc.t.FiberTask?)
    requires (wk.owes ==> wk.pc == Waiting) && (wk.pc == Left ==> wk.idleOver)
    ensures StackInv(workers[w := wk], fibers)
  {
  }

  /** A worker that changes only what it owes. */
  lemma WorkerOwes(workers: seq<Worker>, fibers: map<nat, Fiber>, w: nat, owes: bool)
    requires StackInv(workers, fibers) && w < |workers|
    requires owes ==> workers[w].pc.Running? || workers[w].pc == Waiting
    ensures StackInv(workers[w := workers[w].(owes := owes)], fibers)
  {
  }

  lemma CallbackQueued(s: State, t: Task)
    requires PlaceInv(s) && !t.FiberTask?
    ensures PlaceInv(s.(queue := s.queue + [t]))
  {
    var queue := s.queue + [t];
    assert forall f :: FiberTask(f) in s.queue ==> FiberTask(f) in queue;
  }

  lemma FiberQueued(s: State, f: nat)
    requires PlaceInv(s) && f !in s.fibers
    ensures PlaceInv(s.(queue := s.queue + [FiberTask(f)], fibers := s.fibers[f := NewFiber(Queued)]))
  {
    NewFiberQueued(s.queue, s.fibers, f);
    StartTable(s.regs, s.fibers, f, NewFiber(Queued));
    NewFiberStack(s.workers, s.fibers, f);
  }

  lemma NewFiberQueued(queue: seq<Task>, fibers: map<nat, Fiber>, f: nat)
    requires QueueInv(queue, fibers) && f !in fibers
    ensures QueueInv(queue + [FiberTask(f)], fibers[f := NewFiber(Queued)])
  {
    var queue' := queue + [FiberTask(f)];
    assert queue'[|queue|] == FiberTask(f);
    assert forall g :: FiberTask(g) in queue ==> FiberTask(g) in queue';
  }

  lemma NewFiberStack(workers: seq<Worker>, fibers: map<nat, Fiber>, f: nat)
    requires StackInv(workers, fibers) && f !in fibers
    ensures StackInv(workers, fibers[f := NewFiber(Queued)])
  {
  }

  lemma StartTable(regs: map<Key, Task>, fibers: map<nat, Fiber>, f: nat, fb: Fiber)
    requires TableInv(regs, fibers) && f !in fibers && !fb.place.InTable?
    ensures TableInv(regs, fibers[f := fb])
  {
  }

  /** A running fiber moves on in its own code, without parking or resuming. */
  lemma PosMoved(s: State, w: nat, f: nat, pos: Pos)
    requires PlaceInv(s) && w < |s.workers| && s.workers[w].pc == Running(f)
    requires f in s.fibers && !s.fibers[f].pos.Parked? && !pos.Parked?
    ensures var fibers := s.fibers[f := s.fibers[f].(pos := pos)];
      QueueInv(s.queue, fibers) && TableInv(s.regs, fibers) && StackInv(s.workers, fibers)
  {
    assert OnFiber(s.workers[w].pc) == Some(f);
  }

  lemma TriggerQueue(queue: seq<Task>, regs: map<Key, Task>, fibers: map<nat, Fiber>, key: Key)
    requires QueueInv(queue, fibers) && TableInv(regs, fibers) && key in regs
    ensures QueueInv(queue + [regs[key]], Triggered(fibers, regs[key]))
    ensures TableInv(regs - {key}, Triggered(fibers, regs[key]))
  {
    var t, fibers' := regs[key], Triggered(fibers, regs[key]);
    var queue' := queue + [t];
    assert queue'[|queue|] == t;
    assert t.FiberTask? ==> t !in queue;
    forall f | f in fibers' && fibers'[f].place == Queued ensures FiberTask(f) in queue' {
      assert FiberTask(f) != t ==> FiberTask(f) in queue;
    }
  }

  lemma TriggerWorkers(workers: seq<Worker>, regs: map<Key, Task>, fibers: map<nat, Fiber>, key: Key)
    requires StackInv(workers, fibers) && TableInv(regs, fibers) && key in regs
    ensures StackInv(workers, Triggered(fibers, regs[key]))
  {
    var t := regs[key];
    if t.FiberTask? {
      assert FiberOk(fibers[t.f], PcOf(workers, fibers[t.f].on));
    }
  }

  /** `trigger` moves a waiting fiber from the table to the queue. */
  lemma TriggerKeeps(s: State, w: nat, key: Key)
    requires PlaceInv(s) && w < |s.workers| && key in s.regs
    requires s.workers[w].pc.Running? || s.workers[w].pc == Waiting
    ensures PlaceInv(Trigger(s, w, key))
  {
    var fibers := Triggered(s.fibers, s.regs[key]);
    TriggerQueue(s.queue, s.regs, s.fibers, key);
    TriggerWorkers(s.workers, s.regs, s.fibers, key);
    WorkerOwes(s.workers, fibers, w, true);
    assert Trigger(s, w, key).fibers == fibers;
  }

  /** A fiber in the queue that is not executing is on no worker. */
  lemma ReadyIsOff(s: State, i: nat)
    requires PlaceInv(s) && i < |s.queue| && s.queue[i].FiberTask? && !Skipped(s.queue[i], FiberStates(s))
    ensures s.queue[i].f in s.fibers
    ensures s.fibers[s.queue[i].f].on.None? && s.fibers[s.queue[i].f].state == INIT
  {
    var f := s.queue[i].f;
    assert FiberOk(s.fibers[f], PcOf(s.workers, s.fibers[f].on));
  }

  lemma TakeFromQueue(queue: seq<Task>, fibers: map<nat, Fiber>, i: nat, w: nat)
    requires QueueInv(queue, fibers) && i < |queue|
    ensures QueueInv(WithoutTask(queue, i), HeldFiber(fibers, queue[i], w))
  {
    var t, queue', fibers' := queue[i], WithoutTask(queue, i), HeldFiber(fibers, queue[i], w);
    assert forall j :: 0 <= j < |queue'| ==> queue'[j] == if j < i then queue[j] else queue[j + 1];
    forall f | f in fibers' && fibers'[f].place == Queued ensures FiberTask(f) in queue' {
      var k :| 0 <= k < |queue| && queue[k] == FiberTask(f);
      assert queue'[if k < i then k else k - 1] == FiberTask(f);
    }
  }

  lemma TakeTable(regs: map<Key, Task>, queue: seq<Task>, fibers: map<nat, Fiber>, t: Task, w: nat)
    requires TableInv(regs, fibers) && QueueInv(queue, fibers) && t in queue
    ensures TableInv(regs, HeldFiber(fibers, t, w))
  {
  }

  lemma TakeWorkers(workers: seq<Worker>, fibers: map<nat, Fiber>, t: Task, w: nat)
    requires StackInv(workers, fibers) && w < |workers| && workers[w].pc == Looking && !workers[w].owes
    requires t.FiberTask? ==> t.f in fibers && fibers[t.f].place == Queued && fibers[t.f].on.None?
    ensures StackInv(workers[w := workers[w].(pc := Holding(t))], HeldFiber(fibers, t, w))
  {
    var workers', fibers' := workers[w := workers[w].(pc := Holding(t))], HeldFiber(fibers, t, w);
    if t.FiberTask? {
      assert FiberOk(fibers[t.f], Looking);
    }
    assert WorkerInv(workers', fibers');
    forall f | f in fibers' ensures FiberOk(fibers'[f], PcOf(workers', fibers'[f].on)) {
      assert FiberOk(fibers[f], PcOf(workers, fibers[f].on));
    }
  }

  lemma TakeOutKeeps(s: State, w: nat, i: nat)
    requires PlaceInv(s) && i < |s.queue| && !Skipped(s.queue[i], FiberStates(s))
    requires w < |s.workers| && s.workers[w].pc == Looking && !s.workers[w].owes
    ensures PlaceInv(TakeOut(s, w, i))
  {
    if s.queue[i].FiberTask? {
      ReadyIsOff(s, i);
    }
    TakeFromQueue(s.queue, s.fibers, i, w);
    TakeTable(s.regs, s.queue, s.fibers, s.queue[i], w);
    TakeWorkers(s.workers, s.fibers, s.queue[i], w);
  }

  /** The scan takes a fiber that is not executing out of the queue. */
  lemma TakeKeeps(s: State, w: nat)
    requires PlaceInv(s) && IoInv(s) && MayGo(s, w) && s.workers[w].pc == Looking && NextTask(s).Some?
    ensures PlaceInv(TakeOut(s, w, NextTask(s).value)) && IoInv(TakeOut(s, w, NextTask(s).value))
  {
    FirstReadyBounds(s.queue, FiberStates(s), 0);
    TakeOutKeeps(s, w, NextTask(s).value);
    TakeIo(s, s.queue[NextTask(s).value], w);
  }

  lemma TakeIo(s: State, t: Task, w: nat)
    requires IoInv(s)
    ensures IoParts(s.infos, s.timers, HeldFiber(s.fibers, t, w), s.nextId)
  {
    IoKept(s, HeldFiber(s.fibers, t, w));
  }

  // ---------- Every step keeps the invariant ----------

  /** A fiber's stack and place change together with the worker that executes it. */
  ghost predicate Handover(workers: seq<Worker>, fibers: map<nat, Fiber>, w: nat, f: nat, pc: Pc, fb: Fiber) {
    && w < |workers| && !workers[w].owes && f in fibers
    && (workers[w].pc == Holding(FiberTask(f)) || OnFiber(workers[w].pc) == Some(f))
    && ((OnFiber(pc) == Some(f) && fb.on == Some(w)) || (pc == Looking && fb.on == None))
    && !fb.place.Held? && FiberOk(fb, pc)
    && fb.place == (if workers[w].pc.Holding? then Free else fibers[f].place)
  }

  lemma HandoverKeepsStack(workers: seq<Worker>, fibers: map<nat, Fiber>, w: nat, f: nat, pc: Pc, fb: Fiber)
    requires StackInv(workers, fibers) && Handover(workers, fibers, w, f, pc, fb)
    ensures StackInv(workers[w := workers[w].(pc := pc)], fibers[f := fb])
  {
    var workers', fibers' := workers[w := workers[w].(pc := pc)], fibers[f := fb];
    assert FiberOk(fibers[f], PcOf(workers, fibers[f].on));
    assert WorkerInv(workers', fibers');
    forall g | g in fibers' ensures FiberOk(fibers'[g], PcOf(workers', fibers'[g].on)) {
      assert g in fibers && FiberOk(fibers[g], PcOf(workers, fibers[g].on));
      assert g != f ==> fibers[g].on != Some(w);
    }
  }

  /** No queue or table entry notices a fiber that keeps its place, or leaves a worker's hands. */
  lemma HandoverKeepsPlaces(s: State, f: nat, fb: Fiber)
    requires QueueInv(s.queue, s.fibers) && TableInv(s.regs, s.fibers) && f in s.fibers
    requires fb.place == s.fibers[f].place || (s.fibers[f].place.Held? && fb.place == Free)
    ensures QueueInv(s.queue, s.fibers[f := fb]) && TableInv(s.regs, s.fibers[f := fb])
  {
  }

  /** A handover keeps the whole of who refers to whom. */
  lemma HandedKeeps(s: State, w: nat, f: nat, pc: Pc, fb: Fiber)
    requires PlaceInv(s) && Handover(s.workers, s.fibers, w, f, pc, fb)
    ensures PlaceInv(Handed(s, w, pc, f, fb))
  {
    HandoverKeepsStack(s.workers, s.fibers, w, f, pc, fb);
    if s.workers[w].pc.Holding? {
      assert s.fibers[f].place == Held(w);
    }
    HandoverKeepsPlaces(s, f, fb);
  }

  lemma HandedIo(s: State, w: nat, f: nat, pc: Pc, fb: Fiber)
    requires IoInv(s) && w < |s.workers| && f in s.fibers && SameIo(s.fibers[f].pos, fb.pos)
    ensures IoInv(Handed(s, w, pc, f, fb))
  {
    IoKept(s, s.fibers[f := fb]);
  }

  /** What is known of a fiber whose stack worker `w` is on. */
  lemma OnWorker(s: State, w: nat, f: nat)
    requires PlaceInv(s) && w < |s.workers| && OnFiber(s.workers[w].pc) == Some(f)
    ensures f in s.fibers && s.fibers[f].on == Some(w) && FiberOk(s.fibers[f], s.workers[w].pc)
  {
    assert FiberOk(s.fibers[f], PcOf(s.workers, s.fibers[f].on));
  }

  /** A fiber that a worker took is INIT: `swapIn`'s assertion holds and the branch for dead fibers is never taken. */
  lemma HeldIsReady(s: State, w: nat, f: nat)
    requires PlaceInv(s) && w < |s.workers| && s.workers[w].pc == Holding(FiberTask(f))
    ensures f in s.fibers && s.fibers[f].state == INIT && s.fibers[f].on == None && FiberOk(s.fibers[f], Looking)
    ensures s.fibers[f].place == Held(w)
  {
    assert s.workers[w].pc.t.f == f;
    assert FiberOk(s.fibers[f], PcOf(s.workers, s.fibers[f].on));
  }

  lemma SwapInKeeps(s: State, w: nat, f: nat, fb: Fiber)
    requires PlaceInv(s) && IoInv(s) && Holds(s, w, f)
    requires fb == s.fibers[f].(state := EXEC, pos := Resumed(s.fibers[f].pos), place := Free, on := Some(w))
    ensures PlaceInv(Handed(s, w, Running(f), f, fb)) && IoInv(Handed(s, w, Running(f), f, fb))
  {
    HeldIsReady(s, w, f);
    HandedKeeps(s, w, f, Running(f), fb);
    HandedIo(s, w, f, Running(f), fb);
  }

  lemma FinishKeeps(s: State, w: nat, f: nat, fb: Fiber)
    requires PlaceInv(s) && IoInv(s) && Runs(s, w) && PosOn(s, w) == User && f == s.workers[w].pc.f
    requires fb == s.fibers[f].(state := TERM)
    ensures PlaceInv(Handed(s, w, Returned(f), f, fb)) && IoInv(Handed(s, w, Returned(f), f, fb))
  {
    OnWorker(s, w, f);
    HandedKeeps(s, w, f, Returned(f), fb);
    HandedIo(s, w, f, Returned(f), fb);
  }

  /** The worker moves on and the fiber it is on stays as it is. */
  lemma MovedOnKeeps(s: State, w: nat, f: nat, pc: Pc)
    requires PlaceInv(s) && MayGo(s, w) && OnFiber(s.workers[w].pc) == Some(f) && OnFiber(pc) == Some(f)
    requires f in s.fibers ==> FiberOk(s.fibers[f], pc)
    ensures PlaceInv(SetPc(s, w, pc))
  {
    OnWorker(s, w, f);
    HandoverKeepsStack(s.workers, s.fibers, w, f, pc, s.fibers[f]);
    assert s.fibers[f := s.fibers[f]] == s.fibers;
  }

  lemma YieldKeeps(s: State, w: nat, f: nat)
    requires PlaceInv(s) && Runs(s, w) && PosOn(s, w).Parked? && f == s.workers[w].pc.f
    ensures PlaceInv(SetPc(s, w, Returned(f)))
  {
    OnWorker(s, w, f);
    MovedOnKeeps(s, w, f, Returned(f));
  }

  lemma LiveLeaves(s: State, w: nat, f: nat)
    requires PlaceInv(s) && MayGo(s, w) && s.workers[w].pc == Returned(f) && f in s.fibers && s.fibers[f].state != TERM
    ensures PlaceInv(SetPc(s, w, Marking(f)))
  {
    OnWorker(s, w, f);
    MovedOnKeeps(s, w, f, Marking(f));
  }

  lemma DeadLeaves(s: State, w: nat, f: nat, fb: Fiber)
    requires PlaceInv(s) && IoInv(s) && MayGo(s, w) && s.workers[w].pc == Returned(f) && f in s.fibers
    requires s.fibers[f].state == TERM && fb == s.fibers[f].(on := None)
    ensures PlaceInv(Handed(s, w, Looking, f, fb)) && IoInv(Handed(s, w, Looking, f, fb))
  {
    OnWorker(s, w, f);
    HandedKeeps(s, w, f, Looking, fb);
    HandedIo(s, w, f, Looking, fb);
  }

  lemma MarkKeeps(s: State, w: nat, f: nat, fb: Fiber)
    requires PlaceInv(s) && IoInv(s) && MayGo(s, w) && s.workers[w].pc == Marking(f) && f in s.fibers
    requires fb == s.fibers[f].(state := INIT, on := None)
    ensures PlaceInv(Handed(s, w, Looking, f, fb)) && IoInv(Handed(s, w, Looking, f, fb))
  {
    OnWorker(s, w, f);
    HandedKeeps(s, w, f, Looking, fb);
    HandedIo(s, w, f, Looking, fb);
  }

  lemma StartStack(workers: seq<Worker>, fibers: map<nat, Fiber>, w: nat, f: nat, fb: Fiber)
    requires StackInv(workers, fibers) && w < |workers| && f !in fibers
    requires fb.state == EXEC && !fb.pos.Parked? && fb.place == Free && fb.on == Some(w) && fb.waits == fb.wakes
    requires workers[w].pc.Holding? && !workers[w].pc.t.FiberTask? && !workers[w].owes
    ensures StackInv(workers[w := workers[w].(pc := Running(f))], fibers[f := fb])
  {
    var workers', fibers' := workers[w := workers[w].(pc := Running(f))], fibers[f := fb];
    assert OnFiber(workers'[w].pc) == Some(f);
    assert WorkerInv(workers', fibers');
    forall g | g in fibers' ensures FiberOk(fibers'[g], PcOf(workers', fibers'[g].on)) {
      assert g != f ==> FiberOk(fibers[g], PcOf(workers, fibers[g].on));
      assert g != f ==> fibers[g].on != Some(w);
    }
  }

  lemma StartPlaces(s: State, f: nat, fb: Fiber)
    requires QueueInv(s.queue, s.fibers) && TableInv(s.regs, s.fibers) && f !in s.fibers && fb.place == Free
    ensures QueueInv(s.queue, s.fibers[f := fb]) && TableInv(s.regs, s.fibers[f := fb])
  {
  }

  lemma StartIo(s: State, f: nat, fb: Fiber)
    requires IoInv(s) && f !in s.fibers && !HasInfo(fb.pos)
    ensures IoParts(s.infos, s.timers, s.fibers[f := fb], s.nextId)
  {
    IoKept(s, s.fibers[f := fb]);
  }

  lemma StartCallbackKeeps(s: State, w: nat, f: nat, fb: Fiber)
    requires PlaceInv(s) && IoInv(s) && f !in s.fibers
    requires MayGo(s, w) && s.workers[w].pc.Holding? && !s.workers[w].pc.t.FiberTask?
    requires fb == Fiber(EXEC, StartPos(s.workers[w].pc.t), Free, Some(w), 0, 0)
    ensures PlaceInv(Handed(s, w, Running(f), f, fb)) && IoInv(Handed(s, w, Running(f), f, fb))
  {
    StartStack(s.workers, s.fibers, w, f, fb);
    StartPlaces(s, f, fb);
    StartIo(s, f, fb);
  }

  lemma AddEventStack(workers: seq<Worker>, fibers: map<nat, Fiber>, w: nat, f: nat, fb: Fiber)
    requires StackInv(workers, fibers) && w < |workers| && workers[w].pc == Running(f) && f in fibers
    requires fb.state == fibers[f].state && fb.on == fibers[f].on && FiberOk(fb, Running(f)) && !fibers[f].place.Held?
    ensures StackInv(workers, fibers[f := fb])
  {
    assert OnFiber(workers[w].pc) == Some(f);
    assert FiberOk(fibers[f], PcOf(workers, fibers[f].on));
  }

  lemma AddEventTable(queue: seq<Task>, regs: map<Key, Task>, fibers: map<nat, Fiber>, f: nat, key: Key, fb: Fiber)
    requires QueueInv(queue, fibers) && TableInv(regs, fibers) && key !in regs && f in fibers
    requires fibers[f].place == Free && fb.place == InTable(key)
    ensures QueueInv(queue, fibers[f := fb]) && TableInv(regs[key := FiberTask(f)], fibers[f := fb])
  {
  }

  lemma AddEventKeeps(s: State, w: nat, f: nat)
    requires PlaceInv(s) && IoInv(s) && Runs(s, w) && f == s.workers[w].pc.f
    requires PosOn(s, w).Armed? && PosOn(s, w).key !in s.regs
    ensures PlaceInv(EventAdded(s, f, s.fibers[f])) && IoInv(EventAdded(s, f, s.fibers[f]))
  {
    OnWorker(s, w, f);
    AddEventStack(s.workers, s.fibers, w, f, Registered(s.fibers[f]));
    AddEventTable(s.queue, s.regs, s.fibers, f, s.fibers[f].pos.key, Registered(s.fibers[f]));
    IoKept(s, s.fibers[f := Registered(s.fibers[f])]);
  }

  // ---------- Infos and timers ----------

  lemma CallBegun(s: State, f: nat, key: Key, timed: bool)
    requires IoInv(s) && f in s.fibers && !HasInfo(s.fibers[f].pos)
    ensures IoParts(s.infos[s.nextId := Info(f, false)], s.timers,
                    s.fibers[f := s.fibers[f].(pos := Trying(key, s.nextId, timed))], s.nextId + 1)
  {
  }

  /** The call returns: its info goes, and so does its timer if it still has one. */
  lemma CallOver(s: State, f: nat, timers: map<nat, Task>)
    requires IoInv(s) && f in s.fibers && HasInfo(s.fibers[f].pos)
    requires timers == if MayHaveTimer(s.fibers[f].pos) then Without(s.timers, s.fibers[f].pos.timer) else s.timers
    ensures IoParts(s.infos - {s.fibers[f].pos.info}, timers, s.fibers[f := s.fibers[f].(pos := User)], s.nextId)
  {
  }

  lemma TimerArmed(s: State, f: nat, p: Pos)
    requires IoInv(s) && f in s.fibers && p == s.fibers[f].pos && p.Trying?
    ensures IoParts(s.infos, s.timers[s.nextId := TimeoutCb(p.info, p.key)],
                    s.fibers[f := s.fibers[f].(pos := Armed(p.key, p.info, true, Some(s.nextId)))], s.nextId + 1)
  {
  }

  lemma TimerDropped(s: State, f: nat)
    requires IoInv(s) && f in s.fibers && s.fibers[f].pos.Woken? && HasTimer(s.fibers[f].pos)
    ensures var p := s.fibers[f].pos;
      IoParts(s.infos, Without(s.timers, p.timer),
              s.fibers[f := s.fibers[f].(pos := Woken(p.key, p.info, p.timed, None))], s.nextId)
  {
  }

  /** The position changes but the call, if any, stays the same. */
  lemma SameCall(s: State, f: nat, pos: Pos)
    requires IoInv(s) && f in s.fibers && SameIo(s.fibers[f].pos, pos)
    ensures IoParts(s.infos, s.timers, s.fibers[f := s.fibers[f].(pos := pos)], s.nextId)
  {
    IoKept(s, s.fibers[f := s.fibers[f].(pos := pos)]);
  }

  lemma InfoCancelled(infos: map<nat, Info>, timers: map<nat, Task>, fibers: map<nat, Fiber>, nextId: nat, info: nat)
    requires IoParts(infos, timers, fibers, nextId) && info in infos
    ensures IoParts(infos[info := infos[info].(cancelled := true)], timers, fibers, nextId)
  {
  }

  lemma TriggerIo(s: State, t: Task)
    requires IoInv(s)
    ensures IoParts(s.infos, s.timers, Triggered(s.fibers, t), s.nextId)
  {
    IoKept(s, Triggered(s.fibers, t));
  }

  lemma UserTimers(s: State, t: nat)
    requires IoInv(s)
    ensures IoParts(s.infos, s.timers[s.nextId := UserCb], s.fibers, s.nextId + 1)
    ensures t in s.timers && !s.timers[t].TimeoutCb? ==> IoParts(s.infos, s.timers - {t}, s.fibers, s.nextId)
  {
  }

  /** A timeout that fires leaves the set of armed timers; its call keeps a handle that no longer names one. */
  lemma TimerFired(s: State, t: nat)
    requires IoInv(s) && t in s.timers
    ensures !s.timers[t].FiberTask?
    ensures IoParts(s.infos, s.timers - {t}, s.fibers, s.nextId)
  {
  }

  // ---------- Counters ----------

  lemma {:induction false} ActiveUpdate(ws: seq<Worker>, w: nat, x: Worker)
    requires w < |ws|
    ensures Active(ws[w := x]) + (if IsActive(ws[w]) then 1 else 0) == Active(ws) + (if IsActive(x) then 1 else 0)
    decreases |ws|
  {
    var last := |ws| - 1;
    assert ws[w := x][..last] == if w < last then ws[..last][w := x] else ws[..last];
    if w < last {
      ActiveUpdate(ws[..last], w, x);
    }
  }

  lemma {:induction false} OwingUpdate(ws: seq<Worker>, w: nat, x: Worker)
    requires w < |ws|
    ensures Owing(ws[w := x]) + (if ws[w].owes then 1 else 0) == Owing(ws) + (if x.owes then 1 else 0)
    decreases |ws|
  {
    var last := |ws| - 1;
    assert ws[w := x][..last] == if w < last then ws[..last][w := x] else ws[..last];
    if w < last {
      OwingUpdate(ws[..last], w, x);
    }
  }

  lemma {:induction false} CountedWorker(ws: seq<Worker>, w: nat)
    requires w < |ws|
    ensures IsActive(ws[w]) ==> Active(ws) > 0
    ensures ws[w].owes ==> Owing(ws) > 0
    decreases |ws|
  {
    if w < |ws| - 1 {
      CountedWorker(ws[..|ws| - 1], w);
    }
  }

  lemma CountAfter(s: State, w: nat, wk: Worker)
    requires CountInv(s) && w < |s.workers|
    ensures Active(s.workers[w := wk]) == s.active - (if IsActive(s.workers[w]) then 1 else 0)
            + (if IsActive(wk) then 1 else 0)
    ensures |s.regs| + Owing(s.workers[w := wk])
      == s.pending - (if s.workers[w].owes then 1 else 0) + (if wk.owes then 1 else 0)
  {
    ActiveUpdate(s.workers, w, wk);
    OwingUpdate(s.workers, w, wk);
  }

  lemma RegsSize(regs: map<Key, Task>, key: Key, t: Task)
    ensures key in regs ==> |regs - {key}| == |regs| - 1
    ensures key !in regs ==> |regs[key := t]| == |regs| + 1
  {
    if key in regs {
      var rest := regs - {key};
      assert regs == rest[key := regs[key]];
    }
  }

  lemma TriggerCounts(s: State, w: nat, key: Key)
    requires CountInv(s) && w < |s.workers| && key in s.regs && !s.workers[w].owes
    ensures CountInv(Trigger(s, w, key))
  {
    CountAfter(s, w, s.workers[w].(owes := true));
    RegsSize(s.regs, key, UserCb);
  }

  /** The counters after a step that changes one worker and no event bit. */
  lemma WorkerCounts(s: State, s': State, w: nat)
    requires CountInv(s) && w < |s.workers| && |s'.workers| == |s.workers|
    requires s'.workers == s.workers[w := s'.workers[w]] && s'.regs == s.regs
    requires s'.active == s.active - (if IsActive(s.workers[w]) then 1 else 0)
             + (if IsActive(s'.workers[w]) then 1 else 0)
    requires s'.pending == s.pending - (if s.workers[w].owes then 1 else 0) + (if s'.workers[w].owes then 1 else 0)
    ensures CountInv(s')
  {
    CountAfter(s, w, s'.workers[w]);
  }

  /** The two counters are lowered only by workers they count, so they never wrap. */
  lemma CountersNeverWrap(s: State, w: nat)
    requires CountInv(s) && w < |s.workers|
    ensures IsActive(s.workers[w]) ==> s.active > 0
    ensures s.workers[w].owes ==> s.pending > 0
  {
    CountedWorker(s.workers, w);
  }

  // ---------- Every step keeps the invariant ----------

  predicate SameIdleOver(s: State, s': State) {
    |s'.workers| == |s.workers| && forall w :: 0 <= w < |s.workers| ==> s'.workers[w].idleOver == s.workers[w].idleOver
  }

  /** What almost every step does: the parts of the invariant hold again, and no idle fiber ends. */
  ghost predicate Keeps(s: State, s': State) {
    Good(s') && SameIdleOver(s, s')
  }

  lemma TakeGood(s: State, w: nat)
    requires Good(s) && Enabled(s, Take(w))
    ensures Keeps(s, TakeOut(s, w, NextTask(s).value))
  {
    TakeKeeps(s, w);
    WorkerCounts(s, TakeOut(s, w, NextTask(s).value), w);
  }

  /** A worker that is on no fiber and stays on none. */
  lemma SetPcGood(s: State, w: nat, pc: Pc)
    requires Good(s) && MayGo(s, w)
    requires s.workers[w].pc == Looking || s.workers[w].pc == Idle || s.workers[w].pc == Waiting
    requires pc == Looking || pc == Idle || pc == Waiting || (pc == Left && s.workers[w].idleOver)
    ensures Keeps(s, SetPc(s, w, pc))
  {
    WorkerMoved(s.workers, s.fibers, w, s.workers[w].(pc := pc));
    WorkerCounts(s, SetPc(s, w, pc), w);
  }

  lemma SwapInGood(s: State, w: nat, f: nat, fb: Fiber)
    requires Good(s) && Holds(s, w, f)
    requires fb == s.fibers[f].(state := EXEC, pos := Resumed(s.fibers[f].pos), place := Free, on := Some(w))
    ensures Keeps(s, Handed(s, w, Running(f), f, fb))
  {
    SwapInKeeps(s, w, f, fb);
    WorkerCounts(s, Handed(s, w, Running(f), f, fb), w);
  }

  lemma StartCallbackGood(s: State, w: nat, f: nat, fb: Fiber)
    requires Good(s) && f !in s.fibers
    requires MayGo(s, w) && s.workers[w].pc.Holding? && !s.workers[w].pc.t.FiberTask?
    requires fb == Fiber(EXEC, StartPos(s.workers[w].pc.t), Free, Some(w), 0, 0)
    ensures Keeps(s, Handed(s, w, Running(f), f, fb))
  {
    StartCallbackKeeps(s, w, f, fb);
    WorkerCounts(s, Handed(s, w, Running(f), f, fb), w);
  }

  lemma DeadUncounted(s: State, w: nat, f: nat, fb: Fiber)
    requires Good(s) && MayGo(s, w) && s.workers[w].pc == Returned(f) && f in s.fibers && s.active > 0
    requires s.fibers[f].state == TERM && fb == s.fibers[f].(on := None)
    ensures Keeps(s, Uncounted(Handed(s, w, Looking, f, fb)))
  {
    DeadLeaves(s, w, f, fb);
    WorkerCounts(s, Uncounted(Handed(s, w, Looking, f, fb)), w);
  }

  lemma LiveUncounted(s: State, w: nat, f: nat)
    requires Good(s) && MayGo(s, w) && s.workers[w].pc == Returned(f) && f in s.fibers && s.active > 0
    requires s.fibers[f].state != TERM
    ensures Keeps(s, Uncounted(SetPc(s, w, Marking(f))))
  {
    LiveLeaves(s, w, f);
    WorkerCounts(s, Uncounted(SetPc(s, w, Marking(f))), w);
  }

  lemma LowerCountGood(s: State, w: nat, f: nat)
    requires Good(s) && Enabled(s, LowerCount(w, f))
    ensures Keeps(s, ApplyLoop(s, LowerCount(w, f)))
  {
    if s.fibers[f].state == TERM {
      DeadUncounted(s, w, f, s.fibers[f].(on := None));
    } else {
      LiveUncounted(s, w, f);
    }
  }

  lemma MarkGood(s: State, w: nat, f: nat, fb: Fiber)
    requires Good(s) && MayGo(s, w) && s.workers[w].pc == Marking(f) && f in s.fibers
    requires fb == s.fibers[f].(state := INIT, on := None)
    ensures Keeps(s, Handed(s, w, Looking, f, fb))
  {
    MarkKeeps(s, w, f, fb);
    WorkerCounts(s, Handed(s, w, Looking, f, fb), w);
  }

  lemma FinishGood(s: State, w: nat, f: nat, fb: Fiber)
    requires Good(s) && Runs(s, w) && PosOn(s, w) == User && f == s.workers[w].pc.f && fb == s.fibers[f].(state := TERM)
    ensures Keeps(s, Handed(s, w, Returned(f), f, fb))
  {
    FinishKeeps(s, w, f, fb);
    WorkerCounts(s, Handed(s, w, Returned(f), f, fb), w);
  }

  lemma YieldGood(s: State, w: nat, f: nat)
    requires Good(s) && Runs(s, w) && PosOn(s, w).Parked? && f == s.workers[w].pc.f
    ensures Keeps(s, SetPc(s, w, Returned(f)))
  {
    YieldKeeps(s, w, f);
    WorkerCounts(s, SetPc(s, w, Returned(f)), w);
  }

  lemma SettleGood(s: State, w: nat)
    requires Good(s) && w < |s.workers| && s.workers[w].owes && s.pending > 0
    ensures Keeps(s, Settled(s, w))
  {
    WorkerOwes(s.workers, s.fibers, w, false);
    WorkerCounts(s, Settled(s, w), w);
  }

  lemma TriggerGood(s: State, w: nat, key: Key)
    requires Good(s) && MayGo(s, w) && key in s.regs && (s.workers[w].pc.Running? || s.workers[w].pc == Waiting)
    ensures Keeps(s, Trigger(s, w, key))
  {
    TriggerKeeps(s, w, key);
    TriggerIo(s, s.regs[key]);
    TriggerCounts(s, w, key);
  }

  lemma ExpireGood(s: State, t: nat, recurring: bool)
    requires Good(s) && t in s.timers
    ensures Keeps(s, Expired(s, t, recurring))
  {
    TimerFired(s, t);
    CallbackQueued(s, s.timers[t]);
  }

  lemma SubmittedGood(s: State)
    requires Good(s)
    ensures Keeps(s, CallbackSubmitted(s))
    ensures Keeps(s, TimerSubmitted(s))
  {
    CallbackQueued(s, UserCb);
    UserTimers(s, 0);
  }

  lemma FiberSubmittedGood(s: State, f: nat)
    requires Good(s) && f !in s.fibers
    ensures Keeps(s, FiberSubmitted(s, f))
  {
    FiberQueued(s, f);
    StartIo(s, f, NewFiber(Queued));
  }

  lemma CancelTimerGood(s: State, t: nat)
    requires Good(s) && t in s.timers && s.timers[t].UserCb?
    ensures Keeps(s, s.(timers := s.timers - {t}))
  {
    UserTimers(s, t);
  }

  lemma AddCallbackTable(regs: map<Key, Task>, fibers: map<nat, Fiber>, key: Key)
    requires TableInv(regs, fibers) && key !in regs
    ensures TableInv(regs[key := UserCb], fibers)
  {
  }

  lemma AddCallbackGood(s: State, key: Key)
    requires Good(s) && key !in s.regs
    ensures Keeps(s, s.(regs := s.regs[key := UserCb], pending := s.pending + 1))
  {
    AddCallbackTable(s.regs, s.fibers, key);
    RegsSize(s.regs, key, UserCb);
  }

  lemma AddEventGood(s: State, w: nat, f: nat)
    requires Good(s) && Runs(s, w) && f == s.workers[w].pc.f
    requires PosOn(s, w).Armed? && PosOn(s, w).key !in s.regs
    ensures Keeps(s, EventAdded(s, f, s.fibers[f]))
  {
    AddEventKeeps(s, w, f);
    RegsSize(s.regs, s.fibers[f].pos.key, FiberTask(f));
  }

  /** A fiber that moves on inside or outside `do_io`, given that infos and timers come out right. */
  lemma MovedGood(s: State, w: nat, f: nat, pos: Pos, infos: map<nat, Info>, timers: map<nat, Task>, nextId: nat)
    requires Good(s) && Runs(s, w) && f == s.workers[w].pc.f && !PosOn(s, w).Parked? && !pos.Parked?
    requires IoParts(infos, timers, s.fibers[f := s.fibers[f].(pos := pos)], nextId)
    ensures Keeps(s, Moved(s, f, pos, infos, timers, nextId))
  {
    PosMoved(s, w, f, pos);
  }

  /** Fiber `f`, which worker `w` executes, is inside its own code. */
  predicate Executes(s: State, w: nat, f: nat) {
    Runs(s, w) && f == s.workers[w].pc.f
  }

  lemma IoTimedGood(s: State, w: nat, f: nat, p: Pos)
    requires Good(s) && Executes(s, w, f) && p == PosOn(s, w) && p.Trying?
    ensures Keeps(s, TimeoutSet(s, f, p))
  {
    var pos, timers := Armed(p.key, p.info, true, Some(s.nextId)), s.timers[s.nextId := TimeoutCb(p.info, p.key)];
    TimerArmed(s, f, p);
    MovedGood(s, w, f, pos, s.infos, timers, s.nextId + 1);
  }

  /** The fiber moves on within the same call. */
  lemma SameCallGood(s: State, w: nat, f: nat, pos: Pos)
    requires Good(s) && Executes(s, w, f) && !PosOn(s, w).Parked? && !pos.Parked? && SameIo(PosOn(s, w), pos)
    ensures Keeps(s, Moved(s, f, pos, s.infos, s.timers, s.nextId))
  {
    SameCall(s, f, pos);
    MovedGood(s, w, f, pos, s.infos, s.timers, s.nextId);
  }

  lemma CallBegunGood(s: State, w: nat, f: nat, key: Key, timed: bool)
    requires Good(s) && Executes(s, w, f) && PosOn(s, w) == User
    ensures Keeps(s, CallStarted(s, f, key, timed))
  {
    CallBegun(s, f, key, timed);
    MovedGood(s, w, f, Trying(key, s.nextId, timed), s.infos[s.nextId := Info(f, false)], s.timers, s.nextId + 1);
  }

  lemma CallOverGood(s: State, w: nat, f: nat, timers: map<nat, Task>)
    requires Good(s) && Executes(s, w, f) && HasInfo(PosOn(s, w)) && !PosOn(s, w).Parked?
    requires timers == if MayHaveTimer(PosOn(s, w)) then Without(s.timers, PosOn(s, w).timer) else s.timers
    ensures Keeps(s, Moved(s, f, User, s.infos - {PosOn(s, w).info}, timers, s.nextId))
  {
    CallOver(s, f, timers);
    MovedGood(s, w, f, User, s.infos - {PosOn(s, w).info}, timers, s.nextId);
  }

  lemma TimerDroppedGood(s: State, w: nat, f: nat, p: Pos)
    requires Good(s) && Executes(s, w, f) && p == PosOn(s, w) && p.Woken? && p.timer.Some?
    ensures Keeps(s, Moved(s, f, Woken(p.key, p.info, p.timed, None), s.infos, Without(s.timers, p.timer), s.nextId))
  {
    TimerDropped(s, f);
    MovedGood(s, w, f, Woken(p.key, p.info, p.timed, None), s.infos, Without(s.timers, p.timer), s.nextId);
  }

  lemma InfoCancelledGood(s: State, w: nat, f: nat, p: Pos)
    requires Good(s) && Executes(s, w, f) && p == PosOn(s, w) && p.TimedOut? && p.info in s.infos
    ensures Keeps(s, Moved(s, f, Expiring(p.key), s.infos[p.info := s.infos[p.info].(cancelled := true)], s.timers,
                           s.nextId))
  {
    SameCall(s, f, Expiring(p.key));
    InfoCancelled(s.infos, s.timers, s.fibers[f := s.fibers[f].(pos := Expiring(p.key))], s.nextId, p.info);
    MovedGood(s, w, f, Expiring(p.key), s.infos[p.info := s.infos[p.info].(cancelled := true)], s.timers, s.nextId);
  }

  lemma TimeoutCancelGood(s: State, w: nat, f: nat, key: Key)
    requires Good(s) && Executes(s, w, f) && PosOn(s, w) == Expiring(key)
    ensures var s' := Moved(s, f, User, s.infos, s.timers, s.nextId);
      Keeps(s, if key in s.regs then Trigger(s', w, key) else s')
  {
    SameCallGood(s, w, f, User);
    if key in s.regs {
      TriggerGood(Moved(s, f, User, s.infos, s.timers, s.nextId), w, key);
    }
  }

  lemma LoopKeeps(s: State, step: Step)
    requires Good(s) && Enabled(s, step) && IsLoopStep(step)
    ensures !step.SkipDead? && Keeps(s, ApplyLoop(s, step))
  {
    match step
    case Take(w) => TakeGood(s, w);
    case GoIdle(w) => SetPcGood(s, w, Idle);
    case Leave(w) => SetPcGood(s, w, Left);
    case SwapIn(w, f) => SwapInGood(s, w, f, ApplyLoop(s, step).fibers[f]);
    case SkipDead(w, f) => HeldIsReady(s, w, f);
    case StartCallback(w, f) => StartCallbackGood(s, w, f, ApplyLoop(s, step).fibers[f]);
    case LowerCount(w, f) => LowerCountGood(s, w, f);
    case Mark(w, f) => MarkGood(s, w, f, ApplyLoop(s, step).fibers[f]);
  }

  lemma IdleKeeps(s: State, step: Step)
    requires Good(s) && Enabled(s, step) && IsIdleStep(step) && !(step.TestStop? && Stopping(s))
    ensures Keeps(s, ApplyIdle(s, step))
  {
    match step
    case TestStop(w) => SetPcGood(s, w, Waiting);
    case Expire(w, t, recurring) => ExpireGood(s, t, recurring);
    case Ready(w, key) => TriggerGood(s, w, key);
    case IdleBack(w) => SetPcGood(s, w, Looking);
    case Settle(w) => SettleGood(s, w);
  }

  lemma IdleEndedGood(s: State, w: nat)
    requires Good(s) && MayGo(s, w) && s.workers[w].pc == Idle
    ensures Good(IdleEnded(s, w))
  {
    WorkerMoved(s.workers, s.fibers, w, s.workers[w].(pc := Looking, idleOver := true));
    WorkerCounts(s, IdleEnded(s, w), w);
  }

  lemma SpawnKeeps(s: State, step: Step)
    requires Good(s) && Enabled(s, step) && (step.Spawn? || step.SpawnFiber? || step.AddTimer? || step.CancelTimer?)
    ensures Keeps(s, ApplyUser(s, step))
  {
    match step
    case SpawnFiber(w, f) => FiberSubmittedGood(s, f);
    case CancelTimer(w, t) => CancelTimerGood(s, t);
    case _ => SubmittedGood(s);
  }

  lemma EndKeeps(s: State, w: nat)
    requires Good(s) && Enabled(s, Finish(w))
    ensures Keeps(s, ApplyUser(s, Finish(w)))
  {
    var f := s.workers[w].pc.f;
    FinishGood(s, w, f, s.fibers[f].(state := TERM));
  }

  lemma UserKeeps(s: State, step: Step)
    requires Good(s) && Enabled(s, step) && IsUserStep(step)
    ensures Keeps(s, ApplyUser(s, step))
  {
    if step.Finish? {
      EndKeeps(s, step.w);
    } else if step.AddCallback? {
      AddCallbackGood(s, step.key);
    } else if step.Cancel? {
      TriggerGood(s, step.w, step.key);
    } else {
      SpawnKeeps(s, step);
    }
  }

  lemma BeginKeeps(s: State, w: nat, key: Key, timed: bool)
    requires Good(s) && Enabled(s, BeginIo(w, key, timed))
    ensures Keeps(s, ApplyIo(s, BeginIo(w, key, timed)))
  {
    CallBegunGood(s, w, s.workers[w].pc.f, key, timed);
  }

  lemma AgainKeeps(s: State, w: nat)
    requires Good(s) && Enabled(s, IoAgain(w))
    ensures Keeps(s, ApplyIo(s, IoAgain(w)))
  {
    var p := PosOn(s, w);
    if p.timed {
      IoTimedGood(s, w, s.workers[w].pc.f, p);
    } else {
      SameCallGood(s, w, s.workers[w].pc.f, Armed(p.key, p.info, false, None));
    }
  }

  lemma CallEndKeeps(s: State, step: Step)
    requires Good(s) && Enabled(s, step) && (step.IoDone? || step.AddFails? || step.DropTimer?)
    ensures Keeps(s, ApplyIo(s, step))
  {
    var w := step.w;
    var f, p := s.workers[w].pc.f, PosOn(s, w);
    if step.IoDone? {
      CallOverGood(s, w, f, s.timers);
    } else if step.AddFails? {
      CallOverGood(s, w, f, Without(s.timers, p.timer));
    } else {
      TimerDroppedGood(s, w, f, p);
    }
  }

  lemma WaitKeeps(s: State, step: Step)
    requires Good(s) && Enabled(s, step) && (step.AddEvent? || step.Yield? || step.AfterWake?)
    ensures Keeps(s, ApplyIo(s, step))
  {
    var w := step.w;
    var f, p := s.workers[w].pc.f, PosOn(s, w);
    if step.AddEvent? {
      AddEventGood(s, w, f);
    } else if step.Yield? {
      YieldGood(s, w, f);
    } else if s.infos[p.info].cancelled {
      CallOverGood(s, w, f, s.timers);
    } else {
      SameCallGood(s, w, f, Trying(p.key, p.info, p.timed));
    }
  }

  lemma TimeoutKeeps(s: State, step: Step)
    requires Good(s) && Enabled(s, step) && (step.TimeoutTest? || step.TimeoutCancel?)
    ensures Keeps(s, ApplyIo(s, step))
  {
    var w := step.w;
    var f, p := s.workers[w].pc.f, PosOn(s, w);
    if step.TimeoutCancel? {
      TimeoutCancelGood(s, w, f, p.key);
    } else if p.info !in s.infos || s.infos[p.info].cancelled {
      SameCallGood(s, w, f, User);
    } else {
      InfoCancelledGood(s, w, f, p);
    }
  }

  lemma IoKeeps(s: State, step: Step)
    requires Good(s) && Enabled(s, step) && IsIoStep(step)
    ensures Keeps(s, ApplyIo(s, step))
  {
    if step.BeginIo? {
      BeginKeeps(s, step.w, step.key, step.timed);
    } else if step.IoAgain? {
      AgainKeeps(s, step.w);
    } else if step.IoDone? || step.AddFails? || step.DropTimer? {
      CallEndKeeps(s, step);
    } else if step.TimeoutTest? || step.TimeoutCancel? {
      TimeoutKeeps(s, step);
    } else {
      WaitKeeps(s, step);
    }
  }

  lemma ExternalKeeps(s: State, step: Step)
    requires Good(s) && Enabled(s, step) && IsExternal(step)
    ensures Keeps(s, ApplyExternal(s, step))
  {
    match step
    case Submit => SubmittedGood(s);
    case SubmitFiber(f) => FiberSubmittedGood(s, f);
    case SubmitTimer => SubmittedGood(s);
    case RequestStop =>
  }

  /** Every step keeps the parts of the invariant; only a passed stop test ends an idle fiber. */
  lemma StepKeeps(s: State, step: Step)
    requires Good(s) && Enabled(s, step)
    ensures Good(Apply(s, step))
    ensures !(step.TestStop? && Stopping(s)) ==> SameIdleOver(s, Apply(s, step))
  {
    if IsExternal(step) {
      ExternalKeeps(s, step);
    } else if IsIdleStep(step) {
      if step.TestStop? && Stopping(s) { IdleEndedGood(s, step.w); } else { IdleKeeps(s, step); }
    } else if IsUserStep(step) {
      UserKeeps(s, step);
    } else if IsLoopStep(step) {
      LoopKeeps(s, step);
    } else {
      IoKeeps(s, step);
    }
  }

  // ---------- Stopping ----------

  /** While `stopping` holds a worker can only look around: nothing is queued, held, executing, parked or armed. */
  lemma StoppingIsQuiet(s: State, step: Step)
    requires Good(s) && Stopping(s) && Enabled(s, step)
    ensures step.GoIdle? || step.Leave? || step.TestStop? || step.IdleBack? || step.RequestStop?
  {
    hide PlaceInv, IoInv;
    assert |s.regs| == 0 && s.regs == map[];
    if !IsExternal(step) {
      CountedWorker(s.workers, step.w);
      if step.Mark? {
        StoppingHasNoMark(s, step.w, step.f);
      }
    }
  }

  /** A fiber about to be marked INIT is queued or parked, so `stopping` cannot hold. */
  lemma StoppingHasNoMark(s: State, w: nat, f: nat)
    requires PlaceInv(s) && w < |s.workers| && s.workers[w].pc == Marking(f)
    ensures s.queue != [] || s.regs != map[]
  {
    OnWorker(s, w, f);
  }

  lemma StepKeepsStopping(s: State, step: Step)
    requires Good(s) && Stopping(s) && Enabled(s, step)
    ensures Stopping(Apply(s, step))
  {
    StoppingIsQuiet(s, step);
  }

  lemma StepKeepsInv(s: State, step: Step)
    requires Inv(s) && Enabled(s, step)
    ensures Inv(Apply(s, step))
  {
    StepKeeps(s, step);
    if Stopping(s) {
      StepKeepsStopping(s, step);
    }
  }

  // ---------- The invariant over every run ----------

  lemma {:induction false} InitActive(ws: seq<Worker>)
    requires forall w :: 0 <= w < |ws| ==> ws[w] == Worker(Looking, false, false)
    ensures Active(ws) == 0 && Owing(ws) == 0
    decreases |ws|
  {
    if ws != [] {
      InitActive(ws[..|ws| - 1]);
    }
  }

  lemma {:induction false} RunInv(states: seq<State>, steps: seq<Step>, i: nat)
    requires Run(states, steps) && i < |states|
    ensures Inv(states[i])
    decreases i
  {
    if i == 0 {
      var s := states[0];
      InitActive(s.workers);
    } else {
      RunInv(states, steps, i - 1);
      StepKeepsInv(states[i - 1], steps[i - 1]);
    }
  }

  lemma ReachableInv(s: State)
    requires Reachable(s)
    ensures Inv(s)
  {
    var states, steps :| Run(states, steps) && states[|steps|] == s;
    RunInv(states, steps, |steps|);
  }
}

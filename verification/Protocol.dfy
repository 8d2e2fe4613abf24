/** The worker protocol: any number of workers running `Scheduler::run` over one task queue, with fibers that block in
    `do_io` on the event table and its timers (src/scheduler.cpp, src/iomanager_epoll.cpp, src/iocontext.cpp,
    src/fiber.cpp, src/hook.cpp). Each step is what one thread does while no other can see it half done. */
module Protocol {
  import opened Wrappers
  import opened Tasks

  // ---------- State ----------

  /** Where a fiber is in its own code. */
  datatype Pos =
    | User                                                         // outside `do_io`
    | Trying(key: Key, info: nat, timed: bool)                     // about to call the system function
    | Armed(key: Key, info: nat, timed: bool, timer: Option<nat>)  // EAGAIN: timer set, event not yet added
    | Parked(key: Key, info: nat, timed: bool, timer: Option<nat>) // event added; yields until swapped in again
    | Woken(key: Key, info: nat, timed: bool, timer: Option<nat>)  // swapped in again
    | TimedOut(info: nat, key: Key)                                // in a timeout callback, before its test
    | Expiring(key: Key)                                           // in a timeout callback, about to cancel the event

  /** The one place that will bring a fiber back, if it is not running. */
  datatype Place = Free | Queued | InTable(key: Key) | Held(w: nat)

  /** A fiber. The last four fields are history: `place` and `on` say who refers to it, `waits` counts its event
      registrations and `wakes` how often one of them put it back into the queue. */
  datatype Fiber = Fiber(state: FiberState, pos: Pos, place: Place, on: Option<nat>, waits: nat, wakes: nat)

  /** Where a worker is in `run`. */
  datatype Pc =
    | Looking            // about to scan the queue
    | Holding(t: Task)   // took a task and counted itself active
    | Running(f: nat)    // fiber `f` executes
    | Returned(f: nat)   // `f` swapped out; still counted
    | Marking(f: nat)    // no longer counted; `f` still marked EXEC
    | Idle               // in the idle fiber, about to test `stopping`
    | Waiting            // in the idle fiber, past the test
    | Left               // out of `run`

  /** `owes`: it triggered an event and has not yet lowered the pending count. `idleOver`: its idle fiber has ended. */
  datatype Worker = Worker(pc: Pc, owes: bool, idleOver: bool)

  /** The shared `timer_info` of one `do_io` call; it lives until the call returns. */
  datatype Info = Info(owner: nat, cancelled: bool)

  datatype State = State(
    workers: seq<Worker>,
    queue: seq<Task>,
    fibers: map<nat, Fiber>,
    regs: map<Key, Task>,     // the registered event bits and who waits for each
    pending: nat,
    active: nat,
    timers: map<nat, Task>,   // armed timers and their callbacks
    infos: map<nat, Info>,
    nextId: nat,              // timers and infos are never confused with earlier ones
    autoStop: bool,
    stopRequested: bool)

  predicate Stopping(s: State) {
    s.timers == map[] && s.pending == 0 && s.autoStop && s.stopRequested && s.queue == [] && s.active == 0
  }

  ghost predicate Init(s: State) {
    && (forall w :: 0 <= w < |s.workers| ==> s.workers[w] == Worker(Looking, false, false))
    && s.queue == [] && s.fibers == map[] && s.regs == map[] && s.pending == 0 && s.active == 0
    && s.timers == map[] && s.infos == map[] && !s.autoStop && !s.stopRequested
  }

  // ---------- Steps ----------

  datatype Step =
    // the worker loop
    | Take(w: nat) | GoIdle(w: nat) | Leave(w: nat) | SwapIn(w: nat, f: nat) | SkipDead(w: nat, f: nat)
    | StartCallback(w: nat, f: nat)
    | LowerCount(w: nat, f: nat) | Mark(w: nat, f: nat)
    // the idle fiber
    | TestStop(w: nat) | Expire(w: nat, t: nat, recurring: bool) | Ready(w: nat, key: Key) | IdleBack(w: nat)
    // lowering the pending count after a trigger
    | Settle(w: nat)
    // user code on a fiber
    | Finish(w: nat) | Spawn(w: nat) | SpawnFiber(w: nat, f: nat) | AddTimer(w: nat) | CancelTimer(w: nat, t: nat)
    | AddCallback(w: nat, key: Key) | Cancel(w: nat, key: Key)
    // do_io on a fiber
    | BeginIo(w: nat, key: Key, timed: bool) | IoDone(w: nat) | IoAgain(w: nat) | AddEvent(w: nat)
    | AddFails(w: nat) | Yield(w: nat) | DropTimer(w: nat) | AfterWake(w: nat)
    // a timeout callback
    | TimeoutTest(w: nat) | TimeoutCancel(w: nat)
    // threads outside the manager
    | Submit | SubmitFiber(f: nat) | SubmitTimer | RequestStop

  predicate IsLoopStep(step: Step) {
    step.Take? || step.GoIdle? || step.Leave? || step.SwapIn? || step.SkipDead? || step.StartCallback?
    || step.LowerCount? || step.Mark?
  }

  predicate IsIdleStep(step: Step) {
    step.TestStop? || step.Expire? || step.Ready? || step.IdleBack? || step.Settle?
  }

  predicate IsUserStep(step: Step) {
    step.Finish? || step.Spawn? || step.SpawnFiber? || step.AddTimer? || step.CancelTimer? || step.AddCallback?
    || step.Cancel?
  }

  predicate IsIoStep(step: Step) {
    step.BeginIo? || step.IoDone? || step.IoAgain? || step.AddEvent? || step.AddFails? || step.Yield?
    || step.DropTimer? || step.AfterWake? || step.TimeoutTest? || step.TimeoutCancel?
  }

  predicate IsExternal(step: Step) {
    step.Submit? || step.SubmitFiber? || step.SubmitTimer? || step.RequestStop?
  }

  function FiberStates(s: State): (m: map<nat, FiberState>)
    ensures m.Keys == s.fibers.Keys && forall f :: f in m ==> m[f] == s.fibers[f].state
  {
    map f | f in s.fibers :: s.fibers[f].state
  }

  /** Where in the queue the scan finds what it takes. */
  function NextTask(s: State): (r: Option<nat>)
    ensures r.Some? ==> r.value < |s.queue|
  {
    FirstReady(s.queue, FiberStates(s), 0)
  }

  /** Worker `w` owes nothing, so it may go on. */
  predicate MayGo(s: State, w: nat) {
    w < |s.workers| && !s.workers[w].owes
  }

  /** Worker `w` executes a fiber. */
  predicate Runs(s: State, w: nat) {
    MayGo(s, w) && s.workers[w].pc.Running? && s.workers[w].pc.f in s.fibers
  }

  /** Where the fiber that worker `w` executes is in its code. */
  function PosOn(s: State, w: nat): Pos
    requires Runs(s, w)
  {
    s.fibers[s.workers[w].pc.f].pos
  }

  /** Worker `w` holds fiber `f`. */
  predicate Holds(s: State, w: nat, f: nat) {
    MayGo(s, w) && s.workers[w].pc == Holding(FiberTask(f)) && f in s.fibers
  }

  predicate Enabled(s: State, step: Step) {
    match step
    case Take(w) => MayGo(s, w) && s.workers[w].pc == Looking && NextTask(s).Some?
    case GoIdle(w) => MayGo(s, w) && s.workers[w].pc == Looking && NextTask(s).None? && !s.workers[w].idleOver
    case Leave(w) => MayGo(s, w) && s.workers[w].pc == Looking && NextTask(s).None? && s.workers[w].idleOver
    case SwapIn(w, f) => Holds(s, w, f) && s.fibers[f].state != TERM
    case SkipDead(w, f) => Holds(s, w, f) && s.fibers[f].state == TERM && s.active > 0
    case StartCallback(w, f) =>
      MayGo(s, w) && s.workers[w].pc.Holding? && !s.workers[w].pc.t.FiberTask? && f !in s.fibers
    case LowerCount(w, f) => MayGo(s, w) && s.workers[w].pc == Returned(f) && f in s.fibers && s.active > 0
    case Mark(w, f) => MayGo(s, w) && s.workers[w].pc == Marking(f) && f in s.fibers
    case TestStop(w) => MayGo(s, w) && s.workers[w].pc == Idle
    case Expire(w, t, recurring) =>
      MayGo(s, w) && s.workers[w].pc == Waiting && t in s.timers && (recurring ==> s.timers[t].UserCb?)
    case Ready(w, key) => MayGo(s, w) && s.workers[w].pc == Waiting && key in s.regs
    case IdleBack(w) => MayGo(s, w) && s.workers[w].pc == Waiting
    case Settle(w) => w < |s.workers| && s.workers[w].owes && s.pending > 0
    case Finish(w) => Runs(s, w) && PosOn(s, w) == User
    case Spawn(w) => Runs(s, w) && PosOn(s, w) == User
    case SpawnFiber(w, f) => Runs(s, w) && PosOn(s, w) == User && f !in s.fibers
    case AddTimer(w) => Runs(s, w) && PosOn(s, w) == User
    case CancelTimer(w, t) => Runs(s, w) && PosOn(s, w) == User && t in s.timers && s.timers[t].UserCb?
    case AddCallback(w, key) => Runs(s, w) && PosOn(s, w) == User && key !in s.regs
    case Cancel(w, key) => Runs(s, w) && PosOn(s, w) == User && key in s.regs
    case BeginIo(w, key, timed) => Runs(s, w) && PosOn(s, w) == User
    case IoDone(w) => Runs(s, w) && PosOn(s, w).Trying?
    case IoAgain(w) => Runs(s, w) && PosOn(s, w).Trying?
    case AddEvent(w) => Runs(s, w) && PosOn(s, w).Armed? && PosOn(s, w).key !in s.regs
    case AddFails(w) => Runs(s, w) && PosOn(s, w).Armed?
    case Yield(w) => Runs(s, w) && PosOn(s, w).Parked?
    case DropTimer(w) => Runs(s, w) && PosOn(s, w).Woken? && PosOn(s, w).timer.Some?
    case AfterWake(w) => Runs(s, w) && PosOn(s, w).Woken? && PosOn(s, w).timer.None? && PosOn(s, w).info in s.infos
    case TimeoutTest(w) => Runs(s, w) && PosOn(s, w).TimedOut?
    case TimeoutCancel(w) => Runs(s, w) && PosOn(s, w).Expiring?
    case Submit => !Stopping(s)
    case SubmitFiber(f) => !Stopping(s) && f !in s.fibers
    case SubmitTimer => !Stopping(s)
    case RequestStop => true
  }

  function SetPc(s: State, w: nat, pc: Pc): State
    requires w < |s.workers|
  {
    s.(workers := s.workers[w := s.workers[w].(pc := pc)])
  }

  /** The fibers once `t` has been queued by a trigger. */
  function Triggered(fibers: map<nat, Fiber>, t: Task): map<nat, Fiber> {
    if t.FiberTask? && t.f in fibers then
      fibers[t.f := fibers[t.f].(place := Queued, wakes := fibers[t.f].wakes + 1)]
    else fibers
  }

  /** `IOContext::trigger`: clears the event bit and queues whoever waits for it; worker `w` owes the pending count. */
  function Trigger(s: State, w: nat, key: Key): State
    requires w < |s.workers| && key in s.regs
  {
    s.(queue := s.queue + [s.regs[key]],
       regs := s.regs - {key},
       fibers := Triggered(s.fibers, s.regs[key]),
       workers := s.workers[w := s.workers[w].(owes := true)])
  }

  /** The fibers once worker `w` holds `t`. */
  function HeldFiber(fibers: map<nat, Fiber>, t: Task, w: nat): map<nat, Fiber> {
    if t.FiberTask? && t.f in fibers then fibers[t.f := fibers[t.f].(place := Held(w))] else fibers
  }

  /** Worker `w` takes task `i` and counts itself active, in one locked step. */
  function TakeOut(s: State, w: nat, i: nat): State
    requires w < |s.workers| && i < |s.queue|
  {
    SetPc(s, w, Holding(s.queue[i])).(queue := WithoutTask(s.queue, i), active := s.active + 1,
                                      fibers := HeldFiber(s.fibers, s.queue[i], w))
  }

  function NewFiber(place: Place): Fiber {
    Fiber(INIT, User, place, None, 0, 0)
  }

  /** The position after `swapIn`: a parked fiber goes on behind its yield. */
  function Resumed(p: Pos): Pos {
    if p.Parked? then Woken(p.key, p.info, p.timed, p.timer) else p
  }

  /** Worker `w` and fiber `f` change together. */
  function Handed(s: State, w: nat, pc: Pc, f: nat, fb: Fiber): State
    requires w < |s.workers|
  {
    SetPc(s, w, pc).(fibers := s.fibers[f := fb])
  }

  function Uncounted(s: State): State
    requires s.active > 0
  {
    s.(active := s.active - 1)
  }

  function StartPos(t: Task): Pos {
    if t.TimeoutCb? then TimedOut(t.info, t.key) else User
  }

  function ApplyLoop(s: State, step: Step): State
    requires Enabled(s, step) && IsLoopStep(step)
  {
    match step
    case Take(w) => TakeOut(s, w, NextTask(s).value)
    case GoIdle(w) => SetPc(s, w, Idle)
    case Leave(w) => SetPc(s, w, Left)
    case SwapIn(w, f) =>
      Handed(s, w, Running(f), f,
             s.fibers[f].(state := EXEC, pos := Resumed(s.fibers[f].pos), place := Free, on := Some(w)))
    case SkipDead(w, f) => Uncounted(SetPc(s, w, Looking))
    case StartCallback(w, f) =>
      Handed(s, w, Running(f), f, Fiber(EXEC, StartPos(s.workers[w].pc.t), Free, Some(w), 0, 0))
    case LowerCount(w, f) =>
      Uncounted(if s.fibers[f].state == TERM then Handed(s, w, Looking, f, s.fibers[f].(on := None))
                else SetPc(s, w, Marking(f)))
    case Mark(w, f) => Handed(s, w, Looking, f, s.fibers[f].(state := INIT, on := None))
  }

  function ApplyIdle(s: State, step: Step): State
    requires Enabled(s, step) && IsIdleStep(step)
  {
    match step
    case TestStop(w) => if Stopping(s) then IdleEnded(s, w) else SetPc(s, w, Waiting)
    case Expire(w, t, recurring) => Expired(s, t, recurring)
    case Ready(w, key) => Trigger(s, w, key)
    case IdleBack(w) => SetPc(s, w, Looking)
    case Settle(w) => Settled(s, w)
  }

  function IdleEnded(s: State, w: nat): State
    requires w < |s.workers|
  {
    s.(workers := s.workers[w := s.workers[w].(pc := Looking, idleOver := true)])
  }

  /** `listExpiredCb` and the scheduling of what it lists, one timer at a time. */
  function Expired(s: State, t: nat, recurring: bool): State
    requires t in s.timers
  {
    s.(queue := s.queue + [s.timers[t]], timers := if recurring then s.timers else s.timers - {t})
  }

  function Settled(s: State, w: nat): State
    requires w < |s.workers| && s.pending > 0
  {
    s.(pending := s.pending - 1, workers := s.workers[w := s.workers[w].(owes := false)])
  }

  function ApplyUser(s: State, step: Step): State
    requires Enabled(s, step) && IsUserStep(step)
  {
    match step
    case Finish(w) =>
      Handed(s, w, Returned(s.workers[w].pc.f), s.workers[w].pc.f, s.fibers[s.workers[w].pc.f].(state := TERM))
    case Spawn(w) => CallbackSubmitted(s)
    case SpawnFiber(w, f) => FiberSubmitted(s, f)
    case AddTimer(w) => TimerSubmitted(s)
    case CancelTimer(w, t) => s.(timers := s.timers - {t})
    case AddCallback(w, key) => s.(regs := s.regs[key := UserCb], pending := s.pending + 1)
    case Cancel(w, key) => Trigger(s, w, key)
  }

  function CallbackSubmitted(s: State): State {
    s.(queue := s.queue + [UserCb])
  }

  function FiberSubmitted(s: State, f: nat): State {
    s.(queue := s.queue + [FiberTask(f)], fibers := s.fibers[f := NewFiber(Queued)])
  }

  function TimerSubmitted(s: State): State {
    s.(timers := s.timers[s.nextId := UserCb], nextId := s.nextId + 1)
  }

  /** Fiber `f` moves on in its own code and changes infos and timers. */
  function Moved(s: State, f: nat, pos: Pos, infos: map<nat, Info>, timers: map<nat, Task>, nextId: nat): State
    requires f in s.fibers
  {
    s.(fibers := s.fibers[f := s.fibers[f].(pos := pos)], infos := infos, timers := timers, nextId := nextId)
  }

  /** A `do_io` call begins with its own info. */
  function CallStarted(s: State, f: nat, key: Key, timed: bool): State
    requires f in s.fibers
  {
    Moved(s, f, Trying(key, s.nextId, timed), s.infos[s.nextId := Info(f, false)], s.timers, s.nextId + 1)
  }

  /** `addConditionTimer`. */
  function TimeoutSet(s: State, f: nat, p: Pos): State
    requires f in s.fibers && p.Trying?
  {
    Moved(s, f, Armed(p.key, p.info, true, Some(s.nextId)), s.infos,
          s.timers[s.nextId := TimeoutCb(p.info, p.key)], s.nextId + 1)
  }

  /** `add` succeeds for fiber `f`, which now waits in the table. */
  function EventAdded(s: State, f: nat, fb: Fiber): State
    requires MayHaveTimer(fb.pos)
  {
    var p := fb.pos;
    s.(regs := s.regs[p.key := FiberTask(f)], pending := s.pending + 1, fibers := s.fibers[f := Registered(fb)])
  }

  predicate MayHaveTimer(p: Pos) {
    p.Armed? || p.Parked? || p.Woken?
  }

  function Registered(fb: Fiber): Fiber
    requires MayHaveTimer(fb.pos)
  {
    var p := fb.pos;
    fb.(pos := Parked(p.key, p.info, p.timed, p.timer), place := InTable(p.key), waits := fb.waits + 1)
  }

  /** The timers after `timer->cancel()`, which does nothing to a timer that has fired. */
  function Without(timers: map<nat, Task>, t: Option<nat>): map<nat, Task> {
    if t.Some? then timers - {t.value} else timers
  }

  function ApplyIo(s: State, step: Step): State
    requires Enabled(s, step) && IsIoStep(step)
  {
    var f := s.workers[step.w].pc.f;
    var p := s.fibers[f].pos;
    match step
    case BeginIo(w, key, timed) => CallStarted(s, f, key, timed)
    case IoDone(w) => Moved(s, f, User, s.infos - {p.info}, s.timers, s.nextId)
    case IoAgain(w) =>
      if p.timed then TimeoutSet(s, f, p)
      else Moved(s, f, Armed(p.key, p.info, false, None), s.infos, s.timers, s.nextId)
    case AddEvent(w) => EventAdded(s, f, s.fibers[f])
    case AddFails(w) => Moved(s, f, User, s.infos - {p.info}, Without(s.timers, p.timer), s.nextId)
    case Yield(w) => SetPc(s, w, Returned(f))
    case DropTimer(w) =>
      Moved(s, f, Woken(p.key, p.info, p.timed, None), s.infos, Without(s.timers, p.timer), s.nextId)
    case AfterWake(w) =>
      if s.infos[p.info].cancelled then Moved(s, f, User, s.infos - {p.info}, s.timers, s.nextId)
      else Moved(s, f, Trying(p.key, p.info, p.timed), s.infos, s.timers, s.nextId)
    case TimeoutTest(w) =>
      if p.info !in s.infos || s.infos[p.info].cancelled then Moved(s, f, User, s.infos, s.timers, s.nextId)
      else
        Moved(s, f, Expiring(p.key), s.infos[p.info := s.infos[p.info].(cancelled := true)], s.timers, s.nextId)
    case TimeoutCancel(w) =>
      var s' := Moved(s, f, User, s.infos, s.timers, s.nextId);
      if p.key in s.regs then Trigger(s', w, p.key) else s'
  }

  function ApplyExternal(s: State, step: Step): State
    requires Enabled(s, step) && IsExternal(step)
  {
    match step
    case Submit => CallbackSubmitted(s)
    case SubmitFiber(f) => FiberSubmitted(s, f)
    case SubmitTimer => TimerSubmitted(s)
    case RequestStop => s.(autoStop := true, stopRequested := true)
  }

  function Apply(s: State, step: Step): State
    requires Enabled(s, step)
  {
    if IsExternal(step) then ApplyExternal(s, step)
    else if IsIdleStep(step) then ApplyIdle(s, step)
    else if IsUserStep(step) then ApplyUser(s, step)
    else if IsLoopStep(step) then ApplyLoop(s, step)
    else ApplyIo(s, step)
  }

  // ---------- The invariant ----------

  /** The fiber whose stack a worker is on. */
  function OnFiber(pc: Pc): Option<nat> {
    match pc
    case Running(f) => Some(f)
    case Returned(f) => Some(f)
    case Marking(f) => Some(f)
    case _ => None
  }

  predicate IsActive(w: Worker) {
    w.pc.Holding? || w.pc.Running? || w.pc.Returned?
  }

  function Active(ws: seq<Worker>): nat {
    if ws == [] then 0 else Active(ws[..|ws| - 1]) + (if IsActive(ws[|ws| - 1]) then 1 else 0)
  }

  function Owing(ws: seq<Worker>): nat {
    if ws == [] then 0 else Owing(ws[..|ws| - 1]) + (if ws[|ws| - 1].owes then 1 else 0)
  }

  /** The queue holds each fiber at most once, and exactly those whose place it is. */
  ghost predicate QueueInv(queue: seq<Task>, fibers: map<nat, Fiber>) {
    && (forall i :: 0 <= i < |queue| && queue[i].FiberTask? ==>
          queue[i].f in fibers && fibers[queue[i].f].place == Queued)
    && (forall i, j :: 0 <= i < j < |queue| && queue[i].FiberTask? ==> queue[i] != queue[j])
    && (forall f :: f in fibers && fibers[f].place == Queued ==> FiberTask(f) in queue)
  }

  /** An event bit holds the fiber whose place it is. */
  ghost predicate TableInv(regs: map<Key, Task>, fibers: map<nat, Fiber>) {
    && (forall k :: k in regs ==> !regs[k].TimeoutCb?)
    && (forall k :: k in regs && regs[k].FiberTask? ==> regs[k].f in fibers && fibers[regs[k].f].place == InTable(k))
    && (forall f :: f in fibers && fibers[f].place.InTable? ==>
          fibers[f].place.key in regs && regs[fibers[f].place.key] == FiberTask(f))
  }

  /** A worker holds or executes the fibers that say so. */
  ghost predicate WorkerInv(workers: seq<Worker>, fibers: map<nat, Fiber>) {
    && (forall w :: 0 <= w < |workers| && workers[w].pc.Holding? && workers[w].pc.t.FiberTask? ==>
          workers[w].pc.t.f in fibers && fibers[workers[w].pc.t.f].place == Held(w))
    && (forall f :: f in fibers && fibers[f].place.Held? ==>
          fibers[f].place.w < |workers| && workers[fibers[f].place.w].pc == Holding(FiberTask(f)))
    && (forall w :: 0 <= w < |workers| && OnFiber(workers[w].pc).Some? ==>
          OnFiber(workers[w].pc).value in fibers && fibers[OnFiber(workers[w].pc).value].on == Some(w))
    && (forall f :: f in fibers && fibers[f].on.Some? ==>
          fibers[f].on.value < |workers| && OnFiber(workers[fibers[f].on.value].pc) == Some(f))
    && (forall w :: 0 <= w < |workers| && workers[w].owes ==> workers[w].pc.Running? || workers[w].pc == Waiting)
    && (forall w :: 0 <= w < |workers| && workers[w].pc == Left ==> workers[w].idleOver)
  }

  /** What one fiber may look like, given where the worker whose stack it is on stands. */
  ghost predicate FiberOk(fb: Fiber, pc: Pc) {
    && (fb.place.InTable? ==> fb.pos.Parked? && fb.pos.key == fb.place.key)
    && fb.wakes + (if fb.place.InTable? then 1 else 0) == fb.waits
    && match fb.on
       case None =>
         (fb.state == TERM && fb.place == Free && fb.pos == User)
         || (fb.state == INIT && fb.place != Free && (fb.pos == User || fb.pos.Parked?))
       case Some(_) =>
         !fb.place.Held?
         && if pc.Running? then fb.state == EXEC && (fb.place != Free <==> fb.pos.Parked?)
            else if pc.Returned? && fb.state == TERM then fb.place == Free && fb.pos == User
            else fb.state == EXEC && fb.pos.Parked? && fb.place != Free
  }

  function PcOf(workers: seq<Worker>, on: Option<nat>): Pc {
    if on.Some? && on.value < |workers| then workers[on.value].pc else Looking
  }

  ghost predicate FibersInv(fibers: map<nat, Fiber>, workers: seq<Worker>) {
    forall f :: f in fibers ==> FiberOk(fibers[f], PcOf(workers, fibers[f].on))
  }

  /** The idle fiber of a worker ends only once the manager may stop. */
  ghost predicate OverInv(s: State) {
    (exists w :: 0 <= w < |s.workers| && s.workers[w].idleOver) ==> Stopping(s)
  }

  ghost predicate CountInv(s: State) {
    s.active == Active(s.workers) && s.pending == |s.regs| + Owing(s.workers)
  }

  predicate HasInfo(p: Pos) {
    p.Trying? || p.Armed? || p.Parked? || p.Woken?
  }

  predicate HasTimer(p: Pos) {
    MayHaveTimer(p) && p.timer.Some?
  }

  /** Every `do_io` call has its own live info. */
  ghost predicate InfoInv(infos: map<nat, Info>, fibers: map<nat, Fiber>, nextId: nat) {
    && (forall i :: i in infos ==>
          i < nextId && infos[i].owner in fibers && HasInfo(fibers[infos[i].owner].pos)
          && fibers[infos[i].owner].pos.info == i)
    && (forall f :: f in fibers && HasInfo(fibers[f].pos) ==>
          fibers[f].pos.info in infos && infos[fibers[f].pos.info].owner == f)
  }

  /** A timeout still armed belongs to a call in progress, which will cancel it. */
  ghost predicate TimerInv(timers: map<nat, Task>, infos: map<nat, Info>, fibers: map<nat, Fiber>, nextId: nat) {
    && (forall t :: t in timers ==> t < nextId && !timers[t].FiberTask?)
    && (forall t :: t in timers && timers[t].TimeoutCb? ==>
          && timers[t].info in infos && infos[timers[t].info].owner in fibers
          && HasTimer(fibers[infos[timers[t].info].owner].pos)
          && fibers[infos[timers[t].info].owner].pos.timer == Some(t))
    && (forall f :: f in fibers && HasTimer(fibers[f].pos) ==>
          && fibers[f].pos.timer.value < nextId
          && (fibers[f].pos.timer.value in timers ==>
                timers[fibers[f].pos.timer.value] == TimeoutCb(fibers[f].pos.info, fibers[f].pos.key)))
  }

  ghost predicate Inv(s: State) {
    && QueueInv(s.queue, s.fibers) && TableInv(s.regs, s.fibers) && WorkerInv(s.workers, s.fibers)
    && FibersInv(s.fibers, s.workers) && InfoInv(s.infos, s.fibers, s.nextId)
    && TimerInv(s.timers, s.infos, s.fibers, s.nextId) && CountInv(s) && OverInv(s)
  }

  /** A run of the manager: any interleaving of steps from an empty start. */
  ghost predicate Run(states: seq<State>, steps: seq<Step>) {
    && |states| == |steps| + 1 && Init(states[0])
    && forall i :: 0 <= i < |steps| ==> Enabled(states[i], steps[i]) && states[i + 1] == Apply(states[i], steps[i])
  }

  ghost predicate Reachable(s: State) {
    exists states, steps :: Run(states, steps) && states[|steps|] == s
  }
}

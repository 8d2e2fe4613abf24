/** From every reachable state in which a timeout is not lost some run of the workers alone uses it to wake its
    fiber. */
module ProtocolProgress {
  import opened Wrappers
  import opened Tasks
  import opened Protocol
  import opened ProtocolSteps
  import opened ProtocolTimeouts
  import opened ProtocolAccounts
  import opened ProtocolWaking

  /** Steps of workers that bring no new work. */
  predicate WindsUp(step: Step) {
    !IsExternal(step) && !step.Spawn? && !step.SpawnFiber? && !step.AddTimer? && !step.AddCallback? && !step.BeginIo?
  }

  // ---------- What the workers still have to do ----------

  /** Steps left for the fiber that a worker executes until it yields or finishes. */
  function PosRank(p: Pos): nat {
    match p
    case User => 0
    case Parked(_, _, _, _) => 0
    case Trying(_, _, _) => 1
    case Armed(_, _, _, _) => 1
    case Expiring(_) => 1
    case TimedOut(_, _) => 2
    case Woken(_, _, _, timer) => if timer.Some? then 3 else 2
  }

  function Rank(wk: Worker, fibers: map<nat, Fiber>): nat {
    (if wk.owes then 1 else 0) +
    match wk.pc
    case Holding(_) => 22
    case Running(f) => 10 + 3 * (if f in fibers then PosRank(fibers[f].pos) else 0)
    case Returned(_) => 6
    case Marking(_) => 3
    case _ => 0
  }

  function Work(ws: seq<Worker>, fibers: map<nat, Fiber>): nat {
    if ws == [] then 0 else Work(ws[..|ws| - 1], fibers) + Rank(ws[|ws| - 1], fibers)
  }

  /** How far the first worker is from the scan, if anything is queued, or else from the wait for timers. */
  function Distance(s: State): nat {
    if s.workers == [] then 0
    else match s.workers[0].pc
      case Looking => if s.queue == [] then 2 else 0
      case Idle => if s.queue == [] then 1 else 2
      case Waiting => if s.queue == [] then 0 else 1
      case _ => 0
  }

  function Jobs(s: State): nat {
    24 * |s.queue| + 30 * |s.regs| + 30 * |s.timers|
  }

  function Measure(s: State): nat {
    Jobs(s) + Work(s.workers, s.fibers) + Distance(s)
  }

  /** Only worker `w` has moved. */
  ghost predicate SameRanks(s: State, s': State, w: nat) {
    && |s'.workers| == |s.workers|
    && forall v :: 0 <= v < |s.workers| && v != w ==> Rank(s'.workers[v], s'.fibers) == Rank(s.workers[v], s.fibers)
  }

  lemma {:induction false} WorkMoved(ws: seq<Worker>, ws': seq<Worker>, fibers: map<nat, Fiber>,
                                     fibers': map<nat, Fiber>, w: nat)
    requires |ws'| == |ws| && w < |ws|
    requires forall v :: 0 <= v < |ws| && v != w ==> Rank(ws'[v], fibers') == Rank(ws[v], fibers)
    ensures Work(ws', fibers') + Rank(ws[w], fibers) == Work(ws, fibers) + Rank(ws'[w], fibers')
    decreases |ws|
  {
    var last := |ws| - 1;
    if w < last {
      WorkMoved(ws[..last], ws'[..last], fibers, fibers', w);
    } else {
      WorkSame(ws[..last], ws'[..last], fibers, fibers');
    }
  }

  lemma {:induction false} WorkSame(ws: seq<Worker>, ws': seq<Worker>, fibers: map<nat, Fiber>,
                                    fibers': map<nat, Fiber>)
    requires |ws'| == |ws| && forall v :: 0 <= v < |ws| ==> Rank(ws'[v], fibers') == Rank(ws[v], fibers)
    ensures Work(ws', fibers') == Work(ws, fibers)
    decreases |ws|
  {
    if ws != [] {
      WorkSame(ws[..|ws| - 1], ws'[..|ws| - 1], fibers, fibers');
    }
  }

  /** A step of worker `w` that makes its own rank and the jobs smaller. */
  lemma MeasureFalls(s: State, s': State, w: nat)
    requires w < |s.workers| && SameRanks(s, s', w)
    requires Jobs(s') + Rank(s'.workers[w], s'.fibers) + Distance(s')
           < Jobs(s) + Rank(s.workers[w], s.fibers) + Distance(s)
    ensures Measure(s') < Measure(s)
  {
    WorkMoved(s.workers, s'.workers, s.fibers, s'.fibers, w);
  }

  /** Workers other than `w` are on other fibers. */
  lemma OthersKeepRank(s: State, s': State, w: nat)
    requires Good(s) && w < |s.workers| && |s'.workers| == |s.workers|
    requires forall v :: 0 <= v < |s.workers| && v != w ==> s'.workers[v] == s.workers[v]
    requires forall g :: g in s.fibers && s.fibers[g].on.Some? && s.fibers[g].on != Some(w) ==>
               g in s'.fibers && s'.fibers[g].pos == s.fibers[g].pos
    ensures SameRanks(s, s', w)
  {
    hide QueueInv, TableInv, FibersInv, IoInv, CountInv;
    forall v | 0 <= v < |s.workers| && v != w ensures Rank(s'.workers[v], s'.fibers) == Rank(s.workers[v], s.fibers) {
      assert OnFiber(s.workers[v].pc).Some? ==> s.fibers[OnFiber(s.workers[v].pc).value].on == Some(v);
    }
  }

  // ---------- A worker that is busy ----------

  predicate Busy(wk: Worker) {
    wk.owes || wk.pc.Holding? || wk.pc.Running? || wk.pc.Returned? || wk.pc.Marking?
  }

  /** What worker `w` does next if it is busy: user code finishes, a call retried succeeds, an event is not added. */
  function NextStep(s: State, w: nat, spare: nat): Step
    requires w < |s.workers| && Busy(s.workers[w])
    requires s.workers[w].pc.Running? ==> s.workers[w].pc.f in s.fibers
  {
    if s.workers[w].owes then Settle(w)
    else match s.workers[w].pc
      case Holding(t) => if t.FiberTask? then SwapIn(w, t.f) else StartCallback(w, spare)
      case Returned(f) => LowerCount(w, f)
      case Marking(f) => Mark(w, f)
      case Running(f) =>
        match s.fibers[f].pos
        case User => Finish(w)
        case Trying(_, _, _) => IoDone(w)
        case Armed(_, _, _, _) => AddFails(w)
        case Parked(_, _, _, _) => Yield(w)
        case Woken(_, _, _, timer) => if timer.Some? then DropTimer(w) else AfterWake(w)
        case TimedOut(_, _) => TimeoutTest(w)
        case Expiring(_) => TimeoutCancel(w)
  }

  lemma BusyOnFiber(s: State, w: nat)
    requires Good(s) && w < |s.workers| && OnFiber(s.workers[w].pc).Some?
    ensures OnFiber(s.workers[w].pc).value in s.fibers
  {
    hide IoInv, CountInv;
    OnWorker(s, w, OnFiber(s.workers[w].pc).value);
  }

  lemma NextEnabled(s: State, w: nat, spare: nat)
    requires Good(s) && w < |s.workers| && Busy(s.workers[w]) && spare !in s.fibers
    ensures s.workers[w].pc.Running? ==> s.workers[w].pc.f in s.fibers
    ensures Enabled(s, NextStep(s, w, spare))
  {
    hide IoInv, CountInv, PlaceInv;
    CountersNeverWrap(s, w);
    if OnFiber(s.workers[w].pc).Some? {
      BusyOnFiber(s, w);
      var f := OnFiber(s.workers[w].pc).value;
      if HasInfo(s.fibers[f].pos) {
        InfoKnown(s, f);
      }
    } else if s.workers[w].pc.Holding? && s.workers[w].pc.t.FiberTask? {
      HeldIsReady(s, w, s.workers[w].pc.t.f);
    }
  }

  lemma WithoutSize(timers: map<nat, Task>, t: Option<nat>)
    ensures |Without(timers, t)| <= |timers|
    ensures t.Some? && t.value in timers ==> |Without(timers, t)| == |timers| - 1
  {
    if t.Some? && t.value in timers {
      assert timers == Without(timers, t)[t.value := timers[t.value]];
    } else {
      assert Without(timers, t) == timers;
    }
  }

  /** Worker `w` has moved and has less to do, by more than the first worker's distance can grow. */
  ghost predicate Shrinks(s: State, s': State, w: nat) {
    && w < |s.workers| && SameRanks(s, s', w)
    && Jobs(s') + Rank(s'.workers[w], s'.fibers) + 3 <= Jobs(s) + Rank(s.workers[w], s.fibers)
  }

  /** Worker `w` and a fiber on no other worker change together. */
  lemma HandedShrinks(s: State, w: nat, pc: Pc, f: nat, fb: Fiber)
    requires Good(s) && w < |s.workers|
    requires f in s.fibers && s.fibers[f].on.Some? ==> s.fibers[f].on == Some(w)
    requires Rank(s.workers[w].(pc := pc), s.fibers[f := fb]) + 3 <= Rank(s.workers[w], s.fibers)
    ensures Shrinks(s, Handed(s, w, pc, f, fb), w)
  {
    hide Good;
    OthersKeepRank(s, Handed(s, w, pc, f, fb), w);
  }

  lemma ResumedRank(p: Pos)
    ensures PosRank(Resumed(p)) <= 3
  {
  }

  lemma SwapInShrinks(s: State, w: nat, f: nat)
    requires Good(s) && Enabled(s, SwapIn(w, f))
    ensures Shrinks(s, ApplyLoop(s, SwapIn(w, f)), w)
  {
    HeldIsReady(s, w, f);
    hide Good, Shrinks;
    var fb := s.fibers[f];
    ResumedRank(fb.pos);
    hide PosRank, Resumed;
    HandedShrinks(s, w, Running(f), f, fb.(state := EXEC, pos := Resumed(fb.pos), place := Free, on := Some(w)));
  }

  lemma StartShrinks(s: State, w: nat, f: nat)
    requires Good(s) && Enabled(s, StartCallback(w, f))
    ensures Shrinks(s, ApplyLoop(s, StartCallback(w, f)), w)
  {
    hide Good, Shrinks;
    HandedShrinks(s, w, Running(f), f, Fiber(EXEC, StartPos(s.workers[w].pc.t), Free, Some(w), 0, 0));
  }

  lemma PcShrinks(s: State, w: nat, pc: Pc)
    requires Good(s) && w < |s.workers| && Rank(s.workers[w].(pc := pc), s.fibers) + 3 <= Rank(s.workers[w], s.fibers)
    ensures Shrinks(s, SetPc(s, w, pc), w)
  {
    hide Good;
    OthersKeepRank(s, SetPc(s, w, pc), w);
  }

  lemma DeadShrinks(s: State, w: nat, f: nat)
    requires Good(s) && Enabled(s, LowerCount(w, f)) && s.fibers[f].state == TERM
    ensures Shrinks(s, ApplyLoop(s, LowerCount(w, f)), w)
  {
    OnWorker(s, w, f);
    hide Good, Shrinks;
    HandedShrinks(s, w, Looking, f, s.fibers[f].(on := None));
    UncountedSame(s, Handed(s, w, Looking, f, s.fibers[f].(on := None)), w);
  }

  lemma LowerShrinks(s: State, w: nat, f: nat)
    requires Good(s) && Enabled(s, LowerCount(w, f))
    ensures Shrinks(s, ApplyLoop(s, LowerCount(w, f)), w)
  {
    hide Good, Shrinks;
    if s.fibers[f].state == TERM {
      DeadShrinks(s, w, f);
    } else {
      PcShrinks(s, w, Marking(f));
      UncountedSame(s, SetPc(s, w, Marking(f)), w);
    }
  }

  lemma UncountedSame(s: State, s': State, w: nat)
    requires w < |s.workers| && Shrinks(s, s', w) && s'.active > 0
    ensures Shrinks(s, Uncounted(s'), w)
  {
  }

  lemma MarkShrinks(s: State, w: nat, f: nat)
    requires Good(s) && Enabled(s, Mark(w, f))
    ensures Shrinks(s, ApplyLoop(s, Mark(w, f)), w)
  {
    OnWorker(s, w, f);
    hide Good, Shrinks;
    HandedShrinks(s, w, Looking, f, s.fibers[f].(state := INIT, on := None));
  }

  lemma FinishShrinks(s: State, w: nat)
    requires Good(s) && Enabled(s, Finish(w))
    ensures Shrinks(s, ApplyUser(s, Finish(w)), w)
  {
    BusyOnFiber(s, w);
    OnWorker(s, w, s.workers[w].pc.f);
    hide Good;
    OthersKeepRank(s, ApplyUser(s, Finish(w)), w);
  }

  lemma YieldShrinks(s: State, w: nat)
    requires Good(s) && Enabled(s, Yield(w))
    ensures Shrinks(s, ApplyIo(s, Yield(w)), w)
  {
    hide Good, Shrinks;
    PcShrinks(s, w, Returned(s.workers[w].pc.f));
  }

  lemma MovedShrinks(s: State, w: nat, f: nat, pos: Pos, infos: map<nat, Info>, timers: map<nat, Task>)
    requires Good(s) && Executes(s, w, f) && PosRank(pos) < PosRank(PosOn(s, w)) && |timers| <= |s.timers|
    ensures Shrinks(s, Moved(s, f, pos, infos, timers, s.nextId), w)
  {
    OnWorker(s, w, f);
    hide Good;
    OthersKeepRank(s, Moved(s, f, pos, infos, timers, s.nextId), w);
  }

  lemma DoneShrinks(s: State, w: nat)
    requires Good(s) && Enabled(s, IoDone(w))
    ensures Shrinks(s, ApplyIo(s, IoDone(w)), w)
  {
    hide Good, Shrinks;
    var f, p := s.workers[w].pc.f, PosOn(s, w);
    MovedShrinks(s, w, f, User, s.infos - {p.info}, s.timers);
  }

  lemma FailsShrinks(s: State, w: nat)
    requires Good(s) && Enabled(s, AddFails(w))
    ensures Shrinks(s, ApplyIo(s, AddFails(w)), w)
  {
    hide Good, Shrinks;
    var f, p := s.workers[w].pc.f, PosOn(s, w);
    WithoutSize(s.timers, p.timer);
    MovedShrinks(s, w, f, User, s.infos - {p.info}, Without(s.timers, p.timer));
  }

  lemma DropShrinks(s: State, w: nat)
    requires Good(s) && Enabled(s, DropTimer(w))
    ensures Shrinks(s, ApplyIo(s, DropTimer(w)), w)
  {
    hide Good, Shrinks;
    var f, p := s.workers[w].pc.f, PosOn(s, w);
    WithoutSize(s.timers, p.timer);
    MovedShrinks(s, w, f, Woken(p.key, p.info, p.timed, None), s.infos, Without(s.timers, p.timer));
  }

  lemma AfterShrinks(s: State, w: nat)
    requires Good(s) && Enabled(s, AfterWake(w))
    ensures Shrinks(s, ApplyIo(s, AfterWake(w)), w)
  {
    hide Good, Shrinks;
    var f, p := s.workers[w].pc.f, PosOn(s, w);
    if s.infos[p.info].cancelled {
      MovedShrinks(s, w, f, User, s.infos - {p.info}, s.timers);
    } else {
      MovedShrinks(s, w, f, Trying(p.key, p.info, p.timed), s.infos, s.timers);
    }
  }

  lemma TestShrinks(s: State, w: nat)
    requires Good(s) && Enabled(s, TimeoutTest(w))
    ensures Shrinks(s, ApplyIo(s, TimeoutTest(w)), w)
  {
    hide Good, Shrinks;
    var f, p := s.workers[w].pc.f, PosOn(s, w);
    if p.info !in s.infos || s.infos[p.info].cancelled {
      MovedShrinks(s, w, f, User, s.infos, s.timers);
    } else {
      MovedShrinks(s, w, f, Expiring(p.key), s.infos[p.info := s.infos[p.info].(cancelled := true)], s.timers);
    }
  }

  lemma TriggerFrame(s: State, w: nat, key: Key, g: nat)
    requires w < |s.workers| && key in s.regs
    ensures Jobs(Trigger(s, w, key)) + 6 == Jobs(s)
    ensures g in s.fibers ==> g in Trigger(s, w, key).fibers && Trigger(s, w, key).fibers[g].pos == s.fibers[g].pos
  {
    RegsSize(s.regs, key, UserCb);
  }

  lemma CancelShrinks(s: State, w: nat)
    requires Good(s) && Enabled(s, TimeoutCancel(w))
    ensures Shrinks(s, ApplyIo(s, TimeoutCancel(w)), w)
  {
    var f, key := s.workers[w].pc.f, PosOn(s, w).key;
    OnWorker(s, w, f);
    hide Good, Jobs;
    var moved := Moved(s, f, User, s.infos, s.timers, s.nextId);
    MovedShrinks(s, w, f, User, s.infos, s.timers);
    if key in s.regs {
      var s' := Trigger(moved, w, key);
      hide *;
      TriggerShrinks(s, moved, s', w, f, key);
    }
  }

  lemma TriggerShrinks(s: State, moved: State, s': State, w: nat, f: nat, key: Key)
    requires w < |s.workers| && Shrinks(s, moved, w) && key in moved.regs && s' == Trigger(moved, w, key)
    requires Executes(s, w, f) && Executes(moved, w, f) && PosOn(s, w) == Expiring(key) && PosOn(moved, w) == User
    ensures Shrinks(s, s', w)
  {
    TriggerFrame(moved, w, key, f);
    forall v | 0 <= v < |s.workers| && v != w ensures Rank(s'.workers[v], s'.fibers) == Rank(s.workers[v], s.fibers) {
      if s.workers[v].pc.Running? {
        TriggerFrame(moved, w, key, s.workers[v].pc.f);
      }
    }
  }

  lemma SettleFalls(s: State, w: nat)
    requires Good(s) && Enabled(s, Settle(w))
    ensures Measure(ApplyIdle(s, Settle(w))) < Measure(s)
  {
    hide Good;
    OthersKeepRank(s, ApplyIdle(s, Settle(w)), w);
    MeasureFalls(s, ApplyIdle(s, Settle(w)), w);
  }

  lemma NextShrinks(s: State, w: nat, spare: nat)
    requires Good(s) && w < |s.workers| && Busy(s.workers[w]) && !s.workers[w].owes && spare !in s.fibers
    requires s.workers[w].pc.Running? ==> s.workers[w].pc.f in s.fibers
    requires Enabled(s, NextStep(s, w, spare))
    ensures Shrinks(s, Apply(s, NextStep(s, w, spare)), w)
  {
    hide Good, Shrinks, Enabled, ApplyLoop, ApplyUser, ApplyIo;
    match NextStep(s, w, spare)
    case SwapIn(_, f) => SwapInShrinks(s, w, f);
    case StartCallback(_, f) => StartShrinks(s, w, f);
    case LowerCount(_, f) => LowerShrinks(s, w, f);
    case Mark(_, f) => MarkShrinks(s, w, f);
    case Finish(_) => FinishShrinks(s, w);
    case Yield(_) => YieldShrinks(s, w);
    case IoDone(_) => DoneShrinks(s, w);
    case AddFails(_) => FailsShrinks(s, w);
    case DropTimer(_) => DropShrinks(s, w);
    case AfterWake(_) => AfterShrinks(s, w);
    case TimeoutTest(_) => TestShrinks(s, w);
    case TimeoutCancel(_) => CancelShrinks(s, w);
  }

  lemma NextFalls(s: State, w: nat, spare: nat)
    requires Good(s) && w < |s.workers| && Busy(s.workers[w]) && spare !in s.fibers
    requires s.workers[w].pc.Running? ==> s.workers[w].pc.f in s.fibers
    requires Enabled(s, NextStep(s, w, spare))
    ensures Measure(Apply(s, NextStep(s, w, spare))) < Measure(s)
  {
    hide Good, Enabled, ApplyLoop, ApplyUser, ApplyIo, ApplyIdle, Jobs, Rank;
    if s.workers[w].owes {
      SettleFalls(s, w);
    } else {
      NextShrinks(s, w, spare);
      MeasureFalls(s, Apply(s, NextStep(s, w, spare)), w);
    }
  }

  // ---------- When no worker is busy ----------

  ghost predicate NoneBusy(s: State) {
    forall w :: 0 <= w < |s.workers| ==> !Busy(s.workers[w])
  }

  /** What the first worker does then. */
  function IdleStep(s: State, t: nat): Step
    requires s.workers != []
  {
    match s.workers[0].pc
    case Looking => if s.queue == [] then GoIdle(0) else Take(0)
    case Waiting => if s.queue == [] then Expire(0, t, false) else IdleBack(0)
    case _ => TestStop(0)
  }

  lemma OffWorkers(s: State, f: nat)
    requires Good(s) && NoneBusy(s) && f in s.fibers
    ensures s.fibers[f].on.None? && s.fibers[f].state != EXEC && (s.fibers[f].pos == User || s.fibers[f].pos.Parked?)
  {
    hide QueueInv, TableInv, IoInv, CountInv;
    assert FiberOk(s.fibers[f], PcOf(s.workers, s.fibers[f].on));
  }

  lemma QueueReady(s: State)
    requires Good(s) && NoneBusy(s) && s.queue != []
    ensures NextTask(s) == Some(0)
  {
    var t := s.queue[0];
    if t.FiberTask? && t.f in s.fibers {
      OffWorkers(s, t.f);
    }
  }

  /** Nothing is queued or executing, so a timeout still to come is armed. */
  lemma TimeoutIsArmed(s: State, f: nat)
    requires Good(s) && TimeoutInv(s) && NoneBusy(s) && s.queue == [] && TimeoutCounts(s, f)
    ensures s.fibers[f].pos.timer.value in s.timers
  {
    hide Good;
    var p := s.fibers[f].pos;
    InTableIsParked(s, f);
    InfoKnown(s, f);
    forall g | g in s.fibers ensures !s.fibers[g].pos.TimedOut? && !s.fibers[g].pos.Expiring? {
      OffWorkers(s, g);
    }
    assert Watched(s, f);
  }

  /** While an event is registered no worker's idle fiber has ended. */
  lemma NotOver(s: State, key: Key)
    requires Inv(s) && key in s.regs && s.workers != []
    ensures !Stopping(s) && !s.workers[0].idleOver && s.workers[0].pc != Left
  {
    hide QueueInv, TableInv, FibersInv, InfoInv, TimerInv;
    assert |s.regs| > 0;
  }

  lemma TakeFalls(s: State)
    requires Enabled(s, Take(0)) && NextTask(s) == Some(0)
    ensures Measure(ApplyLoop(s, Take(0))) < Measure(s)
  {
    hide NextTask;
    var s' := ApplyLoop(s, Take(0));
    forall v | 0 < v < |s.workers| ensures Rank(s'.workers[v], s'.fibers) == Rank(s.workers[v], s.fibers) {
    }
    MeasureFalls(s, s', 0);
  }

  lemma ExpireFalls(s: State, t: nat)
    requires Enabled(s, Expire(0, t, false)) && s.queue == []
    ensures Measure(ApplyIdle(s, Expire(0, t, false))) < Measure(s)
  {
    WithoutSize(s.timers, Some(t));
    MeasureFalls(s, ApplyIdle(s, Expire(0, t, false)), 0);
  }

  lemma PcFalls(s: State, pc: Pc)
    requires s.workers != [] && !Busy(s.workers[0])
    requires match pc
             case Looking => s.workers[0].pc == Waiting && s.queue != []
             case Idle => s.workers[0].pc == Looking && s.queue == []
             case Waiting => s.workers[0].pc == Idle
             case _ => false
    ensures Measure(SetPc(s, 0, pc)) < Measure(s)
  {
    MeasureFalls(s, SetPc(s, 0, pc), 0);
  }

  lemma NothingReady(s: State)
    requires s.queue == []
    ensures NextTask(s) == None
  {
  }

  lemma NotYetOver(s: State)
    requires Inv(s) && s.workers != [] && !Stopping(s)
    ensures !s.workers[0].idleOver && s.workers[0].pc != Left
  {
    hide QueueInv, TableInv, FibersInv, InfoInv, TimerInv, CountInv;
  }

  lemma IdleFalls(s: State, t: nat)
    requires Inv(s) && NoneBusy(s) && s.workers != [] && !Stopping(s)
    requires s.queue == [] && s.workers[0].pc == Waiting ==> t in s.timers
    ensures Enabled(s, IdleStep(s, t)) && Measure(Apply(s, IdleStep(s, t))) < Measure(s)
  {
    hide QueueInv, TableInv, WorkerInv, FibersInv, InfoInv, TimerInv, CountInv, OverInv, Measure, NextTask, TakeOut,
      FirstReady;
    NotYetOver(s);
    assert !Busy(s.workers[0]);
    if s.queue != [] {
      QueueReady(s);
    } else {
      NothingReady(s);
    }
    match s.workers[0].pc
    case Looking =>
      if s.queue == [] {
        PcFalls(s, Idle);
      } else {
        TakeFalls(s);
      }
    case Waiting =>
      if s.queue == [] {
        ExpireFalls(s, t);
      } else {
        PcFalls(s, Looking);
      }
    case _ => PcFalls(s, Waiting);
  }

  // ---------- A run that wakes the fiber ----------

  lemma {:induction false} Bound(keys: set<nat>) returns (n: nat)
    ensures forall k :: k in keys ==> k < n
    decreases |keys|
  {
    if keys == {} {
      n := 0;
    } else {
      var k :| k in keys;
      n := Bound(keys - {k});
      assert forall j :: j in keys ==> j == k || j in keys - {k};
      if n <= k {
        n := k + 1;
      }
    }
  }

  /** The timer of the wait is armed, if nothing is queued. */
  lemma WaitTimer(s: State, f: nat) returns (t: nat)
    requires Inv(s) && TimeoutInv(s) && NoneBusy(s) && TimeoutCounts(s, f)
    ensures s.queue == [] ==> t in s.timers
  {
    t := s.fibers[f].pos.timer.value;
    if s.queue == [] {
      TimeoutIsArmed(s, f);
    }
  }

  lemma BusyProgress(s: State, w: nat, key: Key) returns (step: Step)
    requires Good(s) && w < |s.workers| && Busy(s.workers[w])
    ensures Enabled(s, step) && !Foreign(step, key) && WindsUp(step) && Measure(Apply(s, step)) < Measure(s)
  {
    hide Good, Enabled, Apply, Measure;
    var spare := Bound(s.fibers.Keys);
    NextEnabled(s, w, spare);
    step := NextStep(s, w, spare);
    NextFalls(s, w, spare);
  }

  lemma IdleProgress(s: State, f: nat, key: Key) returns (step: Step)
    requires Inv(s) && TimeoutInv(s) && NoneBusy(s) && s.workers != []
    requires InTableFor(s, f, key) && TimeoutCounts(s, f)
    ensures Enabled(s, step) && !Foreign(step, key) && Measure(Apply(s, step)) < Measure(s)
  {
    assert key in s.regs;
    hide Inv, TimeoutInv, NoneBusy, InTableFor, TimeoutCounts, Enabled, Apply, Measure;
    var t := WaitTimer(s, f);
    step := IdleStep(s, t);
    NotOver(s, key);
    IdleFalls(s, t);
  }

  /** While a timeout counts, the workers can take a step that leaves them less to do. */
  lemma Progress(s: State, f: nat, key: Key) returns (step: Step)
    requires Reachable(s) && InTableFor(s, f, key) && TimeoutCounts(s, f) && s.workers != []
    ensures Enabled(s, step) && !Foreign(step, key) && Measure(Apply(s, step)) < Measure(s)
  {
    hide Reachable, TimeoutInv, TimeoutCounts, Enabled, Apply, Measure, Foreign, InTableFor, Busy, Inv, Good;
    ReachableInv(s);
    ReachableTimeouts(s);
    if w :| 0 <= w < |s.workers| && Busy(s.workers[w]) {
      InvIsGood(s);
      step := BusyProgress(s, w, key);
    } else {
      step := IdleProgress(s, f, key);
    }
  }

  lemma InvIsGood(s: State)
    requires Inv(s)
    ensures Good(s)
  {
    hide QueueInv, TableInv, WorkerInv, FibersInv, InfoInv, TimerInv, CountInv, OverInv;
  }

  /** A step either lets the fiber's own event be cancelled, which queues it, or leaves it waiting with its timeout. */
  lemma WakesOrWaits(s: State, step: Step, f: nat, key: Key)
    requires Reachable(s) && InTableFor(s, f, key) && TimeoutCounts(s, f) && Enabled(s, step) && !Foreign(step, key)
    ensures f in Apply(s, step).fibers
    ensures Apply(s, step).fibers[f].place == Queued
            || (InTableFor(Apply(s, step), f, key) && TimeoutCounts(Apply(s, step), f))
  {
    ReachableInv(s);
    ParkedFor(s, f, key);
    if step.TimeoutCancel? && PosOn(s, step.w).key == key {
      CancelWakes(s, step.w, f, s.workers[step.w].pc.f, key);
    } else {
      hide Good, Apply, TimeoutLost, Foreign;
      StepKeeps(s, step);
      StepStays(s, step, f, key);
      ParkedFor(Apply(s, step), f, key);
      ParkedFollows(s, step, f);
      TimeoutKeptInTable(s, step, f);
    }
  }

  /** A timeout that is not lost can still do its work: some run of the workers alone queues the fiber. */
  lemma {:induction false} TimeoutCanWake(s: State, f: nat, key: Key) returns (states: seq<State>, steps: seq<Step>)
    requires Reachable(s) && InTableFor(s, f, key) && TimeoutCounts(s, f) && s.workers != []
    ensures Alone(states, steps, key) && states[0] == s
    ensures f in states[|steps|].fibers && states[|steps|].fibers[f].place == Queued
    decreases Measure(s)
  {
    hide Reachable, TimeoutCounts, Enabled, Apply, Measure, Foreign;
    var step := Progress(s, f, key);
    var s' := Apply(s, step);
    WakesOrWaits(s, step, f, key);
    if s'.fibers[f].place == Queued {
      states, steps := [s, s'], [step];
    } else {
      RunOn(s, step);
      ReachableInv(s);
      SameWorkers(s, step);
      var states', steps' := TimeoutCanWake(s', f, key);
      states, steps := [s] + states', [step] + steps';
    }
  }

  lemma SameWorkers(s: State, step: Step)
    requires Good(s) && Enabled(s, step)
    ensures |Apply(s, step).workers| == |s.workers|
  {
    if !step.TestStop? {
      hide Good, Enabled, Apply;
      StepKeeps(s, step);
    }
  }

  // ---------- When a wait is left to its event ----------

  /** A wait is left to its event over every run exactly if its timeout is lost. */
  lemma LeftExactlyIfLost(s: State, f: nat, key: Key)
    requires Reachable(s) && WaitsAlone(s, f, key) && s.workers != []
    ensures LeftToEvent(s, f, key) <==> TimeoutLost(s, f)
  {
    hide Reachable, TimeoutLost;
    if TimeoutLost(s, f) {
      LostIsLeft(s, f, key);
    } else {
      var states, steps := TimeoutCanWake(s, f, key);
      assert !InTableFor(states[|steps|], f, key);
    }
  }

  /** The timeout's callback has been through: it has marked the call, and nobody is about to cancel the event. */
  ghost predicate CallbackOver(s: State, p: Pos)
    requires p.Armed?
  {
    p.info in s.infos && s.infos[p.info].cancelled && !Cancelling(s, p.key)
  }

  /** Whether the timeout is worth anything is settled when the event is added: from then on nothing but the event wakes
      the fiber, whatever happens, exactly if the callback was over before. */
  lemma LostExactlyAtAdd(s: State, w: nat)
    requires Reachable(s) && Enabled(s, AddEvent(w)) && PosOn(s, w).timer.Some?
    requires SoleCall(s, s.workers[w].pc.f, PosOn(s, w).key)
    ensures LeftToEvent(Apply(s, AddEvent(w)), s.workers[w].pc.f, PosOn(s, w).key) <==> CallbackOver(s, PosOn(s, w))
  {
    hide Reachable, LeftToEvent;
    var f, p, s' := s.workers[w].pc.f, PosOn(s, w), Apply(s, AddEvent(w));
    RunOn(s, AddEvent(w));
    LeftExactlyIfLost(s', f, p.key);
    forall g | g in s.fibers ensures s'.fibers[g].pos == Expiring(p.key) <==> s.fibers[g].pos == Expiring(p.key) {
    }
  }

  /** Such waits are reached: the run that loses a timeout ends in one. */
  lemma WaitCanBeLeft(key: Key) returns (s: State)
    ensures Reachable(s) && LeftToEvent(s, 0, key) && s.queue == [] && s.timers == map[] && s.active == 0
  {
    hide Reachable, LeftToEvent;
    s := TimeoutCanBeLost(key);
    LostIsLeft(s, 0, key);
  }

  // ---------- The manager can always come to its end ----------

  /** A run of such steps. */
  ghost predicate WindUp(states: seq<State>, steps: seq<Step>) {
    && |states| == |steps| + 1
    && forall i :: 0 <= i < |steps| ==>
         Enabled(states[i], steps[i]) && WindsUp(steps[i]) && states[i + 1] == Apply(states[i], steps[i])
  }

  lemma ReadyFalls(s: State, key: Key)
    requires Enabled(s, Ready(0, key)) && s.queue == []
    ensures Measure(ApplyIdle(s, Ready(0, key))) < Measure(s)
  {
    var s' := Trigger(s, 0, key);
    RegsSize(s.regs, key, UserCb);
    forall v | 0 < v < |s.workers| ensures Rank(s'.workers[v], s'.fibers) == Rank(s.workers[v], s.fibers) {
      if s.workers[v].pc.Running? {
        TriggerFrame(s, 0, key, s.workers[v].pc.f);
      }
    }
    MeasureFalls(s, s', 0);
  }

  lemma NothingLeft(s: State)
    requires Inv(s) && NoneBusy(s) && s.autoStop && s.stopRequested
    requires s.queue == [] && s.timers == map[] && s.regs == map[]
    ensures Stopping(s)
  {
    hide QueueInv, TableInv, WorkerInv, FibersInv, InfoInv, TimerInv, OverInv;
    NoneActive(s.workers);
  }

  lemma {:induction false} NoneActive(ws: seq<Worker>)
    requires forall w :: 0 <= w < |ws| ==> !Busy(ws[w])
    ensures Active(ws) == 0 && Owing(ws) == 0
    decreases |ws|
  {
    if ws != [] {
      var last := |ws| - 1;
      assert forall w :: 0 <= w < last ==> ws[..last][w] == ws[w];
      NoneActive(ws[..last]);
      assert !Busy(ws[last]);
    }
  }

  /** Before the end a worker that is not busy can take a step. */
  lemma QuietWindStep(s: State) returns (step: Step)
    requires Inv(s) && NoneBusy(s) && s.workers != [] && s.autoStop && s.stopRequested && !Stopping(s)
    ensures Enabled(s, step) && WindsUp(step) && Measure(Apply(s, step)) < Measure(s)
  {
    NotYetOver(s);
    if s.queue == [] && s.timers == map[] && s.workers[0].pc == Waiting {
      if s.regs == map[] {
        NothingLeft(s);
      }
      var key :| key in s.regs;
      assert !Busy(s.workers[0]);
      hide Inv, Measure;
      step := Ready(0, key);
      ReadyFalls(s, key);
    } else {
      var t := 0;
      if s.timers != map[] {
        t :| t in s.timers;
      }
      step := IdleStep(s, t);
      hide Measure, Enabled, Apply;
      IdleFalls(s, t);
    }
  }

  lemma WindStep(s: State) returns (step: Step)
    requires Reachable(s) && s.workers != [] && s.autoStop && s.stopRequested && !Stopping(s)
    ensures Enabled(s, step) && WindsUp(step) && Measure(Apply(s, step)) < Measure(s)
  {
    hide Reachable, Enabled, Apply, Measure, WindsUp, Busy, Inv, Good, Stopping;
    ReachableInv(s);
    if w :| 0 <= w < |s.workers| && Busy(s.workers[w]) {
      InvIsGood(s);
      step := BusyProgress(s, w, Key(0, READ));
    } else {
      step := QuietWindStep(s);
    }
  }

  /** No reachable state is a dead end: once the manager is asked to stop, its workers can bring it to the point where
      it may, if events become ready and user code ends. */
  lemma {:induction false} CanStop(s: State) returns (states: seq<State>, steps: seq<Step>)
    requires Reachable(s) && s.workers != [] && s.autoStop && s.stopRequested
    ensures WindUp(states, steps) && states[0] == s && Stopping(states[|steps|])
    decreases Measure(s)
  {
    hide Reachable, Enabled, Apply, Measure, WindsUp, Stopping;
    if Stopping(s) {
      states, steps := [s], [];
    } else {
      var step := WindStep(s);
      var s' := Apply(s, step);
      RunOn(s, step);
      ReachableInv(s);
      SameWorkers(s, step);
      StopAsked(s, step);
      var states', steps' := CanStop(s');
      states, steps := [s] + states', [step] + steps';
    }
  }

  lemma StopAsked(s: State, step: Step)
    requires Enabled(s, step) && s.autoStop && s.stopRequested
    ensures Apply(s, step).autoStop && Apply(s, step).stopRequested
  {
    StepLawful(s, step);
    hide Enabled, Apply;
  }
}

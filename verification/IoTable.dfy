/** The event table: `IOContext` (src/iocontext.cpp) and the part of `IOManager` that registers, cancels and delivers
    events (src/iomanager_epoll.cpp), each operation as the one locked step it is. */
module IoTable {
  import opened Wrappers
  import opened Tasks
  import opened Scheduler

  type Callback = t: Task | !t.FiberTask? witness UserCb

  /** Who waits for one event. */
  datatype Context = Context(scheduler: Scheduler?, fiber: Option<nat>, cb: Option<Callback>)

  const EMPTY := Context(null, None, None)

  function WaiterOf(c: Context): (t: Option<Task>)
  {
    if c.cb.Some? then Some(c.cb.value) else if c.fiber.Some? then Some(FiberTask(c.fiber.value)) else None
  }

  /** A context in use has a scheduler and exactly one of a fiber and a callback. */
  predicate InUse(c: Context) {
    c.scheduler != null && (c.fiber.Some? <==> c.cb.None?)
  }

  class IOContext {
    const fd: nat
    var event: set<Event>
    var read: Context
    var write: Context

    constructor (fd: nat)
      ensures this.fd == fd && event == {} && read == EMPTY && write == EMPTY
    {
      this.fd, event, read, write := fd, {}, EMPTY, EMPTY;
    }

    function Get(e: Event): Context
      reads this
    {
      if e.READ? then read else write
    }

    method Set(e: Event, c: Context)
      modifies this`read, this`write
      ensures Get(e) == c && forall o :: o != e ==> Get(o) == old(Get(o))
    {
      if e.READ? { read := c; } else { write := c; }
    }

    /** An event bit is set exactly when its context is in use, by scheduler `s`. */
    ghost predicate EventOk(e: Event, s: Scheduler)
      reads this
    {
      if e in event then InUse(Get(e)) && Get(e).scheduler == s else Get(e) == EMPTY
    }

    /** Clears the event bit and its context and schedules whoever waited for it. */
    method Trigger(e: Event, ghost s: Scheduler)
      requires e in event && EventOk(e, s)
      modifies this`event, this`read, this`write, s`fibers
      ensures event == old(event) - {e} && Get(e) == EMPTY && forall o :: o != e ==> Get(o) == old(Get(o))
      ensures s.fibers == old(s.fibers) + [old(WaiterOf(Get(e))).value]
    {
      event := event - {e};
      var ctx := Get(e);
      if ctx.cb.Some? {
        var tickled := ctx.scheduler.Schedule(Some(ctx.cb.value));
        Set(e, ctx.(cb := None));
      } else {
        var tickled := ctx.scheduler.Schedule(Some(FiberTask(ctx.fiber.value)));
        Set(e, ctx.(fiber := None));
      }
      Set(e, Get(e).(scheduler := null));
    }
  }

  /** What `epoll_wait` reports for a file descriptor. */
  datatype Readiness = Readiness(input: bool, output: bool, errorOrHangup: bool)

  datatype CtlOp = ADD | MOD | DEL

  /** The kernel's interest list: the mask each file descriptor is registered with. */
  class Epoll {
    var interest: map<nat, set<Event>>

    constructor ()
      ensures interest == map[]
    {
      interest := map[];
    }

    /** `epoll_ctl`: it fails with EEXIST or ENOENT when `op` does not fit the list, or for a reason of its own. */
    method Ctl(op: CtlOp, fd: nat, events: set<Event>, refused: bool) returns (ok: bool)
      modifies this
      ensures ok <==> !refused && (op.ADD? <==> fd !in old(interest))
      ensures !ok ==> interest == old(interest)
      ensures ok ==> interest == if op.DEL? then old(interest) - {fd} else old(interest)[fd := events]
    {
      ok := !refused && (op.ADD? <==> fd !in interest);
      if ok {
        interest := if op.DEL? then interest - {fd} else interest[fd := events];
      }
    }

    /** `epoll_wait` on a file descriptor in this condition: it reports nothing it was not asked for, but for errors. */
    method Wait(fd: nat, state: Readiness) returns (r: Option<Readiness>)
      ensures fd !in interest ==> r == None
      ensures fd in interest ==>
                r == Some(Readiness(state.input && READ in interest[fd], state.output && WRITE in interest[fd],
                                    state.errorOrHangup))
    {
      if fd !in interest {
        return None;
      }
      var asked := interest[fd];
      r := Some(Readiness(state.input && READ in asked, state.output && WRITE in asked, state.errorOrHangup));
    }
  }

  /** The events a report stands for, once an error or a hang-up has been turned into every registered event. */
  function RealEvents(r: Readiness, registered: set<Event>): (es: set<Event>)
    ensures READ in es <==> r.input || (r.errorOrHangup && READ in registered)
    ensures WRITE in es <==> r.output || (r.errorOrHangup && WRITE in registered)
  {
    (if r.input || (r.errorOrHangup && READ in registered) then {READ} else {})
    + (if r.output || (r.errorOrHangup && WRITE in registered) then {WRITE} else {})
  }

  /** A report is stale when every event in it has been handled already. */
  predicate Stale(r: Readiness, registered: set<Event>) {
    RealEvents(r, registered) !! registered
  }

  /** A report that makes the event loop trigger an event that is not registered, which the assertion in `trigger` does
      not allow. */
  predicate Unfit(r: Readiness, registered: set<Event>) {
    !Stale(r, registered) && !(RealEvents(r, registered) <= registered)
  }

  /** Exactly which reports are unfit: those that name both events although only one of them is still registered. That
      takes a report made when both were asked for, and that one of them has been taken away since. */
  lemma UnregisteredReport(r: Readiness, asked: set<Event>, registered: set<Event>)
    requires (r.input ==> READ in asked) && (r.output ==> WRITE in asked)
    ensures Unfit(r, registered)
        <==> ((registered == {READ} && (r.input || r.errorOrHangup) && r.output)
              || (registered == {WRITE} && (r.output || r.errorOrHangup) && r.input))
    ensures Unfit(r, registered) ==> registered != {} && !(asked <= registered)
  {
    var es := RealEvents(r, registered);
    if READ in registered && WRITE !in registered {
      SameMask(registered, {READ});
    } else if WRITE in registered && READ !in registered {
      SameMask(registered, {WRITE});
    }
    if READ in es && READ in registered {
      assert !(es !! registered);
    }
    if WRITE in es && WRITE in registered {
      assert !(es !! registered);
    }
    forall e | e in es && e !in registered ensures e == READ || e == WRITE {
    }
  }

  /** The registrations without events `es` of `fd`. */
  function Dropped(regs: map<Key, Task>, fd: nat, es: set<Event>): map<Key, Task> {
    map k | k in regs && !(k.fd == fd && k.event in es) :: regs[k]
  }

  /** The registered events of `fd`. */
  function Waited(regs: map<Key, Task>, fd: nat): set<Event> {
    (if Key(fd, READ) in regs then {READ} else {}) + (if Key(fd, WRITE) in regs then {WRITE} else {})
  }

  /** Who is queued when events `es` of `fd` are triggered: the reader first. */
  function Wakened(regs: map<Key, Task>, fd: nat, es: set<Event>): seq<Task>
    requires (READ in es ==> Key(fd, READ) in regs) && (WRITE in es ==> Key(fd, WRITE) in regs)
  {
    (if READ in es then [regs[Key(fd, READ)]] else []) + (if WRITE in es then [regs[Key(fd, WRITE)]] else [])
  }

  /** The reader is queued before the writer. */
  lemma AllWakened(regs: map<Key, Task>, fd: nat)
    ensures Wakened(regs, fd, Waited(regs, fd))
         == (if Key(fd, READ) in regs then [regs[Key(fd, READ)]] else [])
            + (if Key(fd, WRITE) in regs then [regs[Key(fd, WRITE)]] else [])
  {
  }

  /** A mask is its two bits. */
  lemma SameMask(a: set<Event>, b: set<Event>)
    requires (READ in a <==> READ in b) && (WRITE in a <==> WRITE in b)
    ensures a == b
  {
    forall e ensures e in a <==> e in b {
      assert e == READ || e == WRITE;
    }
  }

  /** Dropping events one after the other. */
  lemma DroppedBoth(regs: map<Key, Task>, fd: nat, es: set<Event>)
    ensures (if READ in es then Dropped(regs, fd, {READ}) else regs)
      == Dropped(regs, fd, es - {WRITE})
    ensures (if WRITE in es then Dropped(Dropped(regs, fd, es - {WRITE}), fd, {WRITE})
             else Dropped(regs, fd, es - {WRITE}))
      == Dropped(regs, fd, es)
  {
    SameMask(es - {WRITE}, if READ in es then {READ} else {});
    SameMask(es, es - {WRITE} + if WRITE in es then {WRITE} else {});
    if READ !in es {
      assert Dropped(regs, fd, {}) == regs;
    }
  }

  /** Dropping a registered event makes the table one smaller. */
  lemma DroppedOne(regs: map<Key, Task>, fd: nat, e: Event)
    requires Key(fd, e) in regs
    ensures |Dropped(regs, fd, {e})| == |regs| - 1
  {
    assert regs == Dropped(regs, fd, {e})[Key(fd, e) := regs[Key(fd, e)]];
  }

  /** What becomes of a report, in terms of its three flags and the registrations. */
  lemma ReportMeaning(r: Readiness, regs: map<Key, Task>, fd: nat)
    ensures Stale(r, Waited(regs, fd))
        <==> && !(Key(fd, READ) in regs && (r.input || r.errorOrHangup))
             && !(Key(fd, WRITE) in regs && (r.output || r.errorOrHangup))
    ensures !Stale(r, Waited(regs, fd)) ==>
              (Unfit(r, Waited(regs, fd))
               <==> (r.input && Key(fd, READ) !in regs) || (r.output && Key(fd, WRITE) !in regs))
    ensures !Stale(r, Waited(regs, fd)) && !Unfit(r, Waited(regs, fd)) ==>
              var es := RealEvents(r, Waited(regs, fd));
              && (READ in es <==> Key(fd, READ) in regs && (r.input || r.errorOrHangup))
              && (WRITE in es <==> Key(fd, WRITE) in regs && (r.output || r.errorOrHangup))
  {
    var es, ws := RealEvents(r, Waited(regs, fd)), Waited(regs, fd);
    assert (es !! ws) <==> !(READ in es && READ in ws) && !(WRITE in es && WRITE in ws);
    assert es <= ws <==> (READ in es ==> READ in ws) && (WRITE in es ==> WRITE in ws);
  }

  /** Whoever waited for a reported event is queued, and the other registrations stay. */
  lemma DeliveryMeaning(r: Readiness, regs: map<Key, Task>, regs': map<Key, Task>, fd: nat, queue: seq<Task>,
                        queue': seq<Task>)
    requires !Stale(r, Waited(regs, fd)) && !Unfit(r, Waited(regs, fd))
    requires var es := RealEvents(r, Waited(regs, fd));
      && (READ in es ==> Key(fd, READ) in regs) && (WRITE in es ==> Key(fd, WRITE) in regs)
      && regs' == Dropped(regs, fd, es) && queue' == queue + Wakened(regs, fd, es)
    ensures forall k :: k in regs ==>
              if k.fd == fd && ((k.event.READ? && r.input) || (k.event.WRITE? && r.output) || r.errorOrHangup)
              then k !in regs' && regs[k] in queue'
              else k in regs' && regs'[k] == regs[k]
    ensures queue' == queue
              + (if Key(fd, READ) in regs && (r.input || r.errorOrHangup) then [regs[Key(fd, READ)]] else [])
              + (if Key(fd, WRITE) in regs && (r.output || r.errorOrHangup) then [regs[Key(fd, WRITE)]] else [])
  {
    ReportMeaning(r, regs, fd);
    var es := RealEvents(r, Waited(regs, fd));
    hide RealEvents, Stale, Unfit, Waited;
    forall k | k in regs
      ensures if k.fd == fd && ((k.event.READ? && r.input) || (k.event.WRITE? && r.output) || r.errorOrHangup)
              then k !in regs' && regs[k] in queue'
              else k in regs' && regs'[k] == regs[k]
    {
      assert k.event == READ || k.event == WRITE;
      assert k == Key(k.fd, k.event);
      if k.fd == fd && k.event in es {
        assert regs[k] in Wakened(regs, fd, es);
      }
    }
  }

  /** Bit `e` of a context agrees with the registrations. */
  ghost predicate Registered(c: IOContext, e: Event, s: Scheduler, regs: map<Key, Task>)
    reads c
  {
    && c.EventOk(e, s) && (e in c.event <==> Key(c.fd, e) in regs)
    && (e in c.event ==> WaiterOf(c.Get(e)) == Some(regs[Key(c.fd, e)]))
  }

  /** A context agrees with the registrations, and its bits are the kernel's mask for its file descriptor. */
  ghost predicate Agrees(c: IOContext, s: Scheduler, regs: map<Key, Task>, interest: map<nat, set<Event>>)
    reads c
  {
    && Registered(c, READ, s, regs) && Registered(c, WRITE, s, regs)
    && (c.fd in interest <==> c.event != {}) && (c.fd in interest ==> interest[c.fd] == c.event)
  }

  /** What becomes of a report. */
  datatype Delivery = Ignored | Refused | Delivered | AssertionFails

  class IOManager {
    const scheduler: Scheduler
    const epoll: Epoll
    var contexts: seq<IOContext>
    var pending: nat
    ghost var regs: map<Key, Task>   // the registered events and who waits for each

    constructor (s: Scheduler)
      ensures Valid() && regs == map[] && pending == 0 && scheduler == s && |contexts| == 64
      ensures fresh(epoll) && forall i :: 0 <= i < |contexts| ==> fresh(contexts[i])
    {
      scheduler := s;
      epoll := new Epoll();
      contexts, pending, regs := [], 0, map[];
      new;
      Resize(64);
    }

    /** Context `i` is that of file descriptor `i` and agrees with the kernel. Outside of an operation the pending count
        is the number of event bits. */
    ghost predicate Valid()
      reads this, contexts, epoll
    {
      && (forall i :: 0 <= i < |contexts| ==>
            contexts[i].fd == i && Agrees(contexts[i], scheduler, regs, epoll.interest))
      && (forall k :: k in regs ==> k.fd < |contexts|)
      && (forall fd :: fd in epoll.interest ==> fd < |contexts|)
      && pending == |regs|
    }

    /** New contexts only; those there stay where they are. */
    method Resize(size: nat)
      requires size >= |contexts| && Valid()
      modifies this`contexts
      ensures Valid() && |contexts| == size && old(contexts) == contexts[..old(|contexts|)]
      ensures forall i :: old(|contexts|) <= i < size ==> fresh(contexts[i])
    {
      ghost var before := contexts;
      while |contexts| < size
        invariant |before| <= |contexts| <= size && before == contexts[..|before|]
        invariant forall i :: |before| <= i < |contexts| ==> fresh(contexts[i])
        invariant Valid()
      {
        var c := new IOContext(|contexts|);
        contexts := contexts + [c];
      }
    }

    /** The context of `fd`, for which the table grows to one and a half times `fd` if it must. */
    method Grow(fd: nat)
      requires Valid() && |contexts| >= 64
      modifies this`contexts
      ensures Valid() && fd < |contexts| && |contexts| >= old(|contexts|)
              && old(contexts) == contexts[..old(|contexts|)]
      ensures forall i :: old(|contexts|) <= i < |contexts| ==> fresh(contexts[i])
    {
      if |contexts| <= fd {
        Resize(fd * 3 / 2);
      }
    }

    /** Bits and kernel mask of one context have just come to agree with new registrations that differ in its events
        only. */
    twostate lemma OneChanged(fd: nat)
      requires old(Valid()) && fd < |contexts| && contexts == old(contexts)
      requires forall i :: 0 <= i < |contexts| && i != fd ==> unchanged(contexts[i])
      requires Agrees(contexts[fd], scheduler, regs, epoll.interest)
      requires forall k: Key :: k.fd != fd ==>
                 (k in regs <==> k in old(regs)) && (k in regs ==> regs[k] == old(regs)[k])
      requires forall i :: i != fd ==> (i in epoll.interest <==> i in old(epoll.interest))
      requires forall i :: i != fd && i in epoll.interest ==> epoll.interest[i] == old(epoll.interest)[i]
      requires pending == |regs|
      ensures Valid()
    {
      forall i | 0 <= i < |contexts|
        ensures contexts[i].fd == i && Agrees(contexts[i], scheduler, regs, epoll.interest)
      {
        assert old(Agrees(contexts[i], scheduler, regs, epoll.interest));
      }
    }

    /** `refused`: the kernel turns the request down for a reason other than its list. `cb`: the callback to queue, or
        the fiber `self` that is executing. Registering an event twice breaks an assertion of the original. */
    method Register(fd: nat, e: Event, cb: Option<Callback>, self: nat, refused: bool) returns (ok: bool)
      requires Valid() && fd < |contexts| && Key(fd, e) !in regs
      modifies this`pending, this`regs, epoll, contexts[fd]
      ensures Valid() && ok == !refused
      ensures regs == if ok then old(regs)[Key(fd, e) := if cb.Some? then cb.value else FiberTask(self)] else old(regs)
    {
      var c := contexts[fd];
      ok := epoll.Ctl(if c.event != {} then MOD else ADD, fd, c.event + {e}, refused);
      if !ok {
        return;
      }
      pending := pending + 1;
      c.event := c.event + {e};
      c.Set(e, if cb.Some? then Context(scheduler, None, cb) else Context(scheduler, Some(self), None));
      regs := regs[Key(fd, e) := if cb.Some? then cb.value else FiberTask(self)];
      OneChanged(fd);
    }

    method Add(fd: nat, e: Event, cb: Option<Callback>, self: nat, refused: bool) returns (ok: bool)
      requires Valid() && |contexts| >= 64 && Key(fd, e) !in regs
      modifies this, epoll, contexts
      ensures Valid() && |contexts| >= 64
      ensures forall c :: c in contexts ==> fresh(c) || c in old(contexts)
      ensures ok == !refused
      ensures regs == if ok then old(regs)[Key(fd, e) := if cb.Some? then cb.value else FiberTask(self)] else old(regs)
    {
      Grow(fd);
      ok := Register(fd, e, cb, self, refused);
    }

    /** Triggers events `es` of `fd`, the reader first, once the kernel's mask has been lowered. */
    method Fire(fd: nat, es: set<Event>)
      requires fd < |contexts| && contexts[fd].fd == fd && es <= contexts[fd].event && pending == |regs|
      requires Registered(contexts[fd], READ, scheduler, regs) && Registered(contexts[fd], WRITE, scheduler, regs)
      modifies this`pending, this`regs, contexts[fd], scheduler`fibers
      ensures contexts[fd].event == old(contexts[fd].event) - es
      ensures Registered(contexts[fd], READ, scheduler, regs) && Registered(contexts[fd], WRITE, scheduler, regs)
      ensures pending == |regs| && regs == Dropped(old(regs), fd, es)
      ensures scheduler.fibers == old(scheduler.fibers) + Wakened(old(regs), fd, es)
    {
      var c := contexts[fd];
      if READ in es {
        DroppedOne(regs, fd, READ);
        c.Trigger(READ, scheduler);
        pending := pending - 1;
        regs := Dropped(regs, fd, {READ});
      }
      if WRITE in es {
        DroppedOne(regs, fd, WRITE);
        c.Trigger(WRITE, scheduler);
        pending := pending - 1;
        regs := Dropped(regs, fd, {WRITE});
      }
      SameMask(c.event, old(c.event) - es);
      DroppedBoth(old(regs), fd, es);
    }

    /** Lowers the kernel's mask by `es`, then triggers them. */
    method Unregister(fd: nat, es: set<Event>, refused: bool) returns (ok: bool)
      requires Valid() && fd < |contexts| && es <= contexts[fd].event && contexts[fd].event != {}
      modifies this`pending, this`regs, epoll, contexts[fd], scheduler`fibers
      ensures Valid() && ok == !refused
      ensures regs == if ok then Dropped(old(regs), fd, es) else old(regs)
      ensures scheduler.fibers == old(scheduler.fibers) + (if ok then Wakened(old(regs), fd, es) else [])
    {
      var left := contexts[fd].event - es;
      ok := epoll.Ctl(if left != {} then MOD else DEL, fd, left, refused);
      if ok {
        Fire(fd, es);
        OneChanged(fd);
      }
    }

    /** `cancel` of one event queues whoever waits for it and forgets the registration. */
    method Cancel(fd: nat, e: Event, refused: bool) returns (ok: bool)
      requires Valid()
      modifies this`pending, this`regs, epoll, contexts, scheduler`fibers
      ensures Valid()
      ensures ok <==> Key(fd, e) in old(regs) && !refused
      ensures regs == if ok then Dropped(old(regs), fd, {e}) else old(regs)
      ensures scheduler.fibers == old(scheduler.fibers) + (if ok then [old(regs)[Key(fd, e)]] else [])
    {
      if |contexts| <= fd || e !in contexts[fd].event {
        return false;
      }
      ok := Unregister(fd, {e}, refused);
    }

    /** `cancel` of a whole file descriptor queues the reader, then the writer. */
    method CancelAll(fd: nat, refused: bool) returns (ok: bool)
      requires Valid()
      modifies this`pending, this`regs, epoll, contexts, scheduler`fibers
      ensures Valid()
      ensures ok <==> (Key(fd, READ) in old(regs) || Key(fd, WRITE) in old(regs)) && !refused
      ensures regs == if ok then Dropped(old(regs), fd, {READ, WRITE}) else old(regs)
      ensures scheduler.fibers == old(scheduler.fibers)
              + (if ok && Key(fd, READ) in old(regs) then [old(regs)[Key(fd, READ)]] else [])
              + (if ok && Key(fd, WRITE) in old(regs) then [old(regs)[Key(fd, WRITE)]] else [])
    {
      hide Wakened, WaiterOf, InUse;
      if |contexts| <= fd || contexts[fd].event == {} {
        return false;
      }
      ok := epoll.Ctl(DEL, fd, {}, refused);
      SameMask(contexts[fd].event, Waited(regs, fd));
      if ok {
        AllWakened(regs, fd);
        Fire(fd, contexts[fd].event);
        OneChanged(fd);
      }
    }

    /** What `epoll_wait` reports is among the registered events. */
    method ReportOf(fd: nat, state: Readiness) returns (r: Option<Readiness>)
      requires Valid()
      ensures r == if Waited(regs, fd) == {} then None
                   else Some(Readiness(state.input && READ in Waited(regs, fd),
                                       state.output && WRITE in Waited(regs, fd), state.errorOrHangup))
    {
      if fd < |contexts| {
        assert Agrees(contexts[fd], scheduler, regs, epoll.interest);
        SameMask(contexts[fd].event, Waited(regs, fd));
      }
      r := epoll.Wait(fd, state);
    }

    /** The body of the event loop for one report. A stale report of events another worker has handled is ignored; one
        that names an unregistered event next to a registered one runs into the assertion, once the kernel's mask has
        been lowered. */
    method Deliver(fd: nat, r: Readiness, refused: bool) returns (d: Delivery)
      requires Valid() && fd < |contexts|
      modifies this`pending, this`regs, epoll, contexts, scheduler`fibers
      ensures d == if Stale(r, Waited(old(regs), fd)) then Ignored else if refused then Refused
                   else if Unfit(r, Waited(old(regs), fd)) then AssertionFails else Delivered
      ensures d.Ignored?
          <==> && !(Key(fd, READ) in old(regs) && (r.input || r.errorOrHangup))
               && !(Key(fd, WRITE) in old(regs) && (r.output || r.errorOrHangup))
      ensures !d.Ignored? ==> (d.Refused? <==> refused)
      ensures !d.Ignored? && !refused ==>
                (d.AssertionFails?
                 <==> (r.input && Key(fd, READ) !in old(regs)) || (r.output && Key(fd, WRITE) !in old(regs)))
      ensures d.Delivered? ==> forall k :: k in old(regs) ==>
                if k.fd == fd && ((k.event.READ? && r.input) || (k.event.WRITE? && r.output) || r.errorOrHangup)
                then k !in regs && old(regs)[k] in scheduler.fibers
                else k in regs && regs[k] == old(regs)[k]
      ensures !d.AssertionFails? ==> Valid()
      ensures d.Delivered? ==>
                scheduler.fibers == old(scheduler.fibers)
                + (if Key(fd, READ) in old(regs) && (r.input || r.errorOrHangup)
                   then [old(regs)[Key(fd, READ)]] else [])
                + (if Key(fd, WRITE) in old(regs) && (r.output || r.errorOrHangup)
                   then [old(regs)[Key(fd, WRITE)]] else [])
      ensures d.Delivered? ==> regs == Dropped(old(regs), fd, RealEvents(r, Waited(old(regs), fd)))
      ensures !d.Delivered? ==> regs == old(regs) && scheduler.fibers == old(scheduler.fibers)
    {
      hide Wakened, Dropped;
      SameMask(contexts[fd].event, Waited(regs, fd));
      ReportMeaning(r, regs, fd);
      var reported := RealEvents(r, contexts[fd].event);
      if contexts[fd].event * reported == {} {
        return Ignored;
      }
      if !(reported <= contexts[fd].event) {
        var left := contexts[fd].event - reported;
        var ok := epoll.Ctl(if left != {} then MOD else DEL, fd, left, refused);
        return if ok then AssertionFails else Refused;
      }
      ghost var was, queued := regs, scheduler.fibers;
      var ok := Unregister(fd, reported, refused);
      d := if ok then Delivered else Refused;
      if ok {
        DeliveryMeaning(r, was, regs, fd, queued, scheduler.fibers);
      }
    }

    predicate Stopping(timers: set<nat>)
      reads this, scheduler
    {
      timers == {} && pending == 0 && scheduler.Stopping()
    }

    /** The manager cannot stop while an event is registered. */
    lemma StoppingHasNoEvents(timers: set<nat>)
      requires Valid() && Stopping(timers)
      ensures regs == map[] && epoll.interest == map[] && forall c :: c in contexts ==> c.event == {}
    {
      assert |regs| == 0;
      forall i | 0 <= i < |contexts| ensures contexts[i].event == {} && i !in epoll.interest {
        assert Agrees(contexts[i], scheduler, regs, epoll.interest);
        SameMask(contexts[i].event, {});
      }
    }
  }

  /** A manager whose descriptor `fd` has a reader and a writer. */
  method WithBoth(s: Scheduler, fd: nat, reader: nat, writer: nat) returns (m: IOManager)
    ensures fresh(m) && fresh(m.epoll) && m.scheduler == s
    ensures forall i :: 0 <= i < |m.contexts| ==> fresh(m.contexts[i])
    ensures m.Valid() && m.regs == map[Key(fd, READ) := FiberTask(reader), Key(fd, WRITE) := FiberTask(writer)]
  {
    m := new IOManager(s);
    var added := m.Add(fd, READ, None, reader, false);
    forall i | 0 <= i < |m.contexts| ensures fresh(m.contexts[i]) {
      assert m.contexts[i] in m.contexts;
    }
    added := m.Add(fd, WRITE, None, writer, false);
    forall i | 0 <= i < |m.contexts| ensures fresh(m.contexts[i]) {
      assert m.contexts[i] in m.contexts;
    }
  }

  /** The assertion can fail: a worker takes a report of both events of a descriptor, another thread cancels the reader,
      and then the worker looks at the report. */
  method UnregisteredReportArises(s: Scheduler, fd: nat, reader: nat, writer: nat) returns (d: Delivery)
    modifies s`fibers
    ensures d == AssertionFails
  {
    var m := WithBoth(s, fd, reader, writer);
    var r := m.ReportOf(fd, Readiness(true, true, false));
    var cancelled := m.Cancel(fd, READ, false);
    SameMask(Waited(m.regs, fd), {WRITE});
    UnregisteredReport(r.value, {READ, WRITE}, Waited(m.regs, fd));
    d := m.Deliver(fd, r.value, false);
  }
}

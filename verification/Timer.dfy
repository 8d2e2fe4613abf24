/** Timers in an ordered set whose keys are mutable deadlines (src/timer.cpp). The clock is a parameter that never runs
    backwards; each operation is the one locked step it is. */
module Timer {
  import opened Wrappers

  const TWO64: nat := 0x1_0000_0000_0000_0000
  type uint64 = n: int | 0 <= n < 0x1_0000_0000_0000_0000

  /** A deadline and the address that breaks ties. */
  datatype Key = Key(next: uint64, id: nat)

  /** `Comparator`: null first, then by deadline, then by address. */
  predicate Less(x: Option<Key>, y: Option<Key>) {
    if x.None? && y.None? then false
    else if x.None? then true
    else if y.None? then false
    else if x.value.next < y.value.next then true
    else if y.value.next < x.value.next then false
    else x.value.id < y.value.id
  }

  lemma LessIsStrictTotalOrder(x: Option<Key>, y: Option<Key>, z: Option<Key>)
    ensures !Less(x, x)
    ensures Less(x, y) && Less(y, z) ==> Less(x, z)
    ensures x == y || (Less(x, y) <==> !Less(y, x))
  {
  }

  function KeyOf(t: Timer): Option<Key>
    reads t
  {
    Some(Key(t.next, t.id))
  }

  ghost predicate Sorted(timers: seq<Timer>)
    reads timers
  {
    forall i, j :: 0 <= i < j < |timers| ==> Less(KeyOf(timers[i]), KeyOf(timers[j]))
  }

  /** A sorted set has no timer twice, so that its two halves are apart. */
  lemma Halves(timers: seq<Timer>, n: nat)
    requires Sorted(timers) && n <= |timers|
    ensures Sorted(timers[..n]) && Sorted(timers[n..])
    ensures forall t :: t in timers <==> t in timers[..n] || t in timers[n..]
    ensures forall t :: t in timers[..n] ==> t !in timers[n..]
    ensures forall i, j :: 0 <= i < j < |timers| ==> timers[i] != timers[j]
  {
  }

  /** How many timers at the head of the set are due at `now`. */
  ghost function Due(timers: seq<Timer>, now: uint64): (n: nat)
    reads timers
    ensures n <= |timers|
  {
    if timers == [] || timers[0].next > now then 0 else 1 + Due(timers[1..], now)
  }

  /** In a sorted set the due timers are exactly those at the head. */
  lemma {:induction false} DueIsHead(timers: seq<Timer>, now: uint64)
    requires Sorted(timers)
    ensures forall k :: 0 <= k < |timers| ==> (timers[k].next <= now <==> k < Due(timers, now))
  {
    if timers != [] && timers[0].next <= now {
      var rest := timers[1..];
      assert forall i, j :: 0 <= i < j < |rest| ==> Less(KeyOf(rest[i]), KeyOf(rest[j])) by {
        assert forall i :: 0 <= i < |rest| ==> rest[i] == timers[i + 1];
      }
      DueIsHead(rest, now);
      forall k | 0 <= k < |timers| ensures timers[k].next <= now <==> k < Due(timers, now) {
        assert k > 0 ==> timers[k] == rest[k - 1];
      }
    } else {
      forall k | 0 <= k < |timers| ensures timers[k].next > now {
        assert k > 0 ==> Less(KeyOf(timers[0]), KeyOf(timers[k]));
      }
    }
  }

  /** No recurring timer that is due gets its next deadline by wrapping around. */
  ghost predicate NoWrap(timers: seq<Timer>, now: uint64)
    reads timers
  {
    forall t :: t in timers && t.next <= now && t.recurring ==> now + t.ms < TWO64
  }

  /** A deadline `ms` milliseconds from now, in 64 bits. */
  function Deadline(now: uint64, ms: uint64): (d: uint64)
    ensures now + ms < 0x1_0000_0000_0000_0000 ==> d == now + ms
    ensures now + ms >= 0x1_0000_0000_0000_0000 ==> d == now + ms - 0x1_0000_0000_0000_0000
  {
    (now + ms) % TWO64
  }

  class TimerManager {
    var timers: seq<Timer>             // `m_timers`, in the order of the set
    var tickled: bool
    ghost var all: set<Timer>          // every live timer of this manager
    ghost var clock: uint64            // the last time read
    ghost var reported: nat            // the deadline last reported by `getNextTimer`, or TWO64 for none

    constructor ()
      ensures Valid() && Covered() && timers == [] && all == {} && !tickled && clock == 0
    {
      timers, tickled, all, clock, reported := [], false, {}, 0, 0;
    }

    /** A timer has its callback exactly while it is in the set, and the set is in order. The timers in `out` have been
        taken out of the set for a moment. */
    ghost predicate ValidBut(out: set<Timer>)
      reads this, all
    {
      && (forall t :: t in timers ==> t in all && t !in out)
      && (forall t :: t in all ==> t.manager == this && (t.cb.Some? <==> t in timers || t in out))
      && (forall t, u :: t in all && u in all && t != u ==> t.id != u.id)
      && out <= all && Sorted(timers)
      && (forall t :: t in all && t.cb.Some? ==> t.next <= clock + t.ms)
    }

    ghost predicate Valid()
      reads this, all
    {
      ValidBut({})
    }

    /** No wake-up is lost: nothing stored is due before the deadline last reported, unless a tickle was issued
        since. */
    ghost predicate Covered()
      reads this, timers
    {
      tickled || forall t :: t in timers ==> t.next >= reported
    }

    /** `lower_bound`: the first position whose timer is not before `key`. */
    method LowerBound(key: Key) returns (it: nat)
      requires Sorted(timers)
      ensures it <= |timers|
      ensures forall k :: 0 <= k < it ==> Less(KeyOf(timers[k]), Some(key))
      ensures forall k :: it <= k < |timers| ==> !Less(KeyOf(timers[k]), Some(key))
    {
      it := 0;
      while it < |timers| && Less(KeyOf(timers[it]), Some(key))
        invariant it <= |timers|
        invariant forall k :: 0 <= k < it ==> Less(KeyOf(timers[k]), Some(key))
      {
        it := it + 1;
      }
    }

    /** `find`: the position of `t`, or the end. */
    method Find(t: Timer) returns (it: nat)
      requires Valid() && t in all
      ensures if t in timers then it < |timers| && timers[it] == t else it == |timers|
    {
      it := LowerBound(Key(t.next, t.id));
      if it < |timers| && Less(Some(Key(t.next, t.id)), KeyOf(timers[it])) {
        it := |timers|;
      }
    }

    /** `erase` of one position. */
    method Erase(it: nat)
      requires it < |timers| && Sorted(timers)
      modifies this`timers
      ensures timers == old(timers[..it] + timers[it + 1..]) && Sorted(timers)
      ensures forall t :: t in timers <==> t in old(timers) && t != old(timers[it])
    {
      timers := timers[..it] + timers[it + 1..];
    }

    /** `insert`; `it` is where the timer is now. */
    method Insert(t: Timer) returns (it: nat)
      requires Sorted(timers) && forall u :: u in timers ==> u.id != t.id
      modifies this`timers
      ensures it <= |old(timers)| && timers == old(timers[..it] + [t] + timers[it..]) && Sorted(timers)
      ensures forall u :: u in timers <==> u in old(timers) || u == t
    {
      it := LowerBound(Key(t.next, t.id));
      timers := timers[..it] + [t] + timers[it..];
    }

    /** The inner `addTimer`: a timer that becomes the first tickles an idle worker, unless one has been tickled
        since it last asked for the next deadline. */
    method Store(val: Timer) returns (notified: bool)
      requires ValidBut({val})
      modifies this`timers, this`tickled
      ensures Valid() && (old(Covered()) ==> Covered())
      ensures forall t :: t in timers <==> t in old(timers) || t == val
      ensures notified == (!old(tickled) && timers[0] == val) && tickled == (old(tickled) || notified)
    {
      var it := Insert(val);
      if it != 0 {
        assert timers[0] == old(timers)[0] && timers[it] == val;
        assert Less(KeyOf(timers[0]), KeyOf(timers[it]));
      }
      notified := it == 0 && !tickled;
      if notified {
        tickled := true;
      }
    }

    /** `addTimer`. The address `id` is that of no other live timer. */
    method AddTimer(id: nat, ms: uint64, cb: nat, recurring: bool, now: uint64) returns (t: Timer, notified: bool)
      requires Valid() && now >= clock && forall u :: u in all ==> u.id != id
      modifies this
      ensures Valid() && (old(Covered()) ==> Covered()) && fresh(t) && all == old(all) + {t} && clock == now
      ensures t.next == Deadline(now, ms) && t.ms == ms && t.cb == Some(cb) && t.recurring == recurring
      ensures forall u :: u in timers <==> u in old(timers) || u == t
      ensures notified == (!old(tickled) && timers[0] == t) && tickled == (old(tickled) || notified)
      ensures reported == old(reported)
    {
      t := new Timer(id, ms, cb, recurring, this, now);
      clock, all := now, all + {t};
      notified := Store(t);
    }

    /** Puts a timer that is due back with its next deadline, or ends it. */
    method Rearm(t: Timer, now: uint64, ghost out: set<Timer>)
      requires ValidBut(out) && t in out && clock == now
      modifies this`timers, t`next, t`cb
      ensures ValidBut(out - {t})
      ensures if t.recurring then t.next == Deadline(now, t.ms) && t.cb == old(t.cb) else t.cb == None
      ensures forall u :: u in timers <==> u in old(timers) || (u == t && t.recurring)
      ensures old(Covered()) && (tickled || reported <= now) && (t.recurring ==> now + t.ms < TWO64) ==> Covered()
    {
      if t.recurring {
        t.next := Deadline(now, t.ms);
        var it := Insert(t);
      } else {
        t.cb := None;
      }
    }

    /** The end of the due timers. `addr` is the address of the timer that the set is searched with. */
    method EndOfDue(now: uint64, addr: nat) returns (it: nat)
      requires Sorted(timers)
      ensures it == Due(timers, now)
    {
      it := LowerBound(Key(now, addr));
      while it < |timers| && timers[it].next == now
        invariant it <= |timers| && (it > 0 ==> timers[it - 1].next <= now)
        invariant it < |timers| ==> timers[it].next >= now
      {
        it := it + 1;
        assert it < |timers| ==> Less(KeyOf(timers[it - 1]), KeyOf(timers[it]));
      }
      DueIsHead(timers, now);
    }

    /** Takes the due timers out of the set. */
    method TakeDue(now: uint64, addr: nat) returns (expired: seq<Timer>)
      requires Valid() && clock <= now
      modifies this`timers, this`clock
      ensures clock == now && ValidBut(set t | t in expired)
      ensures expired == old(timers[..Due(timers, now)]) && timers == old(timers[Due(timers, now)..])
    {
      clock := now;
      var it := EndOfDue(now, addr);
      Halves(timers, it);
      expired := timers[..it];
      timers := timers[it..];
    }

    /** A due timer starts again if it is recurring, and is over otherwise. */
    twostate predicate Rearmed(t: Timer, now: uint64)
      reads t
    {
      t.ms == old(t.ms) && if t.recurring then t.next == Deadline(now, t.ms) && t.cb == old(t.cb) else t.cb == None
    }

    /** The loop of `listExpiredCb` over the timers taken out. */
    method RearmAll(expired: seq<Timer>, now: uint64) returns (cbs: seq<nat>)
      requires ValidBut(set t | t in expired) && clock == now
      requires forall i, j :: 0 <= i < j < |expired| ==> expired[i] != expired[j]
      modifies this`timers, expired
      ensures Valid() && |cbs| == |expired| && forall k :: 0 <= k < |expired| ==> Some(cbs[k]) == old(expired[k].cb)
      ensures forall k :: 0 <= k < |expired| ==> Rearmed(expired[k], now)
      ensures forall t :: t in timers <==> t in old(timers) || (t in expired && t.recurring)
    {
      cbs := [];
      ghost var out := set t | t in expired;
      var i := 0;
      while i < |expired|
        invariant 0 <= i <= |expired| == |expired| && |cbs| == i
        invariant forall t :: t in out <==> t in expired[i..]
        invariant ValidBut(out)
        invariant forall k :: 0 <= k < i ==> Some(cbs[k]) == old(expired[k].cb)
        invariant forall k :: 0 <= k < i ==> Rearmed(expired[k], now)
        invariant forall k :: i <= k < |expired| ==> unchanged(expired[k])
        invariant forall t :: t in timers <==> t in old(timers) || (t in expired[..i] && t.recurring)
      {
        var t := expired[i];
        assert t in expired[i..];
        cbs := cbs + [t.cb.value];
        Rearm(t, now, out);
        out := out - {t};
        i := i + 1;
      }
    }

    /** The callbacks of exactly the timers due at `now`, in the order of their deadlines; the recurring ones have
        started again, the others are over, and the rest are as they were. */
    twostate predicate Fired(was: seq<Timer>, n: nat, now: uint64, cbs: seq<nat>)
      reads this`timers, was
    {
      && |cbs| == n <= |was| && (forall k :: 0 <= k < n ==> Some(cbs[k]) == old(was[k].cb))
      && (forall k :: 0 <= k < n ==> old(was[k].next) <= now && Rearmed(was[k], now))
      && (forall k :: n <= k < |was| ==> old(was[k].next) > now && unchanged(was[k]))
      && (forall k :: 0 <= k < |was| ==> (was[k] in timers <==> k >= n || was[k].recurring))
      && forall t :: t in timers ==>
           t in was && if old(t.next) > now then unchanged(t) else t.recurring && Rearmed(t, now)
    }

    /** `listExpiredCb` once a timer is known to be due. */
    method FireDue(now: uint64, addr: nat) returns (cbs: seq<nat>)
      requires Valid() && clock <= now
      modifies this`timers, this`clock, timers
      ensures Valid() && Fired(old(timers), old(Due(timers, now)), now, cbs)
    {
      hide Covered, Sorted, Less, Due, Deadline;
      ghost var was, n := timers, Due(timers, now);
      Halves(timers, n);
      DueIsHead(timers, now);
      var expired := TakeDue(now, addr);
      assert forall k :: n <= k < |was| ==> was[k] in was[n..];
      cbs := RearmAll(expired, now);
      forall k | 0 <= k < n ensures old(was[k].next) <= now && Rearmed(was[k], now) && Some(cbs[k]) == old(was[k].cb) {
        assert was[k] == expired[k];
      }
      forall k | n <= k < |was| ensures old(was[k].next) > now && unchanged(was[k]) {
        assert was[k] !in expired;
      }
    }

    /** `listExpiredCb`. */
    method ListExpiredCb(now: uint64, addr: nat) returns (cbs: seq<nat>)
      requires Valid() && clock <= now
      modifies this`timers, this`clock, timers
      ensures Valid() && Fired(old(timers), old(Due(timers, now)), now, cbs)
      ensures |cbs| <= |old(timers)|
      ensures forall k :: 0 <= k < |old(timers)| ==> (old(timers[k].next) <= now <==> k < |cbs|)
      ensures forall k :: 0 <= k < |cbs| ==> Some(cbs[k]) == old(timers[k].cb)
      ensures forall k :: 0 <= k < |old(timers)| ==>
                var t := old(timers[k]);
                && (t in timers <==> old(timers[k].next) > now || t.recurring)
                && (t in timers && k < |cbs| ==> t.next == Deadline(now, t.ms) && t.cb == old(timers[k].cb))
                && (t !in timers ==> t.cb == None)
      ensures old(Covered())
              && (forall t :: t in old(timers) && old(t.next) <= now && t.recurring ==> now + t.ms < TWO64)
          ==> Covered()
    {
      if timers == [] || timers[0].next > now {
        DueIsHead(timers, now);
        cbs := [];
      } else {
        cbs := FireDue(now, addr);
      }
    }

    /** `getNextTimer`: the time until the first deadline, none at all if the set is empty. */
    method GetNextTimer(now: uint64) returns (timeout: uint64)
      requires Valid() && now >= clock
      modifies this`tickled, this`clock, this`reported
      ensures Valid() && Covered() && !tickled && clock == now
      ensures reported == if timers == [] then TWO64 else timers[0].next
      ensures timeout == if timers == [] then TWO64 - 1 else if now >= timers[0].next then 0 else timers[0].next - now
      ensures forall t :: t in timers ==> now + timeout <= t.next || timeout == 0
    {
      tickled, clock, reported := false, now, TWO64;
      if timers == [] {
        return TWO64 - 1;
      }
      reported := timers[0].next;
      timeout := if now >= timers[0].next then 0 else timers[0].next - now;
    }
  }

  class Timer {
    const id: nat
    const recurring: bool
    const manager: TimerManager
    var ms: uint64
    var next: uint64
    var cb: Option<nat>

    constructor (id: nat, ms: uint64, cb: nat, recurring: bool, manager: TimerManager, now: uint64)
      ensures this.id == id && this.ms == ms && this.cb == Some(cb) && this.recurring == recurring
      ensures this.manager == manager && next == Deadline(now, ms)
    {
      this.id, this.ms, this.cb, this.recurring, this.manager := id, ms, Some(cb), recurring, manager;
      next := Deadline(now, ms);
    }

    /** Takes the timer out of the set for good; a timer that has fired or been cancelled stays as it is. */
    method Cancel() returns (ok: bool)
      requires manager.Valid() && this in manager.all
      modifies this`cb, manager`timers
      ensures manager.Valid() && (old(manager.Covered()) ==> manager.Covered())
      ensures ok == old(cb).Some? && cb == None
      ensures forall t :: t in manager.timers <==> t in old(manager.timers) && t != this
    {
      ok := cb.Some?;
      if ok {
        var it := manager.Find(this);
        manager.Erase(it);
        cb := None;
      }
    }

    /** Takes the timer out to change its key. */
    method Withdraw() returns (ok: bool)
      requires manager.Valid() && this in manager.all
      modifies manager`timers
      ensures ok == cb.Some? && (ok ==> manager.ValidBut({this})) && (!ok ==> manager.Valid())
      ensures old(manager.Covered()) ==> manager.Covered()
      ensures forall t :: t in manager.timers <==> t in old(manager.timers) && t != this
    {
      if cb == None {
        return false;
      }
      var it := manager.Find(this);
      if it == |manager.timers| {
        return false;
      }
      manager.Erase(it);
      ok := true;
    }

    /** Starts the timer's interval again from now. It tickles nobody: the deadline can only get later, as long as it
        does not wrap around. */
    method Refresh(now: uint64) returns (ok: bool)
      requires manager.Valid() && this in manager.all && now >= manager.clock
      modifies this`next, manager`timers, manager`clock
      ensures ok ==> manager.clock == now
      ensures manager.Valid() && (old(manager.Covered()) && now + ms < TWO64 ==> manager.Covered())
      ensures old(manager.Covered()) ==>
                (manager.Covered() <==> manager.tickled || !ok || next >= manager.reported)
      ensures ok == cb.Some? && next == if ok then Deadline(now, ms) else old(next)
      ensures forall t :: t in manager.timers <==> t in old(manager.timers)
    {
      ok := Withdraw();
      if ok {
        manager.clock := now;
        next := Deadline(now, ms);
        var it := manager.Insert(this);
      }
    }

    /** Gives the timer a new interval, which may make it the first. */
    method Reset(ms: uint64, now: uint64) returns (ok: bool, notified: bool)
      requires manager.Valid() && this in manager.all && now >= manager.clock
      modifies this`next, this`ms, manager`timers, manager`clock, manager`tickled
      ensures manager.Valid() && (old(manager.Covered()) ==> manager.Covered())
      ensures ok == cb.Some? && (ok ==> this.ms == ms && next == Deadline(now, ms))
      ensures !ok ==> this.ms == old(this.ms) && next == old(next)
      ensures notified == (ok && !old(manager.tickled) && manager.timers[0] == this)
      ensures manager.tickled == (old(manager.tickled) || notified)
      ensures forall t :: t in manager.timers <==> t in old(manager.timers)
    {
      notified := false;
      ok := Withdraw();
      if ok {
        manager.clock := now;
        this.ms := ms;
        next := Deadline(now, ms);
        notified := manager.Store(this);
      }
    }
  }

  /** Without that condition a wake-up can be lost: an interval near 2^64 wraps around on refresh to a deadline that has
      passed, while the idle worker still waits for the one reported before. */
  method RefreshCanWrap() returns (m: TimerManager)
    ensures m.Valid() && m.timers != [] && m.timers[0].next < m.clock && !m.Covered()
  {
    m := new TimerManager();
    assert m.clock == 0;
    var t, notified := m.AddTimer(0, TWO64 - 1, 0, false, 0);
    var timeout := m.GetNextTimer(0);
    var ok := t.Refresh(1);
    assert t in m.timers;
  }
}

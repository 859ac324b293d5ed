/** class TimerManager and the methods of Timer that change it (sylar/timer.cc, sylar/timer.h).

    The timers are kept by address in `objs`; `order` is the std::set. Clock readings are parameters, and a result
    `woke` tells whether onTimerInsertedAtFront was called. */
module TimerManagers {
  import opened Bits
  import opened Tasks
  import opened Timers

  class TimerManager {
    var objs: Objects
    var order: Order
    var tickled: bool
    var previous: nat

    function Model(): Manager
      reads this
    {
      Manager(objs, order, tickled, previous)
    }

    constructor (now: nat)
      ensures Model() == Manager(map[], [], false, now) && Valid(Model())
    {
      objs, order, tickled, previous := map[], [], false, now;
    }

    /** addTimer(timer, lock) */
    method InsertAndTickle(a: nat) returns (woke: bool)
      requires Known(objs, order) && a in objs
      modifies this
      ensures (Model(), woke) == InsertTimer(old(Model()), a)
    {
      order := Insert(objs, order, a);
      woke := |order| > 0 && order[0] == a && !tickled;
      if woke {
        tickled := true;
      }
    }

    method Schedule(a: nat, ms: nat, cb: Option<nat>, recurring: bool, start: nat) returns (woke: bool)
      requires Ordered(Model()) && a !in order
      modifies this
      ensures (Model(), woke) == AddTimer(old(Model()), a, ms, cb, recurring, start)
      ensures Ordered(Model()) && (Valid(Model()) <==> old(Valid(Model())) && cb.Some?)
    {
      AddTimerKeeps(Model(), a, ms, cb, recurring, start);
      objs := objs[a := Timer(recurring, ms, Wrap(start + ms), cb)];
      woke := InsertAndTickle(a);
    }

    method CancelTimer(a: nat) returns (ok: bool)
      requires Ordered(Model()) && a in objs
      modifies this
      ensures (Model(), ok) == Cancel(old(Model()), a)
      ensures Ordered(Model()) && (ok <==> old(objs)[a].cb.Some?)
      ensures old(Valid(Model())) ==> Valid(Model()) && a !in order && (ok <==> a in old(order))
    {
      CancelKeeps(Model(), a);
      if objs[a].cb.None? {
        return false;
      }
      objs := objs[a := objs[a].(cb := None)];
      order := Erase(order, Find(objs, order, a));
      return true;
    }

    /** m_timers.erase(it) */
    method Remove(i: nat)
      requires Known(objs, order) && i < |order|
      modifies this`order
      ensures order == Erase(old(order), i) && Known(objs, order)
    {
      order := order[..i] + order[i + 1..];
    }

    method RefreshTimer(a: nat, now: nat) returns (ok: bool)
      requires Ordered(Model()) && a in objs
      modifies this
      ensures (Model(), ok) == Refresh(old(Model()), a, now) && Ordered(Model())
      ensures a in objs && (ok && now + objs[a].ms < U64 ==> objs[a] == old(objs)[a].(next := now + objs[a].ms))
    {
      RefreshKeeps(Model(), a, now);
      ok := RefreshInPlace(a, now);
    }

    method RefreshInPlace(a: nat, now: nat) returns (ok: bool)
      requires Known(objs, order) && a in objs
      modifies this
      ensures (Model(), ok) == Refresh(old(Model()), a, now)
    {
      var i := Find(objs, order, a);
      if objs[a].cb.None? || i == |order| {
        return false;
      }
      Remove(i);
      objs := objs[a := objs[a].(next := Wrap(now + objs[a].ms))];
      order := Insert(objs, order, a);
      return true;
    }

    method ResetTimer(a: nat, ms: nat, fromNow: bool, now: nat) returns (ok: bool, woke: bool)
      requires Ordered(Model()) && a in objs
      modifies this
      ensures (Model(), ok, woke) == Reset(old(Model()), a, ms, fromNow, now) && Ordered(Model())
      ensures objs.Keys == old(objs).Keys && forall x :: x in objs && x != a ==> objs[x] == old(objs)[x]
      ensures if Moves(old(objs)[a], ms, fromNow) then MovedTo(old(objs)[a], objs[a], ms, fromNow, now)
              else Model() == old(Model())
    {
      ResetMeans(Model(), a, ms, fromNow, now);
      ResetKeeps(Model(), a, ms, fromNow, now);
      ok, woke := ResetInPlace(a, ms, fromNow, now);
    }

    method ResetInPlace(a: nat, ms: nat, fromNow: bool, now: nat) returns (ok: bool, woke: bool)
      requires Known(objs, order) && a in objs
      modifies this
      ensures (Model(), ok, woke) == Reset(old(Model()), a, ms, fromNow, now)
    {
      if ms == objs[a].ms && !fromNow {
        return true, false;
      }
      var i := Find(objs, order, a);
      if objs[a].cb.None? || i == |order| {
        return false, false;
      }
      Remove(i);
      var start := if fromNow then now else Wrap(objs[a].next - objs[a].ms);
      var t := objs[a].(ms := ms, next := Wrap(start + ms));
      assert t == ResetTo(objs[a], ms, fromNow, now);
      objs := objs[a := t];
      ghost var m1 := Model();
      woke := InsertAndTickle(a);
      assert m1 == old(Model()).(objs := old(objs)[a := t], order := Erase(old(order), i));
      return true, woke;
    }

    method NextTimer(now: nat) returns (wait: Option<nat>)
      requires Ordered(Model())
      modifies this
      ensures (Model(), wait) == GetNextTimer(old(Model()), now)
    {
      tickled := false;
      if order == [] {
        return None;
      }
      var next := objs[order[0]].next;
      return Some(if now >= next then 0 else next - now);
    }

    /** detectedClockRollover: the reading is remembered, and is a rollover when it is more than an hour behind, or
        behind at all in the first hour. */
    method DetectRollover(now: nat) returns (rollover: bool)
      modifies this`previous
      ensures previous == now && rollover == Rollover(old(Model()), now)
      ensures old(previous) < U64 ==>
                (rollover <==> now < old(previous) && (old(previous) < 3_600_000 || old(previous) - now > 3_600_000))
    {
      if previous < U64 {
        RolloverMeaning(Model(), now);
      }
      rollover := now < previous && now < Wrap(previous - HOUR_MS);
      previous := now;
    }

    /** The loop that passes over the timers due exactly now. */
    method PassDue(now: nat, start: nat) returns (it: nat)
      requires Known(objs, order) && start <= |order|
      ensures it == SkipDue(objs, order, now, start)
    {
      it := start;
      while it < |order| && objs[order[it]].next == now
        invariant start <= it <= |order|
        invariant SkipDue(objs, order, now, start) == SkipDue(objs, order, now, it)
      {
        it := it + 1;
      }
    }

    /** One turn of the loop over the expired timers. */
    method TakeCallback(a: nat, now: nat) returns (cb: Option<nat>)
      requires Known(objs, order) && a in objs
      modifies this`objs, this`order
      ensures cb == old(objs[a].cb)
      ensures (objs, order) == RearmOne(old(objs), old(order), a, now)
    {
      cb := objs[a].cb;
      if objs[a].recurring {
        objs := objs[a := objs[a].(next := Wrap(now + objs[a].ms))];
        order := Insert(objs, order, a);
      } else {
        objs := objs[a := objs[a].(cb := None)];
      }
    }

    method TakeCallbacks(expired: seq<nat>, now: nat) returns (cbs: seq<Option<nat>>)
      requires Known(objs, order) && Known(objs, expired) && Distinct(expired)
      modifies this`objs, this`order
      ensures cbs == Callbacks(old(objs), expired)
      ensures (objs, order) == Rearm(old(objs), old(order), expired, now)
    {
      cbs := [];
      var i := 0;
      while i < |expired|
        invariant 0 <= i <= |expired| && |cbs| == i
        invariant objs.Keys == old(objs.Keys) && Known(objs, order)
        invariant forall j :: 0 <= j < i ==> cbs[j] == old(objs)[expired[j]].cb
        invariant forall j :: i <= j < |expired| ==> objs[expired[j]].cb == old(objs)[expired[j]].cb
        invariant Rearm(objs, order, expired[i..], now) == Rearm(old(objs), old(order), expired, now)
      {
        assert expired[i..][0] == expired[i] && expired[i..][1..] == expired[i + 1..];
        var cb := TakeCallback(expired[i], now);
        cbs := cbs + [cb];
        i := i + 1;
      }
    }

    method ListExpiredCb(now: nat, probe: nat) returns (cbs: seq<Option<nat>>)
      requires Ordered(Model())
      modifies this
      ensures (Model(), cbs) == ListExpired(old(Model()), now, probe)
    {
      cbs := [];
      if order == [] {
        return;
      }
      var rollover := DetectRollover(now);
      if !rollover && objs[order[0]].next > now {
        return;
      }
      var it := if rollover then |order| else LowerBound(objs, order, Key(now, probe));
      it := PassDue(now, it);
      SortedParts(objs, order, it);
      var expired := order[..it];
      order := order[it..];
      cbs := TakeCallbacks(expired, now);
    }
  }
}

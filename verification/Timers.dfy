/** TimerManager and Timer (sylar/timer.cc): a std::set ordered by a field of its elements, rescheduled in place.

    Timers are named by their address; clock readings and intervals are milliseconds in a uint64_t. */
module Timers {
  import opened Bits
  import opened Tasks

  const HOUR_MS: nat := 60 * 60 * 1000

  function Wrap(n: int): (r: nat)
    ensures r < U64 && (0 <= n < U64 ==> r == n)
  {
    n % U64
  }

  datatype Timer = Timer(recurring: bool, ms: nat, next: nat, cb: Option<nat>)

  /** What the comparator looks at. */
  datatype Key = Key(next: nat, addr: nat)

  /** Timer::Comparator, with its treatment of null pointers. */
  predicate Precedes(lhs: Option<Key>, rhs: Option<Key>) {
    match (lhs, rhs)
    case (None, _) => rhs.Some?
    case (Some(_), None) => false
    case (Some(l), Some(r)) => Less(l, r)
  }

  predicate Less(l: Key, r: Key) {
    l.next < r.next || (l.next == r.next && l.addr < r.addr)
  }

  /** The comparator is a strict total order, nulls included, so std::set may rely on it. */
  lemma ComparatorIsStrictTotalOrder(a: Option<Key>, b: Option<Key>, c: Option<Key>)
    ensures !Precedes(a, a)
    ensures Precedes(a, b) && Precedes(b, c) ==> Precedes(a, c)
    ensures Precedes(a, b) || Precedes(b, a) || a == b
  {
    match (a, b, c) {
      case (Some(x), Some(y), _) =>
        assert Less(x, y) || Less(y, x) || x == y;
      case _ =>
    }
  }

  type Objects = map<nat, Timer>

  /** m_timers as the list of its elements in order. */
  type Order = seq<nat>

  function KeyOf(objs: Objects, a: nat): Key
    requires a in objs
  {
    Key(objs[a].next, a)
  }

  predicate Known(objs: Objects, order: Order) {
    forall i :: 0 <= i < |order| ==> order[i] in objs
  }

  ghost predicate Sorted(objs: Objects, order: Order)
    requires Known(objs, order)
  {
    forall i, j :: 0 <= i < j < |order| ==> Less(KeyOf(objs, order[i]), KeyOf(objs, order[j]))
  }

  // ----------------------------------------------------------------------------------------------------------
  // std::set

  /** lower_bound from position i on. */
  function LowerFrom(objs: Objects, order: Order, k: Key, i: nat): (r: nat)
    requires Known(objs, order) && i <= |order|
    ensures i <= r <= |order|
    ensures forall j :: i <= j < r ==> Less(KeyOf(objs, order[j]), k)
    ensures r < |order| ==> !Less(KeyOf(objs, order[r]), k)
    decreases |order| - i
  {
    if i == |order| || !Less(KeyOf(objs, order[i]), k) then i else LowerFrom(objs, order, k, i + 1)
  }

  function LowerBound(objs: Objects, order: Order, k: Key): (r: nat)
    requires Known(objs, order)
    ensures r <= |order|
  {
    LowerFrom(objs, order, k, 0)
  }

  /** find: the position of an element equivalent to a's key, |order| if there is none. */
  function Find(objs: Objects, order: Order, a: nat): (r: nat)
    requires Known(objs, order) && a in objs
    ensures r <= |order|
  {
    var i := LowerBound(objs, order, KeyOf(objs, a));
    if i < |order| && !Less(KeyOf(objs, a), KeyOf(objs, order[i])) then i else |order|
  }

  function Erase(order: Order, i: nat): Order {
    if i < |order| then order[..i] + order[i + 1..] else order
  }

  function Insert(objs: Objects, order: Order, a: nat): (r: Order)
    requires Known(objs, order) && a in objs
    ensures Known(objs, r)
  {
    var i := LowerBound(objs, order, KeyOf(objs, a));
    if Find(objs, order, a) < |order| then order else order[..i] + [a] + order[i..]
  }

  /** In a sorted set find finds exactly the members. */
  lemma FindFinds(objs: Objects, order: Order, a: nat)
    requires Known(objs, order) && Sorted(objs, order) && a in objs
    ensures a in order <==> Find(objs, order, a) < |order|
    ensures a in order ==> order[Find(objs, order, a)] == a
  {
    var i := LowerBound(objs, order, KeyOf(objs, a));
    if a in order {
      var j :| 0 <= j < |order| && order[j] == a;
      assert i == j;
    }
  }

  lemma SortedIsDistinct(objs: Objects, order: Order)
    requires Known(objs, order) && Sorted(objs, order)
    ensures forall i, j :: 0 <= i < j < |order| ==> order[i] != order[j]
  {
    forall i, j | 0 <= i < j < |order| ensures order[i] != order[j] {
      assert Less(KeyOf(objs, order[i]), KeyOf(objs, order[j]));
    }
  }

  lemma EraseKeeps(objs: Objects, order: Order, a: nat)
    requires Known(objs, order) && Sorted(objs, order) && a in objs && a in order
    ensures var r := Erase(order, Find(objs, order, a));
            Known(objs, r) && Sorted(objs, r) && (forall x :: x in r <==> x in order && x != a)
  {
    FindFinds(objs, order, a);
    var i := Find(objs, order, a);
    var r := Erase(order, i);
    SortedIsDistinct(objs, order);
    assert order == order[..i] + [a] + order[i + 1..];
    assert forall j :: 0 <= j < |r| ==> r[j] == (if j < i then order[j] else order[j + 1]);
  }

  lemma InsertKeeps(objs: Objects, order: Order, a: nat)
    requires Known(objs, order) && Sorted(objs, order) && a in objs && a !in order
    ensures var r := Insert(objs, order, a);
            && Sorted(objs, r) && (forall x :: x in r <==> x in order || x == a)
            && (r[0] == a <==> forall x :: x in order ==> Less(KeyOf(objs, a), KeyOf(objs, x)))
  {
    FindFinds(objs, order, a);
    var k := KeyOf(objs, a);
    var i := LowerBound(objs, order, k);
    var r := Insert(objs, order, a);
    assert r == order[..i] + [a] + order[i..];
    forall j | i <= j < |order| ensures Less(k, KeyOf(objs, order[j])) {
      if j > i {
        assert Less(KeyOf(objs, order[i]), KeyOf(objs, order[j]));
      }
    }
    assert r[i] == a;
    if i > 0 {
      assert r[0] == order[0] && order[0] in order && Less(KeyOf(objs, order[0]), k);
    }
  }

  /** The order of a set does not depend on the fields of timers outside it. */
  lemma OutsidersDoNotMatter(objs: Objects, order: Order, a: nat, t: Timer)
    requires Known(objs, order) && Sorted(objs, order) && a !in order
    ensures Known(objs[a := t], order) && Sorted(objs[a := t], order)
  {
  }

  // ----------------------------------------------------------------------------------------------------------
  // Operations, each the body of one locked section

  datatype Manager = Manager(objs: Objects, order: Order, tickled: bool, previous: nat)

  /** addTimer(timer, lock): insert, and report whether onTimerInsertedAtFront is called. */
  function InsertTimer(m: Manager, a: nat): (r: (Manager, bool))
    requires Known(m.objs, m.order) && a in m.objs
  {
    var order := Insert(m.objs, m.order, a);
    var atFront := |order| > 0 && order[0] == a && !m.tickled;
    (m.(order := order, tickled := m.tickled || atFront), atFront)
  }

  /** addTimer(ms, cb, recurring); `start` is the clock reading the constructor took. */
  function AddTimer(m: Manager, a: nat, ms: nat, cb: Option<nat>, recurring: bool, start: nat): (r: (Manager, bool))
    requires Known(m.objs, m.order)
  {
    InsertTimer(m.(objs := m.objs[a := Timer(recurring, ms, Wrap(start + ms), cb)]), a)
  }

  function Cancel(m: Manager, a: nat): (r: (Manager, bool))
    requires Known(m.objs, m.order) && a in m.objs
  {
    if m.objs[a].cb.None? then (m, false)
    else
      var objs := m.objs[a := m.objs[a].(cb := None)];
      (m.(objs := objs, order := Erase(m.order, Find(objs, m.order, a))), true)
  }

  function Refresh(m: Manager, a: nat, now: nat): (r: (Manager, bool))
    requires Known(m.objs, m.order) && a in m.objs
  {
    var i := Find(m.objs, m.order, a);
    if m.objs[a].cb.None? || i == |m.order| then (m, false)
    else
      var order := Erase(m.order, i);
      var objs := m.objs[a := m.objs[a].(next := Wrap(now + m.objs[a].ms))];
      (m.(objs := objs, order := Insert(objs, order, a)), true)
  }

  /** The fields reset gives the timer. */
  function ResetTo(t: Timer, ms: nat, fromNow: bool, now: nat): Timer {
    t.(ms := ms, next := Wrap((if fromNow then now else Wrap(t.next - t.ms)) + ms))
  }

  /** reset(ms, from_now); the second result is what it returns, the third whether the wake-up hook is called. */
  function Reset(m: Manager, a: nat, ms: nat, fromNow: bool, now: nat): (r: (Manager, bool, bool))
    requires Known(m.objs, m.order) && a in m.objs
  {
    var i := Find(m.objs, m.order, a);
    if ms == m.objs[a].ms && !fromNow then (m, true, false)
    else if m.objs[a].cb.None? || i == |m.order| then (m, false, false)
    else
      var order := Erase(m.order, i);
      var objs := m.objs[a := ResetTo(m.objs[a], ms, fromNow, now)];
      var r := InsertTimer(m.(objs := objs, order := order), a);
      (r.0, true, r.1)
  }

  /** getNextTimer; None is ~0ull. */
  function GetNextTimer(m: Manager, now: nat): (r: (Manager, Option<nat>))
    requires Known(m.objs, m.order)
  {
    (m.(tickled := false),
     if m.order == [] then None
     else if now >= m.objs[m.order[0]].next then Some(0) else Some(m.objs[m.order[0]].next - now))
  }

  predicate Rollover(m: Manager, now: nat) {
    now < m.previous && now < Wrap(m.previous - HOUR_MS)
  }

  /** A reading counts as a rollover when it is more than an hour before the previous one; when the previous one is
      itself less than an hour after zero, the subtraction wraps and any earlier reading counts. */
  lemma RolloverMeaning(m: Manager, now: nat)
    requires m.previous < U64
    ensures Rollover(m, now) <==> now < m.previous && (m.previous < 3_600_000 || m.previous - now > 3_600_000)
  {
    if m.previous < HOUR_MS {
      ModOneDown(m.previous - HOUR_MS, U64);
    }
  }

  /** Skip the elements due exactly now. */
  function SkipDue(objs: Objects, order: Order, now: nat, i: nat): (r: nat)
    requires Known(objs, order) && i <= |order|
    ensures i <= r <= |order|
    ensures forall j :: i <= j < r ==> objs[order[j]].next == now
    ensures r < |order| ==> objs[order[r]].next != now
    decreases |order| - i
  {
    if i < |order| && objs[order[i]].next == now then SkipDue(objs, order, now, i + 1) else i
  }

  /** How many elements expire; `probe` is the address of the temporary timer that is looked up. */
  function ExpiredCount(m: Manager, now: nat, probe: nat): (r: nat)
    requires Known(m.objs, m.order)
    ensures r <= |m.order|
  {
    if Rollover(m, now) then |m.order|
    else SkipDue(m.objs, m.order, now, LowerBound(m.objs, m.order, Key(now, probe)))
  }

  function Callbacks(objs: Objects, es: seq<nat>): (r: seq<Option<nat>>)
    requires Known(objs, es)
    ensures |r| == |es| && forall i :: 0 <= i < |r| ==> r[i] == objs[es[i]].cb
  {
    seq(|es|, i requires 0 <= i < |es| => objs[es[i]].cb)
  }

  /** What becomes of a timer: a due one is rescheduled if it recurs and loses its callback otherwise. */
  function AfterExpiry(t: Timer, due: bool, now: nat): Timer {
    if !due then t else if t.recurring then t.(next := Wrap(now + t.ms)) else t.(cb := None)
  }

  /** One turn of the loop. */
  function RearmOne(objs: Objects, order: Order, a: nat, now: nat): (r: (Objects, Order))
    requires Known(objs, order) && a in objs
    ensures r.0.Keys == objs.Keys && Known(r.0, r.1)
  {
    var objs1 := objs[a := AfterExpiry(objs[a], true, now)];
    (objs1, if objs[a].recurring then Insert(objs1, order, a) else order)
  }

  /** The loop over the expired timers: recurring ones are rescheduled and put back, the others lose their callback. */
  function Rearm(objs: Objects, order: Order, es: seq<nat>, now: nat): (r: (Objects, Order))
    requires Known(objs, order) && Known(objs, es)
    ensures r.0.Keys == objs.Keys && Known(r.0, r.1)
    decreases |es|
  {
    if es == [] then (objs, order)
    else
      var r1 := RearmOne(objs, order, es[0], now);
      Rearm(r1.0, r1.1, es[1..], now)
  }

  function ListExpired(m: Manager, now: nat, probe: nat): (r: (Manager, seq<Option<nat>>))
    requires Known(m.objs, m.order)
  {
    if m.order == [] then (m, [])
    else
      var m1 := m.(previous := now);
      if !Rollover(m, now) && m.objs[m.order[0]].next > now then (m1, [])
      else
        var k := ExpiredCount(m, now, probe);
        var r := Rearm(m.objs, m.order[k..], m.order[..k], now);
        (m1.(objs := r.0, order := r.1), Callbacks(m.objs, m.order[..k]))
  }

  // ----------------------------------------------------------------------------------------------------------
  // The set agrees with the callbacks

  /** The set is ordered by the current keys and holds every timer that has a callback. */
  ghost predicate Ordered(m: Manager) {
    && Known(m.objs, m.order)
    && Sorted(m.objs, m.order)
    && forall a :: a in m.objs && m.objs[a].cb.Some? ==> a in m.order
  }

  /** A timer is in the set exactly when it has a callback. */
  ghost predicate Valid(m: Manager) {
    Ordered(m) && forall a :: a in m.order ==> m.objs[a].cb.Some?
  }

  /** cancel finds what it erases, and the result tells whether the timer had a callback. */
  lemma CancelKeeps(m: Manager, a: nat)
    requires Ordered(m) && a in m.objs
    ensures Ordered(Cancel(m, a).0) && (Valid(m) ==> Valid(Cancel(m, a).0))
    ensures Cancel(m, a).1 <==> m.objs[a].cb.Some?
    ensures if m.objs[a].cb.Some? then forall x :: x in Cancel(m, a).0.order <==> x in m.order && x != a
            else Cancel(m, a).0 == m
    ensures var objs := Cancel(m, a).0.objs;
            objs.Keys == m.objs.Keys && objs[a].cb == None && forall x :: x in m.objs && x != a ==> objs[x] == m.objs[x]
  {
    if m.objs[a].cb.Some? {
      var objs := m.objs[a := m.objs[a].(cb := None)];
      assert forall x :: x in m.objs ==> KeyOf(objs, x) == KeyOf(m.objs, x);
      EraseKeeps(objs, m.order, a);
    }
  }

  lemma InsertTimerKeeps(m: Manager, a: nat)
    requires Known(m.objs, m.order) && Sorted(m.objs, m.order) && a in m.objs && a !in m.order
    requires forall x :: x in m.objs && x != a && m.objs[x].cb.Some? ==> x in m.order
    ensures Ordered(InsertTimer(m, a).0)
    ensures Valid(InsertTimer(m, a).0) <==> m.objs[a].cb.Some? && forall x :: x in m.order ==> m.objs[x].cb.Some?
  {
    InsertKeeps(m.objs, m.order, a);
    assert a in InsertTimer(m, a).0.order;
  }

  /** Adding a timer keeps the order, and the agreement with the callbacks exactly when its callback is not null. */
  lemma AddTimerKeeps(m: Manager, a: nat, ms: nat, cb: Option<nat>, recurring: bool, start: nat)
    requires Ordered(m) && a !in m.order
    ensures Ordered(AddTimer(m, a, ms, cb, recurring, start).0)
    ensures Valid(AddTimer(m, a, ms, cb, recurring, start).0) <==> Valid(m) && cb.Some?
  {
    var t := Timer(recurring, ms, Wrap(start + ms), cb);
    OutsidersDoNotMatter(m.objs, m.order, a, t);
    InsertTimerKeeps(m.(objs := m.objs[a := t]), a);
  }

  /** What addTimer does to the set, and when it calls the wake-up hook. */
  lemma AddTimerShape(m: Manager, a: nat, ms: nat, cb: Option<nat>, recurring: bool, start: nat)
    requires Ordered(m) && a !in m.order
    ensures var r := AddTimer(m, a, ms, cb, recurring, start);
            && Ordered(r.0) && r.0.objs == m.objs[a := Timer(recurring, ms, Wrap(start + ms), cb)]
            && (forall x :: x in r.0.order <==> x in m.order || x == a)
            && r.0.order != [] && (r.1 <==> !m.tickled && r.0.order[0] == a)
            && (r.0.tickled <==> m.tickled || r.1)
  {
    var t := Timer(recurring, ms, Wrap(start + ms), cb);
    OutsidersDoNotMatter(m.objs, m.order, a, t);
    InsertKeeps(m.objs[a := t], m.order, a);
    AddTimerKeeps(m, a, ms, cb, recurring, start);
  }

  /** Take a timer out of the set, change its fields, put it back. */
  function Rescheduled(m: Manager, a: nat, t: Timer): Manager
    requires Known(m.objs, m.order) && a in m.objs
  {
    var objs := m.objs[a := t];
    m.(objs := objs, order := Insert(objs, Erase(m.order, Find(m.objs, m.order, a)), a))
  }

  /** The key of a timer changes only between its removal and its re-insertion, so the set stays ordered. */
  lemma RescheduledKeeps(m: Manager, a: nat, t: Timer)
    requires Ordered(m) && a in m.order && t.cb.Some?
    ensures var r := Rescheduled(m, a, t);
            && Ordered(r) && (Valid(m) ==> Valid(r)) && (forall x :: x in r.order <==> x in m.order)
            && (r.order[0] == a || r.order[0] in m.order)
  {
    var order := Erase(m.order, Find(m.objs, m.order, a));
    EraseKeeps(m.objs, m.order, a);
    OutsidersDoNotMatter(m.objs, order, a, t);
    InsertKeeps(m.objs[a := t], order, a);
    var r := Rescheduled(m, a, t);
    assert forall x :: x in r.order <==> x in m.order;
    assert a in r.order;
  }

  lemma RefreshShape(m: Manager, a: nat, now: nat)
    requires Ordered(m) && a in m.objs
    ensures Refresh(m, a, now) ==
            if m.objs[a].cb.Some? then (Rescheduled(m, a, m.objs[a].(next := Wrap(now + m.objs[a].ms))), true)
            else (m, false)
  {
    FindFinds(m.objs, m.order, a);
  }

  lemma RefreshKeeps(m: Manager, a: nat, now: nat)
    requires Ordered(m) && a in m.objs
    ensures Ordered(Refresh(m, a, now).0) && (Valid(m) ==> Valid(Refresh(m, a, now).0))
    ensures Refresh(m, a, now).1 <==> m.objs[a].cb.Some?
    ensures forall x :: x in Refresh(m, a, now).0.order <==> x in m.order
    ensures Refresh(m, a, now).0.objs ==
            if m.objs[a].cb.Some? then m.objs[a := m.objs[a].(next := Wrap(now + m.objs[a].ms))] else m.objs
    ensures Refresh(m, a, now).0.tickled == m.tickled
  {
    RefreshShape(m, a, now);
    if m.objs[a].cb.Some? {
      RescheduledKeeps(m, a, m.objs[a].(next := Wrap(now + m.objs[a].ms)));
    }
  }

  lemma RefreshObjects(m: Manager, a: nat, now: nat)
    requires Ordered(m) && a in m.objs
    ensures Refresh(m, a, now).0.objs ==
            if m.objs[a].cb.Some? then m.objs[a := m.objs[a].(next := Wrap(now + m.objs[a].ms))] else m.objs
  {
    RefreshShape(m, a, now);
  }

  /** reset reschedules a pending timer, and calls the wake-up hook when it comes to the front of an untickled set. */
  lemma ResetShape(m: Manager, a: nat, ms: nat, fromNow: bool, now: nat)
    requires Ordered(m) && a in m.objs
    ensures var r := Reset(m, a, ms, fromNow, now);
            if ms == m.objs[a].ms && !fromNow then r == (m, true, false)
            else if m.objs[a].cb.None? then r == (m, false, false)
            else
              var m1 := Rescheduled(m, a, ResetTo(m.objs[a], ms, fromNow, now));
              && r.0.objs == m1.objs && r.0.order == m1.order && r.0.previous == m1.previous
              && r.1
              && (r.2 <==> !m.tickled && |m1.order| > 0 && m1.order[0] == a)
              && (r.0.tickled <==> m.tickled || r.2)
  {
    FindFinds(m.objs, m.order, a);
  }

  lemma ResetKeeps(m: Manager, a: nat, ms: nat, fromNow: bool, now: nat)
    requires Ordered(m) && a in m.objs
    ensures Ordered(Reset(m, a, ms, fromNow, now).0) && (Valid(m) ==> Valid(Reset(m, a, ms, fromNow, now).0))
    ensures forall x :: x in Reset(m, a, ms, fromNow, now).0.order <==> x in m.order
    ensures Reset(m, a, ms, fromNow, now).1 <==> m.objs[a].cb.Some? || (ms == m.objs[a].ms && !fromNow)
  {
    ResetShape(m, a, ms, fromNow, now);
    if m.objs[a].cb.Some? {
      RescheduledKeeps(m, a, ResetTo(m.objs[a], ms, fromNow, now));
    }
  }

  /** Does reset move the timer? */
  predicate Moves(t: Timer, ms: nat, fromNow: bool) {
    t.cb.Some? && (ms != t.ms || fromNow)
  }

  /** Timer t1 is t with the new interval, counted from now or from where the old interval began; clock values that
      do not overflow are meant. */
  predicate MovedTo(t: Timer, t1: Timer, ms: nat, fromNow: bool, now: nat) {
    && t1.ms == ms && t1.cb == t.cb && t1.recurring == t.recurring
    && (fromNow && now + ms < U64 ==> t1.next == now + ms)
    && (!fromNow && t.ms <= t.next && t.next - t.ms + ms < U64 ==> t1.next - ms == t.next - t.ms)
  }

  /** reset changes exactly its own timer, and exactly if that has a callback and something is to change. */
  lemma ResetMeans(m: Manager, a: nat, ms: nat, fromNow: bool, now: nat)
    requires Ordered(m) && a in m.objs
    ensures var r := Reset(m, a, ms, fromNow, now).0;
            && r.objs.Keys == m.objs.Keys && (forall x :: x in m.objs && x != a ==> r.objs[x] == m.objs[x])
            && (if Moves(m.objs[a], ms, fromNow) then MovedTo(m.objs[a], r.objs[a], ms, fromNow, now) else r == m)
  {
    ResetShape(m, a, ms, fromNow, now);
  }

  // ----------------------------------------------------------------------------------------------------------
  // Expiry

  /** Whatever the probe's address, the elements before the split are exactly those due. */
  lemma SplitIsExact(m: Manager, now: nat, probe: nat)
    requires Ordered(m) && !Rollover(m, now)
    ensures var k := ExpiredCount(m, now, probe);
            forall i :: 0 <= i < |m.order| ==> (i < k <==> m.objs[m.order[i]].next <= now)
  {
    var k := ExpiredCount(m, now, probe);
    forall i | 0 <= i < |m.order| ensures i < k <==> m.objs[m.order[i]].next <= now {
      if i > k {
        assert Less(KeyOf(m.objs, m.order[k]), KeyOf(m.objs, m.order[i]));
      }
      var lb := LowerBound(m.objs, m.order, Key(now, probe));
      if lb < k <= i {
        assert Less(KeyOf(m.objs, m.order[lb]), KeyOf(m.objs, m.order[k]));
      }
    }
  }

  ghost predicate Distinct(es: seq<nat>) {
    forall i, j :: 0 <= i < j < |es| ==> es[i] != es[j]
  }

  /** What the loop leaves: the kept elements, and the recurring ones at their new time. */
  ghost predicate RearmedFrom(objs: Objects, order: Order, es: seq<nat>, now: nat, r: (Objects, Order))
    requires Known(objs, es)
  {
    && r.0.Keys == objs.Keys && Known(r.0, r.1) && Sorted(r.0, r.1)
    && (forall x :: x in r.1 <==> x in order || (x in es && objs[x].recurring))
    && (forall x :: x in objs ==> r.0[x] == AfterExpiry(objs[x], x in es, now))
  }

  lemma RearmOneResult(objs: Objects, order: Order, a: nat, now: nat)
    requires Known(objs, order) && Sorted(objs, order) && a in objs && a !in order
    ensures RearmedFrom(objs, order, [a], now, RearmOne(objs, order, a, now))
  {
    var t := AfterExpiry(objs[a], true, now);
    OutsidersDoNotMatter(objs, order, a, t);
    if objs[a].recurring {
      InsertKeeps(objs[a := t], order, a);
    }
  }

  lemma RearmedCompose(objs: Objects, order: Order, a: nat, rest: seq<nat>, now: nat, r: (Objects, Order),
                       q: (Objects, Order))
    requires Known(objs, [a]) && Known(objs, rest) && a !in rest
    requires RearmedFrom(objs, order, [a], now, r) && RearmedFrom(r.0, r.1, rest, now, q)
    ensures RearmedFrom(objs, order, [a] + rest, now, q)
  {
  }

  lemma {:induction false} RearmResult(objs: Objects, order: Order, es: seq<nat>, now: nat)
    requires Known(objs, order) && Known(objs, es) && Sorted(objs, order) && Distinct(es)
    requires forall x :: x in es ==> x !in order
    ensures RearmedFrom(objs, order, es, now, Rearm(objs, order, es, now))
    decreases |es|
  {
    if es != [] {
      var a, rest := es[0], es[1..];
      assert es == [a] + rest;
      assert a !in rest && Distinct(rest);
      var r := RearmOne(objs, order, a, now);
      RearmOneResult(objs, order, a, now);
      RearmResult(r.0, r.1, rest, now);
      RearmedCompose(objs, order, a, rest, now, r, Rearm(r.0, r.1, rest, now));
    }
  }

  lemma SortedParts(objs: Objects, order: Order, k: nat)
    requires Known(objs, order) && Sorted(objs, order) && k <= |order|
    ensures Known(objs, order[k..]) && Sorted(objs, order[k..]) && Known(objs, order[..k]) && Distinct(order[..k])
    ensures forall x :: x in order[..k] ==> x !in order[k..]
    ensures forall x :: x in order <==> x in order[..k] || x in order[k..]
  {
    assert order == order[..k] + order[k..];
    SortedIsDistinct(objs, order);
  }

  /** Is this pending timer expired by a listExpiredCb at `now`? */
  predicate Due(m: Manager, a: nat, now: nat)
    requires a in m.objs
  {
    Rollover(m, now) || m.objs[a].next <= now
  }

  /** listExpiredCb returns the callbacks of exactly the due timers, in the order of the set, and leaves the others plus
      the recurring ones, rescheduled to now + ms. */
  lemma ListExpiredExact(m: Manager, now: nat, probe: nat)
    requires Ordered(m)
    ensures var r := ListExpired(m, now, probe);
            && Ordered(r.0) && (Valid(m) ==> Valid(r.0))
            && r.0.objs.Keys == m.objs.Keys
            && r.0.tickled == m.tickled && r.0.previous == (if m.order == [] then m.previous else now)
            && (exists k :: 0 <= k <= |m.order| && r.1 == Callbacks(m.objs, m.order[..k]) &&
                  forall i :: 0 <= i < |m.order| ==> (i < k <==> Due(m, m.order[i], now)))
            && (forall x :: x in r.0.order <==> x in m.order && (!Due(m, x, now) || m.objs[x].recurring))
            && (forall x :: x in m.objs ==> r.0.objs[x] == AfterExpiry(m.objs[x], x in m.order && Due(m, x, now), now))
  {
    var r := ListExpired(m, now, probe);
    if m.order == [] {
      assert m.order[..0] == [];
    } else if !Rollover(m, now) && m.objs[m.order[0]].next > now {
      NothingDue(m, now);
    } else {
      var k := ExpiredCount(m, now, probe);
      if !Rollover(m, now) {
        SplitIsExact(m, now, probe);
      }
      ExpirySplit(m, now, k);
    }
  }

  lemma NothingDue(m: Manager, now: nat)
    requires Ordered(m) && m.order != [] && !Rollover(m, now) && m.objs[m.order[0]].next > now
    ensures forall i :: 0 <= i < |m.order| ==> !Due(m, m.order[i], now)
    ensures Callbacks(m.objs, m.order[..0]) == []
  {
    forall i | 0 <= i < |m.order| ensures !Due(m, m.order[i], now) {
      if i > 0 {
        assert Less(KeyOf(m.objs, m.order[0]), KeyOf(m.objs, m.order[i]));
      }
    }
  }

  lemma RearmedIsExpired(m: Manager, kept: Order, es: seq<nat>, now: nat, r: (Objects, Order))
    requires Ordered(m) && Known(m.objs, es) && RearmedFrom(m.objs, kept, es, now, r)
    requires forall x :: x in m.order <==> x in es || x in kept
    requires forall x :: x in m.order ==> (x in es <==> Due(m, x, now))
    requires forall x :: x in es ==> x !in kept
    ensures Ordered(m.(objs := r.0, order := r.1, previous := now))
    ensures Valid(m) ==> Valid(m.(objs := r.0, order := r.1, previous := now))
    ensures forall x :: x in r.1 <==> x in m.order && (!Due(m, x, now) || m.objs[x].recurring)
    ensures forall x :: x in m.objs ==> r.0[x] == AfterExpiry(m.objs[x], x in m.order && Due(m, x, now), now)
  {
  }

  lemma BeforeSplitIsDue(m: Manager, now: nat, k: nat, x: nat)
    requires Ordered(m) && k <= |m.order| && x in m.order
    requires forall i :: 0 <= i < |m.order| ==> (i < k <==> Due(m, m.order[i], now))
    ensures x in m.order[..k] <==> Due(m, x, now)
  {
    var i :| 0 <= i < |m.order| && m.order[i] == x;
    if i < k {
      assert m.order[..k][i] == x;
    }
  }

  lemma ExpirySplit(m: Manager, now: nat, k: nat)
    requires Ordered(m) && k <= |m.order|
    requires forall i :: 0 <= i < |m.order| ==> (i < k <==> Due(m, m.order[i], now))
    ensures Known(m.objs, m.order[k..]) && Known(m.objs, m.order[..k])
    ensures var r := Rearm(m.objs, m.order[k..], m.order[..k], now);
            && Ordered(m.(objs := r.0, order := r.1, previous := now))
            && (Valid(m) ==> Valid(m.(objs := r.0, order := r.1, previous := now)))
            && (forall x :: x in r.1 <==> x in m.order && (!Due(m, x, now) || m.objs[x].recurring))
            && (forall x :: x in m.objs ==> r.0[x] == AfterExpiry(m.objs[x], x in m.order && Due(m, x, now), now))
  {
    SortedParts(m.objs, m.order, k);
    var es, kept := m.order[..k], m.order[k..];
    RearmResult(m.objs, kept, es, now);
    forall x | x in m.order ensures x in es <==> Due(m, x, now) {
      BeforeSplitIsDue(m, now, k, x);
    }
    RearmedIsExpired(m, kept, es, now, Rearm(m.objs, kept, es, now));
  }
}

/** IOManager's fd-event operations as the source writes them: FdContext fields and m_pendingEventCount changed in
    place, epoll_ctl as a call on the interest list whose outcome the environment decides. */
module IOManager {
  import opened Tasks
  import opened FdTable
  import opened FdMeaning

  class FdEvents {
    var contexts: seq<FdContext>
    var pending: int
    var interest: Interest

    function View(): Table
      reads this
    {
      Table(contexts, pending, interest)
    }

    ghost predicate Valid()
      reads this
    {
      TableOk(View())
    }

    constructor ()
      ensures Valid() && Fresh(View())
    {
      contexts, pending, interest := seq(32, i => UNUSED_FD), 0, map[];
      new;
      FreshOk(View());
    }

    /** epoll_ctl: 0 on success. */
    method Ctl(op: CtlOp, fd: nat, mask: set<Event>, ok: bool) returns (rt: int)
      modifies this`interest
      ensures rt == 0 <==> ok && Legal(old(interest), op, fd)
      ensures interest == if rt == 0 then CtlResult(old(interest), op, fd, mask) else old(interest)
    {
      if ok && Legal(interest, op, fd) {
        interest := CtlResult(interest, op, fd, mask);
        return 0;
      }
      return -1;
    }

    method AddEvent(fd: nat, e: Event, waiter: Task, ok: bool) returns (rt: AddOutcome)
      requires Valid()
      modifies this
      ensures Valid()
      ensures fd < |Grown(old(contexts), fd)| && (View(), rt) == FdTable.AddEvent(old(View()), fd, e, waiter, ok)
      ensures rt == Added ==> Waiter(View(), fd, e) == Some(waiter) && Watches(View(), fd, e)
    {
      AddMeans(View(), fd, e, waiter, ok);
      AddEventKeepsTable(View(), fd, e, waiter, ok);
      GrownCovers(View(), fd);
      if fd >= |contexts| {
        contexts := Grown(contexts, fd);
      }
      var ctx := contexts[fd];
      if e in ctx.events {
        return AlreadyRegistered;  // SYLAR_ASSERT
      }
      var op := if ctx.events != {} then MOD else ADD;
      var failed := Ctl(op, fd, ctx.events + {e}, ok);
      if failed != 0 {
        return CtlFailed;
      }
      pending := pending + 1;
      ctx := ctx.(events := ctx.events + {e});
      var x := ctx.Get(e).(scheduler := true);
      match waiter {
        case RunCallback(cb) => x := x.(cb := Some(cb));
        case RunFiber(f) => x := x.(fiber := Some(f));
      }
      contexts := contexts[fd := ctx.Put(e, x)];
      return Added;
    }

    method DelEvent(fd: nat, e: Event, ok: bool) returns (done: bool)
      requires Valid()
      modifies this
      ensures Valid() && (View(), done) == FdTable.DelEvent(old(View()), fd, e, ok)
      ensures done <==> Removable(old(View()), fd, e, ok)
      ensures if done then Removed(old(View()), View(), fd, e) else View() == old(View())
    {
      RemoveMeans(View(), fd, e, ok);
      PerformKeepsTable(View(), OpDel(fd, e, ok));
      if |contexts| <= fd {
        return false;
      }
      var ctx := contexts[fd];
      if e !in ctx.events {
        return false;
      }
      var left := ctx.events - {e};
      var failed := Ctl(if left != {} then MOD else DEL, fd, left, ok);
      if failed != 0 {
        return false;
      }
      pending := pending - 1;
      contexts := contexts[fd := ctx.(events := left).Put(e, EMPTY_CONTEXT)];
      return true;
    }

    /** The tasks handed to schedule(). */
    method CancelEvent(fd: nat, e: Event, ok: bool) returns (woken: seq<Task>)
      requires Valid()
      modifies this
      ensures Valid() && (View(), woken) == FdTable.CancelEvent(old(View()), fd, e, ok)
      ensures if Removable(old(View()), fd, e, ok)
              then Removed(old(View()), View(), fd, e) && woken == [Waiter(old(View()), fd, e).value]
              else View() == old(View()) && woken == []
    {
      RemoveMeans(View(), fd, e, ok);
      PerformKeepsTable(View(), OpCancel(fd, e, ok));
      if |contexts| <= fd {
        return [];
      }
      var ctx := contexts[fd];
      if e !in ctx.events {
        return [];
      }
      var left := ctx.events - {e};
      var failed := Ctl(if left != {} then MOD else DEL, fd, left, ok);
      if failed != 0 {
        return [];
      }
      var fired := Trigger(ctx, e);
      contexts := contexts[fd := fired.0];
      pending := pending - 1;
      return fired.1;
    }

    /** Fire whatever is registered on fd, READ first: the tail of cancelAll and of the dispatch loop. */
    method FireRegistered(fd: nat) returns (woken: seq<Task>)
      requires fd < |contexts| && ContextOk(contexts[fd])
      modifies this`contexts, this`pending
      ensures contexts == old(contexts)[fd := TriggerAll(old(contexts[fd])).0]
      ensures woken == TriggerAll(old(contexts[fd])).1 && pending == old(pending) - |old(contexts[fd]).events|
    {
      ghost var c := contexts[fd];
      TriggerAllEmpties(c);
      woken := [];
      if READ in contexts[fd].events {
        var fired := Trigger(contexts[fd], READ);
        contexts := contexts[fd := fired.0];
        woken := fired.1;
        pending := pending - 1;
      }
      if WRITE in contexts[fd].events {
        var fired := Trigger(contexts[fd], WRITE);
        contexts := contexts[fd := fired.0];
        woken := woken + fired.1;
        pending := pending - 1;
      }
      EventsAre(c.events);
    }

    method CancelAll(fd: nat, ok: bool) returns (woken: seq<Task>)
      requires Valid()
      modifies this
      ensures Valid() && (View(), woken) == FdTable.CancelAll(old(View()), fd, ok)
      ensures fd < |contexts| && View() != old(View()) ==> contexts[fd].events == {}
      ensures if ok && fd in old(interest) && Waiters(old(View()), fd) != []
              then AllRemoved(old(View()), View(), fd) && fd !in interest && woken == Waiters(old(View()), fd)
              else View() == old(View()) && woken == []
    {
      CancelAllMeans(View(), fd, ok);
      PerformKeepsTable(View(), OpCancelAll(fd, ok));
      if |contexts| <= fd {
        return [];
      }
      if contexts[fd].events == {} {
        return [];
      }
      assert ContextOk(contexts[fd]);
      TriggerAllEmpties(contexts[fd]);
      var failed := Ctl(DEL, fd, {}, ok);
      if failed != 0 {
        return [];
      }
      woken := FireRegistered(fd);
    }

    /** One epoll_event in the loop of idle(). */
    method DispatchOne(fd: nat, rep: Report, ok: bool) returns (woken: seq<Task>)
      requires Valid() && fd < |contexts|
      modifies this
      ensures Valid() && (View(), woken) == FdTable.Dispatch(old(View()), fd, rep, ok)
      ensures if ok && fd in old(interest) && ConcernsSomebody(old(View()), fd, rep)
              then AllRemoved(old(View()), View(), fd) && woken == Waiters(old(View()), fd)
              else View() == old(View()) && woken == []
    {
      DispatchMeans(View(), fd, rep, ok);
      PerformKeepsTable(View(), OpDispatch(fd, rep, ok));
      assert ContextOk(contexts[fd]);
      var registered := contexts[fd].events;
      var seen := RealEvents(contexts[fd], rep);
      if registered * seen == {} {
        return [];
      }
      var left := registered - seen;
      var failed := Ctl(if left != {} then MOD else DEL, fd, left, ok);
      if failed != 0 {
        return [];
      }
      woken := FireRegistered(fd);
    }
  }
}

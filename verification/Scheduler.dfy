/** The lock-protected parts of Scheduler as the source writes them: in-place changes of m_fibers and of
    m_activeThreadCount (sylar/scheduler.h, sylar/scheduler.cc). */
module Scheduler {
  import opened Tasks
  import opened Runtime

  class TaskList {
    var fibers: seq<Entry>
    var active: nat

    constructor ()
      ensures fibers == [] && active == 0
    {
      fibers, active := [], 0;
    }

    /** scheduleNoLock: an empty FiberAndThread is not queued; true asks for a tickle. */
    method ScheduleNoLock(task: Option<Task>, thread: int) returns (needTickle: bool)
      modifies this`fibers
      ensures needTickle <==> old(fibers) == []
      ensures fibers == old(fibers) + (if task.Some? then [Entry(task.value, thread)] else [])
    {
      needTickle := fibers == [];
      if task.Some? {
        fibers := fibers + [Entry(task.value, thread)];
      }
    }

    /** schedule(begin, end): the whole batch under one lock. */
    method ScheduleBatch(batch: seq<Task>) returns (needTickle: bool)
      modifies this`fibers
      ensures fibers == old(fibers) + Entries(batch)
      ensures needTickle <==> old(fibers) == [] && batch != []
    {
      needTickle := false;
      var i := 0;
      while i < |batch|
        invariant 0 <= i <= |batch|
        invariant fibers == old(fibers) + Entries(batch)[..i]
        invariant needTickle <==> old(fibers) == [] && i > 0
      {
        var t := ScheduleNoLock(Some(batch[i]), -1);
        needTickle := t || needTickle;
        i := i + 1;
      }
    }

    /** The pick loop of run(): the first entry this thread may run, skipping entries pinned elsewhere and fibers still
        in EXEC. `tickleMe` is set when an entry pinned elsewhere was passed over or entries remain behind the pick. */
    method Pick(thread: nat, states: seq<Fiber>) returns (ft: Option<Entry>, tickleMe: bool)
      modifies this
      ensures var i := PickFrom(old(fibers), 0, thread, states);
              if i == |old(fibers)| then ft == None && fibers == old(fibers) && active == old(active)
              else ft == Some(old(fibers)[i]) && fibers == old(fibers)[..i] + old(fibers)[i + 1..] &&
                   active == old(active) + 1
      ensures var i := PickFrom(old(fibers), 0, thread, states);
              tickleMe <==>
                || (exists j :: 0 <= j < i && old(fibers)[j].thread != -1 && old(fibers)[j].thread != thread)
                || i + 1 < |old(fibers)|
    {
      ft, tickleMe := None, false;
      var it := 0;
      while it < |fibers|
        invariant 0 <= it <= |fibers|
        invariant fibers == old(fibers) && active == old(active) && ft == None
        invariant PickFrom(fibers, 0, thread, states) == PickFrom(fibers, it, thread, states)
        invariant tickleMe <==> exists j :: 0 <= j < it && fibers[j].thread != -1 && fibers[j].thread != thread
      {
        if fibers[it].thread != -1 && fibers[it].thread != thread {
          it := it + 1;
          tickleMe := true;
          continue;
        }
        var task := fibers[it].task;
        if task.RunFiber? && (task.fiber >= |states| || states[task.fiber].state == EXEC) {
          it := it + 1;
          continue;
        }
        ft := Some(fibers[it]);
        fibers := fibers[..it] + fibers[it + 1..];
        active := active + 1;
        break;
      }
      tickleMe := tickleMe || it < |fibers|;
    }
  }
}

/** Names shared by the scheduler, the fd-event table and the timers (sylar/scheduler.h, sylar/iomanager.h). */
module Tasks {

  datatype Option<+T> = None | Some(value: T)

  type FiberId = nat

  /** IOManager::Event without NONE; a set of these is the `events` bit mask. */
  datatype Event = READ | WRITE

  /** The callbacks that matter to who gets woken.
      WakeUp is the one the sleep hooks bind (schedule this fiber), IoTimeout the one do_io arms,
      UserCode everything else. */
  datatype Callback =
    | WakeUp(fiber: FiberId)
    | IoTimeout(fd: nat, event: Event, info: nat)
    | UserCode(id: nat)

  datatype Task = RunFiber(fiber: FiberId) | RunCallback(cb: Callback)

  /** FiberAndThread; `thread == -1` means any thread. */
  datatype Entry = Entry(task: Task, thread: int)
}

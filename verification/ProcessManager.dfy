/** The process manager and scheduler as the kernel runs them: four linked queues of processes, and
    fields updated in place. Each method is proved against the value-level operation whose
    invariants Scheduler.dfy shows. */
module ProcessManager {
  import opened Options
  import opened Queues
  import opened Semaphores
  import opened Processes
  import opened Scheduler
  import KernelCalls
  import KernelRuns

  // ---------------------------------------------------------------- searching and moving by pid

  /** containsQueue by pid. */
  method Look(pcbs: Pcbs, q: Queue<nat>, pid: int) returns (process: Option<nat>)
    requires q.Valid()
    ensures process == Find(pcbs, q.Contents(), pid)
  {
    process := q.ContainsQueue(HasPid(pcbs, pid));
  }

  /** Take a process out of one queue, by pid, and put it at the rear of another. */
  method SwitchProcess(pcbs: Pcbs, qFrom: Queue<nat>, qTo: Queue<nat>, pid: int) returns (process: Option<nat>)
    requires qFrom.Valid() && qTo.Valid() && qFrom.Repr !! qTo.Repr
    modifies qFrom.Repr, qTo.Repr
    ensures qFrom.Valid() && qTo.Valid() && qFrom.Repr == old(qFrom.Repr) && fresh(qTo.Repr - old(qTo.Repr))
    ensures process == Find(pcbs, old(qFrom.Contents()), pid)
    ensures process.None? ==> qFrom.Contents() == old(qFrom.Contents()) && qTo.Contents() == old(qTo.Contents())
    ensures process.Some? ==> qFrom.Contents() == WithoutPid(pcbs, old(qFrom.Contents()), pid)
                              && qTo.Contents() == old(qTo.Contents()) + [process.value]
  {
    process := qFrom.RemoveFromQueue(HasPid(pcbs, pid));
    if process.Some? {
      var _ := qTo.Enqueue(process.value, true);
    }
  }

  /** The head of a queue goes to its rear. */
  method RotateQueue(q: Queue<nat>) returns (head: Option<nat>)
    requires q.Valid()
    modifies q.Repr
    ensures q.Valid() && fresh(q.Repr - old(q.Repr))
    ensures old(q.Contents()) == [] ==> head == None && q.Contents() == []
    ensures old(q.Contents()) != [] ==>
              head == Some(old(q.Contents())[0]) && q.Contents() == old(q.Contents())[1..] + [old(q.Contents())[0]]
  {
    head := q.Dequeue();
    if head.Some? {
      var _ := q.Enqueue(head.value, true);
    }
  }

  // ---------------------------------------------------------------- the four queues

  datatype Held = Held(ready: seq<nat>, blocked: seq<nat>, bySem: seq<nat>, zombie: seq<nat>)

  class ProcessQueues {
    const ready: Queue<nat>
    const blocked: Queue<nat>
    const bySem: Queue<nat>
    const zombie: Queue<nat>
    ghost var held: Held   // what the linked queues hold, front first
    ghost var Repr: set<object>

    ghost predicate Valid()
      reads this, Repr
    {
      && this in Repr && ready in Repr && blocked in Repr && bySem in Repr && zombie in Repr
      && ready.Repr <= Repr && blocked.Repr <= Repr && bySem.Repr <= Repr && zombie.Repr <= Repr
      && this !in ready.Repr + blocked.Repr + bySem.Repr + zombie.Repr
      && ready.Repr !! blocked.Repr && ready.Repr !! bySem.Repr && ready.Repr !! zombie.Repr
      && blocked.Repr !! bySem.Repr && blocked.Repr !! zombie.Repr && bySem.Repr !! zombie.Repr
      && ready.Valid() && blocked.Valid() && bySem.Valid() && zombie.Valid()
      && held == Held(ready.Contents(), blocked.Contents(), bySem.Contents(), zombie.Contents())
    }

    constructor ()
      ensures Valid() && fresh(Repr) && held == Held([], [], [], [])
    {
      ready := new Queue();
      blocked := new Queue();
      bySem := new Queue();
      zombie := new Queue();
      held := Held([], [], [], []);
      new;
      Repr := {this} + ready.Repr + blocked.Repr + bySem.Repr + zombie.Repr;
    }

    method ReadyToBlocked(pcbs: Pcbs, pid: int) returns (process: Option<nat>)
      requires Valid()
      modifies Repr
      ensures Valid() && fresh(Repr - old(Repr)) && process == Find(pcbs, old(held).ready, pid)
      ensures process.None? ==> held == old(held)
      ensures process.Some? ==> held == old(held).(ready := WithoutPid(pcbs, old(held).ready, pid), blocked := old(held).blocked + [process.value])
    {
      process := SwitchProcess(pcbs, ready, blocked, pid);
      Repr := Repr + blocked.Repr;
      held := held.(ready := ready.Contents(), blocked := blocked.Contents());
    }

    method BySemToBlocked(pcbs: Pcbs, pid: int) returns (process: Option<nat>)
      requires Valid()
      modifies Repr
      ensures Valid() && fresh(Repr - old(Repr)) && process == Find(pcbs, old(held).bySem, pid)
      ensures process.None? ==> held == old(held)
      ensures process.Some? ==> held == old(held).(bySem := WithoutPid(pcbs, old(held).bySem, pid), blocked := old(held).blocked + [process.value])
    {
      process := SwitchProcess(pcbs, bySem, blocked, pid);
      Repr := Repr + blocked.Repr;
      held := held.(bySem := bySem.Contents(), blocked := blocked.Contents());
    }

    method ReadyToBySem(pcbs: Pcbs, pid: int) returns (process: Option<nat>)
      requires Valid()
      modifies Repr
      ensures Valid() && fresh(Repr - old(Repr)) && process == Find(pcbs, old(held).ready, pid)
      ensures process.None? ==> held == old(held)
      ensures process.Some? ==> held == old(held).(ready := WithoutPid(pcbs, old(held).ready, pid), bySem := old(held).bySem + [process.value])
    {
      process := SwitchProcess(pcbs, ready, bySem, pid);
      Repr := Repr + bySem.Repr;
      held := held.(ready := ready.Contents(), bySem := bySem.Contents());
    }

    method BlockedToReady(pcbs: Pcbs, pid: int) returns (process: Option<nat>)
      requires Valid()
      modifies Repr
      ensures Valid() && fresh(Repr - old(Repr)) && process == Find(pcbs, old(held).blocked, pid)
      ensures process.None? ==> held == old(held)
      ensures process.Some? ==> held == old(held).(blocked := WithoutPid(pcbs, old(held).blocked, pid), ready := old(held).ready + [process.value])
    {
      process := SwitchProcess(pcbs, blocked, ready, pid);
      Repr := Repr + ready.Repr;
      held := held.(blocked := blocked.Contents(), ready := ready.Contents());
    }

    method BySemToReady(pcbs: Pcbs, pid: int) returns (process: Option<nat>)
      requires Valid()
      modifies Repr
      ensures Valid() && fresh(Repr - old(Repr)) && process == Find(pcbs, old(held).bySem, pid)
      ensures process.None? ==> held == old(held)
      ensures process.Some? ==> held == old(held).(bySem := WithoutPid(pcbs, old(held).bySem, pid), ready := old(held).ready + [process.value])
    {
      process := SwitchProcess(pcbs, bySem, ready, pid);
      Repr := Repr + ready.Repr;
      held := held.(bySem := bySem.Contents(), ready := ready.Contents());
    }

    method ReadyToZombie(pcbs: Pcbs, pid: int) returns (process: Option<nat>)
      requires Valid()
      modifies Repr
      ensures Valid() && fresh(Repr - old(Repr)) && process == Find(pcbs, old(held).ready, pid)
      ensures process.None? ==> held == old(held)
      ensures process.Some? ==> held == old(held).(ready := WithoutPid(pcbs, old(held).ready, pid), zombie := old(held).zombie + [process.value])
    {
      process := SwitchProcess(pcbs, ready, zombie, pid);
      Repr := Repr + zombie.Repr;
      held := held.(ready := ready.Contents(), zombie := zombie.Contents());
    }

    method BlockedToZombie(pcbs: Pcbs, pid: int) returns (process: Option<nat>)
      requires Valid()
      modifies Repr
      ensures Valid() && fresh(Repr - old(Repr)) && process == Find(pcbs, old(held).blocked, pid)
      ensures process.None? ==> held == old(held)
      ensures process.Some? ==> held == old(held).(blocked := WithoutPid(pcbs, old(held).blocked, pid), zombie := old(held).zombie + [process.value])
    {
      process := SwitchProcess(pcbs, blocked, zombie, pid);
      Repr := Repr + zombie.Repr;
      held := held.(blocked := blocked.Contents(), zombie := zombie.Contents());
    }

    method BySemToZombie(pcbs: Pcbs, pid: int) returns (process: Option<nat>)
      requires Valid()
      modifies Repr
      ensures Valid() && fresh(Repr - old(Repr)) && process == Find(pcbs, old(held).bySem, pid)
      ensures process.None? ==> held == old(held)
      ensures process.Some? ==> held == old(held).(bySem := WithoutPid(pcbs, old(held).bySem, pid), zombie := old(held).zombie + [process.value])
    {
      process := SwitchProcess(pcbs, bySem, zombie, pid);
      Repr := Repr + zombie.Repr;
      held := held.(bySem := bySem.Contents(), zombie := zombie.Contents());
    }

    method EnqueueInReady(a: nat)
      requires Valid()
      modifies Repr
      ensures Valid() && fresh(Repr - old(Repr)) && held == old(held).(ready := old(held).ready + [a])
    {
      var _ := ready.Enqueue(a, true);
      Repr := Repr + ready.Repr;
      held := held.(ready := ready.Contents());
    }

    method EnqueueInBlocked(a: nat)
      requires Valid()
      modifies Repr
      ensures Valid() && fresh(Repr - old(Repr)) && held == old(held).(blocked := old(held).blocked + [a])
    {
      var _ := blocked.Enqueue(a, true);
      Repr := Repr + blocked.Repr;
      held := held.(blocked := blocked.Contents());
    }

    method RemoveZombie(pcbs: Pcbs, pid: int)
      requires Valid()
      modifies Repr
      ensures Valid() && fresh(Repr - old(Repr)) && held == old(held).(zombie := WithoutPid(pcbs, old(held).zombie, pid))
    {
      var _ := zombie.RemoveFromQueue(HasPid(pcbs, pid));
      held := held.(zombie := zombie.Contents());
    }

    method RotateReady() returns (head: Option<nat>)
      requires Valid()
      modifies Repr
      ensures Valid() && fresh(Repr - old(Repr))
      ensures old(held).ready == [] ==> head == None && held == old(held)
      ensures old(held).ready != [] ==>
                head == Some(old(held).ready[0]) && held == old(held).(ready := old(held).ready[1..] + [old(held).ready[0]])
    {
      head := RotateQueue(ready);
      Repr := Repr + ready.Repr;
      held := held.(ready := ready.Contents());
    }

    method LookInReady(pcbs: Pcbs, pid: int) returns (process: Option<nat>)
      requires Valid()
      ensures process == Find(pcbs, held.ready, pid)
    {
      process := Look(pcbs, ready, pid);
    }

    method LookInBlocked(pcbs: Pcbs, pid: int) returns (process: Option<nat>)
      requires Valid()
      ensures process == Find(pcbs, held.blocked, pid)
    {
      process := Look(pcbs, blocked, pid);
    }

    method LookInBySem(pcbs: Pcbs, pid: int) returns (process: Option<nat>)
      requires Valid()
      ensures process == Find(pcbs, held.bySem, pid)
    {
      process := Look(pcbs, bySem, pid);
    }

    method LookInZombie(pcbs: Pcbs, pid: int) returns (process: Option<nat>)
      requires Valid()
      ensures process == Find(pcbs, held.zombie, pid)
    {
      process := Look(pcbs, zombie, pid);
    }

    method Count() returns (n: nat)
      requires Valid()
      ensures n == |held.ready| + |held.blocked| + |held.zombie| + |held.bySem|
    {
      var r := ready.QueueSize();
      var b := blocked.QueueSize();
      var z := zombie.QueueSize();
      var w := bySem.QueueSize();
      n := r + b + z + w;
    }
  }

  class Manager {
    var pcbs: Pcbs
    const queues: ProcessQueues
    var idle: nat
    var current: nat
    var foreground: Option<nat>
    var currentPid: int
    var nextFreePid: int
    var quantum: nat
    var first: bool
    ghost var sems: map<nat, Sem>   // what the records of the open semaphores hold

    ghost predicate Valid()
      reads this, queues, queues.Repr
    {
      queues in queues.Repr && queues.Valid() && this !in queues.Repr
    }

    /** The manager as a value: its fields and what the linked queues hold. */
    ghost function View(): Kernel
      reads this, queues
    {
      Kernel(pcbs, queues.held.ready, queues.held.blocked, queues.held.bySem, queues.held.zombie,
             idle, current, foreground, currentPid, nextFreePid, quantum, first, sems)
    }

    /** initScheduler: empty queues, and idle, not dispatched yet. */
    constructor (a: nat)
      ensures Valid() && View() == KernelRuns.Booted(a) && fresh(queues.Repr)
    {
      pcbs := map[a := PCB(0, NO_PID, NO_PID, IDLE_PRIORITY, READY, 0, false)];
      queues := new ProcessQueues();
      idle, current, foreground := a, a, None;
      currentPid, nextFreePid, quantum, first, sems := NO_PID, 1, 0, true, map[];
    }

    // ---------------------------------------------------------------- moves between queues

    method SetStateOf(a: nat, state: ProcessState)
      requires a in pcbs
      modifies this`pcbs
      ensures pcbs == SetState(old(pcbs), a, state)
    {
      pcbs := pcbs[a := pcbs[a].(state := state)];
    }

    method BlockProcessQueue(pid: int) returns (ok: bool)
      requires Valid()
      modifies this, queues.Repr
      ensures Valid() && fresh(queues.Repr - old(queues.Repr))
      ensures (View(), ok) == BlockQueue(old(View()), pid)
    {
      hide ProcessQueues.Valid, Find, WithoutPid;
      var process := queues.LookInReady(pcbs, pid);
      if process.Some? {
        process := queues.ReadyToBlocked(pcbs, pid);
      } else {
        process := queues.LookInBySem(pcbs, pid);
        if process.None? {
          return false;
        }
        process := queues.BySemToBlocked(pcbs, pid);
      }
      SetStateOf(process.value, BLOCKED);
      ok := true;
    }

    method BlockProcessQueueBySem(pid: int) returns (ok: bool)
      requires Valid()
      modifies this, queues.Repr
      ensures Valid() && fresh(queues.Repr - old(queues.Repr)) && sems == old(sems)
      ensures (View(), ok) == BlockQueueBySem(old(View()), pid)
    {
      var process := queues.ReadyToBySem(pcbs, pid);
      if process.None? {
        return false;
      }
      SetStateOf(process.value, WAITING_SEM);
      ok := true;
    }

    method UnblockProcessQueue(pid: int) returns (ok: bool)
      requires Valid()
      modifies this, queues.Repr
      ensures Valid() && fresh(queues.Repr - old(queues.Repr))
      ensures View() == UnblockQueue(old(View()), pid) && ok == Find(old(pcbs), old(View()).blocked, pid).Some?
    {
      var process := queues.BlockedToReady(pcbs, pid);
      ok := process.Some?;
      if ok {
        SetStateOf(process.value, READY);
      }
    }

    method UnblockProcessQueueBySem(pid: int) returns (ok: bool)
      requires Valid()
      modifies this, queues.Repr
      ensures Valid() && fresh(queues.Repr - old(queues.Repr))
      ensures View() == UnblockQueueBySem(old(View()), pid) && ok == Find(old(pcbs), old(View()).bySem, pid).Some?
    {
      var process := queues.BySemToReady(pcbs, pid);
      ok := process.Some?;
      if ok {
        SetStateOf(process.value, READY);
      }
    }

    /** A live process goes from the first queue that holds its pid to the zombies. */
    method SwitchToZombie(pid: int) returns (victim: Option<nat>)
      requires Valid()
      modifies queues.Repr
      ensures Valid() && fresh(queues.Repr - old(queues.Repr))
      ensures victim == FindAlive(old(View()), pid)
      ensures View() == if victim.Some? then TakeOut(old(View()), pid).(zombie := old(View()).zombie + [victim.value])
                        else old(View())
    {
      hide ProcessQueues.Valid, Find, WithoutPid;
      victim := queues.ReadyToZombie(pcbs, pid);
      if victim.None? {
        victim := queues.BlockedToZombie(pcbs, pid);
        if victim.None? {
          victim := queues.BySemToZombie(pcbs, pid);
        }
      }
    }

    method KillByPid(pid: int, retValue: int) returns (victim: Option<nat>)
      requires Valid() && Settled(View())
      modifies this, queues.Repr
      ensures Valid() && fresh(queues.Repr - old(queues.Repr))
      ensures View() == KillProcess(old(View()), pid, retValue).0
      ensures victim == KillProcess(old(View()), pid, retValue).1
    {
      hide ProcessQueues.Valid, Find, WithoutPid;
      ghost var k := View();
      if current in pcbs && pcbs[current].pid == pid {
        current := idle;
      }
      victim := SwitchToZombie(pid);
      if victim.Some? {
        ForegroundIs(k, pid);
        BuryInPlace(pid, victim.value, retValue);
      }
    }

    /** The foreground pointer lets go of the pid, and the control block is marked. */
    method BuryInPlace(pid: int, victim: nat, retValue: int)
      requires Valid() && victim in pcbs
      requires foreground.Some? && foreground.value in pcbs && pcbs[foreground.value].pid == pid <==> foreground == Some(victim)
      modifies this`pcbs, this`foreground
      ensures Valid()
      ensures View() == old(View()).(foreground := if old(foreground) == Some(victim) then None else old(foreground),
                                     pcbs := old(pcbs)[victim := old(pcbs)[victim].(state := ZOMBIE, retValue := retValue)])
    {
      if foreground.Some? && foreground.value in pcbs && pcbs[foreground.value].pid == pid {
        foreground := None;
      }
      pcbs := pcbs[victim := pcbs[victim].(state := ZOMBIE, retValue := retValue)];
    }

    // ---------------------------------------------------------------- dispatching

    /** Rotate the ready queue and make its former head current; idle when it is empty. */
    method GetNextProcess() returns (next: nat)
      requires Valid()
      modifies this, queues.Repr
      ensures Valid() && fresh(queues.Repr - old(queues.Repr)) && sems == old(sems)
      ensures View() == NextProcess(old(View())) && next == current
    {
      hide ProcessQueues.Valid, Find, WithoutPid;
      var head := queues.RotateReady();
      if head.None? {
        current := idle;
        return idle;
      }
      next := head.value;
      current := next;
      if next in pcbs && pcbs[next].foreground {
        foreground := Some(next);
      }
    }

    /** The timer interrupt. */
    method Dispatch()
      requires Valid() && CanDispatch(View())
      modifies this, queues.Repr
      ensures Valid() && fresh(queues.Repr - old(queues.Repr)) && sems == old(sems)
      ensures View() == Schedule(old(View()))
    {
      hide ProcessQueues.Valid, Find, WithoutPid;
      if quantum > 0 && pcbs[current].state == RUNNING {
        quantum := quantum - 1;
        return;
      }
      if pcbs[current].state == RUNNING {
        pcbs := pcbs[current := pcbs[current].(state := READY)];
      }
      first := false;
      var next := GetNextProcess();
      pcbs := pcbs[next := pcbs[next].(state := RUNNING)];
      currentPid := pcbs[next].pid;
      quantum := CalculateQuantum(pcbs[next].priority);
    }

    method YieldNow()
      requires Valid() && CanDispatch(View())
      modifies this, queues.Repr
      ensures Valid() && fresh(queues.Repr - old(queues.Repr)) && sems == old(sems)
      ensures View() == Yield(old(View()))
    {
      quantum := 0;
      Dispatch();
    }

    method GetProcessByPid(pid: int) returns (process: Option<nat>)
      requires Valid()
      ensures process == GetProcess(View(), pid)
    {
      if current in pcbs && pcbs[current].pid == pid {
        return Some(current);
      }
      if idle in pcbs && pcbs[idle].pid == pid {
        return Some(idle);
      }
      process := queues.LookInReady(pcbs, pid);
      if process.None? {
        process := queues.LookInBlocked(pcbs, pid);
        if process.None? {
          process := queues.LookInBySem(pcbs, pid);
          if process.None? {
            process := queues.LookInZombie(pcbs, pid);
          }
        }
      }
    }

    // ---------------------------------------------------------------- the calls

    method Reap(child: nat) returns (retValue: int)
      requires Valid() && child in pcbs
      modifies this, queues.Repr
      ensures Valid() && fresh(queues.Repr - old(queues.Repr))
      ensures View() == ReapChild(old(View()), child) && retValue == old(pcbs[child].retValue)
    {
      retValue := pcbs[child].retValue;
      queues.RemoveZombie(pcbs, pcbs[child].pid);
      pcbs := pcbs - {child};
    }

    method WakeupWaitingParent(parentPid: int, childPid: int)
      requires Valid() && idle in pcbs
      modifies this, queues.Repr
      ensures Valid() && fresh(queues.Repr - old(queues.Repr))
      ensures View() == WakeParent(old(View()), parentPid, childPid)
    {
      hide ProcessQueues.Valid, Find, WithoutPid;
      if parentPid == NO_PID {
        return;
      }
      if parentPid == pcbs[idle].pid {
        var child := GetProcessByPid(childPid);
        if child.Some? && child.value in pcbs {
          var _ := Reap(child.value);
        }
      }
      var parent := GetProcessByPid(parentPid);
      if parent.Some? && parent.value in pcbs
         && pcbs[parent.value].state == BLOCKED && pcbs[parent.value].waitingForPid == childPid {
        var _ := UnblockProcessQueue(parentPid);
      }
    }

    /** The kill system call: -1 for idle and the shell, and exactly when nobody alive has that pid. */
    method KillCall(pid: int, retValue: int) returns (r: int)
      requires Valid() && Inv(View())
      modifies this, queues.Repr
      ensures Valid() && fresh(queues.Repr - old(queues.Repr))
      ensures View() == Kill(old(View()), pid, retValue)
      ensures r == if pid > 1 && KernelCalls.Has(old(View()), pid, {READY, RUNNING, BLOCKED, WAITING_SEM}) then 0 else -1
    {
      hide ProcessQueues.Valid, Find, WithoutPid, KernelCalls.Has;
      KernelCalls.KillFinds(View(), pid);
      if pid <= SHELL_PID {
        return -1;
      }
      KillFrame(View(), pid, retValue);
      if FindAlive(View(), pid).Some? {
        VictimIs(View(), pid, retValue);
      }
      var victim := KillByPid(pid, retValue);
      if victim.None? {
        return -1;
      }
      WokenCanDispatch(View(), victim.value);
      WakeParentFrame(View(), pcbs[victim.value].parentPid, pid);
      WakeupWaitingParent(pcbs[victim.value].parentPid, pid);
      if pid == currentPid {
        YieldNow();
      }
      r := 0;
    }

    /** The block system call: -1 exactly when no process other than idle has that pid and is ready,
        runs or waits for a semaphore. */
    method BlockCall(pid: int) returns (r: int)
      requires Valid() && Inv(View())
      modifies this, queues.Repr
      ensures Valid() && fresh(queues.Repr - old(queues.Repr))
      ensures View() == BlockProcess(old(View()), pid)
      ensures r == if KernelCalls.Has(old(View()), pid, {READY, RUNNING, WAITING_SEM}) then 0 else -1
    {
      hide ProcessQueues.Valid, Find, WithoutPid, KernelCalls.Has, Schedule;
      BlockSettled(View(), pid);
      KernelCalls.BlockFinds(View(), pid);
      var ok := BlockProcessQueue(pid);
      if !ok {
        return -1;
      }
      SettledCanDispatch(View());
      if current in pcbs && pid == pcbs[current].pid {
        YieldNow();
      }
      r := 0;
    }

    /** The unblock system call: -1 exactly when no process with that pid is blocked. */
    method UnblockCall(pid: int) returns (r: int)
      requires Valid() && Inv(View())
      modifies this, queues.Repr
      ensures Valid() && fresh(queues.Repr - old(queues.Repr))
      ensures View() == UnblockQueue(old(View()), pid)
      ensures r == if KernelCalls.Has(old(View()), pid, {BLOCKED}) then 0 else -1
    {
      hide ProcessQueues.Valid, Find, WithoutPid, KernelCalls.Has;
      KernelCalls.UnblockExactly(View(), pid);
      var ok := UnblockProcessQueue(pid);
      r := if ok then 0 else -1;
    }

    method CurrentPidNow() returns (pid: int)
      ensures pid == CurrentPid(View())
    {
      pid := if current in pcbs then pcbs[current].pid else NO_PID;
    }

    /** Process creation, with the control block at address a. */
    method CreateCall(a: nat, priority: int, foregroundFlag: bool, readsTerminal: bool, memoryLeft: bool) returns (pid: int)
      requires Valid()
      modifies this, queues.Repr
      ensures Valid() && fresh(queues.Repr - old(queues.Repr))
      ensures View() == Create(old(View()), a, priority, foregroundFlag, readsTerminal, memoryLeft)
      ensures pid == (if memoryLeft then old(nextFreePid) else -1)
    {
      hide ProcessQueues.Valid, Find, WithoutPid;
      pid := nextFreePid;
      nextFreePid := nextFreePid + 1;
      if !memoryLeft {
        return -1;
      }
      var parent := CurrentPidNow();
      var process := PCB(pid, parent, NO_PID, ClampedPriority(priority), READY, 0, foregroundFlag);
      if pid > SHELL_PID && !foregroundFlag && readsTerminal {
        pcbs := pcbs[a := process.(state := BLOCKED)];
        queues.EnqueueInBlocked(a);
        return;
      }
      pcbs := pcbs[a := process];
      if process.priority != IDLE_PRIORITY {
        if current == idle {
          current := a;
        }
        queues.EnqueueInReady(a);
      }
    }

    method SetWaitingFor(pid: int)
      requires current in pcbs
      modifies this`pcbs
      ensures View() == SetWaiting(old(View()), pid)
    {
      pcbs := pcbs[current := pcbs[current].(waitingForPid := pid)];
    }

    /** The waitpid system call, up to where it returns or gives up the processor. */
    method WaitCall(pid: int) returns (r: WaitResult)
      requires Valid() && Inv(View()) && !first && current != idle
      modifies this, queues.Repr
      ensures Valid() && fresh(queues.Repr - old(queues.Repr))
      ensures (View(), r) == WaitPid(old(View()), pid)
    {
      hide ProcessQueues.Valid, Find, WithoutPid;
      var target := GetProcessByPid(pid);
      if target.None? || target.value !in pcbs {
        return Failed;
      }
      var child, caller := pcbs[target.value], pcbs[current];
      if child.parentPid != caller.pid && caller.waitingForPid != pid {
        return Failed;
      }
      if child.state == ZOMBIE {
        SetWaitingFor(NO_PID);
        var retValue := Reap(target.value);
        return Reaped(pid, retValue);
      }
      if child.state !in {READY, RUNNING, BLOCKED} {
        return Failed;
      }
      CallerGoneIs(View(), pid);
      BlockCaller(pid);
      r := Waiting;
    }

    /** Mark the caller as waiting for the pid, block it and give up the processor. */
    method BlockCaller(pid: int)
      requires Valid() && Inv(View()) && !first && current != idle
      modifies this, queues.Repr
      ensures Valid() && fresh(queues.Repr - old(queues.Repr))
      ensures CanDispatch(CallerGone(old(View()), pid)) && View() == Yield(CallerGone(old(View()), pid))
    {
      hide ProcessQueues.Valid, Find, WithoutPid;
      CallerGoneIs(View(), pid);
      var me := pcbs[current].pid;
      SetWaitingFor(pid);
      var _ := BlockProcessQueue(me);
      YieldNow();
    }

    /** The rest of waitpid, once the caller runs again. */
    method WaitResume(pid: int) returns (r: WaitResult)
      requires Valid() && current in pcbs
      modifies this, queues.Repr
      ensures Valid() && fresh(queues.Repr - old(queues.Repr))
      ensures (View(), r) == WaitResumed(old(View()), pid)
    {
      var target := GetProcessByPid(pid);
      if target.None? || target.value !in pcbs || pcbs[target.value].state != ZOMBIE {
        return Failed;
      }
      SetWaitingFor(NO_PID);
      var retValue := Reap(target.value);
      r := Reaped(pid, retValue);
    }

    /** The priority system call: the priority given, after clamping; -1 for idle, the shell and
        unknown processes. */
    method ChangePrioCall(pid: int, newPrio: int) returns (r: int)
      requires Valid() && Inv(View())
      modifies this`pcbs
      ensures View() == ChangePrio(old(View()), pid, newPrio)
      ensures r == -1 <==> pid <= SHELL_PID || GetProcess(old(View()), pid).None?
      ensures r != -1 ==> 0 <= r <= MAX_PRIORITY && (0 <= newPrio <= MAX_PRIORITY ==> r == newPrio)
      ensures r != -1 ==> exists a :: a in pcbs && pcbs[a].pid == pid && pcbs[a].priority == r
    {
      var process := GetProcessByPid(pid);
      if pid <= SHELL_PID || process.None? {
        return -1;
      }
      GetProcessSound(View(), pid);
      var p := newPrio;
      if p < 0 {
        p := 0;
      } else if p > MAX_PRIORITY {
        p := MAX_PRIORITY;
      }
      pcbs := pcbs[process.value := pcbs[process.value].(priority := p)];
      assert pcbs[process.value].pid == pid;
      r := p;
    }

    // ---------------------------------------------------------------- semaphores

    /** s is the record of open semaphore id, with a waiting queue of its own. */
    ghost predicate IsRecord(id: nat, s: Semaphore)
      reads this, queues, s, s.blocked, s.blocked.Repr
    {
      && s.Valid() && id in sems && s.View() == sems[id]
      && s !in queues.Repr && this !in s.blocked.Repr && s.blocked.Repr !! queues.Repr
    }

    /** wait() on an open semaphore by the current process: a token is taken, or the caller joins
        the record's linked queue and the process manager's, and gives up the processor. */
    method SemWaitCall(id: nat, s: Semaphore)
      requires Valid() && Inv(View()) && IsRecord(id, s)
      modifies this, queues.Repr, s`value, s`lock, s.blocked.Repr
      ensures Valid() && fresh(queues.Repr - old(queues.Repr)) && IsRecord(id, s)
      ensures CurrentPid(old(View())) >= 0 && View() == SemWait(old(View()), id)
    {
      hide ProcessQueues.Valid, Find, WithoutPid, BlockQueueBySem, Schedule, Settled;
      CallerHasPid(View());
      var pid := CurrentPidNow();
      ghost var k := View();
      var blocks := AskRecord(id, s, pid);
      SettledFrame(k, View());
      JoinKeepsCurrent(View(), pid);
      if blocks {
        BlockBySemNow(pid);
      }
    }

    /** The record's own part of wait(). */
    method AskRecord(id: nat, s: Semaphore, pid: nat) returns (blocks: bool)
      requires Valid() && IsRecord(id, s)
      modifies this`sems, s`value, s`lock, s.blocked.Repr
      ensures Valid() && IsRecord(id, s) && fresh(s.blocked.Repr - old(s.blocked.Repr))
      ensures View() == old(View()).(sems := old(sems)[id := Wait(old(sems)[id], pid)])
      ensures blocks == !Grants(old(sems)[id])
    {
      hide ProcessQueues.Valid;
      var r;
      r, blocks := s.WaitFor(pid, true);
      sems := sems[id := s.View()];
    }

    /** Move a process to those that wait for semaphores; give up the processor if it is the
        current one. */
    method BlockBySemNow(pid: int)
      requires Valid() && Settled(View())
      modifies this, queues.Repr
      ensures Valid() && fresh(queues.Repr - old(queues.Repr)) && sems == old(sems)
      ensures var (b, ok) := BlockQueueBySem(old(View()), pid);
              && (ok ==> CanDispatch(b))
              && View() == if ok && pid == CurrentPid(b) then Yield(b) else b
    {
      hide ProcessQueues.Valid, Find, WithoutPid, Schedule, Settled;
      BlockBySemSettled(View(), pid);
      var ok := BlockProcessQueueBySem(pid);
      SettledCanDispatch(View());
      if ok && current in pcbs && pid == pcbs[current].pid {
        YieldNow();
      }
    }

    /** post() on an open semaphore: the first in its linked queue moves to the ready queue, or
        the value grows. */
    method SemPostCall(id: nat, s: Semaphore)
      requires Valid() && IsRecord(id, s)
      modifies this, queues.Repr, s`value, s`lock, s.blocked.Repr
      ensures Valid() && fresh(queues.Repr - old(queues.Repr)) && IsRecord(id, s)
      ensures View() == SemPost(old(View()), id)
    {
      hide ProcessQueues.Valid, Find, WithoutPid;
      var woken := s.PostOne();
      sems := sems[id := s.View()];
      if woken.Some? {
        var _ := UnblockProcessQueueBySem(woken.value);
      }
    }

    // ---------------------------------------------------------------- the process table

    method GetProcessCount() returns (count: nat)
      requires Valid()
      ensures count == |View().ready| + |View().blocked| + |View().zombie| + |View().bySem| + 1
    {
      count := queues.Count();
      count := count + 1;
    }

    method FindEntry(pid: int, ghost k: Kernel, ghost look: int -> Option<nat>) returns (process: Option<nat>)
      requires Valid() && k == View() && look == Lookup(k)
      ensures process == look(pid)
    {
      process := GetProcessByPid(pid);
    }

    /** One iteration: the process with pid i, if there is one, goes to the next free entry. */
    method CopyOne(info: array<PCB>, j: nat, i: nat, ghost k: Kernel, ghost look: int -> Option<nat>) returns (n: nat)
      requires Valid() && info !in queues.Repr && k == View() && look == Lookup(k) && j < info.Length
      requires look(i).Some? ==> look(i).value in k.pcbs
      modifies info
      ensures n == (if look(i).Some? then j + 1 else j)
      ensures info[..n] == old(info[..j]) + (if look(i).Some? then [k.pcbs[look(i).value]] else [])
    {
      var process := FindEntry(i, k, look);
      if process.Some? {
        info[j] := pcbs[process.value];
        n := j + 1;
      } else {
        n := j;
      }
    }

    /** Copy processes in pid order until the table is full. */
    method CopyAll(info: array<PCB>, ghost k: Kernel, ghost look: int -> Option<nat>) returns (i: nat)
      requires Valid() && info !in queues.Repr && k == View() && look == Lookup(k)
      requires 0 <= k.nextFreePid && info.Length == |k.pcbs|
      requires forall n: nat {:trigger StepOk(k.pcbs, look, k.nextFreePid, n)} :: StepOk(k.pcbs, look, k.nextFreePid, n)
      modifies info
      ensures i <= k.nextFreePid && info[..] == Listed(k.pcbs, look, i)
    {
      hide ProcessQueues.Valid, Find, WithoutPid;
      var j := 0;
      i := 0;
      while j < info.Length
        invariant Valid() && View() == k && i <= k.nextFreePid && j <= info.Length
        invariant info[..j] == Listed(k.pcbs, look, i)
        decreases k.nextFreePid - i
      {
        assert StepOk(k.pcbs, look, k.nextFreePid, i);
        j := CopyOne(info, j, i, k, look);
        i := i + 1;
      }
      assert info[..] == info[..j];
    }

    /** A table of all processes: the loop runs over pids until as many processes are copied as
        the queues and idle count. */
    method GetProcessInfo(memoryLeft: bool) returns (info: array?<PCB>)
      requires Valid() && Inv(View())
      ensures info == null <==> !memoryLeft
      ensures info != null ==> fresh(info) && info[..] == ProcessTable(View())
    {
      hide ProcessQueues.Valid, Find, WithoutPid;
      if !memoryLeft {
        return null;
      }
      var count := GetProcessCount();
      QueuesCountAll(View());
      LookupIsOk(View());
      info := new PCB[count](_ => PCB(0, 0, 0, 0, READY, 0, false));
      ghost var k := View();
      forall n: nat ensures StepOk(k.pcbs, Lookup(k), k.nextFreePid, n) {
        ListedStep(k.pcbs, Lookup(k), k.nextFreePid, n);
      }
      var i := CopyAll(info, k, Lookup(k));
      ListedDone(k.pcbs, Lookup(k), k.nextFreePid, i);
    }
  }

  lemma CallerHasPid(k: Kernel)
    requires Inv(k)
    ensures CurrentPid(k) >= 0 && Settled(k)
  {
  }

  lemma JoinKeepsCurrent(m: Kernel, pid: int)
    ensures CurrentPid(BlockQueueBySem(m, pid).0) == CurrentPid(m)
    ensures !BlockQueueBySem(m, pid).1 ==> BlockQueueBySem(m, pid).0 == m
  {
  }

  /** Only the victim itself can be the foreground process with its pid. */
  lemma ForegroundIs(k: Kernel, pid: int)
    requires Settled(k) && FindAlive(k, pid).Some?
    ensures FindAlive(k, pid).value in k.pcbs
    ensures k.foreground.Some? && k.foreground.value in k.pcbs && k.pcbs[k.foreground.value].pid == pid <==>
            k.foreground == FindAlive(k, pid)
  {
  }

  lemma WakeParentFrame(k: Kernel, parentPid: int, childPid: int)
    requires k.idle in k.pcbs
    ensures WakeParent(k, parentPid, childPid).currentPid == k.currentPid
  {
  }

  lemma KillFrame(k: Kernel, pid: int, retValue: int)
    ensures KillProcess(k, pid, retValue).0.currentPid == k.currentPid
    ensures KillProcess(k, pid, retValue).0.idle == k.idle
  {
  }

  /** The victim of a kill is a zombie whose parent can be woken. */
  lemma VictimIs(k: Kernel, pid: int, retValue: int)
    requires Settled(k) && pid > SHELL_PID && KillProcess(k, pid, retValue).1.Some?
    ensures var (m, victim) := KillProcess(k, pid, retValue);
            && Settled(m) && m.idle in m.pcbs
            && victim.value in m.pcbs && m.pcbs[victim.value].pid == pid
            && m.pcbs[victim.value].state == ZOMBIE && m.current != victim.value
  {
    KillSettled(k, pid, retValue);
  }

  lemma WokenCanDispatch(m: Kernel, victim: nat)
    requires Settled(m) && victim in m.pcbs && m.pcbs[victim].state == ZOMBIE && m.current != victim
    ensures CanDispatch(WakeParent(m, m.pcbs[victim].parentPid, m.pcbs[victim].pid))
  {
    WakeParentSettled(m, victim);
    SettledCanDispatch(WakeParent(m, m.pcbs[victim].parentPid, m.pcbs[victim].pid));
  }

  // ---------------------------------------------------------------- the process table

  function Lookup(k: Kernel): int -> Option<nat> { pid => GetProcess(k, pid) }

  /** A search by pid that finds exactly the processes of pcbs, whose pids are below next. */
  ghost predicate LookupOk(pcbs: Pcbs, look: int -> Option<nat>, next: nat) {
    && (forall i :: look(i).Some? ==> look(i).value in pcbs && pcbs[look(i).value].pid == i)
    && (forall a :: a in pcbs ==> look(pcbs[a].pid) == Some(a) && 0 <= pcbs[a].pid < next)
  }

  lemma LookupIsOk(k: Kernel)
    requires Inv(k)
    ensures k.nextFreePid >= 0 && LookupOk(k.pcbs, Lookup(k), k.nextFreePid)
  {
    forall i ensures Lookup(k)(i).Some? ==> Lookup(k)(i).value in k.pcbs && k.pcbs[Lookup(k)(i).value].pid == i {
      GetProcessSound(k, i);
    }
    forall a | a in k.pcbs ensures Lookup(k)(k.pcbs[a].pid) == Some(a) {
      GetProcessIs(k, a);
    }
  }

  /** The processes with pids below i, in pid order. */
  function Listed(pcbs: Pcbs, look: int -> Option<nat>, i: nat): seq<PCB> {
    if i == 0 then []
    else
      Listed(pcbs, look, i - 1)
      + (if look(i - 1).Some? && look(i - 1).value in pcbs then [pcbs[look(i - 1).value]] else [])
  }

  function ProcessTable(k: Kernel): seq<PCB> {
    if k.nextFreePid < 0 then [] else Listed(k.pcbs, Lookup(k), k.nextFreePid)
  }

  ghost function Below(pcbs: Pcbs, i: int): set<nat> { set a | a in pcbs && pcbs[a].pid < i }

  lemma {:induction false} ListedSize(pcbs: Pcbs, look: int -> Option<nat>, next: nat, i: nat)
    requires LookupOk(pcbs, look, next)
    ensures |Listed(pcbs, look, i)| == |Below(pcbs, i)| <= |pcbs|
    ensures i >= next ==> |Below(pcbs, i)| == |pcbs|
  {
    if i > 0 {
      ListedSize(pcbs, look, next, i - 1);
      if look(i - 1).Some? {
        assert Below(pcbs, i) == Below(pcbs, i - 1) + {look(i - 1).value};
      } else {
        assert Below(pcbs, i) == Below(pcbs, i - 1);
      }
    } else {
      assert Below(pcbs, 0) == {};
    }
    SubsetSmaller(Below(pcbs, i), pcbs.Keys);
    if i >= next {
      assert Below(pcbs, i) == pcbs.Keys;
    }
  }

  lemma SubsetSmaller(s: set<nat>, t: set<nat>)
    requires s <= t
    ensures |s| <= |t|
  {
    assert t == s + (t - s);
  }

  /** While the table is not full, some pid is still ahead. */
  ghost predicate StepOk(pcbs: Pcbs, look: int -> Option<nat>, next: nat, i: nat) {
    |Listed(pcbs, look, i)| < |pcbs| ==>
      && i < next && |Listed(pcbs, look, i + 1)| <= |pcbs|
      && (look(i).Some? ==> look(i).value in pcbs)
      && Listed(pcbs, look, i + 1) == Listed(pcbs, look, i) + (if look(i).Some? then [pcbs[look(i).value]] else [])
  }

  lemma ListedStep(pcbs: Pcbs, look: int -> Option<nat>, next: nat, i: nat)
    requires LookupOk(pcbs, look, next)
    ensures StepOk(pcbs, look, next, i)
  {
    ListedSize(pcbs, look, next, i);
    ListedSize(pcbs, look, next, i + 1);
  }

  /** Once as many processes are listed as there are, going on adds none. */
  lemma {:induction false} ListedDone(pcbs: Pcbs, look: int -> Option<nat>, next: nat, i: nat)
    requires LookupOk(pcbs, look, next) && i <= next && |Listed(pcbs, look, i)| == |pcbs|
    ensures Listed(pcbs, look, i) == Listed(pcbs, look, next)
    decreases next - i
  {
    if i < next {
      ListedSize(pcbs, look, next, i + 1);
      ListedDone(pcbs, look, next, i + 1);
    }
  }

  lemma {:induction false} ListedSound(pcbs: Pcbs, look: int -> Option<nat>, i: nat, c: PCB)
    requires c in Listed(pcbs, look, i)
    ensures exists a :: a in pcbs && pcbs[a] == c
  {
    if c in Listed(pcbs, look, i - 1) {
      ListedSound(pcbs, look, i - 1, c);
    } else {
      var a := look(i - 1).value;
      assert a in pcbs && pcbs[a] == c;
    }
  }

  lemma {:induction false} ListedHas(pcbs: Pcbs, look: int -> Option<nat>, next: nat, i: nat, a: nat)
    requires LookupOk(pcbs, look, next) && a in pcbs && pcbs[a].pid < i
    ensures pcbs[a] in Listed(pcbs, look, i)
    decreases i
  {
    if pcbs[a].pid < i - 1 {
      ListedHas(pcbs, look, next, i - 1, a);
    }
  }

  lemma {:induction false} ListedAscends(pcbs: Pcbs, look: int -> Option<nat>, next: nat, i: nat)
    requires LookupOk(pcbs, look, next)
    ensures forall l :: 0 <= l < |Listed(pcbs, look, i)| ==> Listed(pcbs, look, i)[l].pid < i
    ensures forall l, m :: 0 <= l < m < |Listed(pcbs, look, i)| ==>
              Listed(pcbs, look, i)[l].pid < Listed(pcbs, look, i)[m].pid
  {
    if i > 0 {
      ListedAscends(pcbs, look, next, i - 1);
    }
  }

  /** The table is in strictly ascending pid order, and its entries are exactly the control
      blocks of all live processes, idle included. */
  lemma TableIsComplete(k: Kernel)
    requires Inv(k)
    ensures |ProcessTable(k)| == |k.pcbs|
    ensures forall l, m :: 0 <= l < m < |ProcessTable(k)| ==> ProcessTable(k)[l].pid < ProcessTable(k)[m].pid
    ensures forall c :: c in ProcessTable(k) <==> exists a :: a in k.pcbs && k.pcbs[a] == c
  {
    LookupIsOk(k);
    var n := k.nextFreePid;
    ListedAscends(k.pcbs, Lookup(k), n, n);
    ListedSize(k.pcbs, Lookup(k), n, n);
    forall c | c in ProcessTable(k) ensures exists a :: a in k.pcbs && k.pcbs[a] == c {
      ListedSound(k.pcbs, Lookup(k), n, c);
    }
    forall a | a in k.pcbs ensures k.pcbs[a] in ProcessTable(k) {
      ListedHas(k.pcbs, Lookup(k), n, n, a);
    }
  }

  ghost function Members(q: seq<nat>): set<nat> { set a | a in q }

  lemma {:induction false} NoDupSize(q: seq<nat>)
    requires NoDup(q)
    ensures |Members(q)| == |q|
  {
    if q != [] {
      NoDupSize(q[1..]);
      assert Members(q) == Members(q[1..]) + {q[0]};
    }
  }

  lemma QueuesDisjoint(k: Kernel)
    requires Partition(k)
    ensures Members(k.ready) !! Members(k.blocked) && Members(k.ready) !! Members(k.zombie)
    ensures Members(k.ready) !! Members(k.bySem) && Members(k.blocked) !! Members(k.zombie)
    ensures Members(k.blocked) !! Members(k.bySem) && Members(k.zombie) !! Members(k.bySem)
  {
    forall a | Queued(k, a) ensures a in k.pcbs && a != k.idle && Placed(k, a) {
    }
    forall a ensures a in Members(k.ready) ==> a !in k.blocked && a !in k.zombie && a !in k.bySem {
      assert Queued(k, a) ==> a in k.pcbs && Placed(k, a);
    }
    forall a ensures a in Members(k.blocked) ==> a !in k.zombie && a !in k.bySem {
      assert Queued(k, a) ==> a in k.pcbs && Placed(k, a);
    }
    forall a ensures a in Members(k.zombie) ==> a !in k.bySem {
      assert Queued(k, a) ==> a in k.pcbs && Placed(k, a);
    }
  }

  lemma QueuedAreLive(k: Kernel)
    requires Partition(k)
    ensures k.pcbs.Keys == Members(k.ready) + Members(k.blocked) + Members(k.zombie) + Members(k.bySem) + {k.idle}
    ensures k.idle !in Members(k.ready) + Members(k.blocked) + Members(k.zombie) + Members(k.bySem)
  {
    forall a ensures a in k.pcbs.Keys <==> a in Members(k.ready) + Members(k.blocked) + Members(k.zombie) + Members(k.bySem) + {k.idle} {
      assert a in k.pcbs ==> Placed(k, a);
      assert Queued(k, a) ==> a in k.pcbs;
    }
    assert Queued(k, k.idle) ==> false;
  }

  /** The queue sizes plus one for idle count every live process. */
  lemma QueuesCountAll(k: Kernel)
    requires Partition(k)
    ensures |k.ready| + |k.blocked| + |k.zombie| + |k.bySem| + 1 == |k.pcbs|
  {
    NoDupSize(k.ready);
    NoDupSize(k.blocked);
    NoDupSize(k.zombie);
    NoDupSize(k.bySem);
    QueuesDisjoint(k);
    QueuedAreLive(k);
    assert |k.pcbs| == |k.pcbs.Keys|;
    var a, b := Members(k.ready), Members(k.blocked);
    assert |a + b| == |a| + |b|;
    assert |a + b + Members(k.zombie)| == |a + b| + |Members(k.zombie)|;
  }
}

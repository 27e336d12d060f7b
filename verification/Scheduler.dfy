/** The kernel's process calls as atomic steps, and the invariant every run keeps. */
module Scheduler {
  import opened Options
  import opened Queues
  import opened Semaphores
  import opened Processes

  datatype WaitResult = Failed | Waiting | Reaped(pid: int, retValue: int)

  /** States in which the dispatcher can run. */
  ghost predicate CanDispatch(k: Kernel) {
    k.current in k.pcbs && k.idle in k.pcbs && forall a :: a in k.ready ==> a in k.pcbs
  }

  lemma SettledCanDispatch(k: Kernel)
    requires Settled(k)
    ensures CanDispatch(k)
  {
    ReadyKnown(k);
  }

  function CurrentPid(k: Kernel): int {
    if k.current in k.pcbs then k.pcbs[k.current].pid else NO_PID
  }

  // ---------------------------------------------------------------- the calls

  function ClampedPriority(priority: int): Priority {
    if 0 <= priority <= IDLE_PRIORITY then priority else MAX_PRIORITY
  }

  /** A process that reads the terminal without being in the foreground starts blocked. */
  predicate StartsBlocked(k: Kernel, foreground: bool, readsTerminal: bool) {
    k.nextFreePid > SHELL_PID && !foreground && readsTerminal
  }

  /** Creation at a fresh address a; a failure after the pid was taken only uses the pid up. */
  function Create(k: Kernel, a: nat, priority: int, foreground: bool, readsTerminal: bool, memoryLeft: bool): Kernel {
    var n := k.(nextFreePid := k.nextFreePid + 1);
    if !memoryLeft then n
    else
      var blocked := StartsBlocked(k, foreground, readsTerminal);
      var pcb := PCB(k.nextFreePid, CurrentPid(k), NO_PID, ClampedPriority(priority), if blocked then BLOCKED else READY, 0, foreground);
      var m := n.(pcbs := k.pcbs[a := pcb]);
      if blocked then m.(blocked := k.blocked + [a])
      else if pcb.priority != IDLE_PRIORITY then
        m.(ready := k.ready + [a], current := if k.current == k.idle then a else k.current)
      else m
  }

  function BlockProcess(k: Kernel, pid: int): Kernel
    requires Inv(k)
  {
    BlockSettled(k, pid);
    var (m, ok) := BlockQueue(k, pid);
    SettledCanDispatch(m);
    if ok && pid == CurrentPid(m) then Yield(m) else m
  }

  /** A zombie leaves its queue and its control block is freed. */
  function ReapChild(k: Kernel, child: nat): Kernel
    requires child in k.pcbs
  {
    k.(zombie := WithoutPid(k.pcbs, k.zombie, k.pcbs[child].pid), pcbs := k.pcbs - {child})
  }

  function WakeParent(k: Kernel, parentPid: int, childPid: int): Kernel
    requires k.idle in k.pcbs
  {
    if parentPid == NO_PID then k
    else
      var child := GetProcess(k, childPid);
      var r := if parentPid == k.pcbs[k.idle].pid && child.Some? && child.value in k.pcbs then ReapChild(k, child.value) else k;
      match GetProcess(r, parentPid)
      case Some(p) =>
        if p in r.pcbs && r.pcbs[p].state == BLOCKED && r.pcbs[p].waitingForPid == childPid then UnblockQueue(r, parentPid) else r
      case None => r
  }

  function Kill(k: Kernel, pid: int, retValue: int): Kernel
    requires Inv(k)
  {
    if pid <= SHELL_PID then k
    else
      KillSettled(k, pid, retValue);
      var (m, victim) := KillProcess(k, pid, retValue);
      if victim.None? then m
      else
        var w := WakeParent(m, m.pcbs[victim.value].parentPid, pid);
        WakeParentSettled(m, victim.value);
        SettledCanDispatch(w);
        if pid == k.currentPid then Yield(w) else w
  }

  function SetWaiting(k: Kernel, pid: int): Kernel
    requires k.current in k.pcbs
  {
    k.(pcbs := k.pcbs[k.current := k.pcbs[k.current].(waitingForPid := pid)])
  }

  /** waitpid up to the point where it returns or gives up the processor. */
  function WaitPid(k: Kernel, pid: int): (Kernel, WaitResult)
    requires Inv(k)
  {
    var caller := k.pcbs[k.current];
    match GetProcess(k, pid)
    case None => (k, Failed)
    case Some(t) =>
      if t !in k.pcbs || (k.pcbs[t].parentPid != caller.pid && caller.waitingForPid != pid) then (k, Failed)
      else if k.pcbs[t].state == ZOMBIE then
        var m := SetWaiting(k, NO_PID);
        (ReapChild(m, t), Reaped(pid, k.pcbs[t].retValue))
      else if k.pcbs[t].state in {READY, RUNNING, BLOCKED} then
        SetWaitingSettled(k, pid);
        var m := SetWaiting(k, pid);
        BlockSettled(m, caller.pid);
        var (b, ok) := BlockQueue(m, caller.pid);
        SettledCanDispatch(b);
        if ok then (Yield(b), Waiting)
        else (m.(pcbs := m.pcbs[m.current := m.pcbs[m.current].(waitingForPid := NO_PID, state := READY)]), Failed)
      else (k, Failed)
  }

  /** The rest of waitpid, once the caller runs again. */
  function WaitResumed(k: Kernel, pid: int): (Kernel, WaitResult)
    requires k.current in k.pcbs
  {
    match GetProcess(k, pid)
    case None => (k, Failed)
    case Some(t) =>
      if t in k.pcbs && k.pcbs[t].state == ZOMBIE then
        (ReapChild(SetWaiting(k, NO_PID), t), Reaped(pid, k.pcbs[t].retValue))
      else (k, Failed)
  }

  function ChangePrio(k: Kernel, pid: int, newPrio: int): Kernel {
    if pid <= SHELL_PID then k
    else
      match GetProcess(k, pid)
      case Some(a) =>
        var p := if newPrio < 0 then 0 else if newPrio > MAX_PRIORITY then MAX_PRIORITY else newPrio;
        if a in k.pcbs then k.(pcbs := k.pcbs[a := k.pcbs[a].(priority := p)]) else k
      case None => k
  }

  /** wait() on an open semaphore by the current process. */
  function SemWait(k: Kernel, id: nat): Kernel
    requires Inv(k) && id in k.sems && CurrentPid(k) >= 0
  {
    var s := k.sems[id];
    var pid := CurrentPid(k);
    var m := k.(sems := k.sems[id := Wait(s, pid)]);
    if Grants(s) then m
    else
      SettledFrame(k, m);
      BlockBySemSettled(m, pid);
      var (b, ok) := BlockQueueBySem(m, pid);
      SettledCanDispatch(b);
      if ok then Yield(b) else m
  }

  function SemPost(k: Kernel, id: nat): Kernel
    requires id in k.sems
  {
    var s := k.sems[id];
    var m := k.(sems := k.sems[id := Post(s)]);
    if s.waiting != [] then UnblockQueueBySem(m, s.waiting[0]) else m
  }

  // ---------------------------------------------------------------- changes of one control block

  /** Fields that play no part in queues and pointers may change freely. */
  lemma FieldsSettled(k: Kernel, m: Kernel)
    requires Settled(k) && m.pcbs.Keys == k.pcbs.Keys
    requires forall a :: a in k.pcbs ==> m.pcbs[a].pid == k.pcbs[a].pid && m.pcbs[a].state == k.pcbs[a].state
    requires m == k.(pcbs := m.pcbs)
    ensures Settled(m)
  {
    forall b | b in m.pcbs ensures Placed(m, b) { assert Placed(k, b); }
    forall b | Queued(m, b) ensures b in m.pcbs && b != m.idle { assert Queued(k, b); }
  }

  lemma SetWaitingSettled(k: Kernel, pid: int)
    requires Settled(k)
    ensures Settled(SetWaiting(k, pid))
  {
    FieldsSettled(k, SetWaiting(k, pid));
  }

  lemma ReapSettled(k: Kernel, child: nat)
    requires Settled(k) && child in k.pcbs && k.pcbs[child].state == ZOMBIE && child != k.current
    ensures Settled(ReapChild(k, child)) && child !in ReapChild(k, child).pcbs
    ensures !Queued(ReapChild(k, child), child)
  {
    assert Placed(k, child);
    WithoutIs(k.pcbs, k.zombie, child);
    var m := ReapChild(k, child);
    forall b | b in m.pcbs ensures Placed(m, b) { assert Placed(k, b); }
    forall b | Queued(m, b) ensures b in m.pcbs && b != m.idle { assert Queued(k, b); }
    if k.foreground.Some? {
      assert Queued(k, k.foreground.value) && Placed(k, k.foreground.value);
    }
  }

  /** Looking a pid up finds the one process that has it. */
  lemma GetProcessIs(k: Kernel, a: nat)
    requires Partition(k) && PidsOk(k) && a in k.pcbs
    ensures GetProcess(k, k.pcbs[a].pid) == Some(a)
  {
    assert Placed(k, a);
  }

  lemma GetProcessSound(k: Kernel, pid: int)
    requires Partition(k) && PidsOk(k)
    ensures GetProcess(k, pid).Some? <==> exists a :: a in k.pcbs && k.pcbs[a].pid == pid
    ensures GetProcess(k, pid).Some? ==> GetProcess(k, pid).value in k.pcbs && k.pcbs[GetProcess(k, pid).value].pid == pid
  {
    forall a | a in k.pcbs && k.pcbs[a].pid == pid ensures GetProcess(k, pid) == Some(a) {
      GetProcessIs(k, a);
    }
  }

  lemma WakeParentSettled(k: Kernel, child: nat)
    requires Settled(k) && child in k.pcbs && k.pcbs[child].state == ZOMBIE && child != k.current
    ensures Settled(WakeParent(k, k.pcbs[child].parentPid, k.pcbs[child].pid))
  {
    var parentPid := k.pcbs[child].parentPid;
    if parentPid != NO_PID {
      ReapSettled(k, child);
      WakeParentCases(k, child);
      var r := if parentPid == 0 then ReapChild(k, child) else k;
      UnblockSettled(r, parentPid);
    }
  }

  /** Idle's zombie is reaped; then the parent is made ready, or nothing more happens. */
  lemma WakeParentCases(k: Kernel, child: nat)
    requires Settled(k) && child in k.pcbs && k.pcbs[child].parentPid != NO_PID
    ensures var parentPid := k.pcbs[child].parentPid;
            var m := WakeParent(k, parentPid, k.pcbs[child].pid);
            var r := if parentPid == 0 then ReapChild(k, child) else k;
            m == r || m == UnblockQueue(r, parentPid)
  {
    GetProcessIs(k, child);
  }

  // ---------------------------------------------------------------- steps

  datatype Step =
    | Tick
    | GiveUp
    | New(a: nat, priority: int, foreground: bool, readsTerminal: bool, memoryLeft: bool)
    | Block(pid: int)
    | Unblock(pid: int)
    | KillPid(pid: int, retValue: int)
    | WaitFor(pid: int)
    | WaitAgain(pid: int)
    | Prio(pid: int, priority: int)
    | Open(id: nat, value: nat)
    | DownSem(id: nat)
    | UpSem(id: nat)
    | Close(id: nat)

  /** Creation that puts the new process into a queue and leaves the running process current. */
  predicate CreationOk(k: Kernel, priority: int, foreground: bool, readsTerminal: bool) {
    StartsBlocked(k, foreground, readsTerminal) ||
    (ClampedPriority(priority) != IDLE_PRIORITY && (k.first || k.current != k.idle))
  }

  /** Steps are system calls of the current process and whatever an interrupt handler does on top
      of it, idle included, and the set-up before the first dispatch. Fresh blocks come from the
      allocator; waitpid is a call of a running user process and resumes in that process;
      semaphores are used while open. */
  predicate Allowed(k: Kernel, e: Step) {
    match e
    case New(a, priority, foreground, readsTerminal, memoryLeft) =>
      a !in k.pcbs && CreationOk(k, priority, foreground, readsTerminal)
    case WaitFor(pid) => !k.first && k.current != k.idle
    case WaitAgain(pid) =>
      !k.first && k.current != k.idle && k.current in k.pcbs && k.pcbs[k.current].waitingForPid == pid
    case DownSem(id) => id in k.sems
    case UpSem(id) => id in k.sems
    case _ => true
  }

  function Next(k: Kernel, e: Step): Kernel
    requires Inv(k) && Allowed(k, e)
  {
    SettledCanDispatch(k);
    match e
    case Tick => Schedule(k)
    case GiveUp => Yield(k)
    case New(a, priority, foreground, readsTerminal, memoryLeft) =>
      Create(k, a, priority, foreground, readsTerminal, memoryLeft)
    case Block(pid) => BlockProcess(k, pid)
    case Unblock(pid) => UnblockQueue(k, pid)
    case KillPid(pid, retValue) => Kill(k, pid, retValue)
    case WaitFor(pid) => WaitPid(k, pid).0
    case WaitAgain(pid) => WaitResumed(k, pid).0
    case Prio(pid, priority) => ChangePrio(k, pid, priority)
    case Open(id, value) => if id in k.sems then k else k.(sems := k.sems[id := Sem(value, [])])
    case DownSem(id) => SemWait(k, id)
    case UpSem(id) => SemPost(k, id)
    case Close(id) => k.(sems := k.sems - {id})
  }

  // ---------------------------------------------------------------- every step keeps the invariant

  /** The current process is untouched by a change that concerns another pid. */
  lemma OtherInv(k: Kernel, m: Kernel, pid: int)
    requires Inv(k) && Settled(m) && OthersSame(k, m, pid) && m.current == k.current && k.pcbs[k.current].pid != pid
    ensures Inv(m)
  {
  }

  lemma YieldKeeps(k: Kernel)
    requires Settled(k) && CanDispatch(k)
    ensures Inv(Yield(k)) && !Yield(k).first
  {
    var z := k.(quantum := 0);
    SettledFrame(k, z);
    DispatchKeeps(z);
  }

  lemma BlockKeeps(k: Kernel, pid: int)
    requires Inv(k)
    ensures Inv(BlockProcess(k, pid))
  {
    BlockSettled(k, pid);
    var (m, ok) := BlockQueue(k, pid);
    SettledCanDispatch(m);
    if ok {
      if pid == CurrentPid(m) {
        YieldKeeps(m);
      } else {
        OtherInv(k, m, pid);
      }
    }
  }

  lemma UnblockKeeps(k: Kernel, pid: int)
    requires Inv(k)
    ensures Inv(UnblockQueue(k, pid))
  {
    UnblockSettled(k, pid);
    if Find(k.pcbs, k.blocked, pid).Some? {
      var a := Find(k.pcbs, k.blocked, pid).value;
      assert Queued(k, a) && Placed(k, a) && Placed(k, k.current);
      OtherInv(k, UnblockQueue(k, pid), pid);
    }
  }

  lemma CreateKeeps(k: Kernel, a: nat, priority: int, foreground: bool, readsTerminal: bool, memoryLeft: bool)
    requires Inv(k) && a !in k.pcbs && CreationOk(k, priority, foreground, readsTerminal)
    ensures Inv(Create(k, a, priority, foreground, readsTerminal, memoryLeft))
  {
    var m := Create(k, a, priority, foreground, readsTerminal, memoryLeft);
    assert Queued(k, a) ==> a in k.pcbs;
    forall b | b in m.pcbs ensures Placed(m, b) {
      assert b in k.pcbs ==> Placed(k, b);
    }
    forall b | Queued(m, b) ensures b in m.pcbs && b != m.idle {
      assert b != a ==> Queued(k, b);
    }
    assert k.current in k.ready ==> k.current in m.ready;
    if memoryLeft {
      if StartsBlocked(k, foreground, readsTerminal) {
        AppendOk(k.blocked, a);
      } else {
        AppendOk(k.ready, a);
      }
    }
  }

  lemma KillKeeps(k: Kernel, pid: int, retValue: int)
    requires Inv(k)
    ensures Inv(Kill(k, pid, retValue))
  {
    if pid > SHELL_PID {
      KillSettled(k, pid, retValue);
      var (m, victim) := KillProcess(k, pid, retValue);
      if victim.Some? {
        var w := WakeParent(m, m.pcbs[victim.value].parentPid, pid);
        WakeParentSettled(m, victim.value);
        SettledCanDispatch(w);
        if pid == k.currentPid {
          YieldKeeps(w);
        } else {
          BuriedInv(k, pid, retValue);
          WakeParentInv(m, victim.value);
        }
      } else {
        NobodyKilled(k, pid);
      }
    }
  }

  lemma NobodyKilled(k: Kernel, pid: int)
    requires Inv(k) && pid != 0 && FindAlive(k, pid).None?
    ensures k.pcbs[k.current].pid != pid
  {
    assert k.current != k.idle ==> k.current in k.ready;
  }

  /** The current process dies without giving up the processor only before the first dispatch,
      and idle takes its place. */
  lemma BuriedInv(k: Kernel, pid: int, retValue: int)
    requires Inv(k) && pid > SHELL_PID && pid != k.currentPid && KillProcess(k, pid, retValue).1.Some?
    ensures Inv(KillProcess(k, pid, retValue).0)
  {
    KillSettled(k, pid, retValue);
    BuriedFrame(k, pid, retValue);
    var m := KillProcess(k, pid, retValue).0;
    if k.pcbs[k.current].pid != pid {
      KillOthers(k, pid, retValue);
      OtherInv(k, m, pid);
    } else {
      IdleReplaces(k, m, pid);
    }
  }

  lemma BuriedFrame(k: Kernel, pid: int, retValue: int)
    requires k.current in k.pcbs
    ensures var m := KillProcess(k, pid, retValue).0;
            && m.current == (if k.pcbs[k.current].pid == pid then k.idle else k.current)
            && m.idle == k.idle && m.first == k.first && m.quantum == k.quantum
  {
  }

  lemma IdleReplaces(k: Kernel, m: Kernel, pid: int)
    requires Inv(k) && Settled(m) && pid != k.currentPid && k.pcbs[k.current].pid == pid
    requires m.current == k.idle == m.idle && m.first == k.first && m.quantum == k.quantum
    requires k.current != k.idle && m.pcbs[k.idle] == k.pcbs[k.idle]
    ensures Inv(m)
  {
  }

  lemma ReapKeeps(k: Kernel, child: nat)
    requires Inv(k) && child in k.pcbs && k.pcbs[child].state == ZOMBIE
    ensures child != k.current && Inv(ReapChild(k, child))
  {
    assert Placed(k, child) && Placed(k, k.current);
    ReapSettled(k, child);
  }

  /** Killing another process leaves the running one running. */
  lemma WakeParentInv(k: Kernel, victim: nat)
    requires Inv(k) && victim in k.pcbs && k.pcbs[victim].state == ZOMBIE
    ensures Inv(WakeParent(k, k.pcbs[victim].parentPid, k.pcbs[victim].pid))
  {
    var parentPid := k.pcbs[victim].parentPid;
    GetProcessIs(k, victim);
    if parentPid != NO_PID {
      ReapKeeps(k, victim);
      UnblockKeeps(if parentPid == k.pcbs[k.idle].pid then ReapChild(k, victim) else k, parentPid);
    }
  }

  /** The state in which the caller of waitpid gives up the processor. */
  function CallerGone(k: Kernel, pid: int): Kernel
    requires k.current in k.pcbs
  {
    BlockQueue(SetWaiting(k, pid), k.pcbs[k.current].pid).0
  }

  lemma CallerGoneIs(k: Kernel, pid: int)
    requires Inv(k) && !k.first && k.current != k.idle
    ensures Settled(SetWaiting(k, pid)) && Settled(CallerGone(k, pid)) && CanDispatch(CallerGone(k, pid))
    ensures BlockQueue(SetWaiting(k, pid), k.pcbs[k.current].pid).1
    ensures CallerGone(k, pid).ready == WithoutPid(SetWaiting(k, pid).pcbs, k.ready, k.pcbs[k.current].pid)
  {
    SetWaitingSettled(k, pid);
    var m := SetWaiting(k, pid);
    var me := k.pcbs[k.current].pid;
    BlockSettled(m, me);
    WithoutIs(m.pcbs, m.ready, m.current);
    SettledCanDispatch(CallerGone(k, pid));
  }

  /** waitpid leaves the state alone, reaps, or gives up the processor. */
  lemma WaitPidCases(k: Kernel, pid: int)
    requires Inv(k) && !k.first && k.current != k.idle
    ensures CanDispatch(CallerGone(k, pid))
    ensures var m := WaitPid(k, pid).0;
            || m == k
            || (GetProcess(k, pid).Some? && GetProcess(k, pid).value in k.pcbs
                && k.pcbs[GetProcess(k, pid).value].state == ZOMBIE
                && m == ReapChild(SetWaiting(k, NO_PID), GetProcess(k, pid).value))
            || m == Yield(CallerGone(k, pid))
  {
    CallerGoneIs(k, pid);
  }

  lemma ReapedKeeps(k: Kernel, pid: int)
    requires Inv(k) && GetProcess(k, pid).Some? && GetProcess(k, pid).value in k.pcbs
    requires k.pcbs[GetProcess(k, pid).value].state == ZOMBIE
    ensures Inv(ReapChild(SetWaiting(k, NO_PID), GetProcess(k, pid).value))
  {
    var m := SetWaiting(k, NO_PID);
    SetWaitingSettled(k, NO_PID);
    ReapKeeps(m, GetProcess(k, pid).value);
  }

  lemma WaitPidKeeps(k: Kernel, pid: int)
    requires Inv(k) && !k.first && k.current != k.idle
    ensures Inv(WaitPid(k, pid).0)
  {
    WaitPidCases(k, pid);
    CallerGoneIs(k, pid);
    YieldKeeps(CallerGone(k, pid));
    if GetProcess(k, pid).Some? && GetProcess(k, pid).value in k.pcbs && k.pcbs[GetProcess(k, pid).value].state == ZOMBIE {
      ReapedKeeps(k, pid);
    }
  }

  lemma WaitResumedKeeps(k: Kernel, pid: int)
    requires Inv(k) && !k.first && k.current != k.idle
    ensures Inv(WaitResumed(k, pid).0)
  {
    GetProcessSound(k, pid);
    match GetProcess(k, pid)
    case None =>
    case Some(t) =>
      SetWaitingSettled(k, NO_PID);
      if k.pcbs[t].state == ZOMBIE {
        ReapSettled(SetWaiting(k, NO_PID), t);
      }
  }

  lemma PrioKeeps(k: Kernel, pid: int, priority: int)
    requires Inv(k)
    ensures Inv(ChangePrio(k, pid, priority))
  {
    FieldsSettled(k, ChangePrio(k, pid, priority));
  }

  lemma SemWaitKeeps(k: Kernel, id: nat)
    requires Inv(k) && id in k.sems && CurrentPid(k) >= 0
    ensures Inv(SemWait(k, id))
  {
    var m := k.(sems := k.sems[id := Wait(k.sems[id], CurrentPid(k))]);
    SettledFrame(k, m);
    BlockBySemSettled(m, CurrentPid(k));
    SettledCanDispatch(BlockQueueBySem(m, CurrentPid(k)).0);
    YieldKeeps(BlockQueueBySem(m, CurrentPid(k)).0);
  }

  lemma UnblockBySemKeeps(k: Kernel, pid: int)
    requires Inv(k)
    ensures Inv(UnblockQueueBySem(k, pid))
  {
    UnblockBySemSettled(k, pid);
    if Find(k.pcbs, k.bySem, pid).Some? {
      var a := Find(k.pcbs, k.bySem, pid).value;
      assert Queued(k, a) && Placed(k, a) && Placed(k, k.current);
      OtherInv(k, UnblockQueueBySem(k, pid), pid);
    }
  }

  lemma SemPostKeeps(k: Kernel, id: nat)
    requires Inv(k) && id in k.sems
    ensures Inv(SemPost(k, id))
  {
    var m := k.(sems := k.sems[id := Post(k.sems[id])]);
    SettledFrame(k, m);
    if k.sems[id].waiting != [] {
      UnblockBySemKeeps(m, k.sems[id].waiting[0]);
    }
  }

  /** Every call, tick and creation keeps the queues a partition, the pids unique and the
      pointers on live processes. */
  lemma NextKeeps(k: Kernel, e: Step)
    requires Inv(k) && Allowed(k, e)
    ensures Inv(Next(k, e))
  {
    SettledCanDispatch(k);
    match e
    case Tick => TickKeeps(k);
    case GiveUp => YieldKeeps(k);
    case New(a, priority, foreground, readsTerminal, memoryLeft) =>
      CreateKeeps(k, a, priority, foreground, readsTerminal, memoryLeft);
    case Block(pid) => BlockKeeps(k, pid);
    case Unblock(pid) => UnblockKeeps(k, pid);
    case KillPid(pid, retValue) => KillKeeps(k, pid, retValue);
    case WaitFor(pid) => WaitPidKeeps(k, pid);
    case WaitAgain(pid) => WaitResumedKeeps(k, pid);
    case Prio(pid, priority) => PrioKeeps(k, pid, priority);
    case Open(id, value) => SettledFrame(k, Next(k, e));
    case DownSem(id) => SemWaitKeeps(k, id);
    case UpSem(id) => SemPostKeeps(k, id);
    case Close(id) => SettledFrame(k, Next(k, e));
  }
}

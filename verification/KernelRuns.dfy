/** Whole runs of the kernel from boot: the queues partition the processes, nothing points to a
    dead process, and semaphore queues agree with the processes that wait. */
module KernelRuns {
  import opened Options
  import opened Queues
  import opened Semaphores
  import opened Processes
  import opened Scheduler

  /** After initScheduler: only idle, not yet running. */
  function Booted(idle: nat): (k: Kernel)
    ensures Inv(k)
  {
    var k := Kernel(map[idle := PCB(0, NO_PID, NO_PID, IDLE_PRIORITY, READY, 0, false)], [], [], [], [],
                    idle, idle, None, NO_PID, 1, 0, true, map[]);
    assert Placed(k, idle);
    k
  }

  /** A run skips the steps that are not allowed in its state. */
  ghost function Run(k: Kernel, es: seq<Step>): (m: Kernel)
    requires Inv(k)
    ensures Inv(m)
    decreases |es|
  {
    if es == [] then k
    else if Allowed(k, es[0]) then
      NextKeeps(k, es[0]);
      Run(Next(k, es[0]), es[1..])
    else Run(k, es[1..])
  }

  function B(b: bool): nat { if b then 1 else 0 }

  /** In every run from boot: each process other than idle is in exactly one queue, the one its
      state names; no two processes share a pid; the current process is live and alone in
      RUNNING; and the foreground pointer never dangles. */
  lemma EveryProcessInOneQueue(idle: nat, es: seq<Step>, a: nat)
    requires a in Run(Booted(idle), es).pcbs
    ensures var k := Run(Booted(idle), es);
            && (a != k.idle ==> B(a in k.ready) + B(a in k.blocked) + B(a in k.bySem) + B(a in k.zombie) == 1)
            && (a == k.idle ==> B(a in k.ready) + B(a in k.blocked) + B(a in k.bySem) + B(a in k.zombie) == 0)
            && (forall b :: b in k.pcbs && k.pcbs[b].pid == k.pcbs[a].pid ==> b == a)
            && (k.pcbs[a].state == RUNNING <==> !k.first && a == k.current)
            && (k.foreground == Some(a) ==> k.pcbs[a].state in {READY, RUNNING, BLOCKED, WAITING_SEM})
    ensures var k := Run(Booted(idle), es);
            && k.current in k.pcbs && k.pcbs[k.current].state in {READY, RUNNING}
            && (k.foreground.Some? ==> k.foreground.value in k.pcbs)
  {
    var k := Run(Booted(idle), es);
    assert Placed(k, a) && Placed(k, k.current);
    assert Queued(k, k.idle) ==> false;
    if k.foreground.Some? {
      assert Queued(k, k.foreground.value);
    }
  }

  /** Creation keeps the invariant exactly when the process starts blocked, or has a user
      priority and is not created over a running idle process; or when it fails. */
  lemma CreationKeepsExactly(k: Kernel, a: nat, priority: int, foreground: bool, readsTerminal: bool, memoryLeft: bool)
    requires Inv(k) && a !in k.pcbs
    ensures Inv(Create(k, a, priority, foreground, readsTerminal, memoryLeft)) <==>
            !memoryLeft || CreationOk(k, priority, foreground, readsTerminal)
  {
    if CreationOk(k, priority, foreground, readsTerminal) {
      CreateKeeps(k, a, priority, foreground, readsTerminal, memoryLeft);
    } else if memoryLeft {
      var m := Create(k, a, priority, foreground, readsTerminal, memoryLeft);
      assert Queued(k, a) ==> a in k.pcbs;
      assert a in m.pcbs && (Inv(m) ==> Placed(m, a));
    } else {
      CreateFailedInv(k, a, priority, foreground, readsTerminal);
    }
  }

  lemma CreateFailedInv(k: Kernel, a: nat, priority: int, foreground: bool, readsTerminal: bool)
    requires Inv(k)
    ensures Inv(Create(k, a, priority, foreground, readsTerminal, false))
  {
    var m := Create(k, a, priority, foreground, readsTerminal, false);
    forall b | b in m.pcbs ensures Placed(m, b) { assert Placed(k, b); }
    forall b | Queued(m, b) ensures b in m.pcbs && b != m.idle { assert Queued(k, b); }
  }

  lemma WaitPidResult(k: Kernel, pid: int, child: nat)
    requires Inv(k) && !k.first && k.current != k.idle && child in k.pcbs && GetProcess(k, pid) == Some(child)
    requires k.pcbs[child].parentPid == k.pcbs[k.current].pid
    ensures CanDispatch(CallerGone(k, pid))
    ensures var st := k.pcbs[child].state;
            WaitPid(k, pid) ==
              if st == ZOMBIE then (ReapChild(SetWaiting(k, NO_PID), child), Reaped(pid, k.pcbs[child].retValue))
              else if st in {READY, RUNNING, BLOCKED} then (Yield(CallerGone(k, pid)), Waiting)
              else (k, Failed)
  {
    CallerGoneIs(k, pid);
  }

  lemma ReapedGone(k: Kernel, child: nat)
    requires Inv(k) && child in k.pcbs && k.pcbs[child].state == ZOMBIE
    ensures var m := ReapChild(SetWaiting(k, NO_PID), child); child !in m.pcbs && child !in m.zombie
  {
    assert Placed(k, child) && Placed(k, k.current);
    SetWaitingSettled(k, NO_PID);
    var m := SetWaiting(k, NO_PID);
    ReapSettled(m, child);
    assert !Queued(ReapChild(m, child), child);
  }

  /** What waitpid on an own child does, by the child's state: a zombie is reaped at once and its
      block freed; a ready, running or blocked child makes the caller wait; a child waiting for a
      semaphore is, contrary to the purpose of the call, not waited for at all. */
  lemma WaitPidOutcome(k: Kernel, pid: int, child: nat)
    requires Inv(k) && !k.first && k.current != k.idle
    requires child in k.pcbs && child != k.current && child != k.idle && k.pcbs[child].pid == pid
    requires k.pcbs[child].parentPid == k.pcbs[k.current].pid
    ensures var (m, r) := WaitPid(k, pid); var st := k.pcbs[child].state;
            && (r.Reaped? <==> st == ZOMBIE) && (r == Waiting <==> st in {READY, BLOCKED}) && (r == Failed <==> st == WAITING_SEM)
            && (r.Reaped? ==> r == Reaped(pid, k.pcbs[child].retValue) && child !in m.pcbs && child !in m.zombie)
            && (r == Waiting ==> k.current in m.pcbs && m.pcbs[k.current].state == BLOCKED && m.pcbs[k.current].waitingForPid == pid)
            && (r == Failed ==> m == k)
  {
    GetProcessIs(k, child);
    assert Placed(k, child);
    WaitPidResult(k, pid, child);
    CallerWaits(k, pid);
    if k.pcbs[child].state == ZOMBIE {
      ReapedGone(k, child);
    }
  }

  lemma CallerWaits(k: Kernel, pid: int)
    requires Inv(k) && !k.first && k.current != k.idle
    ensures CanDispatch(CallerGone(k, pid))
    ensures var m := Yield(CallerGone(k, pid));
            k.current in m.pcbs && m.pcbs[k.current].state == BLOCKED && m.pcbs[k.current].waitingForPid == pid
  {
    CallerGoneIs(k, pid);
    var b := CallerGone(k, pid);
    SettledFrame(b, b.(quantum := 0));
    DispatchIs(b.(quantum := 0));
    assert Placed(b, k.current);
  }

  // ---------------------------------------------------------------- kill and waitpid together

  /** a is the parent of child and sits in waitpid for it. */
  predicate Woken(k: Kernel, child: nat, a: nat)
    requires child in k.pcbs && a in k.pcbs
  {
    k.pcbs[a].pid == k.pcbs[child].parentPid && k.pcbs[a].state == BLOCKED && k.pcbs[a].waitingForPid == k.pcbs[child].pid
  }

  /** Unblocking makes the process with the pid ready if it is blocked; others stay as they are. */
  lemma UnblockOutcome(k: Kernel, pid: int, a: nat)
    requires Settled(k) && a in k.pcbs
    ensures var m := UnblockQueue(k, pid);
            && m.pcbs.Keys == k.pcbs.Keys
            && m.pcbs[a] == if a in k.blocked && k.pcbs[a].pid == pid then k.pcbs[a].(state := READY) else k.pcbs[a]
  {
    if a in k.blocked && k.pcbs[a].pid == pid {
      WithoutIs(k.pcbs, k.blocked, a);
    }
  }

  /** The parent is looked up in what is left once idle's zombie is reaped. */
  lemma WakeParentIs(k: Kernel, child: nat)
    requires Settled(k) && child in k.pcbs && k.pcbs[child].state == ZOMBIE && child != k.current
    ensures var pid := k.pcbs[child].pid; var parentPid := k.pcbs[child].parentPid;
            var r := if parentPid == 0 then ReapChild(k, child) else k;
            && Settled(r) && r.pcbs == (if parentPid == 0 then k.pcbs - {child} else k.pcbs)
            && WakeParent(k, parentPid, pid) ==
                 (if parentPid == NO_PID then k
                  else match GetProcess(r, parentPid)
                       case Some(p) =>
                         if p in r.pcbs && r.pcbs[p].state == BLOCKED && r.pcbs[p].waitingForPid == pid
                         then UnblockQueue(r, parentPid) else r
                       case None => r)
  {
    GetProcessIs(k, child);
    ReapSettled(k, child);
  }

  /** Waking the parent makes a process other than the child ready exactly if it is the parent
      waiting for this child. */
  lemma WakeParentOutcome(k: Kernel, child: nat, a: nat)
    requires Settled(k) && child in k.pcbs && k.pcbs[child].state == ZOMBIE && child != k.current
    requires a in k.pcbs && a != child
    ensures var m := WakeParent(k, k.pcbs[child].parentPid, k.pcbs[child].pid);
            a in m.pcbs && m.pcbs[a] == if Woken(k, child, a) then k.pcbs[a].(state := READY) else k.pcbs[a]
  {
    var parentPid := k.pcbs[child].parentPid;
    WakeParentIs(k, child);
    var r := if parentPid == 0 then ReapChild(k, child) else k;
    assert Placed(k, a) && Placed(r, a);
    UnblockOutcome(r, parentPid, a);
    GetProcessSound(r, parentPid);
    if r.pcbs[a].pid == parentPid {
      GetProcessIs(r, a);
    }
  }

  /** Only idle's zombie is freed. */
  lemma WakeParentChild(k: Kernel, child: nat)
    requires Settled(k) && child in k.pcbs && k.pcbs[child].state == ZOMBIE && child != k.current
    ensures var m := WakeParent(k, k.pcbs[child].parentPid, k.pcbs[child].pid);
            && (child in m.pcbs <==> k.pcbs[child].parentPid != 0)
            && (child in m.pcbs ==> m.pcbs[child] == k.pcbs[child])
  {
    var parentPid := k.pcbs[child].parentPid;
    WakeParentIs(k, child);
    if parentPid != 0 {
      assert Placed(k, child);
      UnblockOutcome(k, parentPid, child);
    } else {
      var r := ReapChild(k, child);
      assert UnblockQueue(r, parentPid).pcbs.Keys == r.pcbs.Keys;
    }
  }

  /** A dispatch moves processes between READY and RUNNING and changes nothing else of them. */
  lemma DispatchOutcome(k: Kernel, a: nat)
    requires Settled(k) && CanDispatch(k)
    ensures a in Yield(k).pcbs <==> a in k.pcbs
    ensures a in k.pcbs ==>
              if k.pcbs[a].state in {READY, RUNNING}
              then Yield(k).pcbs[a].state in {READY, RUNNING} && Yield(k).pcbs[a] == k.pcbs[a].(state := Yield(k).pcbs[a].state)
              else Yield(k).pcbs[a] == k.pcbs[a]
  {
    SettledFrame(k, k.(quantum := 0));
    DispatchIs(k.(quantum := 0));
    NextIsReady(k);
  }

  lemma KillIs(k: Kernel, child: nat, retValue: int)
    requires Inv(k)
    requires child in k.pcbs && child != k.idle && k.pcbs[child].state != ZOMBIE && k.pcbs[child].pid > SHELL_PID
    ensures var pid := k.pcbs[child].pid; var m := KillProcess(k, pid, retValue).0;
            && m.pcbs == k.pcbs[child := k.pcbs[child].(state := ZOMBIE, retValue := retValue)]
            && Settled(m) && child != m.current
            && var w := WakeParent(m, k.pcbs[child].parentPid, pid);
               Settled(w) && CanDispatch(w) && Kill(k, pid, retValue) == if pid == k.currentPid then Yield(w) else w
  {
    var pid := k.pcbs[child].pid;
    assert Placed(k, child);
    KillSettled(k, pid, retValue);
    var (m, victim) := KillProcess(k, pid, retValue);
    assert victim.Some?;
    assert victim.value == child;
    WakeParentSettled(m, child);
    SettledCanDispatch(WakeParent(m, m.pcbs[child].parentPid, pid));
  }

  /** What one kill does to the victim: freed at once if idle is its parent, and otherwise a
      zombie that holds the exit value. */
  lemma KillVictim(k: Kernel, child: nat, retValue: int)
    requires Inv(k)
    requires child in k.pcbs && child != k.idle && k.pcbs[child].state != ZOMBIE && k.pcbs[child].pid > SHELL_PID
    ensures var m := Kill(k, k.pcbs[child].pid, retValue);
            && (child in m.pcbs <==> k.pcbs[child].parentPid != 0)
            && (child in m.pcbs ==> m.pcbs[child] == k.pcbs[child].(state := ZOMBIE, retValue := retValue))
  {
    var pid := k.pcbs[child].pid;
    KillIs(k, child, retValue);
    var m := KillProcess(k, pid, retValue).0;
    WakeParentChild(m, child);
    DispatchOutcome(WakeParent(m, m.pcbs[child].parentPid, pid), child);
  }

  /** What one kill does to every other process: none is freed, and one that is not ready changes
      if and only if it is the parent waiting for this victim, which becomes ready. */
  lemma KillOthersOutcome(k: Kernel, child: nat, retValue: int, a: nat)
    requires Inv(k)
    requires child in k.pcbs && child != k.idle && k.pcbs[child].state != ZOMBIE && k.pcbs[child].pid > SHELL_PID
    requires a in k.pcbs && a != child
    ensures var m := Kill(k, k.pcbs[child].pid, retValue);
            && a in m.pcbs
            && if Woken(k, child, a) || k.pcbs[a].state in {READY, RUNNING}
               then m.pcbs[a].state in {READY, RUNNING} && m.pcbs[a] == k.pcbs[a].(state := m.pcbs[a].state)
               else m.pcbs[a] == k.pcbs[a]
  {
    var pid := k.pcbs[child].pid;
    KillIs(k, child, retValue);
    var m := KillProcess(k, pid, retValue).0;
    WakeParentOutcome(m, child, a);
    DispatchOutcome(WakeParent(m, m.pcbs[child].parentPid, pid), a);
  }

  /** Whoever a dispatch picks was ready. */
  lemma NextIsReady(k: Kernel)
    requires Settled(k)
    ensures var next := if k.ready == [] then k.idle else k.ready[0];
            next in k.pcbs && k.pcbs[next].state in {READY, RUNNING}
  {
    if k.ready != [] {
      assert k.ready[0] in k.ready && Queued(k, k.ready[0]) && Placed(k, k.ready[0]);
    }
  }

  /** When the woken parent runs again, it receives the exit value and the child is gone. */
  lemma ResumedParentReaps(k: Kernel, child: nat)
    requires Inv(k) && !k.first && k.current != k.idle
    requires child in k.pcbs && k.pcbs[child].state == ZOMBIE
    ensures var (m, r) := WaitResumed(k, k.pcbs[child].pid);
            && r == Reaped(k.pcbs[child].pid, k.pcbs[child].retValue)
            && m.pcbs.Keys == k.pcbs.Keys - {child} && child !in m.zombie && Inv(m)
            && GetProcess(m, k.pcbs[child].pid).None?
  {
    GetProcessIs(k, child);
    WaitResumedKeeps(k, k.pcbs[child].pid);
    ReapedGone(k, child);
    var m := WaitResumed(k, k.pcbs[child].pid).0;
    GetProcessSound(m, k.pcbs[child].pid);
  }

  // ---------------------------------------------------------------- semaphore queues

  /** pid waits in the process manager's eyes. */
  ghost predicate Waits(k: Kernel, pid: int) { exists a :: a in k.bySem && a in k.pcbs && k.pcbs[a].pid == pid }

  ghost predicate WaitsOn(k: Kernel, id: nat, pid: int) { pid >= 0 && id in k.sems && pid in k.sems[id].waiting }

  /** The pids queued on semaphores are exactly those of the processes in WAITING_SEM, each queued
      once; and a positive value means an empty queue. */
  ghost predicate SemsOk(k: Kernel) {
    && (forall id :: id in k.sems ==> NoDup(k.sems[id].waiting) && (k.sems[id].value > 0 ==> k.sems[id].waiting == []))
    && (forall i, j, pid :: WaitsOn(k, i, pid) && WaitsOn(k, j, pid) ==> i == j)
    && (forall pid :: Waits(k, pid) <==> exists id :: WaitsOn(k, id, pid))
  }

  /** Steps that leave waiting processes and their semaphores alone. */
  ghost predicate Gentle(k: Kernel, e: Step) {
    match e
    case Block(pid) => !Waits(k, pid)
    case KillPid(pid, _) => pid > SHELL_PID ==> !Waits(k, pid)
    case Close(id) => id in k.sems ==> k.sems[id].waiting == []
    case DownSem(id) => id in k.sems && (Grants(k.sems[id]) || k.current != k.idle)
    case _ => true
  }

  ghost predicate SameWaiters(k: Kernel, m: Kernel) {
    forall pid :: Waits(k, pid) <==> Waits(m, pid)
  }

  lemma SemsFrame(k: Kernel, m: Kernel)
    requires SemsOk(k) && m.sems == k.sems && SameWaiters(k, m)
    ensures SemsOk(m)
  {
    forall pid ensures Waits(m, pid) <==> exists id :: WaitsOn(m, id, pid) {
      assert Waits(k, pid) <==> Waits(m, pid);
      if exists id :: WaitsOn(k, id, pid) {
        var id :| WaitsOn(k, id, pid);
        assert WaitsOn(m, id, pid);
      }
      if exists id :: WaitsOn(m, id, pid) {
        var id :| WaitsOn(m, id, pid);
        assert WaitsOn(k, id, pid);
      }
    }
    forall i, j, pid | WaitsOn(m, i, pid) && WaitsOn(m, j, pid) ensures i == j {
      assert WaitsOn(k, i, pid) && WaitsOn(k, j, pid);
    }
  }

  lemma SamePidsSameWaiters(k: Kernel, m: Kernel)
    requires m.bySem == k.bySem
    requires forall a :: a in k.bySem ==> (a in k.pcbs <==> a in m.pcbs) && (a in k.pcbs ==> m.pcbs[a].pid == k.pcbs[a].pid)
    ensures SameWaiters(k, m)
  {
    forall pid ensures Waits(k, pid) <==> Waits(m, pid) {
      if Waits(k, pid) {
        var a :| a in k.bySem && a in k.pcbs && k.pcbs[a].pid == pid;
        assert a in m.bySem && a in m.pcbs && m.pcbs[a].pid == pid;
      }
      if Waits(m, pid) {
        var a :| a in m.bySem && a in m.pcbs && m.pcbs[a].pid == pid;
        assert a in k.bySem && a in k.pcbs && k.pcbs[a].pid == pid;
      }
    }
  }

  /** A dispatch changes no waiting queue. */
  lemma YieldWaiters(k: Kernel)
    requires Settled(k) && CanDispatch(k)
    ensures SameWaiters(k, Yield(k)) && Yield(k).sems == k.sems
  {
    SettledFrame(k, k.(quantum := 0));
    DispatchIs(k.(quantum := 0));
    SamePidsSameWaiters(k, Yield(k));
  }

  lemma TickWaiters(k: Kernel)
    requires Inv(k) && CanDispatch(k)
    ensures SameWaiters(k, Schedule(k)) && Schedule(k).sems == k.sems
  {
    if !(k.quantum > 0 && k.pcbs[k.current].state == RUNNING) {
      DispatchIs(k);
    }
    SamePidsSameWaiters(k, Schedule(k));
  }

  lemma NotWaiting(k: Kernel, pid: int)
    requires !Waits(k, pid)
    ensures Find(k.pcbs, k.bySem, pid).None?
  {
  }

  lemma Transitive(k: Kernel, l: Kernel, m: Kernel)
    requires SameWaiters(k, l) && SameWaiters(l, m)
    ensures SameWaiters(k, m)
  {
    forall pid ensures Waits(k, pid) <==> Waits(m, pid) {
      assert Waits(k, pid) <==> Waits(l, pid);
      assert Waits(l, pid) <==> Waits(m, pid);
    }
  }

  lemma BlockWaiters(k: Kernel, pid: int)
    requires Inv(k) && !Waits(k, pid)
    ensures SameWaiters(k, BlockProcess(k, pid)) && BlockProcess(k, pid).sems == k.sems
  {
    NotWaiting(k, pid);
    BlockSettled(k, pid);
    var (m, ok) := BlockQueue(k, pid);
    SettledCanDispatch(m);
    SamePidsSameWaiters(k, m);
    if ok && pid == CurrentPid(m) {
      YieldWaiters(m);
      Transitive(k, m, Yield(m));
    }
  }

  lemma UnblockWaiters(k: Kernel, pid: int)
    requires Settled(k)
    ensures SameWaiters(k, UnblockQueue(k, pid)) && UnblockQueue(k, pid).sems == k.sems
  {
    SamePidsSameWaiters(k, UnblockQueue(k, pid));
  }

  lemma ReapWaiters(k: Kernel, child: nat)
    requires Settled(k) && child in k.pcbs && k.pcbs[child].state == ZOMBIE
    ensures SameWaiters(k, ReapChild(k, child)) && ReapChild(k, child).sems == k.sems
  {
    assert Placed(k, child);
    SamePidsSameWaiters(k, ReapChild(k, child));
  }

  lemma WakeParentWaiters(k: Kernel, child: nat)
    requires Settled(k) && child in k.pcbs && k.pcbs[child].state == ZOMBIE && child != k.current
    ensures var m := WakeParent(k, k.pcbs[child].parentPid, k.pcbs[child].pid); SameWaiters(k, m) && m.sems == k.sems
  {
    var parentPid := k.pcbs[child].parentPid;
    GetProcessIs(k, child);
    if parentPid != NO_PID {
      ReapSettled(k, child);
      ReapWaiters(k, child);
      var r := if parentPid == k.pcbs[k.idle].pid then ReapChild(k, child) else k;
      SamePidsSameWaiters(k, k);
      UnblockWaiters(r, parentPid);
      Transitive(k, r, UnblockQueue(r, parentPid));
    } else {
      SamePidsSameWaiters(k, k);
    }
  }

  lemma KillWaiters(k: Kernel, pid: int, retValue: int)
    requires Inv(k) && (pid > SHELL_PID ==> !Waits(k, pid))
    ensures SameWaiters(k, Kill(k, pid, retValue)) && Kill(k, pid, retValue).sems == k.sems
  {
    SamePidsSameWaiters(k, k);
    if pid > SHELL_PID {
      BuriedWaiters(k, pid, retValue);
      var (m, victim) := KillProcess(k, pid, retValue);
      if victim.Some? {
        BuriedSettled(k, pid, retValue);
        var w := WakeParent(m, m.pcbs[victim.value].parentPid, pid);
        WakeParentWaiters(m, victim.value);
        Transitive(k, m, w);
        if pid == k.currentPid {
          YieldWaiters(w);
          Transitive(k, w, Yield(w));
        }
      }
    }
  }

  lemma BuriedWaiters(k: Kernel, pid: int, retValue: int)
    requires !Waits(k, pid)
    ensures var m := KillProcess(k, pid, retValue).0; SameWaiters(k, m) && m.sems == k.sems
  {
    NotWaiting(k, pid);
    SamePidsSameWaiters(k, KillProcess(k, pid, retValue).0);
  }

  lemma BuriedSettled(k: Kernel, pid: int, retValue: int)
    requires Inv(k) && pid > SHELL_PID && KillProcess(k, pid, retValue).1.Some?
    ensures var m := KillProcess(k, pid, retValue).0;
            var a := KillProcess(k, pid, retValue).1.value;
            && Settled(m) && a in m.pcbs && m.pcbs[a].pid == pid && m.pcbs[a].state == ZOMBIE && a != m.current
            && var w := WakeParent(m, m.pcbs[a].parentPid, pid); Settled(w) && CanDispatch(w)
  {
    KillSettled(k, pid, retValue);
    var (m, victim) := KillProcess(k, pid, retValue);
    WakeParentSettled(m, victim.value);
    SettledCanDispatch(WakeParent(m, m.pcbs[victim.value].parentPid, pid));
  }

  lemma ReapedWaiters(k: Kernel, t: nat)
    requires Inv(k) && t in k.pcbs && k.pcbs[t].state == ZOMBIE
    ensures var m := ReapChild(SetWaiting(k, NO_PID), t); SameWaiters(k, m) && m.sems == k.sems
  {
    var m := SetWaiting(k, NO_PID);
    SetWaitingSettled(k, NO_PID);
    SamePidsSameWaiters(k, m);
    ReapWaiters(m, t);
    Transitive(k, m, ReapChild(m, t));
  }

  lemma CallerGoneWaiters(k: Kernel, pid: int)
    requires Inv(k) && !k.first && k.current != k.idle
    ensures CanDispatch(CallerGone(k, pid))
    ensures SameWaiters(k, Yield(CallerGone(k, pid))) && Yield(CallerGone(k, pid)).sems == k.sems
  {
    CallerGoneIs(k, pid);
    var b := CallerGone(k, pid);
    SamePidsSameWaiters(k, b);
    YieldWaiters(b);
    Transitive(k, b, Yield(b));
  }

  lemma WaitPidWaiters(k: Kernel, pid: int)
    requires Inv(k) && !k.first && k.current != k.idle
    ensures SameWaiters(k, WaitPid(k, pid).0) && WaitPid(k, pid).0.sems == k.sems
  {
    SamePidsSameWaiters(k, k);
    WaitPidCases(k, pid);
    CallerGoneWaiters(k, pid);
    if GetProcess(k, pid).Some? && GetProcess(k, pid).value in k.pcbs && k.pcbs[GetProcess(k, pid).value].state == ZOMBIE {
      ReapedWaiters(k, GetProcess(k, pid).value);
    }
  }

  lemma WaitResumedWaiters(k: Kernel, pid: int)
    requires Inv(k) && !k.first && k.current != k.idle
    ensures SameWaiters(k, WaitResumed(k, pid).0) && WaitResumed(k, pid).0.sems == k.sems
  {
    SamePidsSameWaiters(k, k);
    if GetProcess(k, pid).Some? && GetProcess(k, pid).value in k.pcbs && k.pcbs[GetProcess(k, pid).value].state == ZOMBIE {
      ReapedWaiters(k, GetProcess(k, pid).value);
    }
  }

  // wait() and post()

  /** Queue membership moves together with the process. */
  lemma SemsMove(k: Kernel, m: Kernel, id: nat, pid: int, joins: bool)
    requires SemsOk(k) && id in k.sems && id in m.sems && m.sems == k.sems[id := m.sems[id]] && pid >= 0
    requires NoDup(m.sems[id].waiting) && (m.sems[id].value > 0 ==> m.sems[id].waiting == [])
    requires forall p: nat :: p != pid ==> (p in m.sems[id].waiting <==> p in k.sems[id].waiting)
    requires pid in m.sems[id].waiting <==> joins
    requires forall p :: p != pid ==> (Waits(m, p) <==> Waits(k, p))
    requires Waits(m, pid) <==> joins
    requires if joins then !Waits(k, pid) else WaitsOn(k, id, pid)
    ensures SemsOk(m)
  {
    forall p ensures Waits(m, p) <==> exists i :: WaitsOn(m, i, p) {
      if p == pid {
        if joins {
          assert WaitsOn(m, id, pid);
        } else if exists i :: WaitsOn(m, i, pid) {
          var i :| WaitsOn(m, i, pid);
          assert WaitsOn(k, i, pid);
        }
      } else {
        assert Waits(k, p) <==> exists i :: WaitsOn(k, i, p);
        if exists i :: WaitsOn(k, i, p) {
          var i :| WaitsOn(k, i, p);
          assert WaitsOn(m, i, p);
        }
        if exists i :: WaitsOn(m, i, p) {
          var i :| WaitsOn(m, i, p);
          assert WaitsOn(k, i, p);
        }
      }
    }
    forall i, j, p | WaitsOn(m, i, p) && WaitsOn(m, j, p) ensures i == j {
      if p != pid {
        assert WaitsOn(k, i, p) && WaitsOn(k, j, p);
      } else if joins {
        assert Waits(k, pid) <==> exists l :: WaitsOn(k, l, pid);
        assert i != id ==> WaitsOn(k, i, p);
        assert j != id ==> WaitsOn(k, j, p);
      }
    }
  }

  lemma ProcessNotWaiting(k: Kernel, a: nat)
    requires Settled(k) && a in k.pcbs && k.pcbs[a].state != WAITING_SEM
    ensures a != k.idle ==> !Waits(k, k.pcbs[a].pid)
  {
    assert Placed(k, a);
  }

  lemma SemWaitSems(k: Kernel, id: nat)
    requires Inv(k) && id in k.sems && CurrentPid(k) >= 0 && SemsOk(k)
    requires Grants(k.sems[id]) || k.current != k.idle
    ensures SemsOk(SemWait(k, id))
  {
    var m := k.(sems := k.sems[id := Wait(k.sems[id], CurrentPid(k))]);
    if Grants(k.sems[id]) {
      SamePidsSameWaiters(k, m);
      GrantedSems(k, m, id);
    } else {
      SemWaitBlocks(k, id, m);
      var b := BlockQueueBySem(m, CurrentPid(k)).0;
      YieldWaiters(b);
      SemsFrame(b, Yield(b));
    }
  }

  lemma CallerJoins(k: Kernel, m: Kernel)
    requires Inv(k) && k.current != k.idle && CurrentPid(k) >= 0 && m == k.(sems := m.sems)
    ensures Settled(m) && Settled(BlockQueueBySem(m, CurrentPid(k)).0) && CanDispatch(BlockQueueBySem(m, CurrentPid(k)).0)
    ensures var b := BlockQueueBySem(m, CurrentPid(k)).0;
            && b.sems == m.sems && Waits(b, CurrentPid(k)) && !Waits(k, CurrentPid(k))
            && forall p :: p != CurrentPid(k) ==> (Waits(b, p) <==> Waits(k, p))
  {
    ProcessNotWaiting(k, k.current);
    SettledFrame(k, m);
    BlockBySemSettled(m, CurrentPid(k));
    var b := BlockQueueBySem(m, CurrentPid(k)).0;
    SettledCanDispatch(b);
    CallerMoves(m);
    JoinsWaiting(k, b, k.current);
  }

  lemma CallerMoves(m: Kernel)
    requires Settled(m) && m.current in m.ready && CurrentPid(m) >= 0
    ensures var b := BlockQueueBySem(m, CurrentPid(m)).0;
            && b.bySem == m.bySem + [m.current] && b.pcbs == SetState(m.pcbs, m.current, WAITING_SEM) && b.sems == m.sems
  {
    WithoutIs(m.pcbs, m.ready, m.current);
  }

  lemma SemWaitBlocks(k: Kernel, id: nat, m: Kernel)
    requires Inv(k) && k.current != k.idle && id in k.sems && CurrentPid(k) >= 0 && SemsOk(k)
    requires m == k.(sems := k.sems[id := Wait(k.sems[id], CurrentPid(k))]) && !Grants(k.sems[id])
    ensures Settled(m) && Settled(BlockQueueBySem(m, CurrentPid(k)).0) && CanDispatch(BlockQueueBySem(m, CurrentPid(k)).0)
    ensures SemsOk(BlockQueueBySem(m, CurrentPid(k)).0)
  {
    CallerJoins(k, m);
    NotQueuedOn(k, id, CurrentPid(k));
    SemsMove(k, BlockQueueBySem(m, CurrentPid(k)).0, id, CurrentPid(k), true);
  }

  lemma NotQueuedOn(k: Kernel, id: nat, pid: nat)
    requires SemsOk(k) && id in k.sems && !Waits(k, pid)
    ensures pid !in k.sems[id].waiting
  {
    assert WaitsOn(k, id, pid) ==> Waits(k, pid);
  }

  lemma JoinsWaiting(k: Kernel, b: Kernel, a: nat)
    requires a in k.pcbs && b.bySem == k.bySem + [a] && b.pcbs.Keys == k.pcbs.Keys
    requires forall c :: c in k.pcbs ==> b.pcbs[c].pid == k.pcbs[c].pid
    ensures forall p :: p != k.pcbs[a].pid ==> (Waits(b, p) <==> Waits(k, p))
    ensures Waits(b, k.pcbs[a].pid)
  {
    assert a in b.bySem;
    forall p | p != k.pcbs[a].pid ensures Waits(b, p) <==> Waits(k, p) {
      if Waits(k, p) {
        var c :| c in k.bySem && c in k.pcbs && k.pcbs[c].pid == p;
        assert c in b.bySem && c in b.pcbs && b.pcbs[c].pid == p;
      }
      if Waits(b, p) {
        var c :| c in b.bySem && c in b.pcbs && b.pcbs[c].pid == p;
        assert c in k.bySem && c in k.pcbs && k.pcbs[c].pid == p;
      }
    }
  }

  /** A value that changes under an empty queue concerns nobody. */
  lemma GrantedSems(k: Kernel, m: Kernel, id: nat)
    requires SemsOk(k) && SameWaiters(k, m) && id in k.sems && id in m.sems && m.sems == k.sems[id := m.sems[id]]
    requires k.sems[id].waiting == [] && m.sems[id].waiting == []
    ensures SemsOk(m)
  {
    var l := k.(sems := m.sems);
    forall i, pid ensures WaitsOn(l, i, pid) <==> WaitsOn(k, i, pid) {
    }
    forall pid ensures Waits(l, pid) <==> exists i :: WaitsOn(l, i, pid) {
      assert Waits(k, pid) <==> exists i :: WaitsOn(k, i, pid);
      if exists i :: WaitsOn(k, i, pid) {
        var i :| WaitsOn(k, i, pid);
        assert WaitsOn(l, i, pid);
      }
    }
    assert SemsOk(l);
    SemsFrame(l, m);
  }

  lemma UnblockLeaves(k: Kernel, a: nat)
    requires Settled(k) && a in k.bySem && a in k.pcbs
    ensures var pid := k.pcbs[a].pid; var b := UnblockQueueBySem(k, pid);
            && b.sems == k.sems && !Waits(b, pid) && (forall p :: p != pid ==> (Waits(b, p) <==> Waits(k, p)))
  {
    WithoutIs(k.pcbs, k.bySem, a);
    LeavesWaiting(k, UnblockQueueBySem(k, k.pcbs[a].pid), a);
  }

  lemma SemPostSems(k: Kernel, id: nat)
    requires Inv(k) && id in k.sems && SemsOk(k)
    ensures SemsOk(SemPost(k, id))
  {
    var s := k.sems[id];
    var m := k.(sems := k.sems[id := Post(s)]);
    SamePidsSameWaiters(k, m);
    if s.waiting == [] {
      GrantedSems(k, m, id);
    } else {
      var pid := s.waiting[0];
      assert WaitsOn(k, id, pid) && Waits(k, pid);
      var a :| a in k.bySem && a in k.pcbs && k.pcbs[a].pid == pid;
      SettledFrame(k, m);
      UnblockLeaves(m, a);
      HeadLeaves(s.waiting);
      SemsMove(k, UnblockQueueBySem(m, pid), id, pid, false);
    }
  }

  lemma HeadLeaves(s: seq<nat>)
    requires NoDup(s) && s != []
    ensures NoDup(s[1..]) && s[0] !in s[1..] && forall p :: p != s[0] ==> (p in s[1..] <==> p in s)
  {
  }

  lemma LeavesWaiting(k: Kernel, b: Kernel, a: nat)
    requires Settled(k) && a in k.pcbs && b.pcbs.Keys == k.pcbs.Keys
    requires forall c :: c in b.bySem <==> c in k.bySem && c != a
    requires forall c :: c in k.pcbs ==> b.pcbs[c].pid == k.pcbs[c].pid
    ensures forall p :: p != k.pcbs[a].pid ==> (Waits(b, p) <==> Waits(k, p))
    ensures !Waits(b, k.pcbs[a].pid)
  {
    forall p | p != k.pcbs[a].pid ensures Waits(b, p) <==> Waits(k, p) {
      if Waits(k, p) {
        var c :| c in k.bySem && c in k.pcbs && k.pcbs[c].pid == p;
        assert c in b.bySem && c in b.pcbs && b.pcbs[c].pid == p;
      }
      if Waits(b, p) {
        var c :| c in b.bySem && c in b.pcbs && b.pcbs[c].pid == p;
        assert c in k.bySem && c in k.pcbs && k.pcbs[c].pid == p;
      }
    }
  }

  lemma OpenSems(k: Kernel, m: Kernel, id: nat, value: nat)
    requires SemsOk(k) && id !in k.sems && m == k.(sems := k.sems[id := Sem(value, [])])
    ensures SemsOk(m)
  {
    forall pid ensures Waits(m, pid) <==> exists i :: WaitsOn(m, i, pid) {
      assert Waits(m, pid) <==> Waits(k, pid);
      if exists i :: WaitsOn(k, i, pid) {
        var i :| WaitsOn(k, i, pid);
        assert WaitsOn(m, i, pid);
      }
      if exists i :: WaitsOn(m, i, pid) {
        var i :| WaitsOn(m, i, pid);
        assert WaitsOn(k, i, pid);
      }
    }
    forall i, j, pid | WaitsOn(m, i, pid) && WaitsOn(m, j, pid) ensures i == j {
      assert WaitsOn(k, i, pid) && WaitsOn(k, j, pid);
    }
  }

  lemma CloseSems(k: Kernel, m: Kernel, id: nat)
    requires SemsOk(k) && m == k.(sems := k.sems - {id}) && (id in k.sems ==> k.sems[id].waiting == [])
    ensures SemsOk(m)
  {
    forall pid ensures Waits(m, pid) <==> exists i :: WaitsOn(m, i, pid) {
      assert Waits(m, pid) <==> Waits(k, pid);
      if exists i :: WaitsOn(k, i, pid) {
        var i :| WaitsOn(k, i, pid);
        assert WaitsOn(m, i, pid);
      }
      if exists i :: WaitsOn(m, i, pid) {
        var i :| WaitsOn(m, i, pid);
        assert WaitsOn(k, i, pid);
      }
    }
    forall i, j, pid | WaitsOn(m, i, pid) && WaitsOn(m, j, pid) ensures i == j {
      assert WaitsOn(k, i, pid) && WaitsOn(k, j, pid);
    }
  }

  /** Creation and priority changes touch no waiting process. */
  lemma QuietWaiters(k: Kernel, e: Step)
    requires Inv(k) && Allowed(k, e) && (e.New? || e.Prio? || e.Unblock?)
    ensures SameWaiters(k, Next(k, e)) && Next(k, e).sems == k.sems
  {
    match e
    case New(a, priority, foreground, readsTerminal, memoryLeft) =>
      assert Queued(k, a) ==> a in k.pcbs;
      SamePidsSameWaiters(k, Next(k, e));
    case Prio(pid, priority) => SamePidsSameWaiters(k, Next(k, e));
    case Unblock(pid) => UnblockWaiters(k, pid);
  }

  /** Every gentle step keeps semaphore queues and waiting processes in agreement. */
  lemma GentleKeepsSems(k: Kernel, e: Step)
    requires Inv(k) && SemsOk(k) && Allowed(k, e) && Gentle(k, e)
    ensures SemsOk(Next(k, e))
  {
    SettledCanDispatch(k);
    match e
    case Tick => TickWaiters(k); SemsFrame(k, Next(k, e));
    case GiveUp => YieldWaiters(k); SemsFrame(k, Next(k, e));
    case New(_, _, _, _, _) => QuietWaiters(k, e); SemsFrame(k, Next(k, e));
    case Block(pid) => BlockWaiters(k, pid); SemsFrame(k, Next(k, e));
    case Unblock(pid) => QuietWaiters(k, e); SemsFrame(k, Next(k, e));
    case KillPid(pid, retValue) => KillWaiters(k, pid, retValue); SemsFrame(k, Next(k, e));
    case WaitFor(pid) => WaitPidWaiters(k, pid); SemsFrame(k, Next(k, e));
    case WaitAgain(pid) => WaitResumedWaiters(k, pid); SemsFrame(k, Next(k, e));
    case Prio(pid, priority) => QuietWaiters(k, e); SemsFrame(k, Next(k, e));
    case Open(id, value) =>
      if id !in k.sems {
        OpenSems(k, Next(k, e), id, value);
      }
    case DownSem(id) => SemWaitSems(k, id);
    case UpSem(id) => SemPostSems(k, id);
    case Close(id) => CloseSems(k, Next(k, e), id);
  }

  /** The condition on wait is exact as well: it keeps the agreement if and only if the token is
      there or a process other than idle asks. Idle cannot leave the processor: its pid joins
      the queue, and the caller goes on without a token. */
  lemma WaitKeepsAgreementExactly(k: Kernel, id: nat)
    requires Inv(k) && SemsOk(k) && id in k.sems
    ensures CurrentPid(k) >= 0
    ensures SemsOk(SemWait(k, id)) <==> Grants(k.sems[id]) || k.current != k.idle
  {
    if Grants(k.sems[id]) || k.current != k.idle {
      SemWaitSems(k, id);
    } else {
      var m := k.(sems := k.sems[id := Wait(k.sems[id], 0)]);
      IdleDoesNotBlock(k, id);
      assert WaitsOn(m, id, 0);
      SamePidsSameWaiters(k, m);
      IdleNeverWaits(k);
    }
  }

  lemma IdleNeverWaits(k: Kernel)
    requires Settled(k)
    ensures !Waits(k, 0)
  {
    forall a | a in k.bySem && a in k.pcbs ensures k.pcbs[a].pid != 0 {
      assert Queued(k, a);
    }
  }

  lemma IdleDoesNotBlock(k: Kernel, id: nat)
    requires Inv(k) && id in k.sems && k.current == k.idle && !Grants(k.sems[id])
    ensures SemWait(k, id) == k.(sems := k.sems[id := Wait(k.sems[id], 0)])
  {
    var m := k.(sems := k.sems[id := Wait(k.sems[id], 0)]);
    if Find(m.pcbs, m.ready, 0).Some? {
      assert Queued(k, Find(m.pcbs, m.ready, 0).value);
    }
  }

  /** Blocking a process that waits leaves its pid behind in the semaphore's queue. */
  lemma BlockBreaks(k: Kernel, pid: int)
    requires Inv(k) && SemsOk(k) && Waits(k, pid)
    ensures !SemsOk(BlockProcess(k, pid))
  {
    var a :| a in k.bySem && a in k.pcbs && k.pcbs[a].pid == pid;
    var m := BlockQueue(k, pid).0;
    BlockSettled(k, pid);
    VictimFound(k, a);
    BlockedWaiter(k, a);
    ProcessNotWaiting(m, a);
    SettledCanDispatch(m);
    YieldWaiters(m);
    var id :| WaitsOn(k, id, pid);
    assert WaitsOn(BlockProcess(k, pid), id, pid);
  }

  lemma BlockedWaiter(k: Kernel, a: nat)
    requires Settled(k) && a in k.bySem && a in k.pcbs && FindAlive(k, k.pcbs[a].pid) == Some(a)
    ensures var m := BlockQueue(k, k.pcbs[a].pid).0;
            && a in m.pcbs && m.pcbs[a] == k.pcbs[a].(state := BLOCKED) && m.idle == k.idle != a && m.sems == k.sems
  {
    assert Placed(k, a) && Queued(k, a);
    WithoutIs(k.pcbs, k.bySem, a);
  }

  /** Closing a semaphore with waiters leaves processes that wait for nothing. */
  lemma CloseBreaks(k: Kernel, id: nat)
    requires Inv(k) && SemsOk(k) && id in k.sems && k.sems[id].waiting != []
    ensures !SemsOk(Next(k, Close(id)))
  {
    var m := Next(k, Close(id));
    var pid := k.sems[id].waiting[0];
    assert WaitsOn(k, id, pid) && Waits(k, pid);
    SamePidsSameWaiters(k, m);
    forall i ensures !WaitsOn(m, i, pid) {
      assert WaitsOn(m, i, pid) ==> WaitsOn(k, i, pid);
    }
  }

  /** The exact condition: a step keeps semaphore queues and waiting processes in agreement if
      and only if it does not block or kill a process that waits, close a semaphore with waiters,
      or ask for a missing token while idle is current. */
  lemma NextKeepsSemsExactly(k: Kernel, e: Step)
    requires Inv(k) && SemsOk(k) && Allowed(k, e)
    ensures SemsOk(Next(k, e)) <==> Gentle(k, e)
  {
    if Gentle(k, e) {
      GentleKeepsSems(k, e);
    } else {
      match e {
        case Block(pid) => BlockBreaks(k, pid);
        case KillPid(pid, retValue) => KillKeepsAgreementExactly(k, pid, retValue);
        case DownSem(id) => WaitKeepsAgreementExactly(k, id);
        case Close(id) => CloseBreaks(k, id);
      }
    }
  }

  /** In every run from boot that neither blocks nor kills a process waiting for a semaphore, nor
      closes a semaphore with waiters, nor lets idle wait for a token that is not there: each pid queued on a semaphore is exactly a process in
      WAITING_SEM, on one semaphore, once. */
  lemma {:induction false} SemaphoresAgree(k: Kernel, es: seq<Step>)
    requires Inv(k) && SemsOk(k) && GentleRun(k, es)
    ensures SemsOk(Run(k, es))
    decreases |es|
  {
    if es != [] {
      if Allowed(k, es[0]) {
        NextKeeps(k, es[0]);
        GentleKeepsSems(k, es[0]);
        SemaphoresAgree(Next(k, es[0]), es[1..]);
      } else {
        SemaphoresAgree(k, es[1..]);
      }
    }
  }

  ghost predicate GentleRun(k: Kernel, es: seq<Step>)
    requires Inv(k)
    decreases |es|
  {
    es == [] ||
    if Allowed(k, es[0]) then
      NextKeeps(k, es[0]);
      Gentle(k, es[0]) && GentleRun(Next(k, es[0]), es[1..])
    else GentleRun(k, es[1..])
  }

  /** The condition on kill is exact: killing a process keeps the agreement if and only if the
      process is not waiting for a semaphore; otherwise its pid stays behind in the queue. */
  lemma KillKeepsAgreementExactly(k: Kernel, pid: int, retValue: int)
    requires Inv(k) && SemsOk(k) && pid > SHELL_PID
    ensures SemsOk(Kill(k, pid, retValue)) <==> !Waits(k, pid)
  {
    if !Waits(k, pid) {
      KillWaiters(k, pid, retValue);
      SemsFrame(k, Kill(k, pid, retValue));
    } else {
      var m := Kill(k, pid, retValue);
      KilledWaits(k, pid, retValue);
      var id :| WaitsOn(k, id, pid);
      assert WaitsOn(m, id, pid);
    }
  }

  lemma KilledWaits(k: Kernel, pid: int, retValue: int)
    requires Inv(k) && pid > SHELL_PID && Waits(k, pid)
    ensures !Waits(Kill(k, pid, retValue), pid) && Kill(k, pid, retValue).sems == k.sems
  {
    var a :| a in k.bySem && a in k.pcbs && k.pcbs[a].pid == pid;
    VictimFound(k, a);
    KilledSems(k, pid, retValue);
    BuriedSettled(k, pid, retValue);
    var (m, victim) := KillProcess(k, pid, retValue);
    assert !Waits(m, pid) by {
      ProcessNotWaiting(m, victim.value);
    }
    WakeParentWaiters(m, victim.value);
    var w := WakeParent(m, m.pcbs[victim.value].parentPid, pid);
    if pid == k.currentPid {
      YieldWaiters(w);
    }
  }

  /** A process on the semaphore queue is found there. */
  lemma VictimFound(k: Kernel, a: nat)
    requires Settled(k) && a in k.bySem && a in k.pcbs
    ensures FindAlive(k, k.pcbs[a].pid) == Some(a)
  {
    assert Placed(k, a);
    WithoutIs(k.pcbs, k.bySem, a);
  }

  lemma KilledSems(k: Kernel, pid: int, retValue: int)
    ensures KillProcess(k, pid, retValue).0.sems == k.sems
    ensures KillProcess(k, pid, retValue).1 == FindAlive(k, pid)
  {
    var c := if k.current in k.pcbs && k.pcbs[k.current].pid == pid then k.(current := k.idle) else k;
    TakeOutFrame(k, c, pid);
  }

  /** post() hands its token over: the longest-waiting process becomes ready, at the end of the
      queue, and nobody else changes. */
  lemma PostWakesFirst(k: Kernel, id: nat)
    requires Inv(k) && SemsOk(k) && id in k.sems && k.sems[id].waiting != []
    ensures exists a :: a in k.bySem && a in k.pcbs && k.pcbs[a].pid == k.sems[id].waiting[0] &&
              SemPost(k, id).ready == k.ready + [a] && a !in SemPost(k, id).bySem &&
              SemPost(k, id).pcbs == k.pcbs[a := k.pcbs[a].(state := READY)] &&
              SemPost(k, id).sems[id] == Sem(0, k.sems[id].waiting[1..])
  {
    var pid := k.sems[id].waiting[0];
    assert WaitsOn(k, id, pid) && Waits(k, pid);
    var a :| a in k.bySem && a in k.pcbs && k.pcbs[a].pid == pid;
    WithoutIs(k.pcbs, k.bySem, a);
  }
}

/** Who is whose parent, over whole runs: only the parent collects a child, and nobody's exit value
    is lost before that. */
module Parents {
  import opened Options
  import S = Semaphores
  import opened Processes
  import opened Scheduler
  import opened KernelRuns
  import opened KernelCalls

  /** d is the block c, later: its pid and its parent are for ever, its note of whom it waits for is
      at most struck out, and the priorities of idle and the shell do not change. A zombie stays
      one, with its exit value. */
  ghost predicate Later(c: PCB, d: PCB) {
    && d.pid == c.pid && d.parentPid == c.parentPid
    && (d.waitingForPid == c.waitingForPid || d.waitingForPid == NO_PID)
    && (c.pid <= SHELL_PID ==> d.priority == c.priority)
    && (c.state == ZOMBIE ==> d.state == ZOMBIE && d.retValue == c.retValue)
  }

  ghost predicate NoNews(k: Kernel, m: Kernel) {
    && m.idle == k.idle && m.nextFreePid == k.nextFreePid
    && forall a :: a in m.pcbs ==> a in k.pcbs && Later(k.pcbs[a], m.pcbs[a])
  }

  /** Nobody comes and nobody goes. */
  ghost predicate AllLater(k: Kernel, m: Kernel) { NoNews(k, m) && m.pcbs.Keys == k.pcbs.Keys }

  lemma AllLaterThrough(k: Kernel, l: Kernel, m: Kernel)
    requires AllLater(k, l) && AllLater(l, m)
    ensures AllLater(k, m)
  {
  }

  /** One block changes. */
  lemma OneLater(k: Kernel, m: Kernel, a: nat)
    requires m.idle == k.idle && m.nextFreePid == k.nextFreePid && m.pcbs.Keys == k.pcbs.Keys
    requires forall b :: b in k.pcbs && b != a ==> m.pcbs[b] == k.pcbs[b]
    requires a in k.pcbs && Later(k.pcbs[a], m.pcbs[a])
    ensures AllLater(k, m)
  {
  }

  lemma DispatchNoNews(k: Kernel, m: Kernel)
    requires Settled(k) && Dispatched(k, m)
    ensures AllLater(k, m)
  {
    NextIsReady(k);
  }

  /** Everybody waits, if at all, for children of their own, already made. */
  ghost predicate WaitForChildren(k: Kernel) {
    && (forall a, b :: a in k.pcbs && b in k.pcbs && k.pcbs[a].waitingForPid == k.pcbs[b].pid ==> k.pcbs[b].parentPid == k.pcbs[a].pid)
    && (forall a :: a in k.pcbs ==> k.pcbs[a].waitingForPid < k.nextFreePid)
  }

  lemma NoNewsKeeps(k: Kernel, m: Kernel)
    requires PidsOk(k) && WaitForChildren(k) && NoNews(k, m)
    ensures WaitForChildren(m)
  {
  }

  // ---------------------------------------------------------------- step by step

  lemma BlockNoNews(k: Kernel, pid: int)
    requires Inv(k)
    ensures AllLater(k, Next(k, Block(pid)))
  {
    hide BlockProcess, BlockQueue, Drop, Inv;
    if Has(k, pid, {READY, RUNNING, WAITING_SEM}) {
      var a :| User(k, a) && k.pcbs[a].pid == pid && k.pcbs[a].state in {READY, RUNNING, WAITING_SEM};
      BlockedLater(k, a);
    } else {
      NobodyBlocked(k, pid);
    }
  }

  lemma BlockedLater(k: Kernel, a: nat)
    requires Inv(k) && User(k, a) && k.pcbs[a].state in {READY, RUNNING, WAITING_SEM}
    ensures AllLater(k, Next(k, Block(k.pcbs[a].pid)))
  {
    hide BlockProcess, BlockQueue, Drop, Settled, AllLater;
    var b := Blocked(k, a);
    BlockOutcome(k, a);
    BlockQueueIs(k, a);
    OneLater(k, b, a);
    if a == k.current {
      DispatchNoNews(b, Next(k, Block(k.pcbs[a].pid)));
      AllLaterThrough(k, b, Next(k, Block(k.pcbs[a].pid)));
    }
  }

  lemma UnblockNoNews(k: Kernel, pid: int)
    requires Settled(k)
    ensures AllLater(k, UnblockQueue(k, pid))
  {
    UnblockExactly(k, pid);
    if Has(k, pid, {BLOCKED}) {
      var a :| User(k, a) && k.pcbs[a].pid == pid && k.pcbs[a].state == BLOCKED;
    }
  }

  /** A kill frees at most its victim, which was no zombie. */
  lemma KillNoNews(k: Kernel, pid: int, retValue: int)
    requires Inv(k)
    ensures var m := Next(k, KillPid(pid, retValue));
            NoNews(k, m) && forall a :: a in k.pcbs && k.pcbs[a].state == ZOMBIE ==> a in m.pcbs
  {
    if pid > SHELL_PID && Has(k, pid, {READY, RUNNING, BLOCKED, WAITING_SEM}) {
      var a :| User(k, a) && k.pcbs[a].pid == pid && k.pcbs[a].state in {READY, RUNNING, BLOCKED, WAITING_SEM};
      var m := Next(k, KillPid(pid, retValue));
      KillVictim(k, a, retValue);
      KillFrame(k, a, retValue);
      forall b | b in m.pcbs ensures b in k.pcbs && Later(k.pcbs[b], m.pcbs[b]) {
        if b != a {
          KillOthersOutcome(k, a, retValue, b);
        }
      }
      forall b | b in k.pcbs && k.pcbs[b].state == ZOMBIE ensures b in m.pcbs {
        KillOthersOutcome(k, a, retValue, b);
      }
    } else {
      NobodyToKill(k, pid, retValue);
    }
  }

  lemma KillFrame(k: Kernel, a: nat, retValue: int)
    requires Inv(k) && User(k, a) && k.pcbs[a].state != ZOMBIE && k.pcbs[a].pid > SHELL_PID
    ensures var m := Next(k, KillPid(k.pcbs[a].pid, retValue));
            m.idle == k.idle && m.nextFreePid == k.nextFreePid && forall b :: b in m.pcbs ==> b in k.pcbs
  {
    hide Kill, Drop, Inv, Woken;
    var w := KillOutcome(k, a, retValue);
    if b :| b in k.pcbs && b != a && Woken(k, a, b) {
    }
  }

  /** The caller of waitpid gives up the processor. */
  lemma NotedNoNews(k: Kernel, pid: int, m: Kernel)
    requires Inv(k) && k.current in k.pcbs && !k.first && k.current != k.idle
    requires Dispatched(Blocked(Noted(k, pid), k.current), m)
    ensures AllLater(Noted(k, pid), m)
  {
    hide Drop, Dispatched, AllLater, Settled;
    var n := Noted(k, pid);
    GoneIs(k, pid);
    assert k.current in n.pcbs && n.pcbs[k.current].state == RUNNING;
    OneLater(n, Blocked(n, k.current), k.current);
    DispatchNoNews(Blocked(n, k.current), m);
    AllLaterThrough(n, Blocked(n, k.current), m);
  }

  lemma FreedNoNews(k: Kernel, a: nat)
    requires k.current in k.pcbs
    ensures NoNews(k, Freed(Noted(k, NO_PID), a)) && forall b :: b in k.pcbs && b != a ==> b in Freed(Noted(k, NO_PID), a).pcbs
  {
  }

  /** What the two halves of waitpid leave: the note is of an own child or an old one; the only
      block that goes is that of a zombie the caller may wait for. */
  lemma WaitPidNews(k: Kernel, pid: int)
    requires Inv(k) && !k.first && k.current != k.idle
    ensures var m := WaitPid(k, pid).0;
            || NoNews(k, m)
            || (exists a :: a in k.pcbs && k.pcbs[a].pid == pid && MayWait(k, a) && AllLater(Noted(k, pid), m))
    ensures forall b :: b in k.pcbs && b !in WaitPid(k, pid).0.pcbs ==>
              k.pcbs[b].pid == pid && k.pcbs[b].state == ZOMBIE && MayWait(k, b)
  {
    hide WaitPid, Dispatched;
    if a :| a in k.pcbs && k.pcbs[a].pid == pid {
      WaitPidTable(k, a);
      FreedNoNews(k, a);
      if MayWait(k, a) && k.pcbs[a].state !in {WAITING_SEM, ZOMBIE} {
        NotedNoNews(k, pid, WaitPid(k, pid).0);
      }
    } else {
      WaitForNobody(k, pid);
    }
  }

  lemma ResumeNews(k: Kernel, pid: int)
    requires Inv(k)
    ensures var m := WaitResumed(k, pid).0;
            NoNews(k, m) && forall b :: b in k.pcbs && b !in m.pcbs ==> k.pcbs[b].pid == pid && k.pcbs[b].state == ZOMBIE
  {
    hide WaitResumed;
    if a :| a in k.pcbs && k.pcbs[a].pid == pid {
      ResumeTable(k, a);
      FreedNoNews(k, a);
    } else {
      WaitForNobody(k, pid);
    }
  }

  lemma SemWaitNoNews(k: Kernel, id: nat)
    requires Inv(k) && id in k.sems
    ensures AllLater(k, Next(k, DownSem(id)))
  {
    hide SemWait, Drop, Dispatched;
    SemWaitOutcome(k, id);
    if k.sems[id].value == 0 && k.current != k.idle {
      var n := WithSem(k, id, S.Sem(0, k.sems[id].waiting + [k.pcbs[k.current].pid]));
      SettledFrame(k, n);
      SleepNoNews(k, n, Next(k, DownSem(id)));
    }
  }

  lemma SleepNoNews(k: Kernel, n: Kernel, m: Kernel)
    requires Inv(k) && k.current in k.pcbs && k.current != k.idle && Settled(n) && n == k.(sems := n.sems)
    requires Dispatched(AsWaiter(n, k.current), m)
    ensures AllLater(k, m)
  {
    hide Drop, Dispatched, AllLater, Settled;
    var w := AsWaiter(n, k.current);
    CallerSleeps(n);
    OneLater(k, w, k.current);
    DispatchNoNews(w, m);
    AllLaterThrough(k, w, m);
  }

  lemma SemPostNoNews(k: Kernel, id: nat)
    requires Inv(k) && id in k.sems
    ensures AllLater(k, Next(k, UpSem(id)))
  {
    hide Drop, SemPost;
    SemPostOutcome(k, id);
    var s := k.sems[id];
    if s.waiting != [] && Has(k, s.waiting[0], {WAITING_SEM}) {
      var a :| User(k, a) && k.pcbs[a].pid == s.waiting[0] && k.pcbs[a].state == WAITING_SEM;
      OneLater(k, Next(k, UpSem(id)), a);
    }
  }

  lemma PrioNoNews(k: Kernel, pid: int, priority: int)
    requires Inv(k)
    ensures AllLater(k, Next(k, Prio(pid, priority)))
  {
    PrioOutcome(k, pid, priority);
    if a :| a in k.pcbs && k.pcbs[a].pid == pid {
    }
  }

  lemma NewNoNews(k: Kernel, e: Step)
    requires Inv(k) && Allowed(k, e) && e.New? && e.memoryLeft
    ensures var m := Next(k, e);
            && m.idle == k.idle && m.nextFreePid == k.nextFreePid + 1 && m.pcbs.Keys == k.pcbs.Keys + {e.a} && e.a !in k.pcbs
            && (forall b :: b in k.pcbs ==> m.pcbs[b] == k.pcbs[b])
            && m.pcbs[e.a].pid == k.nextFreePid && m.pcbs[e.a].waitingForPid == NO_PID
  {
    CreateOutcome(k, e.a, e.priority, e.foreground, e.readsTerminal);
  }

  /** Every step that neither creates a process nor puts the caller of waitpid to sleep. */
  lemma QuietNoNews(k: Kernel, e: Step)
    requires Inv(k) && Allowed(k, e) && !e.WaitFor? && !(e.New? && e.memoryLeft)
    ensures NoNews(k, Next(k, e).(nextFreePid := k.nextFreePid)) && Next(k, e).nextFreePid >= k.nextFreePid
    ensures forall b :: b in k.pcbs && b !in Next(k, e).pcbs && k.pcbs[b].state == ZOMBIE ==> e == WaitAgain(k.pcbs[b].pid)
  {
    hide Drop, Schedule, BlockProcess, Kill, WaitResumed, ChangePrio, SemWait, SemPost, UnblockQueue;
    match e
    case Tick =>
      TickOutcome(k);
      if k.quantum == 0 {
        DispatchNoNews(k, Next(k, e));
      }
    case GiveUp => GiveUpOutcome(k); DispatchNoNews(k, Next(k, e));
    case New(a, priority, foreground, readsTerminal, _) => CreateOutcome(k, a, priority, foreground, readsTerminal);
    case Block(pid) => BlockNoNews(k, pid);
    case Unblock(pid) => UnblockNoNews(k, pid);
    case KillPid(pid, retValue) => KillNoNews(k, pid, retValue);
    case WaitAgain(pid) => ResumeNews(k, pid);
    case Prio(pid, priority) => PrioNoNews(k, pid, priority);
    case Open(_, _) =>
    case DownSem(id) => SemWaitNoNews(k, id);
    case UpSem(id) => SemPostNoNews(k, id);
    case Close(_) =>
  }

  /** Once they hold, the notes of whom one waits for name children only, whatever happens. */
  lemma NextKeepsChildren(k: Kernel, e: Step)
    requires Inv(k) && Allowed(k, e) && WaitForChildren(k)
    ensures WaitForChildren(Next(k, e))
  {
    hide WaitPid, Create, Drop;
    if e.WaitFor? {
      WaitKeepsChildren(k, e.pid);
    } else if e.New? && e.memoryLeft {
      NewNoNews(k, e);
    } else {
      QuietNoNews(k, e);
      NoNewsKeeps(k, Next(k, e).(nextFreePid := k.nextFreePid));
    }
  }

  lemma WaitKeepsChildren(k: Kernel, pid: int)
    requires Inv(k) && !k.first && k.current != k.idle && WaitForChildren(k)
    ensures WaitForChildren(WaitPid(k, pid).0)
  {
    hide WaitPid;
    WaitPidNews(k, pid);
    var m := WaitPid(k, pid).0;
    if NoNews(k, m) {
      NoNewsKeeps(k, m);
    } else {
      var a :| a in k.pcbs && k.pcbs[a].pid == pid && MayWait(k, a) && AllLater(Noted(k, pid), m);
      NotedKeeps(k, a);
      NotedIs(k, pid);
      NoNewsKeeps(Noted(k, pid), m);
    }
  }

  lemma NotedKeeps(k: Kernel, a: nat)
    requires Inv(k) && WaitForChildren(k) && a in k.pcbs && MayWait(k, a)
    ensures WaitForChildren(Noted(k, k.pcbs[a].pid))
  {
  }

  // ---------------------------------------------------------------- whole runs

  lemma {:induction false} RunKeepsChildren(k: Kernel, es: seq<Step>)
    requires Inv(k) && WaitForChildren(k)
    ensures WaitForChildren(Run(k, es))
    decreases |es|
  {
    if es != [] {
      if Allowed(k, es[0]) {
        NextKeeps(k, es[0]);
        NextKeepsChildren(k, es[0]);
        RunKeepsChildren(Next(k, es[0]), es[1..]);
      } else {
        RunKeepsChildren(k, es[1..]);
      }
    }
  }

  /** In every run from boot, whoever waits in waitpid, or has a note left from it, waits for a child
      of its own. */
  lemma EveryoneWaitsForChildren(idle: nat, es: seq<Step>, a: nat, b: nat)
    requires var k := Run(Booted(idle), es); a in k.pcbs && b in k.pcbs && k.pcbs[a].waitingForPid == k.pcbs[b].pid
    ensures var k := Run(Booted(idle), es); k.pcbs[b].parentPid == k.pcbs[a].pid
  {
    RunKeepsChildren(Booted(idle), es);
  }

  /** In every run from boot, whom waitpid serves: a process that is not the caller's own child is
      refused and nothing changes, whatever its state, and an own child is refused only while it
      waits for a semaphore. */
  lemma OnlyOwnChildren(idle: nat, es: seq<Step>, a: nat)
    requires var k := Run(Booted(idle), es); !k.first && k.current != k.idle && a in k.pcbs && k.current in k.pcbs
    ensures var k := Run(Booted(idle), es); var (m, r) := WaitPid(k, k.pcbs[a].pid);
            && (r == Failed <==> k.pcbs[a].parentPid != k.pcbs[k.current].pid || k.pcbs[a].state == WAITING_SEM)
            && (r == Failed ==> m == k)
  {
    var k := Run(Booted(idle), es);
    RunKeepsChildren(Booted(idle), es);
    WaitPidTable(k, a);
  }

  /** e is waitpid, by the parent of the zombie a, for a: it is given the exit value of a. */
  ghost predicate Collects(k: Kernel, e: Step, a: nat)
    requires Inv(k) && Allowed(k, e) && a in k.pcbs
  {
    var c := k.pcbs[a];
    && c.parentPid == k.pcbs[k.current].pid
    && ((e == WaitFor(c.pid) && WaitPid(k, c.pid).1 == Reaped(c.pid, c.retValue))
        || (e == WaitAgain(c.pid) && WaitResumed(k, c.pid).1 == Reaped(c.pid, c.retValue)))
  }

  /** a is a zombie with the pid, the parent and the exit value of c. */
  ghost predicate IsZombie(k: Kernel, a: nat, c: PCB) {
    && a in k.pcbs && k.pcbs[a].state == ZOMBIE && k.pcbs[a].pid == c.pid
    && k.pcbs[a].parentPid == c.parentPid && k.pcbs[a].retValue == c.retValue
  }

  /** Only its parent frees a zombie, and is given its exit value; every other step leaves it be. */
  lemma OnlyTheParentReaps(k: Kernel, e: Step, a: nat)
    requires Inv(k) && WaitForChildren(k) && Allowed(k, e) && a in k.pcbs && k.pcbs[a].state == ZOMBIE
    ensures IsZombie(Next(k, e), a, k.pcbs[a]) || Collects(k, e, a)
  {
    hide Create, Drop, WaitPid, WaitResumed;
    if e.WaitFor? {
      WaitPidNews(k, e.pid);
      WaitForCollects(k, e.pid, a);
    } else if e.New? && e.memoryLeft {
      NewNoNews(k, e);
    } else {
      QuietNoNews(k, e);
      if e.WaitAgain? {
        ResumeTable(k, a);
      }
    }
  }

  lemma WaitForCollects(k: Kernel, pid: int, a: nat)
    requires Inv(k) && WaitForChildren(k) && Allowed(k, WaitFor(pid)) && a in k.pcbs && k.pcbs[a].state == ZOMBIE
    ensures IsZombie(WaitPid(k, pid).0, a, k.pcbs[a]) || Collects(k, WaitFor(pid), a)
  {
    hide WaitPid;
    WaitPidNews(k, pid);
    if pid == k.pcbs[a].pid {
      WaitPidTable(k, a);
    }
  }

  /** Along the run the parent collects a. */
  ghost predicate Collected(k: Kernel, es: seq<Step>, a: nat)
    requires Inv(k) && a in k.pcbs
    decreases |es|
  {
    es != [] &&
    if Allowed(k, es[0]) then
      NextKeeps(k, es[0]);
      Collects(k, es[0], a) || (a in Next(k, es[0]).pcbs && Collected(Next(k, es[0]), es[1..], a))
    else Collected(k, es[1..], a)
  }

  lemma {:induction false} ZombieWaits(k: Kernel, es: seq<Step>, a: nat)
    requires Inv(k) && WaitForChildren(k) && a in k.pcbs && k.pcbs[a].state == ZOMBIE
    ensures Collected(k, es, a) || IsZombie(Run(k, es), a, k.pcbs[a])
    decreases |es|
  {
    if es != [] {
      if Allowed(k, es[0]) {
        NextKeeps(k, es[0]);
        NextKeepsChildren(k, es[0]);
        OnlyTheParentReaps(k, es[0], a);
        if !Collects(k, es[0], a) {
          ZombieWaits(Next(k, es[0]), es[1..], a);
        }
      } else {
        ZombieWaits(k, es[1..], a);
      }
    }
  }

  /** No exit value is lost and none goes to a stranger: from any moment of any run from boot, a
      zombie keeps its value until its own parent collects exactly that value. */
  lemma ExitValueWaits(idle: nat, es: seq<Step>, fs: seq<Step>, a: nat)
    requires var k := Run(Booted(idle), es); a in k.pcbs && k.pcbs[a].state == ZOMBIE
    ensures var k := Run(Booted(idle), es); Collected(k, fs, a) || IsZombie(Run(k, fs), a, k.pcbs[a])
  {
    RunKeepsChildren(Booted(idle), es);
    ZombieWaits(Run(Booted(idle), es), fs, a);
  }

  lemma NextKeepsIdle(k: Kernel, e: Step)
    requires Inv(k) && Allowed(k, e)
    ensures var m := Next(k, e); m.idle == k.idle && m.idle in m.pcbs && m.pcbs[m.idle].priority == k.pcbs[k.idle].priority
  {
    hide Create, Drop, WaitPid;
    NextKeeps(k, e);
    if e.WaitFor? {
      WaitPidNews(k, e.pid);
    } else if e.New? && e.memoryLeft {
      NewNoNews(k, e);
    } else {
      QuietNoNews(k, e);
    }
  }

  /** In every run from boot idle keeps its priority, and so its short quantum. */
  lemma {:induction false} IdleKeepsPriority(k: Kernel, es: seq<Step>)
    requires Inv(k) && k.pcbs[k.idle].priority == IDLE_PRIORITY
    ensures var m := Run(k, es); m.idle == k.idle && m.pcbs[m.idle].priority == IDLE_PRIORITY
    decreases |es|
  {
    if es != [] {
      if Allowed(k, es[0]) {
        NextKeeps(k, es[0]);
        NextKeepsIdle(k, es[0]);
        IdleKeepsPriority(Next(k, es[0]), es[1..]);
      } else {
        IdleKeepsPriority(k, es[1..]);
      }
    }
  }
}

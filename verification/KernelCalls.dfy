/** What each kernel call leaves behind, said of control blocks and addresses: who is where, who
    runs, and what stayed as it was. The kernel itself searches its queues by pid. */
module KernelCalls {
  import opened Options
  import opened Queues
  import opened Semaphores
  import opened Processes
  import opened Scheduler
  import opened KernelRuns

  // ---------------------------------------------------------------- vocabulary

  /** The queue without a, the others in their order. */
  function Drop(q: seq<nat>, a: nat): seq<nat> {
    if q == [] then [] else if q[0] == a then q[1..] else [q[0]] + Drop(q[1..], a)
  }

  /** The processor goes to the head of the ready queue, or to idle when nobody is ready: it runs
      for its quantum, in ticks, and stands last in line. Whoever ran before is ready, and nothing
      else changes. */
  ghost predicate Dispatched(k: Kernel, m: Kernel) {
    var next := if k.ready == [] then k.idle else k.ready[0];
    && next in k.pcbs && m.current == next && m.currentPid == k.pcbs[next].pid && !m.first
    && m.quantum == (if k.pcbs[next].priority <= 5 then 18 - 3 * k.pcbs[next].priority else 3)
    && m.ready == (if k.ready == [] then [] else k.ready[1..] + [next])
    && m.foreground == (if k.ready != [] && k.pcbs[next].foreground then Some(next) else k.foreground)
    && m.pcbs.Keys == k.pcbs.Keys
    && (forall a :: a in k.pcbs ==> m.pcbs[a] == k.pcbs[a].(state :=
          if a == next then RUNNING else if k.pcbs[a].state == RUNNING then READY else k.pcbs[a].state))
    && m == k.(pcbs := m.pcbs, ready := m.ready, current := m.current, foreground := m.foreground,
               currentPid := m.currentPid, quantum := m.quantum, first := m.first)
  }

  /** A live process other than idle. */
  ghost predicate User(k: Kernel, a: nat) { a in k.pcbs && a != k.idle }

  // ---------------------------------------------------------------- removing by pid is removing by address

  lemma {:induction false} DropAt(q: seq<nat>, i: nat)
    requires i < |q| && q[i] !in q[..i]
    ensures Drop(q, q[i]) == Without(q, i)
  {
    if i > 0 {
      assert q[i] == q[1..][i - 1] && q[1..][..i - 1] == q[..i][1..];
      assert q[0] == q[..i][0];
      DropAt(q[1..], i - 1);
    }
  }

  lemma {:induction false} DropAbsent(q: seq<nat>, a: nat)
    requires a !in q
    ensures Drop(q, a) == q
  {
    if q != [] {
      DropAbsent(q[1..], a);
    }
  }

  lemma DropIs(pcbs: Pcbs, q: seq<nat>, a: nat)
    requires NoDup(q) && a in q && a in pcbs
    requires forall b :: b in q && b in pcbs && pcbs[b].pid == pcbs[a].pid ==> b == a
    ensures Find(pcbs, q, pcbs[a].pid) == Some(a) && WithoutPid(pcbs, q, pcbs[a].pid) == Drop(q, a)
  {
    WithoutIs(pcbs, q, a);
    var i := FirstMatch(q, HasPid(pcbs, pcbs[a].pid));
    assert q[i] == a;
    DropAt(q, i);
  }

  /** Nobody else in the queue has the pid of a. */
  lemma FoundOnlyIn(k: Kernel, q: seq<nat>, a: nat)
    requires Settled(k) && User(k, a) && (q == k.ready || q == k.blocked || q == k.bySem || q == k.zombie)
    ensures a in q ==> Find(k.pcbs, q, k.pcbs[a].pid) == Some(a) && WithoutPid(k.pcbs, q, k.pcbs[a].pid) == Drop(q, a)
    ensures a !in q ==> Find(k.pcbs, q, k.pcbs[a].pid).None? && Drop(q, a) == q
  {
    if a in q {
      DropIs(k.pcbs, q, a);
    } else {
      DropAbsent(q, a);
    }
  }

  lemma FindsUser(k: Kernel, q: seq<nat>, pid: int)
    requires Settled(k) && (q == k.ready || q == k.blocked || q == k.bySem || q == k.zombie) && Find(k.pcbs, q, pid).Some?
    ensures var a := Find(k.pcbs, q, pid).value; User(k, a) && k.pcbs[a].pid == pid && a in q && Placed(k, a)
  {
    assert Queued(k, Find(k.pcbs, q, pid).value);
  }

  // ---------------------------------------------------------------- the dispatcher

  lemma DispatchedBySchedule(k: Kernel)
    requires Settled(k) && CanDispatch(k) && (k.quantum == 0 || k.pcbs[k.current].state != RUNNING)
    ensures Dispatched(k, Schedule(k))
  {
    DispatchIs(k);
  }

  lemma DispatchedByYield(k: Kernel)
    requires Settled(k) && CanDispatch(k)
    ensures Dispatched(k, Yield(k))
  {
    SettledFrame(k, k.(quantum := 0));
    DispatchedBySchedule(k.(quantum := 0));
  }

  /** A tick of the timer. */
  lemma TickOutcome(k: Kernel)
    requires Inv(k)
    ensures var m := Next(k, Tick);
            if k.quantum > 0 then m == k.(quantum := k.quantum - 1) else Dispatched(k, m)
  {
    SettledCanDispatch(k);
    if k.quantum == 0 {
      DispatchedBySchedule(k);
    }
  }

  lemma GiveUpOutcome(k: Kernel)
    requires Inv(k)
    ensures Dispatched(k, Next(k, GiveUp))
  {
    SettledCanDispatch(k);
    DispatchedByYield(k);
  }

  // ---------------------------------------------------------------- block and unblock

  /** a among the blocked, out of every other queue. */
  function Blocked(k: Kernel, a: nat): Kernel
    requires a in k.pcbs
  {
    k.(ready := Drop(k.ready, a), bySem := Drop(k.bySem, a), blocked := k.blocked + [a],
       pcbs := k.pcbs[a := k.pcbs[a].(state := BLOCKED)])
  }

  lemma BlockQueueIs(k: Kernel, a: nat)
    requires Settled(k) && User(k, a) && k.pcbs[a].state in {READY, RUNNING, WAITING_SEM}
    ensures BlockQueue(k, k.pcbs[a].pid) == (Blocked(k, a), true)
    ensures Settled(Blocked(k, a)) && CanDispatch(Blocked(k, a))
  {
    assert Placed(k, a);
    FoundOnlyIn(k, k.ready, a);
    FoundOnlyIn(k, k.bySem, a);
    BlockSettled(k, k.pcbs[a].pid);
    SettledCanDispatch(Blocked(k, a));
  }

  /** Blocking by pid: a process other than idle that is ready, runs or waits for a semaphore ends
      blocked, last in line there and in no other queue; if it was current, the processor goes to
      the next ready process or to idle. */
  lemma BlockOutcome(k: Kernel, a: nat)
    requires Inv(k) && User(k, a) && k.pcbs[a].state in {READY, RUNNING, WAITING_SEM}
    ensures var m := Next(k, Block(k.pcbs[a].pid)); var b := Blocked(k, a);
            && (a != k.current ==> m == b)
            && (a == k.current ==> Dispatched(b, m) && m.current != a)
            && a in m.pcbs && m.pcbs[a].state == BLOCKED && m.blocked == k.blocked + [a]
            && a !in m.ready && a !in m.bySem && a !in m.zombie
  {
    hide BlockProcess, BlockQueue, Schedule, Settled, Drop;
    var b := Blocked(k, a);
    BlockProcessIs(k, a);
    OnlyBlocked(b, a);
    if a == k.current {
      DispatchedByYield(b);
    }
  }

  lemma BlockProcessIs(k: Kernel, a: nat)
    requires Inv(k) && User(k, a) && k.pcbs[a].state in {READY, RUNNING, WAITING_SEM}
    ensures var b := Blocked(k, a);
            Settled(b) && CanDispatch(b) && BlockProcess(k, k.pcbs[a].pid) == if a == k.current then Yield(b) else b
  {
    hide Schedule;
    BlockQueueIs(k, a);
    assert a == k.current <==> k.pcbs[a].pid == CurrentPid(k);
  }

  lemma OnlyBlocked(b: Kernel, a: nat)
    requires Settled(b) && a in b.pcbs && a != b.idle && b.pcbs[a].state == BLOCKED
    ensures a !in b.ready && a !in b.bySem && a !in b.zombie
  {
    assert Placed(b, a);
  }

  /** Every other process keeps its block, up to READY and RUNNING. */
  lemma BlockOthersOutcome(k: Kernel, a: nat, c: nat)
    requires Inv(k) && User(k, a) && k.pcbs[a].state in {READY, RUNNING, WAITING_SEM} && c in k.pcbs && c != a
    ensures var m := Next(k, Block(k.pcbs[a].pid));
            && c in m.pcbs && m.pcbs[c] == k.pcbs[c].(state := m.pcbs[c].state)
            && (m.pcbs[c].state != k.pcbs[c].state ==> k.pcbs[c].state in {READY, RUNNING} && m.pcbs[c].state in {READY, RUNNING})
  {
    BlockOutcome(k, a);
    BlockQueueIs(k, a);
    NextIsReady(Blocked(k, a));
  }

  /** There is a process other than idle with that pid in one of the states. */
  ghost predicate Has(k: Kernel, pid: int, states: set<ProcessState>) {
    exists a :: User(k, a) && k.pcbs[a].pid == pid && k.pcbs[a].state in states
  }

  /** Otherwise nothing happens at all. */
  lemma NobodyBlocked(k: Kernel, pid: int)
    requires Inv(k) && !Has(k, pid, {READY, RUNNING, WAITING_SEM})
    ensures Next(k, Block(pid)) == k && !BlockQueue(k, pid).1
  {
    if Find(k.pcbs, k.ready, pid).Some? {
      FindsUser(k, k.ready, pid);
    } else if Find(k.pcbs, k.bySem, pid).Some? {
      FindsUser(k, k.bySem, pid);
    }
  }

  /** When the search answers: the 0 and -1 of the call. */
  lemma BlockFinds(k: Kernel, pid: int)
    requires Inv(k)
    ensures BlockQueue(k, pid).1 <==> Has(k, pid, {READY, RUNNING, WAITING_SEM})
  {
    if Has(k, pid, {READY, RUNNING, WAITING_SEM}) {
      var a :| User(k, a) && k.pcbs[a].pid == pid && k.pcbs[a].state in {READY, RUNNING, WAITING_SEM};
      BlockQueueIs(k, a);
    } else {
      NobodyBlocked(k, pid);
    }
  }

  /** Unblocking by pid: a blocked process is ready, last in line; nobody else is touched, and
      without a blocked process of that pid nothing happens. */
  lemma UnblockExactly(k: Kernel, pid: int)
    requires Settled(k)
    ensures var m := UnblockQueue(k, pid);
            && (forall a :: User(k, a) && k.pcbs[a].pid == pid && k.pcbs[a].state == BLOCKED ==>
                  m == k.(blocked := Drop(k.blocked, a), ready := k.ready + [a], pcbs := k.pcbs[a := k.pcbs[a].(state := READY)]))
            && (!Has(k, pid, {BLOCKED}) ==> m == k)
    ensures Find(k.pcbs, k.blocked, pid).Some? <==> Has(k, pid, {BLOCKED})
  {
    forall a | User(k, a) && k.pcbs[a].pid == pid && k.pcbs[a].state == BLOCKED
      ensures UnblockQueue(k, pid) == k.(blocked := Drop(k.blocked, a), ready := k.ready + [a], pcbs := k.pcbs[a := k.pcbs[a].(state := READY)])
      ensures Find(k.pcbs, k.blocked, pid).Some?
    {
      assert Placed(k, a);
      FoundOnlyIn(k, k.blocked, a);
    }
    if Find(k.pcbs, k.blocked, pid).Some? {
      FindsUser(k, k.blocked, pid);
    }
  }

  // ---------------------------------------------------------------- creation

  /** The process that a creation makes: its pid is the next free one, its parent whoever is
      current, and its priority the one asked for, or 5 when that is not a priority. */
  function NewPcb(k: Kernel, priority: int, foreground: bool, state: ProcessState): PCB
    requires k.current in k.pcbs
  {
    PCB(k.nextFreePid, k.pcbs[k.current].pid, -1, if 0 <= priority <= 6 then priority else 5, state, 0, foreground)
  }

  /** Creation: one new block with a pid that nobody else has, last in line among the ready, or
      among the blocked if it reads the terminal without being in the foreground; everybody else
      stays as and where they were, and whoever runs goes on. Only before the first dispatch the
      new process becomes current. A creation that fails uses a pid up. */
  lemma CreateOutcome(k: Kernel, a: nat, priority: int, foreground: bool, readsTerminal: bool)
    requires Inv(k) && Allowed(k, New(a, priority, foreground, readsTerminal, true))
    ensures forall b :: b in k.pcbs ==> k.pcbs[b].pid != k.nextFreePid
    ensures var m := Next(k, New(a, priority, foreground, readsTerminal, true));
            var blocks := k.nextFreePid > 1 && readsTerminal && !foreground;
            && m.pcbs == k.pcbs[a := NewPcb(k, priority, foreground, if blocks then BLOCKED else READY)]
            && m.ready == (if blocks then k.ready else k.ready + [a])
            && m.blocked == (if blocks then k.blocked + [a] else k.blocked)
            && m.current == (if k.first && !blocks && k.current == k.idle then a else k.current)
            && m == k.(pcbs := m.pcbs, ready := m.ready, blocked := m.blocked, current := m.current, nextFreePid := k.nextFreePid + 1)
    ensures Next(k, New(a, priority, foreground, readsTerminal, false)) == k.(nextFreePid := k.nextFreePid + 1)
  {
  }

  // ---------------------------------------------------------------- kill

  /** a among the zombies with its exit value, out of every other queue, and no longer pointed to. */
  function AsZombie(k: Kernel, a: nat, retValue: int): Kernel
    requires a in k.pcbs
  {
    k.(ready := Drop(k.ready, a), blocked := Drop(k.blocked, a), bySem := Drop(k.bySem, a), zombie := k.zombie + [a],
       current := if k.current == a then k.idle else k.current,
       foreground := if k.foreground == Some(a) then None else k.foreground,
       pcbs := k.pcbs[a := k.pcbs[a].(state := ZOMBIE, retValue := retValue)])
  }

  /** A zombie collected, or freed at once if idle is its parent. */
  function Freed(k: Kernel, a: nat): Kernel {
    k.(zombie := Drop(k.zombie, a), pcbs := k.pcbs - {a})
  }

  /** b, blocked before, is ready and last in line. */
  function Readied(k: Kernel, b: nat): Kernel
    requires b in k.pcbs
  {
    k.(blocked := Drop(k.blocked, b), ready := k.ready + [b], pcbs := k.pcbs[b := k.pcbs[b].(state := READY)])
  }

  /** Among the live, the search by pid finds a, wherever it stands. */
  lemma AliveIs(k: Kernel, a: nat)
    requires Settled(k) && User(k, a) && k.pcbs[a].state != ZOMBIE
    ensures FindAlive(k, k.pcbs[a].pid) == Some(a)
    ensures TakeOut(k, k.pcbs[a].pid) == k.(ready := Drop(k.ready, a), blocked := Drop(k.blocked, a), bySem := Drop(k.bySem, a))
  {
    hide Find, WithoutPid, Drop;
    assert Placed(k, a);
    FoundOnlyIn(k, k.ready, a);
    FoundOnlyIn(k, k.blocked, a);
    FoundOnlyIn(k, k.bySem, a);
  }

  lemma KillProcessIs(k: Kernel, a: nat, retValue: int)
    requires Settled(k) && User(k, a) && k.pcbs[a].state != ZOMBIE
    ensures KillProcess(k, k.pcbs[a].pid, retValue) == (AsZombie(k, a, retValue), Some(a))
  {
    hide Find, WithoutPid, Drop, FindAlive, TakeOut, Partition;
    AliveIs(k, a);
    assert k.pcbs[k.current].pid == k.pcbs[a].pid <==> k.current == a;
    TakeOutFrame(k, if k.current == a then k.(current := k.idle) else k, k.pcbs[a].pid);
  }

  lemma ReapIs(k: Kernel, a: nat)
    requires Settled(k) && User(k, a) && k.pcbs[a].state == ZOMBIE
    ensures ReapChild(k, a) == Freed(k, a)
  {
    assert Placed(k, a);
    DropIs(k.pcbs, k.zombie, a);
  }

  /** What is left once a has ended: a zombie, or nothing if idle is its parent. */
  function Left(k: Kernel, a: nat, retValue: int): Kernel
    requires a in k.pcbs
  {
    if k.pcbs[a].parentPid == 0 then Freed(AsZombie(k, a, retValue), a) else AsZombie(k, a, retValue)
  }

  lemma WakesWaiter(m: Kernel, a: nat, b: nat)
    requires Settled(m) && a in m.pcbs && m.pcbs[a].state == ZOMBIE && a != m.current
    requires b in m.pcbs && Woken(m, a, b)
    ensures m.pcbs[a].parentPid != 0
    ensures WakeParent(m, m.pcbs[a].parentPid, m.pcbs[a].pid) == Readied(m, b)
  {
    WakeParentIs(m, a);
    GetProcessIs(m, b);
    UnblockExactly(m, m.pcbs[b].pid);
  }

  lemma WakesNobody(m: Kernel, a: nat)
    requires Settled(m) && User(m, a) && m.pcbs[a].state == ZOMBIE && a != m.current
    requires forall b {:trigger Woken(m, a, b)} :: b in m.pcbs ==> !Woken(m, a, b)
    ensures WakeParent(m, m.pcbs[a].parentPid, m.pcbs[a].pid) == if m.pcbs[a].parentPid == 0 then Freed(m, a) else m
  {
    hide Find, WithoutPid, Drop, UnblockQueue, GetProcess;
    WakeParentIs(m, a);
    ReapIs(m, a);
    var r := if m.pcbs[a].parentPid == 0 then ReapChild(m, a) else m;
    GetProcessSound(r, m.pcbs[a].parentPid);
    if GetProcess(r, m.pcbs[a].parentPid).Some? {
      var p := GetProcess(r, m.pcbs[a].parentPid).value;
      assert !Woken(m, a, p);
    }
  }

  lemma KillIsByAddress(k: Kernel, a: nat, retValue: int)
    requires Inv(k) && User(k, a) && k.pcbs[a].state != ZOMBIE && k.pcbs[a].pid > SHELL_PID
    ensures var pid := k.pcbs[a].pid; var z := AsZombie(k, a, retValue); var w := WakeParent(z, k.pcbs[a].parentPid, pid);
            && Settled(z) && User(z, a) && z.idle in z.pcbs && a != z.current && Settled(w) && CanDispatch(w)
            && Next(k, KillPid(pid, retValue)) == if pid == k.currentPid then Yield(w) else w
  {
    hide Drop, Schedule, Kill, KillProcess, WakeParent, Find, Placed;
    KillIs(k, a, retValue);
    KillProcessIs(k, a, retValue);
  }

  /** Kill, in one: the victim is a zombie with its exit value, or freed at once if idle is its
      parent; a parent that waits for it is ready, last in line; and a process that kills itself
      gives the processor to the next. Everybody else stays as and where they were. */
  lemma KillOutcome(k: Kernel, a: nat, retValue: int) returns (w: Kernel)
    requires Inv(k) && User(k, a) && k.pcbs[a].state != ZOMBIE && k.pcbs[a].pid > SHELL_PID
    ensures forall b {:trigger Woken(k, a, b)} :: b in k.pcbs && b != a && Woken(k, a, b) ==>
              b in AsZombie(k, a, retValue).pcbs && w == Readied(AsZombie(k, a, retValue), b)
    ensures (forall b {:trigger Woken(k, a, b)} :: b in k.pcbs && b != a ==> !Woken(k, a, b)) ==> w == Left(k, a, retValue)
    ensures var m := Next(k, KillPid(k.pcbs[a].pid, retValue));
            if k.pcbs[a].pid == k.currentPid then Dispatched(w, m) else m == w
  {
    hide Drop, Schedule, WakeParent, Kill, Settled;
    KillIsByAddress(k, a, retValue);
    var z := AsZombie(k, a, retValue);
    w := WakeParent(z, k.pcbs[a].parentPid, k.pcbs[a].pid);
    if b :| b in k.pcbs && b != a && Woken(k, a, b) {
      forall b | b in k.pcbs && b != a && Woken(k, a, b) ensures w == Readied(z, b) {
        assert Woken(z, a, b);
        WakesWaiter(z, a, b);
      }
    } else {
      forall b | b in z.pcbs ensures !Woken(z, a, b) {
        assert b != a ==> !Woken(k, a, b);
      }
      WakesNobody(z, a);
    }
    DispatchedByYield(w);
  }

  /** Idle, the shell, zombies and pids that nobody has cannot be killed. */
  lemma NobodyToKill(k: Kernel, pid: int, retValue: int)
    requires Inv(k) && (pid <= SHELL_PID || !Has(k, pid, {READY, RUNNING, BLOCKED, WAITING_SEM}))
    ensures Next(k, KillPid(pid, retValue)) == k && (pid > SHELL_PID ==> FindAlive(k, pid).None?)
  {
    if pid > SHELL_PID {
      if Find(k.pcbs, k.ready, pid).Some? {
        FindsUser(k, k.ready, pid);
      } else if Find(k.pcbs, k.blocked, pid).Some? {
        FindsUser(k, k.blocked, pid);
      } else if Find(k.pcbs, k.bySem, pid).Some? {
        FindsUser(k, k.bySem, pid);
      }
      NobodyKilled(k, pid);
    }
  }

  /** When the search for a victim answers: the 0 and -1 of the call. */
  lemma KillFinds(k: Kernel, pid: int)
    requires Inv(k)
    ensures pid > SHELL_PID ==>
              (FindAlive(k, pid).Some? <==> Has(k, pid, {READY, RUNNING, BLOCKED, WAITING_SEM}))
  {
    if Has(k, pid, {READY, RUNNING, BLOCKED, WAITING_SEM}) {
      var a :| User(k, a) && k.pcbs[a].pid == pid && k.pcbs[a].state in {READY, RUNNING, BLOCKED, WAITING_SEM};
      AliveIs(k, a);
    } else {
      NobodyToKill(k, pid, 0);
    }
  }

  // ---------------------------------------------------------------- waitpid

  /** May the current process wait for a? It is its child, or the caller waits for it already. */
  predicate MayWait(k: Kernel, a: nat)
    requires k.current in k.pcbs && a in k.pcbs
  {
    k.pcbs[a].parentPid == k.pcbs[k.current].pid || k.pcbs[k.current].waitingForPid == k.pcbs[a].pid
  }

  /** The current process with its note of whom it waits for. */
  function Noted(k: Kernel, pid: int): Kernel
    requires k.current in k.pcbs
  {
    k.(pcbs := k.pcbs[k.current := k.pcbs[k.current].(waitingForPid := pid)])
  }

  lemma NotedIs(k: Kernel, pid: int)
    requires Inv(k)
    ensures Noted(k, pid) == SetWaiting(k, pid) && Settled(Noted(k, pid))
    ensures forall a :: User(k, a) ==> User(Noted(k, pid), a) && Noted(k, pid).pcbs[a].state == k.pcbs[a].state
  {
    SetWaitingSettled(k, pid);
  }

  lemma GoneIs(k: Kernel, pid: int)
    requires Inv(k) && !k.first && k.current != k.idle
    ensures CallerGone(k, pid) == Blocked(Noted(k, pid), k.current)
    ensures Settled(CallerGone(k, pid)) && CanDispatch(CallerGone(k, pid))
    ensures BlockQueue(SetWaiting(k, pid), k.pcbs[k.current].pid).1
  {
    hide BlockQueue, Drop;
    NotedIs(k, pid);
    BlockQueueIs(Noted(k, pid), k.current);
  }

  /** waitpid on a process a, by the caller's right to wait and by the state of a: a stranger is
      turned away; a zombie's value is returned and its block freed; for a process that is ready,
      runs or is blocked the caller goes to sleep; one that waits for a semaphore is not waited
      for. When the call fails nothing has changed. */
  lemma WaitPidTable(k: Kernel, a: nat)
    requires Inv(k) && !k.first && k.current != k.idle && a in k.pcbs
    ensures var (m, r) := WaitPid(k, k.pcbs[a].pid);
            if !MayWait(k, a) || k.pcbs[a].state == WAITING_SEM then r == Failed && m == k
            else if k.pcbs[a].state == ZOMBIE then r == Reaped(k.pcbs[a].pid, k.pcbs[a].retValue) && m == Freed(Noted(k, -1), a)
            else r == Waiting && Dispatched(Blocked(Noted(k, k.pcbs[a].pid), k.current), m)
  {
    hide BlockQueue, Drop, Schedule, GetProcess, Noted, Blocked, Freed, ReapChild;
    var pid := k.pcbs[a].pid;
    GetProcessIs(k, a);
    NotedIs(k, -1);
    GoneIs(k, pid);
    DispatchedByYield(CallerGone(k, pid));
    assert Placed(k, a);
    if k.pcbs[a].state == ZOMBIE {
      ReapIs(Noted(k, -1), a);
    }
  }

  lemma WaitForNobody(k: Kernel, pid: int)
    requires Inv(k) && forall a :: a in k.pcbs ==> k.pcbs[a].pid != pid
    ensures WaitPid(k, pid) == (k, Failed) && WaitResumed(k, pid) == (k, Failed)
  {
    GetProcessSound(k, pid);
  }

  /** Exactly when waitpid is refused. */
  lemma WaitFailsExactly(k: Kernel, pid: int)
    requires Inv(k) && !k.first && k.current != k.idle
    ensures WaitPid(k, pid).1 == Failed <==>
            forall a :: a in k.pcbs && k.pcbs[a].pid == pid ==> !MayWait(k, a) || k.pcbs[a].state == WAITING_SEM
    ensures WaitPid(k, pid).1 == Failed ==> WaitPid(k, pid).0 == k
  {
    hide WaitPid;
    if a :| a in k.pcbs && k.pcbs[a].pid == pid {
      WaitPidTable(k, a);
    } else {
      WaitForNobody(k, pid);
    }
  }

  /** The rest of waitpid: the zombie's value, or failure with nothing changed. */
  lemma ResumeTable(k: Kernel, a: nat)
    requires Inv(k) && a in k.pcbs
    ensures var (m, r) := WaitResumed(k, k.pcbs[a].pid);
            if k.pcbs[a].state == ZOMBIE then r == Reaped(k.pcbs[a].pid, k.pcbs[a].retValue) && m == Freed(Noted(k, -1), a)
            else r == Failed && m == k
  {
    hide Drop, GetProcess, Freed, ReapChild;
    GetProcessIs(k, a);
    NotedIs(k, -1);
    assert Placed(k, a);
    if k.pcbs[a].state == ZOMBIE {
      ReapIs(Noted(k, -1), a);
    }
  }

  /** Creation and waitpid together: whoever creates a process may wait for it. */
  lemma CreatorMayWait(k: Kernel, a: nat, priority: int, foreground: bool, readsTerminal: bool)
    requires Inv(k) && !k.first && k.current != k.idle && Allowed(k, New(a, priority, foreground, readsTerminal, true))
    ensures var m := Next(k, New(a, priority, foreground, readsTerminal, true));
            Inv(m) && WaitPid(m, k.nextFreePid).1 == Waiting
  {
    hide WaitPid;
    NextKeeps(k, New(a, priority, foreground, readsTerminal, true));
    WaitPidTable(Next(k, New(a, priority, foreground, readsTerminal, true)), a);
  }

  // ---------------------------------------------------------------- priorities and semaphores

  lemma PrioOutcome(k: Kernel, pid: int, priority: int)
    requires Inv(k)
    ensures var m := Next(k, Prio(pid, priority));
            && (forall a :: a in k.pcbs && k.pcbs[a].pid == pid && pid > 1 ==>
                  m == k.(pcbs := k.pcbs[a := k.pcbs[a].(priority := if priority < 0 then 0 else if priority > 5 then 5 else priority)]))
            && (pid <= 1 || (forall a :: a in k.pcbs ==> k.pcbs[a].pid != pid) ==> m == k)
  {
    GetProcessSound(k, pid);
    forall a | a in k.pcbs && k.pcbs[a].pid == pid ensures GetProcess(k, pid) == Some(a) {
      GetProcessIs(k, a);
    }
  }

  /** a, the current process, among those that wait for semaphores. */
  function AsWaiter(k: Kernel, a: nat): Kernel
    requires a in k.pcbs
  {
    k.(ready := Drop(k.ready, a), bySem := k.bySem + [a], pcbs := k.pcbs[a := k.pcbs[a].(state := WAITING_SEM)])
  }

  function WithSem(k: Kernel, id: nat, s: Sem): Kernel { k.(sems := k.sems[id := s]) }

  lemma CallerSleeps(k: Kernel)
    requires Settled(k) && k.current != k.idle && k.current in k.ready
    ensures BlockQueueBySem(k, CurrentPid(k)) == (AsWaiter(k, k.current), true)
    ensures Settled(AsWaiter(k, k.current)) && CanDispatch(AsWaiter(k, k.current))
  {
    FoundOnlyIn(k, k.ready, k.current);
    BlockBySemSettled(k, CurrentPid(k));
    SettledCanDispatch(AsWaiter(k, k.current));
  }

  /** wait(): a token less; or, without one, the caller is last in the semaphore's queue and last
      among the sleepers, and the next process runs. Idle is queued but runs on. */
  lemma SemWaitOutcome(k: Kernel, id: nat)
    requires Inv(k) && id in k.sems
    ensures var s := k.sems[id]; var m := Next(k, DownSem(id)); var me := k.pcbs[k.current].pid;
            && me >= 0
            && if s.value > 0 then m == WithSem(k, id, Sem(s.value - 1, s.waiting))
               else if k.current == k.idle then m == WithSem(k, id, Sem(0, s.waiting + [0]))
               else Dispatched(AsWaiter(WithSem(k, id, Sem(0, s.waiting + [me])), k.current), m)
  {
    hide Drop, Schedule, BlockQueueBySem, AsWaiter;
    var s := k.sems[id];
    if s.value == 0 {
      if k.current == k.idle {
        IdleDoesNotBlock(k, id);
      } else {
        var n := WithSem(k, id, Sem(0, s.waiting + [k.pcbs[k.current].pid]));
        SettledFrame(k, n);
        CallerSleeps(n);
        DispatchedByYield(AsWaiter(n, k.current));
      }
    }
  }

  lemma UnblockBySemExactly(k: Kernel, pid: int)
    requires Settled(k)
    ensures var m := UnblockQueueBySem(k, pid);
            && (forall a :: User(k, a) && k.pcbs[a].pid == pid && k.pcbs[a].state == WAITING_SEM ==>
                  m == k.(bySem := Drop(k.bySem, a), ready := k.ready + [a], pcbs := k.pcbs[a := k.pcbs[a].(state := READY)]))
            && (!Has(k, pid, {WAITING_SEM}) ==> m == k)
  {
    hide Drop;
    forall a | User(k, a) && k.pcbs[a].pid == pid && k.pcbs[a].state == WAITING_SEM
      ensures Find(k.pcbs, k.bySem, pid) == Some(a) && WithoutPid(k.pcbs, k.bySem, pid) == Drop(k.bySem, a)
    {
      assert Placed(k, a);
      FoundOnlyIn(k, k.bySem, a);
    }
    if Find(k.pcbs, k.bySem, pid).Some? {
      FindsUser(k, k.bySem, pid);
    }
  }

  /** post(): with nobody waiting a token more, modulo 2^32; else the first in the semaphore's
      queue leaves it and is ready, last in line, and no token is added. A pid that no sleeper has
      is taken off as well, and nobody is woken. */
  lemma SemPostOutcome(k: Kernel, id: nat)
    requires Inv(k) && id in k.sems
    ensures var s := k.sems[id]; var m := Next(k, UpSem(id));
            && (s.waiting == [] ==> m == WithSem(k, id, Sem((s.value + 1) % 0x1_0000_0000, [])))
            && (s.waiting != [] ==>
                  var n := WithSem(k, id, Sem(s.value, s.waiting[1..]));
                  && (forall a :: User(k, a) && k.pcbs[a].pid == s.waiting[0] && k.pcbs[a].state == WAITING_SEM ==>
                        m == n.(bySem := Drop(k.bySem, a), ready := k.ready + [a], pcbs := k.pcbs[a := k.pcbs[a].(state := READY)]))
                  && (!Has(k, s.waiting[0], {WAITING_SEM}) ==> m == n))
  {
    hide Drop, UnblockQueueBySem;
    var s := k.sems[id];
    if s.waiting != [] {
      var n := WithSem(k, id, Sem(s.value, s.waiting[1..]));
      SettledFrame(k, n);
      UnblockBySemExactly(n, s.waiting[0]);
      assert Has(n, s.waiting[0], {WAITING_SEM}) ==> Has(k, s.waiting[0], {WAITING_SEM}) by {
        if Has(n, s.waiting[0], {WAITING_SEM}) {
          var a :| User(n, a) && n.pcbs[a].pid == s.waiting[0] && n.pcbs[a].state in {WAITING_SEM};
          assert User(k, a);
        }
      }
      assert forall a :: User(k, a) ==> User(n, a);
    }
  }

  /** semInit and semClose: a semaphore opens with the value given and nobody waiting, an open one
      stays as it is, a closed one is gone; no other semaphore and no process is touched. */
  lemma OpenCloseOutcome(k: Kernel, id: nat, value: nat)
    requires Inv(k)
    ensures var m := Next(k, Open(id, value));
            && m == k.(sems := m.sems) && m.sems.Keys == k.sems.Keys + {id}
            && (forall i :: i in k.sems ==> m.sems[i] == k.sems[i])
            && (id !in k.sems ==> m.sems[id] == Sem(value, []))
    ensures var m := Next(k, Close(id));
            m == k.(sems := m.sems) && m.sems.Keys == k.sems.Keys - {id} && forall i :: i in m.sems ==> m.sems[i] == k.sems[i]
  {
  }
}

/** Runs from boot that reach each state in which the kernel misses its purpose. */
module KernelCases {
  import opened Options
  import Queues
  import RoundRobin
  import S = Semaphores
  import opened Processes
  import opened Scheduler
  import opened KernelRuns

  lemma {:induction false} RunAppend(k: Kernel, es: seq<Step>, e: Step)
    requires Inv(k)
    ensures var m := Run(k, es);
            Run(k, es + [e]) == if Allowed(m, e) then Next(m, e) else m
    decreases |es|
  {
    if es == [] {
      assert es + [e] == [e];
      RunFirst(k, [e]);
    } else {
      RunFirst(k, es);
      RunFirst(k, es + [e]);
      assert (es + [e])[0] == es[0] && (es + [e])[1..] == es[1..] + [e];
      if Allowed(k, es[0]) {
        RunAppend(Next(k, es[0]), es[1..], e);
      } else {
        RunAppend(k, es[1..], e);
      }
    }
  }

  lemma RunFirst(k: Kernel, es: seq<Step>)
    requires Inv(k) && es != []
    ensures Allowed(k, es[0]) ==> Inv(Next(k, es[0])) && Run(k, es) == Run(Next(k, es[0]), es[1..])
    ensures !Allowed(k, es[0]) ==> Run(k, es) == Run(k, es[1..])
  {
    if Allowed(k, es[0]) {
      NextKeeps(k, es[0]);
    }
  }

  // ---------------------------------------------------------------- a shell and its child

  const IDLE: nat := 100
  const SHELL: nat := 101
  const CHILD: nat := 102

  /** The idle process sits at its address, the shell and a child of the shell at theirs. */
  function Pcb(pid: int, parent: int, priority: Priority, state: ProcessState): PCB {
    PCB(pid, parent, NO_PID, priority, state, 0, pid > 0)
  }

  const UNDER_SHELL: seq<Step> := [New(SHELL, 0, true, true, true), Tick]

  /** After boot, creation of the shell and the first tick, the shell runs. */
  function ShellRuns(): Kernel {
    Kernel(map[IDLE := Pcb(0, NO_PID, IDLE_PRIORITY, READY), SHELL := Pcb(1, 0, 0, RUNNING)],
           [SHELL], [], [], [], IDLE, SHELL, Some(SHELL), 1, 2, 18, false, map[])
  }

  lemma ShellStarts()
    ensures Run(Booted(IDLE), UNDER_SHELL) == ShellRuns()
  {
    var k, e := Booted(IDLE), UNDER_SHELL[0];
    assert UNDER_SHELL == [e] + [Tick];
    RunAppend(k, [], e);
    assert [] + [e] == [e];
    var m := Next(k, e);
    assert m == Kernel(map[IDLE := Pcb(0, NO_PID, IDLE_PRIORITY, READY), SHELL := Pcb(1, 0, 0, READY)],
                       [SHELL], [], [], [], IDLE, SHELL, None, NO_PID, 2, 0, true, map[]);
    RunAppend(k, [e], Tick);
  }

  /** The states of the run below: shell and child as given, in the queues given. */
  function Scene(shell: ProcessState, child: ProcessState, ready: seq<nat>, bySem: seq<nat>, current: nat,
                 quantum: nat, sems: map<nat, S.Sem>): Kernel
  {
    Kernel(map[IDLE := Pcb(0, NO_PID, IDLE_PRIORITY, if current == IDLE then RUNNING else READY), SHELL := Pcb(1, 0, 0, shell),
               CHILD := Pcb(2, 1, 0, child)],
           ready, [], bySem, [], IDLE, current, Some(if current == IDLE then SHELL else current), current - IDLE, 3,
           quantum, false, sems)
  }

  // Each transition on its own.

  const ZERO: map<nat, S.Sem> := map[0 := S.Sem(0, [])]
  const CHILD_ON: map<nat, S.Sem> := map[0 := S.Sem(0, [2])]
  const BOTH_ON: map<nat, S.Sem> := map[0 := S.Sem(0, [2, 1])]

  lemma CreatesChild()
    ensures Create(ShellRuns(), CHILD, 0, true, true, true) == Scene(RUNNING, READY, [SHELL, CHILD], [], SHELL, 18, map[])
  {
  }

  lemma ShellGoesOn()
    ensures Yield(Scene(RUNNING, READY, [SHELL, CHILD], [], SHELL, 18, ZERO)) ==
            Scene(RUNNING, READY, [CHILD, SHELL], [], SHELL, 18, ZERO)
  {
  }

  lemma ChildTakesOver()
    ensures Yield(Scene(RUNNING, READY, [CHILD, SHELL], [], SHELL, 18, ZERO)) ==
            Scene(READY, RUNNING, [SHELL, CHILD], [], CHILD, 18, ZERO)
  {
  }

  lemma FoundAt(pcbs: Pcbs, q: seq<nat>, i: nat, pid: int)
    requires i < |q| && q[i] in pcbs && pcbs[q[i]].pid == pid
    requires forall j :: 0 <= j < i ==> q[j] in pcbs && pcbs[q[j]].pid != pid
    ensures Find(pcbs, q, pid) == Some(q[i]) && WithoutPid(pcbs, q, pid) == Queues.Without(q, i)
  {
    Queues.FirstMatchIs(q, HasPid(pcbs, pid), i);
  }

  lemma ChildBlocks()
    ensures BlockQueueBySem(Scene(READY, RUNNING, [SHELL, CHILD], [], CHILD, 18, CHILD_ON), 2) ==
            (Scene(READY, WAITING_SEM, [SHELL], [CHILD], CHILD, 18, CHILD_ON), true)
  {
    var m := Scene(READY, RUNNING, [SHELL, CHILD], [], CHILD, 18, CHILD_ON);
    FoundAt(m.pcbs, m.ready, 1, 2);
    assert Queues.Without(m.ready, 1) == [SHELL] && m.bySem + [CHILD] == [CHILD];
    assert SetState(m.pcbs, CHILD, WAITING_SEM) == Scene(READY, WAITING_SEM, [SHELL], [CHILD], CHILD, 18, CHILD_ON).pcbs;
  }

  lemma ShellReturns()
    ensures Yield(Scene(READY, WAITING_SEM, [SHELL], [CHILD], CHILD, 18, CHILD_ON)) ==
            Scene(RUNNING, WAITING_SEM, [SHELL], [CHILD], SHELL, 18, CHILD_ON)
  {
  }

  lemma ShellBlocks()
    ensures BlockQueueBySem(Scene(RUNNING, WAITING_SEM, [SHELL], [CHILD], SHELL, 18, BOTH_ON), 1) ==
            (Scene(WAITING_SEM, WAITING_SEM, [], [CHILD, SHELL], SHELL, 18, BOTH_ON), true)
  {
    var m := Scene(RUNNING, WAITING_SEM, [SHELL], [CHILD], SHELL, 18, BOTH_ON);
    FoundAt(m.pcbs, m.ready, 0, 1);
    assert Queues.Without(m.ready, 0) == [] && m.bySem + [SHELL] == [CHILD, SHELL];
    assert SetState(m.pcbs, SHELL, WAITING_SEM) == Scene(WAITING_SEM, WAITING_SEM, [], [CHILD, SHELL], SHELL, 18, BOTH_ON).pcbs;
  }

  lemma IdleTakesOver()
    ensures Yield(Scene(WAITING_SEM, WAITING_SEM, [], [CHILD, SHELL], SHELL, 18, BOTH_ON)) ==
            Scene(WAITING_SEM, WAITING_SEM, [], [CHILD, SHELL], IDLE, 3, BOTH_ON)
  {
  }

  lemma WaitGivesUp(k: Kernel, id: nat, m: Kernel, b: Kernel)
    requires Inv(k) && id in k.sems && CurrentPid(k) >= 0 && !S.Grants(k.sems[id])
    requires m == k.(sems := m.sems) && m.sems == k.sems[id := S.Wait(k.sems[id], CurrentPid(k))]
    requires BlockQueueBySem(m, CurrentPid(k)) == (b, true) && CanDispatch(b)
    ensures SemWait(k, id) == Yield(b)
  {
  }

  lemma ChildAsks(k: Kernel)
    requires Inv(k) && k == Scene(READY, RUNNING, [SHELL, CHILD], [], CHILD, 18, ZERO)
    ensures CurrentPid(k) == 2 && SemWait(k, 0) == Scene(RUNNING, WAITING_SEM, [SHELL], [CHILD], SHELL, 18, CHILD_ON)
  {
    var m := Scene(READY, RUNNING, [SHELL, CHILD], [], CHILD, 18, CHILD_ON);
    assert [] + [2] == [2] && m.sems == k.sems[0 := S.Wait(k.sems[0], 2)];
    ChildBlocks();
    WaitGivesUp(k, 0, m, Scene(READY, WAITING_SEM, [SHELL], [CHILD], CHILD, 18, CHILD_ON));
    ShellReturns();
  }

  lemma ShellAsks(k: Kernel)
    requires Inv(k) && k == Scene(RUNNING, WAITING_SEM, [SHELL], [CHILD], SHELL, 18, CHILD_ON)
    ensures CurrentPid(k) == 1
    ensures SemWait(k, 0) == Scene(WAITING_SEM, WAITING_SEM, [], [CHILD, SHELL], IDLE, 3, BOTH_ON)
  {
    var m := Scene(RUNNING, WAITING_SEM, [SHELL], [CHILD], SHELL, 18, BOTH_ON);
    assert [2] + [1] == [2, 1] && m.sems == k.sems[0 := S.Wait(k.sems[0], 1)];
    ShellBlocks();
    WaitGivesUp(k, 0, m, Scene(WAITING_SEM, WAITING_SEM, [], [CHILD, SHELL], SHELL, 18, BOTH_ON));
    IdleTakesOver();
  }

  lemma AskAppend(es: seq<Step>, id: nat, k: Kernel, m: Kernel)
    requires k == Run(Booted(IDLE), es) && id in k.sems && CurrentPid(k) >= 0 && SemWait(k, id) == m
    ensures Run(Booted(IDLE), es + [DownSem(id)]) == m
  {
    var e := DownSem(id);
    NextAsks(k, id);
    StepAppend(Booted(IDLE), es, e, k, m);
  }

  lemma NextAsks(k: Kernel, id: nat)
    requires Inv(k) && id in k.sems && CurrentPid(k) >= 0
    ensures Allowed(k, DownSem(id)) && Next(k, DownSem(id)) == SemWait(k, id)
  {
  }

  lemma StepAppend(k: Kernel, es: seq<Step>, e: Step, m: Kernel, n: Kernel)
    requires Inv(k) && Run(k, es) == m && Allowed(m, e) && Next(m, e) == n
    ensures Run(k, es + [e]) == n
  {
    RunAppend(k, es, e);
  }

  // The run.

  const CHILD_CREATED: seq<Step> := UNDER_SHELL + [New(CHILD, 0, true, true, true)]
  const SEM_OPENED: seq<Step> := CHILD_CREATED + [Open(0, 0)]
  const SHELL_AGAIN: seq<Step> := SEM_OPENED + [GiveUp]
  const CHILD_RUNS: seq<Step> := SHELL_AGAIN + [GiveUp]
  const CHILD_WAITS: seq<Step> := CHILD_RUNS + [DownSem(0)]
  const ALL_WAIT: seq<Step> := CHILD_WAITS + [DownSem(0)]

  lemma ChildStarts()
    ensures Run(Booted(IDLE), CHILD_CREATED) == Scene(RUNNING, READY, [SHELL, CHILD], [], SHELL, 18, map[])
  {
    ShellStarts();
    RunAppend(Booted(IDLE), UNDER_SHELL, New(CHILD, 0, true, true, true));
    CreatesChild();
  }

  lemma SemOpens()
    ensures Run(Booted(IDLE), SEM_OPENED) == Scene(RUNNING, READY, [SHELL, CHILD], [], SHELL, 18, ZERO)
  {
    ChildStarts();
    RunAppend(Booted(IDLE), CHILD_CREATED, Open(0, 0));
  }

  lemma ChildRuns()
    ensures Run(Booted(IDLE), CHILD_RUNS) == Scene(READY, RUNNING, [SHELL, CHILD], [], CHILD, 18, ZERO)
  {
    SemOpens();
    RunAppend(Booted(IDLE), SEM_OPENED, GiveUp);
    ShellGoesOn();
    RunAppend(Booted(IDLE), SHELL_AGAIN, GiveUp);
    ChildTakesOver();
  }

  lemma ChildWaits()
    ensures Run(Booted(IDLE), CHILD_WAITS) == Scene(RUNNING, WAITING_SEM, [SHELL], [CHILD], SHELL, 18, CHILD_ON)
  {
    ChildRuns();
    var k := Run(Booted(IDLE), CHILD_RUNS);
    ChildAsks(k);
    AskAppend(CHILD_RUNS, 0, k, Scene(RUNNING, WAITING_SEM, [SHELL], [CHILD], SHELL, 18, CHILD_ON));
  }

  lemma AllWait()
    ensures Run(Booted(IDLE), ALL_WAIT) == Scene(WAITING_SEM, WAITING_SEM, [], [CHILD, SHELL], IDLE, 3, BOTH_ON)
  {
    ChildWaits();
    var k := Run(Booted(IDLE), CHILD_WAITS);
    ShellAsks(k);
    AskAppend(CHILD_WAITS, 0, k, Scene(WAITING_SEM, WAITING_SEM, [], [CHILD, SHELL], IDLE, 3, BOTH_ON));
  }

  // ---------------------------------------------------------------- what goes wrong there

  /** Both semaphore states of the run agree with the processes that wait. */
  lemma SceneAgrees(shell: ProcessState, ready: seq<nat>, bySem: seq<nat>, current: nat, quantum: nat, waiting: seq<nat>)
    requires (bySem == [CHILD] && waiting == [2]) || (bySem == [CHILD, SHELL] && waiting == [2, 1])
    ensures SemsOk(Scene(shell, WAITING_SEM, ready, bySem, current, quantum, map[0 := S.Sem(0, waiting)]))
  {
    var k := Scene(shell, WAITING_SEM, ready, bySem, current, quantum, map[0 := S.Sem(0, waiting)]);
    forall pid ensures Waits(k, pid) <==> exists id :: WaitsOn(k, id, pid) {
      assert Waits(k, pid) <==> WaitsOn(k, 0, pid) by {
        assert CHILD in k.bySem && (SHELL in k.bySem <==> 1 in waiting);
      }
    }
  }

  /** The shell waits for its own child and is turned away: the child waits on a semaphore. */
  lemma OwnChildNotWaitedFor()
    ensures var k := Run(Booted(IDLE), CHILD_WAITS);
            && !k.first && k.current == SHELL && CHILD in k.pcbs && k.pcbs[CHILD].pid == 2
            && k.pcbs[CHILD].parentPid == k.pcbs[SHELL].pid && k.pcbs[CHILD].state == WAITING_SEM
            && WaitPid(k, 2) == (k, Failed)
  {
    ChildWaits();
    var k := Run(Booted(IDLE), CHILD_WAITS);
    WaitPidOutcome(k, 2, CHILD);
  }

  /** Killing the waiting child leaves its pid on the semaphore. */
  lemma KilledPidStaysBehind()
    ensures var k := Run(Booted(IDLE), CHILD_WAITS);
            SemsOk(k) && Waits(k, 2) && !SemsOk(Kill(k, 2, 0))
  {
    ChildWaits();
    var k := Run(Booted(IDLE), CHILD_WAITS);
    SceneAgrees(RUNNING, [SHELL], [CHILD], SHELL, 18, [2]);
    assert CHILD in k.bySem && k.pcbs[CHILD].pid == 2;
    KillKeepsAgreementExactly(k, 2, 0);
  }

  /** With everybody waiting, a wait in an interrupt handler over idle queues idle's pid. */
  lemma IdleJoinsTheWaiters()
    ensures var k := Run(Booted(IDLE), ALL_WAIT);
            SemsOk(k) && k.current == k.idle && 0 in k.sems && CurrentPid(k) >= 0 && !SemsOk(SemWait(k, 0))
  {
    AllWait();
    SceneAgrees(WAITING_SEM, [], [CHILD, SHELL], IDLE, 3, [2, 1]);
    WaitKeepsAgreementExactly(Run(Booted(IDLE), ALL_WAIT), 0);
  }

  /** A process that the shell creates with idle's priority is in no queue. */
  lemma IdlePriorityIsLost()
    ensures !Inv(Create(Run(Booted(IDLE), UNDER_SHELL), CHILD, IDLE_PRIORITY, true, true, true))
  {
    ShellStarts();
    CreationKeepsExactly(ShellRuns(), CHILD, IDLE_PRIORITY, true, true, true);
  }

  /** A process created while idle runs becomes current without being dispatched. */
  lemma CreatedOverIdle(a: nat)
    requires a !in {IDLE, SHELL, CHILD}
    ensures var k := Run(Booted(IDLE), ALL_WAIT); a !in k.pcbs && !Inv(Create(k, a, 0, true, true, true))
  {
    AllWait();
    CreationKeepsExactly(Run(Booted(IDLE), ALL_WAIT), a, 0, true, true, true);
  }

  /** And a post in an interrupt handler brings the machine back: idle's three ticks run out and
      the child, first in line, runs. */
  lemma PostBringsTheChildBack()
    ensures var k := Run(Booted(IDLE), ALL_WAIT);
            && Allowed(k, UpSem(0)) && Inv(Next(k, UpSem(0)))
            && var r := RoundRobin.TickN(Next(k, UpSem(0)), 4);
               r.current in r.pcbs && r.pcbs[r.current].pid == 2 && r.pcbs[r.current].state == RUNNING
  {
    AllWait();
    SceneAgrees(WAITING_SEM, [], [CHILD, SHELL], IDLE, 3, [2, 1]);
    RoundRobin.PostWakesIdleMachine(Run(Booted(IDLE), ALL_WAIT), 0);
  }
}

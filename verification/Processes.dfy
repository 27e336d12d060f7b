/** Processes, their queues and the scheduler, on values. A process control block lives at an
    address; queues hold addresses; searches go by pid, as in the kernel. */
module Processes {
  import opened Options
  import opened Queues
  import opened Semaphores

  const QUANTUM: nat := 3
  const MAX_PRIORITY: nat := 5
  const IDLE_PRIORITY: nat := 6
  const SHELL_PID: int := 1
  const NO_PID: int := -1

  type Priority = p: nat | p <= IDLE_PRIORITY

  datatype ProcessState = READY | RUNNING | BLOCKED | ZOMBIE | EXITED | KILLED | WAITING_SEM

  datatype PCB = PCB(pid: int, parentPid: int, waitingForPid: int, priority: Priority, state: ProcessState,
                     retValue: int, foreground: bool)

  type Pcbs = map<nat, PCB>

  /** `first` is true until the first dispatch; `sems` maps ids of open semaphores to their state,
      with pids in the waiting queues. */
  datatype Kernel = Kernel(pcbs: Pcbs, ready: seq<nat>, blocked: seq<nat>, bySem: seq<nat>, zombie: seq<nat>,
                           idle: nat, current: nat, foreground: Option<nat>,
                           currentPid: int, nextFreePid: int, quantum: nat, first: bool, sems: map<nat, Sem>)

  function CalculateQuantum(p: Priority): nat {
    if p == IDLE_PRIORITY then QUANTUM else QUANTUM * (MAX_PRIORITY - p + 1)
  }

  // ---------------------------------------------------------------- searching by pid

  function HasPid(pcbs: Pcbs, pid: int): nat -> bool {
    a => a in pcbs && pcbs[a].pid == pid
  }

  function Find(pcbs: Pcbs, q: seq<nat>, pid: int): (r: Option<nat>)
    ensures r.Some? ==> r.value in q && r.value in pcbs && pcbs[r.value].pid == pid
    ensures r.None? ==> forall a :: a in q && a in pcbs ==> pcbs[a].pid != pid
  {
    var i := FirstMatch(q, HasPid(pcbs, pid));
    if i < |q| then Some(q[i])
    else
      assert forall j :: 0 <= j < |q| ==> !HasPid(pcbs, pid)(q[j]);
      None
  }

  function WithoutPid(pcbs: Pcbs, q: seq<nat>, pid: int): seq<nat> { WithoutFirst(q, HasPid(pcbs, pid)) }

  function GetProcess(k: Kernel, pid: int): Option<nat> {
    if k.current in k.pcbs && k.pcbs[k.current].pid == pid then Some(k.current)
    else if k.idle in k.pcbs && k.pcbs[k.idle].pid == pid then Some(k.idle)
    else if Find(k.pcbs, k.ready, pid).Some? then Find(k.pcbs, k.ready, pid)
    else if Find(k.pcbs, k.blocked, pid).Some? then Find(k.pcbs, k.blocked, pid)
    else if Find(k.pcbs, k.bySem, pid).Some? then Find(k.pcbs, k.bySem, pid)
    else Find(k.pcbs, k.zombie, pid)
  }

  // ---------------------------------------------------------------- queue moves

  function SetState(pcbs: Pcbs, a: nat, state: ProcessState): Pcbs
    requires a in pcbs
  {
    pcbs[a := pcbs[a].(state := state)]
  }

  function BlockQueue(k: Kernel, pid: int): (Kernel, bool) {
    match Find(k.pcbs, k.ready, pid)
    case Some(a) =>
      (k.(ready := WithoutPid(k.pcbs, k.ready, pid), blocked := k.blocked + [a], pcbs := SetState(k.pcbs, a, BLOCKED)), true)
    case None =>
      match Find(k.pcbs, k.bySem, pid)
      case Some(a) =>
        (k.(bySem := WithoutPid(k.pcbs, k.bySem, pid), blocked := k.blocked + [a], pcbs := SetState(k.pcbs, a, BLOCKED)), true)
      case None => (k, false)
  }

  function BlockQueueBySem(k: Kernel, pid: int): (Kernel, bool) {
    match Find(k.pcbs, k.ready, pid)
    case Some(a) =>
      (k.(ready := WithoutPid(k.pcbs, k.ready, pid), bySem := k.bySem + [a], pcbs := SetState(k.pcbs, a, WAITING_SEM)), true)
    case None => (k, false)
  }

  function UnblockQueue(k: Kernel, pid: int): Kernel {
    match Find(k.pcbs, k.blocked, pid)
    case Some(a) =>
      k.(blocked := WithoutPid(k.pcbs, k.blocked, pid), ready := k.ready + [a], pcbs := SetState(k.pcbs, a, READY))
    case None => k
  }

  function UnblockQueueBySem(k: Kernel, pid: int): Kernel {
    match Find(k.pcbs, k.bySem, pid)
    case Some(a) =>
      k.(bySem := WithoutPid(k.pcbs, k.bySem, pid), ready := k.ready + [a], pcbs := SetState(k.pcbs, a, READY))
    case None => k
  }

  /** The killed process joins the zombies; the current and foreground pointers let go of it. */
  function Bury(k: Kernel, a: nat, retValue: int): Kernel
    requires a in k.pcbs
  {
    k.(zombie := k.zombie + [a],
       foreground := if k.foreground == Some(a) then None else k.foreground,
       pcbs := k.pcbs[a := k.pcbs[a].(state := ZOMBIE, retValue := retValue)])
  }

  /** The live process with a pid, looked for among the ready, the blocked and the waiting. */
  function FindAlive(k: Kernel, pid: int): Option<nat> {
    if Find(k.pcbs, k.ready, pid).Some? then Find(k.pcbs, k.ready, pid)
    else if Find(k.pcbs, k.blocked, pid).Some? then Find(k.pcbs, k.blocked, pid)
    else Find(k.pcbs, k.bySem, pid)
  }

  /** It leaves the first queue it was found in. */
  function TakeOut(k: Kernel, pid: int): Kernel {
    if Find(k.pcbs, k.ready, pid).Some? then k.(ready := WithoutPid(k.pcbs, k.ready, pid))
    else if Find(k.pcbs, k.blocked, pid).Some? then k.(blocked := WithoutPid(k.pcbs, k.blocked, pid))
    else k.(bySem := WithoutPid(k.pcbs, k.bySem, pid))
  }

  function KillProcess(k: Kernel, pid: int, retValue: int): (Kernel, Option<nat>) {
    var c := if k.current in k.pcbs && k.pcbs[k.current].pid == pid then k.(current := k.idle) else k;
    match FindAlive(k, pid)
    case Some(a) => (Bury(TakeOut(c, pid), a, retValue), Some(a))
    case None => (c, None)
  }

  // ---------------------------------------------------------------- dispatching

  function NextProcess(k: Kernel): Kernel {
    if k.ready == [] then k.(current := k.idle)
    else
      var a := k.ready[0];
      k.(ready := k.ready[1..] + [a], current := a,
         foreground := if a in k.pcbs && k.pcbs[a].foreground then Some(a) else k.foreground)
  }

  /** The timer interrupt: the running process goes on while its quantum lasts. */
  function Schedule(k: Kernel): Kernel
    requires k.current in k.pcbs && k.idle in k.pcbs && (forall a :: a in k.ready ==> a in k.pcbs)
  {
    if k.quantum > 0 && k.pcbs[k.current].state == RUNNING then k.(quantum := k.quantum - 1)
    else
      var p := if k.pcbs[k.current].state == RUNNING then SetState(k.pcbs, k.current, READY) else k.pcbs;
      var n := NextProcess(k.(pcbs := p, first := false));
      n.(pcbs := SetState(p, n.current, RUNNING), currentPid := p[n.current].pid,
         quantum := CalculateQuantum(p[n.current].priority))
  }

  function Yield(k: Kernel): Kernel
    requires k.current in k.pcbs && k.idle in k.pcbs && (forall a :: a in k.ready ==> a in k.pcbs)
  {
    Schedule(k.(quantum := 0))
  }

  // ---------------------------------------------------------------- the invariant

  ghost predicate NoDup(s: seq<nat>) { forall i, j :: 0 <= i < j < |s| ==> s[i] != s[j] }

  /** A process sits in the queue its state names, and in no other. */
  ghost predicate Placed(k: Kernel, a: nat)
    requires a in k.pcbs
  {
    var st := k.pcbs[a].state;
    a != k.idle ==>
      && (a in k.ready <==> st in {READY, RUNNING})
      && (a in k.blocked <==> st == BLOCKED)
      && (a in k.bySem <==> st == WAITING_SEM)
      && (a in k.zombie <==> st == ZOMBIE)
      && st !in {EXITED, KILLED}
  }

  ghost predicate Queued(k: Kernel, a: nat) { a in k.ready || a in k.blocked || a in k.bySem || a in k.zombie }

  ghost predicate Partition(k: Kernel) {
    && NoDup(k.ready) && NoDup(k.blocked) && NoDup(k.bySem) && NoDup(k.zombie)
    && k.idle in k.pcbs && k.pcbs[k.idle].state in {READY, RUNNING}
    && (forall a {:trigger Queued(k, a)} :: Queued(k, a) ==> a in k.pcbs && a != k.idle)
    && (forall a {:trigger Placed(k, a)} :: a in k.pcbs ==> Placed(k, a))
  }

  ghost predicate PidsOk(k: Kernel) {
    && (forall a, b :: a in k.pcbs && b in k.pcbs && k.pcbs[a].pid == k.pcbs[b].pid ==> a == b)
    && (forall a :: a in k.pcbs ==> 0 <= k.pcbs[a].pid < k.nextFreePid)
    && k.idle in k.pcbs && k.pcbs[k.idle].pid == 0
  }

  ghost predicate PointersOk(k: Kernel) {
    && k.current in k.pcbs
    && (forall a :: a in k.pcbs && k.pcbs[a].state == RUNNING ==> a == k.current)
    && (k.foreground.Some? ==> k.foreground.value in k.ready || k.foreground.value in k.blocked || k.foreground.value in k.bySem)
  }

  /** Before a dispatch the current process may have left the ready queue. */
  ghost predicate Settled(k: Kernel) { Partition(k) && PidsOk(k) && PointersOk(k) }

  ghost predicate Inv(k: Kernel) {
    && Settled(k)
    && (k.current == k.idle || k.current in k.ready)
    && (k.first ==> k.quantum == 0 && k.pcbs[k.current].state == READY)
    && (!k.first ==> k.pcbs[k.current].state == RUNNING && k.currentPid == k.pcbs[k.current].pid)
    && k.quantum <= QUANTUM * (MAX_PRIORITY + 1)
  }

  // ---------------------------------------------------------------- queue lemmas

  /** Under unique pids, removing by pid removes exactly that process and keeps the others in order. */
  lemma WithoutIs(pcbs: Pcbs, q: seq<nat>, a: nat)
    requires NoDup(q) && a in q && a in pcbs
    requires forall b :: b in q && b in pcbs && pcbs[b].pid == pcbs[a].pid ==> b == a
    ensures Find(pcbs, q, pcbs[a].pid) == Some(a)
    ensures NoDup(WithoutPid(pcbs, q, pcbs[a].pid))
    ensures forall b :: b in WithoutPid(pcbs, q, pcbs[a].pid) <==> b in q && b != a
  {
    var p := HasPid(pcbs, pcbs[a].pid);
    var i := FirstMatch(q, p);
    var j :| 0 <= j < |q| && q[j] == a;
    assert p(q[j]);
    assert i < |q| && q[i] == a;
    var w := WithoutPid(pcbs, q, pcbs[a].pid);
    forall b ensures b in w <==> b in q && b != a {
      if b in q && b != a {
        var m :| 0 <= m < |q| && q[m] == b;
        assert w[if m < i then m else m - 1] == b;
      }
    }
  }

  lemma AppendOk(q: seq<nat>, a: nat)
    requires NoDup(q) && a !in q
    ensures NoDup(q + [a]) && forall b :: b in q + [a] <==> b in q || b == a
  {
  }

  // ---------------------------------------------------------------- what each move keeps

  /** Exactly one process, a, changed its state and its queue. */
  lemma MovedSettled(k: Kernel, m: Kernel, a: nat)
    requires Settled(k) && a in k.pcbs && a != k.idle
    requires m.pcbs.Keys == k.pcbs.Keys && m.idle == k.idle && m.nextFreePid == k.nextFreePid
    requires forall b :: b in k.pcbs && b != a ==> m.pcbs[b] == k.pcbs[b]
    requires m.pcbs[a].pid == k.pcbs[a].pid
    requires NoDup(m.ready) && NoDup(m.blocked) && NoDup(m.bySem) && NoDup(m.zombie)
    requires forall b :: b != a ==> (b in m.ready <==> b in k.ready) && (b in m.blocked <==> b in k.blocked)
                                    && (b in m.bySem <==> b in k.bySem) && (b in m.zombie <==> b in k.zombie)
    requires Placed(m, a) && m.pcbs[a].state != RUNNING
    requires m.current == k.current || (k.current == a && m.current == k.idle)
    requires m.foreground == None || (m.foreground == k.foreground && (m.foreground == Some(a) ==> m.pcbs[a].state != ZOMBIE))
    ensures Settled(m)
  {
    forall b | b in m.pcbs ensures Placed(m, b) {
      assert Placed(k, b);
    }
    forall b | Queued(m, b) ensures b in m.pcbs && b != m.idle {
      assert b != a ==> Queued(k, b);
    }
  }

  /** Processes with another pid keep their control block and their place among the ready. */
  ghost predicate OthersSame(k: Kernel, m: Kernel, pid: int) {
    && m.pcbs.Keys == k.pcbs.Keys
    && m.idle == k.idle && m.quantum == k.quantum && m.first == k.first && m.currentPid == k.currentPid
    && m.nextFreePid == k.nextFreePid
    && (forall b :: b in k.pcbs && k.pcbs[b].pid != pid ==> m.pcbs[b] == k.pcbs[b] && (b in m.ready <==> b in k.ready))
  }

  /** What a search by pid in one of the queues of live processes finds, and the queue without it. */
  lemma FoundIn(k: Kernel, q: seq<nat>, pid: int)
    requires Settled(k) && (q == k.ready || q == k.blocked || q == k.bySem) && Find(k.pcbs, q, pid).Some?
    ensures var a := Find(k.pcbs, q, pid).value; var r := WithoutPid(k.pcbs, q, pid);
            && a in k.pcbs && k.pcbs[a].pid == pid && a != k.idle && Placed(k, a) && k.pcbs[a].state != ZOMBIE
            && NoDup(r) && forall b :: b in r <==> b in q && b != a
  {
    var a := Find(k.pcbs, q, pid).value;
    assert Queued(k, a) && Placed(k, a);
    WithoutIs(k.pcbs, q, a);
  }

  lemma ToBlockedSettled(k: Kernel, m: Kernel, a: nat)
    requires Settled(k) && a in k.pcbs && a != k.idle && a !in k.blocked && k.pcbs[a].state != ZOMBIE
    requires m == k.(ready := m.ready, bySem := m.bySem, blocked := k.blocked + [a], pcbs := SetState(k.pcbs, a, BLOCKED))
    requires NoDup(m.ready) && (forall b :: b in m.ready <==> b in k.ready && b != a)
    requires NoDup(m.bySem) && (forall b :: b in m.bySem <==> b in k.bySem && b != a)
    ensures Settled(m)
  {
    assert Placed(k, a);
    AppendOk(k.blocked, a);
    MovedSettled(k, m, a);
  }

  lemma BlockSettled(k: Kernel, pid: int)
    requires Settled(k)
    ensures Settled(BlockQueue(k, pid).0) && OthersSame(k, BlockQueue(k, pid).0, pid)
  {
    if Find(k.pcbs, k.ready, pid).Some? {
      BlockReady(k, pid);
    } else if Find(k.pcbs, k.bySem, pid).Some? {
      BlockWaiting(k, pid);
    }
  }

  lemma BlockReady(k: Kernel, pid: int)
    requires Settled(k) && Find(k.pcbs, k.ready, pid).Some?
    ensures Settled(BlockQueue(k, pid).0) && OthersSame(k, BlockQueue(k, pid).0, pid)
  {
    FoundIn(k, k.ready, pid);
    ToBlockedSettled(k, BlockQueue(k, pid).0, Find(k.pcbs, k.ready, pid).value);
  }

  lemma BlockWaiting(k: Kernel, pid: int)
    requires Settled(k) && Find(k.pcbs, k.ready, pid).None? && Find(k.pcbs, k.bySem, pid).Some?
    ensures Settled(BlockQueue(k, pid).0) && OthersSame(k, BlockQueue(k, pid).0, pid)
  {
    FoundIn(k, k.bySem, pid);
    ToBlockedSettled(k, BlockQueue(k, pid).0, Find(k.pcbs, k.bySem, pid).value);
  }

  lemma BlockBySemSettled(k: Kernel, pid: int)
    requires Settled(k)
    ensures Settled(BlockQueueBySem(k, pid).0) && OthersSame(k, BlockQueueBySem(k, pid).0, pid)
  {
    if Find(k.pcbs, k.ready, pid).Some? {
      FoundIn(k, k.ready, pid);
      var a := Find(k.pcbs, k.ready, pid).value;
      AppendOk(k.bySem, a);
      MovedSettled(k, BlockQueueBySem(k, pid).0, a);
    }
  }

  lemma ToReadySettled(k: Kernel, m: Kernel, a: nat)
    requires Settled(k) && a in k.pcbs && a != k.idle && a !in k.ready && k.pcbs[a].state != ZOMBIE
    requires m == k.(ready := k.ready + [a], bySem := m.bySem, blocked := m.blocked, pcbs := SetState(k.pcbs, a, READY))
    requires NoDup(m.blocked) && (forall b :: b in m.blocked <==> b in k.blocked && b != a)
    requires NoDup(m.bySem) && (forall b :: b in m.bySem <==> b in k.bySem && b != a)
    ensures Settled(m)
  {
    assert Placed(k, a);
    AppendOk(k.ready, a);
    MovedSettled(k, m, a);
  }

  lemma UnblockSettled(k: Kernel, pid: int)
    requires Settled(k)
    ensures Settled(UnblockQueue(k, pid)) && OthersSame(k, UnblockQueue(k, pid), pid)
  {
    if Find(k.pcbs, k.blocked, pid).Some? {
      FoundIn(k, k.blocked, pid);
      ToReadySettled(k, UnblockQueue(k, pid), Find(k.pcbs, k.blocked, pid).value);
    }
  }

  lemma UnblockBySemSettled(k: Kernel, pid: int)
    requires Settled(k)
    ensures Settled(UnblockQueueBySem(k, pid)) && OthersSame(k, UnblockQueueBySem(k, pid), pid)
  {
    if Find(k.pcbs, k.bySem, pid).Some? {
      FoundIn(k, k.bySem, pid);
      ToReadySettled(k, UnblockQueueBySem(k, pid), Find(k.pcbs, k.bySem, pid).value);
    }
  }

  lemma BurySettled(k: Kernel, c: Kernel, a: nat, retValue: int)
    requires Settled(k) && a in k.pcbs && a != k.idle && k.pcbs[a].state != ZOMBIE && c.pcbs == k.pcbs
    requires c.idle == k.idle && c.nextFreePid == k.nextFreePid && c.foreground == k.foreground && c.zombie == k.zombie
    requires c.current == if k.current == a then k.idle else k.current
    requires NoDup(c.ready) && NoDup(c.blocked) && NoDup(c.bySem)
    requires forall b :: b in c.ready <==> b in k.ready && b != a
    requires forall b :: b in c.blocked <==> b in k.blocked && b != a
    requires forall b :: b in c.bySem <==> b in k.bySem && b != a
    ensures Settled(Bury(c, a, retValue)) && a in Bury(c, a, retValue).zombie
    ensures Bury(c, a, retValue).current != a && Bury(c, a, retValue).foreground != Some(a)
  {
    assert Placed(k, a);
    AppendOk(k.zombie, a);
    MovedSettled(k, Bury(c, a, retValue), a);
  }

  lemma TakeOutIs(k: Kernel, pid: int)
    requires Settled(k) && FindAlive(k, pid).Some?
    ensures var a := FindAlive(k, pid).value; var c := TakeOut(k, pid);
            && a in k.pcbs && k.pcbs[a].pid == pid && a != k.idle && k.pcbs[a].state != ZOMBIE
            && NoDup(c.ready) && NoDup(c.blocked) && NoDup(c.bySem)
            && (forall b :: b in c.ready <==> b in k.ready && b != a)
            && (forall b :: b in c.blocked <==> b in k.blocked && b != a)
            && (forall b :: b in c.bySem <==> b in k.bySem && b != a)
  {
    if Find(k.pcbs, k.ready, pid).Some? {
      FoundIn(k, k.ready, pid);
    } else if Find(k.pcbs, k.blocked, pid).Some? {
      FoundIn(k, k.blocked, pid);
    } else {
      FoundIn(k, k.bySem, pid);
    }
  }

  /** A process that is killed keeps no pointer to itself: it is a zombie in the zombie queue. */
  lemma KillSettled(k: Kernel, pid: int, retValue: int)
    requires Settled(k) && pid != 0
    ensures Settled(KillProcess(k, pid, retValue).0)
    ensures var r := KillProcess(k, pid, retValue);
            r.1.Some? ==>
              var a := r.1.value;
              && a in k.pcbs && k.pcbs[a].pid == pid && a != k.idle && k.pcbs[a].state != ZOMBIE
              && r.0.pcbs == k.pcbs[a := k.pcbs[a].(state := ZOMBIE, retValue := retValue)]
              && a in r.0.zombie && r.0.current != a && r.0.foreground != Some(a)
  {
    var c := if k.pcbs[k.current].pid == pid then k.(current := k.idle) else k;
    if FindAlive(k, pid).Some? {
      TakeOutIs(k, pid);
      TakeOutFrame(k, c, pid);
      BurySettled(k, TakeOut(c, pid), FindAlive(k, pid).value, retValue);
    } else {
      assert Placed(k, k.current);
      SettledFrame(k, c);
    }
  }

  /** Taking a process out does not look at the current pointer, nor at anything but three queues. */
  lemma TakeOutFrame(k: Kernel, c: Kernel, pid: int)
    requires c == k.(current := c.current)
    ensures var m, n := TakeOut(c, pid), TakeOut(k, pid);
            && m.ready == n.ready && m.blocked == n.blocked && m.bySem == n.bySem
            && m == c.(ready := m.ready, blocked := m.blocked, bySem := m.bySem)
  {
  }

  lemma TakeOutOthers(k: Kernel, pid: int)
    requires Settled(k) && FindAlive(k, pid).Some?
    ensures FindAlive(k, pid).value in k.pcbs && k.pcbs[FindAlive(k, pid).value].pid == pid
    ensures forall b :: b in k.pcbs && k.pcbs[b].pid != pid ==> (b in TakeOut(k, pid).ready <==> b in k.ready)
  {
    TakeOutIs(k, pid);
  }

  lemma BuryOthers(k: Kernel, c: Kernel, a: nat, pid: int, retValue: int)
    requires a in k.pcbs && k.pcbs[a].pid == pid
    requires forall b :: b in k.pcbs && k.pcbs[b].pid != pid ==> (b in c.ready <==> b in k.ready)
    requires c == k.(ready := c.ready, blocked := c.blocked, bySem := c.bySem, current := c.current)
    ensures OthersSame(k, Bury(c, a, retValue), pid)
  {
  }

  lemma KillOthers(k: Kernel, pid: int, retValue: int)
    requires Settled(k)
    ensures OthersSame(k, KillProcess(k, pid, retValue).0, pid)
  {
    if FindAlive(k, pid).Some? {
      TakeOutOthers(k, pid);
      var c := if k.pcbs[k.current].pid == pid then k.(current := k.idle) else k;
      BuryOthers(k, TakeOut(c, pid), FindAlive(k, pid).value, pid, retValue);
    }
  }

  lemma SettledFrame(k: Kernel, m: Kernel)
    requires Settled(k) && m.pcbs == k.pcbs && m.ready == k.ready && m.blocked == k.blocked && m.bySem == k.bySem
    requires m.zombie == k.zombie && m.idle == k.idle && m.foreground == k.foreground && m.nextFreePid == k.nextFreePid
    requires m.current == k.current || (m.current == m.idle && k.pcbs[k.current].state != RUNNING)
    ensures Settled(m)
  {
    forall b | b in m.pcbs ensures Placed(m, b) { assert Placed(k, b); }
    forall b | Queued(m, b) ensures b in m.pcbs && b != m.idle { assert Queued(k, b); }
  }

  // ---------------------------------------------------------------- the dispatcher

  lemma Rotate(q: seq<nat>)
    requires NoDup(q) && q != []
    ensures NoDup(q[1..] + [q[0]]) && forall b :: b in q[1..] + [q[0]] <==> b in q
  {
    var r := q[1..] + [q[0]];
    forall b ensures b in r <==> b in q {
      if b in q {
        var i :| 0 <= i < |q| && q[i] == b;
        assert r[if i == 0 then |q| - 1 else i - 1] == b;
      }
    }
  }

  /** What a dispatch does: the head of the ready queue, or idle when it is empty, gets the
      processor for its quantum and goes to the end of the queue; nothing but states changes. */
  lemma DispatchIs(k: Kernel)
    requires Settled(k) && (k.quantum == 0 || k.pcbs[k.current].state != RUNNING)
    requires forall a :: a in k.ready ==> a in k.pcbs
    ensures var m := Schedule(k); var next := if k.ready == [] then k.idle else k.ready[0];
            && m.current == next && next in k.pcbs && !m.first
            && m.ready == (if k.ready == [] then [] else k.ready[1..] + [k.ready[0]])
            && m.quantum == CalculateQuantum(k.pcbs[next].priority)
            && m.currentPid == k.pcbs[next].pid
            && m.pcbs.Keys == k.pcbs.Keys
            && (forall a :: a in k.pcbs ==> m.pcbs[a] == k.pcbs[a].(state :=
                  if a == next then RUNNING else if k.pcbs[a].state == RUNNING then READY else k.pcbs[a].state))
            && m == k.(pcbs := m.pcbs, ready := m.ready, current := m.current, foreground := m.foreground,
                       currentPid := m.currentPid, quantum := m.quantum, first := m.first)
            && (m.foreground == k.foreground || (m.foreground == Some(next) && k.ready != []))
  {
    if k.ready != [] {
      assert k.ready[0] in k.ready;
    }
  }

  /** After every dispatch the invariant holds: exactly the current process runs. */
  lemma DispatchKeeps(k: Kernel)
    requires Settled(k) && (k.quantum == 0 || k.pcbs[k.current].state != RUNNING)
    requires forall a :: a in k.ready ==> a in k.pcbs
    ensures Inv(Schedule(k)) && !Schedule(k).first
  {
    var m := Schedule(k);
    DispatchIs(k);
    if k.ready != [] {
      Rotate(k.ready);
      assert k.ready[0] in k.ready && Queued(k, k.ready[0]);
    }
    assert Placed(k, m.current);
    forall b | b in m.pcbs ensures Placed(m, b) { assert Placed(k, b); }
    forall b | Queued(m, b) ensures b in m.pcbs && b != m.idle { assert Queued(k, b); }
  }

  lemma ReadyKnown(k: Kernel)
    requires Partition(k)
    ensures forall a :: a in k.ready ==> a in k.pcbs
  {
    forall a | a in k.ready ensures a in k.pcbs { assert Queued(k, a); }
  }

  lemma TickKeeps(k: Kernel)
    requires Inv(k) && forall a :: a in k.ready ==> a in k.pcbs
    ensures Inv(Schedule(k))
  {
    if k.quantum > 0 && k.pcbs[k.current].state == RUNNING {
      SettledFrame(k, Schedule(k));
    } else {
      DispatchKeeps(k);
    }
  }
}

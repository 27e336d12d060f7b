/** How long a ready process can wait for the processor. */
module Fairness {
  import opened Options
  import opened Queues
  import opened Semaphores
  import opened Processes
  import opened Scheduler

  /** What a turn of a process of a given priority may cost, in ticks. */
  type Weight = Priority -> nat

  /** A whole turn in ticks, the one that dispatches it included: 19, 16, 13, 10, 7 or 4 for the
      priorities from 0 to 5, and 4 for the idle priority. */
  function OwnTurn(p: Priority): nat { if p <= 5 then 19 - 3 * p else 4 }

  ghost predicate Covers(w: Weight) { forall p: Priority :: w(p) >= OwnTurn(p) }

  /** The weights of the processes ahead of p in q. */
  ghost function SumAhead(pcbs: Pcbs, q: seq<nat>, p: nat, w: Weight): nat {
    if q == [] || q[0] == p then 0
    else (if q[0] in pcbs then w(pcbs[q[0]].priority) else 0) + SumAhead(pcbs, q[1..], p, w)
  }

  /** An upper bound on the ticks until p is dispatched. */
  ghost function Potential(k: Kernel, p: nat, w: Weight): nat {
    k.quantum + 1 + SumAhead(k.pcbs, k.ready, p, w)
  }

  // ---------------------------------------------------------------- queue changes and the sum

  lemma {:induction false} SumAppend(pcbs: Pcbs, q: seq<nat>, a: nat, p: nat, w: Weight)
    requires p in q
    ensures SumAhead(pcbs, q + [a], p, w) == SumAhead(pcbs, q, p, w)
  {
    if q[0] != p {
      SumAppend(pcbs, q[1..], a, p, w);
      assert (q + [a])[1..] == q[1..] + [a];
    }
  }

  lemma {:induction false} SumRemove(pcbs: Pcbs, q: seq<nat>, i: nat, p: nat, w: Weight)
    requires i < |q| && q[i] != p && p in q
    ensures p in Queues.Without(q, i)
    ensures SumAhead(pcbs, Queues.Without(q, i), p, w) <= SumAhead(pcbs, q, p, w)
  {
    var r := Queues.Without(q, i);
    var j :| 0 <= j < |q| && q[j] == p;
    assert r[if j < i then j else j - 1] == p;
    if q[0] != p {
      if i == 0 {
        assert r == q[1..];
      } else {
        SumRemove(pcbs, q[1..], i - 1, p, w);
        assert r[1..] == Queues.Without(q[1..], i - 1);
      }
    }
  }

  lemma {:induction false} SumPcbs(pcbs: Pcbs, pcbs': Pcbs, q: seq<nat>, p: nat, w: Weight)
    requires forall a :: a in q && a in pcbs' ==> a in pcbs && w(pcbs'[a].priority) <= w(pcbs[a].priority)
    ensures SumAhead(pcbs', q, p, w) <= SumAhead(pcbs, q, p, w)
  {
    if q != [] && q[0] != p {
      SumPcbs(pcbs, pcbs', q[1..], p, w);
    }
  }

  lemma RemovePid(k: Kernel, pid: int, p: nat, w: Weight)
    requires p in k.ready && p in WithoutPid(k.pcbs, k.ready, pid) && NoDup(k.ready)
    ensures SumAhead(k.pcbs, WithoutPid(k.pcbs, k.ready, pid), p, w) <= SumAhead(k.pcbs, k.ready, p, w)
  {
    var i := FirstMatch(k.ready, HasPid(k.pcbs, pid));
    if i < |k.ready| {
      var r := Queues.Without(k.ready, i);
      var j :| 0 <= j < |r| && r[j] == p;
      assert k.ready[i] != p by {
        assert r[j] == k.ready[if j < i then j else j + 1];
      }
      SumRemove(k.pcbs, k.ready, i, p, w);
    }
  }

  /** Nobody that stays ahead of p got a longer turn. */
  ghost predicate TurnsKept(k: Kernel, m: Kernel, w: Weight) {
    forall a :: a in k.ready && a in m.pcbs ==> a in k.pcbs && w(m.pcbs[a].priority) <= w(k.pcbs[a].priority)
  }

  ghost predicate NoWorse(k: Kernel, m: Kernel, p: nat, w: Weight) {
    p in k.ready && p in m.ready ==> SumAhead(m.pcbs, m.ready, p, w) <= SumAhead(k.pcbs, k.ready, p, w)
  }

  lemma PcbsNoWorse(k: Kernel, m: Kernel, p: nat, w: Weight)
    requires m.ready == k.ready && TurnsKept(k, m, w)
    ensures NoWorse(k, m, p, w)
  {
    if p in k.ready {
      SumPcbs(k.pcbs, m.pcbs, k.ready, p, w);
    }
  }

  lemma RemoveNoWorse(k: Kernel, m: Kernel, pid: int, p: nat, w: Weight)
    requires NoDup(k.ready) && m.ready == WithoutPid(k.pcbs, k.ready, pid) && TurnsKept(k, m, w)
    ensures NoWorse(k, m, p, w)
  {
    if p in k.ready && p in m.ready {
      RemovePid(k, pid, p, w);
      forall a | a in m.ready ensures a in k.ready {
        var i := FirstMatch(k.ready, HasPid(k.pcbs, pid));
        if i < |k.ready| {
          var j :| 0 <= j < |m.ready| && m.ready[j] == a;
          assert m.ready[j] == k.ready[if j < i then j else j + 1];
        }
      }
      SumPcbs(k.pcbs, m.pcbs, m.ready, p, w);
    }
  }

  lemma AppendNoWorse(k: Kernel, m: Kernel, a: nat, p: nat, w: Weight)
    requires m.ready == k.ready + [a] && TurnsKept(k, m, w)
    ensures NoWorse(k, m, p, w)
  {
    if p in k.ready {
      SumAppend(k.pcbs, k.ready, a, p, w);
      SumAhead1(k.pcbs, m.pcbs, k.ready, a, p, w);
    }
  }

  lemma SumAhead1(pcbs: Pcbs, pcbs': Pcbs, q: seq<nat>, a: nat, p: nat, w: Weight)
    requires p in q
    requires forall b :: b in q && b in pcbs' ==> b in pcbs && w(pcbs'[b].priority) <= w(pcbs[b].priority)
    ensures SumAhead(pcbs', q + [a], p, w) <= SumAhead(pcbs, q + [a], p, w)
  {
    SumAppend(pcbs, q, a, p, w);
    SumAppend(pcbs', q, a, p, w);
    SumPcbs(pcbs, pcbs', q, p, w);
  }

  // ---------------------------------------------------------------- the dispatcher and the potential

  /** A dispatch of somebody else uses up the turn of the head of the queue. */
  lemma DispatchPays(k: Kernel, p: nat, w: Weight)
    requires Settled(k) && CanDispatch(k) && Covers(w)
    requires k.quantum == 0 || k.pcbs[k.current].state != RUNNING
    requires p in k.ready && Schedule(k).current != p
    ensures Potential(Schedule(k), p, w) <= SumAhead(k.pcbs, k.ready, p, w)
  {
    DispatchIs(k);
    var m := Schedule(k);
    var h := k.ready[0];
    assert p in k.ready[1..] by {
      var j :| 0 <= j < |k.ready| && k.ready[j] == p;
      assert k.ready[1..][j - 1] == p;
    }
    SumAppend(m.pcbs, k.ready[1..], h, p, w);
    SumPcbs(k.pcbs, m.pcbs, k.ready[1..], p, w);
    assert h in k.pcbs;
  }

  lemma YieldPays(k: Kernel, p: nat, w: Weight)
    requires Settled(k) && CanDispatch(k) && Covers(w) && p in k.ready && Yield(k).current != p
    ensures Potential(Yield(k), p, w) <= SumAhead(k.pcbs, k.ready, p, w)
  {
    SettledFrame(k, k.(quantum := 0));
    DispatchPays(k.(quantum := 0), p, w);
  }

  /** Either nothing ahead got longer and the quantum did not grow, or a dispatch paid for it. */
  ghost predicate Bounded(k: Kernel, m: Kernel, p: nat, w: Weight) {
    p in k.ready && p in m.ready && m.current != p ==> Potential(m, p, w) <= Potential(k, p, w)
  }

  lemma TickPays(k: Kernel, p: nat, w: Weight)
    requires Inv(k) && CanDispatch(k) && Covers(w) && p in k.ready && Schedule(k).current != p
    ensures Potential(Schedule(k), p, w) + 1 <= Potential(k, p, w)
  {
    if !(k.quantum > 0 && k.pcbs[k.current].state == RUNNING) {
      DispatchPays(k, p, w);
    }
  }

  lemma YieldBounded(k: Kernel, m: Kernel, p: nat, w: Weight)
    requires NoWorse(k, m, p, w) && Settled(m) && CanDispatch(m) && Covers(w)
    requires p in m.ready ==> p in k.ready
    ensures Bounded(k, Yield(m), p, w)
  {
    if p in k.ready && p in Yield(m).ready && Yield(m).current != p {
      SettledFrame(m, m.(quantum := 0));
      DispatchIs(m.(quantum := 0));
      if m.ready != [] {
        Rotate(m.ready);
      }
      YieldPays(m, p, w);
    }
  }

  // ---------------------------------------------------------------- every call

  /** The quantum and the current process are as before. */
  lemma QuietBounded(k: Kernel, m: Kernel, p: nat, w: Weight)
    requires NoWorse(k, m, p, w) && m.quantum == k.quantum
    ensures Bounded(k, m, p, w)
  {
  }

  lemma BlockBounded(k: Kernel, pid: int, p: nat, w: Weight)
    requires Inv(k) && Covers(w)
    ensures Bounded(k, BlockProcess(k, pid), p, w)
  {
    BlockSettled(k, pid);
    BlockNoWorse(k, pid, p, w);
    var (m, ok) := BlockQueue(k, pid);
    SettledCanDispatch(m);
    if ok && pid == CurrentPid(m) {
      YieldBounded(k, m, p, w);
    }
  }

  lemma BlockNoWorse(k: Kernel, pid: int, p: nat, w: Weight)
    requires Settled(k)
    ensures var m := BlockQueue(k, pid).0;
            NoWorse(k, m, p, w) && m.quantum == k.quantum && (p in m.ready ==> p in k.ready)
  {
    var m := BlockQueue(k, pid).0;
    if Find(k.pcbs, k.ready, pid).Some? {
      RemoveNoWorse(k, m, pid, p, w);
      WithoutIs(k.pcbs, k.ready, Find(k.pcbs, k.ready, pid).value);
    } else {
      PcbsNoWorse(k, m, p, w);
    }
  }

  lemma UnblockBounded(k: Kernel, pid: int, p: nat, w: Weight)
    requires Settled(k)
    ensures NoWorse(k, UnblockQueue(k, pid), p, w) && UnblockQueue(k, pid).quantum == k.quantum
    ensures p in UnblockQueue(k, pid).ready && p !in k.ready ==> p in k.blocked
  {
    var m := UnblockQueue(k, pid);
    if Find(k.pcbs, k.blocked, pid).Some? {
      AppendNoWorse(k, m, Find(k.pcbs, k.blocked, pid).value, p, w);
    } else {
      PcbsNoWorse(k, m, p, w);
    }
  }

  lemma WakeParentBounded(k: Kernel, child: nat, p: nat, w: Weight)
    requires Settled(k) && child in k.pcbs && k.pcbs[child].state == ZOMBIE && child != k.current
    ensures var m := WakeParent(k, k.pcbs[child].parentPid, k.pcbs[child].pid);
            && NoWorse(k, m, p, w) && m.quantum == k.quantum && m.current == k.current
            && (p in m.ready && p !in k.ready ==> p in k.blocked)
  {
    var parentPid := k.pcbs[child].parentPid;
    GetProcessIs(k, child);
    if parentPid != NO_PID {
      ReapSettled(k, child);
      assert Placed(k, child);
      var r := if parentPid == k.pcbs[k.idle].pid then ReapChild(k, child) else k;
      PcbsNoWorse(k, r, p, w);
      UnblockBounded(r, parentPid, p, w);
    }
  }

  lemma KilledReady(k: Kernel, pid: int, retValue: int)
    ensures var m := KillProcess(k, pid, retValue).0;
            && m.ready == (if Find(k.pcbs, k.ready, pid).Some? then WithoutPid(k.pcbs, k.ready, pid) else k.ready)
            && m.quantum == k.quantum
  {
  }

  lemma KilledTurns(k: Kernel, pid: int, retValue: int, w: Weight)
    ensures TurnsKept(k, KillProcess(k, pid, retValue).0, w)
  {
    var m := KillProcess(k, pid, retValue).0;
    assert FindAlive(k, pid).Some? ==>
             m.pcbs.Keys == k.pcbs.Keys && forall a :: a in k.pcbs ==> m.pcbs[a].priority == k.pcbs[a].priority;
  }

  lemma KilledBlocked(k: Kernel, pid: int, retValue: int, p: nat)
    requires Settled(k) && p !in k.blocked
    ensures p !in KillProcess(k, pid, retValue).0.blocked
  {
    if FindAlive(k, pid).Some? {
      TakeOutIs(k, pid);
    }
  }

  lemma ReadyNotBlocked(k: Kernel, p: nat)
    requires Settled(k) && p in k.ready
    ensures p !in k.blocked
  {
    assert Queued(k, p) && Placed(k, p);
  }

  lemma KilledNoWorse(k: Kernel, pid: int, retValue: int, p: nat, w: Weight)
    requires Settled(k) && pid != 0
    ensures var m := KillProcess(k, pid, retValue).0;
            && NoWorse(k, m, p, w) && m.quantum == k.quantum
            && (p in m.ready ==> p in k.ready) && (p in k.ready ==> p !in m.blocked)
  {
    KilledReady(k, pid, retValue);
    KilledTurns(k, pid, retValue, w);
    var m := KillProcess(k, pid, retValue).0;
    if p in k.ready {
      ReadyNotBlocked(k, p);
      KilledBlocked(k, pid, retValue, p);
    }
    if Find(k.pcbs, k.ready, pid).Some? {
      RemoveNoWorse(k, m, pid, p, w);
      var a := Find(k.pcbs, k.ready, pid).value;
      WithoutIs(k.pcbs, k.ready, a);
    } else {
      PcbsNoWorse(k, m, p, w);
    }
  }

  lemma KillBounded(k: Kernel, pid: int, retValue: int, p: nat, w: Weight)
    requires Inv(k) && Covers(w)
    ensures Bounded(k, Kill(k, pid, retValue), p, w)
  {
    if pid > SHELL_PID {
      KilledNoWorse(k, pid, retValue, p, w);
      KillSettled(k, pid, retValue);
      var (m, victim) := KillProcess(k, pid, retValue);
      if victim.Some? {
        WakeParentSettled(m, victim.value);
        WakeParentBounded(m, victim.value, p, w);
        var u := WakeParent(m, m.pcbs[victim.value].parentPid, pid);
        SettledCanDispatch(u);
        if p in k.ready {
          if pid == k.currentPid {
            YieldBounded(k, u, p, w);
          }
        }
      }
    }
  }

  /** The running process leaves the ready queue and gives up the processor. */
  lemma LeaveAndYield(k: Kernel, m: Kernel, b: Kernel, a: nat, p: nat, w: Weight)
    requires Settled(m) && Settled(b) && CanDispatch(b) && Covers(w)
    requires m.ready == k.ready && TurnsKept(k, m, w) && TurnsKept(m, b, w)
    requires a in m.ready && a in m.pcbs && b.ready == WithoutPid(m.pcbs, m.ready, m.pcbs[a].pid)
    ensures Bounded(k, Yield(b), p, w)
  {
    PcbsNoWorse(k, m, p, w);
    WithoutIs(m.pcbs, m.ready, a);
    RemoveNoWorse(m, b, m.pcbs[a].pid, p, w);
    YieldBounded(k, b, p, w);
  }

  lemma CallerGoneTurns(k: Kernel, pid: int, w: Weight)
    requires k.current in k.pcbs
    ensures TurnsKept(k, SetWaiting(k, pid), w) && TurnsKept(SetWaiting(k, pid), CallerGone(k, pid), w)
  {
  }

  lemma CallerLeaves(k: Kernel, pid: int, p: nat, w: Weight)
    requires Inv(k) && !k.first && k.current != k.idle && Covers(w)
    ensures CanDispatch(CallerGone(k, pid)) && Bounded(k, Yield(CallerGone(k, pid)), p, w)
  {
    CallerGoneIs(k, pid);
    CallerGoneTurns(k, pid, w);
    LeaveAndYield(k, SetWaiting(k, pid), CallerGone(k, pid), k.current, p, w);
  }

  lemma ReapedBounded(k: Kernel, t: nat, p: nat, w: Weight)
    requires k.current in k.pcbs && t in k.pcbs
    ensures Bounded(k, ReapChild(SetWaiting(k, NO_PID), t), p, w)
  {
    PcbsNoWorse(k, ReapChild(SetWaiting(k, NO_PID), t), p, w);
  }

  lemma WaitPidBounded(k: Kernel, pid: int, p: nat, w: Weight)
    requires Inv(k) && !k.first && k.current != k.idle && Covers(w)
    ensures Bounded(k, WaitPid(k, pid).0, p, w)
  {
    WaitPidCases(k, pid);
    CallerLeaves(k, pid, p, w);
    if GetProcess(k, pid).Some? && GetProcess(k, pid).value in k.pcbs {
      ReapedBounded(k, GetProcess(k, pid).value, p, w);
    }
  }

  lemma SemWaitCases(k: Kernel, id: nat, w: Weight)
    requires Inv(k) && id in k.sems && CurrentPid(k) >= 0
    ensures var pid := CurrentPid(k);
            var m := k.(sems := k.sems[id := Wait(k.sems[id], pid)]);
            var b := BlockQueueBySem(m, pid).0;
            && Settled(m) && Settled(b) && CanDispatch(b) && TurnsKept(k, m, w) && TurnsKept(m, b, w)
            && (SemWait(k, id) == m
                || (SemWait(k, id) == Yield(b) && k.current in m.ready && b.ready == WithoutPid(m.pcbs, m.ready, pid)))
  {
    var pid := CurrentPid(k);
    var m := k.(sems := k.sems[id := Wait(k.sems[id], pid)]);
    SettledFrame(k, m);
    BlockBySemSettled(m, pid);
    SettledCanDispatch(BlockQueueBySem(m, pid).0);
    JoinTurns(m, pid, w);
  }

  lemma JoinTurns(m: Kernel, pid: int, w: Weight)
    requires Settled(m)
    ensures TurnsKept(m, BlockQueueBySem(m, pid).0, w)
    ensures BlockQueueBySem(m, pid).1 && pid == CurrentPid(m) ==>
              m.current in m.ready && BlockQueueBySem(m, pid).0.ready == WithoutPid(m.pcbs, m.ready, pid)
  {
  }

  lemma SemWaitBounded(k: Kernel, id: nat, p: nat, w: Weight)
    requires Inv(k) && id in k.sems && CurrentPid(k) >= 0 && Covers(w)
    ensures Bounded(k, SemWait(k, id), p, w)
  {
    var pid := CurrentPid(k);
    var m := k.(sems := k.sems[id := Wait(k.sems[id], pid)]);
    SemWaitCases(k, id, w);
    PcbsNoWorse(k, m, p, w);
    if SemWait(k, id) != m {
      LeaveAndYield(k, m, BlockQueueBySem(m, pid).0, k.current, p, w);
    }
  }

  lemma SemPostBounded(k: Kernel, id: nat, p: nat, w: Weight)
    requires Inv(k) && id in k.sems
    ensures Bounded(k, SemPost(k, id), p, w)
  {
    var s := k.sems[id];
    var m := k.(sems := k.sems[id := Post(s)]);
    if s.waiting != [] && Find(m.pcbs, m.bySem, s.waiting[0]).Some? {
      AppendNoWorse(k, SemPost(k, id), Find(m.pcbs, m.bySem, s.waiting[0]).value, p, w);
    } else {
      PcbsNoWorse(k, SemPost(k, id), p, w);
    }
  }

  lemma CreateBounded(k: Kernel, a: nat, priority: int, foreground: bool, readsTerminal: bool, memoryLeft: bool, p: nat, w: Weight)
    requires Inv(k) && a !in k.pcbs
    ensures Bounded(k, Create(k, a, priority, foreground, readsTerminal, memoryLeft), p, w)
  {
    var m := Create(k, a, priority, foreground, readsTerminal, memoryLeft);
    assert Queued(k, a) ==> a in k.pcbs;
    if m.ready == k.ready {
      PcbsNoWorse(k, m, p, w);
    } else {
      AppendNoWorse(k, m, a, p, w);
    }
  }

  lemma ResumeBounded(k: Kernel, pid: int, p: nat, w: Weight)
    requires Inv(k) && !k.first && k.current != k.idle
    ensures Bounded(k, WaitResumed(k, pid).0, p, w)
  {
    GetProcessSound(k, pid);
    if GetProcess(k, pid).Some? {
      assert Placed(k, GetProcess(k, pid).value);
    }
    PcbsNoWorse(k, WaitResumed(k, pid).0, p, w);
  }

  /** No step makes p's bound worse, and every tick makes it better, unless it dispatches p. */
  lemma NextBounded(k: Kernel, e: Step, p: nat, w: Weight)
    requires Inv(k) && Allowed(k, e) && Covers(w) && p in k.ready
    requires e.Prio? ==> TurnsKept(k, Next(k, e), w)
    requires p in Next(k, e).ready && Next(k, e).current != p
    ensures Potential(Next(k, e), p, w) + (if e.Tick? then 1 else 0) <= Potential(k, p, w)
  {
    SettledCanDispatch(k);
    match e
    case Tick => TickPays(k, p, w);
    case GiveUp => PcbsNoWorse(k, k, p, w); YieldBounded(k, k, p, w);
    case New(a, priority, foreground, readsTerminal, memoryLeft) =>
      CreateBounded(k, a, priority, foreground, readsTerminal, memoryLeft, p, w);
    case Block(pid) => BlockBounded(k, pid, p, w);
    case Unblock(pid) => UnblockBounded(k, pid, p, w);
    case KillPid(pid, retValue) => KillBounded(k, pid, retValue, p, w);
    case WaitFor(pid) => WaitPidBounded(k, pid, p, w);
    case WaitAgain(pid) => ResumeBounded(k, pid, p, w);
    case Prio(pid, priority) => PcbsNoWorse(k, Next(k, e), p, w);
    case Open(id, value) => PcbsNoWorse(k, Next(k, e), p, w);
    case DownSem(id) => SemWaitBounded(k, id, p, w);
    case UpSem(id) => SemPostBounded(k, id, p, w);
    case Close(id) => PcbsNoWorse(k, Next(k, e), p, w);
  }

  // ---------------------------------------------------------------- the theorem

  /** Along the run p stays ready and is never dispatched, and calls that change a priority do
      not lengthen, in the eyes of w, the turn of a ready process. */
  ghost predicate KeepsWaiting(k: Kernel, es: seq<Step>, p: nat, w: Weight)
    requires Inv(k)
    decreases |es|
  {
    p in k.ready &&
    (es == [] ||
     if Allowed(k, es[0]) then
       NextKeeps(k, es[0]);
       && Next(k, es[0]).current != p
       && (es[0].Prio? ==> TurnsKept(k, Next(k, es[0]), w))
       && KeepsWaiting(Next(k, es[0]), es[1..], p, w)
     else KeepsWaiting(k, es[1..], p, w))
  }

  function Ticks(es: seq<Step>): nat {
    if es == [] then 0 else (if es[0].Tick? then 1 else 0) + Ticks(es[1..])
  }

  /** While p waits, the ticks are fewer than its potential, whatever else happens. */
  lemma {:induction false} WaitBelowPotential(k: Kernel, es: seq<Step>, p: nat, w: Weight)
    requires Inv(k) && Covers(w) && KeepsWaiting(k, es, p, w)
    ensures Ticks(es) < Potential(k, p, w)
    decreases |es|
  {
    if es != [] {
      if Allowed(k, es[0]) {
        NextKeeps(k, es[0]);
        var m := Next(k, es[0]);
        assert p in m.ready by {
          assert KeepsWaiting(m, es[1..], p, w);
        }
        NextBounded(k, es[0], p, w);
        WaitBelowPotential(m, es[1..], p, w);
      } else {
        WaitBelowPotential(k, es[1..], p, w);
      }
    }
  }

  /** Position of p in q. */
  function IndexOf(q: seq<nat>, p: nat): nat { if q == [] || q[0] == p then 0 else 1 + IndexOf(q[1..], p) }

  const LONGEST_TURN: nat := 19

  function LongestTurn(p: Priority): nat { LONGEST_TURN }

  lemma {:induction false} SumLongest(pcbs: Pcbs, q: seq<nat>, p: nat)
    ensures SumAhead(pcbs, q, p, LongestTurn) <= LONGEST_TURN * IndexOf(q, p)
  {
    if q != [] && q[0] != p {
      SumLongest(pcbs, q[1..], p);
    }
  }

  /** Along the run p stays ready and is never dispatched; nothing is asked of priorities. */
  ghost predicate StaysReady(k: Kernel, es: seq<Step>, p: nat)
    requires Inv(k)
    decreases |es|
  {
    p in k.ready &&
    (es == [] ||
     if Allowed(k, es[0]) then
       NextKeeps(k, es[0]);
       Next(k, es[0]).current != p && StaysReady(Next(k, es[0]), es[1..], p)
     else StaysReady(k, es[1..], p))
  }

  /** With the longest turn as weight no priority change matters. */
  lemma LongestTurnKept(k: Kernel, e: Step)
    requires Inv(k) && Allowed(k, e) && e.Prio?
    ensures TurnsKept(k, Next(k, e), LongestTurn)
  {
  }

  lemma {:induction false} ReadyKeepsWaiting(k: Kernel, es: seq<Step>, p: nat)
    requires Inv(k) && StaysReady(k, es, p)
    ensures KeepsWaiting(k, es, p, LongestTurn)
    decreases |es|
  {
    if es != [] {
      if Allowed(k, es[0]) {
        NextKeeps(k, es[0]);
        if es[0].Prio? {
          LongestTurnKept(k, es[0]);
        }
        ReadyKeepsWaiting(Next(k, es[0]), es[1..], p);
      } else {
        ReadyKeepsWaiting(k, es[1..], p);
      }
    }
  }

  /** Bounded waiting, unconditionally: a process at position i of the ready queue that stays
      ready is dispatched by the 19 * (i + 1)-th tick, whatever arrives, unblocks, yields, dies
      or changes priority in between, in calls or in interrupt handlers, over idle or not. */
  lemma BoundedWaiting(k: Kernel, es: seq<Step>, p: nat)
    requires Inv(k) && StaysReady(k, es, p)
    ensures Ticks(es) < 19 * (IndexOf(k.ready, p) + 1)
  {
    ReadyKeepsWaiting(k, es, p);
    WaitBelowPotential(k, es, p, LongestTurn);
    SumLongest(k.pcbs, k.ready, p);
  }

  /** Bounded waiting, sharp: while no ready process is given a better priority, p waits no more
      ticks than what is left of the running turn plus the turns of those ahead of it. */
  lemma BoundedWaitingByPriorities(k: Kernel, es: seq<Step>, p: nat)
    requires Inv(k) && KeepsWaiting(k, es, p, OwnTurn)
    ensures Ticks(es) <= k.quantum + SumAhead(k.pcbs, k.ready, p, OwnTurn)
  {
    WaitBelowPotential(k, es, p, OwnTurn);
  }
}

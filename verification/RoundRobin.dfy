/** With only the timer acting, the ready processes take exact turns. */
module RoundRobin {
  import Fairness
  import opened Options
  import opened Queues
  import opened Processes
  import opened Scheduler
  import opened KernelRuns

  ghost function Tick(k: Kernel): Kernel { if CanDispatch(k) then Schedule(k) else k }

  ghost function TickN(k: Kernel, n: nat): Kernel
    decreases n
  {
    if n == 0 then k else TickN(Tick(k), n - 1)
  }

  /** Who holds the processor after each of the next n ticks. */
  ghost function Trace(k: Kernel, n: nat): seq<nat>
    decreases n
  {
    if n == 0 then [] else [Tick(k).current] + Trace(Tick(k), n - 1)
  }

  lemma TickOk(k: Kernel)
    requires Inv(k)
    ensures CanDispatch(k) && Inv(Tick(k))
  {
    SettledCanDispatch(k);
    TickKeeps(k);
  }

  lemma {:induction false} TickNOk(k: Kernel, n: nat)
    requires Inv(k)
    ensures Inv(TickN(k, n))
    decreases n
  {
    if n > 0 {
      TickOk(k);
      TickNOk(Tick(k), n - 1);
    }
  }

  function Copies(a: nat, n: nat): seq<nat> { seq(n, _ => a) }

  lemma {:induction false} TraceAppend(k: Kernel, a: nat, b: nat)
    ensures TickN(k, a + b) == TickN(TickN(k, a), b)
    ensures Trace(k, a + b) == Trace(k, a) + Trace(TickN(k, a), b)
    decreases a
  {
    if a > 0 {
      TraceAppend(Tick(k), a - 1, b);
    }
  }

  /** The running process keeps the processor while its quantum lasts. */
  lemma {:induction false} QuantumLasts(k: Kernel, n: nat)
    requires Inv(k) && !k.first && n <= k.quantum
    ensures TickN(k, n) == k.(quantum := k.quantum - n)
    ensures Trace(k, n) == Copies(k.current, n)
    decreases n
  {
    if n > 0 {
      TickOk(k);
      var m := Tick(k);
      assert m == k.(quantum := k.quantum - 1);
      QuantumLasts(m, n - 1);
      assert Copies(k.current, n) == [k.current] + Copies(k.current, n - 1);
    }
  }

  function TurnOf(k: Kernel, a: nat): nat
    requires a in k.pcbs
  {
    Fairness.OwnTurn(k.pcbs[a].priority)
  }

  ghost predicate SamePriorities(k: Kernel, m: Kernel) {
    m.pcbs.Keys == k.pcbs.Keys && forall a :: a in k.pcbs ==> m.pcbs[a].priority == k.pcbs[a].priority
  }

  /** With the quantum used up, the next tick dispatches the head of the queue. */
  lemma TurnStarts(k: Kernel)
    requires Inv(k) && !k.first && k.quantum == 0 && k.ready != [] && k.ready[0] in k.pcbs
    ensures var h := k.ready[0]; var d := Tick(k);
            && Inv(d) && !d.first && d.quantum + 1 == TurnOf(k, h) && d.current == h && d.ready == k.ready[1..] + [h]
            && SamePriorities(k, d)
  {
    SettledCanDispatch(k);
    DispatchIs(k);
    TickOk(k);
  }

  lemma FirstThenRest(k: Kernel, m: Kernel, n: nat)
    requires TickN(Tick(k), n) == m && Trace(Tick(k), n) == Copies(m.current, n) && Tick(k).current == m.current
    ensures TickN(k, n + 1) == m && Trace(k, n + 1) == Copies(m.current, n + 1)
  {
    assert Copies(m.current, n + 1) == [m.current] + Copies(m.current, n);
  }

  /** The head of the queue gets one whole turn. */
  lemma OneTurn(k: Kernel)
    requires Inv(k) && !k.first && k.quantum == 0 && k.ready != [] && k.ready[0] in k.pcbs
    ensures var h := k.ready[0]; var m := TickN(k, TurnOf(k, h));
            && !m.first && m.quantum == 0 && m.current == h && m.ready == k.ready[1..] + [h]
            && SamePriorities(k, m)
            && Trace(k, TurnOf(k, h)) == Copies(h, TurnOf(k, h))
  {
    var h := k.ready[0];
    TurnStarts(k);
    var d := Tick(k);
    QuantumLasts(d, d.quantum);
    FirstThenRest(k, d.(quantum := 0), d.quantum);
  }

  // ---------------------------------------------------------------- the length of a turn, in ticks

  /** The head of the queue holds the processor after each of the next n ticks and after no more. */
  ghost predicate TurnLasts(k: Kernel, n: nat) {
    k.ready != [] && Trace(k, n) == Copies(k.ready[0], n) && Trace(k, n + 1) != Copies(k.ready[0], n + 1)
  }

  lemma TraceOfCopies(k: Kernel, a: nat, n: nat, m: nat)
    requires Trace(k, m) == Copies(a, m) && n <= m
    ensures Trace(k, n) == Copies(a, n)
  {
    hide Trace, TickN;
    TraceAppend(k, n, m - n);
    assert |Trace(k, n)| == n by { TraceSize(k, n); }
    assert Trace(k, n) == Copies(a, m)[..n];
  }

  lemma {:induction false} TraceSize(k: Kernel, n: nat)
    ensures |Trace(k, n)| == n
    decreases n
  {
    if n > 0 {
      TraceSize(Tick(k), n - 1);
    }
  }

  /** There is only one such n. */
  lemma TurnLastsOnce(k: Kernel, n: nat, m: nat)
    requires TurnLasts(k, n) && TurnLasts(k, m)
    ensures n == m
  {
    if n < m {
      TraceOfCopies(k, k.ready[0], n + 1, m);
    } else if m < n {
      TraceOfCopies(k, k.ready[0], m + 1, n);
    }
  }

  lemma WholeTurnLasts(k: Kernel, n: nat)
    requires Inv(k) && !k.first && k.quantum == 0 && |k.ready| > 1 && k.ready[0] in k.pcbs
    ensures TurnLasts(k, n) <==> n == TurnOf(k, k.ready[0])
  {
    hide TickN, Trace, Fairness.OwnTurn;
    var t := TurnOf(k, k.ready[0]);
    OneTurn(k);
    TickNOk(k, t);
    NextHead(TickN(k, t));
    TurnEnds(k, t);
    if TurnLasts(k, n) {
      TurnLastsOnce(k, n, t);
    }
  }

  lemma NextHead(m: Kernel)
    requires Inv(m) && !m.first && m.quantum == 0 && m.ready != []
    ensures Trace(m, 1) == [m.ready[0]]
  {
    assert m.ready[0] in m.ready && Queued(m, m.ready[0]);
    TurnStarts(m);
    assert Trace(m, 1) == [Tick(m).current] + Trace(Tick(m), 0);
  }

  lemma TurnEnds(k: Kernel, t: nat)
    requires |k.ready| > 1 && NoDup(k.ready) && Trace(k, t) == Copies(k.ready[0], t) && Trace(TickN(k, t), 1) == [k.ready[1]]
    ensures TurnLasts(k, t)
  {
    hide TickN, Trace;
    TraceAppend(k, t, 1);
    assert Trace(k, t + 1)[t] == k.ready[1];
  }

  /** In numbers: with somebody else ready, a process of priority p up to 5 that reaches the head
      with the quantum used up has the processor for exactly 19 - 3 * p ticks. */
  lemma TurnInTicks(k: Kernel, n: nat)
    requires Inv(k) && !k.first && k.quantum == 0 && |k.ready| > 1 && k.ready[0] in k.pcbs
    ensures TurnLasts(k, n) <==> n == (if k.pcbs[k.ready[0]].priority <= 5 then 19 - 3 * k.pcbs[k.ready[0]].priority else 4)
  {
    hide TickN, Trace;
    WholeTurnLasts(k, n);
  }

  /** The smaller the priority number, the longer the turn. */
  lemma BetterPriorityLongerTurn(k: Kernel, m: Kernel, n: nat, l: nat)
    requires Inv(k) && !k.first && k.quantum == 0 && |k.ready| > 1 && k.ready[0] in k.pcbs
    requires Inv(m) && !m.first && m.quantum == 0 && |m.ready| > 1 && m.ready[0] in m.pcbs
    requires TurnLasts(k, n) && TurnLasts(m, l) && k.pcbs[k.ready[0]].priority <= 5 && m.pcbs[m.ready[0]].priority <= 5
    ensures k.pcbs[k.ready[0]].priority < m.pcbs[m.ready[0]].priority <==> n > l
  {
    TurnInTicks(k, n);
    TurnInTicks(m, l);
  }

  /** With nobody ready, idle holds the processor for four ticks and is then looked at again. */
  lemma IdleTurn(k: Kernel)
    requires Inv(k) && !k.first && k.quantum == 0 && k.ready == [] && k.pcbs[k.idle].priority == IDLE_PRIORITY
    ensures Trace(k, 4) == Copies(k.idle, 4)
    ensures var m := TickN(k, 4); m.quantum == 0 && m.current == m.idle && m.ready == []
    ensures TickN(k, 1).quantum == 3
  {
    SettledCanDispatch(k);
    DispatchIs(k);
    TickOk(k);
    var d := Tick(k);
    QuantumLasts(d, 3);
    FirstThenRest(k, d.(quantum := 0), 3);
    assert TickN(k, 1) == TickN(d, 0);
  }

  ghost function TotalTurns(k: Kernel, q: seq<nat>): nat {
    if q == [] then 0 else (if q[0] in k.pcbs then TurnOf(k, q[0]) else 0) + TotalTurns(k, q[1..])
  }

  /** The schedule the queue promises: each process in order, for its whole turn. */
  ghost function Promised(k: Kernel, q: seq<nat>): seq<nat> {
    if q == [] then [] else (if q[0] in k.pcbs then Copies(q[0], TurnOf(k, q[0])) else []) + Promised(k, q[1..])
  }

  lemma {:induction false} SamePromise(k: Kernel, m: Kernel, q: seq<nat>)
    requires SamePriorities(k, m)
    ensures TotalTurns(m, q) == TotalTurns(k, q) && Promised(m, q) == Promised(k, q)
  {
    if q != [] {
      SamePromise(k, m, q[1..]);
    }
  }

  lemma RotateBy(s: seq<nat>, n: nat)
    requires 0 < n <= |s|
    ensures var r := s[1..] + [s[0]];
            && r[..n - 1] == s[..n][1..] && r[n - 1..] + r[..n - 1] == s[n..] + s[..n]
            && (n > 1 ==> r[n - 2] == s[n - 1])
  {
    var r := s[1..] + [s[0]];
    assert r[n - 1..] == s[n..] + [s[0]];
    assert s[..n] == [s[0]] + s[..n][1..];
  }

  lemma HeadOfPrefix(k: Kernel, m: Kernel, n: nat)
    requires 0 < n <= |k.ready| && k.ready[0] in k.pcbs && SamePriorities(k, m)
    ensures var h := k.ready[0]; var rest := k.ready[..n][1..];
            && TotalTurns(k, k.ready[..n]) == TurnOf(k, h) + TotalTurns(m, rest)
            && Promised(k, k.ready[..n]) == Copies(h, TurnOf(k, h)) + Promised(m, rest)
  {
    SamePromise(k, m, k.ready[..n][1..]);
  }

  /** The state after the head's turn stands for the rest of the rotation. */
  lemma HeadThenRest(k: Kernel, m: Kernel, n: nat, turn: nat)
    requires 0 < n <= |k.ready| && k.ready[0] in k.pcbs && turn == TurnOf(k, k.ready[0])
    requires m == TickN(k, turn) && Trace(k, turn) == Copies(k.ready[0], turn) && SamePriorities(k, m)
    ensures var rest := k.ready[..n][1..];
            && Promised(k, k.ready[..n]) == Trace(k, turn) + Promised(m, rest)
            && TickN(k, TotalTurns(k, k.ready[..n])) == TickN(m, TotalTurns(m, rest))
            && Trace(k, TotalTurns(k, k.ready[..n])) == Trace(k, turn) + Trace(m, TotalTurns(m, rest))
  {
    hide TickN, Trace, Fairness.OwnTurn;
    HeadOfPrefix(k, m, n);
    TraceAppend(k, turn, TotalTurns(m, k.ready[..n][1..]));
  }

  /** The first n processes of the queue take exactly their turns, in order, and end up behind
      the others. */
  ghost predicate TurnsTaken(k: Kernel, n: nat)
    requires n <= |k.ready|
  {
    var m := TickN(k, TotalTurns(k, k.ready[..n]));
    && !m.first && m.quantum == 0 && m.ready == k.ready[n..] + k.ready[..n] && SamePriorities(k, m)
    && (n > 0 ==> m.current == k.ready[n - 1])
    && Trace(k, TotalTurns(k, k.ready[..n])) == Promised(k, k.ready[..n])
  }

  lemma AfterHead(k: Kernel, m: Kernel, n: nat, turn: nat)
    requires 0 < n <= |k.ready| && m.ready == k.ready[1..] + [k.ready[0]] && SamePriorities(k, m)
    requires TurnsTaken(m, n - 1) && m.current == k.ready[0] && !m.first && m.quantum == 0
    requires var rest := k.ready[..n][1..];
             && Promised(k, k.ready[..n]) == Trace(k, turn) + Promised(m, rest)
             && TickN(k, TotalTurns(k, k.ready[..n])) == TickN(m, TotalTurns(m, rest))
             && Trace(k, TotalTurns(k, k.ready[..n])) == Trace(k, turn) + Trace(m, TotalTurns(m, rest))
    ensures TurnsTaken(k, n)
  {
    RotateBy(k.ready, n);
  }

  lemma {:induction false} Turns(k: Kernel, n: nat)
    requires Inv(k) && !k.first && k.quantum == 0 && n <= |k.ready|
    ensures TurnsTaken(k, n)
    decreases n
  {
    if n > 0 {
      var h := k.ready[0];
      ReadyKnown(k);
      assert h in k.ready;
      var turn := TurnOf(k, h);
      var m := TickN(k, turn);
      OneTurn(k);
      TickNOk(k, turn);
      Turns(m, n - 1);
      HeadThenRest(k, m, n, turn);
      AfterHead(k, m, n, turn);
    }
  }

  /** One whole rotation: every ready process holds the processor for exactly its quantum plus
      one ticks, in queue order, and the queue is as it was. */
  lemma FullRotation(k: Kernel)
    requires Inv(k) && !k.first && k.quantum == 0
    ensures var n := TotalTurns(k, k.ready);
            && Trace(k, n) == Promised(k, k.ready)
            && TickN(k, n).ready == k.ready && TickN(k, n).quantum == 0 && SamePriorities(k, TickN(k, n))
  {
    Turns(k, |k.ready|);
    assert k.ready[..|k.ready|] == k.ready;
  }

  /** The state in which the turn of the i-th of the queue comes, if only the timer acts. */
  ghost function WhenItsTurn(k: Kernel, i: nat): Kernel
    requires i <= |k.ready|
  {
    TickN(k, k.quantum + TotalTurns(k, k.ready[..i]))
  }

  /** The i-th of the queue gets to its head: once the running quantum is used up, those ahead of
      it take their turns. */
  lemma ReachesHead(k: Kernel, i: nat)
    requires Inv(k) && !k.first && i < |k.ready|
    ensures var m := WhenItsTurn(k, i);
            && Inv(m) && !m.first && m.quantum == 0 && |m.ready| == |k.ready| && m.ready[0] == k.ready[i]
            && SamePriorities(k, m)
  {
    hide TickN, Trace, Fairness.OwnTurn, Inv;
    QuantumLasts(k, k.quantum);
    TickNOk(k, k.quantum);
    var z := TickN(k, k.quantum);
    Turns(z, i);
    SamePromise(k, z, k.ready[..i]);
    TickNOk(z, TotalTurns(z, z.ready[..i]));
    TraceAppend(k, k.quantum, TotalTurns(k, k.ready[..i]));
  }

  lemma PrioAtOnce(k: Kernel, a: nat, priority: int)
    requires Inv(k) && a in k.pcbs && k.pcbs[a].pid > SHELL_PID
    ensures var m := Next(k, Prio(k.pcbs[a].pid, priority));
            && Inv(m) && m.first == k.first && m.quantum == k.quantum && m.ready == k.ready && a in m.pcbs
            && m.pcbs[a].priority == (if priority < 0 then 0 else if priority > 5 then 5 else priority)
  {
    PrioKeeps(k, k.pcbs[a].pid, priority);
    GetProcessIs(k, a);
  }

  /** changePrio and the scheduler together: whatever the priority was, the next turn that the
      process gets lasts exactly as long as the new one says. */
  lemma NewPriorityNextTurn(k: Kernel, a: nat, i: nat, priority: int, n: nat)
    requires Inv(k) && !k.first && |k.ready| > 1 && i < |k.ready| && k.ready[i] == a
    requires a in k.pcbs && k.pcbs[a].pid > SHELL_PID
    ensures var p := if priority < 0 then 0 else if priority > 5 then 5 else priority;
            var after := Next(k, Prio(k.pcbs[a].pid, priority));
            && after.ready == k.ready
            && var m := WhenItsTurn(after, i);
               m.ready != [] && m.ready[0] == a && (TurnLasts(m, n) <==> n == 19 - 3 * p)
  {
    hide WhenItsTurn, Inv, TurnLasts;
    PrioAtOnce(k, a, priority);
    var after := Next(k, Prio(k.pcbs[a].pid, priority));
    ReachesHead(after, i);
    TurnInTicks(WhenItsTurn(after, i), n);
  }

  // ---------------------------------------------------------------- out of idle

  /** While nobody is ready, ticks alone never get the machine out of idle. */
  lemma {:induction false} IdleStays(k: Kernel, n: nat)
    requires Inv(k) && !k.first && k.current == k.idle && k.ready == []
    ensures TickN(k, n).current == k.idle && TickN(k, n).ready == []
    decreases n
  {
    if n > 0 {
      TickOk(k);
      if k.quantum == 0 {
        DispatchIs(k);
      }
      IdleStays(Tick(k), n - 1);
    }
  }

  lemma TakesOver(k: Kernel, a: nat)
    requires Inv(k) && !k.first && k.quantum == 0 && k.ready == [a] && a in k.pcbs
    ensures var r := TickN(k, 1);
            && Inv(r) && r.current == a && !r.first && r.ready == [a] && a in r.pcbs && r.pcbs[a].pid == k.pcbs[a].pid
  {
    SettledCanDispatch(k);
    DispatchIs(k);
    TickOk(k);
    assert TickN(k, 1) == TickN(Tick(k), 0);
  }

  /** A lone ready process takes over from idle when idle's quantum is used up. */
  lemma LoneProcessRuns(k: Kernel, a: nat)
    requires Inv(k) && !k.first && k.current == k.idle && k.ready == [a] && a in k.pcbs
    ensures var r := TickN(k, k.quantum + 1);
            && Inv(r) && r.current == a && !r.first && r.ready == [a] && a in r.pcbs && r.pcbs[a].pid == k.pcbs[a].pid
  {
    hide TickN, Trace, Inv;
    TickNOk(k, k.quantum);
    QuantumLasts(k, k.quantum);
    TakesOver(TickN(k, k.quantum), a);
    TraceAppend(k, k.quantum, 1);
  }

  lemma PostOverIdle(k: Kernel, id: nat) returns (a: nat)
    requires Inv(k) && SemsOk(k) && !k.first && k.current == k.idle && k.ready == []
    requires id in k.sems && k.sems[id].waiting != []
    ensures var m := Next(k, UpSem(id));
            && Inv(m) && !m.first && m.current == m.idle && m.quantum == k.quantum
            && m.ready == [a] && a in m.pcbs && m.pcbs[a].pid == k.sems[id].waiting[0]
  {
    NextKeeps(k, UpSem(id));
    PostWakesFirst(k, id);
    a :| a in k.bySem && a in k.pcbs && k.pcbs[a].pid == k.sems[id].waiting[0] &&
         SemPost(k, id).ready == k.ready + [a] && SemPost(k, id).pcbs == k.pcbs[a := k.pcbs[a].(state := READY)];
  }

  /** An interrupt handler that posts over an idle machine wakes it: the longest waiter of the
      semaphore runs once idle's quantum is used up. */
  lemma PostWakesIdleMachine(k: Kernel, id: nat)
    requires Inv(k) && SemsOk(k) && !k.first && k.current == k.idle && k.ready == []
    requires id in k.sems && k.sems[id].waiting != []
    ensures Allowed(k, UpSem(id)) && Inv(Next(k, UpSem(id)))
    ensures var r := TickN(Next(k, UpSem(id)), k.quantum + 1);
            && r.current in r.pcbs && r.pcbs[r.current].pid == k.sems[id].waiting[0]
            && r.pcbs[r.current].state == RUNNING && r.ready == [r.current]
  {
    var a := PostOverIdle(k, id);
    LoneProcessRuns(Next(k, UpSem(id)), a);
  }
}

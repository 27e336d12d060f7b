/** A run of the dining philosophers in which seating one more leaves somebody hungry without an
    eating neighbour. */
module PhilosopherCases {
  import opened Options
  import S = Semaphores
  import opened Philosophers
  import opened PhilosopherTheorems

  lemma {:induction false} RunAppend(t: Table, es: seq<Step>, e: Step)
    requires Inv(t)
    ensures Inv(Next(Run(t, es), e)) && Run(t, es + [e]) == Next(Run(t, es), e)
    decreases |es|
  {
    if es == [] {
      NextKeeps(t, e);
      assert es + [e] == [e] && [e][1..] == [];
    } else {
      NextKeeps(t, es[0]);
      assert (es + [e])[0] == es[0] && (es + [e])[1..] == es[1..] + [e];
      RunAppend(Next(t, es[0]), es[1..], e);
    }
  }

  /** A run from the empty table reaches t; one more step. */
  lemma Onwards(es: seq<Step>, t: Table, e: Step, u: Table) returns (more: seq<Step>)
    requires Run(EMPTY, es) == t && Inv(t) && Next(t, e) == u
    ensures Run(EMPTY, more) == u
  {
    more := es + [e];
    RunAppend(EMPTY, es, e);
  }

  /** Nobody is inside the mutex or wants to be. */
  function Quiet(moods: seq<Mood>, pcs: seq<Pc>, forks: seq<S.Sem>): Table {
    Table(moods, pcs, forks, S.Sem(1, []), AddIdle, None)
  }

  function Busy(moods: seq<Mood>, pcs: seq<Pc>, forks: seq<S.Sem>, adder: AdderPc, holder: nat): Table {
    Table(moods, pcs, forks, S.Sem(0, []), adder, Some(holder))
  }

  lemma Seated(es: seq<Step>, moods: seq<Mood>, pcs: seq<Pc>, forks: seq<S.Sem>) returns (more: seq<Step>)
    requires |moods| == |pcs| == |forks| && Run(EMPTY, es) == Quiet(moods, pcs, forks)
    ensures Run(EMPTY, more) == Quiet(moods + [THINKING], pcs + [Starting], forks + [S.Sem(0, [])])
  {
    var m, p, f := moods + [THINKING], pcs + [Starting], forks + [S.Sem(0, [])];
    more := Onwards(es, Quiet(moods, pcs, forks), Add, Busy(moods, pcs, forks, AddBody, 0));
    more := Onwards(more, Busy(moods, pcs, forks, AddBody, 0), Add, Busy(m, p, f, AddUnlock, 0));
    more := Onwards(more, Busy(m, p, f, AddUnlock, 0), Add, Quiet(m, p, f));
  }

  /** Philosopher i, alone, goes through takeForks up to the wait for its own semaphore. */
  lemma Asked(es: seq<Step>, moods: seq<Mood>, pcs: seq<Pc>, forks: seq<S.Sem>, i: nat) returns (more: seq<Step>)
    requires i < |moods| == |pcs| == |forks| && pcs[i] == Starting && forks[i] == S.Sem(0, [])
    requires Run(EMPTY, es) == Quiet(moods, pcs, forks)
    ensures var hungry := moods[i := HUNGRY]; var p := pcs[i := AskFork];
            Run(EMPTY, more) ==
              if CanEat(hungry, i) then Quiet(moods[i := EATING], p, forks[i := S.Sem(1, [])]) else Quiet(hungry, p, forks)
  {
    var e := Move(i);
    var t1 := Quiet(moods[i := THINKING], pcs[i := AskTake], forks);
    var t2 := Busy(moods[i := THINKING], pcs[i := TakeBody], forks, AddIdle, i + 1);
    var hungry := moods[i := HUNGRY];
    var t3 := Busy(hungry, pcs[i := TakeTest], forks, AddIdle, i + 1);
    var t4 := if CanEat(hungry, i) then Busy(moods[i := EATING], pcs[i := TakeUnlock], forks[i := S.Sem(1, [])], AddIdle, i + 1)
              else Busy(hungry, pcs[i := TakeUnlock], forks, AddIdle, i + 1);
    more := Onwards(es, Quiet(moods, pcs, forks), e, t1);
    more := Onwards(more, t1, e, t2);
    more := Onwards(more, t2, e, t3);
    more := Onwards(more, t3, e, t4);
    more := Onwards(more, t4, e, if CanEat(hungry, i) then Quiet(moods[i := EATING], pcs[i := AskFork], forks[i := S.Sem(1, [])])
                                 else Quiet(hungry, pcs[i := AskFork], forks));
  }

  const NONE: S.Sem := S.Sem(0, [])

  lemma ThreeSeated() returns (es: seq<Step>)
    ensures Run(EMPTY, es) == Quiet([THINKING, THINKING, THINKING], [Starting, Starting, Starting], [NONE, NONE, NONE])
  {
    es := [];
    es := Seated(es, [], [], []);
    es := Seated(es, [THINKING], [Starting], [NONE]);
    es := Seated(es, [THINKING, THINKING], [Starting, Starting], [NONE, NONE]);
  }

  /** With three seated, the third eats and the first is hungry beside it. A fourth is about to be
      seated between them. */
  lemma OneHungry() returns (es: seq<Step>)
    ensures Run(EMPTY, es) == Busy([HUNGRY, THINKING, EATING], [AskFork, Starting, AskFork], [NONE, NONE, S.Sem(1, [])], AddBody, 0)
  {
    es := ThreeSeated();
    es := Asked(es, [THINKING, THINKING, THINKING], [Starting, Starting, Starting], [NONE, NONE, NONE], 2);
    es := Asked(es, [THINKING, THINKING, EATING], [Starting, Starting, AskFork], [NONE, NONE, S.Sem(1, [])], 0);
    es := Onwards(es, Quiet([HUNGRY, THINKING, EATING], [AskFork, Starting, AskFork], [NONE, NONE, S.Sem(1, [])]), Add,
                  Busy([HUNGRY, THINKING, EATING], [AskFork, Starting, AskFork], [NONE, NONE, S.Sem(1, [])], AddBody, 0));
  }

  /** Seating the fourth takes the eating neighbour away from the first: from a table where every
      hungry philosopher had one, a run leads to one where somebody has none. */
  lemma SeatingStrandsTheHungry() returns (es: seq<Step>)
    ensures var t := Run(EMPTY, es);
            && t.adder == AddBody && |t.moods| == 3 && Progress(t)
            && var u := Next(t, Add); |u.moods| == 4 && Sized(u) && u.moods[0] == HUNGRY && !HasEatingNeighbour(u.moods, 0) && !Progress(u)
  {
    es := OneHungry();
    var t := Run(EMPTY, es);
    forall j | 0 <= j < 3 ensures Attended(t, j) {
      assert j == 0 ==> HasEatingNeighbour(t.moods, 0);
    }
    SeatingKeepsProgressExactly(t);
  }
}

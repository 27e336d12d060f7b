/** The dining philosophers program: any number of philosophers, and a main process that may
    seat another one at any time, interleaved step by step. The shared moods are only touched
    under the mutex; each philosopher has a semaphore of its own. */
module Philosophers {
  import opened Options
  import opened Semaphores

  datatype Mood = THINKING | HUNGRY | EATING

  /** Where a philosopher stands. takeForks: AskTake .. AskFork; putForks: AskPut .. PutUnlock. */
  datatype Pc =
    | Starting | AskTake | QueuedTake | TakeBody | TakeTest | TakeUnlock | AskFork | QueuedFork
    | AskPut | QueuedPut | PutBody | PutLeft | PutRight | PutUnlock

  datatype AdderPc = AddIdle | AddQueued | AddBody | AddUnlock

  /** Process 0 is the main process that seats philosophers; philosopher i is process i + 1.
      `holder` names the process inside the mutex. */
  datatype Table = Table(moods: seq<Mood>, pcs: seq<Pc>, forks: seq<Sem>, mutex: Sem, adder: AdderPc, holder: Option<nat>)

  function Left(i: nat, n: nat): nat
    requires i < n
  {
    if i == 0 then n - 1 else i - 1
  }

  function Right(i: nat, n: nat): nat
    requires i < n
  {
    if i == n - 1 then 0 else i + 1
  }

  lemma ModWraps(a: nat, n: nat)
    requires 0 < n <= a < 2 * n
    ensures a % n == a - n
  {
    var q, r := a / n, a % n;
    assert a == n * q + r;
    assert q >= 2 ==> n * q >= n * 2;
    assert q <= 0 ==> n * q <= 0;
  }

  /** The neighbours are those of the program's remainder arithmetic on the ring. */
  lemma RingArithmetic(i: nat, n: nat)
    requires i < n
    ensures Left(i, n) == (i + n - 1) % n && Right(i, n) == (i + 1) % n
    ensures Left(Right(i, n), n) == i && Right(Left(i, n), n) == i
  {
    if i > 0 {
      ModWraps(i + n - 1, n);
    }
    if i == n - 1 {
      ModWraps(n, n);
    }
  }

  // ---------------------------------------------------------------- semaphore calls

  function SetPc(t: Table, i: nat, pc: Pc): Table
    requires i < |t.pcs|
  {
    t.(pcs := t.pcs[i := pc])
  }

  /** What being granted the mutex means for process p. */
  function Enter(t: Table, p: nat): Table {
    var h := t.(holder := Some(p));
    if p == 0 then h.(adder := AddBody)
    else if p - 1 < |t.pcs| then
      SetPc(h, p - 1, if t.pcs[p - 1] in {AskTake, QueuedTake} then TakeBody else PutBody)
    else h
  }

  function LockMutex(t: Table, p: nat): Table {
    if Grants(t.mutex) then Enter(t.(mutex := Wait(t.mutex, p)), p)
    else
      var q := t.(mutex := Wait(t.mutex, p));
      if p == 0 then q.(adder := AddQueued)
      else if p - 1 < |t.pcs| then SetPc(q, p - 1, if t.pcs[p - 1] == AskTake then QueuedTake else QueuedPut)
      else q
  }

  function UnlockMutex(t: Table): Table {
    var u := t.(mutex := Post(t.mutex), holder := None);
    if t.mutex.waiting != [] then Enter(u, t.mutex.waiting[0]) else u
  }

  function WaitFork(t: Table, i: nat): Table
    requires i < |t.pcs| && i < |t.forks|
  {
    SetPc(t.(forks := t.forks[i := Wait(t.forks[i], i + 1)]), i, if Grants(t.forks[i]) then AskPut else QueuedFork)
  }

  /** post() on philosopher j's semaphore: j, the only process that ever waits on it, goes on to eat. */
  function PostFork(t: Table, j: nat): Table
    requires j < |t.pcs| && j < |t.forks|
  {
    var u := t.(forks := t.forks[j := Post(t.forks[j])]);
    if t.forks[j].waiting != [] then SetPc(u, j, AskPut) else u
  }

  // ---------------------------------------------------------------- the program

  predicate CanEat(moods: seq<Mood>, j: nat)
    requires j < |moods|
  {
    moods[j] == HUNGRY && moods[Left(j, |moods|)] != EATING && moods[Right(j, |moods|)] != EATING
  }

  /** The moods after `test` looks at philosopher j. */
  function Tested(moods: seq<Mood>, j: nat): seq<Mood>
    requires j < |moods|
  {
    if CanEat(moods, j) then moods[j := EATING] else moods
  }

  function Test(t: Table, j: nat): Table
    requires j < |t.moods| && j < |t.pcs| && j < |t.forks|
  {
    if CanEat(t.moods, j) then PostFork(t.(moods := Tested(t.moods, j)), j) else t
  }

  /** The shared array and what the program does to it between taking and giving back the mutex. */
  class SharedMoods {
    const state: array<Mood>
    var phylosCount: nat

    ghost predicate Valid()
      reads this
    {
      phylosCount <= state.Length
    }

    ghost function Moods(): seq<Mood>
      reads this, state
      requires Valid()
    {
      state[..phylosCount]
    }

    constructor (size: nat)
      ensures Valid() && fresh(state) && state.Length == size && Moods() == []
    {
      state := new Mood[size](_ => THINKING);
      phylosCount := 0;
    }

    /** Let philosopher j eat if it is hungry and neither neighbour eats; says whether its
        semaphore is to be posted. */
    method TestOne(j: nat) returns (posts: bool)
      requires Valid() && j < phylosCount
      modifies state
      ensures Moods() == Tested(old(Moods()), j) && posts == CanEat(old(Moods()), j)
    {
      RingArithmetic(j, phylosCount);
      posts := state[j] == HUNGRY && state[(j + phylosCount - 1) % phylosCount] != EATING
            && state[(j + 1) % phylosCount] != EATING;
      if posts {
        state[j] := EATING;
      }
    }

    /** The inside of takeForks. */
    method TakeSection(i: nat) returns (posts: bool)
      requires Valid() && i < phylosCount
      modifies state
      ensures var hungry := old(Moods())[i := HUNGRY]; Moods() == Tested(hungry, i) && posts == CanEat(hungry, i)
    {
      state[i] := HUNGRY;
      assert Moods() == old(Moods())[i := HUNGRY];
      posts := TestOne(i);
    }

    /** The inside of putForks: the left neighbour is served first. */
    method PutSection(i: nat) returns (postsLeft: bool, postsRight: bool)
      requires Valid() && i < phylosCount
      modifies state
      ensures var n := phylosCount; var m0 := old(Moods())[i := THINKING]; var m1 := Tested(m0, Left(i, n));
              && Moods() == Tested(m1, Right(i, n))
              && postsLeft == CanEat(m0, Left(i, n)) && postsRight == CanEat(m1, Right(i, n))
    {
      RingArithmetic(i, phylosCount);
      state[i] := THINKING;
      assert Moods() == old(Moods())[i := THINKING];
      postsLeft := TestOne((i + phylosCount - 1) % phylosCount);
      postsRight := TestOne((i + 1) % phylosCount);
    }

    /** The inside of addPhilosopher when nothing fails. */
    method SeatSection()
      requires Valid() && phylosCount < state.Length
      modifies this`phylosCount, state
      ensures Valid() && Moods() == old(Moods()) + [THINKING]
    {
      state[phylosCount] := THINKING;
      phylosCount := phylosCount + 1;
    }
  }

  ghost predicate Sized(t: Table) { |t.moods| == |t.pcs| == |t.forks| }

  /** One step of philosopher i; nothing while it waits. */
  function Philosophise(t: Table, i: nat): Table
    requires Sized(t) && i < |t.pcs|
  {
    var n := |t.moods|;
    match t.pcs[i]
    case Starting => SetPc(t.(moods := t.moods[i := THINKING]), i, AskTake)
    case AskTake => LockMutex(t, i + 1)
    case TakeBody => SetPc(t.(moods := t.moods[i := HUNGRY]), i, TakeTest)
    case TakeTest => SetPc(Test(t, i), i, TakeUnlock)
    case TakeUnlock => UnlockMutex(SetPc(t, i, AskFork))
    case AskFork => WaitFork(t, i)
    case AskPut => LockMutex(t, i + 1)
    case PutBody => SetPc(t.(moods := t.moods[i := THINKING]), i, PutLeft)
    case PutLeft => SetPc(Test(t, Left(i, n)), i, PutRight)
    case PutRight => SetPc(Test(t, Right(i, n)), i, PutUnlock)
    case PutUnlock => UnlockMutex(SetPc(t, i, AskTake))
    case _ => t
  }

  /** One step of the main process seating one more philosopher. */
  function Seat(t: Table): Table {
    match t.adder
    case AddIdle => LockMutex(t, 0)
    case AddQueued => t
    case AddBody =>
      t.(moods := t.moods + [THINKING], pcs := t.pcs + [Starting], forks := t.forks + [Sem(0, [])], adder := AddUnlock)
    case AddUnlock => UnlockMutex(t.(adder := AddIdle))
  }

  datatype Step = Move(i: nat) | Add

  function Next(t: Table, e: Step): Table
    requires Sized(t)
  {
    match e
    case Move(i) => if i < |t.pcs| then Philosophise(t, i) else t
    case Add => Seat(t)
  }

  const EMPTY: Table := Table([], [], [], Sem(1, []), AddIdle, None)

  // ---------------------------------------------------------------- the invariant

  predicate InsideMutex(pc: Pc) {
    pc in {TakeBody, TakeTest, TakeUnlock, PutBody, PutLeft, PutRight, PutUnlock}
  }

  predicate QueuedForMutex(pc: Pc) { pc in {QueuedTake, QueuedPut} }

  predicate Inside(t: Table, p: nat) {
    if p == 0 then t.adder in {AddBody, AddUnlock} else p - 1 < |t.pcs| && InsideMutex(t.pcs[p - 1])
  }

  predicate Queued(t: Table, p: nat) {
    if p == 0 then t.adder == AddQueued else p - 1 < |t.pcs| && QueuedForMutex(t.pcs[p - 1])
  }

  ghost predicate NoDup(s: seq<nat>) { forall i, j :: 0 <= i < j < |s| ==> s[i] != s[j] }

  /** At most one process is inside the mutex, it is the holder, and the queue holds exactly the
      processes waiting to enter. */
  ghost predicate MutexOk(t: Table) {
    && t.mutex.value == (if t.holder == None then 1 else 0)
    && (t.holder == None ==> t.mutex.waiting == [])
    && (forall p: nat :: Inside(t, p) <==> t.holder == Some(p))
    && (forall p: nat :: p in t.mutex.waiting <==> Queued(t, p))
    && NoDup(t.mutex.waiting)
  }

  /** Mood, program position and semaphore of a philosopher go together: its semaphore holds a
      token exactly when it was made EATING and has not noticed yet. */
  predicate PhilosopherOk(mood: Mood, pc: Pc, fork: Sem, i: nat) {
    && fork.waiting == (if pc == QueuedFork then [i + 1] else [])
    && fork.value == (if mood == EATING && pc in {TakeUnlock, AskFork} then 1 else 0)
    && match pc
       case TakeTest => mood == HUNGRY
       case TakeUnlock => mood != THINKING
       case AskFork => mood != THINKING
       case QueuedFork => mood == HUNGRY
       case AskPut => mood == EATING
       case QueuedPut => mood == EATING
       case PutBody => mood == EATING
       case _ => mood == THINKING
  }

  ghost predicate PhilosophersOk(t: Table)
    requires Sized(t)
  {
    forall i {:trigger PhilosopherOk(t.moods[i], t.pcs[i], t.forks[i], i)} :: 0 <= i < |t.moods| ==>
      PhilosopherOk(t.moods[i], t.pcs[i], t.forks[i], i)
  }

  /** No two distinct neighbours eat. */
  ghost predicate Safe(moods: seq<Mood>) {
    forall i {:trigger moods[i]} :: 0 <= i < |moods| && moods[i] == EATING ==>
      (Right(i, |moods|) != i ==> moods[Right(i, |moods|)] != EATING)
  }

  ghost predicate Inv(t: Table) {
    Sized(t) && MutexOk(t) && PhilosophersOk(t) && Safe(t.moods)
  }
}

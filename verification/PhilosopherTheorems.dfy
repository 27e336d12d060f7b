/** Safety for any table and any seating, and progress. */
module PhilosopherTheorems {
  import opened Options
  import opened Semaphores
  import opened Philosophers

  // ---------------------------------------------------------------- the mutex

  /** A step of philosopher i that is neither on the queue before nor after, and inside as much as before. */
  lemma MutexSame(t: Table, i: nat, pc: Pc, u: Table)
    requires MutexOk(t) && i < |t.pcs| && u.pcs == t.pcs[i := pc]
    requires u.mutex == t.mutex && u.holder == t.holder && u.adder == t.adder
    requires InsideMutex(pc) == InsideMutex(t.pcs[i]) && !QueuedForMutex(pc) && !QueuedForMutex(t.pcs[i])
    ensures MutexOk(u)
  {
    forall p: nat ensures (Inside(u, p) <==> u.holder == Some(p)) && (p in u.mutex.waiting <==> Queued(u, p)) {
      assert Inside(t, p) <==> t.holder == Some(p);
      assert p in t.mutex.waiting <==> Queued(t, p);
    }
  }

  /** Locking by a process that is neither inside nor queued. */
  lemma LockKeeps(t: Table, p: nat)
    requires MutexOk(t) && !Inside(t, p) && !Queued(t, p)
    requires if p == 0 then t.adder == AddIdle else p - 1 < |t.pcs| && t.pcs[p - 1] in {AskTake, AskPut}
    ensures MutexOk(LockMutex(t, p))
  {
    var u := LockMutex(t, p);
    forall q: nat ensures (Inside(u, q) <==> u.holder == Some(q)) && (q in u.mutex.waiting <==> Queued(u, q)) {
      assert Inside(t, q) <==> t.holder == Some(q);
      assert q in t.mutex.waiting <==> Queued(t, q);
    }
  }

  /** Unlocking by the holder, once it has moved outside. */
  lemma UnlockKeeps(t: Table)
    requires t.mutex.value == 0 && NoDup(t.mutex.waiting)
    requires forall p: nat :: !Inside(t, p)
    requires forall p: nat :: p in t.mutex.waiting <==> Queued(t, p)
    ensures MutexOk(UnlockMutex(t))
  {
    var u := UnlockMutex(t);
    if t.mutex.waiting == [] {
      forall q: nat ensures !Inside(u, q) && !Queued(u, q) {
        assert !Inside(t, q);
        assert q in t.mutex.waiting <==> Queued(t, q);
      }
    } else {
      var w := t.mutex.waiting[0];
      assert w in t.mutex.waiting && w !in t.mutex.waiting[1..];
      forall q: nat ensures (Inside(u, q) <==> u.holder == Some(q)) && (q in u.mutex.waiting <==> Queued(u, q)) {
        assert !Inside(t, q);
        assert q in t.mutex.waiting <==> Queued(t, q);
        assert q in t.mutex.waiting <==> q == w || q in t.mutex.waiting[1..];
      }
    }
  }

  /** The holder moves outside and unlocks. */
  lemma LeaveKeeps(t: Table, i: nat, pc: Pc)
    requires MutexOk(t) && i < |t.pcs| && InsideMutex(t.pcs[i]) && pc in {AskTake, AskFork}
    ensures MutexOk(UnlockMutex(SetPc(t, i, pc)))
  {
    var v := SetPc(t, i, pc);
    assert Inside(t, i + 1);
    forall p: nat ensures !Inside(v, p) && (p in v.mutex.waiting <==> Queued(v, p)) {
      assert Inside(t, p) <==> t.holder == Some(p);
      assert p in t.mutex.waiting <==> Queued(t, p);
    }
    UnlockKeeps(v);
  }

  // ---------------------------------------------------------------- philosophers and moods

  /** Only philosopher i's mood, position and semaphore change. */
  lemma OnlyOne(t: Table, u: Table, i: nat)
    requires Sized(t) && Sized(u) && |t.pcs| == |u.pcs| && PhilosophersOk(t) && i < |t.pcs|
    requires forall j :: 0 <= j < |t.pcs| && j != i ==>
               u.moods[j] == t.moods[j] && u.pcs[j] == t.pcs[j] && u.forks[j] == t.forks[j]
    requires PhilosopherOk(u.moods[i], u.pcs[i], u.forks[i], i)
    ensures PhilosophersOk(u)
  {
    forall j | 0 <= j < |u.pcs| ensures PhilosopherOk(u.moods[j], u.pcs[j], u.forks[j], j) {
      assert PhilosopherOk(t.moods[j], t.pcs[j], t.forks[j], j);
    }
  }

  lemma EnterOk(t: Table, p: nat)
    requires Sized(t) && PhilosophersOk(t)
    requires p > 0 ==> p - 1 < |t.pcs| && t.pcs[p - 1] in {AskTake, QueuedTake, AskPut, QueuedPut}
    ensures Sized(Enter(t, p)) && PhilosophersOk(Enter(t, p)) && Enter(t, p).moods == t.moods
  {
    if p > 0 {
      assert PhilosopherOk(t.moods[p - 1], t.pcs[p - 1], t.forks[p - 1], p - 1);
      OnlyOne(t, Enter(t, p), p - 1);
    } else {
      forall j | 0 <= j < |t.pcs| ensures PhilosopherOk(t.moods[j], Enter(t, p).pcs[j], t.forks[j], j) {
        assert PhilosopherOk(t.moods[j], t.pcs[j], t.forks[j], j);
      }
    }
  }

  lemma LockOk(t: Table, p: nat)
    requires Sized(t) && PhilosophersOk(t)
    requires p > 0 ==> p - 1 < |t.pcs| && t.pcs[p - 1] in {AskTake, AskPut}
    ensures Sized(LockMutex(t, p)) && PhilosophersOk(LockMutex(t, p)) && LockMutex(t, p).moods == t.moods
  {
    if Grants(t.mutex) {
      EnterOk(t.(mutex := Wait(t.mutex, p)), p);
    } else if p > 0 {
      assert PhilosopherOk(t.moods[p - 1], t.pcs[p - 1], t.forks[p - 1], p - 1);
      OnlyOne(t, LockMutex(t, p), p - 1);
    }
  }

  lemma UnlockOk(t: Table)
    requires Sized(t) && PhilosophersOk(t)
    requires forall p: nat :: p in t.mutex.waiting ==> Queued(t, p)
    ensures Sized(UnlockMutex(t)) && PhilosophersOk(UnlockMutex(t)) && UnlockMutex(t).moods == t.moods
  {
    if t.mutex.waiting != [] {
      assert t.mutex.waiting[0] in t.mutex.waiting;
      EnterOk(t.(mutex := Post(t.mutex), holder := None), t.mutex.waiting[0]);
    }
  }

  lemma EatKeepsSafe(moods: seq<Mood>, j: nat)
    requires Safe(moods) && j < |moods| && CanEat(moods, j)
    ensures Safe(moods[j := EATING])
  {
    var m := moods[j := EATING];
    RingArithmetic(j, |moods|);
    forall i | 0 <= i < |m| && m[i] == EATING
      ensures Right(i, |m|) != i ==> m[Right(i, |m|)] != EATING
    {
      RingArithmetic(i, |moods|);
      assert i != j ==> moods[i] == EATING;
    }
  }

  /** test(j) itself, for a philosopher j other than the holder, or the holder at its own test. */
  lemma TestOk(t: Table, i: nat, j: nat)
    requires Inv(t) && i < |t.pcs| && j < |t.pcs| && InsideMutex(t.pcs[i]) && (j == i ==> t.pcs[i] in {TakeTest, PutLeft, PutRight})
    ensures var v := Test(t, j);
            && Sized(v) && |v.pcs| == |t.pcs| && MutexOk(v) && Safe(v.moods) && v.pcs[i] == t.pcs[i]
            && (forall x :: 0 <= x < |t.pcs| && x != j ==> v.moods[x] == t.moods[x] && v.pcs[x] == t.pcs[x] && v.forks[x] == t.forks[x])
            && (j != i ==> PhilosopherOk(v.moods[j], v.pcs[j], v.forks[j], j))
            && (j == i && t.pcs[i] == TakeTest ==> PhilosopherOk(v.moods[i], TakeUnlock, v.forks[i], i))
            && (j == i && t.pcs[i] != TakeTest ==> v == t)
  {
    assert PhilosopherOk(t.moods[i], t.pcs[i], t.forks[i], i) && PhilosopherOk(t.moods[j], t.pcs[j], t.forks[j], j);
    assert Inside(t, i + 1) && (Inside(t, j + 1) <==> t.holder == Some(j + 1));
    if CanEat(t.moods, j) {
      EatKeepsSafe(t.moods, j);
      if t.pcs[j] == QueuedFork {
        MutexSame(t, j, AskPut, Test(t, j));
      } else {
        MutexSame(t, i, t.pcs[i], Test(t, j));
      }
    }
  }

  /** test(j) by the holder i, which then moves on inside the mutex. */
  lemma TestKeeps(t: Table, i: nat, j: nat, pc: Pc)
    requires Inv(t) && i < |t.pcs| && j < |t.pcs|
    requires (t.pcs[i] == TakeTest && pc == TakeUnlock && j == i)
          || (t.pcs[i] == PutLeft && pc == PutRight) || (t.pcs[i] == PutRight && pc == PutUnlock)
    ensures Inv(SetPc(Test(t, j), i, pc))
  {
    var v := Test(t, j);
    var u := SetPc(v, i, pc);
    TestOk(t, i, j);
    assert PhilosopherOk(t.moods[i], t.pcs[i], t.forks[i], i);
    if i == j {
      OnlyOne(t, u, i);
    } else {
      OnlyOne(t, v, j);
      OnlyOne(v, u, i);
    }
    MutexSame(v, i, pc, u);
  }

  lemma PutDownKeepsSafe(moods: seq<Mood>, i: nat, m: Mood)
    requires Safe(moods) && i < |moods| && m != EATING
    ensures Safe(moods[i := m])
  {
    var n := moods[i := m];
    forall j | 0 <= j < |n| && n[j] == EATING ensures Right(j, |n|) != j ==> n[Right(j, |n|)] != EATING {
      assert moods[j] == EATING;
    }
  }

  lemma PhilosophiseKeeps(t: Table, i: nat)
    requires Inv(t) && i < |t.pcs|
    ensures Inv(Philosophise(t, i))
  {
    var u := Philosophise(t, i);
    assert PhilosopherOk(t.moods[i], t.pcs[i], t.forks[i], i);
    match t.pcs[i]
    case Starting => PutDownKeepsSafe(t.moods, i, THINKING); MutexSame(t, i, AskTake, u); OnlyOne(t, u, i);
    case AskTake => AskKeeps(t, i);
    case TakeBody => PutDownKeepsSafe(t.moods, i, HUNGRY); MutexSame(t, i, TakeTest, u); OnlyOne(t, u, i);
    case TakeTest => TestKeeps(t, i, i, TakeUnlock);
    case TakeUnlock => ReleaseKeeps(t, i, AskFork);
    case AskFork => MutexSame(t, i, u.pcs[i], u); OnlyOne(t, u, i);
    case AskPut => AskKeeps(t, i);
    case PutBody => PutDownKeepsSafe(t.moods, i, THINKING); MutexSame(t, i, PutLeft, u); OnlyOne(t, u, i);
    case PutLeft => TestKeeps(t, i, Left(i, |t.moods|), PutRight);
    case PutRight => TestKeeps(t, i, Right(i, |t.moods|), PutUnlock);
    case PutUnlock => ReleaseKeeps(t, i, AskTake);
    case _ =>
  }

  lemma AskKeeps(t: Table, i: nat)
    requires Inv(t) && i < |t.pcs| && t.pcs[i] in {AskTake, AskPut}
    ensures Inv(LockMutex(t, i + 1))
  {
    LockKeeps(t, i + 1);
    LockOk(t, i + 1);
  }

  lemma ReleaseKeeps(t: Table, i: nat, pc: Pc)
    requires Inv(t) && i < |t.pcs|
    requires (t.pcs[i] == TakeUnlock && pc == AskFork) || (t.pcs[i] == PutUnlock && pc == AskTake)
    ensures Inv(UnlockMutex(SetPc(t, i, pc)))
  {
    assert PhilosopherOk(t.moods[i], t.pcs[i], t.forks[i], i);
    LeaveKeeps(t, i, pc);
    OnlyOne(t, SetPc(t, i, pc), i);
    forall p: nat | p in t.mutex.waiting ensures Queued(SetPc(t, i, pc), p) {
      assert Queued(t, p);
    }
    UnlockOk(SetPc(t, i, pc));
  }

  lemma SeatKeeps(t: Table)
    requires Inv(t)
    ensures Inv(Seat(t))
  {
    var u := Seat(t);
    match t.adder
    case AddIdle => LockKeeps(t, 0); LockOk(t, 0);
    case AddQueued =>
    case AddBody =>
      NewSeatSafe(t.moods);
      forall p: nat ensures (Inside(u, p) <==> u.holder == Some(p)) && (p in u.mutex.waiting <==> Queued(u, p)) {
        assert Inside(t, p) <==> t.holder == Some(p);
        assert p in t.mutex.waiting <==> Queued(t, p);
      }
      forall j | 0 <= j < |u.pcs| ensures PhilosopherOk(u.moods[j], u.pcs[j], u.forks[j], j) {
        assert j < |t.pcs| ==> PhilosopherOk(t.moods[j], t.pcs[j], t.forks[j], j);
      }
    case AddUnlock =>
      var v := t.(adder := AddIdle);
      assert Inside(t, 0);
      forall p: nat ensures !Inside(v, p) && (p in v.mutex.waiting <==> Queued(v, p)) {
        assert Inside(t, p) <==> t.holder == Some(p);
        assert p in t.mutex.waiting <==> Queued(t, p);
      }
      UnlockKeeps(v);
      forall j | 0 <= j < |v.pcs| ensures PhilosopherOk(v.moods[j], v.pcs[j], v.forks[j], j) {
        assert PhilosopherOk(t.moods[j], t.pcs[j], t.forks[j], j);
      }
      UnlockOk(v);
  }

  lemma NewSeatSafe(moods: seq<Mood>)
    requires Safe(moods)
    ensures Safe(moods + [THINKING])
  {
    var m := moods + [THINKING];
    forall i | 0 <= i < |m| && m[i] == EATING ensures Right(i, |m|) != i ==> m[Right(i, |m|)] != EATING {
      assert moods[i] == EATING;
    }
  }

  ghost function Run(t: Table, es: seq<Step>): (r: Table)
    requires Inv(t)
    ensures Inv(r)
    decreases |es|
  {
    if es == [] then t
    else
      NextKeeps(t, es[0]);
      Run(Next(t, es[0]), es[1..])
  }

  lemma NextKeeps(t: Table, e: Step)
    requires Inv(t)
    ensures Inv(Next(t, e))
  {
    match e
    case Move(i) => if i < |t.pcs| { PhilosophiseKeeps(t, i); }
    case Add => SeatKeeps(t);
  }

  // ---------------------------------------------------------------- safety

  /** In every run from an empty table, with philosophers seated at any time: no two distinct
      neighbours eat together, and whoever has left takeForks is eating. */
  lemma NeighboursNeverEatTogether(es: seq<Step>, i: nat)
    requires i < |Run(EMPTY, es).moods|
    ensures var t := Run(EMPTY, es); var n := |t.moods|;
            && Sized(t)
            && (t.moods[i] == EATING && Left(i, n) != i ==> t.moods[Left(i, n)] != EATING)
            && (t.moods[i] == EATING && Right(i, n) != i ==> t.moods[Right(i, n)] != EATING)
            && (t.pcs[i] in {AskPut, QueuedPut, PutBody} ==> t.moods[i] == EATING)
  {
    var t := Run(EMPTY, es);
    RingArithmetic(i, |t.moods|);
    assert PhilosopherOk(t.moods[i], t.pcs[i], t.forks[i], i);
    assert t.moods[Left(i, |t.moods|)] == EATING ==> t.moods[i] != EATING || Right(Left(i, |t.moods|), |t.moods|) == Left(i, |t.moods|);
  }

  // ---------------------------------------------------------------- progress on a fixed table

  ghost predicate HasEatingNeighbour(moods: seq<Mood>, j: nat)
    requires j < |moods|
  {
    moods[Left(j, |moods|)] == EATING || moods[Right(j, |moods|)] == EATING
  }

  /** The process inside the mutex is still going to test j. */
  ghost predicate TestPending(t: Table, j: nat)
    requires Sized(t) && j < |t.moods|
  {
    && t.holder.Some? && 0 < t.holder.value <= |t.pcs|
    && var p := t.holder.value - 1;
       var n := |t.moods|;
       match t.pcs[p]
       case TakeTest => j == p
       case PutLeft => j == Left(p, n) || j == Right(p, n)
       case PutRight => j == Right(p, n)
       case _ => false
  }

  ghost predicate Attended(t: Table, j: nat)
    requires Sized(t) && j < |t.moods|
  {
    t.moods[j] == HUNGRY ==> HasEatingNeighbour(t.moods, j) || TestPending(t, j)
  }

  /** Every hungry philosopher waits for a neighbour who eats, or is about to be tested. */
  ghost predicate Progress(t: Table)
    requires Sized(t)
  {
    forall j {:trigger Attended(t, j)} :: 0 <= j < |t.moods| ==> Attended(t, j)
  }

  /** Steps outside the mutex, and entering or leaving it, change no mood and drop no pending test. */
  lemma QuietStep(t: Table, u: Table)
    requires Sized(t) && Sized(u) && Progress(t) && u.moods == t.moods
    requires forall j :: 0 <= j < |t.moods| && TestPending(t, j) ==> TestPending(u, j)
    ensures Progress(u)
  {
    forall j | 0 <= j < |u.moods| ensures Attended(u, j) {
      assert Attended(t, j);
    }
  }

  /** After test(j), everybody who was attended still is, j included. */
  lemma TestAttendsOne(t: Table, i: nat, j: nat, pc: Pc, x: nat)
    requires Sized(t) && i < |t.pcs| && j < |t.pcs| && x < |t.pcs| && t.holder == Some(i + 1) && Attended(t, x)
    requires (t.pcs[i] == TakeTest && pc == TakeUnlock && j == i)
          || (t.pcs[i] == PutLeft && pc == PutRight && j == Left(i, |t.moods|))
          || (t.pcs[i] == PutRight && pc == PutUnlock && j == Right(i, |t.moods|))
    ensures var u := SetPc(Test(t, j), i, pc); Sized(u) && |u.moods| == |t.moods| && Attended(u, x)
  {
    var u := SetPc(Test(t, j), i, pc);
    TestMoods(t, i, j, pc);
    if x == j {
      assert u.moods[x] == HUNGRY ==> !CanEat(t.moods, j);
    } else {
      assert u.moods[x] == t.moods[x];
      if TestPending(t, x) {
        StillPending(t, u, i, j, pc, x);
      }
    }
  }

  lemma TestMoods(t: Table, i: nat, j: nat, pc: Pc)
    requires Sized(t) && i < |t.pcs| && j < |t.pcs|
    ensures var u := SetPc(Test(t, j), i, pc);
            && Sized(u) && |u.moods| == |t.moods| && u.moods == Tested(t.moods, j) && u.holder == t.holder && u.pcs[i] == pc
  {
  }

  /** Testing j leaves the tests still to come. */
  lemma StillPending(t: Table, u: Table, i: nat, j: nat, pc: Pc, x: nat)
    requires Sized(t) && Sized(u) && |u.moods| == |t.moods| && i < |t.pcs| && x < |t.moods| && x != j
    requires t.holder == u.holder == Some(i + 1) && u.pcs[i] == pc && TestPending(t, x)
    requires (t.pcs[i] == TakeTest && pc == TakeUnlock && j == i)
          || (t.pcs[i] == PutLeft && pc == PutRight && j == Left(i, |t.moods|))
          || (t.pcs[i] == PutRight && pc == PutUnlock && j == Right(i, |t.moods|))
    ensures TestPending(u, x)
  {
  }

  lemma TestAttends(t: Table, i: nat, j: nat, pc: Pc)
    requires Sized(t) && Progress(t) && i < |t.pcs| && t.holder == Some(i + 1)
    requires (t.pcs[i] == TakeTest && pc == TakeUnlock && j == i)
          || (t.pcs[i] == PutLeft && pc == PutRight && j == Left(i, |t.moods|))
          || (t.pcs[i] == PutRight && pc == PutUnlock && j == Right(i, |t.moods|))
    ensures Sized(SetPc(Test(t, j), i, pc)) && Progress(SetPc(Test(t, j), i, pc))
  {
    var u := SetPc(Test(t, j), i, pc);
    forall x | 0 <= x < |u.moods| ensures Attended(u, x) {
      assert Attended(t, x);
      TestAttendsOne(t, i, j, pc, x);
    }
  }

  lemma HungryPends(t: Table, i: nat)
    requires Inv(t) && Progress(t) && i < |t.pcs| && t.holder == Some(i + 1)
    requires t.pcs[i] == TakeBody
    ensures Progress(Philosophise(t, i))
  {
    var u := Philosophise(t, i);
    assert PhilosopherOk(t.moods[i], t.pcs[i], t.forks[i], i);
    forall x | 0 <= x < |u.moods| ensures Attended(u, x) {
      assert Attended(t, x);
    }
  }

  lemma PutDownPends(t: Table, i: nat)
    requires Inv(t) && Progress(t) && i < |t.pcs| && t.holder == Some(i + 1)
    requires t.pcs[i] == PutBody
    ensures Progress(Philosophise(t, i))
  {
    var u := Philosophise(t, i);
    forall x | 0 <= x < |u.moods| ensures Attended(u, x) {
      assert Attended(t, x);
      RingArithmetic(x, |t.moods|);
    }
  }

  lemma LeaveQuiet(t: Table, i: nat, pc: Pc)
    requires Inv(t) && Progress(t) && i < |t.pcs| && t.holder == Some(i + 1)
    requires (t.pcs[i] == TakeUnlock && pc == AskFork) || (t.pcs[i] == PutUnlock && pc == AskTake)
    ensures Sized(UnlockMutex(SetPc(t, i, pc))) && Progress(UnlockMutex(SetPc(t, i, pc)))
  {
    ReleaseKeeps(t, i, pc);
    QuietStep(t, UnlockMutex(SetPc(t, i, pc)));
  }

  /** Philosophers at a fixed table keep each other's progress. */
  lemma PhilosophiseProgress(t: Table, i: nat)
    requires Inv(t) && Progress(t) && i < |t.pcs|
    ensures Sized(Philosophise(t, i)) && Progress(Philosophise(t, i))
  {
    PhilosophiseKeeps(t, i);
    var u := Philosophise(t, i);
    assert PhilosopherOk(t.moods[i], t.pcs[i], t.forks[i], i);
    assert Inside(t, i + 1) <==> t.holder == Some(i + 1);
    match t.pcs[i]
    case TakeBody => HungryPends(t, i);
    case TakeTest => TestAttends(t, i, i, TakeUnlock);
    case TakeUnlock => LeaveQuiet(t, i, AskFork);
    case PutBody => PutDownPends(t, i);
    case PutLeft => TestAttends(t, i, Left(i, |t.moods|), PutRight);
    case PutRight => TestAttends(t, i, Right(i, |t.moods|), PutUnlock);
    case PutUnlock => LeaveQuiet(t, i, AskTake);
    case Starting => assert u.moods == t.moods; QuietStep(t, u);
    case AskTake => LockOk(t, i + 1); QuietStep(t, u);
    case AskPut => LockOk(t, i + 1); QuietStep(t, u);
    case _ => QuietStep(t, u);
  }

  /** On a fixed table, in every run: a hungry philosopher always has an eating neighbour once
      the mutex is free, so never are all of them hungry. */
  lemma {:induction false} FixedTableProgress(t: Table, es: seq<Step>)
    requires Inv(t) && Progress(t) && forall e :: e in es ==> e.Move?
    ensures var r := Run(t, es);
            && Progress(r)
            && (r.holder == None ==> forall j :: 0 <= j < |r.moods| && r.moods[j] == HUNGRY ==> HasEatingNeighbour(r.moods, j))
            && (r.holder == None && |r.moods| > 0 ==> exists j :: 0 <= j < |r.moods| && r.moods[j] != HUNGRY)
    decreases |es|
  {
    if es == [] {
      forall j | 0 <= j < |t.moods| && t.holder == None && t.moods[j] == HUNGRY ensures HasEatingNeighbour(t.moods, j) {
        assert Attended(t, j);
      }
      if t.holder == None && |t.moods| > 0 {
        assert Attended(t, 0);
        assert t.moods[0] != HUNGRY || t.moods[Left(0, |t.moods|)] != HUNGRY || t.moods[Right(0, |t.moods|)] != HUNGRY;
      }
    } else {
      NextKeeps(t, es[0]);
      if es[0].i < |t.pcs| {
        PhilosophiseProgress(t, es[0].i);
      }
      FixedTableProgress(Next(t, es[0]), es[1..]);
    }
  }

  /** Seating a philosopher keeps this property exactly when neither end of the ring depends on
      the other: the new neighbour between them does not eat. */
  lemma SeatingKeepsProgressExactly(t: Table)
    requires Inv(t) && Progress(t) && t.adder == AddBody && |t.moods| > 0
    ensures Inv(Seat(t))
    ensures var n := |t.moods|;
            Progress(Seat(t)) <==>
            && (t.moods[n - 1] == HUNGRY ==> n > 1 && t.moods[n - 2] == EATING)
            && (t.moods[0] == HUNGRY ==> n > 1 && t.moods[1] == EATING)
  {
    SeatKeeps(t);
    var u := Seat(t);
    var n := |t.moods|;
    assert Inside(t, 0) && t.holder == Some(0);
    assert u.holder == Some(0);
    if (t.moods[n - 1] == HUNGRY ==> n > 1 && t.moods[n - 2] == EATING) && (t.moods[0] == HUNGRY ==> n > 1 && t.moods[1] == EATING) {
      forall j | 0 <= j < |u.moods| ensures Attended(u, j) {
        assert j < n ==> Attended(t, j);
      }
    } else {
      assert Attended(u, n - 1) && Attended(u, 0) ==> false;
    }
  }

  // ---------------------------------------------------------------- no deadlock, seating included

  predicate Enabled(t: Table, i: nat) {
    i < |t.pcs| && t.pcs[i] !in {QueuedTake, QueuedFork, QueuedPut}
  }

  /** All being hungry lasts no longer than the test of the last one to become hungry. */
  ghost predicate SomeoneFed(t: Table)
    requires Sized(t)
  {
    |t.moods| == 0
    || (exists j :: 0 <= j < |t.moods| && t.moods[j] != HUNGRY)
    || (exists i :: 0 <= i < |t.pcs| && t.pcs[i] == TakeTest)
  }

  lemma FedKept(t: Table, e: Step)
    requires Inv(t) && SomeoneFed(t)
    ensures Inv(Next(t, e)) && SomeoneFed(Next(t, e))
  {
    NextKeeps(t, e);
    var u := Next(t, e);
    match e
    case Move(i) =>
      if i < |t.pcs| {
        FedByPhilosopher(t, i);
      }
    case Add => FedBySeat(t);
  }

  lemma FedBySeat(t: Table)
    requires Inv(t) && SomeoneFed(t)
    ensures Inv(Seat(t)) && SomeoneFed(Seat(t))
  {
    SeatKeeps(t);
    var u := Seat(t);
    if t.adder == AddBody {
      assert u.moods[|t.moods|] == THINKING;
    } else if t.adder == AddIdle {
      LockOk(t, 0);
      FedKeptBy(t, u);
    } else if t.adder == AddUnlock {
      assert u.moods == t.moods by {
        var v := t.(adder := AddIdle);
        forall j | 0 <= j < |v.pcs| ensures PhilosopherOk(v.moods[j], v.pcs[j], v.forks[j], j) {
          assert PhilosopherOk(t.moods[j], t.pcs[j], t.forks[j], j);
        }
        forall p: nat | p in v.mutex.waiting ensures Queued(v, p) {
          assert Queued(t, p);
          assert Inside(t, 0);
        }
        UnlockOk(v);
      }
      forall i | 0 <= i < |t.pcs| ensures t.pcs[i] != TakeTest {
        assert Inside(t, 0) && (Inside(t, i + 1) <==> t.holder == Some(i + 1));
      }
      FedKeptBy(t, u);
    }
  }

  /** With the moods as they were, only the end of a pending test could leave nobody fed. */
  lemma FedKeptBy(t: Table, u: Table)
    requires Inv(t) && Inv(u) && SomeoneFed(t) && u.moods == t.moods
    requires forall i :: 0 <= i < |t.pcs| && t.pcs[i] == TakeTest ==> u.pcs[i] == TakeTest
    ensures SomeoneFed(u)
  {
  }

  lemma FedByPhilosopher(t: Table, i: nat)
    requires Inv(t) && SomeoneFed(t) && i < |t.pcs|
    ensures Inv(Philosophise(t, i)) && SomeoneFed(Philosophise(t, i))
  {
    PhilosophiseKeeps(t, i);
    var u := Philosophise(t, i);
    var n := |t.moods|;
    assert PhilosopherOk(t.moods[i], t.pcs[i], t.forks[i], i);
    match t.pcs[i]
    case Starting => assert u.moods[i] == THINKING;
    case AskTake => assert u.moods[i] == THINKING by { LockOk(t, i + 1); }
    case TakeBody => assert u.pcs[i] == TakeTest;
    case TakeTest =>
      if CanEat(t.moods, i) {
        assert u.moods[i] == EATING;
      } else {
        assert u.moods == t.moods;
        assert u.moods[Left(i, n)] != HUNGRY || u.moods[Right(i, n)] != HUNGRY;
      }
    case TakeUnlock =>
      LeaveOk(t, i, AskFork);
      FedOutside(t, u, i);
    case AskFork => FedOutside(t, u, i);
    case AskPut => LockOk(t, i + 1); assert u.moods[i] == EATING;
    case PutBody => assert u.moods[i] == THINKING;
    case PutLeft => assert u.moods[i] == THINKING;
    case PutRight => assert u.moods[i] == THINKING;
    case PutUnlock =>
      LeaveOk(t, i, AskTake);
      assert u.moods[i] == THINKING;
    case _ =>
  }

  lemma LeaveOk(t: Table, i: nat, pc: Pc)
    requires Inv(t) && i < |t.pcs|
    requires (t.pcs[i] == TakeUnlock && pc == AskFork) || (t.pcs[i] == PutUnlock && pc == AskTake)
    ensures UnlockMutex(SetPc(t, i, pc)).moods == t.moods
  {
    assert PhilosopherOk(t.moods[i], t.pcs[i], t.forks[i], i);
    OnlyOne(t, SetPc(t, i, pc), i);
    forall p: nat | p in t.mutex.waiting ensures Queued(SetPc(t, i, pc), p) {
      assert Queued(t, p);
    }
    UnlockOk(SetPc(t, i, pc));
  }

  lemma FedOutside(t: Table, u: Table, i: nat)
    requires Inv(t) && Inv(u) && SomeoneFed(t) && i < |t.pcs| && |u.pcs| == |t.pcs| && u.moods == t.moods
    requires t.pcs[i] != TakeTest
    requires t.pcs[i] == TakeUnlock || u.pcs == t.pcs[i := u.pcs[i]]
    ensures SomeoneFed(u)
  {
    if !(exists j :: 0 <= j < |t.moods| && t.moods[j] != HUNGRY) && |t.moods| > 0 {
      var x :| 0 <= x < |t.pcs| && t.pcs[x] == TakeTest;
      assert Inside(t, x + 1);
      if t.pcs[i] == TakeUnlock {
        assert Inside(t, i + 1);
      }
    }
  }

  predicate SomeoneEnabled(t: Table) { exists i :: 0 <= i < |t.pcs| && Enabled(t, i) }

  /** In every run from an empty table, with philosophers seated at any time, some philosopher can
      take a step; the one exception is while the main process is inside the mutex, and then some
      philosopher can after its next step. */
  lemma {:induction false} NeverDeadlocked(t: Table, es: seq<Step>)
    requires Inv(t) && SomeoneFed(t)
    ensures SomeoneFed(Run(t, es))
    ensures var r := Run(t, es);
            |r.pcs| > 0 ==> SomeoneEnabled(r) || (r.adder in {AddBody, AddUnlock} && SomeoneEnabled(Next(r, Add)))
    decreases |es|
  {
    if es == [] {
      if |t.pcs| > 0 {
        SomeoneCanMove(t);
        if t.adder in {AddBody, AddUnlock} {
          AfterSeating(t);
        }
      }
    } else {
      NextKeeps(t, es[0]);
      FedKept(t, es[0]);
      NeverDeadlocked(Next(t, es[0]), es[1..]);
    }
  }

  lemma SomeoneCanMove(t: Table)
    requires Inv(t) && SomeoneFed(t) && |t.pcs| > 0
    ensures SomeoneEnabled(t) || t.adder in {AddBody, AddUnlock}
  {
    if t.holder != None {
      var p := t.holder.value;
      assert Inside(t, p);
      if p > 0 {
        assert Enabled(t, p - 1);
      }
    } else if exists j :: 0 <= j < |t.moods| && t.moods[j] != HUNGRY {
      var j :| 0 <= j < |t.moods| && t.moods[j] != HUNGRY;
      assert PhilosopherOk(t.moods[j], t.pcs[j], t.forks[j], j);
      assert j + 1 in t.mutex.waiting <==> Queued(t, j + 1);
      assert Enabled(t, j);
    } else {
      var i :| 0 <= i < |t.pcs| && t.pcs[i] == TakeTest;
      assert Enabled(t, i);
    }
  }

  /** The one just seated can start; and once the mutex is given back, somebody else holds it or
      nobody does. */
  lemma AfterSeating(t: Table)
    requires Inv(t) && SomeoneFed(t) && |t.pcs| > 0 && t.adder in {AddBody, AddUnlock}
    ensures Inv(Seat(t)) && SomeoneEnabled(Seat(t))
  {
    FedBySeat(t);
    var u := Seat(t);
    if t.adder == AddBody {
      assert Enabled(u, |t.pcs|);
    } else {
      assert Inside(t, 0) && !Queued(t, 0);
      SomeoneCanMove(u);
    }
  }
}

/** Every step of every run keeps the pipe's invariant, and what that means for its users. */
module PipeTheorems {
  import opened Options
  import opened Semaphores
  import opened PipeSystem

  // ---------------------------------------------------------------- counts and queues under one update

  lemma CountsUpdate(calls: seq<Call>, t: nat, c: Call)
    requires t < |calls|
    ensures Count(calls[t := c], InFlight) == Count(calls, InFlight) - (if InFlight(calls[t]) then 1 else 0) + (if InFlight(c) then 1 else 0)
    ensures Count(calls[t := c], Holding) == Count(calls, Holding) - (if Holding(calls[t]) then 1 else 0) + (if Holding(c) then 1 else 0)
    ensures Count(calls[t := c], StoredNotPosted) == Count(calls, StoredNotPosted) - (if StoredNotPosted(calls[t]) then 1 else 0) + (if StoredNotPosted(c) then 1 else 0)
    ensures Count(calls[t := c], AdmittedNotRead) == Count(calls, AdmittedNotRead) - (if AdmittedNotRead(calls[t]) then 1 else 0) + (if AdmittedNotRead(c) then 1 else 0)
  {
    CountUpdate(calls, t, c, InFlight);
    CountUpdate(calls, t, c, Holding);
    CountUpdate(calls, t, c, StoredNotPosted);
    CountUpdate(calls, t, c, AdmittedNotRead);
  }

  lemma QueueSame(sem: Sem, calls: seq<Call>, t: nat, c: Call, queued: Call -> bool, v: nat)
    requires QueueOk(sem, calls, queued) && t < |calls| && !queued(calls[t]) && !queued(c)
    requires v <= sem.value
    ensures QueueOk(sem.(value := v), calls[t := c], queued)
  {
  }

  lemma QueueJoin(sem: Sem, calls: seq<Call>, t: nat, c: Call, queued: Call -> bool)
    requires QueueOk(sem, calls, queued) && t < |calls| && !queued(calls[t]) && queued(c) && sem.value == 0
    ensures QueueOk(sem.(waiting := sem.waiting + [t]), calls[t := c], queued)
  {
    var w := sem.waiting + [t];
    forall u ensures u in w <==> 0 <= u < |calls| && queued(calls[t := c][u]) {
      assert u in w <==> u in sem.waiting || u == t;
    }
  }

  lemma QueueWake(sem: Sem, calls: seq<Call>, c: Call, queued: Call -> bool)
    requires QueueOk(sem, calls, queued) && sem.waiting != [] && !queued(c)
    ensures sem.waiting[0] < |calls| && queued(calls[sem.waiting[0]])
    ensures QueueOk(sem.(waiting := sem.waiting[1..]), calls[sem.waiting[0] := c], queued)
  {
    var w := sem.waiting[0];
    assert w in sem.waiting && w !in sem.waiting[1..];
    forall u ensures u in sem.waiting[1..] <==> 0 <= u < |calls| && queued(calls[w := c][u]) {
      assert u in sem.waiting <==> u == w || u in sem.waiting[1..];
    }
  }

  /** post() on a semaphore, with the woken call moving from queued to pc. */
  lemma QueuePost(sem: Sem, calls: seq<Call>, pc: Pc, queued: Call -> bool)
    requires QueueOk(sem, calls, queued) && sem.value + 1 < WRAP
    requires forall c: Call :: !queued(c.(pc := pc))
    ensures QueueOk(Post(sem), Wake(calls, sem, pc), queued)
    ensures sem.waiting != [] ==> sem.waiting[0] < |calls| && queued(calls[sem.waiting[0]])
                                  && Post(sem).value == sem.value == 0
    ensures sem.waiting == [] ==> Wake(calls, sem, pc) == calls && Post(sem) == sem.(value := sem.value + 1)
  {
    if sem.waiting != [] {
      assert sem.waiting[0] in sem.waiting;
      QueueWake(sem, calls, calls[sem.waiting[0]].(pc := pc), queued);
    }
  }

  // ---------------------------------------------------------------- calls that only change their pc

  /** Promises survive when one call changes its pc between two pcs on the same side of the
      critical section. */
  lemma PcOnly(s: System, t: nat, pc: Pc)
    requires CallsOk(s.stored, s.gone, s.clears, s.calls) && t < |s.calls|
    requires s.calls[t].role != Clearer ==> Passed(s.calls[t].(pc := pc)) == Passed(s.calls[t])
    requires s.calls[t].role != Clearer ==> (pc == Returned) == (s.calls[t].pc == Returned)
    requires s.calls[t].role == Clearer ==> pc !in {AskToken, QueuedToken, GiveToken}
    ensures CallsOk(s.stored, s.gone, s.clears, SetPc(s.calls, t, pc))
  {
    assert CallOk(s.stored, s.gone, s.clears, t, s.calls[t]);
    forall u | 0 <= u < |s.calls|
      ensures CallOk(s.stored, s.gone, s.clears, u, SetPc(s.calls, t, pc)[u])
    {
      assert CallOk(s.stored, s.gone, s.clears, u, s.calls[u]);
    }
  }

  // ---------------------------------------------------------------- one lemma per step

  lemma AskTokenQueues(s: System, t: nat)
    requires QueuesOk(s) && t < |s.calls| && s.calls[t].pc == AskToken && s.calls[t].role != Clearer
    ensures QueuesOk(AskTokenStep(s, t))
  {
    var c' := AskTokenStep(s, t).calls[t];
    if s.calls[t].role == Reader {
      if Grants(s.semReaders) {
        QueueSame(s.semReaders, s.calls, t, c', ReaderQueued, s.semReaders.value - 1);
      } else {
        QueueJoin(s.semReaders, s.calls, t, c', ReaderQueued);
      }
      QueueSame(s.semWriters, s.calls, t, c', WriterQueued, s.semWriters.value);
    } else {
      if Grants(s.semWriters) {
        QueueSame(s.semWriters, s.calls, t, c', WriterQueued, s.semWriters.value - 1);
      } else {
        QueueJoin(s.semWriters, s.calls, t, c', WriterQueued);
      }
      QueueSame(s.semReaders, s.calls, t, c', ReaderQueued, s.semReaders.value);
    }
    QueueSame(s.mutex, s.calls, t, c', MutexQueued, s.mutex.value);
  }

  lemma AskTokenKeeps(s: System, t: nat)
    requires Inv(s) && t < |s.calls| && s.calls[t].pc == AskToken
    ensures Inv(AskTokenStep(s, t))
  {
    assert CallOk(s.stored, s.gone, s.clears, t, s.calls[t]);
    var s' := AskTokenStep(s, t);
    CountsUpdate(s.calls, t, s'.calls[t]);
    AskTokenQueues(s, t);
    PcOnly(s, t, s'.calls[t].pc);
  }

  lemma AskMutexQueues(s: System, t: nat)
    requires QueuesOk(s) && t < |s.calls| && s.calls[t].pc == AskMutex
    ensures QueuesOk(AskMutexStep(s, t))
  {
    var c' := AskMutexStep(s, t).calls[t];
    if Grants(s.mutex) {
      QueueSame(s.mutex, s.calls, t, c', MutexQueued, s.mutex.value - 1);
    } else {
      QueueJoin(s.mutex, s.calls, t, c', MutexQueued);
    }
    QueueSame(s.semReaders, s.calls, t, c', ReaderQueued, s.semReaders.value);
    QueueSame(s.semWriters, s.calls, t, c', WriterQueued, s.semWriters.value);
  }

  lemma AskMutexKeeps(s: System, t: nat)
    requires Inv(s) && t < |s.calls| && s.calls[t].pc == AskMutex
    ensures Inv(AskMutexStep(s, t))
  {
    var s' := AskMutexStep(s, t);
    CountsUpdate(s.calls, t, s'.calls[t]);
    AskMutexQueues(s, t);
    PcOnly(s, t, s'.calls[t].pc);
  }

  /** Inside the mutex a writer always finds room, and without clears a reader always finds a byte. */
  lemma InsideFindsRoom(s: System, t: nat)
    requires Inv(s) && t < |s.calls| && s.calls[t].pc == Inside
    ensures s.calls[t].role == Writer ==> s.ring.count < PIPE_BUFFER_SIZE
    ensures s.calls[t].role == Reader && s.clears == 0 ==> s.ring.count > 0
  {
    if s.calls[t].role == Reader {
      CountMember(s.calls, t, AdmittedNotRead);
    } else if s.calls[t].role == Writer {
      ShareOfTokens(s.calls);
      InFlightOnly(s.calls, t);
    }
  }

  predicate NotCounted(c: Call) { InFlight(c) && !StoredNotPosted(c) && !AdmittedNotRead(c) }

  lemma {:induction false} ShareOfTokens(calls: seq<Call>)
    ensures Count(calls, InFlight) == Count(calls, StoredNotPosted) + Count(calls, AdmittedNotRead) + Count(calls, NotCounted)
  {
    if calls != [] {
      ShareOfTokens(calls[..|calls| - 1]);
    }
  }

  lemma InFlightOnly(calls: seq<Call>, t: nat)
    requires t < |calls| && calls[t].pc == Inside && calls[t].role == Writer
    ensures Count(calls, NotCounted) >= 1
  {
    CountMember(calls, t, NotCounted);
  }

  /** An update of a call that is on no queue before or after. */
  lemma QueuesSame(s: System, t: nat, c: Call)
    requires QueuesOk(s) && t < |s.calls| && s.calls[t].pc !in {QueuedToken, QueuedMutex}
    requires c.pc !in {QueuedToken, QueuedMutex}
    ensures QueuesOk(s.(calls := s.calls[t := c]))
  {
    QueueSame(s.semReaders, s.calls, t, c, ReaderQueued, s.semReaders.value);
    QueueSame(s.semWriters, s.calls, t, c, WriterQueued, s.semWriters.value);
    QueueSame(s.mutex, s.calls, t, c, MutexQueued, s.mutex.value);
  }

  lemma StoredByAppend(stored: seq<(nat, char)>, t: nat, x: (nat, char))
    ensures StoredBy(stored + [x], t) == StoredBy(stored, t) + (if x.0 == t then [x.1] else [])
  {
    assert (stored + [x])[..|stored|] == stored;
  }

  lemma {:induction false} TakenByGrow(stored: seq<(nat, char)>, more: seq<(nat, char)>, gone: seq<Option<nat>>, t: nat)
    requires |gone| <= |stored| && stored <= more
    ensures TakenBy(more, gone, t) == TakenBy(stored, gone, t)
    decreases |gone|
  {
    if gone != [] {
      TakenByGrow(stored, more, gone[..|gone| - 1], t);
    }
  }

  lemma TakenByAppend(stored: seq<(nat, char)>, gone: seq<Option<nat>>, t: nat, g: Option<nat>)
    requires |gone| < |stored|
    ensures TakenBy(stored, gone + [g], t) == TakenBy(stored, gone, t) + (if g == Some(t) then [stored[|gone|].1] else [])
  {
    assert (gone + [g])[..|gone|] == gone;
  }

  lemma {:induction false} TakenByDiscard(stored: seq<(nat, char)>, gone: seq<Option<nat>>, t: nat, n: nat)
    requires |gone| + n <= |stored|
    ensures TakenBy(stored, gone + seq(n, _ => None), t) == TakenBy(stored, gone, t)
    decreases n
  {
    if n > 0 {
      TakenByDiscard(stored, gone, t, n - 1);
      var g: seq<Option<nat>> := gone + seq(n - 1, _ => None);
      assert gone + seq(n, _ => None) == g + [None];
      TakenByAppend(stored, g, t, None);
    } else {
      assert gone + seq(0, _ => None) == gone;
    }
  }

  // the critical section of a writer

  lemma HistoryPut(ring: Ring, stored: seq<(nat, char)>, gone: seq<Option<nat>>, clears: nat, n: nat, t: nat, b: char)
    requires HistoryOk(ring, stored, gone, clears, n) && ring.count < PIPE_BUFFER_SIZE && t < n
    ensures HistoryOk(PutByte(ring, b), stored + [(t, b)], gone, clears, n)
  {
    PutHolds(ring, b);
    forall q | 0 <= q < ring.count + 1 ensures Held(PutByte(ring, b))[q] == (stored + [(t, b)])[|gone| + q].1 {
      assert Held(PutByte(ring, b)) == Held(ring) + [b];
    }
  }

  lemma PutKeepsHistory(s: System, t: nat)
    requires Inv(s) && t < |s.calls| && s.calls[t].pc == Inside && s.calls[t].role == Writer
    requires |s.calls[t].bytes| == s.calls[t].size && s.calls[t].i < s.calls[t].size
    requires s.ring.count < PIPE_BUFFER_SIZE
    ensures var s' := InsideStep(s, t); HistoryOk(s'.ring, s'.stored, s'.gone, s'.clears, |s'.calls|)
  {
    HistoryPut(s.ring, s.stored, s.gone, s.clears, |s.calls|, t, s.calls[t].bytes[s.calls[t].i]);
  }

  lemma PutKeepsCall(s: System, t: nat, u: nat)
    requires Inv(s) && t < |s.calls| && s.calls[t].pc == Inside && s.calls[t].role == Writer && u < |s.calls|
    requires |s.calls[t].bytes| == s.calls[t].size && s.calls[t].i < s.calls[t].size
    requires s.ring.count < PIPE_BUFFER_SIZE
    ensures var s' := InsideStep(s, t); |s'.gone| <= |s'.stored| && CallOk(s'.stored, s'.gone, s'.clears, u, s'.calls[u])
  {
    assert CallOk(s.stored, s.gone, s.clears, u, s.calls[u]) && CallOk(s.stored, s.gone, s.clears, t, s.calls[t]);
    var x := (t, s.calls[t].bytes[s.calls[t].i]);
    StoredByAppend(s.stored, u, x);
    TakenByGrow(s.stored, s.stored + [x], s.gone, u);
    if u == t {
      var c := s.calls[t];
      assert c.bytes[..c.moved + 1] == c.bytes[..c.moved] + [c.bytes[c.moved]];
    }
  }

  lemma PutKeeps(s: System, t: nat)
    requires Inv(s) && t < |s.calls| && s.calls[t].pc == Inside && s.calls[t].role == Writer
    requires |s.calls[t].bytes| == s.calls[t].size && s.calls[t].i < s.calls[t].size
    ensures Inv(InsideStep(s, t))
  {
    InsideFindsRoom(s, t);
    var s' := InsideStep(s, t);
    CountsUpdate(s.calls, t, s'.calls[t]);
    QueuesSame(s, t, s'.calls[t]);
    PutKeepsHistory(s, t);
    forall u | 0 <= u < |s'.calls| ensures CallOk(s'.stored, s'.gone, s'.clears, u, s'.calls[u]) {
      PutKeepsCall(s, t, u);
    }
  }

  // the critical section of a reader

  lemma HeldShifts(r: Ring, stored: seq<(nat, char)>, g: nat)
    requires RingOk(r) && r.count > 0 && |stored| == g + r.count
    requires forall q :: 0 <= q < r.count ==> Held(r)[q] == stored[g + q].1
    ensures RingOk(DropByte(r)) && r.buffer[r.readIdx] == stored[g].1
    ensures forall q :: 0 <= q < r.count - 1 ==> Held(DropByte(r))[q] == stored[g + 1 + q].1
  {
    DropHolds(r);
    assert Held(r)[0] == stored[g + 0].1;
    forall q | 0 <= q < r.count - 1 ensures Held(DropByte(r))[q] == stored[g + 1 + q].1 {
      assert Held(r)[q + 1] == stored[g + (q + 1)].1;
    }
  }

  lemma TakeKeepsHistory(s: System, t: nat)
    requires Inv(s) && t < |s.calls| && s.calls[t].pc == Inside && s.calls[t].role == Reader
    requires |s.calls[t].bytes| == s.calls[t].size && s.calls[t].i < s.calls[t].size && s.ring.count > 0
    ensures var s' := InsideStep(s, t); HistoryOk(s'.ring, s'.stored, s'.gone, s'.clears, |s'.calls|)
    ensures s.ring.buffer[s.ring.readIdx] == s.stored[|s.gone|].1
  {
    HeldShifts(s.ring, s.stored, |s.gone|);
  }

  lemma TakeKeepsCall(s: System, t: nat, u: nat)
    requires Inv(s) && t < |s.calls| && s.calls[t].pc == Inside && s.calls[t].role == Reader && u < |s.calls|
    requires |s.calls[t].bytes| == s.calls[t].size && s.calls[t].i < s.calls[t].size && s.ring.count > 0
    ensures var s' := InsideStep(s, t); |s'.gone| <= |s'.stored| && CallOk(s'.stored, s'.gone, s'.clears, u, s'.calls[u])
  {
    assert CallOk(s.stored, s.gone, s.clears, u, s.calls[u]) && CallOk(s.stored, s.gone, s.clears, t, s.calls[t]);
    TakeKeepsHistory(s, t);
    TakenByAppend(s.stored, s.gone, u, Some(t));
    if u == t {
      var c' := InsideStep(s, t).calls[t];
      assert s.clears == 0 ==> c'.bytes[..c'.moved] == s.calls[t].bytes[..c'.moved - 1] + [s.stored[|s.gone|].1];
    }
  }

  lemma EmptyTakeKeepsCall(s: System, t: nat, u: nat)
    requires Inv(s) && t < |s.calls| && s.calls[t].pc == Inside && s.calls[t].role == Reader && u < |s.calls|
    requires |s.calls[t].bytes| == s.calls[t].size && s.calls[t].i < s.calls[t].size && s.ring.count == 0
    requires s.clears > 0
    ensures var s' := InsideStep(s, t); |s'.gone| <= |s'.stored| && CallOk(s'.stored, s'.gone, s'.clears, u, s'.calls[u])
  {
    assert CallOk(s.stored, s.gone, s.clears, u, s.calls[u]);
  }

  lemma TakeKeeps(s: System, t: nat)
    requires Inv(s) && t < |s.calls| && s.calls[t].pc == Inside && s.calls[t].role == Reader
    requires |s.calls[t].bytes| == s.calls[t].size && s.calls[t].i < s.calls[t].size
    ensures Inv(InsideStep(s, t))
  {
    InsideFindsRoom(s, t);
    var s' := InsideStep(s, t);
    CountsUpdate(s.calls, t, s'.calls[t]);
    QueuesSame(s, t, s'.calls[t]);
    if s.ring.count > 0 {
      TakeKeepsHistory(s, t);
    }
    forall u | 0 <= u < |s'.calls| ensures CallOk(s'.stored, s'.gone, s'.clears, u, s'.calls[u]) {
      if s.ring.count > 0 {
        TakeKeepsCall(s, t, u);
      } else {
        EmptyTakeKeepsCall(s, t, u);
      }
    }
  }

  // the critical section of clearPipe

  lemma ClearKeepsCall(s: System, t: nat, u: nat)
    requires Inv(s) && t < |s.calls| && s.calls[t].pc == Inside && s.calls[t].role == Clearer && u < |s.calls|
    requires |s.calls[t].bytes| == s.calls[t].size
    ensures |InsideStep(s, t).gone| <= |InsideStep(s, t).stored|
    ensures var s' := InsideStep(s, t); |s'.gone| <= |s'.stored| && CallOk(s'.stored, s'.gone, s'.clears, u, s'.calls[u])
  {
    assert CallOk(s.stored, s.gone, s.clears, u, s.calls[u]);
    TakenByDiscard(s.stored, s.gone, u, s.ring.count);
  }

  lemma ClearKeepsCalls(s: System, t: nat)
    requires Inv(s) && t < |s.calls| && s.calls[t].pc == Inside && s.calls[t].role == Clearer
    requires |s.calls[t].bytes| == s.calls[t].size
    ensures var s' := InsideStep(s, t); CallsOk(s'.stored, s'.gone, s'.clears, s'.calls)
  {
    var s' := InsideStep(s, t);
    ClearKeepsCall(s, t, t);
    forall u | 0 <= u < |s'.calls| ensures CallOk(s'.stored, s'.gone, s'.clears, u, s'.calls[u]) {
      ClearKeepsCall(s, t, u);
    }
  }

  lemma ClearHistory(ring: Ring, stored: seq<(nat, char)>, gone: seq<Option<nat>>, clears: nat, n: nat)
    requires HistoryOk(ring, stored, gone, clears, n)
    ensures HistoryOk(Cleared(ring), stored, gone + seq(ring.count, _ => None), clears + 1, n)
  {
  }

  lemma ClearKeeps(s: System, t: nat)
    requires Inv(s) && t < |s.calls| && s.calls[t].pc == Inside && s.calls[t].role == Clearer
    requires |s.calls[t].bytes| == s.calls[t].size
    ensures Inv(InsideStep(s, t))
  {
    var s' := InsideStep(s, t);
    CountsUpdate(s.calls, t, s'.calls[t]);
    QueuesSame(s, t, s'.calls[t]);
    ClearHistory(s.ring, s.stored, s.gone, s.clears, |s.calls|);
    ClearKeepsCalls(s, t);
  }

  // unlocking and giving a token

  lemma UnlockSelf(s: System, t: nat, pc: Pc)
    requires Inv(s) && t < |s.calls| && s.calls[t].pc == Unlock
    requires pc == if s.calls[t].role == Clearer then Returned else GiveToken
    ensures var s1 := s.(calls := SetPc(s.calls, t, pc));
            && QueuesOk(s1) && CallsOk(s.stored, s.gone, s.clears, s1.calls)
            && s.mutex.value == 0 && Count(s1.calls, Holding) == 0
            && Count(s1.calls, InFlight) == Count(s.calls, InFlight)
            && Count(s1.calls, StoredNotPosted) == Count(s.calls, StoredNotPosted)
            && Count(s1.calls, AdmittedNotRead) == Count(s.calls, AdmittedNotRead)
  {
    CountMember(s.calls, t, Holding);
    CountsUpdate(s.calls, t, s.calls[t].(pc := pc));
    QueuesSame(s, t, s.calls[t].(pc := pc));
    PcOnly(s, t, pc);
  }

  /** post() on the mutex, after the holder has moved on. */
  function Unlocked(s: System): System {
    s.(mutex := Post(s.mutex), calls := Wake(s.calls, s.mutex, Inside))
  }

  lemma UnlockedQueues(s: System)
    requires QueuesOk(s) && s.mutex.value == 0
    ensures QueuesOk(Unlocked(s))
  {
    QueuePost(s.mutex, s.calls, Inside, MutexQueued);
    if s.mutex.waiting != [] {
      var w := s.mutex.waiting[0];
      QueueSame(s.semReaders, s.calls, w, s.calls[w].(pc := Inside), ReaderQueued, s.semReaders.value);
      QueueSame(s.semWriters, s.calls, w, s.calls[w].(pc := Inside), WriterQueued, s.semWriters.value);
    }
  }

  lemma UnlockedRest(s: System)
    requires QueueOk(s.mutex, s.calls, MutexQueued) && CallsOk(s.stored, s.gone, s.clears, s.calls)
    requires s.mutex.value == 0 && Count(s.calls, Holding) == 0
    ensures var s' := Unlocked(s);
            && |s'.calls| == |s.calls| && CallsOk(s.stored, s.gone, s.clears, s'.calls)
            && s'.mutex.value + Count(s'.calls, Holding) == 1
            && Count(s'.calls, InFlight) == Count(s.calls, InFlight)
            && Count(s'.calls, StoredNotPosted) == Count(s.calls, StoredNotPosted)
            && Count(s'.calls, AdmittedNotRead) == Count(s.calls, AdmittedNotRead)
  {
    QueuePost(s.mutex, s.calls, Inside, MutexQueued);
    if s.mutex.waiting != [] {
      var w := s.mutex.waiting[0];
      CountsUpdate(s.calls, w, s.calls[w].(pc := Inside));
      PcOnly(s, w, Inside);
    }
  }

  lemma UnlockKeeps(s: System, t: nat)
    requires Inv(s) && t < |s.calls| && s.calls[t].pc == Unlock
    ensures Inv(UnlockStep(s, t))
  {
    var pc := if s.calls[t].role == Clearer then Returned else GiveToken;
    var s1 := s.(calls := SetPc(s.calls, t, pc));
    UnlockSelf(s, t, pc);
    UnlockedQueues(s1);
    UnlockedRest(s1);
    assert UnlockStep(s, t) == Unlocked(s1);
  }

  function AfterGiving(c: Call): Call {
    c.(i := c.i + 1, pc := if c.i + 1 < c.size then AskToken else Returned)
  }

  lemma GiveSelf(s: System, t: nat)
    requires CallsOk(s.stored, s.gone, s.clears, s.calls) && t < |s.calls| && s.calls[t].pc == GiveToken
    ensures CallsOk(s.stored, s.gone, s.clears, s.calls[t := AfterGiving(s.calls[t])])
    ensures s.calls[t].role != Clearer
  {
    assert CallOk(s.stored, s.gone, s.clears, t, s.calls[t]);
    var calls' := s.calls[t := AfterGiving(s.calls[t])];
    forall u | 0 <= u < |calls'| ensures CallOk(s.stored, s.gone, s.clears, u, calls'[u]) {
      assert CallOk(s.stored, s.gone, s.clears, u, s.calls[u]);
    }
  }

  /** post() on the semaphore the call gives its token to. */
  function Given(s: System, toWriters: bool): System {
    if toWriters then s.(semWriters := Post(s.semWriters), calls := Wake(s.calls, s.semWriters, AskMutex))
    else s.(semReaders := Post(s.semReaders), calls := Wake(s.calls, s.semReaders, AskMutex))
  }

  lemma GivenToWritersQueues(s: System)
    requires QueuesOk(s) && s.semWriters.value + 1 < WRAP
    ensures QueuesOk(Given(s, true))
  {
    QueuePost(s.semWriters, s.calls, AskMutex, WriterQueued);
    if s.semWriters.waiting != [] {
      var w := s.semWriters.waiting[0];
      QueueSame(s.semReaders, s.calls, w, s.calls[w].(pc := AskMutex), ReaderQueued, s.semReaders.value);
      QueueSame(s.mutex, s.calls, w, s.calls[w].(pc := AskMutex), MutexQueued, s.mutex.value);
    }
  }

  lemma GivenToReadersQueues(s: System)
    requires QueuesOk(s) && s.semReaders.value + 1 < WRAP
    ensures QueuesOk(Given(s, false))
  {
    QueuePost(s.semReaders, s.calls, AskMutex, ReaderQueued);
    if s.semReaders.waiting != [] {
      var w := s.semReaders.waiting[0];
      QueueSame(s.semWriters, s.calls, w, s.calls[w].(pc := AskMutex), WriterQueued, s.semWriters.value);
      QueueSame(s.mutex, s.calls, w, s.calls[w].(pc := AskMutex), MutexQueued, s.mutex.value);
    }
  }

  /** A given token ends up in the value or with one more call in flight. */
  lemma GivenRest(s: System, toWriters: bool)
    requires QueuesOk(s) && CallsOk(s.stored, s.gone, s.clears, s.calls)
    requires s.semWriters.value + 1 < WRAP && s.semReaders.value + 1 < WRAP
    ensures var s' := Given(s, toWriters);
            && |s'.calls| == |s.calls| && CallsOk(s.stored, s.gone, s.clears, s'.calls)
            && Count(s'.calls, Holding) == Count(s.calls, Holding)
            && s'.semReaders.value + s'.semWriters.value + Count(s'.calls, InFlight)
               == s.semReaders.value + s.semWriters.value + Count(s.calls, InFlight) + 1
            && s'.semReaders.value + Count(s'.calls, StoredNotPosted) + Count(s'.calls, AdmittedNotRead)
               == s.semReaders.value + Count(s.calls, StoredNotPosted) + Count(s.calls, AdmittedNotRead)
                  + (if toWriters then 0 else 1)
  {
    var sem := if toWriters then s.semWriters else s.semReaders;
    if toWriters {
      QueuePost(sem, s.calls, AskMutex, WriterQueued);
    } else {
      QueuePost(sem, s.calls, AskMutex, ReaderQueued);
    }
    if sem.waiting != [] {
      var w := sem.waiting[0];
      CountsUpdate(s.calls, w, s.calls[w].(pc := AskMutex));
      PcOnly(s, w, AskMutex);
    }
  }

  /** The state between a call leaving its iteration and the token reaching the other side. */
  ghost predicate OwesToken(s: System, toWriters: bool) {
    && QueuesOk(s) && CallsOk(s.stored, s.gone, s.clears, s.calls)
    && s.semReaders.value + s.semWriters.value + Count(s.calls, InFlight) + 1 == PIPE_BUFFER_SIZE
    && s.mutex.value + Count(s.calls, Holding) == 1
    && var owed := if toWriters then 0 else 1;
       var bound := s.semReaders.value + Count(s.calls, StoredNotPosted) + Count(s.calls, AdmittedNotRead) + owed;
       s.ring.count <= bound && (s.clears == 0 ==> s.ring.count == bound)
  }

  lemma GiveOwes(s: System, t: nat)
    requires Inv(s) && t < |s.calls| && s.calls[t].pc == GiveToken
    ensures OwesToken(s.(calls := s.calls[t := AfterGiving(s.calls[t])]), s.calls[t].role == Reader)
  {
    GiveSelf(s, t);
    CountsUpdate(s.calls, t, AfterGiving(s.calls[t]));
    QueuesSame(s, t, AfterGiving(s.calls[t]));
  }

  lemma OwedIsGiven(s: System, toWriters: bool)
    requires OwesToken(s, toWriters) && HistoryOk(s.ring, s.stored, s.gone, s.clears, |s.calls|)
    ensures Inv(Given(s, toWriters))
  {
    GivenRest(s, toWriters);
    if toWriters {
      GivenToWritersQueues(s);
    } else {
      GivenToReadersQueues(s);
    }
  }

  lemma GiveTokenIs(s: System, t: nat)
    requires t < |s.calls|
    ensures GiveTokenStep(s, t) == Given(s.(calls := s.calls[t := AfterGiving(s.calls[t])]), s.calls[t].role == Reader)
  {
  }

  lemma GiveTokenKeeps(s: System, t: nat)
    requires Inv(s) && t < |s.calls| && s.calls[t].pc == GiveToken
    ensures Inv(GiveTokenStep(s, t))
  {
    GiveOwes(s, t);
    OwedIsGiven(s.(calls := s.calls[t := AfterGiving(s.calls[t])]), s.calls[t].role == Reader);
    GiveTokenIs(s, t);
  }

  // ---------------------------------------------------------------- every run

  datatype Step = Advance(t: nat) | Enter(role: Role, bytes: seq<char>)

  /** One step of the system: some call advances, or a new call of the pipe begins. Steps of
      calls that are waiting or have returned do nothing. */
  function Next(s: System, e: Step): System
    requires Inv(s)
  {
    match e
    case Advance(t) => if Enabled(s, t) then Move(s, t) else s
    case Enter(role, bytes) => s.(calls := s.calls + [Begin(role, |bytes|, bytes)])
  }

  lemma MoveKeeps(s: System, t: nat)
    requires Inv(s) && Enabled(s, t)
    ensures Inv(Move(s, t))
  {
    assert CallOk(s.stored, s.gone, s.clears, t, s.calls[t]);
    match s.calls[t].pc
    case AskToken => AskTokenKeeps(s, t);
    case AskMutex => AskMutexKeeps(s, t);
    case Inside =>
      match s.calls[t].role {
        case Reader => TakeKeeps(s, t);
        case Writer => PutKeeps(s, t);
        case Clearer => ClearKeeps(s, t);
      }
    case Unlock => UnlockKeeps(s, t);
    case GiveToken => GiveTokenKeeps(s, t);
  }

  lemma QueueEnter(sem: Sem, calls: seq<Call>, c: Call, queued: Call -> bool)
    requires QueueOk(sem, calls, queued) && !queued(c)
    ensures QueueOk(sem, calls + [c], queued)
  {
  }

  lemma {:induction false} NothingBy(stored: seq<(nat, char)>, gone: seq<Option<nat>>, t: nat)
    requires |gone| <= |stored|
    requires forall j :: 0 <= j < |stored| ==> stored[j].0 != t
    requires forall j :: 0 <= j < |gone| ==> gone[j] != Some(t)
    ensures StoredBy(stored, t) == [] && TakenBy(stored, gone, t) == []
    decreases |stored| + |gone|
  {
    if gone != [] {
      NothingBy(stored, gone[..|gone| - 1], t);
    } else if stored != [] {
      NothingBy(stored[..|stored| - 1], gone, t);
    }
  }

  lemma EnterPromises(s: System, c: Call)
    requires HistoryOk(s.ring, s.stored, s.gone, s.clears, |s.calls|) && CallsOk(s.stored, s.gone, s.clears, s.calls)
    requires c == Begin(c.role, |c.bytes|, c.bytes)
    ensures CallsOk(s.stored, s.gone, s.clears, s.calls + [c])
  {
    NothingBy(s.stored, s.gone, |s.calls|);
    forall u | 0 <= u < |s.calls + [c]| ensures CallOk(s.stored, s.gone, s.clears, u, (s.calls + [c])[u]) {
      if u < |s.calls| {
        assert CallOk(s.stored, s.gone, s.clears, u, s.calls[u]);
      }
    }
  }

  lemma HistoryGrows(ring: Ring, stored: seq<(nat, char)>, gone: seq<Option<nat>>, clears: nat, n: nat)
    requires HistoryOk(ring, stored, gone, clears, n)
    ensures HistoryOk(ring, stored, gone, clears, n + 1)
  {
  }

  lemma EnterCounts(calls: seq<Call>, c: Call)
    requires c.pc in {AskToken, AskMutex, Returned} && (c.role != Clearer ==> c.pc != AskMutex)
    ensures Count(calls + [c], InFlight) == Count(calls, InFlight) && Count(calls + [c], Holding) == Count(calls, Holding)
    ensures Count(calls + [c], StoredNotPosted) == Count(calls, StoredNotPosted)
    ensures Count(calls + [c], AdmittedNotRead) == Count(calls, AdmittedNotRead)
  {
    CountAppend(calls, c, InFlight);
    CountAppend(calls, c, Holding);
    CountAppend(calls, c, StoredNotPosted);
    CountAppend(calls, c, AdmittedNotRead);
  }

  lemma EnterQueues(s: System, c: Call)
    requires QueuesOk(s) && c.pc in {AskToken, AskMutex, Returned}
    ensures QueuesOk(s.(calls := s.calls + [c]))
  {
    QueueEnter(s.semReaders, s.calls, c, ReaderQueued);
    QueueEnter(s.semWriters, s.calls, c, WriterQueued);
    QueueEnter(s.mutex, s.calls, c, MutexQueued);
  }

  lemma EnterKeeps(s: System, role: Role, bytes: seq<char>)
    requires Inv(s)
    ensures Inv(Next(s, Enter(role, bytes)))
  {
    var c := Begin(role, |bytes|, bytes);
    EnterCounts(s.calls, c);
    EnterQueues(s, c);
    HistoryGrows(s.ring, s.stored, s.gone, s.clears, |s.calls|);
    EnterPromises(s, c);
  }

  lemma NextKeeps(s: System, e: Step)
    requires Inv(s)
    ensures Inv(Next(s, e))
  {
    match e
    case Advance(t) => if Enabled(s, t) { MoveKeeps(s, t); }
    case Enter(role, bytes) => EnterKeeps(s, role, bytes);
  }

  ghost function Run(s: System, es: seq<Step>): (r: System)
    requires Inv(s)
    ensures Inv(r)
    decreases |es|
  {
    if es == [] then s
    else
      NextKeeps(s, es[0]);
      Run(Next(s, es[0]), es[1..])
  }

  // ---------------------------------------------------------------- what users can rely on

  /** In every run, with any clears at any time: no byte handed to writePipe is dropped, because
      the test for a full ring never fails; a call that returned has moved its bytes. */
  lemma NothingDropped(buffer: seq<char>, es: seq<Step>, t: nat)
    requires |buffer| == PIPE_BUFFER_SIZE
    requires t < |Run(Created(buffer), es).calls|
    ensures var s := Run(Created(buffer), es); var c := s.calls[t];
            && (c.role == Writer && c.pc == Inside ==> s.ring.count < PIPE_BUFFER_SIZE)
            && (c.role == Writer && c.pc == Returned ==> c.moved == c.size && StoredBy(s.stored, t) == c.bytes)
            && (c.role == Reader && c.pc == Inside && s.clears == 0 ==> s.ring.count > 0)
            && (c.role == Reader && c.pc == Returned && s.clears == 0 ==>
                  c.moved == c.size && TakenBy(s.stored, s.gone, t) == c.bytes)
  {
    var s := Run(Created(buffer), es);
    assert CallOk(s.stored, s.gone, s.clears, t, s.calls[t]);
    if s.calls[t].pc == Inside {
      InsideFindsRoom(s, t);
    }
    assert s.calls[t].bytes[..s.calls[t].size] == s.calls[t].bytes;
  }

  /** A state in which no call can take a step: every call has returned or waits. */
  ghost predicate Stuck(s: System) { forall t :: 0 <= t < |s.calls| ==> !Enabled(s, t) }

  /** The pipe itself never deadlocks: when nothing can move, nobody waits for the mutex, readers
      and writers do not wait at the same time, waiting readers face an empty ring and, without
      clears, waiting writers a full one. */
  lemma OnlyImbalanceBlocks(s: System)
    requires Inv(s) && Stuck(s)
    ensures forall t :: 0 <= t < |s.calls| ==> s.calls[t].pc != QueuedMutex
    ensures s.semReaders.waiting == [] || s.semWriters.waiting == []
    ensures s.semReaders.waiting != [] ==> s.ring.count == 0
    ensures s.semWriters.waiting != [] && s.clears == 0 ==> s.ring.count == PIPE_BUFFER_SIZE
  {
    forall t | 0 <= t < |s.calls| ensures !Holding(s.calls[t]) {
      assert !Enabled(s, t);
    }
    CountZero(s.calls, Holding);
    forall t | 0 <= t < |s.calls| ensures !InFlight(s.calls[t]) {
      assert !Enabled(s, t) && (t in s.mutex.waiting <==> MutexQueued(s.calls[t]));
    }
    CountZero(s.calls, InFlight);
    forall t | 0 <= t < |s.calls|
      ensures !StoredNotPosted(s.calls[t]) && !AdmittedNotRead(s.calls[t]) && s.calls[t].pc != QueuedMutex
    {
      assert !InFlight(s.calls[t]) && (t in s.mutex.waiting <==> MutexQueued(s.calls[t]));
    }
    CountZero(s.calls, StoredNotPosted);
    CountZero(s.calls, AdmittedNotRead);
  }

  lemma {:induction false} AllStoredBy(stored: seq<(nat, char)>, w: nat)
    requires forall j :: 0 <= j < |stored| ==> stored[j].0 == w
    ensures |StoredBy(stored, w)| == |stored|
    ensures forall j :: 0 <= j < |stored| ==> StoredBy(stored, w)[j] == stored[j].1
  {
    if stored != [] {
      AllStoredBy(stored[..|stored| - 1], w);
    }
  }

  lemma {:induction false} AllTakenBy(stored: seq<(nat, char)>, gone: seq<Option<nat>>, r: nat)
    requires |gone| <= |stored| && forall j :: 0 <= j < |gone| ==> gone[j] == Some(r)
    ensures |TakenBy(stored, gone, r)| == |gone|
    ensures forall j :: 0 <= j < |gone| ==> TakenBy(stored, gone, r)[j] == stored[j].1
    decreases |gone|
  {
    if gone != [] {
      AllTakenBy(stored, gone[..|gone| - 1], r);
    }
  }

  lemma {:induction false} OnlyStoredBy(stored: seq<(nat, char)>, j: nat, t: nat)
    requires j < |stored| && stored[j].0 == t
    ensures StoredBy(stored, t) != []
  {
    if j < |stored| - 1 {
      OnlyStoredBy(stored[..|stored| - 1], j, t);
    }
  }

  lemma {:induction false} OnlyTakenBy(stored: seq<(nat, char)>, gone: seq<Option<nat>>, j: nat, t: nat)
    requires |gone| <= |stored| && j < |gone| && gone[j] == Some(t)
    ensures TakenBy(stored, gone, t) != []
    decreases |gone|
  {
    if j < |gone| - 1 {
      OnlyTakenBy(stored, gone[..|gone| - 1], j, t);
    }
  }

  lemma LoneWriter(s: System, w: nat)
    requires Inv(s) && w < |s.calls|
    requires forall t :: 0 <= t < |s.calls| && t != w ==> s.calls[t].role != Writer
    ensures forall j :: 0 <= j < |s.stored| ==> s.stored[j].0 == w
  {
    forall j | 0 <= j < |s.stored| ensures s.stored[j].0 == w {
      var t := s.stored[j].0;
      assert CallOk(s.stored, s.gone, s.clears, t, s.calls[t]);
      OnlyStoredBy(s.stored, j, t);
    }
  }

  lemma LoneReader(s: System, r: nat)
    requires Inv(s) && s.clears == 0 && r < |s.calls|
    requires forall t :: 0 <= t < |s.calls| && t != r ==> s.calls[t].role != Reader
    ensures forall j :: 0 <= j < |s.gone| ==> s.gone[j] == Some(r)
  {
    forall j | 0 <= j < |s.gone| ensures s.gone[j] == Some(r) {
      var t := s.gone[j].value;
      assert CallOk(s.stored, s.gone, s.clears, t, s.calls[t]);
      OnlyTakenBy(s.stored, s.gone, j, t);
    }
  }

  /** One writer and one reader, no clears, any scheduling: at every moment the reader holds
      exactly the first bytes of what the writer was given, in order. */
  lemma BytesArriveInOrder(s: System, w: nat, r: nat)
    requires Inv(s) && s.clears == 0 && w < |s.calls| && r < |s.calls|
    requires s.calls[w].role == Writer && s.calls[r].role == Reader
    requires forall t :: 0 <= t < |s.calls| && t != w ==> s.calls[t].role != Writer
    requires forall t :: 0 <= t < |s.calls| && t != r ==> s.calls[t].role != Reader
    ensures s.calls[r].moved <= s.calls[w].moved <= |s.calls[w].bytes| && s.calls[r].moved <= |s.calls[r].bytes|
    ensures s.calls[r].bytes[..s.calls[r].moved] == s.calls[w].bytes[..s.calls[r].moved]
  {
    assert CallOk(s.stored, s.gone, s.clears, w, s.calls[w]);
    assert CallOk(s.stored, s.gone, s.clears, r, s.calls[r]);
    LoneWriter(s, w);
    LoneReader(s, r);
    AllStoredBy(s.stored, w);
    AllTakenBy(s.stored, s.gone, r);
    PrefixOf(s.stored, StoredBy(s.stored, w), TakenBy(s.stored, s.gone, r));
  }

  lemma PrefixOf(stored: seq<(nat, char)>, put: seq<char>, taken: seq<char>)
    requires |put| == |stored| && |taken| <= |put|
    requires forall j :: 0 <= j < |put| ==> put[j] == stored[j].1
    requires forall j :: 0 <= j < |taken| ==> taken[j] == stored[j].1
    ensures taken == put[..|taken|]
  {
  }

  // ---------------------------------------------------------------- any number of readers and writers

  /** Bytes moved by the calls of a role. */
  ghost function Moved(calls: seq<Call>, role: Role, n: nat): nat
    requires n <= |calls|
  {
    if n == 0 then 0 else Moved(calls, role, n - 1) + (if calls[n - 1].role == role then calls[n - 1].moved else 0)
  }

  ghost function StoredByAll(stored: seq<(nat, char)>, n: nat): nat {
    if n == 0 then 0 else StoredByAll(stored, n - 1) + |StoredBy(stored, n - 1)|
  }

  ghost function TakenByAll(stored: seq<(nat, char)>, gone: seq<Option<nat>>, n: nat): nat
    requires |gone| <= |stored|
  {
    if n == 0 then 0 else TakenByAll(stored, gone, n - 1) + |TakenBy(stored, gone, n - 1)|
  }

  /** Bytes that a clear threw away. */
  ghost function ClearedAway(gone: seq<Option<nat>>): nat {
    if gone == [] then 0 else ClearedAway(gone[..|gone| - 1]) + (if gone[|gone| - 1].None? then 1 else 0)
  }

  lemma {:induction false} OneMoreStored(stored: seq<(nat, char)>, n: nat)
    requires stored != []
    ensures var m := |stored| - 1;
            StoredByAll(stored, n) == StoredByAll(stored[..m], n) + (if stored[m].0 < n then 1 else 0)
    decreases n
  {
    if n > 0 {
      OneMoreStored(stored, n - 1);
    }
  }

  lemma {:induction false} AllStored(stored: seq<(nat, char)>, n: nat)
    requires forall j :: 0 <= j < |stored| ==> stored[j].0 < n
    ensures StoredByAll(stored, n) == |stored|
    decreases |stored|
  {
    if stored != [] {
      AllStored(stored[..|stored| - 1], n);
      OneMoreStored(stored, n);
    } else {
      NoneStored(n);
    }
  }

  lemma {:induction false} NoneStored(n: nat)
    ensures StoredByAll([], n) == 0
  {
    if n > 0 {
      NoneStored(n - 1);
    }
  }

  lemma {:induction false} OneMoreTaken(stored: seq<(nat, char)>, gone: seq<Option<nat>>, n: nat)
    requires gone != [] && |gone| <= |stored|
    ensures var m := |gone| - 1;
            TakenByAll(stored, gone, n) ==
              TakenByAll(stored, gone[..m], n) + (if gone[m].Some? && gone[m].value < n then 1 else 0)
    decreases n
  {
    if n > 0 {
      OneMoreTaken(stored, gone, n - 1);
    }
  }

  lemma {:induction false} AllTaken(stored: seq<(nat, char)>, gone: seq<Option<nat>>, n: nat)
    requires |gone| <= |stored| && forall j :: 0 <= j < |gone| && gone[j].Some? ==> gone[j].value < n
    ensures TakenByAll(stored, gone, n) + ClearedAway(gone) == |gone|
    decreases |gone|
  {
    if gone != [] {
      AllTaken(stored, gone[..|gone| - 1], n);
      OneMoreTaken(stored, gone, n);
    } else {
      NoneTaken(stored, n);
    }
  }

  lemma {:induction false} NoneTaken(stored: seq<(nat, char)>, n: nat)
    ensures TakenByAll(stored, [], n) == 0
  {
    if n > 0 {
      NoneTaken(stored, n - 1);
    }
  }

  /** Call t's share of the history is what it moved. */
  ghost predicate ShareOk(stored: seq<(nat, char)>, gone: seq<Option<nat>>, t: nat, c: Call)
    requires |gone| <= |stored|
  {
    && |StoredBy(stored, t)| == (if c.role == Writer then c.moved else 0)
    && |TakenBy(stored, gone, t)| == (if c.role == Reader then c.moved else 0)
  }

  lemma {:induction false} WrittenParts(stored: seq<(nat, char)>, gone: seq<Option<nat>>, calls: seq<Call>, n: nat)
    requires |gone| <= |stored| && n <= |calls|
    requires forall t {:trigger ShareOk(stored, gone, t, calls[t])} :: 0 <= t < n ==> ShareOk(stored, gone, t, calls[t])
    ensures Moved(calls, Writer, n) == StoredByAll(stored, n)
  {
    if n > 0 {
      WrittenParts(stored, gone, calls, n - 1);
      assert ShareOk(stored, gone, n - 1, calls[n - 1]);
    }
  }

  lemma {:induction false} ReadParts(stored: seq<(nat, char)>, gone: seq<Option<nat>>, calls: seq<Call>, n: nat)
    requires |gone| <= |stored| && n <= |calls|
    requires forall t {:trigger ShareOk(stored, gone, t, calls[t])} :: 0 <= t < n ==> ShareOk(stored, gone, t, calls[t])
    ensures Moved(calls, Reader, n) == TakenByAll(stored, gone, n)
  {
    if n > 0 {
      ReadParts(stored, gone, calls, n - 1);
      assert ShareOk(stored, gone, n - 1, calls[n - 1]);
    }
  }

  lemma PartOf(s: System, t: nat)
    requires CallsOk(s.stored, s.gone, s.clears, s.calls) && t < |s.calls|
    ensures ShareOk(s.stored, s.gone, t, s.calls[t])
  {
    assert CallOk(s.stored, s.gone, s.clears, t, s.calls[t]);
  }

  lemma {:induction false} NothingClearedAway(gone: seq<Option<nat>>)
    requires forall j :: 0 <= j < |gone| ==> gone[j].Some?
    ensures ClearedAway(gone) == 0
  {
    if gone != [] {
      NothingClearedAway(gone[..|gone| - 1]);
    }
  }

  /** In every run, clears included: what writers have written is what readers have read, what the
      ring holds, and what clears threw away. */
  lemma BytesConserved(buffer: seq<char>, es: seq<Step>)
    requires |buffer| == PIPE_BUFFER_SIZE
    ensures var s := Run(Created(buffer), es); var n := |s.calls|;
            && Moved(s.calls, Writer, n) == Moved(s.calls, Reader, n) + s.ring.count + ClearedAway(s.gone)
            && (s.clears == 0 ==> ClearedAway(s.gone) == 0)
  {
    var s := Run(Created(buffer), es);
    forall t | 0 <= t < |s.calls| ensures ShareOk(s.stored, s.gone, t, s.calls[t]) {
      PartOf(s, t);
    }
    WrittenParts(s.stored, s.gone, s.calls, |s.calls|);
    ReadParts(s.stored, s.gone, s.calls, |s.calls|);
    AllStored(s.stored, |s.calls|);
    AllTaken(s.stored, s.gone, |s.calls|);
    if s.clears == 0 {
      NothingClearedAway(s.gone);
    }
  }

  /** In every run without clears, with any number of readers and writers: the bytes in order of
      writing make one stream, in which each writer's bytes stand in its own order; its first part
      has been handed out, byte by byte, each to exactly one reader, and each reader's buffer holds
      the bytes handed to it, in order; the ring holds the rest of the stream, oldest first. */
  lemma FirstInFirstOut(buffer: seq<char>, es: seq<Step>)
    requires |buffer| == PIPE_BUFFER_SIZE
    ensures var s := Run(Created(buffer), es);
            s.clears == 0 ==>
              && |s.gone| + |Held(s.ring)| == |s.stored|
              && (forall q :: 0 <= q < |Held(s.ring)| ==> Held(s.ring)[q] == s.stored[|s.gone| + q].1)
              && (forall j :: 0 <= j < |s.gone| ==>
                    s.gone[j].Some? && s.gone[j].value < |s.calls| && s.calls[s.gone[j].value].role == Reader)
              && (forall t :: 0 <= t < |s.calls| && s.calls[t].role == Writer ==>
                    s.calls[t].moved <= |s.calls[t].bytes| && s.calls[t].bytes[..s.calls[t].moved] == StoredBy(s.stored, t))
              && (forall t :: 0 <= t < |s.calls| && s.calls[t].role == Reader ==>
                    s.calls[t].moved <= |s.calls[t].bytes| && s.calls[t].bytes[..s.calls[t].moved] == TakenBy(s.stored, s.gone, t))
  {
    var s := Run(Created(buffer), es);
    if s.clears == 0 {
      HandedToReaders(s);
      BuffersHold(s);
    }
  }

  /** Each call's buffer is what the history says of it. */
  lemma BuffersHold(s: System)
    requires Inv(s) && s.clears == 0
    ensures |s.gone| <= |s.stored|
    ensures forall t :: 0 <= t < |s.calls| && s.calls[t].role == Writer ==>
              s.calls[t].moved <= |s.calls[t].bytes| && s.calls[t].bytes[..s.calls[t].moved] == StoredBy(s.stored, t)
    ensures forall t :: 0 <= t < |s.calls| && s.calls[t].role == Reader ==>
              s.calls[t].moved <= |s.calls[t].bytes| && s.calls[t].bytes[..s.calls[t].moved] == TakenBy(s.stored, s.gone, t)
  {
    forall t | 0 <= t < |s.calls| ensures CallOk(s.stored, s.gone, s.clears, t, s.calls[t]) {
    }
  }

  lemma HandedToReaders(s: System)
    requires Inv(s) && s.clears == 0
    ensures forall j :: 0 <= j < |s.gone| ==>
              s.gone[j].Some? && s.gone[j].value < |s.calls| && s.calls[s.gone[j].value].role == Reader
  {
    forall j | 0 <= j < |s.gone| ensures s.gone[j].Some? && s.gone[j].value < |s.calls| && s.calls[s.gone[j].value].role == Reader {
      var t := s.gone[j].value;
      assert CallOk(s.stored, s.gone, s.clears, t, s.calls[t]);
      OnlyTakenBy(s.stored, s.gone, j, t);
    }
  }
}

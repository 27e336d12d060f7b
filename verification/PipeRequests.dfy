/** From the request to what was done for it: a call keeps the role, the size and the bytes it was
    made with, whatever runs in between, and every clear clears. */
module PipeRequests {
  import opened Options
  import S = Semaphores
  import opened PipeSystem
  import opened PipeTheorems

  // ---------------------------------------------------------------- a call keeps its request

  /** Both are the same request: of a reader's buffer only the length is part of it. */
  ghost predicate SameRequest(c: Call, d: Call) {
    d.role == c.role && d.size == c.size && |d.bytes| == |c.bytes| && (c.role == Writer ==> d.bytes == c.bytes)
  }

  ghost predicate KeepsRequests(calls: seq<Call>, after: seq<Call>) {
    |calls| <= |after| && forall t :: 0 <= t < |calls| ==> SameRequest(calls[t], after[t])
  }

  lemma WakeKeepsRequests(calls: seq<Call>, after: seq<Call>, sem: S.Sem, pc: Pc)
    requires KeepsRequests(calls, after)
    ensures KeepsRequests(calls, Wake(after, sem, pc)) && |Wake(after, sem, pc)| == |after|
  {
  }

  lemma UpdateKeepsRequests(calls: seq<Call>, t: nat, c: Call)
    requires t < |calls| && SameRequest(calls[t], c)
    ensures KeepsRequests(calls, calls[t := c])
  {
  }

  lemma UnlockKeepsRequests(s: System, t: nat)
    requires t < |s.calls|
    ensures KeepsRequests(s.calls, UnlockStep(s, t).calls) && |UnlockStep(s, t).calls| == |s.calls|
  {
    var after := SetPc(s.calls, t, if s.calls[t].role == Clearer then Returned else GiveToken);
    UpdateKeepsRequests(s.calls, t, after[t]);
    WakeKeepsRequests(s.calls, after, s.mutex, Inside);
  }

  lemma GiveTokenKeepsRequests(s: System, t: nat)
    requires t < |s.calls|
    ensures KeepsRequests(s.calls, GiveTokenStep(s, t).calls) && |GiveTokenStep(s, t).calls| == |s.calls|
  {
    var after := s.calls[t := AfterGiving(s.calls[t])];
    UpdateKeepsRequests(s.calls, t, after[t]);
    WakeKeepsRequests(s.calls, after, if s.calls[t].role == Reader then s.semWriters else s.semReaders, AskMutex);
  }

  /** No step of any call changes what any call was asked for; only Enter adds a call. */
  lemma MoveKeepsRequests(s: System, t: nat)
    requires Inv(s) && Enabled(s, t)
    ensures KeepsRequests(s.calls, Move(s, t).calls) && |Move(s, t).calls| == |s.calls|
  {
    assert CallOk(s.stored, s.gone, s.clears, t, s.calls[t]);
    match s.calls[t].pc
    case AskToken => UpdateKeepsRequests(s.calls, t, AskTokenStep(s, t).calls[t]);
    case AskMutex => UpdateKeepsRequests(s.calls, t, AskMutexStep(s, t).calls[t]);
    case Inside => UpdateKeepsRequests(s.calls, t, InsideStep(s, t).calls[t]);
    case Unlock => UnlockKeepsRequests(s, t);
    case GiveToken => GiveTokenKeepsRequests(s, t);
  }

  lemma NextKeepsRequests(s: System, e: Step)
    requires Inv(s)
    ensures KeepsRequests(s.calls, Next(s, e).calls)
    ensures |Next(s, e).calls| == |s.calls| + (if e.Enter? then 1 else 0)
  {
    if e.Advance? && Enabled(s, e.t) {
      MoveKeepsRequests(s, e.t);
    }
  }

  lemma {:induction false} RunKeepsRequests(s: System, es: seq<Step>)
    requires Inv(s)
    ensures KeepsRequests(s.calls, Run(s, es).calls)
    decreases |es|
  {
    if es != [] {
      NextKeeps(s, es[0]);
      NextKeepsRequests(s, es[0]);
      RunKeepsRequests(Next(s, es[0]), es[1..]);
      SameRequestThrough(s.calls, Next(s, es[0]).calls, Run(s, es).calls);
    }
  }

  lemma SameRequestThrough(calls: seq<Call>, between: seq<Call>, after: seq<Call>)
    requires KeepsRequests(calls, between) && KeepsRequests(between, after)
    ensures KeepsRequests(calls, after)
  {
    forall t | 0 <= t < |calls| ensures SameRequest(calls[t], after[t]) {
      assert SameRequest(calls[t], between[t]) && SameRequest(between[t], after[t]);
    }
  }

  // ---------------------------------------------------------------- what was asked for is what is done

  /** From the request to its effect. A call made with a role and a buffer, at any moment of any
      run, and looked at after any further steps, is still that request. A writer has stored a
      first part of the very bytes it was given, and all of them once it returned. A reader that
      returned holds, without clears, exactly as many bytes as it asked for, those handed to it. */
  lemma RequestsAreServed(buffer: seq<char>, es: seq<Step>, role: Role, bytes: seq<char>, fs: seq<Step>)
    requires |buffer| == PIPE_BUFFER_SIZE
    ensures var s := Run(Created(buffer), es); var t := |s.calls|;
            var u := Run(s, [Enter(role, bytes)] + fs);
            && t < |u.calls| && u.calls[t].role == role && u.calls[t].size == |bytes|
            && |u.gone| <= |u.stored|
            && var c := u.calls[t];
               && (role == Writer ==> c.moved <= |bytes| && StoredBy(u.stored, t) == bytes[..c.moved])
               && (role == Writer && c.pc == Returned ==> c.moved == |bytes| && StoredBy(u.stored, t) == bytes)
               && (role == Reader && c.pc == Returned && u.clears == 0 ==>
                     c.moved == |bytes| && |TakenBy(u.stored, u.gone, t)| == |bytes| && c.bytes == TakenBy(u.stored, u.gone, t))
  {
    var s := Run(Created(buffer), es);
    var t := |s.calls|;
    var fst := Next(s, Enter(role, bytes));
    NextKeeps(s, Enter(role, bytes));
    var u := Run(s, [Enter(role, bytes)] + fs);
    assert ([Enter(role, bytes)] + fs)[1..] == fs;
    RunKeepsRequests(fst, fs);
    assert SameRequest(fst.calls[t], u.calls[t]);
    var c := u.calls[t];
    assert CallOk(u.stored, u.gone, u.clears, t, c);
    assert c.bytes[..c.size] == c.bytes;
  }

  // ---------------------------------------------------------------- clears

  /** After the critical section of a clear the ring is empty: what it held is gone and was handed
      to nobody; what was handed out before stays handed out. */
  lemma ClearEmpties(s: System, t: nat)
    requires Inv(s) && Enabled(s, t) && s.calls[t].role == Clearer && s.calls[t].pc == Inside
    ensures var u := Next(s, Advance(t));
            && u.ring.count == 0 && RingOk(u.ring) && Held(u.ring) == []
            && u.stored == s.stored && |u.gone| == |u.stored| && u.gone[..|s.gone|] == s.gone
            && (forall j :: |s.gone| <= j < |u.gone| ==> u.gone[j] == None)
            && u.clears == s.clears + 1
  {
  }

  /** A clear that has passed its critical section. */
  predicate HasCleared(c: Call) { c.role == Clearer && c.pc in {Unlock, Returned} }

  ghost predicate ClearsCounted(s: System) { s.clears == Count(s.calls, HasCleared) }

  lemma WakeCounts(sem: S.Sem, calls: seq<Call>, pc: Pc, queued: Call -> bool)
    requires QueueOk(sem, calls, queued)
    requires forall c: Call :: queued(c) ==> !HasCleared(c) && !HasCleared(c.(pc := pc))
    ensures Count(Wake(calls, sem, pc), HasCleared) == Count(calls, HasCleared)
  {
    if sem.waiting != [] {
      assert sem.waiting[0] in sem.waiting;
      CountUpdate(calls, sem.waiting[0], calls[sem.waiting[0]].(pc := pc), HasCleared);
    }
  }

  lemma QueueAfter(sem: S.Sem, calls: seq<Call>, t: nat, c: Call, queued: Call -> bool)
    requires QueueOk(sem, calls, queued) && t < |calls| && !queued(calls[t]) && !queued(c)
    ensures QueueOk(sem, calls[t := c], queued)
  {
  }

  lemma UnlockCounts(s: System, t: nat)
    requires QueuesOk(s) && t < |s.calls| && s.calls[t].pc == Unlock
    ensures Count(UnlockStep(s, t).calls, HasCleared) == Count(s.calls, HasCleared)
  {
    var c := s.calls[t].(pc := if s.calls[t].role == Clearer then Returned else GiveToken);
    CountUpdate(s.calls, t, c, HasCleared);
    QueueAfter(s.mutex, s.calls, t, c, MutexQueued);
    WakeCounts(s.mutex, s.calls[t := c], Inside, MutexQueued);
  }

  lemma GiveTokenCounts(s: System, t: nat)
    requires QueuesOk(s) && t < |s.calls| && s.calls[t].pc == GiveToken && s.calls[t].role != Clearer
    ensures Count(GiveTokenStep(s, t).calls, HasCleared) == Count(s.calls, HasCleared)
  {
    var c := AfterGiving(s.calls[t]);
    CountUpdate(s.calls, t, c, HasCleared);
    if s.calls[t].role == Reader {
      TokenCounts(s.semWriters, s.calls, t, c, WriterQueued);
    } else {
      TokenCounts(s.semReaders, s.calls, t, c, ReaderQueued);
    }
  }

  lemma TokenCounts(sem: S.Sem, calls: seq<Call>, t: nat, c: Call, queued: Call -> bool)
    requires QueueOk(sem, calls, queued) && t < |calls| && !queued(calls[t]) && !queued(c)
    requires forall d: Call :: queued(d) ==> !HasCleared(d) && !HasCleared(d.(pc := AskMutex))
    ensures Count(Wake(calls[t := c], sem, AskMutex), HasCleared) == Count(calls[t := c], HasCleared)
  {
    QueueAfter(sem, calls, t, c, queued);
    WakeCounts(sem, calls[t := c], AskMutex, queued);
  }

  lemma MoveCounts(s: System, t: nat)
    requires Inv(s) && Enabled(s, t)
    ensures var u := Move(s, t); u.clears - s.clears == Count(u.calls, HasCleared) - Count(s.calls, HasCleared)
  {
    assert CallOk(s.stored, s.gone, s.clears, t, s.calls[t]);
    match s.calls[t].pc
    case AskToken => CountUpdate(s.calls, t, AskTokenStep(s, t).calls[t], HasCleared);
    case AskMutex => CountUpdate(s.calls, t, AskMutexStep(s, t).calls[t], HasCleared);
    case Inside => CountUpdate(s.calls, t, InsideStep(s, t).calls[t], HasCleared);
    case Unlock => UnlockCounts(s, t);
    case GiveToken => GiveTokenCounts(s, t);
  }

  lemma NextCounts(s: System, e: Step)
    requires Inv(s) && ClearsCounted(s)
    ensures ClearsCounted(Next(s, e))
  {
    match e
    case Advance(t) => if Enabled(s, t) { MoveCounts(s, t); }
    case Enter(role, bytes) => CountAppend(s.calls, Begin(role, |bytes|, bytes), HasCleared);
  }

  lemma {:induction false} RunCounts(s: System, es: seq<Step>)
    requires Inv(s) && ClearsCounted(s)
    ensures ClearsCounted(Run(s, es))
    decreases |es|
  {
    if es != [] {
      NextKeeps(s, es[0]);
      NextCounts(s, es[0]);
      RunCounts(Next(s, es[0]), es[1..]);
    }
  }

  /** In every run the ring has been cleared once by each clearPipe call that is through its
      critical section, and by nobody else; so a clear that returned has cleared. */
  lemma EveryClearClears(buffer: seq<char>, es: seq<Step>)
    requires |buffer| == PIPE_BUFFER_SIZE
    ensures ClearsCounted(Run(Created(buffer), es))
  {
    RunCounts(Created(buffer), es);
  }
}

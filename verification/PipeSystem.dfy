/** One open pipe under any number of concurrent readers, writers and clearers. Every
    semaphore call and every critical section is one atomic step; between two steps any
    other process may run. */
module PipeSystem {
  import opened Options
  import opened Semaphores

  const PIPE_BUFFER_SIZE: nat := 100

  // ---------------------------------------------------------------- the ring buffer

  datatype Ring = Ring(buffer: seq<char>, readIdx: nat, writeIdx: nat, count: nat)

  ghost predicate RingOk(r: Ring) {
    && |r.buffer| == PIPE_BUFFER_SIZE && r.readIdx < PIPE_BUFFER_SIZE && r.writeIdx < PIPE_BUFFER_SIZE
    && r.count <= PIPE_BUFFER_SIZE && r.writeIdx == (r.readIdx + r.count) % PIPE_BUFFER_SIZE
  }

  /** The bytes in the ring, oldest first. */
  ghost function Held(r: Ring): (s: seq<char>)
    requires RingOk(r)
    ensures |s| == r.count
    ensures forall q :: 0 <= q < |s| ==> s[q] == r.buffer[(r.readIdx + q) % PIPE_BUFFER_SIZE]
  {
    seq(r.count, q requires 0 <= q < r.count => r.buffer[(r.readIdx + q) % PIPE_BUFFER_SIZE])
  }

  function PutByte(r: Ring, c: char): Ring
    requires |r.buffer| == PIPE_BUFFER_SIZE && r.writeIdx < PIPE_BUFFER_SIZE
  {
    r.(buffer := r.buffer[r.writeIdx := c], writeIdx := (r.writeIdx + 1) % PIPE_BUFFER_SIZE, count := r.count + 1)
  }

  function DropByte(r: Ring): Ring
    requires r.count > 0
  {
    r.(readIdx := (r.readIdx + 1) % PIPE_BUFFER_SIZE, count := r.count - 1)
  }

  function Cleared(r: Ring): Ring { r.(readIdx := 0, writeIdx := 0, count := 0) }

  lemma PutHolds(r: Ring, c: char)
    requires RingOk(r) && r.count < PIPE_BUFFER_SIZE
    ensures RingOk(PutByte(r, c)) && Held(PutByte(r, c)) == Held(r) + [c]
  {
  }

  lemma DropHolds(r: Ring)
    requires RingOk(r) && r.count > 0
    ensures RingOk(DropByte(r)) && Held(r) == [r.buffer[r.readIdx]] + Held(DropByte(r))
  {
  }

  /** The ring as the kernel stores it, with its three critical sections. */
  class PipeBuffer {
    const buffer: array<char>
    var readIdx: nat
    var writeIdx: nat
    var count: nat

    ghost predicate Valid()
      reads this, buffer
    {
      buffer.Length == PIPE_BUFFER_SIZE && RingOk(View())
    }

    ghost function View(): Ring
      reads this, buffer
    {
      Ring(buffer[..], readIdx, writeIdx, count)
    }

    constructor ()
      ensures Valid() && Held(View()) == [] && fresh(buffer)
    {
      buffer := new char[PIPE_BUFFER_SIZE];
      readIdx, writeIdx, count := 0, 0, 0;
    }

    /** The critical section of readPipe: one byte if there is one. */
    method Take() returns (c: Option<char>)
      requires Valid()
      modifies this`readIdx, this`count
      ensures Valid()
      ensures old(count) == 0 ==> c == None && View() == old(View())
      ensures old(count) > 0 ==> c == Some(Held(old(View()))[0]) && View() == DropByte(old(View()))
                                 && Held(View()) == Held(old(View()))[1..]
    {
      if count > 0 {
        DropHolds(View());
        c := Some(buffer[readIdx]);
        readIdx := (readIdx + 1) % PIPE_BUFFER_SIZE;
        count := count - 1;
      } else {
        c := None;
      }
    }

    /** The critical section of writePipe: the byte is stored unless the ring is full. */
    method Put(c: char) returns (stored: bool)
      requires Valid()
      modifies this`writeIdx, this`count, buffer
      ensures Valid() && stored == (old(count) < PIPE_BUFFER_SIZE)
      ensures Held(View()) == Held(old(View())) + (if stored then [c] else [])
      ensures View() == if stored then PutByte(old(View()), c) else old(View())
    {
      stored := count < PIPE_BUFFER_SIZE;
      if stored {
        PutHolds(View(), c);
        buffer[writeIdx] := c;
        writeIdx := (writeIdx + 1) % PIPE_BUFFER_SIZE;
        count := count + 1;
      }
    }

    /** The critical section of clearPipe. */
    method Clear()
      requires Valid()
      modifies this`readIdx, this`writeIdx, this`count
      ensures Valid() && Held(View()) == [] && View() == Cleared(old(View()))
    {
      readIdx, writeIdx, count := 0, 0, 0;
    }
  }

  // ---------------------------------------------------------------- the system

  datatype Role = Reader | Writer | Clearer

  /** Where a call stands: about to wait for its token, queued for it, about to lock the mutex,
      queued for it, inside, about to unlock, about to give a token to the other side, returned. */
  datatype Pc = AskToken | QueuedToken | AskMutex | QueuedMutex | Inside | Unlock | GiveToken | Returned

  /** A call of readPipe, writePipe or clearPipe: loop index i, caller's buffer `bytes`, bytes moved. */
  datatype Call = Call(role: Role, pc: Pc, size: nat, i: nat, bytes: seq<char>, moved: nat)

  /** stored: every byte ever put, with its writer; gone[j]: which reader took the j-th byte,
      None when clearPipe discarded it; clears: clearPipe critical sections so far. */
  datatype System = System(semReaders: Sem, semWriters: Sem, mutex: Sem, ring: Ring, calls: seq<Call>,
                           stored: seq<(nat, char)>, gone: seq<Option<nat>>, clears: nat)

  /** createPipe, on whatever the slot's buffer holds. */
  function Created(buffer: seq<char>): (s: System)
    requires |buffer| == PIPE_BUFFER_SIZE
    ensures Inv(s)
  {
    System(Sem(0, []), Sem(PIPE_BUFFER_SIZE, []), Sem(1, []), Ring(buffer, 0, 0, 0), [], [], [], 0)
  }

  function SetPc(calls: seq<Call>, t: nat, pc: Pc): seq<Call> {
    if t < |calls| then calls[t := calls[t].(pc := pc)] else calls
  }

  /** The process that post() wakes, if any, moves on. */
  function Wake(calls: seq<Call>, sem: Sem, pc: Pc): seq<Call> {
    if sem.waiting != [] then SetPc(calls, sem.waiting[0], pc) else calls
  }

  function Begin(role: Role, size: nat, bytes: seq<char>): Call {
    Call(role, if role == Clearer then AskMutex else if size == 0 then Returned else AskToken, size, 0, bytes, 0)
  }

  predicate Enabled(s: System, t: nat) {
    t < |s.calls| && s.calls[t].pc !in {QueuedToken, QueuedMutex, Returned}
  }

  function AskTokenStep(s: System, t: nat): System
    requires t < |s.calls|
  {
    if s.calls[t].role == Reader then
      s.(semReaders := Wait(s.semReaders, t),
         calls := SetPc(s.calls, t, if Grants(s.semReaders) then AskMutex else QueuedToken))
    else
      s.(semWriters := Wait(s.semWriters, t),
         calls := SetPc(s.calls, t, if Grants(s.semWriters) then AskMutex else QueuedToken))
  }

  function AskMutexStep(s: System, t: nat): System {
    s.(mutex := Wait(s.mutex, t), calls := SetPc(s.calls, t, if Grants(s.mutex) then Inside else QueuedMutex))
  }

  function InsideStep(s: System, t: nat): System
    requires t < |s.calls| && RingOk(s.ring) && |s.calls[t].bytes| == s.calls[t].size
    requires s.calls[t].role != Clearer ==> s.calls[t].i < s.calls[t].size
  {
    var c := s.calls[t];
    match c.role
    case Reader =>
      if s.ring.count > 0 then
        s.(ring := DropByte(s.ring), gone := s.gone + [Some(t)],
           calls := s.calls[t := c.(pc := Unlock, bytes := c.bytes[c.i := s.ring.buffer[s.ring.readIdx]], moved := c.moved + 1)])
      else s.(calls := s.calls[t := c.(pc := Unlock)])
    case Writer =>
      if s.ring.count < PIPE_BUFFER_SIZE then
        s.(ring := PutByte(s.ring, c.bytes[c.i]), stored := s.stored + [(t, c.bytes[c.i])],
           calls := s.calls[t := c.(pc := Unlock, moved := c.moved + 1)])
      else s.(calls := s.calls[t := c.(pc := Unlock)])
    case Clearer =>
      s.(ring := Cleared(s.ring), gone := s.gone + seq(s.ring.count, _ => None), clears := s.clears + 1,
         calls := s.calls[t := c.(pc := Unlock)])
  }

  function UnlockStep(s: System, t: nat): System
    requires t < |s.calls|
  {
    var calls := SetPc(s.calls, t, if s.calls[t].role == Clearer then Returned else GiveToken);
    s.(mutex := Post(s.mutex), calls := Wake(calls, s.mutex, Inside))
  }

  function GiveTokenStep(s: System, t: nat): System
    requires t < |s.calls|
  {
    var c := s.calls[t];
    var calls := s.calls[t := c.(i := c.i + 1, pc := if c.i + 1 < c.size then AskToken else Returned)];
    if c.role == Reader then s.(semWriters := Post(s.semWriters), calls := Wake(calls, s.semWriters, AskMutex))
    else s.(semReaders := Post(s.semReaders), calls := Wake(calls, s.semReaders, AskMutex))
  }

  function Move(s: System, t: nat): System
    requires Inv(s) && Enabled(s, t)
  {
    assert CallOk(s.stored, s.gone, s.clears, t, s.calls[t]);
    match s.calls[t].pc
    case AskToken => AskTokenStep(s, t)
    case AskMutex => AskMutexStep(s, t)
    case Inside => InsideStep(s, t)
    case Unlock => UnlockStep(s, t)
    case GiveToken => GiveTokenStep(s, t)
  }

  // ---------------------------------------------------------------- counting calls

  function Count(calls: seq<Call>, p: Call -> bool): nat {
    if calls == [] then 0 else Count(calls[..|calls| - 1], p) + (if p(calls[|calls| - 1]) then 1 else 0)
  }

  lemma {:induction false} CountUpdate(calls: seq<Call>, t: nat, c: Call, p: Call -> bool)
    requires t < |calls|
    ensures Count(calls[t := c], p) == Count(calls, p) - (if p(calls[t]) then 1 else 0) + (if p(c) then 1 else 0)
  {
    var n := |calls| - 1;
    if t == n {
      assert calls[t := c][..n] == calls[..n];
    } else {
      assert calls[t := c][..n] == calls[..n][t := c];
      CountUpdate(calls[..n], t, c, p);
    }
  }

  lemma CountAppend(calls: seq<Call>, c: Call, p: Call -> bool)
    ensures Count(calls + [c], p) == Count(calls, p) + (if p(c) then 1 else 0)
  {
    assert (calls + [c])[..|calls|] == calls;
  }

  lemma {:induction false} CountZero(calls: seq<Call>, p: Call -> bool)
    ensures Count(calls, p) == 0 <==> forall t :: 0 <= t < |calls| ==> !p(calls[t])
  {
    if calls != [] {
      CountZero(calls[..|calls| - 1], p);
      assert forall t :: 0 <= t < |calls| - 1 ==> calls[..|calls| - 1][t] == calls[t];
    }
  }

  lemma CountMember(calls: seq<Call>, t: nat, p: Call -> bool)
    requires t < |calls| && p(calls[t])
    ensures Count(calls, p) >= 1
  {
    CountZero(calls, p);
  }

  // ---------------------------------------------------------------- the invariant

  predicate InFlight(c: Call) { c.role != Clearer && c.pc in {AskMutex, QueuedMutex, Inside, Unlock, GiveToken} }
  predicate Holding(c: Call) { c.pc in {Inside, Unlock} }
  predicate StoredNotPosted(c: Call) { c.role == Writer && c.pc in {Unlock, GiveToken} }
  predicate AdmittedNotRead(c: Call) { c.role == Reader && c.pc in {AskMutex, QueuedMutex, Inside} }
  predicate ReaderQueued(c: Call) { c.role == Reader && c.pc == QueuedToken }
  predicate WriterQueued(c: Call) { c.role == Writer && c.pc == QueuedToken }
  predicate MutexQueued(c: Call) { c.pc == QueuedMutex }

  ghost predicate NoDup(s: seq<nat>) { forall i, j :: 0 <= i < j < |s| ==> s[i] != s[j] }

  /** The queue of a semaphore holds exactly the calls queued on it; a positive value means none. */
  ghost predicate QueueOk(sem: Sem, calls: seq<Call>, queued: Call -> bool) {
    && NoDup(sem.waiting)
    && (forall t :: t in sem.waiting <==> 0 <= t < |calls| && queued(calls[t]))
    && (sem.value > 0 ==> sem.waiting == [])
  }

  /** Bytes put by call t, in order. */
  ghost function StoredBy(stored: seq<(nat, char)>, t: nat): seq<char> {
    if stored == [] then []
    else
      var n := |stored| - 1;
      StoredBy(stored[..n], t) + (if stored[n].0 == t then [stored[n].1] else [])
  }

  /** Bytes taken by call t, in order. */
  ghost function TakenBy(stored: seq<(nat, char)>, gone: seq<Option<nat>>, t: nat): seq<char>
    requires |gone| <= |stored|
  {
    if gone == [] then []
    else
      var n := |gone| - 1;
      TakenBy(stored, gone[..n], t) + (if gone[n] == Some(t) then [stored[n].1] else [])
  }

  /** Iterations of its loop in which call c has passed the critical section. */
  function Passed(c: Call): nat { if c.pc in {Unlock, GiveToken} then c.i + 1 else c.i }

  /** What call t has moved so far, whatever else ran in between. */
  ghost predicate CallOk(stored: seq<(nat, char)>, gone: seq<Option<nat>>, clears: nat, t: nat, c: Call)
    requires |gone| <= |stored|
  {
    && |c.bytes| == c.size
    && (c.role == Clearer ==> c.pc !in {AskToken, QueuedToken, GiveToken})
    && (c.role != Clearer ==> (c.pc == Returned ==> c.i == c.size) && (c.pc != Returned ==> c.i < c.size))
    && c.moved <= c.size
    && (c.role == Writer ==> c.moved == Passed(c) && StoredBy(stored, t) == c.bytes[..c.moved])
    && (c.role != Writer ==> StoredBy(stored, t) == [])
    && (c.role != Reader ==> TakenBy(stored, gone, t) == [])
    && (c.role == Reader ==> c.moved <= Passed(c) && |TakenBy(stored, gone, t)| == c.moved)
    && (c.role == Reader && clears == 0 ==> c.moved == Passed(c) && TakenBy(stored, gone, t) == c.bytes[..c.moved])
  }

  ghost predicate CallsOk(stored: seq<(nat, char)>, gone: seq<Option<nat>>, clears: nat, calls: seq<Call>) {
    && |gone| <= |stored|
    && (forall t {:trigger CallOk(stored, gone, clears, t, calls[t])} :: 0 <= t < |calls| ==>
          CallOk(stored, gone, clears, t, calls[t]))
  }

  /** The ring holds the bytes stored and not yet gone, oldest first. */
  ghost predicate HistoryOk(ring: Ring, stored: seq<(nat, char)>, gone: seq<Option<nat>>, clears: nat, n: nat) {
    && RingOk(ring)
    && |stored| == |gone| + ring.count
    && (forall q :: 0 <= q < ring.count ==> Held(ring)[q] == stored[|gone| + q].1)
    && (clears == 0 ==> forall j :: 0 <= j < |gone| ==> gone[j] != None)
    && (forall j :: 0 <= j < |stored| ==> stored[j].0 < n)
    && (forall j :: 0 <= j < |gone| ==> gone[j] == None || gone[j].value < n)
  }

  ghost predicate Tokens(s: System) {
    && s.semReaders.value + s.semWriters.value + Count(s.calls, InFlight) == PIPE_BUFFER_SIZE
    && s.mutex.value + Count(s.calls, Holding) == 1
    && s.ring.count <= s.semReaders.value + Count(s.calls, StoredNotPosted) + Count(s.calls, AdmittedNotRead)
    && (s.clears == 0 ==>
          s.ring.count == s.semReaders.value + Count(s.calls, StoredNotPosted) + Count(s.calls, AdmittedNotRead))
  }

  ghost predicate QueuesOk(s: System) {
    && QueueOk(s.semReaders, s.calls, ReaderQueued)
    && QueueOk(s.semWriters, s.calls, WriterQueued)
    && QueueOk(s.mutex, s.calls, MutexQueued)
  }

  ghost predicate Inv(s: System) {
    && QueuesOk(s) && Tokens(s)
    && HistoryOk(s.ring, s.stored, s.gone, s.clears, |s.calls|)
    && CallsOk(s.stored, s.gone, s.clears, s.calls)
  }
}

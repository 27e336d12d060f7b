/** The counter of the synchronisation test: any number of workers, each adding its increment
    n times by a read, a yield and a write, with or without the semaphore around it. */
module SharedCounter {
  import opened Options
  import opened Semaphores

  const WORD: int := 0x1_0000_0000_0000_0000   // the counter is a 64-bit word

  datatype Pc = Ask | Queued | Read | Write | Give | Done

  /** inc is added n times; i additions are complete; aux is what was read before the yield. */
  datatype Worker = Worker(inc: int, n: nat, pc: Pc, i: nat, aux: int)

  datatype System = System(guarded: bool, sem: Sem, counter: int, workers: seq<Worker>, holder: Option<nat>)

  function Start(inc: int, n: nat): Worker { Worker(inc, n, if n == 0 then Done else Ask, 0, 0) }

  function SetPc(s: System, w: nat, pc: Pc): System {
    if w < |s.workers| then s.(workers := s.workers[w := s.workers[w].(pc := pc)]) else s
  }

  function Admit(s: System, w: nat): System { SetPc(s.(holder := Some(w)), w, Read) }

  function AskStep(s: System, w: nat): System {
    if !s.guarded then SetPc(s, w, Read)
    else if Grants(s.sem) then Admit(s.(sem := Wait(s.sem, w)), w)
    else SetPc(s.(sem := Wait(s.sem, w)), w, Queued)
  }

  /** The worker is past its addition. */
  function Leave(s: System, w: nat): System
    requires w < |s.workers|
  {
    var c := s.workers[w];
    s.(workers := s.workers[w := c.(i := c.i + 1, pc := if c.i + 1 < c.n then Ask else Done)])
  }

  /** post(): the first waiter, if any, goes in. */
  function Handover(s: System): System {
    var v := s.(sem := Post(s.sem), holder := None);
    if s.sem.waiting != [] then Admit(v, s.sem.waiting[0]) else v
  }

  function GiveStep(s: System, w: nat): System
    requires w < |s.workers|
  {
    if s.guarded then Handover(Leave(s, w)) else Leave(s, w)
  }

  /** One step of worker w; nothing while it waits or when it is done. */
  function Next(s: System, w: nat): System {
    if w >= |s.workers| then s
    else
      var c := s.workers[w];
      match c.pc
      case Ask => AskStep(s, w)
      case Read => s.(workers := s.workers[w := c.(pc := Write, aux := s.counter)])
      case Write => s.(counter := (c.aux + c.inc) % WORD, workers := s.workers[w := c.(pc := Give)])
      case Give => GiveStep(s, w)
      case _ => s
  }

  function Run(s: System, ws: seq<nat>): System
    decreases |ws|
  {
    if ws == [] then s else Run(Next(s, ws[0]), ws[1..])
  }

  /** pairs workers that decrement n times and as many that increment n times, as the test starts them. */
  function Pairs(pairs: nat, n: nat): seq<Worker> {
    if pairs == 0 then [] else Pairs(pairs - 1, n) + [Start(-1, n), Start(1, n)]
  }

  function Begin(guarded: bool, workers: seq<Worker>): System { System(guarded, Sem(1, []), 0, workers, None) }

  // ---------------------------------------------------------------- what has been added

  function Added(c: Worker): int { c.inc * (if c.pc == Give then c.i + 1 else c.i) }

  function Total(ws: seq<Worker>): int {
    if ws == [] then 0 else Total(ws[..|ws| - 1]) + Added(ws[|ws| - 1])
  }

  lemma {:induction false} TotalUpdate(ws: seq<Worker>, w: nat, c: Worker)
    requires w < |ws|
    ensures Total(ws[w := c]) == Total(ws) - Added(ws[w]) + Added(c)
  {
    var n := |ws| - 1;
    if w == n {
      assert ws[w := c][..n] == ws[..n];
    } else {
      assert ws[w := c][..n] == ws[..n][w := c];
      TotalUpdate(ws[..n], w, c);
    }
  }

  // ---------------------------------------------------------------- the invariant

  predicate Inside(c: Worker) { c.pc in {Read, Write, Give} }

  ghost predicate NoDup(s: seq<nat>) { forall i, j :: 0 <= i < j < |s| ==> s[i] != s[j] }

  ghost predicate WorkerOk(s: System, w: nat)
    requires w < |s.workers|
  {
    var c := s.workers[w];
    && (Inside(c) <==> s.holder == Some(w))
    && (c.pc == Queued <==> w in s.sem.waiting)
    && (c.pc == Write ==> c.aux == s.counter)
    && (c.pc == Done ==> c.i == c.n) && (c.pc != Done ==> c.i < c.n)
  }

  ghost predicate Inv(s: System) {
    && s.guarded
    && s.sem.value == (if s.holder == None then 1 else 0)
    && (s.holder == None ==> s.sem.waiting == [])
    && (s.holder.Some? ==> s.holder.value < |s.workers|)
    && NoDup(s.sem.waiting) && (forall w :: w in s.sem.waiting ==> w < |s.workers|)
    && (forall w {:trigger WorkerOk(s, w)} :: 0 <= w < |s.workers| ==> WorkerOk(s, w))
    && s.counter == Total(s.workers) % WORD
  }

  lemma AddMod(a: int, b: int)
    ensures (a % WORD + b) % WORD == (a + b) % WORD
  {
    var q := a / WORD;
    var x, y := a % WORD + b, a + b;
    assert y == x + WORD * q;
    assert y == WORD * (x / WORD + q) + x % WORD;
  }

  lemma AskKeeps(s: System, w: nat)
    requires Inv(s) && w < |s.workers| && s.workers[w].pc == Ask
    ensures Inv(AskStep(s, w))
  {
    var u := AskStep(s, w);
    TotalUpdate(s.workers, w, u.workers[w]);
    assert WorkerOk(s, w);
    forall x | 0 <= x < |u.workers| ensures WorkerOk(u, x) {
      assert WorkerOk(s, x);
    }
  }

  lemma TouchKeeps(s: System, w: nat)
    requires Inv(s) && w < |s.workers| && s.workers[w].pc in {Read, Write}
    ensures Inv(Next(s, w))
  {
    var u := Next(s, w);
    TotalUpdate(s.workers, w, u.workers[w]);
    assert WorkerOk(s, w);
    AddMod(Total(s.workers), s.workers[w].inc);
    assert s.workers[w].inc * (s.workers[w].i + 1) == s.workers[w].inc * s.workers[w].i + s.workers[w].inc;
    forall x | 0 <= x < |u.workers| ensures WorkerOk(u, x) {
      assert WorkerOk(s, x);
    }
  }

  /** Nobody inside, the token not yet given on. */
  ghost predicate Between(s: System) {
    && s.guarded && s.sem.value == 0 && s.holder == None
    && NoDup(s.sem.waiting) && (forall w :: w in s.sem.waiting ==> w < |s.workers|)
    && (forall w {:trigger WorkerOk(s, w)} :: 0 <= w < |s.workers| ==> WorkerOk(s, w))
    && s.counter == Total(s.workers) % WORD
  }

  lemma LeaveKeeps(s: System, w: nat)
    requires Inv(s) && w < |s.workers| && s.workers[w].pc == Give
    ensures Between(Leave(s, w).(holder := None))
  {
    var u := Leave(s, w).(holder := None);
    TotalUpdate(s.workers, w, u.workers[w]);
    assert WorkerOk(s, w);
    forall x | 0 <= x < |u.workers| ensures WorkerOk(u, x) {
      assert WorkerOk(s, x);
    }
  }

  lemma HandoverKeeps(s: System)
    requires Between(s)
    ensures Inv(Handover(s))
  {
    var u := Handover(s);
    if s.sem.waiting != [] {
      var w := s.sem.waiting[0];
      assert w in s.sem.waiting && w !in s.sem.waiting[1..];
      assert WorkerOk(s, w);
      TotalUpdate(s.workers, w, u.workers[w]);
      forall y | y in u.sem.waiting ensures y < |u.workers| {
        assert y in s.sem.waiting;
      }
    }
    forall x | 0 <= x < |u.workers| ensures WorkerOk(u, x) {
      assert WorkerOk(s, x);
      assert s.sem.waiting != [] ==> (x in s.sem.waiting <==> x == s.sem.waiting[0] || x in s.sem.waiting[1..]);
    }
  }

  lemma GiveKeeps(s: System, w: nat)
    requires Inv(s) && w < |s.workers| && s.workers[w].pc == Give
    ensures Inv(GiveStep(s, w))
  {
    assert WorkerOk(s, w);
    LeaveKeeps(s, w);
    HandoverKeeps(Leave(s, w).(holder := None));
    assert GiveStep(s, w) == Handover(Leave(s, w).(holder := None));
  }

  lemma NextKeeps(s: System, w: nat)
    requires Inv(s)
    ensures Inv(Next(s, w))
  {
    if w < |s.workers| {
      match s.workers[w].pc
      case Ask => AskKeeps(s, w);
      case Read => TouchKeeps(s, w);
      case Write => TouchKeeps(s, w);
      case Give => GiveKeeps(s, w);
      case _ =>
    }
  }

  lemma {:induction false} RunKeeps(s: System, ws: seq<nat>)
    requires Inv(s)
    ensures Inv(Run(s, ws))
    decreases |ws|
  {
    if ws != [] {
      NextKeeps(s, ws[0]);
      RunKeeps(Next(s, ws[0]), ws[1..]);
    }
  }

  lemma {:induction false} FreshTotal(ws: seq<Worker>)
    requires forall w :: 0 <= w < |ws| ==> ws[w].i == 0 && ws[w].pc != Give
    ensures Total(ws) == 0
  {
    if ws != [] {
      FreshTotal(ws[..|ws| - 1]);
    }
  }

  lemma BeginInv(ws: seq<Worker>)
    requires forall w :: 0 <= w < |ws| ==> ws[w] == Start(ws[w].inc, ws[w].n)
    ensures Inv(Begin(true, ws))
  {
    FreshTotal(ws);
    var s := Begin(true, ws);
    forall w | 0 <= w < |ws| ensures WorkerOk(s, w) {
      assert ws[w] == Start(ws[w].inc, ws[w].n);
    }
  }

  /** With the semaphore, for any workers and any interleaving: the counter is the exact sum of
      the additions written so far (as a 64-bit word), and at most one worker is between its
      read and its write. */
  lemma NoUpdateLost(workers: seq<Worker>, ws: seq<nat>)
    requires forall w :: 0 <= w < |workers| ==> workers[w] == Start(workers[w].inc, workers[w].n)
    ensures var s := Run(Begin(true, workers), ws);
            && s.counter == Total(s.workers) % WORD
            && (forall v, w :: 0 <= v < w < |s.workers| ==> !(Inside(s.workers[v]) && Inside(s.workers[w])))
  {
    BeginInv(workers);
    RunKeeps(Begin(true, workers), ws);
    var s := Run(Begin(true, workers), ws);
    forall v, w | 0 <= v < w < |s.workers| ensures !(Inside(s.workers[v]) && Inside(s.workers[w])) {
      assert WorkerOk(s, v) && WorkerOk(s, w);
    }
  }

  /** Workers keep what they were started with. */
  lemma {:induction false} RunFrame(s: System, ws: seq<nat>)
    ensures |Run(s, ws).workers| == |s.workers|
    ensures forall w :: 0 <= w < |s.workers| ==>
              Run(s, ws).workers[w].inc == s.workers[w].inc && Run(s, ws).workers[w].n == s.workers[w].n
    decreases |ws|
  {
    if ws != [] {
      RunFrame(Next(s, ws[0]), ws[1..]);
    }
  }

  /** Workers started with these increments and numbers of rounds. */
  function Started(asked: seq<(int, nat)>): seq<Worker> {
    seq(|asked|, w requires 0 <= w < |asked| => Start(asked[w].0, asked[w].1))
  }

  /** What they were asked to add in all. */
  function Asked(asked: seq<(int, nat)>): int {
    if asked == [] then 0 else Asked(asked[..|asked| - 1]) + asked[|asked| - 1].0 * asked[|asked| - 1].1
  }

  lemma {:induction false} FinishedTotal(ws: seq<Worker>, asked: seq<(int, nat)>)
    requires |ws| == |asked|
    requires forall w :: 0 <= w < |ws| ==>
               ws[w].inc == asked[w].0 && ws[w].n == asked[w].1 && ws[w].pc == Done && ws[w].i == ws[w].n
    ensures Total(ws) == Asked(asked)
  {
    if ws != [] {
      FinishedTotal(ws[..|ws| - 1], asked[..|ws| - 1]);
    }
  }

  /** For any workers, each asked to add its increment a number of times, and any interleaving:
      once all are done the counter is the sum of what was asked, as a 64-bit word. */
  lemma FinalValue(asked: seq<(int, nat)>, ws: seq<nat>)
    requires forall w :: 0 <= w < |Run(Begin(true, Started(asked)), ws).workers| ==>
               Run(Begin(true, Started(asked)), ws).workers[w].pc == Done
    ensures Run(Begin(true, Started(asked)), ws).counter == Asked(asked) % WORD
  {
    BeginInv(Started(asked));
    RunKeeps(Begin(true, Started(asked)), ws);
    RunFrame(Begin(true, Started(asked)), ws);
    var s := Run(Begin(true, Started(asked)), ws);
    forall w | 0 <= w < |s.workers| ensures s.workers[w].i == s.workers[w].n {
      assert WorkerOk(s, w);
    }
    FinishedTotal(s.workers, asked);
  }

  lemma {:induction false} FinishedPairs(pairs: nat, n: nat, ws: seq<Worker>)
    requires |ws| == |Pairs(pairs, n)|
    requires forall w :: 0 <= w < |ws| ==>
               && ws[w].inc == Pairs(pairs, n)[w].inc && ws[w].n == Pairs(pairs, n)[w].n
               && ws[w].pc == Done && ws[w].i == ws[w].n
    ensures Total(ws) == 0
  {
    if pairs > 0 {
      var k := |Pairs(pairs - 1, n)|;
      assert |ws| == k + 2;
      assert ws[..k + 1][..k] == ws[..k];
      assert Pairs(pairs, n)[k] == Start(-1, n) && Pairs(pairs, n)[k + 1] == Start(1, n);
      assert Total(ws) == Total(ws[..k]) + Added(ws[k]) + Added(ws[k + 1]);
      FinishedPairs(pairs - 1, n, ws[..k]);
    }
  }

  lemma {:induction false} PairsStart(pairs: nat, n: nat, w: nat)
    requires w < |Pairs(pairs, n)|
    ensures Pairs(pairs, n)[w] == Start(Pairs(pairs, n)[w].inc, Pairs(pairs, n)[w].n)
  {
    if pairs > 0 && w < |Pairs(pairs - 1, n)| {
      PairsStart(pairs - 1, n, w);
    }
  }

  /** The test's verdict: for every number of pairs, every count and every interleaving that
      lets all workers finish, the counter ends at 0. */
  lemma FinalValueIsZero(pairs: nat, n: nat, ws: seq<nat>)
    requires forall w :: 0 <= w < |Run(Begin(true, Pairs(pairs, n)), ws).workers| ==>
               Run(Begin(true, Pairs(pairs, n)), ws).workers[w].pc == Done
    ensures Run(Begin(true, Pairs(pairs, n)), ws).counter == 0
  {
    forall w | 0 <= w < |Pairs(pairs, n)| ensures Pairs(pairs, n)[w] == Start(Pairs(pairs, n)[w].inc, Pairs(pairs, n)[w].n) {
      PairsStart(pairs, n, w);
    }
    BeginInv(Pairs(pairs, n));
    RunKeeps(Begin(true, Pairs(pairs, n)), ws);
    RunFrame(Begin(true, Pairs(pairs, n)), ws);
    var s := Run(Begin(true, Pairs(pairs, n)), ws);
    forall w | 0 <= w < |s.workers| ensures s.workers[w].i == s.workers[w].n {
      assert WorkerOk(s, w);
    }
    FinishedPairs(pairs, n, s.workers);
  }

  /** Some worker can always move until all are done: the semaphore never strands them. */
  lemma NobodyStranded(s: System)
    requires Inv(s) && (forall w :: 0 <= w < |s.workers| ==> s.workers[w].pc in {Queued, Done})
    ensures forall w :: 0 <= w < |s.workers| ==> s.workers[w].pc == Done
  {
    forall w | 0 <= w < |s.workers| ensures s.workers[w].pc == Done {
      assert WorkerOk(s, w);
      if s.holder.Some? {
        assert WorkerOk(s, s.holder.value);
      }
    }
  }

  /** Without the semaphore, one pair counting once can end at 1: both read 0, and the write of
      the increment comes last. */
  lemma UnguardedLosesAnUpdate()
    ensures var s := Run(Begin(false, Pairs(1, 1)), [0, 1, 0, 1, 0, 1, 0, 1]);
            && (forall w :: 0 <= w < |s.workers| ==> s.workers[w].pc == Done)
            && s.counter == 1
  {
    var s0 := Begin(false, [Start(-1, 1), Start(1, 1)]);
    assert Pairs(1, 1) == Pairs(0, 1) + [Start(-1, 1), Start(1, 1)];
    var s1 := Next(s0, 0); var s2 := Next(s1, 1); var s3 := Next(s2, 0); var s4 := Next(s3, 1);
    var s5 := Next(s4, 0); var s6 := Next(s5, 1); var s7 := Next(s6, 0); var s8 := Next(s7, 1);
    assert s4.workers == [Worker(-1, 1, Write, 0, 0), Worker(1, 1, Write, 0, 0)];
    assert s8.workers == [Worker(-1, 1, Done, 1, 0), Worker(1, 1, Done, 1, 0)] && s8.counter == 1;
    assert Run(s7, [1]) == Run(s8, []) == s8;
    assert Run(s6, [0, 1]) == Run(s7, [1]);
    assert Run(s5, [1, 0, 1]) == Run(s6, [0, 1]);
    assert Run(s4, [0, 1, 0, 1]) == Run(s5, [1, 0, 1]);
    assert Run(s3, [1, 0, 1, 0, 1]) == Run(s4, [0, 1, 0, 1]);
    assert Run(s2, [0, 1, 0, 1, 0, 1]) == Run(s3, [1, 0, 1, 0, 1]);
    assert Run(s1, [1, 0, 1, 0, 1, 0, 1]) == Run(s2, [0, 1, 0, 1, 0, 1]);
    assert Run(s0, [0, 1, 0, 1, 0, 1, 0, 1]) == Run(s1, [1, 0, 1, 0, 1, 0, 1]);
  }
}

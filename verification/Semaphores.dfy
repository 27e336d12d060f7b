/** The kernel's counting semaphore: a value and a queue of waiting processes, with the
    token handed straight to the first waiter. */
module Semaphores {
  import Queues
  import opened Options

  const WRAP: nat := 0x1_0000_0000   // the value is an unsigned 32-bit field

  datatype Sem = Sem(value: nat, waiting: seq<nat>)

  /** wait() by t takes a token, or queues t. */
  function Wait(s: Sem, t: nat): Sem {
    if s.value > 0 then s.(value := s.value - 1) else s.(waiting := s.waiting + [t])
  }

  predicate Grants(s: Sem) { s.value > 0 }

  /** post() hands its token to the first waiter, or else raises the value. */
  function Post(s: Sem): Sem {
    if s.waiting != [] then s.(waiting := s.waiting[1..]) else s.(value := (s.value + 1) % WRAP)
  }

  // ---------------------------------------------------------------- runs

  datatype Event = WaitBy(t: nat) | PostBy(t: nat)

  /** A semaphore with the history of its calls: who asked, who was granted, how many posts,
      and how often the value overflowed. */
  datatype Trace = Trace(sem: Sem, initial: nat, asked: seq<nat>, granted: seq<nat>, posts: nat, overflows: nat)

  function Step(r: Trace, e: Event): Trace {
    match e
    case WaitBy(t) =>
      r.(sem := Wait(r.sem, t), asked := r.asked + [t],
         granted := if Grants(r.sem) then r.granted + [t] else r.granted)
    case PostBy(_) =>
      if r.sem.waiting != [] then
        r.(sem := Post(r.sem), posts := r.posts + 1, granted := r.granted + [r.sem.waiting[0]])
      else
        r.(sem := Post(r.sem), posts := r.posts + 1,
           overflows := if r.sem.value + 1 == WRAP then r.overflows + 1 else r.overflows)
  }

  function Run(r: Trace, es: seq<Event>): Trace
    decreases |es|
  {
    if es == [] then r else Run(Step(r, es[0]), es[1..])
  }

  function Opened(value: nat): Trace { Trace(Sem(value, []), value, [], [], 0, 0) }

  ghost predicate FifoInv(r: Trace) {
    && r.asked == r.granted + r.sem.waiting
    && (r.sem.value > 0 ==> r.sem.waiting == [])
    && r.sem.value < WRAP
    && r.initial + r.posts == r.sem.value + |r.granted| + WRAP * r.overflows
  }

  lemma StepKeepsFifo(r: Trace, e: Event)
    requires FifoInv(r)
    ensures FifoInv(Step(r, e)) && Step(r, e).initial == r.initial
    ensures Step(r, e).posts == r.posts + (if e.PostBy? then 1 else 0)
  {
    if e.PostBy? && r.sem.waiting != [] {
      assert r.sem.waiting == [r.sem.waiting[0]] + r.sem.waiting[1..];
    }
  }

  /** In every run: processes are granted in the order they asked, those not yet granted are
      exactly the ones waiting, a positive value means nobody waits, and initial value plus
      posts is value plus grants, until the 32-bit value overflows. */
  lemma {:induction false} EveryRunIsFifo(r: Trace, es: seq<Event>)
    requires FifoInv(r)
    ensures FifoInv(Run(r, es))
    ensures Run(r, es).initial == r.initial && Run(r, es).posts <= r.posts + |es|
    decreases |es|
  {
    if es != [] {
      StepKeepsFifo(r, es[0]);
      EveryRunIsFifo(Step(r, es[0]), es[1..]);
    }
  }

  /** No run shorter than 2^32 - initial loses a token. */
  lemma TokensConserved(value: nat, es: seq<Event>)
    requires value + |es| < WRAP
    ensures var q := Run(Opened(value), es);
            && q.asked == q.granted + q.sem.waiting
            && value + q.posts == q.sem.value + |q.granted|
  {
    EveryRunIsFifo(Opened(value), es);
  }

  /** The bound is sharp: one post on a full value loses every token. */
  lemma OverflowLosesTokens()
    ensures var q := Run(Opened(WRAP - 1), [PostBy(0)]);
            q.initial + q.posts == WRAP && q.sem.value == 0 && q.granted == []
  {
    assert Run(Opened(WRAP - 1), [PostBy(0)]) == Run(Step(Opened(WRAP - 1), PostBy(0)), []);
  }

  // ---------------------------------------------------------------- paired use

  /** A semaphore and the processes that were granted a token and have not posted it back. */
  datatype Use = Use(sem: Sem, inside: multiset<nat>)

  function UseStep(u: Use, e: Event): Use {
    match e
    case WaitBy(t) => Use(Wait(u.sem, t), if Grants(u.sem) then u.inside + multiset{t} else u.inside)
    case PostBy(t) =>
      var left := u.inside - multiset{t};
      Use(Post(u.sem), if u.sem.waiting != [] then left + multiset{u.sem.waiting[0]} else left)
  }

  function UseRun(u: Use, es: seq<Event>): Use
    decreases |es|
  {
    if es == [] then u else UseRun(UseStep(u, es[0]), es[1..])
  }

  /** Every post gives back a token its process holds. */
  ghost predicate Paired(u: Use, es: seq<Event>)
    decreases |es|
  {
    es == [] || ((es[0].PostBy? ==> es[0].t in u.inside) && Paired(UseStep(u, es[0]), es[1..]))
  }

  /** However long the run, tokens are neither made nor lost, and the value never overflows. */
  lemma {:induction false} PairedKeepsTokens(u: Use, es: seq<Event>, tokens: nat)
    requires u.sem.value + |u.inside| == tokens < WRAP && Paired(u, es)
    ensures UseRun(u, es).sem.value + |UseRun(u, es).inside| == tokens
    decreases |es|
  {
    if es != [] {
      PairedKeepsTokens(UseStep(u, es[0]), es[1..], tokens);
    }
  }

  /** A semaphore opened with 1 excludes: in every paired run, of any length, at most one process
      is between its wait and its post, and nobody is when the value is 1. */
  lemma MutualExclusion(es: seq<Event>, p: nat, q: nat)
    requires Paired(Use(Sem(1, []), multiset{}), es)
    ensures var u := UseRun(Use(Sem(1, []), multiset{}), es);
            && (p in u.inside && q in u.inside ==> p == q && u.inside == multiset{p} && u.sem.value == 0)
            && (u.sem.value == 1 <==> u.inside == multiset{})
  {
    PairedKeepsTokens(Use(Sem(1, []), multiset{}), es, 1);
    var m := UseRun(Use(Sem(1, []), multiset{}), es).inside;
    if p in m {
      assert m == m - multiset{p} + multiset{p};
    }
  }

  // ---------------------------------------------------------------- the semaphore in memory

  class Semaphore {
    var value: nat
    var lock: bool
    var used: bool
    const blocked: Queues.Queue<nat>

    ghost predicate Valid()
      reads this, blocked, blocked.Repr
    {
      blocked.Valid() && this !in blocked.Repr && !lock && value < WRAP
    }

    ghost function View(): Sem
      reads this, blocked
    {
      Sem(value, blocked.Contents())
    }

    constructor (value: nat)
      requires value < WRAP
      ensures Valid() && View() == Sem(value, []) && used && fresh(blocked.Repr)
    {
      this.value, lock, used := value, false, true;
      blocked := new Queues.Queue();
    }

    /** wait() by pid: `blocks` tells that the caller now waits; -1 when no memory is left to
        queue it, and then nothing has changed. */
    method WaitFor(pid: nat, memoryLeft: bool) returns (r: int, blocks: bool)
      requires Valid()
      modifies this`value, this`lock, blocked.Repr
      ensures Valid() && fresh(blocked.Repr - old(blocked.Repr))
      ensures old(value) > 0 || memoryLeft ==> View() == Wait(old(View()), pid) && r == 0 && blocks == !Grants(old(View()))
      ensures old(value) == 0 && !memoryLeft ==> View() == old(View()) && r == -1 && !blocks
    {
      lock := true;
      if value > 0 {
        value := value - 1;
        lock := false;
        return 0, false;
      }
      if !memoryLeft {
        lock := false;
        return -1, false;
      }
      var _ := blocked.Enqueue(pid, true);
      lock := false;
      return 0, true;
    }

    /** post(): the process to unblock, if any. */
    method PostOne() returns (woken: Option<nat>)
      requires Valid()
      modifies this`value, this`lock, blocked.Repr
      ensures Valid() && blocked.Repr == old(blocked.Repr) && View() == Post(old(View()))
      ensures woken == (if old(View()).waiting == [] then None else Some(old(View()).waiting[0]))
    {
      lock := true;
      woken := blocked.Dequeue();
      if woken.Some? {
        lock := false;
        return;
      }
      value := (value + 1) % WRAP;
      lock := false;
    }
  }
}

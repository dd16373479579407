/**
 The reference-counted order lock: `LockOrder(tradeNo)` / `UnlockOrder(tradeNo)`.

 Every shared-memory access of the two routines is one atomic step of one thread,
 and any thread may step at any time.  A Go mutex has no owner, so a mutex is just
 a `locked` bit: mutual exclusion, "the unlocking thread's lookup finds the mutex it
 locked" and "no unlock of an unlocked mutex" are theorems about all runs.
 */
module OrderLock {

  type Ref = nat

  /** A `refCountedMutex`; a `Ref` is its address in `State.heap`. */
  datatype Rcm = Rcm(locked: bool, refCount: int)

  /** Where a thread is.  In `Holding`, `r` is history: no step reads it. */
  datatype Pc =
    | Idle
    | LkCreate(n: string)          // about to createLock.Lock()
    | LkLoad(n: string)            // about to load or store the map entry
    | LkCount(n: string, r: Ref)   // about to refCount++
    | LkLeave(n: string, r: Ref)   // about to createLock.Unlock()
    | LkMu(n: string, r: Ref)      // about to rcm.mu.Lock()
    | Holding(n: string, r: Ref)   // between LockOrder(n) and UnlockOrder(n)
    | UnMu(n: string, r: Ref)      // looked up; about to rcm.mu.Unlock()
    | UnCreate(n: string, r: Ref)  // about to createLock.Lock()
    | UnCount(n: string, r: Ref)   // about to refCount--
    | UnTest(n: string, r: Ref)    // about to delete the entry if refCount is 0
    | UnLeave(n: string)           // about to createLock.Unlock()
    | Panicked                     // unlocked a mutex that was not locked

  datatype State = State(createLocked: bool, orderLocks: map<string, Ref>, heap: seq<Rcm>, threads: seq<Pc>)

  predicate HasRef(pc: Pc) {
    pc.LkCount? || pc.LkLeave? || pc.LkMu? || pc.Holding? || pc.UnMu? || pc.UnCreate? || pc.UnCount? || pc.UnTest?
  }

  /** Inside a createLock section. */
  predicate InCreate(pc: Pc) {
    pc.LkLoad? || pc.LkCount? || pc.LkLeave? || pc.UnCount? || pc.UnTest? || pc.UnLeave?
  }

  /** Counted by the reference count of `n`: waiting, holding, or not yet decremented. */
  predicate Counted(pc: Pc, n: string) {
    (pc.LkLeave? || pc.LkMu? || pc.Holding? || pc.UnMu? || pc.UnCreate? || pc.UnCount?) && pc.n == n
  }

  /** Owns the per-order mutex of `n`. */
  predicate Owns(pc: Pc, n: string) {
    (pc.Holding? || pc.UnMu?) && pc.n == n
  }

  /** Somewhere between entering `LockOrder(n)` and the map cleanup of `UnlockOrder(n)`. */
  predicate InFlight(pc: Pc, n: string) {
    !pc.Idle? && !pc.Panicked? && pc.n == n
  }

  /** Every pointer in use points into the heap. */
  predicate Refs(s: State) {
    && (forall n :: n in s.orderLocks ==> s.orderLocks[n] < |s.heap|)
    && (forall t :: 0 <= t < |s.threads| && HasRef(s.threads[t]) ==> s.threads[t].r < |s.heap|)
  }

  ghost predicate Init(s: State) {
    && !s.createLocked && s.orderLocks == map[] && s.heap == []
    && forall t :: 0 <= t < |s.threads| ==> s.threads[t].Idle?
  }

  /** What a thread does: enter `LockOrder(n)` when idle, or execute its next instruction. */
  datatype Event = Call(name: string) | Go

  function At(s: State, t: nat, pc: Pc): State
    requires t < |s.threads|
  {
    s.(threads := s.threads[t := pc])
  }

  predicate Enabled(s: State, t: nat, e: Event)
    requires t < |s.threads| && Refs(s)
  {
    var pc := s.threads[t];
    if e.Call? then pc.Idle?
    else match pc
      case Idle => false
      case Panicked => false
      case LkCreate(_) => !s.createLocked
      case UnCreate(_, _) => !s.createLocked
      case LkMu(_, r) => !s.heap[r].locked
      case _ => true
  }

  /** One atomic step of thread `t`. */
  function Exec(s: State, t: nat, e: Event): State
    requires t < |s.threads| && Refs(s) && Enabled(s, t, e)
  {
    if e.Call? then At(s, t, LkCreate(e.name))
    else match s.threads[t]
      case LkCreate(n) => At(s.(createLocked := true), t, LkLoad(n))
      case LkLoad(n) =>
        if n in s.orderLocks then At(s, t, LkCount(n, s.orderLocks[n]))
        else At(s.(orderLocks := s.orderLocks[n := |s.heap|], heap := s.heap + [Rcm(false, 0)]), t,
            LkCount(n, |s.heap|))
      case LkCount(n, r) =>
        At(s.(heap := s.heap[r := s.heap[r].(refCount := s.heap[r].refCount + 1)]), t, LkLeave(n, r))
      case LkLeave(n, r) => At(s.(createLocked := false), t, LkMu(n, r))
      case LkMu(n, r) => At(s.(heap := s.heap[r := s.heap[r].(locked := true)]), t, Holding(n, r))
      case Holding(n, _) =>
        if n in s.orderLocks then At(s, t, UnMu(n, s.orderLocks[n])) else At(s, t, Idle)
      case UnMu(n, r) =>
        if s.heap[r].locked
        then At(s.(heap := s.heap[r := s.heap[r].(locked := false)]), t, UnCreate(n, r))
        else At(s, t, Panicked)
      case UnCreate(n, r) => At(s.(createLocked := true), t, UnCount(n, r))
      case UnCount(n, r) =>
        At(s.(heap := s.heap[r := s.heap[r].(refCount := s.heap[r].refCount - 1)]), t, UnTest(n, r))
      case UnTest(n, r) =>
        At(if s.heap[r].refCount == 0 then s.(orderLocks := s.orderLocks - {n}) else s, t, UnLeave(n))
      case UnLeave(n) => At(s.(createLocked := false), t, Idle)
  }

  predicate Step(s: State, t: nat, e: Event, s': State) {
    t < |s.threads| && Refs(s) && Enabled(s, t, e) && s' == Exec(s, t, e)
  }

  datatype Choice = Choice(t: nat, e: Event)

  /** `run` is an execution following `sched`, one state longer than it. */
  ghost predicate IsRun(run: seq<State>, sched: seq<Choice>) {
    && |run| == |sched| + 1
    && forall i :: 0 <= i < |sched| ==> Step(run[i], sched[i].t, sched[i].e, run[i + 1])
  }

  /** Number of threads counted for `n`. */
  function Count(ts: seq<Pc>, n: string): nat {
    if ts == [] then 0
    else Count(ts[..|ts| - 1], n) + if Counted(ts[|ts| - 1], n) then 1 else 0
  }

  lemma {:induction false} CountUpdate(ts: seq<Pc>, t: nat, pc: Pc, n: string)
    requires t < |ts|
    ensures Count(ts[t := pc], n) ==
            Count(ts, n) + (if Counted(pc, n) then 1 else 0) - (if Counted(ts[t], n) then 1 else 0)
  {
    var k := |ts| - 1;
    if t == k {
      assert ts[t := pc][..k] == ts[..k];
    } else {
      assert ts[t := pc][..k] == ts[..k][t := pc];
      CountUpdate(ts[..k], t, pc, n);
    }
  }

  lemma {:induction false} CountPositive(ts: seq<Pc>, n: string)
    ensures Count(ts, n) > 0 <==> exists t :: 0 <= t < |ts| && Counted(ts[t], n)
  {
    if ts != [] {
      var k := |ts| - 1;
      CountPositive(ts[..k], n);
      if t :| 0 <= t < |ts| && Counted(ts[t], n) {
        assert t < k ==> Counted(ts[..k][t], n);
      }
    }
  }

  // ---------------------------------------------------------------- invariant

  /** createLock is held by exactly the one thread inside a createLock section. */
  ghost predicate CreateInv(s: State) {
    && (forall t, u | 0 <= t < |s.threads| && 0 <= u < |s.threads| ::
          InCreate(s.threads[t]) && InCreate(s.threads[u]) ==> t == u)
    && (s.createLocked <==> exists t :: 0 <= t < |s.threads| && InCreate(s.threads[t]))
  }

  /** A thread's mutex is the one the map holds for its order; orders share no mutex. */
  ghost predicate BoundInv(s: State) {
    && (forall t :: 0 <= t < |s.threads| && HasRef(s.threads[t]) ==>
          s.threads[t].n in s.orderLocks && s.orderLocks[s.threads[t].n] == s.threads[t].r)
    && (forall n, m :: n in s.orderLocks && m in s.orderLocks && n != m ==> s.orderLocks[n] != s.orderLocks[m])
  }

  predicate Settling(pc: Pc, n: string) {
    (pc.LkCount? || pc.UnTest?) && pc.n == n
  }

  /** The reference count is exact, and an entry exists only while somebody needs it. */
  ghost predicate CountInv(s: State)
    requires Refs(s)
  {
    forall n :: n in s.orderLocks ==>
      && s.heap[s.orderLocks[n]].refCount == Count(s.threads, n)
      && (Count(s.threads, n) > 0 || exists t :: 0 <= t < |s.threads| && Settling(s.threads[t], n))
  }

  /** The mutex of `n` is locked exactly while one thread owns it. */
  ghost predicate OwnerInv(s: State)
    requires Refs(s)
  {
    && (forall n, t, u | 0 <= t < |s.threads| && 0 <= u < |s.threads| ::
          Owns(s.threads[t], n) && Owns(s.threads[u], n) ==> t == u)
    && (forall n :: n in s.orderLocks ==>
          (s.heap[s.orderLocks[n]].locked <==> exists t :: 0 <= t < |s.threads| && Owns(s.threads[t], n)))
    && (forall t :: 0 <= t < |s.threads| ==> !s.threads[t].Panicked?)
  }

  ghost predicate Inv(s: State) {
    Refs(s) && CreateInv(s) && BoundInv(s) && CountInv(s) && OwnerInv(s)
  }

  lemma InitInv(s: State)
    requires Init(s)
    ensures Inv(s)
  {
  }

  lemma KeepsRefs(s: State, t: nat, e: Event)
    requires t < |s.threads| && Inv(s) && Enabled(s, t, e)
    ensures Refs(Exec(s, t, e))
  {
  }

  lemma KeepsCreate(s: State, t: nat, e: Event)
    requires t < |s.threads| && Refs(s) && CreateInv(s) && Enabled(s, t, e)
    requires !s.threads[t].UnMu? || s.heap[s.threads[t].r].locked
    ensures CreateInv(Exec(s, t, e))
  {
    var s' := Exec(s, t, e);
    assert forall u :: 0 <= u < |s.threads| && u != t ==> s'.threads[u] == s.threads[u];
    if s'.createLocked && !InCreate(s'.threads[t]) {
      assert s.createLocked && !InCreate(s.threads[t]);
      var u :| 0 <= u < |s.threads| && InCreate(s.threads[u]);
      assert InCreate(s'.threads[u]);
    }
  }

  lemma KeepsBound(s: State, t: nat, e: Event)
    requires t < |s.threads| && Inv(s) && Enabled(s, t, e)
    ensures BoundInv(Exec(s, t, e))
  {
    if e.Go? && s.threads[t].UnTest? && s.heap[s.threads[t].r].refCount == 0 {
      // The entry goes away: nobody else still uses it.
      var n := s.threads[t].n;
      CountPositive(s.threads, n);
      forall u | 0 <= u < |s.threads| && u != t && HasRef(s.threads[u])
        ensures s.threads[u].n != n
      {
        assert InCreate(s.threads[t]);
        assert InCreate(s.threads[u]) || Counted(s.threads[u], s.threads[u].n);
      }
    }
  }

  /** What a step does to an existing mutex and to the other threads. */
  lemma Effect(s: State, t: nat, e: Event, r: Ref)
    requires t < |s.threads| && Refs(s) && Enabled(s, t, e) && r < |s.heap|
    ensures var s', pc := Exec(s, t, e), s.threads[t];
            && s'.threads == s.threads[t := s'.threads[t]]
            && r < |s'.heap|
            && s'.heap[r].refCount == s.heap[r].refCount +
               (if e.Go? && pc.LkCount? && pc.r == r then 1 else if e.Go? && pc.UnCount? && pc.r == r then -1 else 0)
            && s'.heap[r].locked == (if e.Go? && pc.LkMu? && pc.r == r then true
                                     else if e.Go? && pc.UnMu? && pc.r == r then false else s.heap[r].locked)
  {
  }

  /** A step changes whether its thread counts for `n` only at the two count instructions. */
  lemma CountedEffect(s: State, t: nat, e: Event, n: string)
    requires t < |s.threads| && Refs(s) && BoundInv(s) && OwnerInv(s) && Enabled(s, t, e)
    ensures var pc, pc' := s.threads[t], Exec(s, t, e).threads[t];
            (if Counted(pc', n) then 1 else 0) - (if Counted(pc, n) then 1 else 0) ==
            (if e.Go? && pc.LkCount? && pc.n == n then 1 else if e.Go? && pc.UnCount? && pc.n == n then -1 else 0)
  {
    if s.threads[t].UnMu? {
      assert Owns(s.threads[t], s.threads[t].n);
    }
  }

  /** A step changes the reference count of `n` by exactly what it changes the number of
      threads counted for `n`. */
  lemma StepCount(s: State, t: nat, e: Event, n: string)
    requires t < |s.threads| && Refs(s) && BoundInv(s) && OwnerInv(s) && Enabled(s, t, e)
    requires n in s.orderLocks && s.heap[s.orderLocks[n]].refCount == Count(s.threads, n)
    ensures var s' := Exec(s, t, e);
            s.orderLocks[n] < |s'.heap| && s'.heap[s.orderLocks[n]].refCount == Count(s'.threads, n)
  {
    Effect(s, t, e, s.orderLocks[n]);
    CountedEffect(s, t, e, n);
    CountUpdate(s.threads, t, Exec(s, t, e).threads[t], n);
  }

  lemma FreshEntry(s: State, t: nat, e: Event, n: string)
    requires t < |s.threads| && Inv(s) && Enabled(s, t, e)
    requires n !in s.orderLocks && n in Exec(s, t, e).orderLocks
    ensures Refs(Exec(s, t, e)) && Settling(Exec(s, t, e).threads[t], n)
    ensures var s' := Exec(s, t, e);
            s'.heap[s'.orderLocks[n]].refCount == 0 && Count(s'.threads, n) == 0
  {
    var s' := Exec(s, t, e);
    CountPositive(s.threads, n);
    CountUpdate(s.threads, t, s'.threads[t], n);
    forall u | 0 <= u < |s.threads|
      ensures !Counted(s.threads[u], n)
    {
    }
  }

  lemma StillNeeded(s: State, t: nat, e: Event, n: string)
    requires t < |s.threads| && Inv(s) && Enabled(s, t, e)
    requires n in s.orderLocks && n in Exec(s, t, e).orderLocks && Count(Exec(s, t, e).threads, n) == 0
    ensures exists u :: 0 <= u < |s.threads| && Settling(Exec(s, t, e).threads[u], n)
  {
    var s' := Exec(s, t, e);
    Effect(s, t, e, s.orderLocks[n]);
    if !Settling(s'.threads[t], n) {
      CountedEffect(s, t, e, n);
      CountUpdate(s.threads, t, s'.threads[t], n);
      CountPositive(s'.threads, n);
      var u :| 0 <= u < |s.threads| && Settling(s.threads[u], n);
      NotSettled(s, t, e, n);
      assert Settling(s'.threads[u], n);
    }
  }

  /** A thread settling the entry of `n` leaves that state only by counting or by deleting it. */
  lemma NotSettled(s: State, t: nat, e: Event, n: string)
    requires t < |s.threads| && Refs(s) && BoundInv(s) && Enabled(s, t, e)
    requires n in s.orderLocks && n in Exec(s, t, e).orderLocks && s.heap[s.orderLocks[n]].refCount == 0
    requires !Counted(Exec(s, t, e).threads[t], n)
    ensures !Settling(s.threads[t], n)
  {
  }

  lemma KeepsCount(s: State, t: nat, e: Event)
    requires t < |s.threads| && Inv(s) && Enabled(s, t, e)
    ensures Refs(Exec(s, t, e)) && CountInv(Exec(s, t, e))
  {
    KeepsRefs(s, t, e);
    var s' := Exec(s, t, e);
    forall n | n in s'.orderLocks
      ensures s'.heap[s'.orderLocks[n]].refCount == Count(s'.threads, n)
      ensures Count(s'.threads, n) > 0 || exists u :: 0 <= u < |s'.threads| && Settling(s'.threads[u], n)
    {
      if n !in s.orderLocks {
        FreshEntry(s, t, e, n);
      } else {
        StepCount(s, t, e, n);
        if Count(s'.threads, n) == 0 {
          StillNeeded(s, t, e, n);
        }
      }
    }
  }

  lemma OwnersUnique(s: State, t: nat, e: Event)
    requires t < |s.threads| && Inv(s) && Enabled(s, t, e)
    ensures var ts := Exec(s, t, e).threads;
            forall n, u, v | 0 <= u < |ts| && 0 <= v < |ts| :: Owns(ts[u], n) && Owns(ts[v], n) ==> u == v
  {
    var s' := Exec(s, t, e);
    assert s'.threads == s.threads[t := s'.threads[t]];
    var pc := s.threads[t];
    if e.Go? && pc.LkMu? {
      assert pc.n in s.orderLocks && s.orderLocks[pc.n] == pc.r;
    } else {
      assert forall n :: Owns(s'.threads[t], n) ==> Owns(pc, n);
    }
  }

  lemma StepOwner(s: State, t: nat, e: Event, n: string)
    requires t < |s.threads| && Refs(s) && BoundInv(s) && OwnerInv(s) && Enabled(s, t, e)
    requires n in s.orderLocks
    ensures var s' := Exec(s, t, e);
            && s.orderLocks[n] < |s'.heap|
            && (s'.heap[s.orderLocks[n]].locked <==> exists u :: 0 <= u < |s'.threads| && Owns(s'.threads[u], n))
  {
    var s', pc := Exec(s, t, e), s.threads[t];
    Effect(s, t, e, s.orderLocks[n]);
    assert forall u :: 0 <= u < |s.threads| && u != t ==> s'.threads[u] == s.threads[u];
    if HasRef(pc) && pc.n == n && e.Go? && (pc.LkMu? || pc.UnMu?) {
      assert s.orderLocks[pc.n] == pc.r;
      assert pc.UnMu? ==> Owns(pc, n) && s.heap[s.orderLocks[n]].locked;
      assert pc.LkMu? ==> Owns(s'.threads[t], n);
    } else {
      assert Owns(s'.threads[t], n) == Owns(pc, n);
    }
  }

  lemma FreshUnowned(s: State, t: nat, e: Event, n: string)
    requires t < |s.threads| && Refs(s) && BoundInv(s) && Enabled(s, t, e)
    requires n !in s.orderLocks && n in Exec(s, t, e).orderLocks
    ensures var s' := Exec(s, t, e);
            && s'.orderLocks[n] < |s'.heap| && !s'.heap[s'.orderLocks[n]].locked
            && forall u :: 0 <= u < |s'.threads| ==> !Owns(s'.threads[u], n)
  {
  }

  lemma KeepsOwner(s: State, t: nat, e: Event)
    requires t < |s.threads| && Inv(s) && Enabled(s, t, e)
    requires Refs(Exec(s, t, e)) && BoundInv(Exec(s, t, e))
    ensures OwnerInv(Exec(s, t, e))
  {
    var s' := Exec(s, t, e);
    OwnersUnique(s, t, e);
    forall n | n in s'.orderLocks
      ensures s'.heap[s'.orderLocks[n]].locked <==> exists u :: 0 <= u < |s'.threads| && Owns(s'.threads[u], n)
    {
      if n in s.orderLocks {
        StepOwner(s, t, e, n);
      } else {
        FreshUnowned(s, t, e, n);
      }
    }
    if e.Go? && s.threads[t].UnMu? {
      assert Owns(s.threads[t], s.threads[t].n);
    }
  }

  /** Every step of every thread keeps the invariant. */
  lemma StepKeepsInv(s: State, t: nat, e: Event)
    requires t < |s.threads| && Inv(s) && Enabled(s, t, e)
    ensures Inv(Exec(s, t, e))
  {
    KeepsRefs(s, t, e);
    if s.threads[t].UnMu? {
      assert Owns(s.threads[t], s.threads[t].n);
    }
    KeepsCreate(s, t, e);
    KeepsBound(s, t, e);
    KeepsCount(s, t, e);
    KeepsOwner(s, t, e);
  }

  /** How a step moves its own thread in and out of the locked section; others stay put. */
  lemma PcAfter(s: State, t: nat, e: Event)
    requires t < |s.threads| && Inv(s) && Enabled(s, t, e)
    ensures var s', pc := Exec(s, t, e), s.threads[t];
            var pc' := s'.threads[t];
            && s'.threads == s.threads[t := pc']
            && (e.Call? ==> pc' == LkCreate(e.name))
            && (e.Go? && (pc.LkCreate? || pc.LkLoad? || pc.LkCount? || pc.LkLeave? || pc.LkMu?) ==>
                 (pc'.LkLoad? || pc'.LkCount? || pc'.LkLeave? || pc'.LkMu? || pc'.Holding?) && pc'.n == pc.n)
            && (e.Go? && (pc.Holding? || pc.UnMu? || pc.UnCreate? || pc.UnCount? || pc.UnTest? || pc.UnLeave?) ==>
                 pc'.Idle? || pc'.UnMu? || pc'.UnCreate? || pc'.UnCount? || pc'.UnTest? || pc'.UnLeave?
                     || pc'.Panicked?)
  {
  }

  lemma {:induction false} RunKeepsInv(run: seq<State>, sched: seq<Choice>, k: nat)
    requires IsRun(run, sched) && Inv(run[0]) && k < |run|
    ensures Inv(run[k]) && |run[k].threads| == |run[0].threads|
  {
    if k > 0 {
      RunKeepsInv(run, sched, k - 1);
      assert Step(run[k - 1], sched[k - 1].t, sched[k - 1].e, run[k]);
      StepKeepsInv(run[k - 1], sched[k - 1].t, sched[k - 1].e);
    }
  }

  // ---------------------------------------------------------------- theorems

  /** At most one thread is between `LockOrder(n)` and the unlock of `UnlockOrder(n)`. */
  lemma MutualExclusion(run: seq<State>, sched: seq<Choice>, k: nat, n: string, t: nat, u: nat)
    requires IsRun(run, sched) && Init(run[0]) && k < |run|
    requires t < |run[k].threads| && u < |run[k].threads|
    requires Owns(run[k].threads[t], n) && Owns(run[k].threads[u], n)
    ensures t == u
  {
    RunKeepsInv(run, sched, k);
  }

  /** The reference count of a live entry is the number of threads waiting, holding or not yet
      decremented; an entry exists only while some thread is in flight for that order. */
  lemma RefCountExact(run: seq<State>, sched: seq<Choice>, k: nat, n: string)
    requires IsRun(run, sched) && Init(run[0]) && k < |run| && n in run[k].orderLocks
    ensures run[k].orderLocks[n] < |run[k].heap|
    ensures run[k].heap[run[k].orderLocks[n]].refCount == Count(run[k].threads, n)
    ensures exists t :: 0 <= t < |run[k].threads| && InFlight(run[k].threads[t], n)
  {
    RunKeepsInv(run, sched, k);
    var s := run[k];
    CountPositive(s.threads, n);
    if Count(s.threads, n) > 0 {
      var t :| 0 <= t < |s.threads| && Counted(s.threads[t], n);
      assert InFlight(s.threads[t], n);
    } else {
      var t :| 0 <= t < |s.threads| && Settling(s.threads[t], n);
      assert InFlight(s.threads[t], n);
    }
  }

  /** `UnlockOrder` finds the very mutex its thread locked, that mutex is locked, and no thread
      ever unlocks a mutex that is not. */
  lemma HolderFindsItsMutex(run: seq<State>, sched: seq<Choice>, k: nat, t: nat)
    requires IsRun(run, sched) && Init(run[0]) && k < |run| && t < |run[k].threads|
    ensures run[k].threads[t].Holding? || run[k].threads[t].UnMu? ==>
              var pc := run[k].threads[t];
              pc.n in run[k].orderLocks && run[k].orderLocks[pc.n] == pc.r
              && pc.r < |run[k].heap| && run[k].heap[pc.r].locked
    ensures !run[k].threads[t].Panicked?
  {
    RunKeepsInv(run, sched, k);
    if run[k].threads[t].Holding? || run[k].threads[t].UnMu? {
      assert Owns(run[k].threads[t], run[k].threads[t].n);
    }
  }

  /** Deadlock freedom: while any thread is inside the protocol, some such thread can step. */
  lemma SomeoneCanStep(s: State, t: nat) returns (u: nat)
    requires Inv(s) && t < |s.threads| && !s.threads[t].Idle?
    ensures u < |s.threads| && Enabled(s, u, Go)
  {
    if s.createLocked {
      u :| 0 <= u < |s.threads| && InCreate(s.threads[u]);
    } else if s.threads[t].LkMu? && s.heap[s.threads[t].r].locked {
      assert s.threads[t].n in s.orderLocks;
      u :| 0 <= u < |s.threads| && Owns(s.threads[u], s.threads[t].n);
    } else {
      u := t;
    }
  }

  /** Steps a thread still has to take before it is idle again. */
  function Rank(pc: Pc): nat {
    match pc
    case Idle => 0
    case Panicked => 0
    case UnLeave(_) => 1
    case UnTest(_, _) => 2
    case UnCount(_, _) => 3
    case UnCreate(_, _) => 4
    case UnMu(_, _) => 5
    case Holding(_, _) => 6
    case LkMu(_, _) => 7
    case LkLeave(_, _) => 8
    case LkCount(_, _) => 9
    case LkLoad(_) => 10
    case LkCreate(_) => 11
  }

  function Work(ts: seq<Pc>): nat {
    if ts == [] then 0 else Work(ts[..|ts| - 1]) + Rank(ts[|ts| - 1])
  }

  lemma {:induction false} WorkUpdate(ts: seq<Pc>, t: nat, pc: Pc)
    requires t < |ts|
    ensures Work(ts[t := pc]) == Work(ts) + Rank(pc) - Rank(ts[t])
  {
    var k := |ts| - 1;
    if t == k {
      assert ts[t := pc][..k] == ts[..k];
    } else {
      assert ts[t := pc][..k] == ts[..k][t := pc];
      WorkUpdate(ts[..k], t, pc);
    }
  }

  lemma RankDrops(s: State, t: nat)
    requires t < |s.threads| && Refs(s) && BoundInv(s) && OwnerInv(s) && Enabled(s, t, Go)
    ensures var s' := Exec(s, t, Go);
            Rank(s'.threads[t]) + 1 == Rank(s.threads[t]) && s'.threads == s.threads[t := s'.threads[t]]
  {
    if s.threads[t].UnMu? {
      assert Owns(s.threads[t], s.threads[t].n);
    }
  }

  /** Each pending step lowers the remaining work by one. */
  lemma GoStepWork(s: State, t: nat)
    requires t < |s.threads| && Refs(s) && BoundInv(s) && OwnerInv(s) && Enabled(s, t, Go)
    ensures Work(Exec(s, t, Go).threads) + 1 == Work(s.threads)
  {
    RankDrops(s, t);
    WorkUpdate(s.threads, t, Exec(s, t, Go).threads[t]);
  }

  lemma StepWork(s: State, c: Choice, s': State)
    requires Inv(s) && Step(s, c.t, c.e, s') && c.e.Go?
    ensures Work(s'.threads) + 1 == Work(s.threads)
  {
    GoStepWork(s, c.t);
  }

  /** No livelock: without new calls, every schedule takes exactly as many steps as work is
      done, so it can never take more than the initial work. */
  lemma {:induction false} GoRunBounded(run: seq<State>, sched: seq<Choice>, k: nat)
    requires IsRun(run, sched) && Inv(run[0]) && k < |run|
    requires forall i :: 0 <= i < |sched| ==> sched[i].e.Go?
    ensures Work(run[k].threads) + k == Work(run[0].threads)
  {
    if k > 0 {
      hide Inv, Step, Work;
      GoRunBounded(run, sched, k - 1);
      RunKeepsInv(run, sched, k - 1);
      assert Step(run[k - 1], sched[k - 1].t, sched[k - 1].e, run[k]);
      StepWork(run[k - 1], sched[k - 1], run[k]);
    }
  }

  /** When no thread can step, all are idle, and the map is empty again. */
  lemma StuckIsQuiescent(s: State)
    requires Inv(s)
    requires forall t :: 0 <= t < |s.threads| ==> !Enabled(s, t, Go)
    ensures forall t :: 0 <= t < |s.threads| ==> s.threads[t].Idle?
    ensures s.orderLocks == map[] && !s.createLocked
  {
    forall t | 0 <= t < |s.threads|
      ensures s.threads[t].Idle?
    {
      if !s.threads[t].Idle? {
        var u := SomeoneCanStep(s, t);
      }
    }
    forall n | n in s.orderLocks
      ensures false
    {
      CountPositive(s.threads, n);
    }
  }

  /** From every reachable state the protocol drains: some schedule of pending steps ends with
      every thread idle and no lock entry left. */
  lemma {:induction false} Drains(s: State) returns (run: seq<State>, sched: seq<Choice>)
    requires Inv(s)
    ensures IsRun(run, sched) && run[0] == s
    ensures forall i :: 0 <= i < |sched| ==> sched[i].e.Go?
    ensures forall t :: 0 <= t < |run[|sched|].threads| ==> run[|sched|].threads[t].Idle?
    ensures run[|sched|].orderLocks == map[] && !run[|sched|].createLocked
    decreases Work(s.threads)
  {
    if t :| 0 <= t < |s.threads| && Enabled(s, t, Go) {
      var s' := Exec(s, t, Go);
      StepKeepsInv(s, t, Go);
      GoStepWork(s, t);
      var rest, choices := Drains(s');
      run, sched := [s] + rest, [Choice(t, Go)] + choices;
      forall i | 0 <= i < |sched|
        ensures Step(run[i], sched[i].t, sched[i].e, run[i + 1])
      {
        if i > 0 {
          assert Step(rest[i - 1], choices[i - 1].t, choices[i - 1].e, rest[i]);
        }
      }
      assert run[|sched|] == rest[|choices|];
    } else {
      StuckIsQuiescent(s);
      run, sched := [s], [];
    }
  }
}

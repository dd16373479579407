/**
 The payment handlers that rely on the order lock, run by any number of threads.

 A handler is check-then-act: it reads a row, decides on its copy, and later writes.
 Reads and writes are separate steps here, also inside one database transaction, so
 nothing but the order lock keeps another thread from acting in between.  Any database
 call may fail (`ok == false`) and then has no effect.

 Some code writes orders without the lock: the requests that create a Waffo order and mark
 it failed when the provider refuses it, Waffo's failure notice, and the requests that expire
 a subscription order they could not start.  They are here too, as writes of a copy taken
 earlier, and the theorems say exactly what they can spoil.
 */
module PaymentHandlers {
  import L = OrderLock

  datatype Status = Pending | Success | Failed | Expired

  datatype TopUp = TopUp(status: Status, provider: string)

  datatype SubOrder = SubOrder(status: Status, provider: string)

  datatype Handler =
    | EpayNotify
    | AdminComplete
    | CreemCheckout(onetime: bool)
    | StripeFulfill
    | StripeAsyncFailed
    | StripeExpired
    | WaffoPayment
    | PancakePayment
    | PancakeSubscription
    | EpaySubscription

  /** The provider whose orders a handler may touch; none for the administrator. */
  function Provider(h: Handler): string {
    match h
    case EpayNotify => "epay"
    case AdminComplete => ""
    case CreemCheckout(_) => "creem"
    case WaffoPayment => "waffo"
    case PancakePayment => "waffo_pancake"
    case PancakeSubscription => "waffo_pancake"
    case EpaySubscription => "epay"
    case _ => "stripe"
  }

  /** The status a handler moves a pending top-up to. */
  function Target(h: Handler): Status {
    match h
    case StripeAsyncFailed => Failed
    case StripeExpired => Expired
    case _ => Success
  }

  /** Progress of a thread inside the handler it runs. */
  datatype Work =
    | Free
    | Entering(h: Handler, n: string)               // in LockOrder(n)
    | SubRead(h: Handler, n: string)
    | SubWrite(h: Handler, n: string, sub: SubOrder) // decided on the copy `sub`
    | PreRead(h: Handler, n: string)
    | TopRead(h: Handler, n: string)
    | TopWrite(h: Handler, n: string, top: TopUp)    // decided on the copy `top`
    | Done(n: string)

  /** A write that will happen without the order lock, of a copy taken while the row was pending. */
  datatype Loose = LooseTop(n: string, top: TopUp) | LooseSub(n: string, sub: SubOrder)

  /** Providers whose top-ups are written without the lock, by the creating request or a failure notice. */
  predicate LooseTopUps(provider: string) {
    provider == "waffo" || provider == "waffo_pancake"
  }

  /** Providers whose subscription orders the creating request may expire without the lock. */
  predicate LooseOrders(provider: string) {
    provider == "epay" || provider == "waffo_pancake"
  }

  /** `credits` and `activations` log every quota credit and every subscription granted; `tornTopUps`
      and `tornSubs` are the orders an unlocked write has hit, and `loose` the unlocked writes to come. */
  datatype State = State(
    lock: L.State,
    topUps: map<string, TopUp>,
    subs: map<string, SubOrder>,
    credits: seq<string>,
    activations: seq<string>,
    loose: seq<Loose>,
    tornTopUps: set<string>,
    tornSubs: set<string>,
    work: seq<Work>)

  datatype Event =
    | Arrive(h: Handler, n: string)
    | LockGo
    | Handle(ok: bool)
    | InsertTopUp(n: string, provider: string)
    | InsertSub(n: string, provider: string)
    | FailureNotice(n: string)        // an unlocked look at a Waffo top-up that was not paid
    | GiveUp(n: string)               // an unlocked look at a subscription order that could not start
    | LooseWrite(k: nat, ok: bool)    // an unlocked write, or its failure, or no need for it

  function First(h: Handler, n: string): Work {
    match h
    case EpayNotify => PreRead(h, n)
    case AdminComplete => TopRead(h, n)
    case StripeAsyncFailed => TopRead(h, n)
    case WaffoPayment => TopRead(h, n)
    case PancakePayment => TopRead(h, n)
    case _ => SubRead(h, n)
  }

  /** After `CompleteSubscriptionOrder` / `ExpireSubscriptionOrder` found no order. */
  function NoSubscription(h: Handler, n: string): Work {
    match h
    case CreemCheckout(onetime) => if onetime then PreRead(h, n) else Done(n)
    case PancakeSubscription => Done(n)
    case EpaySubscription => Done(n)
    case _ => TopRead(h, n)
  }

  /** A subscription order is looked up; a failing lookup reads as "not found". */
  function ReadSub(s: State, h: Handler, n: string, ok: bool): Work {
    if !ok || n !in s.subs then NoSubscription(h, n)
    else if s.subs[n].provider != Provider(h) then Done(n)
    else if s.subs[n].status != Pending then Done(n)
    else SubWrite(h, n, s.subs[n])
  }

  /** The handler's own look at the top-up before it calls the completing routine. */
  function PreReadTop(s: State, h: Handler, n: string, ok: bool): Work {
    if !ok || n !in s.topUps then Done(n)
    else if h.EpayNotify? && s.topUps[n].provider != Provider(h) then Done(n)
    else if h.CreemCheckout? && s.topUps[n].status != Pending then Done(n)
    else TopRead(h, n)
  }

  function ReadTop(s: State, h: Handler, n: string, ok: bool): Work {
    if !ok || n !in s.topUps then Done(n)
    else if !h.AdminComplete? && s.topUps[n].provider != Provider(h) then Done(n)
    else if s.topUps[n].status != Pending then Done(n)
    else TopWrite(h, n, s.topUps[n])
  }

  /** `upsertSubscriptionTopUpTx`, granting the subscription, and saving the order copy. */
  function WriteSub(s: State, h: Handler, n: string, sub: SubOrder): State {
    if h.StripeExpired? then s.(subs := s.subs[n := sub.(status := Expired)])
    else if n in s.topUps && s.topUps[n].provider != "" && sub.provider != ""
        && s.topUps[n].provider != sub.provider then s
    else
      var provider := if n in s.topUps && s.topUps[n].provider != "" then s.topUps[n].provider else sub.provider;
      s.(subs := s.subs[n := sub.(status := Success)],
         topUps := s.topUps[n := TopUp(Success, provider)],
         activations := s.activations + [n])
  }

  /** Save the top-up copy with its new status; a completing handler also credits the quota. */
  function WriteTop(s: State, h: Handler, n: string, top: TopUp): State {
    var s' := s.(topUps := s.topUps[n := top.(status := Target(h))]);
    if Target(h).Success? then s'.(credits := s.credits + [n]) else s'
  }

  /** The unlocked write: the whole row is saved from the copy. */
  function WriteLoose(s: State, l: Loose): State {
    match l
    case LooseTop(n, top) =>
      s.(topUps := s.topUps[n := top.(status := Failed)], tornTopUps := s.tornTopUps + {n})
    case LooseSub(n, sub) =>
      s.(subs := s.subs[n := sub.(status := Expired)], tornSubs := s.tornSubs + {n})
  }

  function SetWork(s: State, t: nat, w: Work): State
    requires t < |s.work|
  {
    s.(work := s.work[t := w])
  }

  predicate Enabled(s: State, t: nat, e: Event)
    requires |s.work| == |s.lock.threads| && t < |s.work| && L.Refs(s.lock)
  {
    match e
    case Arrive(h, n) => s.work[t].Free? && L.Enabled(s.lock, t, L.Call(n))
    case LockGo => L.Enabled(s.lock, t, L.Go) && (s.lock.threads[t].Holding? ==> s.work[t].Done?)
    case Handle(_) => s.lock.threads[t].Holding? && !s.work[t].Free? && !s.work[t].Done?
    case InsertTopUp(n, _) => n !in s.topUps
    case InsertSub(n, _) => n !in s.subs
    case FailureNotice(n) => n in s.topUps && s.topUps[n].status == Pending && s.topUps[n].provider == "waffo"
    case GiveUp(n) => n in s.subs && s.subs[n].status == Pending && LooseOrders(s.subs[n].provider)
    case LooseWrite(k, _) => k < |s.loose|
  }

  function Exec(s: State, t: nat, e: Event): State
    requires |s.work| == |s.lock.threads| && t < |s.work| && L.Refs(s.lock) && Enabled(s, t, e)
  {
    match e
    case Arrive(h, n) => SetWork(s.(lock := L.Exec(s.lock, t, L.Call(n))), t, Entering(h, n))
    case LockGo =>
      SetWork(s.(lock := L.Exec(s.lock, t, L.Go)), t, if s.lock.threads[t].Holding? then Free else s.work[t])
    case InsertTopUp(n, provider) =>
      var top := TopUp(Pending, provider);
      s.(topUps := s.topUps[n := top], loose := s.loose + if LooseTopUps(provider) then [LooseTop(n, top)] else [])
    case InsertSub(n, provider) => s.(subs := s.subs[n := SubOrder(Pending, provider)])
    case FailureNotice(n) => s.(loose := s.loose + [LooseTop(n, s.topUps[n])])
    case GiveUp(n) => s.(loose := s.loose + [LooseSub(n, s.subs[n])])
    case LooseWrite(k, ok) =>
      var s' := if ok then WriteLoose(s, s.loose[k]) else s;
      s'.(loose := s.loose[..k] + s.loose[k + 1..])
    case Handle(ok) =>
      match s.work[t]
      case Entering(h, n) => SetWork(s, t, First(h, n))
      case SubRead(h, n) => SetWork(s, t, ReadSub(s, h, n, ok))
      case SubWrite(h, n, sub) => SetWork(if ok then WriteSub(s, h, n, sub) else s, t, Done(n))
      case PreRead(h, n) => SetWork(s, t, PreReadTop(s, h, n, ok))
      case TopRead(h, n) => SetWork(s, t, ReadTop(s, h, n, ok))
      case TopWrite(h, n, top) => SetWork(if ok then WriteTop(s, h, n, top) else s, t, Done(n))
  }

  ghost predicate Init(s: State) {
    && L.Init(s.lock) && |s.work| == |s.lock.threads|
    && (forall t :: 0 <= t < |s.work| ==> s.work[t].Free?)
    && s.topUps == map[] && s.subs == map[] && s.credits == [] && s.activations == []
    && s.loose == [] && s.tornTopUps == {} && s.tornSubs == {}
  }

  predicate CanStep(s: State, t: nat, e: Event) {
    |s.work| == |s.lock.threads| && t < |s.work| && L.Refs(s.lock) && Enabled(s, t, e)
  }

  predicate Step(s: State, t: nat, e: Event, s': State) {
    CanStep(s, t, e) && s' == Exec(s, t, e)
  }

  datatype Choice = Choice(t: nat, e: Event)

  ghost predicate IsRun(run: seq<State>, sched: seq<Choice>) {
    && |run| == |sched| + 1
    && forall i :: 0 <= i < |sched| ==> Step(run[i], sched[i].t, sched[i].e, run[i + 1])
  }

  // ---------------------------------------------------------------- invariant

  /** The order a thread is past `LockOrder` for. */
  predicate Active(w: Work, n: string) {
    !w.Free? && !w.Entering? && w.n == n
  }

  /** What the lock state of a thread says about its handler, and back. */
  predicate Aligned(w: Work, pc: L.Pc) {
    match w
    case Free => !pc.LkCreate? && !pc.LkLoad? && !pc.LkCount? && !pc.LkLeave? && !pc.LkMu? && !pc.Holding?
    case Entering(_, n) =>
      (pc.LkCreate? || pc.LkLoad? || pc.LkCount? || pc.LkLeave? || pc.LkMu? || pc.Holding?) && pc.n == n
    case _ => pc.Holding? && pc.n == w.n
  }

  /** A handler about to write took its copy of a row that was pending and that nobody has credited or
      activated since; the row is still that copy unless an unlocked write hit it. */
  ghost predicate CopyFresh(s: State, w: Work) {
    && (w.TopWrite? ==>
          && w.n in s.topUps && w.top.status == Pending && w.n !in s.credits
          && s.topUps[w.n].provider == w.top.provider && (s.topUps[w.n] == w.top || w.n in s.tornTopUps))
    && (w.SubWrite? ==>
          && w.n in s.subs && w.sub.status == Pending && w.n !in s.activations
          && s.subs[w.n].provider == w.sub.provider && (s.subs[w.n] == w.sub || w.n in s.tornSubs))
  }

  /** An unlocked write to come holds a pending copy of a row of a provider that has such writes. */
  ghost predicate LooseOk(s: State, l: Loose) {
    match l
    case LooseTop(n, top) => n in s.topUps && top.status == Pending && s.topUps[n].provider == top.provider
        && LooseTopUps(top.provider)
    case LooseSub(n, sub) =>
          n in s.subs && sub.status == Pending && s.subs[n].provider == sub.provider && LooseOrders(sub.provider)
  }

  ghost predicate Torn(s: State) {
    && (forall n :: n in s.tornTopUps ==>
          n in s.topUps && s.topUps[n].status != Pending && LooseTopUps(s.topUps[n].provider))
    && (forall n :: n in s.tornSubs ==> n in s.subs && s.subs[n].status != Pending && LooseOrders(s.subs[n].provider))
  }

  ghost predicate NoDup(xs: seq<string>) {
    forall i, j :: 0 <= i < j < |xs| ==> xs[i] != xs[j]
  }

  ghost predicate Ledger(s: State) {
    && NoDup(s.credits) && NoDup(s.activations)
    && (forall n :: n in s.credits ==> n in s.topUps && s.topUps[n].status != Pending)
    && (forall n :: n in s.credits && n !in s.tornTopUps ==> s.topUps[n].status == Success)
    && (forall n :: n in s.activations ==> n in s.subs && s.subs[n].status != Pending)
    && (forall n :: n in s.activations && n !in s.tornSubs ==> s.subs[n].status == Success)
    && (forall n :: n in s.topUps && s.topUps[n].status == Success && n !in s.subs ==> n in s.credits)
    && (forall n :: n in s.subs && s.subs[n].status == Success ==> n in s.activations)
  }

  ghost predicate Locks(s: State) {
    && L.Inv(s.lock) && |s.work| == |s.lock.threads|
    && forall t :: 0 <= t < |s.work| ==> Aligned(s.work[t], s.lock.threads[t])
  }

  ghost predicate Copies(s: State) {
    && (forall t :: 0 <= t < |s.work| ==> CopyFresh(s, s.work[t]))
    && (forall k :: 0 <= k < |s.loose| ==> LooseOk(s, s.loose[k]))
  }

  ghost predicate Inv(s: State) {
    Locks(s) && Copies(s) && Torn(s) && Ledger(s)
  }

  /** The order lock makes handlers for one order mutually exclusive. */
  lemma OneActive(s: State, t: nat, u: nat, n: string)
    requires Locks(s) && t < |s.work| && u < |s.work| && Active(s.work[t], n) && Active(s.work[u], n)
    ensures t == u
  {
    assert L.Owns(s.lock.threads[t], n) && L.Owns(s.lock.threads[u], n);
  }

  /** The rows and logs are the same in both states. */
  predicate SameRows(s: State, s': State) {
    && s'.topUps == s.topUps && s'.subs == s.subs && s'.credits == s.credits && s'.activations == s.activations
    && s'.tornTopUps == s.tornTopUps && s'.tornSubs == s.tornSubs
  }

  lemma SameRowsSameBooks(s: State, s': State)
    requires SameRows(s, s')
    ensures Ledger(s) == Ledger(s') && Torn(s) == Torn(s')
    ensures forall w :: CopyFresh(s, w) == CopyFresh(s', w)
    ensures forall l :: LooseOk(s, l) == LooseOk(s', l)
  {
  }

  lemma SameLocks(s: State, s': State)
    requires s'.lock == s.lock && s'.work == s.work
    ensures Locks(s) == Locks(s')
  {
  }

  lemma LocksMove(s: State, t: nat, s': State)
    requires Locks(s) && t < |s.work| && L.Inv(s'.lock)
    requires |s'.lock.threads| == |s.work| && s'.lock.threads == s.lock.threads[t := s'.lock.threads[t]]
    requires |s'.work| == |s.work| && s'.work == s.work[t := s'.work[t]] && Aligned(s'.work[t], s'.lock.threads[t])
    ensures Locks(s')
  {
    hide L.Inv;
    forall u | 0 <= u < |s'.work| ensures Aligned(s'.work[u], s'.lock.threads[u]) {
      assert u != t ==> Aligned(s.work[u], s.lock.threads[u]);
    }
  }

  /** A step that changes no row keeps the invariant if the thread stays aligned and its copy fresh. */
  lemma ThreadMove(s: State, t: nat, s': State)
    requires Inv(s) && t < |s.work| && L.Inv(s'.lock) && SameRows(s, s') && s'.loose == s.loose
    requires |s'.lock.threads| == |s.work| && s'.lock.threads == s.lock.threads[t := s'.lock.threads[t]]
    requires |s'.work| == |s.work| && s'.work == s.work[t := s'.work[t]]
    requires Aligned(s'.work[t], s'.lock.threads[t]) && CopyFresh(s, s'.work[t])
    ensures Inv(s')
  {
    SameRowsSameBooks(s, s');
    LocksMove(s, t, s');
    hide Locks, Torn, Ledger, CopyFresh, LooseOk;
    forall u | 0 <= u < |s'.work| ensures CopyFresh(s', s'.work[u]) {
      assert u != t ==> CopyFresh(s, s.work[u]);
    }
  }

  function LockEvent(e: Event): L.Event {
    if e.Arrive? then L.Call(e.n) else L.Go
  }

  /** A step inside the lock routines moves only its own thread, and leaves it without a copy. */
  lemma LockEffect(s: State, t: nat, e: Event)
    requires |s.work| == |s.lock.threads| && t < |s.work| && L.Inv(s.lock) && Enabled(s, t, e)
             && (e.Arrive? || e.LockGo?)
    requires Aligned(s.work[t], s.lock.threads[t])
    ensures var s' := Exec(s, t, e);
            && SameRows(s, s') && s'.loose == s.loose && s'.lock == L.Exec(s.lock, t, LockEvent(e))
            && |s'.work| == |s.work| && s'.work == s.work[t := s'.work[t]]
            && Aligned(s'.work[t], s'.lock.threads[t])
            && (s'.work[t] == s.work[t] || s'.work[t].Entering? || s'.work[t].Free?)
  {
    L.PcAfter(s.lock, t, LockEvent(e));
    hide L.Exec, L.CreateInv, L.BoundInv, L.CountInv, L.OwnerInv;
  }

  lemma LockStepKeepsInv(s: State, t: nat, e: Event)
    requires Inv(s) && t < |s.work| && Enabled(s, t, e) && (e.Arrive? || e.LockGo?)
    ensures Inv(Exec(s, t, e))
  {
    assert Aligned(s.work[t], s.lock.threads[t]) && CopyFresh(s, s.work[t]);
    LockEffect(s, t, e);
    L.StepKeepsInv(s.lock, t, LockEvent(e));
    L.PcAfter(s.lock, t, LockEvent(e));
    hide L.Exec, L.CreateInv, L.BoundInv, L.CountInv, L.OwnerInv, Torn, Ledger, Copies, Exec;
    ThreadMove(s, t, Exec(s, t, e));
  }

  /** What a write to the rows of `n` leaves alone. */
  ghost predicate OnlyAt(s: State, s': State, n: string) {
    && (forall m :: m != n && m in s.topUps ==> m in s'.topUps && s'.topUps[m] == s.topUps[m])
    && (forall m :: m != n && m in s.subs ==> m in s'.subs && s'.subs[m] == s.subs[m])
    && (forall m :: m != n && m in s'.credits ==> m in s.credits)
    && (forall m :: m != n && m in s'.activations ==> m in s.activations)
    && (n in s.topUps ==> n in s'.topUps && (s.topUps[n].provider != "" ==>
          s'.topUps[n].provider == s.topUps[n].provider))
    && (n in s.subs ==> n in s'.subs && s'.subs[n].provider == s.subs[n].provider)
    && s.tornTopUps <= s'.tornTopUps && s.tornSubs <= s'.tornSubs
  }

  /** A row write by the active thread leaves every other pending copy as good as it was. */
  lemma RowWriteKeepsCopies(s: State, t: nat, n: string, s': State)
    requires Locks(s) && Copies(s) && t < |s.work| && Active(s.work[t], n)
    requires s'.work == s.work[t := Done(n)] && s'.loose == s.loose && OnlyAt(s, s', n)
    ensures Copies(s')
  {
    forall u: nat | u < |s'.work|
      ensures CopyFresh(s', s'.work[u])
    {
      if u != t {
        assert !Active(s.work[u], n) by {
          if Active(s.work[u], n) {
            OneActive(s, t, u, n);
          }
        }
        hide Locks;
        assert CopyFresh(s, s.work[u]);
      }
    }
    hide Locks, CopyFresh;
    forall k | 0 <= k < |s.loose|
      ensures LooseOk(s', s.loose[k])
    {
      assert LooseOk(s, s.loose[k]);
    }
  }

  /** The invariant after the active thread wrote its row: all is as after the write `m` itself. */
  lemma Wrote(s: State, t: nat, n: string, m: State)
    requires Inv(s) && t < |s.work| && Active(s.work[t], n) && OnlyAt(s, m, n) && Torn(m) && Ledger(m)
    requires m.lock == s.lock && m.work == s.work && m.loose == s.loose
    ensures Inv(SetWork(m, t, Done(n)))
  {
    var s' := SetWork(m, t, Done(n));
    SameRowsSameBooks(m, s');
    assert Aligned(s.work[t], s.lock.threads[t]);
    LocksMove(s, t, s');
    assert OnlyAt(s, s', n);
    RowWriteKeepsCopies(s, t, n, s');
  }

  /** Settling a row that was pending and is not yet credited, with a credit exactly if it succeeds,
      keeps the ledger. */
  lemma LedgerTop(s: State, h: Handler, n: string, top: TopUp)
    requires Ledger(s) && Torn(s) && n in s.topUps && n !in s.credits && s.topUps[n].provider == top.provider
    ensures Ledger(WriteTop(s, h, n, top)) && Torn(WriteTop(s, h, n, top)) && OnlyAt(s, WriteTop(s, h, n, top), n)
  {
    var s' := WriteTop(s, h, n, top);
    assert forall m :: m in s'.credits ==> m in s.credits || m == n;
    assert forall m :: m in s.credits ==> m in s'.credits;
    assert Target(h) == Success ==> s'.credits[|s.credits|] == n;
  }

  lemma LedgerSub(s: State, h: Handler, n: string, sub: SubOrder)
    requires Ledger(s) && Torn(s) && n in s.subs && n !in s.activations && s.subs[n].provider == sub.provider
    ensures Ledger(WriteSub(s, h, n, sub)) && Torn(WriteSub(s, h, n, sub)) && OnlyAt(s, WriteSub(s, h, n, sub), n)
  {
    var s' := WriteSub(s, h, n, sub);
    assert forall m :: m in s'.activations ==> m in s.activations || m == n;
    assert forall m :: m in s.activations ==> m in s'.activations;
    assert s'.activations != s.activations ==> s'.activations[|s.activations|] == n;
  }

  lemma TopWriteKeepsInv(s: State, t: nat)
    requires Inv(s) && t < |s.work| && Enabled(s, t, Handle(true)) && s.work[t].TopWrite?
    ensures Inv(Exec(s, t, Handle(true)))
  {
    var w := s.work[t];
    assert CopyFresh(s, w);
    LedgerTop(s, w.h, w.n, w.top);
    hide Ledger, Torn, OnlyAt, Locks, Copies;
    Wrote(s, t, w.n, WriteTop(s, w.h, w.n, w.top));
  }

  lemma SubWriteKeepsInv(s: State, t: nat)
    requires Inv(s) && t < |s.work| && Enabled(s, t, Handle(true)) && s.work[t].SubWrite?
    ensures Inv(Exec(s, t, Handle(true)))
  {
    var w := s.work[t];
    assert CopyFresh(s, w);
    LedgerSub(s, w.h, w.n, w.sub);
    hide Ledger, Torn, OnlyAt, Locks, Copies;
    Wrote(s, t, w.n, WriteSub(s, w.h, w.n, w.sub));
  }

  /** An unlocked write marks its order as torn, which is all the invariant then asks of it. */
  lemma LooseWriteBooks(s: State, l: Loose)
    requires LooseOk(s, l) && Torn(s) && Ledger(s)
    ensures Torn(WriteLoose(s, l)) && Ledger(WriteLoose(s, l))
    ensures forall w :: CopyFresh(s, w) ==> CopyFresh(WriteLoose(s, l), w)
    ensures forall k :: LooseOk(s, k) ==> LooseOk(WriteLoose(s, l), k)
  {
  }

  lemma LooseEffect(s: State, t: nat, k: nat, ok: bool)
    requires |s.work| == |s.lock.threads| && t < |s.work| && L.Refs(s.lock) && k < |s.loose|
    ensures var s', m := Exec(s, t, LooseWrite(k, ok)), if ok then WriteLoose(s, s.loose[k]) else s;
            && s'.work == s.work && s'.lock == s.lock && SameRows(m, s')
            && forall j :: 0 <= j < |s'.loose| ==> s'.loose[j] in s.loose
  {
  }

  lemma LooseWriteKeepsInv(s: State, t: nat, k: nat, ok: bool)
    requires Inv(s) && t < |s.work| && k < |s.loose|
    ensures Inv(Exec(s, t, LooseWrite(k, ok)))
  {
    LooseEffect(s, t, k, ok);
    SameLocks(s, Exec(s, t, LooseWrite(k, ok)));
    hide Locks, Exec, WriteLoose, Ledger, Torn, CopyFresh, LooseOk, SameRows;
    var s', m := Exec(s, t, LooseWrite(k, ok)), if ok then WriteLoose(s, s.loose[k]) else s;
    LooseWriteBooks(s, s.loose[k]);
    SameRowsSameBooks(m, s');
    forall j | 0 <= j < |s'.loose| ensures LooseOk(s', s'.loose[j]) {
      var i :| 0 <= i < |s.loose| && s.loose[i] == s'.loose[j];
      assert LooseOk(s, s.loose[i]);
    }
  }

  /** New rows and new unlocked writes disturb nothing there is. */
  lemma GrowthKeepsInv(s: State, t: nat, e: Event)
    requires Inv(s) && t < |s.work| && Enabled(s, t, e)
    requires e.InsertTopUp? || e.InsertSub? || e.FailureNotice? || e.GiveUp?
    ensures Inv(Exec(s, t, e))
  {
    var s' := Exec(s, t, e);
    if e.InsertTopUp? || e.InsertSub? {
      InsertBooks(s, t, e);
    } else {
      LookBooks(s, t, e);
    }
    assert s'.work == s.work && s'.lock == s.lock && s.loose <= s'.loose;
    SameLocks(s, s');
    hide Locks, Exec, Enabled, Ledger, Torn, CopyFresh, LooseOk;
    forall j | 0 <= j < |s'.loose| ensures LooseOk(s', s'.loose[j]) {
      assert j < |s.loose| ==> s'.loose[j] == s.loose[j] && LooseOk(s, s.loose[j]);
    }
  }

  lemma InsertBooks(s: State, t: nat, e: Event)
    requires |s.work| == |s.lock.threads| && t < |s.work| && L.Refs(s.lock) && Enabled(s, t, e)
             && (e.InsertTopUp? || e.InsertSub?)
    requires Torn(s) && Ledger(s)
    ensures var s' := Exec(s, t, e);
            && Torn(s') && Ledger(s')
            && (forall w :: CopyFresh(s, w) ==> CopyFresh(s', w))
            && (forall l :: LooseOk(s, l) ==> LooseOk(s', l))
            && (forall j :: |s.loose| <= j < |s'.loose| ==> LooseOk(s', s'.loose[j]))
  {
  }

  lemma LookBooks(s: State, t: nat, e: Event)
    requires |s.work| == |s.lock.threads| && t < |s.work| && L.Refs(s.lock) && Enabled(s, t, e)
             && (e.FailureNotice? || e.GiveUp?)
    requires Torn(s) && Ledger(s)
    ensures var s' := Exec(s, t, e);
            && Torn(s') && Ledger(s')
            && (forall w :: CopyFresh(s, w) ==> CopyFresh(s', w))
            && (forall l :: LooseOk(s, l) ==> LooseOk(s', l))
            && (forall j :: |s.loose| <= j < |s'.loose| ==> LooseOk(s', s'.loose[j]))
  {
    var s' := Exec(s, t, e);
    assert SameRows(s, s');
    SameRowsSameBooks(s, s');
    hide Torn, Ledger, CopyFresh;
    assert LooseOk(s, s'.loose[|s.loose|]);
  }

  lemma ReadFresh(s: State, t: nat, e: Event)
    requires |s.work| == |s.lock.threads| && t < |s.work| && L.Refs(s.lock) && Enabled(s, t, e) && e.Handle?
    requires !e.ok || (!s.work[t].TopWrite? && !s.work[t].SubWrite?)
    requires Ledger(s) && Aligned(s.work[t], s.lock.threads[t])
    ensures var s' := Exec(s, t, e);
            && SameRows(s, s') && s'.loose == s.loose && s'.lock == s.lock && s'.work == s.work[t := s'.work[t]]
            && Aligned(s'.work[t], s.lock.threads[t]) && CopyFresh(s, s'.work[t])
  {
  }

  lemma ReadKeepsInv(s: State, t: nat, e: Event)
    requires Inv(s) && t < |s.work| && Enabled(s, t, e) && e.Handle?
    requires !e.ok || (!s.work[t].TopWrite? && !s.work[t].SubWrite?)
    ensures Inv(Exec(s, t, e))
  {
    assert Aligned(s.work[t], s.lock.threads[t]);
    ReadFresh(s, t, e);
    hide Exec, Torn, Ledger, Copies, CopyFresh;
    ThreadMove(s, t, Exec(s, t, e));
  }

  lemma StepKeepsInv(s: State, t: nat, e: Event)
    requires Inv(s) && t < |s.work| && Enabled(s, t, e)
    ensures Inv(Exec(s, t, e))
  {
    match e
    case Arrive(_, _) => LockStepKeepsInv(s, t, e);
    case LockGo => LockStepKeepsInv(s, t, e);
    case LooseWrite(k, ok) => LooseWriteKeepsInv(s, t, k, ok);
    case Handle(ok) =>
      if ok && s.work[t].TopWrite? {
        TopWriteKeepsInv(s, t);
      } else if ok && s.work[t].SubWrite? {
        SubWriteKeepsInv(s, t);
      } else {
        ReadKeepsInv(s, t, e);
      }
    case _ => GrowthKeepsInv(s, t, e);
  }

  lemma {:induction false} RunKeepsInv(run: seq<State>, sched: seq<Choice>, k: nat)
    requires IsRun(run, sched) && Init(run[0]) && k < |run|
    ensures Inv(run[k])
  {
    if k == 0 {
      L.InitInv(run[0].lock);
    } else {
      RunKeepsInv(run, sched, k - 1);
      assert Step(run[k - 1], sched[k - 1].t, sched[k - 1].e, run[k]);
      StepKeepsInv(run[k - 1], sched[k - 1].t, sched[k - 1].e);
    }
  }

  // ---------------------------------------------------------------- theorems

  /** However many deliveries and unlocked writes race, an order is credited at most once, and a plain
      top-up that succeeded was credited.  A credited order stays in success unless an unlocked write
      hit it, which happens to orders of two providers only. */
  lemma CreditedAtMostOnce(run: seq<State>, sched: seq<Choice>, k: nat)
    requires IsRun(run, sched) && Init(run[0]) && k < |run|
    ensures forall i, j :: 0 <= i < j < |run[k].credits| ==> run[k].credits[i] != run[k].credits[j]
    ensures forall n :: n in run[k].credits ==> n in run[k].topUps && run[k].topUps[n].status != Pending
    ensures forall n :: n in run[k].credits && n !in run[k].tornTopUps ==> run[k].topUps[n].status == Success
    ensures forall n :: n in run[k].topUps && n !in run[k].subs && run[k].topUps[n].status == Success ==>
              n in run[k].credits
    ensures forall n :: n in run[k].tornTopUps ==>
              n in run[k].topUps && run[k].topUps[n].provider in {"waffo", "waffo_pancake"}
  {
    RunKeepsInv(run, sched, k);
  }

  /** A subscription order is activated at most once, and exactly if it has succeeded unless an
      unlocked write expired it. */
  lemma ActivatedAtMostOnce(run: seq<State>, sched: seq<Choice>, k: nat)
    requires IsRun(run, sched) && Init(run[0]) && k < |run|
    ensures forall i, j :: 0 <= i < j < |run[k].activations| ==> run[k].activations[i] != run[k].activations[j]
    ensures forall n :: n in run[k].subs && run[k].subs[n].status == Success ==> n in run[k].activations
    ensures forall n :: n in run[k].activations ==> n in run[k].subs && run[k].subs[n].status != Pending
    ensures forall n :: n in run[k].activations && n !in run[k].tornSubs ==> run[k].subs[n].status == Success
    ensures forall n :: n in run[k].tornSubs ==>
              n in run[k].subs && run[k].subs[n].provider in {"epay", "waffo_pancake"}
  {
    RunKeepsInv(run, sched, k);
  }

  /** Whenever a handler writes a top-up it decided to move (a Stripe async failure marking it
      failed, say), no other lock-taking handler has moved it since it was read: the row is still the
      pending row it read, or an unlocked write has hit it. */
  lemma WriterOverwritesOnlyPending(run: seq<State>, sched: seq<Choice>, k: nat, t: nat)
    requires IsRun(run, sched) && Init(run[0]) && k < |run| && t < |run[k].work| && run[k].work[t].TopWrite?
    ensures var w := run[k].work[t];
            && w.n in run[k].topUps && w.top.status == Pending && w.n !in run[k].credits
            && (w.n !in run[k].tornTopUps ==> run[k].topUps[w.n] == w.top)
            && (w.n in run[k].tornTopUps ==> w.top.provider in {"waffo", "waffo_pancake"})
  {
    RunKeepsInv(run, sched, k);
    assert CopyFresh(run[k], run[k].work[t]);
  }

  /** The row a decided write would leave. */
  function Outcome(w: Work): TopUp
    requires w.TopWrite?
  {
    w.top.(status := Target(w.h))
  }

  /** Every write of top-up `n` that is already decided, with or without the lock, would leave its row
      as it is. */
  ghost predicate NothingLoose(s: State, n: string) {
    && n in s.topUps
    && (forall k :: 0 <= k < |s.loose| && s.loose[k].LooseTop? && s.loose[k].n == n ==>
          s.loose[k].top.(status := Failed) == s.topUps[n])
    && (forall t :: 0 <= t < |s.work| && s.work[t].TopWrite? && s.work[t].n == n ==> Outcome(s.work[t]) == s.topUps[n])
  }

  /** What one step of a handler does to the row of `n`, and which decision it may come to. */
  lemma HandleEffect(s: State, t: nat, ok: bool, n: string)
    requires |s.work| == |s.lock.threads| && t < |s.work| && L.Refs(s.lock) && Enabled(s, t, Handle(ok))
    requires CopyFresh(s, s.work[t]) && n in s.topUps && s.topUps[n].status != Pending && n !in s.subs
    ensures var s', w := Exec(s, t, Handle(ok)), s.work[t];
            && s'.loose == s.loose && s'.work == s.work[t := s'.work[t]] && n in s'.topUps
            && (s'.topUps[n] == s.topUps[n] || (w.TopWrite? && w.n == n && s'.topUps[n] == Outcome(w)))
            && !(s'.work[t].TopWrite? && s'.work[t].n == n)
  {
  }

  lemma SettledHandle(s: State, t: nat, ok: bool, n: string)
    requires |s.work| == |s.lock.threads| && t < |s.work| && L.Refs(s.lock) && Enabled(s, t, Handle(ok))
    requires CopyFresh(s, s.work[t]) && NothingLoose(s, n) && s.topUps[n].status != Pending && n !in s.subs
    ensures NothingLoose(Exec(s, t, Handle(ok)), n) && Exec(s, t, Handle(ok)).topUps[n] == s.topUps[n]
  {
    HandleEffect(s, t, ok, n);
    hide Exec, CopyFresh, Enabled;
    var s' := Exec(s, t, Handle(ok));
    forall u | 0 <= u < |s'.work| && s'.work[u].TopWrite? && s'.work[u].n == n
      ensures Outcome(s'.work[u]) == s'.topUps[n] {
      assert u != t ==> s'.work[u] == s.work[u];
    }
  }

  lemma SettledLoose(s: State, t: nat, k: nat, ok: bool, n: string)
    requires Inv(s) && t < |s.work| && k < |s.loose|
    requires NothingLoose(s, n)
    ensures NothingLoose(Exec(s, t, LooseWrite(k, ok)), n) && Exec(s, t, LooseWrite(k, ok)).topUps[n] == s.topUps[n]
  {
    var s' := Exec(s, t, LooseWrite(k, ok));
    assert forall j :: 0 <= j < |s'.loose| ==> s'.loose[j] == s.loose[if j < k then j else j + 1];
  }

  lemma SettledLock(s: State, t: nat, e: Event, n: string)
    requires Inv(s) && t < |s.work| && Enabled(s, t, e) && (e.Arrive? || e.LockGo?)
    requires NothingLoose(s, n)
    ensures NothingLoose(Exec(s, t, e), n) && Exec(s, t, e).topUps[n] == s.topUps[n]
  {
    hide L.Exec;
    var s' := Exec(s, t, e);
    assert s'.loose == s.loose && s'.topUps == s.topUps;
    assert forall u :: 0 <= u < |s'.work| ==> s'.work[u] == s.work[u] || !s'.work[u].TopWrite?;
  }

  lemma SettledStep(s: State, t: nat, e: Event, n: string)
    requires Inv(s) && t < |s.work| && Enabled(s, t, e)
    requires NothingLoose(s, n) && s.topUps[n].status != Pending && n !in s.subs
    ensures NothingLoose(Exec(s, t, e), n) && Exec(s, t, e).topUps[n] == s.topUps[n]
  {
    match e
    case Arrive(_, _) => SettledLock(s, t, e, n);
    case LockGo => SettledLock(s, t, e, n);
    case Handle(ok) =>
      assert CopyFresh(s, s.work[t]);
      SettledHandle(s, t, ok, n);
    case LooseWrite(k, ok) => SettledLoose(s, t, k, ok, n);
    case InsertTopUp(m, _) =>
      assert Exec(s, t, e).work == s.work;
    case _ =>
      assert Exec(s, t, e).work == s.work && Exec(s, t, e).topUps == s.topUps;
  }

  lemma SubsStay(s: State, t: nat, e: Event, n: string)
    requires Inv(s) && t < |s.work| && Enabled(s, t, e) && n !in Exec(s, t, e).subs
    ensures n !in s.subs
  {
  }

  /** A run from any state that satisfies the invariant. */
  lemma {:induction false} OnwardKeepsInv(run: seq<State>, sched: seq<Choice>, k: nat)
    requires IsRun(run, sched) && Inv(run[0]) && k < |run|
    ensures Inv(run[k])
  {
    if k > 0 {
      OnwardKeepsInv(run, sched, k - 1);
      assert Step(run[k - 1], sched[k - 1].t, sched[k - 1].e, run[k]);
      StepKeepsInv(run[k - 1], sched[k - 1].t, sched[k - 1].e);
    }
  }

  /** Once moved out of pending with no unlocked write to come, a top-up that belongs to no subscription
      never changes again. */
  lemma {:induction false} SettledForever(run: seq<State>, sched: seq<Choice>, j: nat, n: string)
    requires IsRun(run, sched) && Inv(run[0]) && j < |run|
    requires NothingLoose(run[0], n) && run[0].topUps[n].status != Pending && n !in run[j].subs
    ensures NothingLoose(run[j], n) && run[j].topUps[n] == run[0].topUps[n]
  {
    if j > 0 {
      OnwardKeepsInv(run, sched, j - 1);
      assert Step(run[j - 1], sched[j - 1].t, sched[j - 1].e, run[j]);
      SubsStay(run[j - 1], sched[j - 1].t, sched[j - 1].e, n);
      SettledForever(run, sched, j - 1, n);
      SettledStep(run[j - 1], sched[j - 1].t, sched[j - 1].e, n);
    }
  }

  /** On every run from `s`, as long as `n` belongs to no subscription, its row stays as it is. */
  ghost predicate StaysSettled(s: State, n: string)
    requires n in s.topUps
  {
    forall run: seq<State>, sched: seq<Choice> :: IsRun(run, sched) && run[0] == s && n !in run[|sched|].subs ==>
      n in run[|sched|].topUps && run[|sched|].topUps[n] == s.topUps[n]
  }

  lemma OneStepRun(s: State, t: nat, e: Event, n: string)
    requires CanStep(s, t, e) && n in s.topUps && n !in Exec(s, t, e).subs && StaysSettled(s, n)
    ensures n in Exec(s, t, e).topUps && Exec(s, t, e).topUps[n] == s.topUps[n]
  {
    var run, sched := [s, Exec(s, t, e)], [Choice(t, e)];
    assert IsRun(run, sched) && run[0] == s;
    assert run[|sched|] == Exec(s, t, e);
  }

  /** Exactly when a settled top-up is settled for good: when no write of it is under way that would
      leave another row. */
  lemma SettledForeverIff(s: State, n: string)
    requires Inv(s) && s.work != [] && n in s.topUps && s.topUps[n].status != Pending && n !in s.subs
    ensures StaysSettled(s, n) <==> NothingLoose(s, n)
  {
    hide L.CreateInv, L.BoundInv, L.CountInv, L.OwnerInv, L.Exec, Ledger, Torn;
    if NothingLoose(s, n) {
      forall run: seq<State>, sched: seq<Choice> | IsRun(run, sched) && run[0] == s && n !in run[|sched|].subs
        ensures n in run[|sched|].topUps && run[|sched|].topUps[n] == s.topUps[n]
      {
        SettledForever(run, sched, |sched|, n);
      }
    } else if k :|
          && 0 <= k < |s.loose| && s.loose[k].LooseTop? && s.loose[k].n == n
          && s.loose[k].top.(status := Failed) != s.topUps[n] {
      if StaysSettled(s, n) {
        OneStepRun(s, 0, LooseWrite(k, true), n);
      }
    } else {
      var t :| 0 <= t < |s.work| && s.work[t].TopWrite? && s.work[t].n == n && Outcome(s.work[t]) != s.topUps[n];
      assert Aligned(s.work[t], s.lock.threads[t]);
      if StaysSettled(s, n) {
        OneStepRun(s, t, Handle(true), n);
      }
    }
  }

  /** A credited top-up stays in success exactly if its creator, or a failure notice that came before
      the credit, has no unlocked write still to come. */
  lemma CreditedStaysIff(run: seq<State>, sched: seq<Choice>, k: nat, n: string)
    requires IsRun(run, sched) && Init(run[0]) && k < |run| && run[k].work != []
    requires n in run[k].credits && n in run[k].topUps && run[k].topUps[n].status == Success && n !in run[k].subs
    ensures StaysSettled(run[k], n) <==> forall i :: 0 <= i < |run[k].loose| ==>
              !(run[k].loose[i].LooseTop? && run[k].loose[i].n == n)
  {
    RunKeepsInv(run, sched, k);
    var s := run[k];
    forall t | 0 <= t < |s.work| ensures !(s.work[t].TopWrite? && s.work[t].n == n) {
      assert CopyFresh(s, s.work[t]);
    }
    SettledForeverIff(s, n);
  }

  // ---------------------------------------------------------------- a run that goes wrong

  lemma Onward(run: seq<State>, sched: seq<Choice>, t: nat, e: Event) returns (run': seq<State>, sched': seq<Choice>)
    requires IsRun(run, sched) && |run| == |sched| + 1 && CanStep(run[|sched|], t, e)
    ensures IsRun(run', sched') && |run'| == |sched'| + 1 && run'[0] == run[0]
            && run'[|sched'|] == Exec(run[|sched|], t, e)
  {
    run', sched' := run + [Exec(run[|sched|], t, e)], sched + [Choice(t, e)];
    forall i | 0 <= i < |sched'| ensures Step(run'[i], sched'[i].t, sched'[i].e, run'[i + 1]) {
      assert i < |sched| ==> Step(run[i], sched[i].t, sched[i].e, run[i + 1]);
    }
  }

  /** The state of the run below: one thread, one Waffo top-up whose creator is still waiting. */
  function Scene(createLocked: bool, locks: map<string, L.Ref>, heap: seq<L.Rcm>, pc: L.Pc, row: TopUp,
                 credits: seq<string>, n: string, w: Work): State {
    State(L.State(createLocked, locks, heap, [pc]), map[n := row], map[], credits, [],
          [LooseTop(n, TopUp(Pending, "waffo"))], {}, {}, [w])
  }

  const WAITING := TopUp(Pending, "waffo")

  function LockScene(createLocked: bool, locks: map<string, L.Ref>, heap: seq<L.Rcm>, pc: L.Pc, n: string): State {
    Scene(createLocked, locks, heap, pc, WAITING, [], n, Entering(AdminComplete, n))
  }

  /** The steps of `LockOrder(n)` for the only thread. */
  lemma EnterScenes(n: string)
    ensures var s := LockScene(false, map[], [], L.LkCreate(n), n);
            CanStep(s, 0, LockGo) && Exec(s, 0, LockGo) == LockScene(true, map[], [], L.LkLoad(n), n)
    ensures var s := LockScene(true, map[], [], L.LkLoad(n), n);
            CanStep(s, 0, LockGo) && Exec(s, 0, LockGo)
                == LockScene(true, map[n := 0], [L.Rcm(false, 0)], L.LkCount(n, 0), n)
  {
  }

  lemma CountScenes(n: string)
    ensures var s := LockScene(true, map[n := 0], [L.Rcm(false, 0)], L.LkCount(n, 0), n);
            CanStep(s, 0, LockGo) && Exec(s, 0, LockGo)
                == LockScene(true, map[n := 0], [L.Rcm(false, 1)], L.LkLeave(n, 0), n)
    ensures var s := LockScene(true, map[n := 0], [L.Rcm(false, 1)], L.LkLeave(n, 0), n);
            CanStep(s, 0, LockGo) && Exec(s, 0, LockGo)
                == LockScene(false, map[n := 0], [L.Rcm(false, 1)], L.LkMu(n, 0), n)
  {
  }

  lemma MutexScene(n: string)
    ensures var s := LockScene(false, map[n := 0], [L.Rcm(false, 1)], L.LkMu(n, 0), n);
            CanStep(s, 0, LockGo) && Exec(s, 0, LockGo)
                == LockScene(false, map[n := 0], [L.Rcm(true, 1)], L.Holding(n, 0), n)
  {
  }

  function HeldScene(n: string, row: TopUp, credits: seq<string>, w: Work): State {
    Scene(false, map[n := 0], [L.Rcm(true, 1)], L.Holding(n, 0), row, credits, n, w)
  }

  /** The steps of the administrator's completion under the lock. */
  lemma HandleScenes(n: string)
    ensures var s := HeldScene(n, WAITING, [], Entering(AdminComplete, n));
            CanStep(s, 0, Handle(true)) && Exec(s, 0, Handle(true))
                == HeldScene(n, WAITING, [], TopRead(AdminComplete, n))
    ensures var s := HeldScene(n, WAITING, [], TopRead(AdminComplete, n));
            CanStep(s, 0, Handle(true)) && Exec(s, 0, Handle(true))
                == HeldScene(n, WAITING, [], TopWrite(AdminComplete, n, WAITING))
    ensures var s := HeldScene(n, WAITING, [], TopWrite(AdminComplete, n, WAITING));
            CanStep(s, 0, Handle(true)) && Exec(s, 0, Handle(true))
                == HeldScene(n, TopUp(Success, "waffo"), [n], Done(n))
  {
  }

  lemma Arrives(n: string) returns (run: seq<State>, sched: seq<Choice>)
    ensures IsRun(run, sched) && |run| == |sched| + 1 && Init(run[0])
    ensures run[|sched|] == LockScene(false, map[], [], L.LkCreate(n), n)
  {
    var s := State(L.State(false, map[], [], [L.Idle]), map[], map[], [], [], [], {}, {}, [Free]);
    run, sched := [s], [];
    assert Init(s) && IsRun(run, sched);
    hide IsRun, Init;
    run, sched := Onward(run, sched, 0, InsertTopUp(n, "waffo"));
    assert run[|sched|] == Scene(false, map[], [], L.Idle, WAITING, [], n, Free);
    run, sched := Onward(run, sched, 0, Arrive(AdminComplete, n));
  }

  lemma TakesLock(n: string) returns (run: seq<State>, sched: seq<Choice>)
    ensures IsRun(run, sched) && |run| == |sched| + 1 && Init(run[0])
    ensures run[|sched|] == LockScene(false, map[n := 0], [L.Rcm(true, 1)], L.Holding(n, 0), n)
  {
    hide CanStep, Exec, LockScene, Init, IsRun;
    EnterScenes(n);
    CountScenes(n);
    MutexScene(n);
    run, sched := Arrives(n);
    run, sched := Onward(run, sched, 0, LockGo);
    run, sched := Onward(run, sched, 0, LockGo);
    run, sched := Onward(run, sched, 0, LockGo);
    run, sched := Onward(run, sched, 0, LockGo);
    run, sched := Onward(run, sched, 0, LockGo);
  }

  /** An administrator completes a Waffo order while the request that created it still waits for the
      provider; the provider refuses, and the creator saves its own copy as failed: the order is
      credited and failed. */
  lemma CreditedThenFailed(n: string) returns (run: seq<State>, sched: seq<Choice>)
    ensures IsRun(run, sched) && |run| == |sched| + 1 && Init(run[0])
    ensures run[|sched|].credits == [n] && n in run[|sched|].topUps && run[|sched|].topUps[n].status == Failed
  {
    HandleScenes(n);
    run, sched := TakesLock(n);
    assert run[|sched|] == HeldScene(n, WAITING, [], Entering(AdminComplete, n));
    var done := HeldScene(n, TopUp(Success, "waffo"), [n], Done(n));
    assert CanStep(done, 0, LooseWrite(0, true));
    var last := Exec(done, 0, LooseWrite(0, true));
    assert last.credits == [n] && n in last.topUps && last.topUps[n].status == Failed;
    hide IsRun, Init, CanStep, HeldScene, Exec;
    run, sched := Onward(run, sched, 0, Handle(true));
    run, sched := Onward(run, sched, 0, Handle(true));
    run, sched := Onward(run, sched, 0, Handle(true));
    run, sched := Onward(run, sched, 0, LooseWrite(0, true));
  }

  /** Thread `t` runs its handler on without a database failure, at most `k` steps. */
  function Undisturbed(s: State, t: nat, k: nat): (r: State)
    requires |s.work| == |s.lock.threads| && t < |s.work| && L.Refs(s.lock)
    ensures r.lock == s.lock && |r.work| == |s.work|
    decreases k
  {
    if k == 0 || !Enabled(s, t, Handle(true)) then s else Undisturbed(Exec(s, t, Handle(true)), t, k - 1)
  }

  predicate Ready(s: State, t: nat, w: Work) {
    |s.work| == |s.lock.threads| && t < |s.work| && L.Refs(s.lock) && s.lock.threads[t].Holding? && s.work[t] == w
  }

  /** The thread is done and nothing else has changed. */
  predicate LeavesAlone(s: State, t: nat, n: string, s': State)
    requires t < |s.work|
  {
    s' == s.(work := s.work[t := Done(n)])
  }

  /** A pending top-up of the provider takes the status, with or without a credit; otherwise nothing changes. */
  predicate SettlesTopUp(s: State, t: nat, n: string, provider: string, status: Status, credited: bool, s': State)
    requires t < |s.work|
  {
    if n in s.topUps && s.topUps[n] == TopUp(Pending, provider)
    then s' == s.(work := s.work[t := Done(n)], topUps := s.topUps[n := TopUp(status, provider)],
                  credits := s.credits + if credited then [n] else [])
    else LeavesAlone(s, t, n, s')
  }

  /** A pending subscription order of the provider is activated, and its top-up recorded in success; otherwise
      nothing changes.  A top-up of another provider stands in the way. */
  predicate Activates(s: State, t: nat, n: string, provider: string, s': State)
    requires t < |s.work|
  {
    if n in s.subs && s.subs[n] == SubOrder(Pending, provider)
        && (n in s.topUps ==> s.topUps[n].provider == "" || s.topUps[n].provider == provider)
    then s' == s.(work := s.work[t := Done(n)], subs := s.subs[n := SubOrder(Success, provider)],
                  topUps := s.topUps[n := TopUp(Success, provider)], activations := s.activations + [n])
    else LeavesAlone(s, t, n, s')
  }

  lemma FromTopRead(s: State, t: nat, h: Handler, n: string, k: nat)
    requires Ready(s, t, TopRead(h, n)) && k >= 2
    ensures Undisturbed(s, t, k) == var w := ReadTop(s, h, n, true);
              SetWork(if w.TopWrite? then WriteTop(s, h, n, w.top) else s, t, Done(n))
  {
    var s1 := Exec(s, t, Handle(true));
    if s1.work[t].TopWrite? {
      var s2 := Exec(s1, t, Handle(true));
      assert Undisturbed(s2, t, k - 2) == s2;
      assert Undisturbed(s1, t, k - 1) == s2;
    }
  }

  lemma FromPreRead(s: State, t: nat, h: Handler, n: string, k: nat)
    requires Ready(s, t, PreRead(h, n)) && k >= 3
    ensures Undisturbed(s, t, k) == var w := ReadTop(s, h, n, true);
              SetWork(if PreReadTop(s, h, n, true).TopRead? && w.TopWrite? then WriteTop(s, h, n, w.top) else s,
                      t, Done(n))
  {
    var s1 := Exec(s, t, Handle(true));
    if s1.work[t].TopRead? {
      FromTopRead(s1, t, h, n, k - 1);
    }
  }

  lemma FromSubRead(s: State, t: nat, h: Handler, n: string, k: nat)
    requires Ready(s, t, SubRead(h, n)) && k >= 4 && n in s.subs
    ensures Undisturbed(s, t, k) == var w := ReadSub(s, h, n, true);
              SetWork(if w.SubWrite? then WriteSub(s, h, n, w.sub) else s, t, Done(n))
  {
    var s1 := Exec(s, t, Handle(true));
    if s1.work[t].SubWrite? {
      var s2 := Exec(s1, t, Handle(true));
      assert Undisturbed(s2, t, k - 2) == s2;
      assert Undisturbed(s1, t, k - 1) == s2;
    }
  }

  lemma FromEntering(s: State, t: nat, h: Handler, n: string)
    requires Ready(s, t, Entering(h, n))
    ensures Undisturbed(s, t, 5) == Undisturbed(SetWork(s, t, First(h, n)), t, 4)
    ensures Ready(SetWork(s, t, First(h, n)), t, First(h, n))
  {
  }

  lemma NoSubThere(s: State, t: nat, h: Handler, n: string, k: nat)
    requires Ready(s, t, SubRead(h, n)) && n !in s.subs && k > 0
    ensures var s' := SetWork(s, t, ReadSub(s, h, n, true));
            Undisturbed(s, t, k) == (if s'.work[t].Done? then s' else Undisturbed(s', t, k - 1))
  {
    var s' := Exec(s, t, Handle(true));
    assert s'.work[t].Done? ==> Undisturbed(s', t, k - 1) == s';
  }

  /** An order that is no subscription: a completing handler of its provider credits it and leaves it in
      success; Stripe's failure and expiry leave it failed and expired, without a credit. */
  lemma TopUpDelivery(s: State, t: nat, h: Handler, n: string)
    requires Ready(s, t, Entering(h, n)) && n !in s.subs
    ensures var s' := Undisturbed(s, t, 5);
      && (h == EpayNotify ==> SettlesTopUp(s, t, n, "epay", Success, true, s'))
      && (h == AdminComplete ==>
            if n in s.topUps then SettlesTopUp(s, t, n, s.topUps[n].provider, Success, true, s')
            else LeavesAlone(s, t, n, s'))
      && (h == CreemCheckout(true) ==> SettlesTopUp(s, t, n, "creem", Success, true, s'))
      && (h == CreemCheckout(false) ==> LeavesAlone(s, t, n, s'))
      && (h == StripeFulfill ==> SettlesTopUp(s, t, n, "stripe", Success, true, s'))
      && (h == StripeAsyncFailed ==> SettlesTopUp(s, t, n, "stripe", Failed, false, s'))
      && (h == StripeExpired ==> SettlesTopUp(s, t, n, "stripe", Expired, false, s'))
      && (h == WaffoPayment ==> SettlesTopUp(s, t, n, "waffo", Success, true, s'))
      && (h == PancakePayment ==> SettlesTopUp(s, t, n, "waffo_pancake", Success, true, s'))
      && (h == PancakeSubscription || h == EpaySubscription ==> LeavesAlone(s, t, n, s'))
  {
    hide Undisturbed, Exec, Enabled;
    FromEntering(s, t, h, n);
    var s1 := SetWork(s, t, First(h, n));
    match First(h, n)
    case TopRead(_, _) => FromTopRead(s1, t, h, n, 4);
    case PreRead(_, _) => FromPreRead(s1, t, h, n, 4);
    case SubRead(_, _) =>
      NoSubThere(s1, t, h, n, 4);
      var s2 := SetWork(s1, t, ReadSub(s1, h, n, true));
      if s2.work[t].PreRead? {
        FromPreRead(s2, t, h, n, 3);
      } else if s2.work[t].TopRead? {
        FromTopRead(s2, t, h, n, 3);
      }
  }

  /** A subscription order: a completing handler of its provider activates it, Stripe's expiry marks it
      expired, and the handlers of other orders do not look at it. */
  lemma SubscriptionDelivery(s: State, t: nat, h: Handler, n: string)
    requires Ready(s, t, Entering(h, n)) && n in s.subs
    ensures var s' := Undisturbed(s, t, 5);
      && (h.CreemCheckout? ==> Activates(s, t, n, "creem", s'))
      && (h == StripeFulfill ==> Activates(s, t, n, "stripe", s'))
      && (h == PancakeSubscription ==> Activates(s, t, n, "waffo_pancake", s'))
      && (h == EpaySubscription ==> Activates(s, t, n, "epay", s'))
      && (h == StripeExpired ==>
            if s.subs[n] == SubOrder(Pending, "stripe")
            then s' == s.(work := s.work[t := Done(n)], subs := s.subs[n := SubOrder(Expired, "stripe")])
            else LeavesAlone(s, t, n, s'))
      && (h == EpayNotify ==> SettlesTopUp(s, t, n, "epay", Success, true, s'))
      && (h == StripeAsyncFailed ==> SettlesTopUp(s, t, n, "stripe", Failed, false, s'))
      && (h == WaffoPayment ==> SettlesTopUp(s, t, n, "waffo", Success, true, s'))
      && (h == PancakePayment ==> SettlesTopUp(s, t, n, "waffo_pancake", Success, true, s'))
      && (h == AdminComplete ==>
            if n in s.topUps then SettlesTopUp(s, t, n, s.topUps[n].provider, Success, true, s')
            else LeavesAlone(s, t, n, s'))
  {
    hide Undisturbed, Exec, Enabled;
    FromEntering(s, t, h, n);
    var s1 := SetWork(s, t, First(h, n));
    match First(h, n)
    case TopRead(_, _) => FromTopRead(s1, t, h, n, 4);
    case PreRead(_, _) => FromPreRead(s1, t, h, n, 4);
    case SubRead(_, _) => FromSubRead(s1, t, h, n, 4);
  }

  // ---------------------------------------------------------------- whose rows a handler touches

  /** A handler about to write works on a copy of a row of its own provider. */
  predicate OwnCopy(w: Work) {
    match w
    case SubRead(h, _) => !h.AdminComplete?
    case SubWrite(h, _, sub) => !h.AdminComplete? && sub.provider == Provider(h)
    case TopWrite(h, _, top) => h.AdminComplete? || top.provider == Provider(h)
    case _ => true
  }

  lemma {:induction false} OwnCopies(run: seq<State>, sched: seq<Choice>, k: nat)
    requires IsRun(run, sched) && Init(run[0]) && k < |run|
    ensures forall t :: 0 <= t < |run[k].work| ==> OwnCopy(run[k].work[t])
  {
    if k > 0 {
      OwnCopies(run, sched, k - 1);
      assert Step(run[k - 1], sched[k - 1].t, sched[k - 1].e, run[k]);
      StepOwn(run[k - 1], sched[k - 1].t, sched[k - 1].e);
    }
  }

  lemma StepOwn(s: State, t: nat, e: Event)
    requires CanStep(s, t, e) && forall u :: 0 <= u < |s.work| ==> OwnCopy(s.work[u])
    ensures forall u :: 0 <= u < |Exec(s, t, e).work| ==> OwnCopy(Exec(s, t, e).work[u])
  {
    hide L.Exec;
    var s' := Exec(s, t, e);
    assert |s'.work| == |s.work| && OwnCopy(s'.work[t]);
    assert forall u :: 0 <= u < |s.work| && u != t ==> s'.work[u] == s.work[u];
  }

  /** Who may change the orders of a provider, apart from the administrator's completion. */
  predicate MayTouch(h: Handler, provider: string) {
    && (provider == "epay" ==> h.EpayNotify? || h.EpaySubscription?)
    && (provider == "creem" ==> h.CreemCheckout?)
    && (provider == "stripe" ==> h.StripeFulfill? || h.StripeAsyncFailed? || h.StripeExpired?)
    && (provider == "waffo" ==> h.WaffoPayment?)
    && (provider == "waffo_pancake" ==> h.PancakePayment? || h.PancakeSubscription?)
    && provider in {"epay", "creem", "stripe", "waffo", "waffo_pancake"}
  }

  /** On every run, a handler changes no row but those of its order, and only of its own provider: the
      administrator completes top-ups of any, and a top-up that records no provider is taken over by the
      subscription order of its number. */
  lemma TouchesOwnRowsOnly(run: seq<State>, sched: seq<Choice>, k: nat, n: string)
    requires IsRun(run, sched) && Init(run[0]) && k < |sched| && sched[k].e.Handle?
    ensures CanStep(run[k], sched[k].t, sched[k].e) && sched[k].t < |run[k].work|
    ensures var s, s', w := run[k], run[k + 1], run[k].work[sched[k].t];
      && (n in s.topUps && (n !in s'.topUps || s'.topUps[n] != s.topUps[n]) ==>
            && (w.TopWrite? || w.SubWrite?) && w.n == n
            && (w.h.AdminComplete? || MayTouch(w.h, s.topUps[n].provider)
                || (w.SubWrite? && s.topUps[n].provider == "")))
      && (n in s.subs && (n !in s'.subs || s'.subs[n] != s.subs[n]) ==>
            w.SubWrite? && w.n == n && MayTouch(w.h, s.subs[n].provider))
  {
    assert Step(run[k], sched[k].t, sched[k].e, run[k + 1]);
    CopyAtHand(run, sched, k);
    hide IsRun, Init, Locks;
    var s, w := run[k], run[k].work[sched[k].t];
    assert CopyFresh(s, w) && OwnCopy(w);
  }

  lemma CopyAtHand(run: seq<State>, sched: seq<Choice>, k: nat)
    requires IsRun(run, sched) && Init(run[0]) && k < |run|
    ensures forall t :: 0 <= t < |run[k].work| ==> CopyFresh(run[k], run[k].work[t]) && OwnCopy(run[k].work[t])
  {
    hide IsRun, Init, CopyFresh, OwnCopy;
    RunKeepsInv(run, sched, k);
    OwnCopies(run, sched, k);
  }
}

/**
 The asynchronous image job: any number of workers and timeout sweepers race on one task
 row through the compare-and-swap `UpdateWithStatus`.

 Every database access is one step.  A compare-and-swap may also fail with an error, with
 or without having been applied, and a process may crash between any two steps.
 */
module ImageJob {

  datatype Status = Queued | InProgress | Success | Failure

  datatype Payload = Nothing | Response(body: string) | ErrorInfo

  datatype Row = Row(status: Status, data: Payload)

  datatype Pc =
    | Start
    | Loaded                      // row read; about to swap Queued -> InProgress
    | Running                     // won the start; running attempts
    | ToFinish(body: string)      // about to swap InProgress -> Success
    | ToFail                      // about to swap InProgress -> Failure
    | SweepStart
    | Sweeping(seen: Status)      // sweeper read an unfinished row; about to swap seen -> Failure
    | Refunding                   // won the failure swap; about to refund
    | Stopped

  /** `quota` is what the task has been charged; `starts` counts attempt phases begun, `refunds` refunds paid,
      `produced` is the response the attempts yielded; `lost` records that a crash or database error may have
      cost a refund.  A task that was charged nothing is owed nothing. */
  datatype State = State(
    row: Row,
    quota: nat,
    actors: seq<Pc>,
    starts: nat,
    refunds: nat,
    produced: Payload,
    legacy: bool,
    lost: bool)

  datatype Swap = Clean | ErrorUnapplied | ErrorApplied

  datatype Event =
    | Load(ok: bool)
    | Cas(swap: Swap)
    | Attempted(outcome: Payload)  // Response(body) or ErrorInfo
    | Refund(ok: bool)
    | Crash

  /** `UpdateWithStatus(from)`: the row is replaced only if its status still is `from`. */
  function Swapped(row: Row, from: Status, to: Row, swap: Swap): Row {
    if row.status == from && swap != ErrorUnapplied then to else row
  }

  predicate Won(row: Row, from: Status, swap: Swap) {
    row.status == from && swap == Clean
  }

  function From(pc: Pc): Status
    requires pc.Loaded? || pc.ToFinish? || pc.ToFail? || pc.Sweeping?
  {
    match pc
    case Loaded => Queued
    case Sweeping(seen) => seen
    case _ => InProgress
  }

  function Proposed(row: Row, pc: Pc): Row
    requires pc.Loaded? || pc.ToFinish? || pc.ToFail? || pc.Sweeping?
  {
    match pc
    case Loaded => row.(status := InProgress)
    case ToFinish(body) => Row(Success, Response(body))
    case ToFail => Row(Failure, ErrorInfo)
    case Sweeping(_) => row.(status := Failure)
  }

  /** Where the actor goes after its compare-and-swap. */
  function AfterCas(s: State, pc: Pc, won: bool): Pc
    requires pc.Loaded? || pc.ToFinish? || pc.ToFail? || pc.Sweeping?
  {
    if !won then Stopped
    else match pc
      case Loaded => Running
      case ToFinish(_) => Stopped
      case ToFail => Refunding
      case Sweeping(_) => if s.legacy || s.quota == 0 then Stopped else Refunding
  }

  predicate Enabled(s: State, a: nat, e: Event)
    requires a < |s.actors|
  {
    var pc := s.actors[a];
    match e
    case Load(_) => pc.Start? || pc.SweepStart?
    case Cas(_) => pc.Loaded? || pc.ToFinish? || pc.ToFail? || pc.Sweeping?
    case Attempted(outcome) => pc.Running? && !outcome.Nothing?
    case Refund(_) => pc.Refunding?
    case Crash => !pc.Stopped?
  }

  function Exec(s: State, a: nat, e: Event): State
    requires a < |s.actors| && Enabled(s, a, e)
  {
    var pc := s.actors[a];
    match e
    case Load(ok) =>
      var unfinished := s.row.status == Queued || s.row.status == InProgress;
      s.(actors := s.actors[a := if pc.Start? && ok then Loaded
                                 else if pc.SweepStart? && ok && unfinished then Sweeping(s.row.status)
                                 else Stopped])
    case Cas(swap) =>
      var won := Won(s.row, From(pc), swap);
      var row := Swapped(s.row, From(pc), Proposed(s.row, pc), swap);
      var next := AfterCas(s, pc, won);
      State(row, s.quota, s.actors[a := next], s.starts + (if next == Running then 1 else 0), s.refunds, s.produced,
          s.legacy,
            s.lost || (s.quota > 0 && row.status == Failure && s.row.status != Failure && next != Refunding))
    case Attempted(outcome) =>
      s.(actors := s.actors[a := if outcome.Response? then ToFinish(outcome.body) else ToFail], produced := outcome)
    case Refund(ok) =>
      if s.quota == 0 then s.(actors := s.actors[a := Stopped])
      else s.(actors := s.actors[a := Stopped], refunds := s.refunds + (if ok then 1 else 0), lost := s.lost || !ok)
    case Crash =>
      s.(actors := s.actors[a := Stopped], lost := s.lost || (s.quota > 0 && pc.Refunding?))
  }

  ghost predicate Init(s: State) {
    && s.row == Row(Queued, Nothing) && s.starts == 0 && s.refunds == 0 && s.produced == Nothing && !s.lost
    && forall a :: 0 <= a < |s.actors| ==> s.actors[a].Start? || s.actors[a].SweepStart?
  }

  predicate Step(s: State, a: nat, e: Event, s': State) {
    a < |s.actors| && Enabled(s, a, e) && s' == Exec(s, a, e)
  }

  datatype Choice = Choice(a: nat, e: Event)

  ghost predicate IsRun(run: seq<State>, sched: seq<Choice>) {
    && |run| == |sched| + 1
    && forall i :: 0 <= i < |sched| ==> Step(run[i], sched[i].a, sched[i].e, run[i + 1])
  }

  // ---------------------------------------------------------------- invariant

  /** Won the start swap and has not finished. */
  predicate Runner(pc: Pc) {
    pc.Running? || pc.ToFinish? || pc.ToFail?
  }

  /** Only the winner of the start swap runs attempts, and only it can have brought success. */
  ghost predicate RunnerInv(s: State) {
    && (forall a, b | 0 <= a < |s.actors| && 0 <= b < |s.actors| ::
          Runner(s.actors[a]) && Runner(s.actors[b]) ==> a == b)
    && (forall a :: 0 <= a < |s.actors| && Runner(s.actors[a]) ==> s.starts == 1 && s.row.status != Success)
    && (forall a :: 0 <= a < |s.actors| && s.actors[a].ToFinish? ==> s.produced == Response(s.actors[a].body))
    && (forall a :: 0 <= a < |s.actors| && s.actors[a].Sweeping? ==>
          s.actors[a].seen == Queued || s.actors[a].seen == InProgress)
    && s.starts <= 1 && (s.starts == 1 ==> s.row.status != Queued)
    && (s.row.status == Success ==> s.row.data == s.produced && s.produced.Response?)
  }

  /** A refund, paid or about to be, belongs to the one move into failure. */
  ghost predicate RefundInv(s: State) {
    && (forall a, b | 0 <= a < |s.actors| && 0 <= b < |s.actors| ::
          s.actors[a].Refunding? && s.actors[b].Refunding? ==> a == b)
    && (forall a :: 0 <= a < |s.actors| && s.actors[a].Refunding? ==> s.refunds == 0 && s.row.status == Failure)
    && s.refunds <= 1 && (s.refunds == 1 ==> s.row.status == Failure && s.quota > 0)
    && (s.quota > 0 && s.row.status == Failure && !s.lost ==>
          s.refunds == 1 || exists a :: 0 <= a < |s.actors| && s.actors[a].Refunding?)
  }

  ghost predicate Inv(s: State) {
    RunnerInv(s) && RefundInv(s)
  }

  lemma StepKeepsRunner(s: State, a: nat, e: Event)
    requires RunnerInv(s) && a < |s.actors| && Enabled(s, a, e)
    ensures RunnerInv(Exec(s, a, e))
  {
    var s' := Exec(s, a, e);
    assert forall b :: 0 <= b < |s.actors| && b != a ==> s'.actors[b] == s.actors[b];
  }

  /** What a step does to the refund, the status and its own actor: a move into failure makes its actor
      owe the refund or loses it, and only an actor that owes it can pay. */
  lemma RefundEffect(s: State, a: nat, e: Event)
    requires a < |s.actors| && Enabled(s, a, e)
    requires s.actors[a].Sweeping? ==> s.actors[a].seen == Queued || s.actors[a].seen == InProgress
    ensures var s', was := Exec(s, a, e), s.actors[a].Refunding?;
            && s'.actors == s.actors[a := s'.actors[a]] && s'.quota == s.quota
            && (s.row.status == Failure ==> s'.row.status == Failure) && (s.lost ==> s'.lost)
            && (s'.actors[a].Refunding? ==>
                  s.row.status != Failure && s'.row.status == Failure && s'.refunds == s.refunds)
            && (s.quota > 0 && s'.row.status == Failure && s.row.status != Failure ==>
                  s'.actors[a].Refunding? || s'.lost)
            && (s'.refunds == s.refunds || (was && s.quota > 0 && s'.refunds == s.refunds + 1))
            && (was && s.quota > 0 ==> s'.refunds == s.refunds + 1 || s'.lost)
  {
  }

  lemma StepKeepsRefund(s: State, a: nat, e: Event)
    requires RefundInv(s) && a < |s.actors| && Enabled(s, a, e)
    requires s.actors[a].Sweeping? ==> s.actors[a].seen == Queued || s.actors[a].seen == InProgress
    ensures RefundInv(Exec(s, a, e))
  {
    RefundEffect(s, a, e);
    hide Exec, Enabled;
    var s' := Exec(s, a, e);
    assert forall b :: 0 <= b < |s.actors| && b != a ==> s'.actors[b] == s.actors[b];
    if s'.quota > 0 && s'.row.status == Failure && !s'.lost && s'.refunds != 1 {
      if s.row.status == Failure {
        var b :| 0 <= b < |s.actors| && s.actors[b].Refunding?;
        assert s'.actors[b].Refunding?;
      } else {
        assert s'.actors[a].Refunding?;
      }
    }
  }

  /** Every step of every actor keeps the invariant. */
  lemma StepKeepsInv(s: State, a: nat, e: Event)
    requires Inv(s) && a < |s.actors| && Enabled(s, a, e)
    ensures Inv(Exec(s, a, e))
  {
    StepKeepsRunner(s, a, e);
    StepKeepsRefund(s, a, e);
  }

  /** The row never leaves a terminal status and otherwise only moves forward. */
  lemma StepMovesForward(s: State, a: nat, e: Event)
    requires Inv(s) && a < |s.actors| && Enabled(s, a, e)
    ensures Forward(s.row, Exec(s, a, e).row)
  {
  }

  predicate Forward(r: Row, r': Row) {
    match r.status
    case Queued => r' == r || r'.status == InProgress || r'.status == Failure
    case InProgress => r' == r || r'.status == Success || r'.status == Failure
    case _ => r' == r
  }

  lemma {:induction false} RunKeepsInv(run: seq<State>, sched: seq<Choice>, k: nat)
    requires IsRun(run, sched) && Init(run[0]) && k < |run|
    ensures Inv(run[k])
  {
    if k > 0 {
      RunKeepsInv(run, sched, k - 1);
      assert Step(run[k - 1], sched[k - 1].a, sched[k - 1].e, run[k]);
      StepKeepsInv(run[k - 1], sched[k - 1].a, sched[k - 1].e);
    }
  }

  lemma RunMovesForward(run: seq<State>, sched: seq<Choice>, k: nat)
    requires IsRun(run, sched) && Init(run[0]) && k < |sched|
    ensures Forward(run[k].row, run[k + 1].row)
  {
    RunKeepsInv(run, sched, k);
    assert Step(run[k], sched[k].a, sched[k].e, run[k + 1]);
    StepMovesForward(run[k], sched[k].a, sched[k].e);
  }

  // ---------------------------------------------------------------- theorems

  /** At most one worker ever runs attempts, and at most one at a time. */
  lemma OneRunner(run: seq<State>, sched: seq<Choice>, k: nat, a: nat, b: nat)
    requires IsRun(run, sched) && Init(run[0]) && k < |run|
    requires a < |run[k].actors| && b < |run[k].actors| && Runner(run[k].actors[a]) && Runner(run[k].actors[b])
    ensures a == b && run[k].starts == 1
  {
    RunKeepsInv(run, sched, k);
  }

  /** The quota is refunded at most once, and a refund implies the task is in failure. */
  lemma RefundAtMostOnce(run: seq<State>, sched: seq<Choice>, k: nat)
    requires IsRun(run, sched) && Init(run[0]) && k < |run|
    ensures run[k].starts <= 1 && run[k].refunds <= 1
    ensures run[k].refunds == 1 ==> run[k].row.status == Failure && run[k].quota > 0
  {
    RunKeepsInv(run, sched, k);
  }

  /** Settlement when every actor has stopped: a success carries the response the one runner
      produced and is never refunded; a failure is refunded exactly once, if anything was charged,
      unless a crash, a database error or a legacy sweep lost the refund. */
  lemma SettledExactly(run: seq<State>, sched: seq<Choice>, k: nat)
    requires IsRun(run, sched) && Init(run[0]) && k < |run|
    requires forall a :: 0 <= a < |run[k].actors| ==> run[k].actors[a].Stopped?
    ensures run[k].row.status == Success ==>
              run[k].refunds == 0 && run[k].produced.Response? && run[k].row.data == run[k].produced
    ensures run[k].row.status == Failure && !run[k].lost ==> run[k].refunds == if run[k].quota > 0 then 1 else 0
    ensures run[k].row.status == Queued || run[k].row.status == InProgress ==> run[k].refunds == 0
  {
    RunKeepsInv(run, sched, k);
  }

  /** A refund is lost only through a crash, an error, or a legacy sweep. */
  lemma {:induction false} NothingLost(run: seq<State>, sched: seq<Choice>, k: nat)
    requires IsRun(run, sched) && Init(run[0]) && k < |run| && !run[0].legacy
    requires forall i :: 0 <= i < k ==>
               sched[i].e != Crash && sched[i].e != Refund(false) && sched[i].e != Cas(ErrorApplied)
    ensures !run[k].lost && !run[k].legacy
  {
    if k > 0 {
      NothingLost(run, sched, k - 1);
      RunKeepsInv(run, sched, k - 1);
      assert Step(run[k - 1], sched[k - 1].a, sched[k - 1].e, run[k]);
    }
  }

  /** Status moves queued -> in-progress -> success or failure (a sweep may fail a queued task);
      a terminal row, with its data, is final. */
  lemma {:induction false} StatusMonotone(run: seq<State>, sched: seq<Choice>, i: nat, j: nat)
    requires IsRun(run, sched) && Init(run[0]) && i <= j < |run|
    ensures run[i].row.status == Success || run[i].row.status == Failure ==> run[j].row == run[i].row
    ensures run[i].row.status == InProgress ==> run[j].row.status != Queued
  {
    if i < j {
      StatusMonotone(run, sched, i, j - 1);
      RunMovesForward(run, sched, j - 1);
    }
  }

  /** A worker on the failure path that nobody overtakes pays exactly one refund. */
  lemma FailurePathRefunds(s: State, a: nat)
    requires Inv(s) && a < |s.actors| && s.actors[a].ToFail? && s.row.status == InProgress
    ensures var s1 := Exec(s, a, Cas(Clean));
            && s1.row == Row(Failure, ErrorInfo) && s1.actors[a].Refunding?
            && var s2 := Exec(s1, a, Refund(true));
               s2.refunds == (if s.quota > 0 then 1 else 0) && s2.actors[a].Stopped? && s2.row == s1.row
  {
  }

  /** A worker that starts on a queued task, and that nobody overtakes, takes it into progress and runs it. */
  lemma StartTakes(s: State, a: nat)
    requires a < |s.actors| && s.actors[a].Start? && s.row.status == Queued
    ensures var s1 := Exec(s, a, Load(true));
            && s1.actors[a].Loaded? && s1.row == s.row
            && var s2 := Exec(s1, a, Cas(Clean));
               s2.row == Row(InProgress, s.row.data) && s2.actors == s.actors[a := Running] && s2.refunds == s.refunds
               && s2.starts == s.starts + 1
  {
  }

  /** A running worker whose attempts yield a response, and that nobody overtakes, ends with the row in success
      carrying that response, and refunds nothing; one whose attempts fail ends on the failure path. */
  lemma AttemptsDecide(s: State, a: nat, outcome: Payload)
    requires a < |s.actors| && s.actors[a].Running? && s.row.status == InProgress && !outcome.Nothing?
    ensures var s1 := Exec(s, a, Attempted(outcome));
            && s1.row == s.row && s1.refunds == s.refunds && s1.produced == outcome
            && if outcome.ErrorInfo? then s1.actors[a] == ToFail
               else
                 s1.actors[a] == ToFinish(outcome.body) &&
                 var s2 := Exec(s1, a, Cas(Clean));
                 s2.row == Row(Success, Response(outcome.body)) && s2.refunds == s.refunds
                 && s2.actors == s.actors[a := Stopped]
  {
  }

  /** A sweeper that nobody overtakes fails an unfinished task and refunds it once, unless nothing was charged or
      the task is a legacy one; it leaves a finished task alone. */
  lemma SweepFails(s: State, a: nat)
    requires a < |s.actors| && s.actors[a].SweepStart?
    ensures var s1 := Exec(s, a, Load(true));
            && s1.row == s.row && s1.refunds == s.refunds
            && if s.row.status == Success || s.row.status == Failure then s1.actors[a].Stopped?
               else
                 s1.actors[a].Sweeping? &&
                 var s2 := Exec(s1, a, Cas(Clean));
                 s2.row == Row(Failure, s.row.data) && s2.refunds == s.refunds
                 && if s.quota == 0 || s.legacy then s2.actors[a].Stopped?
                    else s2.actors[a].Refunding? && Exec(s2, a, Refund(true)).refunds == s.refunds + 1
  {
  }

  /** Somebody else has moved the row since. */
  predicate Overtaken(s: State, pc: Pc) {
    || (pc.Loaded? && s.row.status != Queued)
    || ((pc.ToFinish? || pc.ToFail?) && s.row.status != InProgress)
    || (pc.Sweeping? && s.row.status != pc.seen)
  }

  /** Whoever loses the swap, or sees it fail, stops without a refund; a swap that was lost or not applied leaves
      the row alone, whatever the actor wanted to write. */
  lemma LoserStops(s: State, a: nat, swap: Swap)
    requires a < |s.actors| && Enabled(s, a, Cas(swap)) && (swap != Clean || Overtaken(s, s.actors[a]))
    ensures var s' := Exec(s, a, Cas(swap));
            && s'.actors == s.actors[a := Stopped] && s'.refunds == s.refunds && s'.starts == s.starts
            && (s'.row == s.row || (swap == ErrorApplied && !Overtaken(s, s.actors[a])))
  {
  }

  // ---------------------------------------------------------------- why a job failed

  ghost predicate NoSweepers(s: State) {
    forall a :: 0 <= a < |s.actors| ==> !s.actors[a].SweepStart? && !s.actors[a].Sweeping?
  }

  /** A row carries no data until it is settled, and in failure the runner's error, which the attempts did
      yield, or what a sweeper left. */
  ghost predicate FailureInv(s: State, swept: bool) {
    && (!swept ==> NoSweepers(s))
    && (forall a :: 0 <= a < |s.actors| && s.actors[a].ToFail? ==> s.produced == ErrorInfo)
    && (s.row.status == Queued || s.row.status == InProgress ==> s.row.data == Nothing)
    && (s.row.status == Failure ==> FailedByRunner(s) || (swept && s.row.data == Nothing))
  }

  ghost predicate FailedByRunner(s: State) {
    && s.row.data == ErrorInfo && s.produced == ErrorInfo
    && forall a :: 0 <= a < |s.actors| ==> !Runner(s.actors[a])
  }

  lemma StepKeepsFailure(s: State, a: nat, e: Event, swept: bool)
    requires RunnerInv(s) && FailureInv(s, swept) && a < |s.actors| && Enabled(s, a, e)
    ensures FailureInv(Exec(s, a, e), swept)
  {
    var s' := Exec(s, a, e);
    assert forall b :: 0 <= b < |s.actors| && b != a ==> s'.actors[b] == s.actors[b];
  }

  lemma {:induction false} RunKeepsFailure(run: seq<State>, sched: seq<Choice>, k: nat, swept: bool)
    requires IsRun(run, sched) && Init(run[0]) && k < |run| && (!swept ==> NoSweepers(run[0]))
    ensures FailureInv(run[k], swept)
  {
    if k > 0 {
      RunKeepsFailure(run, sched, k - 1, swept);
      RunKeepsInv(run, sched, k - 1);
      assert Step(run[k - 1], sched[k - 1].a, sched[k - 1].e, run[k]);
      StepKeepsFailure(run[k - 1], sched[k - 1].a, sched[k - 1].e, swept);
    }
  }

  /** On every run, a row in failure either carries the error that the attempts yielded, or was failed by a sweeper;
      without sweepers a job fails only if its attempts did. */
  lemma FailedOnlyIf(run: seq<State>, sched: seq<Choice>, k: nat)
    requires IsRun(run, sched) && Init(run[0]) && k < |run| && run[k].row.status == Failure
    ensures (run[k].row.data == ErrorInfo && run[k].produced == ErrorInfo) || run[k].row.data == Nothing
    ensures NoSweepers(run[0]) ==> run[k].row.data == ErrorInfo && run[k].produced == ErrorInfo
  {
    RunKeepsFailure(run, sched, k, true);
    if NoSweepers(run[0]) {
      RunKeepsFailure(run, sched, k, false);
    }
  }

  // ---------------------------------------------------------------- runs without mishaps

  /** No call fails and nobody crashes. */
  predicate Smooth(e: Event) {
    e == Load(true) || e == Cas(Clean) || e.Attempted? || e == Refund(true)
  }

  /** While the task is queued nobody has given up, and while it is in progress somebody runs it. */
  ghost predicate Attended(s: State) {
    && (s.row.status == Queued ==> forall a :: 0 <= a < |s.actors| ==> s.actors[a].Start? || s.actors[a].Loaded?)
    && (s.row.status == InProgress ==> exists a :: 0 <= a < |s.actors| && Runner(s.actors[a]))
  }

  lemma StepAttended(s: State, a: nat, e: Event)
    requires RunnerInv(s) && NoSweepers(s) && Attended(s) && a < |s.actors| && Enabled(s, a, e) && Smooth(e)
    ensures Attended(Exec(s, a, e))
  {
    var s' := Exec(s, a, e);
    if s'.row.status == InProgress {
      if s.row.status == InProgress {
        var b :| 0 <= b < |s.actors| && Runner(s.actors[b]);
        assert Runner(s'.actors[b]);
      } else {
        assert Runner(s'.actors[a]);
      }
    }
  }

  lemma {:induction false} RunAttended(run: seq<State>, sched: seq<Choice>, k: nat)
    requires IsRun(run, sched) && Init(run[0]) && NoSweepers(run[0]) && k < |run|
    requires forall i :: 0 <= i < k ==> Smooth(sched[i].e)
    ensures Attended(run[k]) && |run[k].actors| == |run[0].actors| && run[k].quota == run[0].quota && !run[k].lost
  {
    if k > 0 {
      RunAttended(run, sched, k - 1);
      RunKeepsInv(run, sched, k - 1);
      RunKeepsFailure(run, sched, k - 1, false);
      assert Step(run[k - 1], sched[k - 1].a, sched[k - 1].e, run[k]);
      StepAttended(run[k - 1], sched[k - 1].a, sched[k - 1].e);
    }
  }

  /** However many workers race for a task, without mishaps and sweepers it ends settled as its attempts came out:
      in success with the response they yielded and no refund, or in failure with their error and what was
      charged refunded once. */
  lemma SmoothRunSettles(run: seq<State>, sched: seq<Choice>, k: nat)
    requires IsRun(run, sched) && Init(run[0]) && NoSweepers(run[0]) && k < |run| && |run[0].actors| > 0
    requires forall i :: 0 <= i < k ==> Smooth(sched[i].e)
    requires forall a :: 0 <= a < |run[k].actors| ==> run[k].actors[a].Stopped?
    ensures run[k].row == Row(if run[k].produced.Response? then Success else Failure, run[k].produced)
            && run[k].produced != Nothing
    ensures run[k].refunds == if run[k].produced == ErrorInfo && run[0].quota > 0 then 1 else 0
  {
    RunKeepsInv(run, sched, k);
    RunAttended(run, sched, k);
    RunKeepsFailure(run, sched, k, false);
    assert run[k].actors[0].Stopped?;
  }
}

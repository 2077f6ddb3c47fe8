/**
  The join in Balances: two worker goroutines send on unbuffered channels, and the handler's
  two-iteration select receives (internal/etherfi/etherfi.go). Every interleaving is a run of Next.
 */
module Join {
  import opened Wrappers

  /**
    The trader worker. After a failure it reports the error and, once that is received, goes on:
    `ok` says whether everything before succeeded, so a false flag marks a result built on an error.
   */
  datatype TraderWorker =
    | TraderQuerying
    | TraderSendingError            // QueryTraderBalances failed
    | TraderReassigning(ok: bool)
    | TraderSendingReassignError    // reassignTraderBalances failed
    | TraderSending(ok: bool)
    | TraderDone

  datatype LpWorker =
    | LpQuerying
    | LpSendingError
    | LpSending(ok: bool)
    | LpDone

  /** The handler: in the select loop with what it has received, past it, or returned with an error. */
  datatype Handler =
    | Selecting(i: nat, t: Option<bool>, lp: Option<bool>)
    | Attributing(t: Option<bool>, lp: Option<bool>)
    | ReturnedError

  datatype System = System(handler: Handler, trader: TraderWorker, lp: LpWorker)

  function Start(): System { System(Selecting(0, None, None), TraderQuerying, LpQuerying) }

  function NextIteration(i: nat, t: Option<bool>, lp: Option<bool>): Handler {
    if i + 1 < 2 then Selecting(i + 1, t, lp) else Attributing(t, lp)
  }

  /** A worker's own computation; any of its queries may fail. */
  predicate Compute(s: System, u: System) {
    && u.handler == s.handler
    && ((u.lp == s.lp &&
         ((s.trader.TraderQuerying? && u.trader in {TraderSendingError, TraderReassigning(true)})
          || (s.trader.TraderReassigning? && u.trader in {TraderSendingReassignError, TraderSending(s.trader.ok)})))
        || (u.trader == s.trader && s.lp.LpQuerying? && u.lp in {LpSendingError, LpSending(true)}))
  }

  /** One receive of the select: sender and handler move together. */
  predicate Receive(s: System, u: System) {
    && s.handler.Selecting?
    && var Selecting(i, t, lp) := s.handler;
       || (s.trader.TraderSendingError? && u == System(ReturnedError, TraderReassigning(false), s.lp))
       || (s.trader.TraderSendingReassignError? && u == System(ReturnedError, TraderSending(false), s.lp))
       || (s.trader.TraderSending? && u == System(NextIteration(i, Some(s.trader.ok), lp), TraderDone, s.lp))
       || (s.lp.LpSendingError? && u == System(ReturnedError, s.trader, LpSending(false)))
       || (s.lp.LpSending? && u == System(NextIteration(i, t, Some(s.lp.ok)), s.trader, LpDone))
  }

  predicate Next(s: System, u: System) { Compute(s, u) || Receive(s, u) }

  predicate IsRun(run: seq<System>) {
    && run != [] && run[0] == Start()
    && forall i | 0 <= i < |run| - 1 :: Next(run[i], run[i + 1])
  }

  predicate TraderFailed(w: TraderWorker) {
    w.TraderSendingError? || w.TraderSendingReassignError? || w == TraderReassigning(false) || w == TraderSending(false)
  }

  predicate LpFailed(w: LpWorker) { w.LpSendingError? || w == LpSending(false) }

  /** A worker that failed earlier in the run: it has reported the error, or is about to. */
  predicate SomeoneFailed(s: System) { TraderFailed(s.trader) || LpFailed(s.lp) }

  /** What holds in every interleaving. */
  predicate Inv(s: System) {
    match s.handler
    case Selecting(i, t, lp) =>
      && i == (if t.Some? then 1 else 0) + (if lp.Some? then 1 else 0) && i < 2
      && t == (if s.trader.TraderDone? then Some(true) else None)
      && lp == (if s.lp.LpDone? then Some(true) else None)
      && s.trader != TraderReassigning(false) && s.trader != TraderSending(false) && s.lp != LpSending(false)
    case Attributing(t, lp) => t == Some(true) && lp == Some(true) && s.trader.TraderDone? && s.lp.LpDone?
    case ReturnedError => SomeoneFailed(s)
  }

  lemma InvStep(s: System, u: System)
    requires Inv(s) && Next(s, u)
    ensures Inv(u) && (SomeoneFailed(s) ==> SomeoneFailed(u))
  {
  }

  lemma {:induction false} InvOverRuns(run: seq<System>, i: nat)
    requires IsRun(run) && i < |run|
    ensures Inv(run[i])
  {
    if i > 0 {
      InvOverRuns(run, i - 1);
      InvStep(run[i - 1], run[i]);
    }
  }

  lemma {:induction false} FailureIsRemembered(run: seq<System>, i: nat, j: nat)
    requires IsRun(run) && i <= j < |run| && SomeoneFailed(run[i])
    ensures SomeoneFailed(run[j])
    decreases j
  {
    if i < j {
      FailureIsRemembered(run, i, j - 1);
      InvOverRuns(run, j - 1);
      InvStep(run[j - 1], run[j]);
    }
  }

  /** The handler goes on to attribution only with one good result from each worker. */
  lemma AttributionHasBoth(run: seq<System>)
    requires IsRun(run) && run[|run| - 1].handler.Attributing?
    ensures run[|run| - 1].handler == Attributing(Some(true), Some(true))
    ensures forall i | 0 <= i < |run| :: !SomeoneFailed(run[i])
  {
    InvOverRuns(run, |run| - 1);
    forall i | 0 <= i < |run| ensures !SomeoneFailed(run[i]) {
      if SomeoneFailed(run[i]) {
        FailureIsRemembered(run, i, |run| - 1);
      }
    }
  }

  /** How many moves are left at most. */
  function Rank(s: System): nat {
    (match s.trader
     case TraderQuerying => 5
     case TraderSendingError => 4
     case TraderReassigning(_) => 3
     case TraderSendingReassignError => 2
     case TraderSending(_) => 1
     case TraderDone => 0)
    + (match s.lp
       case LpQuerying => 3
       case LpSendingError => 2
       case LpSending(_) => 1
       case LpDone => 0)
  }

  /** No interleaving is endless or stuck in the select: while the handler waits, something can move. */
  lemma NeverStuck(s: System)
    requires Inv(s)
    ensures forall u | Next(s, u) :: Rank(u) < Rank(s)
    ensures s.handler.Selecting? ==> exists u :: Next(s, u)
  {
    if s.handler.Selecting? {
      var Selecting(i, t, lp) := s.handler;
      match s.trader {
        case TraderQuerying => assert Next(s, s.(trader := TraderReassigning(true)));
        case TraderReassigning(ok) => assert Next(s, s.(trader := TraderSending(ok)));
        case TraderSendingError => assert Next(s, System(ReturnedError, TraderReassigning(false), s.lp));
        case TraderSendingReassignError => assert Next(s, System(ReturnedError, TraderSending(false), s.lp));
        case TraderSending(ok) => assert Next(s, System(NextIteration(i, Some(ok), lp), TraderDone, s.lp));
        case TraderDone =>
          match s.lp {
            case LpQuerying => assert Next(s, s.(lp := LpSending(true)));
            case LpSendingError => assert Next(s, System(ReturnedError, s.trader, LpSending(false)));
            case LpSending(ok) => assert Next(s, System(NextIteration(i, t, Some(ok)), s.trader, LpDone));
            case LpDone => assert false;
          }
      }
    }
  }

  ghost predicate Final(s: System) { forall u :: !Next(s, u) }

  /** A run that can go no further has ended in a report from both results, or in an error if anyone failed. */
  lemma FinalOutcome(run: seq<System>, i: nat)
    requires IsRun(run) && i < |run| && Final(run[|run| - 1])
    ensures run[|run| - 1].handler.Attributing? || run[|run| - 1].handler.ReturnedError?
    ensures SomeoneFailed(run[i]) ==> run[|run| - 1].handler.ReturnedError?
    ensures run[|run| - 1].handler.ReturnedError? ==> exists j | 0 <= j < |run| :: SomeoneFailed(run[j])
  {
    InvOverRuns(run, |run| - 1);
    NeverStuck(run[|run| - 1]);
    if SomeoneFailed(run[i]) {
      FailureIsRemembered(run, i, |run| - 1);
    }
  }

  /** An error leaks a goroutine: the worker that failed never gets to finish. */
  lemma ErrorLeaksWorker(run: seq<System>, i: nat, j: nat)
    requires IsRun(run) && i <= j < |run| && run[i].handler.ReturnedError?
    ensures !(run[j].trader.TraderDone? && run[j].lp.LpDone?)
  {
    InvOverRuns(run, i);
    FailureIsRemembered(run, i, j);
  }
}

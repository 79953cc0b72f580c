/** `atomic_transaction`: runs a body against a fresh database session,
    commits when it returns, rolls back when it or the commit raises, and
    closes the session on every path. The session's effects are modelled as
    the committed state `D` the body stages changes against, and the calls
    made on the session as a trace of events. */
module Atomic {
  import opened Wrappers

  /** A call made on the session object by the wrapper. */
  datatype Event = Commit | Rollback | Close

  /** What the body does: return a value with its staged state, or raise. */
  datatype Step<D, T> = Returned(staged: D, value: T) | Threw(error: string)

  /** The caller's view: the body's value or the re-raised error, the
      committed state afterwards, and the calls made on the session. */
  datatype Outcome<D, T> = Outcome(result: Result<T, string>, state: D, trace: seq<Event>)

  /** Where the session is in its life, for reading traces. */
  datatype Phase = Open | Committed | RolledBack | Ended

  /** The calls the wrapper may make next from each phase: commit or roll
      back an open session, roll back after a raising commit, close once. */
  function Next(p: Phase, e: Event): Option<Phase> {
    match (p, e)
    case (Open, Commit) => Some(Committed)
    case (Open, Rollback) => Some(RolledBack)
    case (Committed, Rollback) => Some(RolledBack)
    case (Committed, Close) => Some(Ended)
    case (RolledBack, Close) => Some(Ended)
    case _ => None
  }

  function Walk(p: Phase, trace: seq<Event>): Option<Phase>
    decreases |trace|
  {
    if |trace| == 0 then Some(p)
    else match Next(p, trace[0])
      case None => None
      case Some(q) => Walk(q, trace[1..])
  }

  /** A complete session life, from opening to closing. */
  predicate IsSessionLife(trace: seq<Event>) {
    Walk(Open, trace) == Some(Ended)
  }

  /** `wrapper(*args)`: the body receives the session first and the
      caller's arguments after it. `commit` says whether committing the
      staged state raises, and with which error. */
  function Run<D, A, T>(committed: D, body: (D, A) -> Step<D, T>, args: A, commit: D -> Option<string>)
    : (o: Outcome<D, T>)
    ensures IsSessionLife(o.trace)
    ensures o.result.Success? <==> body(committed, args).Returned? && commit(body(committed, args).staged).None?
    ensures o.result.Success? ==>
      o.result.value == body(committed, args).value && o.state == body(committed, args).staged
    ensures o.result.Failure? ==> o.state == committed
    ensures body(committed, args).Threw? ==> o.result == Failure(body(committed, args).error) && Commit !in o.trace
    ensures body(committed, args).Returned? && commit(body(committed, args).staged).Some? ==>
      o.result == Failure(commit(body(committed, args).staged).value)
  {
    match body(committed, args)
    case Threw(e) => Outcome(Failure(e), committed, [Rollback, Close])
    case Returned(staged, v) =>
      match commit(staged)
      case None => Outcome(Success(v), staged, [Commit, Close])
      case Some(e) => Outcome(Failure(e), committed, [Commit, Rollback, Close])
  }

  /** Every session life ends with its only close. */
  lemma {:induction false} LifeClosesOnceAtEnd(p: Phase, trace: seq<Event>)
    requires p != Ended && Walk(p, trace) == Some(Ended)
    ensures |trace| >= 1 && trace[|trace| - 1] == Close
    ensures multiset(trace)[Close] == 1
    decreases |trace|
  {
    var q := Next(p, trace[0]).value;
    if q != Ended {
      LifeClosesOnceAtEnd(q, trace[1..]);
      assert trace == [trace[0]] + trace[1..];
    } else {
      assert Walk(q, trace[1..]) == Some(Ended);
      if |trace| > 1 {
        assert false;
      }
      assert trace == [Close];
    }
  }

  /** A session life commits at most once and rolls back at most once. */
  lemma {:induction false} LifeAtMostOnce(p: Phase, trace: seq<Event>)
    requires Walk(p, trace) == Some(Ended)
    ensures p != Open ==> Commit !in trace
    ensures multiset(trace)[Commit] <= 1
    ensures p == RolledBack ==> Rollback !in trace
    ensures multiset(trace)[Rollback] <= 1
    decreases |trace|
  {
    if |trace| > 0 {
      var q := Next(p, trace[0]).value;
      LifeAtMostOnce(q, trace[1..]);
      assert trace == [trace[0]] + trace[1..];
    }
  }

  /** The committed state moves only on the one trace that commits and
      does not roll back. */
  lemma ChangedOnlyWhenCommitted<D, A, T>(committed: D, body: (D, A) -> Step<D, T>, args: A, commit: D -> Option<string>)
    ensures var o := Run(committed, body, args, commit);
      o.result.Success? <==> o.trace == [Commit, Close]
    ensures var o := Run(committed, body, args, commit);
      Rollback in o.trace ==> o.state == committed
  {
  }
}

/** When a confirmed acceptance is taken back: the readings that do it, the runs that
    meet one, and such a run. */
module Acceptance {
  import opened Basics
  import opened Domain
  import opened Provisioning
  import opened Submission
  import opened SubmissionRuns

  // ------------------------------------------------------------------ one reading

  /** An observation that correlates negatively with a failed execution. */
  predicate ObservesRejection(x: Execution, o: Observation, at: Time) {
    !ObservationStale(x, o, at) && o.correlation.CorrNotFound? && o.execution.Some? && o.execution.value.state.BackendFailed?
  }

  /** A submission result that reports, with a failure, that nothing was ever launched. */
  predicate SubmitsRejection(x: Execution, s: Observation) {
    !ProviderStale(x, s.observedAt) && IsPreflightRejection(s)
  }

  /** An observation takes acceptance back exactly when it is a rejection. */
  lemma ObservationTakesBackExactly(x: Execution, a: Attempt, o: Observation, at: Time)
    requires x.acceptanceConfirmed && InterpretObservation(x, a, o, at).Ok?
    ensures var r := InterpretObservation(x, a, o, at).value;
            && (!r.execution.acceptanceConfirmed <==> ObservesRejection(x, o, at))
            && (ObservesRejection(x, o, at) ==> r.finish.Some? && !r.finish.value.succeeded)
  {
    hide FailureFrom, FactsAcceptable, UncorrelatedFailure, AcceptProvider;
  }

  /** A submission takes it back exactly when it is a rejection. */
  lemma SubmissionTakesBackExactly(x: Execution, a: Attempt, s: Observation, error: Option<string>, detail: string, at: Time)
    requires x.acceptanceConfirmed
    ensures var r := InterpretSubmission(x, a, s, error, detail, at);
            && (!r.execution.acceptanceConfirmed <==> SubmitsRejection(x, s))
            && (SubmitsRejection(x, s) ==> r.finish.Some? && !r.finish.value.succeeded)
  {
    hide StaleFailure, MalformedFailure, FailureFrom, FactsAcceptable, EvidenceFresh, AcceptProvider, SubmissionSucceeded, ManagedTargetAbsent;
  }

  // --------------------------------------------------------------------- all runs

  /** What happens to unfinished work is a rejection. */
  predicate Rejects(w: Work, h: Happening) {
    && w.finish.None?
    && match h
       case Submitted(s, _, _, _) => SubmitsRejection(w.execution, s)
       case Observed(o, at) => ObservesRejection(w.execution, o, at)
       case _ => false
  }

  predicate MeetsRejection(w: Work, hs: seq<Happening>)
    decreases |hs|
  {
    hide Next, Rejects;
    hs != [] && (Rejects(w, hs[0]) || MeetsRejection(Next(w, hs[0]), hs[1..]))
  }

  lemma NextTakesBackExactly(w: Work, h: Happening)
    requires w.finish.None? && w.execution.acceptanceConfirmed
    ensures !Next(w, h).execution.acceptanceConfirmed <==> Rejects(w, h)
    ensures Rejects(w, h) ==> Next(w, h).finish.Some? && !Next(w, h).finish.value.succeeded
  {
    hide InterpretSubmission, InterpretObservation, SubmitsRejection;
    match h
    case Submitted(s, error, detail, at) => SubmissionTakesBackExactly(w.execution, w.attempt, s, error, detail, at);
    case Observed(o, at) =>
      if ObservesRejection(w.execution, o, at) {
        RejectionIsRead(w.execution, w.attempt, o, at);
      }
      if InterpretObservation(w.execution, w.attempt, o, at).Ok? {
        ObservationTakesBackExactly(w.execution, w.attempt, o, at);
      }
    case _ =>
  }

  lemma RejectionIsRead(x: Execution, a: Attempt, o: Observation, at: Time)
    requires ObservesRejection(x, o, at)
    ensures InterpretObservation(x, a, o, at).Ok? && !InterpretObservation(x, a, o, at).value.outcome.Retry?
  {
    hide FailureFrom;
  }

  /** Acceptance survives a run exactly when no rejection is met before the finish. */
  lemma {:induction false} AcceptanceSurvivesExactly(w: Work, hs: seq<Happening>)
    requires w.finish.None? && w.execution.acceptanceConfirmed
    ensures Play(w, hs).execution.acceptanceConfirmed <==> !MeetsRejection(w, hs)
    decreases |hs|
  {
    hide Next, Rejects;
    if hs != [] {
      var n := Next(w, hs[0]);
      NextTakesBackExactly(w, hs[0]);
      if n.finish.Some? {
        FinishedRun(n, hs[1..]);
        FinishedMeetsNothing(n, hs[1..]);
      } else {
        AcceptanceSurvivesExactly(n, hs[1..]);
      }
    }
  }

  lemma {:induction false} FinishedMeetsNothing(w: Work, hs: seq<Happening>)
    requires w.finish.Some?
    ensures !MeetsRejection(w, hs)
    decreases |hs|
  {
    hide Next;
    if hs != [] {
      FinishedStays(w, hs[0]);
      FinishedMeetsNothing(w, hs[1..]);
    }
  }

  // ------------------------------------------------------------------- from a claim

  lemma UnstartedIsSane(w: Work)
    requires Unstarted(w)
    ensures Sane(w)
  {
  }

  /** From its first claim on: attempts count the retries, the execution is settled
      exactly when it finished, and success means correlated success or a delete that
      was never accepted and whose target is conclusively absent. */
  lemma EveryRunFromItsClaim(w: Work, hs: seq<Happening>)
    requires Unstarted(w)
    ensures var n := Play(w, hs);
            && n.execution.currentAttempt == w.execution.currentAttempt + CountRetries(w, hs)
            && (n.finish.Some? <==> n.execution.IsSettled())
            && (n.finish.Some? && n.finish.value.succeeded ==>
                  SaysSucceeded(n.execution) || (SaysAbsent(n.execution) && NeverAccepted(w, hs)))
  {
    hide Play, CountRetries, SaysSucceeded, SaysAbsent, NeverAccepted;
    UnstartedIsSane(w);
    EveryRun(w, hs);
    if Play(w, hs).finish.Some? && Play(w, hs).finish.value.succeeded {
      SuccessNeedsCorrelation(w, hs);
    }
  }

  const RUNNING := Observation(CorrFound, Some(BackendExecution(BackendRunning, None, None)), NO_FACTS, ZERO_TIME, None)
  const REJECTED := Observation(CorrNotFound, Some(BackendExecution(BackendFailed, None, None)), NO_FACTS, ZERO_TIME, None)

  /** Acceptance does go back: claimed, seen running, then observed as not found with a
      failed execution. */
  lemma AcceptanceIsTakenBack(w: Work, at: Time)
    requires Unstarted(w) && w.execution.lastObservedAt < at
    ensures var accepted := Play(w, [Claimed, Submitted(RUNNING, None, "", at)]);
            && accepted.execution.acceptanceConfirmed && accepted.finish.None?
            && var taken := Play(accepted, [Observed(REJECTED, at + 1)]);
            && !taken.execution.acceptanceConfirmed
            && taken.finish.Some? && !taken.finish.value.succeeded
  {
    hide InterpretSubmission, InterpretObservation, SubmissionRuns.Next;
    var claimed := Next(w, Claimed);
    var running := Submitted(RUNNING, None, "", at);
    var accepted := Next(claimed, running);
    PlayOne(w, Claimed, [running]);
    PlayOne(claimed, running, []);
    assert [Claimed, running] == [Claimed] + [running] && [running] == [running] + [];
    ClaimedThenAccepted(w, at);
    PlayOne(accepted, Observed(REJECTED, at + 1), []);
    assert [Observed(REJECTED, at + 1)] == [Observed(REJECTED, at + 1)] + [];
    NextTakesBackExactly(accepted, Observed(REJECTED, at + 1));
  }

  lemma ClaimedThenAccepted(w: Work, at: Time)
    requires Unstarted(w) && w.execution.lastObservedAt < at
    ensures var accepted := Next(Next(w, Claimed), Submitted(RUNNING, None, "", at));
            accepted.execution.acceptanceConfirmed && accepted.finish.None? && accepted.execution.lastObservedAt == at
  {
    hide FailureFrom, StaleFailure, MalformedFailure;
  }

  lemma PlayOne(w: Work, h: Happening, rest: seq<Happening>)
    ensures Play(w, [h] + rest) == Play(Next(w, h), rest)
  {
    hide Next;
    assert ([h] + rest)[1..] == rest;
  }
}

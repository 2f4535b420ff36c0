/** What a reading says, field by field, as conditions on the evidence alone: when a
    report is usable, which outcome it has, and when it confirms acceptance. */
module Readings {
  import opened Basics
  import opened Domain
  import opened Provisioning
  import opened Submission
  import opened SubmissionRuns
  import opened Acceptance

  // ------------------------------------------------------------ what evidence says

  /** The execution is reported, in this state. */
  predicate Reports(o: Observation, state: BackendState) {
    o.execution.Some? && o.execution.value.state == state
  }

  predicate ReportsTheEnd(o: Observation) {
    Reports(o, BackendSucceeded) || Reports(o, BackendFailed)
  }

  predicate ReportsProgress(o: Observation) {
    Reports(o, BackendAccepted) || Reports(o, BackendRunning)
  }

  /** Facts that a report may carry: none, or each from its vocabulary, with readiness
      known of a present resource only. */
  predicate FactsReadable(f: ObservedFacts) {
    || f == ObservedFacts(PresenceUnset, ReadinessUnset, DriftUnset)
    || (&& f.drift in {InSync, Drifted, DriftUnknown}
        && f.readiness in {FactReady, FactNotReady, ReadinessUnknown}
        && f.presence in (if f.readiness == ReadinessUnknown then {Present, PresenceNotFound, PresenceUnknown} else {Present}))
  }

  /** A submission report that is neither out of date nor malformed. */
  predicate Usable(x: Execution, s: Observation) {
    && (s.execution.Some? ==> s.observedAt == 0 || x.lastProviderObservedAt < s.observedAt)
    && (FactsReadable(s.facts) || ReportsTheEnd(s))
  }

  /** It reports a failure of something that was never launched. */
  predicate ReportsNoLaunch(s: Observation) {
    s.correlation.CorrNotFound? && Reports(s, BackendFailed) && s.execution.value.failure.Some?
  }

  /** Of these, what a delete that was never accepted takes for its target's absence. */
  predicate ReportsAbsence(x: Execution, s: Observation) {
    && ReportsNoLaunch(s) && s.execution.value.failure.value.kind.KindNotFound?
    && x.intent.capability.Delete? && !x.acceptanceConfirmed
  }

  function Later(a: Time, b: Time): (r: Time)
    ensures a <= r && b <= r && (r == a || r == b)
  {
    if a <= b then b else a
  }

  /** Facts that do not read are dropped from a terminal report. */
  function Cleaned(o: Observation): Observation {
    if FactsReadable(o.facts) then o else o.(facts := ObservedFacts(PresenceUnset, ReadinessUnset, DriftUnset))
  }

  lemma ReadableFacts(o: Observation)
    ensures FactsAcceptable(o.facts) <==> FactsReadable(o.facts)
    ensures WithoutMalformedFacts(o) == Cleaned(o)
    ensures TerminalBackend(o.execution) <==> ReportsTheEnd(o)
  {
  }

  // ----------------------------------------------------------------- submissions

  lemma UsableIsRead(x: Execution, a: Attempt, s: Observation, error: Option<string>, detail: string, at: Time)
    ensures Usable(x, s) <==> !Classify(x, s, error).StaleSubmission? && !Classify(x, s, error).MalformedSubmission?
    ensures Usable(x, s) ==>
              InterpretSubmission(x, a, s, error, detail, at) ==
                Settle(Classify(x, s, error), Recorded(x, Cleaned(s), at), a, Cleaned(s), error, at)
  {
    hide FactsAcceptable, FactsReadable, Recorded, Settle, Cleaned, WithoutMalformedFacts, TerminalBackend, ReportsTheEnd, ClassifyUsable,
         StaleFailure, MalformedFailure;
    ReadableFacts(s);
    UsableClass(x, s, error);
  }

  lemma UsableClass(x: Execution, s: Observation, error: Option<string>)
    ensures !ClassifyUsable(x, s, error).StaleSubmission? && !ClassifyUsable(x, s, error).MalformedSubmission?
  {
  }

  /** The four outcomes of a submission: each is decided by the report, and by the delete
      that was never accepted. */
  lemma SubmissionOutcomes(x: Execution, a: Attempt, s: Observation, error: Option<string>, detail: string, at: Time)
    ensures var r := InterpretSubmission(x, a, s, error, detail, at);
            && (r.outcome.Accepted? <==> Usable(x, s) && error.None? && s.correlation.CorrFound? && ReportsProgress(s))
            && (r.outcome.Succeeded? <==>
                  Usable(x, s) && ((s.correlation.CorrFound? && Reports(s, BackendSucceeded)) || ReportsAbsence(x, s)))
            && (r.outcome.Failed? <==>
                  Usable(x, s) && ((s.correlation.CorrFound? && Reports(s, BackendFailed)) || (ReportsNoLaunch(s) && !ReportsAbsence(x, s))))
  {
    hide StaleFailure, MalformedFailure, FailureFrom, Recorded, SubmissionSucceeded, ManagedTargetAbsent;
  }

  /** Every outcome leaves its own states behind, and resolves the attempt unless it is
      ambiguous. */
  lemma SubmissionStates(x: Execution, a: Attempt, s: Observation, error: Option<string>, detail: string, at: Time)
    ensures var r := InterpretSubmission(x, a, s, error, detail, at);
            && (match r.outcome
                case Ambiguous => r.execution.state.AttemptUnknown? && r.attempt.state.SubUnknown?
                case Accepted => r.execution.state.AttemptAccepted? && r.attempt.state.SubAccepted?
                case Succeeded => r.execution.state.AttemptSucceeded?
                case Failed => r.execution.state.AttemptFailed?)
            && (r.outcome.Succeeded? || r.outcome.Failed? ==>
                  if s.correlation.CorrFound? then r.attempt.state.SubAccepted? else r.attempt.state.SubRejected?)
            && r.attempt.resolvedAt == (if r.outcome.Ambiguous? then a.resolvedAt else at)
            && r.attempt.number == a.number && r.attempt.operationID == a.operationID
            && (r.finish.Some? <==> r.outcome.Succeeded? || r.outcome.Failed?)
            && (r.finish.Some? ==> r.finish.value.succeeded == r.outcome.Succeeded?)
  {
    hide StaleFailure, MalformedFailure, FailureFrom, Recorded, FactsAcceptable, SubmissionSucceeded, ManagedTargetAbsent;
  }

  /** From an unconfirmed execution, acceptance is confirmed exactly by a usable report
      that found the execution, whatever else it says; a confirmed one stays confirmed
      unless the report is that nothing was launched. */
  lemma SubmissionConfirmsExactly(x: Execution, a: Attempt, s: Observation, error: Option<string>, detail: string, at: Time)
    ensures InterpretSubmission(x, a, s, error, detail, at).execution.acceptanceConfirmed <==>
              if Usable(x, s) && ReportsNoLaunch(s) then false
              else x.acceptanceConfirmed || (Usable(x, s) && s.correlation.CorrFound?)
  {
    hide StaleFailure, MalformedFailure, FailureFrom, EvidenceFresh, AcceptProvider, SubmissionSucceeded, ManagedTargetAbsent;
  }

  /** A usable report is recorded, with the handle it names and the times it brings
      forward. */
  lemma SubmissionRecords(x: Execution, a: Attempt, s: Observation, error: Option<string>, detail: string, at: Time)
    requires Usable(x, s)
    ensures var y := InterpretSubmission(x, a, s, error, detail, at).execution;
            && SameAssignment(x, y) && y.currentAttempt == x.currentAttempt
            && y.submission == y.lastObservation == Some(Cleaned(s))
            && y.correlation == (if s.correlation.CorrInvalid? then CorrUnknown else s.correlation)
            && y.handle == (if s.execution.Some? && s.execution.value.handle.Some? then s.execution.value.handle else x.handle)
            && y.lastObservedAt == (if s.execution.Some? then Later(x.lastObservedAt, at) else x.lastObservedAt)
            && y.lastProviderObservedAt == Later(x.lastProviderObservedAt, s.observedAt)
  {
    hide Settle, InterpretSubmission, Classify, Usable, Cleaned;
    UsableIsRead(x, a, s, error, detail, at);
    CleanedKeeps(s);
    RejectedClass(x, s, error);
    SettleKeepsRecord(Classify(x, s, error), Recorded(x, Cleaned(s), at), a, Cleaned(s), error, at);
  }

  lemma SettleKeepsRecord(c: SubmissionClass, y: Execution, a: Attempt, s: Observation, error: Option<string>, at: Time)
    ensures var z := Settle(c, y, a, s, error, at).execution;
            z == y.(state := z.state, acceptanceConfirmed := z.acceptanceConfirmed, lastFailure := z.lastFailure,
                    correlation := if c.TargetAbsent? || c.PreflightRejected? then CorrNotFound else y.correlation)
  {
    hide FailureFrom, SubmissionSucceeded, ManagedTargetAbsent;
  }

  lemma RejectedClass(x: Execution, s: Observation, error: Option<string>)
    ensures Classify(x, s, error).TargetAbsent? || Classify(x, s, error).PreflightRejected? ==> s.correlation.CorrNotFound?
  {
    hide FactsAcceptable, ConclusiveManagedAbsence;
  }

  /** Any other report leaves everything but the verdict alone. */
  lemma UnusableSubmissionRecordsNothing(x: Execution, a: Attempt, s: Observation, error: Option<string>, detail: string, at: Time)
    requires !Usable(x, s)
    ensures var r := InterpretSubmission(x, a, s, error, detail, at);
            && r.outcome.Ambiguous?
            && r.execution == x.(state := AttemptUnknown, correlation := CorrUnknown, lastFailure := r.execution.lastFailure)
            && r.attempt == a.(state := SubUnknown, failure := r.execution.lastFailure)
            && r.execution.lastFailure.Some? && r.execution.lastFailure.value.kind.KindUnknown?
            && r.execution.lastFailure.value.reason ==
                 if s.execution.Some? && 0 < s.observedAt <= x.lastProviderObservedAt then "StaleSubmissionEvidence" else "MalformedObservedFacts"
  {
    hide FactsAcceptable, FactsReadable, Recorded, Settle, TerminalBackend, ReportsTheEnd, ClassifyUsable;
    ReadableFacts(s);
    UsableClass(x, s, error);
  }

  /** What no reading changes. */
  predicate SameAssignment(x: Execution, y: Execution) {
    y.intent == x.intent && y.nextObservation == x.nextObservation && y.outputs == x.outputs && y.version == x.version
  }

  lemma CleanedKeeps(s: Observation)
    ensures Cleaned(s) == s.(facts := Cleaned(s).facts)
  {
  }

  /** What a terminal submission finishes the operation with. */
  lemma SubmissionFinishes(x: Execution, a: Attempt, s: Observation, error: Option<string>, detail: string, at: Time)
    ensures var r := InterpretSubmission(x, a, s, error, detail, at);
            && (r.outcome.Succeeded? ==>
                  r.finish == Some(if ReportsAbsence(x, s)
                                   then Finish(true, "ManagedTargetAbsent", "", ObservedFacts(PresenceNotFound, ReadinessUnknown, DriftUnknown))
                                   else Finish(true, "SubmissionSucceeded", "", Cleaned(s).facts)))
            && (r.outcome.Failed? ==>
                  && r.finish == Some(Finish(false, BackendReason(s), BackendMessage(s), Cleaned(s).facts))
                  && r.execution.lastFailure.Some? && r.execution.lastFailure.value.reason == BackendReason(s)
                  && r.execution.lastFailure.value.message == BackendMessage(s))
  {
    hide Recorded, Classify, Usable, Cleaned, StaleFailure, MalformedFailure, ReportsAbsence;
    UsableIsRead(x, a, s, error, detail, at);
    CleanedKeeps(s);
    if Usable(x, s) {
      AbsenceIsClassified(x, s, error);
    }
  }

  lemma AbsenceIsClassified(x: Execution, s: Observation, error: Option<string>)
    requires Usable(x, s)
    ensures Classify(x, s, error).TargetAbsent? <==> ReportsAbsence(x, s)
  {
    ReadableFacts(s);
  }

  function BackendReason(o: Observation): string {
    if o.execution.None? || o.execution.value.failure.None? then "SubmissionUnknown"
    else if o.execution.value.failure.value.reason == "" then "ExecutionFailed"
    else o.execution.value.failure.value.reason
  }

  function BackendMessage(o: Observation): string {
    if o.execution.None? || o.execution.value.failure.None? then "submission outcome is ambiguous"
    else o.execution.value.failure.value.message
  }

  // ---------------------------------------------------------------- observations

  /** An observation that claims nothing was found of an execution still under way. */
  predicate Contradicts(o: Observation) {
    o.correlation.CorrNotFound? && o.execution.Some? && !Reports(o, BackendFailed)
  }

  /** Out of date by the backend's clock, or by the worker's when the backend gave none. */
  predicate OutOfDate(x: Execution, o: Observation, at: Time) {
    || 0 < o.observedAt <= x.lastProviderObservedAt
    || (o.observedAt == 0 && 0 < x.lastObservedAt && at <= x.lastObservedAt)
  }

  /** The observation is taken into account. */
  predicate Readable(x: Execution, o: Observation, at: Time) {
    && !Contradicts(o) && !OutOfDate(x, o, at)
    && (FactsReadable(o.facts) || ReportsTheEnd(o))
    && !(o.correlation.CorrFound? && o.execution.Some? && o.execution.value.state.BackendInvalid?)
  }

  /** It is reported as missing, and never known to be accepted. */
  predicate LostUnaccepted(x: Execution, o: Observation) {
    o.correlation.CorrNotFound? && o.execution.None? && x.state.AttemptUnknown? && !x.acceptanceConfirmed
  }

  /** Which observations are refused, and which outcome the others have. */
  lemma ObservationOutcomes(x: Execution, a: Attempt, o: Observation, at: Time)
    ensures var r := InterpretObservation(x, a, o, at);
            && (r == Err(Contradictory) <==> Contradicts(o))
            && (r.Ok? && r.value.outcome.Stale? <==> !Contradicts(o) && OutOfDate(x, o, at))
            && (r == Err(MalformedFacts) <==>
                  !Contradicts(o) && !OutOfDate(x, o, at) && !FactsReadable(o.facts) && !ReportsTheEnd(o))
            && (r.Ok? && !r.value.outcome.Stale? <==> Readable(x, o, at))
            && (Readable(x, o, at) ==>
                  && (r.value.outcome.Rejected? <==> o.correlation.CorrNotFound? && Reports(o, BackendFailed))
                  && (r.value.outcome.Retry? <==> LostUnaccepted(x, o))
                  && (r.value.outcome.ObservedSuccess? <==> o.correlation.CorrFound? && Reports(o, BackendSucceeded))
                  && (r.value.outcome.ObservedFailure? <==> o.correlation.CorrFound? && Reports(o, BackendFailed)))
  {
    hide UncorrelatedFailure, FailureFrom, Noted, ObservationSucceeded;
  }

  /** Every outcome of a readable observation leaves its own states behind; only a loss
      opens another attempt. */
  lemma ObservationStates(x: Execution, a: Attempt, o: Observation, at: Time, r: Reading<ObservationOutcome>)
    requires Readable(x, o, at) && InterpretObservation(x, a, o, at) == Ok(r)
    ensures var y, b := r.execution, r.attempt;
            && (match r.outcome
                case Rejected => y.state.AttemptFailed? && b.state.SubRejected? && b.resolvedAt == at
                case Retry => y.state.AttemptPending? && b.state.SubNotFound? && b.resolvedAt == at
                case ObservedSuccess => y.state.AttemptSucceeded? && b == a
                case ObservedFailure => y.state.AttemptFailed? && b == a
                case Observe =>
                  && b == a
                  && if o.correlation.CorrFound? && ReportsProgress(o) then y.state.AttemptAccepted? else y.state.AttemptUnknown?
                case Stale => false)
            && y.currentAttempt == x.currentAttempt + (if r.outcome.Retry? then 1 else 0)
            && b.number == a.number && b.operationID == a.operationID
  {
    hide UncorrelatedFailure, FailureFrom, ObservationSucceeded;
  }

  /** From an unconfirmed execution, acceptance is confirmed exactly by a readable
      observation that found the execution; a confirmed one stays confirmed unless the
      execution is reported as failed and not found. */
  lemma ObservationConfirmsExactly(x: Execution, a: Attempt, o: Observation, at: Time)
    requires InterpretObservation(x, a, o, at).Ok?
    ensures InterpretObservation(x, a, o, at).value.execution.acceptanceConfirmed <==>
              if Readable(x, o, at) && o.correlation.CorrNotFound? && o.execution.Some? then false
              else x.acceptanceConfirmed || (Readable(x, o, at) && o.correlation.CorrFound?)
  {
    hide UncorrelatedFailure, FailureFrom, ObservationSucceeded, AcceptProvider;
  }

  lemma ObservationRecords(x: Execution, a: Attempt, o: Observation, at: Time, r: Reading<ObservationOutcome>)
    requires Readable(x, o, at) && InterpretObservation(x, a, o, at) == Ok(r)
    ensures var y := r.execution;
            && SameAssignment(x, y) && y.submission == x.submission && y.lastObservation == Some(Cleaned(o)) && y.correlation == o.correlation
            && y.lastObservedAt == at && y.lastProviderObservedAt == Later(x.lastProviderObservedAt, o.observedAt)
            && y.handle == (if o.correlation.CorrFound? && o.execution.Some? && o.execution.value.handle.Some?
                            then o.execution.value.handle else x.handle)
  {
    hide UncorrelatedFailure, FailureFrom, ObservationSucceeded;
  }

  /** What a terminal observation finishes the operation with, and no other does. */
  lemma ObservationFinishes(x: Execution, a: Attempt, o: Observation, at: Time, r: Reading<ObservationOutcome>)
    requires InterpretObservation(x, a, o, at) == Ok(r)
    ensures r.finish == if r.outcome.ObservedSuccess? then Some(Finish(true, "ObservationSucceeded", "", Cleaned(o).facts))
                        else if r.outcome.Rejected? || r.outcome.ObservedFailure?
                        then Some(Finish(false, BackendReason(o), BackendMessage(o), Cleaned(o).facts))
                        else None
  {
    hide UncorrelatedFailure, AcceptProvider;
  }

  // ------------------------------------------------------------------- failures

  /** The backend's failure, with a reason where it gave none. */
  function Told(o: Observation): ExecutionFailure {
    ExecutionFailure(if o.execution.Some? && o.execution.value.failure.Some? then o.execution.value.failure.value.kind else KindUnknown,
                     BackendReason(o), BackendMessage(o))
  }

  /** The failure an ambiguous report leaves: the backend's, or the call's own error. */
  function Doubt(s: Observation, error: Option<string>): ExecutionFailure {
    if s.execution.Some? && s.execution.value.failure.Some? then Told(s)
    else ExecutionFailure(KindUnknown, "SubmissionUnknown", if error.Some? then error.value else "submission outcome is ambiguous")
  }

  /** Which failure a usable submission leaves in the execution and in its attempt. */
  lemma SubmissionFailures(x: Execution, a: Attempt, s: Observation, error: Option<string>, detail: string, at: Time)
    requires Usable(x, s)
    ensures var r := InterpretSubmission(x, a, s, error, detail, at);
            && r.execution.lastFailure == (match r.outcome
                                           case Failed => Some(Told(s))
                                           case Ambiguous => Some(Doubt(s, error))
                                           case _ => x.lastFailure)
            && r.attempt.failure == if r.outcome.Ambiguous? then Some(Doubt(s, error))
                                    else if s.correlation.CorrNotFound? then Some(Told(s))
                                    else a.failure
  {
    hide Recorded, Classify, Usable, Cleaned, StaleFailure, MalformedFailure, SubmissionSucceeded, ManagedTargetAbsent;
    UsableIsRead(x, a, s, error, detail, at);
    CleanedKeeps(s);
    RecordedKeepsFailure(x, Cleaned(s), at);
    ClassCorrelates(x, s, error);
  }

  lemma RecordedKeepsFailure(x: Execution, s: Observation, at: Time)
    ensures Recorded(x, s, at).lastFailure == x.lastFailure
  {
  }

  lemma ClassCorrelates(x: Execution, s: Observation, error: Option<string>)
    requires Usable(x, s)
    ensures var c := Classify(x, s, error);
            && (c.TargetAbsent? || c.PreflightRejected? ==> s.correlation.CorrNotFound?)
            && (c.InProgress? || c.CorrelatedSuccess? || c.CorrelatedFailure? ==> s.correlation.CorrFound?)
            && !c.StaleSubmission? && !c.MalformedSubmission?
  {
    ReadableFacts(s);
  }

  /** And which a readable observation leaves. */
  lemma ObservationFailures(x: Execution, a: Attempt, o: Observation, at: Time, r: Reading<ObservationOutcome>)
    requires Readable(x, o, at) && InterpretObservation(x, a, o, at) == Ok(r)
    ensures r.execution.lastFailure ==
              if r.outcome.Rejected? || r.outcome.ObservedFailure? then Some(Told(o))
              else if r.outcome.Observe? && o.execution.Some? && !o.correlation.CorrFound?
              then Some(ExecutionFailure(KindUnknown, "ExecutionCorrelationUnknown", "terminal execution evidence was not positively correlated"))
              else x.lastFailure
    ensures r.attempt.failure == if r.outcome.Rejected? then Some(Told(o)) else a.failure
  {
    hide AcceptProvider, ObservationSucceeded, FactsAcceptable, FactsReadable, ObservationStale;
    ObservationOutcomes(x, a, o, at);
    KeepsCorrelation(o);
  }

  lemma KeepsCorrelation(o: Observation)
    ensures WithoutMalformedFacts(o).correlation == o.correlation
  {
  }

  // --------------------------------------------------------------------- all runs

  /** The happening brings a usable report that found the execution. */
  predicate Confirms(w: Work, h: Happening) {
    && w.finish.None?
    && match h
       case Submitted(s, _, _, _) => Usable(w.execution, s) && s.correlation.CorrFound?
       case Observed(o, at) => Readable(w.execution, o, at) && o.correlation.CorrFound?
       case _ => false
  }

  lemma NextConfirmsExactly(w: Work, h: Happening)
    requires w.finish.None? && !w.execution.acceptanceConfirmed
    ensures Next(w, h).execution.acceptanceConfirmed <==> Confirms(w, h)
  {
    hide InterpretSubmission, InterpretObservation, Usable, Readable;
    match h
    case Submitted(s, error, detail, at) => SubmissionConfirmsExactly(w.execution, w.attempt, s, error, detail, at);
    case Observed(o, at) =>
      ObservationOutcomes(w.execution, w.attempt, o, at);
      if InterpretObservation(w.execution, w.attempt, o, at).Ok? {
        ObservationConfirmsExactly(w.execution, w.attempt, o, at);
      }
    case _ =>
  }

  predicate MeetsConfirmation(w: Work, hs: seq<Happening>)
    decreases |hs|
  {
    hide Next, Confirms;
    hs != [] && (Confirms(w, hs[0]) || MeetsConfirmation(Next(w, hs[0]), hs[1..]))
  }

  /** Over any run of an unconfirmed execution: acceptance stands at its end exactly when
      some report found the execution before the finish and no rejection was met. */
  lemma {:induction false} AcceptedExactly(w: Work, hs: seq<Happening>)
    requires w.finish.None? && !w.execution.acceptanceConfirmed
    ensures Play(w, hs).execution.acceptanceConfirmed <==> MeetsConfirmation(w, hs) && !MeetsRejection(w, hs)
    decreases |hs|
  {
    hide Next, Confirms, Rejects;
    if hs != [] {
      var n := Next(w, hs[0]);
      NextConfirmsExactly(w, hs[0]);
      if Rejects(w, hs[0]) {
        RejectionIsNotConfirmed(w, hs[0]);
      }
      if n.finish.Some? {
        FinishedRun(n, hs[1..]);
        FinishedMeetsNothing(n, hs[1..]);
        FinishedIsNotConfirmed(n, hs[1..]);
      } else if n.execution.acceptanceConfirmed {
        AcceptanceSurvivesExactly(n, hs[1..]);
      } else {
        AcceptedExactly(n, hs[1..]);
      }
    }
  }

  lemma RejectionIsNotConfirmed(w: Work, h: Happening)
    requires w.finish.None? && Rejects(w, h)
    ensures !Confirms(w, h) && Next(w, h).finish.Some?
  {
    hide InterpretSubmission, InterpretObservation, Usable, Readable;
    match h
    case Submitted(s, error, detail, at) =>
      RejectionIsUsable(w.execution, s);
      SubmissionOutcomes(w.execution, w.attempt, s, error, detail, at);
      SubmissionStates(w.execution, w.attempt, s, error, detail, at);
    case Observed(o, at) =>
      RejectionIsRead(w.execution, w.attempt, o, at);
      RejectionIsReadable(w.execution, o, at);
      ObservationOutcomes(w.execution, w.attempt, o, at);
      ObservationFinishes(w.execution, w.attempt, o, at, InterpretObservation(w.execution, w.attempt, o, at).value);
  }

  lemma RejectionIsUsable(x: Execution, s: Observation)
    requires SubmitsRejection(x, s)
    ensures Usable(x, s) && ReportsNoLaunch(s)
  {
  }

  lemma RejectionIsReadable(x: Execution, o: Observation, at: Time)
    requires ObservesRejection(x, o, at)
    ensures Readable(x, o, at)
  {
  }

  lemma {:induction false} FinishedIsNotConfirmed(w: Work, hs: seq<Happening>)
    requires w.finish.Some?
    ensures !MeetsConfirmation(w, hs)
    decreases |hs|
  {
    hide Next;
    if hs != [] {
      FinishedStays(w, hs[0]);
      FinishedIsNotConfirmed(w, hs[1..]);
    }
  }

  /** Once a usable report found the execution, the backend is asked no more and no other
      attempt is opened, whatever happens. */
  lemma FoundIsNeverResubmitted(w: Work, h: Happening, hs: seq<Happening>)
    requires Sane(w) && Confirms(w, h)
    ensures var n := Play(Next(w, h), hs);
            n.submissions == w.submissions && n.execution.currentAttempt == w.execution.currentAttempt
  {
    hide Next, Confirms, Sane, SaysRejected;
    assert w.finish.None? by { ConfirmsUnfinished(w, h); }
    NextIsSane(w, h);
    ConfirmedStep(w, h);
    NoResubmissionAfterAcceptance(Next(w, h), hs);
  }

  lemma ConfirmsUnfinished(w: Work, h: Happening)
    requires Confirms(w, h)
    ensures w.finish.None?
  {
  }

  lemma ConfirmedStep(w: Work, h: Happening)
    requires Sane(w) && Confirms(w, h)
    ensures var n := Next(w, h);
            && n.execution.acceptanceConfirmed
            && n.submissions == w.submissions && n.execution.currentAttempt == w.execution.currentAttempt
  {
    hide InterpretSubmission, InterpretObservation, Usable, Readable;
    match h
    case Submitted(s, error, detail, at) =>
      SubmissionConfirmsExactly(w.execution, w.attempt, s, error, detail, at);
      SubmissionRecords(w.execution, w.attempt, s, error, detail, at);
      assert !ReportsNoLaunch(s);
    case Observed(o, at) =>
      ObservationOutcomes(w.execution, w.attempt, o, at);
      ObservationStates(w.execution, w.attempt, o, at, InterpretObservation(w.execution, w.attempt, o, at).value);
      ObservationConfirmsExactly(w.execution, w.attempt, o, at);
  }

  // --------------------------------------------------------------------- dispatches

  function AfterDispatch(w: Work, state: AttemptState, correlation: Correlation, lastFailure: Option<ExecutionFailure>, attempt: Attempt,
                         submissions: nat): Work {
    w.(execution := w.execution.(state := state, correlation := correlation, lastFailure := lastFailure), attempt := attempt, submissions := submissions)
  }

  /** What happens around a dispatch: only a pending attempt is claimed, which asks the
      backend once; only a dispatching one is given back, lost or expired. A lost one is
      unknown from then on, one given back pending as if never claimed. */
  lemma DispatchExactly(w: Work, h: Happening)
    requires w.finish.None? && !h.Submitted? && !h.Observed?
    ensures var x, a := w.execution, w.attempt;
            var due := x.state == (if h.Claimed? then AttemptPending else AttemptDispatching);
            Next(w, h) ==
              if !due then w
              else match h
                case Claimed => AfterDispatch(w, AttemptDispatching, x.correlation, x.lastFailure, a.(state := SubLeased), w.submissions + 1)
                case DispatchLost(why) =>
                  AfterDispatch(w, AttemptUnknown, CorrUnknown, Some(why), a.(state := SubUnknown, failure := Some(why)), w.submissions)
                case DispatchExpired(false) => AfterDispatch(w, AttemptUnknown, CorrUnknown, x.lastFailure, a.(state := SubUnknown), w.submissions)
                case _ => AfterDispatch(w, AttemptPending, x.correlation, x.lastFailure,
                                        Attempt(a.operationID, a.number, SubPending, 0, None), w.submissions)
  {
    hide InterpretSubmission, InterpretObservation;
  }

  /** A submission report replaces the records by its reading. */
  lemma SubmittedStep(w: Work, s: Observation, error: Option<string>, detail: string, at: Time)
    requires w.finish.None?
    ensures var r := InterpretSubmission(w.execution, w.attempt, s, error, detail, at);
            Next(w, Submitted(s, error, detail, at)) == Work(r.execution, r.attempt, r.finish, w.submissions)
  {
    hide InterpretSubmission;
  }

  /** An observation that is not readable changes nothing; a loss starts a fresh attempt under
      the next number; any other replaces the records by its reading. */
  lemma ObservedStep(w: Work, o: Observation, at: Time)
    requires w.finish.None?
    ensures !Readable(w.execution, o, at) ==> Next(w, Observed(o, at)) == w
    ensures Readable(w.execution, o, at) && LostUnaccepted(w.execution, o) ==>
              var n := Next(w, Observed(o, at));
              && n.finish.None? && n.submissions == w.submissions
              && n.attempt == Attempt(w.execution.intent.operationID, w.execution.currentAttempt + 1, SubPending, 0, None)
    ensures Readable(w.execution, o, at) && !LostUnaccepted(w.execution, o) ==>
              exists r :: InterpretObservation(w.execution, w.attempt, o, at) == Ok(r)
                          && Next(w, Observed(o, at)) == Work(r.execution, r.attempt, r.finish, w.submissions)
  {
    hide InterpretObservation, Readable, LostUnaccepted;
    var r := InterpretObservation(w.execution, w.attempt, o, at);
    StepOutcome(w.execution, w.attempt, o, at);
    assert r.Ok? ==> r == Ok(r.value);
  }

  lemma StepOutcome(x: Execution, a: Attempt, o: Observation, at: Time)
    ensures var r := InterpretObservation(x, a, o, at);
            && (!Readable(x, o, at) ==> r.Err? || r == Ok(Reading(x, a, Stale, None)))
            && (Readable(x, o, at) ==>
                  && r.Ok? && (r.value.outcome.Retry? <==> LostUnaccepted(x, o))
                  && r.value.execution.intent == x.intent
                  && (LostUnaccepted(x, o) ==> r.value.finish.None? && r.value.execution.currentAttempt == x.currentAttempt + 1))
  {
    hide InterpretObservation, Readable, LostUnaccepted;
    var r := InterpretObservation(x, a, o, at);
    ObservationOutcomes(x, a, o, at);
    if Readable(x, o, at) {
      ObservationStates(x, a, o, at, r.value);
      ObservationRecords(x, a, o, at, r.value);
      ObservationFinishes(x, a, o, at, r.value);
    } else if r.Ok? {
      StaleIsSkipped(x, a, o, at);
    }
  }

  lemma StaleIsSkipped(x: Execution, a: Attempt, o: Observation, at: Time)
    requires InterpretObservation(x, a, o, at).Ok? && InterpretObservation(x, a, o, at).value.outcome.Stale?
    ensures InterpretObservation(x, a, o, at) == Ok(Reading(x, a, Stale, None))
  {
    hide FailureFrom, UncorrelatedFailure;
  }
}

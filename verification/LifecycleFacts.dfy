/** What each group of condition updates leaves behind. */
module LifecycleFacts {
  import opened Basics
  import opened Domain
  import opened Lifecycle

  predicate Fits(cs: seq<Condition>, generation: nat, at: Time) {
    UniqueKinds(cs) && ConditionsFit(cs, generation, at)
  }

  /** The condition, when the kind is present, has the status; absent counts as unknown. */
  function StatusOfKind(cs: seq<Condition>, kind: ConditionType): ConditionStatus {
    var c := FindCondition(cs, kind);
    if c.Some? then c.value.status else CUnknown
  }

  lemma FitsLater(cs: seq<Condition>, g: nat, at: Time, g': nat, at': Time)
    requires Fits(cs, g, at) && g <= g' && at <= at'
    ensures Fits(cs, g', at')
  {
  }

  lemma {:induction false} CompletedFacts(r: Resource, s: ResourceStatus, o: Operation, at: Time)
    requires Fits(s.conditions, o.targetGeneration, at) && at != ZERO_TIME && !o.capability.OtherCapability?
    ensures var cs := CompletedConditions(r, s, o, at);
            && Fits(cs, o.targetGeneration, at)
            && StatusOfKind(cs, CondReconciling) == CFalse
            && (Holds(cs, CondReconciled) <==> r.generation <= o.targetGeneration)
            && (Holds(cs, CondReady) <==> !o.capability.Delete?)
  {
    hide Upsert, ByKind, UniqueKinds, ConditionsFit;
  }

  lemma {:induction false} FailedFacts(r: Resource, s: ResourceStatus, o: Operation, reason: string, message: string, at: Time)
    requires Fits(s.conditions, o.targetGeneration, at) && at != ZERO_TIME && !o.capability.OtherCapability?
    requires !Blank(reason)
    ensures var cs := FailedConditions(r, s, o, reason, message, at);
            && Fits(cs, o.targetGeneration, at)
            && StatusOfKind(cs, CondReconciling) == CFalse
            && !Holds(cs, CondReconciled)
            && (!o.capability.Create? ==> Holds(cs, CondReady) == Holds(s.conditions, CondReady))
  {
    hide Upsert, ByKind, UniqueKinds, ConditionsFit;
  }

  lemma {:induction false} RequestFacts(s: ResourceStatus, o: Operation, retry: bool, at: Time)
    requires Fits(s.conditions, s.observedGeneration, at) && s.observedGeneration <= o.targetGeneration
    requires at != ZERO_TIME && !o.capability.OtherCapability?
    ensures var cs := RequestConditions(s, o, retry, at);
            && Fits(cs, o.targetGeneration, at)
            && Holds(cs, CondReconciling)
            && !Holds(cs, CondReconciled)
            && (o.capability.Create? ==> !Holds(cs, CondReady))
            && (!o.capability.Create? ==> Holds(cs, CondReady) == (s.state.RsReady? || Holds(s.conditions, CondReady)))
  {
    hide Upsert, ByKind, UniqueKinds, ConditionsFit;
    FitsLater(s.conditions, s.observedGeneration, at, o.targetGeneration, at);
  }

  lemma {:induction false} ObservedFactsFit(s: ResourceStatus, f: ObservedFacts, at: Time)
    requires Fits(s.conditions, s.observedGeneration, at) && at != ZERO_TIME
    ensures var cs := ObservedConditions(s, f, at);
            && Fits(cs, s.observedGeneration, at)
            && Holds(cs, CondReconciling) == Holds(s.conditions, CondReconciling)
            && (Holds(cs, CondReconciled) <==> Holds(s.conditions, CondReconciled) && !f.drift.Drifted?)
            && FindCondition(cs, CondReconciled) == (
                 if f.drift.Drifted? then FindCondition(cs, CondReconciled)
                 else FindCondition(s.conditions, CondReconciled))
  {
    hide Upsert, ByKind, UniqueKinds, ConditionsFit;
  }
}

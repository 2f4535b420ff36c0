/** What the overlay's verdicts mean, rule by rule: which rule refuses a mutation, which
    count is held against which limit, and when no verdict can be given. */
module PolicyMeaning {
  import opened Basics
  import opened Domain
  import opened Ordering
  import opened Policy

  /** An absent selector covers everyone. */
  predicate Covers(r: Rule, intent: Intent) {
    r.owner in {None, Some(intent.owner)} && r.typeRef in {None, Some(intent.typeRef)}
  }

  predicate Refuses(r: Rule, intent: Intent) {
    r.kind == CapabilityDeny && Covers(r, intent) && exists i :: 0 <= i < |r.capabilities| && r.capabilities[i] == intent.mutation
  }

  /** A quota counts the owner's resources, or those of the type it names. */
  function Counted(r: Rule, f: Facts): nat {
    if r.typeRef == None then f.ownerCount else f.typeCount
  }

  predicate Bounds(r: Rule, intent: Intent) {
    intent.mutation == MutateCreate && r.kind == ResourceQuota && Covers(r, intent)
  }

  /** One more would be too many. */
  predicate Exceeds(r: Rule, intent: Intent, f: Facts) {
    Bounds(r, intent) && r.limit < Counted(r, f) + 1
  }

  /** The first rule that refuses the mutation. */
  predicate RefusesFirst(rules: seq<Rule>, i: int, intent: Intent) {
    0 <= i < |rules| && Refuses(rules[i], intent) && forall j :: 0 <= j < i ==> !Refuses(rules[j], intent)
  }

  /** Among the quotas that count alike none has a lower limit, or the same one and an earlier identity. */
  predicate BoundsTightest(rules: seq<Rule>, i: int, intent: Intent) {
    && 0 <= i < |rules| && Bounds(rules[i], intent)
    && forall j :: 0 <= j < |rules| && Bounds(rules[j], intent) && (rules[j].typeRef == None <==> rules[i].typeRef == None) ==>
         rules[i].limit < rules[j].limit || (rules[i].limit == rules[j].limit && !Before(rules[j].id, rules[i].id))
  }

  lemma DeniesIs(r: Rule, intent: Intent)
    ensures Denies(r, intent) <==> Refuses(r, intent)
    ensures forall d :: Limits(r, intent, d) <==> Bounds(r, intent) && (d == OwnerResources <==> r.typeRef == None)
  {
    assert intent.mutation in r.capabilities <==> exists i :: 0 <= i < |r.capabilities| && r.capabilities[i] == intent.mutation;
  }

  // -------------------------------------------------------------------- the plan

  lemma {:induction false} DenialIsFirst(rules: seq<Rule>, intent: Intent)
    ensures FirstDenial(rules, intent).None? <==> forall i :: 0 <= i < |rules| ==> !Refuses(rules[i], intent)
    ensures FirstDenial(rules, intent).Some? ==>
              exists i :: RefusesFirst(rules, i, intent) && FirstDenial(rules, intent).value == rules[i].id
  {
    hide Denies, Refuses;
    if rules != [] {
      var init, last := rules[..|rules| - 1], rules[|rules| - 1];
      DenialIsFirst(init, intent);
      DeniesIs(last, intent);
      assert forall i :: 0 <= i < |init| ==> init[i] == rules[i];
      if FirstDenial(init, intent).Some? {
        var i :| RefusesFirst(init, i, intent) && FirstDenial(init, intent).value == init[i].id;
        assert RefusesFirst(rules, i, intent);
      } else if Refuses(last, intent) {
        assert RefusesFirst(rules, |rules| - 1, intent);
      }
    }
  }

  lemma {:induction false} TightestIsLeast(rules: seq<Rule>, intent: Intent, d: Dimension)
    ensures Tightest(rules, intent, d).None? <==> forall i :: 0 <= i < |rules| ==> !Limits(rules[i], intent, d)
    ensures Tightest(rules, intent, d).Some? ==>
              && (exists i :: 0 <= i < |rules| && Limits(rules[i], intent, d) && Tightest(rules, intent, d).value == Constraint(rules[i].id, d, rules[i].limit))
              && (forall j :: 0 <= j < |rules| && Limits(rules[j], intent, d) ==>
                    var c := Tightest(rules, intent, d).value;
                    c.limit < rules[j].limit || (c.limit == rules[j].limit && !Before(rules[j].id, c.ruleID)))
  {
    hide Limits, Before;
    if rules != [] {
      var init, last := rules[..|rules| - 1], rules[|rules| - 1];
      TightestIsLeast(init, intent, d);
      assert forall i :: 0 <= i < |init| ==> init[i] == rules[i];
      if Limits(last, intent, d) {
        BeforeIrreflexive(last.id);
        assert rules[|rules| - 1] == last;
        if Tightest(init, intent, d).Some? {
          var c := Tightest(init, intent, d).value;
          forall j | 0 <= j < |init| && Limits(init[j], intent, d)
            ensures Before(last.id, c.ruleID) && !Before(init[j].id, c.ruleID) ==> !Before(init[j].id, last.id)
            ensures !Before(last.id, c.ruleID) || !Before(c.ruleID, last.id)
          {
            if Before(init[j].id, last.id) && Before(last.id, c.ruleID) {
              BeforeTransitive(init[j].id, last.id, c.ruleID);
            }
            if Before(last.id, c.ruleID) && Before(c.ruleID, last.id) {
              BeforeTransitive(last.id, c.ruleID, last.id);
            }
          }
        }
      }
    }
  }

  lemma TightestIsARule(rules: seq<Rule>, intent: Intent, d: Dimension)
    ensures Tightest(rules, intent, d).None? <==>
              forall i :: 0 <= i < |rules| && Bounds(rules[i], intent) ==> (d == OwnerResources <==> rules[i].typeRef != None)
    ensures Tightest(rules, intent, d).Some? ==>
              exists i :: BoundsTightest(rules, i, intent) && (d == OwnerResources <==> rules[i].typeRef == None)
                          && Tightest(rules, intent, d).value == Constraint(rules[i].id, d, rules[i].limit)
  {
    hide Limits, Bounds, Before, Tightest;
    TightestIsLeast(rules, intent, d);
    forall i | 0 <= i < |rules|
      ensures Limits(rules[i], intent, d) <==> Bounds(rules[i], intent) && (d == OwnerResources <==> rules[i].typeRef == None)
    {
      DeniesIs(rules[i], intent);
    }
    if Tightest(rules, intent, d).Some? {
      var i :| 0 <= i < |rules| && Limits(rules[i], intent, d) && Tightest(rules, intent, d).value == Constraint(rules[i].id, d, rules[i].limit);
      assert BoundsTightest(rules, i, intent);
    }
  }

  // ----------------------------------------------------------------- the decision

  lemma CountsDecide(a: Option<Constraint>, b: Option<Constraint>, f: Facts)
    requires ConstraintSound(a, OwnerResources) && ConstraintSound(b, OwnerTypeResources)
    ensures DecideCounts(Listed(a) + Listed(b), {}, f) ==
              if a.Some? && f.ownerCount >= a.value.limit then Ok(Some(QuotaExceeded(a.value.ruleID, f.ownerCount, a.value.limit)))
              else if b.Some? && f.typeCount >= b.value.limit then Ok(Some(QuotaExceeded(b.value.ruleID, f.typeCount, b.value.limit)))
              else Ok(None)
  {
    var cs := Listed(a) + Listed(b);
    DecideLast(b, {}, f);
    DecideLast(b, {} + {OwnerResources}, f);
    if a.Some? {
      assert cs[0] == a.value && cs[1..] == Listed(b);
    } else {
      assert cs == Listed(b);
    }
  }

  /** The refusal over a count: a tightest quota of the owner, or one of the type when no
      owner's quota is exceeded, with its own limit and the count it held against it. */
  ghost predicate OverCount(rules: seq<Rule>, intent: Intent, f: Facts, d: Denial) {
    && d.QuotaExceeded?
    && (exists i :: BoundsTightest(rules, i, intent) && Exceeds(rules[i], intent, f)
                    && d == QuotaExceeded(rules[i].id, Counted(rules[i], f), rules[i].limit)
                    && (rules[i].typeRef != None ==>
                          forall j :: 0 <= j < |rules| && rules[j].typeRef == None ==> !Exceeds(rules[j], intent, f)))
  }

  predicate NoneRefuses(rules: seq<Rule>, intent: Intent) {
    forall i :: 0 <= i < |rules| ==> !Refuses(rules[i], intent)
  }

  predicate NoneExceeds(rules: seq<Rule>, intent: Intent, f: Facts) {
    forall i :: 0 <= i < |rules| ==> !Exceeds(rules[i], intent, f)
  }

  lemma QuotasDecide(rules: seq<Rule>, intent: Intent, f: Facts, d: Result<Decision, PolicyError>)
    requires forall i :: 0 <= i < |rules| ==> RuleWellFormed(rules[i])
    requires d == DecideCounts(Listed(Tightest(rules, intent, OwnerResources)) + Listed(Tightest(rules, intent, OwnerTypeResources)), {}, f)
    ensures d.Ok?
    ensures d.value.None? <==> NoneExceeds(rules, intent, f)
    ensures d.value.Some? ==> d.value.value.QuotaExceeded? && OverCount(rules, intent, f, d.value.value)
  {
    hide Tightest, DecideCounts, Before, Covers;
    TightestIsARule(rules, intent, OwnerResources);
    TightestIsARule(rules, intent, OwnerTypeResources);
    CountsDecide(Tightest(rules, intent, OwnerResources), Tightest(rules, intent, OwnerTypeResources), f);
  }

  /** A decision on a plan of the same overlay, with facts that fit: the first rule that
      refuses the mutation decides, then the counts; without either the mutation may go on. */
  lemma VerdictMeans(p: Overlay, intent: Intent, f: Facts)
    requires OverlayWellFormed(p) && !intent.mutation.MutationOther?
    requires f.available && f.owner == intent.owner && f.typeRef == intent.typeRef
    ensures var d := DecisionOf(p, PlanOf(p, intent), f);
            && d.Ok?
            && (d.value.None? <==> NoneRefuses(p.rules, intent) && NoneExceeds(p.rules, intent, f))
            && (d.value.Some? && d.value.value.CapabilityDisabled? <==> !NoneRefuses(p.rules, intent))
            && (d.value.Some? && d.value.value.CapabilityDisabled? ==>
                  exists i :: RefusesFirst(p.rules, i, intent) && d.value.value.ruleID == p.rules[i].id)
            && (d.value.Some? && d.value.value.QuotaExceeded? ==> OverCount(p.rules, intent, f, d.value.value))
  {
    hide FirstDenial, Tightest, DecideCounts, RuleWellFormed, Refuses, Exceeds, OverCount, RefusesFirst;
    DenialIsFirst(p.rules, intent);
    var constraints := Listed(Tightest(p.rules, intent, OwnerResources)) + Listed(Tightest(p.rules, intent, OwnerTypeResources));
    QuotasDecide(p.rules, intent, f, DecideCounts(constraints, {}, f));
    if constraints == [] {
      assert DecideCounts(constraints, {}, f) == Ok(None) by { NothingCounted(f); }
    }
  }

  lemma NothingCounted(f: Facts)
    ensures DecideCounts([], {}, f) == Ok(None)
  {
  }

  /** No verdict is given exactly on a plan of another overlay revision, for an unknown
      mutation, or when a quota applies, no rule refuses, and the facts do not fit. */
  lemma NoVerdictExactly(p: Overlay, q: Overlay, intent: Intent, f: Facts)
    requires OverlayWellFormed(p)
    ensures DecisionOf(q, PlanOf(p, intent), f) == Err(Evaluation) <==>
              || p.revision != q.revision
              || intent.mutation.MutationOther?
              || (NoneRefuses(p.rules, intent) && (exists i :: 0 <= i < |p.rules| && Bounds(p.rules[i], intent))
                  && !(f.available && f.owner == intent.owner && f.typeRef == intent.typeRef))
  {
    hide FirstDenial, Tightest, DecideCounts, RuleWellFormed, Refuses, Bounds, RefusesFirst, BoundsTightest;
    DenialIsFirst(p.rules, intent);
    TightestIsARule(p.rules, intent, OwnerResources);
    TightestIsARule(p.rules, intent, OwnerTypeResources);
    var constraints := Listed(Tightest(p.rules, intent, OwnerResources)) + Listed(Tightest(p.rules, intent, OwnerTypeResources));
    QuotasDecide(p.rules, intent, f, DecideCounts(constraints, {}, f));
  }

  /** A constraint no plan of an overlay holds: without a limit or a rule, or of a dimension
      that an earlier one has. */
  predicate IllFormed(cs: seq<Constraint>, seen: set<Dimension>, i: int) {
    0 <= i < |cs| &&
    (cs[i].limit < 1 || |cs[i].ruleID| < 1 || cs[i].dimension in seen || exists j :: 0 <= j < i && cs[j].dimension == cs[i].dimension)
  }

  predicate Reached(c: Constraint, f: Facts) {
    c.limit <= if c.dimension == OwnerResources then f.ownerCount else f.typeCount
  }

  /** The first constraint that is ill-formed or reached; none before it is either. */
  predicate StopsAt(cs: seq<Constraint>, seen: set<Dimension>, f: Facts, i: int) {
    && 0 <= i < |cs| && (IllFormed(cs, seen, i) || Reached(cs[i], f))
    && forall j :: 0 <= j < i ==> !IllFormed(cs, seen, j) && !Reached(cs[j], f)
  }

  /** Any list of constraints, well-formed or not, is decided where it stops. */
  lemma {:induction false} ConstraintsDecide(cs: seq<Constraint>, seen: set<Dimension>, f: Facts)
    ensures DecideCounts(cs, seen, f) == Ok(None) <==> forall i :: 0 <= i < |cs| ==> !IllFormed(cs, seen, i) && !Reached(cs[i], f)
    ensures forall i :: StopsAt(cs, seen, f, i) ==>
              DecideCounts(cs, seen, f) ==
                if IllFormed(cs, seen, i) then Err(Evaluation)
                else Ok(Some(QuotaExceeded(cs[i].ruleID, if cs[i].dimension == OwnerResources then f.ownerCount else f.typeCount, cs[i].limit)))
  {
    hide IllFormed;
    if cs != [] {
      ConstraintsDecide(cs[1..], seen + {cs[0].dimension}, f);
      FirstIsIllFormed(cs, seen);
      forall i | 0 < i < |cs|
        ensures IllFormed(cs, seen, i) <==> IllFormed(cs[1..], seen + {cs[0].dimension}, i - 1)
        ensures cs[i] == cs[1..][i - 1]
      {
        RestIsIllFormed(cs, seen, i);
      }
      forall i | 0 < i && StopsAt(cs, seen, f, i)
        ensures StopsAt(cs[1..], seen + {cs[0].dimension}, f, i - 1)
      {
        forall j | 0 <= j < i - 1
          ensures !IllFormed(cs[1..], seen + {cs[0].dimension}, j) && !Reached(cs[1..][j], f)
        {
          assert !IllFormed(cs, seen, j + 1) && !Reached(cs[j + 1], f);
        }
      }
      if forall i :: 0 <= i < |cs[1..]| ==> !IllFormed(cs[1..], seen + {cs[0].dimension}, i) && !Reached(cs[1..][i], f) {
        forall i | 0 < i < |cs|
          ensures !IllFormed(cs, seen, i) && !Reached(cs[i], f)
        {
          assert !IllFormed(cs[1..], seen + {cs[0].dimension}, i - 1) && !Reached(cs[1..][i - 1], f);
        }
      }
      if forall i :: 0 <= i < |cs| ==> !IllFormed(cs, seen, i) && !Reached(cs[i], f) {
        forall i | 0 <= i < |cs[1..]|
          ensures !IllFormed(cs[1..], seen + {cs[0].dimension}, i) && !Reached(cs[1..][i], f)
        {
          assert !IllFormed(cs, seen, i + 1) && !Reached(cs[i + 1], f);
        }
      }
    }
  }

  lemma FirstIsIllFormed(cs: seq<Constraint>, seen: set<Dimension>)
    requires cs != []
    ensures IllFormed(cs, seen, 0) <==> cs[0].limit == 0 || cs[0].ruleID == "" || cs[0].dimension in seen
  {
  }

  lemma RestIsIllFormed(cs: seq<Constraint>, seen: set<Dimension>, i: int)
    requires 0 < i < |cs|
    ensures IllFormed(cs, seen, i) <==> IllFormed(cs[1..], seen + {cs[0].dimension}, i - 1)
  {
    assert forall j :: 0 < j < |cs| ==> cs[j] == cs[1..][j - 1];
    if exists j :: 0 <= j < i && cs[j].dimension == cs[i].dimension {
      var j :| 0 <= j < i && cs[j].dimension == cs[i].dimension;
      if j > 0 {
        assert cs[1..][j - 1].dimension == cs[1..][i - 1].dimension;
      }
    }
    if exists j :: 0 <= j < i - 1 && cs[1..][j].dimension == cs[1..][i - 1].dimension {
      var j :| 0 <= j < i - 1 && cs[1..][j].dimension == cs[1..][i - 1].dimension;
      assert cs[j + 1].dimension == cs[i].dimension;
    }
  }

  // ---------------------------------------------------------- compiling, applying

  /** Rules are accepted exactly when there are not too many, and no two share an identity
      or restrict the same thing. */
  lemma AcceptedExactly(rules: seq<Rule>)
    requires forall i :: 0 <= i < |rules| ==> RuleWellFormed(rules[i])
    ensures DistinctIDs(rules) && NoSharedKey(rules) <==>
              forall i, j :: 0 <= i < j < |rules| ==> rules[i].id != rules[j].id && !SameRestriction(rules[i], rules[j])
  {
    hide RuleWellFormed, SameRestriction, ShareKey;
    forall i, j | 0 <= i < j < |rules|
      ensures ShareKey(rules[i], rules[j]) <==> SameRestriction(rules[i], rules[j])
    {
      ShareKeyDecides(rules[i], rules[j]);
    }
  }

  /** A compiled overlay holds the same rules, denials before quotas, each by identity. */
  lemma CompiledOrder(rules: seq<Rule>)
    ensures var s := SortedBy(rules, RuleNotAfter);
            && multiset(s) == multiset(rules)
            && forall i, j :: 0 <= i < j < |s| ==>
                 if s[i].kind == s[j].kind then !Before(s[j].id, s[i].id) else s[i].kind == CapabilityDeny && s[j].kind == ResourceQuota
  {
    hide SortedBy, Before;
    RuleOrderIsTotal();
    SortedByAscends(rules, RuleNotAfter);
    var s := SortedBy(rules, RuleNotAfter);
    forall i, j | 0 <= i < j < |s|
      ensures if s[i].kind == s[j].kind then !Before(s[j].id, s[i].id) else s[i].kind == CapabilityDeny && s[j].kind == ResourceQuota
    {
      assert RuleNotAfter(s[i], s[j]);
      OrderOfIDs(s[i].id, s[j].id);
    }
  }

  lemma OrderOfIDs(a: string, b: string)
    ensures NotAfter(a, b) ==> !Before(b, a)
  {
    hide Before;
    if NotAfter(a, b) && Before(b, a) {
      BeforeIrreflexive(a);
      if a != b {
        BeforeTransitive(a, b, a);
      }
    }
  }

  /** A create under an owner's admission lock takes effect exactly for a new identity that
      no rule refuses and no quota bars at the owner's exact counts. */
  lemma ApplyExactly(p: Overlay, live: Live, id: ResourceID, owner: OwnerRef, t: TypeRef)
    requires OverlayWellFormed(p)
    ensures var intent := Intent(MutateCreate, owner, t);
            var f := Facts(true, owner, t, |set r | r in live && live[r].owner == owner|, |set r | r in live && live[r] == Holding(owner, t)|);
            Apply(p, live, CreateUnder(id, owner, t)) ==
              if id !in live && "" !in {owner.kind, owner.id, t.name, t.version}
                 && NoneRefuses(p.rules, intent) && NoneExceeds(p.rules, intent, f)
              then live[id := Holding(owner, t)] else live
  {
    hide DecisionOf, PlanOf, NoneRefuses, NoneExceeds, RuleWellFormed;
    var intent := Intent(MutateCreate, owner, t);
    VerdictMeans(p, intent, ExactFacts(live, owner, t));
  }
}

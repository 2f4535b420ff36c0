/** The admission-policy overlay: compiling rules, planning a mutation, deciding it
    from counts, and what that means for every run of admissions. */
module Policy {
  import opened Basics
  import opened Domain
  import opened Framing
  import opened Ordering

  const MAX_RULES := 1024
  const MAX_QUOTA_LIMIT: nat := 1_000_000_000

  datatype Mutation = MutateCreate | MutateUpdate | MutationOther(text: string)

  datatype RuleKind = CapabilityDeny | ResourceQuota

  /** A parsed rule; an absent selector matches everything. */
  datatype Rule = Rule(
    id: string,
    kind: RuleKind,
    owner: Option<OwnerRef>,
    typeRef: Option<TypeRef>,
    capabilities: seq<Mutation>,
    limit: nat)

  /** What rule parsing guarantees of one rule. */
  predicate RuleWellFormed(r: Rule) {
    && r.id != ""
    && (r.kind.CapabilityDeny? ==>
          && r.typeRef.Some? && r.capabilities != [] && Distinct(r.capabilities)
          && forall i :: 0 <= i < |r.capabilities| ==> !r.capabilities[i].MutationOther?)
    && (r.kind.ResourceQuota? ==> r.capabilities == [] && 1 <= r.limit <= MAX_QUOTA_LIMIT)
  }

  datatype Intent = Intent(mutation: Mutation, owner: OwnerRef, typeRef: TypeRef)

  datatype Dimension = OwnerResources | OwnerTypeResources

  datatype Constraint = Constraint(ruleID: string, dimension: Dimension, limit: nat)

  datatype Plan = Plan(intent: Intent, revision: string, denial: Option<string>, constraints: seq<Constraint>)

  datatype Facts = Facts(available: bool, owner: OwnerRef, typeRef: TypeRef, ownerCount: nat, typeCount: nat)

  datatype Denial = CapabilityDisabled(ruleID: string) | QuotaExceeded(ruleID: string, current: nat, limit: nat)

  /** Nothing to object to, or the reason for refusing. */
  type Decision = Option<Denial>

  datatype PolicyError = Evaluation | Duplicate | TooManyRules

  // -------------------------------------------------------------- selector keys

  function OwnerLabel(): string { "owner" }
  function TypeLabel(): string { "type" }

  function SelectorFields(owner: Option<OwnerRef>, typeRef: Option<TypeRef>): seq<string> {
    [OwnerLabel()] + (if owner.Some? then [owner.value.kind, owner.value.id] else [])
    + [TypeLabel()] + (if typeRef.Some? then [typeRef.value.name, typeRef.value.version] else [])
  }

  function SelectorKey(owner: Option<OwnerRef>, typeRef: Option<TypeRef>): string {
    FrameDecimal(SelectorFields(owner, typeRef))
  }

  datatype Selector = Selector(owner: Option<OwnerRef>, typeRef: Option<TypeRef>)

  /** The one confusion of the framing: an owner whose kind reads like the type label. */
  predicate Confused(a: Selector, b: Selector) {
    && a.owner.Some? && a.typeRef.None? && b.owner.None? && b.typeRef.Some?
    && a.owner.value.kind == TypeLabel()
    && a.owner.value.id == b.typeRef.value.name
    && b.typeRef.value.version == TypeLabel()
  }

  predicate Alike(a: Selector, b: Selector) {
    a == b || Confused(a, b) || Confused(b, a)
  }

  /** Keys identify selectors, except for exactly that confusion. */
  lemma SelectorKeyDecides(a: Selector, b: Selector)
    ensures SelectorKey(a.owner, a.typeRef) == SelectorKey(b.owner, b.typeRef) <==> Alike(a, b)
  {
    hide FrameDecimal, OwnerLabel, TypeLabel;
    var p, q := SelectorFields(a.owner, a.typeRef), SelectorFields(b.owner, b.typeRef);
    if SelectorKey(a.owner, a.typeRef) == SelectorKey(b.owner, b.typeRef) {
      FrameDecimalIsInjective(p, q);
      FieldsDecide(a, b);
    }
    if Alike(a, b) {
      assert p == q;
    }
  }

  lemma FieldsDecide(a: Selector, b: Selector)
    requires SelectorFields(a.owner, a.typeRef) == SelectorFields(b.owner, b.typeRef)
    ensures Alike(a, b)
  {
    hide OwnerLabel, TypeLabel;
    var p, q := SelectorFields(a.owner, a.typeRef), SelectorFields(b.owner, b.typeRef);
    assert |p| == |q|;
    assert forall i :: 0 <= i < |p| ==> p[i] == q[i];
    if |p| == 4 {
      assert p[1] == q[1] && p[2] == q[2] && p[3] == q[3];
    } else if |p| == 6 {
      assert p[1] == q[1] && p[2] == q[2] && p[4] == q[4] && p[5] == q[5];
    }
  }

  function KindText(k: RuleKind): string {
    match k
    case CapabilityDeny => "capability-deny"
    case ResourceQuota => "resource-count-quota"
  }

  function MutationText(m: Mutation): string {
    match m
    case MutateCreate => "create"
    case MutateUpdate => "update"
    case MutationOther(text) => text
  }

  function QuotaKey(r: Rule): string {
    KindText(r.kind) + (['\0'] + SelectorKey(r.owner, r.typeRef))
  }

  function DenyKey(r: Rule, m: Mutation): string {
    QuotaKey(r) + (['\0'] + MutationText(m))
  }

  function DenyKeys(r: Rule, ms: seq<Mutation>): (keys: seq<string>)
    ensures forall k :: k in keys <==> exists i :: 0 <= i < |ms| && k == DenyKey(r, ms[i])
  {
    if ms == [] then [] else DenyKeys(r, ms[..|ms| - 1]) + [DenyKey(r, ms[|ms| - 1])]
  }

  /** One key per restriction a rule imposes. */
  function SemanticKeys(r: Rule): seq<string> {
    if r.kind.ResourceQuota? then [QuotaKey(r)] else DenyKeys(r, r.capabilities)
  }

  ghost predicate ShareKey(a: Rule, b: Rule) {
    exists k :: k in SemanticKeys(a) && k in SemanticKeys(b)
  }

  /** Two rules restrict the same thing: same kind, alike selectors, a common capability. */
  ghost predicate SameRestriction(a: Rule, b: Rule) {
    && a.kind == b.kind
    && Alike(Selector(a.owner, a.typeRef), Selector(b.owner, b.typeRef))
    && (a.kind.CapabilityDeny? ==> exists m :: m in a.capabilities && m in b.capabilities)
  }

  lemma SamePrefix(x: string, y: string, x': string, y': string)
    requires |x| == |x'| && x + y == x' + y'
    ensures x == x' && y == y'
  {
    assert x == (x + y)[..|x|] && x' == (x' + y')[..|x|];
    assert y == (x + y)[|x|..] && y' == (x' + y')[|x|..];
  }

  lemma TextsDiffer()
    ensures |KindText(CapabilityDeny)| > 0 && KindText(CapabilityDeny)[0] == 'c'
    ensures |KindText(ResourceQuota)| > 0 && KindText(ResourceQuota)[0] == 'r'
    ensures |MutationText(MutateCreate)| == |MutationText(MutateUpdate)| == 6
    ensures MutationText(MutateCreate) != MutationText(MutateUpdate)
  {
    assert MutationText(MutateCreate)[0] == 'c' && MutationText(MutateUpdate)[0] == 'u';
  }

  lemma QuotaKeyDecides(a: Rule, b: Rule)
    requires a.kind == b.kind
    ensures QuotaKey(a) == QuotaKey(b) <==> Alike(Selector(a.owner, a.typeRef), Selector(b.owner, b.typeRef))
  {
    hide KindText, SelectorKey, Alike;
    SelectorKeyDecides(Selector(a.owner, a.typeRef), Selector(b.owner, b.typeRef));
    var s, t := ['\0'] + SelectorKey(a.owner, a.typeRef), ['\0'] + SelectorKey(b.owner, b.typeRef);
    if QuotaKey(a) == QuotaKey(b) {
      SamePrefix(KindText(a.kind), s, KindText(b.kind), t);
      assert s[1..] == SelectorKey(a.owner, a.typeRef) && t[1..] == SelectorKey(b.owner, b.typeRef);
    }
  }

  lemma DenyKeyDecides(a: Rule, m: Mutation, b: Rule, n: Mutation)
    requires a.kind == b.kind && !m.MutationOther? && !n.MutationOther?
    ensures DenyKey(a, m) == DenyKey(b, n) <==>
              Alike(Selector(a.owner, a.typeRef), Selector(b.owner, b.typeRef)) && m == n
  {
    hide QuotaKey, MutationText, Alike;
    QuotaKeyDecides(a, b);
    TextsDiffer();
    var s, t := ['\0'] + MutationText(m), ['\0'] + MutationText(n);
    assert |s| == |t| == 7;
    if DenyKey(a, m) == DenyKey(b, n) {
      assert |QuotaKey(a)| == |DenyKey(a, m)| - 7 == |QuotaKey(b)|;
      SamePrefix(QuotaKey(a), s, QuotaKey(b), t);
      assert s[1..] == MutationText(m) && t[1..] == MutationText(n);
    }
  }

  lemma KindShows(r: Rule, k: string)
    requires k in SemanticKeys(r)
    ensures k != "" && k[0] == KindText(r.kind)[0]
  {
    hide SelectorKey, KindText, MutationText;
    TextsDiffer();
    if r.kind.ResourceQuota? {
      assert k == QuotaKey(r);
    } else {
      var i :| 0 <= i < |r.capabilities| && k == DenyKey(r, r.capabilities[i]);
    }
  }

  lemma ShareKeyDecides(a: Rule, b: Rule)
    requires RuleWellFormed(a) && RuleWellFormed(b)
    ensures ShareKey(a, b) <==> SameRestriction(a, b)
  {
    hide QuotaKey, DenyKey, Alike, KindText;
    TextsDiffer();
    if a.kind == b.kind {
      QuotaKeyDecides(a, b);
      forall m, n | m in a.capabilities && n in b.capabilities
        ensures DenyKey(a, m) == DenyKey(b, n) <==> Alike(Selector(a.owner, a.typeRef), Selector(b.owner, b.typeRef)) && m == n
      {
        DenyKeyDecides(a, m, b, n);
      }
      if SameRestriction(a, b) {
        SharedKeyExists(a, b);
      }
    } else {
      forall k | k in SemanticKeys(a) && k in SemanticKeys(b)
        ensures false
      {
        KindShows(a, k);
        KindShows(b, k);
      }
    }
  }

  lemma SharedKeyExists(a: Rule, b: Rule)
    requires RuleWellFormed(a) && RuleWellFormed(b) && SameRestriction(a, b)
    ensures ShareKey(a, b)
  {
    hide QuotaKey, DenyKey, Alike;
    QuotaKeyDecides(a, b);
    if a.kind.ResourceQuota? {
      assert QuotaKey(a) in SemanticKeys(a) && QuotaKey(a) in SemanticKeys(b);
    } else {
      var m :| m in a.capabilities && m in b.capabilities;
      DenyKeyDecides(a, m, b, m);
      assert DenyKey(a, m) in SemanticKeys(a) && DenyKey(a, m) in SemanticKeys(b);
    }
  }

  // ------------------------------------------------------------------ compiling

  predicate RuleNotAfter(a: Rule, b: Rule) {
    if a.kind != b.kind then a.kind.CapabilityDeny? else NotAfter(a.id, b.id)
  }

  lemma RuleOrderIsTotal()
    ensures TotalOrder(RuleNotAfter)
  {
    hide NotAfter;
    NotAfterIsTotal();
  }

  predicate DistinctIDs(rules: seq<Rule>) {
    forall i, j :: 0 <= i < j < |rules| ==> rules[i].id != rules[j].id
  }

  ghost predicate NoSharedKey(rules: seq<Rule>) {
    forall i, j :: 0 <= i < j < |rules| ==> !ShareKey(rules[i], rules[j])
  }

  lemma {:induction false} DenyKeysDistinct(r: Rule, ms: seq<Mutation>)
    requires Distinct(ms) && forall i :: 0 <= i < |ms| ==> !ms[i].MutationOther?
    ensures Distinct(DenyKeys(r, ms))
  {
    hide DenyKey;
    if ms != [] {
      var init, last := ms[..|ms| - 1], ms[|ms| - 1];
      DenyKeysDistinct(r, init);
      if DenyKey(r, last) in DenyKeys(r, init) {
        var i :| 0 <= i < |init| && DenyKey(r, last) == DenyKey(r, init[i]);
        DenyKeyDecides(r, last, r, init[i]);
      }
    }
  }

  /** Adds one rule's keys, or reports that one of them is already taken. */
  method Register(r: Rule, taken: set<string>) returns (unclaimed: bool, now: set<string>)
    requires RuleWellFormed(r)
    ensures unclaimed <==> forall k :: k in SemanticKeys(r) ==> k !in taken
    ensures unclaimed ==> forall k :: k in now <==> k in taken || k in SemanticKeys(r)
  {
    var keys := SemanticKeys(r);
    if r.kind.CapabilityDeny? {
      DenyKeysDistinct(r, r.capabilities);
    }
    assert Distinct(keys);
    now := taken;
    for i := 0 to |keys|
      invariant forall j :: 0 <= j < i ==> keys[j] !in taken
      invariant forall k :: k in now <==> k in taken || k in keys[..i]
    {
      if keys[i] in now {
        assert keys[i] !in keys[..i];
        return false, now;
      }
      now := now + {keys[i]};
    }
    return true, now;
  }

  /** Accepts rules with distinct identities and no repeated restriction, in their one
      canonical order. */
  method Compile(rules: seq<Rule>) returns (r: Result<seq<Rule>, PolicyError>)
    requires forall i :: 0 <= i < |rules| ==> RuleWellFormed(rules[i])
    ensures r.Ok? <==> |rules| <= MAX_RULES && DistinctIDs(rules) && NoSharedKey(rules)
    ensures r == Err(TooManyRules) <==> |rules| > 1024
    ensures r.Ok? ==> r.value == SortedBy(rules, RuleNotAfter)
  {
    hide SemanticKeys, RuleWellFormed, SortedBy;
    if |rules| > MAX_RULES {
      return Err(TooManyRules);
    }
    var ids: set<string> := {};
    var taken: set<string> := {};
    for i := 0 to |rules|
      invariant forall id :: id in ids <==> exists j :: 0 <= j < i && rules[j].id == id
      invariant forall k :: k in taken <==> exists j :: 0 <= j < i && k in SemanticKeys(rules[j])
      invariant DistinctIDs(rules[..i])
      invariant NoSharedKey(rules[..i])
    {
      if rules[i].id in ids {
        return Err(Duplicate);
      }
      ids := ids + {rules[i].id};
      var unclaimed, now := Register(rules[i], taken);
      if !unclaimed {
        var k :| k in SemanticKeys(rules[i]) && k in taken;
        var j :| 0 <= j < i && k in SemanticKeys(rules[j]);
        assert ShareKey(rules[j], rules[i]);
        return Err(Duplicate);
      }
      taken := now;
    }
    assert rules[..|rules|] == rules;
    return Ok(SortedBy(rules, RuleNotAfter));
  }

  /** The order of rules in the document makes no difference. */
  lemma CompiledOrderIsFree(a: seq<Rule>, b: seq<Rule>)
    requires multiset(a) == multiset(b) && DistinctIDs(a)
    ensures SortedBy(a, RuleNotAfter) == SortedBy(b, RuleNotAfter)
  {
    hide RuleNotAfter, SortedBy;
    RuleOrderIsTotal();
    SortedByAscends(a, RuleNotAfter);
    SortedByAscends(b, RuleNotAfter);
    var s := SortedBy(a, RuleNotAfter);
    forall x, y | x in s && y in s && RuleNotAfter(x, y) && RuleNotAfter(y, x)
      ensures x == y
    {
      assert x in multiset(s) && y in multiset(s);
      assert x in a && y in a;
      TiedRulesShareID(x, y);
    }
    ArrangementIsUnique(s, SortedBy(b, RuleNotAfter), RuleNotAfter);
  }

  lemma TiedRulesShareID(x: Rule, y: Rule)
    requires RuleNotAfter(x, y) && RuleNotAfter(y, x)
    ensures x.id == y.id
  {
    if x.id != y.id {
      BeforeTransitive(x.id, y.id, x.id);
      BeforeIrreflexive(x.id);
    }
  }

  // ------------------------------------------------------------------- planning

  datatype Overlay = Overlay(revision: string, rules: seq<Rule>)

  predicate OverlayWellFormed(p: Overlay) {
    p.revision != "" && forall i :: 0 <= i < |p.rules| ==> RuleWellFormed(p.rules[i])
  }

  predicate Matches(r: Rule, intent: Intent) {
    && (r.owner.Some? ==> r.owner.value == intent.owner)
    && (r.typeRef.Some? ==> r.typeRef.value == intent.typeRef)
  }

  predicate IntentComplete(i: Intent) {
    && !i.mutation.MutationOther?
    && i.owner.kind != "" && i.owner.id != "" && i.typeRef.name != "" && i.typeRef.version != ""
  }

  predicate Denies(r: Rule, intent: Intent) {
    r.kind.CapabilityDeny? && Matches(r, intent) && intent.mutation in r.capabilities
  }

  function DimensionOf(r: Rule): Dimension {
    if r.typeRef.Some? then OwnerTypeResources else OwnerResources
  }

  predicate Limits(r: Rule, intent: Intent, d: Dimension) {
    r.kind.ResourceQuota? && intent.mutation.MutateCreate? && Matches(r, intent) && DimensionOf(r) == d
  }

  function FirstDenial(rules: seq<Rule>, intent: Intent): Option<string> {
    if rules == [] then None
    else
      var earlier := FirstDenial(rules[..|rules| - 1], intent);
      if earlier.None? && Denies(rules[|rules| - 1], intent) then Some(rules[|rules| - 1].id) else earlier
  }

  predicate Tighter(a: Constraint, b: Constraint) {
    a.limit < b.limit || (a.limit == b.limit && Before(a.ruleID, b.ruleID))
  }

  function Tightest(rules: seq<Rule>, intent: Intent, d: Dimension): Option<Constraint> {
    if rules == [] then None
    else
      var earlier := Tightest(rules[..|rules| - 1], intent, d);
      var last := rules[|rules| - 1];
      var candidate := Constraint(last.id, d, last.limit);
      if Limits(last, intent, d) && (earlier.None? || Tighter(candidate, earlier.value)) then Some(candidate) else earlier
  }

  function Listed(c: Option<Constraint>): seq<Constraint> {
    if c.Some? then [c.value] else []
  }

  function PlanOf(p: Overlay, intent: Intent): Plan {
    Plan(intent, p.revision, FirstDenial(p.rules, intent),
         Listed(Tightest(p.rules, intent, OwnerResources)) + Listed(Tightest(p.rules, intent, OwnerTypeResources)))
  }

  method DenialBy(r: Rule, intent: Intent, before: Option<string>) returns (denial: Option<string>)
    requires r.kind.CapabilityDeny? && Matches(r, intent)
    ensures denial == if before.None? && Denies(r, intent) then Some(r.id) else before
  {
    denial := before;
    for j := 0 to |r.capabilities|
      invariant denial == if before.None? && intent.mutation in r.capabilities[..j] then Some(r.id) else before
    {
      if r.capabilities[j] == intent.mutation && denial.None? {
        denial := Some(r.id);
      }
    }
    assert r.capabilities[..|r.capabilities|] == r.capabilities;
  }

  predicate BestSoFar(best: map<Dimension, Constraint>, rules: seq<Rule>, intent: Intent) {
    forall d: Dimension :: Tightest(rules, intent, d) == if d in best then Some(best[d]) else None
  }

  method MakePlan(p: Overlay, intent: Intent) returns (r: Result<Plan, PolicyError>)
    ensures r.Ok? <==> !intent.mutation.MutationOther? && "" !in {p.revision, intent.owner.kind, intent.owner.id, intent.typeRef.name, intent.typeRef.version}
    ensures r.Ok? ==> r.value == PlanOf(p, intent)
  {
    if p.revision == "" || !IntentComplete(intent) {
      return Err(Evaluation);
    }
    var denial: Option<string> := None;
    var best: map<Dimension, Constraint> := map[];
    for i := 0 to |p.rules|
      invariant denial == FirstDenial(p.rules[..i], intent)
      invariant BestSoFar(best, p.rules[..i], intent)
    {
      var rule := p.rules[i];
      assert p.rules[..i + 1][..i] == p.rules[..i];
      if Matches(rule, intent) {
        match rule.kind
        case CapabilityDeny => denial := DenialBy(rule, intent, denial);
        case ResourceQuota =>
          if intent.mutation.MutateCreate? {
            var dimension := DimensionOf(rule);
            var candidate := Constraint(rule.id, dimension, rule.limit);
            if dimension !in best || Tighter(candidate, best[dimension]) {
              best := best[dimension := candidate];
            }
          }
      }
    }
    assert p.rules[..|p.rules|] == p.rules;
    var constraints := [];
    if OwnerResources in best {
      constraints := constraints + [best[OwnerResources]];
    }
    if OwnerTypeResources in best {
      constraints := constraints + [best[OwnerTypeResources]];
    }
    return Ok(Plan(intent, p.revision, denial, constraints));
  }

  // ------------------------------------------------------------------- deciding

  function CountFor(d: Dimension, f: Facts): nat {
    if d.OwnerResources? then f.ownerCount else f.typeCount
  }

  function DecideCounts(constraints: seq<Constraint>, seen: set<Dimension>, f: Facts): Result<Decision, PolicyError> {
    if constraints == [] then Ok(None)
    else
      var c := constraints[0];
      if c.limit == 0 || c.ruleID == "" || c.dimension in seen then Err(Evaluation)
      else if CountFor(c.dimension, f) >= c.limit then Ok(Some(QuotaExceeded(c.ruleID, CountFor(c.dimension, f), c.limit)))
      else DecideCounts(constraints[1..], seen + {c.dimension}, f)
  }

  function DecisionOf(p: Overlay, plan: Plan, f: Facts): Result<Decision, PolicyError> {
    if plan.revision != p.revision || plan.intent.mutation.MutationOther? then Err(Evaluation)
    else if plan.denial.Some? then Ok(Some(CapabilityDisabled(plan.denial.value)))
    else if plan.constraints == [] then Ok(None)
    else if !f.available || f.owner != plan.intent.owner || f.typeRef != plan.intent.typeRef then Err(Evaluation)
    else DecideCounts(plan.constraints, {}, f)
  }

  method Decide(p: Overlay, plan: Plan, f: Facts) returns (r: Result<Decision, PolicyError>)
    ensures r == DecisionOf(p, plan, f)
  {
    if plan.revision != p.revision || plan.intent.mutation.MutationOther? {
      return Err(Evaluation);
    }
    if plan.denial.Some? {
      return Ok(Some(CapabilityDisabled(plan.denial.value)));
    }
    if |plan.constraints| == 0 {
      return Ok(None);
    }
    if !f.available || f.owner != plan.intent.owner || f.typeRef != plan.intent.typeRef {
      return Err(Evaluation);
    }
    var seen: set<Dimension> := {};
    for i := 0 to |plan.constraints|
      invariant DecideCounts(plan.constraints, {}, f) == DecideCounts(plan.constraints[i..], seen, f)
    {
      var c := plan.constraints[i];
      assert plan.constraints[i..][1..] == plan.constraints[i + 1..];
      if c.limit == 0 || c.ruleID == "" {
        return Err(Evaluation);
      }
      if c.dimension in seen {
        return Err(Evaluation);
      }
      seen := seen + {c.dimension};
      var current := CountFor(c.dimension, f);
      if current >= c.limit {
        return Ok(Some(QuotaExceeded(c.ruleID, current, c.limit)));
      }
    }
    return Ok(None);
  }

  /** What the rules mean, one by one: a deny rule names the mutation, or the create
      would pass some quota. */
  ghost predicate Forbidden(rules: seq<Rule>, intent: Intent, f: Facts) {
    || (exists i :: 0 <= i < |rules| && Denies(rules[i], intent))
    || (exists i :: 0 <= i < |rules| && Limits(rules[i], intent, DimensionOf(rules[i])) && CountFor(DimensionOf(rules[i]), f) >= rules[i].limit)
  }

  lemma {:induction false} FirstDenialMeans(rules: seq<Rule>, intent: Intent)
    ensures FirstDenial(rules, intent).Some? <==> exists i :: 0 <= i < |rules| && Denies(rules[i], intent)
  {
    hide Denies;
    if rules != [] {
      var init := rules[..|rules| - 1];
      FirstDenialMeans(init, intent);
      if exists i :: 0 <= i < |rules| && Denies(rules[i], intent) {
        var i :| 0 <= i < |rules| && Denies(rules[i], intent);
        assert i < |init| ==> init[i] == rules[i];
      }
    }
  }

  /** The kept constraint is the tightest: keeping it alone loses no quota. */
  lemma {:induction false} TightestMeans(rules: seq<Rule>, intent: Intent, d: Dimension)
    ensures Tightest(rules, intent, d).None? <==> forall i :: 0 <= i < |rules| ==> !Limits(rules[i], intent, d)
    ensures Tightest(rules, intent, d).Some? ==>
              var c := Tightest(rules, intent, d).value;
              && c.dimension == d
              && (exists i :: 0 <= i < |rules| && Limits(rules[i], intent, d) && c.ruleID == rules[i].id && c.limit == rules[i].limit)
              && (forall i :: 0 <= i < |rules| && Limits(rules[i], intent, d) ==> c.limit <= rules[i].limit)
  {
    hide Limits;
    if rules != [] {
      var init, last := rules[..|rules| - 1], rules[|rules| - 1];
      TightestMeans(init, intent, d);
      forall i | 0 <= i < |init|
        ensures init[i] == rules[i]
      {
      }
      assert Limits(last, intent, d) ==> rules[|rules| - 1] == last;
    }
  }

  predicate FactsFit(f: Facts, intent: Intent) {
    f.available && f.owner == intent.owner && f.typeRef == intent.typeRef
  }

  /** Deciding a plan gives exactly the meaning of all the rules, and never errs. */
  lemma DecideAfterPlan(p: Overlay, intent: Intent, f: Facts)
    requires OverlayWellFormed(p) && IntentComplete(intent) && FactsFit(f, intent)
    ensures var d := DecisionOf(p, PlanOf(p, intent), f);
            d.Ok? && (d.value.Some? <==> Forbidden(p.rules, intent, f))
  {
    hide Denies, Limits, FirstDenial, Tightest, RuleWellFormed;
    FirstDenialMeans(p.rules, intent);
    TightestMeans(p.rules, intent, OwnerResources);
    TightestMeans(p.rules, intent, OwnerTypeResources);
    LimitedRulesCount(p, intent);
    DecideListed(Tightest(p.rules, intent, OwnerResources), Tightest(p.rules, intent, OwnerTypeResources), f);
    QuotaForbids(p.rules, intent, f);
  }

  predicate ConstraintSound(c: Option<Constraint>, d: Dimension) {
    c.Some? ==> c.value.dimension == d && c.value.limit >= 1 && c.value.ruleID != ""
  }

  lemma DecideLast(b: Option<Constraint>, seen: set<Dimension>, f: Facts)
    requires ConstraintSound(b, OwnerTypeResources) && OwnerTypeResources !in seen
    ensures DecideCounts(Listed(b), seen, f) ==
              if b.Some? && f.typeCount >= b.value.limit then Ok(Some(QuotaExceeded(b.value.ruleID, f.typeCount, b.value.limit)))
              else Ok(None)
  {
    if b.Some? {
      assert Listed(b)[1..] == [];
    }
  }

  lemma DecideListed(a: Option<Constraint>, b: Option<Constraint>, f: Facts)
    requires ConstraintSound(a, OwnerResources) && ConstraintSound(b, OwnerTypeResources)
    ensures var d := DecideCounts(Listed(a) + Listed(b), {}, f);
            && d.Ok?
            && (d.value.Some? <==> (a.Some? && f.ownerCount >= a.value.limit) || (b.Some? && f.typeCount >= b.value.limit))
  {
    var cs := Listed(a) + Listed(b);
    DecideLast(b, {}, f);
    DecideLast(b, {} + {OwnerResources}, f);
    if a.Some? {
      assert cs[0] == a.value && cs[1..] == Listed(b);
    } else {
      assert cs == Listed(b);
    }
  }

  lemma LimitedRulesCount(p: Overlay, intent: Intent)
    requires OverlayWellFormed(p)
    ensures forall i, d :: 0 <= i < |p.rules| && Limits(p.rules[i], intent, d) ==>
              p.rules[i].limit >= 1 && p.rules[i].id != "" && DimensionOf(p.rules[i]) == d
  {
  }

  /** Some quota is passed exactly when a tightest one is. */
  lemma QuotaForbids(rules: seq<Rule>, intent: Intent, f: Facts)
    ensures var a := Tightest(rules, intent, OwnerResources);
            var b := Tightest(rules, intent, OwnerTypeResources);
            (exists i :: 0 <= i < |rules| && Limits(rules[i], intent, DimensionOf(rules[i])) && CountFor(DimensionOf(rules[i]), f) >= rules[i].limit)
            <==> (a.Some? && f.ownerCount >= a.value.limit) || (b.Some? && f.typeCount >= b.value.limit)
  {
    hide Tightest;
    TightestMeans(rules, intent, OwnerResources);
    TightestMeans(rules, intent, OwnerTypeResources);
  }

  /** Updates are decided without counts: quotas concern creates only. */
  lemma UpdatesNeedNoCounts(p: Overlay, intent: Intent, f: Facts)
    requires intent.mutation.MutateUpdate?
    ensures PlanOf(p, intent).constraints == []
    ensures DecisionOf(p, PlanOf(p, intent), f) ==
              if FirstDenial(p.rules, intent).Some? then Ok(Some(CapabilityDisabled(FirstDenial(p.rules, intent).value))) else Ok(None)
  {
    hide Tightest;
    TightestMeans(p.rules, intent, OwnerResources);
    TightestMeans(p.rules, intent, OwnerTypeResources);
  }

  /** Overlays compiled from the same rules in any order plan and decide alike. */
  lemma RuleOrderMakesNoDifference(a: seq<Rule>, b: seq<Rule>, revision: string, intent: Intent, f: Facts)
    requires multiset(a) == multiset(b) && DistinctIDs(a)
    ensures var p := Overlay(revision, SortedBy(a, RuleNotAfter));
            var q := Overlay(revision, SortedBy(b, RuleNotAfter));
            PlanOf(p, intent) == PlanOf(q, intent) && DecisionOf(p, PlanOf(p, intent), f) == DecisionOf(q, PlanOf(q, intent), f)
  {
    CompiledOrderIsFree(a, b);
  }

  // ----------------------------------------------------- counts and admissions

  datatype Holding = Holding(owner: OwnerRef, typeRef: TypeRef)

  /** The resources that are not deleted. */
  type Live = map<ResourceID, Holding>

  function OwnedBy(live: Live, owner: OwnerRef): set<ResourceID> {
    set id | id in live && live[id].owner == owner
  }

  function OwnedOfType(live: Live, owner: OwnerRef, t: TypeRef): set<ResourceID> {
    set id | id in live && live[id] == Holding(owner, t)
  }

  /** What a rule counts for an owner. */
  function Usage(live: Live, r: Rule, owner: OwnerRef): nat {
    if r.typeRef.None? then |OwnedBy(live, owner)| else |OwnedOfType(live, owner, r.typeRef.value)|
  }

  function ExactFacts(live: Live, owner: OwnerRef, t: TypeRef): Facts {
    Facts(true, owner, t, |OwnedBy(live, owner)|, |OwnedOfType(live, owner, t)|)
  }

  datatype Change = CreateUnder(id: ResourceID, owner: OwnerRef, typeRef: TypeRef) | FinishDelete(id: ResourceID)

  predicate CreateAdmitted(p: Overlay, live: Live, c: Change)
    requires c.CreateUnder?
  {
    var intent := Intent(MutateCreate, c.owner, c.typeRef);
    c.id !in live && IntentComplete(intent) &&
    DecisionOf(p, PlanOf(p, intent), ExactFacts(live, c.owner, c.typeRef)) == Ok(None)
  }

  /** One change under the owner's admission lock; a refused create changes nothing. */
  function Apply(p: Overlay, live: Live, c: Change): Live {
    match c
    case CreateUnder(id, owner, t) => if CreateAdmitted(p, live, c) then live[id := Holding(owner, t)] else live
    case FinishDelete(id) => live - {id}
  }

  predicate Concerns(r: Rule, owner: OwnerRef) {
    r.kind.ResourceQuota? && (r.owner.Some? ==> r.owner.value == owner)
  }

  lemma UsageAfterCreate(live: Live, id: ResourceID, h: Holding, r: Rule, owner: OwnerRef)
    requires id !in live
    ensures Usage(live[id := h], r, owner) ==
              Usage(live, r, owner) + (if h.owner == owner && (r.typeRef.Some? ==> r.typeRef.value == h.typeRef) then 1 else 0)
  {
    hide OwnedBy, OwnedOfType;
    if r.typeRef.None? {
      OwnedByAfterCreate(live, id, h, owner);
    } else {
      OwnedOfTypeAfterCreate(live, id, h, owner, r.typeRef.value);
    }
  }

  lemma OwnedByAfterCreate(live: Live, id: ResourceID, h: Holding, owner: OwnerRef)
    requires id !in live
    ensures |OwnedBy(live[id := h], owner)| == |OwnedBy(live, owner)| + (if h.owner == owner then 1 else 0)
  {
    var before, after := OwnedBy(live, owner), OwnedBy(live[id := h], owner);
    if h.owner == owner {
      assert after == before + {id};
    } else {
      assert after == before;
    }
  }

  lemma OwnedOfTypeAfterCreate(live: Live, id: ResourceID, h: Holding, owner: OwnerRef, t: TypeRef)
    requires id !in live
    ensures |OwnedOfType(live[id := h], owner, t)| == |OwnedOfType(live, owner, t)| + (if h == Holding(owner, t) then 1 else 0)
  {
    var before, after := OwnedOfType(live, owner, t), OwnedOfType(live[id := h], owner, t);
    if h == Holding(owner, t) {
      assert after == before + {id};
    } else {
      assert after == before;
    }
  }

  lemma UsageAfterDelete(live: Live, id: ResourceID, r: Rule, owner: OwnerRef)
    ensures Usage(live - {id}, r, owner) <= Usage(live, r, owner)
  {
    assert OwnedBy(live - {id}, owner) == OwnedBy(live, owner) - {id};
    if r.typeRef.Some? {
      assert OwnedOfType(live - {id}, owner, r.typeRef.value) == OwnedOfType(live, owner, r.typeRef.value) - {id};
    }
  }

  function Max(a: nat, b: nat): nat {
    if a < b then b else a
  }

  lemma ApplyKeepsQuota(p: Overlay, live: Live, c: Change, k: nat, owner: OwnerRef)
    requires OverlayWellFormed(p) && k < |p.rules| && Concerns(p.rules[k], owner)
    ensures Usage(Apply(p, live, c), p.rules[k], owner) <= Max(Usage(live, p.rules[k], owner), p.rules[k].limit)
  {
    hide PlanOf, DecisionOf, Usage, OverlayWellFormed;
    var rule := p.rules[k];
    match c
    case CreateUnder(id, o, t) =>
      if CreateAdmitted(p, live, c) {
        var intent := Intent(MutateCreate, o, t);
        var f := ExactFacts(live, o, t);
        UsageAfterCreate(live, id, Holding(o, t), rule, owner);
        DecideAfterPlan(p, intent, f);
        if o == owner && (rule.typeRef.Some? ==> rule.typeRef.value == t) {
          assert Limits(rule, intent, DimensionOf(rule));
          UsageIsCount(live, rule, o, t);
        }
      }
    case FinishDelete(id) => UsageAfterDelete(live, id, rule, owner);
  }

  lemma UsageIsCount(live: Live, r: Rule, o: OwnerRef, t: TypeRef)
    requires r.typeRef.Some? ==> r.typeRef.value == t
    ensures CountFor(DimensionOf(r), ExactFacts(live, o, t)) == Usage(live, r, o)
  {
  }
}

/** Output contracts, canonical published values, and the decision a terminal success
    makes about them. */
module Outputs {
  import opened Basics
  import opened Domain
  import opened Ordering
  import opened Provisioning

  const MAX_INT64: int := 0x7FFF_FFFF_FFFF_FFFF
  const MAX_EXACT_FLOAT: real := 9007199254740992.0

  // ------------------------------------------------------------------- values

  predicate InRange(kind: IntKind, n: int) {
    match kind
    case Int8 => -0x80 <= n <= 0x7F
    case Int16 => -0x8000 <= n <= 0x7FFF
    case Int32 => -0x8000_0000 <= n <= 0x7FFF_FFFF
    case IntWord | Int64 => -0x8000_0000_0000_0000 <= n <= MAX_INT64
    case Uint8 => 0 <= n <= 0xFF
    case Uint16 => 0 <= n <= 0xFFFF
    case Uint32 => 0 <= n <= 0xFFFF_FFFF
    case UintWord | Uint64 => 0 <= n <= MAX_UINT64
  }

  /** An integer value holds a number its width can represent. */
  predicate Representable(v: OutputValue) {
    v.Integer? ==> InRange(v.kind, v.number)
  }

  function FromFloat(f: Float): Option<int> {
    if f.Finite? && f.value == f.value.Floor as real && -MAX_EXACT_FLOAT <= f.value <= MAX_EXACT_FLOAT
    then Some(f.value.Floor)
    else None
  }

  /** The integer a value denotes, when it denotes one exactly. */
  function IntegralValue(v: OutputValue): Option<int> {
    match v
    case Integer(_, n) => if n <= MAX_INT64 then Some(n) else None
    case Float32(f) => FromFloat(f)
    case Float64(f) => FromFloat(f)
    case _ => None
  }

  /** One representation for each logical value; anything but a finite scalar is refused. */
  function CanonicalValue(v: OutputValue): Option<OutputValue> {
    match v
    case Text(_) => Some(v)
    case Boolean(_) => Some(v)
    case Integer(_, n) => if n <= MAX_INT64 then Some(Integer(Int64, n)) else None
    case Float32(f) => if f.Finite? then Some(Float64(f)) else None
    case Float64(f) => if f.Finite? then Some(v) else None
    case OtherValue(_) => None
  }

  /** A name that trimming leaves alone and that is not empty. */
  predicate CanonicalName(name: string) {
    name != "" && !IsSpace(name[0]) && !IsSpace(name[|name| - 1])
  }

  // ---------------------------------------------------------------- contracts

  datatype OutputType = JsonString | JsonInteger | JsonNumber | JsonBoolean | JsonUnknown(text: string)

  datatype OutputField = OutputField(name: string, jsonType: OutputType, requiredWhenReady: bool)

  datatype OutputContract = OutputContract(fields: seq<OutputField>)

  predicate ReservedName(name: string) {
    name == "observedGeneration" || name == "values"
  }

  predicate FieldDeclarable(f: OutputField) {
    CanonicalName(f.name) && !ReservedName(f.name) && !f.jsonType.JsonUnknown?
  }

  predicate NamesDiffer(fields: seq<OutputField>) {
    forall i, j :: 0 <= i < j < |fields| ==> fields[i].name != fields[j].name
  }

  predicate FieldsAscend(fields: seq<OutputField>) {
    forall i, j :: 0 <= i < j < |fields| ==> Before(fields[i].name, fields[j].name)
  }

  predicate FieldNotAfter(a: OutputField, b: OutputField) {
    NotAfter(a.name, b.name)
  }

  lemma FieldOrderIsTotal()
    ensures TotalOrder(FieldNotAfter)
  {
    NotAfterIsTotal();
  }

  /** In a list sorted by name, two fields share a name only if neighbours do. */
  lemma NeighboursDecide(fields: seq<OutputField>)
    requires AscendingBy(fields, FieldNotAfter)
    requires forall i :: 0 < i < |fields| ==> fields[i].name != fields[i - 1].name
    ensures FieldsAscend(fields) && NamesDiffer(fields)
  {
    forall i, j | 0 <= i < j < |fields|
      ensures Before(fields[i].name, fields[j].name)
    {
      assert FieldNotAfter(fields[i], fields[i + 1]) && fields[i + 1].name != fields[i].name;
      if i + 1 < j {
        assert FieldNotAfter(fields[i + 1], fields[j]);
        if fields[i + 1].name != fields[j].name {
          BeforeTransitive(fields[i].name, fields[i + 1].name, fields[j].name);
        }
      }
    }
    forall i, j | 0 <= i < j < |fields|
      ensures fields[i].name != fields[j].name
    {
      BeforeIrreflexive(fields[i].name);
      assert Before(fields[i].name, fields[j].name);
    }
  }

  /** Sorting moves fields around, so a repeated name stays repeated. */
  lemma PermutationKeepsRepeats(a: seq<OutputField>, b: seq<OutputField>)
    requires multiset(a) == multiset(b) && NamesDiffer(a)
    ensures NamesDiffer(b)
  {
    forall i, j | 0 <= i < j < |b|
      ensures b[i].name != b[j].name
    {
      assert b[i] in multiset(b) && b[j] in multiset(b);
      assert b[i] in a && b[j] in a;
      if b[i].name == b[j].name {
        TwiceMeansTwo(b, i, j);
        OnceMeansOne(a, b[i]);
      }
    }
  }

  /** Validates and sorts the fields: what is accepted and what comes out. */
  method NewOutputContract(fields: seq<OutputField>) returns (r: Option<OutputContract>)
    ensures r.Some? <==> fields != [] && (forall f :: f in fields ==> FieldDeclarable(f)) && NamesDiffer(fields)
    ensures r.Some? ==> FieldsAscend(r.value.fields) && NamesDiffer(r.value.fields)
    ensures r.Some? ==> multiset(r.value.fields) == multiset(fields)
    ensures r.Some? ==> forall f :: f in r.value.fields ==> FieldDeclarable(f)
  {
    if |fields| == 0 {
      return None;
    }
    for i := 0 to |fields|
      invariant forall j :: 0 <= j < i ==> FieldDeclarable(fields[j])
    {
      if !FieldDeclarable(fields[i]) {
        assert fields[i] in fields;
        return None;
      }
    }
    var normalized := SortedBy(fields, FieldNotAfter);
    FieldOrderIsTotal();
    SortedByAscends(fields, FieldNotAfter);
    for i := 1 to |normalized|
      invariant forall j :: 0 < j < i ==> normalized[j].name != normalized[j - 1].name
    {
      if normalized[i].name == normalized[i - 1].name {
        if NamesDiffer(fields) {
          PermutationKeepsRepeats(fields, normalized);
        }
        return None;
      }
    }
    NeighboursDecide(normalized);
    PermutationKeepsRepeats(normalized, fields);
    forall f | f in normalized
      ensures FieldDeclarable(f)
    {
      assert f in multiset(normalized);
      assert f in fields;
    }
    return Some(OutputContract(normalized));
  }

  predicate ContractDeclarable(c: OutputContract) {
    NamesDiffer(c.fields) && forall i :: 0 <= i < |c.fields| ==> FieldDeclarable(c.fields[i])
  }

  predicate RequiresOutputs(c: OutputContract) {
    exists i :: 0 <= i < |c.fields| && c.fields[i].requiredWhenReady
  }

  predicate MatchesType(t: OutputType, v: OutputValue) {
    match t
    case JsonString => v.Text?
    case JsonBoolean => v.Boolean?
    case JsonInteger => IntegralValue(v).Some?
    case JsonNumber => v.Integer? || v.Float32? || v.Float64?
    case JsonUnknown(_) => false
  }

  type Values = map<string, OutputValue>

  predicate Declares(c: OutputContract, name: string) {
    exists i :: 0 <= i < |c.fields| && c.fields[i].name == name
  }

  predicate PresentFieldsMatch(c: OutputContract, values: Values) {
    forall i :: 0 <= i < |c.fields| && c.fields[i].name in values ==>
      MatchesType(c.fields[i].jsonType, values[c.fields[i].name])
  }

  predicate OnlyDeclared(c: OutputContract, values: Values) {
    forall name :: name in values ==> Declares(c, name)
  }

  predicate RequiredPresent(c: OutputContract, values: Values) {
    forall i :: 0 <= i < |c.fields| && c.fields[i].requiredWhenReady ==> c.fields[i].name in values
  }

  /** Every value is declared with its type, and every required value is there. */
  predicate Meets(c: OutputContract, values: Values) {
    PresentFieldsMatch(c, values) && OnlyDeclared(c, values) && RequiredPresent(c, values)
  }

  datatype Violation = WrongType(field: string) | Undeclared(field: string) | Missing(field: string)

  predicate Mismatched(c: OutputContract, values: Values, name: string) {
    name in values && exists i :: 0 <= i < |c.fields| && c.fields[i].name == name && !MatchesType(c.fields[i].jsonType, values[name])
  }

  method FieldNames(c: OutputContract, values: Values) returns (wrong: Option<string>, declared: set<string>)
    ensures wrong.None? <==> PresentFieldsMatch(c, values)
    ensures wrong.Some? ==> Mismatched(c, values, wrong.value)
    ensures wrong.None? ==> forall name :: name in declared <==> Declares(c, name)
  {
    declared := {};
    wrong := None;
    for i := 0 to |c.fields|
      invariant forall j :: 0 <= j < i && c.fields[j].name in values ==> MatchesType(c.fields[j].jsonType, values[c.fields[j].name])
      invariant forall name :: name in declared <==> exists j :: 0 <= j < i && c.fields[j].name == name
    {
      var field := c.fields[i];
      declared := declared + {field.name};
      if field.name in values && !MatchesType(field.jsonType, values[field.name]) {
        wrong := Some(field.name);
        return;
      }
    }
  }

  /** Types first, then undeclared names, then missing required fields. */
  method Validate(c: OutputContract, values: Values) returns (violation: Option<Violation>)
    ensures violation.None? <==> Meets(c, values)
    ensures violation.Some? ==> match violation.value
                                case WrongType(f) =>
                                  && f in values
                                  && exists i :: 0 <= i < |c.fields| && c.fields[i].name == f && !MatchesType(c.fields[i].jsonType, values[f])
                                case Undeclared(f) => PresentFieldsMatch(c, values) && f in values && !Declares(c, f)
                                case Missing(f) => PresentFieldsMatch(c, values) && OnlyDeclared(c, values) && Declares(c, f) && f !in values
  {
    var wrong, declared := FieldNames(c, values);
    if wrong.Some? {
      return Some(WrongType(wrong.value));
    }
    var left := values.Keys;
    while left != {}
      invariant left <= values.Keys
      invariant forall name :: name in values && name !in left ==> Declares(c, name)
      decreases left
    {
      var name :| name in left;
      left := left - {name};
      if name !in declared {
        return Some(Undeclared(name));
      }
    }
    for i := 0 to |c.fields|
      invariant forall j :: 0 <= j < i && c.fields[j].requiredWhenReady ==> c.fields[j].name in values
    {
      if c.fields[i].requiredWhenReady && c.fields[i].name !in values {
        return Some(Missing(c.fields[i].name));
      }
    }
    return None;
  }

  // ---------------------------------------------------------------- snapshots

  datatype ResourceOutputs = ResourceOutputs(observedGeneration: nat, values: Values, publishedAt: Time)

  predicate Publishable(values: Values) {
    forall name :: name in values ==> CanonicalName(name) && CanonicalValue(values[name]).Some?
  }

  function CanonicalValues(values: Values): Values
    requires Publishable(values)
  {
    map name | name in values :: CanonicalValue(values[name]).value
  }

  function SnapshotOf(generation: nat, values: Values, at: Time): Option<ResourceOutputs> {
    if generation == 0 || at == ZERO_TIME || !Publishable(values) then None
    else Some(ResourceOutputs(generation, CanonicalValues(values), at))
  }

  method NewResourceOutputs(generation: nat, values: Values, at: Time) returns (r: Option<ResourceOutputs>)
    ensures r == SnapshotOf(generation, values, at)
  {
    if generation == 0 || at == ZERO_TIME {
      return None;
    }
    var cloned: Values := map[];
    var left := values.Keys;
    while left != {}
      invariant left <= values.Keys
      invariant cloned.Keys == values.Keys - left
      invariant forall name :: name in cloned ==> CanonicalName(name) && CanonicalValue(values[name]) == Some(cloned[name])
      decreases left
    {
      var name :| name in left;
      left := left - {name};
      if !CanonicalName(name) {
        return None;
      }
      var scalar := CanonicalValue(values[name]);
      if scalar.None? {
        return None;
      }
      cloned := cloned[name := scalar.value];
    }
    assert cloned == CanonicalValues(values);
    return Some(ResourceOutputs(generation, cloned, at));
  }

  /** Canonical form keeps the number and the type, stays representable, and is final. */
  lemma CanonicalKeepsMeaning(v: OutputValue, t: OutputType)
    requires CanonicalValue(v).Some? && Representable(v)
    ensures var c := CanonicalValue(v).value;
            && CanonicalValue(c) == Some(c)
            && Representable(c)
            && IntegralValue(c) == IntegralValue(v)
            && (MatchesType(t, c) <==> MatchesType(t, v))
  {
  }

  /** A snapshot read back builds itself again. */
  lemma SnapshotIsFinal(generation: nat, values: Values, at: Time)
    requires SnapshotOf(generation, values, at).Some?
    ensures var s := SnapshotOf(generation, values, at).value;
            SnapshotOf(generation, s.values, at) == Some(s)
  {
    var s := SnapshotOf(generation, values, at).value;
    forall name | name in s.values
      ensures CanonicalValue(s.values[name]) == Some(s.values[name])
    {
    }
    assert CanonicalValues(s.values) == s.values;
  }

  // -------------------------------------------------------------- the decision

  datatype Rejection = NoContract | ReportedInvalid(text: string) | ContractViolated | NotPublishable

  datatype OutputPlan = PlanNone | PlanPublish(snapshot: ResourceOutputs) | PlanDefer | PlanReject(why: Rejection)

  /** What a terminal success does about outputs; an unknown evidence state is an error. */
  function PlanTerminalOutputs(contract: Option<OutputContract>, capability: Capability, evidence: Option<OutputEvidence>,
                               target: nat, at: Time): (p: Option<OutputPlan>)
  {
    if capability.Delete? then Some(PlanNone)
    else if contract.None? then
      if evidence.Some? && (evidence.value.state.OutputsAvailable? || evidence.value.state.OutputsInvalid?)
      then Some(PlanReject(NoContract))
      else Some(PlanNone)
    else
      var wanting := if RequiresOutputs(contract.value) then PlanDefer else PlanNone;
      if evidence.None? then Some(wanting)
      else match evidence.value.state
        case OutputsUnavailable => Some(wanting)
        case OutputsInvalid => Some(PlanReject(ReportedInvalid(evidence.value.reason)))
        case OutputsAvailable =>
          if !Meets(contract.value, evidence.value.values) then Some(PlanReject(ContractViolated))
          else
            var s := SnapshotOf(target, evidence.value.values, at);
            if s.None? then Some(PlanReject(NotPublishable)) else Some(PlanPublish(s.value))
        case OutputStateInvalid(_) => None
  }

  /** What gets published: the canonicalized values meet the very contract the raw ones
      were checked against, for the target generation. */
  lemma PublishedMeetsContract(contract: Option<OutputContract>, capability: Capability, evidence: Option<OutputEvidence>,
                               target: nat, at: Time)
    requires PlanTerminalOutputs(contract, capability, evidence, target, at).Some?
    requires PlanTerminalOutputs(contract, capability, evidence, target, at).value.PlanPublish?
    requires evidence.Some? ==> forall name :: name in evidence.value.values ==> Representable(evidence.value.values[name])
    ensures var s := PlanTerminalOutputs(contract, capability, evidence, target, at).value.snapshot;
            && contract.Some? && Meets(contract.value, s.values)
            && s.observedGeneration == target
            && s.values.Keys == evidence.value.values.Keys
            && forall name :: name in s.values ==> IntegralValue(s.values[name]) == IntegralValue(evidence.value.values[name])
  {
    var values := evidence.value.values;
    var s := PlanTerminalOutputs(contract, capability, evidence, target, at).value.snapshot;
    forall i | 0 <= i < |contract.value.fields| && contract.value.fields[i].name in s.values
      ensures MatchesType(contract.value.fields[i].jsonType, s.values[contract.value.fields[i].name])
    {
      CanonicalKeepsMeaning(values[contract.value.fields[i].name], contract.value.fields[i].jsonType);
    }
    forall name | name in s.values
      ensures IntegralValue(s.values[name]) == IntegralValue(values[name])
    {
      CanonicalKeepsMeaning(values[name], JsonNumber);
    }
    assert OnlyDeclared(contract.value, s.values) by {
      forall name | name in s.values
        ensures Declares(contract.value, name)
      {
        assert name in values;
      }
    }
  }

  /** A create or update of a type that requires outputs never finishes as a success
      without a snapshot that holds every required field. */
  lemma RequiredOutputsGateSuccess(contract: OutputContract, capability: Capability, evidence: Option<OutputEvidence>, target: nat, at: Time)
    requires RequiresOutputs(contract) && !capability.Delete?
    ensures var p := PlanTerminalOutputs(Some(contract), capability, evidence, target, at);
            && p != Some(PlanNone)
            && (p == Some(PlanDefer) <==> evidence.None? || evidence.value.state.OutputsUnavailable?)
            && (p.Some? && p.value.PlanPublish? ==> RequiredPresent(contract, p.value.snapshot.values))
  {
  }

  /** Values that pass the contract fail to publish only through a declared number that
      is not finite or exceeds the signed 64-bit range. */
  lemma OnlyNumbersAreUnpublishable(c: OutputContract, values: Values)
    requires ContractDeclarable(c) && Meets(c, values)
    ensures !Publishable(values) <==>
            exists i :: && 0 <= i < |c.fields| && c.fields[i].jsonType.JsonNumber? && c.fields[i].name in values
                        && CanonicalValue(values[c.fields[i].name]).None?
  {
    if !Publishable(values) {
      var name :| name in values && !(CanonicalName(name) && CanonicalValue(values[name]).Some?);
      assert Declares(c, name);
      var i :| 0 <= i < |c.fields| && c.fields[i].name == name;
      assert FieldDeclarable(c.fields[i]);
      assert MatchesType(c.fields[i].jsonType, values[name]);
    }
  }
}

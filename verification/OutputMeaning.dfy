/** What output values denote, which of them a contract takes, and what a success does
    about them, in terms of the denoted values. */
module OutputMeaning {
  import opened Basics
  import opened Domain
  import opened Ordering
  import opened Provisioning
  import opened Outputs

  // ------------------------------------------------------------------- values

  /** The logical value behind a representation. */
  datatype Logical = LText(text: string) | LFlag(flag: bool) | LWhole(n: int) | LFraction(r: real)

  function Denotes(v: OutputValue): Option<Logical> {
    match v
    case Text(t) => Some(LText(t))
    case Boolean(b) => Some(LFlag(b))
    case Integer(_, n) => Some(LWhole(n))
    case Float32(f) => if f.Finite? then Some(LFraction(f.value)) else None
    case Float64(f) => if f.Finite? then Some(LFraction(f.value)) else None
    case OtherValue(_) => None
  }

  /** The bits of an integer width, and whether it is signed. */
  function Width(kind: IntKind): (w: (nat, bool))
    ensures 8 <= w.0 <= 64
  {
    match kind
    case Int8 => (8, true)
    case Int16 => (16, true)
    case Int32 => (32, true)
    case Int64 => (64, true)
    case IntWord => (64, true)
    case Uint8 => (8, false)
    case Uint16 => (16, false)
    case Uint32 => (32, false)
    case Uint64 => (64, false)
    case UintWord => (64, false)
  }

  function TwoTo(n: nat): nat {
    if n == 0 then 1 else 2 * TwoTo(n - 1)
  }

  lemma Doubled(n: nat)
    ensures TwoTo(n + 8) == 256 * TwoTo(n)
  {
    assert TwoTo(n + 2) == 4 * TwoTo(n);
    assert TwoTo(n + 4) == 4 * TwoTo(n + 2);
    assert TwoTo(n + 6) == 4 * TwoTo(n + 4);
    assert TwoTo(n + 8) == 4 * TwoTo(n + 6);
  }

  lemma Powers()
    ensures TwoTo(7) == 128 && TwoTo(8) == 256 && TwoTo(15) == 0x8000 && TwoTo(16) == 0x1_0000
    ensures TwoTo(31) == 0x8000_0000 && TwoTo(32) == 0x1_0000_0000
    ensures TwoTo(63) == 0x8000_0000_0000_0000 && TwoTo(64) == 0x1_0000_0000_0000_0000
  {
    assert TwoTo(3) == 8;
    assert TwoTo(7) == 16 * TwoTo(3);
    Doubled(0);
    Doubled(7);
    Doubled(8);
    Doubled(15);
    Doubled(16);
    Doubled(23);
    Doubled(24);
    Doubled(31);
    Doubled(32);
    Doubled(39);
    Doubled(40);
    Doubled(47);
    Doubled(48);
    Doubled(55);
    Doubled(56);
  }

  /** Each width represents the numbers of two's complement, or the naturals, of its bits. */
  lemma RangesAreWidths(kind: IntKind, n: int)
    ensures var w := Width(kind);
            InRange(kind, n) <==> if w.1 then 0 <= n + TwoTo(w.0 - 1) < 2 * TwoTo(w.0 - 1) else 0 <= n < TwoTo(w.0)
  {
    hide TwoTo;
    Powers();
  }

  /** A value has a canonical form exactly when it denotes something, and no whole number
      beyond the signed 64-bit range. */
  lemma CanonicalExactly(v: OutputValue)
    ensures CanonicalValue(v).Some? <==> Denotes(v).Some? && (v.Integer? ==> v.number < 0x8000_0000_0000_0000)
    ensures CanonicalValue(v).Some? ==> Denotes(CanonicalValue(v).value) == Denotes(v)
  {
  }

  /** There is one canonical form for each logical value. */
  lemma CanonicalIsUnique(a: OutputValue, b: OutputValue)
    requires CanonicalValue(a).Some? && CanonicalValue(b).Some?
    ensures CanonicalValue(a) == CanonicalValue(b) <==> Denotes(a) == Denotes(b)
  {
  }

  /** The type takes the value: any representation of a number counts as a number, and
      one of an exactly represented whole number as an integer. */
  predicate Takes(t: OutputType, v: OutputValue) {
    match t
    case JsonString => Denotes(v).Some? && Denotes(v).value.LText?
    case JsonBoolean => Denotes(v).Some? && Denotes(v).value.LFlag?
    case JsonNumber => v.Integer? || v.Float32? || v.Float64?
    case JsonInteger =>
      && Denotes(v).Some?
      && (match Denotes(v).value
          case LWhole(n) => n < 0x8000_0000_0000_0000
          case LFraction(r) => r.Floor as real == r && -9007199254740992.0 <= r <= 9007199254740992.0
          case _ => false)
    case JsonUnknown(_) => false
  }

  lemma TypesTake(t: OutputType, v: OutputValue)
    ensures MatchesType(t, v) <==> Takes(t, v)
  {
  }

  // ---------------------------------------------------------------- contracts

  /** A field may be declared exactly under a trimmed name that is not taken by the snapshot
      itself, with one of the four known types. */
  lemma DeclarableExactly(f: OutputField)
    ensures FieldDeclarable(f) <==>
              && f.name !in {"", "observedGeneration", "values"}
              && (f.name != "" ==> !IsSpace(f.name[0]) && !IsSpace(f.name[|f.name| - 1]))
              && f.jsonType in {JsonString, JsonInteger, JsonNumber, JsonBoolean}
  {
  }

  lemma RequiresExactly(c: OutputContract)
    ensures RequiresOutputs(c) <==> exists f :: f in c.fields && f.requiredWhenReady
  {
    if exists f :: f in c.fields && f.requiredWhenReady {
      var f :| f in c.fields && f.requiredWhenReady;
      var i :| 0 <= i < |c.fields| && c.fields[i] == f;
      assert c.fields[i].requiredWhenReady;
    }
    assert forall i :: 0 <= i < |c.fields| ==> c.fields[i] in c.fields;
  }

  /** A field of the contract has the name, and its type takes the value. */
  predicate Accounted(c: OutputContract, name: string, v: OutputValue) {
    exists i :: 0 <= i < |c.fields| && c.fields[i].name == name && Takes(c.fields[i].jsonType, v)
  }

  /** Values meet a contract of distinct names exactly when each is accounted for by a field
      and each required field has a value. */
  lemma MeetsExactly(c: OutputContract, values: Values)
    requires forall i, j :: 0 <= i < |c.fields| && 0 <= j < |c.fields| && c.fields[i].name == c.fields[j].name ==> i == j
    ensures Meets(c, values) <==>
              && (forall name :: name in values ==> Accounted(c, name, values[name]))
              && (forall f :: f in c.fields && f.requiredWhenReady ==> f.name in values)
  {
    hide MatchesType, Takes;
    forall t, v
      ensures MatchesType(t, v) <==> Takes(t, v)
    {
      TypesTake(t, v);
    }
    if Meets(c, values) {
      forall name | name in values
        ensures Accounted(c, name, values[name])
      {
        assert Declares(c, name);
        var i :| 0 <= i < |c.fields| && c.fields[i].name == name;
        assert MatchesType(c.fields[i].jsonType, values[c.fields[i].name]);
      }
    }
    if (forall name :: name in values ==> Accounted(c, name, values[name])) && (forall f :: f in c.fields && f.requiredWhenReady ==> f.name in values) {
      forall i | 0 <= i < |c.fields| && c.fields[i].name in values
        ensures MatchesType(c.fields[i].jsonType, values[c.fields[i].name])
      {
        var j :| 0 <= j < |c.fields| && c.fields[j].name == c.fields[i].name && Takes(c.fields[j].jsonType, values[c.fields[i].name]);
        assert i == j;
      }
      forall name | name in values
        ensures Declares(c, name)
      {
        assert Accounted(c, name, values[name]);
      }
      assert RequiredPresent(c, values) by {
        assert forall i :: 0 <= i < |c.fields| ==> c.fields[i] in c.fields;
      }
    }
  }

  // ---------------------------------------------------------------- snapshots

  /** Every name is trimmed and every value has a canonical form. */
  predicate CanPublish(values: Values) {
    forall name :: name in values ==>
      && name != "" && !IsSpace(name[0]) && !IsSpace(name[|name| - 1])
      && Denotes(values[name]).Some? && (values[name].Integer? ==> values[name].number < 0x8000_0000_0000_0000)
  }

  /** A snapshot is built exactly of publishable values at a set generation and time; it
      denotes, name by name, what the values denote. */
  lemma SnapshotExactly(generation: nat, values: Values, at: Time)
    ensures SnapshotOf(generation, values, at).Some? <==> 0 < generation && 0 < at && CanPublish(values)
    ensures SnapshotOf(generation, values, at).Some? ==>
              var s := SnapshotOf(generation, values, at).value;
              && s.observedGeneration == generation && s.publishedAt == at && s.values.Keys == values.Keys
              && forall name :: name in values ==> Denotes(s.values[name]) == Denotes(values[name])
  {
    forall name | name in values
      ensures CanonicalValue(values[name]).Some? <==> Denotes(values[name]).Some? && (values[name].Integer? ==> values[name].number < 0x8000_0000_0000_0000)
    {
      CanonicalExactly(values[name]);
    }
  }

  // -------------------------------------------------------------- the decision

  predicate ReportsState(evidence: Option<OutputEvidence>, states: set<OutputState>) {
    evidence.Some? && evidence.value.state in states
  }

  /** A contract decides about the outputs of anything but a delete. */
  predicate Contracted(contract: Option<OutputContract>, capability: Capability) {
    contract.Some? && capability != Delete
  }

  /** What a success does about outputs, outcome by outcome. */
  lemma PlanExactly(contract: Option<OutputContract>, capability: Capability, evidence: Option<OutputEvidence>, target: nat, at: Time)
    ensures var p := PlanTerminalOutputs(contract, capability, evidence, target, at);
            var contracted := Contracted(contract, capability);
            var offered := contracted && ReportsState(evidence, {OutputsAvailable});
            var met := offered && Meets(contract.value, evidence.value.values);
            && (p == None <==> contracted && evidence.Some? && evidence.value.state.OutputStateInvalid?)
            && (p == Some(PlanDefer) <==>
                  contracted && RequiresOutputs(contract.value) && (evidence == None || ReportsState(evidence, {OutputsUnavailable})))
            && (p == Some(PlanReject(NoContract)) <==>
                  capability != Delete && contract == None && ReportsState(evidence, {OutputsAvailable, OutputsInvalid}))
            && (forall why :: p == Some(PlanReject(ReportedInvalid(why))) <==>
                  contracted && ReportsState(evidence, {OutputsInvalid}) && evidence.value.reason == why)
            && (p == Some(PlanReject(ContractViolated)) <==> offered && !met)
            && (p == Some(PlanReject(NotPublishable)) <==> met && SnapshotOf(target, evidence.value.values, at) == None)
            && (forall s :: p == Some(PlanPublish(s)) <==> met && SnapshotOf(target, evidence.value.values, at) == Some(s))
            && (p == Some(PlanNone) <==>
                  || capability == Delete
                  || (contract == None && !ReportsState(evidence, {OutputsAvailable, OutputsInvalid}))
                  || (contracted && !RequiresOutputs(contract.value) && (evidence == None || ReportsState(evidence, {OutputsUnavailable}))))
  {
    hide Meets, SnapshotOf, RequiresOutputs;
  }
}

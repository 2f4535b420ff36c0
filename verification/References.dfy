/** Reference sets: canonical form, shape, differences, and the wait count. */
module References {
  import opened Basics
  import opened Domain
  import opened Ordering
  import opened Graph

  const MAX_REFERENCES := 32

  datatype Edge = Edge(slot: string, target: ResourceID, generation: nat)

  datatype ReferenceError =
    | DuplicateTarget(slot: string) | TooManyReferences
    | UnknownSlot | SelfReference | Cardinality(slot: string)

  // ------------------------------------------------------------ canonical form

  type Submitted = map<string, seq<ResourceID>>

  /** The slot-to-target pairs a submission denotes, whatever its order. */
  ghost predicate Denotes(input: Submitted, slot: string, target: ResourceID) {
    slot in input && target in input[slot]
  }

  predicate EdgeBefore(a: Edge, b: Edge) {
    Before(a.slot, b.slot) || (a.slot == b.slot && Before(a.target, b.target))
  }

  predicate CanonicalOrder(edges: seq<Edge>) {
    && (forall i, j :: 0 <= i < j < |edges| ==> EdgeBefore(edges[i], edges[j]))
    && (forall i :: 0 <= i < |edges| ==> edges[i].generation == 0)
  }

  function EdgesOf(slot: string, targets: seq<ResourceID>): (r: seq<Edge>)
    ensures |r| == |targets|
    ensures forall i :: 0 <= i < |r| ==> r[i] == Edge(slot, targets[i], 0)
  {
    seq(|targets|, i requires 0 <= i < |targets| => Edge(slot, targets[i], 0))
  }

  ghost predicate NoRepeats(input: Submitted) {
    forall s :: s in input ==> Distinct(input[s])
  }

  /** The canonical list of a submission: exactly its pairs, in canonical order. */
  ghost predicate CanonicalFor(input: Submitted, edges: seq<Edge>) {
    CanonicalOrder(edges) && forall s, t :: Denotes(input, s, t) <==> Edge(s, t, 0) in edges
  }

  ghost predicate Accepted(input: Submitted, edges: seq<Edge>) {
    NoRepeats(input) && CanonicalFor(input, edges) && |edges| <= MAX_REFERENCES
  }

  ghost function CanonicalOf(input: Submitted): Option<seq<Edge>> {
    if exists edges :: Accepted(input, edges) then
      var edges :| Accepted(input, edges);
      Some(edges)
    else None
  }

  method KeysOf(input: Submitted) returns (slots: seq<string>)
    ensures Distinct(slots)
    ensures forall s :: s in slots <==> s in input
  {
    slots := [];
    var left := input.Keys;
    while left != {}
      invariant left <= input.Keys
      invariant forall s :: s in slots <==> s in input && s !in left
      invariant Distinct(slots)
      decreases left
    {
      var slot :| slot in left;
      left := left - {slot};
      slots := slots + [slot];
    }
  }

  /** The targets of one slot without repetition, or nothing when one repeats. */
  method UniqueTargets(targets: seq<ResourceID>) returns (r: Option<seq<ResourceID>>)
    ensures r.Some? <==> Distinct(targets)
    ensures r.Some? ==> r.value == targets
  {
    var seen: set<ResourceID> := {};
    var unique: seq<ResourceID> := [];
    for i := 0 to |targets|
      invariant unique == targets[..i]
      invariant forall t :: t in seen <==> t in targets[..i]
      invariant Distinct(targets[..i])
    {
      if targets[i] in seen {
        return None;
      }
      seen := seen + {targets[i]};
      unique := unique + [targets[i]];
    }
    assert targets[..|targets|] == targets;
    return Some(unique);
  }

  /** Slots sorted by name, targets deduplicated and sorted within their slot. */
  method CanonicalizeReferences(input: Submitted) returns (r: Result<seq<Edge>, ReferenceError>)
    ensures r.Ok? <==> CanonicalOf(input).Some?
    ensures r.Ok? ==> Accepted(input, r.value) && CanonicalOf(input) == Some(r.value)
    ensures r.Err? && r.error.DuplicateTarget? ==> r.error.slot in input && !Distinct(input[r.error.slot])
    ensures r.Err? ==> r.error.DuplicateTarget? || r.error.TooManyReferences?
    ensures r.Ok? ==> |r.value| <= 32
    ensures r.Err? && r.error.TooManyReferences? ==> NoRepeats(input) && exists edges :: CanonicalFor(input, edges) && 32 < |edges|
  {
    hide Sorted, CanonicalOf, Denotes, CanonicalFor;
    var keys := KeysOf(input);
    var slots := Sorted(keys);
    SortedAscends(keys);
    var edges: seq<Edge> := [];
    var total := 0;
    for i := 0 to |slots|
      invariant total == |edges|
      invariant CanonicalOrder(edges)
      invariant forall s :: s in slots[..i] ==> Distinct(input[s])
      invariant forall e :: e in edges <==> e == Edge(e.slot, e.target, 0) && e.slot in slots[..i] && e.target in input[e.slot]
    {
      var slot := slots[i];
      var unique := UniqueTargets(input[slot]);
      if unique.None? {
        RepeatIsRefused(input, slot);
        return Err(DuplicateTarget(slot));
      }
      var sorted := Sorted(unique.value);
      SortedAscends(unique.value);
      assert slots[..i + 1] == slots[..i] + [slot];
      SlotAppends(input, edges, slots[..i], slot, sorted);
      edges := edges + EdgesOf(slot, sorted);
      total := total + |sorted|;
    }
    assert slots[..|slots|] == slots;
    assert NoRepeats(input) && CanonicalFor(input, edges) by {
      CompletedIsFor(input, edges);
    }
    CompletedIsCanonical(input, edges);
    if total > MAX_REFERENCES {
      return Err(TooManyReferences);
    }
    return Ok(edges);
  }

  lemma RepeatIsRefused(input: Submitted, slot: string)
    requires slot in input && !Distinct(input[slot])
    ensures CanonicalOf(input).None?
  {
  }

  lemma CompletedIsFor(input: Submitted, edges: seq<Edge>)
    requires CanonicalOrder(edges)
    requires forall e :: e in edges <==> e == Edge(e.slot, e.target, 0) && e.slot in input && e.target in input[e.slot]
    ensures CanonicalFor(input, edges)
  {
  }

  /** The collected edges are the submission's canonical list; only their number can still refuse it. */
  lemma CompletedIsCanonical(input: Submitted, edges: seq<Edge>)
    requires NoRepeats(input) && CanonicalOrder(edges)
    requires forall e :: e in edges <==> e == Edge(e.slot, e.target, 0) && e.slot in input && e.target in input[e.slot]
    ensures |edges| <= MAX_REFERENCES ==> Accepted(input, edges) && CanonicalOf(input) == Some(edges)
    ensures |edges| > MAX_REFERENCES ==> CanonicalOf(input).None?
  {
    hide CanonicalOf, CanonicalFor, Distinct;
    CompletedIsFor(input, edges);
    AcceptedIsUnique(input, edges);
    AcceptedIsCanonical(input, edges);
  }

  lemma AcceptedIsCanonical(input: Submitted, edges: seq<Edge>)
    requires forall other :: Accepted(input, other) ==> other == edges
    ensures CanonicalOf(input) == if Accepted(input, edges) then Some(edges) else None
  {
    hide Accepted;
  }

  /** Appending one slot's sorted targets keeps the edges canonical and complete so far. */
  lemma SlotAppends(input: Submitted, edges: seq<Edge>, done: seq<string>, slot: string, sorted: seq<ResourceID>)
    requires CanonicalOrder(edges) && Ascending(sorted)
    requires Ascending(done + [slot])
    requires forall s :: s in done + [slot] ==> s in input
    requires forall e :: e in edges <==> e == Edge(e.slot, e.target, 0) && e.slot in done && e.target in input[e.slot]
    requires forall t :: t in sorted <==> t in input[slot]
    ensures CanonicalOrder(edges + EdgesOf(slot, sorted))
    ensures forall e :: e in edges + EdgesOf(slot, sorted) <==>
                        e == Edge(e.slot, e.target, 0) && e.slot in done + [slot] && e.target in input[e.slot]
  {
    forall e | e in edges
      ensures Before(e.slot, slot)
    {
      var k :| 0 <= k < |done| && done[k] == e.slot;
      assert (done + [slot])[k] == e.slot && (done + [slot])[|done|] == slot;
    }
    var more := EdgesOf(slot, sorted);
    forall e
      ensures e in more <==> e == Edge(slot, e.target, 0) && e.target in input[slot]
    {
      if e == Edge(slot, e.target, 0) && e.target in input[slot] {
        var k :| 0 <= k < |sorted| && sorted[k] == e.target;
        assert more[k] == e;
      }
    }
  }

  lemma AcceptedIsUnique(input: Submitted, edges: seq<Edge>)
    requires CanonicalFor(input, edges)
    ensures forall other :: Accepted(input, other) ==> other == edges
  {
    forall other | Accepted(input, other)
      ensures other == edges
    {
      SamePairsSameList(input, input, edges, other);
    }
  }

  /** Two canonical lists are equal exactly when the submissions denote the same pairs. */
  lemma SamePairsSameList(a: Submitted, b: Submitted, forA: seq<Edge>, forB: seq<Edge>)
    requires CanonicalFor(a, forA) && CanonicalFor(b, forB)
    ensures forA == forB <==> (forall s, t :: Denotes(a, s, t) <==> Denotes(b, s, t))
  {
    if forall s, t :: Denotes(a, s, t) <==> Denotes(b, s, t) {
      forall e
        ensures e in forA <==> e in forB
      {
        assert e in forA ==> Denotes(a, e.slot, e.target);
        assert e in forB ==> Denotes(b, e.slot, e.target);
      }
      CanonicalIsUnique(forA, forB);
    }
  }

  lemma EdgeBeforeIsStrict(a: Edge, b: Edge)
    requires EdgeBefore(a, b)
    ensures a != b && !EdgeBefore(b, a)
  {
    BeforeIrreflexive(a.slot);
    BeforeIrreflexive(a.target);
    if EdgeBefore(b, a) {
      if Before(a.slot, b.slot) && Before(b.slot, a.slot) {
        BeforeTransitive(a.slot, b.slot, a.slot);
      }
      if a.slot == b.slot && Before(a.target, b.target) && Before(b.target, a.target) {
        BeforeTransitive(a.target, b.target, a.target);
      }
    }
  }

  /** There is one canonical list for each set of pairs. */
  lemma {:induction false} CanonicalIsUnique(a: seq<Edge>, b: seq<Edge>)
    requires CanonicalOrder(a) && CanonicalOrder(b)
    requires forall e :: e in a <==> e in b
    ensures a == b
  {
    assert a != [] ==> a[0] in b;
    assert b != [] ==> b[0] in a;
    if a != [] && b != [] {
      if a[0] != b[0] {
        assert a[0] in b && b[0] in a;
        var i :| 0 <= i < |b| && b[i] == a[0];
        var j :| 0 <= j < |a| && a[j] == b[0];
        assert EdgeBefore(b[0], b[i]) && EdgeBefore(a[0], a[j]);
        EdgeBeforeIsStrict(a[0], b[0]);
        assert false;
      }
      forall e
        ensures e in a[1..] <==> e in b[1..]
      {
        HeadIsApart(a, e);
        HeadIsApart(b, e);
      }
      CanonicalIsUnique(a[1..], b[1..]);
      assert a == [a[0]] + a[1..] && b == [b[0]] + b[1..];
    }
  }

  lemma HeadIsApart(a: seq<Edge>, e: Edge)
    requires CanonicalOrder(a) && a != []
    ensures e in a[1..] <==> e in a && e != a[0]
  {
    if e in a[1..] {
      var k :| 0 <= k < |a[1..]| && a[1..][k] == e;
      EdgeBeforeIsStrict(a[0], a[k + 1]);
    }
  }

  // ------------------------------------------------------------------ shape

  datatype Slot = Slot(name: string, allowed: seq<TypeRef>, minItems: int, maxItems: int)

  datatype ReferenceContract = ReferenceContract(slots: seq<Slot>)

  const MAX_SLOT_ITEMS := 16

  /** What the contract constructor guarantees of its slots. */
  predicate ContractWellFormed(c: ReferenceContract) {
    && (forall i :: 0 <= i < |c.slots| ==> 0 <= c.slots[i].minItems <= 1 <= c.slots[i].maxItems <= MAX_SLOT_ITEMS)
    && (forall i, j :: 0 <= i < j < |c.slots| ==> c.slots[i].name != c.slots[j].name)
  }

  function FindSlot(slots: seq<Slot>, name: string): (r: Option<Slot>)
    ensures r.Some? ==> r.value in slots && r.value.name == name
    ensures r.None? ==> forall i :: 0 <= i < |slots| ==> slots[i].name != name
  {
    if slots == [] then None
    else if slots[0].name == name then Some(slots[0])
    else FindSlot(slots[1..], name)
  }

  function CountSlot(edges: seq<Edge>, slot: string): nat {
    if edges == [] then 0
    else CountSlot(edges[..|edges| - 1], slot) + (if edges[|edges| - 1].slot == slot then 1 else 0)
  }

  /** The edges a source may declare: known slots, never itself, at most each slot's maximum. */
  ghost predicate ShapeAccepts(contract: Option<ReferenceContract>, source: ResourceID, edges: seq<Edge>) {
    edges == [] ||
    (contract.Some? &&
     forall e :: e in edges ==>
       && FindSlot(contract.value.slots, e.slot).Some?
       && e.target != source
       && CountSlot(edges, e.slot) <= FindSlot(contract.value.slots, e.slot).value.maxItems)
  }

  /** The slot declared first under the name. */
  predicate Declares(slots: seq<Slot>, name: string, slot: Slot) {
    exists i :: 0 <= i < |slots| && slots[i] == slot && slot.name == name && forall j :: 0 <= j < i ==> slots[j].name != name
  }

  lemma {:induction false} FoundIsFirst(slots: seq<Slot>, name: string, slot: Slot)
    ensures FindSlot(slots, name) == Some(slot) <==> Declares(slots, name, slot)
  {
    if slots == [] {
      assert !Declares([], name, slot);
    } else if slots[0].name == name {
      DeclaredFirst(slots, name, slot);
    } else {
      DeclaredLater(slots, name, slot);
      FoundIsFirst(slots[1..], name, slot);
    }
  }

  lemma DeclaredFirst(slots: seq<Slot>, name: string, slot: Slot)
    requires slots != [] && slots[0].name == name
    ensures Declares(slots, name, slot) <==> slot == slots[0]
  {
  }

  lemma DeclaredLater(slots: seq<Slot>, name: string, slot: Slot)
    requires slots != [] && slots[0].name != name
    ensures Declares(slots, name, slot) <==> Declares(slots[1..], name, slot)
  {
    if Declares(slots, name, slot) {
      var i :| 0 <= i < |slots| && slots[i] == slot && slot.name == name && forall j :: 0 <= j < i ==> slots[j].name != name;
      assert slots[1..][i - 1] == slot && forall j :: 0 <= j < i - 1 ==> slots[1..][j].name != name;
    }
    if Declares(slots[1..], name, slot) {
      var i :| 0 <= i < |slots[1..]| && slots[1..][i] == slot && forall j :: 0 <= j < i ==> slots[1..][j].name != name;
      forall j | 0 <= j < i + 1
        ensures slots[j].name != name
      {
        if j > 0 {
          assert slots[1..][j - 1].name != name;
        }
      }
      assert slots[i + 1] == slot;
    }
  }

  /** The targets that edges of one slot name. */
  ghost function TargetsIn(edges: seq<Edge>, slot: string): set<ResourceID> {
    set i | 0 <= i < |edges| && edges[i].slot == slot :: edges[i].target
  }

  /** No pair of slot and target occurs twice. */
  predicate NoPairTwice(edges: seq<Edge>) {
    forall i, j :: 0 <= i < j < |edges| ==> edges[i].slot != edges[j].slot || edges[i].target != edges[j].target
  }

  lemma TargetsOfLonger(init: seq<Edge>, last: Edge, slot: string)
    ensures TargetsIn(init + [last], slot) == TargetsIn(init, slot) + (if last.slot == slot then {last.target} else {})
  {
    var all := init + [last];
    forall t | t in TargetsIn(init, slot)
      ensures t in TargetsIn(all, slot)
    {
      var i :| 0 <= i < |init| && init[i].slot == slot && init[i].target == t;
      assert all[i] == init[i];
    }
    assert all[|init|] == last;
  }

  lemma LastIsNew(init: seq<Edge>, last: Edge)
    requires NoPairTwice(init + [last])
    ensures NoPairTwice(init) && last.target !in TargetsIn(init, last.slot)
  {
    var all := init + [last];
    forall i | 0 <= i < |init|
      ensures init[i] == all[i] && !(init[i].slot == last.slot && init[i].target == last.target)
    {
      assert all[i] == init[i] && all[|init|] == last;
    }
  }

  lemma {:induction false} CountsTargets(edges: seq<Edge>, slot: string)
    requires NoPairTwice(edges)
    ensures CountSlot(edges, slot) == |TargetsIn(edges, slot)|
  {
    if edges == [] {
      assert TargetsIn(edges, slot) == {};
    } else {
      hide NoPairTwice, TargetsIn;
      var init, last := edges[..|edges| - 1], edges[|edges| - 1];
      assert init + [last] == edges;
      LastIsNew(init, last);
      CountsTargets(init, slot);
      TargetsOfLonger(init, last, slot);
    }
  }

  /** Edges without repetition have an acceptable shape exactly when no edge leads back to
      its source and every slot they use is declared with room for all of its targets. */
  lemma ShapeAcceptedExactly(contract: Option<ReferenceContract>, source: ResourceID, edges: seq<Edge>)
    requires NoPairTwice(edges)
    ensures ShapeAccepts(contract, source, edges) <==>
              forall e :: e in edges ==>
                && e.target != source && contract.Some?
                && exists slot :: Declares(contract.value.slots, e.slot, slot) && |TargetsIn(edges, e.slot)| <= slot.maxItems
  {
    hide Declares, FindSlot, CountSlot, TargetsIn, NoPairTwice;
    forall e | e in edges && contract.Some?
      ensures FindSlot(contract.value.slots, e.slot).Some? && CountSlot(edges, e.slot) <= FindSlot(contract.value.slots, e.slot).value.maxItems <==>
              exists slot :: Declares(contract.value.slots, e.slot, slot) && |TargetsIn(edges, e.slot)| <= slot.maxItems
    {
      CountsTargets(edges, e.slot);
      var found := FindSlot(contract.value.slots, e.slot);
      if found.Some? {
        FoundIsFirst(contract.value.slots, e.slot, found.value);
      }
      forall slot | Declares(contract.value.slots, e.slot, slot)
        ensures found == Some(slot)
      {
        FoundIsFirst(contract.value.slots, e.slot, slot);
      }
    }
    assert edges != [] ==> edges[0] in edges;
  }

  /** An accepted submission's canonical list repeats no pair. */
  lemma CanonicalRepeatsNothing(edges: seq<Edge>)
    requires CanonicalOrder(edges)
    ensures NoPairTwice(edges)
  {
    forall i, j | 0 <= i < j < |edges|
      ensures edges[i].slot != edges[j].slot || edges[i].target != edges[j].target
    {
      EdgeBeforeIsStrict(edges[i], edges[j]);
    }
  }

  lemma {:induction false} CountSlotPositive(edges: seq<Edge>, slot: string)
    ensures CountSlot(edges, slot) > 0 <==> exists e :: e in edges && e.slot == slot
  {
    if edges != [] {
      var init := edges[..|edges| - 1];
      var last := edges[|edges| - 1];
      assert edges == init + [last];
      CountSlotPositive(init, slot);
      if last.slot == slot {
        assert last in edges;
      }
      if CountSlot(init, slot) > 0 {
        var e :| e in init && e.slot == slot;
        assert e in edges;
      }
    }
  }

  /** Each edge names a declared slot and not the source itself. */
  predicate EdgesDeclared(contract: ReferenceContract, source: ResourceID, edges: seq<Edge>) {
    forall i :: 0 <= i < |edges| ==> FindSlot(contract.slots, edges[i].slot).Some? && edges[i].target != source
  }

  ghost predicate CountsOf(counts: map<string, nat>, edges: seq<Edge>) {
    forall s :: (s in counts <==> CountSlot(edges, s) > 0) && (s in counts ==> counts[s] == CountSlot(edges, s))
  }

  method CountSlots(contract: ReferenceContract, source: ResourceID, edges: seq<Edge>)
    returns (violation: Option<ReferenceError>, counts: map<string, nat>)
    ensures violation.None? <==> EdgesDeclared(contract, source, edges)
    ensures violation.None? ==> CountsOf(counts, edges)
  {
    counts := map[];
    violation := None;
    for i := 0 to |edges|
      invariant violation.None? <==> EdgesDeclared(contract, source, edges[..i])
      invariant violation.None? ==> CountsOf(counts, edges[..i])
    {
      var slot := edges[i].slot;
      assert edges[..i + 1] == edges[..i] + [edges[i]];
      assert edges[..i + 1][..i] == edges[..i];
      if FindSlot(contract.slots, slot).None? {
        violation := Some(UnknownSlot);
      } else if edges[i].target == source {
        violation := Some(SelfReference);
      } else {
        counts := counts[slot := (if slot in counts then counts[slot] else 0) + 1];
      }
    }
    assert edges[..|edges|] == edges;
  }

  predicate WithinMaximum(contract: ReferenceContract, counts: map<string, nat>, slot: string) {
    var declared := FindSlot(contract.slots, slot);
    slot in counts && declared.Some? ==> counts[slot] <= declared.value.maxItems
  }

  method CheckCardinality(contract: ReferenceContract, counts: map<string, nat>) returns (violation: Option<ReferenceError>)
    requires ContractWellFormed(contract)
    requires forall s :: s in counts ==> counts[s] > 0 && FindSlot(contract.slots, s).Some?
    ensures violation.None? <==> forall s :: s in counts ==> WithinMaximum(contract, counts, s)
  {
    violation := None;
    var left := counts.Keys;
    while left != {}
      invariant left <= counts.Keys
      invariant violation.None? <==> forall s :: s in counts && s !in left ==> WithinMaximum(contract, counts, s)
      decreases left
    {
      var slot :| slot in left;
      left := left - {slot};
      var declared := FindSlot(contract.slots, slot).value;
      if counts[slot] < declared.minItems || declared.maxItems < counts[slot] {
        violation := Some(Cardinality(slot));
      }
    }
  }

  /** The source's check. It compares each slot's count with both bounds, but visits
      only slots that occur, so a minimum of one rejects nothing. */
  method ValidateReferenceShape(contract: Option<ReferenceContract>, source: ResourceID, edges: seq<Edge>)
    returns (r: Result<(), ReferenceError>)
    requires contract.Some? ==> ContractWellFormed(contract.value)
    ensures r.Ok? <==> ShapeAccepts(contract, source, edges)
  {
    if |edges| == 0 {
      return Ok(());
    }
    if contract.None? {
      return Err(UnknownSlot);
    }
    var undeclared, counts := CountSlots(contract.value, source, edges);
    if undeclared.Some? {
      return Err(undeclared.value);
    }
    forall s
      ensures s in counts <==> exists e :: e in edges && e.slot == s
    {
      CountSlotPositive(edges, s);
    }
    var outside := CheckCardinality(contract.value, counts);
    if outside.Some? {
      return Err(outside.value);
    }
    return Ok(());
  }

  /** Every declared slot holds at least its minimum of targets. */
  predicate MeetsMinima(contract: ReferenceContract, edges: seq<Edge>) {
    forall i :: 0 <= i < |contract.slots| ==> contract.slots[i].minItems <= CountSlot(edges, contract.slots[i].name)
  }

  predicate Occurs(edges: seq<Edge>, slot: string) {
    exists e :: e in edges && e.slot == slot
  }

  /** Edges meet the minima exactly when every slot of minimum one occurs among them. */
  lemma MinimaMetExactly(contract: ReferenceContract, edges: seq<Edge>)
    requires ContractWellFormed(contract)
    ensures MeetsMinima(contract, edges) <==>
            forall i :: 0 <= i < |contract.slots| && contract.slots[i].minItems == 1 ==> Occurs(edges, contract.slots[i].name)
  {
    hide CountSlot, Occurs;
    forall i | 0 <= i < |contract.slots|
      ensures CountSlot(edges, contract.slots[i].name) > 0 <==> Occurs(edges, contract.slots[i].name)
    {
      SlotOccurs(edges, contract.slots[i].name);
    }
  }

  lemma SlotOccurs(edges: seq<Edge>, slot: string)
    ensures CountSlot(edges, slot) > 0 <==> Occurs(edges, slot)
  {
    CountSlotPositive(edges, slot);
  }

  /** The check accepts a source without the reference its type requires. */
  lemma RequiredSlotMayBeEmpty(name: string, target: TypeRef, source: ResourceID)
    ensures var contract := ReferenceContract([Slot(name, [target], 1, 1)]);
            ContractWellFormed(contract) && ShapeAccepts(Some(contract), source, []) && !MeetsMinima(contract, [])
  {
    var contract := ReferenceContract([Slot(name, [target], 1, 1)]);
    assert contract.slots[0].minItems > CountSlot([], contract.slots[0].name);
  }

  // ------------------------------------------------------------- differences

  /** The comparison key of an edge: slot and target joined by a NUL. */
  function EdgeKey(e: Edge): string {
    e.slot + ['\0'] + e.target
  }

  predicate NulFree(s: string) {
    '\0' !in s
  }

  predicate SamePair(a: Edge, b: Edge) {
    a.slot == b.slot && a.target == b.target
  }

  /** `b`'s slot holds a NUL at which its key also reads as `a`. */
  predicate Extends(a: Edge, b: Edge) {
    exists i :: && 0 <= i < |b.slot| && b.slot[i] == '\0'
                && a.slot == b.slot[..i] && a.target == b.slot[i + 1..] + ['\0'] + b.target
  }

  lemma LongerSlotExtends(a: Edge, b: Edge)
    requires EdgeKey(a) == EdgeKey(b) && |a.slot| < |b.slot|
    ensures Extends(a, b)
  {
    var i, k := |a.slot|, EdgeKey(b);
    assert b.slot == k[..|b.slot|] && b.target == k[|b.slot| + 1..];
    assert k[i] == '\0' && a.slot == k[..i] && a.target == k[i + 1..];
    assert b.slot[i] == '\0' && a.slot == b.slot[..i];
    assert k[i + 1..] == b.slot[i + 1..] + ['\0'] + b.target;
  }

  /** Two edges share a key exactly when they are the same pair or one slot name, cut at a
      NUL, reads as the other edge. */
  lemma KeysCollideExactly(a: Edge, b: Edge)
    ensures EdgeKey(a) == EdgeKey(b) <==> SamePair(a, b) || Extends(a, b) || Extends(b, a)
  {
    if EdgeKey(a) == EdgeKey(b) {
      if |a.slot| < |b.slot| {
        LongerSlotExtends(a, b);
      } else if |b.slot| < |a.slot| {
        LongerSlotExtends(b, a);
      } else {
        assert a.slot == EdgeKey(a)[..|a.slot|] && b.slot == EdgeKey(b)[..|a.slot|];
        assert a.target == EdgeKey(a)[|a.slot| + 1..] && b.target == EdgeKey(b)[|a.slot| + 1..];
      }
    }
    if Extends(a, b) {
      ExtensionCollides(a, b);
    }
    if Extends(b, a) {
      ExtensionCollides(b, a);
    }
  }

  lemma ExtensionCollides(a: Edge, b: Edge)
    requires Extends(a, b)
    ensures EdgeKey(a) == EdgeKey(b)
  {
    var i :| && 0 <= i < |b.slot| && b.slot[i] == '\0'
             && a.slot == b.slot[..i] && a.target == b.slot[i + 1..] + ['\0'] + b.target;
    assert b.slot == b.slot[..i] + ['\0'] + b.slot[i + 1..];
    Regroup(b.slot[..i], b.slot[i + 1..], b.target);
  }

  lemma Regroup(x: string, y: string, z: string)
    ensures (x + ['\0'] + y) + ['\0'] + z == x + ['\0'] + (y + ['\0'] + z)
  {
  }

  /** Keys identify edges when the targets hold no NUL, whatever the slots, and when the
      slots hold none, whatever the targets. */
  lemma EdgeKeyIsInjective(a: Edge, b: Edge)
    requires EdgeKey(a) == EdgeKey(b)
    requires (NulFree(a.target) && NulFree(b.target)) || (NulFree(a.slot) && NulFree(b.slot))
    ensures SamePair(a, b)
  {
    KeysCollideExactly(a, b);
    if Extends(a, b) {
      ExtensionHoldsNul(a, b);
    }
    if Extends(b, a) {
      ExtensionHoldsNul(b, a);
    }
  }

  /** The confusion is real: two different edges with one key. */
  lemma EdgeKeyCollides()
    ensures var a, b := Edge("a", ['\0', 'b'], 0), Edge(['a', '\0'], "b", 0);
            EdgeKey(a) == EdgeKey(b) && !SamePair(a, b)
  {
    var a, b := Edge("a", ['\0', 'b'], 0), Edge(['a', '\0'], "b", 0);
    assert "a" + ['\0'] + ['\0', 'b'] == ['a', '\0'] + ['\0'] + "b";
  }

  lemma ExtensionHoldsNul(a: Edge, b: Edge)
    requires Extends(a, b)
    ensures !NulFree(a.target) && !NulFree(b.slot)
  {
    var i :| && 0 <= i < |b.slot| && b.slot[i] == '\0'
             && a.slot == b.slot[..i] && a.target == b.slot[i + 1..] + ['\0'] + b.target;
    assert a.target[|b.slot[i + 1..]|] == '\0';
  }

  predicate HasPair(edges: seq<Edge>, e: Edge) {
    exists i :: 0 <= i < |edges| && SamePair(edges[i], e)
  }

  /** The edges of `from` whose pair does not occur in `others`, in order. */
  function Without(from: seq<Edge>, others: seq<Edge>): (r: seq<Edge>)
    ensures forall e :: e in r <==> e in from && !HasPair(others, e)
  {
    if from == [] then []
    else
      var rest := Without(from[1..], others);
      assert from == [from[0]] + from[1..];
      if HasPair(others, from[0]) then rest else [from[0]] + rest
  }

  method KeySet(edges: seq<Edge>) returns (keys: set<string>)
    ensures forall k :: k in keys <==> exists i :: 0 <= i < |edges| && EdgeKey(edges[i]) == k
  {
    keys := {};
    for i := 0 to |edges|
      invariant forall k :: k in keys <==> exists j :: 0 <= j < i && EdgeKey(edges[j]) == k
    {
      keys := keys + {EdgeKey(edges[i])};
    }
  }

  /** Some edge of the list has this edge's key. */
  predicate KeyIn(edges: seq<Edge>, e: Edge) {
    exists i :: 0 <= i < |edges| && EdgeKey(edges[i]) == EdgeKey(e)
  }

  lemma PairHasKey(edges: seq<Edge>, e: Edge)
    ensures HasPair(edges, e) ==> KeyIn(edges, e)
  {
    if HasPair(edges, e) {
      var i :| 0 <= i < |edges| && SamePair(edges[i], e);
      assert EdgeKey(edges[i]) == EdgeKey(e);
    }
  }

  /** The edges of `from` whose key does not occur in `others`, in order. */
  function WithoutKeys(from: seq<Edge>, others: seq<Edge>): (r: seq<Edge>)
    ensures forall e :: e in r <==> e in from && !KeyIn(others, e)
  {
    if from == [] then []
    else
      var rest := WithoutKeys(from[1..], others);
      assert from == [from[0]] + from[1..];
      if KeyIn(others, from[0]) then rest else [from[0]] + rest
  }

  method Selected(from: seq<Edge>, others: seq<Edge>) returns (r: seq<Edge>)
    ensures r == WithoutKeys(from, others)
  {
    var keys := KeySet(others);
    r := [];
    for i := 0 to |from|
      invariant r + WithoutKeys(from[i..], others) == WithoutKeys(from, others)
    {
      assert from[i..][1..] == from[i + 1..];
      if EdgeKey(from[i]) !in keys {
        r := r + [from[i]];
      }
    }
  }

  /** Added and removed edges of a replacement, compared by key. */
  method ReferenceDifference(oldSet: seq<Edge>, newSet: seq<Edge>) returns (added: seq<Edge>, removed: seq<Edge>)
    ensures added == WithoutKeys(newSet, oldSet) && removed == WithoutKeys(oldSet, newSet)
  {
    added := Selected(newSet, oldSet);
    removed := Selected(oldSet, newSet);
  }

  /** Some edge of `from` is not among the others, yet its key is. */
  predicate Disguises(from: seq<Edge>, others: seq<Edge>) {
    exists i :: 0 <= i < |from| && KeyIn(others, from[i]) && !HasPair(others, from[i])
  }

  /** Comparing by key finds every new edge exactly when none is in disguise. */
  lemma {:induction false} DifferenceIsCompleteExactly(from: seq<Edge>, others: seq<Edge>)
    ensures WithoutKeys(from, others) == Without(from, others) <==> !Disguises(from, others)
  {
    if Disguises(from, others) {
      var i :| 0 <= i < |from| && KeyIn(others, from[i]) && !HasPair(others, from[i]);
      assert from[i] in Without(from, others) && from[i] !in WithoutKeys(from, others);
    } else if from != [] {
      var tail := from[1..];
      DifferenceIsCompleteExactly(tail, others);
      PairHasKey(others, from[0]);
    }
  }

  predicate TargetsClean(edges: seq<Edge>) {
    forall i :: 0 <= i < |edges| ==> NulFree(edges[i].target)
  }

  predicate SlotsClean(edges: seq<Edge>) {
    forall i :: 0 <= i < |edges| ==> NulFree(edges[i].slot)
  }

  /** Targets without NUL, or slots without one, leave no room for a disguise. */
  lemma CleanEdgesNeverDisguise(from: seq<Edge>, others: seq<Edge>)
    requires (TargetsClean(from) && TargetsClean(others)) || (SlotsClean(from) && SlotsClean(others))
    ensures !Disguises(from, others)
  {
    if Disguises(from, others) {
      var i :| 0 <= i < |from| && KeyIn(others, from[i]) && !HasPair(others, from[i]);
      var k :| 0 <= k < |others| && EdgeKey(others[k]) == EdgeKey(from[i]);
      EdgeKeyIsInjective(others[k], from[i]);
    }
  }

  /** A replacement whose only edge is new and found to be known: nothing checks it. */
  lemma DisguisedReplacement(g: nat)
    ensures var stored := [Edge("a", ['b', '\0', 'c'], g)];
            var submitted := [Edge(['a', '\0', 'b'], "c", 0)];
            && WithoutKeys(submitted, stored) == []
            && Without(submitted, stored) == submitted
            && Disguises(submitted, stored)
  {
    var stored := [Edge("a", ['b', '\0', 'c'], g)];
    var submitted := [Edge(['a', '\0', 'b'], "c", 0)];
    assert EdgeKey(stored[0]) == ['a', '\0', 'b', '\0', 'c'] == EdgeKey(submitted[0]);
    assert !HasPair(stored, submitted[0]) by {
      assert |stored[0].slot| != |submitted[0].slot|;
    }
    assert KeyIn(stored, submitted[0]);
  }

  lemma WithoutHolds(from: seq<Edge>, others: seq<Edge>, e: Edge)
    ensures HasPair(Without(from, others), e) <==> HasPair(from, e) && !HasPair(others, e)
  {
    var rest := Without(from, others);
    forall i | 0 <= i < |from| && SamePair(from[i], e)
      ensures HasPair(rest, e) <==> !HasPair(others, e)
    {
      assert HasPair(others, from[i]) <==> HasPair(others, e);
      assert from[i] in rest <==> !HasPair(others, from[i]);
      if HasPair(rest, e) {
        var k :| 0 <= k < |rest| && SamePair(rest[k], e);
        assert rest[k] in rest && (HasPair(others, rest[k]) <==> HasPair(others, e));
      }
    }
    if HasPair(rest, e) {
      var k :| 0 <= k < |rest| && SamePair(rest[k], e);
      assert rest[k] in rest && rest[k] in from;
    }
  }

  /** Removing `removed` from the old set and adding `added` gives the new set. */
  lemma DifferenceRebuilds(oldSet: seq<Edge>, newSet: seq<Edge>, e: Edge)
    ensures HasPair(newSet, e) <==>
            (HasPair(oldSet, e) && !HasPair(Without(oldSet, newSet), e)) || HasPair(Without(newSet, oldSet), e)
  {
    WithoutHolds(oldSet, newSet, e);
    WithoutHolds(newSet, oldSet, e);
  }

  predicate PairsDistinct(edges: seq<Edge>) {
    forall i, j :: 0 <= i < j < |edges| ==> !SamePair(edges[i], edges[j])
  }

  /** As many edges, and each one's key known. */
  predicate EqualByKey(a: seq<Edge>, b: seq<Edge>) {
    |a| == |b| && forall i :: 0 <= i < |b| ==> KeyIn(a, b[i])
  }

  /** The comparison as the source makes it. */
  method EdgesEqual(a: seq<Edge>, b: seq<Edge>) returns (equal: bool)
    ensures equal <==> EqualByKey(a, b)
  {
    if |a| != |b| {
      return false;
    }
    var keys := KeySet(a);
    for i := 0 to |b|
      invariant forall j :: 0 <= j < i ==> KeyIn(a, b[j])
    {
      if EdgeKey(b[i]) !in keys {
        return false;
      }
    }
    return true;
  }

  function Pairs(edges: seq<Edge>): set<(string, ResourceID)> {
    set i | 0 <= i < |edges| :: (edges[i].slot, edges[i].target)
  }

  lemma {:induction false} PairsCount(edges: seq<Edge>)
    requires PairsDistinct(edges)
    ensures |Pairs(edges)| == |edges|
  {
    if edges != [] {
      var init, last := edges[..|edges| - 1], edges[|edges| - 1];
      PairsCount(init);
      assert edges == init + [last];
      assert (last.slot, last.target) !in Pairs(init);
      assert Pairs(edges) == Pairs(init) + {(last.slot, last.target)};
    }
  }

  /** On sets without repetition, both hold the same pairs exactly when they compare
      equal and no edge of the second is in disguise. */
  lemma EqualMeansSamePairs(a: seq<Edge>, b: seq<Edge>)
    requires PairsDistinct(a) && PairsDistinct(b)
    ensures Pairs(a) == Pairs(b) <==> EqualByKey(a, b) && !Disguises(b, a)
  {
    PairsCount(a);
    PairsCount(b);
    if EqualByKey(a, b) && !Disguises(b, a) {
      forall i | 0 <= i < |b|
        ensures (b[i].slot, b[i].target) in Pairs(a)
      {
        assert HasPair(a, b[i]);
      }
      assert Pairs(a) == Pairs(b) + (Pairs(a) - Pairs(b));
    }
    if Pairs(a) == Pairs(b) {
      forall i | 0 <= i < |b|
        ensures KeyIn(a, b[i]) && HasPair(a, b[i])
      {
        assert (b[i].slot, b[i].target) in Pairs(a);
        PairHasKey(a, b[i]);
      }
    }
  }

  function FirstTargets(edges: seq<Edge>): (r: seq<ResourceID>)
    ensures Distinct(r)
    ensures forall t :: t in r <==> exists e :: e in edges && e.target == t
  {
    if edges == [] then []
    else
      var init, last := edges[..|edges| - 1], edges[|edges| - 1];
      assert edges == init + [last];
      var r := FirstTargets(init);
      if last.target in r then
        assert forall e :: e in edges && e.target != last.target ==> e in init;
        r
      else
        assert last in edges;
        assert forall e :: e in edges && e.target != last.target ==> e in init;
        r + [last.target]
  }

  /** The sorted distinct targets of the edges. */
  function DistinctTargets(edges: seq<Edge>): (r: seq<ResourceID>)
    ensures Ascending(r)
    ensures forall t :: t in r <==> exists e :: e in edges && e.target == t
  {
    SortedAscends(FirstTargets(edges));
    Sorted(FirstTargets(edges))
  }

  method DistinctEdgeTargets(edges: seq<Edge>) returns (r: seq<ResourceID>)
    ensures r == DistinctTargets(edges)
  {
    var seen: set<ResourceID> := {};
    var targets: seq<ResourceID> := [];
    for i := 0 to |edges|
      invariant targets == FirstTargets(edges[..i])
      invariant forall t :: t in seen <==> t in targets
    {
      assert edges[..i + 1][..i] == edges[..i];
      if edges[i].target !in seen {
        seen := seen + {edges[i].target};
        targets := targets + [edges[i].target];
      }
    }
    assert edges[..|edges|] == edges;
    r := Sorted(targets);
  }

  // ------------------------------------------------------------- wait counting

  /** Wait rows in ascending sequence order, as the repository pages them. */
  datatype Wait = Wait(operationID: OperationID, target: ResourceID, sequence: nat)

  predicate RowsOrdered(rows: seq<Wait>) {
    && (forall i :: 0 <= i < |rows| ==> rows[i].sequence > 0)
    && (forall i, j :: 0 <= i < j < |rows| ==> rows[i].sequence < rows[j].sequence)
  }

  function Naming(rows: seq<Wait>, target: ResourceID, after: nat): seq<Wait> {
    if rows == [] then []
    else if rows[0].target == target && after < rows[0].sequence then [rows[0]] + Naming(rows[1..], target, after)
    else Naming(rows[1..], target, after)
  }

  /** One page strictly after the cursor; the next cursor is zero when nothing remains. */
  function Page(rows: seq<Wait>, target: ResourceID, after: nat, limit: nat): (seq<Wait>, nat)
    requires limit > 0
  {
    var all := Naming(rows, target, after);
    if |all| <= limit then (all, 0) else (all[..limit], all[limit - 1].sequence)
  }

  lemma {:induction false} NamingRows(rows: seq<Wait>, target: ResourceID, after: nat)
    requires RowsOrdered(rows)
    ensures forall i :: 0 <= i < |Naming(rows, target, after)| ==>
              Naming(rows, target, after)[i] in rows && after < Naming(rows, target, after)[i].sequence
    ensures RowsOrdered(Naming(rows, target, after))
  {
    if rows != [] {
      var tail := rows[1..];
      var rest := Naming(tail, target, after);
      assert RowsOrdered(tail);
      NamingRows(tail, target, after);
      forall i | 0 <= i < |rest|
        ensures rest[i] in rows && rows[0].sequence < rest[i].sequence
      {
        var k :| 0 <= k < |tail| && tail[k] == rest[i];
        assert rows[k + 1] == rest[i];
      }
    }
  }

  /** Continuing after the k-th row leaves exactly the rows behind it. */
  lemma {:induction false} NamingContinues(rows: seq<Wait>, target: ResourceID, after: nat, k: nat)
    requires RowsOrdered(rows) && k < |Naming(rows, target, after)|
    ensures Naming(rows, target, Naming(rows, target, after)[k].sequence) == Naming(rows, target, after)[k + 1..]
  {
    var tail := rows[1..];
    var all, rest := Naming(rows, target, after), Naming(tail, target, after);
    assert RowsOrdered(tail);
    NamingRows(rows, target, after);
    if rows[0].target != target || rows[0].sequence <= after {
      NamingContinues(tail, target, after, k);
    } else {
      assert all == [rows[0]] + rest;
      if k == 0 {
        NamingFrom(tail, target, after, rows[0].sequence);
      } else {
        NamingContinues(tail, target, after, k - 1);
        assert all[0].sequence < all[k].sequence;
      }
    }
  }

  lemma {:induction false} NamingFrom(rows: seq<Wait>, target: ResourceID, after: nat, cursor: nat)
    requires after <= cursor && forall i :: 0 <= i < |rows| ==> cursor < rows[i].sequence
    ensures Naming(rows, target, cursor) == Naming(rows, target, after)
  {
    if rows != [] {
      NamingFrom(rows[1..], target, after, cursor);
    }
  }

  /** Pages of 256 until no cursor is left: the total counts every row naming the target once. */
  method CountDependencyWaitsForTarget(rows: seq<Wait>, target: ResourceID) returns (total: nat)
    requires RowsOrdered(rows)
    ensures total == |Naming(rows, target, 0)|
  {
    var cursor := 0;
    total := 0;
    while true
      invariant total + |Naming(rows, target, cursor)| == |Naming(rows, target, 0)|
      decreases |Naming(rows, target, cursor)|
    {
      var (waits, next) := Page(rows, target, cursor, 256);
      total := total + |waits|;
      NamingRows(rows, target, cursor);
      if next == 0 {
        return;
      }
      NamingContinues(rows, target, cursor, 255);
      cursor := next;
    }
  }
}

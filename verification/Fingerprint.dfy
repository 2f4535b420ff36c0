/** Command fingerprints: what is hashed for each command, and that equal fingerprints
    mean the same command. The digest is any function with 64-character results; the
    claims assume it does not collide on the texts at hand. */
module Fingerprint {
  import opened Basics
  import opened Domain
  import opened Framing
  import opened Provisioning
  import opened References

  type Digest = string -> string

  ghost predicate HexDigest(h: Digest) {
    forall s :: |h(s)| == 64
  }

  predicate NoCollision(h: Digest, p: string, q: string) {
    h(p) == h(q) ==> p == q
  }

  // ---------------------------------------------------------------- references

  function EdgeParts(edges: seq<Edge>): seq<string> {
    if edges == [] then [] else [edges[0].slot, edges[0].target] + EdgeParts(edges[1..])
  }

  function ReferenceVersion(): string { "refs-v1" }

  function ReferencesPreimage(edges: seq<Edge>): string {
    FrameHex([ReferenceVersion(), Numeral(|edges|, 10)] + EdgeParts(edges))
  }

  /** Canonical edges, before they are stamped with a generation. */
  predicate Unstamped(edges: seq<Edge>) {
    forall i :: 0 <= i < |edges| ==> edges[i].generation == 0
  }

  lemma {:induction false} EdgePartsAreInjective(a: seq<Edge>, b: seq<Edge>)
    requires Unstamped(a) && Unstamped(b) && EdgeParts(a) == EdgeParts(b)
    ensures a == b
  {
    if a != [] && b != [] {
      var p, q := EdgeParts(a), EdgeParts(b);
      assert p[0] == a[0].slot && p[1] == a[0].target && q[0] == b[0].slot && q[1] == b[0].target;
      assert EdgeParts(a[1..]) == p[2..] && EdgeParts(b[1..]) == q[2..];
      EdgePartsAreInjective(a[1..], b[1..]);
      assert a == [a[0]] + a[1..] && b == [b[0]] + b[1..];
    }
  }

  predicate EdgesShort(edges: seq<Edge>) {
    && Short(EdgeParts(edges))
    && |Numeral(|edges|, 10)| < MAX_FRAMED
    && Unstamped(edges)
  }

  lemma ReferencesPreimageIsInjective(a: seq<Edge>, b: seq<Edge>)
    requires EdgesShort(a) && EdgesShort(b) && ReferencesPreimage(a) == ReferencesPreimage(b)
    ensures a == b
  {
    hide FrameHex, Numeral;
    var p := [ReferenceVersion(), Numeral(|a|, 10)] + EdgeParts(a);
    var q := [ReferenceVersion(), Numeral(|b|, 10)] + EdgeParts(b);
    FrameHexIsInjective(p, q);
    assert EdgeParts(a) == p[2..] && EdgeParts(b) == q[2..];
    EdgePartsAreInjective(a, b);
  }

  /** Two accepted submissions are hashed alike exactly when they denote the same pairs. */
  lemma EqualPreimagesDenoteSamePairs(a: Submitted, b: Submitted, forA: seq<Edge>, forB: seq<Edge>)
    requires Accepted(a, forA) && Accepted(b, forB) && EdgesShort(forA) && EdgesShort(forB)
    ensures ReferencesPreimage(forA) == ReferencesPreimage(forB) <==> (forall s, t :: Denotes(a, s, t) <==> Denotes(b, s, t))
  {
    hide ReferencesPreimage, EdgesShort;
    SamePairsSameList(a, b, forA, forB);
    if ReferencesPreimage(forA) == ReferencesPreimage(forB) {
      ReferencesPreimageIsInjective(forA, forB);
    }
  }

  // ------------------------------------------------------------------- commands

  /** A command as submitted, its spec and references already canonical. */
  datatype Command =
    | CreateCommand(id: ResourceID, typeRef: TypeRef, owner: OwnerRef, spec: string, edges: seq<Edge>)
    | UpdateCommand(id: ResourceID, expectedGeneration: nat, spec: string, references: Option<seq<Edge>>)
    | DeleteCommand(id: ResourceID, expectedGeneration: nat)
    | RetryCommand(operationID: OperationID, expectedGeneration: nat)

  function CreateLabel(): string { "create" }
  function UpdateLabel(): string { "update" }
  function DeleteLabel(): string { "delete" }
  function RetryLabel(): string { "retry-operation-v1" }
  function AbsentReferences(): string { "absent" }

  lemma LabelsDiffer()
    ensures CreateLabel() != UpdateLabel() && CreateLabel() != DeleteLabel() && UpdateLabel() != DeleteLabel()
    ensures RetryLabel() != CreateLabel() && RetryLabel() != UpdateLabel() && RetryLabel() != DeleteLabel()
    ensures |AbsentReferences()| == 6
  {
    assert CreateLabel()[0] == 'c' && UpdateLabel()[0] == 'u' && DeleteLabel()[0] == 'd' && RetryLabel()[0] == 'r';
  }

  function ReferencePart(h: Digest, references: Option<seq<Edge>>): string {
    if references.None? then AbsentReferences() else h(ReferencesPreimage(references.value))
  }

  function Parts(h: Digest, c: Command): seq<string> {
    match c
    case CreateCommand(id, t, owner, spec, edges) =>
      [CreateLabel(), id, t.name, t.version, owner.kind, owner.id, spec, ReferencePart(h, Some(edges))]
    case UpdateCommand(id, generation, spec, references) =>
      [UpdateLabel(), id, Numeral(generation, 10), spec, ReferencePart(h, references)]
    case DeleteCommand(id, generation) => [DeleteLabel(), id, Numeral(generation, 10)]
    case RetryCommand(operationID, generation) => [RetryLabel(), operationID, Numeral(generation, 10)]
  }

  function CommandFingerprint(h: Digest, c: Command): string {
    h(FrameHex(Parts(h, c)))
  }

  method FingerprintHash(h: Digest, parts: seq<string>) returns (digest: string)
    ensures digest == h(FrameHex(parts))
  {
    var written := WriteFramed(parts);
    digest := h(written);
  }

  function SubmittedReferences(c: Command): Option<seq<Edge>> {
    match c
    case CreateCommand(_, _, _, _, edges) => Some(edges)
    case UpdateCommand(_, _, _, references) => references
    case _ => None
  }

  /** Every framed part is shorter than 2^32 bytes. */
  predicate Framable(h: Digest, c: Command) {
    && Short(Parts(h, c))
    && (SubmittedReferences(c).Some? ==> EdgesShort(SubmittedReferences(c).value))
  }

  lemma ReferencePartsDecide(h: Digest, a: Option<seq<Edge>>, b: Option<seq<Edge>>)
    requires HexDigest(h) && ReferencePart(h, a) == ReferencePart(h, b)
    requires a.Some? ==> EdgesShort(a.value)
    requires b.Some? ==> EdgesShort(b.value)
    requires a.Some? && b.Some? ==> NoCollision(h, ReferencesPreimage(a.value), ReferencesPreimage(b.value))
    ensures a == b
  {
    hide EdgesShort, ReferencesPreimage, AbsentReferences;
    LabelsDiffer();
    if a.Some? && b.Some? {
      ReferencesPreimageIsInjective(a.value, b.value);
    }
  }

  /** Commands with one fingerprint are one command: the same kind and every submitted
      part the same, absent references never passing for an explicit empty set. */
  lemma FingerprintIdentifiesCommand(h: Digest, a: Command, b: Command)
    requires HexDigest(h) && Framable(h, a) && Framable(h, b)
    requires NoCollision(h, FrameHex(Parts(h, a)), FrameHex(Parts(h, b)))
    requires SubmittedReferences(a).Some? && SubmittedReferences(b).Some? ==>
               NoCollision(h, ReferencesPreimage(SubmittedReferences(a).value), ReferencesPreimage(SubmittedReferences(b).value))
    requires CommandFingerprint(h, a) == CommandFingerprint(h, b)
    ensures a == b
  {
    hide FrameHex, Numeral, EdgesShort, ReferencesPreimage, ReferencePart,
         CreateLabel, UpdateLabel, DeleteLabel, RetryLabel, AbsentReferences, HexDigest;
    var p, q := Parts(h, a), Parts(h, b);
    FrameHexIsInjective(p, q);
    LabelsDiffer();
    assert p[0] == q[0] && |p| == |q|;
    match a
    case CreateCommand(_, _, _, _, _) =>
      assert forall i :: 0 <= i < 8 ==> p[i] == q[i];
      ReferencePartsDecide(h, SubmittedReferences(a), SubmittedReferences(b));
    case UpdateCommand(_, _, _, _) =>
      assert forall i :: 0 <= i < 5 ==> p[i] == q[i];
      NumeralIsInjective(a.expectedGeneration, b.expectedGeneration, 10);
      ReferencePartsDecide(h, SubmittedReferences(a), SubmittedReferences(b));
    case DeleteCommand(_, _) =>
      assert forall i :: 0 <= i < 3 ==> p[i] == q[i];
      NumeralIsInjective(a.expectedGeneration, b.expectedGeneration, 10);
    case RetryCommand(_, _) =>
      assert forall i :: 0 <= i < 3 ==> p[i] == q[i];
      NumeralIsInjective(a.expectedGeneration, b.expectedGeneration, 10);
  }

  // ------------------------------------------------------------- spec encoding

  function BigEndian(n: nat, width: nat): (bytes: seq<nat>)
    ensures |bytes| == width && forall i :: 0 <= i < width ==> bytes[i] < 256
  {
    if width == 0 then [] else BigEndian(n / 256, width - 1) + [n % 256]
  }

  /** Fills the buffer from its end with the low bytes of the value. */
  method PutUint(target: array<nat>, value: nat)
    modifies target
    ensures target[..] == BigEndian(value, target.Length)
  {
    var rest := value;
    var i := target.Length;
    while i > 0
      invariant 0 <= i <= target.Length
      invariant BigEndian(rest, i) + target[i..] == BigEndian(value, target.Length)
    {
      i := i - 1;
      ghost var tail := target[i + 1..];
      target[i] := rest % 256;
      assert target[i + 1..] == tail;
      assert target[i..] == [rest % 256] + tail;
      assert BigEndian(rest, i + 1) + tail == BigEndian(rest / 256, i) + ([rest % 256] + tail);
      rest := rest / 256;
    }
  }

  function Power256(width: nat): nat {
    if width == 0 then 1 else 256 * Power256(width - 1)
  }

  lemma {:induction false} BigEndianIsInjective(a: nat, b: nat, width: nat)
    requires a < Power256(width) && b < Power256(width) && BigEndian(a, width) == BigEndian(b, width)
    ensures a == b
  {
    if width > 0 {
      var s, t := BigEndian(a, width), BigEndian(b, width);
      assert s[width - 1] == a % 256 && t[width - 1] == b % 256;
      assert BigEndian(a / 256, width - 1) == s[..width - 1] == t[..width - 1] == BigEndian(b / 256, width - 1);
      BigEndianIsInjective(a / 256, b / 256, width - 1);
    }
  }

  function HexOf(bytes: seq<nat>): (s: string)
    requires forall i :: 0 <= i < |bytes| ==> bytes[i] < 256
    ensures |s| == 2 * |bytes|
  {
    if bytes == [] then "" else FixedHex(bytes[0], 2) + HexOf(bytes[1..])
  }

  lemma {:induction false} HexOfIsInjective(a: seq<nat>, b: seq<nat>)
    requires forall i :: 0 <= i < |a| ==> a[i] < 256
    requires forall i :: 0 <= i < |b| ==> b[i] < 256
    requires HexOf(a) == HexOf(b)
    ensures a == b
  {
    hide FixedHex;
    if a != [] && b != [] {
      var s := HexOf(a);
      assert s[..2] == FixedHex(a[0], 2) && s[..2] == FixedHex(b[0], 2);
      assert s[2..] == HexOf(a[1..]) && s[2..] == HexOf(b[1..]);
      assert Power16(2) == 256;
      FixedHexIsInjective(a[0], b[0], 2);
      HexOfIsInjective(a[1..], b[1..]);
      assert a == [a[0]] + a[1..] && b == [b[0]] + b[1..];
    }
  }

  /** A spec value; floats are their IEEE 754 bits, and anything else is unsupported. */
  datatype SpecValue =
    | SpecNull
    | SpecBool(flag: bool)
    | SpecText(text: string)
    | SpecInteger(kind: IntKind, number: int)
    | SpecFloat32(narrow: nat)
    | SpecFloat64(wide: nat)
    | SpecObject(members: map<string, SpecValue>)
    | SpecList(items: seq<SpecValue>)
    | SpecUnsupported(shape: string)

  datatype NodeKind = NodeNull | NodeBool | NodeText | NodeInteger(kind: IntKind) | NodeFloat32 | NodeFloat64 | NodeObject | NodeList

  datatype FingerprintNode = FingerprintNode(
    kind: NodeKind,
    scalar: Option<string>,
    members: map<string, FingerprintNode>,
    items: seq<FingerprintNode>)

  function Scalar(kind: NodeKind, text: string): FingerprintNode {
    FingerprintNode(kind, Some(text), map[], [])
  }

  function Signed(n: int): string {
    if n < 0 then "-" + Numeral(-n, 10) else Numeral(n, 10)
  }

  lemma SignedIsInjective(a: int, b: int)
    requires Signed(a) == Signed(b)
    ensures a == b
  {
    hide Numeral;
    if a < 0 && b < 0 {
      assert Numeral(-a, 10) == Signed(a)[1..] && Numeral(-b, 10) == Signed(b)[1..];
      NumeralIsInjective(-a, -b, 10);
    } else if a >= 0 && b >= 0 {
      NumeralIsInjective(a, b, 10);
    }
  }

  function FlagText(b: bool): string {
    if b then "true" else "false"
  }

  /** The canonical node of a value, or nothing when some part is unsupported. */
  function EncodeValue(v: SpecValue): Option<FingerprintNode>
    decreases v
  {
    match v
    case SpecNull => Some(FingerprintNode(NodeNull, None, map[], []))
    case SpecBool(b) => Some(Scalar(NodeBool, FlagText(b)))
    case SpecText(s) => Some(Scalar(NodeText, s))
    case SpecInteger(kind, n) => Some(Scalar(NodeInteger(kind), Signed(n)))
    case SpecFloat32(bits) => Some(Scalar(NodeFloat32, HexOf(BigEndian(bits, 4))))
    case SpecFloat64(bits) => Some(Scalar(NodeFloat64, HexOf(BigEndian(bits, 8))))
    case SpecObject(members) =>
      if forall k :: k in members ==> EncodeValue(members[k]).Some? then
        Some(FingerprintNode(NodeObject, None, map k | k in members :: EncodeValue(members[k]).value, []))
      else None
    case SpecList(items) =>
      if forall i :: 0 <= i < |items| ==> EncodeValue(items[i]).Some? then
        Some(FingerprintNode(NodeList, None, map[], seq(|items|, i requires 0 <= i < |items| => EncodeValue(items[i]).value)))
      else None
    case SpecUnsupported(_) => None
  }

  /** Nothing in the value is unsupported. */
  predicate Supported(v: SpecValue)
    decreases v
  {
    match v
    case SpecUnsupported(_) => false
    case SpecObject(members) => forall k :: k in members ==> Supported(members[k])
    case SpecList(items) => forall i :: 0 <= i < |items| ==> Supported(items[i])
    case _ => true
  }

  /** A value is encoded exactly when all of it is supported. */
  lemma {:induction false} EncodedExactly(v: SpecValue)
    ensures EncodeValue(v).Some? <==> Supported(v)
    decreases v
  {
    match v
    case SpecObject(members) =>
      forall k | k in members
        ensures EncodeValue(members[k]).Some? <==> Supported(members[k])
      {
        EncodedExactly(members[k]);
      }
    case SpecList(items) =>
      forall i | 0 <= i < |items|
        ensures EncodeValue(items[i]).Some? <==> Supported(items[i])
      {
        EncodedExactly(items[i]);
      }
    case _ =>
  }

  /** The number that bytes stand for, most significant first. */
  function BytesReading(bytes: seq<nat>): nat {
    if bytes == [] then 0 else BytesReading(bytes[..|bytes| - 1]) * 256 + bytes[|bytes| - 1]
  }

  lemma {:induction false} BigEndianReads(n: nat, width: nat)
    requires n < Power256(width)
    ensures BytesReading(BigEndian(n, width)) == n
  {
    if width > 0 {
      var s := BigEndian(n, width);
      BigEndianReads(n / 256, width - 1);
      assert s[..width - 1] == BigEndian(n / 256, width - 1);
    }
  }

  /** Float bits fit their width, all the way down. */
  predicate BitsFit(v: SpecValue)
    decreases v
  {
    match v
    case SpecFloat32(bits) => bits < Power256(4)
    case SpecFloat64(bits) => bits < Power256(8)
    case SpecObject(members) => forall k :: k in members ==> BitsFit(members[k])
    case SpecList(items) => forall i :: 0 <= i < |items| ==> BitsFit(items[i])
    case _ => true
  }

  /** Different values have different nodes: number widths, float bits, list order and
      member names all show. */
  lemma {:induction false} EncodingIsInjective(v: SpecValue, w: SpecValue)
    requires BitsFit(v) && BitsFit(w)
    requires EncodeValue(v).Some? && EncodeValue(v) == EncodeValue(w)
    ensures v == w
    decreases v
  {
    hide Signed, HexOf, BigEndian;
    match v
    case SpecNull =>
    case SpecBool(_) => assert |FlagText(true)| == 4 && |FlagText(false)| == 5;
    case SpecText(_) =>
    case SpecInteger(_, n) => SignedIsInjective(n, w.number);
    case SpecFloat32(bits) =>
      HexOfIsInjective(BigEndian(bits, 4), BigEndian(w.narrow, 4));
      BigEndianIsInjective(bits, w.narrow, 4);
    case SpecFloat64(bits) =>
      HexOfIsInjective(BigEndian(bits, 8), BigEndian(w.wide, 8));
      BigEndianIsInjective(bits, w.wide, 8);
    case SpecObject(members) =>
      var a, b := EncodeValue(v).value.members, EncodeValue(w).value.members;
      assert a.Keys == members.Keys && b.Keys == w.members.Keys;
      forall k | k in members
        ensures members[k] == w.members[k]
      {
        assert EncodeValue(members[k]).value == a[k] && EncodeValue(w.members[k]).value == b[k];
        EncodingIsInjective(members[k], w.members[k]);
      }
      assert members == w.members;
    case SpecList(items) =>
      var a, b := EncodeValue(v).value.items, EncodeValue(w).value.items;
      assert |a| == |items| && |b| == |w.items|;
      forall i | 0 <= i < |items|
        ensures items[i] == w.items[i]
      {
        assert EncodeValue(items[i]).value == a[i] && EncodeValue(w.items[i]).value == b[i];
        EncodingIsInjective(items[i], w.items[i]);
      }
      assert items == w.items;
    case SpecUnsupported(_) =>
  }
}

/** Every sequence of operator calls and worker activity. */
module OperatorRuns {
  import opened Basics
  import opened Domain
  import opened Operator
  import opened Provisioning
  import opened Recovery

  // -------------------------------------------------------------------- the machine

  datatype Happening =
    | Called(call: Call)
    | WorkerObserves(operationID: OperationID)
    | WorkerEnqueues(work: Work)
    | RowMoves(id: WorkID, state: WorkState)
    | ExecutionStarts(operationID: OperationID, summary: ExecutionSummary)
    | ExecutionMoves(operationID: OperationID, summary: ExecutionSummary, attempt: nat)
    | OperationMoves(operationID: OperationID, operation: OperationRow)
    | ResourceMoves(resourceID: ResourceID, resource: ResourceRow)

  /** Rows are leased, given back, completed or quarantined; a quarantined or completed
      row never moves again. */
  predicate RowMayMove(from: WorkState, to: WorkState) {
    match from
    case WorkPending => to.WorkLeased?
    case WorkLeased => to.WorkPending? || to.WorkCompleted? || to.WorkDead?
    case _ => false
  }

  function Next(d: Desk, h: Happening): Desk {
    match h
    case Called(q) => var r := Mutate(d, q); if r.Ok? then r.value.desk else d
    case WorkerObserves(oid) =>
      if oid !in d.executions then d
      else var r := ScheduleObserve(d, oid); if r.Ok? then r.value.0 else d
    case WorkerEnqueues(w) =>
      if !w.id.WorkerID? || w.id.kind != w.kind then d
      else var r := Enqueue(d, w); if r.Ok? then r.value else d
    case RowMoves(id, state) =>
      if id in d.work && RowMayMove(d.work[id].state, state) then d.(work := d.work[id := d.work[id].(state := state)]) else d
    case ExecutionStarts(oid, summary) =>
      if oid in d.executions then d else d.(executions := d.executions[oid := ExecutionRow(summary, 0, 1)])
    case ExecutionMoves(oid, summary, attempt) =>
      if oid !in d.executions then d
      else d.(executions := d.executions[oid := d.executions[oid].(summary := summary, currentAttempt := attempt)])
    case OperationMoves(oid, row) => d.(operations := d.operations[oid := row])
    case ResourceMoves(rid, row) => d.(resources := d.resources[rid := row])
  }

  function Play(d: Desk, hs: seq<Happening>): Desk
    decreases |hs|
  {
    if hs == [] then d else Play(Next(d, hs[0]), hs[1..])
  }

  const EMPTY := Desk(map[], map[], map[], map[], map[], map[], {})

  // ------------------------------------------------------------------ the invariant

  /** A row says what its identity says. */
  predicate RowNamed(id: WorkID, w: Work) {
    && w.id == id
    && match id
       case ObserveID(oid, sequence) => w.kind.Observe? && w.aggregate == OfOperation(oid) && w.sequence == sequence
       case OperatorID(_, kind) => w.kind == kind
       case WorkerID(kind, _) => w.kind == kind
  }

  predicate RowSound(d: Desk, id: WorkID) {
    && id in d.work && RowNamed(id, d.work[id])
    && (id.ObserveID? ==> id.operationID in d.executions && id.sequence < NextSequence(d.executions[id.operationID]))
    && (id.OperatorID? ==> id.actionID in d.actions)
  }

  /** One audit row: its work exists, was made for it, and is no dispatch. */
  predicate ActionSound(d: Desk, a: string) {
    && a in d.actions && d.actions[a].id == a
    && d.actions[a].created in d.made
    && (d.actions[a].target.RecoverWork? ==> d.actions[a].target.workID in d.work)
  }

  /** One bound key: its audit row is the one its request wrote. */
  predicate KeySound(d: Desk, k: ScopedKey) {
    && k in d.keys && d.keys[k].actionID in d.actions
    && d.actions[d.keys[k].actionID].target == d.keys[k].fingerprint
    && d.actions[d.keys[k].actionID].actor == k.scope
  }

  /** Audit rows, bound keys and rows made by operators correspond one to one. */
  ghost predicate OneToOne(d: Desk) {
    && (forall j, k :: j in d.keys && k in d.keys && d.keys[j].actionID == d.keys[k].actionID ==> j == k)
    && (forall a, b :: a in d.actions && b in d.actions && d.actions[a].created == d.actions[b].created ==> a == b)
    && (forall a :: a in d.actions ==> exists k :: k in d.keys && d.keys[k].actionID == a)
    && (forall w :: w in d.made ==> exists a :: a in d.actions && d.actions[a].created == w)
  }

  ghost predicate Sound(d: Desk) {
    && (forall id :: id in d.work ==> RowSound(d, id))
    && (forall a :: a in d.actions ==> ActionSound(d, a))
    && (forall k :: k in d.keys ==> KeySound(d, k))
    && (forall w :: w in d.made ==> w in d.work && !d.work[w].kind.Dispatch?)
    && OneToOne(d)
  }

  predicate BothActive(v: Work, w: Work) {
    IsActive(v) && IsActive(w) && v.kind == w.kind && v.aggregate == w.aggregate
  }

  /** At most one active row of each kind for each aggregate. */
  ghost predicate OneActive(d: Desk) {
    forall i, j :: i in d.work && j in d.work && BothActive(d.work[i], d.work[j]) ==> i == j
  }

  lemma EmptyIsSound()
    ensures Sound(EMPTY) && OneActive(EMPTY)
  {
  }

  // ---------------------------------------------------------------- fresh schedules

  /** What an admitted decision adds: one row under a new identity, never a dispatch, and
      for an observation the next number, which is thereby used up. */
  ghost predicate Scheduled(d: Desk, n: Desk, id: WorkID) {
    && id !in d.work && id in n.work && n.work == d.work[id := n.work[id]]
    && RowNamed(id, n.work[id]) && !n.work[id].kind.Dispatch? && n.work[id].state.WorkPending?
    && !HasActive(d, n.work[id].kind, n.work[id].aggregate)
    && n == d.(work := n.work, executions := n.executions)
    && if id.ObserveID? then
         && id.operationID in d.executions && id.sequence == NextSequence(d.executions[id.operationID])
         && n.executions == d.executions[id.operationID := d.executions[id.operationID].(nextObservation := id.sequence + 1)]
       else n.executions == d.executions
  }

  lemma ObserveIsFresh(d: Desk, oid: OperationID)
    requires Sound(d) && oid in d.executions && ScheduleObserve(d, oid).Ok?
    ensures Scheduled(d, ScheduleObserve(d, oid).value.0, ScheduleObserve(d, oid).value.1)
    ensures ScheduleObserve(d, oid).value.1 == ObserveID(oid, NextSequence(d.executions[oid]))
  {
    var id := ObserveID(oid, NextSequence(d.executions[oid]));
    assert id in d.work ==> RowSound(d, id);
  }

  lemma OwnIsFresh(d: Desk, actionID: string, kind: WorkKind, aggregate: Aggregate, sequence: nat)
    requires Sound(d) && actionID !in d.actions && !kind.Dispatch? && ScheduleOwn(d, actionID, kind, aggregate, sequence).Ok?
    ensures Scheduled(d, ScheduleOwn(d, actionID, kind, aggregate, sequence).value.0, OperatorID(actionID, kind))
    ensures ScheduleOwn(d, actionID, kind, aggregate, sequence).value.1 == OperatorID(actionID, kind)
  {
    var id := OperatorID(actionID, kind);
    assert id in d.work ==> RowSound(d, id);
  }

  lemma ApplyIsFresh(d: Desk, q: Call)
    requires Sound(d) && q.actionID !in d.actions && Apply(d, q).Ok?
    ensures Scheduled(d, Apply(d, q).value.0, Apply(d, q).value.1)
    ensures Apply(d, q).value.1.OperatorID? ==> Apply(d, q).value.1.actionID == q.actionID
    ensures q.target.RecoverWork? ==> q.target.workID in d.work
  {
    hide Sound, Scheduled, PlanOperationObserve, PlanResourcePassiveObserve, PlanDeadWorkRecovery, ScheduleObserve, ScheduleOwn, DeadSnapshot;
    match q.target
    case ObserveOperation(oid) => ObserveIsFresh(d, oid);
    case ObserveResource(rid) =>
      var version := d.resources[rid].version;
      OwnIsFresh(d, q.actionID, PassiveObserve, OfResource(rid), if version == 0 then 1 else version);
    case RecoverWork(wid) => ReplaceIsFresh(d, q, d.work[wid]);
  }

  lemma ReplaceIsFresh(d: Desk, q: Call, w: Work)
    requires Sound(d) && q.actionID !in d.actions && Replace(d, q, w).Ok?
    ensures Scheduled(d, Replace(d, q, w).value.0, Replace(d, q, w).value.1)
    ensures Replace(d, q, w).value.1.OperatorID? ==> Replace(d, q, w).value.1.actionID == q.actionID
  {
    hide Sound, Scheduled, ScheduleObserve, ScheduleOwn;
    match w.kind
    case Dispatch | Observe => ObserveIsFresh(d, w.aggregate.operationID);
    case PassiveObserve =>
      var version := d.resources[w.aggregate.resourceID].version;
      OwnIsFresh(d, q.actionID, PassiveObserve, w.aggregate, if version == 0 then 1 else version);
    case Drive => OwnIsFresh(d, q.actionID, Drive, w.aggregate, 0);
    case WakeDependents => OwnIsFresh(d, q.actionID, WakeDependents, w.aggregate, 0);
  }

  predicate SameAudits(d: Desk, n: Desk) {
    n.actions == d.actions && n.keys == d.keys && n.made == d.made
  }

  lemma ObserveKeepsAudit(d: Desk, oid: OperationID)
    requires oid in d.executions && ScheduleObserve(d, oid).Ok?
    ensures SameAudits(d, ScheduleObserve(d, oid).value.0)
  {
    hide HasActive;
  }

  lemma OwnKeepsAudit(d: Desk, actionID: string, kind: WorkKind, aggregate: Aggregate, sequence: nat)
    requires ScheduleOwn(d, actionID, kind, aggregate, sequence).Ok?
    ensures SameAudits(d, ScheduleOwn(d, actionID, kind, aggregate, sequence).value.0)
  {
    hide HasActive;
  }

  lemma ReplaceKeepsAudit(d: Desk, q: Call, w: Work)
    requires Replace(d, q, w).Ok?
    ensures SameAudits(d, Replace(d, q, w).value.0)
  {
    hide ScheduleObserve, ScheduleOwn, SameAudits;
    match w.kind
    case Dispatch | Observe => ObserveKeepsAudit(d, w.aggregate.operationID);
    case PassiveObserve =>
      var version := d.resources[w.aggregate.resourceID].version;
      OwnKeepsAudit(d, q.actionID, PassiveObserve, w.aggregate, if version == 0 then 1 else version);
    case Drive => OwnKeepsAudit(d, q.actionID, Drive, w.aggregate, 0);
    case WakeDependents => OwnKeepsAudit(d, q.actionID, WakeDependents, w.aggregate, 0);
  }

  lemma ApplyKeepsAudit(d: Desk, q: Call)
    requires Apply(d, q).Ok?
    ensures SameAudits(d, Apply(d, q).value.0)
  {
    hide PlanOperationObserve, PlanResourcePassiveObserve, PlanDeadWorkRecovery, DeadSnapshot, HasActive, ScheduleObserve, ScheduleOwn,
         SameAudits, Replace;
    match q.target
    case ObserveOperation(oid) => ObserveKeepsAudit(d, oid);
    case ObserveResource(rid) =>
      var version := d.resources[rid].version;
      OwnKeepsAudit(d, q.actionID, PassiveObserve, OfResource(rid), if version == 0 then 1 else version);
    case RecoverWork(wid) => ReplaceKeepsAudit(d, q, d.work[wid]);
  }

  /** An admitted call that is not a replay. */
  ghost predicate Admits(d: Desk, q: Call) {
    Mutate(d, q).Ok? && !Mutate(d, q).value.replay
  }

  /** It adds exactly one audit row, one bound key and one row of work, all naming each
      other, and moves nothing but the observation number it takes. */
  lemma AdmittedCallAdds(d: Desk, q: Call)
    requires Sound(d) && Admits(d, q)
    ensures var a := Mutate(d, q).value;
            var k := ScopedKey(q.actor, q.key);
            var m := a.desk.(actions := d.actions, keys := d.keys, made := d.made);
            && Scheduled(d, m, a.created)
            && a.actionID == q.actionID && q.actionID !in d.actions && k !in d.keys
            && a.desk == m.(actions := d.actions[q.actionID := Action(q.actionID, q.actor, q.target, q.requestID, a.created)],
                            keys := d.keys[k := BoundKey(q.target, q.actionID)],
                            made := d.made + {a.created})
            && (a.created.OperatorID? ==> a.created.actionID == q.actionID)
            && (q.target.RecoverWork? ==> q.target.workID in d.work)
  {
    hide Sound, Apply, Scheduled;
    ApplyKeepsAudit(d, q);
    ApplyIsFresh(d, q);
    var done := Apply(d, q).value;
    ScheduledIsNew(d, done.0, done.1);
    assert Mutate(d, q).value.desk.(actions := d.actions, keys := d.keys, made := d.made) == done.0;
  }

  lemma ScheduledIsNew(d: Desk, n: Desk, id: WorkID)
    requires Scheduled(d, n, id)
    ensures id !in d.work && id in n.work
  {
  }

  /** A replay answers with the recorded identities and changes nothing; a key bound to
      another request is a conflict. */
  lemma BoundKeyAnswers(d: Desk, q: Call)
    requires Sound(d) && CallComplete(q) && q.authorized && ScopedKey(q.actor, q.key) in d.keys
    ensures var b := d.keys[ScopedKey(q.actor, q.key)];
            Mutate(d, q) == if b.fingerprint != q.target then Err(KeyConflict)
                            else Ok(Accepted(d, b.actionID, d.actions[b.actionID].created, true))
  {
    hide OneToOne;
    var k := ScopedKey(q.actor, q.key);
    assert KeySound(d, k);
    assert ActionSound(d, d.keys[k].actionID);
  }

  // ------------------------------------------------------------- steps keep soundness

  lemma ScheduledKeepsRows(d: Desk, n: Desk, id: WorkID, other: WorkID)
    requires RowSound(d, other) && Scheduled(d, n, id)
    ensures RowSound(n, other)
  {
  }

  lemma ScheduledKeepsSound(d: Desk, n: Desk, id: WorkID)
    requires Sound(d) && Scheduled(d, n, id) && id.ObserveID?
    ensures Sound(n)
  {
    hide RowSound, OneToOne;
    forall other | other in n.work
      ensures RowSound(n, other)
    {
      if other != id {
        ScheduledKeepsRows(d, n, id, other);
      } else {
        NewRowIsSound(d, n, id);
      }
    }
    assert OneToOne(n) by { SameAudit(d, n); }
  }

  lemma NewRowIsSound(d: Desk, n: Desk, id: WorkID)
    requires Scheduled(d, n, id) && (id.OperatorID? ==> id.actionID in n.actions)
    ensures RowSound(n, id)
  {
  }

  lemma SameAudit(d: Desk, n: Desk)
    requires OneToOne(d) && n.actions == d.actions && n.keys == d.keys && n.made == d.made
    ensures OneToOne(n)
  {
  }

  lemma CallKeepsSound(d: Desk, q: Call)
    requires Sound(d) && Admits(d, q)
    ensures Sound(Mutate(d, q).value.desk)
  {
    hide Mutate, RowSound, OneToOne, Scheduled;
    AdmittedCallAdds(d, q);
    var a := Mutate(d, q).value;
    var n := a.desk;
    var m := n.(actions := d.actions, keys := d.keys, made := d.made);
    ScheduledIsNew(d, m, a.created);
    ScheduledKinds(d, m, a.created);
    forall id | id in n.work
      ensures RowSound(n, id)
    {
      if id != a.created {
        ScheduledKeepsRows(d, m, a.created, id);
        MoreActions(m, n, id);
      } else {
        CreatedRowSound(d, m, n, a.created);
      }
    }
    NewIdentities(d, q.actionID, a.created);
    OneMoreEach(d, n, ScopedKey(q.actor, q.key), q.actionID, a.created);
    CallKeepsRest(d, n, q, m, a.created);
  }

  lemma ScheduledKinds(d: Desk, n: Desk, id: WorkID)
    requires Scheduled(d, n, id)
    ensures !n.work[id].kind.Dispatch? && forall other :: other in d.work ==> other in n.work && n.work[other] == d.work[other]
    ensures forall other :: other in n.work && other != id ==> other in d.work
  {
  }

  lemma MoreActions(m: Desk, n: Desk, id: WorkID)
    requires RowSound(m, id) && n.work == m.work && n.executions == m.executions && forall a :: a in m.actions ==> a in n.actions
    ensures RowSound(n, id)
  {
  }

  lemma CreatedRowSound(d: Desk, m: Desk, n: Desk, id: WorkID)
    requires Scheduled(d, m, id) && n.work == m.work && n.executions == m.executions
    requires id.OperatorID? ==> id.actionID in n.actions
    ensures RowSound(n, id)
  {
  }

  lemma OneMoreEach(d: Desk, n: Desk, k: ScopedKey, a: string, w: WorkID)
    requires OneToOne(d) && k !in d.keys && a !in d.actions
    requires forall b :: b in d.actions ==> d.actions[b].created != w
    requires forall j :: j in d.keys ==> d.keys[j].actionID != a
    requires a in n.actions && n.actions == d.actions[a := n.actions[a]] && n.actions[a].created == w
    requires k in n.keys && n.keys == d.keys[k := n.keys[k]] && n.keys[k].actionID == a
    requires n.made == d.made + {w}
    ensures OneToOne(n)
  {
    forall b | b in n.actions
      ensures exists j :: j in n.keys && n.keys[j].actionID == b
    {
      KeyOfAction(d, n, k, a, b);
    }
    forall v | v in n.made
      ensures exists b :: b in n.actions && n.actions[b].created == v
    {
      ActionOfWork(d, n, a, w, v);
    }
  }

  lemma KeyOfAction(d: Desk, n: Desk, k: ScopedKey, a: string, b: string)
    requires b != a ==> exists j :: j in d.keys && d.keys[j].actionID == b
    requires k !in d.keys && k in n.keys && n.keys == d.keys[k := n.keys[k]] && n.keys[k].actionID == a
    ensures exists j :: j in n.keys && n.keys[j].actionID == b
  {
    if b != a {
      var j :| j in d.keys && d.keys[j].actionID == b;
      assert j in n.keys && n.keys[j].actionID == b;
    }
  }

  lemma ActionOfWork(d: Desk, n: Desk, a: string, w: WorkID, v: WorkID)
    requires v != w ==> exists b :: b in d.actions && d.actions[b].created == v
    requires a !in d.actions && a in n.actions && n.actions == d.actions[a := n.actions[a]] && n.actions[a].created == w
    ensures exists b :: b in n.actions && n.actions[b].created == v
  {
    if v != w {
      var b :| b in d.actions && d.actions[b].created == v;
      assert b in n.actions && n.actions[b].created == v;
    }
  }

  /** What a new identity is apart from. */
  lemma NewIdentities(d: Desk, a: string, w: WorkID)
    requires Sound(d) && a !in d.actions && w !in d.work
    ensures forall b :: b in d.actions ==> d.actions[b].created != w
    ensures forall j :: j in d.keys ==> d.keys[j].actionID != a
  {
    hide RowSound, OneToOne;
    forall b | b in d.actions
      ensures d.actions[b].created != w
    {
      assert ActionSound(d, b);
    }
    forall j | j in d.keys
      ensures d.keys[j].actionID != a
    {
      assert KeySound(d, j);
    }
  }

  lemma CallKeepsRest(d: Desk, n: Desk, q: Call, m: Desk, created: WorkID)
    requires Sound(d) && Scheduled(d, m, created) && q.actionID !in d.actions
    requires n == m.(actions := d.actions[q.actionID := Action(q.actionID, q.actor, q.target, q.requestID, created)],
                     keys := d.keys[ScopedKey(q.actor, q.key) := BoundKey(q.target, q.actionID)],
                     made := d.made + {created})
    requires q.target.RecoverWork? ==> q.target.workID in d.work
    ensures forall a :: a in n.actions ==> ActionSound(n, a)
    ensures forall k :: k in n.keys ==> KeySound(n, k)
    ensures forall w :: w in n.made ==> w in n.work && !n.work[w].kind.Dispatch?
  {
    hide RowSound, OneToOne, Scheduled;
    ScheduledIsNew(d, m, created);
    ScheduledKinds(d, m, created);
    forall a | a in n.actions
      ensures ActionSound(n, a)
    {
      assert a in d.actions ==> ActionSound(d, a);
    }
    forall k | k in n.keys
      ensures KeySound(n, k)
    {
      assert k in d.keys ==> KeySound(d, k);
    }
  }

  lemma WorkerKeepsRow(d: Desk, h: Happening, id: WorkID)
    requires !h.Called? && !h.WorkerObserves? && (id in d.work ==> RowSound(d, id)) && id in Next(d, h).work
    ensures RowSound(Next(d, h), id)
  {
    hide HasActive;
  }

  lemma WorkerKeepsAudit(d: Desk, h: Happening)
    requires !h.Called? && !h.WorkerObserves?
    ensures SameAudits(d, Next(d, h))
    ensures forall w :: w in d.work ==> w in Next(d, h).work && Next(d, h).work[w].kind == d.work[w].kind
  {
    hide HasActive;
  }

  lemma WorkerKeepsSound(d: Desk, h: Happening)
    requires Sound(d) && !h.Called? && !h.WorkerObserves?
    ensures Sound(Next(d, h))
  {
    hide OneToOne, RowSound, Next;
    var n := Next(d, h);
    WorkerKeepsAudit(d, h);
    SameAudit(d, n);
    forall id | id in n.work
      ensures RowSound(n, id)
    {
      WorkerKeepsRow(d, h, id);
    }
    forall a | a in n.actions
      ensures ActionSound(n, a)
    {
      assert ActionSound(d, a);
    }
    forall k | k in n.keys
      ensures KeySound(n, k)
    {
      assert KeySound(d, k);
    }
  }

  lemma StepKeepsSound(d: Desk, h: Happening)
    requires Sound(d)
    ensures Sound(Next(d, h))
  {
    hide Sound, Mutate, ScheduleObserve;
    match h
    case Called(q) =>
      if Admits(d, q) {
        CallKeepsSound(d, q);
      } else if Mutate(d, q).Ok? {
        ReplayKeepsDesk(d, q);
      }
    case WorkerObserves(oid) =>
      if oid in d.executions && ScheduleObserve(d, oid).Ok? {
        ObserveIsFresh(d, oid);
        ScheduledKeepsSound(d, ScheduleObserve(d, oid).value.0, ScheduleObserve(d, oid).value.1);
      }
    case _ => WorkerKeepsSound(d, h);
  }

  lemma ReplayKeepsDesk(d: Desk, q: Call)
    requires Mutate(d, q).Ok? && Mutate(d, q).value.replay
    ensures Mutate(d, q).value.desk == d
  {
    hide Apply;
  }

  /** Over any run, audit rows, bound keys and rows made by operators stay in one-to-one
      correspondence, and none of those rows is a dispatch. */
  lemma {:induction false} RunKeepsSound(d: Desk, hs: seq<Happening>)
    requires Sound(d)
    ensures Sound(Play(d, hs))
    decreases |hs|
  {
    hide Sound, Next;
    if hs != [] {
      StepKeepsSound(d, hs[0]);
      RunKeepsSound(Next(d, hs[0]), hs[1..]);
    }
  }

  // -------------------------------------------------------------- counting together

  /** Every admitted call adds one of each, so the three counts move together. */
  lemma StepMovesCountsTogether(d: Desk, h: Happening)
    requires Sound(d)
    ensures var n := Next(d, h);
            var one := if h.Called? && Admits(d, h.call) then 1 else 0;
            |n.actions| == |d.actions| + one && |n.keys| == |d.keys| + one && |n.made| == |d.made| + one
  {
    hide Sound, Mutate, ScheduleObserve, Scheduled;
    match h
    case Called(q) =>
      if Admits(d, q) {
        AdmittedCallAdds(d, q);
        var a := Mutate(d, q).value;
        MadeIsNew(d, a.created, a.desk.(actions := d.actions, keys := d.keys, made := d.made));
      } else if Mutate(d, q).Ok? {
        ReplayKeepsDesk(d, q);
      }
    case WorkerObserves(oid) =>
      if oid in d.executions && ScheduleObserve(d, oid).Ok? {
        ObserveKeepsAudit(d, oid);
      }
    case _ => WorkerKeepsAudit(d, h);
  }

  lemma MadeIsNew(d: Desk, w: WorkID, n: Desk)
    requires Sound(d) && Scheduled(d, n, w)
    ensures w !in d.made
  {
    hide RowSound, OneToOne;
  }

  function CountAdmitted(d: Desk, hs: seq<Happening>): nat
    decreases |hs|
  {
    if hs == [] then 0
    else (if hs[0].Called? && Mutate(d, hs[0].call).Ok? && !Mutate(d, hs[0].call).value.replay then 1 else 0)
         + CountAdmitted(Next(d, hs[0]), hs[1..])
  }

  lemma {:induction false} RunMovesCountsTogether(d: Desk, hs: seq<Happening>)
    requires Sound(d)
    ensures var n := Play(d, hs);
            var more := CountAdmitted(d, hs);
            |n.actions| == |d.actions| + more && |n.keys| == |d.keys| + more && |n.made| == |d.made| + more
    decreases |hs|
  {
    hide Sound, Next, Mutate;
    if hs != [] {
      StepMovesCountsTogether(d, hs[0]);
      StepKeepsSound(d, hs[0]);
      RunMovesCountsTogether(Next(d, hs[0]), hs[1..]);
    }
  }

  /** An operation's observation number only grows, strictly when a call creates an
      observation. */
  lemma ObservationNumbersGrow(d: Desk, h: Happening, oid: OperationID)
    requires Sound(d) && oid in d.executions
    ensures var n := Next(d, h);
            && oid in n.executions && d.executions[oid].nextObservation <= n.executions[oid].nextObservation
            && (h.Called? && Admits(d, h.call) && Mutate(d, h.call).value.created.ObserveID?
                && Mutate(d, h.call).value.created.operationID == oid ==>
                  d.executions[oid].nextObservation < n.executions[oid].nextObservation
                  && Mutate(d, h.call).value.created.sequence + 1 == n.executions[oid].nextObservation)
  {
    hide Sound, Mutate, HasActive;
    match h
    case Called(q) =>
      if Admits(d, q) {
        AdmittedCallAdds(d, q);
      } else if Mutate(d, q).Ok? {
        ReplayKeepsDesk(d, q);
      }
    case _ =>
  }

  // ------------------------------------------------------------- recovered only once

  /** The execution has moved past the observation a row was for. */
  predicate Spent(d: Desk, id: WorkID) {
    && id in d.work && d.work[id].kind.Observe?
    && (d.work[id].aggregate.OfOperation? ==>
          && d.work[id].aggregate.operationID in d.executions
          && d.work[id].sequence + 1 < d.executions[d.work[id].aggregate.operationID].nextObservation)
  }

  /** A row of an observation never recovers once it is spent. */
  lemma SpentIsNotRecovered(d: Desk, q: Call)
    requires q.target.RecoverWork? && Spent(d, q.target.workID)
    ensures !Admits(d, q)
  {
    hide HasActive, ScheduleObserve, ScheduleOwn, PlanDeadWorkRecovery, Replace;
    if Apply(d, q).Ok? {
      var w := d.work[q.target.workID];
      RecoveryAllowedExactly(DeadSnapshot(d, w, q.registered).value);
    }
  }

  lemma RecoverySpends(d: Desk, q: Call)
    requires Sound(d) && Admits(d, q) && q.target.RecoverWork?
    requires q.target.workID in d.work && d.work[q.target.workID].kind.Observe?
    ensures Spent(Mutate(d, q).value.desk, q.target.workID)
  {
    hide Sound, Scheduled, HasActive, Mutate;
    AdmittedCallAdds(d, q);
    RecoveredObservation(d, q);
    ScheduledObserves(d, q);
  }

  lemma RecoveredObservation(d: Desk, q: Call)
    requires Sound(d) && Admits(d, q) && q.target.RecoverWork? && q.target.workID in d.work && d.work[q.target.workID].kind.Observe?
    ensures var w := d.work[q.target.workID];
            && w.aggregate.OfOperation? && w.aggregate.operationID in d.executions
            && w.sequence + 1 == d.executions[w.aggregate.operationID].nextObservation
            && Mutate(d, q).value.created == ObserveID(w.aggregate.operationID, NextSequence(d.executions[w.aggregate.operationID]))
  {
    hide Sound, HasActive, PlanDeadWorkRecovery;
    var w := d.work[q.target.workID];
    RecoveryAllowedExactly(DeadSnapshot(d, w, q.registered).value);
  }

  lemma ScheduledObserves(d: Desk, q: Call)
    requires Sound(d) && Admits(d, q) && Mutate(d, q).value.created.ObserveID?
    ensures var a := Mutate(d, q).value;
            var oid := a.created.operationID;
            && oid in d.executions
            && a.desk.executions == d.executions[oid := d.executions[oid].(nextObservation := a.created.sequence + 1)]
            && (forall id :: id in d.work ==> id in a.desk.work && a.desk.work[id] == d.work[id])
  {
    hide Sound, HasActive, Mutate;
    AdmittedCallAdds(d, q);
  }

  lemma StepKeepsSpent(d: Desk, h: Happening, id: WorkID)
    requires Sound(d) && Spent(d, id)
    ensures Spent(Next(d, h), id)
  {
    hide Sound, Next;
    if d.work[id].aggregate.OfOperation? {
      ObservationNumbersGrow(d, h, d.work[id].aggregate.operationID);
    }
    RowsKeepTheirWork(d, h, id);
  }

  lemma RowsKeepTheirWork(d: Desk, h: Happening, id: WorkID)
    requires Sound(d) && id in d.work
    ensures id in Next(d, h).work && Next(d, h).work[id] == d.work[id].(state := Next(d, h).work[id].state)
  {
    hide Sound, Mutate, HasActive;
    match h
    case Called(q) =>
      if Admits(d, q) {
        AdmittedCallAdds(d, q);
      } else if Mutate(d, q).Ok? {
        ReplayKeepsDesk(d, q);
      }
    case _ =>
  }

  /** How often a run recovers one row. */
  function CountRecoveries(d: Desk, hs: seq<Happening>, id: WorkID): nat
    decreases |hs|
  {
    if hs == [] then 0
    else (if hs[0].Called? && hs[0].call.target == RecoverWork(id) && Mutate(d, hs[0].call).Ok? && !Mutate(d, hs[0].call).value.replay then 1 else 0)
         + CountRecoveries(Next(d, hs[0]), hs[1..], id)
  }

  lemma {:induction false} SpentStaysUnrecovered(d: Desk, hs: seq<Happening>, id: WorkID)
    requires Sound(d) && Spent(d, id)
    ensures CountRecoveries(d, hs, id) == 0
    decreases |hs|
  {
    hide Sound, Spent, Next, Mutate;
    if hs != [] {
      if hs[0].Called? && hs[0].call.target == RecoverWork(id) {
        SpentIsNotRecovered(d, hs[0].call);
      }
      StepKeepsSpent(d, hs[0], id);
      StepKeepsSound(d, hs[0]);
      SpentStaysUnrecovered(Next(d, hs[0]), hs[1..], id);
    }
  }

  /** Over any run a quarantined observation is recovered at most once. */
  lemma {:induction false} ObservationsRecoverOnce(d: Desk, hs: seq<Happening>, id: WorkID)
    requires Sound(d) && id in d.work && d.work[id].kind.Observe?
    ensures CountRecoveries(d, hs, id) <= 1
    decreases |hs|
  {
    hide Sound, Spent, Next, Mutate;
    if hs != [] {
      StepKeepsSound(d, hs[0]);
      RowsKeepTheirWork(d, hs[0], id);
      if hs[0].Called? && hs[0].call.target == RecoverWork(id) && Admits(d, hs[0].call) {
        RecoverySpends(d, hs[0].call);
        NextOfAdmitted(d, hs[0].call);
        SpentStaysUnrecovered(Next(d, hs[0]), hs[1..], id);
      } else {
        ObservationsRecoverOnce(Next(d, hs[0]), hs[1..], id);
      }
    }
  }

  lemma NextOfAdmitted(d: Desk, q: Call)
    requires Admits(d, q)
    ensures Next(d, Called(q)) == Mutate(d, q).value.desk
  {
    hide Mutate;
  }

  // ----------------------------------------------------------------- one active row

  lemma AddingKeepsOneActive(d: Desk, n: Desk, w: Work)
    requires OneActive(d) && w.id !in d.work && n.work == d.work[w.id := w] && !HasActive(d, w.kind, w.aggregate)
    ensures OneActive(n)
  {
  }

  lemma MovingKeepsOneActive(d: Desk, n: Desk, id: WorkID, state: WorkState)
    requires OneActive(d) && id in d.work && RowMayMove(d.work[id].state, state)
    requires n.work == d.work[id := d.work[id].(state := state)]
    ensures OneActive(n)
  {
  }

  lemma SameWorkKeepsOneActive(d: Desk, n: Desk)
    requires OneActive(d) && n.work == d.work
    ensures OneActive(n)
  {
  }

  lemma ScheduledAdds(d: Desk, n: Desk, id: WorkID)
    requires Scheduled(d, n, id)
    ensures id !in d.work && id in n.work && n.work[id].id == id && n.work == d.work[id := n.work[id]]
    ensures !HasActive(d, n.work[id].kind, n.work[id].aggregate)
  {
    hide HasActive;
  }

  lemma StepKeepsOneActive(d: Desk, h: Happening)
    requires Sound(d) && OneActive(d)
    ensures OneActive(Next(d, h))
  {
    hide Sound, OneActive, HasActive, Mutate, Scheduled, ScheduleObserve;
    match h
    case Called(q) =>
      if Admits(d, q) {
        AdmittedCallAdds(d, q);
        var a := Mutate(d, q).value;
        var m := a.desk.(actions := d.actions, keys := d.keys, made := d.made);
        ScheduledAdds(d, m, a.created);
        AddingKeepsOneActive(d, m, m.work[a.created]);
        SameWorkKeepsOneActive(m, a.desk);
      } else if Mutate(d, q).Ok? {
        ReplayKeepsDesk(d, q);
      }
    case WorkerObserves(oid) =>
      if oid in d.executions && ScheduleObserve(d, oid).Ok? {
        ObserveIsFresh(d, oid);
        var n, id := ScheduleObserve(d, oid).value.0, ScheduleObserve(d, oid).value.1;
        ScheduledAdds(d, n, id);
        AddingKeepsOneActive(d, n, n.work[id]);
      }
    case WorkerEnqueues(w) =>
      if w.id !in d.work && !HasActive(d, w.kind, w.aggregate) {
        AddingKeepsOneActive(d, d.(work := d.work[w.id := w]), w);
      }
    case RowMoves(id, state) =>
      if id in d.work && RowMayMove(d.work[id].state, state) {
        MovingKeepsOneActive(d, Next(d, h), id, state);
      }
    case _ => SameWorkKeepsOneActive(d, Next(d, h));
  }

  /** Over any run each aggregate has at most one active row of each kind, whoever made it. */
  lemma {:induction false} RunKeepsOneActive(d: Desk, hs: seq<Happening>)
    requires Sound(d) && OneActive(d)
    ensures OneActive(Play(d, hs))
    decreases |hs|
  {
    hide Sound, OneActive, Next;
    if hs != [] {
      StepKeepsSound(d, hs[0]);
      StepKeepsOneActive(d, hs[0]);
      RunKeepsOneActive(Next(d, hs[0]), hs[1..]);
    }
  }
}

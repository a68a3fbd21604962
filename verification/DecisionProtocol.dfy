/**
 Any number of workers on one table. A step is one request to the table, one evaluation, or the
 death of a worker; steps of different workers interleave freely.
 */
module DecisionProtocol {
  import opened Text
  import opened Decision
  import opened Repository
  import opened Service

  /** Where a decision worker stands. */
  datatype Pc =
    | Ready
    | Missing
    | Proposing(response: Response, audit: Audit)
    | Held(response: Response)
    | Rereading
    | Done(answer: Answer)
    | Dead

  /** Where a worker that records a trade event stands. */
  datatype Stage = Waiting | Rechecking | Settled(saved: Saved) | Crashed

  datatype Worker =
    | Decider(requestId: string, bodyHash: string, pc: Pc)
    | Recorder(sourceId: string, event: Event, bodyHash: string, stage: Stage)

  datatype State = State(table: Table, workers: seq<Worker>)

  /**
   `PutRetried` and `RecordRetried` are writes that may have been applied but are reported as
   failing their condition, because the client library repeated a request whose reply was lost.
   */
  datatype Step =
    | Arrive(worker: Worker)
    | Fetch(w: nat)
    | Think(w: nat, world: World, candidateId: string)
    | Put(w: nat)
    | PutRetried(w: nat)
    | Return(w: nat)
    | Reread(w: nat)
    | Die(w: nat)
    | Record(w: nat)
    | RecordRetried(w: nat)
    | Recheck(w: nat)
    | Claim(keyId: string, nonce: string, ttl: int)
    | Expire(key: Key)

  const NOBODY := State(map[], [])

  function AnswerFor(row: (string, Response), bodyHash: string): Answer {
    if row.0 != bodyHash then IdempotencyConflict else Answered(row.1)
  }

  function ItemOf(bodyHash: string, response: Response, audit: Audit): Item {
    DecisionItem(bodyHash, response, response.expiresAt + 86_400, audit)
  }

  /** The table after a conditional write. */
  function Inserted(table: Table, key: Key, item: Item): Table {
    if key in table then table else table[key := item]
  }

  predicate HasHash(item: Item, bodyHash: string) {
    !item.NonceItem? && item.bodyHash == bodyHash
  }

  ghost predicate IsDecider(s: State, w: nat) {
    w < |s.workers| && s.workers[w].Decider?
  }

  ghost predicate IsRecorder(s: State, w: nat) {
    w < |s.workers| && s.workers[w].Recorder?
  }

  function Moved(s: State, w: nat, table: Table, pc: Pc): State
    requires w < |s.workers| && s.workers[w].Decider?
  {
    State(table, s.workers[w := s.workers[w].(pc := pc)])
  }

  function Staged(s: State, w: nat, table: Table, stage: Stage): State
    requires w < |s.workers| && s.workers[w].Recorder?
  {
    State(table, s.workers[w := s.workers[w].(stage := stage)])
  }

  /** The steps of a decision worker. */
  ghost predicate DeciderNext(config: Config, s: State, step: Step, t: State)
    requires Typed(s.table)
  {
    match step
    case Fetch(w) =>
      && IsDecider(s, w) && s.workers[w].pc == Ready
      && var row := StoredDecision(s.table, s.workers[w].requestId);
         t == Moved(s, w, s.table, if row.Some? then Done(AnswerFor(row.value, s.workers[w].bodyHash)) else Missing)
    case Think(w, world, candidateId) =>
      && IsDecider(s, w) && s.workers[w].pc == Missing
      && var r := Evaluate(config, s.workers[w].requestId, world);
         t == Moved(s, w, s.table, Proposing(r, AuditOf(config, candidateId, r.llm)))
    case Put(w) =>
      && IsDecider(s, w) && s.workers[w].pc.Proposing?
      && var me := s.workers[w];
         var key := DecisionKey(me.requestId);
         t == Moved(s, w, Inserted(s.table, key, ItemOf(me.bodyHash, me.pc.response, me.pc.audit)),
                    if key in s.table then Rereading else Held(me.pc.response))
    case PutRetried(w) =>
      && IsDecider(s, w) && s.workers[w].pc.Proposing?
      && var me := s.workers[w];
         t == Moved(s, w, Inserted(s.table, DecisionKey(me.requestId),
           ItemOf(me.bodyHash, me.pc.response, me.pc.audit)), Rereading)
    case Return(w) =>
      && IsDecider(s, w) && s.workers[w].pc.Held?
      && t == Moved(s, w, s.table, Done(Answered(s.workers[w].pc.response)))
    case Reread(w) =>
      && IsDecider(s, w) && s.workers[w].pc == Rereading
      && var row := StoredDecision(s.table, s.workers[w].requestId);
         t == Moved(s, w, s.table,
           Done(if row.Some? then AnswerFor(row.value, s.workers[w].bodyHash) else IdempotencyConflict))
    case _ => false
  }

  /** The steps of a worker that records an event. */
  ghost predicate RecorderNext(s: State, step: Step, t: State) {
    match step
    case Record(w) =>
      && IsRecorder(s, w) && s.workers[w].stage == Waiting
      && var me := s.workers[w];
         var key := EventKey(me.sourceId, me.event);
         t == Staged(s, w, Inserted(s.table, key, EventItem(me.bodyHash, me.sourceId, me.event)),
                     if key in s.table then Rechecking else Settled(Created))
    case RecordRetried(w) =>
      && IsRecorder(s, w) && s.workers[w].stage == Waiting
      && var me := s.workers[w];
         var key := EventKey(me.sourceId, me.event);
         t == Staged(s, w, Inserted(s.table, key, EventItem(me.bodyHash, me.sourceId, me.event)),
           Rechecking)
    case Recheck(w) =>
      && IsRecorder(s, w) && s.workers[w].stage == Rechecking
      && var me := s.workers[w];
         var key := EventKey(me.sourceId, me.event);
         t == Staged(s, w, s.table,
           Settled(if key in s.table && HasHash(s.table[key], me.bodyHash) then Duplicate else Conflict))
    case _ => false
  }

  ghost predicate Next(config: Config, s: State, step: Step, t: State)
    requires Typed(s.table)
  {
    match step
    case Arrive(worker) =>
      && IsNew(worker)
      && t == s.(workers := s.workers + [worker])
    case Die(w) =>
      || (IsDecider(s, w) && !s.workers[w].pc.Done? && t == Moved(s, w, s.table, Dead))
      || (IsRecorder(s, w) && !s.workers[w].stage.Settled? && t == Staged(s, w, s.table, Crashed))
    case Claim(keyId, nonce, ttl) =>
      t == s.(table := Inserted(s.table, NonceKey(keyId, nonce), NonceItem(ttl)))
    case Expire(key) =>
      // Only items with the table's time-to-live attribute are ever deleted.
      && key in s.table && s.table[key].NonceItem?
      && t == s.(table := s.table - {key})
    case Record(_) => RecorderNext(s, step, t)
    case RecordRetried(_) => RecorderNext(s, step, t)
    case Recheck(_) => RecorderNext(s, step, t)
    case _ => DeciderNext(config, s, step, t)
  }

  // ---------- the table ----------

  /** Decisions and events, once written, stay as they are. */
  ghost predicate Keeps(a: Table, b: Table) {
    forall key :: key in a && !a[key].NonceItem? ==> key in b && b[key] == a[key]
  }

  lemma InsertedIsTyped(table: Table, key: Key, item: Item)
    requires Typed(table) && Fits(key, item)
    ensures Typed(Inserted(table, key, item)) && Keeps(table, Inserted(table, key, item))
  {
    hide Fits;
  }

  lemma StepKeeps(config: Config, s: State, step: Step, t: State)
    requires Typed(s.table) && Next(config, s, step, t)
    ensures Typed(t.table) && Keeps(s.table, t.table)
  {
    hide Evaluate, AuditOf, Inserted, DecisionKey, EventKey, NonceKey, StoredDecision;
    match step {
      case Put(w) => PutFits(s.table, s.workers[w]);
      case PutRetried(w) => PutFits(s.table, s.workers[w]);
      case Record(w) => RecordFits(s.table, s.workers[w]);
      case RecordRetried(w) => RecordFits(s.table, s.workers[w]);
      case Claim(keyId, nonce, ttl) =>
        Kinds("", "", Event("", "", ""), keyId, nonce);
        InsertedIsTyped(s.table, NonceKey(keyId, nonce), NonceItem(ttl));
      case _ =>
    }
  }

  lemma PutFits(table: Table, me: Worker)
    requires Typed(table) && me.Decider? && me.pc.Proposing?
    ensures var after := Inserted(table, DecisionKey(me.requestId), ItemOf(me.bodyHash, me.pc.response, me.pc.audit));
      Typed(after) && Keeps(table, after)
  {
    Kinds(me.requestId, "", Event("", "", ""), "", "");
    hide DecisionKey;
    InsertedIsTyped(table, DecisionKey(me.requestId), ItemOf(me.bodyHash, me.pc.response, me.pc.audit));
  }

  lemma RecordFits(table: Table, me: Worker)
    requires Typed(table) && me.Recorder?
    ensures var key := EventKey(me.sourceId, me.event);
      var after := Inserted(table, key, EventItem(me.bodyHash, me.sourceId, me.event));
      Typed(after) && Keeps(table, after)
  {
    Kinds("", me.sourceId, me.event, "", "");
    hide EventKey;
    InsertedIsTyped(table, EventKey(me.sourceId, me.event), EventItem(me.bodyHash, me.sourceId, me.event));
  }

  // ---------- what a worker knows ----------

  /** The row of a request is the one a worker holds or has answered with, or refused because of. */
  ghost predicate DeciderKnows(table: Table, me: Worker)
    requires Typed(table) && me.Decider?
  {
    var row := StoredDecision(table, me.requestId);
    match me.pc
    case Held(response) => row == Some((me.bodyHash, response))
    case Rereading => row.Some?
    case Done(Answered(response)) => row == Some((me.bodyHash, response))
    case Done(IdempotencyConflict) => row.Some? && row.value.0 != me.bodyHash
    case _ => true
  }

  ghost predicate RecorderKnows(table: Table, me: Worker)
    requires me.Recorder?
  {
    var key := EventKey(me.sourceId, me.event);
    match me.stage
    case Rechecking => key in table && table[key].EventItem?
    case Settled(Created) => key in table && table[key] == EventItem(me.bodyHash, me.sourceId, me.event)
    case Settled(Duplicate) => key in table && table[key].EventItem? && table[key].bodyHash == me.bodyHash
    case Settled(Conflict) => key in table && table[key].EventItem? && table[key].bodyHash != me.bodyHash
    case _ => true
  }

  ghost predicate Knows(table: Table, me: Worker)
    requires Typed(table)
  {
    if me.Decider? then DeciderKnows(table, me) else RecorderKnows(table, me)
  }

  /** No two workers have created the same event. */
  ghost predicate CreatedOnce(workers: seq<Worker>) {
    forall i, j :: 0 <= i < j < |workers| && Creator(workers[i]) && Creator(workers[j]) ==>
      EventKey(workers[i].sourceId, workers[i].event) != EventKey(workers[j].sourceId, workers[j].event)
  }

  predicate Creator(me: Worker) {
    me.Recorder? && me.stage == Settled(Created)
  }

  ghost predicate Inv(s: State) {
    && Typed(s.table)
    && (forall w :: 0 <= w < |s.workers| ==> Knows(s.table, s.workers[w]))
    && CreatedOnce(s.workers)
  }

  lemma KnowledgeStays(a: Table, b: Table, me: Worker)
    requires Typed(a) && Typed(b) && Keeps(a, b) && Knows(a, me)
    ensures Knows(b, me)
  {
    if me.Decider? {
      Kinds(me.requestId, "", Event("", "", ""), "", "");
      assert DecisionKey(me.requestId) in a ==> Fits(DecisionKey(me.requestId), a[DecisionKey(me.requestId)]);
    }
    hide DecisionKey, EventKey, KindOf;
  }

  /** A worker's step leaves that worker knowing what its new place claims. */
  lemma DeciderLearns(config: Config, s: State, step: Step, t: State, w: nat)
    requires Inv(s) && Next(config, s, step, t) && Typed(t.table) && Keeps(s.table, t.table)
    requires IsDecider(s, w) && IsDecider(t, w) && t.workers[w] != s.workers[w]
    ensures Knows(t.table, t.workers[w])
  {
    var me := s.workers[w];
    assert Knows(s.table, me);
    Kinds(me.requestId, "", Event("", "", ""), "", "");
    assert DecisionKey(me.requestId) in s.table ==> Fits(DecisionKey(me.requestId), s.table[DecisionKey(me.requestId)]);
    hide DecisionKey, EventKey, NonceKey, Evaluate, AuditOf, KindOf, Keeps, CreatedOnce;
  }

  lemma RecorderLearns(config: Config, s: State, step: Step, t: State, w: nat)
    requires Inv(s) && Next(config, s, step, t) && Typed(t.table) && Keeps(s.table, t.table)
    requires IsRecorder(s, w) && IsRecorder(t, w) && t.workers[w] != s.workers[w]
    ensures Knows(t.table, t.workers[w])
    ensures Creator(t.workers[w]) ==> EventKey(s.workers[w].sourceId, s.workers[w].event) !in s.table
  {
    var me := s.workers[w];
    assert Knows(s.table, me);
    Kinds("", me.sourceId, me.event, "", "");
    var key := EventKey(me.sourceId, me.event);
    assert key in s.table ==> Fits(key, s.table[key]);
    hide DecisionKey, EventKey, NonceKey, Evaluate, AuditOf, KindOf, Keeps, CreatedOnce;
  }

  /** The same request or event, at another place. */
  predicate SameJob(a: Worker, b: Worker) {
    match (a, b)
    case (Decider(id, hash, _), Decider(id', hash', _)) => id == id' && hash == hash'
    case (Recorder(source, event, hash, _), Recorder(source', event', hash', _)) =>
      source == source' && event == event' && hash == hash'
    case _ => false
  }

  predicate IsNew(me: Worker) {
    if me.Decider? then me.pc == Ready else me.stage == Waiting
  }

  /** Workers never leave; a step moves at most one of them and never changes its job. */
  ghost predicate OneMoves(s: State, t: State) {
    && |s.workers| <= |t.workers|
    && (forall w :: 0 <= w < |s.workers| ==> SameJob(s.workers[w], t.workers[w]))
    && (forall i, j :: 0 <= i < j < |s.workers| ==> t.workers[i] == s.workers[i] || t.workers[j] == s.workers[j])
    && (forall w :: |s.workers| <= w < |t.workers| ==> IsNew(t.workers[w]))
  }

  lemma StepMovesOne(config: Config, s: State, step: Step, t: State)
    requires Typed(s.table) && Next(config, s, step, t)
    ensures OneMoves(s, t)
  {
    hide Evaluate, AuditOf, Inserted, DecisionKey, EventKey, NonceKey, StoredDecision, Typed;
  }

  lemma StepKnows(config: Config, s: State, step: Step, t: State, w: nat)
    requires Inv(s) && Next(config, s, step, t) && Typed(t.table) && Keeps(s.table, t.table) && OneMoves(s, t)
      && w < |t.workers|
    ensures Knows(t.table, t.workers[w])
    ensures w < |s.workers| && Creator(t.workers[w]) && !Creator(s.workers[w]) ==>
      EventKey(t.workers[w].sourceId, t.workers[w].event) !in s.table
    ensures |s.workers| <= w ==> !Creator(t.workers[w])
  {
    if w < |s.workers| {
      assert SameJob(s.workers[w], t.workers[w]) && Knows(s.table, s.workers[w]);
      hide Next, Keeps, EventKey, DecisionKey, Knows, Typed, CreatedOnce;
      if t.workers[w] == s.workers[w] {
        KnowledgeStays(s.table, t.table, t.workers[w]);
      } else if s.workers[w].Decider? {
        DeciderLearns(config, s, step, t, w);
      } else {
        RecorderLearns(config, s, step, t, w);
      }
    }
  }

  lemma CreatorHasKey(s: State, w: nat)
    requires Inv(s) && w < |s.workers| && Creator(s.workers[w])
    ensures EventKey(s.workers[w].sourceId, s.workers[w].event) in s.table
  {
    assert Knows(s.table, s.workers[w]);
    hide EventKey, CreatedOnce, Typed;
  }

  lemma StepInv(config: Config, s: State, step: Step, t: State)
    requires Inv(s) && Next(config, s, step, t)
    ensures Inv(t) && Keeps(s.table, t.table)
  {
    StepKeeps(config, s, step, t);
    StepMovesOne(config, s, step, t);
    hide Next, Keeps, EventKey, Knows, Typed;
    forall w | 0 <= w < |t.workers|
      ensures Knows(t.table, t.workers[w])
    {
      StepKnows(config, s, step, t, w);
    }
    forall i, j | 0 <= i < j < |t.workers| && Creator(t.workers[i]) && Creator(t.workers[j])
      ensures EventKey(t.workers[i].sourceId, t.workers[i].event) != EventKey(t.workers[j].sourceId, t.workers[j].event)
    {
      StepKnows(config, s, step, t, i);
      StepKnows(config, s, step, t, j);
      assert SameJob(s.workers[i], t.workers[i]) && SameJob(s.workers[j], t.workers[j]);
      if Creator(s.workers[i]) {
        CreatorHasKey(s, i);
      }
      if Creator(s.workers[j]) {
        CreatorHasKey(s, j);
      }
    }
  }

  // ---------- runs ----------

  ghost predicate IsRun(config: Config, run: seq<State>, steps: seq<Step>) {
    && |run| == |steps| + 1
    && run[0] == NOBODY
    && forall i :: 0 <= i < |steps| ==> Typed(run[i].table) && Next(config, run[i], steps[i], run[i + 1])
  }

  lemma {:induction false} RunInv(config: Config, run: seq<State>, steps: seq<Step>, n: nat)
    requires IsRun(config, run, steps) && n < |run|
    ensures Inv(run[n])
  {
    hide Next, Typed, Knows;
    if n > 0 {
      RunInv(config, run, steps, n - 1);
      assert Next(config, run[n - 1], steps[n - 1], run[n - 1 + 1]);
      StepInv(config, run[n - 1], steps[n - 1], run[n]);
    } else {
      EmptyTable();
    }
  }

  lemma EmptyTable()
    ensures Typed(map[])
  {}

  lemma RunStep(config: Config, run: seq<State>, steps: seq<Step>, n: nat)
    requires IsRun(config, run, steps) && 0 < n < |run|
    ensures n - 1 < |steps| && Typed(run[n - 1].table) && Next(config, run[n - 1], steps[n - 1], run[n])
  {
    hide Next, Typed;
    assert Typed(run[n - 1].table) && Next(config, run[n - 1], steps[n - 1], run[n - 1 + 1]);
  }

  /** The stored decision of a request never changes and never goes away; neither does an event. */
  lemma {:induction false} RowsNeverChange(config: Config, run: seq<State>, steps: seq<Step>, i: nat, j: nat)
    requires IsRun(config, run, steps) && i <= j < |run|
    ensures Keeps(run[i].table, run[j].table)
    decreases j - i
  {
    hide *;
    if i < j {
      RowsNeverChange(config, run, steps, i, j - 1);
      StepKeepsRows(config, run, steps, j);
      KeepsTransitive(run[i].table, run[j - 1].table, run[j].table);
    } else {
      KeepsItself(run[i].table);
    }
  }

  lemma KeepsItself(a: Table)
    ensures Keeps(a, a)
  {}

  lemma StepKeepsRows(config: Config, run: seq<State>, steps: seq<Step>, n: nat)
    requires IsRun(config, run, steps) && 0 < n < |run|
    ensures Keeps(run[n - 1].table, run[n].table)
  {
    hide *;
    RunInv(config, run, steps, n - 1);
    RunStep(config, run, steps, n);
    StepInv(config, run[n - 1], steps[n - 1], run[n]);
  }

  lemma KeepsTransitive(a: Table, b: Table, c: Table)
    requires Keeps(a, b) && Keeps(b, c)
    ensures Keeps(a, c)
  {}

  ghost predicate Answers(s: State, w: nat, requestId: string, answer: Answer) {
    w < |s.workers| && s.workers[w].Decider? && s.workers[w].requestId == requestId && s.workers[w].pc == Done(answer)
  }

  /** An answer is the stored row, then and at any later time; a refusal means that the row is for another body. */
  lemma AnswerIsTheRow(config: Config, run: seq<State>, steps: seq<Step>, i: nat, w: nat, requestId: string,
          answer: Answer, j: nat)
    requires IsRun(config, run, steps) && i <= j < |run| && Answers(run[i], w, requestId, answer)
    ensures Typed(run[j].table)
    ensures var row := StoredDecision(run[j].table, requestId);
      row.Some? && answer == AnswerFor(row.value, run[i].workers[w].bodyHash)
  {
    RunInv(config, run, steps, i);
    RunInv(config, run, steps, j);
    RowsNeverChange(config, run, steps, i, j);
    assert Knows(run[i].table, run[i].workers[w]);
    KnowledgeStays(run[i].table, run[j].table, run[i].workers[w]);
    hide Typed, Keeps, DecisionKey, CreatedOnce;
  }

  /** All answers to one request id, at any times and to any workers, are one response to one body. */
  lemma AnswersAgree(config: Config, run: seq<State>, steps: seq<Step>, i: nat, v: nat, j: nat, w: nat,
          requestId: string, a: Response, b: Response)
    requires IsRun(config, run, steps) && i < |run| && j < |run|
    requires Answers(run[i], v, requestId, Answered(a)) && Answers(run[j], w, requestId, Answered(b))
    ensures a == b && run[i].workers[v].bodyHash == run[j].workers[w].bodyHash
  {
    var k := if i <= j then j else i;
    AnswerIsTheRow(config, run, steps, i, v, requestId, Answered(a), k);
    AnswerIsTheRow(config, run, steps, j, w, requestId, Answered(b), k);
    hide IsRun, Typed, StoredDecision;
  }

  /** Both workers record the event of one source with one time and one id. */
  ghost predicate SameEvent(a: Worker, b: Worker)
    requires a.Recorder? && b.Recorder?
  {
    a.sourceId == b.sourceId && a.event.timestamp == b.event.timestamp && a.event.eventId == b.event.eventId
  }

  /**
   An event is created at most once; it is reported as a duplicate only for the same body, and as a conflict
   only for another.
   */
  lemma EventsAreCreatedOnce(config: Config, run: seq<State>, steps: seq<Step>, n: nat, v: nat, w: nat)
    requires IsRun(config, run, steps) && n < |run| && IsRecorder(run[n], v) && IsRecorder(run[n], w) && v != w
    requires SameEvent(run[n].workers[v], run[n].workers[w])
    ensures !(run[n].workers[v].stage == Settled(Created) && run[n].workers[w].stage == Settled(Created))
    ensures run[n].workers[v].stage == Settled(Created) && run[n].workers[w].stage == Settled(Duplicate) ==>
      run[n].workers[v].bodyHash == run[n].workers[w].bodyHash
    ensures run[n].workers[v].stage == Settled(Created) && run[n].workers[w].stage == Settled(Conflict) ==>
      run[n].workers[v].bodyHash != run[n].workers[w].bodyHash
  {
    RunInv(config, run, steps, n);
    var a, b := run[n].workers[v], run[n].workers[w];
    EventKeyIsInjective(a.sourceId, a.event, b.sourceId, b.event);
    assert Knows(run[n].table, a) && Knows(run[n].table, b);
    hide IsRun, Typed, EventKey;
  }

  /** Step `k` is an attempt to record this event with this body. */
  ghost predicate RecordingAt(run: seq<State>, steps: seq<Step>, k: nat, sourceId: string, timestamp: string,
          eventId: EventId, bodyHash: string) {
    && k < |steps| && k < |run|
    && (steps[k].Record? || steps[k].RecordRetried?)
    && IsRecorder(run[k], steps[k].w)
    && var me := run[k].workers[steps[k].w];
       me.sourceId == sourceId && me.event.timestamp == timestamp && me.event.eventId == eventId
       && me.bodyHash == bodyHash
  }

  /** A step that adds a record of an event is an attempt to record it. */
  lemma RecordsComeFromRecorders(config: Config, s: State, step: Step, t: State, key: Key)
    requires Inv(s) && Next(config, s, step, t) && key in t.table && t.table[key].EventItem?
    ensures
      || (key in s.table && s.table[key] == t.table[key])
      || ((step.Record? || step.RecordRetried?) && IsRecorder(s, step.w)
          && t.table[key] == EventItem(s.workers[step.w].bodyHash, s.workers[step.w].sourceId, s.workers[step.w].event))
  {
    hide Evaluate, AuditOf, Typed, Knows, CreatedOnce, EventKey, NonceKey, DecisionKey, StoredDecision;
  }

  /** Every recorded event was recorded by a step of the run, with the body recorded. */
  lemma {:induction false} RecordsHaveSteps(config: Config, run: seq<State>, steps: seq<Step>, n: nat, key: Key)
    returns (k: nat)
    requires IsRun(config, run, steps) && n < |run| && key in run[n].table && run[n].table[key].EventItem?
    ensures var item := run[n].table[key];
      k < n && RecordingAt(run, steps, k, item.sourceId, item.event.timestamp, item.event.eventId, item.bodyHash)
  {
    hide Next, Inv, Typed;
    assert n > 0;
    RunInv(config, run, steps, n - 1);
    RunStep(config, run, steps, n);
    RecordsComeFromRecorders(config, run[n - 1], steps[n - 1], run[n], key);
    if key in run[n - 1].table && run[n - 1].table[key] == run[n].table[key] {
      k := RecordsHaveSteps(config, run, steps, n - 1, key);
    } else {
      k := n - 1;
    }
  }

  /** The first attempt to record an event creates it. */
  lemma FirstRecordingCreates(config: Config, run: seq<State>, steps: seq<Step>, n: nat)
    requires IsRun(config, run, steps) && n < |steps| && steps[n].Record? && IsRecorder(run[n], steps[n].w)
    requires var me := run[n].workers[steps[n].w];
      forall k, hash :: 0 <= k < n ==>
        !RecordingAt(run, steps, k, me.sourceId, me.event.timestamp, me.event.eventId, hash)
    ensures var me := run[n].workers[steps[n].w];
      && !Recorded(run[n].table, me.sourceId, me.event.timestamp, me.event.eventId)
      && IsRecorder(run[n + 1], steps[n].w)
      && run[n + 1].workers[steps[n].w].stage == Settled(Created)
      && RecordedWith(run[n + 1].table, me.sourceId, me.event.timestamp, me.event.eventId, me.bodyHash)
  {
    var me := run[n].workers[steps[n].w];
    RunInv(config, run, steps, n);
    RunInv(config, run, steps, n + 1);
    RunStep(config, run, steps, n + 1);
    hide RecordingAt, IsRun, Inv;
    if Recorded(run[n].table, me.sourceId, me.event.timestamp, me.event.eventId) {
      var key :| key in run[n].table
        && IsRecordOf(run[n].table[key], me.sourceId, me.event.timestamp, me.event.eventId);
      var k := RecordsHaveSteps(config, run, steps, n, key);
      assert false;
    }
    RecordedIsKeyed(run[n].table, me.sourceId, me.event, me.bodyHash);
    assert Typed(run[n + 1].table) by {
      hide *;
      InvIsTyped(run[n + 1]);
    }
    RecordedIsKeyed(run[n + 1].table, me.sourceId, me.event, me.bodyHash);
    hide EventKey, Typed, Recorded, RecordedWith;
  }

  lemma InvIsTyped(s: State)
    requires Inv(s)
    ensures Typed(s.table)
  {}

  /**
   An event is reported as a duplicate only if some attempt of the run recorded it with the same
   body, and as a conflict only if one recorded it with another.
   */
  lemma SettledForACause(config: Config, run: seq<State>, steps: seq<Step>, n: nat, w: nat)
    returns (k: nat, hash: string)
    requires IsRun(config, run, steps) && n < |run| && IsRecorder(run[n], w) && run[n].workers[w].stage.Settled?
    ensures var me := run[n].workers[w];
      && k < n && RecordingAt(run, steps, k, me.sourceId, me.event.timestamp, me.event.eventId, hash)
      && RecordedWith(run[n].table, me.sourceId, me.event.timestamp, me.event.eventId, hash)
      && (hash == me.bodyHash <==> me.stage != Settled(Conflict))
  {
    var me := run[n].workers[w];
    var key := EventKey(me.sourceId, me.event);
    RunInv(config, run, steps, n);
    assert Knows(run[n].table, me);
    hash := run[n].table[key].bodyHash;
    k := RecordsHaveSteps(config, run, steps, n, key);
    RecordedIsKeyed(run[n].table, me.sourceId, me.event, hash);
    RecordIsAt(run[n].table, key);
    EventKeyIsInjective(me.sourceId, me.event, run[n].table[key].sourceId, run[n].table[key].event);
    hide IsRun, EventKey, Typed, CreatedOnce, Recorded, RecordedWith;
  }

  // ---------- where responses come from ----------

  /** Step `k` is the evaluation of this request, with this body. */
  ghost predicate EvaluatedAt(run: seq<State>, steps: seq<Step>, k: nat, requestId: string, bodyHash: string) {
    && k < |steps| && k < |run| && steps[k].Think? && IsDecider(run[k], steps[k].w)
    && run[k].workers[steps[k].w].requestId == requestId && run[k].workers[steps[k].w].bodyHash == bodyHash
  }

  /** Step `k` evaluated this request to this item. */
  ghost predicate ThoughtAt(config: Config, run: seq<State>, steps: seq<Step>, k: nat, requestId: string, item: Item) {
    && item.DecisionItem?
    && EvaluatedAt(run, steps, k, requestId, item.bodyHash)
    && item == EvaluatedItem(config, requestId, item.bodyHash, steps[k].world, steps[k].candidateId)
  }

  function EvaluatedItem(config: Config, requestId: string, bodyHash: string, world: World, candidateId: string): Item {
    var r := Evaluate(config, requestId, world);
    ItemOf(bodyHash, r, AuditOf(config, candidateId, r.llm))
  }

  ghost predicate Thought(config: Config, run: seq<State>, steps: seq<Step>, n: nat, requestId: string, item: Item) {
    exists k :: 0 <= k < n && ThoughtAt(config, run, steps, k, requestId, item)
  }

  /** What a worker is about to submit. */
  function Proposal(me: Worker): Option<Response> {
    if me.Decider? && me.pc.Proposing? then Some(me.pc.response) else None
  }

  /** The item that a worker is about to write. */
  function ProposedItem(me: Worker): Item
    requires Proposal(me).Some?
  {
    ItemOf(me.bodyHash, me.pc.response, me.pc.audit)
  }

  /** What worker `w` proposes was evaluated. */
  ghost predicate ThoughtOf(config: Config, run: seq<State>, steps: seq<Step>, n: nat, w: nat)
    requires n < |run| && w < |run[n].workers| && Proposal(run[n].workers[w]).Some?
  {
    var me := run[n].workers[w];
    Thought(config, run, steps, n, me.requestId, ProposedItem(me))
  }

  /** What is stored for a request was evaluated. */
  ghost predicate RowThought(config: Config, run: seq<State>, steps: seq<Step>, n: nat, id: string)
    requires n < |run|
  {
    DecisionKey(id) in run[n].table ==> Thought(config, run, steps, n, id, run[n].table[DecisionKey(id)])
  }

  ghost predicate WorkersThought(config: Config, run: seq<State>, steps: seq<Step>, n: nat)
    requires n < |run|
  {
    forall w :: 0 <= w < |run[n].workers| && Proposal(run[n].workers[w]).Some? ==> ThoughtOf(config, run, steps, n, w)
  }

  ghost predicate RowsThought(config: Config, run: seq<State>, steps: seq<Step>, n: nat)
    requires n < |run|
  {
    forall id :: RowThought(config, run, steps, n, id)
  }

  /** A row that a step adds is the proposal of the worker that moved. */
  lemma RowsComeFromProposals(config: Config, s: State, step: Step, t: State, id: string)
    requires Inv(s) && Next(config, s, step, t) && DecisionKey(id) in t.table
    ensures var key := DecisionKey(id);
      || (key in s.table && s.table[key] == t.table[key])
      || exists w :: 0 <= w < |s.workers| && Proposal(s.workers[w]).Some? && s.workers[w].requestId == id
                     && ProposedItem(s.workers[w]) == t.table[key]
  {
    hide Evaluate, AuditOf, Typed, Knows, CreatedOnce, EventKey, NonceKey, DecisionKey, ItemOf;
    match step {
      case Put(w) => DecisionKeyIsInjective(id, s.workers[w].requestId);
      case PutRetried(w) => DecisionKeyIsInjective(id, s.workers[w].requestId);
      case Record(w) => Kinds(id, s.workers[w].sourceId, s.workers[w].event, "", "");
      case RecordRetried(w) => Kinds(id, s.workers[w].sourceId, s.workers[w].event, "", "");
      case Claim(keyId, nonce, _) => Kinds(id, "", Event("", "", ""), keyId, nonce);
      case _ =>
    }
  }

  lemma ProposalsComeFromThinking(config: Config, s: State, step: Step, t: State, w: nat)
    requires Typed(s.table) && Next(config, s, step, t) && w < |t.workers| && Proposal(t.workers[w]).Some?
    ensures w < |s.workers| && SameJob(s.workers[w], t.workers[w])
    ensures var me := t.workers[w];
      || (Proposal(s.workers[w]).Some? && ProposedItem(s.workers[w]) == ProposedItem(me))
      || (step.Think? && step.w == w
          && ProposedItem(me) == EvaluatedItem(config, me.requestId, me.bodyHash, step.world, step.candidateId))
  {
    hide ItemOf, Evaluate, AuditOf, Inserted, DecisionKey, EventKey, NonceKey, StoredDecision, Typed;
  }

  lemma {:induction false} RunThinks(config: Config, run: seq<State>, steps: seq<Step>, n: nat)
    requires IsRun(config, run, steps) && n < |run|
    ensures Typed(run[n].table) && WorkersThought(config, run, steps, n) && RowsThought(config, run, steps, n)
  {
    RunInv(config, run, steps, n);
    if n == 0 {
      NothingThought(config, run, steps);
    } else {
      hide *;
      RunThinks(config, run, steps, n - 1);
      WorkersThink(config, run, steps, n);
      RowsThink(config, run, steps, n);
    }
  }

  lemma NothingThought(config: Config, run: seq<State>, steps: seq<Step>)
    requires |run| > 0 && run[0] == NOBODY
    ensures Typed(run[0].table) && WorkersThought(config, run, steps, 0) && RowsThought(config, run, steps, 0)
  {
    hide Thought;
  }

  lemma WorkersThink(config: Config, run: seq<State>, steps: seq<Step>, n: nat)
    requires IsRun(config, run, steps) && 0 < n < |run| && WorkersThought(config, run, steps, n - 1)
    ensures WorkersThought(config, run, steps, n)
  {
    hide IsRun, ThoughtOf, Proposal;
    forall w | 0 <= w < |run[n].workers| && Proposal(run[n].workers[w]).Some?
      ensures ThoughtOf(config, run, steps, n, w)
    {
      ProposalIsThought(config, run, steps, n, w);
    }
  }

  lemma RowsThink(config: Config, run: seq<State>, steps: seq<Step>, n: nat)
    requires IsRun(config, run, steps) && 0 < n < |run| && Typed(run[n].table) && Typed(run[n - 1].table)
    requires WorkersThought(config, run, steps, n - 1) && RowsThought(config, run, steps, n - 1)
    ensures RowsThought(config, run, steps, n)
  {
    RunInv(config, run, steps, n - 1);
    RunStep(config, run, steps, n);
    hide IsRun, Next, Inv, Typed, RowThought, WorkersThought;
    forall id
      ensures RowThought(config, run, steps, n, id)
    {
      RowIsThought(config, run, steps, n, id);
    }
  }

  lemma RowIsThought(config: Config, run: seq<State>, steps: seq<Step>, n: nat, id: string)
    requires 0 < n < |run| && n - 1 < |steps| && Inv(run[n - 1])
      && Next(config, run[n - 1], steps[n - 1], run[n])
    requires WorkersThought(config, run, steps, n - 1) && RowThought(config, run, steps, n - 1, id)
    ensures RowThought(config, run, steps, n, id)
  {
    var s, t := run[n - 1], run[n];
    var key := DecisionKey(id);
    if key in t.table {
      RowsComeFromProposals(config, s, steps[n - 1], t, id);
      hide Next, ThoughtAt, Knows, CreatedOnce, Typed, DecisionKey, ItemOf;
      if !(key in s.table && s.table[key] == t.table[key]) {
        var w :| 0 <= w < |s.workers| && Proposal(s.workers[w]).Some? && s.workers[w].requestId == id
          && ProposedItem(s.workers[w]) == t.table[key];
        assert ThoughtOf(config, run, steps, n - 1, w);
      }
      ThoughtLater(config, run, steps, n - 1, n, id, t.table[key]);
    }
  }

  lemma ThoughtLater(config: Config, run: seq<State>, steps: seq<Step>, m: nat, n: nat, requestId: string, item: Item)
    requires m <= n && Thought(config, run, steps, m, requestId, item)
    ensures Thought(config, run, steps, n, requestId, item)
  {
    hide ThoughtAt;
  }

  lemma ProposalIsThought(config: Config, run: seq<State>, steps: seq<Step>, n: nat, w: nat)
    requires 0 < n < |run| && IsRun(config, run, steps) && WorkersThought(config, run, steps, n - 1)
    requires w < |run[n].workers| && Proposal(run[n].workers[w]).Some?
    ensures ThoughtOf(config, run, steps, n, w)
  {
    var me := run[n].workers[w];
    assert Next(config, run[n - 1], steps[n - 1], run[n - 1 + 1]);
    ProposalsComeFromThinking(config, run[n - 1], steps[n - 1], run[n], w);
    hide ItemOf, EvaluatedItem;
    var before := run[n - 1].workers[w];
    if Proposal(before).Some? && ProposedItem(before) == ProposedItem(me) {
      assert ThoughtOf(config, run, steps, n - 1, w);
      ThoughtLater(config, run, steps, n - 1, n, me.requestId, ProposedItem(me));
    } else {
      ThinkerIsDecider(config, run[n - 1], steps[n - 1], run[n]);
      ItemsBody(me);
      assert ThoughtAt(config, run, steps, n - 1, me.requestId, ProposedItem(me));
    }
  }

  lemma ItemsBody(me: Worker)
    requires Proposal(me).Some?
    ensures ProposedItem(me).DecisionItem? && ProposedItem(me).bodyHash == me.bodyHash
  {}

  lemma ThinkerIsDecider(config: Config, s: State, step: Step, t: State)
    requires Typed(s.table) && Next(config, s, step, t) && step.Think?
    ensures IsDecider(s, step.w)
  {
    hide Evaluate, AuditOf, Typed;
  }

  ghost predicate IsStored(table: Table, requestId: string, bodyHash: string, response: Response) {
    var key := DecisionKey(requestId);
    key in table && table[key].DecisionItem? && table[key].bodyHash == bodyHash && table[key].response == response
  }

  /** The response is stored for this request and body, or was given as an answer to it. */
  ghost predicate Given(s: State, requestId: string, bodyHash: string, response: Response) {
    || IsStored(s.table, requestId, bodyHash, response)
    || (exists w: nat :: Answers(s, w, requestId, Answered(response)) && s.workers[w].bodyHash == bodyHash)
  }

  /**
   Every response stored or answered is the report of one evaluation of the same request and body:
   it and the audit record stored with it describe what the providers said then.
   */
  lemma ResponsesAreDescribed(config: Config, run: seq<State>, steps: seq<Step>, n: nat, requestId: string,
          bodyHash: string, response: Response)
    returns (k: nat, audit: Audit)
    requires IsRun(config, run, steps) && n < |run| && Given(run[n], requestId, bodyHash, response)
    ensures k < n && EvaluatedAt(run, steps, k, requestId, bodyHash)
    ensures Describes(config, requestId, steps[k].world, response)
    ensures AuditDescribes(config, steps[k].candidateId, steps[k].world, audit)
    ensures DecisionKey(requestId) in run[n].table
      && run[n].table[DecisionKey(requestId)] == ItemOf(bodyHash, response, audit)
  {
    RunThinks(config, run, steps, n);
    if !IsStored(run[n].table, requestId, bodyHash, response) {
      var w: nat :| Answers(run[n], w, requestId, Answered(response)) && run[n].workers[w].bodyHash == bodyHash;
      AnswerIsTheRow(config, run, steps, n, w, requestId, Answered(response), n);
    }
    var key := DecisionKey(requestId);
    Kinds(requestId, "", Event("", "", ""), "", "");
    assert key in run[n].table && Fits(key, run[n].table[key]);
    audit := run[n].table[key].audit;
    assert RowThought(config, run, steps, n, requestId);
    k :| 0 <= k < n && ThoughtAt(config, run, steps, k, requestId, run[n].table[key]);
    EvaluationDescribes(config, requestId, steps[k].candidateId, steps[k].world);
    hide IsRun, Typed, Evaluate, AuditOf, Answers, Describes, AuditDescribes, EvaluatedAt, DecisionKey;
  }

  /**
   In particular, every stored or returned ALLOW goes back to an evaluation of the same request and
   body in which the model's values were well-formed and met both thresholds, and the language
   model gave a well-formed answer that allowed the trade or was a veto recorded in shadow mode.
   */
  lemma AllowIsJustified(config: Config, run: seq<State>, steps: seq<Step>, n: nat, requestId: string,
          bodyHash: string, response: Response)
    returns (k: nat)
    requires IsRun(config, run, steps) && n < |run| && response.verdict == ALLOW
    requires Given(run[n], requestId, bodyHash, response)
    ensures k < n && EvaluatedAt(run, steps, k, requestId, bodyHash)
    ensures response == Evaluate(config, requestId, steps[k].world)
    ensures MlApproves(config, steps[k].world) && LlmApproves(config, steps[k].world)
  {
    RunThinks(config, run, steps, n);
    var audit;
    k, audit := ResponsesAreDescribed(config, run, steps, n, requestId, bodyHash, response);
    assert RowThought(config, run, steps, n, requestId);
    k :| 0 <= k < n && ThoughtAt(config, run, steps, k, requestId, ItemOf(bodyHash, response, audit));
    AllowMeans(config, requestId, steps[k].world);
    hide IsRun, Evaluate, MlApproves, LlmApproves, Given, EvaluatedAt, AuditOf, Describes, AuditDescribes;
  }

  // ---------- the history is that of a write-once register ----------

  /** One submission to the register: a proposal if the submitter has one, and the answer it got. */
  datatype Op = Op(w: nat, requestId: string, bodyHash: string, proposal: Option<Response>, answer: Answer)

  type Register = map<string, (string, Response)>

  /** The answer that a register used by one submitter at a time would give. */
  ghost predicate Correct(register: Register, op: Op) {
    if op.requestId in register then op.answer == AnswerFor(register[op.requestId], op.bodyHash)
    else op.proposal.Some? && op.answer == Answered(op.proposal.value)
  }

  function Submit(register: Register, op: Op): Register {
    if op.requestId in register || op.proposal.None? then register
    else register[op.requestId := (op.bodyHash, op.proposal.value)]
  }

  function Replay(log: seq<Op>): Register {
    if log == [] then map[] else Submit(Replay(log[..|log| - 1]), log[|log| - 1])
  }

  /** Submitted one after another, the operations get exactly the answers recorded. */
  ghost predicate Sequential(log: seq<Op>) {
    forall i :: 0 <= i < |log| ==> Correct(Replay(log[..i]), log[i])
  }

  /** The step at which an operation takes effect: a read that finds the row, or the write itself. */
  function Effect(s: State, step: Step): seq<Op>
    requires Typed(s.table)
  {
    match step
    case Fetch(w) => if w < |s.workers| then FoundOp(s, w) else []
    case Reread(w) => if w < |s.workers| then FoundOp(s, w) else []
    case Put(w) => if w < |s.workers| then WriteOp(s, w) else []
    case PutRetried(w) => if w < |s.workers| then WriteOp(s, w) else []
    case _ => []
  }

  function FoundOp(s: State, w: nat): seq<Op>
    requires Typed(s.table) && w < |s.workers|
  {
    var me := s.workers[w];
    if me.Decider? && StoredDecision(s.table, me.requestId).Some? then
      [Op(w, me.requestId, me.bodyHash, None, AnswerFor(StoredDecision(s.table, me.requestId).value, me.bodyHash))]
    else []
  }

  function WriteOp(s: State, w: nat): seq<Op>
    requires Typed(s.table) && w < |s.workers|
  {
    var me := s.workers[w];
    if Proposal(me).Some? && StoredDecision(s.table, me.requestId).None? then
      [Op(w, me.requestId, me.bodyHash, Proposal(me), Answered(Proposal(me).value))]
    else []
  }

  /** The operations of the first `n` steps, each where it took effect. */
  ghost function Log(config: Config, run: seq<State>, steps: seq<Step>, n: nat): seq<Op>
    requires IsRun(config, run, steps) && n <= |steps|
  {
    if n == 0 then [] else Log(config, run, steps, n - 1) + Effect(run[n - 1], steps[n - 1])
  }

  ghost predicate Represents(register: Register, table: Table)
    requires Typed(table)
  {
    forall id :: (if id in register then Some(register[id]) else None) == StoredDecision(table, id)
  }

  lemma SequentialSnoc(log: seq<Op>, op: Op)
    requires Sequential(log) && Correct(Replay(log), op)
    ensures Sequential(log + [op]) && Replay(log + [op]) == Submit(Replay(log), op)
  {
    hide Correct;
    var all := log + [op];
    assert all[..|log|] == log;
    forall i | 0 <= i < |all|
      ensures Correct(Replay(all[..i]), all[i])
    {
      if i < |log| {
        assert all[..i] == log[..i];
      }
    }
  }

  /** A step that adds a row takes effect. */
  lemma NewRowIsEffect(config: Config, s: State, step: Step, t: State, id: string)
    requires Inv(s) && Typed(t.table) && Next(config, s, step, t)
    requires StoredDecision(s.table, id).None? && StoredDecision(t.table, id).Some?
    ensures Effect(s, step) != []
  {
    hide Evaluate, AuditOf, Typed, Knows, CreatedOnce, EventKey, NonceKey, DecisionKey;
    match step {
      case Put(w) => DecisionKeyIsInjective(id, s.workers[w].requestId);
      case PutRetried(w) => DecisionKeyIsInjective(id, s.workers[w].requestId);
      case Record(w) => Kinds(id, s.workers[w].sourceId, s.workers[w].event, "", "");
      case RecordRetried(w) => Kinds(id, s.workers[w].sourceId, s.workers[w].event, "", "");
      case Claim(keyId, nonce, _) => Kinds(id, "", Event("", "", ""), keyId, nonce);
      case _ =>
    }
  }

  /** A step that takes no effect leaves every row as it is. */
  lemma NoEffect(config: Config, s: State, step: Step, t: State, id: string)
    requires Inv(s) && Inv(t) && Next(config, s, step, t) && Keeps(s.table, t.table) && Effect(s, step) == []
    ensures StoredDecision(s.table, id) == StoredDecision(t.table, id)
  {
    RowStays(s.table, t.table, id);
    hide Next, Typed, Knows, CreatedOnce, StoredDecision, Effect, Keeps;
    if StoredDecision(s.table, id).None? && StoredDecision(t.table, id).Some? {
      NewRowIsEffect(config, s, step, t, id);
    }
  }

  lemma RowStays(a: Table, b: Table, id: string)
    requires Typed(a) && Typed(b) && Keeps(a, b)
    ensures StoredDecision(a, id).Some? ==> StoredDecision(b, id) == StoredDecision(a, id)
  {
    Kinds(id, "", Event("", "", ""), "", "");
    assert DecisionKey(id) in a ==> Fits(DecisionKey(id), a[DecisionKey(id)]);
    hide DecisionKey;
  }

  /** A step that takes effect does to the table what its operation does to the register. */
  lemma OneEffect(config: Config, s: State, step: Step, t: State, register: Register)
    requires Inv(s) && Inv(t) && Next(config, s, step, t) && Keeps(s.table, t.table) && Effect(s, step) != []
    requires Represents(register, s.table)
    ensures |Effect(s, step)| == 1 && Correct(register, Effect(s, step)[0])
    ensures Represents(Submit(register, Effect(s, step)[0]), t.table)
  {
    var op := Effect(s, step)[0];
    forall id
      ensures StoredDecision(t.table, id)
           == if id == op.requestId && StoredDecision(s.table, id).None? then Some((op.bodyHash, op.proposal.value))
             else StoredDecision(s.table, id)
    {
      EffectOnRow(config, s, step, t, id);
    }
    assert (if op.requestId in register then Some(register[op.requestId]) else None)
      == StoredDecision(s.table, op.requestId);
    hide Next, Typed, Knows, CreatedOnce, DecisionKey, StoredDecision, Inv, Keeps;
  }

  lemma EffectOnRow(config: Config, s: State, step: Step, t: State, id: string)
    requires Inv(s) && Inv(t) && Next(config, s, step, t) && Effect(s, step) != []
    ensures var op := Effect(s, step)[0];
      && StoredDecision(t.table, id)
         == (if id == op.requestId && StoredDecision(s.table, id).None? && op.proposal.Some?
             then Some((op.bodyHash, op.proposal.value))
             else StoredDecision(s.table, id))
      && (StoredDecision(s.table, op.requestId).None? ==> op.proposal.Some?)
  {
    hide Evaluate, AuditOf, Typed, Knows, CreatedOnce, EventKey, NonceKey, DecisionKey;
    DecisionKeyIsInjective(id, Effect(s, step)[0].requestId);
  }

  /** A log whose answers are those of a sequential register that ends up holding the table's rows. */
  ghost predicate Refines(log: seq<Op>, table: Table) {
    Typed(table) && Sequential(log) && Represents(Replay(log), table)
  }

  lemma StepRefines(config: Config, s: State, step: Step, t: State, log: seq<Op>)
    requires Inv(s) && Inv(t) && Next(config, s, step, t) && Refines(log, s.table)
    ensures Refines(log + Effect(s, step), t.table)
  {
    StepInv(config, s, step, t);
    hide Next, Typed, Knows, CreatedOnce, Keeps, Correct, StoredDecision, Effect, Sequential, Replay, Submit;
    if Effect(s, step) == [] {
      assert log + [] == log;
      forall id
        ensures StoredDecision(s.table, id) == StoredDecision(t.table, id)
      {
        NoEffect(config, s, step, t, id);
      }
    } else {
      OneEffect(config, s, step, t, Replay(log));
      SequentialSnoc(log, Effect(s, step)[0]);
      assert Effect(s, step) == [Effect(s, step)[0]];
    }
  }

  /**
   The history refines a sequential write-once register: the operations, in the order in which
   they took effect, are answered as that register would answer them, and it ends up holding the
   table's rows.
   */
  lemma {:induction false} RefinesRegister(config: Config, run: seq<State>, steps: seq<Step>, n: nat)
    requires IsRun(config, run, steps) && n <= |steps| && n < |run|
    ensures Refines(Log(config, run, steps, n), run[n].table)
  {
    if n == 0 {
      NothingLogged();
    } else {
      RefinesRegister(config, run, steps, n - 1);
      RunInv(config, run, steps, n - 1);
      RunInv(config, run, steps, n);
      RunStep(config, run, steps, n);
      StepRefines(config, run[n - 1], steps[n - 1], run[n], Log(config, run, steps, n - 1));
    }
    hide Next, Typed, Inv, Refines, Effect;
  }

  lemma NothingLogged()
    ensures Refines([], map[])
  {}

  /** Every answer given is the answer of one of those operations. */
  lemma {:induction false} AnswersAreLogged(config: Config, run: seq<State>, steps: seq<Step>, n: nat, w: nat)
    requires IsRun(config, run, steps) && n <= |steps| && IsDecider(run[n], w)
    requires run[n].workers[w].pc.Done? || run[n].workers[w].pc.Held?
    ensures var me := run[n].workers[w];
      exists i :: 0 <= i < |Log(config, run, steps, n)| && IsOpOf(Log(config, run, steps, n)[i], w, me)
  {
    assert n > 0;
    var s, step, t := run[n - 1], steps[n - 1], run[n];
    assert Next(config, run[n - 1], steps[n - 1], run[n - 1 + 1]);
    RunInv(config, run, steps, n - 1);
    StepMovesOne(config, s, step, t);
    AnswerAppears(config, s, step, t, w);
    var log := Log(config, run, steps, n - 1);
    hide Next, Typed, Knows, CreatedOnce, Effect, IsOpOf;
    if w < |s.workers| && s.workers[w].Decider? && OpIsPast(s.workers[w], t.workers[w]) {
      AnswersAreLogged(config, run, steps, n - 1, w);
      var i :| 0 <= i < |log| && IsOpOf(log[i], w, s.workers[w]);
      SameOp(log[i], w, s.workers[w], t.workers[w]);
      assert Log(config, run, steps, n)[i] == log[i];
    } else {
      assert Log(config, run, steps, n)[|log|] == Effect(s, step)[0];
    }
  }

  predicate IsOpOf(op: Op, w: nat, me: Worker)
    requires me.Decider?
  {
    && op.w == w && op.requestId == me.requestId && op.bodyHash == me.bodyHash
    && (me.pc.Done? ==> op.answer == me.pc.answer)
    && (me.pc.Held? ==> op.answer == Answered(me.pc.response))
  }

  /** The worker already had its answer, and has the same one now. */
  predicate OpIsPast(before: Worker, after: Worker) {
    && before.Decider? && after.Decider? && before.requestId == after.requestId && before.bodyHash == after.bodyHash
    && (before.pc.Done? || before.pc.Held?)
    && (after.pc == before.pc || (before.pc.Held? && after.pc == Done(Answered(before.pc.response))))
  }

  lemma SameOp(op: Op, w: nat, before: Worker, after: Worker)
    requires before.Decider? && after.Decider? && OpIsPast(before, after) && IsOpOf(op, w, before)
    ensures IsOpOf(op, w, after)
  {}

  lemma AnswerAppears(config: Config, s: State, step: Step, t: State, w: nat)
    requires Inv(s) && Next(config, s, step, t) && OneMoves(s, t) && IsDecider(t, w)
    requires t.workers[w].pc.Done? || t.workers[w].pc.Held?
    ensures w < |s.workers| && s.workers[w].Decider?
    ensures OpIsPast(s.workers[w], t.workers[w])
      || (Effect(s, step) != [] && IsOpOf(Effect(s, step)[0], w, t.workers[w]))
  {
    assert w < |s.workers| ==> SameJob(s.workers[w], t.workers[w]) && Knows(s.table, s.workers[w]);
    hide Evaluate, AuditOf, Typed, CreatedOnce, EventKey, NonceKey;
  }

  // ---------- one worker, seen alone ----------

  /**
   A worker that finds no row goes through evaluation, write and, if another worker was faster,
   a second read. Whatever others wrote in between, it ends with the row and the answer that
   `DecisionService.Decide` promises.
   */
  lemma WorkerDecides(config: Config, s0: State, s1: State, s2: State, others: Table, s3: State, s4: State,
                      w: nat, world: World, candidateId: string)
    requires Typed(s0.table) && Typed(others) && IsDecider(s0, w) && s0.workers[w].pc == Ready
    requires StoredDecision(s0.table, s0.workers[w].requestId).None?
    requires Next(config, s0, Fetch(w), s1) && Typed(s1.table)
    requires Next(config, s1, Think(w, world, candidateId), s2) && Typed(s2.table)
    requires Next(config, s2.(table := others + s2.table), Put(w), s3) && Typed(s3.table)
    requires Next(config, s3, if StoredDecision(others, s0.workers[w].requestId).Some? then Reread(w)
      else Return(w), s4)
    ensures Typed(s4.table) && IsDecider(s4, w)
    ensures var id, hash := s0.workers[w].requestId, s0.workers[w].bodyHash;
      var row := if StoredDecision(others, id).Some? then StoredDecision(others, id).value
        else (hash, Evaluate(config, id, world));
      StoredDecision(s4.table, id) == Some(row) && s4.workers[w].pc == Done(AnswerFor(row, hash))
  {
    Kinds(s0.workers[w].requestId, "", Event("", "", ""), "", "");
    assert Typed(others + s2.table);
    hide Typed, Evaluate, AuditOf, DecisionKey, EventKey, NonceKey;
  }
}

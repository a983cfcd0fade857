/** The tailoring worker's handler over the job store (`worker.py`). */
module Worker {
  import Broker
  import opened Wrappers
  import opened JobStore

  datatype RunResult = Finished | Deferred(delay: real) | Raised

  /** How far a claim gets before the store raises: upserted and counted, upserted alone, or not at all. */
  datatype Claim = Stored | CountLost | NotStored

  /** What one delivery meets: whether the store answers the lookup, how far the claim gets, whether the
      inputs could be prepared, the status writes of the graph's nodes that land, how the graph ends, and
      which of the handler's own status writes land. */
  datatype World = World(
    lookupUp: bool, claim: Claim, prepared: bool, progress: seq<Status>, run: RunResult, marks: set<Status>)

  function SetStatus(id: string, status: Status): Op {
    Update(id, Fields(Some(status), None, None))
  }

  /** A write of the handler: a failing store swallows it. */
  function Marked(id: string, status: Status, marks: set<Status>): seq<Op> {
    if status in marks then [SetStatus(id, status)] else []
  }

  function Progress(id: string, progress: seq<Status>): (ops: seq<Op>)
    ensures |ops| == |progress|
  {
    seq(|progress|, i requires 0 <= i < |progress| => SetStatus(id, progress[i]))
  }

  /** The handler's writes after the graph. */
  function EndOps(id: string, attempts: nat, world: World, maxAttempts: int): seq<Op> {
    match world.run
    case Finished => []
    case Deferred(_) => Marked(id, RateLimited, world.marks)
    case Raised =>
      Marked(id, Failed, world.marks)
      + if attempts >= maxAttempts then Marked(id, DeadLettered, world.marks) else []
  }

  function RunOutcome(attempts: nat, world: World, maxAttempts: int): Broker.Outcome {
    match world.run
    case Finished => Broker.Ack
    case Deferred(delay) => Broker.RetryLater(delay)
    case Raised => if attempts >= maxAttempts then Broker.DeadLetter else Broker.Retry
  }

  /** After the claim: the inputs, then the graph. */
  function WorkOps(id: string, attempts: nat, world: World, maxAttempts: int): seq<Op> {
    if !world.prepared then Marked(id, Failed, world.marks)
    else Progress(id, world.progress) + EndOps(id, attempts, world, maxAttempts)
  }

  function WorkOutcome(attempts: nat, world: World, maxAttempts: int): Broker.Outcome {
    if !world.prepared then Broker.RetryLater(300.0) else RunOutcome(attempts, world, maxAttempts)
  }

  /** The store steps of a claim that goes through. */
  function ClaimOps(s: Store, task: Row, claim: Claim): seq<Op> {
    match claim
    case Stored => [Upsert(task), Increment(ClaimedId(s, task))]
    case CountLost => [Upsert(task)]
    case NotStored => []
  }

  /** The row a delivery works on: the message's own id when the claim raised. */
  function WorkId(s: Store, task: Row, claim: Claim): string {
    if claim.Stored? then ClaimedId(s, task) else task.jobId
  }

  /** The attempts a delivery counts: from the store, or from the message when the claim raised. */
  function CountedAttempts(s: Store, task: Row, claim: Claim): nat {
    if claim.Stored? then AttemptsOf(Upserted(s, task), ClaimedId(s, task)) + 1 else task.attempts + 1
  }

  /** The store answers that the work is somebody else's. */
  predicate NotOurs(s: Store, task: Row, claim: Claim) {
    !claim.NotStored? && OutcomeOf(s, task) != Claimed
  }

  /** The store operations of one delivery. */
  function DeliveryOps(s: Store, task: Row, world: World, maxAttempts: int): seq<Op> {
    if !world.lookupUp || FindCompletedRow(s, KeyOf(task)).Some? then []
    else if NotOurs(s, task, world.claim) then [Upsert(task)]
    else
      ClaimOps(s, task, world.claim)
      + WorkOps(WorkId(s, task, world.claim), CountedAttempts(s, task, world.claim), world, maxAttempts)
  }

  function DeliveryOutcome(s: Store, task: Row, world: World, maxAttempts: int): Broker.Outcome {
    if !world.lookupUp then Broker.RetryLater(60.0)
    else if FindCompletedRow(s, KeyOf(task)).Some? || NotOurs(s, task, world.claim) then Broker.Ack
    else WorkOutcome(CountedAttempts(s, task, world.claim), world, maxAttempts)
  }

  lemma {:induction false} AfterConcat(s: Store, a: seq<Op>, b: seq<Op>)
    ensures After(s, a + b) == After(After(s, a), b)
    decreases |a|
  {
    if a == [] {
      assert a + b == b;
    } else {
      assert (a + b)[1..] == a[1..] + b;
      AfterConcat(Next(s, a[0]), a[1..], b);
    }
  }

  // ---------- the handler ----------

  /** `mark_status`: a write that fails is only logged. */
  method MarkStatus(db: LocalDb, id: string, status: Status, marks: set<Status>)
    modifies db
    ensures db.Contents() == After(old(db.Contents()), Marked(id, status, marks))
  {
    if status in marks {
      db.UpdateJob(id, Fields(Some(status), None, None));
      assert [SetStatus(id, status)][1..] == [];
    }
  }

  /** The graph run, as far as the store sees it. */
  method RunGraph(db: LocalDb, id: string, progress: seq<Status>)
    modifies db
    ensures db.Contents() == After(old(db.Contents()), Progress(id, progress))
  {
    ghost var start := db.Contents();
    var i := 0;
    while i < |progress|
      invariant i <= |progress|
      invariant db.Contents() == After(start, Progress(id, progress[..i]))
    {
      db.UpdateJob(id, Fields(Some(progress[i]), None, None));
      assert [SetStatus(id, progress[i])][1..] == [];
      assert Progress(id, progress[..i + 1]) == Progress(id, progress[..i]) + [SetStatus(id, progress[i])];
      AfterConcat(start, Progress(id, progress[..i]), [SetStatus(id, progress[i])]);
      i := i + 1;
    }
    assert progress[..i] == progress;
  }

  /** Everything after the claim. */
  method WorkOnClaim(db: LocalDb, id: string, attempts: nat, world: World, maxAttempts: int)
    returns (outcome: Broker.Outcome)
    modifies db
    ensures db.Contents() == After(old(db.Contents()), WorkOps(id, attempts, world, maxAttempts))
    ensures outcome == WorkOutcome(attempts, world, maxAttempts)
  {
    if !world.prepared {
      MarkStatus(db, id, Failed, world.marks);
      return Broker.RetryLater(300.0);
    }
    ghost var start := db.Contents();
    RunGraph(db, id, world.progress);
    AfterConcat(start, Progress(id, world.progress), EndOps(id, attempts, world, maxAttempts));
    match world.run {
      case Finished => return Broker.Ack;
      case Deferred(delay) =>
        MarkStatus(db, id, RateLimited, world.marks);
        return Broker.RetryLater(delay);
      case Raised =>
        outcome := Fail(db, id, attempts, world.marks, maxAttempts);
    }
  }

  /** A raised run: failed, and dead-lettered at the limit. */
  method Fail(db: LocalDb, id: string, attempts: nat, marks: set<Status>, maxAttempts: int)
    returns (outcome: Broker.Outcome)
    modifies db
    ensures db.Contents() == After(old(db.Contents()), Marked(id, Failed, marks)
                                   + if attempts >= maxAttempts then Marked(id, DeadLettered, marks) else [])
    ensures outcome == if attempts >= maxAttempts then Broker.DeadLetter else Broker.Retry
  {
    ghost var ran := db.Contents();
    MarkStatus(db, id, Failed, marks);
    if attempts >= maxAttempts {
      MarkStatus(db, id, DeadLettered, marks);
      AfterConcat(ran, Marked(id, Failed, marks), Marked(id, DeadLettered, marks));
      return Broker.DeadLetter;
    }
    return Broker.Retry;
  }

  /** The claim: the row to work on and its attempts, unless the work is somebody else's. */
  method ClaimRow(db: LocalDb, task: Row, claim: Claim) returns (ours: bool, id: string, attempts: nat)
    modifies db
    ensures ours <==> !NotOurs(old(db.Contents()), task, claim)
    ensures !ours ==> db.Contents() == After(old(db.Contents()), [Upsert(task)])
    ensures ours ==> db.Contents() == After(old(db.Contents()), ClaimOps(old(db.Contents()), task, claim))
    ensures ours ==> id == WorkId(old(db.Contents()), task, claim)
    ensures ours ==> attempts == CountedAttempts(old(db.Contents()), task, claim)
  {
    ghost var start := db.Contents();
    ours, id, attempts := true, task.jobId, task.attempts + 1;
    if !claim.NotStored? {
      var outcome, rowId := db.UpsertJob(task);
      assert [Upsert(task)][1..] == [];
      if outcome != Claimed {
        return false, id, attempts;
      }
      if claim.Stored? {
        id := rowId;
        attempts := db.IncrementAttempts(id);
        assert [Increment(id)][1..] == [];
        AfterConcat(start, [Upsert(task)], [Increment(id)]);
        assert [Upsert(task)] + [Increment(id)] == [Upsert(task), Increment(id)];
      }
    }
  }

  /** `handle_delivery`, for a payload that validates. */
  method HandleDelivery(db: LocalDb, task: Row, world: World, maxAttempts: int)
    returns (outcome: Broker.Outcome)
    requires task.status == Processing
    modifies db
    ensures db.Contents() ==
            After(old(db.Contents()), DeliveryOps(old(db.Contents()), task, world, maxAttempts))
    ensures outcome == DeliveryOutcome(old(db.Contents()), task, world, maxAttempts)
  {
    ghost var start := db.Contents();
    if !world.lookupUp {
      return Broker.RetryLater(60.0);
    }
    var done := db.FindCompleted(KeyOf(task));
    if done.Some? {
      return Broker.Ack;
    }
    var ours, id, attempts := ClaimRow(db, task, world.claim);
    if !ours {
      return Broker.Ack;
    }
    outcome := WorkOnClaim(db, id, attempts, world, maxAttempts);
    AfterConcat(start, ClaimOps(start, task, world.claim), WorkOps(id, attempts, world, maxAttempts));
  }

  // ---------- immediate retries are bounded ----------

  /** A run of the tailoring queue: deliveries, and anything else that touches the store. */
  datatype Turn = Delivery(task: Row, world: World) | Between(op: Op)

  function TurnOps(s: Store, turn: Turn, maxAttempts: int): seq<Op> {
    match turn
    case Delivery(task, world) => DeliveryOps(s, task, world, maxAttempts)
    case Between(op) => [op]
  }

  /** The turn sends a delivery of this key back for an immediate retry. */
  predicate RetriesNow(s: Store, turn: Turn, key: string, maxAttempts: int) {
    && turn.Delivery? && KeyOf(turn.task) == key
    && DeliveryOutcome(s, turn.task, turn.world, maxAttempts) == Broker.Retry
  }

  function Retries(s: Store, turns: seq<Turn>, key: string, maxAttempts: int): nat
    decreases |turns|
  {
    if turns == [] then 0
    else
      (if RetriesNow(s, turns[0], key, maxAttempts) then 1 else 0)
      + Retries(After(s, TurnOps(s, turns[0], maxAttempts)), turns[1..], key, maxAttempts)
  }

  /** The proviso of a run: no step in between gives a row the key of another row. */
  ghost predicate Orderly(s: Store, turns: seq<Turn>, maxAttempts: int)
    decreases |turns|
  {
    turns != [] ==>
      && (turns[0].Between? ==> NoClash(s, turns[0].op))
      && Orderly(After(s, TurnOps(s, turns[0], maxAttempts)), turns[1..], maxAttempts)
  }

  /** The deliveries of a key whose attempt the store did not count. */
  function Uncounted(turns: seq<Turn>, key: string): nat {
    if turns == [] then 0
    else (if IsUncounted(turns[0], key) then 1 else 0) + Uncounted(turns[1..], key)
  }

  predicate IsUncounted(turn: Turn, key: string) {
    turn.Delivery? && KeyOf(turn.task) == key && !turn.world.claim.Stored?
  }

  /** The turn forgets the attempts of the key: with its first step, since a delivery goes on with a count
      and status writes. */
  ghost predicate Forgets(s: Store, turn: Turn, key: string, maxAttempts: int) {
    var ops := TurnOps(s, turn, maxAttempts);
    ops != [] && Resets(s, ops[0], key)
  }

  ghost function Forgettings(s: Store, turns: seq<Turn>, key: string, maxAttempts: int): nat
    decreases |turns|
  {
    if turns == [] then 0
    else
      (if Forgets(s, turns[0], key, maxAttempts) then 1 else 0)
      + Forgettings(After(s, TurnOps(s, turns[0], maxAttempts)), turns[1..], key, maxAttempts)
  }

  /** A count, or a write of a status and nothing else. */
  predicate CountsOrMarks(op: Op) {
    op.Increment? || (op.Update? && op.fields.attempts.None? && op.fields.keys.None?)
  }

  lemma {:induction false} CountOrMarkKeepsAttempts(s: Store, op: Op, key: string)
    requires WellKeyed(s) && CountsOrMarks(op)
    ensures WellKeyed(Next(s, op)) && KeyAttempts(Next(s, op), key) >= KeyAttempts(s, key)
  {
    StepKeepsWellKeyed(s, op);
    AttemptsFallExactly(s, op, key);
    if op.Update? && op.id in s.jobs {
      SameParts(s.jobs[op.id], Edited(s.jobs[op.id], op.fields));
    }
  }

  lemma {:induction false} MarksKeepAttempts(s: Store, ops: seq<Op>, key: string)
    requires WellKeyed(s) && forall op :: op in ops ==> CountsOrMarks(op)
    ensures WellKeyed(After(s, ops)) && KeyAttempts(After(s, ops), key) >= KeyAttempts(s, key)
    decreases |ops|
  {
    if ops != [] {
      assert ops[0] in ops;
      CountOrMarkKeepsAttempts(s, ops[0], key);
      MarksKeepAttempts(Next(s, ops[0]), ops[1..], key);
    }
  }

  /** Behind its first step a delivery only counts and marks. */
  lemma {:induction false} DeliveryCountsAndMarks(s: Store, task: Row, world: World, maxAttempts: int)
    ensures var ops := DeliveryOps(s, task, world, maxAttempts);
      && (ops != [] && ops[0].Upsert? ==> ops[0] == Upsert(task))
      && (ops != [] && !ops[0].Upsert? ==> CountsOrMarks(ops[0]))
      && forall k :: 0 < k < |ops| ==> CountsOrMarks(ops[k])
  {
    WorkMarks(WorkId(s, task, world.claim), CountedAttempts(s, task, world.claim), world, maxAttempts);
  }

  lemma {:induction false} WorkMarks(id: string, attempts: nat, world: World, maxAttempts: int)
    ensures forall k :: 0 <= k < |WorkOps(id, attempts, world, maxAttempts)| ==>
              CountsOrMarks(WorkOps(id, attempts, world, maxAttempts)[k])
  {
  }

  /** What a step and counts and marks behind it do to a key's attempts. */
  lemma {:induction false} AttemptsOverOps(s: Store, ops: seq<Op>, key: string)
    requires WellKeyed(s) && ops != [] && NoClash(s, ops[0])
    requires forall k :: 0 < k < |ops| ==> CountsOrMarks(ops[k])
    ensures WellKeyed(After(s, ops))
    ensures !Resets(s, ops[0], key) ==> KeyAttempts(After(s, ops), key) >= KeyAttempts(s, key)
  {
    StepKeepsWellKeyed(s, ops[0]);
    AttemptsFallExactly(s, ops[0], key);
    forall op | op in ops[1..]
      ensures CountsOrMarks(op)
    {
      var k :| 0 <= k < |ops[1..]| && ops[1..][k] == op;
      assert op == ops[k + 1];
    }
    MarksKeepAttempts(Next(s, ops[0]), ops[1..], key);
  }

  /** A turn that does not forget them leaves a key's attempts as high as they were. */
  lemma {:induction false} AttemptsOverTurn(s: Store, turn: Turn, key: string, maxAttempts: int)
    requires WellKeyed(s) && (turn.Between? ==> NoClash(s, turn.op))
    ensures var t := After(s, TurnOps(s, turn, maxAttempts));
      WellKeyed(t) && (!Forgets(s, turn, key, maxAttempts) ==> KeyAttempts(t, key) >= KeyAttempts(s, key))
  {
    var ops := TurnOps(s, turn, maxAttempts);
    if turn.Delivery? {
      DeliveryCountsAndMarks(s, turn.task, turn.world, maxAttempts);
    }
    if ops != [] {
      AttemptsOverOps(s, ops, key);
    }
  }

  /** A counted delivery that answers RETRY has raised its key's attempts, and had found them below the
      limit - also when it took its row from another key. */
  lemma {:induction false} RetryCountsAnAttempt(s: Store, task: Row, world: World, maxAttempts: int)
    requires WellKeyed(s) && world.claim.Stored? && DeliveryOutcome(s, task, world, maxAttempts) == Broker.Retry
    ensures var t := After(s, DeliveryOps(s, task, world, maxAttempts));
      && KeyAttempts(t, KeyOf(task)) > KeyAttempts(s, KeyOf(task))
      && KeyAttempts(s, KeyOf(task)) + 1 < maxAttempts
  {
    var id := ClaimedId(s, task);
    var work := WorkOps(id, CountedAttempts(s, task, Stored), world, maxAttempts);
    assert DeliveryOps(s, task, world, maxAttempts) == [Upsert(task), Increment(id)] + work;
    WorkMarks(id, CountedAttempts(s, task, Stored), world, maxAttempts);
    CountedWork(s, task, work);
    assert CountedAttempts(s, task, Stored) < maxAttempts;
  }

  lemma {:induction false} CountedWork(s: Store, task: Row, work: seq<Op>)
    requires WellKeyed(s) && OutcomeOf(s, task) == Claimed
    requires forall k :: 0 <= k < |work| ==> CountsOrMarks(work[k])
    ensures var t := After(s, [Upsert(task), Increment(ClaimedId(s, task))] + work);
      KeyAttempts(t, KeyOf(task)) >= CountedAttempts(s, task, Stored) > KeyAttempts(s, KeyOf(task))
  {
    var id := ClaimedId(s, task);
    var ops := [Upsert(task), Increment(id)] + work;
    assert ops[0] == Upsert(task) && ops[1..][0] == Increment(id) && ops[1..][1..] == work;
    CountAfterClaim(s, task);
    MarksKeepAttempts(Next(Next(s, Upsert(task)), Increment(id)), work, KeyOf(task));
  }

  /** The count that follows a claim raises the key's attempts, and its answer is at least what they were
      plus one. */
  lemma {:induction false} CountAfterClaim(s: Store, task: Row)
    requires WellKeyed(s) && OutcomeOf(s, task) == Claimed
    ensures var id, key := ClaimedId(s, task), KeyOf(task);
      var s1 := Next(s, Upsert(task));
      var s2 := Next(s1, Increment(id));
      && WellKeyed(s1) && WellKeyed(s2)
      && KeyAttempts(s, key) <= KeyAttempts(s1, key) == AttemptsOf(s1, id)
      && KeyAttempts(s2, key) == AttemptsOf(s1, id) + 1
  {
    var id := ClaimedId(s, task);
    var s1 := Next(s, Upsert(task));
    StepKeepsWellKeyed(s, Upsert(task));
    ClaimFilesOneRow(s, task);
    ClaimTakesFromOthers(s, task);
    AttemptsFallExactly(s, Upsert(task), KeyOf(task));
    AttemptsOfKey(s1, id);
    StepKeepsWellKeyed(s1, Increment(id));
    CountRaisesAttempts(s1, id);
  }

  /** A claim never takes a row from its own key. */
  lemma {:induction false} ClaimTakesFromOthers(s: Store, task: Row)
    requires WellKeyed(s)
    ensures !Takes(s, Upsert(task), KeyOf(task))
  {
    if Takes(s, Upsert(task), KeyOf(task)) {
      SiblingOfRow(s, task.jobId);
    }
  }

  /** One turn of the bound. */
  lemma {:induction false} TurnStep(s: Store, turn: Turn, key: string, maxAttempts: int)
    requires WellKeyed(s) && (turn.Between? ==> NoClash(s, turn.op))
    ensures var t := After(s, TurnOps(s, turn, maxAttempts));
      && WellKeyed(t)
      && (if RetriesNow(s, turn, key, maxAttempts) then 1 else 0) + Headroom(t, key, maxAttempts)
         <= (if IsUncounted(turn, key) then 1 else 0) + Headroom(s, key, maxAttempts)
            + (if Forgets(s, turn, key, maxAttempts) then Spare(maxAttempts) else 0)
  {
    AttemptsOverTurn(s, turn, key, maxAttempts);
    if RetriesNow(s, turn, key, maxAttempts) {
      DeliveryForgetsOthers(s, turn.task, turn.world, maxAttempts);
      if turn.world.claim.Stored? {
        RetryCountsAnAttempt(s, turn.task, turn.world, maxAttempts);
      }
    }
  }

  /** A delivery does not forget the attempts of its own key. */
  lemma {:induction false} DeliveryForgetsOthers(s: Store, task: Row, world: World, maxAttempts: int)
    requires WellKeyed(s)
    ensures !Forgets(s, Delivery(task, world), KeyOf(task), maxAttempts)
  {
    DeliveryCountsAndMarks(s, task, world, maxAttempts);
    ClaimTakesFromOthers(s, task);
    var ops := DeliveryOps(s, task, world, maxAttempts);
    if ops != [] && ops[0].Update? && ops[0].id in s.jobs {
      SameParts(s.jobs[ops[0].id], Edited(s.jobs[ops[0].id], ops[0].fields));
    }
  }

  /** Every state between the turns is well keyed. */
  ghost predicate Lawful(s: Store, turns: seq<Turn>, maxAttempts: int)
    decreases |turns|
  {
    && WellKeyed(s)
    && (turns != [] ==>
          && (turns[0].Between? ==> NoClash(s, turns[0].op))
          && Lawful(After(s, TurnOps(s, turns[0], maxAttempts)), turns[1..], maxAttempts))
  }

  lemma {:induction false} OrderlyIsLawful(s: Store, turns: seq<Turn>, maxAttempts: int)
    requires WellKeyed(s) && Orderly(s, turns, maxAttempts)
    ensures Lawful(s, turns, maxAttempts)
    decreases |turns|
  {
    if turns != [] {
      AttemptsOverTurn(s, turns[0], "", maxAttempts);
      OrderlyIsLawful(After(s, TurnOps(s, turns[0], maxAttempts)), turns[1..], maxAttempts);
    }
  }

  /** What the turns of the run allow the key beyond its headroom: one retry for each uncounted delivery,
      and `maxAttempts - 1` more for each turn that forgets its attempts. */
  ghost function Allowance(s: Store, turns: seq<Turn>, key: string, maxAttempts: int): nat
    decreases |turns|
  {
    if turns == [] then 0
    else
      (if IsUncounted(turns[0], key) then 1 else 0)
      + (if Forgets(s, turns[0], key, maxAttempts) then Spare(maxAttempts) else 0)
      + Allowance(After(s, TurnOps(s, turns[0], maxAttempts)), turns[1..], key, maxAttempts)
  }

  lemma {:induction false} AllowanceIsProduct(s: Store, turns: seq<Turn>, key: string, maxAttempts: int)
    ensures Allowance(s, turns, key, maxAttempts)
         == Uncounted(turns, key) + Forgettings(s, turns, key, maxAttempts) * Spare(maxAttempts)
    decreases |turns|
  {
    if turns != [] {
      var t := After(s, TurnOps(s, turns[0], maxAttempts));
      AllowanceIsProduct(t, turns[1..], key, maxAttempts);
      OneMore(Forgettings(t, turns[1..], key, maxAttempts), Spare(maxAttempts));
    }
  }

  ghost predicate WithinAllowance(s: Store, turns: seq<Turn>, key: string, maxAttempts: int) {
    Lawful(s, turns, maxAttempts) ==>
      Retries(s, turns, key, maxAttempts) <= Headroom(s, key, maxAttempts) + Allowance(s, turns, key, maxAttempts)
  }

  lemma {:induction false} LawfulTurn(s: Store, turns: seq<Turn>, key: string, maxAttempts: int)
    requires turns != []
    ensures var t := After(s, TurnOps(s, turns[0], maxAttempts));
      Lawful(s, turns, maxAttempts) ==>
        && Lawful(t, turns[1..], maxAttempts)
        && (if RetriesNow(s, turns[0], key, maxAttempts) then 1 else 0) + Headroom(t, key, maxAttempts)
           <= (if IsUncounted(turns[0], key) then 1 else 0) + Headroom(s, key, maxAttempts)
              + (if Forgets(s, turns[0], key, maxAttempts) then Spare(maxAttempts) else 0)
  {
    if Lawful(s, turns, maxAttempts) {
      TurnStep(s, turns[0], key, maxAttempts);
    }
  }

  lemma {:induction false} FirstTurn(s: Store, turns: seq<Turn>, key: string, maxAttempts: int)
    requires turns != []
    ensures WithinAllowance(After(s, TurnOps(s, turns[0], maxAttempts)), turns[1..], key, maxAttempts) ==>
              WithinAllowance(s, turns, key, maxAttempts)
  {
    LawfulTurn(s, turns, key, maxAttempts);
  }

  lemma {:induction false} RetriesWithinAllowance(s: Store, turns: seq<Turn>, key: string, maxAttempts: int)
    ensures WithinAllowance(s, turns, key, maxAttempts)
    decreases |turns|
  {
    if turns != [] {
      RetriesWithinAllowance(After(s, TurnOps(s, turns[0], maxAttempts)), turns[1..], key, maxAttempts);
      FirstTurn(s, turns, key, maxAttempts);
    }
  }

  /** Immediate retries per vacancy: over any run of deliveries and other store steps a key is sent back at
      most once for each delivery whose attempt was not counted, as often as attempts are left below the
      limit, and `maxAttempts - 1` times more for each turn that forgets its attempts - a claim that takes
      its row for another key, or an update - however many deferrals lie in between. */
  lemma {:induction false} RetriesAreBounded(s: Store, turns: seq<Turn>, key: string, maxAttempts: int)
    requires WellKeyed(s) && Orderly(s, turns, maxAttempts)
    ensures Retries(s, turns, key, maxAttempts)
         <= Uncounted(turns, key) + Headroom(s, key, maxAttempts)
            + Forgettings(s, turns, key, maxAttempts) * Spare(maxAttempts)
  {
    OrderlyIsLawful(s, turns, maxAttempts);
    RetriesWithinAllowance(s, turns, key, maxAttempts);
    AllowanceIsProduct(s, turns, key, maxAttempts);
  }

  /** When every claim is counted and nothing forgets the attempts, at most `maxAttempts - 1` times. */
  lemma {:induction false} ImmediateRetriesAreBounded(s: Store, turns: seq<Turn>, key: string, maxAttempts: int)
    requires WellKeyed(s) && Orderly(s, turns, maxAttempts)
    requires Uncounted(turns, key) == 0 && Forgettings(s, turns, key, maxAttempts) == 0
    ensures Retries(s, turns, key, maxAttempts) <= Spare(maxAttempts)
  {
    RetriesAreBounded(s, turns, key, maxAttempts);
  }

  // ---------- a job id sent for two versions in turn ----------

  /** A status write that is not `completed`. */
  predicate SetsOpenStatus(op: Op) {
    op.Update? && op.fields.status.Some? && op.fields.status.value != Completed && op.fields.keys.None?
  }

  /** The store holds at most this one row, and has never seen a completed one. */
  ghost predicate OnlyRow(s: Store, id: string) {
    && WellKeyed(s) && s.completed == map[]
    && forall o :: o in s.jobs ==> o == id
  }

  /** The row, if it is there, is of the same vacancy as the message, under another key. */
  ghost predicate OtherKey(s: Store, task: Row) {
    task.jobId in s.jobs ==>
      && s.jobs[task.jobId].externalId == task.externalId
      && Or(s.jobs[task.jobId].source, "djinni") == Or(task.source, "djinni")
      && KeyOf(s.jobs[task.jobId]) != KeyOf(task)
  }

  lemma {:induction false} OtherKeyIsClaimed(s: Store, task: Row)
    requires OnlyRow(s, task.jobId) && OtherKey(s, task)
    ensures OutcomeOf(s, task) == Claimed && ClaimedId(s, task) == task.jobId
    ensures Upserted(s, task).jobs == s.jobs[task.jobId := task] && WellKeyed(Upserted(s, task))
    ensures task.status != Completed ==> Upserted(s, task).completed == s.completed
  {
    SiblingIsTheRowWithTheKey(s.order, s.jobs, KeyOf(task));
    StepKeepsWellKeyed(s, Upsert(task));
  }

  /** The row is that of the message, but for its status and its attempts. */
  ghost predicate RowOf(s: Store, task: Row) {
    && OnlyRow(s, task.jobId) && task.jobId in s.jobs
    && s.jobs[task.jobId].(status := task.status, attempts := task.attempts) == task
  }

  /** Counts and open status writes leave it that. */
  lemma {:induction false} StaysRowOf(s: Store, ops: seq<Op>, task: Row)
    requires RowOf(s, task) && s.jobs[task.jobId].status != Completed
    requires forall k :: 0 <= k < |ops| ==> ops[k].Increment? || SetsOpenStatus(ops[k])
    requires forall k :: 0 <= k < |ops| ==> CountsOrMarks(ops[k])
    ensures RowOf(After(s, ops), task) && After(s, ops).jobs[task.jobId].status != Completed
    decreases |ops|
  {
    if ops != [] {
      StepStaysRowOf(s, ops[0], task);
      assert forall k :: 0 <= k < |ops[1..]| ==> ops[1..][k] == ops[k + 1];
      StaysRowOf(Next(s, ops[0]), ops[1..], task);
    }
  }

  lemma {:induction false} StepStaysRowOf(s: Store, op: Op, task: Row)
    requires RowOf(s, task) && s.jobs[task.jobId].status != Completed
    requires (op.Increment? || SetsOpenStatus(op)) && CountsOrMarks(op)
    ensures RowOf(Next(s, op), task) && Next(s, op).jobs[task.jobId].status != Completed
  {
    StepKeepsWellKeyed(s, op);
    StepWritesOneRow(s, op);
  }

  lemma {:induction false} WorkIsOpen(id: string, attempts: nat, world: World, maxAttempts: int)
    requires Completed !in world.progress
    ensures forall k :: 0 <= k < |WorkOps(id, attempts, world, maxAttempts)| ==>
              SetsOpenStatus(WorkOps(id, attempts, world, maxAttempts)[k])
  {
    var ops := WorkOps(id, attempts, world, maxAttempts);
    forall k | 0 <= k < |ops|
      ensures SetsOpenStatus(ops[k])
    {
      assert k < |world.progress| ==> world.progress[k] in world.progress;
    }
  }

  /** A counted delivery that fails takes the row over, with the attempts of its message, and is retried. */
  lemma {:induction false} TakesOverAndRetries(s: Store, task: Row, world: World, maxAttempts: int)
    ensures TakesOver(s, task, world, maxAttempts) ==>
      && DeliveryOutcome(s, task, world, maxAttempts) == Broker.Retry
      && OnlyRow(After(s, DeliveryOps(s, task, world, maxAttempts)), task.jobId)
      && SameJob(After(s, DeliveryOps(s, task, world, maxAttempts)), task)
  {
    if TakesOver(s, task, world, maxAttempts) {
      TakenOverOps(s, task, world, maxAttempts);
      TakenOver(s, task, world, maxAttempts, WorkOps(task.jobId, task.attempts + 1, world, maxAttempts));
      SameKeyAsRow(After(s, DeliveryOps(s, task, world, maxAttempts)), task);
    }
  }

  lemma {:induction false} TakenOverOps(s: Store, task: Row, world: World, maxAttempts: int)
    requires TakesOver(s, task, world, maxAttempts)
    ensures DeliveryOutcome(s, task, world, maxAttempts) == Broker.Retry
    ensures DeliveryOps(s, task, world, maxAttempts)
         == [Upsert(task)]
            + ([Increment(task.jobId)] + WorkOps(task.jobId, task.attempts + 1, world, maxAttempts))
  {
    TakenOverCount(s, task, world.claim);
    var work := WorkOps(task.jobId, task.attempts + 1, world, maxAttempts);
    assert [Upsert(task), Increment(task.jobId)] + work == [Upsert(task)] + ([Increment(task.jobId)] + work);
  }

  lemma {:induction false} TakenOverCount(s: Store, task: Row, claim: Claim)
    requires OnlyRow(s, task.jobId) && OtherKey(s, task) && task.status == Processing && claim.Stored?
    ensures FindCompletedRow(s, KeyOf(task)).None? && !NotOurs(s, task, claim)
    ensures ClaimedId(s, task) == task.jobId && CountedAttempts(s, task, claim) == task.attempts + 1
  {
    OtherKeyIsClaimed(s, task);
  }

  ghost predicate TakesOver(s: Store, task: Row, world: World, maxAttempts: int) {
    && OnlyRow(s, task.jobId) && OtherKey(s, task) && task.status == Processing
    && world.lookupUp && world.claim.Stored? && world.prepared && world.run == Raised
    && Completed !in world.progress && task.attempts + 1 < maxAttempts
  }

  /** The row is of the vacancy of the message and has its key. */
  ghost predicate SameJob(s: Store, task: Row) {
    && task.jobId in s.jobs && KeyOf(s.jobs[task.jobId]) == KeyOf(task)
    && s.jobs[task.jobId].externalId == task.externalId && s.jobs[task.jobId].source == task.source
  }

  lemma {:induction false} TakenOver(s: Store, task: Row, world: World, maxAttempts: int, work: seq<Op>)
    requires OnlyRow(s, task.jobId) && OtherKey(s, task) && task.status == Processing
    requires Completed !in world.progress && work == WorkOps(task.jobId, task.attempts + 1, world, maxAttempts)
    ensures RowOf(After(s, [Upsert(task)] + ([Increment(task.jobId)] + work)), task)
  {
    OtherKeyIsClaimed(s, task);
    AfterOneMore(s, Upsert(task), [Increment(task.jobId)] + work);
    WorkIsOpen(task.jobId, task.attempts + 1, world, maxAttempts);
    WorkMarks(task.jobId, task.attempts + 1, world, maxAttempts);
    StaysRowOf(Next(s, Upsert(task)), [Increment(task.jobId)] + work, task);
  }

  /** Deliveries of two messages in turn. */
  function InTurn(a: Turn, b: Turn, n: nat): seq<Turn> {
    if n == 0 then [] else [a, b] + InTurn(a, b, n - 1)
  }

  /** Two messages of one job id for two versions, in a store that holds no row of the first one, and
      runs that all fail. */
  ghost predicate Alternates(s: Store, a: Row, b: Row, world: World, maxAttempts: int) {
    && OnlyRow(s, a.jobId) && OtherKey(s, a) && a.status == Processing && b.status == Processing
    && b.jobId == a.jobId && b.externalId == a.externalId && KeyOf(b) != KeyOf(a)
    && Or(b.source, "djinni") == Or(a.source, "djinni")
    && world.lookupUp && world.claim.Stored? && world.prepared && world.run == Raised
    && Completed !in world.progress && a.attempts + 1 < maxAttempts && b.attempts + 1 < maxAttempts
  }

  /** The last term of the bound is reached: one job id sent for two versions in turn, every claim counted
      and every run failing. Each claim takes the row from the other version and starts counting anew, so
      the first version is retried `n` times in `n` of its deliveries, for every `n`. */
  lemma {:induction false} ResentIdRetriesForever(s: Store, a: Row, b: Row, world: World, maxAttempts: int, n: nat)
    requires Alternates(s, a, b, world, maxAttempts)
    ensures Retries(s, InTurn(Delivery(a, world), Delivery(b, world), n), KeyOf(a), maxAttempts) == n
    ensures Uncounted(InTurn(Delivery(a, world), Delivery(b, world), n), KeyOf(a)) == 0
  {
    AlwaysRetried(s, a, b, world, maxAttempts, n);
    NoneUncounted(Delivery(a, world), Delivery(b, world), n, KeyOf(a));
  }

  /** The store behind one delivery of each. */
  function AfterRound(s: Store, a: Row, b: Row, world: World, maxAttempts: int): Store {
    var t := After(s, DeliveryOps(s, a, world, maxAttempts));
    After(t, DeliveryOps(t, b, world, maxAttempts))
  }

  ghost predicate RetriedInTurn(s: Store, a: Row, b: Row, world: World, maxAttempts: int, n: nat) {
    Alternates(s, a, b, world, maxAttempts) ==>
      Retries(s, InTurn(Delivery(a, world), Delivery(b, world), n), KeyOf(a), maxAttempts) == n
  }

  lemma {:induction false} AlwaysRetried(s: Store, a: Row, b: Row, world: World, maxAttempts: int, n: nat)
    ensures RetriedInTurn(s, a, b, world, maxAttempts, n)
    decreases n
  {
    if n > 0 {
      AlwaysRetried(AfterRound(s, a, b, world, maxAttempts), a, b, world, maxAttempts, n - 1);
      FirstRound(s, a, b, world, maxAttempts, n);
    }
  }

  lemma {:induction false} FirstRound(s: Store, a: Row, b: Row, world: World, maxAttempts: int, n: nat)
    requires n > 0
    ensures RetriedInTurn(AfterRound(s, a, b, world, maxAttempts), a, b, world, maxAttempts, n - 1) ==>
              RetriedInTurn(s, a, b, world, maxAttempts, n)
  {
    OneRound(s, a, b, world, maxAttempts, InTurn(Delivery(a, world), Delivery(b, world), n - 1));
  }

  lemma {:induction false} NoneUncounted(first: Turn, second: Turn, n: nat, key: string)
    requires !IsUncounted(first, key) && !IsUncounted(second, key)
    ensures Uncounted(InTurn(first, second, n), key) == 0
  {
    if n > 0 {
      var turns := InTurn(first, second, n);
      assert turns[1..][1..] == InTurn(first, second, n - 1);
      NoneUncounted(first, second, n - 1, key);
    }
  }

  lemma {:induction false} OneRound(s: Store, a: Row, b: Row, world: World, maxAttempts: int, rest: seq<Turn>)
    ensures var u := AfterRound(s, a, b, world, maxAttempts);
      Alternates(s, a, b, world, maxAttempts) ==>
        && Alternates(u, a, b, world, maxAttempts)
        && Retries(s, [Delivery(a, world), Delivery(b, world)] + rest, KeyOf(a), maxAttempts)
           == 1 + Retries(u, rest, KeyOf(a), maxAttempts)
  {
    TakesOverAndRetries(s, a, world, maxAttempts);
    TakesOverAndRetries(After(s, DeliveryOps(s, a, world, maxAttempts)), b, world, maxAttempts);
    TwoTurns(s, Delivery(a, world), Delivery(b, world), rest, KeyOf(a), maxAttempts);
  }

  lemma {:induction false} TwoTurns(s: Store, first: Turn, second: Turn, rest: seq<Turn>, key: string,
                                    maxAttempts: int)
    ensures var turns, t := [first, second] + rest, After(s, TurnOps(s, first, maxAttempts));
      var u := After(t, TurnOps(t, second, maxAttempts));
      Retries(s, turns, key, maxAttempts)
      == (if RetriesNow(s, first, key, maxAttempts) then 1 else 0)
         + (if RetriesNow(t, second, key, maxAttempts) then 1 else 0) + Retries(u, rest, key, maxAttempts)
  {
    var turns := [first, second] + rest;
    assert turns[0] == first && turns[1..][0] == second && turns[1..][1..] == rest;
  }

  lemma {:induction false} SameKeyAsRow(s: Store, task: Row)
    requires RowOf(s, task)
    ensures SameJob(s, task)
  {
    SameParts(s.jobs[task.jobId], task);
  }

  // ---------- what an uncounted claim costs ----------

  function Repeated(turn: Turn, n: nat): (turns: seq<Turn>)
    ensures |turns| == n
  {
    if n == 0 then [] else [turn] + Repeated(turn, n - 1)
  }

  /** The first term of the bound is reached: while the claims are not stored the attempts come from
      the message, which the broker redelivers unchanged, so `n` deliveries of it are `n` retries, for
      every `n`, whatever the limit above the message's own count. */
  lemma {:induction false} UnstoredClaimRetriesForever(s: Store, task: Row, world: World, maxAttempts: int, n: nat)
    requires world.lookupUp && world.claim.NotStored? && world.prepared && world.run == Raised
    requires Completed !in world.progress
    requires FindCompletedRow(s, KeyOf(task)).None? && task.attempts + 1 < maxAttempts
    ensures Retries(s, Repeated(Delivery(task, world), n), KeyOf(task), maxAttempts) == n
    ensures Uncounted(Repeated(Delivery(task, world), n), KeyOf(task)) == n
    decreases n
  {
    if n > 0 {
      var turn := Delivery(task, world);
      var ops := TurnOps(s, turn, maxAttempts);
      assert Repeated(turn, n)[1..] == Repeated(turn, n - 1);
      WorkCompletesNothing(s, task.jobId, task.attempts + 1, world, maxAttempts, KeyOf(task));
      assert ops == WorkOps(task.jobId, task.attempts + 1, world, maxAttempts);
      UnstoredClaimRetriesForever(After(s, ops), task, world, maxAttempts, n - 1);
    }
  }

  lemma {:induction false} WorkCompletesNothing(s: Store, id: string, attempts: nat, world: World, maxAttempts: int,
                                                key: string)
    requires Completed !in world.progress && FindCompletedRow(s, key).None?
    ensures FindCompletedRow(After(s, WorkOps(id, attempts, world, maxAttempts)), key).None?
  {
    var ops := WorkOps(id, attempts, world, maxAttempts);
    WorkIsOpen(id, attempts, world, maxAttempts);
    OpenWritesCompleteNothing(s, ops, key);
  }

  lemma {:induction false} OpenWritesCompleteNothing(s: Store, ops: seq<Op>, key: string)
    requires FindCompletedRow(s, key).None? && forall k :: 0 <= k < |ops| ==> SetsOpenStatus(ops[k])
    ensures FindCompletedRow(After(s, ops), key).None?
    decreases |ops|
  {
    if ops != [] {
      assert SetsOpenStatus(ops[0]);
      forall k | 0 <= k < |ops[1..]|
        ensures SetsOpenStatus(ops[1..][k])
      {
        assert SetsOpenStatus(ops[k + 1]);
      }
      OpenWritesCompleteNothing(Next(s, ops[0]), ops[1..], key);
    }
  }

  /** A lost count can lose the vacancy: it left another row behind, that row is claimed again, but the
      handler goes on under the message's own id, so its status writes miss the row. The retry it asks
      for is then acknowledged as a duplicate, with the row still being processed. */
  lemma {:induction false} LostCountStrandsTheRow(s: Store, task: Row, world: World, retry: World, maxAttempts: int)
    requires WellKeyed(s) && task.status == Processing
    requires world.lookupUp && world.claim.CountLost? && world.prepared && world.run == Raised
    requires FindCompletedRow(s, KeyOf(task)).None? && task.attempts + 1 < maxAttempts
    requires OutcomeOf(s, task) == Claimed && ClaimedId(s, task) != task.jobId && task.jobId !in s.jobs
    requires retry.lookupUp && !retry.claim.NotStored?
    ensures DeliveryOutcome(s, task, world, maxAttempts) == Broker.Retry
    ensures var t := After(s, DeliveryOps(s, task, world, maxAttempts));
      && DeliveryOutcome(t, task, retry, maxAttempts) == Broker.Ack
      && ClaimedId(s, task) in t.jobs && t.jobs[ClaimedId(s, task)].status == Processing
      && FindCompletedRow(t, KeyOf(task)).None?
  {
    LostCountLeavesTheClaim(s, task, world, maxAttempts);
    ClaimFilesOneRow(s, task);
    StepKeepsWellKeyed(s, Upsert(task));
    SiblingOfRow(Next(s, Upsert(task)), ClaimedId(s, task));
  }

  lemma {:induction false} LostCountLeavesTheClaim(s: Store, task: Row, world: World, maxAttempts: int)
    requires WellKeyed(s) && world.lookupUp && world.claim.CountLost?
    requires FindCompletedRow(s, KeyOf(task)).None?
    requires OutcomeOf(s, task) == Claimed && ClaimedId(s, task) != task.jobId && task.jobId !in s.jobs
    ensures After(s, DeliveryOps(s, task, world, maxAttempts)) == Next(s, Upsert(task))
    ensures task.jobId !in Next(s, Upsert(task)).jobs
  {
    var ops := WorkOps(task.jobId, task.attempts + 1, world, maxAttempts);
    LostCountOps(s, task, world, maxAttempts);
    AfterOneMore(s, Upsert(task), ops);
    NewRowsAreClaims(s, task, task.jobId);
    WorkStaysOnItsId(task.jobId, task.attempts + 1, world, maxAttempts);
    WritesMissEveryRow(Next(s, Upsert(task)), ops, task.jobId);
  }

  lemma {:induction false} LostCountOps(s: Store, task: Row, world: World, maxAttempts: int)
    requires world.lookupUp && world.claim.CountLost?
    requires FindCompletedRow(s, KeyOf(task)).None? && OutcomeOf(s, task) == Claimed
    ensures DeliveryOps(s, task, world, maxAttempts)
         == [Upsert(task)] + WorkOps(task.jobId, task.attempts + 1, world, maxAttempts)
  {
  }

  lemma {:induction false} AfterOneMore(s: Store, op: Op, ops: seq<Op>)
    ensures After(s, [op] + ops) == After(Next(s, op), ops)
  {
    assert ([op] + ops)[1..] == ops;
  }

  lemma {:induction false} NewRowsAreClaims(s: Store, task: Row, id: string)
    requires WellKeyed(s) && OutcomeOf(s, task) == Claimed && ClaimedId(s, task) != id && id !in s.jobs
    ensures id !in Next(s, Upsert(task)).jobs
  {
    ClaimFilesOneRow(s, task);
  }

  lemma {:induction false} WorkStaysOnItsId(id: string, attempts: nat, world: World, maxAttempts: int)
    ensures forall op :: op in WorkOps(id, attempts, world, maxAttempts) ==> op.Update? && op.id == id
  {
  }

  /** Status writes to an id that has no row change nothing. */
  lemma {:induction false} WritesMissEveryRow(s: Store, ops: seq<Op>, id: string)
    requires id !in s.jobs && forall op :: op in ops ==> op.Update? && op.id == id
    ensures After(s, ops) == s
    decreases |ops|
  {
    if ops != [] {
      assert ops[0] in ops && Next(s, ops[0]) == s;
      WritesMissEveryRow(s, ops[1..], id);
    }
  }
}

/** What a message finds when it comes back (`worker.py`): a tailoring that was deferred or failed is taken
    up again, and each delivery of it counts one attempt. */
module Redelivery {
  import Broker
  import opened Wrappers
  import opened JobStore
  import opened Worker

  // ---------- the answer of a delivery ----------

  /** The delivery gets to work: nothing completed is found, and the claim is not somebody else's. */
  predicate Works(s: Store, task: Row, world: World) {
    && world.lookupUp && FindCompletedRow(s, KeyOf(task)).None?
    && (world.claim.NotStored? || OutcomeOf(s, task) == Claimed)
  }

  /** Each answer, and exactly when the handler gives it. */
  lemma {:induction false} AnswersExactly(s: Store, task: Row, world: World, maxAttempts: int, delay: real)
    ensures var works, answer := Works(s, task, world), DeliveryOutcome(s, task, world, maxAttempts);
      var runs := works && world.prepared;
      var last := CountedAttempts(s, task, world.claim) >= maxAttempts;
      && (answer == Broker.Ack <==> (world.lookupUp && !works) || (runs && world.run == Finished))
      && (answer == Broker.Retry <==> runs && world.run == Raised && !last)
      && (answer == Broker.DeadLetter <==> runs && world.run == Raised && last)
      && (answer == Broker.RetryLater(delay) <==>
            (!world.lookupUp && delay == 60.0) || (works && !world.prepared && delay == 300.0)
            || (runs && world.run == Deferred(delay)))
  {
  }

  /** A delivery that does not get to work leaves the store as it was. */
  lemma {:induction false} IdleDeliveryWritesNothing(s: Store, task: Row, world: World, maxAttempts: int)
    requires !Works(s, task, world)
    ensures After(s, DeliveryOps(s, task, world, maxAttempts)) == s
  {
    assert [Upsert(task)][1..] == [];
  }

  // ---------- what a delivery leaves in its row ----------

  /** Well keyed, and the index names rows that are there. */
  ghost predicate Sound(s: Store) {
    WellKeyed(s) && forall key :: key in s.completed ==> s.completed[key] in s.jobs
  }

  lemma {:induction false} StepKeepsSound(s: Store, op: Op)
    requires Sound(s) && NoClash(s, op)
    ensures Sound(Next(s, op))
  {
    StepKeepsWellKeyed(s, op);
    IndexGrows(s, op);
    StepWritesOneRow(s, op);
  }

  /** A step adds at most the row it writes to the index. */
  lemma {:induction false} IndexGrows(s: Store, op: Op)
    requires WellKeyed(s)
    ensures forall key :: key in Next(s, op).completed ==>
              || (key in s.completed && Next(s, op).completed[key] == s.completed[key])
              || (Writes(s, op) && Next(s, op).completed[key] == WrittenId(s, op))
  {
  }

  /** The statuses a delivery writes after its claim, as far as they land. */
  function Written(world: World, attempts: nat, maxAttempts: int): seq<Status> {
    if !world.prepared then Landing(Failed, world.marks)
    else
      world.progress
      + match world.run
        case Finished => []
        case Deferred(_) => Landing(RateLimited, world.marks)
        case Raised =>
          Landing(Failed, world.marks) + if attempts >= maxAttempts then Landing(DeadLettered, world.marks) else []
  }

  function Landing(status: Status, marks: set<Status>): seq<Status> {
    if status in marks then [status] else []
  }

  lemma {:induction false} WorkOpsAreWrites(id: string, world: World, attempts: nat, maxAttempts: int)
    ensures WorkOps(id, attempts, world, maxAttempts) == Progress(id, Written(world, attempts, maxAttempts))
  {
  }

  function LastOf(statuses: seq<Status>, status: Status): Status {
    if statuses == [] then status else statuses[|statuses| - 1]
  }

  /** Status writes to a row leave it with the last of them, and index it when one of them is `completed`. */
  lemma {:induction false} AfterWrites(s: Store, id: string, statuses: seq<Status>)
    requires id in s.jobs
    ensures var t := After(s, Progress(id, statuses));
      && t.order == s.order
      && t.jobs == s.jobs[id := s.jobs[id].(status := LastOf(statuses, s.jobs[id].status))]
      && t.completed == if Completed in statuses then s.completed[KeyOf(s.jobs[id]) := id] else s.completed
    decreases |statuses|
  {
    if statuses != [] {
      var first := Next(s, SetStatus(id, statuses[0]));
      SameParts(s.jobs[id], first.jobs[id]);
      assert Progress(id, statuses)[1..] == Progress(id, statuses[1..]);
      AfterWrites(first, id, statuses[1..]);
      assert Completed in statuses <==> statuses[0] == Completed || Completed in statuses[1..];
    }
  }

  /** The attempts the store counts with the next claim of the message, less one. */
  ghost function CountedBefore(s: Store, task: Row): nat {
    Max(KeyAttempts(s, KeyOf(task)), task.attempts)
  }

  /** The row of the message is in work, and nothing completed is found for it. */
  ghost predicate InWork(s: Store, task: Row, id: string, attempts: nat) {
    && Sound(s) && id in s.jobs && KeyOf(s.jobs[id]) == KeyOf(task) && s.jobs[id].attempts == attempts
    && s.jobs[id].status == Processing && FindCompletedRow(s, KeyOf(task)).None? && !ForeignId(s, task)
  }

  lemma {:induction false} ClaimPutsInWork(s: Store, task: Row)
    requires Sound(s) && task.status == Processing && OutcomeOf(s, task) == Claimed
    requires FindCompletedRow(s, KeyOf(task)).None?
    ensures InWork(Upserted(s, task), task, ClaimedId(s, task), CountedBefore(s, task))
  {
    StepKeepsSound(s, Upsert(task));
    ClaimFilesOneRow(s, task);
    ClaimFindsNothing(s, task);
  }

  /** A claim of a message in work adds nothing to the index, and its id is not another vacancy's. */
  lemma {:induction false} ClaimFindsNothing(s: Store, task: Row)
    requires Sound(s) && task.status == Processing && OutcomeOf(s, task) == Claimed
    requires FindCompletedRow(s, KeyOf(task)).None?
    ensures FindCompletedRow(Upserted(s, task), KeyOf(task)).None? && !ForeignId(Upserted(s, task), task)
  {
  }

  lemma {:induction false} CountKeepsInWork(s: Store, task: Row, id: string, attempts: nat)
    requires InWork(s, task, id, attempts)
    ensures InWork(Next(s, Increment(id)), task, id, attempts + 1)
  {
    var t := Next(s, Increment(id));
    StepKeepsSound(s, Increment(id));
    UpdateWritesOneRow(s, Increment(id));
    SameParts(s.jobs[id], t.jobs[id]);
  }

  /** Waiting, in work or done: a row of which a claim is a duplicate. */
  predicate Holds(status: Status) {
    status in {Queued, Processing, Rendering, Validating, Uploading, Completed}
  }

  /** What a row of the message decides. */
  lemma {:induction false} RowDecides(s: Store, task: Row, id: string)
    requires WellKeyed(s) && id in s.jobs && KeyOf(s.jobs[id]) == KeyOf(task) && !ForeignId(s, task)
    ensures OutcomeOf(s, task) == Claimed <==> !Holds(s.jobs[id].status)
    ensures KeyAttempts(s, KeyOf(task)) == s.jobs[id].attempts
  {
    SiblingOfRow(s, id);
  }

  /** What the next delivery of the message finds: how often it was tried, that its row is claimed again exactly
      when the last status written does not hold it, and something completed exactly when that was written. */
  ghost predicate Finds(s: Store, task: Row, attempts: nat, written: seq<Status>) {
    && Sound(s) && KeyAttempts(s, KeyOf(task)) == attempts
    && (OutcomeOf(s, task) == Claimed <==> !Holds(LastOf(written, Processing)))
    && (FindCompletedRow(s, KeyOf(task)).None? <==> Completed !in written)
  }

  /** Status writes to the row in work. */
  lemma {:induction false} WritesDecide(s: Store, task: Row, id: string, attempts: nat, written: seq<Status>)
    ensures InWork(s, task, id, attempts) ==> Finds(After(s, Progress(id, written)), task, attempts, written)
  {
    if InWork(s, task, id, attempts) {
      var t := After(s, Progress(id, written));
      AfterWrites(s, id, written);
      RowStaysKeyed(s, t, id);
      RowDecides(t, task, id);
    }
  }

  /** Rows and index still fit when a row has another status. */
  lemma {:induction false} RowStaysKeyed(s: Store, t: Store, id: string)
    requires Sound(s) && id in s.jobs && t.order == s.order && id in t.jobs
    requires t.jobs == s.jobs[id := s.jobs[id].(status := t.jobs[id].status)]
    requires t.completed == s.completed || t.completed == s.completed[KeyOf(s.jobs[id]) := id]
    ensures Sound(t) && KeyOf(t.jobs[id]) == KeyOf(s.jobs[id])
  {
    SameParts(s.jobs[id], t.jobs[id]);
  }

  lemma {:induction false} DeliveryIsWrites(s: Store, task: Row, world: World, attempts: nat, maxAttempts: int)
    requires Works(s, task, world) && world.claim.Stored? && attempts == CountedAttempts(s, task, world.claim)
    ensures After(s, DeliveryOps(s, task, world, maxAttempts))
         == After(Next(Upserted(s, task), Increment(ClaimedId(s, task))),
                  Progress(ClaimedId(s, task), Written(world, attempts, maxAttempts)))
  {
    DeliveryOpsAreWrites(s, task, world, attempts, maxAttempts);
    AfterTwoMore(s, Upsert(task), Increment(ClaimedId(s, task)),
                 Progress(ClaimedId(s, task), Written(world, attempts, maxAttempts)));
  }

  lemma {:induction false} DeliveryOpsAreWrites(s: Store, task: Row, world: World, attempts: nat, maxAttempts: int)
    requires Works(s, task, world) && world.claim.Stored? && attempts == CountedAttempts(s, task, world.claim)
    ensures var id := ClaimedId(s, task);
      DeliveryOps(s, task, world, maxAttempts)
      == [Upsert(task)] + ([Increment(id)] + Progress(id, Written(world, attempts, maxAttempts)))
  {
    WorkOpsAreWrites(ClaimedId(s, task), world, attempts, maxAttempts);
  }

  lemma {:induction false} AfterTwoMore(s: Store, first: Op, second: Op, ops: seq<Op>)
    ensures After(s, [first] + ([second] + ops)) == After(Next(Next(s, first), second), ops)
  {
    AfterOneMore(s, first, [second] + ops);
    AfterOneMore(Next(s, first), second, ops);
  }

  lemma {:induction false} ClaimAndCount(s: Store, task: Row)
    requires Sound(s) && task.status == Processing && OutcomeOf(s, task) == Claimed
    requires FindCompletedRow(s, KeyOf(task)).None?
    ensures CountedAttempts(s, task, Stored) == CountedBefore(s, task) + 1
    ensures InWork(Next(Upserted(s, task), Increment(ClaimedId(s, task))), task, ClaimedId(s, task),
                   CountedBefore(s, task) + 1)
  {
    ClaimPutsInWork(s, task);
    CountKeepsInWork(Upserted(s, task), task, ClaimedId(s, task), CountedBefore(s, task));
  }

  /** A delivery that goes on with its claim counts one attempt more, and what its message finds when it comes
      back depends on the statuses that landed. */
  lemma {:induction false} DeliveryDecides(s: Store, task: Row, world: World, maxAttempts: int)
    requires Sound(s) && task.status == Processing && Works(s, task, world) && world.claim.Stored?
    ensures CountedAttempts(s, task, world.claim) == CountedBefore(s, task) + 1
    ensures Finds(After(s, DeliveryOps(s, task, world, maxAttempts)), task, CountedBefore(s, task) + 1,
                  Written(world, CountedBefore(s, task) + 1, maxAttempts))
  {
    var id, attempts := ClaimedId(s, task), CountedBefore(s, task) + 1;
    ClaimAndCount(s, task);
    DeliveryIsWrites(s, task, world, attempts, maxAttempts);
    WritesDecide(Next(Upserted(s, task), Increment(id)), task, id, attempts, Written(world, attempts, maxAttempts));
  }

  /** So the next delivery is acknowledged as a duplicate exactly when the work was completed, or a lost
      status write leaves the row as if it were still in work. */
  lemma {:induction false} DuplicateExactly(s: Store, task: Row, world: World, again: World, maxAttempts: int)
    requires Sound(s) && task.status == Processing && Works(s, task, world) && world.claim.Stored?
    requires again.lookupUp && !again.claim.NotStored?
    ensures var written := Written(world, CountedBefore(s, task) + 1, maxAttempts);
      Works(After(s, DeliveryOps(s, task, world, maxAttempts)), task, again) <==>
        Completed !in written && !Holds(LastOf(written, Processing))
  {
    DeliveryDecides(s, task, world, maxAttempts);
  }

  /** It happens: the store loses the status write of a deferred run, so the row stays in work and the
      message that comes back is dropped. */
  lemma {:induction false} LostMarkDropsTheTask(s: Store, task: Row, world: World, again: World, maxAttempts: int,
                                                delay: real)
    requires Sound(s) && task.status == Processing && Works(s, task, world) && world.claim.Stored?
    requires world.prepared && world.run == Deferred(delay) && world.progress == [] && RateLimited !in world.marks
    requires again.lookupUp && !again.claim.NotStored?
    ensures DeliveryOutcome(s, task, world, maxAttempts) == Broker.RetryLater(delay)
    ensures DeliveryOutcome(After(s, DeliveryOps(s, task, world, maxAttempts)), task, again, maxAttempts) == Broker.Ack
  {
    DuplicateExactly(s, task, world, again, maxAttempts);
  }

  // ---------- a message that keeps coming back ----------

  /** The delivery ends with the row left for the next claim: its run did not finish, the status behind that
      landed, and no step of the graph had written `completed`. */
  predicate LeavesOpen(world: World) {
    && world.lookupUp && world.claim.Stored?
    && if !world.prepared then Failed in world.marks
       else
         && Completed !in world.progress
         && match world.run
            case Finished => false
            case Deferred(_) => RateLimited in world.marks
            case Raised => Failed in world.marks
  }

  lemma {:induction false} OpenStatusIsLast(world: World, attempts: nat, maxAttempts: int)
    requires LeavesOpen(world)
    ensures var written := Written(world, attempts, maxAttempts);
      Completed !in written && LastOf(written, Processing) in {RateLimited, Failed, DeadLettered}
  {
  }

  /** The store after one delivery of the message into each of these worlds. */
  function AfterDeliveries(s: Store, task: Row, worlds: seq<World>, maxAttempts: int): Store
    decreases |worlds|
  {
    if worlds == [] then s
    else AfterDeliveries(After(s, DeliveryOps(s, task, worlds[0], maxAttempts)), task, worlds[1..], maxAttempts)
  }

  predicate AllLeaveOpen(worlds: seq<World>) {
    forall k :: 0 <= k < |worlds| ==> LeavesOpen(worlds[k])
  }

  /** However often a message comes back deferred or failed, it is never acknowledged as a duplicate: its
      next delivery is claimed again, and the n-th one counts n attempts on top of those before. */
  lemma {:induction false} MessageIsTakenUpAgain(s: Store, task: Row, worlds: seq<World>, maxAttempts: int)
    requires Sound(s) && task.status == Processing && OutcomeOf(s, task) == Claimed
    requires FindCompletedRow(s, KeyOf(task)).None? && AllLeaveOpen(worlds)
    ensures var t := AfterDeliveries(s, task, worlds, maxAttempts);
      && Sound(t) && OutcomeOf(t, task) == Claimed && FindCompletedRow(t, KeyOf(task)).None?
      && CountedBefore(t, task) == CountedBefore(s, task) + |worlds|
    decreases |worlds|
  {
    if worlds != [] {
      DeliveryDecides(s, task, worlds[0], maxAttempts);
      OpenStatusIsLast(worlds[0], CountedBefore(s, task) + 1, maxAttempts);
      MessageIsTakenUpAgain(After(s, DeliveryOps(s, task, worlds[0], maxAttempts)), task, worlds[1..], maxAttempts);
    }
  }

  /** So its answers are known: deferred by what it met, and a run that raises is sent back exactly while the
      deliveries so far, with the attempts before them, stay below the limit. */
  lemma {:induction false} RaisedRunsAreRetriedToTheLimit(s: Store, task: Row, worlds: seq<World>, world: World,
                                                           maxAttempts: int)
    requires Sound(s) && task.status == Processing && OutcomeOf(s, task) == Claimed
    requires FindCompletedRow(s, KeyOf(task)).None? && AllLeaveOpen(worlds)
    requires world.lookupUp && world.claim.Stored?
    ensures var n := CountedBefore(s, task) + |worlds| + 1;
      DeliveryOutcome(AfterDeliveries(s, task, worlds, maxAttempts), task, world, maxAttempts) ==
      if !world.prepared then Broker.RetryLater(300.0)
      else
        match world.run
        case Finished => Broker.Ack
        case Deferred(delay) => Broker.RetryLater(delay)
        case Raised => if n < maxAttempts then Broker.Retry else Broker.DeadLetter
  {
    MessageIsTakenUpAgain(s, task, worlds, maxAttempts);
    ClaimPutsInWork(AfterDeliveries(s, task, worlds, maxAttempts), task);
  }
}

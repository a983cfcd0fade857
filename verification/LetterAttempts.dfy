/** How often a letter is tried (`cover.py`): the answer of every delivery, what it counts in its row, and
    the retries that follow from the counting. */
module LetterAttempts {
  import Broker
  import opened CoverLetter
  import opened Wrappers

  function AttemptsIn(letters: map<JobId, Letter>, job: JobId): nat {
    if job in letters then letters[job].attempts else 0
  }

  /** A letter that was written and stored. */
  predicate HasLetter(letters: map<JobId, Letter>, job: JobId) {
    job in letters && letters[job].status == Completed && letters[job].text != ""
  }

  /** The delivery reaches the letter: the store answers, the vacancy is there, and no letter yet. */
  predicate Reaches(jobs: set<JobId>, letters: map<JobId, Letter>, body: Body, world: World) {
    body.Request? && world.storeUp && body.job in jobs && !HasLetter(letters, body.job)
  }

  /** ... and goes on to the model. */
  predicate Asks(jobs: set<JobId>, letters: map<JobId, Letter>, body: Body, world: World) {
    Reaches(jobs, letters, body, world) && world.cvReadable && world.profileReadable
  }

  // ---------- the answer of a delivery ----------

  /** Each answer, and exactly when the handler gives it. */
  lemma {:induction false} AnswersExactly(jobs: set<JobId>, letters: map<JobId, Letter>, body: Body, maxAttempts: int,
                                          world: World, delay: real)
    requires !body.NotJson?
    ensures var asks, reply := Asks(jobs, letters, body, world), world.reply;
      var last := body.Request? && AttemptsIn(letters, body.job) + 1 >= maxAttempts;
      var result := Handled(jobs, letters, body, maxAttempts, world).1;
      && (result == Settled(Broker.Ack) <==>
            (asks && reply.Written?)
            || (body.Request? && world.storeUp && (body.job !in jobs || HasLetter(letters, body.job))))
      && (result == Settled(Broker.Retry) <==> asks && reply.Broke? && !last)
      && (result == Settled(Broker.DeadLetter) <==>
            body.InvalidPayload? || (Reaches(jobs, letters, body, world) && !world.cvReadable)
            || (asks && (reply.Unwritable? || (reply.Broke? && last))))
      && (result == Settled(Broker.RetryLater(delay)) <==>
            (body.Request? && !world.storeUp && delay == 60.0) || (asks && reply == Deferred(delay)))
      && (result == Raised <==>
            Reaches(jobs, letters, body, world) && world.cvReadable && !world.profileReadable)
  {
  }

  // ---------- the attempts of a row ----------

  /** The delivery counts an attempt: it writes a status that lands. */
  predicate Counts(jobs: set<JobId>, letters: map<JobId, Letter>, body: Body, world: World) {
    && Reaches(jobs, letters, body, world)
    && if world.cvReadable then world.profileReadable && (world.runningStored || world.lastStored)
       else world.lastStored
  }

  /** A delivery raises the attempts of its own row by one exactly when it counts, and no other row's. */
  lemma {:induction false} CountsExactly(jobs: set<JobId>, letters: map<JobId, Letter>, body: Body, maxAttempts: int,
                                         world: World, job: JobId)
    requires !body.NotJson?
    ensures AttemptsIn(Handled(jobs, letters, body, maxAttempts, world).0, job)
         == AttemptsIn(letters, job)
            + if body == Request(job) && Counts(jobs, letters, body, world) then 1 else 0
  {
  }

  /** What the row says when the model was asked: what its reply ended in when that write landed, else that
      the letter is being written. */
  lemma {:induction false} RowSaysExactly(jobs: set<JobId>, letters: map<JobId, Letter>, body: Body, maxAttempts: int,
                                          world: World)
    requires Asks(jobs, letters, body, world) && (world.runningStored || world.lastStored)
    ensures var job, reply := body.job, world.reply;
      var rows := Handled(jobs, letters, body, maxAttempts, world).0;
      && rows.Keys == letters.Keys + {job}
      && (forall other :: other in letters && other != job ==> rows[other] == letters[other])
      && (rows[job].status == Running <==> !world.lastStored)
      && (rows[job].status == Completed <==> world.lastStored && reply.Written?)
      && (rows[job].status == Queued <==> world.lastStored && reply.Deferred?)
      && rows[job].text == if world.lastStored && reply.Written? && reply.text != "" then reply.text
                           else if job in letters then letters[job].text else ""
  {
  }

  // ---------- over runs ----------

  /** What happens to the rows: deliveries of any message, and the board's claims of a letter and the
      `failed` behind a publish that did not get through. */
  datatype Turn = Delivery(body: Body, world: World) | BoardAsks(job: JobId) | BoardFails(job: JobId)

  function Left(jobs: set<JobId>, letters: map<JobId, Letter>, turn: Turn, maxAttempts: int): map<JobId, Letter> {
    match turn
    case Delivery(body, world) =>
      if body.NotJson? then letters else Handled(jobs, letters, body, maxAttempts, world).0
    case BoardAsks(job) => Requested(letters, job, Queued)
    case BoardFails(job) => Requested(letters, job, Failed)
  }

  function LeftAfter(jobs: set<JobId>, letters: map<JobId, Letter>, turns: seq<Turn>, maxAttempts: int)
    : map<JobId, Letter>
    decreases |turns|
  {
    if turns == [] then letters
    else LeftAfter(jobs, Left(jobs, letters, turns[0], maxAttempts), turns[1..], maxAttempts)
  }

  /** The turn is a delivery of this request. */
  predicate Serves(turn: Turn, job: JobId) {
    turn.Delivery? && turn.body == Request(job)
  }

  predicate CountsFor(jobs: set<JobId>, letters: map<JobId, Letter>, turn: Turn, job: JobId) {
    Serves(turn, job) && Counts(jobs, letters, turn.body, turn.world)
  }

  function Counted(jobs: set<JobId>, letters: map<JobId, Letter>, turns: seq<Turn>, job: JobId, maxAttempts: int): nat
    decreases |turns|
  {
    if turns == [] then 0
    else
      (if CountsFor(jobs, letters, turns[0], job) then 1 else 0)
      + Counted(jobs, Left(jobs, letters, turns[0], maxAttempts), turns[1..], job, maxAttempts)
  }

  lemma {:induction false} TurnCounts(jobs: set<JobId>, letters: map<JobId, Letter>, turn: Turn, job: JobId,
                                      maxAttempts: int)
    ensures AttemptsIn(Left(jobs, letters, turn, maxAttempts), job)
         == AttemptsIn(letters, job) + if CountsFor(jobs, letters, turn, job) then 1 else 0
  {
    if turn.Delivery? && !turn.body.NotJson? {
      CountsExactly(jobs, letters, turn.body, maxAttempts, turn.world, job);
    }
  }

  /** Over every run the row's attempts are those it began with and one for each delivery that counted. */
  lemma {:induction false} AttemptsAreTheCount(jobs: set<JobId>, letters: map<JobId, Letter>, turns: seq<Turn>,
                                               job: JobId, maxAttempts: int)
    ensures AttemptsIn(LeftAfter(jobs, letters, turns, maxAttempts), job)
         == AttemptsIn(letters, job) + Counted(jobs, letters, turns, job, maxAttempts)
    decreases |turns|
  {
    if turns != [] {
      TurnCounts(jobs, letters, turns[0], job, maxAttempts);
      AttemptsAreTheCount(jobs, Left(jobs, letters, turns[0], maxAttempts), turns[1..], job, maxAttempts);
    }
  }

  // ---------- the retries of a request ----------

  function Answer(jobs: set<JobId>, letters: map<JobId, Letter>, turn: Turn, maxAttempts: int): Result
    requires turn.Delivery? && !turn.body.NotJson?
  {
    Handled(jobs, letters, turn.body, maxAttempts, turn.world).1
  }

  /** The answers to the deliveries of one request, in order. */
  function Answers(jobs: set<JobId>, letters: map<JobId, Letter>, turns: seq<Turn>, job: JobId, maxAttempts: int)
    : seq<Result>
    decreases |turns|
  {
    if turns == [] then []
    else
      (if Serves(turns[0], job) then [Answer(jobs, letters, turns[0], maxAttempts)] else [])
      + Answers(jobs, Left(jobs, letters, turns[0], maxAttempts), turns[1..], job, maxAttempts)
  }

  predicate Retried(jobs: set<JobId>, letters: map<JobId, Letter>, turn: Turn, job: JobId, maxAttempts: int) {
    Serves(turn, job) && Answer(jobs, letters, turn, maxAttempts) == Settled(Broker.Retry)
  }

  function Retries(jobs: set<JobId>, letters: map<JobId, Letter>, turns: seq<Turn>, job: JobId, maxAttempts: int): nat
    decreases |turns|
  {
    if turns == [] then 0
    else
      (if Retried(jobs, letters, turns[0], job, maxAttempts) then 1 else 0)
      + Retries(jobs, Left(jobs, letters, turns[0], maxAttempts), turns[1..], job, maxAttempts)
  }

  /** A delivery of the request none of whose status writes lands. */
  predicate WritesNothing(turn: Turn, job: JobId) {
    Serves(turn, job) && !turn.world.runningStored && !turn.world.lastStored
  }

  function Unwritten(turns: seq<Turn>, job: JobId): nat {
    if turns == [] then 0 else (if WritesNothing(turns[0], job) then 1 else 0) + Unwritten(turns[1..], job)
  }

  /** The attempts a row may still count below the limit. */
  function Headroom(letters: map<JobId, Letter>, job: JobId, maxAttempts: int): nat {
    Max(0, maxAttempts - 1 - AttemptsIn(letters, job))
  }

  lemma {:induction false} RetryTakesHeadroom(jobs: set<JobId>, letters: map<JobId, Letter>, turn: Turn, job: JobId,
                                              maxAttempts: int)
    ensures (if Retried(jobs, letters, turn, job, maxAttempts) then 1 else 0)
            + Headroom(Left(jobs, letters, turn, maxAttempts), job, maxAttempts)
         <= Headroom(letters, job, maxAttempts) + if WritesNothing(turn, job) then 1 else 0
  {
    TurnCounts(jobs, letters, turn, job, maxAttempts);
    if Serves(turn, job) {
      AnswersExactly(jobs, letters, turn.body, maxAttempts, turn.world, 0.0);
    }
  }

  /** Over every run - replies, lost writes, board requests and other letters in any order - a request is
      sent back for an immediate retry at most once for each of its deliveries that wrote nothing, and as
      often as its attempts leave room below the limit. */
  lemma {:induction false} RetriesAreBounded(jobs: set<JobId>, letters: map<JobId, Letter>, turns: seq<Turn>,
                                             job: JobId, maxAttempts: int)
    ensures Retries(jobs, letters, turns, job, maxAttempts)
         <= Unwritten(turns, job) + Headroom(letters, job, maxAttempts)
    decreases |turns|
  {
    if turns != [] {
      RetryTakesHeadroom(jobs, letters, turns[0], job, maxAttempts);
      RetriesAreBounded(jobs, Left(jobs, letters, turns[0], maxAttempts), turns[1..], job, maxAttempts);
    }
  }

  // ---------- a request that always breaks ----------

  /** Every delivery of the request asks the model, which breaks, and some status write of it lands. */
  predicate AlwaysBreaks(turns: seq<Turn>, job: JobId) {
    forall k :: 0 <= k < |turns| && Serves(turns[k], job) ==> Breaks(turns[k].world)
  }

  predicate Breaks(world: World) {
    && world.storeUp && world.cvReadable && world.profileReadable && world.reply.Broke?
    && (world.runningStored || world.lastStored)
  }

  lemma {:induction false} StaysUnwritten(jobs: set<JobId>, letters: map<JobId, Letter>, turn: Turn, job: JobId,
                                          maxAttempts: int)
    requires !HasLetter(letters, job) && (Serves(turn, job) ==> Breaks(turn.world))
    ensures !HasLetter(Left(jobs, letters, turn, maxAttempts), job)
  {
  }

  lemma {:induction false} BreakIsAnswered(jobs: set<JobId>, letters: map<JobId, Letter>, turn: Turn, job: JobId,
                                           maxAttempts: int)
    requires job in jobs && !HasLetter(letters, job) && Serves(turn, job) && Breaks(turn.world)
    ensures Answer(jobs, letters, turn, maxAttempts)
         == Settled(if AttemptsIn(letters, job) + 1 < maxAttempts then Broker.Retry else Broker.DeadLetter)
    ensures AttemptsIn(Left(jobs, letters, turn, maxAttempts), job) == AttemptsIn(letters, job) + 1
  {
    AnswersExactly(jobs, letters, turn.body, maxAttempts, turn.world, 0.0);
    TurnCounts(jobs, letters, turn, job, maxAttempts);
  }

  /** The n-th delivery of a request that always breaks counts n: with `a` attempts to begin with, it is
      sent back while `a + n` is below the limit, and dead-lettered from then on. */
  lemma {:induction false} BrokenRequestIsRetriedToTheLimit(
      jobs: set<JobId>, letters: map<JobId, Letter>, turns: seq<Turn>, job: JobId, maxAttempts: int, n: nat)
    requires job in jobs && !HasLetter(letters, job) && AlwaysBreaks(turns, job)
    requires n < |Answers(jobs, letters, turns, job, maxAttempts)|
    ensures Answers(jobs, letters, turns, job, maxAttempts)[n]
         == Settled(if AttemptsIn(letters, job) + n + 1 < maxAttempts then Broker.Retry else Broker.DeadLetter)
    decreases |turns|
  {
    var left := Left(jobs, letters, turns[0], maxAttempts);
    StaysUnwritten(jobs, letters, turns[0], job, maxAttempts);
    TurnCounts(jobs, letters, turns[0], job, maxAttempts);
    if Serves(turns[0], job) {
      BreakIsAnswered(jobs, letters, turns[0], job, maxAttempts);
      if n > 0 {
        BrokenRequestIsRetriedToTheLimit(jobs, left, turns[1..], job, maxAttempts, n - 1);
      }
    } else {
      BrokenRequestIsRetriedToTheLimit(jobs, left, turns[1..], job, maxAttempts, n);
    }
  }

  /** ... and its row says so. */
  lemma {:induction false} BrokenRequestCountsItsDeliveries(
      jobs: set<JobId>, letters: map<JobId, Letter>, turns: seq<Turn>, job: JobId, maxAttempts: int)
    requires job in jobs && !HasLetter(letters, job) && AlwaysBreaks(turns, job)
    ensures AttemptsIn(LeftAfter(jobs, letters, turns, maxAttempts), job)
         == AttemptsIn(letters, job) + |Answers(jobs, letters, turns, job, maxAttempts)|
    decreases |turns|
  {
    if turns != [] {
      StaysUnwritten(jobs, letters, turns[0], job, maxAttempts);
      TurnCounts(jobs, letters, turns[0], job, maxAttempts);
      BrokenRequestCountsItsDeliveries(jobs, Left(jobs, letters, turns[0], maxAttempts), turns[1..], job, maxAttempts);
    }
  }
}

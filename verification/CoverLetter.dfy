/** The cover-letter request: the board's side (`coverRequest.ts`), the worker's handler
    (`cover.py`) and the queue between them, as one state machine over interleaved steps. */
module CoverLetter {
  import Broker

  type JobId = string

  datatype Status = Queued | Running | Completed | Failed

  /** One row of `resume_cover_letter`; an empty text is no text. */
  datatype Letter = Letter(status: Status, text: string, attempts: nat)

  datatype Body = Request(job: JobId) | InvalidPayload | NotJson

  /** What the handler's surroundings answer: the store, the CV file, the profile, the model. */
  datatype Reply = Deferred(delay: real) | Unwritable | Broke | Written(text: string)

  /** `upsert_cover_letter`: an empty text keeps the stored one, attempts never fall. */
  function Upserted(letters: map<JobId, Letter>, job: JobId, status: Status, text: string, attempts: nat)
    : map<JobId, Letter>
  {
    var was := if job in letters then letters[job] else Letter(status, "", 0);
    letters[job := Letter(status, if text != "" then text else was.text,
                          if attempts > was.attempts then attempts else was.attempts)]
  }

  /** A write sets the status of one row and touches no other; the row keeps its text when the write brings
      none, and its attempts are the larger of the stored and the written number. */
  lemma {:induction false} UpsertLosesNothing(letters: map<JobId, Letter>, job: JobId, status: Status, text: string,
                                              attempts: nat)
    ensures var t := Upserted(letters, job, status, text, attempts);
      && t.Keys == letters.Keys + {job}
      && (forall other :: other in letters && other != job ==> t[other] == letters[other])
      && t[job].status == status
      && t[job].text == (if text == "" && job in letters then letters[job].text else text)
      && t[job].attempts >= attempts && (job in letters ==> t[job].attempts >= letters[job].attempts)
      && (t[job].attempts == attempts || (job in letters && t[job].attempts == letters[job].attempts))
  {
  }

  predicate AlreadyWritten(letters: map<JobId, Letter>, job: JobId) {
    job in letters && letters[job].status == Completed && letters[job].text != ""
  }

  function AttemptOf(letters: map<JobId, Letter>, job: JobId): nat {
    (if job in letters then letters[job].attempts else 0) + 1
  }

  // ---------- the protocol state ----------

  /** A board request between its claim and its end: `Claimed` publishes next, `Refused` (the
      broker refused or did not confirm) marks the row failed next. */
  datatype Click = Claimed(job: JobId) | Refused(job: JobId)

  /** Where a handler stands: started, past its checks, or past its `running` write. */
  datatype Phase = Started | Checked(attempts: nat) | Asking(attempts: nat)

  /** Who wrote a pending status last. A history: no step of the protocol reads it. */
  datatype Owner = ByClick(click: nat) | ByCopy(id: nat)

  datatype State = State(
    broker: Broker.State<Body>,
    jobs: set<JobId>,
    letters: map<JobId, Letter>,
    clicks: map<nat, Click>,
    phases: map<nat, Phase>,
    owner: map<JobId, Owner>,
    maxAttempts: int)

  datatype Event =
    // the board
    | AddVacancy(job: JobId)
    | RemoveVacancy(job: JobId)
    | Claim(click: nat, job: JobId)
    | Published(click: nat)
    | LandedUnconfirmed(click: nat)
    | PublishFailed(click: nat)
    | MarkFailed(click: nat, stored: bool)
    | BoardCrash(click: nat)
    // the queue and the consumers
    | OpenPod(pod: nat)
    | Deliver(pod: nat, id: nat)
    | Undecodable(pod: nat)
    | Process(pod: nat)
    | Expire(id: nat)
    | PodCrash(pod: nat)
    // the handler's sub-steps
    | Check(pod: nat, storeUp: bool)
    | CvDataUnreadable(pod: nat, stored: bool)
    | ProfileRaised(pod: nat)
    | WriteRunning(pod: nat, stored: bool)
    | ModelReplied(pod: nat, reply: Reply, stored: bool)

  function Init(jobs: set<JobId>, maxAttempts: int): State {
    State(Broker.Init(), jobs, map[], map[], map[], map[], maxAttempts)
  }

  predicate InPhase(s: State, pod: nat) {
    && pod in s.broker.channels && s.broker.channels[pod].Handling?
    && pod in s.phases && s.broker.channels[pod].copy.body != NotJson
  }

  function CopyOf(s: State, pod: nat): Broker.Copy<Body>
    requires pod in s.broker.channels && !s.broker.channels[pod].Idle?
  {
    s.broker.channels[pod].copy
  }

  predicate Enabled(s: State, e: Event) {
    match e
    case AddVacancy(job) => job !in s.jobs
    case RemoveVacancy(job) => job in s.jobs
    case Claim(click, job) =>
      // refused while the row says `running`; a claim for a removed vacancy raises
      click !in s.clicks && job in s.jobs && !(job in s.letters && s.letters[job].status == Running)
    case Published(click) => click in s.clicks && s.clicks[click].Claimed?
    case LandedUnconfirmed(click) => click in s.clicks && s.clicks[click].Claimed?
    case PublishFailed(click) => click in s.clicks && s.clicks[click].Claimed?
    case MarkFailed(click, _) => click in s.clicks && s.clicks[click].Refused?
    case BoardCrash(click) => click in s.clicks
    case OpenPod(pod) => Broker.Enabled(s.broker, Broker.Open(pod))
    case Deliver(pod, id) => Broker.Enabled(s.broker, Broker.Deliver(pod, id))
    case Undecodable(pod) =>
      Broker.Enabled(s.broker, Broker.Undecodable(pod)) && CopyOf(s, pod).body == NotJson
    case Process(pod) => Broker.Enabled(s.broker, Broker.Process(pod))
    case Expire(id) => Broker.Enabled(s.broker, Broker.Expire(id))
    case PodCrash(pod) => Broker.Enabled(s.broker, Broker.Crash(pod))
    case Check(pod, _) => InPhase(s, pod) && s.phases[pod].Started?
    case CvDataUnreadable(pod, _) => InPhase(s, pod) && s.phases[pod].Checked? && CopyOf(s, pod).body.Request?
    case ProfileRaised(pod) => InPhase(s, pod) && s.phases[pod].Checked? && CopyOf(s, pod).body.Request?
    case WriteRunning(pod, _) => InPhase(s, pod) && s.phases[pod].Checked? && CopyOf(s, pod).body.Request?
    case ModelReplied(pod, reply, _) =>
      && InPhase(s, pod) && s.phases[pod].Asking? && CopyOf(s, pod).body.Request?
      && (reply.Written? ==> reply.text != "")
  }

  /** The broker's part of the machine takes its own step. */
  function OnBroker(s: State, e: Broker.Event<Body>): State
    requires Broker.Enabled(s.broker, e)
  {
    s.(broker := Broker.Next(s.broker, e))
  }

  /** The handler on `pod` writes a status. A failed write is swallowed; a write for a removed
      vacancy fails on the foreign key. */
  function Write(s: State, pod: nat, status: Status, text: string, attempts: nat, stored: bool): State
    requires InPhase(s, pod) && CopyOf(s, pod).body.Request?
  {
    var job := CopyOf(s, pod).body.job;
    if stored && job in s.jobs then
      s.(letters := Upserted(s.letters, job, status, text, attempts),
         owner := s.owner[job := ByCopy(CopyOf(s, pod).id)])
    else s
  }

  function Settle(s: State, pod: nat, outcome: Broker.Outcome): State
    requires InPhase(s, pod)
  {
    OnBroker(s, Broker.Settle(pod, outcome))
  }

  function CheckStep(s: State, pod: nat, storeUp: bool): State
    requires InPhase(s, pod)
  {
    match CopyOf(s, pod).body
    case Request(job) =>
      if !storeUp then Settle(s, pod, Broker.RetryLater(60.0))
      else if job !in s.jobs || AlreadyWritten(s.letters, job) then Settle(s, pod, Broker.Ack)
      else s.(phases := s.phases[pod := Checked(AttemptOf(s.letters, job))])
    case _ => Settle(s, pod, Broker.DeadLetter)
  }

  function ReplyStep(s: State, pod: nat, reply: Reply, stored: bool): State
    requires InPhase(s, pod) && s.phases[pod].Asking? && CopyOf(s, pod).body.Request?
  {
    var attempts := s.phases[pod].attempts;
    match reply
    case Deferred(delay) => Settle(Write(s, pod, Queued, "", attempts, stored), pod, Broker.RetryLater(delay))
    case Unwritable => Settle(Write(s, pod, Failed, "", attempts, stored), pod, Broker.DeadLetter)
    case Broke =>
      Settle(Write(s, pod, Failed, "", attempts, stored), pod,
             if attempts >= s.maxAttempts then Broker.DeadLetter else Broker.Retry)
    case Written(text) => Settle(Write(s, pod, Completed, text, attempts, stored), pod, Broker.Ack)
  }

  /** The broker processes a command. When it is the publish of a deferral, the copy in the retry
      queue takes over from the one about to be acked. */
  function ProcessStep(s: State, pod: nat): State
    requires Broker.Enabled(s.broker, Broker.Process(pod))
  {
    var copy := CopyOf(s, pod);
    var command := s.broker.channels[pod].commands[0];
    var t := OnBroker(s, Broker.Process(pod));
    if command.Publish? && command.to != Broker.Dlq && copy.body.Request?
       && copy.body.job in s.owner && s.owner[copy.body.job] == ByCopy(copy.id)
    then t.(owner := t.owner[copy.body.job := ByCopy(s.broker.nextId)])
    else t
  }

  /** The board's publish reaches the queue: the new message takes over from the click. */
  function PublishStep(s: State, click: nat): State
    requires click in s.clicks
  {
    var job := s.clicks[click].job;
    var t := OnBroker(s, Broker.ClientPublish(Request(job)));
    if job in s.owner && s.owner[job] == ByClick(click)
    then t.(owner := t.owner[job := ByCopy(s.broker.nextId)])
    else t
  }

  function Next(s: State, e: Event): State
    requires Enabled(s, e)
  {
    match e
    case AddVacancy(job) => s.(jobs := s.jobs + {job})
    case RemoveVacancy(job) => s.(jobs := s.jobs - {job}, letters := s.letters - {job})
    case Claim(click, job) =>
      var was := if job in s.letters then s.letters[job] else Letter(Queued, "", 0);
      s.(letters := s.letters[job := was.(status := Queued)],
         clicks := s.clicks[click := Claimed(job)], owner := s.owner[job := ByClick(click)])
    case Published(click) =>
      var t := PublishStep(s, click);
      t.(clicks := t.clicks - {click})
    case LandedUnconfirmed(click) =>
      var t := PublishStep(s, click);
      t.(clicks := t.clicks[click := Refused(s.clicks[click].job)])
    case PublishFailed(click) => s.(clicks := s.clicks[click := Refused(s.clicks[click].job)])
    case MarkFailed(click, stored) =>
      var job := s.clicks[click].job;
      var was := if job in s.letters then s.letters[job] else Letter(Failed, "", 0);
      s.(clicks := s.clicks - {click},
         letters := if stored && job in s.jobs then s.letters[job := was.(status := Failed)] else s.letters)
    case BoardCrash(click) => s.(clicks := s.clicks - {click})
    case OpenPod(pod) => OnBroker(s, Broker.Open(pod))
    case Deliver(pod, id) => OnBroker(s, Broker.Deliver(pod, id)).(phases := s.phases[pod := Started])
    case Undecodable(pod) => OnBroker(s, Broker.Undecodable(pod))
    case Process(pod) => ProcessStep(s, pod)
    case Expire(id) => OnBroker(s, Broker.Expire(id))
    case PodCrash(pod) => OnBroker(s, Broker.Crash(pod))
    case Check(pod, storeUp) => CheckStep(s, pod, storeUp)
    case CvDataUnreadable(pod, stored) =>
      Settle(Write(s, pod, Failed, "", s.phases[pod].attempts, stored), pod, Broker.DeadLetter)
    case ProfileRaised(pod) => OnBroker(s, Broker.HandlerRaised(pod))
    case WriteRunning(pod, stored) =>
      var attempts := s.phases[pod].attempts;
      Write(s, pod, Running, "", attempts, stored).(phases := s.phases[pod := Asking(attempts)])
    case ModelReplied(pod, reply, stored) => ReplyStep(s, pod, reply, stored)
  }

  ghost predicate IsRun(s: State, events: seq<Event>, t: State)
    decreases |events|
  {
    if events == [] then t == s
    else Enabled(s, events[0]) && IsRun(Next(s, events[0]), events[1..], t)
  }

  // ---------- no request is lost ----------

  /** The row says the letter is on its way. */
  predicate Pending(s: State, job: JobId) {
    job in s.letters && s.letters[job].status in {Queued, Running}
  }

  /** A channel that will not drop its copy: the handler runs, or the copy goes back or on. */
  predicate Keeps(c: Broker.Channel<Body>) {
    || c.Handling?
    || (c.Settling? && c.commands != []
        && (c.commands[0].NackRequeue? || (c.commands[0].Publish? && c.commands[0].to != Broker.Dlq)))
  }

  /** Copy `id` asks for `job` from a queue a consumer reads, or from a channel that keeps it. */
  ghost predicate LiveCopy(s: State, id: nat, job: JobId) {
    || (id in s.broker.ready && s.broker.ready[id].queue != Broker.Dlq
        && s.broker.ready[id].copy.body == Request(job))
    || exists pod :: KeptBy(s, pod, id, job)
  }

  ghost predicate KeptBy(s: State, pod: nat, id: nat, job: JobId) {
    && pod in s.broker.channels && Keeps(s.broker.channels[pod])
    && s.broker.channels[pod].copy.id == id && s.broker.channels[pod].copy.body == Request(job)
  }

  /** The last writer of a pending status still owns a live request. */
  ghost predicate Owned(s: State, job: JobId) {
    && job in s.owner
    && match s.owner[job]
       case ByClick(click) => click in s.clicks && s.clicks[click].job == job
       case ByCopy(id) => LiveCopy(s, id, job)
  }

  ghost predicate Inv(s: State) {
    && Broker.Distinct(s.broker)
    && s.letters.Keys <= s.jobs
    && (forall job :: Pending(s, job) ==> Owned(s, job))
  }

  /** What the promise says of one row: a message for it waits, is being handled or waits out a
      delay, or a board request for it has not ended. */
  ghost predicate OnItsWay(s: State, job: JobId) {
    || (exists id :: LiveCopy(s, id, job))
    || (exists click :: click in s.clicks && s.clicks[click].job == job)
  }

  /** A step that strands a row: the last writer of its pending status stops without a message -
      the board dies holding its claim, or a status write that should have ended the request is
      lost although the message is then settled for good. */
  predicate Strands(s: State, e: Event)
    requires Enabled(s, e)
  {
    match e
    case BoardCrash(click) => ClickOwnsPending(s, click)
    case MarkFailed(click, stored) => !stored && ClickOwnsPending(s, click)
    case CvDataUnreadable(pod, stored) => !stored && PodOwnsPending(s, pod)
    case ModelReplied(pod, reply, stored) =>
      && !stored && PodOwnsPending(s, pod)
      && (reply.Unwritable? || reply.Written? || (reply.Broke? && s.phases[pod].attempts >= s.maxAttempts))
    case _ => false
  }

  predicate ClickOwnsPending(s: State, click: nat)
    requires click in s.clicks
  {
    var job := s.clicks[click].job;
    Pending(s, job) && job in s.owner && s.owner[job] == ByClick(click)
  }

  predicate PodOwnsPending(s: State, pod: nat)
    requires InPhase(s, pod) && CopyOf(s, pod).body.Request?
  {
    var job := CopyOf(s, pod).body.job;
    Pending(s, job) && job in s.owner && s.owner[job] == ByCopy(CopyOf(s, pod).id)
  }

  /** A live copy stays live over every step that does not settle it for good. */
  lemma {:induction false} LiveCopyIsKept(s: State, t: State, id: nat, job: JobId, e: Broker.Event<Body>)
    requires Broker.Distinct(s.broker) && LiveCopy(s, id, job)
    requires Broker.Enabled(s.broker, e) && t.broker == Broker.Next(s.broker, e)
    requires e.Settle? && s.broker.channels[e.pod].copy.id == id ==> e.outcome.Retry? || e.outcome.RetryLater?
    requires e.Undecodable? ==> s.broker.channels[e.pod].copy.id != id
    requires e.Process? && s.broker.channels[e.pod].copy.id == id ==>
               s.broker.channels[e.pod].commands[0].NackRequeue?
    ensures LiveCopy(t, id, job)
  {
    if id in s.broker.ready && s.broker.ready[id].queue != Broker.Dlq && s.broker.ready[id].copy.body == Request(job) {
      if e.Deliver? && e.id == id {
        assert KeptBy(t, e.pod, id, job);
      } else {
        assert id in t.broker.ready;
      }
    } else {
      var pod :| KeptBy(s, pod, id, job);
      HeldCopyIsKept(s, t, pod, id, job, e);
    }
  }

  lemma {:induction false} HeldCopyIsKept(s: State, t: State, pod: nat, id: nat, job: JobId, e: Broker.Event<Body>)
    requires KeptBy(s, pod, id, job)
    requires Broker.Enabled(s.broker, e) && t.broker == Broker.Next(s.broker, e)
    requires e.Settle? && s.broker.channels[e.pod].copy.id == id ==> e.outcome.Retry? || e.outcome.RetryLater?
    requires e.Undecodable? ==> s.broker.channels[e.pod].copy.id != id
    requires e.Process? && s.broker.channels[e.pod].copy.id == id ==>
               s.broker.channels[e.pod].commands[0].NackRequeue?
    ensures LiveCopy(t, id, job)
  {
    if !KeptBy(t, pod, id, job) {
      assert id in t.broker.ready;
    }
  }

  predicate OwnedBy(s: State, job: JobId, pod: nat) {
    && pod in s.broker.channels && !s.broker.channels[pod].Idle?
    && job in s.owner && s.owner[job] == ByCopy(s.broker.channels[pod].copy.id)
  }

  ghost predicate OwnsNothingPending(s: State, pod: nat) {
    forall job :: Pending(s, job) ==> !OwnedBy(s, job, pod)
  }

  /** Steps in which only the broker moves. */
  lemma {:induction false} BrokerStepKeepsInv(s: State, t: State, e: Broker.Event<Body>)
    requires Inv(s) && Broker.Enabled(s.broker, e)
    requires t.letters == s.letters && t.jobs == s.jobs && t.clicks == s.clicks && t.owner == s.owner
    requires t.broker == Broker.Next(s.broker, e)
    requires e.Settle? && (e.outcome.Ack? || e.outcome.DeadLetter?) ==> OwnsNothingPending(s, e.pod)
    requires e.Undecodable? ==> s.broker.channels[e.pod].copy.body == NotJson
    requires e.Process? ==>
               s.broker.channels[e.pod].commands[0].NackRequeue? || OwnsNothingPending(s, e.pod)
    ensures Inv(t)
  {
    Broker.DistinctIsKept(s.broker, e);
    forall job | Pending(t, job) ensures Owned(t, job) {
      assert Pending(s, job) && Owned(s, job);
      if s.owner[job].ByCopy? {
        var id := s.owner[job].id;
        NotJsonIsNobodysRequest(s, id, job);
        if e.Settle? || e.Process? { assert OwnsNothingPending(s, e.pod) ==> !OwnedBy(s, job, e.pod); }
        LiveCopyIsKept(s, t, id, job, e);
      }
    }
  }

  /** A live copy of a request is not held under another body. */
  lemma {:induction false} NotJsonIsNobodysRequest(s: State, id: nat, job: JobId)
    requires Broker.Distinct(s.broker) && LiveCopy(s, id, job)
    ensures forall pod :: Broker.Holds(s.broker, pod) && s.broker.channels[pod].copy.id == id ==>
              s.broker.channels[pod].copy.body == Request(job)
  {
  }

  /** A copy that waits in no live place, or is held by a channel about to drop it, owns nothing. */
  lemma {:induction false} DroppingChannelOwnsNothing(s: State, pod: nat)
    requires Inv(s) && Broker.Holds(s.broker, pod) && !Keeps(s.broker.channels[pod])
    ensures OwnsNothingPending(s, pod)
  {
    forall job | Pending(s, job) ensures !OwnedBy(s, job, pod) {
      assert Owned(s, job);
    }
  }

  lemma {:induction false} ProcessKeepsInv(s: State, pod: nat)
    requires Inv(s) && Enabled(s, Process(pod))
    ensures Inv(Next(s, Process(pod)))
  {
    var t := Next(s, Process(pod));
    var command := s.broker.channels[pod].commands[0];
    var copy := CopyOf(s, pod);
    if command.Publish? && command.to != Broker.Dlq {
      Broker.DistinctIsKept(s.broker, Broker.Process(pod));
      forall job | Pending(t, job) ensures Owned(t, job) {
        assert Pending(s, job) && Owned(s, job);
        if OwnedBy(s, job, pod) {
          assert copy.body == Request(job);
          assert LiveCopy(t, s.broker.nextId, job);
        } else if s.owner[job].ByCopy? {
          LiveCopyIsKept(s, t, s.owner[job].id, job, Broker.Process(pod));
        }
      }
    } else {
      if !command.NackRequeue? {
        DroppingChannelOwnsNothing(s, pod);
      }
      BrokerStepKeepsInv(s, t, Broker.Process(pod));
    }
  }

  /** The board's publish, confirmed or not. */
  lemma {:induction false} PublishKeepsInv(s: State, click: nat, t: State)
    requires Inv(s) && click in s.clicks && s.clicks[click].Claimed?
    requires var u := PublishStep(s, click);
      t == u.(clicks := u.clicks - {click}) || t == u.(clicks := u.clicks[click := Refused(s.clicks[click].job)])
    ensures Inv(t)
  {
    var e := Broker.ClientPublish(Request(s.clicks[click].job));
    Broker.DistinctIsKept(s.broker, e);
    forall job | Pending(t, job) ensures Owned(t, job) {
      assert Pending(s, job) && Owned(s, job);
      if s.owner[job] == ByClick(click) {
        assert LiveCopy(t, s.broker.nextId, job);
      } else if s.owner[job].ByCopy? {
        LiveCopyIsKept(s, t, s.owner[job].id, job, e);
      }
    }
  }

  /** Steps that only touch the board's side: rows, vacancies, clicks. */
  lemma {:induction false} BoardStepKeepsInv(s: State, e: Event)
    requires Inv(s) && Enabled(s, e) && !Strands(s, e)
    requires e.AddVacancy? || e.RemoveVacancy? || e.Claim? || e.PublishFailed? || e.MarkFailed? || e.BoardCrash?
    ensures Inv(Next(s, e))
  {
    var t := Next(s, e);
    forall job | Pending(t, job) ensures Owned(t, job) {
      if e.Claim? {
        if job != e.job { assert Pending(s, job) && Owned(s, job); OwnerStays(s, t, job); }
      } else {
        assert Pending(s, job) && Owned(s, job);
        OwnerStays(s, t, job);
      }
    }
  }

  lemma {:induction false} OwnerStays(s: State, t: State, job: JobId)
    requires Owned(s, job) && t.broker == s.broker && job in t.owner && t.owner[job] == s.owner[job]
    requires s.owner[job].ByClick? ==>
               s.owner[job].click in t.clicks && t.clicks[s.owner[job].click].job == job
    ensures Owned(t, job)
  {
    SameBrokerSameCopies(s, t, job);
    if s.owner[job].ByCopy? {
      assert LiveCopy(s, s.owner[job].id, job);
    }
  }

  lemma {:induction false} SameBrokerSameCopies(s: State, t: State, job: JobId)
    requires s.broker == t.broker
    ensures forall id :: LiveCopy(s, id, job) ==> LiveCopy(t, id, job)
  {
    forall id | LiveCopy(s, id, job) ensures LiveCopy(t, id, job) {
      if exists pod :: KeptBy(s, pod, id, job) {
        var pod :| KeptBy(s, pod, id, job);
        assert KeptBy(t, pod, id, job);
      }
    }
  }

  /** A write by the handler that runs on the pod: the row's owner is the pod's copy, which lives. */
  lemma {:induction false} WriteKeepsInv(s: State, pod: nat, status: Status, text: string, attempts: nat, stored: bool)
    requires Inv(s) && InPhase(s, pod) && CopyOf(s, pod).body.Request?
    ensures Inv(Write(s, pod, status, text, attempts, stored))
    ensures InPhase(Write(s, pod, status, text, attempts, stored), pod)
  {
    var t := Write(s, pod, status, text, attempts, stored);
    var written := CopyOf(s, pod).body.job;
    forall job | Pending(t, job) ensures Owned(t, job) {
      if t == s || job != written {
        assert Pending(s, job) && Owned(s, job);
        OwnerStays(s, t, job);
      } else {
        assert KeptBy(t, pod, CopyOf(s, pod).id, job);
      }
    }
  }

  /** A pod that handles a request owns no other job's pending row. */
  lemma {:induction false} OwnsOnlyItsJob(s: State, pod: nat, job: JobId)
    requires Inv(s) && InPhase(s, pod) && CopyOf(s, pod).body.Request?
    requires Pending(s, job) && OwnedBy(s, job, pod)
    ensures job == CopyOf(s, pod).body.job
  {
    assert Owned(s, job);
  }

  /** After a write that ends the request, the pod owns no pending row - unless the write was lost
      and the pod was the last writer of a pending one. */
  lemma {:induction false} TerminalWriteReleases(s: State, pod: nat, status: Status, text: string, attempts: nat,
                                                 stored: bool)
    requires Inv(s) && InPhase(s, pod) && CopyOf(s, pod).body.Request?
    requires status == Failed || status == Completed
    ensures OwnsNothingPending(Write(s, pod, status, text, attempts, stored), pod)
       <==> stored || !PodOwnsPending(s, pod)
  {
    var t := Write(s, pod, status, text, attempts, stored);
    var own := CopyOf(s, pod).body.job;
    forall job | Pending(t, job) && OwnedBy(t, job, pod)
      ensures job == own && t == s
    {
      if Pending(s, job) && OwnedBy(s, job, pod) {
        OwnsOnlyItsJob(s, pod, job);
      }
    }
    if PodOwnsPending(s, pod) && !stored {
      assert Pending(t, own) && OwnedBy(t, own, pod);
    }
  }

  /** Settling for good keeps the invariant exactly when the pod owns nothing pending. */
  lemma {:induction false} SettleKeepsInvExactly(s: State, pod: nat, outcome: Broker.Outcome)
    requires Inv(s) && InPhase(s, pod)
    ensures Inv(Settle(s, pod, outcome)) <==>
            outcome.Retry? || outcome.RetryLater? || OwnsNothingPending(s, pod)
  {
    var t := Settle(s, pod, outcome);
    if outcome.Retry? || outcome.RetryLater? || OwnsNothingPending(s, pod) {
      BrokerStepKeepsInv(s, t, Broker.Settle(pod, outcome));
    } else {
      var job :| Pending(s, job) && OwnedBy(s, job, pod);
      assert Pending(t, job);
      assert !Owned(t, job);
    }
  }

  lemma {:induction false} CheckKeepsInv(s: State, pod: nat, storeUp: bool)
    requires Inv(s) && Enabled(s, Check(pod, storeUp))
    ensures Inv(Next(s, Check(pod, storeUp)))
  {
    var copy := CopyOf(s, pod);
    var t := Next(s, Check(pod, storeUp));
    if t.broker == s.broker {
      forall job | Pending(t, job) ensures Owned(t, job) {
        assert Pending(s, job) && Owned(s, job);
        OwnerStays(s, t, job);
      }
    } else {
      if !(copy.body.Request? && !storeUp) {
        forall job | Pending(s, job) ensures !OwnedBy(s, job, pod) {
          assert Owned(s, job);
          if OwnedBy(s, job, pod) { NotJsonIsNobodysRequest(s, copy.id, job); assert false; }
        }
      }
      SettleKeepsInvExactly(s, pod,
        match copy.body
        case Request(_) => if !storeUp then Broker.RetryLater(60.0) else Broker.Ack
        case _ => Broker.DeadLetter);
    }
  }

  /** The handler's steps after the check. */
  lemma {:induction false} HandlerStepKeepsInvExactly(s: State, e: Event)
    requires Inv(s) && Enabled(s, e)
    requires e.CvDataUnreadable? || e.ProfileRaised? || e.WriteRunning? || e.ModelReplied?
    ensures Inv(Next(s, e)) <==> !Strands(s, e)
  {
    var pod := e.pod;
    var attempts := s.phases[pod].attempts;
    match e
    case ProfileRaised(_) => BrokerStepKeepsInv(s, Next(s, e), Broker.HandlerRaised(pod));
    case CvDataUnreadable(_, stored) =>
      EndKeepsInvExactly(s, pod, Failed, "", attempts, stored, Broker.DeadLetter);
    case WriteRunning(_, stored) =>
      WriteKeepsInv(s, pod, Running, "", attempts, stored);
      OnlyPhasesChange(Write(s, pod, Running, "", attempts, stored), Next(s, e));
    case ModelReplied(_, Deferred(delay), stored) =>
      WriteKeepsInv(s, pod, Queued, "", attempts, stored);
      SettleKeepsInvExactly(Write(s, pod, Queued, "", attempts, stored), pod, Broker.RetryLater(delay));
    case ModelReplied(_, Unwritable, stored) =>
      EndKeepsInvExactly(s, pod, Failed, "", attempts, stored, Broker.DeadLetter);
    case ModelReplied(_, Broke, stored) =>
      if attempts >= s.maxAttempts {
        EndKeepsInvExactly(s, pod, Failed, "", attempts, stored, Broker.DeadLetter);
      } else {
        WriteKeepsInv(s, pod, Failed, "", attempts, stored);
        SettleKeepsInvExactly(Write(s, pod, Failed, "", attempts, stored), pod, Broker.Retry);
      }
    case ModelReplied(_, Written(text), stored) =>
      EndKeepsInvExactly(s, pod, Completed, text, attempts, stored, Broker.Ack);
  }

  /** A terminal write followed by an ack. */
  lemma {:induction false} EndKeepsInvExactly(s: State, pod: nat, status: Status, text: string, attempts: nat,
                                              stored: bool,
                           outcome: Broker.Outcome)
    requires Inv(s) && InPhase(s, pod) && CopyOf(s, pod).body.Request?
    requires (status == Failed || status == Completed) && (outcome.Ack? || outcome.DeadLetter?)
    ensures Inv(Settle(Write(s, pod, status, text, attempts, stored), pod, outcome))
       <==> stored || !PodOwnsPending(s, pod)
  {
    WriteKeepsInv(s, pod, status, text, attempts, stored);
    TerminalWriteReleases(s, pod, status, text, attempts, stored);
    SettleKeepsInvExactly(Write(s, pod, status, text, attempts, stored), pod, outcome);
  }

  lemma {:induction false} OnlyPhasesChange(s: State, t: State)
    requires Inv(s) && t == s.(phases := t.phases)
    ensures Inv(t)
  {
    forall job | Pending(t, job) ensures Owned(t, job) {
      assert Pending(s, job) && Owned(s, job);
      OwnerStays(s, t, job);
    }
  }

  /** Every step keeps "the last writer of a pending status still owns a live request", except
      exactly the stranding ones. */
  lemma {:induction false} StepKeepsInvExactly(s: State, e: Event)
    requires Inv(s) && Enabled(s, e)
    ensures Inv(Next(s, e)) <==> !Strands(s, e)
  {
    match e
    case Check(pod, storeUp) => CheckKeepsInv(s, pod, storeUp);
    case CvDataUnreadable(_, _) => HandlerStepKeepsInvExactly(s, e);
    case ProfileRaised(_) => HandlerStepKeepsInvExactly(s, e);
    case WriteRunning(_, _) => HandlerStepKeepsInvExactly(s, e);
    case ModelReplied(_, _, _) => HandlerStepKeepsInvExactly(s, e);
    case Published(click) => PublishKeepsInv(s, click, Next(s, e));
    case LandedUnconfirmed(click) => PublishKeepsInv(s, click, Next(s, e));
    case Process(pod) => ProcessKeepsInv(s, pod);
    case OpenPod(pod) => BrokerStepKeepsInv(s, Next(s, e), Broker.Open(pod));
    case Deliver(pod, id) =>
      BrokerStepKeepsInv(s, OnBroker(s, Broker.Deliver(pod, id)), Broker.Deliver(pod, id));
      OnlyPhasesChange(OnBroker(s, Broker.Deliver(pod, id)), Next(s, e));
    case Undecodable(pod) => BrokerStepKeepsInv(s, Next(s, e), Broker.Undecodable(pod));
    case Expire(id) => BrokerStepKeepsInv(s, Next(s, e), Broker.Expire(id));
    case PodCrash(pod) => BrokerStepKeepsInv(s, Next(s, e), Broker.Crash(pod));
    case MarkFailed(click, _) =>
      if Strands(s, e) { StrandedRow(s, e, s.clicks[click].job); } else { BoardStepKeepsInv(s, e); }
    case BoardCrash(click) =>
      if Strands(s, e) { StrandedRow(s, e, s.clicks[click].job); } else { BoardStepKeepsInv(s, e); }
    case _ => BoardStepKeepsInv(s, e);
  }

  lemma {:induction false} StrandedRow(s: State, e: Event, job: JobId)
    requires Enabled(s, e) && Strands(s, e) && (e.MarkFailed? || e.BoardCrash?)
    requires job == s.clicks[e.click].job
    ensures !Inv(Next(s, e))
  {
    var t := Next(s, e);
    assert Pending(t, job) && !Owned(t, job);
  }

  /** No event of the run strands a row in the state it happens in. */
  ghost predicate NothingStrands(s: State, events: seq<Event>)
    decreases |events|
  {
    events != [] && Enabled(s, events[0]) ==>
      !Strands(s, events[0]) && NothingStrands(Next(s, events[0]), events[1..])
  }

  lemma {:induction false} InvOverRuns(s: State, events: seq<Event>, t: State)
    requires Inv(s) && IsRun(s, events, t) && NothingStrands(s, events)
    ensures Inv(t)
    decreases |events|
  {
    if events != [] {
      StepKeepsInvExactly(s, events[0]);
      InvOverRuns(Next(s, events[0]), events[1..], t);
    }
  }

  /** A cover-letter request is never lost: over any run that strands nothing - any number of pods,
      clicks, pod crashes, deferrals, redeliveries, unconfirmed publishes, lost `running` and
      deferral writes - every row that says `queued` or `running` has its message in the main queue,
      unacked or in a retry queue, or a board request that has not ended. */
  lemma {:induction false} NoRequestIsLost(jobs: set<JobId>, maxAttempts: int, events: seq<Event>, t: State, job: JobId)
    requires IsRun(Init(jobs, maxAttempts), events, t)
    requires NothingStrands(Init(jobs, maxAttempts), events)
    requires Pending(t, job)
    ensures OnItsWay(t, job)
  {
    InvOverRuns(Init(jobs, maxAttempts), events, t);
    assert Owned(t, job);
  }

  /** Store writes succeed and the board survives its requests. */
  predicate Dependable(e: Event) {
    match e
    case BoardCrash(_) => false
    case MarkFailed(_, stored) => stored
    case CvDataUnreadable(_, stored) => stored
    case WriteRunning(_, stored) => stored
    case ModelReplied(_, _, stored) => stored
    case _ => true
  }

  /** In particular nothing is lost when writes succeed and only consumers crash. */
  lemma {:induction false} DependableRunsStrandNothing(s: State, events: seq<Event>)
    requires forall e :: e in events ==> Dependable(e)
    ensures NothingStrands(s, events)
    decreases |events|
  {
    if events != [] && Enabled(s, events[0]) {
      assert Dependable(events[0]);
      DependableRunsStrandNothing(Next(s, events[0]), events[1..]);
    }
  }

  // ---------- the stranding steps are real ----------

  ghost predicate Lost(s: State, job: JobId) {
    Pending(s, job) && !OnItsWay(s, job)
  }

  /** The board dies between its claim and its publish: the row says `queued` for ever. */
  lemma {:induction false} BoardCrashLosesTheRequest(job: JobId)
    ensures exists t :: IsRun(Init({job}, 3), [Claim(0, job), BoardCrash(0)], t) && Lost(t, job)
  {
    var s0 := Init({job}, 3);
    var s1 := Next(s0, Claim(0, job));
    var s2 := Next(s1, BoardCrash(0));
    RunOfTwo(s0, Claim(0, job), BoardCrash(0));
    assert Lost(s2, job);
  }

  lemma {:induction false} RunOfTwo(s: State, a: Event, b: Event)
    requires Enabled(s, a) && Enabled(Next(s, a), b)
    ensures IsRun(s, [a, b], Next(Next(s, a), b))
  {
    assert [a, b][1..] == [b] && [b][1..] == [];
    assert IsRun(Next(Next(s, a), b), [], Next(Next(s, a), b));
    assert IsRun(Next(s, a), [b], Next(Next(s, a), b));
  }

  lemma {:induction false} OneMore(s: State, events: seq<Event>, t: State, e: Event)
    requires IsRun(s, events, t) && Enabled(t, e)
    ensures IsRun(s, events + [e], Next(t, e))
    decreases |events|
  {
    if events == [] {
      assert [e][1..] == [] && IsRun(Next(t, e), [], Next(t, e));
    } else {
      OneMore(Next(s, events[0]), events[1..], t, e);
      assert (events + [e])[1..] == events[1..] + [e];
    }
  }

  /** One letter asked for, its message queued, one pod open. */
  function OneQueued(job: JobId): State {
    State(Broker.State(map[0 := Broker.Placed(Broker.Main, Broker.Copy(0, 0, Request(job)))],
                       map[0 := Broker.Idle], 1, {0}, {}),
          {job}, map[job := Letter(Queued, "", 0)], map[], map[], map[job := ByCopy(0)], 3)
  }

  lemma {:induction false} OneQueuedIsReached(job: JobId)
    ensures IsRun(Init({job}, 3), [Claim(0, job), Published(0), OpenPod(0)], OneQueued(job))
  {
    var s0 := Init({job}, 3);
    var s1 := Next(s0, Claim(0, job));
    var s2 := Next(s1, Published(0));
    RunOfTwo(s0, Claim(0, job), Published(0));
    OneMore(s0, [Claim(0, job), Published(0)], s2, OpenPod(0));
    assert [Claim(0, job), Published(0)] + [OpenPod(0)] == [Claim(0, job), Published(0), OpenPod(0)];
    var t := Next(s2, OpenPod(0));
    assert t.clicks == map[] && t.broker.ready == OneQueued(job).broker.ready;
    assert t == OneQueued(job);
  }

  /** The state of one asked-for letter whose handler is waiting for the model. */
  lemma {:induction false} AskedForOneLetter(job: JobId) returns (events: seq<Event>, t: State)
    ensures IsRun(Init({job}, 3), events, t)
    ensures t.broker.channels == map[0 := Broker.Handling(Broker.Copy(0, 0, Request(job)))]
    ensures t.broker.ready == map[] && t.clicks == map[] && t.phases == map[0 := Asking(1)]
    ensures Pending(t, job) && t.jobs == {job}
  {
    var s0, s3 := Init({job}, 3), OneQueued(job);
    OneQueuedIsReached(job);
    events := [Claim(0, job), Published(0), OpenPod(0)];
    OneMore(s0, events, s3, Deliver(0, 0));
    var s4 := Next(s3, Deliver(0, 0));
    assert s4.broker.ready == map[];
    events := events + [Deliver(0, 0)];
    t := CheckedAndRunning(s0, events, s4, job);
    events := events + [Check(0, true)] + [WriteRunning(0, true)];
  }

  lemma {:induction false} CheckedAndRunning(s0: State, events: seq<Event>, s: State, job: JobId) returns (t: State)
    requires IsRun(s0, events, s) && s.jobs == {job} && s.phases == map[0 := Started]
    requires s.broker.channels == map[0 := Broker.Handling(Broker.Copy(0, 0, Request(job)))]
    requires s.letters == map[job := Letter(Queued, "", 0)]
    ensures IsRun(s0, events + [Check(0, true)] + [WriteRunning(0, true)], t)
    ensures t.broker == s.broker && t.clicks == s.clicks && t.phases == map[0 := Asking(1)]
    ensures Pending(t, job) && t.jobs == s.jobs
  {
    CheckPasses(s, job);
    var s5 := s.(phases := map[0 := Checked(1)]);
    RunningIsWritten(s5, job);
    t := Next(s5, WriteRunning(0, true));
    OneMore(s0, events, s, Check(0, true));
    OneMore(s0, events + [Check(0, true)], s5, WriteRunning(0, true));
  }

  lemma {:induction false} RunningIsWritten(s: State, job: JobId)
    requires s.jobs == {job} && s.phases == map[0 := Checked(1)]
    requires s.broker.channels == map[0 := Broker.Handling(Broker.Copy(0, 0, Request(job)))]
    requires s.letters == map[job := Letter(Queued, "", 0)]
    ensures Enabled(s, WriteRunning(0, true))
    ensures var t := Next(s, WriteRunning(0, true));
      && t.broker == s.broker && t.clicks == s.clicks && t.phases == map[0 := Asking(1)]
      && Pending(t, job) && t.jobs == s.jobs
  {
  }

  lemma {:induction false} CheckPasses(s: State, job: JobId)
    requires s.jobs == {job} && s.phases == map[0 := Started]
    requires s.broker.channels == map[0 := Broker.Handling(Broker.Copy(0, 0, Request(job)))]
    requires s.letters == map[job := Letter(Queued, "", 0)]
    ensures Enabled(s, Check(0, true)) && Next(s, Check(0, true)) == s.(phases := map[0 := Checked(1)])
  {
  }

  /** The letter is written but its `completed` write is lost: the message is acked all the same
      and the row says `running` for ever. */
  lemma {:induction false} LostCompletionLosesTheRequest(job: JobId)
    ensures exists events, t :: IsRun(Init({job}, 3), events, t) && Lost(t, job)
  {
    var events, t := LostCompletionRun(job);
  }

  lemma {:induction false} LostCompletionRun(job: JobId) returns (events: seq<Event>, t: State)
    ensures IsRun(Init({job}, 3), events, t) && Lost(t, job)
  {
    var asked, s := AskedForOneLetter(job);
    var reply := ModelReplied(0, Written("Hello,"), false);
    CompletionIsLost(s, job);
    TwoMore(Init({job}, 3), asked, s, reply, Process(0));
    events, t := asked + [reply] + [Process(0)], Next(Next(s, reply), Process(0));
  }

  lemma {:induction false} CompletionIsLost(s: State, job: JobId)
    requires s.broker.channels == map[0 := Broker.Handling(Broker.Copy(0, 0, Request(job)))]
    requires s.broker.ready == map[] && s.clicks == map[] && s.phases == map[0 := Asking(1)]
    requires Pending(s, job) && s.jobs == {job}
    ensures var reply := ModelReplied(0, Written("Hello,"), false);
      Enabled(s, reply) && Enabled(Next(s, reply), Process(0)) && Lost(Next(Next(s, reply), Process(0)), job)
  {
    CompletionIsNotStored(s, job);
    NothingOnItsWay(Next(Next(s, ModelReplied(0, Written("Hello,"), false)), Process(0)), job);
  }

  lemma {:induction false} TwoMore(s: State, events: seq<Event>, t: State, e: Event, f: Event)
    requires IsRun(s, events, t) && Enabled(t, e) && Enabled(Next(t, e), f)
    ensures IsRun(s, events + [e] + [f], Next(Next(t, e), f))
  {
    OneMore(s, events, t, e);
    OneMore(s, events + [e], Next(t, e), f);
  }

  lemma {:induction false} CompletionIsNotStored(s: State, job: JobId)
    requires s.broker.channels == map[0 := Broker.Handling(Broker.Copy(0, 0, Request(job)))]
    requires s.broker.ready == map[] && s.clicks == map[] && s.phases == map[0 := Asking(1)]
    requires Pending(s, job) && s.jobs == {job}
    ensures var reply := ModelReplied(0, Written("Hello,"), false);
      && Enabled(s, reply) && Enabled(Next(s, reply), Process(0))
      && (var t := Next(Next(s, reply), Process(0));
          && Pending(t, job) && t.clicks == map[] && t.broker.ready == map[]
          && t.broker.channels.Keys == {0} && t.broker.channels[0].Idle?)
  {
  }

  lemma {:induction false} NothingOnItsWay(t: State, job: JobId)
    requires Pending(t, job) && t.clicks == map[] && t.broker.ready == map[]
    requires t.broker.channels.Keys == {0} && t.broker.channels[0].Idle?
    ensures Lost(t, job)
  {
  }

  // ---------- the queue inside the protocol is the broker ----------

  /** Each protocol step is one broker step, or none. */
  lemma {:induction false} StepProjects(s: State, e: Event) returns (moves: seq<Broker.Event<Body>>)
    requires Enabled(s, e)
    ensures |moves| <= 1 && Broker.IsRun(s.broker, moves, Next(s, e).broker)
  {
    moves := [];
    match e {
      case Published(click) => moves := [Broker.ClientPublish(Request(s.clicks[click].job))];
      case LandedUnconfirmed(click) => moves := [Broker.ClientPublish(Request(s.clicks[click].job))];
      case OpenPod(pod) => moves := [Broker.Open(pod)];
      case Deliver(pod, id) => moves := [Broker.Deliver(pod, id)];
      case Undecodable(pod) => moves := [Broker.Undecodable(pod)];
      case Process(pod) => moves := [Broker.Process(pod)];
      case Expire(id) => moves := [Broker.Expire(id)];
      case PodCrash(pod) => moves := [Broker.Crash(pod)];
      case ProfileRaised(pod) => moves := [Broker.HandlerRaised(pod)];
      case Check(pod, storeUp) =>
        match CopyOf(s, pod).body {
          case Request(job) =>
            if !storeUp {
              moves := [Broker.Settle(pod, Broker.RetryLater(60.0))];
            } else if job !in s.jobs || AlreadyWritten(s.letters, job) {
              moves := [Broker.Settle(pod, Broker.Ack)];
            }
          case _ => moves := [Broker.Settle(pod, Broker.DeadLetter)];
        }
      case CvDataUnreadable(pod, _) => moves := [Broker.Settle(pod, Broker.DeadLetter)];
      case ModelReplied(pod, reply, _) => moves := [Broker.Settle(pod, OutcomeOf(s, pod, reply))];
      case _ =>
    }
    if moves != [] {
      assert moves[1..] == [];
      assert Broker.IsRun(Next(s, e).broker, [], Next(s, e).broker);
    }
  }

  function OutcomeOf(s: State, pod: nat, reply: Reply): Broker.Outcome
    requires pod in s.phases && s.phases[pod].Asking?
  {
    match reply
    case Deferred(delay) => Broker.RetryLater(delay)
    case Unwritable => Broker.DeadLetter
    case Broke => if s.phases[pod].attempts >= s.maxAttempts then Broker.DeadLetter else Broker.Retry
    case Written(_) => Broker.Ack
  }

  lemma {:induction false} RunProjects(s: State, events: seq<Event>, t: State)
    returns (moves: seq<Broker.Event<Body>>)
    requires IsRun(s, events, t)
    ensures Broker.IsRun(s.broker, moves, t.broker)
    decreases |events|
  {
    if events == [] {
      moves := [];
    } else {
      var first := StepProjects(s, events[0]);
      var rest := RunProjects(Next(s, events[0]), events[1..], t);
      moves := first + rest;
      if first != [] {
        assert first[1..] == [] && moves[0] == first[0] && moves[1..] == rest;
        assert Broker.IsRun(Broker.Next(s.broker, first[0]), first[1..], Next(s, events[0]).broker);
      } else {
        assert moves == rest;
      }
    }
  }

  /** So the broker's own guarantee holds in the protocol, stranding steps or not: a published
      request is around, or was acked after the handler returned ACK. */
  lemma {:induction false} NoPublishedRequestVanishes(jobs: set<JobId>, maxAttempts: int, events: seq<Event>,
                                                      t: State, origin: nat)
    requires IsRun(Init(jobs, maxAttempts), events, t) && origin in t.broker.published
    ensures origin in t.broker.acknowledged
         || exists c: Broker.Copy<Body> :: Broker.Present(t.broker, c) && c.origin == origin
  {
    var moves := RunProjects(Init(jobs, maxAttempts), events, t);
    Broker.NoMessageIsLost(moves, t.broker, origin);
  }

  // ---------- the handler as one procedure ----------

  /** What one delivery meets on its way through the handler. */
  datatype World = World(
    storeUp: bool, cvReadable: bool, profileReadable: bool, reply: Reply,
    runningStored: bool, lastStored: bool)

  datatype Result = Settled(outcome: Broker.Outcome) | Raised

  /** The rows and the vacancies the handler sees, one process at a time. */
  class LetterStore {
    var jobs: set<JobId>
    var letters: map<JobId, Letter>

    /** `write`: a failing store is logged, not raised. */
    method Write(job: JobId, status: Status, text: string, attempts: nat, stored: bool)
      modifies this`letters
      ensures letters == if stored && job in jobs then Upserted(old(letters), job, status, text, attempts)
                         else old(letters)
    {
      if stored && job in jobs {
        letters := Upserted(letters, job, status, text, attempts);
      }
    }

    /** `handle_delivery` of `cover.py`. */
    method HandleDelivery(body: Body, maxAttempts: int, world: World) returns (result: Result)
      requires !body.NotJson?
      modifies this`letters
      ensures (letters, result) == Handled(jobs, old(letters), body, maxAttempts, world)
    {
      if body.InvalidPayload? {
        return Settled(Broker.DeadLetter);
      }
      var job := body.job;
      if !world.storeUp {
        return Settled(Broker.RetryLater(60.0));
      }
      if job !in jobs {
        return Settled(Broker.Ack);
      }
      if AlreadyWritten(letters, job) {
        return Settled(Broker.Ack);
      }
      var attempts := AttemptOf(letters, job);
      if !world.cvReadable {
        Write(job, Failed, "", attempts, world.lastStored);
        return Settled(Broker.DeadLetter);
      }
      if !world.profileReadable {
        return Raised;
      }
      Write(job, Running, "", attempts, world.runningStored);
      match world.reply {
        case Deferred(delay) =>
          Write(job, Queued, "", attempts, world.lastStored);
          return Settled(Broker.RetryLater(delay));
        case Unwritable =>
          Write(job, Failed, "", attempts, world.lastStored);
          return Settled(Broker.DeadLetter);
        case Broke =>
          Write(job, Failed, "", attempts, world.lastStored);
          if attempts >= maxAttempts {
            return Settled(Broker.DeadLetter);
          }
          return Settled(Broker.Retry);
        case Written(text) =>
          Write(job, Completed, text, attempts, world.lastStored);
          return Settled(Broker.Ack);
      }
    }
  }

  function Stored(jobs: set<JobId>, letters: map<JobId, Letter>, job: JobId, status: Status, text: string,
                  attempts: nat, stored: bool): map<JobId, Letter> {
    if stored && job in jobs then Upserted(letters, job, status, text, attempts) else letters
  }

  /** The rows and the result of one uninterrupted delivery. */
  function Handled(jobs: set<JobId>, letters: map<JobId, Letter>, body: Body, maxAttempts: int, world: World)
    : (map<JobId, Letter>, Result)
    requires !body.NotJson?
  {
    if body.InvalidPayload? then (letters, Settled(Broker.DeadLetter))
    else if !world.storeUp then (letters, Settled(Broker.RetryLater(60.0)))
    else if body.job !in jobs || AlreadyWritten(letters, body.job) then (letters, Settled(Broker.Ack))
    else
      var job, attempts := body.job, AttemptOf(letters, body.job);
      if !world.cvReadable then
        (Stored(jobs, letters, job, Failed, "", attempts, world.lastStored), Settled(Broker.DeadLetter))
      else if !world.profileReadable then (letters, Raised)
      else
        var running := Stored(jobs, letters, job, Running, "", attempts, world.runningStored);
        match world.reply
        case Deferred(delay) =>
          (Stored(jobs, running, job, Queued, "", attempts, world.lastStored), Settled(Broker.RetryLater(delay)))
        case Unwritable =>
          (Stored(jobs, running, job, Failed, "", attempts, world.lastStored), Settled(Broker.DeadLetter))
        case Broke =>
          (Stored(jobs, running, job, Failed, "", attempts, world.lastStored),
           Settled(if attempts >= maxAttempts then Broker.DeadLetter else Broker.Retry))
        case Written(text) =>
          (Stored(jobs, running, job, Completed, text, attempts, world.lastStored), Settled(Broker.Ack))
  }

  /** The sub-steps of the protocol that make up one uninterrupted delivery. */
  function Script(s: State, pod: nat, world: World): seq<Event>
    requires InPhase(s, pod)
  {
    var body := CopyOf(s, pod).body;
    if body.InvalidPayload? || !world.storeUp || body.job !in s.jobs || AlreadyWritten(s.letters, body.job) then
      [Check(pod, world.storeUp)]
    else if !world.cvReadable then [Check(pod, true), CvDataUnreadable(pod, world.lastStored)]
    else if !world.profileReadable then [Check(pod, true), ProfileRaised(pod)]
    else [Check(pod, true), WriteRunning(pod, world.runningStored),
          ModelReplied(pod, world.reply, world.lastStored)]
  }

  function ResultCommands(result: Result): seq<Broker.Command> {
    match result
    case Settled(outcome) => Broker.SettleCommands(outcome)
    case Raised => [Broker.NackRequeue]
  }

  /** `t` is what the uninterrupted procedure leaves of `s`: its rows, and the commands of its
      result on the pod's channel. */
  ghost predicate LeftBy(s: State, pod: nat, world: World, t: State)
    requires InPhase(s, pod)
  {
    var (letters, result) := Handled(s.jobs, s.letters, CopyOf(s, pod).body, s.maxAttempts, world);
    && t.letters == letters
    && pod in t.broker.channels
    && t.broker.channels[pod] ==
       Broker.Settling(CopyOf(s, pod), ResultCommands(result), result == Settled(Broker.Ack))
  }

  /** The procedure is the protocol without interruptions: running its sub-steps back to back
      leaves the rows the procedure leaves and sends the commands of its result. */
  lemma {:induction false} HandlerIsItsScript(s: State, pod: nat, world: World)
    requires InPhase(s, pod) && s.phases[pod].Started?
    requires world.reply.Written? ==> world.reply.text != ""
    ensures exists t :: IsRun(s, Script(s, pod, world), t) && LeftBy(s, pod, world, t)
  {
    if |Script(s, pod, world)| == 1 {
      CheckedAndDone(s, pod, world);
    } else if |Script(s, pod, world)| == 2 {
      StoppedBeforeTheModel(s, pod, world);
    } else {
      FullScript(s, pod, world);
    }
  }

  lemma {:induction false} CheckedAndDone(s: State, pod: nat, world: World)
    requires InPhase(s, pod) && s.phases[pod].Started? && |Script(s, pod, world)| == 1
    ensures exists t :: IsRun(s, Script(s, pod, world), t) && LeftBy(s, pod, world, t)
  {
    var script := Script(s, pod, world);
    var t := Next(s, script[0]);
    assert script[1..] == [] && IsRun(t, [], t);
    assert LeftBy(s, pod, world, t);
  }

  lemma {:induction false} StoppedBeforeTheModel(s: State, pod: nat, world: World)
    requires InPhase(s, pod) && s.phases[pod].Started? && |Script(s, pod, world)| == 2
    ensures exists t :: IsRun(s, Script(s, pod, world), t) && LeftBy(s, pod, world, t)
  {
    var script := Script(s, pod, world);
    RunOfTwo(s, script[0], script[1]);
    assert script == [script[0], script[1]];
    assert LeftBy(s, pod, world, Next(Next(s, script[0]), script[1]));
  }

  lemma {:induction false} FullScript(s: State, pod: nat, world: World)
    requires InPhase(s, pod) && s.phases[pod].Started? && |Script(s, pod, world)| == 3
    requires world.reply.Written? ==> world.reply.text != ""
    ensures exists t :: IsRun(s, Script(s, pod, world), t) && LeftBy(s, pod, world, t)
  {
    var script := Script(s, pod, world);
    var attempts := AttemptOf(s.letters, CopyOf(s, pod).body.job);
    var s1 := s.(phases := s.phases[pod := Checked(attempts)]);
    ScriptChecks(s, pod, world);
    var s2 := ScriptRuns(s, s1, pod, world, attempts);
    var t := Next(s2, script[2]);
    RunOfTwo(s1, script[1], script[2]);
    assert script[1..] == [script[1], script[2]];
    assert IsRun(s, script, t);
    ReplyIsLeft(s, s2, pod, world, t);
  }

  lemma {:induction false} ScriptChecks(s: State, pod: nat, world: World)
    requires InPhase(s, pod) && s.phases[pod].Started? && |Script(s, pod, world)| == 3
    ensures var script, attempts := Script(s, pod, world), AttemptOf(s.letters, CopyOf(s, pod).body.job);
      Enabled(s, script[0]) && Next(s, script[0]) == s.(phases := s.phases[pod := Checked(attempts)])
  {
  }

  lemma {:induction false} ScriptRuns(s: State, s1: State, pod: nat, world: World, attempts: nat) returns (s2: State)
    requires InPhase(s, pod) && s.phases[pod].Started? && |Script(s, pod, world)| == 3
    requires s1 == s.(phases := s.phases[pod := Checked(attempts)])
    requires world.reply.Written? ==> world.reply.text != ""
    ensures var script := Script(s, pod, world);
      Enabled(s1, script[1]) && s2 == Next(s1, script[1]) && Enabled(s2, script[2])
    ensures InPhase(s2, pod) && s2.phases[pod] == Asking(attempts)
    ensures s2.broker == s.broker && s2.jobs == s.jobs && s2.maxAttempts == s.maxAttempts
    ensures s2.letters
         == Stored(s.jobs, s.letters, CopyOf(s, pod).body.job, Running, "", attempts, world.runningStored)
    ensures Next(s2, Script(s, pod, world)[2]) == ReplyStep(s2, pod, world.reply, world.lastStored)
  {
    s2 := Write(s1, pod, Running, "", attempts, world.runningStored).(phases := s1.phases[pod := Asking(attempts)]);
  }

  lemma {:induction false} ReplyIsLeft(s: State, s2: State, pod: nat, world: World, t: State)
    requires InPhase(s, pod) && s.phases[pod].Started? && |Script(s, pod, world)| == 3
    requires var attempts := AttemptOf(s.letters, CopyOf(s, pod).body.job);
      && InPhase(s2, pod) && s2.phases[pod] == Asking(attempts)
      && s2.broker == s.broker && s2.jobs == s.jobs && s2.maxAttempts == s.maxAttempts
      && s2.letters == Stored(s.jobs, s.letters, CopyOf(s, pod).body.job, Running, "", attempts, world.runningStored)
    requires t == ReplyStep(s2, pod, world.reply, world.lastStored)
    ensures LeftBy(s, pod, world, t)
  {
    var job, attempts := CopyOf(s, pod).body.job, s2.phases[pod].attempts;
    match world.reply
    case Deferred(delay) =>
      LastWrite(s2, pod, Queued, "", attempts, world.lastStored, Broker.RetryLater(delay));
    case Unwritable =>
      LastWrite(s2, pod, Failed, "", attempts, world.lastStored, Broker.DeadLetter);
    case Broke =>
      LastWrite(s2, pod, Failed, "", attempts, world.lastStored,
                if attempts >= s.maxAttempts then Broker.DeadLetter else Broker.Retry);
    case Written(text) =>
      LastWrite(s2, pod, Completed, text, attempts, world.lastStored, Broker.Ack);
  }

  lemma {:induction false} LastWrite(s: State, pod: nat, status: Status, text: string, attempts: nat, stored: bool,
                  outcome: Broker.Outcome)
    requires InPhase(s, pod) && CopyOf(s, pod).body.Request?
    ensures var t := Settle(Write(s, pod, status, text, attempts, stored), pod, outcome);
      && t.letters == Stored(s.jobs, s.letters, CopyOf(s, pod).body.job, status, text, attempts, stored)
      && pod in t.broker.channels
      && t.broker.channels[pod] ==
         Broker.Settling(CopyOf(s, pod), Broker.SettleCommands(outcome), outcome == Broker.Ack)
  {
  }

  // ---------- the board as one procedure ----------

  /** What the caller of `requestCoverLetter` sees; a failing store is thrown at it. */
  datatype BoardOutcome = AlreadyAsked | Busy | QueuedUp | RequestFailed | Threw

  datatype Claiming = Took | Refuses | ClaimThrew

  /** What the broker answers a publish: confirmed, taken but not confirmed, or refused. */
  datatype Confirm = Confirmed | Landed | NotTaken

  /** Whether the store answers the lookup, the claim, and the write after a failed publish. */
  datatype BoardWorld = BoardWorld(lookupUp: bool, claimUp: bool, failStored: bool, confirm: Confirm)

  class Board {
    var jobs: set<JobId>
    var letters: map<JobId, Letter>
    var published: seq<JobId>

    /** Rows hang off their vacancies. */
    ghost predicate Valid()
      reads this
    {
      letters.Keys <= jobs
    }

    constructor (jobs: set<JobId>)
      ensures Valid() && this.jobs == jobs && letters == map[] && published == []
    {
      this.jobs, letters, published := jobs, map[], [];
    }

    /** `markCoverRequested`: refused exactly while the row says `running`; a failing store throws, and so
        does, on the foreign key, a claim for a removed vacancy. */
    method MarkCoverRequested(job: JobId, up: bool) returns (claim: Claiming)
      requires Valid()
      modifies this`letters
      ensures Valid()
      ensures claim == ClaimThrew <==> !up || job !in jobs
      ensures claim == Refuses <==> up && job in old(letters) && old(letters)[job].status == Running
      ensures letters == if claim == Took then Requested(old(letters), job, Queued) else old(letters)
    {
      if !up || (job !in letters && job !in jobs) {
        return ClaimThrew;
      }
      if job in letters && letters[job].status == Running {
        return Refuses;
      }
      letters := Requested(letters, job, Queued);
      return Took;
    }

    /** `requestCoverLetter`: claim, publish, mark failed when the broker did not confirm. */
    method RequestCoverLetter(job: JobId, onlyIfMissing: bool, world: BoardWorld)
      returns (outcome: BoardOutcome)
      requires Valid()
      modifies this`letters, this`published
      ensures Valid()
      ensures outcome == Threw <==>
                if onlyIfMissing && !world.lookupUp then true
                else outcome != AlreadyAsked && (!world.claimUp || job !in jobs)
      ensures outcome == AlreadyAsked <==>
                onlyIfMissing && world.lookupUp && job in old(letters) && old(letters)[job].status != Failed
      ensures outcome in {AlreadyAsked, Busy, Threw} ==> letters == old(letters) && published == old(published)
      ensures outcome == Busy <==>
                outcome !in {Threw, AlreadyAsked} && job in old(letters) && old(letters)[job].status == Running
      ensures outcome == QueuedUp ==>
                && letters == Requested(old(letters), job, Queued) && world.confirm == Confirmed
                && published == old(published) + [job]
      ensures outcome == RequestFailed ==>
                && world.confirm != Confirmed
                && letters == Requested(old(letters), job, if world.failStored then Failed else Queued)
                && published == old(published) + (if world.confirm == Landed then [job] else [])
    {
      if onlyIfMissing {
        if !world.lookupUp {
          return Threw;
        }
        if !CoverNeeded(letters, job) {
          return AlreadyAsked;
        }
      }
      var claim := MarkCoverRequested(job, world.claimUp);
      if claim != Took {
        return if claim == Refuses then Busy else Threw;
      }
      if world.confirm != NotTaken {
        published := published + [job];
      }
      if world.confirm == Confirmed {
        return QueuedUp;
      }
      if world.failStored {
        letters := Requested(letters, job, Failed);
      }
      return RequestFailed;
    }
  }

  /** The row with the board's status; text and attempts stay. */
  function Requested(letters: map<JobId, Letter>, job: JobId, status: Status): map<JobId, Letter> {
    letters[job := (if job in letters then letters[job] else Letter(status, "", 0)).(status := status)]
  }

  /** The board's writes set the status of one row and keep its text and attempts; a new row has neither. */
  lemma {:induction false} RequestKeepsTheLetter(letters: map<JobId, Letter>, job: JobId, status: Status)
    ensures var t := Requested(letters, job, status);
      && t.Keys == letters.Keys + {job} && t[job].status == status
      && (forall other :: other in letters && other != job ==> t[other] == letters[other])
      && (if job in letters then t[job].text == letters[job].text && t[job].attempts == letters[job].attempts
          else t[job].text == "" && t[job].attempts == 0)
  {
  }

  /** A claim for a vacancy that is there is refused exactly while its row says `running`. */
  lemma {:induction false} ClaimIsRefusedExactly(s: State, click: nat, job: JobId)
    requires click !in s.clicks && job in s.jobs
    ensures !Enabled(s, Claim(click, job)) <==> job in s.letters && s.letters[job].status == Running
  {
  }

  /** The claim and the failed mark of the protocol are those writes, and a publish brings one message for the
      job into the main queue. */
  lemma {:induction false} BoardStepsAreTheRequest(s: State, e: Event)
    requires Enabled(s, e) && (e.Claim? || e.Published? || e.LandedUnconfirmed? || e.PublishFailed? || e.MarkFailed?)
    ensures var t, job := Next(s, e), if e.Claim? then e.job else s.clicks[e.click].job;
      && t.letters == (if e.Claim? then Requested(s.letters, job, Queued)
                       else if e.MarkFailed? && e.stored && job in s.jobs then Requested(s.letters, job, Failed)
                       else s.letters)
      && t.broker.ready == (if e.Published? || e.LandedUnconfirmed? then
                              s.broker.ready[s.broker.nextId :=
                                Broker.Placed(Broker.Main, Broker.Copy(s.broker.nextId, s.broker.nextId, Request(job)))]
                            else s.broker.ready)
  {
  }

  /** `coverNeeded`: nothing there, or the last attempt failed. */
  predicate CoverNeeded(letters: map<JobId, Letter>, job: JobId) {
    job !in letters || letters[job].status == Failed
  }
}

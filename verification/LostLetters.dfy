/** When exactly a cover-letter request is lost (`cover.py`, `coverRequest.ts`): the row says that the letter
    is on its way, and no message or board request stands behind it any more. */
module LostLetters {
  import Broker
  import opened CoverLetter

  // ---------- sources of a request ----------

  ghost predicate Live(s: State, job: JobId) {
    exists id :: LiveCopy(s, id, job)
  }

  ghost predicate Clicked(s: State, job: JobId) {
    exists click :: click in s.clicks && s.clicks[click].job == job
  }

  /** Another copy than this one asks for the job. */
  ghost predicate LiveBeside(s: State, than: nat, job: JobId) {
    exists id :: id != than && LiveCopy(s, id, job)
  }

  ghost predicate ClickedBeside(s: State, than: nat, job: JobId) {
    exists click :: click != than && click in s.clicks && s.clicks[click].job == job
  }

  /** What a settling channel may still have sent. */
  predicate Tidy(commands: seq<Broker.Command>) {
    || commands == [Broker.AckDelivery]
    || commands == [Broker.NackRequeue]
    || (|commands| == 2 && commands[0].Publish? && commands[1] == Broker.AckDelivery)
  }

  /** What every run keeps, whatever it strands. */
  ghost predicate Base(s: State) {
    && Broker.Distinct(s.broker)
    && s.letters.Keys <= s.jobs
    && forall pod :: pod in s.broker.channels && s.broker.channels[pod].Settling? ==>
         Tidy(s.broker.channels[pod].commands)
  }

  // ---------- the steps that lose a request, and those that bring it back ----------

  /** The board request ends without a message, and nothing else stands behind the pending row. */
  ghost predicate EndsLastClick(s: State, click: nat, job: JobId)
    requires click in s.clicks
  {
    s.clicks[click].job == job && Pending(s, job) && !Live(s, job) && !ClickedBeside(s, click, job)
  }

  /** The handler's message is settled for good, and nothing else stands behind the pending row. */
  ghost predicate EndsLastCopy(s: State, pod: nat, job: JobId)
    requires InPhase(s, pod)
  {
    && CopyOf(s, pod).body == Request(job) && Pending(s, job)
    && !LiveBeside(s, CopyOf(s, pod).id, job) && !Clicked(s, job)
  }

  predicate IsFinal(outcome: Broker.Outcome) {
    outcome.Ack? || outcome.DeadLetter?
  }

  /** The step loses the request: the board dies or its `failed` is not stored, or the handler's last
      status is not stored although its message is settled for good, and that was the last source. */
  ghost predicate Loses(s: State, e: Event, job: JobId)
    requires Enabled(s, e)
  {
    match e
    case BoardCrash(click) => EndsLastClick(s, click, job)
    case MarkFailed(click, stored) => !stored && EndsLastClick(s, click, job)
    case CvDataUnreadable(pod, stored) => !stored && EndsLastCopy(s, pod, job)
    case ModelReplied(pod, reply, stored) =>
      !stored && IsFinal(OutcomeOf(s, pod, reply)) && EndsLastCopy(s, pod, job)
    case _ => false
  }

  /** The step ends a loss: the row is claimed again or goes with its vacancy, or a pod dies whose settled
      message had not been acknowledged yet. */
  predicate Renews(s: State, e: Event, job: JobId)
    requires Enabled(s, e)
  {
    match e
    case Claim(_, claimed) => claimed == job
    case RemoveVacancy(removed) => removed == job
    case PodCrash(pod) => CopyOf(s, pod).body == Request(job)
    case _ => false
  }

  // ---------- what the queue does to the live copies ----------

  /** A live copy comes from a live copy, from a publish, or from the hands of a dead pod. */
  lemma {:induction false} LiveComesFrom(s: State, t: State, e: Broker.Event<Body>, id: nat, job: JobId)
    requires Base(s) && Broker.Enabled(s.broker, e) && t.broker == Broker.Next(s.broker, e) && LiveCopy(t, id, job)
    ensures LiveCopy(s, id, job)
         || (e.ClientPublish? && e.body == Request(job))
         || (e.Crash? && s.broker.channels[e.pod].copy.body == Request(job))
         || (e.Process? && LiveCopy(s, s.broker.channels[e.pod].copy.id, job))
  {
    if id in t.broker.ready && t.broker.ready[id].queue != Broker.Dlq && t.broker.ready[id].copy.body == Request(job) {
      QueuedComesFrom(s, t, e, id, job);
    } else {
      var pod :| KeptBy(t, pod, id, job);
      HeldComesFrom(s, t, e, pod, id, job);
    }
  }

  lemma {:induction false} QueuedComesFrom(s: State, t: State, e: Broker.Event<Body>, id: nat, job: JobId)
    requires Base(s) && Broker.Enabled(s.broker, e) && t.broker == Broker.Next(s.broker, e)
    requires id in t.broker.ready && t.broker.ready[id].queue != Broker.Dlq
    requires t.broker.ready[id].copy.body == Request(job)
    ensures LiveCopy(s, id, job)
         || (e.ClientPublish? && e.body == Request(job))
         || (e.Crash? && s.broker.channels[e.pod].copy.body == Request(job))
         || (e.Process? && LiveCopy(s, s.broker.channels[e.pod].copy.id, job))
  {
    if e.Process? && !(id in s.broker.ready && s.broker.ready[id] == t.broker.ready[id]) {
      assert Tidy(s.broker.channels[e.pod].commands);
      assert KeptBy(s, e.pod, s.broker.channels[e.pod].copy.id, job);
    }
  }

  lemma {:induction false} HeldComesFrom(s: State, t: State, e: Broker.Event<Body>, pod: nat, id: nat, job: JobId)
    requires Base(s) && Broker.Enabled(s.broker, e) && t.broker == Broker.Next(s.broker, e)
    requires KeptBy(t, pod, id, job)
    ensures LiveCopy(s, id, job)
  {
    if e.Process? {
      ProcessedKeepsNothing(s, t, e.pod);
    }
    if e.Deliver? && e.pod == pod {
      assert id in s.broker.ready;
    } else {
      assert KeptBy(s, pod, id, job);
    }
  }

  /** Once the queue has processed its commands a pod keeps no copy. */
  lemma {:induction false} ProcessedKeepsNothing(s: State, t: State, pod: nat)
    requires Base(s) && Broker.Enabled(s.broker, Broker.Process(pod))
    requires t.broker == Broker.Next(s.broker, Broker.Process(pod))
    ensures forall id, job :: !KeptBy(t, pod, id, job)
  {
    assert Tidy(s.broker.channels[pod].commands);
  }

  /** The step settles a copy of this request for good. */
  predicate SettlesForGood(s: State, e: Broker.Event<Body>, job: JobId)
    requires Broker.Enabled(s.broker, e)
  {
    e.Settle? && IsFinal(e.outcome) && s.broker.channels[e.pod].copy.body == Request(job)
  }

  /** A live copy goes on, perhaps as a new one, unless it is settled for good. */
  lemma {:induction false} LiveGoesOn(s: State, t: State, e: Broker.Event<Body>, id: nat, job: JobId)
    requires Base(s) && Broker.Enabled(s.broker, e) && t.broker == Broker.Next(s.broker, e) && LiveCopy(s, id, job)
    requires e.Undecodable? ==> s.broker.channels[e.pod].copy.body == NotJson
    requires SettlesForGood(s, e, job) ==> s.broker.channels[e.pod].copy.id != id
    ensures Live(t, job)
  {
    NotJsonIsNobodysRequest(s, id, job);
    if e.Process? && s.broker.channels[e.pod].copy.id == id {
      ProcessedGoesOn(s, t, e.pod, id, job);
    } else {
      LiveCopyIsKept(s, t, id, job, e);
    }
  }

  lemma {:induction false} ProcessedGoesOn(s: State, t: State, pod: nat, id: nat, job: JobId)
    requires Base(s) && Broker.Enabled(s.broker, Broker.Process(pod)) && LiveCopy(s, id, job)
    requires t.broker == Broker.Next(s.broker, Broker.Process(pod)) && s.broker.channels[pod].copy.id == id
    ensures Live(t, job)
  {
    var p :| KeptBy(s, p, id, job);
    assert p == pod && Tidy(s.broker.channels[pod].commands);
    if s.broker.channels[pod].commands[0].NackRequeue? {
      assert LiveCopy(t, id, job);
    } else {
      assert LiveCopy(t, s.broker.nextId, job);
    }
  }

  /** The live copies of a request, over a step of the queue. */
  lemma {:induction false} LiveExactly(s: State, t: State, e: Broker.Event<Body>, job: JobId)
    requires Base(s) && Broker.Enabled(s.broker, e) && t.broker == Broker.Next(s.broker, e)
    requires e.Undecodable? ==> s.broker.channels[e.pod].copy.body == NotJson
    requires !SettlesForGood(s, e, job)
    ensures Live(t, job) <==> Live(s, job)
                              || (e.ClientPublish? && e.body == Request(job))
                              || (e.Crash? && s.broker.channels[e.pod].copy.body == Request(job))
  {
    if Live(s, job) {
      var id :| LiveCopy(s, id, job);
      LiveGoesOn(s, t, e, id, job);
    } else if e.ClientPublish? && e.body == Request(job) {
      assert LiveCopy(t, s.broker.nextId, job);
    } else if e.Crash? && s.broker.channels[e.pod].copy.body == Request(job) {
      assert LiveCopy(t, s.broker.channels[e.pod].copy.id, job);
    } else if Live(t, job) {
      var id :| LiveCopy(t, id, job);
      LiveComesFrom(s, t, e, id, job);
    }
  }

  /** Settling a request for good leaves the other copies. */
  lemma {:induction false} LiveAfterTheEnd(s: State, t: State, pod: nat, outcome: Broker.Outcome, job: JobId)
    requires Base(s) && InPhase(s, pod) && IsFinal(outcome) && CopyOf(s, pod).body == Request(job)
    requires t.broker == Broker.Next(s.broker, Broker.Settle(pod, outcome))
    ensures Live(t, job) <==> LiveBeside(s, CopyOf(s, pod).id, job)
  {
    var e := Broker.Settle(pod, outcome);
    if LiveBeside(s, CopyOf(s, pod).id, job) {
      var id :| id != CopyOf(s, pod).id && LiveCopy(s, id, job);
      LiveGoesOn(s, t, e, id, job);
    }
    if Live(t, job) {
      var id :| LiveCopy(t, id, job);
      LiveComesFrom(s, t, e, id, job);
      SettledIsNotLive(s, t, pod, outcome, job);
      assert id != CopyOf(s, pod).id;
    }
  }

  lemma {:induction false} SettledIsNotLive(s: State, t: State, pod: nat, outcome: Broker.Outcome, job: JobId)
    requires Base(s) && InPhase(s, pod) && IsFinal(outcome)
    requires t.broker == Broker.Next(s.broker, Broker.Settle(pod, outcome))
    ensures !LiveCopy(t, CopyOf(s, pod).id, job)
  {
    var id := CopyOf(s, pod).id;
    assert id !in t.broker.ready;
    forall p
      ensures !KeptBy(t, p, id, job)
    {
      if p in t.broker.channels && p != pod {
        assert t.broker.channels[p] == s.broker.channels[p];
      }
    }
  }

  lemma {:induction false} SameBrokerSameLive(s: State, t: State, job: JobId)
    requires s.broker == t.broker
    ensures Live(t, job) <==> Live(s, job)
  {
    SameBrokerSameCopies(s, t, job);
    SameBrokerSameCopies(t, s, job);
  }

  // ---------- one step ----------

  ghost predicate StepIsExact(s: State, e: Event, job: JobId)
    requires Enabled(s, e)
  {
    Lost(Next(s, e), job) <==> (Lost(s, job) && !Renews(s, e, job)) || Loses(s, e, job)
  }

  lemma {:induction false} LostIsWithoutSource(s: State, job: JobId)
    ensures Lost(s, job) <==> Pending(s, job) && !Live(s, job) && !Clicked(s, job)
  {
  }

  /** Steps in which only the queue moves. */
  lemma {:induction false} QueueStepIsExact(s: State, e: Event, move: Broker.Event<Body>, job: JobId)
    requires Base(s) && Enabled(s, e) && Broker.Enabled(s.broker, move)
    requires Next(s, e).broker == Broker.Next(s.broker, move)
    requires Next(s, e).letters == s.letters && Next(s, e).clicks == s.clicks
    requires move.Undecodable? ==> s.broker.channels[move.pod].copy.body == NotJson
    requires !move.ClientPublish? && (Pending(s, job) ==> !SettlesForGood(s, move, job))
    requires move.Crash? <==> e.PodCrash?
    requires e.PodCrash? ==> move.pod == e.pod
    requires !Loses(s, e, job) && (Renews(s, e, job) ==> e.PodCrash?)
    ensures StepIsExact(s, e, job)
  {
    LostIsWithoutSource(s, job);
    LostIsWithoutSource(Next(s, e), job);
    if Pending(s, job) {
      LiveExactly(s, Next(s, e), move, job);
    }
  }

  lemma {:induction false} ConsumerStepIsExact(s: State, e: Event, job: JobId)
    requires Base(s) && Enabled(s, e)
    requires e.OpenPod? || e.Deliver? || e.Undecodable? || e.Process? || e.Expire? || e.PodCrash? || e.ProfileRaised?
    ensures StepIsExact(s, e, job)
  {
    match e
    case OpenPod(pod) => QueueStepIsExact(s, e, Broker.Open(pod), job);
    case Deliver(pod, id) => QueueStepIsExact(s, e, Broker.Deliver(pod, id), job);
    case Expire(id) => QueueStepIsExact(s, e, Broker.Expire(id), job);
    case Process(_) => ProcessIsExact(s, e, job);
    case PodCrash(_) => ProcessIsExact(s, e, job);
    case Undecodable(_) => RaisedIsExact(s, e, job);
    case ProfileRaised(_) => RaisedIsExact(s, e, job);
  }

  lemma {:induction false} ProcessIsExact(s: State, e: Event, job: JobId)
    requires Base(s) && Enabled(s, e) && (e.Process? || e.PodCrash?)
    ensures StepIsExact(s, e, job)
  {
    if e.Process? {
      QueueStepIsExact(s, e, Broker.Process(e.pod), job);
    } else {
      QueueStepIsExact(s, e, Broker.Crash(e.pod), job);
    }
  }

  lemma {:induction false} RaisedIsExact(s: State, e: Event, job: JobId)
    requires Base(s) && Enabled(s, e) && (e.Undecodable? || e.ProfileRaised?)
    ensures StepIsExact(s, e, job)
  {
    if e.Undecodable? {
      QueueStepIsExact(s, e, Broker.Undecodable(e.pod), job);
    } else {
      QueueStepIsExact(s, e, Broker.HandlerRaised(e.pod), job);
    }
  }

  lemma {:induction false} CheckIsExact(s: State, pod: nat, storeUp: bool, job: JobId)
    requires Base(s) && Enabled(s, Check(pod, storeUp))
    ensures StepIsExact(s, Check(pod, storeUp), job)
  {
    var e := Check(pod, storeUp);
    var body := CopyOf(s, pod).body;
    if Next(s, e).broker == s.broker {
      SameBrokerSameLive(s, Next(s, e), job);
      LostIsWithoutSource(s, job);
      LostIsWithoutSource(Next(s, e), job);
    } else if body.Request? {
      QueueStepIsExact(s, e, Broker.Settle(pod, if storeUp then Broker.Ack else Broker.RetryLater(60.0)), job);
    } else {
      QueueStepIsExact(s, e, Broker.Settle(pod, Broker.DeadLetter), job);
    }
  }

  /** A publish makes the request live. */
  lemma {:induction false} PublishIsExact(s: State, e: Event, job: JobId)
    requires Base(s) && Enabled(s, e) && (e.Published? || e.LandedUnconfirmed?)
    ensures StepIsExact(s, e, job)
  {
    var t := Next(s, e);
    LiveExactly(s, t, Broker.ClientPublish(Request(s.clicks[e.click].job)), job);
    LostIsWithoutSource(s, job);
    LostIsWithoutSource(t, job);
    if s.clicks[e.click].job != job {
      OtherClicksStay(s, t, e.click, job);
    }
  }

  /** Only this click changed, and it is not for the job. */
  lemma {:induction false} OtherClicksStay(s: State, t: State, click: nat, job: JobId)
    requires forall c :: c != click ==> (c in t.clicks <==> c in s.clicks)
    requires forall c :: c != click && c in s.clicks ==> t.clicks[c] == s.clicks[c]
    requires click in s.clicks ==> s.clicks[click].job != job
    requires click in t.clicks ==> t.clicks[click].job != job
    ensures Clicked(t, job) <==> Clicked(s, job)
  {
    if Clicked(s, job) {
      var c :| c in s.clicks && s.clicks[c].job == job;
      assert c in t.clicks && t.clicks[c].job == job;
    }
    if Clicked(t, job) {
      var c :| c in t.clicks && t.clicks[c].job == job;
      assert c in s.clicks && s.clicks[c].job == job;
    }
  }

  lemma {:induction false} ClickGoes(s: State, t: State, click: nat, job: JobId)
    requires click in s.clicks && t.clicks == s.clicks - {click}
    ensures Clicked(t, job) <==> ClickedBeside(s, click, job)
    ensures s.clicks[click].job != job ==> (Clicked(t, job) <==> Clicked(s, job))
  {
    if ClickedBeside(s, click, job) {
      var c :| c != click && c in s.clicks && s.clicks[c].job == job;
      assert c in t.clicks && t.clicks[c].job == job;
    }
    if s.clicks[click].job != job {
      OtherClicksStay(s, t, click, job);
    }
  }

  /** The end of a board request that published nothing. */
  lemma {:induction false} ClickEndIsExact(s: State, e: Event, job: JobId)
    requires Base(s) && Enabled(s, e) && (e.MarkFailed? || e.BoardCrash?)
    ensures StepIsExact(s, e, job)
  {
    var t := Next(s, e);
    SameBrokerSameLive(s, t, job);
    ClickGoes(s, t, e.click, job);
    LostIsWithoutSource(s, job);
    LostIsWithoutSource(t, job);
  }

  lemma {:induction false} BoardStepIsExact(s: State, e: Event, job: JobId)
    requires Base(s) && Enabled(s, e)
    requires e.AddVacancy? || e.RemoveVacancy? || e.Claim? || e.PublishFailed?
    ensures StepIsExact(s, e, job)
  {
    var t := Next(s, e);
    SameBrokerSameLive(s, t, job);
    LostIsWithoutSource(s, job);
    LostIsWithoutSource(t, job);
    if e.Claim? {
      if e.job == job {
        assert t.clicks[e.click].job == job;
      } else {
        OtherClicksStay(s, t, e.click, job);
      }
    } else if e.PublishFailed? {
      if s.clicks[e.click].job == job {
        assert t.clicks[e.click].job == job;
      } else {
        OtherClicksStay(s, t, e.click, job);
      }
    }
  }

  lemma {:induction false} HandledIsLive(s: State, pod: nat, job: JobId)
    requires InPhase(s, pod) && CopyOf(s, pod).body == Request(job)
    ensures LiveCopy(s, CopyOf(s, pod).id, job)
  {
    assert KeptBy(s, pod, CopyOf(s, pod).id, job);
  }

  lemma {:induction false} RunningIsExact(s: State, pod: nat, stored: bool, job: JobId)
    requires Base(s) && Enabled(s, WriteRunning(pod, stored))
    ensures StepIsExact(s, WriteRunning(pod, stored), job)
  {
    var t := Next(s, WriteRunning(pod, stored));
    SameBrokerSameLive(s, t, job);
    LostIsWithoutSource(s, job);
    LostIsWithoutSource(t, job);
    if CopyOf(s, pod).body == Request(job) {
      HandledIsLive(s, pod, job);
    }
  }

  /** A write by the handler, and its settle. */
  ghost predicate Ends(s: State, t: State, pod: nat, status: Status, stored: bool, outcome: Broker.Outcome)
    requires InPhase(s, pod) && CopyOf(s, pod).body.Request?
  {
    && t.broker == Broker.Next(s.broker, Broker.Settle(pod, outcome)) && t.clicks == s.clicks
    && forall job ::
         if job == CopyOf(s, pod).body.job && stored && job in s.jobs
         then Pending(t, job) <==> status == Queued || status == Running
         else Pending(t, job) <==> Pending(s, job)
  }

  /** For a job that is not the handler's, nothing changes. */
  lemma {:induction false} OthersAreLeft(s: State, t: State, pod: nat, status: Status, stored: bool,
                                         outcome: Broker.Outcome, job: JobId)
    requires Base(s) && InPhase(s, pod) && CopyOf(s, pod).body.Request? && CopyOf(s, pod).body.job != job
    requires Ends(s, t, pod, status, stored, outcome)
    ensures Lost(t, job) <==> Lost(s, job)
  {
    LiveExactly(s, t, Broker.Settle(pod, outcome), job);
    LostIsWithoutSource(s, job);
    LostIsWithoutSource(t, job);
  }

  /** For its own job, a request in its hands is not lost before, and is lost after exactly when it was the
      last source, is settled for good, and the row still says so. */
  lemma {:induction false} OwnIsExact(s: State, t: State, pod: nat, status: Status, stored: bool,
                                      outcome: Broker.Outcome, job: JobId)
    requires Base(s) && InPhase(s, pod) && CopyOf(s, pod).body == Request(job)
    requires Ends(s, t, pod, status, stored, outcome)
    requires IsFinal(outcome) ==> status == Failed || status == Completed
    ensures !Lost(s, job)
    ensures Lost(t, job) <==> IsFinal(outcome) && !stored && EndsLastCopy(s, pod, job)
  {
    HandledIsLive(s, pod, job);
    LostIsWithoutSource(s, job);
    LostIsWithoutSource(t, job);
    if IsFinal(outcome) {
      LiveAfterTheEnd(s, t, pod, outcome, job);
    } else {
      LiveExactly(s, t, Broker.Settle(pod, outcome), job);
    }
  }

  lemma {:induction false} WriteThenSettle(s: State, pod: nat, status: Status, text: string, attempts: nat,
                                           stored: bool, outcome: Broker.Outcome)
    requires InPhase(s, pod) && CopyOf(s, pod).body.Request?
    ensures Ends(s, Settle(Write(s, pod, status, text, attempts, stored), pod, outcome), pod, status, stored, outcome)
  {
  }

  lemma {:induction false} HandlerEndIsExact(s: State, e: Event, job: JobId)
    requires Base(s) && Enabled(s, e) && (e.CvDataUnreadable? || e.ModelReplied?)
    ensures StepIsExact(s, e, job)
  {
    var pod, t := e.pod, Next(s, e);
    var status, outcome := LastStatus(e), LastOutcome(s, e);
    WriteThenSettle(s, pod, status, LastText(e), s.phases[pod].attempts, e.stored, outcome);
    LastStepIs(s, e);
    if CopyOf(s, pod).body.job == job {
      OwnIsExact(s, t, pod, status, e.stored, outcome, job);
    } else {
      OthersAreLeft(s, t, pod, status, e.stored, outcome, job);
    }
  }

  function LastStatus(e: Event): Status
    requires e.CvDataUnreadable? || e.ModelReplied?
  {
    if e.CvDataUnreadable? then Failed
    else
      match e.reply
      case Deferred(_) => Queued
      case Written(_) => Completed
      case Unwritable => Failed
      case Broke => Failed
  }

  function LastText(e: Event): string {
    if e.ModelReplied? && e.reply.Written? then e.reply.text else ""
  }

  function LastOutcome(s: State, e: Event): Broker.Outcome
    requires Enabled(s, e) && (e.CvDataUnreadable? || e.ModelReplied?)
  {
    if e.CvDataUnreadable? then Broker.DeadLetter else OutcomeOf(s, e.pod, e.reply)
  }

  lemma {:induction false} LastStepIs(s: State, e: Event)
    requires Enabled(s, e) && (e.CvDataUnreadable? || e.ModelReplied?)
    ensures Next(s, e) == Settle(Write(s, e.pod, LastStatus(e), LastText(e), s.phases[e.pod].attempts, e.stored),
                                 e.pod, LastOutcome(s, e))
  {
  }

  /** One step loses a request exactly when it ends its last source and the row still says that the letter is
      on its way; and a lost one stays lost until it is claimed again, removed, or put back by a crash. */
  lemma {:induction false} LostStepExactly(s: State, e: Event, job: JobId)
    requires Base(s) && Enabled(s, e)
    ensures StepIsExact(s, e, job)
  {
    match e
    case Check(pod, storeUp) => CheckIsExact(s, pod, storeUp, job);
    case CvDataUnreadable(_, _) => HandlerEndIsExact(s, e, job);
    case ModelReplied(_, _, _) => HandlerEndIsExact(s, e, job);
    case WriteRunning(pod, stored) => RunningIsExact(s, pod, stored, job);
    case Published(_) => PublishIsExact(s, e, job);
    case LandedUnconfirmed(_) => PublishIsExact(s, e, job);
    case MarkFailed(_, _) => ClickEndIsExact(s, e, job);
    case BoardCrash(_) => ClickEndIsExact(s, e, job);
    case AddVacancy(_) => BoardStepIsExact(s, e, job);
    case RemoveVacancy(_) => BoardStepIsExact(s, e, job);
    case Claim(_, _) => BoardStepIsExact(s, e, job);
    case PublishFailed(_) => BoardStepIsExact(s, e, job);
    case _ => ConsumerStepIsExact(s, e, job);
  }

  // ---------- whole runs ----------

  lemma {:induction false} BaseIsKept(s: State, e: Event)
    requires Base(s) && Enabled(s, e)
    ensures Base(Next(s, e))
  {
    var moves := StepProjects(s, e);
    if moves != [] {
      assert moves[1..] == [];
      assert Next(s, e).broker == Broker.Next(s.broker, moves[0]);
      Broker.DistinctIsKept(s.broker, moves[0]);
      TidyIsKept(s, Next(s, e), moves[0]);
    }
    RowsStayBelowVacancies(s, e);
  }

  lemma {:induction false} TidyIsKept(s: State, t: State, e: Broker.Event<Body>)
    requires Base(s) && Broker.Enabled(s.broker, e) && t.broker == Broker.Next(s.broker, e)
    ensures forall pod :: pod in t.broker.channels && t.broker.channels[pod].Settling? ==>
              Tidy(t.broker.channels[pod].commands)
  {
    forall pod | pod in t.broker.channels && t.broker.channels[pod].Settling?
      ensures Tidy(t.broker.channels[pod].commands)
    {
      if pod in s.broker.channels && s.broker.channels[pod].Settling? {
        assert Tidy(s.broker.channels[pod].commands);
      }
    }
  }

  lemma {:induction false} RowsStayBelowVacancies(s: State, e: Event)
    requires Enabled(s, e) && s.letters.Keys <= s.jobs
    ensures Next(s, e).letters.Keys <= Next(s, e).jobs
  {
    if e.CvDataUnreadable? || e.ModelReplied? {
      LastStepIs(s, e);
      WriteStaysBelow(s, e.pod, LastStatus(e), LastText(e), s.phases[e.pod].attempts, e.stored);
    } else if e.WriteRunning? {
      WriteStaysBelow(s, e.pod, Running, "", s.phases[e.pod].attempts, e.stored);
    } else {
      OtherRowsStayBelow(s, e);
    }
  }

  lemma {:induction false} WriteStaysBelow(s: State, pod: nat, status: Status, text: string, attempts: nat,
                                           stored: bool)
    requires InPhase(s, pod) && CopyOf(s, pod).body.Request? && s.letters.Keys <= s.jobs
    ensures var t := Write(s, pod, status, text, attempts, stored); t.letters.Keys <= t.jobs && t.jobs == s.jobs
  {
  }

  lemma {:induction false} OtherRowsStayBelow(s: State, e: Event)
    requires Enabled(s, e) && s.letters.Keys <= s.jobs
    requires !e.CvDataUnreadable? && !e.ModelReplied? && !e.WriteRunning?
    ensures Next(s, e).letters.Keys <= Next(s, e).jobs
  {
  }

  ghost predicate NothingRenews(s: State, events: seq<Event>, job: JobId)
    decreases |events|
  {
    events != [] && Enabled(s, events[0]) ==>
      !Renews(s, events[0], job) && NothingRenews(Next(s, events[0]), events[1..], job)
  }

  /** Some event of the run loses the request, and nothing behind it brings it back. */
  ghost predicate LostInRun(s: State, events: seq<Event>, job: JobId)
    decreases |events|
  {
    && events != [] && Enabled(s, events[0])
    && ((Loses(s, events[0], job) && NothingRenews(Next(s, events[0]), events[1..], job))
        || LostInRun(Next(s, events[0]), events[1..], job))
  }

  lemma {:induction false} LostOverRun(s: State, events: seq<Event>, t: State, job: JobId)
    requires Base(s) && IsRun(s, events, t)
    ensures Lost(t, job) <==> LostInRun(s, events, job) || (Lost(s, job) && NothingRenews(s, events, job))
    decreases |events|
  {
    if events != [] {
      LostStepExactly(s, events[0], job);
      BaseIsKept(s, events[0]);
      LostOverRun(Next(s, events[0]), events[1..], t, job);
    }
  }

  /** A request is lost exactly when, somewhere in the run, its last source ended while the row said that the
      letter was on its way, and nothing behind that renewed it - over every run of the protocol. */
  lemma {:induction false} LostExactly(jobs: set<JobId>, maxAttempts: int, events: seq<Event>, t: State, job: JobId)
    requires IsRun(Init(jobs, maxAttempts), events, t)
    ensures Lost(t, job) <==> LostInRun(Init(jobs, maxAttempts), events, job)
  {
    LostOverRun(Init(jobs, maxAttempts), events, t, job);
  }
}

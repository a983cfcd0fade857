/** What one tailoring task may spend on the model provider: the adaptation loop of `agent/graph.py`
    and `agent/nodes.py`, the self-healing loop of `agent/verification.py`, and the retry wrapper
    around each model call. */
module Spend {
  import opened ModelLedger
  import opened Retry
  import opened Wrappers

  import Replacements
  import SelfHeal

  /** What the other parts of a run decide, for revision `r`: whether the inputs are in order (the sync
      check), whether a role title is already known, whether the best draft still lies after `k` healing
      retries, whether any replacement could be written, whether the gate and the renderer go through,
      and the verdict on the pages. */
  datatype Oracle = Oracle(
    ready: nat -> bool,
    titleKnown: nat -> bool,
    lies: (nat, nat) -> bool,
    applied: nat -> bool,
    gatePasses: nat -> bool,
    renders: nat -> bool,
    layoutOk: nat -> bool)

  datatype Limits = Limits(maxRevisions: int, maxRetries: int)

  datatype TaskResult = Persisted | Raised

  // ---------- which calls a task makes ----------

  /** The wrapped calls of a task; `Healing(k)` is the k-th retry of a lying draft. */
  datatype Kind = Title | Draft | Healing(k: nat) | Verdict

  datatype Made = Made(kind: Kind, revision: nat, result: CallResult)

  function FirstCall(o: Oracle, r: nat): Option<(Kind, nat)> {
    if o.ready(r) then Some((if o.titleKnown(r) then Draft else Title, r)) else None
  }

  /** After `k` retries: another one while the best draft lies and retries are left. */
  function AfterDraft(o: Oracle, l: Limits, r: nat, k: nat): Option<(Kind, nat)> {
    if o.lies(r, k) && k < Max(0, l.maxRetries) then Some((Healing(k + 1), r)) else AfterHealing(o, r)
  }

  /** The pages are judged when the gate passed, something was applied and the render worked. */
  function AfterHealing(o: Oracle, r: nat): Option<(Kind, nat)> {
    if o.gatePasses(r) && o.applied(r) && o.renders(r) then Some((Verdict, r)) else None
  }

  /** The next call a run owes after the calls `done`, or none when it is over. */
  function Owed(o: Oracle, l: Limits, done: seq<Made>): Option<(Kind, nat)> {
    if done == [] then FirstCall(o, 0)
    else
      var last := done[|done| - 1];
      match last.kind
      case Title => if last.result.Answered? then Some((Draft, last.revision)) else None
      case Draft => if last.result.Answered? then AfterDraft(o, l, last.revision, 0) else None
      case Healing(k) =>
        // a failed retry is swallowed, and is the last
        if last.result.Answered? then AfterDraft(o, l, last.revision, k) else AfterHealing(o, last.revision)
      case Verdict =>
        if GoesOn(o, l, last) then FirstCall(o, last.revision + 1) else None
  }

  /** The verdict sends the graph back to the adaptation. */
  predicate GoesOn(o: Oracle, l: Limits, verdict: Made) {
    verdict.result.Answered? && !o.layoutOk(verdict.revision) && verdict.revision + 1 < l.maxRevisions
  }

  /** Revision `r` is about to begin. */
  predicate Begins(o: Oracle, l: Limits, done: seq<Made>, r: nat) {
    if done == [] then r == 0
    else
      var last := done[|done| - 1];
      last.kind.Verdict? && GoesOn(o, l, last) && r == last.revision + 1
  }

  /** Every call made was the one owed. */
  ghost predicate OnTrack(o: Oracle, l: Limits, done: seq<Made>) {
    done == []
    || (var front, last := done[..|done| - 1], done[|done| - 1];
        OnTrack(o, l, front) && Owed(o, l, front) == Some((last.kind, last.revision)))
  }

  /** How a task ends that owes no more calls. */
  function EndOf(o: Oracle, l: Limits, done: seq<Made>): TaskResult {
    if done == [] then Raised
    else
      var last := done[|done| - 1];
      match last.kind
      case Title => Raised
      case Draft => if last.result.Answered? && StopsEarly(o, last.revision) then Persisted else Raised
      case Healing(_) => if StopsEarly(o, last.revision) then Persisted else Raised
      // sent back to inputs that are no longer in order, it raises
      case Verdict => if last.result.Answered? && !GoesOn(o, l, last) then Persisted else Raised
  }

  /** The gate passed and nothing could be applied. */
  predicate StopsEarly(o: Oracle, r: nat) {
    o.gatePasses(r) && !o.applied(r)
  }

  // ---------- what that means, call by call ----------

  /** The document of the revision passed the gate, was changed, and could be rendered. */
  predicate Showable(o: Oracle, r: nat) {
    o.gatePasses(r) && o.applied(r) && o.renders(r)
  }

  /** What had to be so for a call to be made, `before` being the calls made until then. */
  ghost predicate Justified(o: Oracle, l: Limits, before: seq<Made>, m: Made) {
    var again := before != [] && before[|before| - 1].revision == m.revision;
    // the first call of a revision: its inputs are in order, and the verdict on the one before found fault
    && (!again ==>
          && o.ready(m.revision) && m.kind == (if o.titleKnown(m.revision) then Draft else Title)
          && (if before == [] then m.revision == 0
              else SentBack(o, l, before[|before| - 1]) && m.revision == before[|before| - 1].revision + 1))
    // a later one: only a failed retry is passed over, and what was asked for comes next
    && (again ==>
          var last := before[|before| - 1];
          && (last.result.Answered? || last.kind.Healing?)
          && match m.kind
             case Title => false
             case Draft => last.kind == Title
             case Healing(k) =>
               && last.result.Answered? && 1 <= k <= l.maxRetries && o.lies(m.revision, k - 1)
               && last.kind == (if k == 1 then Draft else Healing(k - 1))
             case Verdict => Showable(o, m.revision) && (last.kind.Draft? || last.kind.Healing?))
  }

  /** The verdict found fault, and another revision is allowed. */
  predicate SentBack(o: Oracle, l: Limits, verdict: Made) {
    && verdict.kind == Verdict && verdict.result == Answered
    && !o.layoutOk(verdict.revision) && verdict.revision + 1 < l.maxRevisions
  }

  /** Every call of a run was justified by the one before it. */
  lemma {:induction false} EveryCallIsJustified(o: Oracle, l: Limits, done: seq<Made>, k: nat)
    requires OnTrack(o, l, done) && k < |done|
    ensures Justified(o, l, done[..k], done[k])
  {
    var front := done[..|done| - 1];
    if k < |done| - 1 {
      EveryCallIsJustified(o, l, front, k);
      assert front[..k] == done[..k];
    }
  }

  /** A run stops only when a call failed for good, the revision has nothing to show, its pages are approved or
      the revisions are used up, or the inputs are out of order; a lying draft with retries left is never the
      end of it. */
  lemma {:induction false} NothingIsLeftOut(o: Oracle, l: Limits, done: seq<Made>)
    requires Owed(o, l, done) == None
    ensures done == [] ==> !o.ready(0)
    ensures done != [] ==>
      var last := done[|done| - 1];
      match last.kind
      case Title => last.result != Answered
      case Draft =>
        last.result == Answered ==> !Showable(o, last.revision) && !(o.lies(last.revision, 0) && l.maxRetries > 0)
      case Healing(k) =>
        && !Showable(o, last.revision)
        && (last.result == Answered ==> !(o.lies(last.revision, k) && k < l.maxRetries))
      case Verdict => SentBack(o, l, last) ==> !o.ready(last.revision + 1)
  {
  }

  /** It ends with a stored CV exactly when its last revision was judged and not sent back, or passed the gate
      with nothing to apply; else it raises. */
  lemma {:induction false} PersistedExactly(o: Oracle, l: Limits, done: seq<Made>)
    requires Owed(o, l, done) == None
    ensures EndOf(o, l, done) == Persisted <==>
      && done != []
      && var last := done[|done| - 1];
      match last.kind
      case Title => false
      case Draft => last.result == Answered && o.gatePasses(last.revision) && !o.applied(last.revision)
      case Healing(_) => o.gatePasses(last.revision) && !o.applied(last.revision)
      case Verdict =>
        last.result == Answered && (o.layoutOk(last.revision) || last.revision + 1 >= l.maxRevisions)
  {
  }

  lemma {:induction false} FirstIsOwed(o: Oracle, l: Limits, done: seq<Made>, r: nat)
    requires Begins(o, l, done, r)
    ensures Owed(o, l, done) == FirstCall(o, r)
    ensures !o.ready(r) ==> EndOf(o, l, done) == Raised
  {
  }

  lemma {:induction false} StaysOnTrack(o: Oracle, l: Limits, done: seq<Made>, m: Made)
    requires OnTrack(o, l, done) && Owed(o, l, done) == Some((m.kind, m.revision))
    ensures OnTrack(o, l, done + [m])
  {
    assert (done + [m])[..|done|] == done;
  }

  // ---------- what they may cost ----------

  /** The most model calls one revision makes: the title, the draft, its retries, the verdict. */
  function CallsPerRevision(maxFabricationRetries: int): nat {
    3 + Max(0, maxFabricationRetries)
  }

  /** `R + 1` invocations of the wrapped function for each of `n` calls and advances. */
  function Allowance(b: Backoff, n: nat): nat {
    if n == 0 then 0 else Allowance(b, n - 1) + Limit(b) + 1
  }

  lemma {:induction false} AllowanceIsProduct(b: Backoff, n: nat)
    ensures Allowance(b, n) == n * (Limit(b) + 1)
  {
    if n > 0 {
      AllowanceIsProduct(b, n - 1);
      Distribute(n - 1, Limit(b) + 1);
    }
  }

  lemma {:induction false} AllowanceAdds(b: Backoff, m: nat, n: nat)
    ensures Allowance(b, m + n) == Allowance(b, m) + Allowance(b, n)
  {
    if n > 0 {
      AllowanceAdds(b, m, n - 1);
    }
  }

  /** What `n` allows is within the product for any larger `most`. */
  lemma {:induction false} AllowanceIsWithin(b: Backoff, n: nat, most: nat)
    requires n <= most
    ensures Allowance(b, n) <= most * (Limit(b) + 1)
  {
    AllowanceIsProduct(b, n);
    Product(n, most, Limit(b) + 1);
  }

  lemma {:induction false} Product(m: int, n: int, k: nat)
    requires m <= n
    ensures m * k <= n * k
  {
  }

  /** Where a task stands: what its session had spent before it, and the calls it has made. */
  datatype Mark = Mark(requests: int, invocations: int, advances: int, position: int)

  ghost predicate WithinBudget(s: Session, start: Mark, calls: nat)
    reads s
  {
    Within(s.backoff, start, s.Now(), calls)
  }

  ghost predicate Within(b: Backoff, start: Mark, now: Point, calls: nat) {
    && now.advances >= start.advances
    && now.position - start.position >= now.advances - start.advances
    && now.invocations - start.invocations <= Allowance(b, calls + (now.advances - start.advances))
    && now.requests - start.requests <= 2 * (now.invocations - start.invocations)
  }

  /** One call costs no more than one more call and its advances are allowed. */
  lemma {:induction false} CallIsWithin(b: Backoff, provider: nat -> Response, start: Mark, before: Point, after: Point,
                                        runs: seq<nat>, calls: nat)
    requires Within(b, start, before, calls) && Ended(b, provider, before, after, runs)
    ensures Within(b, start, after, calls + 1)
  {
    InvocationsAreBounded(b, runs);
    AllowanceIsProduct(b, |runs|);
    AllowanceAdds(b, calls + (before.advances - start.advances), |runs|);
  }

  /** One owed call: it stays within the budget of one more call. */
  method Spending(s: Session, o: Oracle, l: Limits, kind: Kind, revision: nat, ghost start: Mark,
                  ghost done: seq<Made>)
    returns (result: CallResult, ghost done': seq<Made>)
    requires DistinctModels(s.preferred) && WithinBudget(s, start, |done|)
    requires OnTrack(o, l, done) && Owed(o, l, done) == Some((kind, revision))
    modifies s
    ensures done' == done + [Made(kind, revision, result)] && OnTrack(o, l, done')
    ensures WithinBudget(s, start, |done'|)
  {
    ghost var before := s.Now();
    ghost var runs;
    result, runs := s.Call();
    CallIsWithin(s.backoff, s.provider, start, before, s.Now(), runs, |done|);
    done' := done + [Made(kind, revision, result)];
    StaysOnTrack(o, l, done, Made(kind, revision, result));
  }

  /** `self_heal_replacements` as the spender sees it: a failed retry is swallowed and ends it. */
  method Heal(s: Session, o: Oracle, l: Limits, revision: nat, ghost start: Mark, ghost done: seq<Made>)
    returns (ghost done': seq<Made>)
    requires DistinctModels(s.preferred) && WithinBudget(s, start, |done|)
    requires OnTrack(o, l, done) && Owed(o, l, done) == AfterDraft(o, l, revision, 0)
    modifies s
    ensures WithinBudget(s, start, |done'|) && |done'| <= |done| + Max(0, l.maxRetries)
    ensures OnTrack(o, l, done') && Owed(o, l, done') == AfterHealing(o, revision)
    ensures EndsLikeADraft(o, done, done', revision)
  {
    var attempts: nat := 0;
    done' := done;
    while o.lies(revision, attempts) && attempts < Max(0, l.maxRetries)
      invariant |done'| == |done| + attempts && attempts <= Max(0, l.maxRetries)
      invariant WithinBudget(s, start, |done'|)
      invariant OnTrack(o, l, done') && Owed(o, l, done') == AfterDraft(o, l, revision, attempts)
      invariant EndsLikeADraft(o, done, done', revision)
      decreases Max(0, l.maxRetries) - attempts
    {
      attempts := attempts + 1;
      var answered;
      answered, done' := AskAgain(s, o, l, revision, attempts, start, done');
      if !answered {
        break;
      }
    }
  }

  // The retries owed are the attempts of the loop that grades the drafts.

  type Suggest = (nat, seq<SelfHeal.Violation>) -> Option<seq<Replacements.Replacement>>

  /** What `SelfHealReplacements` promises of its drafts and attempts. */
  ghost predicate Healed(c: SelfHeal.Context, suggest: Suggest, raw: seq<Replacements.Replacement>, maxRetries: int,
                         drafts: seq<seq<Replacements.Replacement>>, attempts: nat) {
    && SelfHeal.Drafted(c, suggest, raw, drafts)
    && |drafts| - 1 <= attempts <= |drafts| && attempts <= Max(0, maxRetries)
    && (attempts == |drafts| ==> SelfHeal.BestGrade(c, drafts).violations != [])
    && (SelfHeal.BestGrade(c, drafts).violations == [] || attempts == Max(0, maxRetries) || attempts == |drafts|)
  }

  /** The spender's oracle says of revision `r` what the grades of the drafts say. */
  ghost predicate Lies(o: Oracle, r: nat, c: SelfHeal.Context, drafts: seq<seq<Replacements.Replacement>>) {
    forall k :: 0 <= k < |drafts| ==> (o.lies(r, k) <==> StillLies(c, drafts, k))
  }

  ghost predicate StillLies(c: SelfHeal.Context, drafts: seq<seq<Replacements.Replacement>>, k: nat)
    requires k < |drafts|
  {
    SelfHeal.BestGrade(c, drafts[..k + 1]).violations != []
  }

  /** The calls `done` and the first `n` retries of revision `r` behind them, of which the first `answered`
      were answered. */
  function WithRetries(done: seq<Made>, r: nat, n: nat, answered: nat, failure: CallResult): (made: seq<Made>)
    ensures |made| == |done| + n
  {
    if n == 0 then done
    else WithRetries(done, r, n - 1, answered, failure) + [RetryMade(r, n, answered, failure)]
  }

  function RetryMade(r: nat, k: nat, answered: nat, failure: CallResult): Made {
    Made(Healing(k), r, if k <= answered then Answered else failure)
  }

  lemma {:induction false} LiesBeforeARetry(c: SelfHeal.Context, suggest: Suggest, raw: seq<Replacements.Replacement>,
                                            maxRetries: int, drafts: seq<seq<Replacements.Replacement>>, attempts: nat,
                                            k: nat)
    requires Healed(c, suggest, raw, maxRetries, drafts, attempts) && k < attempts
    ensures k < |drafts| && StillLies(c, drafts, k)
  {
    if k + 1 < |drafts| {
      assert SelfHeal.Retried(c, suggest, drafts, k + 1);
    } else {
      assert drafts[..k + 1] == drafts;
    }
  }

  /** The oracle's own account of revision `r`: it lies before each attempt, and the last one is a failed
      one, a clean one, or the last one allowed. */
  ghost predicate Attempted(o: Oracle, l: Limits, r: nat, answered: nat, attempts: nat) {
    && answered <= attempts <= answered + 1 && attempts <= Max(0, l.maxRetries)
    && (forall k :: 0 <= k < attempts ==> o.lies(r, k))
    && (attempts == answered ==> !o.lies(r, attempts) || attempts == Max(0, l.maxRetries))
  }

  /** What `SelfHealReplacements` promises is such an account, for the oracle its drafts give. */
  lemma {:induction false} AttemptsFollowTheGrades(
    o: Oracle, l: Limits, r: nat, c: SelfHeal.Context, suggest: Suggest, raw: seq<Replacements.Replacement>,
    drafts: seq<seq<Replacements.Replacement>>, attempts: nat)
    requires Healed(c, suggest, raw, l.maxRetries, drafts, attempts) && Lies(o, r, c, drafts)
    ensures Attempted(o, l, r, |drafts| - 1, attempts)
  {
    forall k | 0 <= k < attempts
      ensures o.lies(r, k)
    {
      LiesBeforeARetry(c, suggest, raw, l.maxRetries, drafts, attempts, k);
    }
    if attempts == |drafts| - 1 {
      assert drafts[..attempts + 1] == drafts;
      assert o.lies(r, attempts) <==> StillLies(c, drafts, attempts);
    }
  }

  /** The next attempt is owed, or after the last of them none. */
  function OwedAt(o: Oracle, r: nat, attempts: nat, k: nat): Option<(Kind, nat)> {
    if k < attempts then Some((Healing(k + 1), r)) else AfterHealing(o, r)
  }

  lemma {:induction false} OwedAfterDraft(o: Oracle, l: Limits, r: nat, answered: nat, attempts: nat, k: nat)
    requires Attempted(o, l, r, answered, attempts) && k <= answered && k <= attempts
    ensures AfterDraft(o, l, r, k) == OwedAt(o, r, attempts, k)
  {
  }

  lemma {:induction false} OwedAfterAttempt(
    o: Oracle, l: Limits, r: nat, answered: nat, attempts: nat, before: seq<Made>, failure: CallResult, k: nat)
    requires Attempted(o, l, r, answered, attempts) && !failure.Answered? && 0 < k <= attempts
    ensures Owed(o, l, before + [RetryMade(r, k, answered, failure)])
         == OwedAt(o, r, attempts, k)
  {
    if k <= answered {
      OwedAfterDraft(o, l, r, answered, attempts, k);
    }
  }

  /** The run is on track, and owes that call next. */
  ghost predicate Owes(o: Oracle, l: Limits, done: seq<Made>, owed: Option<(Kind, nat)>) {
    OnTrack(o, l, done) && Owed(o, l, done) == owed
  }

  lemma {:induction false} OneAttempt(
    o: Oracle, l: Limits, r: nat, answered: nat, attempts: nat, before: seq<Made>, failure: CallResult, k: nat)
    requires Attempted(o, l, r, answered, attempts) && !failure.Answered? && 0 < k <= attempts
    requires Owes(o, l, before, OwedAt(o, r, attempts, k - 1))
    ensures Owes(o, l, before + [RetryMade(r, k, answered, failure)], OwedAt(o, r, attempts, k))
  {
    StaysOnTrack(o, l, before, RetryMade(r, k, answered, failure));
    OwedAfterAttempt(o, l, r, answered, attempts, before, failure, k);
  }

  lemma {:induction false} RetriesStep(done: seq<Made>, r: nat, n: nat, answered: nat, failure: CallResult)
    requires n > 0
    ensures WithRetries(done, r, n, answered, failure)
         == WithRetries(done, r, n - 1, answered, failure) + [RetryMade(r, n, answered, failure)]
  {
  }

  /** After `k` of the attempts the run is on track. */
  lemma {:induction false} OwesTheAttempts(
    o: Oracle, l: Limits, r: nat, answered: nat, attempts: nat, done: seq<Made>, failure: CallResult, k: nat)
    requires Attempted(o, l, r, answered, attempts) && !failure.Answered? && k <= attempts
    requires Owes(o, l, done, OwedAt(o, r, attempts, 0))
    ensures Owes(o, l, WithRetries(done, r, k, answered, failure), OwedAt(o, r, attempts, k))
  {
    if k > 0 {
      OwesTheAttempts(o, l, r, answered, attempts, done, failure, k - 1);
      OneAttempt(o, l, r, answered, attempts, WithRetries(done, r, k - 1, answered, failure), failure, k);
      RetriesStep(done, r, k, answered, failure);
    }
  }

  /** The spender and the healing loop agree: the retries owed after the first draft are one for each
      attempt of the loop, and no more. */
  lemma {:induction false} RetriesAreTheAttempts(
    o: Oracle, l: Limits, r: nat, answered: nat, attempts: nat, done: seq<Made>, failure: CallResult)
    requires Attempted(o, l, r, answered, attempts) && !failure.Answered?
    requires Owes(o, l, done, AfterDraft(o, l, r, 0))
    ensures Owes(o, l, WithRetries(done, r, attempts, answered, failure), AfterHealing(o, r))
  {
    OwedAfterDraft(o, l, r, answered, attempts, 0);
    OwesTheAttempts(o, l, r, answered, attempts, done, failure, attempts);
  }

  /** The k-th retry. */
  method AskAgain(s: Session, o: Oracle, l: Limits, revision: nat, k: nat, ghost start: Mark, ghost done: seq<Made>)
    returns (answered: bool, ghost done': seq<Made>)
    requires DistinctModels(s.preferred) && WithinBudget(s, start, |done|)
    requires OnTrack(o, l, done) && Owed(o, l, done) == Some((Healing(k), revision))
    modifies s
    ensures WithinBudget(s, start, |done'|) && |done'| == |done| + 1 && OnTrack(o, l, done')
    ensures Owed(o, l, done') == if answered then AfterDraft(o, l, revision, k) else AfterHealing(o, revision)
    ensures done'[|done'| - 1].kind.Healing? && done'[|done'| - 1].revision == revision
  {
    var result;
    result, done' := Spending(s, o, l, Healing(k), revision, start, done);
    answered := result.Answered?;
  }

  /** The calls are those before, or end in a retry of this revision. */
  ghost predicate EndsLikeADraft(o: Oracle, done: seq<Made>, done': seq<Made>, revision: nat) {
    || done' == done
    || (done' != [] && done'[|done'| - 1].kind.Healing? && done'[|done'| - 1].revision == revision)
  }

  /** `adapt_text` up to its first draft: false when its inputs are not in order or a call fails. */
  method Propose(s: Session, o: Oracle, l: Limits, revision: nat, ghost start: Mark, ghost done: seq<Made>)
    returns (ok: bool, ghost done': seq<Made>)
    requires DistinctModels(s.preferred) && WithinBudget(s, start, |done|)
    requires OnTrack(o, l, done) && Begins(o, l, done, revision)
    modifies s
    ensures WithinBudget(s, start, |done'|) && |done'| <= |done| + 2 && OnTrack(o, l, done')
    ensures ok ==> done' != [] && done'[|done'| - 1] == Made(Draft, revision, Answered)
    ensures !ok ==> Owed(o, l, done') == None && EndOf(o, l, done') == Raised
  {
    done' := done;
    FirstIsOwed(o, l, done, revision);
    if !o.ready(revision) {
      return false, done';
    }
    ok := true;
    if !o.titleKnown(revision) {
      ok, done' := Entitle(s, o, l, revision, start, done);
    }
    if ok {
      ok, done' := Sketch(s, o, l, revision, start, done');
    }
  }

  /** The title of the vacancy. */
  method Entitle(s: Session, o: Oracle, l: Limits, revision: nat, ghost start: Mark, ghost done: seq<Made>)
    returns (ok: bool, ghost done': seq<Made>)
    requires DistinctModels(s.preferred) && WithinBudget(s, start, |done|)
    requires OnTrack(o, l, done) && Owed(o, l, done) == Some((Title, revision))
    modifies s
    ensures WithinBudget(s, start, |done'|) && |done'| == |done| + 1 && OnTrack(o, l, done')
    ensures ok ==> Owed(o, l, done') == Some((Draft, revision))
    ensures !ok ==> Owed(o, l, done') == None && EndOf(o, l, done') == Raised
  {
    var title;
    title, done' := Spending(s, o, l, Title, revision, start, done);
    ok := title.Answered?;
  }

  /** The first draft of a revision. */
  method Sketch(s: Session, o: Oracle, l: Limits, revision: nat, ghost start: Mark, ghost done: seq<Made>)
    returns (ok: bool, ghost done': seq<Made>)
    requires DistinctModels(s.preferred) && WithinBudget(s, start, |done|)
    requires OnTrack(o, l, done) && Owed(o, l, done) == Some((Draft, revision))
    modifies s
    ensures WithinBudget(s, start, |done'|) && |done'| == |done| + 1 && OnTrack(o, l, done')
    ensures ok ==> done'[|done'| - 1] == Made(Draft, revision, Answered)
    ensures !ok ==> Owed(o, l, done') == None && EndOf(o, l, done') == Raised
  {
    var draft;
    draft, done' := Spending(s, o, l, Draft, revision, start, done);
    ok := draft.Answered?;
  }

  /** `adapt_text`. */
  method AdaptText(s: Session, o: Oracle, l: Limits, revision: nat, ghost start: Mark, ghost done: seq<Made>)
    returns (ok: bool, ghost done': seq<Made>)
    requires DistinctModels(s.preferred) && WithinBudget(s, start, |done|)
    requires OnTrack(o, l, done) && Begins(o, l, done, revision)
    modifies s
    ensures WithinBudget(s, start, |done'|) && |done'| <= |done| + 2 + Max(0, l.maxRetries)
    ensures OnTrack(o, l, done') && Owed(o, l, done') == if ok then AfterHealing(o, revision) else None
    ensures EndOf(o, l, done') == if ok && StopsEarly(o, revision) then Persisted else Raised
  {
    ok, done' := Propose(s, o, l, revision, start, done);
    if ok {
      done' := Heal(s, o, l, revision, start, done');
    }
  }

  /** The revision ends the run with that result, or the next one begins. */
  ghost predicate Leaves(o: Oracle, l: Limits, done: seq<Made>, revision: nat, over: bool, result: TaskResult) {
    if over || revision + 1 >= l.maxRevisions then Owed(o, l, done) == None && EndOf(o, l, done) == result
    else Begins(o, l, done, revision + 1)
  }

  /** One pass from `adapt_text` to the verdict. `over` is set when the graph leaves the loop. */
  method Revise(s: Session, o: Oracle, l: Limits, revision: nat, ghost start: Mark, ghost done: seq<Made>)
    returns (over: bool, result: TaskResult, ghost done': seq<Made>)
    requires DistinctModels(s.preferred) && WithinBudget(s, start, |done|)
    requires OnTrack(o, l, done) && Begins(o, l, done, revision)
    modifies s
    ensures WithinBudget(s, start, |done'|) && |done'| <= |done| + CallsPerRevision(l.maxRetries)
    ensures OnTrack(o, l, done')
    ensures Leaves(o, l, done', revision, over, result)
  {
    var ok;
    ok, done' := AdaptText(s, o, l, revision, start, done);
    if !ok || !o.gatePasses(revision) {
      return true, Raised, done';
    }
    if !o.applied(revision) {
      return true, Persisted, done';
    }
    if !o.renders(revision) {
      return true, Raised, done';
    }
    over, result, done' := Judge(s, o, l, revision, start, done');
  }

  /** `vision_check` and the edge behind it. */
  method Judge(s: Session, o: Oracle, l: Limits, revision: nat, ghost start: Mark, ghost done: seq<Made>)
    returns (over: bool, result: TaskResult, ghost done': seq<Made>)
    requires DistinctModels(s.preferred) && WithinBudget(s, start, |done|)
    requires OnTrack(o, l, done) && Owed(o, l, done) == Some((Verdict, revision))
    modifies s
    ensures WithinBudget(s, start, |done'|) && |done'| == |done| + 1 && OnTrack(o, l, done')
    ensures Leaves(o, l, done', revision, over, result)
  {
    var verdict;
    verdict, done' := Spending(s, o, l, Verdict, revision, start, done);
    if !verdict.Answered? {
      return true, Raised, done';
    }
    return o.layoutOk(revision), Persisted, done';
  }

  /** `(A * (3 + F) + P - 1) * (R + 1)`. */
  function MostInvocations(l: Limits, models: nat, b: Backoff): int {
    (Max(1, l.maxRevisions) * CallsPerRevision(l.maxRetries) + models - 1) * (Limit(b) + 1)
  }

  /** `n` calls in that many revisions, and no more advances than there are models behind the first. */
  lemma {:induction false} WholeBudget(s: Session, start: Mark, n: nat, revisions: nat, l: Limits)
    requires WithinBudget(s, start, n) && start.position >= 0
    requires n <= revisions * CallsPerRevision(l.maxRetries) && revisions <= Max(1, l.maxRevisions)
    ensures s.invocations - start.invocations <= MostInvocations(l, |s.preferred|, s.backoff)
    ensures s.requests - start.requests <= 2 * MostInvocations(l, |s.preferred|, s.backoff)
  {
    Product(revisions, Max(1, l.maxRevisions), CallsPerRevision(l.maxRetries));
    AllowanceIsWithin(s.backoff, n + (s.advances - start.advances),
                      Max(1, l.maxRevisions) * CallsPerRevision(l.maxRetries) + |s.preferred| - 1);
  }

  /** Bounded spend: one task started on a preferred model (`init_model_state` picks one) makes exactly
      the calls it owes, invokes the wrapped functions at most `(A * (3 + F) + |P| - 1) * (R + 1)` times,
      sends the provider at most twice as many requests, and ends within `A` revisions, whatever the
      provider answers and whatever other processes write to the ledger. */
  method RunTask(s: Session, o: Oracle, l: Limits)
    returns (result: TaskResult, revisions: nat, ghost done: seq<Made>)
    requires DistinctModels(s.preferred) && s.modelName in s.preferred
    modifies s
    ensures OnTrack(o, l, done) && Owed(o, l, done) == None && result == EndOf(o, l, done)
    ensures 1 <= revisions <= Max(1, l.maxRevisions)
    ensures s.invocations - old(s.invocations) <= MostInvocations(l, |s.preferred|, s.backoff)
    ensures s.requests - old(s.requests) <= 2 * MostInvocations(l, |s.preferred|, s.backoff)
  {
    ghost var start := Mark(s.requests, s.invocations, s.advances, s.Position());
    revisions := 0;
    done := [];
    while true
      invariant revisions < Max(1, l.maxRevisions)
      invariant |done| <= revisions * CallsPerRevision(l.maxRetries)
      invariant OnTrack(o, l, done) && Begins(o, l, done, revisions)
      invariant WithinBudget(s, start, |done|)
      decreases Max(1, l.maxRevisions) - revisions
    {
      var over;
      over, result, done := Revise(s, o, l, revisions, start, done);
      revisions := revisions + 1;
      Distribute(revisions - 1, CallsPerRevision(l.maxRetries));
      if over || revisions >= l.maxRevisions {
        WholeBudget(s, start, |done|, revisions, l);
        return;
      }
    }
    result := Raised;
  }
}

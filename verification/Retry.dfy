/** The backoff wrapper around every model call (`utils/retry.py`), headless, and what one tailoring
    task may spend on it. */
module Retry {
  import opened Text
  import opened Wrappers
  import opened ModelLedger

  // ---------- classifying a failure ----------

  /** The tokens that make a (lower-cased) message transient. */
  const TRANSIENT_TOKENS: seq<string> :=
    ["429", "503", "resourceexhausted", "toomanyrequests", "unavailable", "high demand", "try again later",
     "rate limit"]

  const DAILY_TOKENS: seq<string> := ["daily", "per_day", "rpd"]

  predicate MentionsAny(message: string, tokens: seq<string>) {
    tokens != [] && (Contains(message, tokens[0]) || MentionsAny(message, tokens[1..]))
  }

  /** `_is_retryable` on the lower-cased message and the status code, if the error has one. */
  predicate IsRetryable(message: string, code: Option<string>) {
    code == Some("429") || code == Some("503") || MentionsAny(message, TRANSIENT_TOKENS)
  }

  /** `_is_daily_quota`. */
  predicate IsDailyQuota(message: string) {
    MentionsAny(message, DAILY_TOKENS)
  }

  lemma {:induction false} MentionsAnyExactly(message: string, tokens: seq<string>)
    ensures MentionsAny(message, tokens) <==> exists t :: t in tokens && Contains(message, t)
  {
    if tokens != [] {
      MentionsAnyExactly(message, tokens[1..]);
      assert forall t :: t in tokens <==> t == tokens[0] || t in tokens[1..];
    }
  }

  /** An error is transient by its code, or because it reads like a rate limit or an overload; a transient one
      is a daily quota when it says so. */
  lemma {:induction false} ErrorsAreReadExactly(message: string, code: Option<string>)
    ensures IsRetryable(message, code) <==>
              code in {Some("429"), Some("503")}
              || Contains(message, "429") || Contains(message, "resourceexhausted")
              || Contains(message, "toomanyrequests") || Contains(message, "rate limit")
              || Contains(message, "503") || Contains(message, "unavailable")
              || Contains(message, "high demand") || Contains(message, "try again later")
    ensures IsDailyQuota(message) <==>
              Contains(message, "daily") || Contains(message, "per_day") || Contains(message, "rpd")
  {
    MentionsAnyExactly(message, TRANSIENT_TOKENS);
    MentionsAnyExactly(message, DAILY_TOKENS);
  }

  // ---------- the delays ----------

  datatype Backoff = Backoff(initial: real, factor: real, max: real, retries: int)

  /** Any retry count below zero behaves like none. */
  function Limit(b: Backoff): nat {
    if b.retries > 0 then b.retries else 0
  }

  function Min(a: real, b: real): real { if a < b then a else b }

  function Iterate(step: real -> real, x: real, k: nat): real {
    if k == 0 then x else step(Iterate(step, x, k - 1))
  }

  /** The delay after a sleep of `d`. */
  function NextDelay(b: Backoff, d: real): real {
    Min(d * b.factor, b.max)
  }

  function Grow(f: real): real -> real {
    (d: real) => d * f
  }

  function GrowCapped(b: Backoff): real -> real {
    (d: real) => NextDelay(b, d)
  }

  /** The delay held after `k` sleeps on one model. */
  function Delay(b: Backoff, k: nat): real {
    Iterate(GrowCapped(b), b.initial, k)
  }

  function Power(x: real, k: nat): real {
    if k == 0 then 1.0 else x * Power(x, k - 1)
  }

  function Geometric(x: real, f: real, k: nat): real {
    x * Power(f, k)
  }

  ghost predicate Sensible(b: Backoff) {
    0.0 <= b.initial <= b.max && b.factor >= 1.0
  }

  lemma {:induction false} ScaledUp(x: real, f: real)
    requires x >= 0.0 && f >= 1.0
    ensures x * f >= x
  {
    assert x * f - x == x * (f - 1.0);
  }

  /** Capping after every growing step is capping once, at the end. */
  lemma {:induction false} CappingCommutes(step: real -> real, capped: real -> real, x: real, max: real, k: nat)
    requires forall y :: y >= 0.0 ==> step(y) >= y
    requires forall y :: capped(y) == Min(step(y), max)
    requires 0.0 <= x <= max
    ensures Iterate(capped, x, k) == Min(Iterate(step, x, k), max)
    ensures Iterate(step, x, k) >= 0.0
  {
    if k > 0 {
      CappingCommutes(step, capped, x, max, k - 1);
    }
  }

  lemma {:induction false} Regroup(x: real, f: real, p: real)
    ensures x * (f * p) == (x * p) * f
  {
  }

  lemma {:induction false} GrowthIsAPower(x: real, f: real, k: nat)
    ensures Iterate(Grow(f), x, k) == Geometric(x, f, k)
  {
    if k > 0 {
      GrowthIsAPower(x, f, k - 1);
      Regroup(x, f, Power(f, k - 1));
    }
  }

  lemma {:induction false} DelayIsCapped(b: Backoff, k: nat)
    requires Sensible(b)
    ensures Delay(b, k) == Min(Iterate(Grow(b.factor), b.initial, k), b.max)
    ensures Iterate(Grow(b.factor), b.initial, k) >= 0.0
  {
    forall y | y >= 0.0
      ensures Grow(b.factor)(y) >= y
    {
      ScaledUp(y, b.factor);
    }
    CappingCommutes(Grow(b.factor), GrowCapped(b), b.initial, b.max, k);
  }

  /** The loop computes its closed form: the sleep after `k` others is
      `min(initial * factor^k, max)`, so no sleep is longer than `max`. */
  lemma {:induction false} DelayClosedForm(b: Backoff, k: nat)
    requires Sensible(b)
    ensures Delay(b, k) == Min(Geometric(b.initial, b.factor, k), b.max)
    ensures 0.0 <= Delay(b, k) <= b.max
  {
    DelayIsCapped(b, k);
    GrowthIsAPower(b.initial, b.factor, k);
  }

  // ---------- the sleeps of one call ----------

  function Total(sleeps: seq<real>): real {
    if sleeps == [] then 0.0 else Total(sleeps[..|sleeps| - 1]) + sleeps[|sleeps| - 1]
  }

  /** The first `k` sleeps on one model. */
  function Ladder(b: Backoff, k: nat): seq<real> {
    if k == 0 then [] else Ladder(b, k - 1) + [Delay(b, k - 1)]
  }

  /** The sleeps of a call that slept `runs[i]` times on the i-th model it tried. */
  function SleepsOf(b: Backoff, runs: seq<nat>): seq<real> {
    if runs == [] then [] else SleepsOf(b, runs[..|runs| - 1]) + Ladder(b, runs[|runs| - 1])
  }

  function Sum(runs: seq<nat>): nat {
    if runs == [] then 0 else Sum(runs[..|runs| - 1]) + runs[|runs| - 1]
  }

  ghost predicate WithinLimit(b: Backoff, runs: seq<nat>) {
    forall i :: 0 <= i < |runs| ==> runs[i] <= Limit(b)
  }

  /** `x` added up `k` times. */
  function Scaled(k: nat, x: real): real {
    if k == 0 then 0.0 else Scaled(k - 1, x) + x
  }

  lemma {:induction false} ScaledIsProduct(k: nat, x: real)
    ensures Scaled(k, x) == k as real * x
  {
    if k > 0 {
      ScaledIsProduct(k - 1, x);
      Regroup(1.0, (k - 1) as real + 1.0, x);
    }
  }

  lemma {:induction false} ScaledIsMonotone(k: nat, n: nat, x: real)
    requires k <= n && x >= 0.0
    ensures 0.0 <= Scaled(k, x) <= Scaled(n, x)
    decreases n
  {
    if n > 0 {
      ScaledIsMonotone(if k == n then k - 1 else k, n - 1, x);
    }
  }

  lemma {:induction false} TotalOfConcat(s: seq<real>, t: seq<real>)
    ensures Total(s + t) == Total(s) + Total(t)
  {
    if t == [] {
      assert s + t == s;
    } else {
      TotalOfConcat(s, t[..|t| - 1]);
      assert (s + t)[..|s + t| - 1] == s + t[..|t| - 1];
    }
  }

  lemma {:induction false} LadderTotal(b: Backoff, k: nat)
    requires Sensible(b)
    ensures Total(Ladder(b, k)) <= Scaled(k, b.max)
  {
    if k > 0 {
      LadderTotal(b, k - 1);
      TotalOfConcat(Ladder(b, k - 1), [Delay(b, k - 1)]);
      TotalOfOne(Delay(b, k - 1));
      DelayIsAtMostMax(b, k - 1);
    }
  }

  lemma {:induction false} TotalOfOne(d: real)
    ensures Total([d]) == d
  {
    assert [d][..0] == [];
  }

  lemma {:induction false} DelayIsAtMostMax(b: Backoff, k: nat)
    requires Sensible(b)
    ensures Delay(b, k) <= b.max
  {
    DelayClosedForm(b, k);
  }

  /** A call sleeps at most `R * max` for each model it tries. */
  lemma {:induction false} SleepIsBounded(b: Backoff, runs: seq<nat>)
    requires Sensible(b) && WithinLimit(b, runs)
    ensures Total(SleepsOf(b, runs)) <= Scaled(|runs|, Scaled(Limit(b), b.max))
  {
    if runs != [] {
      var rest, last := runs[..|runs| - 1], runs[|runs| - 1];
      SleepIsBounded(b, rest);
      TotalOfConcat(SleepsOf(b, rest), Ladder(b, last));
      LadderTotal(b, last);
      ScaledIsMonotone(last, Limit(b), b.max);
    }
  }

  /** That is `models * R * max`. */
  lemma {:induction false} SleepIsWithinTheProduct(b: Backoff, runs: seq<nat>)
    requires Sensible(b) && WithinLimit(b, runs)
    ensures Total(SleepsOf(b, runs)) <= |runs| as real * (Limit(b) as real * b.max)
  {
    SleepIsBounded(b, runs);
    WithinTheProduct(Total(SleepsOf(b, runs)), |runs|, Limit(b), b.max);
  }

  lemma {:induction false} WithinTheProduct(total: real, n: nat, r: nat, max: real)
    requires total <= Scaled(n, Scaled(r, max))
    ensures total <= n as real * (r as real * max)
  {
    ScaledIsProduct(r, max);
    ScaledIsProduct(n, Scaled(r, max));
  }

  /** ... and every model it tries costs at most `R + 1` invocations of the wrapped function. */
  lemma {:induction false} InvocationsAreBounded(b: Backoff, runs: seq<nat>)
    requires WithinLimit(b, runs)
    ensures Sum(runs) + |runs| <= |runs| * (Limit(b) + 1)
  {
    if runs != [] {
      InvocationsAreBounded(b, runs[..|runs| - 1]);
      Distribute(|runs| - 1, Limit(b) + 1);
    }
  }

  lemma {:induction false} Distribute(a: int, n: int)
    ensures (a + 1) * n == a * n + n
  {
  }

  // ---------- one wrapped call ----------

  /** What one request comes to: JSON of the wanted shape, or an error - the provider's, or the schema
      validation's - with its lower-cased message. */
  datatype Response = Valid | Failing(message: string, code: Option<string>)

  /** The wrapper goes on with this error. */
  predicate Transient(r: Response) {
    r.Failing? && IsRetryable(r.message, r.code)
  }

  predicate DailyQuota(r: Response) {
    Transient(r) && IsDailyQuota(r.message)
  }

  /** The provider requests of an invocation whose first one is the q-th: a wrong shape, or any other
      error, is answered by one correcting request. */
  function Cost(provider: nat -> Response, q: nat): nat {
    if provider(q).Valid? then 1 else 2
  }

  /** Both requests of an invocation fail, and the second error, the only one the wrapper sees, is
      transient. */
  predicate FailsTransiently(provider: nat -> Response, q: nat) {
    provider(q).Failing? && Transient(provider(q + 1))
  }

  /** `n` invocations in a row do, the first one beginning with request `from`. */
  ghost predicate AllFailTransiently(provider: nat -> Response, from: nat, n: nat) {
    n == 0 || (AllFailTransiently(provider, from, n - 1) && FailsTransiently(provider, from + 2 * (n - 1)))
  }

  /** ... and cost two requests each. */
  ghost predicate Pending(provider: nat -> Response, from: nat, n: nat, requests: nat) {
    AllFailTransiently(provider, from, n) && requests == from + 2 * n
  }

  /** What a call of `n` invocations, the first one beginning with request `from`, has asked for. */
  ghost predicate Asked(provider: nat -> Response, from: nat, n: nat, requests: nat) {
    && n > 0 && AllFailTransiently(provider, from, n - 1)
    && requests == from + 2 * (n - 1) + Cost(provider, from + 2 * (n - 1))
  }

  /** How a wrapped call ends: an answer, the error itself, or the headless `RetryLater`. */
  datatype CallResult = Answered | Failed | Deferred

  /** How one pass of the loop ends: no error to handle, or what `_handle_transient` decides. */
  datatype Handling = Done | Again(retries: nat, delay: real) | GiveUp | HandBack

  /** What the last pass means for the caller: the work is handed back, or the last response is returned or
      raised. */
  function Outcome(h: Handling, last: Response): CallResult {
    if h.HandBack? then Deferred else if last.Valid? then Answered else Failed
  }

  /** Where a process stands. */
  datatype Point = Point(requests: nat, invocations: nat, advances: nat, position: int, sleeps: seq<real>)

  /** A call that began at `start` goes on: it has slept `runs[i]` times on the i-th model it tried,
      `retries` times on this one, and every invocation so far failed transiently. */
  ghost predicate GoesOn(b: Backoff, provider: nat -> Response, start: Point, now: Point, runs: seq<nat>,
                         retries: nat, delay: real) {
    && runs != [] && runs[|runs| - 1] == retries && delay == Delay(b, retries)
    && Counted(b, start, now, runs) && now.invocations == start.invocations + Sum(runs) + |runs| - 1
    && Pending(provider, start.requests, Sum(runs) + |runs| - 1, now.requests)
  }

  /** A call that began at `start` is over, after one more invocation. */
  ghost predicate Ended(b: Backoff, provider: nat -> Response, start: Point, now: Point, runs: seq<nat>) {
    && runs != []
    && Counted(b, start, now, runs) && now.invocations == start.invocations + Sum(runs) + |runs|
    && Asked(provider, start.requests, Sum(runs) + |runs|, now.requests)
  }

  /** What `runs` says of the advances and the sleeps. */
  ghost predicate Counted(b: Backoff, start: Point, now: Point, runs: seq<nat>) {
    && WithinLimit(b, runs) && now.sleeps == start.sleeps + SleepsOf(b, runs)
    && |runs| == now.advances - start.advances + 1 && now.position - start.position >= |runs| - 1
  }

  lemma {:induction false} CallBegins(b: Backoff, provider: nat -> Response, now: Point)
    ensures GoesOn(b, provider, now, now, [0], 0, b.initial)
  {
    NextModel(b, []);
  }

  lemma {:induction false} LastInvocation(
    b: Backoff, provider: nat -> Response, start: Point, now: Point, next: Point, runs: seq<nat>,
    retries: nat, delay: real)
    requires GoesOn(b, provider, start, now, runs, retries, delay)
    requires next.requests == now.requests + Cost(provider, now.requests) && next.invocations == now.invocations + 1
    requires next.advances == now.advances && next.position == now.position && next.sleeps == now.sleeps
    ensures Ended(b, provider, start, next, runs)
  {
  }

  lemma {:induction false} MovedOn(
    b: Backoff, provider: nat -> Response, start: Point, now: Point, next: Point, runs: seq<nat>,
    retries: nat, delay: real)
    requires GoesOn(b, provider, start, now, runs, retries, delay) && FailsTransiently(provider, now.requests)
    requires next.requests == now.requests + 2 && next.invocations == now.invocations + 1
    requires next.advances == now.advances + 1 && next.position > now.position && next.sleeps == now.sleeps
    ensures GoesOn(b, provider, start, next, runs + [0], 0, b.initial)
  {
    NextModel(b, runs);
  }

  lemma {:induction false} SleptOn(
    b: Backoff, provider: nat -> Response, start: Point, now: Point, next: Point, runs: seq<nat>,
    retries: nat, delay: real)
    requires GoesOn(b, provider, start, now, runs, retries, delay) && FailsTransiently(provider, now.requests)
    requires retries + 1 <= b.retries && next.sleeps == now.sleeps + [delay]
    requires next.requests == now.requests + 2 && next.invocations == now.invocations + 1
    requires next.advances == now.advances && next.position == now.position
    ensures GoesOn(b, provider, start, next, runs[|runs| - 1 := retries + 1], retries + 1, NextDelay(b, delay))
  {
    SleepOnce(b, start.sleeps, runs, retries);
  }

  /** One process: its model name, what the provider answers to the k-th request, and which models the
      shared ledger flags at the k-th load - whatever other processes wrote to it. */
  class Session {
    const preferred: seq<string>
    const backoff: Backoff
    const provider: nat -> Response
    const flagged: nat -> set<string>
    var modelName: string
    var requests: nat
    var invocations: nat
    var loads: nat
    var advances: nat
    var sleeps: seq<real>

    constructor (preferred: seq<string>, backoff: Backoff, provider: nat -> Response, flagged: nat -> set<string>,
                 modelName: string)
      ensures this.preferred == preferred && this.backoff == backoff && this.modelName == modelName
      ensures this.provider == provider && this.flagged == flagged
      ensures requests == 0 && invocations == 0 && loads == 0 && advances == 0 && sleeps == []
    {
      this.preferred, this.backoff, this.provider, this.flagged := preferred, backoff, provider, flagged;
      this.modelName, requests, invocations, loads, advances, sleeps := modelName, 0, 0, 0, 0, [];
    }

    function Position(): int
      reads this
    {
      Index(preferred, modelName)
    }

    /** `_advance_model`. */
    method AdvanceModel() returns (advanced: bool)
      requires DistinctModels(preferred)
      modifies this`modelName, this`loads, this`advances
      ensures advanced <==> NextAvailable(preferred, old(modelName), flagged(old(loads))).Some?
      ensures advanced ==>
                && modelName == NextAvailable(preferred, old(modelName), flagged(old(loads))).value
                && Position() > old(Position()) && advances == old(advances) + 1
      ensures !advanced ==> modelName == old(modelName) && advances == old(advances)
      ensures loads == old(loads) + 1
    {
      var next := NextAvailable(preferred, modelName, flagged(loads));
      if next.Some? {
        AdvanceClimbs(preferred, modelName, flagged(loads));
        modelName := next.value;
        advances := advances + 1;
      }
      loads := loads + 1;
      return next.Some?;
    }

    /** `_handle_transient`: sleep and go on, start over on the next model, or give up. It gives up
        only when no model after the current one is available, and hands the work back only on a
        daily quota. */
    method HandleTransient(error: Response, retries: nat, delay: real) returns (h: Handling)
      requires DistinctModels(preferred) && Transient(error)
      modifies this`modelName, this`loads, this`advances, this`sleeps
      ensures h.Again? && h.retries > 0 <==> !DailyQuota(error) && retries + 1 <= backoff.retries
      ensures h.Again? && h.retries > 0 ==>
                && h.retries == retries + 1 && h.delay == NextDelay(backoff, delay)
                && modelName == old(modelName) && advances == old(advances)
                && sleeps == old(sleeps) + [delay]
      ensures h.Again? && h.retries == 0 ==>
                && h.delay == backoff.initial
                && Some(modelName) == NextAvailable(preferred, old(modelName), flagged(old(loads)))
                && Position() > old(Position()) && advances == old(advances) + 1
                && sleeps == old(sleeps)
      ensures !h.Done?
      ensures !h.Again? ==>
                && (h.HandBack? <==> DailyQuota(error))
                && NextAvailable(preferred, old(modelName), flagged(old(loads))).None? && loads == old(loads) + 1
                && modelName == old(modelName) && advances == old(advances)
                && sleeps == old(sleeps)
    {
      if IsDailyQuota(error.message) {
        var moved := AdvanceModel();
        return if moved then Again(0, backoff.initial) else HandBack;
      }
      if retries + 1 > backoff.retries {
        var moved := AdvanceModel();
        return if moved then Again(0, backoff.initial) else GiveUp;
      }
      sleeps := sleeps + [delay];
      return Again(retries + 1, NextDelay(backoff, delay));
    }

    method Request() returns (response: Response)
      modifies this`requests
      ensures requests == old(requests) + 1 && response == provider(old(requests))
    {
      response := provider(requests);
      requests := requests + 1;
    }

    /** `_self_healing_generate`: one request, and a correcting one after any error of the first. */
    method SelfHealingGenerate() returns (response: Response)
      modifies this`requests
      ensures requests == old(requests) + Cost(provider, old(requests))
      ensures response == provider(requests - 1)
      ensures response.Failing? ==> provider(old(requests)).Failing? && requests == old(requests) + 2
      ensures requests == old(requests) + 1 <==> provider(old(requests)).Valid?
    {
      response := Request();
      if response.Failing? {
        response := Request();
      }
    }

    /** One pass of the wrapper's loop: invoke, and deal with what comes back. What the message of the
        last error says decides: it is raised unless it reads as transient; it is slept on while retries
        are left and it does not read as a daily quota; else the next model has its turn. */
    method Attempt(retries: nat, delay: real) returns (h: Handling)
      requires DistinctModels(preferred)
      modifies this`modelName, this`loads, this`advances, this`sleeps, this`invocations, this`requests
      ensures invocations == old(invocations) + 1
      ensures requests == old(requests) + Cost(provider, old(requests))
      ensures h.Done? <==> !Transient(provider(requests - 1))
      ensures h.Again? ==> FailsTransiently(provider, old(requests))
      ensures h.Again? && h.retries > 0 <==>
                && Transient(provider(requests - 1)) && !DailyQuota(provider(requests - 1))
                && retries + 1 <= backoff.retries
      ensures h.Again? && h.retries > 0 ==>
                && h.retries == retries + 1 && h.delay == NextDelay(backoff, delay)
                && modelName == old(modelName) && advances == old(advances)
                && sleeps == old(sleeps) + [delay]
      ensures h.Again? && h.retries == 0 ==>
                && h.delay == backoff.initial
                && Some(modelName) == NextAvailable(preferred, old(modelName), flagged(old(loads)))
                && Position() > old(Position()) && advances == old(advances) + 1
                && sleeps == old(sleeps)
      ensures !h.Again? ==> modelName == old(modelName) && advances == old(advances) && sleeps == old(sleeps)
      ensures h.HandBack? || h.GiveUp? ==>
                NextAvailable(preferred, old(modelName), flagged(old(loads))).None? && loads == old(loads) + 1
      ensures h.HandBack? <==> !h.Again? && DailyQuota(provider(requests - 1))
    {
      var response := SelfHealingGenerate();
      invocations := invocations + 1;
      if !Transient(response) {
        return Done;
      }
      h := HandleTransient(response, retries, delay);
    }

    ghost function Now(): Point
      reads this
    {
      Point(requests, invocations, advances, Position(), sleeps)
    }

    /** At its last load the ledger had no model to go on with. */
    ghost predicate NoneLeft()
      reads this
    {
      loads > 0 && NextAvailable(preferred, modelName, flagged(loads - 1)).None?
    }

    /** The call answers exactly when the last request was answered, defers exactly on a daily quota, and
        raises every other error: a lasting one at once, a transient one - a daily quota too - only without
        a further model, and when it is no daily quota with all retries of the last model used up. */
    ghost predicate Explains(result: CallResult, runs: seq<nat>)
      reads this
    {
      && requests > 0 && runs != []
      && var last := provider(requests - 1);
      && (result.Answered? <==> last.Valid?)
      && (result.Deferred? <==> last.Failing? && IsRetryable(last.message, last.code) && IsDailyQuota(last.message))
      && (last.Failing? && IsRetryable(last.message, last.code) ==> NoneLeft())
      && (result.Failed? && IsRetryable(last.message, last.code) ==> runs[|runs| - 1] == Limit(backoff))
    }

    /** One more pass of a call. */
    method Turn(retries: nat, delay: real, ghost start: Point, ghost runs: seq<nat>)
      returns (h: Handling, ghost runs': seq<nat>)
      requires DistinctModels(preferred) && GoesOn(backoff, provider, start, Now(), runs, retries, delay)
      modifies this`modelName, this`loads, this`advances, this`sleeps, this`invocations, this`requests
      ensures h.Again? ==> GoesOn(backoff, provider, start, Now(), runs', h.retries, h.delay)
      ensures h.Again? ==> Position() > old(Position()) || (Position() == old(Position()) && h.retries == retries + 1)
      ensures !h.Again? ==> Ended(backoff, provider, start, Now(), runs')
      ensures !h.Again? ==> Explains(Outcome(h, provider(requests - 1)), runs')
    {
      ghost var before := Now();
      h := Attempt(retries, delay);
      runs' := runs;
      if !h.Again? {
        LastInvocation(backoff, provider, start, before, Now(), runs, retries, delay);
      } else if h.retries == 0 {
        MovedOn(backoff, provider, start, before, Now(), runs, retries, delay);
        runs' := runs + [0];
      } else {
        SleptOn(backoff, provider, start, before, Now(), runs, retries, delay);
        runs' := runs[|runs| - 1 := retries + 1];
      }
    }

    /** The retry wrapper. `runs` counts its sleeps on each model it tried, so its invocations, its
        provider requests, its advances and its sleeps are known exactly: every invocation but the last
        costs two requests. It ends, because the model index only climbs. */
    method Call() returns (result: CallResult, ghost runs: seq<nat>)
      requires DistinctModels(preferred)
      modifies this`modelName, this`loads, this`advances, this`sleeps, this`invocations, this`requests
      ensures Ended(backoff, provider, old(Now()), Now(), runs)
      ensures Explains(result, runs)
    {
      ghost var start := Now();
      var delay := backoff.initial;
      var retries: nat := 0;
      runs := [0];
      CallBegins(backoff, provider, start);
      while true
        invariant GoesOn(backoff, provider, start, Now(), runs, retries, delay)
        decreases |preferred| - Position(), Limit(backoff) - retries
      {
        var h;
        h, runs := Turn(retries, delay, start, runs);
        if !h.Again? {
          return Outcome(h, provider(requests - 1)), runs;
        }
        retries, delay := h.retries, h.delay;
      }
      return Failed, runs;
    }
  }

  lemma {:induction false} NextModel(b: Backoff, runs: seq<nat>)
    ensures Sum(runs + [0]) == Sum(runs) && SleepsOf(b, runs + [0]) == SleepsOf(b, runs)
  {
    assert (runs + [0])[..|runs|] == runs;
  }

  lemma {:induction false} SleepOnce(b: Backoff, before: seq<real>, runs: seq<nat>, k: nat)
    requires runs != [] && runs[|runs| - 1] == k
    ensures var more := runs[|runs| - 1 := k + 1];
      && Sum(more) == Sum(runs) + 1
      && before + SleepsOf(b, runs) + [Delay(b, k)] == before + SleepsOf(b, more)
    ensures Delay(b, k + 1) == NextDelay(b, Delay(b, k))
  {
    var more := runs[|runs| - 1 := k + 1];
    assert more[..|more| - 1] == runs[..|runs| - 1];
    assert SleepsOf(b, more) == SleepsOf(b, runs) + [Delay(b, k)];
  }
}

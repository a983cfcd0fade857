/** The model-availability ledger on the file store (`utils/model_state.py`). Hours are reals. */
module ModelLedger {
  import opened Wrappers

  /** A flagged model; a missing or unreadable timestamp never grows stale. */
  datatype Record = Record(name: string, recordedAt: Option<real>)

  datatype Ledger = Ledger(current: string, unavailable: seq<Record>)

  predicate Stale(r: Record, now: real, ttl: real) {
    r.recordedAt.Some? && now - r.recordedAt.value > ttl
  }

  /** `unavailable_names`. */
  function UnavailableNames(l: Ledger, now: real, ttl: real): set<string> {
    set r | r in l.unavailable && r.name != "" && !Stale(r, now, ttl) :: r.name
  }

  /** `preferred_available`: the preferred models that are not flagged, in order. */
  function Available(preferred: seq<string>, skip: set<string>): (models: seq<string>)
    ensures forall m :: m in models <==> m in preferred && m !in skip
  {
    if preferred == [] then []
    else (if preferred[0] in skip then [] else [preferred[0]]) + Available(preferred[1..], skip)
  }

  /** `PREFERRED_MODELS.index(model)`, or -1. */
  function Index(preferred: seq<string>, model: string): (i: int)
    ensures -1 <= i < |preferred|
    ensures i == -1 <==> model !in preferred
    ensures i >= 0 ==> preferred[i] == model
  {
    if preferred == [] then -1
    else if preferred[0] == model then 0
    else
      var i := Index(preferred[1..], model);
      if i == -1 then -1 else i + 1
  }

  function FirstAvailable(candidates: seq<string>, skip: set<string>): (m: Option<string>)
    ensures m.None? <==> forall c :: c in candidates ==> c in skip
    ensures m.Some? ==> m.value in candidates && m.value !in skip
  {
    if candidates == [] then None
    else if candidates[0] !in skip then Some(candidates[0])
    else FirstAvailable(candidates[1..], skip)
  }

  /** `next_available_model`: the next unflagged preferred model after `model`; a model that is not
      preferred counts as standing before the first. */
  function NextAvailable(preferred: seq<string>, model: string, skip: set<string>): Option<string> {
    FirstAvailable(preferred[Index(preferred, model) + 1..], skip)
  }

  ghost predicate DistinctModels(preferred: seq<string>) {
    forall i, j :: 0 <= i < j < |preferred| ==> preferred[i] != preferred[j]
  }

  lemma {:induction false} IndexOfDistinct(preferred: seq<string>, j: nat)
    requires DistinctModels(preferred) && j < |preferred|
    ensures Index(preferred, preferred[j]) == j
  {
  }

  lemma {:induction false} BehindTheFirst(preferred: seq<string>, n: nat, next: string) returns (j: nat)
    requires n <= |preferred| && next in preferred[n..]
    ensures n <= j < |preferred| && preferred[j] == next
  {
    var k :| 0 <= k < |preferred[n..]| && preferred[n..][k] == next;
    j := n + k;
  }

  /** With distinct models an advance strictly climbs the list. */
  lemma {:induction false} AdvanceClimbs(preferred: seq<string>, model: string, skip: set<string>)
    requires DistinctModels(preferred) && NextAvailable(preferred, model, skip).Some?
    ensures var next := NextAvailable(preferred, model, skip).value;
      && next in preferred && next !in skip && next != model
      && Index(preferred, next) > Index(preferred, model)
  {
    var next := NextAvailable(preferred, model, skip).value;
    var j := BehindTheFirst(preferred, Index(preferred, model) + 1, next);
    IndexOfDistinct(preferred, j);
  }

  ghost predicate Climbs(preferred: seq<string>, model: string, skip: set<string>) {
    var next := NextAvailable(preferred, model, skip);
    next.Some? ==> Index(preferred, next.value) > Index(preferred, model)
  }

  /** The first repetition: position `j` repeats position `i`, and nothing before `j` is repeated. */
  lemma {:induction false} FirstRepetition(preferred: seq<string>) returns (i: nat, j: nat)
    requires !DistinctModels(preferred)
    ensures i < j < |preferred| && preferred[i] == preferred[j] && DistinctModels(preferred[..j])
  {
    var n := |preferred| - 1;
    if DistinctModels(preferred[..n]) {
      j := n;
      i :| 0 <= i < j && preferred[i] == preferred[j];
    } else {
      i, j := FirstRepetition(preferred[..n]);
      assert preferred[..n][..j] == preferred[..j];
    }
  }

  lemma {:induction false} IndexUpToTheRepetition(preferred: seq<string>, i: nat, j: nat, k: nat)
    requires i < j < |preferred| && preferred[i] == preferred[j] && DistinctModels(preferred[..j]) && k <= j
    ensures Index(preferred, preferred[k]) == if k < j then k else i
  {
    var at := if k < j then k else i;
    IndexIsFirst(preferred, preferred[k], at);
    forall a, b | 0 <= a < b < j
      ensures preferred[a] != preferred[b]
    {
      assert preferred[..j][a] == preferred[a] && preferred[..j][b] == preferred[b];
    }
  }

  lemma {:induction false} IndexIsFirst(preferred: seq<string>, model: string, k: nat)
    requires k < |preferred| && preferred[k] == model
    ensures 0 <= Index(preferred, model) <= k
  {
    if preferred[0] != model {
      IndexIsFirst(preferred[1..], model, k - 1);
    }
  }

  /** With nothing flagged the next model is the one right behind. */
  lemma {:induction false} NextIsTheNeighbour(preferred: seq<string>, model: string)
    requires Index(preferred, model) + 1 < |preferred|
    ensures NextAvailable(preferred, model, {}) == Some(preferred[Index(preferred, model) + 1])
  {
  }

  /** Every advance climbs, whatever is flagged, exactly when the models are distinct. */
  lemma {:induction false} AdvanceClimbsExactly(preferred: seq<string>)
    ensures (forall model, skip :: Climbs(preferred, model, skip)) <==> DistinctModels(preferred)
  {
    if DistinctModels(preferred) {
      forall model, skip
        ensures Climbs(preferred, model, skip)
      {
        if NextAvailable(preferred, model, skip).Some? {
          AdvanceClimbs(preferred, model, skip);
        }
      }
    } else {
      var i, j := FirstRepetition(preferred);
      IndexUpToTheRepetition(preferred, i, j, j - 1);
      IndexUpToTheRepetition(preferred, i, j, j);
      NextIsTheNeighbour(preferred, preferred[j - 1]);
      assert !Climbs(preferred, preferred[j - 1], {});
    }
  }

  /** Models a process moves through, each the advance from the one before under what is then flagged. */
  predicate Walk(preferred: seq<string>, models: seq<string>, skips: seq<set<string>>)
    decreases |skips|
  {
    && |models| == |skips| + 1
    && (skips != [] ==>
          && NextAvailable(preferred, models[0], skips[0]) == Some(models[1])
          && Walk(preferred, models[1..], skips[1..]))
  }

  /** A process that starts on a preferred model moves at most to the end of the list. */
  lemma {:induction false} WalkIsBounded(preferred: seq<string>, models: seq<string>, skips: seq<set<string>>)
    requires DistinctModels(preferred) && Walk(preferred, models, skips)
    ensures |skips| <= |preferred| - 1 - Index(preferred, models[0])
    decreases |skips|
  {
    if skips != [] {
      AdvanceClimbs(preferred, models[0], skips[0]);
      WalkIsBounded(preferred, models[1..], skips[1..]);
    }
  }

  ghost predicate Ascends(preferred: seq<string>, length: nat) {
    exists models, skips :: Walk(preferred, models, skips) && |skips| == length
  }

  /** A repeated model makes the neighbour walk go round, even with nothing flagged. */
  lemma {:induction false} GoesRound(preferred: seq<string>, i: nat, j: nat, k: nat, n: nat)
    returns (models: seq<string>, skips: seq<set<string>>)
    requires i < j < |preferred| && preferred[i] == preferred[j] && DistinctModels(preferred[..j])
    requires i <= k < j
    ensures Walk(preferred, models, skips) && |skips| == n && models[0] == preferred[k]
    decreases n
  {
    if n == 0 {
      models, skips := [preferred[k]], [];
    } else {
      IndexUpToTheRepetition(preferred, i, j, k);
      NextIsTheNeighbour(preferred, preferred[k]);
      var rest, flagged := GoesRound(preferred, i, j, if k + 1 < j then k + 1 else i, n - 1);
      models, skips := [preferred[k]] + rest, [{}] + flagged;
      assert models[1..] == rest && skips[1..] == flagged;
    }
  }

  /** The advances of one process have a bound exactly when the models are distinct. */
  lemma {:induction false} WalksEndExactly(preferred: seq<string>)
    ensures (exists most: nat :: !Ascends(preferred, most)) <==> DistinctModels(preferred)
  {
    if DistinctModels(preferred) {
      var most := |preferred| + 1;
      if Ascends(preferred, most) {
        var models, skips :| Walk(preferred, models, skips) && |skips| == most;
        WalkIsBounded(preferred, models, skips);
      }
      assert !Ascends(preferred, most);
    } else {
      var i, j := FirstRepetition(preferred);
      forall most: nat
        ensures Ascends(preferred, most)
      {
        var models, skips := GoesRound(preferred, i, j, i, most);
      }
    }
  }

  /** For example, from the middle of [a, b, a] an advance steps back to the front. */
  lemma {:induction false} RepeatedModelStepsBack(a: string, b: string)
    requires a != b
    ensures NextAvailable([a, b, a], b, {}) == Some(a)
    ensures Index([a, b, a], a) < Index([a, b, a], b)
  {
    assert Index([a, b, a], a) == 0 && Index([a, b, a], b) == 1;
    NextIsTheNeighbour([a, b, a], b);
  }

  // ---------- the operations ----------

  /** `init_model_state`: the model to start with. */
  function StartModel(l: Ledger, preferred: seq<string>, now: real, ttl: real): (model: string)
    requires preferred != []
    ensures model in preferred
  {
    var available := Available(preferred, UnavailableNames(l, now, ttl));
    if l.current in available then l.current
    else if available != [] then available[0]
    else preferred[0]
  }

  function Without(records: seq<Record>, name: string): (r: seq<Record>)
    ensures forall x :: x in r <==> x in records && x.name != name
  {
    if records == [] then []
    else (if records[0].name == name then [] else [records[0]]) + Without(records[1..], name)
  }

  /** `advance_after_failure`: the chosen model and the ledger it saves; with no further model
      nothing is recorded. */
  function Advance(l: Ledger, preferred: seq<string>, failing: string, now: real, ttl: real)
    : (Option<string>, Ledger)
  {
    var next := NextAvailable(preferred, failing, UnavailableNames(l, now, ttl));
    if next.None? then (None, l)
    else (next, Ledger(next.value, Without(l.unavailable, failing) + [Record(failing, Some(now))]))
  }

  /** A process starts on the model it stood on last when that is still a preferred and unflagged one; else
      on the first preferred one that is not flagged; and on the first of all when every one is. */
  lemma {:induction false} StartModelExactly(l: Ledger, preferred: seq<string>, now: real, ttl: real)
    requires preferred != []
    ensures var start, flagged := StartModel(l, preferred, now, ttl), UnavailableNames(l, now, ttl);
      && (l.current in preferred && l.current !in flagged ==> start == l.current)
      && (!(l.current in preferred && l.current !in flagged) && start !in flagged ==>
            forall k :: 0 <= k < Index(preferred, start) ==> preferred[k] in flagged)
      && (start in flagged ==> start == preferred[0] && forall m :: m in preferred ==> m in flagged)
  {
    FirstUnflagged(preferred, UnavailableNames(l, now, ttl));
  }

  lemma {:induction false} FirstUnflagged(preferred: seq<string>, flagged: set<string>)
    ensures var available := Available(preferred, flagged);
      && (available == [] ==> forall m :: m in preferred ==> m in flagged)
      && (available != [] ==>
            available[0] !in flagged
            && forall k :: 0 <= k < Index(preferred, available[0]) ==> preferred[k] in flagged)
  {
    if preferred != [] {
      FirstUnflagged(preferred[1..], flagged);
    }
  }

  /** So a restart goes on with the model an advance saved. */
  lemma {:induction false} RestartKeepsTheFallback(l: Ledger, preferred: seq<string>, failing: string, now: real,
                                                   ttl: real)
    requires preferred != [] && DistinctModels(preferred)
    requires Advance(l, preferred, failing, now, ttl).0.Some?
    ensures var (next, after) := Advance(l, preferred, failing, now, ttl);
      StartModel(after, preferred, now, ttl) == next.value
  {
    ChosenModelIsAvailable(l, preferred, failing, now, ttl);
  }

  // ---------- the ledger is never bricked ----------

  datatype World = World(ledger: Ledger, now: real)

  /** Runs of the file store: start-ups, advances (whose save may fail and is then only logged),
      an unreadable file, and time going on. */
  datatype Event =
    | Init(saved: bool)
    | Fail(model: string, saved: bool)
    | Unreadable(current: string)
    | Tick(hours: real)

  predicate Possible(e: Event) {
    e.Tick? ==> e.hours >= 0.0
  }

  function Next(w: World, e: Event, preferred: seq<string>, ttl: real): World
    requires preferred != []
  {
    match e
    case Init(saved) =>
      if saved then w.(ledger := w.ledger.(current := StartModel(w.ledger, preferred, w.now, ttl))) else w
    case Fail(model, saved) =>
      if saved then w.(ledger := Advance(w.ledger, preferred, model, w.now, ttl).1) else w
    case Unreadable(current) => w.(ledger := Ledger(current, []))
    case Tick(hours) => w.(now := w.now + hours)
  }

  function After(w: World, events: seq<Event>, preferred: seq<string>, ttl: real): World
    requires preferred != []
    decreases |events|
  {
    if events == [] then w else After(Next(w, events[0], preferred, ttl), events[1..], preferred, ttl)
  }

  ghost predicate Usable(w: World, preferred: seq<string>, ttl: real) {
    exists m :: m in preferred && m !in UnavailableNames(w.ledger, w.now, ttl)
  }

  /** A saved advance leaves its chosen model available exactly when it chose another one than the one
      that failed (or what it recorded cannot flag anything). With distinct models it always does. */
  lemma {:induction false} ChosenModelIsAvailable(l: Ledger, preferred: seq<string>, failing: string, now: real,
                                                  ttl: real)
    requires Advance(l, preferred, failing, now, ttl).0.Some?
    ensures var (next, after) := Advance(l, preferred, failing, now, ttl);
      && next.value in preferred
      && (next.value !in UnavailableNames(after, now, ttl)
          <==> next.value != failing || failing == "" || ttl < 0.0)
      && (DistinctModels(preferred) ==> next.value !in UnavailableNames(after, now, ttl))
  {
    var (next, after) := Advance(l, preferred, failing, now, ttl);
    var record := Record(failing, Some(now));
    assert record in after.unavailable;
    assert Stale(record, now, ttl) <==> ttl < 0.0;
    if DistinctModels(preferred) {
      AdvanceClimbs(preferred, failing, UnavailableNames(l, now, ttl));
    }
  }

  /** Whatever the start-ups, failures, lost saves, unreadable files and time, from an empty ledger on
      some preferred model is available. */
  ghost predicate AlwaysUsable(preferred: seq<string>, ttl: real)
    requires preferred != []
  {
    forall current, now, events: seq<Event> :: (forall e :: e in events ==> Possible(e))
      ==> Usable(After(World(Ledger(current, []), now), events, preferred, ttl), preferred, ttl)
  }

  /** The last preferred model stands nowhere else in the list. */
  predicate LastIsUnique(preferred: seq<string>)
    requires preferred != []
  {
    preferred[|preferred| - 1] !in preferred[..|preferred| - 1]
  }

  /** The ledger can never be bricked exactly when the last model is named once - it is then never
      recorded, because there is nothing to advance to. (A negative time to live flags nothing, and nor
      does an empty name.) */
  lemma {:induction false} NeverBrickedExactly(preferred: seq<string>, ttl: real)
    requires preferred != []
    ensures AlwaysUsable(preferred, ttl) <==> ttl < 0.0 || "" in preferred || LastIsUnique(preferred)
  {
    if ttl < 0.0 || "" in preferred || LastIsUnique(preferred) {
      forall current, now, events: seq<Event> | forall e :: e in events ==> Possible(e)
        ensures Usable(After(World(Ledger(current, []), now), events, preferred, ttl), preferred, ttl)
      {
        NeverBricked(current, now, events, preferred, ttl);
      }
    } else {
      var events := BrickingRun(preferred, ttl);
    }
  }

  lemma {:induction false} NeverBricked(current: string, now: real, events: seq<Event>, preferred: seq<string>,
                                        ttl: real)
    requires preferred != [] && (ttl < 0.0 || "" in preferred || LastIsUnique(preferred))
    requires forall e :: e in events ==> Possible(e)
    ensures Usable(After(World(Ledger(current, []), now), events, preferred, ttl), preferred, ttl)
  {
    ConsistentOverRun(World(Ledger(current, []), now), events, preferred, ttl);
    ConsistentIsUsable(After(World(Ledger(current, []), now), events, preferred, ttl), preferred, ttl);
  }

  /** No record is from the future, and a last model named once is never recorded. */
  ghost predicate Consistent(w: World, preferred: seq<string>)
    requires preferred != []
  {
    forall r :: r in w.ledger.unavailable ==>
      && r.recordedAt.Some? && r.recordedAt.value <= w.now
      && (LastIsUnique(preferred) ==> r.name != preferred[|preferred| - 1])
  }

  lemma {:induction false} ConsistentIsUsable(w: World, preferred: seq<string>, ttl: real)
    requires preferred != [] && Consistent(w, preferred)
    requires ttl < 0.0 || "" in preferred || LastIsUnique(preferred)
    ensures Usable(w, preferred, ttl)
  {
    var m := if "" in preferred then "" else preferred[|preferred| - 1];
    assert m in preferred && m !in UnavailableNames(w.ledger, w.now, ttl);
  }

  /** Nothing stands behind a last model that is named once, so it is never recorded. */
  lemma {:induction false} LastHasNoNext(preferred: seq<string>, skip: set<string>)
    requires preferred != [] && LastIsUnique(preferred)
    ensures NextAvailable(preferred, preferred[|preferred| - 1], skip).None?
  {
    forall k | 0 <= k < |preferred| - 1
      ensures preferred[k] != preferred[|preferred| - 1]
    {
      assert preferred[..|preferred| - 1][k] == preferred[k];
    }
  }

  lemma {:induction false} StepKeepsConsistent(w: World, e: Event, preferred: seq<string>, ttl: real)
    requires preferred != [] && Possible(e) && Consistent(w, preferred)
    ensures Consistent(Next(w, e, preferred, ttl), preferred)
  {
    if e.Fail? && LastIsUnique(preferred) {
      LastHasNoNext(preferred, UnavailableNames(w.ledger, w.now, ttl));
    }
  }

  lemma {:induction false} ConsistentOverRun(w: World, events: seq<Event>, preferred: seq<string>, ttl: real)
    requires preferred != [] && Consistent(w, preferred) && forall e :: e in events ==> Possible(e)
    ensures Consistent(After(w, events, preferred, ttl), preferred)
    decreases |events|
  {
    if events != [] {
      StepKeepsConsistent(w, events[0], preferred, ttl);
      ConsistentOverRun(Next(w, events[0], preferred, ttl), events[1..], preferred, ttl);
    }
  }

  // A last model that is named twice: every other model fails, and then it does.

  /** The models fail one after the other, and last of all `last`. */
  function Failures(models: seq<string>, last: string): (events: seq<Event>)
    ensures forall e :: e in events ==> e.Fail?
  {
    if models == [] then [Fail(last, true)] else [Fail(models[0], true)] + Failures(models[1..], last)
  }

  /** Exactly `names` are flagged, all just now. */
  ghost predicate FlaggedNow(w: World, names: set<string>) {
    && (forall r :: r in w.ledger.unavailable ==> r.recordedAt == Some(w.now))
    && (forall name :: name in names <==> exists r :: r in w.ledger.unavailable && r.name == name)
  }

  lemma {:induction false} FlaggedAreUnavailable(w: World, names: set<string>, ttl: real)
    requires FlaggedNow(w, names) && "" !in names && ttl >= 0.0
    ensures UnavailableNames(w.ledger, w.now, ttl) == names
  {
    forall name
      ensures name in UnavailableNames(w.ledger, w.now, ttl) <==> name in names
    {
      if name in names {
        var r :| r in w.ledger.unavailable && r.name == name;
        assert !Stale(r, w.now, ttl);
      }
    }
  }

  /** A failing model in front of an unflagged last one is recorded. */
  lemma {:induction false} FailureIsRecorded(w: World, model: string, names: set<string>, preferred: seq<string>,
                                             ttl: real)
    requires preferred != [] && "" !in preferred && ttl >= 0.0
    requires FlaggedNow(w, names) && "" !in names && preferred[|preferred| - 1] !in names
    requires model in preferred && Index(preferred, model) < |preferred| - 1
    ensures var t := Next(w, Fail(model, true), preferred, ttl);
      t.now == w.now && FlaggedNow(t, names + {model})
  {
    var last, from := preferred[|preferred| - 1], Index(preferred, model) + 1;
    FlaggedAreUnavailable(w, names, ttl);
    assert preferred[from..][|preferred| - 1 - from] == last;
    assert NextAvailable(preferred, model, names).Some?;
    var t := Next(w, Fail(model, true), preferred, ttl);
    RecordedNames(w.ledger.unavailable, model, w.now);
    assert t.ledger.unavailable == Without(w.ledger.unavailable, model) + [Record(model, Some(w.now))];
  }

  lemma {:induction false} RecordedNames(records: seq<Record>, model: string, now: real)
    ensures var after := Without(records, model) + [Record(model, Some(now))];
      && (forall r :: r in after ==> r in records || r == Record(model, Some(now)))
      && (forall r :: r in records && r.name != model ==> r in after)
      && Record(model, Some(now)) in after
  {
  }

  function NamesOf(models: seq<string>): (names: set<string>)
    ensures forall m :: m in names <==> m in models
  {
    if models == [] then {} else {models[0]} + NamesOf(models[1..])
  }

  lemma {:induction false} FailuresFlagAll(w: World, models: seq<string>, names: set<string>, preferred: seq<string>,
                                           ttl: real)
    requires preferred != [] && "" !in preferred && ttl >= 0.0 && !LastIsUnique(preferred)
    requires FlaggedNow(w, names) && "" !in names && preferred[|preferred| - 1] !in names
    requires forall m :: m in models ==> m in preferred && m != preferred[|preferred| - 1]
    ensures var last := preferred[|preferred| - 1];
      var t := After(w, Failures(models, last), preferred, ttl);
      t.now == w.now && FlaggedNow(t, names + NamesOf(models) + {last})
    decreases |models|
  {
    var last := preferred[|preferred| - 1];
    if models == [] {
      LastFailureFlagsAll(w, names, preferred, ttl);
      assert names + NamesOf(models) + {last} == names + {last};
    } else {
      var m := models[0];
      FailureIsRecorded(w, m, names, preferred, ttl);
      FailuresFlagAll(Next(w, Fail(m, true), preferred, ttl), models[1..], names + {m}, preferred, ttl);
      FailuresStep(w, models, last, preferred, ttl);
      assert names + {m} + NamesOf(models[1..]) + {last} == names + NamesOf(models) + {last};
    }
  }

  lemma {:induction false} FailuresStep(w: World, models: seq<string>, last: string, preferred: seq<string>, ttl: real)
    requires preferred != [] && models != []
    ensures After(w, Failures(models, last), preferred, ttl)
         == After(Next(w, Fail(models[0], true), preferred, ttl), Failures(models[1..], last), preferred, ttl)
  {
    var events := Failures(models, last);
    assert events[0] == Fail(models[0], true) && events[1..] == Failures(models[1..], last);
  }

  lemma {:induction false} LastFailureFlagsAll(w: World, names: set<string>, preferred: seq<string>, ttl: real)
    requires preferred != [] && "" !in preferred && ttl >= 0.0 && !LastIsUnique(preferred)
    requires FlaggedNow(w, names) && "" !in names && preferred[|preferred| - 1] !in names
    ensures var last := preferred[|preferred| - 1];
      var t := After(w, Failures([], last), preferred, ttl);
      t.now == w.now && FlaggedNow(t, names + {last})
  {
    var last := preferred[|preferred| - 1];
    var k :| 0 <= k < |preferred| - 1 && preferred[k] == last;
    IndexIsFirst(preferred, last, k);
    FailureIsRecorded(w, last, names, preferred, ttl);
    assert Failures([], last) == [Fail(last, true)] && [Fail(last, true)][1..] == [];
  }

  lemma {:induction false} BrickingRun(preferred: seq<string>, ttl: real) returns (events: seq<Event>)
    requires preferred != [] && "" !in preferred && ttl >= 0.0 && !LastIsUnique(preferred)
    ensures forall e :: e in events ==> Possible(e)
    ensures !Usable(After(World(Ledger("", []), 0.0), events, preferred, ttl), preferred, ttl)
  {
    var last, w := preferred[|preferred| - 1], World(Ledger("", []), 0.0);
    var others := Available(preferred, {last});
    events := Failures(others, last);
    FailuresFlagAll(w, others, {}, preferred, ttl);
    var t := After(w, events, preferred, ttl);
    FlaggedAreUnavailable(t, {} + NamesOf(others) + {last}, ttl);
    forall m | m in preferred
      ensures m in UnavailableNames(t.ledger, t.now, ttl)
    {
      assert m in others || m == last;
    }
  }

  /** The shortest such list is bricked by one failure. */
  lemma {:induction false} RepeatedModelBricks(model: string, now: real, ttl: real)
    requires model != "" && ttl >= 0.0
    ensures var w := World(Ledger(model, []), now);
      !Usable(Next(w, Fail(model, true), [model, model], ttl), [model, model], ttl)
  {
    var w := World(Ledger(model, []), now);
    var preferred := [model, model];
    var t := Next(w, Fail(model, true), preferred, ttl);
    FailureIsRecorded(w, model, {}, preferred, ttl);
    FlaggedAreUnavailable(t, {} + {model}, ttl);
  }

  // ---------- the store as an object ----------

  /** `FileModelStateStore` with the process's `config.MODEL_NAME`. */
  class LedgerFile {
    var ledger: Ledger
    var modelName: string
    const preferred: seq<string>
    const ttl: real

    constructor (ledger: Ledger, modelName: string, preferred: seq<string>, ttl: real)
      ensures this.ledger == ledger && this.modelName == modelName
      ensures this.preferred == preferred && this.ttl == ttl
    {
      this.ledger, this.modelName, this.preferred, this.ttl := ledger, modelName, preferred, ttl;
    }

    /** `init_model_state`. */
    method InitModelState(now: real, saved: bool)
      requires preferred != []
      modifies this
      ensures modelName == StartModel(old(ledger), preferred, now, ttl) && modelName in preferred
      ensures ledger == Next(World(old(ledger), now), Init(saved), preferred, ttl).ledger
      ensures ledger == if saved then old(ledger).(current := modelName) else old(ledger)
    {
      var available := Available(preferred, UnavailableNames(ledger, now, ttl));
      if ledger.current in preferred && ledger.current in available {
        modelName := ledger.current;
      } else if available != [] {
        modelName := available[0];
      } else {
        modelName := preferred[0];
      }
      if saved {
        ledger := ledger.(current := modelName);
      }
    }

    /** `advance_after_failure`: the process's model name is left to the caller. */
    method AdvanceAfterFailure(failing: string, now: real, saved: bool) returns (next: Option<string>)
      requires preferred != []
      modifies this`ledger
      ensures next == Advance(old(ledger), preferred, failing, now, ttl).0
      ensures ledger == Next(World(old(ledger), now), Fail(failing, saved), preferred, ttl).ledger
      ensures !saved || next.None? ==> ledger == old(ledger)
      ensures saved && next.Some? ==> ledger.current == next.value && Record(failing, Some(now)) in ledger.unavailable
    {
      next := NextAvailable(preferred, failing, UnavailableNames(ledger, now, ttl));
      if next.None? {
        return;
      }
      if saved {
        ledger := Ledger(next.value, Without(ledger.unavailable, failing) + [Record(failing, Some(now))]);
      }
    }
  }
}

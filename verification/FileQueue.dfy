/** The file queue of a single machine (`DirectoryQueue` of `utils/messaging.py`): a message is a JSON file
    that moves between directories. */
module FileQueue {
  import Broker
  import opened Wrappers

  datatype Bucket = Incoming | Inflight | Processed | Failed | Retrying

  /** A message file; `attempt` is the counter in its payload. */
  datatype File = File(bucket: Bucket, readable: bool, attempt: nat)

  type Files = map<string, File>

  function InBucket(files: Files, bucket: Bucket): set<string> {
    set n | n in files && files[n].bucket == bucket
  }

  predicate Pending(f: File) {
    f.bucket == Incoming || f.bucket == Retrying
  }

  /** The first pending file: fresh ones before deferred ones, each in the order of their names. */
  function Chosen(files: Files, first: set<string> -> string): Option<string> {
    if InBucket(files, Incoming) != {} then Some(first(InBucket(files, Incoming)))
    else if InBucket(files, Retrying) != {} then Some(first(InBucket(files, Retrying)))
    else None
  }

  /** `first` picks an element of every non-empty set. */
  ghost predicate Picks(first: set<string> -> string) {
    forall s :: s != {} ==> first(s) in s
  }

  /** `_settle`: a delay is not honoured, any retry is another pass with one more attempt. */
  function Settled(f: File, outcome: Broker.Outcome): File {
    match outcome
    case Ack => f.(bucket := Processed)
    case DeadLetter => f.(bucket := Failed)
    case Retry => f.(bucket := Retrying, attempt := f.attempt + 1)
    case RetryLater(_) => f.(bucket := Retrying, attempt := f.attempt + 1)
  }

  /** A handler that raised counts as a retry. */
  function Answered(answer: Option<Broker.Outcome>): Broker.Outcome {
    if answer.None? then Broker.Retry else answer.value
  }

  ghost function Unreadable(files: Files): set<string> {
    set n | n in files && Pending(files[n]) && !files[n].readable
  }

  lemma {:induction false} ParkedOnce(files: Files, name: string)
    requires name in Unreadable(files)
    ensures |Unreadable(files[name := files[name].(bucket := Failed)])| < |Unreadable(files)|
  {
    assert Unreadable(files[name := files[name].(bucket := Failed)]) == Unreadable(files) - {name};
  }

  lemma {:induction false} ChosenIsPending(files: Files, first: set<string> -> string)
    requires Picks(first) && Chosen(files, first).Some?
    ensures var n := Chosen(files, first).value; n in files && Pending(files[n])
  {
    assert Chosen(files, first).value in InBucket(files, Incoming) + InBucket(files, Retrying);
  }

  /** A deferred file has its turn only when no fresh one waits, and some file has it while any waits. */
  lemma {:induction false} FreshFilesComeFirst(files: Files, first: set<string> -> string)
    requires Picks(first)
    ensures Chosen(files, first).Some? <==> exists n :: n in files && Pending(files[n])
    ensures var chosen := Chosen(files, first);
      chosen.Some? && files[chosen.value].bucket != Incoming ==>
        forall n :: n in files ==> files[n].bucket != Incoming
  {
    if Chosen(files, first).Some? {
      ChosenIsPending(files, first);
    }
    forall n | n in files && Pending(files[n])
      ensures n in InBucket(files, Incoming) + InBucket(files, Retrying)
    {
    }
    if n :| n in files && files[n].bucket == Incoming {
      assert n in InBucket(files, Incoming);
    }
  }

  /** The files and the count after consuming on from `done` handled messages; `handler(k)` is what
      the k-th handled message comes to. */
  ghost function Consumed(files: Files, handler: nat -> Option<Broker.Outcome>, first: set<string> -> string,
                          max: nat, done: nat): (Files, nat)
    requires Picks(first)
    decreases if max > done then max - done else 0, |Unreadable(files)|, if max > done then 0 else 1
  {
    if Chosen(files, first).None? then (files, done)
    else
      ChosenIsPending(files, first);
      var name := Chosen(files, first).value;
      if !files[name].readable then
        ParkedOnce(files, name);
        Consumed(files[name := files[name].(bucket := Failed)], handler, first, max, done)
      else
        var after := files[name := Settled(files[name], Answered(handler(done)))];
        if done + 1 >= max then (after, done + 1) else Consumed(after, handler, first, max, done + 1)
  }

  /** What may happen to a message: nothing, or, while it is pending, another pass, the processed or the
      failed directory. */
  predicate MayBecome(f: File, g: File) {
    || g == f
    || (Pending(f) && g.bucket in {Processed, Failed, Retrying} && g.attempt >= f.attempt && g.readable == f.readable)
  }

  lemma {:induction false} SettledMayBecome(f: File, g: File, outcome: Broker.Outcome)
    requires Pending(f) && MayBecome(Settled(f, outcome), g)
    ensures MayBecome(f, g)
  {
  }

  /** No message disappears, is duplicated or is touched while it is not pending. */
  lemma {:induction false} NothingDisappears(files: Files, handler: nat -> Option<Broker.Outcome>,
                                             first: set<string> -> string, max: nat, done: nat, name: string)
    requires Picks(first) && name in files
    ensures var t := Consumed(files, handler, first, max, done).0;
      t.Keys == files.Keys && MayBecome(files[name], t[name])
    decreases if max > done then max - done else 0, |Unreadable(files)|, if max > done then 0 else 1
  {
    if Chosen(files, first).Some? {
      ChosenIsPending(files, first);
      var n := Chosen(files, first).value;
      if !files[n].readable {
        ParkedOnce(files, n);
        NothingDisappears(files[n := files[n].(bucket := Failed)], handler, first, max, done, name);
      } else {
        var outcome := Answered(handler(done));
        var after := files[n := Settled(files[n], outcome)];
        if done + 1 < max {
          NothingDisappears(after, handler, first, max, done + 1, name);
        }
        if n == name {
          SettledMayBecome(files[n], Consumed(files, handler, first, max, done).0[n], outcome);
        }
        assert after.Keys == files.Keys;
      }
    }
  }

  /** It stops early only when nothing is pending any more, and hands over at most `max` messages -
      one when `max` is 0. */
  lemma {:induction false} StopsWhenDone(files: Files, handler: nat -> Option<Broker.Outcome>,
                                         first: set<string> -> string, max: nat, done: nat)
    requires Picks(first)
    ensures var (t, n) := Consumed(files, handler, first, max, done);
      && done <= n <= Max(max, done + 1)
      && (n < max ==> forall name :: name in t ==> !Pending(t[name]))
    decreases if max > done then max - done else 0, |Unreadable(files)|, if max > done then 0 else 1
  {
    if Chosen(files, first).None? {
      forall name | name in files
        ensures !Pending(files[name])
      {
        assert name !in InBucket(files, Incoming) && name !in InBucket(files, Retrying);
      }
    } else {
      ChosenIsPending(files, first);
      var n := Chosen(files, first).value;
      if !files[n].readable {
        ParkedOnce(files, n);
        StopsWhenDone(files[n := files[n].(bucket := Failed)], handler, first, max, done);
      } else if done + 1 < max {
        StopsWhenDone(files[n := Settled(files[n], Answered(handler(done)))], handler, first, max, done + 1);
      }
    }
  }

  // ---------- workers that may crash ----------

  /** The directories, and the file each live worker has in its hands. */
  datatype Shop = Shop(files: Files, held: map<nat, string>)

  /** What happens between the renames: a file is put down for the queue, a worker takes one (a rename
      into `inflight`), is done with the one it has (parked when unreadable, else settled as its handler
      answers), or dies. */
  datatype Event =
    | Publish(name: string, readable: bool)
    | Take(worker: nat, name: string)
    | Finish(worker: nat, answer: Option<Broker.Outcome>)
    | Crash(worker: nat)

  predicate CanTake(s: Shop, worker: nat, name: string) {
    worker !in s.held && name in s.files && Pending(s.files[name])
  }

  function Taken(f: File): File {
    f.(bucket := Inflight)
  }

  /** What becomes of a file in a worker's hands. */
  function Done(f: File, answer: Option<Broker.Outcome>): File {
    if f.readable then Settled(f, Answered(answer)) else f.(bucket := Failed)
  }

  /** One event; one that cannot happen (a file another worker took first) changes nothing. */
  function Step(s: Shop, e: Event): Shop {
    match e
    case Publish(name, readable) =>
      if name in s.files then s else s.(files := s.files[name := File(Incoming, readable, 0)])
    case Take(worker, name) =>
      if !CanTake(s, worker, name) then s
      else Shop(s.files[name := Taken(s.files[name])], s.held[worker := name])
    case Finish(worker, answer) =>
      if worker !in s.held || s.held[worker] !in s.files then s
      else
        var name := s.held[worker];
        Shop(s.files[name := Done(s.files[name], answer)], s.held - {worker})
    case Crash(worker) => s.(held := s.held - {worker})
  }

  function After(s: Shop, events: seq<Event>): Shop {
    if events == [] then s else Step(After(s, events[..|events| - 1]), events[|events| - 1])
  }

  predicate Holds(s: Shop, worker: nat, name: string) {
    worker in s.held && s.held[worker] == name
  }

  /** What a worker holds is in flight, and nobody else holds it. */
  ghost predicate Sound(s: Shop) {
    && (forall w :: w in s.held ==> s.held[w] in s.files && s.files[s.held[w]].bucket == Inflight)
    && (forall v, w :: v in s.held && w in s.held && s.held[v] == s.held[w] ==> v == w)
  }

  lemma {:induction false} StepKeepsSound(s: Shop, e: Event)
    requires Sound(s)
    ensures Sound(Step(s, e))
  {
  }

  lemma {:induction false} SoundOverRun(s: Shop, events: seq<Event>)
    requires Sound(s)
    ensures Sound(After(s, events))
  {
    if events != [] {
      SoundOverRun(s, events[..|events| - 1]);
      StepKeepsSound(After(s, events[..|events| - 1]), events[|events| - 1]);
    }
  }

  /** A published file is a fresh pending one; a name that is taken is not published again. */
  lemma {:induction false} PublishExactly(s: Shop, name: string, readable: bool)
    ensures var t := Step(s, Publish(name, readable));
      && t.held == s.held && t.files.Keys == s.files.Keys + {name}
      && (forall n :: n in s.files ==> t.files[n] == s.files[n])
      && (name !in s.files ==> t.files[name] == File(Incoming, readable, 0) && Pending(t.files[name]))
  {
  }

  /** The answer sends the file back for another pass: RETRY, RETRY_LATER, or a handler that raised. */
  predicate SendsBack(answer: Option<Broker.Outcome>) {
    answer.None? || answer.value.Retry? || answer.value.RetryLater?
  }

  /** What finishing does to the file in a worker's hands, and to no other: ACK puts it into `processed`, a dead
      letter or an unreadable file into `failed`, everything else back into `retry` with one more attempt. */
  lemma {:induction false} FinishExactly(s: Shop, worker: nat, answer: Option<Broker.Outcome>)
    requires Sound(s) && worker in s.held
    ensures var t, name := Step(s, Finish(worker, answer)), s.held[worker];
      var f, g := s.files[name], t.files[name];
      && t.held == s.held - {worker} && t.files == s.files[name := g] && g.readable == f.readable
      && (g.bucket == Processed <==> f.readable && answer == Some(Broker.Ack))
      && (g.bucket == Failed <==> !f.readable || answer == Some(Broker.DeadLetter))
      && (g.bucket == Retrying <==> f.readable && SendsBack(answer))
      && g.attempt == f.attempt + if f.readable && SendsBack(answer) then 1 else 0
  {
  }

  /** The event sends this file back. */
  predicate Returns(s: Shop, e: Event, name: string) {
    e.Finish? && Holds(s, e.worker, name) && name in s.files && s.files[name].readable && SendsBack(e.answer)
  }

  function TimesReturned(s: Shop, events: seq<Event>, name: string): nat {
    if events == [] then 0
    else
      var front := events[..|events| - 1];
      TimesReturned(s, front, name) + if Returns(After(s, front), events[|events| - 1], name) then 1 else 0
  }

  lemma {:induction false} StepCountsReturns(s: Shop, e: Event, name: string)
    requires Sound(s) && name in s.files
    ensures name in Step(s, e).files
    ensures Step(s, e).files[name].attempt == s.files[name].attempt + if Returns(s, e, name) then 1 else 0
  {
    if e.Finish? && e.worker in s.held {
      FinishExactly(s, e.worker, e.answer);
    }
  }

  /** Over every run of any number of workers the attempts of a file count how often it was sent back: crashes,
      takes and what happens to other files count nothing. */
  lemma {:induction false} AttemptsAreTheReturns(s: Shop, events: seq<Event>, name: string)
    requires Sound(s) && name in s.files
    ensures name in After(s, events).files
    ensures After(s, events).files[name].attempt == s.files[name].attempt + TimesReturned(s, events, name)
  {
    if events != [] {
      var front := events[..|events| - 1];
      AttemptsAreTheReturns(s, front, name);
      SoundOverRun(s, front);
      StepCountsReturns(After(s, front), events[|events| - 1], name);
    }
  }

  /** In flight, and in nobody's hands: neither pending nor settled nor being worked on. */
  ghost predicate Stranded(s: Shop, name: string) {
    && name in s.files && s.files[name].bucket == Inflight
    && forall w :: !Holds(s, w, name)
  }

  /** The i-th event is a take of this file that succeeds. */
  predicate TookAt(s: Shop, events: seq<Event>, i: nat, worker: nat, name: string)
    requires i < |events|
  {
    events[i] == Take(worker, name) && CanTake(After(s, events[..i]), worker, name)
  }

  predicate Releases(e: Event, worker: nat) {
    e == Crash(worker) || (e.Finish? && e.worker == worker)
  }

  /** The i-th event is a successful take, and its worker has neither finished nor crashed since. */
  predicate Open(s: Shop, events: seq<Event>, i: nat, worker: nat, name: string) {
    && i < |events| && TookAt(s, events, i, worker, name)
    && forall k :: i < k < |events| ==> !Releases(events[k], worker)
  }

  lemma {:induction false} OpenSplits(s: Shop, events: seq<Event>, i: nat, worker: nat, name: string)
    requires events != [] && i < |events| - 1
    ensures Open(s, events, i, worker, name)
       <==> Open(s, events[..|events| - 1], i, worker, name) && !Releases(events[|events| - 1], worker)
  {
    var front := events[..|events| - 1];
    assert front[..i] == events[..i];
    if Open(s, front, i, worker, name) && !Releases(events[|events| - 1], worker) {
      forall k | i < k < |events|
        ensures !Releases(events[k], worker)
      {
        assert k < |front| ==> !Releases(front[k], worker);
      }
    }
    if Open(s, events, i, worker, name) {
      forall k | i < k < |front|
        ensures !Releases(front[k], worker)
      {
        assert !Releases(events[k], worker);
      }
    }
  }

  ghost predicate SomeOpen(s: Shop, events: seq<Event>, worker: nat, name: string) {
    exists i: nat :: Open(s, events, i, worker, name)
  }

  /** A worker has a file in its hands exactly between its take and its finish or crash. */
  lemma {:induction false} HoldsExactly(s: Shop, events: seq<Event>, worker: nat, name: string)
    requires Sound(s) && s.held == map[]
    ensures Holds(After(s, events), worker, name) <==> SomeOpen(s, events, worker, name)
  {
    if events != [] {
      var n := |events| - 1;
      var front, e := events[..n], events[n];
      HoldsExactly(s, front, worker, name);
      SoundOverRun(s, front);
      if SomeOpen(s, events, worker, name) {
        var i: nat :| Open(s, events, i, worker, name);
        if i < n {
          OpenSplits(s, events, i, worker, name);
          assert SomeOpen(s, front, worker, name);
        }
      }
      if Holds(After(s, events), worker, name) {
        if Holds(After(s, front), worker, name) {
          var i: nat :| Open(s, front, i, worker, name);
          OpenSplits(s, events, i, worker, name);
        } else {
          assert Open(s, events, n, worker, name);
        }
      }
    }
  }

  /** The j-th event is the crash of a worker that took the file and was not done with it. */
  ghost predicate InterruptedAt(s: Shop, events: seq<Event>, j: nat, name: string) {
    j < |events| && events[j].Crash? && SomeOpen(s, events[..j], events[j].worker, name)
  }

  ghost predicate Interrupted(s: Shop, events: seq<Event>, name: string) {
    exists j: nat :: InterruptedAt(s, events, j, name)
  }

  lemma {:induction false} InterruptedSplits(s: Shop, events: seq<Event>, name: string)
    requires events != []
    ensures Interrupted(s, events, name)
       <==> Interrupted(s, events[..|events| - 1], name) || InterruptedAt(s, events, |events| - 1, name)
  {
    var front := events[..|events| - 1];
    forall j: nat | j < |front|
      ensures InterruptedAt(s, events, j, name) <==> InterruptedAt(s, front, j, name)
    {
      assert front[..j] == events[..j];
    }
    if Interrupted(s, front, name) {
      var j: nat :| InterruptedAt(s, front, j, name);
      assert InterruptedAt(s, events, j, name);
    }
    if Interrupted(s, events, name) {
      var j: nat :| InterruptedAt(s, events, j, name);
      assert j < |front| ==> InterruptedAt(s, front, j, name);
    }
  }

  /** One event strands a file exactly when it is the crash of the worker that holds it, or the file was
      stranded before: nothing takes it up again. */
  lemma {:induction false} StepStrandsExactly(s: Shop, e: Event, name: string)
    requires Sound(s)
    ensures Stranded(Step(s, e), name) <==> Stranded(s, name) || (e.Crash? && Holds(s, e.worker, name))
  {
    var t := Step(s, e);
    if Stranded(s, name) {
      StaysStranded(s, e, name);
    } else if e.Crash? && Holds(s, e.worker, name) {
      forall w
        ensures !Holds(t, w, name)
      {
      }
    } else if Stranded(t, name) {
      NothingElseStrands(s, e, name);
    }
  }

  lemma {:induction false} StaysStranded(s: Shop, e: Event, name: string)
    requires Sound(s) && Stranded(s, name)
    ensures Stranded(Step(s, e), name)
  {
    if e.Finish? {
      assert !Holds(s, e.worker, name);
    }
    forall w
      ensures !Holds(Step(s, e), w, name)
    {
      assert !Holds(s, w, name);
    }
  }

  lemma {:induction false} NothingElseStrands(s: Shop, e: Event, name: string)
    requires Sound(s) && !Stranded(s, name) && !(e.Crash? && Holds(s, e.worker, name))
    ensures !Stranded(Step(s, e), name)
  {
    var t := Step(s, e);
    if name in s.files && s.files[name].bucket == Inflight {
      var w :| Holds(s, w, name);
      assert Holds(t, w, name) || (e.Finish? && e.worker == w);
    } else if e.Take? && e.name == name && CanTake(s, e.worker, name) {
      assert Holds(t, e.worker, name);
    }
  }

  /** Over every run of any number of workers, from a queue nobody works on: a message ends up neither
      pending nor settled nor in a worker's hands exactly when a crash fell between its take and its
      settle. Unlike the broker, this queue loses what a crash interrupts. */
  lemma {:induction false} StrandedExactly(s: Shop, events: seq<Event>, name: string)
    requires Sound(s) && s.held == map[] && !Stranded(s, name)
    ensures Stranded(After(s, events), name) <==> Interrupted(s, events, name)
  {
    if events != [] {
      var n := |events| - 1;
      var front := events[..n];
      StrandedExactly(s, front, name);
      SoundOverRun(s, front);
      StepStrandsExactly(After(s, front), events[n], name);
      InterruptedSplits(s, events, name);
      if events[n].Crash? {
        HoldsExactly(s, front, events[n].worker, name);
      }
    }
  }

  /** So a crash right after a take leaves the message where it is, whatever happens later. */
  lemma {:induction false} CrashStrandsTheMessage(s: Shop, worker: nat, name: string, later: seq<Event>)
    requires Sound(s) && CanTake(s, worker, name)
    ensures Stranded(After(Step(Step(s, Take(worker, name)), Crash(worker)), later), name)
  {
    var t := Step(s, Take(worker, name));
    StepKeepsSound(s, Take(worker, name));
    StepStrandsExactly(t, Crash(worker), name);
    StepKeepsSound(t, Crash(worker));
    StrandedForEver(Step(t, Crash(worker)), later, name);
  }

  lemma {:induction false} StrandedForEver(s: Shop, later: seq<Event>, name: string)
    requires Sound(s) && Stranded(s, name)
    ensures Stranded(After(s, later), name)
  {
    if later != [] {
      StrandedForEver(s, later[..|later| - 1], name);
      SoundOverRun(s, later[..|later| - 1]);
      StaysStranded(After(s, later[..|later| - 1]), later[|later| - 1], name);
    }
  }

  // ---------- one worker without crashes ----------

  /** The events of consuming on: every pass takes a file and is done with it. */
  ghost function Script(files: Files, handler: nat -> Option<Broker.Outcome>, first: set<string> -> string,
                        max: nat, done: nat): seq<Event>
    requires Picks(first)
    decreases if max > done then max - done else 0, |Unreadable(files)|, if max > done then 0 else 1
  {
    if Chosen(files, first).None? then []
    else
      ChosenIsPending(files, first);
      var name := Chosen(files, first).value;
      if !files[name].readable then
        ParkedOnce(files, name);
        Pass(name, None) + Script(files[name := files[name].(bucket := Failed)], handler, first, max, done)
      else if done + 1 >= max then Pass(name, handler(done))
      else
        Pass(name, handler(done))
        + Script(files[name := Settled(files[name], Answered(handler(done)))], handler, first, max, done + 1)
  }

  function Pass(name: string, answer: Option<Broker.Outcome>): seq<Event> {
    [Take(0, name), Finish(0, answer)]
  }

  lemma {:induction false} AfterConcat(s: Shop, a: seq<Event>, b: seq<Event>)
    ensures After(s, a + b) == After(After(s, a), b)
    decreases |b|
  {
    if b == [] {
      assert a + b == a;
    } else {
      assert (a + b)[..|a + b| - 1] == a + b[..|b| - 1];
      AfterConcat(s, a, b[..|b| - 1]);
    }
  }

  lemma {:induction false} AfterPass(files: Files, name: string, answer: Option<Broker.Outcome>)
    requires name in files && Pending(files[name])
    ensures After(Shop(files, map[]), Pass(name, answer)) == Shop(files[name := Done(files[name], answer)], map[])
  {
    var s := Shop(files, map[]);
    var t := Step(s, Take(0, name));
    assert Pass(name, answer)[..1] == [Take(0, name)] && [Take(0, name)][..0] == [];
    assert After(s, []) == s && After(s, [Take(0, name)]) == t;
    assert t.held - {0} == map[];
    assert files[name := Taken(files[name])][name := Done(Taken(files[name]), answer)]
        == files[name := Done(files[name], answer)];
  }

  /** What `consume` leaves is what its own events leave. */
  lemma {:induction false} ConsumedIsItsScript(files: Files, handler: nat -> Option<Broker.Outcome>,
                                               first: set<string> -> string, max: nat, done: nat)
    requires Picks(first)
    ensures After(Shop(files, map[]), Script(files, handler, first, max, done))
         == Shop(Consumed(files, handler, first, max, done).0, map[])
    decreases if max > done then max - done else 0, |Unreadable(files)|, if max > done then 0 else 1
  {
    if Chosen(files, first).Some? {
      ChosenIsPending(files, first);
      var name := Chosen(files, first).value;
      if !files[name].readable {
        ParkedOnce(files, name);
        var after := files[name := files[name].(bucket := Failed)];
        AfterPass(files, name, None);
        ConsumedIsItsScript(after, handler, first, max, done);
        AfterConcat(Shop(files, map[]), Pass(name, None), Script(after, handler, first, max, done));
      } else {
        AfterPass(files, name, handler(done));
        if done + 1 < max {
          var after := files[name := Settled(files[name], Answered(handler(done)))];
          ConsumedIsItsScript(after, handler, first, max, done + 1);
          AfterConcat(Shop(files, map[]), Pass(name, handler(done)), Script(after, handler, first, max, done + 1));
        }
      }
    }
  }

  // ---------- the queue as an object ----------

  class DirectoryQueue {
    var files: Files

    constructor (files: Files)
      ensures this.files == files
    {
      this.files := files;
    }

    /** The rename into `inflight`. */
    method Take(name: string)
      requires name in files
      modifies this
      ensures files == old(files)[name := Taken(old(files)[name])]
    {
      files := files[name := files[name].(bucket := Inflight)];
    }

    /** `_settle`. */
    method Settle(name: string, outcome: Broker.Outcome)
      requires name in files
      modifies this
      ensures files == old(files)[name := Settled(old(files)[name], outcome)]
    {
      match outcome {
        case Ack => files := files[name := files[name].(bucket := Processed)];
        case DeadLetter => files := files[name := files[name].(bucket := Failed)];
        case _ =>
          files := files[name := files[name].(bucket := Retrying, attempt := files[name].attempt + 1)];
      }
    }

    /** One pass: take the file, then park it or settle it as the handler answers. */
    method Handle(name: string, answer: Option<Broker.Outcome>)
      requires name in files
      modifies this
      ensures files == old(files)[name := Done(old(files)[name], answer)]
    {
      ghost var before := files;
      Take(name);
      if files[name].readable {
        Settle(name, Answered(answer));
      } else {
        files := files[name := files[name].(bucket := Failed)];
      }
      assert before[name := Taken(before[name])][name := Done(Taken(before[name]), answer)]
          == before[name := Done(before[name], answer)];
    }

    /** `consume` with a message limit: without one it waits for files for ever. */
    method Consume(handler: nat -> Option<Broker.Outcome>, first: set<string> -> string, max: nat)
      returns (done: nat)
      requires Picks(first)
      modifies this
      ensures (files, done) == Consumed(old(files), handler, first, max, 0)
    {
      done := 0;
      while true
        invariant Consumed(files, handler, first, max, done) == Consumed(old(files), handler, first, max, 0)
        invariant done == 0 || done < max
        decreases if max > done then max - done else 0, |Unreadable(files)|, if max > done then 0 else 1
      {
        var chosen := Chosen(files, first);
        if chosen.None? {
          break;
        }
        ChosenIsPending(files, first);
        var name, readable := chosen.value, files[chosen.value].readable;
        if !readable {
          ParkedOnce(files, name);
        }
        Handle(name, handler(done));
        if !readable {
          continue;
        }
        done := done + 1;
        if done >= max {
          break;
        }
      }
    }
  }
}

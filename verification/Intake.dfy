/** The scheduled vacancy intake (`scout/run.py`, `scout/policy.py`, `scout/store.py`) over the job
    store: feeds in, cards in the submitted column out. */
module Intake {
  import opened JobStore
  import opened Wrappers

  /** A parsed posting; dates are days on one clock, and an unusable date is `None`. */
  datatype Item = Item(externalId: string, published: Option<real>)

  /** An answered feed: the slug of the parser that claims its host, if one does, and what it parsed. */
  datatype Feed = Feed(url: string, site: Option<string>, items: seq<Item>)

  datatype Vacancy = Vacancy(source: string, externalId: string)

  datatype Collected = Collected(vacancies: seq<Vacancy>, skippedFeeds: seq<string>, stale: nat, undated: nat)

  // ---------- the age rule ----------

  /** Refused: dated older than the limit. A limit of 0 or less switches the rule off. */
  predicate IsStale(i: Item, now: real, limit: int) {
    i.published.Some? && limit > 0 && now - i.published.value > limit as real
  }

  function Kept(items: seq<Item>, site: string, now: real, limit: int): (kept: seq<Vacancy>)
    ensures forall v :: v in kept <==>
              exists i :: i in items && !IsStale(i, now, limit) && v == Vacancy(site, i.externalId)
  {
    if items == [] then []
    else
      var last := items[|items| - 1];
      Kept(items[..|items| - 1], site, now, limit)
      + if IsStale(last, now, limit) then [] else [Vacancy(site, last.externalId)]
  }

  function StaleCount(items: seq<Item>, now: real, limit: int): nat {
    if items == [] then 0
    else StaleCount(items[..|items| - 1], now, limit) + if IsStale(items[|items| - 1], now, limit) then 1 else 0
  }

  function UndatedCount(items: seq<Item>): nat {
    if items == [] then 0
    else UndatedCount(items[..|items| - 1]) + if items[|items| - 1].published.None? then 1 else 0
  }

  /** Every posting is kept or counted as stale, and what has no usable date is kept. */
  lemma {:induction false} KeptOrStale(items: seq<Item>, site: string, now: real, limit: int)
    ensures |Kept(items, site, now, limit)| + StaleCount(items, now, limit) == |items|
    ensures UndatedCount(items) <= |Kept(items, site, now, limit)|
    ensures limit <= 0 ==> StaleCount(items, now, limit) == 0
  {
    if items != [] {
      KeptOrStale(items[..|items| - 1], site, now, limit);
    }
  }

  /** `policy.select`. */
  method Select(items: seq<Item>, site: string, now: real, limit: int)
    returns (kept: seq<Vacancy>, stale: nat, undated: nat)
    ensures kept == Kept(items, site, now, limit)
    ensures stale == StaleCount(items, now, limit) && undated == UndatedCount(items)
  {
    kept, stale, undated := [], 0, 0;
    for n := 0 to |items|
      invariant kept == Kept(items[..n], site, now, limit)
      invariant stale == StaleCount(items[..n], now, limit) && undated == UndatedCount(items[..n])
    {
      assert items[..n + 1][..n] == items[..n];
      var i := items[n];
      if i.published.None? {
        undated := undated + 1;
        kept := kept + [Vacancy(site, i.externalId)];
      } else if limit > 0 && now - i.published.value > limit as real {
        stale := stale + 1;
      } else {
        kept := kept + [Vacancy(site, i.externalId)];
      }
    }
    assert items[..|items|] == items;
  }

  // ---------- collecting ----------

  function KeptOf(f: Feed, now: real, limit: int): seq<Vacancy> {
    if f.site.None? then [] else Kept(f.items, f.site.value, now, limit)
  }

  /** Everything the routed feeds offer, in feed order. */
  function Offered(feeds: seq<Feed>, now: real, limit: int): seq<Vacancy> {
    if feeds == [] then []
    else Offered(feeds[..|feeds| - 1], now, limit) + KeptOf(feeds[|feeds| - 1], now, limit)
  }

  function Unrouted(feeds: seq<Feed>): seq<string> {
    if feeds == [] then []
    else
      var last := feeds[|feeds| - 1];
      Unrouted(feeds[..|feeds| - 1]) + if last.site.None? then [last.url] else []
  }

  /** The stale and the undated postings of the routed feeds. */
  function StaleTotal(feeds: seq<Feed>, now: real, limit: int): nat {
    if feeds == [] then 0
    else
      var last := feeds[|feeds| - 1];
      StaleTotal(feeds[..|feeds| - 1], now, limit) + if last.site.None? then 0 else StaleCount(last.items, now, limit)
  }

  function UndatedTotal(feeds: seq<Feed>): nat {
    if feeds == [] then 0
    else
      var last := feeds[|feeds| - 1];
      UndatedTotal(feeds[..|feeds| - 1]) + if last.site.None? then 0 else UndatedCount(last.items)
  }

  /** The age rule lets the posting through: it has no usable date, the rule is off, or it is young enough. */
  predicate Passes(i: Item, now: real, limit: int) {
    i.published.None? || limit <= 0 || now - i.published.value <= limit as real
  }

  /** Offered is exactly what some feed with a parser for its site parsed and the age rule lets through. */
  lemma {:induction false} OfferedExactly(feeds: seq<Feed>, now: real, limit: int, v: Vacancy)
    ensures v in Offered(feeds, now, limit) <==>
              exists f, i :: f in feeds && f.site == Some(v.source) && i in f.items && i.externalId == v.externalId
                             && Passes(i, now, limit)
  {
    if feeds != [] {
      var rest, last := feeds[..|feeds| - 1], feeds[|feeds| - 1];
      assert feeds == rest + [last];
      OfferedExactly(rest, now, limit, v);
      OfferedByOne(last, now, limit, v);
    }
  }

  lemma {:induction false} OfferedByOne(f: Feed, now: real, limit: int, v: Vacancy)
    ensures v in KeptOf(f, now, limit) <==>
              f.site == Some(v.source)
              && exists i :: i in f.items && i.externalId == v.externalId && Passes(i, now, limit)
  {
    if f.site.Some? {
      assert forall i :: i in f.items ==> (IsStale(i, now, limit) <==> !Passes(i, now, limit));
    }
  }

  lemma {:induction false} UnroutedExactly(feeds: seq<Feed>, url: string)
    ensures url in Unrouted(feeds) <==> exists f :: f in feeds && f.url == url && f.site.None?
  {
    if feeds != [] {
      var rest, last := feeds[..|feeds| - 1], feeds[|feeds| - 1];
      assert feeds == rest + [last];
      UnroutedExactly(rest, url);
    }
  }

  /** The postings of the routed feeds, and their dates. */
  function Postings(feeds: seq<Feed>): seq<Option<real>> {
    if feeds == [] then []
    else (if feeds[0].site.None? then [] else Dates(feeds[0].items)) + Postings(feeds[1..])
  }

  function Dates(items: seq<Item>): (r: seq<Option<real>>)
    ensures |r| == |items|
  {
    seq(|items|, i requires 0 <= i < |items| => items[i].published)
  }

  lemma {:induction false} PostingsStep(feeds: seq<Feed>, f: Feed)
    ensures Postings(feeds + [f]) == Postings(feeds) + if f.site.None? then [] else Dates(f.items)
  {
    if feeds == [] {
      assert (feeds + [f])[1..] == [];
    } else {
      assert (feeds + [f])[1..] == feeds[1..] + [f];
      PostingsStep(feeds[1..], f);
    }
  }

  lemma {:induction false} UndatedIsCounted(items: seq<Item>)
    ensures UndatedCount(items) == multiset(Dates(items))[None]
  {
    if items != [] {
      var rest, last := items[..|items| - 1], items[|items| - 1];
      UndatedIsCounted(rest);
      assert Dates(items) == Dates(rest) + [last.published];
    }
  }

  /** Every posting of a routed feed is offered or counted as stale, and the undated ones are counted. */
  lemma {:induction false} CountersAddUp(feeds: seq<Feed>, now: real, limit: int)
    ensures |Offered(feeds, now, limit)| + StaleTotal(feeds, now, limit) == |Postings(feeds)|
    ensures UndatedTotal(feeds) == multiset(Postings(feeds))[None]
  {
    if feeds != [] {
      var rest, last := feeds[..|feeds| - 1], feeds[|feeds| - 1];
      assert feeds == rest + [last];
      CountersAddUp(rest, now, limit);
      PostingsStep(rest, last);
      if last.site.Some? {
        KeptOrStale(last.items, last.site.value, now, limit);
        UndatedIsCounted(last.items);
      }
    }
  }

  /** `collect`: routing, the age rule, then the dedupe across feeds. */
  method Collect(feeds: seq<Feed>, now: real, limit: int) returns (c: Collected)
    ensures c.vacancies == Firsts(Offered(feeds, now, limit)) && c.skippedFeeds == Unrouted(feeds)
    ensures c.stale == StaleTotal(feeds, now, limit) && c.undated == UndatedTotal(feeds)
  {
    var seen: set<(string, string)> := {};
    var vacancies: seq<Vacancy> := [];
    var skipped: seq<string> := [];
    var stale: nat, undated: nat := 0, 0;
    for n := 0 to |feeds|
      invariant vacancies == Firsts(Offered(feeds[..n], now, limit)) && skipped == Unrouted(feeds[..n])
      invariant seen == KeysOf(vacancies)
      invariant stale == StaleTotal(feeds[..n], now, limit) && undated == UndatedTotal(feeds[..n])
    {
      var f := feeds[n];
      assert feeds[..n + 1][..n] == feeds[..n];
      if f.site.None? {
        skipped := skipped + [f.url];
        assert Offered(feeds[..n], now, limit) + [] == Offered(feeds[..n], now, limit);
      } else {
        var kept, aged, dateless := Select(f.items, f.site.value, now, limit);
        stale, undated := stale + aged, undated + dateless;
        vacancies, seen := AddNew(Offered(feeds[..n], now, limit), kept, vacancies, seen);
      }
    }
    assert feeds[..|feeds|] == feeds;
    c := Collected(vacancies, skipped, stale, undated);
  }

  function KeysOf(vs: seq<Vacancy>): set<(string, string)> {
    set v | v in vs :: (v.source, v.externalId)
  }

  lemma {:induction false} SeenDecides(vs: seq<Vacancy>, v: Vacancy)
    ensures (v.source, v.externalId) in KeysOf(vs) <==> v in vs
    ensures KeysOf(vs + [v]) == KeysOf(vs) + {(v.source, v.externalId)}
  {
    assert v in vs + [v];
  }

  lemma {:induction false} FirstsStep(vs: seq<Vacancy>, v: Vacancy)
    ensures Firsts(vs + [v]) == if v in Firsts(vs) then Firsts(vs) else Firsts(vs) + [v]
  {
    assert (vs + [v])[..|vs|] == vs;
  }

  lemma {:induction false} AddStep(all: seq<Vacancy>, v: Vacancy)
    ensures var more, key := Firsts(all), (v.source, v.externalId);
      if key in KeysOf(more) then Firsts(all + [v]) == more
      else Firsts(all + [v]) == more + [v] && KeysOf(more + [v]) == KeysOf(more) + {key}
  {
    FirstsStep(all, v);
    SeenDecides(Firsts(all), v);
  }

  method AddOne(ghost offered: seq<Vacancy>, kept: seq<Vacancy>, k: nat, vacancies: seq<Vacancy>,
                seen: set<(string, string)>)
    returns (more: seq<Vacancy>, met: set<(string, string)>)
    requires k < |kept| && vacancies == Firsts(offered + kept[..k]) && seen == KeysOf(vacancies)
    ensures more == Firsts(offered + kept[..k + 1]) && met == KeysOf(more)
  {
    AddStep(offered + kept[..k], kept[k]);
    assert offered + kept[..k + 1] == offered + kept[..k] + [kept[k]];
    more, met := vacancies, seen;
    var key := (kept[k].source, kept[k].externalId);
    if key !in met {
      met := met + {key};
      more := more + [kept[k]];
    }
  }

  /** The inner loop of `collect`. */
  method AddNew(ghost offered: seq<Vacancy>, kept: seq<Vacancy>, vacancies: seq<Vacancy>,
                seen: set<(string, string)>)
    returns (more: seq<Vacancy>, met: set<(string, string)>)
    requires vacancies == Firsts(offered) && seen == KeysOf(vacancies)
    ensures more == Firsts(offered + kept) && met == KeysOf(more)
  {
    more, met := vacancies, seen;
    assert offered + kept[..0] == offered;
    for k := 0 to |kept|
      invariant more == Firsts(offered + kept[..k]) && met == KeysOf(more)
    {
      more, met := AddOne(offered, kept, k, more, met);
    }
    assert kept[..|kept|] == kept;
  }

  // ---------- what the board does not have yet ----------

  function IdsOf(vs: seq<Vacancy>, source: string): set<string> {
    set v | v in vs && v.source == source :: v.externalId
  }

  predicate OnBoard(s: Store, v: Vacancy) {
    exists id :: id in s.jobs && s.jobs[id].externalId == v.externalId
                 && Or(s.jobs[id].source, "djinni") == Or(v.source, "djinni")
  }

  function NewOnes(s: Store, vs: seq<Vacancy>): (r: seq<Vacancy>)
    ensures forall v :: v in r <==> v in vs && !OnBoard(s, v)
  {
    if vs == [] then []
    else
      var last := vs[|vs| - 1];
      NewOnes(s, vs[..|vs| - 1]) + if OnBoard(s, last) then [] else [last]
  }

  lemma {:induction false} AskingPerSite(s: Store, v: Vacancy, wanted: set<string>)
    requires v.externalId in wanted
    ensures v.externalId in ExistingIds(s, v.source, wanted) <==> OnBoard(s, v)
  {
  }

  /** `new_vacancies`: one question to the board per site, the answer in feed order. */
  method NewVacancies(db: LocalDb, vs: seq<Vacancy>) returns (answer: seq<Vacancy>)
    requires forall id :: id in db.jobs <==> id in db.order
    ensures answer == NewOnes(db.Contents(), vs)
  {
    var ids: map<string, set<string>> := map[];
    for n := 0 to |vs|
      invariant forall source :: source in ids <==> exists v :: v in vs[..n] && v.source == source
      invariant forall source :: source in ids ==> ids[source] == IdsOf(vs[..n], source)
    {
      var v := vs[n];
      assert vs[..n + 1] == vs[..n] + [v];
      ids := ids[v.source := (if v.source in ids then ids[v.source] else {}) + {v.externalId}];
    }
    assert vs[..|vs|] == vs;
    var known := AskTheBoard(db, ids);
    answer := [];
    for n := 0 to |vs|
      invariant answer == NewOnes(db.Contents(), vs[..n])
    {
      var v := vs[n];
      assert vs[..n + 1][..n] == vs[..n];
      AskingPerSite(db.Contents(), v, ids[v.source]);
      if v.externalId !in known[v.source] {
        answer := answer + [v];
      }
    }
  }

  method AskTheBoard(db: LocalDb, ids: map<string, set<string>>) returns (known: map<string, set<string>>)
    requires forall id :: id in db.jobs <==> id in db.order
    ensures known.Keys == ids.Keys
    ensures forall source :: source in ids ==> known[source] == ExistingIds(db.Contents(), source, ids[source])
  {
    known := map[];
    var left := ids.Keys;
    while left != {}
      invariant left <= ids.Keys && known.Keys == ids.Keys - left
      invariant forall source :: source in known ==>
                  known[source] == ExistingIds(db.Contents(), source, ids[source])
    {
      var source :| source in left;
      var found := db.FindExistingIds(source, ids[source]);
      known := known[source := found];
      left := left - {source};
    }
  }

  // ---------- creating the cards ----------

  datatype Card = Card(jobId: string, vacancy: Vacancy)

  /** The row `create_cards` asks for. */
  function CardRow(v: Vacancy, id: string, user: string, version: string): Row {
    Row(id, user, v.externalId, v.source, version, Submitted, 0)
  }

  /** The store after one card for each of `vs`; the k-th generated id is `ids(k)`. */
  function Carded(s: Store, vs: seq<Vacancy>, user: string, version: string, ids: nat -> string): Store {
    if vs == [] then s
    else
      var n := |vs| - 1;
      Next(Carded(s, vs[..n], user, version, ids), Upsert(CardRow(vs[n], ids(n), user, version)))
  }

  function Cards(s: Store, vs: seq<Vacancy>, user: string, version: string, ids: nat -> string): seq<Card> {
    if vs == [] then []
    else
      var n := |vs| - 1;
      var before := Carded(s, vs[..n], user, version, ids);
      var row := CardRow(vs[n], ids(n), user, version);
      Cards(s, vs[..n], user, version, ids)
      + if OutcomeOf(before, row) == Claimed then [Card(ClaimedId(before, row), vs[n])] else []
  }

  /** `create_cards`. */
  method CreateCards(db: LocalDb, vs: seq<Vacancy>, user: string, version: string, ids: nat -> string)
    returns (created: seq<Card>)
    modifies db
    ensures db.Contents() == Carded(old(db.Contents()), vs, user, version, ids)
    ensures created == Cards(old(db.Contents()), vs, user, version, ids)
  {
    created := [];
    for n := 0 to |vs|
      invariant db.Contents() == Carded(old(db.Contents()), vs[..n], user, version, ids)
      invariant created == Cards(old(db.Contents()), vs[..n], user, version, ids)
    {
      assert vs[..n + 1][..n] == vs[..n];
      var outcome, id := db.UpsertJob(CardRow(vs[n], ids(n), user, version));
      if outcome != Claimed {
        continue;
      }
      created := created + [Card(id, vs[n])];
    }
    assert vs[..|vs|] == vs;
  }

  // ---------- running it again ----------

  /** One run with the per-run cap off: what it files. */
  function Fresh(s: Store, feeds: seq<Feed>, now: real, limit: int): (r: seq<Vacancy>)
    ensures forall v :: v in r <==> v in Offered(feeds, now, limit) && !OnBoard(s, v)
  {
    NewOnes(s, Firsts(Offered(feeds, now, limit)))
  }

  datatype Config = Config(limit: int, user: string, version: string)

  method RunIntake(db: LocalDb, feeds: seq<Feed>, now: real, c: Config, ids: nat -> string)
    returns (created: seq<Card>)
    requires WellKeyed(db.Contents())
    modifies db
    ensures var new_ := Fresh(old(db.Contents()), feeds, now, c.limit);
      && db.Contents() == Carded(old(db.Contents()), new_, c.user, c.version, ids)
      && created == Cards(old(db.Contents()), new_, c.user, c.version, ids)
  {
    var collected := Collect(feeds, now, c.limit);
    var new_ := NewVacancies(db, collected.vacancies);
    created := CreateCards(db, new_, c.user, c.version, ids);
  }

  ghost predicate FreshIds(s: Store, ids: nat -> string) {
    (forall k :: ids(k) !in s.jobs) && (forall j, k :: j < k ==> ids(j) != ids(k))
  }

  function CardKey(v: Vacancy, c: Config): string {
    JobKey(c.user, v.externalId, c.version, v.source)
  }

  /** No row of the board has a key of these cards, and no two of them share one. */
  ghost predicate KeysFree(s: Store, vs: seq<Vacancy>, c: Config) {
    && (forall k, id :: 0 <= k < |vs| && id in s.jobs ==> KeyOf(s.jobs[id]) != CardKey(vs[k], c))
    && (forall i, j :: 0 <= i < j < |vs| ==> CardKey(vs[i], c) != CardKey(vs[j], c))
  }

  predicate SameCard(v: Vacancy, w: Vacancy) {
    v.externalId == w.externalId && Or(v.source, "djinni") == Or(w.source, "djinni")
  }

  /** What filing `vs` did: every one of them has its card, in order, and no other row changed. */
  ghost predicate Filed(s: Store, vs: seq<Vacancy>, c: Config, ids: nat -> string) {
    var t := Carded(s, vs, c.user, c.version, ids);
    && WellKeyed(t) && KeysKept(s, t) && RowsFiled(s, t, vs, c, ids)
    && Cards(s, vs, c.user, c.version, ids) == CardsFor(vs, ids)
  }

  function CardsFor(vs: seq<Vacancy>, ids: nat -> string): seq<Card> {
    seq(|vs|, k requires 0 <= k < |vs| => Card(ids(k), vs[k]))
  }

  ghost predicate RowsFiled(s: Store, t: Store, vs: seq<Vacancy>, c: Config, ids: nat -> string) {
    && (forall id :: id in s.jobs ==> id in t.jobs && t.jobs[id] == s.jobs[id])
    && (forall id :: id in t.jobs && id !in s.jobs ==> IsCardOf(t, id, vs, c, ids))
    && (forall k :: 0 <= k < |vs| ==> ids(k) in t.jobs && t.jobs[ids(k)] == Submission(vs[k], ids(k), c))
  }

  /** A card in the submitted column, without attempts. */
  function Submission(v: Vacancy, id: string, c: Config): Row {
    Row(id, c.user, v.externalId, v.source, c.version, Submitted, 0)
  }

  ghost predicate IsCardOf(t: Store, id: string, vs: seq<Vacancy>, c: Config, ids: nat -> string)
    requires id in t.jobs
  {
    exists k :: 0 <= k < |vs| && id == ids(k) && t.jobs[id] == Submission(vs[k], id, c)
  }

  /** A vacancy with a free key is claimed as a new row, whatever was filed before it in the run. */
  lemma {:induction false} NewCardIsClaimed(s: Store, rest: seq<Vacancy>, v: Vacancy, c: Config, ids: nat -> string)
    requires FreshIds(s, ids) && Filed(s, rest, c, ids) && KeysFree(s, rest + [v], c)
    ensures var t, id := Carded(s, rest, c.user, c.version, ids), ids(|rest|);
      var row := CardRow(v, id, c.user, c.version);
      && id !in t.jobs && OutcomeOf(t, row) == Claimed && ClaimedId(t, row) == id
      && Upserted(t, row) == Put(t, id, row)
  {
    var t, id := Carded(s, rest, c.user, c.version, ids), ids(|rest|);
    var row := CardRow(v, id, c.user, c.version);
    SiblingIsTheRowWithTheKey(t.order, t.jobs, KeyOf(row));
    forall o | o in t.jobs
      ensures KeyOf(t.jobs[o]) != KeyOf(row)
    {
      NoOtherCard(s, rest, v, c, ids, o);
    }
    forall o | o in t.jobs
      ensures o != id
    {
      if o !in s.jobs {
        assert IsCardOf(t, o, rest, c, ids);
      }
    }
  }

  lemma {:induction false} NoOtherCard(s: Store, rest: seq<Vacancy>, v: Vacancy, c: Config, ids: nat -> string,
                                       o: string)
    requires Filed(s, rest, c, ids) && KeysFree(s, rest + [v], c)
    requires o in Carded(s, rest, c.user, c.version, ids).jobs
    ensures KeyOf(Carded(s, rest, c.user, c.version, ids).jobs[o]) != CardKey(v, c)
  {
    var t, n, vs := Carded(s, rest, c.user, c.version, ids), |rest|, rest + [v];
    assert vs[n] == v;
    if o !in s.jobs {
      assert IsCardOf(t, o, rest, c, ids);
      var k :| 0 <= k < n && o == ids(k) && t.jobs[o] == CardRow(rest[k], o, c.user, c.version);
      assert vs[k] == rest[k];
    }
  }

  lemma {:induction false} FilesAll(s: Store, vs: seq<Vacancy>, c: Config, ids: nat -> string)
    requires WellKeyed(s) && FreshIds(s, ids) && KeysFree(s, vs, c)
    ensures Filed(s, vs, c, ids)
  {
    if vs != [] {
      var rest, v := vs[..|vs| - 1], vs[|vs| - 1];
      assert vs == rest + [v];
      FewerKeysAreFree(s, rest, v, c);
      FilesAll(s, rest, c, ids);
      NewCardIsClaimed(s, rest, v, c, ids);
      FiledStep(s, rest, v, c, ids);
    } else {
      NothingIsFiled(s, c, ids);
    }
  }

  lemma {:induction false} FewerKeysAreFree(s: Store, rest: seq<Vacancy>, v: Vacancy, c: Config)
    requires KeysFree(s, rest + [v], c)
    ensures KeysFree(s, rest, c)
  {
    var vs := rest + [v];
    assert forall k :: 0 <= k < |rest| ==> rest[k] == vs[k];
  }

  lemma {:induction false} NothingIsFiled(s: Store, c: Config, ids: nat -> string)
    requires WellKeyed(s)
    ensures Filed(s, [], c, ids)
  {
  }

  /** Rows filed side by side have different keys. */
  lemma {:induction false} FiledKeysWereFree(s: Store, vs: seq<Vacancy>, c: Config, ids: nat -> string)
    requires FreshIds(s, ids) && Filed(s, vs, c, ids)
    ensures KeysFree(s, vs, c)
  {
    var t := Carded(s, vs, c.user, c.version, ids);
    forall k, id | 0 <= k < |vs| && id in s.jobs
      ensures KeyOf(s.jobs[id]) != CardKey(vs[k], c)
    {
      assert ids(k) in t.jobs && t.jobs[ids(k)] == CardRow(vs[k], ids(k), c.user, c.version);
      assert id in t.jobs && t.jobs[id] == s.jobs[id] && ids(k) != id;
    }
    forall i, j | 0 <= i < j < |vs|
      ensures CardKey(vs[i], c) != CardKey(vs[j], c)
    {
      assert ids(i) in t.jobs && t.jobs[ids(i)] == CardRow(vs[i], ids(i), c.user, c.version);
      assert ids(j) in t.jobs && t.jobs[ids(j)] == CardRow(vs[j], ids(j), c.user, c.version);
      assert ids(i) != ids(j);
    }
  }

  lemma {:induction false} RowsFiledStep(s: Store, t: Store, rest: seq<Vacancy>, v: Vacancy, c: Config,
                                         ids: nat -> string)
    requires FreshIds(s, ids) && RowsFiled(s, t, rest, c, ids) && ids(|rest|) !in t.jobs
    ensures RowsFiled(s, Put(t, ids(|rest|), CardRow(v, ids(|rest|), c.user, c.version)), rest + [v], c, ids)
  {
    var n, vs := |rest|, rest + [v];
    var u := Put(t, ids(n), CardRow(v, ids(n), c.user, c.version));
    forall id | id in u.jobs && id !in s.jobs
      ensures IsCardOf(u, id, vs, c, ids)
    {
      if id == ids(n) {
        assert u.jobs[id] == CardRow(vs[n], id, c.user, c.version);
      } else {
        assert IsCardOf(t, id, rest, c, ids);
        var k :| 0 <= k < n && id == ids(k) && t.jobs[id] == CardRow(rest[k], id, c.user, c.version);
        assert vs[k] == rest[k];
      }
    }
    forall k | 0 <= k < |vs|
      ensures ids(k) in u.jobs && u.jobs[ids(k)] == CardRow(vs[k], ids(k), c.user, c.version)
    {
      if k < n {
        assert ids(k) in t.jobs;
      }
    }
  }

  lemma {:induction false} CardsStep(s: Store, rest: seq<Vacancy>, v: Vacancy, c: Config, ids: nat -> string)
    requires Cards(s, rest, c.user, c.version, ids) == CardsFor(rest, ids)
    requires var t, row := Carded(s, rest, c.user, c.version, ids), CardRow(v, ids(|rest|), c.user, c.version);
      OutcomeOf(t, row) == Claimed && ClaimedId(t, row) == ids(|rest|)
    ensures Cards(s, rest + [v], c.user, c.version, ids) == CardsFor(rest + [v], ids)
  {
    CardsOfMore(s, rest, v, c, ids);
    CardsForMore(rest, v, ids);
  }

  lemma {:induction false} CardsForMore(rest: seq<Vacancy>, v: Vacancy, ids: nat -> string)
    ensures CardsFor(rest + [v], ids) == CardsFor(rest, ids) + [Card(ids(|rest|), v)]
  {
  }

  lemma {:induction false} CardsOfMore(s: Store, rest: seq<Vacancy>, v: Vacancy, c: Config, ids: nat -> string)
    ensures var t, row := Carded(s, rest, c.user, c.version, ids), CardRow(v, ids(|rest|), c.user, c.version);
      Cards(s, rest + [v], c.user, c.version, ids) ==
      Cards(s, rest, c.user, c.version, ids)
      + if OutcomeOf(t, row) == Claimed then [Card(ClaimedId(t, row), v)] else []
  {
    assert (rest + [v])[..|rest|] == rest;
  }

  lemma {:induction false} FiledStep(s: Store, rest: seq<Vacancy>, v: Vacancy, c: Config, ids: nat -> string)
    requires FreshIds(s, ids) && Filed(s, rest, c, ids)
    requires var t, id := Carded(s, rest, c.user, c.version, ids), ids(|rest|);
      var row := CardRow(v, id, c.user, c.version);
      && id !in t.jobs && OutcomeOf(t, row) == Claimed && ClaimedId(t, row) == id
      && Upserted(t, row) == Put(t, id, row)
    ensures Filed(s, rest + [v], c, ids)
  {
    var t, id := Carded(s, rest, c.user, c.version, ids), ids(|rest|);
    var row := CardRow(v, id, c.user, c.version);
    StepKeepsWellKeyed(t, Upsert(row));
    RowsFiledStep(s, t, rest, v, c, ids);
    CardsStep(s, rest, v, c, ids);
    CardedStep(s, rest, v, c, ids);
    KeysKeptOnward(s, t, Put(t, id, row));
  }

  lemma {:induction false} CardedStep(s: Store, rest: seq<Vacancy>, v: Vacancy, c: Config, ids: nat -> string)
    ensures Carded(s, rest + [v], c.user, c.version, ids)
         == Next(Carded(s, rest, c.user, c.version, ids), Upsert(CardRow(v, ids(|rest|), c.user, c.version)))
  {
    assert (rest + [v])[..|rest|] == rest;
  }

  lemma {:induction false} KeysKeptOnward(s: Store, t: Store, u: Store)
    requires KeysKept(s, t) && KeysKept(t, u)
    ensures KeysKept(s, u)
  {
  }

  /** Every offered card has a key with one reading, and every site has a slug. */
  ghost predicate AllPlain(feeds: seq<Feed>, now: real, c: Config) {
    forall v :: v in Offered(feeds, now, c.limit) ==>
      v.source != "" && !Ambiguous(CardRow(v, "", c.user, c.version))
  }

  lemma {:induction false} PlainKeysAreFree(s: Store, feeds: seq<Feed>, now: real, c: Config)
    requires AllPlain(feeds, now, c)
    ensures KeysFree(s, Fresh(s, feeds, now, c.limit), c)
  {
    var vs := Fresh(s, feeds, now, c.limit);
    NewOnesAreDistinct(s, Firsts(Offered(feeds, now, c.limit)));
    assert Distinct(vs);
    forall k, id | 0 <= k < |vs| && id in s.jobs
      ensures KeyOf(s.jobs[id]) != CardKey(vs[k], c)
    {
      assert vs[k] in vs && !OnBoard(s, vs[k]);
      KeyIsInjective(CardRow(vs[k], "", c.user, c.version), s.jobs[id]);
    }
    forall i, j | 0 <= i < j < |vs|
      ensures CardKey(vs[i], c) != CardKey(vs[j], c)
    {
      assert vs[i] in vs && vs[j] in vs && vs[i] != vs[j];
      KeyIsInjective(CardRow(vs[i], "", c.user, c.version), CardRow(vs[j], "", c.user, c.version));
    }
  }

  ghost predicate Distinct(vs: seq<Vacancy>) {
    forall i, j :: 0 <= i < j < |vs| ==> vs[i] != vs[j]
  }

  lemma {:induction false} NewOnesAreDistinct(s: Store, vs: seq<Vacancy>)
    requires Distinct(vs)
    ensures Distinct(NewOnes(s, vs))
  {
    if vs != [] {
      var rest, last := vs[..|vs| - 1], vs[|vs| - 1];
      var r := NewOnes(s, rest);
      NewOnesAreDistinct(s, rest);
      assert last !in rest;
      assert forall i :: 0 <= i < |r| ==> r[i] in r && r[i] in rest;
      assert r + [] == r;
    }
  }

  /** A run creates exactly one submitted card for every vacancy the feeds offer and the board lacks - so
      no two for one (site, id) - and touches no other row, exactly when their keys are free, which they
      are when each has one reading. */
  lemma {:induction false} EveryNewVacancyGetsItsCard(s: Store, feeds: seq<Feed>, now: real, c: Config,
                                                      ids: nat -> string)
    requires WellKeyed(s) && FreshIds(s, ids)
    ensures var vs := Fresh(s, feeds, now, c.limit);
      && (Filed(s, vs, c, ids) <==> KeysFree(s, vs, c))
      && (AllPlain(feeds, now, c) ==> KeysFree(s, vs, c))
      && (KeysFree(s, vs, c) ==> forall i, j :: 0 <= i < j < |vs| ==> !SameCard(vs[i], vs[j]))
      && (Filed(s, vs, c, ids) ==> AllOnBoard(Carded(s, vs, c.user, c.version, ids), Offered(feeds, now, c.limit)))
  {
    var vs := Fresh(s, feeds, now, c.limit);
    if KeysFree(s, vs, c) {
      FilesAll(s, vs, c, ids);
      forall i, j | 0 <= i < j < |vs|
        ensures !SameCard(vs[i], vs[j])
      {
        assert CardKey(vs[i], c) != CardKey(vs[j], c);
      }
    }
    if Filed(s, vs, c, ids) {
      FiledKeysWereFree(s, vs, c, ids);
      forall v | v in Offered(feeds, now, c.limit)
        ensures OnBoard(Carded(s, vs, c.user, c.version, ids), v)
      {
        FiledOrKnown(s, vs, v, c, ids);
      }
    }
    if AllPlain(feeds, now, c) {
      PlainKeysAreFree(s, feeds, now, c);
    }
  }

  ghost predicate AllOnBoard(s: Store, vs: seq<Vacancy>) {
    forall v :: v in vs ==> OnBoard(s, v)
  }

  lemma {:induction false} FiledOrKnown(s: Store, vs: seq<Vacancy>, v: Vacancy, c: Config, ids: nat -> string)
    requires Filed(s, vs, c, ids) && (v in vs || OnBoard(s, v))
    ensures OnBoard(Carded(s, vs, c.user, c.version, ids), v)
  {
    var t := Carded(s, vs, c.user, c.version, ids);
    if v in vs {
      var k :| 0 <= k < |vs| && vs[k] == v;
      assert t.jobs[ids(k)].externalId == v.externalId;
    } else {
      var id :| id in s.jobs && s.jobs[id].externalId == v.externalId
                && Or(s.jobs[id].source, "djinni") == Or(v.source, "djinni");
      assert t.jobs[id] == s.jobs[id];
    }
  }

  /** Postings only age: a later run is offered nothing an earlier one was not. */
  lemma {:induction false} LaterOffersNoMore(feeds: seq<Feed>, now: real, later: real, limit: int)
    requires now <= later
    ensures forall v :: v in Offered(feeds, later, limit) ==> v in Offered(feeds, now, limit)
  {
    if feeds != [] {
      var last := feeds[|feeds| - 1];
      LaterOffersNoMore(feeds[..|feeds| - 1], now, later, limit);
      forall v | v in KeptOf(last, later, limit)
        ensures v in KeptOf(last, now, limit)
      {
        var i :| i in last.items && !IsStale(i, later, limit) && v == Vacancy(last.site.value, i.externalId);
        assert !IsStale(i, now, limit);
      }
    }
  }

  // What may take a vacancy off the board.

  function PlaceOf(r: Row): (string, string) {
    (r.externalId, Or(r.source, "djinni"))
  }

  /** The step gives a row to a vacancy of another site or id - a claim of a left-behind row whose key can
      be read both ways, or an update of its key fields - and no other row stood for the one it was of. */
  ghost predicate Displaces(s: Store, op: Op) {
    match op
    case Upsert(job) =>
      OutcomeOf(s, job) == Claimed && ClaimedId(s, job) in s.jobs && GivesUp(s, ClaimedId(s, job), PlaceOf(job))
    case Update(id, f) => id in s.jobs && GivesUp(s, id, PlaceOf(Edited(s.jobs[id], f)))
    case Increment(_) => false
  }

  /** With its new place the row gives up an old one that is no other row's. */
  ghost predicate GivesUp(s: Store, id: string, place: (string, string))
    requires id in s.jobs
  {
    && PlaceOf(s.jobs[id]) != place
    && forall o :: o in s.jobs && o != id ==> PlaceOf(s.jobs[o]) != PlaceOf(s.jobs[id])
  }

  ghost predicate BoardKept(s: Store, t: Store) {
    forall v :: OnBoard(s, v) ==> OnBoard(t, v)
  }

  ghost predicate Stands(s: Store, place: (string, string)) {
    exists id :: id in s.jobs && PlaceOf(s.jobs[id]) == place
  }

  lemma {:induction false} StandsIsOnBoard(s: Store, v: Vacancy)
    ensures OnBoard(s, v) <==> Stands(s, (v.externalId, Or(v.source, "djinni")))
  {
    if Stands(s, (v.externalId, Or(v.source, "djinni"))) {
      var id :| id in s.jobs && PlaceOf(s.jobs[id]) == (v.externalId, Or(v.source, "djinni"));
      assert s.jobs[id].externalId == v.externalId;
    }
    if OnBoard(s, v) {
      var id :| id in s.jobs && s.jobs[id].externalId == v.externalId
                && Or(s.jobs[id].source, "djinni") == Or(v.source, "djinni");
      assert PlaceOf(s.jobs[id]) == (v.externalId, Or(v.source, "djinni"));
    }
  }

  /** One row is written; every other row stays as it is. */
  lemma {:induction false} WriteKeepsBoardExactly(s: Store, t: Store, id: string, r: Row)
    requires t.jobs == s.jobs[id := r]
    ensures BoardKept(s, t) <==> !(id in s.jobs && GivesUp(s, id, PlaceOf(r)))
  {
    if id in s.jobs && GivesUp(s, id, PlaceOf(r)) {
      GivenUpIsGone(s, t, id, r);
    } else {
      forall v | OnBoard(s, v)
        ensures OnBoard(t, v)
      {
        OthersStayOnBoard(s, t, id, r, v);
      }
    }
  }

  lemma {:induction false} OthersStayOnBoard(s: Store, t: Store, id: string, r: Row, v: Vacancy)
    requires t.jobs == s.jobs[id := r] && !(id in s.jobs && GivesUp(s, id, PlaceOf(r))) && OnBoard(s, v)
    ensures OnBoard(t, v)
  {
    var place := (v.externalId, Or(v.source, "djinni"));
    StandsIsOnBoard(s, v);
    StandsIsOnBoard(t, v);
    var o :| o in s.jobs && PlaceOf(s.jobs[o]) == place;
    if o == id && PlaceOf(r) != place {
      o :| o in s.jobs && o != id && PlaceOf(s.jobs[o]) == place;
    }
    assert o in t.jobs && PlaceOf(t.jobs[o]) == place;
  }

  lemma {:induction false} GivenUpIsGone(s: Store, t: Store, id: string, r: Row)
    requires t.jobs == s.jobs[id := r] && id in s.jobs && GivesUp(s, id, PlaceOf(r))
    ensures !BoardKept(s, t)
  {
    var v := Vacancy(s.jobs[id].source, s.jobs[id].externalId);
    assert PlaceOf(s.jobs[id]) == (v.externalId, Or(v.source, "djinni"));
    StandsIsOnBoard(s, v);
    StandsIsOnBoard(t, v);
    assert OnBoard(s, v) && !OnBoard(t, v);
  }

  /** A step keeps every vacancy of the board on it exactly when it displaces none. */
  lemma {:induction false} BoardStaysExactly(s: Store, op: Op)
    requires WellKeyed(s)
    ensures BoardKept(s, Next(s, op)) <==> !Displaces(s, op)
  {
    StepWritesOneRow(s, op);
    if Writes(s, op) {
      WriteKeepsBoardExactly(s, Next(s, op), WrittenId(s, op), WrittenRow(s, op));
      if op.Upsert? {
        SiblingIsTheRowWithTheKey(s.order, s.jobs, KeyOf(op.job));
      }
    }
  }

  /** A claim whose key has one reading displaces nothing. */
  lemma {:induction false} PlainClaimsDisplaceNothing(s: Store, op: Op)
    requires WellKeyed(s) && NoKeyUpdate(op) && (op.Upsert? ==> !Ambiguous(op.job))
    ensures !Displaces(s, op)
  {
    if op.Upsert? && OutcomeOf(s, op.job) == Claimed && ClaimedId(s, op.job) in s.jobs {
      ClaimFilesOneRow(s, op.job);
      if Sibling(s.order, s.jobs, KeyOf(op.job)).Some? {
        KeyIsInjective(op.job, s.jobs[ClaimedId(s, op.job)]);
      }
    }
  }

  ghost predicate NothingDisplaced(s: Store, ops: seq<Op>)
    decreases |ops|
  {
    ops != [] ==> !Displaces(s, ops[0]) && NothingDisplaced(Next(s, ops[0]), ops[1..])
  }

  lemma {:induction false} PlainRunsDisplaceNothing(s: Store, ops: seq<Op>)
    requires WellKeyed(s) && forall op :: op in ops ==> NoKeyUpdate(op) && (op.Upsert? ==> !Ambiguous(op.job))
    ensures NothingDisplaced(s, ops) && NoneClash(s, ops)
    decreases |ops|
  {
    if ops != [] {
      PlainClaimsDisplaceNothing(s, ops[0]);
      StepKeepsWellKeyed(s, ops[0]);
      PlainRunsDisplaceNothing(Next(s, ops[0]), ops[1..]);
    }
  }

  lemma {:induction false} StaysOnBoard(s: Store, ops: seq<Op>, v: Vacancy)
    requires WellKeyed(s) && NothingDisplaced(s, ops) && NoneClash(s, ops)
    requires OnBoard(s, v)
    ensures OnBoard(After(s, ops), v)
    decreases |ops|
  {
    if ops != [] {
      BoardStaysExactly(s, ops[0]);
      StepKeepsWellKeyed(s, ops[0]);
      StaysOnBoard(Next(s, ops[0]), ops[1..], v);
    }
  }

  /** Re-running the intake creates nothing: after one run whose keys were free, and whatever claims,
      re-claims and status changes followed it that displaced nothing, a later run over the same feeds
      finds no vacancy to file. */
  lemma {:induction false} RerunCreatesNothing(s: Store, feeds: seq<Feed>, now: real, c: Config, ids: nat -> string,
                            between: seq<Op>, later: real, moreIds: nat -> string)
    requires WellKeyed(s) && FreshIds(s, ids) && KeysFree(s, Fresh(s, feeds, now, c.limit), c)
    requires var t := Carded(s, Fresh(s, feeds, now, c.limit), c.user, c.version, ids);
      NoneClash(t, between) && NothingDisplaced(t, between)
    requires now <= later
    ensures var t := Carded(s, Fresh(s, feeds, now, c.limit), c.user, c.version, ids);
      var u := After(t, between);
      && Fresh(u, feeds, later, c.limit) == []
      && Carded(u, Fresh(u, feeds, later, c.limit), c.user, c.version, moreIds) == u
      && Cards(u, Fresh(u, feeds, later, c.limit), c.user, c.version, moreIds) == []
  {
    var vs := Fresh(s, feeds, now, c.limit);
    var t := Carded(s, vs, c.user, c.version, ids);
    EveryNewVacancyGetsItsCard(s, feeds, now, c, ids);
    var u := After(t, between);
    LaterOffersNoMore(feeds, now, later, c.limit);
    forall v | v in Offered(feeds, later, c.limit)
      ensures OnBoard(u, v)
    {
      StaysOnBoard(t, between, v);
    }
    NothingNewToFile(u, feeds, later, c);
  }

  lemma {:induction false} SomeElement(vs: seq<Vacancy>)
    requires vs != []
    ensures exists v :: v in vs
  {
    assert vs[0] in vs;
  }

  lemma {:induction false} NothingNewToFile(u: Store, feeds: seq<Feed>, later: real, c: Config)
    requires AllOnBoard(u, Offered(feeds, later, c.limit))
    ensures Fresh(u, feeds, later, c.limit) == []
  {
    if Fresh(u, feeds, later, c.limit) != [] {
      SomeElement(Fresh(u, feeds, later, c.limit));
    }
  }

  /** In particular with keys that have one reading, whatever happens in between. */
  lemma {:induction false} PlainRerunCreatesNothing(s: Store, feeds: seq<Feed>, now: real, c: Config,
                            ids: nat -> string, between: seq<Op>, later: real)
    requires WellKeyed(s) && FreshIds(s, ids) && AllPlain(feeds, now, c) && now <= later
    requires forall op :: op in between ==> NoKeyUpdate(op) && (op.Upsert? ==> !Ambiguous(op.job))
    ensures var t := Carded(s, Fresh(s, feeds, now, c.limit), c.user, c.version, ids);
      Fresh(After(t, between), feeds, later, c.limit) == []
  {
    EveryNewVacancyGetsItsCard(s, feeds, now, c, ids);
    PlainRunsDisplaceNothing(Carded(s, Fresh(s, feeds, now, c.limit), c.user, c.version, ids), between);
    RerunCreatesNothing(s, feeds, now, c, ids, between, later, ids);
  }
}

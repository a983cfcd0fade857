/** The plan for a form: what of the model's answer is stored (`agent/application.py`,
    `normalize_plan`) and where it lands on the page again (`formfill.js`, `applyPlan`). */
module FormPlan {
  import opened FormFields
  import opened Text
  import opened Wrappers

  const ACTIONS: seq<string> := ["answer", "select", "cover_letter", "resume_file", "skip"]
  const MAX_ANSWER_CHARS := 4000
  const MAX_REASON_CHARS := 500
  const MAX_NOTE_CHARS := 1000

  /** One field of the stored snapshot. */
  datatype Question = Question(id: string, kind: string, caption: string)

  /** One decision of the model, unchecked. */
  datatype Answer = Answer(id: string, action: string, value: string, reason: string)

  datatype Item = Item(id: string, action: string, value: string, reason: string, kind: string, caption: string)

  datatype Plan = Plan(items: seq<Item>, note: string, undecided: seq<string>)

  /** The plan, or the `ValueError` a broken contract raises. */
  datatype Outcome = Planned(plan: Plan) | UnknownAction(action: string, id: string)

  function Ids(form: seq<Question>): (r: seq<string>)
    ensures |r| == |form| && forall i :: 0 <= i < |r| ==> r[i] == form[i].id
  {
    seq(|form|, i requires 0 <= i < |form| => form[i].id)
  }

  /** The keys of `known`, in order. */
  function Known(form: seq<Question>): seq<string> {
    Firsts(Ids(form))
  }

  /** `known[id]`: the last question with that id. */
  function QuestionOf(form: seq<Question>, id: string): (q: Question)
    requires id in Ids(form)
    ensures q in form && q.id == id
  {
    var last := form[|form| - 1];
    if last.id == id then last
    else
      assert form == form[..|form| - 1] + [last];
      QuestionOf(form[..|form| - 1], id)
  }

  function Cut(s: string, n: nat): (r: string)
    ensures |r| <= n && |r| <= |s| && (s != [] && n > 0 ==> r != [])
  {
    if |s| > n then s[..n] else s
  }

  /** `str.lower()` is a parameter. */
  function ActionOf(lower: string -> string, a: Answer): string {
    lower(Strip(a.action))
  }

  /** The stored form of one decision. */
  function Normal(form: seq<Question>, lower: string -> string, a: Answer): Item
    requires Strip(a.id) in Ids(form)
  {
    var id, action := Strip(a.id), ActionOf(lower, a);
    var value, reason := Strip(a.value), Cut(Strip(a.reason), MAX_REASON_CHARS);
    var q := QuestionOf(form, id);
    if action == "cover_letter" || action == "resume_file" then Item(id, action, "", reason, q.kind, q.caption)
    else if (action == "answer" || action == "select") && value == "" then
      Item(id, "skip", "", if reason == "" then "the model returned no value" else reason, q.kind, q.caption)
    else Item(id, action, Cut(value, MAX_ANSWER_CHARS), reason, q.kind, q.caption)
  }

  /** The first `n` characters, or all of them. */
  predicate IsCut(r: string, s: string, n: nat) {
    if |s| <= n then r == s else r == s[..n]
  }

  /** `x` stores what the answer decided: its action and its stripped value, cut at 4000 characters. A document
      is stored without a value, and an answer or a choice without a value as a skip that says so - nothing
      else becomes a skip. Kind and label are those of the last field with the id. */
  ghost predicate Stores(form: seq<Question>, lower: string -> string, a: Answer, x: Item) {
    var action, value, reason := lower(Strip(a.action)), Strip(a.value), Strip(a.reason);
    var blank := action in {"answer", "select"} && value == "";
    && x.id == Strip(a.id)
    && x.action == (if blank then "skip" else action)
    && (if action in {"cover_letter", "resume_file"} then x.value == "" else IsCut(x.value, value, 4000))
    && (if blank && reason == "" then x.reason == "the model returned no value" else IsCut(x.reason, reason, 500))
    && exists i :: 0 <= i < |form| && form[i] == Question(x.id, x.kind, x.caption)
                   && forall j :: i < j < |form| ==> form[j].id != x.id
  }

  lemma {:induction false} LastQuestion(form: seq<Question>, id: string)
    requires id in Ids(form)
    ensures exists i :: 0 <= i < |form| && form[i] == QuestionOf(form, id)
                        && forall j :: i < j < |form| ==> form[j].id != id
  {
    var n := |form| - 1;
    if form[n].id != id {
      assert form == form[..n] + [form[n]];
      LastQuestion(form[..n], id);
      var i :| 0 <= i < n && form[..n][i] == QuestionOf(form[..n], id)
               && forall j :: i < j < n ==> form[..n][j].id != id;
      assert forall j :: 0 <= j < n ==> form[j] == form[..n][j];
    }
  }

  /** The stored form of an answer stores it. */
  lemma {:induction false} NormalStores(form: seq<Question>, lower: string -> string, a: Answer)
    requires Strip(a.id) in Ids(form)
    ensures Stores(form, lower, a, Normal(form, lower, a))
  {
    LastQuestion(form, Strip(a.id));
  }

  // ---------- reading the answers ----------

  datatype Reading = Read(items: seq<Item>) | Broken(action: string, id: string)

  predicate Mentioned(items: seq<Item>, id: string) {
    exists i :: 0 <= i < |items| && items[i].id == id
  }

  function ReadOne(form: seq<Question>, lower: string -> string, items: seq<Item>, a: Answer): Reading {
    var id := Strip(a.id);
    if id !in Ids(form) || Mentioned(items, id) then Read(items)
    else if ActionOf(lower, a) !in ACTIONS then Broken(ActionOf(lower, a), id)
    else Read(items + [Normal(form, lower, a)])
  }

  function ReadAll(form: seq<Question>, lower: string -> string, answers: seq<Answer>): Reading {
    if answers == [] then Read([])
    else
      var before := ReadAll(form, lower, answers[..|answers| - 1]);
      if before.Broken? then before else ReadOne(form, lower, before.items, answers[|answers| - 1])
  }

  /** The answer `k` decides its field: the first one for a field of the form. */
  predicate Decides(form: seq<Question>, answers: seq<Answer>, k: nat)
    requires k < |answers|
  {
    && Strip(answers[k].id) in Ids(form)
    && forall j :: 0 <= j < k ==> Strip(answers[j].id) != Strip(answers[k].id)
  }

  ghost predicate Decided(form: seq<Question>, answers: seq<Answer>, id: string) {
    id in Ids(form) && exists k :: 0 <= k < |answers| && Strip(answers[k].id) == id
  }

  /** The items read from `answers` are exactly the deciding answers, in their stored form. */
  ghost predicate Faithful(form: seq<Question>, lower: string -> string, answers: seq<Answer>, items: seq<Item>) {
    && (forall id :: Mentioned(items, id) <==> Decided(form, answers, id))
    && (forall i, j :: 0 <= i < j < |items| ==> items[i].id != items[j].id)
    && (forall x :: x in items ==> FromADecision(form, lower, answers, x))
  }

  ghost predicate FromADecision(form: seq<Question>, lower: string -> string, answers: seq<Answer>, x: Item) {
    exists k :: 0 <= k < |answers| && Decides(form, answers, k) && ActionOf(lower, answers[k]) in ACTIONS
                && x == Normal(form, lower, answers[k])
  }

  lemma {:induction false} ReadingIsFaithful(form: seq<Question>, lower: string -> string, answers: seq<Answer>)
    ensures var r := ReadAll(form, lower, answers); r.Read? ==> Faithful(form, lower, answers, r.items)
  {
    if answers != [] {
      var rest, a := answers[..|answers| - 1], answers[|answers| - 1];
      ReadingIsFaithful(form, lower, rest);
      var before := ReadAll(form, lower, rest);
      if before.Read? && ReadOne(form, lower, before.items, a).Read? {
        assert answers == rest + [a];
        FaithfulStep(form, lower, rest, a, before.items);
      }
    }
  }

  lemma {:induction false} DecidedStep(form: seq<Question>, rest: seq<Answer>, a: Answer, id: string)
    ensures Decided(form, rest + [a], id) <==> Decided(form, rest, id) || (id in Ids(form) && Strip(a.id) == id)
  {
    var all := rest + [a];
    if Decided(form, rest, id) {
      var k :| 0 <= k < |rest| && Strip(rest[k].id) == id;
      assert all[k] == rest[k];
    }
    assert all[|rest|] == a;
  }

  lemma {:induction false} DecisionKept(form: seq<Question>, lower: string -> string, rest: seq<Answer>, a: Answer,
                                        x: Item)
    requires FromADecision(form, lower, rest, x)
    ensures FromADecision(form, lower, rest + [a], x)
  {
    var k :| 0 <= k < |rest| && Decides(form, rest, k) && ActionOf(lower, rest[k]) in ACTIONS
             && x == Normal(form, lower, rest[k]);
    assert (rest + [a])[k] == rest[k];
    assert Decides(form, rest + [a], k);
  }

  lemma {:induction false} FaithfulStep(form: seq<Question>, lower: string -> string, rest: seq<Answer>, a: Answer,
                                        items: seq<Item>)
    requires Faithful(form, lower, rest, items) && ReadOne(form, lower, items, a).Read?
    ensures Faithful(form, lower, rest + [a], ReadOne(form, lower, items, a).items)
  {
    var more, id := ReadOne(form, lower, items, a).items, Strip(a.id);
    forall i: string
      ensures Mentioned(more, i) <==> Decided(form, rest + [a], i)
    {
      DecidedStep(form, rest, a, i);
      MentionedStep(items, more, i, id);
    }
    forall x | x in more
      ensures FromADecision(form, lower, rest + [a], x)
    {
      if x in items {
        DecisionKept(form, lower, rest, a, x);
      } else {
        NewDecision(form, lower, rest, a);
      }
    }
  }

  lemma {:induction false} MentionedStep(items: seq<Item>, more: seq<Item>, i: string, id: string)
    requires more == items || (|more| == |items| + 1 && more[..|items|] == items && more[|items|].id == id)
    ensures Mentioned(more, i) <==> Mentioned(items, i) || (more != items && i == id)
  {
    if more != items {
      assert forall k :: 0 <= k < |items| ==> more[k] == more[..|items|][k];
    }
  }

  lemma {:induction false} NewDecision(form: seq<Question>, lower: string -> string, rest: seq<Answer>, a: Answer)
    requires Strip(a.id) in Ids(form) && !Decided(form, rest, Strip(a.id)) && ActionOf(lower, a) in ACTIONS
    ensures FromADecision(form, lower, rest + [a], Normal(form, lower, a))
  {
    var all := rest + [a];
    assert all[|rest|] == a;
    assert forall j :: 0 <= j < |rest| ==> all[j] == rest[j];
    assert Decides(form, all, |rest|);
  }

  /** Some deciding answer names an action there is not. */
  ghost predicate BreaksContract(form: seq<Question>, lower: string -> string, answers: seq<Answer>) {
    exists k :: 0 <= k < |answers| && Breaks(form, lower, answers, k)
  }

  predicate Breaks(form: seq<Question>, lower: string -> string, answers: seq<Answer>, k: nat)
    requires k < |answers|
  {
    Decides(form, answers, k) && ActionOf(lower, answers[k]) !in ACTIONS
  }

  lemma {:induction false} DecidesPrefix(form: seq<Question>, rest: seq<Answer>, a: Answer, k: nat)
    requires k < |rest|
    ensures Decides(form, rest + [a], k) <==> Decides(form, rest, k)
  {
    assert forall j :: 0 <= j < |rest| ==> (rest + [a])[j] == rest[j];
  }

  lemma {:induction false} DecidesLast(form: seq<Question>, rest: seq<Answer>, a: Answer)
    ensures Decides(form, rest + [a], |rest|) <==> Strip(a.id) in Ids(form) && !Decided(form, rest, Strip(a.id))
  {
    assert forall j :: 0 <= j < |rest| ==> (rest + [a])[j] == rest[j];
  }

  lemma {:induction false} BreaksStep(form: seq<Question>, lower: string -> string, rest: seq<Answer>, a: Answer)
    ensures BreaksContract(form, lower, rest + [a])
      <==> BreaksContract(form, lower, rest)
           || (Strip(a.id) in Ids(form) && !Decided(form, rest, Strip(a.id)) && ActionOf(lower, a) !in ACTIONS)
  {
    var all := rest + [a];
    DecidesLast(form, rest, a);
    forall k | 0 <= k < |rest|
      ensures Breaks(form, lower, all, k) <==> Breaks(form, lower, rest, k)
    {
      DecidesPrefix(form, rest, a, k);
    }
    assert Breaks(form, lower, all, |rest|) <==>
           Strip(a.id) in Ids(form) && !Decided(form, rest, Strip(a.id)) && ActionOf(lower, a) !in ACTIONS;
  }

  /** The contract breaks exactly when some deciding answer names an action there is not. */
  lemma {:induction false} BrokenExactly(form: seq<Question>, lower: string -> string, answers: seq<Answer>)
    ensures ReadAll(form, lower, answers).Broken? <==> BreaksContract(form, lower, answers)
  {
    if answers != [] {
      var rest, a := answers[..|answers| - 1], answers[|answers| - 1];
      BrokenExactly(form, lower, rest);
      ReadingIsFaithful(form, lower, rest);
      BreaksStep(form, lower, rest, a);
      assert answers == rest + [a];
    }
  }

  /** The five actions, the lengths, and no document or empty instruction in a value. */
  predicate Safe(x: Item) {
    && x.action in ACTIONS && |x.value| <= MAX_ANSWER_CHARS && |x.reason| <= MAX_REASON_CHARS
    && (x.action == "cover_letter" || x.action == "resume_file" ==> x.value == "")
    && (x.action == "answer" || x.action == "select" ==> x.value != "")
  }

  lemma {:induction false} NormalIsSafe(form: seq<Question>, lower: string -> string, a: Answer)
    requires Strip(a.id) in Ids(form) && ActionOf(lower, a) in ACTIONS
    ensures Safe(Normal(form, lower, a))
  {
    assert "skip" == ACTIONS[4];
    assert |"the model returned no value"| <= MAX_REASON_CHARS;
  }

  // ---------- form order ----------

  /** The item of a field, if the answers decided it. */
  function ItemOf(items: seq<Item>, id: string): (x: Option<Item>)
    ensures x.Some? <==> Mentioned(items, id)
    ensures x.Some? ==> x.value in items && x.value.id == id
  {
    if items == [] then None
    else if items[|items| - 1].id == id then Some(items[|items| - 1])
    else
      var rest := items[..|items| - 1];
      assert items == rest + [items[|items| - 1]];
      assert Mentioned(items, id) <==> Mentioned(rest, id) by { MentionedStep(rest, items, id, items[|rest|].id); }
      ItemOf(rest, id)
  }

  /** Walking the form and picking up each field's item. */
  function Arranged(ids: seq<string>, items: seq<Item>): seq<Item> {
    if ids == [] then []
    else
      var x := ItemOf(items, ids[|ids| - 1]);
      Arranged(ids[..|ids| - 1], items) + if x.Some? then [x.value] else []
  }

  /** The ids the plan leaves out. */
  function Undecided(ids: seq<string>, items: seq<Item>): seq<string> {
    if ids == [] then []
    else
      var last := ids[|ids| - 1];
      Undecided(ids[..|ids| - 1], items) + if Mentioned(items, last) then [] else [last]
  }

  /** The ids the plan decides, in form order. */
  function DecidedIds(ids: seq<string>, items: seq<Item>): seq<string> {
    if ids == [] then []
    else
      var last := ids[|ids| - 1];
      DecidedIds(ids[..|ids| - 1], items) + if Mentioned(items, last) then [last] else []
  }

  function ItemIds(items: seq<Item>): (r: seq<string>)
    ensures |r| == |items| && forall i :: 0 <= i < |r| ==> r[i] == items[i].id
  {
    seq(|items|, i requires 0 <= i < |items| => items[i].id)
  }

  lemma {:induction false} ArrangedFollowsTheForm(ids: seq<string>, items: seq<Item>)
    ensures ItemIds(Arranged(ids, items)) == DecidedIds(ids, items)
    ensures forall x :: x in Arranged(ids, items) ==> x in items
  {
    if ids != [] {
      ArrangedFollowsTheForm(ids[..|ids| - 1], items);
    }
  }

  // `normalized.sort(key=order)`, which is stable.

  /** `order.get(id, len(order))`. */
  function Place(ids: seq<string>, id: string): (k: nat)
    ensures k <= |ids| && (k < |ids| <==> id in ids) && (k < |ids| ==> ids[k] == id)
  {
    if ids == [] || ids[0] == id then 0 else 1 + Place(ids[1..], id)
  }

  /** Behind everything that comes before it or ties with it. */
  function Inserted(ids: seq<string>, sorted: seq<Item>, x: Item): seq<Item> {
    if sorted == [] then [x]
    else
      var last := sorted[|sorted| - 1];
      if Place(ids, last.id) <= Place(ids, x.id) then sorted + [x]
      else Inserted(ids, sorted[..|sorted| - 1], x) + [last]
  }

  function Sorted(ids: seq<string>, items: seq<Item>): seq<Item> {
    if items == [] then [] else Inserted(ids, Sorted(ids, items[..|items| - 1]), items[|items| - 1])
  }

  predicate Ascending(ids: seq<string>, items: seq<Item>) {
    forall i, j :: 0 <= i < j < |items| ==> Place(ids, items[i].id) <= Place(ids, items[j].id)
  }

  lemma {:induction false} InsertedIsThere(ids: seq<string>, sorted: seq<Item>, x: Item)
    ensures multiset(Inserted(ids, sorted, x)) == multiset(sorted) + multiset{x}
  {
    if sorted != [] {
      var rest, last := sorted[..|sorted| - 1], sorted[|sorted| - 1];
      assert sorted == rest + [last];
      if Place(ids, last.id) > Place(ids, x.id) {
        InsertedIsThere(ids, rest, x);
      }
    }
  }

  lemma {:induction false} InsertedAscends(ids: seq<string>, sorted: seq<Item>, x: Item)
    requires Ascending(ids, sorted)
    ensures Ascending(ids, Inserted(ids, sorted, x))
  {
    if sorted != [] {
      var rest, last := sorted[..|sorted| - 1], sorted[|sorted| - 1];
      if Place(ids, last.id) > Place(ids, x.id) {
        assert sorted == rest + [last];
        InsertedAscends(ids, rest, x);
        InsertedIsThere(ids, rest, x);
        StaysAscending(ids, rest, Inserted(ids, rest, x), x, last);
      } else {
        EndAscends(ids, sorted, x);
      }
    }
  }

  lemma {:induction false} EndAscends(ids: seq<string>, sorted: seq<Item>, x: Item)
    requires Ascending(ids, sorted) && sorted != []
    requires Place(ids, sorted[|sorted| - 1].id) <= Place(ids, x.id)
    ensures Ascending(ids, sorted + [x])
  {
  }

  lemma {:induction false} StaysAscending(ids: seq<string>, rest: seq<Item>, front: seq<Item>, x: Item, last: Item)
    requires Ascending(ids, rest + [last]) && Ascending(ids, front)
    requires multiset(front) == multiset(rest) + multiset{x} && Place(ids, x.id) < Place(ids, last.id)
    ensures Ascending(ids, front + [last])
  {
    forall i | 0 <= i < |front|
      ensures Place(ids, front[i].id) <= Place(ids, last.id)
    {
      assert front[i] in multiset(front);
      if front[i] != x {
        assert front[i] in rest;
        var k :| 0 <= k < |rest| && rest[k] == front[i];
        assert (rest + [last])[k] == rest[k] && (rest + [last])[|rest|] == last;
      }
    }
  }

  /** The sort permutes the items into ascending form positions. */
  lemma {:induction false} SortedIsAPermutation(ids: seq<string>, items: seq<Item>)
    ensures multiset(Sorted(ids, items)) == multiset(items) && Ascending(ids, Sorted(ids, items))
  {
    if items != [] {
      var rest, last := items[..|items| - 1], items[|items| - 1];
      assert items == rest + [last];
      SortedIsAPermutation(ids, rest);
      InsertedIsThere(ids, Sorted(ids, rest), last);
      InsertedAscends(ids, Sorted(ids, rest), last);
    }
  }

  predicate DistinctIds(items: seq<Item>) {
    forall i, j :: 0 <= i < j < |items| ==> items[i].id != items[j].id
  }

  /** The positions strictly ascend, and the items are those of `items` that stand in the form. */
  ghost predicate Lines(ids: seq<string>, items: seq<Item>, xs: seq<Item>) {
    && (forall i, j :: 0 <= i < j < |xs| ==> Place(ids, xs[i].id) < Place(ids, xs[j].id))
    && (forall x :: x in xs <==> x in items && x.id in ids)
  }

  lemma {:induction false} PlaceInFront(ids: seq<string>, n: nat, id: string)
    requires n <= |ids| && id in ids[..n]
    ensures Place(ids[..n], id) == Place(ids, id) < n
  {
    if ids[0] != id {
      assert ids[..n][1..] == ids[1..][..n - 1];
      assert ids[..n] == [ids[0]] + ids[..n][1..];
      PlaceInFront(ids[1..], n - 1, id);
    }
  }

  lemma {:induction false} LastPlace(ids: seq<string>)
    requires ids != [] && ids[|ids| - 1] !in ids[..|ids| - 1]
    ensures Place(ids, ids[|ids| - 1]) == |ids| - 1
  {
    forall i | 0 <= i < |ids| - 1
      ensures ids[i] != ids[|ids| - 1]
    {
      assert ids[..|ids| - 1][i] == ids[i];
    }
  }

  /** There is only one such order: the walk of the form. */
  lemma {:induction false} OnlyOneOrder(ids: seq<string>, items: seq<Item>, xs: seq<Item>)
    requires forall i, j :: 0 <= i < j < |ids| ==> ids[i] != ids[j]
    requires DistinctIds(items) && Lines(ids, items, xs)
    ensures xs == Arranged(ids, items)
    decreases |ids|
  {
    if ids == [] {
      NothingLinesUp(items, xs);
    } else {
      var n := |ids| - 1;
      LastPlace(ids);
      var found := ItemOf(items, ids[n]);
      if found.Some? {
        var front := TakeOff(ids, items, xs, found.value);
        OnlyOneOrder(ids[..n], items, front);
      } else {
        LinesWithout(ids, items, xs);
        OnlyOneOrder(ids[..n], items, xs);
      }
    }
  }

  lemma {:induction false} NothingLinesUp(items: seq<Item>, xs: seq<Item>)
    requires Lines([], items, xs)
    ensures xs == []
  {
    if xs != [] {
      SomeItem(xs);
    }
  }

  lemma {:induction false} SomeItem(xs: seq<Item>)
    requires xs != []
    ensures exists x :: x in xs
  {
    assert xs[0] in xs;
  }

  lemma {:induction false} LaterIsHigher(ids: seq<string>, items: seq<Item>, xs: seq<Item>, i: nat, j: nat)
    requires Lines(ids, items, xs) && i < |xs| && j < |xs|
    ensures i < j ==> Place(ids, xs[i].id) < Place(ids, xs[j].id)
  {
  }

  /** The item of the last field is the last one. */
  lemma {:induction false} LastFieldIsLast(ids: seq<string>, items: seq<Item>, xs: seq<Item>, x: Item)
    requires ids != [] && ids[|ids| - 1] !in ids[..|ids| - 1]
    requires Lines(ids, items, xs) && x in items && x.id == ids[|ids| - 1]
    ensures xs != [] && xs[|xs| - 1] == x
  {
    LastPlace(ids);
    assert x in xs;
    var at, l :| 0 <= at < |xs| && xs[at] == x && l == |xs| - 1;
    assert xs[l] in xs;
    LaterIsHigher(ids, items, xs, at, l);
  }

  lemma {:induction false} TakeOff(ids: seq<string>, items: seq<Item>, xs: seq<Item>,
                                   x: Item) returns (front: seq<Item>)
    requires ids != [] && (forall i, j :: 0 <= i < j < |ids| ==> ids[i] != ids[j])
    requires DistinctIds(items) && Lines(ids, items, xs) && x in items && x.id == ids[|ids| - 1]
    ensures xs == front + [x] && Lines(ids[..|ids| - 1], items, front)
  {
    var n := |ids| - 1;
    LastFieldIsLast(ids, items, xs, x);
    front := xs[..|xs| - 1];
    forall y
      ensures y in front <==> y in items && y.id in ids[..n]
    {
      FrontHolds(ids, items, xs, x, y);
    }
    FrontAscends(ids, items, xs, front);
  }

  lemma {:induction false} FrontAscends(ids: seq<string>, items: seq<Item>, xs: seq<Item>, front: seq<Item>)
    requires ids != [] && xs != [] && Lines(ids, items, xs) && front == xs[..|xs| - 1]
    requires forall y :: y in front ==> y.id in ids[..|ids| - 1]
    ensures forall i, j :: 0 <= i < j < |front| ==>
              Place(ids[..|ids| - 1], front[i].id) < Place(ids[..|ids| - 1], front[j].id)
  {
    var n := |ids| - 1;
    forall i, j | 0 <= i < j < |front|
      ensures Place(ids[..n], front[i].id) < Place(ids[..n], front[j].id)
    {
      assert front[i] in front && front[j] in front;
      PlaceInFront(ids, n, front[i].id);
      PlaceInFront(ids, n, front[j].id);
      LaterIsHigher(ids, items, xs, i, j);
    }
  }

  lemma {:induction false} FrontHolds(ids: seq<string>, items: seq<Item>, xs: seq<Item>, x: Item, y: Item)
    requires ids != [] && ids[|ids| - 1] !in ids[..|ids| - 1]
    requires DistinctIds(items) && Lines(ids, items, xs) && x in items && x.id == ids[|ids| - 1]
    requires xs != [] && xs[|xs| - 1] == x
    ensures y in xs[..|xs| - 1] <==> y in items && y.id in ids[..|ids| - 1]
  {
    assert xs == xs[..|xs| - 1] + [x];
    assert ids == ids[..|ids| - 1] + [ids[|ids| - 1]];
    if y in xs[..|xs| - 1] {
      EarlierIsAnother(ids, items, xs, x, y);
    }
  }

  lemma {:induction false} EarlierIsAnother(ids: seq<string>, items: seq<Item>, xs: seq<Item>, x: Item, y: Item)
    requires Lines(ids, items, xs) && xs != [] && xs[|xs| - 1] == x && y in xs[..|xs| - 1]
    ensures y in xs && y.id != x.id
  {
    var i :| 0 <= i < |xs| - 1 && xs[i] == y;
    LaterIsHigher(ids, items, xs, i, |xs| - 1);
  }

  lemma {:induction false} LinesWithout(ids: seq<string>, items: seq<Item>, xs: seq<Item>)
    requires ids != [] && !Mentioned(items, ids[|ids| - 1]) && Lines(ids, items, xs)
    ensures Lines(ids[..|ids| - 1], items, xs)
  {
    var n := |ids| - 1;
    assert ids == ids[..n] + [ids[n]];
    forall x
      ensures x in xs <==> x in items && x.id in ids[..n]
    {
      if x in items {
        var k :| 0 <= k < |items| && items[k] == x;
        assert x.id != ids[n];
      }
    }
    forall i, j | 0 <= i < j < |xs|
      ensures Place(ids[..n], xs[i].id) < Place(ids[..n], xs[j].id)
    {
      assert xs[i] in xs && xs[j] in xs;
      PlaceInFront(ids, n, xs[i].id);
      PlaceInFront(ids, n, xs[j].id);
    }
  }

  /** Sorting by form position is walking the form, so the walk is a permutation of the items. */
  lemma {:induction false} SortedIsTheWalk(ids: seq<string>, items: seq<Item>)
    requires forall i, j :: 0 <= i < j < |ids| ==> ids[i] != ids[j]
    requires DistinctIds(items) && forall x :: x in items ==> x.id in ids
    ensures Sorted(ids, items) == Arranged(ids, items)
    ensures multiset(Arranged(ids, items)) == multiset(items) && Ascending(ids, Arranged(ids, items))
  {
    SortedIsAPermutation(ids, items);
    PermutationLinesUp(ids, items, Sorted(ids, items));
    OnlyOneOrder(ids, items, Sorted(ids, items));
  }

  lemma {:induction false} PermutationLinesUp(ids: seq<string>, items: seq<Item>, xs: seq<Item>)
    requires DistinctIds(items) && forall x :: x in items ==> x.id in ids
    requires multiset(xs) == multiset(items) && Ascending(ids, xs)
    ensures Lines(ids, items, xs)
  {
    forall x
      ensures x in xs <==> x in items
    {
      assert x in multiset(xs) <==> x in multiset(items);
    }
    forall i, j | 0 <= i < j < |xs|
      ensures Place(ids, xs[i].id) < Place(ids, xs[j].id)
    {
      DistinctAfterPermuting(items, xs, i, j);
      assert xs[i] in xs && xs[j] in xs;
    }
  }

  lemma {:induction false} DistinctAfterPermuting(items: seq<Item>, xs: seq<Item>, i: nat, j: nat)
    requires DistinctIds(items) && multiset(xs) == multiset(items) && i < j < |xs|
    ensures xs[i].id != xs[j].id
  {
    if xs[i].id == xs[j].id {
      assert xs[i] in multiset(items) && xs[j] in multiset(items);
      assert xs[i] == xs[j];
      AtMostOnce(items, xs[i]);
      Twice(xs, i, j);
    }
  }

  lemma {:induction false} AtMostOnce(items: seq<Item>, x: Item)
    requires DistinctIds(items)
    ensures multiset(items)[x] <= 1
  {
    if items != [] {
      var rest, last := items[..|items| - 1], items[|items| - 1];
      assert items == rest + [last];
      AtMostOnce(rest, x);
      if last == x {
        assert x !in rest;
        assert x !in multiset(rest);
      }
    }
  }

  lemma {:induction false} Twice(xs: seq<Item>, i: nat, j: nat)
    requires i < j < |xs| && xs[i] == xs[j]
    ensures multiset(xs)[xs[i]] >= 2
  {
    assert xs == xs[..j] + [xs[j]] + xs[j + 1..];
    assert xs[i] == xs[..j][i] && xs[i] in multiset(xs[..j]);
  }

  lemma {:induction false} DecidedOrNot(ids: seq<string>, items: seq<Item>, id: string)
    ensures id in DecidedIds(ids, items) <==> id in ids && Mentioned(items, id)
    ensures id in Undecided(ids, items) <==> id in ids && !Mentioned(items, id)
    ensures |DecidedIds(ids, items)| + |Undecided(ids, items)| == |ids|
  {
    if ids != [] {
      var rest := ids[..|ids| - 1];
      DecidedOrNot(rest, items, id);
      assert ids == rest + [ids[|ids| - 1]];
    }
  }

  // ---------- the stored plan ----------

  function PlanOf(form: seq<Question>, lower: string -> string, answers: seq<Answer>, note: string): Outcome {
    match ReadAll(form, lower, answers)
    case Broken(action, id) => UnknownAction(action, id)
    case Read(items) =>
      Planned(Plan(Sorted(Known(form), items), Cut(Strip(note), MAX_NOTE_CHARS), Undecided(Known(form), items)))
  }

  /** `normalize_plan`. */
  method NormalizePlan(form: seq<Question>, lower: string -> string, answers: seq<Answer>, note: string)
    returns (o: Outcome)
    ensures o == PlanOf(form, lower, answers, note)
  {
    var known := Ids(form);
    var normalized: seq<Item> := [];
    var seen: set<string> := {};
    for n := 0 to |answers|
      invariant ReadAll(form, lower, answers[..n]) == Read(normalized)
      invariant forall id :: id in seen <==> Mentioned(normalized, id)
    {
      var a := answers[n];
      ReadAllStep(form, lower, answers, n);
      var id := Strip(a.id);
      if id !in known || id in seen {
        continue;
      }
      var action := lower(Strip(a.action));
      if action !in ACTIONS {
        BrokenStays(form, lower, answers, n + 1);
        return UnknownAction(action, id);
      }
      var more := normalized + [Normal(form, lower, a)];
      forall i: string
        ensures Mentioned(more, i) <==> Mentioned(normalized, i) || i == id
      {
        MentionedStep(normalized, more, i, id);
      }
      seen, normalized := seen + {id}, more;
    }
    assert answers[..|answers|] == answers;
    var order := Known(form);
    return Planned(Plan(Sorted(order, normalized), Cut(Strip(note), MAX_NOTE_CHARS), Undecided(order, normalized)));
  }

  lemma {:induction false} ReadAllStep(form: seq<Question>, lower: string -> string, answers: seq<Answer>, n: nat)
    requires n < |answers| && ReadAll(form, lower, answers[..n]).Read?
    ensures ReadAll(form, lower, answers[..n + 1])
         == ReadOne(form, lower, ReadAll(form, lower, answers[..n]).items, answers[n])
  {
    assert answers[..n + 1][..n] == answers[..n];
  }

  lemma {:induction false} BrokenStays(form: seq<Question>, lower: string -> string, answers: seq<Answer>, n: nat)
    requires n <= |answers| && ReadAll(form, lower, answers[..n]).Broken?
    ensures ReadAll(form, lower, answers) == ReadAll(form, lower, answers[..n])
    decreases |answers|
  {
    if n == |answers| {
      assert answers[..n] == answers;
    } else {
      var rest := answers[..|answers| - 1];
      assert rest[..n] == answers[..n];
      BrokenStays(form, lower, rest, n);
    }
  }

  /** The first answer that breaks the contract: of the deciding answers before it, every one names an action
      there is. */
  ghost predicate FirstBreach(form: seq<Question>, lower: string -> string, answers: seq<Answer>, k: nat)
    requires k < |answers|
  {
    Breaks(form, lower, answers, k) && forall j :: 0 <= j < k ==> !Breaks(form, lower, answers, j)
  }

  lemma {:induction false} FirstBreachIsReported(form: seq<Question>, lower: string -> string, answers: seq<Answer>)
    ensures var r := ReadAll(form, lower, answers);
      r.Broken? ==>
        exists k :: 0 <= k < |answers| && FirstBreach(form, lower, answers, k)
                    && r == Broken(lower(Strip(answers[k].action)), Strip(answers[k].id))
  {
    if answers != [] {
      var n := |answers| - 1;
      var rest, a := answers[..n], answers[n];
      FirstBreachIsReported(form, lower, rest);
      assert answers == rest + [a];
      forall k | 0 <= k < n
        ensures Breaks(form, lower, answers, k) <==> Breaks(form, lower, rest, k)
      {
        DecidesPrefix(form, rest, a, k);
      }
      if ReadAll(form, lower, rest).Broken? {
        var k :| 0 <= k < n && FirstBreach(form, lower, rest, k)
                 && ReadAll(form, lower, rest) == Broken(lower(Strip(rest[k].action)), Strip(rest[k].id));
        assert FirstBreach(form, lower, answers, k);
      } else {
        LastBreach(form, lower, rest, a);
      }
    }
  }

  lemma {:induction false} LastBreach(form: seq<Question>, lower: string -> string, rest: seq<Answer>, a: Answer)
    requires ReadAll(form, lower, rest).Read?
    requires forall k :: 0 <= k < |rest| ==> (Breaks(form, lower, rest + [a], k) <==> Breaks(form, lower, rest, k))
    ensures ReadOne(form, lower, ReadAll(form, lower, rest).items, a).Broken? ==>
              FirstBreach(form, lower, rest + [a], |rest|)
  {
    BrokenExactly(form, lower, rest);
    ReadingIsFaithful(form, lower, rest);
    DecidesLast(form, rest, a);
  }

  /** Its item is the first answer for its field, stored. */
  ghost predicate StoresADecision(form: seq<Question>, lower: string -> string, answers: seq<Answer>, x: Item) {
    exists k :: 0 <= k < |answers| && Decides(form, answers, k) && Stores(form, lower, answers[k], x)
  }

  lemma {:induction false} DecisionIsStored(form: seq<Question>, lower: string -> string, answers: seq<Answer>, x: Item)
    requires FromADecision(form, lower, answers, x)
    ensures Safe(x) && StoresADecision(form, lower, answers, x)
  {
    var k :| 0 <= k < |answers| && Decides(form, answers, k) && ActionOf(lower, answers[k]) in ACTIONS
             && x == Normal(form, lower, answers[k]);
    NormalIsSafe(form, lower, answers[k]);
    NormalStores(form, lower, answers[k]);
  }

  /** A plan is refused exactly when the contract is broken, naming the first answer that broke it. Otherwise
      its items are distinct fields of the snapshot in form order, each storing the first answer for its field,
      `undecided` lists exactly the other fields, and the note is the answer's. */
  lemma {:induction false} PlanIsExact(form: seq<Question>, lower: string -> string, answers: seq<Answer>, note: string)
    ensures var o := PlanOf(form, lower, answers, note);
      && (o.UnknownAction? <==> BreaksContract(form, lower, answers))
      && (o.UnknownAction? ==>
            exists k :: 0 <= k < |answers| && FirstBreach(form, lower, answers, k)
                        && o == UnknownAction(lower(Strip(answers[k].action)), Strip(answers[k].id)))
      && (o.Planned? ==>
            (forall x :: x in o.plan.items ==> Safe(x) && StoresADecision(form, lower, answers, x))
            && Partitioned(form, answers, ItemIds(o.plan.items), o.plan.undecided)
            && IsCut(o.plan.note, Strip(note), 1000))
  {
    BrokenExactly(form, lower, answers);
    FirstBreachIsReported(form, lower, answers);
    var r := ReadAll(form, lower, answers);
    if r.Read? {
      ReadingIsFaithful(form, lower, answers);
      SortedIsInFormOrder(form, answers, lower, r.items);
      ArrangedFollowsTheForm(Known(form), r.items);
      SplitsTheForm(form, answers, r.items);
      forall x | x in Arranged(Known(form), r.items)
        ensures Safe(x) && StoresADecision(form, lower, answers, x)
      {
        DecisionIsStored(form, lower, answers, x);
      }
    }
  }

  lemma {:induction false} SortedIsInFormOrder(form: seq<Question>, answers: seq<Answer>, lower: string -> string,
                                               items: seq<Item>)
    requires Faithful(form, lower, answers, items)
    ensures Sorted(Known(form), items) == Arranged(Known(form), items)
    ensures multiset(Sorted(Known(form), items)) == multiset(items)
  {
    forall x | x in items
      ensures x.id in Known(form)
    {
      var k :| 0 <= k < |items| && items[k] == x;
      assert Mentioned(items, x.id);
    }
    SortedIsTheWalk(Known(form), items);
  }

  /** `decided` and `undecided` split the snapshot's ids, and keep their order. */
  ghost predicate Partitioned(form: seq<Question>, answers: seq<Answer>, decided: seq<string>, undecided: seq<string>) {
    && (forall id :: id in decided <==> Decided(form, answers, id))
    && (forall id :: id in undecided <==> id in Ids(form) && !Decided(form, answers, id))
    && |decided| + |undecided| == |Known(form)|
    && InOrder(decided, Known(form)) && InOrder(undecided, Known(form))
  }

  /** The elements of `xs` stand in `ids` one after the other. */
  predicate InOrder(xs: seq<string>, ids: seq<string>)
    decreases |ids|
  {
    if xs == [] then true
    else
      && ids != []
      && (var x, last := xs[|xs| - 1], ids[|ids| - 1];
          InOrder(if x == last then xs[..|xs| - 1] else xs, ids[..|ids| - 1]))
  }

  lemma {:induction false} FiltersAreInOrder(ids: seq<string>, items: seq<Item>)
    requires forall i, j :: 0 <= i < j < |ids| ==> ids[i] != ids[j]
    ensures InOrder(DecidedIds(ids, items), ids) && InOrder(Undecided(ids, items), ids)
  {
    if ids != [] {
      var n := |ids| - 1;
      var rest := ids[..n];
      FiltersAreInOrder(rest, items);
      DecidedOrNot(rest, items, ids[n]);
      assert ids[n] !in rest;
      FilterStep(DecidedIds(rest, items), DecidedIds(ids, items), ids);
      FilterStep(Undecided(rest, items), Undecided(ids, items), ids);
    }
  }

  lemma {:induction false} FilterStep(before: seq<string>, after: seq<string>, ids: seq<string>)
    requires ids != [] && InOrder(before, ids[..|ids| - 1]) && ids[|ids| - 1] !in before
    requires after == before || after == before + [ids[|ids| - 1]]
    ensures InOrder(after, ids)
  {
    if after != before {
      assert after[..|after| - 1] == before;
    } else if after != [] {
      assert after[|after| - 1] in before;
    }
  }

  lemma {:induction false} SplitsTheForm(form: seq<Question>, answers: seq<Answer>, items: seq<Item>)
    requires forall id :: Mentioned(items, id) <==> Decided(form, answers, id)
    ensures Partitioned(form, answers, DecidedIds(Known(form), items), Undecided(Known(form), items))
  {
    var ids := Known(form);
    forall id: string
      ensures id in DecidedIds(ids, items) <==> Decided(form, answers, id)
      ensures id in Undecided(ids, items) <==> id in Ids(form) && !Decided(form, answers, id)
      ensures |DecidedIds(ids, items)| + |Undecided(ids, items)| == |ids|
    {
      DecidedOrNot(ids, items, id);
    }
    DecidedOrNot(ids, items, "");
    FiltersAreInOrder(ids, items);
  }

  // ---------- back on the page ----------

  /** The snapshot of a form: the fields `annotate` returned. */
  function Snapshot(fields: seq<Field>): (form: seq<Question>)
    ensures |form| == |fields|
    ensures forall k :: 0 <= k < |form| ==> form[k] == Question(fields[k].id, fields[k].kind, fields[k].caption)
  {
    seq(|fields|, k requires 0 <= k < |fields| => Question(fields[k].id, fields[k].kind, fields[k].caption))
  }

  /** `records.get(id)`: the position of the field with that id. */
  function RecordOf(fields: seq<Field>, id: string): (k: Option<nat>)
    ensures k.Some? ==> k.value < |fields| && fields[k.value].id == id
    ensures k.None? ==> forall j :: 0 <= j < |fields| ==> fields[j].id != id
  {
    if fields == [] then None
    else if fields[|fields| - 1].id == id then Some(|fields| - 1)
    else RecordOf(fields[..|fields| - 1], id)
  }

  /** Where `applyPlan` puts an instruction: the first control of its record. */
  function Target(f: Form, id: string): Option<nat>
    requires Indexed(f)
  {
    var k := RecordOf(f.fields, id);
    if k.None? || f.elements[k.value] == [] then None else Some(f.elements[k.value][0])
  }

  /** `applyPlan`, id resolution only: it annotates the page again and looks every id up. */
  method ApplyPlan(controls: seq<Control>, items: seq<Item>) returns (targets: seq<Option<nat>>)
    requires DistinctControls(controls)
    modifies controls
    ensures |targets| == |items|
    ensures forall m :: 0 <= m < |items| ==> targets[m] == Target(Annotated(Looks(controls)), items[m].id)
    ensures forall i :: 0 <= i < |controls| ==> controls[i].mark == Mark(Looks(controls), i)
  {
    var fields, elements := Annotate(controls);
    targets := [];
    for m := 0 to |items|
      invariant |targets| == m
      invariant forall n :: 0 <= n < m ==> targets[n] == Target(Annotated(Looks(controls)), items[n].id)
      invariant forall i :: 0 <= i < |controls| ==> controls[i].mark == Mark(Looks(controls), i)
    {
      var k := RecordOf(fields, items[m].id);
      targets := targets + [if k.None? || elements[k.value] == [] then None else Some(elements[k.value][0])];
    }
  }

  /** A plan made for a snapshot always resolves on the unchanged form: every item finds a control that
      carries its id again, of a field of the kind and label the plan was made for. */
  lemma {:induction false} PlanAlwaysResolves(looks: seq<Look>, lower: string -> string, answers: seq<Answer>,
                                              note: string, x: Item)
    requires var o := PlanOf(Snapshot(Annotated(looks).fields), lower, answers, note);
      o.Planned? && x in o.plan.items
    ensures var f := Annotated(looks);
      var target := Target(f, x.id);
      && target.Some? && target.value < |looks| && Mark(looks, target.value) == Some(x.id)
      && exists k :: 0 <= k < |f.fields| && f.fields[k].id == x.id
                     && f.fields[k].kind == x.kind && f.fields[k].caption == x.caption
  {
    var form := Snapshot(Annotated(looks).fields);
    PlanIsExact(form, lower, answers, note);
    var j := ItemNamesAField(form, lower, answers, x);
    FieldIsFound(looks, x.id);
  }

  /** Every id of the snapshot leads to a control that carries it. */
  lemma {:induction false} FieldIsFound(looks: seq<Look>, id: string)
    requires exists j :: 0 <= j < |Annotated(looks).fields| && Annotated(looks).fields[j].id == id
    ensures var target := Target(Annotated(looks), id);
      target.Some? && target.value < |looks| && Mark(looks, target.value) == Some(id)
  {
    var f := Annotated(looks);
    var k := RecordOf(f.fields, id).value;
    IdsAreDense(looks, k);
    AnnotatedKeepsInv(looks);
    assert ElementsFit(f, k);
    var i := f.elements[k][0];
    assert i in f.elements[k] && Owns(f, i, k);
  }

  lemma {:induction false} ItemNamesAField(form: seq<Question>, lower: string -> string, answers: seq<Answer>, x: Item)
    returns (j: nat)
    requires StoresADecision(form, lower, answers, x)
    ensures j < |form| && form[j] == Question(x.id, x.kind, x.caption)
  {
    var k :| 0 <= k < |answers| && Decides(form, answers, k) && Stores(form, lower, answers[k], x);
    j :| 0 <= j < |form| && form[j] == Question(x.id, x.kind, x.caption);
  }
}

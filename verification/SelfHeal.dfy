/** Grading proposed replacements and the bounded self-healing loop (`agent/verification.py`). */
module SelfHeal {
  import opened Replacements
  import opened Text
  import opened Verification
  import opened Wrappers

  // ---------- grading ----------

  /** One reported fabrication. The vacancy only decides how a technology is reported. */
  datatype Violation = Number(n: string) | Technology(claim: string, asked: bool)

  /** What grading is done against. `numbers` is `extract_numbers`; `listing` is the order in which a
      set of strings is walked. */
  datatype Context = Context(
    tables: Unicode,
    lists: Lists,
    numbers: string -> set<string>,
    listing: set<string> -> seq<string>,
    cvText: string,
    facts: string,
    vacancy: string)

  /** A number no evidence states. The CV and the facts are searched as text, the replaced line by its
      own numbers. */
  predicate Unbacked(c: Context, original: string, n: string) {
    && n !in c.numbers(original)
    && !Contains(NormalizeText(c.tables, c.cvText), n)
    && !Contains(NormalizeText(c.tables, c.facts), n)
  }

  function BadNumbers(c: Context, r: Replacement): seq<Violation> {
    Numbers(c, r.original, c.listing(c.numbers(r.tailored)))
  }

  function Numbers(c: Context, original: string, found: seq<string>): seq<Violation> {
    if found == [] then []
    else (if Unbacked(c, original, found[0]) then [Number(found[0])] else []) + Numbers(c, original, found[1..])
  }

  function Technologies(c: Context, claims: seq<string>): seq<Violation> {
    if claims == [] then []
    else [Technology(claims[0], c.vacancy != "" && Mentions(c.tables, c.lists, c.vacancy, claims[0]))]
         + Technologies(c, claims[1..])
  }

  /** `verify_replacement_against_cv`. */
  function Violations(c: Context, r: Replacement): seq<Violation> {
    BadNumbers(c, r)
    + Technologies(c, c.listing(Invented(c.tables, c.lists, r.tailored, [c.cvText, c.facts])))
  }

  /** `len(s.split())`. */
  function WordCount(s: string): nat
    decreases |s|
  {
    if s == [] then 0
    else if IsSpace(s[0]) then WordCount(s[1..])
    else 1 + WordCount(s[RunEnd(s, 0, IsVisible)..])
  }

  /** The words of a text are those in front of a space and those behind it; a text without spaces is one. */
  lemma {:induction false} WordsAroundASpace(a: string, c: char, b: string)
    requires IsSpace(c)
    ensures WordCount(a + [c] + b) == WordCount(a) + WordCount(b)
    decreases |a|
  {
    var text := a + [c] + b;
    if a == "" {
      assert text[1..] == b;
    } else if IsSpace(a[0]) {
      assert text[1..] == a[1..] + [c] + b;
      WordsAroundASpace(a[1..], c, b);
    } else {
      var e := RunEnd(a, 0, IsVisible);
      RunEndsThere(text, e);
      assert text[e..] == a[e..] + [c] + b;
      WordsAroundASpace(a[e..], c, b);
    }
  }

  lemma {:induction false} RunEndsThere(s: string, e: nat)
    requires e <= |s| && NoSpaces(s[..e]) && (e < |s| ==> IsSpace(s[e]))
    ensures RunEnd(s, 0, IsVisible) == e
  {
    assert forall k :: 0 <= k < e ==> s[..e][k] == s[k];
  }

  lemma {:induction false} WordsOfOneWord(s: string)
    requires NoSpaces(s)
    ensures WordCount(s) == if s == "" then 0 else 1
  {
    if s != "" {
      RunEndsThere(s, |s|);
      assert s[..|s|] == s && s[|s|..] == "";
    }
  }

  datatype Grade = Grade(violations: seq<Violation>, tokens: nat, fabricated: nat, clean: seq<Replacement>)

  function Plus(g: Grade, c: Context, r: Replacement): Grade {
    var found := Violations(c, r);
    Grade(g.violations + found,
          g.tokens + (if WordCount(r.tailored) > 1 then WordCount(r.tailored) else 1),
          g.fabricated + |found|,
          if found == [] then g.clean + [r] else g.clean)
  }

  /** The grade of a list of replacements. */
  function Graded(c: Context, items: seq<Replacement>): Grade {
    if items == [] then Grade([], 0, 0, [])
    else Plus(Graded(c, items[..|items| - 1]), c, items[|items| - 1])
  }

  /** `evaluate_fabrications`. */
  method EvaluateFabrications(c: Context, items: seq<Replacement>) returns (g: Grade)
    ensures g == Graded(c, items)
  {
    var violations: seq<Violation> := [];
    var clean: seq<Replacement> := [];
    var tokens: nat, fabricated: nat := 0, 0;
    for i := 0 to |items|
      invariant Grade(violations, tokens, fabricated, clean) == Graded(c, items[..i])
    {
      assert items[..i + 1][..i] == items[..i];
      var words := WordCount(items[i].tailored);
      tokens := tokens + if words > 1 then words else 1;
      var found := Violations(c, items[i]);
      if found != [] {
        fabricated := fabricated + |found|;
        violations := violations + found;
      } else {
        clean := clean + [items[i]];
      }
    }
    assert items[..|items|] == items;
    g := Grade(violations, tokens, fabricated, clean);
  }

  /** The kept replacements are exactly the clean ones, in order. */
  function CleanOnes(c: Context, items: seq<Replacement>): (kept: seq<Replacement>)
    ensures forall r :: r in kept <==> r in items && Violations(c, r) == []
  {
    if items == [] then []
    else
      var last := items[|items| - 1];
      CleanOnes(c, items[..|items| - 1]) + (if Violations(c, last) == [] then [last] else [])
  }

  lemma {:induction false} KeptAreTheCleanOnes(c: Context, items: seq<Replacement>)
    ensures Graded(c, items).clean == CleanOnes(c, items)
    ensures Graded(c, items).violations == [] <==> Graded(c, items).clean == items
    ensures |Graded(c, items).clean| <= |items|
  {
    if items != [] {
      var rest, last := items[..|items| - 1], items[|items| - 1];
      KeptAreTheCleanOnes(c, rest);
      assert items == rest + [last];
    }
  }

  /** What each replacement weighs: its words, and at least one. */
  function Weights(items: seq<Replacement>): nat {
    if items == [] then 0 else Max(1, WordCount(items[0].tailored)) + Weights(items[1..])
  }

  lemma {:induction false} WeightsAdd(a: seq<Replacement>, r: Replacement)
    ensures Weights(a + [r]) == Weights(a) + Max(1, WordCount(r.tailored))
  {
    if a == [] {
      assert (a + [r])[1..] == [];
    } else {
      assert (a + [r])[1..] == a[1..] + [r];
      WeightsAdd(a[1..], r);
    }
  }

  /** Every reported violation is counted, and the tokens are the words of the replacements, one at least
      for each. */
  lemma {:induction false} CountsAddUp(c: Context, items: seq<Replacement>)
    ensures Graded(c, items).fabricated == |Graded(c, items).violations|
    ensures Graded(c, items).tokens == Weights(items) >= |items|
  {
    if items != [] {
      var rest, last := items[..|items| - 1], items[|items| - 1];
      CountsAddUp(c, rest);
      WeightsAdd(rest, last);
      assert items == rest + [last];
    }
  }

  /** Re-grading the kept replacements finds nothing and keeps them all. */
  lemma {:induction false} RegradingIsAFixpoint(c: Context, items: seq<Replacement>)
    ensures var kept := Graded(c, items).clean;
      Graded(c, kept).clean == kept && Graded(c, kept).violations == [] && Graded(c, kept).fabricated == 0
  {
    if items != [] {
      var rest, last := items[..|items| - 1], items[|items| - 1];
      RegradingIsAFixpoint(c, rest);
      var kept := Graded(c, rest).clean;
      if Violations(c, last) == [] {
        assert (kept + [last])[..|kept|] == kept;
      }
    }
  }

  /** `listing` walks every element of a set and nothing else. */
  ghost predicate WalksSets(listing: set<string> -> seq<string>) {
    forall s, x :: x in listing(s) <==> x in s
  }

  lemma {:induction false} NumbersAreBackedIff(c: Context, original: string, found: seq<string>)
    ensures Numbers(c, original, found) == [] <==> forall n :: n in found ==> !Unbacked(c, original, n)
  {
    if found != [] {
      NumbersAreBackedIff(c, original, found[1..]);
      assert found == [found[0]] + found[1..];
    }
  }

  /** A replacement grades clean exactly when every number of it is backed and no technology of it is
      invented. */
  lemma {:induction false} CleanMeansBacked(c: Context, r: Replacement)
    requires WalksSets(c.listing)
    ensures Violations(c, r) == []
      <==> (forall n :: n in c.numbers(r.tailored) ==>
              n in c.numbers(r.original) || Contains(NormalizeText(c.tables, c.cvText), n)
              || Contains(NormalizeText(c.tables, c.facts), n))
           && Invented(c.tables, c.lists, r.tailored, [c.cvText, c.facts]) == {}
  {
    var numbers := c.numbers(r.tailored);
    var invented := Invented(c.tables, c.lists, r.tailored, [c.cvText, c.facts]);
    NumbersAreBackedIff(c, r.original, c.listing(numbers));
    assert forall n :: n in c.listing(numbers) <==> n in numbers;
    if c.listing(invented) != [] {
      assert c.listing(invented)[0] in invented;
    } else {
      assert forall x :: x in invented ==> x in c.listing(invented);
    }
  }

  // ---------- the vacancy is no evidence ----------

  function ForVacancy(c: Context, vacancy: string): Context {
    c.(vacancy := vacancy)
  }

  /** The violation without the remark about the vacancy. */
  function Bare(v: Violation): Violation {
    match v
    case Number(n) => v
    case Technology(claim, asked) => Technology(claim, false)
  }

  function AllBare(s: seq<Violation>): (r: seq<Violation>)
    ensures |r| == |s|
  {
    seq(|s|, i requires 0 <= i < |s| => Bare(s[i]))
  }

  lemma {:induction false} VacancyOnlyRemarks(c: Context, vacancy: string, claims: seq<string>)
    ensures AllBare(Technologies(c, claims)) == AllBare(Technologies(ForVacancy(c, vacancy), claims))
  {
    if claims != [] {
      VacancyOnlyRemarks(c, vacancy, claims[1..]);
      BareStep(c, claims);
      BareStep(ForVacancy(c, vacancy), claims);
    }
  }

  lemma {:induction false} BareStep(c: Context, claims: seq<string>)
    requires claims != []
    ensures AllBare(Technologies(c, claims)) == [Technology(claims[0], false)] + AllBare(Technologies(c, claims[1..]))
  {
  }

  lemma {:induction false} NumbersIgnoreTheVacancy(c: Context, vacancy: string, original: string, found: seq<string>)
    ensures Numbers(c, original, found) == Numbers(ForVacancy(c, vacancy), original, found)
  {
    if found != [] {
      NumbersIgnoreTheVacancy(c, vacancy, original, found[1..]);
    }
  }

  lemma {:induction false} BareConcat(a: seq<Violation>, b: seq<Violation>)
    ensures AllBare(a + b) == AllBare(a) + AllBare(b)
  {
  }

  lemma {:induction false} ViolationsIgnoreTheVacancy(c: Context, vacancy: string, r: Replacement)
    ensures AllBare(Violations(c, r)) == AllBare(Violations(ForVacancy(c, vacancy), r))
  {
    var d := ForVacancy(c, vacancy);
    var claims := c.listing(Invented(c.tables, c.lists, r.tailored, [c.cvText, c.facts]));
    NumbersIgnoreTheVacancy(c, vacancy, r.original, c.listing(c.numbers(r.tailored)));
    VacancyOnlyRemarks(c, vacancy, claims);
    BareConcat(BadNumbers(c, r), Technologies(c, claims));
    BareConcat(BadNumbers(d, r), Technologies(d, claims));
  }

  /** The job description is never evidence: for any two of them the kept list, the counts and the
      violations themselves are the same; only the remark on a technology may differ. */
  lemma {:induction false} VacancyIsNoEvidence(c: Context, vacancy: string, items: seq<Replacement>)
    ensures var g, h := Graded(c, items), Graded(ForVacancy(c, vacancy), items);
      && g.clean == h.clean && g.tokens == h.tokens && g.fabricated == h.fabricated
      && AllBare(g.violations) == AllBare(h.violations)
  {
    if items != [] {
      var d := ForVacancy(c, vacancy);
      var rest, last := items[..|items| - 1], items[|items| - 1];
      VacancyIsNoEvidence(c, vacancy, rest);
      ViolationsIgnoreTheVacancy(c, vacancy, last);
      assert |AllBare(Violations(c, last))| == |AllBare(Violations(d, last))|;
      BareConcat(Graded(c, rest).violations, Violations(c, last));
      BareConcat(Graded(d, rest).violations, Violations(d, last));
    }
  }

  // ---------- the self-healing loop ----------

  function Lies(c: Context, draft: seq<Replacement>): nat {
    |Graded(c, draft).violations|
  }

  /** The last index of a least element. */
  function LastLeast(counts: seq<nat>): (b: nat)
    requires counts != []
    ensures b < |counts|
  {
    var n := |counts| - 1;
    if n == 0 then 0
    else
      var b := LastLeast(counts[..n]);
      if counts[n] <= counts[b] then n else b
  }

  lemma {:induction false} LastLeastIsTheLastMinimum(counts: seq<nat>, k: nat)
    requires k < |counts|
    ensures var b := LastLeast(counts);
      counts[b] <= counts[k] && (k > b ==> counts[b] < counts[k])
  {
    var n := |counts| - 1;
    if k < n {
      LastLeastIsTheLastMinimum(counts[..n], k);
    }
  }

  function LieCounts(c: Context, drafts: seq<seq<Replacement>>): (r: seq<nat>)
    ensures |r| == |drafts| && forall k :: 0 <= k < |r| ==> r[k] == Lies(c, drafts[k])
  {
    seq(|drafts|, k requires 0 <= k < |drafts| => Lies(c, drafts[k]))
  }

  /** The last draft with the fewest violations. */
  function LastBest(c: Context, drafts: seq<seq<Replacement>>): (b: nat)
    requires drafts != []
    ensures b < |drafts|
  {
    LastLeast(LieCounts(c, drafts))
  }

  lemma {:induction false} LastBestIsTheLastMinimum(c: Context, drafts: seq<seq<Replacement>>, k: nat)
    requires k < |drafts|
    ensures var b := LastBest(c, drafts);
      Lies(c, drafts[b]) <= Lies(c, drafts[k]) && (k > b ==> Lies(c, drafts[b]) < Lies(c, drafts[k]))
  {
    LastLeastIsTheLastMinimum(LieCounts(c, drafts), k);
  }

  function BestGrade(c: Context, drafts: seq<seq<Replacement>>): Grade
    requires drafts != []
  {
    Graded(c, drafts[LastBest(c, drafts)])
  }

  lemma {:induction false} BestStep(c: Context, drafts: seq<seq<Replacement>>, answer: seq<Replacement>)
    requires drafts != []
    ensures BestGrade(c, drafts + [answer]) ==
            if Lies(c, answer) <= |BestGrade(c, drafts).violations| then Graded(c, answer) else BestGrade(c, drafts)
  {
    var more := LieCounts(c, drafts + [answer]);
    assert more[..|drafts|] == LieCounts(c, drafts);
  }

  /** Draft `k` is what the model made of the violations of the best draft before it. */
  ghost predicate Retried(c: Context, suggest: (nat, seq<Violation>) -> Option<seq<Replacement>>,
                          drafts: seq<seq<Replacement>>, k: nat)
    requires 0 < k < |drafts|
  {
    var standing := BestGrade(c, drafts[..k]).violations;
    standing != [] && suggest(k, standing) == Some(drafts[k])
  }

  ghost predicate Drafted(c: Context, suggest: (nat, seq<Violation>) -> Option<seq<Replacement>>,
                          raw: seq<Replacement>, drafts: seq<seq<Replacement>>)
  {
    && drafts != [] && drafts[0] == raw
    && forall k :: 0 < k < |drafts| ==> Retried(c, suggest, drafts, k)
  }

  /** The loop's state: the drafts so far, and the grade of the best of them in hand. */
  ghost predicate InHand(c: Context, suggest: (nat, seq<Violation>) -> Option<seq<Replacement>>,
                         raw: seq<Replacement>, drafts: seq<seq<Replacement>>, best: Grade)
  {
    Drafted(c, suggest, raw, drafts) && best == BestGrade(c, drafts)
  }

  lemma {:induction false} FirstDraft(c: Context, suggest: (nat, seq<Violation>) -> Option<seq<Replacement>>,
                                      raw: seq<Replacement>)
    ensures InHand(c, suggest, raw, [raw], Graded(c, raw))
  {
  }

  lemma {:induction false} NextDraft(c: Context, suggest: (nat, seq<Violation>) -> Option<seq<Replacement>>,
                                     raw: seq<Replacement>, drafts: seq<seq<Replacement>>, best: Grade,
                                     answer: seq<Replacement>)
    requires InHand(c, suggest, raw, drafts, best)
    requires best.violations != [] && suggest(|drafts|, best.violations) == Some(answer)
    ensures InHand(c, suggest, raw, drafts + [answer],
                   if Lies(c, answer) <= |best.violations| then Graded(c, answer) else best)
  {
    var more := drafts + [answer];
    forall k | 0 < k < |more|
      ensures Retried(c, suggest, more, k)
    {
      if k < |drafts| {
        assert Retried(c, suggest, drafts, k);
        assert more[..k] == drafts[..k];
      } else {
        assert more[..k] == drafts;
      }
    }
    BestStep(c, drafts, answer);
  }

  /** `self_heal_replacements`. `suggest(k, v)` is what the k-th retry, told of the violations `v`, comes
      to; a failed call is `None`. It returns the grade of the last of the drafts with the fewest
      violations, makes at most `max(0, maxRetries)` calls, and stops before that only when the draft
      in hand is clean or on a failed call. */
  method SelfHealReplacements(c: Context, suggest: (nat, seq<Violation>) -> Option<seq<Replacement>>,
                              raw: seq<Replacement>, maxRetries: int)
    returns (best: Grade, attempts: nat, ghost drafts: seq<seq<Replacement>>)
    ensures Drafted(c, suggest, raw, drafts) && best == BestGrade(c, drafts)
    ensures |drafts| - 1 <= attempts <= |drafts| && attempts <= Max(0, maxRetries)
    ensures attempts == |drafts| ==> best.violations != [] && suggest(attempts, best.violations) == None
    ensures best.violations == [] || attempts == Max(0, maxRetries) || attempts == |drafts|
  {
    best := EvaluateFabrications(c, raw);
    attempts := 0;
    drafts := [raw];
    FirstDraft(c, suggest, raw);
    while best.violations != [] && attempts < Max(0, maxRetries)
      invariant InHand(c, suggest, raw, drafts, best)
      invariant attempts == |drafts| - 1 <= Max(0, maxRetries)
      decreases Max(0, maxRetries) - attempts
    {
      attempts := attempts + 1;
      var answer := suggest(attempts, best.violations);
      if answer.None? {
        break;
      }
      NextDraft(c, suggest, raw, drafts, best, answer.value);
      drafts := drafts + [answer.value];
      best := BetterOf(c, best, answer.value);
    }
  }

  /** The new draft replaces the best one unless it grades worse. */
  method BetterOf(c: Context, best: Grade, answer: seq<Replacement>) returns (better: Grade)
    ensures better == if Lies(c, answer) <= |best.violations| then Graded(c, answer) else best
  {
    var graded := EvaluateFabrications(c, answer);
    better := if |graded.violations| <= |best.violations| then graded else best;
  }
}

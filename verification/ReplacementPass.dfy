/** A whole replacement pass over a document and the sync check before it
    (`apply_text_replacements`, `validate_cv_data_against_docx`). */
module ReplacementPass {
  import opened Text
  import opened CvText
  import opened DocxMutator
  import opened Replacements

  // ---------- the pass on values ----------

  ghost predicate AllWellFormed(ps: seq<Para>) {
    forall k :: 0 <= k < |ps| ==> |ps[k].inline| == |ps[k].runs| + 1
  }

  /** The first paragraph from `i` on that the replacement applies to, or the number of paragraphs. */
  ghost function FirstMatchFrom(ps: seq<Para>, r: Replacement, i: nat): (k: nat)
    requires AllWellFormed(ps) && i <= |ps|
    ensures i <= k <= |ps|
    ensures forall j :: i <= j < k ==> !Matches(ps[j], r.original, r.tailored)
    ensures k < |ps| ==> Matches(ps[k], r.original, r.tailored)
    decreases |ps| - i
  {
    if i == |ps| || Matches(ps[i], r.original, r.tailored) then i else FirstMatchFrom(ps, r, i + 1)
  }

  ghost function FirstMatch(ps: seq<Para>, r: Replacement): (k: nat)
    requires AllWellFormed(ps)
    ensures k <= |ps|
    ensures forall i :: 0 <= i < k ==> !Matches(ps[i], r.original, r.tailored)
    ensures k < |ps| ==> Matches(ps[k], r.original, r.tailored)
  {
    FirstMatchFrom(ps, r, 0)
  }

  predicate SpansLines(r: Replacement) {
    '\n' in r.original || '\r' in r.original
  }

  ghost function ApplyOne(ps: seq<Para>, r: Replacement): (after: seq<Para>)
    requires AllWellFormed(ps)
    ensures |after| == |ps| && AllWellFormed(after)
  {
    var k := FirstMatch(ps, r);
    if SpansLines(r) || k == |ps| then ps
    else ps[k := Replaced(ps[k], r.original, r.tailored)]
  }

  ghost function Hits(ps: seq<Para>, r: Replacement): nat
    requires AllWellFormed(ps)
  {
    if SpansLines(r) || FirstMatch(ps, r) == |ps| then 0 else 1
  }

  /** The document after the pass. */
  ghost function Applied(ps: seq<Para>, items: seq<Replacement>): (after: seq<Para>)
    requires AllWellFormed(ps)
    ensures |after| == |ps| && AllWellFormed(after)
  {
    if items == [] then ps
    else ApplyOne(Applied(ps, items[..|items| - 1]), items[|items| - 1])
  }

  /** How many replacements were applied. */
  ghost function AppliedCount(ps: seq<Para>, items: seq<Replacement>): nat
    requires AllWellFormed(ps)
  {
    if items == [] then 0
    else
      AppliedCount(ps, items[..|items| - 1]) + Hits(Applied(ps, items[..|items| - 1]), items[|items| - 1])
  }

  lemma {:induction false} PassStep(ps: seq<Para>, items: seq<Replacement>, n: nat)
    requires AllWellFormed(ps) && n < |items|
    ensures Applied(ps, items[..n + 1]) == ApplyOne(Applied(ps, items[..n]), items[n])
    ensures AppliedCount(ps, items[..n + 1]) == AppliedCount(ps, items[..n]) + Hits(Applied(ps, items[..n]), items[n])
  {
    assert items[..n + 1][..n] == items[..n];
  }

  // ---------- the pass on the document ----------

  /** Distinct paragraphs that share no run list. */
  ghost predicate Separate(ps: seq<Paragraph>)
    reads ps
  {
    && (forall k :: 0 <= k < |ps| ==> ps[k].Valid())
    && (forall i, j :: 0 <= i < j < |ps| ==> ps[i] != ps[j] && ps[i].runs != ps[j].runs)
  }

  ghost function RunLists(ps: seq<Paragraph>): set<object>
    reads ps
  {
    set k | 0 <= k < |ps| :: ps[k].runs
  }

  ghost function Values(ps: seq<Paragraph>): (r: seq<Para>)
    requires Separate(ps)
    reads ps, RunLists(ps)
    ensures |r| == |ps| && AllWellFormed(r)
    ensures forall k :: 0 <= k < |ps| ==> r[k] == ps[k].Value()
  {
    seq(|ps|, k requires 0 <= k < |ps| reads ps, RunLists(ps) => ps[k].Value())
  }

  /** `apply_text_replacements`, between reading the file and saving it. */
  method ApplyTextReplacements(ps: seq<Paragraph>, items: seq<Replacement>) returns (count: nat)
    requires Separate(ps)
    modifies ps, RunLists(ps)
    ensures Separate(ps)
    ensures Values(ps) == old(Applied(Values(ps), items))
    ensures count == old(AppliedCount(Values(ps), items))
  {
    ghost var start := Values(ps);
    ghost var lists := RunLists(ps);
    count := 0;
    var n := 0;
    while n < |items|
      invariant n <= |items| && Separate(ps)
      invariant forall k :: 0 <= k < |ps| ==> ps[k].runs in lists || fresh(ps[k].runs)
      invariant Values(ps) == Applied(start, items[..n])
      invariant count == AppliedCount(start, items[..n])
    {
      PassStep(start, items, n);
      var hits := ApplyToFirst(ps, items[n]);
      count := count + hits;
      n := n + 1;
    }
    assert items[..n] == items;
  }

  /** One replacement, on the first paragraph that takes it. */
  method ApplyToFirst(ps: seq<Paragraph>, r: Replacement) returns (hits: nat)
    requires Separate(ps)
    modifies ps, RunLists(ps)
    ensures Separate(ps)
    ensures forall k :: 0 <= k < |ps| ==> ps[k].runs == old(ps[k].runs) || fresh(ps[k].runs)
    ensures Values(ps) == old(ApplyOne(Values(ps), r))
    ensures hits == old(Hits(Values(ps), r))
  {
    if SpansLines(r) {
      return 0;
    }
    ghost var start := Values(ps);
    var k := 0;
    while k < |ps|
      invariant k <= |ps| && Separate(ps)
      invariant forall i :: 0 <= i < |ps| ==> ps[i].runs == old(ps[i].runs)
      invariant forall i :: 0 <= i < |ps| ==> ps[i].Value() == start[i]
      invariant k <= FirstMatch(start, r)
    {
      var applied := TryParagraph(ps, k, r);
      if applied {
        FirstMatchIs(start, r, k);
        return 1;
      }
      FirstMatchIsLater(start, r, k);
      k := k + 1;
    }
    return 0;
  }

  method TryParagraph(ps: seq<Paragraph>, k: nat, r: Replacement) returns (applied: bool)
    requires Separate(ps) && k < |ps|
    modifies ps[k], ps[k].runs
    ensures Separate(ps)
    ensures forall i :: 0 <= i < |ps| ==> ps[i].runs == old(ps[i].runs) || fresh(ps[i].runs)
    ensures !applied ==> forall i :: 0 <= i < |ps| ==> ps[i].runs == old(ps[i].runs)
    ensures applied == old(Matches(ps[k].Value(), r.original, r.tailored))
    ensures forall i :: 0 <= i < |ps| && i != k ==> ps[i].Value() == old(ps[i].Value())
    ensures ps[k].Value() == old(Replaced(ps[k].Value(), r.original, r.tailored))
  {
    applied := ps[k].ReplaceText(r.original, r.tailored);
  }

  lemma {:induction false} FirstMatchIs(ps: seq<Para>, r: Replacement, k: nat)
    requires AllWellFormed(ps) && k < |ps| && k <= FirstMatch(ps, r)
    requires Matches(ps[k], r.original, r.tailored)
    ensures FirstMatch(ps, r) == k
  {
  }

  lemma {:induction false} FirstMatchIsLater(ps: seq<Para>, r: Replacement, k: nat)
    requires AllWellFormed(ps) && k < |ps| && k <= FirstMatch(ps, r)
    requires !Matches(ps[k], r.original, r.tailored)
    ensures k < FirstMatch(ps, r)
  {
  }

  /** A replacement whose target has a line break of either kind is skipped. */
  lemma {:induction false} LineBreaksAreSkipped(ps: seq<Para>, r: Replacement)
    requires AllWellFormed(ps) && ('\n' in r.original || '\r' in r.original)
    ensures ApplyOne(ps, r) == ps && Hits(ps, r) == 0
  {
  }

  // ---------- the sync check ----------

  /** The form of a CV line the sync check looks for. */
  function Candidate(line: string): string {
    Normalize(StripLeadingBullet(Strip(line)))
  }

  predicate IsChecked(candidate: string) {
    candidate != "" && candidate[|candidate| - 1] != ':' && candidate[0] != '•'
  }

  function Texts(ps: seq<Para>): (r: seq<string>)
    requires forall k :: 0 <= k < |ps| ==> |ps[k].inline| == |ps[k].runs| + 1
    ensures |r| == |ps|
  {
    seq(|ps|, k requires 0 <= k < |ps| => Normalize(TextOf(ps[k])))
  }

  /** The checked lines the document does not show. */
  function MissingLines(lines: seq<string>, haystack: string): seq<string> {
    if lines == [] then []
    else
      var last := lines[|lines| - 1];
      MissingLines(lines[..|lines| - 1], haystack)
      + (if IsChecked(Candidate(last)) && !Contains(haystack, Candidate(last)) then [Strip(last)] else [])
  }

  /** `validate_cv_data_against_docx`, once the document could be read. */
  method ValidateCvData(cv: CvData, ps: seq<Para>) returns (missing: seq<string>)
    requires forall k :: 0 <= k < |ps| ==> |ps[k].inline| == |ps[k].runs| + 1
    ensures missing == MissingLines(Split(CvDataToTextSpec(cv), '\n'), Join(Texts(ps), '\n'))
  {
    var text := CvDataToText(cv);
    missing := CheckLines(Split(text, '\n'), Join(Texts(ps), '\n'));
  }

  method CheckLines(lines: seq<string>, haystack: string) returns (missing: seq<string>)
    ensures missing == MissingLines(lines, haystack)
  {
    missing := [];
    var i := 0;
    while i < |lines|
      invariant i <= |lines| && missing == MissingLines(lines[..i], haystack)
    {
      assert lines[..i + 1][..i] == lines[..i];
      var candidate := Candidate(lines[i]);
      if IsChecked(candidate) && !Contains(haystack, candidate) {
        missing := missing + [Strip(lines[i])];
      }
      i := i + 1;
    }
    assert lines[..i] == lines;
  }

  lemma {:induction false} NothingMissing(lines: seq<string>, haystack: string, line: string)
    requires MissingLines(lines, haystack) == [] && line in lines && IsChecked(Candidate(line))
    ensures Contains(haystack, Candidate(line))
  {
    var last := lines[|lines| - 1];
    assert lines == lines[..|lines| - 1] + [last];
    if line in lines[..|lines| - 1] {
      NothingMissing(lines[..|lines| - 1], haystack, line);
    }
  }

  /** The paragraph shows the text, dashes and no-break spaces aside. */
  predicate Shows(p: Para, text: string)
    requires |p.inline| == |p.runs| + 1
  {
    Contains(Normalize(TextOf(p)), text)
  }

  lemma {:induction false} HaystackShows(ps: seq<Para>, candidate: string)
    requires AllWellFormed(ps) && candidate != "" && '\n' !in candidate
    ensures Contains(Join(Texts(ps), '\n'), candidate) <==> exists k :: 0 <= k < |ps| && Shows(ps[k], candidate)
  {
    if Contains(Join(Texts(ps), '\n'), candidate) {
      PieceLiesInOnePart(Texts(ps), candidate, '\n');
      var k :| 0 <= k < |Texts(ps)| && Contains(Texts(ps)[k], candidate);
      assert Shows(ps[k], candidate);
    }
    if k :| 0 <= k < |ps| && Shows(ps[k], candidate) {
      JoinContainsPart(Texts(ps), k, '\n');
      ContainsTransitive(Join(Texts(ps), '\n'), Texts(ps)[k], candidate);
    }
  }

  lemma {:induction false} MissingExactly(lines: seq<string>, haystack: string, x: string)
    ensures x in MissingLines(lines, haystack) <==>
              exists line :: line in lines && x == Strip(line) && IsChecked(Candidate(line))
                             && !Contains(haystack, Candidate(line))
  {
    if lines != [] {
      var rest, last := lines[..|lines| - 1], lines[|lines| - 1];
      MissingExactly(rest, haystack, x);
      assert lines == rest + [last];
    }
  }

  /** The line is missing from the document: without its marker it is not empty, no heading that ends in a
      colon, and not behind another bullet, and no paragraph shows it. */
  ghost predicate IsMissing(ps: seq<Para>, line: string)
    requires AllWellFormed(ps)
  {
    var bare := Normalize(StripLeadingBullet(Strip(line)));
    && bare != "" && bare[|bare| - 1] != ':' && bare[0] as int != 0x2022
    && forall k :: 0 <= k < |ps| ==> !Shows(ps[k], bare)
  }

  /** The sync check reports exactly the missing lines of the rendered CV. */
  lemma {:induction false} SyncExactly(cv: CvData, ps: seq<Para>, x: string)
    requires AllWellFormed(ps)
    ensures var lines := Split(CvDataToTextSpec(cv), '\n');
      x in MissingLines(lines, Join(Texts(ps), '\n'))
      <==> exists line :: line in lines && x == Strip(line) && IsMissing(ps, line)
  {
    var lines := Split(CvDataToTextSpec(cv), '\n');
    MissingExactly(lines, Join(Texts(ps), '\n'), x);
    forall line | line in lines && IsChecked(Candidate(line))
      ensures Contains(Join(Texts(ps), '\n'), Candidate(line))
         <==> exists k :: 0 <= k < |ps| && Shows(ps[k], Candidate(line))
    {
      CandidateIsVisible(line);
      HaystackShows(ps, Candidate(line));
    }
  }

  /** A checked line starts with a visible character and has no line break. */
  lemma {:induction false} CandidateIsVisible(line: string)
    requires '\n' !in line && IsChecked(Candidate(line))
    ensures !IsSpace(Candidate(line)[0]) && '\n' !in Candidate(line)
  {
    var bare := StripLeadingBullet(Strip(line));
    BulletlessIsStripped(line);
    StripFirstIsContained(Strip(line), BULLETS);
    StripIsContained(line);
    ContainsTransitive(line, Strip(line), bare);
    CharactersOfSubstring(line, bare);
  }

  lemma {:induction false} CharactersOfSubstring(s: string, t: string)
    requires Contains(s, t)
    ensures forall c :: c in t ==> c in s
  {
    var i :| 0 <= i <= |s| && OccursAt(s, t, i);
    forall c | c in t ensures c in s {
      var k :| 0 <= k < |t| && t[k] == c;
      InsideAnOccurrence(s, t, i, i + k);
      assert s[i..i + |t|][k] == s[i + k];
    }
  }

  /** The matcher's target is always part of the normalised original. */
  lemma {:induction false} TargetIsPartOfOriginal(original: string)
    ensures Contains(Normalize(original), TargetOf(original))
  {
    StripIsContained(original);
    StripEachIsContained(Strip(original), TARGET_PREFIXES);
    ContainsTransitive(original, Strip(original), StripEach(Strip(original), TARGET_PREFIXES));
    NormalizeKeepsContainment(original, StripEach(Strip(original), TARGET_PREFIXES));
  }

  /** A document that shows the candidate has a paragraph the replacement of it applies to. */
  lemma {:induction false} ShownCandidateMatches(ps: seq<Para>, candidate: string, original: string, tailored: string)
    returns (k: nat)
    requires AllWellFormed(ps) && Contains(Join(Texts(ps), '\n'), candidate)
    requires candidate != "" && '\n' !in candidate && !IsSpace(candidate[0])
    requires Normalize(original) == candidate && original != StripLeadingBullet(tailored)
    ensures k < |ps| && Matches(ps[k], original, tailored)
  {
    PieceLiesInOnePart(Texts(ps), candidate, '\n');
    k :| 0 <= k < |Texts(ps)| && Contains(Texts(ps)[k], candidate);
    assert Texts(ps)[k] == Normalize(TextOf(ps[k]));
    TargetIsPartOfOriginal(original);
    ContainsTransitive(Normalize(TextOf(ps[k])), candidate, TargetOf(original));
    FindDecidesContains(Normalize(TextOf(ps[k])), TargetOf(original));
    ShownIsVisible(TextOf(ps[k]), candidate);
  }

  lemma {:induction false} ShownIsVisible(full: string, candidate: string)
    requires Contains(Normalize(full), candidate) && candidate != "" && !IsSpace(candidate[0])
    ensures Strip(full) != ""
  {
    var i :| 0 <= i <= |full| && OccursAt(Normalize(full), candidate, i);
    assert Normalize(full)[i] == candidate[0];
    StripOfVisible(full, i);
  }

  /** Sync implies applicability: with nothing missing, a checked CV line used as a target, and any
      tailored text that differs from it, is matched in some paragraph of the untouched document,
      so a pass with that one replacement applies it. */
  lemma {:induction false} SyncImpliesApplicable(cv: CvData, ps: seq<Para>, line: string, r: Replacement)
    requires AllWellFormed(ps)
    requires MissingLines(Split(CvDataToTextSpec(cv), '\n'), Join(Texts(ps), '\n')) == []
    requires line in Split(CvDataToTextSpec(cv), '\n') && IsChecked(Candidate(line))
    requires r.original == StripLeadingBullet(Strip(line)) && '\r' !in line
    requires r.original != StripLeadingBullet(r.tailored)
    ensures exists k :: 0 <= k < |ps| && Matches(ps[k], r.original, r.tailored)
    ensures AppliedCount(ps, [r]) == 1
  {
    NothingMissing(Split(CvDataToTextSpec(cv), '\n'), Join(Texts(ps), '\n'), line);
    CandidateIsVisible(line);
    var k := ShownCandidateMatches(ps, Candidate(line), r.original, r.tailored);
    LineIsOneLine(line, r.original);
    OneMatchIsApplied(ps, r, k);
  }

  lemma {:induction false} LineIsOneLine(line: string, original: string)
    requires '\n' !in line && '\r' !in line && original == StripLeadingBullet(Strip(line))
    ensures '\n' !in original && '\r' !in original
  {
    StripFirstIsContained(Strip(line), BULLETS);
    StripIsContained(line);
    ContainsTransitive(line, Strip(line), original);
    CharactersOfSubstring(line, original);
  }

  lemma {:induction false} OneMatchIsApplied(ps: seq<Para>, r: Replacement, k: nat)
    requires AllWellFormed(ps) && k < |ps| && Matches(ps[k], r.original, r.tailored)
    requires '\n' !in r.original && '\r' !in r.original
    ensures AppliedCount(ps, [r]) == 1
  {
    assert [r][..0] == [] && [r][0] == r;
    assert FirstMatch(ps, r) < |ps|;
  }
}

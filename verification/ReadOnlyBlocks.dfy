/** What the read-only guard is worth over a whole pass: which answers can reach an experience or
    project line of the document (`utils/cv_replacements.py`, `utils/docx_mutator.py`). */
module ReadOnlyBlocks {
  import opened Text
  import opened CvText
  import opened DocxMutator
  import opened Replacements
  import opened ReplacementPass

  // ---------- what may not be written to ----------

  /** The paragraph shows (part of) one of the read-only lines. */
  ghost predicate ShowsReadOnly(p: Para, exact: seq<string>)
    requires |p.inline| == |p.runs| + 1
  {
    exists k :: 0 <= k < |exact| && Contains(exact[k], Normalize(TextOf(p)))
  }

  /** The n-th replacement of the pass is written to paragraph `k`. */
  ghost predicate WrittenBy(ps: seq<Para>, items: seq<Replacement>, k: nat, n: nat)
    requires AllWellFormed(ps) && k < |ps| && n < |items|
  {
    !SpansLines(items[n]) && FirstMatch(Applied(ps, items[..n]), items[n]) == k
  }

  ghost predicate Written(ps: seq<Para>, items: seq<Replacement>, k: nat)
    requires AllWellFormed(ps) && k < |ps|
  {
    exists n :: 0 <= n < |items| && WrittenBy(ps, items, k, n)
  }

  ghost predicate Protected(ps: seq<Para>, items: seq<Replacement>, exact: seq<string>)
    requires AllWellFormed(ps)
  {
    forall k :: 0 <= k < |ps| && ShowsReadOnly(ps[k], exact) ==> !Written(ps, items, k)
  }

  /** In no document does the pass write to a paragraph that shows a read-only line. */
  ghost predicate Safe(items: seq<Replacement>, exact: seq<string>) {
    forall ps :: AllWellFormed(ps) ==> Protected(ps, items, exact)
  }

  /** A replacement the pass never applies: it spans lines, has no original, or changes nothing. */
  predicate Skipped(r: Replacement) {
    SpansLines(r) || r.original == "" || r.original == StripLeadingBullet(r.tailored)
  }

  /** The matcher's target stands in the line. A blank line is never matched. */
  predicate StandsIn(target: string, line: string) {
    Strip(line) != "" && Contains(line, target)
  }

  /** The replacement can reach one of the lines. */
  predicate Reaches(r: Replacement, exact: seq<string>) {
    !Skipped(r) && exists k :: 0 <= k < |exact| && StandsIn(TargetOf(r.original), exact[k])
  }

  // ---------- what is reached is what is matched ----------

  lemma {:induction false} VisibleCharacter(s: string) returns (i: nat)
    requires Strip(s) != ""
    ensures i < |s| && !IsSpace(s[i])
  {
    StripIsContained(s);
    i :| 0 <= i <= |s| && OccursAt(s, Strip(s), i);
    assert s[i] == s[i..i + |Strip(s)|][0];
  }

  lemma {:induction false} CleanCharIsVisible(c: char)
    ensures IsSpace(CleanChar(c)) <==> IsSpace(c)
  {
  }

  /** A line that shows a paragraph with visible text is not blank. */
  lemma {:induction false} ShownLineIsNotBlank(line: string, text: string)
    requires Contains(line, Normalize(text)) && Strip(text) != ""
    ensures Strip(line) != ""
  {
    var i := VisibleCharacter(text);
    var p :| 0 <= p <= |line| && OccursAt(line, Normalize(text), p);
    CleanCharIsVisible(text[i]);
    assert line[p + i] == line[p..p + |text|][i] == Normalize(text)[i];
    StripOfVisible(line, p + i);
  }

  lemma {:induction false} MatchReaches(p: Para, r: Replacement, exact: seq<string>)
    requires |p.inline| == |p.runs| + 1 && ShowsReadOnly(p, exact)
    requires Matches(p, r.original, r.tailored) && !SpansLines(r)
    ensures Reaches(r, exact)
  {
    var text, target := TextOf(p), TargetOf(r.original);
    var k :| 0 <= k < |exact| && Contains(exact[k], Normalize(text));
    ShownLineIsNotBlank(exact[k], text);
    FindDecidesContains(Normalize(text), target);
    ContainsTransitive(exact[k], Normalize(text), target);
    assert StandsIn(target, exact[k]);
  }

  lemma {:induction false} ReachedLineMatches(r: Replacement, line: string)
    requires !Skipped(r) && StandsIn(TargetOf(r.original), line) && Normalize(line) == line
    ensures Matches(Plain(line), r.original, r.tailored) && ShowsReadOnly(Plain(line), [line])
  {
    TextOfPlain(line);
    FindDecidesContains(line, TargetOf(r.original));
    ContainsItself(line);
    assert Contains([line][0], Normalize(TextOf(Plain(line))));
  }

  lemma {:induction false} ContainsItself(s: string)
    ensures Contains(s, s)
  {
    PrefixIsContained(s, |s|);
    assert s[..|s|] == s;
  }

  // ---------- over a whole pass ----------

  /** As long as nothing reaches a read-only line, a paragraph that shows one stays as it is. */
  lemma {:induction false} StaysUntouched(ps: seq<Para>, items: seq<Replacement>, exact: seq<string>, k: nat)
    requires AllWellFormed(ps) && k < |ps| && ShowsReadOnly(ps[k], exact)
    requires forall r :: r in items ==> !Reaches(r, exact)
    ensures Applied(ps, items)[k] == ps[k]
  {
    if items != [] {
      var front, r := items[..|items| - 1], items[|items| - 1];
      StaysUntouched(ps, front, exact, k);
      if Matches(ps[k], r.original, r.tailored) && !SpansLines(r) {
        MatchReaches(ps[k], r, exact);
      }
    }
  }

  lemma {:induction false} NotWritten(ps: seq<Para>, items: seq<Replacement>, exact: seq<string>, k: nat, n: nat)
    requires AllWellFormed(ps) && k < |ps| && ShowsReadOnly(ps[k], exact) && n < |items|
    requires forall r :: r in items ==> !Reaches(r, exact)
    ensures !WrittenBy(ps, items, k, n)
  {
    StaysUntouched(ps, items[..n], exact, k);
    if WrittenBy(ps, items, k, n) {
      MatchReaches(ps[k], items[n], exact);
    }
  }

  /** What is never written to is unchanged. */
  lemma {:induction false} NotWrittenIsUnchanged(ps: seq<Para>, items: seq<Replacement>, k: nat)
    requires AllWellFormed(ps) && k < |ps| && !Written(ps, items, k)
    ensures Applied(ps, items)[k] == ps[k]
  {
    if items != [] {
      var n := |items| - 1;
      var front := items[..n];
      assert !WrittenBy(ps, items, k, n);
      forall m | 0 <= m < |front|
        ensures !WrittenBy(ps, front, k, m)
      {
        assert front[..m] == items[..m];
        assert !WrittenBy(ps, items, k, m);
      }
      NotWrittenIsUnchanged(ps, front, k);
    }
  }

  lemma {:induction false} UnreachedIsSafe(items: seq<Replacement>, exact: seq<string>)
    requires forall r :: r in items ==> !Reaches(r, exact)
    ensures Safe(items, exact)
  {
    forall ps | AllWellFormed(ps)
      ensures Protected(ps, items, exact)
    {
      forall k | 0 <= k < |ps| && ShowsReadOnly(ps[k], exact)
        ensures !Written(ps, items, k)
      {
        forall n | 0 <= n < |items|
          ensures !WrittenBy(ps, items, k, n)
        {
          NotWritten(ps, items, exact, k, n);
        }
      }
    }
  }

  /** The first replacement that reaches a line is written to it, in the document that is that line. */
  lemma {:induction false} FirstReachWrites(items: seq<Replacement>, exact: seq<string>, n: nat)
    requires forall k :: 0 <= k < |exact| ==> Normalize(exact[k]) == exact[k]
    requires n < |items| && Reaches(items[n], exact)
    requires forall m :: 0 <= m < n ==> !Reaches(items[m], exact)
    ensures !Safe(items, exact)
  {
    var j :| 0 <= j < |exact| && StandsIn(TargetOf(items[n].original), exact[j]);
    var ps := [Plain(exact[j])];
    ReachedLineMatches(items[n], exact[j]);
    ShownAmong(Plain(exact[j]), exact, j);
    OneLineStaysAsItIs(items[..n], exact, j);
    WrittenToTheLine(items, exact[j], n);
    assert !Protected(ps, items, exact);
  }

  lemma {:induction false} OneLineStaysAsItIs(items: seq<Replacement>, exact: seq<string>, j: nat)
    requires j < |exact| && ShowsReadOnly(Plain(exact[j]), exact)
    requires forall r :: r in items ==> !Reaches(r, exact)
    ensures Applied([Plain(exact[j])], items) == [Plain(exact[j])]
  {
    StaysUntouched([Plain(exact[j])], items, exact, 0);
  }

  lemma {:induction false} WrittenToTheLine(items: seq<Replacement>, line: string, n: nat)
    requires n < |items| && Applied([Plain(line)], items[..n]) == [Plain(line)]
    requires !SpansLines(items[n]) && Matches(Plain(line), items[n].original, items[n].tailored)
    ensures Written([Plain(line)], items, 0)
  {
    assert WrittenBy([Plain(line)], items, 0, n);
  }

  lemma {:induction false} ShownAmong(p: Para, exact: seq<string>, j: nat)
    requires |p.inline| == |p.runs| + 1 && j < |exact| && ShowsReadOnly(p, [exact[j]])
    ensures ShowsReadOnly(p, exact)
  {
    assert Contains(exact[j], Normalize(TextOf(p)));
  }

  /** The read-only lines are safe from a list exactly when no replacement of it can reach one: each is
      skipped, or the target the matcher looks for stands in none of them. */
  lemma {:induction false} SafeExactly(items: seq<Replacement>, exact: seq<string>)
    requires forall k :: 0 <= k < |exact| ==> Normalize(exact[k]) == exact[k]
    ensures Safe(items, exact) <==> forall r :: r in items ==> !Reaches(r, exact)
  {
    if r :| r in items && Reaches(r, exact) {
      var k :| 0 <= k < |items| && items[k] == r;
      var n := FirstThatReaches(items, exact, k);
      FirstReachWrites(items, exact, n);
    } else {
      UnreachedIsSafe(items, exact);
    }
  }

  lemma {:induction false} FirstThatReaches(items: seq<Replacement>, exact: seq<string>, k: nat) returns (n: nat)
    requires k < |items| && Reaches(items[k], exact)
    ensures n <= k && Reaches(items[n], exact) && forall m :: 0 <= m < n ==> !Reaches(items[m], exact)
    decreases k
  {
    if m :| 0 <= m < k && Reaches(items[m], exact) {
      n := FirstThatReaches(items, exact, m);
    } else {
      n := k;
    }
  }

  // ---------- the adaptation node ----------

  /** Over the node's own composition - normalise the answer, drop what the guard drops, apply - the
      read-only blocks of a CV are safe exactly when the guard drops every normalised item that can
      reach one of their lines. */
  lemma {:induction false} NodeIsSafeExactly(raw: seq<Replacement>, cv: CvData, exact: seq<string>)
    requires Enumerates(exact, cv)
    ensures Safe(Kept(Normalized(raw), exact), exact)
      <==> forall r :: r in Normalized(raw) && Reaches(r, exact) ==> TargetsReadOnly(r, exact)
  {
    EnumeratedIsNormalized(exact, cv);
    SafeExactly(Kept(Normalized(raw), exact), exact);
    forall r: Replacement
      ensures r in Kept(Normalized(raw), exact) <==> r in Normalized(raw) && !TargetsReadOnly(r, exact)
    {
      KeptExactly(Normalized(raw), exact, r);
    }
  }

  lemma {:induction false} EnumeratedIsNormalized(exact: seq<string>, cv: CvData)
    requires Enumerates(exact, cv)
    ensures forall k :: 0 <= k < |exact| ==> Normalize(exact[k]) == exact[k]
  {
    forall k | 0 <= k < |exact|
      ensures Normalize(exact[k]) == exact[k]
    {
      assert exact[k] in exact;
      var line :| line in ReadOnlyLinesSpec(cv) && exact[k] == Normalize(line);
      NormalizeTwice(line);
    }
  }

  /** So then every paragraph that shows (part of) an experience or project line comes out of the node
      as it went in. */
  lemma {:induction false} ReadOnlyBlocksSurviveTheNode(
    ps: seq<Para>, raw: seq<Replacement>, cv: CvData, exact: seq<string>, k: nat, line: string)
    requires AllWellFormed(ps) && k < |ps| && Enumerates(exact, cv)
    requires line in ReadOnlyLinesSpec(cv) && Contains(Normalize(line), Normalize(TextOf(ps[k])))
    requires forall r :: r in Normalized(raw) && Reaches(r, exact) ==> TargetsReadOnly(r, exact)
    ensures !Written(ps, Kept(Normalized(raw), exact), k)
    ensures Applied(ps, Kept(Normalized(raw), exact))[k] == ps[k]
  {
    var items := Kept(Normalized(raw), exact);
    assert Normalize(line) in exact;
    var i :| 0 <= i < |exact| && exact[i] == Normalize(line);
    assert ShowsReadOnly(ps[k], exact);
    NodeIsSafeExactly(raw, cv, exact);
    assert Protected(ps, items, exact);
    NotWrittenIsUnchanged(ps, items, k);
  }

  // ---------- what the guard leaves open ----------

  /** The guard and the matcher compare the same target. */
  predicate TargetsAgree(r: Replacement) {
    GuardTarget(r.original) == TargetOf(r.original)
  }

  /** A target without a leading list marker is compared as it stands by both. */
  lemma {:induction false} MarkerFreeTargetsAgree(r: Replacement)
    requires !StartsWithAny(Strip(r.original), BULLETS)
    ensures TargetsAgree(r) && TargetOf(r.original) == Normalize(Strip(r.original))
  {
    var s := Strip(r.original);
    NoMarkerNoChange(s, BULLETS);
    forall k | 0 <= k < |TARGET_PREFIXES|
      ensures !StartsWith(s, TARGET_PREFIXES[k])
    {
      MutatorPrefixIsABullet(k);
      var j :| 0 <= j < |BULLETS| && BULLETS[j] == TARGET_PREFIXES[k];
    }
    NoMarkerNoChange(s, TARGET_PREFIXES);
  }

  lemma {:induction false} MutatorPrefixIsABullet(k: nat)
    requires k < |TARGET_PREFIXES|
    ensures exists j :: 0 <= j < |BULLETS| && BULLETS[j] == TARGET_PREFIXES[k]
  {
    assert BULLETS[0] == "• " && BULLETS[1] == "- " && BULLETS[2] == "* " && BULLETS[3] == "o ";
    assert BULLETS[4] == "– " && BULLETS[5] == "— ";
    assert BULLETS[6] == "•" && BULLETS[7] == "-" && BULLETS[8] == "*";
  }

  /** What reaches a read-only line although the guard keeps it is one of two kinds: a target shorter
      than 20 characters, or one that guard and matcher strip differently. */
  lemma {:induction false} GuardGap(r: Replacement, exact: seq<string>)
    requires Reaches(r, exact) && !TargetsReadOnly(r, exact)
    ensures |TargetOf(r.original)| < READ_ONLY_FRAGMENT_MIN_CHARS || !TargetsAgree(r)
  {
    var target := TargetOf(r.original);
    var k :| 0 <= k < |exact| && StandsIn(target, exact[k]);
    JoinContainsPart(exact, k, '\n');
    ContainsTransitive(Join(exact, '\n'), exact[k], target);
  }

  // Both kinds occur. One answer of one item is followed through the node: normalised, guarded, applied.

  /** One visible line, as the normaliser would leave it, that starts with no list marker. */
  predicate BareLine(s: string) {
    && s != "" && '\n' !in s && '\r' !in s && Stripped(s)
    && s[0] !in ['•', '-', '*', 'o', '\U{2013}', '\U{2014}']
  }

  lemma {:induction false} BareLineHasNoMarker(s: string)
    requires BareLine(s)
    ensures !StartsWithAny(s, BULLETS) && StripLeadingBullet(s) == s && Strip(s) == s
  {
    forall k | 0 <= k < |BULLETS|
      ensures !StartsWith(s, BULLETS[k])
    {
      BulletStarts(k);
      OtherStart(s, BULLETS[k]);
    }
    NoMarkerNoChange(s, BULLETS);
  }

  lemma {:induction false} OtherStart(s: string, prefix: string)
    requires s != "" && prefix != "" && s[0] != prefix[0]
    ensures !StartsWith(s, prefix)
  {
    assert |prefix| <= |s| ==> s[..|prefix|][0] == s[0];
  }

  lemma {:induction false} BulletStarts(k: nat)
    requires k < |BULLETS|
    ensures BULLETS[k] != "" && BULLETS[k][0] in ['•', '-', '*', 'o', '\U{2013}', '\U{2014}']
  {
    assert BULLETS[0] == "• " && BULLETS[1] == "- " && BULLETS[2] == "* " && BULLETS[3] == "o ";
    assert BULLETS[4] == "– " && BULLETS[5] == "— " && BULLETS[6] == "•" && BULLETS[7] == "-";
    assert BULLETS[8] == "*" && BULLETS[9] == "–" && BULLETS[10] == "—";
  }

  lemma {:induction false} OneLineSplitsToItself(s: string)
    requires s != "" && '\n' !in s && '\r' !in s && Stripped(s)
    ensures SplitLines(s) == [s]
  {
    UnixOfOneLine(s);
    SplitWithoutSeparator(s, '\n');
    assert [s][..0] == [] && StrippedLines([]) == [];
  }

  /** An item whose two sides are single lines once their markers are gone. */
  lemma {:induction false} OneLineItem(raw: Replacement, original: string, tailored: string)
    requires original == StripLeadingBullet(Strip(raw.original)) && tailored == StripLeadingBullet(Strip(raw.tailored))
    requires original != "" && '\n' !in original && '\r' !in original && Stripped(original)
    requires tailored != "" && '\n' !in tailored && '\r' !in tailored && Stripped(tailored)
    requires original != tailored
    ensures Normalized([raw]) == [Replacement(original, tailored, raw.reason)]
  {
    OneLineSplitsToItself(original);
    OneLineSplitsToItself(tailored);
    assert [raw][..0] == [] && Normalized([]) == [];
  }

  lemma {:induction false} KeptAlone(r: Replacement, exact: seq<string>)
    requires !TargetsReadOnly(r, exact) && exact != []
    ensures Kept([r], exact) == [r]
  {
    assert [r][..0] == [] && Filtered([], exact) == [];
  }

  lemma {:induction false} WriteBackToPlain(line: string, target: string, text: string)
    requires Find(Normalize(line), target) != -1
    ensures Found(Plain(line), target)
    ensures WriteBack(Plain(line), target, text)
         == Plain(Splice(line, Find(Normalize(line), target), |target|, text))
  {
    TextOfPlain(line);
    FirstRunIs([line], target, 0);
    WriteBackInRun(Plain(line), target, text);
    assert [line][0 := Splice(line, Find(Normalize(line), target), |target|, text)]
        == [Splice(line, Find(Normalize(line), target), |target|, text)];
  }

  lemma {:induction false} AppliedAlone(p: Para, r: Replacement)
    requires |p.inline| == |p.runs| + 1
    requires !SpansLines(r) && Matches(p, r.original, r.tailored)
    ensures Applied([p], [r]) == [Replaced(p, r.original, r.tailored)]
  {
    assert [r][..0] == [] && Applied([p], []) == [p];
    assert FirstMatch([p], r) == 0;
  }

  /** The pass over one paragraph that is one run. */
  lemma {:induction false} AppliedToOneLine(r: Replacement, line: string)
    requires !SpansLines(r) && Matches(Plain(line), r.original, r.tailored)
    ensures var target, f := TargetOf(r.original), Find(Normalize(line), TargetOf(r.original));
      && f != -1
      && Applied([Plain(line)], [r]) == [Plain(Splice(line, f, |target|, StripLeadingBullet(r.tailored)))]
  {
    TextOfPlain(line);
    AppliedAlone(Plain(line), r);
    WriteBackToPlain(line, TargetOf(r.original), StripLeadingBullet(r.tailored));
  }

  /** A CV whose only read-only line is this one, the heading of a project. */
  function CvOfOneLine(line: string): CvData {
    CvData("", "", [], [], [Project(line, "", "", [], "", [])])
  }

  lemma {:induction false} OneLineIsEnumerated(line: string)
    requires Normalize(line) == line
    ensures Enumerates([line], CvOfOneLine(line))
  {
    var cv := CvOfOneLine(line);
    assert cv.projects[..0] == [] && ProjectBlock([]) == [];
    assert Present([""]) == [] by { assert [""][..0] == [] && Present([]) == []; }
    assert ProjectLines(cv.projects[0]) == [line];
    assert ReadOnlyLinesSpec(cv) == [line];
    assert line in ReadOnlyLinesSpec(cv);
  }

  /** Short fragments: whatever stands in a read-only line and is shorter than 20 characters (and not the
      whole line) passes the guard, and the paragraph that shows the line is rewritten. */
  lemma {:induction false} ShortFragmentGetsThrough(line: string, fragment: string, tailored: string, reason: string)
    requires Normalize(line) == line && Normalize(fragment) == fragment
    requires BareLine(fragment) && BareLine(tailored) && fragment != tailored
    requires Contains(line, fragment) && fragment != line && |fragment| < READ_ONLY_FRAGMENT_MIN_CHARS
    ensures var raw, exact, f := [Replacement(fragment, tailored, reason)], [line], Find(line, fragment);
      && f != -1 && Enumerates(exact, CvOfOneLine(line)) && ShowsReadOnly(Plain(line), exact)
      && Applied([Plain(line)], Kept(Normalized(raw), exact))
         == [Plain(Splice(line, f, |fragment|, tailored))]
  {
    var r := Replacement(fragment, tailored, reason);
    FragmentIsKept(r, line);
    OneLineIsEnumerated(line);
    FragmentMatches(r, line);
    AppliedToOneLine(r, line);
  }

  /** The normaliser and the guard leave it as it is. */
  lemma {:induction false} FragmentIsKept(r: Replacement, line: string)
    requires Normalize(r.original) == r.original && BareLine(r.original) && BareLine(r.tailored)
    requires r.original != r.tailored && r.original != line && |r.original| < READ_ONLY_FRAGMENT_MIN_CHARS
    ensures Kept(Normalized([r]), [line]) == [r]
  {
    BareLineHasNoMarker(r.original);
    BareLineHasNoMarker(r.tailored);
    OneLineItem(r, r.original, r.tailored);
    KeptAlone(r, [line]);
  }

  lemma {:induction false} FragmentMatches(r: Replacement, line: string)
    requires Normalize(line) == line && Normalize(r.original) == r.original
    requires BareLine(r.original) && BareLine(r.tailored) && r.original != r.tailored && Contains(line, r.original)
    ensures !SpansLines(r) && Matches(Plain(line), r.original, r.tailored) && ShowsReadOnly(Plain(line), [line])
    ensures TargetOf(r.original) == r.original && StripLeadingBullet(r.tailored) == r.tailored
  {
    BareLineHasNoMarker(r.tailored);
    BareTarget(r.original);
    FragmentIsReached(r, line);
    ReachedLineMatches(r, line);
  }

  lemma {:induction false} FragmentIsReached(r: Replacement, line: string)
    requires BareLine(r.original) && TargetOf(r.original) == r.original && Contains(line, r.original)
    requires StripLeadingBullet(r.tailored) == r.tailored && r.original != r.tailored
    ensures !Skipped(r) && StandsIn(TargetOf(r.original), line)
  {
    var i :| 0 <= i <= |line| && OccursAt(line, r.original, i);
    assert line[i] == line[i..i + |r.original|][0];
    StripOfVisible(line, i);
  }

  lemma {:induction false} BareTarget(line: string)
    requires BareLine(line) && Normalize(line) == line
    ensures TargetOf(line) == line
  {
    BareLineHasNoMarker(line);
    MarkerFreeTargetsAgree(Replacement(line, "", ""));
  }

  /** "Stack", in a block that holds the line "Tech Stack:". */
  lemma {:induction false} StackGetsThrough(reason: string)
    ensures Applied([Plain("Tech Stack:")], Kept(Normalized([Replacement("Stack", "Stacks", reason)]), ["Tech Stack:"]))
         == [Plain("Tech Stacks:")]
  {
    StackIsBare();
    StackIsFound();
    ShortFragmentGetsThrough("Tech Stack:", "Stack", "Stacks", reason);
  }

  lemma {:induction false} StackIsBare()
    ensures BareLine("Stack") && BareLine("Stacks") && "Stack" != "Stacks"
    ensures Normalize("Tech Stack:") == "Tech Stack:" && Normalize("Stack") == "Stack"
  {
  }

  lemma {:induction false} StackIsFound()
    ensures Contains("Tech Stack:", "Stack") && "Stack" != "Tech Stack:"
    ensures Find("Tech Stack:", "Stack") == 5 && Splice("Tech Stack:", 5, 5, "Stacks") == "Tech Stacks:"
  {
    var line := "Tech Stack:";
    assert line[5..10] == "Stack" && OccursAt(line, "Stack", 5);
    forall k | 0 <= k < 5
      ensures !OccursAt(line, "Stack", k)
    {
      assert "Stack"[0] == 'S' && line[k..k + 5][0] == line[k] != 'S';
    }
  }

  /** Stacked markers: of "• - * " before a line the normaliser drops the first marker and the guard the
      second, so it compares "* " + the line with the read-only "• " + the line and keeps the item,
      however long the line is. The matcher drops both and rewrites the paragraph. */
  lemma {:induction false} StackedMarkersGetThrough(line: string, tailored: string, reason: string)
    requires BareLine(line) && Normalize(line) == line && BareLine(tailored)
    ensures var raw, exact := [Replacement("• - * " + line, tailored, reason)], ["• " + line];
      && Enumerates(exact, CvOfOneLine("• " + line)) && ShowsReadOnly(Plain(line), exact)
      && Applied([Plain(line)], Kept(Normalized(raw), exact)) == [Plain(tailored)]
  {
    var raw, exact := Replacement("• - * " + line, tailored, reason), ["• " + line];
    var r := Replacement("- * " + line, tailored, reason);
    StackedItem(raw, r, line);
    StackedPassesTheGuard(r, line);
    KeptAlone(r, exact);
    StackedLineIsShown(line);
    StackedIsApplied(r, line);
    BulletLineIsEnumerated(line);
  }

  lemma {:induction false} BulletLineIsEnumerated(line: string)
    requires Normalize(line) == line
    ensures Enumerates(["• " + line], CvOfOneLine("• " + line))
  {
    NormalizeConcat("• ", line);
    assert Normalize("• ") == "• ";
    OneLineIsEnumerated("• " + line);
  }

  lemma {:induction false} StackedIsApplied(r: Replacement, line: string)
    requires BareLine(line) && Normalize(line) == line && BareLine(r.tailored) && r.original == "- * " + line
    ensures Applied([Plain(line)], [r]) == [Plain(r.tailored)]
  {
    StackedMatches(r, line);
    WholeLineReplaced(r, line);
  }

  lemma {:induction false} StackedMatches(r: Replacement, line: string)
    requires BareLine(line) && Normalize(line) == line && BareLine(r.tailored) && r.original == "- * " + line
    ensures !SpansLines(r) && Matches(Plain(line), r.original, r.tailored)
    ensures TargetOf(r.original) == line && StripLeadingBullet(r.tailored) == r.tailored
  {
    BareLineHasNoMarker(r.tailored);
    StackedTarget(line);
    StackedIsReached(r, line);
    ReachedLineMatches(r, line);
  }

  /** A target that is the whole paragraph. */
  lemma {:induction false} WholeLineReplaced(r: Replacement, line: string)
    requires !SpansLines(r) && Matches(Plain(line), r.original, r.tailored)
    requires TargetOf(r.original) == line && Normalize(line) == line && StripLeadingBullet(r.tailored) == r.tailored
    ensures Applied([Plain(line)], [r]) == [Plain(r.tailored)]
  {
    AppliedToOneLine(r, line);
    assert OccursAt(line, line, 0) && Find(line, line) == 0;
    assert Splice(line, 0, |line|, r.tailored) == r.tailored;
  }

  /** A stripped text in front of which a visible marker stands is stripped too. */
  lemma {:induction false} MarkedIsStripped(marker: string, line: string)
    requires marker != "" && !IsSpace(marker[0]) && BareLine(line)
    requires '\n' !in marker && '\r' !in marker
    ensures Stripped(marker + line) && Strip(marker + line) == marker + line
    ensures '\n' !in marker + line && '\r' !in marker + line
  {
  }

  /** The first marker that fits is dropped, and only that one. */
  lemma {:induction false} FirstMarkerGoes(s: string, rest: string, prefixes: seq<string>, k: nat)
    requires k < |prefixes| && s == prefixes[k] + rest && Strip(rest) == rest
    requires forall j :: 0 <= j < k ==> !StartsWith(s, prefixes[j])
    ensures StripFirst(s, prefixes) == rest
    ensures StripEach(s, prefixes) == StripEach(rest, prefixes[k + 1..])
    decreases k
  {
    if k == 0 {
      assert s[|prefixes[0]|..] == rest;
    } else {
      assert !StartsWith(s, prefixes[0]);
      FirstMarkerGoes(s, rest, prefixes[1..], k - 1);
      assert prefixes[1..][k..] == prefixes[k + 1..];
    }
  }

  lemma {:induction false} StackedItem(raw: Replacement, r: Replacement, line: string)
    requires BareLine(line) && BareLine(raw.tailored) && raw.original == "• - * " + line
    requires r == Replacement("- * " + line, raw.tailored, raw.reason)
    ensures Normalized([raw]) == [r]
  {
    assert "• - * " + line == "• " + ("- * " + line);
    MarkedIsStripped("• - * ", line);
    MarkedIsStripped("- * ", line);
    FirstMarkerGoes(raw.original, "- * " + line, BULLETS, 0);
    BareLineHasNoMarker(raw.tailored);
    assert r.original[0] == '-';
    OneLineItem(raw, "- * " + line, raw.tailored);
  }

  lemma {:induction false} StackedPassesTheGuard(r: Replacement, line: string)
    requires BareLine(line) && Normalize(line) == line && r.original == "- * " + line
    ensures !TargetsReadOnly(r, ["• " + line])
  {
    StackedGuardTarget(line);
    OtherMarkerNotReadOnly("* " + line, "• " + line);
  }

  lemma {:induction false} StackedGuardTarget(line: string)
    requires BareLine(line) && Normalize(line) == line
    ensures GuardTarget("- * " + line) == "* " + line
  {
    MarkedIsStripped("- * ", line);
    SecondMarkerGoes(line);
    NormalizeConcat("* ", line);
    assert Normalize("* ") == "* ";
  }

  lemma {:induction false} SecondMarkerGoes(line: string)
    requires BareLine(line)
    ensures StripLeadingBullet("- * " + line) == "* " + line
  {
    assert "- * " + line == "- " + ("* " + line);
    MarkedIsStripped("* ", line);
    OtherStart("- * " + line, BULLETS[0]);
    FirstMarkerGoes("- * " + line, "* " + line, BULLETS, 1);
  }

  lemma {:induction false} OtherMarkerNotReadOnly(target: string, line: string)
    requires |target| == |line| > 0 && target[0] != line[0]
    ensures !IsReadOnly(target, [line])
  {
    SameLengthNotContained(line, target);
  }

  lemma {:induction false} SameLengthNotContained(s: string, t: string)
    requires |s| == |t| && s != t
    ensures !Contains(s, t)
  {
    assert s[0..|s|] == s;
  }

  lemma {:induction false} StackedTarget(line: string)
    requires BareLine(line) && Normalize(line) == line
    ensures TargetOf("- * " + line) == line
  {
    MarkedIsStripped("- * ", line);
    FirstOfTheStack(line);
    SecondOfTheStack(line);
  }

  lemma {:induction false} FirstOfTheStack(line: string)
    requires BareLine(line)
    ensures StripEach("- * " + line, TARGET_PREFIXES) == StripEach("* " + line, TARGET_PREFIXES[3..])
  {
    assert "- * " + line == "- " + ("* " + line);
    MarkedIsStripped("* ", line);
    OtherStart("- * " + line, TARGET_PREFIXES[0]);
    OtherStart("- * " + line, TARGET_PREFIXES[1]);
    FirstMarkerGoes("- * " + line, "* " + line, TARGET_PREFIXES, 2);
  }

  lemma {:induction false} SecondOfTheStack(line: string)
    requires BareLine(line)
    ensures StripEach("* " + line, TARGET_PREFIXES[3..]) == line
  {
    var rest := TARGET_PREFIXES[3..];
    assert rest[0] == "* " && rest[1..] == TARGET_PREFIXES[4..];
    BareLineHasNoMarker(line);
    FirstMarkerGoes("* " + line, line, rest, 0);
    NoneOfTheLater(line);
    NoMarkerNoChange(line, TARGET_PREFIXES[4..]);
  }

  lemma {:induction false} NoneOfTheLater(line: string)
    requires !StartsWithAny(line, BULLETS)
    ensures !StartsWithAny(line, TARGET_PREFIXES[4..])
  {
    forall k | 0 <= k < |TARGET_PREFIXES[4..]|
      ensures !StartsWith(line, TARGET_PREFIXES[4..][k])
    {
      MutatorPrefixIsABullet(k + 4);
      var j :| 0 <= j < |BULLETS| && BULLETS[j] == TARGET_PREFIXES[k + 4];
      assert !StartsWith(line, BULLETS[j]);
    }
  }

  lemma {:induction false} StackedIsReached(r: Replacement, line: string)
    requires BareLine(line) && TargetOf(r.original) == line && r.original == "- * " + line
    requires BareLine(r.tailored) && StripLeadingBullet(r.tailored) == r.tailored
    ensures !Skipped(r) && StandsIn(TargetOf(r.original), line)
  {
    MarkedIsStripped("- * ", line);
    assert r.original[0] == '-' != r.tailored[0];
    ContainsItself(line);
    StripOfVisible(line, 0);
  }

  lemma {:induction false} StackedLineIsShown(line: string)
    requires Normalize(line) == line
    ensures ShowsReadOnly(Plain(line), ["• " + line])
  {
    TextOfPlain(line);
    assert ("• " + line)[2..] == line;
    SuffixIsContained("• " + line, 2);
    assert Contains(["• " + line][0], Normalize(TextOf(Plain(line))));
  }
}

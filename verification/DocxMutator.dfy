/** The document surgery of `utils/docx_mutator.py`: one replacement matched in the normalised text
    of a paragraph and written back across its formatting runs. */
module DocxMutator {
  import opened Text

  /** A paragraph as a value. `runs` are the texts of the formatting runs; `inline` is the text
      `paragraph.text` shows around them but no run holds (a hyperlink's), one piece before each
      run and one after the last. */
  datatype Para = Para(runs: seq<string>, inline: seq<string>)

  ghost predicate WellFormed(p: Para) {
    |p.inline| == |p.runs| + 1
  }

  function Concat(runs: seq<string>): string {
    if runs == [] then "" else runs[0] + Concat(runs[1..])
  }

  /** `paragraph.text`. */
  function TextOf(p: Para): string
    requires |p.inline| == |p.runs| + 1
    decreases |p.runs|
  {
    if p.runs == [] then p.inline[0]
    else p.inline[0] + p.runs[0] + TextOf(Para(p.runs[1..], p.inline[1..]))
  }

  /** The paragraph `paragraph.text = text` leaves: one run, nothing around it. */
  function Plain(text: string): Para {
    Para([text], ["", ""])
  }

  // ---------- what one replacement looks for ----------

  /** The target the matcher compares: stripped of list markers, then normalised. */
  function TargetOf(original: string): string {
    Normalize(StripEach(Strip(original), TARGET_PREFIXES))
  }

  /** The normalised target stands in the normalised paragraph text. */
  predicate Found(p: Para, target: string)
    requires |p.inline| == |p.runs| + 1
  {
    Find(Normalize(TextOf(p)), target) != -1
  }

  /** When `_replace_text_in_paragraph` returns True. */
  predicate Matches(p: Para, original: string, tailored: string)
    requires |p.inline| == |p.runs| + 1
  {
    && original != ""
    && original != StripLeadingBullet(tailored)
    && Strip(TextOf(p)) != ""
    && Found(p, TargetOf(original))
  }

  /** The first run whose own normalised text holds the target, or the number of runs. */
  function FirstRunWith(runs: seq<string>, target: string): (k: nat)
    ensures k <= |runs|
    ensures forall i :: 0 <= i < k ==> Find(Normalize(runs[i]), target) == -1
    ensures k < |runs| ==> Find(Normalize(runs[k]), target) != -1
  {
    if runs == [] || Find(Normalize(runs[0]), target) != -1 then 0
    else 1 + FirstRunWith(runs[1..], target)
  }

  // ---------- writing back ----------

  /** `text` with the `length` characters at `s` replaced by `tailored`. */
  function Splice(text: string, s: nat, length: nat, tailored: string): string
    requires s + length <= |text|
  {
    text[..s] + tailored + text[s + length..]
  }

  /** A run that covers [0, |run|) and meets the span [s, e). */
  predicate Meets(run: string, s: int, e: int) {
    (if s > 0 then s else 0) < (if e < |run| then e else |run|)
  }

  /** One run after the span [s, e), counted from the run's own start, was cut out of it: the run
      in which the span begins receives the tailored text. */
  function CutRun(run: string, s: int, e: int, tailored: string): string {
    if !Meets(run, s, e) then run
    else (if 0 <= s then run[..s] + tailored else "") + (if e <= |run| then run[e..] else "")
  }

  function CutRuns(runs: seq<string>, s: int, e: int, tailored: string): (r: seq<string>)
    ensures |r| == |runs|
  {
    if runs == [] then []
    else [CutRun(runs[0], s, e, tailored)] + CutRuns(runs[1..], s - |runs[0]|, e - |runs[0]|, tailored)
  }

  /** The paragraph a found target leaves behind. */
  function WriteBack(p: Para, target: string, text: string): (q: Para)
    requires |p.inline| == |p.runs| + 1 && Found(p, target)
    ensures |q.inline| == |q.runs| + 1
  {
    var full := TextOf(p);
    var start := Find(Normalize(full), target);
    var k := FirstRunWith(p.runs, target);
    var combined := Concat(p.runs);
    var s := Find(Normalize(combined), target);
    if p.runs == [] then Plain(Splice(full, start, |target|, text))
    else if k < |p.runs| then
      p.(runs := p.runs[k := Splice(p.runs[k], Find(Normalize(p.runs[k]), target), |target|, text)])
    else if s == -1 then
      // The start index was overwritten with -1, so `full_text[:match_start]` drops the last character.
      Plain(AllButLast(full) + text + full[start + |target|..])
    else p.(runs := CutRuns(p.runs, s, s + |target|, text))
  }

  /** Python's `text[:-1]`. */
  function AllButLast(text: string): string {
    if text == "" then "" else text[..|text| - 1]
  }

  /** One replacement on one paragraph. */
  function Replaced(p: Para, original: string, tailored: string): (q: Para)
    requires |p.inline| == |p.runs| + 1
    ensures |q.inline| == |q.runs| + 1
  {
    if Matches(p, original, tailored)
    then WriteBack(p, TargetOf(original), StripLeadingBullet(tailored))
    else p
  }

  // ---------- one replacement is exactly one splice ----------

  /** The offset of run `i` in the concatenated text. */
  function Offset(runs: seq<string>, i: nat): nat
    requires i <= |runs|
  {
    |Concat(runs[..i])|
  }

  lemma {:induction false} ConcatAppend(a: seq<string>, b: seq<string>)
    ensures Concat(a + b) == Concat(a) + Concat(b)
  {
    if a == [] {
      assert a + b == b;
    } else {
      assert (a + b)[1..] == a[1..] + b;
      ConcatAppend(a[1..], b);
    }
  }

  lemma {:induction false} ConcatUpTo(runs: seq<string>, i: nat)
    requires i < |runs|
    ensures Concat(runs[..i + 1]) == Concat(runs[..i]) + runs[i]
  {
    assert runs[..i + 1] == runs[..i] + [runs[i]];
    ConcatAppend(runs[..i], [runs[i]]);
    ConcatOfOne(runs[i]);
  }

  lemma {:induction false} ConcatOfOne(run: string)
    ensures Concat([run]) == run
  {
    assert [run][1..] == [];
    assert run + [] == run;
  }

  lemma {:induction false} ConcatSplitAt(runs: seq<string>, i: nat)
    requires i < |runs|
    ensures Concat(runs) == Concat(runs[..i]) + runs[i] + Concat(runs[i + 1..])
    ensures Concat(runs[..i + 1]) == Concat(runs[..i]) + runs[i]
  {
    assert runs == runs[..i + 1] + runs[i + 1..];
    ConcatAppend(runs[..i + 1], runs[i + 1..]);
    ConcatUpTo(runs, i);
  }

  /** Runs behind the span keep their text. */
  lemma {:induction false} CutBehindTheSpan(runs: seq<string>, s: int, e: int, tailored: string)
    requires e <= 0
    ensures CutRuns(runs, s, e, tailored) == runs
  {
    if runs != [] {
      CutBehindTheSpan(runs[1..], s - |runs[0]|, e - |runs[0]|, tailored);
    }
  }

  /** Runs that start inside the span lose what the span still covers. */
  lemma {:induction false} CutInsideTheSpan(runs: seq<string>, s: int, e: nat, tailored: string)
    requires s < 0 && e <= |Concat(runs)|
    ensures Concat(CutRuns(runs, s, e, tailored)) == Concat(runs)[e..]
  {
    if runs != [] {
      var r, rest := runs[0], runs[1..];
      if e <= |r| {
        CutBehindTheSpan(rest, s - |r|, e - |r|, tailored);
        assert (r + Concat(rest))[e..] == r[e..] + Concat(rest);
      } else {
        CutInsideTheSpan(rest, s - |r|, e - |r|, tailored);
        assert (r + Concat(rest))[e..] == Concat(rest)[e - |r|..];
        assert CutRun(r, s, e, tailored) == "";
      }
    }
  }

  /** Cutting a span out of the runs cuts it out of the concatenated text. */
  lemma {:induction false} CutRunsSplices(runs: seq<string>, s: nat, e: nat, tailored: string)
    requires s < e <= |Concat(runs)|
    ensures Concat(CutRuns(runs, s, e, tailored)) == Splice(Concat(runs), s, e - s, tailored)
  {
    var r, rest := runs[0], runs[1..];
    if |r| <= s {
      CutRunsSplices(rest, s - |r|, e - |r|, tailored);
      SpanBehindTheRun(runs, s, e, tailored);
    } else if e <= |r| {
      SpanInTheRun(runs, s, e, tailored);
    } else {
      SpanAcrossTheRun(runs, s, e, tailored);
    }
  }

  lemma {:induction false} SpanBehindTheRun(runs: seq<string>, s: nat, e: nat, tailored: string)
    requires runs != [] && |runs[0]| <= s < e <= |Concat(runs)|
    requires Concat(CutRuns(runs[1..], s - |runs[0]|, e - |runs[0]|, tailored))
          == Splice(Concat(runs[1..]), s - |runs[0]|, e - s, tailored)
    ensures Concat(CutRuns(runs, s, e, tailored)) == Splice(Concat(runs), s, e - s, tailored)
  {
    var r, rest := runs[0], runs[1..];
    ConcatOfCut(runs, s, e, tailored);
    assert CutRun(r, s, e, tailored) == r;
    SpliceBehind(r, Concat(rest), s - |r|, e - s, tailored);
    assert |r| + (s - |r|) == s;
  }

  lemma {:induction false} SpanInTheRun(runs: seq<string>, s: nat, e: nat, tailored: string)
    requires runs != [] && s < e <= |runs[0]|
    ensures Concat(CutRuns(runs, s, e, tailored)) == Splice(Concat(runs), s, e - s, tailored)
  {
    var r, rest := runs[0], runs[1..];
    ConcatOfCut(runs, s, e, tailored);
    CutBehindTheSpan(rest, s - |r|, e - |r|, tailored);
    SpliceInFront(r, Concat(rest), s, e, tailored);
  }

  lemma {:induction false} SpanAcrossTheRun(runs: seq<string>, s: nat, e: nat, tailored: string)
    requires runs != [] && s < |runs[0]| < e <= |Concat(runs)|
    ensures Concat(CutRuns(runs, s, e, tailored)) == Splice(Concat(runs), s, e - s, tailored)
  {
    var r, rest := runs[0], runs[1..];
    ConcatOfCut(runs, s, e, tailored);
    CutInsideTheSpan(rest, s - |r|, e - |r|, tailored);
    CutAcross(r, s, e, tailored);
    SpliceAcross(r, Concat(rest), s, e, tailored);
  }

  lemma {:induction false} ConcatOfCut(runs: seq<string>, s: int, e: int, tailored: string)
    requires runs != []
    ensures Concat(CutRuns(runs, s, e, tailored)) ==
            CutRun(runs[0], s, e, tailored) + Concat(CutRuns(runs[1..], s - |runs[0]|, e - |runs[0]|, tailored))
  {
    var cut, tail := CutRun(runs[0], s, e, tailored), CutRuns(runs[1..], s - |runs[0]|, e - |runs[0]|, tailored);
    assert ([cut] + tail)[1..] == tail;
  }

  lemma {:induction false} CutAcross(run: string, s: nat, e: nat, tailored: string)
    requires s < |run| < e
    ensures CutRun(run, s, e, tailored) == run[..s] + tailored
  {
    assert run[..s] + tailored + "" == run[..s] + tailored;
  }

  lemma {:induction false} SpliceInFront(front: string, text: string, s: nat, e: nat, tailored: string)
    requires s <= e <= |front|
    ensures front[..s] + tailored + front[e..] + text == Splice(front + text, s, e - s, tailored)
  {
    assert (front + text)[..s] == front[..s];
    assert (front + text)[e..] == front[e..] + text;
  }

  lemma {:induction false} SpliceAcross(front: string, text: string, s: nat, e: nat, tailored: string)
    requires s <= |front| <= e <= |front| + |text|
    ensures front[..s] + tailored + text[e - |front|..] == Splice(front + text, s, e - s, tailored)
  {
    assert (front + text)[..s] == front[..s];
    assert (front + text)[e..] == text[e - |front|..];
  }

  lemma {:induction false} SpliceBehind(front: string, text: string, s: nat, length: nat, tailored: string)
    requires s + length <= |text|
    ensures front + Splice(text, s, length, tailored) == Splice(front + text, |front| + s, length, tailored)
  {
    assert (front + text)[..|front| + s] == front + text[..s];
    assert (front + text)[|front| + s + length..] == text[s + length..];
  }

  /** Run `i` after the cut depends on run `i` alone; outside the span it keeps its text. */
  lemma {:induction false} CutRunsAt(runs: seq<string>, s: int, e: int, tailored: string, i: nat)
    requires i < |runs|
    ensures CutRuns(runs, s, e, tailored)[i]
         == CutRun(runs[i], s - Offset(runs, i), e - Offset(runs, i), tailored)
  {
    if i > 0 {
      CutRunsAt(runs[1..], s - |runs[0]|, e - |runs[0]|, tailored, i - 1);
      OffsetStep(runs, i);
    }
  }

  lemma {:induction false} OffsetStep(runs: seq<string>, i: nat)
    requires 0 < i <= |runs|
    ensures Offset(runs, i) == |runs[0]| + Offset(runs[1..], i - 1)
  {
    assert runs[..i] == [runs[0]] + runs[1..][..i - 1];
    ConcatAppend([runs[0]], runs[1..][..i - 1]);
    ConcatOfOne(runs[0]);
  }

  /** `after` is `before` with one occurrence of the normalised target replaced by `tailored`. */
  ghost predicate IsSplice(before: string, after: string, target: string, tailored: string) {
    exists s: nat :: OccursAt(Normalize(before), target, s) && after == Splice(before, s, |target|, tailored)
  }

  /** Run `i` meets the span [s, e) of the concatenated text. */
  ghost predicate MeetsAt(runs: seq<string>, i: nat, s: int, e: int)
    requires i < |runs|
  {
    Meets(runs[i], s - Offset(runs, i), e - Offset(runs, i))
  }

  ghost predicate OutsideUntouched(before: seq<string>, after: seq<string>, s: int, e: int)
    requires |before| == |after|
  {
    forall i :: 0 <= i < |before| && !MeetsAt(before, i, s, e) ==> after[i] == before[i]
  }

  /** The concatenated run texts changed by one splice at `s`, an occurrence of the target, and
      runs outside the span kept their text. */
  ghost predicate SplicedAt(before: seq<string>, after: seq<string>, target: string, text: string, s: nat)
    requires |before| == |after|
  {
    && OccursAt(Normalize(Concat(before)), target, s)
    && Concat(after) == Splice(Concat(before), s, |target|, text)
    && (target != "" ==> OutsideUntouched(before, after, s, s + |target|))
  }

  /** One such splice, and as many runs as before. */
  ghost predicate OneSplice(before: seq<string>, after: seq<string>, target: string, text: string) {
    |before| == |after| && exists s: nat :: SplicedAt(before, after, target, text, s)
  }

  /** When the target stands in the run texts, writing back is exactly one splice of the
      concatenated run texts; runs the span does not meet keep their text, and the text around
      the runs is not touched. */
  lemma {:induction false} WriteBackIsOneSplice(p: Para, target: string, text: string)
    requires WellFormed(p) && Found(p, target) && p.runs != []
    requires Contains(Normalize(Concat(p.runs)), target)
    ensures var q := WriteBack(p, target, text);
      q.inline == p.inline && OneSplice(p.runs, q.runs, target, text)
  {
    FindDecidesContains(Normalize(Concat(p.runs)), target);
    WriteBackToRuns(p, target, text);
    OneOfTheTwo(p.runs, target, text);
  }

  lemma {:induction false} WriteBackToRuns(p: Para, target: string, text: string)
    requires |p.inline| == |p.runs| + 1 && Found(p, target) && p.runs != []
    requires Find(Normalize(Concat(p.runs)), target) != -1
    ensures WriteBack(p, target, text) == Para(RunsAfter(p.runs, target, text), p.inline)
  {
    if FirstRunWith(p.runs, target) < |p.runs| {
      WriteBackInRun(p, target, text);
    } else {
      WriteBackOverRuns(p, target, text);
    }
  }

  /** What the two run branches leave. */
  function RunsAfter(runs: seq<string>, target: string, text: string): seq<string>
    requires Find(Normalize(Concat(runs)), target) != -1
  {
    var k, s := FirstRunWith(runs, target), Find(Normalize(Concat(runs)), target);
    if k < |runs| then runs[k := Splice(runs[k], Find(Normalize(runs[k]), target), |target|, text)]
    else CutRuns(runs, s, s + |target|, text)
  }

  lemma {:induction false} OneOfTheTwo(runs: seq<string>, target: string, text: string)
    requires runs != [] && Find(Normalize(Concat(runs)), target) != -1
    ensures OneSplice(runs, RunsAfter(runs, target, text), target, text)
  {
    if FirstRunWith(runs, target) < |runs| {
      WithinOneRun(runs, target, text);
    } else {
      TargetIsNotEmpty(runs, target);
      AcrossRuns(runs, target, text);
    }
  }

  lemma {:induction false} WithinOneRun(runs: seq<string>, target: string, text: string)
    requires FirstRunWith(runs, target) < |runs|
    ensures var k := FirstRunWith(runs, target);
      OneSplice(runs, runs[k := Splice(runs[k], Find(Normalize(runs[k]), target), |target|, text)], target, text)
  {
    SingleRunSplice(runs, FirstRunWith(runs, target), target, text);
  }

  lemma {:induction false} AcrossRuns(runs: seq<string>, target: string, text: string)
    requires target != "" && Find(Normalize(Concat(runs)), target) != -1
    ensures var s := Find(Normalize(Concat(runs)), target);
      OneSplice(runs, CutRuns(runs, s, s + |target|, text), target, text)
  {
    CutIsOneSplice(runs, target, text, Find(Normalize(Concat(runs)), target));
  }

  lemma {:induction false} CutIsOneSplice(runs: seq<string>, target: string, text: string, s: nat)
    requires target != "" && OccursAt(Normalize(Concat(runs)), target, s)
    ensures OneSplice(runs, CutRuns(runs, s, s + |target|, text), target, text)
  {
    CutAtAnOccurrence(runs, target, text, s);
    SplicedOnce(runs, CutRuns(runs, s, s + |target|, text), target, text, s);
  }

  lemma {:induction false} SplicedOnce(before: seq<string>, after: seq<string>, target: string, text: string, s: nat)
    requires |before| == |after|
    ensures SplicedAt(before, after, target, text, s) ==> OneSplice(before, after, target, text)
  {
  }

  lemma {:induction false} WriteBackInRun(p: Para, target: string, text: string)
    requires |p.inline| == |p.runs| + 1 && Found(p, target) && FirstRunWith(p.runs, target) < |p.runs|
    ensures var k := FirstRunWith(p.runs, target);
      WriteBack(p, target, text) ==
      p.(runs := p.runs[k := Splice(p.runs[k], Find(Normalize(p.runs[k]), target), |target|, text)])
  {
  }

  lemma {:induction false} WriteBackOverRuns(p: Para, target: string, text: string)
    requires |p.inline| == |p.runs| + 1 && Found(p, target) && p.runs != []
    requires FirstRunWith(p.runs, target) == |p.runs| && Find(Normalize(Concat(p.runs)), target) != -1
    ensures var s := Find(Normalize(Concat(p.runs)), target);
      WriteBack(p, target, text) == p.(runs := CutRuns(p.runs, s, s + |target|, text))
  {
  }

  lemma {:induction false} TargetIsNotEmpty(runs: seq<string>, target: string)
    requires runs != [] && FirstRunWith(runs, target) == |runs|
    ensures target != ""
  {
    if target == "" {
      EmptyTargetIsInEveryRun(runs[0]);
    }
  }

  /** The cross-run branch. */
  lemma {:induction false} CrossRunSplice(runs: seq<string>, target: string, text: string)
    requires target != "" && Find(Normalize(Concat(runs)), target) != -1
    ensures var s := Find(Normalize(Concat(runs)), target);
      SplicedAt(runs, CutRuns(runs, s, s + |target|, text), target, text, s)
  {
    CutAtAnOccurrence(runs, target, text, Find(Normalize(Concat(runs)), target));
  }

  lemma {:induction false} CutAtAnOccurrence(runs: seq<string>, target: string, text: string, s: nat)
    requires target != "" && OccursAt(Normalize(Concat(runs)), target, s)
    ensures SplicedAt(runs, CutRuns(runs, s, s + |target|, text), target, text, s)
  {
    CutRunsSplices(runs, s, s + |target|, text);
    CutLeavesTheOutside(runs, s, s + |target|, text);
  }

  lemma {:induction false} CutLeavesTheOutside(runs: seq<string>, s: nat, e: nat, text: string)
    requires s < e <= |Concat(runs)|
    ensures OutsideUntouched(runs, CutRuns(runs, s, e, text), s, e)
  {
    forall i | 0 <= i < |runs| && !MeetsAt(runs, i, s, e)
      ensures CutRuns(runs, s, e, text)[i] == runs[i]
    {
      CutRunsAt(runs, s, e, text, i);
    }
  }

  lemma {:induction false} EmptyTargetIsInEveryRun(run: string)
    ensures Find(Normalize(run), "") == 0
  {
    assert OccursAt(Normalize(run), "", 0);
  }

  /** An occurrence inside one run is an occurrence in the concatenated text, and the other way. */
  lemma {:induction false} OccurrenceInRun(runs: seq<string>, k: nat, target: string, f: nat)
    requires k < |runs| && f + |target| <= |runs[k]|
    ensures |Concat(runs)| >= Offset(runs, k) + |runs[k]|
    ensures OccursAt(Normalize(runs[k]), target, f)
       <==> OccursAt(Normalize(Concat(runs)), target, Offset(runs, k) + f)
  {
    ConcatSplitAt(runs, k);
    var before, after := Concat(runs[..k]), Concat(runs[k + 1..]);
    NormalizeConcat(before + runs[k], after);
    NormalizeConcat(before, runs[k]);
    var n, s := Normalize(Concat(runs)), |before| + f;
    assert n == Normalize(before) + Normalize(runs[k]) + Normalize(after);
    assert n[s..s + |target|] == Normalize(runs[k])[f..f + |target|];
  }

  lemma {:induction false} SpliceInTheMiddle(before: string, run: string, after: string, f: nat, length: nat,
                                             text: string)
    requires f + length <= |run|
    ensures before + Splice(run, f, length, text) + after
         == Splice(before + run + after, |before| + f, length, text)
  {
    var all := before + run + after;
    assert all[..|before| + f] == before + run[..f];
    assert all[|before| + f + length..] == run[f + length..] + after;
    assert before + (run[..f] + text + run[f + length..]) + after
        == before + run[..f] + text + (run[f + length..] + after);
  }

  lemma {:induction false} ReplaceRun(runs: seq<string>, k: nat, f: nat, length: nat, text: string)
    requires k < |runs| && f + length <= |runs[k]|
    ensures Offset(runs, k) + f + length <= |Concat(runs)|
    ensures Concat(runs[k := Splice(runs[k], f, length, text)])
         == Splice(Concat(runs), Offset(runs, k) + f, length, text)
  {
    ConcatSplitAt(runs, k);
    ConcatOfUpdate(runs, k, Splice(runs[k], f, length, text));
    SpliceInTheMiddle(Concat(runs[..k]), runs[k], Concat(runs[k + 1..]), f, length, text);
  }

  lemma {:induction false} ConcatOfUpdate(runs: seq<string>, k: nat, run: string)
    requires k < |runs|
    ensures Concat(runs[k := run]) == Concat(runs[..k]) + run + Concat(runs[k + 1..])
  {
    var changed := runs[k := run];
    ConcatSplitAt(changed, k);
    assert changed[..k] == runs[..k] && changed[k + 1..] == runs[k + 1..];
  }

  /** Replacing inside run `k` replaces at that run's offset in the concatenated text. */
  lemma {:induction false} SingleRunSplice(runs: seq<string>, k: nat, target: string, text: string)
    requires k < |runs| && Find(Normalize(runs[k]), target) != -1
    ensures var f := Find(Normalize(runs[k]), target); var s := Offset(runs, k) + f;
      SplicedAt(runs, runs[k := Splice(runs[k], f, |target|, text)], target, text, s)
  {
    var f := Find(Normalize(runs[k]), target);
    OccurrenceInRun(runs, k, target, f);
    ReplaceRun(runs, k, f, |target|, text);
    assert target != "" ==> MeetsAt(runs, k, Offset(runs, k) + f, Offset(runs, k) + f + |target|);
  }

  /** The cross-run branch always meets at least two runs, so the branch for "no affected run"
      is never taken and no single run holds the whole span. */
  lemma {:induction false} CrossRunMeetsTwo(runs: seq<string>, target: string, s: nat, e: nat)
    requires OccursAt(Normalize(Concat(runs)), target, s) && target != "" && e == s + |target|
    requires FirstRunWith(runs, target) == |runs|
    ensures exists i, j :: 0 <= i < j < |runs| && MeetsAt(runs, i, s, e) && MeetsAt(runs, j, s, e)
  {
    var i, j := SpanOfTarget(runs, target, s);
    MetRunsLieBetweenTheEnds(runs, s, e, i, j, i);
    assert MeetsAt(runs, i, s, e) && MeetsAt(runs, j, s, e);
  }

  /** The run that holds position `n` of the concatenated text. */
  lemma {:induction false} RunAt(runs: seq<string>, n: nat) returns (i: nat)
    requires n < |Concat(runs)|
    ensures i < |runs| && Offset(runs, i) <= n < Offset(runs, i) + |runs[i]|
  {
    if n < |runs[0]| {
      i := 0;
    } else {
      var k := RunAt(runs[1..], n - |runs[0]|);
      i := k + 1;
      OffsetStep(runs, i);
    }
  }

  lemma {:induction false} OffsetsGrow(runs: seq<string>, i: nat, j: nat)
    requires i < |runs| && j < |runs|
    ensures i < j ==> Offset(runs, i) + |runs[i]| <= Offset(runs, j)
    ensures j < i ==> Offset(runs, j) + |runs[j]| <= Offset(runs, i)
  {
    if i < j {
      ConcatSplitAt(runs[..j], i);
      assert runs[..j][..i] == runs[..i];
    } else if j < i {
      ConcatSplitAt(runs[..i], j);
      assert runs[..i][..j] == runs[..j];
    }
  }

  /** The replaced occurrence need not be the first one: a whole occurrence inside a later run is
      preferred to an earlier one that two runs share. */
  lemma {:induction false} NotTheFirstOccurrence()
    ensures var p := Para(["ab", "c", "bc"], ["", "", "", ""]);
      && TextOf(p) == "abcbc" && Find(Normalize("abcbc"), "bc") == 1
      && WriteBack(p, "bc", "X") == p.(runs := ["ab", "c", "X"])
  {
    var p := Para(["ab", "c", "bc"], ["", "", "", ""]);
    TextOfThreeRuns();
    FoundInTheMiddle();
    FoundOnlyInTheLastRun();
    WriteBackInRun(p, "bc", "X");
    assert Splice("bc", 0, 2, "X") == "X";
    assert p.runs[2 := "X"] == ["ab", "c", "X"];
  }

  /** Where the concatenated run texts are replaced: in the first run that holds the target, else at the
      first occurrence. */
  function ReplacedAt(runs: seq<string>, target: string): int {
    var k := FirstRunWith(runs, target);
    if k < |runs| then Offset(runs, k) + Find(Normalize(runs[k]), target) else Find(Normalize(Concat(runs)), target)
  }

  /** That is where writing back splices. */
  lemma {:induction false} WriteBackReplacesThere(p: Para, target: string, text: string)
    requires WellFormed(p) && Found(p, target) && p.runs != []
    requires Find(Normalize(Concat(p.runs)), target) != -1
    ensures ReplacedAt(p.runs, target) >= 0
    ensures var q := WriteBack(p, target, text);
      |q.runs| == |p.runs| && SplicedAt(p.runs, q.runs, target, text, ReplacedAt(p.runs, target))
  {
    WriteBackToRuns(p, target, text);
    RunsAreSplicedThere(p.runs, target, text);
  }

  lemma {:induction false} RunsAreSplicedThere(runs: seq<string>, target: string, text: string)
    requires runs != [] && Find(Normalize(Concat(runs)), target) != -1
    ensures ReplacedAt(runs, target) >= 0
    ensures |RunsAfter(runs, target, text)| == |runs|
    ensures SplicedAt(runs, RunsAfter(runs, target, text), target, text, ReplacedAt(runs, target))
  {
    if FirstRunWith(runs, target) < |runs| {
      SplicedInOneRun(runs, target, text, RunsAfter(runs, target, text), ReplacedAt(runs, target));
    } else {
      TargetIsNotEmpty(runs, target);
      CrossRunSplice(runs, target, text);
    }
  }

  lemma {:induction false} SplicedInOneRun(runs: seq<string>, target: string, text: string, after: seq<string>, at: int)
    requires FirstRunWith(runs, target) < |runs| && Find(Normalize(Concat(runs)), target) != -1
    requires after == RunsAfter(runs, target, text) && at == ReplacedAt(runs, target)
    ensures at >= 0 && |after| == |runs| && SplicedAt(runs, after, target, text, at)
  {
    var k := FirstRunWith(runs, target);
    SplicedInRun(runs, k, target, text, Find(Normalize(runs[k]), target), after, at);
  }

  lemma {:induction false} SplicedInRun(
    runs: seq<string>, k: nat, target: string, text: string, f: int, after: seq<string>, at: int)
    requires k < |runs| && f == Find(Normalize(runs[k]), target) != -1
    requires after == runs[k := Splice(runs[k], f, |target|, text)] && at == Offset(runs, k) + f
    ensures at >= 0 && |after| == |runs| && SplicedAt(runs, after, target, text, at)
  {
    SingleRunSplice(runs, k, target, text);
  }

  /** The span of `length` characters at `s` lies in run `k`. */
  predicate LiesIn(runs: seq<string>, k: nat, s: int, length: nat) {
    k < |runs| && Offset(runs, k) <= s && s + length <= Offset(runs, k) + |runs[k]|
  }

  /** The replaced occurrence is the first one exactly when no run holds the target or the first one lies
      inside one run. */
  lemma {:induction false} ReplacesTheFirstExactly(runs: seq<string>, target: string)
    requires runs != [] && Find(Normalize(Concat(runs)), target) != -1
    ensures var first := Find(Normalize(Concat(runs)), target);
      ReplacedAt(runs, target) == first
      <==> FirstRunWith(runs, target) == |runs| || exists k: nat :: LiesIn(runs, k, first, |target|)
  {
    var first, k := Find(Normalize(Concat(runs)), target), FirstRunWith(runs, target);
    if k < |runs| {
      OccurrenceInRun(runs, k, target, Find(Normalize(runs[k]), target));
      if ReplacedAt(runs, target) == first {
        assert LiesIn(runs, k, first, |target|);
      }
      if j: nat :| LiesIn(runs, j, first, |target|) {
        FirstInOneRun(runs, target, j);
      }
    }
  }

  lemma {:induction false} FirstInOneRun(runs: seq<string>, target: string, j: nat)
    requires FirstRunWith(runs, target) < |runs| && Find(Normalize(Concat(runs)), target) != -1
    requires LiesIn(runs, j, Find(Normalize(Concat(runs)), target), |target|)
    ensures ReplacedAt(runs, target) == Find(Normalize(Concat(runs)), target)
  {
    if target == "" {
      EmptyTargetIsInEveryRun(runs[0]);
      EmptyTargetIsInEveryRun(Concat(runs));
    } else {
      var first, k := Find(Normalize(Concat(runs)), target), FirstRunWith(runs, target);
      HeldFromThere(runs, target, j, first);
      HeldNotBefore(runs, target, k);
      if k < j {
        OffsetsGrow(runs, k, j);
      }
    }
  }

  /** No run holds the target before the first occurrence. */
  lemma {:induction false} HeldNotBefore(runs: seq<string>, target: string, k: nat)
    requires k < |runs| && Find(Normalize(runs[k]), target) != -1 && Find(Normalize(Concat(runs)), target) != -1
    ensures Find(Normalize(Concat(runs)), target) <= Offset(runs, k) + Find(Normalize(runs[k]), target)
    ensures Find(Normalize(runs[k]), target) + |target| <= |runs[k]|
  {
    OccurrenceInRun(runs, k, target, Find(Normalize(runs[k]), target));
  }

  /** The run around an occurrence holds the target, there or before. */
  lemma {:induction false} HeldFromThere(runs: seq<string>, target: string, j: nat, s: nat)
    requires LiesIn(runs, j, s, |target|) && OccursAt(Normalize(Concat(runs)), target, s)
    ensures FirstRunWith(runs, target) <= j && 0 <= Find(Normalize(runs[j]), target) <= s - Offset(runs, j)
  {
    OccurrenceInRun(runs, j, target, s - Offset(runs, j));
  }

  lemma {:induction false} TextOfThreeRuns()
    ensures TextOf(Para(["ab", "c", "bc"], ["", "", "", ""])) == "abcbc"
  {
    assert TextOf(Para([], [""])) == "";
    assert TextOf(Para(["bc"], ["", ""])) == "bc";
    assert TextOf(Para(["c", "bc"], ["", "", ""])) == "cbc";
  }

  lemma {:induction false} FoundInTheMiddle()
    ensures Find(Normalize("abcbc"), "bc") == 1
  {
    assert Normalize("abcbc") == "abcbc";
    assert "abcbc"[0..2][0] != "bc"[0];
    assert "abcbc"[1..3] == "bc";
    assert OccursAt("abcbc", "bc", 1);
  }

  lemma {:induction false} FoundOnlyInTheLastRun()
    ensures FirstRunWith(["ab", "c", "bc"], "bc") == 2 && Find(Normalize("bc"), "bc") == 0
  {
    assert "ab"[0..2][0] != "bc"[0];
    assert Normalize("ab") == "ab" && Find("ab", "bc") == -1;
    assert Normalize("c") == "c" && Find("c", "bc") == -1;
    assert Normalize("bc") == "bc" && OccursAt("bc", "bc", 0);
    assert FirstRunWith(["bc"], "bc") == 0;
    assert FirstRunWith(["c", "bc"], "bc") == 1;
  }

  // ---------- the paragraph-level fallback ----------

  lemma {:induction false} TextOfPlain(text: string)
    ensures TextOf(Plain(text)) == text
  {
    assert TextOf(Para([], [""])) == "";
    assert Plain(text).runs[1..] == [] && Plain(text).inline[1..] == [""];
  }

  /** When the target stands in the paragraph text but not in the run texts (it needs a hyperlink's
      text), the reused start index spoils the result: it is a splice of the paragraph text only
      for a one-character target whose first occurrence is the last character. */
  lemma {:induction false} FallbackSplicesExactlyWhen(p: Para, target: string, text: string)
    requires WellFormed(p) && Found(p, target) && p.runs != []
    requires FirstRunWith(p.runs, target) == |p.runs| && Find(Normalize(Concat(p.runs)), target) == -1
    ensures IsSplice(TextOf(p), TextOf(WriteBack(p, target, text)), target, text)
       <==> |target| == 1 && Find(Normalize(TextOf(p)), target) == |TextOf(p)| - 1
  {
    var full := TextOf(p);
    var start := Find(Normalize(full), target);
    EmptyTargetIsInEveryRun(p.runs[0]);
    assert target != "";
    var after := AllButLast(full) + text + full[start + |target|..];
    assert WriteBack(p, target, text) == Plain(after);
    TextOfPlain(after);
    if |target| == 1 && start == |full| - 1 {
      assert after == Splice(full, start, |target|, text);
    }
  }

  /** For example "a" with a link "foo" behind it: replacing "foo" keeps all of the link but its last
      character. */
  lemma {:induction false} LinkTextIsMangled(text: string)
    ensures var p := Para(["a"], ["", "foo"]);
      && TextOf(p) == "afoo" && Found(p, "foo")
      && WriteBack(p, "foo", text) == Plain("afo" + text)
      && !IsSplice("afoo", "afo" + text, "foo", text)
  {
    var p := Para(["a"], ["", "foo"]);
    assert TextOf(Para([], ["foo"])) == "foo";
    assert TextOf(p) == "afoo" && Concat(["a"]) == "a";
    LinkIsFound();
    assert AllButLast("afoo") + text + "afoo"[4..] == "afo" + text;
    FallbackSplicesExactlyWhen(p, "foo", text);
    TextOfPlain("afo" + text);
  }

  lemma {:induction false} LinkIsFound()
    ensures Normalize("afoo") == "afoo" && Find(Normalize("afoo"), "foo") == 1
    ensures FirstRunWith(["a"], "foo") == 1 && Find(Normalize("a"), "foo") == -1
  {
    assert "afoo"[0..3][0] != "foo"[0];
    assert "afoo"[1..4] == "foo" && OccursAt("afoo", "foo", 1);
    assert FirstRunWith([], "foo") == 0;
  }

  /** A paragraph whose whole text is in its runs never takes that fallback: its text changes by
      exactly one splice. */
  lemma {:induction false} RunOnlyParagraphIsSpliced(p: Para, target: string, text: string)
    requires WellFormed(p) && Found(p, target)
    requires forall i :: 0 <= i < |p.inline| ==> p.inline[i] == ""
    ensures IsSplice(TextOf(p), TextOf(WriteBack(p, target, text)), target, text)
  {
    var q := WriteBack(p, target, text);
    RunOnlyText(p);
    if p.runs == [] {
      var start := Find(Normalize(TextOf(p)), target);
      TextOfPlain(Splice(TextOf(p), start, |target|, text));
    } else {
      FindDecidesContains(Normalize(Concat(p.runs)), target);
      WriteBackIsOneSplice(p, target, text);
      RunOnlyText(q);
    }
  }

  lemma {:induction false} RunOnlyText(p: Para)
    requires WellFormed(p) && forall i :: 0 <= i < |p.inline| ==> p.inline[i] == ""
    ensures TextOf(p) == Concat(p.runs)
    decreases |p.runs|
  {
    if p.runs != [] {
      RunOnlyText(Para(p.runs[1..], p.inline[1..]));
    }
  }

  // ---------- the shape the index arithmetic produces ----------

  /** `i` and `j` are the first and the last run of the span [s, e). */
  ghost predicate SpanEnds(runs: seq<string>, s: int, e: int, i: nat, j: nat) {
    && i < j < |runs|
    && Offset(runs, i) <= s < Offset(runs, i) + |runs[i]|
    && Offset(runs, j) < e <= Offset(runs, j) + |runs[j]|
  }

  /** Every run the span meets lies between its ends, and the ends are met. */
  lemma {:induction false} MetRunsLieBetweenTheEnds(runs: seq<string>, s: nat, e: nat, i: nat, j: nat, k: nat)
    requires SpanEnds(runs, s, e, i, j) && k < |runs|
    ensures MeetsAt(runs, i, s, e) && MeetsAt(runs, j, s, e)
    ensures MeetsAt(runs, k, s, e) ==> i <= k <= j
  {
    OffsetsGrow(runs, i, j);
    OffsetsGrow(runs, i, k);
    OffsetsGrow(runs, j, k);
  }

  /** The first run keeps its prefix, the last its suffix, everything between becomes empty. */
  lemma {:induction false} CutShape(runs: seq<string>, s: nat, e: nat, text: string, i: nat, j: nat, k: nat)
    requires SpanEnds(runs, s, e, i, j) && k < |runs|
    ensures CutRuns(runs, s, e, text)[k] ==
            if k < i || j < k then runs[k]
            else if k == i then runs[i][..s - Offset(runs, i)] + text
            else if k == j then runs[j][e - Offset(runs, j)..]
            else ""
    ensures i < k < j && !MeetsAt(runs, k, s, e) ==> runs[k] == ""
  {
    CutRunsAt(runs, s, e, text, k);
    OffsetsGrow(runs, i, j);
    OffsetsGrow(runs, i, k);
    OffsetsGrow(runs, j, k);
  }

  /** The edits of the cross-run branch, whatever order they were made in, are the cut. */
  lemma {:induction false} EditsAreTheCut(
    before: seq<string>, after: seq<string>, affected: seq<nat>, s: nat, e: nat, text: string, i: nat, j: nat)
    requires SpanEnds(before, s, e, i, j) && |after| == |before|
    requires forall k :: 0 <= k < |before| ==> (k in affected <==> MeetsAt(before, k, s, e))
    requires after[i] == before[i][..s - Offset(before, i)] + text
    requires after[j] == before[j][e - Offset(before, j)..]
    requires forall k :: 0 <= k < |before| && k !in affected ==> after[k] == before[k]
    requires forall k :: 0 <= k < |before| && k in affected && k != i && k != j ==> after[k] == ""
    ensures after == CutRuns(before, s, e, text)
  {
    forall k | 0 <= k < |before|
      ensures after[k] == CutRuns(before, s, e, text)[k]
    {
      CutShape(before, s, e, text, i, j, k);
      MetRunsLieBetweenTheEnds(before, s, e, i, j, k);
    }
  }

  // ---------- the paragraph as an object ----------

  class Paragraph {
    var runs: array<string>
    var inline: seq<string>

    ghost predicate Valid()
      reads this
    {
      |inline| == runs.Length + 1
    }

    function Value(): Para
      reads this, runs
    {
      Para(runs[..], inline)
    }

    constructor (texts: seq<string>, around: seq<string>)
      requires |around| == |texts| + 1
      ensures Valid() && fresh(runs) && Value() == Para(texts, around)
    {
      runs := new string[|texts|](i requires 0 <= i < |texts| => texts[i]);
      inline := around;
    }

    /** `paragraph.text = text`. */
    method SetText(text: string)
      modifies this
      ensures Valid() && fresh(runs) && Value() == Plain(text)
    {
      runs := new string[] [text];
      inline := ["", ""];
    }

    /** `_replace_text_in_paragraph`. */
    method ReplaceText(original: string, tailored: string) returns (applied: bool)
      requires Valid()
      modifies this, runs
      ensures Valid() && (runs == old(runs) || fresh(runs))
      ensures !applied ==> runs == old(runs)
      ensures applied == old(Matches(Value(), original, tailored))
      ensures Value() == old(Replaced(Value(), original, tailored))
    {
      var text := StripLeadingBullet(tailored);
      if original == "" || original == text {
        return false;
      }
      var full := TextOf(Value());
      if full == "" || Strip(full) == "" {
        return false;
      }
      var bare := StripMarkers(original);
      var target := Normalize(bare);
      var start := Find(Normalize(full), target);
      if start == -1 {
        return false;
      }
      WriteBackInPlace(full, start, target, text);
      return true;
    }

    /** Everything after the match: the run that holds the target, the runs that share it, or the
        whole paragraph. */
    method WriteBackInPlace(full: string, start: nat, target: string, text: string)
      requires Valid() && full == TextOf(Value()) && Found(Value(), target)
      requires start == Find(Normalize(full), target)
      modifies this, runs
      ensures Valid() && (runs == old(runs) || fresh(runs))
      ensures Value() == old(WriteBack(Value(), target, text))
    {
      if runs.Length == 0 {
        SetText(full[..start] + text + full[start + |target|..]);
        return;
      }
      var done := ReplaceInOneRun(target, text);
      if done {
        return;
      }
      var combined := Concat(runs[..]);
      var s := Find(Normalize(combined), target);
      if s == -1 {
        SetText(AllButLast(full) + text + full[start + |target|..]);
        return;
      }
      TargetIsNotEmpty(runs[..], target);
      CutSpan(target, text, s);
    }

    /** The loop that looks for one run holding the whole target. */
    method ReplaceInOneRun(target: string, text: string) returns (done: bool)
      modifies runs
      ensures done <==> old(FirstRunWith(runs[..], target)) < runs.Length
      ensures !done ==> runs[..] == old(runs[..])
      ensures done ==>
          var before := old(runs[..]); var k := FirstRunWith(before, target);
          runs[..] == before[k := Splice(before[k], Find(Normalize(before[k]), target), |target|, text)]
    {
      var k := 0;
      while k < runs.Length
        invariant k <= runs.Length && runs[..] == old(runs[..])
        invariant forall i :: 0 <= i < k ==> Find(Normalize(runs[i]), target) == -1
      {
        var runStart := Find(Normalize(runs[k]), target);
        if runStart != -1 {
          FirstRunIs(runs[..], target, k);
          runs[k] := runs[k][..runStart] + text + runs[k][runStart + |target|..];
          return true;
        }
        k := k + 1;
      }
      FirstRunIs(runs[..], target, runs.Length);
      return false;
    }

    /** The cross-run branch: the ranges of the runs, the affected ones, and the edits. */
    method CutSpan(target: string, text: string, s: nat)
      requires Valid() && target != ""
      requires OccursAt(Normalize(Concat(runs[..])), target, s)
      requires FirstRunWith(runs[..], target) == runs.Length
      modifies runs
      ensures runs[..] == old(CutRuns(runs[..], s, s + |target|, text))
    {
      ghost var i, j := SpanOfTarget(runs[..], target, s);
      CutBetween(s, s + |target|, text, i, j);
    }

    method CutBetween(s: nat, e: nat, text: string, ghost i: nat, ghost j: nat)
      requires Valid() && SpanEnds(runs[..], s, e, i, j)
      modifies runs
      ensures runs[..] == old(CutRuns(runs[..], s, e, text))
    {
      var ranges := RunRanges();
      var affected := AffectedRuns(ranges, s, e, i, j);
      // `if not affected_runs` is never taken: the span meets both of its ends.
      CutAffected(ranges, affected, s, e, text, i, j);
    }

    method CutAffected(ranges: seq<(nat, nat, nat)>, affected: seq<nat>, s: nat, e: nat, text: string,
                       ghost i: nat, ghost j: nat)
      requires Valid() && SpanEnds(runs[..], s, e, i, j) && |ranges| == runs.Length
      requires ranges[i].1 == Offset(runs[..], i) && ranges[j].1 == Offset(runs[..], j)
      requires |affected| >= 2 && affected[0] == i && affected[|affected| - 1] == j
      requires forall k :: 0 <= k < runs.Length ==> (k in affected <==> MeetsAt(runs[..], k, s, e))
      requires forall m, n :: 0 <= m < n < |affected| ==> affected[m] < affected[n]
      requires forall m :: 0 <= m < |affected| ==> affected[m] < runs.Length
      modifies runs
      ensures runs[..] == old(CutRuns(runs[..], s, e, text))
    {
      ghost var before := runs[..];
      var first, last := affected[0], affected[|affected| - 1];
      var prefix := runs[first][..s - ranges[first].1];
      var suffix := runs[last][e - ranges[last].1..];
      WriteSpan(affected, prefix, suffix, text);
      EditsAreTheCut(before, runs[..], affected, s, e, text, i, j);
    }

    /** The edits of the affected runs. */
    method WriteSpan(affected: seq<nat>, prefix: string, suffix: string, text: string)
      requires |affected| >= 2
      requires forall m, n :: 0 <= m < n < |affected| ==> affected[m] < affected[n]
      requires forall m :: 0 <= m < |affected| ==> affected[m] < runs.Length
      modifies runs
      ensures runs[affected[0]] == prefix + text
      ensures runs[affected[|affected| - 1]] == suffix
      ensures forall k :: 0 <= k < runs.Length && k !in affected ==> runs[k] == old(runs[k])
      ensures forall k :: 0 <= k < runs.Length && k in affected && k != affected[0] && k != affected[|affected| - 1]
                ==> runs[k] == ""
    {
      var first, last := affected[0], affected[|affected| - 1];
      runs[first] := prefix + text + (if first == last then suffix else "");
      var n := 1;
      while n < |affected|
        invariant 1 <= n <= |affected|
        invariant runs[first] == prefix + text
        invariant forall k :: 0 <= k < runs.Length && k !in affected ==> runs[k] == old(runs[k])
        invariant forall m :: 1 <= m < n ==> runs[affected[m]] == if affected[m] == last then suffix else ""
      {
        if affected[n] == last && first != last {
          runs[affected[n]] := suffix;
        } else {
          runs[affected[n]] := "";
        }
        n := n + 1;
      }
    }

    method RunRanges() returns (ranges: seq<(nat, nat, nat)>)
      requires Valid()
      ensures |ranges| == runs.Length
      ensures forall k :: 0 <= k < |ranges| ==>
                ranges[k] == (k, Offset(runs[..], k), Offset(runs[..], k) + |runs[k]|)
    {
      ranges := [];
      var length := 0;
      var k := 0;
      while k < runs.Length
        invariant k == |ranges| <= runs.Length && length == Offset(runs[..], k)
        invariant forall i :: 0 <= i < k ==>
                    ranges[i] == (i, Offset(runs[..], i), Offset(runs[..], i) + |runs[i]|)
      {
        ConcatSplitAt(runs[..], k);
        var from := length;
        length := length + |runs[k]|;
        ranges := ranges + [(k, from, length)];
        k := k + 1;
      }
    }

    method AffectedRuns(ranges: seq<(nat, nat, nat)>, s: nat, e: nat, ghost i: nat, ghost j: nat)
      returns (affected: seq<nat>)
      requires Valid() && SpanEnds(runs[..], s, e, i, j)
      requires |ranges| == runs.Length
      requires forall k :: 0 <= k < |ranges| ==>
                 ranges[k] == (k, Offset(runs[..], k), Offset(runs[..], k) + |runs[k]|)
      ensures |affected| >= 2 && affected[0] == i && affected[|affected| - 1] == j
      ensures forall k :: 0 <= k < runs.Length ==> (k in affected <==> MeetsAt(runs[..], k, s, e))
      ensures forall m, n :: 0 <= m < n < |affected| ==> affected[m] < affected[n]
      ensures forall m :: 0 <= m < |affected| ==> affected[m] < runs.Length
    {
      affected := [];
      var k := 0;
      while k < |ranges|
        invariant k <= |ranges|
        invariant forall m :: 0 <= m < |affected| ==> affected[m] < k
        invariant forall m, n :: 0 <= m < n < |affected| ==> affected[m] < affected[n]
        invariant forall r :: 0 <= r < k ==> (r in affected <==> MeetsAt(runs[..], r, s, e))
      {
        var (index, from, to) := ranges[k];
        if (if from > s then from else s) < (if to < e then to else e) {
          affected := affected + [index];
        }
        k := k + 1;
      }
      MetRunsLieBetweenTheEnds(runs[..], s, e, i, j, i);
      assert i in affected && j in affected;
      forall m | 0 <= m < |affected| ensures i <= affected[m] <= j {
        MetRunsLieBetweenTheEnds(runs[..], s, e, i, j, affected[m]);
      }
    }
  }

  /** The first and the last run of a target that no single run holds. */
  lemma {:induction false} SpanOfTarget(runs: seq<string>, target: string, s: nat) returns (i: nat, j: nat)
    requires OccursAt(Normalize(Concat(runs)), target, s) && target != ""
    requires FirstRunWith(runs, target) == |runs|
    ensures SpanEnds(runs, s, s + |target|, i, j)
  {
    i := RunAt(runs, s);
    j := RunAt(runs, s + |target| - 1);
    if i == j {
      OccurrenceInRun(runs, i, target, s - Offset(runs, i));
      assert false;
    }
    OffsetsGrow(runs, i, j);
  }

  /** The prefix loop over the target's list markers. */
  method StripMarkers(original: string) returns (bare: string)
    ensures Normalize(bare) == TargetOf(original)
  {
    bare := Strip(original);
    var i := 0;
    while i < |TARGET_PREFIXES|
      invariant i <= |TARGET_PREFIXES|
      invariant StripEach(bare, TARGET_PREFIXES[i..]) == StripEach(Strip(original), TARGET_PREFIXES)
    {
      if StartsWith(bare, TARGET_PREFIXES[i]) {
        bare := Strip(bare[|TARGET_PREFIXES[i]|..]);
      }
      i := i + 1;
    }
  }

  lemma {:induction false} FirstRunIs(runs: seq<string>, target: string, k: nat)
    requires k <= |runs|
    requires forall i :: 0 <= i < k ==> Find(Normalize(runs[i]), target) == -1
    requires k < |runs| ==> Find(Normalize(runs[k]), target) != -1
    ensures FirstRunWith(runs, target) == k
  {
    var found := FirstRunWith(runs, target);
  }
}

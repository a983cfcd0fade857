/** The tailoring graph (`agent/graph.py`) with the files its nodes write: facts before pixels. */
module Graph {
  import opened Wrappers

  datatype Node = AdaptText | VerifyDocument | Render | VisionCheck | Persist | Ended | Failed

  /** What a run does to its files, in order. A version is the number of times the DOCX was written;
      a scan is recorded with its outcome. */
  datatype Act =
    | Wrote(v: nat)
    | Scanned(v: nat, clean: bool)
    | Rendered(v: nat)
    | Judged(v: nat)
    | UploadedPdf(v: nat)
    | UploadedDocx(v: nat)

  /** `docx` is the version at the output path and `pdfFile` the version the rendered PDF shows;
      `pdfPath` says whether the state names that PDF, `skipped` is the early stop's status hint. */
  datatype Run = Run(
    node: Node,
    revision: nat,
    approved: bool,
    skipped: bool,
    docx: Option<nat>,
    pdfFile: Option<nat>,
    pdfPath: bool,
    writes: nat,
    acts: seq<Act>)

  /** A fresh run; an older file may lie at the output path. */
  predicate Starts(g: Run) {
    && g.node == AdaptText && g.revision == 0 && !g.approved && !g.skipped
    && (g.docx == None || g.docx == Some(0)) && !g.pdfPath && g.pdfFile == None
    && g.writes == 0 && g.acts == []
  }

  /** How the current node's work ends; `FileLost` is somebody else removing the DOCX. */
  datatype Event =
    | Raises
    | SaveBreaks
    | Adapts(applied: nat)
    | Verifies(clean: bool)
    | ImagesBreak
    | Renders
    | Judges(ok: bool)
    | UploadBreaks(pdfDone: bool)
    | Persists
    | FileLost

  predicate Enabled(g: Run, e: Event) {
    match e
    case FileLost => true
    case Raises => g.node != Ended && g.node != Failed
    case SaveBreaks => g.node == AdaptText
    case Adapts(_) => g.node == AdaptText
    case Verifies(_) => g.node == VerifyDocument
    case ImagesBreak => g.node == Render && g.docx.Some?
    case Renders => g.node == Render && g.docx.Some?
    case Judges(_) => g.node == VisionCheck && g.pdfFile.Some?
    case UploadBreaks(_) => g.node == Persist
    case Persists => g.node == Persist
  }

  /** `check_after_verify`. */
  function CheckAfterVerify(g: Run): Node {
    if g.approved then Persist else Render
  }

  /** `should_continue`. */
  function ShouldContinue(approved: bool, revision: nat, maxRevisions: int): Node {
    if approved || revision >= maxRevisions then Persist else AdaptText
  }

  function WriteDocx(g: Run): Run {
    g.(docx := Some(g.writes + 1), writes := g.writes + 1, acts := g.acts + [Wrote(g.writes + 1)])
  }

  /** `adapt_text`: the document is saved even when no replacement could be applied. */
  function Adapted(g: Run, applied: nat): Run {
    var w := WriteDocx(g).(node := VerifyDocument, revision := g.revision + 1);
    if applied == 0 then w.(approved := true, skipped := true) else w
  }

  /** `verify_document`: without a file there is nothing to scan. */
  function Verified(g: Run, clean: bool): Run {
    if g.docx.None? then g.(node := CheckAfterVerify(g))
    else
      g.(node := if clean then CheckAfterVerify(g) else Failed,
         acts := g.acts + [Scanned(g.docx.value, clean)])
  }

  function Drawn(g: Run): Run
    requires g.docx.Some?
  {
    g.(pdfFile := g.docx, acts := g.acts + [Rendered(g.docx.value)])
  }

  function PdfUpload(g: Run): seq<Act> {
    if g.pdfPath && g.pdfFile.Some? then [UploadedPdf(g.pdfFile.value)] else []
  }

  function DocxUpload(g: Run): seq<Act> {
    if g.docx.Some? then [UploadedDocx(g.docx.value)] else []
  }

  function Next(g: Run, e: Event, maxRevisions: int): Run
    requires Enabled(g, e)
  {
    match e
    case FileLost => g.(docx := None)
    case Raises => g.(node := Failed)
    case SaveBreaks => WriteDocx(g).(node := Failed)
    case Adapts(applied) => Adapted(g, applied)
    case Verifies(clean) => Verified(g, clean)
    case ImagesBreak => Drawn(g).(node := Failed)
    case Renders => Drawn(g).(node := VisionCheck, pdfPath := true)
    case Judges(ok) =>
      g.(node := ShouldContinue(ok, g.revision, maxRevisions), approved := ok,
         acts := g.acts + [Judged(g.pdfFile.value)])
    case UploadBreaks(pdfDone) => g.(node := Failed, acts := g.acts + if pdfDone then PdfUpload(g) else [])
    case Persists => g.(node := Ended, acts := g.acts + PdfUpload(g) + DocxUpload(g))
  }

  predicate Allowed(g: Run, events: seq<Event>, maxRevisions: int)
    decreases |events|
  {
    events == []
    || (Enabled(g, events[0]) && Allowed(Next(g, events[0], maxRevisions), events[1..], maxRevisions))
  }

  function After(g: Run, events: seq<Event>, maxRevisions: int): Run
    requires Allowed(g, events, maxRevisions)
    decreases |events|
  {
    if events == [] then g else After(Next(g, events[0], maxRevisions), events[1..], maxRevisions)
  }

  // ---------- facts before pixels ----------

  /** The version that was scanned clean since the last write, if any. */
  function StandingScan(acts: seq<Act>): Option<nat> {
    if acts == [] then None
    else
      var last := acts[|acts| - 1];
      if last.Wrote? then None
      else if last.Scanned? then (if last.clean then Some(last.v) else None)
      else StandingScan(acts[..|acts| - 1])
  }

  /** Act `k` is covered: what is rendered, judged or uploaded was scanned clean since the last write;
      an uploaded PDF shows a version that was scanned clean. */
  ghost predicate Covered(acts: seq<Act>, k: nat)
    requires k < |acts|
  {
    match acts[k]
    case Wrote(_) => true
    case Scanned(_, _) => true
    case Rendered(v) => StandingScan(acts[..k]) == Some(v)
    case Judged(v) => StandingScan(acts[..k]) == Some(v)
    case UploadedDocx(v) => StandingScan(acts[..k]) == Some(v)
    case UploadedPdf(v) => Scanned(v, true) in acts[..k]
  }

  ghost predicate FactsBeforePixels(acts: seq<Act>) {
    forall k :: 0 <= k < |acts| ==> Covered(acts, k)
  }

  predicate PastTheGate(n: Node) {
    n == Render || n == VisionCheck || n == Persist
  }

  ghost predicate Inv(g: Run, maxRevisions: int) {
    && FactsBeforePixels(g.acts)
    && (PastTheGate(g.node) && g.docx.Some? ==> StandingScan(g.acts) == g.docx && g.docx == Some(g.writes))
    && (g.node == VisionCheck ==> g.pdfPath && g.pdfFile == Some(g.writes)
                                  && StandingScan(g.acts) == g.pdfFile)
    && (g.pdfPath && g.pdfFile.Some? ==> Scanned(g.pdfFile.value, true) in g.acts)
    && (g.node == VerifyDocument && g.docx.Some? ==> g.docx == Some(g.writes))
    && Counted(g, maxRevisions) && Paired(g)
  }

  /** The revisions so far. */
  ghost predicate Counted(g: Run, maxRevisions: int) {
    && g.revision <= Max(1, maxRevisions)
    && (g.node == AdaptText ==> g.revision < Max(1, maxRevisions))
    && (if g.node == Failed then g.writes <= Max(1, maxRevisions) else g.writes == g.revision)
  }

  /** Which PDF goes with the DOCX. */
  ghost predicate Paired(g: Run) {
    && (g.node == AdaptText || g.node == Render || g.node == VisionCheck ==> !g.skipped)
    && (g.node == AdaptText || g.node == Render ==> !g.approved)
    && (g.node == VerifyDocument ==> g.skipped == g.approved)
    && (g.node == AdaptText ==> ShowsRevision(g, g.writes))
    && (g.node == VisionCheck ==> g.writes > 0)
    && (g.node == VerifyDocument || g.node == Render ==> g.writes > 0 && ShowsRevision(g, g.writes - 1))
    && ((g.node == Persist || g.node == Ended) ==>
          g.writes > 0 && ShowsRevision(g, if g.skipped then g.writes - 1 else g.writes))
  }

  /** The state names a PDF of version `v`; of version 0 there is none. */
  ghost predicate ShowsRevision(g: Run, v: nat) {
    if v == 0 then !g.pdfPath else g.pdfPath && g.pdfFile == Some(v)
  }

  lemma {:induction false} OneMoreAct(acts: seq<Act>, a: Act)
    requires FactsBeforePixels(acts) && Covered(acts + [a], |acts|)
    ensures FactsBeforePixels(acts + [a])
    ensures (acts + [a])[..|acts|] == acts
  {
    var more := acts + [a];
    assert more[..|acts|] == acts;
    forall k | 0 <= k < |acts|
      ensures Covered(more, k)
    {
      assert more[..k] == acts[..k];
      assert Covered(acts, k);
    }
  }

  lemma {:induction false} BreakKeepsInv(g: Run, e: Event, maxRevisions: int)
    requires Inv(g, maxRevisions) && Enabled(g, e) && (e.FileLost? || e.Raises?)
    ensures Inv(Next(g, e, maxRevisions), maxRevisions)
  {
  }

  lemma {:induction false} WriteKeepsInv(g: Run, e: Event, maxRevisions: int)
    requires Inv(g, maxRevisions) && Enabled(g, e) && (e.SaveBreaks? || e.Adapts?)
    ensures Inv(Next(g, e, maxRevisions), maxRevisions)
  {
    OneMoreAct(g.acts, Wrote(g.writes + 1));
  }

  lemma {:induction false} ScanKeepsInv(g: Run, clean: bool, maxRevisions: int)
    requires Inv(g, maxRevisions) && Enabled(g, Verifies(clean))
    ensures Inv(Next(g, Verifies(clean), maxRevisions), maxRevisions)
  {
    if g.docx.Some? {
      OneMoreAct(g.acts, Scanned(g.docx.value, clean));
    }
  }

  lemma {:induction false} RenderKeepsInv(g: Run, e: Event, maxRevisions: int)
    requires Inv(g, maxRevisions) && Enabled(g, e) && (e.ImagesBreak? || e.Renders?)
    ensures Inv(Next(g, e, maxRevisions), maxRevisions)
  {
    RenderIsCovered(g);
  }

  lemma {:induction false} VerdictKeepsInv(g: Run, ok: bool, maxRevisions: int)
    requires Inv(g, maxRevisions) && Enabled(g, Judges(ok))
    ensures Inv(Next(g, Judges(ok), maxRevisions), maxRevisions)
  {
    assert (g.acts + [Judged(g.pdfFile.value)])[..|g.acts|] == g.acts;
    OneMoreAct(g.acts, Judged(g.pdfFile.value));
  }

  lemma {:induction false} UploadKeepsInv(g: Run, e: Event, maxRevisions: int)
    requires Inv(g, maxRevisions) && Enabled(g, e) && (e.UploadBreaks? || e.Persists?)
    ensures Inv(Next(g, e, maxRevisions), maxRevisions)
  {
    if e.UploadBreaks? {
      PdfUploadIsCovered(g);
    } else {
      UploadsAreCovered(g);
    }
  }

  /** Every node, and everything that can go wrong in it, keeps the invariant. */
  lemma {:induction false} StepKeepsInv(g: Run, e: Event, maxRevisions: int)
    requires Inv(g, maxRevisions) && Enabled(g, e)
    ensures Inv(Next(g, e, maxRevisions), maxRevisions)
  {
    match e
    case FileLost => BreakKeepsInv(g, e, maxRevisions);
    case Raises => BreakKeepsInv(g, e, maxRevisions);
    case SaveBreaks => WriteKeepsInv(g, e, maxRevisions);
    case Adapts(_) => WriteKeepsInv(g, e, maxRevisions);
    case Verifies(clean) => ScanKeepsInv(g, clean, maxRevisions);
    case ImagesBreak => RenderKeepsInv(g, e, maxRevisions);
    case Renders => RenderKeepsInv(g, e, maxRevisions);
    case Judges(ok) => VerdictKeepsInv(g, ok, maxRevisions);
    case UploadBreaks(_) => UploadKeepsInv(g, e, maxRevisions);
    case Persists => UploadKeepsInv(g, e, maxRevisions);
  }

  lemma {:induction false} RenderIsCovered(g: Run)
    requires FactsBeforePixels(g.acts) && g.docx.Some? && StandingScan(g.acts) == g.docx
    ensures FactsBeforePixels(Drawn(g).acts) && StandingScan(Drawn(g).acts) == g.docx
    ensures Scanned(g.docx.value, true) in Drawn(g).acts
  {
    var a := Rendered(g.docx.value);
    assert (g.acts + [a])[..|g.acts|] == g.acts;
    OneMoreAct(g.acts, a);
    StandingIsRecorded(g.acts);
  }

  lemma {:induction false} StandingIsRecorded(acts: seq<Act>)
    ensures StandingScan(acts).Some? ==> Scanned(StandingScan(acts).value, true) in acts
  {
    if acts != [] {
      StandingIsRecorded(acts[..|acts| - 1]);
    }
  }

  lemma {:induction false} PdfUploadIsCovered(g: Run)
    requires FactsBeforePixels(g.acts)
    requires g.pdfPath && g.pdfFile.Some? ==> Scanned(g.pdfFile.value, true) in g.acts
    ensures FactsBeforePixels(g.acts + PdfUpload(g)) && StandingScan(g.acts + PdfUpload(g)) == StandingScan(g.acts)
    ensures forall a :: a in g.acts ==> a in g.acts + PdfUpload(g)
    ensures g.acts + [] == g.acts
  {
    if g.pdfPath && g.pdfFile.Some? {
      var a := UploadedPdf(g.pdfFile.value);
      assert (g.acts + [a])[..|g.acts|] == g.acts;
      OneMoreAct(g.acts, a);
    } else {
      assert g.acts + [] == g.acts;
    }
  }

  lemma {:induction false} UploadsAreCovered(g: Run)
    requires FactsBeforePixels(g.acts)
    requires g.pdfPath && g.pdfFile.Some? ==> Scanned(g.pdfFile.value, true) in g.acts
    requires g.docx.Some? ==> StandingScan(g.acts) == g.docx
    ensures FactsBeforePixels(g.acts + PdfUpload(g) + DocxUpload(g))
    ensures forall a :: a in g.acts ==> a in g.acts + PdfUpload(g) + DocxUpload(g)
  {
    PdfUploadIsCovered(g);
    var acts := g.acts + PdfUpload(g);
    if g.docx.Some? {
      var a := UploadedDocx(g.docx.value);
      assert (acts + [a])[..|acts|] == acts;
      OneMoreAct(acts, a);
    } else {
      assert acts + [] == acts;
    }
  }

  lemma {:induction false} RunKeepsInv(g: Run, events: seq<Event>, maxRevisions: int)
    requires Inv(g, maxRevisions) && Allowed(g, events, maxRevisions)
    ensures Inv(After(g, events, maxRevisions), maxRevisions)
    decreases |events|
  {
    if events != [] {
      StepKeepsInv(g, events[0], maxRevisions);
      RunKeepsInv(Next(g, events[0], maxRevisions), events[1..], maxRevisions);
    }
  }

  /** Over every run nothing is rendered, judged or uploaded that was not scanned clean since it was
      last written, and the document is written at most `max(1, MAX_REVISIONS)` times. */
  lemma {:induction false} NothingUnscannedGetsOut(g: Run, events: seq<Event>, maxRevisions: int)
    requires Starts(g) && Allowed(g, events, maxRevisions)
    ensures var t := After(g, events, maxRevisions);
      && FactsBeforePixels(t.acts)
      && t.revision <= Max(1, maxRevisions) && t.writes <= Max(1, maxRevisions)
  {
    RunKeepsInv(g, events, maxRevisions);
  }

  // ---------- which PDF goes with which DOCX ----------

  /** A PDF of one version and a DOCX of another were uploaded. */
  ghost predicate Mismatched(acts: seq<Act>) {
    exists v, w :: UploadedPdf(v) in acts && UploadedDocx(w) in acts && v != w
  }

  ghost predicate NothingUploaded(acts: seq<Act>) {
    forall a :: a in acts ==> !a.UploadedPdf? && !a.UploadedDocx?
  }

  /** Before `persist` nothing is uploaded; after it the two artifacts differ exactly when an early stop
      came after an earlier revision had been rendered. */
  ghost predicate Published(g: Run) {
    && (g.node != Ended && g.node != Failed ==> NothingUploaded(g.acts))
    && (g.node == Ended ==>
          (Mismatched(g.acts) <==> UploadedDocx(g.writes) in g.acts && g.skipped && g.revision > 1))
  }

  lemma {:induction false} StepKeepsPublished(g: Run, e: Event, maxRevisions: int)
    requires Inv(g, maxRevisions) && Published(g) && Enabled(g, e)
    ensures Published(Next(g, e, maxRevisions))
  {
    if e.Persists? {
      PersistPairs(g, maxRevisions);
    }
  }

  lemma {:induction false} PersistPairs(g: Run, maxRevisions: int)
    requires Inv(g, maxRevisions) && Published(g) && g.node == Persist
    ensures Published(Next(g, Persists, maxRevisions))
  {
    var acts := g.acts + PdfUpload(g) + DocxUpload(g);
    forall a | a in acts && (a.UploadedPdf? || a.UploadedDocx?)
      ensures a in PdfUpload(g) || a in DocxUpload(g)
    {
      assert a !in g.acts;
    }
    if g.docx.Some? {
      assert DocxUpload(g)[0] == UploadedDocx(g.writes) && UploadedDocx(g.writes) in acts;
      if g.pdfPath {
        assert PdfUpload(g)[0] == UploadedPdf(g.pdfFile.value) && UploadedPdf(g.pdfFile.value) in acts;
      }
    }
  }

  lemma {:induction false} RunKeepsPublished(g: Run, events: seq<Event>, maxRevisions: int)
    requires Inv(g, maxRevisions) && Published(g) && Allowed(g, events, maxRevisions)
    ensures Published(After(g, events, maxRevisions))
    decreases |events|
  {
    if events != [] {
      StepKeepsInv(g, events[0], maxRevisions);
      StepKeepsPublished(g, events[0], maxRevisions);
      RunKeepsPublished(Next(g, events[0], maxRevisions), events[1..], maxRevisions);
    }
  }

  /** The uploaded PDF shows the uploaded DOCX exactly unless the graph stopped early (nothing could be
      applied) in a later revision: then the PDF is an earlier revision's. */
  lemma {:induction false} UploadsMatchUnless(g: Run, events: seq<Event>, maxRevisions: int)
    requires Starts(g) && Allowed(g, events, maxRevisions) && After(g, events, maxRevisions).node == Ended
    ensures var t := After(g, events, maxRevisions);
      Mismatched(t.acts) <==> UploadedDocx(t.writes) in t.acts && t.skipped && t.revision > 1
  {
    RunKeepsPublished(g, events, maxRevisions);
  }

  /** That edge is reachable: one rejected revision, then a model that proposes nothing usable. */
  lemma {:induction false} StalePdfIsUploaded(maxRevisions: int)
    requires maxRevisions >= 2
    ensures var g := Run(AdaptText, 0, false, false, None, None, false, 0, []);
      var events := [Adapts(1), Verifies(true), Renders, Judges(false), Adapts(0), Verifies(true), Persists];
      && Starts(g) && Allowed(g, events, maxRevisions)
      && UploadedPdf(1) in After(g, events, maxRevisions).acts
      && UploadedDocx(2) in After(g, events, maxRevisions).acts
  {
    var g := Run(AdaptText, 0, false, false, None, None, false, 0, []);
    var first := [Adapts(1), Verifies(true), Renders, Judges(false)];
    var second := [Adapts(0), Verifies(true), Persists];
    var mid := Run(AdaptText, 1, false, false, Some(1), Some(1), true, 1,
                   [Wrote(1), Scanned(1, true), Rendered(1), Judged(1)]);
    FirstRevisionRejected(g, mid, maxRevisions);
    SecondStopsEarly(mid, maxRevisions);
    AfterConcat(g, first, second, maxRevisions);
    assert first + second == [Adapts(1), Verifies(true), Renders, Judges(false), Adapts(0), Verifies(true), Persists];
  }

  lemma {:induction false} FirstRevisionRejected(g: Run, mid: Run, maxRevisions: int)
    requires maxRevisions >= 2 && g == Run(AdaptText, 0, false, false, None, None, false, 0, [])
    requires mid == Run(AdaptText, 1, false, false, Some(1), Some(1), true, 1,
                        [Wrote(1), Scanned(1, true), Rendered(1), Judged(1)])
    ensures var events := [Adapts(1), Verifies(true), Renders, Judges(false)];
      Allowed(g, events, maxRevisions) && After(g, events, maxRevisions) == mid
  {
    var events := [Adapts(1), Verifies(true), Renders, Judges(false)];
    var g1 := Next(g, events[0], maxRevisions);
    var g2 := Next(g1, events[1], maxRevisions);
    var g3 := Next(g2, events[2], maxRevisions);
    var g4 := Next(g3, events[3], maxRevisions);
    assert events[1..] == [Verifies(true), Renders, Judges(false)];
    assert events[1..][1..] == [Renders, Judges(false)];
    assert events[1..][1..][1..] == [Judges(false)];
    assert g4 == mid;
    assert After(g3, [Judges(false)], maxRevisions) == g4;
    assert After(g2, events[1..][1..], maxRevisions) == g4;
  }

  lemma {:induction false} SecondStopsEarly(mid: Run, maxRevisions: int)
    requires mid == Run(AdaptText, 1, false, false, Some(1), Some(1), true, 1,
                        [Wrote(1), Scanned(1, true), Rendered(1), Judged(1)])
    ensures var events := [Adapts(0), Verifies(true), Persists];
      && Allowed(mid, events, maxRevisions)
      && UploadedPdf(1) in After(mid, events, maxRevisions).acts
      && UploadedDocx(2) in After(mid, events, maxRevisions).acts
  {
    var events := [Adapts(0), Verifies(true), Persists];
    var g1 := Next(mid, events[0], maxRevisions);
    var g2 := Next(g1, events[1], maxRevisions);
    var g3 := Next(g2, events[2], maxRevisions);
    assert events[1..] == [Verifies(true), Persists];
    assert events[1..][1..] == [Persists];
    assert After(g2, [Persists], maxRevisions) == g3;
    assert After(g1, events[1..], maxRevisions) == g3;
    assert g3.acts == g2.acts + [UploadedPdf(1)] + [UploadedDocx(2)];
  }

  lemma {:induction false} AfterConcat(g: Run, a: seq<Event>, b: seq<Event>, maxRevisions: int)
    requires Allowed(g, a, maxRevisions) && Allowed(After(g, a, maxRevisions), b, maxRevisions)
    ensures Allowed(g, a + b, maxRevisions)
    ensures After(g, a + b, maxRevisions) == After(After(g, a, maxRevisions), b, maxRevisions)
    decreases |a|
  {
    if a == [] {
      assert a + b == b;
    } else {
      assert (a + b)[1..] == a[1..] + b;
      AfterConcat(Next(g, a[0], maxRevisions), a[1..], b, maxRevisions);
    }
  }

  // ---------- every run ends ----------

  function Rank(n: Node): nat {
    match n
    case AdaptText => 5
    case VerifyDocument => 4
    case Render => 3
    case VisionCheck => 2
    case Persist => 1
    case Ended => 0
    case Failed => 0
  }

  /** What is left to do: whole revisions, then nodes. */
  function Left(g: Run, maxRevisions: int): int {
    4 * (Max(1, maxRevisions) - g.revision) + (if g.node == AdaptText then 1 else Rank(g.node))
  }

  /** Every step of the graph brings its end closer; losing the file changes nothing. */
  lemma {:induction false} StepsBringTheEnd(g: Run, e: Event, maxRevisions: int)
    requires Inv(g, maxRevisions) && Enabled(g, e)
    ensures var t := Next(g, e, maxRevisions);
      0 <= Left(t, maxRevisions) && Left(t, maxRevisions) + (if e.FileLost? then 0 else 1) <= Left(g, maxRevisions)
  {
    StepKeepsInv(g, e, maxRevisions);
  }

  function Steps(events: seq<Event>): nat {
    if events == [] then 0 else (if events[0].FileLost? then 0 else 1) + Steps(events[1..])
  }

  /** A run takes at most `4 * max(1, MAX_REVISIONS) + 1` node executions. */
  lemma {:induction false} RunsAreShort(g: Run, events: seq<Event>, maxRevisions: int)
    requires Inv(g, maxRevisions) && Allowed(g, events, maxRevisions)
    ensures Steps(events) <= Left(g, maxRevisions)
    ensures Starts(g) ==> Steps(events) <= 4 * Max(1, maxRevisions) + 1
    decreases |events|
  {
    if events != [] {
      StepKeepsInv(g, events[0], maxRevisions);
      StepsBringTheEnd(g, events[0], maxRevisions);
      RunsAreShort(Next(g, events[0], maxRevisions), events[1..], maxRevisions);
    }
  }
}

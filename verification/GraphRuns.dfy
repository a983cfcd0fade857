/** How runs of the tailoring graph end (`agent/graph.py`): exactly when they fail, and what they store when
    they do not. */
module GraphRuns {
  import opened Graph
  import opened Wrappers

  // ---------- failing ----------

  /** Something goes wrong for good: a node raises, a save, the page images or an upload breaks, or the gate
      finds a document that is there unclean. */
  predicate Breaks(g: Run, e: Event) {
    || e == Raises || e == SaveBreaks || e == ImagesBreak || e.UploadBreaks?
    || (e == Verifies(false) && g.docx.Some?)
  }

  predicate SomethingBreaks(g: Run, events: seq<Event>, maxRevisions: int)
    requires Allowed(g, events, maxRevisions)
    decreases |events|
  {
    events != []
    && (Breaks(g, events[0]) || SomethingBreaks(Next(g, events[0], maxRevisions), events[1..], maxRevisions))
  }

  lemma {:induction false} OverStaysOver(g: Run, events: seq<Event>, maxRevisions: int)
    requires (g.node == Ended || g.node == Failed) && Allowed(g, events, maxRevisions)
    ensures After(g, events, maxRevisions).node == g.node && !SomethingBreaks(g, events, maxRevisions)
    decreases |events|
  {
    if events != [] {
      OverStaysOver(Next(g, events[0], maxRevisions), events[1..], maxRevisions);
    }
  }

  /** A run fails exactly when something breaks in it. */
  lemma {:induction false} FailsExactly(g: Run, events: seq<Event>, maxRevisions: int)
    requires g.node != Ended && g.node != Failed && Allowed(g, events, maxRevisions)
    ensures After(g, events, maxRevisions).node == Failed <==> SomethingBreaks(g, events, maxRevisions)
    decreases |events|
  {
    if events != [] {
      var t := Next(g, events[0], maxRevisions);
      if t.node == Ended || t.node == Failed {
        OverStaysOver(t, events[1..], maxRevisions);
      } else {
        FailsExactly(t, events[1..], maxRevisions);
      }
    }
  }

  /** It ends well exactly when it gets to store its files. */
  lemma {:induction false} EndsExactly(g: Run, events: seq<Event>, maxRevisions: int)
    requires g.node != Ended && g.node != Failed && Allowed(g, events, maxRevisions)
    ensures After(g, events, maxRevisions).node == Ended <==> Persists in events
    decreases |events|
  {
    if events != [] {
      var t := Next(g, events[0], maxRevisions);
      if t.node == Ended || t.node == Failed {
        OverStaysOver(t, events[1..], maxRevisions);
        NothingIsStoredTwice(t, events[1..], maxRevisions);
      } else {
        EndsExactly(t, events[1..], maxRevisions);
      }
    }
  }

  lemma {:induction false} NothingIsStoredTwice(g: Run, events: seq<Event>, maxRevisions: int)
    requires (g.node == Ended || g.node == Failed) && Allowed(g, events, maxRevisions)
    ensures Persists !in events
    decreases |events|
  {
    if events != [] {
      NothingIsStoredTwice(Next(g, events[0], maxRevisions), events[1..], maxRevisions);
    }
  }

  // ---------- storing ----------

  function Fresh(): Run {
    Run(AdaptText, 0, false, false, None, None, false, 0, [])
  }

  /** One revision that passes the gate and is rendered, with the verdict on its pages. */
  function Round(ok: bool): seq<Event> {
    [Adapts(1), Verifies(true), Renders, Judges(ok)]
  }

  function RoundActs(v: nat): seq<Act> {
    [Wrote(v), Scanned(v, true), Rendered(v), Judged(v)]
  }

  /** Before revision `n + 1`: `n` revisions were written, and the PDF of the last one is named. */
  predicate Before(g: Run, n: nat) {
    && g.node == AdaptText && g.revision == n && g.writes == n && !g.approved && !g.skipped
    && (n > 0 ==> g.docx == Some(n) && g.pdfFile == Some(n) && g.pdfPath)
  }

  /** An approved revision, or the last one there may be, is stored next; any other is adapted again. */
  lemma {:induction false} RoundLeaves(g: Run, n: nat, ok: bool, maxRevisions: int)
    requires Before(g, n)
    ensures Allowed(g, Round(ok), maxRevisions)
    ensures After(g, Round(ok), maxRevisions) ==
            Run(if ok || n + 1 >= maxRevisions then Persist else AdaptText, n + 1, ok, false, Some(n + 1), Some(n + 1),
                true, n + 1, g.acts + RoundActs(n + 1))
  {
    var events := Round(ok);
    var g1 := Next(g, events[0], maxRevisions);
    var g2 := Next(g1, events[1], maxRevisions);
    var g3 := Next(g2, events[2], maxRevisions);
    var g4 := Next(g3, events[3], maxRevisions);
    assert events[1..] == [Verifies(true), Renders, Judges(ok)];
    assert events[1..][1..] == [Renders, Judges(ok)];
    assert events[1..][1..][1..] == [Judges(ok)];
    assert g4.acts == g.acts + RoundActs(n + 1);
    assert Allowed(g4, [], maxRevisions) && [Judges(ok)][1..] == [];
    assert Allowed(g3, [Judges(ok)], maxRevisions) && After(g3, [Judges(ok)], maxRevisions) == g4;
    assert Allowed(g2, events[1..][1..], maxRevisions) && After(g2, events[1..][1..], maxRevisions) == g4;
    assert Allowed(g1, events[1..], maxRevisions) && After(g1, events[1..], maxRevisions) == g4;
  }

  /** `n` revisions whose pages are rejected. */
  function Rejected(n: nat): seq<Event> {
    if n == 0 then [] else Rejected(n - 1) + Round(false)
  }

  lemma {:induction false} RejectedLeaves(n: nat, maxRevisions: int)
    requires n == 0 || n < maxRevisions
    ensures Allowed(Fresh(), Rejected(n), maxRevisions) && Before(After(Fresh(), Rejected(n), maxRevisions), n)
  {
    if n > 0 {
      RejectedLeaves(n - 1, maxRevisions);
      RoundLeaves(After(Fresh(), Rejected(n - 1), maxRevisions), n - 1, false, maxRevisions);
      AfterConcat(Fresh(), Rejected(n - 1), Round(false), maxRevisions);
    }
  }

  /** The first approved revision is stored, and the last one whatever its pages look like: a run of `r - 1`
      rejected revisions and one that is approved or the last ends with PDF and DOCX of that revision. */
  lemma {:induction false} RevisionIsStored(r: nat, ok: bool, maxRevisions: int)
    requires 1 <= r <= Max(1, maxRevisions) && (ok || r >= maxRevisions)
    ensures var events := Rejected(r - 1) + Round(ok) + [Persists];
      && Allowed(Fresh(), events, maxRevisions)
      && (var t := After(Fresh(), events, maxRevisions);
          t.node == Ended && |t.acts| >= 2 && t.acts[|t.acts| - 2..] == [UploadedPdf(r), UploadedDocx(r)])
  {
    RejectedLeaves(r - 1, maxRevisions);
    var g := After(Fresh(), Rejected(r - 1), maxRevisions);
    RoundLeaves(g, r - 1, ok, maxRevisions);
    AfterConcat(Fresh(), Rejected(r - 1), Round(ok), maxRevisions);
    var judged := After(g, Round(ok), maxRevisions);
    StoresBoth(judged, r, maxRevisions);
    AfterConcat(Fresh(), Rejected(r - 1) + Round(ok), [Persists], maxRevisions);
  }

  lemma {:induction false} StoresBoth(g: Run, r: nat, maxRevisions: int)
    requires g.node == Persist && g.docx == Some(r) && g.pdfFile == Some(r) && g.pdfPath
    ensures Allowed(g, [Persists], maxRevisions)
    ensures After(g, [Persists], maxRevisions).node == Ended
    ensures After(g, [Persists], maxRevisions).acts == g.acts + [UploadedPdf(r), UploadedDocx(r)]
  {
    var t := Next(g, Persists, maxRevisions);
    assert [Persists][1..] == [] && After(t, [], maxRevisions) == t;
    assert t.acts == g.acts + [UploadedPdf(r), UploadedDocx(r)];
  }

  /** With nothing to apply the untouched document still passes the gate, and is stored without a PDF. */
  lemma {:induction false} NothingToApplyIsStored(maxRevisions: int)
    ensures var events := [Adapts(0), Verifies(true), Persists];
      && Allowed(Fresh(), events, maxRevisions)
      && After(Fresh(), events, maxRevisions).node == Ended
      && After(Fresh(), events, maxRevisions).acts == [Wrote(1), Scanned(1, true), UploadedDocx(1)]
  {
    var events := [Adapts(0), Verifies(true), Persists];
    var g1 := Next(Fresh(), events[0], maxRevisions);
    var g2 := Next(g1, events[1], maxRevisions);
    var g3 := Next(g2, events[2], maxRevisions);
    assert events[1..] == [Verifies(true), Persists];
    assert events[1..][1..] == [Persists];
    assert After(g2, [Persists], maxRevisions) == g3;
    assert After(g1, events[1..], maxRevisions) == g3;
    assert g3.acts == g2.acts + [] + [UploadedDocx(1)];
  }
}

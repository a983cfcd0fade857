/** What a proposed replacement must be, and what it may never touch (`utils/cv_replacements.py`). */
module Replacements {
  import opened Text
  import CvText

  datatype Replacement = Replacement(original: string, tailored: string, reason: string)

  const READ_ONLY_FRAGMENT_MIN_CHARS := 20

  // ---------- one replacement, one clean line ----------

  /** `text.replace("\r\n", "\n").replace("\r", "\n")`. */
  function UnixLines(text: string): (r: string)
    ensures '\r' !in r
  {
    if text == "" then ""
    else if text[0] == '\r' then
      ['\n'] + UnixLines(if |text| > 1 && text[1] == '\n' then text[2..] else text[1..])
    else [text[0]] + UnixLines(text[1..])
  }

  /** The non-blank lines, stripped, of a list of raw lines. */
  function StrippedLines(lines: seq<string>): seq<string> {
    if lines == [] then []
    else
      var last := Strip(lines[|lines| - 1]);
      StrippedLines(lines[..|lines| - 1]) + (if last == "" then [] else [last])
  }

  lemma {:induction false} RawLineOf(lines: seq<string>, line: string) returns (raw: string)
    requires line in StrippedLines(lines)
    ensures raw in lines && line == Strip(raw) && line != ""
  {
    if line in StrippedLines(lines[..|lines| - 1]) {
      raw := RawLineOf(lines[..|lines| - 1], line);
    } else {
      raw := lines[|lines| - 1];
    }
  }

  /** `split_lines`. */
  function SplitLines(text: string): seq<string> {
    StrippedLines(Split(UnixLines(text), '\n'))
  }

  // Any of the three line breaks ends a line.

  /** `rest` is a line break and `b`; a carriage return at the end of `a` is not the first half of it. */
  predicate BreaksInto(a: string, rest: string, b: string) {
    && (rest == "\n" + b || rest == "\r\n" + b || (rest == "\r" + b && (b == "" || b[0] != '\n')))
    && (a != "" && a[|a| - 1] == '\r' ==> rest[0] == '\r')
  }

  lemma {:induction false} UnixAtABreak(rest: string, b: string)
    requires BreaksInto("", rest, b)
    ensures UnixLines(rest) == "\n" + UnixLines(b)
  {
    if rest == "\r\n" + b {
      assert rest[2..] == b;
    } else {
      assert rest[1..] == b;
    }
  }

  predicate StartsWithPair(s: string) {
    |s| > 1 && s[0] == '\r' && s[1] == '\n'
  }

  lemma {:induction false} UnixStep(s: string)
    requires s != ""
    ensures UnixLines(s) ==
            if StartsWithPair(s) then "\n" + UnixLines(s[2..])
            else [if s[0] == '\r' then '\n' else s[0]] + UnixLines(s[1..])
  {
  }

  lemma {:induction false} UnixBreak(a: string, rest: string, b: string)
    requires BreaksInto(a, rest, b)
    ensures UnixLines(a + rest) == UnixLines(a) + ("\n" + UnixLines(b))
    decreases |a|
  {
    if a == "" {
      assert a + rest == rest;
      UnixAtABreak(rest, b);
    } else {
      var n := if StartsWithPair(a) then 2 else 1;
      assert StartsWithPair(a + rest) <==> StartsWithPair(a);
      assert (a + rest)[n..] == a[n..] + rest;
      UnixStep(a);
      UnixStep(a + rest);
      UnixBreak(a[n..], rest, b);
      Associative([if a[0] == '\r' then '\n' else a[0]], UnixLines(a[n..]), "\n" + UnixLines(b));
    }
  }

  /** A text with a break has the lines in front of it and those behind it. */
  lemma {:induction false} LinesAroundABreak(a: string, rest: string, b: string)
    requires BreaksInto(a, rest, b)
    ensures SplitLines(a + rest) == SplitLines(a) + SplitLines(b)
  {
    UnixBreak(a, rest, b);
    Associative(UnixLines(a), "\n", UnixLines(b));
    SplitAtSeparator(UnixLines(a), UnixLines(b), '\n');
    StrippedLinesConcat(Split(UnixLines(a), '\n'), Split(UnixLines(b), '\n'));
  }

  /** A text without a break is one line, unless it is blank. */
  lemma {:induction false} LinesOfOneLine(s: string)
    requires '\n' !in s && '\r' !in s
    ensures SplitLines(s) == if Strip(s) == "" then [] else [Strip(s)]
  {
    UnixOfOneLine(s);
    SplitWithoutSeparator(s, '\n');
    assert [s][..0] == [] && StrippedLines([]) == [];
  }

  lemma {:induction false} UnixOfOneLine(s: string)
    requires '\r' !in s
    ensures UnixLines(s) == s
  {
    if s != "" {
      UnixOfOneLine(s[1..]);
    }
  }

  predicate IsReal(r: Replacement) {
    r.original != "" && r.tailored != "" && r.original != r.tailored
  }

  /** The aligned pairs of two line lists that say something new. */
  function Pairs(originals: seq<string>, tailoreds: seq<string>, reason: string): seq<Replacement>
    requires |originals| == |tailoreds|
  {
    if originals == [] then []
    else
      var n := |originals| - 1;
      var r := Replacement(originals[n], tailoreds[n], reason);
      Pairs(originals[..n], tailoreds[..n], reason) + (if IsReal(r) then [r] else [])
  }

  /** What one suggested item becomes. */
  function NormalizedItem(item: Replacement): seq<Replacement> {
    var original := StripLeadingBullet(Strip(item.original));
    var tailored := StripLeadingBullet(Strip(item.tailored));
    Aligned(original, SplitLines(original), tailored, SplitLines(tailored), item.reason)
  }

  /** Line against line when both sides have as many; a side without lines stands for itself. */
  function Aligned(original: string, originals: seq<string>, tailored: string, tailoreds: seq<string>,
                   reason: string): seq<Replacement>
  {
    if |originals| > 1 || |tailoreds| > 1 then
      if |originals| != |tailoreds| then [] else Pairs(originals, tailoreds, reason)
    else
      var r := Replacement(OnlyLine(original, originals), OnlyLine(tailored, tailoreds), reason);
      if IsReal(r) then [r] else []
  }

  function OnlyLine(text: string, lines: seq<string>): string {
    if lines != [] then lines[0] else text
  }

  function Normalized(items: seq<Replacement>): seq<Replacement> {
    if items == [] then []
    else Normalized(items[..|items| - 1]) + NormalizedItem(items[|items| - 1])
  }

  /** `normalize_replacements`. */
  method NormalizeReplacements(items: seq<Replacement>) returns (normalized: seq<Replacement>)
    ensures normalized == Normalized(items)
  {
    normalized := [];
    var i := 0;
    while i < |items|
      invariant i <= |items| && normalized == Normalized(items[..i])
    {
      assert items[..i + 1][..i] == items[..i];
      var lines := NormalizeItem(items[i]);
      normalized := normalized + lines;
      i := i + 1;
    }
    assert items[..i] == items;
  }

  method NormalizeItem(item: Replacement) returns (lines: seq<Replacement>)
    ensures lines == NormalizedItem(item)
  {
    var original := StripLeadingBullet(Strip(item.original));
    var tailored := StripLeadingBullet(Strip(item.tailored));
    var originals, tailoreds := SplitLines(original), SplitLines(tailored);
    if |originals| > 1 || |tailoreds| > 1 {
      if |originals| != |tailoreds| {
        return [];
      }
      lines := AlignedPairs(originals, tailoreds, item.reason);
    } else {
      var r := Replacement(OnlyLine(original, originals), OnlyLine(tailored, tailoreds), item.reason);
      lines := if IsReal(r) then [r] else [];
    }
  }

  method AlignedPairs(originals: seq<string>, tailoreds: seq<string>, reason: string)
    returns (pairs: seq<Replacement>)
    requires |originals| == |tailoreds|
    ensures pairs == Pairs(originals, tailoreds, reason)
  {
    pairs := [];
    var i := 0;
    while i < |originals|
      invariant i <= |originals| && pairs == Pairs(originals[..i], tailoreds[..i], reason)
    {
      assert originals[..i + 1][..i] == originals[..i] && tailoreds[..i + 1][..i] == tailoreds[..i];
      var r := Replacement(originals[i], tailoreds[i], reason);
      if IsReal(r) {
        pairs := pairs + [r];
      }
      i := i + 1;
    }
    assert originals[..i] == originals && tailoreds[..i] == tailoreds;
  }

  /** One line of text, stripped and not blank. */
  ghost predicate CleanLine(line: string) {
    && line != "" && '\n' !in line && '\r' !in line
    && !IsSpace(line[0]) && !IsSpace(line[|line| - 1])
  }

  lemma {:induction false} SplitLinesAreClean(text: string, line: string)
    requires line in SplitLines(text)
    ensures CleanLine(line)
  {
    var raw := RawLineOf(Split(UnixLines(text), '\n'), line);
    CharactersOfStrip(raw);
    CharactersOfSplit(UnixLines(text), raw, '\n');
  }

  lemma {:induction false} CharactersOfStrip(s: string)
    ensures forall c :: c in Strip(s) ==> c in s
  {
    StripIsContained(s);
    var i :| 0 <= i <= |s| && OccursAt(s, Strip(s), i);
    forall c | c in Strip(s) ensures c in s {
      var k :| 0 <= k < |Strip(s)| && Strip(s)[k] == c;
      assert s[i..i + |Strip(s)|][k] == s[i + k];
    }
  }

  lemma {:induction false} CharactersOfSplit(text: string, piece: string, separator: char)
    requires piece in Split(text, separator)
    ensures forall c :: c in piece ==> c in text
    decreases |text|
  {
    var k := IndexOf(text, separator);
    if k < |text| && piece != text[..k] {
      CharactersOfSplit(text[k + 1..], piece, separator);
    }
  }

  /** A text that has no non-blank line is blank. */
  lemma {:induction false} NoLinesMeansBlank(text: string, k: nat)
    requires k < |text| && !IsSpace(text[k])
    ensures SplitLines(text) != []
  {
    var unix := UnixLines(text);
    VisibleSurvives(text, k);
    var n :| 0 <= n < |unix| && !IsSpace(unix[n]);
    VisiblePiece(unix, n);
  }

  lemma {:induction false} VisibleSurvives(text: string, k: nat)
    requires k < |text| && !IsSpace(text[k])
    ensures exists n :: 0 <= n < |UnixLines(text)| && !IsSpace(UnixLines(text)[n])
    decreases |text|
  {
    if text[0] == '\r' {
      if |text| > 1 && text[1] == '\n' {
        VisibleSurvives(text[2..], k - 2);
        var n :| 0 <= n < |UnixLines(text[2..])| && !IsSpace(UnixLines(text[2..])[n]);
        assert UnixLines(text)[n + 1] == UnixLines(text[2..])[n];
      } else {
        VisibleSurvives(text[1..], k - 1);
        var n :| 0 <= n < |UnixLines(text[1..])| && !IsSpace(UnixLines(text[1..])[n]);
        assert UnixLines(text)[n + 1] == UnixLines(text[1..])[n];
      }
    } else if k == 0 {
      assert UnixLines(text)[0] == text[0];
    } else {
      VisibleSurvives(text[1..], k - 1);
      var n :| 0 <= n < |UnixLines(text[1..])| && !IsSpace(UnixLines(text[1..])[n]);
      assert UnixLines(text)[n + 1] == UnixLines(text[1..])[n];
    }
  }

  lemma {:induction false} VisiblePiece(text: string, k: nat)
    requires k < |text| && !IsSpace(text[k])
    ensures StrippedLines(Split(text, '\n')) != []
    decreases |text|
  {
    var n := IndexOf(text, '\n');
    if n == |text| {
      assert text[..n] == text;
      StripOfVisible(text, k);
      assert Split(text, '\n') == [text];
    } else if k < n {
      StripOfVisible(text[..n], k);
      StrippedLinesConcat([text[..n]], Split(text[n + 1..], '\n'));
    } else {
      VisiblePiece(text[n + 1..], k - n - 1);
      StrippedLinesConcat([text[..n]], Split(text[n + 1..], '\n'));
    }
  }

  lemma {:induction false} StrippedLinesConcat(a: seq<string>, b: seq<string>)
    ensures StrippedLines(a + b) == StrippedLines(a) + StrippedLines(b)
    decreases |b|
  {
    if b == [] {
      assert a + b == a;
    } else {
      assert (a + b)[..|a + b| - 1] == a + b[..|b| - 1];
      StrippedLinesConcat(a, b[..|b| - 1]);
    }
  }

  /** Everything the normaliser returns is one clean line against one clean line, and a change. */
  lemma {:induction false} NormalizedIsClean(items: seq<Replacement>, r: Replacement)
    requires r in Normalized(items)
    ensures CleanLine(r.original) && CleanLine(r.tailored) && r.original != r.tailored
  {
    if r in Normalized(items[..|items| - 1]) {
      NormalizedIsClean(items[..|items| - 1], r);
    } else {
      NormalizedItemIsClean(items[|items| - 1], r);
    }
  }

  lemma {:induction false} NormalizedItemIsClean(item: Replacement, r: Replacement)
    requires r in NormalizedItem(item)
    ensures CleanLine(r.original) && CleanLine(r.tailored) && r.original != r.tailored
  {
    var original := StripLeadingBullet(Strip(item.original));
    var tailored := StripLeadingBullet(Strip(item.tailored));
    AlignedIsFromTheLines(original, SplitLines(original), tailored, SplitLines(tailored), item.reason, r);
    BulletlessIsStripped(item.original);
    BulletlessIsStripped(item.tailored);
    LineIsClean(original, r.original);
    LineIsClean(tailored, r.tailored);
  }

  lemma {:induction false} AlignedIsFromTheLines(original: string, originals: seq<string>, tailored: string,
                                                 tailoreds: seq<string>,
                              reason: string, r: Replacement)
    requires r in Aligned(original, originals, tailored, tailoreds, reason)
    ensures FromTheLines(original, originals, r.original) && FromTheLines(tailored, tailoreds, r.tailored)
    ensures r.original != r.tailored
  {
    if |originals| > 1 || |tailoreds| > 1 {
      PairsAreAligned(originals, tailoreds, reason, r);
    }
  }

  predicate FromTheLines(text: string, lines: seq<string>, line: string) {
    line in lines || (lines == [] && line == text && line != "")
  }

  predicate Stripped(s: string) {
    s != "" ==> !IsSpace(s[0]) && !IsSpace(s[|s| - 1])
  }

  lemma {:induction false} LineIsClean(text: string, line: string)
    requires Stripped(text) && FromTheLines(text, SplitLines(text), line)
    ensures CleanLine(line)
  {
    if line !in SplitLines(text) {
      NoLinesMeansBlank(text, 0);
    } else {
      SplitLinesAreClean(text, line);
    }
  }

  lemma {:induction false} PairsAreAligned(originals: seq<string>, tailoreds: seq<string>, reason: string,
                                           r: Replacement)
    requires |originals| == |tailoreds| && r in Pairs(originals, tailoreds, reason)
    ensures IsReal(r)
    ensures exists k :: 0 <= k < |originals| && originals[k] == r.original && tailoreds[k] == r.tailored
  {
    var n := |originals| - 1;
    if r in Pairs(originals[..n], tailoreds[..n], reason) {
      PairsAreAligned(originals[..n], tailoreds[..n], reason, r);
      var k :| 0 <= k < n && originals[..n][k] == r.original && tailoreds[..n][k] == r.tailored;
      assert originals[k] == r.original && tailoreds[k] == r.tailored;
    } else {
      assert originals[n] == r.original && tailoreds[n] == r.tailored;
    }
  }

  // ---------- which lines come out ----------

  /** The lines of one side of an item, without the marker in front. */
  function LinesOf(text: string): seq<string> {
    SplitLines(StripLeadingBullet(Strip(text)))
  }

  /** `r` is line `k` of the item against line `k`, and a change. */
  predicate IsAlignedPair(item: Replacement, r: Replacement, k: nat) {
    && |LinesOf(item.original)| == |LinesOf(item.tailored)| && k < |LinesOf(item.original)|
    && r == Replacement(LinesOf(item.original)[k], LinesOf(item.tailored)[k], item.reason)
    && r.original != r.tailored
  }

  /** The item has such a line. */
  ghost predicate Yields(item: Replacement, r: Replacement) {
    exists k :: IsAlignedPair(item, r, k)
  }

  lemma {:induction false} PairsExactly(originals: seq<string>, tailoreds: seq<string>, reason: string, r: Replacement)
    requires |originals| == |tailoreds|
    ensures r in Pairs(originals, tailoreds, reason) <==>
              IsReal(r) && r.reason == reason
              && exists k :: 0 <= k < |originals| && originals[k] == r.original && tailoreds[k] == r.tailored
  {
    if originals != [] {
      var n := |originals| - 1;
      PairsExactly(originals[..n], tailoreds[..n], reason, r);
      assert forall k :: 0 <= k < n ==> originals[..n][k] == originals[k] && tailoreds[..n][k] == tailoreds[k];
    }
  }

  /** An item becomes exactly its aligned pairs that are a change - nothing when its sides do not have as many
      lines. */
  lemma {:induction false} ItemBecomesItsPairs(item: Replacement, r: Replacement)
    ensures r in NormalizedItem(item) <==> Yields(item, r)
  {
    var original, tailored := StripLeadingBullet(Strip(item.original)), StripLeadingBullet(Strip(item.tailored));
    var originals, tailoreds := LinesOf(item.original), LinesOf(item.tailored);
    LinesAreClean(originals, item.original);
    LinesAreClean(tailoreds, item.tailored);
    if |originals| > 1 || |tailoreds| > 1 {
      if |originals| == |tailoreds| {
        PairsExactly(originals, tailoreds, item.reason, r);
      }
    } else {
      OnlyLineIsTheLine(item.original);
      OnlyLineIsTheLine(item.tailored);
    }
    if r in NormalizedItem(item) && |originals| == |tailoreds| {
      var k :| 0 <= k < |originals| && originals[k] == r.original && tailoreds[k] == r.tailored;
      assert IsAlignedPair(item, r, k);
    }
  }

  lemma {:induction false} LinesAreClean(lines: seq<string>, text: string)
    requires lines == LinesOf(text)
    ensures forall k :: 0 <= k < |lines| ==> lines[k] != ""
  {
    forall k | 0 <= k < |lines|
      ensures lines[k] != ""
    {
      SplitLinesAreClean(StripLeadingBullet(Strip(text)), lines[k]);
    }
  }

  lemma {:induction false} OnlyLineIsTheLine(text: string)
    ensures LinesOf(text) == [] ==> StripLeadingBullet(Strip(text)) == ""
  {
    BulletlessIsStripped(text);
    if StripLeadingBullet(Strip(text)) != "" {
      NoLinesMeansBlank(StripLeadingBullet(Strip(text)), 0);
    }
  }

  /** Item after item. */
  lemma {:induction false} NormalizedStep(items: seq<Replacement>, item: Replacement)
    ensures Normalized(items + [item]) == Normalized(items) + NormalizedItem(item)
  {
    assert (items + [item])[..|items|] == items;
  }

  /** The normaliser returns exactly these pairs of its items ... */
  lemma {:induction false} NormalizedExactly(items: seq<Replacement>, r: Replacement)
    ensures r in Normalized(items) <==> exists i :: 0 <= i < |items| && Yields(items[i], r)
  {
    if items != [] {
      var rest, last := items[..|items| - 1], items[|items| - 1];
      assert items == rest + [last];
      NormalizedExactly(rest, r);
      NormalizedStep(rest, last);
      ItemBecomesItsPairs(last, r);
    }
  }

  /** ... in the order of the items (`NormalizedStep`), each item's in the order of its lines. */
  lemma {:induction false} PairsInOrder(a: seq<string>, b: seq<string>, c: seq<string>, d: seq<string>, reason: string)
    requires |a| == |c| && |b| == |d|
    ensures Pairs(a + b, c + d, reason) == Pairs(a, c, reason) + Pairs(b, d, reason)
    decreases |b|
  {
    if b == [] {
      assert a + b == a && c + d == c;
    } else {
      var n := |b| - 1;
      assert (a + b)[..|a| + n] == a + b[..n] && (c + d)[..|c| + n] == c + d[..n];
      PairsInOrder(a, b[..n], c, d[..n], reason);
      var r := Replacement(b[n], d[n], reason);
      Associative(Pairs(a, c, reason), Pairs(b[..n], d[..n], reason), if IsReal(r) then [r] else []);
    }
  }

  /** A stripped text stays stripped when its leading marker goes. */
  lemma {:induction false} BulletlessIsStripped(raw: string)
    ensures Stripped(StripLeadingBullet(Strip(raw)))
  {
    StripFirstIsStripped(Strip(raw), BULLETS);
  }

  lemma {:induction false} StripFirstIsStripped(s: string, prefixes: seq<string>)
    requires Stripped(s)
    ensures Stripped(StripFirst(s, prefixes))
  {
    if prefixes != [] && !StartsWith(s, prefixes[0]) {
      StripFirstIsStripped(s, prefixes[1..]);
    }
  }

  // ---------- the read-only guard ----------

  /** The form the guard compares. */
  function GuardTarget(original: string): string {
    Normalize(StripLeadingBullet(Strip(original)))
  }

  /** The target is, or is a long enough part of, one of the distinct read-only lines `exact`. */
  predicate IsReadOnly(target: string, exact: seq<string>) {
    && target != ""
    && (target in exact
        || (|target| >= READ_ONLY_FRAGMENT_MIN_CHARS && Contains(Join(exact, '\n'), target)))
  }

  /** The guard drops this item. */
  predicate TargetsReadOnly(r: Replacement, exact: seq<string>) {
    IsReadOnly(GuardTarget(r.original), exact)
  }

  function Filtered(items: seq<Replacement>, exact: seq<string>): seq<Replacement> {
    if items == [] then []
    else
      var last := items[|items| - 1];
      Filtered(items[..|items| - 1], exact) + (if TargetsReadOnly(last, exact) then [] else [last])
  }

  /** Without read-only lines the guard keeps the list as it is. */
  function Kept(items: seq<Replacement>, exact: seq<string>): seq<Replacement> {
    if exact == [] then items else Filtered(items, exact)
  }

  lemma {:induction false} FilteredExactly(items: seq<Replacement>, exact: seq<string>, r: Replacement)
    ensures r in Filtered(items, exact) <==> r in items && !TargetsReadOnly(r, exact)
  {
    if items != [] {
      FilteredExactly(items[..|items| - 1], exact, r);
      assert items == items[..|items| - 1] + [items[|items| - 1]];
    }
  }

  /** The guard keeps exactly the items that do not target a read-only line. */
  lemma {:induction false} KeptExactly(items: seq<Replacement>, exact: seq<string>, r: Replacement)
    ensures r in Kept(items, exact) <==> r in items && !TargetsReadOnly(r, exact)
  {
    if exact == [] {
      NoLineNoGuard(GuardTarget(r.original));
    } else {
      FilteredExactly(items, exact, r);
    }
  }

  /** Of targets without a line break - all the normaliser returns - it drops exactly those that are one of the
      read-only lines, or at least 20 characters of one. */
  lemma {:induction false} DroppedExactly(items: seq<Replacement>, exact: seq<string>, r: Replacement)
    requires r in items && '\n' !in GuardTarget(r.original)
    ensures var target := GuardTarget(r.original);
      r !in Kept(items, exact) <==>
        target != "" && exists line :: line in exact && (target == line || (|target| >= 20 && Contains(line, target)))
  {
    var target := GuardTarget(r.original);
    KeptExactly(items, exact, r);
    if Contains(Join(exact, '\n'), target) {
      if exact != [] && target != "" {
        PieceLiesInOnePart(exact, target, '\n');
      }
    }
    forall line | line in exact && Contains(line, target)
      ensures Contains(Join(exact, '\n'), target)
    {
      var k :| 0 <= k < |exact| && exact[k] == line;
      JoinContainsPart(exact, k, '\n');
      ContainsTransitive(Join(exact, '\n'), line, target);
    }
  }

  /** Every normalised read-only line once, in some order (a Python set has none of its own). */
  ghost predicate Enumerates(exact: seq<string>, cv: CvText.CvData) {
    forall l :: l in exact <==> exists line :: line in CvText.ReadOnlyLinesSpec(cv) && l == Normalize(line)
  }

  /** The test of the loop. */
  method MatchesReadOnly(item: Replacement, exact: seq<string>, block: string) returns (readOnly: bool)
    requires block == Join(exact, '\n')
    ensures readOnly == TargetsReadOnly(item, exact)
  {
    var target := Normalize(StripLeadingBullet(Strip(item.original)));
    readOnly := target != ""
      && (target in exact || (|target| >= READ_ONLY_FRAGMENT_MIN_CHARS && Contains(block, target)));
  }

  /** `drop_read_only_replacements`, for any enumeration of the set of read-only lines. */
  method DropReadOnly(items: seq<Replacement>, exact: seq<string>) returns (kept: seq<Replacement>)
    ensures kept == Kept(items, exact)
  {
    if exact == [] {
      return items;
    }
    var block := Join(exact, '\n');
    kept := [];
    var i := 0;
    while i < |items|
      invariant i <= |items| && kept == Filtered(items[..i], exact)
    {
      assert items[..i + 1][..i] == items[..i];
      var readOnly := MatchesReadOnly(items[i], exact, block);
      if !readOnly {
        kept := kept + [items[i]];
      }
      i := i + 1;
    }
    assert items[..i] == items;
  }

  lemma {:induction false} NoLineNoGuard(target: string)
    ensures !IsReadOnly(target, [])
  {
  }
}

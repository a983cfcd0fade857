/** Strings the way the worker's matchers read them: whitespace, substring search,
    the length-preserving normaliser and the list-marker strippers of `utils/cv_text.py`. */
module Text {

  // ---------- substrings ----------

  /** `t` stands in `s` at position `i`. */
  predicate OccursAt(s: string, t: string, i: int) {
    0 <= i && i + |t| <= |s| && s[i..i + |t|] == t
  }

  /** `s.find(t)` from position `i` on. */
  function FindFrom(s: string, t: string, i: nat): (r: int)
    requires i <= |s|
    ensures r == -1 || (i <= r && OccursAt(s, t, r))
    ensures forall k :: i <= k && (r == -1 || k < r) ==> !OccursAt(s, t, k)
    decreases |s| - i
  {
    if OccursAt(s, t, i) then i
    else if i == |s| then -1
    else FindFrom(s, t, i + 1)
  }

  /** `s.find(t)`: the first occurrence, or -1. */
  function Find(s: string, t: string): (r: int)
    ensures r == -1 || OccursAt(s, t, r)
    ensures forall k :: 0 <= k && (r == -1 || k < r) ==> !OccursAt(s, t, k)
  {
    FindFrom(s, t, 0)
  }

  /** `t in s`. */
  predicate Contains(s: string, t: string) {
    exists i :: 0 <= i <= |s| && OccursAt(s, t, i)
  }

  lemma {:induction false} FindDecidesContains(s: string, t: string)
    ensures Find(s, t) != -1 <==> Contains(s, t)
  {
  }

  lemma {:induction false} ContainsTransitive(a: string, b: string, c: string)
    requires Contains(a, b) && Contains(b, c)
    ensures Contains(a, c)
  {
    var i :| 0 <= i <= |a| && OccursAt(a, b, i);
    var j :| 0 <= j <= |b| && OccursAt(b, c, j);
    forall k | 0 <= k < |c| ensures a[i + j + k] == c[k] {
      assert a[i..i + |b|][j + k] == b[j + k];
      assert b[j..j + |c|][k] == c[k];
    }
    assert a[i + j..i + j + |c|] == c;
    assert OccursAt(a, c, i + j);
  }

  lemma {:induction false} SuffixIsContained(s: string, i: nat)
    requires i <= |s|
    ensures Contains(s, s[i..])
  {
    assert s[i..] == s[i..|s|];
    assert OccursAt(s, s[i..], i);
  }

  lemma {:induction false} PrefixIsContained(s: string, j: nat)
    requires j <= |s|
    ensures Contains(s, s[..j])
  {
    assert s[..j] == s[0..j];
    assert OccursAt(s, s[..j], 0);
  }

  /** A position inside an occurrence shows one of the occurrence's own characters. */
  lemma {:induction false} InsideAnOccurrence(s: string, t: string, i: nat, n: nat)
    requires OccursAt(s, t, i) && i <= n < i + |t|
    ensures s[n] in t
  {
    assert t[n - i] == s[i..i + |t|][n - i] == s[n];
  }

  // ---------- whitespace ----------

  /** What `str.strip()` and `str.split()` treat as whitespace. */
  predicate IsSpace(c: char) {
    || '\t' <= c <= '\r'
    || '\U{1C}' <= c <= ' '
    || c == '\U{85}' || c == '\U{A0}' || c == '\U{1680}'
    || '\U{2000}' <= c <= '\U{200A}'
    || c == '\U{2028}' || c == '\U{2029}' || c == '\U{202F}' || c == '\U{205F}' || c == '\U{3000}'
  }

  /** The 29 of them. */
  lemma {:induction false} SpacesExactly(c: char)
    ensures IsSpace(c) <==> c as int in {
      9, 10, 11, 12, 13, 28, 29, 30, 31, 32, 0x85, 0xA0, 0x1680,
      0x2000, 0x2001, 0x2002, 0x2003, 0x2004, 0x2005, 0x2006, 0x2007, 0x2008, 0x2009, 0x200A,
      0x2028, 0x2029, 0x202F, 0x205F, 0x3000}
  {
  }

  /** `s.strip()`. */
  function Strip(s: string): (r: string)
    ensures r != [] ==> !IsSpace(r[0]) && !IsSpace(r[|r| - 1])
  {
    if s == [] then s
    else if IsSpace(s[0]) then Strip(s[1..])
    else if IsSpace(s[|s| - 1]) then Strip(s[..|s| - 1])
    else s
  }

  lemma {:induction false} StripIsContained(s: string)
    ensures Contains(s, Strip(s))
  {
    if s != [] && IsSpace(s[0]) {
      StripIsContained(s[1..]);
      SuffixIsContained(s, 1);
      ContainsTransitive(s, s[1..], Strip(s));
    } else if s != [] && IsSpace(s[|s| - 1]) {
      StripIsContained(s[..|s| - 1]);
      PrefixIsContained(s, |s| - 1);
      ContainsTransitive(s, s[..|s| - 1], Strip(s));
    } else {
      PrefixIsContained(s, |s|);
      assert s[..|s|] == s;
    }
  }

  /** Only a blank string strips to nothing. */
  lemma {:induction false} StripOfVisible(s: string, k: nat)
    requires k < |s| && !IsSpace(s[k])
    ensures Strip(s) != []
  {
    if IsSpace(s[0]) {
      StripOfVisible(s[1..], k - 1);
    } else if IsSpace(s[|s| - 1]) {
      StripOfVisible(s[..|s| - 1], k);
    }
  }

  // ---------- the comparison form ----------

  function CleanChar(c: char): char {
    if c == '\U{A0}' then ' '
    else if c == '\U{2013}' || c == '\U{2014}' then '-'
    else c
  }

  /** `normalize_text`: one character in, one character out, so an index into the
      normalised text is an index into the text itself. */
  function Normalize(s: string): (r: string)
    ensures |r| == |s|
    ensures forall i :: 0 <= i < |s| ==> r[i] == CleanChar(s[i])
  {
    seq(|s|, i requires 0 <= i < |s| => CleanChar(s[i]))
  }

  /** A no-break space reads as a space, an en or em dash as a hyphen, and everything else as itself. */
  lemma {:induction false} NormalizeExactly(s: string, i: nat)
    requires i < |s|
    ensures Normalize(s)[i] == ' ' <==> s[i] == ' ' || s[i] as int == 0xA0
    ensures Normalize(s)[i] == '-' <==> s[i] == '-' || s[i] as int == 0x2013 || s[i] as int == 0x2014
    ensures s[i] as int !in {0xA0, 0x2013, 0x2014} ==> Normalize(s)[i] == s[i]
  {
  }

  lemma {:induction false} NormalizeSlice(s: string, i: nat, j: nat)
    requires i <= j <= |s|
    ensures Normalize(s[i..j]) == Normalize(s)[i..j]
  {
  }

  lemma {:induction false} NormalizeConcat(a: string, b: string)
    ensures Normalize(a + b) == Normalize(a) + Normalize(b)
  {
  }

  lemma {:induction false} NormalizeTwice(s: string)
    ensures Normalize(Normalize(s)) == Normalize(s)
  {
  }

  lemma {:induction false} NormalizeKeepsContainment(s: string, t: string)
    requires Contains(s, t)
    ensures Contains(Normalize(s), Normalize(t))
  {
    var i :| 0 <= i <= |s| && OccursAt(s, t, i);
    NormalizeSlice(s, i, i + |t|);
    assert OccursAt(Normalize(s), Normalize(t), i);
  }

  // ---------- list markers ----------

  predicate StartsWith(s: string, prefix: string) {
    |prefix| <= |s| && s[..|prefix|] == prefix
  }

  /** The markers `strip_leading_bullet` tries, in its order. */
  const BULLETS: seq<string> :=
    ["• ", "- ", "* ", "o ", "– ", "— ", "•", "-", "*", "–", "—"]

  /** The markers `_replace_text_in_paragraph` strips one after the other. */
  const TARGET_PREFIXES: seq<string> :=
    ["• ", "o ", "- ", "* ", "– ", "— ", "•", "-", "*"]

  /** Drop the first prefix of the list that `s` starts with, then strip; `s` itself if none does. */
  function StripFirst(s: string, prefixes: seq<string>): string {
    if prefixes == [] then s
    else if StartsWith(s, prefixes[0]) then Strip(s[|prefixes[0]|..])
    else StripFirst(s, prefixes[1..])
  }

  /** Each prefix of the list in turn is dropped if the text then starts with it. */
  function StripEach(s: string, prefixes: seq<string>): string
    decreases |prefixes|, s
  {
    if prefixes == [] then s
    else if StartsWith(s, prefixes[0]) then StripEach(Strip(s[|prefixes[0]|..]), prefixes[1..])
    else StripEach(s, prefixes[1..])
  }

  /** `strip_leading_bullet`. */
  function StripLeadingBullet(s: string): string {
    StripFirst(s, BULLETS)
  }

  lemma {:induction false} DropThenStripIsContained(s: string, n: nat)
    requires n <= |s|
    ensures Contains(s, Strip(s[n..]))
  {
    SuffixIsContained(s, n);
    StripIsContained(s[n..]);
    ContainsTransitive(s, s[n..], Strip(s[n..]));
  }

  lemma {:induction false} StripFirstIsContained(s: string, prefixes: seq<string>)
    ensures Contains(s, StripFirst(s, prefixes))
  {
    if prefixes == [] {
      PrefixIsContained(s, |s|);
      assert s[..|s|] == s;
    } else if StartsWith(s, prefixes[0]) {
      DropThenStripIsContained(s, |prefixes[0]|);
    } else {
      StripFirstIsContained(s, prefixes[1..]);
    }
  }

  lemma {:induction false} StripEachIsContained(s: string, prefixes: seq<string>)
    ensures Contains(s, StripEach(s, prefixes))
    decreases |prefixes|
  {
    if prefixes == [] {
      PrefixIsContained(s, |s|);
      assert s[..|s|] == s;
    } else if StartsWith(s, prefixes[0]) {
      var rest := Strip(s[|prefixes[0]|..]);
      DropThenStripIsContained(s, |prefixes[0]|);
      StripEachIsContained(rest, prefixes[1..]);
      ContainsTransitive(s, rest, StripEach(s, prefixes));
    } else {
      StripEachIsContained(s, prefixes[1..]);
    }
  }

  predicate StartsWithAny(s: string, prefixes: seq<string>) {
    exists k :: 0 <= k < |prefixes| && StartsWith(s, prefixes[k])
  }

  lemma {:induction false} NoMarkerNoChange(s: string, prefixes: seq<string>)
    requires !StartsWithAny(s, prefixes)
    ensures StripFirst(s, prefixes) == s && StripEach(s, prefixes) == s
    decreases |prefixes|
  {
    if prefixes != [] {
      assert StartsWith(s, prefixes[0]) ==> StartsWithAny(s, prefixes);
      forall k | 0 <= k < |prefixes[1..]| ensures !StartsWith(s, prefixes[1..][k]) {
        assert prefixes[1..][k] == prefixes[k + 1];
      }
      NoMarkerNoChange(s, prefixes[1..]);
    }
  }

  // ---------- lines ----------

  /** `separator.join(parts)` for a one-character separator. */
  function Join(parts: seq<string>, separator: char): string {
    if parts == [] then ""
    else if |parts| == 1 then parts[0]
    else parts[0] + [separator] + Join(parts[1..], separator)
  }

  /** The position of the first `c`, or the length when there is none. */
  function IndexOf(s: string, c: char): (k: nat)
    ensures k <= |s| && c !in s[..k]
    ensures k < |s| ==> s[k] == c
  {
    if s == [] || s[0] == c then 0 else 1 + IndexOf(s[1..], c)
  }

  lemma {:induction false} IndexOfIsUnique(s: string, c: char, k: nat)
    requires k <= |s| && c !in s[..k]
    requires k < |s| ==> s[k] == c
    ensures IndexOf(s, c) == k
  {
    if k > 0 {
      assert s[..k][0] == s[0];
      assert s[1..][..k - 1] == s[..k][1..];
      IndexOfIsUnique(s[1..], c, k - 1);
    }
  }

  /** `text.split(separator)`. */
  function Split(text: string, separator: char): (parts: seq<string>)
    ensures parts != []
    ensures forall p :: p in parts ==> separator !in p
    decreases |text|
  {
    var k := IndexOf(text, separator);
    if k == |text| then
      assert text[..k] == text;
      [text]
    else [text[..k]] + Split(text[k + 1..], separator)
  }

  lemma {:induction false} SplitFront(front: string, rest: string, separator: char)
    requires separator !in front
    ensures Split(front + [separator] + rest, separator) == [front] + Split(rest, separator)
  {
    var text := front + [separator] + rest;
    assert text[..|front|] == front && text[|front| + 1..] == rest;
    IndexOfIsUnique(text, separator, |front|);
  }

  lemma {:induction false} Regrouped(front: string, rest: string, b: string, separator: char)
    ensures front + [separator] + rest + [separator] + b == front + [separator] + (rest + [separator] + b)
  {
    var x, y := front + [separator], rest + [separator];
    Associative(x, rest, [separator]);
    Associative(x, y, b);
  }

  lemma {:induction false} Associative<T>(x: seq<T>, y: seq<T>, z: seq<T>)
    ensures (x + y) + z == x + (y + z)
  {
  }

  lemma {:induction false} SplitAtSeparator(a: string, b: string, separator: char)
    ensures Split(a + [separator] + b, separator) == Split(a, separator) + Split(b, separator)
    decreases |a|
  {
    var j := IndexOf(a, separator);
    if j == |a| {
      assert a[..j] == a;
      SplitFront(a, b, separator);
      SplitWithoutSeparator(a, separator);
    } else {
      var front, rest := a[..j], a[j + 1..];
      FrontAndRest(a, separator, j);
      SplitAtSeparator(rest, b, separator);
      SplitFront(front, rest, separator);
      SplitFront(front, rest + [separator] + b, separator);
      Regrouped(front, rest, b, separator);
      Associative([front], Split(rest, separator), Split(b, separator));
    }
  }

  lemma {:induction false} FrontAndRest(a: string, separator: char, j: nat)
    requires j < |a| && a[j] == separator
    ensures a == a[..j] + [separator] + a[j + 1..]
  {
  }

  lemma {:induction false} SplitWithoutSeparator(a: string, separator: char)
    requires separator !in a
    ensures Split(a, separator) == [a]
  {
    assert a[..|a|] == a;
    IndexOfIsUnique(a, separator, |a|);
  }

  /** Every piece of a part of a joined text is one of the pieces the whole splits into. */
  lemma {:induction false} PieceOfAPart(parts: seq<string>, k: nat, piece: string, separator: char)
    requires k < |parts| && piece in Split(parts[k], separator)
    ensures piece in Split(Join(parts, separator), separator)
    decreases |parts|
  {
    if |parts| > 1 {
      SplitAtSeparator(parts[0], Join(parts[1..], separator), separator);
      if k > 0 {
        PieceOfAPart(parts[1..], k - 1, piece, separator);
      }
    }
  }

  /** Something without the separator that stands in a joined text stands in one of the parts. */
  lemma {:induction false} PieceLiesInOnePart(parts: seq<string>, t: string, separator: char)
    requires t != [] && separator !in t
    requires Contains(Join(parts, separator), t)
    ensures exists k :: 0 <= k < |parts| && Contains(parts[k], t)
    decreases |parts|
  {
    var text := Join(parts, separator);
    var i :| 0 <= i <= |text| && OccursAt(text, t, i);
    if |parts| <= 1 {
      assert parts != [];
      assert Contains(parts[0], t);
    } else {
      var n := |parts[0]|;
      var rest := Join(parts[1..], separator);
      if i + |t| <= n {
        assert parts[0][i..i + |t|] == text[i..i + |t|];
        assert OccursAt(parts[0], t, i);
      } else if i <= n {
        InsideAnOccurrence(text, t, i, n);
        assert false;
      } else {
        assert rest[i - n - 1..i - n - 1 + |t|] == text[i..i + |t|];
        assert OccursAt(rest, t, i - n - 1);
        PieceLiesInOnePart(parts[1..], t, separator);
        var k :| 0 <= k < |parts[1..]| && Contains(parts[1..][k], t);
        assert Contains(parts[k + 1], t);
      }
    }
  }

  /** A part of a joined text is contained in it. */
  lemma {:induction false} JoinContainsPart(parts: seq<string>, k: nat, separator: char)
    requires k < |parts|
    ensures Contains(Join(parts, separator), parts[k])
    decreases |parts|
  {
    var text := Join(parts, separator);
    if |parts| == 1 {
      assert OccursAt(text, parts[0], 0);
    } else if k == 0 {
      assert text[0..|parts[0]|] == parts[0];
      assert OccursAt(text, parts[0], 0);
    } else {
      var rest := Join(parts[1..], separator);
      JoinContainsPart(parts[1..], k - 1, separator);
      assert text[|parts[0]| + 1..] == rest;
      SuffixIsContained(text, |parts[0]| + 1);
      ContainsTransitive(text, rest, parts[k]);
    }
  }
}

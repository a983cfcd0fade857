/** The technology half of the "0% lies" check (`agent/verification.py`): which names a text claims,
    which of them a piece of evidence states, and which are therefore invented. */
module Verification {
  import opened Text

  // ---------- characters ----------

  /** What the check takes from Python's Unicode tables: `\w`, `\d` and `str.lower()` of one
      character. */
  datatype Unicode = Unicode(word: char -> bool, digit: char -> bool, lower: char -> string)

  predicate IsUpper(c: char) { 'A' <= c <= 'Z' }

  predicate IsLetter(c: char) { 'A' <= c <= 'Z' || 'a' <= c <= 'z' }

  predicate IsAlnum(c: char) { IsLetter(c) || '0' <= c <= '9' }

  predicate IsAscii(c: char) { c < '\U{80}' }

  function LowerChar(c: char): char {
    if IsUpper(c) then c - 'A' + 'a' else c
  }

  function UpperChar(c: char): char {
    if 'a' <= c <= 'z' then c - 'a' + 'A' else c
  }

  function LowerAscii(s: string): (r: string)
    ensures |r| == |s| && forall k :: 0 <= k < |s| ==> r[k] == LowerChar(s[k])
  {
    seq(|s|, k requires 0 <= k < |s| => LowerChar(s[k]))
  }

  function UpperAscii(s: string): (r: string)
    ensures |r| == |s| && forall k :: 0 <= k < |s| ==> r[k] == UpperChar(s[k])
  {
    seq(|s|, k requires 0 <= k < |s| => UpperChar(s[k]))
  }

  predicate IsDash(c: char) { c == '\U{2013}' || c == '\U{2014}' }

  /** ASCII word characters are the letters, the digits and the underscore; whitespace and the two
      long dashes are not word characters. */
  ghost predicate LawfulWords(u: Unicode) {
    && (forall c :: IsAscii(c) ==> (u.word(c) <==> IsAlnum(c) || c == '_'))
    && (forall c :: IsSpace(c) || IsDash(c) ==> !u.word(c))
  }

  /** Lower-casing agrees with ASCII and never turns a separator into a word character. */
  ghost predicate LawfulLower(u: Unicode) {
    && (forall c :: IsAscii(c) ==> u.lower(c) == [LowerChar(c)])
    && (forall c :: !u.word(c) ==> AllSeparators(u, u.lower(c)))
  }

  ghost predicate AllSeparators(u: Unicode, s: string) {
    s != [] && forall k :: 0 <= k < |s| ==> !u.word(s[k])
  }

  /** A decimal digit is a word character without case; the ASCII ones are 0 to 9. */
  ghost predicate LawfulDigits(u: Unicode) {
    && (forall c :: u.digit(c) ==> u.word(c) && u.lower(c) == [c])
    && (forall c :: IsAscii(c) ==> (u.digit(c) <==> '0' <= c <= '9'))
  }

  ghost predicate Lawful(u: Unicode) {
    LawfulWords(u) && LawfulLower(u) && LawfulDigits(u)
  }

  /** Tables that know only ASCII are lawful. */
  lemma {:induction false} AsciiTablesAreLawful()
    ensures Lawful(Unicode(c => IsAlnum(c) || c == '_', c => '0' <= c <= '9', c => [LowerChar(c)]))
  {
    var u := Unicode(c => IsAlnum(c) || c == '_', c => '0' <= c <= '9', c => [LowerChar(c)]);
    assert forall c :: !u.word(c) ==> AllSeparators(u, u.lower(c));
  }

  // ---------- the normal form ----------

  /** `str.lower()`, one character at a time. */
  function LowerAll(u: Unicode, s: string): string {
    if s == [] then [] else u.lower(s[0]) + LowerAll(u, s[1..])
  }

  predicate IsVisible(c: char) { !IsSpace(c) }

  /** The end of the run of `p`-characters that starts at `i`. */
  function RunEnd(s: string, i: nat, p: char -> bool): (e: nat)
    requires i <= |s|
    ensures i <= e <= |s| && (e == |s| || !p(s[e]))
    ensures forall k :: i <= k < e ==> p(s[k])
    decreases |s| - i
  {
    if i == |s| || !p(s[i]) then i else RunEnd(s, i + 1, p)
  }

  /** `" ".join(s.split())`. */
  function Collapse(s: string): string
    decreases |s|
  {
    if s == [] then []
    else if IsSpace(s[0]) then Collapse(s[1..])
    else
      var e := RunEnd(s, 0, IsVisible);
      var rest := Collapse(s[e..]);
      if rest == [] then s[..e] else s[..e] + " " + rest
  }

  /** `_normalize_text`. */
  function NormalizeText(u: Unicode, s: string): string {
    Collapse(Normalize(LowerAll(u, s)))
  }

  // ---------- a form that stands alone ----------

  /** `(?<![\w])form(?![\w])` matches at `p`. */
  predicate StandsAt(u: Unicode, s: string, form: string, p: int) {
    && OccursAt(s, form, p)
    && (p == 0 || !u.word(s[p - 1]))
    && (p + |form| == |s| || !u.word(s[p + |form|]))
  }

  predicate Stands(u: Unicode, s: string, form: string) {
    exists p :: 0 <= p <= |s| && StandsAt(u, s, form, p)
  }

  lemma {:induction false} LowerConcat(u: Unicode, a: string, b: string)
    ensures LowerAll(u, a + b) == LowerAll(u, a) + LowerAll(u, b)
  {
    if a == [] {
      assert a + b == b;
    } else {
      LowerConcat(u, a[1..], b);
      assert (a + b)[1..] == a[1..] + b;
    }
  }

  /** The characters a shape token is made of. */
  predicate TokenChar(u: Unicode, c: char) {
    IsAlnum(c) || c == '.' || c == '+' || u.digit(c)
  }

  predicate IsToken(u: Unicode, s: string) {
    forall k :: 0 <= k < |s| ==> TokenChar(u, s[k])
  }

  /** What lower-casing and the normal form leave in its place: token characters, and ASCII but its spaces. */
  predicate PlainChar(u: Unicode, c: char) {
    TokenChar(u, c) || (IsAscii(c) && !IsSpace(c))
  }

  predicate IsPlain(u: Unicode, s: string) {
    forall k :: 0 <= k < |s| ==> PlainChar(u, s[k])
  }

  lemma {:induction false} TokenCharIsPlain(u: Unicode, c: char)
    requires Lawful(u) && TokenChar(u, c)
    ensures TokenChar(u, LowerChar(c)) && TokenChar(u, UpperChar(c))
  {
    PlainCharStays(u, c);
  }

  lemma {:induction false} PlainCharStays(u: Unicode, c: char)
    requires Lawful(u) && PlainChar(u, c)
    ensures u.lower(c) == [LowerChar(c)] && CleanChar(LowerChar(c)) == LowerChar(c) && !IsSpace(LowerChar(c))
  {
    if u.digit(c) {
      assert u.word(c) && !IsSpace(c) && !IsDash(c);
    }
  }

  lemma {:induction false} LowerOfToken(u: Unicode, s: string)
    requires Lawful(u) && IsPlain(u, s)
    ensures LowerAll(u, s) == LowerAscii(s)
  {
    if s != [] {
      PlainCharStays(u, s[0]);
      LowerOfToken(u, s[1..]);
    }
  }

  ghost predicate EndsAlone(u: Unicode, s: string) { s == [] || !u.word(s[|s| - 1]) }

  ghost predicate StartsAlone(u: Unicode, s: string) { s == [] || !u.word(s[0]) }

  /** Lower-casing text that starts (ends) at a separator gives text that does. */
  lemma {:induction false} LowerEdges(u: Unicode, s: string)
    requires Lawful(u)
    ensures StartsAlone(u, s) ==> StartsAlone(u, LowerAll(u, s))
    ensures EndsAlone(u, s) ==> EndsAlone(u, LowerAll(u, s))
  {
    if s != [] {
      var last := |s| - 1;
      LowerConcat(u, s[..last], s[last..]);
      assert s[..last] + s[last..] == s && s[last..][1..] == [];
      assert LowerAll(u, s[last..]) == u.lower(s[last]);
    }
  }

  lemma {:induction false} StandsBetween(u: Unicode, l: string, m: string, r: string)
    requires EndsAlone(u, l) && StartsAlone(u, r)
    ensures Stands(u, l + (m + r), m)
  {
    var t := l + (m + r);
    assert t[|l|..|l| + |m|] == m;
    assert StandsAt(u, t, m, |l|);
  }

  lemma {:induction false} LowerOfParts(u: Unicode, a: string, b: string, c: string)
    ensures LowerAll(u, a + (b + c)) == LowerAll(u, a) + (LowerAll(u, b) + LowerAll(u, c))
  {
    LowerConcat(u, a, b + c);
    LowerConcat(u, b, c);
  }

  lemma {:induction false} LowerCarriesParts(u: Unicode, before: string, form: string, after: string)
    requires Lawful(u) && IsPlain(u, form) && EndsAlone(u, before) && StartsAlone(u, after)
    ensures Stands(u, LowerAll(u, before + (form + after)), LowerAscii(form))
  {
    LowerOfParts(u, before, form, after);
    LowerOfToken(u, form);
    LowerEdges(u, before);
    LowerEdges(u, after);
    StandsBetween(u, LowerAll(u, before), LowerAscii(form), LowerAll(u, after));
  }

  lemma {:induction false} PartsAround(u: Unicode, s: string, form: string, p: int)
    requires StandsAt(u, s, form, p)
    ensures s == s[..p] + (form + s[p + |form|..])
    ensures EndsAlone(u, s[..p]) && StartsAlone(u, s[p + |form|..])
  {
  }

  lemma {:induction false} LowerCarries(u: Unicode, s: string, form: string, p: int)
    requires Lawful(u) && IsPlain(u, form) && StandsAt(u, s, form, p)
    ensures Stands(u, LowerAll(u, s), LowerAscii(form))
  {
    PartsAround(u, s, form, p);
    LowerCarriesParts(u, s[..p], form, s[p + |form|..]);
  }

  lemma {:induction false} StraightCarries(u: Unicode, s: string, form: string)
    requires Lawful(u) && Stands(u, s, form) && forall k :: 0 <= k < |form| ==> CleanChar(form[k]) == form[k]
    ensures Stands(u, Normalize(s), form)
  {
    var p :| 0 <= p <= |s| && StandsAt(u, s, form, p);
    NormalizeSlice(s, p, p + |form|);
    assert Normalize(form) == form;
    assert StandsAt(u, Normalize(s), form, p);
  }

  ghost predicate NoSpaces(s: string) {
    forall k :: 0 <= k < |s| ==> !IsSpace(s[k])
  }

  lemma {:induction false} BehindTheFirst(u: Unicode, s: string, form: string, p: int)
    requires form != [] && NoSpaces(form) && StandsAt(u, s, form, p) && IsSpace(s[0])
    ensures p > 0 && StandsAt(u, s[1..], form, p - 1)
  {
    assert s[p..p + |form|][0] == form[0];
    assert s[1..][p - 1..p - 1 + |form|] == s[p..p + |form|];
  }

  lemma {:induction false} CollapseCarries(u: Unicode, s: string, form: string, p: int)
    requires Lawful(u) && form != [] && NoSpaces(form) && StandsAt(u, s, form, p)
    ensures Stands(u, Collapse(s), form)
    decreases |s|
  {
    if IsSpace(s[0]) {
      BehindTheFirst(u, s, form, p);
      CollapseCarries(u, s[1..], form, p - 1);
    } else {
      var e := RunEnd(s, 0, IsVisible);
      if p + |form| <= e {
        FirstWordCarries(u, s, e, form, p);
      } else {
        StandsInTheRest(u, s, form, p, e);
        CollapseCarries(u, s[e..], form, p - e);
        RestCarries(u, s, e, form);
      }
    }
  }

  lemma {:induction false} SpaceFreeStaysOneSide(s: string, form: string, p: int, e: nat)
    requires OccursAt(s, form, p) && NoSpaces(form) && e < p + |form| && e < |s| && IsSpace(s[e])
    ensures e < p
  {
    if p <= e {
      InsideAnOccurrence(s, form, p, e);
      assert false;
    }
  }

  lemma {:induction false} StandsInTheRest(u: Unicode, s: string, form: string, p: int, e: nat)
    requires form != [] && NoSpaces(form) && StandsAt(u, s, form, p)
    requires e < p + |form| && e < |s| && IsSpace(s[e])
    ensures e < p && StandsAt(u, s[e..], form, p - e)
  {
    SpaceFreeStaysOneSide(s, form, p, e);
    assert s[e..][p - e..p - e + |form|] == form;
  }

  lemma {:induction false} RestCarries(u: Unicode, s: string, e: nat, form: string)
    requires Lawful(u) && form != [] && s != [] && !IsSpace(s[0]) && e == RunEnd(s, 0, IsVisible)
    requires Stands(u, Collapse(s[e..]), form)
    ensures Stands(u, Collapse(s), form)
  {
    AfterASpace(u, s[..e], Collapse(s[e..]), form);
    assert Collapse(s[e..]) != [] by { StandsNowhereInNothing(u, form); }
  }

  lemma {:induction false} StandsNowhereInNothing(u: Unicode, form: string)
    requires form != []
    ensures !Stands(u, [], form)
  {
  }

  lemma {:induction false} FirstWordCarries(u: Unicode, s: string, e: nat, form: string, p: int)
    requires Lawful(u) && s != [] && !IsSpace(s[0]) && e == RunEnd(s, 0, IsVisible)
    requires StandsAt(u, s, form, p) && p + |form| <= e
    ensures Stands(u, Collapse(s), form)
  {
    var t := Collapse(s);
    assert t[..e] == s[..e];
    assert t[p..p + |form|] == s[..e][p..p + |form|] == form;
    assert !u.word(' ');
    assert StandsAt(u, t, form, p);
  }

  lemma {:induction false} SpaceIsNoWord(u: Unicode)
    requires Lawful(u)
    ensures !u.word(' ')
  {
    assert IsSpace(' ');
  }

  lemma {:induction false} ShiftStands(u: Unicode, front: string, rest: string, form: string, q: int)
    requires front != [] && !u.word(front[|front| - 1]) && StandsAt(u, rest, form, q)
    ensures Stands(u, front + rest, form)
  {
    var t, n := front + rest, |front|;
    assert t[n + q..n + q + |form|] == t[n..][q..q + |form|];
    assert StandsAt(u, t, form, n + q);
  }

  lemma {:induction false} AfterASpace(u: Unicode, first: string, rest: string, form: string)
    requires Lawful(u) && form != [] && Stands(u, rest, form)
    ensures Stands(u, first + " " + rest, form)
  {
    var q :| 0 <= q <= |rest| && StandsAt(u, rest, form, q);
    SpaceIsNoWord(u);
    ShiftStands(u, first + " ", rest, form, q);
  }

  /** A word that stands alone in a text still does, lower-cased, in the text's normal form. */
  lemma {:induction false} NormalFormKeepsTokens(u: Unicode, s: string, token: string, p: int)
    requires Lawful(u) && token != [] && IsPlain(u, token) && StandsAt(u, s, token, p)
    ensures Stands(u, NormalizeText(u, s), LowerAscii(token))
  {
    var form := LowerAscii(token);
    forall k | 0 <= k < |token|
      ensures CleanChar(form[k]) == form[k] && !IsSpace(form[k])
    {
      PlainCharStays(u, token[k]);
    }
    LowerCarries(u, s, token, p);
    StraightCarries(u, LowerAll(u, s), form);
    var straight := Normalize(LowerAll(u, s));
    var q :| 0 <= q <= |straight| && StandsAt(u, straight, form, q);
    CollapseCarries(u, straight, form, q);
  }

  // ---------- technology-shaped names ----------

  /** `\b` at position `i`. */
  predicate Boundary(u: Unicode, s: string, i: nat)
    requires i <= |s|
  {
    (i > 0 && u.word(s[i - 1])) != (i < |s| && u.word(s[i]))
  }

  predicate InnerCapital(w: string) {
    exists k :: 1 <= k < |w| && IsUpper(w[k]) && RunEnd(w, 0, IsLetter) >= k
  }

  /** The first alternative of `SHAPE_PATTERN`, matched at `i`: where its match ends, or -1. */
  function CapitalMatch(u: Unicode, s: string, i: nat): (e: int)
    requires i <= |s|
    ensures e == -1 || i < e <= |s|
  {
    if i == |s| || !IsLetter(s[i]) || !Boundary(u, s, i) then -1
    else
      var end := RunEnd(s, i, IsAlnum);
      if Boundary(u, s, end) && InnerCapital(s[i..end]) then end else -1
  }

  predicate IsTail(c: char) { IsAlnum(c) || c == '.' || c == '+' }

  /** The last boundary in `lo..hi`, or -1: greedy repetition, giving back one character at a time. */
  function LastBoundary(u: Unicode, s: string, lo: nat, hi: nat): (e: int)
    requires lo <= hi <= |s|
    ensures e == -1 || (lo <= e <= hi && Boundary(u, s, e))
    ensures forall k :: lo <= k <= hi && e < k ==> !Boundary(u, s, k)
    decreases hi - lo
  {
    if Boundary(u, s, hi) then hi
    else if hi == lo then -1
    else LastBoundary(u, s, lo, hi - 1)
  }

  /** The second alternative: letters, a digit, and the longest tail that ends at a boundary. */
  function DigitMatch(u: Unicode, s: string, i: nat): (e: int)
    requires i <= |s|
    ensures e == -1 || i < e <= |s|
  {
    var d := RunEnd(s, i, IsLetter);
    if d < i + 2 || d == |s| || !u.digit(s[d]) || !Boundary(u, s, i) then -1
    else LastBoundary(u, s, d + 1, RunEnd(s, d + 1, IsTail))
  }

  function ShapeMatch(u: Unicode, s: string, i: nat): (e: int)
    requires i <= |s|
    ensures e == -1 || i < e <= |s|
  {
    if CapitalMatch(u, s, i) != -1 then CapitalMatch(u, s, i) else DigitMatch(u, s, i)
  }

  /** `SHAPE_PATTERN.findall(s)`, from position `i` on. */
  function Tokens(u: Unicode, s: string, i: nat): seq<string>
    requires i <= |s|
    decreases |s| - i
  {
    if i == |s| then []
    else
      var e := ShapeMatch(u, s, i);
      if e != -1 then [s[i..e]] + Tokens(u, s, e) else Tokens(u, s, i + 1)
  }

  // ---------- the matchers against the pattern ----------

  ghost predicate AllOf(s: string, i: nat, e: nat, p: char -> bool)
    requires i <= e <= |s|
  {
    forall k :: i <= k < e ==> p(s[k])
  }

  /** `(?:[A-Z][A-Za-z0-9]*)+` spans `i..e`. */
  ghost predicate Groups(s: string, i: nat, e: nat)
    requires i <= e <= |s|
    decreases e - i
  {
    exists m :: i < m <= e && IsGroup(s, i, m) && (m == e || Groups(s, m, e))
  }

  ghost predicate IsGroup(s: string, i: nat, m: nat)
    requires i < m <= |s|
  {
    IsUpper(s[i]) && AllOf(s, i + 1, m, IsAlnum)
  }

  /** `\b[A-Za-z]+(?:[A-Z][A-Za-z0-9]*)+\b` spans `i..e`. */
  ghost predicate CapitalPattern(u: Unicode, s: string, i: nat, e: nat)
    requires i <= e <= |s|
  {
    && Boundary(u, s, i) && Boundary(u, s, e)
    && exists k :: i < k <= e && AllOf(s, i, k, IsLetter) && Groups(s, k, e)
  }

  /** `\b[A-Za-z]{2,}\d[A-Za-z0-9.+]*\b` spans `i..e`. */
  ghost predicate DigitPattern(u: Unicode, s: string, i: nat, e: nat)
    requires i <= e <= |s|
  {
    && Boundary(u, s, i) && Boundary(u, s, e)
    && exists d :: i + 2 <= d < e && AllOf(s, i, d, IsLetter) && u.digit(s[d])
                   && forall k :: d < k < e ==> IsAlnum(s[k]) || s[k] == '.' || s[k] == '+'
  }

  lemma {:induction false} GroupsAreOneGroup(s: string, i: nat, e: nat)
    requires i <= e <= |s|
    ensures Groups(s, i, e) <==> i < e && IsUpper(s[i]) && AllOf(s, i, e, IsAlnum)
    decreases e - i
  {
    if Groups(s, i, e) {
      var m :| i < m <= e && IsGroup(s, i, m) && (m == e || Groups(s, m, e));
      if m < e {
        GroupsAreOneGroup(s, m, e);
      }
    } else if i < e && IsUpper(s[i]) && AllOf(s, i, e, IsAlnum) {
      assert IsGroup(s, i, e);
    }
  }

  /** The capital matcher finds exactly the match of the pattern, which is unique. */
  lemma {:induction false} CapitalMatchIsThePattern(u: Unicode, s: string, i: nat, e: nat)
    requires Lawful(u) && i <= e <= |s|
    ensures CapitalMatch(u, s, i) == e <==> CapitalPattern(u, s, i, e)
  {
    if CapitalPattern(u, s, i, e) {
      PatternIsMatched(u, s, i, e);
    }
    if CapitalMatch(u, s, i) == e {
      MatchIsAPattern(u, s, i, e);
    }
  }

  lemma {:induction false} PatternIsMatched(u: Unicode, s: string, i: nat, e: nat)
    requires Lawful(u) && i <= e <= |s| && CapitalPattern(u, s, i, e)
    ensures CapitalMatch(u, s, i) == e
  {
    var k :| i < k <= e && AllOf(s, i, k, IsLetter) && Groups(s, k, e);
    GroupsAreOneGroup(s, k, e);
    assert IsLetter(s[i]);
    BoundedRunIsMaximal(u, s, i, e);
    assert s[i..e][k - i] == s[k];
    forall n | 0 <= n < k - i
      ensures IsLetter(s[i..e][n])
    {
      assert s[i..e][n] == s[i + n];
    }
    CapitalInside(s[i..e], k - i);
  }

  lemma {:induction false} CapitalInside(w: string, k: nat)
    requires 1 <= k < |w| && IsUpper(w[k]) && forall n :: 0 <= n < k ==> IsLetter(w[n])
    ensures InnerCapital(w)
  {
  }

  lemma {:induction false} MatchIsAPattern(u: Unicode, s: string, i: nat, e: nat)
    requires i <= e <= |s| && CapitalMatch(u, s, i) == e
    ensures CapitalPattern(u, s, i, e)
  {
    var w := s[i..e];
    var k :| 1 <= k < |w| && IsUpper(w[k]) && RunEnd(w, 0, IsLetter) >= k;
    assert forall n :: i <= n < i + k ==> w[n - i] == s[n];
    assert s[i + k] == w[k];
    GroupsAreOneGroup(s, i + k, e);
  }

  lemma {:induction false} BoundedRunIsMaximal(u: Unicode, s: string, i: nat, e: nat)
    requires Lawful(u) && i < e <= |s| && AllOf(s, i, e, IsAlnum) && Boundary(u, s, e)
    ensures RunEnd(s, i, IsAlnum) == e
  {
    assert IsAlnum(s[e - 1]) && u.word(s[e - 1]);
    assert e == |s| || !IsAlnum(s[e]);
  }

  /** The digit matcher finds the longest match of the pattern. */
  lemma {:induction false} DigitMatchIsTheLongest(u: Unicode, s: string, i: nat, e: nat)
    requires Lawful(u) && i <= e <= |s| && DigitPattern(u, s, i, e)
    ensures e <= DigitMatch(u, s, i) <= |s| && DigitPattern(u, s, i, DigitMatch(u, s, i))
  {
    var d :| i + 2 <= d < e && AllOf(s, i, d, IsLetter) && u.digit(s[d]) && AllOf(s, d + 1, e, IsTail);
    DigitIsNoLetter(u, s[d]);
    var r := RunEnd(s, d + 1, IsTail);
    assert RunEnd(s, i, IsLetter) == d;
    assert e <= r;
    var m := LastBoundary(u, s, d + 1, r);
    assert AllOf(s, d + 1, m, IsTail);
  }

  lemma {:induction false} DigitIsNoLetter(u: Unicode, c: char)
    requires Lawful(u) && u.digit(c)
    ensures !IsLetter(c)
  {
  }

  /** ... and nothing else. */
  lemma {:induction false} DigitMatchIsAMatch(u: Unicode, s: string, i: nat)
    requires i <= |s| && DigitMatch(u, s, i) != -1
    ensures DigitPattern(u, s, i, DigitMatch(u, s, i))
  {
    var d, e := RunEnd(s, i, IsLetter), DigitMatch(u, s, i);
    assert AllOf(s, i, d, IsLetter) && AllOf(s, d + 1, e, IsTail);
  }

  // ---------- claims and evidence ----------

  /** The module's word lists: the curated vocabulary, the spellings that name the same technology,
      and the words that look like one but never are a claim. */
  datatype Lists = Lists(vocabulary: set<string>, aliases: map<string, string>, notTech: set<string>)

  predicate IsLowerAscii(s: string) {
    forall k :: 0 <= k < |s| ==> IsAscii(s[k]) && !IsUpper(s[k])
  }

  ghost predicate LowerCaseLists(l: Lists) {
    forall n :: n in l.vocabulary ==> IsLowerAscii(n)
  }

  /** `tech_variants`. */
  function Variants(u: Unicode, l: Lists, name: string): set<string> {
    var canonical := Canonical(u, l, name);
    {canonical, LowerAll(u, name)} + (set s | s in l.aliases && l.aliases[s] == canonical :: s)
  }

  function Canonical(u: Unicode, l: Lists, name: string): string {
    var lowered := LowerAll(u, name);
    if lowered in l.aliases then l.aliases[lowered] else lowered
  }

  /** `mentions_technology`. */
  predicate Mentions(u: Unicode, l: Lists, text: string, name: string) {
    exists v :: v in Variants(u, l, name) && StatesForm(u, NormalizeText(u, text), v)
  }

  predicate StatesForm(u: Unicode, haystack: string, spelling: string) {
    Stands(u, haystack, spelling) || Stands(u, haystack, spelling + "s")
  }

  /** Spellings of one technology are interchangeable: a text that states one of them states each. */
  lemma {:induction false} AliasesAreInterchangeable(u: Unicode, l: Lists, text: string, a: string, b: string)
    requires Canonical(u, l, a) == Canonical(u, l, b)
    ensures Mentions(u, l, text, a) <==> Mentions(u, l, text, b)
  {
    assert Variants(u, l, a) == Variants(u, l, b);
  }

  /** Tokens that are no claim: the explicit exceptions, and all-capitals without a digit. */
  predicate Skipped(u: Unicode, l: Lists, token: string) {
    || LowerAscii(token) in l.notTech
    || ((exists k :: 0 <= k < |token| && IsUpper(token[k])) && UpperAscii(token) == token
        && forall k :: 0 <= k < |token| ==> !u.digit(token[k]))
  }

  function ClaimOf(token: string): string {
    UpperAscii(LowerAscii(token))
  }

  /** `extract_tech_keywords`. */
  function Claims(u: Unicode, l: Lists, text: string): set<string> {
    (set n | n in l.vocabulary && Mentions(u, l, text, n) :: UpperAscii(n))
    + (set t | t in Tokens(u, text, 0) && !Skipped(u, l, t) :: ClaimOf(t))
  }

  /** `invented_technologies`. */
  function Invented(u: Unicode, l: Lists, text: string, evidence: seq<string>): set<string> {
    set c | c in Claims(u, l, text) && !Evidenced(u, l, evidence, c)
  }

  predicate Evidenced(u: Unicode, l: Lists, evidence: seq<string>, claim: string) {
    exists k :: 0 <= k < |evidence| && Mentions(u, l, evidence[k], claim)
  }

  // ---------- a text against itself ----------

  /** The match `i..e` ends in a dot or a plus: its closing `\b` is then the start of a word. */
  predicate Dangling(s: string, i: nat, e: int)
    requires i < e <= |s|
  {
    s[e - 1] == '.' || s[e - 1] == '+'
  }

  /** Tokens come from matches. */
  lemma {:induction false} TokenHasASpan(u: Unicode, s: string, i: nat, token: string) returns (n: nat, e: nat)
    requires i <= |s| && token in Tokens(u, s, i)
    ensures i <= n < e <= |s| && ShapeMatch(u, s, n) == e && token == s[n..e]
    decreases |s| - i
  {
    e := if ShapeMatch(u, s, i) == -1 then i else ShapeMatch(u, s, i);
    n := i;
    if e == i {
      n, e := TokenHasASpan(u, s, i + 1, token);
    } else if token != s[i..e] {
      n, e := TokenHasASpan(u, s, e, token);
    }
  }

  lemma {:induction false} CapitalShape(u: Unicode, s: string, i: nat)
    requires i <= |s| && CapitalMatch(u, s, i) != -1
    ensures var e := CapitalMatch(u, s, i);
      && Boundary(u, s, i) && Boundary(u, s, e) && IsLetter(s[i])
      && AllOf(s, i, e, IsAlnum)
  {
  }

  lemma {:induction false} DigitShape(u: Unicode, s: string, i: nat)
    requires i <= |s| && DigitMatch(u, s, i) != -1
    ensures var e := DigitMatch(u, s, i);
      && Boundary(u, s, i) && Boundary(u, s, e) && IsLetter(s[i])
      && forall k :: i <= k < e ==> TokenChar(u, s[k])
  {
    var e := DigitMatch(u, s, i);
    DigitMatchIsAMatch(u, s, i);
    var d :| i + 2 <= d < e && AllOf(s, i, d, IsLetter) && u.digit(s[d])
             && forall k :: d < k < e ==> IsAlnum(s[k]) || s[k] == '.' || s[k] == '+';
    forall k | i <= k < e
      ensures TokenChar(u, s[k])
    {
    }
  }

  /** What a match looks like from outside: a boundary on both sides, token characters inside. */
  lemma {:induction false} MatchShape(u: Unicode, s: string, i: nat)
    requires i <= |s| && ShapeMatch(u, s, i) != -1
    ensures var e := ShapeMatch(u, s, i);
      && Boundary(u, s, i) && Boundary(u, s, e) && IsLetter(s[i])
      && forall k :: i <= k < e ==> TokenChar(u, s[k])
  {
    if CapitalMatch(u, s, i) != -1 {
      CapitalShape(u, s, i);
      assert forall k :: i <= k < ShapeMatch(u, s, i) ==> IsAlnum(s[k]);
    } else {
      DigitShape(u, s, i);
    }
  }

  lemma {:induction false} TokenWord(u: Unicode, c: char)
    requires Lawful(u) && TokenChar(u, c) && c != '.' && c != '+'
    ensures u.word(c)
  {
  }

  /** A token that does not dangle stands alone in its text. */
  lemma {:induction false} TokenStandsAlone(u: Unicode, s: string, i: nat)
    requires Lawful(u) && i <= |s| && ShapeMatch(u, s, i) != -1 && !Dangling(s, i, ShapeMatch(u, s, i))
    ensures StandsAt(u, s, s[i..ShapeMatch(u, s, i)], i) && IsToken(u, s[i..ShapeMatch(u, s, i)])
  {
    MatchShape(u, s, i);
    TokenWord(u, s[i]);
    TokenWord(u, s[ShapeMatch(u, s, i) - 1]);
  }

  lemma {:induction false} CapitalNeverDangles(u: Unicode, s: string, i: nat)
    requires i <= |s|
    ensures CapitalMatch(u, s, i) != -1 ==> !Dangling(s, i, CapitalMatch(u, s, i))
  {
    if CapitalMatch(u, s, i) != -1 {
      CapitalShape(u, s, i);
      assert IsAlnum(s[CapitalMatch(u, s, i) - 1]);
    }
  }

  /** Only a word character beyond the ASCII letters and digits lets a token dangle: without one the
      tail would have gone on, or ended before its dot. */
  lemma {:induction false} DanglingNeedsAnOddCharacter(u: Unicode, s: string, i: nat)
    requires Lawful(u) && i <= |s| && ShapeMatch(u, s, i) != -1 && Dangling(s, i, ShapeMatch(u, s, i))
    ensures exists k :: 0 <= k < |s| && u.word(s[k]) && !IsAlnum(s[k])
  {
    var e := ShapeMatch(u, s, i);
    MatchShape(u, s, i);
    assert !u.word(s[e - 1]) && e < |s| && u.word(s[e]);
    CapitalNeverDangles(u, s, i);
    if forall k :: 0 <= k < |s| && u.word(s[k]) ==> IsAlnum(s[k]) {
      TailGoesOn(u, s, i, e);
      assert false;
    }
  }

  lemma {:induction false} TailGoesOn(u: Unicode, s: string, i: nat, e: nat)
    requires Lawful(u) && i < e < |s| && IsAlnum(s[e]) && DigitMatch(u, s, i) != -1
    requires forall k :: 0 <= k < |s| && u.word(s[k]) ==> IsAlnum(s[k])
    ensures DigitMatch(u, s, i) != e
  {
    var d := RunEnd(s, i, IsLetter);
    if DigitMatch(u, s, i) == e {
      var hi := RunEnd(s, d + 1, IsTail);
      assert e < hi;
      BoundaryAhead(u, s, e, hi);
      assert false;
    }
  }

  lemma {:induction false} BoundaryAhead(u: Unicode, s: string, lo: nat, hi: nat)
    requires Lawful(u) && lo < hi <= |s| && IsAlnum(s[lo])
    requires forall k :: lo <= k < hi ==> IsTail(s[k])
    requires hi == |s| || !u.word(s[hi])
    ensures exists k :: lo < k <= hi && Boundary(u, s, k)
  {
    if IsAlnum(s[hi - 1]) {
      assert Boundary(u, s, hi);
    } else {
      BoundaryAhead(u, s, lo, hi - 1);
    }
  }

  lemma {:induction false} LowerIsPointwise(u: Unicode, s: string)
    requires Lawful(u) && forall k :: 0 <= k < |s| ==> IsAscii(s[k])
    ensures LowerAll(u, s) == LowerAscii(s)
  {
    if s != [] {
      LowerIsPointwise(u, s[1..]);
    }
  }

  lemma {:induction false} LowerOfLowerCase(u: Unicode, name: string)
    requires Lawful(u) && IsLowerAscii(name)
    ensures LowerAll(u, name) == name && LowerAll(u, UpperAscii(name)) == name
  {
    LowerIsPointwise(u, name);
    LowerIsPointwise(u, UpperAscii(name));
    assert LowerAscii(name) == name;
    assert LowerAscii(UpperAscii(name)) == name;
  }

  lemma {:induction false} LowerOfClaim(u: Unicode, token: string)
    requires Lawful(u) && IsToken(u, token)
    ensures LowerAll(u, ClaimOf(token)) == LowerAscii(token)
  {
    forall k | 0 <= k < |token|
      ensures TokenChar(u, ClaimOf(token)[k]) && LowerChar(ClaimOf(token)[k]) == LowerChar(token[k])
    {
      TokenCharIsPlain(u, token[k]);
      TokenCharIsPlain(u, LowerChar(token[k]));
    }
    LowerOfToken(u, ClaimOf(token));
    assert LowerAscii(ClaimOf(token)) == LowerAscii(token);
  }

  /** A token that does not dangle is evidenced by the text it was found in. */
  lemma {:induction false} TokenIsMentioned(u: Unicode, l: Lists, s: string, i: nat, e: int, token: string)
    requires Lawful(u) && i <= |s| && e == ShapeMatch(u, s, i) != -1 && token == s[i..e] && !Dangling(s, i, e)
    ensures Mentions(u, l, s, ClaimOf(token))
  {
    TokenStandsAlone(u, s, i);
    NormalFormKeepsTokens(u, s, token, i);
    LowerOfClaim(u, token);
    assert LowerAscii(token) in Variants(u, l, ClaimOf(token));
    assert StatesForm(u, NormalizeText(u, s), LowerAscii(token));
  }

  /** A vocabulary claim is a mention, whatever its case. */
  lemma {:induction false} VocabularyIsMentioned(u: Unicode, l: Lists, text: string, name: string)
    requires Lawful(u) && IsLowerAscii(name) && Mentions(u, l, text, name)
    ensures Mentions(u, l, text, UpperAscii(name))
  {
    LowerOfLowerCase(u, name);
    assert Variants(u, l, UpperAscii(name)) == Variants(u, l, name);
  }

  ghost predicate DanglingToken(u: Unicode, l: Lists, token: string) {
    token != [] && (token[|token| - 1] == '.' || token[|token| - 1] == '+') && !Skipped(u, l, token)
  }

  lemma {:induction false} NotMentioned(u: Unicode, l: Lists, s: string, evidence: seq<string>, claim: string)
    requires s in evidence && !Evidenced(u, l, evidence, claim)
    ensures !Mentions(u, l, s, claim)
  {
    var j :| 0 <= j < |evidence| && evidence[j] == s;
  }

  /** A claim is mentioned in the text or came from a token. */
  lemma {:induction false} ClaimSource(u: Unicode, l: Lists, s: string, claim: string) returns (t: string)
    requires Lawful(u) && LowerCaseLists(l) && claim in Claims(u, l, s)
    ensures Mentions(u, l, s, claim) || (t in Tokens(u, s, 0) && !Skipped(u, l, t) && ClaimOf(t) == claim)
  {
    t := "";
    if n :| n in l.vocabulary && Mentions(u, l, s, n) && UpperAscii(n) == claim {
      VocabularyIsMentioned(u, l, s, n);
    } else {
      t :| t in Tokens(u, s, 0) && !Skipped(u, l, t) && ClaimOf(t) == claim;
    }
  }

  /** A token is mentioned in its text or dangles there. */
  lemma {:induction false} TokenIsMentionedOrDangles(u: Unicode, l: Lists, s: string, t: string)
    returns (i: nat, e: nat)
    requires Lawful(u) && t in Tokens(u, s, 0)
    ensures i < e <= |s| && ShapeMatch(u, s, i) == e && t == s[i..e]
    ensures Dangling(s, i, e) || Mentions(u, l, s, ClaimOf(t))
  {
    i, e := TokenHasASpan(u, s, 0, t);
    if !Dangling(s, i, e) {
      TokenIsMentioned(u, l, s, i, e, t);
    }
  }

  /** With a text among its own evidence, only a dangling token can be accused. */
  lemma {:induction false} OnlyDanglingTokensAreAccused(u: Unicode, l: Lists, s: string, evidence: seq<string>,
                                                        claim: string)
    returns (t: string, i: nat, e: nat)
    requires Lawful(u) && LowerCaseLists(l) && s in evidence && claim in Invented(u, l, s, evidence)
    ensures t in Tokens(u, s, 0) && DanglingToken(u, l, t) && ClaimOf(t) == claim && !Mentions(u, l, s, claim)
    ensures i < e <= |s| && ShapeMatch(u, s, i) == e && t == s[i..e] && Dangling(s, i, e)
  {
    NotMentioned(u, l, s, evidence, claim);
    t := ClaimSource(u, l, s, claim);
    i, e := TokenIsMentionedOrDangles(u, l, s, t);
    assert t[|t| - 1] == s[e - 1];
  }

  /** A text is clean against itself exactly when each of its dangling tokens is stated somewhere else
      in it. */
  lemma {:induction false} SelfAccusationExactly(u: Unicode, l: Lists, s: string)
    requires Lawful(u) && LowerCaseLists(l)
    ensures Invented(u, l, s, [s]) == {}
      <==> forall t :: t in Tokens(u, s, 0) && DanglingToken(u, l, t) ==> Mentions(u, l, s, ClaimOf(t))
  {
    if claim :| claim in Invented(u, l, s, [s]) {
      var t, i, e := OnlyDanglingTokensAreAccused(u, l, s, [s], claim);
    }
    forall t | t in Tokens(u, s, 0) && DanglingToken(u, l, t) && !Mentions(u, l, s, ClaimOf(t))
      ensures ClaimOf(t) in Invented(u, l, s, [s])
    {
      assert ClaimOf(t) in Claims(u, l, s);
    }
  }

  ghost predicate OnlyAlnumWords(u: Unicode, s: string) {
    forall k :: 0 <= k < |s| && u.word(s[k]) ==> IsAlnum(s[k])
  }

  /** A document is never accused by its own text: when the word characters of a text are all ASCII
      letters or digits, no claim of it is invented as long as it is among the evidence. */
  lemma {:induction false} NeverAccusedByItsOwnText(u: Unicode, l: Lists, s: string, evidence: seq<string>)
    requires Lawful(u) && LowerCaseLists(l) && s in evidence && OnlyAlnumWords(u, s)
    ensures Invented(u, l, s, evidence) == {}
  {
    if claim :| claim in Invented(u, l, s, evidence) {
      var t, i, e := OnlyDanglingTokensAreAccused(u, l, s, evidence, claim);
      DanglingNeedsAnOddCharacter(u, s, i);
      assert false;
    }
  }

  // The side condition is real: the text `abc1._x` is accused of `ABC1.`.

  lemma {:induction false} TailEndsAtTheUnderscore(u: Unicode)
    requires Lawful(u)
    ensures DigitMatch(u, "abc1._x", 0) == 5
  {
    var s := "abc1._x";
    assert RunEnd(s, 3, IsLetter) == 3;
    assert RunEnd(s, 2, IsLetter) == 3;
    assert RunEnd(s, 1, IsLetter) == 3;
    assert RunEnd(s, 5, IsTail) == 5;
    assert Boundary(u, s, 0) && Boundary(u, s, 5);
  }

  lemma {:induction false} NoCapitalNoMatch(u: Unicode, s: string, i: nat)
    requires i <= |s| && forall k :: 0 <= k < |s| ==> !IsUpper(s[k])
    ensures CapitalMatch(u, s, i) == -1
  {
    var w := s[i..RunEnd(s, i, IsAlnum)];
    forall k | 0 <= k < |w|
      ensures !IsUpper(w[k])
    {
      assert w[k] == s[i + k];
    }
  }

  lemma {:induction false} CollapseOfVisible(s: string)
    requires NoSpaces(s)
    ensures Collapse(s) == s
  {
    if s != [] {
      assert RunEnd(s, 0, IsVisible) == |s|;
      assert s[|s|..] == [] && s[..|s|] == s;
    }
  }

  lemma {:induction false} LowerCaseIsItsOwnNormalForm(u: Unicode, s: string)
    requires Lawful(u) && IsLowerAscii(s) && NoSpaces(s)
    ensures NormalizeText(u, s) == s
  {
    LowerOfLowerCase(u, s);
    assert Normalize(s) == s;
    CollapseOfVisible(s);
  }

  lemma {:induction false} NowhereAlone(u: Unicode)
    requires Lawful(u)
    ensures !StatesForm(u, "abc1._x", "abc1.")
  {
    var s, form, plural := "abc1._x", "abc1.", "abc1." + "s";
    forall p | 0 <= p <= |s|
      ensures !StandsAt(u, s, form, p) && !StandsAt(u, s, plural, p)
    {
      assert form[0] == 'a' && plural[0] == 'a' && plural[5] == 's';
      if p == 0 {
        assert u.word(s[5]);
        assert s[0..6][5] == '_';
      } else if p + 5 <= |s| {
        assert s[p..p + 5][0] == s[p] != 'a';
        assert p + 6 <= |s| ==> s[p..p + 6][0] == s[p];
      }
    }
  }

  lemma {:induction false} ExampleToken(u: Unicode)
    requires Lawful(u)
    ensures "abc1." in Tokens(u, "abc1._x", 0) && IsToken(u, "abc1.") && ClaimOf("abc1.") == "ABC1."
  {
    var s := "abc1._x";
    TailEndsAtTheUnderscore(u);
    NoCapitalNoMatch(u, s, 0);
    assert s[0..5] == "abc1.";
  }

  lemma {:induction false} ExampleIsNotSkipped(u: Unicode, l: Lists)
    requires "abc1." !in l.notTech
    ensures !Skipped(u, l, "abc1.")
  {
    assert LowerAscii("abc1.") == "abc1.";
    assert UpperAscii("abc1.")[0] != "abc1."[0];
  }

  lemma {:induction false} ExampleVariants(u: Unicode, l: Lists)
    requires Lawful(u) && IsToken(u, "abc1.") && ClaimOf("abc1.") == "ABC1."
    requires "abc1." !in l.aliases && "abc1." !in l.aliases.Values
    ensures Variants(u, l, "ABC1.") == {"abc1."}
  {
    LowerOfClaim(u, "abc1.");
    assert LowerAscii("abc1.") == "abc1.";
  }

  lemma {:induction false} ExampleIsNotMentioned(u: Unicode, l: Lists)
    requires Lawful(u) && Variants(u, l, "ABC1.") == {"abc1."}
    ensures !Mentions(u, l, "abc1._x", "ABC1.")
  {
    LowerCaseIsItsOwnNormalForm(u, "abc1._x");
    NowhereAlone(u);
  }

  /** `abc1._x` is accused by its own text, under any tables and any lists that do not know `abc1.`. */
  lemma {:induction false} UnderscoreAfterADotAccuses(u: Unicode, l: Lists)
    requires Lawful(u) && "abc1." !in l.notTech && "abc1." !in l.aliases && "abc1." !in l.aliases.Values
    ensures "ABC1." in Invented(u, l, "abc1._x", ["abc1._x"])
  {
    ExampleToken(u);
    ExampleIsNotSkipped(u, l);
    ExampleVariants(u, l);
    ExampleIsNotMentioned(u, l);
  }

  // Two names the module's comments promise to catch by shape are not: `n8n` has one letter before its
  // digit, and of `GPT-4` only `GPT` is a token, which is skipped as an all-capitals word.

  lemma {:induction false} OneLetterBeforeADigit(u: Unicode)
    requires Lawful(u)
    ensures Tokens(u, "n8n", 0) == []
  {
    var s := "n8n";
    NoCapitalNoMatch(u, s, 0);
    NoCapitalNoMatch(u, s, 1);
    NoCapitalNoMatch(u, s, 2);
    assert RunEnd(s, 3, IsLetter) == 3;
    assert RunEnd(s, 1, IsLetter) == 1 && RunEnd(s, 0, IsLetter) == 1 && RunEnd(s, 2, IsLetter) == 3;
    assert Tokens(u, s, 3) == [] && Tokens(u, s, 2) == [] && Tokens(u, s, 1) == [];
  }

  lemma {:induction false} DigitBehindADash(u: Unicode, l: Lists)
    requires Lawful(u)
    ensures Tokens(u, "GPT-4", 0) == ["GPT"] && Skipped(u, l, "GPT")
  {
    var s := "GPT-4";
    assert RunEnd(s, 0, IsAlnum) == 3 by { assert RunEnd(s, 3, IsAlnum) == 3 && RunEnd(s, 2, IsAlnum) == 3; }
    assert s[0..3] == "GPT";
    assert RunEnd("GPT", 0, IsLetter) >= 1 && IsUpper("GPT"[1]);
    assert CapitalMatch(u, s, 0) == 3;
    assert RunEnd(s, 3, IsLetter) == 3 && RunEnd(s, 4, IsLetter) == 4;
    assert Tokens(u, s, 5) == [] && Tokens(u, s, 4) == [] && Tokens(u, s, 3) == [];
    assert IsUpper("GPT"[0]) && UpperAscii("GPT") == "GPT";
  }

  // ---------- the finished document ----------

  /** `scan_document_for_fabrications`: the invented technologies and the unbacked numbers. What
      `extract_numbers` finds is a parameter; a number may also stand anywhere in the facts. */
  function Scan(u: Unicode, l: Lists, numbers: string -> set<string>, document: string, cvText: string,
                facts: string, master: string): (set<string>, set<string>)
  {
    (Invented(u, l, document, [cvText, facts, master]),
     set n | n in numbers(document)
             && n !in numbers(cvText) + numbers(master) && !Contains(NormalizeText(u, facts), n) :: n)
  }

  /** The untouched master always passes the gate's scan. */
  lemma {:induction false} UntouchedMasterPasses(u: Unicode, l: Lists, numbers: string -> set<string>, cvText: string,
                              facts: string, master: string)
    requires Lawful(u) && LowerCaseLists(l) && OnlyAlnumWords(u, master)
    ensures Scan(u, l, numbers, master, cvText, facts, master) == ({}, {})
  {
    NeverAccusedByItsOwnText(u, l, master, [cvText, facts, master]);
    assert Scan(u, l, numbers, master, cvText, facts, master).1 == {};
  }
}

/** What the "0% lies" check catches (`agent/verification.py`): a technology or a number that a text states
    and no evidence does is reported, the replacement that brings it is dropped, and the finished document
    that shows it fails the scan. */
module Fabrications {
  import opened Replacements
  import opened SelfHeal
  import opened Text
  import opened Verification

  // ---------- what an ASCII text mentions ----------

  predicate AllAscii(s: string) {
    forall k :: 0 <= k < |s| ==> IsAscii(s[k])
  }

  lemma {:induction false} AsciiNormalForm(u: Unicode, s: string)
    requires Lawful(u) && AllAscii(s)
    ensures NormalizeText(u, s) == Collapse(LowerAscii(s))
  {
    LowerIsPointwise(u, s);
    assert Normalize(LowerAscii(s)) == LowerAscii(s);
  }

  /** Joining the words with single spaces brings no new word about. */
  lemma {:induction false} CollapseAddsNoWord(u: Unicode, s: string, form: string)
    requires Lawful(u) && form != [] && NoSpaces(form) && Stands(u, Collapse(s), form)
    ensures Stands(u, s, form)
    decreases |s|
  {
    if s == [] {
      StandsNowhereInNothing(u, form);
    } else if IsSpace(s[0]) {
      CollapseAddsNoWord(u, s[1..], form);
      LaterInTheText(u, s, 1, form);
    } else {
      var e := RunEnd(s, 0, IsVisible);
      var p :| 0 <= p <= |Collapse(s)| && StandsAt(u, Collapse(s), form, p);
      if Collapse(s[e..]) == [] {
        InTheFirstWord(u, s, e, form, p);
      } else {
        InOneOfTheWords(u, s, e, form, p);
        if Stands(u, Collapse(s[e..]), form) {
          CollapseAddsNoWord(u, s[e..], form);
          LaterInTheText(u, s, e, form);
        } else {
          InTheFirstWord(u, s, e, form, p);
        }
      }
    }
  }

  lemma {:induction false} LaterInTheText(u: Unicode, s: string, e: nat, form: string)
    requires Lawful(u) && 0 < e <= |s| && form != [] && NoSpaces(form) && Stands(u, s[e..], form)
    requires e < |s| ==> IsSpace(s[e]) || IsSpace(s[e - 1])
    ensures Stands(u, s, form)
  {
    var q :| 0 <= q <= |s[e..]| && StandsAt(u, s[e..], form, q);
    assert s[e + q..e + q + |form|] == s[e..][q..q + |form|];
    assert s[e..][q] == form[0];
    assert StandsAt(u, s, form, e + q);
  }

  lemma {:induction false} InTheFirstWord(u: Unicode, s: string, e: nat, form: string, p: int)
    requires Lawful(u) && form != [] && s != [] && !IsSpace(s[0]) && e == RunEnd(s, 0, IsVisible)
    requires StandsAt(u, Collapse(s), form, p) && p + |form| <= e
    ensures Stands(u, s, form)
  {
    var t := Collapse(s);
    assert t[..e] == s[..e];
    assert s[p..p + |form|] == t[..e][p..p + |form|];
    assert e < |s| ==> IsSpace(s[e]);
    assert StandsAt(u, s, form, p);
  }

  lemma {:induction false} InOneOfTheWords(u: Unicode, s: string, e: nat, form: string, p: int)
    requires Lawful(u) && form != [] && NoSpaces(form) && s != [] && !IsSpace(s[0])
    requires e == RunEnd(s, 0, IsVisible) && Collapse(s[e..]) != [] && StandsAt(u, Collapse(s), form, p)
    ensures p + |form| <= e || Stands(u, Collapse(s[e..]), form)
  {
    var t, rest := Collapse(s), Collapse(s[e..]);
    assert t == s[..e] + " " + rest && t[e] == ' ' && IsSpace(' ');
    if p + |form| > e {
      SpaceFreeStaysOneSide(t, form, p, e);
      BehindTheSpace(u, s[..e] + " ", rest, form, p - e - 1);
    }
  }

  lemma {:induction false} BehindTheSpace(u: Unicode, front: string, rest: string, form: string, q: nat)
    requires form != [] && StandsAt(u, front + rest, form, |front| + q)
    ensures Stands(u, rest, form)
  {
    var t, n := front + rest, |front|;
    assert t[n + q..n + q + |form|] == rest[q..q + |form|];
    assert StandsAt(u, rest, form, q);
  }

  /** The form stands at `p`, in any letter case, between characters that are no word characters. */
  predicate WordAt(u: Unicode, text: string, form: string, p: nat) {
    && p + |form| <= |text| && LowerAscii(text[p..p + |form|]) == form
    && (p == 0 || !u.word(text[p - 1])) && (p + |form| == |text| || !u.word(text[p + |form|]))
  }

  predicate Word(u: Unicode, text: string, form: string) {
    exists p :: 0 <= p <= |text| && WordAt(u, text, form, p)
  }

  lemma {:induction false} StandsInLowerCase(u: Unicode, text: string, form: string)
    requires Lawful(u) && AllAscii(text)
    ensures Stands(u, LowerAscii(text), form) <==> Word(u, text, form)
  {
    var t := LowerAscii(text);
    forall p: nat | p <= |text|
      ensures StandsAt(u, t, form, p) <==> WordAt(u, text, form, p)
    {
      LowerAt(u, text, form, p);
    }
  }

  lemma {:induction false} LowerAt(u: Unicode, text: string, form: string, p: nat)
    requires Lawful(u) && AllAscii(text) && p <= |text|
    ensures StandsAt(u, LowerAscii(text), form, p) <==> WordAt(u, text, form, p)
  {
    var t := LowerAscii(text);
    assert forall k :: 0 <= k < |text| ==> (u.word(t[k]) <==> u.word(text[k]));
    if p + |form| <= |text| {
      assert LowerAscii(text[p..p + |form|]) == t[p..p + |form|];
    }
  }

  lemma {:induction false} AsciiStatesExactly(u: Unicode, text: string, form: string)
    requires Lawful(u) && AllAscii(text) && form != [] && NoSpaces(form)
    ensures Stands(u, NormalizeText(u, text), form) <==> Word(u, text, form)
  {
    var t := LowerAscii(text);
    AsciiNormalForm(u, text);
    StandsInLowerCase(u, text, form);
    if Stands(u, Collapse(t), form) {
      CollapseAddsNoWord(u, t, form);
    }
    if p :| 0 <= p <= |t| && StandsAt(u, t, form, p) {
      CollapseCarries(u, t, form, p);
    }
  }

  /** The spelling names the technology: it is the name in lower case, the spelling that one is an alias of,
      or another alias of the same. */
  predicate Names(u: Unicode, l: Lists, spelling: string, name: string) {
    var low := LowerAll(u, name);
    var target := if low in l.aliases then l.aliases[low] else low;
    spelling == low || spelling == target || (spelling in l.aliases && l.aliases[spelling] == target)
  }

  /** The text shows the technology, in one of its spellings, singular or plural, in any letter case. */
  ghost predicate Shows(u: Unicode, l: Lists, text: string, name: string) {
    exists v :: Names(u, l, v, name) && (Word(u, text, v) || Word(u, text, v + "s"))
  }

  /** No spelling of the technology is empty or has spaces in it. */
  ghost predicate OneWord(u: Unicode, l: Lists, name: string) {
    forall v :: Names(u, l, v, name) ==> v != "" && NoSpaces(v)
  }

  /** An ASCII text mentions a technology of one word exactly when it shows it. */
  lemma {:induction false} AsciiMentionsExactly(u: Unicode, l: Lists, text: string, name: string)
    requires Lawful(u) && AllAscii(text) && OneWord(u, l, name)
    ensures Mentions(u, l, text, name) <==> Shows(u, l, text, name)
  {
    forall v | Names(u, l, v, name)
      ensures v in Variants(u, l, name)
      ensures StatesForm(u, NormalizeText(u, text), v) <==> Word(u, text, v) || Word(u, text, v + "s")
    {
      AsciiStatesExactly(u, text, v);
      AsciiStatesExactly(u, text, v + "s");
    }
    assert forall v :: v in Variants(u, l, name) ==> Names(u, l, v, name);
  }

  // ---------- what a text claims ----------

  /** Every match of the pattern is found: it starts inside a token. */
  lemma {:induction false} MatchIsCovered(u: Unicode, s: string, from: nat, i: nat) returns (n: nat, e: nat)
    requires from <= i < |s| && ShapeMatch(u, s, i) != -1
    ensures from <= n <= i < e <= |s| && ShapeMatch(u, s, n) == e && s[n..e] in Tokens(u, s, from)
    decreases |s| - from
  {
    if ShapeMatch(u, s, from) == -1 {
      n, e := MatchIsCovered(u, s, from + 1, i);
    } else if ShapeMatch(u, s, from) <= i {
      n, e := MatchIsCovered(u, s, ShapeMatch(u, s, from), i);
    } else {
      n, e := from, ShapeMatch(u, s, from);
    }
  }

  predicate IsLower(c: char) { 'a' <= c <= 'z' }

  /** A technology by its shape: no listed exception, and not all capitals - unless it has a digit. */
  predicate ClaimsByShape(u: Unicode, l: Lists, token: string) {
    LowerAscii(token) !in l.notTech && exists k :: 0 <= k < |token| && (u.digit(token[k]) || IsLower(token[k]))
  }

  lemma {:induction false} TokensAreTokens(u: Unicode, s: string, token: string)
    requires token in Tokens(u, s, 0)
    ensures token != "" && IsLetter(token[0]) && IsToken(u, token)
  {
    var n, e := TokenHasASpan(u, s, 0, token);
    MatchShape(u, s, n);
  }

  lemma {:induction false} SkippedExactly(u: Unicode, l: Lists, token: string)
    requires token != "" && IsLetter(token[0])
    ensures Skipped(u, l, token) <==> !ClaimsByShape(u, l, token)
  {
    if k :| 0 <= k < |token| && IsLower(token[k]) {
      assert UpperAscii(token)[k] != token[k];
    } else {
      assert UpperAscii(token) == token;
    }
  }

  ghost predicate NoneMentions(u: Unicode, l: Lists, evidence: seq<string>, name: string) {
    forall k :: 0 <= k < |evidence| ==> !Mentions(u, l, evidence[k], name)
  }

  /** Upper-casing a name changes no mention of it. */
  lemma {:induction false} SameMentions(u: Unicode, l: Lists, a: string, b: string, evidence: seq<string>)
    requires LowerAll(u, a) == LowerAll(u, b)
    ensures NoneMentions(u, l, evidence, a) <==> NoneMentions(u, l, evidence, b)
  {
    forall k | 0 <= k < |evidence|
      ensures Mentions(u, l, evidence[k], a) <==> Mentions(u, l, evidence[k], b)
    {
      AliasesAreInterchangeable(u, l, evidence[k], a, b);
    }
  }

  /** A name of the vocabulary that the text mentions and no evidence does is reported. */
  lemma {:induction false} VocabularyLieIsReported(u: Unicode, l: Lists, text: string, evidence: seq<string>,
                                                   name: string)
    requires Lawful(u) && LowerCaseLists(l) && name in l.vocabulary
    requires Mentions(u, l, text, name) && NoneMentions(u, l, evidence, name)
    ensures UpperAscii(name) in Invented(u, l, text, evidence)
  {
    LowerOfLowerCase(u, name);
    SameMentions(u, l, name, UpperAscii(name), evidence);
  }

  /** So is a token of the technology shape. */
  lemma {:induction false} ShapeLieIsReported(u: Unicode, l: Lists, text: string, evidence: seq<string>, token: string)
    requires Lawful(u) && token in Tokens(u, text, 0) && ClaimsByShape(u, l, token)
    requires NoneMentions(u, l, evidence, token)
    ensures UpperAscii(token) in Invented(u, l, text, evidence)
  {
    TokensAreTokens(u, text, token);
    SkippedExactly(u, l, token);
    ClaimOfToken(u, token);
    SameMentions(u, l, token, ClaimOf(token), evidence);
  }

  lemma {:induction false} ClaimOfToken(u: Unicode, token: string)
    requires Lawful(u) && IsToken(u, token)
    ensures ClaimOf(token) == UpperAscii(token) && LowerAll(u, ClaimOf(token)) == LowerAll(u, token)
  {
    LowerOfClaim(u, token);
    LowerOfToken(u, token);
    assert ClaimOf(token) == UpperAscii(token);
  }

  /** Where a reported claim comes from. */
  ghost predicate Lie(u: Unicode, l: Lists, text: string, evidence: seq<string>, name: string) {
    && NoneMentions(u, l, evidence, name)
    && ((name in l.vocabulary && Mentions(u, l, text, name))
        || (name in Tokens(u, text, 0) && ClaimsByShape(u, l, name)))
  }

  /** Exactly these are reported. */
  lemma {:induction false} InventedExactly(u: Unicode, l: Lists, text: string, evidence: seq<string>, claim: string)
    requires Lawful(u) && LowerCaseLists(l)
    ensures claim in Invented(u, l, text, evidence)
       <==> exists name :: Lie(u, l, text, evidence, name) && claim == UpperAscii(name)
  {
    if claim in Invented(u, l, text, evidence) {
      var name := ReportedIsALie(u, l, text, evidence, claim);
    }
    if name :| Lie(u, l, text, evidence, name) && claim == UpperAscii(name) {
      if name in l.vocabulary && Mentions(u, l, text, name) {
        VocabularyLieIsReported(u, l, text, evidence, name);
      } else {
        ShapeLieIsReported(u, l, text, evidence, name);
      }
    }
  }

  lemma {:induction false} ReportedIsALie(u: Unicode, l: Lists, text: string, evidence: seq<string>, claim: string)
    returns (name: string)
    requires Lawful(u) && LowerCaseLists(l) && claim in Invented(u, l, text, evidence)
    ensures Lie(u, l, text, evidence, name) && claim == UpperAscii(name)
  {
    assert NoneMentions(u, l, evidence, claim);
    if n :| n in l.vocabulary && Mentions(u, l, text, n) && UpperAscii(n) == claim {
      name := n;
      LowerOfLowerCase(u, name);
    } else {
      name :| name in Tokens(u, text, 0) && !Skipped(u, l, name) && ClaimOf(name) == claim;
      TokensAreTokens(u, text, name);
      SkippedExactly(u, l, name);
      ClaimOfToken(u, name);
    }
    SameMentions(u, l, name, claim, evidence);
  }

  // ---------- what is reported of a replacement ----------

  lemma {:induction false} NumbersExactly(c: Context, original: string, found: seq<string>, v: Violation)
    ensures v in Numbers(c, original, found) <==> v.Number? && v.n in found && Unbacked(c, original, v.n)
  {
    if found != [] {
      NumbersExactly(c, original, found[1..], v);
      assert v.Number? ==> (v.n in found <==> v.n == found[0] || v.n in found[1..]);
    }
  }

  lemma {:induction false} TechnologiesExactly(c: Context, claims: seq<string>, v: Violation)
    ensures v in Technologies(c, claims) <==>
              v.Technology? && v.claim in claims
              && v.asked == (c.vacancy != "" && Mentions(c.tables, c.lists, c.vacancy, v.claim))
  {
    if claims != [] {
      TechnologiesExactly(c, claims[1..], v);
      assert v.Technology? ==> (v.claim in claims <==> v.claim == claims[0] || v.claim in claims[1..]);
    }
  }

  /** Exactly these violations are reported: the numbers of the new line that neither the replaced line, nor
      the CV, nor the facts have, and its invented technologies, with a remark when the vacancy asks for them. */
  lemma {:induction false} ViolationsExactly(c: Context, r: Replacement, v: Violation)
    requires WalksSets(c.listing)
    ensures v in Violations(c, r) <==>
      match v
      case Number(n) =>
        && n in c.numbers(r.tailored) && n !in c.numbers(r.original)
        && !Contains(NormalizeText(c.tables, c.cvText), n) && !Contains(NormalizeText(c.tables, c.facts), n)
      case Technology(claim, asked) =>
        && claim in Invented(c.tables, c.lists, r.tailored, [c.cvText, c.facts])
        && asked == (c.vacancy != "" && Mentions(c.tables, c.lists, c.vacancy, claim))
  {
    var numbers := c.numbers(r.tailored);
    var invented := Invented(c.tables, c.lists, r.tailored, [c.cvText, c.facts]);
    NumbersExactly(c, r.original, c.listing(numbers), v);
    TechnologiesExactly(c, c.listing(invented), v);
    assert v.Number? ==> (v.n in c.listing(numbers) <==> v.n in numbers);
    assert v.Technology? ==> (v.claim in c.listing(invented) <==> v.claim in invented);
  }

  /** The grade of a list reports the violations of all its replacements, and keeps those without any. */
  lemma {:induction false} GradeExactly(c: Context, items: seq<Replacement>, v: Violation)
    ensures v in Graded(c, items).violations <==> exists r :: r in items && v in Violations(c, r)
  {
    if items != [] {
      var rest, last := items[..|items| - 1], items[|items| - 1];
      GradeExactly(c, rest, v);
      assert forall r :: r in items <==> r in rest || r == last;
    }
  }

  /** A claim no evidence states is reported and the replacement that makes it is dropped, whatever the
      vacancy asks for. */
  lemma {:induction false} LieIsDropped(c: Context, items: seq<Replacement>, r: Replacement, name: string)
    requires Lawful(c.tables) && LowerCaseLists(c.lists) && WalksSets(c.listing) && r in items
    requires Lie(c.tables, c.lists, r.tailored, [c.cvText, c.facts], name)
    ensures exists asked :: Technology(UpperAscii(name), asked) in Graded(c, items).violations
    ensures r !in Graded(c, items).clean
  {
    InventedExactly(c.tables, c.lists, r.tailored, [c.cvText, c.facts], UpperAscii(name));
    var v := Technology(UpperAscii(name), c.vacancy != "" && Mentions(c.tables, c.lists, c.vacancy, UpperAscii(name)));
    ViolationsExactly(c, r, v);
    GradeExactly(c, items, v);
    KeptAreTheCleanOnes(c, items);
  }

  /** So is a number that neither the replaced line nor the CV nor the facts have. */
  lemma {:induction false} UnbackedNumberIsDropped(c: Context, items: seq<Replacement>, r: Replacement, n: string)
    requires WalksSets(c.listing) && r in items && n in c.numbers(r.tailored) && n !in c.numbers(r.original)
    requires !Contains(NormalizeText(c.tables, c.cvText), n) && !Contains(NormalizeText(c.tables, c.facts), n)
    ensures Number(n) in Graded(c, items).violations && r !in Graded(c, items).clean
  {
    ViolationsExactly(c, r, Number(n));
    GradeExactly(c, items, Number(n));
    KeptAreTheCleanOnes(c, items);
  }

  // ---------- from the words themselves ----------

  /** The text is ASCII and nothing in it spells the technology. */
  ghost predicate Silent(u: Unicode, l: Lists, text: string, name: string) {
    AllAscii(text) && !Shows(u, l, text, name)
  }

  ghost predicate AllSilent(u: Unicode, l: Lists, evidence: seq<string>, name: string) {
    forall k :: 0 <= k < |evidence| ==> Silent(u, l, evidence[k], name)
  }

  lemma {:induction false} SilenceIsNoMention(u: Unicode, l: Lists, evidence: seq<string>, name: string)
    requires Lawful(u) && OneWord(u, l, name) && AllSilent(u, l, evidence, name)
    ensures NoneMentions(u, l, evidence, name)
  {
    forall k | 0 <= k < |evidence|
      ensures !Mentions(u, l, evidence[k], name)
    {
      AsciiMentionsExactly(u, l, evidence[k], name);
    }
  }

  /** A vocabulary name of one word that an ASCII text shows, in any letter case, spelling or number, while
      all evidence is silent about it, is reported. */
  lemma {:induction false} ShownWordIsReported(u: Unicode, l: Lists, text: string, evidence: seq<string>, name: string)
    requires Lawful(u) && LowerCaseLists(l) && name in l.vocabulary && OneWord(u, l, name)
    requires AllAscii(text) && Shows(u, l, text, name) && AllSilent(u, l, evidence, name)
    ensures Lie(u, l, text, evidence, name) && UpperAscii(name) in Invented(u, l, text, evidence)
  {
    AsciiMentionsExactly(u, l, text, name);
    SilenceIsNoMention(u, l, evidence, name);
    VocabularyLieIsReported(u, l, text, evidence, name);
  }

  /** So the replacement that brings such a word never passes ... */
  lemma {:induction false} InventedWordIsDropped(c: Context, items: seq<Replacement>, r: Replacement, name: string)
    requires Lawful(c.tables) && LowerCaseLists(c.lists) && WalksSets(c.listing) && r in items
    requires name in c.lists.vocabulary && OneWord(c.tables, c.lists, name)
    requires AllAscii(r.tailored) && Shows(c.tables, c.lists, r.tailored, name)
    requires AllSilent(c.tables, c.lists, [c.cvText, c.facts], name)
    ensures r !in Graded(c, items).clean
  {
    ShownWordIsReported(c.tables, c.lists, r.tailored, [c.cvText, c.facts], name);
    LieIsDropped(c, items, r, name);
  }

  /** ... and the finished document that shows it fails the gate's scan. */
  lemma {:induction false} InventedWordFailsTheScan(u: Unicode, l: Lists, numbers: string -> set<string>,
                                                    document: string, cvText: string, facts: string, master: string,
                                                    name: string)
    requires Lawful(u) && LowerCaseLists(l) && name in l.vocabulary && OneWord(u, l, name)
    requires AllAscii(document) && Shows(u, l, document, name)
    requires AllSilent(u, l, [cvText, facts, master], name)
    ensures UpperAscii(name) in Scan(u, l, numbers, document, cvText, facts, master).0
  {
    ShownWordIsReported(u, l, document, [cvText, facts, master], name);
  }

  /** The scan reports exactly the lies of the document, and the numbers that neither CV nor master has and
      the facts do not show. */
  lemma {:induction false} ScanExactly(u: Unicode, l: Lists, numbers: string -> set<string>, document: string,
                                       cvText: string, facts: string, master: string, x: string)
    requires Lawful(u) && LowerCaseLists(l)
    ensures var found := Scan(u, l, numbers, document, cvText, facts, master);
      && (x in found.0 <==>
            exists name :: Lie(u, l, document, [cvText, facts, master], name) && x == UpperAscii(name))
      && (x in found.1 <==>
            && x in numbers(document) && x !in numbers(cvText) && x !in numbers(master)
            && !Contains(NormalizeText(u, facts), x))
  {
    InventedExactly(u, l, document, [cvText, facts, master], x);
  }
}

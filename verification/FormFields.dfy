/** The ids the extension mints on a rendered form (`formfill.js`, `annotate`). */
module FormFields {
  import opened Wrappers

  const MAX_FIELDS := 80

  /** What `annotate` reads of one control, in DOM order; `caption` stands for everything it only
      copies, `option` is its own option label and `choices` the options of a dropdown. */
  datatype Look = Look(
    fillable: bool, kind: string, name: string, caption: string, option: string, choices: seq<string>, required: bool)

  datatype Field = Field(id: string, kind: string, name: string, caption: string, options: seq<string>, required: bool)

  predicate IsGroupKind(kind: string) {
    kind == "radio" || kind == "checkbox"
  }

  /** The control is an option of a question rather than a question of its own. */
  predicate Grouped(l: Look) {
    IsGroupKind(l.kind) && l.name != ""
  }

  predicate GroupField(f: Field) {
    IsGroupKind(f.kind) && f.name != ""
  }

  // ---------- ids ----------

  function Digit(d: nat): char
    requires d < 10
  {
    '0' + d as char
  }

  function Decimal(n: nat): (s: string)
    ensures s != []
  {
    if n < 10 then [Digit(n)] else Decimal(n / 10) + [Digit(n % 10)]
  }

  lemma {:induction false} DecimalIsInjective(m: nat, n: nat)
    requires Decimal(m) == Decimal(n)
    ensures m == n
  {
    var s := Decimal(m);
    assert s[|s| - 1] == Digit(m % 10) && s[|s| - 1] == Digit(n % 10);
    if m >= 10 && n >= 10 {
      assert Decimal(m / 10) == s[..|s| - 1] && Decimal(n / 10) == s[..|s| - 1];
      DecimalIsInjective(m / 10, n / 10);
    }
  }

  /** What a decimal numeral says. */
  function ValueOf(s: string): int {
    if s == "" then 0 else 10 * ValueOf(s[..|s| - 1]) + (s[|s| - 1] as int - '0' as int)
  }

  lemma {:induction false} DecimalSaysTheNumber(n: nat)
    ensures ValueOf(Decimal(n)) == n && forall c :: c in Decimal(n) ==> '0' <= c <= '9'
    ensures n > 0 ==> Decimal(n)[0] != '0'
  {
    if n < 10 {
      assert [Digit(n)][..0] == "";
    } else {
      DecimalSaysTheNumber(n / 10);
      assert Decimal(n)[..|Decimal(n)| - 1] == Decimal(n / 10);
    }
  }

  /** `'f' + (k + 1)`. */
  function FieldId(k: nat): string {
    "f" + Decimal(k + 1)
  }

  lemma {:induction false} FieldIdIsInjective(j: nat, k: nat)
    requires FieldId(j) == FieldId(k)
    ensures j == k
  {
    assert FieldId(j)[1..] == Decimal(j + 1) && FieldId(k)[1..] == Decimal(k + 1);
    DecimalIsInjective(j + 1, k + 1);
  }

  // ---------- annotating ----------

  /** The loop's state: whose field each control seen so far belongs to, the fields, the positions of
      the controls of each field, the field of each group name, and whether the loop broke off. */
  datatype Form = Form(
    owners: seq<Option<nat>>,
    fields: seq<Field>,
    elements: seq<seq<nat>>,
    groups: map<string, nat>,
    full: bool)

  predicate Indexed(f: Form) {
    |f.elements| == |f.fields| && forall name :: name in f.groups ==> f.groups[name] < |f.fields|
  }

  function NewField(k: nat, l: Look): Field {
    Field(FieldId(k), l.kind, l.name, l.caption, if Grouped(l) then [l.option] else l.choices, l.required)
  }

  function Unmarked(f: Form): Form {
    f.(owners := f.owners + [None])
  }

  /** The control joins the group's field. */
  function Joined(f: Form, l: Look, k: nat): Form
    requires Indexed(f) && k < |f.fields|
  {
    f.(owners := f.owners + [Some(k)],
       fields := f.fields[k := f.fields[k].(options := f.fields[k].options + [l.option],
                                            required := f.fields[k].required || l.required)],
       elements := f.elements[k := f.elements[k] + [|f.owners|]])
  }

  /** The control becomes a field of its own. */
  function Minted(f: Form, l: Look): Form {
    var k := |f.fields|;
    f.(owners := f.owners + [Some(k)],
       fields := f.fields + [NewField(k, l)],
       elements := f.elements + [[|f.owners|]],
       groups := if Grouped(l) then f.groups[l.name := k] else f.groups)
  }

  function Step(f: Form, l: Look): (r: Form)
    requires Indexed(f)
    ensures Indexed(r) && |r.owners| == |f.owners| + 1 && r.owners[..|f.owners|] == f.owners
  {
    if f.full || !l.fillable then Unmarked(f)
    else if Grouped(l) && l.name in f.groups then Joined(f, l, f.groups[l.name])
    else if |f.fields| >= MAX_FIELDS then Unmarked(f).(full := true)
    else Minted(f, l)
  }

  function Annotated(looks: seq<Look>): (f: Form)
    ensures Indexed(f) && |f.owners| == |looks|
  {
    if looks == [] then Form([], [], [], map[], false)
    else Step(Annotated(looks[..|looks| - 1]), looks[|looks| - 1])
  }

  /** Position `i` carries the mark of field `k`. */
  predicate Owns(f: Form, i: nat, k: nat) {
    i < |f.owners| && f.owners[i] == Some(k)
  }

  ghost predicate Inv(f: Form, looks: seq<Look>) {
    && Indexed(f) && |f.owners| == |looks| && |f.fields| <= MAX_FIELDS
    && (forall k :: 0 <= k < |f.fields| ==> f.fields[k].id == FieldId(k))
    && (forall i: nat, k: nat :: Owns(f, i, k) ==> OwnerFits(f, looks, i, k))
    && (forall i: nat, j: nat, k: nat :: Owns(f, i, k) && Owns(f, j, k) && i != j ==> GroupField(f.fields[k]))
    && (forall k :: 0 <= k < |f.fields| ==> ElementsFit(f, k))
    && (forall name :: name in f.groups ==>
          f.fields[f.groups[name]].name == name && GroupField(f.fields[f.groups[name]]))
  }

  ghost predicate OwnerFits(f: Form, looks: seq<Look>, i: nat, k: nat)
    requires Indexed(f) && i < |looks|
  {
    && k < |f.fields| && looks[i].fillable
    && f.fields[k].name == looks[i].name && GroupField(f.fields[k]) == Grouped(looks[i])
    && (Grouped(looks[i]) ==> looks[i].name in f.groups && f.groups[looks[i].name] == k)
  }

  /** The elements of field `k` are the positions that carry its mark. */
  ghost predicate ElementsFit(f: Form, k: nat)
    requires Indexed(f) && k < |f.fields|
  {
    f.elements[k] != [] && forall i: nat :: i in f.elements[k] <==> Owns(f, i, k)
  }

  lemma {:induction false} OwnersGrow(f: Form, o: Option<nat>, t: Form)
    requires t.owners == f.owners + [o]
    ensures forall i: nat, k: nat :: Owns(t, i, k) <==> Owns(f, i, k) || (i == |f.owners| && o == Some(k))
  {
  }

  lemma {:induction false} UnmarkedKeepsInv(f: Form, looks: seq<Look>, l: Look, full: bool)
    requires Inv(f, looks)
    ensures Inv(Unmarked(f).(full := full), looks + [l])
  {
    var t, more := Unmarked(f).(full := full), looks + [l];
    OwnersGrow(f, None, t);
    forall i: nat, k: nat | Owns(t, i, k)
      ensures OwnerFits(t, more, i, k)
    {
      assert Owns(f, i, k) && more[i] == looks[i];
    }
    forall k | 0 <= k < |t.fields|
      ensures ElementsFit(t, k)
    {
      assert ElementsFit(f, k);
    }
  }

  lemma {:induction false} MintedKeepsInv(f: Form, looks: seq<Look>, l: Look)
    requires Inv(f, looks) && l.fillable && |f.fields| < MAX_FIELDS && !(Grouped(l) && l.name in f.groups)
    ensures Inv(Minted(f, l), looks + [l])
  {
    var t, more := Minted(f, l), looks + [l];
    OwnersGrow(f, Some(|f.fields|), t);
    MintedOwnersFit(f, looks, l);
    MintedElementsFit(f, looks, l);
  }

  lemma {:induction false} MintedOwnersFit(f: Form, looks: seq<Look>, l: Look)
    requires Inv(f, looks) && l.fillable && !(Grouped(l) && l.name in f.groups)
    ensures forall i: nat, k: nat :: Owns(Minted(f, l), i, k) ==> OwnerFits(Minted(f, l), looks + [l], i, k)
  {
    var t, more := Minted(f, l), looks + [l];
    OwnersGrow(f, Some(|f.fields|), t);
    forall i: nat, k: nat | Owns(t, i, k)
      ensures OwnerFits(t, more, i, k)
    {
      if i < |looks| {
        assert Owns(f, i, k) && OwnerFits(f, looks, i, k) && more[i] == looks[i];
      }
    }
  }

  lemma {:induction false} MintedElementsFit(f: Form, looks: seq<Look>, l: Look)
    requires Inv(f, looks)
    ensures forall k :: 0 <= k < |Minted(f, l).fields| ==> ElementsFit(Minted(f, l), k)
  {
    var t := Minted(f, l);
    OwnersGrow(f, Some(|f.fields|), t);
    forall k | 0 <= k < |t.fields|
      ensures ElementsFit(t, k)
    {
      if k < |f.fields| {
        assert ElementsFit(f, k);
      } else {
        assert t.elements[k] == [|f.owners|];
      }
    }
  }

  lemma {:induction false} JoinedKeepsInv(f: Form, looks: seq<Look>, l: Look)
    requires Inv(f, looks) && l.fillable && Grouped(l) && l.name in f.groups
    ensures Inv(Joined(f, l, f.groups[l.name]), looks + [l])
  {
    var k0 := f.groups[l.name];
    var t, more := Joined(f, l, k0), looks + [l];
    OwnersGrow(f, Some(k0), t);
    forall i: nat, k: nat | Owns(t, i, k)
      ensures OwnerFits(t, more, i, k)
    {
      if i < |looks| {
        assert Owns(f, i, k) && OwnerFits(f, looks, i, k) && more[i] == looks[i];
      }
    }
    forall k | 0 <= k < |t.fields|
      ensures ElementsFit(t, k)
    {
      assert ElementsFit(f, k);
    }
  }

  lemma {:induction false} AnnotatedKeepsInv(looks: seq<Look>)
    ensures Inv(Annotated(looks), looks)
  {
    if looks != [] {
      var rest, l := looks[..|looks| - 1], looks[|looks| - 1];
      AnnotatedKeepsInv(rest);
      var f := Annotated(rest);
      assert looks == rest + [l];
      if f.full || !l.fillable {
        UnmarkedKeepsInv(f, rest, l, f.full);
      } else if Grouped(l) && l.name in f.groups {
        JoinedKeepsInv(f, rest, l);
      } else if |f.fields| >= MAX_FIELDS {
        UnmarkedKeepsInv(f, rest, l, true);
      } else {
        MintedKeepsInv(f, rest, l);
      }
    }
  }

  // ---------- what the ids are worth ----------

  function MarkOf(o: Option<nat>): Option<string> {
    if o.None? then None else Some(FieldId(o.value))
  }

  /** The mark `annotate` leaves on the control at position `i`. */
  function Mark(looks: seq<Look>, i: nat): Option<string>
    requires i < |looks|
  {
    MarkOf(Annotated(looks).owners[i])
  }

  /** The ids are f1 to fn in field order, n at most 80, and every field is held by the controls that
      carry its id. */
  lemma {:induction false} IdsAreDense(looks: seq<Look>, k: nat)
    requires k < |Annotated(looks).fields|
    ensures |Annotated(looks).fields| <= 80
    ensures Annotated(looks).fields[k].id == FieldId(k)
    ensures Annotated(looks).elements[k] != []
    ensures forall i :: 0 <= i < |looks| ==>
              (i in Annotated(looks).elements[k] <==> Mark(looks, i) == Some(FieldId(k)))
  {
    var f := Annotated(looks);
    AnnotatedKeepsInv(looks);
    assert ElementsFit(f, k);
    forall i | 0 <= i < |looks|
      ensures i in f.elements[k] <==> Mark(looks, i) == Some(FieldId(k))
    {
      if f.owners[i].Some? && FieldId(f.owners[i].value) == FieldId(k) {
        FieldIdIsInjective(f.owners[i].value, k);
      }
      assert i in f.elements[k] <==> Owns(f, i, k);
    }
  }

  /** Two marked controls share an id exactly when both are options (radio or checkbox) of one name. */
  lemma {:induction false} SharedIdExactly(looks: seq<Look>, i: nat, j: nat)
    requires i < j < |looks| && Mark(looks, i).Some? && Mark(looks, j).Some?
    ensures Mark(looks, i) == Mark(looks, j)
      <==> looks[i].kind in {"radio", "checkbox"} && looks[j].kind in {"radio", "checkbox"}
           && looks[i].name == looks[j].name != ""
  {
    var f := Annotated(looks);
    AnnotatedKeepsInv(looks);
    var a, b := f.owners[i].value, f.owners[j].value;
    assert Owns(f, i, a) && Owns(f, j, b);
    assert OwnerFits(f, looks, i, a) && OwnerFits(f, looks, j, b);
    if FieldId(a) == FieldId(b) {
      FieldIdIsInjective(a, b);
    }
  }

  /** A field asks what its controls ask: it is required when one of them is, a group lists the option
      labels of its controls in page order, and a control of its own keeps its choices. */
  ghost predicate Collected(f: Form, looks: seq<Look>, k: nat)
    requires Indexed(f) && k < |f.fields|
  {
    && f.elements[k] != [] && Within(f.elements[k], looks)
    && (f.fields[k].required <==> exists i :: i in f.elements[k] && looks[i].required)
    && f.fields[k].kind == looks[f.elements[k][0]].kind && f.fields[k].caption == looks[f.elements[k][0]].caption
    && f.fields[k].options == if f.fields[k].kind in {"radio", "checkbox"} && f.fields[k].name != ""
                              then OptionLabels(looks, f.elements[k])
                              else looks[f.elements[k][0]].choices
  }

  predicate Within(elements: seq<nat>, looks: seq<Look>) {
    forall n :: 0 <= n < |elements| ==> elements[n] < |looks|
  }

  function OptionLabels(looks: seq<Look>, elements: seq<nat>): (r: seq<string>)
    requires Within(elements, looks)
    ensures |r| == |elements|
  {
    seq(|elements|, n requires 0 <= n < |elements| => looks[elements[n]].option)
  }

  ghost predicate AllCollected(f: Form, looks: seq<Look>)
    requires Indexed(f)
  {
    forall k :: 0 <= k < |f.fields| ==> Collected(f, looks, k)
  }

  lemma {:induction false} MoreLooksCollected(f: Form, looks: seq<Look>, l: Look, k: nat)
    requires Indexed(f) && k < |f.fields| && Collected(f, looks, k)
    ensures Collected(f, looks + [l], k)
  {
    var more := looks + [l];
    assert forall i :: i in f.elements[k] ==> i < |looks| && more[i] == looks[i];
    assert OptionLabels(more, f.elements[k]) == OptionLabels(looks, f.elements[k]);
  }

  lemma {:induction false} MintedCollects(f: Form, looks: seq<Look>, l: Look)
    requires Indexed(f) && |f.owners| == |looks| && AllCollected(f, looks)
    ensures AllCollected(Minted(f, l), looks + [l])
  {
    var t, more := Minted(f, l), looks + [l];
    forall k | 0 <= k < |t.fields|
      ensures Collected(t, more, k)
    {
      if k < |f.fields| {
        MoreLooksCollected(f, looks, l, k);
      } else {
        assert t.elements[k] == [|looks|] && more[|looks|] == l;
        assert |looks| in t.elements[k];
      }
    }
  }

  lemma {:induction false} JoinedCollects(f: Form, looks: seq<Look>, l: Look, k0: nat)
    requires Indexed(f) && |f.owners| == |looks| && AllCollected(f, looks)
    requires k0 < |f.fields| && GroupField(f.fields[k0])
    ensures AllCollected(Joined(f, l, k0), looks + [l])
  {
    var t, more := Joined(f, l, k0), looks + [l];
    forall k | 0 <= k < |t.fields|
      ensures Collected(t, more, k)
    {
      MoreLooksCollected(f, looks, l, k);
      if k == k0 {
        assert t.elements[k] == f.elements[k] + [|looks|] && more[|looks|] == l;
        assert forall i :: i in t.elements[k] <==> i in f.elements[k] || i == |looks|;
        assert OptionLabels(more, t.elements[k]) == OptionLabels(more, f.elements[k]) + [l.option];
      }
    }
  }

  lemma {:induction false} FieldsCollectTheirControls(looks: seq<Look>)
    ensures AllCollected(Annotated(looks), looks)
  {
    if looks != [] {
      var rest, l := looks[..|looks| - 1], looks[|looks| - 1];
      FieldsCollectTheirControls(rest);
      AnnotatedKeepsInv(rest);
      var f := Annotated(rest);
      assert looks == rest + [l];
      if f.full || !l.fillable || (!(Grouped(l) && l.name in f.groups) && |f.fields| >= MAX_FIELDS) {
        forall k | 0 <= k < |f.fields|
          ensures Collected(Annotated(looks), looks, k)
        {
          MoreLooksCollected(f, rest, l, k);
        }
      } else if Grouped(l) && l.name in f.groups {
        JoinedCollects(f, rest, l, f.groups[l.name]);
      } else {
        MintedCollects(f, rest, l);
      }
    }
  }

  /** Every fillable control is marked unless the form has 80 fields and more to ask, and nothing else
      is. */
  lemma {:induction false} MarkedExactly(looks: seq<Look>, i: nat)
    requires i < |looks|
    ensures Mark(looks, i).Some? ==> looks[i].fillable
    ensures looks[i].fillable && Mark(looks, i).None? ==> Annotated(looks).full
  {
    if i < |looks| - 1 {
      MarkedExactly(looks[..|looks| - 1], i);
      MarkStays(looks, i);
    }
  }

  /** One more control changes no mark, and does not undo the end of the loop. */
  lemma {:induction false} MarkStays(looks: seq<Look>, i: nat)
    requires i < |looks| - 1
    ensures Mark(looks, i) == Mark(looks[..|looks| - 1], i)
    ensures Annotated(looks[..|looks| - 1]).full ==> Annotated(looks).full
  {
    assert Annotated(looks).owners[..|looks| - 1][i] == Annotated(looks).owners[i];
  }

  lemma {:induction false} FullMeansEighty(looks: seq<Look>)
    ensures Annotated(looks).full ==> |Annotated(looks).fields| >= 80
  {
    if looks != [] {
      FullMeansEighty(looks[..|looks| - 1]);
    }
  }

  // ---------- the page ----------

  /** A control of the page; `mark` is its `data-cvt-id`. */
  class Control {
    const look: Look
    var mark: Option<string>

    constructor (look: Look)
      ensures this.look == look && mark == None
    {
      this.look, mark := look, None;
    }
  }

  function Looks(controls: seq<Control>): (r: seq<Look>)
    ensures |r| == |controls| && forall i :: 0 <= i < |r| ==> r[i] == controls[i].look
  {
    seq(|controls|, i requires 0 <= i < |controls| => controls[i].look)
  }

  ghost predicate DistinctControls(controls: seq<Control>) {
    forall i, j :: 0 <= i < j < |controls| ==> controls[i] != controls[j]
  }

  /** Once the loop broke off, nothing more is marked. */
  lemma {:induction false} FullStays(looks: seq<Look>, n: nat)
    requires n <= |looks| && Annotated(looks[..n]).full
    ensures var f, t := Annotated(looks[..n]), Annotated(looks);
      && t.full && t.fields == f.fields && t.elements == f.elements && t.owners[..n] == f.owners
      && forall i :: n <= i < |looks| ==> t.owners[i] == None
    decreases |looks|
  {
    if n == |looks| {
      assert looks[..n] == looks;
    } else {
      var rest := looks[..|looks| - 1];
      assert rest[..n] == looks[..n];
      FullStays(rest, n);
    }
  }

  method ClearMarks(controls: seq<Control>)
    modifies controls
    ensures forall c :: c in controls ==> c.mark == None
  {
    for n := 0 to |controls|
      invariant forall i :: 0 <= i < n ==> controls[i].mark == None
    {
      controls[n].mark := None;
    }
  }

  /** The body of `annotate`'s loop for one control; `full` asks it to break off. */
  method Visit(c: Control, n: nat, fields: seq<Field>, elements: seq<seq<nat>>, groups: map<string, nat>,
               ghost f: Form)
    returns (fields': seq<Field>, elements': seq<seq<nat>>, groups': map<string, nat>, full: bool)
    requires Indexed(f) && !f.full && |f.owners| == n && c.mark == None
    requires fields == f.fields && elements == f.elements && groups == f.groups
    modifies c
    ensures var t := Step(f, c.look);
      && fields' == t.fields && elements' == t.elements && groups' == t.groups && full == t.full
      && c.mark == MarkOf(t.owners[n])
  {
    var l := c.look;
    fields', elements', groups', full := fields, elements, groups, false;
    if !l.fillable {
      return;
    }
    if Grouped(l) && l.name in groups {
      var k := groups[l.name];
      elements' := elements[k := elements[k] + [n]];
      fields' := fields[k := fields[k].(options := fields[k].options + [l.option],
                                        required := fields[k].required || l.required)];
      c.mark := Some(FieldId(k));
      return;
    }
    if |fields| >= MAX_FIELDS {
      full := true;
      return;
    }
    var k := |fields|;
    c.mark := Some(FieldId(k));
    fields' := fields + [NewField(k, l)];
    elements' := elements + [[n]];
    if Grouped(l) {
      groups' := groups[l.name := k];
    }
  }

  /** The first `n` controls carry their marks and the others none. */
  ghost predicate MarkedUpTo(controls: seq<Control>, n: nat)
    reads controls
    requires n <= |controls|
  {
    && (forall i :: 0 <= i < n ==> controls[i].mark == Mark(Looks(controls)[..n], i))
    && (forall i :: n <= i < |controls| ==> controls[i].mark == None)
  }

  method VisitNext(controls: seq<Control>, n: nat, fields: seq<Field>, elements: seq<seq<nat>>,
                   groups: map<string, nat>)
    returns (fields': seq<Field>, elements': seq<seq<nat>>, groups': map<string, nat>, full: bool)
    requires DistinctControls(controls) && n < |controls| && MarkedUpTo(controls, n)
    requires var f := Annotated(Looks(controls)[..n]);
      !f.full && fields == f.fields && elements == f.elements && groups == f.groups
    modifies controls[n]
    ensures MarkedUpTo(controls, n + 1)
    ensures var f := Annotated(Looks(controls)[..n + 1]);
      full == f.full && fields' == f.fields && elements' == f.elements && groups' == f.groups
  {
    ghost var looks := Looks(controls);
    OneMoreLook(looks, n);
    fields', elements', groups', full := Visit(controls[n], n, fields, elements, groups, Annotated(looks[..n]));
  }

  /** `annotate`'s loop: it ends after the last control, or after the one that found the form full. */
  method MarkControls(controls: seq<Control>)
    returns (fields: seq<Field>, elements: seq<seq<nat>>, ghost n: nat)
    requires DistinctControls(controls) && forall c :: c in controls ==> c.mark == None
    modifies controls
    ensures n <= |controls| && (n < |controls| ==> Annotated(Looks(controls)[..n]).full)
    ensures var f := Annotated(Looks(controls)[..n]); fields == f.fields && elements == f.elements
    ensures MarkedUpTo(controls, n)
  {
    var groups: map<string, nat>, full := map[], false;
    fields, elements := [], [];
    var next := 0;
    while next < |controls| && !full
      invariant next <= |controls| && MarkedUpTo(controls, next)
      invariant var f := Annotated(Looks(controls)[..next]);
        full == f.full && fields == f.fields && elements == f.elements && groups == f.groups
    {
      fields, elements, groups, full := VisitNext(controls, next, fields, elements, groups);
      next := next + 1;
    }
    n := next;
  }

  /** `annotate`: whatever marks the page carried before, the ids depend only on what the controls are. */
  method Annotate(controls: seq<Control>) returns (fields: seq<Field>, elements: seq<seq<nat>>)
    requires DistinctControls(controls)
    modifies controls
    ensures fields == Annotated(Looks(controls)).fields && elements == Annotated(Looks(controls)).elements
    ensures forall i :: 0 <= i < |controls| ==> controls[i].mark == Mark(Looks(controls), i)
  {
    ClearMarks(controls);
    ghost var n;
    fields, elements, n := MarkControls(controls);
    MarksOfPrefix(Looks(controls), n);
  }

  lemma {:induction false} MarksOfPrefix(looks: seq<Look>, n: nat)
    requires n <= |looks| && (n < |looks| ==> Annotated(looks[..n]).full)
    ensures var f, t := Annotated(looks[..n]), Annotated(looks);
      t.fields == f.fields && t.elements == f.elements
    ensures forall i :: 0 <= i < n ==> Mark(looks, i) == Mark(looks[..n], i)
    ensures forall i :: n <= i < |looks| ==> Mark(looks, i) == None
  {
    if n < |looks| {
      FullStays(looks, n);
      forall i | 0 <= i < n
        ensures Mark(looks, i) == Mark(looks[..n], i)
      {
        assert Annotated(looks).owners[..n][i] == Annotated(looks).owners[i];
      }
    } else {
      assert looks[..n] == looks;
    }
  }

  lemma {:induction false} OneMoreLook(looks: seq<Look>, n: nat)
    requires n < |looks|
    ensures Annotated(looks[..n + 1]) == Step(Annotated(looks[..n]), looks[n])
    ensures forall i :: 0 <= i < n ==> Mark(looks[..n + 1], i) == Mark(looks[..n], i)
  {
    assert looks[..n + 1][..n] == looks[..n] && looks[..n + 1][n] == looks[n];
    var f, t := Annotated(looks[..n]), Annotated(looks[..n + 1]);
    assert t.owners[..n] == f.owners;
    forall i | 0 <= i < n
      ensures t.owners[i] == f.owners[i]
    {
      assert t.owners[..n][i] == t.owners[i];
    }
  }
}

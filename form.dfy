/** The policy entry form: its data, the product and premium options it
    derives from the partner table, and the cascade that the three effects
    run after every change of the partner, the product or the premium. The
    effects are modelled by the renders they cause: each render runs the
    effects whose dependencies changed since the render before, until a
    render changes none of them. */
module EntryForm {
  import opened Wrappers
  import opened Strings
  import opened Policy
  import opened Partners

  /** `formData`, `productOptions` and `premiumOptions`. */
  datatype FormState = FormState(data: PolicyData, productOptions: seq<string>, premiumOptions: seq<PremiumOption>)

  /** Which of the partner, product and premium effects run after a render. */
  datatype Fired = Fired(partner: bool, product: bool, premium: bool)

  const NoneFired := Fired(false, false, false)

  /** The effects whose dependency lists changed between two renders. The
      product effect also lists the partner; the premium effect lists the
      premium and the option list. */
  function Changed(prev: FormState, cur: FormState): (e: Fired)
    ensures e.partner ==> e.product
  {
    var partner := prev.data.partnerName != cur.data.partnerName;
    Fired(partner,
          partner || prev.data.productDetails != cur.data.productDetails,
          prev.data.premium != cur.data.premium || prev.premiumOptions != cur.premiumOptions)
  }

  predicate Quiet(prev: FormState, cur: FormState) {
    Changed(prev, cur) == NoneFired
  }

  /** JavaScript truthiness of the premium. */
  predicate Truthy(a: Amount) {
    match a
    case NoAmount => false
    case Num(n) => n != 0
    case Entered(s) => s != ""
  }

  /** `Number(premium)`, with `None` for NaN. */
  function NumberOf(a: Amount): (r: Option<int>)
    ensures a.Num? ==> r == Some(a.n)
  {
    match a
    case NoAmount => Some(0)
    case Num(n) => Some(n)
    case Entered(s) =>
      match ParseDecimal(s)
      case Some(n) => Some(n)
      case None => None
  }

  /** The premium effect's lookup: for a truthy premium, the option whose
      premium is `Number(premium)`. */
  function PremiumMatch(premium: Amount, options: seq<PremiumOption>): (r: Option<PremiumOption>)
    ensures r.Some? ==> Truthy(premium) && r.value in options && NumberOf(premium) == Some(r.value.premium)
    ensures r.None? <==>
      (!Truthy(premium) || NumberOf(premium).None? ||
       forall i :: 0 <= i < |options| ==> options[i].premium != NumberOf(premium).value)
  {
    if !Truthy(premium) then None
    else match NumberOf(premium)
      case None => None
      case Some(n) => FindPremium(options, n)
  }

  /** The partner effect's reset: the product, the premium, the tenure and
      the CSE name are emptied, every other field is kept. */
  function ClearFromProduct(p: PolicyData): (r: PolicyData)
    ensures r.productDetails == "" && r.premium == NoAmount && r.tenure == NoAmount && r.cseName == ""
    ensures forall f :: f != ProductDetails && f != Premium && f != Tenure && f != CseName ==> Get(r, f) == Get(p, f)
  {
    p.(productDetails := "", premium := NoAmount, tenure := NoAmount, cseName := "")
  }

  /** The product effect's reset: the premium, the tenure and the CSE name
      are emptied, every other field is kept. */
  function ClearFromPremium(p: PolicyData): (r: PolicyData)
    ensures r.premium == NoAmount && r.tenure == NoAmount && r.cseName == ""
    ensures forall f :: f != Premium && f != Tenure && f != CseName ==> Get(r, f) == Get(p, f)
  {
    p.(premium := NoAmount, tenure := NoAmount, cseName := "")
  }

  /** The premium effect's fill: the tenure and the CSE name come from the
      row, every other field is kept. */
  function FillFrom(p: PolicyData, row: PremiumOption): (r: PolicyData)
    ensures Get(r, Tenure) == Amt(Num(row.tenure)) && Get(r, CseName) == Text(row.cseName)
    ensures forall f :: f != Tenure && f != CseName ==> Get(r, f) == Get(p, f)
  {
    p.(tenure := Num(row.tenure), cseName := row.cseName)
  }

  /** The state updates that the fired effects queue, applied in the order
      the effects are declared. The effects read the rendered state `cur`;
      the form-data updates apply to `base`. */
  function RunEffects(cur: FormState, base: PolicyData, e: Fired): (r: FormState)
    ensures r.data.partnerName == base.partnerName
    ensures r.productOptions == if e.partner then ProductOptions(cur.data.partnerName) else cur.productOptions
    ensures r.premiumOptions ==
      if e.product then PremiumOptions(cur.data.partnerName, cur.data.productDetails) else cur.premiumOptions
  {
    var d1 := if e.partner then ClearFromProduct(base) else base;
    var d2 := if e.product then ClearFromPremium(d1) else d1;
    var m := if e.premium then PremiumMatch(cur.data.premium, cur.premiumOptions) else None;
    var d3 := if m.Some? then FillFrom(d2, m.value) else d2;
    FormState(d3,
      if e.partner then ProductOptions(cur.data.partnerName) else cur.productOptions,
      if e.product then PremiumOptions(cur.data.partnerName, cur.data.productDetails) else cur.premiumOptions)
  }

  /** The render after `cur`: the partner is never changed by an effect,
      and with no effect fired nothing changes. */
  function Round(prev: FormState, cur: FormState): (r: FormState)
    ensures r.data.partnerName == cur.data.partnerName
    ensures Quiet(prev, cur) ==> r == cur
  {
    RunEffects(cur, cur.data, Changed(prev, cur))
  }

  /** Renders until one fires no effect (or the bound runs out); the result
      is the last pair of consecutive renders. */
  function Rerender(prev: FormState, cur: FormState, fuel: nat): (r: (FormState, FormState))
    ensures r.1.data.partnerName == cur.data.partnerName
    ensures Pending(prev, cur) ==> Pending(r.0, r.1)
    ensures Cleared(prev, cur) ==> Cleared(r.0, r.1) && r.1.productOptions == cur.productOptions
    decreases fuel
  {
    if fuel == 0 || Quiet(prev, cur) then (prev, cur)
    else
      RoundPending(prev, cur);
      RoundKeepsCleared(prev, cur);
      Rerender(cur, Round(prev, cur), fuel - 1)
  }

  /** Three renders always reach a quiet one (see `RerenderSettles`). */
  const RenderBound: nat := 3

  /** The state the form settles in once the effects have run, after the
      render of `cur` that followed the render of `prev`. */
  function Settle(prev: FormState, cur: FormState): (r: FormState)
    ensures r.data.partnerName == cur.data.partnerName
  {
    Rerender(prev, cur, RenderBound).1
  }

  /** Effects never change the partner, clear the product only when the
      partner changed, and clear the premium only when the product (or the
      partner) changed; so by the third render nothing fires. */
  lemma RerenderSettles(prev: FormState, cur: FormState)
    ensures var last := Rerender(prev, cur, RenderBound); Quiet(last.0, last.1)
  {
    var s1 := Round(prev, cur);
    var s2 := Round(cur, s1);
    var s3 := Round(s1, s2);
    var e1 := Changed(prev, cur);
    if e1.product {
      assert s1.data.premium == NoAmount;
    } else {
      assert s1.premiumOptions == cur.premiumOptions;
    }
    assert !Changed(cur, s1).partner;
    assert s2.data.premium == NoAmount || s2 == s1;
    assert Quiet(s2, s3);
  }

  /** The options agree with the partner and the product. */
  predicate Consistent(s: FormState) {
    && s.productOptions == ProductOptions(s.data.partnerName)
    && s.premiumOptions == PremiumOptions(s.data.partnerName, s.data.productDetails)
  }

  /** The state after an edit event that set the form data to `next`. */
  function AfterEdit(s: FormState, next: PolicyData): (r: FormState)
    ensures r.data.partnerName == next.partnerName
  {
    Settle(s, FormState(next, s.productOptions, s.premiumOptions))
  }

  /** Between two renders: each option list agrees with the form data,
      unless the effect that recomputes it is about to run. */
  predicate Pending(prev: FormState, cur: FormState) {
    var e := Changed(prev, cur);
    && (e.partner || cur.productOptions == ProductOptions(cur.data.partnerName))
    && (e.product || cur.premiumOptions == PremiumOptions(cur.data.partnerName, cur.data.productDetails))
  }

  /** A render keeps `Pending`. */
  lemma RoundPending(prev: FormState, cur: FormState)
    ensures Pending(prev, cur) ==> Pending(cur, Round(prev, cur))
  {
    var e := Changed(prev, cur);
    var r := Round(prev, cur);
    if e.partner && cur.data.productDetails != "" {
      assert r.data.productDetails == "";
    } else {
      assert r.data.productDetails == cur.data.productDetails;
    }
  }

  /** Whatever the event, the settled options agree with the settled
      partner and product again. */
  lemma AfterEditConsistent(s: FormState, next: PolicyData)
    requires Consistent(s)
    ensures Consistent(AfterEdit(s, next))
  {
    var cur := FormState(next, s.productOptions, s.premiumOptions);
    assert Pending(s, cur);
    RerenderSettles(s, cur);
  }

  /** Choosing another partner clears the product, the premium, the tenure
      and the CSE name, lists that partner's products and no premiums. */
  lemma PartnerChangeClears(s: FormState, partner: string)
    requires partner != s.data.partnerName
    ensures var next := s.data.(partnerName := partner);
      AfterEdit(s, next) == FormState(ClearFromProduct(next), ProductOptions(partner), [])
  {
    var next := s.data.(partnerName := partner);
    var cur := FormState(next, s.productOptions, s.premiumOptions);
    var s1 := Round(s, cur);
    assert s1 == FormState(ClearFromProduct(next), ProductOptions(partner), PremiumOptions(partner, s.data.productDetails));
    var s2 := Round(cur, s1);
    assert s2 == FormState(ClearFromProduct(next), ProductOptions(partner), []) by {
      if s.data.productDetails != "" {
        assert Changed(cur, s1).product;
      }
    }
    ClearedRenderIsQuiet(s1, s2);
  }

  /** Choosing another product clears the premium, the tenure and the CSE
      name and lists that product's premiums. */
  lemma ProductChangeClears(s: FormState, product: string)
    requires product != s.data.productDetails
    ensures var next := s.data.(productDetails := product);
      AfterEdit(s, next) == FormState(ClearFromPremium(next), s.productOptions, PremiumOptions(s.data.partnerName, product))
  {
    var next := s.data.(productDetails := product);
    var cur := FormState(next, s.productOptions, s.premiumOptions);
    var s1 := Round(s, cur);
    assert s1 == FormState(ClearFromPremium(next), s.productOptions, PremiumOptions(s.data.partnerName, product));
  }

  /** Choosing another premium fills the tenure and the CSE name from the
      option with that premium, and leaves them alone when there is none. */
  lemma PremiumChangeFills(s: FormState, premium: Amount)
    requires premium != s.data.premium
    ensures var next := s.data.(premium := premium);
      AfterEdit(s, next) ==
        match PremiumMatch(premium, s.premiumOptions)
        case Some(row) => FormState(FillFrom(next, row), s.productOptions, s.premiumOptions)
        case None => FormState(next, s.productOptions, s.premiumOptions)
  {
    var next := s.data.(premium := premium);
    var cur := FormState(next, s.productOptions, s.premiumOptions);
    var s1 := Round(s, cur);
    assert Quiet(cur, s1);
  }

  /** Picking the premium of a listed option in the premium select fills
      that option's tenure and CSE name. */
  lemma PremiumOptionFills(s: FormState, row: PremiumOption)
    requires FindPremium(s.premiumOptions, row.premium) == Some(row)
    requires s.data.premium != Entered(NatToString(row.premium))
    ensures var next := Set(s.data, Premium, InputValue(Premium, NatToString(row.premium)));
      AfterEdit(s, next).data == FillFrom(next, row)
  {
    ParseNatToString(row.premium);
    var a := Entered(NatToString(row.premium));
    assert PremiumMatch(a, s.premiumOptions) == Some(row);
    assert Set(s.data, Premium, InputValue(Premium, NatToString(row.premium))) == s.data.(premium := a);
    PremiumChangeFills(s, a);
  }

  /** Picking any premium the premium select lists fills the tenure and
      the CSE name of that option: the table's premiums are distinct and
      positive within each list. */
  lemma ListedPremiumFills(s: FormState, k: nat)
    requires Consistent(s)
    requires k < |s.premiumOptions|
    requires s.data.premium != Entered(NatToString(s.premiumOptions[k].premium))
    ensures var row := s.premiumOptions[k];
      var next := Set(s.data, Premium, InputValue(Premium, NatToString(row.premium)));
      AfterEdit(s, next).data.tenure == Num(row.tenure) && AfterEdit(s, next).data.cseName == row.cseName
  {
    var options := s.premiumOptions;
    ListedPremiumsDistinct(s.data.partnerName, s.data.productDetails);
    assert DistinctPremiums(options);
    FindPremiumOfRow(options, k);
    PremiumOptionFills(s, options[k]);
  }

  /** An edit of any field outside the cascade changes that field only. */
  lemma OtherFieldChange(s: FormState, f: Field, v: Value)
    requires f != PartnerName && f != ProductDetails && f != Premium
    requires Fits(f, v)
    ensures AfterEdit(s, Set(s.data, f, v)) == FormState(Set(s.data, f, v), s.productOptions, s.premiumOptions)
  {
    var next := Set(s.data, f, v);
    assert Get(next, PartnerName) == Get(s.data, PartnerName);
    assert Get(next, ProductDetails) == Get(s.data, ProductDetails);
    assert Get(next, Premium) == Get(s.data, Premium);
  }

  /** Any edit that changes the partner, an autofill merge included,
      settles with no product: an extracted product is cleared with it. */
  lemma NewPartnerClearsProduct(s: FormState, next: PolicyData)
    requires next.partnerName != s.data.partnerName
    ensures AfterEdit(s, next).data.productDetails == ""
    ensures AfterEdit(s, next).data.premium == NoAmount
    ensures AfterEdit(s, next).productOptions == ProductOptions(next.partnerName)
  {
    var cur := FormState(next, s.productOptions, s.premiumOptions);
    var s1 := Round(s, cur);
    assert Cleared(cur, s1);
    assert s1.productOptions == ProductOptions(next.partnerName);
    assert AfterEdit(s, next) == Rerender(cur, s1, RenderBound - 1).1;
  }

  /** After the partner effect: the partner is settled, the product empty
      and the premium unset. */
  predicate Cleared(prev: FormState, cur: FormState) {
    prev.data.partnerName == cur.data.partnerName && cur.data.productDetails == "" && cur.data.premium == NoAmount
  }

  /** Once cleared, a render keeps the form cleared and the product
      options as they are. */
  lemma RoundKeepsCleared(prev: FormState, cur: FormState)
    ensures Cleared(prev, cur) ==> Cleared(cur, Round(prev, cur)) && Round(prev, cur).productOptions == cur.productOptions
  {
  }

  /** An edit that changes the product and sets a premium listed under the
      previous product: in the same render the premium effect, which still
      reads the previous product's options, fills that row's tenure and CSE
      name after the product effect's reset, and the next render only
      confirms it. So the form settles with the premium unset but the old
      row's tenure and CSE name, as an autofill of a new product and a
      premium does. */
  lemma ProductChangeRefills(s: FormState, next: PolicyData, row: PremiumOption)
    requires next.partnerName == s.data.partnerName
    requires next.productDetails != s.data.productDetails
    requires next.premium != s.data.premium
    requires PremiumMatch(next.premium, s.premiumOptions) == Some(row)
    ensures AfterEdit(s, next).data == FillFrom(ClearFromPremium(next), row)
    ensures AfterEdit(s, next).data.premium == NoAmount
    ensures AfterEdit(s, next).premiumOptions == PremiumOptions(next.partnerName, next.productDetails)
  {
    var cur := FormState(next, s.productOptions, s.premiumOptions);
    var s1 := Round(s, cur);
    assert s1 == FormState(FillFrom(ClearFromPremium(next), row), s.productOptions,
                           PremiumOptions(next.partnerName, next.productDetails));
    assert Round(cur, s1) == s1;
    assert AfterEdit(s, next) == Rerender(cur, s1, RenderBound - 1).1;
  }

  /** An autofill that extracts a partner other than the chosen one keeps
      that partner but none of the extracted product or premium. */
  lemma AutofillOfPartner(s: FormState, m: map<Field, Value>)
    requires forall f :: f in m ==> Fits(f, m[f])
    requires PartnerName in m && m[PartnerName] != Text(s.data.partnerName)
    ensures AfterEdit(s, Merge(s.data, m)).data.partnerName == m[PartnerName].s
    ensures AfterEdit(s, Merge(s.data, m)).data.productDetails == ""
    ensures AfterEdit(s, Merge(s.data, m)).data.premium == NoAmount
  {
    var next := Merge(s.data, m);
    assert Get(next, PartnerName) == m[PartnerName];
    NewPartnerClearsProduct(s, next);
  }

  /** The new-record form: `emptyForm` with the timestamp as its id. */
  function NewRecord(now: nat): (p: PolicyData)
    ensures p.id == NatToString(now) && p.id != ""
    ensures forall f :: f != Id ==> Get(p, f) == Get(EmptyForm, f)
  {
    Set(EmptyForm, Id, Text(NatToString(now)))
  }

  /** The form as the mount renders run it: all three effects fire on the
      first render, after the effect that loads `initialData` (or a new
      record). */
  function MountAsWritten(initial: Option<PolicyData>, now: nat): FormState {
    var s0 := FormState(if initial.Some? then initial.value else EmptyForm, [], []);
    var init := if initial.Some? then initial.value else NewRecord(now);
    Settle(s0, RunEffects(s0, init, Fired(true, true, true)))
  }

  /** Opening a saved record for editing loses its product, premium, tenure
      and CSE name: the partner effect's reset runs on mount too. */
  lemma MountClearsEditedRecord(p: PolicyData, now: nat)
    ensures MountAsWritten(Some(p), now) == FormState(ClearFromProduct(p), ProductOptions(p.partnerName), [])
    ensures p.productDetails != "" ==> MountAsWritten(Some(p), now).data != p
  {
    var s0 := FormState(p, [], []);
    var s1 := RunEffects(s0, p, Fired(true, true, true));
    var target := FormState(ClearFromProduct(p), ProductOptions(p.partnerName), []);
    MountRenders(p);
    if !Quiet(s0, s1) {
      assert Rerender(s0, s1, RenderBound) == Rerender(s1, target, RenderBound - 1);
    }
  }

  /** The renders of an edited record's mount: the first clears it, the
      second drops the premium options, the third changes nothing. */
  lemma MountRenders(p: PolicyData)
    ensures var s0 := FormState(p, [], []);
      var s1 := RunEffects(s0, p, Fired(true, true, true));
      var target := FormState(ClearFromProduct(p), ProductOptions(p.partnerName), []);
      && Round(s0, s1) == target && Round(s1, target) == target
      && (Quiet(s0, s1) ==> s1 == target)
  {
    var s0 := FormState(p, [], []);
    var s1 := RunEffects(s0, p, Fired(true, true, true));
    assert s1 == FormState(ClearFromProduct(p), ProductOptions(p.partnerName), PremiumOptions(p.partnerName, p.productDetails));
    if p.productDetails != "" {
      assert Changed(s0, s1).product;
    }
    ClearedRenderIsQuiet(s1, FormState(ClearFromProduct(p), ProductOptions(p.partnerName), []));
  }

  /** A cleared form with no premium options renders unchanged. */
  lemma ClearedRenderIsQuiet(prev: FormState, s: FormState)
    requires prev.data.partnerName == s.data.partnerName && prev.data.productDetails == ""
    requires s.data.productDetails == "" && s.data.premium == NoAmount && s.premiumOptions == []
    ensures Round(prev, s) == s
  {
  }

  /** Whatever the record, the mounted form's options agree with its
      partner and product. */
  lemma MountConsistent(initial: Option<PolicyData>, now: nat)
    ensures Consistent(MountAsWritten(initial, now))
    ensures initial.Some? ==> MountAsWritten(initial, now).data == ClearFromProduct(initial.value)
    ensures initial.None? ==> MountAsWritten(initial, now).data == NewRecord(now)
  {
    if initial.Some? {
      MountClearsEditedRecord(initial.value, now);
    } else {
      MountOfNewRecord(now);
    }
  }

  /** The form as mounted: the record being edited, or a new record, with
      the options that belong to its partner and product. */
  function InitialForm(initial: Option<PolicyData>, now: nat): (s: FormState)
    ensures Consistent(s)
    ensures initial.Some? ==> s.data == initial.value
    ensures initial.None? ==> s.data == NewRecord(now)
  {
    var init := if initial.Some? then initial.value else NewRecord(now);
    FormState(init, ProductOptions(init.partnerName), PremiumOptions(init.partnerName, init.productDetails))
  }

  /** For a new record the mount as written already gives the intended
      form. */
  lemma MountOfNewRecord(now: nat)
    ensures MountAsWritten(None, now) == InitialForm(None, now)
  {
    var s0 := FormState(EmptyForm, [], []);
    var s1 := RunEffects(s0, NewRecord(now), Fired(true, true, true));
    assert s1.data == NewRecord(now);
    assert Quiet(s0, s1);
  }

  /** `{ ...prev, ...extracted }` over the fields `fs`. */
  function MergeFields(p: PolicyData, m: map<Field, Value>, fs: seq<Field>): (r: PolicyData)
    requires forall f :: f in m ==> Fits(f, m[f])
    ensures forall f :: Get(r, f) == if f in m && f in fs then m[f] else Get(p, f)
    decreases |fs|
  {
    if |fs| == 0 then p
    else MergeFields(if fs[0] in m then Set(p, fs[0], m[fs[0]]) else p, m, fs[1..])
  }

  /** The autofill merge: the extracted fields override, the rest stay. */
  function Merge(p: PolicyData, m: map<Field, Value>): (r: PolicyData)
    requires forall f :: f in m ==> Fits(f, m[f])
    ensures forall f :: Get(r, f) == if f in m then m[f] else Get(p, f)
  {
    forall f ensures f in Fields { FieldsComplete(f); }
    MergeFields(p, m, Fields)
  }

  /** A toast the form asks the portal to raise. */
  datatype Notice = Notice(message: string, kind: ToastKind)

  /** The toast of "Autofill from Image" as written: the extraction runs in
      the reader's completion handler, outside the `try`, so a failure
      raises none. */
  function AutofillNoticeAsWritten(hasImage: bool, extracted: Result<map<Field, Value>>): (n: Option<Notice>)
    ensures n.None? <==> hasImage && extracted.Err?
    ensures n.Some? ==> n.value.kind != Error
    ensures n.Some? ==> (n.value.kind == Success <==> hasImage)
  {
    if !hasImage then Some(Notice("Please upload an image first.", Info))
    else if extracted.Ok? then Some(Notice("Data extracted successfully!", Success))
    else None
  }

  lemma FailedExtractionIsSilent(message: string)
    ensures AutofillNoticeAsWritten(true, Err(message)) == None
  {
  }

  /** The toast of "Autofill from Image" with the failure reported, as the
      `catch` clause intends. */
  function AutofillNotice(hasImage: bool, extracted: Result<map<Field, Value>>): (n: Option<Notice>)
    ensures n.Some?
    ensures n.value.kind == Error <==> hasImage && extracted.Err?
    ensures hasImage && extracted.Err? ==> n.value.message == extracted.message
    ensures extracted.Ok? || !hasImage ==> n == AutofillNoticeAsWritten(hasImage, extracted)
  {
    if hasImage && extracted.Err? then Some(Notice(extracted.message, Error))
    else AutofillNoticeAsWritten(hasImage, extracted)
  }

  /** The entry form's state. */
  class Form {
    var formData: PolicyData
    var productOptions: seq<string>
    var premiumOptions: seq<PremiumOption>
    var activeInput: Option<Field>
    var hasImage: bool

    function State(): FormState
      reads this
    {
      FormState(formData, productOptions, premiumOptions)
    }

    ghost predicate Valid()
      reads this
    {
      && Consistent(State())
      && (activeInput.Some? ==> KindOf(activeInput.value) != GenderKind)
    }

    /** The mount: `initialData` or a new record is loaded and the three
        effects run on it. */
    constructor (initial: Option<PolicyData>, now: nat)
      ensures Valid()
      ensures State() == MountAsWritten(initial, now)
      ensures initial.Some? ==> formData == ClearFromProduct(initial.value)
      ensures initial.None? ==> formData == NewRecord(now)
      ensures activeInput == None && !hasImage
    {
      var s := MountAsWritten(initial, now);
      MountConsistent(initial, now);
      formData := s.data;
      productOptions := s.productOptions;
      premiumOptions := s.premiumOptions;
      activeInput := None;
      hasImage := false;
    }

    /** Sets the form data and lets the effects settle. */
    method Commit(next: PolicyData)
      requires Valid()
      modifies this
      ensures Valid()
      ensures State() == AfterEdit(old(State()), next)
      ensures activeInput == old(activeInput) && hasImage == old(hasImage)
    {
      var s := AfterEdit(State(), next);
      AfterEditConsistent(State(), next);
      formData, productOptions, premiumOptions := s.data, s.productOptions, s.premiumOptions;
      assert State() == s;
    }

    /** `handleChange`: an input, select or textarea stores its string. */
    method HandleChange(f: Field, value: string)
      requires Valid()
      requires KindOf(f) != GenderKind
      modifies this
      ensures Valid()
      ensures State() == AfterEdit(old(State()), Set(old(formData), f, InputValue(f, value)))
      ensures activeInput == old(activeInput) && hasImage == old(hasImage)
    {
      Commit(Set(formData, f, InputValue(f, value)));
    }

    /** `handleRadioChange`: a gender radio button stores its choice. */
    method HandleRadioChange(f: Field, g: GenderChoice)
      requires Valid()
      requires KindOf(f) == GenderKind
      modifies this
      ensures Valid()
      ensures State() == AfterEdit(old(State()), Set(old(formData), f, Choice(g)))
      ensures activeInput == old(activeInput) && hasImage == old(hasImage)
    {
      Commit(Set(formData, f, Choice(g)));
    }

    /** `handleVoiceInput`: the microphone button of a text field. */
    method HandleVoiceInput(f: Field)
      requires Valid()
      requires KindOf(f) != GenderKind
      modifies this
      ensures Valid()
      ensures activeInput == Some(f)
      ensures State() == old(State()) && hasImage == old(hasImage)
    {
      activeInput := Some(f);
    }

    /** `handleSpeechResult`: the recognised text goes verbatim into the
        active field, which is then cleared. */
    method HandleSpeechResult(result: string)
      requires Valid()
      modifies this
      ensures Valid()
      ensures activeInput == None && hasImage == old(hasImage)
      ensures old(activeInput).None? ==> State() == old(State())
      ensures old(activeInput).Some? ==>
        var f := old(activeInput).value;
        State() == AfterEdit(old(State()), Set(old(formData), f, InputValue(f, result)))
    {
      if activeInput.Some? {
        var f := activeInput.value;
        Commit(Set(formData, f, InputValue(f, result)));
        activeInput := None;
      }
    }

    /** `handleImageChange`: a chosen file becomes the image to read. */
    method HandleImageChange(selected: bool)
      requires Valid()
      modifies this
      ensures Valid()
      ensures hasImage == (old(hasImage) || selected)
      ensures State() == old(State()) && activeInput == old(activeInput)
    {
      if selected {
        hasImage := true;
      }
    }

    /** `handleAutofill`, given what the extraction service returns. */
    method Autofill(extracted: Result<map<Field, Value>>) returns (notice: Option<Notice>)
      requires Valid()
      requires extracted.Ok? ==> forall f :: f in extracted.value ==> Fits(f, extracted.value[f])
      modifies this
      ensures Valid()
      ensures notice == AutofillNoticeAsWritten(old(hasImage), extracted)
      ensures old(hasImage) && extracted.Ok? ==> State() == AfterEdit(old(State()), Merge(old(formData), extracted.value))
      ensures !old(hasImage) || extracted.Err? ==> State() == old(State())
      ensures activeInput == old(activeInput) && hasImage == old(hasImage)
    {
      notice := AutofillNoticeAsWritten(hasImage, extracted);
      if hasImage && extracted.Ok? {
        Commit(Merge(formData, extracted.value));
      }
    }

    /** `handleSubmit`: the form data goes to the portal's save handler. */
    method Submit() returns (saved: PolicyData)
      ensures saved == formData
    {
      saved := formData;
    }
  }
}

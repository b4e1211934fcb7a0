/** The static lookup table that drives the cascading selects:
    partner -> product -> list of {Premium, Tenure, CSE Name}, and the list
    of nominee relationships. The table is an ordered association list
    because the order of `Object.keys` is the order the product select shows. */
module Partners {
  import opened Wrappers

  /** `{ Premium, Tenure, "CSE Name" }`. */
  datatype PremiumOption = PremiumOption(premium: nat, tenure: int, cseName: string)

  datatype ProductEntry = ProductEntry(product: string, options: seq<PremiumOption>)

  datatype PartnerEntry = PartnerEntry(partner: string, products: seq<ProductEntry>)

  /** `partnerData`. */
  const PartnerData: seq<PartnerEntry> := [
    PartnerEntry("BANGIYA", [
      ProductEntry("Combo", [
        PremiumOption(490, 1, "Jahed"), PremiumOption(690, 1, "Jahed"),
        PremiumOption(980, 2, "Jahed"), PremiumOption(990, 1, "Jahed")]),
      ProductEntry("Telemedicine", [
        PremiumOption(360, 1, "Jahed"), PremiumOption(700, 2, "Jahed"),
        PremiumOption(1000, 3, "Jahed"), PremiumOption(2000, 6, "Jahed"),
        PremiumOption(3000, 9, "Jahed")])]),
    PartnerEntry("PBGB", [
      ProductEntry("Combo", [PremiumOption(490, 1, "Aditya"), PremiumOption(690, 1, "Aditya")]),
      ProductEntry("Telemedicine", [PremiumOption(365, 1, "Aditya")])]),
    PartnerEntry("UBKGB", [
      ProductEntry("Combo", [PremiumOption(490, 1, "Abhijit"), PremiumOption(690, 1, "Abhijit")]),
      ProductEntry("Telemedicine", [PremiumOption(365, 1, "Abhijit")])]),
    PartnerEntry("KCCB", [
      ProductEntry("Combo", [PremiumOption(700, 1, "Aditya"), PremiumOption(1050, 1, "Aditya")]),
      ProductEntry("Telemedicine", [PremiumOption(399, 1, "Aditya")])]),
    PartnerEntry("Assam Vikas Gramin Bank", [
      ProductEntry("Telemedicine", [PremiumOption(365, 1, "Abhishek")])]),
    PartnerEntry("DCCB", [
      ProductEntry("Telemedicine", [PremiumOption(365, 1, "Abhishek")])]),
    PartnerEntry("UBGB", [
      ProductEntry("Telemedicine", [PremiumOption(365, 1, "Nazreen")])])]

  /** `nomineeRelationships`. */
  const NomineeRelationships: seq<string> := [
    "Spouse", "Son", "Daughter", "Mother", "Father", "Sister", "Brother",
    "Grandfather", "Grandmother", "Nephew", "Niece", "Uncle", "Aunty", "Other"]

  /** `Object.keys(partnerData)`. */
  function PartnerKeys(t: seq<PartnerEntry>): (keys: seq<string>)
    ensures |keys| == |t| && forall i :: 0 <= i < |t| ==> keys[i] == t[i].partner
  {
    seq(|t|, i requires 0 <= i < |t| => t[i].partner)
  }

  /** `Object.keys(partnerData[partner])`. */
  function ProductKeys(ps: seq<ProductEntry>): (keys: seq<string>)
    ensures |keys| == |ps| && forall i :: 0 <= i < |ps| ==> keys[i] == ps[i].product
  {
    seq(|ps|, i requires 0 <= i < |ps| => ps[i].product)
  }

  /** `partnerData[partner]`: the products of the first entry with that key. */
  function LookupPartner(t: seq<PartnerEntry>, partner: string): (r: Option<seq<ProductEntry>>)
    ensures r.None? <==> partner !in PartnerKeys(t)
    ensures r.Some? ==> exists i :: 0 <= i < |t| && t[i].partner == partner && t[i].products == r.value
  {
    if |t| == 0 then None
    else if t[0].partner == partner then Some(t[0].products)
    else
      assert PartnerKeys(t) == [t[0].partner] + PartnerKeys(t[1..]);
      LookupPartner(t[1..], partner)
  }

  /** `partnerData[partner][product]`. */
  function LookupProduct(ps: seq<ProductEntry>, product: string): (r: Option<seq<PremiumOption>>)
    ensures r.None? <==> product !in ProductKeys(ps)
    ensures r.Some? ==> exists i :: 0 <= i < |ps| && ps[i].product == product && ps[i].options == r.value
  {
    if |ps| == 0 then None
    else if ps[0].product == product then Some(ps[0].options)
    else
      assert ProductKeys(ps) == [ps[0].product] + ProductKeys(ps[1..]);
      LookupProduct(ps[1..], product)
  }

  /** The product select's options for a partner: the product keys of its
      table entry, and none when the partner is empty or not in the table. */
  function ProductOptions(partner: string): (r: seq<string>)
    ensures partner == "" || partner !in PartnerKeys(PartnerData) ==> r == []
    ensures partner != "" && partner in PartnerKeys(PartnerData) ==>
      exists i :: 0 <= i < |PartnerData| && PartnerData[i].partner == partner && r == ProductKeys(PartnerData[i].products)
  {
    if partner == "" then []
    else match LookupPartner(PartnerData, partner)
      case Some(ps) => ProductKeys(ps)
      case None => []
  }

  /** The premium select's options: `partnerData[partner][product]`, and
      none when either is empty or missing from the table. */
  function PremiumOptions(partner: string, product: string): (r: seq<PremiumOption>)
    ensures partner == "" || product == "" || partner !in PartnerKeys(PartnerData) ==> r == []
    ensures partner in PartnerKeys(PartnerData) && product !in ProductKeys(LookupPartner(PartnerData, partner).value) ==> r == []
    ensures (partner != "" && product != "" && partner in PartnerKeys(PartnerData) &&
             LookupProduct(LookupPartner(PartnerData, partner).value, product).Some?) ==>
      r == LookupProduct(LookupPartner(PartnerData, partner).value, product).value
  {
    if partner == "" || product == "" then []
    else match LookupPartner(PartnerData, partner)
      case Some(ps) => (match LookupProduct(ps, product) case Some(opts) => opts case None => [])
      case None => []
  }

  /** `options.find(p => p.Premium === n)`: the first option with that
      premium. */
  function FindPremium(options: seq<PremiumOption>, n: int): (r: Option<PremiumOption>)
    ensures r.Some? ==> r.value in options && r.value.premium == n
    ensures r.Some? ==> exists k :: (0 <= k < |options| && options[k] == r.value &&
      forall i :: 0 <= i < k ==> options[i].premium != n)
    ensures r.None? <==> forall i :: 0 <= i < |options| ==> options[i].premium != n
  {
    if |options| == 0 then None
    else if options[0].premium == n then Some(options[0])
    else FindPremium(options[1..], n)
  }

  predicate DistinctPremiums(options: seq<PremiumOption>) {
    forall i, j :: 0 <= i < j < |options| ==> options[i].premium != options[j].premium
  }

  /** With distinct premiums, a row is the one `find` returns for its premium. */
  lemma {:induction false} FindPremiumOfRow(options: seq<PremiumOption>, k: nat)
    requires DistinctPremiums(options) && k < |options|
    ensures FindPremium(options, options[k].premium) == Some(options[k])
    decreases k
  {
    if k > 0 {
      assert options[0].premium != options[k].premium;
      assert DistinctPremiums(options[1..]) by {
        forall i, j | 0 <= i < j < |options| - 1
          ensures options[1..][i].premium != options[1..][j].premium
        {
          assert options[1..][i] == options[i + 1] && options[1..][j] == options[j + 1];
        }
      }
      FindPremiumOfRow(options[1..], k - 1);
    }
  }

  /** One product's option list: non-empty, premiums pairwise distinct and
      positive, tenures at least one year, and one CSE name throughout. */
  predicate WellFormedOptions(options: seq<PremiumOption>, cse: string) {
    && |options| >= 1
    && DistinctPremiums(options)
    && forall i :: 0 <= i < |options| ==>
         options[i].premium > 0 && options[i].tenure >= 1 && options[i].cseName == cse
  }

  predicate WellFormedProducts(ps: seq<ProductEntry>, cse: string) {
    && |ps| >= 1
    && (forall i, j :: 0 <= i < j < |ps| ==> ps[i].product != ps[j].product)
    && forall i :: 0 <= i < |ps| ==> ps[i].product != "" && WellFormedOptions(ps[i].options, cse)
  }

  /** The CSE name shared by all rows of each partner, in table order. */
  const PartnerCse: seq<string> := ["Jahed", "Aditya", "Abhijit", "Aditya", "Abhishek", "Abhishek", "Nazreen"]

  predicate WellFormedTable(t: seq<PartnerEntry>, cse: seq<string>) {
    && |cse| == |t|
    && (forall i, j :: 0 <= i < j < |t| ==> t[i].partner != t[j].partner)
    && forall i :: 0 <= i < |t| ==> t[i].partner != "" && WellFormedProducts(t[i].products, cse[i])
  }

  lemma PartnerKeysExactly()
    ensures PartnerKeys(PartnerData) ==
      ["BANGIYA", "PBGB", "UBKGB", "KCCB", "Assam Vikas Gramin Bank", "DCCB", "UBGB"]
  {
  }

  lemma BangiyaWellFormed()
    ensures WellFormedProducts(PartnerData[0].products, PartnerCse[0])
  {
    var ps := PartnerData[0].products;
    assert WellFormedOptions(ps[0].options, "Jahed");
    assert WellFormedOptions(ps[1].options, "Jahed");
  }

  lemma ComboAndTelemedicineWellFormed(i: nat)
    requires 1 <= i <= 3
    ensures WellFormedProducts(PartnerData[i].products, PartnerCse[i])
  {
    var ps := PartnerData[i].products;
    assert WellFormedOptions(ps[0].options, PartnerCse[i]);
    assert WellFormedOptions(ps[1].options, PartnerCse[i]);
  }

  lemma TelemedicineOnlyWellFormed(i: nat)
    requires 4 <= i <= 6
    ensures WellFormedProducts(PartnerData[i].products, PartnerCse[i])
  {
    assert WellFormedOptions(PartnerData[i].products[0].options, PartnerCse[i]);
  }

  /** The table's structural promises: distinct non-empty partner keys;
      every partner has distinct non-empty products; every product a
      non-empty list with distinct positive premiums, tenures of at least
      one year and the partner's single CSE name. */
  lemma PartnerDataWellFormed()
    ensures WellFormedTable(PartnerData, PartnerCse)
  {
    BangiyaWellFormed();
    ComboAndTelemedicineWellFormed(1);
    ComboAndTelemedicineWellFormed(2);
    ComboAndTelemedicineWellFormed(3);
    TelemedicineOnlyWellFormed(4);
    TelemedicineOnlyWellFormed(5);
    TelemedicineOnlyWellFormed(6);
    PartnerKeysExactly();
    assert forall i, j :: 0 <= i < j < |PartnerData| ==> PartnerKeys(PartnerData)[i] != PartnerKeys(PartnerData)[j];
  }

  /** Every option list the premium select can show is well formed. */
  lemma PremiumOptionsWellFormed(partner: string, product: string)
    ensures PremiumOptions(partner, product) == [] ||
      exists i :: 0 <= i < |PartnerData| && WellFormedOptions(PremiumOptions(partner, product), PartnerCse[i])
  {
    PartnerDataWellFormed();
    var found := LookupPartner(PartnerData, partner);
    if partner != "" && product != "" && found.Some? {
      var ps := found.value;
      var i :| 0 <= i < |PartnerData| && PartnerData[i].partner == partner && PartnerData[i].products == ps;
      var opts := LookupProduct(ps, product);
      if opts.Some? {
        var j :| 0 <= j < |ps| && ps[j].product == product && ps[j].options == opts.value;
        assert WellFormedOptions(opts.value, PartnerCse[i]);
      }
    }
  }

  /** Every table row is reached by looking up its own partner and product. */
  lemma LookupOfRow(i: nat, j: nat)
    requires i < |PartnerData| && j < |PartnerData[i].products|
    ensures PremiumOptions(PartnerData[i].partner, PartnerData[i].products[j].product) == PartnerData[i].products[j].options
    ensures ProductOptions(PartnerData[i].partner) == ProductKeys(PartnerData[i].products)
  {
    PartnerDataWellFormed();
    var e := PartnerData[i];
    assert e.partner in PartnerKeys(PartnerData);
    var ps := LookupPartner(PartnerData, e.partner).value;
    var i' :| 0 <= i' < |PartnerData| && PartnerData[i'].partner == e.partner && PartnerData[i'].products == ps;
    assert i' == i;
    var pe := ps[j];
    assert pe.product in ProductKeys(ps);
    var opts := LookupProduct(ps, pe.product).value;
    var j' :| 0 <= j' < |ps| && ps[j'].product == pe.product && ps[j'].options == opts;
    assert WellFormedProducts(ps, PartnerCse[i]);
    assert j' == j;
  }

  lemma NomineeRelationshipsShape()
    ensures |NomineeRelationships| == 14
    ensures NomineeRelationships[13] == "Other"
    ensures forall i, j :: 0 <= i < j < |NomineeRelationships| ==> NomineeRelationships[i] != NomineeRelationships[j]
  {
  }

  /** The premium lookup finds each row of the table by its own premium,
      which is positive. */
  lemma RowPremiumFound(i: nat, j: nat, k: nat)
    requires i < |PartnerData| && j < |PartnerData[i].products| && k < |PartnerData[i].products[j].options|
    ensures var row := PartnerData[i].products[j].options[k];
      row.premium > 0 &&
      FindPremium(PremiumOptions(PartnerData[i].partner, PartnerData[i].products[j].product), row.premium) == Some(row)
  {
    var options := PartnerData[i].products[j].options;
    LookupOfRow(i, j);
    PartnerDataWellFormed();
    assert WellFormedProducts(PartnerData[i].products, PartnerCse[i]);
    assert WellFormedOptions(options, PartnerCse[i]);
    FindPremiumOfRow(options, k);
  }

  /** The premium select never lists two options with the same premium,
      nor a premium that is not positive. */
  lemma ListedPremiumsDistinct(partner: string, product: string)
    ensures DistinctPremiums(PremiumOptions(partner, product))
    ensures forall i :: 0 <= i < |PremiumOptions(partner, product)| ==> PremiumOptions(partner, product)[i].premium > 0
  {
    PremiumOptionsWellFormed(partner, product);
  }
}

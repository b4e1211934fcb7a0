/** The record shapes of the portal: the insurance-policy record, its
    fields, and the toast notification. */
module Policy {
  import opened Strings

  /** `'Male' | 'Female' | 'Other' | ''`. */
  datatype GenderChoice = Male | Female | Other | NoGender

  /** The premium and tenure fields. They are declared `number | ''`, but an
      input event stores the input element's string, so a third case holds
      that text (never the empty string, which is the unset value). */
  datatype Amount = NoAmount | Num(n: int) | Entered(text: string)

  datatype PolicyData = PolicyData(
    id: string,
    partnerName: string,
    productDetails: string,
    premium: Amount,
    tenure: Amount,
    cseName: string,
    branchName: string,
    branchCode: string,
    region: string,
    customerName: string,
    gender: GenderChoice,
    dateOfBirth: string,
    mobileNumber: string,
    customerId: string,
    enrolmentDate: string,
    savingsAcNo: string,
    csbCode: string,
    d2cCode: string,
    nomineeName: string,
    nomineeDob: string,
    nomineeRelationship: string,
    nomineeMobileNumber: string,
    nomineeGender: GenderChoice,
    remarks: string)

  /** `keyof PolicyData`. */
  datatype Field =
    | Id | PartnerName | ProductDetails | Premium | Tenure | CseName
    | BranchName | BranchCode | Region | CustomerName | Gender | DateOfBirth
    | MobileNumber | CustomerId | EnrolmentDate | SavingsAcNo | CsbCode | D2cCode
    | NomineeName | NomineeDob | NomineeRelationship | NomineeMobileNumber
    | NomineeGender | Remarks

  /** The fields in declaration order, which is the order of `Object.keys`
      and `Object.values` on every record the portal builds. */
  const Fields: seq<Field> := [
    Id, PartnerName, ProductDetails, Premium, Tenure, CseName,
    BranchName, BranchCode, Region, CustomerName, Gender, DateOfBirth,
    MobileNumber, CustomerId, EnrolmentDate, SavingsAcNo, CsbCode, D2cCode,
    NomineeName, NomineeDob, NomineeRelationship, NomineeMobileNumber,
    NomineeGender, Remarks]

  function FieldName(f: Field): string {
    match f
    case Id => "id"
    case PartnerName => "partnerName"
    case ProductDetails => "productDetails"
    case Premium => "premium"
    case Tenure => "tenure"
    case CseName => "cseName"
    case BranchName => "branchName"
    case BranchCode => "branchCode"
    case Region => "region"
    case CustomerName => "customerName"
    case Gender => "gender"
    case DateOfBirth => "dateOfBirth"
    case MobileNumber => "mobileNumber"
    case CustomerId => "customerId"
    case EnrolmentDate => "enrolmentDate"
    case SavingsAcNo => "savingsAcNo"
    case CsbCode => "csbCode"
    case D2cCode => "d2cCode"
    case NomineeName => "nomineeName"
    case NomineeDob => "nomineeDob"
    case NomineeRelationship => "nomineeRelationship"
    case NomineeMobileNumber => "nomineeMobileNumber"
    case NomineeGender => "nomineeGender"
    case Remarks => "remarks"
  }

  lemma FieldsComplete(f: Field)
    ensures f in Fields
  {
  }

  lemma FieldsDistinct()
    ensures forall i, j :: 0 <= i < j < |Fields| ==> Fields[i] != Fields[j]
  {
  }

  /** The value held in one field. */
  datatype Value = Text(s: string) | Amt(a: Amount) | Choice(g: GenderChoice)

  datatype Kind = TextKind | AmountKind | GenderKind

  function KindOf(f: Field): Kind {
    match f
    case Premium | Tenure => AmountKind
    case Gender | NomineeGender => GenderKind
    case _ => TextKind
  }

  predicate Fits(f: Field, v: Value) {
    match KindOf(f)
    case TextKind => v.Text?
    case AmountKind => v.Amt?
    case GenderKind => v.Choice?
  }

  /** `record[f]`. */
  function Get(p: PolicyData, f: Field): (v: Value)
    ensures Fits(f, v)
  {
    match f
    case Id => Text(p.id)
    case PartnerName => Text(p.partnerName)
    case ProductDetails => Text(p.productDetails)
    case Premium => Amt(p.premium)
    case Tenure => Amt(p.tenure)
    case CseName => Text(p.cseName)
    case BranchName => Text(p.branchName)
    case BranchCode => Text(p.branchCode)
    case Region => Text(p.region)
    case CustomerName => Text(p.customerName)
    case Gender => Choice(p.gender)
    case DateOfBirth => Text(p.dateOfBirth)
    case MobileNumber => Text(p.mobileNumber)
    case CustomerId => Text(p.customerId)
    case EnrolmentDate => Text(p.enrolmentDate)
    case SavingsAcNo => Text(p.savingsAcNo)
    case CsbCode => Text(p.csbCode)
    case D2cCode => Text(p.d2cCode)
    case NomineeName => Text(p.nomineeName)
    case NomineeDob => Text(p.nomineeDob)
    case NomineeRelationship => Text(p.nomineeRelationship)
    case NomineeMobileNumber => Text(p.nomineeMobileNumber)
    case NomineeGender => Choice(p.nomineeGender)
    case Remarks => Text(p.remarks)
  }

  /** `{ ...p, [f]: v }`: exactly the named field takes the given value. */
  function Set(p: PolicyData, f: Field, v: Value): (r: PolicyData)
    requires Fits(f, v)
    ensures Get(r, f) == v
    ensures forall g: Field :: g != f ==> Get(r, g) == Get(p, g)
  {
    match f
    case Id => p.(id := v.s)
    case PartnerName => p.(partnerName := v.s)
    case ProductDetails => p.(productDetails := v.s)
    case Premium => p.(premium := v.a)
    case Tenure => p.(tenure := v.a)
    case CseName => p.(cseName := v.s)
    case BranchName => p.(branchName := v.s)
    case BranchCode => p.(branchCode := v.s)
    case Region => p.(region := v.s)
    case CustomerName => p.(customerName := v.s)
    case Gender => p.(gender := v.g)
    case DateOfBirth => p.(dateOfBirth := v.s)
    case MobileNumber => p.(mobileNumber := v.s)
    case CustomerId => p.(customerId := v.s)
    case EnrolmentDate => p.(enrolmentDate := v.s)
    case SavingsAcNo => p.(savingsAcNo := v.s)
    case CsbCode => p.(csbCode := v.s)
    case D2cCode => p.(d2cCode := v.s)
    case NomineeName => p.(nomineeName := v.s)
    case NomineeDob => p.(nomineeDob := v.s)
    case NomineeRelationship => p.(nomineeRelationship := v.s)
    case NomineeMobileNumber => p.(nomineeMobileNumber := v.s)
    case NomineeGender => p.(nomineeGender := v.g)
    case Remarks => p.(remarks := v.s)
  }

  /** What an `<input>`, `<select>` or `<textarea>` stores on change: its
      string; in an amount field the empty string is the unset value. */
  function InputValue(f: Field, s: string): (v: Value)
    requires KindOf(f) != GenderKind
    ensures Fits(f, v)
    ensures v.Text? ==> v.s == s
    ensures v.Amt? ==> (v.a == NoAmount <==> s == "") && (v.a.Entered? <==> s != "")
    ensures v.Amt? && s != "" ==> v.a.text == s
  {
    if KindOf(f) == AmountKind then Amt(if s == "" then NoAmount else Entered(s)) else Text(s)
  }

  function ShowAmount(a: Amount): string {
    match a
    case NoAmount => ""
    case Num(n) => IntToString(n)
    case Entered(s) => s
  }

  function ShowGender(g: GenderChoice): string {
    match g
    case Male => "Male"
    case Female => "Female"
    case Other => "Other"
    case NoGender => ""
  }

  /** `String(value)` for a field value. */
  function Show(v: Value): string {
    match v
    case Text(s) => s
    case Amt(a) => ShowAmount(a)
    case Choice(g) => ShowGender(g)
  }

  /** `emptyForm`: every field unset. */
  const EmptyForm: PolicyData := PolicyData(
    "", "", "", NoAmount, NoAmount, "", "", "", "", "", NoGender, "", "", "", "", "",
    "", "", "", "", "", "", NoGender, "")

  lemma EmptyFormIsBlank(f: Field)
    ensures Show(Get(EmptyForm, f)) == ""
    ensures Get(EmptyForm, f) in {Text(""), Amt(NoAmount), Choice(NoGender)}
  {
  }

  datatype ToastKind = Success | Error | Info

  /** `ToastMessage`: the id is the timestamp at which it was raised. */
  datatype ToastMessage = ToastMessage(id: int, message: string, kind: ToastKind)
}

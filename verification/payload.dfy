/**
 * Voucher plan items and the voucher payload built from them
 * (`create_voucher_for_transaction` up to, not including, the API call).
 *
 * The payload fields that never vary (object names, `mapAll`, status 100,
 * tax type "ss", voucher type "VOU", currency "EUR", tax rate and tax 0)
 * are kept as fields so that the constants are part of the model.
 */
module Payload {
  import opened Wrappers
  import opened Records
  import opened ContactMatching

  /** The four donation buckets of the donation scripts. */
  datatype DonationType = Mission | General | Jeske | Tobias

  /** One row of a voucher plan. `description` is None when the script sets none. */
  datatype PlanItem = PlanItem(
    transactionId: string,
    transactionDate: string,
    amount: int,
    purpose: string,
    payee: string,
    costCentre: Option<CostCentre>,
    contact: Option<Contact<PyValue>>,
    voucherNumber: string,
    accountingType: AccountingType,
    description: Option<string>,
    donationType: Option<DonationType>)

  datatype Position = Position(
    accountingTypeId: string,
    taxRate: int,
    sumNet: nat,
    sumTax: int,
    sumGross: nat,
    comment: string,
    costCentreId: Option<string>)

  datatype VoucherPayload = VoucherPayload(
    voucherDate: string,
    description: string,
    payDate: string,
    paymentDeadline: string,
    status: int,
    taxType: string,
    creditDebit: char,
    voucherType: string,
    currency: string,
    sevClientId: string,
    deliveryDate: Option<string>,
    customerId: Option<string>,
    supplierId: Option<string>,
    supplierName: Option<string>,
    costCentreId: Option<string>,
    position: Position)

  function Abs(x: int): nat
  {
    if x < 0 then -x else x
  }

  /** The voucher payload for one plan item. */
  function BuildPayload(plan: PlanItem, sevClientId: string, isIncome: bool): (p: VoucherPayload)
    ensures p.creditDebit == 'D' <==> isIncome
    ensures p.creditDebit == 'D' || p.creditDebit == 'C'
    ensures p.deliveryDate.Some? <==> isIncome
    ensures p.customerId.Some? <==> isIncome && plan.contact.Some?
    ensures p.supplierId.Some? <==> !isIncome && plan.contact.Some?
    ensures p.supplierName.Some? <==> !isIncome
    ensures p.supplierName.Some? ==> p.supplierName.value == plan.payee
    ensures p.costCentreId == p.position.costCentreId
    ensures p.costCentreId.Some? <==> plan.costCentre.Some?
    ensures p.position.sumNet == p.position.sumGross == Abs(plan.amount)
    ensures p.description == (if plan.description.Some? then plan.description.value else plan.voucherNumber)
    ensures |p.voucherDate| <= 10 && p.voucherDate == p.payDate == p.paymentDeadline
  {
    var date := Take(plan.transactionDate, 10);
    var ccId := if plan.costCentre.Some? then Some(plan.costCentre.value.id) else None;
    var contactId := if plan.contact.Some? then Some(plan.contact.value.id) else None;
    VoucherPayload(
      voucherDate := date,
      description := plan.description.GetOr(plan.voucherNumber),
      payDate := date,
      paymentDeadline := date,
      status := 100,
      taxType := "ss",
      creditDebit := if isIncome then 'D' else 'C',
      voucherType := "VOU",
      currency := "EUR",
      sevClientId := sevClientId,
      deliveryDate := if isIncome then Some(date) else None,
      customerId := if isIncome then contactId else None,
      supplierId := if isIncome then None else contactId,
      supplierName := if isIncome then None else Some(plan.payee),
      costCentreId := ccId,
      position := Position(plan.accountingType.id, 0, Abs(plan.amount), 0, Abs(plan.amount), plan.purpose, ccId))
  }

  /** What a payload says about its plan item: direction, contact and cost centre. */
  datatype Linkage = Linkage(isIncome: bool, contactId: Option<string>, costCentreId: Option<string>)

  /** Reads the linkage back from a payload. */
  function LinkageOf(p: VoucherPayload): Linkage
  {
    var income := p.creditDebit == 'D';
    Linkage(income, if income then p.customerId else p.supplierId, p.costCentreId)
  }

  /**
   * Nothing about the linkage is lost: the direction, the contact and the
   * cost centre of a plan item can be read back from its payload.
   */
  lemma LinkageRoundTrip(plan: PlanItem, sevClientId: string, isIncome: bool)
    ensures LinkageOf(BuildPayload(plan, sevClientId, isIncome)) ==
      Linkage(isIncome,
              if plan.contact.Some? then Some(plan.contact.value.id) else None,
              if plan.costCentre.Some? then Some(plan.costCentre.value.id) else None)
  {
  }

  /** The amount on the voucher does not depend on the sign of the transaction. */
  lemma AmountIgnoresSign(plan: PlanItem, sevClientId: string, isIncome: bool)
    ensures BuildPayload(plan, sevClientId, isIncome).position.sumGross
         == BuildPayload(plan.(amount := -plan.amount), sevClientId, isIncome).position.sumGross
  {
  }

  /**
   * An expense always names its supplier, with or without a contact; an
   * income voucher never does.
   */
  lemma SupplierNameOnlyForExpenses(plan: PlanItem, sevClientId: string, isIncome: bool)
    ensures BuildPayload(plan, sevClientId, isIncome).supplierName == if isIncome then None else Some(plan.payee)
  {
  }
}

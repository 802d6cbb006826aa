/**
 * The shared workflow of the voucher scripts (`VoucherCreatorBase`):
 * finding the accounting type, turning the selected transactions into a
 * voucher plan, and creating the vouchers of the plan, each ending up as
 * created or failed. Every API response is a parameter: the outcome of the
 * create call for each attempted entry.
 */
module VoucherPlan {
  import opened Wrappers
  import opened Text
  import opened Records
  import opened Numbering
  import opened Payload

  // -----------------------------------------------------------------------
  // Accounting type

  /** `find_accounting_type`: the first accounting type, in cache order, whose name contains `term`. */
  function FindAccountingType(ats: seq<AccountingType>, term: string): (r: Option<AccountingType>)
    ensures r.Some? ==> exists k :: 0 <= k < |ats| && ats[k] == r.value && Contains(ats[k].name, term)
                          && forall j :: 0 <= j < k ==> !Contains(ats[j].name, term)
    ensures r.None? <==> forall j :: 0 <= j < |ats| ==> !Contains(ats[j].name, term)
  {
    First(ats, (at: AccountingType) => Contains(at.name, term))
  }

  /**
   * Searching for a part of a term finds a type whenever the whole term
   * does, and never a later one: "pauschale" finds at least what
   * "Übungsleiterpauschale" finds.
   */
  lemma ShorterTermFindsNoLater(ats: seq<AccountingType>, term: string, part: string)
    requires Contains(term, part)
    requires FindAccountingType(ats, term).Some?
    ensures FindAccountingType(ats, part).Some?
    ensures exists k, m :: 0 <= m <= k < |ats| && ats[k] == FindAccountingType(ats, term).value
                                              && ats[m] == FindAccountingType(ats, part).value
  {
    var k :| 0 <= k < |ats| && ats[k] == FindAccountingType(ats, term).value && Contains(ats[k].name, term)
              && forall j :: 0 <= j < k ==> !Contains(ats[j].name, term);
    ContainsTrans(ats[k].name, term, part);
    var m :| 0 <= m < |ats| && ats[m] == FindAccountingType(ats, part).value && Contains(ats[m].name, part)
              && forall j :: 0 <= j < m ==> !Contains(ats[j].name, part);
  }

  // -----------------------------------------------------------------------
  // Plan

  /** How a script turns a transaction, its voucher number and its index into a plan item. */
  type ItemBuilder = (Transaction, string, nat) -> PlanItem

  /** The builder copies the voucher number it is given into the item, as every script does. */
  ghost predicate KeepsNumber(build: ItemBuilder)
  {
    forall t, n, i :: build(t, n, i).voucherNumber == n
  }

  /**
   * `generate_voucher_plan`: no transactions give an empty plan (and no
   * numbers are fetched); otherwise item i is built from transaction i with
   * voucher number i.
   */
  function GeneratePlan(txns: seq<Transaction>, fetched: Result<seq<Voucher>, string>, year: nat, build: ItemBuilder): (plan: seq<PlanItem>)
    ensures |plan| == |txns|
    ensures forall i :: 0 <= i < |plan| ==> plan[i] == build(txns[i], GenerateVoucherNumbers(fetched, year, |txns|)[i], i)
  {
    if |txns| == 0 then []
    else
      var numbers := GenerateVoucherNumbers(fetched, year, |txns|);
      seq(|txns|, i requires 0 <= i < |txns| => build(txns[i], numbers[i], i))
  }

  /**
   * The plan's voucher numbers are those generated, in transaction order:
   * pairwise distinct, and item i carries number next + i of the year.
   */
  lemma PlanNumbersAreConsecutive(txns: seq<Transaction>, fetched: Result<seq<Voucher>, string>, year: nat, build: ItemBuilder, i: nat, j: nat)
    requires KeepsNumber(build) && 1000 <= year <= 9999
    requires i < j < |txns|
    ensures var plan := GeneratePlan(txns, fetched, year, build);
      && plan[i].voucherNumber != plan[j].voucherNumber
      && ParseVoucherNumber(plan[i].voucherNumber) == Some((year, NextVoucherNumber(fetched, year) + i))
  {
    var plan := GeneratePlan(txns, fetched, year, build);
    var numbers := GenerateVoucherNumbers(fetched, year, |txns|);
    assert plan[i].voucherNumber == numbers[i];
    assert plan[j].voucherNumber == numbers[j];
    GeneratedAreDistinct(fetched, year, |txns|, i, j);
    GeneratedAreConsecutive(fetched, year, |txns|, i);
  }

  // -----------------------------------------------------------------------
  // Creation

  /** The outcome of the create call: a response carrying a voucher id, or a failure. */
  datatype Response = Accepted(voucherId: string) | Rejected

  /** The booking request sent for a created voucher; whether it succeeds does not matter. */
  datatype Booking = Booking(voucherId: string, transactionId: string, amount: int, date: string, isIncome: bool)

  /** What one run of `create_vouchers` sends and returns. */
  datatype Run = Run(
    payloads: seq<VoucherPayload>,
    bookings: seq<Booking>,
    created: seq<(PlanItem, string)>,
    failed: seq<PlanItem>)

  /** The entries attempted: only the first one in single mode. */
  function Attempted(plan: seq<PlanItem>, single: bool): (r: seq<PlanItem>)
    requires single ==> |plan| > 0
    ensures |r| == if single then 1 else |plan|
    ensures forall i :: 0 <= i < |r| ==> r[i] == plan[i]
  {
    if single then [plan[0]] else plan
  }

  /** The accepted entries with their voucher ids, in plan order. */
  function CreatedOf(attempted: seq<PlanItem>, responses: seq<Response>): seq<(PlanItem, string)>
    requires |responses| == |attempted|
  {
    if |attempted| == 0 then []
    else
      var rest := CreatedOf(attempted[..|attempted| - 1], responses[..|responses| - 1]);
      match responses[|responses| - 1]
      case Accepted(id) => rest + [(attempted[|attempted| - 1], id)]
      case Rejected => rest
  }

  /** The rejected entries, in plan order. */
  function FailedOf(attempted: seq<PlanItem>, responses: seq<Response>): seq<PlanItem>
    requires |responses| == |attempted|
  {
    if |attempted| == 0 then []
    else
      var rest := FailedOf(attempted[..|attempted| - 1], responses[..|responses| - 1]);
      match responses[|responses| - 1]
      case Accepted(_) => rest
      case Rejected => rest + [attempted[|attempted| - 1]]
  }

  /** `create_vouchers`: one payload per attempted entry, then created or failed by the response. */
  method CreateVouchers(plan: seq<PlanItem>, single: bool, sevClientId: string, isIncome: bool, responses: seq<Response>)
    returns (run: Run)
    requires single ==> |plan| > 0
    requires |responses| == |Attempted(plan, single)|
    ensures var attempted := Attempted(plan, single);
      && |run.payloads| == |attempted|
      && (forall i :: 0 <= i < |attempted| ==> run.payloads[i] == BuildPayload(attempted[i], sevClientId, isIncome))
      && run.created == CreatedOf(attempted, responses)
      && run.failed == FailedOf(attempted, responses)
    ensures |run.bookings| == |run.created|
    ensures forall k :: 0 <= k < |run.bookings| ==>
      && run.bookings[k].voucherId == run.created[k].1
      && run.bookings[k].transactionId == run.created[k].0.transactionId
      && run.bookings[k].amount == run.created[k].0.amount
      && run.bookings[k].date == Take(run.created[k].0.transactionDate, 10)
      && run.bookings[k].isIncome == isIncome
    ensures forall i, k :: 0 <= i < |run.payloads| && 0 <= k < |run.bookings| ==>
      (run.payloads[i].creditDebit == 'D') == run.bookings[k].isIncome
  {
    var attempted := Attempted(plan, single);
    var payloads := seq(|attempted|, i requires 0 <= i < |attempted| => BuildPayload(attempted[i], sevClientId, isIncome));
    var created, failed, bookings := Partition(attempted, responses, isIncome);
    run := Run(payloads, bookings, created, failed);
    forall i, k | 0 <= i < |run.payloads| && 0 <= k < |run.bookings|
      ensures (run.payloads[i].creditDebit == 'D') == run.bookings[k].isIncome
    {
      assert run.payloads[i] == BuildPayload(attempted[i], sevClientId, isIncome);
    }
  }

  /** The loop of `create_vouchers`: each attempted entry goes to created (with its booking) or to failed. */
  method Partition(attempted: seq<PlanItem>, responses: seq<Response>, isIncome: bool)
    returns (created: seq<(PlanItem, string)>, failed: seq<PlanItem>, bookings: seq<Booking>)
    requires |responses| == |attempted|
    ensures created == CreatedOf(attempted, responses)
    ensures failed == FailedOf(attempted, responses)
    ensures |bookings| == |created|
    ensures forall k :: 0 <= k < |bookings| ==> bookings[k] == BookingFor(created[k], isIncome)
  {
    created, failed, bookings := [], [], [];
    var n := 0;
    while n < |attempted|
      invariant 0 <= n <= |attempted|
      invariant created == CreatedOf(attempted[..n], responses[..n])
      invariant failed == FailedOf(attempted[..n], responses[..n])
      invariant |bookings| == |created|
      invariant forall k :: 0 <= k < |bookings| ==> bookings[k] == BookingFor(created[k], isIncome)
    {
      StepOf(attempted, responses, n);
      match responses[n] {
        case Accepted(id) =>
          bookings := bookings + [BookingFor((attempted[n], id), isIncome)];
          created := created + [(attempted[n], id)];
        case Rejected =>
          failed := failed + [attempted[n]];
      }
      n := n + 1;
    }
    assert attempted[..n] == attempted;
    assert responses[..n] == responses;
  }

  /** The booking request for a created voucher. */
  function BookingFor(c: (PlanItem, string), isIncome: bool): Booking
  {
    Booking(c.1, c.0.transactionId, c.0.amount, Take(c.0.transactionDate, 10), isIncome)
  }

  /** One more entry extends exactly one of the two lists. */
  lemma StepOf(attempted: seq<PlanItem>, responses: seq<Response>, n: nat)
    requires |responses| == |attempted| && n < |attempted|
    ensures responses[n].Accepted? ==>
      && CreatedOf(attempted[..n + 1], responses[..n + 1]) == CreatedOf(attempted[..n], responses[..n]) + [(attempted[n], responses[n].voucherId)]
      && FailedOf(attempted[..n + 1], responses[..n + 1]) == FailedOf(attempted[..n], responses[..n])
    ensures responses[n].Rejected? ==>
      && CreatedOf(attempted[..n + 1], responses[..n + 1]) == CreatedOf(attempted[..n], responses[..n])
      && FailedOf(attempted[..n + 1], responses[..n + 1]) == FailedOf(attempted[..n], responses[..n]) + [attempted[n]]
  {
    assert attempted[..n + 1][..n] == attempted[..n];
    assert responses[..n + 1][..n] == responses[..n];
  }

  /** Every attempted entry ends up in exactly one of the two lists. */
  lemma {:induction false} PartitionIsExact(attempted: seq<PlanItem>, responses: seq<Response>)
    requires |responses| == |attempted|
    ensures |CreatedOf(attempted, responses)| + |FailedOf(attempted, responses)| == |attempted|
    ensures forall i :: 0 <= i < |attempted| && responses[i].Accepted? ==>
      (attempted[i], responses[i].voucherId) in CreatedOf(attempted, responses)
    ensures forall i :: 0 <= i < |attempted| && responses[i].Rejected? ==>
      attempted[i] in FailedOf(attempted, responses)
  {
    if |attempted| > 0 {
      var a := attempted[..|attempted| - 1];
      var r := responses[..|responses| - 1];
      PartitionIsExact(a, r);
      assert forall i :: 0 <= i < |a| ==> a[i] == attempted[i] && r[i] == responses[i];
    }
  }

  /** The number of created vouchers is the number of accepted responses. */
  function AcceptedCount(responses: seq<Response>): nat
  {
    if |responses| == 0 then 0
    else AcceptedCount(responses[..|responses| - 1]) + if responses[|responses| - 1].Accepted? then 1 else 0
  }

  lemma {:induction false} CreatedCountsAccepted(attempted: seq<PlanItem>, responses: seq<Response>)
    requires |responses| == |attempted|
    ensures |CreatedOf(attempted, responses)| == AcceptedCount(responses)
    ensures |FailedOf(attempted, responses)| == |responses| - AcceptedCount(responses)
  {
    if |attempted| > 0 {
      CreatedCountsAccepted(attempted[..|attempted| - 1], responses[..|responses| - 1]);
    }
  }

  // -----------------------------------------------------------------------
  // Output file names

  function PlanFileName(scriptName: string): string
  {
    "voucher_plan_" + Lower(scriptName) + ".md"
  }

  function ScriptFileName(scriptName: string): string
  {
    "create_vouchers_for_" + Lower(scriptName) + ".py"
  }

  /** The script that belongs to a plan file, when the file name has the plan form. */
  function ScriptForPlanFile(f: string): (r: Option<string>)
    ensures r.Some? ==> IsPrefix("create_vouchers_for_", r.value)
  {
    if |f| >= 16 && f[..13] == "voucher_plan_" && f[|f| - 3..] == ".md"
    then Some("create_vouchers_for_" + f[13..|f| - 3] + ".py")
    else None
  }

  /** The plan file names the script it came from. */
  lemma PlanFileNamesScript(scriptName: string)
    ensures ScriptForPlanFile(PlanFileName(scriptName)) == Some(ScriptFileName(scriptName))
  {
    var f := PlanFileName(scriptName);
    var l := Lower(scriptName);
    assert f[..13] == "voucher_plan_";
    assert f[|f| - 3..] == ".md";
    assert f[13..|f| - 3] == l;
  }

  /** The case of the script name does not matter: "ÜLP" and "ülp" write the same files. */
  lemma FileNamesIgnoreCase(scriptName: string)
    ensures PlanFileName(Lower(scriptName)) == PlanFileName(scriptName)
    ensures ScriptFileName(Lower(scriptName)) == ScriptFileName(scriptName)
  {
    var l := Lower(scriptName);
    forall i | 0 <= i < |l|
      ensures Lower(l)[i] == l[i]
    {
      LowerCharIsLower(scriptName[i]);
    }
    assert Lower(l) == l;
  }
}

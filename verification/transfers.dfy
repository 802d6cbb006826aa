/**
 * The scripts for health insurance, fees and money transfers: Krankenkassen,
 * Fees, PayPal Fees, Geldtransit, Bankeinzug and JEK Freizeit.
 *
 * Each selects open transactions by fixed words in the payee or purpose,
 * books them on one accounting type found by substring, and fills the
 * plan item from what the setup found: one cost centre for all items (or
 * none), a fixed contact or one found from the payee, and for most of
 * them the purpose as the voucher description.
 */
module Transfers {
  import opened Wrappers
  import opened Text
  import opened Records
  import opened NameNormalizer
  import opened ContactMatching
  import opened CostCentres
  import opened VoucherPlan
  import opened ScriptSupport

  // -----------------------------------------------------------------------
  // Krankenkassen (health insurance contributions)

  const KrankenkassenTerm := "Krankenkasse"
  const KrankenkassenCentreName := "Lohnnebenkosten"
  const BundesknappschaftOst := "Bundesknappschaft Ost"

  /** Both Knappschaft spellings name the same contact. */
  const KrankenkassenMappings: seq<(string, string)> := [
    ("knappschaft-bahn-see", BundesknappschaftOst),
    ("knappschaft", BundesknappschaftOst)
  ]

  /** `filter_transactions`: a known insurer in the payee, case-sensitive, whatever the sign. */
  predicate KrankenkassenSelects(t: Transaction)
  {
    var p := FilterPayee(t);
    || Contains(p, "Techniker Krankenkasse")
    || Contains(p, "Knappschaft-Bahn-See")
    || Contains(p, "Knappschaft")
    || Contains(p, "Verwaltungs-Berufsgenossenschaft")
  }

  /** The "Knappschaft-Bahn-See" test adds nothing: it starts with "Knappschaft". */
  lemma BahnSeeTestIsRedundant(t: Transaction)
    ensures KrankenkassenSelects(t) <==>
      var p := FilterPayee(t);
      Contains(p, "Techniker Krankenkasse") || Contains(p, "Knappschaft") || Contains(p, "Verwaltungs-Berufsgenossenschaft")
  {
    var p := FilterPayee(t);
    if Contains(p, "Knappschaft-Bahn-See") {
      ContainsAtIndex("Knappschaft-Bahn-See", "Knappschaft", 0);
      ContainsTrans(p, "Knappschaft-Bahn-See", "Knappschaft");
    }
  }

  /** `find_accounting_type`: the insurance type, then the cost centre named exactly "Lohnnebenkosten". */
  function KrankenkassenSetup(ats: seq<AccountingType>, ccs: seq<CostCentre>): (r: Result<Fixed, SetupError>)
    ensures r.Success? ==> r.value.accountingType in ats && Contains(r.value.accountingType.name, KrankenkassenTerm)
    ensures r.Success? ==> r.value.costCentre in ccs && r.value.costCentre.name == KrankenkassenCentreName
    ensures r.Success? <==> AccountingTypeFor(ats, KrankenkassenTerm).Success?
                            && exists j :: 0 <= j < |ccs| && ccs[j].name == KrankenkassenCentreName
  {
    match AccountingTypeFor(ats, KrankenkassenTerm)
    case Failure(e) => Failure(e)
    case Success(at) =>
      match FindByExactName(ccs, KrankenkassenCentreName)
      case None => Failure(MissingCostCentres([KrankenkassenCentreName]))
      case Some(cc) => Success(Fixed(at, cc))
  }

  /** The description: the first seven characters of the value date without hyphens. */
  function YearMonth(valueDate: string): (r: string)
    ensures '-' !in r && |r| <= 7
  {
    var head := Take(Take(valueDate, 10), 7);
    ReplaceRemovesChar(head, '-', "");
    ReplaceChars(head, "-", "", (c: char) => true);
    ReplaceShrinks(head, '-');
    Replace(head, "-", "")
  }

  /** `replace` with the empty string never lengthens. */
  lemma {:induction false} ReplaceShrinks(s: string, c: char)
    ensures |Replace(s, [c], "")| <= |s|
    decreases |s|
  {
    if |s| >= 1 {
      ReplaceShrinks(s[1..], c);
    }
  }

  /** Replacing a single character distributes over concatenation. */
  lemma {:induction false} ReplaceCharConcat(a: string, b: string, c: char, rep: string)
    ensures Replace(a + b, [c], rep) == Replace(a, [c], rep) + Replace(b, [c], rep)
    decreases |a|
  {
    if |a| == 0 {
      assert a + b == b;
    } else {
      assert (a + b)[..1] == a[..1];
      assert (a + b)[1..] == a[1..] + b;
      ReplaceCharConcat(a[1..], b, c, rep);
    }
  }

  /** An ISO date "YYYY-MM-DD…" gives "YYYYMM". */
  lemma YearMonthOfIsoDate(year: string, month: string, rest: string)
    requires |year| == 4 && |month| == 2 && '-' !in year && '-' !in month
    ensures YearMonth(year + "-" + month + rest) == year + month
  {
    var d := year + "-" + month + rest;
    assert Take(d, 10)[..7] == year + "-" + month;
    assert Take(Take(d, 10), 7) == year + "-" + month;
    ReplaceCharConcat(year + "-", month, '-', "");
    ReplaceCharConcat(year, "-", '-', "");
    ReplaceAbsent(year, "-", "");
    ReplaceAbsent(month, "-", "");
  }

  /** `_find_krankenkassen_contact`: suppliers preferred, with the Knappschaft mappings. */
  function KrankenkassenContact(contacts: seq<Contact<PyValue>>, payee: string): (r: Option<Contact<PyValue>>)
    ensures r.Some? ==> r.value in contacts
  {
    FindContact(contacts, payee, 3, KrankenkassenMappings)
  }

  /** Over the cache the supplier preference is never met: the search without one finds the same contact. */
  lemma KrankenkassenPreferenceIgnored(contacts: seq<Contact<PyValue>>, payee: string)
    requires TextCategories(contacts)
    ensures KrankenkassenContact(contacts, payee) == FindContact(contacts, payee, 0, KrankenkassenMappings)
  {
    IntPreferenceIsIgnored(contacts, payee, 3, KrankenkassenMappings);
  }

  /**
   * A payee that normalises like either Knappschaft spelling is linked to
   * a contact normalised like "Bundesknappschaft Ost", whatever the scores,
   * whenever the cache holds one.
   */
  lemma KnappschaftIsLinked(contacts: seq<Contact<PyValue>>, payee: string, k: nat, c: Contact<PyValue>)
    requires payee != "" && k < 2 && Normalize(Strip(Lower(payee))) == Normalize(KrankenkassenMappings[k].0)
    requires c in contacts && Normalize(c.name) == Normalize(BundesknappschaftOst)
    ensures KrankenkassenContact(contacts, payee).Some?
    ensures Normalize(KrankenkassenContact(contacts, payee).value.name) == Normalize(BundesknappschaftOst)
  {
    KnappschaftSpellingsShareContact();
    MappedToOne(contacts, payee, 3, KrankenkassenMappings, BundesknappschaftOst, k, c);
  }

  /**
   * Both Knappschaft spellings name the one contact, so either links the
   * payee to "Bundesknappschaft Ost" (see `ScriptSupport.MappedToOne`).
   */
  lemma KnappschaftSpellingsShareContact()
    ensures |KrankenkassenMappings| == 2
    ensures forall i :: 0 <= i < |KrankenkassenMappings| ==> KrankenkassenMappings[i].1 == BundesknappschaftOst
  {
  }

  /** For any other payee the mappings do not fire and the scored search decides. */
  lemma OtherInsurersAreScored(contacts: seq<Contact<PyValue>>, payee: string)
    requires forall k :: 0 <= k < 2 ==> Normalize(Strip(Lower(payee))) != Normalize(KrankenkassenMappings[k].0)
    ensures var cfg := SharedConfig(3, KrankenkassenMappings);
      OverrideHit(cfg, contacts, Query(cfg, payee)).None?
  {
  }

  /** `build_voucher_plan_item`: the shared cost centre, the mapped contact, the year and month as description. */
  function KrankenkassenBuild(fixed: Fixed, contacts: seq<Contact<PyValue>>): ItemBuilder
  {
    (t: Transaction, number: string, i: nat) =>
      Item(t, number, fixed.accountingType, Some(fixed.costCentre), KrankenkassenContact(contacts, PayeeName(t)),
           Some(YearMonth(t.valueDate)), None)
  }

  /** Contributions are expenses. */
  const KrankenkassenIsIncome := false

  // -----------------------------------------------------------------------
  // Fees and PayPal fees

  const FeesTerm := "Kontoführung / Kartengebühren"
  const FeesCentreName := "Buchführung, Bankgebühren"
  const FallbackContactName := "70000"
  const PaypalContactName := "Paypal Inc."

  /** The Fees filter: a PayPal fee, or the bank's quarterly closing balance; whatever the sign. */
  predicate FeesSelects(t: Transaction)
  {
    (Contains(FilterPayee(t), "Paypal Inc.") && Contains(t.purpose, "Gebühren zu"))
    || Contains(t.purpose, "Saldo der Abschlussposten QM")
  }

  /** The PayPal Fees filter: a PayPal fee only. */
  predicate PaypalFeesSelects(t: Transaction)
  {
    Contains(FilterPayee(t), "Paypal Inc.") && Contains(t.purpose, "Gebühren zu")
  }

  /** Everything the PayPal Fees script selects, the Fees script selects too, but not the other way round. */
  lemma PaypalFeesAreFees(t: Transaction)
    ensures PaypalFeesSelects(t) ==> FeesSelects(t)
    ensures FeesSelects(t) && !PaypalFeesSelects(t) ==> Contains(t.purpose, "Saldo der Abschlussposten QM")
  {
  }

  /** The cost centre of both fee scripts is looked up by its lower-cased name. */
  lemma FeesCentreSearch(ccs: seq<CostCentre>)
    ensures FindCostCentre(ccs, [], FeesCentreName) == DefaultMatch(ccs, "buchführung, bankgebühren")
  {
    PlainLookup(ccs, FeesCentreName);
    LowerFeesCentreName();
  }

  lemma LowerFeesCentreName()
    ensures Lower(FeesCentreName) == "buchführung, bankgebühren"
  {
    LowerOf(FeesCentreName, "buchführung, bankgebühren");
  }

  /** What the Fees setup finds: the type, the cost centre, and the optional "70000" fallback contact. */
  datatype FeesContext = FeesContext(fixed: Fixed, fallback: Option<Contact<PyValue>>)

  /** The accounting type and cost centre both fee scripts look up first, failing on the first one missing. */
  function FeesFixed(ats: seq<AccountingType>, ccs: seq<CostCentre>): (r: Result<Fixed, SetupError>)
    ensures r.Success? ==> r.value.accountingType in ats && Contains(r.value.accountingType.name, FeesTerm)
    ensures r.Success? ==> r.value.costCentre in ccs && Related("buchführung, bankgebühren", r.value.costCentre)
    ensures r.Success? <==> AccountingTypeFor(ats, FeesTerm).Success?
                            && exists j :: 0 <= j < |ccs| && Related("buchführung, bankgebühren", ccs[j])
    ensures AccountingTypeFor(ats, FeesTerm).Failure? ==> r == Failure(NoAccountingType(FeesTerm))
    ensures AccountingTypeFor(ats, FeesTerm).Success? && r.Failure? ==> r.error == MissingCostCentres([FeesCentreName])
  {
    FeesCentreSearch(ccs);
    match AccountingTypeFor(ats, FeesTerm)
    case Failure(e) => Failure(e)
    case Success(at) =>
      match FindCostCentre(ccs, [], FeesCentreName)
      case None => Failure(MissingCostCentres([FeesCentreName]))
      case Some(cc) => Success(Fixed(at, cc))
  }

  /** The Fees `find_accounting_type`: a missing fallback contact does not stop the script. */
  function FeesSetup(ats: seq<AccountingType>, ccs: seq<CostCentre>, contacts: seq<Contact<PyValue>>): (r: Result<FeesContext, SetupError>)
    ensures r.Success? ==> r.value.fixed.accountingType in ats && Contains(r.value.fixed.accountingType.name, FeesTerm)
    ensures r.Success? ==> r.value.fixed.costCentre in ccs && Related("buchführung, bankgebühren", r.value.fixed.costCentre)
    ensures r.Success? <==> AccountingTypeFor(ats, FeesTerm).Success?
                            && exists j :: 0 <= j < |ccs| && Related("buchführung, bankgebühren", ccs[j])
    ensures r.Success? ==> r.value.fallback == FindContact(contacts, FallbackContactName, 0, [])
  {
    match FeesFixed(ats, ccs)
    case Failure(e) => Failure(e)
    case Success(f) => Success(FeesContext(f, FindContact(contacts, FallbackContactName, 0, [])))
  }

  /** The Fees payee: the field, or "Unknown" when it is absent or empty. */
  function FeesPayee(t: Transaction): (r: string)
    ensures r != ""
    ensures FilterPayee(t) != "" ==> r == FilterPayee(t)
  {
    if FilterPayee(t) == "" then "Unknown" else FilterPayee(t)
  }

  /** The Fees contact: the fallback for an unknown payee or when the search finds nobody. */
  function FeesContact(contacts: seq<Contact<PyValue>>, fallback: Option<Contact<PyValue>>, t: Transaction): (r: Option<Contact<PyValue>>)
    ensures FeesPayee(t) == "Unknown" ==> r == fallback
    ensures FeesPayee(t) != "Unknown" && FindContact(contacts, FeesPayee(t), 0, []).Some? ==>
      r == FindContact(contacts, FeesPayee(t), 0, [])
    ensures r.None? ==> fallback.None?
    ensures r.Some? ==> r == fallback || r.value in contacts
  {
    var p := FeesPayee(t);
    if p == "Unknown" then fallback
    else
      match FindContact(contacts, p, 0, [])
      case Some(c) => Some(c)
      case None => fallback
  }

  /** A transaction without a payee gets the fallback contact. */
  lemma MissingPayeeGetsFallback(contacts: seq<Contact<PyValue>>, fallback: Option<Contact<PyValue>>, t: Transaction)
    requires t.rawPayee.None? || t.rawPayee == Some("")
    ensures FeesContact(contacts, fallback, t) == fallback
  {
  }

  /** The Fees `build_voucher_plan_item`: the shared cost centre, the purpose as description, the Fees payee. */
  function FeesBuild(ctx: FeesContext, contacts: seq<Contact<PyValue>>): ItemBuilder
  {
    (t: Transaction, number: string, i: nat) =>
      Item(t, number, ctx.fixed.accountingType, Some(ctx.fixed.costCentre), FeesContact(contacts, ctx.fallback, t),
           Some(t.purpose), None).(payee := FeesPayee(t))
  }

  /** What the PayPal Fees setup finds: the type, the cost centre and the PayPal contact. */
  datatype PaypalContext = PaypalContext(fixed: Fixed, contact: Contact<PyValue>)

  /** The PayPal Fees `find_accounting_type`: all three are required. */
  function PaypalFeesSetup(ats: seq<AccountingType>, ccs: seq<CostCentre>, contacts: seq<Contact<PyValue>>): (r: Result<PaypalContext, SetupError>)
    ensures r.Success? ==> r.value.fixed.accountingType in ats && Contains(r.value.fixed.accountingType.name, FeesTerm)
    ensures r.Success? ==> r.value.fixed.costCentre in ccs && Related("buchführung, bankgebühren", r.value.fixed.costCentre)
    ensures r.Success? ==> r.value.contact in contacts && Some(r.value.contact) == FindContact(contacts, PaypalContactName, 0, [])
    ensures r.Success? <==> AccountingTypeFor(ats, FeesTerm).Success?
                            && (exists j :: 0 <= j < |ccs| && Related("buchführung, bankgebühren", ccs[j]))
                            && FindContact(contacts, PaypalContactName, 0, []).Some?
    ensures AccountingTypeFor(ats, FeesTerm).Success? && FindCostCentre(ccs, [], FeesCentreName).Some? && r.Failure? ==>
      r.error == MissingContact(PaypalContactName)
  {
    FeesCentreSearch(ccs);
    match FeesFixed(ats, ccs)
    case Failure(e) => Failure(e)
    case Success(f) =>
      match FindContact(contacts, PaypalContactName, 0, [])
      case None => Failure(MissingContact(PaypalContactName))
      case Some(c) => Success(PaypalContext(f, c))
  }

  /** The PayPal Fees `build_voucher_plan_item`: one cost centre and one contact for all, the purpose as description. */
  function PaypalFeesBuild(ctx: PaypalContext): ItemBuilder
  {
    (t: Transaction, number: string, i: nat) =>
      Item(t, number, ctx.fixed.accountingType, Some(ctx.fixed.costCentre), Some(ctx.contact), Some(t.purpose), None)
  }

  /** Fees are expenses. */
  const FeesIsIncome := false

  // -----------------------------------------------------------------------
  // Geldtransit and Bankeinzug (money in transit, direct debits)

  const TransitTerm := "Geldtransit"
  const PaypalEurope := "PayPal (Europe) S.a r.l. et Cie, S. C.A."

  /** The Bankeinzug filter: "BANKEINZUG" in the upper-cased payee, or "Bankeinzug" as written. */
  predicate BankeinzugSelects(t: Transaction)
  {
    Contains(Upper(FilterPayee(t)), "BANKEINZUG") || Contains(FilterPayee(t), "Bankeinzug")
  }

  /** The Geldtransit filter: the same direct-debit test, or a PayPal purchase. */
  predicate GeldtransitSelects(t: Transaction)
  {
    || Contains(Upper(FilterPayee(t)), "BANKEINZUG")
    || Contains(FilterPayee(t), "Bankeinzug")
    || (Contains(FilterPayee(t), PaypalEurope) && Contains(t.purpose, "Ihr Einkauf bei"))
  }

  /** The case-sensitive test adds nothing, and Geldtransit takes every direct debit Bankeinzug takes. */
  lemma BankeinzugTests(t: Transaction)
    ensures BankeinzugSelects(t) <==> Contains(Upper(FilterPayee(t)), "BANKEINZUG")
    ensures BankeinzugSelects(t) ==> GeldtransitSelects(t)
  {
    if Contains(FilterPayee(t), "Bankeinzug") {
      UpperKeepsContains(FilterPayee(t), "Bankeinzug");
      UpperBankeinzug();
    }
  }

  lemma UpperBankeinzug()
    ensures Upper("Bankeinzug") == "BANKEINZUG"
  {
    UpperOfAscii("Bankeinzug", "BANKEINZUG");
  }

  /** What both transit scripts find: the type and the "70000" contact. */
  datatype TransitContext = TransitContext(accountingType: AccountingType, contact: Contact<PyValue>)

  /** `find_accounting_type` of both transit scripts: the contact is required. */
  function TransitSetup(ats: seq<AccountingType>, contacts: seq<Contact<PyValue>>): (r: Result<TransitContext, SetupError>)
    ensures r.Success? ==> r.value.accountingType in ats && Contains(r.value.accountingType.name, TransitTerm)
    ensures r.Success? ==> r.value.contact in contacts && Some(r.value.contact) == FindContact(contacts, FallbackContactName, 0, [])
    ensures r.Success? <==> AccountingTypeFor(ats, TransitTerm).Success? && FindContact(contacts, FallbackContactName, 0, []).Some?
  {
    match AccountingTypeFor(ats, TransitTerm)
    case Failure(e) => Failure(e)
    case Success(at) =>
      match FindContact(contacts, FallbackContactName, 0, [])
      case None => Failure(MissingContact(FallbackContactName))
      case Some(c) => Success(TransitContext(at, c))
  }

  /** `build_voucher_plan_item` of both: no cost centre, the fixed contact, the purpose as description. */
  function TransitBuild(ctx: TransitContext): ItemBuilder
  {
    (t: Transaction, number: string, i: nat) =>
      Item(t, number, ctx.accountingType, None, Some(ctx.contact), Some(t.purpose), None)
  }

  /** As written, both transit scripts book every voucher as income (see `Findings.TransitDirectionAsWritten`). */
  const TransitIsIncomeAsWritten := true

  /** The direction the transit scripts describe: income for money coming in. */
  function TransitIsIncome(t: Transaction): (r: bool)
    ensures r <==> t.amount > 0
  {
    t.amount > 0
  }

  // -----------------------------------------------------------------------
  // JEK Freizeit (youth camp fees, passed through)

  const JekTerm := "Durchlaufende Posten"
  const JekCentreName := "JEK Freizeiten"

  /** `filter_transactions`: income with "JEK FREIZEIT" or "JEK LEISURE" in the upper-cased purpose. */
  predicate JekSelects(t: Transaction)
  {
    t.amount > 0 && (Contains(Upper(t.purpose), "JEK FREIZEIT") || Contains(Upper(t.purpose), "JEK LEISURE"))
  }

  /** Any spelling of the camp in the purpose is selected for an income. */
  lemma JekSelectionIgnoresCase(t: Transaction)
    requires t.amount > 0 && Contains(t.purpose, "Jek Freizeit")
    ensures JekSelects(t)
  {
    UpperKeepsContains(t.purpose, "Jek Freizeit");
    UpperJekFreizeit();
  }

  lemma UpperJekFreizeit()
    ensures Upper("Jek Freizeit") == "JEK FREIZEIT"
  {
    UpperOfAscii("Jek Freizeit", "JEK FREIZEIT");
  }

  /** `find_accounting_type`: the pass-through type, then the cost centre whose stripped name is exactly "JEK Freizeiten". */
  function JekSetup(ats: seq<AccountingType>, ccs: seq<CostCentre>): (r: Result<Fixed, SetupError>)
    ensures r.Success? ==> r.value.accountingType in ats && Contains(r.value.accountingType.name, JekTerm)
    ensures r.Success? ==> r.value.costCentre in ccs && Strip(r.value.costCentre.name) == JekCentreName
    ensures r.Success? <==> AccountingTypeFor(ats, JekTerm).Success?
                            && exists j :: 0 <= j < |ccs| && Strip(ccs[j].name) == JekCentreName
  {
    match AccountingTypeFor(ats, JekTerm)
    case Failure(e) => Failure(e)
    case Success(at) =>
      match FindByStrippedName(ccs, JekCentreName)
      case None => Failure(MissingCostCentres([JekCentreName]))
      case Some(cc) => Success(Fixed(at, cc))
  }

  /**
   * Without a cost centre named exactly "JEK Freizeiten" the setup stops,
   * even when one named just "JEK" is there for the substring search.
   */
  lemma JekNeedsTheFullName(ats: seq<AccountingType>, ccs: seq<CostCentre>, j: nat)
    requires AccountingTypeFor(ats, JekTerm).Success?
    requires j < |ccs| && ccs[j].name == "JEK"
    requires forall i :: 0 <= i < |ccs| ==> Strip(ccs[i].name) != JekCentreName
    ensures JekSetup(ats, ccs) == Failure(MissingCostCentres([JekCentreName]))
    ensures FindCostCentre(ccs, [], JekCentreName).Some?
  {
    JekCentreSearch(ccs);
    ShortJekIsRelated(ccs[j]);
  }

  lemma JekCentreSearch(ccs: seq<CostCentre>)
    ensures FindCostCentre(ccs, [], JekCentreName) == DefaultMatch(ccs, "jek freizeiten")
  {
    PlainLookup(ccs, JekCentreName);
    LowerJekNames();
  }

  lemma ShortJekIsRelated(cc: CostCentre)
    requires cc.name == "JEK"
    ensures Related("jek freizeiten", cc)
  {
    LowerJekNames();
    ContainsAtIndex("jek freizeiten", "jek", 0);
  }

  lemma StripJek()
    ensures Strip("JEK") == "JEK"
  {
    StripByIdentity("JEK", IsSpace);
  }

  lemma LowerJekNames()
    ensures Lower(JekCentreName) == "jek freizeiten"
    ensures Strip(Lower("JEK")) == "jek"
  {
    LowerOf(JekCentreName, "jek freizeiten");
    LowerOf("JEK", "jek");
    StripByIdentity("jek", IsSpace);
  }

  /** `build_voucher_plan_item`: the shared cost centre, the contact searched with customers preferred. */
  function JekBuild(fixed: Fixed, contacts: seq<Contact<PyValue>>): ItemBuilder
  {
    (t: Transaction, number: string, i: nat) =>
      Item(t, number, fixed.accountingType, Some(fixed.costCentre), FindContact(contacts, PayeeName(t), 1, []), None, None)
  }

  /** Camp fees are income. */
  const JekIsIncome := true
}

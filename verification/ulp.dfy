/**
 * The ÜLP scripts (Übungsleiterpauschale, the tax-free allowance for
 * instructors): the refactored creator (`UlpVoucherCreator`), the backup
 * it was refactored from and the original root script.
 *
 * An open transaction whose purpose mentions the allowance becomes an
 * expense voucher on an allowance accounting type. The cost centre comes
 * from the payee; for a purpose marked "ÜLP", Tobias Zimmermann's
 * allowance goes to his own ÜLP cost centre. The refactored and backup
 * scripts search contacts with a preference for suppliers (category 3);
 * the root script takes the first contact whose name matches.
 */
module Ulp {
  import opened Wrappers
  import opened Text
  import opened Records
  import opened Numbering
  import opened ContactMatching
  import opened FirstMatchContact
  import opened Payload
  import opened CostCentres
  import opened VoucherPlan
  import opened ScriptSupport

  // -----------------------------------------------------------------------
  // The refactored and backup scripts

  /** Matches both "Ehrenamtspauschale" and "Übungsleiterpauschale". */
  const AccountingTerm := "pauschale"

  /** `filter_transactions`: one of the three allowance words in the lower-cased purpose. */
  predicate Selects(t: Transaction)
  {
    var l := Lower(t.purpose);
    Contains(l, "ülp") || Contains(l, "übungsleiterpauschale") || Contains(l, "ehrenamtspauschale")
  }

  /** The marker that switches on the Tobias Zimmermann rule: "ÜLP", case-sensitive. */
  predicate IsUlp(t: Transaction)
  {
    Contains(t.purpose, "ÜLP")
  }

  /** Every transaction marked "ÜLP" is selected, but not every selected one is marked. */
  lemma MarkedTransactionsAreSelected(t: Transaction)
    ensures IsUlp(t) ==> Selects(t)
    ensures Selects(Transaction("", -1, "ülp", None, "", 100)) && !IsUlp(Transaction("", -1, "ülp", None, "", 100))
  {
    assert Lower("ÜLP") == "ülp";
    if IsUlp(t) {
      LowerKeepsContains(t.purpose, "ÜLP");
    }
    assert Lower("ülp") == "ülp";
    ContainsSelf("ülp");
    SameLengthContains("ülp", "ÜLP");
  }

  /** The cost-centre mapping for Tobias Zimmermann ("tobias zimmermann (ülp)" is already lower case). */
  const TobiasMappingRule := SpecialRule(
    q => Contains(q, "tobias zimmermann"),
    n => Contains(n, "tobias zimmermann (ülp)"))

  /** The mapping rules are empty without the marker and the Tobias mapping with it. */
  lemma UlpMappingRules(isUlp: bool)
    ensures !isUlp ==> MappingRules(UlpMappings(isUlp)) == []
    ensures isUlp ==> |MappingRules(UlpMappings(isUlp))| == 1
    ensures isUlp ==> forall q :: MappingRules(UlpMappings(isUlp))[0].applies(q) == TobiasMappingRule.applies(q)
    ensures isUlp ==> forall n :: MappingRules(UlpMappings(isUlp))[0].accepts(n) == TobiasMappingRule.accepts(n)
  {
    assert Lower("tobias zimmermann (ülp)") == "tobias zimmermann (ülp)";
  }

  /** `_find_ulp_cost_centre`: the mapping only for transactions marked "ÜLP". */
  function CostCentreFor(ccs: seq<CostCentre>, payee: string, isUlp: bool): (r: Option<CostCentre>)
    ensures r.Some? ==> r.value in ccs
  {
    FindCostCentre(ccs, MappingRules(UlpMappings(isUlp)), payee)
  }

  /** `_find_ulp_contact`: suppliers preferred, no mappings. */
  function ContactFor(contacts: seq<Contact<PyValue>>, payee: string): (r: Option<Contact<PyValue>>)
    ensures r.Some? ==> r.value in contacts
  {
    FindContact(contacts, payee, 3, [])
  }

  /** Over the cache the supplier preference is never met: the search without one finds the same contact. */
  lemma ContactIgnoresPreference(contacts: seq<Contact<PyValue>>, payee: string)
    requires TextCategories(contacts)
    ensures ContactFor(contacts, payee) == FindContact(contacts, payee, 0, [])
  {
    IntPreferenceIsIgnored(contacts, payee, 3, []);
  }

  /** `build_voucher_plan_item`. */
  function Build(at: AccountingType, ccs: seq<CostCentre>, contacts: seq<Contact<PyValue>>): ItemBuilder
  {
    (t: Transaction, number: string, i: nat) =>
      Item(t, number, at, CostCentreFor(ccs, PayeeName(t), IsUlp(t)), ContactFor(contacts, PayeeName(t)), None, None)
  }

  /** Allowances are expenses. */
  const IsIncome := false

  /**
   * A marked transaction for Tobias Zimmermann goes to a cost centre
   * whose name contains "tobias zimmermann (ülp)", if there is one.
   */
  lemma TobiasGetsHisUlpCentre(ccs: seq<CostCentre>, payee: string, j: nat)
    requires payee != "" && Contains(SearchName(payee), "tobias zimmermann")
    requires j < |ccs| && Contains(Lower(ccs[j].name), "tobias zimmermann (ülp)")
    ensures CostCentreFor(ccs, payee, true).Some?
    ensures Contains(Lower(CostCentreFor(ccs, payee, true).value.name), "tobias zimmermann (ülp)")
  {
    var rules := MappingRules(UlpMappings(true));
    UlpMappingRules(true);
    assert rules[0].applies(SearchName(payee)) && rules[0].accepts(Lower(ccs[j].name));
    HittingRuleDecides(ccs, rules, payee, 0);
    var r := First(ccs, CostCentres.Accepted(rules[0]));
    assert rules[0].accepts(Lower(r.value.name));
  }

  /** The marker changes nothing for anyone but Tobias Zimmermann. */
  lemma MarkerOnlyMattersForTobias(ccs: seq<CostCentre>, payee: string)
    requires !Contains(SearchName(payee), "tobias zimmermann")
    ensures CostCentreFor(ccs, payee, true) == CostCentreFor(ccs, payee, false)
  {
    UlpMappingRules(true);
    UlpMappingRules(false);
    if payee != "" {
      var rules := MappingRules(UlpMappings(true));
      assert !RuleHits(rules[0], ccs, SearchName(payee));
      NoRuleMeansDefault(ccs, rules, payee);
    }
  }

  // -----------------------------------------------------------------------
  // The root script, and the backup's accounting type

  /** The root and backup scripts' accounting type: named with one of the two allowance words. */
  function SetupRoot(ats: seq<AccountingType>): (r: Result<AccountingType, SetupError>)
    ensures r.Success? ==> r.value in ats
    ensures r.Success? ==> Contains(r.value.name, "Ehrenamtspauschale") || Contains(r.value.name, "Übungsleiterpauschale")
  {
    match First(ats, (at: AccountingType) => Contains(at.name, "Ehrenamtspauschale") || Contains(at.name, "Übungsleiterpauschale"))
    case None => Failure(NoAccountingType("Ehrenamtspauschale"))
    case Some(at) => Success(at)
  }

  /** The refactored search finds a type whenever the root search does. */
  lemma RootSetupIsNarrower(ats: seq<AccountingType>)
    requires SetupRoot(ats).Success?
    ensures AccountingTypeFor(ats, AccountingTerm).Success?
  {
    var at := SetupRoot(ats).value;
    AllowanceWordsHaveTerm();
    if Contains(at.name, "Ehrenamtspauschale") {
      ContainsTrans(at.name, "Ehrenamtspauschale", AccountingTerm);
    } else {
      ContainsTrans(at.name, "Übungsleiterpauschale", AccountingTerm);
    }
    assert !AccountingTypeFor(ats, AccountingTerm).Failure?;
  }

  /** Both allowance words end in "pauschale". */
  lemma AllowanceWordsHaveTerm()
    ensures Contains("Ehrenamtspauschale", AccountingTerm) && Contains("Übungsleiterpauschale", AccountingTerm)
  {
    VolunteerWordHasTerm();
    InstructorWordHasTerm();
  }

  lemma VolunteerWordHasTerm()
    ensures Contains("Ehrenamtspauschale", "pauschale")
  {
    ContainsAtIndex("Ehrenamtspauschale", "pauschale", 9);
  }

  lemma InstructorWordHasTerm()
    ensures Contains("Übungsleiterpauschale", "pauschale")
  {
    ContainsAtIndex("Übungsleiterpauschale", "pauschale", 12);
  }

  /**
   * The root filter as written: its second test looks for a capital Ü in
   * the lower-cased purpose, so it never holds (see
   * `Findings.RootUlpFilterAsWritten`).
   */
  predicate SelectsRoot(t: Transaction)
  {
    Contains(t.purpose, "ÜLP") || Contains(Lower(t.purpose), "Übungsleiterpauschale")
  }

  /** The root filter with its second test written in lower case. */
  predicate SelectsRootCorrected(t: Transaction)
  {
    Contains(t.purpose, "ÜLP") || Contains(Lower(t.purpose), "übungsleiterpauschale")
  }

  /** The refactored filter keeps everything the root filter keeps, as written or corrected. */
  lemma RootSelectionIsNarrower(t: Transaction)
    ensures SelectsRoot(t) ==> Selects(t)
    ensures SelectsRootCorrected(t) ==> Selects(t)
  {
    MarkedTransactionsAreSelected(t);
    NoCapitalUmlautAfterLower(t.purpose);
  }

  /** Lower-casing leaves no capital Ü, so the capitalised word is never found. */
  lemma NoCapitalUmlautAfterLower(s: string)
    ensures !Contains(Lower(s), "Übungsleiterpauschale")
  {
    forall i | 0 <= i < |s|
      ensures Lower(s)[i] != 'Ü'
    {
      LowerCharIsLower(s[i]);
    }
    NotContainsWithoutChar(Lower(s), "Übungsleiterpauschale", 0);
  }


  /**
   * The root plan item: the Tobias rule for marked transactions, the
   * first matching contact, and a number "BEL-<date>--<transaction id>".
   */
  function BuildRoot(at: AccountingType, ccs: seq<CostCentre>, contacts: seq<Contact<PyValue>>, today: string): Transaction -> PlanItem
  {
    (t: Transaction) =>
      Item(t, UlpVoucherNumber(today, t.id), at, FindCostCentre(ccs, RootUlpRules(IsUlp(t)), PayeeName(t)),
           FindFirstContact(contacts, PayeeName(t)), None, None)
  }

  /** Root and refactored cost centres agree for everyone but Tobias Zimmermann. */
  lemma RootAndRefactoredCostCentresAgree(ccs: seq<CostCentre>, payee: string, isUlp: bool)
    requires !Contains(SearchName(payee), "tobias zimmermann")
    ensures FindCostCentre(ccs, RootUlpRules(isUlp), payee) == CostCentreFor(ccs, payee, isUlp)
  {
    UlpMappingRules(isUlp);
    if payee != "" {
      MarkerOnlyMattersForTobias(ccs, payee);
      assert forall k :: 0 <= k < |RootUlpRules(isUlp)| ==> !RuleHits(RootUlpRules(isUlp)[k], ccs, SearchName(payee));
      NoRuleMeansDefault(ccs, RootUlpRules(isUlp), payee);
      NoRuleMeansDefault(ccs, MappingRules(UlpMappings(false)), payee);
    }
  }

  /** Root items for different transactions of one day carry different numbers. */
  lemma RootNumbersAreDistinct(at: AccountingType, ccs: seq<CostCentre>, contacts: seq<Contact<PyValue>>, today: string, a: Transaction, b: Transaction)
    requires a.id != b.id
    ensures BuildRoot(at, ccs, contacts, today)(a).voucherNumber != BuildRoot(at, ccs, contacts, today)(b).voucherNumber
  {
    if UlpVoucherNumber(today, a.id) == UlpVoucherNumber(today, b.id) {
      UlpNumberInjective(today, a.id, b.id);
    }
  }
}

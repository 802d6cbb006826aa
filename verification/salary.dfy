/**
 * The salary scripts: the refactored creator (`GehaltVoucherCreator`),
 * the root script and the old script it replaced.
 *
 * An open transaction whose purpose mentions "Gehalt" becomes an expense
 * voucher on the "Lohn / Gehalt" accounting type, booked to the cost
 * centre found from the payee and linked to the contact found for the
 * payee, with suppliers (category 3) preferred where the script has a
 * preference. The refactored script passes custom mappings; the root
 * and old scripts hard-code their special cases.
 */
module Salary {
  import opened Wrappers
  import opened Text
  import opened Records
  import opened Numbering
  import opened NameNormalizer
  import opened ContactMatching
  import opened FirstMatchContact
  import opened Payload
  import opened CostCentres
  import opened VoucherPlan
  import opened ScriptSupport

  // -----------------------------------------------------------------------
  // The refactored script

  const AccountingTerm := "Lohn / Gehalt"

  /** The exact contact mapping: the payee as the bank writes it, the contact as it is cached. */
  const ContactMappings: seq<(string, string)> := [("gwendolyn ruth dewhurst", "gwen dewhurst")]

  /** The rule for Gwendolyn Dewhurst: both names in the search name, "gwen dewhurst" in the cost centre's. */
  const GwenWordsRule := SpecialRule(
    q => Contains(q, "gwendolyn") && Contains(q, "dewhurst"),
    n => Contains(n, "gwen dewhurst"))

  /**
   * The corrected cost-centre rules of the refactored script: the
   * Gwendolyn Dewhurst mapping read word by word as the script it replaced
   * did, the Samuel JeanRichard mapping unchanged (see
   * `Findings.SalaryMappingsAsWritten` for the mapping as written).
   */
  const SalaryRules: seq<SpecialRule> := [GwenWordsRule, MappingRules(SalaryMappings)[1]]

  /** The Samuel JeanRichard mapping as a rule ("samuel jeanrichard (intern)" is already lower case). */
  const SamuelMappingRule := SpecialRule(
    q => Contains(q, "samuel jeanrichard"),
    n => Contains(n, "samuel jeanrichard (intern)"))

  /** The second rule is the script's second mapping, unchanged. */
  lemma SamuelRuleIsTheMapping()
    ensures forall q :: MappingRules(SalaryMappings)[1].applies(q) == SamuelMappingRule.applies(q)
    ensures forall n :: MappingRules(SalaryMappings)[1].accepts(n) == SamuelMappingRule.accepts(n)
  {
    assert Lower(SalaryMappings[1].1) == "samuel jeanrichard (intern)";
  }

  /** `filter_transactions`: "gehalt" in the lower-cased purpose, whatever the sign. */
  predicate Selects(t: Transaction)
  {
    Contains(Lower(t.purpose), "gehalt")
  }

  /** `_find_gehalt_cost_centre`: the script's two mappings in order, then the default search. */
  function CostCentreFor(ccs: seq<CostCentre>, payee: string): (r: Option<CostCentre>)
    ensures r.Some? ==> r.value in ccs
  {
    FindCostCentre(ccs, MappingRules(SalaryMappings), payee)
  }

  /** The cost-centre search with the corrected Gwendolyn Dewhurst rule. */
  function CostCentreForCorrected(ccs: seq<CostCentre>, payee: string): (r: Option<CostCentre>)
    ensures r.Some? ==> r.value in ccs
  {
    FindCostCentre(ccs, SalaryRules, payee)
  }

  /** The first mapping asks for "gwendolyn dewhurst" in the search name. */
  lemma GwenMappingIs(q: string)
    ensures MappingRules(SalaryMappings)[0].applies(q) == Contains(q, "gwendolyn dewhurst")
  {
    assert SalaryMappings[0].0 == "gwendolyn dewhurst";
  }

  /** A search name holding "gwendolyn dewhurst" holds both names. */
  lemma GwenMappingNamesBoth(q: string)
    requires Contains(q, "gwendolyn dewhurst")
    ensures Contains(q, "gwendolyn") && Contains(q, "dewhurst")
  {
    ContainsAtIndex("gwendolyn dewhurst", "gwendolyn", 0);
    ContainsAtIndex("gwendolyn dewhurst", "dewhurst", 10);
    ContainsTrans(q, "gwendolyn dewhurst", "gwendolyn");
    ContainsTrans(q, "gwendolyn dewhurst", "dewhurst");
  }

  /**
   * The search as written and the corrected one choose the same cost
   * centre for every payee that does not name both Gwendolyn and Dewhurst.
   */
  lemma CorrectionOnlyMattersForGwendolyn(ccs: seq<CostCentre>, payee: string)
    requires !(Contains(SearchName(payee), "gwendolyn") && Contains(SearchName(payee), "dewhurst"))
    ensures CostCentreFor(ccs, payee) == CostCentreForCorrected(ccs, payee)
  {
    if payee != "" {
      var q := SearchName(payee);
      var m := MappingRules(SalaryMappings);
      GwenMappingIs(q);
      if Contains(q, "gwendolyn dewhurst") {
        GwenMappingNamesBoth(q);
      }
      assert !m[0].applies(q) && !SalaryRules[0].applies(q);
      assert SalaryRules[1..] == m[1..];
      assert SpecialHit(ccs, m, q) == SpecialHit(ccs, m[1..], q);
      assert SpecialHit(ccs, SalaryRules, q) == SpecialHit(ccs, SalaryRules[1..], q);
    }
  }

  /** `_find_gehalt_contact`: suppliers preferred, with the exact contact mapping. */
  function ContactFor(contacts: seq<Contact<PyValue>>, payee: string): (r: Option<Contact<PyValue>>)
    ensures r.Some? ==> r.value in contacts
  {
    FindContact(contacts, payee, 3, ContactMappings)
  }

  /**
   * Over the cache, whose categories are text, the supplier preference is
   * never met: the salary contact is the one the search without a
   * preference finds.
   */
  lemma ContactIgnoresPreference(contacts: seq<Contact<PyValue>>, payee: string)
    requires TextCategories(contacts)
    ensures ContactFor(contacts, payee) == FindContact(contacts, payee, 0, ContactMappings)
  {
    IntPreferenceIsIgnored(contacts, payee, 3, ContactMappings);
  }

  /** `build_voucher_plan_item`. */
  function Build(at: AccountingType, ccs: seq<CostCentre>, contacts: seq<Contact<PyValue>>): ItemBuilder
  {
    (t: Transaction, number: string, i: nat) =>
      Item(t, number, at, CostCentreFor(ccs, PayeeName(t)), ContactFor(contacts, PayeeName(t)), None, None)
  }

  /** Salaries are expenses. */
  const IsIncome := false

  /**
   * Whenever the search name holds both "gwendolyn" and "dewhurst", the
   * first cost centre whose name contains "gwen dewhurst" is chosen, if
   * there is one.
   */
  lemma GwendolynDewhurstIsMapped(ccs: seq<CostCentre>, payee: string, j: nat)
    requires payee != "" && Contains(SearchName(payee), "gwendolyn") && Contains(SearchName(payee), "dewhurst")
    requires j < |ccs| && Contains(Lower(ccs[j].name), "gwen dewhurst")
    ensures CostCentreForCorrected(ccs, payee).Some?
    ensures exists k :: 0 <= k < |ccs| && ccs[k] == CostCentreForCorrected(ccs, payee).value
                        && Contains(Lower(ccs[k].name), "gwen dewhurst")
                        && forall i :: 0 <= i < k ==> !Contains(Lower(ccs[i].name), "gwen dewhurst")
  {
    var q := SearchName(payee);
    assert CostCentres.Accepted(GwenWordsRule)(ccs[j]);
    assert RuleHits(SalaryRules[0], ccs, q);
    HittingRuleDecides(ccs, SalaryRules, payee, 0);
  }

  /**
   * Samuel JeanRichard's salary goes to the internal cost centre named by
   * the mapping, unless the Gwendolyn Dewhurst rule already applied.
   */
  lemma SamuelJeanrichardIsMapped(ccs: seq<CostCentre>, payee: string, j: nat)
    requires payee != "" && Contains(SearchName(payee), "samuel jeanrichard")
    requires !Contains(SearchName(payee), "gwendolyn dewhurst")
    requires j < |ccs| && Contains(Lower(ccs[j].name), "samuel jeanrichard (intern)")
    ensures CostCentreFor(ccs, payee).Some?
    ensures Contains(Lower(CostCentreFor(ccs, payee).value.name), "samuel jeanrichard (intern)")
  {
    var q := SearchName(payee);
    var rules := MappingRules(SalaryMappings);
    SamuelRuleIsTheMapping();
    GwenMappingIs(q);
    assert !rules[0].applies(q);
    assert rules[1].applies(q) && rules[1].accepts(Lower(ccs[j].name));
    assert forall i :: 0 <= i < 1 ==> !RuleHits(rules[i], ccs, SearchName(payee));
    HittingRuleDecides(ccs, rules, payee, 1);
    var r := First(ccs, CostCentres.Accepted(rules[1]));
    assert rules[1].accepts(Lower(r.value.name));
  }

  // -----------------------------------------------------------------------
  // The root and old scripts

  /** The root script's filter: "Gehalt" in the purpose, case-sensitive. */
  predicate SelectsRoot(t: Transaction)
  {
    Contains(t.purpose, "Gehalt")
  }

  /** The refactored and old filters keep every transaction the root filter keeps. */
  lemma RootSelectionIsNarrower(t: Transaction)
    ensures SelectsRoot(t) ==> Selects(t)
    ensures Selects(Transaction("", -1, "GEHALT", None, "", 100)) && !SelectsRoot(Transaction("", -1, "GEHALT", None, "", 100))
  {
    LowerGehalt();
    if SelectsRoot(t) {
      LowerKeepsContains(t.purpose, "Gehalt");
    }
    CapitalGehalt();
  }

  lemma LowerGehalt()
    ensures Lower("Gehalt") == "gehalt"
  {
    LowerOf("Gehalt", "gehalt");
  }

  /** "GEHALT" lower-cases to "gehalt" but does not contain "Gehalt". */
  lemma CapitalGehalt()
    ensures Contains(Lower("GEHALT"), "gehalt") && !Contains("GEHALT", "Gehalt")
  {
    LowerOf("GEHALT", "gehalt");
    ContainsSelf("gehalt");
    SameLengthContains("GEHALT", "Gehalt");
  }

  /** The root and old scripts' accounting type: the first whose name has both "Lohn" and "Gehalt". */
  function SetupRoot(ats: seq<AccountingType>): (r: Result<AccountingType, SetupError>)
    ensures r.Success? ==> r.value in ats && Contains(r.value.name, "Lohn") && Contains(r.value.name, "Gehalt")
  {
    match First(ats, (at: AccountingType) => Contains(at.name, "Lohn") && Contains(at.name, "Gehalt"))
    case None => Failure(NoAccountingType(AccountingTerm))
    case Some(at) => Success(at)
  }

  /** The root search finds a type whenever the refactored one does. */
  lemma RootSetupAcceptsMore(ats: seq<AccountingType>)
    requires AccountingTypeFor(ats, AccountingTerm).Success?
    ensures SetupRoot(ats).Success?
  {
    var at := AccountingTypeFor(ats, AccountingTerm).value;
    TermNamesBoth();
    ContainsTrans(at.name, AccountingTerm, "Lohn");
    ContainsTrans(at.name, AccountingTerm, "Gehalt");
  }

  /** "Lohn / Gehalt" contains both words the root search asks for. */
  lemma TermNamesBoth()
    ensures Contains(AccountingTerm, "Lohn") && Contains(AccountingTerm, "Gehalt")
  {
    ContainsAtIndex(AccountingTerm, "Lohn", 0);
    ContainsAtIndex(AccountingTerm, "Gehalt", 7);
  }

  /**
   * The root plan item: cost centre with the Samuel JeanRichard rule, the
   * first contact whose name matches, a number from the day of the run.
   */
  function BuildRoot(at: AccountingType, ccs: seq<CostCentre>, contacts: seq<Contact<PyValue>>, today: string): Transaction -> PlanItem
  {
    (t: Transaction) =>
      Item(t, DatedVoucherNumber(today, t.id), at, FindCostCentre(ccs, RootSalaryRules, PayeeName(t)),
           FindFirstContact(contacts, PayeeName(t)), None, None)
  }

  /**
   * The old script's resolver: its own normaliser with the mis-encoded
   * sharp-s literals, suppliers preferred by number, and the hard-coded
   * Gwendolyn Dewhurst override.
   */
  const OldContactConfig: Config<PyValue> := Config(CommaReversal, NormalizeGarbled, PreferredCategory(3), GwenDewhurst)

  /** The old plan item: both hard-coded cost-centre rules and the old resolver. */
  function BuildOld(at: AccountingType, ccs: seq<CostCentre>, contacts: seq<Contact<PyValue>>, today: string): Transaction -> PlanItem
  {
    (t: Transaction) =>
      Item(t, DatedVoucherNumber(today, t.id), at, FindCostCentre(ccs, OldSalaryRules, PayeeName(t)),
           Resolve(OldContactConfig, contacts, PayeeName(t)), None, None)
  }

  /** The old resolver's numeric supplier preference is never met over the cache either. */
  lemma OldContactIgnoresPreference(contacts: seq<Contact<PyValue>>, payee: string)
    requires TextCategories(contacts)
    ensures Resolve(OldContactConfig, contacts, payee) == Resolve(OldContactConfig.(preferred := None), contacts, payee)
  {
    forall j | 0 <= j < |contacts|
      ensures Bonus(OldContactConfig, contacts[j]) == Bonus(OldContactConfig.(preferred := None), contacts[j])
    {
    }
    SameBonusSameContact(OldContactConfig, None, contacts, payee);
  }

  /**
   * Old and root scripts agree on the cost centre except for a payee that
   * names both Gwendolyn and Dewhurst.
   */
  lemma OldAndRootCostCentresAgree(ccs: seq<CostCentre>, payee: string)
    requires !(Contains(SearchName(payee), "gwendolyn") && Contains(SearchName(payee), "dewhurst"))
    ensures FindCostCentre(ccs, OldSalaryRules, payee) == FindCostCentre(ccs, RootSalaryRules, payee)
  {
    if payee != "" {
      var q := SearchName(payee);
      assert !RuleHits(GwenRule, ccs, q);
      assert SpecialHit(ccs, OldSalaryRules, q) == SpecialHit(ccs, OldSalaryRules[1..], q);
      assert OldSalaryRules[1..] == RootSalaryRules;
    }
  }

  /** Root and old items for different transactions of one day carry different numbers. */
  lemma DatedNumbersAreDistinct(at: AccountingType, ccs: seq<CostCentre>, contacts: seq<Contact<PyValue>>, today: string, a: Transaction, b: Transaction)
    requires a.id != b.id
    ensures BuildRoot(at, ccs, contacts, today)(a).voucherNumber != BuildRoot(at, ccs, contacts, today)(b).voucherNumber
    ensures BuildOld(at, ccs, contacts, today)(a).voucherNumber != BuildOld(at, ccs, contacts, today)(b).voucherNumber
  {
    if DatedVoucherNumber(today, a.id) == DatedVoucherNumber(today, b.id) {
      DatedNumberInjective(today, a.id, b.id);
    }
  }
}

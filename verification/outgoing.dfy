/**
 * The scripts for outgoing donations to partner organisations: Kontaktmission
 * (refactored creator and root script), EBTC and Grace Baptist Tampere.
 *
 * Each selects expenses (negative amounts) whose payee or purpose names
 * the organisation, books them on the donations-paid accounting type and
 * links a contact found from a fixed organisation name with a preference
 * for suppliers (category 3). Kontaktmission routes the cost centre by
 * the purpose; EBTC and Grace Baptist book every item to one cost centre
 * found during setup.
 */
module Outgoing {
  import opened Wrappers
  import opened Text
  import opened Records
  import opened ContactMatching
  import opened CostCentres
  import opened VoucherPlan
  import opened ScriptSupport

  /** The accounting type of donations paid, as the three scripts spell it. */
  const DonationsPaidTerm := "Zuwendungen, Spenden für kirchliche, religiöse und gemeinnützige Zwecke"

  // -----------------------------------------------------------------------
  // Kontaktmission

  /** The contact every Kontaktmission voucher is linked to. */
  const KontaktName := "KONTAKTMISSION DEUTSCHLAND"

  /** The cost-centre mappings, keyed by the lower-cased search name. */
  const KontaktMappings: seq<(string, string)> := [
    ("hodzi", "Hodzi"),
    ("jean richards", "Samuel Jeanrichard (intern)"),
    ("jeanrichard", "Samuel Jeanrichard (intern)")
  ]

  const HodziRule := SpecialRule(q => Contains(q, "hodzi"), n => Contains(n, "hodzi"))
  const JeanRichardsRule := SpecialRule(q => Contains(q, "jean richards"), n => Contains(n, "samuel jeanrichard (intern)"))
  const JeanrichardRule := SpecialRule(q => Contains(q, "jeanrichard"), n => Contains(n, "samuel jeanrichard (intern)"))

  /** The three mappings as rules, with their targets lower-cased. */
  lemma KontaktMappingRules()
    ensures |MappingRules(KontaktMappings)| == 3
    ensures forall q :: MappingRules(KontaktMappings)[0].applies(q) == HodziRule.applies(q)
    ensures forall n :: MappingRules(KontaktMappings)[0].accepts(n) == HodziRule.accepts(n)
    ensures forall q :: MappingRules(KontaktMappings)[1].applies(q) == JeanRichardsRule.applies(q)
    ensures forall n :: MappingRules(KontaktMappings)[1].accepts(n) == JeanRichardsRule.accepts(n)
    ensures forall q :: MappingRules(KontaktMappings)[2].applies(q) == JeanrichardRule.applies(q)
  {
    HodziMapping();
    JeanRichardsMapping();
  }

  lemma HodziMapping()
    ensures |MappingRules(KontaktMappings)| == 3
    ensures forall q :: MappingRules(KontaktMappings)[0].applies(q) == HodziRule.applies(q)
    ensures forall n :: MappingRules(KontaktMappings)[0].accepts(n) == HodziRule.accepts(n)
  {
    LowerHodzi();
  }

  lemma JeanRichardsMapping()
    ensures |MappingRules(KontaktMappings)| == 3
    ensures forall q :: MappingRules(KontaktMappings)[1].applies(q) == JeanRichardsRule.applies(q)
    ensures forall n :: MappingRules(KontaktMappings)[1].accepts(n) == JeanRichardsRule.accepts(n)
  {
    LowerSamuelTarget();
  }

  lemma LowerSamuelTarget()
    ensures Lower("Samuel Jeanrichard (intern)") == "samuel jeanrichard (intern)"
  {
    LowerOf("Samuel Jeanrichard (intern)", "samuel jeanrichard (intern)");
  }

  /** `filter_transactions`: an expense with "KONTAKTMISSION" in the upper-cased payee or purpose. */
  predicate KontaktSelects(t: Transaction)
  {
    t.amount < 0 && (Contains(Upper(FilterPayee(t)), "KONTAKTMISSION") || Contains(Upper(t.purpose), "KONTAKTMISSION"))
  }

  /** `_determine_cost_centre`: "HODZI" first, then "JEAN" or "RICHARDS", else none. */
  function KontaktCostCentre(ccs: seq<CostCentre>, purpose: string): (r: Option<CostCentre>)
    ensures r.Some? ==> r.value in ccs
    ensures r.Some? ==> Contains(Upper(purpose), "HODZI") || Contains(Upper(purpose), "JEAN") || Contains(Upper(purpose), "RICHARDS")
  {
    var u := Upper(purpose);
    if Contains(u, "HODZI") then FindCostCentre(ccs, MappingRules(KontaktMappings), "Hodzi")
    else if Contains(u, "JEAN") || Contains(u, "RICHARDS") then FindCostCentre(ccs, MappingRules(KontaktMappings), "Jean Richards")
    else None
  }

  /** The two fixed names the routing looks up, as search names. */
  lemma HodziSearch()
    ensures SearchName("Hodzi") == "hodzi"
  {
    SearchNameOfTrimmed("Hodzi");
    LowerHodzi();
  }

  lemma LowerHodzi()
    ensures Lower("Hodzi") == "hodzi"
  {
  }

  lemma JeanRichardsSearch()
    ensures SearchName("Jean Richards") == "jean richards"
  {
    SearchNameOfTrimmed("Jean Richards");
    LowerJeanRichards();
  }

  lemma LowerJeanRichards()
    ensures Lower("Jean Richards") == "jean richards"
  {
  }

  /** The lookup for "Hodzi" returns the first cost centre whose lower-cased name contains "hodzi", if any. */
  lemma HodziLookup(ccs: seq<CostCentre>, j: nat)
    requires j < |ccs| && Contains(Lower(ccs[j].name), "hodzi")
    ensures FindCostCentre(ccs, MappingRules(KontaktMappings), "Hodzi") == First(ccs, CostCentres.Accepted(HodziRule))
  {
    var rules := MappingRules(KontaktMappings);
    HodziMapping();
    HodziSearch();
    ContainsSelf("hodzi");
    assert CostCentres.Accepted(rules[0])(ccs[j]);
    assert RuleHits(rules[0], ccs, SearchName("Hodzi"));
    HittingRuleDecides(ccs, rules, "Hodzi", 0);
    FirstAgrees(ccs, CostCentres.Accepted(rules[0]), CostCentres.Accepted(HodziRule));
  }

  /**
   * A purpose naming Hodzi goes to the first cost centre whose lower-cased
   * name contains "hodzi", whatever else the purpose says.
   */
  lemma HodziRoute(ccs: seq<CostCentre>, purpose: string, j: nat)
    requires Contains(Upper(purpose), "HODZI")
    requires j < |ccs| && Contains(Lower(ccs[j].name), "hodzi")
    ensures KontaktCostCentre(ccs, purpose).Some?
    ensures exists k :: 0 <= k < |ccs| && ccs[k] == KontaktCostCentre(ccs, purpose).value
                        && Contains(Lower(ccs[k].name), "hodzi")
                        && forall i :: 0 <= i < k ==> !Contains(Lower(ccs[i].name), "hodzi")
  {
    HodziLookup(ccs, j);
  }

  /**
   * A purpose naming Hodzi, with no cost centre containing "hodzi", falls
   * back to the default search for "hodzi": the longer keys never apply.
   */
  lemma HodziFallback(ccs: seq<CostCentre>, purpose: string)
    requires Contains(Upper(purpose), "HODZI")
    requires forall j :: 0 <= j < |ccs| ==> !Contains(Lower(ccs[j].name), "hodzi")
    ensures KontaktCostCentre(ccs, purpose) == DefaultMatch(ccs, "hodzi")
  {
    var rules := MappingRules(KontaktMappings);
    HodziMapping();
    HodziSearch();
    LongerKeysMissHodzi();
    assert !RuleHits(rules[0], ccs, "hodzi");
    assert forall k :: 0 <= k < |rules| ==> !RuleHits(rules[k], ccs, SearchName("Hodzi"));
    NoRuleMeansDefault(ccs, rules, "Hodzi");
  }

  /** "hodzi" is too short for the other two keys. */
  lemma LongerKeysMissHodzi()
    ensures !MappingRules(KontaktMappings)[1].applies("hodzi")
    ensures !MappingRules(KontaktMappings)[2].applies("hodzi")
  {
    TooShortToContain("hodzi", "jean richards");
    TooShortToContain("hodzi", "jeanrichard");
  }

  /** The lookup for "Jean Richards" returns the first cost centre accepted by the "jean richards" key, if any. */
  lemma JeanRichardsLookup(ccs: seq<CostCentre>, j: nat)
    requires j < |ccs| && Contains(Lower(ccs[j].name), "samuel jeanrichard (intern)")
    ensures FindCostCentre(ccs, MappingRules(KontaktMappings), "Jean Richards") == First(ccs, CostCentres.Accepted(JeanRichardsRule))
  {
    var rules := MappingRules(KontaktMappings);
    JeanRichardsMapping();
    JeanRichardsSearch();
    HodziKeyMissesJeanRichards();
    assert !RuleHits(rules[0], ccs, "jean richards");
    ContainsSelf("jean richards");
    assert CostCentres.Accepted(rules[1])(ccs[j]);
    assert RuleHits(rules[1], ccs, "jean richards");
    assert forall i :: 0 <= i < 1 ==> !RuleHits(rules[i], ccs, SearchName("Jean Richards"));
    HittingRuleDecides(ccs, rules, "Jean Richards", 1);
    FirstAgrees(ccs, CostCentres.Accepted(rules[1]), CostCentres.Accepted(JeanRichardsRule));
  }

  lemma HodziKeyMissesJeanRichards()
    ensures !MappingRules(KontaktMappings)[0].applies("jean richards")
  {
    NotContainsWithoutChar("jean richards", "hodzi", 1);
  }

  /**
   * A purpose naming Jean or Richards but not Hodzi goes to the first cost
   * centre containing "samuel jeanrichard (intern)", if there is one.
   */
  lemma JeanRichardsRoute(ccs: seq<CostCentre>, purpose: string, j: nat)
    requires !Contains(Upper(purpose), "HODZI")
    requires Contains(Upper(purpose), "JEAN") || Contains(Upper(purpose), "RICHARDS")
    requires j < |ccs| && Contains(Lower(ccs[j].name), "samuel jeanrichard (intern)")
    ensures KontaktCostCentre(ccs, purpose).Some?
    ensures exists k :: 0 <= k < |ccs| && ccs[k] == KontaktCostCentre(ccs, purpose).value
                        && Contains(Lower(ccs[k].name), "samuel jeanrichard (intern)")
                        && forall i :: 0 <= i < k ==> !Contains(Lower(ccs[i].name), "samuel jeanrichard (intern)")
  {
    JeanRichardsLookup(ccs, j);
  }

  /** The Kontaktmission contact: the fixed organisation name, suppliers preferred. */
  function KontaktContact(contacts: seq<Contact<PyValue>>): (r: Option<Contact<PyValue>>)
    ensures r.Some? ==> r.value in contacts
  {
    FindContact(contacts, KontaktName, 3, [])
  }

  /** Over the cache the supplier preference is never met: the search without one finds the same contact. */
  lemma KontaktPreferenceIgnored(contacts: seq<Contact<PyValue>>)
    requires TextCategories(contacts)
    ensures KontaktContact(contacts) == FindContact(contacts, KontaktName, 0, [])
  {
    IntPreferenceIsIgnored(contacts, KontaktName, 3, []);
  }

  /** `build_voucher_plan_item`: cost centre from the purpose, contact from the fixed name. */
  function KontaktBuild(at: AccountingType, ccs: seq<CostCentre>, contacts: seq<Contact<PyValue>>): ItemBuilder
  {
    (t: Transaction, number: string, i: nat) =>
      Item(t, number, at, KontaktCostCentre(ccs, t.purpose), KontaktContact(contacts), None, None)
  }

  /** The item's contact does not depend on the transaction, and its cost centre only on the purpose. */
  lemma KontaktItemsIgnorePayee(at: AccountingType, ccs: seq<CostCentre>, contacts: seq<Contact<PyValue>>,
                                t: Transaction, u: Transaction, number: string, i: nat)
    ensures KontaktBuild(at, ccs, contacts)(t, number, i).contact == KontaktBuild(at, ccs, contacts)(u, number, i).contact
    ensures t.purpose == u.purpose ==>
      KontaktBuild(at, ccs, contacts)(t, number, i).costCentre == KontaktBuild(at, ccs, contacts)(u, number, i).costCentre
  {
  }

  /** Kontaktmission donations are expenses. */
  const KontaktIsIncome := false

  // -----------------------------------------------------------------------
  // EBTC

  const EbtcCentreName := "Spendenausgänge"

  /** The contact names tried before the payee, in order. */
  const EbtcContactNames: seq<string> := ["EBTC", "Europäisches Bibel Trainings Centrum"]

  /** `filter_transactions`: an expense naming EBTC in payee or purpose, with "SPENDE" or "Spende" in the purpose. */
  predicate EbtcSelects(t: Transaction)
  {
    && t.amount < 0
    && (Contains(Upper(FilterPayee(t)), "EBTC") || Contains(Upper(t.purpose), "EBTC"))
    && (Contains(Upper(t.purpose), "SPENDE") || Contains(t.purpose, "Spende"))
  }

  /** The case-sensitive "Spende" test adds nothing to the upper-cased one. */
  lemma EbtcSpendeTestIsRedundant(t: Transaction)
    ensures EbtcSelects(t) <==>
      t.amount < 0 && (Contains(Upper(FilterPayee(t)), "EBTC") || Contains(Upper(t.purpose), "EBTC"))
      && Contains(Upper(t.purpose), "SPENDE")
  {
    if Contains(t.purpose, "Spende") {
      UpperKeepsContains(t.purpose, "Spende");
      UpperSpende();
    }
  }

  lemma UpperSpende()
    ensures Upper("Spende") == "SPENDE"
  {
    UpperOfAscii("Spende", "SPENDE");
  }

  /** The cost centre is looked up without mappings, by its lower-cased name. */
  lemma EbtcCentreSearch(ccs: seq<CostCentre>)
    ensures FindCostCentre(ccs, [], EbtcCentreName) == DefaultMatch(ccs, "spendenausgänge")
  {
    PlainLookup(ccs, EbtcCentreName);
    LowerEbtcCentreName();
  }

  lemma LowerEbtcCentreName()
    ensures Lower(EbtcCentreName) == "spendenausgänge"
  {
  }

  /** `find_accounting_type`: the donations-paid type, then the cost centre found by the plain lookup. */
  function EbtcSetup(ats: seq<AccountingType>, ccs: seq<CostCentre>): (r: Result<Fixed, SetupError>)
    ensures r.Success? ==> r.value.accountingType in ats && Contains(r.value.accountingType.name, DonationsPaidTerm)
    ensures r.Success? ==> r.value.costCentre in ccs && Related("spendenausgänge", r.value.costCentre)
    ensures r.Success? <==> AccountingTypeFor(ats, DonationsPaidTerm).Success?
                            && exists j :: 0 <= j < |ccs| && Related("spendenausgänge", ccs[j])
  {
    EbtcCentreSearch(ccs);
    match AccountingTypeFor(ats, DonationsPaidTerm)
    case Failure(e) => Failure(e)
    case Success(at) =>
      match FindCostCentre(ccs, [], EbtcCentreName)
      case None => Failure(MissingCostCentres([EbtcCentreName]))
      case Some(cc) => Success(Fixed(at, cc))
  }

  /** The first of the names for which `find` finds something, tried in order. */
  function FirstFound<X>(find: string -> Option<X>, names: seq<string>): (r: Option<X>)
    ensures r.Some? ==> exists i :: 0 <= i < |names| && r == find(names[i])
                          && forall k :: 0 <= k < i ==> find(names[k]).None?
    ensures r.None? <==> forall i :: 0 <= i < |names| ==> find(names[i]).None?
    decreases |names|
  {
    if |names| == 0 then None
    else
      var rest := FirstFound(find, names[1..]);
      assert forall i :: 1 <= i < |names| ==> names[i] == names[1..][i - 1];
      match find(names[0])
      case Some(c) => Some(c)
      case None => rest
  }

  /** The shared search with suppliers preferred, as a function of the name. */
  function SupplierSearch(contacts: seq<Contact<PyValue>>): string -> Option<Contact<PyValue>>
  {
    (name: string) => FindContact(contacts, name, 3, [])
  }

  /** The EBTC contact: "EBTC", then the full name, then the payee. */
  function EbtcContact(contacts: seq<Contact<PyValue>>, payee: string): (r: Option<Contact<PyValue>>)
    ensures r.Some? ==> r.value in contacts
  {
    FirstFound(SupplierSearch(contacts), EbtcContactNames + [payee])
  }

  /** A name appended after the others is only tried when none of them finds anything. */
  lemma {:induction false} FirstFoundAppend<X>(find: string -> Option<X>, names: seq<string>, last: string)
    ensures FirstFound(find, names).Some? ==> FirstFound(find, names + [last]) == FirstFound(find, names)
    ensures FirstFound(find, names).None? ==> FirstFound(find, names + [last]) == find(last)
    decreases |names|
  {
    if |names| == 0 {
      assert names + [last] == [last];
      assert FirstFound(find, [last][1..]) == None;
    } else {
      assert (names + [last])[1..] == names[1..] + [last];
      FirstFoundAppend(find, names[1..], last);
    }
  }

  /**
   * A contact found under one of the fixed names decides, whatever the
   * payee; only when both fail is the payee searched.
   */
  lemma EbtcNamesComeFirst(contacts: seq<Contact<PyValue>>, payee: string)
    ensures FirstFound(SupplierSearch(contacts), EbtcContactNames).Some? ==>
      EbtcContact(contacts, payee) == FirstFound(SupplierSearch(contacts), EbtcContactNames)
    ensures FirstFound(SupplierSearch(contacts), EbtcContactNames).None? ==>
      EbtcContact(contacts, payee) == FindContact(contacts, payee, 3, [])
  {
    FirstFoundAppend(SupplierSearch(contacts), EbtcContactNames, payee);
  }

  /** `build_voucher_plan_item`: one cost centre for all, the contact from the name search. */
  function EbtcBuild(fixed: Fixed, contacts: seq<Contact<PyValue>>): ItemBuilder
  {
    (t: Transaction, number: string, i: nat) =>
      Item(t, number, fixed.accountingType, Some(fixed.costCentre), EbtcContact(contacts, PayeeName(t)), None, None)
  }

  /** EBTC donations are expenses. */
  const EbtcIsIncome := false

  // -----------------------------------------------------------------------
  // Grace Baptist Tampere

  /** The cost centre searched for, spelled with one "s". */
  const GraceCentreName := "Wilhelmson"
  const GraceContactName := "GRACE BAPTIST TAMPERE RY"

  /** `filter_transactions`: an expense naming Grace Baptist, with Wilhelmsson in the purpose. */
  predicate GraceSelects(t: Transaction)
  {
    && t.amount < 0
    && (Contains(Upper(FilterPayee(t)), "GRACE BAPTIST") || Contains(Upper(t.purpose), "GRACE BAPTIST"))
    && (Contains(Upper(t.purpose), "MISKA WILHELMSSON") || Contains(Upper(t.purpose), "WILHELMSSON"))
  }

  /** The full-name test adds nothing to the surname test. */
  lemma GraceFullNameIsRedundant(t: Transaction)
    ensures GraceSelects(t) <==>
      t.amount < 0 && (Contains(Upper(FilterPayee(t)), "GRACE BAPTIST") || Contains(Upper(t.purpose), "GRACE BAPTIST"))
      && Contains(Upper(t.purpose), "WILHELMSSON")
  {
    if Contains(Upper(t.purpose), "MISKA WILHELMSSON") {
      ContainsAtIndex("MISKA WILHELMSSON", "WILHELMSSON", 6);
      ContainsTrans(Upper(t.purpose), "MISKA WILHELMSSON", "WILHELMSSON");
    }
  }

  /** The cost centre is looked up without mappings, by its lower-cased name. */
  lemma GraceCentreSearch(ccs: seq<CostCentre>)
    ensures FindCostCentre(ccs, [], GraceCentreName) == DefaultMatch(ccs, "wilhelmson")
  {
    PlainLookup(ccs, GraceCentreName);
    LowerGraceCentreName();
  }

  lemma LowerGraceCentreName()
    ensures Lower(GraceCentreName) == "wilhelmson"
  {
  }

  /** `find_accounting_type`: the donations-paid type, then the cost centre found by the plain lookup. */
  function GraceSetup(ats: seq<AccountingType>, ccs: seq<CostCentre>): (r: Result<Fixed, SetupError>)
    ensures r.Success? ==> r.value.accountingType in ats && Contains(r.value.accountingType.name, DonationsPaidTerm)
    ensures r.Success? ==> r.value.costCentre in ccs && Related("wilhelmson", r.value.costCentre)
    ensures r.Success? <==> AccountingTypeFor(ats, DonationsPaidTerm).Success?
                            && exists j :: 0 <= j < |ccs| && Related("wilhelmson", ccs[j])
  {
    GraceCentreSearch(ccs);
    match AccountingTypeFor(ats, DonationsPaidTerm)
    case Failure(e) => Failure(e)
    case Success(at) =>
      match FindCostCentre(ccs, [], GraceCentreName)
      case None => Failure(MissingCostCentres([GraceCentreName]))
      case Some(cc) => Success(Fixed(at, cc))
  }

  /** `build_voucher_plan_item`: the shared cost centre and the contact of the fixed name. */
  function GraceBuild(fixed: Fixed, contacts: seq<Contact<PyValue>>): ItemBuilder
  {
    (t: Transaction, number: string, i: nat) =>
      Item(t, number, fixed.accountingType, Some(fixed.costCentre), FindContact(contacts, GraceContactName, 3, []), None, None)
  }

  /** Grace Baptist donations are expenses. */
  const GraceIsIncome := false
}

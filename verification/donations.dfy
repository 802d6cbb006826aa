/**
 * The donation scripts: the refactored creator (`SpendenVoucherCreator`),
 * the backup it was refactored from, which plans the same way, and the
 * original root script.
 *
 * An open transaction with a positive amount and a donation keyword in its
 * purpose becomes an income voucher on the accounting type
 * "Spendeneingang". The purpose decides the donation type, and the type
 * decides which of four cost centres, each found by its exact name, the
 * voucher is booked to. The donor is searched for with a preference for
 * customers (category 2).
 */
module Donations {
  import opened Wrappers
  import opened Text
  import opened Records
  import opened Numbering
  import opened NameNormalizer
  import opened ContactMatching
  import opened Payload
  import opened CostCentres
  import opened VoucherPlan
  import opened ScriptSupport

  // -----------------------------------------------------------------------
  // Cost centres

  /** The cost centre each donation type is booked to. */
  function CentreName(d: DonationType): string
  {
    match d
    case Mission => "Spendeneingänge Missionare"
    case General => "Spendeneingänge Konto"
    case Jeske => "Jeske (Durchlaufende Posten)"
    case Tobias => "Tobias Zimmermann (Spende für Tobias)"
  }

  /** The four types in the order the scripts look their cost centres up. */
  const DonationTypes: seq<DonationType> := [Mission, General, Jeske, Tobias]

  /** Each type has its own cost centre. */
  lemma CentreNamesDistinct(a: DonationType, b: DonationType)
    requires a != b
    ensures CentreName(a) != CentreName(b)
  {
    assert CentreName(Mission)[16] != CentreName(General)[16];
    assert CentreName(Jeske)[0] != CentreName(Tobias)[0];
  }

  datatype Centres = Centres(mission: CostCentre, general: CostCentre, jeske: CostCentre, tobias: CostCentre)

  function CentreFor(cs: Centres, d: DonationType): CostCentre
  {
    match d
    case Mission => cs.mission
    case General => cs.general
    case Jeske => cs.jeske
    case Tobias => cs.tobias
  }

  /** The names of the cost centres not found by exact name, in lookup order. */
  function MissingCentres(ccs: seq<CostCentre>): (r: seq<string>)
    ensures forall d :: CentreName(d) in r <==> FindByExactName(ccs, CentreName(d)).None?
    ensures forall i :: 0 <= i < |r| ==> exists d :: r[i] == CentreName(d)
  {
    var names := seq(4, i requires 0 <= i < 4 => CentreName(DonationTypes[i]));
    EveryTypeIsLookedUp(names);
    Filter(names, (n: string) => FindByExactName(ccs, n).None?)
  }

  lemma EveryTypeIsLookedUp(names: seq<string>)
    requires names == seq(4, i requires 0 <= i < 4 => CentreName(DonationTypes[i]))
    ensures forall d :: CentreName(d) in names
  {
    forall d
      ensures CentreName(d) in names
    {
      match d {
        case Mission => assert names[0] == CentreName(d);
        case General => assert names[1] == CentreName(d);
        case Jeske => assert names[2] == CentreName(d);
        case Tobias => assert names[3] == CentreName(d);
      }
    }
  }

  lemma FoundCentres(ccs: seq<CostCentre>, cs: Centres)
    requires FindByExactName(ccs, CentreName(Mission)) == Some(cs.mission)
    requires FindByExactName(ccs, CentreName(General)) == Some(cs.general)
    requires FindByExactName(ccs, CentreName(Jeske)) == Some(cs.jeske)
    requires FindByExactName(ccs, CentreName(Tobias)) == Some(cs.tobias)
    ensures forall d :: FindByExactName(ccs, CentreName(d)) == Some(CentreFor(cs, d))
  {
    forall d
      ensures FindByExactName(ccs, CentreName(d)) == Some(CentreFor(cs, d))
    {
      match d {
        case Mission =>
        case General =>
        case Jeske =>
        case Tobias =>
      }
    }
  }

  /**
   * The cost-centre part of the donation setup: all four cost centres by
   * exact name, or the names of all that are missing.
   */
  function FindCentres(ccs: seq<CostCentre>): (r: Result<Centres, SetupError>)
    ensures r.Success? <==> forall d :: FindByExactName(ccs, CentreName(d)).Some?
    ensures r.Success? ==> forall d :: CentreFor(r.value, d) in ccs && CentreFor(r.value, d).name == CentreName(d)
    ensures r.Failure? ==> r.error.MissingCostCentres? && |r.error.names| > 0
    ensures r.Failure? ==> forall d :: CentreName(d) in r.error.names <==> FindByExactName(ccs, CentreName(d)).None?
  {
    var m := FindByExactName(ccs, CentreName(Mission));
    var g := FindByExactName(ccs, CentreName(General));
    var j := FindByExactName(ccs, CentreName(Jeske));
    var t := FindByExactName(ccs, CentreName(Tobias));
    if m.Some? && g.Some? && j.Some? && t.Some? then
      var cs := Centres(m.value, g.value, j.value, t.value);
      FoundCentres(ccs, cs);
      Success(cs)
    else
      var missing := MissingCentres(ccs);
      assert m.None? ==> CentreName(Mission) in missing;
      Failure(MissingCostCentres(missing))
  }

  /** What the setup of the refactored and backup scripts finds. */
  datatype Context = Context(accountingType: AccountingType, centres: Centres)

  /** `find_accounting_type`: a type whose name contains "Spendeneingang", then the four cost centres. */
  function Setup(ats: seq<AccountingType>, ccs: seq<CostCentre>): (r: Result<Context, SetupError>)
    ensures r.Success? <==> FindAccountingType(ats, "Spendeneingang").Some? && FindCentres(ccs).Success?
    ensures r.Success? ==> Contains(r.value.accountingType.name, "Spendeneingang") && r.value.accountingType in ats
    ensures r.Failure? && FindAccountingType(ats, "Spendeneingang").None? ==> r.error == NoAccountingType("Spendeneingang")
  {
    match FindAccountingType(ats, "Spendeneingang")
    case None => Failure(NoAccountingType("Spendeneingang"))
    case Some(at) =>
      match FindCentres(ccs)
      case Failure(e) => Failure(e)
      case Success(cs) => Success(Context(at, cs))
  }

  // -----------------------------------------------------------------------
  // Selection

  /** The donation keywords of the refactored and backup scripts. */
  predicate IsDonationPurpose(p: string)
  {
    || Contains(p, "Spende")
    || Contains(p, "SPENDE")
    || Contains(p, "Tobi Zimmermann")
    || Contains(p, "Unterstützung")
    || Contains(p, "Unterstuetzung")
    || Contains(p, "Gemeindespende")
    || Contains(p, "für die Gemeinde")
    || Contains(p, "MONATLICHE SPENDE")
    || Contains(p, "GEMEINDE")
    || Contains(p, "Spends")
    || Contains(p, "Offering")
    || IsPrefix("Monatsspende", p)
    || Contains(p, "GEMEINDE SPENDE")
  }

  /** `filter_transactions`: income with a donation keyword. */
  predicate Selects(t: Transaction)
  {
    t.amount > 0 && IsDonationPurpose(t.purpose)
  }

  /**
   * Two of the thirteen keywords add nothing: every purpose containing
   * "MONATLICHE SPENDE" or "GEMEINDE SPENDE" already contains "SPENDE".
   */
  lemma TwoKeywordsAreRedundant(p: string)
    ensures IsDonationPurpose(p) <==>
      || Contains(p, "Spende") || Contains(p, "SPENDE") || Contains(p, "Tobi Zimmermann")
      || Contains(p, "Unterstützung") || Contains(p, "Unterstuetzung") || Contains(p, "Gemeindespende")
      || Contains(p, "für die Gemeinde") || Contains(p, "GEMEINDE") || Contains(p, "Spends")
      || Contains(p, "Offering") || IsPrefix("Monatsspende", p)
  {
    if Contains(p, "MONATLICHE SPENDE") {
      ContainsAtIndex("MONATLICHE SPENDE", "SPENDE", 11);
      ContainsTrans(p, "MONATLICHE SPENDE", "SPENDE");
    }
    if Contains(p, "GEMEINDE SPENDE") {
      ContainsAtIndex("GEMEINDE SPENDE", "SPENDE", 9);
      ContainsTrans(p, "GEMEINDE SPENDE", "SPENDE");
    }
  }

  /** Refunds and other outgoing payments are never donations, whatever the purpose says. */
  lemma OnlyIncomeIsSelected(t: Transaction)
    requires t.amount <= 0
    ensures !Selects(t) && !SelectsRoot(t)
  {
  }

  /** The root script: income whose purpose contains "Spende". */
  predicate SelectsRoot(t: Transaction)
  {
    t.amount > 0 && Contains(t.purpose, "Spende")
  }

  /** The refactored filter keeps everything the root filter kept, and more. */
  lemma RootSelectionIsNarrower(t: Transaction)
    ensures SelectsRoot(t) ==> Selects(t)
    ensures !SelectsRoot(Transaction("", 1, "SPENDE", None, "", 100)) && Selects(Transaction("", 1, "SPENDE", None, "", 100))
  {
    var p := "SPENDE";
    SameLengthContains(p, "Spende");
    ContainsSelf(p);
  }

  // -----------------------------------------------------------------------
  // Classification

  /**
   * `_determine_donation_type_and_cost_centre`: Artur Jeske first, then
   * Tobias Zimmermann, then anything mentioning a mission, else general.
   * An empty purpose is general.
   */
  function Classify(p: string): (d: DonationType)
    ensures d == Jeske <==> Contains(p, "Artur Jeske")
    ensures d == Tobias <==> !Contains(p, "Artur Jeske")
                             && (Contains(p, "Spende Tobias Zimmermann") || Contains(p, "Tobi Zimmermann"))
    ensures d == Mission <==> !Contains(p, "Artur Jeske") && !Contains(p, "Spende Tobias Zimmermann")
                              && !Contains(p, "Tobi Zimmermann") && Contains(Lower(p), "mission")
  {
    if p == "" then
      NotContainsWithoutFirstChar(p, "Artur Jeske");
      NotContainsWithoutFirstChar(p, "Spende Tobias Zimmermann");
      NotContainsWithoutFirstChar(p, "Tobi Zimmermann");
      NotContainsWithoutFirstChar(Lower(p), "mission");
      General
    else if Contains(p, "Artur Jeske") then Jeske
    else if Contains(p, "Spende Tobias Zimmermann") || Contains(p, "Tobi Zimmermann") then Tobias
    else if Contains(Lower(p), "mission") || Contains(Lower(p), "missionar") then
      MissionarMentionsMission(Lower(p));
      Mission
    else General
  }

  lemma MissionarMentionsMission(s: string)
    ensures Contains(s, "missionar") ==> Contains(s, "mission")
  {
    if Contains(s, "missionar") {
      ContainsAtIndex("missionar", "mission", 0);
      ContainsTrans(s, "missionar", "mission");
    }
  }

  /**
   * The root script: the mission test first, then Artur Jeske and
   * "Spende Tobias Zimmermann" override it. "Tobi Zimmermann" is not
   * recognised.
   */
  function ClassifyRoot(p: string): (d: DonationType)
  {
    var base := if p == "" then General
                else if Contains(Lower(p), "mission") || Contains(Lower(p), "missionar") then Mission
                else General;
    if Contains(p, "Artur Jeske") then Jeske
    else if Contains(p, "Spende Tobias Zimmermann") then Tobias
    else if base == Mission then Mission
    else General
  }

  /** The two classifications differ only on purposes naming "Tobi Zimmermann". */
  lemma ClassificationsAgree(p: string)
    ensures !Contains(p, "Tobi Zimmermann") ==> Classify(p) == ClassifyRoot(p)
    ensures Contains(p, "Tobi Zimmermann") && !Contains(p, "Artur Jeske") ==> Classify(p) == Tobias
  {
    MissionarMentionsMission(Lower(p));
    if p == "" {
      NotContainsWithoutFirstChar(Lower(p), "mission");
    }
  }

  // -----------------------------------------------------------------------
  // Plan items

  /** The refactored and backup scripts' donor search: the shared resolver preferring customers. */
  function DonorContact(contacts: seq<Contact<PyValue>>, payee: string): (r: Option<Contact<PyValue>>)
    ensures r.Some? ==> r.value in contacts
  {
    FindContact(contacts, payee, 2, [])
  }

  /** Over the cache the customer preference is never met: the search without one finds the same donor. */
  lemma DonorPreferenceIgnored(contacts: seq<Contact<PyValue>>, payee: string)
    requires TextCategories(contacts)
    ensures DonorContact(contacts, payee) == FindContact(contacts, payee, 0, [])
  {
    IntPreferenceIsIgnored(contacts, payee, 2, []);
  }

  /** `build_voucher_plan_item`. */
  function Build(ctx: Context, contacts: seq<Contact<PyValue>>): ItemBuilder
  {
    (t: Transaction, number: string, i: nat) =>
      var d := Classify(t.purpose);
      Item(t, number, ctx.accountingType, Some(CentreFor(ctx.centres, d)), DonorContact(contacts, PayeeName(t)), None, Some(d))
  }

  /**
   * Every item is booked to the cost centre named for its donation type,
   * and that cost centre is one of the cached ones.
   */
  lemma ItemIsBookedToItsType(ats: seq<AccountingType>, ccs: seq<CostCentre>, contacts: seq<Contact<PyValue>>,
                              t: Transaction, number: string, i: nat)
    requires Setup(ats, ccs).Success?
    ensures var item := Build(Setup(ats, ccs).value, contacts)(t, number, i);
      && item.donationType == Some(Classify(t.purpose))
      && item.costCentre.Some? && item.costCentre.value in ccs
      && item.costCentre.value.name == CentreName(Classify(t.purpose))
      && item.voucherNumber == number && item.description.None?
  {
  }

  /** A donation is an income voucher. */
  const IsIncome := true

  // -----------------------------------------------------------------------
  // The root script

  /** The root script's own donor search: the donor variant of the resolver, preferring customers. */
  const RootDonorConfig: Config<PyValue> := Config(DonorSplitting, Normalize, PreferredCategory(2), NoOverride)

  /** The root donor search's numeric preference is never met over the cache either. */
  lemma RootDonorPreferenceIgnored(contacts: seq<Contact<PyValue>>, payee: string)
    requires TextCategories(contacts)
    ensures Resolve(RootDonorConfig, contacts, payee) == Resolve(RootDonorConfig.(preferred := None), contacts, payee)
  {
    forall j | 0 <= j < |contacts|
      ensures Bonus(RootDonorConfig, contacts[j]) == Bonus(RootDonorConfig.(preferred := None), contacts[j])
    {
    }
    SameBonusSameContact(RootDonorConfig, None, contacts, payee);
  }

  /** The root script's setup: the type named exactly "Spendeneingang", then the four cost centres. */
  function SetupRoot(ats: seq<AccountingType>, ccs: seq<CostCentre>): (r: Result<Context, SetupError>)
    ensures r.Success? ==> r.value.accountingType.name == "Spendeneingang" && r.value.accountingType in ats
  {
    match First(ats, (at: AccountingType) => at.name == "Spendeneingang")
    case None => Failure(NoAccountingType("Spendeneingang"))
    case Some(at) =>
      match FindCentres(ccs)
      case Failure(e) => Failure(e)
      case Success(cs) => Success(Context(at, cs))
  }

  /** Whenever the root setup succeeds, so does the refactored one, with the same cost centres. */
  lemma RootSetupIsStricter(ats: seq<AccountingType>, ccs: seq<CostCentre>)
    requires SetupRoot(ats, ccs).Success?
    ensures Setup(ats, ccs).Success?
    ensures Setup(ats, ccs).value.centres == SetupRoot(ats, ccs).value.centres
  {
    var at := SetupRoot(ats, ccs).value.accountingType;
    ContainsSelf(at.name);
  }

  /**
   * The root plan item: numbered "BEL-<date>-<transaction id>" from the
   * day of the run, contact from the root script's own resolver.
   */
  function BuildRoot(ctx: Context, contacts: seq<Contact<PyValue>>, today: string): Transaction -> PlanItem
  {
    (t: Transaction) =>
      var d := ClassifyRoot(t.purpose);
      Item(t, DatedVoucherNumber(today, t.id), ctx.accountingType, Some(CentreFor(ctx.centres, d)),
           Resolve(RootDonorConfig, contacts, PayeeName(t)), None, Some(d))
  }

  /** Root items of different transactions carry different voucher numbers. */
  lemma RootNumbersAreDistinct(ctx: Context, contacts: seq<Contact<PyValue>>, today: string, a: Transaction, b: Transaction)
    requires a.id != b.id
    ensures BuildRoot(ctx, contacts, today)(a).voucherNumber != BuildRoot(ctx, contacts, today)(b).voucherNumber
  {
    if DatedVoucherNumber(today, a.id) == DatedVoucherNumber(today, b.id) {
      DatedNumberInjective(today, a.id, b.id);
    }
  }
}

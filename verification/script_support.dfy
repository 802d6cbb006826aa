/**
 * What the voucher scripts share beyond the base workflow: the open
 * transactions they start from, the payee their filters read, the contact
 * search they call with a preferred category and exact mappings, the
 * setup errors that stop a script, and the plan item they fill in.
 */
module ScriptSupport {
  import opened Wrappers
  import opened Text
  import opened Records
  import opened Numbering
  import opened NameNormalizer
  import opened ContactMatching
  import opened Payload
  import opened Cache
  import opened VoucherPlan

  /** `get_open_transactions`: the cached transactions with status 100, in cache order. */
  function OpenTransactions(table: seq<Transaction>): (r: seq<Transaction>)
    ensures forall i :: 0 <= i < |r| ==> r[i] in table && r[i].status == 100
    ensures forall i :: 0 <= i < |table| && table[i].status == 100 ==> table[i] in r
  {
    AllTransactions(table, Some(100))
  }

  /** The transactions a script works on: the open ones its filter keeps, in cache order. */
  function Selected(table: seq<Transaction>, keep: Transaction -> bool): (r: seq<Transaction>)
    ensures forall i :: 0 <= i < |r| ==> r[i] in table && r[i].status == 100 && keep(r[i])
    ensures forall i :: 0 <= i < |table| && table[i].status == 100 && keep(table[i]) ==> table[i] in r
  {
    Filter(OpenTransactions(table), keep)
  }

  /** The payee the filters read: `payeePayerName`, or "" when the field is absent. */
  function FilterPayee(t: Transaction): (r: string)
    ensures t.rawPayee.Some? ==> r == PayeeName(t)
    ensures t.rawPayee.None? ==> r == "" && PayeeName(t) == "Unknown"
  {
    t.rawPayee.GetOr("")
  }

  /**
   * The category a script prefers, as the scripts pass it: the number
   * itself. A preference of 0 counts as none, since the resolver tests the
   * number for truth first. The cache hands categories back as text, so
   * this value never equals a cached category (see
   * `Findings.SupplierPreferenceAsWritten`).
   */
  function PreferredCategory(n: nat): (r: Option<PyValue>)
    ensures r.None? <==> n == 0
    ensures r.Some? ==> !r.value.PyStr? && r.value.number == n
  {
    if n == 0 then None else Some(PyInt(n))
  }

  /** The corrected preference: the decimal text of the number, as the cache stores a category. */
  function PreferredCategoryAsText(n: nat): (r: Option<PyValue>)
    ensures r.None? <==> n == 0
    ensures r.Some? ==> r.value.PyStr? && (forall i :: 0 <= i < |r.value.text| ==> IsDigit(r.value.text[i]))
                        && ParseNat(r.value.text) == n
  {
    ParseNatToString(n);
    if n == 0 then None else Some(PyStr(NatToString(n)))
  }

  /** The shared resolver, with a preferred category and exact (payee, contact) mappings. */
  function SharedConfig(preferred: nat, mappings: seq<(string, string)>): Config<PyValue>
  {
    Config(CommaReversal, Normalize, PreferredCategory(preferred), ExactMappings(mappings))
  }

  /** The shared resolver with the preference compared as text. */
  function SharedConfigCorrected(preferred: nat, mappings: seq<(string, string)>): Config<PyValue>
  {
    Config(CommaReversal, Normalize, PreferredCategoryAsText(preferred), ExactMappings(mappings))
  }

  /** `find_contact_by_name(db, payee, prefer_category, custom_mappings)` of the shared utilities. */
  function FindContact(contacts: seq<Contact<PyValue>>, payee: string, preferred: nat, mappings: seq<(string, string)>): (r: Option<Contact<PyValue>>)
    ensures r.Some? ==> r.value in contacts
    ensures payee == "" ==> r.None?
  {
    Resolve(SharedConfig(preferred, mappings), contacts, payee)
  }

  /** The shared contact search with the preference compared as text. */
  function FindContactCorrected(contacts: seq<Contact<PyValue>>, payee: string, preferred: nat, mappings: seq<(string, string)>): (r: Option<Contact<PyValue>>)
    ensures r.Some? ==> r.value in contacts
    ensures payee == "" ==> r.None?
  {
    Resolve(SharedConfigCorrected(preferred, mappings), contacts, payee)
  }

  /** Every category is text or missing, as for every contact read from the cache. */
  ghost predicate TextCategories(contacts: seq<Contact<PyValue>>)
  {
    forall j :: 0 <= j < |contacts| ==> contacts[j].category.None? || contacts[j].category.value.PyStr?
  }

  /**
   * The contacts read back from a table of written contact rows all carry
   * their category as text, so they meet the condition of the lemmas below.
   */
  lemma CachedContactsHaveTextCategories(raw: seq<RawContact>)
    ensures TextCategories(AllContacts(seq(|raw|, i requires 0 <= i < |raw| => ContactRow(raw[i]))))
  {
    var table := seq(|raw|, i requires 0 <= i < |raw| => ContactRow(raw[i]));
    var r := AllContacts(table);
    forall j | 0 <= j < |r|
      ensures r[j].category.None? || r[j].category.value.PyStr?
    {
      assert r[j] in multiset(r);
      assert r[j] in table;
      var i :| 0 <= i < |table| && table[i] == r[j];
      CachedCategoriesAreText(raw[i]);
    }
  }

  /**
   * As written, the preference changes nothing: over contacts whose
   * categories are text, the search with a preferred category finds the
   * same contact as the search without one.
   */
  lemma IntPreferenceIsIgnored(contacts: seq<Contact<PyValue>>, payee: string, preferred: nat, mappings: seq<(string, string)>)
    requires TextCategories(contacts)
    ensures FindContact(contacts, payee, preferred, mappings) == FindContact(contacts, payee, 0, mappings)
  {
    var cfg := SharedConfig(preferred, mappings);
    assert SharedConfig(0, mappings) == cfg.(preferred := None);
    forall j | 0 <= j < |contacts|
      ensures Bonus(cfg, contacts[j]) == Bonus(cfg.(preferred := None), contacts[j])
    {
    }
    SameBonusSameContact(cfg, None, contacts, payee);
  }

  /**
   * The correction changes the result only when some contact is cached
   * under the preferred category: otherwise both searches agree.
   */
  lemma CorrectionNeedsPreferredContact(contacts: seq<Contact<PyValue>>, payee: string, preferred: nat, mappings: seq<(string, string)>)
    requires TextCategories(contacts)
    requires forall j :: 0 <= j < |contacts| ==> contacts[j].category != PreferredCategoryAsText(preferred)
    ensures FindContactCorrected(contacts, payee, preferred, mappings) == FindContact(contacts, payee, preferred, mappings)
  {
    var cfg := SharedConfigCorrected(preferred, mappings);
    assert SharedConfig(preferred, mappings) == cfg.(preferred := PreferredCategory(preferred));
    forall j | 0 <= j < |contacts|
      ensures Bonus(cfg, contacts[j]) == Bonus(cfg.(preferred := PreferredCategory(preferred)), contacts[j])
    {
    }
    SameBonusSameContact(cfg, PreferredCategory(preferred), contacts, payee);
  }

  /**
   * Corrected, with no mappings, a candidate cached under the preferred
   * category means the contact found is one of that category.
   */
  lemma PreferredContactWins(contacts: seq<Contact<PyValue>>, payee: string, preferred: nat, k: nat)
    requires payee != "" && preferred > 0 && k < |contacts|
    requires contacts[k].category == Some(PyStr(NatToString(preferred)))
    requires var cfg := SharedConfigCorrected(preferred, []);
      |Words(Query(cfg, payee))| < 9990 && Score(cfg, Alternatives(cfg, payee), Words(Query(cfg, payee)), contacts[k]).Some?
    ensures FindContactCorrected(contacts, payee, preferred, []).Some?
    ensures FindContactCorrected(contacts, payee, preferred, []).value.category == Some(PyStr(NatToString(preferred)))
  {
    var cfg := SharedConfigCorrected(preferred, []);
    assert OverrideHit(cfg, contacts, Query(cfg, payee)).None?;
    ResolvePrefersCategory(cfg, contacts, payee, k);
  }

  /**
   * When every mapping names the same contact, a payee that normalises
   * like one of the mapped names is linked to a contact normalised like
   * that target, if the cache holds one.
   */
  lemma MappedToOne(contacts: seq<Contact<PyValue>>, payee: string, preferred: nat, mappings: seq<(string, string)>,
                    target: string, k: nat, c: Contact<PyValue>)
    requires payee != "" && k < |mappings|
    requires forall i :: 0 <= i < |mappings| ==> mappings[i].1 == target
    requires Normalize(Strip(Lower(payee))) == Normalize(mappings[k].0)
    requires c in contacts && Normalize(c.name) == Normalize(target)
    ensures FindContact(contacts, payee, preferred, mappings).Some?
    ensures Normalize(FindContact(contacts, payee, preferred, mappings).value.name) == Normalize(target)
  {
    MappingDecides(SharedConfig(preferred, mappings), contacts, payee, k, c);
  }

  /** Why a script stops before it plans anything. */
  datatype SetupError =
    | NoAccountingType(term: string)
    | MissingCostCentres(names: seq<string>)
    | MissingContact(name: string)

  /** `find_accounting_type` of the base workflow: the first type whose name contains the term. */
  function AccountingTypeFor(ats: seq<AccountingType>, term: string): (r: Result<AccountingType, SetupError>)
    ensures r.Success? ==> r.value in ats && Contains(r.value.name, term)
    ensures r.Failure? <==> forall j :: 0 <= j < |ats| ==> !Contains(ats[j].name, term)
    ensures r.Failure? ==> r.error == NoAccountingType(term)
  {
    match FindAccountingType(ats, term)
    case None => Failure(NoAccountingType(term))
    case Some(at) => Success(at)
  }

  /** The accounting type and the one cost centre a script books every item to. */
  datatype Fixed = Fixed(accountingType: AccountingType, costCentre: CostCentre)

  /** A plan item for transaction `t`, with the payee the builders read ("Unknown" when absent). */
  function Item(t: Transaction, number: string, at: AccountingType, cc: Option<CostCentre>,
                contact: Option<Contact<PyValue>>, description: Option<string>, donation: Option<DonationType>): (item: PlanItem)
    ensures item.transactionId == t.id && item.amount == t.amount && item.voucherNumber == number
  {
    PlanItem(t.id, t.valueDate, t.amount, t.purpose, PayeeName(t), cc, contact, number, at, description, donation)
  }
}

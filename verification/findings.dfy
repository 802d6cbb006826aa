/**
 * Places where the code as written does something its authors evidently
 * did not mean. Each finding has the behaviour as written, shown on a
 * concrete input, next to the corrected behaviour the rest of the model
 * uses.
 */
module Findings {
  import opened Wrappers
  import opened Text
  import opened Records
  import opened NameNormalizer
  import opened ContactMatching
  import opened Payload
  import opened Cache
  import opened CostCentres
  import opened VoucherPlan
  import opened ScriptSupport
  import Ulp
  import Salary
  import Outgoing
  import Transfers
  import Router
  import Polyfills

  // -----------------------------------------------------------------------
  // 1. The root ÜLP filter looks for a capital Ü in a lower-cased purpose

  const AllowancePurpose := Transaction("t", -5000, "Übungsleiterpauschale", None, "2024-01-31", 100)

  /**
   * The second test can never hold, so the filter as written keeps
   * exactly the purposes marked "ÜLP"; a purpose that spells the
   * allowance out is dropped.
   */
  lemma RootUlpFilterAsWritten(t: Transaction)
    ensures Ulp.SelectsRoot(t) <==> Contains(t.purpose, "ÜLP")
    ensures !Ulp.SelectsRoot(AllowancePurpose)
  {
    Ulp.NoCapitalUmlautAfterLower(t.purpose);
    Ulp.NoCapitalUmlautAfterLower(AllowancePurpose.purpose);
    NotContainsWithoutChar(AllowancePurpose.purpose, "ÜLP", 1);
  }

  /** The corrected filter keeps every purpose that names the allowance. */
  lemma RootUlpFilterCorrected(t: Transaction)
    requires Contains(t.purpose, "Übungsleiterpauschale")
    ensures Ulp.SelectsRootCorrected(t)
    ensures Ulp.SelectsRootCorrected(AllowancePurpose) && !Ulp.SelectsRoot(AllowancePurpose)
  {
    LowerAllowance();
    LowerKeepsContains(t.purpose, "Übungsleiterpauschale");
    ContainsSelf("Übungsleiterpauschale");
    LowerKeepsContains(AllowancePurpose.purpose, "Übungsleiterpauschale");
    RootUlpFilterAsWritten(AllowancePurpose);
  }

  lemma LowerAllowance()
    ensures Lower("Übungsleiterpauschale") == "übungsleiterpauschale"
  {
    LowerOf("Übungsleiterpauschale", "übungsleiterpauschale");
  }

  // -----------------------------------------------------------------------
  // 2. The root Kontaktmission script searches for a mis-encoded name

  /** The accounting-type name of the root Kontaktmission script: UTF-8 read back as Latin-1. */
  const GarbledDonationsTerm := "Zuwendungen, Spenden f" + "\U{00C3}\U{00BC}r kirchliche, " + "religi\U{00C3}\U{00B6}se und "
                                + "gemeinn\U{00C3}\U{00BC}tzige Zwecke"

  /**
   * No correctly stored name contains the garbled term, so the root
   * script stops at setup even when the donations-paid type exists; the
   * search with the intended spelling finds that type.
   */
  lemma RootKontaktSetupAsWritten(ats: seq<AccountingType>, j: nat)
    requires forall k :: 0 <= k < |ats| ==> '\U{00C3}' !in ats[k].name
    requires j < |ats| && Contains(ats[j].name, Outgoing.DonationsPaidTerm)
    ensures AccountingTypeFor(ats, GarbledDonationsTerm) == Failure(NoAccountingType(GarbledDonationsTerm))
    ensures AccountingTypeFor(ats, Outgoing.DonationsPaidTerm).Success?
  {
    assert GarbledDonationsTerm[22] == '\U{00C3}';
    forall k | 0 <= k < |ats|
      ensures !Contains(ats[k].name, GarbledDonationsTerm)
    {
      NotContainsWithoutChar(ats[k].name, GarbledDonationsTerm, 22);
    }
  }

  // -----------------------------------------------------------------------
  // 3. The transit scripts book every voucher as income

  /**
   * With `is_income_voucher` fixed to True, an outgoing transfer becomes a
   * debit voucher with the contact as customer.
   */
  lemma TransitDirectionAsWritten(ctx: Transfers.TransitContext, t: Transaction, number: string, i: nat, client: string)
    requires t.amount < 0
    ensures var p := BuildPayload(Transfers.TransitBuild(ctx)(t, number, i), client, Transfers.TransitIsIncomeAsWritten);
            p.creditDebit == 'D' && p.customerId == Some(ctx.contact.id) && p.supplierId.None?
  {
  }

  /**
   * With the direction taken from the sign, as the scripts describe it,
   * money coming in is a debit voucher from a customer and money going out
   * a credit voucher to a supplier, the fixed contact either way.
   */
  lemma TransitDirectionCorrected(ctx: Transfers.TransitContext, t: Transaction, number: string, i: nat, client: string)
    ensures var p := BuildPayload(Transfers.TransitBuild(ctx)(t, number, i), client, Transfers.TransitIsIncome(t));
            (p.creditDebit == 'D' <==> t.amount > 0)
            && LinkageOf(p) == Linkage(t.amount > 0, Some(ctx.contact.id), None)
  {
  }

  // -----------------------------------------------------------------------
  // 4. The old salary script replaces mis-encoded sharp s literals

  /**
   * The old script's normaliser leaves a sharp s in place, so "Weiß" and
   * "Weiss" normalise differently there; the working normaliser turns
   * every sharp s into "ss".
   */
  lemma GarbledSharpSKept()
    ensures NormalizeGarbled("ß") == "ß"
    ensures forall s :: 'ß' !in Normalize(s)
  {
    var a := DropMarks(Nfkd("ß"));
    SharpSHasNoMarks();
    ReplaceAbsent(a, "\U{221A}\U{00FC}", "ss");
    ReplaceAbsent(a, "\U{00B7}\U{222B}\U{00FB}", "SS");
    SharpSIsOneWord();
  }

  lemma SharpSHasNoMarks()
    ensures DropMarks(Nfkd("ß")) == "ß"
  {
    assert Decompose('ß') == "ß";
    assert Nfkd("ß") == "ß";
  }

  lemma SharpSIsOneWord()
    ensures Lower(Collapse(PunctToSpace("ß"))) == "ß"
  {
    assert PunctToSpace("ß") == "ß";
    assert !IsSpace('ß');
    assert RunLength("ß"[1..]) == 0;
    assert RunLength("ß") == 1;
    assert "ß"[1..] == "" && "ß"[..1] == "ß";
    assert Words("ß") == ["ß"];
    assert LowerChar('ß') == 'ß';
  }

  // -----------------------------------------------------------------------
  // 5. A numeric category preference never meets a cached category

  /**
   * Every contact read from the cache carries its category as text, so the
   * preference bonus as written is never given; compared as the cache
   * stores it, a supplier gets it.
   */
  lemma SupplierPreferenceAsWritten(c: RawContact, mappings: seq<(string, string)>)
    ensures Bonus(SharedConfig(3, mappings), ContactRow(c)) == 0
    ensures c.categoryId == Some(PyInt(3)) ==> Bonus(SharedConfigCorrected(3, mappings), ContactRow(c)) == 10000
  {
    CachedCategoriesAreText(c);
  }

  // -----------------------------------------------------------------------
  // 6. The refactored salary mapping never matches the bank's spelling

  /** The bank's spelling of the payee, lower-cased and stripped. */
  const GwendolynSearchName := "gwendolyn ruth dewhurst"

  /**
   * The mapping as written needs "gwendolyn dewhurst" inside the search
   * name, which the bank's spelling with the middle name never contains;
   * the corrected rule `Salary.SalaryRules[0]` applies.
   */
  lemma SalaryMappingsAsWritten()
    ensures !MappingRules(SalaryMappings)[0].applies(GwendolynSearchName)
    ensures Salary.SalaryRules[0].applies(GwendolynSearchName)
  {
    MiddleNameBreaksTheMapping();
    BothNamesPresent();
  }

  lemma BothNamesPresent()
    ensures Contains(GwendolynSearchName, "gwendolyn") && Contains(GwendolynSearchName, "dewhurst")
  {
    FirstNamePresent();
    LastNamePresent();
  }

  lemma FirstNamePresent()
    ensures Contains("gwendolyn ruth dewhurst", "gwendolyn")
  {
    ContainsAtIndex("gwendolyn ruth dewhurst", "gwendolyn", 0);
  }

  lemma LastNamePresent()
    ensures Contains("gwendolyn ruth dewhurst", "dewhurst")
  {
    ContainsAtIndex("gwendolyn ruth dewhurst", "dewhurst", 15);
  }

  lemma MiddleNameBreaksTheMapping()
    ensures !Contains(GwendolynSearchName, "gwendolyn dewhurst")
  {
    OnlyLeadingG();
    NotAtStart();
    NotContainsAnchoredAtStart(GwendolynSearchName, "gwendolyn dewhurst");
  }

  lemma OnlyLeadingG()
    ensures forall i :: 1 <= i < |GwendolynSearchName| ==> GwendolynSearchName[i] != 'g'
  {
  }

  lemma NotAtStart()
    ensures !IsPrefix("gwendolyn dewhurst", GwendolynSearchName)
  {
    assert GwendolynSearchName[10] != "gwendolyn dewhurst"[10];
  }

  // -----------------------------------------------------------------------
  // 7. The router's stop() removes a listener that was never added

  /**
   * As written, a stopped router still handles `popstate`, and starting
   * it again adds a second listener; the corrected pair leaves no
   * listener after `stop()` (`Router.CorrectedStopSilencesPopState`).
   */
  lemma StopAsWritten(r: Router.RouterState, location: string, later: string, throws: Router.Handler -> bool)
    requires r.Valid() && !r.isStarted && r.popstateListeners == []
    ensures var stopped := Router.Stop(Router.Start(r, location, throws).router);
            |Router.PopState(stopped, later, throws).signals| >= 1
            && |Router.Start(stopped, location, throws).router.popstateListeners| == 2
  {
  }

  // -----------------------------------------------------------------------
  // 8. The replaceAll polyfill with an empty search string

  /**
   * Splitting at "" gives the characters, so the polyfill puts the
   * replacement only between them; the language also puts it before the
   * first and after the last.
   */
  lemma EmptySearchAsWritten()
    ensures Polyfills.ReplaceAll("ab", "", "-") == "a-b"
    ensures Polyfills.ReplaceAllCorrected("ab", "", "-") == "-a-b-"
  {
    assert Polyfills.JsSplit("ab", "") == ["a", "b"];
  }
}

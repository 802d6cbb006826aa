/**
 * Cost-centre lookup by payee name (`find_cost_centre_by_name` in the
 * shared voucher utilities and in the root salary and ÜLP scripts) and by
 * exact name (the donation and leisure scripts).
 *
 * The substring resolver lower-cases and strips the payee, then tries a
 * list of special rules in order: a rule that applies to the search name
 * returns the first cost centre whose lower-cased name it accepts, and a
 * rule that finds nothing falls through to the next one. When no rule
 * returns a cost centre, the first cost centre whose lower-cased, stripped
 * name contains the search name or is contained in it is returned.
 */
module CostCentres {
  import opened Wrappers
  import opened Text
  import opened Records

  /** A hard-coded rule: when the search name passes `applies`, the first cost centre whose lower-cased name passes `accepts`. */
  datatype SpecialRule = SpecialRule(applies: string -> bool, accepts: string -> bool)

  /** The search name: lower-cased, then stripped. */
  function SearchName(payee: string): string
  {
    Strip(Lower(payee))
  }

  /** The rule finds a cost centre for this search name. */
  ghost predicate RuleHits(rule: SpecialRule, ccs: seq<CostCentre>, q: string)
  {
    rule.applies(q) && exists j :: 0 <= j < |ccs| && rule.accepts(Lower(ccs[j].name))
  }

  /** The cost centres a rule accepts, as a test on rows. */
  function Accepted(rule: SpecialRule): CostCentre -> bool
  {
    (cc: CostCentre) => rule.accepts(Lower(cc.name))
  }

  /**
   * The special rules, tried in order. The first rule that finds a cost
   * centre decides, with the first cost centre it accepts.
   */
  function SpecialHit(ccs: seq<CostCentre>, rules: seq<SpecialRule>, q: string): (r: Option<CostCentre>)
    ensures r.Some? ==> r.value in ccs
  {
    if |rules| == 0 then None
    else
      var hit := First(ccs, Accepted(rules[0]));
      if rules[0].applies(q) && hit.Some? then hit
      else SpecialHit(ccs, rules[1..], q)
  }

  /**
   * The special rules give a cost centre exactly when some rule hits, and
   * then it is the first cost centre accepted by the first rule that hits.
   */
  lemma {:induction false} SpecialHitIsFirstHit(ccs: seq<CostCentre>, rules: seq<SpecialRule>, q: string)
    ensures SpecialHit(ccs, rules, q).Some? ==>
              exists k :: 0 <= k < |rules| && RuleHits(rules[k], ccs, q)
                          && (forall i :: 0 <= i < k ==> !RuleHits(rules[i], ccs, q))
                          && SpecialHit(ccs, rules, q) == First(ccs, Accepted(rules[k]))
    ensures SpecialHit(ccs, rules, q).None? <==> forall k :: 0 <= k < |rules| ==> !RuleHits(rules[k], ccs, q)
  {
    if |rules| > 0 {
      var rest := rules[1..];
      SpecialHitIsFirstHit(ccs, rest, q);
      assert forall k :: 1 <= k < |rules| ==> rules[k] == rest[k - 1];
      var hit := First(ccs, Accepted(rules[0]));
      if rules[0].applies(q) && hit.Some? {
        assert Accepted(rules[0])(hit.value);
        assert RuleHits(rules[0], ccs, q);
      } else {
        assert !RuleHits(rules[0], ccs, q);
        if SpecialHit(ccs, rest, q).Some? {
          var k :| 0 <= k < |rest| && RuleHits(rest[k], ccs, q)
                   && (forall i :: 0 <= i < k ==> !RuleHits(rest[i], ccs, q))
                   && SpecialHit(ccs, rest, q) == First(ccs, Accepted(rest[k]));
          assert RuleHits(rules[k + 1], ccs, q);
        }
      }
    }
  }

  /** The cost centre names that contain the search name or are contained in it. */
  predicate Related(q: string, cc: CostCentre)
  {
    var n := Strip(Lower(cc.name));
    Contains(n, q) || Contains(q, n)
  }

  /** The default search: the first cost centre related to the search name. */
  function DefaultMatch(ccs: seq<CostCentre>, q: string): (r: Option<CostCentre>)
    ensures r.Some? ==> exists k :: 0 <= k < |ccs| && ccs[k] == r.value && Related(q, ccs[k])
                          && forall j :: 0 <= j < k ==> !Related(q, ccs[j])
    ensures r.None? <==> forall j :: 0 <= j < |ccs| ==> !Related(q, ccs[j])
  {
    First(ccs, (cc: CostCentre) => Related(q, cc))
  }

  /** `find_cost_centre_by_name`, with the special rules of the calling script. */
  function FindCostCentre(ccs: seq<CostCentre>, rules: seq<SpecialRule>, payee: string): (r: Option<CostCentre>)
    ensures payee == "" ==> r.None?
    ensures r.Some? ==> r.value in ccs
  {
    if payee == "" then None
    else
      var q := SearchName(payee);
      match SpecialHit(ccs, rules, q)
      case Some(cc) => Some(cc)
      case None => DefaultMatch(ccs, q)
  }

  // -----------------------------------------------------------------------
  // The rule sets of the scripts

  /**
   * The custom mappings of the shared resolver, in insertion order: the
   * search term must occur in the search name, the lower-cased target in
   * the cost centre's lower-cased name.
   */
  function MappingRules(mappings: seq<(string, string)>): (rules: seq<SpecialRule>)
    ensures |rules| == |mappings|
  {
    seq(|mappings|, i requires 0 <= i < |mappings| =>
      SpecialRule(q => Contains(q, mappings[i].0), n => Contains(n, Lower(mappings[i].1))))
  }

  /** The salary script's cost-centre mappings. */
  const SalaryMappings: seq<(string, string)> := [
    ("gwendolyn dewhurst", "gwen dewhurst"),
    ("samuel jeanrichard", "samuel jeanrichard (intern)")
  ]

  /** The ÜLP script's cost-centre mappings, passed only for ÜLP transactions. */
  function UlpMappings(isUlp: bool): seq<(string, string)>
  {
    if isUlp then [("tobias zimmermann", "tobias zimmermann (ülp)")] else []
  }

  /** The old salary script: a cost centre named exactly "gwen dewhurst" for Gwendolyn Dewhurst. */
  const GwenRule := SpecialRule(
    q => Contains(q, "gwendolyn") && Contains(q, "dewhurst"),
    n => n == "gwen dewhurst")

  /** The salary scripts: the internal Samuel JeanRichard cost centre. */
  const SamuelRule := SpecialRule(
    q => Contains(q, "samuel") && (Contains(q, "jeanrichard") || Contains(q, "jean")),
    n => Contains(n, "samuel jeanrichard") && Contains(n, "intern"))

  /** The root ÜLP script: Tobias Zimmermann's ÜLP cost centre. */
  const TobiasRule := SpecialRule(
    q => Contains(q, "tobias zimmermann"),
    n => Contains(n, "tobias zimmermann") && Contains(n, "ülp"))

  const OldSalaryRules := [GwenRule, SamuelRule]
  const RootSalaryRules := [SamuelRule]

  /** The root ÜLP script applies the Tobias rule only to ÜLP transactions. */
  function RootUlpRules(isUlp: bool): seq<SpecialRule>
  {
    if isUlp then [TobiasRule] else []
  }

  // -----------------------------------------------------------------------
  // Exact-name lookup

  /** The first cost centre whose name equals `name` exactly; None for an empty name. */
  function FindByExactName(ccs: seq<CostCentre>, name: string): (r: Option<CostCentre>)
    ensures name == "" ==> r.None?
    ensures r.Some? ==> r.value.name == name
    ensures r.Some? ==> exists k :: 0 <= k < |ccs| && ccs[k] == r.value && forall j :: 0 <= j < k ==> ccs[j].name != name
    ensures name != "" ==> (r.None? <==> forall j :: 0 <= j < |ccs| ==> ccs[j].name != name)
  {
    if name == "" then None else First(ccs, (cc: CostCentre) => cc.name == name)
  }

  /** The leisure script's lookup: the first cost centre whose stripped name equals `name`. */
  function FindByStrippedName(ccs: seq<CostCentre>, name: string): (r: Option<CostCentre>)
    ensures r.Some? ==> Strip(r.value.name) == name
    ensures r.None? <==> forall j :: 0 <= j < |ccs| ==> Strip(ccs[j].name) != name
  {
    First(ccs, (cc: CostCentre) => Strip(cc.name) == name)
  }

  // -----------------------------------------------------------------------
  // Properties

  /** With no special rule finding anything, the result is the default search. */
  lemma NoRuleMeansDefault(ccs: seq<CostCentre>, rules: seq<SpecialRule>, payee: string)
    requires payee != ""
    requires forall k :: 0 <= k < |rules| ==> !RuleHits(rules[k], ccs, SearchName(payee))
    ensures FindCostCentre(ccs, rules, payee) == DefaultMatch(ccs, SearchName(payee))
  {
    SpecialHitIsFirstHit(ccs, rules, SearchName(payee));
  }

  /** A name without surrounding space is searched for in lower case. */
  lemma SearchNameOfTrimmed(name: string)
    requires |name| == 0 || (!IsSpace(name[0]) && !IsSpace(name[|name| - 1]))
    ensures SearchName(name) == Lower(name)
  {
    if |name| > 0 {
      LowerCharKeepsSpace(name[0]);
      LowerCharKeepsSpace(name[|name| - 1]);
    }
    StripByIdentity(Lower(name), IsSpace);
  }

  /** Without mappings, a lookup by a fixed name is the default search for its lower-cased form. */
  lemma PlainLookup(ccs: seq<CostCentre>, name: string)
    requires |name| > 0 && !IsSpace(name[0]) && !IsSpace(name[|name| - 1])
    ensures FindCostCentre(ccs, [], name) == DefaultMatch(ccs, Lower(name))
  {
    SearchNameOfTrimmed(name);
  }

  /**
   * A special rule that finds a cost centre wins over the default search,
   * unless an earlier rule already found one.
   */
  lemma HittingRuleDecides(ccs: seq<CostCentre>, rules: seq<SpecialRule>, payee: string, k: nat)
    requires payee != "" && k < |rules|
    requires RuleHits(rules[k], ccs, SearchName(payee))
    requires forall i :: 0 <= i < k ==> !RuleHits(rules[i], ccs, SearchName(payee))
    ensures FindCostCentre(ccs, rules, payee) == First(ccs, Accepted(rules[k]))
  {
    var q := SearchName(payee);
    SpecialHitIsFirstHit(ccs, rules, q);
    var r := SpecialHit(ccs, rules, q);
    assert r.Some?;
    var k' :| 0 <= k' < |rules| && RuleHits(rules[k'], ccs, q)
              && (forall i :: 0 <= i < k' ==> !RuleHits(rules[i], ccs, q))
              && r == First(ccs, Accepted(rules[k']));
    assert k' == k;
  }

  /**
   * A cost centre whose name is blank is related to every search name, so
   * the default search never comes back empty-handed past it.
   */
  lemma BlankNameMatchesAnything(ccs: seq<CostCentre>, q: string, j: nat)
    requires j < |ccs| && Strip(Lower(ccs[j].name)) == ""
    ensures DefaultMatch(ccs, q).Some?
  {
    ContainsEmpty(q);
    assert Related(q, ccs[j]);
  }

  /** In the Samuel rule, "jeanrichard" adds nothing: "jean" is part of it. */
  lemma SamuelRuleNeedsOnlyJean(q: string)
    ensures SamuelRule.applies(q) <==> Contains(q, "samuel") && Contains(q, "jean")
  {
    if Contains(q, "jeanrichard") {
      assert IsPrefix("jean", "jeanrichard");
      ContainsPrefix("jean", "jeanrichard");
      ContainsTrans(q, "jeanrichard", "jean");
    }
  }

  /** Without the ÜLP flag the root ÜLP lookup is the plain default search. */
  lemma RootUlpRuleNeedsFlag(ccs: seq<CostCentre>, payee: string)
    requires payee != ""
    ensures FindCostCentre(ccs, RootUlpRules(false), payee) == DefaultMatch(ccs, SearchName(payee))
  {
  }

  /** The refactored ÜLP lookup without the flag is the plain default search too. */
  lemma UlpMappingsNeedFlag(ccs: seq<CostCentre>, payee: string)
    requires payee != ""
    ensures FindCostCentre(ccs, MappingRules(UlpMappings(false)), payee) == DefaultMatch(ccs, SearchName(payee))
  {
    assert MappingRules(UlpMappings(false)) == [];
  }

  /**
   * Lookups return the first match in list order: cost centres appended
   * after a hit do not change the result.
   */
  lemma ExactNameKeepsFirst(ccs: seq<CostCentre>, more: seq<CostCentre>, name: string)
    requires FindByExactName(ccs, name).Some?
    ensures FindByExactName(ccs + more, name) == FindByExactName(ccs, name)
  {
    FirstConcat(ccs, more, (cc: CostCentre) => cc.name == name);
  }

  /** The same holds for the default substring search. */
  lemma DefaultKeepsFirst(ccs: seq<CostCentre>, more: seq<CostCentre>, q: string)
    requires DefaultMatch(ccs, q).Some?
    ensures DefaultMatch(ccs + more, q) == DefaultMatch(ccs, q)
  {
    FirstConcat(ccs, more, (cc: CostCentre) => Related(q, cc));
  }
}

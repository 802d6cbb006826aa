/**
 * Fuzzy contact resolution (`find_contact_by_name` in the shared voucher
 * utilities and its copies in the donation and old salary scripts).
 *
 * One resolver, parameterised by the four points where the copies differ:
 * how search alternatives are derived from the payee, which normaliser is
 * used, which category earns the bonus, and which override runs before
 * scoring. The category type `C` is a parameter so that the type of the
 * stored category id can be chosen by the caller.
 *
 * Scoring, per contact with a non-empty name, in contact-list order:
 *   exact:   an alternative equals the normalised name      -> 1000 - i
 *   partial: an alternative and the name contain each other -> 500 - i
 *   words:   shared words (+10 if the contact's words are a subset of
 *            the query's), zeroed when both sides have two or more words
 *            and neither side's first word occurs in the other
 * (i is the position of the first alternative that matched), plus 10000
 * when the contact's category is the preferred one. The result is the
 * first contact of highest priority: a stable sort in descending order.
 */
module ContactMatching {
  import opened Wrappers
  import opened Text
  import opened NameNormalizer
  import opened Ranking

  /** A contact as the cache hands it out. */
  datatype Contact<C> = Contact(id: string, name: string, category: Option<C>)

  /** How the payee is expanded into search alternatives. */
  datatype AlternativeRule =
    | CommaReversal   // "Last, First" also searched as "First Last"
    | DonorSplitting  // additionally "first + last word" around "und", and the first half of long names

  /** What runs before scoring. */
  datatype Override =
    | NoOverride
    | ExactMappings(pairs: seq<(string, string)>)  // (payee, contact) pairs in insertion order
    | GwenDewhurst                                 // the old salary script's hard-coded rule

  datatype Config<C> = Config(
    alternatives: AlternativeRule,
    norm: string -> string,
    preferred: Option<C>,
    override: Override)

  /** The normalised search name: lower-cased, then stripped, then normalised. */
  function Query<C(==)>(cfg: Config<C>, payee: string): string
  {
    cfg.norm(Strip(Lower(payee)))
  }

  /** "Last, First" read as "First Last", when the raw payee has exactly one comma. */
  function Reversal<C(==)>(cfg: Config<C>, payee: string): (r: seq<string>)
    ensures |r| <= 1
    ensures |r| == 1 <==> |SplitOn(payee, ",")| == 2
  {
    var parts := SplitOn(payee, ",");
    if ',' in payee && |parts| == 2 then
      [cfg.norm(Strip(parts[1]) + " " + Strip(parts[0]))]
    else
      assert ',' !in payee ==> |parts| == 1 by {
        if ',' !in payee {
          SplitWithoutSeparator(payee, ',');
        }
      }
      []
  }

  lemma {:induction false} SplitWithoutSeparator(s: string, c: char)
    requires c !in s
    ensures SplitOn(s, [c]) == [s]
    decreases |s|
  {
    if |s| >= 1 {
      assert s[0] in s;
      assert s[..1] != [c];
      SplitWithoutSeparator(s[1..], c);
      assert [s[0]] + s[1..] == s;
    }
  }

  /** Position of the first occurrence of `w` in `ws`. */
  function IndexOf(ws: seq<string>, w: string): (k: nat)
    requires w in ws
    ensures k < |ws| && ws[k] == w
    ensures forall j :: 0 <= j < k ==> ws[j] != w
  {
    if ws[0] == w then 0 else 1 + IndexOf(ws[1..], w)
  }

  /** "First Last" for "First und Second Last", when "und" sits strictly inside the name. */
  function UndAlternative(ws: seq<string>): (r: seq<string>)
    ensures |r| <= 1
  {
    if |ws| >= 3 && "und" in ws then
      var k := IndexOf(ws, "und");
      if 0 < k < |ws| - 1 then [ws[0] + " " + ws[|ws| - 1]] else []
    else []
  }

  /** The first half of the words of a name with four or more words. */
  function HalfAlternative(ws: seq<string>): (r: seq<string>)
    ensures |r| <= 1
  {
    if |ws| >= 4 then [Join(ws[..|ws| / 2], " ")] else []
  }

  /** The search alternatives, most preferred first. */
  function Alternatives<C(==)>(cfg: Config<C>, payee: string): (alts: seq<string>)
    ensures 1 <= |alts| <= 4
    ensures Query(cfg, payee) in alts
  {
    var q := Query(cfg, payee);
    var base := [q] + Reversal(cfg, payee);
    match cfg.alternatives
    case CommaReversal => base
    case DonorSplitting =>
      var ws := Words(q);
      UndAlternative(ws) + HalfAlternative(ws) + base
  }

  /** Python's `set(words)`. */
  function WordSet(ws: seq<string>): set<string>
  {
    set w | w in ws
  }

  /** The word-overlap score of the third tier. */
  function WordScore(sw: seq<string>, cw: seq<string>): int
  {
    if |sw| == 0 || |cw| == 0 then 0
    else
      var s := WordSet(sw);
      var k := WordSet(cw);
      var common := s * k;
      var score := |common| + (if k <= s then 10 else 0);
      if |s| >= 2 && |k| >= 2 && |common| > 0 && sw[0] !in cw && cw[0] !in sw then 0 else score
  }

  /** The tier score of a normalised contact name, before the category bonus. */
  function BaseScore(alts: seq<string>, sw: seq<string>, cn: string): Option<int>
  {
    match Find(alts, a => a == cn)
    case Some(i) => Some(1000 - i)
    case None =>
      match Find(alts, a => Contains(cn, a) || Contains(a, cn))
      case Some(i) => Some(500 - i)
      case None =>
        var s := WordScore(sw, Words(cn));
        if s > 0 then Some(s) else None
  }

  function Bonus<C(==)>(cfg: Config<C>, c: Contact<C>): int
  {
    if cfg.preferred.Some? && c.category == cfg.preferred then 10000 else 0
  }

  /** The priority of a contact, or None when it is not a candidate. */
  function Score<C(==)>(cfg: Config<C>, alts: seq<string>, sw: seq<string>, c: Contact<C>): Option<int>
  {
    if c.name == "" then None
    else
      match BaseScore(alts, sw, cfg.norm(c.name))
      case None => None
      case Some(b) => Some(b + Bonus(cfg, c))
  }

  /** The scoring function of one search, as a value. */
  function ScoreOf<C(==)>(cfg: Config<C>, alts: seq<string>, sw: seq<string>): Contact<C> -> Option<int>
  {
    c => Score(cfg, alts, sw, c)
  }

  /** The custom exact mappings, tried in order; a mapping whose contact is missing falls through to the next. */
  function MappingHit<C(==)>(norm: string -> string, pairs: seq<(string, string)>, contacts: seq<Contact<C>>, q: string): (r: Option<Contact<C>>)
    ensures r.Some? ==> r.value in contacts
    ensures r.Some? ==> exists k :: 0 <= k < |pairs| && norm(pairs[k].0) == q && norm(r.value.name) == norm(pairs[k].1)
    ensures r.None? ==> forall k, c :: 0 <= k < |pairs| && norm(pairs[k].0) == q && c in contacts ==> norm(c.name) != norm(pairs[k].1)
  {
    if |pairs| == 0 then None
    else
      var rest := MappingHit(norm, pairs[1..], contacts, q);
      assert forall k :: 1 <= k < |pairs| ==> pairs[k] == pairs[1..][k - 1];
      if norm(pairs[0].0) == q then
        match First(contacts, (c: Contact<C>) => norm(c.name) == norm(pairs[0].1))
        case Some(c) => Some(c)
        case None => rest
      else rest
  }

  /** The override that runs before scoring, if the configuration has one. */
  function OverrideHit<C(==)>(cfg: Config<C>, contacts: seq<Contact<C>>, q: string): (r: Option<Contact<C>>)
    ensures r.Some? ==> r.value in contacts
  {
    match cfg.override
    case NoOverride => None
    case ExactMappings(pairs) => MappingHit(cfg.norm, pairs, contacts, q)
    case GwenDewhurst =>
      if Contains(q, "gwendolyn") && Contains(q, "dewhurst") then
        First(contacts, (c: Contact<C>) => Strip(Lower(c.name)) == "gwen dewhurst")
      else None
  }

  /** `find_contact_by_name`: the override's contact, else the best-scoring candidate, else None. */
  function Resolve<C(==)>(cfg: Config<C>, contacts: seq<Contact<C>>, payee: string): (r: Option<Contact<C>>)
    ensures r.Some? ==> r.value in contacts
    ensures payee == "" ==> r.None?
  {
    if payee == "" then None
    else
      var q := Query(cfg, payee);
      match OverrideHit(cfg, contacts, q)
      case Some(c) => Some(c)
      case None =>
        var alts := Alternatives(cfg, payee);
        BestOf(contacts, ScoreOf(cfg, alts, Words(q)))
  }

  // -----------------------------------------------------------------------
  // Properties

  /**
   * Without an applicable override, the resolver returns the first contact
   * of highest priority, and None exactly when no contact is a candidate.
   */
  lemma ResolveIsFirstBest<C>(cfg: Config<C>, contacts: seq<Contact<C>>, payee: string)
    requires payee != "" && OverrideHit(cfg, contacts, Query(cfg, payee)).None?
    ensures var score := ScoreOf(cfg, Alternatives(cfg, payee), Words(Query(cfg, payee)));
      && (Resolve(cfg, contacts, payee).None? <==> forall j :: 0 <= j < |contacts| ==> score(contacts[j]).None?)
      && (Resolve(cfg, contacts, payee).Some? ==>
            exists k :: 0 <= k < |contacts| && contacts[k] == Resolve(cfg, contacts, payee).value && IsFirstBest(contacts, score, k))
  {
  }

  /** Every set of words is at most as large as the list it comes from. */
  lemma {:induction false} WordSetSize(ws: seq<string>)
    ensures |WordSet(ws)| <= |ws|
  {
    if |ws| > 0 {
      WordSetSize(ws[1..]);
      assert WordSet(ws) == WordSet(ws[1..]) + {ws[0]};
    }
  }

  lemma {:induction false} SubsetSize<T>(a: set<T>, b: set<T>)
    requires a <= b
    ensures |a| <= |b|
    decreases |b|
  {
    if b != {} {
      var x :| x in b;
      SubsetSize(a - {x}, b - {x});
    }
  }

  /** A word-tier score never exceeds the number of query words plus the subset bonus. */
  lemma WordScoreBound(sw: seq<string>, cw: seq<string>)
    ensures WordScore(sw, cw) <= |sw| + 10
  {
    if |sw| > 0 && |cw| > 0 {
      SubsetSize(WordSet(sw) * WordSet(cw), WordSet(sw));
      WordSetSize(sw);
    }
  }

  /**
   * The word tier accepts a contact exactly when the two names share a word
   * and, if both have two or more distinct words, the first word of one of
   * them occurs in the other: "Stefanie X" is not taken for "Matthias X".
   */
  lemma WordScoreAccepts(sw: seq<string>, cw: seq<string>)
    ensures WordScore(sw, cw) > 0 <==>
      && (exists w :: w in sw && w in cw)
      && (|WordSet(sw)| < 2 || |WordSet(cw)| < 2 || sw[0] in cw || cw[0] in sw)
  {
    if |sw| > 0 && |cw| > 0 {
      var s := WordSet(sw);
      var k := WordSet(cw);
      if exists w :: w in sw && w in cw {
        var w :| w in sw && w in cw;
        assert w in s * k;
      } else {
        assert s * k == {};
        assert cw[0] in k && cw[0] !in s;
      }
    }
  }

  /** Bounds of each tier, for at most four alternatives. */
  lemma BaseScoreRange(alts: seq<string>, sw: seq<string>, cn: string)
    requires |alts| <= 4
    ensures BaseScore(alts, sw, cn).Some? ==> 0 < BaseScore(alts, sw, cn).value <= if |sw| + 10 > 1000 then |sw| + 10 else 1000
  {
    WordScoreBound(sw, Words(cn));
  }

  /**
   * A candidate of the preferred category outranks every candidate of
   * another category, as long as the query has fewer than 9990 words
   * (beyond that the word tier alone could exceed the bonus).
   */
  lemma PreferredOutranks<C>(cfg: Config<C>, alts: seq<string>, sw: seq<string>, a: Contact<C>, b: Contact<C>)
    requires cfg.preferred.Some? && |alts| <= 4 && |sw| < 9990
    requires a.category == cfg.preferred && b.category != cfg.preferred
    requires Score(cfg, alts, sw, a).Some? && Score(cfg, alts, sw, b).Some?
    ensures Score(cfg, alts, sw, a).value > Score(cfg, alts, sw, b).value
  {
    BaseScoreRange(alts, sw, cfg.norm(a.name));
    BaseScoreRange(alts, sw, cfg.norm(b.name));
  }

  /**
   * End to end: when no override applies and some contact of the preferred
   * category is a candidate, the resolver returns a contact of that category.
   */
  lemma ResolvePrefersCategory<C>(cfg: Config<C>, contacts: seq<Contact<C>>, payee: string, p: nat)
    requires payee != "" && OverrideHit(cfg, contacts, Query(cfg, payee)).None?
    requires cfg.preferred.Some? && |Words(Query(cfg, payee))| < 9990
    requires p < |contacts| && contacts[p].category == cfg.preferred
    requires Score(cfg, Alternatives(cfg, payee), Words(Query(cfg, payee)), contacts[p]).Some?
    ensures Resolve(cfg, contacts, payee).Some?
    ensures Resolve(cfg, contacts, payee).value.category == cfg.preferred
  {
    var alts := Alternatives(cfg, payee);
    var sw := Words(Query(cfg, payee));
    var score := ScoreOf(cfg, alts, sw);
    ResolveIsFirstBest(cfg, contacts, payee);
    assert score(contacts[p]).Some?;
    var r := Resolve(cfg, contacts, payee);
    var k :| 0 <= k < |contacts| && contacts[k] == r.value && IsFirstBest(contacts, score, k);
    assert score(contacts[p]).value <= score(contacts[k]).value;
    if r.value.category != cfg.preferred {
      PreferredOutranks(cfg, alts, sw, contacts[p], contacts[k]);
      assert false;
    }
  }

  /**
   * The preferred category matters only through the bonus: two
   * configurations that differ only in the preference, and give every
   * contact the same bonus, resolve every payee to the same contact.
   */
  lemma SameBonusSameContact<C>(cfg: Config<C>, p: Option<C>, contacts: seq<Contact<C>>, payee: string)
    requires forall j :: 0 <= j < |contacts| ==> Bonus(cfg, contacts[j]) == Bonus(cfg.(preferred := p), contacts[j])
    ensures Resolve(cfg, contacts, payee) == Resolve(cfg.(preferred := p), contacts, payee)
  {
    var other := cfg.(preferred := p);
    if payee != "" {
      var q := Query(cfg, payee);
      var alts := Alternatives(cfg, payee);
      SearchIgnoresPreference(cfg, p, contacts, payee);
      forall j | 0 <= j < |contacts|
        ensures ScoreOf(cfg, alts, Words(q))(contacts[j]) == ScoreOf(other, alts, Words(q))(contacts[j])
      {
        SameBonusSameScore(cfg, p, alts, Words(q), contacts[j]);
      }
      BestOfAgrees(contacts, ScoreOf(cfg, alts, Words(q)), ScoreOf(other, alts, Words(q)));
    }
  }

  /** The query, the alternatives and the override do not depend on the preference. */
  lemma SearchIgnoresPreference<C>(cfg: Config<C>, p: Option<C>, contacts: seq<Contact<C>>, payee: string)
    ensures Query(cfg.(preferred := p), payee) == Query(cfg, payee)
    ensures Alternatives(cfg.(preferred := p), payee) == Alternatives(cfg, payee)
    ensures OverrideHit(cfg.(preferred := p), contacts, Query(cfg, payee)) == OverrideHit(cfg, contacts, Query(cfg, payee))
  {
  }

  lemma SameBonusSameScore<C>(cfg: Config<C>, p: Option<C>, alts: seq<string>, sw: seq<string>, c: Contact<C>)
    requires Bonus(cfg, c) == Bonus(cfg.(preferred := p), c)
    ensures Score(cfg, alts, sw, c) == Score(cfg.(preferred := p), alts, sw, c)
  {
  }

  /**
   * Within one category, an exact match on any alternative beats every
   * partial match, and a partial match beats every word-tier match of a
   * query with fewer than 487 words.
   */
  lemma TiersAreOrdered(alts: seq<string>, sw: seq<string>, exact: string, partial: string, word: string)
    requires |alts| <= 4
    requires Find(alts, a => a == exact).Some?
    requires Find(alts, a => a == partial).None? && Find(alts, a => Contains(partial, a) || Contains(a, partial)).Some?
    requires Find(alts, a => a == word).None? && Find(alts, a => Contains(word, a) || Contains(a, word)).None?
    requires BaseScore(alts, sw, word).Some? && |sw| < 487
    ensures BaseScore(alts, sw, exact).value > BaseScore(alts, sw, partial).value > BaseScore(alts, sw, word).value
  {
    WordScoreBound(sw, Words(word));
  }

  /**
   * An applicable custom mapping decides the result whatever the scores:
   * the contact returned carries the mapped name.
   */
  lemma MappingDecides<C>(cfg: Config<C>, contacts: seq<Contact<C>>, payee: string, k: nat, c: Contact<C>)
    requires cfg.override.ExactMappings? && payee != ""
    requires k < |cfg.override.pairs| && cfg.norm(cfg.override.pairs[k].0) == Query(cfg, payee)
    requires c in contacts && cfg.norm(c.name) == cfg.norm(cfg.override.pairs[k].1)
    ensures Resolve(cfg, contacts, payee).Some?
    ensures exists i :: 0 <= i < |cfg.override.pairs| && cfg.norm(cfg.override.pairs[i].0) == Query(cfg, payee)
                     && cfg.norm(Resolve(cfg, contacts, payee).value.name) == cfg.norm(cfg.override.pairs[i].1)
  {
    var q := Query(cfg, payee);
    var h := MappingHit(cfg.norm, cfg.override.pairs, contacts, q);
    assert h.Some?;
    assert OverrideHit(cfg, contacts, q) == h;
    assert Resolve(cfg, contacts, payee) == h;
  }

  /**
   * For donors, "First und Second Last" is searched first as "First Last",
   * so a contact named exactly that gets the highest exact score.
   */
  lemma UndAlternativeComesFirst<C>(cfg: Config<C>, payee: string, c: Contact<C>)
    requires cfg.alternatives.DonorSplitting?
    requires var ws := Words(Query(cfg, payee));
      |ws| >= 3 && "und" in ws && 0 < IndexOf(ws, "und") < |ws| - 1
    requires c.name != "" && cfg.norm(c.name) == (var ws := Words(Query(cfg, payee)); ws[0] + " " + ws[|ws| - 1])
    ensures Score(cfg, Alternatives(cfg, payee), Words(Query(cfg, payee)), c) == Some(1000 + Bonus(cfg, c))
  {
    var ws := Words(Query(cfg, payee));
    var alts := Alternatives(cfg, payee);
    UndAlternativeIsFirst(cfg, payee);
    ExactOnFirstAlternative(alts, ws, cfg.norm(c.name));
    ScoreFromBase(cfg, alts, ws, c, 1000);
  }

  lemma ScoreFromBase<C>(cfg: Config<C>, alts: seq<string>, sw: seq<string>, c: Contact<C>, b: int)
    requires c.name != "" && BaseScore(alts, sw, cfg.norm(c.name)) == Some(b)
    ensures Score(cfg, alts, sw, c) == Some(b + Bonus(cfg, c))
  {
  }

  lemma UndAlternativeIsFirst<C>(cfg: Config<C>, payee: string)
    requires cfg.alternatives.DonorSplitting?
    requires var ws := Words(Query(cfg, payee));
      |ws| >= 3 && "und" in ws && 0 < IndexOf(ws, "und") < |ws| - 1
    ensures var ws := Words(Query(cfg, payee));
      Alternatives(cfg, payee)[0] == ws[0] + " " + ws[|ws| - 1]
  {
    var ws := Words(Query(cfg, payee));
    var u := UndAlternative(ws);
    assert u == [ws[0] + " " + ws[|ws| - 1]];
    assert Alternatives(cfg, payee) == u + HalfAlternative(ws) + ([Query(cfg, payee)] + Reversal(cfg, payee));
  }

  lemma ExactOnFirstAlternative(alts: seq<string>, sw: seq<string>, cn: string)
    requires |alts| > 0 && alts[0] == cn
    ensures BaseScore(alts, sw, cn) == Some(1000)
  {
    assert Find(alts, a => a == cn) == Some(0);
  }

  /** Contacts without a name are never candidates. */
  lemma NamelessNeverScores<C>(cfg: Config<C>, alts: seq<string>, sw: seq<string>, c: Contact<C>)
    requires c.name == ""
    ensures Score(cfg, alts, sw, c).None?
  {
  }
}

# sevdesk-client voucher resolution, modelled in Dafny

sevdesk-client is a set of Python scripts and a small web front end for one
church's books in sevDesk. Each voucher script works the same way:

- it reads the open bank transactions (status 100) from a local SQLite cache;
- it keeps the ones its filter selects;
- it resolves each kept transaction to an accounting type, a cost centre and a contact;
- it numbers the vouchers `B-<year>-<n>`;
- it builds one sevDesk voucher payload per plan item;
- it books the created voucher against its transaction.

This project models that resolution core as pure Dafny functions over
immutable data and proves what the scripts rely on. It covers:

- the shared contact resolver, with its search alternatives, scoring tiers, category bonus and exact mappings;
- the name normaliser;
- the cost-centre search with its special-case rules;
- voucher numbering;
- the payload builder;
- the base workflow: accounting-type lookup, plan generation, and the split into created and failed vouchers;
- the cache: status names, upserts, bulk inserts, contact rows, `ORDER BY name`;
- every voucher script: donations, salary, ÜLP (instructor allowance), Kontaktmission, EBTC, Grace Baptist, health insurers, fees, PayPal fees, money in transit, direct debits, JEK holidays. This includes the root, old and backup versions where they differ;
- the JavaScript utilities: event emitter, component manager, loading overlay, router, polyfills, and the invoice page's CSV parser and position rows.

Modelling choices:

- Amounts are integer cents.
- Strings are `seq<char>`.
- A missing JSON field is `None`.
- Each script is modelled as written, defects included. Where a defect is listed under "## Findings", the corrected behaviour is a separate member beside it, such as `Salary.CostCentreForCorrected`, `Ulp.SelectsRootCorrected` or `ScriptSupport.FindContactCorrected`. Examples of defects kept: the numeric category preference and the old script's mis-encoded normaliser.
- The cache is a sequence of rows in insertion order.
- Python's `lower()`, `upper()`, `strip()` and `split()` are written out for ASCII, Latin-1 and the sharp s (`upper()` also maps the micro sign to capital mu). NFKD decomposition is written out for every Latin-1 character that has a compatibility decomposition: the accented letters, the no-break space, the ordinal indicators, the superscript digits, the spacing accents (´ ¨ ¯ ¸), the micro sign and the vulgar fractions (¼ ½ ¾).
- The network, the clock, the DOM and the browser history become parameters or results:
  - a voucher number fetch is a `Result` passed in;
  - the day of a run is a date string;
  - sevDesk's answer to each create request is a `Response` passed in;
  - the popstate listeners the window holds are a field of the router state;
  - which handlers throw is a predicate passed in.

## Model

| member | source | states |
|---|---|---|
| Records.PayeeName | scripts/vouchers/create_vouchers_for_gehalt.py:64-65 | The payee a plan item carries is the raw `payeePayerName` when present and "Unknown" when the field is absent |
| Records.Take | src/vouchers/voucher_creator_base.py:450 | Cutting a date to ten characters keeps a prefix of exactly min(length, 10) characters |
| Cache.StatusName | database/db.py:173-196 | The cached status name is Open, Linked or Booked exactly for codes 100, 200, 300 and "Unknown" for every other code |
| Cache.StatusNameRoundTrip | database/db.py:173-177 | A known status name reads back to the code it was stored for; "Unknown" reads back to no code |
| Cache.Lookup | database/db.py:247-259 | A lookup by id returns a row with that id, and returns nothing exactly when no row has it |
| Cache.LookupAfterUpsert | database/db.py:207-223 | After INSERT OR REPLACE, a lookup of the row's id returns that row |
| Cache.LookupOtherAfterUpsert | database/db.py:365-373 | An upsert changes no other id's row |
| Cache.LastWriteWins | database/db.py:607-617 | Two upserts with the same id leave the later row |
| Cache.UpsertKeepsKeysUnique | database/db.py:207-223 | Replacing by primary key keeps ids unique in the table |
| Cache.BulkInsert | database/db.py:231-245 | The bulk insert leaves the table as inserting one row after another would, and returns the number of rows whose insert succeeded, which is never more than the number given |
| Cache.InsertAllOthers | database/db.py:381-395 | A bulk insert that brings no row for an id leaves that id's row as it was |
| Cache.InsertAllLastWins | database/db.py:625-639 | After a bulk insert, an id holds the last successful row the batch brought for it |
| Cache.StoredName | database/db.py:583-588 | A contact's own non-empty name is kept; with no name and blank name parts, the stored name is the missing or empty one given |
| Cache.SynthesisedName | database/db.py:583-588 | With no name but a non-blank name part, the stored name is the stripped first and family name joined by one space, and it is non-empty and already stripped |
| Cache.ContactRow | database/db.py:590-598 | A cached contact keeps its id as text, and has a category exactly when the API contact had one, stored as text |
| Cache.CachedCategoriesAreText | database/db.py:141 | Every category a cached contact carries is text, never a number |
| Cache.NumericAndTextIdsCollide | database/db.py:591 | Contacts with ids 7 and "7" land on the same cache key, so the later one replaces the earlier |
| Cache.NameLeTotal | database/db.py:404 | The name order used by ORDER BY relates every two names |
| Cache.NameLeTrans | database/db.py:404 | The name order is transitive |
| Cache.NameLeAntisymmetric | database/db.py:404 | Two names each ordered before the other are equal |
| Cache.SortByName | database/db.py:641-649 | Sorting by name gives a permutation of the rows that is ordered by name |
| Cache.SortedIsOrdered | database/db.py:641-649 | In a list sorted by name, an earlier row never has a greater name than a later one |
| Cache.FirstMatchHasSmallestName | database/db.py:397-405 | The first row of the sorted list that matches a test has the smallest name among the matching rows |
| Cache.AllCostCentres | database/db.py:397-405 | All cost centres come back as a permutation of the table, ordered by name |
| Cache.AllAccountingTypes | database/db.py:475-483 | All accounting types come back as a permutation of the table, ordered by name |
| Cache.AllContacts | database/db.py:641-649 | All contacts come back as a permutation of the table, ordered by name |
| Cache.AllTransactions | database/db.py:261-276 | Without a status filter, the whole table comes back; with one, exactly the rows of that status |
| Numbering.ParseNatToString | voucher_utils.py:38-42 | Formatting a number in decimal and parsing it back gives the number |
| Numbering.NatToStringInjective | voucher_utils.py:80 | Different numbers format differently |
| Numbering.VoucherNumberRoundTrip | voucher_utils.py:38-42 | A number formatted as `B-<year>-<n>` parses back to its year and counter |
| Numbering.ParseVoucherNumber | voucher_utils.py:35-42 | A label only parses if it starts with "B-" and has a dash after the four-digit year |
| Numbering.NextIsPastEveryNumber | voucher_utils.py:32-55 | After a successful fetch the next counter exceeds every counter of the year among the vouchers, and the counter before it is in use unless it is 0 |
| Numbering.NextVoucherNumber | voucher_utils.py:13-55 | The next counter is at least 1, and exactly 1 when the fetch fails |
| Numbering.GeneratedAreConsecutive | voucher_utils.py:58-82 | The i-th generated number carries the year and the next counter plus i |
| Numbering.GeneratedAreDistinct | voucher_utils.py:58-82 | Numbers generated in one call are pairwise different |
| Numbering.GeneratedAreFresh | voucher_utils.py:58-82 | Every generated counter exceeds every counter already used that year |
| Numbering.DatedNumberInjective | create_vouchers_for_gehalt_old.py:190-202 | The root scripts' date-and-transaction numbers differ for different transactions of one day |
| Numbering.UlpNumberInjective | create_vouchers_for_ulp.py:87-97 | The root ÜLP numbers differ for different transactions of one day |
| Numbering.UlpAndDatedNumbersDiffer | create_vouchers_for_ulp.py:87-97 | An ÜLP number and a dated number of one day coincide exactly when the dated number's id is the ÜLP id with a dash in front |
| NameNormalizer.Normalize | voucher_utils.py:384-396 | A normalised name has no combining marks of U+0300 to U+036F (the grapheme joiner aside), no commas or dots, is single-spaced, lower case and holds no sharp s |
| NameNormalizer.NormalizeIsDecomposed | voucher_utils.py:384-396 | A normalised name is already decomposed: no Latin-1 character with a compatibility decomposition survives normalisation (the spacing accents, micro sign and fractions included) |
| NameNormalizer.NoSharpS | voucher_utils.py:391 | With the sharp-s literals spelled correctly, no sharp s survives normalisation |
| NameNormalizer.NormalizeGarbled | create_vouchers_for_gehalt_old.py:78-90 | The old script's normaliser, with its mis-encoded sharp-s literals, still yields the normal form apart from the sharp s |
| NameNormalizer.DropMarks | voucher_utils.py:389 | Dropping the combining marks (U+0300 to U+036F, but not the grapheme joiner U+034F, whose combining class is 0) leaves none, and every character left was in the input |
| NameNormalizer.GraphemeJoinerIsKept | voucher_utils.py:384-396 | The grapheme joiner, combining class 0, survives normalisation: "A\u034FB" becomes "a\u034Fb" |
| NameNormalizer.PunctToSpace | voucher_utils.py:393 | Each comma or dot becomes a space; every other character stays |
| Ranking.ScoredSound | voucher_utils.py:425-478 | Every candidate collected is an item with a score, carrying that score and its position |
| Ranking.ScoredOrdered | voucher_utils.py:425-478 | Candidates are collected in list order |
| Ranking.ScoredComplete | voucher_utils.py:425-478 | Every item with a score is collected |
| Ranking.FirstBest | voucher_utils.py:481-483 | The candidate chosen has the highest priority, and no earlier candidate has as high a priority (a stable descending sort takes the first) |
| Ranking.BestOf | voucher_utils.py:481-485 | Nothing is chosen exactly when no item scores; otherwise the chosen item is the first with the highest score |
| Ranking.FirstBestUnique | voucher_utils.py:481-483 | There is only one first best position |
| Ranking.BestOfAgrees | voucher_utils.py:481-485 | Two scorings that agree on every item choose the same item |
| ContactMatching.Reversal | voucher_utils.py:414-420 | The reversed "Last, First" alternative exists exactly when the payee has exactly one comma |
| ContactMatching.UndAlternative | create_vouchers_for_spenden.py:143-153 | The root donation resolver adds at most one "first + last word" alternative around "und" |
| ContactMatching.HalfAlternative | create_vouchers_for_spenden.py:137-141 | The root donation resolver adds at most one first-half alternative |
| ContactMatching.Alternatives | voucher_utils.py:414-420 | There are one to four search alternatives, and the normalised search name is among them |
| ContactMatching.MappingHit | voucher_utils.py:402-409 | A mapping hit is a cached contact that normalises like the target of a mapping whose term normalises like the search name; a miss means no such contact exists for any matching mapping |
| ContactMatching.OverrideHit | create_vouchers_for_gehalt_old.py:106-113 | An override hit is always a cached contact |
| ContactMatching.Resolve | voucher_utils.py:359-485 | The contact found is a cached contact, and an empty payee finds none |
| ContactMatching.ResolveIsFirstBest | voucher_utils.py:423-485 | Without an override, nothing is found exactly when no contact scores; otherwise the first contact with the highest score is returned |
| ContactMatching.WordScoreBound | voucher_utils.py:459-464 | A word score is at most the number of search words plus 10 |
| ContactMatching.WordScoreAccepts | voucher_utils.py:459-474 | A word score is positive exactly when a word is shared, and, for two multi-word names, one name's first word appears in the other |
| ContactMatching.BaseScoreRange | voucher_utils.py:434-474 | A base score is positive and never above the exact-match score of 1000, or the word bound when that is higher |
| ContactMatching.TiersAreOrdered | voucher_utils.py:434-456 | For a query of fewer than 487 words, an exact match outranks a partial match, which outranks a word match (a longer query could give a word match more than 500) |
| ContactMatching.ExactOnFirstAlternative | voucher_utils.py:435-441 | A contact equal to the first alternative scores 1000 |
| ContactMatching.NamelessNeverScores | voucher_utils.py:425-428 | A contact without a name is never a candidate |
| ContactMatching.PreferredOutranks | voucher_utils.py:437-440 | For a query of fewer than 9990 words, a scoring contact of the preferred category outranks any scoring contact of another category |
| ContactMatching.ResolvePrefersCategory | voucher_utils.py:448-451 | For a query of fewer than 9990 words and no applicable override, when a contact of the preferred category scores, the contact found is of that category |
| ContactMatching.SameBonusSameContact | voucher_utils.py:437-440 | The preferred category acts only through the bonus: configurations that differ only in it and give every contact the same bonus find the same contact |
| ContactMatching.SearchIgnoresPreference | voucher_utils.py:384-420 | The search name, the alternatives and the override hit do not depend on the preferred category |
| ContactMatching.SameBonusSameScore | voucher_utils.py:434-476 | With equal bonuses a contact gets the same priority under either preference |
| ContactMatching.MappingDecides | voucher_utils.py:402-409 | When a mapping applies and a contact matches its target, the result is a contact matching a target of an applying mapping, whatever the scores |
| ContactMatching.UndAlternativeIsFirst | create_vouchers_for_spenden.py:143-153 | For "A und B C", the first extra alternative is "A C" |
| ContactMatching.UndAlternativeComesFirst | create_vouchers_for_spenden.py:203-219 | A contact named like "A C" for the payee "A und B C" scores 1000 plus its bonus |
| FirstMatchContact.FindFirstContact | create_vouchers_for_gehalt.py:62-83 | The root scripts return the first contact whose stripped lower-case name contains, or is contained in, the search name; nothing exactly when none does, and nothing for an empty payee |
| FirstMatchContact.ExactTestIsRedundant | create_vouchers_for_gehalt.py:75-81 | The exact-name test adds nothing to the containment test |
| FirstMatchContact.BlankNameMatchesEveryone | create_vouchers_for_ulp.py:63-84 | A contact whose name is only spaces matches every payee |
| FirstMatchContact.FirstContactKeepsFirst | create_vouchers_for_gehalt.py:62-83 | Adding contacts after a match does not change the contact found |
| CostCentres.SpecialHitIsFirstHit | voucher_utils.py:341-348 | A rule hit is the first accepted cost centre of the first rule that applies and has one; nothing exactly when no rule hits |
| CostCentres.DefaultMatch | voucher_utils.py:350-354 | The default search returns the first cost centre whose name contains the search name or is contained in it |
| CostCentres.FindCostCentre | voucher_utils.py:318-356 | The cost centre found is in the cache, and an empty payee finds none |
| CostCentres.MappingRules | voucher_utils.py:343-348 | Each (term, target) mapping becomes one rule |
| CostCentres.NoRuleMeansDefault | voucher_utils.py:335-354 | When no rule hits, the default search decides |
| CostCentres.PlainLookup | voucher_utils.py:335-354 | Without rules, a stripped name is looked up by its lower-case form |
| CostCentres.HittingRuleDecides | voucher_utils.py:341-348 | The first rule that hits decides the cost centre |
| CostCentres.BlankNameMatchesAnything | voucher_utils.py:350-354 | A cost centre with a blank name matches every search |
| CostCentres.SamuelRuleNeedsOnlyJean | create_vouchers_for_gehalt.py:17-46 | The root salary rule for Samuel JeanRichard applies exactly when the name has "samuel" and "jean" |
| CostCentres.RootUlpRuleNeedsFlag | create_vouchers_for_ulp.py:36-47 | Without the ÜLP marker, the root ÜLP search is the default search |
| CostCentres.UlpMappingsNeedFlag | scripts/vouchers/create_vouchers_for_ulp.py:91-105 | Without the marker, the refactored ÜLP search is the default search |
| CostCentres.FindByExactName | create_vouchers_for_spenden.py:62-82 | The exact lookup returns the first cost centre with exactly that name, and none exactly when no name equals it |
| CostCentres.FindByStrippedName | scripts/vouchers/create_vouchers_for_jek_freizeit.py:56-85 | The JEK lookup returns a cost centre whose stripped name is the name, and none exactly when none has it |
| CostCentres.ExactNameKeepsFirst | create_vouchers_for_spenden.py:62-82 | Cost centres added after an exact hit do not change it |
| CostCentres.DefaultKeepsFirst | voucher_utils.py:350-354 | Cost centres added after a default hit do not change it |
| VoucherPlan.FindAccountingType | src/vouchers/voucher_creator_base.py:222-246 | The type found is the first whose name contains the term; none exactly when no name contains it |
| VoucherPlan.ShorterTermFindsNoLater | src/vouchers/voucher_creator_base.py:222-246 | A part of the term finds a type, at the same position or earlier |
| VoucherPlan.GeneratePlan | src/vouchers/voucher_creator_base.py:256-289 | The plan has one item per transaction, in order, each built with the generated number at its position |
| VoucherPlan.PlanNumbersAreConsecutive | src/vouchers/voucher_creator_base.py:256-289 | Plan items carry distinct numbers, the i-th being the next counter plus i |
| VoucherPlan.CreateVouchers | src/vouchers/voucher_creator_base.py:387-472 | One payload is sent per attempted item, and only the first item in single mode. Accepted items are created, in order. Each created voucher is booked to its transaction with its amount, the date cut to ten characters and the script's direction. Rejected items are failed |
| VoucherPlan.Partition | src/vouchers/voucher_creator_base.py:419-472 | The loop builds the created list, the failed list and one booking per created voucher |
| VoucherPlan.PartitionIsExact | src/vouchers/voucher_creator_base.py:419-472 | Every attempted item ends up created or failed, never both, according to its response |
| VoucherPlan.CreatedCountsAccepted | src/vouchers/voucher_creator_base.py:419-472 | The number created is the number of accepted responses, and the rest failed |
| VoucherPlan.ScriptForPlanFile | src/vouchers/voucher_creator_base.py:116-130 | A plan file only names a script whose name starts with create_vouchers_for_ |
| VoucherPlan.PlanFileNamesScript | src/vouchers/voucher_creator_base.py:116-130 | The plan file name leads back to the script file name |
| VoucherPlan.FileNamesIgnoreCase | src/vouchers/voucher_creator_base.py:116-130 | File names do not depend on the script name's case |
| Payload.BuildPayload | voucher_utils.py:508-583 | Income gives a debit voucher with a delivery date and the contact as customer. An expense gives a credit voucher with the contact as supplier and the payee as supplier name. The amounts are the absolute value. The cost centre appears on voucher and position alike. The description is the script's, or else the number. All dates are the cut value date |
| Payload.LinkageRoundTrip | voucher_utils.py:550-583 | Direction, contact and cost centre can be read back from the payload |
| Payload.AmountIgnoresSign | voucher_utils.py:508-544 | Net and gross sums are the absolute amount |
| Payload.SupplierNameOnlyForExpenses | voucher_utils.py:554-572 | Only an expense names the payee as supplier |
| ScriptSupport.OpenTransactions | src/vouchers/voucher_creator_base.py:248-254 | The open transactions are exactly the cached rows of status 100 |
| ScriptSupport.Selected | src/vouchers/voucher_creator_base.py:73-84 | The selected transactions are exactly the open ones the filter keeps |
| ScriptSupport.FilterPayee | scripts/vouchers/create_vouchers_for_krankenkassen.py:74-89 | A filter reads the payee, or "" where the plan item would read "Unknown" |
| ScriptSupport.PreferredCategory | voucher_utils.py:437-438 | The preference is passed as a number, which is never text; 0 means no preference |
| ScriptSupport.PreferredCategoryAsText | database/db.py:141 | The corrected preference is the decimal text of the number, as the TEXT column stores a category, and 0 means none |
| ScriptSupport.FindContact | voucher_utils.py:359-485 | The shared search returns a cached contact, and none for an empty payee |
| ScriptSupport.FindContactCorrected | voucher_utils.py:359-485 | The corrected search returns a cached contact, and none for an empty payee |
| ScriptSupport.CachedContactsHaveTextCategories | database/db.py:141 | Every contact read back from the cache carries its category as text or not at all |
| ScriptSupport.IntPreferenceIsIgnored | voucher_utils.py:437-440 | Over contacts with text categories, the search with a numeric preference finds the same contact as the search without one |
| ScriptSupport.CorrectionNeedsPreferredContact | voucher_utils.py:437-440 | The corrected search differs from the one as written only when a contact is cached under the preferred category |
| ScriptSupport.PreferredContactWins | voucher_utils.py:448-451 | Corrected, and for a query of fewer than 9990 words: with a scoring contact cached under the preferred category, the contact found has that category |
| ScriptSupport.MappedToOne | voucher_utils.py:402-409 | When all mappings name one contact, a payee that matches a mapping finds a contact normalised like it |
| ScriptSupport.AccountingTypeFor | src/vouchers/voucher_creator_base.py:222-246 | Setup finds a cached type whose name contains the term; it fails with that term exactly when no name contains it |
| ScriptSupport.Item | scripts/vouchers/create_vouchers_for_gehalt.py:71-81 | A plan item carries its transaction's id and amount and the number given |
| Donations.CentreNamesDistinct | scripts/vouchers/create_vouchers_for_spenden.py:41-46 | The four donation types have four different cost centres |
| Donations.MissingCentres | backup/backup_before_refactoring/create_vouchers_for_spenden.py:171-189 | A centre name is reported missing exactly when no cost centre has that exact name |
| Donations.FindCentres | scripts/vouchers/create_vouchers_for_spenden.py:79-94 | Centre lookup succeeds exactly when all four exist. Each type then gets the cost centre with its exact name. Otherwise the error lists exactly the missing names |
| Donations.Setup | scripts/vouchers/create_vouchers_for_spenden.py:65-96 | Setup succeeds exactly when a "Spendeneingang" type and all four centres exist, and stops on the missing type first |
| Donations.TwoKeywordsAreRedundant | scripts/vouchers/create_vouchers_for_spenden.py:98-126 | The keyword list accepts exactly what its other keywords, and a "Monatsspende" prefix, accept |
| Donations.OnlyIncomeIsSelected | scripts/vouchers/create_vouchers_for_spenden.py:98-126 | No expense is taken as a donation by either filter |
| Donations.RootSelectionIsNarrower | create_vouchers_for_spenden.py:440-448 | Every donation the root filter takes the refactored filter takes too, but not the reverse |
| Donations.Classify | scripts/vouchers/create_vouchers_for_spenden.py:245-274 | The type is Jeske exactly when the purpose names Artur Jeske, and Tobias exactly when it otherwise names Tobias or Tobi Zimmermann. It is Mission exactly when neither holds and "mission" occurs in the lower-cased purpose. Otherwise it is General |
| Donations.MissionarMentionsMission | create_vouchers_for_spenden.py:259-262 | The root's "missionar" test is covered by "mission" |
| Donations.ClassificationsAgree | create_vouchers_for_spenden.py:472-483 | Root and refactored classification agree unless the purpose names Tobi Zimmermann, which only the refactored one books to Tobias |
| Donations.DonorContact | scripts/vouchers/create_vouchers_for_spenden.py:276-281 | A donor contact is a cached contact |
| Donations.DonorPreferenceIgnored | scripts/vouchers/create_vouchers_for_spenden.py:276-281 | Over the cache, the donor is the one found without the customer preference |
| Donations.RootDonorPreferenceIgnored | create_vouchers_for_spenden.py:166-218 | Over the cache, the root resolver's `category_id == 2` test never fires, so it finds the donor found without a preference |
| Donations.ItemIsBookedToItsType | scripts/vouchers/create_vouchers_for_spenden.py:128-161 | Each item carries its donation type and is booked to the cached cost centre named for that type |
| Donations.SetupRoot | create_vouchers_for_spenden.py:396-426 | The root setup only accepts a type named exactly "Spendeneingang" |
| Donations.RootSetupIsStricter | create_vouchers_for_spenden.py:396-426 | Whenever the root setup succeeds the refactored one does, with the same cost centres |
| Donations.RootNumbersAreDistinct | create_vouchers_for_spenden.py:230-242 | Root items of one day for different transactions carry different numbers |
| Salary.SamuelRuleIsTheMapping | scripts/vouchers/create_vouchers_for_gehalt.py:25-32 | The second cost-centre rule is the script's Samuel JeanRichard mapping |
| Salary.CostCentreFor | scripts/vouchers/create_vouchers_for_gehalt.py:83-89 | The salary cost centre is a cached cost centre |
| Salary.CostCentreForCorrected | create_vouchers_for_gehalt_old.py:36-53 | The corrected salary cost centre is a cached cost centre |
| Salary.GwenMappingIs | scripts/vouchers/create_vouchers_for_gehalt.py:25-28 | The first mapping applies exactly when the search name contains "gwendolyn dewhurst" |
| Salary.GwenMappingNamesBoth | voucher_utils.py:343-348 | A search name the first mapping applies to names both Gwendolyn and Dewhurst |
| Salary.CorrectionOnlyMattersForGwendolyn | voucher_utils.py:335-348 | The search as written and the corrected one choose the same cost centre unless the payee names both Gwendolyn and Dewhurst |
| Salary.ContactFor | scripts/vouchers/create_vouchers_for_gehalt.py:91-98 | The salary contact is a cached contact |
| Salary.ContactIgnoresPreference | scripts/vouchers/create_vouchers_for_gehalt.py:91-98 | Over the cache, the salary contact is the one found without the supplier preference |
| Salary.GwendolynDewhurstIsMapped | create_vouchers_for_gehalt_old.py:36-53 | Corrected: a payee naming Gwendolyn and Dewhurst gets the first cost centre containing "gwen dewhurst" |
| Salary.SamuelJeanrichardIsMapped | scripts/vouchers/create_vouchers_for_gehalt.py:25-32 | Unless the search name holds "gwendolyn dewhurst", Samuel JeanRichard's salary goes to a cost centre containing "samuel jeanrichard (intern)" |
| Salary.RootSelectionIsNarrower | create_vouchers_for_gehalt.py:250-255 | The case-sensitive root filter keeps a subset of what the refactored filter keeps |
| Salary.SetupRoot | create_vouchers_for_gehalt_old.py:330-336 | The root and old setup take a type naming both Lohn and Gehalt |
| Salary.RootSetupAcceptsMore | create_vouchers_for_gehalt_old.py:330-336 | Whenever the refactored setup finds "Lohn / Gehalt", the root setup finds a type |
| Salary.OldAndRootCostCentresAgree | create_vouchers_for_gehalt.py:29-46 | Old and root scripts agree on the cost centre unless the payee names Gwendolyn and Dewhurst |
| Salary.DatedNumbersAreDistinct | create_vouchers_for_gehalt_old.py:190-202 | Root and old items of one day carry distinct numbers |
| Salary.OldContactIgnoresPreference | create_vouchers_for_gehalt_old.py:126-178 | Over the cache, the old resolver's `category_id == 3` test never fires, so it finds the contact found without a preference |
| Ulp.MarkedTransactionsAreSelected | scripts/vouchers/create_vouchers_for_ulp.py:46-56 | A purpose marked "ÜLP" is always selected, but a selected one need not be marked |
| Ulp.UlpMappingRules | scripts/vouchers/create_vouchers_for_ulp.py:91-105 | Without the marker there are no rules; with it there is the Tobias Zimmermann rule |
| Ulp.CostCentreFor | scripts/vouchers/create_vouchers_for_ulp.py:91-105 | The ÜLP cost centre is a cached cost centre |
| Ulp.ContactFor | scripts/vouchers/create_vouchers_for_ulp.py:107-114 | The ÜLP contact is a cached contact |
| Ulp.ContactIgnoresPreference | scripts/vouchers/create_vouchers_for_ulp.py:107-114 | Over the cache, the ÜLP contact is the one found without the supplier preference |
| Ulp.TobiasGetsHisUlpCentre | backup/backup_before_refactoring/create_vouchers_for_ulp.py:36-50 | Tobias Zimmermann's marked allowance goes to a cost centre containing "tobias zimmermann (ülp)" |
| Ulp.MarkerOnlyMattersForTobias | scripts/vouchers/create_vouchers_for_ulp.py:91-105 | The marker changes the cost centre only for Tobias Zimmermann |
| Ulp.SetupRoot | backup/backup_before_refactoring/create_vouchers_for_ulp.py:116-126 | The root and backup setup take a type naming Ehrenamtspauschale or Übungsleiterpauschale |
| Ulp.RootSetupIsNarrower | scripts/vouchers/create_vouchers_for_ulp.py:41-44 | Whenever the root setup succeeds, the refactored "pauschale" search does too |
| Ulp.RootSelectionIsNarrower | create_vouchers_for_ulp.py:249-252 | The root filter keeps a subset of what the refactored filter keeps, both as written (capital Ü after lower-casing) and with the lower-case word |
| Ulp.NoCapitalUmlautAfterLower | create_vouchers_for_ulp.py:251 | A lower-cased purpose never contains the capitalised "Übungsleiterpauschale", so the root filter's second test never holds |
| Ulp.RootAndRefactoredCostCentresAgree | create_vouchers_for_ulp.py:17-47 | Root and refactored cost centres agree for every payee but Tobias Zimmermann |
| Ulp.RootNumbersAreDistinct | create_vouchers_for_ulp.py:87-97 | Root ÜLP items of one day carry distinct numbers |
| Outgoing.KontaktMappingRules | scripts/vouchers/create_vouchers_for_kontaktmission.py:30-34 | The three Kontaktmission mappings become the Hodzi, Jean Richards and JeanRichard rules |
| Outgoing.KontaktCostCentre | scripts/vouchers/create_vouchers_for_kontaktmission.py:108-136 | A cost centre is only chosen for a purpose naming Hodzi, Jean or Richards, and is a cached one |
| Outgoing.HodziLookup | scripts/vouchers/create_vouchers_for_kontaktmission.py:108-120 | The search for "Hodzi" is decided by the Hodzi mapping when a cost centre mentions Hodzi |
| Outgoing.HodziRoute | scripts/vouchers/create_vouchers_for_kontaktmission.py:108-120 | A purpose naming Hodzi gets the first cost centre mentioning Hodzi |
| Outgoing.HodziFallback | scripts/vouchers/create_vouchers_for_kontaktmission.py:108-120 | Without such a cost centre, the default search for "hodzi" decides |
| Outgoing.JeanRichardsLookup | scripts/vouchers/create_vouchers_for_kontaktmission.py:121-136 | The search for "Jean Richards" is decided by the Jean Richards mapping |
| Outgoing.JeanRichardsRoute | scripts/vouchers/create_vouchers_for_kontaktmission.py:121-136 | A purpose naming Jean or Richards, and not Hodzi, gets the first cost centre containing "samuel jeanrichard (intern)" |
| Outgoing.KontaktContact | scripts/vouchers/create_vouchers_for_kontaktmission.py:74-94 | The Kontaktmission contact is a cached contact |
| Outgoing.KontaktPreferenceIgnored | scripts/vouchers/create_vouchers_for_kontaktmission.py:88-94 | Over the cache, the Kontaktmission contact is the one found without the supplier preference |
| Outgoing.KontaktItemsIgnorePayee | scripts/vouchers/create_vouchers_for_kontaktmission.py:74-106 | The contact never depends on the transaction, and the cost centre only on its purpose |
| Outgoing.EbtcSpendeTestIsRedundant | scripts/vouchers/create_vouchers_for_ebtc.py:80-101 | The EBTC filter's extra keyword adds nothing to the others |
| Outgoing.EbtcSetup | scripts/vouchers/create_vouchers_for_ebtc.py:59-78 | EBTC setup succeeds exactly when the donations-paid type and a related cost centre exist, and returns cached ones |
| Outgoing.FirstFound | scripts/vouchers/create_vouchers_for_ebtc.py:115-131 | The first name that finds a contact decides; none exactly when no name finds one |
| Outgoing.EbtcContact | scripts/vouchers/create_vouchers_for_ebtc.py:115-131 | The EBTC contact is a cached contact |
| Outgoing.EbtcNamesComeFirst | scripts/vouchers/create_vouchers_for_ebtc.py:115-131 | The fixed EBTC names are tried before the payee |
| Outgoing.GraceFullNameIsRedundant | scripts/vouchers/create_vouchers_for_grace_baptist.py:76-90 | The Grace filter's full-name test adds nothing to its short one |
| Outgoing.GraceSetup | scripts/vouchers/create_vouchers_for_grace_baptist.py:55-74 | Grace setup succeeds exactly when the type and a Wilhelmson cost centre exist |
| Transfers.BahnSeeTestIsRedundant | scripts/vouchers/create_vouchers_for_krankenkassen.py:74-89 | The insurers filter's Bahn-See test adds nothing to its Knappschaft test |
| Transfers.KrankenkassenSetup | scripts/vouchers/create_vouchers_for_krankenkassen.py:51-72 | Setup succeeds exactly when the type and the exactly named cost centre exist |
| Transfers.YearMonth | scripts/vouchers/create_vouchers_for_krankenkassen.py:105-108 | The month label has no dash and at most seven characters |
| Transfers.YearMonthOfIsoDate | scripts/vouchers/create_vouchers_for_krankenkassen.py:105-108 | For an ISO date, the month label is year and month run together |
| Transfers.KrankenkassenContact | scripts/vouchers/create_vouchers_for_krankenkassen.py:123-130 | The insurer contact is a cached contact |
| Transfers.KnappschaftSpellingsShareContact | scripts/vouchers/create_vouchers_for_krankenkassen.py:28-32 | Both Knappschaft spellings map to the same contact |
| Transfers.KnappschaftIsLinked | scripts/vouchers/create_vouchers_for_krankenkassen.py:28-32 | A payee normalised like either Knappschaft spelling finds a contact normalised like "Bundesknappschaft Ost" whenever the cache holds one |
| Transfers.KrankenkassenPreferenceIgnored | scripts/vouchers/create_vouchers_for_krankenkassen.py:123-130 | Over the cache, the insurer contact is the one found without the supplier preference |
| Transfers.OtherInsurersAreScored | scripts/vouchers/create_vouchers_for_krankenkassen.py:123-130 | A payee outside the mappings is resolved by score |
| Transfers.PaypalFeesAreFees | scripts/vouchers/create_vouchers_for_fees.py:94-119 | Everything the PayPal-fees filter takes, the fees filter takes. The fees filter also takes the closing balance |
| Transfers.FeesFixed | scripts/vouchers/create_vouchers_for_fees.py:67-80 | Both fee scripts need the type and the bookkeeping cost centre. A missing type is reported first, then a missing cost centre |
| Transfers.FeesSetup | scripts/vouchers/create_vouchers_for_fees.py:60-92 | Fees setup succeeds exactly when type and cost centre exist; the fallback contact is looked up but not required |
| Transfers.FeesPayee | scripts/vouchers/create_vouchers_for_fees.py:130-141 | The fees payee is never empty and is the raw payee when that is not empty |
| Transfers.FeesContact | scripts/vouchers/create_vouchers_for_fees.py:130-141 | An unknown payee gets the fallback contact; a found contact wins otherwise |
| Transfers.MissingPayeeGetsFallback | scripts/vouchers/create_vouchers_for_fees.py:130-141 | A missing or empty payee gets the fallback contact |
| Transfers.PaypalFeesSetup | scripts/vouchers/create_vouchers_for_paypal_fees.py:61-98 | PayPal-fees setup succeeds exactly when type, cost centre and PayPal contact all exist |
| Transfers.BankeinzugTests | scripts/vouchers/create_vouchers_for_bankeinzug.py:84-96 | The case-sensitive test adds nothing, and every direct debit is also a transit transaction |
| Transfers.TransitSetup | scripts/vouchers/create_vouchers_for_geldtransit.py:59-83 | Transit setup succeeds exactly when the type and the fallback contact exist |
| Transfers.TransitIsIncome | scripts/vouchers/create_vouchers_for_geldtransit.py:142-149 | The intended direction: income exactly for a positive amount |
| Transfers.JekSelectionIgnoresCase | scripts/vouchers/create_vouchers_for_jek_freizeit.py:87-103 | Income naming "Jek Freizeit" in any case is selected |
| Transfers.JekSetup | scripts/vouchers/create_vouchers_for_jek_freizeit.py:56-85 | JEK setup succeeds exactly when the type and a cost centre with the stripped name "JEK Freizeiten" exist |
| Transfers.JekNeedsTheFullName | scripts/vouchers/create_vouchers_for_jek_freizeit.py:56-85 | A cost centre named just "JEK" fails the setup, though the general search would find it |
| EventEmitter.NewEmitter | src/js/utils/event-emitter.js:3-5 | A new emitter has no listeners |
| EventEmitter.ListenerCount | src/js/utils/event-emitter.js:46-48 | The count is 0 exactly when the event has no set or an empty one |
| EventEmitter.On | src/js/utils/event-emitter.js:7-15 | `on` adds the listener to the event's set once and touches no other event |
| EventEmitter.Off | src/js/utils/event-emitter.js:17-24 | `off` removes the listener, drops an emptied event and touches no other event |
| EventEmitter.Unsubscribe | src/js/utils/event-emitter.js:13-14 | The returned function removes exactly that listener |
| EventEmitter.Once | src/js/utils/event-emitter.js:38-44 | `once` adds one new wrapper at the end |
| EventEmitter.RemoveAllListeners | src/js/utils/event-emitter.js:50-56 | A named event loses all listeners and others are untouched; with no name, every event is cleared |
| EventEmitter.Emit | src/js/utils/event-emitter.js:26-36 | Every listener is called in order, a throwing one is only logged, and the once wrappers remove themselves |
| EventEmitter.OnIdempotent | src/js/utils/event-emitter.js:7-15 | Adding the same listener twice is adding it once |
| EventEmitter.OnThenUnsubscribe | src/js/utils/event-emitter.js:13-14 | Subscribing then unsubscribing a new listener restores the emitter |
| EventEmitter.OnceFiresOnce | src/js/utils/event-emitter.js:38-44 | A once listener runs on the first emit and not on the second |
| ComponentManager.NewManager | src/js/utils/component-manager.js:3-6 | A new manager has nothing registered |
| ComponentManager.Register | src/js/utils/component-manager.js:8-10 | Registration sets the one name and leaves the instance cache alone |
| ComponentManager.Unregister | src/js/utils/component-manager.js:12-15 | Unregistering drops the registration and the cached instance of that name only |
| ComponentManager.GetInstance | src/js/utils/component-manager.js:25-38 | A cached instance is returned unless a new one is forced. Otherwise a new object of the registered class is cached, or the call fails when none is registered |
| ComponentManager.DestroyInstance | src/js/utils/component-manager.js:40-46 | The named instance leaves the cache, and it is destroyed exactly when it exists and has a destroy method |
| ComponentManager.Clear | src/js/utils/component-manager.js:52-61 | Clearing destroys every cached instance with a destroy method and no other object: the destroyed list is a subsequence of the cached instances in cache order, so each is destroyed once and in Map order; both maps end empty |
| ComponentManager.InstanceIsCached | src/js/utils/component-manager.js:25-38 | After getInstance, asking again without forcing returns the same object |
| ComponentManager.ForcedInstanceIsNew | src/js/utils/component-manager.js:25-38 | Forcing gives an object different from the cached one |
| ComponentManager.DestroyThenGetMakesNew | src/js/utils/component-manager.js:40-46 | After destroying, getInstance makes a new object |
| ComponentManager.RegisterThenUnregister | src/js/utils/component-manager.js:12-15 | Registering and unregistering a new name restores the manager |
| ComponentManager.ReregisterKeepsCachedInstance | src/js/utils/component-manager.js:8-10 | Re-registering a name keeps handing out the old cached instance |
| Loading.Init | src/js/utils/loading.js:10-17 | `init` records which elements exist and changes no count or visibility |
| Loading.Show | src/js/utils/loading.js:19-33 | `show` counts up always, but only shows and sets the message when the overlay exists |
| Loading.Hide | src/js/utils/loading.js:35-47 | `hide` counts down to no less than 0, and hides only at 0 with an overlay |
| Loading.SetMessage | src/js/utils/loading.js:53-57 | The message changes only when the element exists |
| Loading.ForceHide | src/js/utils/loading.js:59-62 | `forceHide` resets the count and hides when there is an overlay |
| Loading.OperationsKeepConsistency | src/js/utils/loading.js:19-62 | `show`, `hide`, `forceHide` and `setMessage` each keep "with an overlay, visible exactly when the count is positive". `init` is excluded: an `init` that finds the overlay after a `show` without one leaves a positive count invisible |
| Loading.InitAfterShowIsInconsistent | src/js/utils/loading.js:10-33 | A `show` before the overlay exists, followed by an `init` that finds it, leaves one operation pending with nothing shown |
| Loading.InitKeepsConsistency | src/js/utils/loading.js:10-17 | `init` keeps the invariant when the overlay was already known, when nothing is pending or shown, or when it finds no overlay |
| Loading.BalancedCallsHideAtTheEnd | src/js/utils/loading.js:19-47 | After n shows the overlay stays visible through n-1 hides and is hidden after the n-th |
| Loading.NoOverlayNeverChangesVisibility | src/js/utils/loading.js:22-40 | Without an overlay, no sequence of calls changes visibility |
| Router.NewRouter | src/js/utils/router.js:5-10 | A new router has no route, is not started and has no listener |
| Router.AddRoute | src/js/utils/router.js:12-14 | Adding sets only that path's handler |
| Router.RemoveRoute | src/js/utils/router.js:16-18 | Removing clears only that path |
| Router.HandleRoute | src/js/utils/router.js:65-86 | The route changes and route-change is emitted first. An unknown path then emits route-not-found, and a throwing handler emits route-error |
| Router.Navigate | src/js/utils/router.js:37-51 | Navigating to the current route does nothing; otherwise history is pushed, or replaced, and the route handled |
| Router.Start | src/js/utils/router.js:20-30 | Starting once adds one popstate listener and handles the current location; starting again does nothing |
| Router.Stop | src/js/utils/router.js:32-35 | As written, stopping clears the flag but leaves the listeners in place |
| Router.PopState | src/js/utils/router.js:61-63 | Each listener held handles the location once |
| Router.StartIsIdempotent | src/js/utils/router.js:20-21 | A second start changes nothing |
| Router.NavigateTwiceIsOnce | src/js/utils/router.js:37-38 | Navigating twice to the same path acts once |
| Router.AddThenRemoveRoute | src/js/utils/router.js:12-18 | Adding and removing a new route restores the router |
| Router.RegisteredRouteRuns | src/js/utils/router.js:72-80 | Navigating to a registered path runs its handler |
| Router.CorrectedStopSilencesPopState | src/js/utils/router.js:32-35 | With one bound handler kept, stop leaves no listener and a restart holds exactly one |
| JsCollections.SetAdd | src/js/utils/event-emitter.js:11 | Set insertion keeps elements distinct and appends only a new element |
| JsCollections.SetAddIdempotent | src/js/utils/event-emitter.js:11 | Adding twice is adding once |
| JsCollections.Without | src/js/utils/event-emitter.js:19 | Set deletion removes exactly that element |
| JsCollections.SetAddDelete | src/js/utils/event-emitter.js:11-19 | Adding a new element then deleting it restores the set |
| JsCollections.Put | src/js/utils/component-manager.js:9 | Map set changes one key, keeping insertion order for an existing one |
| JsCollections.Delete | src/js/utils/component-manager.js:13 | Map delete removes one key and nothing else |
| JsCollections.PutThenDelete | src/js/utils/component-manager.js:9-13 | Setting a new key then deleting it restores the map |
| JsCollections.PutTwice | src/js/utils/component-manager.js:9 | The second set of a key wins |
| Polyfills.At | src/js/utils/polyfills.js:53-62 | `at` returns an element exactly for indexes from -length to length-1, counting negatives from the end |
| Polyfills.AtNegativeIsReversed | src/js/utils/polyfills.js:53-62 | `at(-k)` is the k-th element of the reversed array |
| Polyfills.AtFromBothEnds | src/js/utils/polyfills.js:53-62 | `at(i)` and `at(i - length)` agree |
| Polyfills.JsSplit | src/js/utils/polyfills.js:46-50 | Splitting at "" gives the single characters |
| Polyfills.ReplaceAllReplacesEveryOccurrence | src/js/utils/polyfills.js:46-50 | For a non-empty search, split-then-join replaces every occurrence from left to right |
| Polyfills.ReplaceAllSameIsIdentity | src/js/utils/polyfills.js:46-50 | Replacing a string by itself changes nothing |
| Polyfills.InsertEverywhereLayout | src/js/utils/polyfills.js:46-50 | The language's replaceAll with "" puts the replacement before, between and after every character |
| Polyfills.FromEntries | src/js/utils/polyfills.js:35-43 | The object has exactly the entries' keys |
| Polyfills.FromEntriesLastWins | src/js/utils/polyfills.js:35-43 | A key holds the value of its last entry |
| InvoiceScript.Cells | script.js:376 | Cells are trimmed and hold no comma |
| InvoiceScript.Row | script.js:377-380 | A row has exactly the header keys |
| InvoiceScript.ParseCsv | script.js:370-385 | The headers come from the first line, and every later line becomes one row keyed by the headers |
| InvoiceScript.RowCell | script.js:378-380 | A header's value is its cell, or "" when the line is short |
| InvoiceScript.RepeatedHeaderKeepsLater | script.js:378-380 | A repeated header keeps the later column's value |
| InvoiceScript.RowCellsAreClean | script.js:376-380 | Every value is trimmed and comma-free |
| InvoiceScript.LinesOfRender | script.js:371 | A rendered table splits back into its lines |
| InvoiceScript.CsvRoundTrip | script.js:370-385 | Parsing a rendered table gives back its headers and every cell under its header |
| InvoiceScript.RemovePosition | script.js:195-205 | Removing drops exactly that row unless it is the last one, which is refused with the error message |
| InvoiceScript.AddPosition | script.js:165-193 | Adding appends one blank row |
| InvoiceScript.AddThenRemove | script.js:165-205 | Removing a just-added row restores the rows |
| InvoiceScript.ApplyEdits | script.js:195-205 | No sequence of edits leaves the form without a row |
| Findings.RootUlpFilterAsWritten | create_vouchers_for_ulp.py:251-252 | The root ÜLP filter keeps exactly the purposes marked "ÜLP", so a spelled-out allowance is dropped |
| Findings.RootUlpFilterCorrected | create_vouchers_for_ulp.py:251-252 | The corrected filter keeps every purpose naming the allowance |
| Findings.RootKontaktSetupAsWritten | create_vouchers_for_kontaktmission.py:111-120 | The mis-encoded type name is never found, while the correct spelling finds the type |
| Findings.TransitDirectionAsWritten | scripts/vouchers/create_vouchers_for_geldtransit.py:142-149 | As written, an outgoing transfer becomes a debit voucher with the contact as customer |
| Findings.TransitDirectionCorrected | scripts/vouchers/create_vouchers_for_geldtransit.py:142-149 | With the direction taken from the sign, the voucher is a debit exactly for incoming money |
| Findings.GarbledSharpSKept | create_vouchers_for_gehalt_old.py:86-87 | The old normaliser keeps a sharp s that the shared one turns into "ss" |
| Findings.SupplierPreferenceAsWritten | voucher_utils.py:432-440 | A number as preferred category never equals a cached category, so no bonus is given |
| Findings.SalaryMappingsAsWritten | scripts/vouchers/create_vouchers_for_gehalt.py:25-32 | The "gwendolyn dewhurst" mapping misses the bank's spelling with the middle name |
| Findings.StopAsWritten | src/js/utils/router.js:26-35 | A stopped router still handles popstate, and a restart holds two listeners |
| Findings.EmptySearchAsWritten | src/js/utils/polyfills.js:46-50 | With an empty search string, the polyfill inserts the replacement only between characters |

## Left out

- Network calls: the sevDesk API, voucher creation, booking and the status re-check are not modelled. A create request is reduced to the `Response` it returns; a booking to the request it sends.
- Markdown plans, console tables, prompts and argument parsing: output only, they decide nothing.
- Floating point: amounts are integer cents, and the voucher sums are their absolute value.
- The clock: the day of a run is a parameter of the root scripts' numbering.
- Unicode: `lower`, `upper`, `strip`, `split` and NFKD are written out for ASCII, Latin-1 and the sharp s, not the full tables; other characters beyond U+00FF pass through these steps unchanged. The mark filter drops U+0300 to U+036F except the grapheme joiner U+034F; combining marks outside that block are kept, where `unicodedata.combining` makes Python drop every mark with a non-zero combining class.
- NameNormalizer.DropMarks: marks with a non-zero combining class outside U+0300 to U+036F (U+0483 or U+20D0, for example) are kept, where Python drops them, because the full combining-class table is not written out.
- Numbering.ParseVoucherNumber: reads ASCII digits only. Python's `\d` on a `str` matches every Unicode decimal digit and `int()` reads them, so the source takes "B-２０２５-7" (full-width digits) as year 2025, counter 7, where the model finds no number in it.
- Polyfills.JsSplit: a Dafny string is a sequence of code points, while JavaScript's `split` works on UTF-16 code units. `split("")`, and with it the empty-search `replaceAll`, therefore cuts a character beyond U+FFFF (an emoji, say) into its two surrogate halves in the source, and keeps it whole in the model.
- SQLite row order: `ORDER BY name` is a stable sort by name with missing names first. SQLite leaves the order of equal names unspecified.
- Categories (`ORDER BY priority, name`) and the other cache tables: no script reads them.
- DOM, window and history: the JavaScript utilities' effects on the page are modelled as state fields and returned signals.
- Callback bodies: a callback is an id, and whether it throws is a parameter.
- Object key order: a JavaScript object built from entries is a Dafny map.
- The invoice page's API calls, toasts and form reading: outside the core.
- `Promise.allSettled` and the other polyfills: no caller in the core.
- Array `at` with a non-integer index: JavaScript's conversion of the index to an integer is not modelled.
- Cache.Upsert: its own contract only bounds the length; what it stores is stated by the lookup lemmas.
- Transfers.KnappschaftSpellingsShareContact: states the mapping table, not a search result.
- InvoiceScript.CsvRoundTrip: only for tables whose cells hold no comma or line break, have no space at either end, under distinct headers, with a non-empty first header and last cell; other tables do not survive the round trip.
- ContactMatching.Resolve: the contract bounds the result to the cache; which contact is found is stated by `ResolveIsFirstBest` and the lemmas after it.
- Salary.CostCentreFor, Ulp.CostCentreFor and the other per-script search functions: their contracts only bound the result to the cache; the lemmas after them state which cost centre or contact is chosen.
- Records.PayeeName: a `payeePayerName` that is JSON null is treated like a missing field and reads as "Unknown". In the source `.get` then returns None, both resolvers return None for it, and the payload's `supplierName` is null. The model has no null payee, so it can find a contact or cost centre named "Unknown" for such a transaction.
- Transfers.TransitBuild: a NULL `paymt_purpose` reads as "" in the model. In the source `transaction.get('paymt_purpose', '')` returns None for a NULL column (create_vouchers_for_bankeinzug.py:113, create_vouchers_for_geldtransit.py:127), the item's description is None, and the payload's description is null, where the model sends "". Both transit filters select on the payee alone, so such a transaction can reach this builder; the fee builders cannot meet it, because their filters need a purpose.
- Cache.ContactRow: a contact written without any name has a NULL name column, which reads back as None. The model reads it as "", which every search skips. In the source such a row raises a TypeError in the search instead. The failing calls are `normalize_name` (voucher_utils.py:408) and `.lower()` in the old salary script (create_vouchers_for_gehalt_old.py:110).
- ContactMatching.MappingHit: a cached contact with a NULL name makes the source raise a TypeError while it checks the mappings. The model never fails here.
- ContactMatching.OverrideHit: a cached contact with a NULL name makes the old script's Gwen Dewhurst override raise. The model never fails here.
- CostCentres.DefaultMatch: a cached cost centre with a NULL name makes the source's `.lower()` raise (voucher_utils.py:346 and 352). The model's cost centres always have a text name.
- src/vouchers/voucher_utils.py is not part of this model; the refactored scripts are modelled against the root voucher_utils.py they were copied from.

## Findings

| source | as written | input that shows it | evidently intended | confidence | as-written member | corrected member |
|---|---|---|---|---|---|---|
| create_vouchers_for_ulp.py:251-252 | looks for "Übungsleiterpauschale" (capital Ü) in the lower-cased purpose | purpose "Übungsleiterpauschale" without "ÜLP" is not selected | compare against the lower-case word | not executed; high | Findings.RootUlpFilterAsWritten | Findings.RootUlpFilterCorrected |
| create_vouchers_for_kontaktmission.py:114 | the whole file is UTF-8 read back as cp1252, comments and output included; in the accounting-type name this gives "fÃ¼r" | a cache holding the correctly spelled type stops the script at setup | search for "für … religiöse … gemeinnützige" | not executed; high | Findings.RootKontaktSetupAsWritten | ScriptSupport.AccountingTypeFor |
| scripts/vouchers/create_vouchers_for_geldtransit.py:142-149 | `is_income_voucher` always True, although the comment says the sign decides | an outgoing transfer of -50.00 becomes a debit (income) voucher | income exactly for a positive amount | not executed; medium | Findings.TransitDirectionAsWritten | Findings.TransitDirectionCorrected |
| create_vouchers_for_gehalt_old.py:87 | the whole file is UTF-8 read back as Mac-Roman, comments and output included; in the sharp-s literals this means the replacement never fires | "Weiß" and "Weiss" normalise differently | replace "ß" by "ss" | not executed; high | Findings.GarbledSharpSKept | NameNormalizer.NoSharpS |
| voucher_utils.py:432-440 | the preferred category 3 (a number) is compared with the cached category_id (text) | a supplier cached with category "3" gets no bonus | compare like types | not executed; high | Findings.SupplierPreferenceAsWritten | ScriptSupport.PreferredContactWins |
| scripts/vouchers/create_vouchers_for_gehalt.py:25-32 | the mapping needs "gwendolyn dewhurst" inside the search name | payee "Gwendolyn Ruth Dewhurst" misses her cost centre | match both names, as the old script did | not executed; medium | Findings.SalaryMappingsAsWritten | Salary.GwendolynDewhurstIsMapped |
| src/js/utils/router.js:32-35 | `stop()` removes a freshly bound function that was never added | start, stop, then a popstate event still runs the route handler | remove the listener that start added | not executed; high | Findings.StopAsWritten | Router.CorrectedStopSilencesPopState |
| src/js/utils/polyfills.js:46-50 | `split("").join(r)` puts the replacement only between characters | "ab".replaceAll("", "-") gives "a-b" | "-a-b-", as the language does | not executed; medium | Findings.EmptySearchAsWritten | Polyfills.InsertEverywhereLayout |

/**
 * The plain contact lookup of the root salary and ÜLP scripts: the first
 * contact, in cache order, with a non-empty name whose lower-cased,
 * stripped form equals the search name, contains it, or is contained in it.
 * There is no scoring and no category preference.
 */
module FirstMatchContact {
  import opened Wrappers
  import opened Text
  import opened ContactMatching
  import CostCentres

  /** The test the loop applies to each named contact, exact comparison first. */
  predicate Matches<C>(q: string, c: Contact<C>)
  {
    var n := Strip(Lower(c.name));
    c.name != "" && (q == n || Contains(n, q) || Contains(q, n))
  }

  /** `find_contact_by_name` of the root salary and ÜLP scripts. */
  function FindFirstContact<C>(contacts: seq<Contact<C>>, payee: string): (r: Option<Contact<C>>)
    ensures payee == "" ==> r.None?
    ensures r.Some? ==> exists k :: 0 <= k < |contacts| && contacts[k] == r.value
                          && Matches(CostCentres.SearchName(payee), contacts[k])
                          && forall j :: 0 <= j < k ==> !Matches(CostCentres.SearchName(payee), contacts[j])
    ensures payee != "" ==> (r.None? <==> forall j :: 0 <= j < |contacts| ==> !Matches(CostCentres.SearchName(payee), contacts[j]))
  {
    if payee == "" then None
    else
      var q := CostCentres.SearchName(payee);
      First(contacts, (c: Contact<C>) => Matches(q, c))
  }

  /** The exact comparison adds nothing: equal names contain each other. */
  lemma ExactTestIsRedundant<C>(q: string, c: Contact<C>)
    ensures Matches(q, c) <==> c.name != "" && (Contains(Strip(Lower(c.name)), q) || Contains(q, Strip(Lower(c.name))))
  {
    ContainsSelf(q);
  }

  /** A contact whose name is blank but not empty matches every payee. */
  lemma BlankNameMatchesEveryone<C>(contacts: seq<Contact<C>>, payee: string, j: nat)
    requires payee != "" && j < |contacts|
    requires contacts[j].name != "" && Strip(Lower(contacts[j].name)) == ""
    ensures FindFirstContact(contacts, payee).Some?
  {
    ContainsEmpty(CostCentres.SearchName(payee));
    assert Matches(CostCentres.SearchName(payee), contacts[j]);
  }

  /** Contacts listed after a match never change the result. */
  lemma FirstContactKeepsFirst<C>(contacts: seq<Contact<C>>, more: seq<Contact<C>>, payee: string)
    requires FindFirstContact(contacts, payee).Some?
    ensures FindFirstContact(contacts + more, payee) == FindFirstContact(contacts, payee)
  {
    var q := CostCentres.SearchName(payee);
    FirstConcat(contacts, more, (c: Contact<C>) => Matches(q, c));
  }
}

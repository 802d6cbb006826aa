/**
 * The local cache (`TransactionDB`): tables keyed by id, where a write
 * replaces the row with the same id (SQLite's INSERT OR REPLACE), bulk
 * inserts that count their successes, the conversion of API contacts into
 * rows, and the reads the voucher scripts scan in order.
 *
 * A table is the sequence of its rows in storage order. REPLACE deletes the
 * old row and inserts the new one, so a replaced row moves to the end.
 * Cost centres, accounting types and contacts are read ORDER BY name: code
 * point order (SQLite's BINARY collation), with a NULL name, which is the
 * empty string here, first.
 */
module Cache {
  import opened Wrappers
  import opened Text
  import opened Records
  import opened Numbering
  import opened ContactMatching

  // -----------------------------------------------------------------------
  // Status names

  /** The `status_name` column written with every transaction. */
  function StatusName(status: int): (r: string)
    ensures r == "Open" <==> status == 100
    ensures r == "Linked" <==> status == 200
    ensures r == "Booked" <==> status == 300
    ensures r == "Unknown" <==> status != 100 && status != 200 && status != 300
  {
    if status == 100 then "Open"
    else if status == 200 then "Linked"
    else if status == 300 then "Booked"
    else "Unknown"
  }

  /** The status a known status name stands for. */
  function StatusCode(name: string): Option<int>
  {
    if name == "Open" then Some(100)
    else if name == "Linked" then Some(200)
    else if name == "Booked" then Some(300)
    else None
  }

  /** A status name other than "Unknown" gives its status back; "Unknown" gives none. */
  lemma StatusNameRoundTrip(status: int)
    ensures StatusName(status) != "Unknown" ==> StatusCode(StatusName(status)) == Some(status)
    ensures StatusName(status) == "Unknown" ==> StatusCode(StatusName(status)).None?
  {
  }

  // -----------------------------------------------------------------------
  // Keyed tables

  /** No two rows share a key. */
  ghost predicate KeysUnique<R>(rows: seq<R>, key: R -> string)
  {
    forall i, j :: 0 <= i < j < |rows| ==> key(rows[i]) != key(rows[j])
  }

  /** `SELECT * ... WHERE id = ?`: the row stored under key `k`. */
  function Lookup<R>(rows: seq<R>, key: R -> string, k: string): (r: Option<R>)
    ensures r.Some? ==> r.value in rows && key(r.value) == k
    ensures r.None? <==> forall i :: 0 <= i < |rows| ==> key(rows[i]) != k
  {
    First(rows, (x: R) => key(x) == k)
  }

  /** INSERT OR REPLACE: the row with the same key is deleted and the new row goes to the end. */
  function Upsert<R>(rows: seq<R>, key: R -> string, row: R): (t: seq<R>)
    ensures |t| <= |rows| + 1
  {
    Filter(rows, (x: R) => key(x) != key(row)) + [row]
  }

  /** After a write, its key reads back the row written. */
  lemma LookupAfterUpsert<R>(rows: seq<R>, key: R -> string, row: R)
    ensures Lookup(Upsert(rows, key, row), key, key(row)) == Some(row)
  {
    var kept := Filter(rows, (x: R) => key(x) != key(row));
    var t := kept + [row];
    var r := Lookup(t, key, key(row));
    assert t[|kept|] == row;
  }

  /** A write leaves every other key as it was. */
  lemma LookupOtherAfterUpsert<R>(rows: seq<R>, key: R -> string, row: R, k: string)
    requires k != key(row)
    ensures Lookup(Upsert(rows, key, row), key, k) == Lookup(rows, key, k)
  {
    var p := (x: R) => key(x) != key(row);
    var q := (x: R) => key(x) == k;
    var kept := Filter(rows, p);
    FilterKeepsFirst(rows, p, q);
    if First(kept, q).Some? {
      FirstConcat(kept, [row], q);
    }
  }

  /** Of two writes with the same key, the later one wins. */
  lemma LastWriteWins<R>(rows: seq<R>, key: R -> string, a: R, b: R)
    requires key(a) == key(b)
    ensures Lookup(Upsert(Upsert(rows, key, a), key, b), key, key(a)) == Some(b)
  {
    LookupAfterUpsert(Upsert(rows, key, a), key, b);
  }

  /** Filtering keeps keys unique. */
  lemma {:induction false} FilterKeepsKeysUnique<R>(rows: seq<R>, key: R -> string, p: R -> bool)
    requires KeysUnique(rows, key)
    ensures KeysUnique(Filter(rows, p), key)
  {
    if |rows| > 0 {
      FilterKeepsKeysUnique(rows[1..], key, p);
      var rest := Filter(rows[1..], p);
      forall i | 0 <= i < |rest|
        ensures key(rest[i]) != key(rows[0])
      {
        var j :| 0 <= j < |rows[1..]| && rows[1..][j] == rest[i];
        assert rows[j + 1] == rest[i];
      }
    }
  }

  /** A table written only through `Upsert` never holds two rows with the same key. */
  lemma UpsertKeepsKeysUnique<R>(rows: seq<R>, key: R -> string, row: R)
    requires KeysUnique(rows, key)
    ensures KeysUnique(Upsert(rows, key, row), key)
  {
    var p := (x: R) => key(x) != key(row);
    FilterKeepsKeysUnique(rows, key, p);
  }

  // -----------------------------------------------------------------------
  // Bulk inserts

  /**
   * One `insert_*` call. None is a record whose conversion raises: the
   * call returns False and the table is unchanged.
   */
  function InsertOne<R>(rows: seq<R>, key: R -> string, incoming: Option<R>): seq<R>
  {
    match incoming
    case None => rows
    case Some(row) => Upsert(rows, key, row)
  }

  /** The table after the inserts, in order; each insert commits on its own. */
  function InsertAll<R>(rows: seq<R>, key: R -> string, incoming: seq<Option<R>>): seq<R>
    decreases |incoming|
  {
    if |incoming| == 0 then rows
    else InsertAll(InsertOne(rows, key, incoming[0]), key, incoming[1..])
  }

  /** How many of the inserts succeed. */
  function Succeeded<R>(incoming: seq<Option<R>>): (n: nat)
    ensures n <= |incoming|
  {
    if |incoming| == 0 then 0
    else (if incoming[0].Some? then 1 else 0) + Succeeded(incoming[1..])
  }

  /** `bulk_insert_*`: inserts one record after the other and counts the successes. */
  method BulkInsert<R>(rows: seq<R>, key: R -> string, incoming: seq<Option<R>>) returns (table: seq<R>, count: nat)
    ensures table == InsertAll(rows, key, incoming)
    ensures count == Succeeded(incoming) && count <= |incoming|
  {
    table := rows;
    count := 0;
    var n := 0;
    while n < |incoming|
      invariant 0 <= n <= |incoming|
      invariant InsertAll(table, key, incoming[n..]) == InsertAll(rows, key, incoming)
      invariant count + Succeeded(incoming[n..]) == Succeeded(incoming)
    {
      assert incoming[n..][1..] == incoming[n + 1..];
      table := InsertOne(table, key, incoming[n]);
      if incoming[n].Some? {
        count := count + 1;
      }
      n := n + 1;
    }
    assert incoming[n..] == [];
  }

  /** Inserts under other keys leave a key's row alone. */
  lemma {:induction false} InsertAllOthers<R>(rows: seq<R>, key: R -> string, incoming: seq<Option<R>>, k: string)
    requires forall i :: 0 <= i < |incoming| && incoming[i].Some? ==> key(incoming[i].value) != k
    ensures Lookup(InsertAll(rows, key, incoming), key, k) == Lookup(rows, key, k)
    decreases |incoming|
  {
    if |incoming| > 0 {
      var next := InsertOne(rows, key, incoming[0]);
      if incoming[0].Some? {
        LookupOtherAfterUpsert(rows, key, incoming[0].value, k);
      }
      InsertAllOthers(next, key, incoming[1..], k);
    }
  }

  /** After a bulk insert, each key holds the last record written under it. */
  lemma {:induction false} InsertAllLastWins<R>(rows: seq<R>, key: R -> string, incoming: seq<Option<R>>, i: nat)
    requires i < |incoming| && incoming[i].Some?
    requires forall j :: i < j < |incoming| && incoming[j].Some? ==> key(incoming[j].value) != key(incoming[i].value)
    ensures Lookup(InsertAll(rows, key, incoming), key, key(incoming[i].value)) == incoming[i]
    decreases |incoming|
  {
    var next := InsertOne(rows, key, incoming[0]);
    if i == 0 {
      LookupAfterUpsert(rows, key, incoming[0].value);
      InsertAllOthers(next, key, incoming[1..], key(incoming[0].value));
    } else {
      InsertAllLastWins(next, key, incoming[1..], i - 1);
    }
  }

  // -----------------------------------------------------------------------
  // Contacts as the API delivers them

  /** The fields of an API contact the cache reads. Ids may be numbers or strings. */
  datatype RawContact = RawContact(
    id: PyValue,
    name: Option<string>,
    surename: Option<string>,
    familyname: Option<string>,
    categoryId: Option<PyValue>)

  /** Python's `str(n)` for an integer. */
  function IntToString(n: int): (s: string)
    ensures |s| > 0
  {
    if n < 0 then "-" + NatToString(-n) else NatToString(n)
  }

  /** Python's `str(v)`. */
  function StrOf(v: PyValue): string
  {
    match v
    case PyStr(s) => s
    case PyInt(n) => IntToString(n)
  }

  /**
   * The stored name: the contact's name, or, when that is missing or
   * empty and a part is not blank, "surename familyname" stripped.
   */
  function StoredName(name: Option<string>, surename: Option<string>, familyname: Option<string>): (r: Option<string>)
    ensures name.Some? && name.value != "" ==> r == name
    ensures (name.None? || name.value == "") && Strip(surename.GetOr("")) == "" && Strip(familyname.GetOr("")) == "" ==> r == name
  {
    if name.Some? && name.value != "" then name
    else
      var s := Strip(surename.GetOr(""));
      var f := Strip(familyname.GetOr(""));
      if s != "" || f != "" then Some(Strip(s + " " + f)) else name
  }

  /**
   * A synthesised name is never blank and has no surrounding white space;
   * with both parts present it is the two stripped parts joined by a blank.
   */
  lemma SynthesisedName(surename: Option<string>, familyname: Option<string>)
    requires Strip(surename.GetOr("")) != "" || Strip(familyname.GetOr("")) != ""
    ensures var r := StoredName(None, surename, familyname);
      && r.Some? && r.value != "" && Strip(r.value) == r.value
      && ((Strip(surename.GetOr("")) != "" && Strip(familyname.GetOr("")) != "")
          ==> r.value == Strip(surename.GetOr("")) + " " + Strip(familyname.GetOr("")))
  {
    var s := Strip(surename.GetOr(""));
    var f := Strip(familyname.GetOr(""));
    assert StoredName(None, surename, familyname) == Some(Strip(s + " " + f));
    StripIdempotent(surename.GetOr(""));
    StripIdempotent(familyname.GetOr(""));
    JoinedPartsNotBlank(s, f);
    StripIdempotent(s + " " + f);
    if s != "" && f != "" {
      JoinedStrippedParts(s, f);
    }
  }

  /** Two parts, one of them not blank, joined by a blank strip to something not blank. */
  lemma JoinedPartsNotBlank(s: string, f: string)
    requires s == Strip(s) && f == Strip(f) && (s != "" || f != "")
    ensures Strip(s + " " + f) != ""
  {
    var full := s + " " + f;
    if s != "" {
      StrippedEnds(s);
      assert full[0] == s[0];
      StripNonEmpty(full, 0);
    } else {
      StrippedEnds(f);
      assert full[|full| - 1] == f[|f| - 1];
      StripNonEmpty(full, |full| - 1);
    }
  }

  /** A stripped string that is not empty neither starts nor ends with white space. */
  lemma StrippedEnds(s: string)
    requires s == Strip(s) && s != ""
    ensures !IsSpace(s[0]) && !IsSpace(s[|s| - 1])
  {
    StripIdempotent(s);
  }

  /** Two stripped, non-blank parts joined by a blank are already stripped. */
  lemma JoinedStrippedParts(s: string, f: string)
    requires s == Strip(s) && f == Strip(f) && s != "" && f != ""
    ensures Strip(s + " " + f) == s + " " + f
  {
    StrippedEnds(s);
    StrippedEnds(f);
    var full := s + " " + f;
    assert full[0] == s[0] && full[|full| - 1] == f[|f| - 1];
    StripByIdentity(full, IsSpace);
  }

  /**
   * The contact row `insert_contact` writes and `get_all_contacts` reads
   * back. The category id goes into a TEXT column, whose type affinity
   * turns a number into its decimal text, so it always reads back as a
   * string. A contact stored without any name has a NULL name column,
   * which reads back as Python's None; the model reads it as "", the
   * empty name the resolvers skip.
   */
  function ContactRow(c: RawContact): (row: Contact<PyValue>)
    ensures row.id == StrOf(c.id)
    ensures row.category.Some? <==> c.categoryId.Some?
    ensures row.category.Some? ==> row.category.value == PyStr(StrOf(c.categoryId.value))
  {
    Contact(StrOf(c.id),
            StoredName(c.name, c.surename, c.familyname).GetOr(""),
            if c.categoryId.Some? then Some(PyStr(StrOf(c.categoryId.value))) else None)
  }

  /** Every category id read from the cache is a string, never a number. */
  lemma CachedCategoriesAreText(c: RawContact)
    ensures ContactRow(c).category.None? || ContactRow(c).category.value.PyStr?
  {
  }

  /** A numeric id and its decimal string are the same key: writing both leaves one row. */
  lemma NumericAndTextIdsCollide(n: nat, a: RawContact, b: RawContact)
    requires a.id == PyInt(n) && b.id == PyStr(NatToString(n))
    ensures var key := (c: Contact<PyValue>) => c.id;
      Lookup(Upsert(Upsert([], key, ContactRow(a)), key, ContactRow(b)), key, NatToString(n)) == Some(ContactRow(b))
  {
    var key := (c: Contact<PyValue>) => c.id;
    LastWriteWins([], key, ContactRow(a), ContactRow(b));
  }

  // -----------------------------------------------------------------------
  // Reads in name order

  /** SQLite's BINARY collation on text: code point order, a proper prefix first. */
  predicate NameLe(a: string, b: string)
    decreases |a|
  {
    |a| == 0 || (|b| > 0 && (a[0] < b[0] || (a[0] == b[0] && NameLe(a[1..], b[1..]))))
  }

  lemma {:induction false} NameLeTotal(a: string, b: string)
    ensures NameLe(a, b) || NameLe(b, a)
    decreases |a|
  {
    if |a| > 0 && |b| > 0 && a[0] == b[0] {
      NameLeTotal(a[1..], b[1..]);
    }
  }

  lemma {:induction false} NameLeTrans(a: string, b: string, c: string)
    requires NameLe(a, b) && NameLe(b, c)
    ensures NameLe(a, c)
    decreases |a|
  {
    if |a| > 0 && a[0] == b[0] && b[0] == c[0] {
      NameLeTrans(a[1..], b[1..], c[1..]);
    }
  }

  lemma {:induction false} NameLeAntisymmetric(a: string, b: string)
    requires NameLe(a, b) && NameLe(b, a)
    ensures a == b
    decreases |a|
  {
    if |a| > 0 {
      NameLeAntisymmetric(a[1..], b[1..]);
      assert a == [a[0]] + a[1..] && b == [b[0]] + b[1..];
    }
  }

  /** Neighbouring rows are in name order. */
  predicate SortedByName<R>(rows: seq<R>, name: R -> string)
  {
    forall i :: 0 <= i < |rows| - 1 ==> NameLe(name(rows[i]), name(rows[i + 1]))
  }

  /** Puts `x` in front of the first row whose name is not smaller. */
  function InsertByName<R(==)>(x: R, rows: seq<R>, name: R -> string): (r: seq<R>)
    requires SortedByName(rows, name)
    ensures multiset(r) == multiset(rows) + multiset{x}
    ensures SortedByName(r, name)
    ensures |r| == |rows| + 1 && (r[0] == x || (|rows| > 0 && r[0] == rows[0]))
  {
    if |rows| == 0 || NameLe(name(x), name(rows[0])) then [x] + rows
    else
      NameLeTotal(name(x), name(rows[0]));
      var rest := InsertByName(x, rows[1..], name);
      assert rows == [rows[0]] + rows[1..];
      [rows[0]] + rest
  }

  /** `ORDER BY name`: the rows in name order, rows with the same name in storage order. */
  function SortByName<R(==)>(rows: seq<R>, name: R -> string): (r: seq<R>)
    ensures multiset(r) == multiset(rows)
    ensures SortedByName(r, name)
  {
    if |rows| == 0 then []
    else
      assert rows == [rows[0]] + rows[1..];
      InsertByName(rows[0], SortByName(rows[1..], name), name)
  }

  /** In a sorted sequence every earlier row's name is at most every later row's. */
  lemma {:induction false} SortedIsOrdered<R>(rows: seq<R>, name: R -> string, i: nat, j: nat)
    requires SortedByName(rows, name) && i <= j < |rows|
    ensures NameLe(name(rows[i]), name(rows[j]))
    decreases j - i
  {
    if i == j {
      NameLeReflexive(name(rows[i]));
    } else {
      SortedIsOrdered(rows, name, i + 1, j);
      NameLeTrans(name(rows[i]), name(rows[i + 1]), name(rows[j]));
    }
  }

  lemma {:induction false} NameLeReflexive(a: string)
    ensures NameLe(a, a)
    decreases |a|
  {
    if |a| > 0 {
      NameLeReflexive(a[1..]);
    }
  }

  /**
   * Every "first match" over a name-ordered read picks a match with the
   * smallest name: no other matching row sorts before it.
   */
  lemma FirstMatchHasSmallestName<R>(rows: seq<R>, name: R -> string, p: R -> bool, y: R)
    requires y in rows && p(y)
    ensures First(SortByName(rows, name), p).Some?
    ensures NameLe(name(First(SortByName(rows, name), p).value), name(y))
  {
    var sorted := SortByName(rows, name);
    assert y in multiset(rows);
    assert y in sorted;
    var j :| 0 <= j < |sorted| && sorted[j] == y;
    var x := First(sorted, p).value;
    var k :| 0 <= k < |sorted| && sorted[k] == x && forall i :: 0 <= i < k ==> !p(sorted[i]);
    assert k <= j;
    SortedIsOrdered(sorted, name, k, j);
  }

  function CostCentreName(c: CostCentre): string { c.name }
  function AccountingTypeName(a: AccountingType): string { a.name }
  function ContactName(c: Contact<PyValue>): string { c.name }

  /** `get_all_cost_centres`. */
  function AllCostCentres(table: seq<CostCentre>): (r: seq<CostCentre>)
    ensures multiset(r) == multiset(table) && SortedByName(r, CostCentreName)
  {
    SortByName(table, CostCentreName)
  }

  /** `get_all_accounting_types`. */
  function AllAccountingTypes(table: seq<AccountingType>): (r: seq<AccountingType>)
    ensures multiset(r) == multiset(table) && SortedByName(r, AccountingTypeName)
  {
    SortByName(table, AccountingTypeName)
  }

  /** `get_all_contacts`. */
  function AllContacts(table: seq<Contact<PyValue>>): (r: seq<Contact<PyValue>>)
    ensures multiset(r) == multiset(table) && SortedByName(r, ContactName)
  {
    SortByName(table, ContactName)
  }

  /** `get_all_transactions(status)`: storage order, only the given status when one is given. */
  function AllTransactions(table: seq<Transaction>, status: Option<int>): (r: seq<Transaction>)
    ensures status.None? ==> r == table
    ensures status.Some? ==> forall i :: 0 <= i < |r| ==> r[i] in table && r[i].status == status.value
    ensures status.Some? ==> forall i :: 0 <= i < |table| && table[i].status == status.value ==> table[i] in r
  {
    match status
    case None => table
    case Some(s) => Filter(table, (t: Transaction) => t.status == s)
  }
}

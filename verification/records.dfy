/**
 * The rows the voucher scripts read from the local cache: transactions,
 * cost centres and accounting types. Contacts are generic in the type of
 * their category id and live with the contact resolver.
 *
 * Amounts are whole cents; a NULL payment purpose is the empty string,
 * where the source carries None.
 */
module Records {
  import opened Wrappers

  /** A Python value that can be either a string or an integer: `"3" == 3` is False in Python. */
  datatype PyValue = PyStr(text: string) | PyInt(number: int)

  datatype CostCentre = CostCentre(id: string, name: string)

  datatype AccountingType = AccountingType(id: string, name: string)

  /**
   * A bank transaction. `rawPayee` is the `payeePayerName` field of the raw
   * JSON record, None when the key is absent.
   */
  datatype Transaction = Transaction(
    id: string,
    amount: int,
    purpose: string,
    rawPayee: Option<string>,
    valueDate: string,
    status: int)

  /** Python's `s[:n]`. */
  function Take(s: string, n: nat): (r: string)
    ensures |r| == if |s| <= n then |s| else n
    ensures forall i :: 0 <= i < |r| ==> r[i] == s[i]
  {
    if |s| <= n then s else s[..n]
  }

  /** The payee name the scripts work with: the JSON field, or "Unknown" when it is absent. */
  function PayeeName(t: Transaction): (r: string)
    ensures t.rawPayee.Some? ==> r == t.rawPayee.value
    ensures t.rawPayee.None? ==> r == "Unknown"
  {
    t.rawPayee.GetOr("Unknown")
  }
}

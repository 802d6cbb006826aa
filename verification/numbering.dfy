/**
 * Voucher numbers.
 *
 * The shared numbering (`get_next_voucher_number` and
 * `generate_voucher_numbers`) scans the recent vouchers for labels that
 * start with `B-YYYY-N`, takes the highest N of the current year, and hands
 * out consecutive numbers after it; when the vouchers cannot be fetched it
 * starts at 1. The root salary and ÜLP scripts instead derive the number
 * from the date and the transaction id.
 *
 * The clock is a parameter (`year`, `date`), and the fetch is its outcome:
 * the voucher list or an error. Digits are the ASCII digits.
 */
module Numbering {
  import opened Wrappers
  import opened Text

  // -----------------------------------------------------------------------
  // Decimal digits

  predicate IsDigit(c: char)
  {
    '0' <= c <= '9'
  }

  function DigitValue(c: char): nat
    requires IsDigit(c)
  {
    c as int - '0' as int
  }

  function DigitChar(d: nat): (c: char)
    requires d < 10
    ensures IsDigit(c) && DigitValue(c) == d
  {
    ('0' as int + d) as char
  }

  /** Python's `int(s)` on a string of ASCII digits. */
  function ParseNat(s: string): nat
    requires forall i :: 0 <= i < |s| ==> IsDigit(s[i])
  {
    if |s| == 0 then 0 else ParseNat(s[..|s| - 1]) * 10 + DigitValue(s[|s| - 1])
  }

  /** Python's `str(n)` for a natural number. */
  function NatToString(n: nat): (s: string)
    ensures |s| > 0
    ensures forall i :: 0 <= i < |s| ==> IsDigit(s[i])
  {
    if n < 10 then [DigitChar(n)] else NatToString(n / 10) + [DigitChar(n % 10)]
  }

  /** Reading back what was written gives the number again. */
  lemma {:induction false} ParseNatToString(n: nat)
    ensures ParseNat(NatToString(n)) == n
  {
    var s := NatToString(n);
    if n >= 10 {
      ParseNatToString(n / 10);
      assert s[..|s| - 1] == NatToString(n / 10);
    }
  }

  /** Distinct numbers are written differently. */
  lemma NatToStringInjective(m: nat, n: nat)
    requires NatToString(m) == NatToString(n)
    ensures m == n
  {
    ParseNatToString(m);
    ParseNatToString(n);
  }

  /** Years 1000 to 9999 are written with four digits. */
  lemma {:induction false} FourDigitYear(y: nat)
    requires 1000 <= y <= 9999
    ensures |NatToString(y)| == 4
  {
    assert |NatToString(y / 10)| == 3 by {
      assert |NatToString(y / 100)| == 2 by {
        assert |NatToString(y / 1000)| == 1;
      }
    }
  }

  /** Length of the run of digits at the start of `s`: what the greedy `\d+` consumes. */
  function DigitRun(s: string): (n: nat)
    ensures n <= |s|
    ensures forall i :: 0 <= i < n ==> IsDigit(s[i])
    ensures n < |s| ==> !IsDigit(s[n])
  {
    if |s| == 0 || !IsDigit(s[0]) then 0 else 1 + DigitRun(s[1..])
  }

  lemma {:induction false} DigitRunAll(s: string)
    requires forall i :: 0 <= i < |s| ==> IsDigit(s[i])
    ensures DigitRun(s) == |s|
  {
    if |s| > 0 {
      DigitRunAll(s[1..]);
    }
  }

  // -----------------------------------------------------------------------
  // B-YYYY-N labels

  /**
   * `re.match(r'B-(\d{4})-(\d+)', s)`: a match anchored at the start, with
   * whatever follows the digits ignored. Yields (year, number).
   */
  function ParseVoucherNumber(s: string): (r: Option<(nat, nat)>)
    ensures r.Some? ==> |s| >= 8 && s[..2] == "B-" && s[6] == '-'
  {
    if |s| >= 8 && s[..2] == "B-" && s[6] == '-'
       && (forall i :: 2 <= i < 6 ==> IsDigit(s[i])) && DigitRun(s[7..]) > 0
    then
      var run := DigitRun(s[7..]);
      Some((ParseNat(s[2..6]), ParseNat(s[7..][..run])))
    else None
  }

  /** `f"B-{year}-{n}"`. */
  function FormatVoucherNumber(year: nat, n: nat): string
  {
    "B-" + NatToString(year) + "-" + NatToString(n)
  }

  /** Every number written for a four-digit year is read back as that year and number. */
  lemma VoucherNumberRoundTrip(year: nat, n: nat)
    requires 1000 <= year <= 9999
    ensures ParseVoucherNumber(FormatVoucherNumber(year, n)) == Some((year, n))
  {
    var ys := NatToString(year);
    var ns := NatToString(n);
    var s := FormatVoucherNumber(year, n);
    FourDigitYear(year);
    assert s[..2] == "B-";
    assert s[2..6] == ys;
    assert s[6] == '-';
    assert s[7..] == ns;
    DigitRunAll(ns);
    assert ns[..|ns|] == ns;
    ParseNatToString(year);
    ParseNatToString(n);
  }

  // -----------------------------------------------------------------------
  // Next number

  /** A fetched voucher: its `voucherNumber` and `description`, "" when missing. */
  datatype Voucher = Voucher(voucherNumber: string, description: string)

  /** `voucher.get('voucherNumber') or voucher.get('description')`. */
  function Label(v: Voucher): string
  {
    if v.voucherNumber != "" then v.voucherNumber else v.description
  }

  /** The number of a voucher of `year`, if its label has the B-YYYY-N form. */
  function NumberIn(v: Voucher, year: nat): Option<nat>
  {
    match ParseVoucherNumber(Label(v))
    case Some((y, n)) => if y == year then Some(n) else None
    case None => None
  }

  /** The highest number of `year` among the vouchers, 0 when there is none. */
  function Highest(vs: seq<Voucher>, year: nat): nat
  {
    MaxNumber(seq(|vs|, i requires 0 <= i < |vs| => NumberIn(vs[i], year)))
  }

  /** The largest of the numbers present, 0 when there is none. */
  function MaxNumber(ns: seq<Option<nat>>): (h: nat)
    ensures forall i :: 0 <= i < |ns| && ns[i].Some? ==> ns[i].value <= h
    ensures h == 0 || exists i :: 0 <= i < |ns| && ns[i] == Some(h)
  {
    if |ns| == 0 then 0
    else
      var h := MaxNumber(ns[1..]);
      assert forall i :: 1 <= i < |ns| ==> ns[1..][i - 1] == ns[i];
      match ns[0]
      case Some(n) => if n > h then n else h
      case None => h
  }

  /** `get_next_voucher_number`: one past the highest number of the year, or 1 when the fetch failed. */
  function NextVoucherNumber(fetched: Result<seq<Voucher>, string>, year: nat): (r: nat)
    ensures r >= 1
    ensures fetched.Failure? ==> r == 1
  {
    match fetched
    case Failure(_) => 1
    case Success(vs) => Highest(vs, year) + 1
  }

  /**
   * After a successful fetch the next number exceeds every number of the
   * year already used, and the one before it is in use unless it is 0.
   */
  lemma NextIsPastEveryNumber(vs: seq<Voucher>, year: nat)
    ensures forall i :: 0 <= i < |vs| && NumberIn(vs[i], year).Some? ==> NumberIn(vs[i], year).value < NextVoucherNumber(Success(vs), year)
    ensures NextVoucherNumber(Success(vs), year) > 1
            ==> exists i :: 0 <= i < |vs| && NumberIn(vs[i], year) == Some(NextVoucherNumber(Success(vs), year) - 1)
  {
    var ns := seq(|vs|, i requires 0 <= i < |vs| => NumberIn(vs[i], year));
    assert forall i :: 0 <= i < |vs| ==> ns[i] == NumberIn(vs[i], year);
  }

  /** `generate_voucher_numbers`: `count` consecutive labels starting at the next number. */
  function GenerateVoucherNumbers(fetched: Result<seq<Voucher>, string>, year: nat, count: nat): (r: seq<string>)
    ensures |r| == count
    ensures forall i :: 0 <= i < count ==> r[i] == FormatVoucherNumber(year, NextVoucherNumber(fetched, year) + i)
  {
    Labels(year, NextVoucherNumber(fetched, year), count)
  }

  /** The labels of numbers `next`, `next + 1`, ... of `year`, `count` of them. */
  function Labels(year: nat, next: nat, count: nat): (r: seq<string>)
    ensures |r| == count && forall i :: 0 <= i < count ==> r[i] == FormatVoucherNumber(year, next + i)
  {
    seq(count, i requires 0 <= i < count => FormatVoucherNumber(year, next + i))
  }

  /**
   * The generated labels are consecutive: label i reads back as number
   * next + i of the year.
   */
  lemma GeneratedAreConsecutive(fetched: Result<seq<Voucher>, string>, year: nat, count: nat, i: nat)
    requires 1000 <= year <= 9999 && i < count
    ensures ParseVoucherNumber(GenerateVoucherNumbers(fetched, year, count)[i])
            == Some((year, NextVoucherNumber(fetched, year) + i))
  {
    VoucherNumberRoundTrip(year, NextVoucherNumber(fetched, year) + i);
  }

  /** The generated labels are pairwise distinct. */
  lemma GeneratedAreDistinct(fetched: Result<seq<Voucher>, string>, year: nat, count: nat, i: nat, j: nat)
    requires i < j < count
    ensures GenerateVoucherNumbers(fetched, year, count)[i] != GenerateVoucherNumbers(fetched, year, count)[j]
  {
    var next := NextVoucherNumber(fetched, year);
    FormatInjective(year, next + i, next + j);
  }

  /** Labels of one year with different numbers differ. */
  lemma FormatInjective(year: nat, m: nat, n: nat)
    requires m != n
    ensures FormatVoucherNumber(year, m) != FormatVoucherNumber(year, n)
  {
    var a := FormatVoucherNumber(year, m);
    var b := FormatVoucherNumber(year, n);
    if a == b {
      var p := "B-" + NatToString(year) + "-";
      assert a == p + NatToString(m) && b == p + NatToString(n);
      assert a[|p|..] == NatToString(m) && b[|p|..] == NatToString(n);
      NatToStringInjective(m, n);
    }
  }

  /**
   * After a successful fetch, no generated label carries the number of a
   * fetched voucher of the same year.
   */
  lemma GeneratedAreFresh(vs: seq<Voucher>, year: nat, count: nat, i: nat, k: nat)
    requires 1000 <= year <= 9999 && i < count && k < |vs|
    requires NumberIn(vs[k], year).Some?
    ensures ParseVoucherNumber(GenerateVoucherNumbers(Success(vs), year, count)[i]).Some?
    ensures NumberIn(vs[k], year).value < ParseVoucherNumber(GenerateVoucherNumbers(Success(vs), year, count)[i]).value.1
  {
    GeneratedAreConsecutive(Success(vs), year, count, i);
    NextIsPastEveryNumber(vs, year);
  }

  // -----------------------------------------------------------------------
  // Date-based numbers of the root donation, salary and ÜLP scripts

  /** `f"BEL-{date}-{transaction_id}"`. */
  function DatedVoucherNumber(date: string, id: string): string
  {
    "BEL-" + date + "-" + id
  }

  /** `f"BEL-{date}--{transaction_id}"`: the ÜLP script writes two hyphens. */
  function UlpVoucherNumber(date: string, id: string): string
  {
    "BEL-" + date + "--" + id
  }

  /** On one day, different transactions get different dated numbers. */
  lemma DatedNumberInjective(date: string, a: string, b: string)
    requires DatedVoucherNumber(date, a) == DatedVoucherNumber(date, b)
    ensures a == b
  {
    var p := "BEL-" + date + "-";
    assert DatedVoucherNumber(date, a) == p + a && DatedVoucherNumber(date, b) == p + b;
    assert (p + a)[|p|..] == a && (p + b)[|p|..] == b;
  }

  /** Same for the ÜLP numbers. */
  lemma UlpNumberInjective(date: string, a: string, b: string)
    requires UlpVoucherNumber(date, a) == UlpVoucherNumber(date, b)
    ensures a == b
  {
    var p := "BEL-" + date + "--";
    assert UlpVoucherNumber(date, a) == p + a && UlpVoucherNumber(date, b) == p + b;
    assert (p + a)[|p|..] == a && (p + b)[|p|..] == b;
  }

  /**
   * An ÜLP number is the salary number of the id with a hyphen in front,
   * so the two formats coincide only for an id that starts with a hyphen.
   */
  lemma UlpAndDatedNumbersDiffer(date: string, a: string, b: string)
    ensures UlpVoucherNumber(date, a) == DatedVoucherNumber(date, b) <==> b == "-" + a
  {
    var p := "BEL-" + date + "-";
    assert UlpVoucherNumber(date, a) == p + ("-" + a);
    assert DatedVoucherNumber(date, b) == p + b;
    if p + ("-" + a) == p + b {
      assert (p + ("-" + a))[|p|..] == "-" + a;
      assert (p + b)[|p|..] == b;
    }
  }
}

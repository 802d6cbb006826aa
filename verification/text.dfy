/**
 * The string primitives the voucher scripts and the front-end utilities
 * rely on, written out over `seq<char>`: Python's `in`, `startswith`,
 * `lower`, `upper`, `strip`, `split()`, `split(sep)`, `sep.join`,
 * `replace`, and JavaScript's `trim`.
 *
 * Case mapping covers ASCII, Latin-1 and the German capital sharp s; the
 * full Unicode tables are not part of this model.
 */
module Text {

  /** `s.startswith(p)`. */
  predicate IsPrefix(p: string, s: string)
  {
    |p| <= |s| && s[..|p|] == p
  }

  /** Python's substring test `p in s`. */
  predicate Contains(s: string, p: string)
  {
    exists i :: 0 <= i <= |s| && IsPrefix(p, s[i..])
  }

  lemma ContainsAt(s: string, p: string, i: int)
    requires 0 <= i <= |s| - |p| && s[i..i + |p|] == p
    ensures Contains(s, p)
  {
    assert IsPrefix(p, s[i..]);
  }

  /** `p` occurs at `i`, stated character by character. */
  lemma ContainsAtIndex(s: string, p: string, i: int)
    requires 0 <= i <= |s| - |p| && forall k :: 0 <= k < |p| ==> s[i + k] == p[k]
    ensures Contains(s, p)
  {
    assert s[i..i + |p|] == p;
    ContainsAt(s, p, i);
  }

  lemma TooShortToContain(s: string, p: string)
    requires |s| < |p|
    ensures !Contains(s, p)
  {
  }

  lemma ContainsWitness(s: string, p: string) returns (i: int)
    requires Contains(s, p)
    ensures 0 <= i <= |s| - |p| && s[i..i + |p|] == p
  {
    i :| 0 <= i <= |s| && IsPrefix(p, s[i..]);
    assert s[i..][..|p|] == s[i..i + |p|];
  }

  lemma ContainsEmpty(s: string)
    ensures Contains(s, "")
  {
    ContainsAt(s, "", 0);
  }

  lemma ContainsSelf(s: string)
    ensures Contains(s, s)
  {
    ContainsAt(s, s, 0);
  }

  lemma ContainsPrefix(p: string, s: string)
    requires IsPrefix(p, s)
    ensures Contains(s, p)
  {
    ContainsAt(s, p, 0);
  }

  /** A string is found inside anything that surrounds it. */
  lemma ContainsInfix(x: string, p: string, y: string)
    ensures Contains(x + p + y, p)
  {
    ContainsAt(x + p + y, p, |x|);
  }

  /** Substring containment is transitive. */
  lemma ContainsTrans(a: string, b: string, c: string)
    requires Contains(a, b) && Contains(b, c)
    ensures Contains(a, c)
  {
    var i := ContainsWitness(a, b);
    var j := ContainsWitness(b, c);
    forall k | 0 <= k < |c|
      ensures a[i + j + k] == c[k]
    {
      assert b[j + k] == c[k];
      assert a[i + (j + k)] == b[j + k];
    }
    assert a[i + j..i + j + |c|] == c;
    ContainsAt(a, c, i + j);
  }

  /** A non-empty pattern whose first character does not occur cannot be found. */
  lemma NotContainsWithoutFirstChar(s: string, p: string)
    requires |p| > 0 && p[0] !in s
    ensures !Contains(s, p)
  {
    forall i | 0 <= i <= |s|
      ensures !IsPrefix(p, s[i..])
    {
      if i < |s| {
        assert s[i..][0] == s[i];
      }
    }
  }

  /** A pattern whose first character occurs only at the start can only be found there. */
  lemma NotContainsAnchoredAtStart(s: string, p: string)
    requires |p| > 0 && !IsPrefix(p, s)
    requires forall i :: 1 <= i < |s| ==> s[i] != p[0]
    ensures !Contains(s, p)
  {
    forall i | 0 <= i <= |s|
      ensures !IsPrefix(p, s[i..])
    {
      if 0 < i < |s| {
        assert s[i..][0] == s[i];
      }
    }
  }

  /** A pattern holding a character that does not occur cannot be found. */
  lemma NotContainsWithoutChar(s: string, p: string, k: nat)
    requires k < |p| && p[k] !in s
    ensures !Contains(s, p)
  {
    forall i | 0 <= i <= |s|
      ensures !IsPrefix(p, s[i..])
    {
      if |p| <= |s[i..]| {
        assert s[i + k] in s;
        assert s[i..][..|p|][k] == s[i + k];
      }
    }
  }

  /** A string contains another of its length only if they are equal. */
  lemma SameLengthContains(s: string, p: string)
    requires |s| == |p|
    ensures Contains(s, p) <==> s == p
  {
    if Contains(s, p) {
      var i := ContainsWitness(s, p);
      assert s[i..i + |p|] == s;
    }
    if s == p {
      ContainsSelf(s);
    }
  }

  /** One-character patterns are found exactly when the character occurs. */
  lemma ContainsChar(s: string, c: char)
    ensures Contains(s, [c]) <==> c in s
  {
    if c in s {
      var i :| 0 <= i < |s| && s[i] == c;
      ContainsAt(s, [c], i);
    }
    if Contains(s, [c]) {
      var i := ContainsWitness(s, [c]);
      assert s[i] == c;
    }
  }

  // ---------------------------------------------------------------------
  // Whitespace and stripping

  /** Python's `str.isspace` for one character. */
  predicate IsSpace(c: char)
  {
    c == ' ' || c == '\t' || c == '\n' || c == '\r' || c == '\U{000B}' || c == '\U{000C}'
    || ('\U{001C}' <= c <= '\U{001F}') || c == '\U{0085}' || c == '\U{00A0}' || c == '\U{1680}'
    || ('\U{2000}' <= c <= '\U{200A}') || c == '\U{2028}' || c == '\U{2029}' || c == '\U{202F}'
    || c == '\U{205F}' || c == '\U{3000}'
  }

  /** The characters JavaScript's `String.prototype.trim` removes. */
  predicate IsJsSpace(c: char)
  {
    c == ' ' || c == '\t' || c == '\n' || c == '\r' || c == '\U{000B}' || c == '\U{000C}'
    || c == '\U{00A0}' || c == '\U{1680}' || ('\U{2000}' <= c <= '\U{200A}') || c == '\U{2028}'
    || c == '\U{2029}' || c == '\U{202F}' || c == '\U{205F}' || c == '\U{3000}' || c == '\U{FEFF}'
  }

  /** Number of leading characters of `s` that `sp` marks as space. */
  function LeadCount(s: string, sp: char -> bool): (n: nat)
    ensures n <= |s|
    ensures forall i :: 0 <= i < n ==> sp(s[i])
    ensures n < |s| ==> !sp(s[n])
  {
    if |s| > 0 && sp(s[0]) then 1 + LeadCount(s[1..], sp) else 0
  }

  /** Number of trailing characters of `s` that `sp` marks as space. */
  function TrailCount(s: string, sp: char -> bool): (n: nat)
    ensures n <= |s|
    ensures forall i :: |s| - n <= i < |s| ==> sp(s[i])
    ensures n < |s| ==> !sp(s[|s| - n - 1])
  {
    if |s| > 0 && sp(s[|s| - 1]) then 1 + TrailCount(s[..|s| - 1], sp) else 0
  }

  /** `s` without its leading and trailing `sp`-characters. */
  function StripBy(s: string, sp: char -> bool): (r: string)
    ensures Contains(s, r)
    ensures |r| > 0 ==> !sp(r[0]) && !sp(r[|r| - 1])
    ensures forall i :: 0 <= i < |r| ==> r[i] in s
  {
    var a := LeadCount(s, sp);
    var t := s[a..];
    var b := TrailCount(t, sp);
    assert t[..|t| - b] == s[a..a + (|t| - b)];
    ContainsAt(s, t[..|t| - b], a);
    t[..|t| - b]
  }

  /** Python's `str.strip()`. */
  function Strip(s: string): (r: string)
    ensures Contains(s, r)
    ensures |r| > 0 ==> !IsSpace(r[0]) && !IsSpace(r[|r| - 1])
  {
    StripBy(s, IsSpace)
  }

  /** JavaScript's `String.prototype.trim()`. */
  function Trim(s: string): (r: string)
    ensures Contains(s, r)
    ensures |r| > 0 ==> !IsJsSpace(r[0]) && !IsJsSpace(r[|r| - 1])
  {
    StripBy(s, IsJsSpace)
  }

  /** A string that neither starts nor ends with a space is its own stripped form. */
  lemma StripByIdentity(s: string, sp: char -> bool)
    requires |s| == 0 || (!sp(s[0]) && !sp(s[|s| - 1]))
    ensures StripBy(s, sp) == s
  {
    assert LeadCount(s, sp) == 0;
    assert s[0..] == s;
    assert TrailCount(s, sp) == 0;
  }

  /** Stripping is idempotent. */
  lemma StripIdempotent(s: string)
    ensures Strip(Strip(s)) == Strip(s)
  {
    StripByIdentity(Strip(s), IsSpace);
  }

  /** A string with a non-space character does not strip to nothing. */
  lemma StripNonEmpty(s: string, i: nat)
    requires i < |s| && !IsSpace(s[i])
    ensures |Strip(s)| > 0
  {
    var a := LeadCount(s, IsSpace);
    assert a <= i;
    var t := s[a..];
    assert t[i - a] == s[i];
    var b := TrailCount(t, IsSpace);
    assert b < |t| - (i - a);
  }

  /** Trimming is idempotent. */
  lemma TrimIdempotent(s: string)
    ensures Trim(Trim(s)) == Trim(s)
  {
    StripByIdentity(Trim(s), IsJsSpace);
  }

  // ---------------------------------------------------------------------
  // Case mapping

  /** `str.lower()` on one character (ASCII, Latin-1, capital sharp s). */
  function LowerChar(c: char): char
  {
    if 'A' <= c <= 'Z' then (c as int + 32) as char
    else if 'À' <= c <= 'Þ' && c != '×' then (c as int + 32) as char
    else if c == 'ẞ' then 'ß'
    else c
  }

  /** Python's `str.lower()`: one character in, one character out. */
  function Lower(s: string): (r: string)
    ensures |r| == |s|
    ensures forall i :: 0 <= i < |s| ==> r[i] == LowerChar(s[i])
  {
    seq(|s|, i requires 0 <= i < |s| => LowerChar(s[i]))
  }

  /** `str.upper()` on one character; the sharp s becomes two letters. */
  function UpperChars(c: char): seq<char>
  {
    if 'a' <= c <= 'z' then [(c as int - 32) as char]
    else if c == 'ß' then "SS"
    else if 'à' <= c <= 'þ' && c != '÷' then [(c as int - 32) as char]
    else if c == 'ÿ' then ['Ÿ']
    else if c == 'µ' then ['\U{039C}']
    else [c]
  }

  /** Python's `str.upper()`. */
  function Upper(s: string): string
  {
    if |s| == 0 then "" else UpperChars(s[0]) + Upper(s[1..])
  }

  lemma LowerConcat(a: string, b: string)
    ensures Lower(a + b) == Lower(a) + Lower(b)
  {
  }

  lemma LowerSlice(s: string, i: int, j: int)
    requires 0 <= i <= j <= |s|
    ensures Lower(s[i..j]) == Lower(s)[i..j]
  {
  }

  lemma {:induction false} UpperConcat(a: string, b: string)
    ensures Upper(a + b) == Upper(a) + Upper(b)
  {
    if |a| > 0 {
      assert (a + b)[1..] == a[1..] + b;
      UpperConcat(a[1..], b);
    } else {
      assert a + b == b;
    }
  }

  /** Lower-casing keeps what a string contains. */
  lemma LowerKeepsContains(s: string, p: string)
    requires Contains(s, p)
    ensures Contains(Lower(s), Lower(p))
  {
    var i := ContainsWitness(s, p);
    LowerSlice(s, i, i + |p|);
    ContainsAt(Lower(s), Lower(p), i);
  }

  /** `str.upper()` on an ASCII character. */
  function AsciiUpperChar(c: char): (r: char)
    requires c < 128 as char
    ensures UpperChars(c) == [r]
  {
    if 'a' <= c <= 'z' then (c as int - 32) as char else c
  }

  /** Upper-casing an ASCII string character by character; states literal facts without unfolding `Upper`. */
  lemma {:induction false} UpperOfAscii(s: string, u: string)
    requires |s| == |u|
    requires forall i :: 0 <= i < |s| ==> s[i] < 128 as char && u[i] == AsciiUpperChar(s[i])
    ensures Upper(s) == u
  {
    if |s| > 0 {
      UpperOfAscii(s[1..], u[1..]);
      assert u == [u[0]] + u[1..];
    }
  }

  /** Lower-casing character by character; states literal facts without unfolding the whole string. */
  lemma LowerOf(s: string, u: string)
    requires |s| == |u|
    requires forall i :: 0 <= i < |s| ==> u[i] == LowerChar(s[i])
    ensures Lower(s) == u
  {
  }

  lemma UpperKeepsContains(s: string, p: string)
    requires Contains(s, p)
    ensures Contains(Upper(s), Upper(p))
  {
    var i := ContainsWitness(s, p);
    assert s == s[..i] + p + s[i + |p|..];
    UpperConcat(s[..i] + p, s[i + |p|..]);
    UpperConcat(s[..i], p);
    ContainsInfix(Upper(s[..i]), Upper(p), Upper(s[i + |p|..]));
  }

  /** No upper-case letter of the table survives lower-casing. */
  lemma LowerCharIsLower(c: char)
    ensures LowerChar(LowerChar(c)) == LowerChar(c)
    ensures LowerChar(c) != 'Ü' && LowerChar(c) != 'Ä' && LowerChar(c) != 'Ö'
    ensures !('A' <= LowerChar(c) <= 'Z')
  {
  }

  /** Lower-casing neither creates nor removes white space. */
  lemma LowerCharKeepsSpace(c: char)
    ensures IsSpace(LowerChar(c)) <==> IsSpace(c)
    ensures LowerChar(c) == ' ' <==> c == ' '
    ensures (LowerChar(c) == ',' <==> c == ',') && (LowerChar(c) == '.' <==> c == '.')
  {
  }

  // ---------------------------------------------------------------------
  // Splitting and joining

  /** `sep.join(parts)`. */
  function Join(parts: seq<string>, sep: string): string
  {
    if |parts| == 0 then ""
    else if |parts| == 1 then parts[0]
    else parts[0] + sep + Join(parts[1..], sep)
  }

  /** Length of the run of non-space characters at the start of `s`. */
  function RunLength(s: string): (n: nat)
    ensures n <= |s|
    ensures forall i :: 0 <= i < n ==> !IsSpace(s[i])
    ensures n < |s| ==> IsSpace(s[n])
  {
    if |s| == 0 || IsSpace(s[0]) then 0 else 1 + RunLength(s[1..])
  }

  /** Python's `str.split()` with no argument: the maximal runs of non-space characters. */
  function Words(s: string): (r: seq<string>)
    ensures forall k :: 0 <= k < |r| ==> |r[k]| > 0
    ensures forall k, i :: 0 <= k < |r| && 0 <= i < |r[k]| ==> !IsSpace(r[k][i])
    ensures forall k, i :: 0 <= k < |r| && 0 <= i < |r[k]| ==> r[k][i] in s
    decreases |s|
  {
    if |s| == 0 then []
    else if IsSpace(s[0]) then Words(s[1..])
    else
      var n := RunLength(s);
      [s[..n]] + Words(s[n..])
  }

  /** `' '.join(s.split())`: white space collapsed to single blanks. */
  function Collapse(s: string): string
  {
    Join(Words(s), " ")
  }

  /** Python's `s.split(sep)` (and JavaScript's, for a string separator) with a non-empty separator. */
  function SplitOn(s: string, sep: string): (r: seq<string>)
    requires |sep| > 0
    ensures |r| >= 1
    decreases |s|
  {
    if |s| < |sep| then [s]
    else if s[..|sep|] == sep then [""] + SplitOn(s[|sep|..], sep)
    else
      var rest := SplitOn(s[1..], sep);
      [[s[0]] + rest[0]] + rest[1..]
  }

  /** Python's `s.replace(pat, rep)` with a non-empty `pat`: every non-overlapping occurrence, left to right. */
  function Replace(s: string, pat: string, rep: string): string
    requires |pat| > 0
    decreases |s|
  {
    if |s| < |pat| then s
    else if s[..|pat|] == pat then rep + Replace(s[|pat|..], pat, rep)
    else [s[0]] + Replace(s[1..], pat, rep)
  }

  lemma JoinPrepend(c: char, parts: seq<string>, sep: string)
    requires |parts| > 0
    ensures Join([[c] + parts[0]] + parts[1..], sep) == [c] + Join(parts, sep)
  {
    var ps := [[c] + parts[0]] + parts[1..];
    if |parts| > 1 {
      assert ps[1..] == parts[1..];
    }
  }

  /** Replacing is splitting at the pattern and joining with the replacement. */
  lemma {:induction false} ReplaceIsSplitJoin(s: string, pat: string, rep: string)
    requires |pat| > 0
    ensures Replace(s, pat, rep) == Join(SplitOn(s, pat), rep)
    decreases |s|
  {
    if |s| < |pat| {
    } else if s[..|pat|] == pat {
      ReplaceIsSplitJoin(s[|pat|..], pat, rep);
      var rest := SplitOn(s[|pat|..], pat);
      assert ([""] + rest)[1..] == rest;
    } else {
      ReplaceIsSplitJoin(s[1..], pat, rep);
      JoinPrepend(s[0], SplitOn(s[1..], pat), rep);
    }
  }

  /** Joining the pieces of a split with the separator gives back the string. */
  lemma SplitJoinRoundTrip(s: string, sep: string)
    requires |sep| > 0
    ensures Join(SplitOn(s, sep), sep) == s
  {
    ReplaceIsSplitJoin(s, sep, sep);
    ReplaceSameIsIdentity(s, sep);
  }

  lemma {:induction false} ReplaceSameIsIdentity(s: string, pat: string)
    requires |pat| > 0
    ensures Replace(s, pat, pat) == s
    decreases |s|
  {
    if |s| < |pat| {
    } else if s[..|pat|] == pat {
      ReplaceSameIsIdentity(s[|pat|..], pat);
      assert s == pat + s[|pat|..];
    } else {
      ReplaceSameIsIdentity(s[1..], pat);
      assert s == [s[0]] + s[1..];
    }
  }

  /** Pieces of a split at one character never contain that character. */
  lemma {:induction false} SplitPiecesAvoidSeparator(s: string, c: char)
    ensures forall k :: 0 <= k < |SplitOn(s, [c])| ==> c !in SplitOn(s, [c])[k]
    decreases |s|
  {
    if |s| >= 1 {
      SplitPiecesAvoidSeparator(s[1..], c);
      if s[..1] != [c] {
        assert s[0] != c;
      }
    }
  }

  /** A string without the separator character is one piece. */
  lemma {:induction false} SplitOnNoSep(s: string, c: char)
    requires c !in s
    ensures SplitOn(s, [c]) == [s]
    decreases |s|
  {
    if |s| >= 1 {
      assert s[0] != c;
      SplitOnNoSep(s[1..], c);
      assert s == [s[0]] + s[1..];
    }
  }

  /** A leading piece free of the separator splits off as the first piece. */
  lemma {:induction false} SplitOnLeading(a: string, c: char, rest: string)
    requires c !in a
    ensures SplitOn(a + [c] + rest, [c]) == [a] + SplitOn(rest, [c])
    decreases |a|
  {
    var s := a + [c] + rest;
    if |a| == 0 {
      assert s[..1] == [c] && s[1..] == rest;
    } else {
      assert s[..1] != [c] by { assert s[0] == a[0] && a[0] != c; }
      assert s[1..] == a[1..] + [c] + rest;
      SplitOnLeading(a[1..], c, rest);
      assert [s[0]] + a[1..] == a;
    }
  }

  /** Splitting a join at a separator character no part contains gives the parts back. */
  lemma {:induction false} SplitJoinInverse(parts: seq<string>, c: char)
    requires |parts| >= 1
    requires forall k :: 0 <= k < |parts| ==> c !in parts[k]
    ensures SplitOn(Join(parts, [c]), [c]) == parts
  {
    if |parts| == 1 {
      SplitOnNoSep(parts[0], c);
    } else {
      SplitJoinInverse(parts[1..], c);
      SplitOnLeading(parts[0], c, Join(parts[1..], [c]));
      assert [parts[0]] + parts[1..] == parts;
    }
  }

  /** A join whose first part is not empty starts with that part's first character. */
  lemma JoinFirst(parts: seq<string>, sep: string)
    requires |parts| >= 1 && |parts[0]| > 0
    ensures |Join(parts, sep)| > 0 && Join(parts, sep)[0] == parts[0][0]
  {
  }

  /** A join whose last part is not empty ends with that part's last character. */
  lemma {:induction false} JoinLast(parts: seq<string>, sep: string)
    requires |parts| >= 1 && |parts[|parts| - 1]| > 0
    ensures var j := Join(parts, sep); var l := parts[|parts| - 1];
            |j| > 0 && j[|j| - 1] == l[|l| - 1]
  {
    if |parts| > 1 {
      JoinLast(parts[1..], sep);
    }
  }

  /** A pattern whose first character is absent is left alone by `replace`. */
  lemma {:induction false} ReplaceAbsent(s: string, pat: string, rep: string)
    requires |pat| > 0 && pat[0] !in s
    ensures Replace(s, pat, rep) == s
    decreases |s|
  {
    if |s| >= |pat| {
      assert s[0] != pat[0];
      ReplaceAbsent(s[1..], pat, rep);
      assert s == [s[0]] + s[1..];
    }
  }

  // ---------------------------------------------------------------------
  // Which characters an operation can produce

  /** Every character of `s` passes `P`. */
  predicate AllChars(s: string, P: char -> bool)
  {
    forall i :: 0 <= i < |s| ==> P(s[i])
  }

  /** Characters of a join come from the parts or the separator. */
  lemma {:induction false} JoinChars(parts: seq<string>, sep: string, P: char -> bool)
    requires forall k :: 0 <= k < |parts| ==> AllChars(parts[k], P)
    requires AllChars(sep, P)
    ensures AllChars(Join(parts, sep), P)
  {
    if |parts| > 1 {
      JoinChars(parts[1..], sep, P);
    }
  }

  /** Collapsing white space introduces no character but the blank. */
  lemma CollapseChars(s: string, P: char -> bool)
    requires AllChars(s, P) && P(' ')
    ensures AllChars(Collapse(s), P)
  {
    var ws := Words(s);
    forall k | 0 <= k < |ws|
      ensures AllChars(ws[k], P)
    {
      forall i | 0 <= i < |ws[k]|
        ensures P(ws[k][i])
      {
        var c := ws[k][i];
        assert c in s;
        var j :| 0 <= j < |s| && s[j] == c;
      }
    }
    JoinChars(ws, " ", P);
  }

  /** `replace` introduces no character but those of the replacement. */
  lemma {:induction false} ReplaceChars(s: string, pat: string, rep: string, P: char -> bool)
    requires |pat| > 0 && AllChars(s, P) && AllChars(rep, P)
    ensures AllChars(Replace(s, pat, rep), P)
    decreases |s|
  {
    if |s| < |pat| {
    } else if s[..|pat|] == pat {
      ReplaceChars(s[|pat|..], pat, rep, P);
    } else {
      ReplaceChars(s[1..], pat, rep, P);
    }
  }

  /** Replacing a single character removes it, unless the replacement contains it. */
  lemma {:induction false} ReplaceRemovesChar(s: string, c: char, rep: string)
    requires c !in rep
    ensures c !in Replace(s, [c], rep)
    decreases |s|
  {
    if |s| >= 1 {
      ReplaceRemovesChar(s[1..], c, rep);
      if s[..1] != [c] {
        assert s[0] != c;
      }
    }
  }

  /** A string is single-spaced when it contains no white space but blanks, does not start or end with one, and never has two in a row. */
  predicate SingleSpaced(r: string)
  {
    && (forall i :: 0 <= i < |r| && IsSpace(r[i]) ==> r[i] == ' ')
    && (|r| > 0 ==> r[0] != ' ' && r[|r| - 1] != ' ')
    && (forall i :: 0 <= i < |r| - 1 && r[i] == ' ' ==> r[i + 1] != ' ')
  }

  lemma {:induction false} JoinWordsSingleSpaced(ws: seq<string>)
    requires forall k :: 0 <= k < |ws| ==> |ws[k]| > 0
    requires forall k, i :: 0 <= k < |ws| && 0 <= i < |ws[k]| ==> !IsSpace(ws[k][i])
    ensures SingleSpaced(Join(ws, " "))
  {
    if |ws| > 1 {
      JoinWordsSingleSpaced(ws[1..]);
      var w := ws[0];
      var rest := Join(ws[1..], " ");
      var r := w + " " + rest;
      assert Join(ws, " ") == r;
      assert |rest| > 0 && rest[0] != ' ' by {
        JoinStartsWithFirst(ws[1..]);
      }
      forall i | 0 <= i < |r| - 1 && r[i] == ' '
        ensures r[i + 1] != ' '
      {
        if i < |w| {
          assert false;
        } else if i == |w| {
          assert r[i + 1] == rest[0];
        } else {
          assert r[i] == rest[i - |w| - 1];
          assert r[i + 1] == rest[i - |w|];
        }
      }
      forall i | 0 <= i < |r| && IsSpace(r[i])
        ensures r[i] == ' '
      {
        if i > |w| {
          assert r[i] == rest[i - |w| - 1];
        }
      }
    }
  }

  lemma JoinStartsWithFirst(ws: seq<string>)
    requires |ws| > 0 && |ws[0]| > 0
    ensures |Join(ws, " ")| > 0 && Join(ws, " ")[0] == ws[0][0]
  {
  }

  /** Collapsing white space leaves a single-spaced string. */
  lemma CollapseSingleSpaced(s: string)
    ensures SingleSpaced(Collapse(s))
  {
    JoinWordsSingleSpaced(Words(s));
  }
}

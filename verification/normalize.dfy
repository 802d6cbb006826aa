/**
 * The name normaliser shared by the contact resolvers: compatibility
 * decomposition, removal of combining marks, sharp s to "ss", commas and
 * periods to blanks, white space collapsed, then lower case.
 *
 * The decomposition table covers every Latin-1 character that has a
 * compatibility decomposition: the accented letters, the no-break space,
 * the ordinal indicators, the superscript digits, the spacing accents,
 * the micro sign and the vulgar fractions. The rest of Unicode passes
 * through unchanged.
 */
module NameNormalizer {
  import opened Text

  /**
   * A mark of the combining diacritical marks block with a non-zero
   * combining class; the grapheme joiner U+034F has class 0 and is kept.
   */
  predicate IsCombining(c: char)
  {
    '\U{0300}' <= c <= '\U{036F}' && c != '\U{034F}'
  }

  /** Compatibility decomposition of one character; outside Latin-1 every character is its own. */
  function Decompose(c: char): seq<char>
  {
    if c < '\U{00A0}' || 'ÿ' < c then [c]
    else if c < 'À' then DecomposeSymbol(c)
    else if c < 'à' then DecomposeCapital(c)
    else DecomposeSmall(c)
  }

  /** The no-break space, spacing accents, ordinals, superscripts, micro sign and fractions (U+00A0 to U+00BF). */
  function DecomposeSymbol(c: char): seq<char>
  {
    if c == '\U{00A0}' then [' ']
    else if c == 'ª' then ['a']
    else if c == 'º' then ['o']
    else if c == '¹' then ['1']
    else if c == '²' then ['2']
    else if c == '³' then ['3']
    else if c == '\U{00A8}' then [' ', '\U{0308}']  // diaeresis
    else if c == '\U{00AF}' then [' ', '\U{0304}']  // macron
    else if c == '\U{00B4}' then [' ', '\U{0301}']  // acute accent
    else if c == '\U{00B8}' then [' ', '\U{0327}']  // cedilla
    else if c == '\U{00B5}' then ['\U{03BC}']       // micro sign to Greek mu
    else if c == '\U{00BC}' then ['1', '\U{2044}', '4']
    else if c == '\U{00BD}' then ['1', '\U{2044}', '2']
    else if c == '\U{00BE}' then ['3', '\U{2044}', '4']
    else [c]
  }

  /** The accented capitals (U+00C0 to U+00DF). */
  function DecomposeCapital(c: char): seq<char>
  {
    if c == 'À' then ['A', '\U{0300}']
    else if c == 'Á' then ['A', '\U{0301}']
    else if c == 'Â' then ['A', '\U{0302}']
    else if c == 'Ã' then ['A', '\U{0303}']
    else if c == 'Ä' then ['A', '\U{0308}']
    else if c == 'Å' then ['A', '\U{030A}']
    else if c == 'Ç' then ['C', '\U{0327}']
    else if c == 'È' then ['E', '\U{0300}']
    else if c == 'É' then ['E', '\U{0301}']
    else if c == 'Ê' then ['E', '\U{0302}']
    else if c == 'Ë' then ['E', '\U{0308}']
    else if c == 'Ì' then ['I', '\U{0300}']
    else if c == 'Í' then ['I', '\U{0301}']
    else if c == 'Î' then ['I', '\U{0302}']
    else if c == 'Ï' then ['I', '\U{0308}']
    else if c == 'Ñ' then ['N', '\U{0303}']
    else if c == 'Ò' then ['O', '\U{0300}']
    else if c == 'Ó' then ['O', '\U{0301}']
    else if c == 'Ô' then ['O', '\U{0302}']
    else if c == 'Õ' then ['O', '\U{0303}']
    else if c == 'Ö' then ['O', '\U{0308}']
    else if c == 'Ù' then ['U', '\U{0300}']
    else if c == 'Ú' then ['U', '\U{0301}']
    else if c == 'Û' then ['U', '\U{0302}']
    else if c == 'Ü' then ['U', '\U{0308}']
    else if c == 'Ý' then ['Y', '\U{0301}']
    else [c]
  }

  /** The accented small letters (U+00E0 to U+00FF). */
  function DecomposeSmall(c: char): seq<char>
  {
    if c == 'à' then ['a', '\U{0300}']
    else if c == 'á' then ['a', '\U{0301}']
    else if c == 'â' then ['a', '\U{0302}']
    else if c == 'ã' then ['a', '\U{0303}']
    else if c == 'ä' then ['a', '\U{0308}']
    else if c == 'å' then ['a', '\U{030A}']
    else if c == 'ç' then ['c', '\U{0327}']
    else if c == 'è' then ['e', '\U{0300}']
    else if c == 'é' then ['e', '\U{0301}']
    else if c == 'ê' then ['e', '\U{0302}']
    else if c == 'ë' then ['e', '\U{0308}']
    else if c == 'ì' then ['i', '\U{0300}']
    else if c == 'í' then ['i', '\U{0301}']
    else if c == 'î' then ['i', '\U{0302}']
    else if c == 'ï' then ['i', '\U{0308}']
    else if c == 'ñ' then ['n', '\U{0303}']
    else if c == 'ò' then ['o', '\U{0300}']
    else if c == 'ó' then ['o', '\U{0301}']
    else if c == 'ô' then ['o', '\U{0302}']
    else if c == 'õ' then ['o', '\U{0303}']
    else if c == 'ö' then ['o', '\U{0308}']
    else if c == 'ù' then ['u', '\U{0300}']
    else if c == 'ú' then ['u', '\U{0301}']
    else if c == 'û' then ['u', '\U{0302}']
    else if c == 'ü' then ['u', '\U{0308}']
    else if c == 'ý' then ['y', '\U{0301}']
    else if c == 'ÿ' then ['y', '\U{0308}']
    else [c]
  }

  /** NFKD normalisation, character by character. */
  function Nfkd(s: string): string
  {
    if |s| == 0 then "" else Decompose(s[0]) + Nfkd(s[1..])
  }

  /** Keeps the characters that are not combining marks. */
  function DropMarks(s: string): (r: string)
    ensures AllChars(r, c => !IsCombining(c))
    ensures forall i :: 0 <= i < |r| ==> r[i] in s
  {
    if |s| == 0 then ""
    else if IsCombining(s[0]) then DropMarks(s[1..])
    else [s[0]] + DropMarks(s[1..])
  }

  /** `re.sub(r'[,.]', ' ', s)`. */
  function PunctToSpace(s: string): (r: string)
    ensures |r| == |s|
    ensures forall i :: 0 <= i < |s| ==> r[i] == (if s[i] == ',' || s[i] == '.' then ' ' else s[i])
  {
    seq(|s|, i requires 0 <= i < |s| => if s[i] == ',' || s[i] == '.' then ' ' else s[i])
  }

  /** A character a normalised name may contain. */
  predicate Clean(c: char)
  {
    c != ',' && c != '.' && !IsCombining(c) && LowerChar(c) == c
  }

  /** The shape every normalised name has. */
  predicate IsNormalForm(r: string)
  {
    AllChars(r, Clean) && SingleSpaced(r)
  }

  /**
   * The normaliser, given the two literals it rewrites to "ss" and "SS"
   * (the sharp s and the capital sharp s in the working scripts).
   */
  function NormalizeWith(s: string, sharp: string, capitalSharp: string): (r: string)
    requires |sharp| > 0 && |capitalSharp| > 0
    ensures IsNormalForm(r)
  {
    var a := DropMarks(Nfkd(s));
    var b := Replace(Replace(a, sharp, "ss"), capitalSharp, "SS");
    var c := PunctToSpace(b);
    var d := Collapse(c);
    NormalFormAfterLower(a, b, c, d, sharp, capitalSharp);
    Lower(d)
  }

  /** Neither separator nor mark: what survives the punctuation step. */
  predicate Unpunctuated(c: char)
  {
    c != ',' && c != '.' && !IsCombining(c)
  }

  lemma NormalFormAfterLower(a: string, b: string, c: string, d: string, sharp: string, capitalSharp: string)
    requires |sharp| > 0 && |capitalSharp| > 0
    requires AllChars(a, x => !IsCombining(x))
    requires b == Replace(Replace(a, sharp, "ss"), capitalSharp, "SS")
    requires c == PunctToSpace(b) && d == Collapse(c)
    ensures IsNormalForm(Lower(d))
  {
    UnpunctuatedBeforeCollapse(a, b, c, sharp, capitalSharp);
    CollapseChars(c, Unpunctuated);
    CollapseSingleSpaced(c);
    LowerKeepsNormalForm(d);
  }

  lemma UnpunctuatedBeforeCollapse(a: string, b: string, c: string, sharp: string, capitalSharp: string)
    requires |sharp| > 0 && |capitalSharp| > 0
    requires AllChars(a, x => !IsCombining(x))
    requires b == Replace(Replace(a, sharp, "ss"), capitalSharp, "SS")
    requires c == PunctToSpace(b)
    ensures AllChars(c, Unpunctuated)
  {
    var P := x => !IsCombining(x);
    ReplaceChars(a, sharp, "ss", P);
    ReplaceChars(Replace(a, sharp, "ss"), capitalSharp, "SS", P);
    assert AllChars(b, P);
  }

  lemma LowerKeepsNormalForm(d: string)
    requires AllChars(d, Unpunctuated) && SingleSpaced(d)
    ensures IsNormalForm(Lower(d))
  {
    var r := Lower(d);
    forall i | 0 <= i < |r|
      ensures Clean(r[i])
      ensures IsSpace(r[i]) ==> r[i] == ' '
      ensures r[i] == ' ' <==> d[i] == ' '
    {
      assert Unpunctuated(d[i]);
      LowerCharIsLower(d[i]);
      LowerCharKeepsSpace(d[i]);
    }
  }

  /** The normaliser of the shared resolver and the donation resolver. */
  function Normalize(s: string): (r: string)
    ensures IsNormalForm(r)
    ensures 'ß' !in r
  {
    NoSharpS(s);
    NormalizeWith(s, "ß", "ẞ")
  }

  /**
   * The normaliser of the old salary script, whose two replacement
   * literals are the sharp s and capital sharp s read back in the wrong
   * encoding ("\U{221A}\U{00FC}" and "\U{00B7}\U{222B}\U{00FB}").
   */
  function NormalizeGarbled(s: string): (r: string)
    ensures IsNormalForm(r)
  {
    NormalizeWith(s, "\U{221A}\U{00FC}", "\U{00B7}\U{222B}\U{00FB}")
  }

  /** A character the compatibility decomposition leaves as it is. */
  predicate Decomposed(c: char)
  {
    Decompose(c) == [c]
  }

  /** The grapheme joiner survives normalisation between two letters. */
  lemma GraphemeJoinerIsKept()
    ensures Normalize("A\U{034F}B") == "a\U{034F}b"
  {
    var s := "A\U{034F}B";
    JoinerNormalizesToLower(s);
    JoinerLowered(s);
  }

  lemma JoinerLowered(s: string)
    requires s == "A\U{034F}B"
    ensures Lower(s) == "a\U{034F}b"
  {
    assert LowerChar(s[0]) == 'a' && LowerChar(s[1]) == s[1] && LowerChar(s[2]) == 'b';
  }

  lemma JoinerNormalizesToLower(s: string)
    requires s == "A\U{034F}B"
    ensures Normalize(s) == Lower(s)
  {
    JoinerSurvivesMarks(s);
    assert 'ß' !in s && 'ẞ' !in s;
    ReplaceAbsent(s, "ß", "ss");
    ReplaceAbsent(s, "ẞ", "SS");
    JoinerSurvivesCollapse(s);
    NormalizeSteps(s, "ß", "ẞ");
  }

  /** The normaliser as the composition of its steps. */
  lemma NormalizeSteps(s: string, sharp: string, capitalSharp: string)
    requires |sharp| > 0 && |capitalSharp| > 0
    ensures NormalizeWith(s, sharp, capitalSharp)
      == Lower(Collapse(PunctToSpace(Replace(Replace(DropMarks(Nfkd(s)), sharp, "ss"), capitalSharp, "SS"))))
  {
  }

  lemma JoinerSurvivesMarks(s: string)
    requires s == "A\U{034F}B"
    ensures DropMarks(Nfkd(s)) == s
  {
    assert Decompose(s[2]) == [s[2]];
    assert Nfkd(s[2..]) == s[2..];
    assert Decompose(s[1]) == [s[1]];
    assert Nfkd(s[1..]) == s[1..];
    assert Decompose(s[0]) == [s[0]];
    assert Nfkd(s) == s;
    assert DropMarks(s[2..]) == s[2..];
    assert DropMarks(s[1..]) == s[1..];
  }

  lemma JoinerSurvivesCollapse(s: string)
    requires s == "A\U{034F}B"
    ensures Collapse(PunctToSpace(s)) == s
  {
    assert PunctToSpace(s) == s;
    assert RunLength(s[2..]) == 1;
    assert RunLength(s[1..]) == 2;
    assert RunLength(s) == 3;
    assert s[..3] == s && s[3..] == [];
    assert Words(s[3..]) == [];
    assert Words(s) == [s];
  }

  /** The characters the table decomposes into. */
  predicate BaseAlphabet(x: char)
  {
    ('A' <= x <= 'Z') || ('a' <= x <= 'z') || ('0' <= x <= '9') || x == ' '
    || IsCombining(x) || x == '\U{03BC}' || x == '\U{2044}'
  }

  lemma DecomposeOutputs(c: char)
    ensures Decompose(c) == [c] || AllChars(Decompose(c), BaseAlphabet)
  {
    if '\U{00A0}' <= c < 'À' {
      SymbolOutputs(c);
    } else if 'À' <= c < 'à' {
      CapitalOutputs(c);
    } else if 'à' <= c <= 'ÿ' {
      SmallOutputs(c);
    }
  }

  lemma SymbolOutputs(c: char)
    ensures DecomposeSymbol(c) == [c] || AllChars(DecomposeSymbol(c), BaseAlphabet)
  {
  }

  lemma CapitalOutputs(c: char)
    ensures DecomposeCapital(c) == [c] || AllChars(DecomposeCapital(c), BaseAlphabet)
  {
  }

  lemma SmallOutputs(c: char)
    ensures DecomposeSmall(c) == [c] || AllChars(DecomposeSmall(c), BaseAlphabet)
  {
  }

  lemma AlphabetIsDecomposed(x: char)
    requires BaseAlphabet(x)
    ensures Decomposed(x)
  {
  }

  /** The decomposition is final: decomposing its output changes nothing. */
  lemma DecomposeIsFinal(c: char)
    ensures AllChars(Decompose(c), Decomposed)
  {
    DecomposeOutputs(c);
    if Decompose(c) != [c] {
      forall i | 0 <= i < |Decompose(c)|
        ensures Decomposed(Decompose(c)[i])
      {
        AlphabetIsDecomposed(Decompose(c)[i]);
      }
    }
  }

  lemma {:induction false} NfkdIsFinal(s: string)
    ensures AllChars(Nfkd(s), Decomposed)
  {
    if |s| > 0 {
      DecomposeIsFinal(s[0]);
      NfkdIsFinal(s[1..]);
    }
  }

  /** Lower-casing a character that does not decompose gives one that does not either. */
  lemma LowerKeepsDecomposed(c: char)
    requires Decomposed(c)
    ensures Decomposed(LowerChar(c))
  {
    if 'A' <= c <= 'Z' {
      AlphabetIsDecomposed(LowerChar(c));
    } else if 'À' <= c <= 'Þ' && c != '×' {
      UndecomposedCapitals(c);
      LowerCapitals();
    }
  }

  /** The Latin-1 capitals without a decomposition. */
  lemma UndecomposedCapitals(c: char)
    requires 'À' <= c <= 'Þ' && Decomposed(c)
    ensures c == 'Æ' || c == 'Ð' || c == '×' || c == 'Ø' || c == 'Þ'
  {
  }

  lemma LowerCapitals()
    ensures Decomposed(LowerChar('Æ')) && Decomposed(LowerChar('Ð'))
    ensures Decomposed(LowerChar('Ø')) && Decomposed(LowerChar('Þ'))
  {
    assert LowerChar('Æ') == 'æ' && LowerChar('Ð') == 'ð';
    assert LowerChar('Ø') == 'ø' && LowerChar('Þ') == 'þ';
    SmallUndecomposed();
  }

  lemma SmallUndecomposed()
    ensures Decomposed('æ') && Decomposed('ð') && Decomposed('ø') && Decomposed('þ')
  {
  }

  /** Every step after the decomposition keeps a character property that blanks, "ss", "SS" and lower-casing keep. */
  lemma NormalizeKeeps(s: string, P: char -> bool)
    requires AllChars(Nfkd(s), P)
    requires P(' ') && AllChars("ss", P) && AllChars("SS", P)
    requires forall c :: P(c) ==> P(LowerChar(c))
    ensures AllChars(Normalize(s), P)
  {
    var a := DropMarks(Nfkd(s));
    assert AllChars(a, P);
    var b1 := Replace(a, "ß", "ss");
    ReplaceChars(a, "ß", "ss", P);
    var b := Replace(b1, "ẞ", "SS");
    ReplaceChars(b1, "ẞ", "SS", P);
    var c := PunctToSpace(b);
    assert AllChars(c, P);
    CollapseChars(c, P);
    assert Normalize(s) == Lower(Collapse(c));
  }

  /**
   * A normalised name is already in compatibility-decomposed form: every
   * accented letter, spacing accent, micro sign or fraction of Latin-1 has
   * been decomposed, so none of them survives.
   */
  lemma NormalizeIsDecomposed(s: string)
    ensures AllChars(Normalize(s), Decomposed)
  {
    NfkdIsFinal(s);
    AlphabetIsDecomposed(' ');
    AlphabetIsDecomposed('s');
    AlphabetIsDecomposed('S');
    forall c | Decomposed(c)
      ensures Decomposed(LowerChar(c))
    {
      LowerKeepsDecomposed(c);
    }
    NormalizeKeeps(s, Decomposed);
  }

  /** The working normaliser removes every sharp s, of either case. */
  lemma NoSharpS(s: string)
    ensures 'ß' !in NormalizeWith(s, "ß", "ẞ")
  {
    var a := DropMarks(Nfkd(s));
    var b1 := Replace(a, "ß", "ss");
    ReplaceRemovesChar(a, 'ß', "ss");
    var b := Replace(b1, "ẞ", "SS");
    ReplaceRemovesChar(b1, 'ẞ', "SS");
    var P1 := x => x != 'ß';
    ReplaceChars(b1, "ẞ", "SS", P1);
    var P := x => x != 'ß' && x != 'ẞ';
    assert AllChars(b, P);
    var c := PunctToSpace(b);
    assert AllChars(c, P);
    CollapseChars(c, P);
    var d := Collapse(c);
    var r := Lower(d);
    forall i | 0 <= i < |r|
      ensures r[i] != 'ß'
    {
      assert P(d[i]);
    }
  }
}

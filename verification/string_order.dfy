/**
 * `String.compareTo` as a predicate: lexicographic order on UTF-16 code
 * units, a proper prefix coming first. Both allocation strategies break
 * ties on it.
 */
module StringOrder {
  import opened Utf16

  /** Lexicographic order on sequences of code units. */
  predicate UnitsLe(a: seq<int>, b: seq<int>)
    decreases |a|
  {
    a == [] || (b != [] && (a[0] < b[0] || (a[0] == b[0] && UnitsLe(a[1..], b[1..]))))
  }

  /** a <= b in the order of `String.compareTo`. */
  predicate LexLe(a: string, b: string) {
    UnitsLe(CodeUnits(a), CodeUnits(b))
  }

  lemma {:induction false} UnitsLeReflexive(a: seq<int>)
    ensures UnitsLe(a, a)
    decreases |a|
  {
    if a != [] {
      UnitsLeReflexive(a[1..]);
    }
  }

  lemma {:induction false} UnitsLeAntisymmetric(a: seq<int>, b: seq<int>)
    requires UnitsLe(a, b) && UnitsLe(b, a)
    ensures a == b
    decreases |a|
  {
    if a != [] && b != [] {
      UnitsLeAntisymmetric(a[1..], b[1..]);
      assert a == [a[0]] + a[1..] && b == [b[0]] + b[1..];
    }
  }

  lemma {:induction false} UnitsLeTransitive(a: seq<int>, b: seq<int>, c: seq<int>)
    requires UnitsLe(a, b) && UnitsLe(b, c)
    ensures UnitsLe(a, c)
    decreases |a|
  {
    if a != [] && a[0] == b[0] && b[0] == c[0] {
      UnitsLeTransitive(a[1..], b[1..], c[1..]);
    }
  }

  lemma {:induction false} UnitsLeTotal(a: seq<int>, b: seq<int>)
    ensures UnitsLe(a, b) || UnitsLe(b, a)
    decreases |a|
  {
    if a != [] && b != [] && a[0] == b[0] {
      UnitsLeTotal(a[1..], b[1..]);
    }
  }

  lemma LexLeReflexive(a: string)
    ensures LexLe(a, a)
  {
    UnitsLeReflexive(CodeUnits(a));
  }

  /** Only equal strings compare equal: the unit order and the conversion to units both lose nothing. */
  lemma LexLeAntisymmetric(a: string, b: string)
    requires LexLe(a, b) && LexLe(b, a)
    ensures a == b
  {
    UnitsLeAntisymmetric(CodeUnits(a), CodeUnits(b));
    CodeUnitsInjective(a, b);
  }

  lemma LexLeTransitive(a: string, b: string, c: string)
    requires LexLe(a, b) && LexLe(b, c)
    ensures LexLe(a, c)
  {
    UnitsLeTransitive(CodeUnits(a), CodeUnits(b), CodeUnits(c));
  }

  lemma LexLeTotal(a: string, b: string)
    ensures LexLe(a, b) || LexLe(b, a)
  {
    UnitsLeTotal(CodeUnits(a), CodeUnits(b));
  }

  /**
   * A character above U+FFFF sorts by its high surrogate: before U+FFFF,
   * although its code point is larger.
   */
  lemma SupplementarySortsBySurrogate()
    ensures LexLe("\U{10000}", "\U{FFFF}") && !LexLe("\U{FFFF}", "\U{10000}")
  {
    SurrogatePairExample();
  }
}

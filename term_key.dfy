/**
 * The term key: the year and semester computed from the wall clock, and the
 * names of the two cache files (`calendario_academico_{year}-{semester}.pdf`
 * and `.json`) built from it.
 */
module TermKey {
  import opened Common

  /** A semester number as the script computes it. */
  type SemesterNumber = s: int | s == 1 || s == 2 witness 1

  /** A 1-based month number, as `getMonth() + 1` yields it. */
  type MonthNumber = m: int | 1 <= m <= 12 witness 1

  datatype Term = Term(year: int, semester: SemesterNumber)

  /**
   * getYearSemester: the wall clock's calendar year and month (1-based) give
   * semester 1 for January to June and semester 2 for July to December; the
   * year is taken unchanged.
   */
  function YearSemester(year: int, month: MonthNumber): (t: Term)
    ensures t.year == year
    ensures t.semester == 1 <==> month <= 6
    ensures t.semester == 2 <==> month >= 7
  {
    Term(year, if month <= 6 then 1 else 2)
  }

  /** Two instants of one year fall in the same term exactly when both months are in the same half. */
  lemma SameTermIffSameHalf(year: int, m1: MonthNumber, m2: MonthNumber)
    ensures YearSemester(year, m1) == YearSemester(year, m2) <==> (m1 <= 6 <==> m2 <= 6)
  {
  }

  // ---------------------------------------------------------------------------
  // Decimal rendering of integers, as a template literal renders an integer-valued number.

  predicate IsDigit(c: char) { '0' <= c <= '9' }

  function DigitChar(d: int): (c: char)
    requires 0 <= d < 10
    ensures IsDigit(c)
  {
    ('0' as int + d) as char
  }

  function DigitValue(c: char): (d: int)
    requires IsDigit(c)
    ensures 0 <= d < 10 && DigitChar(d) == c
  {
    c as int - '0' as int
  }

  /** The decimal digits of a natural number, most significant first, with no leading zero. */
  function NatToString(n: nat): (s: string)
    ensures |s| >= 1
    ensures forall i :: 0 <= i < |s| ==> IsDigit(s[i])
    ensures |s| > 1 ==> s[0] != '0'
  {
    if n < 10 then [DigitChar(n)] else NatToString(n / 10) + [DigitChar(n % 10)]
  }

  /** A negative integer is rendered with a leading minus sign. */
  function IntToString(n: int): string
  {
    if n < 0 then "-" + NatToString(-n) else NatToString(n)
  }

  /** Reads a non-empty string of decimal digits back as a number. */
  function ParseNat(s: string): Option<nat>
  {
    if s == [] || !IsDigit(s[|s| - 1]) then None
    else if |s| == 1 then Some(DigitValue(s[0]))
    else match ParseNat(s[..|s| - 1])
      case None => None
      case Some(p) => Some(p * 10 + DigitValue(s[|s| - 1]))
  }

  function ParseInt(s: string): Option<int>
  {
    var digits := if |s| > 0 && s[0] == '-' then s[1..] else s;
    match ParseNat(digits)
    case None => None
    case Some(p) => Some(if digits == s then p as int else -(p as int))
  }

  lemma {:induction false} ParseNatRoundTrip(n: nat)
    ensures ParseNat(NatToString(n)) == Some(n)
  {
    if n >= 10 {
      var s := NatToString(n);
      assert s[..|s| - 1] == NatToString(n / 10);
      ParseNatRoundTrip(n / 10);
    }
  }

  lemma {:induction false} ParseIntRoundTrip(n: int)
    ensures ParseInt(IntToString(n)) == Some(n)
  {
    var s := IntToString(n);
    if n < 0 {
      assert s[1..] == NatToString(-n);
      assert s != s[1..];
      ParseNatRoundTrip(-n);
    } else {
      assert s == NatToString(n) && s[0] != '-';
      ParseNatRoundTrip(n);
    }
  }

  // ---------------------------------------------------------------------------
  // Cache file names.

  const Prefix: string := "calendario_academico_"

  /** `calendario_academico_{year}-{semester}`: the identifier both cache files share. */
  function Identifier(t: Term): string
  {
    Prefix + IntToString(t.year) + "-" + IntToString(t.semester)
  }

  function PdfName(t: Term): string { Identifier(t) + ".pdf" }

  function JsonName(t: Term): string { Identifier(t) + ".json" }

  /** Recovers the term from an identifier, if the string is one. */
  function ParseIdentifier(s: string): Option<Term>
  {
    if |s| < |Prefix| + 3 || s[..|Prefix|] != Prefix then None
    else
      var rest := s[|Prefix|..];
      var n := |rest|;
      if rest[n - 2] != '-' || (rest[n - 1] != '1' && rest[n - 1] != '2') then None
      else match ParseInt(rest[..n - 2])
        case None => None
        case Some(y) => Some(Term(y, if rest[n - 1] == '1' then 1 else 2))
  }

  /** The identifier determines the term it was built from. */
  lemma IdentifierRoundTrip(t: Term)
    ensures ParseIdentifier(Identifier(t)) == Some(t)
  {
    var s := Identifier(t);
    var y := IntToString(t.year);
    assert |y| >= 1;
    assert s[..|Prefix|] == Prefix;
    var rest := s[|Prefix|..];
    assert rest == y + "-" + IntToString(t.semester);
    assert IntToString(t.semester) == [DigitChar(t.semester)];
    assert rest[..|rest| - 2] == y;
    ParseIntRoundTrip(t.year);
  }

  /** Different terms never share a cache identifier. */
  lemma IdentifierInjective(t1: Term, t2: Term)
    ensures Identifier(t1) == Identifier(t2) <==> t1 == t2
  {
    if Identifier(t1) == Identifier(t2) {
      IdentifierRoundTrip(t1);
      IdentifierRoundTrip(t2);
    }
  }

  /**
   * Both cache files carry the term's identifier and differ only in their
   * suffix; a PDF name is never a JSON name, and each kind of name is
   * one-to-one in the term.
   */
  lemma CacheNamesShareIdentifier(t1: Term, t2: Term)
    ensures PdfName(t1)[..|Identifier(t1)|] == Identifier(t1) == JsonName(t1)[..|Identifier(t1)|]
    ensures PdfName(t1) != JsonName(t2)
    ensures PdfName(t1) == PdfName(t2) <==> t1 == t2
    ensures JsonName(t1) == JsonName(t2) <==> t1 == t2
  {
    var p, j := PdfName(t1), JsonName(t2);
    assert p[|p| - 1] == 'f' && j[|j| - 1] == 'n';
    if PdfName(t1) == PdfName(t2) {
      assert Identifier(t1) == PdfName(t1)[..|PdfName(t1)| - 4];
      assert Identifier(t2) == PdfName(t2)[..|PdfName(t2)| - 4];
      IdentifierInjective(t1, t2);
    }
    if JsonName(t1) == JsonName(t2) {
      assert Identifier(t1) == JsonName(t1)[..|JsonName(t1)| - 5];
      assert Identifier(t2) == JsonName(t2)[..|JsonName(t2)| - 5];
      IdentifierInjective(t1, t2);
    }
  }
}

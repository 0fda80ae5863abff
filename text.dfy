/** The parts of .NET string handling the core relies on: ASCII case mapping
    (ToLower, ToLowerInvariant, ToUpperInvariant), char.IsWhiteSpace and
    string.IsNullOrWhiteSpace, decimal formatting of page numbers inside
    interpolated strings, string.Join, StringBuilder.AppendLine, and the
    StringComparison.OrdinalIgnoreCase order used to sort results. */
module Text {

  /** Environment.NewLine on Windows, appended by StringBuilder.AppendLine. */
  const NewLine: string := "\r\n"

  // ---------------------------------------------------------------------------
  // Case mapping (ASCII letters only)

  function ToLowerChar(c: char): char {
    if 'A' <= c <= 'Z' then (c as int + 32) as char else c
  }

  function ToUpperChar(c: char): char {
    if 'a' <= c <= 'z' then (c as int - 32) as char else c
  }

  function ToLower(s: string): (r: string)
    ensures |r| == |s|
    ensures forall i :: 0 <= i < |s| ==> r[i] == ToLowerChar(s[i])
  {
    seq(|s|, i requires 0 <= i < |s| => ToLowerChar(s[i]))
  }

  function ToUpper(s: string): (r: string)
    ensures |r| == |s|
    ensures forall i :: 0 <= i < |s| ==> r[i] == ToUpperChar(s[i])
  {
    seq(|s|, i requires 0 <= i < |s| => ToUpperChar(s[i]))
  }

  /** Lower-casing forgets whether a letter was upper-cased first. */
  lemma LowerOfUpper(s: string)
    ensures ToLower(ToUpper(s)) == ToLower(s)
  {
    forall i | 0 <= i < |s|
      ensures ToLower(ToUpper(s))[i] == ToLower(s)[i]
    {
      var c := s[i];
      if 'a' <= c <= 'z' {
        assert ToUpperChar(c) as int == c as int - 32;
      }
    }
  }

  lemma LowerIdempotent(s: string)
    ensures ToLower(ToLower(s)) == ToLower(s)
  {
    forall i | 0 <= i < |s|
      ensures ToLower(ToLower(s))[i] == ToLower(s)[i]
    {
      var c := s[i];
      if 'A' <= c <= 'Z' {
        assert ToLowerChar(c) as int == c as int + 32;
      }
    }
  }

  // ---------------------------------------------------------------------------
  // White space

  /** char.IsWhiteSpace: the Unicode space, line and paragraph separators,
      the control characters U+0009 to U+000D, U+0085 and U+00A0. */
  predicate IsWhiteSpace(c: char) {
    || c == ' '
    || '\t' <= c <= '\r'
    || c == '\U{0085}'
    || c == '\U{00A0}'
    || c == '\U{1680}'
    || '\U{2000}' <= c <= '\U{200A}'
    || c == '\U{2028}'
    || c == '\U{2029}'
    || c == '\U{202F}'
    || c == '\U{205F}'
    || c == '\U{3000}'
  }

  /** string.IsNullOrWhiteSpace; a null string is modelled as the empty one. */
  predicate IsNullOrWhiteSpace(s: string) {
    forall i :: 0 <= i < |s| ==> IsWhiteSpace(s[i])
  }

  /** Case mapping touches letters only, so blankness survives it. */
  lemma BlankUnderCase(s: string)
    ensures IsNullOrWhiteSpace(ToUpper(s)) <==> IsNullOrWhiteSpace(s)
    ensures IsNullOrWhiteSpace(ToLower(s)) <==> IsNullOrWhiteSpace(s)
  {
    forall i | 0 <= i < |s|
      ensures IsWhiteSpace(ToUpper(s)[i]) <==> IsWhiteSpace(s[i])
      ensures IsWhiteSpace(ToLower(s)[i]) <==> IsWhiteSpace(s[i])
    {
      var c := s[i];
      if 'a' <= c <= 'z' {
        assert ToUpperChar(c) as int == c as int - 32;
      }
      if 'A' <= c <= 'Z' {
        assert ToLowerChar(c) as int == c as int + 32;
      }
    }
  }

  // ---------------------------------------------------------------------------
  // Decimal numbers, as written by string interpolation of an int

  predicate IsDigit(c: char) {
    '0' <= c <= '9'
  }

  predicate AllDigits(s: string) {
    forall i :: 0 <= i < |s| ==> IsDigit(s[i])
  }

  function DigitChar(d: nat): (c: char)
    requires d < 10
    ensures IsDigit(c)
  {
    ('0' as int + d) as char
  }

  /** The decimal form of `n`, without leading zeros. */
  function NatToString(n: nat): (s: string)
    ensures |s| >= 1 && AllDigits(s)
    decreases n
  {
    if n < 10 then [DigitChar(n)] else NatToString(n / 10) + [DigitChar(n % 10)]
  }

  /** Reads a string of decimal digits back as a number. */
  function ParseDigits(s: string): nat
    requires AllDigits(s)
    decreases |s|
  {
    if |s| == 0 then 0
    else ParseDigits(s[..|s| - 1]) * 10 + (s[|s| - 1] as int - '0' as int)
  }

  /** Reading a formatted number gives the number back. */
  lemma {:induction false} ParseNatToString(n: nat)
    ensures ParseDigits(NatToString(n)) == n
    decreases n
  {
    var s := NatToString(n);
    if n < 10 {
      assert s[..0] == [];
    } else {
      ParseNatToString(n / 10);
      assert s[..|s| - 1] == NatToString(n / 10);
    }
  }

  /** Distinct numbers are written differently. */
  lemma NatToStringInjective(m: nat, n: nat)
    requires NatToString(m) == NatToString(n)
    ensures m == n
  {
    ParseNatToString(m);
    ParseNatToString(n);
  }

  // ---------------------------------------------------------------------------
  // Joining

  /** string.Join(sep, parts). */
  function Join(sep: string, parts: seq<string>): string
    decreases |parts|
  {
    if |parts| == 0 then ""
    else if |parts| == 1 then parts[0]
    else parts[0] + sep + Join(sep, parts[1..])
  }

  /** The text a StringBuilder holds after AppendLine(l) for each l in order. */
  function JoinLines(lines: seq<string>): string
    decreases |lines|
  {
    if |lines| == 0 then "" else JoinLines(lines[..|lines| - 1]) + lines[|lines| - 1] + NewLine
  }

  /** One more AppendLine adds its line and a line break at the end. */
  lemma JoinLinesAppend(lines: seq<string>, l: string)
    ensures JoinLines(lines + [l]) == JoinLines(lines) + l + NewLine
  {
    assert (lines + [l])[..|lines|] == lines;
  }

  /** The joined text of two runs of lines is their concatenation. */
  lemma {:induction false} JoinLinesConcat(a: seq<string>, b: seq<string>)
    ensures JoinLines(a + b) == JoinLines(a) + JoinLines(b)
    decreases |b|
  {
    if |b| == 0 {
      assert a + b == a;
    } else {
      var b' := b[..|b| - 1];
      JoinLinesConcat(a, b');
      assert (a + b)[..|a + b| - 1] == a + b';
      assert (a + b)[|a + b| - 1] == b[|b| - 1];
    }
  }

  /** Every line ends with a line break, so the text has at least
      two characters per line. */
  lemma {:induction false} JoinLinesLength(lines: seq<string>)
    ensures |JoinLines(lines)| >= 2 * |lines|
    decreases |lines|
  {
    if |lines| > 0 {
      JoinLinesLength(lines[..|lines| - 1]);
    }
  }

  // ---------------------------------------------------------------------------
  // Ordinal comparison, and its case-insensitive variant

  /** Ordinal comparison: code units compared numerically, and a proper
      prefix orders first. */
  predicate LexLeq(a: string, b: string)
    decreases |a|
  {
    |a| == 0 || (|b| > 0 && (a[0] < b[0] || (a[0] == b[0] && LexLeq(a[1..], b[1..]))))
  }

  /** string.Compare(a, b, StringComparison.OrdinalIgnoreCase) <= 0:
      both strings are upper-cased and then compared ordinally. */
  predicate OrdinalIgnoreCaseLeq(a: string, b: string) {
    LexLeq(ToUpper(a), ToUpper(b))
  }

  lemma {:induction false} LexLeqReflexive(a: string)
    ensures LexLeq(a, a)
    decreases |a|
  {
    if |a| > 0 {
      LexLeqReflexive(a[1..]);
    }
  }

  lemma {:induction false} LexLeqTotal(a: string, b: string)
    ensures LexLeq(a, b) || LexLeq(b, a)
    decreases |a|
  {
    if |a| > 0 && |b| > 0 && a[0] == b[0] {
      LexLeqTotal(a[1..], b[1..]);
    }
  }

  lemma {:induction false} LexLeqTransitive(a: string, b: string, c: string)
    requires LexLeq(a, b) && LexLeq(b, c)
    ensures LexLeq(a, c)
    decreases |a|
  {
    if |a| > 0 && a[0] == b[0] && b[0] == c[0] {
      LexLeqTransitive(a[1..], b[1..], c[1..]);
    }
  }

  lemma {:induction false} LexLeqAntisymmetric(a: string, b: string)
    requires LexLeq(a, b) && LexLeq(b, a)
    ensures a == b
    decreases |a|
  {
    if |a| > 0 {
      LexLeqAntisymmetric(a[1..], b[1..]);
      assert a == [a[0]] + a[1..];
      assert b == [b[0]] + b[1..];
    }
  }

  /** OrdinalIgnoreCase is a total preorder: strings equal up to case
      compare equal. */
  lemma OrdinalIgnoreCaseTotalPreorder(a: string, b: string, c: string)
    ensures OrdinalIgnoreCaseLeq(a, a)
    ensures OrdinalIgnoreCaseLeq(a, b) || OrdinalIgnoreCaseLeq(b, a)
    ensures OrdinalIgnoreCaseLeq(a, b) && OrdinalIgnoreCaseLeq(b, c) ==> OrdinalIgnoreCaseLeq(a, c)
    ensures OrdinalIgnoreCaseLeq(a, b) && OrdinalIgnoreCaseLeq(b, a) ==> ToUpper(a) == ToUpper(b)
  {
    LexLeqReflexive(ToUpper(a));
    LexLeqTotal(ToUpper(a), ToUpper(b));
    if OrdinalIgnoreCaseLeq(a, b) && OrdinalIgnoreCaseLeq(b, c) {
      LexLeqTransitive(ToUpper(a), ToUpper(b), ToUpper(c));
    }
    if OrdinalIgnoreCaseLeq(a, b) && OrdinalIgnoreCaseLeq(b, a) {
      LexLeqAntisymmetric(ToUpper(a), ToUpper(b));
    }
  }
}

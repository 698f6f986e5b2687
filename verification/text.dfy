/** The three string operations the period resolver relies on, with
    Python's semantics: `str.split(sep)`, `str.lower()` as far as month-name
    lookup can observe it, and `int(str)` for base-10 text. */
module Text {
  import opened Base

  /** Number of occurrences of `c` in `s`. */
  function Occurrences(s: string, c: char): nat
  {
    if |s| == 0 then 0 else (if s[0] == c then 1 else 0) + Occurrences(s[1..], c)
  }

  /** `s.split(sep)` for a one-character separator: the pieces between
      separators, empty pieces included, so there is always one more piece
      than separators. */
  function Split(s: string, sep: char): (parts: seq<string>)
    ensures |parts| >= 1
  {
    if |s| == 0 then [""]
    else
      var rest := Split(s[1..], sep);
      if s[0] == sep then [""] + rest
      else [[s[0]] + rest[0]] + rest[1..]
  }

  /** `sep.join(parts)`, the inverse of `Split`. */
  function Join(parts: seq<string>, sep: char): string
    requires |parts| >= 1
  {
    if |parts| == 1 then parts[0] else parts[0] + [sep] + Join(parts[1..], sep)
  }

  /** Splitting yields one piece more than there are separators, and no
      piece contains the separator. */
  lemma {:induction false} SplitShape(s: string, sep: char)
    ensures |Split(s, sep)| == Occurrences(s, sep) + 1
    ensures forall i :: 0 <= i < |Split(s, sep)| ==> sep !in Split(s, sep)[i]
  {
    if |s| > 0 {
      SplitShape(s[1..], sep);
      var rest := Split(s[1..], sep);
      if s[0] != sep {
        assert sep !in rest[0];
        var parts := Split(s, sep);
        assert parts[0] == [s[0]] + rest[0];
        forall i | 0 <= i < |parts|
          ensures sep !in parts[i]
        {
          if i > 0 {
            assert parts[i] == rest[i];
          }
        }
      }
    }
  }

  /** Joining the pieces back with the separator restores the string. */
  lemma {:induction false} SplitJoin(s: string, sep: char)
    ensures Join(Split(s, sep), sep) == s
  {
    if |s| > 0 {
      SplitJoin(s[1..], sep);
      var rest := Split(s[1..], sep);
      if s[0] == sep {
        assert Split(s, sep)[1..] == rest;
        assert s == [s[0]] + s[1..];
      } else {
        var parts := Split(s, sep);
        assert parts[1..] == rest[1..];
        if |rest| == 1 {
          assert s == [s[0]] + rest[0];
        } else {
          assert Join(rest, sep) == rest[0] + [sep] + Join(rest[1..], sep);
          assert s == [s[0]] + s[1..];
        }
      }
    }
  }

  /** A string without the separator splits into itself alone. */
  lemma {:induction false} SplitNoSeparator(s: string, sep: char)
    requires sep !in s
    ensures Split(s, sep) == [s]
  {
    if |s| > 0 {
      SplitNoSeparator(s[1..], sep);
      assert [s[0]] + s[1..] == s;
    }
  }

  /** A string with exactly one separator splits into the text before and
      the text after it. */
  lemma {:induction false} SplitAtSeparator(a: string, b: string, sep: char)
    requires sep !in a && sep !in b
    ensures Split(a + [sep] + b, sep) == [a, b]
  {
    if |a| == 0 {
      assert a + [sep] + b == [sep] + b;
      assert ([sep] + b)[1..] == b;
      SplitNoSeparator(b, sep);
    } else {
      var s := a + [sep] + b;
      assert s[1..] == a[1..] + [sep] + b;
      SplitAtSeparator(a[1..], b, sep);
      assert [a[0]] + a[1..] == a;
    }
  }

  predicate IsUpper(c: char)
  {
    'A' <= c <= 'Z'
  }

  function LowerChar(c: char): char
  {
    if IsUpper(c) then (c as int + 32) as char else c
  }

  /** ASCII lower-casing. Python's `str.lower()` also maps non-ASCII
      letters, but the only non-ASCII character it maps onto a single ASCII
      letter is KELVIN SIGN (to 'k'), which occurs in no month name, so
      month-name lookup sees the same answer. No capital survives, and
      exactly the capitals change. */
  function Lower(s: string): (r: string)
    ensures |r| == |s|
    ensures forall i :: 0 <= i < |s| ==> !IsUpper(r[i])
    ensures forall i :: 0 <= i < |s| ==> (r[i] == s[i] <==> !IsUpper(s[i]))
    ensures forall i :: 0 <= i < |s| ==> r[i] == LowerChar(s[i])
  {
    seq(|s|, i requires 0 <= i < |s| => LowerChar(s[i]))
  }

  /** Lower-casing twice is lower-casing once, and text without capitals
      is left as it is. */
  lemma LowerIdempotent(s: string)
    ensures Lower(Lower(s)) == Lower(s)
    ensures (forall i :: 0 <= i < |s| ==> !IsUpper(s[i])) ==> Lower(s) == s
  {
  }

  /** The ASCII whitespace `int()` strips: HT, LF, VT, FF, CR and SPACE. */
  predicate IsSpace(c: char)
  {
    9 <= c as int <= 13 || c == ' '
  }

  /** The non-ASCII characters Python classes as whitespace: NEXT LINE,
      NO-BREAK SPACE, OGHAM SPACE MARK, U+2000 to U+200A, LINE SEPARATOR,
      PARAGRAPH SEPARATOR, NARROW NO-BREAK SPACE, MEDIUM MATHEMATICAL SPACE
      and IDEOGRAPHIC SPACE. `int()` first rewrites each of them to a space.
      The ASCII separators U+001C to U+001F, which `str.isspace()` also
      accepts, are not rewritten and so are not stripped. */
  predicate IsWideSpace(c: char)
  {
    || c as int == 0x85 || c as int == 0xA0 || c as int == 0x1680
    || 0x2000 <= c as int <= 0x200A || c as int == 0x2028 || c as int == 0x2029
    || c as int == 0x202F || c as int == 0x205F || c as int == 0x3000
  }

  /** A character `int()` treats as surrounding whitespace: ASCII
      whitespace, or a non-ASCII blank it has rewritten to a space. A
      rewritten blank between digits stops the parse just as the blank
      itself would, so stripping blanks directly reads every text the same
      way as rewriting first and stripping ASCII whitespace after. */
  predicate IsBlank(c: char)
  {
    IsSpace(c) || IsWideSpace(c)
  }

  predicate Blanks(s: string)
  {
    forall k :: 0 <= k < |s| ==> IsBlank(s[k])
  }

  predicate IsDigit(c: char)
  {
    '0' <= c <= '9'
  }

  predicate AllDigits(s: string)
  {
    forall i :: 0 <= i < |s| ==> IsDigit(s[i])
  }

  /** `r` is the slice `s[i..j]` and everything of `s` outside it is
      blank. */
  predicate Trimmed(s: string, r: string, i: int, j: int)
  {
    && 0 <= i <= j <= |s| && r == s[i..j]
    && (forall k :: 0 <= k < i ==> IsBlank(s[k]))
    && (forall k :: j <= k < |s| ==> IsBlank(s[k]))
  }

  /** Number of blanks at the front of `s`. */
  function LeadingBlanks(s: string): (n: nat)
    ensures n <= |s|
    ensures forall k :: 0 <= k < n ==> IsBlank(s[k])
    ensures n < |s| ==> !IsBlank(s[n])
    decreases |s|
  {
    if |s| > 0 && IsBlank(s[0]) then 1 + LeadingBlanks(s[1..]) else 0
  }

  /** Number of blanks at the back of `s`. */
  function TrailingBlanks(s: string): (n: nat)
    ensures n <= |s|
    ensures forall k :: |s| - n <= k < |s| ==> IsBlank(s[k])
    ensures n < |s| ==> !IsBlank(s[|s| - 1 - n])
    decreases |s|
  {
    if |s| > 0 && IsBlank(s[|s| - 1]) then 1 + TrailingBlanks(s[..|s| - 1]) else 0
  }

  /** The stripping `int()` does: no blank is left at either end, and
      (`StripTrims`) only blanks are cut off. */
  function Strip(s: string): (r: string)
    ensures |r| <= |s|
    ensures |r| > 0 ==> !IsBlank(r[0]) && !IsBlank(r[|r| - 1])
  {
    var i := LeadingBlanks(s);
    s[i..|s| - TrailingBlanks(s[i..])]
  }

  /** The stripped text is a slice of the original with only blanks
      around it. */
  lemma StripTrims(s: string)
    ensures exists i, j :: Trimmed(s, Strip(s), i, j)
  {
    var i := LeadingBlanks(s);
    var j := |s| - TrailingBlanks(s[i..]);
    assert Strip(s) == s[i..j];
    forall k | j <= k < |s|
      ensures IsBlank(s[k])
    {
      assert s[i..][k - i] == s[k];
    }
    assert Trimmed(s, s[i..j], i, j);
  }

  /** Two trimmings of the same text that leave no blank at their ends
      are the same text: the stripped text is determined. */
  lemma TrimUnique(s: string, r1: string, i1: int, j1: int, r2: string, i2: int, j2: int)
    requires Trimmed(s, r1, i1, j1) && Trimmed(s, r2, i2, j2)
    requires |r1| > 0 ==> !IsBlank(r1[0]) && !IsBlank(r1[|r1| - 1])
    requires |r2| > 0 && !IsBlank(r2[0]) && !IsBlank(r2[|r2| - 1])
    ensures r1 == r2
  {
    assert s[i2] == r2[0] && s[j2 - 1] == r2[|r2| - 1];
    assert i1 <= i2 < j1;
    assert s[i1] == r1[0] && s[j1 - 1] == r1[|r1| - 1];
    assert i1 == i2 && j1 == j2;
  }

  /** Value of a run of decimal digits, most significant first. */
  function DigitsValue(s: string): (n: nat)
    requires AllDigits(s)
    decreases |s|
  {
    if |s| == 0 then 0
    else DigitsValue(s[..|s| - 1]) * 10 + (s[|s| - 1] as int - '0' as int)
  }

  /** `t` is an optional sign followed by at least one digit, with value `n`. */
  predicate SignedDigits(t: string, n: int)
  {
    || (|t| > 0 && AllDigits(t) && n == DigitsValue(t))
    || (&& |t| > 1 && (t[0] == '+' || t[0] == '-') && AllDigits(t[1..])
        && n == (if t[0] == '-' then 0 - DigitsValue(t[1..]) else DigitsValue(t[1..])))
  }

  /** `s` reads as the integer `n`: blanks, a signed run of digits, blanks. */
  predicate IntText(s: string, n: int)
  {
    exists i, j :: 0 <= i <= j <= |s| && Blanks(s[..i]) && Blanks(s[j..]) && SignedDigits(s[i..j], n)
  }

  /** `int(s)` for base-10 text: surrounding whitespace is ignored, one
      optional sign, then at least one digit; anything else raises
      `ValueError` (None here). Leading zeros are accepted. A run of digits
      reads as its value, and blank text raises. */
  function ParseInt(s: string): (r: Option<int>)
    ensures |s| > 0 && AllDigits(s) ==> r == Some(DigitsValue(s))
    ensures Blanks(s) ==> r.None?
  {
    StripEdges(s);
    ParseStripped(Strip(s))
  }

  /** Blank text strips to nothing, and a run of digits strips to itself. */
  lemma StripEdges(s: string)
    ensures Blanks(s) ==> Strip(s) == ""
    ensures |s| > 0 && AllDigits(s) ==> Strip(s) == s
  {
    StripTrims(s);
    if |s| > 0 && AllDigits(s) {
      assert !IsBlank(s[0]) && !IsBlank(s[|s| - 1]);
    }
  }

  /** The parse proper, on stripped text. */
  function ParseStripped(t: string): Option<int>
  {
    if |t| > 0 && (t[0] == '+' || t[0] == '-') then
      var digits := t[1..];
      if |digits| > 0 && AllDigits(digits) then
        Some(if t[0] == '-' then 0 - DigitsValue(digits) else DigitsValue(digits))
      else None
    else if |t| > 0 && AllDigits(t) then Some(DigitsValue(t))
    else None
  }

  /** `int(s)` gives `n` exactly when `s` is blanks, an optionally signed
      run of digits with value `n`, and blanks. */
  lemma ParseIntCharacterised(s: string, n: int)
    ensures ParseInt(s) == Some(n) <==> IntText(s, n)
  {
    if ParseInt(s) == Some(n) {
      ParseIntSound(s);
    }
    if IntText(s, n) {
      ParseIntComplete(s, n);
    }
  }

  lemma ParseIntSound(s: string)
    requires ParseInt(s).Some?
    ensures IntText(s, ParseInt(s).value)
  {
    var t := Strip(s);
    StripTrims(s);
    var i, j :| Trimmed(s, t, i, j);
    assert SignedDigits(s[i..j], ParseInt(s).value);
    assert Blanks(s[..i]);
    assert Blanks(s[j..]) by {
      forall k | 0 <= k < |s[j..]| ensures IsBlank(s[j..][k]) {
        assert s[j..][k] == s[j + k];
      }
    }
  }

  lemma ParseIntComplete(s: string, n: int)
    requires IntText(s, n)
    ensures ParseInt(s) == Some(n)
  {
    var i, j :| 0 <= i <= j <= |s| && Blanks(s[..i]) && Blanks(s[j..]) && SignedDigits(s[i..j], n);
    var t := s[i..j];
    BlanksAround(s, i, j);
    assert |t| > 0 && !IsBlank(t[0]) && !IsBlank(t[|t| - 1]);
    StripIs(s, t, i, j);
    ParseStrippedSigned(t, n);
  }

  lemma BlanksAround(s: string, i: int, j: int)
    requires 0 <= i <= j <= |s| && Blanks(s[..i]) && Blanks(s[j..])
    ensures Trimmed(s, s[i..j], i, j)
  {
    forall k | j <= k < |s|
      ensures IsBlank(s[k])
    {
      assert s[j..][k - j] == s[k];
    }
  }

  /** Any trimming without blank ends is what `Strip` gives. */
  lemma StripIs(s: string, t: string, i: int, j: int)
    requires Trimmed(s, t, i, j) && |t| > 0 && !IsBlank(t[0]) && !IsBlank(t[|t| - 1])
    ensures Strip(s) == t
  {
    StripTrims(s);
    var i', j' :| Trimmed(s, Strip(s), i', j');
    TrimUnique(s, Strip(s), i', j', t, i, j);
  }

  lemma ParseStrippedSigned(t: string, n: int)
    requires SignedDigits(t, n)
    ensures ParseStripped(t) == Some(n)
  {
    if |t| > 0 && (t[0] == '+' || t[0] == '-') {
      assert !IsDigit(t[0]);
    }
  }

  /** `int()` does not strip the ASCII information separators U+001C to
      U+001F, although `str.isspace()` counts them as whitespace: a run of
      digits next to one does not parse. */
  lemma ParseIntSeparators(t: string)
    requires |t| > 0 && AllDigits(t)
    ensures ParseInt("\U{1C}" + t) == None
    ensures ParseInt(t + "\U{1F}") == None
  {
    Unstripped("\U{1C}" + t);
    Unstripped(t + "\U{1F}");
  }

  /** Text with a character that is neither blank, digit nor sign at one
      end does not parse. */
  lemma Unstripped(s: string)
    requires |s| > 1 && !IsBlank(s[0]) && !IsBlank(s[|s| - 1])
    requires !IsDigit(s[0]) || !IsDigit(s[|s| - 1])
    requires s[0] != '+' && s[0] != '-'
    ensures ParseInt(s) == None
  {
    assert Trimmed(s, s, 0, |s|);
    StripIs(s, s, 0, |s|);
  }

  /** `int()` reads non-ASCII blanks such as NO-BREAK SPACE and IDEOGRAPHIC
      SPACE as surrounding whitespace. */
  lemma ParseIntWideSpaces(t: string, n: int)
    requires SignedDigits(t, n)
    ensures ParseInt("\U{A0}" + t + "\U{3000}") == Some(n)
  {
    var s := "\U{A0}" + t + "\U{3000}";
    assert s[1..|t| + 1] == t && s[..1] == "\U{A0}" && s[|t| + 1..] == "\U{3000}";
    ParseIntComplete(s, n);
  }

  /** Decimal rendering of a natural number, no leading zeros (`str(n)`). */
  function NatToString(n: nat): (s: string)
    ensures |s| > 0 && AllDigits(s)
    decreases n
  {
    var last := [(('0' as int) + n % 10) as char];
    if n < 10 then last else NatToString(n / 10) + last
  }

  /** Reading back the rendering of a number gives the number. */
  lemma {:induction false} DigitsRoundTrip(n: nat)
    ensures DigitsValue(NatToString(n)) == n
    decreases n
  {
    var s := NatToString(n);
    if n >= 10 {
      DigitsRoundTrip(n / 10);
      assert s[..|s| - 1] == NatToString(n / 10);
    }
  }

  /** `int(str(n)) == n`, with or without surrounding blanks. */
  lemma ParseIntRoundTrip(n: nat)
    ensures ParseInt(NatToString(n)) == Some(n)
    ensures ParseInt(" " + NatToString(n) + " ") == Some(n)
  {
    var s := NatToString(n);
    DigitsRoundTrip(n);
    SignedPadded(s, n);
  }

  /** A minus sign in front of a run of digits negates its value:
      `int("-" + str(n)) == -n`. */
  lemma ParseIntNegative(s: string)
    requires |s| > 0 && AllDigits(s)
    ensures ParseInt("-" + s) == Some(0 - DigitsValue(s))
  {
    Negated(s, "-" + s);
  }

  lemma Negated(s: string, neg: string)
    requires |s| > 0 && AllDigits(s) && |neg| > 1 && neg[0] == '-' && neg[1..] == s
    ensures ParseInt(neg) == Some(0 - DigitsValue(s))
  {
    NegSigned(s, neg);
    SignedBare(neg, 0 - DigitsValue(s));
  }

  lemma NegSigned(s: string, neg: string)
    requires |s| > 0 && AllDigits(s) && |neg| > 1 && neg[0] == '-' && neg[1..] == s
    ensures SignedDigits(neg, 0 - DigitsValue(s))
  {
  }

  /** A signed run of digits parses. */
  lemma SignedBare(t: string, n: int)
    requires SignedDigits(t, n)
    ensures ParseInt(t) == Some(n)
  {
    assert t[0..|t|] == t && t[..0] == "" && t[|t|..] == "";
    ParseIntComplete(t, n);
  }

  /** A signed run of digits parses between two spaces. */
  lemma SignedPadded(t: string, n: int)
    requires SignedDigits(t, n)
    ensures ParseInt(" " + t + " ") == Some(n)
  {
    var padded := " " + t + " ";
    assert padded[1..|t| + 1] == t && padded[..1] == " " && padded[|t| + 1..] == " ";
    ParseIntComplete(padded, n);
  }
}

/**
 * Text helpers shared by the two source generators: decimal rendering of
 * integers as string interpolation prints them, the reading back of an integer
 * literal that closes a call statement, and joining and splitting dotted names.
 */
module Text {
  import opened Wrappers

  predicate IsDigit(c: char) { '0' <= c <= '9' }

  predicate AllDigits(s: string) { forall i :: 0 <= i < |s| ==> IsDigit(s[i]) }

  function DigitChar(d: nat): (c: char)
    requires d < 10
    ensures IsDigit(c)
  {
    ('0' as int + d) as char
  }

  /** The value of a character read as a decimal digit (meaningful when it is one). */
  function CharValue(c: char): int
  {
    c as int - '0' as int
  }

  // ---------------------------------------------------------------------------
  // Decimal numbers
  // ---------------------------------------------------------------------------

  /** The decimal digits of n, without leading zeros (the invariant-culture `ToString()`). */
  function NatToDecimal(n: nat): (s: string)
    ensures |s| >= 1 && AllDigits(s)
    ensures |s| == 1 <==> n < 10
    ensures s[0] == '0' <==> n == 0
    decreases n
  {
    if n < 10 then [DigitChar(n)] else NatToDecimal(n / 10) + [DigitChar(n % 10)]
  }

  /** A signed integer in decimal: a minus sign before the magnitude of a negative value. */
  function IntToDecimal(n: int): string
  {
    if n < 0 then "-" + NatToDecimal(-n) else NatToDecimal(n)
  }

  /** The value of a string of decimal digits, most significant first. */
  function DigitsValue(s: string): int
    decreases |s|
  {
    if s == [] then 0 else DigitsValue(s[..|s| - 1]) * 10 + CharValue(s[|s| - 1])
  }

  /** An unsigned decimal literal: one or more digits. */
  function ParseDecimal(s: string): Option<int>
  {
    if |s| >= 1 && AllDigits(s) then Some(DigitsValue(s)) else None
  }

  /** A decimal literal with an optional leading minus sign. */
  function ParseSignedDecimal(s: string): Option<int>
  {
    if |s| >= 1 && s[0] == '-' then
      match ParseDecimal(s[1..])
      case Some(m) => Some(-m)
      case None => None
    else ParseDecimal(s)
  }

  lemma {:induction false} DigitsValueOfDecimal(n: nat)
    ensures DigitsValue(NatToDecimal(n)) == n
    decreases n
  {
    var s := NatToDecimal(n);
    if n >= 10 {
      DigitsValueOfDecimal(n / 10);
      assert s[..|s| - 1] == NatToDecimal(n / 10);
    }
  }

  /** Rendering a natural number and parsing it back gives the number. */
  lemma ParseDecimalOfDecimal(n: nat)
    ensures ParseDecimal(NatToDecimal(n)) == Some(n)
  {
    DigitsValueOfDecimal(n);
  }

  /** Rendering a signed integer and parsing it back gives the integer. */
  lemma ParseSignedDecimalOfDecimal(n: int)
    ensures ParseSignedDecimal(IntToDecimal(n)) == Some(n)
  {
    var s := IntToDecimal(n);
    if n < 0 {
      assert s[1..] == NatToDecimal(-n);
      ParseDecimalOfDecimal(-n);
    } else {
      ParseDecimalOfDecimal(n);
    }
  }

  lemma {:induction false} DigitsValueBounds(s: string)
    requires |s| >= 1 && AllDigits(s)
    ensures s[0] != '0' ==> DigitsValue(s) >= 1
    ensures DigitsValue(s) >= 0
    decreases |s|
  {
    if |s| > 1 {
      DigitsValueBounds(s[..|s| - 1]);
    }
  }

  /**
   * The other direction of the round trip: a digit string without leading
   * zeros is exactly the rendering of its own value.
   */
  lemma {:induction false} DecimalOfDigitsValue(s: string)
    requires |s| >= 1 && AllDigits(s)
    requires |s| > 1 ==> s[0] != '0'
    ensures DigitsValue(s) >= 0 && NatToDecimal(DigitsValue(s)) == s
    decreases |s|
  {
    var p, c := s[..|s| - 1], s[|s| - 1];
    assert IsDigit(c);
    if |p| == 0 {
      assert s == [c];
    } else {
      DigitsValueBounds(p);
      DecimalOfDigitsValue(p);
      var v := DigitsValue(s);
      assert v / 10 == DigitsValue(p) && v % 10 == CharValue(c);
      assert s == p + [c];
    }
  }

  // ---------------------------------------------------------------------------
  // The integer literal that closes a call statement
  // ---------------------------------------------------------------------------

  /** Where the run of decimal digits that ends at position i of s begins. */
  function DigitRunStart(s: string, i: nat): (start: nat)
    requires i <= |s|
    ensures start <= i
    decreases i
  {
    if i > 0 && IsDigit(s[i - 1]) then DigitRunStart(s, i - 1) else i
  }

  lemma {:induction false} DigitRunStartAfter(before: string, digits: string, i: nat)
    requires |before| <= i <= |before| + |digits|
    requires |before| == 0 || !IsDigit(before[|before| - 1])
    requires AllDigits(digits)
    ensures DigitRunStart(before + digits, i) == |before|
    decreases i
  {
    var s := before + digits;
    if i > |before| {
      assert s[i - 1] == digits[i - 1 - |before|];
      DigitRunStartAfter(before, digits, i - 1);
    } else if i > 0 {
      assert s[i - 1] == before[|before| - 1];
    }
  }

  /** The integer literal, with its minus sign if any, at the very end of s. */
  function TrailingLiteral(s: string): string
  {
    var start := DigitRunStart(s, |s|);
    if start < |s| && start > 0 && s[start - 1] == '-' then s[start - 1..] else s[start..]
  }

  /**
   * Reads back the integer literal that ends a call statement: a line of the
   * form `…N);` yields N, and one of the form `…-N);` yields -N.
   */
  function ClosingIntegerArgument(line: string): Option<int>
  {
    if |line| < 2 || line[|line| - 2] != ')' || line[|line| - 1] != ';' then None
    else ParseSignedDecimal(TrailingLiteral(line[..|line| - 2]))
  }

  /** The literal after a non-digit prefix: its digits, with the sign in front if there is one. */
  lemma TrailingLiteralAfter(p: string, sign: string, digits: string)
    requires |p| > 0 && !IsDigit(p[|p| - 1]) && p[|p| - 1] != '-'
    requires sign == "" || sign == "-"
    requires |digits| > 0 && AllDigits(digits)
    ensures TrailingLiteral(p + sign + digits) == sign + digits
  {
    var before := p + sign;
    var s := before + digits;
    DigitRunStartAfter(before, digits, |s|);
    assert s[|before| - 1] == before[|before| - 1];
    if sign == "" {
      assert s[|before|..] == digits;
    } else {
      assert before[|before| - 1] == '-';
      assert s[|before| - 1..] == sign + digits;
    }
  }

  /**
   * An integer rendered in decimal just before the closing `);` of a call is
   * read back exactly, provided the text before it ends in neither a digit
   * nor a minus sign.
   */
  lemma ClosingIntegerArgumentOf(p: string, n: int)
    requires |p| > 0 && !IsDigit(p[|p| - 1]) && p[|p| - 1] != '-'
    ensures ClosingIntegerArgument(p + IntToDecimal(n) + ");") == Some(n)
  {
    var line := p + IntToDecimal(n) + ");";
    assert line[..|line| - 2] == p + IntToDecimal(n);
    if n < 0 {
      assert p + IntToDecimal(n) == p + "-" + NatToDecimal(-n);
      TrailingLiteralAfter(p, "-", NatToDecimal(-n));
    } else {
      assert p + IntToDecimal(n) == p + "" + NatToDecimal(n);
      TrailingLiteralAfter(p, "", NatToDecimal(n));
    }
    ParseSignedDecimalOfDecimal(n);
  }

  // ---------------------------------------------------------------------------
  // Dotted names
  // ---------------------------------------------------------------------------

  /** `string.Join` with a one-character separator. */
  function Join(sep: char, parts: seq<string>): string
  {
    if |parts| == 0 then ""
    else if |parts| == 1 then parts[0]
    else parts[0] + [sep] + Join(sep, parts[1..])
  }

  /** Splits s at every occurrence of sep; the result always has at least one part. */
  function Split(sep: char, s: string): (parts: seq<string>)
    ensures |parts| >= 1
    decreases |s|
  {
    if |s| == 0 then [""]
    else if s[0] == sep then [""] + Split(sep, s[1..])
    else
      var rest := Split(sep, s[1..]);
      [[s[0]] + rest[0]] + rest[1..]
  }

  lemma {:induction false} JoinAppend(sep: char, xs: seq<string>, ys: seq<string>)
    requires |xs| >= 1 && |ys| >= 1
    ensures Join(sep, xs + ys) == Join(sep, xs) + [sep] + Join(sep, ys)
    decreases |xs|
  {
    if |xs| > 1 {
      JoinAppend(sep, xs[1..], ys);
      assert (xs + ys)[1..] == xs[1..] + ys;
    }
  }

  /** Joining the parts of a split gives back the original text, for every text. */
  lemma {:induction false} JoinSplit(sep: char, s: string)
    ensures Join(sep, Split(sep, s)) == s
    decreases |s|
  {
    if |s| > 0 {
      JoinSplit(sep, s[1..]);
      if s[0] != sep {
        var rest := Split(sep, s[1..]);
        if |rest| > 1 {
          assert ([[s[0]] + rest[0]] + rest[1..])[1..] == rest[1..];
        }
      }
    }
  }

  lemma {:induction false} SplitAppend(sep: char, a: string, b: string)
    ensures Split(sep, a + [sep] + b) == Split(sep, a) + Split(sep, b)
    decreases |a|
  {
    var s := a + [sep] + b;
    if |a| == 0 {
      assert s[1..] == b;
    } else {
      assert s[0] == a[0] && s[1..] == a[1..] + [sep] + b;
      SplitAppend(sep, a[1..], b);
      if a[0] != sep {
        var tail, rest := Split(sep, a[1..]), Split(sep, s[1..]);
        assert rest == tail + Split(sep, b);
        assert rest[0] == tail[0] && rest[1..] == tail[1..] + Split(sep, b);
      }
    }
  }

  lemma {:induction false} SplitWithoutSeparator(sep: char, p: string)
    requires sep !in p
    ensures Split(sep, p) == [p]
    decreases |p|
  {
    if |p| > 0 {
      SplitWithoutSeparator(sep, p[1..]);
      assert p == [p[0]] + p[1..];
    }
  }

  /** Splitting the join of separator-free parts gives back the parts. */
  lemma {:induction false} SplitJoin(sep: char, parts: seq<string>)
    requires |parts| >= 1
    requires forall i :: 0 <= i < |parts| ==> sep !in parts[i]
    ensures Split(sep, Join(sep, parts)) == parts
    decreases |parts|
  {
    SplitWithoutSeparator(sep, parts[0]);
    if |parts| > 1 {
      SplitJoin(sep, parts[1..]);
      SplitAppend(sep, parts[0], Join(sep, parts[1..]));
      assert [parts[0]] + parts[1..] == parts;
    }
  }
}

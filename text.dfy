/** The few Python `str` operations the core relies on: `split`, `join`,
    `lower`, and the decimal rendering `str(int)`. */
module Text {

  /** `s.split(sep)` for a non-empty separator: the pieces between the
      occurrences of `sep`, found left to right without overlap. */
  function Split(s: string, sep: string): (parts: seq<string>)
    requires sep != []
    ensures |parts| >= 1
    decreases |s|
  {
    if |s| < |sep| then [s]
    else if s[..|sep|] == sep then [""] + Split(s[|sep|..], sep)
    else
      var rest := Split(s[1..], sep);
      [[s[0]] + rest[0]] + rest[1..]
  }

  /** `sep.join(parts)`. */
  function Join(parts: seq<string>, sep: string): string
    decreases |parts|
  {
    if parts == [] then ""
    else if |parts| == 1 then parts[0]
    else parts[0] + sep + Join(parts[1..], sep)
  }

  /** `xs[-1]`. */
  function Last<T>(xs: seq<T>): T
    requires xs != []
  {
    xs[|xs| - 1]
  }

  /** Prefixing a character to the first piece prefixes it to the joined text. */
  lemma JoinPrefixFirst(x: char, parts: seq<string>, sep: string)
    requires parts != []
    ensures Join([[x] + parts[0]] + parts[1..], sep) == [x] + Join(parts, sep)
  {
    var longer := [[x] + parts[0]] + parts[1..];
    if |parts| > 1 {
      assert longer[1..] == parts[1..];
    }
  }

  /** Joining the pieces of a split with the same separator gives back the text. */
  lemma {:induction false} JoinSplit(s: string, sep: string)
    requires sep != []
    ensures Join(Split(s, sep), sep) == s
    decreases |s|
  {
    if |s| < |sep| {
    } else if s[..|sep|] == sep {
      var rest := Split(s[|sep|..], sep);
      JoinSplit(s[|sep|..], sep);
      assert ([""] + rest)[1..] == rest;
      assert Join([""] + rest, sep) == sep + Join(rest, sep);
      assert s == sep + s[|sep|..];
    } else {
      var rest := Split(s[1..], sep);
      assert Split(s, sep) == [[s[0]] + rest[0]] + rest[1..];
      JoinSplit(s[1..], sep);
      JoinPrefixFirst(s[0], rest, sep);
      assert s == [s[0]] + s[1..];
    }
  }

  /** Splitting on a character yields a single piece exactly when the
      character does not occur. */
  lemma {:induction false} SplitSingleIffAbsent(s: string, c: char)
    ensures |Split(s, [c])| == 1 <==> c !in s
    decreases |s|
  {
    if |s| < 1 {
    } else if s[..1] == [c] {
      assert s[0] == c;
    } else {
      SplitSingleIffAbsent(s[1..], c);
      assert s[0] != c;
      assert c in s <==> c in s[1..] by {
        assert s == [s[0]] + s[1..];
      }
    }
  }

  /** `seg` is the text after the last `c` in `s`, or all of `s` when `c`
      does not occur. */
  ghost predicate IsFinalSegment(s: string, seg: string, c: char) {
    && |seg| <= |s|
    && seg == s[|s| - |seg|..]
    && c !in seg
    && (|seg| == |s| || s[|s| - |seg| - 1] == c)
  }

  /** A final segment that is not all of the text is at least as long as any other. */
  lemma FinalSegmentLongest(s: string, a: string, b: string, c: char)
    requires IsFinalSegment(s, a, c) && IsFinalSegment(s, b, c) && |a| < |s|
    ensures |b| <= |a|
  {
    assert s[|s| - |a| - 1] == c;
    assert forall j :: |s| - |b| <= j < |s| ==> s[j] == b[j - (|s| - |b|)];
  }

  /** A text has only one final segment. */
  lemma FinalSegmentUnique(s: string, a: string, b: string, c: char)
    requires IsFinalSegment(s, a, c) && IsFinalSegment(s, b, c)
    ensures a == b
  {
    if |a| < |s| { FinalSegmentLongest(s, a, b, c); }
    if |b| < |s| { FinalSegmentLongest(s, b, a, c); }
  }

  /** A final segment of the tail is one of the whole text, unless it is
      the whole tail and the text does not start with the separator. */
  lemma FinalSegmentOfTail(s: string, seg: string, c: char)
    requires s != []
    requires IsFinalSegment(s[1..], seg, c)
    requires |seg| < |s| - 1 || s[0] == c
    ensures IsFinalSegment(s, seg, c)
  {
    assert s[1..][|s| - 1 - |seg|..] == s[|s| - |seg|..];
    if |seg| < |s| - 1 {
      assert s[1..][|s| - 1 - |seg| - 1] == s[|s| - |seg| - 1];
    }
  }

  /** One step of `Split` on a single character. */
  lemma SplitStep(s: string, c: char)
    requires s != []
    ensures s[0] == c ==> Split(s, [c]) == [""] + Split(s[1..], [c])
    ensures s[0] != c ==>
      var rest := Split(s[1..], [c]);
      Split(s, [c]) == [[s[0]] + rest[0]] + rest[1..]
  {
    assert s[..1] == [s[0]];
  }

  /** The final piece of a text that starts with the separator is that of its tail. */
  lemma LastPieceAfterSeparator(s: string, c: char)
    requires s != [] && s[0] == c
    requires IsFinalSegment(s[1..], Last(Split(s[1..], [c])), c)
    ensures IsFinalSegment(s, Last(Split(s, [c])), c)
  {
    var rest := Split(s[1..], [c]);
    SplitStep(s, c);
    assert Last(Split(s, [c])) == Last(rest);
    FinalSegmentOfTail(s, Last(rest), c);
  }

  /** The final piece of a text that starts with another character is that
      of its tail, or the whole text when the separator does not occur. */
  lemma LastPieceAfterOther(s: string, c: char)
    requires s != [] && s[0] != c
    requires IsFinalSegment(s[1..], Last(Split(s[1..], [c])), c)
    ensures IsFinalSegment(s, Last(Split(s, [c])), c)
  {
    var s1 := s[1..];
    var rest := Split(s1, [c]);
    SplitStep(s, c);
    SplitSingleIffAbsent(s1, c);
    if |rest| == 1 {
      assert rest[0] == s1;
      assert Last(Split(s, [c])) == s by {
        assert s == [s[0]] + s1;
      }
    } else {
      assert Last(Split(s, [c])) == Last(rest);
      assert Last(rest) != s1;
      FinalSegmentOfTail(s, Last(rest), c);
    }
  }

  /** `s.split(c)[-1]` is the final segment of `s`. */
  lemma {:induction false} LastPieceIsFinalSegment(s: string, c: char)
    ensures IsFinalSegment(s, Last(Split(s, [c])), c)
    decreases |s|
  {
    if |s| >= 1 {
      LastPieceIsFinalSegment(s[1..], c);
      if s[0] == c {
        LastPieceAfterSeparator(s, c);
      } else {
        LastPieceAfterOther(s, c);
      }
    }
  }

  /** ASCII lower-casing of one character. */
  function LowerChar(ch: char): char {
    if 'A' <= ch <= 'Z' then (ch as int + 32) as char else ch
  }

  /** `s.lower()`, restricted to ASCII letters. */
  function Lower(s: string): (r: string)
    ensures |r| == |s|
  {
    seq(|s|, i requires 0 <= i < |s| => LowerChar(s[i]))
  }

  /** Case-insensitive (ASCII) comparison of two texts. */
  predicate EqualsIgnoringCase(a: string, b: string) {
    Lower(a) == Lower(b)
  }

  predicate IsDigit(ch: char) {
    '0' <= ch <= '9'
  }

  predicate AllDigits(s: string) {
    forall i :: 0 <= i < |s| ==> IsDigit(s[i])
  }

  function DigitChar(d: nat): (ch: char)
    requires d < 10
    ensures IsDigit(ch)
  {
    ('0' as int + d) as char
  }

  /** `str(n)` for a natural number: its decimal digits, no leading zero. */
  function NatToDecimal(n: nat): (s: string)
    ensures |s| >= 1 && AllDigits(s)
    ensures n >= 10 ==> |s| >= 2
    decreases n
  {
    if n < 10 then [DigitChar(n)] else NatToDecimal(n / 10) + [DigitChar(n % 10)]
  }

  /** The number a string of decimal digits denotes. */
  function DecimalValue(s: string): nat
    requires AllDigits(s)
    decreases |s|
  {
    if s == [] then 0
    else DecimalValue(s[..|s| - 1]) * 10 + (s[|s| - 1] as int - '0' as int)
  }

  /** `str(n)` reads back as `n`. */
  lemma {:induction false} DecimalRoundTrip(n: nat)
    ensures DecimalValue(NatToDecimal(n)) == n
    decreases n
  {
    if n >= 10 {
      DecimalRoundTrip(n / 10);
      var s := NatToDecimal(n);
      assert s[..|s| - 1] == NatToDecimal(n / 10);
    }
  }

  /** `str(n)` for any integer: a minus sign before the digits of a negative number. */
  function IntToDecimal(n: int): (s: string)
    ensures |s| >= 1
  {
    if n < 0 then "-" + NatToDecimal(-n) else NatToDecimal(n)
  }
}

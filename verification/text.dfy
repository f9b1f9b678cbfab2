/** String helpers the screens rely on: ASCII character classes, decimal numbers
    (`String(n)`, `padStart(2, "0")`, `Number(s)`), `split('-')`, UTF-16 length, the
    filename sanitiser and `slice(0, n)`. Strings are sequences of Unicode scalar values;
    where JavaScript counts UTF-16 code units instead, that is made explicit. */
module Text {
  import opened Options

  predicate IsAsciiDigit(c: char) { '0' <= c <= '9' }

  predicate IsAsciiLower(c: char) { 'a' <= c <= 'z' }

  predicate IsAsciiUpper(c: char) { 'A' <= c <= 'Z' }

  /** The class `[a-zA-Z0-9]`. */
  predicate IsAsciiAlnum(c: char) { IsAsciiLower(c) || IsAsciiUpper(c) || IsAsciiDigit(c) }

  predicate AllDigits(s: string) { forall i :: 0 <= i < |s| ==> IsAsciiDigit(s[i]) }

  function DigitValue(c: char): (d: nat)
    requires IsAsciiDigit(c)
    ensures d < 10
  {
    (c as int - '0' as int) as nat
  }

  function DigitChar(d: nat): (c: char)
    requires d < 10
    ensures IsAsciiDigit(c) && DigitValue(c) == d
  {
    (d + '0' as int) as char
  }

  /** The value of a decimal numeral, most significant digit first. */
  function DecimalValue(s: string): nat
    requires AllDigits(s)
  {
    if |s| == 0 then 0 else DecimalValue(s[..|s| - 1]) * 10 + DigitValue(s[|s| - 1])
  }

  /** The characters `Number(s)` skips around a numeral: tab, vertical tab, form feed,
      the byte-order mark, every space separator, and the line terminators. */
  predicate IsJsWhitespace(c: char)
  {
    c == '\t' || c == '\n' || c == '\U{000B}' || c == '\U{000C}' || c == '\r' || c == ' '
    || c == '\U{00A0}' || c == '\U{1680}' || ('\U{2000}' <= c <= '\U{200A}')
    || c == '\U{2028}' || c == '\U{2029}' || c == '\U{202F}' || c == '\U{205F}'
    || c == '\U{3000}' || c == '\U{FEFF}'
  }

  predicate AllWhitespace(s: string) { forall i :: 0 <= i < |s| ==> IsJsWhitespace(s[i]) }

  lemma DigitIsNotWhitespace(c: char)
    requires IsAsciiDigit(c)
    ensures !IsJsWhitespace(c)
  {
  }

  /** How many white-space characters `s` starts with. */
  function LeadingWhitespace(s: string): (n: nat)
    ensures n <= |s|
    decreases |s|
  {
    if |s| > 0 && IsJsWhitespace(s[0]) then 1 + LeadingWhitespace(s[1..]) else 0
  }

  /** How many white-space characters `s` ends with. */
  function TrailingWhitespace(s: string): (n: nat)
    ensures n <= |s|
    decreases |s|
  {
    if |s| > 0 && IsJsWhitespace(s[|s| - 1]) then 1 + TrailingWhitespace(s[..|s| - 1]) else 0
  }

  /** `s.trim()` with JavaScript's white space: the text between the leading and the
      trailing run of white space. */
  function Trim(s: string): string
  {
    var rest := s[LeadingWhitespace(s)..];
    rest[..|rest| - TrailingWhitespace(rest)]
  }

  /** Trimming drops exactly the white space around the text. */
  lemma {:induction false} TrimSkips(w1: string, t: string, w2: string)
    requires AllWhitespace(w1) && AllWhitespace(w2)
    requires |t| > 0 && !IsJsWhitespace(t[0]) && !IsJsWhitespace(t[|t| - 1])
    ensures Trim(w1 + t + w2) == t
  {
    var s := w1 + t + w2;
    assert s == w1 + (t + w2);
    LeadingSkips(w1, t + w2);
    assert s[|w1|..] == t + w2;
    TrailingSkips(t, w2);
  }

  lemma {:induction false} LeadingSkips(w: string, u: string)
    requires AllWhitespace(w)
    requires |u| > 0 && !IsJsWhitespace(u[0])
    ensures LeadingWhitespace(w + u) == |w|
    decreases |w|
  {
    if |w| == 0 {
      assert w + u == u;
    } else {
      assert (w + u)[1..] == w[1..] + u;
      LeadingSkips(w[1..], u);
    }
  }

  lemma {:induction false} TrailingSkips(u: string, w: string)
    requires AllWhitespace(w)
    requires |u| > 0 && !IsJsWhitespace(u[|u| - 1])
    ensures TrailingWhitespace(u + w) == |w|
    decreases |w|
  {
    if |w| == 0 {
      assert u + w == u;
    } else {
      assert (u + w)[..|u + w| - 1] == u + w[..|w| - 1];
      TrailingSkips(u, w[..|w| - 1]);
    }
  }

  /** Text that is all white space trims to nothing. */
  lemma {:induction false} BlankTrimsToEmpty(w: string)
    requires AllWhitespace(w)
    ensures Trim(w) == ""
    decreases |w|
  {
    BlankIsLeading(w);
  }

  lemma {:induction false} BlankIsLeading(w: string)
    requires AllWhitespace(w)
    ensures LeadingWhitespace(w) == |w|
    decreases |w|
  {
    if |w| > 0 {
      BlankIsLeading(w[1..]);
    }
  }

  /** What `Number(s)` reads as a whole number: once the white space around it is
      dropped, nothing at all (read as 0) or ASCII digits, possibly after one `+`. */
  predicate IsWholeNumeral(s: string)
  {
    var t := Trim(s);
    AllDigits(t) || (|t| >= 2 && t[0] == '+' && AllDigits(t[1..]))
  }

  /** `Number(s)` for a field of a date string: a whole numeral has its decimal value;
      anything else is `NaN`, written `None`. Digits alone need no trimming. */
  function ParseNatural(s: string): (r: Option<nat>)
    ensures AllDigits(s) ==> r == Some(DecimalValue(s))
  {
    if AllDigits(s) then Some(DecimalValue(s))
    else
      var t := Trim(s);
      if AllDigits(t) then Some(DecimalValue(t))
      else if |t| >= 2 && t[0] == '+' && AllDigits(t[1..]) then Some(DecimalValue(t[1..]))
      else None
  }

  /** `Number` gives a whole number exactly for the whole numerals. */
  lemma ParseNaturalAccepts(s: string)
    ensures ParseNatural(s).Some? <==> IsWholeNumeral(s)
  {
    if AllDigits(s) && |s| > 0 {
      DigitIsNotWhitespace(s[0]);
      DigitIsNotWhitespace(s[|s| - 1]);
      TrimSkips("", s, "");
      assert "" + s + "" == s;
    }
  }

  /** Blank text reads as 0, and white space around digits does not change their value. */
  lemma ParseNaturalIgnoresWhitespace(w1: string, digits: string, w2: string)
    requires AllWhitespace(w1) && AllWhitespace(w2)
    requires AllDigits(digits)
    ensures ParseNatural(w1 + digits + w2) == Some(DecimalValue(digits))
  {
    var s := w1 + digits + w2;
    if |w1| == 0 && |w2| == 0 {
      assert s == digits;
    } else {
      assert !AllDigits(s) by {
        if |w1| > 0 {
          assert s[0] == w1[0];
        } else {
          assert s[|s| - 1] == w2[|w2| - 1];
        }
      }
      if |digits| == 0 {
        assert AllWhitespace(s);
        BlankTrimsToEmpty(s);
      } else {
        DigitIsNotWhitespace(digits[0]);
        DigitIsNotWhitespace(digits[|digits| - 1]);
        TrimSkips(w1, digits, w2);
      }
    }
  }

  /** `String(n)` for a natural number: its decimal numeral without leading zeros. */
  function DecimalString(n: nat): (s: string)
    ensures |s| > 0 && AllDigits(s)
    ensures n < 10 <==> |s| == 1
    ensures 10 <= n < 100 ==> |s| == 2
    ensures 100 <= n < 1000 ==> |s| == 3
    ensures 1000 <= n < 10000 ==> |s| == 4
  {
    if n < 10 then [DigitChar(n)] else DecimalString(n / 10) + [DigitChar(n % 10)]
  }

  /** Reading back what `DecimalString` wrote gives the number. */
  lemma {:induction false} DecimalRoundTrip(n: nat)
    ensures DecimalValue(DecimalString(n)) == n
  {
    if n >= 10 {
      DecimalRoundTrip(n / 10);
      var s := DecimalString(n);
      assert s[..|s| - 1] == DecimalString(n / 10);
    }
  }

  /** `String(n).padStart(2, "0")`. */
  function PadTwo(n: nat): (s: string)
    ensures |s| > 0 && AllDigits(s)
    ensures n < 100 ==> |s| == 2
    ensures n < 100 ==> DecimalValue(s) == n
  {
    if n < 10 then
      assert DecimalValue("0") == 0;
      ['0', DigitChar(n)]
    else
      DecimalRoundTrip(n);
      DecimalString(n)
  }

  /** `s.split(sep)` with a one-character separator: never empty; an empty string
      gives `[""]`, and adjacent separators give empty parts. */
  function Split(s: string, sep: char): (parts: seq<string>)
    ensures |parts| >= 1
    ensures forall i, j :: 0 <= i < |parts| && 0 <= j < |parts[i]| ==> parts[i][j] != sep
    decreases |s|
  {
    if |s| == 0 then [""]
    else
      var rest := Split(s[1..], sep);
      if s[0] == sep then [""] + rest
      else [[s[0]] + rest[0]] + rest[1..]
  }

  /** `parts.join(sep)`. */
  function Join(parts: seq<string>, sep: char): string
    requires |parts| >= 1
    decreases |parts|
  {
    if |parts| == 1 then parts[0] else parts[0] + [sep] + Join(parts[1..], sep)
  }

  /** Splitting loses nothing: joining the parts with the separator rebuilds the string. */
  lemma {:induction false} SplitJoin(s: string, sep: char)
    ensures Join(Split(s, sep), sep) == s
    decreases |s|
  {
    if |s| > 0 {
      SplitJoin(s[1..], sep);
      var rest := Split(s[1..], sep);
      if s[0] == sep {
        assert Split(s, sep)[1..] == rest;
      } else {
        var parts := Split(s, sep);
        if |rest| == 1 {
          assert parts == [[s[0]] + rest[0]];
        } else {
          assert parts[1..] == rest[1..];
          assert Join(rest, sep) == rest[0] + [sep] + Join(rest[1..], sep);
        }
      }
    }
  }

  /** `Split` on a string that starts with a known character. */
  lemma SplitCons(c: char, s: string, sep: char)
    ensures Split([c] + s, sep) ==
            if c == sep then [""] + Split(s, sep) else [[c] + Split(s, sep)[0]] + Split(s, sep)[1..]
  {
    assert ([c] + s)[0] == c && ([c] + s)[1..] == s;
  }

  /** `Join` of parts whose first part starts with a known character. */
  lemma JoinCons(c: char, parts: seq<string>, sep: char)
    requires |parts| >= 1
    ensures Join([[c] + parts[0]] + parts[1..], sep) == [c] + Join(parts, sep)
  {
    var ps := [[c] + parts[0]] + parts[1..];
    assert ps[0] == [c] + parts[0] && ps[1..] == parts[1..];
  }

  /** Dropping the first character of the first part keeps the parts separator-free. */
  lemma DropFirstCharSepFree(parts: seq<string>, sep: char)
    requires |parts| >= 1 && |parts[0]| > 0
    requires forall i, j :: 0 <= i < |parts| && 0 <= j < |parts[i]| ==> parts[i][j] != sep
    ensures var tail := [parts[0][1..]] + parts[1..];
            forall i, j :: 0 <= i < |tail| && 0 <= j < |tail[i]| ==> tail[i][j] != sep
  {
    var tail := [parts[0][1..]] + parts[1..];
    forall i, j | 0 <= i < |tail| && 0 <= j < |tail[i]|
      ensures tail[i][j] != sep
    {
      if i == 0 { assert tail[0][j] == parts[0][j + 1]; } else { assert tail[i] == parts[i]; }
    }
  }

  /** Splitting a string that joins separator-free parts gives back those parts. */
  lemma {:induction false} JoinSplit(parts: seq<string>, sep: char)
    requires |parts| >= 1
    requires forall i, j :: 0 <= i < |parts| && 0 <= j < |parts[i]| ==> parts[i][j] != sep
    ensures Split(Join(parts, sep), sep) == parts
    decreases |parts|, |parts[0]|
  {
    if |parts[0]| > 0 {
      var c := parts[0][0];
      var tail := [parts[0][1..]] + parts[1..];
      DropFirstCharSepFree(parts, sep);
      JoinSplit(tail, sep);
      assert tail[0] == parts[0][1..] && tail[1..] == parts[1..];
      assert [c] + parts[0][1..] == parts[0];
      assert [[c] + tail[0]] + tail[1..] == parts;
      JoinCons(c, tail, sep);
      assert c == parts[0][0];
      SplitCons(c, Join(tail, sep), sep);
    } else if |parts| > 1 {
      JoinSplit(parts[1..], sep);
      assert Join(parts, sep) == [sep] + Join(parts[1..], sep);
      SplitCons(sep, Join(parts[1..], sep), sep);
      assert [""] + parts[1..] == parts;
    }
  }

  /** UTF-16 code units of one character: two for a character outside the Basic
      Multilingual Plane (a surrogate pair), one otherwise. */
  function Utf16Units(c: char): nat
  {
    if c as int >= 0x1_0000 then 2 else 1
  }

  /** JavaScript's `s.length`, which counts UTF-16 code units. */
  function Utf16Length(s: string): (n: nat)
    ensures n >= |s|
    ensures n <= 2 * |s|
  {
    if |s| == 0 then 0 else Utf16Length(s[..|s| - 1]) + Utf16Units(s[|s| - 1])
  }

  /** `s.replace(/[^a-zA-Z0-9]/g, '_')`. The regular expression has no `u` flag, so it
      works on UTF-16 code units: a character outside the Basic Multilingual Plane is two
      code units and becomes two underscores. */
  function SanitizeFilename(s: string): (r: string)
    ensures forall i :: 0 <= i < |r| ==> IsAsciiAlnum(r[i]) || r[i] == '_'
    ensures |r| == Utf16Length(s)
    ensures Utf16Length(s) == |s| ==> forall i :: 0 <= i < |s| ==>
              r[i] == if IsAsciiAlnum(s[i]) then s[i] else '_'
    decreases |s|
  {
    if |s| == 0 then ""
    else
      var c := s[|s| - 1];
      var init := s[..|s| - 1];
      var tail := if IsAsciiAlnum(c) then [c] else if Utf16Units(c) == 2 then "__" else "_";
      assert Utf16Length(s) == |s| ==> Utf16Length(init) == |init| && Utf16Units(c) == 1;
      SanitizeFilename(init) + tail
  }

  /** Sanitising is idempotent: a sanitised name is left as it is. */
  lemma {:induction false} SanitizeIdempotent(s: string)
    ensures SanitizeFilename(SanitizeFilename(s)) == SanitizeFilename(s)
  {
    var r := SanitizeFilename(s);
    SanitizeKeepsSafe(r);
  }

  /** A name made only of `[a-zA-Z0-9_]` is its own sanitised form. */
  lemma {:induction false} SanitizeKeepsSafe(s: string)
    requires forall i :: 0 <= i < |s| ==> IsAsciiAlnum(s[i]) || s[i] == '_'
    ensures SanitizeFilename(s) == s
    decreases |s|
  {
    if |s| > 0 {
      SanitizeKeepsSafe(s[..|s| - 1]);
      assert s[..|s| - 1] + [s[|s| - 1]] == s;
    }
  }

  /** One character in front of a string adds its units to the length. */
  lemma {:induction false} Utf16LengthCons(c: char, t: string)
    ensures Utf16Length([c] + t) == Utf16Units(c) + Utf16Length(t)
    decreases |t|
  {
    if |t| == 0 {
      assert ([c] + t)[..0] == [];
    } else {
      var u := [c] + t;
      assert u[..|u| - 1] == [c] + t[..|t| - 1];
      Utf16LengthCons(c, t[..|t| - 1]);
    }
  }

  /** Text of Basic Multilingual Plane characters is as long in UTF-16 units as in characters. */
  lemma {:induction false} Utf16LengthOfBmp(s: string)
    requires forall i :: 0 <= i < |s| ==> Utf16Units(s[i]) == 1
    ensures Utf16Length(s) == |s|
    decreases |s|
  {
    if |s| > 0 {
      Utf16LengthOfBmp(s[..|s| - 1]);
    }
  }

  /** How many characters of `s` fit, from the front, in `n` UTF-16 code units. */
  function FittingLength(s: string, n: nat): (k: nat)
    ensures k <= |s|
    decreases |s|
  {
    if |s| == 0 || Utf16Units(s[0]) > n then 0
    else 1 + FittingLength(s[1..], n - Utf16Units(s[0]))
  }

  /** `s.slice(0, n)` for `n >= 0`, which counts UTF-16 code units. Where the cut falls
      inside a surrogate pair, JavaScript keeps a lone high surrogate, which a string of
      scalar values cannot hold; the prefix here ends before that character. */
  function Prefix(s: string, n: nat): (r: string)
    ensures r <= s
  {
    s[..FittingLength(s, n)]
  }

  /** One step of the cut: the first character is kept when it fits. */
  lemma PrefixStep(s: string, n: nat)
    requires |s| > 0 && Utf16Units(s[0]) <= n
    ensures Prefix(s, n) == [s[0]] + Prefix(s[1..], n - Utf16Units(s[0]))
  {
    var k := FittingLength(s[1..], n - Utf16Units(s[0]));
    assert s[..1 + k] == [s[0]] + s[1..][..k];
  }

  /** The cut is the longest prefix of `s` that fits in `n` units: it fits, and the next
      character would not. */
  lemma {:induction false} PrefixIsLongestFit(s: string, n: nat)
    ensures Utf16Length(Prefix(s, n)) <= n
    ensures |Prefix(s, n)| < |s| ==> Utf16Length(Prefix(s, n)) + Utf16Units(s[|Prefix(s, n)|]) > n
    decreases |s|
  {
    if |s| == 0 || Utf16Units(s[0]) > n {
      assert Prefix(s, n) == [];
    } else {
      var u := Utf16Units(s[0]);
      var tail := Prefix(s[1..], n - u);
      PrefixIsLongestFit(s[1..], n - u);
      PrefixStep(s, n);
      Utf16LengthCons(s[0], tail);
      if |Prefix(s, n)| < |s| {
        assert s[|Prefix(s, n)|] == s[1..][|tail|];
      }
    }
  }

  /** A string that fits in `n` units is kept whole. */
  lemma {:induction false} PrefixOfShort(s: string, n: nat)
    requires Utf16Length(s) <= n
    ensures Prefix(s, n) == s
    decreases |s|
  {
    if |s| > 0 {
      var u := Utf16Units(s[0]);
      assert s == [s[0]] + s[1..];
      Utf16LengthCons(s[0], s[1..]);
      PrefixOfShort(s[1..], n - u);
      PrefixStep(s, n);
    }
  }

  /** On Basic Multilingual Plane text, units are characters: the cut keeps `n` of them. */
  lemma {:induction false} PrefixOfBmp(s: string, n: nat)
    requires forall i :: 0 <= i < |s| ==> Utf16Units(s[i]) == 1
    ensures |Prefix(s, n)| == if |s| < n then |s| else n
    decreases |s|
  {
    if |s| > 0 && n > 0 {
      var rest := s[1..];
      assert forall i :: 0 <= i < |rest| ==> Utf16Units(rest[i]) == 1 by {
        forall i | 0 <= i < |rest| ensures Utf16Units(rest[i]) == 1 {
          assert rest[i] == s[i + 1];
        }
      }
      PrefixOfBmp(rest, n - 1);
      PrefixStep(s, n);
    }
  }

  /** A cut at exactly the length of a leading part keeps that part. */
  lemma {:induction false} PrefixOfAppend(a: string, b: string, n: nat)
    requires Utf16Length(a) == n
    ensures Prefix(a + b, n) == a
    decreases |a|
  {
    var s := a + b;
    if |a| == 0 {
      assert s == b;
      assert Prefix(s, 0) == [] by {
        if |s| > 0 {
          assert Utf16Units(s[0]) > 0;
        }
      }
    } else {
      var u := Utf16Units(a[0]);
      assert a == [a[0]] + a[1..];
      Utf16LengthCons(a[0], a[1..]);
      assert s[0] == a[0] && s[1..] == a[1..] + b;
      PrefixOfAppend(a[1..], b, n - u);
      PrefixStep(s, n);
    }
  }

  /** Cutting twice to the same length is cutting once. */
  lemma PrefixIdempotent(s: string, n: nat)
    ensures Prefix(Prefix(s, n), n) == Prefix(s, n)
  {
    PrefixIsLongestFit(s, n);
    PrefixOfShort(Prefix(s, n), n);
  }
}

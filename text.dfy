/** String helpers the script takes from the JavaScript runtime: `trim`,
    `toLowerCase`, `includes`, number-to-string conversion and `parseInt`. */
module Text {
  import opened Wrappers

  /** The characters `String.prototype.trim` and `parseInt` skip: the
      ECMAScript WhiteSpace and LineTerminator code points. */
  predicate IsWhitespace(c: char) {
    || c == '\t' || c == '\n' || c == '\U{000B}' || c == '\U{000C}' || c == '\r'
    || c == ' ' || c == '\U{00A0}' || c == '\U{1680}'
    || ('\U{2000}' <= c <= '\U{200A}')
    || c == '\U{2028}' || c == '\U{2029}' || c == '\U{202F}' || c == '\U{205F}'
    || c == '\U{3000}' || c == '\U{FEFF}'
  }

  /** `s.trimStart()`: drops the leading whitespace and nothing else. */
  function TrimStart(s: string): (r: string)
    ensures |r| <= |s| && r == s[|s| - |r|..]
    ensures forall k :: 0 <= k < |s| - |r| ==> IsWhitespace(s[k])
    ensures r == [] || !IsWhitespace(r[0])
  {
    if s != [] && IsWhitespace(s[0]) then TrimStart(s[1..]) else s
  }

  /** `s.trimEnd()`: drops the trailing whitespace and nothing else. */
  function TrimEnd(s: string): (r: string)
    ensures |r| <= |s| && r == s[..|r|]
    ensures forall k :: |r| <= k < |s| ==> IsWhitespace(s[k])
    ensures r == [] || !IsWhitespace(r[|r| - 1])
  {
    if s != [] && IsWhitespace(s[|s| - 1]) then TrimEnd(s[..|s| - 1]) else s
  }

  /** `r` is the slice of `s` starting at `i`, and what lies around it in `s`
      is whitespace. */
  ghost predicate IsTrimmedAt(s: string, r: string, i: int) {
    && 0 <= i <= |s| - |r| && r == s[i..i + |r|]
    && (forall k :: 0 <= k < i ==> IsWhitespace(s[k]))
    && (forall k :: i + |r| <= k < |s| ==> IsWhitespace(s[k]))
  }

  /** `s.trim()`: the longest slice of `s` that neither starts nor ends with
      whitespace, found by cutting whitespace off both ends. */
  function Trim(s: string): (r: string)
    ensures |r| <= |s|
    ensures exists i :: IsTrimmedAt(s, r, i)
    ensures r == [] || (!IsWhitespace(r[0]) && !IsWhitespace(r[|r| - 1]))
    ensures r == [] <==> forall k :: 0 <= k < |s| ==> IsWhitespace(s[k])
  {
    var t := TrimStart(s);
    var r := TrimEnd(t);
    var i := |s| - |t|;
    assert IsTrimmedAt(s, r, i) by {
      assert r == s[i..i + |r|];
      assert forall k :: i + |r| <= k < |s| ==> s[k] == t[k - i];
    }
    assert r != [] ==> r[0] == s[i];
    r
  }

  /** A text that neither starts nor ends with white space is its own trim. */
  lemma TrimOfUntrimmed(s: string)
    requires s != [] && !IsWhitespace(s[0]) && !IsWhitespace(s[|s| - 1])
    ensures Trim(s) == s
  {
    var t := Trim(s);
    var i :| IsTrimmedAt(s, t, i);
    assert i == 0;
    assert i + |t| == |s|;
  }

  /** Lower-casing of one character; only the ASCII letters are mapped. */
  function LowerChar(c: char): char {
    if 'A' <= c <= 'Z' then (c as int + 32) as char else c
  }

  /** Upper-casing of one character; only the ASCII letters are mapped. */
  function UpperChar(c: char): char {
    if 'a' <= c <= 'z' then (c as int - 32) as char else c
  }

  /** `s.toLowerCase()` restricted to ASCII letters. */
  function ToLower(s: string): (r: string)
    ensures |r| == |s|
    ensures forall k :: 0 <= k < |r| ==> !('A' <= r[k] <= 'Z')
    ensures forall k :: 0 <= k < |r| ==> LowerChar(r[k]) == LowerChar(s[k])
  {
    seq(|s|, k requires 0 <= k < |s| => LowerChar(s[k]))
  }

  /** `s.toUpperCase()` restricted to ASCII letters. */
  function ToUpper(s: string): (r: string)
    ensures |r| == |s|
    ensures forall k :: 0 <= k < |r| ==> !('a' <= r[k] <= 'z')
    ensures forall k :: 0 <= k < |r| ==> r[k] == UpperChar(s[k])
  {
    seq(|s|, k requires 0 <= k < |s| => UpperChar(s[k]))
  }

  /** Lower-casing distributes over concatenation. */
  lemma LowerAppend(a: string, b: string)
    ensures ToLower(a + b) == ToLower(a) + ToLower(b)
  {
    assert forall k :: 0 <= k < |a + b| ==> (a + b)[k] == if k < |a| then a[k] else b[k - |a|];
  }

  /** Lower-casing a text without upper-case letters changes nothing. */
  lemma LowerOfLowerCase(s: string)
    requires forall c | c in s :: !('A' <= c <= 'Z')
    ensures ToLower(s) == s
  {
    forall k | 0 <= k < |s| ensures ToLower(s)[k] == s[k] {
      assert s[k] in s;
    }
  }

  /** A lower-case letter is missing from a lower-cased text when neither of
      its cases occurs in the text. */
  lemma LowerAvoids(s: string, c: char)
    requires 'a' <= c <= 'z' && c !in s && UpperChar(c) !in s
    ensures c !in ToLower(s)
  {
    forall k | 0 <= k < |s| ensures ToLower(s)[k] != c {
      assert s[k] in s;
    }
  }

  /** Lower-casing forgets every difference of case: a string and its
      upper-cased form lower-case to the same string. */
  lemma LowerOfUpper(s: string)
    ensures ToLower(ToUpper(s)) == ToLower(s)
  {
    forall k | 0 <= k < |s| ensures ToLower(ToUpper(s))[k] == ToLower(s)[k] {
      assert ToUpper(s)[k] == UpperChar(s[k]);
    }
  }

  /** Upper-casing maps whitespace to whitespace and nothing else to it. */
  lemma UpperKeepsWhitespace(c: char)
    ensures IsWhitespace(UpperChar(c)) == IsWhitespace(c)
  {
  }

  lemma {:induction false} TrimStartUpper(s: string)
    ensures TrimStart(ToUpper(s)) == ToUpper(TrimStart(s))
    decreases |s|
  {
    if s != [] {
      UpperKeepsWhitespace(s[0]);
      assert ToUpper(s)[1..] == ToUpper(s[1..]);
      TrimStartUpper(s[1..]);
    }
  }

  lemma {:induction false} TrimEndUpper(s: string)
    ensures TrimEnd(ToUpper(s)) == ToUpper(TrimEnd(s))
    decreases |s|
  {
    if s != [] {
      UpperKeepsWhitespace(s[|s| - 1]);
      assert ToUpper(s)[..|s| - 1] == ToUpper(s[..|s| - 1]);
      TrimEndUpper(s[..|s| - 1]);
    }
  }

  /** Trimming and upper-casing can be done in either order. */
  lemma TrimUpper(s: string)
    ensures Trim(ToUpper(s)) == ToUpper(Trim(s))
  {
    TrimStartUpper(s);
    TrimEndUpper(TrimStart(s));
  }

  /** `s.includes(q)`: `q` occurs in `s` at some position. */
  predicate Includes(s: string, q: string)
    ensures Includes(s, q) ==> |q| <= |s|
    ensures q <= s ==> Includes(s, q)
    decreases |s|
  {
    if |q| > |s| then false else s[..|q|] == q || Includes(s[1..], q)
  }

  /** `q` occurs in `s` starting at index `i`. */
  predicate OccursAt(s: string, q: string, i: int) {
    0 <= i <= |s| - |q| && s[i..i + |q|] == q
  }

  /** `Includes` holds exactly when `q` occurs in `s` at some index. */
  lemma {:induction false} IncludesIffOccurs(s: string, q: string)
    ensures Includes(s, q) <==> exists i :: OccursAt(s, q, i)
    decreases |s|
  {
    if |q| > |s| {
    } else if s[..|q|] == q {
      assert OccursAt(s, q, 0);
    } else {
      IncludesIffOccurs(s[1..], q);
      if Includes(s[1..], q) {
        var i :| OccursAt(s[1..], q, i);
        assert OccursAt(s, q, i + 1);
      }
      if exists i :: OccursAt(s, q, i) {
        var i :| OccursAt(s, q, i);
        assert i != 0;
        assert OccursAt(s[1..], q, i - 1);
      }
    }
  }

  /** `q` cannot occur in `a + b` when its first character is missing from
      `a` and its second from `b`. */
  lemma NotIncludesSplit(a: string, b: string, q: string)
    requires |q| >= 2 && q[0] !in a && q[1] !in b
    ensures !Includes(a + b, q)
  {
    var s := a + b;
    IncludesIffOccurs(s, q);
    forall i ensures !OccursAt(s, q, i) {
      if !(0 <= i <= |s| - |q|) {
      } else if i < |a| {
        assert s[i] == a[i] && a[i] in a;
        assert s[i..i + |q|][0] != q[0];
      } else {
        assert s[i + 1] == b[i + 1 - |a|] && b[i + 1 - |a|] in b;
        assert s[i..i + |q|][1] != q[1];
      }
    }
  }

  /** The empty string occurs in every string. */
  lemma IncludesEmpty(s: string)
    ensures Includes(s, "")
  {
    assert s[..0] == "";
  }

  predicate IsDigit(c: char) {
    '0' <= c <= '9'
  }

  function DigitChar(d: int): (c: char)
    requires 0 <= d < 10
    ensures IsDigit(c)
  {
    ('0' as int + d) as char
  }

  function DigitValue(c: char): (d: int)
    requires IsDigit(c)
    ensures 0 <= d < 10 && DigitChar(d) == c
  {
    c as int - '0' as int
  }

  /** The decimal digits of `n`, most significant first, with no leading zero. */
  function Digits(n: nat): (r: string)
    ensures |r| >= 1 && (r[0] == '0' ==> n == 0)
    ensures forall k :: 0 <= k < |r| ==> IsDigit(r[k])
  {
    if n < 10 then [DigitChar(n)] else Digits(n / 10) + [DigitChar(n % 10)]
  }

  /** `String(n)` for an integer `n`: a minus sign exactly when `n` is
      negative, then the digits of `|n|` with no leading zero (`0` for zero). */
  function DecimalString(n: int): (r: string)
    ensures |r| >= 1 && (r[0] == '-' || IsDigit(r[0]))
    ensures var k := if n < 0 then 1 else 0;
            && (r[0] == '-' <==> n < 0) && |r| > k
            && (forall j :: k <= j < |r| ==> IsDigit(r[j]))
            && (r[k] == '0' ==> n == 0 && |r| == k + 1)
            && DigitsValue(r[k..]) == if n < 0 then -n else n
  {
    DigitsValueOfDigits(if n < 0 then -n else n);
    if n < 0 then
      assert ("-" + Digits(-n))[1..] == Digits(-n);
      "-" + Digits(-n)
    else
      assert Digits(n)[0..] == Digits(n);
      Digits(n)
  }

  /** The value of a string of decimal digits, most significant first. */
  function DigitsValue(ds: string): (v: nat)
    requires forall k :: 0 <= k < |ds| ==> IsDigit(ds[k])
  {
    if ds == [] then 0 else DigitsValue(ds[..|ds| - 1]) * 10 + DigitValue(ds[|ds| - 1])
  }

  /** The longest prefix of `s` made of decimal digits. */
  function DigitPrefix(s: string): (r: string)
    ensures r <= s
    ensures forall k :: 0 <= k < |r| ==> IsDigit(r[k])
    ensures |r| == |s| || !IsDigit(s[|r|])
  {
    if s != [] && IsDigit(s[0]) then [s[0]] + DigitPrefix(s[1..]) else []
  }

  /** `t` without one leading sign character. */
  function AfterSign(t: string): string {
    if t != [] && (t[0] == '-' || t[0] == '+') then t[1..] else t
  }

  /** `parseInt(s, 10)`: skip leading whitespace, read an optional sign and the
      longest run of digits after it; `None` stands for `NaN` (no digits). */
  function ParseInt(s: string): (r: Option<int>)
  {
    var t := TrimStart(s);
    var negative := t != [] && t[0] == '-';
    // The sign is skipped inline, as in `AfterSign`: calling that function
    // here makes every proof about `parseInt` of digit strings run out of
    // resource. `ParseIntMeaning` states the result in terms of `AfterSign`.
    var body := if t != [] && (t[0] == '-' || t[0] == '+') then t[1..] else t;
    var ds := DigitPrefix(body);
    var v: int := DigitsValue(ds);
    if ds == [] then None else Some(if negative then -v else v)
  }

  /** `parseInt` yields `NaN` exactly when no digit follows the leading
      whitespace and the optional sign; a negative result needs a minus sign
      there, and a string that starts with a digit reads as a number of at
      least zero. */
  lemma ParseIntMeaning(s: string)
    ensures var b := AfterSign(TrimStart(s)); ParseInt(s).None? <==> b == [] || !IsDigit(b[0])
    ensures ParseInt(s).Some? && ParseInt(s).value < 0 ==> TrimStart(s)[0] == '-'
    ensures s != [] && IsDigit(s[0]) ==> ParseInt(s).Some? && ParseInt(s).value >= 0
  {
    var t := TrimStart(s);
    var b := AfterSign(t);
    assert b == if t != [] && (t[0] == '-' || t[0] == '+') then t[1..] else t;
    assert DigitPrefix(b) == [] <==> (b == [] || !IsDigit(b[0]));
    if s != [] && IsDigit(s[0]) {
      DigitIsNotWhitespace(s[0]);
      assert t == s;
    }
  }

  lemma {:induction false} DigitsValueOfDigits(n: nat)
    ensures DigitsValue(Digits(n)) == n
  {
    if n >= 10 {
      DigitsValueOfDigits(n / 10);
      var ds := Digits(n);
      assert ds[..|ds| - 1] == Digits(n / 10);
    }
  }

  lemma {:induction false} DigitPrefixOfDigits(s: string, rest: string)
    requires forall k :: 0 <= k < |s| ==> IsDigit(s[k])
    requires rest == [] || !IsDigit(rest[0])
    ensures DigitPrefix(s + rest) == s
    decreases |s|
  {
    if s != [] {
      assert (s + rest)[1..] == s[1..] + rest;
      DigitPrefixOfDigits(s[1..], rest);
    }
  }

  /** Two digits read back as the number they spell. */
  lemma ParseTwoDigits(a: int, b: int)
    requires 0 <= a < 10 && 0 <= b < 10
    ensures ParseInt([DigitChar(a), DigitChar(b)]) == Some(a * 10 + b)
  {
    TwoDigitsValue(a, b);
    ParseDigits([DigitChar(a), DigitChar(b)]);
  }

  lemma TwoDigitsValue(a: int, b: int)
    requires 0 <= a < 10 && 0 <= b < 10
    ensures DigitsValue([DigitChar(a), DigitChar(b)]) == a * 10 + b
  {
    var ds := [DigitChar(a), DigitChar(b)];
    assert ds[..1] == [DigitChar(a)];
    assert DigitsValue(ds[..1]) == a;
  }

  /** `parseInt` of a non-empty string of digits is the value of those digits. */
  lemma ParseDigits(ds: string)
    requires ds != [] && forall k :: 0 <= k < |ds| ==> IsDigit(ds[k])
    ensures ParseInt(ds) == Some(DigitsValue(ds))
  {
    DigitPrefixOfDigits(ds, []);
    assert ds + [] == ds;
    DigitIsNotWhitespace(ds[0]);
    assert TrimStart(ds) == ds;
    assert !(ds[0] == '-' || ds[0] == '+');
  }

  lemma DigitIsNotWhitespace(c: char)
    requires IsDigit(c) || c == '-'
    ensures !IsWhitespace(c)
  {
  }

  /** The digits of a two-digit number. */
  lemma TwoDigits(n: int)
    requires 10 <= n < 100
    ensures Digits(n) == [DigitChar(n / 10), DigitChar(n % 10)]
  {
  }

  /** Reading back what `DecimalString` wrote gives the number again. */
  lemma ParseDecimalString(n: int)
    ensures ParseInt(DecimalString(n)) == Some(n)
  {
    var ds := Digits(if n < 0 then -n else n);
    DigitsValueOfDigits(if n < 0 then -n else n);
    if n >= 0 {
      ParseDigits(ds);
    } else {
      assert DecimalString(n) == "-" + ds;
      ParseNegative(ds);
    }
  }

  /** `parseInt` of a minus sign followed by digits is the negated value of
      the digits. */
  lemma ParseNegative(ds: string)
    requires ds != [] && forall k :: 0 <= k < |ds| ==> IsDigit(ds[k])
    ensures ParseInt("-" + ds).Some? && ParseInt("-" + ds).value == -(DigitsValue(ds) as int)
  {
    var s := "-" + ds;
    DigitIsNotWhitespace('-');
    assert TrimStart(s) == s;
    assert s[1..] == ds;
    DigitPrefixOfDigits(ds, []);
    assert ds + [] == ds;
  }
}

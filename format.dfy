/** The card-formatting helpers: `pad`, `formatDate`, `timeAgoOrDate` and
    `escapeHtml`. */
module Format {
  import opened Wrappers
  import opened Text
  import opened Calendar

  /** `pad(n)`: `'0' + n` below ten, otherwise `n` itself, as text. */
  function Pad(n: int): (r: string)
    ensures 0 <= n < 100 ==> |r| == 2 && r[0] == DigitChar(n / 10) && r[1] == DigitChar(n % 10)
    ensures n >= 100 ==> r == DecimalString(n)
  {
    if n < 10 then "0" + DecimalString(n)
    else if n < 100 then TwoDigits(n); DecimalString(n)
    else DecimalString(n)
  }

  /** Zero padding does not change the number `parseInt` reads back. */
  lemma PadReadsBack(n: int)
    requires 0 <= n < 100
    ensures ParseInt(Pad(n)) == Some(n)
  {
    assert Pad(n) == [DigitChar(n / 10), DigitChar(n % 10)];
    ParseTwoDigits(n / 10, n % 10);
  }

  /** The month abbreviations of `formatDate`, indexed by `getMonth()`. */
  const MonthNames: seq<string> :=
    ["Jan", "Feb", "Mar", "Apr", "May", "Jun", "Jul", "Aug", "Sep", "Oct", "Nov", "Dec"]

  /** The month whose abbreviation is `name`, if any. */
  function MonthIndex(name: string): (r: Option<int>)
    ensures r.Some? ==> 0 <= r.value < 12 && MonthNames[r.value] == name
  {
    if name == "Jan" then Some(0) else if name == "Feb" then Some(1)
    else if name == "Mar" then Some(2) else if name == "Apr" then Some(3)
    else if name == "May" then Some(4) else if name == "Jun" then Some(5)
    else if name == "Jul" then Some(6) else if name == "Aug" then Some(7)
    else if name == "Sep" then Some(8) else if name == "Oct" then Some(9)
    else if name == "Nov" then Some(10) else if name == "Dec" then Some(11)
    else None
  }

  /** Every month abbreviation is recognised as its own month. */
  lemma MonthIndexOfName(m: int)
    requires 0 <= m < 12
    ensures MonthIndex(MonthNames[m]) == Some(m)
  {
    if m < 6 {
      if m == 0 { assert MonthNames[0] == "Jan"; }
      else if m == 1 { assert MonthNames[1] == "Feb"; }
      else if m == 2 { assert MonthNames[2] == "Mar"; }
      else if m == 3 { assert MonthNames[3] == "Apr"; }
      else if m == 4 { assert MonthNames[4] == "May"; }
      else { assert MonthNames[5] == "Jun"; }
    } else {
      if m == 6 { assert MonthNames[6] == "Jul"; }
      else if m == 7 { assert MonthNames[7] == "Aug"; }
      else if m == 8 { assert MonthNames[8] == "Sep"; }
      else if m == 9 { assert MonthNames[9] == "Oct"; }
      else if m == 10 { assert MonthNames[10] == "Nov"; }
      else { assert MonthNames[11] == "Dec"; }
    }
  }

  /** `formatDate(d)`, e.g. `Nov 06 • 19:00`: month abbreviation, padded day,
      a bullet, padded hour and minute, all in local time. */
  function FormatDate(t: Timestamp, zoneOffset: int): (r: string)
    ensures |r| == 14
    ensures r[..3] == MonthNames[LocalDate(t, zoneOffset).month]
    ensures r[3] == ' ' && r[6..9] == " \U{2022} " && r[11] == ':'
    ensures r[4..6] == Pad(LocalDate(t, zoneOffset).day)
    ensures r[9..11] == Pad(Hours(t, zoneOffset)) && r[12..14] == Pad(Minutes(t, zoneOffset))
  {
    var d := LocalDate(t, zoneOffset);
    var name, dd, hh, mm := MonthNames[d.month], Pad(d.day), Pad(Hours(t, zoneOffset)), Pad(Minutes(t, zoneOffset));
    LayoutFields(name, dd, hh, mm);
    name + " " + dd + " \U{2022} " + hh + ":" + mm
  }

  /** Every field of `formatDate`'s text reads back to the date it shows:
      the month, the day, the hour and the minute. */
  lemma FormatDateReadsBack(t: Timestamp, zoneOffset: int)
    ensures var r := FormatDate(t, zoneOffset);
            var d := LocalDate(t, zoneOffset);
            && MonthIndex(r[..3]) == Some(d.month)
            && ParseInt(r[4..6]) == Some(d.day)
            && ParseInt(r[9..11]) == Some(Hours(t, zoneOffset))
            && ParseInt(r[12..14]) == Some(Minutes(t, zoneOffset))
  {
    var d := LocalDate(t, zoneOffset);
    var h, m := Hours(t, zoneOffset), Minutes(t, zoneOffset);
    var name := MonthNames[d.month];
    var r := FormatDate(t, zoneOffset);
    assert r == name + " " + Pad(d.day) + " \U{2022} " + Pad(h) + ":" + Pad(m);
    LayoutFields(name, Pad(d.day), Pad(h), Pad(m));
    MonthIndexOfName(d.month);
    PadReadsBack(d.day);
    PadReadsBack(h);
    PadReadsBack(m);
  }

  /** Where the four fields sit in `formatDate`'s layout. */
  lemma LayoutFields(name: string, dd: string, hh: string, mm: string)
    requires |name| == 3 && |dd| == 2 && |hh| == 2 && |mm| == 2
    ensures var r := name + " " + dd + " \U{2022} " + hh + ":" + mm;
            && |r| == 14 && r[3] == ' ' && r[6..9] == " \U{2022} " && r[11] == ':'
            && r[..3] == name && r[4..6] == dd && r[9..11] == hh && r[12..14] == mm
  {
  }

  /** `timeAgoOrDate(d)`: `Started` once the match time has passed, otherwise
      the whole hours left followed by `h` below a day, else the whole days
      left followed by `d`. */
  function TimeAgoOrDate(t: Timestamp, now: Timestamp): (r: string)
    ensures r == "Started" <==> t - now < 0
  {
    var diff := t - now;
    if diff < 0 then "Started"
    else
      var hours := diff / HourMs;
      if hours < 24 then CountLabel(hours, 'h')
      else
        var days := hours / 24;
        CountLabel(days, 'd')
  }

  /** A count followed by its unit, as `${n}h` and `${n}d` build it. */
  function CountLabel(n: int, unit: char): (r: string)
    ensures r != "Started" && |r| >= 2 && r[|r| - 1] == unit
    ensures r[..|r| - 1] == DecimalString(n)
  {
    var s := DecimalString(n);
    assert (s + [unit])[0] == s[0];
    s + [unit]
  }

  /** The count `timeAgoOrDate` shows before its unit, read back as a number. */
  function ShownCount(text: string): Option<int> {
    if |text| < 2 then None else ParseInt(text[..|text| - 1])
  }

  /** What `timeAgoOrDate`'s label means: before the start it is `Started`;
      otherwise the count is never negative, an `h` count is the whole hours
      left (under a day) and a `d` count is the whole days left (at least
      one). */
  lemma TimeAgoMeaning(t: Timestamp, now: Timestamp)
    ensures var r := TimeAgoOrDate(t, now);
            var diff := t - now;
            && (diff < 0 ==> r == "Started")
            && (0 <= diff ==>
                  && ShownCount(r).Some?
                  && var n := ShownCount(r).value;
                  && 0 <= n
                  && r[..|r| - 1] == DecimalString(n)
                  && (r[|r| - 1] == 'h' <==> diff < DayMs)
                  && (r[|r| - 1] == 'h' ==> n * HourMs <= diff < (n + 1) * HourMs)
                  && (r[|r| - 1] != 'h' ==> r[|r| - 1] == 'd' && 1 <= n && n * DayMs <= diff < (n + 1) * DayMs))
  {
    var r := TimeAgoOrDate(t, now);
    var diff := t - now;
    if 0 <= diff {
      var hours := diff / HourMs;
      var n := if hours < 24 then hours else hours / 24;
      assert r == CountLabel(n, r[|r| - 1]);
      assert r[..|r| - 1] == DecimalString(n);
      ParseDecimalString(n);
      if hours >= 24 {
        assert n * DayMs == n * 24 * HourMs;
        assert n * 24 <= hours < (n + 1) * 24;
      }
    }
  }

  /** The JavaScript values `escapeHtml` can be handed; numbers are integers. */
  datatype JsValue = Undefined | Null | Bool(b: bool) | Number(n: int) | Str(s: string)

  /** JavaScript's falsy values among them. */
  predicate IsFalsy(v: JsValue) {
    match v
    case Undefined => true
    case Null => true
    case Bool(b) => !b
    case Number(n) => n == 0
    case Str(s) => s == ""
  }

  /** `String(v)`. */
  function ToJsString(v: JsValue): string {
    match v
    case Undefined => "undefined"
    case Null => "null"
    case Bool(b) => if b then "true" else "false"
    case Number(n) => DecimalString(n)
    case Str(s) => s
  }

  /** `s.replaceAll(c, replacement)` for a pattern of one character. */
  function ReplaceAll(s: string, c: char, replacement: string): string {
    if s == [] then [] else (if s[0] == c then replacement else [s[0]]) + ReplaceAll(s[1..], c, replacement)
  }

  /** `escapeHtml(s)`: `''` for a falsy value other than `0`; otherwise
      `String(s)` with `&`, `<`, `>` and `"` replaced, in that order, each
      by a pass of its own. */
  function EscapeHtml(v: JsValue): (r: string)
    ensures IsFalsy(v) && v != Number(0) ==> r == ""
    ensures !(IsFalsy(v) && v != Number(0)) ==> r == EscapeText(ToJsString(v))
  {
    if IsFalsy(v) && v != Number(0) then ""
    else
      var s := ToJsString(v);
      FourPassesEscape(s);
      ReplaceAll(ReplaceAll(ReplaceAll(ReplaceAll(s, '&', "&amp;"), '<', "&lt;"), '>', "&gt;"), '"', "&quot;")
  }

  /** The entity each character becomes, or the character itself. */
  function EscapeChar(c: char): string {
    if c == '&' then "&amp;"
    else if c == '<' then "&lt;"
    else if c == '>' then "&gt;"
    else if c == '"' then "&quot;"
    else [c]
  }

  /** Escaping in a single left-to-right pass. */
  function EscapeText(s: string): string {
    if s == [] then [] else EscapeChar(s[0]) + EscapeText(s[1..])
  }

  /** Decoding of the four entities, left to right: the inverse of escaping. */
  function Unescape(s: string): string
    decreases |s|
  {
    if s == [] then []
    else if "&amp;" <= s then "&" + Unescape(s[5..])
    else if "&lt;" <= s then "<" + Unescape(s[4..])
    else if "&gt;" <= s then ">" + Unescape(s[4..])
    else if "&quot;" <= s then "\"" + Unescape(s[6..])
    else [s[0]] + Unescape(s[1..])
  }

  /** `s` starts with one of the four entities. */
  predicate StartsWithEntity(s: string) {
    "&amp;" <= s || "&lt;" <= s || "&gt;" <= s || "&quot;" <= s
  }

  /** Markup cannot appear in `s`, and every `&` in it starts an entity. */
  predicate IsEscaped(s: string) {
    forall i :: 0 <= i < |s| ==>
      && s[i] != '<' && s[i] != '>' && s[i] != '"'
      && (s[i] == '&' ==> StartsWithEntity(s[i..]))
  }

  lemma {:induction false} ReplaceAllAppend(a: string, b: string, c: char, replacement: string)
    ensures ReplaceAll(a + b, c, replacement) == ReplaceAll(a, c, replacement) + ReplaceAll(b, c, replacement)
    decreases |a|
  {
    if a != [] {
      assert (a + b)[0] == a[0] && (a + b)[1..] == a[1..] + b;
      ReplaceAllAppend(a[1..], b, c, replacement);
    } else {
      assert a + b == b;
    }
  }

  /** After `replaceAll`, `c` is left only where the replacement text
      brings it back. */
  lemma {:induction false} ReplaceAllRemoves(s: string, c: char, replacement: string)
    requires c !in replacement
    ensures c !in ReplaceAll(s, c, replacement)
    decreases |s|
  {
    if s != [] {
      ReplaceAllRemoves(s[1..], c, replacement);
    }
  }

  lemma {:induction false} ReplaceAllAbsent(s: string, c: char, replacement: string)
    requires c !in s
    ensures ReplaceAll(s, c, replacement) == s
    decreases |s|
  {
    if s != [] {
      ReplaceAllAbsent(s[1..], c, replacement);
    }
  }

  /** The four passes of the script, one per character, escape one character
      the way the single pass does. */
  lemma FourPassesOnChar(x: char)
    ensures ReplaceAll(ReplaceAll(ReplaceAll(ReplaceAll([x], '&', "&amp;"), '<', "&lt;"), '>', "&gt;"), '"', "&quot;")
            == EscapeChar(x)
  {
    var s1 := ReplaceAll([x], '&', "&amp;");
    assert [x][1..] == [];
    assert s1 == (if x == '&' then "&amp;" else [x]) + ReplaceAll([], '&', "&amp;");
    var s2 := ReplaceAll(s1, '<', "&lt;");
    if x == '<' {
      assert s2 == "&lt;" + ReplaceAll([], '<', "&lt;");
    } else {
      ReplaceAllAbsent(s1, '<', "&lt;");
    }
    var s3 := ReplaceAll(s2, '>', "&gt;");
    if x == '>' {
      assert s2 == [x];
      assert s3 == "&gt;" + ReplaceAll([], '>', "&gt;");
    } else {
      ReplaceAllAbsent(s2, '>', "&gt;");
    }
    var s4 := ReplaceAll(s3, '"', "&quot;");
    if x == '"' {
      assert s3 == [x];
      assert s4 == "&quot;" + ReplaceAll([], '"', "&quot;");
    } else {
      ReplaceAllAbsent(s3, '"', "&quot;");
    }
  }

  /** Because `&` is replaced first and no entity contains `<`, `>` or `"`,
      the four passes of the script equal the single-pass escape. */
  lemma {:induction false} FourPassesEscape(s: string)
    ensures ReplaceAll(ReplaceAll(ReplaceAll(ReplaceAll(s, '&', "&amp;"), '<', "&lt;"), '>', "&gt;"), '"', "&quot;")
            == EscapeText(s)
    decreases |s|
  {
    if s != [] {
      var x, rest := s[0], s[1..];
      assert s == [x] + rest;
      FourPassesEscape(rest);
      FourPassesOnChar(x);
      ReplaceAllAppend([x], rest, '&', "&amp;");
      var a1, b1 := ReplaceAll([x], '&', "&amp;"), ReplaceAll(rest, '&', "&amp;");
      ReplaceAllAppend(a1, b1, '<', "&lt;");
      var a2, b2 := ReplaceAll(a1, '<', "&lt;"), ReplaceAll(b1, '<', "&lt;");
      ReplaceAllAppend(a2, b2, '>', "&gt;");
      var a3, b3 := ReplaceAll(a2, '>', "&gt;"), ReplaceAll(b2, '>', "&gt;");
      ReplaceAllAppend(a3, b3, '"', "&quot;");
    }
  }

  /** The single-pass escape leaves no markup character and only `&`s that
      start entities. */
  lemma {:induction false} EscapeTextIsEscaped(s: string)
    ensures IsEscaped(EscapeText(s))
    decreases |s|
  {
    if s != [] {
      EscapeTextIsEscaped(s[1..]);
      var e, rest := EscapeChar(s[0]), EscapeText(s[1..]);
      var r := e + rest;
      assert EscapeText(s) == r;
      forall i | 0 <= i < |r|
        ensures r[i] != '<' && r[i] != '>' && r[i] != '"'
        ensures r[i] == '&' ==> StartsWithEntity(r[i..])
      {
        if i < |e| {
          if r[i] == '&' {
            assert i == 0;
            assert e <= r[i..];
          }
        } else {
          assert r[i] == rest[i - |e|];
          assert r[i..] == rest[i - |e|..];
        }
      }
    }
  }

  /** Decoding the four entities recovers the text that was escaped. */
  lemma {:induction false} UnescapeEscapeText(s: string)
    ensures Unescape(EscapeText(s)) == s
    decreases |s|
  {
    if s != [] {
      UnescapeEscapeText(s[1..]);
      var x, rest := s[0], EscapeText(s[1..]);
      var r := EscapeChar(x) + rest;
      assert EscapeText(s) == r;
      if x == '&' {
        assert "&amp;" <= r && r[5..] == rest;
      } else if x == '<' {
        assert r[1] == 'l' && "&lt;" <= r && r[4..] == rest;
        assert !("&amp;" <= r);
      } else if x == '>' {
        assert r[1] == 'g' && "&gt;" <= r && r[4..] == rest;
        assert !("&amp;" <= r) && !("&lt;" <= r);
      } else if x == '"' {
        assert r[1] == 'q' && "&quot;" <= r && r[6..] == rest;
        assert !("&amp;" <= r) && !("&lt;" <= r) && !("&gt;" <= r);
      } else {
        assert r[0] == x && r[1..] == rest;
        assert !("&amp;" <= r) && !("&lt;" <= r) && !("&gt;" <= r) && !("&quot;" <= r);
      }
      assert s == [x] + s[1..];
    }
  }

  /** What `escapeHtml` promises: nothing for a falsy value other than `0`;
      otherwise text free of `<`, `>` and `"` whose every `&` starts an
      entity, and which decodes back to `String(v)`. */
  lemma EscapeHtmlSafe(v: JsValue)
    ensures IsFalsy(v) && v != Number(0) ==> EscapeHtml(v) == ""
    ensures IsEscaped(EscapeHtml(v))
    ensures !(IsFalsy(v) && v != Number(0)) ==> Unescape(EscapeHtml(v)) == ToJsString(v)
  {
    var s := ToJsString(v);
    EscapeTextIsEscaped(s);
    UnescapeEscapeText(s);
  }
}

/**
 * The few Python string operations the ingestion job relies on, written out:
 * str.isspace / str.strip (the "usable text" test), str.lower (the dispatch key),
 * str.join (how extractors glue pages and paragraphs), str(int) (progress messages),
 * and pathlib's PurePath.suffix (the extension a file is dispatched on).
 */
module Text {

  /** str.isspace for one character: the characters CPython classes as whitespace. */
  predicate IsSpace(c: char)
  {
    c == ' ' || ('\t' <= c <= '\r') || ('\U{1c}' <= c <= '\U{1f}')
    || c == '\U{85}' || c == '\U{a0}' || c == '\U{1680}'
    || ('\U{2000}' <= c <= '\U{200a}')
    || c == '\U{2028}' || c == '\U{2029}' || c == '\U{202f}' || c == '\U{205f}' || c == '\U{3000}'
  }

  /** Every character is whitespace (the empty string is blank). */
  predicate IsBlank(s: string)
  {
    forall i :: 0 <= i < |s| ==> IsSpace(s[i])
  }

  /** s with its leading whitespace removed (str.lstrip()). */
  function TrimStart(s: string): string
  {
    if s == [] || !IsSpace(s[0]) then s else TrimStart(s[1..])
  }

  /** s with its trailing whitespace removed (str.rstrip()). */
  function TrimEnd(s: string): string
  {
    if s == [] || !IsSpace(s[|s| - 1]) then s else TrimEnd(s[..|s| - 1])
  }

  /** TrimStart drops a blank prefix and stops at the first non-whitespace character. */
  lemma {:induction false} TrimStartSpec(s: string)
    ensures var r := TrimStart(s);
      |r| <= |s| && r == s[|s| - |r|..] && IsBlank(s[..|s| - |r|]) && (r == [] || !IsSpace(r[0]))
  {
    if s != [] && IsSpace(s[0]) {
      TrimStartSpec(s[1..]);
      var r := TrimStart(s);
      assert s[..|s| - |r|] == [s[0]] + s[1..][..|s| - 1 - |r|];
    }
  }

  /** TrimEnd drops a blank suffix and stops at the last non-whitespace character. */
  lemma {:induction false} TrimEndSpec(s: string)
    ensures var r := TrimEnd(s);
      |r| <= |s| && r == s[..|r|] && IsBlank(s[|r|..]) && (r == [] || !IsSpace(r[|r| - 1]))
  {
    if s != [] && IsSpace(s[|s| - 1]) {
      TrimEndSpec(s[..|s| - 1]);
      var r := TrimEnd(s);
      assert s[|r|..] == s[..|s| - 1][|r|..] + [s[|s| - 1]];
    }
  }

  /** str.strip() without arguments. */
  function Strip(s: string): string
  {
    TrimEnd(TrimStart(s))
  }

  /**
   * What strip() promises: the result is empty exactly when s is blank, and a
   * non-empty result starts and ends with a non-whitespace character.
   */
  lemma StripSpec(s: string)
    ensures var r := Strip(s);
      (r == "" <==> IsBlank(s)) && (r != "" ==> !IsSpace(r[0]) && !IsSpace(r[|r| - 1])) && |r| <= |s|
  {
    var t := TrimStart(s);
    var r := TrimEnd(t);
    TrimStartSpec(s);
    TrimEndSpec(t);
    var k := |s| - |t|;
    assert s == s[..k] + t;
    if r == "" {
      assert IsBlank(t) by { assert t == t[|r|..]; }
      BlankConcat(s[..k], t);
    }
    if t != [] {
      assert t[0] == s[k];
    }
    if r != "" {
      assert r[0] == t[0];
    }
  }

  /** The truth value Python gives to `text and text.strip()`. */
  predicate HasText(text: string)
  {
    text != "" && Strip(text) != ""
  }

  /** Usable text is text with at least one non-whitespace character. */
  lemma HasTextIffNonSpace(text: string)
    ensures HasText(text) <==> !IsBlank(text)
  {
    StripSpec(text);
  }

  /** ASCII case folding; see README for why non-ASCII folding does not matter here. */
  function LowerChar(c: char): char
  {
    if 'A' <= c <= 'Z' then (c as int + 32) as char else c
  }

  /** str.lower(), restricted to ASCII letters. */
  function Lower(s: string): (r: string)
    ensures |r| == |s|
  {
    seq(|s|, i requires 0 <= i < |s| => LowerChar(s[i]))
  }

  /** sep.join(parts). */
  function Join(sep: string, parts: seq<string>): string
  {
    if parts == [] then ""
    else if |parts| == 1 then parts[0]
    else parts[0] + sep + Join(sep, parts[1..])
  }

  lemma BlankConcat(a: string, b: string)
    ensures IsBlank(a + b) <==> IsBlank(a) && IsBlank(b)
  {
    if IsBlank(a + b) {
      assert forall i :: 0 <= i < |a| ==> a[i] == (a + b)[i];
      assert forall i :: 0 <= i < |b| ==> b[i] == (a + b)[|a| + i];
    }
  }

  /**
   * Joining with a whitespace separator yields blank text exactly when every
   * part is blank: a document whose pages (or paragraphs) hold no text gives
   * no usable text, and one non-blank part is enough to give some.
   */
  lemma {:induction false} JoinBlank(sep: string, parts: seq<string>)
    requires IsBlank(sep)
    ensures IsBlank(Join(sep, parts)) <==> forall k :: 0 <= k < |parts| ==> IsBlank(parts[k])
  {
    if |parts| > 1 {
      JoinBlank(sep, parts[1..]);
      BlankConcat(parts[0], sep);
      BlankConcat(parts[0] + sep, Join(sep, parts[1..]));
      if IsBlank(Join(sep, parts)) {
        forall k | 0 <= k < |parts| ensures IsBlank(parts[k]) {
          if k > 0 { assert parts[k] == parts[1..][k - 1]; }
        }
      } else {
        assert !IsBlank(parts[0]) || !IsBlank(Join(sep, parts[1..]));
        if IsBlank(parts[0]) {
          var k :| 0 <= k < |parts[1..]| && !IsBlank(parts[1..][k]);
          assert parts[k + 1] == parts[1..][k];
        }
      }
    }
  }

  /** Index of the last occurrence of c in s, or -1 when there is none (str.rfind). */
  function RFind(s: string, c: char): (r: int)
    ensures -1 <= r < |s|
  {
    if s == [] then -1
    else if s[|s| - 1] == c then |s| - 1
    else RFind(s[..|s| - 1], c)
  }

  /** RFind finds c at its result and nowhere after it. */
  lemma {:induction false} RFindSpec(s: string, c: char)
    ensures var r := RFind(s, c);
      (r >= 0 ==> s[r] == c) && forall j :: r < j < |s| ==> s[j] != c
  {
    if s != [] && s[|s| - 1] != c {
      RFindSpec(s[..|s| - 1], c);
      assert forall j :: RFind(s, c) < j < |s| - 1 ==> s[j] == s[..|s| - 1][j];
    }
  }

  /**
   * pathlib.PurePath.suffix of a file name: the text from the last '.', but
   * only when that dot is neither the first nor the last character; otherwise
   * the empty string.
   */
  function Suffix(name: string): string
  {
    var i := RFind(name, '.');
    if 0 < i < |name| - 1 then name[i..] else ""
  }

  /**
   * A non-empty suffix is a tail of the name, shorter than the name, made of
   * one dot and at least one further character, none of them a dot; the
   * suffix is empty exactly when no dot sits strictly inside the name or the
   * name ends with a dot.
   */
  lemma SuffixSpec(name: string)
    ensures var r := Suffix(name);
      (r != "" ==> 2 <= |r| < |name| && r == name[|name| - |r|..]) &&
      (r != "" ==> r[0] == '.' && forall j :: 1 <= j < |r| ==> r[j] != '.') &&
      (r == "" <==> (forall j :: 1 <= j < |name| - 1 ==> name[j] != '.') || (|name| > 0 && name[|name| - 1] == '.'))
  {
    RFindSpec(name, '.');
  }

  /** The character for a decimal digit. */
  function Digit(d: nat): (c: char)
    requires d < 10
    ensures '0' <= c <= '9' && c as int - '0' as int == d
  {
    ('0' as int + d) as char
  }

  /** str(n) for a natural number. */
  function Decimal(n: nat): (r: string)
    ensures |r| >= 1
  {
    if n < 10 then [Digit(n)] else Decimal(n / 10) + [Digit(n % 10)]
  }

  /** str(n) is made of decimal digits only. */
  lemma {:induction false} DecimalDigits(n: nat)
    ensures forall i :: 0 <= i < |Decimal(n)| ==> '0' <= Decimal(n)[i] <= '9'
  {
    if n >= 10 {
      DecimalDigits(n / 10);
    }
  }

  /** The number a string of decimal digits denotes (int(s)). */
  function DigitsValue(s: string): nat
    requires forall i :: 0 <= i < |s| ==> '0' <= s[i] <= '9'
  {
    if s == [] then 0 else 10 * DigitsValue(s[..|s| - 1]) + (s[|s| - 1] as int - '0' as int)
  }

  /** Reading back a number written by Decimal gives the number: the counters in progress messages are exact. */
  lemma {:induction false} DecimalRoundTrip(n: nat)
    ensures var r := Decimal(n);
      (forall i :: 0 <= i < |r| ==> '0' <= r[i] <= '9') && DigitsValue(r) == n
  {
    DecimalDigits(n);
    if n >= 10 {
      DecimalRoundTrip(n / 10);
      DecimalDigits(n / 10);
      var r := Decimal(n);
      assert r[..|r| - 1] == Decimal(n / 10);
    }
  }
}

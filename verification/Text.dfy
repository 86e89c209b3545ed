/** Strings as the two runtimes treat them: trimming, splitting, joining and decimal numerals. A
    string is a sequence of Unicode scalar values. */
module Text {
  import opened Results

  // ---- white space ------------------------------------------------------------------------------

  /** Unicode's White_Space property. */
  predicate IsSpace(c: char) {
    || '\t' <= c <= '\r'
    || c in {' ', '\U{85}', '\U{A0}', '\U{1680}', '\U{2028}', '\U{2029}', '\U{202F}', '\U{205F}', '\U{3000}'}
    || '\U{2000}' <= c <= '\U{200A}'
  }

  predicate AllSpace(s: string) {
    forall i :: 0 <= i < |s| ==> IsSpace(s[i])
  }

  function TrimLeft(s: string): string {
    if s != "" && IsSpace(s[0]) then TrimLeft(s[1..]) else s
  }

  function TrimRight(s: string): string {
    if s != "" && IsSpace(s[|s| - 1]) then TrimRight(s[..|s| - 1]) else s
  }

  function TrimSpace(s: string): string {
    TrimRight(TrimLeft(s))
  }

  /** Neither end is a space. */
  predicate Trimmed(s: string) {
    s != "" ==> !IsSpace(s[0]) && !IsSpace(s[|s| - 1])
  }

  lemma {:induction false} TrimLeftSplits(s: string) returns (pad: string)
    ensures AllSpace(pad) && s == pad + TrimLeft(s)
    ensures TrimLeft(s) != "" ==> !IsSpace(TrimLeft(s)[0])
  {
    if s != "" && IsSpace(s[0]) {
      var rest := TrimLeftSplits(s[1..]);
      pad := [s[0]] + rest;
    } else {
      pad := "";
    }
  }

  lemma {:induction false} TrimRightSplits(s: string) returns (pad: string)
    ensures AllSpace(pad) && s == TrimRight(s) + pad
    ensures TrimRight(s) != "" ==> !IsSpace(TrimRight(s)[|TrimRight(s)| - 1])
  {
    if s != "" && IsSpace(s[|s| - 1]) {
      var rest := TrimRightSplits(s[..|s| - 1]);
      pad := rest + [s[|s| - 1]];
    } else {
      pad := "";
    }
  }

  lemma {:induction false} TrimLeftPadded(pad: string, s: string)
    requires AllSpace(pad) && (s != "" ==> !IsSpace(s[0]))
    ensures TrimLeft(pad + s) == s
  {
    if pad == "" {
      assert pad + s == s;
    } else {
      assert (pad + s)[1..] == pad[1..] + s;
      TrimLeftPadded(pad[1..], s);
    }
  }

  lemma {:induction false} TrimRightPadded(s: string, pad: string)
    requires AllSpace(pad) && (s != "" ==> !IsSpace(s[|s| - 1]))
    ensures TrimRight(s + pad) == s
  {
    if pad == "" {
      assert s + pad == s;
    } else {
      assert (s + pad)[..|s + pad| - 1] == s + pad[..|pad| - 1];
      TrimRightPadded(s, pad[..|pad| - 1]);
    }
  }

  /** Outer white space is exactly what trimming removes. */
  lemma TrimSpacePadded(left: string, s: string, right: string)
    requires AllSpace(left) && AllSpace(right) && Trimmed(s)
    ensures TrimSpace(left + s + right) == s
  {
    if s == "" {
      assert left + s + right == (left + right) + "";
      TrimLeftPadded(left + right, "");
    } else {
      assert left + s + right == left + (s + right);
      TrimLeftPadded(left, s + right);
      TrimRightPadded(s, right);
    }
  }

  lemma TrimSpaceTrims(s: string)
    ensures Trimmed(TrimSpace(s))
    ensures TrimSpace(TrimSpace(s)) == TrimSpace(s)
  {
    var left := TrimLeftSplits(s);
    var right := TrimRightSplits(TrimLeft(s));
    var t := TrimSpace(s);
    assert t != "" ==> t[0] == TrimLeft(s)[0];
    assert "" + t + "" == t;
    TrimSpacePadded("", t, "");
  }

  // ---- separators -------------------------------------------------------------------------------

  function Split(s: string, separator: char): (parts: seq<string>)
    ensures |parts| > 0
  {
    if s == "" then [""]
    else
      var rest := Split(s[1..], separator);
      if s[0] == separator then [""] + rest else [[s[0]] + rest[0]] + rest[1..]
  }

  function Join(parts: seq<string>, separator: string): string {
    if parts == [] then ""
    else if |parts| == 1 then parts[0]
    else parts[0] + separator + Join(parts[1..], separator)
  }

  lemma {:induction false} SplitFirst(s: string, separator: char, rest: string)
    requires separator !in s
    ensures Split(s, separator) == [s]
    ensures Split(s + [separator] + rest, separator) == [s] + Split(rest, separator)
  {
    if s == "" {
      assert s + [separator] + rest == [separator] + rest;
      assert ([separator] + rest)[1..] == rest;
    } else {
      SplitFirst(s[1..], separator, rest);
      assert (s + [separator] + rest)[1..] == s[1..] + [separator] + rest;
      assert [s[0]] + s[1..] == s;
    }
  }

  /** Splitting undoes joining where no part contains the separator. */
  lemma {:induction false} SplitJoin(parts: seq<string>, separator: char)
    requires parts != [] && forall i :: 0 <= i < |parts| ==> separator !in parts[i]
    ensures Split(Join(parts, [separator]), separator) == parts
  {
    if |parts| == 1 {
      SplitFirst(parts[0], separator, "");
    } else {
      var rest := Join(parts[1..], [separator]);
      SplitJoin(parts[1..], separator);
      SplitFirst(parts[0], separator, rest);
      assert Join(parts, [separator]) == parts[0] + [separator] + rest;
      assert [parts[0]] + parts[1..] == parts;
    }
  }

  lemma {:induction false} JoinLast(parts: seq<string>, separator: string)
    requires |parts| > 1
    ensures Join(parts, separator) == Join(parts[..|parts| - 1], separator) + separator + parts[|parts| - 1]
  {
    var n := |parts| - 1;
    if n == 1 {
      assert parts[1..] == [parts[1]] && parts[..1] == [parts[0]];
    } else {
      JoinLast(parts[1..], separator);
      assert parts[1..][..n - 1] == parts[..n][1..] && parts[1..][n - 1] == parts[n];
      var middle := Join(parts[1..n], separator);
      assert Join(parts[..n], separator) == parts[0] + separator + middle;
      assert parts[0] + separator + (middle + separator + parts[n]) == (parts[0] + separator + middle) + separator + parts[n];
    }
  }

  // ---- decimal numerals ---------------------------------------------------------------------------

  function Digit(d: nat): char
    requires d < 10
  {
    ('0' as int + d) as char
  }

  predicate IsDigit(c: char) {
    '0' <= c <= '9'
  }

  function DecimalNat(n: nat): (s: string)
    ensures s != "" && forall i :: 0 <= i < |s| ==> IsDigit(s[i])
  {
    if n < 10 then [Digit(n)] else DecimalNat(n / 10) + [Digit(n % 10)]
  }

  function Decimal(n: int): (s: string)
    ensures s != "" && forall i :: 0 <= i < |s| ==> IsDigit(s[i]) || s[i] == '-'
    ensures IsDigit(s[|s| - 1])
  {
    if n < 0 then "-" + DecimalNat(-n) else DecimalNat(n)
  }

  /** The value of a string of digits. */
  function ParseDigits(s: string): Option<nat> {
    if s == "" then Some(0)
    else
      var last := s[|s| - 1];
      if !IsDigit(last) then None
      else
        var high :- ParseDigits(s[..|s| - 1]);
        Some(10 * high + (last as int - '0' as int))
  }

  lemma DigitsAreArabic(d: nat)
    requires d < 10
    ensures Digit(d) == "0123456789"[d] && ParseDigits([Digit(d)]) == Some(d)
  {
    assert [Digit(d)][..0] == "";
  }

  /** Digits and nothing else parse. */
  lemma {:induction false} ParseDigitsExactly(s: string)
    ensures ParseDigits(s).Some? <==> forall i :: 0 <= i < |s| ==> IsDigit(s[i])
  {
    if s != "" {
      var init := s[..|s| - 1];
      ParseDigitsExactly(init);
      assert forall i :: 0 <= i < |init| ==> init[i] == s[i];
    }
  }

  function TenTo(n: nat): nat {
    if n == 0 then 1 else 10 * TenTo(n - 1)
  }

  /** A numeral is read by position: what is written before `n` more digits counts ten to the n times. */
  lemma {:induction false} ParseDigitsByPosition(high: string, low: string)
    requires ParseDigits(high).Some? && ParseDigits(low).Some?
    ensures ParseDigits(high + low) == Some(ParseDigits(high).value * TenTo(|low|) + ParseDigits(low).value)
  {
    if low == "" {
      assert high + low == high;
    } else {
      var n := |low| - 1;
      assert (high + low)[..|high + low| - 1] == high + low[..n];
      ParseDigitsByPosition(high, low[..n]);
      TimesTen(ParseDigits(high).value, TenTo(n));
    }
  }

  lemma TimesTen(x: nat, y: nat)
    ensures x * (10 * y) == 10 * (x * y)
  {
  }

  lemma {:induction false} ParseDigitsInvertsDecimal(n: nat)
    ensures ParseDigits(DecimalNat(n)) == Some(n)
  {
    if n >= 10 {
      ParseDigitsInvertsDecimal(n / 10);
      var s := DecimalNat(n);
      assert s[..|s| - 1] == DecimalNat(n / 10);
    } else {
      assert [Digit(n)][..0] == "";
      assert ParseDigits("") == Some(0);
    }
  }

  lemma DecimalSign(n: int)
    ensures Decimal(n)[0] == '-' <==> n < 0
  {
  }

  lemma DecimalIsInjective(m: int, n: int)
    requires Decimal(m) == Decimal(n)
    ensures m == n
  {
    DecimalSign(m);
    DecimalSign(n);
    if m < 0 {
      assert Decimal(m)[1..] == DecimalNat(-m) && Decimal(n)[1..] == DecimalNat(-n);
      ParseDigitsInvertsDecimal(-m);
      ParseDigitsInvertsDecimal(-n);
    } else {
      ParseDigitsInvertsDecimal(m);
      ParseDigitsInvertsDecimal(n);
    }
  }
}

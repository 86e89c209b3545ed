/** The base64 encodings of RFC 4648 (sections 3.2, 4 and 5) as Go decodes them, and the decoder of
    the gateway that accepts any of the four. */
module Base64 {
  import opened Results
  import opened Bytes

  /** The standard or the URL-safe alphabet, with padding or without. */
  datatype Encoding = Encoding(urlSafe: bool, padded: bool)

  const STD := Encoding(false, true)
  const RAW_STD := Encoding(false, false)
  const URL := Encoding(true, true)
  const RAW_URL := Encoding(true, false)

  function Symbol(urlSafe: bool, v: nat): char
    requires v < 64
  {
    if v < 26 then ('A' as int + v) as char
    else if v < 52 then ('a' as int + v - 26) as char
    else if v < 62 then ('0' as int + v - 52) as char
    else if v == 62 then (if urlSafe then '-' else '+')
    else (if urlSafe then '_' else '/')
  }

  function SymbolValue(urlSafe: bool, c: char): (v: Option<nat>)
    ensures v.Some? ==> v.value < 64
  {
    if 'A' <= c <= 'Z' then Some(c as int - 'A' as int)
    else if 'a' <= c <= 'z' then Some(c as int - 'a' as int + 26)
    else if '0' <= c <= '9' then Some(c as int - '0' as int + 52)
    else if c == (if urlSafe then '-' else '+') then Some(62)
    else if c == (if urlSafe then '_' else '/') then Some(63)
    else None
  }

  // ---- encoding ---------------------------------------------------------------------------------

  function Padding(e: Encoding, n: nat): string {
    if !e.padded then "" else if n == 1 then "=" else "=="
  }

  /** The four values of six bits in three bytes. */
  function Sextets(b: Byte, c: Byte, d: Byte): (v: seq<nat>)
    ensures |v| == 4 && v[0] < 64 && v[1] < 64 && v[2] < 64 && v[3] < 64
  {
    [b / 4, b % 4 * 16 + c / 16, c % 16 * 4 + d / 64, d % 64]
  }

  function SymbolsOf(urlSafe: bool, vs: seq<nat>): (s: string)
    requires forall i :: 0 <= i < |vs| ==> vs[i] < 64
    ensures |s| == |vs| && forall i :: 0 <= i < |s| ==> s[i] == Symbol(urlSafe, vs[i])
  {
    seq(|vs|, i requires 0 <= i < |vs| => Symbol(urlSafe, vs[i]))
  }

  function Encode(e: Encoding, bytes: seq<Byte>): string {
    if bytes == [] then ""
    else if |bytes| == 1 then SymbolsOf(e.urlSafe, Sextets(bytes[0], 0, 0)[..2]) + Padding(e, 2)
    else if |bytes| == 2 then SymbolsOf(e.urlSafe, Sextets(bytes[0], bytes[1], 0)[..3]) + Padding(e, 1)
    else SymbolsOf(e.urlSafe, Sextets(bytes[0], bytes[1], bytes[2])) + Encode(e, bytes[3..])
  }

  // ---- decoding ---------------------------------------------------------------------------------

  /** Line breaks are ignored wherever they stand. */
  function DropLineBreaks(s: string): string {
    if s == "" then ""
    else if s[0] in {'\r', '\n'} then DropLineBreaks(s[1..])
    else [s[0]] + DropLineBreaks(s[1..])
  }

  /** The values of the first `n` characters, all of the alphabet. */
  function Values(urlSafe: bool, s: string, n: nat): (vs: Option<seq<nat>>)
    ensures vs.Some? ==> n <= |s| && |vs.value| == n && forall i :: 0 <= i < n ==> vs.value[i] < 64
  {
    if n == 0 then Some([])
    else if s == "" then None
    else
      var v :- SymbolValue(urlSafe, s[0]);
      var rest :- Values(urlSafe, s[1..], n - 1);
      Some([v] + rest)
  }

  function OneByte(v: seq<nat>): seq<Byte>
    requires |v| == 2 && v[0] < 64 && v[1] < 64
  {
    [v[0] * 4 + v[1] / 16]
  }

  function TwoBytes(v: seq<nat>): seq<Byte>
    requires |v| == 3 && v[0] < 64 && v[1] < 64 && v[2] < 64
  {
    [v[0] * 4 + v[1] / 16, v[1] % 16 * 16 + v[2] / 4]
  }

  function ThreeBytes(v: seq<nat>): seq<Byte>
    requires |v| == 4 && v[0] < 64 && v[1] < 64 && v[2] < 64 && v[3] < 64
  {
    [v[0] * 4 + v[1] / 16, v[1] % 16 * 16 + v[2] / 4, v[2] % 4 * 64 + v[3]]
  }

  /** Whole groups of four, then a last group that is padded or short. The unused bits of the last
      symbol are not looked at. */
  function DecodeGroups(e: Encoding, s: string): Option<seq<Byte>> {
    if s == "" then Some([])
    else if Values(e.urlSafe, s, 4).Some? then
      var rest :- DecodeGroups(e, s[4..]);
      Some(ThreeBytes(Values(e.urlSafe, s, 4).value) + rest)
    else if e.padded then
      if |s| != 4 then None
      else if s[2..] == "==" then
        var v :- Values(e.urlSafe, s, 2);
        Some(OneByte(v))
      else if s[3] == '=' then
        var v :- Values(e.urlSafe, s, 3);
        Some(TwoBytes(v))
      else None
    else if |s| == 2 then
      var v :- Values(e.urlSafe, s, 2);
      Some(OneByte(v))
    else if |s| == 3 then
      var v :- Values(e.urlSafe, s, 3);
      Some(TwoBytes(v))
    else None
  }

  function Decode(e: Encoding, s: string): Option<seq<Byte>> {
    DecodeGroups(e, DropLineBreaks(s))
  }

  // ---- each encoding inverts ------------------------------------------------------------------------

  lemma SymbolInverts(urlSafe: bool, v: nat)
    requires v < 64
    ensures SymbolValue(urlSafe, Symbol(urlSafe, v)) == Some(v)
    ensures Symbol(urlSafe, v) !in {'=', '\r', '\n'}
  {
  }

  lemma {:induction false} ValuesInvert(urlSafe: bool, vs: seq<nat>, rest: string)
    requires forall i :: 0 <= i < |vs| ==> vs[i] < 64
    ensures Values(urlSafe, SymbolsOf(urlSafe, vs) + rest, |vs|) == Some(vs)
  {
    if vs != [] {
      var s := SymbolsOf(urlSafe, vs) + rest;
      SymbolInverts(urlSafe, vs[0]);
      ValuesInvert(urlSafe, vs[1..], rest);
      assert s[1..] == SymbolsOf(urlSafe, vs[1..]) + rest;
      assert [vs[0]] + vs[1..] == vs;
    }
  }

  lemma {:induction false} NoValues(urlSafe: bool, s: string, n: nat, k: nat)
    requires k < n && k < |s| && s[k] == '='
    ensures Values(urlSafe, s, n).None?
  {
    if k > 0 {
      NoValues(urlSafe, s[1..], n - 1, k - 1);
    }
  }

  lemma SextetsJoin(b: Byte, c: Byte, d: Byte)
    ensures ThreeBytes(Sextets(b, c, d)) == [b, c, d]
  {
  }

  lemma LastSextetsJoin(b: Byte, c: Byte)
    ensures TwoBytes(Sextets(b, c, 0)[..3]) == [b, c]
    ensures OneByte(Sextets(b, 0, 0)[..2]) == [b]
  {
  }

  lemma DecodeLastOne(e: Encoding, b: Byte)
    ensures DecodeGroups(e, Encode(e, [b])) == Some([b])
  {
    var s, vs := Encode(e, [b]), Sextets(b, 0, 0)[..2];
    ValuesInvert(e.urlSafe, vs, Padding(e, 2));
    LastSextetsJoin(b, 0);
    if e.padded {
      assert s[2..] == "==";
      NoValues(e.urlSafe, s, 4, 2);
    }
  }

  lemma DecodeLastTwo(e: Encoding, b: Byte, c: Byte)
    ensures DecodeGroups(e, Encode(e, [b, c])) == Some([b, c])
  {
    var s, vs := Encode(e, [b, c]), Sextets(b, c, 0)[..3];
    ValuesInvert(e.urlSafe, vs, Padding(e, 1));
    LastSextetsJoin(b, c);
    SymbolInverts(e.urlSafe, vs[2]);
    if e.padded {
      assert s[2..][0] == s[2] && s[2] != '=' && s[3] == '=';
      NoValues(e.urlSafe, s, 4, 3);
    }
  }

  lemma {:induction false} DecodeGroupsInverts(e: Encoding, bytes: seq<Byte>)
    ensures DecodeGroups(e, Encode(e, bytes)) == Some(bytes)
  {
    if |bytes| == 1 {
      DecodeLastOne(e, bytes[0]);
      assert bytes == [bytes[0]];
    } else if |bytes| == 2 {
      DecodeLastTwo(e, bytes[0], bytes[1]);
      assert bytes == [bytes[0], bytes[1]];
    } else if |bytes| > 2 {
      var vs := Sextets(bytes[0], bytes[1], bytes[2]);
      ValuesInvert(e.urlSafe, vs, Encode(e, bytes[3..]));
      assert Encode(e, bytes)[4..] == Encode(e, bytes[3..]);
      DecodeGroupsInverts(e, bytes[3..]);
      SextetsJoin(bytes[0], bytes[1], bytes[2]);
      assert [bytes[0], bytes[1], bytes[2]] + bytes[3..] == bytes;
    }
  }

  ghost predicate IsBase64(s: string) {
    forall i :: 0 <= i < |s| ==> s[i] == '=' || SymbolValue(true, s[i]).Some? || SymbolValue(false, s[i]).Some?
  }

  lemma SymbolsAreBase64(urlSafe: bool, vs: seq<nat>)
    requires forall i :: 0 <= i < |vs| ==> vs[i] < 64
    ensures IsBase64(SymbolsOf(urlSafe, vs))
  {
  }

  lemma {:induction false} EncodeIsBase64(e: Encoding, bytes: seq<Byte>)
    ensures IsBase64(Encode(e, bytes))
    ensures bytes != [] ==> Encode(e, bytes) != ""
  {
    if |bytes| == 1 {
      SymbolsAreBase64(e.urlSafe, Sextets(bytes[0], 0, 0)[..2]);
    } else if |bytes| == 2 {
      SymbolsAreBase64(e.urlSafe, Sextets(bytes[0], bytes[1], 0)[..3]);
    } else if |bytes| > 2 {
      SymbolsAreBase64(e.urlSafe, Sextets(bytes[0], bytes[1], bytes[2]));
      EncodeIsBase64(e, bytes[3..]);
    }
  }

  lemma {:induction false} NothingToDrop(s: string)
    requires IsBase64(s)
    ensures DropLineBreaks(s) == s
  {
    if s != "" {
      assert s[0] !in {'\r', '\n'};
      assert forall i :: 0 <= i < |s[1..]| ==> s[1..][i] == s[i + 1];
      NothingToDrop(s[1..]);
      assert [s[0]] + s[1..] == s;
    }
  }

  lemma DecodeInvertsEncode(e: Encoding, bytes: seq<Byte>)
    ensures Decode(e, Encode(e, bytes)) == Some(bytes)
  {
    EncodeIsBase64(e, bytes);
    NothingToDrop(Encode(e, bytes));
    DecodeGroupsInverts(e, bytes);
  }

  // ---- the text ------------------------------------------------------------------------------------

  /** The alphabets of sections 4 and 5: capital letters, small letters, digits, and two more. */
  lemma Alphabets(urlSafe: bool, v: nat)
    requires v < 64
    ensures Symbol(urlSafe, 0) == 'A' && Symbol(urlSafe, 25) == 'Z' && Symbol(urlSafe, 26) == 'a' && Symbol(urlSafe, 51) == 'z'
    ensures Symbol(urlSafe, 52) == '0' && Symbol(urlSafe, 61) == '9'
    ensures Symbol(false, 62) == '+' && Symbol(false, 63) == '/' && Symbol(true, 62) == '-' && Symbol(true, 63) == '_'
    ensures v !in {25, 51, 61, 62, 63} ==> Symbol(urlSafe, v + 1) as int == Symbol(urlSafe, v) as int + 1
  {
  }

  /** Three bytes are one number of 24 bits, of which the first symbol has the six highest. */
  lemma SextetsSpellBytes(b: Byte, c: Byte, d: Byte)
    ensures var v := Sextets(b, c, d); v[0] * 262_144 + v[1] * 4096 + v[2] * 64 + v[3] == b * 65_536 + c * 256 + d
  {
    assert b == 4 * (b / 4) + b % 4;
    assert c == 16 * (c / 16) + c % 16;
    assert d == 64 * (d / 64) + d % 64;
  }

  /** Four symbols for three bytes; a last one or two bytes take two or three symbols, which padding
      fills up to four. */
  lemma {:induction false} EncodedLength(e: Encoding, bytes: seq<Byte>, whole: nat, rest: nat)
    requires |bytes| == 3 * whole + rest && rest < 3
    ensures |Encode(e, bytes)| == 4 * whole + if rest == 0 then 0 else if e.padded then 4 else rest + 1
    decreases whole
  {
    if whole > 0 {
      EncodedLength(e, bytes[3..], whole - 1, rest);
    }
  }

  lemma {:induction false} EncodedEnd(e: Encoding, bytes: seq<Byte>)
    requires e.padded && |bytes| % 3 != 0
    ensures var s, n := Encode(e, bytes), |Encode(e, bytes)|;
      && n >= 4 && s[n - 1] == '=' && (s[n - 2] == '=' <==> |bytes| % 3 == 1)
  {
    if |bytes| > 2 {
      EncodedEnd(e, bytes[3..]);
    } else if |bytes| == 2 {
      SymbolInverts(e.urlSafe, Sextets(bytes[0], bytes[1], 0)[2]);
    }
  }

  // ---- what is ignored -------------------------------------------------------------------------------

  lemma {:induction false} DropsWhereItStands(xs: string, c: char, ys: string)
    ensures DropLineBreaks(xs + [c] + ys) == DropLineBreaks(xs) + (if c in {'\r', '\n'} then "" else [c]) + DropLineBreaks(ys)
    decreases |xs|
  {
    var s := xs + [c] + ys;
    if xs == "" {
      assert s == [c] + ys && s[1..] == ys;
    } else {
      assert s[1..] == xs[1..] + [c] + ys;
      DropsWhereItStands(xs[1..], c, ys);
    }
  }

  lemma {:induction false} DropsApart(xs: string, ys: string)
    ensures DropLineBreaks(xs + ys) == DropLineBreaks(xs) + DropLineBreaks(ys)
    decreases |xs|
  {
    if xs == "" {
      assert xs + ys == ys;
    } else {
      assert (xs + ys)[1..] == xs[1..] + ys;
      DropsApart(xs[1..], ys);
    }
  }

  lemma {:induction false} ValuesAreSymbols(urlSafe: bool, s: string, n: nat, k: nat)
    requires Values(urlSafe, s, n).Some? && k < n
    ensures SymbolValue(urlSafe, s[k]).Some?
  {
    if k > 0 {
      ValuesAreSymbols(urlSafe, s[1..], n - 1, k - 1);
    }
  }

  lemma {:induction false} GroupsAreSymbols(e: Encoding, s: string, k: nat)
    requires DecodeGroups(e, s).Some? && k < |s|
    ensures SymbolValue(e.urlSafe, s[k]).Some? || (e.padded && s[k] == '=' && k + 2 >= |s|)
    decreases |s|
  {
    LastGroup(e, s);
    if Values(e.urlSafe, s, 4).Some? {
      if k < 4 {
        ValuesAreSymbols(e.urlSafe, s, 4, k);
      } else {
        GroupsAreSymbols(e, s[4..], k - 4);
      }
    } else {
      var n := if e.padded then (if s[2] == '=' then 2 else 3) else |s|;
      if k < n {
        ValuesAreSymbols(e.urlSafe, s, n, k);
      }
    }
  }

  /** A decoder passes over CR and LF wherever they stand, and over nothing else: any other character
      that is not of its alphabet makes it fail, a padding character at the end of a padded text
      aside. */
  lemma OnlyLineBreaksAreIgnored(e: Encoding, xs: string, c: char, ys: string)
    ensures c in {'\r', '\n'} ==> Decode(e, xs + [c] + ys) == Decode(e, xs + ys)
    ensures c !in {'\r', '\n'} && Decode(e, xs + [c] + ys).Some? ==>
      SymbolValue(e.urlSafe, c).Some? || (e.padded && c == '=')
  {
    DropsWhereItStands(xs, c, ys);
    DropsApart(xs, ys);
    assert DropLineBreaks(xs) + "" == DropLineBreaks(xs);
    if c !in {'\r', '\n'} && Decode(e, xs + [c] + ys).Some? {
      GroupsAreSymbols(e, DropLineBreaks(xs) + [c] + DropLineBreaks(ys), |DropLineBreaks(xs)|);
    }
  }

  // ---- the four decoders agree --------------------------------------------------------------------------

  lemma {:induction false} ValuesAgree(d: bool, e: bool, s: string, n: nat)
    requires Values(d, s, n).Some? && Values(e, s, n).Some?
    ensures Values(d, s, n) == Values(e, s, n)
  {
    if n > 0 {
      ValuesAgree(d, e, s[1..], n - 1);
    }
  }

  lemma NoPaddingAmong(urlSafe: bool, s: string, n: nat)
    requires Values(urlSafe, s, n).Some?
    ensures forall k: nat :: k < n ==> s[k] != '='
  {
  }

  lemma {:induction false} GroupsAgree(d: Encoding, e: Encoding, s: string)
    requires DecodeGroups(d, s).Some? && DecodeGroups(e, s).Some?
    ensures DecodeGroups(d, s) == DecodeGroups(e, s)
    decreases |s|
  {
    if s != "" {
      LastGroup(d, s);
      LastGroup(e, s);
      if Values(d.urlSafe, s, 4).Some? && Values(e.urlSafe, s, 4).Some? {
        ValuesAgree(d.urlSafe, e.urlSafe, s, 4);
        GroupsAgree(d, e, s[4..]);
      } else {
        if Values(d.urlSafe, s, 2).Some? && Values(e.urlSafe, s, 2).Some? {
          ValuesAgree(d.urlSafe, e.urlSafe, s, 2);
        }
        if Values(d.urlSafe, s, 3).Some? && Values(e.urlSafe, s, 3).Some? {
          ValuesAgree(d.urlSafe, e.urlSafe, s, 3);
        }
      }
    }
  }

  /** Whether four symbols lead, or which kind of last group it is, shows in the text alone. */
  lemma LastGroup(e: Encoding, s: string)
    requires s != "" && DecodeGroups(e, s).Some?
    ensures Values(e.urlSafe, s, 4).Some? <==> |s| >= 4 && s[3] != '='
    ensures Values(e.urlSafe, s, 4).None? ==>
      var n := if e.padded then (if s[2] == '=' then 2 else 3) else |s|;
      && n in {2, 3} && Values(e.urlSafe, s, n).Some?
      && (e.padded <==> |s| == 4)
      && DecodeGroups(e, s) == Some(if n == 2 then OneByte(Values(e.urlSafe, s, 2).value) else TwoBytes(Values(e.urlSafe, s, 3).value))
  {
    if Values(e.urlSafe, s, 4).Some? {
      NoPaddingAmong(e.urlSafe, s, 4);
    } else if e.padded {
      assert s[2..] == "==" ==> s[2] == '=' && s[3] == '=';
      if s[2] == '=' && s[2..] != "==" {
        NoValues(e.urlSafe, s, 3, 2);
      }
    }
  }

  /** Two decoders that accept the same text return the same bytes. */
  lemma DecodersAgree(d: Encoding, e: Encoding, s: string)
    requires Decode(d, s).Some? && Decode(e, s).Some?
    ensures Decode(d, s) == Decode(e, s)
  {
    GroupsAgree(d, e, DropLineBreaks(s));
  }

  // ---- the flexible decoder ----------------------------------------------------------------------------

  function ENCODINGS(): seq<Encoding> {
    [STD, RAW_STD, URL, RAW_URL]
  }

  /** The bytes of the first of the encodings that accepts the text. */
  function FirstAccepted(encodings: seq<Encoding>, s: string): Option<seq<Byte>> {
    if encodings == [] then None
    else if Decode(encodings[0], s).Some? then Decode(encodings[0], s)
    else FirstAccepted(encodings[1..], s)
  }

  function DecodeFlexible(s: string): Option<seq<Byte>> {
    FirstAccepted(ENCODINGS(), s)
  }

  method DecodeBase64Flexible(raw: string) returns (decoded: Option<seq<Byte>>)
    ensures decoded == DecodeFlexible(raw)
  {
    var encodings := ENCODINGS();
    for i := 0 to |encodings|
      invariant FirstAccepted(encodings, raw) == FirstAccepted(encodings[i..], raw)
    {
      var b := Decode(encodings[i], raw);
      if b.Some? {
        return b;
      }
      assert encodings[i..][1..] == encodings[i + 1..];
    }
    return None;
  }

  lemma {:induction false} FirstAcceptedIsAny(encodings: seq<Encoding>, s: string, e: Encoding)
    requires e in encodings && Decode(e, s).Some?
    ensures FirstAccepted(encodings, s) == Decode(e, s)
  {
    if Decode(encodings[0], s).Some? {
      DecodersAgree(encodings[0], e, s);
    } else {
      FirstAcceptedIsAny(encodings[1..], s, e);
    }
  }

  /** The order of the trials never matters: the result is that of any encoding that accepts the
      text, and there is none only if no encoding does. */
  lemma {:induction false} FlexibleIsAnyDecoder(s: string, bytes: seq<Byte>)
    ensures DecodeFlexible(s) == Some(bytes) <==> exists e: Encoding :: Decode(e, s) == Some(bytes)
  {
    forall e: Encoding | Decode(e, s) == Some(bytes) ensures DecodeFlexible(s) == Some(bytes) {
      assert e in ENCODINGS();
      FirstAcceptedIsAny(ENCODINGS(), s, e);
    }
    if DecodeFlexible(s) == Some(bytes) {
      var e := FirstAcceptedFrom(ENCODINGS(), s);
      assert Decode(e, s) == Some(bytes);
    }
  }

  lemma {:induction false} FirstAcceptedFrom(encodings: seq<Encoding>, s: string) returns (e: Encoding)
    requires FirstAccepted(encodings, s).Some?
    ensures FirstAccepted(encodings, s) == Decode(e, s)
  {
    if Decode(encodings[0], s).Some? {
      e := encodings[0];
    } else {
      e := FirstAcceptedFrom(encodings[1..], s);
    }
  }

  /** Every byte string decodes from each of its four encodings, wherever line breaks were put in. */
  lemma FlexibleInvertsEncode(e: Encoding, bytes: seq<Byte>, s: string)
    requires DropLineBreaks(s) == Encode(e, bytes)
    ensures DecodeFlexible(s) == Some(bytes)
  {
    DecodeGroupsInverts(e, bytes);
    assert Decode(e, s) == Some(bytes);
    FlexibleIsAnyDecoder(s, bytes);
  }
}

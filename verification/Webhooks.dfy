/** Signed webhook headers: the signature a delivery carries, and the verifier that accepts it. */
module Webhooks {
  import opened Results
  import opened Bytes
  import opened Text

  // ---- hexadecimal --------------------------------------------------------------------------------

  function HexDigit(d: nat): char
    requires d < 16
  {
    if d < 10 then ('0' as int + d) as char else ('a' as int + d - 10) as char
  }

  function HexEncode(bytes: seq<Byte>): string {
    if bytes == [] then ""
    else [HexDigit(bytes[0] / 16), HexDigit(bytes[0] % 16)] + HexEncode(bytes[1..])
  }

  function HexValue(c: char): Option<nat> {
    if '0' <= c <= '9' then Some(c as int - '0' as int)
    else if 'a' <= c <= 'f' then Some(c as int - 'a' as int + 10)
    else if 'A' <= c <= 'F' then Some(c as int - 'A' as int + 10)
    else None
  }

  /** Digits of either case in pairs; an odd digit out or anything else is an error. */
  function HexDecode(s: string): Option<seq<Byte>> {
    if s == "" then Some([])
    else if |s| == 1 then None
    else
      match (HexValue(s[0]), HexValue(s[1]))
      case (Some(high), Some(low)) =>
        if high < 16 && low < 16 then
          var rest :- HexDecode(s[2..]);
          Some([16 * high + low] + rest)
        else None
      case _ => None
  }

  lemma HexValueInvertsDigit(d: nat)
    requires d < 16
    ensures HexValue(HexDigit(d)) == Some(d) && HexDigit(d) != ',' && !IsSpace(HexDigit(d))
  {
  }

  lemma {:induction false} HexDecodeInvertsEncode(bytes: seq<Byte>)
    ensures HexDecode(HexEncode(bytes)) == Some(bytes)
    ensures Trimmed(HexEncode(bytes)) && ',' !in HexEncode(bytes)
    ensures bytes != [] ==> HexEncode(bytes) != ""
  {
    if bytes != [] {
      HexDecodeInvertsEncode(bytes[1..]);
      HexValueInvertsDigit(bytes[0] / 16);
      HexValueInvertsDigit(bytes[0] % 16);
      assert HexEncode(bytes)[2..] == HexEncode(bytes[1..]);
      assert 16 * (bytes[0] / 16) + bytes[0] % 16 == bytes[0] && [bytes[0]] + bytes[1..] == bytes;
    }
  }

  /** The text of bytes: two lower-case digits for each, the high half first. */
  lemma {:induction false} HexText(bytes: seq<Byte>, i: nat)
    requires i < |bytes|
    ensures |HexEncode(bytes)| == 2 * |bytes|
    ensures HexEncode(bytes)[2 * i] == "0123456789abcdef"[bytes[i] / 16]
    ensures HexEncode(bytes)[2 * i + 1] == "0123456789abcdef"[bytes[i] % 16]
  {
    var rest := HexEncode(bytes[1..]);
    if |bytes| == 1 {
      assert rest == "";
    } else {
      HexText(bytes[1..], if i == 0 then 0 else i - 1);
    }
    assert HexEncode(bytes)[2..] == rest;
    assert i > 0 ==> HexEncode(bytes)[2 * i] == rest[2 * (i - 1)] && HexEncode(bytes)[2 * i + 1] == rest[2 * (i - 1) + 1];
  }

  function LowerCase(s: string): string {
    seq(|s|, i requires 0 <= i < |s| => if 'A' <= s[i] <= 'Z' then (s[i] as int + 32) as char else s[i])
  }

  lemma HexValueExactly(c: char, d: nat)
    requires d < 16
    ensures HexValue(c) == Some(d) <==> LowerCase([c]) == [HexDigit(d)]
  {
    assert LowerCase([c])[0] == if 'A' <= c <= 'Z' then (c as int + 32) as char else c;
  }

  lemma HexValueIsSmall(c: char)
    ensures HexValue(c).Some? ==> HexValue(c).value < 16
  {
  }

  /** Decoding accepts exactly the texts that are, in lower case, the text of bytes, and gives those
      bytes: either case of a digit will do, and nothing else decodes. */
  lemma {:induction false} HexDecodeExactly(s: string, bytes: seq<Byte>)
    ensures HexDecode(s) == Some(bytes) <==> LowerCase(s) == HexEncode(bytes)
    decreases |s|
  {
    if |s| < 2 {
      assert bytes != [] ==> |HexEncode(bytes)| >= 2;
    } else if bytes == [] {
      assert |LowerCase(s)| > 0;
    } else {
      var high, low := bytes[0] / 16, bytes[0] % 16;
      HexDecodeExactly(s[2..], bytes[1..]);
      HexValueExactly(s[0], high);
      HexValueExactly(s[1], low);
      HexValueIsSmall(s[0]);
      HexValueIsSmall(s[1]);
      assert LowerCase(s) == LowerCase([s[0]]) + LowerCase([s[1]]) + LowerCase(s[2..]);
      assert HexEncode(bytes) == [HexDigit(high)] + [HexDigit(low)] + HexEncode(bytes[1..]);
      PairsAreEqual(LowerCase([s[0]]), LowerCase([s[1]]), LowerCase(s[2..]),
                    [HexDigit(high)], [HexDigit(low)], HexEncode(bytes[1..]));
      assert bytes == [bytes[0]] + bytes[1..];
    }
  }

  lemma PairsAreEqual(a: string, b: string, c: string, a': string, b': string, c': string)
    requires |a| == |a'| == |b| == |b'| == 1
    ensures a + b + c == a' + b' + c' <==> a == a' && b == b' && c == c'
  {
    var s, s' := a + b + c, a' + b' + c';
    if s == s' {
      assert a == s[..1] && a' == s'[..1] && b == s[1..2] && b' == s'[1..2] && c == s[2..] && c' == s'[2..];
    }
  }

  // ---- the header -----------------------------------------------------------------------------------

  /** The part before the first '=' and the part after it. */
  function Cut(s: string): Option<(string, string)> {
    if s == "" then None
    else if s[0] == '=' then Some(("", s[1..]))
    else
      var (key, value) :- Cut(s[1..]);
      Some(([s[0]] + key, value))
  }

  /** A segment has a key exactly if it has an equals sign, and then the first one ends the key. */
  lemma {:induction false} CutExactly(s: string)
    ensures Cut(s).None? <==> '=' !in s
    ensures Cut(s).Some? ==> var (key, value) := Cut(s).value; s == key + "=" + value && '=' !in key
  {
    if s != "" {
      CutExactly(s[1..]);
      assert s == [s[0]] + s[1..];
      if Cut(s[1..]).Some? && s[0] != '=' {
        var (key, value) := Cut(s[1..]).value;
        assert [s[0]] + (key + "=" + value) == ([s[0]] + key) + "=" + value;
      }
    }
  }

  function KeyValue(segment: string): Option<(string, string)> {
    Cut(TrimSpace(segment))
  }

  predicate HasKey(segment: string, key: string) {
    KeyValue(segment).Some? && KeyValue(segment).value.0 == key
  }

  /** The value of the last "t" segment, or the empty string. */
  function LastTimestamp(segments: seq<string>): string {
    if segments == [] then ""
    else
      var last := segments[|segments| - 1];
      if HasKey(last, "t") then KeyValue(last).value.1 else LastTimestamp(segments[..|segments| - 1])
  }

  /** The segment is a "v1" whose value decodes to the given signature. */
  predicate Signs(segment: string, expected: seq<Byte>) {
    && HasKey(segment, "v1")
    && KeyValue(segment).value.1 != ""
    && HexDecode(KeyValue(segment).value.1) == Some(expected)
  }

  // ---- time -----------------------------------------------------------------------------------------

  const MIN_INT64 := -0x8000_0000_0000_0000
  const MAX_INT64 := 0x7fff_ffff_ffff_ffff
  const SECOND := 1_000_000_000

  /** Seconds from the first of January of year 1 to 1970, the zero of Go's internal clock. */
  const UNIX_TO_INTERNAL := 62_135_596_800

  type Int64 = i: int | MIN_INT64 <= i <= MAX_INT64

  datatype Instant = Instant(seconds: Int64, nanoseconds: int)

  function Wrap64(x: int): Int64 {
    (x + 0x8000_0000_0000_0000) % 0x1_0000_0000_0000_0000 - 0x8000_0000_0000_0000
  }

  /** `time.Since(time.Unix(ts, 0))`: the second counts wrap, the difference saturates. */
  function Since(now: Instant, ts: Int64): Int64 {
    var difference :=
      (Wrap64(now.seconds + UNIX_TO_INTERNAL) - Wrap64(ts + UNIX_TO_INTERNAL)) * SECOND + now.nanoseconds;
    if difference < MIN_INT64 then MIN_INT64
    else if difference > MAX_INT64 then MAX_INT64
    else difference
  }

  /** The age as it is compared; the most negative difference is its own negation. */
  function Age(now: Instant, ts: Int64): Int64 {
    var since := Since(now, ts);
    if since < 0 then Wrap64(0 - since) else since
  }

  /** A base-ten integer with an optional sign that fits 64 bits. */
  function ParseInt64(s: string): Option<Int64> {
    var negative := s != "" && s[0] == '-';
    var digits := if s != "" && s[0] in {'+', '-'} then s[1..] else s;
    if digits == "" then None
    else
      var magnitude :- ParseDigits(digits);
      if negative then
        if magnitude <= 0x8000_0000_0000_0000 then Some(0 - magnitude) else None
      else
        if magnitude <= MAX_INT64 then Some(magnitude) else None
  }

  /** Which texts are timestamps: digits, with a sign or without, whose value fits 64 bits. */
  lemma ParseInt64Exactly(sign: string, digits: string)
    requires sign in {"", "+", "-"} && digits != "" && ParseDigits(digits).Some?
    ensures var n := ParseDigits(digits).value;
      ParseInt64(sign + digits) ==
        if sign == "-" then (if n <= 0x8000_0000_0000_0000 then Some(0 - n) else None)
        else if n < 0x8000_0000_0000_0000 then Some(n)
        else None
  {
    ParseDigitsExactly(digits);
    var s := sign + digits;
    if sign == "" {
      assert s == digits && IsDigit(s[0]);
    } else {
      assert s[1..] == digits && s[0] == sign[0];
    }
  }

  lemma TimestampsAreNumerals(s: string) returns (sign: string, digits: string)
    requires ParseInt64(s).Some?
    ensures s == sign + digits && sign in {"", "+", "-"}
    ensures digits != "" && ParseDigits(digits).Some?
  {
    if s[0] in {'+', '-'} {
      sign, digits := [s[0]], s[1..];
    } else {
      sign, digits := "", s;
    }
  }

  predicate Fresh(now: Instant, t: string, tolerance: Int64) {
    ParseInt64(t).Some? && Age(now, ParseInt64(t).value) <= tolerance
  }

  lemma ParseInt64InvertsDecimal(ts: Int64)
    ensures ParseInt64(Decimal(ts)) == Some(ts)
  {
    if ts < 0 {
      ParseDigitsInvertsDecimal(0 - ts);
      assert Decimal(ts)[1..] == DecimalNat(0 - ts);
    } else {
      ParseDigitsInvertsDecimal(ts);
    }
  }

  /** Nanoseconds from `ts` to `now`, exactly. */
  function Elapsed(now: Instant, ts: Int64): int {
    (now.seconds - ts) * 1_000_000_000 + now.nanoseconds
  }

  /** The clock shows a time after 1970, and well before Go's count of seconds runs out. */
  predicate ClockReading(now: Instant) {
    0 <= now.seconds < 0x4000_0000_0000_0000 && 0 <= now.nanoseconds < 1_000_000_000
  }

  /** Within the tolerance of now, or so far ahead that the difference leaves a Duration; every
      timestamp under the longest tolerance. */
  ghost predicate InWindow(now: Instant, ts: Int64, tolerance: Int64) {
    || 0 - tolerance <= Elapsed(now, ts) <= tolerance
    || (Elapsed(now, ts) <= -0x8000_0000_0000_0000 && ts <= 0x7fff_ffff_ffff_ffff - 62_135_596_800)
    || tolerance == 0x7fff_ffff_ffff_ffff
  }

  /** The replay check accepts exactly the timestamps within the tolerance of now and, against its
      documentation, those so far ahead that the difference leaves a Duration and saturates to the
      one value whose negation is negative (and every timestamp under the longest tolerance). */
  lemma ReplayWindow(now: Instant, ts: Int64, tolerance: Int64)
    requires ClockReading(now) && tolerance > 0
    ensures Age(now, ts) <= tolerance <==> InWindow(now, ts, tolerance)
  {
    var u := ts + UNIX_TO_INTERNAL;
    if ts <= MAX_INT64 - UNIX_TO_INTERNAL {
      assert Wrap64(u) == u;
    } else {
      assert Wrap64(u) == u - 0x1_0000_0000_0000_0000;
    }
  }

  /** Such a timestamp: some 300 years after the clock's zero. */
  lemma FarFutureCountsAsFresh()
    ensures ClockReading(Instant(0, 0)) && Elapsed(Instant(0, 0), 9_300_000_000) < -300_000_000_000
    ensures Age(Instant(0, 0), 9_300_000_000) <= 300_000_000_000
  {
    ReplayWindow(Instant(0, 0), 9_300_000_000, 300_000_000_000);
  }

  // ---- signing and verifying --------------------------------------------------------------------------

  method ComputeSignature(hmac: Hmac, secret: string, body: string, timestamp: Int64) returns (header: string)
    ensures header ==
      "t=" + Decimal(timestamp) + ",v1=" + HexEncode(hmac(secret, Decimal(timestamp) + "." + body))
  {
    var mac := Decimal(timestamp) + "." + body;
    header := "t=" + Decimal(timestamp) + ",v1=" + HexEncode(hmac(secret, mac));
  }

  /** What the header must say to be accepted. */
  ghost predicate Accepts(hmac: Hmac, secret: string, body: string, header: string, tolerance: Int64, now: Instant) {
    AcceptsSegments(hmac, secret, body, Split(header, ','), tolerance, now)
  }

  ghost predicate AcceptsSegments(hmac: Hmac, secret: string, body: string, segments: seq<string>,
                                  tolerance: Int64, now: Instant)
  {
    var t := LastTimestamp(segments);
    && t != ""
    && (tolerance > 0 ==> Fresh(now, t, tolerance))
    && SomeSigns(segments, hmac(secret, t + "." + body))
  }

  ghost predicate SomeSigns(segments: seq<string>, expected: seq<Byte>) {
    exists i :: 0 <= i < |segments| && Signs(segments[i], expected)
  }

  /** The values of the "v1" segments that are not empty. */
  function Candidates(segments: seq<string>): seq<string> {
    if segments == [] then []
    else
      var last := segments[|segments| - 1];
      Candidates(segments[..|segments| - 1])
        + if HasKey(last, "v1") && KeyValue(last).value.1 != "" then [KeyValue(last).value.1] else []
  }

  lemma {:induction false} SomeCandidateSigns(segments: seq<string>, expected: seq<Byte>)
    ensures SomeSigns(segments, expected)
      <==> exists i :: 0 <= i < |Candidates(segments)| && HexDecode(Candidates(segments)[i]) == Some(expected)
  {
    if segments != [] {
      var init := segments[..|segments| - 1];
      var last := segments[|segments| - 1];
      SomeCandidateSigns(init, expected);
      assert Candidates(segments)[..|Candidates(init)|] == Candidates(init);
      if SomeSigns(init, expected) {
        var i :| 0 <= i < |init| && Signs(init[i], expected);
        assert Signs(segments[i], expected);
        var j :| 0 <= j < |Candidates(init)| && HexDecode(Candidates(init)[j]) == Some(expected);
        assert HexDecode(Candidates(segments)[j]) == Some(expected);
      } else if Signs(last, expected) {
        assert HexDecode(Candidates(segments)[|Candidates(init)|]) == Some(expected);
      }
    }
  }

  lemma {:induction false} CandidatesAreNotEmpty(segments: seq<string>)
    ensures "" !in Candidates(segments)
  {
    if segments != [] {
      CandidatesAreNotEmpty(segments[..|segments| - 1]);
    }
  }

  /** The loop that reads the header. */
  method ReadSegments(segments: seq<string>) returns (t: string, signatures: seq<string>)
    ensures t == LastTimestamp(segments) && signatures == Candidates(segments)
  {
    t, signatures := "", [];
    for i := 0 to |segments|
      invariant t == LastTimestamp(segments[..i])
      invariant signatures == Candidates(segments[..i])
    {
      assert segments[..i + 1][..i] == segments[..i];
      var cut := KeyValue(segments[i]);
      if cut.None? {
        continue;
      }
      var (key, value) := cut.value;
      if key == "t" {
        t := value;
      } else if key == "v1" {
        if value != "" {
          signatures := signatures + [value];
        }
      }
    }
    assert segments[..|segments|] == segments;
  }

  /** The verifier accepts a header exactly if its last "t" is not empty, is fresh where the replay
      check is on, and some "v1" decodes to the signature of that "t" and the body. */
  method VerifySignatureWithTolerance(
    hmac: Hmac, secret: string, body: string, header: string, tolerance: Int64, now: Instant)
    returns (ok: bool)
    ensures ok <==> Accepts(hmac, secret, body, header, tolerance, now)
    ensures ok ==>
      var expected := hmac(secret, LastTimestamp(Split(header, ',')) + "." + body);
      exists v :: v in Candidates(Split(header, ',')) && v != "" && HexDecode(v) == Some(expected)
  {
    var t, signatures := ReadSegments(Split(header, ','));
    var expected := hmac(secret, t + "." + body);
    SomeCandidateSigns(Split(header, ','), expected);
    if t == "" || signatures == [] {
      return false;
    }
    if tolerance > 0 {
      var ts := ParseInt64(t);
      if ts.None? {
        return false;
      }
      if Age(now, ts.value) > tolerance {
        return false;
      }
    }
    for i := 0 to |signatures|
      invariant forall j :: 0 <= j < i ==> HexDecode(signatures[j]) != Some(expected)
    {
      if HexDecode(signatures[i]) == Some(expected) {
        CandidatesAreNotEmpty(Split(header, ','));
        return true;
      }
    }
    return false;
  }

  // ---- round trip ---------------------------------------------------------------------------------------

  lemma {:induction false} CutKey(key: string, value: string)
    requires '=' !in key
    ensures Cut(key + "=" + value) == Some((key, value))
  {
    var s := key + "=" + value;
    if key == "" {
      assert s == "=" + value && s[0] == '=' && s[1..] == value;
    } else {
      assert s[0] == key[0] && s[1..] == key[1..] + "=" + value && [key[0]] + key[1..] == key;
      CutKey(key[1..], value);
    }
  }

  /** `segment` is `key=value` with white space around it. */
  ghost predicate IsSegment(segment: string, key: string, value: string) {
    exists left: string, right: string ::
      AllSpace(left) && AllSpace(right) && segment == left + (key + "=" + value) + right
  }

  lemma SegmentReads(segment: string, key: string, value: string)
    requires IsSegment(segment, key, value)
    requires key != "" && !IsSpace(key[0]) && '=' !in key
    requires value != "" && Trimmed(value)
    ensures KeyValue(segment) == Some((key, value))
  {
    var left: string, right: string :|
      AllSpace(left) && AllSpace(right) && segment == left + (key + "=" + value) + right;
    TrimSpacePadded(left, key + "=" + value, right);
    CutKey(key, value);
  }

  /** The last of the "t" segments decides. */
  lemma {:induction false} LastTimestampAt(segments: seq<string>, i: nat)
    requires i < |segments| && HasKey(segments[i], "t")
    requires forall k :: i < k < |segments| ==> !HasKey(segments[k], "t")
    ensures LastTimestamp(segments) == KeyValue(segments[i]).value.1
  {
    if i < |segments| - 1 {
      LastTimestampAt(segments[..|segments| - 1], i);
    }
  }

  lemma {:induction false} FindLastTimestamp(segments: seq<string>) returns (i: nat)
    requires exists k :: 0 <= k < |segments| && HasKey(segments[k], "t")
    ensures i < |segments| && HasKey(segments[i], "t")
    ensures forall k :: i < k < |segments| ==> !HasKey(segments[k], "t")
  {
    var n := |segments| - 1;
    if HasKey(segments[n], "t") {
      i := n;
    } else {
      var init := segments[..n];
      var k :| 0 <= k < |segments| && HasKey(segments[k], "t");
      assert HasKey(init[k], "t");
      i := FindLastTimestamp(init);
      forall k | i < k < |segments| ensures !HasKey(segments[k], "t") {
        assert k < n ==> segments[k] == init[k];
      }
    }
  }

  lemma {:induction false} NoTimestamp(segments: seq<string>)
    requires LastTimestamp(segments) != ""
    ensures exists k :: 0 <= k < |segments| && HasKey(segments[k], "t")
  {
    var n := |segments| - 1;
    if !HasKey(segments[n], "t") {
      NoTimestamp(segments[..n]);
      var k :| 0 <= k < n && HasKey(segments[..n][k], "t");
      assert HasKey(segments[k], "t");
    }
  }

  /** Some segment is "t=" with the timestamp, and no other timestamp is there. */
  ghost predicate CarriesTimestamp(segments: seq<string>, ts: Int64) {
    && (exists i :: 0 <= i < |segments| && IsSegment(segments[i], "t", Decimal(ts)))
    && forall i :: 0 <= i < |segments| && HasKey(segments[i], "t") ==> IsSegment(segments[i], "t", Decimal(ts))
  }

  /** Some segment is "v1=" with this signature in hexadecimal. */
  ghost predicate CarriesSignature(segments: seq<string>, signature: seq<Byte>) {
    exists i :: 0 <= i < |segments| && IsSegment(segments[i], "v1", HexEncode(signature))
  }

  lemma TimestampIsRead(segments: seq<string>, ts: Int64)
    requires CarriesTimestamp(segments, ts)
    ensures LastTimestamp(segments) == Decimal(ts)
  {
    var t := Decimal(ts);
    forall i | 0 <= i < |segments| && IsSegment(segments[i], "t", t)
      ensures KeyValue(segments[i]) == Some(("t", t))
    {
      SegmentReads(segments[i], "t", t);
    }
    var k :| 0 <= k < |segments| && IsSegment(segments[k], "t", t);
    assert HasKey(segments[k], "t");
    var i := FindLastTimestamp(segments);
    LastTimestampAt(segments, i);
  }

  lemma SignatureIsRead(segments: seq<string>, signature: seq<Byte>)
    requires CarriesSignature(segments, signature) && signature != []
    ensures SomeSigns(segments, signature)
  {
    HexDecodeInvertsEncode(signature);
    var i :| 0 <= i < |segments| && IsSegment(segments[i], "v1", HexEncode(signature));
    SegmentReads(segments[i], "v1", HexEncode(signature));
    assert Signs(segments[i], signature);
  }

  /** Signing and verifying, with secret rotation. Take any header that joins, in any order and
      with any white space around each, segments among which there is the timestamp, no other
      timestamp, and the signature under each active secret: it is accepted under every one of
      those secrets, whenever the timestamp is within the tolerance of now. Segments of other kinds
      do not matter. */
  lemma SignedHeaderIsAccepted(hmac: Hmac, secrets: seq<string>, secret: string, body: string, ts: Int64,
                               segments: seq<string>, tolerance: Int64, now: Instant)
    requires secret in secrets
    requires forall i :: 0 <= i < |segments| ==> ',' !in segments[i]
    requires CarriesTimestamp(segments, ts)
    requires forall k :: k in secrets ==> CarriesSignature(segments, hmac(k, Decimal(ts) + "." + body))
    requires forall k :: k in secrets ==> hmac(k, Decimal(ts) + "." + body) != []
    requires ClockReading(now) && (tolerance > 0 ==> 0 - tolerance <= Elapsed(now, ts) <= tolerance)
    ensures Accepts(hmac, secret, body, Join(segments, ","), tolerance, now)
  {
    SplitJoin(segments, ',');
    TimestampIsRead(segments, ts);
    if tolerance > 0 {
      ParseInt64InvertsDecimal(ts);
      ReplayWindow(now, ts, tolerance);
    }
    SignatureIsRead(segments, hmac(secret, Decimal(ts) + "." + body));
  }

  /** In particular the header that ComputeSignature makes. */
  lemma ComputedHeaderIsAccepted(hmac: Hmac, secret: string, body: string, ts: Int64, tolerance: Int64, now: Instant)
    requires hmac(secret, Decimal(ts) + "." + body) != []
    requires ClockReading(now) && (tolerance > 0 ==> 0 - tolerance <= Elapsed(now, ts) <= tolerance)
    ensures Accepts(hmac, secret, body,
              "t=" + Decimal(ts) + ",v1=" + HexEncode(hmac(secret, Decimal(ts) + "." + body)), tolerance, now)
  {
    var t, v := Decimal(ts), HexEncode(hmac(secret, Decimal(ts) + "." + body));
    HexDecodeInvertsEncode(hmac(secret, t + "." + body));
    var segments := ["t=" + t, "v1=" + v];
    BareSegment("t", t);
    BareSegment("v1", v);
    assert "t" + "=" == "t=" && "v1" + "=" == "v1=";
    assert IsSegment(segments[0], "t", t) && IsSegment(segments[1], "v1", v);
    SegmentReads(segments[1], "v1", v);
    SignedHeaderIsAccepted(hmac, [secret], secret, body, ts, segments, tolerance, now);
    assert "," + "v1=" == ",v1=";
    JoinTwo("t=" + t, "v1=", v);
  }

  lemma JoinTwo(first: string, key: string, value: string)
    ensures Join([first, key + value], ",") == first + ("," + key) + value
  {
    assert Join([key + value], ",") == key + value;
    assert first + "," + (key + value) == first + ("," + key) + value;
  }

  lemma BareSegment(key: string, value: string)
    ensures IsSegment(key + "=" + value, key, value)
  {
    var core := key + "=" + value;
    assert core == "" + core + "" && AllSpace("");
  }

  // ---- what acceptance proves ----------------------------------------------------------------------------

  /** An accepted header has a last "t" segment with some value, which with the replay check on is a
      timestamp within the window, and a "v1" segment whose value decodes to the hash of that value,
      a point and the body. */
  lemma AcceptedIsSigned(hmac: Hmac, secret: string, body: string, header: string, tolerance: Int64, now: Instant)
    returns (i: nat, j: nat, t: string, v: string)
    requires Accepts(hmac, secret, body, header, tolerance, now)
    ensures var segments := Split(header, ',');
      && i < |segments| && j < |segments|
      && KeyValue(segments[i]) == Some(("t", t)) && (forall k :: i < k < |segments| ==> !HasKey(segments[k], "t"))
      && KeyValue(segments[j]) == Some(("v1", v))
    ensures t != "" && v != "" && HexDecode(v) == Some(hmac(secret, t + "." + body))
    ensures tolerance > 0 && ClockReading(now) ==> ParseInt64(t).Some? && InWindow(now, ParseInt64(t).value, tolerance)
  {
    var segments := Split(header, ',');
    t := LastTimestamp(segments);
    NoTimestamp(segments);
    i := FindLastTimestamp(segments);
    LastTimestampAt(segments, i);
    j :| 0 <= j < |segments| && Signs(segments[j], hmac(secret, t + "." + body));
    v := KeyValue(segments[j]).value.1;
    if tolerance > 0 && ClockReading(now) {
      ReplayWindow(now, ParseInt64(t).value, tolerance);
    }
  }

  /** And every such header is accepted. */
  lemma SignedIsAccepted(hmac: Hmac, secret: string, body: string, header: string, tolerance: Int64, now: Instant,
                         i: nat, j: nat, t: string, v: string)
    requires var segments := Split(header, ',');
      && i < |segments| && j < |segments|
      && KeyValue(segments[i]) == Some(("t", t)) && (forall k :: i < k < |segments| ==> !HasKey(segments[k], "t"))
      && KeyValue(segments[j]) == Some(("v1", v))
    requires t != "" && v != "" && HexDecode(v) == Some(hmac(secret, t + "." + body))
    requires ClockReading(now)
    requires tolerance > 0 ==> ParseInt64(t).Some? && InWindow(now, ParseInt64(t).value, tolerance)
    ensures Accepts(hmac, secret, body, header, tolerance, now)
  {
    var segments := Split(header, ',');
    LastTimestampAt(segments, i);
    assert Signs(segments[j], hmac(secret, t + "." + body));
    if tolerance > 0 {
      ReplayWindow(now, ParseInt64(t).value, tolerance);
    }
  }

  /** The signed text tells timestamp and body apart, as long as no timestamp holds a point. */
  lemma SignedTextIsInjective(t: string, body: string, t': string, body': string)
    requires '.' !in t && '.' !in t'
    ensures t + "." + body == t' + "." + body' <==> t == t' && body == body'
  {
    var s, s' := t + "." + body, t' + "." + body';
    if s == s' {
      SplitFirst(t, '.', body);
      SplitFirst(t', '.', body');
      assert t == Split(s, '.')[0] && t' == Split(s', '.')[0];
      assert body == s[|t| + 1..] && body' == s'[|t| + 1..];
    }
  }

  lemma ParsedHasNoPoint(s: string)
    requires ParseInt64(s).Some?
    ensures '.' !in s
  {
    var digits := if s[0] in {'+', '-'} then s[1..] else s;
    ParseDigitsExactly(digits);
    assert forall i :: 0 < i < |s| && digits == s[1..] ==> s[i] == digits[i - 1];
  }

  /** With the replay check on a signature is good for one timestamp and one body only: if every
      "v1" of an accepted header that decodes at all is the signature of `body` at `ts`, and no other
      text has that hash, then the header is for that body, its timestamp is written as it was
      signed, and it is within the window. */
  lemma SignatureBindsTimestampAndBody(hmac: Hmac, secret: string, body: string, ts: Int64, header: string,
                                       accepted: string, tolerance: Int64, now: Instant)
    requires tolerance > 0 && ClockReading(now)
    requires forall m: string :: hmac(secret, m) == hmac(secret, Decimal(ts) + "." + body) ==> m == Decimal(ts) + "." + body
    requires var signature := hmac(secret, Decimal(ts) + "." + body);
      forall v :: v in Candidates(Split(header, ',')) && HexDecode(v).Some? ==> HexDecode(v).value == signature
    requires Accepts(hmac, secret, accepted, header, tolerance, now)
    ensures accepted == body
    ensures LastTimestamp(Split(header, ',')) == Decimal(ts) && InWindow(now, ts, tolerance)
  {
    var segments := Split(header, ',');
    var t := LastTimestamp(segments);
    SomeCandidateSigns(segments, hmac(secret, t + "." + accepted));
    ParsedHasNoPoint(t);
    ParseInt64InvertsDecimal(ts);
    ParsedHasNoPoint(Decimal(ts));
    SignedTextIsInjective(t, accepted, Decimal(ts), body);
    ReplayWindow(now, ts, tolerance);
  }

  // ---- segments of other kinds ------------------------------------------------------------------------

  predicate Unknown(segment: string) {
    !HasKey(segment, "t") && !HasKey(segment, "v1")
  }

  lemma {:induction false} LastTimestampIgnores(xs: seq<string>, unknown: string, ys: seq<string>)
    requires Unknown(unknown)
    ensures LastTimestamp(xs + [unknown] + ys) == LastTimestamp(xs + ys)
    decreases |ys|
  {
    var with, without := xs + [unknown] + ys, xs + ys;
    if ys == [] {
      assert with[..|with| - 1] == xs && without == xs;
    } else {
      var n := |ys| - 1;
      assert with[..|with| - 1] == xs + [unknown] + ys[..n] && without[..|without| - 1] == xs + ys[..n];
      LastTimestampIgnores(xs, unknown, ys[..n]);
    }
  }

  lemma SignersIgnore(xs: seq<string>, unknown: string, ys: seq<string>, expected: seq<Byte>)
    requires Unknown(unknown)
    ensures SomeSigns(xs + [unknown] + ys, expected) <==> SomeSigns(xs + ys, expected)
  {
    var with, without := xs + [unknown] + ys, xs + ys;
    if SomeSigns(with, expected) {
      var i :| 0 <= i < |with| && Signs(with[i], expected);
      var k := if i < |xs| then i else i - 1;
      assert i != |xs| && without[k] == with[i];
    }
    if SomeSigns(without, expected) {
      var i :| 0 <= i < |without| && Signs(without[i], expected);
      var k := if i < |xs| then i else i + 1;
      assert with[k] == without[i];
    }
  }

  /** A segment without a key, or with another key, never changes the outcome, wherever it is. */
  lemma UnknownSegmentsAreIgnored(hmac: Hmac, secret: string, body: string, xs: seq<string>, unknown: string,
                                  ys: seq<string>, tolerance: Int64, now: Instant)
    requires Unknown(unknown) && ',' !in unknown
    requires forall i :: 0 <= i < |xs| ==> ',' !in xs[i]
    requires forall i :: 0 <= i < |ys| ==> ',' !in ys[i]
    ensures Accepts(hmac, secret, body, Join(xs + [unknown] + ys, ","), tolerance, now)
      <==> Accepts(hmac, secret, body, Join(xs + ys, ","), tolerance, now)
  {
    AcceptsJoined(hmac, secret, body, xs + [unknown] + ys, tolerance, now);
    SegmentsIgnore(hmac, secret, body, xs, unknown, ys, tolerance, now);
    AcceptsJoined(hmac, secret, body, xs + ys, tolerance, now);
  }

  /** A header is read as the segments that were joined. */
  lemma AcceptsJoined(hmac: Hmac, secret: string, body: string, segments: seq<string>, tolerance: Int64, now: Instant)
    requires forall i :: 0 <= i < |segments| ==> ',' !in segments[i]
    ensures Accepts(hmac, secret, body, Join(segments, ","), tolerance, now)
      <==> AcceptsSegments(hmac, secret, body, segments, tolerance, now)
  {
    if segments == [] {
      NothingToAccept(hmac, secret, body, tolerance, now);
    } else {
      SplitJoin(segments, ',');
    }
  }

  lemma SegmentsIgnore(hmac: Hmac, secret: string, body: string, xs: seq<string>, unknown: string, ys: seq<string>,
                       tolerance: Int64, now: Instant)
    requires Unknown(unknown)
    ensures AcceptsSegments(hmac, secret, body, xs + [unknown] + ys, tolerance, now)
      <==> AcceptsSegments(hmac, secret, body, xs + ys, tolerance, now)
  {
    LastTimestampIgnores(xs, unknown, ys);
    SignersIgnore(xs, unknown, ys, hmac(secret, LastTimestamp(xs + ys) + "." + body));
  }

  lemma NothingToAccept(hmac: Hmac, secret: string, body: string, tolerance: Int64, now: Instant)
    ensures !Accepts(hmac, secret, body, "", tolerance, now)
    ensures !AcceptsSegments(hmac, secret, body, [], tolerance, now)
  {
  }
}

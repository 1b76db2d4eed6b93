/** The `Stripe-Signature` header: printing, parsing and verification (webhook.go). */
module StripeSignature {
  import opened Wrappers
  import opened Model
  import opened Text
  import Decimal

  const MAX_HEADER_BYTES := 8 * 1024
  const MAX_PARTS := 32
  const MAX_MACS := 16
  const MAC_SIZE := 32
  const MAX_INT64 := 0x7fff_ffff_ffff_ffff

  /** HMAC-SHA256 by secret and message; nothing is assumed of it but its length. */
  type Mac = (string, string) -> Bytes

  datatype Signature = Signature(timestamp: int, macs: seq<Bytes>)

  // ------------------------------------------------------------ hexadecimal

  function HexEncode(bytes: Bytes): string {
    if bytes == [] then ""
    else
      var b := bytes[0] as int;
      [HexDigit(b / 16), HexDigit(b % 16)] + HexEncode(bytes[1..])
  }

  function HexByte(high: char, low: char): Option<byte> {
    match (HexValue(high), HexValue(low))
    case (Some(h), Some(l)) => if h < 16 && l < 16 then Some((h * 16 + l) as byte) else None
    case _ => None
  }

  /** hex.DecodeString: either case, even length. */
  function HexDecode(s: string): Option<Bytes> {
    if s == "" then Some([])
    else if |s| == 1 then None
    else
      match (HexByte(s[0], s[1]), HexDecode(s[2..]))
      case (Some(b), Some(rest)) => Some([b] + rest)
      case _ => None
  }

  predicate HexText(s: string) {
    forall i | 0 <= i < |s| :: Decimal.IsDigit(s[i]) || 'a' <= s[i] <= 'f'
  }

  lemma {:induction false} HexRoundTrip(bytes: Bytes)
    ensures HexDecode(HexEncode(bytes)) == Some(bytes)
    ensures HexText(HexEncode(bytes)) && |HexEncode(bytes)| == 2 * |bytes|
  {
    if bytes != [] {
      HexRoundTrip(bytes[1..]);
      var s, b := HexEncode(bytes), bytes[0] as int;
      assert s[2..] == HexEncode(bytes[1..]);
      assert HexByte(s[0], s[1]) == Some(bytes[0]);
      assert [bytes[0]] + bytes[1..] == bytes;
    }
  }

  // ----------------------------------------------------------------- fields

  /** strings.Cut at the first `=` */
  function Cut(s: string): Option<(string, string)> {
    if '=' !in s then None
    else
      var i := IndexOf(s, '=');
      Some((s[..i], s[i + 1..]))
  }

  /** strconv.ParseInt(s, 10, 64) */
  function ParseInt(s: string): Option<int> {
    var negative := s != "" && s[0] == '-';
    var digits := if s != "" && s[0] in "+-" then s[1..] else s;
    if digits == "" || !Decimal.AllDigits(digits) then None
    else
      var magnitude: int := Decimal.Read(digits);
      var value := if negative then -magnitude else magnitude;
      if -MAX_INT64 - 1 <= value <= MAX_INT64 then Some(value) else None
  }

  datatype Part = TimestampPart(value: int) | MacPart(mac: Bytes) | OtherPart | Malformed

  function ReadPart(text: string): Part {
    match Cut(TrimSpace(text))
    case None => Malformed
    case Some((key, value)) =>
      if key == "t" then
        var parsed := ParseInt(value);
        if parsed.Some? && parsed.value > 0 then TimestampPart(parsed.value) else Malformed
      else if key == "v1" then
        var decoded := HexDecode(value);
        if decoded.Some? && |decoded.value| == MAC_SIZE then MacPart(decoded.value) else Malformed
      else OtherPart
  }

  function ReadParts(texts: seq<string>): seq<Part> {
    seq(|texts|, i requires 0 <= i < |texts| => ReadPart(texts[i]))
  }

  function Timestamps(parts: seq<Part>): seq<int> {
    if parts == [] then []
    else
      var rest := Timestamps(parts[..|parts| - 1]);
      if parts[|parts| - 1].TimestampPart? then rest + [parts[|parts| - 1].value] else rest
  }

  function Macs(parts: seq<Part>): seq<Bytes> {
    if parts == [] then []
    else
      var rest := Macs(parts[..|parts| - 1]);
      if parts[|parts| - 1].MacPart? then rest + [parts[|parts| - 1].mac] else rest
  }

  /** A header is read as a whole: no malformed part, one timestamp, 1 to 16 MACs in order. */
  function ParseSignature(header: string): Option<Signature> {
    var parts := ReadParts(Split(header, ','));
    if && header != "" && ByteLength(header) <= MAX_HEADER_BYTES && |parts| <= MAX_PARTS
       && Malformed !in parts && |Timestamps(parts)| == 1 && 1 <= |Macs(parts)| <= MAX_MACS
    then Some(Signature(Timestamps(parts)[0], Macs(parts)))
    else None
  }

  /** parseStripeSignature */
  method ParseStripeSignature(header: string) returns (r: Option<Signature>)
    ensures r == ParseSignature(header)
  {
    if header == "" || ByteLength(header) > MAX_HEADER_BYTES {
      return None;
    }
    var texts := Split(header, ',');
    if |texts| > MAX_PARTS {
      return None;
    }
    r := CollectParts(ReadParts(texts));
  }

  /** One pass over the parts, giving up at the first bad one. */
  method CollectParts(parts: seq<Part>) returns (r: Option<Signature>)
    ensures r ==
      if Malformed !in parts && |Timestamps(parts)| == 1 && 1 <= |Macs(parts)| <= MAX_MACS
      then Some(Signature(Timestamps(parts)[0], Macs(parts)))
      else None
  {
    var timestamp, timestampCount := 0, 0;
    var signatures: seq<Bytes> := [];
    for i := 0 to |parts|
      invariant Malformed !in parts[..i]
      invariant timestampCount == |Timestamps(parts[..i])|
      invariant timestampCount > 0 ==> timestamp == Timestamps(parts[..i])[timestampCount - 1]
      invariant signatures == Macs(parts[..i]) && |signatures| <= MAX_MACS
    {
      assert parts[..i + 1][..i] == parts[..i];
      match parts[i]
      case Malformed =>
        return None;
      case TimestampPart(parsed) =>
        timestamp, timestampCount := parsed, timestampCount + 1;
      case MacPart(decoded) =>
        if |signatures| >= MAX_MACS {
          MacsGrow(parts, i + 1);
          return None;
        }
        signatures := signatures + [decoded];
      case OtherPart =>
    }
    assert parts[..|parts|] == parts;
    if timestampCount != 1 || |signatures| == 0 {
      return None;
    }
    return Some(Signature(timestamp, signatures));
  }

  lemma {:induction false} MacsGrow(parts: seq<Part>, i: nat)
    requires i <= |parts|
    ensures |Macs(parts[..i])| <= |Macs(parts)|
  {
    if i < |parts| {
      MacsGrow(parts[..|parts| - 1], i);
      assert parts[..|parts| - 1][..i] == parts[..i];
    } else {
      assert parts[..i] == parts;
    }
  }

  // ------------------------------------------------------------ verification

  function UnixSeconds(t: Time): int {
    t / SECOND
  }

  function PrintInt(n: int): string {
    if n < 0 then "-" + Decimal.Print(-n) else Decimal.Print(n)
  }

  function SignedMessage(timestamp: int, payload: string): string {
    PrintInt(timestamp) + "." + payload
  }

  predicate Timely(timestamp: int, now: Time) {
    UnixSeconds(now - WEBHOOK_TOLERANCE) <= timestamp <= UnixSeconds(now + WEBHOOK_TOLERANCE)
  }

  predicate SignatureAccepted(mac: Mac, payload: string, header: string, secrets: seq<string>, now: Time) {
    var parsed := ParseSignature(header);
    && parsed.Some?
    && Timely(parsed.value.timestamp, now)
    && exists secret | secret in secrets ::
         mac(secret, SignedMessage(parsed.value.timestamp, payload)) in parsed.value.macs
  }

  /** verifyStripeSignature */
  method VerifyStripeSignature(mac: Mac, payload: string, header: string, secrets: seq<string>, now: Time)
    returns (accepted: bool)
    ensures accepted == SignatureAccepted(mac, payload, header, secrets, now)
  {
    var parsed := ParseStripeSignature(header);
    if parsed.None? {
      return false;
    }
    var timestamp := parsed.value.timestamp;
    var matched := MatchSecrets(mac, SignedMessage(timestamp, payload), secrets, parsed.value.macs);
    return matched
        && !(timestamp < UnixSeconds(now - WEBHOOK_TOLERANCE) || timestamp > UnixSeconds(now + WEBHOOK_TOLERANCE));
  }

  /** Every secret is tried against every candidate. */
  method MatchSecrets(mac: Mac, signed: string, secrets: seq<string>, signatures: seq<Bytes>) returns (matched: bool)
    ensures matched <==> exists secret | secret in secrets :: mac(secret, signed) in signatures
  {
    matched := false;
    for i := 0 to |secrets|
      invariant matched <==> exists s | 0 <= s < i :: mac(secrets[s], signed) in signatures
    {
      var expected := mac(secrets[i], signed);
      var before := matched;
      for j := 0 to |signatures|
        invariant matched <==> before || expected in signatures[..j]
      {
        if expected == signatures[j] {
          matched := true;
        }
      }
      assert signatures[..|signatures|] == signatures;
    }
  }

  // -------------------------------------------------------------- round trip

  function PrintHeader(timestamp: int, mac: Bytes): string {
    "t=" + PrintInt(timestamp) + ",v1=" + HexEncode(mac)
  }

  function SignatureHeader(mac: Mac, secret: string, timestamp: int, payload: string): string {
    PrintHeader(timestamp, mac(secret, SignedMessage(timestamp, payload)))
  }

  lemma CutAtFirst(key: string, value: string)
    requires '=' !in key
    ensures Cut(key + "=" + value) == Some((key, value))
  {
    var s := key + "=" + value;
    assert s[..|key|] == key && s[|key| + 1..] == value;
    FirstIndex(s, '=', |key|);
  }

  lemma SplitInTwo(a: string, b: string)
    requires ',' !in a && ',' !in b
    ensures Split(a + "," + b, ',') == [a, b]
  {
    var s := a + "," + b;
    assert s[..|a|] == a && s[|a| + 1..] == b;
    FirstIndex(s, ',', |a|);
    assert Split(b, ',') == [b];
  }

  lemma ParsePrinted(n: int)
    requires 0 < n <= MAX_INT64
    ensures ParseInt(PrintInt(n)) == Some(n)
  {
    Decimal.ReadPrint(n);
    var s := Decimal.Print(n);
    assert s[0] in s && s[0] !in "+-";
  }

  lemma FieldReadsBack(key: string, value: string)
    requires key != "" && value != "" && '=' !in key
    requires !IsSpace(key[0]) && !IsSpace(value[|value| - 1])
    ensures Cut(TrimSpace(key + "=" + value)) == Some((key, value))
  {
    var s := key + "=" + value;
    assert s[0] == key[0] && s[|s| - 1] == value[|value| - 1];
    TrimSpaceKeepsTrimmed(s);
    CutAtFirst(key, value);
  }

  lemma TimestampValue(value: string, n: int)
    requires ParseInt(value) == Some(n) && n > 0
    requires value != "" && Decimal.AllDigits(value)
    ensures ReadPart("t=" + value) == TimestampPart(n)
    ensures ',' !in "t=" + value
  {
    assert value[|value| - 1] in value;
    FieldReadsBack("t", value);
    assert "t=" + value == "t" + "=" + value;
  }

  lemma TimestampField(n: int)
    requires 0 < n <= MAX_INT64
    ensures ReadPart("t=" + PrintInt(n)) == TimestampPart(n)
    ensures ',' !in "t=" + PrintInt(n)
  {
    ParsePrinted(n);
    TimestampValue(PrintInt(n), n);
  }

  lemma MacValue(value: string, mac: Bytes)
    requires HexDecode(value) == Some(mac) && |mac| == MAC_SIZE
    requires value != "" && HexText(value)
    ensures ReadPart("v1=" + value) == MacPart(mac)
  {
    FieldReadsBack("v1", value);
    assert "v1=" + value == "v1" + "=" + value;
  }

  lemma MacField(mac: Bytes)
    requires |mac| == MAC_SIZE
    ensures ReadPart("v1=" + HexEncode(mac)) == MacPart(mac)
    ensures ',' !in "v1=" + HexEncode(mac)
  {
    HexRoundTrip(mac);
    MacValue(HexEncode(mac), mac);
  }

  lemma PrintedHeaderIsShort(timestamp: int, mac: Bytes)
    requires 0 < timestamp <= MAX_INT64 && |mac| == MAC_SIZE
    ensures ByteLength(PrintHeader(timestamp, mac)) <= MAX_HEADER_BYTES
  {
    HexRoundTrip(mac);
    Decimal.Pow10Of20();
    Decimal.PrintLength(timestamp, 20);
    var digits := Decimal.Print(timestamp);
    assert forall i | 0 <= i < |digits| :: digits[i] in digits;
    AsciiLength(PrintHeader(timestamp, mac));
  }

  lemma ReadTwo(a: string, b: string, first: Part, second: Part)
    requires ReadPart(a) == first && ReadPart(b) == second
    ensures ReadParts([a, b]) == [first, second]
  {
  }

  /** A printed header is its two fields. */
  lemma FieldsOfHeader(timestamp: int, mac: Bytes)
    requires 0 < timestamp <= MAX_INT64 && |mac| == MAC_SIZE
    ensures Split(PrintHeader(timestamp, mac), ',') == ["t=" + PrintInt(timestamp), "v1=" + HexEncode(mac)]
  {
    var a, b := "t=" + PrintInt(timestamp), "v1=" + HexEncode(mac);
    TimestampField(timestamp);
    MacField(mac);
    SplitInTwo(a, b);
    HeaderText(PrintInt(timestamp), HexEncode(mac));
  }

  lemma HeaderText(digits: string, hex: string)
    ensures "t=" + digits + ",v1=" + hex == ("t=" + digits) + "," + ("v1=" + hex)
  {
    assert ",v1=" == "," + "v1=";
  }

  lemma PartsOfHeader(timestamp: int, mac: Bytes)
    requires 0 < timestamp <= MAX_INT64 && |mac| == MAC_SIZE
    ensures ReadParts(Split(PrintHeader(timestamp, mac), ',')) == [TimestampPart(timestamp), MacPart(mac)]
  {
    FieldsOfHeader(timestamp, mac);
    TimestampField(timestamp);
    MacField(mac);
    ReadTwo("t=" + PrintInt(timestamp), "v1=" + HexEncode(mac), TimestampPart(timestamp), MacPart(mac));
  }

  /** What a short header with these two parts parses to. */
  lemma ParseOfParts(header: string, first: Part, second: Part)
    requires header != "" && ByteLength(header) <= MAX_HEADER_BYTES
    requires ReadParts(Split(header, ',')) == [first, second] && first.TimestampPart? && second.MacPart?
    ensures ParseSignature(header) == Some(Signature(first.value, [second.mac]))
  {
    TwoParts(first, second);
  }

  /** Parsing a printed header gives back the timestamp and the one MAC. */
  lemma HeaderRoundTrip(timestamp: int, mac: Bytes)
    requires 0 < timestamp <= MAX_INT64 && |mac| == MAC_SIZE
    ensures ParseSignature(PrintHeader(timestamp, mac)) == Some(Signature(timestamp, [mac]))
  {
    PrintedHeaderIsShort(timestamp, mac);
    PartsOfHeader(timestamp, mac);
    ParseOfParts(PrintHeader(timestamp, mac), TimestampPart(timestamp), MacPart(mac));
  }

  lemma TwoParts(first: Part, second: Part)
    requires first.TimestampPart? && second.MacPart?
    ensures Timestamps([first, second]) == [first.value]
    ensures Macs([first, second]) == [second.mac]
  {
    var parts := [first, second];
    assert parts[..1] == [first] && [first][..0] == [];
    assert Timestamps([first]) == [first.value] && Macs([first]) == [];
  }

  /** For a secret list containing the signer's, a printed header is accepted exactly within 300 s of now. */
  lemma PrintedHeaderAcceptedIffTimely(
    mac: Mac, secret: string, secrets: seq<string>, timestamp: int, payload: string, now: Time)
    requires 0 < timestamp <= MAX_INT64
    requires |mac(secret, SignedMessage(timestamp, payload))| == MAC_SIZE
    requires secret in secrets
    ensures SignatureAccepted(mac, payload, SignatureHeader(mac, secret, timestamp, payload), secrets, now)
       <==> -300 <= timestamp - UnixSeconds(now) <= 300
  {
    var code := mac(secret, SignedMessage(timestamp, payload));
    HeaderRoundTrip(timestamp, code);
    assert code in [code];
    assert UnixSeconds(now - WEBHOOK_TOLERANCE) == UnixSeconds(now) - 300;
    assert UnixSeconds(now + WEBHOOK_TOLERANCE) == UnixSeconds(now) + 300;
  }
}

/**
 The encoders the clients apply to path arguments: JavaScript's encodeURIComponent and Python's urllib.parse.quote.
 Both write the UTF-8 bytes of what they do not keep as `%` and two hexadecimal digits; they keep different
 characters.
 */
module PercentEncoding {
  import opened Wrappers
  import opened Text

  type Byte = n: nat | n < 256

  /** A character in UTF-8. */
  function Utf8(c: char): (bytes: seq<Byte>)
    ensures |bytes| == EncodedLength(c)
    ensures bytes[0] < 0x80 <==> c < '\U{80}'
  {
    var n := c as nat;
    if n < 0x80 then [n]
    else if n < 0x800 then [0xC0 + n / 64, 0x80 + n % 64]
    else if n < 0x1_0000 then [0xE0 + n / 4096, 0x80 + n / 64 % 64, 0x80 + n % 64]
    else [0xF0 + n / 0x4_0000, 0x80 + n / 4096 % 64, 0x80 + n / 64 % 64, 0x80 + n % 64]
  }

  function Utf8Of(s: string): seq<Byte> {
    if s == "" then [] else Utf8(s[0]) + Utf8Of(s[1..])
  }

  function UpperHex(n: nat): (c: char)
    requires n < 16
    ensures HexValue(c) == Some(n)
  {
    if n < 10 then '0' + (n as char) else 'A' + ((n - 10) as char)
  }

  function Percent(b: Byte): string {
    ['%', UpperHex(b / 16), UpperHex(b % 16)]
  }

  function Percents(bytes: seq<Byte>): string {
    if bytes == [] then "" else Percent(bytes[0]) + Percents(bytes[1..])
  }

  predicate Alphanumeric(c: char) {
    'a' <= c <= 'z' || 'A' <= c <= 'Z' || '0' <= c <= '9'
  }

  predicate Kept(c: char, marks: string) {
    Alphanumeric(c) || c in marks
  }

  function EncodeChar(c: char, marks: string): string {
    if Kept(c, marks) then [c] else Percents(Utf8(c))
  }

  function Encode(s: string, marks: string): string {
    if s == "" then "" else EncodeChar(s[0], marks) + Encode(s[1..], marks)
  }

  // ------------------------------------------------------------- the two encoders

  const TS_MARKS := "-_.!~*'()"
  const PY_MARKS := "-_.~/"

  /** encodeURIComponent */
  function TsEncode(s: string): string {
    Encode(s, TS_MARKS)
  }

  /** urllib.parse.quote, which keeps slashes unless told otherwise. */
  function PyEncode(s: string): string {
    Encode(s, PY_MARKS)
  }

  /** The marks one of them keeps and the other does not. */
  predicate Disputed(c: char) {
    c in "/!*'()"
  }

  predicate Portable(s: string) {
    forall i | 0 <= i < |s| :: !Disputed(s[i])
  }

  lemma OneDispute(c: char)
    ensures EncodeChar(c, TS_MARKS) != "" && EncodeChar(c, PY_MARKS) != ""
    ensures Disputed(c) ==> EncodeChar(c, TS_MARKS)[0] != EncodeChar(c, PY_MARKS)[0]
    ensures !Disputed(c) ==> EncodeChar(c, TS_MARKS) == EncodeChar(c, PY_MARKS)
  {
    assert Percents(Utf8(c))[0] == '%';
  }

  /**
   The encoders agree on exactly the arguments without a disputed mark; where they do not, nothing behind the
   argument can make up for it.
   */
  lemma {:induction false} EncodersAgree(s: string, r: string, r': string)
    ensures TsEncode(s) + r == PyEncode(s) + r' <==> Portable(s) && r == r'
  {
    if s == "" {
      assert "" + r == r && "" + r' == r';
    } else {
      var a, b := EncodeChar(s[0], TS_MARKS), EncodeChar(s[0], PY_MARKS);
      OneDispute(s[0]);
      EncodersAgree(s[1..], r, r');
      PortableOnes(s);
      assert TsEncode(s) + r == a + (TsEncode(s[1..]) + r) && PyEncode(s) + r' == b + (PyEncode(s[1..]) + r');
      InFront(a, b, TsEncode(s[1..]) + r, PyEncode(s[1..]) + r');
    }
  }

  lemma PortableOnes(s: string)
    requires s != ""
    ensures Portable(s) <==> !Disputed(s[0]) && Portable(s[1..])
  {
    assert forall i | 1 <= i < |s| :: s[i] == s[1..][i - 1];
  }

  lemma InFront(a: string, b: string, t: string, t': string)
    requires a != "" && b != ""
    ensures a[0] != b[0] ==> a + t != b + t'
    ensures a == b ==> (a + t == b + t' <==> t == t')
  {
    assert (a + t)[0] == a[0] && (b + t')[0] == b[0];
    assert (a + t)[|a|..] == t && (b + t')[|b|..] == t';
  }

  // -------------------------------------------------------------------- decoding

  /** Percent-decoding to bytes. */
  function Decode(s: string): Option<seq<Byte>>
    decreases |s|
  {
    if s == "" then Some([])
    else if s[0] != '%' then if s[0] < '\U{80}' then Before(s[0] as nat, Decode(s[1..])) else None
    else if |s| < 3 || HexValue(s[1]).None? || HexValue(s[2]).None? then None
    else Before(HexValue(s[1]).value * 16 + HexValue(s[2]).value, Decode(s[3..]))
  }

  function Before(b: nat, rest: Option<seq<Byte>>): Option<seq<Byte>> {
    if rest.Some? && b < 256 then Some([b] + rest.value) else None
  }

  function Joined(bytes: seq<Byte>, rest: Option<seq<Byte>>): Option<seq<Byte>> {
    if rest.Some? then Some(bytes + rest.value) else None
  }

  lemma BeforeJoined(bytes: seq<Byte>, rest: Option<seq<Byte>>)
    requires bytes != []
    ensures Before(bytes[0], Joined(bytes[1..], rest)) == Joined(bytes, rest)
  {
    if rest.Some? {
      assert [bytes[0]] + (bytes[1..] + rest.value) == bytes + rest.value;
    }
  }

  lemma PercentDecodes(b: Byte, rest: string)
    ensures Decode(Percent(b) + rest) == Before(b, Decode(rest))
  {
    var code := Percent(b) + rest;
    assert code[3..] == rest && code[1] == UpperHex(b / 16) && code[2] == UpperHex(b % 16);
  }

  lemma {:induction false} PercentsDecode(bytes: seq<Byte>, more: string)
    ensures Decode(Percents(bytes) + more) == Joined(bytes, Decode(more))
  {
    if bytes == [] {
      assert Percents(bytes) + more == more;
      assert Decode(more).Some? ==> [] + Decode(more).value == Decode(more).value;
    } else {
      var rest := Percents(bytes[1..]) + more;
      assert Percents(bytes) + more == Percent(bytes[0]) + rest;
      PercentDecodes(bytes[0], rest);
      PercentsDecode(bytes[1..], more);
      BeforeJoined(bytes, Decode(more));
    }
  }

  /** What a mark must be for decoding to give it back. */
  predicate PlainMarks(marks: string) {
    forall i | 0 <= i < |marks| :: marks[i] != '%' && marks[i] < '\U{80}'
  }

  lemma CharDecodes(c: char, marks: string, more: string)
    requires PlainMarks(marks)
    ensures Decode(EncodeChar(c, marks) + more) == Joined(Utf8(c), Decode(more))
  {
    if Kept(c, marks) {
      assert ([c] + more)[1..] == more;
    } else {
      PercentsDecode(Utf8(c), more);
    }
  }

  /** Decoding an encoded argument gives its bytes, whichever marks are kept. */
  lemma {:induction false} EncodedDecodes(s: string, marks: string)
    requires PlainMarks(marks)
    ensures Decode(Encode(s, marks)) == Some(Utf8Of(s))
  {
    if s != "" {
      EncodedDecodes(s[1..], marks);
      CharDecodes(s[0], marks, Encode(s[1..], marks));
    }
  }

  /** Where the clients send different texts for an argument, the server decodes both to the argument. */
  lemma BothDecode(s: string)
    ensures Decode(TsEncode(s)) == Decode(PyEncode(s)) == Some(Utf8Of(s))
  {
    MarksArePlain();
    EncodedDecodes(s, TS_MARKS);
    EncodedDecodes(s, PY_MARKS);
  }

  lemma MarksArePlain()
    ensures PlainMarks(TS_MARKS) && PlainMarks(PY_MARKS)
  {
  }

  // --------------------------------------------------------------------- segments

  lemma {:induction false} PercentsHaveNoSlash(bytes: seq<Byte>)
    ensures '/' !in Percents(bytes)
  {
    if bytes != [] {
      PercentsHaveNoSlash(bytes[1..]);
      assert UpperHex(bytes[0] / 16) != '/' && UpperHex(bytes[0] % 16) != '/';
    }
  }

  /** An argument stays within its segment of the path, unless it holds a slash and slashes are kept. */
  lemma {:induction false} SlashesKept(s: string, marks: string)
    ensures '/' in Encode(s, marks) <==> '/' in s && '/' in marks
  {
    if s != "" {
      SlashesKept(s[1..], marks);
      PercentsHaveNoSlash(Utf8(s[0]));
      assert s == [s[0]] + s[1..];
    }
  }

  lemma SegmentsKept(s: string)
    ensures '/' !in TsEncode(s) && ('/' in PyEncode(s) <==> '/' in s)
  {
    SlashesKept(s, TS_MARKS);
    SlashesKept(s, PY_MARKS);
  }
}

/** Character classes and identifier checks the adapter applies to text from outside. */
module Text {
  import opened Wrappers

  /** unicode.IsSpace */
  predicate IsSpace(c: char) {
    || c == ' ' || '\t' <= c <= '\r'
    || c == '\U{85}' || c == '\U{a0}' || c == '\U{1680}' || '\U{2028}' <= c <= '\U{2029}'
    || c == '\U{202f}' || c == '\U{205f}' || c == '\U{3000}'
    || '\U{2000}' <= c <= '\U{200a}'
  }

  /** unicode.IsControl */
  predicate IsControl(c: char) {
    c <= '\U{1f}' || '\U{7f}' <= c <= '\U{9f}'
  }

  function TrimLeft(s: string): string {
    if s != "" && IsSpace(s[0]) then TrimLeft(s[1..]) else s
  }

  function TrimRight(s: string): string {
    if s != "" && IsSpace(s[|s| - 1]) then TrimRight(s[..|s| - 1]) else s
  }

  /** strings.TrimSpace */
  function TrimSpace(s: string): string {
    TrimRight(TrimLeft(s))
  }

  /** Go's `len` of a string: its length in UTF-8. */
  function ByteLength(s: string): nat {
    if s == "" then 0 else ByteLength(s[..|s| - 1]) + EncodedLength(s[|s| - 1])
  }

  function EncodedLength(c: char): nat {
    if c < '\U{80}' then 1 else if c < '\U{800}' then 2 else if c < '\U{10000}' then 3 else 4
  }

  /** No white space at either end: what TrimSpace leaves alone. */
  predicate Trimmed(s: string) {
    s == "" || (!IsSpace(s[0]) && !IsSpace(s[|s| - 1]))
  }

  /** validIdentity (config.go) */
  predicate ValidIdentity(s: string) {
    && s != "" && Trimmed(s) && ByteLength(s) <= 256
    && forall i | 0 <= i < |s| :: IdentityChar(s[i])
  }

  predicate IdentityChar(c: char) {
    c != '/' && c != '\\' && !IsControl(c) && !IsSpace(c)
  }

  /** validStripeID (webhook.go) */
  predicate ValidStripeId(s: string) {
    && s != "" && ByteLength(s) <= 255 && Trimmed(s)
    && forall i | 0 <= i < |s| :: StripeIdChar(s[i])
  }

  predicate StripeIdChar(c: char) {
    c != ' ' && c != '/' && c != '\\' && c != '\r' && c != '\n' && c != '\t' && c != '\0'
  }

  predicate Ascii(s: string) {
    forall i | 0 <= i < |s| :: s[i] < '\U{80}'
  }

  lemma {:induction false} AsciiLength(s: string)
    requires Ascii(s)
    ensures ByteLength(s) == |s|
  {
    if s != "" {
      AsciiLength(s[..|s| - 1]);
    }
  }

  lemma {:induction false} TrimLeftShortens(s: string)
    ensures |TrimLeft(s)| <= |s| && (s != "" && IsSpace(s[0]) ==> |TrimLeft(s)| < |s|)
  {
    if s != "" && IsSpace(s[0]) {
      TrimLeftShortens(s[1..]);
    }
  }

  lemma {:induction false} TrimRightShortens(s: string)
    ensures |TrimRight(s)| <= |s| && (s != "" && IsSpace(s[|s| - 1]) ==> |TrimRight(s)| < |s|)
  {
    if s != "" && IsSpace(s[|s| - 1]) {
      TrimRightShortens(s[..|s| - 1]);
    }
  }

  /** TrimSpace leaves exactly the trimmed strings alone. */
  lemma TrimSpaceKeepsTrimmed(s: string)
    ensures TrimSpace(s) == s <==> Trimmed(s)
  {
    TrimLeftShortens(s);
    TrimRightShortens(TrimLeft(s));
  }

  /** strings.IndexByte where the character occurs */
  function IndexOf(s: string, c: char): (i: nat)
    requires c in s
    ensures i < |s| && s[i] == c && c !in s[..i]
  {
    if s[0] == c then 0 else 1 + IndexOf(s[1..], c)
  }

  /** strings.Split by one separator character */
  function Split(s: string, separator: char): seq<string>
    decreases |s|
  {
    if separator !in s then [s]
    else
      var i := IndexOf(s, separator);
      [s[..i]] + Split(s[i + 1..], separator)
  }

  lemma FirstIndex(s: string, c: char, i: nat)
    requires i < |s| && s[i] == c && c !in s[..i]
    ensures c in s && IndexOf(s, c) == i
  {
    var j := IndexOf(s, c);
    assert forall k | 0 <= k < i :: s[k] == s[..i][k];
    assert forall k | 0 <= k < j :: s[k] == s[..j][k];
  }

  function HexDigit(n: nat): char
    requires n < 16
  {
    if n < 10 then '0' + (n as char) else 'a' + ((n - 10) as char)
  }

  function HexValue(c: char): Option<nat> {
    if '0' <= c <= '9' then Some((c - '0') as nat)
    else if 'a' <= c <= 'f' then Some((c - 'a') as nat + 10)
    else if 'A' <= c <= 'F' then Some((c - 'A') as nat + 10)
    else None
  }
}

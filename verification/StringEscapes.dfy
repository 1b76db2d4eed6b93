/**
 Backslash escapes in the two target languages, read from behind the backslash: what an escape stands for, and
 how many characters it takes.
 */
module StringEscapes {
  import opened Wrappers
  import opened Text
  import opened PathTemplates

  type Escape = (string, nat)

  /** `width` hexadecimal digits behind a letter; a surrogate is no character. */
  function HexEscape(s: string, width: nat): (escape: Option<Escape>)
    ensures escape.Some? ==> escape.value.1 == width + 1 <= |s| && |escape.value.0| == 1
  {
    if |s| < width + 1 then None
    else
      match HexRead(s[1..width + 1])
      case Some(n) => if IsScalar(n) then Some(([n as char], width + 1)) else None
      case None => None
  }

  predicate IsScalar(n: nat) {
    n < 0xD800 || 0xE000 <= n < 0x11_0000
  }

  lemma {:induction false} HexDigitsOnly(s: string, i: nat)
    requires HexRead(s).Some? && i < |s|
    ensures HexValue(s[i]).Some?
  {
    if i < |s| - 1 {
      HexDigitsOnly(s[..|s| - 1], i);
    }
  }

  // ------------------------------------------------- JavaScript template literal

  /** `u{...}` */
  function BracedEscape(s: string): (escape: Option<Escape>)
    requires |s| > 1
    ensures escape.Some? ==> '}' in s && 1 <= escape.value.1 <= |s| && |escape.value.0| == 1
  {
    if '}' !in s[2..] then None
    else
      var end := IndexOf(s[2..], '}');
      match HexRead(s[2..][..end])
      case Some(n) => if end > 0 && IsScalar(n) then Some(([n as char], end + 3)) else None
      case None => None
  }

  /** No escape stands for more than one character, or takes none. */
  function TsEscape(s: string): (escape: Option<Escape>)
    ensures escape.Some? ==> 1 <= escape.value.1 <= |s| && |escape.value.0| <= 1
  {
    if s == "" || '1' <= s[0] <= '9' then None
    else if s[0] == '\r' then Some(("", if |s| > 1 && s[1] == '\n' then 2 else 1))
    else if s[0] == '\n' || s[0] == '\U{2028}' || s[0] == '\U{2029}' then Some(("", 1))
    else if s[0] == '0' then if |s| > 1 && '0' <= s[1] <= '9' then None else Some(("\0", 1))
    else if s[0] == 'x' then HexEscape(s, 2)
    else if s[0] == 'u' then if |s| > 1 && s[1] == '{' then BracedEscape(s) else HexEscape(s, 4)
    else Some(([TsControl(s[0])], 1))
  }

  function TsControl(c: char): char {
    match c
    case 'b' => '\U{8}'
    case 'f' => '\U{c}'
    case 'n' => '\n'
    case 'r' => '\r'
    case 't' => '\t'
    case 'v' => '\U{b}'
    case _ => c
  }

  /** An escape begun in the text before a hole or the closing backtick ends there too. */
  lemma TsEscapeInside(text: string, more: string)
    requires text != "" && more != "" && (more[0] == '$' || more[0] == '`')
    requires |text| > 1 && text[0] == 'u' && text[1] == '{' ==> '}' !in text && '}' !in more
    ensures TsEscape(text + more).Some? ==> TsEscape(text + more).value.1 <= |text|
  {
    var s := text + more;
    assert s[0] == text[0];
    assert |text| == 1 ==> s[1] == more[0];
    assert |text| > 1 ==> s[1] == text[1];
    if text[0] == 'u' && |text| > 1 && text[1] == '{' {
      assert '}' !in s;
    } else {
      HexStops(text, more, if text[0] == 'x' then 2 else 4);
    }
  }

  lemma HexStops(text: string, more: string, width: nat)
    requires text != "" && more != "" && HexValue(more[0]).None?
    ensures HexEscape(text + more, width).Some? ==> width + 1 <= |text|
  {
    var s := text + more;
    if HexEscape(s, width).Some? && |text| < width + 1 {
      assert s[1..width + 1][|text| - 1] == more[0];
      HexDigitsOnly(s[1..width + 1], |text| - 1);
    }
  }

  // -------------------------------------------------------------- Python string

  /** What a backslash takes with it; before anything else it stands for itself. */
  const PY_ESCAPED := "\n\r\\'\"abfnrtvxuUN01234567"

  /**
   `\N{...}` is an error here: a character's name is made of letters, and in what the generator emits the braces
   hold a call.
   */
  function PyEscape(s: string): (escape: Option<Escape>)
    ensures escape.Some? ==> s != "" && escape.value.1 <= |s| && |escape.value.0| <= 1
    ensures escape.Some? && s[0] !in PY_ESCAPED ==> escape.value == ("\\", 0)
    ensures escape.Some? && s[0] in PY_ESCAPED ==> escape.value.1 >= 1
  {
    if s == "" || s[0] == 'N' then None
    else if s[0] !in PY_ESCAPED then Some(("\\", 0))
    else if s[0] == '\r' then Some(("", if |s| > 1 && s[1] == '\n' then 2 else 1))
    else if s[0] == '\n' then Some(("", 1))
    else if s[0] == 'x' then HexEscape(s, 2)
    else if s[0] == 'u' then HexEscape(s, 4)
    else if s[0] == 'U' then HexEscape(s, 8)
    else if Octal(s[0]) then Some(OctalEscape(s))
    else Some(([PyControl(s[0])], 1))
  }

  function PyControl(c: char): char {
    match c
    case 'a' => '\U{7}'
    case 'b' => '\U{8}'
    case 'f' => '\U{c}'
    case 'n' => '\n'
    case 'r' => '\r'
    case 't' => '\t'
    case 'v' => '\U{b}'
    case _ => c
  }

  predicate Octal(c: char) {
    '0' <= c <= '7'
  }

  function OctalValue(c: char): nat
    requires Octal(c)
  {
    c as nat - '0' as nat
  }

  /** Up to three octal digits. */
  function OctalEscape(s: string): (escape: Escape)
    requires s != "" && Octal(s[0])
    ensures 1 <= escape.1 <= |s| && |escape.0| == 1
  {
    var first := OctalValue(s[0]);
    if |s| < 2 || !Octal(s[1]) then ([first as char], 1)
    else
      var second := 8 * first + OctalValue(s[1]);
      if |s| < 3 || !Octal(s[2]) then ([second as char], 2)
      else ([(8 * second + OctalValue(s[2])) as char], 3)
  }

  /** An escape begun in the text before a hole or the closing quote ends there too. */
  lemma PyEscapeInside(text: string, more: string)
    requires text != "" && more != "" && (more[0] == '{' || more[0] == '"')
    ensures PyEscape(text + more).Some? ==> PyEscape(text + more).value.1 <= |text|
  {
    var s := text + more;
    assert s[0] == text[0];
    assert |text| == 1 ==> s[1] == more[0];
    assert |text| > 1 ==> s[1] == text[1];
    assert |text| == 2 ==> s[2] == more[0];
    if text[0] == 'x' || text[0] == 'u' || text[0] == 'U' {
      HexStops(text, more, if text[0] == 'x' then 2 else if text[0] == 'u' then 4 else 8);
    }
  }
}

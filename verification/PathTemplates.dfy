/**
 Path templates (gen_ts.go, gen_py_types.go): what a path with `{name}` holes stands for, and the two
 generators.
 */
module PathTemplates {
  import opened Wrappers
  import opened Text

  // -------------------------------------------------------------------- paths

  /** A path as text and holes: a hole runs from an opening brace to the next closing one. */
  datatype Template = Tail(text: string) | Hole(before: string, name: string, after: Template)

  function Parse(path: string): Template
    decreases |path|
  {
    if '{' !in path then Tail(path)
    else
      var start := IndexOf(path, '{');
      var rest := path[start..];
      if '}' !in rest then Tail(path)
      else
        var end := IndexOf(rest, '}');
        Hole(path[..start], rest[1..end], Parse(rest[end + 1..]))
  }

  function Print(t: Template): string {
    match t
    case Tail(text) => text
    case Hole(before, name, after) => before + "{" + name + "}" + Print(after)
  }

  /** No opening brace of the text is closed in it. */
  predicate NoHole(text: string) {
    '{' in text ==> '}' !in text[IndexOf(text, '{')..]
  }

  /** What parsing makes: text in front of a hole opens none, and a name ends at the first closing brace. */
  predicate Canonical(t: Template) {
    match t
    case Tail(text) => NoHole(text)
    case Hole(before, name, after) => '{' !in before && '}' !in name && Canonical(after)
  }

  /** The names in the holes. */
  function Holes(t: Template): set<string> {
    match t
    case Tail(_) => {}
    case Hole(_, name, after) => {name} + Holes(after)
  }

  /** Parsing takes a path apart and loses nothing of it. */
  lemma {:induction false} ParsePrints(path: string)
    ensures Canonical(Parse(path)) && Print(Parse(path)) == path
    decreases |path|
  {
    if '{' in path {
      var start := IndexOf(path, '{');
      var rest := path[start..];
      if '}' in rest {
        var end := IndexOf(rest, '}');
        ParsePrints(rest[end + 1..]);
        assert '}' !in rest[1..end] by {
          assert rest[1..end] == rest[..end][1..];
        }
        Reassembled(path, start, end);
      }
    }
  }

  lemma Reassembled(path: string, start: nat, end: nat)
    requires start <= |path| && 1 <= end < |path| - start
    requires path[start..][0] == '{' && path[start..][end] == '}'
    ensures path[..start] + "{" + path[start..][1..end] + "}" + path[start..][end + 1..] == path
  {
    var rest := path[start..];
    assert "{" + rest[1..end] + "}" + rest[end + 1..] == rest;
    assert path[..start] + rest == path;
    assert path[..start] + "{" + rest[1..end] + "}" + rest[end + 1..]
        == path[..start] + ("{" + rest[1..end] + "}" + rest[end + 1..]);
  }

  /** Every canonical template is the parse of its text. */
  lemma {:induction false} PrintParses(t: Template)
    requires Canonical(t)
    ensures Parse(Print(t)) == t
  {
    if t.Hole? {
      PrintParses(t.after);
      HoleParses(t.before, t.name, Print(t.after));
    }
  }

  lemma HoleParses(before: string, name: string, more: string)
    requires '{' !in before && '}' !in name
    ensures Parse(before + "{" + name + "}" + more) == Hole(before, name, Parse(more))
  {
    var path, rest := before + "{" + name + "}" + more, "{" + name + "}" + more;
    assert path[..|before|] == before && path[|before|..] == rest;
    FirstIndex(path, '{', |before|);
    assert rest[..|name| + 1] == "{" + name;
    FirstIndex(rest, '}', |name| + 1);
    assert rest[1..|name| + 1] == name && rest[|name| + 2..] == more;
  }

  // ---------------------------------------------------------------- camelCase

  function Upper(c: char): char {
    if 'a' <= c <= 'z' then (c as int - 32) as char else c
  }

  /** By character: underscores go, and the letter after one is raised. */
  function Camel(s: string, raise: bool): string {
    if s == "" then ""
    else if s[0] == '_' then Camel(s[1..], true)
    else [if raise then Upper(s[0]) else s[0]] + Camel(s[1..], false)
  }

  /** A part of the name with its first letter raised. */
  function Raised(part: string, raise: bool): string {
    if raise && part != "" then [Upper(part[0])] + part[1..] else part
  }

  function Concat(parts: seq<string>): string {
    if parts == [] then "" else parts[0] + Concat(parts[1..])
  }

  function ConcatRaised(parts: seq<string>, raise: bool): string {
    if parts == [] then "" else Raised(parts[0], raise) + ConcatRaised(parts[1..], true)
  }

  lemma {:induction false} CamelKeeps(s: string, t: string)
    requires '_' !in s
    ensures Camel(s + t, false) == s + Camel(t, false)
  {
    if s == "" {
      assert s + t == t;
    } else {
      CamelKeeps(s[1..], t);
      FirstOff(s, t);
      FirstBack(s[0], s[1..], Camel(t, false));
      assert [s[0]] + s[1..] == s;
    }
  }

  lemma FirstOff(s: string, t: string)
    requires s != ""
    ensures (s + t)[1..] == s[1..] + t && (s + t)[0] == s[0] && s + t != ""
  {
  }

  lemma FirstBack(c: char, s: string, t: string)
    ensures [c] + (s + t) == [c] + s + t
  {
  }

  lemma CamelOfPlain(s: string, t: string, raise: bool)
    requires '_' !in s
    ensures Camel(s + t, raise) == if s == "" then Camel(t, raise) else Raised(s, raise) + Camel(t, false)
  {
    if s == "" {
      assert s + t == t;
    } else {
      var c := if raise then Upper(s[0]) else s[0];
      CamelKeeps(s[1..], t);
      FirstOff(s, t);
      FirstBack(c, s[1..], Camel(t, false));
      assert [s[0]] + s[1..] == s;
    }
  }

  lemma {:induction false} CamelOfParts(s: string, raise: bool)
    ensures ConcatRaised(Split(s, '_'), raise) == Camel(s, raise)
    decreases |s|
  {
    if '_' !in s {
      CamelOfPlain(s, "", raise);
      assert s + "" == s;
      ConcatOne(s, [], raise);
    } else {
      var i := IndexOf(s, '_');
      CamelOfPlain(s[..i], s[i..], raise);
      AtUnderscore(s, i);
      CamelOfParts(s[i + 1..], true);
      ConcatOne(s[..i], Split(s[i + 1..], '_'), raise);
    }
  }

  lemma AtUnderscore(s: string, i: nat)
    requires i < |s| && s[i] == '_'
    ensures s[..i] + s[i..] == s && Camel(s[i..], false) == Camel(s[i..], true) == Camel(s[i + 1..], true)
  {
    assert s[i..][1..] == s[i + 1..];
  }

  lemma ConcatOne(part: string, parts: seq<string>, raise: bool)
    ensures ConcatRaised([part] + parts, raise) == Raised(part, raise) + ConcatRaised(parts, true)
  {
    assert ([part] + parts)[1..] == parts;
  }

  lemma {:induction false} ConcatMeets(parts: seq<string>, raised: seq<string>, raise: bool)
    requires |raised| == |parts|
    requires forall j | 0 <= j < |parts| :: raised[j] == Raised(parts[j], raise || j > 0)
    ensures Concat(raised) == ConcatRaised(parts, raise)
  {
    if parts != [] {
      ConcatMeets(parts[1..], raised[1..], true);
    }
  }

  /** camelCase: the parts are raised in place and joined. */
  method CamelCase(s: string) returns (r: string)
    ensures r == Camel(s, false)
  {
    var parts := Split(s, '_');
    for i := 1 to |parts|
      invariant |parts| == |Split(s, '_')|
      invariant forall j | 0 <= j < i :: parts[j] == Raised(Split(s, '_')[j], j > 0)
      invariant forall j | i <= j < |parts| :: parts[j] == Split(s, '_')[j]
    {
      if parts[i] == "" {
        continue;
      }
      parts := parts[i := [Upper(parts[i][0])] + parts[i][1..]];
    }
    ConcatMeets(Split(s, '_'), parts, false);
    CamelOfParts(s, false);
    return Concat(parts);
  }

  // --------------------------------------------------------------- generators

  const TS_ENCODER := "encodeURIComponent"
  const PY_ENCODER := "urllib.parse.quote"

  datatype Target = TypeScript | Python

  function CallText(callee: string, name: string): string {
    callee + "(" + name + ")"
  }

  function TsCode(name: string): string {
    "${" + CallText(TS_ENCODER, Camel(name, false)) + "}"
  }

  function PyCode(name: string): string {
    "{" + CallText(PY_ENCODER, name) + "}"
  }

  function Code(name: string, target: Target): string {
    match target
    case TypeScript => TsCode(name)
    case Python => PyCode(name)
  }

  /** Text as it stands, holes as code. */
  function Emitted(t: Template, target: Target): string {
    match t
    case Tail(text) => text
    case Hole(before, name, after) => before + (Code(name, target) + Emitted(after, target))
  }

  function TsExpr(path: string): string {
    "`" + Emitted(Parse(path), TypeScript) + "`"
  }

  method TsPathExpr(path: string) returns (b: string)
    ensures b == TsExpr(path)
  {
    b := TsPathBody(path, "`");
    b := b + "`";
  }

  /** A forward cursor over the original path; the growing output is never looked at again. */
  method TsPathBody(path: string, open: string) returns (b: string)
    ensures b == open + Emitted(Parse(path), TypeScript)
  {
    b := open;
    var rest := path;
    while rest != ""
      invariant b + Emitted(Parse(rest), TypeScript) == open + Emitted(Parse(path), TypeScript)
      decreases |rest|
    {
      if '{' !in rest {
        b, rest := b + rest, "";
        continue;
      }
      var start := IndexOf(rest, '{');
      var tail := rest[start..];
      if '}' !in tail {
        b, rest := b + rest, "";
        continue;
      }
      var end := IndexOf(tail, '}');
      var code := TsHole(tail[1..end]);
      Regroup(b, rest[..start], code, Emitted(Parse(tail[end + 1..]), TypeScript));
      b, rest := b + rest[..start] + code, tail[end + 1..];
    }
  }

  method TsHole(name: string) returns (code: string)
    ensures code == TsCode(name)
  {
    var identifier := CamelCase(name);
    return "${" + CallText(TS_ENCODER, identifier) + "}";
  }

  lemma Regroup(b: string, text: string, code: string, more: string)
    ensures b + text + code + more == b + (text + (code + more))
  {
  }

  /** A path without an opening brace becomes a quoted string, any other an f-string. */
  function PyExpr(path: string, printable: set<char>): string {
    if '{' !in path then GoQuote(path, printable) else "f\"" + Emitted(Parse(path), Python) + "\""
  }

  method PyPathExpr(path: string, printable: set<char>) returns (b: string)
    ensures b == PyExpr(path, printable)
  {
    if '{' !in path {
      return GoQuote(path, printable);
    }
    b := PyPathBody(path, "f\"");
    b := b + "\"";
  }

  /** The same cursor for Python. */
  method PyPathBody(path: string, open: string) returns (b: string)
    ensures b == open + Emitted(Parse(path), Python)
  {
    b := open;
    var rest := path;
    while rest != ""
      invariant b + Emitted(Parse(rest), Python) == open + Emitted(Parse(path), Python)
      decreases |rest|
    {
      if '{' !in rest {
        b, rest := b + rest, "";
        continue;
      }
      var start := IndexOf(rest, '{');
      var tail := rest[start..];
      if '}' !in tail {
        b, rest := b + rest, "";
        continue;
      }
      var end := IndexOf(tail, '}');
      var code := PyCode(tail[1..end]);
      Regroup(b, rest[..start], code, Emitted(Parse(tail[end + 1..]), Python));
      b, rest := b + rest[..start] + code, tail[end + 1..];
    }
  }

  // ------------------------------------------------------ Go's quoted strings

  /** `n` in `width` hexadecimal digits. */
  function HexPrint(n: nat, width: nat): (s: string)
    ensures |s| == width
  {
    if width == 0 then "" else HexPrint(n / 16, width - 1) + [HexDigit(n % 16)]
  }

  function HexRead(s: string): Option<nat> {
    if s == "" then Some(0)
    else
      match (HexRead(s[..|s| - 1]), HexValue(s[|s| - 1]))
      case (Some(high), Some(low)) => Some(high * 16 + low)
      case _ => None
  }

  function Power16(width: nat): nat {
    if width == 0 then 1 else 16 * Power16(width - 1)
  }

  lemma {:induction false} HexReadsBack(n: nat, width: nat)
    requires n < Power16(width)
    ensures HexRead(HexPrint(n, width)) == Some(n)
  {
    if width > 0 {
      HexReadsBack(n / 16, width - 1);
      var s := HexPrint(n, width);
      assert s[..|s| - 1] == HexPrint(n / 16, width - 1);
    }
  }

  /** One character as strconv.Quote writes it. */
  function GoEscape(c: char, printable: set<char>): string {
    if c == '"' || c == '\\' then ['\\', c]
    else if c in printable then [c]
    else if c == '\U{7}' then "\\a"
    else if c == '\U{8}' then "\\b"
    else if c == '\U{c}' then "\\f"
    else if c == '\n' then "\\n"
    else if c == '\r' then "\\r"
    else if c == '\t' then "\\t"
    else if c == '\U{b}' then "\\v"
    else if c < ' ' || c == '\U{7f}' then "\\x" + HexPrint(c as nat, 2)
    else if c < '\U{10000}' then "\\u" + HexPrint(c as nat, 4)
    else "\\U" + HexPrint(c as nat, 8)
  }

  function GoEscaped(s: string, printable: set<char>): string {
    if s == "" then "" else GoEscape(s[0], printable) + GoEscaped(s[1..], printable)
  }

  /** `%q` */
  function GoQuote(s: string, printable: set<char>): string {
    "\"" + GoEscaped(s, printable) + "\""
  }
}

/**
 What an emitted path expression means: the calls in its holes, and the text around them. The interpreters of
 the two target languages are in TypeScriptMeaning and PythonMeaning.
 */
module TemplateMeaning {
  import opened Wrappers
  import opened Text
  import opened PathTemplates
  import opened PercentEncoding

  /** Arguments: by the parameter's name in the document, or by variable in the emitted code. */
  type Args = map<string, string>

  /**
   Where an emitted expression is evaluated: words that are no variables there, what the variables hold, and the
   marks the language's encoder keeps.
   */
  datatype Env = Env(reserved: set<string>, vars: Args, marks: string)

  predicate Variable(s: string, reserved: set<string>) {
    Name(s) && s !in reserved
  }

  /** What the encoder makes of a variable. */
  function Value(x: string, env: Env): Option<string> {
    if Variable(x, env.reserved) && x in env.vars then Some(Encode(env.vars[x], env.marks)) else None
  }

  predicate Letter(c: char) {
    'a' <= c <= 'z' || 'A' <= c <= 'Z'
  }

  predicate NameChar(c: char) {
    Letter(c) || '0' <= c <= '9' || c == '_'
  }

  predicate NameChars(s: string) {
    forall i | 0 <= i < |s| :: NameChar(s[i])
  }

  /** The shape of a variable name, in both languages and in the paths. */
  predicate Name(s: string) {
    s != "" && (Letter(s[0]) || s[0] == '_') && NameChars(s)
  }

  /** Every hole holds a name. */
  predicate WellFormed(t: Template) {
    match t
    case Tail(_) => true
    case Hole(_, name, after) => Name(name) && WellFormed(after)
  }

  /** No parameter is left out. */
  predicate Given(t: Template, args: Args) {
    Holes(t) <= args.Keys
  }

  function Arg(args: Args, name: string): string {
    if name in args then args[name] else ""
  }

  /** What the path stands for: its text, and its arguments as the encoder writes them. */
  function Meant(t: Template, args: Args, marks: string): string {
    match t
    case Tail(text) => text
    case Hole(before, name, after) => before + (Encode(Arg(args, name), marks) + Meant(after, args, marks))
  }

  function Prefixed(text: string, rest: Option<string>): Option<string> {
    if rest.Some? then Some(text + rest.value) else None
  }

  /** What the source of a literal begins with: the text it stands for, and its own length. */
  datatype Piece = Piece(value: string, length: nat)

  /**
   `callee(name)` for the one function the generator emits. Of anything but a variable it has no value here; where
   a language gives it one, as for a number, that is the same whatever the arguments are.
   */
  function Call(expr: string, callee: string, env: Env): Option<string> {
    if |callee| + 1 < |expr| && callee + "(" <= expr && expr[|expr| - 1] == ')'
    then Value(expr[|callee| + 1..|expr| - 1], env)
    else None
  }

  lemma CallOfName(callee: string, name: string, env: Env)
    requires NameChars(name) && '}' !in callee
    ensures Call(CallText(callee, name), callee, env) == Value(name, env)
    ensures '}' !in CallText(callee, name)
  {
    var expr := CallText(callee, name);
    assert expr[..|callee| + 1] == callee + "(";
    assert expr[|callee| + 1..|expr| - 1] == name;
  }

  // ------------------------------------------------------------ text in front

  lemma PrefixedNothing(v: Option<string>)
    ensures Prefixed("", v) == v
  {
    assert v.Some? ==> "" + v.value == v.value;
  }

  lemma PrefixedTwice(text: string, v: Option<string>)
    requires text != ""
    ensures Prefixed([text[0]], Prefixed(text[1..], v)) == Prefixed(text, v)
  {
    if v.Some? {
      assert [text[0]] + (text[1..] + v.value) == text + v.value;
    }
  }

  lemma PrefixedDiffers(text: string, v: Option<string>, w: string)
    requires text != "" && v != Some(text[1..] + w)
    ensures Prefixed([text[0]], v) != Some(text + w)
  {
    assert (text + w)[1..] == text[1..] + w;
    if v.Some? {
      assert ([text[0]] + v.value)[1..] == v.value;
    }
  }

  /** Common text before and after a hole cancels. */
  lemma HoleCancels(before: string, value: string, v: Option<string>, w: string)
    ensures Prefixed(before, Prefixed(value, v)) == Some(before + (value + w)) <==> v == Some(w)
  {
    PrefixedIs(before, Prefixed(value, v), value + w);
    PrefixedIs(value, v, w);
  }

  lemma PrefixedIs(text: string, v: Option<string>, w: string)
    ensures Prefixed(text, v) == Some(text + w) <==> v == Some(w)
  {
    assert (text + w)[|text|..] == w;
    if v.Some? {
      assert (text + v.value)[|text|..] == v.value;
    }
  }

  lemma JoinedBehind(before: string, code: string, rest: string, end: string)
    ensures before + (code + rest) + end == before + (code + (rest + end))
  {
  }

  // ------------------------------------------------------- braces in the text

  lemma ClosingBrace(open: string, more: string)
    requires '}' !in open
    ensures '}' in open + "}" + more && IndexOf(open + "}" + more, '}') == |open|
  {
    var src := open + "}" + more;
    assert src[..|open|] == open;
    FirstIndex(src, '}', |open|);
  }

  /** No opening brace of the text is closed, in it or behind it. */
  predicate Unclosed(text: string, more: string) {
    text == "" || ((text[0] == '{' ==> '}' !in text && '}' !in more) && Unclosed(text[1..], more))
  }

  lemma {:induction false} UnclosedSuffix(text: string, more: string, n: nat)
    requires Unclosed(text, more) && n <= |text|
    ensures Unclosed(text[n..], more)
  {
    if n == 0 {
      assert text[0..] == text;
    } else {
      UnclosedSuffix(text[1..], more, n - 1);
      assert text[1..][n - 1..] == text[n..];
    }
  }

  lemma {:induction false} UnclosedEnd(path: string, more: string)
    requires NoHole(path) && '}' !in more
    ensures Unclosed(path, more)
  {
    if '}' !in path {
      NoClosingBrace(path, more);
    } else {
      assert path[0..] == path;
      if '{' in path[1..] {
        assert path[1..][IndexOf(path[1..], '{')..] == path[IndexOf(path, '{')..];
      }
      UnclosedEnd(path[1..], more);
    }
  }

  lemma {:induction false} NoOpeningBrace(text: string, more: string)
    requires '{' !in text
    ensures Unclosed(text, more)
  {
    if text != "" {
      NoOpeningBrace(text[1..], more);
    }
  }

  lemma {:induction false} NoClosingBrace(text: string, more: string)
    requires '}' !in text && '}' !in more
    ensures Unclosed(text, more)
  {
    if text != "" {
      NoClosingBrace(text[1..], more);
    }
  }
}

/**
 What the emitted Python expressions evaluate to, for which paths that is the path with its parameters
 (cmd/gensdk/gen_py_types.go).
 */
module PythonMeaning {
  import opened Wrappers
  import opened Text
  import opened PathTemplates
  import opened PercentEncoding
  import opened StringEscapes
  import opened TemplateMeaning

  /** A line break or a null character inside a literal is an error. */
  predicate PyBreak(c: char) {
    c == '\n' || c == '\r' || c == '\0'
  }

  // ------------------------------------------------------------------ f-string

  /** The first piece of an f-string: an escape, a substitution, a doubled brace or a character. */
  function PyPiece(src: string, env: Env): (piece: Option<Piece>)
    requires src != ""
    ensures piece.Some? ==> 1 <= piece.value.length <= |src|
  {
    if PyBreak(src[0]) || src[0] == '"' then None
    else if src[0] == '\\' then PyEscaped(src)
    else if src[0] == '{' then
      if |src| > 1 && src[1] == '{' then Some(Piece("{", 2)) else PySubstitution(src, env)
    else if src[0] == '}' then
      if |src| > 1 && src[1] == '}' then Some(Piece("}", 2)) else None
    else Some(Piece([src[0]], 1))
  }

  function PyEscaped(src: string): (piece: Option<Piece>)
    requires src != ""
    ensures piece.Some? ==> 1 <= piece.value.length <= |src|
  {
    match PyEscape(src[1..])
    case Some((value, length)) => Some(Piece(value, length + 1))
    case None => None
  }

  /** A substitution runs to the next closing brace. */
  function PySubstitution(src: string, env: Env): (piece: Option<Piece>)
    requires src != ""
    ensures piece.Some? ==> 1 <= piece.value.length <= |src|
  {
    if '}' !in src[1..] then None
    else
      var expr := src[1..][..IndexOf(src[1..], '}')];
      match Call(expr, PY_ENCODER, env)
      case Some(value) => Some(Piece(value, |expr| + 2))
      case None => None
  }

  /** The value of an f-string, from behind its opening quote. */
  function PyFormat(src: string, env: Env): Option<string>
    decreases |src|
  {
    if src == "\"" then Some("")
    else if src == "" then None
    else
      match PyPiece(src, env)
      case Some(piece) => Prefixed(piece.value, PyFormat(src[piece.length..], env))
      case None => None
  }

  predicate PyPlain(c: char) {
    c != '"' && !PyBreak(c) && c != '{' && c != '}' && c != '\\'
  }

  /** What stands behind the first character, `next` behind the last. */
  function Second(text: string, next: char): char {
    if |text| > 1 then text[1] else next
  }

  /** A character that stands for itself: a plain one, or a backslash that takes nothing with it. */
  predicate PySafeHead(text: string, next: char)
    requires text != ""
  {
    PyPlain(text[0]) || (text[0] == '\\' && Second(text, next) !in PY_ESCAPED)
  }

  /**
   The text in front of `next` says itself: no quote, line break, null character or brace, and no backslash that
   begins an escape.
   */
  predicate PySafe(text: string, next: char) {
    text == "" || (PySafeHead(text, next) && PySafe(text[1..], next))
  }

  /** The text between the holes says itself, and the holes hold variables. */
  predicate PySafePath(t: Template, reserved: set<string>) {
    match t
    case Tail(text) => PySafe(text, '"')
    case Hole(before, name, after) => PySafe(before, '{') && Variable(name, reserved) && PySafePath(after, reserved)
  }

  function LengthOf(v: Option<string>): int {
    if v.Some? then |v.value| else -1
  }

  /** What may follow a piece of text: a hole, or the closing quote. */
  predicate PyFollows(text: string, more: string) {
    more != "" && (more[0] == '{' || more == "\"") && ('{' in text ==> more == "\"")
  }

  /** Wrong text in front of `behind`: an error, or too short. */
  predicate Shorter(v: Option<string>, text: string, behind: Option<string>) {
    v.Some? ==> behind.Some? && LengthOf(v) < |text| + LengthOf(behind)
  }

  /** Safe text evaluates to itself; unsafe text is an error, or comes out shorter. */
  lemma {:induction false} PyText(text: string, more: string, env: Env)
    requires Unclosed(text, more) && PyFollows(text, more)
    ensures PySafe(text, more[0]) ==> PyFormat(text + more, env) == Prefixed(text, PyFormat(more, env))
    ensures !PySafe(text, more[0]) ==> Shorter(PyFormat(text + more, env), text, PyFormat(more, env))
    decreases |text|
  {
    if text == "" {
      assert text + more == more;
      PrefixedNothing(PyFormat(more, env));
    } else if PySafeHead(text, more[0]) {
      PyText(text[1..], more, env);
      PyOrdinary(text, more, env);
      PrefixedTwice(text, PyFormat(more, env));
    } else if text[0] == '\\' {
      PyBackslash(text, more, env);
    } else if |text| > 1 && text[1] == text[0] && (text[0] == '{' || text[0] == '}') {
      DoubledBrace(text, more, env);
      UnclosedSuffix(text, more, 2);
      PyText(text[2..], more, env);
    } else {
      PyBroken(text, more, env);
    }
  }

  lemma PyOrdinary(text: string, more: string, env: Env)
    requires text != "" && more != "" && PySafeHead(text, more[0])
    ensures PyFormat(text + more, env) == Prefixed([text[0]], PyFormat(text[1..] + more, env))
  {
    var src := text + more;
    assert src[1..] == text[1..] + more && src[0] == text[0];
    if text[0] == '\\' {
      assert src[1..][0] == Second(text, more[0]);
    }
    assert PyPiece(src, env) == Some(Piece([src[0]], 1));
  }

  lemma DoubledBrace(text: string, more: string, env: Env)
    requires |text| > 1 && text[1] == text[0] && (text[0] == '{' || text[0] == '}')
    ensures PyFormat(text + more, env) == Prefixed([text[0]], PyFormat(text[2..] + more, env))
  {
    var src := text + more;
    assert src[2..] == text[2..] + more && src[0] == text[0] && src[1] == text[1];
    assert PyPiece(src, env) == Some(Piece([src[0]], 2));
  }

  /** A backslash that begins an escape takes at least one character with it, or the closing quote. */
  lemma {:induction false} PyBackslash(text: string, more: string, env: Env)
    requires Unclosed(text, more) && PyFollows(text, more)
    requires text != "" && text[0] == '\\' && !PySafeHead(text, more[0])
    ensures Shorter(PyFormat(text + more, env), text, PyFormat(more, env))
    decreases |text|, 0
  {
    var rest := text[1..];
    assert text + more == "\\" + (rest + more);
    if rest == "" {
      assert rest + more == more == "\"";
      EscapedQuote(more, env);
    } else {
      PyEscapeInside(rest, more);
      assert (rest + more)[0] == Second(text, more[0]);
      if PyEscape(rest + more).Some? {
        var n := PyEscape(rest + more).value.1;
        UnclosedSuffix(text, more, n + 1);
        assert rest[n..] == text[n + 1..];
        PyText(rest[n..], more, env);
        SafeIsNoLonger(rest[n..], PyFormat(more, env));
      }
      EscapedShorter(rest, more, env);
    }
  }

  /** Right or wrong, text comes out no longer than it is. */
  predicate NoLonger(v: Option<string>, text: string, behind: Option<string>) {
    v.Some? ==> behind.Some? && LengthOf(v) <= |text| + LengthOf(behind)
  }

  lemma SafeIsNoLonger(text: string, behind: Option<string>)
    ensures NoLonger(Prefixed(text, behind), text, behind)
  {
  }

  lemma EscapedShorter(text: string, more: string, env: Env)
    requires text != "" && (text + more)[0] in PY_ESCAPED
    requires PyEscape(text + more).Some? ==>
               && PyEscape(text + more).value.1 <= |text|
               && NoLonger(PyFormat(text[PyEscape(text + more).value.1..] + more, env),
                           text[PyEscape(text + more).value.1..], PyFormat(more, env))
    ensures forall t | |t| == |text| + 1 ::
              Shorter(PyFormat("\\" + (text + more), env), t, PyFormat(more, env))
  {
    EscapeBegins(text + more, env);
    if PyEscape(text + more).Some? {
      SplitAt(text, more, PyEscape(text + more).value.1);
    }
  }

  /** What a backslash and the source behind it come to. */
  lemma EscapeBegins(s: string, env: Env)
    ensures
      var escape := PyEscape(s);
      PyFormat("\\" + s, env) ==
      if escape.Some? then Prefixed(escape.value.0, PyFormat(s[escape.value.1..], env)) else None
  {
    var src := "\\" + s;
    BehindBackslash(s);
    assert PyPiece(src, env) == PyEscaped(src);
  }

  lemma BehindBackslash(s: string)
    ensures ("\\" + s)[1..] == s
    ensures forall n: nat | n <= |s| :: ("\\" + s)[n + 1..] == s[n..]
  {
  }

  lemma EscapedQuote(more: string, env: Env)
    requires more != "" && more[0] == '"' && more[1..] == ""
    ensures PyFormat("\\" + more, env).None?
  {
    EscapeBegins(more, env);
    LetterEscape('"', more);
  }

  lemma SplitAt(text: string, more: string, n: nat)
    requires n <= |text|
    ensures (text + more)[n..] == text[n..] + more
  {
  }

  lemma PyBroken(text: string, more: string, env: Env)
    requires text != "" && !PyPlain(text[0]) && text[0] != '\\' && Unclosed(text, more) && PyFollows(text, more)
    requires |text| > 1 && text[1] == text[0] ==> text[0] != '{' && text[0] != '}'
    ensures PyFormat(text + more, env).None?
  {
    var src := text + more;
    assert src[0] == text[0];
    assert |text| > 1 ==> src[1] == text[1];
    assert |text| == 1 ==> src[1] == more[0];
    if text[0] == '{' {
      assert '}' !in text + more;
      assert PySubstitution(src, env) == None;
    }
    assert PyPiece(src, env) == None;
  }

  /** An emitted hole evaluates to the encoded argument if it holds a variable, and otherwise not at all. */
  lemma PyHoleValue(name: string, more: string, env: Env)
    requires Name(name)
    ensures PyFormat(PyCode(name) + more, env) ==
            if Value(name, env).Some? then Prefixed(Value(name, env).value, PyFormat(more, env)) else None
  {
    CallOfName(PY_ENCODER, name, env);
    assert CallText(PY_ENCODER, name)[0] == 'u';
    PySubstitutes(CallText(PY_ENCODER, name), more, env);
  }

  /** A substitution evaluates its expression. */
  lemma PySubstitutes(expr: string, more: string, env: Env)
    requires '}' !in expr && expr != "" && expr[0] != '{'
    ensures PyFormat("{" + expr + "}" + more, env) ==
            if Call(expr, PY_ENCODER, env).Some?
            then Prefixed(Call(expr, PY_ENCODER, env).value, PyFormat(more, env)) else None
  {
    var src := "{" + expr + "}" + more;
    AroundExpression(expr, more);
    ClosingBrace(expr, more);
    assert PyPiece(src, env) == PySubstitution(src, env);
  }

  lemma AroundExpression(expr: string, more: string)
    ensures
      var src := "{" + expr + "}" + more;
      && src[0] == '{' && (expr != "" ==> src[1] == expr[0]) && src[1..] == expr + "}" + more
      && src[1..][..|expr|] == expr && src[|expr| + 2..] == more
  {
  }

  lemma PyStep(before: string, name: string, rest: string, env: Env, w: string)
    requires Name(name) && name in env.vars && '{' !in before && LengthOf(PyFormat(rest, env)) <= |w|
    ensures
      var v, meant := PyFormat(before + (PyCode(name) + rest), env), before + (Encode(env.vars[name], env.marks) + w);
      && (v == Some(meant) <==> PySafe(before, '{') && Variable(name, env.reserved) && PyFormat(rest, env) == Some(w))
      && LengthOf(v) <= |meant|
  {
    PyHoleValue(name, rest, env);
    NoOpeningBrace(before, PyCode(name) + rest);
    PyText(before, PyCode(name) + rest, env);
    HoleCancels(before, Encode(env.vars[name], env.marks), PyFormat(rest, env), w);
  }

  lemma PyLastText(text: string, env: Env)
    requires Unclosed(text, "\"")
    ensures PyFormat(text + "\"", env) == Some(text) <==> PySafe(text, '"')
    ensures LengthOf(PyFormat(text + "\"", env)) <= |text|
  {
    var end := "\"";
    PyEnd(text, env);
    PyText(text, end, env);
    LengthTells(PyFormat(text + end, env), text, PySafe(text, '"'));
  }

  lemma LengthTells(v: Option<string>, s: string, right: bool)
    requires right ==> v == Some(s)
    requires !right && v.Some? ==> |v.value| < |s|
    ensures v == Some(s) <==> right
    ensures LengthOf(v) <= |s|
  {
  }

  lemma PyEnd(path: string, env: Env)
    ensures PyFormat("\"", env) == Some("") && Prefixed(path, Some("")) == Some(path)
  {
    assert path + "" == path;
  }

  /** The value of the body of the f-string. */
  function PyBody(t: Template, env: Env): Option<string> {
    PyFormat(Emitted(t, Python) + "\"", env)
  }

  /** The f-string is right exactly when the text between the holes is safe. */
  lemma {:induction false} PyFormatKeepsMeaning(t: Template, env: Env)
    requires Canonical(t) && WellFormed(t) && Given(t, env.vars)
    ensures PyBody(t, env) == Some(Meant(t, env.vars, env.marks)) <==> PySafePath(t, env.reserved)
    ensures LengthOf(PyBody(t, env)) <= |Meant(t, env.vars, env.marks)|
  {
    match t
    case Tail(text) =>
      UnclosedEnd(text, "\"");
      PyLastText(text, env);
    case Hole(before, name, after) =>
      PyFormatKeepsMeaning(after, env);
      JoinedBehind(before, PyCode(name), Emitted(after, Python), "\"");
      PyStep(before, name, Emitted(after, Python) + "\"", env, Meant(after, env.vars, env.marks));
  }

  // -------------------------------------------------------------------- string

  /** The first piece of a string literal: an escape or a character. */
  function PyStringPiece(src: string): (piece: Option<Piece>)
    requires src != ""
    ensures piece.Some? ==> 1 <= piece.value.length <= |src|
  {
    if PyBreak(src[0]) || src[0] == '"' then None
    else if src[0] == '\\' then PyEscaped(src)
    else Some(Piece([src[0]], 1))
  }

  /** The value of a string literal, from behind its opening quote. */
  function PyString(src: string): Option<string>
    decreases |src|
  {
    if src == "\"" then Some("")
    else if src == "" then None
    else
      match PyStringPiece(src)
      case Some(piece) => Prefixed(piece.value, PyString(src[piece.length..]))
      case None => None
  }

  /** unicode.IsPrint as far as it matters: line breaks and the null character are not printable. */
  predicate Printability(printable: set<char>) {
    forall c | c in printable :: !PyBreak(c)
  }

  lemma EscapeReadsBack(c: char, more: string, printable: set<char>)
    requires Printability(printable)
    ensures PyString(GoEscape(c, printable) + more) == Prefixed([c], PyString(more))
  {
    var code := GoEscape(c, printable);
    if |code| > 2 {
      Powers();
      HexEscapeReadsBack(c, code[1], |code| - 2, more);
    } else if |code| == 2 {
      assert code == ['\\', code[1]];
      LetterReadsBack(c, code[1], more);
    } else {
      assert ([c] + more)[1..] == more;
      assert PyStringPiece([c] + more) == Some(Piece([c], 1));
    }
  }

  /** An escape in front of more text. */
  lemma EscapeAndMore(s: string, c: char, n: nat, more: string)
    requires PyEscape(s) == Some(([c], n)) && n <= |s| && s[n..] == more
    ensures PyString("\\" + s) == Prefixed([c], PyString(more))
  {
    var src := "\\" + s;
    assert src[1..] == s && src[n + 1..] == more;
    assert PyStringPiece(src) == Some(Piece([c], n + 1));
  }

  lemma LetterReadsBack(c: char, letter: char, more: string)
    requires letter in "\"\\abfnrtv" && PyControl(letter) == c
    ensures PyString(['\\', letter] + more) == Prefixed([c], PyString(more))
  {
    var s := [letter] + more;
    assert s[1..] == more;
    LetterEscape(letter, s);
    EscapeAndMore(s, c, 1, more);
    assert ['\\', letter] + more == "\\" + s;
  }

  lemma LetterEscape(letter: char, s: string)
    requires letter in "\"\\abfnrtv" && s != "" && s[0] == letter
    ensures PyEscape(s) == Some(([PyControl(letter)], 1))
  {
  }

  lemma Powers()
    ensures Power16(2) == 0x100 && Power16(4) == 0x1_0000 && Power16(8) == 0x1_0000_0000
  {
    assert Power16(6) == 256 * Power16(4);
  }

  lemma HexEscapeReadsBack(c: char, kind: char, width: nat, more: string)
    requires (kind, width) in {('x', 2), ('u', 4), ('U', 8)} && c as nat < Power16(width)
    ensures PyString(['\\', kind] + HexPrint(c as nat, width) + more) == Prefixed([c], PyString(more))
  {
    var digits := HexPrint(c as nat, width);
    var s := [kind] + digits + more;
    HexReadsBack(c as nat, width);
    KindAndDigits(kind, digits, more);
    assert HexEscape(s, width) == Some(([c], width + 1));
    EscapeAndMore(s, c, width + 1, more);
  }

  lemma KindAndDigits(kind: char, digits: string, more: string)
    ensures
      var s := [kind] + digits + more;
      && s[0] == kind && s[1..|digits| + 1] == digits && s[|digits| + 1..] == more
      && "\\" + s == ['\\', kind] + digits + more
  {
  }

  /** Reading a string Go has quoted gives the string back, whatever it contains. */
  lemma {:induction false} QuoteReadsBack(s: string, printable: set<char>)
    requires Printability(printable)
    ensures PyString(GoEscaped(s, printable) + "\"") == Some(s)
  {
    if s == "" {
      assert GoEscaped(s, printable) + "\"" == "\"";
    } else {
      QuoteReadsBack(s[1..], printable);
      EscapeReadsBack(s[0], GoEscaped(s[1..], printable) + "\"", printable);
      Joining(s, GoEscape(s[0], printable), GoEscaped(s[1..], printable));
    }
  }

  lemma Joining(s: string, code: string, codes: string)
    requires s != ""
    ensures code + codes + "\"" == code + (codes + "\"") && [s[0]] + s[1..] == s
  {
  }

  // --------------------------------------------------------------- expressions

  function PyValue(expr: string, env: Env): Option<string> {
    if |expr| > 1 && expr[0] == 'f' && expr[1] == '"' then PyFormat(expr[2..], env)
    else if expr != "" && expr[0] == '"' then PyString(expr[1..])
    else None
  }

  lemma ValueOfString(body: string, env: Env)
    ensures PyValue("\"" + body + "\"", env) == PyString(body + "\"")
  {
    assert ("\"" + body + "\"")[1..] == body + "\"";
  }

  lemma ValueOfFormat(body: string, env: Env)
    ensures PyValue("f\"" + body + "\"", env) == PyFormat(body + "\"", env)
  {
    assert ("f\"" + body + "\"")[2..] == body + "\"";
  }

  /**
   Words that cannot name a parameter of the emitted method: the keywords, the receiver, and the module the path
   expression calls.
   */
  const PY_RESERVED := {
    "False", "None", "True", "and", "as", "assert", "async", "await", "break", "class", "continue", "def", "del",
    "elif", "else", "except", "finally", "for", "from", "global", "if", "import", "in", "is", "lambda", "nonlocal",
    "not", "or", "pass", "raise", "return", "try", "while", "with", "yield", "__debug__", "self", "urllib"}

  /** The emitted method's variables are named as the parameters. */
  function PyEnv(args: Args, reserved: set<string>): Env {
    Env(reserved, args, PY_MARKS)
  }

  function PyMeant(path: string, args: Args): string {
    Meant(Parse(path), args, PY_MARKS)
  }

  /** A path without an opening brace has neither text to break nor parameters. */
  predicate PySafeExpr(path: string, reserved: set<string>) {
    '{' !in path || PySafePath(Parse(path), reserved)
  }

  /** The emitted expression evaluates to the path with its arguments. */
  predicate PyRight(path: string, args: Args, reserved: set<string>, printable: set<char>) {
    PyValue(PyExpr(path, printable), PyEnv(args, reserved)) == Some(PyMeant(path, args))
  }

  /**
   The Python client sends the path with its arguments exactly when the path has no opening brace, or the text
   between its holes is safe and the holes hold variables.
   */
  lemma PyExprKeepsMeaning(path: string, args: Args, printable: set<char>)
    requires WellFormed(Parse(path)) && Given(Parse(path), args) && Printability(printable)
    ensures PyRight(path, args, PY_RESERVED, printable) <==> PySafeExpr(path, PY_RESERVED)
  {
    PySendsWithout(path, args, PY_RESERVED, printable);
  }

  /** The same for any set of reserved words. */
  lemma PySendsWithout(path: string, args: Args, reserved: set<string>, printable: set<char>)
    requires WellFormed(Parse(path)) && Given(Parse(path), args) && Printability(printable)
    ensures PyRight(path, args, reserved, printable) <==> PySafeExpr(path, reserved)
  {
    if '{' !in path {
      QuoteReadsBack(path, printable);
      ValueOfString(GoEscaped(path, printable), PyEnv(args, reserved));
    } else {
      ParsePrints(path);
      PyFormatKeepsMeaning(Parse(path), PyEnv(args, reserved));
      ValueOfFormat(Emitted(Parse(path), Python), PyEnv(args, reserved));
    }
  }

  /** A quote in front of a hole ends the f-string. */
  lemma QuoteBreaksPy(path: string, name: string, args: Args, reserved: set<string>, printable: set<char>)
    requires Printability(printable) && Name(name) && name in args
    requires '{' in path && Parse(path) == Hole("\"", name, Tail(""))
    ensures !PyRight(path, args, reserved, printable)
  {
    PySendsWithout(path, args, reserved, printable);
  }
}

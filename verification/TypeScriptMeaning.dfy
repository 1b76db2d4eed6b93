/**
 What the emitted template literal evaluates to, and for which paths that is the path with its parameters
 (cmd/gensdk/gen_ts.go).
 */
module TypeScriptMeaning {
  import opened Wrappers
  import opened Text
  import opened PathTemplates
  import opened PercentEncoding
  import opened StringEscapes
  import opened TemplateMeaning

  /** The first piece of a template literal: an escape, a line break, a substitution or a character. */
  function TsPiece(src: string, env: Env): (piece: Option<Piece>)
    requires src != ""
    ensures piece.Some? ==> 1 <= piece.value.length <= |src|
  {
    if src[0] == '`' then None
    else if src[0] == '\\' then
      match TsEscape(src[1..])
      case Some((value, length)) => Some(Piece(value, length + 1))
      case None => None
    else if src[0] == '\r' then Some(Piece("\n", if |src| > 1 && src[1] == '\n' then 2 else 1))
    else if src[0] == '$' && |src| > 1 && src[1] == '{' then Substitution(src, env)
    else Some(Piece([src[0]], 1))
  }

  /** A substitution runs to the next closing brace. */
  function Substitution(src: string, env: Env): (piece: Option<Piece>)
    requires |src| > 1
    ensures piece.Some? ==> 1 <= piece.value.length <= |src|
  {
    if '}' !in src[2..] then None
    else
      var expr := src[2..][..IndexOf(src[2..], '}')];
      match Call(expr, TS_ENCODER, env)
      case Some(value) => Some(Piece(value, |expr| + 3))
      case None => None
  }

  /** The value of a template literal, from behind its opening backtick. */
  function TsEval(src: string, env: Env): Option<string>
    decreases |src|
  {
    if src == "`" then Some("")
    else if src == "" then None
    else
      match TsPiece(src, env)
      case Some(piece) => Prefixed(piece.value, TsEval(src[piece.length..], env))
      case None => None
  }

  /** The text says itself: no backtick, no backslash, no carriage return, no `${`. */
  predicate TsSafe(text: string) {
    text == "" || (TsSafeHead(text) && TsSafe(text[1..]))
  }

  predicate TsSafeHead(text: string)
    requires text != ""
  {
    text[0] != '`' && text[0] != '\\' && text[0] != '\r' && !(text[0] == '$' && |text| > 1 && text[1] == '{')
  }

  /** The text between the holes says itself, and what the holes become are variables. */
  predicate TsSafePath(t: Template, reserved: set<string>) {
    match t
    case Tail(text) => TsSafe(text)
    case Hole(before, name, after) =>
      TsSafe(before) && Variable(Camel(name, false), reserved) && TsSafePath(after, reserved)
  }

  // ---------------------------------------------------------- lost backslashes

  function Backslashes(s: string): nat {
    if s == "" then 0 else (if s[0] == '\\' then 1 else 0) + Backslashes(s[1..])
  }

  lemma {:induction false} BackslashesAdd(a: string, b: string)
    ensures Backslashes(a + b) == Backslashes(a) + Backslashes(b)
  {
    if a == "" {
      assert a + b == b;
    } else {
      BackslashesAdd(a[1..], b);
      assert (a + b)[1..] == a[1..] + b;
    }
  }

  /**
   No more than the text it should be: fewer backslashes, or as many and no more characters. An escape may turn
   a hole into text longer than the argument, but only by taking a backslash away.
   */
  predicate Light(v: Option<string>, w: string) {
    v.Some? ==>
      Backslashes(v.value) < Backslashes(w) || (Backslashes(v.value) == Backslashes(w) && |v.value| <= |w|)
  }

  /** Not even as much. */
  predicate Lighter(v: Option<string>, w: string) {
    v.Some? ==>
      Backslashes(v.value) < Backslashes(w) || (Backslashes(v.value) == Backslashes(w) && |v.value| < |w|)
  }

  function BackslashesOf(v: Option<string>): nat {
    if v.Some? then Backslashes(v.value) else 0
  }

  /** The same text in front changes nothing. */
  lemma LightBehind(text: string, v: Option<string>, w: string)
    requires Light(v, w)
    ensures Light(Prefixed(text, v), text + w)
  {
    BackslashesAdd(text, w);
    if v.Some? {
      BackslashesAdd(text, v.value);
    }
  }

  /** An escape of `n` characters behind its backslash. */
  lemma EscapeIsLighter(value: string, escaped: string, v: Option<string>, w: string)
    requires |value| <= 1 <= |escaped|
    requires Light(v, w)
    ensures Lighter(Prefixed(value, v), "\\" + escaped + w)
  {
    BackslashesAdd("\\" + escaped, w);
    BackslashesAdd("\\", escaped);
    if v.Some? {
      BackslashesAdd(value, v.value);
      assert value == "" || value == [value[0]];
    }
  }

  // ----------------------------------------------------------- text in a literal

  /** What follows a piece of text: a hole or the end, worth `w`. */
  ghost predicate Follows(more: string, env: Env, w: string) {
    && more != "" && (more[0] == '$' || more == "`")
    && Light(TsEval(more, env), w)
    && BackslashesOf(TsEval(more[1..], env)) <= Backslashes(w)
  }

  /** Safe text evaluates to itself, unsafe text to anything else, and no text to more than itself. */
  lemma {:induction false} TsText(text: string, more: string, env: Env, w: string)
    requires Unclosed(text, more) && Follows(more, env, w)
    ensures TsSafe(text) ==> TsEval(text + more, env) == Prefixed(text, TsEval(more, env))
    ensures !TsSafe(text) ==> TsEval(text + more, env) != Some(text + w)
    ensures Light(TsEval(text + more, env), text + w)
    decreases |text|
  {
    if text == "" {
      assert text + more == more && text + w == w;
      PrefixedNothing(TsEval(more, env));
    } else if TsSafeHead(text) {
      TsText(text[1..], more, env, w);
      TsOrdinary(text, more, env);
      FirstCharacter(text, TsEval(text[1..] + more, env), TsEval(more, env), w);
    } else if text[0] == '\\' {
      TsBackslash(text, more, env, w);
    } else if text[0] == '\r' {
      TsReturn(text, more, env, w);
    } else {
      TsBroken(text, more, env);
    }
  }

  /** A character that stands for itself, in front of text known to be right, wrong or light. */
  lemma FirstCharacter(text: string, v: Option<string>, behind: Option<string>, w: string)
    requires text != "" && Light(v, text[1..] + w)
    ensures Prefixed([text[0]], v) == Some(text + w) ==> v == Some(text[1..] + w)
    ensures v == Prefixed(text[1..], behind) ==> Prefixed([text[0]], v) == Prefixed(text, behind)
    ensures Light(Prefixed([text[0]], v), text + w)
  {
    PrefixedTwice(text, behind);
    if v != Some(text[1..] + w) {
      PrefixedDiffers(text, v, w);
    }
    LightBehind([text[0]], v, text[1..] + w);
    assert [text[0]] + (text[1..] + w) == text + w;
  }

  lemma TsOrdinary(text: string, more: string, env: Env)
    requires text != "" && TsSafeHead(text) && more != "" && (more[0] == '$' || more[0] == '`')
    ensures TsEval(text + more, env) == Prefixed([text[0]], TsEval(text[1..] + more, env))
  {
    var src := text + more;
    assert src[1..] == text[1..] + more && src[0] == text[0];
    assert |text| == 1 ==> src[1] == more[0];
    assert |text| > 1 ==> src[1] == text[1];
  }

  /** A backslash in the text is lost, with what it escapes or by escaping what follows the text. */
  lemma {:induction false} TsBackslash(text: string, more: string, env: Env, w: string)
    requires text != "" && text[0] == '\\' && Unclosed(text, more) && Follows(more, env, w)
    ensures Lighter(TsEval(text + more, env), text + w)
    decreases |text|, 0
  {
    var rest := text[1..];
    assert text + more == "\\" + (rest + more) && text + w == "\\" + (rest + w);
    if rest == "" {
      assert rest + more == more && rest + w == w;
      EscapedFollower(more, env, w);
    } else {
      UnclosedSuffix(text, more, 1);
      EscapeStaysInside(rest, more);
      if TsEscape(rest + more).Some? {
        var n := TsEscape(rest + more).value.1;
        UnclosedSuffix(rest, more, n);
        TsText(rest[n..], more, env, w);
      }
      EscapedText(rest, more, env, w);
    }
  }

  lemma EscapeStaysInside(text: string, more: string)
    requires text != "" && Unclosed(text, more) && more != "" && (more[0] == '$' || more[0] == '`')
    ensures TsEscape(text + more).Some? ==> TsEscape(text + more).value.1 <= |text|
  {
    if |text| > 1 && text[0] == 'u' && text[1] == '{' {
      EscapedBrace(text, more);
    }
    TsEscapeInside(text, more);
  }

  /** An escape within the text, in front of text that is light. */
  lemma EscapedText(text: string, more: string, env: Env, w: string)
    requires TsEscape(text + more).Some? ==>
               && TsEscape(text + more).value.1 <= |text|
               && Light(TsEval(text[TsEscape(text + more).value.1..] + more, env),
                        text[TsEscape(text + more).value.1..] + w)
    ensures Lighter(TsEval("\\" + (text + more), env), "\\" + (text + w))
  {
    TsEscaped(text + more, env);
    if TsEscape(text + more).Some? {
      var (value, n) := TsEscape(text + more).value;
      Parted(text, more, n);
      Parted(text, w, n);
      EscapeIsLighter(value, text[..n], TsEval(text[n..] + more, env), text[n..] + w);
    }
  }

  lemma Parted(text: string, more: string, n: nat)
    requires n <= |text|
    ensures (text + more)[n..] == text[n..] + more
    ensures "\\" + text[..n] + (text[n..] + more) == "\\" + (text + more)
  {
  }

  lemma TsEscaped(src: string, env: Env)
    ensures TsEval("\\" + src, env) ==
            if TsEscape(src).Some?
            then Prefixed(TsEscape(src).value.0, TsEval(src[TsEscape(src).value.1..], env)) else None
  {
    assert ("\\" + src)[1..] == src;
    if TsEscape(src).Some? {
      assert ("\\" + src)[TsEscape(src).value.1 + 1..] == src[TsEscape(src).value.1..];
    }
  }

  /** A backslash right before a hole makes text of it; before the closing backtick it leaves the literal open. */
  lemma EscapedFollower(more: string, env: Env, w: string)
    requires Follows(more, env, w)
    ensures Lighter(TsEval("\\" + more, env), "\\" + w)
  {
    TsEscaped(more, env);
    BackslashesAdd("\\", w);
    var v := TsEval(more[1..], env);
    assert TsEscape(more) == Some(([more[0]], 1)) && TsEval("\\" + more, env) == Prefixed([more[0]], v);
    if v.Some? {
      BackslashesAdd([more[0]], v.value);
    }
  }

  lemma EscapedBrace(text: string, more: string)
    requires Unclosed(text, more) && |text| > 1 && text[0] != '}' && text[1] == '{'
    ensures '}' !in text && '}' !in more
  {
    assert text == [text[0]] + text[1..] && text[1..][0] == '{';
  }

  /** A carriage return reads as a line feed. */
  lemma {:induction false} TsReturn(text: string, more: string, env: Env, w: string)
    requires text != "" && text[0] == '\r' && Unclosed(text, more) && Follows(more, env, w)
    ensures TsEval(text + more, env) != Some(text + w) && Light(TsEval(text + more, env), text + w)
    decreases |text|, 0
  {
    var n := if |text| > 1 && text[1] == '\n' then 2 else 1;
    UnclosedSuffix(text, more, n);
    TsText(text[n..], more, env, w);
    ReturnPiece(text, more, n, env);
    LineBreakIsNoReturn(text, n, TsEval(text[n..] + more, env), w);
  }

  lemma ReturnPiece(text: string, more: string, n: nat, env: Env)
    requires text != "" && text[0] == '\r' && more != "" && (more[0] == '$' || more[0] == '`')
    requires n == if |text| > 1 && text[1] == '\n' then 2 else 1
    ensures TsEval(text + more, env) == Prefixed("\n", TsEval(text[n..] + more, env))
  {
    var src := text + more;
    assert |text| == 1 ==> src[1] == more[0];
    assert |text| > 1 ==> src[1] == text[1];
    assert src[n..] == text[n..] + more;
    assert TsPiece(src, env) == Some(Piece("\n", n));
  }

  lemma LineBreakIsNoReturn(text: string, n: nat, v: Option<string>, w: string)
    requires 1 <= n <= |text| && text[0] == '\r' && Light(v, text[n..] + w)
    ensures Prefixed("\n", v) != Some(text + w) && Light(Prefixed("\n", v), text + w)
  {
    assert text + w == text[..n] + (text[n..] + w);
    BackslashesAdd(text[..n], text[n..] + w);
    if v.Some? {
      BackslashesAdd("\n", v.value);
      assert ("\n" + v.value)[0] != (text + w)[0];
    }
  }

  /** A backtick in the text ends the literal too soon, and `${` opens a substitution nothing closes. */
  lemma TsBroken(text: string, more: string, env: Env)
    requires text != "" && (text[0] == '`' || (text[0] == '$' && |text| > 1 && text[1] == '{'))
    requires Unclosed(text, more) && more != ""
    ensures TsEval(text + more, env).None?
  {
    var src := text + more;
    assert src[0] == text[0];
    if text[0] == '$' {
      assert src[1] == text[1] == '{';
      NoBrace(text, more);
    }
  }

  lemma NoBrace(text: string, more: string)
    requires |text| > 1 && text[0] == '$' && text[1] == '{' && Unclosed(text, more)
    ensures '}' !in text + more
  {
    UnclosedSuffix(text, more, 1);
    assert text == [text[0]] + text[1..] && text[1..][0] == '{';
  }

  // -------------------------------------------------------------------- holes

  lemma {:induction false} CamelKeepsNameChars(s: string, raise: bool)
    requires NameChars(s)
    ensures NameChars(Camel(s, raise))
  {
    if s != "" {
      CamelKeepsNameChars(s[1..], s[0] == '_');
    }
  }

  /** An emitted hole evaluates to the encoded argument if it has become a variable, and otherwise not at all. */
  lemma TsHoleValue(name: string, more: string, env: Env)
    requires NameChars(name)
    ensures TsEval(TsCode(name) + more, env) ==
            if Value(Camel(name, false), env).Some?
            then Prefixed(Value(Camel(name, false), env).value, TsEval(more, env)) else None
  {
    CamelKeepsNameChars(name, false);
    CallOfName(TS_ENCODER, Camel(name, false), env);
    TsSubstitution(CallText(TS_ENCODER, Camel(name, false)), more, env);
  }

  /** Without its dollar sign a hole is only text. */
  lemma TsHoleText(name: string, more: string, env: Env)
    requires NameChars(name)
    ensures BackslashesOf(TsEval((TsCode(name) + more)[1..], env)) == BackslashesOf(TsEval(more, env))
  {
    var code := "{" + CallText(TS_ENCODER, Camel(name, false)) + "}";
    CamelKeepsNameChars(name, false);
    assert (TsCode(name) + more)[1..] == code + more;
    CodeIsHarmless(Camel(name, false));
    TsHarmless(code, more, env);
  }

  lemma HarmlessTogether(a: string, b: string)
    requires Harmless(a) && Harmless(b)
    ensures Harmless(a + b)
  {
  }

  lemma CodeIsHarmless(name: string)
    requires NameChars(name)
    ensures Harmless("{" + CallText(TS_ENCODER, name) + "}")
  {
    assert Harmless(TS_ENCODER);
    HarmlessTogether(TS_ENCODER, "(");
    HarmlessTogether(TS_ENCODER + "(", name);
    HarmlessTogether(TS_ENCODER + "(" + name, ")");
    HarmlessTogether("{", CallText(TS_ENCODER, name));
    HarmlessTogether("{" + CallText(TS_ENCODER, name), "}");
  }

  /** A substitution evaluates its expression. */
  lemma TsSubstitution(expr: string, more: string, env: Env)
    requires '}' !in expr
    ensures TsEval("${" + expr + "}" + more, env) ==
            if Call(expr, TS_ENCODER, env).Some?
            then Prefixed(Call(expr, TS_ENCODER, env).value, TsEval(more, env)) else None
  {
    var src := "${" + expr + "}" + more;
    AroundExpression(expr, more);
    ClosingBrace(expr, more);
    assert TsPiece(src, env) == Substitution(src, env);
  }

  lemma AroundExpression(expr: string, more: string)
    ensures
      var src := "${" + expr + "}" + more;
      && src[0] == '$' && src[1] == '{' && src[2..] == expr + "}" + more
      && src[2..][..|expr|] == expr && src[|expr| + 3..] == more
  {
  }

  predicate Harmless(text: string) {
    '`' !in text && '\\' !in text && '\r' !in text && '$' !in text
  }

  lemma {:induction false} TsHarmless(text: string, more: string, env: Env)
    requires Harmless(text)
    ensures TsEval(text + more, env) == Prefixed(text, TsEval(more, env))
    ensures BackslashesOf(TsEval(text + more, env)) == BackslashesOf(TsEval(more, env))
  {
    if text == "" {
      assert text + more == more;
      PrefixedNothing(TsEval(more, env));
    } else {
      TsHarmless(text[1..], more, env);
      HarmlessHead(text, more, env);
      PrefixedTwice(text, TsEval(more, env));
      if TsEval(text[1..] + more, env).Some? {
        BackslashesAdd([text[0]], TsEval(text[1..] + more, env).value);
      }
    }
  }

  lemma HarmlessHead(text: string, more: string, env: Env)
    requires text != "" && Harmless(text)
    ensures TsEval(text + more, env) == Prefixed([text[0]], TsEval(text[1..] + more, env))
  {
    var src := text + more;
    assert src[1..] == text[1..] + more && src[0] == text[0];
    assert TsPiece(src, env) == Some(Piece([src[0]], 1));
  }

  // --------------------------------------------------------------- whole paths

  /** The variables of the emitted method hold the arguments of the parameters they are named after. */
  predicate Binds(vars: Args, args: Args, t: Template) {
    forall n | n in Holes(t) :: n in args && Camel(n, false) in vars && vars[Camel(n, false)] == args[n]
  }

  /** The value of the body of the literal. */
  function TsBody(t: Template, env: Env): Option<string> {
    TsEval(Emitted(t, TypeScript) + "`", env)
  }

  /** With the arguments in its variables, the literal is right exactly where the path is safe. */
  lemma {:induction false} TsKeepsMeaning(t: Template, env: Env, args: Args)
    requires Canonical(t) && WellFormed(t) && Binds(env.vars, args, t)
    ensures TsBody(t, env) == Some(Meant(t, args, env.marks)) <==> TsSafePath(t, env.reserved)
    ensures Light(TsBody(t, env), Meant(t, args, env.marks))
  {
    match t
    case Tail(text) =>
      UnclosedEnd(text, "`");
      TsLastText(text, env);
    case Hole(before, name, after) =>
      TsKeepsMeaning(after, env, args);
      JoinedBehind(before, TsCode(name), Emitted(after, TypeScript), "`");
      TsStep(before, name, Emitted(after, TypeScript) + "`", env, args, Meant(after, args, env.marks));
  }

  lemma TsLastText(text: string, env: Env)
    requires Unclosed(text, "`")
    ensures TsEval(text + "`", env) == Some(text) <==> TsSafe(text)
    ensures Light(TsEval(text + "`", env), text)
  {
    TsEnd(env);
    TsText(text, "`", env, "");
    assert text + "" == text;
  }

  lemma TsEnd(env: Env)
    ensures TsEval("`", env) == Some("") && TsEval("`"[1..], env) == None
  {
  }

  /** Text, a hole and the rest: right exactly when the text is safe, the hole a variable and the rest right. */
  lemma TsStep(before: string, name: string, rest: string, env: Env, args: Args, w: string)
    requires Name(name) && '{' !in before && Light(TsEval(rest, env), w)
    requires name in args && Camel(name, false) in env.vars && env.vars[Camel(name, false)] == args[name]
    ensures
      var v, meant := TsEval(before + (TsCode(name) + rest), env), before + (Encode(args[name], env.marks) + w);
      && (v == Some(meant) <==>
          TsSafe(before) && Variable(Camel(name, false), env.reserved) && TsEval(rest, env) == Some(w))
      && Light(v, meant)
  {
    var value := Encode(args[name], env.marks);
    HoleFollows(name, rest, env, args, w);
    NoOpeningBrace(before, TsCode(name) + rest);
    TsText(before, TsCode(name) + rest, env, value + w);
    HoleCancels(before, value, TsEval(rest, env), w);
  }

  /** A hole and what is behind it, as something that follows text. */
  lemma HoleFollows(name: string, rest: string, env: Env, args: Args, w: string)
    requires Name(name) && Light(TsEval(rest, env), w)
    requires name in args && Camel(name, false) in env.vars && env.vars[Camel(name, false)] == args[name]
    ensures Follows(TsCode(name) + rest, env, Encode(args[name], env.marks) + w)
    ensures TsEval(TsCode(name) + rest, env) ==
            if Variable(Camel(name, false), env.reserved)
            then Prefixed(Encode(args[name], env.marks), TsEval(rest, env)) else None
  {
    var value := Encode(args[name], env.marks);
    TsHoleValue(name, rest, env);
    TsHoleText(name, rest, env);
    LightBehind(value, TsEval(rest, env), w);
    BackslashesAdd(value, w);
  }

  // ---------------------------------------------------------------- expressions

  function TsValue(expr: string, env: Env): Option<string> {
    if expr != "" && expr[0] == '`' then TsEval(expr[1..], env) else None
  }

  lemma ValueOfTemplate(body: string, env: Env)
    ensures TsValue("`" + body + "`", env) == TsEval(body + "`", env)
  {
    assert ("`" + body + "`")[1..] == body + "`";
  }

  /**
   Words that cannot name a parameter of the emitted method: a class is strict code, and the path expression calls
   the encoder by its name.
   */
  const TS_RESERVED := {
    "arguments", "await", "break", "case", "catch", "class", "const", "continue", "debugger", "default", "delete",
    "do", "else", "enum", "eval", "export", "extends", "false", "finally", "for", "function", "if", "implements",
    "import", "in", "instanceof", "interface", "let", "new", "null", "package", "private", "protected", "public",
    "return", "static", "super", "switch", "this", "throw", "true", "try", "typeof", "var", "void", "while", "with",
    "yield", TS_ENCODER}

  function TsEnv(vars: Args, reserved: set<string>): Env {
    Env(reserved, vars, TS_MARKS)
  }

  function TsMeant(path: string, args: Args): string {
    Meant(Parse(path), args, TS_MARKS)
  }

  /** The emitted literal evaluates to the path with its arguments. */
  predicate TsRight(path: string, args: Args, vars: Args, reserved: set<string>) {
    TsValue(TsExpr(path), TsEnv(vars, reserved)) == Some(TsMeant(path, args))
  }

  /** The emitted method can be called with the arguments, and sends the path with them. */
  ghost predicate TsSends(path: string, args: Args, reserved: set<string>) {
    exists vars: Args :: Binds(vars, args, Parse(path)) && TsRight(path, args, vars, reserved)
  }

  /** With its variables bound, the emitted literal is right exactly for safe paths. */
  lemma TsExprOfBound(path: string, args: Args, vars: Args, reserved: set<string>)
    requires WellFormed(Parse(path)) && Binds(vars, args, Parse(path))
    ensures TsRight(path, args, vars, reserved) <==> TsSafePath(Parse(path), reserved)
  {
    ParsePrints(path);
    TsKeepsMeaning(Parse(path), TsEnv(vars, reserved), args);
    ValueOfTemplate(Emitted(Parse(path), TypeScript), TsEnv(vars, reserved));
  }

  // ------------------------------------------------------------------- binding

  ghost predicate Bindable(t: Template, args: Args) {
    exists vars: Args :: Binds(vars, args, t)
  }

  /** No two parameters of the path become the same variable. */
  predicate KeptApart(t: Template) {
    forall m, n | m in Holes(t) && n in Holes(t) && Camel(m, false) == Camel(n, false) :: m == n
  }

  /** Arguments can be bound where the parameters are kept apart. */
  lemma ApartCanBeBound(t: Template, args: Args)
    requires KeptApart(t) && Given(t, args)
    ensures Bindable(t, args)
  {
    var vars: Args := map n | n in Holes(t) :: Camel(n, false) := args[n];
    assert Binds(vars, args, t);
  }

  /** Each parameter can get its own name as its argument only where they are. */
  lemma BoundNamesAreApart(t: Template, names: Args)
    requires Bindable(t, names) && forall n | n in names :: names[n] == n
    ensures KeptApart(t)
  {
    var vars: Args :| Binds(vars, names, t);
    assert forall n | n in Holes(t) :: vars[Camel(n, false)] == n;
  }

  function Names(t: Template): Args {
    map n | n in Holes(t) :: n
  }

  // ------------------------------------------------------------------- theorems

  /** Given arguments are sent exactly on safe paths that can bind them. */
  lemma SentIffSafe(path: string, args: Args, reserved: set<string>)
    requires WellFormed(Parse(path))
    ensures TsSends(path, args, reserved) <==> TsSafePath(Parse(path), reserved) && Bindable(Parse(path), args)
  {
    forall vars: Args | Binds(vars, args, Parse(path))
      ensures TsRight(path, args, vars, reserved) <==> TsSafePath(Parse(path), reserved)
    {
      TsExprOfBound(path, args, vars, reserved);
    }
  }

  /**
   The TypeScript client sends the path with its arguments, whatever they are, exactly when the text between the
   holes is safe, every hole becomes a variable, and no two parameters become the same one.
   */
  lemma TsExprKeepsMeaning(path: string)
    requires WellFormed(Parse(path))
    ensures (forall args: Args | Given(Parse(path), args) :: TsSends(path, args, TS_RESERVED))
       <==> TsSafePath(Parse(path), TS_RESERVED) && KeptApart(Parse(path))
  {
    TsSendsWithout(path, TS_RESERVED);
  }

  /** The same for any set of reserved words. */
  lemma TsSendsWithout(path: string, reserved: set<string>)
    requires WellFormed(Parse(path))
    ensures (forall args: Args | Given(Parse(path), args) :: TsSends(path, args, reserved))
       <==> TsSafePath(Parse(path), reserved) && KeptApart(Parse(path))
  {
    if TsSafePath(Parse(path), reserved) && KeptApart(Parse(path)) {
      forall args: Args | Given(Parse(path), args) ensures TsSends(path, args, reserved) {
        ApartCanBeBound(Parse(path), args);
        SentIffSafe(path, args, reserved);
      }
    }
    var names := Names(Parse(path));
    if TsSends(path, names, reserved) {
      SentIffSafe(path, names, reserved);
      BoundNamesAreApart(Parse(path), names);
    }
  }

  // -------------------------------------------------------------- broken paths

  /** Two parameters that become one variable: no call can send both. */
  lemma CollisionBreaksTs(path: string, args: Args, reserved: set<string>, m: string, n: string)
    requires WellFormed(Parse(path)) && m in Holes(Parse(path)) && n in Holes(Parse(path))
    requires Camel(m, false) == Camel(n, false) && m in args && n in args && args[m] != args[n]
    ensures !TsSends(path, args, reserved)
  {
    SentIffSafe(path, args, reserved);
  }

  /** There are such paths: the parameters are different to the document and to the Python client. */
  lemma CollidingPath(t: Template, m: string, n: string)
    requires m == "a_b" && n == "aB" && t == Hole("/", m, Hole("/", n, Tail("")))
    ensures Parse(Print(t)) == t && WellFormed(t) && Holes(t) == {m, n} && m != n && !KeptApart(t)
  {
    CollidingNames(m, n);
    TwoHoles(t, "/", m, "/", n);
    PrintParses(t);
  }

  lemma TwoHoles(t: Template, before: string, m: string, between: string, n: string)
    requires t == Hole(before, m, Hole(between, n, Tail("")))
    requires '{' !in before && '{' !in between && Name(m) && Name(n)
    ensures Canonical(t) && WellFormed(t) && Holes(t) == {m, n}
  {
    OneHole(t.after, between, n);
  }

  lemma OneHole(t: Template, before: string, name: string)
    requires t == Hole(before, name, Tail("")) && '{' !in before && Name(name)
    ensures Canonical(t) && WellFormed(t) && Holes(t) == {name}
  {
    assert Holes(t.after) == {} && {name} + {} == {name};
  }

  lemma CollidingNames(m: string, n: string)
    requires m == "a_b" && n == "aB"
    ensures m != n && Name(m) && Name(n) && Camel(m, false) == Camel(n, false)
  {
    assert Camel("b", true) == "B" && Camel("B", false) == "B" && Camel("_b", false) == "B";
  }

  /** A parameter that becomes a reserved word leaves no program. */
  lemma CamelOfClass()
    ensures Camel("class_", false) == "class" && "class" in TS_RESERVED
  {
    assert Camel("_", false) == "" && Camel("s_", false) == "s" && Camel("ss_", false) == "ss";
    assert Camel("ass_", false) == "ass" && Camel("lass_", false) == "lass";
  }

  /** A backtick in the path ends the literal. */
  lemma BacktickBreaksTs(path: string, args: Args, reserved: set<string>)
    requires '{' !in path && '`' in path
    ensures WellFormed(Parse(path)) && !TsSends(path, args, reserved)
  {
    UnsafeBacktick(path);
    SentIffSafe(path, args, reserved);
  }

  lemma {:induction false} UnsafeBacktick(text: string)
    requires '`' in text
    ensures !TsSafe(text)
  {
    if text[0] != '`' {
      assert text == [text[0]] + text[1..];
      UnsafeBacktick(text[1..]);
    }
  }
}

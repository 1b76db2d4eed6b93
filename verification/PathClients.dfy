/** When the TypeScript and the Python client send the same path for the same arguments. */
module PathClients {
  import opened Wrappers
  import opened Text
  import opened PathTemplates
  import opened PercentEncoding
  import opened TemplateMeaning
  import opened TypeScriptMeaning
  import opened PythonMeaning

  /** No argument of the path holds a mark that one encoder keeps and the other does not. */
  predicate PortableArgs(t: Template, args: Args) {
    forall n | n in Holes(t) :: Portable(Arg(args, n))
  }

  /** Filled by either encoder, the path is the same text exactly for portable arguments. */
  lemma {:induction false} FilledAlike(t: Template, args: Args)
    ensures Meant(t, args, TS_MARKS) == Meant(t, args, PY_MARKS) <==> PortableArgs(t, args)
  {
    match t
    case Tail(_) =>
    case Hole(before, name, after) =>
      var ts, py := Meant(after, args, TS_MARKS), Meant(after, args, PY_MARKS);
      FilledAlike(after, args);
      EncodersAgree(Arg(args, name), ts, py);
      SameTextInFront(before, TsEncode(Arg(args, name)) + ts, PyEncode(Arg(args, name)) + py);
  }

  lemma SameTextInFront(text: string, a: string, b: string)
    ensures text + a == text + b <==> a == b
  {
    assert (text + a)[|text|..] == a && (text + b)[|text|..] == b;
  }

  /**
   For a path that is safe in both languages, each client sends the path with its arguments in its own encoding,
   and the two texts are the same exactly if no argument holds one of the disputed marks.
   */
  lemma BothFormsAgree(path: string, args: Args, vars: Args, printable: set<char>)
    requires WellFormed(Parse(path)) && Printability(printable) && Binds(vars, args, Parse(path))
    requires TsSafePath(Parse(path), TS_RESERVED) && PySafeExpr(path, PY_RESERVED)
    ensures TsRight(path, args, vars, TS_RESERVED) && PyRight(path, args, PY_RESERVED, printable)
    ensures TsMeant(path, args) == PyMeant(path, args) <==> PortableArgs(Parse(path), args)
  {
    TsExprOfBound(path, args, vars, TS_RESERVED);
    PyExprKeepsMeaning(path, args, printable);
    FilledAlike(Parse(path), args);
  }

  /** A slash in an argument tells the clients apart: one keeps the path's segments, the other adds one. */
  lemma SlashTellsApart(path: string, t: Template, name: string, args: Args)
    requires t == Parse(path) == Hole("/x/", name, Tail("")) && Arg(args, name) == "a/b"
    ensures TsMeant(path, args) == "/x/a%2Fb" && PyMeant(path, args) == "/x/a/b"
  {
    EncodedSlash(Arg(args, name));
    MeantOfOne(t, "/x/", name, args, TS_MARKS);
    MeantOfOne(t, "/x/", name, args, PY_MARKS);
    BehindX("a%2Fb", "a/b");
  }

  lemma BehindX(ts: string, py: string)
    requires ts == "a%2Fb" && py == "a/b"
    ensures "/x/" + ts == "/x/a%2Fb" && "/x/" + py == "/x/a/b"
  {
  }

  lemma MeantOfOne(t: Template, before: string, name: string, args: Args, marks: string)
    requires t == Hole(before, name, Tail(""))
    ensures Meant(t, args, marks) == before + Encode(Arg(args, name), marks)
  {
    var value := Encode(Arg(args, name), marks);
    assert before + (value + "") == before + value;
  }

  lemma EncodedSlash(s: string)
    requires s == "a/b"
    ensures TsEncode(s) == "a%2Fb" && PyEncode(s) == "a/b"
  {
    assert s[1..] == "/b" && s[1..][1..] == "b" && s[1..][1..][1..] == "";
    assert Utf8('/') == [0x2F] && [0x2F][1..] == [] && Percents([]) == "";
    assert Percents([0x2F]) == Percent(0x2F) + "" == "%2F";
    assert Encode(s[1..][1..], TS_MARKS) == "b" && Encode(s[1..][1..], PY_MARKS) == "b";
    assert Encode(s[1..], TS_MARKS) == "%2Fb" && Encode(s[1..], PY_MARKS) == "/b";
  }
}

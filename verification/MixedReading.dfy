/** Which texts a translation makes readable: exactly those that can be read with braces and
    with tuple([..]) side by side. */
module MixedReading {
  import opened Wrappers
  import opened TypedText
  import opened Translator
  import opened TranslatorLaws
  import F = PyFloat
  import L = TextLaws

  /** No literal is left open. */
  predicate Closed(s: string)
  {
    End(Outside, s) == Outside
  }

  function Turned(s: string): string
  {
    Output(Outside, s)
  }

  // ----- the first characters of a translation -----

  lemma FirstTurned(s: string)
    requires s != [] && Closed(s)
    ensures Turned(s) == Emit(Outside, s[0]) + Output(Next(Outside, s[0]), s[1..])
    ensures End(Next(Outside, s[0]), s[1..]) == Outside
  {
    assert [s[0]] + s[1..] == s;
    First(Outside, s[0], s[1..]);
  }

  lemma NothingTurned()
    ensures Turned("") == "" && Closed("")
  {
  }

  lemma PlainFirst(s: string)
    requires s != [] && Closed(s) && Kept(s[0])
    ensures Closed(s[1..]) && Turned(s) == [s[0]] + Turned(s[1..])
  {
    FirstTurned(s);
  }

  /** A character that no brace turns into starts a translation exactly when it starts the
      text. */
  lemma SameStart(s: string, c: char)
    requires Closed(s) && c != 't' && c != ']' && c != '{' && c != '}'
    ensures Turned(s) != [] && Turned(s)[0] == c <==> s != [] && s[0] == c
    ensures Turned(s) == [] <==> s == []
  {
    if s != [] {
      FirstTurned(s);
    }
    hide Output, End;
  }

  lemma {:induction false} SkipTurned(s: string)
    requires Closed(s)
    ensures Closed(Skip(s)) && Skip(Turned(s)) == Turned(Skip(s))
  {
    if s != [] && IsSpace(s[0]) {
      PlainFirst(s);
      SkipTurned(s[1..]);
      assert ([s[0]] + Turned(s[1..]))[1..] == Turned(s[1..]);
    } else if s != [] {
      FirstTurned(s);
      hide Output, End;
      assert !IsSpace(Turned(s)[0]);
    } else {
      NothingTurned();
    }
  }

  /** Tokens whose characters are taken over one by one. */
  predicate Fixed(token: string)
  {
    forall i | 0 <= i < |token| :: Kept(token[i]) && token[i] != 't' && token[i] != ']'
  }

  ghost predicate SameRest(a: Option<string>, b: Option<string>)
  {
    && (a.Some? <==> b.Some?)
    && (a.Some? ==> Closed(a.value) && b.value == Turned(a.value))
  }

  lemma ExpectOne(c: char, token: string, s: string)
    ensures Expect([c] + token, s) == if s != [] && s[0] == c then Expect(token, s[1..]) else None
  {
    var all := [c] + token;
    if s != [] && s[0] == c && |all| <= |s| {
      assert s[..|all|] == [c] + s[1..][..|token|];
      assert s[1..][|token|..] == s[|all|..];
      assert ([c] + token)[1..] == token && ([c] + s[1..][..|token|])[1..] == s[1..][..|token|];
    }
    if Expect(all, s).Some? {
      assert s[..|all|][0] == c;
    }
  }

  lemma {:induction false} FixedTurned(token: string, s: string)
    requires Fixed(token) && Closed(s)
    ensures SameRest(Expect(token, s), Expect(token, Turned(s)))
  {
    if token != [] {
      var c, rest := token[0], token[1..];
      assert token == [c] + rest;
      ExpectOne(c, rest, s);
      ExpectOne(c, rest, Turned(s));
      SameStart(s, c);
      if s != [] && s[0] == c {
        PlainFirst(s);
        assert Turned(s)[1..] == Turned(s[1..]);
        FixedTurned(rest, s[1..]);
      }
      hide Expect, Turned, Closed;
    }
  }

  lemma OpenMeaning(s: string)
    ensures ExpectOpen(Python, s) == if s != [] && s[0] == 't' then Expect("uple([", s[1..]) else None
    ensures ExpectOpen(Mixed, s) == if s != [] && s[0] == '{' then Some(s[1..]) else ExpectOpen(Python, s)
  {
    assert "tuple([" == ['t'] + "uple([" && "{" == ['{'] + "";
    ExpectOne('t', "uple([", s);
    ExpectOne('{', "", s);
    assert s != [] ==> Expect("", s[1..]) == Some(s[1..]);
    hide Expect;
  }

  lemma OpenTurned(s: string)
    requires Closed(s)
    ensures SameRest(ExpectOpen(Mixed, s), ExpectOpen(Python, Turned(s)))
  {
    OpenMeaning(s);
    OpenMeaning(Turned(s));
    hide Expect, ExpectOpen, Turned, Closed;
    if s == [] {
      NothingTurned();
    } else if s[0] == '{' {
      BraceTurned(s);
    } else if s[0] == 't' {
      PlainFirst(s);
      assert Turned(s)[1..] == Turned(s[1..]);
      FixedTurned("uple([", s[1..]);
    } else {
      NoBrace(s);
    }
  }

  lemma BraceTurned(s: string)
    requires s != [] && Closed(s) && s[0] == '{'
    ensures Closed(s[1..]) && ExpectOpen(Python, Turned(s)) == Some(Turned(s[1..]))
  {
    FirstTurned(s);
    ExpectShown("tuple([", Turned(s[1..]));
  }

  lemma NoBrace(s: string)
    requires s != [] && Closed(s) && s[0] != '{' && s[0] != 't'
    ensures Turned(s) != [] && Turned(s)[0] != 't'
  {
    FirstTurned(s);
    hide Output, End;
  }

  lemma CloseMeaning(s: string)
    ensures ExpectClose(Python, s) == if s != [] && s[0] == ']' then Expect(")", s[1..]) else None
    ensures ExpectClose(Mixed, s) == if s != [] && s[0] == '}' then Some(s[1..]) else ExpectClose(Python, s)
  {
    assert "])" == [']'] + ")" && "}" == ['}'] + "";
    ExpectOne(']', ")", s);
    ExpectOne('}', "", s);
    assert s != [] ==> Expect("", s[1..]) == Some(s[1..]);
    hide Expect;
  }

  lemma CloseTurned(s: string)
    requires Closed(s)
    ensures SameRest(ExpectClose(Mixed, s), ExpectClose(Python, Turned(s)))
  {
    CloseMeaning(s);
    CloseMeaning(Turned(s));
    hide Expect, ExpectClose, Turned, Closed;
    if s == [] {
      NothingTurned();
    } else if s[0] == '}' {
      EndBraceTurned(s);
    } else if s[0] == ']' {
      PlainFirst(s);
      assert Turned(s)[1..] == Turned(s[1..]);
      FixedTurned(")", s[1..]);
    } else {
      NoBracket(s);
    }
  }

  lemma EndBraceTurned(s: string)
    requires s != [] && Closed(s) && s[0] == '}'
    ensures Closed(s[1..]) && ExpectClose(Python, Turned(s)) == Some(Turned(s[1..]))
  {
    FirstTurned(s);
    ExpectShown("])", Turned(s[1..]));
  }

  lemma NoBracket(s: string)
    requires s != [] && Closed(s) && s[0] != '}' && s[0] != ']'
    ensures Turned(s) != [] && Turned(s)[0] != ']'
  {
    FirstTurned(s);
    hide Output, End;
  }

  /** The first n characters are taken over, and the rest is turned. */
  ghost predicate Copied(s: string, n: nat)
  {
    && n <= |s| && n <= |Turned(s)| && Closed(s[n..])
    && Turned(s)[..n] == s[..n] && Turned(s)[n..] == Turned(s[n..])
  }

  lemma CopiedMore(s: string, n: nat)
    requires s != [] && Closed(s) && Kept(s[0]) && Copied(s[1..], n)
    ensures Copied(s, n + 1)
  {
    PlainFirst(s);
    Shifted(s[0], Turned(s[1..]), n);
    Shifted(s[0], s[1..], n);
    assert s == [s[0]] + s[1..];
    hide Turned, Closed;
  }

  lemma Shifted(c: char, r: string, n: nat)
    requires n <= |r|
    ensures ([c] + r)[1..] == r && ([c] + r)[..n + 1] == [c] + r[..n] && ([c] + r)[n + 1..] == r[n..]
  {
  }

  lemma {:induction false} NumericTurned(s: string)
    requires Closed(s)
    ensures Numeric(Turned(s)) == Numeric(s) && Copied(s, Numeric(s))
  {
    if s != [] && F.IsNumeric(s[0]) {
      PlainFirst(s);
      NumericTurned(s[1..]);
      CopiedMore(s, Numeric(s[1..]));
      Shifted(s[0], Turned(s[1..]), 0);
      hide Turned, Closed, Copied;
    } else {
      NotNumeric(s);
    }
  }

  lemma NotNumeric(s: string)
    requires Closed(s) && (s == [] || !F.IsNumeric(s[0]))
    ensures Numeric(Turned(s)) == 0 && Copied(s, 0)
  {
    if s == [] {
      NothingTurned();
    } else {
      FirstTurned(s);
    }
    hide Output, End;
  }

  lemma NumberTurned(s: string)
    requires Closed(s)
    ensures NumberLength(Turned(s)) == NumberLength(s) && Copied(s, NumberLength(s))
  {
    SameStart(s, '-');
    if s != [] && s[0] == '-' {
      PlainFirst(s);
      NumericTurned(s[1..]);
      CopiedMore(s, Numeric(s[1..]));
      Shifted(s[0], Turned(s[1..]), 0);
    } else {
      NumericTurned(s);
    }
    hide Turned, Closed, Copied, Numeric;
  }

  lemma {:induction false} OpenLiteral(end: char, s: string)
    requires Scan(end, s).None? && end != '\\'
    ensures End(Literal(end), s) != Outside
  {
    if s != [] {
      assert s == [s[0]] + s[1..];
      First(Literal(end), s[0], s[1..]);
      if s[0] == '\\' {
        if |s| > 1 {
          assert s[1..] == [s[1]] + s[2..];
          First(Escaped(end), s[1], s[2..]);
          OpenLiteral(end, s[2..]);
        } else {
          assert s[1..] == [];
        }
      } else {
        OpenLiteral(end, s[1..]);
      }
    }
  }

  /** Literals are copied, so they end where they ended. */
  lemma LiteralTurned(s: string)
    requires s != [] && Closed(s) && IsQuote(s[0])
    ensures Turned(s) != [] && Turned(s)[0] == s[0] && Scan(s[0], s[1..]).Some?
    ensures var n := Scan(s[0], s[1..]).value;
      && Scan(s[0], Turned(s)[1..]) == Some(n) && Turned(s)[1..][..n] == s[1..][..n]
      && Closed(s[1..][n + 1..]) && Turned(s)[1..][n + 1..] == Turned(s[1..][n + 1..])
  {
    var q, body := s[0], s[1..];
    FirstTurned(s);
    if Scan(q, body).None? {
      OpenLiteral(q, body);
    }
    BodyTurned(q, body);
    hide Scan, Output, End;
    assert Turned(s) == [q] + Output(Literal(q), body);
    assert Turned(s)[1..] == Output(Literal(q), body);
  }

  lemma BodyTurned(q: char, body: string)
    requires IsQuote(q) && Scan(q, body).Some? && End(Literal(q), body) == Outside
    ensures var n, out := Scan(q, body).value, Output(Literal(q), body);
      && Scan(q, out) == Some(n) && out[..n] == body[..n] && Closed(body[n + 1..]) && out[n + 1..] == Turned(body[n + 1..])
  {
    var n := Scan(q, body).value;
    var literal, rest := body[..n + 1], body[n + 1..];
    LiteralStays(q, body);
    L.ScanCut(q, body);
    hide Scan, Output, End, Clean;
    assert body == literal + rest && literal == body[..n] + [q];
    Distributes(Literal(q), literal, rest);
    ScanMore(q, literal, Turned(rest));
    Cut(literal, Turned(rest), n);
  }

  lemma Cut(a: string, b: string, n: nat)
    requires |a| == n + 1
    ensures (a + b)[n + 1..] == b && (a + b)[..n] == a[..n]
  {
  }

  // ----- the two readings, step by step -----

  /** m: the mixed reading of a text; p: the Python reading of its translation.  They agree,
      or the second took only the ] of a brace that closes nothing, and the ) that is left
      can start nothing. */
  ghost predicate Agree<V>(m: Option<(V, string)>, p: Option<(V, string)>)
  {
    if m.Some? then p.Some? && p.value.0 == m.value.0 && Closed(m.value.1) && p.value.1 == Turned(m.value.1)
    else p.None? || Stray(p.value.1)
  }

  predicate Stray(s: string)
  {
    s != [] && s[0] == ')'
  }

  lemma {:induction false} AgreeParse(t: Type, s: string)
    requires Closed(s)
    ensures Agree(Parse(Mixed, t, s), Parse(Python, t, Turned(s)))
    decreases t, |s|, 1
  {
    SkipTurned(s);
    AgreeToken(t, Skip(s));
    hide ParseToken, Turned, Closed, Skip;
  }

  lemma {:induction false} AgreeToken(t: Type, s: string)
    requires Closed(s)
    ensures Agree(ParseToken(Mixed, t, s), ParseToken(Python, t, Turned(s)))
    decreases t, |s|, 0
  {
    match t
    case TBool => AgreeBool(s);
    case TInt => AgreeInt(s);
    case TString => AgreeString(s);
    case TList(item) =>
      SameStart(s, '[');
      if s != [] && s[0] == '[' {
        PlainFirst(s);
        assert Turned(s)[1..] == Turned(s[1..]);
        AgreeList(item, s[1..]);
      }
      hide ParseList, Turned, Closed;
    case TTuple(types) =>
      OpenTurned(s);
      var inner := ExpectOpen(Mixed, s);
      if inner.Some? {
        AgreeItems(types, "", inner.value);
      }
      NothingTurned();
      SameStart(s, '[');
      hide ParseItems, ExpectOpen, Turned, Closed;
  }

  lemma AgreeBool(s: string)
    requires Closed(s)
    ensures Agree(ParseToken(Mixed, TBool, s), ParseToken(Python, TBool, Turned(s)))
  {
    SameStart(s, '0');
    SameStart(s, '1');
    if s != [] && (s[0] == '0' || s[0] == '1') {
      PlainFirst(s);
      assert Turned(s)[1..] == Turned(s[1..]);
    }
    hide Turned, Closed;
  }

  lemma AgreeInt(s: string)
    requires Closed(s)
    ensures Agree(ParseToken(Mixed, TInt, s), ParseToken(Python, TInt, Turned(s)))
  {
    SameStart(s, '-');
    NumberTurned(s);
    hide Turned, Closed, NumberLength, F.PyInt;
  }

  lemma AgreeString(s: string)
    requires Closed(s)
    ensures Agree(ParseToken(Mixed, TString, s), ParseToken(Python, TString, Turned(s)))
  {
    hide Turned, Closed, Scan;
    SameStart(s, '\'');
    SameStart(s, '\"');
    if s != [] && IsQuote(s[0]) {
      LiteralTurned(s);
    }
  }

  lemma StrayEnds(s: string)
    requires Stray(s)
    ensures Skip(s) == s && ExpectClose(Python, s).None? && Expect(",", s).None?
  {
    assert s[..1] == [')'];
    if |s| >= 2 {
      assert s[..2][0] == ')';
    }
  }

  /** What may follow an item of a list. */
  lemma FollowTurned(s: string)
    requires Closed(s)
    ensures Turned(s) == [] <==> s == []
    ensures s != [] ==>
      && (Turned(s)[0] == ',' <==> s[0] == ',') && (Turned(s)[0] == ']' <==> s[0] == ']' || s[0] == '}')
      && (s[0] == ',' || s[0] == ']' ==> Closed(s[1..]) && Turned(s)[1..] == Turned(s[1..]))
      && (s[0] == '}' ==> Stray(Turned(s)[1..]))
  {
    if s == [] {
      NothingTurned();
    } else {
      FirstTurned(s);
    }
    hide Output, End;
  }

  lemma {:induction false} AgreeList(item: Type, s: string)
    requires Closed(s)
    ensures Agree(ParseList(Mixed, item, s), ParseList(Python, item, Turned(s)))
    decreases item, |s|, 2
  {
    AgreeParse(item, s);
    var m, p := Parse(Mixed, item, s), Parse(Python, item, Turned(s));
    if m.Some? {
      SkipTurned(m.value.1);
      var rest := Skip(m.value.1);
      if rest != [] && rest[0] == ',' {
        FollowTurned(rest);
        AgreeList(item, rest[1..]);
      }
      hide Turned, Closed, Parse, Skip, ParseList;
      AgreeRest(item, s, m.value.0, m.value.1, rest);
    } else if p.Some? {
      StrayEnds(p.value.1);
      hide Turned, Closed, Parse, Skip;
    }
  }

  /** Behind an item that both readings have read. */
  lemma AgreeRest(item: Type, s: string, v: Value, after: string, rest: string)
    requires Closed(rest) && Skip(after) == rest && Skip(Turned(after)) == Turned(rest)
    requires Parse(Mixed, item, s) == Some((v, after)) && Parse(Python, item, Turned(s)) == Some((v, Turned(after)))
    requires rest != [] && rest[0] == ',' ==> Agree(ParseList(Mixed, item, rest[1..]), ParseList(Python, item, Turned(rest[1..])))
    ensures Agree(ParseList(Mixed, item, s), ParseList(Python, item, Turned(s)))
  {
    FollowTurned(rest);
    hide Turned, Closed, Parse, Skip;
    if rest != [] && rest[0] == ',' {
      AgreeCons(v, ParseList(Mixed, item, rest[1..]), ParseList(Python, item, Turned(rest[1..])));
    }
  }

  lemma AgreeCons(v: Value, m: Option<(seq<Value>, string)>, p: Option<(seq<Value>, string)>)
    requires Agree(m, p)
    ensures Agree(Cons(v, m), Cons(v, p))
  {
  }

  ghost predicate IsComma(comma: string)
  {
    comma == "" || comma == ","
  }

  lemma NextTurned(comma: string, s: string)
    requires IsComma(comma) && Closed(s)
    ensures SameRest(if comma == "" then Some(s) else Expect(comma, Skip(s)),
                     if comma == "" then Some(Turned(s)) else Expect(comma, Skip(Turned(s))))
  {
    if comma != "" {
      SkipTurned(s);
      FixedTurned(comma, Skip(s));
    }
    hide Turned, Closed, Skip, Expect;
  }

  lemma {:induction false} AgreeItems(types: seq<Type>, comma: string, s: string)
    requires Closed(s) && IsComma(comma)
    ensures Agree(ParseItems(Mixed, types, comma, s), ParseItems(Python, types, comma, Turned(s)))
    decreases types, |s|, 2
  {
    hide Turned, Closed, Parse, Skip, Expect, ExpectClose;
    if types == [] {
      SkipTurned(s);
      CloseTurned(Skip(s));
    } else {
      NextTurned(comma, s);
      var next := if comma == "" then Some(s) else Expect(comma, Skip(s));
      if next.Some? {
        AgreeParse(types[0], next.value);
        var m, p := Parse(Mixed, types[0], next.value), Parse(Python, types[0], Turned(next.value));
        if m.Some? {
          AgreeItems(types[1..], ",", m.value.1);
          AgreeCons(m.value.0, ParseItems(Mixed, types[1..], ",", m.value.1), ParseItems(Python, types[1..], ",", Turned(m.value.1)));
        } else if p.Some? {
          StrayEnds(p.value.1);
          NothingBehind(types[1..], p.value.1);
        }
      }
    }
  }

  lemma NothingBehind(types: seq<Type>, s: string)
    requires Stray(s)
    ensures ParseItems(Python, types, ",", s).None?
  {
    StrayEnds(s);
    hide Parse, Skip, Expect, ExpectClose;
  }

  // ----- the laws -----

  /** The Python reading of a translation is the mixed reading of the text itself: the same
      texts of every type are accepted, with the same values. */
  lemma ReadAsMixed(t: Type, s: string)
    requires Translate(s).Some?
    ensures ParseAll(Python, t, Translate(s).value) == ParseAll(Mixed, t, s)
  {
    AgreeParse(t, s);
    var m, p := Parse(Mixed, t, s), Parse(Python, t, Turned(s));
    hide Turned, Closed, Parse, Skip;
    if m.Some? {
      SkipTurned(m.value.1);
      FollowTurned(Skip(m.value.1));
    } else if p.Some? {
      StrayEnds(p.value.1);
    }
  }

  lemma {:induction false} ErlangIsMixed(t: Type, s: string)
    requires Parse(Erlang, t, s).Some?
    ensures Parse(Mixed, t, s) == Parse(Erlang, t, s)
    decreases t, |s|, 1
  {
    var u := Skip(s);
    match t
    case TList(item) => ErlangListIsMixed(item, u[1..]);
    case TTuple(types) => ErlangItemsAreMixed(types, "", ExpectOpen(Erlang, u).value);
    case _ =>
  }

  lemma {:induction false} ErlangListIsMixed(item: Type, s: string)
    requires ParseList(Erlang, item, s).Some?
    ensures ParseList(Mixed, item, s) == ParseList(Erlang, item, s)
    decreases item, |s|, 2
  {
    ErlangIsMixed(item, s);
    var rest := Skip(Parse(Erlang, item, s).value.1);
    if rest[0] == ',' {
      ErlangListIsMixed(item, rest[1..]);
    }
    hide Parse, Skip;
  }

  lemma {:induction false} ErlangItemsAreMixed(types: seq<Type>, comma: string, s: string)
    requires ParseItems(Erlang, types, comma, s).Some?
    ensures ParseItems(Mixed, types, comma, s) == ParseItems(Erlang, types, comma, s)
    decreases types, |s|, 2
  {
    if types != [] {
      var next := (if comma == "" then Some(s) else Expect(comma, Skip(s))).value;
      ErlangIsMixed(types[0], next);
      ErlangItemsAreMixed(types[1..], ",", Parse(Erlang, types[0], next).value.1);
    }
    hide Parse, Skip, Expect;
  }

  /** The translation says neither more nor less than the text exactly when the text, if it
      can be read with both kinds of brackets, can be read with braces alone. */
  lemma ExactlyAdded(t: Type, s: string)
    requires Translate(s).Some?
    ensures ParseAll(Python, t, Translate(s).value) == ParseAll(Erlang, t, s)
      <==> (ParseAll(Mixed, t, s).Some? ==> ParseAll(Erlang, t, s).Some?)
  {
    ReadAsMixed(t, s);
    if Parse(Erlang, t, s).Some? {
      ErlangIsMixed(t, s);
    }
    hide Parse, Skip, Translate;
  }
}

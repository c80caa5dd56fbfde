/** What a translation means: of a term of any kind, of a typed text, and of a text that
    only its translation makes readable. */
module TranslatorLaws {
  import opened Wrappers
  import opened TypedText
  import opened Translator
  import L = TextLaws

  /** No t and no ) outside literals, so that nothing but a brace becomes tuple([ or ]). */
  predicate Clean(m: Mode, s: string)
    decreases |s|
  {
    s == [] || ((m.Outside? ==> s[0] != 't' && s[0] != ')') && Clean(Next(m, s[0]), s[1..]))
  }

  lemma CleanFirst(m: Mode, c: char, s: string)
    ensures Clean(m, [c] + s) <==> (m.Outside? ==> c != 't' && c != ')') && Clean(Next(m, c), s)
  {
    assert ([c] + s)[1..] == s;
  }

  lemma {:induction false} CleanBoth(m: Mode, a: string, b: string)
    requires Clean(m, a) && Clean(End(m, a), b)
    ensures Clean(m, a + b)
    decreases |a|
  {
    if a == [] {
      assert a + b == b;
    } else {
      assert [a[0]] + a[1..] == a && (a + b)[1..] == a[1..] + b;
      First(m, a[0], a[1..]);
      CleanBoth(Next(m, a[0]), a[1..], b);
    }
  }

  /** From outside to outside, a is turned into b; if clean is asked for, a is. */
  ghost predicate Becomes(clean: bool, a: string, b: string)
  {
    End(Outside, a) == Outside && Output(Outside, a) == b && (clean ==> Clean(Outside, a))
  }

  lemma Chain(clean: bool, a: string, b: string, c: string, d: string)
    requires Becomes(clean, a, b) && Becomes(clean, c, d)
    ensures Becomes(clean, a + c, b + d)
  {
    Distributes(Outside, a, c);
    if clean {
      CleanBoth(Outside, a, c);
    }
    hide End, Output, Clean;
  }

  /** A character that stands for itself outside literals. */
  predicate Kept(c: char)
  {
    c != '{' && c != '}' && !IsQuote(c)
  }

  predicate Plain(clean: bool, c: char)
  {
    Kept(c) && (clean ==> c != 't' && c != ')')
  }

  lemma {:induction false} KeptStays(s: string)
    requires forall i | 0 <= i < |s| :: Kept(s[i])
    ensures End(Outside, s) == Outside && Output(Outside, s) == s
  {
    if s != [] {
      KeptStays(s[1..]);
      assert [s[0]] + s[1..] == s;
      hide Output, End;
      First(Outside, s[0], s[1..]);
    }
  }

  lemma {:induction false} PlainIsClean(s: string)
    requires forall i | 0 <= i < |s| :: Plain(true, s[i])
    ensures Clean(Outside, s)
  {
    if s != [] {
      PlainIsClean(s[1..]);
    }
  }

  lemma PlainStays(clean: bool, s: string)
    requires forall i | 0 <= i < |s| :: Plain(clean, s[i])
    ensures Becomes(clean, s, s)
  {
    KeptStays(s);
    if clean {
      PlainIsClean(s);
    }
    hide Output, End, Clean;
  }

  ghost predicate LiteralCopied(end: char, s: string)
  {
    End(Literal(end), s) == Outside && Output(Literal(end), s) == s && Clean(Literal(end), s)
  }

  lemma CopyOne(end: char, c: char, s: string)
    requires c != end && c != '\\' && LiteralCopied(end, s)
    ensures LiteralCopied(end, [c] + s)
  {
    First(Literal(end), c, s);
    CleanFirst(Literal(end), c, s);
    hide Output, End, Clean;
  }

  lemma CopyTwo(end: char, c: char, s: string)
    requires end != '\\' && LiteralCopied(end, s)
    ensures LiteralCopied(end, ['\\'] + ([c] + s))
  {
    First(Escaped(end), c, s);
    First(Literal(end), '\\', [c] + s);
    CleanFirst(Escaped(end), c, s);
    CleanFirst(Literal(end), '\\', [c] + s);
    hide Output, End, Clean;
  }

  lemma {:induction false} LiteralStays(end: char, s: string)
    requires Scan(end, s).Some? && end != '\\'
    ensures var n := Scan(end, s).value + 1;
      LiteralCopied(end, s[..n])
  {
    var n := Scan(end, s).value + 1;
    if s[0] == end {
      assert n == 1 && s[..1] == [end] + [];
      One(Literal(end), end);
      CleanFirst(Literal(end), end, []);
      hide Scan, Output, End;
    } else if s[0] == '\\' {
      LiteralStays(end, s[2..]);
      assert s[..n] == [s[0]] + ([s[1]] + s[2..][..n - 2]);
      hide Scan, LiteralCopied;
      CopyTwo(end, s[1], s[2..][..n - 2]);
    } else {
      LiteralStays(end, s[1..]);
      assert s[..n] == [s[0]] + s[1..][..n - 1];
      hide Scan, LiteralCopied;
      CopyOne(end, s[0], s[1..][..n - 1]);
    }
  }

  lemma QuotedStays(clean: bool, quote: char, body: string)
    requires IsQuote(quote) && WellEscaped(quote, body)
    ensures Becomes(clean, [quote] + (body + [quote]), [quote] + (body + [quote]))
  {
    var literal := body + [quote];
    LiteralStays(quote, literal);
    assert literal[..|literal|] == literal;
    First(Outside, quote, literal);
    CleanFirst(Outside, quote, literal);
    hide Output, End, Scan, Clean;
  }

  lemma Braces(clean: bool)
    ensures Becomes(clean, "{", "tuple([") && Becomes(clean, "}", "])")
    ensures Becomes(clean, "[", "[") && Becomes(clean, "]", "]") && Becomes(clean, ",", ",")
    ensures Becomes(clean, "", "") && Becomes(clean, "0", "0") && Becomes(clean, "1", "1")
  {
    One(Outside, '{');
    One(Outside, '}');
    CleanFirst(Outside, '{', "");
    CleanFirst(Outside, '}', "");
    hide End, Output;
    PlainStays(clean, "[");
    PlainStays(clean, "]");
    PlainStays(clean, ",");
    PlainStays(clean, "0");
    PlainStays(clean, "1");
    PlainStays(clean, "");
  }

  // ----- texts of any terms -----

  /** The layouts of terms of no particular type: lists and tuples of anything, also of
      nothing, and words (numbers, atoms, a blank inside empty brackets) of any characters
      but braces and quotes. */
  predicate Lexical(clean: bool, tree: Tree)
    decreases tree
  {
    Blank(tree.blank) &&
    match tree
    case Flag(_, _) => true
    case Word(_, text) => forall i | 0 <= i < |text| :: Plain(clean, text[i])
    case Quoted(_, quote, body) => IsQuote(quote) && WellEscaped(quote, body)
    case Listing(_, items) => forall i | 0 <= i < |items| :: Lexical(clean, items[i].tree) && Blank(items[i].after)
    case Grouping(_, items) => forall i | 0 <= i < |items| :: Lexical(clean, items[i].tree) && Blank(items[i].after)
  }

  ghost predicate AllLexical(clean: bool, items: seq<Item>)
  {
    forall i | 0 <= i < |items| :: Lexical(clean, items[i].tree) && Blank(items[i].after)
  }

  /** The Erlang text of any term, however it is laid out, becomes the Python text of the
      same term with the same layout. */
  lemma {:induction false} Translated(clean: bool, tree: Tree)
    requires Lexical(clean, tree)
    ensures Becomes(clean, Show(Erlang, tree), Show(Python, tree))
    decreases tree, 1
  {
    BlankStays(clean, tree.blank);
    TokenTranslated(clean, tree);
    hide Lexical, ShowToken, Becomes;
    Chain(clean, tree.blank, tree.blank, ShowToken(Erlang, tree), ShowToken(Python, tree));
  }

  lemma {:induction false} TokenTranslated(clean: bool, tree: Tree)
    requires Lexical(clean, tree)
    ensures Becomes(clean, ShowToken(Erlang, tree), ShowToken(Python, tree))
    decreases tree, 0
  {
    Braces(clean);
    hide Becomes;
    match tree
    case Flag(_, _) =>
    case Word(_, text) => PlainStays(clean, text);
    case Quoted(_, quote, body) => QuotedStays(clean, quote, body);
    case Listing(_, items) =>
      ItemsTranslated(clean, items, "", "]", "]");
      Chain(clean, "[", "[", ShowItems(Erlang, items, "", "]"), ShowItems(Python, items, "", "]"));
    case Grouping(_, items) =>
      ItemsTranslated(clean, items, "", "}", "])");
      Chain(clean, "{", "tuple([", ShowItems(Erlang, items, "", "}"), ShowItems(Python, items, "", "])"));
  }

  lemma {:induction false} ItemsTranslated(clean: bool, items: seq<Item>, comma: string, close: string, close': string)
    requires AllLexical(clean, items) && (comma == "" || comma == ",") && Becomes(clean, close, close')
    ensures Becomes(clean, ShowItems(Erlang, items, comma, close), ShowItems(Python, items, comma, close'))
    decreases items, 2
  {
    if items != [] {
      assert Lexical(clean, items[0].tree) && Blank(items[0].after);
      hide Becomes, Lexical, Show, ShowItems;
      Translated(clean, items[0].tree);
      ItemsTranslated(clean, items[1..], ",", close, close');
      ItemTranslated(clean, items, comma, close, close');
    }
  }

  lemma ItemTranslated(clean: bool, items: seq<Item>, comma: string, close: string, close': string)
    requires items != [] && Blank(items[0].after) && (comma == "" || comma == ",")
    requires Becomes(clean, Show(Erlang, items[0].tree), Show(Python, items[0].tree))
    requires Becomes(clean, ShowItems(Erlang, items[1..], ",", close), ShowItems(Python, items[1..], ",", close'))
    ensures Becomes(clean, ShowItems(Erlang, items, comma, close), ShowItems(Python, items, comma, close'))
  {
    var tree, after := items[0].tree, items[0].after;
    var rest, rest' := ShowItems(Erlang, items[1..], ",", close), ShowItems(Python, items[1..], ",", close');
    hide Becomes, Show;
    BlankStays(clean, after);
    Braces(clean);
    ThreeMore(clean, comma, comma, Show(Erlang, tree), Show(Python, tree), after, rest, rest');
  }

  lemma ThreeMore(clean: bool, a: string, a': string, b: string, b': string, c: string, d: string, d': string)
    requires Becomes(clean, a, a') && Becomes(clean, b, b') && Becomes(clean, c, c) && Becomes(clean, d, d')
    ensures Becomes(clean, a + (b + (c + d)), a' + (b' + (c + d')))
  {
    hide Becomes;
    Chain(clean, c, c, d, d');
    Chain(clean, b, b', c + d, c + d');
    Chain(clean, a, a', b + (c + d), b' + (c + d'));
  }

  lemma BlankStays(clean: bool, s: string)
    requires Blank(s)
    ensures Becomes(clean, s, s)
  {
    PlainStays(clean, s);
    hide Becomes;
  }

  /** In the words of the program: the text of any nested term is translated, and into the
      Python text of that term. */
  lemma AnyTermTranslated(tree: Tree)
    requires Lexical(false, tree)
    ensures Translate(Show(Erlang, tree)) == Some(Show(Python, tree))
  {
    Translated(false, tree);
    hide Show, Output, End;
  }

  // ----- typed texts -----

  lemma {:induction false} NumericIsPlain(s: string)
    requires Numeric(s) == |s|
    ensures forall i | 0 <= i < |s| :: Plain(true, s[i])
  {
    if s != [] {
      NumericIsPlain(s[1..]);
      assert forall i | 0 < i < |s| :: s[i] == s[1..][i - 1];
    }
  }

  lemma NumberIsPlain(s: string)
    requires NumberLength(s) == |s|
    ensures forall i | 0 <= i < |s| :: Plain(true, s[i])
  {
    if s != [] && s[0] == '-' {
      NumericIsPlain(s[1..]);
      assert forall i | 0 < i < |s| :: s[i] == s[1..][i - 1];
    } else {
      NumericIsPlain(s);
    }
  }

  /** Texts of a type are among them, and clean. */
  lemma {:induction false} FitsIsLexical(t: Type, tree: Tree)
    requires Fits(t, tree)
    ensures Lexical(true, tree)
    decreases tree
  {
    match tree
    case Flag(_, _) =>
    case Word(_, text) => NumberIsPlain(text);
    case Quoted(_, _, _) => hide Scan;
    case Listing(_, items) =>
      forall i | 0 <= i < |items|
        ensures Lexical(true, items[i].tree) && Blank(items[i].after)
      {
        FitsIsLexical(t.item, items[i].tree);
      }
    case Grouping(_, items) =>
      forall i | 0 <= i < |items|
        ensures Lexical(true, items[i].tree) && Blank(items[i].after)
      {
        FitsIsLexical(t.items[i], items[i].tree);
      }
  }

  /** Whatever the Erlang reading accepts, the Python reading of the translation accepts,
      with the same value. */
  lemma MeaningKept(t: Type, s: string)
    requires L.Valid(t) && ParseAll(Erlang, t, s).Some?
    ensures Translate(s).Some? && ParseAll(Python, t, Translate(s).value) == ParseAll(Erlang, t, s)
  {
    var v := ParseAll(Erlang, t, s).value;
    L.Accepted(Erlang, t, s, v);
    var tree, trailing :| L.IsText(Erlang, t, tree, trailing, s, v);
    LayoutTranslated(t, tree, trailing);
    var s' := Show(Python, tree) + trailing;
    assert L.IsText(Python, t, tree, trailing, s', v);
    L.Accepted(Python, t, s', v);
    hide ParseAll, Show, Output, End;
  }

  // ----- and back -----

  lemma Starts(m: Mode, s: string)
    ensures s == [] ==> Output(m, s) == []
    ensures s != [] ==> Output(m, s) == Emit(m, s[0]) + Output(Next(m, s[0]), s[1..])
  {
    if s != [] {
      assert [s[0]] + s[1..] == s;
      First(m, s[0], s[1..]);
    }
  }

  lemma NoBracket(s: string)
    requires Clean(Outside, s)
    ensures Output(Outside, s) != [] ==> Output(Outside, s)[0] != ')'
  {
    Starts(Outside, s);
    hide Output;
  }

  lemma Second(s: string)
    requires Clean(Outside, s) && s != [] && (s[0] == '}' || s[0] == ']')
    ensures (|Output(Outside, s)| > 1 && Output(Outside, s)[1] == ')') <==> s[0] == '}'
  {
    Starts(Outside, s);
    NoBracket(s[1..]);
    hide Output, Clean;
  }

  lemma {:induction false} Injective(m: Mode, a: string, b: string)
    requires Clean(m, a) && Clean(m, b) && Output(m, a) == Output(m, b)
    ensures a == b
    decreases |a|
  {
    Starts(m, a);
    Starts(m, b);
    if a != [] && b != [] {
      SameFirst(m, a, b);
      var e := Emit(m, a[0]);
      assert Output(m, a)[|e|..] == Output(Next(m, a[0]), a[1..]);
      assert Output(m, b)[|e|..] == Output(Next(m, b[0]), b[1..]);
      Injective(Next(m, a[0]), a[1..], b[1..]);
      assert [a[0]] + a[1..] == a && [b[0]] + b[1..] == b;
    }
  }

  lemma SameFirst(m: Mode, a: string, b: string)
    requires a != [] && b != [] && Clean(m, a) && Clean(m, b) && Output(m, a) == Output(m, b)
    ensures a[0] == b[0]
  {
    Starts(m, a);
    Starts(m, b);
    hide Output;
    assert Output(m, a)[0] == Emit(m, a[0])[0] && Output(m, b)[0] == Emit(m, b[0])[0];
    if m.Outside? && (a[0] == '}' || a[0] == ']') && (b[0] == '}' || b[0] == ']') {
      Second(a);
      Second(b);
    }
  }

  /** For texts that say neither tuple( nor ) by themselves the translation says no more
      than the original: it is read as a value exactly when the original is. */
  lemma NothingAdded(t: Type, s: string, v: Value)
    requires L.Valid(t) && Clean(Outside, s) && Translate(s).Some?
    ensures ParseAll(Python, t, Translate(s).value) == Some(v) <==> ParseAll(Erlang, t, s) == Some(v)
  {
    if ParseAll(Erlang, t, s) == Some(v) {
      MeaningKept(t, s);
    }
    var s' := Translate(s).value;
    if ParseAll(Python, t, s') == Some(v) {
      L.Accepted(Python, t, s', v);
      var tree, trailing :| L.IsText(Python, t, tree, trailing, s', v);
      LayoutTranslated(t, tree, trailing);
      var was := Show(Erlang, tree) + trailing;
      hide Output, End, Clean, Parse, Show;
      Injective(Outside, s, was);
      assert L.IsText(Erlang, t, tree, trailing, was, v);
      L.Accepted(Erlang, t, was, v);
    }
  }

  lemma LayoutTranslated(t: Type, tree: Tree, trailing: string)
    requires Fits(t, tree) && Blank(trailing)
    ensures Becomes(true, Show(Erlang, tree) + trailing, Show(Python, tree) + trailing)
  {
    hide Fits, Lexical, Becomes, Show;
    FitsIsLexical(t, tree);
    Translated(true, tree);
    BlankStays(true, trailing);
    Chain(true, Show(Erlang, tree), Show(Python, tree), trailing, trailing);
  }

  /** Without the condition it may say more. */
  lemma SomethingAdded()
    ensures var t, s := TTuple([TBool]), "tuple([1])";
      Translate(s) == Some(s) && ParseAll(Python, t, s).Some? && ParseAll(Erlang, t, s).None?
  {
    KeptStays("tuple([1])");
    PythonReads();
    ErlangRefuses();
    hide Output, End, ParseAll;
  }

  lemma PythonReads()
    ensures ParseAll(Python, TTuple([TBool]), "tuple([1])").Some?
  {
    var tree := Grouping("", [Item(Flag("", true), "")]);
    assert ShowItems(Python, [], ",", "])") == "])";
    assert ShowItems(Python, tree.items, "", "])") == "1])";
    assert Show(Python, tree) + "" == "tuple([1])";
    hide Show, Parse;
    Complete(Python, TTuple([TBool]), tree, "");
  }

  lemma ErlangRefuses()
    ensures ParseAll(Erlang, TTuple([TBool]), "tuple([1])").None?
  {
    assert "tuple([1])"[..1] == ['t'] != "{";
  }
}

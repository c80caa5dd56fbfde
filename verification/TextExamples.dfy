/** The text that the tool itself is called with, character by character, and others that
    show one thing each. */
module TextExamples {
  import opened Wrappers
  import opened Bits
  import opened TypedText
  import opened Translator
  import F = PyFloat
  import FT = FloatTexts
  import L = TextLaws
  import TL = TranslatorLaws

  // ----- numbers -----

  lemma {:induction false} DigitsOf(s: string, c: char)
    requires F.AllDigits(s) && F.IsDigit(c)
    ensures F.AllDigits(s + [c]) && F.Digits(s + [c]) == 10 * F.Digits(s) + (c as int - '0' as int)
  {
    assert (s + [c])[..|s|] == s;
  }

  lemma TwoDigits(a: char, b: char)
    requires F.IsDigit(a) && F.IsDigit(b)
    ensures F.AllDigits([a]) && F.Digits([a]) == a as int - '0' as int
    ensures F.AllDigits([a, b]) && F.Digits([a, b]) == 10 * (a as int - '0' as int) + (b as int - '0' as int)
  {
    assert F.Digits("") == 0 && "" + [a] == [a] && [a] + [b] == [a, b];
    DigitsOf("", a);
    DigitsOf([a], b);
  }

  /** A fraction of k digits counts tenths, hundredths and so on. */
  lemma Places()
    ensures F.Power10(1) == 10 && F.Power10(2) == 100 && F.Power10(3) == 1000
  {
  }

  lemma SmallBits()
    ensures FT.HasBits(1, 1) && FT.HasBits(34, 6) && Pow2(47) > 1000 && Pow2(52) > 1000
  {
    assert Pow2(0) == 1 && Pow2(1) == 2 && Pow2(5) == 32 && Pow2(6) == 64 && Pow2(10) == 1024;
    hide Pow2;
    Pow2Mono(10, 47);
    Pow2Mono(10, 52);
  }

  lemma FarFromNext(w: nat, m: nat, d: nat, j: nat)
    requires m < d && Pow2(j) > d
    ensures !FT.Up(w, m, d, j)
  {
    hide Pow2;
    F.Wider(1, d - m, Pow2(j));
    assert 2 * (d - m) * Pow2(j) == 2 * ((d - m) * Pow2(j));
  }

  /** The number of the tool's own example, and a fraction of one digit. */
  lemma Numbers()
    ensures F.PyInt("-34.01") == Some(-34) && F.PyInt("1.5") == Some(1)
  {
    hide F.PyInt;
    Thirty();
    Half();
  }

  lemma Thirty()
    ensures F.PyInt("-34.01") == Some(-34)
  {
    hide F.Digits, F.PyInt, Pow2, FT.Up, FT.HasBits, F.Power10, F.AllDigits;
    TwoDigits('3', '4');
    TwoDigits('0', '1');
    Places();
    SmallBits();
    FarFromNext(34, 1, 100, 47);
    FT.FractionRounds("34", "01", 6);
    Joined();
    FT.Minus("34.01");
  }

  lemma Joined()
    ensures "34" + "." + "01" == "34.01" && "-" + "34.01" == "-34.01"
  {
  }

  lemma Half()
    ensures F.PyInt("1.5") == Some(1)
  {
    hide F.Digits, F.PyInt, Pow2, FT.Up, FT.HasBits, F.Power10, F.AllDigits;
    TwoDigits('1', '5');
    TwoDigits('5', '1');
    Places();
    SmallBits();
    FarFromNext(1, 5, 10, 52);
    FT.FractionRounds("1", "5", 1);
    assert "1" + "." + "5" == "1.5";
  }

  // ----- blanks, booleans, brackets -----

  /** The six blanks of ASCII. */
  lemma Blanks(c: char)
    ensures IsSpace(c) <==> c == ' ' || c == '\t' || c == '\n' || c == '\r' || c as int == 11 || c as int == 12
  {
  }

  lemma Booleans(s: string)
    ensures Parse(Erlang, TBool, "1" + s) == Some((VBool(true), s))
    ensures Parse(Erlang, TBool, "0" + s) == Some((VBool(false), s))
  {
    assert ("1" + s)[1..] == s && ("0" + s)[1..] == s;
  }

  // ----- brackets -----

  const TYPE := TTuple([TInt, TList(TInt), TString])

  const ERLANG := "{1,[2,3],\"a\"}"

  const PYTHON := "tuple([1,[2,3],\"a\"])"

  function Items23(): seq<Item>
  {
    [Item(Word("", "2"), ""), Item(Word("", "3"), "")]
  }

  function Layout(): Tree
  {
    Grouping("", [Item(Word("", "1"), ""), Item(Listing("", Items23()), ""), Item(Quoted("", '\"', "a"), "")])
  }

  lemma OneMore(syn: Syntax, item: Item, rest: seq<Item>, comma: string, close: string, shown: string)
    requires Show(syn, item.tree) == shown && item.after == ""
    ensures ShowItems(syn, [item] + rest, comma, close) == comma + (shown + ShowItems(syn, rest, ",", close))
  {
    assert ([item] + rest)[1..] == rest;
    hide Show;
  }

  lemma ShowList(syn: Syntax)
    ensures ShowItems(syn, Items23(), "", "]") == "2,3]"
  {
    var a, b := Items23()[0], Items23()[1];
    assert Items23() == [a] + ([b] + []);
    assert Show(syn, a.tree) == "2" && Show(syn, b.tree) == "3" && ShowItems(syn, [], ",", "]") == "]";
    hide Show, ShowItems, Items23;
    OneMore(syn, b, [], ",", "]", "3");
    OneMore(syn, a, [b] + [], "", "]", "2");
    assert "," + ("3" + "]") == ",3]";
  }

  lemma ShowParts(syn: Syntax)
    ensures Show(syn, Layout().items[0].tree) == "1"
    ensures Show(syn, Layout().items[1].tree) == "[2,3]"
    ensures Show(syn, Layout().items[2].tree) == "\"a\""
  {
    ShowList(syn);
    hide ShowItems;
    assert "" + ("[" + "2,3]") == "[2,3]";
  }

  lemma ShowComponents(syn: Syntax, close: string)
    ensures ShowItems(syn, Layout().items, "", close) == "1,[2,3],\"a\"" + close
  {
    var a, b, c := Layout().items[0], Layout().items[1], Layout().items[2];
    assert Layout().items == [a] + ([b] + ([c] + []));
    ShowParts(syn);
    assert ShowItems(syn, [], ",", close) == close;
    hide Show, ShowItems, Items23, Layout;
    OneMore(syn, c, [], ",", close, "\"a\"");
    OneMore(syn, b, [c] + [], ",", close, "[2,3]");
    OneMore(syn, a, [b] + ([c] + []), "", close, "1");
    Glue(close);
  }

  lemma Glue(close: string)
    ensures "" + ("1" + ("," + ("[2,3]" + ("," + ("\"a\"" + close))))) == "1,[2,3],\"a\"" + close
  {
    assert "1" + "," + "[2,3]" + "," + "\"a\"" == "1,[2,3],\"a\"";
  }

  lemma Shown()
    ensures Show(Erlang, Layout()) == ERLANG && Show(Python, Layout()) == PYTHON
  {
    ShowComponents(Erlang, "}");
    ShowComponents(Python, "])");
    assert Show(Erlang, Layout()) == "" + ("{" + ShowItems(Erlang, Layout().items, "", "}"));
    assert Show(Python, Layout()) == "" + ("tuple([" + ShowItems(Python, Layout().items, "", "])"));
    hide ShowItems, Show;
    Bracketed();
  }

  lemma Bracketed()
    ensures "" + ("{" + ("1,[2,3],\"a\"" + "}")) == ERLANG
    ensures "" + ("tuple([" + ("1,[2,3],\"a\"" + "])")) == PYTHON
  {
  }

  lemma Digit(c: char)
    requires F.IsDigit(c)
    ensures NumberLength([c]) == 1 && F.PyInt([c]) == Some(c as int - '0' as int)
  {
    hide F.PyInt, F.Digits;
    TwoDigits(c, c);
    NoDigits();
    FT.NoFraction([c], "");
    OneLong(c);
  }

  lemma NoDigits()
    ensures F.AllDigits("") && F.Digits("") == 0
  {
  }

  lemma OneLong(c: char)
    requires F.IsDigit(c)
    ensures NumberLength([c]) == 1
  {
    assert [c][1..] == [] && Numeric([]) == 0;
  }

  lemma ListFits()
    ensures Fits(TList(TInt), Layout().items[1].tree) && ValuesOf(Items23()) == [VInt(2), VInt(3)]
  {
    hide F.PyInt, NumberLength;
    Digit('2');
    Digit('3');
    var xs := Items23();
    assert xs[1..] == [xs[1]];
    assert ValuesOf([xs[1]]) == [ValueOf(xs[1].tree)] + ValuesOf([]) == [VInt(3)];
  }

  lemma PlainA()
    ensures WellEscaped('\"', "a")
  {
    L.WellEscapedMeaning('\"', "a");
    assert "a"[1..] == "";
  }

  lemma LayoutFits()
    ensures Fits(TYPE, Layout())
    ensures ValueOf(Layout()) == VTuple([VInt(1), VList([VInt(2), VInt(3)]), VStr("a")])
  {
    hide F.PyInt, NumberLength, WellEscaped, Items23, Scan;
    Digit('1');
    ListFits();
    PlainA();
    var xs := Layout().items;
    assert xs[1..] == [xs[1], xs[2]] && xs[1..][1..] == [xs[2]];
    assert ValuesOf([xs[2]]) == [ValueOf(xs[2].tree)] + ValuesOf([]) == [VStr("a")];
    assert ValuesOf([xs[1], xs[2]]) == [VList([VInt(2), VInt(3)])] + [VStr("a")];
    assert ValuesOf(xs) == [VInt(1)] + ([VList([VInt(2), VInt(3)])] + [VStr("a")]);
  }

  /** A tuple of an integer, a list and a string, in the two ways to write it. */
  lemma ParsesExample()
    ensures ParseAll(Erlang, TYPE, ERLANG) == Some(VTuple([VInt(1), VList([VInt(2), VInt(3)]), VStr("a")]))
    ensures ParseAll(Python, TYPE, PYTHON) == Some(VTuple([VInt(1), VList([VInt(2), VInt(3)]), VStr("a")]))
  {
    LayoutFits();
    Shown();
    hide Show, Layout, Fits;
    assert ERLANG + "" == ERLANG && PYTHON + "" == PYTHON;
    assert L.IsText(Erlang, TYPE, Layout(), "", ERLANG, ValueOf(Layout()));
    assert L.IsText(Python, TYPE, Layout(), "", PYTHON, ValueOf(Layout()));
    L.Accepted(Erlang, TYPE, ERLANG, ValueOf(Layout()));
    L.Accepted(Python, TYPE, PYTHON, ValueOf(Layout()));
  }

  lemma TranslatesExample()
    ensures Translate(ERLANG) == Some(PYTHON)
  {
    LayoutFits();
    Shown();
    hide Show, Layout, Fits, Output, End;
    assert ERLANG + "" == ERLANG && PYTHON + "" == PYTHON;
    TL.LayoutTranslated(TYPE, Layout(), "");
  }

  /** Braces in literals stay, in either kind of quotes. */
  lemma TranslatesLiterals(quote: char)
    requires IsQuote(quote)
    ensures Translate("{" + [quote] + "}{" + [quote] + "}") == Some("tuple([" + [quote] + "}{" + [quote] + "])")
  {
    var literal := [quote] + ("}{" + [quote]);
    L.WellEscapedMeaning(quote, "}{");
    TL.Braces(false);
    TL.QuotedStays(false, quote, "}{");
    hide Output, End, WellEscaped;
    TL.Chain(false, "{", "tuple([", literal, literal);
    TL.Chain(false, "{" + literal, "tuple([" + literal, "}", "])");
    assert "{" + literal + "}" == "{" + [quote] + "}{" + [quote] + "}";
    assert "tuple([" + literal + "])" == "tuple([" + [quote] + "}{" + [quote] + "])";
  }
}

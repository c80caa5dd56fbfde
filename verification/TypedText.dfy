/** Texts read by a type description: booleans, integers, strings, lists and tuples, with
    blanks before every token. */
module TypedText {
  import Collections
  import opened Wrappers
  import F = PyFloat

  datatype Type = TBool | TInt | TString | TList(item: Type) | TTuple(items: seq<Type>)

  datatype Value = VBool(b: bool) | VInt(n: int) | VStr(s: string) | VList(items: seq<Value>) | VTuple(items: seq<Value>)

  /** How a tuple is bracketed: {..}, tuple([..]), or at each place one or the other. */
  datatype Reading = Erlang | Python | Mixed

  /** The ways to write. */
  type Syntax = r: Reading | !r.Mixed? witness Erlang

  function Open(syn: Syntax): (s: string)
    ensures s != [] && !IsSpace(s[0])
  {
    if syn.Erlang? then "{" else "tuple(["
  }

  function Close(syn: Syntax): (s: string)
    ensures s != [] && Delimiter(s[0])
  {
    if syn.Erlang? then "}" else "])"
  }

  predicate IsSpace(c: char)
  {
    c == ' ' || 9 <= c as int <= 13
  }

  predicate Delimiter(c: char)
  {
    !IsSpace(c) && !F.IsNumeric(c)
  }

  predicate IsQuote(c: char)
  {
    c == '\'' || c == '\"'
  }

  // ----- the parser -----

  function Skip(s: string): (r: string)
    ensures |r| <= |s| && (r == [] || !IsSpace(r[0]))
  {
    if s != [] && IsSpace(s[0]) then Skip(s[1..]) else s
  }

  function Longer(k: nat, r: Option<nat>): Option<nat>
  {
    if r.Some? then Some(r.value + k) else None
  }

  /** The length of a string literal's body, up to the quote that ends it: a backslash
      takes the character behind it along. */
  function Scan(end: char, s: string): (r: Option<nat>)
    ensures r.Some? ==> r.value < |s| && s[r.value] == end
  {
    if s == [] then None
    else if s[0] == end then Some(0)
    else if s[0] == '\\' then (if |s| < 2 then None else Longer(2, Scan(end, s[2..])))
    else Longer(1, Scan(end, s[1..]))
  }

  function Numeric(s: string): (n: nat)
    ensures n <= |s|
  {
    if s != [] && F.IsNumeric(s[0]) then 1 + Numeric(s[1..]) else 0
  }

  function NumberLength(s: string): (n: nat)
    ensures n <= |s|
  {
    if s != [] && s[0] == '-' then 1 + Numeric(s[1..]) else Numeric(s)
  }

  function Expect(token: string, s: string): (r: Option<string>)
    ensures r.Some? ==> s == token + r.value
  {
    if |token| <= |s| && s[..|token|] == token then Some(s[|token|..]) else None
  }

  function Either(a: Option<string>, b: Option<string>): Option<string>
  {
    if a.Some? then a else b
  }

  function ExpectOpen(rd: Reading, s: string): (r: Option<string>)
    ensures r.Some? ==> |r.value| < |s|
  {
    if rd.Mixed? then Either(Expect(Open(Erlang), s), Expect(Open(Python), s)) else Expect(Open(rd), s)
  }

  function ExpectClose(rd: Reading, s: string): (r: Option<string>)
    ensures r.Some? ==> |r.value| < |s|
  {
    if rd.Mixed? then Either(Expect(Close(Erlang), s), Expect(Close(Python), s)) else Expect(Close(rd), s)
  }

  function Parse(rd: Reading, t: Type, s: string): (r: Option<(Value, string)>)
    ensures r.Some? ==> |r.value.1| < |s|
    decreases t, |s|, 1
  {
    ParseToken(rd, t, Skip(s))
  }

  function ParseToken(rd: Reading, t: Type, s: string): (r: Option<(Value, string)>)
    ensures r.Some? ==> |r.value.1| < |s|
    decreases t, |s|, 0
  {
    if s == [] then None else
    match t
    case TBool =>
      if s[0] == '0' then Some((VBool(false), s[1..]))
      else if s[0] == '1' then Some((VBool(true), s[1..]))
      else None
    case TInt =>
      var n := NumberLength(s);
      var v := F.PyInt(s[..n]);
      if v.None? then None else Some((VInt(v.value), s[n..]))
    case TString =>
      if !IsQuote(s[0]) then None else
      var n := Scan(s[0], s[1..]);
      if n.None? then None else Some((VStr(s[1..][..n.value]), s[1..][n.value + 1..]))
    case TList(item) =>
      if s[0] != '[' then None else
      var r := ParseList(rd, item, s[1..]);
      if r.None? then None else Some((VList(r.value.0), r.value.1))
    case TTuple(items) =>
      var inner := ExpectOpen(rd, s);
      if inner.None? then None else
      var r := ParseItems(rd, items, "", inner.value);
      if r.None? then None else Some((VTuple(r.value.0), r.value.1))
  }

  function ParseList(rd: Reading, item: Type, s: string): (r: Option<(seq<Value>, string)>)
    ensures r.Some? ==> |r.value.1| < |s| && r.value.0 != []
    decreases item, |s|, 2
  {
    var first := Parse(rd, item, s);
    if first.None? then None else
    var (v, after) := first.value;
    var rest := Skip(after);
    if rest == [] then None
    else if rest[0] == ']' then Some(([v], rest[1..]))
    else if rest[0] == ',' then Cons(v, ParseList(rd, item, rest[1..]))
    else None
  }

  /** The items still to come, after a comma unless they are the first. */
  function ParseItems(rd: Reading, items: seq<Type>, comma: string, s: string): (r: Option<(seq<Value>, string)>)
    ensures r.Some? ==> |r.value.1| < |s|
    decreases items, |s|, 2
  {
    if items == [] then
      var rest := ExpectClose(rd, Skip(s));
      if rest.None? then None else Some(([], rest.value))
    else
      var next := if comma == "" then Some(s) else Expect(comma, Skip(s));
      if next.None? then None else
      var first := Parse(rd, items[0], next.value);
      if first.None? then None else Cons(first.value.0, ParseItems(rd, items[1..], ",", first.value.1))
  }

  /** convert_toplevel of a list or a tuple: nothing but blanks may follow. */
  function ParseAll(rd: Reading, t: Type, s: string): Option<Value>
  {
    var r := Parse(rd, t, s);
    if r.Some? && Skip(r.value.1) == [] then Some(r.value.0) else None
  }

  // ----- layouts -----

  /** A text with everything its value forgets: blanks, digits, quotes.  The words of typed
      texts are numbers. */
  datatype Tree =
    | Flag(blank: string, b: bool)
    | Word(blank: string, text: string)
    | Quoted(blank: string, quote: char, body: string)
    | Listing(blank: string, items: seq<Item>)
    | Grouping(blank: string, items: seq<Item>)

  datatype Item = Item(tree: Tree, after: string)

  predicate Blank(s: string)
  {
    forall i | 0 <= i < |s| :: IsSpace(s[i])
  }

  function Show(syn: Syntax, tree: Tree): string
    decreases tree, 1
  {
    tree.blank + ShowToken(syn, tree)
  }

  function ShowToken(syn: Syntax, tree: Tree): string
    decreases tree, 0
  {
    match tree
    case Flag(_, b) => if b then "1" else "0"
    case Word(_, text) => text
    case Quoted(_, quote, body) => [quote] + (body + [quote])
    case Listing(_, items) => "[" + ShowItems(syn, items, "", "]")
    case Grouping(_, items) => Open(syn) + ShowItems(syn, items, "", Close(syn))
  }

  function ShowItems(syn: Syntax, items: seq<Item>, comma: string, close: string): string
    decreases items, 0
  {
    if items == [] then close
    else comma + (Show(syn, items[0].tree) + (items[0].after + ShowItems(syn, items[1..], ",", close)))
  }

  function ValueOf(tree: Tree): Value
    decreases tree
  {
    match tree
    case Flag(_, b) => VBool(b)
    case Word(_, text) => VInt(if F.PyInt(text).Some? then F.PyInt(text).value else 0)
    case Quoted(_, _, body) => VStr(body)
    case Listing(_, items) => VList(ValuesOf(items))
    case Grouping(_, items) => VTuple(ValuesOf(items))
  }

  function ValuesOf(items: seq<Item>): seq<Value>
    decreases items, 0
  {
    if items == [] then [] else [ValueOf(items[0].tree)] + ValuesOf(items[1..])
  }

  predicate WellEscaped(quote: char, body: string)
  {
    Scan(quote, body + [quote]) == Some(|body|)
  }

  /** The layouts of texts of type t. */
  predicate Fits(t: Type, tree: Tree)
    decreases t
  {
    Blank(tree.blank) &&
    match t
    case TBool => tree.Flag?
    case TInt => tree.Word? && NumberLength(tree.text) == |tree.text| && F.PyInt(tree.text).Some?
    case TString => tree.Quoted? && IsQuote(tree.quote) && WellEscaped(tree.quote, tree.body)
    case TList(item) =>
      && tree.Listing? && tree.items != []
      && forall i | 0 <= i < |tree.items| :: Fits(item, tree.items[i].tree) && Blank(tree.items[i].after)
    case TTuple(items) =>
      && tree.Grouping? && |tree.items| == |items| > 0
      && forall i | 0 <= i < |items| :: Fits(items[i], tree.items[i].tree) && Blank(tree.items[i].after)
  }

  /** A number must not run into more digits or dots. */
  predicate Follow(tree: Tree, s: string)
  {
    tree.Word? && s != [] ==> !F.IsNumeric(s[0])
  }

  // ----- every layout is read as its value -----

  lemma {:induction false} SkipBlank(b: string, s: string)
    requires Blank(b) && (s == [] || !IsSpace(s[0]))
    ensures Skip(b + s) == s
  {
    if b == [] {
      assert b + s == s;
    } else {
      assert (b + s)[1..] == b[1..] + s;
      SkipBlank(b[1..], s);
    }
  }

  lemma {:induction false} ScanMore(end: char, s: string, t: string)
    requires Scan(end, s).Some?
    ensures Scan(end, s + t) == Scan(end, s)
  {
    if s[0] != end {
      var k := if s[0] == '\\' then 2 else 1;
      assert (s + t)[k..] == s[k..] + t;
      ScanMore(end, s[k..], t);
    }
  }

  lemma {:induction false} NumericMore(s: string, t: string)
    requires Numeric(s) == |s| && (t == [] || !F.IsNumeric(t[0]))
    ensures Numeric(s + t) == |s|
  {
    if s == [] {
      assert s + t == t;
    } else {
      assert (s + t)[1..] == s[1..] + t;
      NumericMore(s[1..], t);
    }
  }

  lemma NumberMore(s: string, t: string)
    requires s != [] && NumberLength(s) == |s| && (t == [] || !F.IsNumeric(t[0]))
    ensures NumberLength(s + t) == |s|
  {
    if s[0] == '-' {
      assert (s + t)[1..] == s[1..] + t;
      NumericMore(s[1..], t);
    } else {
      NumericMore(s, t);
    }
  }

  lemma ExpectShown(token: string, s: string)
    ensures Expect(token, token + s) == Some(s)
  {
    assert (token + s)[..|token|] == token;
  }

  lemma TokenStart(syn: Syntax, t: Type, tree: Tree)
    requires Fits(t, tree)
    ensures ShowToken(syn, tree) != [] && !IsSpace(ShowToken(syn, tree)[0])
  {
    hide Scan, ShowItems, Blank;
    if tree.Word? {
      assert tree.text != [];
    }
  }

  lemma CompleteNumber(syn: Syntax, tree: Tree, s: string)
    requires tree.Word? && Fits(TInt, tree) && Follow(tree, s)
    ensures ParseToken(syn, TInt, ShowToken(syn, tree) + s) == Some((ValueOf(tree), s))
  {
    assert tree.text != [];
    NumberMore(tree.text, s);
    var all := tree.text + s;
    assert all[..|tree.text|] == tree.text && all[|tree.text|..] == s;
    hide F.PyInt;
  }

  lemma CompleteQuoted(syn: Syntax, tree: Tree, s: string)
    requires tree.Quoted? && Fits(TString, tree)
    ensures ParseToken(syn, TString, ShowToken(syn, tree) + s) == Some((ValueOf(tree), s))
  {
    var literal := tree.body + [tree.quote];
    ScanMore(tree.quote, literal, s);
    var all := ShowToken(syn, tree) + s;
    assert all[1..] == literal + s;
    assert (literal + s)[..|tree.body|] == tree.body && (literal + s)[|literal|..] == s;
    hide Scan;
  }

  /** Printing with any blanks and reading gives the value back, whatever follows. */
  lemma {:induction false} Complete(syn: Syntax, t: Type, tree: Tree, s: string)
    requires Fits(t, tree) && Follow(tree, s)
    ensures Parse(syn, t, Show(syn, tree) + s) == Some((ValueOf(tree), s))
    decreases t, 1
  {
    TokenStart(syn, t, tree);
    CompleteToken(syn, t, tree, s);
    Collections.Associate(tree.blank, ShowToken(syn, tree), s);
    SkipBlank(tree.blank, ShowToken(syn, tree) + s);
    hide ParseToken, ShowToken, Fits, ValueOf, Skip;
  }

  lemma {:induction false} CompleteToken(syn: Syntax, t: Type, tree: Tree, s: string)
    requires Fits(t, tree) && Follow(tree, s)
    ensures ParseToken(syn, t, ShowToken(syn, tree) + s) == Some((ValueOf(tree), s))
    decreases t, 0
  {
    match t
    case TBool =>
      assert (ShowToken(syn, tree) + s)[1..] == s;
    case TInt => CompleteNumber(syn, tree, s);
    case TString => CompleteQuoted(syn, tree, s);
    case TList(item) =>
      hide ParseToken, ShowToken;
      CompleteList(syn, item, tree.items, s);
      Listed(syn, item, tree, s);
    case TTuple(types) =>
      hide ParseToken, ShowToken;
      CompleteItems(syn, types, tree.items, "", "", s);
      Grouped(syn, types, tree, s);
  }

  lemma Listed(syn: Syntax, item: Type, tree: Tree, s: string)
    requires tree.Listing?
    requires ParseList(syn, item, ShowItems(syn, tree.items, "", "]") + s) == Some((ValuesOf(tree.items), s))
    ensures ParseToken(syn, TList(item), ShowToken(syn, tree) + s) == Some((ValueOf(tree), s))
  {
    var inner := ShowItems(syn, tree.items, "", "]");
    Collections.Associate("[", inner, s);
    assert ("[" + (inner + s))[1..] == inner + s;
    hide ParseList, ShowItems, ValuesOf;
  }

  lemma Grouped(syn: Syntax, types: seq<Type>, tree: Tree, s: string)
    requires tree.Grouping?
    requires ParseItems(syn, types, "", "" + (ShowItems(syn, tree.items, "", Close(syn)) + s)) == Some((ValuesOf(tree.items), s))
    ensures ParseToken(syn, TTuple(types), ShowToken(syn, tree) + s) == Some((ValueOf(tree), s))
  {
    var inner := ShowItems(syn, tree.items, "", Close(syn));
    Collections.Associate(Open(syn), inner, s);
    ExpectShown(Open(syn), inner + s);
    assert "" + (inner + s) == inner + s;
    hide ParseItems, ShowItems, ValuesOf, Expect, Open, Close;
  }

  lemma FollowBlank(tree: Tree, blank: string, s: string)
    requires Blank(blank) && s != [] && Delimiter(s[0])
    ensures Follow(tree, blank + s)
  {
  }

  ghost predicate AllFit(item: Type, items: seq<Item>)
  {
    forall i | 0 <= i < |items| :: Fits(item, items[i].tree) && Blank(items[i].after)
  }

  lemma ListLast(syn: Syntax, item: Type, text: string, v: Value, after: string, s: string)
    requires Parse(syn, item, text) == Some((v, after + ("]" + s))) && Blank(after)
    ensures ParseList(syn, item, text) == Some(([v], s))
  {
    SkipBlank(after, "]" + s);
    assert ("]" + s)[1..] == s;
    hide Parse, Skip;
  }

  lemma ListMore(syn: Syntax, item: Type, text: string, v: Value, after: string, rest: string)
    requires Parse(syn, item, text) == Some((v, after + ("," + rest))) && Blank(after)
    ensures ParseList(syn, item, text) == Cons(v, ParseList(syn, item, rest))
  {
    SkipBlank(after, "," + rest);
    assert ("," + rest)[1..] == rest;
    hide Parse, Skip;
  }

  lemma ItemText(syn: Syntax, items: seq<Item>, comma: string, close: string, s: string)
    requires items != []
    ensures ShowItems(syn, items, comma, close) + s
         == comma + (Show(syn, items[0].tree) + (items[0].after + (ShowItems(syn, items[1..], ",", close) + s)))
  {
    hide Show;
  }

  lemma CommaText(syn: Syntax, items: seq<Item>, close: string, s: string)
    requires items != []
    ensures ShowItems(syn, items, ",", close) + s == "," + (ShowItems(syn, items, "", close) + s)
  {
    hide Show;
    ItemText(syn, items, ",", close, s);
    ItemText(syn, items, "", close, s);
  }

  lemma {:induction false} CompleteList(syn: Syntax, item: Type, items: seq<Item>, s: string)
    requires items != [] && AllFit(item, items)
    ensures ParseList(syn, item, ShowItems(syn, items, "", "]") + s) == Some((ValuesOf(items), s))
    decreases item, 2, |items|
  {
    var tree, after, rest := items[0].tree, items[0].after, items[1..];
    var next := ShowItems(syn, rest, ",", "]") + s;
    var text := Show(syn, tree) + (after + next);
    assert Fits(item, tree) && Blank(after);
    assert AllFit(item, rest);
    ItemText(syn, items, "", "]", s);
    assert ShowItems(syn, items, "", "]") + s == text;
    assert ValuesOf(items) == [ValueOf(tree)] + ValuesOf(rest);
    if rest == [] {
      assert next == "]" + s && ValuesOf(items) == [ValueOf(tree)];
      hide Fits, ParseList, Parse, Show, ShowItems, ValuesOf, ValueOf;
      FollowBlank(tree, after, next);
      Complete(syn, item, tree, after + next);
      ListLast(syn, item, text, ValueOf(tree), after, s);
    } else {
      var inner := ShowItems(syn, rest, "", "]") + s;
      CommaText(syn, rest, "]", s);
      hide Fits, ParseList, Parse, Show, ShowItems, ValuesOf, ValueOf;
      FollowBlank(tree, after, next);
      Complete(syn, item, tree, after + next);
      ListMore(syn, item, text, ValueOf(tree), after, inner);
      CompleteList(syn, item, rest, s);
    }
  }

  lemma ItemsNone(syn: Syntax, comma: string, blank: string, s: string)
    requires Blank(blank)
    ensures ParseItems(syn, [], comma, blank + (Close(syn) + s)) == Some(([], s))
  {
    SkipBlank(blank, Close(syn) + s);
    ExpectShown(Close(syn), s);
    hide Skip, Close, Expect;
  }

  lemma ItemsMore(syn: Syntax, types: seq<Type>, comma: string, blank: string, text: string, v: Value, rest: string)
    requires types != [] && Blank(blank)
    requires (comma == "" && blank == "") || comma == ","
    requires Parse(syn, types[0], text) == Some((v, rest))
    ensures ParseItems(syn, types, comma, blank + (comma + text)) == Cons(v, ParseItems(syn, types[1..], ",", rest))
  {
    if comma == "" {
      assert blank + (comma + text) == text;
    } else {
      SkipBlank(blank, comma + text);
      ExpectShown(comma, text);
    }
    hide Skip, Expect, Parse;
  }

  ghost predicate EachFits(types: seq<Type>, items: seq<Item>)
  {
    && |types| == |items|
    && forall i | 0 <= i < |items| :: Fits(types[i], items[i].tree) && Blank(items[i].after)
  }

  lemma {:induction false} CompleteItems(syn: Syntax, types: seq<Type>, items: seq<Item>, comma: string, blank: string, s: string)
    requires EachFits(types, items) && Blank(blank)
    requires (comma == "" && blank == "") || comma == ","
    ensures ParseItems(syn, types, comma, blank + (ShowItems(syn, items, comma, Close(syn)) + s)) == Some((ValuesOf(items), s))
    decreases types, 2
  {
    if types == [] {
      ItemsNone(syn, comma, blank, s);
    } else {
      var tree, after, rest := items[0].tree, items[0].after, items[1..];
      var next := ShowItems(syn, rest, ",", Close(syn)) + s;
      ItemText(syn, items, comma, Close(syn), s);
      assert Fits(types[0], tree) && Blank(after);
      assert EachFits(types[1..], rest);
      NextDelimits(syn, rest, s);
      hide Fits, ParseItems, Parse, Show, ShowItems, ParseItems, Close;
      FollowBlank(tree, after, next);
      Complete(syn, types[0], tree, after + next);
      ItemsMore(syn, types, comma, blank, Show(syn, tree) + (after + next), ValueOf(tree), after + next);
      CompleteItems(syn, types[1..], rest, ",", after, s);
    }
  }

  lemma NextDelimits(syn: Syntax, items: seq<Item>, s: string)
    ensures var next := ShowItems(syn, items, ",", Close(syn)) + s;
      next != [] && Delimiter(next[0])
  {
    if items != [] {
      ItemText(syn, items, ",", Close(syn), s);
    }
  }
}

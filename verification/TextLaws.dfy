/** What the typed parser accepts is exactly what the layouts print; printing and parsing
    undo each other. */
module TextLaws {
  import Collections
  import opened Wrappers
  import opened TypedText
  import F = PyFloat

  /** No tuple without a component: the constructor of a tuple type refuses it. */
  predicate Valid(t: Type)
  {
    match t
    case TList(item) => Valid(item)
    case TTuple(items) => items != [] && forall i | 0 <= i < |items| :: Valid(items[i])
    case _ => true
  }

  // ----- everything accepted has a layout -----

  lemma {:induction false} SplitBlank(s: string) returns (b: string)
    ensures Blank(b) && s == b + Skip(s)
  {
    if s != [] && IsSpace(s[0]) {
      var more := SplitBlank(s[1..]);
      b := [s[0]] + more;
      assert s == [s[0]] + s[1..];
      Collections.Associate([s[0]], more, Skip(s[1..]));
    } else {
      b := "";
    }
  }

  lemma {:induction false} ScanCut(end: char, s: string)
    requires Scan(end, s).Some?
    ensures WellEscaped(end, s[..Scan(end, s).value])
  {
    var n := Scan(end, s).value;
    assert s[..n] + [end] == s[..n + 1];
    if s[0] != end {
      var k := if s[0] == '\\' then 2 else 1;
      ScanCut(end, s[k..]);
      assert s[k..][..n - k] + [end] == s[..n + 1][k..];
    }
  }

  lemma {:induction false} NumericCut(s: string)
    ensures var n := Numeric(s); Numeric(s[..n]) == n && (n < |s| ==> !F.IsNumeric(s[n]))
  {
    if s != [] && F.IsNumeric(s[0]) {
      NumericCut(s[1..]);
      assert s[..Numeric(s)][1..] == s[1..][..Numeric(s[1..])];
    }
  }

  lemma NumberCut(s: string)
    ensures var n := NumberLength(s); NumberLength(s[..n]) == n && (n < |s| ==> !F.IsNumeric(s[n]))
  {
    if s != [] && s[0] == '-' {
      NumericCut(s[1..]);
      assert s[..NumberLength(s)][1..] == s[1..][..Numeric(s[1..])];
    } else {
      NumericCut(s);
      if Numeric(s) > 0 {
        assert s[..Numeric(s)][0] == s[0];
      }
    }
  }

  ghost predicate Reads(syn: Syntax, t: Type, tree: Tree, s: string, r: (Value, string))
  {
    Fits(t, tree) && s == Show(syn, tree) + r.1 && ValueOf(tree) == r.0 && Follow(tree, r.1)
  }

  /** Reads, for a text that starts with its token. */
  ghost predicate ReadsToken(syn: Syntax, t: Type, tree: Tree, s: string, r: (Value, string))
  {
    Fits(t, tree) && tree.blank == [] && s == ShowToken(syn, tree) + r.1 && ValueOf(tree) == r.0 && Follow(tree, r.1)
  }

  lemma Blanked(syn: Syntax, t: Type, tree: Tree, b: string, s: string, r: (Value, string))
    requires ReadsToken(syn, t, tree, s, r) && Blank(b)
    ensures Reads(syn, t, tree.(blank := b), b + s, r)
  {
    var tree' := tree.(blank := b);
    assert ShowToken(syn, tree') == ShowToken(syn, tree);
    Collections.Associate(b, ShowToken(syn, tree), r.1);
  }

  /** Every accepted text is a layout, of the type, that shows the value. */
  lemma {:induction false} Sound(syn: Syntax, t: Type, s: string) returns (tree: Tree)
    requires Valid(t) && Parse(syn, t, s).Some?
    ensures Reads(syn, t, tree, s, Parse(syn, t, s).value)
    decreases t, |s|, 1
  {
    var b := SplitBlank(s);
    tree := SoundToken(syn, t, Skip(s));
    Blanked(syn, t, tree, b, Skip(s), Parse(syn, t, s).value);
    tree := tree.(blank := b);
  }

  lemma {:induction false} SoundToken(syn: Syntax, t: Type, s: string) returns (tree: Tree)
    requires Valid(t) && ParseToken(syn, t, s).Some?
    ensures ReadsToken(syn, t, tree, s, ParseToken(syn, t, s).value)
    decreases t, |s|, 0
  {
    match t
    case TBool =>
      tree := Flag("", s[0] == '1');
    case TInt =>
      NumberCut(s);
      tree := Word("", s[..NumberLength(s)]);
    case TString =>
      tree := SoundQuoted(syn, s);
    case TList(item) =>
      var items := SoundList(syn, item, s[1..]);
      tree := Listing("", items);
      ListingReads(syn, item, s, items);
    case TTuple(types) =>
      var inner := Expect(Open(syn), s).value;
      var items, b := SoundItems(syn, types, "", inner);
      tree := Grouping("", items);
      GroupingReads(syn, types, s, items);
  }

  lemma SoundQuoted(syn: Syntax, s: string) returns (tree: Tree)
    requires ParseToken(syn, TString, s).Some?
    ensures ReadsToken(syn, TString, tree, s, ParseToken(syn, TString, s).value)
  {
    ScanCut(s[0], s[1..]);
    var n := Scan(s[0], s[1..]).value;
    hide Scan, WellEscaped;
    tree := Quoted("", s[0], s[1..][..n]);
    QuotedText(s, s[0], n);
  }

  lemma QuotedText(s: string, quote: char, n: nat)
    requires n < |s| - 1 && s[0] == quote && s[1..][n] == quote
    ensures s == ([quote] + (s[1..][..n] + [quote])) + s[1..][n + 1..]
  {
    var t := s[1..];
    assert t == t[..n] + [t[n]] + t[n + 1..];
    assert s == [s[0]] + t;
  }

  ghost predicate ListReads(syn: Syntax, item: Type, items: seq<Item>, s: string, r: (seq<Value>, string))
  {
    items != [] && AllFit(item, items) && s == ShowItems(syn, items, "", "]") + r.1 && ValuesOf(items) == r.0
  }

  lemma ListingReads(syn: Syntax, item: Type, s: string, items: seq<Item>)
    requires ParseToken(syn, TList(item), s).Some?
    requires ListReads(syn, item, items, s[1..], ParseList(syn, item, s[1..]).value)
    ensures ReadsToken(syn, TList(item), Listing("", items), s, ParseToken(syn, TList(item), s).value)
  {
    var r := ParseList(syn, item, s[1..]).value;
    ListingFits(item, items);
    ListingText(syn, s, items, r.1);
    hide ParseList, ShowItems, ValuesOf, Fits, ShowToken, AllFit;
  }

  lemma ListingFits(item: Type, items: seq<Item>)
    requires items != [] && AllFit(item, items)
    ensures Fits(TList(item), Listing("", items))
  {
  }

  lemma ListingText(syn: Syntax, s: string, items: seq<Item>, rest: string)
    requires s != [] && s[0] == '[' && s[1..] == ShowItems(syn, items, "", "]") + rest
    ensures s == ShowToken(syn, Listing("", items)) + rest
  {
    hide ShowItems;
    Collections.Associate("[", ShowItems(syn, items, "", "]"), rest);
    assert s == "[" + s[1..];
  }

  lemma OneItem(syn: Syntax, item: Type, tree: Tree, after: string, s: string, text: string, v: Value)
    requires Reads(syn, item, tree, text, (v, after + ("]" + s))) && Blank(after)
    ensures ListReads(syn, item, [Item(tree, after)], text, ([v], s))
  {
    var items := [Item(tree, after)];
    ItemText(syn, items, "", "]", s);
    assert items[1..] == [] && ValuesOf(items) == [v];
    hide Fits, Show;
  }

  lemma ConsFit(item: Type, tree: Tree, after: string, items: seq<Item>)
    requires Fits(item, tree) && Blank(after) && AllFit(item, items)
    ensures AllFit(item, [Item(tree, after)] + items)
  {
    hide Fits, Blank;
  }

  lemma MoreItems(syn: Syntax, item: Type, tree: Tree, after: string, rest: string, text: string, v: Value, items: seq<Item>, r: (seq<Value>, string))
    requires Reads(syn, item, tree, text, (v, after + ("," + rest))) && Blank(after)
    requires ListReads(syn, item, items, rest, r)
    ensures ListReads(syn, item, [Item(tree, after)] + items, text, ([v] + r.0, r.1))
  {
    var all := [Item(tree, after)] + items;
    assert all[1..] == items;
    assert ValuesOf(all) == [v] + r.0;
    ItemText(syn, all, "", "]", r.1);
    CommaText(syn, items, "]", r.1);
    ConsFit(item, tree, after, items);
    hide Fits, AllFit, Show, ShowItems, ValuesOf, ValueOf;
  }

  lemma {:induction false} SoundList(syn: Syntax, item: Type, s: string) returns (items: seq<Item>)
    requires Valid(item) && ParseList(syn, item, s).Some?
    ensures ListReads(syn, item, items, s, ParseList(syn, item, s).value)
    decreases item, |s|, 2
  {
    var (v, after) := Parse(syn, item, s).value;
    var rest := Skip(after);
    var more := rest[1..];
    assert rest == [rest[0]] + more;
    assert rest[0] == ']' ==> ParseList(syn, item, s) == Some(([v], more));
    assert rest[0] != ']' ==> rest[0] == ',' && ParseList(syn, item, s) == Cons(v, ParseList(syn, item, more));
    var tree := Sound(syn, item, s);
    var b := SplitBlank(after);
    hide Parse, ParseList, Reads, ListReads, Skip, Blank, Valid;
    if rest[0] == ']' {
      OneItem(syn, item, tree, b, more, s, v);
      items := [Item(tree, b)];
    } else {
      items := SoundList(syn, item, more);
      MoreItems(syn, item, tree, b, more, s, v, items, ParseList(syn, item, more).value);
      items := [Item(tree, b)] + items;
    }
  }

  ghost predicate ItemsRead(syn: Syntax, types: seq<Type>, comma: string, blank: string, items: seq<Item>, s: string, r: (seq<Value>, string))
  {
    && EachFits(types, items) && Blank(blank) && (comma == "" && types != [] ==> blank == "")
    && s == blank + (ShowItems(syn, items, comma, Close(syn)) + r.1) && ValuesOf(items) == r.0
  }

  lemma GroupingReads(syn: Syntax, types: seq<Type>, s: string, items: seq<Item>)
    requires types != [] && ParseToken(syn, TTuple(types), s).Some?
    requires var inner := Expect(Open(syn), s).value; ItemsRead(syn, types, "", "", items, inner, ParseItems(syn, types, "", inner).value)
    ensures ReadsToken(syn, TTuple(types), Grouping("", items), s, ParseToken(syn, TTuple(types), s).value)
  {
    var inner := Expect(Open(syn), s).value;
    var r := ParseItems(syn, types, "", inner).value;
    GroupingFits(types, items);
    assert s == Open(syn) + inner;
    assert inner == ShowItems(syn, items, "", Close(syn)) + r.1;
    Collections.Associate(Open(syn), ShowItems(syn, items, "", Close(syn)), r.1);
    hide ParseItems, ShowItems, ValuesOf, Expect, Open, Close, Fits, EachFits;
  }

  lemma GroupingFits(types: seq<Type>, items: seq<Item>)
    requires types != [] && EachFits(types, items)
    ensures Fits(TTuple(types), Grouping("", items))
  {
  }

  lemma FirstItem(syn: Syntax, types: seq<Type>, comma: string, blank: string, tree: Tree, text: string, v: Value,
                  after: string, items: seq<Item>, rest: string, r: (seq<Value>, string))
    requires types != [] && Reads(syn, types[0], tree, text, (v, rest))
    requires ItemsRead(syn, types[1..], ",", after, items, rest, r)
    requires Blank(blank) && (comma == "" ==> blank == "")
    ensures ItemsRead(syn, types, comma, blank, [Item(tree, after)] + items, blank + (comma + text), ([v] + r.0, r.1))
  {
    var all := [Item(tree, after)] + items;
    assert all[1..] == items;
    assert ValuesOf(all) == [v] + r.0;
    ItemText(syn, all, comma, Close(syn), r.1);
    hide Fits, Show, ShowItems, ValuesOf, ValueOf, Close;
  }

  lemma {:induction false} SoundItems(syn: Syntax, types: seq<Type>, comma: string, s: string) returns (items: seq<Item>, blank: string)
    requires forall i | 0 <= i < |types| :: Valid(types[i])
    requires ParseItems(syn, types, comma, s).Some? && (comma == "" || comma == ",")
    ensures ItemsRead(syn, types, comma, blank, items, s, ParseItems(syn, types, comma, s).value)
    decreases types, |s|, 2
  {
    if types == [] {
      blank := SplitBlank(s);
      items := [];
    } else {
      blank := "";
      if comma != "" {
        blank := SplitBlank(s);
      }
      var text := (if comma == "" then Some(s) else Expect(comma, Skip(s))).value;
      var rest := Parse(syn, types[0], text).value.1;
      var tree := Sound(syn, types[0], text);
      var after;
      items, after := SoundItems(syn, types[1..], ",", rest);
      assert s == blank + (comma + text);
      FirstItem(syn, types, comma, blank, tree, text, Parse(syn, types[0], text).value.0, after, items, rest, ParseItems(syn, types[1..], ",", rest).value);
      items := [Item(tree, after)] + items;
    }
  }

  // ----- printing -----

  /** The values that texts of type t can have: no empty list, integers that are doubles,
      strings that one of the two quotes can end. */
  ghost predicate Printable(t: Type, v: Value)
    decreases t
  {
    match t
    case TBool => v.VBool?
    case TInt => v.VInt? && F.Representable(F.Abs(v.n))
    case TString => v.VStr? && (WellEscaped('\"', v.s) || WellEscaped('\'', v.s))
    case TList(item) => v.VList? && v.items != [] && forall i | 0 <= i < |v.items| :: Printable(item, v.items[i])
    case TTuple(types) =>
      && v.VTuple? && |v.items| == |types| > 0
      && forall i | 0 <= i < |types| :: Printable(types[i], v.items[i])
  }

  function Layout(v: Value): (tree: Tree)
    ensures tree.blank == ""
    decreases v
  {
    match v
    case VBool(b) => Flag("", b)
    case VInt(n) => Word("", F.Decimal(n))
    case VStr(s) => Quoted("", if WellEscaped('\"', s) then '\"' else '\'', s)
    case VList(items) => Listing("", Layouts(items))
    case VTuple(items) => Grouping("", Layouts(items))
  }

  function Layouts(vs: seq<Value>): (items: seq<Item>)
    ensures |items| == |vs|
    ensures forall i | 0 <= i < |vs| :: items[i] == Item(Layout(vs[i]), "")
    decreases vs, 0
  {
    if vs == [] then [] else [Item(Layout(vs[0]), "")] + Layouts(vs[1..])
  }

  function Print(syn: Syntax, v: Value): string
  {
    Show(syn, Layout(v))
  }

  lemma {:induction false} AllNumeric(s: string)
    requires F.AllDigits(s)
    ensures Numeric(s) == |s|
  {
    if s != [] {
      AllNumeric(s[1..]);
    }
  }

  lemma DecimalNumber(n: int)
    ensures NumberLength(F.Decimal(n)) == |F.Decimal(n)|
  {
    var s := F.Natural(F.Abs(n));
    AllNumeric(s);
    assert F.IsDigit(s[0]);
    assert ("-" + s)[1..] == s;
    hide F.Natural;
  }

  lemma {:induction false} ValuesAt(items: seq<Item>, i: nat)
    requires i < |items|
    ensures |ValuesOf(items)| == |items| && ValuesOf(items)[i] == ValueOf(items[i].tree)
  {
    if i > 0 {
      ValuesAt(items[1..], i - 1);
    } else if |items| > 1 {
      ValuesAt(items[1..], 0);
    }
  }

  lemma {:induction false} LayoutFits(t: Type, v: Value)
    requires Printable(t, v)
    ensures Fits(t, Layout(v)) && ValueOf(Layout(v)) == v
    decreases v
  {
    match v
    case VBool(_) =>
    case VInt(n) =>
      DecimalNumber(n);
      F.DecimalSurvives(n);
      hide F.PyInt, F.Decimal, F.Representable, NumberLength;
    case VStr(_) =>
      hide Scan;
    case VList(vs) => EachLayout(t, vs);
    case VTuple(vs) => EachLayout(t, vs);
  }

  function ItemType(t: Type, i: nat): Type
  {
    if t.TList? then t.item else if t.TTuple? && i < |t.items| then t.items[i] else t
  }

  lemma {:induction false} EachLayout(t: Type, vs: seq<Value>)
    requires Printable(t, VList(vs)) || Printable(t, VTuple(vs))
    ensures forall i | 0 <= i < |vs| :: Fits(ItemType(t, i), Layouts(vs)[i].tree)
    ensures ValuesOf(Layouts(vs)) == vs
    decreases vs, 0
  {
    var items := Layouts(vs);
    forall i | 0 <= i < |vs|
      ensures Fits(ItemType(t, i), items[i].tree) && |ValuesOf(items)| == |vs| && ValuesOf(items)[i] == vs[i]
    {
      ValuesAt(items, i);
      LayoutFits(ItemType(t, i), vs[i]);
    }
    assert vs == [] ==> items == [];
  }

  lemma {:induction false} ValueIsPrintable(t: Type, tree: Tree)
    requires Fits(t, tree)
    ensures Printable(t, ValueOf(tree))
    decreases t
  {
    match t
    case TBool =>
    case TInt =>
      F.AcceptedSurvives(tree.text);
      hide F.PyInt, F.Representable;
    case TString =>
      hide Scan;
    case TList(item) =>
      var vs := ValuesOf(tree.items);
      ValuesAt(tree.items, 0);
      forall i | 0 <= i < |tree.items|
        ensures Printable(item, vs[i])
      {
        ValuesAt(tree.items, i);
        ValueIsPrintable(item, tree.items[i].tree);
      }
    case TTuple(types) =>
      var vs := ValuesOf(tree.items);
      ValuesAt(tree.items, 0);
      forall i | 0 <= i < |types|
        ensures Printable(types[i], vs[i])
      {
        ValuesAt(tree.items, i);
        ValueIsPrintable(types[i], tree.items[i].tree);
      }
  }

  // ----- the laws -----

  /** Printing a value and parsing the text gives it back, whatever follows. */
  lemma PrintThenParse(syn: Syntax, t: Type, v: Value, s: string)
    requires Printable(t, v) && Follow(Layout(v), s)
    ensures Parse(syn, t, Print(syn, v) + s) == Some((v, s))
  {
    LayoutFits(t, v);
    Complete(syn, t, Layout(v), s);
  }

  /** For every accepted text: print its value and parse that, and the value is the same. */
  lemma ParsePrintParse(syn: Syntax, t: Type, s: string)
    requires Valid(t) && Parse(syn, t, s).Some?
    ensures Parse(syn, t, Print(syn, Parse(syn, t, s).value.0)) == Some((Parse(syn, t, s).value.0, ""))
  {
    var v := Parse(syn, t, s).value.0;
    var tree := Sound(syn, t, s);
    ValueIsPrintable(t, tree);
    PrintThenParse(syn, t, v, "");
    assert Print(syn, v) + "" == Print(syn, v);
  }

  /** Exactly the printable values are values of texts. */
  lemma Readable(syn: Syntax, t: Type, v: Value)
    requires Valid(t)
    ensures Printable(t, v) <==> exists s :: ParseAll(syn, t, s) == Some(v)
  {
    if Printable(t, v) {
      PrintThenParse(syn, t, v, "");
      assert ParseAll(syn, t, Print(syn, v) + "") == Some(v);
    }
    if s :| ParseAll(syn, t, s) == Some(v) {
      var tree := Sound(syn, t, s);
      ValueIsPrintable(t, tree);
    }
  }

  ghost predicate IsText(syn: Syntax, t: Type, tree: Tree, trailing: string, s: string, v: Value)
  {
    Fits(t, tree) && Blank(trailing) && s == Show(syn, tree) + trailing && ValueOf(tree) == v
  }

  /** A text is accepted with value v exactly when it is a layout of v and blanks. */
  lemma Accepted(syn: Syntax, t: Type, s: string, v: Value)
    requires Valid(t)
    ensures ParseAll(syn, t, s) == Some(v) <==> exists tree, trailing :: IsText(syn, t, tree, trailing, s, v)
  {
    if ParseAll(syn, t, s) == Some(v) {
      var tree := Sound(syn, t, s);
      var b := SplitBlank(Parse(syn, t, s).value.1);
      assert b + "" == b;
      assert IsText(syn, t, tree, b, s, v);
    }
    if tree, trailing :| IsText(syn, t, tree, trailing, s, v) {
      Complete(syn, t, tree, trailing);
      SkipBlank(trailing, "");
      assert trailing + "" == trailing;
    }
  }

  /** A value depends on nothing but the characters read for it: they can be followed by
      anything, save that a number must not be followed by a digit or a dot. */
  lemma Local(syn: Syntax, t: Type, s: string, other: string)
    requires Valid(t) && Parse(syn, t, s).Some?
    requires t.TInt? && other != [] ==> !F.IsNumeric(other[0])
    ensures var (v, rest) := Parse(syn, t, s).value;
      Parse(syn, t, s[..|s| - |rest|] + other) == Some((v, other))
  {
    var (v, rest) := Parse(syn, t, s).value;
    var tree := Sound(syn, t, s);
    assert s[..|s| - |rest|] == Show(syn, tree);
    Complete(syn, t, tree, other);
  }

  /** No text at all is an empty list. */
  lemma NoEmptyList(syn: Syntax, item: Type, s: string)
    requires Valid(item)
    ensures ParseAll(syn, TList(item), s) != Some(VList([]))
  {
    if ParseAll(syn, TList(item), s).Some? {
      var tree := Sound(syn, TList(item), s);
      ValueIsPrintable(TList(item), tree);
    }
  }

  /** A body of plain characters and of backslashes that each take one character along. */
  predicate Escapes(quote: char, body: string)
  {
    if body == [] then true
    else if body[0] == '\\' then |body| >= 2 && Escapes(quote, body[2..])
    else body[0] != quote && Escapes(quote, body[1..])
  }

  /** The scan stops at the final quote, not before and not beyond, exactly for these. */
  lemma {:induction false} WellEscapedMeaning(quote: char, body: string)
    requires quote != '\\'
    ensures WellEscaped(quote, body) <==> Escapes(quote, body)
  {
    if body != [] && body[0] != quote {
      var k := if body[0] == '\\' then 2 else 1;
      if k <= |body| {
        WellEscapedMeaning(quote, body[k..]);
        assert (body + [quote])[k..] == body[k..] + [quote];
      } else {
        assert (body + [quote])[2..] == [];
      }
    }
  }
}

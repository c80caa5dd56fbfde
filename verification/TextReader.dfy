/** The convert methods of the types: an index into the text moves forward over blanks and
    tokens. */
module TextReader {
  import opened Wrappers
  import opened TypedText
  import F = PyFloat

  /** The parser from position i on: the value and the position behind it. */
  ghost predicate Converts(s: string, i: nat, r: Option<(Value, nat)>, spec: Option<(Value, string)>)
  {
    && (r.Some? <==> spec.Some?)
    && (r.Some? ==> i < r.value.1 <= |s| && spec.value == (r.value.0, s[r.value.1..]))
  }

  ghost predicate ConvertsAll(s: string, i: nat, r: Option<(seq<Value>, nat)>, spec: Option<(seq<Value>, string)>)
  {
    && (r.Some? <==> spec.Some?)
    && (r.Some? ==> i < r.value.1 <= |s| && spec.value == (r.value.0, s[r.value.1..]))
  }

  method EatBlank(s: string, i: nat) returns (j: nat)
    requires i <= |s|
    ensures i <= j <= |s| && s[j..] == Skip(s[i..])
  {
    j := i;
    while j < |s| && IsSpace(s[j])
      invariant i <= j <= |s| && Skip(s[i..]) == Skip(s[j..])
    {
      j := j + 1;
    }
  }

  method ConvertBool(s: string, start: nat) returns (r: Option<(Value, nat)>)
    requires start <= |s|
    ensures Converts(s, start, r, Parse(Erlang, TBool, s[start..]))
  {
    var i := EatBlank(s, start);
    if i >= |s| {
      return None;
    }
    if s[i] == '0' {
      return Some((VBool(false), i + 1));
    } else if s[i] == '1' {
      return Some((VBool(true), i + 1));
    } else {
      return None;
    }
  }

  lemma Tail(s: string, i: nat, k: nat)
    requires i + k <= |s|
    ensures s[i..][k..] == s[i + k..] && s[i..][..k] == s[i..i + k]
  {
  }

  method EatNumeric(s: string, start: nat) returns (i: nat)
    requires start <= |s|
    ensures i == start + Numeric(s[start..])
  {
    i := start;
    while i < |s| && F.IsNumeric(s[i])
      invariant start <= i <= |s| && Numeric(s[start..]) == i - start + Numeric(s[i..])
    {
      Tail(s, i, 1);
      i := i + 1;
    }
  }

  /** Where a number ends, by position. */
  lemma NumberAt(s: string, b: nat)
    requires b < |s|
    ensures NumberLength(s[b..]) == if s[b] == '-' then 1 + Numeric(s[b + 1..]) else Numeric(s[b..])
  {
    Tail(s, b, 1);
  }

  lemma NumberToken(s: string, b: nat, j: nat)
    requires b < |s| && b <= j <= |s| && NumberLength(s[b..]) == j - b
    ensures ParseToken(Erlang, TInt, s[b..])
         == if F.PyInt(s[b..j]).None? then None else Some((VInt(F.PyInt(s[b..j]).value), s[j..]))
  {
    Tail(s, b, j - b);
    hide F.PyInt, NumberLength;
  }

  method ConvertInt(s: string, start: nat) returns (r: Option<(Value, nat)>)
    requires start <= |s|
    ensures Converts(s, start, r, Parse(Erlang, TInt, s[start..]))
  {
    var b := EatBlank(s, start);
    if b >= |s| {
      return None;
    }
    NumberAt(s, b);
    hide F.PyInt, Numeric, NumberLength, Skip;
    var i := b;
    if s[i] == '-' {
      i := i + 1;
    }
    i := EatNumeric(s, i);
    NumberToken(s, b, i);
    hide ParseToken;
    var v := F.PyInt(s[b..i]);
    if v.None? {
      return None;
    }
    r := Some((VInt(v.value), i));
  }

  /** One step of the scan, by position. */
  lemma ScanAt(end: char, s: string, i: nat)
    requires i <= |s|
    ensures Scan(end, s[i..])
         == if i == |s| then None
            else if s[i] == end then Some(0)
            else if s[i] != '\\' then Longer(1, Scan(end, s[i + 1..]))
            else if i + 1 == |s| then None
            else Longer(2, Scan(end, s[i + 2..]))
  {
    if i < |s| {
      Tail(s, i, 1);
      if i + 1 < |s| {
        Tail(s, i, 2);
      }
    }
  }

  /** Up to and over the quote that ends a literal; none when the text ends first. */
  method EatLiteral(s: string, b: nat, end: char) returns (r: Option<nat>)
    requires b <= |s|
    ensures r == Longer(b + 1, Scan(end, s[b..]))
    ensures r.Some? ==> b < r.value <= |s|
  {
    hide Scan;
    var i := b;
    while true
      invariant b <= i <= |s| && Scan(end, s[b..]) == Longer(i - b, Scan(end, s[i..]))
      decreases |s| - i
    {
      ScanAt(end, s, i);
      if i >= |s| {
        return None;
      } else if s[i] == end {
        i := i + 1;
        return Some(i);
      } else if s[i] == '\\' {
        i := i + 1;
        if i >= |s| {
          return None;
        }
        i := i + 1;
      } else {
        i := i + 1;
      }
    }
  }

  /** A literal, by position: its value lies between the quotes. */
  lemma LiteralAt(s: string, i: nat)
    requires i < |s|
    ensures ParseToken(Erlang, TString, s[i..])
         == if !IsQuote(s[i]) || Scan(s[i], s[i + 1..]).None? then None
            else var j := i + 1 + Scan(s[i], s[i + 1..]).value; Some((VStr(s[i + 1..j]), s[j + 1..]))
  {
    Tail(s, i, 1);
    if IsQuote(s[i]) && Scan(s[i], s[i + 1..]).Some? {
      var n := Scan(s[i], s[i + 1..]).value;
      Tail(s, i + 1, n);
      Tail(s, i + 1, n + 1);
    }
    hide Scan;
  }

  lemma NothingThere(t: Type)
    ensures ParseToken(Erlang, t, "").None?
  {
  }

  method ConvertString(s: string, start: nat) returns (r: Option<(Value, nat)>)
    requires start <= |s|
    ensures Converts(s, start, r, Parse(Erlang, TString, s[start..]))
  {
    hide Scan, Skip, ParseToken;
    var i := EatBlank(s, start);
    if i >= |s| {
      NothingThere(TString);
      return None;
    }
    LiteralAt(s, i);
    var end := s[i];
    if !IsQuote(end) {
      return None;
    }
    i := i + 1;
    var b := i;
    var after := EatLiteral(s, b, end);
    if after.None? {
      return None;
    }
    i := after.value;
    r := Some((VStr(s[b..i - 1]), i));
  }

  // ----- lists and tuples -----

  method Convert(s: string, i: nat, t: Type) returns (r: Option<(Value, nat)>)
    requires i <= |s|
    ensures Converts(s, i, r, Parse(Erlang, t, s[i..]))
    decreases t, 1
  {
    match t
    case TBool => r := ConvertBool(s, i);
    case TInt => r := ConvertInt(s, i);
    case TString => r := ConvertString(s, i);
    case TList(item) => r := ConvertList(s, i, item);
    case TTuple(items) => r := ConvertTuple(s, i, items);
  }

  method ConvertList(s: string, start: nat, item: Type) returns (r: Option<(Value, nat)>)
    requires start <= |s|
    ensures Converts(s, start, r, Parse(Erlang, TList(item), s[start..]))
    decreases item, 3
  {
    var i := EatBlank(s, start);
    if i >= |s| {
      return None;
    }
    if s[i] != '[' {
      return None;
    }
    Tail(s, i, 1);
    hide Skip;
    var items := ListLoop(s, i + 1, item);
    if items.None? {
      return None;
    }
    r := Some((VList(items.value.0), items.value.1));
  }

  /** One item and what follows it, by position. */
  lemma ListAt(s: string, b: nat, item: Type, v: Value, i: nat, j: nat)
    requires b <= |s| && i <= |s| && j <= |s|
    requires Parse(Erlang, item, s[b..]) == Some((v, s[i..])) && Skip(s[i..]) == s[j..]
    ensures ParseList(Erlang, item, s[b..])
         == if j == |s| then None
            else if s[j] == ']' then Some(([v], s[j + 1..]))
            else if s[j] == ',' then Cons(v, ParseList(Erlang, item, s[j + 1..]))
            else None
  {
    if j < |s| {
      Tail(s, j, 1);
    }
    hide Parse, Skip;
  }

  lemma NoItem(s: string, item: Type, ret: seq<Value>)
    requires Parse(Erlang, item, s).None?
    ensures Prepend(ret, ParseList(Erlang, item, s)).None?
  {
    hide Parse;
  }

  /** The list read so far, and what the text from b on amounts to then. */
  ghost predicate Reading(s: string, b: nat, item: Type, ret: seq<Value>, i: nat)
  {
    b <= i <= |s| && ParseList(Erlang, item, s[b..]) == Prepend(ret, ParseList(Erlang, item, s[i..]))
  }

  /** One more item: the list goes on, ends, or is none. */
  lemma ListStep(s: string, b: nat, item: Type, ret: seq<Value>, from: nat, v: Value, after: nat, i: nat)
    requires Reading(s, b, item, ret, from) && from <= after <= i <= |s|
    requires Parse(Erlang, item, s[from..]) == Some((v, s[after..])) && Skip(s[after..]) == s[i..]
    ensures i < |s| && s[i] == ',' ==> Reading(s, b, item, ret + [v], i + 1)
    ensures i < |s| && s[i] == ']' ==> ParseList(Erlang, item, s[b..]) == Some((ret + [v], s[i + 1..]))
    ensures i == |s| || (s[i] != ',' && s[i] != ']') ==> ParseList(Erlang, item, s[b..]).None?
  {
    ListAt(s, from, item, v, after, i);
    if i < |s| {
      PrependCons(ret, v, ParseList(Erlang, item, s[i + 1..]));
    }
    hide Parse, Skip, ParseList;
  }

  method ListLoop(s: string, b: nat, item: Type) returns (r: Option<(seq<Value>, nat)>)
    requires b <= |s|
    ensures ConvertsAll(s, b, r, ParseList(Erlang, item, s[b..]))
    decreases item, 2
  {
    var i := b;
    var ret := [];
    PrependNil(ParseList(Erlang, item, s[b..]));
    assert Reading(s, b, item, ret, i);
    hide Parse, Skip, ParseList;
    while true
      invariant b <= i <= |s| && Reading(s, b, item, ret, i)
      decreases |s| - i
    {
      var first := Convert(s, i, item);
      if first.None? {
        NoItem(s[i..], item, ret);
        return None;
      }
      hide Reading;
      var value := first.value.0;
      ghost var from, before, after := i, ret, first.value.1;
      i := first.value.1;
      ret := ret + [value];
      i := EatBlank(s, i);
      ListStep(s, b, item, before, from, value, after, i);
      if i >= |s| {
        return None;
      } else if s[i] == ']' {
        i := i + 1;
        return Some((ret, i));
      } else if s[i] == ',' {
        i := i + 1;
        continue;
      } else {
        return None;
      }
    }
  }

  lemma Opens(s: string, i: nat)
    requires i < |s|
    ensures Expect(Open(Erlang), s[i..]) == (if s[i] == '{' then Some(s[i + 1..]) else None)
    ensures Expect(Close(Erlang), s[i..]) == (if s[i] == '}' then Some(s[i + 1..]) else None)
    ensures Expect(",", s[i..]) == (if s[i] == ',' then Some(s[i + 1..]) else None)
  {
    assert s[i..][..1] == [s[i]];
    Tail(s, i, 1);
  }

  method ConvertTuple(s: string, start: nat, types: seq<Type>) returns (r: Option<(Value, nat)>)
    requires start <= |s|
    ensures Converts(s, start, r, Parse(Erlang, TTuple(types), s[start..]))
    decreases types, 3
  {
    var i := EatBlank(s, start);
    if i >= |s| {
      return None;
    }
    Opens(s, i);
    hide Skip, Expect;
    if s[i] != '{' {
      return None;
    }
    var items := TupleLoop(s, i + 1, types);
    if items.None? {
      return None;
    }
    r := Some((VTuple(items.value.0), items.value.1));
  }

  function Comma(j: nat): string
  {
    if j > 0 then "," else ""
  }

  /** Before an item, by position: its comma, unless it is the first. */
  lemma ItemAt(s: string, i: nat, k: nat, types: seq<Type>, comma: string)
    requires i <= |s| && k <= |s| && types != []
    requires if comma == "" then k == i else comma == "," && Skip(s[i..]) == s[k..]
    ensures comma == "," && (k == |s| || s[k] != ',') ==> ParseItems(Erlang, types, comma, s[i..]) == None
    ensures comma == "" || (k < |s| && s[k] == ',') ==>
      var first := Parse(Erlang, types[0], s[if comma == "" then k else k + 1..]);
      ParseItems(Erlang, types, comma, s[i..])
      == if first.None? then None else Cons(first.value.0, ParseItems(Erlang, types[1..], ",", first.value.1))
  {
    if k < |s| {
      Opens(s, k);
    }
    assert k == |s| ==> Expect(",", s[k..]) == None;
    hide Parse, Skip, Expect;
  }

  /** Behind the last item, by position. */
  lemma CloseAt(s: string, i: nat, k: nat, comma: string)
    requires i <= |s| && k <= |s| && Skip(s[i..]) == s[k..]
    ensures ParseItems(Erlang, [], comma, s[i..]) == if k < |s| && s[k] == '}' then Some(([], s[k + 1..])) else None
  {
    if k < |s| {
      Opens(s, k);
    }
    assert k == |s| ==> Expect(Close(Erlang), s[k..]) == None;
    hide Skip, Expect;
  }

  method TupleLoop(s: string, b: nat, types: seq<Type>) returns (r: Option<(seq<Value>, nat)>)
    requires b <= |s|
    ensures ConvertsAll(s, b, r, ParseItems(Erlang, types, "", s[b..]))
    decreases types, 2
  {
    hide Parse, Skip, ParseItems;
    var i := b;
    var ret := [];
    PrependNil(ParseItems(Erlang, types, "", s[b..]));
    assert types[0..] == types;
    for j := 0 to |types|
      invariant b <= i <= |s|
      invariant ParseItems(Erlang, types, "", s[b..]) == Prepend(ret, ParseItems(Erlang, types[j..], Comma(j), s[i..]))
    {
      assert types[j..][1..] == types[j + 1..];
      ghost var from := i;
      if j > 0 {
        i := EatBlank(s, i);
        ItemAt(s, from, i, types[j..], ",");
        if i >= |s| || s[i] != ',' {
          return None;
        }
        i := i + 1;
      } else {
        ItemAt(s, from, i, types[j..], "");
      }
      var next := Convert(s, i, types[j]);
      if next.None? {
        return None;
      }
      var value := next.value.0;
      i := next.value.1;
      PrependCons(ret, value, ParseItems(Erlang, types[j + 1..], ",", s[i..]));
      ret := ret + [value];
    }
    assert types[|types|..] == [];
    ghost var from := i;
    i := EatBlank(s, i);
    CloseAt(s, from, i, Comma(|types|));
    if i >= |s| {
      return None;
    }
    if s[i] != '}' {
      return None;
    }
    i := i + 1;
    assert ret + [] == ret;
    r := Some((ret, i));
  }

  /** Of a list or a tuple. */
  method ConvertToplevel(s: string, t: Type) returns (r: Option<Value>)
    requires t.TList? || t.TTuple?
    ensures r == ParseAll(Erlang, t, s)
  {
    assert s[0..] == s;
    var first := Convert(s, 0, t);
    if first.None? {
      return None;
    }
    var i := EatBlank(s, first.value.1);
    if i < |s| {
      return None;
    }
    r := Some(first.value.0);
  }
}
